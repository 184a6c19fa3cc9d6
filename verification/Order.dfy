/**
  The ordering that every sort in the repository relies on: two strings compare by
  their first differing unit, and a proper prefix comes first. The unit is whatever the
  language compares (UTF-16 units, code points or bytes), so strings are `seq<int>` here.
  `Sort` is the contract of the host languages' library sorts: a stable sorted permutation.
*/
module Order {

  /** Strict lexicographic order. */
  predicate Less(a: seq<int>, b: seq<int>) {
    if b == [] then false
    else if a == [] then true
    else if a[0] != b[0] then a[0] < b[0]
    else Less(a[1..], b[1..])
  }

  /** The first place where they differ decides, and a proper beginning comes first. */
  ghost predicate DiffersAt(a: seq<int>, b: seq<int>, k: nat) {
    k <= |a| && k < |b| && a[..k] == b[..k] && (k < |a| ==> a[k] < b[k])
  }

  lemma {:induction false} LessExactly(a: seq<int>, b: seq<int>)
    ensures Less(a, b) <==> exists k :: DiffersAt(a, b, k)
    decreases |a|
  {
    if a == [] || b == [] || a[0] != b[0] {
      if Less(a, b) { assert DiffersAt(a, b, 0); }
      if k: nat :| DiffersAt(a, b, k) { SameBefore(a, b, k); }
    } else {
      LessExactly(a[1..], b[1..]);
      if k: nat :| DiffersAt(a[1..], b[1..], k) { ShiftDiffers(a, b, k); }
      if k: nat :| DiffersAt(a, b, k) { TailDiffers(a, b, k); }
    }
  }

  lemma SameBefore(a: seq<int>, b: seq<int>, k: nat)
    requires DiffersAt(a, b, k)
    ensures k > 0 ==> a != [] && b != [] && a[0] == b[0]
  {
    if k > 0 { assert a[..k][0] == b[..k][0]; }
  }

  lemma ShiftDiffers(a: seq<int>, b: seq<int>, k: nat)
    requires a != [] && b != [] && a[0] == b[0] && DiffersAt(a[1..], b[1..], k)
    ensures DiffersAt(a, b, k + 1)
  {
    assert a[..k + 1] == [a[0]] + a[1..][..k] && b[..k + 1] == [b[0]] + b[1..][..k];
  }

  lemma TailDiffers(a: seq<int>, b: seq<int>, k: nat)
    requires a != [] && b != [] && a[0] == b[0] && DiffersAt(a, b, k)
    ensures k > 0 && DiffersAt(a[1..], b[1..], k - 1)
  {
    assert a[1..][..k - 1] == a[..k][1..] && b[1..][..k - 1] == b[..k][1..];
  }

  lemma {:induction false} LessIrreflexive(a: seq<int>)
    ensures !Less(a, a)
  {
    if a != [] { LessIrreflexive(a[1..]); }
  }

  lemma {:induction false} LessAsymmetric(a: seq<int>, b: seq<int>)
    ensures Less(a, b) ==> !Less(b, a)
  {
    if a != [] && b != [] && a[0] == b[0] { LessAsymmetric(a[1..], b[1..]); }
  }

  lemma {:induction false} LessTotal(a: seq<int>, b: seq<int>)
    ensures Less(a, b) || Less(b, a) || a == b
  {
    if a != [] && b != [] && a[0] == b[0] {
      LessTotal(a[1..], b[1..]);
      assert a == [a[0]] + a[1..] && b == [b[0]] + b[1..];
    }
  }

  lemma {:induction false} LessTransitive(a: seq<int>, b: seq<int>, c: seq<int>)
    requires Less(a, b) && Less(b, c)
    ensures Less(a, c)
  {
    if a != [] && a[0] == b[0] && b[0] == c[0] { LessTransitive(a[1..], b[1..], c[1..]); }
  }

  /** "Not greater" is transitive; this is the form the sort needs. */
  lemma NotLessTransitive(a: seq<int>, b: seq<int>, c: seq<int>)
    requires !Less(b, a) && !Less(c, b)
    ensures !Less(c, a)
  {
    LessTotal(a, b);
    LessTotal(b, c);
    if Less(c, a) {
      if a == b || b == c {
      } else {
        LessTransitive(a, b, c);
        LessAsymmetric(a, c);
      }
    }
  }

  ghost predicate Sorted<E>(s: seq<E>, key: E -> seq<int>) {
    forall i, j :: 0 <= i < j < |s| ==> !Less(key(s[j]), key(s[i]))
  }

  function Insert<E>(e: E, s: seq<E>, key: E -> seq<int>): seq<E> {
    if s == [] || !Less(key(s[0]), key(e)) then [e] + s
    else [s[0]] + Insert(e, s[1..], key)
  }

  function Sort<E>(s: seq<E>, key: E -> seq<int>): seq<E> {
    if s == [] then [] else Insert(s[0], Sort(s[1..], key), key)
  }

  lemma {:induction false} InsertPermutes<E>(e: E, s: seq<E>, key: E -> seq<int>)
    ensures multiset(Insert(e, s, key)) == multiset(s) + multiset{e}
  {
    if s == [] || !Less(key(s[0]), key(e)) {
    } else {
      InsertPermutes(e, s[1..], key);
      assert s == [s[0]] + s[1..];
    }
  }

  lemma {:induction false} SortPermutes<E>(s: seq<E>, key: E -> seq<int>)
    ensures multiset(Sort(s, key)) == multiset(s)
    ensures |Sort(s, key)| == |s|
  {
    if s != [] {
      SortPermutes(s[1..], key);
      InsertPermutes(s[0], Sort(s[1..], key), key);
      assert s == [s[0]] + s[1..];
    }
    assert |multiset(Sort(s, key))| == |Sort(s, key)|;
  }

  lemma {:induction false} InsertSorted<E>(e: E, s: seq<E>, key: E -> seq<int>)
    requires Sorted(s, key)
    ensures Sorted(Insert(e, s, key), key)
  {
    var r := Insert(e, s, key);
    if s == [] {
    } else if !Less(key(s[0]), key(e)) {
      forall i, j | 0 <= i < j < |r|
        ensures !Less(key(r[j]), key(r[i]))
      {
        if i == 0 && j > 1 { NotLessTransitive(key(e), key(s[0]), key(s[j - 1])); }
      }
    } else {
      var t := Insert(e, s[1..], key);
      InsertSorted(e, s[1..], key);
      InsertPermutes(e, s[1..], key);
      forall i, j | 0 <= i < j < |r|
        ensures !Less(key(r[j]), key(r[i]))
      {
        if i == 0 {
          assert r[j] == t[j - 1] && t[j - 1] in multiset(t);
          if r[j] == e {
            LessAsymmetric(key(s[0]), key(e));
          } else {
            assert r[j] in multiset(s[1..]);
            assert r[j] in s[1..];
          }
        } else {
          assert r[i] == t[i - 1] && r[j] == t[j - 1];
        }
      }
    }
  }

  lemma {:induction false} SortSorted<E>(s: seq<E>, key: E -> seq<int>)
    ensures Sorted(Sort(s, key), key)
  {
    if s != [] {
      SortSorted(s[1..], key);
      InsertSorted(s[0], Sort(s[1..], key), key);
    }
  }

  /** Elements with the same key are the same element. */
  /** The elements with a given key, in their order. */
  ghost function WithKey<E>(s: seq<E>, key: E -> seq<int>, k: seq<int>): seq<E> {
    if s == [] then [] else (if key(s[0]) == k then [s[0]] else []) + WithKey(s[1..], key, k)
  }

  lemma {:induction false} InsertStable<E>(e: E, s: seq<E>, key: E -> seq<int>, k: seq<int>)
    ensures WithKey(Insert(e, s, key), key, k) == (if key(e) == k then [e] else []) + WithKey(s, key, k)
    decreases |s|
  {
    hide Less;
    LessIrreflexive(key(e));
    if s == [] || !Less(key(s[0]), key(e)) {
      WithKeyCons(e, s, key, k);
    } else {
      InsertStable(e, s[1..], key, k);
      WithKeyCons(s[0], Insert(e, s[1..], key), key, k);
    }
  }

  lemma WithKeyCons<E>(e: E, s: seq<E>, key: E -> seq<int>, k: seq<int>)
    ensures WithKey([e] + s, key, k) == (if key(e) == k then [e] else []) + WithKey(s, key, k)
  {
    assert ([e] + s)[1..] == s;
  }

  /** Elements with the same key keep their order. */
  lemma {:induction false} SortStable<E>(s: seq<E>, key: E -> seq<int>, k: seq<int>)
    ensures WithKey(Sort(s, key), key, k) == WithKey(s, key, k)
  {
    if s != [] {
      SortStable(s[1..], key, k);
      InsertStable(s[0], Sort(s[1..], key), key, k);
    }
  }

  ghost predicate KeyDetermines<E>(s: seq<E>, key: E -> seq<int>) {
    forall x, y :: x in s && y in s && key(x) == key(y) ==> x == y
  }

  lemma HeadsAgree<E>(a: seq<E>, b: seq<E>, key: E -> seq<int>)
    requires Sorted(a, key) && Sorted(b, key)
    requires a != [] && b != [] && a[0] in b && b[0] in a
    requires KeyDetermines(a, key)
    ensures a[0] == b[0]
  {
    var i :| 0 <= i < |b| && b[i] == a[0];
    var j :| 0 <= j < |a| && a[j] == b[0];
    LessIrreflexive(key(a[0]));
    LessIrreflexive(key(b[0]));
    assert !Less(key(a[j]), key(a[0]));
    assert !Less(key(b[i]), key(b[0]));
    LessTotal(key(a[0]), key(b[0]));
  }

  lemma TailsPermute<E>(x: E, s: seq<E>, t: seq<E>)
    requires multiset([x] + s) == multiset([x] + t)
    ensures multiset(s) == multiset(t)
  {
    assert multiset(s) == multiset([x] + s) - multiset{x};
    assert multiset(t) == multiset([x] + t) - multiset{x};
  }

  lemma TailKeeps<E>(s: seq<E>, key: E -> seq<int>)
    requires s != []
    ensures Sorted(s, key) ==> Sorted(s[1..], key)
    ensures KeyDetermines(s, key) ==> KeyDetermines(s[1..], key)
    ensures s == [s[0]] + s[1..]
  {
    forall y | y in s[1..] ensures y in s { }
  }

  /** A sorted arrangement of a multiset is unique when the key determines the element. */
  lemma {:induction false} SortedUnique<E>(a: seq<E>, b: seq<E>, key: E -> seq<int>)
    requires Sorted(a, key) && Sorted(b, key)
    requires multiset(a) == multiset(b)
    requires KeyDetermines(a, key)
    ensures a == b
  {
    assert |multiset(a)| == |a| && |multiset(b)| == |b|;
    if a != [] {
      assert a[0] in multiset(b) && b[0] in multiset(a);
      HeadsAgree(a, b, key);
      TailKeeps(a, key);
      TailKeeps(b, key);
      TailsPermute(a[0], a[1..], b[1..]);
      SortedUnique(a[1..], b[1..], key);
    }
  }

  /** Sorting forgets the input order. */
  lemma SortIgnoresOrder<E>(a: seq<E>, b: seq<E>, key: E -> seq<int>)
    requires multiset(a) == multiset(b)
    requires KeyDetermines(a, key)
    ensures Sort(a, key) == Sort(b, key)
  {
    SortPermutes(a, key);
    SortPermutes(b, key);
    SortSorted(a, key);
    SortSorted(b, key);
    forall x | x in Sort(a, key)
      ensures x in a
    {
      assert x in multiset(Sort(a, key));
    }
    SortedUnique(Sort(a, key), Sort(b, key), key);
  }

  lemma SortMember<E>(s: seq<E>, key: E -> seq<int>, x: E)
    ensures x in Sort(s, key) <==> x in s
  {
    SortPermutes(s, key);
    assert x in Sort(s, key) <==> x in multiset(Sort(s, key));
    assert x in s <==> x in multiset(s);
  }

  function Map<E, F>(f: E -> F, s: seq<E>): (r: seq<F>)
    ensures |r| == |s| && forall i :: 0 <= i < |s| ==> r[i] == f(s[i])
  {
    if s == [] then [] else [f(s[0])] + Map(f, s[1..])
  }

  lemma {:induction false} InsertMapped<E, F>(e: E, s: seq<E>, f: E -> F, key: E -> seq<int>, mapped: F -> seq<int>)
    requires forall x :: mapped(f(x)) == key(x)
    ensures Map(f, Insert(e, s, key)) == Insert(f(e), Map(f, s), mapped)
    decreases |s|
  {
    if s == [] || !Less(key(s[0]), key(e)) {
      assert ([e] + s)[1..] == s;
    } else {
      InsertMapped(e, s[1..], f, key, mapped);
      assert ([s[0]] + Insert(e, s[1..], key))[1..] == Insert(e, s[1..], key);
    }
  }

  /** Sorting commutes with a change of the elements that keeps their keys. */
  lemma {:induction false} SortMapped<E, F>(s: seq<E>, f: E -> F, key: E -> seq<int>, mapped: F -> seq<int>)
    requires forall x :: mapped(f(x)) == key(x)
    ensures Sort(Map(f, s), mapped) == Map(f, Sort(s, key))
    decreases |s|
  {
    if s != [] {
      SortMapped(s[1..], f, key, mapped);
      InsertMapped(s[0], Sort(s[1..], key), f, key, mapped);
    }
  }

  /** No two elements have the same name. */
  ghost predicate DistinctBy<E, K>(s: seq<E>, name: E -> K) {
    forall i, j :: 0 <= i < j < |s| ==> name(s[i]) != name(s[j])
  }

  lemma {:induction false} InsertDistinct<E, K>(e: E, s: seq<E>, key: E -> seq<int>, name: E -> K)
    requires DistinctBy(s, name) && forall i :: 0 <= i < |s| ==> name(s[i]) != name(e)
    ensures DistinctBy(Insert(e, s, key), name)
    decreases |s|
  {
    if s != [] && Less(key(s[0]), key(e)) {
      var t := Insert(e, s[1..], key);
      InsertDistinct(e, s[1..], key, name);
      InsertPermutes(e, s[1..], key);
      forall j | 0 <= j < |t| ensures name(t[j]) != name(s[0]) {
        assert t[j] in multiset(s[1..]) + multiset{e};
        if t[j] != e {
          var k :| 0 <= k < |s[1..]| && s[1..][k] == t[j];
          assert s[k + 1] == t[j];
        }
      }
    }
  }

  lemma {:induction false} SortDistinct<E, K>(s: seq<E>, key: E -> seq<int>, name: E -> K)
    requires DistinctBy(s, name)
    ensures DistinctBy(Sort(s, key), name)
    decreases |s|
  {
    if s != [] {
      var t := Sort(s[1..], key);
      SortDistinct(s[1..], key, name);
      forall i | 0 <= i < |t| ensures name(t[i]) != name(s[0]) {
        SortMember(s[1..], key, t[i]);
        var k :| 0 <= k < |s[1..]| && s[1..][k] == t[i];
        assert s[k + 1] == t[i];
      }
      InsertDistinct(s[0], t, key, name);
    }
  }

  function Reverse<E>(s: seq<E>): (r: seq<E>)
    ensures |r| == |s| && forall i :: 0 <= i < |r| ==> r[i] == s[|s| - 1 - i]
  {
    if s == [] then [] else Reverse(s[1..]) + [s[0]]
  }

  lemma {:induction false} ReversePermutes<E>(s: seq<E>)
    ensures multiset(Reverse(s)) == multiset(s)
  {
    if s != [] {
      ReversePermutes(s[1..]);
      assert s == [s[0]] + s[1..];
    }
  }

  /** The key of a numeric sort from high to low. */
  function Downward<E>(number: E -> int): E -> seq<int> { (x: E) => [-number(x)] }

  lemma DownwardLess<E>(x: E, y: E, number: E -> int)
    ensures Less(Downward(number)(x), Downward(number)(y)) <==> number(x) > number(y)
    ensures Downward(number)(x) == Downward(number)(y) ==> number(x) == number(y)
  {
    assert Downward(number)(x)[0] == -number(x) && Downward(number)(y)[0] == -number(y);
  }

  /** Sorting from high to low what is listed from low to high reverses it. */
  lemma SortDownward<E>(s: seq<E>, number: E -> int)
    requires forall i, j :: 0 <= i < j < |s| ==> number(s[i]) < number(s[j])
    ensures Sort(s, Downward(number)) == Reverse(s)
  {
    var key, r := Downward(number), Reverse(s);
    SortPermutes(s, key);
    SortSorted(s, key);
    ReversePermutes(s);
    hide Less, Sort, Downward;
    forall i, j | 0 <= i < j < |r| ensures !Less(key(r[j]), key(r[i])) {
      DownwardLess(r[j], r[i], number);
      assert number(s[|s| - 1 - j]) < number(s[|s| - 1 - i]);
    }
    forall x, y | x in Sort(s, key) && y in Sort(s, key) && key(x) == key(y) ensures x == y {
      SortMember(s, key, x);
      SortMember(s, key, y);
      DownwardLess(x, y, number);
      var i :| 0 <= i < |s| && s[i] == x;
      var j :| 0 <= j < |s| && s[j] == y;
    }
    SortedUnique(Sort(s, key), r, key);
  }
}
