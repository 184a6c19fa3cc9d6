/** The canonical form under every hash and signature (RFC 8785), and what it determines. */
module Jcs {
  import opened Text
  import opened Json
  import opened Order

  // ---- The canonical form ----

  /** Keys compare unit by unit, as Array.prototype.sort compares strings. */
  function ByKey(): Entry -> seq<int> { (e: Entry) => e.key }

  /** The value as it will be printed: undefined members gone, keys in order. */
  function Norm(v: Value): Value {
    match v
    case Undefined => Null
    case Arr(elems) => Arr(NormAll(elems))
    case Obj(entries) => Obj(Sort(NormEntries(entries), ByKey()))
    case _ => v
  }

  function NormAll(elems: seq<Value>): (r: seq<Value>)
    ensures |r| == |elems| && forall i :: 0 <= i < |elems| ==> r[i] == Norm(elems[i])
  {
    if elems == [] then [] else [Norm(elems[0])] + NormAll(elems[1..])
  }

  function NormEntries(entries: seq<Entry>): seq<Entry> {
    if entries == [] then []
    else if entries[0].value.Undefined? then NormEntries(entries[1..])
    else [Entry(entries[0].key, Norm(entries[0].value))] + NormEntries(entries[1..])
  }

  function Canon(v: Value): Units { Print(Norm(v)) }

  // ---- What a value means: no key order, no undefined members ----

  datatype Meaning =
    | MNull
    | MBool(b: bool)
    | MNum(n: int)
    | MStr(s: Units)
    | MArr(elems: seq<Meaning>)
    | MObj(members: map<Units, Meaning>)

  ghost function MeaningOf(v: Value): Meaning {
    match v
    case Undefined => MNull
    case Null => MNull
    case Bool(b) => MBool(b)
    case Num(n) => MNum(n)
    case Str(s) => MStr(s)
    case Arr(elems) => MArr(MeaningAll(elems))
    case Obj(entries) => MObj(Members(entries))
  }

  ghost function MeaningAll(elems: seq<Value>): (r: seq<Meaning>)
    ensures |r| == |elems| && forall i :: 0 <= i < |elems| ==> r[i] == MeaningOf(elems[i])
  {
    if elems == [] then [] else [MeaningOf(elems[0])] + MeaningAll(elems[1..])
  }

  ghost function Members(entries: seq<Entry>): map<Units, Meaning> {
    if entries == [] then map[]
    else if entries[0].value.Undefined? then Members(entries[1..])
    else Members(entries[1..])[entries[0].key := MeaningOf(entries[0].value)]
  }

  ghost predicate DistinctKeys(entries: seq<Entry>) {
    forall i, j :: 0 <= i < j < |entries| ==> entries[i].key != entries[j].key
  }

  /** A JavaScript value: no object has a key twice. */
  ghost predicate Proper(v: Value) {
    match v
    case Arr(elems) => forall i :: 0 <= i < |elems| ==> Proper(elems[i])
    case Obj(entries) => DistinctKeys(entries) && forall i :: 0 <= i < |entries| ==> Proper(entries[i].value)
    case _ => true
  }

  // ---- The canonicaliser ----

  function JoinUnits(parts: seq<Units>): Units {
    if parts == [] then []
    else if |parts| == 1 then parts[0]
    else parts[0] + [COMMA] + JoinUnits(parts[1..])
  }

  function ElemTexts(elems: seq<Value>): (r: seq<Units>)
    ensures |r| == |elems| && forall i :: 0 <= i < |elems| ==> r[i] == Print(elems[i])
  {
    seq(|elems|, i requires 0 <= i < |elems| => Print(elems[i]))
  }

  function EntryTexts(entries: seq<Entry>): (r: seq<Units>)
    ensures |r| == |entries| && forall i :: 0 <= i < |entries| ==> r[i] == PrintEntry(entries[i])
  {
    seq(|entries|, i requires 0 <= i < |entries| => PrintEntry(entries[i]))
  }

  lemma {:induction false} JoinPrintsElems(elems: seq<Value>)
    ensures JoinUnits(ElemTexts(elems)) == PrintElems(elems)
    decreases |elems|
  {
    hide Print;
    if |elems| > 1 {
      assert ElemTexts(elems)[1..] == ElemTexts(elems[1..]);
      JoinPrintsElems(elems[1..]);
    }
  }

  lemma {:induction false} JoinPrintsEntries(entries: seq<Entry>)
    ensures JoinUnits(EntryTexts(entries)) == PrintEntries(entries)
    decreases |entries|
  {
    hide PrintEntry;
    if |entries| > 1 {
      assert EntryTexts(entries)[1..] == EntryTexts(entries[1..]);
      JoinPrintsEntries(entries[1..]);
    }
  }

  lemma {:induction false} NormEntriesAppend(a: seq<Entry>, e: Entry)
    ensures NormEntries(a + [e]) == NormEntries(a) + (if e.value.Undefined? then [] else [Entry(e.key, Norm(e.value))])
    decreases |a|
  {
    hide Norm;
    if a == [] {
      assert a + [e] == [e];
    } else {
      assert (a + [e])[1..] == a[1..] + [e];
      NormEntriesAppend(a[1..], e);
    }
  }

  lemma {:induction false} NormMember(entries: seq<Entry>, x: Entry)
    ensures x in NormEntries(entries) <==>
              exists i :: 0 <= i < |entries| && !entries[i].value.Undefined? && x == Entry(entries[i].key, Norm(entries[i].value))
    decreases |entries|
  {
    hide Norm;
    if entries != [] {
      var tail := entries[1..];
      NormMember(tail, x);
      assert forall i :: 0 <= i < |tail| ==> tail[i] == entries[i + 1];
      if exists i :: 0 <= i < |entries| && !entries[i].value.Undefined? && x == Entry(entries[i].key, Norm(entries[i].value)) {
        var i :| 0 <= i < |entries| && !entries[i].value.Undefined? && x == Entry(entries[i].key, Norm(entries[i].value));
        if i > 0 { assert tail[i - 1] == entries[i]; }
      }
    }
  }

  lemma {:induction false} NormInsert(e: Entry, s: seq<Entry>)
    requires Sorted(s, ByKey())
    ensures NormEntries(Insert(e, s, ByKey()))
         == if e.value.Undefined? then NormEntries(s)
            else Insert(Entry(e.key, Norm(e.value)), NormEntries(s), ByKey())
    decreases |s|
  {
    hide Norm;
    if s == [] {
    } else if !Less(s[0].key, e.key) {
      assert ([e] + s)[1..] == s;
      if NormEntries(s) != [] {
        var x := NormEntries(s)[0];
        NormMember(s, x);
        var j :| 0 <= j < |s| && x == Entry(s[j].key, Norm(s[j].value));
        if j > 0 {
          assert !Less(ByKey()(s[j]), ByKey()(s[0]));
          NotLessTransitive(e.key, s[0].key, s[j].key);
        }
      }
    } else {
      assert ([s[0]] + Insert(e, s[1..], ByKey()))[1..] == Insert(e, s[1..], ByKey());
      TailKeeps(s, ByKey());
      NormInsert(e, s[1..]);
    }
  }

  /** Sorting before or after the undefined members are dropped gives the same. */
  lemma {:induction false} NormOfSorted(entries: seq<Entry>)
    ensures NormEntries(Sort(entries, ByKey())) == Sort(NormEntries(entries), ByKey())
    decreases |entries|
  {
    hide Norm, Insert;
    if entries != [] {
      NormOfSorted(entries[1..]);
      SortSorted(entries[1..], ByKey());
      NormInsert(entries[0], Sort(entries[1..], ByKey()));
    }
  }

  method JcsCanonicalise(value: Value) returns (text: Units)
    ensures text == Canon(value)
    decreases value
  {
    match value {
      case Undefined => text := NULL_TEXT;
      case Null => text := NULL_TEXT;
      case Bool(_) => text := Print(value);
      case Num(_) => text := Print(value);
      case Str(_) => text := Print(value);
      case Arr(elems) =>
        var elements: seq<Units> := [];
        for i := 0 to |elems|
          invariant |elements| == i && forall j :: 0 <= j < i ==> elements[j] == Canon(elems[j])
        {
          var element := JcsCanonicalise(elems[i]);
          elements := elements + [element];
        }
        assert elements == ElemTexts(NormAll(elems));
        JoinPrintsElems(NormAll(elems));
        text := [OPEN_BRACKET] + JoinUnits(elements) + [CLOSE_BRACKET];
      case Obj(entries) =>
        var sorted := Sort(entries, ByKey());
        var pairs: seq<Units> := [];
        assert NormEntries(sorted[..0]) == [];
        for i := 0 to |sorted|
          invariant pairs == EntryTexts(NormEntries(sorted[..i]))
        {
          var e := sorted[i];
          assert sorted[..i + 1] == sorted[..i] + [e];
          NormEntriesAppend(sorted[..i], e);
          if !e.value.Undefined? {
            SortMember(entries, ByKey(), e);
            assert e.value < value by {
              assert e in entries;
              var k :| 0 <= k < |entries| && entries[k] == e;
            }
            var member := JcsCanonicalise(e.value);
            pairs := pairs + [Quote(e.key) + [COLON] + member];
          }
        }
        assert sorted[..|sorted|] == sorted;
        NormOfSorted(entries);
        JoinPrintsEntries(NormEntries(sorted));
        text := [OPEN_BRACE] + JoinUnits(pairs) + [CLOSE_BRACE];
    }
  }

  // ---- Equal texts are equal values, up to key order ----

  lemma EntriesCleanAll(entries: seq<Entry>)
    requires forall e :: e in entries ==> Clean(e.value)
    ensures EntriesClean(entries)
    decreases |entries|
  {
    if entries != [] {
      assert entries[0] in entries;
      EntriesCleanAll(entries[1..]);
    }
  }

  lemma AllCleanAll(elems: seq<Value>)
    requires forall i :: 0 <= i < |elems| ==> Clean(elems[i])
    ensures AllClean(elems)
    decreases |elems|
  {
    if elems != [] { AllCleanAll(elems[1..]); }
  }

  lemma {:induction false} NormClean(v: Value)
    ensures Clean(Norm(v))
    decreases v
  {
    match v {
      case Arr(elems) =>
        forall i | 0 <= i < |elems| ensures Clean(NormAll(elems)[i]) { NormClean(elems[i]); }
        AllCleanAll(NormAll(elems));
      case Obj(entries) =>
        var normed := NormEntries(entries);
        forall e | e in Sort(normed, ByKey()) ensures Clean(e.value) {
          SortMember(normed, ByKey(), e);
          NormMember(entries, e);
          var i :| 0 <= i < |entries| && e == Entry(entries[i].key, Norm(entries[i].value));
          NormClean(entries[i].value);
        }
        EntriesCleanAll(Sort(normed, ByKey()));
      case _ =>
    }
  }

  lemma {:induction false} MembersAre(entries: seq<Entry>, k: Units)
    ensures k in Members(entries) <==> exists i :: 0 <= i < |entries| && entries[i].key == k && !entries[i].value.Undefined?
    decreases |entries|
  {
    hide MeaningOf;
    if entries != [] {
      var tail := entries[1..];
      MembersAre(tail, k);
      assert forall i :: 0 <= i < |tail| ==> tail[i] == entries[i + 1];
      if exists i :: 0 <= i < |entries| && entries[i].key == k && !entries[i].value.Undefined? {
        var i :| 0 <= i < |entries| && entries[i].key == k && !entries[i].value.Undefined?;
        if i > 0 { assert tail[i - 1] == entries[i]; }
      }
    }
  }

  lemma {:induction false} MemberAt(entries: seq<Entry>, i: nat)
    requires DistinctKeys(entries) && i < |entries| && !entries[i].value.Undefined?
    ensures entries[i].key in Members(entries) && Members(entries)[entries[i].key] == MeaningOf(entries[i].value)
    decreases |entries|
  {
    hide MeaningOf;
    if i > 0 {
      assert entries[1..][i - 1] == entries[i];
      MemberAt(entries[1..], i - 1);
    }
  }

  /** The same entries in another order mean the same. */
  lemma SameMembers(a: seq<Entry>, b: seq<Entry>)
    requires DistinctKeys(a) && DistinctKeys(b) && forall e :: e in a <==> e in b
    ensures Members(a) == Members(b)
  {
    forall k ensures k in Members(a) <==> k in Members(b) {
      MembersAre(a, k);
      MembersAre(b, k);
      if k in Members(a) {
        var i :| 0 <= i < |a| && a[i].key == k && !a[i].value.Undefined?;
        assert a[i] in b;
      }
      if k in Members(b) {
        var i :| 0 <= i < |b| && b[i].key == k && !b[i].value.Undefined?;
        assert b[i] in a;
      }
    }
    forall k | k in Members(a) ensures Members(a)[k] == Members(b)[k] {
      MembersAre(a, k);
      var i :| 0 <= i < |a| && a[i].key == k && !a[i].value.Undefined?;
      assert a[i] in b;
      var j :| 0 <= j < |b| && b[j] == a[i];
      MemberAt(a, i);
      MemberAt(b, j);
    }
  }

  lemma {:induction false} OnceEach(s: seq<Entry>, e: Entry)
    requires DistinctKeys(s)
    ensures multiset(s)[e] <= 1
    decreases |s|
  {
    if s != [] {
      OnceEach(s[1..], e);
      assert s == [s[0]] + s[1..];
      assert forall i :: 0 <= i < |s[1..]| ==> s[1..][i] != s[0];
    }
  }

  lemma Twice(s: seq<Entry>, i: nat, j: nat)
    requires i < j < |s| && s[i] == s[j]
    ensures multiset(s)[s[i]] >= 2
  {
    assert s == s[..j] + s[j..];
    assert s[i] == s[..j][i] && s[j] == s[j..][0];
    assert multiset(s[..j])[s[i]] >= 1 && multiset(s[j..])[s[i]] >= 1;
  }

  lemma {:induction false} NormDistinct(entries: seq<Entry>)
    requires DistinctKeys(entries)
    ensures DistinctKeys(NormEntries(entries))
    decreases |entries|
  {
    hide Norm;
    if entries != [] {
      var tail := entries[1..];
      NormDistinct(tail);
      var n := NormEntries(tail);
      forall i | 0 <= i < |n| ensures n[i].key != entries[0].key {
        NormMember(tail, n[i]);
        var j :| 0 <= j < |tail| && n[i] == Entry(tail[j].key, Norm(tail[j].value));
        assert tail[j] == entries[j + 1];
      }
    }
  }

  /** Normalising keeps the meaning. */
  lemma {:induction false} NormMeans(v: Value)
    requires Proper(v)
    ensures MeaningOf(Norm(v)) == MeaningOf(v)
    decreases v, 1
  {
    match v {
      case Arr(elems) =>
        forall i | 0 <= i < |elems| ensures MeaningOf(NormAll(elems)[i]) == MeaningOf(elems[i]) { NormMeans(elems[i]); }
        assert MeaningAll(NormAll(elems)) == MeaningAll(elems);
      case Obj(entries) =>
        EntriesMean(v, entries);
        NormDistinct(entries);
        var normed := NormEntries(entries);
        SortDistinct(normed, ByKey(), ByKey());
        forall e ensures e in normed <==> e in Sort(normed, ByKey()) { SortMember(normed, ByKey(), e); }
        SameMembers(normed, Sort(normed, ByKey()));
      case _ =>
    }
  }

  lemma {:induction false} EntriesMean(v: Value, entries: seq<Entry>)
    requires v.Obj? && forall e :: e in entries ==> e in v.entries && Proper(e.value)
    ensures Members(NormEntries(entries)) == Members(entries)
    decreases v, 0, |entries|
  {
    if entries != [] {
      assert entries[0] in v.entries;
      var k :| 0 <= k < |v.entries| && v.entries[k] == entries[0];
      EntriesMean(v, entries[1..]);
      if !entries[0].value.Undefined? {
        NormMeans(entries[0].value);
        NormClean(entries[0].value);
        assert NormEntries(entries)[1..] == NormEntries(entries[1..]);
      }
    }
  }

  /** Equal meanings normalise to the same value. */
  lemma {:induction false} MeaningDeterminesNorm(v: Value, w: Value)
    requires Proper(v) && Proper(w) && MeaningOf(v) == MeaningOf(w)
    ensures Norm(v) == Norm(w)
    decreases v
  {
    match v {
      case Arr(elems) =>
        forall i | 0 <= i < |elems| ensures Norm(elems[i]) == Norm(w.elems[i]) {
          assert MeaningAll(elems)[i] == MeaningAll(w.elems)[i];
          MeaningDeterminesNorm(elems[i], w.elems[i]);
        }
        assert NormAll(elems) == NormAll(w.elems);
      case Obj(entries) =>
        forall i, j | 0 <= i < |entries| && 0 <= j < |w.entries| && MeaningOf(entries[i].value) == MeaningOf(w.entries[j].value)
          ensures Norm(entries[i].value) == Norm(w.entries[j].value)
        {
          MeaningDeterminesNorm(entries[i].value, w.entries[j].value);
        }
        SameNormEntries(entries, w.entries);
      case _ =>
    }
  }

  lemma MatchingEntry(a: seq<Entry>, b: seq<Entry>, x: Entry)
    requires DistinctKeys(a) && DistinctKeys(b) && Members(a) == Members(b)
    requires forall i, j :: 0 <= i < |a| && 0 <= j < |b| && MeaningOf(a[i].value) == MeaningOf(b[j].value)
                        ==> Norm(a[i].value) == Norm(b[j].value)
    requires x in NormEntries(a)
    ensures x in NormEntries(b)
  {
    hide Norm, MeaningOf;
    NormMember(a, x);
    NormMember(b, x);
    var i :| 0 <= i < |a| && !a[i].value.Undefined? && x == Entry(a[i].key, Norm(a[i].value));
    MemberAt(a, i);
    MembersAre(b, a[i].key);
    var j :| 0 <= j < |b| && b[j].key == a[i].key && !b[j].value.Undefined?;
    MemberAt(b, j);
  }

  lemma SameNormEntries(a: seq<Entry>, b: seq<Entry>)
    requires DistinctKeys(a) && DistinctKeys(b) && Members(a) == Members(b)
    requires forall i, j :: 0 <= i < |a| && 0 <= j < |b| && MeaningOf(a[i].value) == MeaningOf(b[j].value)
                        ==> Norm(a[i].value) == Norm(b[j].value)
    ensures Sort(NormEntries(a), ByKey()) == Sort(NormEntries(b), ByKey())
  {
    var m, n := NormEntries(a), NormEntries(b);
    NormDistinct(a);
    NormDistinct(b);
    forall x ensures x in m <==> x in n {
      if x in m { MatchingEntry(a, b, x); }
      if x in n { MatchingEntry(b, a, x); }
    }
    SameMultiset(m, n);
    forall x, y | x in m && y in m && ByKey()(x) == ByKey()(y) ensures x == y { }
    SortIgnoresOrder(m, n, ByKey());
  }

  lemma SameMultiset(m: seq<Entry>, n: seq<Entry>)
    requires DistinctKeys(m) && DistinctKeys(n) && forall x :: x in m <==> x in n
    ensures multiset(m) == multiset(n)
  {
    forall x ensures multiset(m)[x] == multiset(n)[x] {
      OnceEach(m, x);
      OnceEach(n, x);
      assert x in m <==> x in multiset(m);
      assert x in n <==> x in multiset(n);
    }
  }

  /**
    The canonical text is unambiguous and order-free: two values have the same text exactly
    when they mean the same, whatever order their keys were inserted in.
  */
  lemma CanonDecides(v: Value, w: Value)
    requires Proper(v) && Proper(w)
    ensures Canon(v) == Canon(w) <==> MeaningOf(v) == MeaningOf(w)
  {
    if Canon(v) == Canon(w) {
      NormClean(v);
      NormClean(w);
      PrintInjective(Norm(v), Norm(w));
      NormMeans(v);
      NormMeans(w);
    }
    if MeaningOf(v) == MeaningOf(w) { MeaningDeterminesNorm(v, w); }
  }

  /** A JSON reader recovers the value from its canonical text. */
  lemma CanonReads(v: Value)
    requires Proper(v)
    ensures ReadValue(Canon(v)) == Some((Norm(v), [])) && MeaningOf(Norm(v)) == MeaningOf(v)
  {
    NormClean(v);
    ValueReads(Norm(v), []);
    assert Canon(v) + [] == Canon(v);
    NormMeans(v);
  }

  /** Permuting an object's keys leaves the text alone. */
  lemma KeyOrderIrrelevant(a: seq<Entry>, b: seq<Entry>)
    requires Proper(Obj(a)) && multiset(a) == multiset(b)
    ensures Canon(Obj(a)) == Canon(Obj(b))
  {
    forall e ensures e in a <==> e in b { assert e in multiset(a) <==> e in multiset(b); }
    forall i, j | 0 <= i < j < |b| ensures b[i].key != b[j].key {
      assert b[i] in a && b[j] in a;
      var p :| 0 <= p < |a| && a[p] == b[i];
      var q :| 0 <= q < |a| && a[q] == b[j];
      if b[i] == b[j] {
        Twice(b, i, j);
        OnceEach(a, b[i]);
      }
    }
    SameMembers(a, b);
    forall i | 0 <= i < |b| ensures Proper(b[i].value) {
      assert b[i] in a;
      var p :| 0 <= p < |a| && a[p] == b[i];
    }
    CanonDecides(Obj(a), Obj(b));
  }

  // ---- Records ----

  /** An object literal with the given keys; an undefined field is left out of the text. */
  function Record(keys: seq<Units>, fields: seq<Value>): seq<Entry>
    requires |keys| == |fields|
  {
    seq(|keys|, i requires 0 <= i < |keys| => Entry(keys[i], fields[i]))
  }

  ghost predicate AllDistinct(keys: seq<Units>) {
    forall i, j :: 0 <= i < j < |keys| ==> keys[i] != keys[j]
  }

  /** The canonical text of a record binds every field, present or absent. */
  lemma RecordBinds(keys: seq<Units>, a: seq<Value>, b: seq<Value>)
    requires |keys| == |a| == |b| && AllDistinct(keys)
    requires forall i :: 0 <= i < |keys| ==> Proper(a[i]) && Proper(b[i])
    ensures Canon(Obj(Record(keys, a))) == Canon(Obj(Record(keys, b))) <==>
              forall i :: 0 <= i < |keys| ==> a[i].Undefined? == b[i].Undefined? && MeaningOf(a[i]) == MeaningOf(b[i])
  {
    var r, t := Record(keys, a), Record(keys, b);
    CanonDecides(Obj(r), Obj(t));
    if Members(r) == Members(t) {
      forall i | 0 <= i < |keys| ensures a[i].Undefined? == b[i].Undefined? && MeaningOf(a[i]) == MeaningOf(b[i]) {
        FieldPresent(keys, a, i);
        FieldPresent(keys, b, i);
      }
    }
    if forall i :: 0 <= i < |keys| ==> a[i].Undefined? == b[i].Undefined? && MeaningOf(a[i]) == MeaningOf(b[i]) {
      SameRecord(keys, a, b);
    }
  }

  lemma FieldPresent(keys: seq<Units>, a: seq<Value>, i: nat)
    requires |keys| == |a| && AllDistinct(keys) && i < |keys|
    ensures keys[i] in Members(Record(keys, a)) <==> !a[i].Undefined?
    ensures !a[i].Undefined? ==> Members(Record(keys, a))[keys[i]] == MeaningOf(a[i])
    ensures a[i].Undefined? ==> MeaningOf(a[i]) == MNull
  {
    MembersAre(Record(keys, a), keys[i]);
    if !a[i].Undefined? { MemberAt(Record(keys, a), i); }
  }

  lemma SameRecord(keys: seq<Units>, a: seq<Value>, b: seq<Value>)
    requires |keys| == |a| == |b| && AllDistinct(keys)
    requires forall i :: 0 <= i < |keys| ==> a[i].Undefined? == b[i].Undefined? && MeaningOf(a[i]) == MeaningOf(b[i])
    ensures Members(Record(keys, a)) == Members(Record(keys, b))
  {
    var r, t := Record(keys, a), Record(keys, b);
    forall k ensures k in Members(r) <==> k in Members(t) {
      MembersAre(r, k);
      MembersAre(t, k);
      assert forall i :: 0 <= i < |keys| ==> r[i].key == t[i].key && r[i].value.Undefined? == t[i].value.Undefined?;
    }
    forall k | k in Members(r) ensures Members(r)[k] == Members(t)[k] {
      MembersAre(r, k);
      var i :| 0 <= i < |r| && r[i].key == k && !r[i].value.Undefined?;
      MemberAt(r, i);
      MemberAt(t, i);
    }
  }

  /** The units of an ASCII key. */
  function Ascii(s: string): (r: Units)
    ensures |r| == |s| && forall i :: 0 <= i < |s| ==> r[i] == s[i] as int % 0x10000
  {
    seq(|s|, i requires 0 <= i < |s| => s[i] as int % 0x10000)
  }

  function SignedKeys(): (r: seq<Units>)
    ensures |r| == 14
  {
    [Ascii("op_version"), Ascii("operation_id"), Ascii("org_id"), Ascii("agent_id"), Ascii("issued_at"),
     Ascii("ttl_ms"), Ascii("nonce"), Ascii("operation_type"), Ascii("subject"), Ascii("action"),
     Ascii("payload"), Ascii("payload_hash"), Ascii("prev_chain_hash"), Ascii("agent_pubkey_kid")]
  }

  function ReceiptKeys(): (r: seq<Units>)
    ensures |r| == 9
  {
    [Ascii("receipt_version"), Ascii("receipt_id"), Ascii("operation_id"), Ascii("org_id"), Ascii("agent_id"),
     Ascii("server_received_at"), Ascii("seq_no"), Ascii("chain_hash"), Ascii("queue_message_id")]
  }

  /** What tells the keys apart: their length and first unit. */
  function Mark(k: Units): int { if k == [] then 0 else |k| * 0x10000 + k[0] }

  lemma SignedKeysDistinct()
    ensures AllDistinct(SignedKeys())
  {
    var k := SignedKeys();
    assert forall i, j :: 0 <= i < j < 14 ==> Mark(k[i]) != Mark(k[j]);
  }

  lemma ReceiptKeysDistinct()
    ensures AllDistinct(ReceiptKeys())
  {
    var k := ReceiptKeys();
    assert forall i, j :: 0 <= i < j < 9 ==> Mark(k[i]) != Mark(k[j]);
  }

  /**
    The signed text of an operation record binds each of its fourteen fields, the structured
    subject, action and payload included, and tells an absent payload from a null one.
  */
  lemma SignedTextBinds(a: seq<Value>, b: seq<Value>)
    requires |a| == |b| == 14 && forall i :: 0 <= i < 14 ==> Proper(a[i]) && Proper(b[i])
    ensures Canon(Obj(Record(SignedKeys(), a))) == Canon(Obj(Record(SignedKeys(), b))) <==>
              forall i :: 0 <= i < 14 ==> a[i].Undefined? == b[i].Undefined? && MeaningOf(a[i]) == MeaningOf(b[i])
  {
    SignedKeysDistinct();
    RecordBinds(SignedKeys(), a, b);
  }

  /** The text under a receipt's hash binds each of its nine fields. */
  lemma ReceiptTextBinds(a: seq<Value>, b: seq<Value>)
    requires |a| == |b| == 9 && forall i :: 0 <= i < 9 ==> Proper(a[i]) && Proper(b[i])
    ensures Canon(Obj(Record(ReceiptKeys(), a))) == Canon(Obj(Record(ReceiptKeys(), b))) <==>
              forall i :: 0 <= i < 9 ==> a[i].Undefined? == b[i].Undefined? && MeaningOf(a[i]) == MeaningOf(b[i])
  {
    ReceiptKeysDistinct();
    RecordBinds(ReceiptKeys(), a, b);
  }
}
