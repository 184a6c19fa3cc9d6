/** Reading, replacing and deleting at a path of a JSON tree, as an index-based editor does. */
module JsonTree {
  import opened Text
  import opened Json
  import opened Order

  datatype Step = Key(key: Units) | At(index: nat)
  type Path = seq<Step>

  function Find(entries: seq<Entry>, key: Units): Option<Value> {
    if entries == [] then None
    else if entries[0].key == key then Some(entries[0].value)
    else Find(entries[1..], key)
  }

  function SetKey(entries: seq<Entry>, key: Units, v: Value): seq<Entry> {
    if entries == [] then []
    else if entries[0].key == key then [Entry(key, v)] + entries[1..]
    else [entries[0]] + SetKey(entries[1..], key, v)
  }

  function DropKey(entries: seq<Entry>, key: Units): seq<Entry> {
    if entries == [] then []
    else if entries[0].key == key then entries[1..]
    else [entries[0]] + DropKey(entries[1..], key)
  }

  /** One step down; None when there is nothing there. */
  function Child(v: Value, s: Step): Option<Value> {
    match s
    case Key(k) => if v.Obj? then Find(v.entries, k) else None
    case At(i) => if v.Arr? && i < |v.elems| then Some(v.elems[i]) else None
  }

  function SetChild(v: Value, s: Step, x: Value): Value {
    match s
    case Key(k) => if v.Obj? then Obj(SetKey(v.entries, k, x)) else v
    case At(i) => if v.Arr? && i < |v.elems| then Arr(v.elems[i := x]) else v
  }

  function DropChild(v: Value, s: Step): Value {
    match s
    case Key(k) => if v.Obj? then Obj(DropKey(v.entries, k)) else v
    case At(i) => if v.Arr? && i < |v.elems| then Arr(v.elems[..i] + v.elems[i + 1..]) else v
  }

  function Get(v: Value, path: Path): Option<Value>
    decreases |path|
  {
    if path == [] then Some(v)
    else match Child(v, path[0]) case None => None case Some(c) => Get(c, path[1..])
  }

  function Put(v: Value, path: Path, x: Value): Value
    decreases |path|
  {
    if path == [] then x
    else match Child(v, path[0]) case None => v case Some(c) => SetChild(v, path[0], Put(c, path[1..], x))
  }

  /** Deleting what is not there changes nothing. */
  function Delete(v: Value, path: Path): Value
    decreases |path|
  {
    if path == [] then v
    else if |path| == 1 then DropChild(v, path[0])
    else match Child(v, path[0]) case None => v case Some(c) => SetChild(v, path[0], Delete(c, path[1..]))
  }

  // ---- One step ----

  lemma {:induction false} KeyLaws(entries: seq<Entry>, k: Units, x: Value, y: Value)
    ensures Find(entries, k).Some? ==> Find(SetKey(entries, k, x), k) == Some(x)
    ensures SetKey(SetKey(entries, k, x), k, y) == SetKey(entries, k, y)
    ensures Find(entries, k) == Some(x) ==> SetKey(entries, k, x) == entries
    ensures DropKey(SetKey(entries, k, x), k) == DropKey(entries, k)
    decreases |entries|
  {
    if entries != [] {
      KeyLaws(entries[1..], k, x, y);
      var s := SetKey(entries, k, x);
      assert s[1..] == if entries[0].key == k then entries[1..] else SetKey(entries[1..], k, x);
    }
  }

  lemma {:induction false} OtherKeys(entries: seq<Entry>, k: Units, x: Value, other: Units)
    requires other != k
    ensures Find(SetKey(entries, k, x), other) == Find(entries, other)
    ensures Find(DropKey(entries, k), other) == Find(entries, other)
    decreases |entries|
  {
    if entries != [] {
      OtherKeys(entries[1..], k, x, other);
      assert SetKey(entries, k, x)[1..] == if entries[0].key == k then entries[1..] else SetKey(entries[1..], k, x);
      if entries[0].key != k { assert DropKey(entries, k)[1..] == DropKey(entries[1..], k); }
    }
  }

  lemma ChildLaws(v: Value, s: Step, x: Value, y: Value)
    ensures Child(v, s).Some? ==> Child(SetChild(v, s, x), s) == Some(x)
    ensures SetChild(SetChild(v, s, x), s, y) == SetChild(v, s, y)
    ensures Child(v, s) == Some(x) ==> SetChild(v, s, x) == v
  {
    match s {
      case Key(k) => if v.Obj? { KeyLaws(v.entries, k, x, y); }
      case At(_) =>
    }
  }

  // ---- Along a path ----

  lemma {:induction false} GetPut(v: Value, path: Path, x: Value)
    requires Get(v, path).Some?
    ensures Get(Put(v, path, x), path) == Some(x)
    decreases |path|
  {
    if path != [] {
      var c := Child(v, path[0]).value;
      GetPut(c, path[1..], x);
      ChildLaws(v, path[0], Put(c, path[1..], x), x);
    }
  }

  lemma {:induction false} PutPut(v: Value, path: Path, x: Value, y: Value)
    requires Get(v, path).Some?
    ensures Put(Put(v, path, x), path, y) == Put(v, path, y)
    decreases |path|
  {
    if path != [] {
      var c := Child(v, path[0]).value;
      PutPut(c, path[1..], x, y);
      ChildLaws(v, path[0], Put(c, path[1..], x), Put(c, path[1..], y));
    }
  }

  lemma {:induction false} PutGet(v: Value, path: Path)
    requires Get(v, path).Some?
    ensures Put(v, path, Get(v, path).value) == v
    decreases |path|
  {
    if path != [] {
      var c := Child(v, path[0]).value;
      PutGet(c, path[1..]);
      ChildLaws(v, path[0], c, c);
    }
  }

  /** A deletion below a place is that place replaced by its own value after the deletion. */
  lemma {:induction false} DeleteBelow(v: Value, path: Path, rest: Path)
    requires Get(v, path).Some? && rest != []
    ensures Delete(v, path + rest) == Put(v, path, Delete(Get(v, path).value, rest))
    decreases |path|
  {
    if path == [] {
      assert path + rest == rest;
    } else {
      var c := Child(v, path[0]).value;
      assert (path + rest)[1..] == path[1..] + rest;
      DeleteBelow(c, path[1..], rest);
    }
  }

  lemma {:induction false} GetBelow(v: Value, path: Path, rest: Path)
    requires Get(v, path).Some?
    ensures Get(v, path + rest) == Get(Get(v, path).value, rest)
    decreases |path|
  {
    if path == [] {
      assert path + rest == rest;
    } else {
      assert (path + rest)[1..] == path[1..] + rest;
      GetBelow(Child(v, path[0]).value, path[1..], rest);
    }
  }

  lemma {:induction false} NothingBelow(v: Value, path: Path, rest: Path)
    requires Get(v, path).None?
    ensures Get(v, path + rest).None?
    decreases |path|
  {
    if path != [] {
      assert (path + rest)[1..] == path[1..] + rest;
      if Child(v, path[0]).Some? { NothingBelow(Child(v, path[0]).value, path[1..], rest); }
    }
  }

  /** Replacing or deleting one member of an object leaves its other members alone. */
  lemma {:induction false} SiblingsKept(v: Value, base: Path, k: Units, other: Units, x: Value)
    requires k != other
    ensures Get(Put(v, base + [Key(k)], x), base + [Key(other)]) == Get(v, base + [Key(other)])
    ensures Get(Delete(v, base + [Key(k)]), base + [Key(other)]) == Get(v, base + [Key(other)])
    decreases |base|
  {
    if base == [] {
      assert base + [Key(k)] == [Key(k)] && base + [Key(other)] == [Key(other)];
      assert [Key(k)][1..] == [] && [Key(other)][1..] == [];
      if v.Obj? { OtherKeys(v.entries, k, x, other); }
    } else {
      var p, q := base + [Key(k)], base + [Key(other)];
      assert p[1..] == base[1..] + [Key(k)] && q[1..] == base[1..] + [Key(other)] && p[0] == q[0] == base[0];
      if Child(v, base[0]).Some? {
        var c := Child(v, base[0]).value;
        SiblingsKept(c, base[1..], k, other, x);
        ChildLaws(v, base[0], Put(c, p[1..], x), x);
        ChildLaws(v, base[0], Delete(c, p[1..]), x);
      }
    }
  }

  lemma {:induction false} PutBelow(v: Value, path: Path, rest: Path, x: Value)
    requires Get(v, path).Some?
    ensures Put(v, path + rest, x) == Put(v, path, Put(Get(v, path).value, rest, x))
    decreases |path|
  {
    if path == [] {
      assert path + rest == rest;
    } else {
      assert (path + rest)[1..] == path[1..] + rest;
      PutBelow(Child(v, path[0]).value, path[1..], rest, x);
    }
  }

  /** What a member was replaced by does not matter once the member is deleted. */
  lemma {:induction false} DeletePut(v: Value, base: Path, k: Units, x: Value)
    requires Get(v, base + [Key(k)]).Some?
    ensures Delete(Put(v, base + [Key(k)], x), base + [Key(k)]) == Delete(v, base + [Key(k)])
    decreases |base|
  {
    var p := base + [Key(k)];
    if base == [] {
      assert p == [Key(k)] && p[1..] == [];
      KeyLaws(v.entries, k, x, x);
    } else {
      assert p[1..] == base[1..] + [Key(k)];
      var c := Child(v, p[0]).value;
      DeletePut(c, base[1..], k, x);
      ChildLaws(v, p[0], Put(c, p[1..], x), Delete(c, p[1..]));
    }
  }

  // ---- Without duplicate keys ----

  function KeyOf(): Entry -> Units { (e: Entry) => e.key }

  ghost predicate UniqueKeys(v: Value) { v.Obj? ==> DistinctBy(v.entries, KeyOf()) }

  lemma {:induction false} DroppedGone(entries: seq<Entry>, k: Units)
    requires DistinctBy(entries, KeyOf())
    ensures Find(DropKey(entries, k), k).None?
    ensures DistinctBy(DropKey(entries, k), KeyOf()) && forall e :: e in DropKey(entries, k) ==> e in entries
    decreases |entries|
  {
    if entries != [] {
      assert forall i :: 0 <= i < |entries| - 1 ==> entries[1..][i] == entries[i + 1];
      if entries[0].key == k {
        Absent(entries[1..], k);
      } else {
        var rest := DropKey(entries[1..], k);
        DroppedGone(entries[1..], k);
        forall i | 0 <= i < |rest| ensures rest[i].key != entries[0].key { assert rest[i] in entries[1..]; }
        assert DropKey(entries, k)[1..] == rest;
      }
    }
  }

  lemma {:induction false} Absent(entries: seq<Entry>, k: Units)
    requires forall i :: 0 <= i < |entries| ==> entries[i].key != k
    ensures Find(entries, k).None?
  {
    if entries != [] { Absent(entries[1..], k); }
  }

  lemma {:induction false} SetKeepsKeys(entries: seq<Entry>, k: Units, x: Value)
    ensures |SetKey(entries, k, x)| == |entries|
    ensures forall i :: 0 <= i < |entries| ==> SetKey(entries, k, x)[i].key == entries[i].key
    decreases |entries|
  {
    if entries != [] { SetKeepsKeys(entries[1..], k, x); }
  }
}
