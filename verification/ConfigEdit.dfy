/**
  Removing the managed hooks from an agent's configuration. The editors work on the document
  text by indices computed before the first deletion; here the document is its JSON tree.
*/
module ConfigEdit {
  import opened Text
  import opened Order
  import opened Json
  import opened JsonTree

  /**
    What the droid, gemini and letta plugins differ in: where the hooks are, which events they
    manage in which order, which handlers they recognise as theirs and for which agent, which
    group shape they generate, and whether an emptied hooks object is removed as well.
  */
  datatype Plugin = Plugin(
    base: Path, hooksKey: Units, events: seq<Units>,
    managedId: (Units, Value) -> Option<string>,
    sameAgent: (string, string) -> bool,
    generated: Value -> bool,
    dropsContainer: bool)

  datatype Removal = Removal(event: Units, groupIndex: nat, handlerIndexes: seq<nat>, removeGroup: bool)

  function EventPath(p: Plugin, event: Units): Path { p.base + [Key(event)] }

  function Items(v: Option<Value>): seq<Value> { if v.Some? && v.value.Arr? then v.value.elems else [] }

  function Groups(p: Plugin, root: Value, event: Units): seq<Value> { Items(Get(root, EventPath(p, event))) }

  function Handlers(p: Plugin, group: Value): seq<Value> { Items(Child(group, Key(p.hooksKey))) }

  /** Ours, and of the agent in question when one is given. */
  predicate Targets(p: Plugin, agent: Option<string>, event: Units, handler: Value) {
    && var id := p.managedId(event, handler);
    && id.Some? && id.value != "" && (agent.None? || p.sameAgent(id.value, agent.value))
  }

  /** The document was parsed: managed events are arrays of groups, and groups have a hooks array. */
  ghost predicate Parsed(p: Plugin, root: Value) {
    forall e :: e in p.events ==>
      (Get(root, EventPath(p, e)).Some? ==> Get(root, EventPath(p, e)).value.Arr?)
      && forall i :: 0 <= i < |Groups(p, root, e)| ==> HasHandlers(p, Groups(p, root, e)[i])
  }

  predicate HasHandlers(p: Plugin, group: Value) {
    Child(group, Key(p.hooksKey)).Some? && Child(group, Key(p.hooksKey)).value.Arr?
  }

  // ---- The filter it should amount to ----

  function Kept(handlers: seq<Value>, hit: Value -> bool): (r: seq<Value>)
    ensures forall x :: x in r <==> x in handlers && !hit(x)
    ensures |r| <= |handlers|
  {
    if handlers == [] then []
    else if hit(handlers[0]) then Kept(handlers[1..], hit)
    else [handlers[0]] + Kept(handlers[1..], hit)
  }

  function Hit(p: Plugin, agent: Option<string>, event: Units): Value -> bool {
    (h: Value) => Targets(p, agent, event, h)
  }

  predicate Touched(p: Plugin, group: Value, hit: Value -> bool) {
    exists i :: 0 <= i < |Handlers(p, group)| && hit(Handlers(p, group)[i])
  }

  /** A group of the generated shape with nothing but our handlers. */
  predicate Owned(p: Plugin, group: Value, hit: Value -> bool) {
    p.generated(group) && Touched(p, group, hit) && Kept(Handlers(p, group), hit) == []
  }

  function CleanGroup(p: Plugin, group: Value, hit: Value -> bool): Value {
    SetChild(group, Key(p.hooksKey), Arr(Kept(Handlers(p, group), hit)))
  }

  /** Owned groups go, every other group keeps its place with our handlers filtered out. */
  function CleanGroups(p: Plugin, groups: seq<Value>, hit: Value -> bool): seq<Value> {
    if groups == [] then []
    else
      (if Owned(p, groups[0], hit) then [] else [CleanGroup(p, groups[0], hit)]) + CleanGroups(p, groups[1..], hit)
  }

  predicate AnyTouched(p: Plugin, groups: seq<Value>, hit: Value -> bool) {
    exists i :: 0 <= i < |groups| && Touched(p, groups[i], hit)
  }

  function CleanEvent(p: Plugin, root: Value, agent: Option<string>, event: Units): Value {
    var groups, hit := Groups(p, root, event), Hit(p, agent, event);
    if !AnyTouched(p, groups, hit) then root
    else if CleanGroups(p, groups, hit) == [] then Delete(root, EventPath(p, event))
    else Put(root, EventPath(p, event), Arr(CleanGroups(p, groups, hit)))
  }

  function CleanEvents(p: Plugin, root: Value, agent: Option<string>, events: seq<Units>): Value
    decreases |events|
  {
    if events == [] then root
    else CleanEvent(p, CleanEvents(p, root, agent, events[..|events| - 1]), agent, events[|events| - 1])
  }

  function DropEmpty(p: Plugin, root: Value): Value {
    if p.dropsContainer && Get(root, p.base) == Some(Obj([])) then Delete(root, p.base) else root
  }

  function Cleaned(p: Plugin, root: Value, agent: Option<string>): Value {
    DropEmpty(p, CleanEvents(p, root, agent, p.events))
  }

  // ---- Deleting by descending indices ----

  function DeleteAt<T>(s: seq<T>, i: nat): seq<T>
    requires i < |s|
  {
    s[..i] + s[i + 1..]
  }

  /** The positions of the hits, ascending, counted from an offset. */
  function HitIndexes(handlers: seq<Value>, hit: Value -> bool, offset: nat): (r: seq<nat>)
    ensures forall k :: 0 <= k < |r| ==> offset <= r[k] < offset + |handlers| && hit(handlers[r[k] - offset])
    ensures forall k, l :: 0 <= k < l < |r| ==> r[k] < r[l]
  {
    if handlers == [] then []
    else
      var rest := HitIndexes(handlers[1..], hit, offset + 1);
      if hit(handlers[0]) then [offset] + rest else rest
  }

  lemma {:induction false} NoHits(handlers: seq<Value>, hit: Value -> bool, offset: nat)
    ensures HitIndexes(handlers, hit, offset) == [] <==> forall i :: 0 <= i < |handlers| ==> !hit(handlers[i])
  {
    if handlers != [] {
      NoHits(handlers[1..], hit, offset + 1);
      assert forall i :: 0 < i < |handlers| ==> handlers[i] == handlers[1..][i - 1];
    }
  }

  lemma {:induction false} KeptConcat(a: seq<Value>, b: seq<Value>, hit: Value -> bool)
    ensures Kept(a + b, hit) == Kept(a, hit) + Kept(b, hit)
    decreases |a|
  {
    if a == [] {
      assert a + b == b;
    } else {
      assert (a + b)[1..] == a[1..] + b;
      KeptConcat(a[1..], b, hit);
    }
  }

  lemma {:induction false} KeptAll(a: seq<Value>, hit: Value -> bool)
    requires forall i :: 0 <= i < |a| ==> !hit(a[i])
    ensures Kept(a, hit) == a
  {
    if a != [] { KeptAll(a[1..], hit); }
  }

  lemma {:induction false} KeptCount(handlers: seq<Value>, hit: Value -> bool, offset: nat)
    ensures |HitIndexes(handlers, hit, offset)| + |Kept(handlers, hit)| == |handlers|
    decreases |handlers|
  {
    if handlers != [] { KeptCount(handlers[1..], hit, offset + 1); }
  }

  /** Every hit is listed. */
  lemma {:induction false} AllHitsListed(handlers: seq<Value>, hit: Value -> bool, offset: nat, i: nat) returns (k: nat)
    requires i < |handlers| && hit(handlers[i])
    ensures k < |HitIndexes(handlers, hit, offset)| && HitIndexes(handlers, hit, offset)[k] == offset + i
    decreases |handlers|
  {
    if i == 0 {
      k := 0;
    } else {
      assert handlers[1..][i - 1] == handlers[i];
      k := AllHitsListed(handlers[1..], hit, offset + 1, i - 1);
      if hit(handlers[0]) { k := k + 1; }
    }
  }

  /** Between two listed hits there is none, and none after the last. */
  lemma NoHitBetween(handlers: seq<Value>, hit: Value -> bool, k: nat, i: nat)
    requires var r := HitIndexes(handlers, hit, 0); k < |r| && r[k] < i < |handlers| && (k + 1 < |r| ==> i < r[k + 1])
    ensures !hit(handlers[i])
  {
    var r := HitIndexes(handlers, hit, 0);
    forall l | 0 <= l < |r| ensures r[l] != i {
      if l < k { assert r[l] < r[k]; }
      if l > k + 1 { assert r[k + 1] < r[l]; }
    }
    if hit(handlers[i]) { var l := AllHitsListed(handlers, hit, 0, i); }
  }

  /** What is left after the hits from position b on are deleted. */
  function Partly(handlers: seq<Value>, hit: Value -> bool, b: nat): seq<Value>
    requires b <= |handlers|
  {
    handlers[..b] + Kept(handlers[b..], hit)
  }

  lemma KeptBetween(handlers: seq<Value>, hit: Value -> bool, i: nat, b: nat)
    requires i < b <= |handlers| && hit(handlers[i]) && forall j :: i < j < b ==> !hit(handlers[j])
    ensures Kept(handlers[i..], hit) == handlers[i + 1..b] + Kept(handlers[b..], hit)
  {
    var mid := handlers[i + 1..b];
    assert handlers[i..][1..] == mid + handlers[b..];
    KeptConcat(mid, handlers[b..], hit);
    KeptAll(mid, hit);
  }

  lemma DeleteInPrefix(handlers: seq<Value>, i: nat, b: nat, t: seq<Value>)
    requires i < b <= |handlers|
    ensures DeleteAt(handlers[..b] + t, i) == handlers[..i] + (handlers[i + 1..b] + t)
  {
  }

  lemma PartlyStep(handlers: seq<Value>, hit: Value -> bool, i: nat, b: nat)
    requires i < b <= |handlers| && hit(handlers[i]) && forall j :: i < j < b ==> !hit(handlers[j])
    ensures DeleteAt(Partly(handlers, hit, b), i) == Partly(handlers, hit, i)
  {
    KeptBetween(handlers, hit, i, b);
    DeleteInPrefix(handlers, i, b, Kept(handlers[b..], hit));
    hide Kept, DeleteAt;
  }

  // ---- The handlers of one group ----

  function Itself(): nat -> int { (i: nat) => i }

  lemma DeleteHandler(p: Plugin, raw: Value, path: Path, group: Value, s: seq<Value>, i: nat)
    requires Get(raw, path) == Some(SetChild(group, Key(p.hooksKey), Arr(s))) && HasHandlers(p, group) && i < |s|
    ensures Delete(raw, path + [Key(p.hooksKey), At(i)])
         == Put(raw, path, SetChild(group, Key(p.hooksKey), Arr(DeleteAt(s, i))))
  {
    var g := SetChild(group, Key(p.hooksKey), Arr(s));
    DeleteBelow(raw, path, [Key(p.hooksKey), At(i)]);
    ChildLaws(group, Key(p.hooksKey), Arr(s), Arr(DeleteAt(s, i)));
    assert [Key(p.hooksKey), At(i)][1..] == [At(i)];
  }

  method RemoveHandlers(p: Plugin, raw: Value, path: Path, group: Value, hit: Value -> bool, indexes: seq<nat>)
    returns (edited: Value)
    requires Get(raw, path) == Some(group) && HasHandlers(p, group)
    requires indexes == HitIndexes(Handlers(p, group), hit, 0)
    ensures edited == Put(raw, path, CleanGroup(p, group, hit))
  {
    hide Put, Get, Delete, SetChild, Child, Kept, DeleteAt, HasHandlers;
    var handlers := Handlers(p, group);
    var sorted := Sort(indexes, Downward(Itself()));
    SortDownward(indexes, Itself());
    hide Sort, Reverse;
    edited := raw;
    ghost var b := |handlers|;
    ghost var now := group;
    GroupAsIs(p, raw, path, group, hit);
    for k := 0 to |sorted|
      invariant b == if k == 0 then |handlers| else sorted[k - 1]
      invariant now == SetChild(group, Key(p.hooksKey), Arr(Partly(handlers, hit, b)))
      invariant edited == Put(raw, path, now)
    {
      var i := sorted[k];
      GetPut(raw, path, now);
      IndexesDescend(handlers, hit, k, b);
      DeleteHandler(p, edited, path, group, Partly(handlers, hit, b), i);
      PartlyStep(handlers, hit, i, b);
      edited := Delete(edited, path + [Key(p.hooksKey), At(i)]);
      PutPut(raw, path, now, SetChild(group, Key(p.hooksKey), Arr(Partly(handlers, hit, i))));
      now := SetChild(group, Key(p.hooksKey), Arr(Partly(handlers, hit, i)));
      b := i;
    }
    AllDeleted(handlers, hit, b);
  }

  /** Before the first deletion nothing is missing. */
  lemma GroupAsIs(p: Plugin, raw: Value, path: Path, group: Value, hit: Value -> bool)
    requires Get(raw, path) == Some(group) && HasHandlers(p, group)
    ensures var handlers := Handlers(p, group);
            group == SetChild(group, Key(p.hooksKey), Arr(Partly(handlers, hit, |handlers|)))
    ensures raw == Put(raw, path, group)
  {
    var handlers := Handlers(p, group);
    PutGet(raw, path);
    assert handlers[..|handlers|] == handlers && handlers[|handlers|..] == [];
    assert Partly(handlers, hit, |handlers|) == handlers;
    ChildLaws(group, Key(p.hooksKey), Arr(handlers), Arr(handlers));
  }

  /** The k-th index from the top: in range, a hit, and nothing between it and the one before. */
  lemma IndexesDescend(handlers: seq<Value>, hit: Value -> bool, k: nat, b: nat)
    requires k < |HitIndexes(handlers, hit, 0)|
    requires b == if k == 0 then |handlers| else Reverse(HitIndexes(handlers, hit, 0))[k - 1]
    ensures var i := Reverse(HitIndexes(handlers, hit, 0))[k];
            i < b <= |handlers| && hit(handlers[i]) && forall j :: i < j < b ==> !hit(handlers[j])
  {
    var r := HitIndexes(handlers, hit, 0);
    var at := |r| - 1 - k;
    assert Reverse(r)[k] == r[at] && (k > 0 ==> Reverse(r)[k - 1] == r[at + 1]);
    forall j | r[at] < j < b ensures !hit(handlers[j]) { NoHitBetween(handlers, hit, at, j); }
  }

  lemma AllDeleted(handlers: seq<Value>, hit: Value -> bool, b: nat)
    requires var r := HitIndexes(handlers, hit, 0); b == if r == [] then |handlers| else Reverse(r)[|r| - 1]
    ensures b <= |handlers| && Partly(handlers, hit, b) == Kept(handlers, hit)
  {
    hide Kept, HitIndexes;
    var r := HitIndexes(handlers, hit, 0);
    if r != [] { assert b == r[0]; }
    forall i | 0 <= i < b ensures !hit(handlers[i]) {
      if hit(handlers[i]) { FirstHit(handlers, hit, i); }
    }
    PrefixKept(handlers, hit, b);
  }

  lemma PrefixKept(handlers: seq<Value>, hit: Value -> bool, b: nat)
    requires b <= |handlers| && forall i :: 0 <= i < b ==> !hit(handlers[i])
    ensures Partly(handlers, hit, b) == Kept(handlers, hit)
  {
    hide Kept;
    KeptAll(handlers[..b], hit);
    assert handlers == handlers[..b] + handlers[b..];
    KeptConcat(handlers[..b], handlers[b..], hit);
  }

  lemma FirstHit(handlers: seq<Value>, hit: Value -> bool, i: nat)
    requires i < |handlers| && hit(handlers[i])
    ensures HitIndexes(handlers, hit, 0) != [] && HitIndexes(handlers, hit, 0)[0] <= i
  {
    var l := AllHitsListed(handlers, hit, 0, i);
  }

  // ---- The groups of one event ----

  /** One removal per group with a hit, by position. */
  function EventRemovals(p: Plugin, event: Units, groups: seq<Value>, hit: Value -> bool, offset: nat): seq<Removal> {
    if groups == [] then []
    else GroupRemoval(p, event, groups[0], hit, offset) + EventRemovals(p, event, groups[1..], hit, offset + 1)
  }

  function GroupRemoval(p: Plugin, event: Units, group: Value, hit: Value -> bool, index: nat): seq<Removal> {
    var indexes := HitIndexes(Handlers(p, group), hit, 0);
    if indexes == [] then []
    else [Removal(event, index, indexes, p.generated(group) && |indexes| == |Handlers(p, group)|)]
  }

  ghost predicate Listed(p: Plugin, event: Units, groups: seq<Value>, hit: Value -> bool, offset: nat, r: seq<Removal>) {
    && (forall k :: 0 <= k < |r| ==> offset <= r[k].groupIndex < offset + |groups| && r[k].event == event)
    && (forall k :: 0 <= k < |r| ==> IsRemoval(p, groups[r[k].groupIndex - offset], hit, r[k]))
    && (forall k, l :: 0 <= k < l < |r| ==> r[k].groupIndex < r[l].groupIndex)
  }

  lemma ListedCons(p: Plugin, event: Units, groups: seq<Value>, hit: Value -> bool, offset: nat, one: seq<Removal>, rest: seq<Removal>)
    requires groups != [] && Listed(p, event, groups[1..], hit, offset + 1, rest)
    requires |one| <= 1 && forall x :: x in one ==> x.groupIndex == offset && x.event == event && IsRemoval(p, groups[0], hit, x)
    ensures Listed(p, event, groups, hit, offset, one + rest)
  {
    hide IsRemoval;
    var r, n := one + rest, |one|;
    assert forall k :: 0 <= k < n ==> r[k] == one[k] && one[k] in one;
    forall k | 0 <= k < |r|
      ensures offset <= r[k].groupIndex < offset + |groups| && r[k].event == event
      ensures IsRemoval(p, groups[r[k].groupIndex - offset], hit, r[k])
    {
      if k >= n {
        assert r[k] == rest[k - n];
        assert groups[1..][rest[k - n].groupIndex - (offset + 1)] == groups[rest[k - n].groupIndex - offset];
      }
    }
    forall k, l | 0 <= k < l < |r| ensures r[k].groupIndex < r[l].groupIndex {
      assert r[l] == rest[l - n];
      if k >= n { assert r[k] == rest[k - n]; }
    }
  }

  lemma {:induction false} RemovalsListed(p: Plugin, event: Units, groups: seq<Value>, hit: Value -> bool, offset: nat)
    ensures Listed(p, event, groups, hit, offset, EventRemovals(p, event, groups, hit, offset))
    decreases |groups|
  {
    if groups != [] {
      OneRemoval(p, event, groups[0], hit, offset);
      RemovalsListed(p, event, groups[1..], hit, offset + 1);
      hide HitIndexes, IsRemoval, Listed;
      ListedCons(p, event, groups, hit, offset, GroupRemoval(p, event, groups[0], hit, offset),
                 EventRemovals(p, event, groups[1..], hit, offset + 1));
    } else {
      assert EventRemovals(p, event, groups, hit, offset) == [];
    }
  }

  lemma OneRemoval(p: Plugin, event: Units, group: Value, hit: Value -> bool, index: nat)
    ensures var one := GroupRemoval(p, event, group, hit, index);
            && (one != [] <==> Touched(p, group, hit)) && (one != [] ==> IsRemoval(p, group, hit, one[0]))
  {
    NoHits(Handlers(p, group), hit, 0);
  }

  predicate IsRemoval(p: Plugin, group: Value, hit: Value -> bool, r: Removal) {
    && r.handlerIndexes == HitIndexes(Handlers(p, group), hit, 0) && r.handlerIndexes != []
    && r.removeGroup == (p.generated(group) && |r.handlerIndexes| == |Handlers(p, group)|)
  }

  lemma RemovalOwned(p: Plugin, group: Value, hit: Value -> bool, r: Removal)
    requires IsRemoval(p, group, hit, r)
    ensures Touched(p, group, hit) && (r.removeGroup <==> Owned(p, group, hit))
  {
    var handlers := Handlers(p, group);
    KeptCount(handlers, hit, 0);
    assert hit(handlers[r.handlerIndexes[0]]);
    hide Kept, HitIndexes;
  }

  lemma {:induction false} TouchedListed(p: Plugin, event: Units, groups: seq<Value>, hit: Value -> bool, offset: nat, i: nat)
    requires i < |groups| && Touched(p, groups[i], hit)
    ensures exists k :: 0 <= k < |EventRemovals(p, event, groups, hit, offset)|
                        && EventRemovals(p, event, groups, hit, offset)[k].groupIndex == offset + i
    decreases |groups|
  {
    hide Touched, HitIndexes, IsRemoval;
    var one := GroupRemoval(p, event, groups[0], hit, offset);
    var rest := EventRemovals(p, event, groups[1..], hit, offset + 1);
    var r := EventRemovals(p, event, groups, hit, offset);
    if i == 0 {
      OneRemoval(p, event, groups[0], hit, offset);
      assert r[0].groupIndex == offset;
    } else {
      TouchedListed(p, event, groups[1..], hit, offset + 1, i - 1);
      var k :| 0 <= k < |rest| && rest[k].groupIndex == offset + 1 + (i - 1);
      hide GroupRemoval;
      assert r == one + rest && r[|one| + k].groupIndex == offset + i;
    }
  }

  function GroupsPartly(p: Plugin, groups: seq<Value>, hit: Value -> bool, b: nat): seq<Value>
    requires b <= |groups|
  {
    groups[..b] + CleanGroups(p, groups[b..], hit)
  }

  lemma UntouchedClean(p: Plugin, group: Value, hit: Value -> bool)
    requires HasHandlers(p, group) && !Touched(p, group, hit)
    ensures CleanGroup(p, group, hit) == group && !Owned(p, group, hit)
  {
    var handlers := Handlers(p, group);
    KeptAll(handlers, hit);
    ChildLaws(group, Key(p.hooksKey), Arr(handlers), Arr(handlers));
  }

  lemma {:induction false} UntouchedGroups(p: Plugin, groups: seq<Value>, hit: Value -> bool)
    requires forall i :: 0 <= i < |groups| ==> HasHandlers(p, groups[i]) && !Touched(p, groups[i], hit)
    ensures CleanGroups(p, groups, hit) == groups
    decreases |groups|
  {
    hide HasHandlers, Touched, Owned, CleanGroup;
    if groups != [] {
      UntouchedClean(p, groups[0], hit);
      UntouchedGroups(p, groups[1..], hit);
    }
  }

  lemma {:induction false} CleanConcat(p: Plugin, a: seq<Value>, b: seq<Value>, hit: Value -> bool)
    ensures CleanGroups(p, a + b, hit) == CleanGroups(p, a, hit) + CleanGroups(p, b, hit)
    decreases |a|
  {
    hide Owned, CleanGroup;
    if a == [] {
      assert a + b == b;
    } else {
      assert (a + b)[1..] == a[1..] + b;
      CleanConcat(p, a[1..], b, hit);
    }
  }

  lemma CleanFrom(p: Plugin, groups: seq<Value>, hit: Value -> bool, i: nat, b: nat)
    requires i < b <= |groups| && forall j :: 0 <= j < |groups| ==> HasHandlers(p, groups[j])
    requires forall j :: i < j < b ==> !Touched(p, groups[j], hit)
    ensures CleanGroups(p, groups[i..], hit)
         == (if Owned(p, groups[i], hit) then [] else [CleanGroup(p, groups[i], hit)])
            + (groups[i + 1..b] + CleanGroups(p, groups[b..], hit))
  {
    hide HasHandlers, Touched, Owned, CleanGroup;
    var mid := groups[i + 1..b];
    UntouchedGroups(p, mid, hit);
    assert groups[i..][1..] == mid + groups[b..];
    CleanConcat(p, mid, groups[b..], hit);
  }

  lemma EditInPrefix(groups: seq<Value>, i: nat, b: nat, t: seq<Value>, g: Value)
    requires i < b <= |groups|
    ensures (groups[..b] + t)[i] == groups[i]
    ensures DeleteAt(groups[..b] + t, i) == groups[..i] + ([] + (groups[i + 1..b] + t))
    ensures (groups[..b] + t)[i := g] == groups[..i] + ([g] + (groups[i + 1..b] + t))
  {
  }

  /** Processing the removal of group i after all later ones. */
  lemma GroupsStep(p: Plugin, groups: seq<Value>, hit: Value -> bool, i: nat, b: nat)
    requires i < b <= |groups| && forall j :: 0 <= j < |groups| ==> HasHandlers(p, groups[j])
    requires forall j :: i < j < b ==> !Touched(p, groups[j], hit)
    ensures |GroupsPartly(p, groups, hit, b)| >= b && GroupsPartly(p, groups, hit, b)[i] == groups[i]
    ensures GroupsPartly(p, groups, hit, i)
         == if Owned(p, groups[i], hit) then DeleteAt(GroupsPartly(p, groups, hit, b), i)
            else GroupsPartly(p, groups, hit, b)[i := CleanGroup(p, groups[i], hit)]
  {
    hide HasHandlers, Touched, Owned, CleanGroup, CleanGroups, DeleteAt;
    CleanFrom(p, groups, hit, i, b);
    EditInPrefix(groups, i, b, CleanGroups(p, groups[b..], hit), CleanGroup(p, groups[i], hit));
  }

  ghost predicate Ascends(r: seq<Removal>) { forall k, l :: 0 <= k < l < |r| ==> r[k].groupIndex < r[l].groupIndex }

  /** A position that no removal names is an untouched group. */
  lemma Unlisted(p: Plugin, event: Units, groups: seq<Value>, hit: Value -> bool, j: nat)
    requires j < |groups| && forall l :: 0 <= l < |EventRemovals(p, event, groups, hit, 0)| ==>
               EventRemovals(p, event, groups, hit, 0)[l].groupIndex != j
    ensures !Touched(p, groups[j], hit)
  {
    hide Touched, EventRemovals;
    if Touched(p, groups[j], hit) { TouchedListed(p, event, groups, hit, 0, j); }
  }

  lemma NotInGap(r: seq<Removal>, at: nat, j: nat, l: nat)
    requires Ascends(r) && at < |r| && r[at].groupIndex < j && (at + 1 < |r| ==> j < r[at + 1].groupIndex) && l < |r|
    ensures r[l].groupIndex != j
  {
    if l < at { assert r[l].groupIndex < r[at].groupIndex; }
    if l > at + 1 { assert r[at + 1].groupIndex < r[l].groupIndex; }
  }

  /** The k-th removal from the top: in range, and no touched group between it and the one before. */
  lemma RemovalsDescend(p: Plugin, event: Units, groups: seq<Value>, hit: Value -> bool, k: nat, b: nat)
    requires k < |EventRemovals(p, event, groups, hit, 0)|
    requires b == if k == 0 then |groups| else Reverse(EventRemovals(p, event, groups, hit, 0))[k - 1].groupIndex
    ensures var x := Reverse(EventRemovals(p, event, groups, hit, 0))[k];
            && x.groupIndex < b <= |groups| && (forall j :: x.groupIndex < j < b ==> !Touched(p, groups[j], hit))
            && IsRemoval(p, groups[x.groupIndex], hit, x)
  {
    hide Touched, IsRemoval, EventRemovals;
    var r := EventRemovals(p, event, groups, hit, 0);
    RemovalsListed(p, event, groups, hit, 0);
    var at := |r| - 1 - k;
    assert Ascends(r) && Reverse(r)[k] == r[at];
    if k > 0 { assert Reverse(r)[k - 1] == r[at + 1]; }
    hide Ascends, Listed, Reverse;
    forall j | r[at].groupIndex < j < b ensures !Touched(p, groups[j], hit) {
      forall l | 0 <= l < |r| ensures r[l].groupIndex != j { NotInGap(r, at, j, l); }
      Unlisted(p, event, groups, hit, j);
    }
  }

  lemma NoneRemoved(p: Plugin, event: Units, groups: seq<Value>, hit: Value -> bool)
    ensures EventRemovals(p, event, groups, hit, 0) == [] <==> !AnyTouched(p, groups, hit)
  {
    var r := EventRemovals(p, event, groups, hit, 0);
    RemovalsListed(p, event, groups, hit, 0);
    hide EventRemovals, Touched;
    if r != [] { RemovalOwned(p, groups[r[0].groupIndex], hit, r[0]); }
    if r == [] {
      forall j | 0 <= j < |groups| ensures !Touched(p, groups[j], hit) { Unlisted(p, event, groups, hit, j); }
    }
  }

  lemma BeforeFirst(p: Plugin, event: Units, groups: seq<Value>, hit: Value -> bool, i: nat)
    requires forall j :: 0 <= j < |groups| ==> HasHandlers(p, groups[j])
    requires i < |groups| && var r := EventRemovals(p, event, groups, hit, 0); r != [] ==> i < r[0].groupIndex
    ensures !Touched(p, groups[i], hit)
  {
    var r := EventRemovals(p, event, groups, hit, 0);
    RemovalsListed(p, event, groups, hit, 0);
    hide Touched, HasHandlers, EventRemovals;
    forall l | 0 <= l < |r| ensures r[l].groupIndex != i { if l > 0 { assert r[0].groupIndex < r[l].groupIndex; } }
    Unlisted(p, event, groups, hit, i);
  }

  lemma UntouchedBefore(p: Plugin, event: Units, groups: seq<Value>, hit: Value -> bool, b: nat)
    requires forall j :: 0 <= j < |groups| ==> HasHandlers(p, groups[j])
    requires b <= |groups| && var r := EventRemovals(p, event, groups, hit, 0); r != [] ==> b <= r[0].groupIndex
    ensures CleanGroups(p, groups[..b], hit) == groups[..b]
  {
    hide Touched, HasHandlers, EventRemovals, CleanGroups;
    forall i | 0 <= i < b ensures !Touched(p, groups[i], hit) { BeforeFirst(p, event, groups, hit, i); }
    UntouchedGroups(p, groups[..b], hit);
  }

  lemma FirstRemoval(p: Plugin, event: Units, groups: seq<Value>, hit: Value -> bool)
    ensures var r := EventRemovals(p, event, groups, hit, 0);
            r != [] ==> Reverse(r)[|r| - 1] == r[0] && r[0].groupIndex < |groups|
  {
    RemovalsListed(p, event, groups, hit, 0);
    hide Touched, HitIndexes, EventRemovals, IsRemoval;
  }

  lemma AllRemoved(p: Plugin, event: Units, groups: seq<Value>, hit: Value -> bool, b: nat)
    requires forall j :: 0 <= j < |groups| ==> HasHandlers(p, groups[j])
    requires var r := EventRemovals(p, event, groups, hit, 0); b == if r == [] then |groups| else Reverse(r)[|r| - 1].groupIndex
    ensures b <= |groups| && GroupsPartly(p, groups, hit, b) == CleanGroups(p, groups, hit)
  {
    FirstRemoval(p, event, groups, hit);
    hide Touched, HasHandlers, EventRemovals, CleanGroups, Reverse;
    UntouchedBefore(p, event, groups, hit, b);
    assert groups == groups[..b] + groups[b..];
    CleanConcat(p, groups[..b], groups[b..], hit);
  }

  // ---- Computing the removals ----

  lemma HitStep(handlers: seq<Value>, hit: Value -> bool, i: nat)
    requires i < |handlers|
    ensures HitIndexes(handlers[i..], hit, i)
         == (if hit(handlers[i]) then [i] else []) + HitIndexes(handlers[i + 1..], hit, i + 1)
  {
    assert handlers[i..][1..] == handlers[i + 1..] && handlers[i..][0] == handlers[i];
  }

  lemma HitEnds(handlers: seq<Value>, hit: Value -> bool)
    ensures HitIndexes(handlers[|handlers|..], hit, |handlers|) == []
    ensures HitIndexes(handlers[0..], hit, 0) == HitIndexes(handlers, hit, 0)
  {
    assert handlers[|handlers|..] == [] && handlers[0..] == handlers;
  }

  method HandlerIndexes(handlers: seq<Value>, hit: Value -> bool) returns (indexes: seq<nat>)
    ensures indexes == HitIndexes(handlers, hit, 0)
  {
    HitEnds(handlers, hit);
    hide HitIndexes;
    indexes := [];
    for i := 0 to |handlers|
      invariant indexes + HitIndexes(handlers[i..], hit, i) == HitIndexes(handlers, hit, 0)
    {
      HitStep(handlers, hit, i);
      if hit(handlers[i]) {
        indexes := indexes + [i];
      }
    }
  }

  function AllRemovals(p: Plugin, root: Value, agent: Option<string>, events: seq<Units>): seq<Removal>
    decreases |events|
  {
    if events == [] then []
    else
      var e := events[|events| - 1];
      AllRemovals(p, root, agent, events[..|events| - 1]) + EventRemovals(p, e, Groups(p, root, e), Hit(p, agent, e), 0)
  }

  method ManagedRemovals(p: Plugin, root: Value, agent: Option<string>) returns (removals: seq<Removal>)
    ensures removals == AllRemovals(p, root, agent, p.events)
  {
    hide EventRemovals, HitIndexes, Groups;
    removals := [];
    for k := 0 to |p.events|
      invariant removals == AllRemovals(p, root, agent, p.events[..k])
    {
      var event := p.events[k];
      assert p.events[..k + 1][..k] == p.events[..k];
      var more := RemovalsForEvent(p, event, Groups(p, root, event), Hit(p, agent, event));
      removals := removals + more;
    }
    assert p.events[..|p.events|] == p.events;
  }

  lemma RemovalStep(p: Plugin, event: Units, groups: seq<Value>, hit: Value -> bool, i: nat)
    requires i < |groups|
    ensures EventRemovals(p, event, groups[i..], hit, i)
         == GroupRemoval(p, event, groups[i], hit, i) + EventRemovals(p, event, groups[i + 1..], hit, i + 1)
  {
    assert groups[i..][1..] == groups[i + 1..] && groups[i..][0] == groups[i];
    hide GroupRemoval;
  }

  lemma RemovalEnds(p: Plugin, event: Units, groups: seq<Value>, hit: Value -> bool)
    ensures EventRemovals(p, event, groups[|groups|..], hit, |groups|) == []
    ensures EventRemovals(p, event, groups[0..], hit, 0) == EventRemovals(p, event, groups, hit, 0)
  {
    assert groups[|groups|..] == [] && groups[0..] == groups;
  }

  method RemovalsForEvent(p: Plugin, event: Units, groups: seq<Value>, hit: Value -> bool) returns (removals: seq<Removal>)
    ensures removals == EventRemovals(p, event, groups, hit, 0)
  {
    RemovalEnds(p, event, groups, hit);
    hide EventRemovals, HitIndexes, Handlers;
    removals := [];
    for groupIndex := 0 to |groups|
      invariant removals + EventRemovals(p, event, groups[groupIndex..], hit, groupIndex) == EventRemovals(p, event, groups, hit, 0)
    {
      var group := groups[groupIndex];
      RemovalStep(p, event, groups, hit, groupIndex);
      var handlerIndexes := HandlerIndexes(Handlers(p, group), hit);
      if |handlerIndexes| > 0 {
        removals := removals + [Removal(event, groupIndex, handlerIndexes,
                                        p.generated(group) && |handlerIndexes| == |Handlers(p, group)|)];
      }
    }
  }

  /** `removals.filter((removal) => removal.event === event)` */
  function OfEvent(removals: seq<Removal>, event: Units): seq<Removal> {
    if removals == [] then []
    else (if removals[0].event == event then [removals[0]] else []) + OfEvent(removals[1..], event)
  }

  lemma {:induction false} OfEventConcat(a: seq<Removal>, b: seq<Removal>, event: Units)
    ensures OfEvent(a + b, event) == OfEvent(a, event) + OfEvent(b, event)
    decreases |a|
  {
    if a == [] {
      assert a + b == b;
    } else {
      assert (a + b)[1..] == a[1..] + b && (a + b)[0] == a[0];
      OfEventConcat(a[1..], b, event);
      var first := if a[0].event == event then [a[0]] else [];
      assert first + (OfEvent(a[1..], event) + OfEvent(b, event)) == first + OfEvent(a[1..], event) + OfEvent(b, event);
    }
  }

  lemma {:induction false} OfEventOwn(r: seq<Removal>, event: Units, own: Units)
    requires forall k :: 0 <= k < |r| ==> r[k].event == own
    ensures OfEvent(r, event) == if event == own then r else []
  {
    if r != [] { OfEventOwn(r[1..], event, own); }
  }

  ghost predicate Distinct(events: seq<Units>) { forall i, j :: 0 <= i < j < |events| ==> events[i] != events[j] }

  /** Filtering the list by event gives back that event's own removals. */
  lemma {:induction false} OfEventIs(p: Plugin, root: Value, agent: Option<string>, events: seq<Units>, event: Units)
    requires Distinct(events)
    ensures OfEvent(AllRemovals(p, root, agent, events), event)
         == if event in events then EventRemovals(p, event, Groups(p, root, event), Hit(p, agent, event), 0) else []
    decreases |events|
  {
    hide EventRemovals, Groups, OfEvent;
    if events == [] {
      assert OfEvent([], event) == [] by { NoRemovals(event); }
    } else {
      var init, e := events[..|events| - 1], events[|events| - 1];
      var own := EventRemovals(p, e, Groups(p, root, e), Hit(p, agent, e), 0);
      OfEventIs(p, root, agent, init, event);
      OfEventConcat(AllRemovals(p, root, agent, init), own, event);
      RemovalsListed(p, e, Groups(p, root, e), Hit(p, agent, e), 0);
      OfEventOwn(own, event, e);
      assert events == init + [e];
      assert e !in init;
    }
  }

  lemma NoRemovals(event: Units)
    ensures OfEvent([], event) == []
  {
  }

  // ---- Editing one event ----

  function GroupIndex(): Removal -> int { (r: Removal) => r.groupIndex }

  /** Deleting group i of an array of groups that stands at a path. */
  lemma DeleteGroup(root: Value, path: Path, s: seq<Value>, i: nat)
    requires Get(root, path).Some? && i < |s|
    ensures Delete(Put(root, path, Arr(s)), path + [At(i)]) == Put(root, path, Arr(DeleteAt(s, i)))
  {
    GetPut(root, path, Arr(s));
    DeleteBelow(Put(root, path, Arr(s)), path, [At(i)]);
    PutPut(root, path, Arr(s), Arr(DeleteAt(s, i)));
  }

  /** Replacing group i. */
  lemma ReplaceGroup(root: Value, path: Path, s: seq<Value>, i: nat, g: Value)
    requires Get(root, path).Some? && i < |s|
    ensures Get(Put(root, path, Arr(s)), path + [At(i)]) == Some(s[i])
    ensures Put(Put(root, path, Arr(s)), path + [At(i)], g) == Put(root, path, Arr(s[i := g]))
  {
    GetPut(root, path, Arr(s));
    GetBelow(Put(root, path, Arr(s)), path, [At(i)]);
    assert [At(i)][1..] == [];
    PutBelow(Put(root, path, Arr(s)), path, [At(i)], g);
    PutPut(root, path, Arr(s), Arr(s[i := g]));
  }

  method RemoveGroups(p: Plugin, root: Value, event: Units, groups: seq<Value>, hit: Value -> bool, removals: seq<Removal>)
    returns (raw: Value)
    requires Get(root, EventPath(p, event)) == Some(Arr(groups))
    requires forall j :: 0 <= j < |groups| ==> HasHandlers(p, groups[j])
    requires removals == EventRemovals(p, event, groups, hit, 0)
    ensures raw == Put(root, EventPath(p, event), Arr(CleanGroups(p, groups, hit)))
  {
    hide Put, Get, Delete, HasHandlers, CleanGroups, EventRemovals, Touched, HitIndexes, IsRemoval, Owned, CleanGroup, DeleteAt, EventPath;
    var path := EventPath(p, event);
    var sorted := Sort(removals, Downward(GroupIndex()));
    RemovalsListed(p, event, groups, hit, 0);
    SortDownward(removals, GroupIndex());
    hide Sort, Reverse, Listed;
    raw := root;
    ghost var b := |groups|;
    PutGet(root, path);
    NothingDone(p, groups, hit);
    for k := 0 to |sorted|
      invariant b <= |groups| && b == if k == 0 then |groups| else sorted[k - 1].groupIndex
      invariant raw == Put(root, path, Arr(GroupsPartly(p, groups, hit, b)))
    {
      var removal := sorted[k];
      var i := removal.groupIndex;
      RemovalsDescend(p, event, groups, hit, k, b);
      GroupsStep(p, groups, hit, i, b);
      RemovalOwned(p, groups[i], hit, removal);
      ghost var s := GroupsPartly(p, groups, hit, b);
      if removal.removeGroup {
        DeleteGroup(root, path, s, i);
        raw := Delete(raw, path + [At(i)]);
      } else {
        ReplaceGroup(root, path, s, i, CleanGroup(p, groups[i], hit));
        assert removal.handlerIndexes == HitIndexes(Handlers(p, groups[i]), hit, 0) by { RemovalIndexes(p, groups[i], hit, removal); }
        raw := RemoveHandlers(p, raw, path + [At(i)], groups[i], hit, removal.handlerIndexes);
      }
      b := i;
    }
    AllRemoved(p, event, groups, hit, b);
  }

  lemma RemovalIndexes(p: Plugin, group: Value, hit: Value -> bool, r: Removal)
    requires IsRemoval(p, group, hit, r)
    ensures r.handlerIndexes == HitIndexes(Handlers(p, group), hit, 0)
  {
  }

  lemma NothingDone(p: Plugin, groups: seq<Value>, hit: Value -> bool)
    ensures GroupsPartly(p, groups, hit, |groups|) == groups
  {
    assert groups[|groups|..] == [];
  }

  // ---- The editor ----

  method RemoveManagedEntries(p: Plugin, root: Value, agent: Option<string>) returns (raw: Value)
    requires Parsed(p, root) && Distinct(p.events)
    ensures raw == Cleaned(p, root, agent)
  {
    hide Put, Get, Delete, HasHandlers, CleanGroups, EventRemovals, OfEvent, AllRemovals, AnyTouched, CleanEvent, Parsed, Groups;
    var removals := ManagedRemovals(p, root, agent);
    raw := root;
    for k := 0 to |p.events|
      invariant raw == CleanEvents(p, root, agent, p.events[..k])
      invariant forall j :: k <= j < |p.events| ==> Get(raw, EventPath(p, p.events[j])) == Get(root, EventPath(p, p.events[j]))
    {
      var event := p.events[k];
      var eventRemovals := OfEvent(removals, event);
      OfEventIs(p, root, agent, p.events, event);
      assert p.events[..k + 1][..k] == p.events[..k];
      ghost var before := raw;
      raw := EditEvent(p, root, raw, agent, event, eventRemovals);
      forall j | k < j < |p.events| ensures Get(raw, EventPath(p, p.events[j])) == Get(root, EventPath(p, p.events[j])) {
        OtherEventKept(p, before, agent, event, p.events[j]);
      }
    }
    assert p.events[..|p.events|] == p.events;
    if p.dropsContainer && Get(raw, p.base) == Some(Obj([])) {
      raw := Delete(raw, p.base);
    }
  }

  method EditEvent(p: Plugin, root: Value, raw: Value, agent: Option<string>, event: Units, removals: seq<Removal>)
    returns (edited: Value)
    requires Parsed(p, root) && event in p.events && Get(raw, EventPath(p, event)) == Get(root, EventPath(p, event))
    requires removals == EventRemovals(p, event, Groups(p, root, event), Hit(p, agent, event), 0)
    ensures edited == CleanEvent(p, raw, agent, event)
  {
    hide Put, Delete, HasHandlers, CleanGroups, EventRemovals, AnyTouched, EventPath;
    var groups, hit := Groups(p, root, event), Hit(p, agent, event);
    NoneRemoved(p, event, groups, hit);
    edited := raw;
    if |removals| > 0 {
      TouchedPresent(p, root, event, hit);
      edited := RemoveGroups(p, raw, event, groups, hit, removals);
      GetPut(raw, EventPath(p, event), Arr(CleanGroups(p, groups, hit)));
      if Groups(p, edited, event) == [] {
        edited := DeleteEvent(p, raw, event, edited, CleanGroups(p, groups, hit));
      }
    }
  }

  method DeleteEvent(p: Plugin, raw: Value, event: Units, edited: Value, groups: seq<Value>) returns (next: Value)
    requires Get(raw, EventPath(p, event)).Some? && edited == Put(raw, EventPath(p, event), Arr(groups))
    ensures next == Delete(raw, EventPath(p, event))
  {
    DeletePut(raw, p.base, event, Arr(groups));
    next := Delete(edited, EventPath(p, event));
  }

  lemma TouchedPresent(p: Plugin, root: Value, event: Units, hit: Value -> bool)
    requires Parsed(p, root) && event in p.events && AnyTouched(p, Groups(p, root, event), hit)
    ensures Get(root, EventPath(p, event)) == Some(Arr(Groups(p, root, event)))
    ensures forall j :: 0 <= j < |Groups(p, root, event)| ==> HasHandlers(p, Groups(p, root, event)[j])
  {
  }

  lemma OtherEventKept(p: Plugin, root: Value, agent: Option<string>, event: Units, other: Units)
    requires event != other
    ensures Get(CleanEvent(p, root, agent, event), EventPath(p, other)) == Get(root, EventPath(p, other))
  {
    var groups, hit := Groups(p, root, event), Hit(p, agent, event);
    SiblingsKept(root, p.base, event, other, Arr(CleanGroups(p, groups, hit)));
    hide Put, Get, Delete, CleanGroups, AnyTouched, Groups;
  }

  // ---- What the filter amounts to ----

  /** The handlers of all groups, in order. */
  function AllHandlers(p: Plugin, groups: seq<Value>): seq<Value> {
    if groups == [] then [] else Handlers(p, groups[0]) + AllHandlers(p, groups[1..])
  }

  lemma CleanHandlers(p: Plugin, group: Value, hit: Value -> bool)
    requires HasHandlers(p, group)
    ensures HasHandlers(p, CleanGroup(p, group, hit))
    ensures Handlers(p, CleanGroup(p, group, hit)) == Kept(Handlers(p, group), hit)
  {
    var kept := Arr(Kept(Handlers(p, group), hit));
    ChildLaws(group, Key(p.hooksKey), kept, kept);
  }

  /** Every handler of the user's stays, in its order, and only ours go. */
  lemma {:induction false} UserHandlersKept(p: Plugin, groups: seq<Value>, hit: Value -> bool)
    requires forall j :: 0 <= j < |groups| ==> HasHandlers(p, groups[j])
    ensures AllHandlers(p, CleanGroups(p, groups, hit)) == Kept(AllHandlers(p, groups), hit)
    decreases |groups|
  {
    hide HasHandlers, Kept, CleanGroup, Touched, Handlers;
    if groups == [] {
      assert Kept([], hit) == [] by { NothingKept(hit); }
    } else {
      UserHandlersKept(p, groups[1..], hit);
      KeptConcat(Handlers(p, groups[0]), AllHandlers(p, groups[1..]), hit);
      if Owned(p, groups[0], hit) {
        assert CleanGroups(p, groups, hit) == CleanGroups(p, groups[1..], hit);
      } else {
        CleanHandlers(p, groups[0], hit);
        var first := CleanGroup(p, groups[0], hit);
        assert CleanGroups(p, groups, hit) == [first] + CleanGroups(p, groups[1..], hit);
        assert ([first] + CleanGroups(p, groups[1..], hit))[1..] == CleanGroups(p, groups[1..], hit);
      }
    }
  }

  lemma NothingKept(hit: Value -> bool)
    ensures Kept([], hit) == []
  {
  }

  /** A cleaned group has handlers still and none of ours. */
  lemma {:induction false} CleanGroupsClean(p: Plugin, groups: seq<Value>, hit: Value -> bool, k: nat)
    requires forall j :: 0 <= j < |groups| ==> HasHandlers(p, groups[j])
    requires k < |CleanGroups(p, groups, hit)|
    ensures HasHandlers(p, CleanGroups(p, groups, hit)[k]) && !Touched(p, CleanGroups(p, groups, hit)[k], hit)
    decreases |groups|
  {
    hide HasHandlers, Touched, Owned, CleanGroup;
    var rest := CleanGroups(p, groups[1..], hit);
    if Owned(p, groups[0], hit) {
      CleanGroupsClean(p, groups[1..], hit, k);
    } else if k == 0 {
      CleanHandlers(p, groups[0], hit);
      NoHitsKept(p, groups[0], CleanGroup(p, groups[0], hit), hit);
    } else {
      assert CleanGroups(p, groups, hit)[k] == rest[k - 1];
      CleanGroupsClean(p, groups[1..], hit, k - 1);
    }
  }

  lemma NoHitsKept(p: Plugin, group: Value, clean: Value, hit: Value -> bool)
    requires Handlers(p, clean) == Kept(Handlers(p, group), hit)
    ensures !Touched(p, clean, hit)
  {
    forall i | 0 <= i < |Handlers(p, clean)| ensures !hit(Handlers(p, clean)[i]) {
      assert Handlers(p, clean)[i] in Kept(Handlers(p, group), hit);
    }
  }

  // ---- On the whole document ----

  /** A parsed document has no duplicate keys, and its hooks are the root or a member of it. */
  ghost predicate Document(p: Plugin, root: Value) {
    && Parsed(p, root) && Distinct(p.events) && root.Obj? && UniqueKeys(root)
    && (p.base == [] || (|p.base| == 1 && p.base[0].Key?))
    && (p.base == [] ==> !p.dropsContainer)
    && (Get(root, p.base).Some? ==> UniqueKeys(Get(root, p.base).value))
  }

  /** Editing an event leaves a document, and the event's groups filtered. */
  lemma CleanEventDocument(p: Plugin, root: Value, agent: Option<string>, event: Units)
    requires Document(p, root) && event in p.events
    ensures var next := CleanEvent(p, root, agent, event);
            && next.Obj? && UniqueKeys(next) && (Get(next, p.base).Some? ==> UniqueKeys(Get(next, p.base).value))
            && Groups(p, next, event) == CleanGroups(p, Groups(p, root, event), Hit(p, agent, event))
            && (Get(next, EventPath(p, event)).Some? ==> Get(next, EventPath(p, event)).value.Arr?)
  {
    var groups, hit := Groups(p, root, event), Hit(p, agent, event);
    var path := EventPath(p, event);
    if !AnyTouched(p, groups, hit) {
      HandlersHeld(p, root, event);
      UntouchedGroups(p, groups, hit);
    } else {
      TouchedPresent(p, root, event, hit);
      BaseIsObject(p, root, event);
      hide CleanGroups, AnyTouched, Parsed;
      GetPut(root, path, Arr(CleanGroups(p, groups, hit)));
      EditedUnique(p, root, event, Arr(CleanGroups(p, groups, hit)));
    }
  }

  lemma HandlersHeld(p: Plugin, root: Value, event: Units)
    requires Parsed(p, root) && event in p.events
    ensures forall j :: 0 <= j < |Groups(p, root, event)| ==> HasHandlers(p, Groups(p, root, event)[j])
  {
  }

  lemma BaseIsObject(p: Plugin, root: Value, event: Units)
    requires Get(root, EventPath(p, event)).Some?
    ensures Get(root, p.base).Some? && Get(root, p.base).value.Obj?
  {
    if Get(root, p.base).None? {
      NothingBelow(root, p.base, [Key(event)]);
    } else {
      GetBelow(root, p.base, [Key(event)]);
    }
  }

  lemma EditedUnique(p: Plugin, root: Value, event: Units, x: Value)
    requires root.Obj? && UniqueKeys(root) && (p.base == [] || (|p.base| == 1 && p.base[0].Key?))
    requires Get(root, p.base).Some? && Get(root, p.base).value.Obj? && UniqueKeys(Get(root, p.base).value)
    ensures var put, gone := Put(root, EventPath(p, event), x), Delete(root, EventPath(p, event));
            && put.Obj? && UniqueKeys(put) && (Get(put, p.base).Some? ==> UniqueKeys(Get(put, p.base).value))
            && gone.Obj? && UniqueKeys(gone) && (Get(gone, p.base).Some? ==> UniqueKeys(Get(gone, p.base).value))
            && Get(gone, EventPath(p, event)).None?
  {
    var hooks := Get(root, p.base).value;
    var path := EventPath(p, event);
    DroppedGone(hooks.entries, event);
    SetKeepsKeys(hooks.entries, event, x);
    assert [Key(event)][1..] == [];
    if p.base == [] {
      assert path == [Key(event)];
    } else {
      assert path[0] == p.base[0] && path[1..] == [Key(event)] && p.base[1..] == [];
      assert UniqueKeys(DropChild(hooks, Key(event))) && UniqueKeys(Put(hooks, [Key(event)], x));
      hide DistinctBy;
      MemberReplaced(root, p.base[0].key, DropChild(hooks, Key(event)));
      MemberReplaced(root, p.base[0].key, Put(hooks, [Key(event)], x));
    }
  }

  lemma MemberReplaced(root: Value, k: Units, x: Value)
    requires root.Obj? && UniqueKeys(root) && Child(root, Key(k)).Some?
    ensures var next := SetChild(root, Key(k), x);
            next.Obj? && UniqueKeys(next) && Get(next, [Key(k)]) == Some(x)
  {
    SetKeepsKeys(root.entries, k, x);
    KeyLaws(root.entries, k, x, x);
    assert [Key(k)][1..] == [];
  }

  lemma {:induction false} EventsCleaned(p: Plugin, root: Value, agent: Option<string>, events: seq<Units>, e: Units)
    requires Document(p, root) && Distinct(events) && forall x :: x in events ==> x in p.events
    ensures var next := CleanEvents(p, root, agent, events);
            && Document(p, next)
            && (e in events ==> Groups(p, next, e) == CleanGroups(p, Groups(p, root, e), Hit(p, agent, e)))
            && (e !in events ==> Get(next, EventPath(p, e)) == Get(root, EventPath(p, e)))
    decreases |events|
  {
    hide Get, Put, Delete, CleanGroups, Groups, CleanEvent, Document, EventPath;
    if events != [] {
      var init, last := events[..|events| - 1], events[|events| - 1];
      assert events == init + [last] && last !in init && last in p.events;
      assert forall x :: x in init ==> x in events;
      EventsCleaned(p, root, agent, init, e);
      EventsCleaned(p, root, agent, init, last);
      var before := CleanEvents(p, root, agent, init);
      assert Groups(p, before, last) == Groups(p, root, last) by { SameGroups(p, before, root, last); }
      EventDocument(p, before, agent, last);
      if e != last {
        OtherEventKept(p, before, agent, last, e);
        SameGroups(p, CleanEvent(p, before, agent, last), before, e);
      } else {
        CleanEventDocument(p, before, agent, last) by { DocumentParts(p, before); }
      }
    }
  }

  lemma DocumentParts(p: Plugin, root: Value)
    requires Document(p, root)
    ensures Parsed(p, root)
  {
  }

  lemma SameGroups(p: Plugin, a: Value, b: Value, e: Units)
    ensures Get(a, EventPath(p, e)) == Get(b, EventPath(p, e)) ==> Groups(p, a, e) == Groups(p, b, e)
  {
  }

  lemma EventDocument(p: Plugin, root: Value, agent: Option<string>, event: Units)
    requires Document(p, root) && event in p.events
    ensures Document(p, CleanEvent(p, root, agent, event))
  {
    var next := CleanEvent(p, root, agent, event);
    CleanEventDocument(p, root, agent, event);
    forall e | e in p.events
      ensures Get(next, EventPath(p, e)).Some? ==> Get(next, EventPath(p, e)).value.Arr?
      ensures forall i :: 0 <= i < |Groups(p, next, e)| ==> HasHandlers(p, Groups(p, next, e)[i])
    {
      if e == event {
        HandlersHeld(p, root, event);
        hide HasHandlers, CleanGroups, Touched;
        forall i | 0 <= i < |Groups(p, next, e)| ensures HasHandlers(p, Groups(p, next, e)[i]) {
          CleanGroupsClean(p, Groups(p, root, e), Hit(p, agent, e), i);
        }
      } else {
        OtherEventKept(p, root, agent, event, e);
        HandlersHeld(p, root, e);
        SameGroups(p, next, root, e);
        hide CleanEvent, HasHandlers, Groups;
      }
    }
  }

  /** Dropping the emptied hooks object takes no group away. */
  lemma DropKeepsGroups(p: Plugin, root: Value, e: Units)
    requires Document(p, root)
    ensures Groups(p, DropEmpty(p, root), e) == Groups(p, root, e)
    ensures DropEmpty(p, DropEmpty(p, root)) == DropEmpty(p, root)
  {
    if p.dropsContainer && Get(root, p.base) == Some(Obj([])) {
      var k := p.base[0].key;
      assert p.base[1..] == [];
      DroppedGone(root.entries, k);
      assert Get(DropEmpty(p, root), p.base).None?;
      NothingBelow(DropEmpty(p, root), p.base, [Key(e)]);
      GetBelow(root, p.base, [Key(e)]);
    }
  }

  /**
    After the edit the groups of every managed event are the filtered ones, so every user
    handler is there in its order; the rest of the hooks object is as it was.
  */
  lemma EditIsFilter(p: Plugin, root: Value, agent: Option<string>, e: Units)
    requires Document(p, root)
    ensures var next := Cleaned(p, root, agent);
            && Groups(p, next, e) == (if e in p.events then CleanGroups(p, Groups(p, root, e), Hit(p, agent, e)) else Groups(p, root, e))
            && (e in p.events ==> AllHandlers(p, Groups(p, next, e)) == Kept(AllHandlers(p, Groups(p, root, e)), Hit(p, agent, e)))
            && (e !in p.events ==> Get(CleanEvents(p, root, agent, p.events), EventPath(p, e)) == Get(root, EventPath(p, e)))
  {
    EventsCleaned(p, root, agent, p.events, e);
    DropKeepsGroups(p, CleanEvents(p, root, agent, p.events), e);
    if e in p.events {
      HandlersHeld(p, root, e);
      UserHandlersKept(p, Groups(p, root, e), Hit(p, agent, e));
    }
  }

  /** Nothing that was to go is left: with no agent given, nothing managed at all. */
  lemma NothingLeft(p: Plugin, root: Value, agent: Option<string>, e: Units, g: nat, i: nat)
    requires Document(p, root) && e in p.events
    requires var groups := Groups(p, Cleaned(p, root, agent), e); g < |groups| && i < |Handlers(p, groups[g])|
    ensures !Targets(p, agent, e, Handlers(p, Groups(p, Cleaned(p, root, agent), e)[g])[i])
  {
    EditIsFilter(p, root, agent, e);
    HandlersHeld(p, root, e);
    CleanGroupsClean(p, Groups(p, root, e), Hit(p, agent, e), g);
    hide Cleaned, CleanGroups;
  }

  lemma {:induction false} NothingTouched(p: Plugin, root: Value, agent: Option<string>, events: seq<Units>)
    requires forall e :: e in events ==> !AnyTouched(p, Groups(p, root, e), Hit(p, agent, e))
    ensures CleanEvents(p, root, agent, events) == root
    decreases |events|
  {
    hide AnyTouched;
    if events != [] {
      var init, last := events[..|events| - 1], events[|events| - 1];
      assert events == init + [last];
      NothingTouched(p, root, agent, init);
    }
  }

  /** Editing twice is editing once. */
  lemma EditIdempotent(p: Plugin, root: Value, agent: Option<string>)
    requires Document(p, root)
    ensures Cleaned(p, Cleaned(p, root, agent), agent) == Cleaned(p, root, agent)
  {
    var edited := CleanEvents(p, root, agent, p.events);
    var next := Cleaned(p, root, agent);
    forall e | e in p.events ensures !AnyTouched(p, Groups(p, next, e), Hit(p, agent, e)) {
      EditIsFilter(p, root, agent, e);
      HandlersHeld(p, root, e);
      var groups, hit := Groups(p, root, e), Hit(p, agent, e);
      forall k | 0 <= k < |CleanGroups(p, groups, hit)| ensures !Touched(p, CleanGroups(p, groups, hit)[k], hit) {
        CleanGroupsClean(p, groups, hit, k);
      }
    }
    NothingTouched(p, next, agent, p.events);
    if p.events != [] { EventsCleaned(p, root, agent, p.events, p.events[0]); } else { EventsCleaned(p, root, agent, p.events, []); }
    DropKeepsGroups(p, edited, []);
  }
}
