/** Installing and removing the managed hooks leaves every other setting as it is, in its place. */
module ConfigOutside {
  import opened Text
  import opened Json
  import opened JsonTree
  import opened ConfigEdit
  import opened ConfigRender

  /** An object's members but those under the given keys, in order. */
  function Rest(entries: seq<Entry>, ours: seq<Units>): seq<Entry> {
    if entries == [] then []
    else (if entries[0].key in ours then [] else [entries[0]]) + Rest(entries[1..], ours)
  }

  function RestOf(v: Option<Value>, ours: seq<Units>): seq<Entry> {
    if v.Some? && v.value.Obj? then Rest(v.value.entries, ours) else []
  }

  /** The settings beside the hooks, and the hooks of events that are not ours. */
  function Settings(p: Plugin, root: Value): seq<Entry> {
    if p.base != [] && p.base[0].Key? then RestOf(Some(root), [p.base[0].key]) else []
  }

  function OtherHooks(p: Plugin, root: Value): seq<Entry> { RestOf(Get(root, p.base), p.events) }

  predicate SameOutside(p: Plugin, a: Value, b: Value) {
    Settings(p, a) == Settings(p, b) && OtherHooks(p, a) == OtherHooks(p, b)
  }

  lemma {:induction false} RestKept(entries: seq<Entry>, k: Units, x: Value, ours: seq<Units>)
    requires k in ours
    ensures Rest(SetKey(entries, k, x), ours) == Rest(entries, ours)
    ensures Rest(DropKey(entries, k), ours) == Rest(entries, ours)
    ensures Rest(entries + [Entry(k, x)], ours) == Rest(entries, ours)
    decreases |entries|
  {
    if entries == [] {
      assert entries + [Entry(k, x)] == [Entry(k, x)] && [Entry(k, x)][1..] == [];
    } else {
      RestKept(entries[1..], k, x, ours);
      assert (entries + [Entry(k, x)])[1..] == entries[1..] + [Entry(k, x)];
      var e := entries[0];
      assert ([e] + SetKey(entries[1..], k, x))[1..] == SetKey(entries[1..], k, x);
      assert ([e] + DropKey(entries[1..], k))[1..] == DropKey(entries[1..], k);
      assert ([Entry(k, x)] + entries[1..])[1..] == entries[1..];
    }
  }

  lemma AtBase(p: Plugin, v: Value)
    requires |p.base| == 1 && p.base[0].Key? && v.Obj?
    ensures Get(v, p.base) == Find(v.entries, p.base[0].key)
  {
    assert p.base[1..] == [];
  }

  lemma EventPut(v: Value, event: Units, x: Value)
    requires v.Obj?
    ensures Put(v, [Key(event)], x) == if Find(v.entries, event).Some? then Obj(SetKey(v.entries, event, x)) else v
  {
    var path := [Key(event)];
    assert path[1..] == [];
    if Find(v.entries, event).Some? { assert Put(Find(v.entries, event).value, path[1..], x) == x; }
  }

  lemma RootEditOutside(p: Plugin, root: Value, event: Units, x: Value)
    requires root.Obj? && event in p.events && p.base == []
    ensures SameOutside(p, Put(root, EventPath(p, event), x), root)
    ensures SameOutside(p, Delete(root, EventPath(p, event)), root)
  {
    assert EventPath(p, event) == [Key(event)];
    EventPut(root, event, x);
    RestKept(root.entries, event, x, p.events);
    assert Delete(root, [Key(event)]) == Obj(DropKey(root.entries, event));
  }

  /** A new hooks object with the same members that are not ours. */
  lemma InnerReplaced(p: Plugin, root: Value, inner: Value)
    requires root.Obj? && |p.base| == 1 && p.base[0].Key? && inner.Obj?
    requires var c := Find(root.entries, p.base[0].key);
             c.Some? && c.value.Obj? && Rest(inner.entries, p.events) == Rest(c.value.entries, p.events)
    ensures SameOutside(p, SetChild(root, p.base[0], inner), root)
  {
    var b := p.base[0].key;
    AtBase(p, root);
    AtBase(p, SetChild(root, p.base[0], inner));
    RestKept(root.entries, b, inner, [b]);
    KeyLaws(root.entries, b, inner, inner);
    hide Get, SetKey, Find, Rest;
  }

  lemma NestedEditOutside(p: Plugin, root: Value, event: Units, x: Value)
    requires root.Obj? && event in p.events && |p.base| == 1 && p.base[0].Key?
    requires Find(root.entries, p.base[0].key).Some? ==> Find(root.entries, p.base[0].key).value.Obj?
    ensures SameOutside(p, Put(root, EventPath(p, event), x), root)
    ensures SameOutside(p, Delete(root, EventPath(p, event)), root)
  {
    var path, c := EventPath(p, event), Find(root.entries, p.base[0].key);
    assert path[0] == p.base[0] && path[1..] == [Key(event)] && |path| == 2;
    if c.Some? {
      EventPut(c.value, event, x);
      RestKept(c.value.entries, event, x, p.events);
      assert Delete(c.value, [Key(event)]) == Obj(DropKey(c.value.entries, event));
      var put, cut := Put(c.value, [Key(event)], x), Delete(c.value, [Key(event)]);
      assert Put(root, path, x) == SetChild(root, path[0], put) && Delete(root, path) == SetChild(root, path[0], cut);
      hide Put, Delete, SameOutside, SetKey, DropKey, Rest, Find, SetChild;
      InnerReplaced(p, root, put);
      InnerReplaced(p, root, cut);
    } else {
      assert Put(root, path, x) == root && Delete(root, path) == root;
    }
  }

  /** Replacing or deleting an event's groups touches nothing outside. */
  lemma EventEditOutside(p: Plugin, root: Value, event: Units, x: Value)
    requires Document(p, root) && HooksObject(p, root) && event in p.events
    ensures SameOutside(p, Put(root, EventPath(p, event), x), root)
    ensures SameOutside(p, Delete(root, EventPath(p, event)), root)
  {
    hide SameOutside, Put, Delete, EventPath, Parsed;
    if p.base == [] {
      RootEditOutside(p, root, event, x);
    } else {
      AtBase(p, root);
      NestedEditOutside(p, root, event, x);
    }
  }

  lemma CleanEventOutside(p: Plugin, root: Value, agent: Option<string>, event: Units)
    requires Document(p, root) && HooksObject(p, root) && event in p.events
    ensures SameOutside(p, CleanEvent(p, root, agent, event), root)
  {
    var groups, hit := Groups(p, root, event), Hit(p, agent, event);
    EventEditOutside(p, root, event, Arr(CleanGroups(p, groups, hit)));
    hide SameOutside, CleanGroups, AnyTouched, Groups;
  }

  lemma {:induction false} EventsOutside(p: Plugin, root: Value, agent: Option<string>, events: seq<Units>)
    requires Document(p, root) && HooksObject(p, root) && Distinct(events) && forall x :: x in events ==> x in p.events
    ensures SameOutside(p, CleanEvents(p, root, agent, events), root)
    decreases |events|
  {
    hide SameOutside, CleanEvent;
    if events != [] {
      var init, last := events[..|events| - 1], events[|events| - 1];
      assert events == init + [last];
      assert forall x :: x in init ==> x in events;
      EventsOutside(p, root, agent, init);
      EventsCleaned(p, root, agent, init, []);
      CleanedHooksObject(p, root, agent, init);
      var before := CleanEvents(p, root, agent, init);
      CleanEventOutside(p, before, agent, last);
      OutsideTransitive(p, CleanEvent(p, before, agent, last), before, root);
    } else {
      OutsideReflexive(p, root);
    }
  }

  lemma OutsideReflexive(p: Plugin, a: Value)
    ensures SameOutside(p, a, a)
  {
  }

  lemma OutsideTransitive(p: Plugin, a: Value, b: Value, c: Value)
    requires SameOutside(p, a, b) && SameOutside(p, b, c)
    ensures SameOutside(p, a, c)
  {
  }

  /** Dropping an empty container drops no setting. */
  lemma DropOutside(p: Plugin, root: Value)
    requires Document(p, root) && HooksObject(p, root)
    ensures SameOutside(p, DropEmpty(p, root), root)
  {
    if p.dropsContainer && Get(root, p.base) == Some(Obj([])) {
      var b := p.base[0].key;
      assert p.base[1..] == [];
      RestKept(root.entries, b, Obj([]), [b]);
      DroppedGone(root.entries, b);
      assert Get(DropEmpty(p, root), p.base).None?;
    }
  }

  /** Removing the managed entries leaves all other settings and hooks, in order. */
  lemma CleanedOutside(p: Plugin, root: Value, agent: Option<string>)
    requires Document(p, root) && HooksObject(p, root)
    ensures SameOutside(p, Cleaned(p, root, agent), root)
  {
    var edited := CleanEvents(p, root, agent, p.events);
    EventsOutside(p, root, agent, p.events);
    EventsCleaned(p, root, agent, p.events, []);
    CleanedHooksObject(p, root, agent, p.events);
    hide SameOutside;
    DropOutside(p, edited);
    OutsideTransitive(p, DropEmpty(p, edited), edited, root);
  }

  /** A new group is a managed event's. */
  lemma AppendOutside(p: Plugin, root: Value, event: Units, group: Value)
    requires Document(p, root) && HooksObject(p, root) && event in p.events
    ensures SameOutside(p, AppendGroup(p, root, event, group), root)
  {
    if Get(root, EventPath(p, event)).Some? {
      EventEditOutside(p, root, event, Arr(Groups(p, root, event) + [group]));
    } else {
      AddedOutside(p, root, event, Arr([group]));
    }
  }

  lemma AddedOutside(p: Plugin, root: Value, event: Units, x: Value)
    requires Document(p, root) && HooksObject(p, root) && event in p.events
    ensures SameOutside(p, AddMember(root, p.base, event, x), root)
  {
    if p.base == [] {
      RestKept(root.entries, event, x, p.events);
    } else {
      var b := p.base[0].key;
      assert p.base[1..] == [];
      var c := Find(root.entries, b);
      AtBase(p, root);
      AtBase(p, AddMember(root, p.base, event, x));
      if c.None? {
        var inner := Obj([Entry(event, x)]);
        RestKept(root.entries, b, inner, [b]);
        RestKept([], event, x, p.events);
        assert [] + [Entry(event, x)] == [Entry(event, x)];
        AppendedKey(root.entries, b, inner, b);
      } else {
        var inner := Obj(c.value.entries + [Entry(event, x)]);
        RestKept(c.value.entries, event, x, p.events);
        RestKept(root.entries, b, inner, [b]);
        KeyLaws(root.entries, b, inner, inner);
      }
    }
  }

  lemma {:induction false} AppendAllOutside(p: Plugin, root: Value, events: seq<Units>, additions: map<Units, Value>)
    requires Document(p, root) && HooksObject(p, root) && Distinct(events)
    requires forall x :: x in events ==> x in p.events
    requires forall x :: x in additions ==> HasHandlers(p, additions[x])
    ensures SameOutside(p, AppendAll(p, root, events, additions), root)
    decreases |events|
  {
    hide SameOutside, Document, HooksObject, AppendGroup, HasHandlers;
    if events != [] {
      var init, last := events[..|events| - 1], events[|events| - 1];
      assert events == init + [last] && last in p.events;
      assert forall x :: x in init ==> x in events;
      AppendAllOutside(p, root, init, additions);
      AppendedGroups(p, root, init, additions, []);
      var before := AppendAll(p, root, init, additions);
      if last in additions {
        AppendOutside(p, before, last, additions[last]);
        OutsideTransitive(p, AppendGroup(p, before, last, additions[last]), before, root);
      }
    } else {
      OutsideReflexive(p, root);
    }
  }

  /** So does installing: nothing the user has set elsewhere is touched or moved. */
  lemma RenderedOutside(p: Plugin, root: Value, agent: Option<string>, additions: map<Units, Value>)
    requires Document(p, root) && HooksObject(p, root)
    requires forall x :: x in additions ==> HasHandlers(p, additions[x])
    ensures SameOutside(p, Rendered(p, root, agent, additions), root)
  {
    hide SameOutside, Cleaned;
    CleanedOutside(p, root, agent);
    CleanedDocument(p, root, agent);
    AppendAllOutside(p, Cleaned(p, root, agent), p.events, additions);
    OutsideTransitive(p, Rendered(p, root, agent, additions), Cleaned(p, root, agent), root);
  }
}
