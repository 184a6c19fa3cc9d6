/** Which handlers, groups, events and files an edit removes, in the document's own terms. */
module ConfigExact {
  import opened Text
  import opened Json
  import opened JsonTree
  import opened ConfigEdit
  import opened ConfigRender
  import opened ConfigOutside

  /** A handler that is nobody's of ours, or another agent's when one is given. */
  predicate Stays(p: Plugin, agent: Option<string>, event: Units, handler: Value) {
    match p.managedId(event, handler)
    case None => true
    case Some(id) => id == "" || (agent.Some? && !p.sameAgent(id, agent.value))
  }

  function Staying(p: Plugin, agent: Option<string>, event: Units, handlers: seq<Value>): seq<Value> {
    if handlers == [] then []
    else (if Stays(p, agent, event, handlers[0]) then [handlers[0]] else []) + Staying(p, agent, event, handlers[1..])
  }

  lemma StaysExactly(p: Plugin, agent: Option<string>, event: Units, handler: Value)
    ensures Stays(p, agent, event, handler) <==> !Hit(p, agent, event)(handler)
  {
  }

  lemma {:induction false} KeptStays(p: Plugin, agent: Option<string>, event: Units, handlers: seq<Value>)
    ensures Kept(handlers, Hit(p, agent, event)) == Staying(p, agent, event, handlers)
  {
    if handlers != [] {
      StaysExactly(p, agent, event, handlers[0]);
      hide Stays, Hit;
      KeptStays(p, agent, event, handlers[1..]);
    }
  }

  /** What is left of an event's handlers is what stays, in its order: with an agent given, every other agent's as well. */
  lemma HandlersExactly(p: Plugin, root: Value, agent: Option<string>, e: Units)
    requires Document(p, root) && e in p.events
    ensures AllHandlers(p, Groups(p, Cleaned(p, root, agent), e)) == Staying(p, agent, e, AllHandlers(p, Groups(p, root, e)))
  {
    EditIsFilter(p, root, agent, e);
    KeptStays(p, agent, e, AllHandlers(p, Groups(p, root, e)));
    hide Document, Cleaned, Staying, Kept, AllHandlers;
  }

  // ---- Groups ----

  /** A group goes when it has the generated shape, handlers at all, and none that stays. */
  predicate Goes(p: Plugin, agent: Option<string>, event: Units, group: Value) {
    p.generated(group) && Handlers(p, group) != [] && Staying(p, agent, event, Handlers(p, group)) == []
  }

  lemma GoesExactly(p: Plugin, agent: Option<string>, event: Units, group: Value)
    ensures Owned(p, group, Hit(p, agent, event)) <==> Goes(p, agent, event, group)
  {
    var hit, handlers := Hit(p, agent, event), Handlers(p, group);
    KeptStays(p, agent, event, handlers);
    hide Staying, Targets;
    if handlers != [] { assert handlers[0] in handlers; }
  }

  /** Another group keeps its place and every member but its handlers, of which those stay that are to. */
  lemma GroupsExactly(p: Plugin, agent: Option<string>, event: Units, groups: seq<Value>, group: Value)
    requires HasHandlers(p, group)
    ensures var hit := Hit(p, agent, event);
            && (Goes(p, agent, event, group) ==> CleanGroups(p, groups + [group], hit) == CleanGroups(p, groups, hit))
            && (!Goes(p, agent, event, group) ==>
                  && CleanGroups(p, groups + [group], hit) == CleanGroups(p, groups, hit) + [CleanGroup(p, group, hit)]
                  && Handlers(p, CleanGroup(p, group, hit)) == Staying(p, agent, event, Handlers(p, group))
                  && forall k :: k != p.hooksKey ==> Child(CleanGroup(p, group, hit), Key(k)) == Child(group, Key(k)))
  {
    var hit := Hit(p, agent, event);
    CleanConcat(p, groups, [group], hit);
    GoesExactly(p, agent, event, group);
    CleanHandlers(p, group, hit);
    KeptStays(p, agent, event, Handlers(p, group));
    CleanOne(p, group, hit);
    OtherMembers(p, group, hit);
    hide Goes, Staying, CleanGroup, CleanGroups, Owned, HasHandlers;
  }

  lemma CleanOne(p: Plugin, group: Value, hit: Value -> bool)
    ensures CleanGroups(p, [group], hit) == if Owned(p, group, hit) then [] else [CleanGroup(p, group, hit)]
  {
    assert [group][1..] == [];
  }

  lemma OtherMembers(p: Plugin, group: Value, hit: Value -> bool)
    requires HasHandlers(p, group)
    ensures forall k :: k != p.hooksKey ==> Child(CleanGroup(p, group, hit), Key(k)) == Child(group, Key(k))
  {
    var kept := Arr(Kept(Handlers(p, group), hit));
    forall k | k != p.hooksKey ensures Child(CleanGroup(p, group, hit), Key(k)) == Child(group, Key(k)) {
      OtherKeys(group.entries, p.hooksKey, kept, k);
    }
  }

  lemma {:induction false} CleanConcat(p: Plugin, a: seq<Value>, b: seq<Value>, hit: Value -> bool)
    ensures CleanGroups(p, a + b, hit) == CleanGroups(p, a, hit) + CleanGroups(p, b, hit)
    decreases |a|
  {
    hide Owned, CleanGroup;
    if a == [] {
      assert a + b == b;
    } else {
      assert (a + b)[1..] == a[1..] + b;
      CleanConcat(p, a[1..], b, hit);
    }
  }

  // ---- Events, the hooks object and the file ----

  ghost predicate AllStay(p: Plugin, agent: Option<string>, event: Units, groups: seq<Value>) {
    forall i, j :: 0 <= i < |groups| && 0 <= j < |Handlers(p, groups[i])| ==> Stays(p, agent, event, Handlers(p, groups[i])[j])
  }

  /** An untouched event is as it was; one that loses its last group is gone. */
  lemma EventExactly(p: Plugin, root: Value, agent: Option<string>, e: Units)
    requires Document(p, root) && e in p.events
    ensures var groups := Groups(p, root, e); var next := CleanEvent(p, root, agent, e);
            && (AllStay(p, agent, e, groups) ==> next == root)
            && (!AllStay(p, agent, e, groups) && CleanGroups(p, groups, Hit(p, agent, e)) == [] ==>
                  next == Delete(root, EventPath(p, e)))
  {
    forall h ensures Stays(p, agent, e, h) <==> !Hit(p, agent, e)(h) { StaysExactly(p, agent, e, h); }
    hide Stays, Hit, CleanGroups, Document, Handlers, Put, Delete, Groups;
  }

  /** Where a plugin removes an emptied hooks object, none is left; nothing else of it is removed. */
  lemma ContainerExactly(p: Plugin, root: Value, agent: Option<string>)
    requires Document(p, root)
    ensures var edited, next := CleanEvents(p, root, agent, p.events), Cleaned(p, root, agent);
            if p.dropsContainer && Get(edited, p.base) == Some(Obj([])) then next == Delete(edited, p.base) && Get(next, p.base).None?
            else next == edited
  {
    EventsCleaned(p, root, agent, p.events, []);
    var edited := CleanEvents(p, root, agent, p.events);
    if p.dropsContainer && Get(edited, p.base) == Some(Obj([])) {
      assert p.base[1..] == [];
      DroppedGone(edited.entries, p.base[0].key);
    }
    hide CleanEvents;
  }

  /** A file that is removed held no setting and no hook but those that were to go. */
  lemma RemovedFileHeldNothing(p: Plugin, root: Value, agent: Option<string>, e: Units)
    requires Document(p, root) && HooksObject(p, root) && FileIsEmpty(p, Rendered(p, root, agent, map[]))
    requires p.base == [] || p.base == [Key(HOOKS)]
    requires e in p.events
    ensures Settings(p, root) == [] && OtherHooks(p, root) == []
    ensures Staying(p, agent, e, AllHandlers(p, Groups(p, root, e))) == []
  {
    RenderedOutside(p, root, agent, map[]);
    HandlersExactly(p, root, agent, e);
    NothingAdded(p, Cleaned(p, root, agent), p.events);
    CleanedDocument(p, root, agent);
    EmptyHoldsNothing(p, Cleaned(p, root, agent), e);
    hide Rendered, Cleaned, FileIsEmpty, Document, Settings, OtherHooks, Staying, AllHandlers;
  }

  lemma {:induction false} NothingAdded(p: Plugin, root: Value, events: seq<Units>)
    ensures AppendAll(p, root, events, map[]) == root
    decreases |events|
  {
    if events != [] { NothingAdded(p, root, events[..|events| - 1]); }
  }

  lemma EmptyHoldsNothing(p: Plugin, root: Value, e: Units)
    requires Document(p, root) && FileIsEmpty(p, root) && (p.base == [] || p.base == [Key(HOOKS)])
    ensures Settings(p, root) == [] && OtherHooks(p, root) == [] && AllHandlers(p, Groups(p, root, e)) == []
  {
    if p.base != [] { OnlyHooks(root.entries); }
    EmptyAtBase(p, root);
    NoGroups(p, root, e);
  }

  lemma {:induction false} OnlyHooks(entries: seq<Entry>)
    requires forall i :: 0 <= i < |entries| ==> entries[i].key == HOOKS
    ensures Rest(entries, [HOOKS]) == []
  {
    if entries != [] { OnlyHooks(entries[1..]); }
  }

  lemma EmptyAtBase(p: Plugin, root: Value)
    requires Document(p, root) && FileIsEmpty(p, root) && (p.base == [] || p.base == [Key(HOOKS)])
    ensures Get(root, p.base).None? || Get(root, p.base) == Some(Obj([]))
  {
    if p.dropsContainer {
      assert p.base[1..] == [];
    }
  }

  lemma NoGroups(p: Plugin, root: Value, e: Units)
    requires Get(root, p.base).None? || Get(root, p.base) == Some(Obj([]))
    ensures AllHandlers(p, Groups(p, root, e)) == []
  {
    if Get(root, p.base).None? {
      NothingBelow(root, p.base, [Key(e)]);
    } else {
      GetBelow(root, p.base, [Key(e)]);
      assert [Key(e)][1..] == [];
    }
  }
}
