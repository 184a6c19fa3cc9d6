/** Installing the managed hooks: remove, then append; and the three plugins by name. */
module ConfigRender {
  import opened Text
  import opened Json
  import opened JsonTree
  import opened ConfigEdit
  import Jcs

  // ---- The plugins ----

  const HOOKS: Units := Jcs.Ascii("hooks")
  const MATCHER: Units := Jcs.Ascii("matcher")
  const STAR: Value := Str([42])

  /** `{ matcher: "*", hooks: [...] }` and nothing else. */
  predicate MatchesAll(group: Value) {
    group.Obj? && |group.entries| == 2 && Find(group.entries, HOOKS).Some? && Find(group.entries, MATCHER) == Some(STAR)
  }

  /** `{ hooks: [...] }` and nothing else. */
  predicate Bare(group: Value) { group.Obj? && |group.entries| == 1 && Find(group.entries, HOOKS).Some? }

  const PRE_TOOL_USE: Units := Jcs.Ascii("PreToolUse")
  const POST_TOOL_USE: Units := Jcs.Ascii("PostToolUse")
  const POST_TOOL_USE_FAILURE: Units := Jcs.Ascii("PostToolUseFailure")
  const BEFORE_TOOL: Units := Jcs.Ascii("BeforeTool")
  const AFTER_TOOL: Units := Jcs.Ascii("AfterTool")

  /** Hooks in their own file are its root, elsewhere a member of the settings. */
  function Droid(ownFile: bool, managedId: (Units, Value) -> Option<string>, same: (string, string) -> bool): Plugin {
    Plugin(if ownFile then [] else [Key(HOOKS)], HOOKS, [PRE_TOOL_USE, POST_TOOL_USE], managedId, same, MatchesAll, false)
  }

  function Gemini(managedId: (Units, Value) -> Option<string>, same: (string, string) -> bool): Plugin {
    Plugin([Key(HOOKS)], HOOKS, [BEFORE_TOOL, AFTER_TOOL], managedId, same, Bare, true)
  }

  function Letta(managedId: (Units, Value) -> Option<string>, same: (string, string) -> bool): Plugin {
    Plugin([Key(HOOKS)], HOOKS, [PRE_TOOL_USE, POST_TOOL_USE, POST_TOOL_USE_FAILURE], managedId, same, MatchesAll, true)
  }

  /** The events of each plugin, all different, and where its hooks are. */
  lemma PluginEvents(ownFile: bool, managedId: (Units, Value) -> Option<string>, same: (string, string) -> bool)
    ensures Distinct(Droid(ownFile, managedId, same).events)
    ensures Distinct(Gemini(managedId, same).events) && Distinct(Letta(managedId, same).events)
    ensures Droid(ownFile, managedId, same).events == [Jcs.Ascii("PreToolUse"), Jcs.Ascii("PostToolUse")]
    ensures Gemini(managedId, same).events == [Jcs.Ascii("BeforeTool"), Jcs.Ascii("AfterTool")]
    ensures Letta(managedId, same).events == [Jcs.Ascii("PreToolUse"), Jcs.Ascii("PostToolUse"), Jcs.Ascii("PostToolUseFailure")]
    ensures Gemini(managedId, same).base == Letta(managedId, same).base == [Key(Jcs.Ascii("hooks"))]
    ensures Droid(ownFile, managedId, same).base == if ownFile then [] else [Key(Jcs.Ascii("hooks"))]
  {
    assert |PRE_TOOL_USE| == 10 && |POST_TOOL_USE| == 11 && |POST_TOOL_USE_FAILURE| == 18;
    assert |BEFORE_TOOL| == 10 && |AFTER_TOOL| == 9;
  }

  // ---- Appending ----

  function AddMember(root: Value, base: Path, k: Units, x: Value): Value {
    if !root.Obj? then root
    else if base == [] then Obj(root.entries + [Entry(k, x)])
    else
      match Child(root, base[0])
      case None => if base[0].Key? then Obj(root.entries + [Entry(base[0].key, Obj([Entry(k, x)]))]) else root
      case Some(c) => if c.Obj? then SetChild(root, base[0], Obj(c.entries + [Entry(k, x)])) else root
  }

  function AppendGroup(p: Plugin, root: Value, event: Units, group: Value): Value {
    if Get(root, EventPath(p, event)).Some?
    then Put(root, EventPath(p, event), Arr(Groups(p, root, event) + [group]))
    else AddMember(root, p.base, event, Arr([group]))
  }

  function AppendAll(p: Plugin, root: Value, events: seq<Units>, additions: map<Units, Value>): Value
    decreases |events|
  {
    if events == [] then root
    else
      var e, before := events[|events| - 1], AppendAll(p, root, events[..|events| - 1], additions);
      if e in additions then AppendGroup(p, before, e, additions[e]) else before
  }

  function Rendered(p: Plugin, root: Value, agent: Option<string>, additions: map<Units, Value>): Value {
    AppendAll(p, Cleaned(p, root, agent), p.events, additions)
  }

  /** No hooks and no other field: what is left of a file that the installer made. */
  predicate FileIsEmpty(p: Plugin, root: Value) {
    && root.Obj?
    && if p.dropsContainer then root.entries == []
       else
         && (forall i :: 0 <= i < |root.entries| ==> root.entries[i].key == HOOKS)
         && (Get(root, p.base) == None || Get(root, p.base) == Some(Obj([])))
  }

  /**
    None stands for removing the file. A Letta file is always removable, a Gemini file when it
    carries the installer's mark, a Droid file when it also exists and is no settings file.
  */
  method RenderDocument(p: Plugin, root: Value, agent: Option<string>, additions: map<Units, Value>, removable: bool)
    returns (next: Option<Value>)
    requires Document(p, root)
    ensures var rendered := Rendered(p, root, agent, additions);
            next == if additions == map[] && removable && FileIsEmpty(p, rendered) then None else Some(rendered)
  {
    hide Cleaned, AppendGroup, FileIsEmpty;
    var raw := RemoveManagedEntries(p, root, agent);
    ghost var cleaned := raw;
    for k := 0 to |p.events|
      invariant raw == AppendAll(p, cleaned, p.events[..k], additions)
    {
      var event := p.events[k];
      assert p.events[..k + 1][..k] == p.events[..k];
      if event in additions {
        raw := AppendGroup(p, raw, event, additions[event]);
      }
    }
    assert p.events[..|p.events|] == p.events;
    if |additions| == 0 && removable && FileIsEmpty(p, raw) {
      return None;
    }
    next := Some(raw);
  }

  // ---- Removing undoes installing ----

  lemma {:induction false} AppendedKey(entries: seq<Entry>, k: Units, x: Value, other: Units)
    requires Find(entries, k).None?
    ensures Find(entries + [Entry(k, x)], k) == Some(x)
    ensures other != k ==> Find(entries + [Entry(k, x)], other) == Find(entries, other)
    decreases |entries|
  {
    if entries != [] {
      assert (entries + [Entry(k, x)])[1..] == entries[1..] + [Entry(k, x)];
      AppendedKey(entries[1..], k, x, other);
    }
  }

  lemma {:induction false} NotFound(entries: seq<Entry>, k: Units, i: nat)
    requires Find(entries, k).None? && i < |entries|
    ensures entries[i].key != k
    decreases |entries|
  {
    if i > 0 { NotFound(entries[1..], k, i - 1); }
  }

  lemma AppendedUnique(entries: seq<Entry>, k: Units, x: Value)
    requires Find(entries, k).None? && UniqueKeys(Obj(entries))
    ensures UniqueKeys(Obj(entries + [Entry(k, x)]))
  {
    forall i | 0 <= i < |entries| ensures entries[i].key != k { NotFound(entries, k, i); }
  }

  /** A member added where there was none: it is there, and its siblings are as they were. */
  lemma MemberAdded(p: Plugin, root: Value, event: Units, x: Value, other: Units)
    requires Document(p, root) && Get(root, EventPath(p, event)).None?
    requires Get(root, p.base).Some? ==> Get(root, p.base).value.Obj?
    ensures var next := AddMember(root, p.base, event, x);
            && next.Obj? && UniqueKeys(next) && Get(next, EventPath(p, event)) == Some(x)
            && Get(next, p.base).Some? && Get(next, p.base).value.Obj? && UniqueKeys(Get(next, p.base).value)
            && (other != event ==> Get(next, EventPath(p, other)) == Get(root, EventPath(p, other)))
  {
    assert [Key(event)][1..] == [] && [Key(other)][1..] == [];
    if p.base == [] {
      assert EventPath(p, event) == [Key(event)] && EventPath(p, other) == [Key(other)];
      AppendedKey(root.entries, event, x, other);
      AppendedUnique(root.entries, event, x);
    } else {
      NestedAdded(p, root, event, x, other);
    }
  }

  lemma NestedAdded(p: Plugin, root: Value, event: Units, x: Value, other: Units)
    requires Document(p, root) && Get(root, EventPath(p, event)).None? && p.base != []
    requires Get(root, p.base).Some? ==> Get(root, p.base).value.Obj?
    ensures var next := AddMember(root, p.base, event, x);
            && next.Obj? && UniqueKeys(next) && Get(next, EventPath(p, event)) == Some(x)
            && Get(next, p.base).Some? && Get(next, p.base).value.Obj? && UniqueKeys(Get(next, p.base).value)
            && (other != event ==> Get(next, EventPath(p, other)) == Get(root, EventPath(p, other)))
  {
    var b := p.base[0].key;
    var next := AddMember(root, p.base, event, x);
    assert p.base[1..] == [] && [Key(event)][1..] == [] && [Key(other)][1..] == [];
    var c := Child(root, p.base[0]);
    if c.None? {
      var inner := Obj([Entry(event, x)]);
      AppendedKey(root.entries, b, inner, b);
      AppendedUnique(root.entries, b, inner);
      assert [Entry(event, x)][1..] == [];
      assert Get(next, p.base) == Some(inner);
      NothingBelow(root, p.base, [Key(other)]);
      if other != event { assert inner.entries[1..] == [] && Find(inner.entries, other).None?; }
    } else {
      GetBelow(root, p.base, [Key(event)]);
      GetBelow(root, p.base, [Key(other)]);
      var inner := Obj(c.value.entries + [Entry(event, x)]);
      AppendedKey(c.value.entries, event, x, other);
      AppendedUnique(c.value.entries, event, x);
      MemberReplaced(root, b, inner);
      assert Get(next, p.base) == Some(inner);
      if other != event { assert Get(inner, [Key(other)]) == Get(c.value, [Key(other)]); }
    }
    GetBelow(next, p.base, [Key(event)]);
    GetBelow(next, p.base, [Key(other)]);
  }

  /** The document's hooks, when it has any, are an object. */
  ghost predicate HooksObject(p: Plugin, root: Value) { Get(root, p.base).Some? ==> Get(root, p.base).value.Obj? }

  lemma GroupAppended(p: Plugin, root: Value, event: Units, group: Value, other: Units)
    requires Document(p, root) && HooksObject(p, root) && event in p.events
    ensures var next := AppendGroup(p, root, event, group);
            && next.Obj? && UniqueKeys(next) && HooksObject(p, next)
            && (Get(next, p.base).Some? ==> UniqueKeys(Get(next, p.base).value))
            && Get(next, EventPath(p, event)) == Some(Arr(Groups(p, root, event) + [group]))
            && (other != event ==> Get(next, EventPath(p, other)) == Get(root, EventPath(p, other)))
  {
    var x := Arr(Groups(p, root, event) + [group]);
    if Get(root, EventPath(p, event)).Some? {
      BaseIsObject(p, root, event);
      GetPut(root, EventPath(p, event), x);
      EditedUnique(p, root, event, x);
      if other != event { SiblingsKept(root, p.base, event, other, x); }
      PutBelow(root, p.base, [Key(event)], x);
      GetPut(root, p.base, Put(Get(root, p.base).value, [Key(event)], x));
    } else {
      assert Groups(p, root, event) + [group] == [group];
      MemberAdded(p, root, event, Arr([group]), other);
    }
  }

  lemma AppendedDocument(p: Plugin, root: Value, event: Units, group: Value)
    requires Document(p, root) && HooksObject(p, root) && event in p.events && HasHandlers(p, group)
    ensures Document(p, AppendGroup(p, root, event, group)) && HooksObject(p, AppendGroup(p, root, event, group))
  {
    var next := AppendGroup(p, root, event, group);
    GroupAppended(p, root, event, group, event);
    HandlersHeld(p, root, event);
    hide AppendGroup, HasHandlers;
    forall e | e in p.events
      ensures Get(next, EventPath(p, e)).Some? ==> Get(next, EventPath(p, e)).value.Arr?
      ensures forall i :: 0 <= i < |Groups(p, next, e)| ==> HasHandlers(p, Groups(p, next, e)[i])
    {
      if e != event {
        GroupAppended(p, root, event, group, e);
        HandlersHeld(p, root, e);
        SameGroups(p, next, root, e);
      }
    }
  }

  ghost predicate Additions(p: Plugin, agent: Option<string>, additions: map<Units, Value>) {
    forall e :: e in additions ==>
      HasHandlers(p, additions[e]) && Handlers(p, additions[e]) != [] && Owned(p, additions[e], Hit(p, agent, e))
  }

  /** After the appends each event has its new group at the end, and nothing else has moved. */
  lemma {:induction false} AppendedGroups(p: Plugin, root: Value, events: seq<Units>, additions: map<Units, Value>, e: Units)
    requires Document(p, root) && HooksObject(p, root) && Distinct(events)
    requires forall x :: x in events ==> x in p.events
    requires forall x :: x in additions ==> HasHandlers(p, additions[x])
    ensures var next := AppendAll(p, root, events, additions);
            && Document(p, next) && HooksObject(p, next)
            && Groups(p, next, e) == Groups(p, root, e) + (if e in events && e in additions then [additions[e]] else [])
    decreases |events|
  {
    hide Document, HooksObject, AppendGroup, Groups, EventPath, HasHandlers;
    if events != [] {
      var init, last := events[..|events| - 1], events[|events| - 1];
      assert events == init + [last] && last !in init && last in p.events;
      assert forall x :: x in init ==> x in events;
      AppendedGroups(p, root, init, additions, e);
      var before := AppendAll(p, root, init, additions);
      if last in additions {
        AppendedDocument(p, before, last, additions[last]);
        AppendedHere(p, before, last, additions[last], e);
      }
    }
  }

  lemma AppendedHere(p: Plugin, root: Value, event: Units, group: Value, e: Units)
    requires Document(p, root) && HooksObject(p, root) && event in p.events
    ensures Groups(p, AppendGroup(p, root, event, group), e) == Groups(p, root, e) + (if e == event then [group] else [])
  {
    GroupAppended(p, root, event, group, e);
    if e != event { SameGroups(p, AppendGroup(p, root, event, group), root, e); }
    hide AppendGroup;
  }

  /** Removal takes exactly the appended group away again. */
  lemma CleanAppended(p: Plugin, groups: seq<Value>, hit: Value -> bool, group: Value)
    requires Owned(p, group, hit)
    ensures CleanGroups(p, groups + [group], hit) == CleanGroups(p, groups, hit)
  {
    CleanConcat(p, groups, [group], hit);
    assert [group][1..] == [];
  }

  /** A document once edited stays as parsed. */
  lemma CleanedDocument(p: Plugin, root: Value, agent: Option<string>)
    requires Document(p, root) && HooksObject(p, root)
    ensures Document(p, Cleaned(p, root, agent)) && HooksObject(p, Cleaned(p, root, agent))
  {
    var edited := CleanEvents(p, root, agent, p.events);
    EventsCleaned(p, root, agent, p.events, []);
    CleanedHooksObject(p, root, agent, p.events);
    DroppedDocument(p, edited);
  }

  lemma {:induction false} CleanedHooksObject(p: Plugin, root: Value, agent: Option<string>, events: seq<Units>)
    requires Document(p, root) && HooksObject(p, root) && Distinct(events) && forall x :: x in events ==> x in p.events
    ensures HooksObject(p, CleanEvents(p, root, agent, events))
    decreases |events|
  {
    if events != [] {
      var init, last := events[..|events| - 1], events[|events| - 1];
      assert events == init + [last];
      assert forall x :: x in init ==> x in events;
      CleanedHooksObject(p, root, agent, init);
      EventsCleaned(p, root, agent, init, []);
      EventHooksObject(p, CleanEvents(p, root, agent, init), agent, last);
    }
  }

  lemma EventHooksObject(p: Plugin, root: Value, agent: Option<string>, event: Units)
    requires Document(p, root) && HooksObject(p, root) && event in p.events
    ensures HooksObject(p, CleanEvent(p, root, agent, event))
  {
    var groups, hit := Groups(p, root, event), Hit(p, agent, event);
    if AnyTouched(p, groups, hit) {
      TouchedPresent(p, root, event, hit);
      var x := Arr(CleanGroups(p, groups, hit));
      BaseIsObject(p, root, event);
      var inner := Get(root, p.base).value;
      hide CleanGroups, Groups, AnyTouched, Parsed;
      PutBelow(root, p.base, [Key(event)], x);
      GetPut(root, p.base, Put(inner, [Key(event)], x));
      DeleteBelow(root, p.base, [Key(event)]);
      GetPut(root, p.base, Delete(inner, [Key(event)]));
    }
  }

  lemma DroppedDocument(p: Plugin, root: Value)
    requires Document(p, root) && HooksObject(p, root)
    ensures Document(p, DropEmpty(p, root)) && HooksObject(p, DropEmpty(p, root))
  {
    var next := DropEmpty(p, root);
    if p.dropsContainer && Get(root, p.base) == Some(Obj([])) {
      assert p.base[1..] == [];
      DroppedGone(root.entries, p.base[0].key);
      assert Get(next, p.base).None?;
      forall e ensures Get(next, EventPath(p, e)).None? { NothingBelow(next, p.base, [Key(e)]); }
    }
  }

  /**
    Installing and then removing leaves each event the groups that removing alone leaves: the
    user's configuration comes back, whatever was managed before.
  */
  lemma RemoveUndoesInstall(p: Plugin, root: Value, agent: Option<string>, additions: map<Units, Value>, e: Units)
    requires Document(p, root) && HooksObject(p, root) && Additions(p, agent, additions)
    ensures Groups(p, Cleaned(p, Rendered(p, root, agent, additions), agent), e) == Groups(p, Cleaned(p, root, agent), e)
  {
    hide HooksObject, Additions, Cleaned, CleanGroups, Groups, AppendAll, Owned, HasHandlers;
    var cleaned := Cleaned(p, root, agent);
    var installed := Rendered(p, root, agent, additions);
    CleanedDocument(p, root, agent);
    forall x | x in additions
      ensures HasHandlers(p, additions[x]) && Owned(p, additions[x], Hit(p, agent, x))
    {
      OneAddition(p, agent, additions, x);
    }
    AppendedGroups(p, cleaned, p.events, additions, e);
    EditIsFilter(p, installed, agent, e);
    EditIsFilter(p, cleaned, agent, e);
    EditIdempotent(p, root, agent);
    if e in p.events && e in additions {
      CleanAppended(p, Groups(p, cleaned, e), Hit(p, agent, e), additions[e]);
    } else {
      assert Groups(p, cleaned, e) + [] == Groups(p, cleaned, e);
    }
  }

  lemma OneAddition(p: Plugin, agent: Option<string>, additions: map<Units, Value>, x: Units)
    requires Additions(p, agent, additions) && x in additions
    ensures HasHandlers(p, additions[x]) && Owned(p, additions[x], Hit(p, agent, x))
  {
  }
}
