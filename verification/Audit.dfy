/** Querying the audit log page by page while operations keep arriving. */
module Audit {
  import opened Text
  import opened Order
  import opened Server
  import opened Pagination
  import E = Encodings
  import J = Json

  const DEFAULT_QUERY_LIMIT := 100
  const MAX_QUERY_LIMIT := 1000

  datatype Request = Request(
    agentId: Option<string>, operationType: Option<string>,
    startTime: Option<int>, endTime: Option<int>,
    cursor: Option<string>, limit: Option<int>)

  datatype Page = Page(operations: seq<Row>, cursor: Option<string>, totalCount: nat)

  datatype Invalid = InvalidStartTime | InvalidEndTime | InvalidCursor
  datatype Answer = Ok(page: Page) | Err(error: Invalid)

  /** The platform, and the database's text collation as sort keys. */
  datatype Engine = Engine(platform: Platform, collate: J.Units -> seq<int>)

  function IdOf(r: Row): J.Units { E.Utf16(E.FromString(r.operationId)) }

  function CursorOf(r: Row): Cursor { Cursor(r.createdAt, IdOf(r)) }

  function CursorKey(g: Engine, c: Cursor): seq<int> { [c.createdAt] + g.collate(c.id) }

  function RowKey(g: Engine, r: Row): seq<int> { CursorKey(g, CursorOf(r)) }

  function ByKey(g: Engine): Row -> seq<int> { (r: Row) => RowKey(g, r) }

  predicate Given(x: Option<string>) { x.Some? && x.value != "" }

  function Limit(params: Request): (n: nat)
    ensures params.limit.None? ==> n == 100
    ensures params.limit.Some? && params.limit.value < 1 ==> n == 1
    ensures params.limit.Some? && 1 <= params.limit.value <= 1000 ==> n == params.limit.value
    ensures params.limit.Some? && params.limit.value > 1000 ==> n == 1000
  {
    var n := if params.limit.Some? then params.limit.value else DEFAULT_QUERY_LIMIT;
    if n < 1 then 1 else if n > MAX_QUERY_LIMIT then MAX_QUERY_LIMIT else n
  }

  // ---- What a page should hold ----

  predicate Matches(params: Request, orgId: string, r: Row) {
    && r.orgId == orgId
    && (Given(params.agentId) ==> r.agentId == params.agentId.value)
    && (Given(params.operationType) ==> r.operationType == params.operationType.value)
    && (params.startTime.Some? ==> params.startTime.value <= r.createdAt)
    && (params.endTime.Some? ==> r.createdAt <= params.endTime.value)
  }

  /** Strictly after the cursor in descending order. */
  predicate Beyond(g: Engine, c: Option<Cursor>, r: Row) {
    c.Some? ==> Less(RowKey(g, r), CursorKey(g, c.value))
  }

  function Filter(rows: seq<Row>, keep: Row -> bool): (r: seq<Row>)
    ensures forall x :: x in r <==> x in rows && keep(x)
    ensures |r| <= |rows|
  {
    if rows == [] then []
    else if keep(rows[0]) then [rows[0]] + Filter(rows[1..], keep)
    else Filter(rows[1..], keep)
  }

  /** ORDER BY created_at DESC, operation_id DESC */
  function Descending(g: Engine, rows: seq<Row>): seq<Row> { Reverse(Sort(rows, ByKey(g))) }

  function Position(g: Engine, params: Request): Option<Cursor> {
    if Given(params.cursor) then DecodeCursor(g.platform, params.cursor.value) else None
  }

  function Asked(params: Request, orgId: string): Row -> bool { (r: Row) => Matches(params, orgId, r) }

  function Past(g: Engine, c: Option<Cursor>): Row -> bool { (r: Row) => Beyond(g, c, r) }

  function Matching(table: seq<Row>, params: Request, orgId: string): seq<Row> { Filter(table, Asked(params, orgId)) }

  function Remaining(g: Engine, table: seq<Row>, params: Request, orgId: string, c: Option<Cursor>): seq<Row> {
    Descending(g, Filter(Matching(table, params, orgId), Past(g, c)))
  }

  function PageOf(g: Engine, rest: seq<Row>, limit: nat, total: nat): Page
    requires limit >= 1
  {
    if |rest| > limit then Page(rest[..limit], Some(EncodeCursor(CursorOf(rest[limit - 1]))), total)
    else Page(rest, None, total)
  }

  /** The count and the page are two queries, which may see different tables. */
  function Expected(g: Engine, counted: seq<Row>, table: seq<Row>, params: Request, orgId: string): Answer {
    if params.startTime.Some? && params.startTime.value < 0 then Err(InvalidStartTime)
    else if params.endTime.Some? && params.endTime.value < 0 then Err(InvalidEndTime)
    else if Given(params.cursor) && Position(g, params).None? then Err(InvalidCursor)
    else Ok(PageOf(g, Remaining(g, table, params, orgId, Position(g, params)), Limit(params),
                   |Matching(counted, params, orgId)|))
  }

  // ---- The query as it is built ----

  datatype Condition =
    | OrgIs(org: string)
    | AgentIs(agent: string)
    | TypeIs(operationType: string)
    | Since(time: int)
    | Until(time: int)
    | Below(createdAt: int, id: J.Units)

  predicate Meets(g: Engine, c: Condition, r: Row) {
    match c
    case OrgIs(x) => r.orgId == x
    case AgentIs(x) => r.agentId == x
    case TypeIs(x) => r.operationType == x
    case Since(t) => r.createdAt >= t
    case Until(t) => r.createdAt <= t
    case Below(t, id) => r.createdAt < t || (r.createdAt == t && Less(g.collate(IdOf(r)), g.collate(id)))
  }

  predicate MeetsAll(g: Engine, conditions: seq<Condition>, r: Row) {
    forall i :: 0 <= i < |conditions| ==> Meets(g, conditions[i], r)
  }

  function Where(g: Engine, table: seq<Row>, conditions: seq<Condition>): seq<Row> {
    Filter(table, r => MeetsAll(g, conditions, r))
  }

  lemma {:induction false} SameFilter(rows: seq<Row>, p: Row -> bool, q: Row -> bool)
    requires forall r :: p(r) == q(r)
    ensures Filter(rows, p) == Filter(rows, q)
  {
    if rows != [] { SameFilter(rows[1..], p, q); }
  }

  lemma {:induction false} FilterTwice(rows: seq<Row>, p: Row -> bool, q: Row -> bool)
    ensures Filter(Filter(rows, p), q) == Filter(rows, r => p(r) && q(r))
    decreases |rows|
  {
    if rows != [] {
      FilterTwice(rows[1..], p, q);
      if p(rows[0]) { assert Filter(rows, p)[1..] == Filter(rows[1..], p); }
    }
  }

  lemma BelowIsBeyond(g: Engine, c: Cursor, r: Row)
    ensures Meets(g, Below(c.createdAt, c.id), r) <==> Beyond(g, Some(c), r)
  {
    assert RowKey(g, r)[1..] == g.collate(IdOf(r)) && CursorKey(g, c)[1..] == g.collate(c.id);
  }

  /** The conditions every row of the count must meet. */
  ghost function FiltersOf(params: Request, orgId: string): seq<Condition> {
    [OrgIs(orgId)]
    + (if Given(params.agentId) then [AgentIs(params.agentId.value)] else [])
    + (if Given(params.operationType) then [TypeIs(params.operationType.value)] else [])
    + (if params.startTime.Some? then [Since(params.startTime.value)] else [])
    + (if params.endTime.Some? then [Until(params.endTime.value)] else [])
  }

  lemma MeetsConcat(g: Engine, a: seq<Condition>, b: seq<Condition>, r: Row)
    ensures MeetsAll(g, a + b, r) <==> MeetsAll(g, a, r) && MeetsAll(g, b, r)
  {
    hide Meets;
    assert forall i :: 0 <= i < |a| ==> (a + b)[i] == a[i];
    assert forall i :: 0 <= i < |b| ==> (a + b)[|a| + i] == b[i];
    if MeetsAll(g, a + b, r) {
      forall i | 0 <= i < |b| ensures Meets(g, b[i], r) { assert Meets(g, (a + b)[|a| + i], r); }
    }
  }

  lemma MeetsOne(g: Engine, c: Condition, r: Row)
    ensures MeetsAll(g, [c], r) <==> Meets(g, c, r)
  {
    assert MeetsAll(g, [c], r) ==> Meets(g, [c][0], r);
  }

  lemma FiltersMean(g: Engine, params: Request, orgId: string, r: Row)
    ensures MeetsAll(g, FiltersOf(params, orgId), r) <==> Matches(params, orgId, r)
  {
    var o := [OrgIs(orgId)];
    var a := if Given(params.agentId) then [AgentIs(params.agentId.value)] else [];
    var t := if Given(params.operationType) then [TypeIs(params.operationType.value)] else [];
    var s := if params.startTime.Some? then [Since(params.startTime.value)] else [];
    var e := if params.endTime.Some? then [Until(params.endTime.value)] else [];
    MeetsConcat(g, o + a + t + s, e, r);
    MeetsConcat(g, o + a + t, s, r);
    MeetsConcat(g, o + a, t, r);
    MeetsConcat(g, o, a, r);
    forall c ensures MeetsAll(g, [c], r) <==> Meets(g, c, r) { MeetsOne(g, c, r); }
    hide MeetsAll;
    assert MeetsAll(g, o, r) <==> Meets(g, OrgIs(orgId), r);
    assert MeetsAll(g, [], r) by { NoConditions(g, r); }
  }

  lemma NoConditions(g: Engine, r: Row)
    ensures MeetsAll(g, [], r)
  {
  }

  method BuildFilters(params: Request, orgId: string) returns (error: Option<Invalid>, conditions: seq<Condition>)
    ensures error == (if params.startTime.Some? && params.startTime.value < 0 then Some(InvalidStartTime)
                      else if params.endTime.Some? && params.endTime.value < 0 then Some(InvalidEndTime)
                      else None)
    ensures error.None? ==> conditions == FiltersOf(params, orgId)
  {
    error, conditions := None, [OrgIs(orgId)];
    if Given(params.agentId) {
      conditions := conditions + [AgentIs(params.agentId.value)];
    }
    if Given(params.operationType) {
      conditions := conditions + [TypeIs(params.operationType.value)];
    }
    if params.startTime.Some? {
      if params.startTime.value < 0 { return Some(InvalidStartTime), conditions; }
      conditions := conditions + [Since(params.startTime.value)];
    }
    if params.endTime.Some? {
      if params.endTime.value < 0 { return Some(InvalidEndTime), conditions; }
      conditions := conditions + [Until(params.endTime.value)];
    }
  }

  method QueryAudit(g: Engine, counted: seq<Row>, table: seq<Row>, params: Request, orgId: string) returns (answer: Answer)
    ensures answer == Expected(g, counted, table, params, orgId)
  {
    hide E.Utf16, Descending, Filter, Where, Matching, Remaining, EncodeCursor, MeetsAll, Matches, FiltersOf, Position, Limit;
    var limit := Limit(params);
    var error, conditions := BuildFilters(params, orgId);
    if error.Some? { return Err(error.value); }
    var position := Position(g, params);
    if Given(params.cursor) && position.None? { return Err(InvalidCursor); }
    ghost var filters := conditions;
    if position.Some? {
      conditions := conditions + [Below(position.value.createdAt, position.value.id)];
    }
    var countConditions := if position.Some? then conditions[..|conditions| - 1] else conditions;
    assert countConditions == filters;
    WhereIs(g, counted, params, orgId, position);
    WhereIs(g, table, params, orgId, position);
    var totalCount := |Where(g, counted, countConditions)|;
    var results := Descending(g, Where(g, table, conditions));
    var rows := if |results| > limit + 1 then results[..limit + 1] else results;
    var hasMore := |rows| > limit;
    var operations := if hasMore then rows[..limit] else rows;
    assert results == Remaining(g, table, params, orgId, position);
    assert operations == if |results| > limit then results[..limit] else results;
    var nextCursor := None;
    if hasMore && |operations| > 0 {
      var lastItem := operations[|operations| - 1];
      nextCursor := Some(EncodeCursor(Cursor(lastItem.createdAt, IdOf(lastItem))));
    }
    answer := Ok(Page(operations, nextCursor, totalCount));
  }

  lemma WhereIs(g: Engine, table: seq<Row>, params: Request, orgId: string, c: Option<Cursor>)
    ensures Where(g, table, FiltersOf(params, orgId)) == Matching(table, params, orgId)
    ensures var filters := FiltersOf(params, orgId);
            var all := if c.Some? then filters + [Below(c.value.createdAt, c.value.id)] else filters;
            Descending(g, Where(g, table, all)) == Remaining(g, table, params, orgId, c)
  {
    var filters := FiltersOf(params, orgId);
    var all := if c.Some? then filters + [Below(c.value.createdAt, c.value.id)] else filters;
    var p, q := Asked(params, orgId), Past(g, c);
    hide FiltersOf, Meets, Matches, Beyond;
    forall r ensures MeetsAll(g, filters, r) == p(r) && MeetsAll(g, all, r) == (p(r) && q(r)) {
      FiltersMean(g, params, orgId, r);
      if c.Some? {
        MeetsConcat(g, filters, [Below(c.value.createdAt, c.value.id)], r);
        MeetsOne(g, Below(c.value.createdAt, c.value.id), r);
        BelowIsBeyond(g, c.value, r);
      } else {
        NothingIsBeyond(g, r);
      }
    }
    SameFilter(table, r => MeetsAll(g, filters, r), p);
    FilterTwice(table, p, q);
    SameFilter(table, r => MeetsAll(g, all, r), r => p(r) && q(r));
  }

  lemma NothingIsBeyond(g: Engine, r: Row)
    ensures Beyond(g, None, r)
  {
  }
}
