/** What the answer to an audit query holds, in the rows' and the request's own terms. */
module AuditExact {
  import opened Text
  import opened Order
  import opened Server
  import opened Audit
  import opened AuditPages
  import Pagination

  /** The request's own conditions on a row; an empty filter is none. */
  predicate Wanted(params: Request, orgId: string, r: Row) {
    && r.orgId == orgId
    && (params.agentId.Some? && params.agentId.value != "" ==> params.agentId.value == r.agentId)
    && (params.operationType.Some? && params.operationType.value != "" ==> params.operationType.value == r.operationType)
    && (params.startTime.Some? ==> r.createdAt >= params.startTime.value)
    && (params.endTime.Some? ==> r.createdAt <= params.endTime.value)
  }

  function Count(rows: seq<Row>, params: Request, orgId: string): nat {
    if rows == [] then 0 else (if Wanted(params, orgId, rows[0]) then 1 else 0) + Count(rows[1..], params, orgId)
  }

  /** Newest first, by time of commit and then by operation id. */
  ghost predicate Newer(g: Engine, r: Row, t: Row) {
    r.createdAt > t.createdAt || (r.createdAt == t.createdAt && Less(g.collate(IdOf(t)), g.collate(IdOf(r))))
  }

  lemma MatchesExactly(params: Request, orgId: string, r: Row)
    ensures Matches(params, orgId, r) <==> Wanted(params, orgId, r)
  {
  }

  lemma {:induction false} MatchingCounts(rows: seq<Row>, params: Request, orgId: string)
    ensures |Matching(rows, params, orgId)| == Count(rows, params, orgId)
  {
    if rows != [] {
      MatchesExactly(params, orgId, rows[0]);
      hide Matches, Wanted;
      MatchingCounts(rows[1..], params, orgId);
    }
  }

  lemma KeysDescend(g: Engine, r: Row, t: Row)
    ensures Less(RowKey(g, t), RowKey(g, r)) <==> Newer(g, r, t)
  {
    var a, b := RowKey(g, t), RowKey(g, r);
    assert a[1..] == g.collate(IdOf(t)) && b[1..] == g.collate(IdOf(r));
  }

  /** Which requests are refused, and for what. */
  lemma RefusedExactly(g: Engine, counted: seq<Row>, table: seq<Row>, params: Request, orgId: string)
    ensures var answer := Expected(g, counted, table, params, orgId);
            var badStart := params.startTime.Some? && params.startTime.value < 0;
            var badEnd := params.endTime.Some? && params.endTime.value < 0;
            && (answer == Err(InvalidStartTime) <==> badStart)
            && (answer == Err(InvalidEndTime) <==> !badStart && badEnd)
            && (answer == Err(InvalidCursor) <==> !badStart && !badEnd && params.cursor.Some? && params.cursor.value != ""
                                                  && Pagination.DecodeCursor(g.platform, params.cursor.value).None?)
  {
    hide Remaining, Matching, PageOf, Limit;
  }

  /** A row on a page is one that the request wants, from beyond its cursor; the page is in order and no longer than asked. */
  lemma PageExactly(g: Engine, counted: seq<Row>, table: seq<Row>, params: Request, orgId: string, page: Page)
    requires Sound(g) && UniqueIds(table) && Expected(g, counted, table, params, orgId) == Ok(page)
    ensures forall r :: r in page.operations ==> r in table && Wanted(params, orgId, r)
    ensures Position(g, params).Some? ==> forall r :: r in page.operations ==>
              r.createdAt <= Position(g, params).value.createdAt
    ensures forall i, j :: 0 <= i < j < |page.operations| ==> Newer(g, page.operations[i], page.operations[j])
    ensures |page.operations| <= Limit(params) && page.totalCount == Count(counted, params, orgId)
    ensures page.cursor.Some? ==> |page.operations| == Limit(params)
  {
    var c := Position(g, params);
    var rest := Remaining(g, table, params, orgId, c);
    RemainingIs(g, table, params, orgId, c);
    PageShape(g, rest, Limit(params), |Matching(counted, params, orgId)|);
    MatchingCounts(counted, params, orgId);
    hide Remaining, Matching, RowKey, Less, Matches, Wanted, Count, Position, Pagination.EncodeCursor, Limit, Newer, Sound, Beyond, UniqueIds;
    forall r | r in page.operations
      ensures r in table && Wanted(params, orgId, r) && (c.Some? ==> r.createdAt <= c.value.createdAt)
    {
      assert r in rest;
      MatchesExactly(params, orgId, r);
      BeyondIsOlder(g, c, r);
    }
    forall i, j | 0 <= i < j < |page.operations| ensures Newer(g, page.operations[i], page.operations[j]) {
      KeysDescend(g, page.operations[i], page.operations[j]);
    }
  }

  lemma BeyondIsOlder(g: Engine, c: Option<Pagination.Cursor>, r: Row)
    ensures Beyond(g, c, r) && c.Some? ==> r.createdAt <= c.value.createdAt
  {
  }
}
