/** Following cursors to the end: every row once, in order, while operations keep arriving. */
module AuditPages {
  import opened Text
  import opened Order
  import opened Server
  import opened ServerInvariants
  import opened Pagination
  import opened Audit
  import E = Encodings

  ghost predicate Sound(g: Engine) {
    Standard(g.platform) && forall a, b :: g.collate(a) == g.collate(b) ==> a == b
  }

  function IdText(): Row -> string { (r: Row) => r.operationId }

  ghost predicate UniqueIds(table: seq<Row>) { DistinctBy(table, IdText()) }

  lemma KeyDecidesId(g: Engine, r: Row, r': Row)
    requires Sound(g) && RowKey(g, r) == RowKey(g, r')
    ensures r.operationId == r'.operationId
  {
    assert g.collate(IdOf(r)) == RowKey(g, r)[1..] == RowKey(g, r')[1..] == g.collate(IdOf(r'));
    var a, b := E.FromString(r.operationId), E.FromString(r'.operationId);
    E.EncodingsInjective(a, b);
    assert |r.operationId| == |a| == |b| == |r'.operationId|;
    forall i | 0 <= i < |a| ensures r.operationId[i] == r'.operationId[i] { assert a[i] == b[i]; }
  }

  // ---- A descending arrangement is determined by its rows ----

  ghost predicate Descends(g: Engine, rows: seq<Row>) {
    forall i, j :: 0 <= i < j < |rows| ==> Less(RowKey(g, rows[j]), RowKey(g, rows[i]))
  }

  lemma {:induction false} DescendingUnique(g: Engine, a: seq<Row>, b: seq<Row>)
    requires Descends(g, a) && Descends(g, b) && forall r :: r in a <==> r in b
    ensures a == b
    decreases |a|
  {
    hide RowKey;
    EmptyAgree(a, b);
    if a != [] {
      assert a[0] in a && b[0] in b;
      FirstAgree(g, a, b);
      forall r ensures r in a[1..] <==> r in b[1..] {
        InTail(g, a, r);
        InTail(g, b, r);
      }
      DescendingUnique(g, a[1..], b[1..]);
      assert a == [a[0]] + a[1..] && b == [b[0]] + b[1..];
    }
  }

  lemma EmptyAgree(a: seq<Row>, b: seq<Row>)
    requires forall r :: r in a <==> r in b
    ensures a == [] <==> b == []
  {
    if a != [] { assert a[0] in a; }
    if b != [] { assert b[0] in b; }
  }

  lemma FirstAgree(g: Engine, a: seq<Row>, b: seq<Row>)
    requires Descends(g, a) && Descends(g, b) && a != [] && b != [] && a[0] in b && b[0] in a
    ensures a[0] == b[0]
  {
    var i :| 0 <= i < |b| && b[i] == a[0];
    var j :| 0 <= j < |a| && a[j] == b[0];
    LessAsymmetric(RowKey(g, a[0]), RowKey(g, b[0]));
    LessIrreflexive(RowKey(g, a[0]));
  }

  lemma InTail(g: Engine, a: seq<Row>, r: Row)
    requires Descends(g, a) && a != []
    ensures r in a[1..] <==> r in a && r != a[0]
  {
    hide RowKey, Less;
    assert a == [a[0]] + a[1..];
    LessIrreflexive(RowKey(g, a[0]));
    assert forall j :: 0 <= j < |a[1..]| ==> a[1..][j] == a[j + 1] && Less(RowKey(g, a[j + 1]), RowKey(g, a[0]));
  }

  // ---- One page ----

  lemma {:induction false} FilterKeepsIds(rows: seq<Row>, keep: Row -> bool)
    requires UniqueIds(rows)
    ensures UniqueIds(Filter(rows, keep))
    decreases |rows|
  {
    if rows != [] {
      FilterKeepsIds(rows[1..], keep);
      var t := Filter(rows[1..], keep);
      forall i | 0 <= i < |t| ensures t[i].operationId != rows[0].operationId {
        assert t[i] in t;
        var k :| 0 <= k < |rows[1..]| && rows[1..][k] == t[i];
        assert rows[k + 1] == t[i];
      }
    }
  }

  /** Sorted rows with distinct ids have strictly growing keys. */
  lemma StrictlyGrows(g: Engine, s: seq<Row>, i: nat, j: nat)
    requires Sound(g) && UniqueIds(s) && Sorted(s, ByKey(g)) && i < j < |s|
    ensures Less(RowKey(g, s[i]), RowKey(g, s[j]))
  {
    assert !Less(ByKey(g)(s[j]), ByKey(g)(s[i])) && IdText()(s[i]) != IdText()(s[j]);
    hide Less, CursorKey, Sorted, DistinctBy, Sound;
    LessTotal(RowKey(g, s[i]), RowKey(g, s[j]));
    if RowKey(g, s[i]) == RowKey(g, s[j]) { KeyDecidesId(g, s[i], s[j]); }
  }

  lemma ReversedMember(s: seq<Row>, r: Row)
    ensures r in Reverse(s) <==> r in s
  {
    if r in s {
      var i :| 0 <= i < |s| && s[i] == r;
      assert Reverse(s)[|s| - 1 - i] == r;
    }
  }

  lemma DescendingOrder(g: Engine, rows: seq<Row>)
    requires Sound(g) && UniqueIds(rows)
    ensures Descends(g, Descending(g, rows))
  {
    hide RowKey, Sorted, DistinctBy, Sound, Sort, Less, E.Utf16;
    var s := Sort(rows, ByKey(g));
    SortSorted(rows, ByKey(g));
    SortDistinct(rows, ByKey(g), IdText());
    forall i, j | 0 <= i < j < |s| ensures Less(RowKey(g, s[i]), RowKey(g, s[j])) { StrictlyGrows(g, s, i, j); }
    ReversedDescends(g, s);
  }

  lemma ReversedDescends(g: Engine, s: seq<Row>)
    requires forall i, j :: 0 <= i < j < |s| ==> Less(RowKey(g, s[i]), RowKey(g, s[j]))
    ensures Descends(g, Reverse(s))
  {
    hide RowKey, Less;
  }

  lemma DescendingMember(g: Engine, rows: seq<Row>, r: Row)
    ensures r in Descending(g, rows) <==> r in rows
  {
    SortMember(rows, ByKey(g), r);
    ReversedMember(Sort(rows, ByKey(g)), r);
  }

  lemma DescendingLength(g: Engine, rows: seq<Row>)
    ensures |Descending(g, rows)| == |rows|
  {
    SortPermutes(rows, ByKey(g));
  }

  lemma RemainingIs(g: Engine, table: seq<Row>, params: Request, orgId: string, c: Option<Cursor>)
    requires Sound(g) && UniqueIds(table)
    ensures var rest := Remaining(g, table, params, orgId, c);
            Descends(g, rest) && forall r :: r in rest <==> r in table && Matches(params, orgId, r) && Beyond(g, c, r)
  {
    FilterKeepsIds(table, Asked(params, orgId));
    FilterKeepsIds(Matching(table, params, orgId), Past(g, c));
    var rows := Filter(Matching(table, params, orgId), Past(g, c));
    DescendingOrder(g, rows);
    hide Descending, Matches, Beyond;
    forall r ensures r in Descending(g, rows) <==> r in rows { DescendingMember(g, rows, r); }
  }

  // ---- Following the cursors ----

  /** What the k-th request of a client that follows the cursors asks. */
  function Ask(params: Request, pages: seq<Page>, k: nat): Request
    requires k <= |pages|
  {
    params.(cursor := if k == 0 then None else pages[k - 1].cursor)
  }

  /** The page was read from the table; the count beside it may be of another. */
  ghost predicate Answered(g: Engine, table: seq<Row>, params: Request, orgId: string, page: Page) {
    exists counted :: Expected(g, counted, table, params, orgId) == Ok(page)
  }

  /** Page k was read from table k; only the last page has no cursor. */
  ghost predicate Walk(g: Engine, tables: seq<seq<Row>>, params: Request, orgId: string, pages: seq<Page>) {
    && |tables| == |pages| >= 1
    && (forall k :: 0 <= k < |pages| ==> Answered(g, tables[k], Ask(params, pages, k), orgId, pages[k]))
    && (forall k :: 0 <= k < |pages| ==> (pages[k].cursor.None? <==> k == |pages| - 1))
  }

  /** The log only grows while it is being read, and operation ids are primary keys. */
  ghost predicate Growing(tables: seq<seq<Row>>) {
    && (forall k :: 0 <= k < |tables| ==> UniqueIds(tables[k]))
    && (forall i, j, r :: 0 <= i <= j < |tables| && r in tables[i] ==> r in tables[j])
  }

  /** Where page k starts. */
  function Start(pages: seq<Page>, k: nat): Option<Cursor>
    requires k <= |pages|
  {
    if k == 0 || pages[k - 1].operations == [] then None
    else Some(CursorOf(pages[k - 1].operations[|pages[k - 1].operations| - 1]))
  }

  /** A full page ends in the row its cursor names; the last page takes all that remains. */
  lemma PageShape(g: Engine, rest: seq<Row>, limit: nat, total: nat)
    requires limit >= 1
    ensures var page := PageOf(g, rest, limit, total);
            && page.operations == (if |rest| > limit then rest[..limit] else rest) && page.totalCount == total
            && (page.cursor.Some? <==> |rest| > limit)
            && (page.cursor.Some? ==> page.cursor.value == EncodeCursor(CursorOf(page.operations[limit - 1])))
  {
    hide EncodeCursor;
  }

  lemma AnsweredPage(g: Engine, table: seq<Row>, params: Request, orgId: string, page: Page)
    requires Answered(g, table, params, orgId, page)
    ensures page == PageOf(g, Remaining(g, table, params, orgId, Position(g, params)), Limit(params), page.totalCount)
  {
    hide Position, Remaining, Matching, Limit, EncodeCursor, CursorOf;
  }

  /** A cursor names the last row of its page. */
  lemma CursorNamesLast(g: Engine, table: seq<Row>, params: Request, orgId: string, page: Page)
    requires Answered(g, table, params, orgId, page) && page.cursor.Some?
    ensures page.operations != []
    ensures page.cursor == Some(EncodeCursor(CursorOf(page.operations[|page.operations| - 1])))
  {
    hide Position, Remaining, Matching, PageOf, EncodeCursor, Answered, Limit;
    AnsweredPage(g, table, params, orgId, page);
    PageShape(g, Remaining(g, table, params, orgId, Position(g, params)), Limit(params), page.totalCount);
  }

  /** The next request starts after the row its cursor names. */
  lemma NextStarts(g: Engine, params: Request, pages: seq<Page>, k: nat)
    requires Sound(g) && k <= |pages| && params.cursor.None?
    requires k > 0 ==>
      var last := pages[k - 1];
      last.operations != [] && last.cursor == Some(EncodeCursor(CursorOf(last.operations[|last.operations| - 1])))
    ensures Position(g, Ask(params, pages, k)) == Start(pages, k)
  {
    hide DecodeCursor, EncodeCursor, CursorOf;
    if k > 0 {
      var c := CursorOf(pages[k - 1].operations[|pages[k - 1].operations| - 1]);
      CursorRoundTrip(g.platform, c);
      CursorNotEmpty(c);
    }
  }

  lemma PageStarts(g: Engine, tables: seq<seq<Row>>, params: Request, orgId: string, pages: seq<Page>, k: nat)
    requires Sound(g) && Walk(g, tables, params, orgId, pages) && params.cursor.None? && k < |pages|
    ensures Position(g, Ask(params, pages, k)) == Start(pages, k)
    ensures pages[k] == PageOf(g, Remaining(g, tables[k], params, orgId, Start(pages, k)), Limit(params), pages[k].totalCount)
  {
    hide EncodeCursor, Remaining, Limit, Matching, Answered, PageOf, Position, Start, Sound, Ask, CursorOf;
    if k > 0 { CursorNamesLast(g, tables[k - 1], Ask(params, pages, k - 1), orgId, pages[k - 1]); }
    NextStarts(g, params, pages, k);
    AnsweredPage(g, tables[k], Ask(params, pages, k), orgId, pages[k]);
    LimitIgnoresCursor(params, pages, k);
    AskIgnoresCursor(g, tables[k], params, orgId, pages, k, Start(pages, k));
  }

  lemma LimitIgnoresCursor(params: Request, pages: seq<Page>, k: nat)
    requires k <= |pages|
    ensures Limit(Ask(params, pages, k)) == Limit(params)
  {
  }

  lemma AskIgnoresCursor(g: Engine, table: seq<Row>, params: Request, orgId: string, pages: seq<Page>, k: nat, c: Option<Cursor>)
    requires k <= |pages|
    ensures Matching(table, Ask(params, pages, k), orgId) == Matching(table, params, orgId)
    ensures Remaining(g, table, Ask(params, pages, k), orgId, c) == Remaining(g, table, params, orgId, c)
  {
    hide Descending;
    var p, q := Asked(params, orgId), Asked(Ask(params, pages, k), orgId);
    assert forall r :: p(r) == q(r);
    SameFilter(table, p, q);
  }

  /** A page holds exactly the matching rows from where it starts to where the next one does. */
  lemma PageHolds(g: Engine, tables: seq<seq<Row>>, params: Request, orgId: string, pages: seq<Page>, k: nat, r: Row)
    requires Sound(g) && Walk(g, tables, params, orgId, pages) && params.cursor.None? && Growing(tables) && k < |pages|
    ensures r in pages[k].operations <==>
              && r in tables[k] && Matches(params, orgId, r) && Beyond(g, Start(pages, k), r)
              && (k < |pages| - 1 ==> !Beyond(g, Start(pages, k + 1), r))
    ensures k < |pages| - 1 ==> Start(pages, k + 1).Some?
  {
    PageStarts(g, tables, params, orgId, pages, k);
    RemainingIs(g, tables[k], params, orgId, Start(pages, k));
    var rest := Remaining(g, tables[k], params, orgId, Start(pages, k));
    assert pages[k].cursor.None? <==> k == |pages| - 1;
    hide Remaining, Matching, Matches, Limit, EncodeCursor, RowKey, Walk, Growing, Sound, Less, PageOf, Beyond, Descends;
    PageCut(g, pages, k, rest, Limit(params), pages[k].totalCount, r);
  }

  lemma PageCut(g: Engine, pages: seq<Page>, k: nat, rest: seq<Row>, n: nat, total: nat, r: Row)
    requires k < |pages| && n >= 1 && pages[k] == PageOf(g, rest, n, total) && Descends(g, rest)
    ensures r in pages[k].operations <==> r in rest && (pages[k].cursor.Some? ==> !Beyond(g, Start(pages, k + 1), r))
    ensures pages[k].cursor.Some? ==> Start(pages, k + 1).Some?
  {
    hide EncodeCursor, CursorOf, PageOf, Beyond, Descends;
    PageShape(g, rest, n, total);
    if |rest| > n {
      assert Start(pages, k + 1) == Some(CursorOf(rest[n - 1]));
      CutAt(g, rest, n, r);
    }
  }

  /** In a descending sequence the first n rows are those not after the n-th. */
  lemma CutAt(g: Engine, rest: seq<Row>, n: nat, r: Row)
    requires Descends(g, rest) && 1 <= n <= |rest|
    ensures r in rest[..n] <==> r in rest && !Beyond(g, Some(CursorOf(rest[n - 1])), r)
    ensures r in rest[n..] <==> r in rest && Beyond(g, Some(CursorOf(rest[n - 1])), r)
  {
    hide Less, CursorKey;
    LessIrreflexive(RowKey(g, rest[n - 1]));
    assert rest == rest[..n] + rest[n..];
    forall i | 0 <= i < |rest| ensures Less(RowKey(g, rest[i]), RowKey(g, rest[n - 1])) <==> i >= n {
      LessAsymmetric(RowKey(g, rest[i]), RowKey(g, rest[n - 1]));
    }
    assert forall i :: 0 <= i < n ==> rest[..n][i] == rest[i];
    assert forall i :: 0 <= i < |rest| - n ==> rest[n..][i] == rest[n + i];
  }

  /** What is after one page's end is after every earlier one. */
  lemma {:induction false} StartsDescend(g: Engine, tables: seq<seq<Row>>, params: Request, orgId: string,
                                         pages: seq<Page>, i: nat, j: nat, r: Row)
    requires Sound(g) && Walk(g, tables, params, orgId, pages) && params.cursor.None? && Growing(tables)
    requires i <= j < |pages| && Beyond(g, Start(pages, j), r)
    ensures Beyond(g, Start(pages, i), r)
    decreases j - i
  {
    hide Walk, Growing, Sound, Less, CursorKey;
    if i < j {
      StartsDescend(g, tables, params, orgId, pages, i + 1, j, r);
      LastOfPage(g, tables, params, orgId, pages, i);
      var last := pages[i].operations[|pages[i].operations| - 1];
      PageHolds(g, tables, params, orgId, pages, i, last);
      assert Start(pages, i + 1) == Some(CursorOf(last));
      if Start(pages, i).Some? {
        LessTransitive(RowKey(g, r), RowKey(g, last), CursorKey(g, Start(pages, i).value));
      }
    }
  }

  lemma LastOfPage(g: Engine, tables: seq<seq<Row>>, params: Request, orgId: string, pages: seq<Page>, k: nat)
    requires Sound(g) && Walk(g, tables, params, orgId, pages) && params.cursor.None? && Growing(tables)
    requires k < |pages| - 1
    ensures pages[k].operations != [] && pages[k].operations[|pages[k].operations| - 1] in pages[k].operations
  {
    LastNotEmpty(g, tables, params, orgId, pages, k);
  }

  lemma LastNotEmpty(g: Engine, tables: seq<seq<Row>>, params: Request, orgId: string, pages: seq<Page>, k: nat)
    requires Sound(g) && Walk(g, tables, params, orgId, pages) && params.cursor.None? && k < |pages| - 1
    ensures pages[k].operations != []
  {
    PageStarts(g, tables, params, orgId, pages, k);
    PageShape(g, Remaining(g, tables[k], params, orgId, Start(pages, k)), Limit(params), pages[k].totalCount);
  }

  // ---- Every row once, in order ----

  ghost predicate ReturnedAt(pages: seq<Page>, i: nat, k: nat, r: Row) {
    i < |pages| && k < |pages[i].operations| && pages[i].operations[k] == r
  }

  lemma {:induction false} RowIsFound(g: Engine, tables: seq<seq<Row>>, params: Request, orgId: string,
                                      pages: seq<Page>, i: nat, r: Row)
    requires Sound(g) && Walk(g, tables, params, orgId, pages) && params.cursor.None? && Growing(tables)
    requires i < |pages| && r in tables[0] && Matches(params, orgId, r) && Beyond(g, Start(pages, i), r)
    ensures exists j, k :: ReturnedAt(pages, j, k, r)
    decreases |pages| - i
  {
    assert r in tables[i];
    PageHolds(g, tables, params, orgId, pages, i, r);
    hide Walk, Growing, Sound, Matches, Beyond;
    if r in pages[i].operations {
      var k :| 0 <= k < |pages[i].operations| && pages[i].operations[k] == r;
      assert ReturnedAt(pages, i, k, r);
    } else {
      RowIsFound(g, tables, params, orgId, pages, i + 1, r);
    }
  }

  /** Rows of a later page, and later rows of the same page, come strictly after. */
  lemma WalkDescends(g: Engine, tables: seq<seq<Row>>, params: Request, orgId: string, pages: seq<Page>,
                     i: nat, k: nat, r: Row, j: nat, l: nat, t: Row)
    requires Sound(g) && Walk(g, tables, params, orgId, pages) && params.cursor.None? && Growing(tables)
    requires ReturnedAt(pages, i, k, r) && ReturnedAt(pages, j, l, t) && (i < j || (i == j && k < l))
    ensures Less(RowKey(g, t), RowKey(g, r))
  {
    hide Less, CursorKey, Walk, Growing, Sound, Matches;
    if i == j {
      PageDescends(g, tables, params, orgId, pages, i);
    } else {
      assert r in pages[i].operations && t in pages[j].operations;
      PageHolds(g, tables, params, orgId, pages, i, r);
      PageHolds(g, tables, params, orgId, pages, j, t);
      StartsDescend(g, tables, params, orgId, pages, i + 1, j, t);
      var c := CursorKey(g, Start(pages, i + 1).value);
      LessThenNotLess(RowKey(g, t), c, RowKey(g, r));
    }
  }

  lemma LessThenNotLess(a: seq<int>, b: seq<int>, c: seq<int>)
    requires Less(a, b) && !Less(c, b)
    ensures Less(a, c)
  {
    LessTotal(c, b);
    if b != c { LessTransitive(a, b, c); }
  }

  lemma PageDescends(g: Engine, tables: seq<seq<Row>>, params: Request, orgId: string, pages: seq<Page>, k: nat)
    requires Sound(g) && Walk(g, tables, params, orgId, pages) && params.cursor.None? && Growing(tables) && k < |pages|
    ensures Descends(g, pages[k].operations)
  {
    PageStarts(g, tables, params, orgId, pages, k);
    RemainingIs(g, tables[k], params, orgId, Start(pages, k));
    PageShape(g, Remaining(g, tables[k], params, orgId, Start(pages, k)), Limit(params), pages[k].totalCount);
    hide Remaining, RowKey, Less, Limit, Matching, Walk, Growing, Sound, EncodeCursor;
  }

  /**
    Following the cursors to the end returns every matching row that was there when the first
    page was read, and returns no row twice, whatever was inserted between the pages.
  */
  lemma EveryRowOnce(g: Engine, tables: seq<seq<Row>>, params: Request, orgId: string, pages: seq<Page>, r: Row)
    requires Sound(g) && Walk(g, tables, params, orgId, pages) && params.cursor.None? && Growing(tables)
    requires r in tables[0] && Matches(params, orgId, r)
    ensures exists i, k :: ReturnedAt(pages, i, k, r)
    ensures forall i, k, j, l :: ReturnedAt(pages, i, k, r) && ReturnedAt(pages, j, l, r) ==> i == j && k == l
  {
    RowIsFound(g, tables, params, orgId, pages, 0, r);
    forall i, k, j, l | ReturnedAt(pages, i, k, r) && ReturnedAt(pages, j, l, r) ensures i == j && k == l {
      LessIrreflexive(RowKey(g, r));
      if i < j || (i == j && k < l) { WalkDescends(g, tables, params, orgId, pages, i, k, r, j, l, r); }
      if j < i || (i == j && l < k) { WalkDescends(g, tables, params, orgId, pages, j, l, r, i, k, r); }
    }
  }

  // ---- On a table that stands still ----

  /** The whole answer in descending order. */
  function Whole(g: Engine, table: seq<Row>, params: Request, orgId: string): seq<Row> {
    Remaining(g, table, params, orgId, None)
  }

  /** A walk during which both queries of every request see the same table. */
  ghost predicate StillWalk(g: Engine, table: seq<Row>, params: Request, orgId: string, pages: seq<Page>) {
    && |pages| >= 1
    && (forall k :: 0 <= k < |pages| ==> Expected(g, table, table, Ask(params, pages, k), orgId) == Ok(pages[k]))
    && (forall k :: 0 <= k < |pages| ==> (pages[k].cursor.None? <==> k == |pages| - 1))
  }

  lemma StillIsWalk(g: Engine, table: seq<Row>, params: Request, orgId: string, pages: seq<Page>)
    requires StillWalk(g, table, params, orgId, pages)
    ensures Walk(g, seq(|pages|, _ => table), params, orgId, pages)
  {
    hide Expected;
  }

  lemma StillTotal(g: Engine, table: seq<Row>, params: Request, orgId: string, pages: seq<Page>, k: nat)
    requires StillWalk(g, table, params, orgId, pages) && k < |pages|
    ensures pages[k].totalCount == |Matching(table, params, orgId)|
  {
    AskIgnoresCursor(g, table, params, orgId, pages, k, None);
    hide Matching, Remaining, EncodeCursor, Limit, Position;
  }

  lemma CutRemaining(g: Engine, table: seq<Row>, params: Request, orgId: string, c: Option<Cursor>, n: nat)
    requires Sound(g) && UniqueIds(table) && 1 <= n <= |Remaining(g, table, params, orgId, c)|
    ensures var rest := Remaining(g, table, params, orgId, c);
            Remaining(g, table, params, orgId, Some(CursorOf(rest[n - 1]))) == rest[n..]
  {
    var rest := Remaining(g, table, params, orgId, c);
    var d := Some(CursorOf(rest[n - 1]));
    var after := Remaining(g, table, params, orgId, d);
    RemainingIs(g, table, params, orgId, c);
    RemainingIs(g, table, params, orgId, d);
    hide Remaining, Matches, Less, CursorKey, Sound, UniqueIds;
    assert rest[n - 1] in rest;
    forall r ensures r in after <==> r in rest[n..] {
      CutAt(g, rest, n, r);
      if c.Some? && Beyond(g, d, r) {
        LessTransitive(RowKey(g, r), RowKey(g, rest[n - 1]), CursorKey(g, c.value));
      }
    }
    DescendingUnique(g, after, rest[n..]);
  }

  lemma WholeLength(g: Engine, table: seq<Row>, params: Request, orgId: string)
    ensures |Whole(g, table, params, orgId)| == |Matching(table, params, orgId)|
  {
    var all := Matching(table, params, orgId);
    FilterAll(all, Past(g, None));
    DescendingLength(g, all);
  }

  lemma {:induction false} FilterAll(rows: seq<Row>, keep: Row -> bool)
    requires forall r :: keep(r)
    ensures Filter(rows, keep) == rows
  {
    if rows != [] { FilterAll(rows[1..], keep); }
  }

  /** k full pages. */
  function Offset(k: nat, n: nat): nat { if k == 0 then 0 else Offset(k - 1, n) + n }

  lemma {:induction false} OffsetIs(k: nat, n: nat)
    ensures Offset(k, n) == k * n
    decreases k
  {
    if k > 0 {
      OffsetIs(k - 1, n);
      assert k * n == (k - 1) * n + n;
    }
  }

  /** The rows from position a to position b, as far as there are any. */
  function Slice(rows: seq<Row>, a: nat, b: nat): seq<Row>
    requires a <= b
  {
    if b <= |rows| then rows[a..b] else if a <= |rows| then rows[a..] else []
  }

  /** Page k starts where k full pages end. */
  lemma {:induction false} StillSlices(g: Engine, table: seq<Row>, params: Request, orgId: string,
                                       pages: seq<Page>, k: nat)
    requires Sound(g) && StillWalk(g, table, params, orgId, pages) && params.cursor.None? && UniqueIds(table)
    requires k < |pages|
    ensures Offset(k, Limit(params)) <= |Whole(g, table, params, orgId)|
    ensures Remaining(g, table, params, orgId, Start(pages, k)) == Whole(g, table, params, orgId)[Offset(k, Limit(params))..]
    decreases k
  {
    hide StillWalk, Remaining, Limit, Sound, UniqueIds, Matching;
    var whole, n := Whole(g, table, params, orgId), Limit(params);
    if k == 0 {
      assert whole[0..] == whole;
    } else {
      StillSlices(g, table, params, orgId, pages, k - 1);
      StillCut(g, table, params, orgId, pages, k - 1);
      var rest := Remaining(g, table, params, orgId, Start(pages, k - 1));
      CutRemaining(g, table, params, orgId, Start(pages, k - 1), n);
      assert rest[n..] == whole[Offset(k, n)..];
    }
  }

  lemma StillCut(g: Engine, table: seq<Row>, params: Request, orgId: string, pages: seq<Page>, k: nat)
    requires Sound(g) && StillWalk(g, table, params, orgId, pages) && params.cursor.None?
    requires k < |pages|
    ensures var rest := Remaining(g, table, params, orgId, Start(pages, k)); var n := Limit(params);
            && (k < |pages| - 1 <==> |rest| > n)
            && pages[k].operations == (if |rest| > n then rest[..n] else rest)
            && pages[k].totalCount == |Matching(table, params, orgId)|
            && (k < |pages| - 1 ==> Start(pages, k + 1) == Some(CursorOf(rest[n - 1])))
  {
    hide Remaining, Limit, Sound, Matching, EncodeCursor, CursorOf, PageOf, Expected, Walk;
    StillIsWalk(g, table, params, orgId, pages);
    StillTotal(g, table, params, orgId, pages, k);
    PageStarts(g, seq(|pages|, _ => table), params, orgId, pages, k);
    assert pages[k].cursor.None? <==> k == |pages| - 1;
    hide StillWalk;
    var rest, n := Remaining(g, table, params, orgId, Start(pages, k)), Limit(params);
    PageShape(g, rest, n, |Matching(table, params, orgId)|);
    if |rest| > n {
      assert |pages[k].operations| == n && pages[k].operations[n - 1] == rest[n - 1];
    }
  }

  /** ceil(n / limit) pages, and one when there is nothing. */
  function PageCount(n: nat, limit: nat): nat
    requires limit >= 1
  {
    if n == 0 then 1 else (n + limit - 1) / limit
  }

  lemma Scales(a: int, b: int, c: nat)
    requires a < b
    ensures a * c + c <= b * c
  {
    assert (b - a - 1) * c >= 0;
  }

  lemma QuotientIs(a: nat, d: nat, q: nat)
    requires d >= 1 && q * d <= a < q * d + d
    ensures a / d == q
  {
    assert a == d * (a / d) + a % d;
    if a / d < q { Scales(a / d, q, d); }
    if q < a / d { Scales(q, a / d, d); }
  }

  lemma CountsPages(n: nat, limit: nat, m: nat)
    requires limit >= 1 && m >= 1 && n <= Offset(m, limit) && (m == 1 || Offset(m - 1, limit) < n)
    ensures m == PageCount(n, limit)
  {
    OffsetIs(m, limit);
    OffsetIs(m - 1, limit);
    assert Offset(m, limit) == Offset(m - 1, limit) + limit;
    if n > 0 { QuotientIs(n + limit - 1, limit, m); }
  }

  lemma SliceIs(whole: seq<Row>, a: nat, n: nat)
    requires a <= |whole|
    ensures var rest := whole[a..]; Slice(whole, a, a + n) == if |rest| > n then rest[..n] else rest
  {
  }

  /** Page k of an answer cut into pages of n rows. */
  ghost predicate IsPage(whole: seq<Row>, n: nat, page: Page, k: nat) {
    page.totalCount == |whole| && page.operations == Slice(whole, Offset(k, n), Offset(k + 1, n))
  }

  lemma StillPage(g: Engine, table: seq<Row>, params: Request, orgId: string, pages: seq<Page>, k: nat)
    requires Sound(g) && StillWalk(g, table, params, orgId, pages) && params.cursor.None? && UniqueIds(table)
    requires k < |pages|
    ensures IsPage(Whole(g, table, params, orgId), Limit(params), pages[k], k)
    ensures k < |pages| - 1 <==> |Whole(g, table, params, orgId)| > Offset(k + 1, Limit(params))
  {
    hide StillWalk, Remaining, Limit, Sound, UniqueIds, Matching, Start, Slice;
    WholeLength(g, table, params, orgId);
    StillSlices(g, table, params, orgId, pages, k);
    StillCut(g, table, params, orgId, pages, k);
    hide Whole;
    SliceIs(Whole(g, table, params, orgId), Offset(k, Limit(params)), Limit(params));
  }

  lemma WalkNotEmpty(g: Engine, table: seq<Row>, params: Request, orgId: string, pages: seq<Page>)
    requires StillWalk(g, table, params, orgId, pages)
    ensures |pages| >= 1
  {
  }

  /**
    On a fixed table of N matching rows the pages are the consecutive slices of the whole
    answer, there are max(1, ceil(N / limit)) of them, and each reports N as the total.
  */
  lemma FixedTable(g: Engine, table: seq<Row>, params: Request, orgId: string, pages: seq<Page>)
    requires Sound(g) && StillWalk(g, table, params, orgId, pages) && params.cursor.None? && UniqueIds(table)
    ensures |Whole(g, table, params, orgId)| == |Matching(table, params, orgId)|
    ensures |pages| == PageCount(|Matching(table, params, orgId)|, Limit(params))
    ensures forall k: nat :: k < |pages| ==> IsPage(Whole(g, table, params, orgId), Limit(params), pages[k], k)
  {
    hide StillWalk, Remaining, Limit, Sound, UniqueIds, Matching, Whole, Offset, PageCount, IsPage;
    WholeLength(g, table, params, orgId);
    WalkNotEmpty(g, table, params, orgId, pages);
    var m := |pages|;
    forall k: nat | k < m ensures IsPage(Whole(g, table, params, orgId), Limit(params), pages[k], k) {
      StillPage(g, table, params, orgId, pages, k);
    }
    StillPage(g, table, params, orgId, pages, m - 1);
    if m > 1 { StillPage(g, table, params, orgId, pages, m - 2); }
    CountsPages(|Matching(table, params, orgId)|, Limit(params), m);
  }

  // ---- Following the cursors of a table that stands still comes to an end ----

  lemma CountBounds(n: nat, limit: nat)
    requires limit >= 1
    ensures var m := PageCount(n, limit);
            m >= 1 && n <= Offset(m, limit) && forall k :: 1 <= k < m ==> Offset(k, limit) < n
  {
    var m := PageCount(n, limit);
    if n > 0 {
      var a := n + limit - 1;
      assert a == limit * (a / limit) + a % limit;
      assert m * limit == limit * (a / limit);
      if m < 1 { Scales(m, 1, limit); }
    }
    OffsetIs(m, limit);
    forall k | 1 <= k < m ensures Offset(k, limit) < n {
      OffsetIs(k, limit);
      Scales(k, m, limit);
    }
  }

  function CutPage(g: Engine, whole: seq<Row>, n: nat, k: nat): Page
    requires n >= 1
  {
    PageOf(g, if Offset(k, n) <= |whole| then whole[Offset(k, n)..] else [], n, |whole|)
  }

  function CutPages(g: Engine, whole: seq<Row>, n: nat, m: nat): (r: seq<Page>)
    requires n >= 1
    ensures |r| == m && forall k :: 0 <= k < m ==> r[k] == CutPage(g, whole, n, k)
  {
    seq(m, k requires 0 <= k < m => CutPage(g, whole, n, k))
  }

  /** A full page that is not the last ends in a row, and its cursor names that row. */
  lemma CutPageIs(g: Engine, whole: seq<Row>, n: nat, m: nat, k: nat)
    requires n >= 1 && m == PageCount(|whole|, n) && k < m
    ensures Offset(k, n) <= |whole|
    ensures var page, rest := CutPage(g, whole, n, k), whole[Offset(k, n)..];
            && page == PageOf(g, rest, n, |whole|) && (|rest| > n <==> k + 1 < m)
            && (k + 1 < m ==> && page.operations == rest[..n]
                              && page.cursor == Some(EncodeCursor(CursorOf(rest[n - 1]))))
            && (page.cursor.None? <==> k + 1 == m)
  {
    hide EncodeCursor, CursorOf, PageCount, PageOf;
    CountBounds(|whole|, n);
    PageShape(g, whole[Offset(k, n)..], n, |whole|);
    assert Offset(k + 1, n) == Offset(k, n) + n;
  }

  /** Where the next page of the cut starts, and what is left there. */
  lemma {:induction false} CutStarts(g: Engine, table: seq<Row>, params: Request, orgId: string, m: nat, k: nat)
    requires Sound(g) && UniqueIds(table)
    requires m == PageCount(|Whole(g, table, params, orgId)|, Limit(params)) && k < m
    ensures var whole, n := Whole(g, table, params, orgId), Limit(params);
            && Offset(k, n) <= |whole|
            && Remaining(g, table, params, orgId, Start(CutPages(g, whole, n, m), k)) == whole[Offset(k, n)..]
    decreases k
  {
    hide Remaining, Limit, Sound, UniqueIds, PageCount, EncodeCursor, CutPage, PageOf, CursorOf;
    var whole, n := Whole(g, table, params, orgId), Limit(params);
    var pages := CutPages(g, whole, n, m);
    CutPageIs(g, whole, n, m, k);
    if k == 0 {
      assert whole[0..] == whole;
    } else {
      CutPageIs(g, whole, n, m, k - 1);
      CutStarts(g, table, params, orgId, m, k - 1);
      var rest := whole[Offset(k - 1, n)..];
      CutRemaining(g, table, params, orgId, Start(pages, k - 1), n);
      assert rest[..n][n - 1] == rest[n - 1];
      assert Start(pages, k) == Some(CursorOf(rest[n - 1]));
      assert rest[n..] == whole[Offset(k, n)..];
    }
  }

  lemma CutAnswers(g: Engine, table: seq<Row>, params: Request, orgId: string, m: nat, k: nat)
    requires Sound(g) && UniqueIds(table) && params.cursor.None?
    requires (params.startTime.Some? ==> params.startTime.value >= 0) && (params.endTime.Some? ==> params.endTime.value >= 0)
    requires m == PageCount(|Whole(g, table, params, orgId)|, Limit(params)) && k < m
    ensures var pages := CutPages(g, Whole(g, table, params, orgId), Limit(params), m);
            Expected(g, table, table, Ask(params, pages, k), orgId) == Ok(pages[k])
  {
    hide Remaining, Limit, Sound, UniqueIds, PageCount, EncodeCursor, CutPage, PageOf, CursorOf, Matching, Position;
    var whole, n := Whole(g, table, params, orgId), Limit(params);
    var pages := CutPages(g, whole, n, m);
    CutPageIs(g, whole, n, m, k);
    CutStarts(g, table, params, orgId, m, k);
    WholeLength(g, table, params, orgId);
    if k > 0 {
      CutPageIs(g, whole, n, m, k - 1);
      var rest := whole[Offset(k - 1, n)..];
      assert pages[k - 1].operations[|pages[k - 1].operations| - 1] == rest[n - 1];
    }
    NextStarts(g, params, pages, k);
    AskIgnoresCursor(g, table, params, orgId, pages, k, Start(pages, k));
    LimitIgnoresCursor(params, pages, k);
    assert k > 0 ==> Start(pages, k).Some?;
  }

  /** The cut into consecutive slices is what a client that follows the cursors gets, to the end. */
  lemma WalkEnds(g: Engine, table: seq<Row>, params: Request, orgId: string)
    requires Sound(g) && UniqueIds(table) && params.cursor.None?
    requires (params.startTime.Some? ==> params.startTime.value >= 0) && (params.endTime.Some? ==> params.endTime.value >= 0)
    ensures var m := PageCount(|Whole(g, table, params, orgId)|, Limit(params));
            StillWalk(g, table, params, orgId, CutPages(g, Whole(g, table, params, orgId), Limit(params), m))
  {
    hide Expected, Limit, Sound, UniqueIds, PageCount, CutPage, Whole;
    var m := PageCount(|Whole(g, table, params, orgId)|, Limit(params));
    var pages := CutPages(g, Whole(g, table, params, orgId), Limit(params), m);
    CountBounds(|Whole(g, table, params, orgId)|, Limit(params));
    forall k | 0 <= k < m
      ensures Expected(g, table, table, Ask(params, pages, k), orgId) == Ok(pages[k]) && (pages[k].cursor.None? <==> k == m - 1)
    {
      CutAnswers(g, table, params, orgId, m, k);
      CutPageIs(g, Whole(g, table, params, orgId), Limit(params), m, k);
    }
  }

  // ---- The tables of a running server ----

  /** Successive states of the server: each reached from the one before by some run. */
  ghost predicate Successive(h: Host, states: seq<State>) {
    && (forall k :: 0 <= k < |states| ==> Core(h, states[k]))
    && (forall i, j :: 0 <= i <= j < |states| ==> exists run :: states[j] == Exec(h, states[i], run))
  }

  /** Whatever the server does between two pages, its operations table is a growing one. */
  lemma ServerTablesGrow(h: Host, states: seq<State>, tables: seq<seq<Row>>)
    requires Successive(h, states) && |tables| == |states|
    requires forall k :: 0 <= k < |states| ==> tables[k] == states[k].ops
    ensures Growing(tables)
  {
    forall k | 0 <= k < |tables| ensures UniqueIds(tables[k]) {
      assert Core(h, states[k]);
    }
    forall i, j, r | 0 <= i <= j < |tables| && r in tables[i] ensures r in tables[j] {
      var run :| states[j] == Exec(h, states[i], run);
      LogOnlyGrows(h, states[i], run);
      var x :| 0 <= x < |tables[i]| && tables[i][x] == r;
      assert tables[j][x] == r;
    }
  }
}
