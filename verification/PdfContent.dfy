/** What a reader finds on a page of the report, mark by mark. */
module PdfContent {
  import opened Text
  import opened PdfPages

  /** A label with the text stands at the place. */
  ghost predicate Shows(page: seq<Mark>, s: string, x: int, y: int) {
    exists m :: m in page && m.Label? && m.s == s && m.tx == x && m.ty == y
  }

  ghost predicate Within(part: seq<Mark>, page: seq<Mark>) { forall m :: m in part ==> m in page }

  /** Whole when it fits, otherwise its beginning and two dots. */
  predicate Cut(t: string, s: string, max: nat)
    requires max >= 2
  {
    if |s| <= max then t == s else |t| == max && t[..max - 2] == s[..max - 2] && t[max - 2..] == ".."
  }

  /** Right-aligned in n columns. */
  predicate RightAligned(t: string, s: string, n: nat) {
    && |s| <= |t| && |t| == (if |s| < n then n else |s|) && t[|t| - |s|..] == s
    && forall i :: 0 <= i < |t| - |s| ==> t[i] == ' '
  }

  lemma TruncCuts(s: string, max: nat)
    requires max >= 2
    ensures Cut(Trunc(s, max), s, max)
  {
  }

  lemma {:induction false} PadAligns(s: string, n: nat)
    ensures RightAligned(PadStart(s, n, ' '), s, n)
    decreases n - |s|
  {
    if |s| < n {
      PadAligns([' '] + s, n);
      var t := PadStart([' '] + s, n, ' ');
      assert t[|t| - |s| - 1..] == [' '] + s;
      assert t[|t| - |s|..] == t[|t| - |s| - 1..][1..];
      assert t[|t| - |s| - 1] == t[|t| - |s| - 1..][0];
    }
  }

  /** The five texts of an operation's row, under the five headings. */
  ghost predicate RowShown(page: seq<Mark>, op: Operation, y: int) {
    && (exists t :: RightAligned(t, Decimal(op.seqNo), 4) && Shows(page, t, 56, y))
    && Shows(page, op.time, 94, y)
    && (exists t :: Cut(t, op.operationId, 30) && Shows(page, t, 198, y))
    && (exists t :: Cut(t, op.agentId, 18) && Shows(page, t, 352, y))
    && (exists t :: Cut(t, op.operationType, 20) && Shows(page, t, 454, y))
  }

  ghost predicate HeadingsShown(page: seq<Mark>, y: int) {
    && Shows(page, "#", 56, y) && Shows(page, "TIMESTAMP", 94, y) && Shows(page, "OPERATION ID", 198, y)
    && Shows(page, "AGENT", 352, y) && Shows(page, "TYPE", 454, y)
  }

  lemma RowMarksShow(y: int, op: Operation, index: int, page: seq<Mark>)
    requires Within(RowMarks(y, op, index), page)
    ensures RowShown(page, op, y)
  {
    hide Trunc, PadStart, Cut, RightAligned, Decimal;
    var p := RowMarks(y, op, index);
    var k := if index % 2 == 0 then 1 else 0;
    PadAligns(Decimal(op.seqNo), 4);
    TruncCuts(op.operationId, 30);
    TruncCuts(op.agentId, 18);
    TruncCuts(op.operationType, 20);
    assert p[k] in p && p[k + 1] in p && p[k + 2] in p && p[k + 3] in p && p[k + 4] in p;
    assert Shows(page, PadStart(Decimal(op.seqNo), 4, ' '), 56, y);
    assert Shows(page, Trunc(op.operationId, 30), 198, y);
    assert Shows(page, Trunc(op.agentId, 18), 352, y);
    assert Shows(page, Trunc(op.operationType, 20), 454, y);
  }

  lemma HeadingsIn(y: int, page: seq<Mark>)
    requires Within(TableHeader(y), page)
    ensures HeadingsShown(page, y - 14)
  {
    var p := TableHeader(y);
    assert p[0] in p && p[1] in p && p[2] in p && p[3] in p && p[4] in p;
  }

  lemma RowWithin(ops: seq<Operation>, y: int, i: nat, n: nat, k: nat)
    requires i <= k < n <= |ops|
    ensures Within(RowMarks(y - ROW_H * (k - i), ops[k], k), Rows(ops, y, i, n))
  {
    hide RowMarks, Rows;
    RowDrawn(ops, y, i, n, k);
  }

  lemma PartsWithin(data: Report, pg: nat)
    requires First(data, pg) <= First(data, pg + 1)
    ensures Within(TableHeader(Top(data, pg) + 22), PageMarks(data, pg))
    ensures First(data, pg + 1) <= |data.operations|
    ensures Within(Rows(data.operations, Top(data, pg), First(data, pg), First(data, pg + 1)), PageMarks(data, pg))
  {
    hide TableHeader, Metadata, Header, Footer, EndNote, Top, TotalPages, Rows, Baseline;
  }

  /** The page an operation is on, and the height of its row. */
  function PageOf(i: nat): nat { if i < 38 then 0 else 1 + (i - 38) / 53 }

  function RowY(i: nat): int { if i < 38 then 540 - 12 * i else 694 - 12 * ((i - 38) % 53) }

  lemma RowPlace(data: Report, i: nat)
    requires i < |data.operations|
    ensures PageFor(i) == PageOf(i) && Baseline(data, PageOf(i), i) == RowY(i)
  {
    assert OPS_FIRST_PAGE == 38 && OPS_PER_PAGE == 53;
    TopIs(data, PageFor(i));
    PageForBrackets(i, PageFor(i));
    hide Top;
    if i >= 38 { assert i - 38 == 53 * ((i - 38) / 53) + (i - 38) % 53; }
  }

  /**
    Every operation is shown on its page: number, time, operation id, agent and type, each
    under its own heading and on one line that is the operation's own.
  */
  lemma EveryRowShown(data: Report, i: nat)
    requires i < |data.operations|
    ensures PageOf(i) < TotalPages(|data.operations|) && First(data, PageOf(i)) <= First(data, PageOf(i) + 1)
    ensures RowShown(PageMarks(data, PageOf(i)), data.operations[i], RowY(i))
    ensures HeadingsShown(PageMarks(data, PageOf(i)), if PageOf(i) == 0 then 548 else 702)
    ensures 56 <= RowY(i) < if PageOf(i) == 0 then 548 else 702
  {
    hide RowShown, HeadingsShown, RowMarks, TableHeader, PageMarks, Top, TotalPages, Rows, Baseline, PageOf, RowY;
    var pg := PageOf(i);
    RowPlace(data, i);
    OnExactlyOnePage(data, i, pg);
    TopIs(data, pg);
    BaselineIs(data, pg, i);
    RowYInside(i);
    hide First;
    PartsWithin(data, pg);
    RowWithin(data.operations, Top(data, pg), First(data, pg), First(data, pg + 1), i);
    RowMarksShow(RowY(i), data.operations[i], i, PageMarks(data, pg));
    HeadingsIn(Top(data, pg) + 22, PageMarks(data, pg));
  }

  lemma RowYInside(i: nat)
    ensures 56 <= RowY(i) < if PageOf(i) == 0 then 548 else 702
  {
  }

  lemma BaselineIs(data: Report, pg: nat, i: nat)
    ensures Baseline(data, pg, i) == Top(data, pg) - ROW_H * (i - First(data, pg))
  {
  }

  // ---- Stripes ----

  function Stripe(y: int): Mark { Fill(52, y - 3, 508, 12, STRIPE) }

  lemma {:induction false} RowFills(ops: seq<Operation>, y: int, i: nat, n: nat, z: int)
    requires i <= n <= |ops| && Stripe(z) in Rows(ops, y, i, n)
    ensures exists k :: i <= k < n && k % 2 == 0 && z == y - 12 * (k - i)
    decreases n - i
  {
    hide RowMarks, Stripe;
    NotEmpty(ops, y, i, n, Stripe(z));
    var row := RowMarks(y, ops[i], i);
    if Stripe(z) in row {
      OwnStripe(y, ops[i], i, z);
      assert z == y - 12 * (i - i);
    } else {
      RowFills(ops, y - ROW_H, i + 1, n, z);
      var k :| i + 1 <= k < n && k % 2 == 0 && z == y - ROW_H - 12 * (k - (i + 1));
      assert z == y - 12 * (k - i);
    }
  }

  lemma NotEmpty(ops: seq<Operation>, y: int, i: nat, n: nat, m: Mark)
    requires i <= n <= |ops| && m in Rows(ops, y, i, n)
    ensures i < n && (m in RowMarks(y, ops[i], i) || m in Rows(ops, y - ROW_H, i + 1, n))
  {
    hide RowMarks;
  }

  lemma OwnStripe(y: int, op: Operation, index: nat, z: int)
    ensures Stripe(z) in RowMarks(y, op, index) <==> z == y && index % 2 == 0
  {
    assert RowMarks(y, op, index) == (if index % 2 == 0 then [Stripe(y)] else []) + RowMarks(y, op, index)[if index % 2 == 0 then 1 else 0..];
    if index % 2 == 0 { assert RowMarks(y, op, index)[0] == Stripe(y); }
  }

  lemma NoOtherStripes(data: Report, pg: nat, z: int)
    requires First(data, pg) <= First(data, pg + 1) && Stripe(z) in PageMarks(data, pg)
    ensures First(data, pg + 1) <= |data.operations|
    ensures Stripe(z) in Rows(data.operations, Top(data, pg), First(data, pg), First(data, pg + 1))
  {
    FirstGrows(data, pg);
    NoFills(data);
    NoHeaderStripe(z);
    hide Rows, Top, TotalPages, Baseline, First, Header, Metadata, TableHeader, EndNote, Footer, Stripe, PageMarks;
    StripeIsFill(z);
    PartOf(data, pg, Stripe(z));
  }

  /** A mark on a page belongs to one of its parts. */
  lemma PartOf(data: Report, pg: nat, m: Mark)
    requires First(data, pg) <= First(data, pg + 1) <= |data.operations| && m in PageMarks(data, pg)
    ensures || m in Header() || m in Metadata(data).0 || m in TableHeader(Top(data, pg) + TBL_HDR)
            || m in Rows(data.operations, Top(data, pg), First(data, pg), First(data, pg + 1))
            || m in EndNote(Baseline(data, pg, First(data, pg + 1)))
            || m in Footer(pg + 1, TotalPages(|data.operations|), data.exportId)
  {
    hide Rows, Top, TotalPages, Baseline, First, Header, Metadata, TableHeader, EndNote, Footer;
  }

  lemma StripeIsFill(z: int)
    ensures Stripe(z).Fill?
  {
  }

  lemma NoHeaderStripe(z: int)
    ensures Stripe(z) !in Header()
  {
  }

  lemma NoFills(data: Report)
    ensures forall m :: m in Metadata(data).0 ==> !m.Fill?
    ensures forall y, m :: m in TableHeader(y) || m in EndNote(y) ==> !m.Fill?
    ensures forall n, t, m :: m in Footer(n, t, data.exportId) ==> !m.Fill?
  {
    hide Metadata, TableHeader, EndNote, Footer;
    DetailsNoFills(data);
    forall y, m | m in TableHeader(y) || m in EndNote(y) ensures !m.Fill? { HeadNoFills(y); }
    forall n, t, m | m in Footer(n, t, data.exportId) ensures !m.Fill? { FootNoFills(n, t, data.exportId); }
  }

  lemma DetailsNoFills(data: Report)
    ensures forall m :: m in Metadata(data).0 ==> !m.Fill?
  {
    FieldsNoFills(Fields(data), CT - 24);
    hide Fields, FieldMarks;
  }

  lemma HeadNoFills(y: int)
    ensures forall m :: m in TableHeader(y) || m in EndNote(y) ==> !m.Fill?
  {
  }

  lemma FootNoFills(n: int, t: int, exportId: string)
    ensures forall m :: m in Footer(n, t, exportId) ==> !m.Fill?
  {
    hide Decimal;
  }

  lemma {:induction false} FieldsNoFills(fields: seq<(string, string)>, y: int)
    ensures forall m :: m in FieldMarks(fields, y) ==> !m.Fill?
    decreases |fields|
  {
    if fields != [] { FieldsNoFills(fields[1..], y - 16); }
  }

  /** Every other row lies on a stripe, beginning with the first. */
  lemma StripesExactly(data: Report, i: nat)
    requires i < |data.operations|
    ensures First(data, PageOf(i)) <= First(data, PageOf(i) + 1)
    ensures Fill(52, RowY(i) - 3, 508, 12, STRIPE) in PageMarks(data, PageOf(i)) <==> i % 2 == 0
  {
    hide RowMarks, TableHeader, PageMarks, Top, TotalPages, Rows, Baseline, PageOf, RowY;
    var pg := PageOf(i);
    RowPlace(data, i);
    OnExactlyOnePage(data, i, pg);
    BaselineIs(data, pg, i);
    hide First;
    PartsWithin(data, pg);
    OwnStripe(RowY(i), data.operations[i], i, RowY(i));
    RowWithin(data.operations, Top(data, pg), First(data, pg), First(data, pg + 1), i);
    if Stripe(RowY(i)) in PageMarks(data, pg) {
      NoOtherStripes(data, pg, RowY(i));
      RowFills(data.operations, Top(data, pg), First(data, pg), First(data, pg + 1), RowY(i));
    }
  }

  // ---- The first page's details, and every page's footer ----

  lemma {:induction false} FieldWithin(fields: seq<(string, string)>, y: int, k: nat)
    requires k < |fields|
    ensures Shows(FieldMarks(fields, y), fields[k].0, 56, y - 16 * k)
    ensures Shows(FieldMarks(fields, y), fields[k].1, 168, y - 16 * k)
    decreases |fields|
  {
    var p, rest := FieldMarks(fields, y), FieldMarks(fields[1..], y - 16);
    if k == 0 {
      assert p[0] in p && p[1] in p;
    } else {
      FieldWithin(fields[1..], y - 16, k - 1);
      assert Within(rest, p);
    }
  }

  lemma DetailsWithin(data: Report)
    requires First(data, 0) <= First(data, 1)
    ensures Within(FieldMarks(Fields(data), 692), PageMarks(data, 0))
  {
    hide FieldMarks, Fields, TableHeader, Header, Footer, EndNote, TotalPages, Rows, Baseline, Top;
    assert CT - 24 == 692;
    assert Within(FieldMarks(Fields(data), 692), Metadata(data).0);
    hide Metadata;
    assert Within(Metadata(data).0, PageMarks(data, 0));
  }

  ghost predicate Beside(page: seq<Mark>, name: string, value: string, y: int) {
    Shows(page, name, 56, y) && Shows(page, value, 168, y)
  }

  lemma FieldBeside(data: Report, k: nat)
    requires First(data, 0) <= First(data, 1) && k < |Fields(data)|
    ensures Beside(PageMarks(data, 0), Fields(data)[k].0, Fields(data)[k].1, 692 - 16 * k)
  {
    DetailsWithin(data);
    hide PageMarks, FieldMarks, Decimal, First, Fields;
    FieldWithin(Fields(data), 692, k);
  }

  /** Each detail of the export stands beside its name, one below the other. */
  lemma DetailsShown(data: Report)
    ensures First(data, 0) <= First(data, 1)
    ensures var page := PageMarks(data, 0);
            && Beside(page, "Export ID", data.exportId, 692) && Beside(page, "Organization", data.orgId, 676)
            && Beside(page, "Generated", data.generatedAt, 660) && Beside(page, "Time Range", data.timeRange, 644)
            && Beside(page, "Agent Filter", data.agentFilter, 628) && Beside(page, "Type Filter", data.typeFilter, 612)
            && Beside(page, "Total Records", Decimal(data.total), 596)
  {
    hide PageMarks, Decimal, First, Beside, Fields;
    FirstGrows(data, 0);
    FieldsAre(data);
    FieldBeside(data, 0);
    FieldBeside(data, 1);
    FieldBeside(data, 2);
    FieldBeside(data, 3);
    FieldBeside(data, 4);
    FieldBeside(data, 5);
    FieldBeside(data, 6);
  }

  lemma FieldsAre(data: Report)
    ensures var f := Fields(data);
            && |f| == 7 && f[0] == ("Export ID", data.exportId) && f[1] == ("Organization", data.orgId)
            && f[2] == ("Generated", data.generatedAt) && f[3] == ("Time Range", data.timeRange)
            && f[4] == ("Agent Filter", data.agentFilter) && f[5] == ("Type Filter", data.typeFilter)
            && f[6] == ("Total Records", Decimal(data.total))
  {
    hide Decimal;
  }

  /** Which page it is, of how many, and of which export. */
  lemma FooterShown(data: Report, pg: nat)
    ensures First(data, pg) <= First(data, pg + 1)
    ensures var page, n := PageMarks(data, pg), TotalPages(|data.operations|);
            && Shows(page, "CONFIDENTIAL", 56, 28)
            && Shows(page, "Page " + Decimal(pg + 1) + " of " + Decimal(n), 500, 28)
            && (|data.exportId| <= 8 ==> Shows(page, "Export " + data.exportId, 278, 28))
            && (|data.exportId| > 8 ==> Shows(page, "Export " + data.exportId[..8], 278, 28))
  {
    FirstGrows(data, pg);
    hide TableHeader, Header, Metadata, EndNote, TotalPages, Rows, Baseline, Top, First, Decimal;
    var f := Footer(pg + 1, TotalPages(|data.operations|), data.exportId);
    assert Within(f, PageMarks(data, pg));
    assert f[1] in f && f[2] in f && f[3] in f;
    hide PageMarks;
  }

  /** The bar, the mark and the name at the head of every page. */
  lemma HeaderShown(data: Report, pg: nat)
    ensures First(data, pg) <= First(data, pg + 1)
    ensures var page := PageMarks(data, pg);
            && Fill(0, 736, 612, 56, INK) in page && Logo(56, 749, BG) in page
            && Shows(page, "ELYDORA", 98, 763) && Shows(page, "COMPLIANCE EXPORT REPORT", 98, 751)
  {
    hide TableHeader, Metadata, EndNote, TotalPages, Rows, Baseline, Top, Footer, Header;
    FirstGrows(data, pg);
    hide First;
    assert Within(Header(), PageMarks(data, pg));
    hide PageMarks;
    HeaderMarks(PageMarks(data, pg));
  }

  lemma HeaderMarks(page: seq<Mark>)
    requires Within(Header(), page)
    ensures Fill(0, 736, 612, 56, INK) in page && Logo(56, 749, BG) in page
    ensures Shows(page, "ELYDORA", 98, 763) && Shows(page, "COMPLIANCE EXPORT REPORT", 98, 751)
  {
    var h := Header();
    assert h[0] in h && h[2] in h && h[3] in h && h[4] in h;
  }

  /** The note below the last row, where there are more than 70 points left above the bottom. */
  lemma NoteShown(data: Report, pg: nat)
    requires pg == TotalPages(|data.operations|) - 1
    ensures First(data, pg) <= First(data, pg + 1)
    ensures var y := Baseline(data, pg, First(data, pg + 1));
            y > 126 ==> Shows(PageMarks(data, pg), "End of Report", 56, y - 38)
                        && Shows(PageMarks(data, pg), "Elydora  -  The Responsibility Layer for AI Agents", 56, y - 64)
  {
    FirstGrows(data, pg);
    hide TableHeader, Metadata, Header, TotalPages, Rows, Baseline, Top, First, Footer;
    var y := Baseline(data, pg, First(data, pg + 1));
    if y > 126 {
      var n := EndNote(y);
      assert Within(n, PageMarks(data, pg));
      assert n[1] in n && n[3] in n;
    }
    hide PageMarks;
  }
}
