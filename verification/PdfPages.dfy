/** The compliance report: laying operations out on pages. */
module PdfPages {
  import opened Text

  const PW := 612
  const PH := 792
  const ML := 56
  const MR := 56
  const CW := PW - ML - MR
  const HDR_H := 56
  const HDR_Y := PH - HDR_H
  const FTR_LINE := 44
  const FTR_TEXT := 28
  const CT := HDR_Y - 20
  const CB := FTR_LINE + 12
  const ROW_H := 12
  const TBL_HDR := 22
  const META_H := 172
  const COL_SEQ := ML
  const COL_TIME := ML + 38
  const COL_OPID := ML + 142
  const COL_AGENT := ML + 296
  const COL_TYPE := ML + 398
  const INK := "0.071 0.071 0.071"
  const BG := "0.918 0.918 0.898"
  const DIM := "0.400 0.400 0.400"
  const BORDER := "0.753 0.753 0.729"
  const HDR_SUB := "0.620 0.620 0.600"
  const STRIPE := "0.955 0.955 0.942"

  datatype Operation = Operation(operationId: string, agentId: string, operationType: string, seqNo: int, time: string)

  datatype Report = Report(
    exportId: string, orgId: string, generatedAt: string, timeRange: string,
    agentFilter: string, typeFilter: string, total: int, operations: seq<Operation>)

  // ---- Drawing primitives ----

  /** One drawing instruction; numbers that are not whole are kept as they are written. */
  datatype Mark =
    | Fill(x: int, y: int, w: int, h: int, rgb: string)
    | Line(x1: int, ly: int, x2: int, rgb: string, width: string)
    | Label(s: string, tx: int, ty: int, font: string, size: string, rgb: string)
    | Logo(gx: int, gy: int, rgb: string)

  /** `s.replace(/c/g, '\\c')` */
  function EscapeAll(s: string, c: char): string {
    if s == "" then "" else (if s[0] == c then ['\\', c] else [s[0]]) + EscapeAll(s[1..], c)
  }

  predicate Printable(c: char) { ' ' <= c <= '~' }

  function Sanitised(s: string): (r: string)
    ensures |r| == |s| && forall i :: 0 <= i < |s| ==> r[i] == if 0x20 <= s[i] as int <= 0x7E then s[i] else '?'
  {
    seq(|s|, i requires 0 <= i < |s| => if Printable(s[i]) then s[i] else '?')
  }

  function Esc(s: string): string { EscapeAll(EscapeAll(EscapeAll(Sanitised(s), '\\'), '('), ')') }

  function LogoPath(): string {
    "3 2 m 21 2 l 21 7 l " + "8 7 l 8 10 l 17 10 l " + "17 15 l 8 15 l 8 18 l " + "21 18 l 21 23 l 3 23 l h f"
  }

  function Draw(m: Mark): string {
    match m
    case Fill(x, y, w, h, rgb) =>
      rgb + " rg " + Decimal(x) + " " + Decimal(y) + " " + Decimal(w) + " " + Decimal(h) + " re f"
    case Line(x1, y, x2, rgb, width) =>
      rgb + " RG " + width + " w " + Decimal(x1) + " " + Decimal(y) + " m " + Decimal(x2) + " " + Decimal(y) + " l S"
    case Label(s, x, y, font, size, rgb) =>
      "BT " + rgb + " rg " + font + " " + size + " Tf 1 0 0 1 " + Decimal(x) + " " + Decimal(y) + " Tm (" + Esc(s) + ") Tj ET"
    case Logo(x, y, rgb) =>
      Join("\n", ["q", "1.25 0 0 -1.25 " + Decimal(x) + " " + Decimal(y + 30) + " cm", rgb + " rg", LogoPath(), "Q"])
  }

  function Drawn(p: seq<Mark>): (r: seq<string>)
    ensures |r| == |p| && forall i :: 0 <= i < |p| ==> r[i] == Draw(p[i])
  {
    seq(|p|, i requires 0 <= i < |p| => Draw(p[i]))
  }

  function Stream(p: seq<Mark>): string { Join("\n", Drawn(p)) }

  // ---- A text literal reads back ----

  /** A PDF reader on what follows the opening parenthesis: the string, and the rest after the closing one. */
  function ReadLiteral(t: string): Option<(string, string)> {
    if t == "" || t[0] == '(' then None
    else if t[0] == ')' then Some(("", t[1..]))
    else if t[0] == '\\' then
      if |t| > 1 && t[1] in {'\\', '(', ')'} then
        match ReadLiteral(t[2..]) case None => None case Some(r) => Some(([t[1]] + r.0, r.1))
      else None
    else
      match ReadLiteral(t[1..]) case None => None case Some(r) => Some(([t[0]] + r.0, r.1))
  }

  predicate Special(c: char) { c == '\\' || c == '(' || c == ')' }

  /** The three replacements in turn escape each special character once. */
  function EscapeOnce(s: string): string {
    if s == "" then "" else (if Special(s[0]) then ['\\', s[0]] else [s[0]]) + EscapeOnce(s[1..])
  }

  lemma {:induction false} EscapeAllConcat(a: string, b: string, c: char)
    ensures EscapeAll(a + b, c) == EscapeAll(a, c) + EscapeAll(b, c)
    decreases |a|
  {
    if a == "" {
      assert a + b == b;
    } else {
      assert (a + b)[1..] == a[1..] + b;
      EscapeAllConcat(a[1..], b, c);
    }
  }

  function Thrice(s: string): string { EscapeAll(EscapeAll(EscapeAll(s, '\\'), '('), ')') }

  lemma EscapesOne(c: char, d: char)
    ensures EscapeAll([c], d) == if c == d then ['\\', d] else [c]
  {
    assert [c][1..] == "";
  }

  lemma EscapesTwo(b: char, c: char, d: char)
    ensures EscapeAll([b, c], d) == EscapeAll([b], d) + EscapeAll([c], d)
  {
    assert [b, c] == [b] + [c];
    EscapeAllConcat([b], [c], d);
  }

  lemma ThriceOne(c: char)
    ensures Thrice([c]) == if Special(c) then ['\\', c] else [c]
  {
    EscapesOne(c, '\\');
    EscapesOne(c, '(');
    EscapesOne(c, ')');
    EscapesOne('\\', '(');
    EscapesOne('\\', ')');
    EscapesTwo('\\', c, '(');
    EscapesTwo('\\', c, ')');
    hide EscapeAll;
    var slash := ['\\'];
    assert slash + [c] == ['\\', c];
    if c == '\\' {
      assert EscapeAll([c], '\\') == ['\\', c];
    } else if c == '(' {
      assert EscapeAll(EscapeAll([c], '\\'), '(') == ['\\', c];
    } else {
      assert EscapeAll(EscapeAll([c], '\\'), '(') == [c];
    }
  }

  lemma ThriceConcat(a: string, b: string)
    ensures Thrice(a + b) == Thrice(a) + Thrice(b)
  {
    hide EscapeAll;
    EscapeAllConcat(a, b, '\\');
    EscapeAllConcat(EscapeAll(a, '\\'), EscapeAll(b, '\\'), '(');
    EscapeAllConcat(EscapeAll(EscapeAll(a, '\\'), '('), EscapeAll(EscapeAll(b, '\\'), '('), ')');
  }

  lemma {:induction false} EscapesOnce(s: string)
    ensures Thrice(s) == EscapeOnce(s)
  {
    if s != "" {
      EscapesOnce(s[1..]);
      assert s == [s[0]] + s[1..];
      ThriceConcat([s[0]], s[1..]);
      ThriceOne(s[0]);
    }
  }

  lemma {:induction false} OnceReads(s: string, rest: string)
    ensures ReadLiteral(EscapeOnce(s) + ")" + rest) == Some((s, rest))
  {
    var t := EscapeOnce(s) + ")" + rest;
    if s == "" {
      assert t == [')'] + rest;
    } else {
      var tail := EscapeOnce(s[1..]) + ")" + rest;
      OnceReads(s[1..], rest);
      assert s == [s[0]] + s[1..];
      OneRead(s[0], tail, s[1..], rest);
      hide ReadLiteral, Special;
      assert t == (if Special(s[0]) then ['\\', s[0]] else [s[0]]) + tail;
    }
  }

  lemma OneRead(c: char, tail: string, s: string, rest: string)
    requires ReadLiteral(tail) == Some((s, rest))
    ensures ReadLiteral((if Special(c) then ['\\', c] else [c]) + tail) == Some(([c] + s, rest))
  {
    if Special(c) { assert (['\\', c] + tail)[2..] == tail; } else { assert ([c] + tail)[1..] == tail; }
  }

  /** Whatever a label says, a PDF reader shows it, with `?` for what is not printable ASCII. */
  lemma LabelReads(s: string, rest: string)
    ensures ReadLiteral(Esc(s) + ")" + rest) == Some((Sanitised(s), rest))
  {
    EscapesOnce(Sanitised(s));
    OnceReads(Sanitised(s), rest);
  }

  // ---- Sections ----

  function Trunc(s: string, max: nat): string
    requires max >= 2
  {
    if |s| <= max then s else s[..max - 2] + ".."
  }

  function PadStart(s: string, n: nat, c: char): string
    decreases n - |s|
  {
    if |s| >= n then s else PadStart([c] + s, n, c)
  }

  function Header(): seq<Mark> {
    var ly := HDR_Y + 13;
    var tx := ML + 42;
    [Fill(0, HDR_Y, PW, HDR_H, INK), Line(0, HDR_Y, PW, BG, "1.5"), Logo(ML, ly, BG),
     Label("ELYDORA", tx, ly + 14, "/F1", "18", BG), Label("COMPLIANCE EXPORT REPORT", tx, ly + 2, "/F2", "8", HDR_SUB)]
  }

  function Footer(pageNum: int, totalPages: int, exportId: string): seq<Mark> {
    [Line(ML, FTR_LINE, PW - MR, BORDER, "0.5"), Label("CONFIDENTIAL", ML, FTR_TEXT, "/F2", "7", DIM),
     Label("Export " + (if |exportId| <= 8 then exportId else exportId[..8]), 278, FTR_TEXT, "/F3", "7", DIM),
     Label("Page " + Decimal(pageNum) + " of " + Decimal(totalPages), PW - MR - 56, FTR_TEXT, "/F2", "7", DIM)]
  }

  function Fields(data: Report): seq<(string, string)> {
    [("Export ID", data.exportId), ("Organization", data.orgId), ("Generated", data.generatedAt),
     ("Time Range", data.timeRange), ("Agent Filter", data.agentFilter), ("Type Filter", data.typeFilter),
     ("Total Records", Decimal(data.total))]
  }

  function FieldMarks(fields: seq<(string, string)>, y: int): seq<Mark> {
    if fields == [] then []
    else
      [Label(fields[0].0, ML, y, "/F2", "8.5", DIM), Label(fields[0].1, ML + 112, y, "/F3", "8.5", INK)]
      + FieldMarks(fields[1..], y - 16)
  }

  /** Marks and the y below them. */
  function Metadata(data: Report): (seq<Mark>, int) {
    var fields := Fields(data);
    var y := CT - 24 - 16 * |fields| - 8;
    ([Label("EXPORT DETAILS", ML, CT, "/F1", "10", INK), Line(ML, CT - 6, PW - MR, BORDER, "0.5")]
     + FieldMarks(fields, CT - 24)
     + [Label("OPERATIONS", ML, y, "/F1", "10", INK), Line(ML, y - 6, PW - MR, BORDER, "0.5")], y - 10)
  }

  function TableHeader(y: int): seq<Mark> {
    var hy := y - 14;
    [Label("#", COL_SEQ, hy, "/F1", "7.5", DIM), Label("TIMESTAMP", COL_TIME, hy, "/F1", "7.5", DIM),
     Label("OPERATION ID", COL_OPID, hy, "/F1", "7.5", DIM), Label("AGENT", COL_AGENT, hy, "/F1", "7.5", DIM),
     Label("TYPE", COL_TYPE, hy, "/F1", "7.5", DIM), Line(ML, hy - 5, PW - MR, BORDER, "0.3")]
  }

  function RowMarks(y: int, op: Operation, index: int): seq<Mark> {
    (if index % 2 == 0 then [Fill(ML - 4, y - 3, CW + 8, ROW_H, STRIPE)] else [])
    + [Label(PadStart(Decimal(op.seqNo), 4, ' '), COL_SEQ, y, "/F3", "8", DIM), Label(op.time, COL_TIME, y, "/F3", "8", INK),
       Label(Trunc(op.operationId, 30), COL_OPID, y, "/F3", "8", INK), Label(Trunc(op.agentId, 18), COL_AGENT, y, "/F3", "8", INK),
       Label(Trunc(op.operationType, 20), COL_TYPE, y, "/F3", "8", INK)]
  }

  function EndNote(y: int): seq<Mark> {
    [Line(ML, y - 20, PW - MR, BORDER, "0.3"), Label("End of Report", ML, y - 38, "/F1", "9", DIM),
     Label("Full cryptographic chain and payload hashes are available in JSON export format.", ML, y - 52, "/F2", "7.5", DIM),
     Label("Elydora  -  The Responsibility Layer for AI Agents", ML, y - 64, "/F2", "7.5", DIM)]
  }

  // ---- Pagination ----

  const OPS_FIRST_PAGE := (CT - META_H - CB - TBL_HDR) / ROW_H
  const OPS_PER_PAGE := (CT - CB - TBL_HDR) / ROW_H

  function TotalPages(totalOps: nat): (n: nat)
    ensures n >= 1
  {
    if totalOps <= OPS_FIRST_PAGE then 1
    else 1 + (totalOps - OPS_FIRST_PAGE + OPS_PER_PAGE - 1) / OPS_PER_PAGE
  }

  /** The first operation of page pg, however many there are. */
  function Begins(pg: nat): nat { if pg == 0 then 0 else OPS_FIRST_PAGE + (pg - 1) * OPS_PER_PAGE }

  function Least(a: int, b: int): int { if a < b then a else b }

  /** Rows of the operations from index i up to index n, downwards from y. */
  function Rows(ops: seq<Operation>, y: int, i: nat, n: nat): seq<Mark>
    requires i <= n <= |ops|
    decreases n - i
  {
    if i == n then [] else RowMarks(y, ops[i], i) + Rows(ops, y - ROW_H, i + 1, n)
  }

  /** The baseline of a page's first row. */
  function Top(data: Report, pg: nat): int {
    (if pg == 0 then Metadata(data).1 else CT) - TBL_HDR
  }

  function First(data: Report, pg: nat): nat { Least(Begins(pg), |data.operations|) }

  function Baseline(data: Report, pg: nat, i: int): int { Top(data, pg) - ROW_H * (i - First(data, pg)) }

  function PageMarks(data: Report, pg: nat): seq<Mark>
    requires First(data, pg) <= First(data, pg + 1)
  {
    var total := TotalPages(|data.operations|);
    var y := Baseline(data, pg, First(data, pg + 1));
    Header()
    + (if pg == 0 then Metadata(data).0 else [])
    + TableHeader(Top(data, pg) + TBL_HDR)
    + Rows(data.operations, Top(data, pg), First(data, pg), First(data, pg + 1))
    + (if pg == total - 1 && y > CB + 70 then EndNote(y) else [])
    + Footer(pg + 1, total, data.exportId)
  }

  lemma FirstGrows(data: Report, pg: nat)
    ensures First(data, pg) <= First(data, pg + 1) <= |data.operations|
  {
    assert Begins(pg + 1) == Begins(pg) + if pg == 0 then OPS_FIRST_PAGE else OPS_PER_PAGE;
  }

  lemma {:induction false} RowsAppend(ops: seq<Operation>, y: int, i: nat, n: nat)
    requires i <= n < |ops|
    ensures Rows(ops, y, i, n + 1) == Rows(ops, y, i, n) + RowMarks(y - ROW_H * (n - i), ops[n], n)
    decreases n - i
  {
    hide RowMarks;
    if i < n {
      RowsAppend(ops, y - ROW_H, i + 1, n);
      assert y - ROW_H - ROW_H * (n - (i + 1)) == y - ROW_H * (n - i);
    } else {
      assert Rows(ops, y - ROW_H, n + 1, n + 1) == [];
    }
  }

  /** The section is what precedes the fields, the fields, and the heading of the table below. */
  lemma MetadataIs(p: seq<Mark>, data: Report)
    ensures var n := |Fields(data)|; var below := CT - 32 - 16 * n;
            && Metadata(data).1 == below - 10
            && p + Metadata(data).0
            == (p + [Label("EXPORT DETAILS", ML, CT, "/F1", "10", INK)] + [Line(ML, CT - 6, PW - MR, BORDER, "0.5")]
                  + FieldMarks(Fields(data), CT - 24))
               + [Label("OPERATIONS", ML, below, "/F1", "10", INK)] + [Line(ML, below - 6, PW - MR, BORDER, "0.5")]
  {
    hide Fields, FieldMarks;
  }

  method RenderMetadata(p: seq<Mark>, data: Report) returns (q: seq<Mark>, y: int)
    ensures q == p + Metadata(data).0 && y == Metadata(data).1
  {
    hide Metadata, Fields;
    y := CT;
    q := p + [Label("EXPORT DETAILS", ML, y, "/F1", "10", INK)];
    y := y - 6;
    q := q + [Line(ML, y, PW - MR, BORDER, "0.5")];
    y := y - 18;
    ghost var start := q;
    var fields := Fields(data);
    for i := 0 to |fields|
      invariant y == CT - 24 - 16 * i
      invariant q + FieldMarks(fields[i..], y) == start + FieldMarks(fields, CT - 24)
    {
      assert fields[i..][1..] == fields[i + 1..];
      q := q + [Label(fields[i].0, ML, y, "/F2", "8.5", DIM), Label(fields[i].1, ML + 112, y, "/F3", "8.5", INK)];
      y := y - 16;
    }
    assert fields[|fields|..] == [];
    y := y - 8;
    q := q + [Label("OPERATIONS", ML, y, "/F1", "10", INK)];
    y := y - 6;
    q := q + [Line(ML, y, PW - MR, BORDER, "0.5")];
    y := y - 4;
    MetadataIs(p, data);
  }

  method RenderRows(p: seq<Mark>, data: Report, pg: nat, start: nat, top: int) returns (q: seq<Mark>, opIdx: nat, y: int)
    requires start == First(data, pg) <= First(data, pg + 1) && top == Top(data, pg)
    ensures opIdx == First(data, pg + 1) && y == Baseline(data, pg, opIdx)
    ensures q == p + Rows(data.operations, top, start, opIdx)
  {
    hide Metadata, RowMarks, Top;
    var maxOps := if pg == 0 then OPS_FIRST_PAGE else OPS_PER_PAGE;
    var endIdx := Least(start + maxOps, |data.operations|);
    assert endIdx == First(data, pg + 1);
    q, opIdx, y := p, start, top;
    while opIdx < endIdx
      invariant start <= opIdx <= endIdx && y == top - ROW_H * (opIdx - start)
      invariant q == p + Rows(data.operations, top, start, opIdx)
    {
      RowsAppend(data.operations, top, start, opIdx);
      q := q + RowMarks(y, data.operations[opIdx], opIdx);
      y := y - ROW_H;
      opIdx := opIdx + 1;
    }
  }

  method RenderPage(data: Report, pg: nat, start: nat, totalPages: nat) returns (p: seq<Mark>, opIdx: nat)
    requires start == First(data, pg) <= First(data, pg + 1) && totalPages == TotalPages(|data.operations|)
    ensures opIdx == First(data, pg + 1) && p == PageMarks(data, pg)
  {
    hide Header, Footer, Metadata, TableHeader, EndNote, TotalPages, Rows, First;
    p := Header();
    var y := CT;
    if pg == 0 {
      p, y := RenderMetadata(p, data);
    }
    p := p + TableHeader(y);
    y := y - TBL_HDR;
    p, opIdx, y := RenderRows(p, data, pg, start, y);
    if pg == totalPages - 1 && y > CB + 70 {
      p := p + EndNote(y);
    }
    p := p + Footer(pg + 1, totalPages, data.exportId);
  }

  method BuildPages(data: Report) returns (pages: seq<seq<Mark>>)
    ensures |pages| == TotalPages(|data.operations|)
    ensures forall pg :: 0 <= pg < |pages| ==> First(data, pg) <= First(data, pg + 1) && pages[pg] == PageMarks(data, pg)
  {
    var totalPages := TotalPages(|data.operations|);
    pages := [];
    var opIdx := 0;
    for pg := 0 to totalPages
      invariant |pages| == pg && opIdx == First(data, pg)
      invariant forall k :: 0 <= k < pg ==> First(data, k) <= First(data, k + 1) && pages[k] == PageMarks(data, k)
    {
      hide PageMarks, TotalPages;
      FirstGrows(data, pg);
      var p;
      p, opIdx := RenderPage(data, pg, opIdx, totalPages);
      pages := pages + [p];
    }
  }

  // ---- Every operation once, above the bottom ----

  /** Operation i is on page pg. */
  predicate OnPage(data: Report, i: nat, pg: nat) {
    pg < TotalPages(|data.operations|) && First(data, pg) <= i < First(data, pg + 1)
  }

  function PageFor(i: nat): nat { if i < OPS_FIRST_PAGE then 0 else 1 + (i - OPS_FIRST_PAGE) / OPS_PER_PAGE }

  lemma PageForBrackets(i: nat, pg: nat)
    ensures Begins(pg) <= i < Begins(pg + 1) <==> pg == PageFor(i)
  {
    assert OPS_FIRST_PAGE == 38 && OPS_PER_PAGE == 53;
  }

  lemma LastPage(totalOps: nat)
    ensures Begins(TotalPages(totalOps)) >= totalOps
    ensures forall i: nat :: i < totalOps ==> PageFor(i) < TotalPages(totalOps)
  {
    assert OPS_FIRST_PAGE == 38 && OPS_PER_PAGE == 53;
  }

  /** Each operation is on exactly one page. */
  lemma OnExactlyOnePage(data: Report, i: nat, pg: nat)
    requires i < |data.operations|
    ensures OnPage(data, i, pg) <==> pg == PageFor(i)
  {
    PageForBrackets(i, pg);
    LastPage(|data.operations|);
  }

  /** Its row is drawn there, and a row's marks start at its own baseline. */
  lemma {:induction false} RowDrawn(ops: seq<Operation>, y: int, i: nat, n: nat, k: nat)
    requires i <= k < n <= |ops|
    ensures var row := RowMarks(y - ROW_H * (k - i), ops[k], k);
            exists a, b :: Rows(ops, y, i, n) == a + row + b
    decreases n - i
  {
    hide RowMarks;
    var rest := Rows(ops, y - ROW_H, i + 1, n);
    if k == i {
      assert Rows(ops, y, i, n) == [] + RowMarks(y, ops[i], i) + rest;
    } else {
      RowDrawn(ops, y - ROW_H, i + 1, n, k);
      assert y - ROW_H - ROW_H * (k - (i + 1)) == y - ROW_H * (k - i);
      var row := RowMarks(y - ROW_H * (k - i), ops[k], k);
      var a, b :| rest == a + row + b;
      assert Rows(ops, y, i, n) == (RowMarks(y, ops[i], i) + a) + row + b;
    }
  }

  lemma TopIs(data: Report, pg: nat)
    ensures Top(data, pg) == if pg == 0 then 540 else 694
  {
  }

  /** How many rows of a page there are at most, by where it starts. */
  lemma RowsFit(data: Report, pg: nat)
    ensures First(data, pg + 1) - First(data, pg) <= if pg == 0 then 38 else 53
  {
    assert OPS_FIRST_PAGE == 38 && OPS_PER_PAGE == 53;
    assert Begins(pg + 1) == Begins(pg) + if pg == 0 then OPS_FIRST_PAGE else OPS_PER_PAGE;
  }

  /** Where a mark sits: the baseline of a label, the line itself, the lower edge of a fill. */
  function Bottom(m: Mark): int {
    match m
    case Fill(_, y, _, _, _) => y
    case Line(_, y, _, _, _) => y
    case Label(_, _, y, _, _, _) => y
    case Logo(_, y, _) => y
  }

  ghost predicate AllAbove(p: seq<Mark>, y: int) { forall i :: 0 <= i < |p| ==> Bottom(p[i]) >= y }

  lemma AboveConcat(p: seq<Mark>, q: seq<Mark>, y: int)
    ensures AllAbove(p + q, y) <==> AllAbove(p, y) && AllAbove(q, y)
  {
    hide Bottom;
    assert forall i :: 0 <= i < |p| ==> (p + q)[i] == p[i];
    assert forall i :: 0 <= i < |q| ==> (p + q)[|p| + i] == q[i];
    if AllAbove(p + q, y) {
      forall i | 0 <= i < |q| ensures Bottom(q[i]) >= y { assert (p + q)[|p| + i] == q[i]; }
    }
  }

  lemma RowAbove(y: int, op: Operation, index: int)
    ensures AllAbove(RowMarks(y, op, index), y - 3)
  {
  }

  lemma {:induction false} RowsAbove(ops: seq<Operation>, y: int, i: nat, n: nat, low: int)
    requires i <= n <= |ops| && (i < n ==> y - ROW_H * (n - 1 - i) - 3 >= low)
    ensures AllAbove(Rows(ops, y, i, n), low)
    decreases n - i
  {
    hide RowMarks, Bottom;
    if i < n {
      RowAbove(y, ops[i], i);
      assert y - ROW_H - ROW_H * (n - 1 - (i + 1)) == y - ROW_H * (n - 1 - i);
      RowsAbove(ops, y - ROW_H, i + 1, n, low);
      AboveConcat(RowMarks(y, ops[i], i), Rows(ops, y - ROW_H, i + 1, n), low);
    }
  }

  lemma {:induction false} FieldsAbove(fields: seq<(string, string)>, y: int, low: int)
    requires y - 16 * |fields| >= low
    ensures AllAbove(FieldMarks(fields, y), low)
    decreases |fields|
  {
    if fields != [] {
      FieldsAbove(fields[1..], y - 16, low);
      var two := [Label(fields[0].0, ML, y, "/F2", "8.5", DIM), Label(fields[0].1, ML + 112, y, "/F3", "8.5", INK)];
      AboveConcat(two, FieldMarks(fields[1..], y - 16), low);
    }
  }

  lemma MetadataAbove(data: Report)
    ensures AllAbove(Metadata(data).0, 540)
  {
    var fields := Fields(data);
    var y := CT - 24 - 16 * |fields| - 8;
    FieldsAbove(fields, CT - 24, 540);
    var a := [Label("EXPORT DETAILS", ML, CT, "/F1", "10", INK), Line(ML, CT - 6, PW - MR, BORDER, "0.5")];
    var b := [Label("OPERATIONS", ML, y, "/F1", "10", INK), Line(ML, y - 6, PW - MR, BORDER, "0.5")];
    AboveConcat(a, FieldMarks(fields, CT - 24), 540);
    AboveConcat(a + FieldMarks(fields, CT - 24), b, 540);
  }

  lemma FixedPartsAbove(data: Report, top: int, y: int)
    requires top >= 540
    ensures AllAbove(Metadata(data).0, CB) && AllAbove(TableHeader(top + TBL_HDR), CB) && AllAbove([], CB)
    ensures y > CB + 70 ==> AllAbove(EndNote(y), CB)
  {
    MetadataAbove(data);
    hide Metadata;
  }

  /** What a page shows between its header and its footer. */
  function Content(data: Report, pg: nat): seq<Mark>
    requires First(data, pg) <= First(data, pg + 1)
  {
    var y := Baseline(data, pg, First(data, pg + 1));
    (if pg == 0 then Metadata(data).0 else [])
    + TableHeader(Top(data, pg) + TBL_HDR)
    + Rows(data.operations, Top(data, pg), First(data, pg), First(data, pg + 1))
    + (if pg == TotalPages(|data.operations|) - 1 && y > CB + 70 then EndNote(y) else [])
  }

  /**
    For every number of operations, a page's content, the end note included, stays at or above
    the content bottom.
  */
  lemma ContentAboveBottom(data: Report, pg: nat)
    ensures First(data, pg) <= First(data, pg + 1) && AllAbove(Content(data, pg), CB)
    ensures PageMarks(data, pg) == Header() + Content(data, pg) + Footer(pg + 1, TotalPages(|data.operations|), data.exportId)
  {
    FirstGrows(data, pg);
    TopIs(data, pg);
    RowsFit(data, pg);
    hide Metadata, TableHeader, Rows, EndNote, AllAbove, Header, Footer, Top, TotalPages, First;
    var y := Baseline(data, pg, First(data, pg + 1));
    var meta := if pg == 0 then Metadata(data).0 else [];
    var table := TableHeader(Top(data, pg) + TBL_HDR);
    var rows := Rows(data.operations, Top(data, pg), First(data, pg), First(data, pg + 1));
    var note := if pg == TotalPages(|data.operations|) - 1 && y > CB + 70 then EndNote(y) else [];
    FixedPartsAbove(data, Top(data, pg), y);
    RowsAbove(data.operations, Top(data, pg), First(data, pg), First(data, pg + 1), CB);
    AboveConcat(meta, table, CB);
    AboveConcat(meta + table, rows, CB);
    AboveConcat(meta + table + rows, note, CB);
    assert Content(data, pg) == meta + table + rows + note;
  }

  /** The n-th operation's row: on its one page, at its own baseline, inside the content area. */
  lemma EveryOperationRendered(data: Report, i: nat)
    requires i < |data.operations|
    ensures var pg := PageFor(i); var y := Baseline(data, pg, i);
            && pg < TotalPages(|data.operations|) && y >= CB && First(data, pg) <= i < First(data, pg + 1)
            && exists a, b :: Rows(data.operations, Top(data, pg), First(data, pg), First(data, pg + 1))
                              == a + RowMarks(y, data.operations[i], i) + b
  {
    var pg := PageFor(i);
    OnExactlyOnePage(data, i, pg);
    TopIs(data, pg);
    RowsFit(data, pg);
    RowDrawn(data.operations, Top(data, pg), First(data, pg), First(data, pg + 1), i);
  }
}
