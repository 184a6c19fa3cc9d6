/** The whole report: pages, content streams, file. */
module PdfReport {
  import opened Text
  import opened PdfPages
  import opened PdfFile

  function Streams(pages: seq<seq<Mark>>): (r: seq<string>)
    ensures |r| == |pages| && forall i :: 0 <= i < |pages| ==> r[i] == Stream(pages[i])
  {
    seq(|pages|, i requires 0 <= i < |pages| => Stream(pages[i]))
  }

  // ---- Every stream is ASCII, whatever the operations say ----

  /** Colour, font and sizes are the constants of this file. */
  ghost predicate Styled(m: Mark) {
    match m
    case Fill(_, _, _, _, rgb) => Ascii(rgb)
    case Line(_, _, _, rgb, width) => Ascii(rgb) && Ascii(width)
    case Label(_, _, _, font, size, rgb) => Ascii(font) && Ascii(size) && Ascii(rgb)
    case Logo(_, _, rgb) => Ascii(rgb)
  }

  ghost predicate AllStyled(p: seq<Mark>) { forall i :: 0 <= i < |p| ==> Styled(p[i]) }

  lemma {:induction false} EscapeKeepsAscii(s: string, c: char)
    requires Ascii(s)
    ensures Ascii(EscapeAll(s, c))
  {
    if s != "" { EscapeKeepsAscii(s[1..], c); }
  }

  lemma EscAscii(s: string)
    ensures Ascii(Esc(s))
  {
    EscapeKeepsAscii(Sanitised(s), '\\');
    EscapeKeepsAscii(EscapeAll(Sanitised(s), '\\'), '(');
    EscapeKeepsAscii(EscapeAll(EscapeAll(Sanitised(s), '\\'), '('), ')');
  }

  /** ASCII pieces make an ASCII text. */
  lemma {:induction false} PiecesAscii(parts: seq<string>)
    requires forall i :: 0 <= i < |parts| ==> Ascii(parts[i])
    ensures Ascii(Join("", parts)) && Ascii(Join("\n", parts))
    decreases |parts|
  {
    if |parts| > 1 {
      PiecesAscii(parts[1..]);
      hide Ascii;
      assert Ascii("") && Ascii("\n") by { SeparatorsAscii(); }
      AsciiConcat(parts[0], "");
      AsciiConcat(parts[0] + "", Join("", parts[1..]));
      AsciiConcat(parts[0], "\n");
      AsciiConcat(parts[0] + "\n", Join("\n", parts[1..]));
    }
  }

  lemma SeparatorsAscii()
    ensures Ascii("") && Ascii("\n")
  {
  }

  lemma FillAscii(x: int, y: int, w: int, h: int, rgb: string)
    requires Ascii(rgb)
    ensures Ascii(Draw(Fill(x, y, w, h, rgb)))
  {
    DecimalAscii(x);
    DecimalAscii(y);
    DecimalAscii(w);
    DecimalAscii(h);
    hide Decimal;
  }

  lemma LineAscii(x1: int, y: int, x2: int, rgb: string, width: string)
    requires Ascii(rgb) && Ascii(width)
    ensures Ascii(Draw(Line(x1, y, x2, rgb, width)))
  {
    DecimalAscii(x1);
    DecimalAscii(y);
    DecimalAscii(x2);
    hide Decimal;
  }

  lemma LabelAscii(s: string, x: int, y: int, font: string, size: string, rgb: string)
    requires Ascii(font) && Ascii(size) && Ascii(rgb)
    ensures Ascii(Draw(Label(s, x, y, font, size, rgb)))
  {
    DecimalAscii(x);
    DecimalAscii(y);
    EscAscii(s);
    LabelPiecesAscii();
    hide Decimal, Esc, Ascii;
    var a := "BT " + rgb + " rg " + font + " " + size;
    var b := a + " Tf 1 0 0 1 " + Decimal(x) + " " + Decimal(y) + " Tm (";
    SixAscii("BT ", rgb, " rg ", font, " ", size);
    SixAscii(a, " Tf 1 0 0 1 ", Decimal(x), " ", Decimal(y), " Tm (");
    AsciiConcat(b, Esc(s));
    AsciiConcat(b + Esc(s), ") Tj ET");
  }

  lemma LabelPiecesAscii()
    ensures Ascii("BT ") && Ascii(" rg ") && Ascii(" ") && Ascii(" Tf 1 0 0 1 ") && Ascii(" Tm (") && Ascii(") Tj ET")
  {
  }

  lemma LogoPathAscii()
    ensures Ascii(LogoPath())
  {
    var a, b := "3 2 m 21 2 l 21 7 l ", "8 7 l 8 10 l 17 10 l ";
    var c, d := "17 15 l 8 15 l 8 18 l ", "21 18 l 21 23 l 3 23 l h f";
    assert Ascii(a) && Ascii(b) && Ascii(c) && Ascii(d);
    hide Ascii;
    AsciiConcat(a, b);
    AsciiConcat(a + b, c);
    AsciiConcat(a + b + c, d);
  }

  lemma LogoAscii(x: int, y: int, rgb: string)
    requires Ascii(rgb)
    ensures Ascii(Draw(Logo(x, y, rgb)))
  {
    DecimalAscii(x);
    DecimalAscii(y + 30);
    LogoPathAscii();
    hide Decimal, LogoPath;
    var place := "1.25 0 0 -1.25 " + Decimal(x) + " " + Decimal(y + 30) + " cm";
    assert Ascii("q") && Ascii("Q") && Ascii(place) && Ascii(rgb + " rg");
    hide Ascii;
    PiecesAscii(["q", place, rgb + " rg", LogoPath(), "Q"]);
  }

  lemma MarkAscii(m: Mark)
    requires Styled(m)
    ensures Ascii(Draw(m))
  {
    hide Draw, Ascii;
    match m {
      case Fill(x, y, w, h, rgb) => FillAscii(x, y, w, h, rgb);
      case Line(x1, y, x2, rgb, width) => LineAscii(x1, y, x2, rgb, width);
      case Label(s, x, y, font, size, rgb) => LabelAscii(s, x, y, font, size, rgb);
      case Logo(x, y, rgb) => LogoAscii(x, y, rgb);
    }
  }

  lemma StreamAscii(p: seq<Mark>)
    requires AllStyled(p)
    ensures Ascii(Stream(p))
  {
    hide Ascii, Styled, Draw;
    forall i | 0 <= i < |p| ensures Ascii(Drawn(p)[i]) { MarkAscii(p[i]); }
    PiecesAscii(Drawn(p));
  }

  lemma StyledConcat(p: seq<Mark>, q: seq<Mark>)
    requires AllStyled(p) && AllStyled(q)
    ensures AllStyled(p + q)
  {
    hide Styled;
  }

  lemma {:induction false} RowsStyled(ops: seq<Operation>, y: int, i: nat, n: nat)
    requires i <= n <= |ops|
    ensures AllStyled(Rows(ops, y, i, n))
    decreases n - i
  {
    if i < n {
      RowsStyled(ops, y - ROW_H, i + 1, n);
      RowStyled(y, ops[i], i);
      hide RowMarks;
      StyledConcat(RowMarks(y, ops[i], i), Rows(ops, y - ROW_H, i + 1, n));
    }
  }

  lemma RowStyled(y: int, op: Operation, index: int)
    ensures AllStyled(RowMarks(y, op, index))
  {
    hide PadStart, Trunc, Decimal;
  }

  lemma {:induction false} FieldsStyled(fields: seq<(string, string)>, y: int)
    ensures AllStyled(FieldMarks(fields, y))
    decreases |fields|
  {
    if fields != [] {
      FieldsStyled(fields[1..], y - 16);
      StyledConcat([Label(fields[0].0, ML, y, "/F2", "8.5", DIM), Label(fields[0].1, ML + 112, y, "/F3", "8.5", INK)],
                   FieldMarks(fields[1..], y - 16));
    }
  }

  lemma MetadataStyled(data: Report)
    ensures AllStyled(Metadata(data).0)
  {
    hide Fields;
    var fields := Fields(data);
    var y := CT - 24 - 16 * |fields| - 8;
    FieldsStyled(fields, CT - 24);
    var a := [Label("EXPORT DETAILS", ML, CT, "/F1", "10", INK), Line(ML, CT - 6, PW - MR, BORDER, "0.5")];
    var b := [Label("OPERATIONS", ML, y, "/F1", "10", INK), Line(ML, y - 6, PW - MR, BORDER, "0.5")];
    StyledConcat(a, FieldMarks(fields, CT - 24));
    StyledConcat(a + FieldMarks(fields, CT - 24), b);
  }

  lemma ColoursAscii()
    ensures Ascii(INK) && Ascii(BG) && Ascii(DIM) && Ascii(BORDER) && Ascii(HDR_SUB) && Ascii(STRIPE)
    ensures Ascii("/F1") && Ascii("/F2") && Ascii("/F3")
  {
  }

  lemma HeaderStyled()
    ensures AllStyled(Header()) && AllStyled([])
  {
    ColoursAscii();
    assert Ascii("1.5") && Ascii("18") && Ascii("8");
    hide Ascii;
  }

  lemma FooterStyled(pageNum: int, totalPages: int, exportId: string)
    ensures AllStyled(Footer(pageNum, totalPages, exportId))
  {
    hide Decimal;
  }

  lemma TableStyled(y: int)
    ensures AllStyled(TableHeader(y))
  {
  }

  lemma NoteStyled(y: int)
    ensures AllStyled(EndNote(y))
  {
  }

  lemma PageStyled(data: Report, pg: nat)
    requires First(data, pg) <= First(data, pg + 1)
    ensures AllStyled(PageMarks(data, pg))
  {
    var total := TotalPages(|data.operations|);
    var y := Baseline(data, pg, First(data, pg + 1));
    HeaderStyled();
    FooterStyled(pg + 1, total, data.exportId);
    TableStyled(Top(data, pg) + TBL_HDR);
    NoteStyled(y);
    MetadataStyled(data);
    RowsStyled(data.operations, Top(data, pg), First(data, pg), First(data, pg + 1));
    hide Metadata, TableHeader, Rows, EndNote, AllStyled, Header, Footer, Top, TotalPages;
    var meta := if pg == 0 then Metadata(data).0 else [];
    var table := TableHeader(Top(data, pg) + TBL_HDR);
    var rows := Rows(data.operations, Top(data, pg), First(data, pg), First(data, pg + 1));
    var note := if pg == total - 1 && y > CB + 70 then EndNote(y) else [];
    StyledConcat(Header(), meta);
    StyledConcat(Header() + meta, table);
    StyledConcat(Header() + meta + table, rows);
    StyledConcat(Header() + meta + table + rows, note);
    StyledConcat(Header() + meta + table + rows + note, Footer(pg + 1, total, data.exportId));
  }

  lemma ObjectsAscii(objects: seq<string>, streams: seq<string>)
    requires ObjectsAre(objects, streams) && forall i :: 0 <= i < |streams| ==> Ascii(streams[i])
    ensures forall i :: 0 <= i < |objects| ==> Ascii(objects[i])
  {
    hide StreamObject, PageObject, PagesObject, Ascii, Font;
    CatalogAscii();
    FontsAscii();
    PagesObjectAscii(PageNumbers(|streams|));
    forall num | 0 <= num < |objects| ensures Ascii(objects[num]) {
      if num >= 5 {
        var i := (num - 5) / 2;
        if num % 2 == 1 {
          assert num == StreamNumber(i) - 1;
          StreamObjectAscii(streams[i]);
        } else {
          assert num == StreamNumber(i);
          PageObjectAscii(StreamNumber(i));
        }
      } else {
        assert num == 0 || num == 1 || num == 2 || num == 3 || num == 4;
      }
    }
  }

  lemma CatalogAscii()
    ensures Ascii(CATALOG)
  {
  }

  lemma FontAscii(name: string)
    requires Ascii(name)
    ensures Ascii(Font(name))
  {
    var a, b, c, d := "<< /Type /Font ", "/Subtype /Type1 ", "/BaseFont /", " >>";
    assert Ascii(a) && Ascii(b) && Ascii(c) && Ascii(d);
    hide Ascii;
    AsciiConcat(a, b);
    AsciiConcat(a + b, c);
    AsciiConcat(a + b + c, name);
    AsciiConcat(a + b + c + name, d);
  }

  lemma FontsAscii()
    ensures Ascii(Font("Helvetica-Bold")) && Ascii(Font("Helvetica")) && Ascii(Font("Courier"))
  {
    assert Ascii("Helvetica-Bold") && Ascii("Helvetica") && Ascii("Courier");
    hide Ascii, Font;
    FontAscii("Helvetica-Bold");
    FontAscii("Helvetica");
    FontAscii("Courier");
  }

  lemma StreamObjectAscii(stream: string)
    requires Ascii(stream)
    ensures Ascii(StreamObject(stream))
  {
    DecimalAscii(|stream|);
    hide Decimal;
  }

  lemma PageObjectAscii(num: nat)
    ensures Ascii(PageObject(num))
  {
    DecimalAscii(num);
    PagePiecesAscii();
    MorePagePiecesAscii();
    hide Decimal, Ascii;
    var a, b, c := "<< /Type /Page /Parent 2 0 R ", "/MediaBox [0 0 612 792] ", "/Contents ";
    var d, e, f, g := " 0 R /Resources << ", "/Font << /F1 3 0 R ", "/F2 4 0 R /F3 5 0 R ", ">> >> >>";
    SixAscii(a, b, c, Decimal(num), d, e);
    AsciiConcat(a + b + c + Decimal(num) + d + e, f);
    AsciiConcat(a + b + c + Decimal(num) + d + e + f, g);
  }

  lemma PagePiecesAscii()
    ensures Ascii("<< /Type /Page /Parent 2 0 R ") && Ascii("/MediaBox [0 0 612 792] ") && Ascii("/Contents ")
  {
  }

  lemma MorePagePiecesAscii()
    ensures Ascii(" 0 R /Resources << ") && Ascii("/Font << /F1 3 0 R ") && Ascii("/F2 4 0 R /F3 5 0 R ") && Ascii(">> >> >>")
  {
  }

  lemma {:induction false} KidsAscii(parts: seq<string>)
    requires forall i :: 0 <= i < |parts| ==> Ascii(parts[i])
    ensures Ascii(Join(" ", parts))
    decreases |parts|
  {
    if |parts| > 1 { KidsAscii(parts[1..]); }
  }

  lemma PagesObjectAscii(nums: seq<nat>)
    ensures Ascii(PagesObject(nums))
  {
    forall i | 0 <= i < |nums| ensures Ascii(Kids(nums)[i]) {
      DecimalAscii(nums[i]);
      hide Decimal;
    }
    KidsAscii(Kids(nums));
    DecimalAscii(|nums|);
    hide Decimal, Join;
  }

  /**
    The report of any operations: each page holds what it should, each stream is in its own
    object, and the file is ASCII, so that its cross-references are byte positions.
  */
  method BuildBrandedPDF(data: Report) returns (file: string, pages: seq<seq<Mark>>, objects: seq<string>)
    ensures |pages| == TotalPages(|data.operations|)
    ensures forall pg :: 0 <= pg < |pages| ==> First(data, pg) <= First(data, pg + 1) && pages[pg] == PageMarks(data, pg)
    ensures ObjectsAre(objects, Streams(pages)) && file == Document(objects)
    ensures forall i :: 0 <= i < |objects| ==> Ascii(objects[i])
    ensures Ascii(file) && |Encoded(file)| == |file|
  {
    hide Stream, PageMarks, ObjectsAre, Document, First, TotalPages, Encoded, Ascii;
    pages := BuildPages(data);
    file, objects := AssemblePDF(Streams(pages));
    forall pg | 0 <= pg < |pages| ensures Ascii(Streams(pages)[pg]) {
      PageStyled(data, pg);
      StreamAscii(pages[pg]);
    }
    ObjectsAscii(objects, Streams(pages));
    DocumentAscii(objects);
  }
}
