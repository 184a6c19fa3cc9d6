/** What a PDF reader meets: the instructions for each mark, and object references that lead where they should. */
module PdfReader {
  import opened Text
  import opened PdfPages
  import opened PdfFile

  ghost predicate Has(t: string, part: string) { exists pos: nat :: FoundAt(t, pos, part) }

  lemma HasMiddle(a: string, part: string, b: string)
    ensures Has(a + part + b, part)
  {
    FoundBetween(a, part, b);
  }

  // ---- Marks ----

  /** A rectangle is filled in its colour at its place and of its size. */
  lemma FillExactly(x: int, y: int, w: int, h: int, rgb: string)
    ensures var t := Draw(Fill(x, y, w, h, rgb));
            && FoundAt(t, 0, rgb + " rg ")
            && t[|rgb + " rg "|..] == Decimal(x) + " " + Decimal(y) + " " + Decimal(w) + " " + Decimal(h) + " re f"
  {
    hide Decimal, FoundAt;
    Operands(rgb + " rg ", Decimal(x), " ", Decimal(y), " ", Decimal(w), " ", Decimal(h), " re f");
  }

  lemma Operands(a: string, b: string, c: string, d: string, e: string, f: string, g: string, h: string, i: string)
    ensures FoundAt(a + b + c + d + e + f + g + h + i, 0, a)
    ensures (a + b + c + d + e + f + g + h + i)[|a|..] == b + c + d + e + f + g + h + i
  {
  }

  /** A line is stroked from its left end to its right end, in its colour and width. */
  lemma LineExactly(x1: int, y: int, x2: int, rgb: string, width: string)
    ensures var t, head := Draw(Line(x1, y, x2, rgb, width)), rgb + " RG " + width + " w ";
            && FoundAt(t, 0, head)
            && t[|head|..] == Decimal(x1) + " " + Decimal(y) + " m " + Decimal(x2) + " " + Decimal(y) + " l S"
  {
    hide Decimal, FoundAt;
    Operands(rgb + " RG " + width + " w ", Decimal(x1), " ", Decimal(y), " m ", Decimal(x2), " ", Decimal(y), " l S");
  }

  function Placed(x: int, y: int): string { " Tf 1 0 0 1 " + Decimal(x) + " " + Decimal(y) + " Tm (" }

  /** The instruction in three pieces: colour and font, place, and the literal. */
  lemma LabelPieces(s: string, x: int, y: int, font: string, size: string, rgb: string)
    ensures Draw(Label(s, x, y, font, size, rgb))
         == (("BT " + rgb + " rg ") + (font + " " + size)) + Placed(x, y) + (Esc(s) + ")" + " Tj ET")
  {
    hide Decimal, Esc;
    Pieces("BT " + rgb + " rg ", font, " ", size, " Tf 1 0 0 1 " + Decimal(x) + " " + Decimal(y) + " Tm (", Esc(s), ")", " Tj ET");
    Unplaced("BT " + rgb + " rg " + font + " " + size, " Tf 1 0 0 1 ", Decimal(x), " ", Decimal(y), " Tm (");
    assert ")" + " Tj ET" == ") Tj ET";
  }

  lemma Pieces(a: string, b: string, c: string, d: string, e: string, f: string, g: string, h: string)
    ensures a + b + c + d + e + f + (g + h) == (a + (b + c + d)) + e + (f + g + h)
  {
  }

  lemma Unplaced(a: string, b: string, c: string, d: string, e: string, f: string)
    ensures a + b + c + d + e + f == a + (b + c + d + e + f)
  {
  }

  /** A label is shown in its colour and font, at its place, and a reader of its literal finds its text. */
  lemma LabelExactly(s: string, x: int, y: int, font: string, size: string, rgb: string)
    ensures var t, head := Draw(Label(s, x, y, font, size, rgb)), "BT " + rgb + " rg " + (font + " " + size);
            && FoundAt(t, 0, head) && FoundAt(t, |head|, Placed(x, y)) && |head + Placed(x, y)| <= |t|
            && ReadLiteral(t[|head + Placed(x, y)|..]) == Some((Sanitised(s), " Tj ET"))
  {
    hide Draw, Esc, ReadLiteral, Placed;
    LabelPieces(s, x, y, font, size, rgb);
    LabelReads(s, " Tj ET");
    var head, rest := "BT " + rgb + " rg " + (font + " " + size), Esc(s) + ")" + " Tj ET";
    assert head == ("BT " + rgb + " rg ") + (font + " " + size);
    Found(head, Placed(x, y), rest);
  }

  lemma Found(a: string, b: string, c: string)
    ensures FoundAt(a + b + c, 0, a) && FoundAt(a + b + c, |a|, b) && (a + b + c)[|a + b|..] == c
  {
    FoundBetween(a, b, c);
  }

  // ---- References ----

  /** The first five objects, and where the catalog and the page tree lead. */
  lemma TreeExactly(objects: seq<string>, streams: seq<string>, i: nat)
    requires ObjectsAre(objects, streams) && i < |streams|
    ensures Has(objects[0], "/Type /Catalog ") && Has(objects[0], "/Pages 2 0 R")
    ensures Has(objects[1], "/Type /Pages ") && Has(objects[1], "/Count " + Decimal(|streams|) + " >>")
    ensures Kids(PageNumbers(|streams|))[i] == Decimal(7 + 2 * i) + " 0 R"
    ensures Has(objects[1], "/Kids [" + Join(" ", Kids(PageNumbers(|streams|))) + "]")
  {
    hide Decimal, Join, Kids, PageNumbers, StreamObject, PageObject, Font;
    var kids, count := Join(" ", Kids(PageNumbers(|streams|))), Decimal(|streams|);
    CatalogText();
    PagesText(PageNumbers(|streams|));
    KidNumber(|streams|, i);
  }

  lemma CatalogType()
    ensures CATALOG == "<< " + "/Type /Catalog " + "/Pages 2 0 R >>"
  {
  }

  lemma CatalogPages()
    ensures CATALOG == "<< /Type /Catalog " + "/Pages 2 0 R" + " >>"
  {
  }

  lemma CatalogText()
    ensures Has(CATALOG, "/Type /Catalog ") && Has(CATALOG, "/Pages 2 0 R")
  {
    hide CATALOG, Has;
    CatalogType();
    CatalogPages();
    HasMiddle("<< ", "/Type /Catalog ", "/Pages 2 0 R >>");
    HasMiddle("<< /Type /Catalog ", "/Pages 2 0 R", " >>");
  }

  lemma KidNumber(n: nat, i: nat)
    requires i < n
    ensures Kids(PageNumbers(n))[i] == Decimal(7 + 2 * i) + " 0 R"
  {
    hide Decimal;
    assert StreamNumber(i) + 1 == 7 + 2 * i;
  }

  lemma PagesText(nums: seq<nat>)
    ensures var t := PagesObject(nums);
            && Has(t, "/Type /Pages ") && Has(t, "/Kids [" + Join(" ", Kids(nums)) + "]")
            && Has(t, "/Count " + Decimal(|nums|) + " >>")
  {
    hide Decimal, Join, Kids, Has;
    var kids, count := Join(" ", Kids(nums)), Decimal(|nums|);
    PagesPieces(kids, count);
    Five("<< ", "/Type /Pages ", "/Kids [" + kids + "]", " ", "/Count " + count + " >>");
  }

  lemma PagesPieces(kids: string, count: string)
    ensures "<< /Type /Pages /Kids [" + kids + "] /Count " + count + " >>"
         == "<< " + "/Type /Pages " + ("/Kids [" + kids + "]") + " " + ("/Count " + count + " >>")
  {
    assert "<< /Type /Pages /Kids [" == "<< " + "/Type /Pages " + "/Kids [" && "] /Count " == "]" + " " + "/Count ";
    Split("<< " + "/Type /Pages ", "/Kids [", kids, "]", " ", "/Count ", count, " >>");
  }

  lemma Split(a: string, b: string, c: string, d: string, e: string, f: string, g: string, h: string)
    ensures (a + b) + c + (d + e + f) + g + h == a + (b + c + d) + e + (f + g + h)
  {
  }

  lemma Five(a: string, b: string, c: string, d: string, e: string)
    ensures var t := a + b + c + d + e; Has(t, b) && Has(t, c) && Has(t, e)
  {
    var t := a + b + c + d + e;
    assert t == a + b + (c + d + e) && t == (a + b) + c + (d + e) && t == (a + b + c + d) + e + "";
    HasMiddle(a, b, c + d + e);
    HasMiddle(a + b, c, d + e);
    HasMiddle(a + b + c + d, e, "");
  }

  /** A page names its parent, its own content stream and the three fonts, which are what they are called. */
  lemma PageExactly(objects: seq<string>, streams: seq<string>, i: nat)
    requires ObjectsAre(objects, streams) && i < |streams|
    ensures 6 + 2 * i < |objects|
    ensures var page := objects[6 + 2 * i];
            && Has(page, "/Type /Page /Parent 2 0 R ") && Has(page, "/MediaBox [0 0 612 792] ")
            && Has(page, "/Contents " + Decimal(6 + 2 * i) + " 0 R") && Has(page, "/F1 3 0 R ") && Has(page, "/F2 4 0 R /F3 5 0 R ")
    ensures Has(objects[2], "/BaseFont /Helvetica-Bold >>") && Has(objects[3], "/BaseFont /Helvetica >>")
    ensures Has(objects[4], "/BaseFont /Courier >>")
  {
    hide Decimal, PagesObject, PageNumbers, StreamObject, PageObject, Font, Has;
    assert StreamNumber(i) == 6 + 2 * i;
    PageText(6 + 2 * i);
    FontText("Helvetica-Bold");
    FontText("Helvetica");
    FontText("Courier");
    assert "/BaseFont /" + "Helvetica-Bold" + " >>" == "/BaseFont /Helvetica-Bold >>";
    assert "/BaseFont /" + "Helvetica" + " >>" == "/BaseFont /Helvetica >>";
    assert "/BaseFont /" + "Courier" + " >>" == "/BaseFont /Courier >>";
  }

  lemma FontText(name: string)
    ensures Has(Font(name), "/BaseFont /" + name + " >>")
  {
    var a := "<< /Type /Font " + "/Subtype /Type1 ";
    assert Font(name) == a + ("/BaseFont /" + name + " >>") + "";
    HasMiddle(a, "/BaseFont /" + name + " >>", "");
  }

  lemma PageText(num: nat)
    ensures var page := PageObject(num);
            && Has(page, "/Type /Page /Parent 2 0 R ") && Has(page, "/MediaBox [0 0 612 792] ")
            && Has(page, "/Contents " + Decimal(num) + " 0 R") && Has(page, "/F1 3 0 R ") && Has(page, "/F2 4 0 R /F3 5 0 R ")
  {
    hide Decimal, Has;
    var n := Decimal(num);
    assert "<< /Type /Page /Parent 2 0 R " == "<< " + "/Type /Page /Parent 2 0 R " && "/Font << /F1 3 0 R " == "/Font << " + "/F1 3 0 R ";
    assert " 0 R /Resources << " == " 0 R" + " /Resources << ";
    Seven("<< ", "/Type /Page /Parent 2 0 R ", "/MediaBox [0 0 612 792] ", "/Contents ", n, " 0 R", " /Resources << ",
          "/Font << ", "/F1 3 0 R ", "/F2 4 0 R /F3 5 0 R ", ">> >> >>");
  }

  lemma Seven(a: string, b: string, c: string, d: string, n: string, e: string, f: string, g: string, h: string, i: string, j: string)
    ensures var t := (a + b) + c + d + n + (e + f) + (g + h) + i + j;
            Has(t, b) && Has(t, c) && Has(t, d + n + e) && Has(t, h) && Has(t, i)
  {
    hide Has;
    var t := (a + b) + c + d + n + (e + f) + (g + h) + i + j;
    assert t == a + b + (c + d + n + e + f + g + h + i + j);
    assert t == (a + b) + c + (d + n + e + f + g + h + i + j);
    assert t == (a + b + c) + (d + n + e) + (f + g + h + i + j);
    assert t == (a + b + c + d + n + e + f + g) + h + (i + j);
    assert t == (a + b + c + d + n + e + f + g + h) + i + j;
    HasMiddle(a, b, c + d + n + e + f + g + h + i + j);
    HasMiddle(a + b, c, d + n + e + f + g + h + i + j);
    HasMiddle(a + b + c, d + n + e, f + g + h + i + j);
    HasMiddle(a + b + c + d + n + e + f + g, h, i + j);
    HasMiddle(a + b + c + d + n + e + f + g + h, i, j);
  }

  /** A content stream's object says how long it is, and holds just that. */
  lemma ContentsExactly(objects: seq<string>, streams: seq<string>, i: nat)
    requires ObjectsAre(objects, streams) && i < |streams|
    ensures 5 + 2 * i < |objects|
    ensures var t, head := objects[5 + 2 * i], "<< /Length " + Decimal(|streams[i]|) + " >>\nstream\n";
            && FoundAt(t, 0, head) && FoundAt(t, |head|, streams[i]) && |head + streams[i]| <= |t|
            && t[|head + streams[i]|..] == "\nendstream"
  {
    hide Decimal, PagesObject, PageNumbers, PageObject, Font;
    assert StreamNumber(i) - 1 == 5 + 2 * i;
    Found("<< /Length " + Decimal(|streams[i]|) + " >>\nstream\n", streams[i], "\nendstream");
  }

  /** The file begins as PDF 1.4 and ends with the trailer, which names the catalog and the table's place. */
  lemma EndsExactly(objects: seq<string>)
    ensures var t, n := Document(objects), |objects|;
            var tail := "trailer\n<< /Size " + Decimal(n + 1) + " /Root 1 0 R >>\nstartxref\n" + Decimal(OffsetOf(objects, n)) + "\n%%EOF\n";
            FoundAt(t, 0, "%PDF-1.4\n") && |tail| <= |t| && t[|t| - |tail|..] == tail
  {
    hide Decimal, Body, Entries, TableHead;
    var n := |objects|;
    var tail := Trailer(n + 1, OffsetOf(objects, n));
    assert Document(objects) == HEADER + (Body(objects, n) + TableHead(n + 1) + FREE_ENTRY + Entries(objects, n)) + tail;
    Found(HEADER, Body(objects, n) + TableHead(n + 1) + FREE_ENTRY + Entries(objects, n), tail);
  }

  /** At its offset each object begins with its number and is closed after its content. */
  lemma ObjectAt(objects: seq<string>, num: nat)
    requires 1 <= num <= |objects| && OffsetOf(objects, |objects|) < MAX_OFFSET
    ensures var at, head, content := OffsetOf(objects, num - 1), Decimal(num) + " 0 obj\n", objects[num - 1];
            && FoundAt(Document(objects), at, head) && FoundAt(Document(objects), at + |head|, content)
            && FoundAt(Document(objects), at + |head| + |content|, "\nendobj\n")
  {
    hide Decimal, Document, OffsetOf, Entry;
    CrossReferences(objects, num);
    Unfolded(Document(objects), OffsetOf(objects, num - 1), Decimal(num) + " 0 obj\n", objects[num - 1], "\nendobj\n");
  }

  lemma Unfolded(t: string, pos: nat, a: string, b: string, c: string)
    requires FoundAt(t, pos, a + b + c)
    ensures FoundAt(t, pos, a) && FoundAt(t, pos + |a|, b) && FoundAt(t, pos + |a| + |b|, c)
  {
    var w := a + b + c;
    assert w[0..|a|] == a && w[|a|..|a| + |b|] == b && w[|a| + |b|..|w|] == c;
    SliceOf(t, pos, w, 0, |a|);
    SliceOf(t, pos, w, |a|, |a| + |b|);
    SliceOf(t, pos, w, |a| + |b|, |w|);
  }

  lemma SliceOf(t: string, pos: nat, w: string, i: nat, j: nat)
    requires FoundAt(t, pos, w) && i <= j <= |w|
    ensures FoundAt(t, pos + i, w[i..j])
  {
    forall k | 0 <= k < j - i ensures t[pos + i..pos + j][k] == w[i..j][k] {
      assert t[pos..pos + |w|][i + k] == w[i + k];
    }
    assert t[pos + i..pos + j] == w[i..j];
  }

  /** The table begins with its own head and the free entry. */
  lemma TableAt(objects: seq<string>)
    ensures var at, head := OffsetOf(objects, |objects|), "xref\n0 " + Decimal(|objects| + 1) + "\n";
            FoundAt(Document(objects), at, head) && FoundAt(Document(objects), at + |head|, "0000000000 65535 f \n")
  {
    hide Decimal, Document, OffsetOf;
    StartXref(objects);
  }
}
