/** Assembling the report file: objects, cross-reference table and trailer (ISO 32000-1 section 7.5). */
module PdfFile {
  import opened Text
  import P = PdfPages
  import E = Encodings

  const HEADER := "%PDF-1.4\n"
  const CATALOG := "<< /Type /Catalog /Pages 2 0 R >>"
  const FREE_ENTRY := "0000000000 65535 f \n"

  // ---- The objects ----

  function Font(name: string): string { "<< /Type /Font " + "/Subtype /Type1 " + "/BaseFont /" + name + " >>" }

  function StreamObject(stream: string): string {
    "<< /Length " + Decimal(|stream|) + " >>\nstream\n" + stream + "\nendstream"
  }

  function PageObject(csNum: nat): string {
    "<< /Type /Page /Parent 2 0 R " + "/MediaBox [0 0 612 792] " + "/Contents " + Decimal(csNum)
    + " 0 R /Resources << " + "/Font << /F1 3 0 R " + "/F2 4 0 R /F3 5 0 R " + ">> >> >>"
  }

  function Kids(nums: seq<nat>): (r: seq<string>)
    ensures |r| == |nums|
  {
    seq(|nums|, i requires 0 <= i < |nums| => Decimal(nums[i]) + " 0 R")
  }

  function PagesObject(nums: seq<nat>): string {
    "<< /Type /Pages /Kids [" + Join(" ", Kids(nums)) + "] /Count " + Decimal(|nums|) + " >>"
  }

  /** Object number of the content stream of page i; its page object is the next one. */
  function StreamNumber(i: nat): nat { 6 + 2 * i }

  function PageNumbers(n: nat): (r: seq<nat>)
    ensures |r| == n && forall i :: 0 <= i < n ==> r[i] == StreamNumber(i) + 1
  {
    seq(n, i requires 0 <= i < n => StreamNumber(i) + 1)
  }

  /** What object `num` must hold. */
  ghost predicate ObjectsAre(objects: seq<string>, streams: seq<string>) {
    && |objects| == 5 + 2 * |streams|
    && objects[0] == CATALOG && objects[1] == PagesObject(PageNumbers(|streams|))
    && objects[2] == Font("Helvetica-Bold") && objects[3] == Font("Helvetica") && objects[4] == Font("Courier")
    && forall i :: 0 <= i < |streams| ==>
         && objects[StreamNumber(i) - 1] == StreamObject(streams[i])
         && objects[StreamNumber(i)] == PageObject(StreamNumber(i))
  }

  method BuildObjects(pageStreams: seq<string>) returns (objContents: seq<string>)
    ensures ObjectsAre(objContents, pageStreams)
  {
    hide StreamObject, PageObject, PagesObject, Font;
    objContents := [CATALOG, "", Font("Helvetica-Bold"), Font("Helvetica"), Font("Courier")];
    var pageObjNums: seq<nat> := [];
    for i := 0 to |pageStreams|
      invariant |objContents| == 5 + 2 * i && |pageObjNums| == i
      invariant objContents[0] == CATALOG && objContents[2] == Font("Helvetica-Bold")
      invariant objContents[3] == Font("Helvetica") && objContents[4] == Font("Courier")
      invariant forall k :: 0 <= k < i ==> pageObjNums[k] == StreamNumber(k) + 1
      invariant forall k :: 0 <= k < i ==>
        objContents[StreamNumber(k) - 1] == StreamObject(pageStreams[k]) && objContents[StreamNumber(k)] == PageObject(StreamNumber(k))
    {
      var csNum := |objContents| + 1;
      objContents := objContents + [StreamObject(pageStreams[i])];
      var pgNum := |objContents| + 1;
      objContents := objContents + [PageObject(csNum)];
      pageObjNums := pageObjNums + [pgNum];
    }
    assert pageObjNums == PageNumbers(|pageStreams|);
    objContents := objContents[1 := PagesObject(pageObjNums)];
  }

  // ---- The file ----

  function ObjectText(num: nat, content: string): string { Decimal(num) + " 0 obj\n" + content + "\nendobj\n" }

  /** The first k objects, one after another. */
  function Body(objects: seq<string>, k: nat): string
    requires k <= |objects|
  {
    if k == 0 then "" else Body(objects, k - 1) + ObjectText(k, objects[k - 1])
  }

  function OffsetOf(objects: seq<string>, k: nat): nat
    requires k <= |objects|
  {
    |HEADER| + |Body(objects, k)|
  }

  function Entry(offset: nat): string { P.PadStart(Decimal(offset), 10, '0') + " 00000 n \n" }

  function Entries(objects: seq<string>, k: nat): string
    requires k <= |objects|
  {
    if k == 0 then "" else Entries(objects, k - 1) + Entry(OffsetOf(objects, k - 1))
  }

  function TableHead(n: nat): string { "xref\n0 " + Decimal(n) + "\n" }

  function Trailer(n: nat, xrefPos: nat): string {
    "trailer\n<< /Size " + Decimal(n) + " /Root 1 0 R >>\nstartxref\n" + Decimal(xrefPos) + "\n%%EOF\n"
  }

  function Document(objects: seq<string>): string {
    var n := |objects|;
    HEADER + Body(objects, n) + TableHead(n + 1) + FREE_ENTRY + Entries(objects, n) + Trailer(n + 1, OffsetOf(objects, n))
  }

  function Concat(parts: seq<string>): string {
    if parts == [] then "" else Concat(parts[..|parts| - 1]) + parts[|parts| - 1]
  }

  lemma ConcatAppend(parts: seq<string>, s: string)
    ensures Concat(parts + [s]) == Concat(parts) + s
  {
    assert (parts + [s])[..|parts|] == parts;
  }

  method AssemblePDF(pageStreams: seq<string>) returns (file: string, objContents: seq<string>)
    ensures ObjectsAre(objContents, pageStreams) && file == Document(objContents)
  {
    hide ObjectsAre, ObjectText, Entry, TableHead, Trailer, Concat;
    objContents := BuildObjects(pageStreams);
    var parts: seq<string> := [HEADER];
    OnePart();
    var offsets: seq<nat> := [];
    var pos := |HEADER|;
    for i := 0 to |objContents|
      invariant Concat(parts) == HEADER + Body(objContents, i) && pos == OffsetOf(objContents, i)
      invariant |offsets| == i && forall k :: 0 <= k < i ==> offsets[k] == OffsetOf(objContents, k)
    {
      offsets := offsets + [pos];
      var obj := ObjectText(i + 1, objContents[i]);
      ConcatAppend(parts, obj);
      parts := parts + [obj];
      pos := pos + |obj|;
    }
    var xrefPos := pos;
    var numEntries := |objContents| + 1;
    ConcatAppend(parts, TableHead(numEntries));
    parts := parts + [TableHead(numEntries)];
    ConcatAppend(parts, FREE_ENTRY);
    parts := parts + [FREE_ENTRY];
    ghost var before := Concat(parts);
    for i := 0 to |offsets|
      invariant Concat(parts) == before + Entries(objContents, i)
    {
      ConcatAppend(parts, Entry(offsets[i]));
      parts := parts + [Entry(offsets[i])];
    }
    ConcatAppend(parts, Trailer(numEntries, xrefPos));
    parts := parts + [Trailer(numEntries, xrefPos)];
    file := Concat(parts);
  }

  lemma OnePart()
    ensures Concat([HEADER]) == HEADER
  {
    assert [HEADER][..0] == [];
  }

  // ---- Every offset is the place of the thing it names ----

  /** The text found at a position. */
  ghost predicate FoundAt(file: string, pos: nat, text: string) {
    pos + |text| <= |file| && file[pos..pos + |text|] == text
  }

  lemma FoundBetween(a: string, text: string, b: string)
    ensures FoundAt(a + text + b, |a|, text)
  {
    assert (a + text + b)[|a|..|a| + |text|] == text;
  }

  lemma FoundWithin(a: string, outer: string, b: string, pos: nat, text: string)
    requires FoundAt(outer, pos, text)
    ensures FoundAt(a + outer + b, |a| + pos, text)
  {
    var file := a + outer + b;
    assert file[|a| + pos..|a| + pos + |text|] == outer[pos..pos + |text|];
  }

  lemma {:induction false} BodyHolds(objects: seq<string>, n: nat, k: nat)
    requires k < n <= |objects|
    ensures FoundAt(Body(objects, n), |Body(objects, k)|, ObjectText(k + 1, objects[k]))
    decreases n
  {
    hide ObjectText;
    var last := ObjectText(n, objects[n - 1]);
    if k == n - 1 {
      assert Body(objects, n) == Body(objects, k) + last + "";
      FoundBetween(Body(objects, k), last, "");
    } else {
      BodyHolds(objects, n - 1, k);
      assert Body(objects, n) == "" + Body(objects, n - 1) + last;
      FoundWithin("", Body(objects, n - 1), last, |Body(objects, k)|, ObjectText(k + 1, objects[k]));
    }
  }

  lemma {:induction false} Padded(s: string, n: nat)
    requires forall i :: 0 <= i < |s| ==> IsDigit(s[i])
    ensures var r := P.PadStart(s, n, '0');
            && |r| == (if |s| < n then n else |s|) && (forall i :: 0 <= i < |r| ==> IsDigit(r[i]))
            && DigitsValue(r) == DigitsValue(s)
    decreases n - |s|
  {
    if |s| < n {
      LeadingZero(s);
      Padded(['0'] + s, n);
    }
  }

  lemma {:induction false} LeadingZero(s: string)
    requires forall i :: 0 <= i < |s| ==> IsDigit(s[i])
    ensures DigitsValue(['0'] + s) == DigitsValue(s)
  {
    if s == "" {
      assert (['0'] + s)[..0] == "";
    } else {
      var init := s[..|s| - 1];
      assert (['0'] + s)[..|s|] == ['0'] + init;
      LeadingZero(init);
    }
  }

  lemma {:induction false} DigitCount(n: nat, k: nat)
    requires 1 <= k && n < Power10(k)
    ensures |Digits(n)| <= k
    decreases k
  {
    assert Power10(1) == 10;
    if n >= 10 { DigitCount(n / 10, k - 1); }
  }

  function Power10(k: nat): nat { if k == 0 then 1 else 10 * Power10(k - 1) }

  const MAX_OFFSET := 10_000_000_000

  lemma TenDigits()
    ensures Power10(10) == MAX_OFFSET
  {
    assert Power10(5) == 100000 by { assert Power10(3) == 1000; }
    assert Power10(8) == 1000 * Power10(5);
    assert Power10(10) == 100 * Power10(8);
  }

  /** An entry is twenty bytes, and its first ten digits are the offset. */
  lemma EntryReads(offset: nat)
    requires offset < MAX_OFFSET
    ensures |Entry(offset)| == 20 && Entry(offset)[10..] == " 00000 n \n"
    ensures (forall i :: 0 <= i < 10 ==> IsDigit(Entry(offset)[i])) && DigitsValue(Entry(offset)[..10]) == offset
  {
    TenDigits();
    DigitCount(offset, 10);
    Padded(Decimal(offset), 10);
    DigitsDenote(offset);
    hide P.PadStart, Digits, DigitsValue;
    var r := P.PadStart(Decimal(offset), 10, '0');
    assert Entry(offset)[..10] == r;
  }

  lemma {:induction false} EntriesLength(objects: seq<string>, k: nat)
    requires k <= |objects| && (k > 0 ==> OffsetOf(objects, k - 1) < MAX_OFFSET)
    ensures |Entries(objects, k)| == 20 * k
    decreases k
  {
    hide Entry, ObjectText;
    if k > 0 {
      EntryReads(OffsetOf(objects, k - 1));
      if k > 1 { assert OffsetOf(objects, k - 2) <= OffsetOf(objects, k - 1); }
      EntriesLength(objects, k - 1);
    }
  }

  lemma {:induction false} EntriesHold(objects: seq<string>, n: nat, k: nat)
    requires k < n <= |objects| && OffsetOf(objects, n - 1) < MAX_OFFSET
    ensures FoundAt(Entries(objects, n), 20 * k, Entry(OffsetOf(objects, k)))
    ensures OffsetOf(objects, k) < MAX_OFFSET
    decreases n
  {
    hide Entry, ObjectText;
    var last := Entry(OffsetOf(objects, n - 1));
    EntriesLength(objects, n - 1) by {
      if n > 1 { assert OffsetOf(objects, n - 2) <= OffsetOf(objects, n - 1); }
    }
    if k == n - 1 {
      assert Entries(objects, n) == Entries(objects, k) + last + "";
      FoundBetween(Entries(objects, k), last, "");
    } else {
      assert OffsetOf(objects, n - 2) <= OffsetOf(objects, n - 1);
      EntriesHold(objects, n - 1, k);
      assert Entries(objects, n) == "" + Entries(objects, n - 1) + last;
      FoundWithin("", Entries(objects, n - 1), last, 20 * k, Entry(OffsetOf(objects, k)));
    }
  }

  /** Where entry `num` of the cross-reference table stands. */
  function EntryPlace(objects: seq<string>, num: nat): nat
    requires num <= |objects|
  {
    OffsetOf(objects, |objects|) + |TableHead(|objects| + 1)| + 20 * num
  }

  /**
    A reader that starts at the end of the file finds the table, in it for each object a
    twenty-byte entry, and at the offset written there the object with that number.
  */
  lemma CrossReferences(objects: seq<string>, num: nat)
    requires 1 <= num <= |objects| && OffsetOf(objects, |objects|) < MAX_OFFSET
    ensures var file := Document(objects); var offset := OffsetOf(objects, num - 1);
            && FoundAt(file, EntryPlace(objects, num), Entry(offset))
            && |Entry(offset)| == 20 && (forall i :: 0 <= i < 10 ==> IsDigit(Entry(offset)[i]))
            && DigitsValue(Entry(offset)[..10]) == offset
            && FoundAt(file, offset, ObjectText(num, objects[num - 1]))
  {
    var n := |objects|;
    hide ObjectText, Entry, TableHead, Trailer, Body, Entries;
    BodyMonotone(objects, num - 1, n);
    BodyMonotone(objects, n - 1, n);
    EntryReads(OffsetOf(objects, num - 1));
    EntriesHold(objects, n, num - 1);
    BodyHolds(objects, n, num - 1);
    var front := HEADER + Body(objects, n) + TableHead(n + 1) + FREE_ENTRY;
    FoundWithin(front, Entries(objects, n), Trailer(n + 1, OffsetOf(objects, n)), 20 * (num - 1), Entry(OffsetOf(objects, num - 1)));
    assert |front| + 20 * (num - 1) == EntryPlace(objects, num);
    var back := TableHead(n + 1) + FREE_ENTRY + Entries(objects, n) + Trailer(n + 1, OffsetOf(objects, n));
    assert Document(objects) == HEADER + Body(objects, n) + back;
    FoundWithin(HEADER, Body(objects, n), back, |Body(objects, num - 1)|, ObjectText(num, objects[num - 1]));
  }

  lemma {:induction false} BodyMonotone(objects: seq<string>, k: nat, n: nat)
    requires k <= n <= |objects|
    ensures |Body(objects, k)| <= |Body(objects, n)|
    decreases n
  {
    if k < n { BodyMonotone(objects, k, n - 1); }
  }

  lemma TrailerEnds(n: nat, pos: nat) returns (size: string)
    ensures Trailer(n, pos) == size + ("startxref\n" + Decimal(pos) + "\n%%EOF\n")
  {
    hide Digits;
    size := "trailer\n<< /Size " + Decimal(n) + " /Root 1 0 R >>\n";
    assert size + "startxref\n" == "trailer\n<< /Size " + Decimal(n) + " /Root 1 0 R >>\nstartxref\n";
  }

  /** The file ends by saying where the table is. */
  ghost predicate PointsTo(file: string, pos: nat) {
    exists front :: file == front + ("startxref\n" + Decimal(pos) + "\n%%EOF\n")
  }

  /** The table is where `startxref` says, with the free entry first. */
  lemma StartXref(objects: seq<string>)
    ensures var file := Document(objects); var pos := OffsetOf(objects, |objects|);
            && PointsTo(file, pos) && DigitsValue(Decimal(pos)) == pos
            && FoundAt(file, pos, TableHead(|objects| + 1)) && FoundAt(file, EntryPlace(objects, 0), FREE_ENTRY)
  {
    hide ObjectText, Entry, TableHead, Body, Entries, Trailer, DigitsValue, PointsTo;
    var n := |objects|;
    var pos := OffsetOf(objects, n);
    DigitsDenote(pos);
    var size := TrailerEnds(n + 1, pos);
    hide Digits;
    SixParts(HEADER, Body(objects, n), TableHead(n + 1), FREE_ENTRY, Entries(objects, n), Trailer(n + 1, pos));
    SplitsEnd(HEADER + Body(objects, n) + TableHead(n + 1) + FREE_ENTRY + Entries(objects, n), size, pos);
  }

  lemma SixParts(a: string, b: string, c: string, d: string, e: string, f: string)
    ensures FoundAt(a + b + c + d + e + f, |a| + |b|, c) && FoundAt(a + b + c + d + e + f, |a| + |b| + |c|, d)
  {
    FoundBetween(a + b, c, d + e + f);
    assert a + b + c + d + e + f == a + b + c + (d + e + f);
    FoundBetween(a + b + c, d, e + f);
    assert a + b + c + d + e + f == a + b + c + d + (e + f);
  }

  lemma SplitsEnd(front: string, size: string, pos: nat)
    ensures PointsTo(front + (size + ("startxref\n" + Decimal(pos) + "\n%%EOF\n")), pos)
  {
    hide Decimal;
    var end := "startxref\n" + Decimal(pos) + "\n%%EOF\n";
    assert front + (size + end) == (front + size) + end;
  }

  // ---- In bytes ----

  predicate Ascii(s: string) { forall i :: 0 <= i < |s| ==> s[i] as int < 0x80 }

  function Encoded(file: string): seq<E.B.Byte> { E.Utf8(E.FromString(file)) }

  /** For ASCII text positions in the string are positions in the file. */
  lemma BytesAreChars(file: string)
    requires Ascii(file)
    ensures |Encoded(file)| == |file| && forall i :: 0 <= i < |file| ==> Encoded(file)[i] == file[i] as int
  {
    E.PlainUnits(E.FromString(file));
  }

  lemma {:induction false} BodyAscii(objects: seq<string>, k: nat)
    requires k <= |objects| && forall i :: 0 <= i < |objects| ==> Ascii(objects[i])
    ensures Ascii(Body(objects, k)) && Ascii(Entries(objects, k))
    decreases k
  {
    if k > 0 {
      BodyAscii(objects, k - 1);
      EntryAscii(OffsetOf(objects, k - 1));
      ObjectTextAscii(k, objects[k - 1]);
      hide Ascii, Entry, ObjectText, OffsetOf;
      AsciiConcat(Body(objects, k - 1), ObjectText(k, objects[k - 1]));
      AsciiConcat(Entries(objects, k - 1), Entry(OffsetOf(objects, k - 1)));
    }
  }

  lemma ObjectTextAscii(num: nat, content: string)
    requires Ascii(content)
    ensures Ascii(ObjectText(num, content))
  {
    DecimalAscii(num);
    hide Decimal;
  }

  lemma DecimalAscii(n: int)
    ensures Ascii(Decimal(n))
  {
    hide Decimal;
  }

  lemma EntryAscii(offset: nat)
    ensures Ascii(Entry(offset))
  {
    Padded(Decimal(offset), 10);
  }

  lemma TailAscii(n: nat, pos: nat)
    ensures Ascii(TableHead(n)) && Ascii(Trailer(n, pos))
  {
    DecimalAscii(n);
    DecimalAscii(pos);
    hide Decimal;
  }

  lemma SixAscii(a: string, b: string, c: string, d: string, e: string, f: string)
    requires Ascii(a) && Ascii(b) && Ascii(c) && Ascii(d) && Ascii(e) && Ascii(f)
    ensures Ascii(a + b + c + d + e + f)
  {
    hide Ascii;
    AsciiConcat(a, b);
    AsciiConcat(a + b, c);
    AsciiConcat(a + b + c, d);
    AsciiConcat(a + b + c + d, e);
    AsciiConcat(a + b + c + d + e, f);
  }

  /** A file made of ASCII objects is ASCII, so every position above is a byte position. */
  lemma DocumentAscii(objects: seq<string>)
    requires forall i :: 0 <= i < |objects| ==> Ascii(objects[i])
    ensures Ascii(Document(objects)) && |Encoded(Document(objects))| == |Document(objects)|
  {
    var n := |objects|;
    BodyAscii(objects, n);
    TailAscii(n + 1, OffsetOf(objects, n));
    ConstantsAscii();
    hide Ascii, Body, Entries, TableHead, Trailer;
    SixAscii(HEADER, Body(objects, n), TableHead(n + 1), FREE_ENTRY, Entries(objects, n), Trailer(n + 1, OffsetOf(objects, n)));
    BytesAreChars(Document(objects));
  }

  /** In the encoded file the offset written for an object is the byte position of that object. */
  lemma CrossReferenceBytes(objects: seq<string>, num: nat)
    requires forall i :: 0 <= i < |objects| ==> Ascii(objects[i])
    requires 1 <= num <= |objects| && OffsetOf(objects, |objects|) < MAX_OFFSET
    ensures var bytes := Encoded(Document(objects)); var offset := OffsetOf(objects, num - 1);
            var place := EntryPlace(objects, num); var entry := Entry(offset); var text := ObjectText(num, objects[num - 1]);
            && |entry| == 20 && DigitsRead(entry, offset)
            && (forall j :: 0 <= j < 20 ==> place + j < |bytes| && bytes[place + j] == entry[j] as int)
            && (forall j :: 0 <= j < |text| ==> offset + j < |bytes| && bytes[offset + j] == text[j] as int)
  {
    hide Document, Entry, ObjectText, Ascii, Encoded, OffsetOf, EntryPlace, Body;
    CrossReferences(objects, num);
    DocumentAscii(objects);
    BytesAreChars(Document(objects));
    var offset := OffsetOf(objects, num - 1);
    FoundChars(Document(objects), EntryPlace(objects, num), Entry(offset));
    FoundChars(Document(objects), offset, ObjectText(num, objects[num - 1]));
  }

  ghost predicate DigitsRead(entry: string, offset: nat) {
    |entry| >= 10 && (forall i :: 0 <= i < 10 ==> IsDigit(entry[i])) && DigitsValue(entry[..10]) == offset
  }

  lemma FoundChars(file: string, pos: nat, text: string)
    requires FoundAt(file, pos, text)
    ensures forall j :: 0 <= j < |text| ==> pos + j < |file| && file[pos + j] == text[j]
  {
    var part := file[pos..pos + |text|];
    forall j | 0 <= j < |text| ensures pos + j < |file| && file[pos + j] == text[j] { assert part[j] == file[pos + j]; }
  }

  lemma ConstantsAscii()
    ensures Ascii(HEADER) && Ascii(FREE_ENTRY)
  {
  }

  lemma AsciiConcat(a: string, b: string)
    ensures Ascii(a + b) <==> Ascii(a) && Ascii(b)
  {
    assert forall i :: 0 <= i < |a| ==> (a + b)[i] == a[i];
    assert forall i :: 0 <= i < |b| ==> b[i] == (a + b)[|a| + i];
  }
}
