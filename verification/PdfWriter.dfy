/** The audit PDF: numbered objects written one after the other, and the cross-reference table that locates them. */
module PdfWriter {
  import opened Prelude
  import opened Decimal
  import opened PdfText

  const LINES_PER_PAGE: nat := 32

  /** An xref offset has ten digits, so the file must stay below this size. */
  const MAX_FILE_SIZE: nat := 10_000_000_000

  // ---------------------------------------------------------------- pages and objects

  function PageCount(lineCount: nat): (n: nat)
    ensures n >= 1 && lineCount <= n * LINES_PER_PAGE
    ensures lineCount > 0 ==> (n - 1) * LINES_PER_PAGE < lineCount
  {
    var n := (lineCount + LINES_PER_PAGE - 1) / LINES_PER_PAGE;
    if n == 0 then 1 else n
  }

  /** The lines of page i, counting from zero. */
  function PageLines(lines: seq<string>, i: nat): (page: seq<string>)
    requires i < PageCount(|lines|)
    ensures |page| <= LINES_PER_PAGE
  {
    var start := i * LINES_PER_PAGE;
    var end := if start + LINES_PER_PAGE > |lines| then |lines| else start + LINES_PER_PAGE;
    lines[start..end]
  }

  const CATALOG := "<< /Type /Catalog /Pages " + "2 0 R >>"
  const FONT := "<< /Type /Font /Subtype " + "/Type1 /BaseFont " + "/Helvetica >>"

  function StreamObject(content: string): string {
    "<< /Length " + Itoa(|content|) + " >>\nstream\n" + content + "\nendstream"
  }

  const PAGE_HEAD :=
    "<< /Type /Page /Parent " + "2 0 R /MediaBox " + "[0 0 842 595] " + "/Resources << /Font " + "<< /F1 3 0 R >> >> "
    + "/Contents "

  function PageObject(contentObject: nat): string {
    PAGE_HEAD + Itoa(contentObject) + " 0 R >>"
  }

  /** References to the first n page objects: 5, 7, 9, ... */
  function Kids(n: nat): (kids: seq<string>)
    ensures |kids| == n
  {
    seq(n, i requires 0 <= i < n => Itoa(5 + 2 * i) + " 0 R")
  }

  function JoinText(parts: seq<string>, separator: string): string {
    if parts == [] then ""
    else JoinText(Front(parts), separator) + (if |parts| == 1 then "" else separator) + Last(parts)
  }

  function PagesObject(kids: string, count: nat): string {
    "<< /Type /Pages /Kids [" + kids + "] /Count " + Itoa(count) + " >>"
  }

  function ObjectCount(lines: seq<string>): nat {
    3 + PageCount(|lines|) * 2
  }

  function ObjectBody(lines: seq<string>, i: nat): string
    requires i <= ObjectCount(lines)
  {
    if i == 0 then ""
    else if i == 1 then CATALOG
    else if i == 2 then PagesObject(JoinText(Kids(PageCount(|lines|)), " "), PageCount(|lines|))
    else if i == 3 then FONT
    else if i % 2 == 0 then StreamObject(PageContent(PageLines(lines, (i - 4) / 2)))
    else PageObject(i - 1)
  }

  function Objects(lines: seq<string>): (objects: seq<string>)
    ensures |objects| == ObjectCount(lines) + 1
  {
    seq(ObjectCount(lines) + 1, i requires 0 <= i <= ObjectCount(lines) => ObjectBody(lines, i))
  }

  // ---------------------------------------------------------------- the file

  const HEADER := "%PDF-1.4\n"
  const FREE_ENTRY := "0000000000 65535 f \n"
  const IN_USE := " 00000 n \n"

  function ObjectText(i: nat, body: string): string {
    Itoa(i) + " 0 obj\n" + body + "\nendobj\n"
  }

  /** The file up to and including object n. */
  function Body(objects: seq<string>, n: nat): string
    requires n < |objects|
  {
    if n == 0 then HEADER else Body(objects, n - 1) + ObjectText(n, objects[n])
  }

  /** Where object i starts. */
  function Offset(objects: seq<string>, i: nat): nat
    requires 1 <= i < |objects|
  {
    |Body(objects, i - 1)|
  }

  function XrefOffset(offset: nat): string {
    var value := Itoa(offset);
    if |value| >= 10 then value else Repeat('0', 10 - |value|) + value
  }

  /** The positions of all objects; entry 0 belongs to no object. */
  function Offsets(objects: seq<string>): (offsets: seq<nat>)
    ensures |offsets| == |objects|
    ensures forall i :: 1 <= i < |objects| ==> offsets[i] == Offset(objects, i)
  {
    seq(|objects|, i requires 0 <= i < |objects| => if i == 0 then 0 else Offset(objects, i))
  }

  /** The cross-reference entries of objects 1 to n. */
  function Entries(offsets: seq<nat>, n: nat): string
    requires n < |offsets|
  {
    if n == 0 then "" else Entries(offsets, n - 1) + (XrefOffset(offsets[n]) + IN_USE)
  }

  function XrefHead(size: nat): string {
    "xref\n0 " + Itoa(size) + "\n"
  }

  function TrailerHead(size: nat): string {
    "trailer\n<< /Size " + Itoa(size) + " /Root 1 0 R >>\n"
  }

  /** The end of the file, which names the position of the cross-reference table. */
  function Tail(xref: nat): string {
    "startxref\n" + Itoa(xref) + "\n%%EOF\n"
  }

  function Document(objects: seq<string>): string
    requires objects != []
  {
    var n := |objects| - 1;
    Body(objects, n) + XrefHead(|objects|) + FREE_ENTRY + Entries(Offsets(objects), n)
    + (TrailerHead(|objects|) + Tail(|Body(objects, n)|))
  }

  // ---------------------------------------------------------------- locating an object

  predicate At(file: string, position: nat, text: string) {
    position + |text| <= |file| && file[position..position + |text|] == text
  }

  lemma AtConcat(before: string, text: string, after: string)
    ensures At(before + text + after, |before|, text)
  {
  }

  lemma AtPrefix(file: string, more: string, position: nat, text: string)
    requires At(file, position, text)
    ensures At(file + more, position, text)
  {
  }

  lemma AtPart(file: string, position: nat, before: string, text: string, after: string)
    requires At(file, position, before + text + after)
    ensures At(file, position + |before|, text)
  {
    var whole := before + text + after;
    forall k | 0 <= k < |text| ensures file[position + |before| + k] == text[k] {
      assert file[position..position + |whole|][|before| + k] == whole[|before| + k];
    }
  }

  lemma {:induction false} ObjectInBody(objects: seq<string>, i: nat, n: nat)
    requires 1 <= i <= n < |objects|
    ensures At(Body(objects, n), Offset(objects, i), ObjectText(i, objects[i]))
  {
    if i == n {
      AtConcat(Body(objects, n - 1), ObjectText(n, objects[n]), "");
      assert Body(objects, n) == Body(objects, n - 1) + ObjectText(n, objects[n]) + "";
    } else {
      ObjectInBody(objects, i, n - 1);
      AtPrefix(Body(objects, n - 1), ObjectText(n, objects[n]), Offset(objects, i), ObjectText(i, objects[i]));
    }
  }

  lemma OffsetHasTenDigits(offset: nat)
    requires offset < MAX_FILE_SIZE
    ensures |XrefOffset(offset)| == 10 && AllDigits(XrefOffset(offset)) && Value(XrefOffset(offset)) == offset
  {
    assert Pow10(10) == MAX_FILE_SIZE;
    ItoaLength(offset, 10);
    ItoaDenotes(offset);
    var zeros := Repeat('0', 10 - |Itoa(offset)|);
    ZerosAreZero(zeros);
    ValueOfConcat(zeros, Itoa(offset));
    if |zeros| == 0 { assert zeros + Itoa(offset) == Itoa(offset); }
  }

  lemma {:induction false} BodyGrows(objects: seq<string>, m: nat, n: nat)
    requires m <= n < |objects|
    ensures |Body(objects, m)| <= |Body(objects, n)|
  {
    if m < n { BodyGrows(objects, m, n - 1); }
  }

  lemma {:induction false} EntryInTable(offsets: seq<nat>, i: nat, n: nat)
    requires 1 <= i <= n < |offsets| && forall k :: 1 <= k <= n ==> offsets[k] < MAX_FILE_SIZE
    ensures |Entries(offsets, n)| == 20 * n
    ensures At(Entries(offsets, n), 20 * (i - 1), XrefOffset(offsets[i]) + IN_USE)
  {
    OffsetHasTenDigits(offsets[n]);
    EntrySizes();
    var before, entry := Entries(offsets, n - 1), XrefOffset(offsets[n]) + IN_USE;
    if n > 1 { EntryInTable(offsets, if i < n then i else n - 1, n - 1); }
    EntryAppended(before, entry, Entries(offsets, n), i, n, XrefOffset(offsets[i]) + IN_USE);
  }

  lemma EntryAppended(before: string, entry: string, all: string, i: nat, n: nat, wanted: string)
    requires 1 <= i <= n && |before| == 20 * (n - 1) && all == before + entry
    requires if i == n then wanted == entry else At(before, 20 * (i - 1), wanted)
    ensures At(all, 20 * (i - 1), wanted)
  {
    if i == n {
      assert before + entry == before + entry + "";
      AtConcat(before, entry, "");
    } else {
      AtPrefix(before, entry, 20 * (i - 1), wanted);
    }
  }

  /** Position of cross-reference entry i, given where the table starts. */
  function EntryPosition(objects: seq<string>, i: nat): nat
    requires objects != []
  {
    |Body(objects, |objects| - 1)| + |XrefHead(|objects|)| + 20 * i
  }

  lemma Sections(a: string, b: string, c: string, d: string, e: string, f: string)
    ensures var file := a + b + c + d + (e + f);
            && a <= file
            && At(file, |a|, b)
            && At(file, |a| + |b|, c)
            && At(file, |a| + |b| + |c|, d)
            && |f| <= |file| && At(file, |file| - |f|, f)
  {
  }

  /** The parts of the file, located. */
  lemma PartsInDocument(objects: seq<string>)
    requires objects != []
    ensures var n, file := |objects| - 1, Document(objects);
            var xref := |Body(objects, n)|;
            && Body(objects, n) <= file
            && At(file, xref, XrefHead(|objects|))
            && At(file, EntryPosition(objects, 0), FREE_ENTRY)
            && At(file, xref + |XrefHead(|objects|)| + |FREE_ENTRY|, Entries(Offsets(objects), n))
            && |Tail(xref)| <= |file| && At(file, |file| - |Tail(xref)|, Tail(xref))
  {
    var n := |objects| - 1;
    var body := Body(objects, n);
    Sections(body, XrefHead(|objects|), FREE_ENTRY, Entries(Offsets(objects), n), TrailerHead(|objects|), Tail(|body|));
  }

  lemma EntrySizes()
    ensures |FREE_ENTRY| == 20 && |IN_USE| == 10
  {
  }

  lemma EntryDecodes(file: string, position: nat, digits: string, rest: string)
    requires |digits| == 10 && |rest| == 10 && At(file, position, digits + rest)
    ensures position + 20 <= |file|
    ensures file[position..position + 10] == digits && file[position + 10..position + 20] == rest
  {
    assert digits + rest == "" + digits + rest && digits + rest == digits + rest + "";
    AtPart(file, position, "", digits, rest);
    AtPart(file, position, digits, rest, "");
  }

  lemma AtNested(file: string, start: nat, section: string, k: nat, part: string)
    requires At(file, start, section) && At(section, k, part)
    ensures At(file, start + k, part)
  {
    Cut(section, k, part);
    AtPart(file, start, section[..k], part, section[k + |part|..]);
  }

  lemma EntriesInFile(objects: seq<string>)
    requires objects != []
    ensures At(Document(objects), EntryPosition(objects, 1), Entries(Offsets(objects), |objects| - 1))
  {
    PartsInDocument(objects);
    EntrySizes();
  }

  /** The entries are 20 bytes apart. */
  lemma EntryPositions(objects: seq<string>, i: nat)
    requires objects != [] && i >= 1
    ensures EntryPosition(objects, i) == EntryPosition(objects, 1) + 20 * (i - 1)
  {
  }

  lemma Cut(s: string, k: nat, part: string)
    requires At(s, k, part)
    ensures s == s[..k] + part + s[k + |part|..]
  {
  }

  /**
   * startxref names the position of the cross-reference table (ISO 32000-1, section 7.5.5), which opens with the
   * number of its entries and the entry of the free object.
   */
  lemma TableIsFound(objects: seq<string>)
    requires objects != []
    ensures var file, xref := Document(objects), |Body(objects, |objects| - 1)|;
            && |Tail(xref)| <= |file| && At(file, |file| - |Tail(xref)|, Tail(xref))
            && At(file, xref, XrefHead(|objects|))
            && At(file, EntryPosition(objects, 0), FREE_ENTRY)
            && EntryPosition(objects, 0) == xref + |XrefHead(|objects|)|
  {
    PartsInDocument(objects);
  }

  /** A 20-byte cross-reference entry in use, holding a position in ten digits. */
  ghost predicate InUseAt(file: string, position: nat, offset: nat) {
    && position + 20 <= |file|
    && AllDigits(file[position..position + 10])
    && Value(file[position..position + 10]) == offset
    && file[position + 10..position + 20] == IN_USE
  }

  lemma EntryHolds(file: string, position: nat, digits: string, offset: nat)
    requires |digits| == 10 && AllDigits(digits) && Value(digits) == offset
    requires At(file, position, digits + IN_USE)
    ensures InUseAt(file, position, offset)
  {
    EntrySizes();
    EntryDecodes(file, position, digits, IN_USE);
  }

  lemma OffsetsFit(objects: seq<string>)
    requires objects != [] && |Body(objects, |objects| - 1)| < MAX_FILE_SIZE
    ensures forall k :: 1 <= k < |objects| ==> Offsets(objects)[k] < MAX_FILE_SIZE
  {
    forall k | 1 <= k < |objects| ensures Offsets(objects)[k] < MAX_FILE_SIZE {
      BodyGrows(objects, k - 1, |objects| - 1);
    }
  }

  lemma EntryIsWritten(objects: seq<string>, i: nat)
    requires 1 <= i < |objects| && |Body(objects, |objects| - 1)| < MAX_FILE_SIZE
    ensures InUseAt(Document(objects), EntryPosition(objects, i), Offset(objects, i))
  {
    var offset := Offset(objects, i);
    EntrySizes();
    OffsetsFit(objects);
    assert offset == Offsets(objects)[i];
    OffsetHasTenDigits(offset);
    EntryInTable(Offsets(objects), i, |objects| - 1);
    EntriesInFile(objects);
    EntryPositions(objects, i);
    AtNested(Document(objects), EntryPosition(objects, 1), Entries(Offsets(objects), |objects| - 1), 20 * (i - 1),
             XrefOffset(offset) + IN_USE);
    EntryHolds(Document(objects), EntryPosition(objects, i), XrefOffset(offset), offset);
  }

  /**
   * The cross-reference entry of object i holds the position where object i was written (ISO 32000-1, section 7.5.4).
   */
  lemma FileIsIndexed(objects: seq<string>, i: nat)
    requires 1 <= i < |objects| && |Document(objects)| < MAX_FILE_SIZE
    ensures InUseAt(Document(objects), EntryPosition(objects, i), Offset(objects, i))
    ensures At(Document(objects), Offset(objects, i), ObjectText(i, objects[i]))
  {
    PartsInDocument(objects);
    EntryIsWritten(objects, i);
    ObjectInFile(objects, i);
  }

  lemma AtExtension(part: string, file: string, position: nat, text: string)
    requires part <= file && At(part, position, text)
    ensures At(file, position, text)
  {
    assert file == part + file[|part|..];
  }

  lemma BodyStartsFile(objects: seq<string>)
    requires objects != []
    ensures Body(objects, |objects| - 1) <= Document(objects)
  {
    PartsInDocument(objects);
  }

  lemma ObjectInFile(objects: seq<string>, i: nat)
    requires 1 <= i < |objects|
    ensures At(Document(objects), Offset(objects, i), ObjectText(i, objects[i]))
  {
    BodyStartsFile(objects);
    ObjectInBody(objects, i, |objects| - 1);
    AtExtension(Body(objects, |objects| - 1), Document(objects), Offset(objects, i), ObjectText(i, objects[i]));
  }

  // ---------------------------------------------------------------- pages of the document

  lemma FixedSlots(lines: seq<string>)
    ensures var objects, count := Objects(lines), PageCount(|lines|);
            && objects[0] == ""
            && objects[1] == CATALOG
            && objects[2] == PagesObject(JoinText(Kids(count), " "), count)
            && objects[3] == FONT
  {
  }

  lemma SlotHolds(lines: seq<string>, k: nat, body: string)
    requires k <= ObjectCount(lines) && body == ObjectBody(lines, k)
    ensures Objects(lines)[k] == body
  {
  }

  lemma StreamSlot(lines: seq<string>, k: nat, i: nat)
    requires i < PageCount(|lines|) && k == 4 + 2 * i
    ensures ObjectBody(lines, k) == StreamObject(PageContent(PageLines(lines, i)))
  {
    assert k % 2 == 0 && (k - 4) / 2 == i;
  }

  lemma PageSlot(lines: seq<string>, k: nat, i: nat)
    requires i < PageCount(|lines|) && k == 5 + 2 * i
    ensures ObjectBody(lines, k) == PageObject(k - 1)
  {
    assert k % 2 == 1;
  }

  /** The objects of page i: its contents, then the page itself. */
  ghost predicate PageAt(lines: seq<string>, objects: seq<string>, i: nat)
    requires i < PageCount(|lines|) && 5 + 2 * i < |objects|
  {
    && objects[4 + 2 * i] == StreamObject(PageContent(PageLines(lines, i)))
    && objects[5 + 2 * i] == PageObject(4 + 2 * i)
  }

  ghost predicate PagesAt(lines: seq<string>, objects: seq<string>, n: nat) {
    && n == PageCount(|lines|) && |objects| == 4 + 2 * n
    && forall i: nat :: i < n ==> PageAt(lines, objects, i)
  }

  lemma PageSlots(lines: seq<string>, i: nat)
    requires i < PageCount(|lines|)
    ensures PageAt(lines, Objects(lines), i)
  {
    var stream, page := 4 + 2 * i, 5 + 2 * i;
    StreamSlot(lines, stream, i);
    SlotHolds(lines, stream, ObjectBody(lines, stream));
    PageSlot(lines, page, i);
    SlotHolds(lines, page, ObjectBody(lines, page));
  }

  /** The lines of the first n pages, one page after the other. */
  function Paginated(lines: seq<string>, n: nat): seq<string>
    requires n <= PageCount(|lines|)
  {
    if n == 0 then [] else Paginated(lines, n - 1) + PageLines(lines, n - 1)
  }

  lemma {:induction false} PaginationPrefix(lines: seq<string>, n: nat)
    requires n <= PageCount(|lines|)
    ensures Paginated(lines, n) == lines[..if n * LINES_PER_PAGE > |lines| then |lines| else n * LINES_PER_PAGE]
  {
    if n > 0 { PaginationPrefix(lines, n - 1); }
  }

  /** The pages carry every line once and in order, 32 on each page but the last. */
  lemma PaginationIsComplete(lines: seq<string>)
    ensures Paginated(lines, PageCount(|lines|)) == lines
    ensures forall i :: 0 <= i < PageCount(|lines|) ==> |PageLines(lines, i)| <= 32
    ensures forall i :: 0 <= i < PageCount(|lines|) - 1 ==> |PageLines(lines, i)| == 32
    ensures PageCount(|lines|) >= 1 && (|lines| > 0 ==> PageLines(lines, PageCount(|lines|) - 1) != [])
  {
    PaginationPrefix(lines, PageCount(|lines|));
    assert lines[..|lines|] == lines;
  }

  // ---------------------------------------------------------------- the writer

  method Join(parts: seq<string>, separator: string) returns (joined: string)
    ensures joined == JoinText(parts, separator)
  {
    joined := "";
    for i := 0 to |parts|
      invariant joined == JoinText(parts[..i], separator)
    {
      assert Front(parts[..i + 1]) == parts[..i];
      joined := joined + (if i == 0 then "" else separator) + parts[i];
    }
    assert parts[..|parts|] == parts;
  }

  method WritePage(page: seq<string>, objects: array<string>, contentObject: nat,
                   ghost stream: string, ghost pageText: string)
    returns (kid: string)
    requires contentObject + 1 < objects.Length
    requires stream == StreamObject(PageContent(page)) && pageText == PageObject(contentObject)
    modifies objects
    ensures objects[..] == old(objects[..])[contentObject := stream][contentObject + 1 := pageText]
    ensures kid == Itoa(contentObject + 1) + " 0 R"
  {
    var content := PdfPageContent(page);
    var pageObject := contentObject + 1;
    objects[contentObject] := StreamObject(content);
    objects[pageObject] := PageObject(contentObject);
    kid := Itoa(pageObject) + " 0 R";
  }

  lemma KidsSnoc(n: nat, kid: string)
    requires kid == Itoa(5 + 2 * n) + " 0 R"
    ensures Kids(n) + [kid] == Kids(n + 1)
  {
  }

  method FillPage(lines: seq<string>, ghost pageCount: nat, objects: array<string>, ghost wanted: seq<string>, i: nat)
    returns (kid: string)
    requires objects.Length == |wanted| && i < pageCount && PagesAt(lines, wanted, pageCount)
    requires objects[4..4 + 2 * i] == wanted[4..4 + 2 * i]
    modifies objects
    ensures objects[4..6 + 2 * i] == wanted[4..6 + 2 * i] && objects[..4] == old(objects[..4])
    ensures kid == Itoa(5 + 2 * i) + " 0 R"
  {
    ghost var before := objects[..];
    assert PageAt(lines, wanted, i);
    kid := WritePage(PageLines(lines, i), objects, 4 + 2 * i, wanted[4 + 2 * i], wanted[5 + 2 * i]);
    PageFilled(before, objects[..], wanted, i);
  }

  /** Fill the page slots of the object table; returns the references to the pages. */
  method FillPages(lines: seq<string>, pageCount: nat, objects: array<string>, ghost wanted: seq<string>)
    returns (kids: seq<string>)
    requires objects.Length == |wanted| && PagesAt(lines, wanted, pageCount)
    modifies objects
    ensures objects[4..] == wanted[4..] && objects[..4] == old(objects[..4])
    ensures kids == Kids(pageCount)
  {
    kids := [];
    for i := 0 to pageCount
      invariant objects[4..4 + 2 * i] == wanted[4..4 + 2 * i] && objects[..4] == old(objects[..4])
      invariant kids == Kids(i)
    {
      var kid := FillPage(lines, pageCount, objects, wanted, i);
      KidsSnoc(i, kid);
      kids := kids + [kid];
    }
    assert objects[4..] == objects[4..4 + 2 * pageCount] && wanted[4..] == wanted[4..4 + 2 * pageCount];
  }

  /** Two more slots filled. */
  lemma PageFilled(before: seq<string>, after: seq<string>, wanted: seq<string>, i: nat)
    requires |before| == |wanted| && 5 + 2 * i < |wanted| && before[4..4 + 2 * i] == wanted[4..4 + 2 * i]
    requires after == before[4 + 2 * i := wanted[4 + 2 * i]][5 + 2 * i := wanted[5 + 2 * i]]
    ensures after[4..6 + 2 * i] == wanted[4..6 + 2 * i] && after[..4] == before[..4]
  {
    forall k | 4 <= k < 4 + 2 * i ensures after[k] == wanted[k] {
      assert before[4..4 + 2 * i][k - 4] == wanted[4..4 + 2 * i][k - 4];
    }
  }

  lemma TableComplete(table: seq<string>, wanted: seq<string>)
    requires |table| == |wanted| >= 4 && table[4..] == wanted[4..]
    requires table[0] == wanted[0] && table[1] == wanted[1] && table[2] == wanted[2] && table[3] == wanted[3]
    ensures table == wanted
  {
    forall k | 4 <= k < |table| ensures table[k] == wanted[k] {
      assert table[4..][k - 4] == wanted[4..][k - 4];
    }
  }

  method BuildObjects(lines: seq<string>) returns (objects: array<string>)
    ensures fresh(objects) && objects[..] == Objects(lines)
  {
    var pageCount := PageCount(|lines|);
    objects := new string[4 + pageCount * 2](_ => "");
    objects[1] := CATALOG;
    objects[3] := FONT;
    forall i: nat | i < pageCount ensures PageAt(lines, Objects(lines), i) {
      PageSlots(lines, i);
    }
    ghost var head := objects[..4];
    var kids := FillPages(lines, pageCount, objects, Objects(lines));
    var joined := Join(kids, " ");
    ghost var rest := objects[4..];
    objects[2] := PagesObject(joined, pageCount);
    FixedSlots(lines);
    assert objects[0] == head[0] && objects[1] == head[1] && objects[3] == head[3];
    assert objects[4..] == rest;
    TableComplete(objects[..], Objects(lines));
  }

  /** Write the objects, recording where each one starts. */
  method WriteBody(objects: array<string>) returns (file: string, offsets: array<nat>)
    requires objects.Length > 0
    ensures fresh(offsets) && offsets.Length == objects.Length
    ensures file == Body(objects[..], objects.Length - 1)
    ensures offsets[..] == Offsets(objects[..])
  {
    offsets := new nat[objects.Length](_ => 0);
    file := HEADER;
    for i := 1 to objects.Length
      invariant file == Body(objects[..], i - 1) && offsets[0] == 0
      invariant forall k :: 1 <= k < i ==> offsets[k] == Offset(objects[..], k)
    {
      offsets[i] := |file|;
      file := file + ObjectText(i, objects[i]);
    }
  }

  method WriteEntries(offsets: array<nat>) returns (entries: string)
    requires offsets.Length > 0
    ensures entries == Entries(offsets[..], offsets.Length - 1)
  {
    entries := "";
    for i := 1 to offsets.Length
      invariant entries == Entries(offsets[..], i - 1)
    {
      entries := entries + (XrefOffset(offsets[i]) + IN_USE);
    }
  }

  /** Everything after the objects. */
  method WriteEnd(body: string, offsets: array<nat>) returns (pdf: string)
    requires offsets.Length > 0
    ensures pdf == body + XrefHead(offsets.Length) + FREE_ENTRY + Entries(offsets[..], offsets.Length - 1)
                   + (TrailerHead(offsets.Length) + Tail(|body|))
  {
    var xrefOffset := |body|;
    pdf := body + XrefHead(offsets.Length) + FREE_ENTRY;
    var entries := WriteEntries(offsets);
    pdf := pdf + entries;
    pdf := pdf + (TrailerHead(offsets.Length) + Tail(xrefOffset));
  }

  method WriteDocument(objects: array<string>) returns (pdf: string)
    requires objects.Length > 0
    ensures pdf == Document(objects[..])
  {
    var offsets;
    pdf, offsets := WriteBody(objects);
    pdf := WriteEnd(pdf, offsets);
  }

  method AuditLogsPDF(lines: seq<string>) returns (pdf: string)
    ensures pdf == Document(Objects(lines))
  {
    var objects := BuildObjects(lines);
    pdf := WriteDocument(objects);
  }
}
