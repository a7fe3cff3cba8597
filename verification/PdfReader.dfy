/**
 * Reading the audit PDF back from its bytes: from startxref through the cross-reference table, the trailer, the
 * catalog and the page tree to the text of every page.
 */
module PdfReader {
  import opened Prelude
  import opened Decimal
  import opened PdfText
  import opened PdfWriter

  // ---------------------------------------------------------------- numbers and fixed text

  /** The position after a given text. */
  function Expect(file: string, pos: nat, text: string): (next: Option<nat>)
    ensures next.Some? ==> next.value == pos + |text| <= |file|
  {
    if At(file, pos, text) then Some(pos + |text|) else None
  }

  /** An unsigned number and the position after it. */
  function Number(file: string, pos: nat): (r: Option<(nat, nat)>)
    ensures r.Some? ==> pos < r.value.1 <= |file|
  {
    if pos < |file| && IsDigit(file[pos]) then Some(Digits(file, pos + 1, DigitValue(file[pos]))) else None
  }

  /** The rest of a number whose first digits denote `value`. */
  function Digits(file: string, pos: nat, value: nat): (r: (nat, nat))
    requires pos <= |file|
    ensures pos <= r.1 <= |file|
    decreases |file| - pos
  {
    if pos < |file| && IsDigit(file[pos]) then Digits(file, pos + 1, value * 10 + DigitValue(file[pos]))
    else (value, pos)
  }

  /** A number between two fixed texts, and the position after them. */
  function Field(file: string, pos: nat, open: string, close: string): (r: Option<(nat, nat)>)
    ensures r.Some? ==> pos < r.value.1 <= |file|
  {
    var start := Expect(file, pos, open);
    if start.None? then None
    else
      var number := Number(file, start.value);
      if number.None? then None
      else
        var end := Expect(file, number.value.1, close);
        if end.None? then None else Some((number.value.0, end.value))
  }

  lemma AtIndex(file: string, pos: nat, text: string, i: nat)
    requires At(file, pos, text) && i < |text|
    ensures file[pos + i] == text[i]
  {
    assert file[pos..pos + |text|][i] == file[pos + i];
  }

  lemma ValueStep(digits: string, k: nat)
    requires AllDigits(digits) && k < |digits|
    ensures Value(digits[..k + 1]) == Value(digits[..k]) * 10 + DigitValue(digits[k])
  {
    assert digits[..k + 1][..k] == digits[..k];
  }

  lemma {:induction false} DigitsRead(file: string, pos: nat, digits: string, k: nat, value: nat)
    requires AllDigits(digits) && At(file, pos, digits) && k <= |digits| && value == Value(digits[..k])
    requires pos + |digits| < |file| ==> !IsDigit(file[pos + |digits|])
    ensures Digits(file, pos + k, value) == (Value(digits), pos + |digits|)
    decreases |digits| - k
  {
    if k < |digits| {
      AtIndex(file, pos, digits, k);
      ValueStep(digits, k);
      DigitsRead(file, pos, digits, k + 1, value * 10 + DigitValue(digits[k]));
    } else {
      assert digits[..k] == digits;
    }
  }

  lemma NumberReads(file: string, pos: nat, digits: string)
    requires digits != "" && AllDigits(digits) && At(file, pos, digits)
    requires pos + |digits| < |file| ==> !IsDigit(file[pos + |digits|])
    ensures Number(file, pos) == Some((Value(digits), pos + |digits|))
  {
    AtIndex(file, pos, digits, 0);
    ValueStep(digits, 0);
    assert digits[..0] == "";
    DigitsRead(file, pos, digits, 1, DigitValue(digits[0]));
  }

  lemma AtTwo(file: string, pos: nat, first: string, second: string)
    requires At(file, pos, first + second)
    ensures At(file, pos, first) && At(file, pos + |first|, second)
  {
    assert first + second == "" + first + second && first + second == first + second + "";
    AtPart(file, pos, "", first, second);
    AtPart(file, pos, first, second, "");
  }

  lemma AtThree(file: string, pos: nat, first: string, second: string, third: string, rest: string)
    requires At(file, pos, first + second + third + rest)
    ensures At(file, pos, first) && At(file, pos + |first|, second)
    ensures At(file, pos + |first| + |second|, third) && At(file, pos + |first| + |second| + |third|, rest)
  {
    AtTwo(file, pos, first + second + third, rest);
    AtTwo(file, pos, first + second, third);
    AtTwo(file, pos, first, second);
  }

  lemma FieldFrom(file: string, pos: nat, open: string, close: string, value: nat, end: nat)
    requires At(file, pos, open) && Number(file, pos + |open|) == Some((value, end)) && At(file, end, close)
    ensures Field(file, pos, open, close) == Some((value, end + |close|))
  {
  }

  lemma FieldParts(file: string, pos: nat, open: string, digits: string, close: string,
                   value: nat, start: nat, end: nat)
    requires At(file, pos, open) && At(file, start, digits) && At(file, end, close)
    requires start == pos + |open| && end == start + |digits|
    requires digits != "" && AllDigits(digits) && value == Value(digits) && close != "" && !IsDigit(close[0])
    ensures Field(file, pos, open, close) == Some((value, end + |close|))
  {
    AtIndex(file, end, close, 0);
    NumberReads(file, start, digits);
    FieldFrom(file, pos, open, close, value, end);
  }

  /** A field reads back its number; what follows it stands at the position after. */
  lemma FieldReads(file: string, pos: nat, open: string, n: nat, close: string, rest: string) returns (next: nat)
    requires close != "" && !IsDigit(close[0]) && At(file, pos, open + Itoa(n) + close + rest)
    ensures Field(file, pos, open, close) == Some((n, next)) && At(file, next, rest)
  {
    ItoaDenotes(n);
    next := DigitsField(file, pos, open, Itoa(n), n, close, rest);
  }

  lemma DigitsField(file: string, pos: nat, open: string, digits: string, value: nat, close: string, rest: string)
    returns (next: nat)
    requires digits != "" && AllDigits(digits) && value == Value(digits) && close != "" && !IsDigit(close[0])
    requires At(file, pos, open + digits + close + rest)
    ensures Field(file, pos, open, close) == Some((value, next)) && At(file, next, rest)
    ensures next == pos + |open| + |digits| + |close|
  {
    AtThree(file, pos, open, digits, close, rest);
    var start := pos + |open|;
    FieldParts(file, pos, open, digits, close, value, start, start + |digits|);
    next := start + |digits| + |close|;
  }

  // ---------------------------------------------------------------- the cross-reference table

  const EOF_MARK := "\n%%EOF\n"
  const START_MARK := "startxref\n"

  /** Where the run of digits that ends here starts. */
  function DigitsBack(file: string, end: nat): (start: nat)
    requires end <= |file|
    ensures start <= end
  {
    if end > 0 && IsDigit(file[end - 1]) then DigitsBack(file, end - 1) else end
  }

  lemma {:induction false} DigitsBackStop(file: string, start: nat, end: nat)
    requires 0 < start <= end <= |file| && !IsDigit(file[start - 1])
    requires forall i :: start <= i < end ==> IsDigit(file[i])
    ensures DigitsBack(file, end) == start
  {
    if start < end { DigitsBackStop(file, start, end - 1); }
  }

  /** The number that ends here, if this text stands before it. */
  function NumberBefore(file: string, end: nat, open: string): Option<nat>
    requires end <= |file|
  {
    var start := DigitsBack(file, end);
    if start < |open| || !At(file, start - |open|, open) then None
    else
      var number := Number(file, start);
      if number.None? then None else Some(number.value.0)
  }

  /** The number between startxref and the end-of-file mark (ISO 32000-1, section 7.5.5). */
  function StartXref(file: string): Option<nat> {
    if |file| < |EOF_MARK| || !At(file, |file| - |EOF_MARK|, EOF_MARK) then None
    else NumberBefore(file, |file| - |EOF_MARK|, START_MARK)
  }

  /** The table, once found: where its entries start, and how many they are. */
  datatype Table = Table(entries: nat, size: nat)

  function ReadTable(file: string, xref: nat): Option<Table> {
    var head := Field(file, xref, "xref\n0 ", "\n");
    if head.None? then None else Some(Table(head.value.1, head.value.0))
  }

  /** The object number after /Root in the trailer, which follows the entries. */
  function ReadRoot(file: string, table: Table): Option<nat> {
    var size := Field(file, table.entries + 20 * table.size, "trailer\n<< /Size ", " /Root ");
    if size.None? || size.value.0 != table.size then None
    else
      var root := Field(file, size.value.1, "", " 0 R >>\n");
      if root.None? then None else Some(root.value.0)
  }

  /** Where the body of an object starts. */
  function OpenObject(file: string, table: Table, i: nat): Option<nat> {
    var position := table.entries + 20 * i;
    if i == 0 || i >= table.size || position + 20 > |file| then None
    else if !AllDigits(file[position..position + 10]) || file[position + 10..position + 20] != IN_USE then None
    else Expect(file, Value(file[position..position + 10]), Itoa(i) + " 0 obj\n")
  }

  // ---------------------------------------------------------------- the page tree

  const END_REFERENCE := " 0 R >>\nendobj\n"
  const END_OBJECT := "\nendobj\n"

  /** References separated by single spaces. */
  function References(file: string, pos: nat): (r: Option<(seq<nat>, nat)>)
    decreases |file| - pos
  {
    var first := Field(file, pos, "", " 0 R");
    if first.None? then None
    else if !At(file, first.value.1, " ") then Some(([first.value.0], first.value.1))
    else
      var others := References(file, first.value.1 + 1);
      if others.None? then None else Some(([first.value.0] + others.value.0, others.value.1))
  }

  function ReadCatalog(file: string, table: Table, root: nat): Option<nat> {
    var pos := OpenObject(file, table, root);
    if pos.None? then None else TreeAt(file, pos.value)
  }

  /** The object that holds the page tree. */
  function TreeAt(file: string, pos: nat): Option<nat> {
    var pages := Field(file, pos, "<< /Type /Catalog /Pages ", END_REFERENCE);
    if pages.None? then None else Some(pages.value.0)
  }

  function ReadPages(file: string, table: Table, pages: nat): Option<seq<nat>> {
    var pos := OpenObject(file, table, pages);
    if pos.None? then None else KidsAt(file, pos.value)
  }

  /** The references of the page tree, as many as it says. */
  function KidsAt(file: string, pos: nat): Option<seq<nat>> {
    var open := Expect(file, pos, "<< /Type /Pages /Kids [");
    if open.None? then None
    else
      var kids := References(file, open.value);
      if kids.None? then None
      else
        var count := Field(file, kids.value.1, "] /Count ", " >>" + END_OBJECT);
        if count.None? || count.value.0 != |kids.value.0| then None else Some(kids.value.0)
  }

  /** The object that holds a page's contents. */
  function ContentsAt(file: string, pos: nat): Option<nat> {
    var contents := Field(file, pos, PAGE_HEAD, END_REFERENCE);
    if contents.None? then None else Some(contents.value.0)
  }

  /** The content of a stream object, by its Length entry (ISO 32000-1, section 7.3.8). */
  function StreamAt(file: string, pos: nat): Option<string> {
    var length := Field(file, pos, "<< /Length ", " >>\nstream\n");
    if length.None? then None
    else
      var (n, start) := length.value;
      if start + n > |file| || !At(file, start + n, "\nendstream" + END_OBJECT) then None
      else Some(file[start..start + n])
  }

  /** The lines shown on one page. */
  function ReadOnePage(file: string, table: Table, page: nat): Option<seq<string>> {
    var pos := OpenObject(file, table, page);
    if pos.None? then None
    else
      var contents := ContentsAt(file, pos.value);
      if contents.None? then None
      else
        var stream := OpenObject(file, table, contents.value);
        if stream.None? then None
        else
          var content := StreamAt(file, stream.value);
          if content.None? then None else ReadPage(content.value)
  }

  function ReadAllPages(file: string, table: Table, pages: seq<nat>): Option<seq<string>> {
    if pages == [] then Some([])
    else
      var before, last := ReadAllPages(file, table, Front(pages)), ReadOnePage(file, table, Last(pages));
      if before.None? || last.None? then None else Some(before.value + last.value)
  }

  /** The text of a document, from its bytes alone. */
  function ReadDocument(file: string): Option<seq<string>> {
    var xref := StartXref(file);
    if xref.None? then None
    else
      var table := ReadTable(file, xref.value);
      if table.None? then None
      else
        var root := ReadRoot(file, table.value);
        if root.None? then None
        else
          var tree := ReadCatalog(file, table.value, root.value);
          if tree.None? then None
          else
            var pages := ReadPages(file, table.value, tree.value);
            if pages.None? then None else ReadAllPages(file, table.value, pages.value)
  }

  // ---------------------------------------------------------------- finding objects

  lemma StartReads(file: string, xref: nat, base: nat, digits: string)
    requires digits == Itoa(xref) && |file| == base + |Tail(xref)| && At(file, base, Tail(xref))
    ensures StartXref(file) == Some(xref)
  {
    ItoaDenotes(xref);
    AtTwo(file, base, START_MARK + digits, EOF_MARK);
    AtTwo(file, base, START_MARK, digits);
    StartDecodes(file, base, digits, base + |START_MARK|, base + |START_MARK| + |digits|);
  }

  lemma DigitsBackReads(file: string, start: nat, end: nat, digits: string)
    requires AllDigits(digits) && 0 < start && end == start + |digits| && At(file, start, digits)
    requires !IsDigit(file[start - 1])
    ensures DigitsBack(file, end) == start
  {
    forall i | start <= i < end ensures IsDigit(file[i]) { AtIndex(file, start, digits, i - start); }
    DigitsBackStop(file, start, end);
  }

  lemma NumberBeforeReads(file: string, base: nat, open: string, digits: string, start: nat, end: nat)
    requires digits != "" && AllDigits(digits) && start == base + |open| && end == start + |digits|
    requires open != "" && !IsDigit(Last(open)) && At(file, base, open) && At(file, start, digits)
    requires end < |file| && !IsDigit(file[end])
    ensures NumberBefore(file, end, open) == Some(Value(digits))
  {
    AtIndex(file, base, open, |open| - 1);
    DigitsBackReads(file, start, end, digits);
    NumberReads(file, start, digits);
  }

  lemma MarkStops(file: string, end: nat)
    requires At(file, end, EOF_MARK)
    ensures end < |file| && !IsDigit(file[end])
  {
    MarkEnds();
    AtIndex(file, end, EOF_MARK, 0);
  }

  lemma StartFrom(file: string, end: nat, number: Option<nat>)
    requires |file| == end + |EOF_MARK| && At(file, end, EOF_MARK) && number == NumberBefore(file, end, START_MARK)
    ensures StartXref(file) == number
  {
  }

  lemma StartDecodes(file: string, base: nat, digits: string, start: nat, end: nat)
    requires digits != "" && AllDigits(digits) && start == base + |START_MARK| && end == start + |digits|
    requires |file| == end + |EOF_MARK| && At(file, base, START_MARK) && At(file, start, digits)
    requires At(file, end, EOF_MARK)
    ensures StartXref(file) == Some(Value(digits))
  {
    MarkEnds();
    MarkStops(file, end);
    NumberBeforeReads(file, base, START_MARK, digits, start, end);
    StartFrom(file, end, Some(Value(digits)));
  }

  lemma MarkEnds()
    ensures START_MARK != "" && !IsDigit(Last(START_MARK)) && EOF_MARK != "" && !IsDigit(EOF_MARK[0])
  {
  }

  lemma HeadReads(file: string, xref: nat, size: nat, start: nat)
    requires At(file, xref, XrefHead(size)) && start == xref + |XrefHead(size)|
    ensures ReadTable(file, xref) == Some(Table(start, size))
  {
    assert XrefHead(size) + "" == XrefHead(size);
    ItoaDenotes(size);
    var next := DigitsField(file, xref, "xref\n0 ", Itoa(size), size, "\n", "");
  }

  lemma TrailerShape(size: nat)
    ensures TrailerHead(size) == "trailer\n<< /Size " + Itoa(size) + " /Root " + ("" + Itoa(1) + " 0 R >>\n" + "")
  {
    assert Itoa(1) == "1";
    assert " /Root 1 0 R >>\n" == " /Root " + "1 0 R >>\n";
  }

  lemma RootReads(file: string, table: Table)
    requires At(file, table.entries + 20 * table.size, TrailerHead(table.size))
    ensures ReadRoot(file, table) == Some(1)
  {
    var pos, rest := table.entries + 20 * table.size, "" + Itoa(1) + " 0 R >>\n" + "";
    TrailerShape(table.size);
    var next := FieldReads(file, pos, "trailer\n<< /Size ", table.size, " /Root ", rest);
    var end := FieldReads(file, next, "", 1, " 0 R >>\n", "");
  }

  /** An object that the table locates is found, and its body stands there. */
  lemma ObjectOpens(file: string, table: Table, i: nat, offset: nat, body: string)
    requires 1 <= i < table.size && InUseAt(file, table.entries + 20 * i, offset)
    requires At(file, offset, ObjectText(i, body))
    ensures Holds(file, table, i, body)
  {
    var head := Itoa(i) + " 0 obj\n";
    Associate(head, body, END_OBJECT);
    AtTwo(file, offset, head, body + END_OBJECT);
  }

  /** Opening object i leads to this body. */
  ghost predicate Holds(file: string, table: Table, i: nat, body: string) {
    OpenObject(file, table, i).Some? && At(file, OpenObject(file, table, i).value, body + END_OBJECT)
  }

  /** All that a reader needs: the table is found, the catalog is object 1, and every object stands where it should. */
  ghost predicate Written(file: string, table: Table, objects: seq<string>) {
    && StartXref(file).Some? && ReadTable(file, StartXref(file).value) == Some(table)
    && ReadRoot(file, table) == Some(1)
    && forall i: nat :: 1 <= i < |objects| ==> Holds(file, table, i, objects[i])
  }

  lemma TrailerSection(a: string, b: string, c: string, d: string, e: string, f: string)
    ensures At(a + b + c + d + (e + f), |a| + |b| + |c| + |d|, e)
  {
    Associate(a + b + c + d, e, f);
    AtConcat(a + b + c + d, e, f);
  }

  lemma EntriesLength(offsets: seq<nat>, n: nat)
    requires 1 <= n < |offsets| && forall k :: 1 <= k <= n ==> offsets[k] < MAX_FILE_SIZE
    ensures |Entries(offsets, n)| == 20 * n
  {
    EntryInTable(offsets, n, n);
  }

  lemma TrailerAfter(body: string, head: string, free: string, entries: string, trailer: string, tail: string,
                     start: nat, size: nat)
    requires |free| == 20 && size > 0 && |entries| == 20 * (size - 1) && start == |body| + |head|
    ensures At(body + head + free + entries + (trailer + tail), start + 20 * size, trailer)
  {
    TrailerSection(body, head, free, entries, trailer, tail);
  }

  lemma TrailerInDocument(objects: seq<string>)
    requires |objects| > 1 && |Body(objects, |objects| - 1)| < MAX_FILE_SIZE
    ensures At(Document(objects), EntryPosition(objects, 0) + 20 * |objects|, TrailerHead(|objects|))
  {
    var n := |objects| - 1;
    var body, entries := Body(objects, n), Entries(Offsets(objects), n);
    OffsetsFit(objects);
    EntriesLength(Offsets(objects), n);
    EntrySizes();
    TrailerAfter(body, XrefHead(|objects|), FREE_ENTRY, entries, TrailerHead(|objects|), Tail(|body|),
                 EntryPosition(objects, 0), |objects|);
  }

  lemma BodyFits(objects: seq<string>)
    requires objects != [] && |Document(objects)| < MAX_FILE_SIZE
    ensures |Body(objects, |objects| - 1)| < MAX_FILE_SIZE
  {
    BodyStartsFile(objects);
  }

  lemma ObjectsHold(objects: seq<string>, file: string, table: Table, i: nat)
    requires 1 <= i < |objects| && file == Document(objects) && |file| < MAX_FILE_SIZE
    requires table == Table(EntryPosition(objects, 0), |objects|)
    ensures Holds(file, table, i, objects[i])
  {
    FileIsIndexed(objects, i);
    ObjectOpens(file, table, i, Offset(objects, i), objects[i]);
  }

  lemma TableHolds(file: string, xref: nat, size: nat, table: Table)
    requires |Tail(xref)| <= |file| && At(file, |file| - |Tail(xref)|, Tail(xref)) && At(file, xref, XrefHead(size))
    requires table == Table(xref + |XrefHead(size)|, size)
    ensures StartXref(file).Some? && ReadTable(file, StartXref(file).value) == Some(table)
  {
    StartReads(file, xref, |file| - |Tail(xref)|, Itoa(xref));
    HeadReads(file, xref, size, table.entries);
  }

  /** Every document the writer makes can be navigated. */
  lemma DocumentIsWritten(objects: seq<string>, file: string, table: Table)
    requires |objects| > 1 && file == Document(objects) && |file| < MAX_FILE_SIZE
    requires table == Table(EntryPosition(objects, 0), |objects|)
    ensures Written(file, table, objects)
  {
    TableIsFound(objects);
    TableHolds(file, |Body(objects, |objects| - 1)|, |objects|, table);
    RootIsWritten(objects, file, table);
    forall i: nat | 1 <= i < |objects| ensures Holds(file, table, i, objects[i]) {
      ObjectsHold(objects, file, table, i);
    }
  }

  /** Where the trailer stands. */
  lemma TrailerStands(objects: seq<string>, file: string, start: nat, size: nat)
    requires |objects| > 1 && file == Document(objects) && |file| < MAX_FILE_SIZE
    requires start == EntryPosition(objects, 0) && size == |objects|
    ensures At(file, start + 20 * size, TrailerHead(size))
  {
    BodyFits(objects);
    TrailerInDocument(objects);
  }

  lemma RootIsWritten(objects: seq<string>, file: string, table: Table)
    requires |objects| > 1 && file == Document(objects) && |file| < MAX_FILE_SIZE
    requires table == Table(EntryPosition(objects, 0), |objects|)
    ensures ReadRoot(file, table) == Some(1)
  {
    TrailerStands(objects, file, table.entries, table.size);
    RootReads(file, table);
  }

  // ---------------------------------------------------------------- reading the tree

  lemma CatalogShape(open: string, middle: string, end: string, digits: string, close: string)
    requires middle + end == digits + close
    ensures open + middle + end == open + digits + close + ""
  {
    Associate(open, middle, end);
    Associate(open, digits, close);
  }

  lemma CatalogReads(file: string, pos: nat)
    requires At(file, pos, CATALOG + END_OBJECT)
    ensures TreeAt(file, pos) == Some(2)
  {
    var open := "<< /Type /Catalog /Pages ";
    assert Itoa(2) == "2";
    assert "2 0 R >>" + END_OBJECT == Itoa(2) + END_REFERENCE;
    CatalogShape(open, "2 0 R >>", END_OBJECT, Itoa(2), END_REFERENCE);
    var next := FieldReads(file, pos, open, 2, END_REFERENCE, "");
  }

  function PageIds(n: nat): (ids: seq<nat>)
    ensures |ids| == n
  {
    seq(n, i requires 0 <= i < n => 5 + 2 * i)
  }

  /** References written one after the other. */
  function ReferenceText(ids: seq<nat>): string
    requires ids != []
  {
    if |ids| == 1 then Itoa(ids[0]) + " 0 R" else Itoa(ids[0]) + " 0 R" + (" " + ReferenceText(ids[1..]))
  }

  function ReferenceParts(ids: seq<nat>): (parts: seq<string>)
    ensures |parts| == |ids|
  {
    seq(|ids|, i requires 0 <= i < |ids| => Itoa(ids[i]) + " 0 R")
  }

  lemma JoinOne(parts: seq<string>, separator: string)
    requires |parts| == 1
    ensures JoinText(parts, separator) == parts[0]
  {
    assert Front(parts) == [] && "" + "" + parts[0] == parts[0];
  }

  lemma JoinSnoc(parts: seq<string>, separator: string)
    requires |parts| > 1
    ensures JoinText(parts, separator) == JoinText(Front(parts), separator) + separator + Last(parts)
  {
  }

  lemma JoinAssociates(head: string, separator: string, middle: string, last: string)
    ensures head + (separator + middle) + separator + last == head + (separator + (middle + separator + last))
    ensures head + separator + last == head + (separator + last)
  {
  }

  lemma {:induction false} JoinHead(parts: seq<string>, separator: string, rest: seq<string>)
    requires |parts| > 1 && rest == parts[1..]
    ensures JoinText(parts, separator) == parts[0] + (separator + JoinText(rest, separator))
  {
    var front := Front(parts);
    JoinSnoc(parts, separator);
    assert Last(rest) == Last(parts) && front[0] == parts[0];
    if |front| == 1 {
      JoinOne(front, separator);
      JoinOne(rest, separator);
      JoinAssociates(parts[0], separator, "", Last(parts));
    } else {
      assert Front(rest) == front[1..];
      JoinHead(front, separator, Front(rest));
      JoinSnoc(rest, separator);
      JoinAssociates(parts[0], separator, JoinText(Front(rest), separator), Last(parts));
    }
  }

  lemma {:induction false} JoinedReferences(ids: seq<nat>, parts: seq<string>)
    requires ids != [] && parts == ReferenceParts(ids)
    ensures JoinText(parts, " ") == ReferenceText(ids)
  {
    if |ids| == 1 {
      JoinOne(parts, " ");
    } else {
      JoinHead(parts, " ", parts[1..]);
      assert parts[1..] == ReferenceParts(ids[1..]);
      JoinedReferences(ids[1..], parts[1..]);
    }
  }

  lemma ReferenceSplits(digits: string, mark: string, more: string, rest: string)
    ensures digits + mark + more + rest == "" + digits + mark + (more + rest)
    ensures digits + mark + rest == "" + digits + mark + rest
  {
  }

  lemma NotHere(file: string, pos: nat, rest: string, c: char)
    requires rest != "" && rest[0] != c && At(file, pos, rest)
    ensures !At(file, pos, [c])
  {
    AtIndex(file, pos, rest, 0);
    CharHere(file, pos, c);
  }

  lemma CharHere(file: string, pos: nat, c: char)
    ensures At(file, pos, [c]) ==> pos < |file| && file[pos] == c
  {
    if At(file, pos, [c]) { AtIndex(file, pos, [c], 0); }
  }

  lemma LastReference(file: string, pos: nat, id: nat, next: nat)
    requires Field(file, pos, "", " 0 R") == Some((id, next)) && !At(file, next, " ")
    ensures References(file, pos) == Some(([id], next))
  {
  }

  lemma FirstReference(file: string, pos: nat, id: nat, next: nat, others: seq<nat>, end: nat)
    requires Field(file, pos, "", " 0 R") == Some((id, next)) && At(file, next, " ")
    requires References(file, next + 1) == Some((others, end))
    ensures References(file, pos) == Some(([id] + others, end))
  {
  }

  lemma OneReference(file: string, pos: nat, id: nat, text: string, digits: string, rest: string) returns (end: nat)
    requires digits == Itoa(id) && text == digits + " 0 R"
    requires rest != "" && rest[0] != ' ' && At(file, pos, text + rest)
    ensures References(file, pos) == Some(([id], end)) && At(file, end, rest)
  {
    ItoaDenotes(id);
    ReferenceSplits(digits, " 0 R", "", rest);
    end := DigitsField(file, pos, "", digits, id, " 0 R", rest);
    NotHere(file, end, rest, ' ');
    LastReference(file, pos, id, end);
  }

  /** The first of several references. */
  lemma NextReference(file: string, pos: nat, id: nat, digits: string, others: string, rest: string)
    returns (next: nat)
    requires digits == Itoa(id) && At(file, pos, digits + " 0 R" + (" " + others) + rest)
    ensures Field(file, pos, "", " 0 R") == Some((id, next)) && At(file, next, " ") && At(file, next + 1, others + rest)
  {
    ItoaDenotes(id);
    ReferenceSplits(digits, " 0 R", " " + others, rest);
    next := DigitsField(file, pos, "", digits, id, " 0 R", " " + others + rest);
    Associate(" ", others, rest);
    AtTwo(file, next, " ", others + rest);
  }

  lemma ReferenceStep(ids: seq<nat>, others: seq<nat>)
    requires |ids| > 1 && others == ids[1..]
    ensures ReferenceText(ids) == Itoa(ids[0]) + " 0 R" + (" " + ReferenceText(others)) && ids == [ids[0]] + others
  {
  }

  /** The references read back, up to something that is not a space. */
  lemma {:induction false} ReferencesRead(file: string, pos: nat, ids: seq<nat>, text: string, rest: string)
    returns (end: nat)
    requires ids != [] && text == ReferenceText(ids)
    requires rest != "" && rest[0] != ' ' && At(file, pos, text + rest)
    ensures References(file, pos) == Some((ids, end)) && At(file, end, rest)
    decreases |ids|, 0
  {
    if |ids| == 1 {
      end := OneReference(file, pos, ids[0], text, Itoa(ids[0]), rest);
      assert ids == [ids[0]];
    } else {
      var others := ids[1..];
      ReferenceStep(ids, others);
      end := MoreReferences(file, pos, ids[0], others, ReferenceText(others), rest, text);
    }
  }

  lemma {:induction false} MoreReferences(file: string, pos: nat, id: nat, others: seq<nat>, otherText: string,
                                          rest: string, text: string)
    returns (end: nat)
    requires others != [] && otherText == ReferenceText(others) && text == Itoa(id) + " 0 R" + (" " + otherText)
    requires rest != "" && rest[0] != ' ' && At(file, pos, text + rest)
    ensures References(file, pos) == Some(([id] + others, end)) && At(file, end, rest)
    decreases |others|, 1
  {
    var next := NextReference(file, pos, id, Itoa(id), otherText, rest);
    end := ReferencesRead(file, next + 1, others, otherText, rest);
    FirstReference(file, pos, id, next, others, end);
  }

  lemma PagesShape(open: string, kids: string, middle: string, digits: string, close: string, end: string)
    requires middle != "" && middle[0] != ' '
    ensures var tail := middle + digits + (close + end) + "";
            && open + kids + middle + digits + close + end == open + (kids + tail)
            && tail != "" && tail[0] != ' '
  {
  }

  lemma KidsFrom(file: string, pos: nat, start: nat, ids: seq<nat>, next: nat)
    requires Expect(file, pos, "<< /Type /Pages /Kids [") == Some(start) && References(file, start) == Some((ids, next))
    requires Field(file, next, "] /Count ", " >>" + END_OBJECT).Some?
    requires Field(file, next, "] /Count ", " >>" + END_OBJECT).value.0 == |ids|
    ensures KidsAt(file, pos) == Some(ids)
  {
  }

  lemma KidsRead(file: string, pos: nat, ids: seq<nat>)
    requires ids != [] && At(file, pos, PagesObject(ReferenceText(ids), |ids|) + END_OBJECT)
    ensures KidsAt(file, pos) == Some(ids)
  {
    ItoaDenotes(|ids|);
    KidsReadFrom(file, pos, "<< /Type /Pages /Kids [", ids, ReferenceText(ids), "] /Count ", Itoa(|ids|), " >>");
  }

  lemma KidsReadFrom(file: string, pos: nat, open: string, ids: seq<nat>, kids: string, middle: string, digits: string,
                     close: string)
    requires open == "<< /Type /Pages /Kids [" && middle == "] /Count " && close == " >>"
    requires ids != [] && kids == ReferenceText(ids)
    requires digits != "" && AllDigits(digits) && Value(digits) == |ids|
    requires At(file, pos, open + kids + middle + digits + close + END_OBJECT)
    ensures KidsAt(file, pos) == Some(ids)
  {
    var tail := middle + digits + (close + END_OBJECT) + "";
    PagesShape(open, kids, middle, digits, close, END_OBJECT);
    AtTwo(file, pos, open, kids + tail);
    var next := ReferencesRead(file, pos + |open|, ids, kids, tail);
    var end := DigitsField(file, next, middle, digits, |ids|, close + END_OBJECT, "");
    KidsFrom(file, pos, pos + |open|, ids, next);
  }

  lemma StreamShape(head: string, content: string, foot: string, end: string)
    ensures head + content + foot + end == head + (content + (foot + end))
  {
  }

  /** Every stream's Length is the length of its content. */
  lemma StreamReads(file: string, pos: nat, content: string)
    requires At(file, pos, StreamObject(content) + END_OBJECT)
    ensures StreamAt(file, pos) == Some(content)
  {
    var open, close, foot := "<< /Length ", " >>\nstream\n", "\nendstream";
    StreamShape(open + Itoa(|content|) + close, content, foot, END_OBJECT);
    var start := FieldReads(file, pos, open, |content|, close, content + (foot + END_OBJECT));
    AtTwo(file, start, content, foot + END_OBJECT);
  }

  lemma PageShape(head: string, digits: string, close: string, end: string)
    ensures head + digits + close + end == head + digits + (close + end) + ""
  {
  }

  lemma ContentsRead(file: string, pos: nat, contents: nat)
    requires At(file, pos, PageObject(contents) + END_OBJECT)
    ensures ContentsAt(file, pos) == Some(contents)
  {
    PageShape(PAGE_HEAD, Itoa(contents), " 0 R >>", END_OBJECT);
    assert " 0 R >>" + END_OBJECT == END_REFERENCE;
    var next := FieldReads(file, pos, PAGE_HEAD, contents, END_REFERENCE, "");
  }

  lemma OnePageReads(file: string, table: Table, page: nat, contents: nat, lines: seq<string>, content: string)
    requires Holds(file, table, page, PageObject(contents)) && Holds(file, table, contents, StreamObject(content))
    requires content == PageContent(lines)
    ensures ReadOnePage(file, table, page) == Some(SanitizeAll(lines))
  {
    ContentsRead(file, OpenObject(file, table, page).value, contents);
    StreamReads(file, OpenObject(file, table, contents).value, content);
    PageReads(lines);
  }

  // ---------------------------------------------------------------- the whole document

  lemma SanitizeConcat(s: seq<string>, t: seq<string>)
    ensures SanitizeAll(s + t) == SanitizeAll(s) + SanitizeAll(t)
  {
  }

  /** Every page reads back as its lines. */
  ghost predicate PagesRead(file: string, table: Table, lines: seq<string>) {
    forall i: nat :: i < PageCount(|lines|) ==>
      ReadOnePage(file, table, 5 + 2 * i) == Some(SanitizeAll(PageLines(lines, i)))
  }

  lemma {:induction false} AllPagesRead(file: string, table: Table, lines: seq<string>, n: nat, ids: seq<nat>)
    requires n <= PageCount(|lines|) && PagesRead(file, table, lines) && ids == PageIds(n)
    ensures ReadAllPages(file, table, ids) == Some(SanitizeAll(Paginated(lines, n)))
  {
    if n > 0 {
      var front := PageIds(n - 1);
      assert Front(ids) == front && Last(ids) == 5 + 2 * (n - 1);
      AllPagesRead(file, table, lines, n - 1, front);
      SanitizeConcat(Paginated(lines, n - 1), PageLines(lines, n - 1));
    } else {
      assert SanitizeAll([]) == [];
    }
  }

  lemma KidsAreReferences(n: nat)
    requires n > 0
    ensures JoinText(Kids(n), " ") == ReferenceText(PageIds(n))
  {
    assert Kids(n) == ReferenceParts(PageIds(n));
    JoinedReferences(PageIds(n), Kids(n));
  }

  /** What the object table of these lines holds. */
  ghost predicate TableFor(lines: seq<string>, objects: seq<string>, n: nat) {
    && |objects| > 3 && n > 0
    && objects[1] == CATALOG
    && objects[2] == PagesObject(JoinText(Kids(n), " "), n)
    && PagesAt(lines, objects, n)
  }

  lemma ObjectsAreTable(lines: seq<string>)
    ensures TableFor(lines, Objects(lines), PageCount(|lines|))
  {
    FixedSlots(lines);
    forall i: nat | i < PageCount(|lines|) ensures PageAt(lines, Objects(lines), i) { PageSlots(lines, i); }
  }

  lemma PagesReadFrom(file: string, table: Table, lines: seq<string>, objects: seq<string>, n: nat)
    requires Written(file, table, objects) && PagesAt(lines, objects, n)
    ensures PagesRead(file, table, lines)
  {
    forall i: nat | i < PageCount(|lines|)
      ensures ReadOnePage(file, table, 5 + 2 * i) == Some(SanitizeAll(PageLines(lines, i)))
    {
      assert PageAt(lines, objects, i);
      assert Holds(file, table, 5 + 2 * i, objects[5 + 2 * i]) && Holds(file, table, 4 + 2 * i, objects[4 + 2 * i]);
      OnePageReads(file, table, 5 + 2 * i, 4 + 2 * i, PageLines(lines, i), PageContent(PageLines(lines, i)));
    }
  }

  lemma TreeReads(file: string, table: Table, objects: seq<string>, n: nat, kids: string)
    requires Written(file, table, objects) && |objects| > 3 && n > 0 && kids == ReferenceText(PageIds(n))
    requires objects[1] == CATALOG && objects[2] == PagesObject(kids, n)
    ensures ReadCatalog(file, table, 1) == Some(2) && ReadPages(file, table, 2) == Some(PageIds(n))
  {
    assert Holds(file, table, 1, objects[1]) && Holds(file, table, 2, objects[2]);
    CatalogReads(file, OpenObject(file, table, 1).value);
    KidsRead(file, OpenObject(file, table, 2).value, PageIds(n));
  }

  lemma WrittenReadsBack(file: string, table: Table, lines: seq<string>, objects: seq<string>, n: nat)
    requires Written(file, table, objects) && TableFor(lines, objects, n) && n == PageCount(|lines|)
    ensures ReadDocument(file) == Some(SanitizeAll(lines))
  {
    KidsAreReferences(n);
    TreeReads(file, table, objects, n, JoinText(Kids(n), " "));
    PagesReadFrom(file, table, lines, objects, n);
    AllPagesRead(file, table, lines, n, PageIds(n));
    PaginationIsComplete(lines);
  }

  /**
   * For every list of lines whose file stays below 10^10 bytes: reading the file from its bytes, by way of startxref,
   * the cross-reference table, the trailer, the catalog, the page tree, each page and its stream, gives back exactly
   * the lines, in order, with control and foreign characters replaced.
   */
  lemma DocumentReadsBack(lines: seq<string>)
    requires |Document(Objects(lines))| < MAX_FILE_SIZE
    ensures ReadDocument(Document(Objects(lines))) == Some(SanitizeAll(lines))
  {
    var objects := Objects(lines);
    var table := Table(EntryPosition(objects, 0), |objects|);
    DocumentIsWritten(objects, Document(objects), table);
    ObjectsAreTable(lines);
    WrittenReadsBack(Document(objects), table, lines, objects, PageCount(|lines|));
  }
}
