/** The audit PDF is plain ASCII, whatever the records contain: every character of it is one byte. */
module PdfBytes {
  import opened Prelude
  import opened Decimal
  import opened PdfText
  import opened PdfWriter

  predicate Ascii(s: string) {
    forall i :: 0 <= i < |s| ==> s[i] as int < 128
  }

  /** Bytes of a character in UTF-8 (RFC 3629, section 3). */
  function Utf8Width(c: char): nat {
    if c as int < 0x80 then 1 else if c as int < 0x800 then 2 else if c as int < 0x1_0000 then 3 else 4
  }

  function ByteLength(s: string): nat {
    if s == "" then 0 else ByteLength(Front(s)) + Utf8Width(Last(s))
  }

  /** Bytes and characters count alike exactly in ASCII text. */
  lemma {:induction false} AsciiBytes(s: string)
    ensures ByteLength(s) >= |s|
    ensures ByteLength(s) == |s| <==> Ascii(s)
  {
    if s != "" {
      AsciiBytes(Front(s));
      assert s == Front(s) + [Last(s)];
    }
  }

  lemma AsciiConcat(s: string, t: string)
    ensures Ascii(s + t) <==> Ascii(s) && Ascii(t)
  {
    if Ascii(s + t) {
      forall i | 0 <= i < |s| ensures s[i] as int < 128 { assert (s + t)[i] == s[i]; }
      forall i | 0 <= i < |t| ensures t[i] as int < 128 { assert (s + t)[|s| + i] == t[i]; }
    }
  }

  lemma AsciiField(open: string, n: nat, close: string)
    requires Ascii(open) && Ascii(close)
    ensures Ascii(open + Itoa(n) + close) && Ascii(Itoa(n))
  {
    ItoaDenotes(n);
    AsciiConcat(open, Itoa(n));
    AsciiConcat(open + Itoa(n), close);
  }

  // ---------------------------------------------------------------- page contents

  lemma EscapedChar(c: char)
    ensures forall i :: 0 <= i < |EscapeChar(c)| ==> ' ' <= EscapeChar(c)[i] <= '~'
  {
  }

  /** Only printable ASCII gets through the escape, one character for one byte. */
  lemma {:induction false} EscapeIsPrintable(text: string)
    ensures forall i :: 0 <= i < |Escape(text)| ==> ' ' <= Escape(text)[i] <= '~'
  {
    if text != "" {
      EscapedChar(text[0]);
      EscapeIsPrintable(text[1..]);
    }
  }

  lemma LineIsAscii(line: string, first: bool)
    ensures Ascii(ShowLine(line, first))
  {
    EscapeIsPrintable(line);
    var separator := if first then "" else NEXT_LINE;
    AsciiConcat(separator, "(");
    AsciiConcat(separator + "(", Escape(line));
    AsciiConcat(separator + "(" + Escape(line), ")");
    AsciiConcat(separator + "(" + Escape(line) + ")", SHOW);
  }

  lemma {:induction false} LinesAreAscii(lines: seq<string>, first: bool)
    ensures Ascii(ShowLines(lines, first))
  {
    if lines != [] {
      LineIsAscii(lines[0], first);
      LinesAreAscii(lines[1..], false);
      AsciiConcat(ShowLine(lines[0], first), ShowLines(lines[1..], false));
    }
  }

  lemma PageIsAscii(lines: seq<string>)
    ensures Ascii(PageContent(lines))
  {
    LinesAreAscii(lines, true);
    AsciiConcat(OPEN_PAGE, ShowLines(lines, true));
    AsciiConcat(OPEN_PAGE + ShowLines(lines, true), CLOSE_PAGE);
  }

  // ---------------------------------------------------------------- objects

  lemma StreamIsAscii(content: string)
    requires Ascii(content)
    ensures Ascii(StreamObject(content))
  {
    var head := "<< /Length " + Itoa(|content|) + " >>\nstream\n";
    AsciiField("<< /Length ", |content|, " >>\nstream\n");
    AsciiConcat(head, content);
    AsciiConcat(head + content, "\nendstream");
  }

  lemma JoinedAscii(a: string, b: string, c: string)
    requires Ascii(a) && Ascii(b) && Ascii(c)
    ensures Ascii(a + b + c)
  {
    AsciiConcat(a, b);
    AsciiConcat(a + b, c);
  }

  lemma PageHeadStart() returns (start: string)
    ensures Ascii(start) && start + "<< /F1 3 0 R >> >> " + "/Contents " == PAGE_HEAD
  {
    var a, b, c, d := "<< /Type /Page /Parent ", "2 0 R /MediaBox ", "[0 0 842 595] ", "/Resources << /Font ";
    JoinedAscii(a, b, c);
    AsciiConcat(a + b + c, d);
    start := a + b + c + d;
  }

  lemma PageHeadIsAscii()
    ensures Ascii(PAGE_HEAD)
  {
    var start := PageHeadStart();
    JoinedAscii(start, "<< /F1 3 0 R >> >> ", "/Contents ");
  }

  lemma PageObjectIsAscii(contentObject: nat)
    ensures Ascii(PageObject(contentObject))
  {
    PageHeadIsAscii();
    AsciiField(PAGE_HEAD, contentObject, " 0 R >>");
  }

  lemma {:induction false} JoinIsAscii(parts: seq<string>, separator: string)
    requires Ascii(separator) && forall i :: 0 <= i < |parts| ==> Ascii(parts[i])
    ensures Ascii(JoinText(parts, separator))
  {
    if parts != [] {
      var front := JoinText(Front(parts), separator);
      var between := if |parts| == 1 then "" else separator;
      JoinIsAscii(Front(parts), separator);
      AsciiConcat(front, between);
      AsciiConcat(front + between, Last(parts));
    }
  }

  lemma KidsAreAscii(n: nat)
    ensures Ascii(JoinText(Kids(n), " "))
  {
    forall i | 0 <= i < n ensures Ascii(Kids(n)[i]) {
      AsciiField("", 5 + 2 * i, " 0 R");
      assert "" + Itoa(5 + 2 * i) + " 0 R" == Kids(n)[i];
    }
    JoinIsAscii(Kids(n), " ");
  }

  lemma PagesObjectIsAscii(kids: string, count: nat)
    requires Ascii(kids)
    ensures Ascii(PagesObject(kids, count))
  {
    AsciiConcat("<< /Type /Pages /Kids [", kids);
    AsciiConcat("<< /Type /Pages /Kids [" + kids, "] /Count ");
    AsciiField("<< /Type /Pages /Kids [" + kids + "] /Count ", count, " >>");
  }

  lemma CatalogIsAscii()
    ensures Ascii(CATALOG)
  {
    AsciiConcat("<< /Type /Catalog /Pages ", "2 0 R >>");
  }

  lemma FontIsAscii()
    ensures Ascii(FONT)
  {
    JoinedAscii("<< /Type /Font /Subtype ", "/Type1 /BaseFont ", "/Helvetica >>");
  }

  lemma ObjectIsAscii(lines: seq<string>, i: nat, body: string)
    requires i <= ObjectCount(lines) && body == ObjectBody(lines, i)
    ensures Ascii(body)
  {
    CatalogIsAscii();
    FontIsAscii();
    if i == 2 {
      KidsAreAscii(PageCount(|lines|));
      PagesObjectIsAscii(JoinText(Kids(PageCount(|lines|)), " "), PageCount(|lines|));
    } else if i >= 4 && i % 2 == 0 {
      PageIsAscii(PageLines(lines, (i - 4) / 2));
      StreamIsAscii(PageContent(PageLines(lines, (i - 4) / 2)));
    } else if i >= 4 {
      PageObjectIsAscii(i - 1);
    }
  }

  lemma ObjectsAreAscii(lines: seq<string>)
    ensures AllAscii(Objects(lines))
  {
    forall i | 0 <= i < |Objects(lines)| ensures Ascii(Objects(lines)[i]) {
      ObjectIsAscii(lines, i, Objects(lines)[i]);
    }
  }

  // ---------------------------------------------------------------- the file

  predicate AllAscii(objects: seq<string>) {
    forall i :: 0 <= i < |objects| ==> Ascii(objects[i])
  }

  lemma ObjectTextIsAscii(i: nat, body: string)
    requires Ascii(body)
    ensures Ascii(ObjectText(i, body))
  {
    AsciiField("", i, " 0 obj\n");
    assert "" + Itoa(i) + " 0 obj\n" == Itoa(i) + " 0 obj\n";
    AsciiConcat(Itoa(i) + " 0 obj\n", body);
    AsciiConcat(Itoa(i) + " 0 obj\n" + body, "\nendobj\n");
  }

  lemma {:induction false} BodyIsAscii(objects: seq<string>, n: nat)
    requires n < |objects| && AllAscii(objects)
    ensures Ascii(Body(objects, n))
  {
    if n > 0 {
      BodyIsAscii(objects, n - 1);
      ObjectTextIsAscii(n, objects[n]);
      AsciiConcat(Body(objects, n - 1), ObjectText(n, objects[n]));
    }
  }

  lemma EntryIsAscii(offset: nat)
    ensures Ascii(XrefOffset(offset) + IN_USE)
  {
    AsciiField("", offset, "");
    AsciiConcat(if |Itoa(offset)| >= 10 then "" else Repeat('0', 10 - |Itoa(offset)|), Itoa(offset));
    AsciiConcat(XrefOffset(offset), IN_USE);
  }

  lemma {:induction false} EntriesAreAscii(offsets: seq<nat>, n: nat)
    requires n < |offsets|
    ensures Ascii(Entries(offsets, n))
  {
    if n > 0 {
      EntriesAreAscii(offsets, n - 1);
      EntryIsAscii(offsets[n]);
      AsciiConcat(Entries(offsets, n - 1), XrefOffset(offsets[n]) + IN_USE);
    }
  }

  lemma MarksAreAscii(size: nat, xref: nat)
    ensures Ascii(XrefHead(size)) && Ascii(FREE_ENTRY) && Ascii(TrailerHead(size)) && Ascii(Tail(xref))
  {
    AsciiField("xref\n0 ", size, "\n");
    AsciiField("trailer\n<< /Size ", size, " /Root 1 0 R >>\n");
    AsciiField("startxref\n", xref, "\n%%EOF\n");
  }

  lemma SixParts(a: string, b: string, c: string, d: string, e: string, f: string)
    requires Ascii(a) && Ascii(b) && Ascii(c) && Ascii(d) && Ascii(e) && Ascii(f)
    ensures Ascii(a + b + c + d + (e + f))
  {
    AsciiConcat(e, f);
    AsciiConcat(a, b);
    AsciiConcat(a + b, c);
    AsciiConcat(a + b + c, d);
    AsciiConcat(a + b + c + d, e + f);
  }

  lemma DocumentIsAscii(objects: seq<string>)
    requires objects != [] && AllAscii(objects)
    ensures Ascii(Document(objects))
  {
    var n := |objects| - 1;
    var body := Body(objects, n);
    BodyIsAscii(objects, n);
    EntriesAreAscii(Offsets(objects), n);
    MarksAreAscii(|objects|, |body|);
    SixParts(body, XrefHead(|objects|), FREE_ENTRY, Entries(Offsets(objects), n), TrailerHead(|objects|), Tail(|body|));
  }

  /**
   * For every list of lines: each position in the file counts the bytes before it, and the length of each page's
   * content counts its bytes.
   */
  lemma PositionsAreBytes(lines: seq<string>, position: nat)
    requires position <= |Document(Objects(lines))|
    ensures Ascii(Document(Objects(lines)))
    ensures ByteLength(Document(Objects(lines))[..position]) == position
    ensures forall page :: ByteLength(PageContent(page)) == |PageContent(page)|
  {
    ObjectsAreAscii(lines);
    DocumentIsAscii(Objects(lines));
    AsciiPrefix(Document(Objects(lines)), position);
    forall page ensures ByteLength(PageContent(page)) == |PageContent(page)| {
      PageIsAscii(page);
      AsciiBytes(PageContent(page));
    }
  }

  lemma AsciiPrefix(s: string, n: nat)
    requires Ascii(s) && n <= |s|
    ensures ByteLength(s[..n]) == n
  {
    AsciiBytes(s[..n]);
  }
}
