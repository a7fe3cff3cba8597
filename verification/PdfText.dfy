/** Page contents of the audit PDF: escaped literal strings and the operators that show them, with their reader. */
module PdfText {
  import opened Prelude

  // ---------------------------------------------------------------- writing

  function EscapeChar(c: char): string {
    if c == '\\' || c == '(' || c == ')' then ['\\', c]
    else if c == '\r' || c == '\n' || c == '\t' then " "
    else if c < ' ' || c > '~' then "?"
    else [c]
  }

  function Escape(text: string): string {
    if text == "" then "" else EscapeChar(text[0]) + Escape(text[1..])
  }

  method PdfEscapeText(text: string) returns (escaped: string)
    ensures escaped == Escape(text)
  {
    escaped := "";
    for i := 0 to |text|
      invariant escaped + Escape(text[i..]) == Escape(text)
    {
      var c := text[i];
      ghost var before, rest := escaped, Escape(text[i + 1..]);
      assert Escape(text[i..]) == EscapeChar(c) + rest by {
        assert text[i..][1..] == text[i + 1..];
      }
      if c == '\\' || c == '(' || c == ')' {
        escaped := escaped + ['\\', c];
      } else if c == '\r' || c == '\n' || c == '\t' {
        escaped := escaped + " ";
      } else if c < ' ' || c > '~' {
        escaped := escaped + "?";
      } else {
        escaped := escaped + [c];
      }
      assert escaped == before + EscapeChar(c);
      Associate(before, EscapeChar(c), rest);
    }
    assert Escape(text[|text|..]) == "";
  }

  const OPEN_PAGE := "BT\n/F1 10 Tf\n14 TL\n40 555 Td\n"
  const NEXT_LINE := "T*\n"
  const SHOW := " Tj\n"
  const CLOSE_PAGE := "ET"

  /** The operators that show one line. */
  function ShowLine(line: string, first: bool): string {
    (if first then "" else NEXT_LINE) + "(" + Escape(line) + ")" + SHOW
  }

  function ShowLines(lines: seq<string>, first: bool): string {
    if lines == [] then "" else ShowLine(lines[0], first) + ShowLines(lines[1..], false)
  }

  function PageContent(lines: seq<string>): string {
    OPEN_PAGE + ShowLines(lines, true) + CLOSE_PAGE
  }

  lemma LineText(before: string, separator: string, escaped: string)
    ensures before + separator + "(" + escaped + (")" + SHOW) == before + (separator + "(" + escaped + ")" + SHOW)
    ensures before + "" == before
  {
  }

  method PdfPageContent(lines: seq<string>) returns (content: string)
    ensures content == PageContent(lines)
  {
    content := OPEN_PAGE;
    for i := 0 to |lines|
      invariant content + ShowLines(lines[i..], i == 0) == OPEN_PAGE + ShowLines(lines, true)
    {
      ghost var before, rest := content, ShowLines(lines[i + 1..], false);
      assert ShowLines(lines[i..], i == 0) == ShowLine(lines[i], i == 0) + rest by {
        assert lines[i..][0] == lines[i] && lines[i..][1..] == lines[i + 1..];
      }
      if i > 0 {
        content := content + NEXT_LINE;
      }
      content := content + "(";
      var escaped := PdfEscapeText(lines[i]);
      content := content + escaped;
      content := content + ")" + SHOW;
      LineText(before, if i == 0 then "" else NEXT_LINE, escaped);
      assert content == before + ShowLine(lines[i], i == 0);
      Associate(before, ShowLine(lines[i], i == 0), rest);
    }
    assert lines[|lines|..] == [];
    content := content + CLOSE_PAGE;
  }

  // ---------------------------------------------------------------- reading

  /** What a character becomes on the page. */
  function Printable(c: char): char {
    if c == '\r' || c == '\n' || c == '\t' then ' ' else if c < ' ' || c > '~' then '?' else c
  }

  function Sanitize(text: string): string {
    seq(|text|, i requires 0 <= i < |text| => Printable(text[i]))
  }

  /**
   * Reads a literal string (ISO 32000-1, section 7.3.4.2) after its opening parenthesis: the text and what follows the
   * closing one.  A nested parenthesis or any other escape is refused.
   */
  function ReadLiteral(s: string): (r: Option<(string, string)>)
    ensures r.Some? ==> |r.value.1| < |s|
  {
    if s == "" || s[0] == '(' then None
    else if s[0] == ')' then Some(("", s[1..]))
    else if s[0] == '\\' then
      if |s| < 2 || !(s[1] == '\\' || s[1] == '(' || s[1] == ')') then None
      else
        match ReadLiteral(s[2..])
        case None => None
        case Some((text, rest)) => Some(([s[1]] + text, rest))
    else
      match ReadLiteral(s[1..])
      case None => None
      case Some((text, rest)) => Some(([s[0]] + text, rest))
  }

  /** What follows a given prefix. */
  function Strip(s: string, prefix: string): (r: Option<string>)
    ensures r.Some? ==> |r.value| + |prefix| == |s|
  {
    if prefix <= s then Some(s[|prefix|..]) else None
  }

  /** The lines shown by a content stream after its opening operators. */
  function ReadShown(s: string, first: bool): Option<seq<string>>
    decreases |s|
  {
    if s == CLOSE_PAGE then Some([])
    else
      var line := if first then Some(s) else Strip(s, NEXT_LINE);
      if line.None? then None
      else
        var open := Strip(line.value, "(");
        if open.None? || ReadLiteral(open.value).None? then None
        else
          var (text, after) := ReadLiteral(open.value).value;
          var rest := Strip(after, SHOW);
          if rest.None? || ReadShown(rest.value, false).None? then None
          else Some([text] + ReadShown(rest.value, false).value)
  }

  function ReadPage(content: string): Option<seq<string>> {
    var body := Strip(content, OPEN_PAGE);
    if body.None? then None else ReadShown(body.value, true)
  }

  function SanitizeAll(lines: seq<string>): seq<string> {
    seq(|lines|, i requires 0 <= i < |lines| => Sanitize(lines[i]))
  }

  lemma EscapeHead(head: string, tail: string, rest: string)
    ensures head + tail + ")" + rest == head + (tail + ")" + rest)
  {
  }

  lemma LiteralHead(c: char, tail: string)
    ensures ReadLiteral(EscapeChar(c) + tail) ==
              match ReadLiteral(tail)
              case None => None
              case Some((text, rest)) => Some(([Printable(c)] + text, rest))
  {
    var head := EscapeChar(c);
    assert (head + tail)[|head|..] == tail;
  }

  lemma {:induction false} LiteralReads(text: string, rest: string)
    ensures ReadLiteral(Escape(text) + ")" + rest) == Some((Sanitize(text), rest))
  {
    if text == "" {
      assert Escape(text) + ")" + rest == ")" + rest;
      assert (")" + rest)[1..] == rest;
    } else {
      LiteralReads(text[1..], rest);
      var tail := Escape(text[1..]) + ")" + rest;
      EscapeHead(EscapeChar(text[0]), Escape(text[1..]), rest);
      LiteralHead(text[0], tail);
      assert Sanitize(text) == [Printable(text[0])] + Sanitize(text[1..]);
    }
  }

  lemma StripsPrefix(prefix: string, rest: string)
    ensures Strip(prefix + rest, prefix) == Some(rest)
  {
    assert (prefix + rest)[|prefix|..] == rest;
  }

  lemma ShownHead(line: string, first: bool, rest: string)
    ensures var s := ShowLine(line, first) + rest;
            && s != CLOSE_PAGE
            && ReadShown(s, first) ==
                 match ReadShown(rest, false) { case None => None case Some(more) => Some([Sanitize(line)] + more) }
  {
    var after := SHOW + rest;
    var open := Escape(line) + ")" + after;
    var whole := "(" + open;
    var s := ShowLine(line, first) + rest;
    assert s == (if first then "" else NEXT_LINE) + whole;
    assert s[0] == if first then '(' else 'T';
    if first { assert s == whole; } else { StripsPrefix(NEXT_LINE, whole); }
    StripsPrefix("(", open);
    LiteralReads(line, after);
    StripsPrefix(SHOW, rest);
  }

  lemma {:induction false} ShownReads(lines: seq<string>, first: bool)
    ensures ReadShown(ShowLines(lines, first) + CLOSE_PAGE, first) == Some(SanitizeAll(lines))
  {
    if lines == [] {
      assert ShowLines(lines, first) + CLOSE_PAGE == CLOSE_PAGE;
      assert SanitizeAll(lines) == [];
    } else {
      ShownReads(lines[1..], false);
      var rest := ShowLines(lines[1..], false);
      ShownHead(lines[0], first, rest + CLOSE_PAGE);
      Associate(ShowLine(lines[0], first), rest, CLOSE_PAGE);
      SanitizeHead(lines);
    }
  }

  lemma SanitizeHead(lines: seq<string>)
    requires lines != []
    ensures SanitizeAll(lines) == [Sanitize(lines[0])] + SanitizeAll(lines[1..])
  {
  }

  /** Reading a page back gives its lines, with control characters blanked and foreign ones replaced. */
  lemma PageReads(lines: seq<string>)
    ensures ReadPage(PageContent(lines)) == Some(SanitizeAll(lines))
  {
    var body := ShowLines(lines, true) + CLOSE_PAGE;
    assert PageContent(lines) == OPEN_PAGE + body;
    StripsPrefix(OPEN_PAGE, body);
    ShownReads(lines, true);
  }
}
