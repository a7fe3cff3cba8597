/** The SSE id of a replayed event: the run ID, a colon and the sequence number. */
module SseId {
  import opened Prelude
  import Decimal

  const MAX_UINT64: nat := 0xFFFF_FFFF_FFFF_FFFF

  function FormatSSEID(runID: string, id: nat): string {
    runID + ":" + Decimal.Itoa(id)
  }

  function LastIndex(s: string, c: char): int {
    if s == "" then -1 else if Last(s) == c then |s| - 1 else LastIndex(Front(s), c)
  }

  lemma {:induction false} LastIndexFinds(s: string, c: char)
    ensures -1 <= LastIndex(s, c) < |s|
    ensures LastIndex(s, c) >= 0 ==> s[LastIndex(s, c)] == c
    ensures forall i :: LastIndex(s, c) < i < |s| ==> s[i] != c
  {
    if s != "" && Last(s) != c { LastIndexFinds(Front(s), c); }
  }

  function ParseSSEID(sseID: string): Option<(string, nat)> {
    LastIndexFinds(sseID, ':');
    var index := LastIndex(sseID, ':');
    if index <= 0 || index == |sseID| - 1 then None
    else
      var text := sseID[index + 1..];
      if |text| > 1 && text[0] == '0' then None
      else if !Decimal.AllDigits(text) then None
      else if Decimal.Value(text) > MAX_UINT64 then None
      else Some((sseID[..index], Decimal.Value(text)))
  }

  lemma LastIndexOfFormatted(runID: string, id: nat)
    ensures LastIndex(FormatSSEID(runID, id), ':') == |runID|
  {
    var s := FormatSSEID(runID, id);
    Decimal.ItoaDenotes(id);
    LastIndexFinds(s, ':');
    assert s[|runID|] == ':';
    forall i | |runID| < i < |s| ensures s[i] != ':' {
      assert s[i] == Decimal.Itoa(id)[i - |runID| - 1];
    }
  }

  lemma ParseFormatted(runID: string, id: nat)
    requires runID != "" && id <= MAX_UINT64
    ensures ParseSSEID(FormatSSEID(runID, id)) == Some((runID, id))
  {
    var sseID, text := FormatSSEID(runID, id), Decimal.Itoa(id);
    LastIndexOfFormatted(runID, id);
    Decimal.ItoaDenotes(id);
    assert sseID[..|runID|] == runID;
    assert sseID[|runID| + 1..] == text;
  }

  lemma FormatParsed(sseID: string)
    requires ParseSSEID(sseID).Some?
    ensures var (runID, id) := ParseSSEID(sseID).value;
            sseID == FormatSSEID(runID, id) && runID != "" && id <= MAX_UINT64
  {
    LastIndexFinds(sseID, ':');
    var index := LastIndex(sseID, ':');
    var text := sseID[index + 1..];
    Decimal.ItoaOfValue(text);
    assert sseID == sseID[..index] + ":" + text;
  }

  /** Parsing accepts exactly the ids that formatting produces from a run ID and a 64-bit sequence, and inverts it. */
  lemma ParseInvertsFormat(sseID: string, runID: string, id: nat)
    ensures ParseSSEID(sseID) == Some((runID, id)) <==>
              sseID == FormatSSEID(runID, id) && runID != "" && id <= MAX_UINT64
  {
    if ParseSSEID(sseID) == Some((runID, id)) { FormatParsed(sseID); }
    if runID != "" && id <= MAX_UINT64 { ParseFormatted(runID, id); }
  }
}
