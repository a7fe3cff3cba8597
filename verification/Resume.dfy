/**
 * The resume stream: a reader that replays the buffered events after the client's position and then polls the buffer,
 * while the worker of the run keeps appending.
 */
module Resume {
  import opened Prelude
  import opened EventBuffer

  // ---------------------------------------------------------------- the replay filter

  /** The tool call or form an event answers; "" when it answers none. */
  function Answers(e: RunEvent): string {
    match e
    case ToolResult(id) => id
    case ToolProgress(id, state) => if state == "completed" then id else ""
    case _ => ""
  }

  /** Only a tool result, or tool progress that reports completion, answers anything. */
  lemma AnswersExactly(e: RunEvent, id: string)
    requires id != ""
    ensures Answers(e) == id <==> e == ToolResult(id) || e == ToolProgress(id, "completed")
  {
    match e
    case ToolProgress(_, state) =>
    case _ =>
  }

  /** Position of the first of the first n events that answers `id`, or n. */
  function FirstAnswer(events: seq<BufferedEvent>, id: string, n: nat): (k: nat)
    requires n <= |events|
    ensures k <= n && (forall j :: 0 <= j < k ==> Answers(events[j].event) != id)
    ensures k < n ==> Answers(events[k].event) == id
  {
    if n == 0 then 0
    else
      var k := FirstAnswer(events, id, n - 1);
      if k < n - 1 then k else if Answers(events[n - 1].event) == id then n - 1 else n
  }

  /** An input request whose first answer in the window comes after it. */
  predicate Stale(events: seq<BufferedEvent>, i: nat)
    requires i < |events|
  {
    && events[i].event.InputRequest?
    && events[i].event.requestId != ""
    && i < FirstAnswer(events, events[i].event.requestId, |events|) < |events|
  }

  /** The first n events without the stale input requests. */
  function Kept(events: seq<BufferedEvent>, n: nat): seq<BufferedEvent>
    requires n <= |events|
  {
    if n == 0 then [] else Kept(events, n - 1) + if Stale(events, n - 1) then [] else [events[n - 1]]
  }

  ghost predicate Increasing(events: seq<BufferedEvent>) {
    forall i, j :: 0 <= i < j < |events| ==> events[i].id < events[j].id
  }

  /** The map holds, for each id answered by the first n events, the ID of its first answer. */
  ghost predicate Indexes(resolvedAt: map<string, nat>, events: seq<BufferedEvent>, n: nat)
    requires n <= |events|
  {
    && (forall id :: id in resolvedAt <==> id != "" && FirstAnswer(events, id, n) < n)
    && (forall id :: id in resolvedAt ==> resolvedAt[id] == events[FirstAnswer(events, id, n)].id)
  }

  lemma IndexStep(resolvedAt: map<string, nat>, events: seq<BufferedEvent>, n: nat)
    requires n < |events| && Indexes(resolvedAt, events, n)
    ensures var id := Answers(events[n].event);
            Indexes(if id == "" || id in resolvedAt then resolvedAt else resolvedAt[id := events[n].id], events, n + 1)
  {
    var answered := Answers(events[n].event);
    var next := if answered == "" || answered in resolvedAt then resolvedAt else resolvedAt[answered := events[n].id];
    forall id ensures id in next <==> id != "" && FirstAnswer(events, id, n + 1) < n + 1 {}
    forall id | id in next ensures next[id] == events[FirstAnswer(events, id, n + 1)].id {}
  }

  /** The first answer to each id in the window. */
  method FirstAnswers(events: seq<BufferedEvent>) returns (resolvedAt: map<string, nat>)
    ensures Indexes(resolvedAt, events, |events|)
  {
    resolvedAt := map[];
    for i := 0 to |events|
      invariant Indexes(resolvedAt, events, i)
    {
      IndexStep(resolvedAt, events, i);
      match events[i].event
      case ToolResult(id) =>
        if id != "" && id !in resolvedAt { resolvedAt := resolvedAt[id := events[i].id]; }
      case ToolProgress(id, state) =>
        if id != "" && state == "completed" && id !in resolvedAt { resolvedAt := resolvedAt[id := events[i].id]; }
      case _ =>
    }
  }

  method FilterReplayable(events: seq<BufferedEvent>) returns (filtered: seq<BufferedEvent>)
    requires Increasing(events)
    ensures filtered == Kept(events, |events|)
  {
    if events == [] { return events; }
    var resolvedAt := FirstAnswers(events);
    if resolvedAt == map[] {
      NothingStale(events, |events|);
      return events;
    }
    filtered := [];
    for i := 0 to |events|
      invariant filtered == Kept(events, i)
    {
      var keep := Survives(events, i, resolvedAt);
      if keep {
        filtered := filtered + [events[i]];
      }
    }
  }

  method Survives(events: seq<BufferedEvent>, i: nat, resolvedAt: map<string, nat>) returns (keep: bool)
    requires i < |events| && Increasing(events) && Indexes(resolvedAt, events, |events|)
    ensures keep == !Stale(events, i)
  {
    if !events[i].event.InputRequest? || events[i].event.requestId == "" { return true; }
    var requestId := events[i].event.requestId;
    keep := !(requestId in resolvedAt && events[i].id < resolvedAt[requestId]);
  }

  lemma {:induction false} NothingStale(events: seq<BufferedEvent>, n: nat)
    requires n <= |events| && forall id: string :: id != "" ==> FirstAnswer(events, id, |events|) == |events|
    ensures Kept(events, n) == events[..n]
  {
    if n > 0 { NothingStale(events, n - 1); }
  }

  /** The filter keeps the order of the events and never drops the last one. */
  lemma {:induction false} FilterOrders(events: seq<BufferedEvent>, n: nat)
    requires Increasing(events) && n <= |events|
    ensures var kept := Kept(events, n);
            && Increasing(kept)
            && (forall i :: 0 <= i < |kept| ==> n > 0 && kept[i].id <= events[n - 1].id)
            && (n == |events| > 0 ==> kept != [] && Last(kept) == Last(events))
  {
    if n > 0 { FilterOrders(events, n - 1); }
  }

  /** What is dropped is exactly the input requests that are first answered later in the same window. */
  lemma {:induction false} FilterDropsStale(events: seq<BufferedEvent>, n: nat, i: nat)
    requires Increasing(events) && i < n <= |events|
    ensures events[i] !in Kept(events, n) <==>
              && events[i].event.InputRequest?
              && events[i].event.requestId != ""
              && (exists j :: i < j < |events| && Answers(events[j].event) == events[i].event.requestId)
              && (forall j :: 0 <= j < i ==> Answers(events[j].event) != events[i].event.requestId)
  {
    var kept := Kept(events, n);
    if i < n - 1 {
      FilterDropsStale(events, n - 1, i);
    } else {
      FilterOrders(events, n - 1);
      if events[i].event.InputRequest? {
        var id := events[i].event.requestId;
        var first := FirstAnswer(events, id, |events|);
        if first < |events| && first < i { assert Answers(events[first].event) == id; }
        if first < |events| && first > i { assert Answers(events[first].event) == id; }
      }
      if !Stale(events, i) { assert Last(kept) == events[i]; }
    }
  }

  const ANSWERED_TWICE: seq<BufferedEvent> :=
    [BufferedEvent(1, ToolResult("form")), BufferedEvent(2, InputRequest("form")), BufferedEvent(3, ToolResult("form"))]

  /** A request whose ID was answered before it stays, although it is answered again later. */
  lemma AnsweredBeforeStays()
    ensures Answers(ANSWERED_TWICE[2].event) == ANSWERED_TWICE[1].event.requestId
    ensures ANSWERED_TWICE[1] in Kept(ANSWERED_TWICE, 3)
  {
    FilterDropsStale(ANSWERED_TWICE, 3, 1);
    assert Answers(ANSWERED_TWICE[0].event) == "form";
  }
}
