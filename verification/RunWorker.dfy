/**
 * The worker's processing of one run: from the runner's event stream to the replay buffer, the persisted status and
 * the completion hooks.  What the worker observes of the rest of the system is given by `World`.
 */
module RunWorker {
  import opened Prelude
  import opened EventBuffer
  import opened RunHandshake

  const PERSIST_ATTEMPTS: nat := 3

  datatype World = World(
    cancelRecorded: bool,                     // a Cancel in this process came before the worker's first check
    cancelPersisted: bool,                    // the row is already cancelled
    startupError: Option<string>,             // the first start-up stage that fails, the runner's own start included
    stream: seq<RunEvent>,                    // what the runner emits before closing its channel
    voiceOutput: bool,
    voice: (nat, string) -> Option<string>,   // the n-th synthesis, of this text; None when it yields nothing
    contextEnded: bool,                       // at the final check
    cancelledLate: bool,                      // a Cancel was recorded by then
    persists: nat -> bool                     // whether the n-th attempt to mark the run completed succeeds
  )

  /** What the worker does to the buffer, the run row and the registered hooks. */
  datatype Step =
    | Appended(event: RunEvent)
    | MarkedDone
    | Wrote(status: RunStatus)
    | TriedToComplete(ok: bool)
    | FiredHooks(status: RunStatus)

  /** Events with the synthesized audio taken out. */
  function Spoken(events: seq<RunEvent>): seq<RunEvent> {
    if events == [] then []
    else Spoken(Front(events)) + if Last(events).AudioDelta? then [] else [Last(events)]
  }

  predicate Fatal(event: RunEvent) {
    event.ErrorEvent? && (event.code == "stream_consume" || event.code == "llm_call")
  }

  /** Message of the last fatal model error; "" when there is none. */
  function LastFatal(events: seq<RunEvent>): string {
    if events == [] then "" else if Fatal(Last(events)) then Last(events).message else LastFatal(Front(events))
  }

  ghost function EventsOf(log: seq<BufferedEvent>): seq<RunEvent> {
    seq(|log|, i requires 0 <= i < |log| => log[i].event)
  }

  lemma {:induction false} SpokenConcat(a: seq<RunEvent>, b: seq<RunEvent>)
    ensures Spoken(a + b) == Spoken(a) + Spoken(b)
  {
    if b == [] {
      assert a + b == a;
    } else {
      SpokenConcat(a, Front(b));
      assert Front(a + b) == a + Front(b);
    }
  }

  lemma SpokenOne(events: seq<RunEvent>, event: RunEvent)
    ensures Spoken(events + [event]) == Spoken(events) + if event.AudioDelta? then [] else [event]
  {
    assert Front(events + [event]) == events;
  }

  predicate Accepted(w: World) {
    !w.cancelRecorded && !w.cancelPersisted && w.startupError.None?
  }

  const CANCELLED_ERROR := ErrorEvent("cancelled", "run cancelled by user")
  const TIMEOUT_ERROR := ErrorEvent("timeout", "run exceeded the timeout")

  /** The synthetic error the worker may add after the runner's own events. */
  function SyntheticError(w: World): seq<RunEvent> {
    if w.cancelRecorded || w.cancelPersisted then [CANCELLED_ERROR]
    else if w.startupError.Some? then [ErrorEvent("startup", w.startupError.value)]
    else if w.contextEnded && w.cancelledLate then [CANCELLED_ERROR]
    else if w.contextEnded then [TIMEOUT_ERROR]
    else []
  }

  // ---------------------------------------------------------------- traces

  function Appends(trace: seq<Step>): seq<RunEvent> {
    if trace == [] then []
    else Appends(Front(trace)) + if Last(trace).Appended? then [Last(trace).event] else []
  }

  predicate IsAudio(step: Step) {
    step.Appended? && step.event.AudioDelta?
  }

  /** The trace with the synthesized audio taken out. */
  function Silent(trace: seq<Step>): seq<Step> {
    if trace == [] then [] else Silent(Front(trace)) + if IsAudio(Last(trace)) then [] else [Last(trace)]
  }

  function Count(trace: seq<Step>, p: Step -> bool): nat {
    if trace == [] then 0 else Count(Front(trace), p) + if p(Last(trace)) then 1 else 0
  }

  predicate IsAttempt(step: Step) {
    step.TriedToComplete?
  }

  /** The step gives the row its terminal status. */
  predicate EndsRun(step: Step) {
    step == Wrote(Cancelled) || step == Wrote(Failed) || step == Wrote(Completed) || step == TriedToComplete(true)
  }

  /** Completed hooks fire only after a successful attempt to mark the run completed. */
  ghost predicate HooksAfterSuccess(trace: seq<Step>) {
    trace == []
    || (HooksAfterSuccess(Front(trace))
        && (Last(trace) == FiredHooks(Completed) ==> TriedToComplete(true) in Front(trace)))
  }

  /** The buffer is marked done once, as the last step. */
  ghost predicate DoneIsLast(trace: seq<Step>) {
    trace != [] && Last(trace) == MarkedDone && MarkedDone !in Front(trace)
  }

  /** The runner's events, without audio, as appends. */
  function Relayed(events: seq<RunEvent>): seq<Step> {
    if events == [] then []
    else Relayed(Front(events)) + if Last(events).AudioDelta? then [] else [Appended(Last(events))]
  }

  function Completion(persists: nat -> bool, attempt: nat): seq<Step>
    requires 1 <= attempt <= PERSIST_ATTEMPTS
    decreases PERSIST_ATTEMPTS - attempt
  {
    if persists(attempt) then [TriedToComplete(true), FiredHooks(Completed)]
    else if attempt == PERSIST_ATTEMPTS then [TriedToComplete(false)]
    else [TriedToComplete(false)] + Completion(persists, attempt + 1)
  }

  /** What follows the runner's events. */
  function Ending(w: World): seq<Step> {
    if w.contextEnded && w.cancelledLate then [Wrote(Cancelled), Appended(CANCELLED_ERROR), FiredHooks(Cancelled)]
    else if w.contextEnded then [Wrote(Failed), Appended(TIMEOUT_ERROR), FiredHooks(Failed)]
    else if LastFatal(w.stream) != "" then [Wrote(Failed), FiredHooks(Failed)]
    else Completion(w.persists, 1)
  }

  /** The whole task up to MarkDone, without audio. */
  function Expected(w: World): seq<Step> {
    if w.cancelRecorded then [Wrote(Cancelled), Appended(CANCELLED_ERROR), FiredHooks(Cancelled)]
    else if w.cancelPersisted then [Appended(CANCELLED_ERROR), FiredHooks(Cancelled)]
    else if w.startupError.Some? then
      [Wrote(Active), Wrote(Failed), Appended(ErrorEvent("startup", w.startupError.value))]
    else [Wrote(Active)] + Relayed(w.stream) + Ending(w)
  }

  // ---------------------------------------------------------------- the voice

  /** The assistant's text so far. */
  function TextOf(events: seq<RunEvent>): string {
    if events == [] then "" else TextOf(Front(events)) + if Last(events).TextDelta? then Last(events).content else ""
  }

  /** How often the runner said that the run is complete. */
  function Closings(events: seq<RunEvent>): nat {
    if events == [] then 0 else Closings(Front(events)) + if Last(events).RunComplete? then 1 else 0
  }

  /** The synthesis of the answer after these events. */
  function Synthesis(w: World, events: seq<RunEvent>): Option<string> {
    w.voice(Closings(events), TextOf(events))
  }

  /** What is synthesized before the n-th event: only the end of the run is spoken. */
  function VoiceAt(w: World, n: nat): Option<string>
    requires n < |w.stream|
  {
    if w.voiceOutput && w.stream[n].RunComplete? then Synthesis(w, w.stream[..n]) else None
  }

  function Audio(voice: Option<string>): seq<Step> {
    if voice.Some? then [Appended(AudioDelta(voice.value))] else []
  }

  /** What is appended for the first n events. */
  function Heard(w: World, n: nat): seq<Step>
    requires n <= |w.stream|
  {
    if n == 0 then [] else Heard(w, n - 1) + Audio(VoiceAt(w, n - 1)) + [Appended(w.stream[n - 1])]
  }

  /** The last end of the run among the first n events was spoken. */
  predicate Spoke(w: World, n: nat)
    requires n <= |w.stream|
  {
    n > 0 && if w.stream[n - 1].RunComplete? then VoiceAt(w, n - 1).Some? else Spoke(w, n - 1)
  }

  /** The answer that no end of the run has spoken. */
  function LastWords(w: World): Option<string> {
    if w.voiceOutput && !Spoke(w, |w.stream|) then Synthesis(w, w.stream) else None
  }

  /** What is appended for the runner's events. */
  function Drained(w: World): seq<Step> {
    Heard(w, |w.stream|) + Audio(LastWords(w))
  }

  /** The whole task up to MarkDone. */
  function Whole(w: World): seq<Step> {
    if Accepted(w) then [Wrote(Active)] + Drained(w) + Ending(w) else Expected(w)
  }

  // ---------------------------------------------------------------- facts about traces

  lemma {:induction false} AppendsConcat(s: seq<Step>, t: seq<Step>)
    ensures Appends(s + t) == Appends(s) + Appends(t)
  {
    if t == [] {
      assert s + t == s && Appends(s) + [] == Appends(s);
    } else {
      AppendsConcat(s, Front(t));
      assert Front(s + t) == s + Front(t) && Last(s + t) == Last(t);
      Associate(Appends(s), Appends(Front(t)), if Last(t).Appended? then [Last(t).event] else []);
    }
  }

  lemma {:induction false} SilentConcat(s: seq<Step>, t: seq<Step>)
    ensures Silent(s + t) == Silent(s) + Silent(t)
  {
    if t == [] {
      assert s + t == s && Silent(s) + [] == Silent(s);
    } else {
      SilentConcat(s, Front(t));
      assert Front(s + t) == s + Front(t) && Last(s + t) == Last(t);
      Associate(Silent(s), Silent(Front(t)), if IsAudio(Last(t)) then [] else [Last(t)]);
    }
  }

  lemma {:induction false} CountConcat(s: seq<Step>, t: seq<Step>, p: Step -> bool)
    ensures Count(s + t, p) == Count(s, p) + Count(t, p)
  {
    if t == [] {
      assert s + t == s;
    } else {
      CountConcat(s, Front(t), p);
      assert Front(s + t) == s + Front(t) && Last(s + t) == Last(t);
    }
  }

  lemma {:induction false} SilentMembers(trace: seq<Step>, step: Step)
    requires !IsAudio(step)
    ensures step in Silent(trace) <==> step in trace
  {
    if trace != [] {
      SilentMembers(Front(trace), step);
      assert trace == Front(trace) + [Last(trace)];
    }
  }

  lemma {:induction false} SilentKeepsCount(trace: seq<Step>, p: Step -> bool)
    requires forall step :: IsAudio(step) ==> !p(step)
    ensures Count(Silent(trace), p) == Count(trace, p)
  {
    if trace != [] {
      SilentKeepsCount(Front(trace), p);
      CountConcat(Silent(Front(trace)), if IsAudio(Last(trace)) then [] else [Last(trace)], p);
    }
  }

  lemma {:induction false} SilentKeepsAppends(trace: seq<Step>)
    ensures Appends(Silent(trace)) == Spoken(Appends(trace))
  {
    if trace != [] {
      var front, last := Front(trace), Last(trace);
      SilentKeepsAppends(front);
      if IsAudio(last) {
        assert Silent(trace) == Silent(front);
        SpokenOne(Appends(front), last.event);
      } else {
        AppendsSnoc(Silent(front), last);
        AppendsSnoc(front, last);
        assert front + [last] == trace;
        if last.Appended? { SpokenOne(Appends(front), last.event); }
      }
    }
  }

  lemma AppendsSnoc(trace: seq<Step>, step: Step)
    ensures step.Appended? ==> Appends(trace + [step]) == Appends(trace) + [step.event]
    ensures !step.Appended? ==> Appends(trace + [step]) == Appends(trace)
  {
    assert Front(trace + [step]) == trace;
  }

  lemma {:induction false} SilentKeepsHooks(trace: seq<Step>)
    requires HooksAfterSuccess(Silent(trace))
    ensures HooksAfterSuccess(trace)
  {
    if trace != [] {
      var front, last := Front(trace), Last(trace);
      if IsAudio(last) {
        assert Silent(trace) == Silent(front);
      } else {
        assert Front(Silent(trace)) == Silent(front);
        SilentMembers(front, TriedToComplete(true));
      }
      SilentKeepsHooks(front);
    }
  }

  lemma {:induction false} RelayedAppends(events: seq<RunEvent>)
    ensures Appends(Relayed(events)) == Spoken(events)
    ensures forall step :: step in Relayed(events) ==> step.Appended?
  {
    if events != [] {
      RelayedAppends(Front(events));
      AppendsConcat(Relayed(Front(events)), if Last(events).AudioDelta? then [] else [Appended(Last(events))]);
    }
  }

  /** A trace without attempts and without Completed hooks. */
  ghost predicate Unfinished(trace: seq<Step>) {
    forall step :: step in trace ==> !step.TriedToComplete? && step != FiredHooks(Completed) && step != Wrote(Completed)
  }

  lemma {:induction false} UnfinishedFacts(trace: seq<Step>)
    requires Unfinished(trace)
    ensures Count(trace, IsAttempt) == 0 && HooksAfterSuccess(trace)
  {
    if trace != [] {
      assert forall step :: step in Front(trace) ==> step in trace;
      UnfinishedFacts(Front(trace));
    }
  }

  lemma HooksSnoc(trace: seq<Step>, step: Step)
    requires HooksAfterSuccess(trace) && (step == FiredHooks(Completed) ==> TriedToComplete(true) in trace)
    ensures HooksAfterSuccess(trace + [step])
  {
    assert Front(trace + [step]) == trace;
  }

  lemma {:induction false} CompletionOrder(persists: nat -> bool, attempt: nat, before: seq<Step>)
    requires 1 <= attempt <= PERSIST_ATTEMPTS && HooksAfterSuccess(before)
    ensures HooksAfterSuccess(before + Completion(persists, attempt))
    decreases PERSIST_ATTEMPTS - attempt
  {
    if persists(attempt) {
      var tried, fired := TriedToComplete(true), FiredHooks(Completed);
      HooksSnoc(before, tried);
      HooksSnoc(before + [tried], fired);
      assert before + [tried, fired] == before + [tried] + [fired];
    } else {
      var failed := TriedToComplete(false);
      HooksSnoc(before, failed);
      if attempt < PERSIST_ATTEMPTS {
        CompletionOrder(persists, attempt + 1, before + [failed]);
        Associate(before, [failed], Completion(persists, attempt + 1));
      }
    }
  }

  lemma {:induction false} CompletionFacts(persists: nat -> bool, attempt: nat)
    requires 1 <= attempt <= PERSIST_ATTEMPTS
    ensures var steps := Completion(persists, attempt);
            && (TriedToComplete(true) in steps <==> exists a :: attempt <= a <= PERSIST_ATTEMPTS && persists(a))
            && (FiredHooks(Completed) in steps <==> TriedToComplete(true) in steps)
            && Wrote(Completed) !in steps && MarkedDone !in steps && Appends(steps) == []
            && Count(steps, IsAttempt) <= PERSIST_ATTEMPTS + 1 - attempt
    decreases PERSIST_ATTEMPTS - attempt
  {
    if persists(attempt) {
      assert [TriedToComplete(true), FiredHooks(Completed)] == [TriedToComplete(true)] + [FiredHooks(Completed)];
      CountConcat([TriedToComplete(true)], [FiredHooks(Completed)], IsAttempt);
      AppendsConcat([TriedToComplete(true)], [FiredHooks(Completed)]);
    } else if attempt < PERSIST_ATTEMPTS {
      CompletionFacts(persists, attempt + 1);
      CountConcat([TriedToComplete(false)], Completion(persists, attempt + 1), IsAttempt);
      AppendsConcat([TriedToComplete(false)], Completion(persists, attempt + 1));
    }
  }

  ghost predicate PersistsInTime(w: World) {
    exists a :: 1 <= a <= PERSIST_ATTEMPTS && w.persists(a)
  }

  /** The run is to be marked completed. */
  ghost predicate Completes(w: World) {
    Accepted(w) && !w.contextEnded && LastFatal(w.stream) == ""
  }

  /** What is promised about completion. */
  ghost predicate CompletedProperly(w: World, trace: seq<Step>) {
    && (TriedToComplete(true) in trace <==> Completes(w) && PersistsInTime(w))
    && (FiredHooks(Completed) in trace <==> TriedToComplete(true) in trace)
    && Wrote(Completed) !in trace
    && Count(trace, IsAttempt) <= PERSIST_ATTEMPTS
    && HooksAfterSuccess(trace)
  }

  lemma AcceptedOpening(w: World, opening: seq<Step>)
    requires opening == [Wrote(Active)] + Relayed(w.stream)
    ensures Unfinished(opening) && Appends(opening) == Spoken(w.stream)
  {
    RelayedAppends(w.stream);
    AppendsConcat([Wrote(Active)], Relayed(w.stream));
  }

  lemma CompletionIsProper(w: World, opening: seq<Step>)
    requires Completes(w) && opening == [Wrote(Active)] + Relayed(w.stream)
    ensures CompletedProperly(w, opening + Completion(w.persists, 1))
    ensures Appends(opening + Completion(w.persists, 1)) == Spoken(w.stream)
  {
    AcceptedOpening(w, opening);
    UnfinishedFacts(opening);
    CompletionOrder(w.persists, 1, opening);
    CompletionFacts(w.persists, 1);
    CountConcat(opening, Completion(w.persists, 1), IsAttempt);
    AppendsConcat(opening, Completion(w.persists, 1));
  }

  lemma OtherEndings(w: World, trace: seq<Step>)
    requires !Completes(w) && Unfinished(trace)
    ensures CompletedProperly(w, trace)
  {
    UnfinishedFacts(trace);
  }

  lemma ThreeAppends(a: Step, b: Step, c: Step)
    ensures Appends([a, b, c]) == (if a.Appended? then [a.event] else []) + (if b.Appended? then [b.event] else [])
                                  + (if c.Appended? then [c.event] else [])
  {
    assert [a, b, c] == [a] + [b] + [c];
    AppendsConcat([a] + [b], [c]);
    AppendsConcat([a], [b]);
  }

  lemma EndingAppends(w: World)
    requires Accepted(w) && !Completes(w)
    ensures Appends(Ending(w)) == SyntheticError(w) && Unfinished(Ending(w))
  {
    if w.contextEnded {
      ThreeAppends(Ending(w)[0], Ending(w)[1], Ending(w)[2]);
    } else {
      assert [Wrote(Failed), FiredHooks(Failed)] == [Wrote(Failed)] + [FiredHooks(Failed)];
      AppendsConcat([Wrote(Failed)], [FiredHooks(Failed)]);
    }
  }

  lemma ExpectedIsProper(w: World)
    ensures CompletedProperly(w, Expected(w))
    ensures Appends(Expected(w)) == (if Accepted(w) then Spoken(w.stream) else []) + SyntheticError(w)
  {
    if Completes(w) {
      CompletionIsProper(w, [Wrote(Active)] + Relayed(w.stream));
    } else if Accepted(w) {
      var opening := [Wrote(Active)] + Relayed(w.stream);
      AcceptedOpening(w, opening);
      EndingAppends(w);
      AppendsConcat(opening, Ending(w));
      OtherEndings(w, Expected(w));
    } else {
      RefusedAppends(w);
      OtherEndings(w, Expected(w));
    }
  }

  lemma RefusedAppends(w: World)
    requires !Accepted(w)
    ensures Appends(Expected(w)) == SyntheticError(w)
  {
    if w.cancelPersisted && !w.cancelRecorded {
      assert Expected(w) == [Expected(w)[0]] + [Expected(w)[1]];
      AppendsConcat([Expected(w)[0]], [Expected(w)[1]]);
    } else {
      ThreeAppends(Expected(w)[0], Expected(w)[1], Expected(w)[2]);
    }
  }

  /**
   * Of every trace the worker leaves, with or without audio: the run is marked completed exactly when the runner
   * accepted it, the context was live at the final check, the last fatal model error had no message, and one of at
   * most three attempts succeeds; Completed hooks fire exactly then, and only afterwards; and the events appended,
   * without audio, are the runner's in order and then at most one synthetic error.
   */
  lemma CompletedExactly(w: World, trace: seq<Step>)
    requires Silent(trace) == Expected(w) + [MarkedDone]
    ensures CompletedProperly(w, trace)
    ensures Spoken(Appends(trace)) == (if Accepted(w) then Spoken(w.stream) else []) + SyntheticError(w)
    ensures |SyntheticError(w)| <= 1
  {
    ExpectedIsProper(w);
    AppendsSnoc(Expected(w), MarkedDone);
    SilentKeepsAppends(trace);
    DoneKeepsProper(w, Expected(w), Silent(trace));
    AudioKeepsProper(w, trace);
  }

  lemma SnocMembers(steps: seq<Step>, last: Step, step: Step)
    requires step != last
    ensures step in steps + [last] <==> step in steps
  {
  }

  lemma DoneKeepsProper(w: World, steps: seq<Step>, trace: seq<Step>)
    requires CompletedProperly(w, steps) && trace == steps + [MarkedDone]
    ensures CompletedProperly(w, trace)
  {
    HooksSnoc(steps, MarkedDone);
    assert Front(trace) == steps;
    SnocMembers(steps, MarkedDone, TriedToComplete(true));
    SnocMembers(steps, MarkedDone, FiredHooks(Completed));
    SnocMembers(steps, MarkedDone, Wrote(Completed));
  }

  lemma AudioKeepsProper(w: World, trace: seq<Step>)
    requires CompletedProperly(w, Silent(trace))
    ensures CompletedProperly(w, trace)
  {
    SilentMembers(trace, TriedToComplete(true));
    SilentMembers(trace, FiredHooks(Completed));
    SilentMembers(trace, Wrote(Completed));
    SilentKeepsCount(trace, IsAttempt);
    SilentKeepsHooks(trace);
  }

  // ---------------------------------------------------------------- the terminal status

  /** Fatal model errors are those of the two codes for which the runner itself tells the user. */
  lemma FatalExactly(event: RunEvent, message: string)
    ensures Fatal(event) && event.message == message <==>
              event == ErrorEvent("stream_consume", message) || event == ErrorEvent("llm_call", message)
  {
    match event
    case ErrorEvent(code, text) =>
    case _ =>
  }

  /** The last fatal error that the model reported has a message. */
  ghost predicate ModelFailed(stream: seq<RunEvent>) {
    exists i :: FatalAt(stream, i) && stream[i].message != ""
  }

  /** The last fatal model error of the stream. */
  ghost predicate FatalAt(stream: seq<RunEvent>, i: int) {
    0 <= i < |stream| && Fatal(stream[i]) && forall j :: i < j < |stream| ==> !Fatal(stream[j])
  }

  lemma {:induction false} LastFatalIsLast(stream: seq<RunEvent>, i: nat)
    requires FatalAt(stream, i)
    ensures LastFatal(stream) == stream[i].message
  {
    if i < |stream| - 1 { LastFatalIsLast(Front(stream), i); }
  }

  lemma {:induction false} FindFatal(stream: seq<RunEvent>) returns (i: int)
    ensures i == -1 || FatalAt(stream, i)
    ensures i == -1 ==> LastFatal(stream) == "" && forall j :: 0 <= j < |stream| ==> !Fatal(stream[j])
  {
    if stream == [] {
      i := -1;
    } else if Fatal(Last(stream)) {
      i := |stream| - 1;
    } else {
      i := FindFatal(Front(stream));
      assert forall j :: 0 <= j < |stream| - 1 ==> stream[j] == Front(stream)[j];
    }
  }

  lemma FatalReported(stream: seq<RunEvent>)
    ensures LastFatal(stream) != "" <==> ModelFailed(stream)
  {
    var i := FindFatal(stream);
    if i >= 0 {
      LastFatalIsLast(stream, i);
      forall k | FatalAt(stream, k) ensures k == i {}
    }
  }

  /** The user stopped the run while it ran. */
  ghost predicate StoppedLate(w: World) {
    !w.cancelRecorded && !w.cancelPersisted && w.startupError.None? && w.contextEnded && w.cancelledLate
  }

  /** The run timed out, or the model failed while its context was live. */
  ghost predicate FailedLate(w: World) {
    && !w.cancelRecorded && !w.cancelPersisted && w.startupError.None?
    && if w.contextEnded then !w.cancelledLate else ModelFailed(w.stream)
  }

  ghost predicate FailedToStart(w: World) {
    !w.cancelRecorded && !w.cancelPersisted && w.startupError.Some?
  }

  /** What is promised about the statuses written and the hooks fired. */
  ghost predicate EndedProperly(w: World, trace: seq<Step>) {
    && (Wrote(Cancelled) in trace <==> w.cancelRecorded || StoppedLate(w))
    && (Wrote(Failed) in trace <==> FailedToStart(w) || FailedLate(w))
    && (Wrote(Active) in trace <==> !w.cancelRecorded && !w.cancelPersisted)
    && (FiredHooks(Cancelled) in trace <==> w.cancelRecorded || w.cancelPersisted || StoppedLate(w))
    && (FiredHooks(Failed) in trace <==> FailedLate(w))
    && Count(trace, EndsRun) <= 1
  }

  lemma {:induction false} CompletionEndsOnce(persists: nat -> bool, attempt: nat)
    requires 1 <= attempt <= PERSIST_ATTEMPTS
    ensures var steps := Completion(persists, attempt);
            && Count(steps, EndsRun) <= 1
            && forall step :: step in steps ==> step.TriedToComplete? || step == FiredHooks(Completed)
    decreases PERSIST_ATTEMPTS - attempt
  {
    if persists(attempt) {
      CountConcat([TriedToComplete(true)], [FiredHooks(Completed)], EndsRun);
      assert [TriedToComplete(true), FiredHooks(Completed)] == [TriedToComplete(true)] + [FiredHooks(Completed)];
    } else if attempt < PERSIST_ATTEMPTS {
      CompletionEndsOnce(persists, attempt + 1);
      CountConcat([TriedToComplete(false)], Completion(persists, attempt + 1), EndsRun);
    }
  }

  lemma {:induction false} RelayedEndsNothing(events: seq<RunEvent>)
    ensures Count(Relayed(events), EndsRun) == 0
  {
    if events != [] {
      RelayedEndsNothing(Front(events));
      CountConcat(Relayed(Front(events)), if Last(events).AudioDelta? then [] else [Appended(Last(events))], EndsRun);
    }
  }

  lemma CountTwo(a: Step, b: Step, p: Step -> bool)
    ensures Count([a, b], p) == (if p(a) then 1 else 0) + (if p(b) then 1 else 0)
  {
    var none: seq<Step> := [];
    assert Count(none, p) == 0 && Front([a]) == none && Front([a, b]) == [a];
  }

  lemma CountThree(a: Step, b: Step, c: Step, p: Step -> bool)
    ensures Count([a, b, c], p) == (if p(a) then 1 else 0) + (if p(b) then 1 else 0) + (if p(c) then 1 else 0)
  {
    CountTwo(a, b, p);
    assert Front([a, b, c]) == [a, b];
  }

  lemma EndingEnds(w: World)
    ensures var e := Ending(w);
            && Count(e, EndsRun) <= 1 && Wrote(Active) !in e
            && (Wrote(Cancelled) in e <==> w.contextEnded && w.cancelledLate)
            && (FiredHooks(Cancelled) in e <==> w.contextEnded && w.cancelledLate)
            && (Wrote(Failed) in e <==> if w.contextEnded then !w.cancelledLate else ModelFailed(w.stream))
            && (FiredHooks(Failed) in e <==> if w.contextEnded then !w.cancelledLate else ModelFailed(w.stream))
  {
    FatalReported(w.stream);
    CompletionEndsOnce(w.persists, 1);
    if w.contextEnded {
      CountThree(Ending(w)[0], Ending(w)[1], Ending(w)[2], EndsRun);
    } else {
      CountTwo(Wrote(Failed), FiredHooks(Failed), EndsRun);
    }
  }

  lemma AcceptedMember(w: World, step: Step)
    requires Accepted(w) && !step.Appended?
    ensures step in Expected(w) <==> step == Wrote(Active) || step in Ending(w)
  {
    RelayedAppends(w.stream);
  }

  lemma AcceptedEndsOnce(w: World)
    requires Accepted(w)
    ensures Count(Expected(w), EndsRun) <= 1
  {
    var opening := [Wrote(Active)] + Relayed(w.stream);
    EndingEnds(w);
    RelayedEndsNothing(w.stream);
    CountConcat([Wrote(Active)], Relayed(w.stream), EndsRun);
    CountConcat(opening, Ending(w), EndsRun);
  }

  lemma AcceptedEnds(w: World)
    requires Accepted(w)
    ensures EndedProperly(w, Expected(w))
  {
    AcceptedMember(w, Wrote(Cancelled));
    AcceptedMember(w, Wrote(Failed));
    AcceptedMember(w, Wrote(Active));
    AcceptedMember(w, FiredHooks(Cancelled));
    AcceptedMember(w, FiredHooks(Failed));
    EndingEnds(w);
    AcceptedEndsOnce(w);
  }

  lemma RefusedEnds(w: World)
    requires !Accepted(w)
    ensures EndedProperly(w, Expected(w))
  {
    if w.cancelPersisted && !w.cancelRecorded {
      CountTwo(Expected(w)[0], Expected(w)[1], EndsRun);
    } else {
      CountThree(Expected(w)[0], Expected(w)[1], Expected(w)[2], EndsRun);
    }
  }

  lemma EndsAlike(w: World, steps: seq<Step>, trace: seq<Step>)
    requires EndedProperly(w, steps) && Silent(trace) == steps + [MarkedDone]
    ensures EndedProperly(w, trace)
  {
    SilentMembers(trace, Wrote(Cancelled));
    SilentMembers(trace, Wrote(Failed));
    SilentMembers(trace, Wrote(Active));
    SilentMembers(trace, FiredHooks(Cancelled));
    SilentMembers(trace, FiredHooks(Failed));
    SilentKeepsCount(trace, EndsRun);
    CountConcat(steps, [MarkedDone], EndsRun);
  }

  /**
   * Of every trace the worker leaves: the row is written cancelled exactly when the cancellation was recorded before
   * the start or ended the context of an accepted run, and failed exactly when start-up failed, the run timed out, or
   * the model failed in a live run; hooks fire with the same status, and also when the row was found cancelled, but
   * not when start-up failed; and no run gets two terminal statuses.
   */
  lemma StatusExactly(w: World, trace: seq<Step>)
    requires Silent(trace) == Expected(w) + [MarkedDone]
    ensures EndedProperly(w, trace)
  {
    if Accepted(w) { AcceptedEnds(w); } else { RefusedEnds(w); }
    EndsAlike(w, Expected(w), trace);
  }

  /** No hook fires before step k. */
  ghost predicate NoHooksBefore(trace: seq<Step>, k: int) {
    forall i :: 0 <= i < |trace| && i < k ==> !trace[i].FiredHooks?
  }

  lemma {:induction false} HeardIsAppended(w: World, n: nat)
    requires n <= |w.stream|
    ensures forall i :: 0 <= i < |Heard(w, n)| ==> Heard(w, n)[i].Appended?
  {
    if n > 0 { HeardIsAppended(w, n - 1); }
  }

  lemma {:induction false} CompletionHooksLast(persists: nat -> bool, attempt: nat)
    requires 1 <= attempt <= PERSIST_ATTEMPTS
    ensures NoHooksBefore(Completion(persists, attempt), |Completion(persists, attempt)| - 1)
    decreases PERSIST_ATTEMPTS - attempt
  {
    if !persists(attempt) && attempt < PERSIST_ATTEMPTS { CompletionHooksLast(persists, attempt + 1); }
  }

  lemma HooksAreLast(w: World)
    ensures NoHooksBefore(Whole(w), |Whole(w)| - 1)
  {
    if Accepted(w) {
      HeardIsAppended(w, |w.stream|);
      CompletionHooksLast(w.persists, 1);
      NoHooksAppended([Wrote(Active)] + Drained(w), Ending(w));
    }
  }

  lemma NoHooksAppended(opening: seq<Step>, ending: seq<Step>)
    requires NoHooksBefore(opening, |opening|) && NoHooksBefore(ending, |ending| - 1)
    ensures NoHooksBefore(opening + ending, |opening + ending| - 1)
  {
  }

  /**
   * Hooks fire at most once, after every write and every event, and the client is told what they are told: a
   * cancellation, a timeout or a failed start-up by one last error event, and otherwise nothing more.
   */
  lemma ClientIsTold(w: World, trace: seq<Step>)
    requires trace == Whole(w) + [MarkedDone]
    ensures forall i :: 0 <= i < |trace| && trace[i].FiredHooks? ==> i == |trace| - 2
    ensures SyntheticError(w) == [ErrorEvent("cancelled", "run cancelled by user")] <==> FiredHooks(Cancelled) in trace
    ensures SyntheticError(w) == [TIMEOUT_ERROR] <==> FailedLate(w) && w.contextEnded
    ensures SyntheticError(w) == [] <==> Accepted(w) && !w.contextEnded
    ensures FailedToStart(w) ==> SyntheticError(w) == [ErrorEvent("startup", w.startupError.value)]
  {
    HooksAreLast(w);
    DoneIsHeard(w, trace);
    StatusExactly(w, trace);
  }

  // ---------------------------------------------------------------- what the voice says

  /** A single event: only a delta has text, and only run_complete ends the run. */
  lemma OneEvent(event: RunEvent)
    ensures TextOf([event]) == if event.TextDelta? then event.content else ""
    ensures Closings([event]) == if event.RunComplete? then 1 else 0
  {
    assert Front([event]) == [];
  }

  /** Text adds up over a stream, and so do the ends of a run. */
  lemma {:induction false} TextAddsUp(a: seq<RunEvent>, b: seq<RunEvent>)
    ensures TextOf(a + b) == TextOf(a) + TextOf(b)
    ensures Closings(a + b) == Closings(a) + Closings(b)
  {
    if b == [] {
      assert a + b == a;
    } else {
      var front, last := Front(b), Last(b);
      TextAddsUp(a, front);
      TextSnoc(front, last);
      TextSnoc(a + front, last);
      Associate(a, front, [last]);
      assert front + [last] == b;
      Associate(TextOf(a), TextOf(front), if last.TextDelta? then last.content else "");
    }
  }

  lemma TextSnoc(events: seq<RunEvent>, event: RunEvent)
    ensures TextOf(events + [event]) == TextOf(events) + if event.TextDelta? then event.content else ""
    ensures Closings(events + [event]) == Closings(events) + if event.RunComplete? then 1 else 0
  {
    assert Front(events + [event]) == events;
  }

  lemma {:induction false} HeardGrows(w: World, n: nat, more: nat)
    requires n <= more <= |w.stream|
    ensures Heard(w, n) <= Heard(w, more)
  {
    if n < more { HeardGrows(w, n, more - 1); }
  }

  /** With voice output the end of the run comes right after the audio of the text so far, if that can be made. */
  lemma EndIsSpoken(w: World, k: nat)
    requires k < |w.stream| && w.stream[k].RunComplete? && w.voiceOutput
    ensures var voice, at := w.voice(Closings(w.stream[..k]), TextOf(w.stream[..k])), |Heard(w, k)|;
            var drained := Drained(w);
            if voice.Some? then at + 1 < |drained| && drained[at] == Appended(AudioDelta(voice.value))
                                && drained[at + 1] == Appended(RunComplete)
            else at < |drained| && drained[at] == Appended(RunComplete)
  {
    HeardGrows(w, k + 1, |w.stream|);
    var next := Heard(w, k + 1);
    assert next == Heard(w, k) + Audio(VoiceAt(w, k)) + [Appended(w.stream[k])];
    assert next == Drained(w)[..|next|];
  }

  /** Nothing is put before any other event. */
  lemma OnlyEndsAreSpoken(w: World, k: nat)
    requires k < |w.stream| && !w.stream[k].RunComplete?
    ensures var at, drained := |Heard(w, k)|, Drained(w);
            && at < |drained| && drained[at] == Appended(w.stream[k])
            && (k + 1 < |w.stream| && !w.stream[k + 1].RunComplete? ==>
                  at + 1 < |drained| && drained[at + 1] == Appended(w.stream[k + 1]))
  {
    HeardGrows(w, k + 1, |w.stream|);
    assert Heard(w, k + 1) == Heard(w, k) + [Appended(w.stream[k])];
    assert Heard(w, k + 1) == Drained(w)[..|Heard(w, k + 1)|];
    if k + 1 < |w.stream| && !w.stream[k + 1].RunComplete? {
      HeardGrows(w, k + 2, |w.stream|);
      assert Heard(w, k + 2) == Heard(w, k + 1) + [Appended(w.stream[k + 1])];
      assert Heard(w, k + 2) == Drained(w)[..|Heard(w, k + 2)|];
    }
  }

  lemma {:induction false} SpokeExactly(w: World, n: nat, k: nat)
    requires k < n <= |w.stream| && w.stream[k].RunComplete?
    requires forall j :: k < j < n ==> !w.stream[j].RunComplete?
    ensures Spoke(w, n) <==> VoiceAt(w, k).Some?
  {
    if k < n - 1 { SpokeExactly(w, n - 1, k); }
  }

  lemma {:induction false} NeverSpoke(w: World, n: nat)
    requires n <= |w.stream| && forall j :: 0 <= j < n ==> !w.stream[j].RunComplete?
    ensures !Spoke(w, n)
  {
    if n > 0 { NeverSpoke(w, n - 1); }
  }

  lemma {:induction false} LastEnd(stream: seq<RunEvent>) returns (k: int)
    ensures -1 <= k < |stream| && (k >= 0 ==> stream[k].RunComplete?)
    ensures forall j :: k < j < |stream| ==> !stream[j].RunComplete?
  {
    if stream == [] {
      k := -1;
    } else if Last(stream).RunComplete? {
      k := |stream| - 1;
    } else {
      k := LastEnd(Front(stream));
      assert forall j :: k < j < |Front(stream)| ==> stream[j] == Front(stream)[j];
    }
  }

  /** The last end of the run, if there is one, was not spoken. */
  ghost predicate EndUnspoken(w: World) {
    forall k :: 0 <= k < |w.stream| && w.stream[k].RunComplete?
                && (forall j :: k < j < |w.stream| ==> !w.stream[j].RunComplete?) ==>
                  w.voice(Closings(w.stream[..k]), TextOf(w.stream[..k])).None?
  }

  /**
   * The whole text is spoken at the very end exactly if voice output is on and the last end of the run was not spoken;
   * without voice output there is no audio but the runner's own.
   */
  lemma LastWordsExactly(w: World)
    ensures var voice := w.voice(Closings(w.stream), TextOf(w.stream));
            LastWords(w) == if w.voiceOutput && EndUnspoken(w) then voice else None
    ensures LastWords(w).Some? ==> Last(Drained(w)) == Appended(AudioDelta(LastWords(w).value))
    ensures !w.voiceOutput ==> Appends(Drained(w)) == w.stream
  {
    var k := LastEnd(w.stream);
    if k >= 0 { SpokeExactly(w, |w.stream|, k); } else { NeverSpoke(w, |w.stream|); }
    if !w.voiceOutput {
      SilentHeard(w, |w.stream|);
      assert w.stream[..|w.stream|] == w.stream && Drained(w) == Heard(w, |w.stream|);
    }
  }

  lemma {:induction false} SilentHeard(w: World, n: nat)
    requires n <= |w.stream| && !w.voiceOutput
    ensures Appends(Heard(w, n)) == w.stream[..n]
  {
    if n > 0 {
      SilentHeard(w, n - 1);
      SilentStep(w, n, Heard(w, n - 1));
    }
  }

  lemma SilentStep(w: World, n: nat, before: seq<Step>)
    requires 0 < n <= |w.stream| && !w.voiceOutput
    requires before == Heard(w, n - 1) && Appends(before) == w.stream[..n - 1]
    ensures Appends(Heard(w, n)) == w.stream[..n]
  {
    assert Heard(w, n) == before + [Appended(w.stream[n - 1])];
    AppendsSnoc(before, Appended(w.stream[n - 1]));
    assert w.stream[..n] == w.stream[..n - 1] + [w.stream[n - 1]];
  }

  // ---------------------------------------------------------------- the worker

  function Tries(persists: nat -> bool, n: nat): (steps: seq<Step>)
    ensures |steps| == n
  {
    seq(n, i requires 0 <= i < n => TriedToComplete(persists(i + 1)))
  }

  lemma {:induction false} CompletionIs(persists: nat -> bool, first: nat, last: nat)
    requires 1 <= first <= last <= PERSIST_ATTEMPTS
    requires forall a :: first <= a < last ==> !persists(a)
    requires persists(last) || last == PERSIST_ATTEMPTS
    ensures Completion(persists, first)
         == seq(last + 1 - first, i requires 0 <= i <= last - first => TriedToComplete(persists(first + i)))
            + if persists(last) then [FiredHooks(Completed)] else []
    decreases last - first
  {
    if first < last {
      CompletionIs(persists, first + 1, last);
    }
  }

  lemma TriesComplete(persists: nat -> bool, attempts: nat)
    requires 1 <= attempts <= PERSIST_ATTEMPTS
    requires forall a :: 1 <= a < attempts ==> !persists(a)
    requires persists(attempts) || attempts == PERSIST_ATTEMPTS
    ensures Completion(persists, 1)
         == Tries(persists, attempts) + if persists(attempts) then [FiredHooks(Completed)] else []
  {
    CompletionIs(persists, 1, attempts);
    assert Tries(persists, attempts)
        == seq(attempts, i requires 0 <= i < attempts => TriedToComplete(persists(1 + i)));
  }

  lemma CompletionAppendsNothing(persists: nat -> bool, was: seq<Step>, trace: seq<Step>)
    requires trace == was + Completion(persists, 1)
    ensures Appends(trace) == Appends(was) && (MarkedDone in trace <==> MarkedDone in was)
  {
    CompletionFacts(persists, 1);
    AppendsConcat(was, Completion(persists, 1));
  }

  lemma EventsSnoc(log: seq<BufferedEvent>, e: BufferedEvent)
    ensures EventsOf(log + [e]) == EventsOf(log) + [e.event]
  {
  }

  /** What the worker remembers of the first n events. */
  ghost predicate Remembers(w: World, n: nat, text: string, syntheses: nat, spoken: bool, fatal: string)
    requires n <= |w.stream|
  {
    && text == TextOf(w.stream[..n]) && syntheses == Closings(w.stream[..n])
    && spoken == Spoke(w, n) && fatal == LastFatal(w.stream[..n])
  }

  lemma NothingRemembered(w: World)
    ensures Remembers(w, 0, "", 0, false, "") && Heard(w, 0) == []
  {
  }

  lemma AllRemembered(w: World, text: string, syntheses: nat, spoken: bool, fatal: string)
    requires Remembers(w, |w.stream|, text, syntheses, spoken, fatal)
    ensures text == TextOf(w.stream) && syntheses == Closings(w.stream) && fatal == LastFatal(w.stream)
  {
    assert w.stream[..|w.stream|] == w.stream;
  }

  lemma HeardStep(w: World, i: nat, start: seq<Step>, was: seq<Step>, trace: seq<Step>)
    requires i < |w.stream| && was == start + Heard(w, i)
    requires trace == was + Audio(VoiceAt(w, i)) + [Appended(w.stream[i])]
    ensures trace == start + Heard(w, i + 1)
  {
    Assemble(start, Heard(w, i), Audio(VoiceAt(w, i)), [Appended(w.stream[i])], trace);
  }

  /** One processing of a task; `trace` records what it does where it does it. */
  class Worker {
    const buf: EventBuffer
    var trace: seq<Step>
    /** The buffer before the task. */
    ghost const before: seq<RunEvent>
    ghost const wasDone: bool

    ghost predicate Valid()
      reads this, buf, buf.buf
    {
      && buf.Valid()
      && EventsOf(buf.log) == before + Appends(trace)
      && (buf.done <==> wasDone || MarkedDone in trace)
    }

    constructor (buf: EventBuffer)
      requires buf.Valid()
      ensures Valid() && this.buf == buf && trace == []
      ensures before == EventsOf(buf.log) && wasDone == buf.done
    {
      this.buf := buf;
      trace := [];
      before := EventsOf(buf.log);
      wasDone := buf.done;
    }

    /** Nothing is appended once the buffer is marked done. */
    method Append(event: RunEvent)
      requires Valid() && MarkedDone !in trace
      modifies this`trace, buf, buf.buf
      ensures Valid() && MarkedDone !in trace && trace == old(trace) + [Appended(event)]
    {
      ghost var log, was := buf.log, trace;
      var n := buf.Append(event);
      trace := trace + [Appended(event)];
      EventsSnoc(log, BufferedEvent(n, event));
      AppendsSnoc(was, Appended(event));
      Associate(before, Appends(was), [event]);
    }

    method MarkDone()
      requires Valid()
      modifies this`trace, buf
      ensures Valid() && trace == old(trace) + [MarkedDone]
    {
      AppendsSnoc(trace, MarkedDone);
      buf.MarkDone();
      trace := trace + [MarkedDone];
    }

    /** A call of the run repository or of the hooks. */
    method Call(step: Step)
      requires Valid() && !step.Appended? && !step.MarkedDone?
      modifies this`trace
      ensures Valid() && trace == old(trace) + [step]
      ensures MarkedDone in trace <==> MarkedDone in old(trace)
    {
      AppendsSnoc(trace, step);
      trace := trace + [step];
    }

    /** Append the synthesized audio, if any came out. */
    method AppendVoice(voice: Option<string>) returns (emitted: bool)
      requires Valid() && MarkedDone !in trace
      modifies this`trace, buf, buf.buf
      ensures Valid() && MarkedDone !in trace && emitted == voice.Some?
      ensures trace == old(trace) + Audio(voice)
    {
      emitted := voice.Some?;
      if emitted {
        Append(AudioDelta(voice.value));
      }
    }

    /** One event of the runner: audio first when the run is complete, then the event itself. */
    method Relay(w: World, i: nat, text: string, syntheses: nat) returns (spoken: bool)
      requires Valid() && MarkedDone !in trace && i < |w.stream|
      requires w.stream[i].RunComplete? ==> text == TextOf(w.stream[..i]) && syntheses == Closings(w.stream[..i])
      modifies this`trace, buf, buf.buf
      ensures Valid() && MarkedDone !in trace && spoken == VoiceAt(w, i).Some?
      ensures trace == old(trace) + Audio(VoiceAt(w, i)) + [Appended(w.stream[i])]
    {
      spoken := false;
      if w.voiceOutput && w.stream[i].RunComplete? {
        spoken := AppendVoice(w.voice(syntheses, text));
      }
      Append(w.stream[i]);
    }

    /** The next event of the stream, relayed and remembered. */
    method Take(w: World, i: nat, text: string, syntheses: nat, spoken: bool, fatal: string)
      returns (text': string, syntheses': nat, spoken': bool, fatal': string)
      requires Valid() && MarkedDone !in trace && i < |w.stream|
      requires Remembers(w, i, text, syntheses, spoken, fatal)
      modifies this`trace, buf, buf.buf
      ensures Valid() && MarkedDone !in trace
      ensures trace == old(trace) + Audio(VoiceAt(w, i)) + [Appended(w.stream[i])]
      ensures Remembers(w, i + 1, text', syntheses', spoken', fatal')
    {
      var event := w.stream[i];
      text', syntheses', spoken', fatal' := text, syntheses, spoken, fatal;
      if event.TextDelta? {
        text' := text + event.content;
      }
      var emitted := Relay(w, i, text', syntheses);
      if event.RunComplete? {
        spoken', syntheses' := emitted, syntheses + 1;
      }
      if Fatal(event) {
        fatal' := event.message;
      }
      StreamStep(w.stream, i, w.stream[..i], w.stream[..i + 1]);
    }

    /** Drain the runner's channel into the buffer, remembering the last fatal model error. */
    method Drain(w: World) returns (fatal: string)
      requires Valid() && MarkedDone !in trace
      modifies this`trace, buf, buf.buf
      ensures Valid() && MarkedDone !in trace
      ensures trace == old(trace) + Drained(w)
      ensures fatal == LastFatal(w.stream)
    {
      fatal := "";
      var text, syntheses, spoken := "", 0, false;
      ghost var start := trace;
      NothingRemembered(w);
      for i := 0 to |w.stream|
        invariant Valid() && MarkedDone !in trace
        invariant trace == start + Heard(w, i)
        invariant Remembers(w, i, text, syntheses, spoken, fatal)
      {
        ghost var was := trace;
        text, syntheses, spoken, fatal := Take(w, i, text, syntheses, spoken, fatal);
        HeardStep(w, i, start, was, trace);
      }
      AllRemembered(w, text, syntheses, spoken, fatal);
      Finale(w, text, syntheses, spoken);
      Associate(start, Heard(w, |w.stream|), Audio(LastWords(w)));
    }

    /** The voice of an answer that no end of the run has spoken. */
    method Finale(w: World, text: string, syntheses: nat, emitted: bool)
      requires Valid() && MarkedDone !in trace && emitted == Spoke(w, |w.stream|)
      requires text == TextOf(w.stream) && syntheses == Closings(w.stream)
      modifies this`trace, buf, buf.buf
      ensures Valid() && MarkedDone !in trace && trace == old(trace) + Audio(LastWords(w))
    {
      if w.voiceOutput && !emitted {
        var spoken := AppendVoice(w.voice(syntheses, text));
      } else {
        assert trace + [] == trace;
      }
    }

    /** Retry an idempotent terminal write; `ended(n)` says whether the context has ended after attempt n. */
    method RetryPersistence(persists: nat -> bool, ended: nat -> bool) returns (ok: bool, attempts: nat)
      modifies this`trace
      ensures trace == old(trace) + Tries(persists, attempts)
      ensures 1 <= attempts <= PERSIST_ATTEMPTS
      ensures forall a :: 1 <= a < attempts ==> !persists(a) && !ended(a)
      ensures ok == persists(attempts)
      ensures !ok ==> attempts == PERSIST_ATTEMPTS || ended(attempts)
    {
      attempts := 1;
      while true
        invariant 1 <= attempts <= PERSIST_ATTEMPTS
        invariant trace == old(trace) + Tries(persists, attempts - 1)
        invariant forall a :: 1 <= a < attempts ==> !persists(a) && !ended(a)
        decreases PERSIST_ATTEMPTS - attempts
      {
        trace := trace + [TriedToComplete(persists(attempts))];
        assert Tries(persists, attempts) == Tries(persists, attempts - 1) + [TriedToComplete(persists(attempts))];
        if persists(attempts) {
          return true, attempts;
        }
        if attempts == PERSIST_ATTEMPTS || ended(attempts) {
          return false, attempts;
        }
        attempts := attempts + 1;
      }
    }

    /** Up to three attempts to mark the run completed, then the hooks. */
    method Complete(persists: nat -> bool)
      requires Valid() && MarkedDone !in trace
      modifies this`trace
      ensures Valid() && MarkedDone !in trace && trace == old(trace) + Completion(persists, 1)
    {
      var ok, attempts := RetryPersistence(persists, _ => false);
      TriesComplete(persists, attempts);
      if ok {
        trace := trace + [FiredHooks(Completed)];
      }
      assert trace == old(trace) + Completion(persists, 1);
      CompletionAppendsNothing(persists, old(trace), trace);
    }

    /** Write a terminal status, tell the client why, fire the hooks. */
    method Conclude(status: RunStatus, error: RunEvent)
      requires Valid() && MarkedDone !in trace
      modifies this`trace, buf, buf.buf
      ensures Valid() && MarkedDone !in trace
      ensures trace == old(trace) + [Wrote(status), Appended(error), FiredHooks(status)]
    {
      Call(Wrote(status));
      Append(error);
      Call(FiredHooks(status));
    }

    /** After the drain: cancelled, timed out, failed or completed. */
    method End(w: World, fatal: string)
      requires Valid() && MarkedDone !in trace && fatal == LastFatal(w.stream)
      modifies this`trace, buf, buf.buf
      ensures Valid() && MarkedDone !in trace && trace == old(trace) + Ending(w)
    {
      if w.contextEnded {
        if w.cancelledLate {
          Conclude(Cancelled, CANCELLED_ERROR);
        } else {
          Conclude(Failed, TIMEOUT_ERROR);
        }
      } else if fatal != "" {
        Call(Wrote(Failed));
        Call(FiredHooks(Failed));
      } else {
        Complete(w.persists);
      }
    }

    /** From the runner's acceptance on. */
    method Follow(w: World)
      requires Valid() && MarkedDone !in trace
      modifies this`trace, buf, buf.buf
      ensures Valid() && MarkedDone !in trace
      ensures trace == old(trace) + Drained(w) + Ending(w)
    {
      var fatal := Drain(w);
      End(w, fatal);
    }

    /** The run was cancelled before the worker got to it. */
    method Refuse(w: World)
      requires Valid() && trace == [] && (w.cancelRecorded || w.cancelPersisted)
      modifies this`trace, buf, buf.buf
      ensures Valid() && MarkedDone !in trace && trace == Whole(w)
    {
      if w.cancelRecorded {
        Conclude(Cancelled, CANCELLED_ERROR);
      } else {
        Append(CANCELLED_ERROR);
        Call(FiredHooks(Cancelled));
      }
    }

    /** Mark the run active, start the runner and follow it. */
    method Execute(w: World)
      requires Valid() && trace == [] && !w.cancelRecorded && !w.cancelPersisted
      modifies this`trace, buf, buf.buf
      ensures Valid() && MarkedDone !in trace && trace == Whole(w)
    {
      Call(Wrote(Active));
      if w.startupError.Some? {
        Call(Wrote(Failed));
        Append(ErrorEvent("startup", w.startupError.value));
      } else {
        assert trace == [Wrote(Active)];
        Follow(w);
      }
    }

    /** The task: everything the worker does, MarkDone last. */
    method ProcessTask(w: World)
      requires Valid() && trace == []
      modifies this`trace, buf, buf.buf
      ensures Valid() && DoneIsLast(trace)
      ensures trace == Whole(w) + [MarkedDone]
      ensures CompletedProperly(w, trace) && EndedProperly(w, trace)
      ensures Spoken(EventsOf(buf.log))
           == Spoken(before) + ((if Accepted(w) then Spoken(w.stream) else []) + SyntheticError(w))
    {
      if w.cancelRecorded || w.cancelPersisted {
        Refuse(w);
      } else {
        Execute(w);
      }
      Finish(w);
    }

    /** The deferred end of the task. */
    method Finish(w: World)
      requires Valid() && MarkedDone !in trace && trace == Whole(w)
      modifies this`trace, buf
      ensures Valid() && DoneIsLast(trace)
      ensures trace == Whole(w) + [MarkedDone]
      ensures CompletedProperly(w, trace) && EndedProperly(w, trace)
      ensures Spoken(EventsOf(buf.log))
           == Spoken(before) + ((if Accepted(w) then Spoken(w.stream) else []) + SyntheticError(w))
    {
      WholeIsExpected(w);
      MarkDone();
      DoneIsHeard(w, trace);
      CompletedExactly(w, trace);
      StatusExactly(w, trace);
      SpokenConcat(before, Appends(trace));
    }
  }

  lemma StreamStep(stream: seq<RunEvent>, i: nat, before: seq<RunEvent>, more: seq<RunEvent>)
    requires i < |stream| && before == stream[..i] && more == stream[..i + 1]
    ensures TextOf(more) == TextOf(before) + if stream[i].TextDelta? then stream[i].content else ""
    ensures Closings(more) == Closings(before) + if stream[i].RunComplete? then 1 else 0
    ensures LastFatal(more) == if Fatal(stream[i]) then stream[i].message else LastFatal(before)
  {
    assert Front(more) == before && Last(more) == stream[i];
  }

  lemma Assemble(before: seq<Step>, heard: seq<Step>, audio: seq<Step>, event: seq<Step>, trace: seq<Step>)
    requires trace == before + heard + audio + event
    ensures trace == before + (heard + audio + event)
  {
  }

  /** A trace without appended audio is its own silent form. */
  lemma {:induction false} NothingToSilence(trace: seq<Step>)
    requires forall step :: step in trace ==> !IsAudio(step)
    ensures Silent(trace) == trace
  {
    if trace != [] {
      var front, last := Front(trace), Last(trace);
      assert front + [last] == trace && last == trace[|trace| - 1];
      assert forall step :: step in front ==> step in trace;
      NothingToSilence(front);
    }
  }

  lemma {:induction false} CompletionIsHeard(persists: nat -> bool, attempt: nat)
    requires 1 <= attempt <= PERSIST_ATTEMPTS
    ensures forall step :: step in Completion(persists, attempt) ==> !IsAudio(step)
    decreases PERSIST_ATTEMPTS - attempt
  {
    if !persists(attempt) && attempt < PERSIST_ATTEMPTS { CompletionIsHeard(persists, attempt + 1); }
  }

  lemma EndingIsHeard(w: World)
    ensures Silent(Ending(w)) == Ending(w)
  {
    CompletionIsHeard(w.persists, 1);
    NothingToSilence(Ending(w));
  }

  lemma RefusedIsHeard(w: World)
    requires !Accepted(w)
    ensures Silent(Expected(w)) == Expected(w)
  {
    NothingToSilence(Expected(w));
  }

  lemma SilentThree(a: seq<Step>, b: seq<Step>, c: seq<Step>, all: seq<Step>)
    requires all == a + b + c
    ensures Silent(all) == Silent(a) + Silent(b) + Silent(c)
  {
    SilentConcat(a + b, c);
    SilentConcat(a, b);
  }

  lemma EventHeard(before: seq<Step>, voice: Option<string>, event: RunEvent, all: seq<Step>)
    requires all == before + Audio(voice) + [Appended(event)]
    ensures Silent(all) == Silent(before) + if event.AudioDelta? then [] else [Appended(event)]
  {
    SilentThree(before, Audio(voice), [Appended(event)], all);
  }

  lemma RelayedStep(stream: seq<RunEvent>, n: nat, more: seq<RunEvent>)
    requires 0 < n <= |stream| && more == stream[..n]
    ensures Relayed(more)
         == Relayed(stream[..n - 1]) + if stream[n - 1].AudioDelta? then [] else [Appended(stream[n - 1])]
  {
    assert Front(more) == stream[..n - 1];
  }

  lemma SilentParts(a: seq<Step>, b: seq<Step>, heard: seq<Step>, c: seq<Step>, all: seq<Step>)
    requires all == a + b + c && Silent(a) == a && Silent(b) == heard && Silent(c) == c
    ensures Silent(all) == a + heard + c
  {
    SilentThree(a, b, c, all);
  }

  lemma {:induction false} HeardIsRelayed(w: World, n: nat)
    requires n <= |w.stream|
    ensures Silent(Heard(w, n)) == Relayed(w.stream[..n])
  {
    if n > 0 {
      HeardIsRelayed(w, n - 1);
      RelayedStep(w.stream, n, w.stream[..n]);
      EventHeard(Heard(w, n - 1), VoiceAt(w, n - 1), w.stream[n - 1], Heard(w, n));
    }
  }

  /** Without the audio, the runner's events are relayed as they come. */
  lemma DrainIsRelayed(w: World)
    ensures Silent(Drained(w)) == Relayed(w.stream)
  {
    HeardIsRelayed(w, |w.stream|);
    assert w.stream[..|w.stream|] == w.stream;
    SilentConcat(Heard(w, |w.stream|), Audio(LastWords(w)));
  }

  lemma OpeningIsHeard()
    ensures Silent([Wrote(Active)]) == [Wrote(Active)]
  {
    NothingToSilence([Wrote(Active)]);
  }

  lemma AcceptedIsExpected(w: World, ending: seq<Step>)
    requires Accepted(w) && ending == Ending(w) && Silent(ending) == ending
    ensures Silent(Whole(w)) == Expected(w)
  {
    OpeningIsHeard();
    DrainIsRelayed(w);
    SilentParts([Wrote(Active)], Drained(w), Relayed(w.stream), ending, Whole(w));
  }

  lemma WholeIsExpected(w: World)
    ensures Silent(Whole(w)) == Expected(w)
  {
    if Accepted(w) {
      EndingIsHeard(w);
      AcceptedIsExpected(w, Ending(w));
    } else {
      RefusedIsHeard(w);
    }
  }

  lemma DoneIsHeard(w: World, trace: seq<Step>)
    requires trace == Whole(w) + [MarkedDone]
    ensures Silent(trace) == Expected(w) + [MarkedDone]
  {
    WholeIsExpected(w);
    NothingToSilence([MarkedDone]);
    SilentConcat(Whole(w), [MarkedDone]);
  }
}
