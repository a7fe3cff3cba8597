/**
 * The resume stream as a state machine: one reader, and an environment that appends, marks the run done, or drops the
 * connection between any two steps of the reader.  Each buffer call of the reader is one atomic step (the buffer
 * locks), and so is each frame written.
 */
module ResumeStream {
  import opened Prelude
  import opened EventBuffer
  import opened Resume

  datatype Phase =
    | Connecting                                         // position parsed, buffer not read yet
    | Overflowed                                         // overflow frame sent, newest ID not read yet
    | Replaying(queue: seq<BufferedEvent>)               // writing the filtered snapshot; then IsDone
    | Polling                                            // waiting for the ticker
    | Sending(queue: seq<BufferedEvent>, quiet: bool)    // writing a poll's events; then IsDone
    | Drained                                            // left because the run was done
    | Gone                                               // client disconnected or a write failed

  datatype State = State(
    log: seq<BufferedEvent>,
    capacity: nat,
    done: bool,
    phase: Phase,
    after: nat,              // the client's position
    lastSent: nat,
    sent: seq<nat>,
    // The remaining fields only record history.
    dropped: set<nat>,       // IDs the replay filter left out
    base: Option<nat>,       // everything after this ID is owed to the client, once the first batch fixed it
    overflowed: bool,
    caughtUp: bool,          // the last look at the buffer was answered
    seen: nat,               // newest ID at the last look
    doneThen: bool,          // the run was done at the last look
    sentThen: nat,           // how many events had been sent at the last look
    polled: bool             // the last look was a poll
  )

  datatype Action = Append(event: RunEvent) | MarkDone | Read | Disconnect

  function Initial(log: seq<BufferedEvent>, capacity: nat, done: bool, after: nat): State {
    State(log, capacity, done, Connecting, after, after, [], {}, None, false, false, 0, false, 0, false)
  }

  function StaleIds(events: seq<BufferedEvent>): set<nat> {
    set i | 0 <= i < |events| && Stale(events, i) :: events[i].id
  }

  function BaseOf(base: Option<nat>, batch: seq<BufferedEvent>): Option<nat> {
    if base.None? && batch != [] && batch[0].id > 0 then Some(batch[0].id - 1) else base
  }

  /** A look at the buffer, recorded. */
  function Look(s: State, answered: bool): State {
    s.(caughtUp := answered, seen := |s.log|, doneThen := s.done, sentThen := |s.sent|,
       polled := s.phase.Polling?)
  }

  function Send(s: State, event: BufferedEvent): State {
    s.(sent := s.sent + [event.id], lastSent := event.id)
  }

  /** What the reader does with the answer to its first look. */
  function Connect(s: State, found: Option<seq<BufferedEvent>>): State {
    var looked := Look(s, found.Some?);
    match found
    case None => looked.(phase := Overflowed, overflowed := true)
    case Some(events) =>
      looked.(phase := Replaying(Kept(events, |events|)), dropped := StaleIds(events), base := BaseOf(None, events))
  }

  /** What the reader does with the answer to a poll; a refused one is treated as empty. */
  function Poll(s: State, found: Option<seq<BufferedEvent>>): State {
    var looked := Look(s, found.Some?);
    match found
    case None => looked.(phase := Sending([], true))
    case Some(events) => looked.(phase := Sending(events, events == []), base := BaseOf(s.base, events))
  }

  /** The reader's next step. */
  function ReaderStep(s: State): State {
    match s.phase
    case Connecting => Connect(s, Since(s.log, s.capacity, s.after))
    case Overflowed =>
      Look(s, true).(phase := Replaying([]), lastSent := |s.log|, base := Some(|s.log|))
    case Replaying(queue) =>
      if queue != [] then Send(s, queue[0]).(phase := Replaying(queue[1..]))
      else s.(phase := if s.done then Drained else Polling)
    case Polling => Poll(s, Since(s.log, s.capacity, s.lastSent))
    case Sending(queue, quiet) =>
      if queue != [] then Send(s, queue[0]).(phase := Sending(queue[1..], quiet))
      else s.(phase := if s.done && quiet then Drained else Polling)
    case Drained => s
    case Gone => s
  }

  /**
   * One step of the interleaving.  Appends may come from the worker or from an HTTP goroutine (the transcription of a
   * voice message), so one can follow MarkDone.
   */
  function Next(s: State, action: Action): State {
    match action
    case Append(event) => s.(log := s.log + [BufferedEvent(|s.log| + 1, event)])
    case MarkDone => s.(done := true)
    case Read => ReaderStep(s)
    case Disconnect => if s.phase.Drained? then s else s.(phase := Gone)
  }

  function Run(s: State, actions: seq<Action>): State {
    if actions == [] then s else Next(Run(s, Front(actions)), Last(actions))
  }

  // ---------------------------------------------------------------- invariant

  function Queue(s: State): seq<BufferedEvent> {
    match s.phase
    case Replaying(queue) => queue
    case Sending(queue, _) => queue
    case _ => []
  }

  /** The ID the reader will have reached when its current batch is written. */
  function Top(s: State): nat {
    if Queue(s) == [] then s.lastSent else Last(Queue(s)).id
  }

  ghost predicate Queued(queue: seq<BufferedEvent>, id: nat) {
    exists i :: 0 <= i < |queue| && queue[i].id == id
  }

  ghost predicate SentInOrder(s: State) {
    && (forall i, j :: 0 <= i < j < |s.sent| ==> s.sent[i] < s.sent[j])
    && (forall i :: 0 <= i < |s.sent| ==> s.sent[i] <= s.lastSent)
  }

  ghost predicate QueueInOrder(s: State) {
    Increasing(Queue(s)) && forall i :: 0 <= i < |Queue(s)| ==> s.lastSent < Queue(s)[i].id
  }

  /** An input request that a later event of the log answers. */
  ghost predicate Answered(log: seq<BufferedEvent>, id: nat) {
    && 1 <= id <= |log|
    && log[id - 1].event.InputRequest?
    && exists j :: id <= j < |log| && Answers(log[j].event) == log[id - 1].event.requestId
  }

  /** Everything after the base, up to the reader's reach, is sent, queued, or a dropped input request. */
  ghost predicate GapFree(s: State, base: nat) {
    && s.lastSent <= Top(s) <= |s.log|
    && (s.phase.Gone? || (0 < Top(s) && base <= Top(s)))
    && (forall id :: base < id <= Top(s) ==> id in s.sent || id in s.dropped || Queued(Queue(s), id))
    && (forall id :: id in s.sent ==> base < id)
    && (forall i :: 0 <= i < |Queue(s)| ==> base < Queue(s)[i].id)
    && (forall id :: id in s.dropped ==> base < id && id !in s.sent && Answered(s.log, id))
    && (forall id :: id in s.dropped ==> !Queued(Queue(s), id) && (s.phase.Gone? || id < Top(s)))
  }

  ghost predicate Untouched(s: State) {
    s.sent == [] && s.dropped == {} && s.lastSent == s.after && Queue(s) == []
  }

  ghost predicate Reach(s: State) {
    && (s.phase.Connecting? ==> s.base.None? && !s.overflowed)
    && (s.phase.Overflowed? ==> s.base.None? && s.overflowed && s.log != [] && s.after <= |s.log|)
    && (s.overflowed && !s.phase.Overflowed? && !s.phase.Gone? ==> s.base.Some?)
    && (!s.overflowed && s.after > 0 && s.base.Some? ==> s.base.value == s.after)
    && s.after <= s.lastSent
    && s.seen <= |s.log|
    && (s.doneThen ==> s.done)
    && (s.caughtUp && !s.phase.Gone? ==> Top(s) == if s.seen >= s.after then s.seen else s.after)
    && (s.phase.Drained? || s.phase.Polling? || s.phase.Replaying? || s.phase.Sending? ==>
          s.caughtUp || (Queue(s) == [] && s.lastSent < |s.log|))
  }

  ghost predicate Inv(s: State) {
    && Numbered(s.log) && s.capacity > 0
    && SentInOrder(s) && QueueInOrder(s)
    && (s.base.None? ==> Untouched(s))
    && (s.base.Some? ==> GapFree(s, s.base.value))
    && Reach(s)
  }

  lemma {:induction false} AnsweredStays(log: seq<BufferedEvent>, e: BufferedEvent, id: nat)
    requires Answered(log, id)
    ensures Answered(log + [e], id)
  {
    var j :| id <= j < |log| && Answers(log[j].event) == log[id - 1].event.requestId;
    assert (log + [e])[j] == log[j];
  }

  lemma AppendKeeps(s: State, event: RunEvent)
    requires Inv(s)
    ensures Inv(Next(s, Append(event)))
  {
    var e := BufferedEvent(|s.log| + 1, event);
    forall id | Answered(s.log, id) ensures Answered(s.log + [e], id) { AnsweredStays(s.log, e, id); }
  }

  lemma MarkDoneKeeps(s: State)
    requires Inv(s)
    ensures Inv(Next(s, MarkDone))
  {
  }

  lemma DisconnectKeeps(s: State)
    requires Inv(s)
    ensures Inv(Next(s, Disconnect))
  {
    if s.base.Some? && !s.phase.Drained? {
      forall id | s.base.value < id <= s.lastSent ensures id in s.sent || id in s.dropped {
        assert !Queued(Queue(s), id);
      }
    }
  }

  lemma WriteKeeps(s: State, queue: seq<BufferedEvent>, next: State)
    requires Inv(s) && queue != [] && queue == Queue(s)
    requires next == Send(s, queue[0]).(phase := next.phase)
    requires Queue(next) == queue[1..] && (s.phase.Replaying? || s.phase.Sending?)
    requires next.phase.Replaying? || next.phase.Sending?
    ensures Inv(next)
  {
    var base := s.base.value;
    assert Top(next) == Top(s);
    forall id | base < id <= Top(next) ensures id in next.sent || id in next.dropped || Queued(Queue(next), id) {
      if Queued(queue, id) {
        var i :| 0 <= i < |queue| && queue[i].id == id;
        if i > 0 { assert queue[1..][i - 1].id == id; } else { assert next.sent[|s.sent|] == id; }
      } else if id in s.sent {
        var i :| 0 <= i < |s.sent| && s.sent[i] == id;
        assert next.sent[i] == id;
      }
    }
    forall id | Queued(queue[1..], id) ensures Queued(queue, id) {
      var i :| 0 <= i < |queue[1..]| && queue[1..][i].id == id;
      assert queue[i + 1].id == id;
    }
    assert Queued(queue, queue[0].id);
  }

  // ---------------------------------------------------------------- looks at the buffer

  /** A batch that, with the dropped IDs, accounts for everything after k. */
  ghost predicate Covers(log: seq<BufferedEvent>, k: nat, queue: seq<BufferedEvent>, dropped: set<nat>) {
    && queue != [] && Increasing(queue) && Last(queue).id == |log|
    && (forall i :: 0 <= i < |queue| ==> k < queue[i].id)
    && (forall id: nat :: k < id <= |log| ==> Queued(queue, id) || id in dropped)
    && (forall id :: id in dropped ==> k < id < |log| && Answered(log, id) && !Queued(queue, id))
  }

  /** A non-empty tail of the log. */
  lemma TailCovers(log: seq<BufferedEvent>, k: nat)
    requires Numbered(log) && k < |log|
    ensures log[k..][0].id == k + 1 && Covers(log, k, log[k..], {})
  {
    var events := log[k..];
    forall id: nat | k < id <= |log| ensures Queued(events, id) {
      assert events[id - k - 1].id == id;
    }
  }

  /** The filter keeps exactly the IDs of the events that are not stale. */
  lemma {:induction false} KeptIds(log: seq<BufferedEvent>, k: nat, n: nat)
    requires Numbered(log) && k + n <= |log|
    ensures forall id: nat :: Queued(Kept(log[k..], n), id) <==> k < id <= k + n && !Stale(log[k..], id - k - 1)
  {
    if n > 0 {
      KeptIds(log, k, n - 1);
      var events := log[k..];
      var front, kept := Kept(events, n - 1), Kept(events, n);
      forall id: nat ensures Queued(kept, id) <==> Queued(front, id) || (id == k + n && !Stale(events, n - 1)) {
        if Queued(front, id) {
          var i :| 0 <= i < |front| && front[i].id == id;
          assert kept[i].id == id;
        }
        if id == k + n && !Stale(events, n - 1) {
          assert kept[|front|].id == id;
        }
      }
    }
  }

  lemma StaleIsAnswered(log: seq<BufferedEvent>, k: nat, i: nat)
    requires Numbered(log) && k + i < |log| && Stale(log[k..], i)
    ensures k + i + 1 < |log| && Answered(log, k + i + 1)
  {
    var events := log[k..];
    var j := FirstAnswer(events, events[i].event.requestId, |events|);
    assert log[k + j] == events[j] && log[k + i] == events[i];
  }

  lemma StaleIdsOf(log: seq<BufferedEvent>, k: nat)
    requires Numbered(log) && k < |log|
    ensures forall id: nat :: id in StaleIds(log[k..]) <==> k < id <= |log| && Stale(log[k..], id - k - 1)
  {
    var events := log[k..];
    forall id: nat | k < id <= |log| && Stale(events, id - k - 1) ensures id in StaleIds(events) {
      assert events[id - k - 1].id == id;
    }
  }

  lemma KeptOrDropped(log: seq<BufferedEvent>, k: nat)
    requires Numbered(log) && k < |log|
    ensures var kept, dropped := Kept(log[k..], |log| - k), StaleIds(log[k..]);
            && (forall id: nat :: Queued(kept, id) <==> k < id <= |log| && id !in dropped)
            && (forall id: nat :: id in dropped ==> k < id < |log| && Answered(log, id))
  {
    KeptIds(log, k, |log| - k);
    StaleIdsOf(log, k);
    forall id: nat | id in StaleIds(log[k..]) ensures id < |log| && Answered(log, id) {
      StaleIsAnswered(log, k, id - k - 1);
    }
  }

  lemma Assemble(log: seq<BufferedEvent>, k: nat, kept: seq<BufferedEvent>, dropped: set<nat>)
    requires kept != [] && Increasing(kept) && Last(kept).id == |log|
    requires forall id: nat :: Queued(kept, id) <==> k < id <= |log| && id !in dropped
    requires forall id: nat :: id in dropped ==> k < id < |log| && Answered(log, id)
    ensures Covers(log, k, kept, dropped)
  {
    forall i | 0 <= i < |kept| ensures k < kept[i].id {
      assert Queued(kept, kept[i].id);
    }
  }

  /** A non-empty tail of the log after the replay filter. */
  lemma FilteredTailCovers(log: seq<BufferedEvent>, k: nat)
    requires Numbered(log) && k < |log|
    ensures Covers(log, k, Kept(log[k..], |log| - k), StaleIds(log[k..]))
  {
    FilterOrders(log[k..], |log| - k);
    KeptOrDropped(log, k);
    Assemble(log, k, Kept(log[k..], |log| - k), StaleIds(log[k..]));
  }

  /** An answered look whose batch is not empty. */
  lemma ArrivalKeeps(s: State, next: State, k: nat, queue: seq<BufferedEvent>, dropped: set<nat>)
    requires Inv(s) && (s.phase.Connecting? || s.phase.Polling?) && k < |s.log| && Covers(s.log, k, queue, dropped)
    requires s.lastSent > 0 ==> k == s.lastSent
    requires next == s.(phase := next.phase, caughtUp := true, seen := |s.log|, doneThen := s.done,
                        sentThen := next.sentThen, polled := next.polled,
                        dropped := s.dropped + dropped,
                        base := if s.base.None? then Some(k) else s.base)
    requires Queue(next) == queue && (next.phase.Replaying? || next.phase.Sending?)
    requires s.phase.Connecting? ==> dropped <= next.dropped
    ensures Inv(next)
  {
    var base := next.base.value;
    assert Top(next) == |s.log|;
    forall id: nat | base < id <= |s.log| ensures id in next.sent || id in next.dropped || Queued(queue, id) {
      if id <= k && s.base.Some? {
        assert !Queued(Queue(s), id);
        assert id in s.sent || id in s.dropped;
      }
    }
    forall id: nat | Queued(queue, id) ensures k < id {
      var i :| 0 <= i < |queue| && queue[i].id == id;
    }
  }

  /** An answered look that finds nothing new, or one that is refused. */
  lemma NothingArrivesKeeps(s: State, next: State, answered: bool)
    requires Inv(s) && (s.phase.Connecting? || s.phase.Polling?)
    requires next == s.(phase := next.phase, caughtUp := answered, seen := |s.log|, doneThen := s.done,
                        sentThen := next.sentThen, polled := next.polled)
    requires answered ==> |s.log| <= s.lastSent && (next.phase == Sending([], true) || next.phase == Replaying([]))
    requires s.phase.Polling? ==> next.phase.Sending?
    requires !answered ==> s.phase.Polling? && next.phase == Sending([], true) && s.lastSent < |s.log|
    ensures Inv(next)
  {
  }

  /** Where an answered batch starts. */
  function Cut(log: seq<BufferedEvent>, capacity: nat, position: nat): (k: nat)
    ensures k <= |log|
  {
    if position > 0 then Min(position, |log|) else |log| - Min(|log|, capacity)
  }

  /** The answer to a look, as a tail of the log. */
  lemma LookAt(log: seq<BufferedEvent>, capacity: nat, position: nat)
    requires Numbered(log) && capacity > 0
    ensures var found := Since(log, capacity, position);
            && (found.None? ==> 0 < position < |log|)
            && (found.Some? ==> found.value == log[Cut(log, capacity, position)..])
  {
  }

  lemma ReplayArrives(s: State, k: nat, events: seq<BufferedEvent>, next: State)
    requires Inv(s) && s.phase.Connecting? && k < |s.log| && (s.after > 0 ==> k == Min(s.after, |s.log|))
    requires events == s.log[k..] && next == Connect(s, Some(events))
    ensures Inv(next)
  {
    assert events[0].id == k + 1;
    FilteredTailCovers(s.log, k);
    assert {} + StaleIds(events) == StaleIds(events);
    ArrivalKeeps(s, next, k, Kept(events, |s.log| - k), StaleIds(events));
  }

  lemma ReplayStarts(s: State, k: nat, next: State)
    requires Inv(s) && s.phase.Connecting? && k <= |s.log| && (s.after > 0 ==> k == Min(s.after, |s.log|))
    requires s.after == 0 && s.log != [] ==> k < |s.log|
    requires next == Connect(s, Some(s.log[k..]))
    ensures Inv(next)
  {
    if k < |s.log| {
      ReplayArrives(s, k, s.log[k..], next);
    } else {
      assert s.log[k..] == [] && StaleIds([]) == {};
      NothingArrivesKeeps(s, next, true);
    }
  }

  lemma ConnectKeeps(s: State)
    requires Inv(s) && s.phase.Connecting?
    ensures Inv(ReaderStep(s))
  {
    LookAt(s.log, s.capacity, s.after);
    if Since(s.log, s.capacity, s.after).Some? {
      ReplayStarts(s, Cut(s.log, s.capacity, s.after), ReaderStep(s));
    }
  }

  lemma OverflowKeeps(s: State)
    requires Inv(s) && s.phase.Overflowed?
    ensures Inv(ReaderStep(s))
  {
  }

  lemma PollArrives(s: State, k: nat)
    requires Inv(s) && s.phase.Polling? && k <= |s.log| && (s.lastSent > 0 ==> k == Min(s.lastSent, |s.log|))
    requires s.lastSent == 0 && s.log != [] ==> k < |s.log|
    ensures Inv(Poll(s, Some(s.log[k..])))
  {
    var next := Poll(s, Some(s.log[k..]));
    if k < |s.log| {
      TailCovers(s.log, k);
      assert s.dropped + {} == s.dropped;
      assert BaseOf(s.base, s.log[k..]) == if s.base.None? then Some(k) else s.base;
      ArrivalKeeps(s, next, k, s.log[k..], {});
    } else {
      NothingArrivesKeeps(s, next, true);
    }
  }

  lemma PollKeeps(s: State)
    requires Inv(s) && s.phase.Polling?
    ensures Inv(ReaderStep(s))
  {
    LookAt(s.log, s.capacity, s.lastSent);
    var found := Since(s.log, s.capacity, s.lastSent);
    if found.Some? {
      PollArrives(s, Cut(s.log, s.capacity, s.lastSent));
    } else {
      NothingArrivesKeeps(s, Poll(s, None), false);
    }
  }

  lemma SendingKeeps(s: State)
    requires Inv(s) && (s.phase.Replaying? || s.phase.Sending?)
    ensures Inv(ReaderStep(s))
  {
    if Queue(s) != [] {
      WriteKeeps(s, Queue(s), ReaderStep(s));
    }
  }

  lemma StepKeeps(s: State)
    requires Inv(s)
    ensures Inv(ReaderStep(s))
  {
    match s.phase
    case Connecting => ConnectKeeps(s);
    case Overflowed => OverflowKeeps(s);
    case Polling => PollKeeps(s);
    case Drained =>
    case Gone =>
    case _ => SendingKeeps(s);
  }

  // ---------------------------------------------------------------- main results

  /** A run starts with any log the worker has produced so far. */
  lemma {:induction false} RunKeeps(log: seq<BufferedEvent>, capacity: nat, done: bool, after: nat,
                                    actions: seq<Action>)
    requires Numbered(log) && capacity > 0
    ensures Inv(Run(Initial(log, capacity, done, after), actions))
    decreases |actions|
  {
    if actions != [] {
      RunKeeps(log, capacity, done, after, Front(actions));
      var s := Run(Initial(log, capacity, done, after), Front(actions));
      match Last(actions)
      case Append(event) => AppendKeeps(s, event);
      case MarkDone => MarkDoneKeeps(s);
      case Read => StepKeeps(s);
      case Disconnect => DisconnectKeeps(s);
    }
  }

  /**
   * At every moment of every interleaving: the IDs sent strictly increase, and from the base on there is no gap:
   * every ID up to the last one sent was sent, or is an input request the filter dropped because the log answers it.
   * Without an overflow report the base is the client's own position.
   */
  lemma StreamIsGapFree(log: seq<BufferedEvent>, capacity: nat, done: bool, after: nat, actions: seq<Action>)
    requires Numbered(log) && capacity > 0
    ensures var s := Run(Initial(log, capacity, done, after), actions);
            && (forall i, j :: 0 <= i < j < |s.sent| ==> s.sent[i] < s.sent[j])
            && (s.base.None? ==> s.sent == [])
            && (s.base.Some? ==>
                  forall id: nat :: s.base.value < id <= s.lastSent ==>
                    id in s.sent || (id in s.dropped && Answered(s.log, id)))
            && (s.base.Some? ==> forall id :: id in s.sent ==> s.base.value < id <= s.lastSent)
            && (!s.overflowed && s.after > 0 && s.base.Some? ==> s.base.value == s.after)
  {
    RunKeeps(log, capacity, done, after, actions);
    var s := Run(Initial(log, capacity, done, after), actions);
    forall id | id in s.sent ensures id <= s.lastSent {
      var i :| 0 <= i < |s.sent| && s.sent[i] == id;
    }
    if s.base.Some? {
      forall id: nat | s.base.value < id <= s.lastSent ensures id in s.sent || id in s.dropped {
        assert !Queued(Queue(s), id);
      }
    }
  }

  /** Nothing of the log is missing after the base. */
  ghost predicate Complete(s: State) {
    forall id: nat :: 1 <= id <= |s.log| && (s.base.Some? ==> s.base.value < id) && s.after < id ==>
      id in s.sent || id in s.dropped
  }

  /**
   * When has a reader that leaves because the run is done sent everything?  Exactly when its last look was answered
   * and nothing was appended since, or the client claimed a position at or past the end of the log.
   */
  lemma DrainedIsComplete(log: seq<BufferedEvent>, capacity: nat, done: bool, after: nat, actions: seq<Action>)
    requires Numbered(log) && capacity > 0
    requires Run(Initial(log, capacity, done, after), actions).phase.Drained?
    ensures var s := Run(Initial(log, capacity, done, after), actions);
            Complete(s) <==> |s.log| <= s.after || (s.caughtUp && s.seen == |s.log|)
  {
    RunKeeps(log, capacity, done, after, actions);
    var s := Run(Initial(log, capacity, done, after), actions);
    if |s.log| <= s.lastSent {
      forall id: nat | 1 <= id <= |s.log| && (s.base.Some? ==> s.base.value < id) && s.after < id
        ensures id in s.sent || id in s.dropped
      {
        assert !Queued(Queue(s), id);
      }
    } else {
      var id := |s.log|;
      assert id !in s.sent && id !in s.dropped && s.after < id;
    }
  }

  /** Nothing is appended to a run that is done. */
  ghost predicate QuietWhenDone(done: bool, actions: seq<Action>) {
    forall j :: 0 <= j < |actions| && actions[j].Append? ==> !done && MarkDone !in actions[..j]
  }

  lemma DoneStep(s: State, action: Action)
    ensures Next(s, action).done <==> s.done || action == MarkDone
  {
    match action
    case Read => StepKeepsDone(s);
    case _ =>
  }

  lemma StepKeepsDone(s: State)
    ensures ReaderStep(s).done == s.done
  {
    match s.phase
    case Connecting => LookKeepsDone(s, Since(s.log, s.capacity, s.after));
    case Polling => LookKeepsDone(s, Since(s.log, s.capacity, s.lastSent));
    case _ =>
  }

  lemma LookKeepsDone(s: State, found: Option<seq<BufferedEvent>>)
    ensures Connect(s, found).done == s.done && Poll(s, found).done == s.done
  {
  }

  lemma OneMore(actions: seq<Action>, action: Action)
    ensures MarkDone in actions + [action] <==> MarkDone in actions || action == MarkDone
  {
  }

  lemma {:induction false} DoneIsMarked(s: State, actions: seq<Action>)
    ensures Run(s, actions).done <==> s.done || MarkDone in actions
  {
    if actions != [] {
      var front, last := Front(actions), Last(actions);
      DoneIsMarked(s, front);
      DoneStep(Run(s, front), last);
      OneMore(front, last);
      assert actions == front + [last];
    }
  }

  lemma QuietFront(done: bool, actions: seq<Action>)
    requires actions != [] && QuietWhenDone(done, actions)
    ensures QuietWhenDone(done, Front(actions))
    ensures Last(actions).Append? ==> !done && MarkDone !in Front(actions)
  {
    forall j | 0 <= j < |Front(actions)| && Front(actions)[j].Append?
      ensures !done && MarkDone !in Front(actions)[..j]
    {
      assert actions[j] == Front(actions)[j] && actions[..j] == Front(actions)[..j];
    }
    assert actions[..|actions| - 1] == Front(actions);
  }

  /** A look at a done run saw everything there was. */
  ghost predicate SawDone(s: State) {
    s.doneThen ==> s.done && s.seen == |s.log|
  }

  lemma ConnectLooks(s: State, found: Option<seq<BufferedEvent>>)
    ensures SawDone(Connect(s, found)) && SawDone(Poll(s, found))
  {
  }

  lemma LookOrWait(s: State)
    requires SawDone(s)
    ensures SawDone(ReaderStep(s))
  {
    match s.phase
    case Connecting => ConnectLooks(s, Since(s.log, s.capacity, s.after));
    case Polling => ConnectLooks(s, Since(s.log, s.capacity, s.lastSent));
    case _ =>
  }

  lemma {:induction false} DoneThenSawEverything(s: State, actions: seq<Action>)
    requires s.phase.Connecting? && !s.doneThen && QuietWhenDone(s.done, actions)
    ensures SawDone(Run(s, actions))
  {
    if actions != [] {
      QuietFront(s.done, actions);
      DoneThenSawEverything(s, Front(actions));
      DoneIsMarked(s, Front(actions));
      LookOrWait(Run(s, Front(actions)));
    }
  }

  /**
   * If nothing is appended once the run is marked done, a reader that leaves after an answered look at a run that was
   * already done has sent everything.
   */
  lemma DoneThenIsComplete(log: seq<BufferedEvent>, capacity: nat, done: bool, after: nat, actions: seq<Action>)
    requires Numbered(log) && capacity > 0 && QuietWhenDone(done, actions)
    requires var s := Run(Initial(log, capacity, done, after), actions); s.phase.Drained? && s.doneThen && s.caughtUp
    ensures Complete(Run(Initial(log, capacity, done, after), actions))
  {
    DrainedIsComplete(log, capacity, done, after, actions);
    DoneThenSawEverything(Initial(log, capacity, done, after), actions);
  }

  // ---------------------------------------------------------------- when the reader leaves

  /** What the last look brought is what is queued and what was sent since. */
  ghost predicate Brought(s: State) {
    && s.sentThen <= |s.sent|
    && (s.phase.Sending? ==> s.polled && (s.phase.quiet <==> s.phase.queue == [] && |s.sent| == s.sentThen))
    && (s.phase.Drained? && s.polled ==> |s.sent| == s.sentThen)
    && (s.phase.Connecting? || s.phase.Overflowed? || s.phase.Replaying? ==> !s.polled)
  }

  lemma LookBrings(s: State, found: Option<seq<BufferedEvent>>)
    ensures s.phase.Connecting? ==> Brought(Connect(s, found))
    ensures s.phase.Polling? ==> Brought(Poll(s, found))
  {
  }

  lemma StepBrings(s: State)
    requires Brought(s)
    ensures Brought(ReaderStep(s))
  {
    match s.phase
    case Connecting => LookBrings(s, Since(s.log, s.capacity, s.after));
    case Polling => LookBrings(s, Since(s.log, s.capacity, s.lastSent));
    case _ =>
  }

  lemma {:induction false} RunBrings(log: seq<BufferedEvent>, capacity: nat, done: bool, after: nat,
                                     actions: seq<Action>)
    ensures Brought(Run(Initial(log, capacity, done, after), actions))
  {
    if actions != [] {
      RunBrings(log, capacity, done, after, Front(actions));
      StepBrings(Run(Initial(log, capacity, done, after), Front(actions)));
    }
  }

  /**
   * In every interleaving a reader that left after a poll has sent nothing since that poll: its last poll brought
   * nothing.  And it leaves with its next step exactly if the run is done, everything of the last look is written, and
   * that look was the first one or a poll after which nothing was sent.
   */
  lemma LeavesExactly(log: seq<BufferedEvent>, capacity: nat, done: bool, after: nat, actions: seq<Action>)
    ensures var s := Run(Initial(log, capacity, done, after), actions);
            && (s.phase.Drained? && s.polled ==> |s.sent| == s.sentThen)
            && (!s.phase.Drained? ==>
                  (Next(s, Read).phase.Drained? <==>
                   && s.done && (s.phase.Replaying? || s.phase.Sending?) && Queue(s) == []
                   && (s.polled ==> |s.sent| == s.sentThen)))
  {
    RunBrings(log, capacity, done, after, actions);
  }

  /** A poll of a done run is the last one exactly if there is nothing new, or events were lost to overflow. */
  lemma LastPollExactly(log: seq<BufferedEvent>, capacity: nat, done: bool, after: nat, actions: seq<Action>)
    requires Numbered(log) && capacity > 0
    requires var s := Run(Initial(log, capacity, done, after), actions); s.phase.Polling? && s.done
    ensures var s := Run(Initial(log, capacity, done, after), actions);
            Next(Next(s, Read), Read).phase.Drained? <==>
              |s.log| <= s.lastSent || 0 < s.lastSent <= |s.log| - Min(|s.log|, s.capacity)
  {
    var s := Run(Initial(log, capacity, done, after), actions);
    RunKeeps(log, capacity, done, after, actions);
    LookAt(s.log, s.capacity, s.lastSent);
    SinceIsComplete(s.log, s.capacity, s.lastSent);
    PollAndLeave(s, Since(s.log, s.capacity, s.lastSent));
  }

  lemma PollAndLeave(s: State, found: Option<seq<BufferedEvent>>)
    requires s.done
    ensures ReaderStep(Poll(s, found)).phase.Drained? <==> found.None? || found.value == []
  {
  }

  /** Once the client is gone nothing more is sent; a reader that has left stays as it was. */
  lemma {:induction false} GoneIsFinal(s: State, actions: seq<Action>)
    ensures Run(Next(s, Disconnect), actions).sent == s.sent
    ensures Run(Next(s, Disconnect), actions).phase == if s.phase.Drained? then Drained else Gone
  {
    if actions != [] { GoneIsFinal(s, Front(actions)); }
  }

  // ---------------------------------------------------------------- refused polls

  /** Events that were lost stay lost. */
  lemma RefusalIsFinal(log: seq<BufferedEvent>, e: BufferedEvent, capacity: nat, position: nat)
    requires Numbered(log) && capacity > 0 && e.id == |log| + 1 && Since(log, capacity, position).None?
    ensures Since(log + [e], capacity, position).None?
  {
  }

  /** The reader polls from a position whose successors are lost. */
  ghost predicate Refused(s: State) {
    && Numbered(s.log) && s.capacity > 0
    && (s.phase.Polling? || s.phase == Sending([], true) || s.phase.Drained? || s.phase.Gone?)
    && Since(s.log, s.capacity, s.lastSent).None?
  }

  lemma RefusedStep(s: State, action: Action)
    requires Refused(s)
    ensures Refused(Next(s, action)) && Next(s, action).sent == s.sent
  {
    if action.Append? {
      RefusalIsFinal(s.log, BufferedEvent(|s.log| + 1, action.event), s.capacity, s.lastSent);
    }
  }

  /** A reader that was refused once is refused for ever: it never sends anything more. */
  lemma {:induction false} RefusedForEver(s: State, actions: seq<Action>)
    requires Refused(s)
    ensures Refused(Run(s, actions)) && Run(s, actions).sent == s.sent
  {
    if actions != [] {
      RefusedForEver(s, Front(actions));
      RefusedStep(Run(s, Front(actions)), Last(actions));
    }
  }

  lemma RunStep(s: State, actions: seq<Action>, action: Action)
    ensures Run(s, actions + [action]) == Next(Run(s, actions), action)
  {
    assert Front(actions + [action]) == actions;
  }

  const FIRST := BufferedEvent(1, RunComplete)

  const TWO: seq<BufferedEvent> := [FIRST, BufferedEvent(2, RunComplete)]

  const LAPPED: seq<BufferedEvent> := [FIRST, BufferedEvent(2, RunComplete), BufferedEvent(3, RunComplete)]

  /** A reader of a one-event buffer that has sent the first event and waits for its next poll. */
  function Waiting(log: seq<BufferedEvent>, done: bool): State {
    State(log, 1, done, Polling, 0, 1, [1], {}, Some(0), false, true, 1, false, 0, false)
  }

  const THREE_READS: seq<Action> := [Read] + [Read] + [Read]

  lemma FirstEventSent()
    ensures Run(Initial([FIRST], 1, false, 0), THREE_READS) == Waiting([FIRST], false)
  {
    var s0 := Initial([FIRST], 1, false, 0);
    var none: seq<Action> := [];
    RunStep(s0, none, Read);
    assert none + [Read] == [Read];
    RunStep(s0, [Read], Read);
    RunStep(s0, [Read] + [Read], Read);
    FirstLook(false);
    assert [FIRST][1..] == [];
  }

  /** The writer appends twice and finishes while the reader waits. */
  lemma ReaderLapped(s: State, actions: seq<Action>)
    requires Run(s, actions) == Waiting([FIRST], false)
    ensures Run(s, actions + [Append(RunComplete)] + [Append(RunComplete)] + [MarkDone]) == Waiting(LAPPED, true)
  {
    var append := Append(RunComplete);
    RunStep(s, actions, append);
    assert Next(Waiting([FIRST], false), append).log == TWO;
    RunStep(s, actions + [append], append);
    assert Next(Waiting(TWO, false), append).log == LAPPED;
    RunStep(s, actions + [append] + [append], MarkDone);
  }

  /** Its next poll is refused, and then it leaves. */
  lemma LappedReaderLeaves(s: State, actions: seq<Action>)
    requires Run(s, actions) == Waiting(LAPPED, true)
    ensures var left := Run(s, actions + [Read] + [Read]);
            left.phase.Drained? && left.doneThen && left.sent == [1] && left.log == LAPPED && !Complete(left)
  {
    RunStep(s, actions, Read);
    RunStep(s, actions + [Read], Read);
    var waiting := Waiting(LAPPED, true);
    assert Since(LAPPED, 1, 1) == None;
    assert ReaderStep(waiting) == waiting.(phase := Sending([], true), caughtUp := false, seen := 3, doneThen := true,
                                               sentThen := 1, polled := true);
    var left := ReaderStep(ReaderStep(waiting));
    assert 2 !in left.sent && 2 !in left.dropped;
  }

  /**
   * Leaving because the run is done does not by itself mean that everything was sent: the poll loop ignores a refused
   * look, so a reader the writer has lapped stays silent and then leaves with the tail of the log unsent.
   */
  lemma DrainedCanMissTheTail()
    ensures exists actions ::
              var s := Run(Initial([FIRST], 1, false, 0), actions);
              s.phase.Drained? && s.doneThen && s.sent == [1] && |s.log| == 3 && !Complete(s)
  {
    var s0, append := Initial([FIRST], 1, false, 0), Append(RunComplete);
    FirstEventSent();
    ReaderLapped(s0, THREE_READS);
    LappedReaderLeaves(s0, THREE_READS + [append] + [append] + [MarkDone]);
  }

  /** The first look at a one-event log. */
  lemma FirstLook(done: bool)
    ensures ReaderStep(Initial([FIRST], 1, done, 0))
         == Initial([FIRST], 1, done, 0).(phase := Replaying([FIRST]), base := Some(0), caughtUp := true, seen := 1,
                                          doneThen := done)
  {
    assert Window([FIRST], 1) == [FIRST];
    assert Kept([FIRST], 0) == [] && Kept([FIRST], 1) == [FIRST];
    assert StaleIds([FIRST]) == {};
  }

  /** Writing the only queued event and leaving. */
  lemma LastEventSent(s: State)
    requires s.phase == Replaying([FIRST]) && s.done
    ensures ReaderStep(ReaderStep(s)) == s.(phase := Drained, sent := s.sent + [1], lastSent := 1)
  {
    assert [FIRST][1..] == [];
  }

  /**
   * Nor does it help that the last look was answered and the run was done by then: an event appended after MarkDone,
   * such as the transcription of a voice message, is missed.
   */
  lemma LateAppendIsMissed()
    ensures exists actions ::
              var s := Run(Initial([FIRST], 1, true, 0), actions);
              s.phase.Drained? && s.doneThen && s.caughtUp && s.sent == [1] && |s.log| == 2 && !Complete(s)
  {
    var s0, append, none: seq<Action> := Initial([FIRST], 1, true, 0), Append(OtherEvent("transcription")), [];
    RunStep(s0, none, Read);
    FirstLook(true);
    RunStep(s0, none + [Read], append);
    var appended := Run(s0, none + [Read] + [append]);
    RunStep(s0, none + [Read] + [append], Read);
    RunStep(s0, none + [Read] + [append] + [Read], Read);
    LastEventSent(appended);
    var left := Run(s0, none + [Read] + [append] + [Read] + [Read]);
    assert 2 !in left.sent && 2 !in left.dropped;
  }
}
