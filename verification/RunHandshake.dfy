/**
 * Cancelling an asynchronous run: the handshake between any number of HTTP goroutines in Cancel and the worker that
 * processes the run's one delivery.  Every access to the `cancellers` and `cancelled` maps, every repository call and
 * every context check is one atomic step.
 */
module RunHandshake {
  import opened Prelude

  datatype RunStatus = Queued | Active | Completed | Failed | Cancelled

  /** What the worker will do next. */
  datatype Stage =
    | Delivered                       // register the cancel function
    | Registered                      // check for a recorded cancellation
    | FlagClear                       // check for a persisted one
    | StoreClear                      // mark the run active
    | Activated                       // load the session and start the runner
    | StartFailed                     // mark the run failed
    | Running                         // stream drained: the final context check
    | ContextEnded                    // cancelled or timed out?
    | ContextLive                     // fatal model error or completion?
    | WriteCancelled | WriteTimedOut | WriteModelError | WriteCompleted
    | Leaving                         // delete the cancel function
    | Unregistered                    // delete the recorded cancellation
    | Finished

  /** How the worker came to leave. */
  datatype Exit = StillIn | Honoured | StartupFailed | TimedOut | ModelFailed | RanThrough

  datatype Run = Run(
    stage: Stage,
    canceller: bool,                  // cancellers has an entry
    flag: bool,                       // cancelled has an entry
    ended: bool,                      // the run's context has ended
    status: RunStatus,                // the persisted row
    marked: set<nat>,                 // Cancel calls that recorded the cancellation
    answers: map<nat, bool>,          // Cancel calls that returned, and what
    // The remaining fields only record history.
    invoked: bool,                    // the runner was called
    started: bool,                    // ... and accepted the run
    exit: Exit,
    missed: bool,                     // a Cancel returned false before the worker unregistered
    inTime: bool,                     // a Cancel fired the cancel function before the final context check
    persisted: bool,                  // a cancellation was written to the row by someone else
    lost: bool,                       // a terminal write failed
    endedThen: bool,                  // the context had ended at the final check
    flagThen: bool,                   // ... and a cancellation was recorded
    modelFailed: bool                 // ... or it was live, and the model had failed
  )

  datatype Startup = NotReached | Refused | Started

  datatype Action =
    | Work(ok: bool, startup: Startup, modelError: bool)   // the worker's next step; ok: its database call succeeds
    | Mark(caller: nat)                                    // first half of Cancel
    | Fire(caller: nat)                                    // second half of Cancel
    | Timeout
    | PersistCancel                                        // the HTTP fallback, or another pod

  const INITIAL := Run(Delivered, false, false, false, Queued, {}, map[], false, false, StillIn, false, false, false,
                       false, false, false, false)

  /** The canceller is registered and the worker has not yet made its final context check. */
  predicate BeforeFinalCheck(stage: Stage) {
    stage.Registered? || stage.FlagClear? || stage.StoreClear? || stage.Activated? || stage.StartFailed?
    || stage.Running?
  }

  predicate HasLeft(stage: Stage) {
    stage.Unregistered? || stage.Finished?
  }

  /** A write through the run's own context has no effect once that context has ended. */
  function WriteThrough(r: Run, ok: bool, status: RunStatus): RunStatus {
    if ok && !r.ended then status else r.status
  }

  function Terminal(r: Run, ok: bool, status: RunStatus, exit: Exit): Run {
    r.(stage := Leaving, exit := exit, status := if ok then status else r.status, lost := r.lost || !ok)
  }

  function WorkerStep(r: Run, ok: bool, startup: Startup, modelError: bool): Run {
    match r.stage
    case Delivered => r.(canceller := true, stage := Registered)
    case Registered => r.(stage := if r.flag then WriteCancelled else FlagClear)
    case FlagClear =>
      if ok && r.status == Cancelled then r.(stage := Leaving, exit := Honoured) else r.(stage := StoreClear)
    case StoreClear => r.(stage := Activated, status := WriteThrough(r, ok, Active))
    case Activated =>
      r.(invoked := startup != NotReached, started := startup == Started,
         stage := if startup == Started then Running else StartFailed)
    case StartFailed => r.(stage := Leaving, exit := StartupFailed, status := WriteThrough(r, ok, Failed))
    case Running => r.(stage := if r.ended then ContextEnded else ContextLive, endedThen := r.ended)
    case ContextEnded => r.(stage := if r.flag then WriteCancelled else WriteTimedOut, flagThen := r.flag)
    case ContextLive =>
      r.(stage := if modelError then WriteModelError else WriteCompleted, modelFailed := modelError)
    case WriteCancelled => Terminal(r, ok, Cancelled, Honoured)
    case WriteTimedOut => Terminal(r, ok, Failed, TimedOut)
    case WriteModelError => Terminal(r, ok, Failed, ModelFailed)
    case WriteCompleted => Terminal(r, ok, Completed, RanThrough)
    case Leaving => r.(canceller := false, stage := Unregistered)
    case Unregistered => r.(flag := false, stage := Finished)
    case Finished => r
  }

  function Next(r: Run, action: Action): Run {
    match action
    case Work(ok, startup, modelError) => WorkerStep(r, ok, startup, modelError)
    case Mark(caller) => r.(flag := true, marked := r.marked + {caller})
    case Fire(caller) =>
      if caller !in r.marked || caller in r.answers then r
      else
        r.(answers := r.answers[caller := r.canceller],
           ended := r.ended || r.canceller,
           missed := r.missed || (!r.canceller && !HasLeft(r.stage)),
           inTime := r.inTime || (r.canceller && BeforeFinalCheck(r.stage)))
    case Timeout => r.(ended := true)
    case PersistCancel => r.(status := Cancelled, persisted := true)
  }

  function Execute(actions: seq<Action>): Run {
    if actions == [] then INITIAL else Next(Execute(Front(actions)), Last(actions))
  }

  // ---------------------------------------------------------------- invariant

  ghost predicate Bookkeeping(r: Run) {
    && (r.canceller <==> !r.stage.Delivered? && !HasLeft(r.stage))
    && (r.marked != {} && !r.stage.Finished? ==> r.flag)
    && (r.exit.StillIn? <==> !r.stage.Leaving? && !HasLeft(r.stage))
    && (r.started ==> r.invoked)
  }

  /** Once a Cancel missed the worker, the recorded cancellation stops it at its first check. */
  ghost predicate MissedInv(r: Run) {
    r.missed ==>
      && r.marked != {} && !r.invoked
      && (r.stage.Delivered? || r.stage.Registered? || r.stage.WriteCancelled?
          || r.stage.Leaving? || HasLeft(r.stage))
      && (r.exit.StillIn? || r.exit.Honoured?)
  }

  /** Once a Cancel fired in time, the worker cannot find its context live. */
  ghost predicate InTimeInv(r: Run) {
    r.inTime ==>
      && r.ended && r.marked != {}
      && !r.stage.ContextLive? && !r.stage.WriteModelError? && !r.stage.WriteCompleted? && !r.stage.WriteTimedOut?
      && (r.exit.StillIn? || r.exit.Honoured? || r.exit.StartupFailed?)
      && (r.exit.StartupFailed? ==> !r.started)
      && (r.exit.StartupFailed? && !r.persisted ==> r.status == Queued || r.status == Active)
  }

  ghost predicate StatusInv(r: Run) {
    && (r.exit.Honoured? ==> r.status == Cancelled || r.lost)
    && (r.exit.StartupFailed? || r.stage.StartFailed? ==> !r.started)
    && (r.exit.StillIn? && !r.persisted ==> r.status == Queued || r.status == Active)
    && (r.exit.StillIn? ==> r.status != Failed)
    && (r.status == Completed ==> r.exit.RanThrough?)
  }

  /** Where the worker can be once the runner accepted the run, and before. */
  ghost predicate StartedInv(r: Run) {
    match r.stage
    case Delivered => !r.invoked
    case Registered => !r.invoked
    case FlagClear => !r.invoked
    case StoreClear => !r.invoked
    case Activated => !r.invoked
    case _ => true
  }

  ghost predicate Inv(r: Run) {
    Bookkeeping(r) && MissedInv(r) && InTimeInv(r) && StatusInv(r) && StartedInv(r)
  }

  lemma EarlyWorkKeeps(r: Run, ok: bool, startup: Startup)
    requires Inv(r)
    requires r.stage.Delivered? || r.stage.Registered? || r.stage.FlagClear? || r.stage.StoreClear?
             || r.stage.Activated?
    ensures Inv(WorkerStep(r, ok, startup, false))
  {
  }

  lemma MiddleWorkKeeps(r: Run, ok: bool, startup: Startup, modelError: bool)
    requires Inv(r)
    requires r.stage.StartFailed? || r.stage.Running? || r.stage.ContextEnded? || r.stage.ContextLive?
    ensures Inv(WorkerStep(r, ok, startup, modelError))
  {
  }

  lemma LateWorkKeeps(r: Run, ok: bool, startup: Startup, modelError: bool)
    requires Inv(r)
    requires r.stage.WriteCancelled? || r.stage.WriteTimedOut? || r.stage.WriteModelError? || r.stage.WriteCompleted?
    ensures Inv(WorkerStep(r, ok, startup, modelError))
  {
  }

  lemma LeavingKeeps(r: Run, ok: bool, startup: Startup, modelError: bool)
    requires Inv(r)
    requires r.stage.Leaving? || r.stage.Unregistered? || r.stage.Finished?
    ensures Inv(WorkerStep(r, ok, startup, modelError))
  {
  }

  lemma WorkKeeps(r: Run, ok: bool, startup: Startup, modelError: bool)
    requires Inv(r)
    ensures Inv(WorkerStep(r, ok, startup, modelError))
  {
    match r.stage
    case StartFailed => MiddleWorkKeeps(r, ok, startup, modelError);
    case Running => MiddleWorkKeeps(r, ok, startup, modelError);
    case ContextEnded => MiddleWorkKeeps(r, ok, startup, modelError);
    case ContextLive => MiddleWorkKeeps(r, ok, startup, modelError);
    case WriteCancelled => LateWorkKeeps(r, ok, startup, modelError);
    case WriteTimedOut => LateWorkKeeps(r, ok, startup, modelError);
    case WriteModelError => LateWorkKeeps(r, ok, startup, modelError);
    case WriteCompleted => LateWorkKeeps(r, ok, startup, modelError);
    case Leaving => LeavingKeeps(r, ok, startup, modelError);
    case Unregistered => LeavingKeeps(r, ok, startup, modelError);
    case Finished => LeavingKeeps(r, ok, startup, modelError);
    case _ => EarlyWorkKeeps(r, ok, startup);
  }

  lemma MarkKeeps(r: Run, caller: nat)
    requires Inv(r)
    ensures Inv(Next(r, Mark(caller)))
  {
  }

  lemma FireKeeps(r: Run, caller: nat)
    requires Inv(r)
    ensures Inv(Next(r, Fire(caller)))
  {
  }

  lemma TimeoutKeeps(r: Run)
    requires Inv(r)
    ensures Inv(Next(r, Timeout))
  {
  }

  lemma PersistCancelKeeps(r: Run)
    requires Inv(r)
    ensures Inv(Next(r, PersistCancel))
  {
  }

  lemma StepKeeps(r: Run, action: Action)
    requires Inv(r)
    ensures Inv(Next(r, action))
  {
    match action
    case Work(ok, startup, modelError) => WorkKeeps(r, ok, startup, modelError);
    case Mark(caller) => MarkKeeps(r, caller);
    case Fire(caller) => FireKeeps(r, caller);
    case Timeout => TimeoutKeeps(r);
    case PersistCancel => PersistCancelKeeps(r);
  }

  lemma {:induction false} Invariant(actions: seq<Action>)
    ensures Inv(Execute(actions))
  {
    if actions != [] {
      Invariant(Front(actions));
      StepKeeps(Execute(Front(actions)), Last(actions));
    }
  }

  // ---------------------------------------------------------------- main results

  /**
   * If a Cancel returned false while the worker had not unregistered, the runner is never called, and the run ends
   * cancelled (unless the database refused that very write).
   */
  lemma MissedCancelPreventsRun(actions: seq<Action>)
    requires Execute(actions).missed
    ensures var r := Execute(actions);
            !r.invoked && (r.stage.Finished? ==> r.exit == Honoured && (r.status == Cancelled || r.lost))
  {
    Invariant(actions);
  }

  /**
   * If a Cancel fired the cancel function before the final context check, the run never completes, and it ends
   * cancelled if the runner had accepted it.
   */
  lemma FiredCancelStopsRun(actions: seq<Action>)
    requires Execute(actions).inTime
    ensures var r := Execute(actions);
            && r.status != Completed
            && (r.stage.Finished? && r.started ==> r.status == Cancelled || r.lost)
  {
    Invariant(actions);
  }

  /**
   * Exactly when does a cancel fired in time leave the row cancelled?  When start-up did not fail: the failure write
   * goes through the ended context, so a run cancelled during start-up keeps its queued or active row.
   */
  lemma FiredCancelExactly(actions: seq<Action>)
    requires var r := Execute(actions); r.inTime && r.stage.Finished? && !r.persisted && !r.lost
    ensures var r := Execute(actions); r.status == Cancelled <==> r.exit != StartupFailed
  {
    Invariant(actions);
  }

  /** A run only reaches COMPLETED through a live final context check. */
  lemma CompletedRanThrough(actions: seq<Action>)
    ensures var r := Execute(actions);
            r.status == Completed ==> r.exit == RanThrough && !r.inTime && !r.missed
  {
    Invariant(actions);
  }

  lemma ExecuteStep(actions: seq<Action>, action: Action)
    ensures Execute(actions + [action]) == Next(Execute(actions), action)
  {
    assert Front(actions + [action]) == actions;
  }

  const GO := Work(true, Started, false)

  /** After any history in which the worker is about to mark the run active, a persisted cancellation is overwritten. */
  lemma PersistedCancelCanBeLost(actions: seq<Action>)
    requires Execute(actions).stage.StoreClear? && !Execute(actions).ended
    ensures var r := Execute(actions + [PersistCancel] + [GO]);
            r.persisted && r.status == Active
  {
    ExecuteStep(actions, PersistCancel);
    ExecuteStep(actions + [PersistCancel], GO);
  }

  /** Start-up failing after a cancel: the failure write is lost with the context. */
  lemma FailedStartup(r: Run)
    requires Inv(r) && r.stage.Activated? && r.ended
    ensures var fail := Work(true, NotReached, false);
            var left := Next(Next(Next(Next(r, fail), fail), fail), fail);
            left == r.(stage := Finished, exit := StartupFailed, canceller := false, flag := false, invoked := false,
                       started := false)
  {
  }

  lemma ExecuteTwo(actions: seq<Action>, a: Action, b: Action)
    ensures Execute(actions + [a] + [b]) == Next(Next(Execute(actions), a), b)
  {
    ExecuteStep(actions, a);
    ExecuteStep(actions + [a], b);
  }

  /** A run whose runner has been started. */
  lemma RunStarts() returns (actions: seq<Action>)
    ensures Execute(actions) == INITIAL.(stage := Running, canceller := true, status := Active, invoked := true,
                                         started := true)
  {
    var none: seq<Action> := [];
    ExecuteTwo(none, GO, GO);
    ExecuteTwo(none + [GO] + [GO], GO, GO);
    ExecuteStep(none + [GO] + [GO] + [GO] + [GO], GO);
    actions := none + [GO] + [GO] + [GO] + [GO] + [GO];
  }

  lemma ExecuteFour(actions: seq<Action>, a: Action)
    ensures Execute(actions + [a] + [a] + [a] + [a]) == Next(Next(Next(Next(Execute(actions), a), a), a), a)
  {
    ExecuteStep(actions, a);
    ExecuteStep(actions + [a], a);
    ExecuteStep(actions + [a] + [a], a);
    ExecuteStep(actions + [a] + [a] + [a], a);
  }

  lemma WorkGoes(actions: seq<Action>, r: Run, next: Run)
    requires Execute(actions) == r && Next(r, GO) == next
    ensures Execute(actions + [GO]) == next
  {
    ExecuteStep(actions, GO);
  }

  /** The last steps of a cancelled run, if nothing fails. */
  lemma CancelledRunEnds(actions: seq<Action>, r: Run) returns (all: seq<Action>)
    requires Execute(actions) == r && r.stage.WriteCancelled?
    ensures Execute(all)
         == r.(stage := Finished, exit := Honoured, status := Cancelled, canceller := false, flag := false)
  {
    var written := r.(stage := Leaving, exit := Honoured, status := Cancelled);
    WorkGoes(actions, r, written);
    var left := written.(canceller := false, stage := Unregistered);
    WorkGoes(actions + [GO], written, left);
    WorkGoes(actions + [GO] + [GO], left, left.(flag := false, stage := Finished));
    all := actions + [GO] + [GO] + [GO];
  }

  /** A cancel can fire in time and win: the run ends cancelled. */
  lemma CancelCanWin()
    ensures exists actions ::
              var r := Execute(actions);
              r.inTime && r.stage.Finished? && !r.persisted && !r.lost && r.started && r.status == Cancelled
  {
    var running := RunStarts();
    ExecuteTwo(running, Mark(0), Fire(0));
    var fired := running + [Mark(0)] + [Fire(0)];
    var r := Execute(fired);
    var ended := r.(stage := ContextEnded, endedThen := true);
    WorkGoes(fired, r, ended);
    var write := ended.(stage := WriteCancelled, flagThen := true);
    WorkGoes(fired + [GO], ended, write);
    var all := CancelledRunEnds(fired + [GO] + [GO], write);
  }

  /** A cancel can come before the worker and still win. */
  lemma EarlyCancelCanWin()
    ensures exists actions ::
              var r := Execute(actions);
              r.missed && r.stage.Finished? && r.answers == map[0 := false] && r.status == Cancelled
  {
    var none: seq<Action> := [];
    ExecuteTwo(none, Mark(0), Fire(0));
    var fired := none + [Mark(0)] + [Fire(0)];
    var r := Execute(fired);
    var registered := r.(canceller := true, stage := Registered);
    WorkGoes(fired, r, registered);
    WorkGoes(fired + [GO], registered, registered.(stage := WriteCancelled));
    var all := CancelledRunEnds(fired + [GO] + [GO], registered.(stage := WriteCancelled));
  }

  lemma FireAtStartup(r: Run)
    requires Inv(r) && r.stage.Activated? && r.marked == {} && r.answers == map[]
    ensures Next(Next(r, Mark(0)), Fire(0))
         == r.(flag := true, marked := {0}, answers := map[0 := true], ended := true, inTime := true)
  {
  }

  lemma StartupCancelled(actions: seq<Action>) returns (fired: seq<Action>)
    requires var r := Execute(actions); r.stage.Activated? && r.marked == {} && r.answers == map[]
    ensures actions <= fired
    ensures Execute(fired) == Execute(actions).(flag := true, marked := {0}, answers := map[0 := true], ended := true,
                                                inTime := true)
  {
    ExecuteStep(actions, Mark(0));
    ExecuteStep(actions + [Mark(0)], Fire(0));
    fired := actions + [Mark(0)] + [Fire(0)];
    Invariant(actions);
    FireAtStartup(Execute(actions));
  }

  /** From any such start-up the run can end with its row active for ever, after a cancel while the session loads. */
  lemma CancelDuringStartupLeavesActive(actions: seq<Action>)
    requires var r := Execute(actions); r.stage.Activated? && r.status == Active && r.marked == {} && r.answers == map[]
    ensures exists more ::
              var r := Execute(more);
              && actions <= more
              && r.stage.Finished? && r.inTime && r.answers == map[0 := true] && r.status == Active
  {
    var fired := StartupCancelled(actions);
    Invariant(fired);
    var more := StrandedRun(fired);
    assert actions <= more by { assert more[..|actions|] == fired[..|actions|] == actions; }
  }

  lemma StrandedRun(fired: seq<Action>) returns (more: seq<Action>)
    requires var r := Execute(fired); Inv(r) && r.stage.Activated? && r.ended
    ensures fired <= more
    ensures Execute(more)
         == Execute(fired).(stage := Finished, exit := StartupFailed, canceller := false, flag := false,
                            invoked := false, started := false)
  {
    var fail := Work(true, NotReached, false);
    FailedStartup(Execute(fired));
    ExecuteFour(fired, fail);
    more := fired + [fail] + [fail] + [fail] + [fail];
  }

  /** The worker up to the moment it has marked the run active. */
  lemma RunActivates() returns (actions: seq<Action>)
    ensures Execute(actions) == INITIAL.(stage := Activated, canceller := true, status := Active)
  {
    var none: seq<Action> := [];
    ExecuteTwo(none, GO, GO);
    ExecuteTwo(none + [GO] + [GO], GO, GO);
    actions := none + [GO] + [GO] + [GO] + [GO];
  }

  /** Such a run exists. */
  lemma StartupCancelCanStrandRun()
    ensures exists actions ::
              var r := Execute(actions);
              r.stage.Finished? && r.inTime && r.answers == map[0 := true] && r.status == Active
  {
    var actions := RunActivates();
    CancelDuringStartupLeavesActive(actions);
  }

  // ---------------------------------------------------------------- the row at the end

  /** What the final checks found decides what the worker writes. */
  ghost predicate Decided(r: Run) {
    && (r.stage.Running? ==> r.started)
    && (r.stage.ContextEnded? ==> r.started && r.endedThen)
    && (r.stage.ContextLive? ==> r.started && !r.endedThen)
    && (r.stage.WriteTimedOut? || r.exit.TimedOut? ==> r.started && r.endedThen && !r.flagThen)
    && (r.stage.WriteModelError? || r.exit.ModelFailed? ==> r.started && !r.endedThen && r.modelFailed)
    && (r.stage.WriteCompleted? || r.exit.RanThrough? ==> r.started && !r.endedThen && !r.modelFailed)
    && (r.started && (r.stage.WriteCancelled? || r.exit.Honoured?) ==> r.endedThen && r.flagThen)
  }

  /** The row a worker that left by itself wrote. */
  ghost predicate RowWritten(r: Run) {
    !r.persisted && !r.lost ==>
      && (r.exit.Honoured? ==> r.status == Cancelled)
      && (r.exit.TimedOut? || r.exit.ModelFailed? ==> r.status == Failed)
      && (r.exit.RanThrough? ==> r.status == Completed)
      && (r.exit.StartupFailed? ==> r.status == Queued || r.status == Active || r.status == Failed)
  }

  lemma EarlyWorkDecides(r: Run, ok: bool, startup: Startup, modelError: bool)
    requires Inv(r) && Decided(r) && RowWritten(r)
    requires r.stage.Delivered? || r.stage.Registered? || r.stage.FlagClear?
    ensures Decided(WorkerStep(r, ok, startup, modelError)) && RowWritten(WorkerStep(r, ok, startup, modelError))
  {
  }

  lemma StartDecides(r: Run, ok: bool, startup: Startup, modelError: bool)
    requires Inv(r) && Decided(r) && RowWritten(r)
    requires r.stage.StoreClear? || r.stage.Activated? || r.stage.StartFailed?
    ensures Decided(WorkerStep(r, ok, startup, modelError)) && RowWritten(WorkerStep(r, ok, startup, modelError))
  {
  }

  lemma ChecksDecide(r: Run, ok: bool, startup: Startup, modelError: bool)
    requires Inv(r) && Decided(r) && RowWritten(r)
    requires r.stage.Running? || r.stage.ContextEnded? || r.stage.ContextLive?
    ensures Decided(WorkerStep(r, ok, startup, modelError)) && RowWritten(WorkerStep(r, ok, startup, modelError))
  {
  }

  lemma WritesDecide(r: Run, ok: bool, startup: Startup, modelError: bool)
    requires Inv(r) && Decided(r) && RowWritten(r)
    requires r.stage.WriteCancelled? || r.stage.WriteTimedOut? || r.stage.WriteModelError? || r.stage.WriteCompleted?
    ensures Decided(WorkerStep(r, ok, startup, modelError)) && RowWritten(WorkerStep(r, ok, startup, modelError))
  {
  }

  lemma LeavingDecides(r: Run, ok: bool, startup: Startup, modelError: bool)
    requires Inv(r) && Decided(r) && RowWritten(r)
    requires r.stage.Leaving? || r.stage.Unregistered? || r.stage.Finished?
    ensures Decided(WorkerStep(r, ok, startup, modelError)) && RowWritten(WorkerStep(r, ok, startup, modelError))
  {
  }

  lemma WorkDecides(r: Run, ok: bool, startup: Startup, modelError: bool)
    requires Inv(r) && Decided(r) && RowWritten(r)
    ensures Decided(WorkerStep(r, ok, startup, modelError)) && RowWritten(WorkerStep(r, ok, startup, modelError))
  {
    match r.stage
    case Running => ChecksDecide(r, ok, startup, modelError);
    case ContextEnded => ChecksDecide(r, ok, startup, modelError);
    case ContextLive => ChecksDecide(r, ok, startup, modelError);
    case WriteCancelled => WritesDecide(r, ok, startup, modelError);
    case WriteTimedOut => WritesDecide(r, ok, startup, modelError);
    case WriteModelError => WritesDecide(r, ok, startup, modelError);
    case WriteCompleted => WritesDecide(r, ok, startup, modelError);
    case Leaving => LeavingDecides(r, ok, startup, modelError);
    case Unregistered => LeavingDecides(r, ok, startup, modelError);
    case Finished => LeavingDecides(r, ok, startup, modelError);
    case StoreClear => StartDecides(r, ok, startup, modelError);
    case Activated => StartDecides(r, ok, startup, modelError);
    case StartFailed => StartDecides(r, ok, startup, modelError);
    case _ => EarlyWorkDecides(r, ok, startup, modelError);
  }

  lemma SignalDecides(r: Run, action: Action, next: Run)
    requires Decided(r) && RowWritten(r) && !action.Work? && next == Next(r, action)
    ensures Decided(next) && RowWritten(next)
  {
    match action
    case Mark(caller) => assert next == r.(flag := true, marked := next.marked);
    case Fire(caller) => FireDecides(r, caller, next);
    case Timeout => assert next == r.(ended := true);
    case PersistCancel => assert next == r.(status := Cancelled, persisted := true);
  }

  lemma FireDecides(r: Run, caller: nat, next: Run)
    requires Decided(r) && RowWritten(r) && next == Next(r, Fire(caller))
    ensures Decided(next) && RowWritten(next)
  {
    if caller in r.marked && caller !in r.answers {
      assert next.stage == r.stage && next.exit == r.exit && next.status == r.status;
    } else {
      assert next == r;
    }
  }

  lemma {:induction false} RunDecides(actions: seq<Action>)
    ensures Decided(Execute(actions)) && RowWritten(Execute(actions))
  {
    if actions != [] {
      var r := Execute(Front(actions));
      RunDecides(Front(actions));
      Invariant(Front(actions));
      match Last(actions)
      case Work(ok, startup, modelError) => WorkDecides(r, ok, startup, modelError);
      case _ => SignalDecides(r, Last(actions), Execute(actions));
    }
  }

  /**
   * What is in the row of a finished run whose terminal write succeeded and that nobody else cancelled there?  If the
   * runner had accepted the run: cancelled exactly when its context had ended by the final check and a cancellation was
   * recorded, failed exactly when it had ended without one or the model had failed in a live context, and otherwise
   * completed.  If not: cancelled, or what start-up left.
   */
  lemma FinishedRowExactly(actions: seq<Action>)
    requires var r := Execute(actions); r.stage.Finished? && !r.persisted && !r.lost
    ensures var r := Execute(actions);
            && (r.started ==>
                  && (r.status == Cancelled <==> r.endedThen && r.flagThen)
                  && (r.status == Failed <==> if r.endedThen then !r.flagThen else r.modelFailed)
                  && (r.status == Completed <==> !r.endedThen && !r.modelFailed))
            && (!r.started ==> r.status != Completed && (r.status == Cancelled <==> r.exit != StartupFailed))
  {
    Invariant(actions);
    RunDecides(actions);
    var r := Execute(actions);
    assert r.started ==> r.exit != StartupFailed;
  }

  /** A failed start-up is written to the row exactly if the write succeeds and the run's context is still live. */
  lemma FailedStartIsWritten(actions: seq<Action>, ok: bool, startup: Startup, modelError: bool)
    requires Execute(actions).stage.StartFailed?
    ensures var r, next := Execute(actions), Execute(actions + [Work(ok, startup, modelError)]);
            && next.stage.Leaving? && next.exit.StartupFailed?
            && (next.status == Failed <==> ok && !r.ended)
            && (next.status != Failed ==> next.status == r.status)
  {
    Invariant(actions);
    ExecuteStep(actions, Work(ok, startup, modelError));
  }

  // ---------------------------------------------------------------- a cancellation persisted by someone else

  /** The worker runs alone; its database calls may fail. */
  ghost predicate Alone(actions: seq<Action>) {
    forall i :: 0 <= i < |actions| ==> actions[i].Work?
  }

  /** ... and no database call fails. */
  ghost predicate Calm(actions: seq<Action>) {
    forall i :: 0 <= i < |actions| ==> actions[i].Work? && actions[i].ok
  }

  /** The worker has not yet read the row. */
  predicate BeforeRead(stage: Stage) {
    stage.Delivered? || stage.Registered? || stage.FlagClear?
  }

  /** The worker writes no more. */
  predicate AfterWrites(stage: Stage) {
    stage.Leaving? || HasLeft(stage)
  }

  ghost predicate Undisturbed(r: Run) {
    !r.flag && !r.ended && !r.stage.WriteCancelled? && !r.stage.ContextEnded? && !r.stage.WriteTimedOut?
  }

  /** The cancellation is in the row, and the worker will still see it or no longer write. */
  ghost predicate Safe(r: Run) {
    Undisturbed(r) && r.status == Cancelled && (BeforeRead(r.stage) || AfterWrites(r.stage))
  }

  /** The worker has read the row, and has overwritten the cancellation by the time it leaves. */
  ghost predicate Doomed(r: Run) {
    Undisturbed(r) && !BeforeRead(r.stage) && (AfterWrites(r.stage) ==> r.status != Cancelled)
  }

  /** What a step of the worker keeps of all this. */
  ghost predicate FateKept(r: Run, ok: bool, next: Run) {
    && Undisturbed(next)
    && (ok && Safe(r) ==> Safe(next))
    && (ok && Doomed(r) ==> Doomed(next))
  }

  lemma EarlyFate(r: Run, ok: bool, startup: Startup, modelError: bool)
    requires Undisturbed(r) && (r.stage.Delivered? || r.stage.Registered? || r.stage.FlagClear?)
    ensures FateKept(r, ok, WorkerStep(r, ok, startup, modelError))
  {
    var next := WorkerStep(r, ok, startup, modelError);
    match r.stage
    case Delivered => assert next == r.(canceller := true, stage := Registered);
    case Registered => assert next == r.(stage := FlagClear);
    case FlagClear => ReadFate(r, ok, next);
  }

  lemma ReadFate(r: Run, ok: bool, next: Run)
    requires Undisturbed(r) && r.stage.FlagClear?
    requires next == if ok && r.status == Cancelled then r.(stage := Leaving, exit := Honoured)
                     else r.(stage := StoreClear)
    ensures FateKept(r, ok, next)
  {
  }

  lemma StartFate(r: Run, ok: bool, startup: Startup, modelError: bool)
    requires Undisturbed(r) && (r.stage.StoreClear? || r.stage.Activated? || r.stage.StartFailed?)
    ensures FateKept(r, ok, WorkerStep(r, ok, startup, modelError))
  {
  }

  lemma RunningFate(r: Run, ok: bool, startup: Startup, modelError: bool)
    requires Undisturbed(r) && (r.stage.Running? || r.stage.ContextLive?)
    ensures FateKept(r, ok, WorkerStep(r, ok, startup, modelError))
  {
  }

  lemma WriteFate(r: Run, ok: bool, startup: Startup, modelError: bool)
    requires Undisturbed(r) && (r.stage.WriteModelError? || r.stage.WriteCompleted?)
    ensures FateKept(r, ok, WorkerStep(r, ok, startup, modelError))
  {
  }

  lemma LeavingFate(r: Run, ok: bool, startup: Startup, modelError: bool)
    requires Undisturbed(r) && r.stage.Leaving?
    ensures FateKept(r, ok, WorkerStep(r, ok, startup, modelError))
  {
    assert WorkerStep(r, ok, startup, modelError) == r.(canceller := false, stage := Unregistered);
  }

  lemma LeftFate(r: Run, ok: bool, startup: Startup, modelError: bool)
    requires Undisturbed(r) && (r.stage.Unregistered? || r.stage.Finished?)
    ensures FateKept(r, ok, WorkerStep(r, ok, startup, modelError))
  {
    assert WorkerStep(r, ok, startup, modelError) == r.(stage := Finished);
  }

  lemma WorkKeepsFate(r: Run, action: Action, next: Run)
    requires Undisturbed(r) && action.Work? && next == Next(r, action)
    ensures FateKept(r, action.ok, next)
  {
    var Work(ok, startup, modelError) := action;
    match r.stage
    case Delivered => EarlyFate(r, ok, startup, modelError);
    case Registered => EarlyFate(r, ok, startup, modelError);
    case FlagClear => EarlyFate(r, ok, startup, modelError);
    case StoreClear => StartFate(r, ok, startup, modelError);
    case Activated => StartFate(r, ok, startup, modelError);
    case StartFailed => StartFate(r, ok, startup, modelError);
    case Running => RunningFate(r, ok, startup, modelError);
    case ContextLive => RunningFate(r, ok, startup, modelError);
    case WriteModelError => WriteFate(r, ok, startup, modelError);
    case WriteCompleted => WriteFate(r, ok, startup, modelError);
    case Leaving => LeavingFate(r, ok, startup, modelError);
    case _ => LeftFate(r, ok, startup, modelError);
  }

  lemma {:induction false} AloneIsUndisturbed(actions: seq<Action>)
    requires Alone(actions)
    ensures Undisturbed(Execute(actions))
  {
    if actions != [] {
      AloneIsUndisturbed(Front(actions));
      WorkKeepsFate(Execute(Front(actions)), Last(actions), Execute(actions));
    }
  }

  lemma {:induction false} FateIsKept(before: seq<Action>, after: seq<Action>)
    requires Calm(after) && (Safe(Execute(before)) || Doomed(Execute(before)))
    ensures Safe(Execute(before)) ==> Safe(Execute(before + after))
    ensures Doomed(Execute(before)) ==> Doomed(Execute(before + after))
  {
    if after == [] {
      assert before + after == before;
    } else {
      FateIsKept(before, Front(after));
      assert Front(before + after) == before + Front(after);
      WorkKeepsFate(Execute(before + Front(after)), Last(after), Execute(before + after));
    }
  }

  /** The cancellation is in the row, and the worker will see it or write no other status. */
  ghost predicate Kept(r: Run) {
    r.status == Cancelled && (BeforeRead(r.stage) || r.stage.WriteCancelled? || AfterWrites(r.stage))
  }

  lemma UnreadKeepsRow(r: Run, startup: Startup, modelError: bool, next: Run)
    requires r.status == Cancelled && next == WorkerStep(r, true, startup, modelError)
    requires r.stage.Delivered? || r.stage.Registered? || r.stage.FlagClear?
    ensures Kept(next)
  {
  }

  lemma WriteKeepsRow(r: Run, startup: Startup, modelError: bool, next: Run)
    requires r.stage.WriteCancelled? && next == WorkerStep(r, true, startup, modelError)
    ensures Kept(next)
  {
    assert next == r.(stage := Leaving, exit := Honoured, status := Cancelled);
  }

  lemma LeavingKeepsRow(r: Run, startup: Startup, modelError: bool, next: Run)
    requires r.status == Cancelled && r.stage.Leaving? && next == WorkerStep(r, true, startup, modelError)
    ensures Kept(next)
  {
    assert next == r.(canceller := false, stage := Unregistered);
  }

  lemma LeftKeepsRow(r: Run, startup: Startup, modelError: bool, next: Run)
    requires r.status == Cancelled && next == WorkerStep(r, true, startup, modelError)
    requires r.stage.Unregistered? || r.stage.Finished?
    ensures Kept(next)
  {
    assert next.stage.Finished? && next.status == r.status;
  }

  lemma WorkKeepsRow(r: Run, action: Action, next: Run)
    requires Kept(r) && action.Work? && action.ok && next == Next(r, action)
    ensures Kept(next)
  {
    var Work(_, startup, modelError) := action;
    if BeforeRead(r.stage) {
      UnreadKeepsRow(r, startup, modelError, next);
    } else if r.stage.WriteCancelled? {
      WriteKeepsRow(r, startup, modelError, next);
    } else if r.stage.Leaving? {
      LeavingKeepsRow(r, startup, modelError, next);
    } else {
      LeftKeepsRow(r, startup, modelError, next);
    }
  }

  lemma SignalKeepsRow(r: Run, action: Action, next: Run)
    requires Kept(r) && !action.Work? && next == Next(r, action)
    ensures Kept(next)
  {
  }

  /** The database calls of the worker succeed; cancels, timeouts and other cancellations may come at any time. */
  ghost predicate StoreUp(actions: seq<Action>) {
    forall i :: 0 <= i < |actions| && actions[i].Work? ==> actions[i].ok
  }

  lemma {:induction false} RowIsKept(before: seq<Action>, after: seq<Action>)
    requires Kept(Execute(before)) && StoreUp(after)
    ensures Kept(Execute(before + after))
  {
    if after == [] {
      assert before + after == before;
    } else {
      var most := before + Front(after);
      RowIsKept(before, Front(after));
      assert Front(before + after) == most && Last(before + after) == Last(after);
      if Last(after).Work? {
        WorkKeepsRow(Execute(most), Last(after), Execute(before + after));
      } else {
        SignalKeepsRow(Execute(most), Last(after), Execute(before + after));
      }
    }
  }

  /**
   * A cancellation persisted before the worker has read the row is in the row ever after, at the end of the run
   * included, whatever cancels, timeouts and further cancellations come before or after it.
   */
  lemma UnreadCancelSurvives(before: seq<Action>, after: seq<Action>)
    requires BeforeRead(Execute(before).stage) && StoreUp(after)
    ensures Execute(before + [PersistCancel] + after).status == Cancelled
  {
    ExecuteStep(before, PersistCancel);
    RowIsKept(before + [PersistCancel], after);
  }

  /**
   * When does a cancellation persisted by another process survive?  With no cancel and no timeout in this process, and
   * database calls that succeed from then on, exactly when the worker had not yet read the row or had already made its
   * last write.
   */
  lemma PersistedCancelSurvives(before: seq<Action>, after: seq<Action>)
    requires Alone(before) && Calm(after) && Execute(before + [PersistCancel] + after).stage.Finished?
    ensures var stage := Execute(before).stage;
            Execute(before + [PersistCancel] + after).status == Cancelled <==> BeforeRead(stage) || AfterWrites(stage)
  {
    AloneIsUndisturbed(before);
    ExecuteStep(before, PersistCancel);
    FateIsKept(before + [PersistCancel], after);
  }

  /** A run that completes although its cancellation was persisted while the worker was about to mark it active. */
  lemma PersistedCancelIsLost()
    ensures exists actions ::
              var r := Execute(actions);
              r.persisted && r.stage.Finished? && r.status == Completed && !r.lost
  {
    var none: seq<Action> := [];
    ExecuteTwo(none, GO, GO);
    ExecuteTwo(none + [GO] + [GO], GO, PersistCancel);
    var cancelled := none + [GO] + [GO] + [GO] + [PersistCancel];
    var all := CompletesFrom(cancelled, Execute(cancelled));
  }

  lemma CompletesFrom(actions: seq<Action>, r: Run) returns (all: seq<Action>)
    requires Execute(actions) == r && r.stage.StoreClear? && !r.ended
    ensures Execute(all).stage.Finished? && Execute(all).status == Completed
    ensures Execute(all).persisted == r.persisted && Execute(all).lost == r.lost
  {
    var activated := r.(stage := Activated, status := Active);
    WorkGoes(actions, r, activated);
    var running := activated.(invoked := true, started := true, stage := Running);
    WorkGoes(actions + [GO], activated, running);
    var live := running.(stage := ContextLive, endedThen := false);
    WorkGoes(actions + [GO] + [GO], running, live);
    var write := live.(stage := WriteCompleted, modelFailed := false);
    WorkGoes(actions + [GO] + [GO] + [GO], live, write);
    all := Leaves(actions + [GO] + [GO] + [GO] + [GO], write);
  }

  lemma Leaves(actions: seq<Action>, r: Run) returns (all: seq<Action>)
    requires Execute(actions) == r && r.stage.WriteCompleted?
    ensures Execute(all).stage.Finished? && Execute(all).status == Completed
    ensures Execute(all).persisted == r.persisted && Execute(all).lost == r.lost
  {
    var written := r.(stage := Leaving, exit := RanThrough, status := Completed);
    WorkGoes(actions, r, written);
    var left := written.(canceller := false, stage := Unregistered);
    WorkGoes(actions + [GO], written, left);
    WorkGoes(actions + [GO] + [GO], left, left.(flag := false, stage := Finished));
    all := actions + [GO] + [GO] + [GO];
  }
}
