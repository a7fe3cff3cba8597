/** The bounded metrics queue: producers enqueue batches without blocking, one goroutine collects and hands them on. */
module MetricsQueue {
  import opened Prelude

  const DEFAULT_BUFFER: nat := 100
  const FLUSH_SIZE: nat := 100

  datatype Batch<R, T> = Batch(runs: seq<R>, tools: seq<T>)

  /** A call of the wrapped sink, whose own errors are only logged. */
  datatype Call<R, T> = InsertRuns(runs: seq<R>) | InsertTools(tools: seq<T>)

  datatype State<R, T> = State(
    queue: seq<Batch<R, T>>,          // the channel
    runs: seq<R>, tools: seq<T>,      // the accumulators
    calls: seq<Call<R, T>>,           // handed to the sink
    accepted: seq<Batch<R, T>>)       // history: every batch that entered the channel

  datatype Action<R, T> = Enqueue(batch: Batch<R, T>) | Receive | Tick

  function Initial<R, T>(): State<R, T> {
    State([], [], [], [], [])
  }

  /** A full queue drops the batch. */
  function EnqueueStep<R, T>(s: State<R, T>, batch: Batch<R, T>, buffer: nat): State<R, T> {
    if |s.queue| < buffer then s.(queue := s.queue + [batch], accepted := s.accepted + [batch]) else s
  }

  function FlushStep<R, T>(s: State<R, T>): State<R, T> {
    s.(runs := [], tools := [],
       calls := s.calls + (if s.runs != [] then [InsertRuns(s.runs)] else [])
                + (if s.tools != [] then [InsertTools(s.tools)] else []))
  }

  /** Take a batch from the channel, if there is one; a full accumulator is flushed. */
  function ReceiveStep<R, T>(s: State<R, T>): State<R, T> {
    if s.queue == [] then s
    else
      var next := s.(queue := s.queue[1..], runs := s.runs + s.queue[0].runs, tools := s.tools + s.queue[0].tools);
      if |next.runs| + |next.tools| >= FLUSH_SIZE then FlushStep(next) else next
  }

  function Next<R, T>(s: State<R, T>, action: Action<R, T>, buffer: nat): State<R, T> {
    match action
    case Enqueue(batch) => EnqueueStep(s, batch, buffer)
    case Receive => ReceiveStep(s)
    case Tick => FlushStep(s)
  }

  function Execute<R, T>(actions: seq<Action<R, T>>, buffer: nat): State<R, T> {
    if actions == [] then Initial() else Next(Execute(Front(actions), buffer), Last(actions), buffer)
  }

  // ---------------------------------------------------------------- metrics in order

  function RunsOf<R, T>(batches: seq<Batch<R, T>>): seq<R> {
    if batches == [] then [] else RunsOf(Front(batches)) + Last(batches).runs
  }

  function ToolsOf<R, T>(batches: seq<Batch<R, T>>): seq<T> {
    if batches == [] then [] else ToolsOf(Front(batches)) + Last(batches).tools
  }

  function HandedRuns<R, T>(calls: seq<Call<R, T>>): seq<R> {
    if calls == [] then []
    else HandedRuns(Front(calls)) + (if Last(calls).InsertRuns? then Last(calls).runs else [])
  }

  function HandedTools<R, T>(calls: seq<Call<R, T>>): seq<T> {
    if calls == [] then []
    else HandedTools(Front(calls)) + (if Last(calls).InsertTools? then Last(calls).tools else [])
  }

  /** Nothing accepted is lost, duplicated or reordered. */
  ghost predicate Conserved<R, T>(s: State<R, T>) {
    && RunsOf(s.accepted) == HandedRuns(s.calls) + s.runs + RunsOf(s.queue)
    && ToolsOf(s.accepted) == HandedTools(s.calls) + s.tools + ToolsOf(s.queue)
  }

  ghost predicate Bounded<R, T>(s: State<R, T>, buffer: nat) {
    && |s.queue| <= buffer
    && |s.runs| + |s.tools| < FLUSH_SIZE
    && forall i :: 0 <= i < |s.calls| ==> s.calls[i] != InsertRuns([]) && s.calls[i] != InsertTools([])
  }

  lemma OneMoreBatch<R, T>(batches: seq<Batch<R, T>>, batch: Batch<R, T>)
    ensures RunsOf(batches + [batch]) == RunsOf(batches) + batch.runs
    ensures ToolsOf(batches + [batch]) == ToolsOf(batches) + batch.tools
  {
    assert Front(batches + [batch]) == batches;
  }

  lemma OneMoreCall<R, T>(calls: seq<Call<R, T>>, call: Call<R, T>)
    ensures HandedRuns(calls + [call]) == HandedRuns(calls) + (if call.InsertRuns? then call.runs else [])
    ensures HandedTools(calls + [call]) == HandedTools(calls) + (if call.InsertTools? then call.tools else [])
  {
    assert Front(calls + [call]) == calls;
  }

  lemma {:induction false} FirstBatch<R, T>(batches: seq<Batch<R, T>>)
    requires batches != []
    ensures RunsOf(batches) == batches[0].runs + RunsOf(batches[1..])
    ensures ToolsOf(batches) == batches[0].tools + ToolsOf(batches[1..])
  {
    var front, rest := Front(batches), batches[1..];
    if front == [] {
      assert RunsOf(front) == [] && ToolsOf(front) == [] && rest == [];
    } else {
      FirstBatch(front);
      assert front[1..] == Front(rest) && Last(rest) == Last(batches);
      Associate(batches[0].runs, RunsOf(front[1..]), Last(batches).runs);
      Associate(batches[0].tools, ToolsOf(front[1..]), Last(batches).tools);
    }
  }

  lemma FlushHands<R, T>(s: State<R, T>)
    ensures HandedRuns(FlushStep(s).calls) == HandedRuns(s.calls) + s.runs
    ensures HandedTools(FlushStep(s).calls) == HandedTools(s.calls) + s.tools
  {
    var after := s.calls + (if s.runs != [] then [InsertRuns(s.runs)] else []);
    if s.runs != [] {
      OneMoreCall(s.calls, InsertRuns(s.runs));
    } else {
      assert after == s.calls;
    }
    if s.tools != [] {
      OneMoreCall(after, InsertTools(s.tools));
    } else {
      assert FlushStep(s).calls == after;
    }
  }

  lemma Regroup<X>(a: seq<X>, b: seq<X>, c: seq<X>, d: seq<X>)
    ensures a + b + (c + d) == a + (b + c) + d
  {
  }

  lemma FlushKeeps<R, T>(s: State<R, T>)
    requires Conserved(s)
    ensures Conserved(FlushStep(s))
  {
    FlushHands(s);
    assert HandedRuns(s.calls) + s.runs + [] == HandedRuns(s.calls) + s.runs;
    assert HandedTools(s.calls) + s.tools + [] == HandedTools(s.calls) + s.tools;
  }

  lemma TakeKeeps<R, T>(s: State<R, T>)
    requires Conserved(s) && s.queue != []
    ensures Conserved(s.(queue := s.queue[1..], runs := s.runs + s.queue[0].runs, tools := s.tools + s.queue[0].tools))
  {
    FirstBatch(s.queue);
    Regroup(HandedRuns(s.calls), s.runs, s.queue[0].runs, RunsOf(s.queue[1..]));
    Regroup(HandedTools(s.calls), s.tools, s.queue[0].tools, ToolsOf(s.queue[1..]));
  }

  lemma ReceiveKeeps<R, T>(s: State<R, T>)
    requires Conserved(s)
    ensures Conserved(ReceiveStep(s))
  {
    if s.queue != [] {
      var next := s.(queue := s.queue[1..], runs := s.runs + s.queue[0].runs, tools := s.tools + s.queue[0].tools);
      TakeKeeps(s);
      FlushKeeps(next);
    }
  }

  lemma EnqueueKeeps<R, T>(s: State<R, T>, batch: Batch<R, T>, buffer: nat)
    requires Conserved(s)
    ensures Conserved(EnqueueStep(s, batch, buffer))
  {
    OneMoreBatch(s.accepted, batch);
    OneMoreBatch(s.queue, batch);
    Associate(HandedRuns(s.calls) + s.runs, RunsOf(s.queue), batch.runs);
    Associate(HandedTools(s.calls) + s.tools, ToolsOf(s.queue), batch.tools);
  }

  lemma NextKeeps<R, T>(s: State<R, T>, action: Action<R, T>, buffer: nat)
    requires Conserved(s)
    ensures Conserved(Next(s, action, buffer))
  {
    match action
    case Enqueue(batch) => EnqueueKeeps(s, batch, buffer);
    case Receive => ReceiveKeeps(s);
    case Tick => FlushKeeps(s);
  }

  lemma NextIsBounded<R, T>(s: State<R, T>, action: Action<R, T>, buffer: nat)
    requires Bounded(s, buffer)
    ensures Bounded(Next(s, action, buffer), buffer)
  {
  }

  /**
   * After any run of the queue: for each kind, the accepted metrics are those handed to the sink, then the
   * accumulator, then the queue, in order; the queue is within its bound, less than a flush is waiting in the
   * accumulators, and no call of the sink is empty.
   */
  lemma {:induction false} MetricsAreConserved<R, T>(actions: seq<Action<R, T>>, buffer: nat)
    ensures Conserved(Execute(actions, buffer)) && Bounded(Execute(actions, buffer), buffer)
  {
    if actions != [] {
      var s := Execute(Front(actions), buffer);
      MetricsAreConserved(Front(actions), buffer);
      NextKeeps(s, Last(actions), buffer);
      NextIsBounded(s, Last(actions), buffer);
    }
  }

  function Receives<R, T>(n: nat): (actions: seq<Action<R, T>>)
    ensures |actions| == n
  {
    seq(n, i => Receive)
  }

  lemma {:induction false} ReceivesEmptyQueue<R, T>(actions: seq<Action<R, T>>, n: nat, buffer: nat)
    ensures var s, after := Execute(actions, buffer), Execute(actions + Receives(n), buffer);
            && after.accepted == s.accepted
            && |after.queue| == if n < |s.queue| then |s.queue| - n else 0
  {
    if n == 0 {
      assert actions + Receives(0) == actions;
    } else {
      ReceivesEmptyQueue(actions, n - 1, buffer);
      assert Front(actions + Receives(n)) == actions + Receives(n - 1);
    }
  }

  /** Once the collector has received as often as there are batches queued, the next tick has handed over everything. */
  lemma EverythingIsHandedOver<R, T>(actions: seq<Action<R, T>>, n: nat, buffer: nat)
    requires n >= |Execute(actions, buffer).queue|
    ensures var s := Execute(actions, buffer);
            var after := Execute(actions + Receives(n) + [Tick], buffer);
            HandedRuns(after.calls) == RunsOf(s.accepted) && HandedTools(after.calls) == ToolsOf(s.accepted)
  {
    ReceivesEmptyQueue(actions, n, buffer);
    var all := actions + Receives(n) + [Tick];
    assert Front(all) == actions + Receives(n);
    MetricsAreConserved(all, buffer);
  }

  // ---------------------------------------------------------------- what is dropped, and when calls are made

  /** A batch is dropped exactly if the queue is full, and then nothing changes; otherwise it is the last one queued. */
  lemma DroppedOnlyWhenFull<R, T>(actions: seq<Action<R, T>>, batch: Batch<R, T>, buffer: nat)
    ensures var s, after := Execute(actions, buffer), Execute(actions + [Enqueue(batch)], buffer);
            && (|s.queue| == buffer ==> after == s)
            && (|s.queue| < buffer ==>
                  && after.queue == s.queue + [batch] && after.accepted == s.accepted + [batch]
                  && after.runs == s.runs && after.tools == s.tools && after.calls == s.calls)
  {
    assert Front(actions + [Enqueue(batch)]) == actions;
  }

  /** The batches offered to the queue. */
  function Offered<R, T>(actions: seq<Action<R, T>>): seq<Batch<R, T>> {
    if actions == [] then []
    else Offered(Front(actions)) + if Last(actions).Enqueue? then [Last(actions).batch] else []
  }

  lemma {:induction false} QueueFits<R, T>(actions: seq<Action<R, T>>, buffer: nat)
    ensures |Execute(actions, buffer).queue| <= |Execute(actions, buffer).accepted| <= |Offered(actions)|
  {
    if actions != [] { QueueFits(Front(actions), buffer); }
  }

  /** As long as no more batches were offered than the queue has room for, all of them are accepted. */
  lemma {:induction false} NothingDroppedWithRoom<R, T>(actions: seq<Action<R, T>>, buffer: nat)
    requires |Offered(actions)| <= buffer
    ensures Execute(actions, buffer).accepted == Offered(actions)
  {
    if actions != [] {
      NothingDroppedWithRoom(Front(actions), buffer);
      QueueFits(Front(actions), buffer);
    }
  }

  /**
   * Receiving a batch calls the sink exactly if a hundred metrics are then waiting, and a call empties both
   * accumulators, runs before tools; a tick calls it for whatever is waiting.
   */
  lemma CallsAreDue<R, T>(actions: seq<Action<R, T>>, buffer: nat)
    ensures var s := Execute(actions, buffer);
            var due := (if s.runs != [] then [InsertRuns(s.runs)] else [])
                       + (if s.tools != [] then [InsertTools(s.tools)] else []);
            var ticked := Execute(actions + [Tick], buffer);
            ticked.calls == s.calls + due && ticked.runs == [] && ticked.tools == [] && ticked.queue == s.queue
    ensures var s, after := Execute(actions, buffer), Execute(actions + [Receive], buffer);
            s.queue != [] ==>
              var runs, tools := s.runs + s.queue[0].runs, s.tools + s.queue[0].tools;
              && after.queue == s.queue[1..]
              && (|runs| + |tools| < 100 ==> after.calls == s.calls && after.runs == runs && after.tools == tools)
              && (|runs| + |tools| >= 100 ==> s.calls < after.calls && after.runs == [] && after.tools == [])
              && (|runs| + |tools| >= 100 && runs != [] && tools != [] ==>
                    after.calls == s.calls + [InsertRuns(runs), InsertTools(tools)])
  {
    assert Front(actions + [Tick]) == actions;
    assert Front(actions + [Receive]) == actions;
  }

  // ---------------------------------------------------------------- the sink wrapper

  class AsyncSink<R, T> {
    const buffer: nat
    var ch: seq<Batch<R, T>>
    var runMetrics: seq<R>
    var toolMetrics: seq<T>
    /** Calls of the wrapped sink. */
    var handed: seq<Call<R, T>>
    ghost var accepted: seq<Batch<R, T>>

    ghost function Abstract(): State<R, T>
      reads this
    {
      State(ch, runMetrics, toolMetrics, handed, accepted)
    }

    constructor (requested: int)
      ensures buffer == if requested <= 0 then DEFAULT_BUFFER else requested
      ensures Abstract() == Initial()
    {
      buffer := if requested <= 0 then DEFAULT_BUFFER else requested;
      ch, runMetrics, toolMetrics, handed, accepted := [], [], [], [], [];
    }

    method Enqueue(batch: Batch<R, T>)
      modifies this
      ensures Abstract() == EnqueueStep(old(Abstract()), batch, buffer)
    {
      if |ch| < buffer {
        ch := ch + [batch];
        accepted := accepted + [batch];
      }
    }

    method InsertRunMetrics(metrics: seq<R>)
      modifies this
      ensures Abstract() == EnqueueStep(old(Abstract()), Batch(metrics, []), buffer)
    {
      Enqueue(Batch(metrics, []));
    }

    method InsertToolMetrics(metrics: seq<T>)
      modifies this
      ensures Abstract() == EnqueueStep(old(Abstract()), Batch([], metrics), buffer)
    {
      Enqueue(Batch([], metrics));
    }

    method Flush()
      modifies this
      ensures Abstract() == FlushStep(old(Abstract()))
    {
      if |runMetrics| > 0 {
        handed := handed + [InsertRuns(runMetrics)];
        runMetrics := [];
      }
      if |toolMetrics| > 0 {
        handed := handed + [InsertTools(toolMetrics)];
        toolMetrics := [];
      }
    }

    /** The collector's turn when a batch is waiting. */
    method ReceiveBatch()
      requires ch != []
      modifies this
      ensures Abstract() == ReceiveStep(old(Abstract()))
    {
      var batch := ch[0];
      ch := ch[1..];
      runMetrics := runMetrics + batch.runs;
      toolMetrics := toolMetrics + batch.tools;
      if |runMetrics| + |toolMetrics| >= FLUSH_SIZE {
        Flush();
      }
    }
  }
}
