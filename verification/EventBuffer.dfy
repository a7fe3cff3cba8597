/**
 * The circular replay buffer of a run: a fixed array standing in for the unbounded log of everything ever appended.
 */
module EventBuffer {
  import opened Prelude

  const DEFAULT_SIZE: nat := 1000

  /**
   * A run event, seen through the fields of its JSON payload that the code decodes.  The empty string stands for a
   * field that is absent, empty or unreadable: the code treats the three alike.
   */
  datatype RunEvent =
    | TextDelta(content: string)
    | AudioDelta(chunk: string)
    | InputRequest(requestId: string)
    | ToolResult(id: string)
    | ToolProgress(id: string, state: string)
    | ErrorEvent(code: string, message: string)
    | RunComplete
    | OtherEvent(kind: string)

  datatype BufferedEvent = BufferedEvent(id: nat, event: RunEvent)

  /** The i-th appended event carries ID i + 1. */
  ghost predicate Numbered(log: seq<BufferedEvent>) {
    forall i :: 0 <= i < |log| ==> log[i].id == i + 1
  }

  function Min(a: nat, b: nat): nat {
    if a <= b then a else b
  }

  /** The part of the log a buffer of this capacity still holds. */
  function Window(log: seq<BufferedEvent>, capacity: nat): seq<BufferedEvent> {
    log[|log| - Min(|log|, capacity)..]
  }

  /** ID of the oldest event still held; 0 when there is none. */
  function OldestOf(log: seq<BufferedEvent>, capacity: nat): nat {
    if Window(log, capacity) == [] then 0 else Window(log, capacity)[0].id
  }

  /** The answer to "everything after this ID": None reports that events were lost to overflow. */
  function Since(log: seq<BufferedEvent>, capacity: nat, afterSeq: nat): Option<seq<BufferedEvent>> {
    if afterSeq == 0 then Some(Window(log, capacity))
    else if log != [] && afterSeq < OldestOf(log, capacity) then None
    else Some(log[Min(afterSeq, |log|)..])
  }

  lemma WindowSlides(log: seq<BufferedEvent>, e: BufferedEvent, capacity: nat)
    requires capacity > 0
    ensures |log| < capacity ==> Window(log + [e], capacity) == Window(log, capacity) + [e]
    ensures |log| >= capacity ==> Window(log + [e], capacity) == Window(log, capacity)[1..] + [e]
  {
  }

  /** Cutting the log at k leaves exactly the events with a greater ID. */
  lemma SuffixById(log: seq<BufferedEvent>, k: nat)
    requires Numbered(log) && k <= |log|
    ensures forall e :: e in log[k..] <==> e in log && e.id > k
  {
    forall e | e in log[k..] ensures e in log && e.id > k {
      var i :| 0 <= i < |log[k..]| && log[k..][i] == e;
      assert e == log[k + i];
    }
    forall e | e in log && e.id > k ensures e in log[k..] {
      var i :| 0 <= i < |log| && log[i] == e;
      assert log[k..][i - k] == e;
    }
  }

  /**
   * Overflow is reported exactly for positive positions older than the oldest event held.  Otherwise a positive
   * position gets every event of the log after it, and position zero gets what is still held.
   */
  lemma SinceIsComplete(log: seq<BufferedEvent>, capacity: nat, afterSeq: nat)
    requires Numbered(log) && capacity > 0
    ensures Since(log, capacity, afterSeq).None? <==> log != [] && 0 < afterSeq <= |log| - Min(|log|, capacity)
    ensures Since(log, capacity, afterSeq).Some? ==>
              var from := if afterSeq == 0 then |log| - Min(|log|, capacity) else afterSeq;
              forall e :: e in Since(log, capacity, afterSeq).value <==> e in log && e.id > from
  {
    var held := |log| - Min(|log|, capacity);
    SuffixById(log, held);
    SuffixById(log, Min(afterSeq, |log|));
  }

  /** Position in a circular array of the i-th element from `start`. */
  function Slot(start: nat, i: nat, capacity: nat): (slot: nat)
    requires start < capacity && i <= capacity
    ensures slot == if start + i < capacity then start + i else start + i - capacity
  {
    assert start + i >= capacity ==> start + i == capacity + (start + i - capacity);
    (start + i) % capacity
  }

  /** The `count` elements of a circular array, oldest first. */
  function Ring<T>(cells: seq<T>, start: nat, count: nat): (r: seq<T>)
    requires start < |cells| && count <= |cells|
    ensures |r| == count
  {
    seq(count, i requires 0 <= i < count => cells[Slot(start, i, |cells|)])
  }

  /** Writing behind the newest element appends it, and evicts the oldest element of a full ring. */
  lemma RingPush<T>(cells: seq<T>, start: nat, count: nat, x: T)
    requires start < |cells| && count <= |cells|
    ensures var pushed := cells[Slot(start, count, |cells|) := x];
            && (count < |cells| ==> Ring(pushed, start, count + 1) == Ring(cells, start, count) + [x])
            && (count == |cells| ==>
                  Ring(pushed, Slot(start, 1, |cells|), count) == Ring(cells, start, count)[1..] + [x])
  {
    var pushed := cells[Slot(start, count, |cells|) := x];
    var before := Ring(cells, start, count);
    if count < |cells| {
      assert Ring(pushed, start, count + 1) == before + [x];
    } else {
      var next := Slot(start, 1, |cells|);
      forall i | 0 <= i < count ensures Ring(pushed, next, count)[i] == (before[1..] + [x])[i] {
        assert i + 1 < count ==> Slot(next, i, |cells|) == Slot(start, i + 1, |cells|);
      }
    }
  }

  class EventBuffer {
    const buf: array<BufferedEvent>
    const capacity: nat
    var nextSeq: nat
    var start: nat
    var count: nat
    var done: bool
    /** Everything ever appended, evicted or not. */
    ghost var log: seq<BufferedEvent>

    ghost predicate Valid()
      reads this, buf
    {
      && capacity > 0
      && buf.Length == capacity
      && start < capacity
      && count == Min(|log|, capacity)
      && nextSeq == |log| + 1
      && Numbered(log)
      && Ring(buf[..], start, count) == Window(log, capacity)
    }

    constructor (requested: int)
      ensures Valid() && fresh(buf)
      ensures capacity == (if requested <= 0 then DEFAULT_SIZE else requested)
      ensures log == [] && !done
    {
      var size := if requested <= 0 then DEFAULT_SIZE else requested;
      capacity := size;
      buf := new BufferedEvent[size](_ => BufferedEvent(0, RunComplete));
      nextSeq := 1;
      start, count, done := 0, 0, false;
      log := [];
    }

    method Append(event: RunEvent) returns (seqNo: nat)
      requires Valid()
      modifies this, buf
      ensures Valid() && done == old(done)
      ensures seqNo == |log| && log == old(log) + [BufferedEvent(seqNo, event)]
    {
      seqNo := nextSeq;
      nextSeq := nextSeq + 1;
      ghost var cells, was, entry := buf[..], log, BufferedEvent(seqNo, event);
      RingPush(cells, start, count, entry);
      WindowSlides(was, entry, capacity);
      var index := Slot(start, count, capacity);
      buf[index] := BufferedEvent(seqNo, event);
      log := log + [BufferedEvent(seqNo, event)];
      assert buf[..] == cells[index := entry];
      if count < capacity {
        count := count + 1;
      } else {
        start := Slot(start, 1, capacity);
      }
    }

    method MarkDone()
      requires Valid()
      modifies this`done
      ensures Valid() && done
    {
      done := true;
    }

    /** The i-th event held, oldest first. */
    method Held(i: nat) returns (event: BufferedEvent)
      requires Valid() && i < count
      ensures count <= |log| && event == log[|log| - count + i]
    {
      event := buf[Slot(start, i, capacity)];
      assert event == Ring(buf[..], start, count)[i];
    }

    /** Everything held. */
    method HeldEvents() returns (events: seq<BufferedEvent>)
      requires Valid()
      ensures events == Window(log, capacity)
    {
      events := [];
      for i := 0 to count
        invariant events == Window(log, capacity)[..i]
      {
        var event := Held(i);
        events := events + [event];
      }
    }

    /** What is held after a position that is not before the oldest event. */
    method HeldAfter(afterSeq: nat) returns (events: seq<BufferedEvent>)
      requires Valid() && count <= |log| && |log| - count <= afterSeq
      ensures events == log[Min(afterSeq, |log|)..]
    {
      events := [];
      ghost var base, from := |log| - count, Min(afterSeq, |log|);
      for i := 0 to count
        invariant events == if base + i <= from then [] else log[from..base + i]
      {
        var event := Held(i);
        if event.id > afterSeq {
          events := events + [event];
        }
      }
      assert log[from..|log|] == log[from..];
    }

    method EventsSince(afterSeq: nat) returns (events: seq<BufferedEvent>, ok: bool)
      requires Valid()
      ensures ok == Since(log, capacity, afterSeq).Some?
      ensures events == if ok then Since(log, capacity, afterSeq).value else []
    {
      if count == 0 {
        return [], true;
      }
      var oldest := Held(0);
      if afterSeq == 0 {
        events := HeldEvents();
        return events, true;
      }
      if afterSeq < oldest.id {
        return [], false;
      }
      events := HeldAfter(afterSeq);
      ok := true;
    }

    method OldestSeq() returns (oldest: nat)
      requires Valid()
      ensures oldest == OldestOf(log, capacity)
      ensures oldest == if log == [] then 0 else |log| - Min(|log|, capacity) + 1
    {
      if count == 0 { return 0; }
      assert Ring(buf[..], start, count)[0] == buf[start];
      oldest := buf[start].id;
    }

    method NewestSeq() returns (newest: nat)
      requires Valid()
      ensures newest == |log|
    {
      if count == 0 { return 0; }
      newest := nextSeq - 1;
    }
  }
}
