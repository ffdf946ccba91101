/**
 * The render batching of x-element-basic.js as a state machine: the
 * `_needsRender` flag, the microtask queue that `async` feeds, and the
 * number of renders performed so far.
 *
 * The microtask queue is an explicit FIFO of pending callbacks; running the
 * head of the queue is `RunDeferred`, and `Drain` runs it until it is empty
 * (the end of the current task).
 */
module Scheduler {
  import opened JsValue

  /** A callback waiting in the microtask queue. */
  datatype Job =
    | Flush                   // the callback `invalidate` defers: clear the flag, then render
    | Invoke(callback: Value) // a function handed to `async` by other code

  datatype Sched = Sched(needsRender: bool, queue: seq<Job>, renders: nat)

  /** The number of render callbacks waiting in `q`. */
  function FlushCount(q: seq<Job>): nat
  {
    if q == [] then 0 else (if q[0].Flush? then 1 else 0) + FlushCount(q[1..])
  }

  lemma {:induction false} FlushCountAppend(q: seq<Job>, j: Job)
    ensures FlushCount(q + [j]) == FlushCount(q) + (if j.Flush? then 1 else 0)
  {
    if q != [] {
      assert (q + [j])[1..] == q[1..] + [j];
      FlushCountAppend(q[1..], j);
    }
  }

  /** The flag is set exactly when one render callback is pending, and then only one is. */
  predicate Coherent(s: Sched)
  {
    FlushCount(s.queue) == if s.needsRender then 1 else 0
  }

  /** The state of a freshly constructed element: clean, nothing queued, one render done. */
  function Initial(): (s: Sched)
    ensures Coherent(s) && !s.needsRender && s.queue == [] && s.renders == 1
  {
    Sched(false, [], 1)
  }

  /** `invalidate()`: from the clean state, set the flag and defer one render; while a render is pending, do nothing. */
  function Invalidate(s: Sched): (r: Sched)
    ensures r.needsRender && r.renders == s.renders
    ensures s.needsRender ==> r == s
    ensures !s.needsRender ==> r.queue == s.queue + [Flush]
  {
    if s.needsRender then s else Sched(true, s.queue + [Flush], s.renders)
  }

  /** `async(callback)`: defer the callback when it is a function, ignore it otherwise. */
  function Async(s: Sched, callback: Value): (r: Sched)
    ensures r.needsRender == s.needsRender && r.renders == s.renders
    ensures callback.Fn? ==> r.queue == s.queue + [Invoke(callback)]
    ensures !callback.Fn? ==> r == s
  {
    if callback.Fn? then Sched(s.needsRender, s.queue + [Invoke(callback)], s.renders) else s
  }

  /**
   * One microtask: take the oldest callback; the render callback clears the
   * flag and then renders once, any other callback leaves this state alone.
   */
  function RunDeferred(s: Sched): (r: Sched)
    ensures s.queue == [] ==> r == s
    ensures s.queue != [] ==> r.queue == s.queue[1..]
    ensures s.queue != [] && s.queue[0].Flush? ==> !r.needsRender && r.renders == s.renders + 1
    ensures s.queue != [] && s.queue[0].Invoke? ==> r.needsRender == s.needsRender && r.renders == s.renders
  {
    if s.queue == [] then s
    else match s.queue[0]
      case Flush => Sched(false, s.queue[1..], s.renders + 1)
      case Invoke(_) => Sched(s.needsRender, s.queue[1..], s.renders)
  }

  /** `n` synchronous calls of `invalidate()`. */
  function Invalidations(s: Sched, n: nat): Sched
  {
    if n == 0 then s else Invalidate(Invalidations(s, n - 1))
  }

  /** Run microtasks until none is left. */
  function Drain(s: Sched): Sched
    decreases |s.queue|
  {
    if s.queue == [] then s else Drain(RunDeferred(s))
  }

  /** Every transition keeps the flag and the pending render callbacks in step. */
  lemma CoherentPreserved(s: Sched, callback: Value)
    requires Coherent(s)
    ensures Coherent(Invalidate(s))
    ensures Coherent(Async(s, callback))
    ensures Coherent(RunDeferred(s))
  {
    FlushCountAppend(s.queue, Flush);
    FlushCountAppend(s.queue, Invoke(callback));
  }

  /** However many times `invalidate()` runs in a row, the effect is that of one call. */
  lemma {:induction false} InvalidationsCoalesce(s: Sched, n: nat)
    requires n >= 1
    ensures Invalidations(s, n) == Invalidate(s)
  {
    if n > 1 {
      InvalidationsCoalesce(s, n - 1);
    }
  }

  /** Draining the queue renders once per pending render callback and leaves nothing pending. */
  lemma {:induction false} DrainRendersPerFlush(s: Sched)
    ensures Drain(s).queue == []
    ensures Drain(s).renders == s.renders + FlushCount(s.queue)
    ensures FlushCount(s.queue) > 0 ==> !Drain(s).needsRender
    ensures FlushCount(s.queue) == 0 ==> Drain(s).needsRender == s.needsRender
    decreases |s.queue|
  {
    if s.queue != [] {
      DrainRendersPerFlush(RunDeferred(s));
    }
  }

  /**
   * Batching: any burst of synchronous invalidations renders exactly once
   * when the queue drains, and leaves the state clean, so that the next
   * `invalidate()` schedules again.
   */
  lemma BurstRendersOnce(s: Sched, n: nat)
    requires Coherent(s) && n >= 1
    ensures Drain(Invalidations(s, n)).renders == s.renders + 1
    ensures !Drain(Invalidations(s, n)).needsRender && Drain(Invalidations(s, n)).queue == []
    ensures Invalidate(Drain(Invalidations(s, n))).queue == [Flush]
  {
    InvalidationsCoalesce(s, n);
    CoherentPreserved(s, Undefined);
    DrainRendersPerFlush(Invalidate(s));
  }
}
