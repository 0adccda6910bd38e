/**
 The blocking single-producer single-consumer queue as its callers see it: what comes out
 are the arguments of the calls that went in, in order; a dequeuing call comes back empty
 handed only if nothing is announced at that instant, and if it waits only after a time-out;
 an enqueuing call is refused only for want of room or memory.
 */
module BlockingSpscCalls {
  import opened Options
  import opened BlockingSpscQueue
  import Q = SpscQueue
  import QT = SpscTheorems
  import QC = SpscCalls
  import Sem = SpscSemaphore
  import SC = SpscSemaphoreCalls

  /** The last call of the producer before state `i`. */
  function LastEnqueue<T>(steps: seq<Step<T>>, i: nat): (r: Option<nat>)
    requires i <= |steps|
    ensures r.Some? ==> r.value < i && steps[r.value].Enqueue?
  {
    if i == 0 then None else if steps[i - 1].Enqueue? then Some(i - 1) else LastEnqueue(steps, i - 1)
  }

  /** The argument of the producer's last call. */
  ghost function Argument<T>(steps: seq<Step<T>>, i: nat): seq<T>
    requires i <= |steps|
  {
    var c := LastEnqueue(steps, i);
    if c.Some? then [steps[c.value].x] else []
  }

  /** The arguments of the calls that returned true before state `i`. */
  ghost function Accepted<T>(run: seq<State<T>>, steps: seq<Step<T>>, i: nat): seq<T>
    requires |run| == |steps| + 1 && i <= |steps|
  {
    if i == 0 then []
    else
      Accepted(run, steps, i - 1) +
      if run[i - 1].pw.PSignalling? && run[i].pw.PFree? then Argument(steps, i - 1) else []
  }

  /** The elements that calls returned before state `i`. */
  ghost function Received<T>(run: seq<State<T>>, steps: seq<Step<T>>, i: nat): seq<T>
    requires |run| == |steps| + 1 && i <= |steps|
  {
    if i == 0 then []
    else Received(run, steps, i - 1) + ReceivedBy(run[i - 1], run[i])
  }

  function ReceivedBy<T>(s: State<T>, s': State<T>): seq<T> {
    if s.cw.CInner? && s'.cw.CFree? && s'.queue.cons.CIdle? && s'.queue.cons.ret.Took?
    then [s'.queue.cons.ret.value] else []
  }

  // ---------------------------------------------------------------------------
  // The inner queue's share in a step
  // ---------------------------------------------------------------------------

  /** The step of the inner queue, if it makes one. */
  function Inner<T>(s: State<T>, step: Step<T>): Option<Q.Step<T>>
    requires Enabled(s, step)
  {
    match step
    case Enqueue(x, canAlloc) => Some(Q.Enqueue(x, canAlloc))
    case RunEnqueue(allocOk) => Some(Q.Producer(allocOk))
    case Consume => Some(Q.Consume(s.cw.op))
    case Peek => Some(Q.Consume(Q.Peek))
    case RunConsume => Some(Q.Consumer)
    case _ => None
  }

  lemma InnerStep<T>(s: State<T>, step: Step<T>)
    requires Enabled(s, step)
    ensures match Inner(s, step)
            case None => Do(s, step).queue == s.queue
            case Some(q) => Q.Enabled(s.queue, q) && Do(s, step).queue == Q.Do(s.queue, q)
  {
    hide Q.Do, Q.Wf, Sem.Do;
  }

  // ---------------------------------------------------------------------------
  // First in, first out
  // ---------------------------------------------------------------------------

  /** The producer's last call, if there was one. */
  ghost function LastCall<T>(steps: seq<Step<T>>, i: nat): Option<Step<T>>
    requires i <= |steps|
  {
    var c := LastEnqueue(steps, i);
    if c.Some? then Some(steps[c.value]) else None
  }

  /** The producer works for its call. */
  ghost predicate Remembers<T>(s: State<T>, call: Option<Step<T>>) {
    s.pw.PFree? ||
    (call.Some? && call.value.Enqueue? &&
     (s.pw.PInner? ==> QC.Remembers(s.queue.prod, call.value.x, call.value.canAlloc)))
  }

  /** An element has been put in and its call has still to return. */
  predicate Entered<T>(s: State<T>) {
    s.pw.PToSignal? || s.pw.PSignalling?
  }

  function Entering<T>(s: State<T>, x: seq<T>): seq<T> {
    if Entered(s) then x else []
  }

  lemma StepRemembers<T>(s: State<T>, step: Step<T>, call: Option<Step<T>>)
    requires Enabled(s, step) && Remembers(s, call)
    ensures Remembers(Do(s, step), if step.Enqueue? then Some(step) else call)
  {
    hide Q.Do, Q.Wf, Sem.Do, QC.Remembers;
    InnerStep(s, step);
    if step.Enqueue? {
      QC.CallRemembers(s.queue, step.x, step.canAlloc);
    } else if s.pw.PInner? && Inner(s, step).Some? {
      QC.StepRemembers(s.queue, Inner(s, step).value, call.value.x, call.value.canAlloc);
    }
  }

  lemma {:induction false} ProducerRemembers<T>(
    run: seq<State<T>>, steps: seq<Step<T>>, size: nat, maxBlock: nat, i: nat)
    requires IsRun(run, steps, size, maxBlock) && i <= |steps|
    ensures Remembers(run[i], LastCall(steps, i))
    decreases i
  {
    if i > 0 {
      hide Do, Enabled, Initial;
      ProducerRemembers(run, steps, size, maxBlock, i - 1);
      StepRemembers(run[i - 1], steps[i - 1], LastCall(steps, i - 1));
    }
  }

  /** How the history follows the producer's calls. */
  lemma ProducerLog<T>(s: State<T>, step: Step<T>, call: Option<Step<T>>)
    requires Inv(s) && Enabled(s, step) && Remembers(s, call)
    ensures var s' := Do(s, step);
      if s.pw.PSignalling? && s'.pw.PFree? then s'.queue.enqueued == s.queue.enqueued
      else if Entered(s') && !Entered(s)
      then s.pw.PInner? && s'.queue.enqueued == s.queue.enqueued + [call.value.x] && !step.Enqueue?
      else
        && s'.queue.enqueued == s.queue.enqueued && Entered(s') == Entered(s)
        && (Entered(s) ==> !step.Enqueue?)
  {
    hide Q.Do, Q.Wf, Sem.Do, Q.Inv, Sem.Inv;
    InnerStep(s, step);
    if Inner(s, step).Some? {
      QC.ResultsFollow(s.queue, Inner(s, step).value);
      QC.ProducerRankFalls(s.queue, Inner(s, step).value);
    }
  }

  lemma ConsumerLog<T>(s: State<T>, step: Step<T>)
    requires Inv(s) && Enabled(s, step)
    ensures Do(s, step).queue.dequeued == s.queue.dequeued + ReceivedBy(s, Do(s, step))
  {
    hide Q.Do, Q.Wf, Sem.Do, Q.Inv, Sem.Inv;
    InnerStep(s, step);
    if Inner(s, step).Some? {
      var q := Inner(s, step).value;
      QC.ResultsFollow(s.queue, q);
      QC.ConsumerRankFalls(s.queue, q);
      if step.RunConsume? { PeekTakesNothing(s.queue); }
    }
  }

  lemma PeekTakesNothing<T>(q: Q.State<T>)
    requires Q.Enabled(q, Q.Consumer)
    ensures q.cons.op.Peek? && !q.cons.CStore? && Q.Do(q, Q.Consumer).cons.CIdle? ==>
      !Q.Do(q, Q.Consumer).cons.ret.Took?
  {
    hide Q.Wf, Q.Queue, Q.Flat;
  }

  lemma {:induction false} CallsAreLogged<T>(
    run: seq<State<T>>, steps: seq<Step<T>>, size: nat, maxBlock: nat, i: nat)
    requires IsRun(run, steps, size, maxBlock) && size >= 1 && i <= |steps|
    ensures run[i].queue.enqueued == Accepted(run, steps, i) + Entering(run[i], Argument(steps, i))
    ensures run[i].queue.dequeued == Received(run, steps, i)
    decreases i
  {
    hide Do, Enabled, Initial, Inv;
    if i == 0 {
      Nothing(run[0], size, maxBlock);
    } else {
      CallsAreLogged(run, steps, size, maxBlock, i - 1);
      ProducerRemembers(run, steps, size, maxBlock, i - 1);
      RunInv(run, steps, size, maxBlock, i - 1);
      ProducerLog(run[i - 1], steps[i - 1], LastCall(steps, i - 1));
      ConsumerLog(run[i - 1], steps[i - 1]);
    }
  }

  lemma Nothing<T>(s: State<T>, size: nat, maxBlock: nat)
    requires Initial(s, size, maxBlock)
    ensures s.queue.enqueued == [] && s.queue.dequeued == [] && s.pw.PFree?
  {
    QC.NothingYet(s.queue, size, maxBlock);
  }

  /**
   First in, first out, for the callers: what has come out is a prefix of what went in, which
   is the arguments of the calls that returned true and of one that has still to return.
   */
  lemma CallerFifo<T>(run: seq<State<T>>, steps: seq<Step<T>>, size: nat, maxBlock: nat, i: nat)
    requires IsRun(run, steps, size, maxBlock) && size >= 1 && i <= |steps|
    ensures Received(run, steps, i) <= Accepted(run, steps, i) + Entering(run[i], Argument(steps, i))
  {
    hide Do, Enabled, Initial;
    CallsAreLogged(run, steps, size, maxBlock, i);
    PermittedCallsSucceed(run, steps, size, maxBlock, i);
  }

  // ---------------------------------------------------------------------------
  // What dequeuing calls answer
  // ---------------------------------------------------------------------------

  lemma AcquireEnds<T>(s: State<T>, step: Step<T>)
    requires Enabled(s, step) && s.cw.CAcquiring? && Do(s, step).cw.CFree?
    ensures step.RunAcquire? && Sem.WaiterStep(s.sema, step.choice).waiter == Sem.WIdle(false)
  {
    hide Sem.WaiterStep, Sem.SignallerStep, Q.Do, Q.Wf;
  }

  /** A refused wait found no permit that nobody had acquired. */
  lemma NoPermit(s: Sem.State, choice: Sem.Choice)
    requires Sem.Inv(s) && !s.waiter.WIdle? && Sem.WaiterStep(s, choice).waiter == Sem.WIdle(false)
    ensures s.signalled <= s.acquired
  {}

  /**
   A dequeuing call comes back empty handed, here with step `j`, only while the queue is empty
   at that very instant, but for an element not yet announced to the semaphore.
   */
  lemma RefusedWhenEmpty<T>(run: seq<State<T>>, steps: seq<Step<T>>, size: nat, maxBlock: nat, j: nat)
    requires IsRun(run, steps, size, maxBlock) && size >= 1 && j < |steps|
    requires run[j].cw.CAcquiring? && run[j + 1].cw.CFree?
    ensures Q.Wf(run[j].queue) && |Q.Queue(run[j].queue)| <= Unsignalled(run[j])
  {
    RunInv(run, steps, size, maxBlock, j);
    AcquireEnds(run[j], steps[j]);
    NoPermit(run[j].sema, steps[j].choice);
    assert run[j].queue.enqueued == run[j].queue.dequeued + Q.Queue(run[j].queue);
    hide Q.Queue, Q.Flat, Q.BlockInv, Q.Shape, Sem.Inv, Initial, Do;
  }

  /** The consumer's call made at step `c` still waits for a permit in state `i`. */
  ghost predicate ConsumerWaits<T>(run: seq<State<T>>, steps: seq<Step<T>>, c: nat, i: nat)
    requires |run| == |steps| + 1
  {
    c < i <= |steps| && steps[c].Acquire? && forall l: nat | c < l <= i :: run[l].cw.CAcquiring?
  }

  lemma SemaStep<T>(s: State<T>, step: Step<T>)
    requires Enabled(s, step) && s.cw.CAcquiring?
    ensures var w := Do(s, step).sema.waiter;
      if step.RunAcquire? then !s.sema.waiter.WIdle? && w == Sem.WaiterStep(s.sema, step.choice).waiter
      else w == s.sema.waiter
  {
    if step.RunSignal? { Sem.SignallerEffect(s.sema); }
    hide Sem.WaiterStep, Sem.SignallerStep, Q.Do, Q.Wf;
  }

  /** A call that does not wait never blocks; one that waits has, past its time-out, been told at step `k`. */
  lemma {:induction false} ConsumerWaiting<T>(
    run: seq<State<T>>, steps: seq<Step<T>>, size: nat, maxBlock: nat, c: nat, i: nat)
    returns (k: nat)
    requires IsRun(run, steps, size, maxBlock) && ConsumerWaits(run, steps, c, i)
    ensures SC.Serves(run[i].sema.waiter, steps[c].wait) && run[i].cw.op == steps[c].op
    ensures SC.TimedOut(run[i].sema.waiter) ==>
      c < k < i && steps[k] == RunAcquire(Sem.Stop) && run[k].sema.waiter.WBlocked?
    decreases i
  {
    hide Initial, Do, Sem.WaiterStep, Q.Wf;
    if i == c + 1 {
      k := 0;
      ConsumerCalls(run[c], steps[c]);
    } else {
      k := ConsumerWaiting(run, steps, size, maxBlock, c, i - 1);
      var s, step := run[i - 1], steps[i - 1];
      SemaStep(s, step);
      OpKept(s, step);
      if step.RunAcquire? {
        SC.OwnStep(s.sema, step.choice, steps[c].wait);
        if !SC.TimedOut(s.sema.waiter) && SC.TimedOut(run[i].sema.waiter) { k := i - 1; }
      }
    }
  }

  lemma ConsumerCalls<T>(s: State<T>, step: Step<T>)
    requires Enabled(s, step) && step.Acquire?
    ensures Do(s, step).sema.waiter == Sem.WTry(step.wait) && Do(s, step).cw == CAcquiring(step.op)
  {}

  lemma OpKept<T>(s: State<T>, step: Step<T>)
    requires Enabled(s, step) && s.cw.CAcquiring?
    ensures var cw := Do(s, step).cw; cw.CFree? || ((cw.CAcquiring? || cw.CPermitted?) && cw.op == s.cw.op)
  {
    hide Sem.WaiterStep, Sem.SignallerStep, Q.Do, Q.Wf;
  }

  /** A call that waits comes back empty handed only after it was told, at step `k`, that its time is over. */
  lemma DequeueTimesOut<T>(run: seq<State<T>>, steps: seq<Step<T>>, size: nat, maxBlock: nat, c: nat, j: nat)
    returns (k: nat)
    requires IsRun(run, steps, size, maxBlock) && j < |steps| && ConsumerWaits(run, steps, c, j) && run[j + 1].cw.CFree?
    ensures steps[c].wait ==> c < k < j && steps[k] == RunAcquire(Sem.Stop) && run[k].sema.waiter.WBlocked?
  {
    hide Initial, Do, Sem.WaiterStep, Q.Wf;
    k := ConsumerWaiting(run, steps, size, maxBlock, c, j);
    AcquireEnds(run[j], steps[j]);
    SemaStep(run[j], steps[j]);
    SC.OwnStep(run[j].sema, steps[j].choice, steps[c].wait);
  }

  // ---------------------------------------------------------------------------
  // What enqueuing calls answer
  // ---------------------------------------------------------------------------

  lemma {:induction false} RunCapacity<T>(run: seq<State<T>>, steps: seq<Step<T>>, size: nat, maxBlock: nat, i: nat)
    returns (base: nat)
    requires IsRun(run, steps, size, maxBlock) && size >= 1 && i <= |steps|
    ensures QT.CapacityInv(run[i].queue, base, size)
    decreases i
  {
    hide QT.CapacityInv, Do, Enabled;
    if i == 0 {
      base := QT.InitialInv(run[0].queue, size, maxBlock);
    } else {
      base := RunCapacity(run, steps, size, maxBlock, i - 1);
      InnerStep(run[i - 1], steps[i - 1]);
      var q := Inner(run[i - 1], steps[i - 1]);
      if q.Some? { QT.StepKeepsCapacity(run[i - 1].queue, q.value, base, size); }
    }
  }

  /** The instant `k` of the call at which it looked for room in the tail block. */
  lemma {:induction false} SeenIsPast<T>(run: seq<State<T>>, steps: seq<Step<T>>, size: nat, maxBlock: nat, i: nat)
    returns (k: nat)
    requires IsRun(run, steps, size, maxBlock) && i <= |steps| && run[i].queue.prod.PCheckNext?
    ensures k < i && Q.Wf(run[k].queue) && |Q.Queue(run[k].queue)| == run[i].queue.prod.seen
    ensures forall l: nat | k <= l <= i :: !run[l].queue.prod.PIdle?
    decreases i
  {
    hide Do, Enabled, Q.Queue, Q.Flat, Q.Do;
    StartsIdle(run[0], size, maxBlock);
    var s, step := run[i - 1], steps[i - 1];
    InnerStep(s, step);
    if run[i].queue.prod == s.queue.prod {
      k := SeenIsPast(run, steps, size, maxBlock, i - 1);
    } else {
      QT.ReachedCheckNext(s.queue, Inner(s, step).value);
      k := i - 1;
    }
  }

  lemma StartsIdle<T>(s: State<T>, size: nat, maxBlock: nat)
    requires Initial(s, size, maxBlock)
    ensures s.queue.prod.PIdle?
  {
    QT.InitialIdle(s.queue, size, maxBlock);
  }

  lemma {:induction false} AllocPast<T>(run: seq<State<T>>, steps: seq<Step<T>>, size: nat, maxBlock: nat, i: nat)
    returns (m: nat)
    requires IsRun(run, steps, size, maxBlock) && i <= |steps| && run[i].queue.prod.PAlloc?
    ensures m < i && run[m].queue.prod.PCheckNext? && forall l: nat | m <= l <= i :: !run[l].queue.prod.PIdle?
    ensures Q.Wf(run[m].queue) && run[m].queue.blocks[run[m].queue.tailBlock].next == run[m].queue.frontBlock
    decreases i
  {
    hide Do, Enabled, Q.Do;
    StartsIdle(run[0], size, maxBlock);
    var s, step := run[i - 1], steps[i - 1];
    InnerStep(s, step);
    if s.queue.prod.PAlloc? {
      m := AllocPast(run, steps, size, maxBlock, i - 1);
    } else {
      QC.ReachedAlloc(s.queue, Inner(s, step).value);
      m := i - 1;
    }
  }

  /**
   An enqueuing call is refused, here with step `j`, only if at an instant `k` of that call at
   least `size` elements were in the queue; and if it may allocate, only because its allocation
   fails.
   */
  lemma EnqueueRefused<T>(run: seq<State<T>>, steps: seq<Step<T>>, size: nat, maxBlock: nat, j: nat) returns (k: nat)
    requires IsRun(run, steps, size, maxBlock) && size >= 1 && j < |steps| && run[j].pw.PInner? && run[j + 1].pw.PFree?
    ensures k <= j && Q.Wf(run[k].queue) && |Q.Queue(run[k].queue)| >= size
    ensures forall l: nat | k <= l <= j :: !run[l].queue.prod.PIdle?
    ensures LastCall(steps, j).Some? && LastCall(steps, j).value.Enqueue?
    ensures LastCall(steps, j).value.canAlloc ==> steps[j] == RunEnqueue(false)
  {
    hide Do, Q.Queue, Q.Flat, Q.Do, Initial, QT.CapacityInv, Q.Wf;
    ProducerRemembers(run, steps, size, maxBlock, j);
    InnerStep(run[j], steps[j]);
    EnqueueEnds(run[j], steps[j]);
    QC.Refusals(run[j].queue, Inner(run[j], steps[j]).value);
    var m := j;
    if run[j].queue.prod.PAlloc? { m := AllocPast(run, steps, size, maxBlock, j); }
    k := SeenIsPast(run, steps, size, maxBlock, m);
    SeenEnough(run, steps, size, maxBlock, m);
  }

  lemma SeenEnough<T>(run: seq<State<T>>, steps: seq<Step<T>>, size: nat, maxBlock: nat, m: nat)
    requires IsRun(run, steps, size, maxBlock) && size >= 1 && m <= |steps| && run[m].queue.prod.PCheckNext?
    requires Q.Wf(run[m].queue) && run[m].queue.blocks[run[m].queue.tailBlock].next == run[m].queue.frontBlock
    ensures run[m].queue.prod.seen >= size
  {
    var base := RunCapacity(run, steps, size, maxBlock, m);
    QT.NextIsFront(run[m].queue);
  }

  lemma EnqueueEnds<T>(s: State<T>, step: Step<T>)
    requires Enabled(s, step) && s.pw.PInner? && Do(s, step).pw.PFree?
    ensures step.RunEnqueue? && Q.Do(s.queue, Q.Producer(step.allocOk)).prod == Q.PIdle(false)
  {
    hide Q.Do, Q.Wf, Sem.Do;
  }

  // ---------------------------------------------------------------------------
  // What peek answers
  // ---------------------------------------------------------------------------

  lemma {:induction false} ConsumerSeenIsPast<T>(
    run: seq<State<T>>, steps: seq<Step<T>>, size: nat, maxBlock: nat, i: nat)
    returns (k: nat)
    requires IsRun(run, steps, size, maxBlock) && i <= |steps| && run[i].queue.cons.CLoadTailBlock?
    ensures k < i && Q.Wf(run[k].queue) && |Q.Queue(run[k].queue)| == run[i].queue.cons.seen
    ensures forall l: nat | k <= l <= i :: !run[l].queue.cons.CIdle?
    decreases i
  {
    hide Do, Enabled, Q.Queue, Q.Flat, Q.Do;
    QT.InitialIdle(run[0].queue, size, maxBlock);
    var s, step := run[i - 1], steps[i - 1];
    InnerStep(s, step);
    if run[i].queue.cons == s.queue.cons {
      k := ConsumerSeenIsPast(run, steps, size, maxBlock, i - 1);
    } else {
      QT.ReachedLoadTailBlock(s.queue, Inner(s, step).value);
      k := i - 1;
    }
  }

  /**
   A `peek` call, here returning with step `j`, returns the element at the front at that
   instant, or says "empty" because at an instant `k` of that call the queue was empty.
   */
  lemma PeekAnswers<T>(run: seq<State<T>>, steps: seq<Step<T>>, size: nat, maxBlock: nat, j: nat) returns (k: nat)
    requires IsRun(run, steps, size, maxBlock) && size >= 1 && j < |steps|
    requires run[j].cw.CPeeking? && run[j + 1].cw.CFree?
    ensures run[j + 1].queue.cons.CIdle? && Q.Wf(run[j].queue)
    ensures run[j + 1].queue.cons.ret.WasEmpty? ==>
      && k < j && Q.Wf(run[k].queue) && Q.Queue(run[k].queue) == []
      && forall l: nat | k <= l <= j :: !run[l].queue.cons.CIdle?
    ensures !run[j + 1].queue.cons.ret.WasEmpty? ==>
      Q.Queue(run[j].queue) != [] && run[j + 1].queue.cons.ret == Q.Saw(Q.Queue(run[j].queue)[0])
  {
    RunInv(run, steps, size, maxBlock, j);
    PeekEnds(run[j], steps[j]);
    k := 0;
    if run[j + 1].queue.cons.ret.WasEmpty? {
      QT.EmptyOnlyThere(run[j].queue, Q.Consumer);
      QT.SawNothing(run[j].queue);
      k := ConsumerSeenIsPast(run, steps, size, maxBlock, j);
    } else {
      QC.ReturnsFront(run[j].queue);
    }
    hide Q.Queue, Q.Flat, Q.BlockInv, Q.Shape, Sem.Inv, Initial, Do;
  }

  lemma PeekEnds<T>(s: State<T>, step: Step<T>)
    requires Enabled(s, step) && s.cw.CPeeking? && Do(s, step).cw.CFree?
    ensures step.RunConsume? && Do(s, step).queue == Q.ConsumerStep(s.queue) && Do(s, step).queue.cons.CIdle?
  {
    hide Q.ConsumerStep, Q.Wf, Sem.Do;
  }
}
