/**
 The bounded ring as its callers see it: what comes out are the arguments of the calls that
 went in, in order; a call is refused only when the ring is full or empty at that instant, a
 call that does not wait never blocks, and one that waits is refused only after a time-out.
 */
module CircularBufferCalls {
  import opened Options
  import opened Bits
  import opened CircularBuffer
  import Sem = SpscSemaphore
  import SC = SpscSemaphoreCalls

  /** The last call of the producer before state `i`. */
  function LastEnqueue<T>(steps: seq<Step<T>>, i: nat): (r: Option<nat>)
    requires i <= |steps|
    ensures r.Some? ==> r.value < i && steps[r.value].Enqueue?
  {
    if i == 0 then None else if steps[i - 1].Enqueue? then Some(i - 1) else LastEnqueue(steps, i - 1)
  }

  /** The argument of the producer's last call. */
  ghost function Argument<T>(steps: seq<Step<T>>, i: nat): seq<T>
    requires i <= |steps|
  {
    var c := LastEnqueue(steps, i);
    if c.Some? then [steps[c.value].x] else []
  }

  /** The arguments of the calls that returned true before state `i`. */
  ghost function Accepted<T>(run: seq<State<T>>, steps: seq<Step<T>>, i: nat): seq<T>
    requires |run| == |steps| + 1 && i <= |steps|
  {
    if i == 0 then []
    else
      Accepted(run, steps, i - 1) +
      if run[i - 1].pw.PSignalling? && run[i].pw.PFree? then Argument(steps, i - 1) else []
  }

  /** The elements that calls returned before state `i`. */
  ghost function Received<T>(run: seq<State<T>>, steps: seq<Step<T>>, i: nat): seq<T>
    requires |run| == |steps| + 1 && i <= |steps|
  {
    if i == 0 then []
    else
      Received(run, steps, i - 1) + if run[i].cw.CFree? then Leaving(run[i - 1]) else []
  }

  /** The element that the consumer has taken and not yet returned. */
  function Leaving<T>(s: State<T>): seq<T> {
    if s.cw.CSignalling? && s.cw.x.Some? then [s.cw.x.value] else []
  }

  // ---------------------------------------------------------------------------
  // First in, first out
  // ---------------------------------------------------------------------------

  /** The producer has in hand what its call was given. */
  ghost predicate Remembers<T>(s: State<T>, x: seq<T>) {
    match s.pw
    case PFree => true
    case PAcquiring(y) => x == [y]
    case PPermitted(y) => x == [y]
    case PSignalling => |x| == 1
  }

  lemma StepRemembers<T>(s: State<T>, step: Step<T>, x: seq<T>)
    requires Enabled(s, step) && Remembers(s, x)
    ensures Remembers(Do(s, step), if step.Enqueue? then [step.x] else x)
  {
    hide Sem.Do, And, Wrap;
  }

  lemma {:induction false} ProducerRemembers<T>(
    run: seq<State<T>>, steps: seq<Step<T>>, maxcap: nat, width: nat, i: nat)
    requires IsRun(run, steps, maxcap, width) && i <= |steps|
    ensures Remembers(run[i], Argument(steps, i))
    decreases i
  {
    if i > 0 {
      ProducerRemembers(run, steps, maxcap, width, i - 1);
      StepRemembers(run[i - 1], steps[i - 1], Argument(steps, i - 1));
      hide Do, Enabled, Initial;
    }
  }

  /** What has been put in and not yet been acknowledged to the caller. */
  function Entering<T>(s: State<T>, x: seq<T>): seq<T> {
    if s.pw.PSignalling? then x else []
  }

  /** How the histories follow the calls. */
  lemma ProducerLog<T>(s: State<T>, step: Step<T>, x: seq<T>)
    requires Enabled(s, step) && Remembers(s, x) && !Do(s, step).faulted
    ensures var s' := Do(s, step);
      if s.pw.PSignalling? && s'.pw.PFree? then s'.enqueued == s.enqueued
      else if s'.pw.PSignalling? && !s.pw.PSignalling? then s'.enqueued == s.enqueued + x && !step.Enqueue?
      else
        && s'.enqueued == s.enqueued && s'.pw.PSignalling? == s.pw.PSignalling?
        && (s.pw.PSignalling? ==> !step.Enqueue?)
  {
    hide Sem.Do, And, Wrap;
  }

  lemma ConsumerLog<T>(s: State<T>, step: Step<T>)
    requires Enabled(s, step) && !Do(s, step).faulted
    ensures var s' := Do(s, step);
      if s'.cw.CFree? then s'.dequeued == s.dequeued
      else if s.cw.CSignalling? then s'.dequeued == s.dequeued && Leaving(s') == Leaving(s)
      else s'.dequeued == s.dequeued + Leaving(s')
  {
    hide Sem.Do, And, Wrap;
  }

  lemma {:induction false} PutsAreLogged<T>(
    run: seq<State<T>>, steps: seq<Step<T>>, maxcap: nat, width: nat, i: nat)
    requires IsRun(run, steps, maxcap, width) && i <= |steps|
    ensures run[i].enqueued == Accepted(run, steps, i) + Entering(run[i], Argument(steps, i))
    decreases i
  {
    if i > 0 {
      hide Do, Enabled, Initial;
      PutsAreLogged(run, steps, maxcap, width, i - 1);
      ProducerRemembers(run, steps, maxcap, width, i - 1);
      NoFault(run, steps, maxcap, width, i);
      ProducerLog(run[i - 1], steps[i - 1], Argument(steps, i - 1));
    }
  }

  lemma {:induction false} GotsAreLogged<T>(
    run: seq<State<T>>, steps: seq<Step<T>>, maxcap: nat, width: nat, i: nat)
    requires IsRun(run, steps, maxcap, width) && i <= |steps|
    ensures run[i].dequeued == Received(run, steps, i) + Leaving(run[i])
    decreases i
  {
    if i > 0 {
      hide Do, Enabled, Initial;
      GotsAreLogged(run, steps, maxcap, width, i - 1);
      NoFault(run, steps, maxcap, width, i);
      ConsumerLog(run[i - 1], steps[i - 1]);
    }
  }

  lemma NoFault<T>(run: seq<State<T>>, steps: seq<Step<T>>, maxcap: nat, width: nat, i: nat)
    requires IsRun(run, steps, maxcap, width) && i <= |steps|
    ensures !run[i].faulted
  {
    hide Do, Enabled, Initial;
    BoundedFifo(run, steps, maxcap, width, i);
  }

  /**
   First in, first out, for the callers: what has come out, with the element that is just
   being returned, is a prefix of what went in, which is the arguments of the calls that
   returned true and of one that has still to return; at most `maxcap` elements are inside.
   */
  lemma CallerFifo<T>(run: seq<State<T>>, steps: seq<Step<T>>, maxcap: nat, width: nat, i: nat)
    requires IsRun(run, steps, maxcap, width) && i <= |steps|
    ensures var put := Accepted(run, steps, i) + Entering(run[i], Argument(steps, i));
      var got := Received(run, steps, i) + Leaving(run[i]);
      got <= put && |put| - |got| <= maxcap
  {
    hide Do, Enabled, Initial, Sem.Initial;
    PutsAreLogged(run, steps, maxcap, width, i);
    GotsAreLogged(run, steps, maxcap, width, i);
    BoundedFifo(run, steps, maxcap, width, i);
  }

  // ---------------------------------------------------------------------------
  // Refusals
  // ---------------------------------------------------------------------------

  /** A refused wait on a semaphore found no permit that nobody had acquired. */
  lemma NoPermit(s: Sem.State, choice: Sem.Choice)
    requires Sem.Inv(s) && !s.waiter.WIdle? && Sem.WaiterStep(s, choice).waiter == Sem.WIdle(false)
    ensures s.signalled <= s.acquired
  {}

  /**
   An `enqueue` call is refused, here with step `j`, only while the ring is full at that very
   instant, but for a slot that the consumer has emptied and not yet given back.
   */
  lemma RefusedWhenFull<T>(run: seq<State<T>>, steps: seq<Step<T>>, maxcap: nat, width: nat, j: nat)
    requires IsRun(run, steps, maxcap, width) && j < |steps|
    requires run[j].pw.PAcquiring? && run[j + 1].pw.PFree?
    ensures |run[j].enqueued| - |run[j].dequeued| + (if run[j].slots.signaller.SAdd? then 1 else 0) >= maxcap
  {
    hide Initial, Memory, Sem.Inv, Sem.WaiterStep, And, Wrap;
    var k := RunInv(run, steps, maxcap, width, j);
    ReturnStep(run[j], steps[j]);
    NoPermit(run[j].slots, steps[j].choice);
  }

  lemma ReturnStep<T>(s: State<T>, step: Step<T>)
    requires Enabled(s, step) && s.pw.PAcquiring? && Do(s, step).pw.PFree?
    ensures step.RunSlotWait? && Sem.WaiterStep(s.slots, step.choice).waiter == Sem.WIdle(false)
  {
    hide Sem.WaiterStep, And, Wrap, Sem.SignallerStep;
  }

  /** A `dequeue` call is refused only while the ring is empty, but for an element not yet announced. */
  lemma RefusedWhenEmpty<T>(run: seq<State<T>>, steps: seq<Step<T>>, maxcap: nat, width: nat, j: nat)
    requires IsRun(run, steps, maxcap, width) && j < |steps|
    requires run[j].cw.CAcquiring? && run[j + 1].cw.CFree?
    ensures |run[j].enqueued| - |run[j].dequeued| <= (if run[j].items.signaller.SAdd? then 1 else 0)
  {
    hide Initial, Memory, Sem.Inv, Sem.WaiterStep, And, Wrap;
    var k := RunInv(run, steps, maxcap, width, j);
    ConsumerReturnStep(run[j], steps[j]);
    NoPermit(run[j].items, steps[j].choice);
  }

  lemma ConsumerReturnStep<T>(s: State<T>, step: Step<T>)
    requires Enabled(s, step) && s.cw.CAcquiring? && Do(s, step).cw.CFree?
    ensures step.RunItemWait? && Sem.WaiterStep(s.items, step.choice).waiter == Sem.WIdle(false)
  {
    hide Sem.WaiterStep, And, Wrap, Sem.SignallerStep;
  }

  // ---------------------------------------------------------------------------
  // Waiting
  // ---------------------------------------------------------------------------

  /** The producer's call made at step `c` still waits for a slot in state `i`. */
  ghost predicate ProducerWaits<T>(run: seq<State<T>>, steps: seq<Step<T>>, c: nat, i: nat)
    requires |run| == |steps| + 1
  {
    c < i <= |steps| && steps[c].Enqueue? && forall l: nat | c < l <= i :: run[l].pw.PAcquiring?
  }

  lemma SlotsStep<T>(s: State<T>, step: Step<T>)
    requires Enabled(s, step) && s.pw.PAcquiring?
    ensures var w := Do(s, step).slots.waiter;
      if step.RunSlotWait? then !s.slots.waiter.WIdle? && w == Sem.WaiterStep(s.slots, step.choice).waiter
      else w == s.slots.waiter
  {
    if step.RunSlotSignal? { Sem.SignallerEffect(s.slots); }
    hide Sem.WaiterStep, Sem.SignallerStep, And, Wrap;
  }

  /** A call that does not wait never blocks; one that waits has, past its time-out, been told at step `k`. */
  lemma {:induction false} ProducerWaiting<T>(
    run: seq<State<T>>, steps: seq<Step<T>>, maxcap: nat, width: nat, c: nat, i: nat)
    returns (k: nat)
    requires IsRun(run, steps, maxcap, width) && ProducerWaits(run, steps, c, i)
    ensures SC.Serves(run[i].slots.waiter, steps[c].wait)
    ensures SC.TimedOut(run[i].slots.waiter) ==>
      c < k < i && steps[k] == RunSlotWait(Sem.Stop) && run[k].slots.waiter.WBlocked?
    decreases i
  {
    hide Initial, Do, Sem.WaiterStep;
    if i == c + 1 {
      k := 0;
      ProducerCalls(run[c], steps[c]);
    } else {
      k := ProducerWaiting(run, steps, maxcap, width, c, i - 1);
      var s, step := run[i - 1], steps[i - 1];
      SlotsStep(s, step);
      if step.RunSlotWait? {
        SC.OwnStep(s.slots, step.choice, steps[c].wait);
        if !SC.TimedOut(s.slots.waiter) && SC.TimedOut(run[i].slots.waiter) { k := i - 1; }
      }
    }
  }

  lemma ProducerCalls<T>(s: State<T>, step: Step<T>)
    requires Enabled(s, step) && step.Enqueue?
    ensures Do(s, step).slots.waiter == Sem.WTry(step.wait)
  {}

  /** A call of `wait_enqueue_timed` is refused only after it was told, at step `k`, that its time is over. */
  lemma EnqueueTimesOut<T>(run: seq<State<T>>, steps: seq<Step<T>>, maxcap: nat, width: nat, c: nat, j: nat)
    returns (k: nat)
    requires IsRun(run, steps, maxcap, width) && j < |steps| && ProducerWaits(run, steps, c, j) && run[j + 1].pw.PFree?
    ensures steps[c].wait ==> c < k < j && steps[k] == RunSlotWait(Sem.Stop) && run[k].slots.waiter.WBlocked?
  {
    hide Initial, Do, Sem.WaiterStep;
    k := ProducerWaiting(run, steps, maxcap, width, c, j);
    ReturnStep(run[j], steps[j]);
    SlotsStep(run[j], steps[j]);
    SC.OwnStep(run[j].slots, steps[j].choice, steps[c].wait);
  }

  /** The consumer's call made at step `c` still waits for an element in state `i`. */
  ghost predicate ConsumerWaits<T>(run: seq<State<T>>, steps: seq<Step<T>>, c: nat, i: nat)
    requires |run| == |steps| + 1
  {
    c < i <= |steps| && steps[c].Dequeue? && forall l: nat | c < l <= i :: run[l].cw.CAcquiring?
  }

  lemma ItemsStep<T>(s: State<T>, step: Step<T>)
    requires Enabled(s, step) && s.cw.CAcquiring?
    ensures var w := Do(s, step).items.waiter;
      if step.RunItemWait? then !s.items.waiter.WIdle? && w == Sem.WaiterStep(s.items, step.choice).waiter
      else w == s.items.waiter
  {
    if step.RunItemSignal? { Sem.SignallerEffect(s.items); }
    hide Sem.WaiterStep, Sem.SignallerStep, And, Wrap;
  }

  lemma {:induction false} ConsumerWaiting<T>(
    run: seq<State<T>>, steps: seq<Step<T>>, maxcap: nat, width: nat, c: nat, i: nat)
    returns (k: nat)
    requires IsRun(run, steps, maxcap, width) && ConsumerWaits(run, steps, c, i)
    ensures SC.Serves(run[i].items.waiter, steps[c].wait)
    ensures SC.TimedOut(run[i].items.waiter) ==>
      c < k < i && steps[k] == RunItemWait(Sem.Stop) && run[k].items.waiter.WBlocked?
    decreases i
  {
    hide Initial, Do, Sem.WaiterStep;
    if i == c + 1 {
      k := 0;
      ConsumerCalls(run[c], steps[c]);
    } else {
      k := ConsumerWaiting(run, steps, maxcap, width, c, i - 1);
      var s, step := run[i - 1], steps[i - 1];
      ItemsStep(s, step);
      if step.RunItemWait? {
        SC.OwnStep(s.items, step.choice, steps[c].wait);
        if !SC.TimedOut(s.items.waiter) && SC.TimedOut(run[i].items.waiter) { k := i - 1; }
      }
    }
  }

  lemma ConsumerCalls<T>(s: State<T>, step: Step<T>)
    requires Enabled(s, step) && step.Dequeue?
    ensures Do(s, step).items.waiter == Sem.WTry(step.wait)
  {}

  /** A call of `wait_dequeue_timed` is refused only after it was told, at step `k`, that its time is over. */
  lemma DequeueTimesOut<T>(run: seq<State<T>>, steps: seq<Step<T>>, maxcap: nat, width: nat, c: nat, j: nat)
    returns (k: nat)
    requires IsRun(run, steps, maxcap, width) && j < |steps| && ConsumerWaits(run, steps, c, j) && run[j + 1].cw.CFree?
    ensures steps[c].wait ==> c < k < j && steps[k] == RunItemWait(Sem.Stop) && run[k].items.waiter.WBlocked?
  {
    hide Initial, Do, Sem.WaiterStep;
    k := ConsumerWaiting(run, steps, maxcap, width, c, j);
    ConsumerReturnStep(run[j], steps[j]);
    ItemsStep(run[j], steps[j]);
    SC.OwnStep(run[j].items, steps[j].choice, steps[c].wait);
  }
}
