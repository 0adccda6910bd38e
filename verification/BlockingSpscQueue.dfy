/**
 `BlockingReaderWriterQueue`: the single-producer single-consumer queue with a semaphore
 that counts its elements. The producer signals after every successful inner enqueue; the
 consumer takes a permit before every inner `try_dequeue` or `pop` and asserts that the
 inner call succeeds. The step-by-step machines of queue and semaphore run interleaved.
 */
module BlockingSpscQueue {
  import Q = SpscQueue
  import QT = SpscTheorems
  import Sem = SpscSemaphore

  datatype ProducerWork = PFree | PInner | PToSignal | PSignalling

  datatype ConsumerWork =
    | CFree
    | CAcquiring(op: Q.ConsumerOp)    // inside tryWait or wait
    | CPermitted(op: Q.ConsumerOp)    // got a permit, about to call the inner queue
    | CInner                          // inside inner.try_dequeue or inner.pop
    | CPeeking                        // inside inner.peek, which needs no permit

  /** `refused` records a failed success assert. */
  datatype State<T> = State(
    queue: Q.State<T>, sema: Sem.State, pw: ProducerWork, cw: ConsumerWork, refused: bool)

  datatype Step<T> =
    | Enqueue(x: T, canAlloc: bool)              // enqueue or try_enqueue is called
    | RunEnqueue(allocOk: bool)
    | Signal                                     // sema->signal()
    | RunSignal
    | Acquire(op: Q.ConsumerOp, wait: bool)      // sema->tryWait() or sema->wait()
    | RunAcquire(choice: Sem.Choice)
    | Consume                                    // the inner call, with a permit
    | Peek
    | RunConsume

  predicate Enabled<T>(s: State<T>, step: Step<T>) {
    match step
    case Enqueue(x, canAlloc) => s.pw.PFree? && Q.Enabled(s.queue, Q.Enqueue(x, canAlloc))
    case RunEnqueue(allocOk) => s.pw.PInner? && Q.Enabled(s.queue, Q.Producer(allocOk))
    case Signal => s.pw.PToSignal? && Sem.Enabled(s.sema, Sem.Signal(1))
    case RunSignal => s.pw.PSignalling? && Sem.Enabled(s.sema, Sem.RunSignaller)
    case Acquire(op, wait) => s.cw.CFree? && !op.Peek? && Sem.Enabled(s.sema, Sem.Wait(wait))
    case RunAcquire(choice) => s.cw.CAcquiring? && Sem.Enabled(s.sema, Sem.RunWaiter(choice))
    case Consume => s.cw.CPermitted? && Q.Enabled(s.queue, Q.Consume(s.cw.op))
    case Peek => s.cw.CFree? && Q.Enabled(s.queue, Q.Consume(Q.Peek))
    case RunConsume => (s.cw.CInner? || s.cw.CPeeking?) && Q.Enabled(s.queue, Q.Consumer)
  }

  function Do<T>(s: State<T>, step: Step<T>): State<T>
    requires Enabled(s, step)
  {
    match step
    case Enqueue(x, canAlloc) => s.(pw := PInner, queue := Q.Do(s.queue, Q.Enqueue(x, canAlloc)))
    case RunEnqueue(allocOk) =>
      var queue := Q.Do(s.queue, Q.Producer(allocOk));
      s.(queue := queue,
         pw := if !queue.prod.PIdle? then PInner else if queue.prod.ok then PToSignal else PFree)
    case Signal => s.(pw := PSignalling, sema := Sem.Do(s.sema, Sem.Signal(1)))
    case RunSignal =>
      var sema := Sem.Do(s.sema, Sem.RunSignaller);
      s.(sema := sema, pw := if sema.signaller.SIdle? then PFree else PSignalling)
    case Acquire(op, wait) => s.(cw := CAcquiring(op), sema := Sem.Do(s.sema, Sem.Wait(wait)))
    case RunAcquire(choice) =>
      var sema := Sem.Do(s.sema, Sem.RunWaiter(choice));
      s.(sema := sema,
         cw := if !sema.waiter.WIdle? then s.cw else if sema.waiter.ok then CPermitted(s.cw.op) else CFree)
    case Consume => s.(cw := CInner, queue := Q.Do(s.queue, Q.Consume(s.cw.op)))
    case Peek => s.(cw := CPeeking, queue := Q.Do(s.queue, Q.Consume(Q.Peek)))
    case RunConsume =>
      var queue := Q.Do(s.queue, Q.Consumer);
      s.(queue := queue, cw := if queue.cons.CIdle? then CFree else s.cw,
         refused := s.refused || (s.cw.CInner? && queue.cons.CIdle? && !queue.cons.ret.Took?))
  }

  // ---------------------------------------------------------------------------
  // The invariant
  // ---------------------------------------------------------------------------

  /** Elements in the queue whose permit is not in the semaphore yet. */
  function Unsignalled<T>(s: State<T>): nat {
    if s.pw.PToSignal? || s.sema.signaller.SAdd? then 1 else 0
  }

  /** Permits the consumer holds and has not used yet. */
  function Holding<T>(s: State<T>): nat {
    if s.cw.CPermitted? || s.cw.CInner? then 1 else 0
  }

  ghost predicate ThreadsInv<T>(s: State<T>) {
    && (s.pw.PInner? <==> !s.queue.prod.PIdle?)
    && (s.pw.PSignalling? <==> !s.sema.signaller.SIdle?)
    && (s.sema.signaller.SAdd? ==> s.sema.signaller.n == 1)
    && (s.cw.CAcquiring? <==> !s.sema.waiter.WIdle?)
    && (s.cw.CInner? || s.cw.CPeeking? <==> !s.queue.cons.CIdle?)
    && ((s.cw.CPermitted? || s.cw.CAcquiring?) ==> !s.cw.op.Peek?)
    && (s.cw.CInner? ==> !s.queue.cons.op.Peek?)
    && (s.cw.CPeeking? ==> s.queue.cons.op.Peek? && !s.queue.cons.CStore?)
  }

  ghost predicate Inv<T>(s: State<T>) {
    && Q.Inv(s.queue) && Sem.Inv(s.sema) && ThreadsInv(s) && !s.refused
    && |s.queue.enqueued| == s.sema.signalled + Unsignalled(s)
    && s.sema.acquired == |s.queue.dequeued| + Holding(s)
    && (s.cw.CInner? && s.queue.cons.CLoadTailBlock? ==> s.queue.cons.seen >= 1)
  }

  /** While the consumer holds a permit the queue is not empty. */
  lemma PermitMeansElement<T>(s: State<T>)
    requires Inv(s)
    ensures |Q.Queue(s.queue)| >= Holding(s)
  {
    Sem.NoPhantomPermits(s.sema);
    hide Q.Queue, Q.Flat, Q.BlockInv, Q.Shape;
    assert s.queue.enqueued == s.queue.dequeued + Q.Queue(s.queue);
  }

  /** A producer step publishes exactly when the call it ends returns true. */
  lemma ProducerLedger<T>(q: Q.State<T>, allocOk: bool)
    requires Q.Enabled(q, Q.Producer(allocOk))
    ensures var q' := Q.Do(q, Q.Producer(allocOk));
      && |q'.enqueued| == |q.enqueued| + (if q'.prod == Q.PIdle(true) then 1 else 0)
      && q'.dequeued == q.dequeued && q'.cons == q.cons
  {
    hide Q.Wf, Q.Queue, Q.Flat;
  }

  /** A consumer step takes an element exactly when the call it ends says so. */
  lemma ConsumerLedger<T>(q: Q.State<T>)
    requires Q.Enabled(q, Q.Consumer)
    ensures var q' := Q.Do(q, Q.Consumer);
      && q'.enqueued == q.enqueued && q'.prod == q.prod
      && |q'.dequeued| == |q.dequeued| + (if q'.cons.CIdle? && q'.cons.ret.Took? then 1 else 0)
      && (q'.cons.CIdle? && q'.cons.ret.Took? ==> q.cons.CStore?)
  {
    hide Q.Wf, Q.Queue, Q.Flat;
  }

  lemma ConsumerMoves<T>(q: Q.State<T>)
    requires Q.Enabled(q, Q.Consumer)
    ensures var q' := Q.Do(q, Q.Consumer);
      && (q'.cons.CIdle? || q'.cons.op == q.cons.op)
      && (q'.cons.CStore? ==> !q.cons.op.Peek?)
      && (q'.cons.CLoadTailBlock? ==> q'.cons.seen == |Q.Queue(q)|)
  {
    hide Q.Wf, Q.Queue, Q.Flat;
  }

  /** A call other than `peek` that is not looking at an empty queue can only end by taking. */
  lemma TakesOrGoesOn<T>(q: Q.State<T>)
    requires Q.Inv(q) && Q.Enabled(q, Q.Consumer) && !q.cons.op.Peek?
    requires q.cons.CLoadTailBlock? ==> q.cons.seen >= 1
    ensures var q' := Q.Do(q, Q.Consumer); q'.cons.CIdle? ==> q'.cons.ret.Took?
  {
    QT.StepKeepsInv(q, Q.Consumer);
    assert !Q.Do(q, Q.Consumer).faulted;
    if q.cons.CLoadTailBlock? && Q.Do(q, Q.Consumer).cons == Q.CIdle(Q.WasEmpty) {
      QT.SawNothing(q);
    }
    hide Q.Queue, Q.Flat, Q.BlockInv, Q.Shape;
  }

  lemma ProducerStepInv<T>(s: State<T>, step: Step<T>)
    requires Inv(s) && Enabled(s, step) && (step.Enqueue? || step.RunEnqueue?)
    ensures Inv(Do(s, step))
  {
    hide Q.Inv, Q.Wf, Q.Queue, Q.Flat, Sem.Inv;
    match step
    case Enqueue(x, canAlloc) =>
      QT.StepKeepsInv(s.queue, Q.Enqueue(x, canAlloc));
    case RunEnqueue(allocOk) =>
      QT.StepKeepsInv(s.queue, Q.Producer(allocOk));
      ProducerLedger(s.queue, allocOk);
      hide Q.Do;
  }

  /** Starting an inner call only reads. */
  lemma StartLedger<T>(q: Q.State<T>, op: Q.ConsumerOp)
    requires Q.Enabled(q, Q.Consume(op))
    ensures var q' := Q.Do(q, Q.Consume(op));
      && q'.enqueued == q.enqueued && q'.dequeued == q.dequeued && q'.prod == q.prod
      && (q'.cons == Q.CTake(op) || q'.cons == Q.CLoadTail(op))
  {
    hide Q.Wf, Q.Queue, Q.Flat;
  }

  lemma StartInnerInv<T>(s: State<T>, step: Step<T>)
    requires Inv(s) && Enabled(s, step) && (step.Consume? || step.Peek?)
    ensures Inv(Do(s, step))
  {
    hide Q.Inv, Q.Wf, Q.Queue, Q.Flat, Sem.Inv, Q.Do;
    var op := if step.Peek? then Q.Peek else s.cw.op;
    StartLedger(s.queue, op);
    QT.StepKeepsInv(s.queue, Q.Consume(op));
  }

  lemma RunConsumeInv<T>(s: State<T>)
    requires Inv(s) && Enabled(s, RunConsume)
    ensures Inv(Do(s, RunConsume))
  {
    hide Q.Inv, Q.Wf, Q.Queue, Q.Flat, Sem.Inv, Q.Do;
    PermitMeansElement(s);
    QT.StepKeepsInv(s.queue, Q.Consumer);
    ConsumerLedger(s.queue);
    ConsumerMoves(s.queue);
    if s.cw.CInner? { TakesOrGoesOn(s.queue); }
  }

  lemma SemaphoreCallInv<T>(s: State<T>, step: Step<T>)
    requires Inv(s) && Enabled(s, step) && (step.Signal? || step.Acquire?)
    ensures Inv(Do(s, step))
  {
    hide Q.Inv, Sem.Inv;
    if step.Signal? { Sem.StepInv(s.sema, Sem.Signal(1)); } else { Sem.StepInv(s.sema, Sem.Wait(step.wait)); }
  }

  lemma SemaphoreRunInv<T>(s: State<T>, step: Step<T>)
    requires Inv(s) && Enabled(s, step) && (step.RunSignal? || step.RunAcquire?)
    ensures Inv(Do(s, step))
  {
    hide Q.Inv, Sem.Inv, Sem.WaiterStep, Sem.SignallerStep;
    if step.RunSignal? {
      Sem.SignallerEffect(s.sema);
      Sem.StepInv(s.sema, Sem.RunSignaller);
    } else {
      Sem.WaiterEffect(s.sema, step.choice);
      Sem.StepInv(s.sema, Sem.RunWaiter(step.choice));
    }
  }

  lemma StepInv<T>(s: State<T>, step: Step<T>)
    requires Inv(s) && Enabled(s, step)
    ensures Inv(Do(s, step))
  {
    hide Inv;
    match step
    case Enqueue(_, _) => ProducerStepInv(s, step);
    case RunEnqueue(_) => ProducerStepInv(s, step);
    case Consume => StartInnerInv(s, step);
    case Peek => StartInnerInv(s, step);
    case RunConsume => RunConsumeInv(s);
    case RunSignal => SemaphoreRunInv(s, step);
    case RunAcquire(_) => SemaphoreRunInv(s, step);
    case _ => SemaphoreCallInv(s, step);
  }

  // ---------------------------------------------------------------------------
  // Runs
  // ---------------------------------------------------------------------------

  ghost predicate Initial<T>(s: State<T>, size: nat, maxBlock: nat) {
    && QT.Initial(s.queue, size, maxBlock) && Sem.Initial(s.sema, 0)
    && s.pw.PFree? && s.cw.CFree? && !s.refused
  }

  ghost predicate IsRun<T>(run: seq<State<T>>, steps: seq<Step<T>>, size: nat, maxBlock: nat) {
    && |run| == |steps| + 1 && Initial(run[0], size, maxBlock)
    && forall i: nat | i < |steps| :: Enabled(run[i], steps[i]) && run[i + 1] == Do(run[i], steps[i])
  }

  lemma InitialInv<T>(s: State<T>, size: nat, maxBlock: nat)
    requires Initial(s, size, maxBlock) && size >= 1
    ensures Inv(s)
  {
    var base := QT.InitialInv(s.queue, size, maxBlock);
    QT.InitialIdle(s.queue, size, maxBlock);
    hide Q.Queue, Q.Flat, Q.BlockInv, Q.Shape;
  }

  lemma {:induction false} RunInv<T>(run: seq<State<T>>, steps: seq<Step<T>>, size: nat, maxBlock: nat, i: nat)
    requires IsRun(run, steps, size, maxBlock) && size >= 1 && i <= |steps|
    ensures Inv(run[i])
    decreases i
  {
    hide Inv;
    if i == 0 {
      InitialInv(run[0], size, maxBlock);
    } else {
      RunInv(run, steps, size, maxBlock, i - 1);
      StepInv(run[i - 1], steps[i - 1]);
    }
  }

  /**
   In every state of every run no success assert has failed, and while the consumer holds a
   permit, that is until its inner call has taken an element, the queue is not empty.
   */
  lemma PermittedCallsSucceed<T>(run: seq<State<T>>, steps: seq<Step<T>>, size: nat, maxBlock: nat, i: nat)
    requires IsRun(run, steps, size, maxBlock) && size >= 1 && i <= |steps|
    ensures var s := run[i];
      && !s.refused && !s.queue.faulted && !s.sema.faulted
      && s.queue.dequeued <= s.queue.enqueued
      && Q.Wf(s.queue) && (s.cw.CPermitted? || s.cw.CInner? ==> Q.Queue(s.queue) != [])
  {
    RunInv(run, steps, size, maxBlock, i);
    PermitMeansElement(run[i]);
    hide Q.Queue, Q.Flat, Q.BlockInv, Q.Shape;
  }

  /** A permitted call returns the element at the front of the queue at that instant. */
  lemma PermittedCallTakesFront<T>(run: seq<State<T>>, steps: seq<Step<T>>, size: nat, maxBlock: nat, i: nat)
    requires IsRun(run, steps, size, maxBlock) && size >= 1 && i < |steps|
    requires run[i].cw.CInner? && steps[i].RunConsume? && run[i + 1].cw.CFree?
    ensures var q, q' := run[i].queue, run[i + 1].queue;
      && Q.Wf(q) && Q.Wf(q') && q'.cons.CIdle? && q'.cons.ret.Took?
      && Q.Queue(q) == [q'.cons.ret.value] + Q.Queue(q')
  {
    RunInv(run, steps, size, maxBlock, i);
    TakesOrGoesOn(run[i].queue);
    QT.StepRefines(run[i].queue, Q.Consumer);
    TookIsEvent(run[i].queue);
    hide Q.Queue, Q.Flat, Q.BlockInv, Q.Shape, Q.Do;
  }

  lemma TookIsEvent<T>(q: Q.State<T>)
    requires Q.Enabled(q, Q.Consumer)
    ensures var q' := Q.Do(q, Q.Consumer);
      q'.cons.CIdle? && q'.cons.ret.Took? ==> QT.EventOf(q, Q.Consumer) == QT.Got(q'.cons.ret.value)
  {
    hide Q.Wf, Q.Queue, Q.Flat;
  }
}
