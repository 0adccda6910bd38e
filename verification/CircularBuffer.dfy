/**
 `BlockingReaderWriterCircularBuffer`: a bounded ring shared by one producer and one
 consumer, guarded by two semaphores. The producer waits on `slots_` and signals `items`,
 the consumer waits on `items` and signals `slots_`. Indices count up for ever in a machine
 word and are masked on use.
 */
module CircularBuffer {
  import opened Options
  import opened Bits
  import Sem = SpscSemaphore

  datatype ProducerWork<T> = PFree | PAcquiring(x: T) | PPermitted(x: T) | PSignalling

  /** `CSignalling` still has to signal the free slot of the element it is going to return. */
  datatype ConsumerWork<T> = CFree | CAcquiring | CPermitted | CSignalling(x: Option<T>)

  /**
   `width` is the number of bits of `size_t`. `faulted` records an access outside the
   memory, a construction over a live object or a read of a dead one. `enqueued` and
   `dequeued` are auxiliary histories.
   */
  datatype State<T> = State(
    maxcap: nat, mask: nat, width: nat, data: seq<Option<T>>,
    slots: Sem.State, items: Sem.State, nextSlot: nat, nextItem: nat,
    pw: ProducerWork<T>, cw: ConsumerWork<T>, faulted: bool,
    enqueued: seq<T>, dequeued: seq<T>)

  /** `nextSlot++`, construct at the masked index, call `items->signal()`. */
  function InnerEnqueue<T>(s: State<T>): State<T>
    requires s.pw.PPermitted? && s.items.signaller.SIdle?
  {
    var i := And(s.nextSlot, s.mask);
    var s' := s.(nextSlot := Wrap(s.nextSlot + 1, s.width), pw := PSignalling,
                 items := Sem.Do(s.items, Sem.Signal(1)));
    if i >= |s.data| || s.data[i].Some? then s'.(faulted := true)
    else s'.(data := s.data[i := Some(s.pw.x)], enqueued := s.enqueued + [s.pw.x])
  }

  /** `nextItem++`, move out of the masked index and destroy, call `slots_->signal()`. */
  function InnerDequeue<T>(s: State<T>): State<T>
    requires s.cw.CPermitted? && s.slots.signaller.SIdle?
  {
    var i := And(s.nextItem, s.mask);
    var s' := s.(nextItem := Wrap(s.nextItem + 1, s.width), slots := Sem.Do(s.slots, Sem.Signal(1)));
    if i >= |s.data| || s.data[i].None? then s'.(faulted := true, cw := CSignalling(None))
    else
      s'.(data := s.data[i := None], dequeued := s.dequeued + [s.data[i].value], cw := CSignalling(s.data[i]))
  }

  datatype Step<T> =
    | Enqueue(x: T, wait: bool)         // slots_->tryWait() or slots_->wait()
    | RunSlotWait(choice: Sem.Choice)
    | Put                               // inner_enqueue
    | RunItemSignal
    | Dequeue(wait: bool)               // items->tryWait() or items->wait()
    | RunItemWait(choice: Sem.Choice)
    | Take                              // inner_dequeue
    | RunSlotSignal

  predicate Enabled<T>(s: State<T>, step: Step<T>) {
    match step
    case Enqueue(_, wait) => s.pw.PFree? && Sem.Enabled(s.slots, Sem.Wait(wait))
    case RunSlotWait(choice) => s.pw.PAcquiring? && Sem.Enabled(s.slots, Sem.RunWaiter(choice))
    case Put => s.pw.PPermitted? && s.items.signaller.SIdle?
    case RunItemSignal => s.pw.PSignalling? && Sem.Enabled(s.items, Sem.RunSignaller)
    case Dequeue(wait) => s.cw.CFree? && Sem.Enabled(s.items, Sem.Wait(wait))
    case RunItemWait(choice) => s.cw.CAcquiring? && Sem.Enabled(s.items, Sem.RunWaiter(choice))
    case Take => s.cw.CPermitted? && s.slots.signaller.SIdle?
    case RunSlotSignal => s.cw.CSignalling? && Sem.Enabled(s.slots, Sem.RunSignaller)
  }

  function Do<T>(s: State<T>, step: Step<T>): State<T>
    requires Enabled(s, step)
  {
    match step
    case Enqueue(x, wait) => s.(pw := PAcquiring(x), slots := Sem.Do(s.slots, Sem.Wait(wait)))
    case RunSlotWait(choice) =>
      var slots := Sem.Do(s.slots, Sem.RunWaiter(choice));
      s.(slots := slots,
         pw := if !slots.waiter.WIdle? then s.pw else if slots.waiter.ok then PPermitted(s.pw.x) else PFree)
    case Put => InnerEnqueue(s)
    case RunItemSignal =>
      var items := Sem.Do(s.items, Sem.RunSignaller);
      s.(items := items, pw := if items.signaller.SIdle? then PFree else PSignalling)
    case Dequeue(wait) => s.(cw := CAcquiring, items := Sem.Do(s.items, Sem.Wait(wait)))
    case RunItemWait(choice) =>
      var items := Sem.Do(s.items, Sem.RunWaiter(choice));
      s.(items := items,
         cw := if !items.waiter.WIdle? then CAcquiring else if items.waiter.ok then CPermitted else CFree)
    case Take => InnerDequeue(s)
    case RunSlotSignal =>
      var slots := Sem.Do(s.slots, Sem.RunSignaller);
      s.(slots := slots, cw := if slots.signaller.SIdle? then CFree else s.cw)
  }

  // ---------------------------------------------------------------------------
  // Masked indices
  // ---------------------------------------------------------------------------

  /** Where the `n`-th element of the stream goes in a ring of `Pow2(k)` slots. */
  function Place(n: nat, k: nat): (r: nat)
    ensures r < Pow2(k)
  {
    n % Pow2(k)
  }

  /** Two elements less than a ring apart have different places. */
  lemma PlacesDiffer(m: nat, n: nat, k: nat)
    requires m < n < m + Pow2(k)
    ensures Place(m, k) != Place(n, k)
  {
    var d := Pow2(k);
    if m % d == n % d {
      assert n - m == d * (n / d - m / d) by {
        assert n == d * (n / d) + n % d && m == d * (m / d) + m % d;
        assert d * (n / d - m / d) == d * (n / d) - d * (m / d);
      }
      SmallMultiple(d, n / d - m / d);
    }
  }

  lemma PlaceAgain(n: nat, k: nat)
    ensures Place(n + Pow2(k), k) == Place(n, k)
  {
    var d := Pow2(k);
    assert n + d == d * (n / d + 1) + n % d by { assert d * (n / d + 1) == d * (n / d) + d; }
    RemainderUnique(n + d, d, n / d + 1, n % d);
  }

  // ---------------------------------------------------------------------------
  // The invariant
  // ---------------------------------------------------------------------------

  /** Exactly the elements enqueued and not dequeued are in the ring, each in its place. */
  ghost predicate Ring<T>(data: seq<Option<T>>, enqueued: seq<T>, taken: nat, k: nat) {
    && |data| == Pow2(k) && taken <= |enqueued| <= taken + Pow2(k)
    && forall n: nat | taken <= n < taken + Pow2(k) ::
         data[Place(n, k)] == if n < |enqueued| then Some(enqueued[n]) else None
  }

  lemma RingPut<T>(data: seq<Option<T>>, enqueued: seq<T>, taken: nat, k: nat, x: T)
    requires Ring(data, enqueued, taken, k) && |enqueued| < taken + Pow2(k)
    ensures data[Place(|enqueued|, k)] == None
    ensures Ring(data[Place(|enqueued|, k) := Some(x)], enqueued + [x], taken, k)
  {
    var e := |enqueued|;
    var data' := data[Place(e, k) := Some(x)];
    forall n: nat | taken <= n < taken + Pow2(k)
      ensures data'[Place(n, k)] == if n < e + 1 then Some((enqueued + [x])[n]) else None
    {
      if n < e { PlacesDiffer(n, e, k); } else if n > e { PlacesDiffer(e, n, k); }
    }
  }

  lemma RingTake<T>(data: seq<Option<T>>, enqueued: seq<T>, taken: nat, k: nat)
    requires Ring(data, enqueued, taken, k) && taken < |enqueued|
    ensures data[Place(taken, k)] == Some(enqueued[taken])
    ensures Ring(data[Place(taken, k) := None], enqueued, taken + 1, k)
  {
    var data' := data[Place(taken, k) := None];
    forall n: nat | taken + 1 <= n < taken + 1 + Pow2(k)
      ensures data'[Place(n, k)] == if n < |enqueued| then Some(enqueued[n]) else None
    {
      if n == taken + Pow2(k) { PlaceAgain(taken, k); } else { PlacesDiffer(taken, n, k); }
    }
  }

  /** A producer or consumer has taken a permit and not passed it on yet. */
  function ProducerInFlight<T>(s: State<T>): nat {
    if s.pw.PPermitted? || s.items.signaller.SAdd? then 1 else 0
  }

  function ConsumerInFlight<T>(s: State<T>): nat {
    if s.cw.CPermitted? || s.slots.signaller.SAdd? then 1 else 0
  }

  /** Permits in a semaphore that nobody has acquired. */
  function Available(sema: Sem.State): int {
    sema.signalled - sema.acquired
  }

  ghost predicate ThreadsInv<T>(s: State<T>) {
    && (s.pw.PAcquiring? <==> !s.slots.waiter.WIdle?)
    && (s.pw.PSignalling? <==> !s.items.signaller.SIdle?)
    && (s.items.signaller.SAdd? ==> s.items.signaller.n == 1)
    && (s.cw.CAcquiring? <==> !s.items.waiter.WIdle?)
    && (s.cw.CSignalling? <==> !s.slots.signaller.SIdle?)
    && (s.slots.signaller.SAdd? ==> s.slots.signaller.n == 1)
  }

  ghost predicate Ledger<T>(s: State<T>) {
    && s.slots.acquired == |s.enqueued| + (if s.pw.PPermitted? then 1 else 0)
    && s.slots.signalled == s.maxcap + |s.dequeued| - (if s.slots.signaller.SAdd? then 1 else 0)
    && s.items.acquired == |s.dequeued| + (if s.cw.CPermitted? then 1 else 0)
    && s.items.signalled == |s.enqueued| - (if s.items.signaller.SAdd? then 1 else 0)
  }

  /** The memory of a buffer with at least one slot; `k` is the exponent of the rounded capacity. */
  ghost predicate Memory<T>(s: State<T>, k: nat) {
    && k <= s.width && s.mask == Pow2(k) - 1 && s.maxcap <= Pow2(k)
    && s.dequeued <= s.enqueued && Ring(s.data, s.enqueued, |s.dequeued|, k)
    && s.nextSlot == Wrap(|s.enqueued|, s.width) && s.nextItem == Wrap(|s.dequeued|, s.width)
  }

  ghost predicate Inv<T>(s: State<T>, k: nat) {
    && Sem.Inv(s.slots) && Sem.Inv(s.items) && ThreadsInv(s) && Ledger(s) && !s.faulted
    && (s.maxcap > 0 ==> Memory(s, k))
    && (s.maxcap == 0 ==> s.enqueued == [] && s.dequeued == [] && s.nextSlot == 0 && s.nextItem == 0)
  }

  lemma Balance<T>(s: State<T>, k: nat)
    requires Inv(s, k)
    ensures Available(s.slots) >= 0 && Available(s.items) >= 0
    ensures Available(s.slots) + Available(s.items) + ProducerInFlight(s) + ConsumerInFlight(s) == s.maxcap
    ensures s.pw.PPermitted? ==> |s.enqueued| - |s.dequeued| < s.maxcap
    ensures s.cw.CPermitted? ==> |s.enqueued| - |s.dequeued| >= 1
  {
    Sem.NoPhantomPermits(s.slots);
    Sem.NoPhantomPermits(s.items);
  }

  lemma PutInv<T>(s: State<T>, k: nat)
    requires Inv(s, k) && Enabled(s, Put)
    ensures Inv(Do(s, Put), k)
  {
    hide Ring, Wrap, And, Sem.Inv;
    Balance(s, k);
    Sem.StepInv(s.items, Sem.Signal(1));
    MaskedWrap(|s.enqueued|, k, s.width);
    RingPut(s.data, s.enqueued, |s.dequeued|, k, s.pw.x);
    WrapSum(|s.enqueued|, 1, s.width);
    RingSize(s.data, s.enqueued, |s.dequeued|, k);
    var s' := Do(s, Put);
    assert s'.data == s.data[Place(|s.enqueued|, k) := Some(s.pw.x)] && s'.enqueued == s.enqueued + [s.pw.x];
  }

  lemma RingSize<T>(data: seq<Option<T>>, enqueued: seq<T>, taken: nat, k: nat)
    requires Ring(data, enqueued, taken, k)
    ensures |data| == Pow2(k)
  {}

  lemma TakeInv<T>(s: State<T>, k: nat)
    requires Inv(s, k) && Enabled(s, Take)
    ensures Inv(Do(s, Take), k)
  {
    hide Ring, Wrap, And, Sem.Inv;
    Balance(s, k);
    Sem.StepInv(s.slots, Sem.Signal(1));
    MaskedWrap(|s.dequeued|, k, s.width);
    RingTake(s.data, s.enqueued, |s.dequeued|, k);
    WrapSum(|s.dequeued|, 1, s.width);
    RingSize(s.data, s.enqueued, |s.dequeued|, k);
    var s' := Do(s, Take);
    assert s'.data == s.data[Place(|s.dequeued|, k) := None];
    assert s'.dequeued == s.dequeued + [s.enqueued[|s.dequeued|]] <= s.enqueued;
  }

  /** The memory does not depend on the semaphores or on what the threads are doing. */
  lemma MemoryKept<T>(s: State<T>, s': State<T>, k: nat)
    requires s' == s.(slots := s'.slots, items := s'.items, pw := s'.pw, cw := s'.cw)
    ensures Memory(s, k) ==> Memory(s', k)
  {
    hide Ring, Wrap;
  }

  lemma StartWaitInv<T>(s: State<T>, step: Step<T>, k: nat)
    requires Inv(s, k) && Enabled(s, step) && (step.Enqueue? || step.Dequeue?)
    ensures Inv(Do(s, step), k)
  {
    hide Memory, Sem.Inv;
    MemoryKept(s, Do(s, step), k);
    if step.Enqueue? { Sem.StepInv(s.slots, Sem.Wait(step.wait)); } else { Sem.StepInv(s.items, Sem.Wait(step.wait)); }
  }

  lemma SlotWaitInv<T>(s: State<T>, choice: Sem.Choice, k: nat)
    requires Inv(s, k) && Enabled(s, RunSlotWait(choice))
    ensures Inv(Do(s, RunSlotWait(choice)), k)
  {
    hide Memory, Sem.Inv, Sem.WaiterStep;
    MemoryKept(s, Do(s, RunSlotWait(choice)), k);
    Sem.WaiterEffect(s.slots, choice);
    Sem.StepInv(s.slots, Sem.RunWaiter(choice));
  }

  lemma ItemWaitInv<T>(s: State<T>, choice: Sem.Choice, k: nat)
    requires Inv(s, k) && Enabled(s, RunItemWait(choice))
    ensures Inv(Do(s, RunItemWait(choice)), k)
  {
    hide Memory, Sem.Inv, Sem.WaiterStep;
    MemoryKept(s, Do(s, RunItemWait(choice)), k);
    Sem.WaiterEffect(s.items, choice);
    Sem.StepInv(s.items, Sem.RunWaiter(choice));
  }

  lemma SignalInv<T>(s: State<T>, step: Step<T>, k: nat)
    requires Inv(s, k) && Enabled(s, step) && (step.RunSlotSignal? || step.RunItemSignal?)
    ensures Inv(Do(s, step), k)
  {
    hide Memory, Sem.Inv, Sem.SignallerStep;
    MemoryKept(s, Do(s, step), k);
    if step.RunSlotSignal? {
      Sem.SignallerEffect(s.slots);
      Sem.StepInv(s.slots, Sem.RunSignaller);
    } else {
      Sem.SignallerEffect(s.items);
      Sem.StepInv(s.items, Sem.RunSignaller);
    }
  }

  lemma StepInv<T>(s: State<T>, step: Step<T>, k: nat)
    requires Inv(s, k) && Enabled(s, step)
    ensures Inv(Do(s, step), k)
  {
    hide Inv, Do;
    match step
    case Put => PutInv(s, k);
    case Take => TakeInv(s, k);
    case RunSlotWait(choice) => SlotWaitInv(s, choice, k);
    case RunItemWait(choice) => ItemWaitInv(s, choice, k);
    case RunSlotSignal => SignalInv(s, step, k);
    case RunItemSignal => SignalInv(s, step, k);
    case _ => StartWaitInv(s, step, k);
  }

  // ---------------------------------------------------------------------------
  // Construction and runs
  // ---------------------------------------------------------------------------

  /** A new buffer: the ring is the least power of two that holds `maxcap` elements. */
  ghost predicate Initial<T>(s: State<T>, maxcap: nat, width: nat) {
    && s.maxcap == maxcap && s.width == width && width >= 1 && maxcap < Pow2(width)
    && Sem.Initial(s.slots, maxcap) && Sem.Initial(s.items, 0)
    && s.nextSlot == 0 && s.nextItem == 0 && s.pw.PFree? && s.cw.CFree? && !s.faulted
    && s.enqueued == [] && s.dequeued == []
    && (forall i: nat | i < |s.data| :: s.data[i] == None)
    && (maxcap > 0 ==> IsLeastPow2(|s.data|, maxcap) && |s.data| <= Pow2(width) && s.mask == |s.data| - 1)
    && (maxcap == 0 ==> s.data == [] && s.mask == Pow2(width) - 1)
  }

  /** The constructor, for a capacity that fits the semaphore's signed counter. */
  method Construct<T>(capacity: nat, bytes: nat) returns (s: State<T>)
    requires bytes >= 1 && capacity < Pow2(8 * bytes - 1)
    ensures Initial(s, capacity, 8 * bytes)
  {
    var w := 8 * bytes;
    assert Pow2(w) == 2 * Pow2(w - 1);
    var size := CeilToPow2(capacity, bytes);
    var mask := if size == 0 then Pow2(w) - 1 else size - 1;
    s := State(capacity, mask, w, seq(size, _ => None),
               Sem.State(capacity, 0, Sem.WIdle(false), Sem.SIdle, false, capacity, 0),
               Sem.State(0, 0, Sem.WIdle(false), Sem.SIdle, false, 0, 0),
               0, 0, PFree, CFree, false, [], []);
    if capacity > 0 { assert size <= Pow2(w - 1); }
  }

  lemma InitialInv<T>(s: State<T>, maxcap: nat, width: nat) returns (k: nat)
    requires Initial(s, maxcap, width)
    ensures Inv(s, k) && (maxcap > 0 ==> IsLeastPow2(Pow2(k), maxcap))
  {
    k := 0;
    if maxcap > 0 {
      k :| |s.data| == Pow2(k);
      if k > width { Pow2Grows(width, k); }
      WrapSmall(0, width);
      assert Ring(s.data, [], 0, k);
    }
  }

  ghost predicate IsRun<T>(run: seq<State<T>>, steps: seq<Step<T>>, maxcap: nat, width: nat) {
    && |run| == |steps| + 1 && Initial(run[0], maxcap, width)
    && forall i: nat | i < |steps| :: Enabled(run[i], steps[i]) && run[i + 1] == Do(run[i], steps[i])
  }

  lemma {:induction false} RunInv<T>(run: seq<State<T>>, steps: seq<Step<T>>, maxcap: nat, width: nat, i: nat)
    returns (k: nat)
    requires IsRun(run, steps, maxcap, width) && i <= |steps|
    ensures Inv(run[i], k) && run[i].maxcap == maxcap && run[i].width == width
    decreases i
  {
    hide Inv;
    if i == 0 {
      k := InitialInv(run[0], maxcap, width);
    } else {
      k := RunInv(run, steps, maxcap, width, i - 1);
      StepInv(run[i - 1], steps[i - 1], k);
      CapacityFixed(run[i - 1], steps[i - 1]);
    }
  }

  lemma CapacityFixed<T>(s: State<T>, step: Step<T>)
    requires Enabled(s, step)
    ensures Do(s, step).maxcap == s.maxcap && Do(s, step).width == s.width
  {
    hide Sem.Do, And, Wrap;
  }

  /**
   In every state of every run: output is a prefix of input, between 0 and `maxcap`
   elements are outstanding and the word `nextSlot - nextItem` counts them, free slots +
   items + operations in flight equal `maxcap`, and no slot was constructed over, read while
   dead or addressed outside the ring.
   */
  lemma BoundedFifo<T>(run: seq<State<T>>, steps: seq<Step<T>>, maxcap: nat, width: nat, i: nat)
    requires IsRun(run, steps, maxcap, width) && i <= |steps|
    ensures var s := run[i];
      && !s.faulted && s.dequeued <= s.enqueued
      && 0 <= |s.enqueued| - |s.dequeued| <= maxcap
      && WordSub(s.nextSlot, s.nextItem, width) == |s.enqueued| - |s.dequeued|
      && Available(s.slots) >= 0 && Available(s.items) >= 0
      && Available(s.slots) + Available(s.items) + ProducerInFlight(s) + ConsumerInFlight(s) == maxcap
  {
    var k := RunInv(run, steps, maxcap, width, i);
    Balance(run[i], k);
    WrapSub(|run[i].enqueued|, |run[i].dequeued|, width);
    WrapSmall(|run[i].enqueued| - |run[i].dequeued|, width);
    hide Sem.Inv, Ring, Wrap;
  }
}
