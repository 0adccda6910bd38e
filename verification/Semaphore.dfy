/**
 The `LightweightSemaphore` of the multi-producer queue: an atomic count in front of a
 kernel semaphore. Any number of threads wait, wait for several permits, time out and
 signal; one step for each atomic operation or kernel call. `tryWait` and
 `waitWithPartialSpinning` are the `max == 1` cases of `tryWaitMany` and
 `waitManyWithPartialSpinning`.
 */
module Semaphore {

  /** What follows `tryWaitMany`: return (with permits already in hand), or start waiting. */
  datatype After = Return(have: nat) | StartWaiting

  datatype Pc =
    | Idle(got: nat)                                        // permits returned by the last call
    | TryLoad(max: nat, after: After)                       // tryWaitMany: load
    | TryCas(max: nat, after: After, seen: int)              // tryWaitMany: compare-exchange
    | Spin(max: nat)                                        // spin loop: load, or stop spinning
    | SpinCas(max: nat, seen: int)                           // spin loop: compare-exchange
    | FetchSub(max: nat)
    | Blocked(max: nat)                                     // in the kernel wait (or about to time out)
    | RollLoad(max: nat)                                    // timed out: load
    | RollTry(max: nat)                                     // timed out: kernel try_wait
    | RollCas(max: nat, seen: int)                           // timed out: compare-exchange
    | SignalAdd(n: nat)                                     // signal: fetch_add
    | Post(n: nat)                                          // signal: kernel posts still to make

  /** `signalled` (with the initial count), `acquired` and `claimed` are auxiliary totals. */
  datatype State = State(count: int, tokens: nat, pcs: seq<Pc>, signalled: nat, acquired: nat, claimed: nat)

  function SetPc(s: State, t: nat, pc: Pc): State
    requires t < |s.pcs|
  {
    s.(pcs := s.pcs[t := pc])
  }

  /** The compare-exchange target of `tryWaitMany`. */
  function Reduced(seen: int, max: nat): int {
    if seen > max then seen - max else 0
  }

  /** After one permit from the slow path: top up without waiting. */
  function TopUp(max: nat): Pc {
    if max > 1 then TryLoad(max - 1, Return(1)) else Idle(1)
  }

  /** How `tryWaitMany` ends without a permit of its own. */
  function TryFailed(max: nat, after: After): Pc {
    if after.StartWaiting? && max > 0 then Spin(max) else Idle(InHand(after))
  }

  function InHand(after: After): nat {
    if after.Return? then after.have else 0
  }

  /** A compare-exchange taking `seen - new` permits. */
  function CasTake(s: State, t: nat, seen: int, max: nat, have: nat): State
    requires t < |s.pcs| && s.count == seen && seen > 0
  {
    var taken: nat := seen - Reduced(seen, max);
    SetPc(s, t, Idle(have + taken)).(count := Reduced(seen, max), acquired := s.acquired + taken)
  }

  datatype Choice = Go | Stop

  /** One operation of `tryWaitMany` or of the spin loop; `choice` resolves spinning and weak failures. */
  function FastStep(s: State, t: nat, choice: Choice): State
    requires t < |s.pcs|
  {
    match s.pcs[t]
    case TryLoad(max, after) =>
      SetPc(s, t, if s.count > 0 then TryCas(max, after, s.count) else TryFailed(max, after))
    case TryCas(max, after, seen) =>
      // compare_exchange_weak: success, or a (possibly spurious) failure that reloads
      if choice.Go? && s.count == seen && seen > 0 then CasTake(s, t, seen, max, InHand(after))
      else SetPc(s, t, TryLoad(max, after))
    case Spin(max) =>
      if choice.Stop? then SetPc(s, t, FetchSub(max))
      else SetPc(s, t, if s.count > 0 then SpinCas(max, s.count) else Spin(max))
    case SpinCas(max, seen) =>
      if s.count == seen && seen > 0 then CasTake(s, t, seen, max, 0) else SetPc(s, t, Spin(max))
    case _ => s
  }

  /** One operation of the waiting part, with the roll-back after a time-out (`Stop`). */
  function SlowStep(s: State, t: nat, choice: Choice): State
    requires t < |s.pcs|
  {
    match s.pcs[t]
    case FetchSub(max) =>
      if s.count > 0 then SetPc(s, t, TopUp(max)).(count := s.count - 1, acquired := s.acquired + 1)
      else SetPc(s, t, Blocked(max)).(count := s.count - 1)
    case Blocked(max) =>
      if choice.Go? && s.tokens > 0
      then SetPc(s, t, TopUp(max)).(tokens := s.tokens - 1, acquired := s.acquired + 1)
      else if choice.Stop? then SetPc(s, t, RollLoad(max))
      else s
    case RollLoad(max) => SetPc(s, t, if s.count >= 0 then RollTry(max) else RollCas(max, s.count))
    case RollTry(max) =>
      if s.tokens > 0
      then SetPc(s, t, TopUp(max)).(tokens := s.tokens - 1, acquired := s.acquired + 1)
      else SetPc(s, t, RollLoad(max))
    case RollCas(max, seen) =>
      if s.count == seen && seen < 0 then SetPc(s, t, Idle(0)).(count := s.count + 1)
      else SetPc(s, t, RollLoad(max))
    case _ => s
  }

  /** One operation of `signal`. */
  function SignalStep(s: State, t: nat): State
    requires t < |s.pcs|
  {
    match s.pcs[t]
    case SignalAdd(n) =>
      var release := if -s.count < n then -s.count else n;
      SetPc(s, t, if release > 0 then Post(release) else Idle(0))
      .(count := s.count + n, signalled := s.signalled + n)
    case Post(n) =>
      if n == 0 then SetPc(s, t, Idle(0))
      else SetPc(s, t, if n > 1 then Post(n - 1) else Idle(0)).(tokens := s.tokens + 1)
    case _ => s
  }

  predicate IsFast(pc: Pc) { pc.TryLoad? || pc.TryCas? || pc.Spin? || pc.SpinCas? }
  predicate IsSignal(pc: Pc) { pc.SignalAdd? || pc.Post? }

  function ThreadStep(s: State, t: nat, choice: Choice): State
    requires t < |s.pcs|
  {
    if IsFast(s.pcs[t]) then FastStep(s, t, choice)
    else if IsSignal(s.pcs[t]) then SignalStep(s, t)
    else SlowStep(s, t, choice)
  }

  datatype Step =
    | TryWait(t: nat, max: nat)
    | Wait(t: nat, max: nat)
    | Signal(t: nat, n: nat)
    | Claim(t: nat)                        // the caller takes note of the permits it got
    | Run(t: nat, choice: Choice)

  predicate Enabled(s: State, step: Step) {
    && step.t < |s.pcs|
    && if step.Run? then !s.pcs[step.t].Idle?
       else if step.Claim? then s.pcs[step.t].Idle?
       else s.pcs[step.t] == Idle(0)
  }

  function Do(s: State, step: Step): State
    requires Enabled(s, step)
  {
    match step
    case TryWait(t, max) => SetPc(s, t, TryLoad(max, Return(0)))
    case Wait(t, max) => SetPc(s, t, TryLoad(max, StartWaiting))
    case Signal(t, n) => SetPc(s, t, SignalAdd(n))
    case Claim(t) => SetPc(s, t, Idle(0)).(claimed := s.claimed + s.pcs[t].got)
    case Run(t, choice) => ThreadStep(s, t, choice)
  }

  // ---------------------------------------------------------------------------
  // The two laws
  // ---------------------------------------------------------------------------

  datatype Kind = Waiting | Posting | Having | Adding | Holding

  /**
   Has subtracted itself from the count; posts still to make; permits in hand, also of a call
   that has returned; permits still to add; permits in hand of a call in progress.
   */
  function Weight(pc: Pc, k: Kind): nat {
    match k
    case Waiting => if pc.Blocked? || pc.RollLoad? || pc.RollTry? || pc.RollCas? then 1 else 0
    case Posting => if pc.Post? then pc.n else 0
    case Having => if pc.Idle? then pc.got else if pc.TryLoad? || pc.TryCas? then InHand(pc.after) else 0
    case Adding => if pc.SignalAdd? then pc.n else 0
    case Holding => if pc.TryLoad? || pc.TryCas? then InHand(pc.after) else 0
  }

  function Total(pcs: seq<Pc>, k: Kind): nat {
    if pcs == [] then 0 else Weight(pcs[0], k) + Total(pcs[1..], k)
  }

  lemma {:induction false} TotalUpdate(pcs: seq<Pc>, t: nat, pc: Pc, k: Kind)
    requires t < |pcs|
    ensures Total(pcs[t := pc], k) + Weight(pcs[t], k) == Total(pcs, k) + Weight(pc, k)
  {
    if t == 0 {
      assert pcs[0 := pc][1..] == pcs[1..];
    } else {
      TotalUpdate(pcs[1..], t - 1, pc, k);
      assert pcs[t := pc][1..] == pcs[1..][t - 1 := pc];
    }
  }

  lemma {:induction false} TotalAtLeast(pcs: seq<Pc>, t: nat, k: Kind)
    requires t < |pcs|
    ensures Total(pcs, k) >= Weight(pcs[t], k)
  {
    if t > 0 { TotalAtLeast(pcs[1..], t - 1, k); }
  }

  function Min0(x: int): int { if x < 0 then x else 0 }

  /** The count is the permits not yet acquired, less the waiters that counted themselves. */
  ghost predicate CountLaw(s: State) {
    s.count == s.signalled - s.acquired - Total(s.pcs, Waiting)
  }

  /** Kernel tokens and posts on their way are exactly the waiters a signal has answered. */
  ghost predicate TokenLaw(s: State) {
    s.tokens + Total(s.pcs, Posting) == Total(s.pcs, Waiting) + Min0(s.count)
  }

  ghost predicate Inv(s: State) {
    CountLaw(s) && TokenLaw(s) && s.acquired == s.claimed + Total(s.pcs, Having)
  }

  /** What a step of thread `t` must balance. */
  lemma Balanced(s: State, s': State, t: nat)
    requires Inv(s) && t < |s.pcs| && t < |s'.pcs| && s'.pcs == s.pcs[t := s'.pcs[t]]
    requires var a, b := s.pcs[t], s'.pcs[t];
      && s'.count - s.count == (s'.signalled - s.signalled) - (s'.acquired - s.acquired)
                               - (Weight(b, Waiting) - Weight(a, Waiting))
      && (s'.tokens - s.tokens) + (Weight(b, Posting) - Weight(a, Posting))
         == (Weight(b, Waiting) - Weight(a, Waiting)) + (Min0(s'.count) - Min0(s.count))
      && s'.acquired - s.acquired == (s'.claimed - s.claimed) + (Weight(b, Having) - Weight(a, Having))
    ensures Inv(s')
  {
    hide Total;
    TotalUpdate(s.pcs, t, s'.pcs[t], Waiting);
    TotalUpdate(s.pcs, t, s'.pcs[t], Posting);
    TotalUpdate(s.pcs, t, s'.pcs[t], Having);
  }

  /** Every step keeps both laws. */
  lemma StepInv(s: State, step: Step)
    requires Inv(s) && Enabled(s, step)
    ensures Inv(Do(s, step))
  {
    hide Inv;
    if step.Run? { RunStepInv(s, step.t, step.choice); } else { Balanced(s, Do(s, step), step.t); }
  }

  lemma RunStepInv(s: State, t: nat, choice: Choice)
    requires Inv(s) && Enabled(s, Run(t, choice))
    ensures Inv(Do(s, Run(t, choice)))
  {
    hide Inv, FastStep, SignalStep, SlowStep;
    if IsFast(s.pcs[t]) { FastStepInv(s, t, choice); }
    else if IsSignal(s.pcs[t]) { SignalStepInv(s, t); }
    else { SlowStepInv(s, t, choice); }
  }

  lemma FastStepInv(s: State, t: nat, choice: Choice)
    requires Inv(s) && t < |s.pcs| && IsFast(s.pcs[t])
    ensures Inv(FastStep(s, t, choice))
  {
    hide Inv;
    Balanced(s, FastStep(s, t, choice), t);
  }

  lemma SignalStepInv(s: State, t: nat)
    requires Inv(s) && t < |s.pcs| && IsSignal(s.pcs[t])
    ensures Inv(SignalStep(s, t))
  {
    hide Inv;
    Balanced(s, SignalStep(s, t), t);
  }

  lemma SlowStepInv(s: State, t: nat, choice: Choice)
    requires Inv(s) && t < |s.pcs| && !IsFast(s.pcs[t]) && !IsSignal(s.pcs[t])
    ensures Inv(SlowStep(s, t, choice))
  {
    hide Inv;
    Balanced(s, SlowStep(s, t, choice), t);
  }

  /** Permits are never handed out before they are signalled. */
  lemma NoPhantomPermits(s: State)
    requires Inv(s)
    ensures s.acquired <= s.signalled
  {}

  /**
   No lost wake-up: if threads wait, no token lies in the kernel and no post is on its
   way, then every permit ever signalled has been acquired.
   */
  lemma NoLostWakeup(s: State)
    requires Inv(s) && s.tokens == 0 && Total(s.pcs, Posting) == 0 && Total(s.pcs, Waiting) > 0
    ensures s.acquired == s.signalled
  {}

  /** A timed-out waiter that reads a non-negative count is owed a token (there or on its way). */
  lemma OwedToken(s: State, t: nat)
    requires Inv(s) && t < |s.pcs| && (s.pcs[t].RollLoad? || s.pcs[t].RollTry?) && s.count >= 0
    ensures s.tokens + Total(s.pcs, Posting) >= 1
  {
    TotalAtLeast(s.pcs, t, Waiting);
  }

  // ---------------------------------------------------------------------------
  // Runs
  // ---------------------------------------------------------------------------

  ghost predicate Initial(s: State, initial: nat) {
    && s.count == initial && s.signalled == initial && s.tokens == 0
    && s.acquired == 0 && s.claimed == 0
    && forall t: nat | t < |s.pcs| :: s.pcs[t] == Idle(0)
  }

  ghost predicate IsRun(run: seq<State>, steps: seq<Step>, initial: nat) {
    && |run| == |steps| + 1 && Initial(run[0], initial)
    && forall i: nat | i < |steps| :: Enabled(run[i], steps[i]) && run[i + 1] == Do(run[i], steps[i])
  }

  lemma {:induction false} IdleTotal(pcs: seq<Pc>, k: Kind)
    requires forall t: nat | t < |pcs| :: pcs[t] == Idle(0)
    ensures Total(pcs, k) == 0
  {
    if pcs != [] { IdleTotal(pcs[1..], k); }
  }

  lemma InitialInv(s: State, initial: nat)
    requires Initial(s, initial)
    ensures Inv(s)
  {
    IdleTotal(s.pcs, Waiting);
    IdleTotal(s.pcs, Posting);
    IdleTotal(s.pcs, Having);
  }

  lemma {:induction false} RunInv(run: seq<State>, steps: seq<Step>, initial: nat, i: nat)
    requires IsRun(run, steps, initial) && i <= |steps|
    ensures Inv(run[i])
    decreases i
  {
    if i == 0 {
      InitialInv(run[0], initial);
    } else {
      RunInv(run, steps, initial, i - 1);
      StepInv(run[i - 1], steps[i - 1]);
    }
  }

  /** Both conservation laws and their consequences, in every state of every run. */
  lemma Conservation(run: seq<State>, steps: seq<Step>, initial: nat, i: nat)
    requires IsRun(run, steps, initial) && i <= |steps|
    ensures var s := run[i];
      && s.count == s.signalled - s.acquired - Total(s.pcs, Waiting)
      && s.tokens + Total(s.pcs, Posting) == Total(s.pcs, Waiting) + Min0(s.count)
      && s.acquired <= s.signalled
      && (s.tokens == 0 && Total(s.pcs, Posting) == 0 && Total(s.pcs, Waiting) > 0 ==> s.acquired == s.signalled)
  {
    RunInv(run, steps, initial, i);
  }
}
