/**
 The `spsc_sema::LightweightSemaphore`: one waiting thread and one signalling thread, a
 count changed only by fetch-and-add, and a roll-back loop after a time-out. One step
 for each atomic operation or kernel call.
 */
module SpscSemaphore {

  datatype Choice = Go | Stop

  datatype Waiter =
    | WIdle(ok: bool)
    | WTry(wait: bool)     // tryWait: load
    | WTake                // the load saw a positive count: fetch_add(-1)
    | WSpin                // spin loop: load, or stop spinning
    | WSub                 // fetch_add(-1) before waiting
    | WBlocked             // kernel wait
    | WRollAdd             // timed out: fetch_add(1)
    | WRollSub             // a signal came after all: fetch_add(-1)
    | WRollTry             // kernel try_wait

  datatype Signaller = SIdle | SAdd(n: nat) | SPost

  /** `signalled` (with the initial count) and `acquired` are auxiliary totals. */
  datatype State = State(
    count: int, tokens: nat, waiter: Waiter, signaller: Signaller, faulted: bool,
    signalled: nat, acquired: nat)

  function Acquire(s: State): State {
    s.(waiter := WIdle(true), acquired := s.acquired + 1)
  }

  /** One operation of the waiting thread; `Stop` ends the spinning or the kernel wait. */
  function WaiterStep(s: State, choice: Choice): State {
    match s.waiter
    case WIdle(_) => s
    case WTry(wait) =>
      s.(waiter := if s.count > 0 then WTake else if wait then WSpin else WIdle(false))
    case WTake => Acquire(s).(count := s.count - 1)
    case WSpin => s.(waiter := if choice.Stop? then WSub else if s.count > 0 then WTake else WSpin)
    case WSub =>
      if s.count > 0 then Acquire(s).(count := s.count - 1)
      else s.(count := s.count - 1, waiter := WBlocked)
    case WBlocked =>
      if choice.Go? && s.tokens > 0 then Acquire(s).(tokens := s.tokens - 1)
      else if choice.Stop? then s.(waiter := WRollAdd) else s
    case WRollAdd => s.(count := s.count + 1, waiter := if s.count < 0 then WIdle(false) else WRollSub)
    case WRollSub => s.(count := s.count - 1, waiter := if s.count > 0 then WRollTry else WRollAdd)
    case WRollTry =>
      if s.tokens > 0 then Acquire(s).(tokens := s.tokens - 1) else s.(waiter := WRollAdd)
  }

  function SignallerStep(s: State): State {
    match s.signaller
    case SIdle => s
    case SAdd(n) =>
      s.(count := s.count + n, signalled := s.signalled + n, faulted := s.faulted || s.count < -1,
         signaller := if s.count < 0 then SPost else SIdle)
    case SPost => s.(tokens := s.tokens + 1, signaller := SIdle)
  }

  datatype Step =
    | Wait(wait: bool)         // tryWait (false) or wait (true) is called
    | Signal(n: nat)           // signal(n) is called
    | RunWaiter(choice: Choice)
    | RunSignaller

  predicate Enabled(s: State, step: Step) {
    match step
    case Wait(_) => s.waiter.WIdle?
    case Signal(_) => s.signaller.SIdle?
    case RunWaiter(_) => !s.waiter.WIdle?
    case RunSignaller => !s.signaller.SIdle?
  }

  function Do(s: State, step: Step): State
    requires Enabled(s, step)
  {
    match step
    case Wait(wait) => s.(waiter := WTry(wait))
    case Signal(n) => s.(signaller := SAdd(n))
    case RunWaiter(choice) => WaiterStep(s, choice)
    case RunSignaller => SignallerStep(s)
  }

  // ---------------------------------------------------------------------------
  // The law
  // ---------------------------------------------------------------------------

  /** The waiter has subtracted itself from the count. */
  function Pending(s: State): nat {
    if s.waiter.WBlocked? || s.waiter.WRollAdd? || s.waiter.WRollTry? then 1 else 0
  }

  /** A signal has answered the pending wait. */
  predicate Answered(s: State) {
    (Pending(s) == 1 && s.count >= 0) || s.waiter.WRollSub?
  }

  ghost predicate Inv(s: State) {
    && !s.faulted && s.count >= -1 && (s.count == -1 ==> Pending(s) == 1)
    && s.count == s.signalled - s.acquired - Pending(s)
    && s.tokens + (if s.signaller.SPost? then 1 else 0) == (if Answered(s) then 1 else 0)
    && (s.waiter.WTake? || s.waiter.WRollSub? ==> s.count >= 1)
    && (s.waiter.WRollTry? ==> s.count >= 0)
  }

  /** Every step keeps the law, provided `signal` is called with at least one permit. */
  lemma StepInv(s: State, step: Step)
    requires Inv(s) && Enabled(s, step)
    requires s.signaller.SAdd? ==> s.signaller.n >= 1
    ensures Inv(Do(s, step))
  {}

  /** Exactly when `signal(n)` keeps the law: it must bring a permit, or find nobody waiting. */
  lemma SignalKeepsLaw(s: State)
    requires Inv(s) && s.signaller.SAdd?
    ensures Inv(SignallerStep(s)) <==> s.signaller.n >= 1 || s.count >= 0
  {}

  /** Once answered, a wait stays answered until it succeeds. */
  lemma AnsweredStep(s: State, step: Step)
    requires Inv(s) && Enabled(s, step) && Answered(s)
    ensures Answered(Do(s, step)) || (Do(s, step).waiter == WIdle(true) && Do(s, step).acquired == s.acquired + 1)
  {}

  /** What a step of the waiter means to the other side: it acquires exactly when its call ends in success. */
  lemma WaiterEffect(s: State, choice: Choice)
    requires !s.waiter.WIdle?
    ensures var s' := WaiterStep(s, choice);
      && s'.signalled == s.signalled && s'.signaller == s.signaller && s'.faulted == s.faulted
      && s'.acquired == s.acquired + (if s'.waiter == WIdle(true) then 1 else 0)
  {}

  /** What a step of the signaller means: the permits arrive with its fetch-and-add. */
  lemma SignallerEffect(s: State)
    requires !s.signaller.SIdle?
    ensures var s' := SignallerStep(s);
      && s'.acquired == s.acquired && s'.waiter == s.waiter && !s'.signaller.SAdd?
      && s'.signalled == s.signalled + (if s.signaller.SAdd? then s.signaller.n else 0)
  {}

  lemma NoPhantomPermits(s: State)
    requires Inv(s)
    ensures s.acquired <= s.signalled
    ensures s.tokens + (if s.signaller.SPost? then 1 else 0) <= 1
  {}

  // ---------------------------------------------------------------------------
  // Runs
  // ---------------------------------------------------------------------------

  ghost predicate Initial(s: State, initial: nat) {
    && s.count == initial && s.signalled == initial && s.tokens == 0 && s.acquired == 0
    && s.waiter.WIdle? && s.signaller.SIdle? && !s.faulted
  }

  ghost predicate IsRun(run: seq<State>, steps: seq<Step>, initial: nat) {
    && |run| == |steps| + 1 && Initial(run[0], initial)
    && forall i: nat | i < |steps| :: Enabled(run[i], steps[i]) && run[i + 1] == Do(run[i], steps[i])
  }

  /** Every `signal` of the run brings at least one permit. */
  ghost predicate PositiveSignals(steps: seq<Step>) {
    forall i: nat | i < |steps| && steps[i].Signal? :: steps[i].n >= 1
  }

  lemma {:induction false} RunInv(run: seq<State>, steps: seq<Step>, initial: nat, i: nat)
    requires IsRun(run, steps, initial) && PositiveSignals(steps) && i <= |steps|
    ensures Inv(run[i]) && (run[i].signaller.SAdd? ==> run[i].signaller.n >= 1)
    decreases i
  {
    if i > 0 {
      RunInv(run, steps, initial, i - 1);
      StepInv(run[i - 1], steps[i - 1]);
    }
  }

  /**
   In every state of every run with positive signals: the count never drops below -1 (so
   the assert in `signal` holds), at most one kernel post is outstanding, and no permit is
   acquired before it is signalled.
   */
  lemma SpscLaw(run: seq<State>, steps: seq<Step>, initial: nat, i: nat)
    requires IsRun(run, steps, initial) && PositiveSignals(steps) && i <= |steps|
    ensures var s := run[i];
      && s.count >= -1 && !s.faulted
      && s.count == s.signalled - s.acquired - Pending(s)
      && s.tokens + (if s.signaller.SPost? then 1 else 0) <= 1
      && s.acquired <= s.signalled
  {
    RunInv(run, steps, initial, i);
  }

  /** While the call goes on, an answered wait stays answered. */
  lemma {:induction false} StaysAnswered(run: seq<State>, steps: seq<Step>, initial: nat, i: nat, j: nat)
    requires IsRun(run, steps, initial) && PositiveSignals(steps) && i <= j <= |steps|
    requires Answered(run[i]) && forall l: nat | i <= l <= j :: !run[l].waiter.WIdle?
    ensures Answered(run[j])
    decreases j
  {
    if i < j {
      StaysAnswered(run, steps, initial, i, j - 1);
      RunInv(run, steps, initial, j - 1);
      AnsweredStep(run[j - 1], steps[j - 1]);
    }
  }

  /**
   Once a signal has answered a pending wait (in state `i`), that call, however often it
   goes round the roll-back loop, can only end in success, with a permit acquired: here it
   returns with step `j`.
   */
  lemma AnsweredEndsInSuccess(run: seq<State>, steps: seq<Step>, initial: nat, i: nat, j: nat)
    requires IsRun(run, steps, initial) && PositiveSignals(steps) && i <= j < |steps|
    requires Answered(run[i]) && forall l: nat | i <= l <= j :: !run[l].waiter.WIdle?
    requires run[j + 1].waiter.WIdle?
    ensures run[j + 1].waiter == WIdle(true) && run[j + 1].acquired == run[j].acquired + 1
  {
    StaysAnswered(run, steps, initial, i, j);
    RunInv(run, steps, initial, j);
    AnsweredStep(run[j], steps[j]);
  }

  /** A run that ends in `last`. */
  ghost predicate Reaches(run: seq<State>, steps: seq<Step>, initial: nat, last: State) {
    IsRun(run, steps, initial) && run[|steps|] == last
  }

  lemma Extend(run: seq<State>, steps: seq<Step>, initial: nat, last: State, step: Step)
    returns (run': seq<State>, steps': seq<Step>)
    requires Reaches(run, steps, initial, last) && Enabled(last, step)
    ensures Reaches(run', steps', initial, Do(last, step))
  {
    run', steps' := run + [Do(last, step)], steps + [step];
  }

  /** `signal(0)` on a blocked waiter posts a token nobody paid for: a permit out of nothing. */
  lemma ZeroSignalInventsPermit() returns (run: seq<State>, steps: seq<Step>)
    ensures IsRun(run, steps, 0) && run[|steps|].acquired > run[|steps|].signalled
  {
    var s := State(0, 0, WIdle(false), SIdle, false, 0, 0);
    run, steps := [s], [];
    assert Reaches(run, steps, 0, s);
    hide Reaches;
    run, steps := Extend(run, steps, 0, s, Wait(true));
    s := s.(waiter := WTry(true));
    run, steps := Extend(run, steps, 0, s, RunWaiter(Go));
    s := s.(waiter := WSpin);
    run, steps := Extend(run, steps, 0, s, RunWaiter(Stop));
    s := s.(waiter := WSub);
    run, steps := Extend(run, steps, 0, s, RunWaiter(Go));
    s := s.(count := -1, waiter := WBlocked);
    run, steps := Extend(run, steps, 0, s, Signal(0));
    s := s.(signaller := SAdd(0));
    run, steps := Extend(run, steps, 0, s, RunSignaller);
    s := s.(signaller := SPost);
    run, steps := Extend(run, steps, 0, s, RunSignaller);
    s := s.(signaller := SIdle, tokens := 1);
    run, steps := Extend(run, steps, 0, s, RunWaiter(Go));
    Reached(run, steps, 0, s.(waiter := WIdle(true), tokens := 0, acquired := 1));
  }

  lemma Reached(run: seq<State>, steps: seq<Step>, initial: nat, last: State)
    requires Reaches(run, steps, initial, last)
    ensures IsRun(run, steps, initial) && run[|steps|] == last
  {}
}
