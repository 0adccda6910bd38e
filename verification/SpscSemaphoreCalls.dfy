/**
 The single-waiter semaphore as its callers see it: what `tryWait` and `wait` answer, in
 terms of the count at instants of the call, and the balance of permits.
 */
module SpscSemaphoreCalls {
  import opened SpscSemaphore

  /** The waiter is in the call made at step `c`, until just before state `i`. */
  ghost predicate WaitIn(run: seq<State>, steps: seq<Step>, c: nat, i: nat)
    requires |run| == |steps| + 1
  {
    c < i <= |steps| && steps[c].Wait? && forall l: nat | c < l < i :: !run[l].waiter.WIdle?
  }

  /** `tryWait` does not wait. */
  predicate Serves(waiter: Waiter, wait: bool) {
    match waiter
    case WIdle(_) => true
    case WTry(w) => w == wait
    case WTake => true
    case _ => wait
  }

  lemma StepServes(s: State, step: Step, wait: bool)
    requires Enabled(s, step) && Serves(s.waiter, wait) && !s.waiter.WIdle?
    ensures Serves(Do(s, step).waiter, wait)
    ensures Do(s, step).waiter == s.waiter || step.RunWaiter?
  {}

  /** A call is past its time-out. */
  predicate TimedOut(waiter: Waiter) { waiter.WRollAdd? || waiter.WRollSub? || waiter.WRollTry? }

  /** How a call stands in state `i`: what it has seen at step `k` of the call. */
  ghost predicate Stands(run: seq<State>, steps: seq<Step>, c: nat, i: nat, k: nat)
    requires |run| == |steps| + 1 && c < i <= |steps| && steps[c].Wait?
  {
    && Serves(run[i].waiter, steps[c].wait)
    && (if steps[c].wait
        then TimedOut(run[i].waiter) || run[i].waiter == WIdle(false) ==> ToldToStop(run, steps, c, i, k)
        else !run[i].waiter.WTry? ==>
          c < k < i && ((run[i].waiter.WTake? || run[i].waiter == WIdle(true)) <==> run[k].count > 0))
  }

  /** At step `k` of the call its time was over. */
  ghost predicate ToldToStop(run: seq<State>, steps: seq<Step>, c: nat, i: nat, k: nat)
    requires |run| == |steps| + 1 && c < i <= |steps|
  {
    c < k < i && steps[k] == RunWaiter(Stop) && run[k].waiter.WBlocked?
  }

  lemma OtherStep(s: State, step: Step)
    requires Enabled(s, step) && !step.RunWaiter? && !step.Wait?
    ensures Do(s, step).waiter == s.waiter
  {}

  /** What a step of the waiter can lead to. */
  lemma OwnStep(s: State, choice: Choice, wait: bool)
    requires !s.waiter.WIdle? && Serves(s.waiter, wait)
    ensures var w := WaiterStep(s, choice).waiter;
      && Serves(w, wait)
      && (!wait && s.waiter.WTry? ==> w == if s.count > 0 then WTake else WIdle(false))
      && (!wait && s.waiter.WTake? ==> w == WIdle(true))
      && (wait && !TimedOut(s.waiter) ==> w != WIdle(false) && (TimedOut(w) ==> s.waiter.WBlocked? && choice.Stop?))
      && (w == WIdle(false) && wait ==> s.count < 0)
  {}

  lemma {:induction false} CallSoFar(run: seq<State>, steps: seq<Step>, initial: nat, c: nat, i: nat) returns (k: nat)
    requires IsRun(run, steps, initial) && WaitIn(run, steps, c, i)
    ensures Stands(run, steps, c, i, k)
    decreases i
  {
    hide WaiterStep, SignallerStep, Initial;
    if i == c + 1 {
      k := 0;
    } else {
      k := CallSoFar(run, steps, initial, c, i - 1);
      var s, step := run[i - 1], steps[i - 1];
      if step.RunWaiter? {
        OwnStep(s, step.choice, steps[c].wait);
        if s.waiter.WTry? || (!TimedOut(s.waiter) && TimedOut(run[i].waiter)) { k := i - 1; }
      } else {
        OtherStep(s, step);
      }
    }
  }

  /**
   Every call, here made at step `c` and returning with step `j`: `tryWait` succeeds exactly if
   the count was positive when it looked, at an instant `k` of the call; `wait` fails only if
   at an instant `k` of the call its time was over, and then with nobody having answered it.
   */
  lemma WaitAnswers(run: seq<State>, steps: seq<Step>, initial: nat, c: nat, j: nat) returns (k: nat)
    requires IsRun(run, steps, initial) && j < |steps| && WaitIn(run, steps, c, j + 1) && c < j
    requires run[j + 1].waiter.WIdle?
    ensures !steps[c].wait ==> c < k <= j && (run[j + 1].waiter.ok <==> run[k].count > 0)
    ensures steps[c].wait && !run[j + 1].waiter.ok ==> ToldToStop(run, steps, c, j, k) && run[j].count < 0
  {
    hide WaiterStep, SignallerStep, Initial;
    var before := CallSoFar(run, steps, initial, c, j);
    k := CallSoFar(run, steps, initial, c, j + 1);
    StepServes(run[j], steps[j], steps[c].wait);
    if steps[j].RunWaiter? { OwnStep(run[j], steps[j].choice, steps[c].wait); }
    if steps[c].wait { k := before; }
  }

  // ---------------------------------------------------------------------------
  // Progress
  // ---------------------------------------------------------------------------

  /** With a permit there, a call that runs alone takes it in two steps. */
  lemma AloneTakes(s: State, wait: bool)
    requires s.count > 0 && s.waiter.WIdle?
    ensures var s' := WaiterStep(WaiterStep(Do(s, Wait(wait)), Go), Go);
      s'.waiter == WIdle(true) && s'.count == s.count - 1
  {}

  /** A spinning call takes a permit that comes; a blocked one the token that is posted for it. */
  lemma WaiterWakes(s: State)
    ensures s.waiter.WSpin? && s.count > 0 ==> WaiterStep(WaiterStep(s, Go), Go).waiter == WIdle(true)
    ensures s.waiter.WBlocked? && s.tokens > 0 ==> WaiterStep(s, Go).waiter == WIdle(true)
  {}

  /** `signal` returns after at most two steps, and posts exactly if it finds a waiter. */
  lemma SignalEnds(s: State)
    requires s.signaller.SAdd?
    ensures var s' := SignallerStep(s);
      if s.count >= 0 then s'.signaller == SIdle && s'.tokens == s.tokens
      else
        && s'.signaller == SPost && SignallerStep(s').signaller == SIdle
        && SignallerStep(s').tokens == s.tokens + 1
  {}

  // ---------------------------------------------------------------------------
  // The balance of permits
  // ---------------------------------------------------------------------------

  function Signals(steps: seq<Step>, i: nat): nat
    requires i <= |steps|
  {
    if i == 0 then 0 else Signals(steps, i - 1) + if steps[i - 1].Signal? then steps[i - 1].n else 0
  }

  /** How many calls have returned true before state `i`. */
  ghost function Successes(run: seq<State>, i: nat): nat
    requires i < |run|
  {
    if i == 0 then 0
    else Successes(run, i - 1) + if !run[i - 1].waiter.WIdle? && run[i].waiter == WIdle(true) then 1 else 0
  }

  lemma LedgerStep(s: State, step: Step)
    requires Enabled(s, step)
    ensures var s' := Do(s, step);
      && s'.signalled + AddingNow(s') == s.signalled + AddingNow(s) + (if step.Signal? then step.n else 0)
      && s'.acquired == s.acquired + (if !s.waiter.WIdle? && s'.waiter == WIdle(true) then 1 else 0)
  {}

  function AddingNow(s: State): nat { if s.signaller.SAdd? then s.signaller.n else 0 }

  lemma {:induction false} LedgerIsCalls(run: seq<State>, steps: seq<Step>, initial: nat, i: nat)
    requires IsRun(run, steps, initial) && i <= |steps|
    ensures run[i].signalled + AddingNow(run[i]) == initial + Signals(steps, i)
    ensures run[i].acquired == Successes(run, i)
    decreases i
  {
    if i > 0 {
      LedgerIsCalls(run, steps, initial, i - 1);
      LedgerStep(run[i - 1], steps[i - 1]);
      hide Do, Enabled, Initial;
    }
  }

  /**
   For the callers of a semaphore with positive signals: never do more calls succeed than
   permits were there or signalled; and when no call is in progress the count is exactly what
   is left, with nothing in the kernel.
   */
  lemma PermitsBalance(run: seq<State>, steps: seq<Step>, initial: nat, i: nat)
    requires IsRun(run, steps, initial) && PositiveSignals(steps) && i <= |steps|
    ensures Successes(run, i) <= initial + Signals(steps, i)
    ensures run[i].waiter.WIdle? && run[i].signaller.SIdle? ==>
      run[i].count == initial + Signals(steps, i) - Successes(run, i) && run[i].tokens == 0
  {
    LedgerIsCalls(run, steps, initial, i);
    RunInv(run, steps, initial, i);
    hide Do, Enabled, Initial;
  }
}
