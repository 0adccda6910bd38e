/**
 The semaphore as its callers see it: what `tryWaitMany` and `waitMany` return, in terms of
 the count at instants of the call, and the balance of all permits signalled and returned.
 */
module SemaphoreCalls {
  import opened Semaphore

  function Least(a: int, b: int): int { if a < b then a else b }

  /** Thread `t` is in the call made at step `c`, until just before state `i`. */
  ghost predicate WaitIn(run: seq<State>, steps: seq<Step>, t: nat, c: nat, i: nat)
    requires |run| == |steps| + 1
  {
    && c < i <= |steps| && (steps[c].TryWait? || steps[c].Wait?) && steps[c].t == t
    && forall l: nat | c < l < i :: t < |run[l].pcs| && !run[l].pcs[t].Idle?
  }

  // ---------------------------------------------------------------------------
  // A thread keeps to its call
  // ---------------------------------------------------------------------------

  /** `tryWaitMany(max)` never waits, `waitMany(max)` may; neither takes more than `max`. */
  predicate Serves(pc: Pc, max: nat, wait: bool) {
    match pc
    case Idle(got) => got <= max
    case TryLoad(m, after) => Trying(m, after, max, wait)
    case TryCas(m, after, seen) => Trying(m, after, max, wait) && seen > 0
    case Spin(m) => wait && m == max > 0
    case SpinCas(m, seen) => wait && m == max > 0 && seen > 0
    case FetchSub(m) => wait && m == max > 0
    case Blocked(m) => wait && m == max > 0
    case RollLoad(m) => wait && m == max > 0
    case RollTry(m) => wait && m == max > 0
    case RollCas(m, _) => wait && m == max > 0
    case SignalAdd(_) => false
    case Post(_) => false
  }

  /** The first attempt of a call, or topping up a permit that the call has waited for. */
  predicate Trying(m: nat, after: After, max: nat, wait: bool) {
    match after
    case StartWaiting => wait && m == max
    case Return(have) => have + m == max && (if wait then have == 1 else have == 0)
  }

  lemma CallServes(s: State, step: Step)
    requires Enabled(s, step) && (step.TryWait? || step.Wait?)
    ensures |Do(s, step).pcs| == |s.pcs| && Serves(Do(s, step).pcs[step.t], step.max, step.Wait?)
    ensures !Do(s, step).pcs[step.t].Idle?
  {}

  lemma FastServes(s: State, t: nat, choice: Choice, max: nat, wait: bool)
    requires t < |s.pcs| && Serves(s.pcs[t], max, wait) && IsFast(s.pcs[t])
    ensures |FastStep(s, t, choice).pcs| == |s.pcs| && Serves(FastStep(s, t, choice).pcs[t], max, wait)
  {}

  lemma SlowServes(s: State, t: nat, choice: Choice, max: nat, wait: bool)
    requires t < |s.pcs| && Serves(s.pcs[t], max, wait) && !IsFast(s.pcs[t])
    ensures |SlowStep(s, t, choice).pcs| == |s.pcs| && Serves(SlowStep(s, t, choice).pcs[t], max, wait)
  {}

  lemma StepServes(s: State, step: Step, t: nat, max: nat, wait: bool)
    requires Enabled(s, step) && t < |s.pcs| && !s.pcs[t].Idle? && Serves(s.pcs[t], max, wait)
    ensures |Do(s, step).pcs| == |s.pcs| && Serves(Do(s, step).pcs[t], max, wait)
    ensures Do(s, step).pcs[t] == s.pcs[t] || (step.Run? && step.t == t)
  {
    hide FastStep, SlowStep, SignalStep;
    OnlyOwn(s, step);
    if step.Run? && step.t == t {
      if IsFast(s.pcs[t]) {
        FastServes(s, t, step.choice, max, wait);
      } else {
        SlowServes(s, t, step.choice, max, wait);
      }
    }
  }

  /** A step changes the thread that makes it, and no other. */
  lemma OnlyOwn(s: State, step: Step)
    requires Enabled(s, step)
    ensures |Do(s, step).pcs| == |s.pcs| && Do(s, step).pcs == s.pcs[step.t := Do(s, step).pcs[step.t]]
  {}

  lemma {:induction false} CallKeeps(run: seq<State>, steps: seq<Step>, initial: nat, t: nat, c: nat, i: nat)
    requires IsRun(run, steps, initial) && WaitIn(run, steps, t, c, i)
    ensures t < |run[i].pcs| && Serves(run[i].pcs[t], steps[c].max, steps[c].Wait?)
    decreases i
  {
    hide Do, Enabled, Initial, Serves;
    if i == c + 1 {
      CallServes(run[c], steps[c]);
      StartIn(run, steps, initial, c);
    } else {
      CallKeeps(run, steps, initial, t, c, i - 1);
      StepServes(run[i - 1], steps[i - 1], t, steps[c].max, steps[c].Wait?);
    }
  }

  lemma StartIn(run: seq<State>, steps: seq<Step>, initial: nat, c: nat)
    requires IsRun(run, steps, initial) && c < |steps|
    ensures steps[c].t < |run[c].pcs|
  {}

  // ---------------------------------------------------------------------------
  // What a call returns
  // ---------------------------------------------------------------------------

  /** A successful exchange takes as many permits as there are and the call still wants. */
  lemma ExchangeTakes(s: State, t: nat, choice: Choice)
    requires t < |s.pcs| && (s.pcs[t].TryCas? || s.pcs[t].SpinCas?) && FastStep(s, t, choice).count != s.count
    ensures var s', max := FastStep(s, t, choice), s.pcs[t].max;
      var have := if s.pcs[t].TryCas? then InHand(s.pcs[t].after) else 0;
      && s'.count == s.count - Least(s.count, max) && |s'.pcs| == |s.pcs|
      && s'.pcs[t] == Idle(have + Least(s.count, max))
  {}

  /** How `tryWaitMany` ends. */
  lemma TryReturns(s: State, t: nat, choice: Choice, max: nat)
    requires t < |s.pcs| && !s.pcs[t].Idle? && Serves(s.pcs[t], max, false)
    ensures var s' := ThreadStep(s, t, choice);
      |s'.pcs| == |s.pcs| && (s'.pcs[t].Idle? ==>
        if s.count > 0 then s'.pcs[t].got == Least(s.count, max) && s'.count == s.count - s'.pcs[t].got
        else s'.pcs[t].got == 0 && s'.count == s.count)
  {}

  /**
   Every call of `tryWaitMany(max)`, here made at step `c` and returning with step `j`, returns
   exactly the smaller of `max` and the count at the instant of its last step, which it takes
   off; so it returns nothing only if there was nothing. It never waits.
   */
  lemma TryWaitAnswers(run: seq<State>, steps: seq<Step>, initial: nat, t: nat, c: nat, j: nat)
    requires IsRun(run, steps, initial) && j < |steps| && WaitIn(run, steps, t, c, j + 1) && c < j && steps[c].TryWait?
    requires t < |run[j + 1].pcs| && run[j + 1].pcs[t].Idle?
    ensures var got := run[j + 1].pcs[t].got;
      && got == (if run[j].count > 0 then Least(run[j].count, steps[c].max) else 0)
      && run[j + 1].count == run[j].count - got
    ensures forall l: nat | c < l <= j :: t < |run[l].pcs| && Weight(run[l].pcs[t], Waiting) == 0
  {
    hide Initial, Serves, ThreadStep;
    CallKeeps(run, steps, initial, t, c, j);
    StepServes(run[j], steps[j], t, steps[c].max, false);
    TryReturns(run[j], t, steps[j].choice, steps[c].max);
    forall l: nat | c < l <= j ensures t < |run[l].pcs| && Weight(run[l].pcs[t], Waiting) == 0 {
      CallKeeps(run, steps, initial, t, c, l);
      NotWaiting(run[l].pcs[t], steps[c].max);
    }
  }

  lemma NotWaiting(pc: Pc, max: nat)
    requires Serves(pc, max, false)
    ensures Weight(pc, Waiting) == 0
  {}

  /** How `waitMany` ends: with a permit at least, unless it has timed out and nobody has answered it. */
  lemma WaitReturns(s: State, t: nat, choice: Choice, max: nat)
    requires t < |s.pcs| && !s.pcs[t].Idle? && Serves(s.pcs[t], max, true) && max > 0
    ensures var s' := ThreadStep(s, t, choice);
      && |s'.pcs| == |s.pcs|
      && (s'.pcs[t] == Idle(0) ==> s.pcs[t].RollCas? && s.count < 0 && s'.count == s.count + 1)
      && (s'.pcs[t].Idle? && s'.pcs[t].got < max ==> s'.count <= 0)
  {}

  /** A call is past its time-out. */
  predicate TimedOut(pc: Pc) { pc.RollLoad? || pc.RollTry? || pc.RollCas? }

  lemma OutStep(s: State, t: nat, choice: Choice)
    requires t < |s.pcs| && !s.pcs[t].Idle? && !TimedOut(s.pcs[t])
    ensures var s' := ThreadStep(s, t, choice);
      |s'.pcs| == |s.pcs| && (TimedOut(s'.pcs[t]) ==> s.pcs[t].Blocked? && choice.Stop?)
  {}

  lemma {:induction false} TimeOutSeen(run: seq<State>, steps: seq<Step>, initial: nat, t: nat, c: nat, i: nat)
    returns (k: nat)
    requires IsRun(run, steps, initial) && WaitIn(run, steps, t, c, i) && t < |run[i].pcs| && TimedOut(run[i].pcs[t])
    ensures c < k < i && steps[k] == Run(t, Stop) && t < |run[k].pcs| && run[k].pcs[t].Blocked?
    decreases i
  {
    hide Do, Enabled, Initial, Serves, ThreadStep;
    if i == c + 1 {
      CallServes(run[c], steps[c]);
      CallTries(run[c], steps[c]);
      k := c;
    } else {
      CallKeeps(run, steps, initial, t, c, i - 1);
      StepServes(run[i - 1], steps[i - 1], t, steps[c].max, steps[c].Wait?);
      if TimedOut(run[i - 1].pcs[t]) {
        k := TimeOutSeen(run, steps, initial, t, c, i - 1);
      } else {
        RunIs(run[i - 1], steps[i - 1]);
        OutStep(run[i - 1], t, steps[i - 1].choice);
        k := i - 1;
      }
    }
  }

  lemma CallTries(s: State, step: Step)
    requires Enabled(s, step) && (step.TryWait? || step.Wait?)
    ensures |Do(s, step).pcs| == |s.pcs| && Do(s, step).pcs[step.t].TryLoad?
  {}

  lemma RunIs(s: State, step: Step)
    requires Enabled(s, step) && step.Run?
    ensures Do(s, step) == ThreadStep(s, step.t, step.choice)
  {}

  /**
   Every call of `waitMany(max)`, here made at step `c` and returning with step `j`, returns at
   most `max` permits, leaves none behind if it returns fewer, and returns at least one unless it
   timed out at an instant `k` of that call and left again, unanswered, with the count negative.
   */
  lemma WaitAnswers(run: seq<State>, steps: seq<Step>, initial: nat, t: nat, c: nat, j: nat) returns (k: nat)
    requires IsRun(run, steps, initial) && j < |steps| && WaitIn(run, steps, t, c, j + 1) && c < j
    requires steps[c].Wait? && steps[c].max > 0 && t < |run[j + 1].pcs| && run[j + 1].pcs[t].Idle?
    ensures run[j + 1].pcs[t].got <= steps[c].max
    ensures run[j + 1].pcs[t].got < steps[c].max ==> run[j + 1].count <= 0
    ensures run[j + 1].pcs[t].got == 0 ==>
      && c < k < j && steps[k] == Run(t, Stop) && t < |run[k].pcs| && run[k].pcs[t].Blocked?
      && run[j].count < 0 && run[j + 1].count == run[j].count + 1
  {
    hide Do, Enabled, Initial, ThreadStep;
    CallKeeps(run, steps, initial, t, c, j);
    CallKeeps(run, steps, initial, t, c, j + 1);
    StepServes(run[j], steps[j], t, steps[c].max, true);
    RunIs(run[j], steps[j]);
    WaitReturns(run[j], t, steps[j].choice, steps[c].max);
    k := 0;
    if run[j + 1].pcs[t].got == 0 { k := TimeOutSeen(run, steps, initial, t, c, j); }
  }

  // ---------------------------------------------------------------------------
  // Progress
  // ---------------------------------------------------------------------------

  /** With permits there, a call that runs alone takes what it wants, or all there is, in two steps. */
  lemma AloneTakes(s: State, t: nat, max: nat, wait: bool)
    requires s.count > 0 && t < |s.pcs| && s.pcs[t] == Idle(0)
    ensures var s1 := Do(s, if wait then Wait(t, max) else TryWait(t, max));
      && t < |s1.pcs| && !s1.pcs[t].Idle?
      && var s2 := ThreadStep(s1, t, Go);
      && t < |s2.pcs| && !s2.pcs[t].Idle?
      && var s3 := ThreadStep(s2, t, Go);
      s3.pcs == s.pcs[t := Idle(Least(s.count, max))] && s3.count == s.count - Least(s.count, max)
  {}

  /** So does a call that is spinning. */
  lemma SpinnerTakes(s: State, t: nat)
    requires s.count > 0 && t < |s.pcs| && s.pcs[t].Spin?
    ensures var s1 := ThreadStep(s, t, Go);
      && t < |s1.pcs|
      && var s2 := ThreadStep(s1, t, Go);
      s2.pcs == s.pcs[t := Idle(Least(s.count, s.pcs[t].max))]
      && s2.count == s.count - Least(s.count, s.pcs[t].max)
  {}

  /** A blocked call for which there is a token in the kernel comes back with a permit. */
  lemma SleeperWakes(s: State, t: nat)
    requires s.tokens > 0 && t < |s.pcs| && s.pcs[t].Blocked?
    ensures var s' := ThreadStep(s, t, Go);
      && s'.pcs == s.pcs[t := if s.pcs[t].max > 1 then TryLoad(s.pcs[t].max - 1, Return(1)) else Idle(1)]
      && s'.tokens == s.tokens - 1
  {}

  /** How many of its own steps a `signal` call still needs. */
  function SignalRank(pc: Pc): nat {
    match pc
    case SignalAdd(n) => n + 1
    case Post(n) => if n == 0 then 1 else n
    case _ => 0
  }

  /** `signal(n)` returns after at most `n + 1` steps, and posts once for each waiter it answers. */
  lemma SignalEnds(s: State, t: nat)
    requires t < |s.pcs| && IsSignal(s.pcs[t])
    ensures var s' := SignalStep(s, t);
      && |s'.pcs| == |s.pcs| && SignalRank(s'.pcs[t]) < SignalRank(s.pcs[t])
      && (IsSignal(s'.pcs[t]) || s'.pcs[t] == Idle(0))
  {}

  // ---------------------------------------------------------------------------
  // The balance of permits
  // ---------------------------------------------------------------------------

  /** The permits that `signal` calls have brought before state `i`. */
  function Signals(steps: seq<Step>, i: nat): nat
    requires i <= |steps|
  {
    if i == 0 then 0 else Signals(steps, i - 1) + if steps[i - 1].Signal? then steps[i - 1].n else 0
  }

  /** The permits that calls have returned before state `i`. */
  ghost function Returned(run: seq<State>, steps: seq<Step>, i: nat): nat
    requires |run| == |steps| + 1 && i <= |steps|
  {
    if i == 0 then 0 else Returned(run, steps, i - 1) + ReturnedBy(run[i - 1], steps[i - 1], run[i])
  }

  function ReturnedBy(s: State, step: Step, s': State): nat {
    if step.Run? && step.t < |s.pcs| && step.t < |s'.pcs| && !s.pcs[step.t].Idle? && s'.pcs[step.t].Idle?
    then s'.pcs[step.t].got else 0
  }

  lemma LedgerStep(s: State, step: Step)
    requires Enabled(s, step)
    ensures var s' := Do(s, step);
      && s'.signalled + Total(s'.pcs, Adding)
         == s.signalled + Total(s.pcs, Adding) + (if step.Signal? then step.n else 0)
      && s'.acquired - Total(s'.pcs, Holding) == s.acquired - Total(s.pcs, Holding) + ReturnedBy(s, step, s')
  {
    OnlyOwn(s, step);
    TotalUpdate(s.pcs, step.t, Do(s, step).pcs[step.t], Adding);
    TotalUpdate(s.pcs, step.t, Do(s, step).pcs[step.t], Holding);
    OwnLedger(s, step);
    hide Total, Do;
  }

  lemma OwnLedger(s: State, step: Step)
    requires Enabled(s, step)
    ensures |Do(s, step).pcs| == |s.pcs|
    ensures var s', a, b := Do(s, step), s.pcs[step.t], Do(s, step).pcs[step.t];
      && s'.signalled + Weight(b, Adding) == s.signalled + Weight(a, Adding) + (if step.Signal? then step.n else 0)
      && s'.acquired - Weight(b, Holding) == s.acquired - Weight(a, Holding) + ReturnedBy(s, step, s')
  {
    hide FastStep, SlowStep, SignalStep;
    if step.Run? {
      if IsFast(s.pcs[step.t]) { FastLedger(s, step.t, step.choice); }
      else if IsSignal(s.pcs[step.t]) { SignalLedger(s, step.t); }
      else { SlowLedger(s, step.t, step.choice); }
    }
  }

  ghost predicate Balances(s: State, s': State, t: nat)
    requires t < |s.pcs| == |s'.pcs|
  {
    var a, b := s.pcs[t], s'.pcs[t];
    && s'.signalled + Weight(b, Adding) == s.signalled + Weight(a, Adding)
    && s'.acquired - Weight(b, Holding) == s.acquired - Weight(a, Holding) + (if b.Idle? then b.got else 0)
  }

  lemma FastLedger(s: State, t: nat, choice: Choice)
    requires t < |s.pcs| && IsFast(s.pcs[t])
    ensures |FastStep(s, t, choice).pcs| == |s.pcs| && Balances(s, FastStep(s, t, choice), t)
  {}

  lemma SlowLedger(s: State, t: nat, choice: Choice)
    requires t < |s.pcs| && !s.pcs[t].Idle? && !IsFast(s.pcs[t]) && !IsSignal(s.pcs[t])
    ensures |SlowStep(s, t, choice).pcs| == |s.pcs| && Balances(s, SlowStep(s, t, choice), t)
  {}

  lemma SignalLedger(s: State, t: nat)
    requires t < |s.pcs| && IsSignal(s.pcs[t])
    ensures |SignalStep(s, t).pcs| == |s.pcs| && Balances(s, SignalStep(s, t), t)
  {}

  lemma {:induction false} LedgerIsCalls(run: seq<State>, steps: seq<Step>, initial: nat, i: nat)
    requires IsRun(run, steps, initial) && i <= |steps|
    ensures run[i].signalled + Total(run[i].pcs, Adding) == initial + Signals(steps, i)
    ensures run[i].acquired == Returned(run, steps, i) + Total(run[i].pcs, Holding)
    decreases i
  {
    if i == 0 {
      IdleTotal(run[0].pcs, Adding);
      IdleTotal(run[0].pcs, Holding);
    } else {
      hide Do, Enabled, Initial, Total, ReturnedBy;
      LedgerIsCalls(run, steps, initial, i - 1);
      LedgerStep(run[i - 1], steps[i - 1]);
    }
  }

  /**
   For the callers: never are more permits returned than were there or signalled; and when
   no call is in progress the count is exactly what is left, with nothing in the kernel.
   */
  lemma PermitsBalance(run: seq<State>, steps: seq<Step>, initial: nat, i: nat)
    requires IsRun(run, steps, initial) && i <= |steps|
    ensures Returned(run, steps, i) <= initial + Signals(steps, i)
    ensures (forall t: nat | t < |run[i].pcs| :: run[i].pcs[t].Idle?) ==>
      run[i].count == initial + Signals(steps, i) - Returned(run, steps, i) && run[i].tokens == 0
  {
    hide Do, Enabled, Initial;
    LedgerIsCalls(run, steps, initial, i);
    Conservation(run, steps, initial, i);
    if forall t: nat | t < |run[i].pcs| :: run[i].pcs[t].Idle? {
      Resting(run[i].pcs, Adding);
      Resting(run[i].pcs, Holding);
      Resting(run[i].pcs, Waiting);
      Resting(run[i].pcs, Posting);
    }
    hide Total;
  }

  lemma {:induction false} Resting(pcs: seq<Pc>, k: Kind)
    requires !k.Having? && forall t: nat | t < |pcs| :: pcs[t].Idle?
    ensures Total(pcs, k) == 0
  {
    if pcs != [] { Resting(pcs[1..], k); }
  }
}
