/**
 The optimistic dequeue as its callers see it: every call hands out exactly as many indices
 as the shared counters offered at instants of that call, a call that runs alone gets
 everything it can, the indices that the calls return are 0, 1, 2, ..., and every call
 returns after a bounded number of its own steps.
 */
module DequeueCalls {
  import opened Options
  import opened Bits
  import opened OptimisticDequeue
  import opened TwoConsumers
  import opened CallDemand

  // ---------------------------------------------------------------------------
  // What a call answers
  // ---------------------------------------------------------------------------

  /** The instants at which a call has loaded `tail`, `over` and `opt`, reserved, and decided. */
  datatype Looks = Looks(tailAt: nat, overAt: nat, optAt: nat, reservedAt: nat, decidedAt: nat)

  /** The entry test of the call. */
  ghost predicate Offered(run: seq<State>, w: nat, k: Looks)
    requires w >= 1 && k.tailAt < |run| && k.overAt < |run| && k.optAt < |run|
  {
    SeemsAvailable(run[k.optAt].opt, run[k.overAt].over, run[k.tailAt].tail, w)
  }

  /** How many indices the call reserved after a positive entry test. */
  ghost function Wanted(run: seq<State>, w: nat, k: Looks, max: nat): nat
    requires w >= 1 && k.tailAt < |run| && k.overAt < |run| && k.optAt < |run|
  {
    Min(Available(run[k.optAt].opt, run[k.overAt].over, run[k.tailAt].tail, w), max)
  }

  /** The decision of the call after its reservation. */
  ghost predicate Confirmed(run: seq<State>, w: nat, k: Looks)
    requires w >= 1 && k.overAt < |run| && k.reservedAt < |run| && k.decidedAt < |run|
  {
    SeemsAvailable(run[k.reservedAt].opt, run[k.overAt].over, run[k.decidedAt].tail, w)
  }

  ghost function Won(run: seq<State>, w: nat, k: Looks, max: nat): nat
    requires w >= 1 && k.tailAt < |run| && k.overAt < |run| && k.optAt < |run|
    requires k.reservedAt < |run| && k.decidedAt < |run|
  {
    Min(Wanted(run, w, k, max), Available(run[k.reservedAt].opt, run[k.overAt].over, run[k.decidedAt].tail, w))
  }

  ghost predicate LookedTail(run: seq<State>, c: nat, i: nat, k: Looks, tail: nat)
    requires i < |run|
  {
    c < k.tailAt < i && tail == run[k.tailAt].tail
  }

  ghost predicate LookedOver(run: seq<State>, c: nat, i: nat, k: Looks, over: nat)
    requires i < |run|
  {
    c < k.tailAt < k.overAt < i && over == run[k.overAt].over
  }

  ghost predicate Reserving(run: seq<State>, w: nat, c: nat, i: nat, k: Looks, max: nat, over: nat, desired: nat)
    requires i < |run| && w >= 1
  {
    && LookedOver(run, c, i, k, over) && k.overAt < k.optAt < i
    && Offered(run, w, k) && desired == Wanted(run, w, k, max)
  }

  ghost predicate Reserved(run: seq<State>, w: nat, c: nat, i: nat, k: Looks, max: nat)
    requires i < |run| && w >= 1
  {
    && c < k.tailAt < k.overAt < k.optAt < k.reservedAt < i
    && Offered(run, w, k)
  }

  ghost predicate Decided(run: seq<State>, w: nat, c: nat, i: nat, k: Looks, max: nat)
    requires i < |run| && w >= 1
  {
    Reserved(run, w, c, i, k, max) && k.reservedAt < k.decidedAt < i
  }

  /** What a thread knows in the course of its call of `max` elements, made at step `c`, in state `i`. */
  ghost predicate Knows(run: seq<State>, w: nat, c: nat, i: nat, k: Looks, max: nat, pc: Pc)
    requires i < |run| && w >= 1
  {
    match pc
    case Idle(got) => Answers(run, w, c, i, k, max, |got|)
    case LoadTail(m) => m == max
    case LoadOver(m, tail) => m == max && LookedTail(run, c, i, k, tail)
    case LoadOpt(m, tail, over) => m == max && LookedTail(run, c, i, k, tail) && LookedOver(run, c, i, k, over)
    case Reserve(over, desired) => Reserving(run, w, c, i, k, max, over, desired)
    case ReloadTail(over, desired, mine) =>
      && Reserved(run, w, c, i, k, max) && over == run[k.overAt].over && desired == Wanted(run, w, k, max)
      && mine == run[k.reservedAt].opt
    case GiveBackSome(_, actual) =>
      Decided(run, w, c, i, k, max) && Confirmed(run, w, k) && actual == Won(run, w, k, max)
    case TakeIndices(actual) =>
      Decided(run, w, c, i, k, max) && Confirmed(run, w, k) && actual == Won(run, w, k, max)
    case GiveBackAll(_) => Decided(run, w, c, i, k, max) && !Confirmed(run, w, k)
  }

  /** The number of indices that a call returns, in terms of what it looked at. */
  ghost predicate Answers(run: seq<State>, w: nat, c: nat, i: nat, k: Looks, max: nat, got: nat)
    requires i < |run| && w >= 1
  {
    && c < k.tailAt < k.overAt < k.optAt < i
    && if !Offered(run, w, k) then got == 0
       else
         && k.optAt < k.reservedAt < k.decidedAt < i
         && got == if Confirmed(run, w, k) then Won(run, w, k, max) else 0
  }

  /** Thread `t` is in a call of `max` elements from step `c` on, until just before state `i`. */
  ghost predicate DequeueIn(run: seq<State>, steps: seq<Step>, t: nat, max: nat, c: nat, i: nat)
    requires |run| == |steps| + 1
  {
    && c < i <= |steps| && steps[c] == Dequeue(t, max)
    && forall l: nat | c < l < i :: t < |run[l].pcs| && !run[l].pcs[t].Idle?
  }

  /** What the thread's own step adds to its knowledge. */
  function Looking(pc: Pc, k: Looks, i: nat): Looks {
    match pc
    case LoadTail(_) => k.(tailAt := i)
    case LoadOver(_, _) => k.(overAt := i)
    case LoadOpt(_, _, _) => k.(optAt := i)
    case Reserve(_, _) => k.(reservedAt := i)
    case ReloadTail(_, _, _) => k.(decidedAt := i)
    case _ => k
  }

  lemma LearnsStep(run: seq<State>, steps: seq<Step>, w: nat, c: nat, i: nat, t: nat, k: Looks, max: nat)
    requires RawRun(run, steps, w) && c < i < |steps| && t < |run[i].pcs| && !run[i].pcs[t].Idle?
    requires Knows(run, w, c, i, k, max, run[i].pcs[t]) && steps[i] == Run(t)
    ensures t < |run[i + 1].pcs|
    ensures Knows(run, w, c, i + 1, Looking(run[i].pcs[t], k, i), max, run[i + 1].pcs[t])
  {
    hide SeemsAvailable, Available, Resolve, Initial;
    assert run[i + 1] == ThreadStep(run[i], t, w);
  }

  lemma OtherKnows(run: seq<State>, w: nat, c: nat, i: nat, k: Looks, max: nat, pc: Pc)
    requires w >= 1 && i + 1 < |run| && Knows(run, w, c, i, k, max, pc)
    ensures Knows(run, w, c, i + 1, k, max, pc)
  {
    hide SeemsAvailable, Available;
  }

  /** Steps of others leave the thread where it is. */
  lemma OthersKeep(s: State, step: Step, w: nat, t: nat)
    requires Enabled(s, step) && w >= 1 && t < |s.pcs| && !s.pcs[t].Idle? && step != Run(t)
    ensures t < |Do(s, step, w).pcs| && Do(s, step, w).pcs[t] == s.pcs[t]
  {
    hide SeemsAvailable, Available, Resolve;
  }

  lemma CallStarts(run: seq<State>, steps: seq<Step>, w: nat, t: nat, max: nat, c: nat, k: Looks)
    requires RawRun(run, steps, w) && c < |steps| && steps[c] == Dequeue(t, max)
    ensures t < |run[c + 1].pcs| && Knows(run, w, c, c + 1, k, max, run[c + 1].pcs[t])
  {
    hide Initial;
    assert run[c + 1] == Do(run[c], steps[c], w);
  }

  lemma {:induction false} CallKnows(
    run: seq<State>, steps: seq<Step>, w: nat, t: nat, max: nat, c: nat, i: nat)
    returns (k: Looks)
    requires RawRun(run, steps, w) && DequeueIn(run, steps, t, max, c, i)
    ensures t < |run[i].pcs| && Knows(run, w, c, i, k, max, run[i].pcs[t])
    decreases i
  {
    hide Do, Enabled, Initial, Knows;
    if i == c + 1 {
      k := Looks(0, 0, 0, 0, 0);
      CallStarts(run, steps, w, t, max, c, k);
    } else {
      k := CallKnows(run, steps, w, t, max, c, i - 1);
      if steps[i - 1] == Run(t) {
        LearnsStep(run, steps, w, c, i - 1, t, k, max);
        k := Looking(run[i - 1].pcs[t], k, i - 1);
      } else {
        OthersKeep(run[i - 1], steps[i - 1], w, t);
        OtherKnows(run, w, c, i - 1, k, max, run[i - 1].pcs[t]);
      }
    }
  }

  /**
   Every call, here made at step `c` for `max` elements and returning with step `j`: the
   number of indices it hands out is exactly what the counters offered when it looked, at most
   `max`; it is none only if the words said at the entry test or at the decision that there
   was nothing.
   */
  lemma CallAnswers(run: seq<State>, steps: seq<Step>, w: nat, t: nat, max: nat, c: nat, j: nat)
    returns (k: Looks)
    requires RawRun(run, steps, w) && j < |steps| && DequeueIn(run, steps, t, max, c, j + 1)
    requires t < |run[j + 1].pcs| && run[j + 1].pcs[t].Idle?
    ensures Answers(run, w, c, j + 1, k, max, |run[j + 1].pcs[t].got|)
    ensures |run[j + 1].pcs[t].got| <= max
    ensures run[j + 1].pcs[t].got == [] && max > 0 ==>
      !Offered(run, w, k) || (k.decidedAt <= j && k.reservedAt <= j && !Confirmed(run, w, k))
  {
    k := CallKnows(run, steps, w, t, max, c, j + 1);
    hide SeemsAvailable, Available, Do, Enabled, Initial;
    if Offered(run, w, k) {
      SeemsMeansSome(run[k.optAt].opt, run[k.overAt].over, run[k.tailAt].tail, w);
      if Confirmed(run, w, k) {
        SeemsMeansSome(run[k.reservedAt].opt, run[k.overAt].over, run[k.decidedAt].tail, w);
      }
    }
  }

  // ---------------------------------------------------------------------------
  // The indices that calls return
  // ---------------------------------------------------------------------------

  /** The indices that calls have returned before state `i`, in the order of their returns. */
  ghost function Handed(run: seq<State>, steps: seq<Step>, i: nat): seq<nat>
    requires |run| == |steps| + 1 && i <= |steps|
  {
    if i == 0 then []
    else Handed(run, steps, i - 1) + Returned(run[i - 1], steps[i - 1], run[i])
  }

  /** What a call returns with this step. */
  function Returned(s: State, step: Step, s': State): seq<nat> {
    if step.Run? && step.t < |s.pcs| && step.t < |s'.pcs| && !s.pcs[step.t].Idle? && s'.pcs[step.t].Idle?
    then s'.pcs[step.t].got else []
  }

  lemma GivenStep(s: State, step: Step, w: nat)
    requires Enabled(s, step) && w >= 1
    ensures Do(s, step, w).given == s.given + Returned(s, step, Do(s, step, w))
  {
    hide SeemsAvailable, Available, Resolve, Indices;
  }

  lemma {:induction false} HandedIsGiven(run: seq<State>, steps: seq<Step>, w: nat, i: nat)
    requires RawRun(run, steps, w) && i <= |steps|
    ensures Handed(run, steps, i) == run[i].given
    decreases i
  {
    if i > 0 {
      HandedIsGiven(run, steps, w, i - 1);
      GivenStep(run[i - 1], steps[i - 1], w);
    }
  }

  /** How many elements the producer has published before state `i`. */
  function Published(steps: seq<Step>, i: nat): nat
    requires i <= |steps|
  {
    if i == 0 then 0 else Published(steps, i - 1) + if steps[i - 1].Publish? then steps[i - 1].count else 0
  }

  lemma {:induction false} TailIsPublished(run: seq<State>, steps: seq<Step>, w: nat, i: nat)
    requires RawRun(run, steps, w) && i <= |steps|
    ensures run[i].tail == Published(steps, i)
    decreases i
  {
    if i > 0 {
      TailIsPublished(run, steps, w, i - 1);
      TailStep(run[i - 1], steps[i - 1], w);
    }
  }

  lemma TailStep(s: State, step: Step, w: nat)
    requires Enabled(s, step) && w >= 1
    ensures Do(s, step, w).tail == s.tail + if step.Publish? then step.count else 0
  {
    hide SeemsAvailable, Available, Resolve, Indices;
  }

  /**
   For the callers: with at most two consumers and at most half the index range outstanding,
   or with any number of gentle ones, the indices that the calls return are 0, 1, 2, ... in the
   order of their returns, each published by then.
   */
  lemma CallersGetEachOnce(run: seq<State>, steps: seq<Step>, w: nat, i: nat)
    requires RawRun(run, steps, w) && i <= |steps|
    requires (Bounded(run, w) && |run[0].pcs| <= 2) || Gentle(run, steps, w)
    ensures var handed := Handed(run, steps, i);
      && |handed| == run[i].head <= Published(steps, i)
      && forall j: nat | j < |handed| :: handed[j] == j
  {
    hide Do, Enabled, Initial, Bounded, Gentle;
    TailIsPublished(run, steps, w, i);
    HandedIsGiven(run, steps, w, i);
    if Bounded(run, w) && |run[0].pcs| <= 2 {
      PairTakesEveryIndexOnce(run, steps, w, i);
    } else {
      GentleTakesEveryIndexOnce(run, steps, w, i);
    }
  }

  // ---------------------------------------------------------------------------
  // Calls that run alone, and all calls
  // ---------------------------------------------------------------------------

  /** The state after thread `t` has run alone until its call returned, or for `fuel` steps. */
  ghost function Alone(s: State, t: nat, w: nat, fuel: nat): State
    requires w >= 1
    decreases fuel
  {
    if fuel == 0 || !Enabled(s, Run(t)) then s else Alone(Do(s, Run(t), w), t, w, fuel - 1)
  }

  /** A call that nobody disturbs, about to take `d` indices. */
  ghost predicate OnTrack(s: State, t: nat, max: nat, d: nat) {
    && t < |s.pcs| && s.head <= s.tail && d == Min(max, s.tail - s.head)
    && match s.pcs[t]
       case LoadTail(m) => m == max && s.opt - s.over == s.head
       case LoadOver(m, tail) => m == max && tail == s.tail && s.opt - s.over == s.head
       case LoadOpt(m, tail, over) => m == max && tail == s.tail && over == s.over && s.opt - s.over == s.head
       case Reserve(over, desired) => over == s.over && desired == d > 0 && s.opt - s.over == s.head
       case ReloadTail(over, desired, mine) => over == s.over && desired == d > 0 && mine - over == s.head
       case TakeIndices(actual) => actual == d > 0
       case _ => false
  }

  lemma TrackStep(s: State, t: nat, w: nat, max: nat, d: nat)
    requires OnTrack(s, t, max, d) && w >= 1 && max > 0 && s.tail - s.head < Pow2(w - 1) && Enabled(s, Run(t))
    ensures var s' := Do(s, Run(t), w);
      && t < |s'.pcs| && s'.tail == s.tail
      && if OnTrack(s', t, max, d) then s'.head == s.head && s'.given == s.given
         else
           && s'.pcs[t] == Idle(Indices(s.head, d)) && s'.head == s.head + d
           && s'.given == s.given + Indices(s.head, d)
  {
    match s.pcs[t] {
      case LoadOpt(_, tail, over) => WordsDecideTruly(s.opt, over, tail, w);
      case ReloadTail(over, _, mine) => WordsDecideTruly(mine, over, s.tail, w);
      case _ =>
    }
    hide SeemsAvailable, Available, Resolve, Pow2;
    assert Indices(s.head, 0) == [];
  }

  lemma {:induction false} TrackAlone(s: State, t: nat, w: nat, max: nat, d: nat, fuel: nat)
    requires Inv(s) && OnTrack(s, t, max, d) && w >= 1 && max > 0 && s.tail - s.head < Pow2(w - 1)
    requires Rank(s.pcs[t]) <= fuel
    ensures var s' := Alone(s, t, w, fuel);
      && t < |s'.pcs| && s'.pcs[t] == Idle(Indices(s.head, d)) && s'.tail == s.tail
      && s'.head == s.head + d && s'.given == s.given + Indices(s.head, d)
    decreases fuel
  {
    hide Do, Inv, OnTrack, Pow2, Indices;
    CanRun(s, t, max, d);
    TrackStep(s, t, w, max, d);
    RankFalls(s, Run(t), w, t);
    TrackInv(s, t, w, max, d);
    var s1 := Do(s, Run(t), w);
    if OnTrack(s1, t, max, d) { TrackAlone(s1, t, w, max, d, fuel - 1); }
  }

  lemma CanRun(s: State, t: nat, max: nat, d: nat)
    requires Inv(s) && OnTrack(s, t, max, d)
    ensures Enabled(s, Run(t)) && t < |s.pcs|
  {
    hide Count, LostBefore;
    assert ThreadInv(s, t);
  }

  lemma TrackInv(s: State, t: nat, w: nat, max: nat, d: nat)
    requires Inv(s) && OnTrack(s, t, max, d) && w >= 1 && Enabled(s, Run(t))
    ensures Inv(Do(s, Run(t), w))
  {
    hide Inv;
    StepInv(s, Run(t), w);
  }

  /**
   With no other call in flight and less than half the index range outstanding, a call that
   runs alone takes exactly what it asks for, or everything that is there.
   */
  lemma AloneTakesAll(s: State, t: nat, w: nat, max: nat)
    requires Inv(s) && w >= 1 && Enabled(s, Dequeue(t, max)) && s.tail - s.head < Pow2(w - 1)
    requires forall u: nat | u < |s.pcs| :: s.pcs[u].Idle?
    ensures s.head <= s.tail
    ensures var s', d := Alone(Do(s, Dequeue(t, max), w), t, w, 7), Min(max, s.tail - s.head);
      && t < |s'.pcs| && s'.pcs[t] == Idle(Indices(s.head, d)) && s'.tail == s.tail
      && s'.head == s.head + d && s'.given == s.given + Indices(s.head, d)
  {
    Conservation(s);
    NothingOwed(s.pcs, KPending);
    NothingOwed(s.pcs, KWon);
    NothingOwed(s.pcs, KLost);
    HeadWithinTail(s);
    StepInv(s, Dequeue(t, max), w);
    hide Inv, Alone, Indices, Pow2;
    TrackAlone(Do(s, Dequeue(t, max), w), t, w, max, Min(max, s.tail - s.head), 7);
  }

  /** How many of its own steps a call needs at most. */
  function Rank(pc: Pc): nat {
    match pc
    case Idle(_) => 0
    case LoadTail(_) => 7
    case LoadOver(_, _) => 6
    case LoadOpt(_, _, _) => 5
    case Reserve(_, _) => 4
    case ReloadTail(_, _, _) => 3
    case GiveBackSome(_, _) => 2
    case TakeIndices(_) => 1
    case GiveBackAll(_) => 1
  }

  lemma RankFalls(s: State, step: Step, w: nat, t: nat)
    requires Enabled(s, step) && w >= 1 && t < |s.pcs|
    ensures t < |Do(s, step, w).pcs|
    ensures var pc' := Do(s, step, w).pcs[t];
      match step
      case Publish(_) => pc' == s.pcs[t]
      case Dequeue(u, _) => if u == t then Rank(pc') == 7 else pc' == s.pcs[t]
      case Run(u) => if u == t then Rank(pc') < Rank(s.pcs[t]) else pc' == s.pcs[t]
  {
    hide SeemsAvailable, Available, Resolve, Indices;
  }

  /** The steps of thread `t` between states `c` and `i`. */
  function OwnSteps(steps: seq<Step>, t: nat, c: nat, i: nat): nat
    requires c <= i <= |steps|
  {
    if c == i then 0 else OwnSteps(steps, t, c, i - 1) + if steps[i - 1] == Run(t) then 1 else 0
  }

  /** Wait-free: however the threads interleave, a call returns with its seventh step at the latest. */
  lemma {:induction false} WaitFree(run: seq<State>, steps: seq<Step>, w: nat, t: nat, max: nat, c: nat, i: nat)
    requires RawRun(run, steps, w) && DequeueIn(run, steps, t, max, c, i)
    ensures t < |run[i].pcs| && OwnSteps(steps, t, c, i) + Rank(run[i].pcs[t]) <= 7
    decreases i
  {
    hide Do, Initial;
    RankFalls(run[i - 1], steps[i - 1], w, t) by {
      if c + 1 < i { assert t < |run[i - 1].pcs|; }
    }
    if c + 1 < i { WaitFree(run, steps, w, t, max, c, i - 1); }
  }
}
