/**
 The optimistic dequeue with at most two consumers and at most half the index range
 outstanding. While one consumer sleeps between loading `dequeueOvercommit` and reserving,
 only the other one gives reservations back, and that at most twice: once through a call
 that was in flight when the first fell asleep, and once because exactly half the index
 range looks empty, after which nothing moves. So no comparison ever overclaims.
 */
module TwoConsumers {
  import opened Bits
  import opened OptimisticDequeue

  /** As the producer's leeway test guarantees: at most half the index range is outstanding. */
  ghost predicate Bounded(run: seq<State>, w: nat)
    requires w >= 1
  {
    forall i: nat | i < |run| :: run[i].tail - run[i].head <= Pow2(w - 1)
  }

  /** The other consumer, if there is one. */
  function Other(s: State, t: nat): Pc
    requires t < |s.pcs| <= 2
  {
    if |s.pcs| == 2 then s.pcs[1 - t] else Idle([])
  }

  /** No reservation is as big as half the index range `h`. */
  predicate Small(pc: Pc, h: nat) {
    match pc
    case Reserve(_, desired) => desired < h
    case ReloadTail(_, desired, _) => desired < h
    case GiveBackSome(lost, _) => lost < h
    case GiveBackAll(lost) => lost < h
    case _ => true
  }

  /** The sleeper holds `over`, and the other consumer has given nothing back since. */
  predicate Unmoved(s: State, over: nat) {
    s.over == over
  }

  /**
   The call that was in flight when the sleeper loaded `over` is finished, and every later
   call of the other consumer, `pc`, sees the true counters.
   */
  predicate Fresh(s: State, over: nat, pc: Pc, h: nat) {
    && s.over - over < h
    && match pc
       case LoadOver(_, tail) => s.head <= tail <= s.tail
       case LoadOpt(_, tail, o) => s.head <= tail <= s.tail && o == s.over
       case Reserve(o, desired) => o == s.over && desired <= s.tail - s.head
       case ReloadTail(o, desired, mine) => mine - o == s.head && desired <= s.tail - s.head
       case GiveBackSome(_, _) => false
       case GiveBackAll(_) => false
       case _ => true
  }

  /** The queue holds exactly half the index range, which looks empty: the other consumer is stuck. */
  predicate Stuck(s: State, over: nat, pc: Pc, h: nat) {
    && s.tail - s.head == h && s.over - over + Owed(pc, KLost) <= 2 * (h - 1)
    && match pc
       case Idle(_) => true
       case LoadTail(_) => true
       case LoadOver(_, tail) => tail == s.tail
       case LoadOpt(_, tail, o) => tail == s.tail && o == s.over
       case GiveBackAll(_) => true
       case _ => false
  }

  predicate SleeperInv(s: State, over: nat, pc: Pc, h: nat) {
    Unmoved(s, over) || Fresh(s, over, pc, h) || Stuck(s, over, pc, h)
  }

  /** The thread has loaded `over` and not yet reserved. */
  predicate Asleep(pc: Pc) {
    pc.LoadOpt? || pc.Reserve?
  }

  predicate ConsumerInv(s: State, t: nat, w: nat)
    requires t < |s.pcs| <= 2 && w >= 1
  {
    var h := Pow2(w - 1);
    && Small(s.pcs[t], h)
    && (Asleep(s.pcs[t]) ==> SleeperInv(s, s.pcs[t].over, Other(s, t), h))
    && (s.pcs[t].ReloadTail? ==> s.pcs[t].mine - s.pcs[t].over - s.tail <= h)
  }

  ghost predicate PairInv(s: State, w: nat)
    requires w >= 1
  {
    && Inv(s) && |s.pcs| <= 2 && s.tail - s.head <= Pow2(w - 1)
    && forall t: nat | t < |s.pcs| :: ConsumerInv(s, t, w)
  }

  /** A positive answer claims less than half the index range. */
  lemma ClaimIsSmall(count: nat, over: nat, tail: nat, w: nat)
    requires w >= 1 && SeemsAvailable(count, over, tail, w)
    ensures Available(count, over, tail, w) < Pow2(w - 1)
  {
    WrapSub(count, over, w);
    WrapSub(tail, count - over, w);
    WrapSub(count - over, tail, w);
    OppositeWord(tail - (count - over), w);
  }

  /** Exactly half the index range looks empty. */
  lemma HalfLooksEmpty(count: nat, over: nat, tail: nat, w: nat)
    requires w >= 1 && tail - (count - over) == Pow2(w - 1)
    ensures !SeemsAvailable(count, over, tail, w)
  {
    WordsDecideExactly(count, over, tail, w);
  }

  /** While one of two consumers has nothing in flight, the other accounts for every difference. */
  lemma TwoBalance(s: State, t: nat)
    requires Inv(s) && t < |s.pcs| <= 2 && (Asleep(s.pcs[t]) || s.pcs[t].LoadOver?)
    ensures var pc := Other(s, t);
      && s.opt == s.head + s.over + Owed(pc, KPending) + Owed(pc, KWon) + Owed(pc, KLost)
      && s.head + Owed(pc, KWon) <= s.tail
  {
    Conservation(s);
    HeadWithinTail(s);
    forall k: Kind ensures TotalOwed(s.pcs, k) == Owed(Other(s, t), k) {
      if |s.pcs| == 2 {
        assert s.pcs[1..] == [s.pcs[1]];
        assert TotalOwed([s.pcs[1]], k) == Owed(s.pcs[1], k);
      }
    }
    hide Inv;
  }

  // ---------------------------------------------------------------------------
  // Steps of the other consumer
  // ---------------------------------------------------------------------------

  /** Nothing was given back before the step; a call may give back less than half the range. */
  lemma UnmovedStep(s: State, t: nat, w: nat, over: nat)
    requires Enabled(s, Run(t)) && w >= 1 && Unmoved(s, over) && Small(s.pcs[t], Pow2(w - 1))
    requires Pow2(w - 1) > 0
    ensures var s' := ThreadStep(s, t, w); SleeperInv(s', over, s'.pcs[t], Pow2(w - 1))
  {
    hide SeemsAvailable, Available, Resolve, Pow2;
  }

  lemma StuckStep(s: State, t: nat, w: nat, over: nat)
    requires Enabled(s, Run(t)) && w >= 1 && Stuck(s, over, s.pcs[t], Pow2(w - 1))
    requires s.pcs[t].LoadOpt? ==> s.opt == s.head + s.over
    ensures var s' := ThreadStep(s, t, w); Stuck(s', over, s'.pcs[t], Pow2(w - 1))
  {
    if s.pcs[t].LoadOpt? { HalfLooksEmpty(s.opt, s.over, s.tail, w); }
    hide SeemsAvailable, Available, Resolve, Pow2;
  }

  /** A later call reserves no more than is there, and gets it, unless half the index range is there. */
  lemma FreshStep(s: State, t: nat, w: nat, over: nat)
    requires Enabled(s, Run(t)) && w >= 1 && Fresh(s, over, s.pcs[t], Pow2(w - 1)) && Small(s.pcs[t], Pow2(w - 1))
    requires s.head <= s.tail <= s.head + Pow2(w - 1)
    requires s.pcs[t].LoadOpt? || s.pcs[t].Reserve? ==> s.opt == s.head + s.over
    requires s.pcs[t].ReloadTail? ==> s.pcs[t].desired > 0
    ensures var s' := ThreadStep(s, t, w); SleeperInv(s', over, s'.pcs[t], Pow2(w - 1))
  {
    hide SeemsAvailable, Available, Resolve, Pow2;
    match s.pcs[t]
    case LoadOpt(_, tail, o) => NeverOverclaims(s.opt, o, tail, w);
    case ReloadTail(o, _, mine) =>
      if s.tail - s.head == Pow2(w - 1) {
        HalfLooksEmpty(mine, o, s.tail, w);
      } else {
        WordsDecideTruly(mine, o, s.tail, w);
      }
    case _ =>
  }

  /** Whatever the other consumer does, the sleeper's reservation will not overclaim. */
  lemma OtherStep(s: State, a: nat, t: nat, w: nat)
    requires w >= 1 && PairInv(s, w) && Enabled(s, Run(t)) && a < |s.pcs| && a != t && Asleep(s.pcs[a])
    ensures var s' := ThreadStep(s, t, w); SleeperInv(s', s.pcs[a].over, s'.pcs[t], Pow2(w - 1))
  {
    assert ConsumerInv(s, a, w) && ConsumerInv(s, t, w);
    assert ThreadInv(s, t);
    TwoBalance(s, a);
    hide SeemsAvailable, Available, Resolve, Pow2, Inv;
    var over := s.pcs[a].over;
    if Unmoved(s, over) {
      UnmovedStep(s, t, w, over);
    } else if Fresh(s, over, s.pcs[t], Pow2(w - 1)) {
      FreshStep(s, t, w, over);
    } else {
      StuckStep(s, t, w, over);
    }
  }

  /** A sleeper that wakes up reserves at a count that is not too far ahead of the tail. */
  lemma WakesInWindow(s: State, t: nat, w: nat)
    requires w >= 1 && PairInv(s, w) && t < |s.pcs| && s.pcs[t].Reserve?
    ensures s.opt - s.pcs[t].over - s.tail <= Pow2(w - 1)
  {
    assert ConsumerInv(s, t, w);
    if |s.pcs| == 2 { assert ConsumerInv(s, 1 - t, w); }
    TwoBalance(s, t);
    hide Inv, Pow2;
  }

  // ---------------------------------------------------------------------------
  // The invariant
  // ---------------------------------------------------------------------------

  lemma OwnStep(s: State, t: nat, w: nat)
    requires w >= 1 && PairInv(s, w) && Enabled(s, Run(t))
    ensures |ThreadStep(s, t, w).pcs| == |s.pcs| && ConsumerInv(ThreadStep(s, t, w), t, w)
  {
    hide SeemsAvailable, Available, Resolve, Pow2;
    assert ConsumerInv(s, t, w);
    match s.pcs[t]
    case LoadOpt(_, tail, over) =>
      if SeemsAvailable(s.opt, over, tail, w) { ClaimIsSmall(s.opt, over, tail, w); }
    case Reserve(_, _) => WakesInWindow(s, t, w);
    case _ =>
  }

  /** A step of one consumer does not touch the other. */
  lemma Others(s: State, t: nat, w: nat, u: nat)
    requires w >= 1 && Enabled(s, Run(t)) && u < |s.pcs| && u != t
    ensures var s' := ThreadStep(s, t, w); |s'.pcs| == |s.pcs| && s'.pcs[u] == s.pcs[u] && s'.tail == s.tail
  {
    hide SeemsAvailable, Available, Resolve;
  }

  lemma RunKeeps(s: State, t: nat, w: nat, u: nat)
    requires w >= 1 && PairInv(s, w) && Enabled(s, Run(t)) && u < |s.pcs|
    ensures |ThreadStep(s, t, w).pcs| == |s.pcs| && ConsumerInv(ThreadStep(s, t, w), u, w)
  {
    OwnStep(s, t, w);
    hide ThreadStep, Pow2, Inv, SleeperInv;
    if u != t {
      assert ConsumerInv(s, u, w);
      if Asleep(s.pcs[u]) { OtherStep(s, u, t, w); }
      Others(s, t, w, u);
    }
  }

  /** Neither the producer nor the start of a call disturbs a sleeper. */
  lemma QuietKeeps(s: State, step: Step, w: nat, u: nat)
    requires w >= 1 && Enabled(s, step) && !step.Run? && u < |s.pcs| <= 2 && ConsumerInv(s, u, w)
    requires Do(s, step, w).tail - Do(s, step, w).head <= Pow2(w - 1)
    ensures |Do(s, step, w).pcs| == |s.pcs| && ConsumerInv(Do(s, step, w), u, w)
  {
    hide Pow2;
  }

  lemma PairStep(s: State, step: Step, w: nat)
    requires w >= 1 && PairInv(s, w) && Enabled(s, step)
    requires Do(s, step, w).tail - Do(s, step, w).head <= Pow2(w - 1)
    ensures Windowed(s, step, w) && PairInv(Do(s, step, w), w)
  {
    assert Windowed(s, step, w) by { if step.Run? { assert ConsumerInv(s, step.t, w); } }
    StepInv(s, step, w);
    hide Inv, Pow2, ThreadStep;
    var s' := Do(s, step, w);
    forall u: nat | u < |s.pcs| ensures |s'.pcs| == |s.pcs| && ConsumerInv(s', u, w) {
      if step.Run? { RunKeeps(s, step.t, w, u); } else { QuietKeeps(s, step, w, u); }
    }
    assert |s'.pcs| == |s.pcs| by {
      if step.Run? { RunKeeps(s, step.t, w, step.t); }
    }
    hide ConsumerInv;
  }

  // ---------------------------------------------------------------------------
  // Runs
  // ---------------------------------------------------------------------------

  /** In a bounded run of at most two consumers no comparison overclaims. */
  lemma {:induction false} PairIsWindowed(run: seq<State>, steps: seq<Step>, w: nat, j: nat)
    requires RawRun(run, steps, w) && Bounded(run, w) && |run[0].pcs| <= 2 && j <= |steps|
    ensures IsRun(run[..j + 1], steps[..j], w) && PairInv(run[j], w)
    decreases j
  {
    hide SeemsAvailable, Available, Resolve, Pow2;
    if j == 0 {
      assert IsRun(run[..1], steps[..0], w);
      RunInv(run[..1], steps[..0], w, 0);
    } else {
      PairIsWindowed(run, steps, w, j - 1);
      assert run[j] == Do(run[j - 1], steps[j - 1], w) && run[j].tail - run[j].head <= Pow2(w - 1);
      PairStep(run[j - 1], steps[j - 1], w);
      Prefixes(run, steps, w, j);
    }
  }

  /**
   With at most two consumers, whatever their batches and however long they sleep: the
   counters balance, the head never passes the tail, and every index is handed out once.
   */
  lemma PairTakesEveryIndexOnce(run: seq<State>, steps: seq<Step>, w: nat, i: nat)
    requires RawRun(run, steps, w) && Bounded(run, w) && |run[0].pcs| <= 2 && i <= |steps|
    ensures OnceEach(run[i])
  {
    PairIsWindowed(run, steps, w, i);
    WindowedOnceEach(run[..i + 1], steps[..i], w, i);
  }
}
