/**
 When the optimistic dequeue is safe for any number of consumers, in terms of their calls:
 the sizes that the calls overlapping any one call ask for add up to at most half the index
 range.
 */
module CallDemand {
  import opened Bits
  import opened OptimisticDequeue

  /** What the call asks for that thread `t` has in progress in state `i`; 0 without a call. */
  ghost function Asked(run: seq<State>, steps: seq<Step>, t: nat, i: nat): nat
    requires |run| == |steps| + 1 && i < |run|
  {
    if i == 0 || t >= |run[i].pcs| || run[i].pcs[t].Idle? then 0
    else if steps[i - 1].Dequeue? && steps[i - 1].t == t then steps[i - 1].max
    else Asked(run, steps, t, i - 1)
  }

  /** What the calls in progress in state `i` ask for, over the first `n` threads. */
  ghost function InProgress(run: seq<State>, steps: seq<Step>, n: nat, i: nat): nat
    requires |run| == |steps| + 1 && i < |run|
  {
    if n == 0 then 0 else InProgress(run, steps, n - 1, i) + Asked(run, steps, n - 1, i)
  }

  /** What the calls ask for that start between states `i` and `j`. */
  function Started(steps: seq<Step>, i: nat, j: nat): nat
    requires i <= j <= |steps|
  {
    if i == j then 0
    else Started(steps, i, j - 1) + if steps[j - 1].Dequeue? then steps[j - 1].max else 0
  }

  /** The calls that overlap any one call ask for at most half the index range. */
  ghost predicate Gentle(run: seq<State>, steps: seq<Step>, w: nat)
    requires w >= 1 && |run| == |steps| + 1
  {
    forall t: nat, i: nat, j: nat | i <= j < |run| && Busy(run, t, i, j) ::
      InProgress(run, steps, |run[i].pcs|, i) + Started(steps, i, j) <= Pow2(w - 1)
  }

  /** What a thread may still reserve, or has reserved and not yet entered in the shared counters. */
  function Open(pc: Pc): nat {
    match pc
    case Idle(_) => 0
    case LoadTail(max) => max
    case LoadOver(max, _) => max
    case LoadOpt(max, _, _) => max
    case Reserve(_, desired) => desired
    case ReloadTail(_, desired, _) => desired
    case GiveBackSome(lost, actual) => lost + actual
    case TakeIndices(actual) => actual
    case GiveBackAll(lost) => lost
  }

  function TotalOpen(pcs: seq<Pc>): nat {
    if pcs == [] then 0 else TotalOpen(pcs[..|pcs| - 1]) + Open(pcs[|pcs| - 1])
  }

  lemma {:induction false} OpenUpdate(pcs: seq<Pc>, t: nat, pc: Pc)
    requires t < |pcs|
    ensures TotalOpen(pcs[t := pc]) + Open(pcs[t]) == TotalOpen(pcs) + Open(pc)
  {
    var n := |pcs| - 1;
    if t == n {
      assert pcs[t := pc][..n] == pcs[..n];
    } else {
      OpenUpdate(pcs[..n], t, pc);
      assert pcs[t := pc][..n] == pcs[..n][t := pc];
    }
  }

  lemma {:induction false} OwedSnoc(pcs: seq<Pc>, pc: Pc, k: Kind)
    ensures TotalOwed(pcs + [pc], k) == TotalOwed(pcs, k) + Owed(pc, k)
  {
    if pcs == [] {
      assert [pc][1..] == [];
    } else {
      OwedSnoc(pcs[1..], pc, k);
      assert (pcs + [pc])[1..] == pcs[1..] + [pc];
    }
  }

  lemma {:induction false} OwedIsOpen(pcs: seq<Pc>)
    ensures TotalOwed(pcs, KPending) + TotalOwed(pcs, KWon) + TotalOwed(pcs, KLost) <= TotalOpen(pcs)
    decreases |pcs|
  {
    if pcs != [] {
      var n := |pcs| - 1;
      OwedIsOpen(pcs[..n]);
      assert pcs == pcs[..n] + [pcs[n]];
      forall k: Kind ensures TotalOwed(pcs, k) == TotalOwed(pcs[..n], k) + Owed(pcs[n], k) {
        OwedSnoc(pcs[..n], pcs[n], k);
      }
    }
  }

  /** No step adds to what is given back or open, but for the start of a call. */
  lemma OpenStep(s: State, step: Step, w: nat)
    requires Enabled(s, step) && w >= 1
    ensures var s' := Do(s, step, w);
      s'.over + TotalOpen(s'.pcs) <= s.over + TotalOpen(s.pcs) + if step.Dequeue? then step.max else 0
  {
    hide SeemsAvailable, Available, Resolve, TotalOpen;
    if !step.Publish? { OpenUpdate(s.pcs, step.t, Do(s, step, w).pcs[step.t]); }
  }

  lemma {:induction false} OpenSince(run: seq<State>, steps: seq<Step>, w: nat, i: nat, j: nat)
    requires RawRun(run, steps, w) && i <= j <= |steps|
    ensures run[j].over + TotalOpen(run[j].pcs) <= run[i].over + TotalOpen(run[i].pcs) + Started(steps, i, j)
    decreases j
  {
    if i < j {
      OpenSince(run, steps, w, i, j - 1);
      OpenStep(run[j - 1], steps[j - 1], w);
      hide Do, TotalOpen;
    }
  }

  /** How a thread's own share changes. */
  lemma OpenShrinks(s: State, step: Step, w: nat, t: nat)
    requires Enabled(s, step) && w >= 1 && t < |s.pcs|
    ensures |Do(s, step, w).pcs| == |s.pcs|
    ensures var pc, pc' := s.pcs[t], Do(s, step, w).pcs[t];
      if step.Dequeue? && step.t == t then Open(pc') == step.max
      else Open(pc') <= Open(pc) && (pc.Idle? ==> pc'.Idle?)
  {
    hide SeemsAvailable, Available, Resolve;
  }

  lemma {:induction false} OpenIsAsked(run: seq<State>, steps: seq<Step>, w: nat, t: nat, i: nat)
    requires RawRun(run, steps, w) && i <= |steps| && t < |run[i].pcs|
    ensures Open(run[i].pcs[t]) <= Asked(run, steps, t, i)
    decreases i
  {
    if i > 0 {
      hide ThreadStep, Open;
      assert |run[i].pcs| == |run[i - 1].pcs| by { SameThreads(run[i - 1], steps[i - 1], w); }
      OpenShrinks(run[i - 1], steps[i - 1], w, t);
      OpenIsAsked(run, steps, w, t, i - 1);
      if run[i].pcs[t].Idle? { assert Open(run[i].pcs[t]) == 0; }
    }
  }

  lemma SameThreads(s: State, step: Step, w: nat)
    requires Enabled(s, step) && w >= 1
    ensures |Do(s, step, w).pcs| == |s.pcs|
  {
    hide SeemsAvailable, Available, Resolve;
  }

  lemma {:induction false} TotalIsAsked(run: seq<State>, steps: seq<Step>, w: nat, n: nat, i: nat)
    requires RawRun(run, steps, w) && i <= |steps| && n <= |run[i].pcs|
    ensures TotalOpen(run[i].pcs[..n]) <= InProgress(run, steps, n, i)
    decreases n
  {
    if n > 0 {
      TotalIsAsked(run, steps, w, n - 1, i);
      OpenIsAsked(run, steps, w, n - 1, i);
      assert run[i].pcs[..n][..n - 1] == run[i].pcs[..n - 1];
    }
  }

  /** Gentle callers make calm runs. */
  lemma GentleIsCalm(run: seq<State>, steps: seq<Step>, w: nat)
    requires RawRun(run, steps, w) && Gentle(run, steps, w)
    ensures Calm(run, w)
  {
    forall t: nat, i: nat, j: nat | i <= j < |run| && Busy(run, t, i, j)
      ensures run[j].over - run[i].over + InFlight(run[j]) <= Pow2(w - 1)
    {
      OpenSince(run, steps, w, i, j);
      TotalIsAsked(run, steps, w, |run[i].pcs|, i);
      assert run[i].pcs[..|run[i].pcs|] == run[i].pcs;
      OwedIsOpen(run[j].pcs);
    }
  }

  /** For any number of gentle consumers every index is handed out once. */
  lemma GentleTakesEveryIndexOnce(run: seq<State>, steps: seq<Step>, w: nat, i: nat)
    requires RawRun(run, steps, w) && Gentle(run, steps, w) && i <= |steps|
    ensures OnceEach(run[i])
  {
    GentleIsCalm(run, steps, w);
    EveryIndexOnce(run, steps, w, i);
  }
}
