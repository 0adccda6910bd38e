/**
 Why the optimistic dequeue is not safe for every number of consumers: one that sleeps
 between loading `dequeueOvercommit` and reserving, while two others give back more than half
 the index range of reservations, takes an index that the producer has not published.
 */
module OvercommitRace {
  import opened Bits
  import opened OptimisticDequeue
  import opened TwoConsumers

  ghost function Last(run: seq<State>): State
    requires run != []
  {
    run[|run| - 1]
  }

  /** A run of `n` consumers in which at most one element is outstanding at any time. */
  ghost predicate Lean(run: seq<State>, steps: seq<Step>, w: nat, n: nat) {
    && RawRun(run, steps, w) && |run[0].pcs| == n
    && forall i: nat | i < |run| :: run[i].tail - run[i].head <= 1
  }

  lemma Go(run: seq<State>, steps: seq<Step>, w: nat, n: nat, step: Step) returns (run': seq<State>, steps': seq<Step>)
    requires Lean(run, steps, w, n) && Enabled(Last(run), step)
    requires Do(Last(run), step, w).tail - Do(Last(run), step, w).head <= 1
    ensures Lean(run', steps', w, n) && Last(run') == Do(Last(run), step, w)
  {
    run', steps' := run + [Do(Last(run), step, w)], steps + [step];
  }

  /** An idle thread calls `dequeue` and passes the entry test. */
  lemma Enter(run: seq<State>, steps: seq<Step>, w: nat, n: nat, t: nat) returns (run': seq<State>, steps': seq<Step>)
    requires Lean(run, steps, w, n) && w >= 2 && t < |Last(run).pcs| && Last(run).pcs[t].Idle?
    requires Last(run).opt - Last(run).over == Last(run).tail - 1
    ensures Lean(run', steps', w, n)
    ensures Last(run') == SetPc(Last(run), t, Reserve(Last(run).over, 1))
  {
    var s := Last(run);
    assert w >= 1;
    hide Lean, SeemsAvailable, Available;
    WordsDecideTruly(s.opt, s.over, s.tail, w) by { assert Pow2(w - 1) >= 2; }
    run', steps' := Go(run, steps, w, n, Dequeue(t, 1));
    assert Last(run') == SetPc(s, t, LoadTail(1));
    run', steps' := Go(run', steps', w, n, Run(t));
    assert Last(run') == SetPc(s, t, LoadOver(1, s.tail));
    run', steps' := Go(run', steps', w, n, Run(t));
    assert Last(run') == SetPc(s, t, LoadOpt(1, s.tail, s.over));
    run', steps' := Go(run', steps', w, n, Run(t));
  }

  /** A thread that has passed the entry test reserves, reloads the tail and wins an index. */
  lemma Win(run: seq<State>, steps: seq<Step>, w: nat, n: nat, t: nat) returns (run': seq<State>, steps': seq<Step>)
    requires Lean(run, steps, w, n) && t < |Last(run).pcs| && |Last(run).units| == Last(run).opt
    requires Last(run).pcs[t].Reserve? && Last(run).pcs[t].desired == 1
    requires SeemsAvailable(Last(run).opt, Last(run).pcs[t].over, Last(run).tail, w)
    ensures Lean(run', steps', w, n)
    ensures var s, s' := Last(run), Last(run');
      && s'.pcs == s.pcs[t := Idle([s.head])] && s'.opt == s.opt + 1 == |s'.units| && s'.head == s.head + 1
      && s'.tail == s.tail && s'.over == s.over
  {
    var s := Last(run);
    assert w >= 1;
    assert Indices(s.head, 1) == [s.head];
    hide Lean, SeemsAvailable, Available, Indices;
    SeemsMeansSome(s.opt, s.pcs[t].over, s.tail, w);
    run', steps' := Go(run, steps, w, n, Run(t));
    run', steps' := Go(run', steps', w, n, Run(t));
    assert Last(run').pcs[t] == TakeIndices(1);
    run', steps' := Go(run', steps', w, n, Run(t));
  }

  /** A thread that has reserved too late gives its reservation back. */
  lemma Lose(run: seq<State>, steps: seq<Step>, w: nat, n: nat, t: nat) returns (run': seq<State>, steps': seq<Step>)
    requires Lean(run, steps, w, n) && t < |Last(run).pcs| && |Last(run).units| == Last(run).opt
    requires Last(run).pcs[t].Reserve? && Last(run).pcs[t].desired == 1
    requires !SeemsAvailable(Last(run).opt, Last(run).pcs[t].over, Last(run).tail, w)
    ensures Lean(run', steps', w, n)
    ensures var s, s' := Last(run), Last(run');
      && s'.pcs == s.pcs[t := Idle([])] && s'.opt == s.opt + 1 == |s'.units| && s'.over == s.over + 1
      && s'.tail == s.tail && s'.head == s.head
  {
    var s := Last(run);
    assert w >= 1 && s.tail - s.head <= 1;
    hide Lean, SeemsAvailable, Available;
    run', steps' := Go(run, steps, w, n, Run(t));
    run', steps' := Go(run', steps', w, n, Run(t));
    assert Last(run').pcs[t] == GiveBackAll(1);
    run', steps' := Go(run', steps', w, n, Run(t));
  }

  /** Thread 0 sleeps with the overcommit value 0 in hand; `r` rounds have passed. */
  ghost predicate Round(s: State, r: nat) {
    && |s.pcs| >= 3 && s.pcs[0] == Reserve(0, 1) && s.pcs[1].Idle? && s.pcs[2].Idle?
    && s.tail == r + 1 && s.head == r && s.over == r && s.opt == 2 * r == |s.units|
  }

  /** Threads 1 and 2 race for one element; one wins, one gives its reservation back. */
  lemma OneRound(run: seq<State>, steps: seq<Step>, w: nat, n: nat, r: nat)
    returns (run': seq<State>, steps': seq<Step>)
    requires Lean(run, steps, w, n) && w >= 2 && Round(Last(run), r)
    ensures Lean(run', steps', w, n) && Round(Last(run'), r + 1)
  {
    hide Lean, SeemsAvailable, Available;
    assert Pow2(w - 1) >= 2;
    run', steps' := Enter(run, steps, w, n, 1);
    run', steps' := Enter(run', steps', w, n, 2);
    WordsDecideTruly(2 * r, r, r + 1, w);
    run', steps' := Win(run', steps', w, n, 1);
    WordsDecideTruly(2 * r + 1, r, r + 1, w);
    run', steps' := Lose(run', steps', w, n, 2);
    run', steps' := Go(run', steps', w, n, Publish(1));
  }

  lemma {:induction false} Rounds(run: seq<State>, steps: seq<Step>, w: nat, n: nat, r: nat)
    returns (run': seq<State>, steps': seq<Step>)
    requires Lean(run, steps, w, n) && w >= 2 && Round(Last(run), 0)
    ensures Lean(run', steps', w, n) && Round(Last(run'), r)
  {
    hide Lean;
    if r == 0 {
      run', steps' := run, steps;
    } else {
      run', steps' := Rounds(run, steps, w, n, r - 1);
      run', steps' := OneRound(run', steps', w, n, r - 1);
    }
  }

  lemma FallAsleep(w: nat, n: nat) returns (run: seq<State>, steps: seq<Step>)
    requires w >= 2 && n >= 3
    ensures Lean(run, steps, w, n) && Round(Last(run), 0)
  {
    run, steps := [State(0, 0, 0, 0, seq(n, _ => Idle([])), [], [])], [];
    assert Lean(run, steps, w, n);
    hide Lean, SeemsAvailable, Available;
    run, steps := Go(run, steps, w, n, Publish(1));
    run, steps := Enter(run, steps, w, n, 0);
  }

  /**
   For every index width and every number of consumers from three on there is a run in which
   the head passes the tail, although no more than one element is ever outstanding.
   */
  lemma SleeperTakesTooMuch(w: nat, n: nat) returns (run: seq<State>, steps: seq<Step>)
    requires w >= 2 && n >= 3
    ensures RawRun(run, steps, w) && |run[0].pcs| == n && !Calm(run, w)
    ensures forall i: nat | i < |run| :: run[i].tail - run[i].head <= 1
    ensures Last(run).head > Last(run).tail
  {
    hide SeemsAvailable, Available, Calm;
    var half := Pow2(w - 1);
    assert half >= 2 && Pow2(w) == 2 * half;
    var r := half + 1;
    run, steps := FallAsleep(w, n);
    run, steps := Rounds(run, steps, w, n, r);
    run, steps := Enter(run, steps, w, n, 1);
    WordsDecideTruly(2 * r, r, r + 1, w);
    run, steps := Win(run, steps, w, n, 1);
    OverclaimsExactly(2 * r + 1, 0, r + 1, w);
    run, steps := Win(run, steps, w, n, 0);
    hide RawRun;
    if Calm(run, w) { EveryIndexOnce(run, steps, w, |steps|); }
  }

  // ---------------------------------------------------------------------------
  // The exact condition
  // ---------------------------------------------------------------------------

  /** With `n` consumers and at most half the index range outstanding, the head never passes the tail. */
  ghost predicate SafeFor(n: nat, w: nat)
    requires w >= 1
  {
    forall run: seq<State>, steps: seq<Step>, i: nat
      | RawRun(run, steps, w) && |run[0].pcs| == n && Bounded(run, w) && i < |run| :: run[i].head <= run[i].tail
  }

  /** The optimistic dequeue is safe for two consumers of one producer, and for no more. */
  lemma TwoConsumersExactly(n: nat, w: nat)
    requires w >= 2
    ensures SafeFor(n, w) <==> n <= 2
  {
    hide Do, Enabled, Initial;
    if n <= 2 {
      forall run: seq<State>, steps: seq<Step>, i: nat
        | RawRun(run, steps, w) && |run[0].pcs| == n && Bounded(run, w) && i < |run|
        ensures run[i].head <= run[i].tail
      {
        PairTakesEveryIndexOnce(run, steps, w, i);
      }
    } else {
      var run, steps := SleeperTakesTooMuch(w, n);
      assert Bounded(run, w) by { assert Pow2(w - 1) >= 1; }
      assert run[|run| - 1].head > run[|run| - 1].tail;
    }
  }
}
