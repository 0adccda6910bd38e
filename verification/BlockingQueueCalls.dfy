/**
 The blocking queue as its callers see it: a call that asks for `max` items takes at most
 `max`, a call that does not wait takes exactly the smaller of `max` and the permits at an
 instant of that call, and a call that waits takes at least one unless it times out.
 */
module BlockingQueueCalls {
  import opened BlockingQueue
  import Sem = Semaphore
  import SC = SemaphoreCalls

  /** The items that calls have put in before state `i`. */
  ghost function Puts<T>(steps: seq<Step<T>>, i: nat): multiset<T>
    requires i <= |steps|
  {
    if i == 0 then multiset{}
    else Puts(steps, i - 1) + if steps[i - 1].Enqueue? then multiset(steps[i - 1].items) else multiset{}
  }

  /** The items that calls have taken out before state `i`. */
  ghost function Gots<T>(steps: seq<Step<T>>, i: nat): multiset<T>
    requires i <= |steps|
  {
    if i == 0 then multiset{}
    else Gots(steps, i - 1) + if steps[i - 1].Take? then multiset(steps[i - 1].items) else multiset{}
  }

  lemma LedgerStep<T>(s: State<T>, step: Step<T>)
    requires Enabled(s, step)
    ensures var s' := Do(s, step);
      && s'.enqueued == s.enqueued + (if step.Enqueue? then multiset(step.items) else multiset{})
      && s'.dequeued == s.dequeued + (if step.Take? then multiset(step.items) else multiset{})
  {
    hide Sem.Do;
  }

  lemma {:induction false} LedgerIsCalls<T>(run: seq<State<T>>, steps: seq<Step<T>>, i: nat)
    requires IsRun(run, steps) && i <= |steps|
    ensures run[i].enqueued == Puts(steps, i) && run[i].dequeued == Gots(steps, i)
    decreases i
  {
    if i > 0 {
      hide Do, Enabled, Initial;
      LedgerIsCalls(run, steps, i - 1);
      LedgerStep(run[i - 1], steps[i - 1]);
    }
  }

  /** No item is lost, invented or handed out twice: those put in are those taken out and those inside. */
  lemma ItemsBalance<T>(run: seq<State<T>>, steps: seq<Step<T>>, i: nat)
    requires IsRun(run, steps) && i <= |steps|
    ensures Puts(steps, i) == Gots(steps, i) + run[i].inner
  {
    LedgerIsCalls(run, steps, i);
    RunInv(run, steps, i);
    hide Sem.Inv, Sem.Initial, Do;
  }

  /** How many items thread `t` has taken between states `c` and `i`. */
  function TakenBy<T>(steps: seq<Step<T>>, t: nat, c: nat, i: nat): nat
    requires c <= i <= |steps|
  {
    if c == i then 0
    else TakenBy(steps, t, c, i - 1) + if steps[i - 1].Take? && steps[i - 1].t == t then |steps[i - 1].items| else 0
  }

  /** Thread `t` is in the dequeuing call made at step `c`, until just before state `i`. */
  ghost predicate CallIn<T>(run: seq<State<T>>, steps: seq<Step<T>>, t: nat, c: nat, i: nat)
    requires |run| == |steps| + 1
  {
    && c < i <= |steps| && steps[c].Acquire? && steps[c].t == t
    && forall l: nat | c < l < i :: t < |run[l].work| && !run[l].work[t].Out?
  }

  /** What a call that does not wait gets at this count. */
  function Share(count: int, max: nat): int {
    if count > 0 then SC.Least(count, max) else 0
  }

  /** What a call has got at the end, or is going to get, once its permits are settled. */
  ghost predicate Settled<T>(
    run: seq<State<T>>, steps: seq<Step<T>>, t: nat, c: nat, i: nat, k: nat, got: nat)
    requires |run| == |steps| + 1 && c < i <= |steps| && steps[c].Acquire?
  {
    && got <= steps[c].max
    && (!steps[c].wait ==> c < k < i && got == Share(run[k].sema.count, steps[c].max))
    && (steps[c].wait && steps[c].max > 0 && got == 0 ==> TimeOut(run, steps, t, c, i, k))
  }

  /** At step `k` of the call it was told that its time is over. */
  ghost predicate TimeOut<T>(run: seq<State<T>>, steps: seq<Step<T>>, t: nat, c: nat, i: nat, k: nat)
    requires |run| == |steps| + 1 && c < i <= |steps|
  {
    c < k < i && steps[k] == Sema(t, Sem.Stop) && t < |run[k].sema.pcs| && run[k].sema.pcs[t].Blocked?
  }

  /** How a call stands in state `i`. */
  ghost predicate Stands<T>(run: seq<State<T>>, steps: seq<Step<T>>, t: nat, c: nat, i: nat, k: nat)
    requires |run| == |steps| + 1 && c < i <= |steps| && steps[c].Acquire?
  {
    && t < |run[i].work| == |run[i].sema.pcs|
    && match run[i].work[t]
       case Acquiring =>
         var pc := run[i].sema.pcs[t];
         && TakenBy(steps, t, c, i) == 0 && SC.Serves(pc, steps[c].max, steps[c].wait)
         && (pc.Idle? ==> Settled(run, steps, t, c, i, k, pc.got))
         && (SC.TimedOut(pc) ==> TimeOut(run, steps, t, c, i, k))
       case Draining(owed) => Settled(run, steps, t, c, i, k, TakenBy(steps, t, c, i) + owed)
       case Out => Settled(run, steps, t, c, i, k, TakenBy(steps, t, c, i))
       case _ => false
  }

  lemma StandsOn<T>(run: seq<State<T>>, steps: seq<Step<T>>, t: nat, c: nat, i: nat, k: nat)
    requires IsRun(run, steps) && c < i < |steps| && steps[c].Acquire? && Stands(run, steps, t, c, i, k)
    requires !run[i].work[t].Out? && steps[i].t != t
    ensures Stands(run, steps, t, c, i + 1, k)
  {
    hide SC.Serves, Do, Enabled, Initial;
    OthersKeep(run[i], steps[i], t);
  }

  lemma OthersKeep<T>(s: State<T>, step: Step<T>, t: nat)
    requires Enabled(s, step) && t < |s.work| && step.t != t
    ensures var s' := Do(s, step);
      |s'.work| == |s'.sema.pcs| == |s.work| && s'.work[t] == s.work[t] && s'.sema.pcs[t] == s.sema.pcs[t]
  {
    if step.Sema? { SC.OnlyOwn(s.sema, Sem.Run(step.t, step.choice)); }
    hide Sem.ThreadStep;
  }

  /** One operation of the semaphore within the call. */
  lemma SemaStands<T>(run: seq<State<T>>, steps: seq<Step<T>>, t: nat, c: nat, i: nat, k: nat) returns (k': nat)
    requires IsRun(run, steps) && c < i < |steps| && steps[c].Acquire? && Stands(run, steps, t, c, i, k)
    requires steps[i].Sema? && steps[i].t == t && run[i].work[t].Acquiring?
    ensures Stands(run, steps, t, c, i + 1, k')
  {
    var s, s', max, wait, choice := run[i], run[i + 1], steps[c].max, steps[c].wait, steps[i].choice;
    hide Sem.Initial, Sem.ThreadStep, SC.Serves;
    SC.StepServes(s.sema, Sem.Run(t, choice), t, max, wait);
    SC.RunIs(s.sema, Sem.Run(t, choice));
    var pc, pc' := s.sema.pcs[t], s'.sema.pcs[t];
    if wait {
      if max > 0 { SC.WaitReturns(s.sema, t, choice, max); }
      if !SC.TimedOut(pc) { SC.OutStep(s.sema, t, choice); }
    } else {
      SC.TryReturns(s.sema, t, choice, max);
    }
    NotSpent(pc', max, wait);
    k' := if (pc'.Idle? && !wait) || (!SC.TimedOut(pc) && SC.TimedOut(pc')) then i else k;
  }

  lemma NotSpent(pc: Sem.Pc, max: nat, wait: bool)
    requires SC.Serves(pc, max, wait)
    ensures pc.Idle? ==> pc.got <= max
    ensures !wait ==> !SC.TimedOut(pc)
  {}

  lemma OwnStands<T>(run: seq<State<T>>, steps: seq<Step<T>>, t: nat, c: nat, i: nat, k: nat)
    requires IsRun(run, steps) && c < i < |steps| && steps[c].Acquire? && Stands(run, steps, t, c, i, k)
    requires !run[i].work[t].Out? && steps[i].t == t && !steps[i].Sema?
    ensures Stands(run, steps, t, c, i + 1, k)
  {
    hide SC.Serves, Do, Initial;
    OwnEffect(run[i], steps[i]);
  }

  /** What a thread does between its calls of the semaphore. */
  lemma OwnEffect<T>(s: State<T>, step: Step<T>)
    requires Enabled(s, step) && (step.Collect? || step.Take?)
    requires s.work[step.t].Acquiring? || s.work[step.t].Draining?
    ensures var s', t := Do(s, step), step.t;
      && |s'.work| == |s'.sema.pcs| == |s.work|
      && if step.Collect? then s'.work[t] == if s.sema.pcs[t].got > 0 then Draining(s.sema.pcs[t].got) else Out
         else s'.work[t] == if s.work[t].owed > |step.items| then Draining(s.work[t].owed - |step.items|) else Out
  {
    hide Sem.ThreadStep;
  }

  lemma {:induction false} CallSoFar<T>(run: seq<State<T>>, steps: seq<Step<T>>, t: nat, c: nat, i: nat)
    returns (k: nat)
    requires IsRun(run, steps) && CallIn(run, steps, t, c, i)
    ensures Stands(run, steps, t, c, i, k)
    decreases i
  {
    hide Stands, Do, Enabled, Initial;
    if i == c + 1 {
      k := 0;
      CallBegins(run, steps, c);
    } else {
      k := CallSoFar(run, steps, t, c, i - 1);
      StillIn(run, steps, t, c, i - 1, k);
      if steps[i - 1].t != t {
        StandsOn(run, steps, t, c, i - 1, k);
      } else if steps[i - 1].Sema? {
        SemaActs(run, steps, t, c, i - 1, k);
        k := SemaStands(run, steps, t, c, i - 1, k);
      } else {
        OwnStands(run, steps, t, c, i - 1, k);
      }
    }
  }

  lemma StillIn<T>(run: seq<State<T>>, steps: seq<Step<T>>, t: nat, c: nat, i: nat, k: nat)
    requires |run| == |steps| + 1 && CallIn(run, steps, t, c, i) && Stands(run, steps, t, c, i, k)
    ensures t < |run[i].work|
  {}

  lemma SemaActs<T>(run: seq<State<T>>, steps: seq<Step<T>>, t: nat, c: nat, i: nat, k: nat)
    requires IsRun(run, steps) && c < i < |steps| && steps[c].Acquire? && Stands(run, steps, t, c, i, k)
    requires steps[i].Sema? && steps[i].t == t
    ensures run[i].work[t].Acquiring?
  {
    hide Sem.Initial, SC.Serves;
  }

  lemma CallBegins<T>(run: seq<State<T>>, steps: seq<Step<T>>, c: nat)
    requires IsRun(run, steps) && c < |steps| && steps[c].Acquire?
    ensures Stands(run, steps, steps[c].t, c, c + 1, 0)
  {
    hide Sem.Initial, SC.Serves;
    var step := steps[c];
    assert TakenBy(steps, step.t, c, c + 1) == 0 by { assert TakenBy(steps, step.t, c, c) == 0; }
    var call := if step.wait then Sem.Wait(step.t, step.max) else Sem.TryWait(step.t, step.max);
    SC.CallServes(run[c].sema, call);
    SC.CallTries(run[c].sema, call);
    assert run[c + 1] == Do(run[c], step);
  }

  /**
   Every dequeuing call, here made at step `c` for at most `max` items and over with step `j`:
   it has taken at most `max` items; a call that does not wait exactly the smaller of `max` and
   the permits at an instant `k` of that call; a call that waits at least one, unless it was
   told at an instant `k` that its time was over.
   */
  lemma CallTakes<T>(run: seq<State<T>>, steps: seq<Step<T>>, t: nat, c: nat, j: nat) returns (k: nat)
    requires IsRun(run, steps) && j < |steps| && CallIn(run, steps, t, c, j + 1)
    requires t < |run[j + 1].work| && run[j + 1].work[t].Out?
    ensures Settled(run, steps, t, c, j + 1, k, TakenBy(steps, t, c, j + 1))
  {
    k := CallSoFar(run, steps, t, c, j + 1);
  }

  /** When no call is in progress there is exactly one permit for each item inside. */
  lemma OnePermitEach<T>(run: seq<State<T>>, steps: seq<Step<T>>, i: nat)
    requires IsRun(run, steps) && i <= |steps|
    requires forall t: nat | t < |run[i].work| :: run[i].work[t].Out?
    ensures run[i].sema.count == |run[i].inner| && run[i].sema.tokens == 0
  {
    RunInv(run, steps, i);
    var s := run[i];
    forall t: nat | t < |s.work| ensures s.sema.pcs[t] == Sem.Idle(0) { assert ThreadInv(s, t); }
    NothingPending(s.work, s.sema.pcs);
    Sem.IdleTotal(s.sema.pcs, Sem.Waiting);
    Sem.IdleTotal(s.sema.pcs, Sem.Posting);
    Sem.IdleTotal(s.sema.pcs, Sem.Having);
  }
}
