/**
 The free list as its callers see it. Who owns a node follows from the calls alone: a client
 owns the nodes it has made and those that `try_get` has returned, until it gives them to
 `add`. What `try_get` answers is justified by the head of the list at an instant of that
 call, and a call that runs alone does what a stack does.
 */
module FreeListCalls {
  import opened Options
  import opened FreeList

  /** Thread `t` returns node `n` from a call, with the step that leads to state `i`. */
  ghost predicate Returns(run: seq<State>, steps: seq<Step>, t: nat, n: nat, i: nat)
    requires |run| == |steps| + 1 && 0 < i <= |steps|
  {
    && t < |run[i - 1].pcs| && t < |run[i].pcs|
    && steps[i - 1] == Run(t) && !run[i - 1].pcs[t].Idle? && run[i].pcs[t] == Idle(Some(n))
  }

  /** A client owns node `n` in state `i`, by the calls made so far. */
  ghost function Owned(run: seq<State>, steps: seq<Step>, n: nat, i: nat): bool
    requires |run| == |steps| + 1 && i <= |steps|
  {
    if i == 0 then n < |run[0].nodes|
    else
      match steps[i - 1]
      case NewNode => n == |run[i - 1].nodes| || Owned(run, steps, n, i - 1)
      case Add(_, m) => m != n && Owned(run, steps, n, i - 1)
      case TryGet(_) => Owned(run, steps, n, i - 1)
      case Run(t) => Returns(run, steps, t, n, i) || Owned(run, steps, n, i - 1)
  }

  /** The place of a node changes from and to a client just with those calls. */
  lemma ClientStep(s: State, step: Step, n: nat)
    requires Inv(s) && Enabled(s, step) && n < |s.nodes|
    ensures n < |Do(s, step).place| && |Do(s, step).pcs| == |s.pcs|
    ensures match step
            case Add(_, m) => Do(s, step).place[n].Client? <==> m != n && s.place[n].Client?
            case Run(t) => Do(s, step).place[n].Client? <==> Do(s, step).pcs[t] == Idle(Some(n)) || s.place[n].Client?
            case _ => Do(s, step).place[n].Client? <==> s.place[n].Client?
  {
    hide Inv, GetStep, AddStep;
    if step.Run? {
      NotClients(s, step.t);
      if InAdd(s.pcs[step.t]) { AddMoves(s, step.t, n); } else { GetMoves(s, step.t, n); }
    } else {
      SameLength(s);
    }
  }

  /** A node that an instruction moves is with no client before. */
  lemma NotClients(s: State, t: nat)
    requires Inv(s) && Enabled(s, Run(t))
    ensures |s.place| == |s.nodes|
    ensures var pc := s.pcs[t];
      && (InAdd(pc) ==> pc.n < |s.place| && !s.place[pc.n].Client?)
      && (pc.GCasHead? && s.head == Some(pc.h) ==> !s.place[pc.h].Client?)
      && (pc.GSub1? && s.nodes[pc.h].refs == SHOULD + 1 ==> !s.place[pc.h].Client?)
  {
    hide Holders;
    assert ThreadInv(s, t);
    var pc := s.pcs[t];
    if pc.GSub1? {
      assert NodeInv(s, pc.h);
      HoldersBound(s.pcs, pc.h);
    }
    if pc.GCasHead? && s.head == Some(pc.h) { HeadListed(s); }
  }

  lemma AddMoves(s: State, t: nat, n: nat)
    requires Enabled(s, Run(t)) && InAdd(s.pcs[t]) && n < |s.place| && !s.place[s.pcs[t].n].Client?
    ensures var s' := AddStep(s, t);
      |s'.place| == |s.place| && |s'.pcs| == |s.pcs| && s'.pcs[t] != Idle(Some(n))
      && (s'.place[n].Client? <==> s.place[n].Client?)
  {
    hide FetchAdd;
  }

  lemma GetMoves(s: State, t: nat, n: nat)
    requires Enabled(s, Run(t)) && !InAdd(s.pcs[t]) && n < |s.place|
    requires var pc := s.pcs[t];
      && (pc.GCasHead? && s.head == Some(pc.h) ==> !s.place[pc.h].Client?)
      && (pc.GSub1? && s.nodes[pc.h].refs == SHOULD + 1 ==> !s.place[pc.h].Client?)
    ensures var s' := GetStep(s, t);
      |s'.place| == |s.place| && |s'.pcs| == |s.pcs|
      && (s'.place[n].Client? <==> s'.pcs[t] == Idle(Some(n)) || s.place[n].Client?)
  {
    hide FetchAdd;
  }

  lemma HeadListed(s: State)
    requires Inv(s) && s.head.Some?
    ensures NodeOk(s, s.head.value) && s.place[s.head.value].Listed?
  {}

  lemma {:induction false} OwnersAgree(run: seq<State>, steps: seq<Step>, n: nat, i: nat)
    requires IsRun(run, steps) && i <= |steps|
    ensures |run[i].place| == |run[i].nodes|
    ensures Owned(run, steps, n, i) <==> n < |run[i].nodes| && run[i].place[n].Client?
    decreases i
  {
    hide Inv, Do;
    RunInv(run, steps, i);
    SameLength(run[i]);
    if i > 0 {
      OwnersAgree(run, steps, n, i - 1);
      RunInv(run, steps, i - 1);
      NodesStep(run[i - 1], steps[i - 1]);
      if n < |run[i - 1].nodes| { ClientStep(run[i - 1], steps[i - 1], n); }
      if steps[i - 1].Run? { ReturnedExists(run[i - 1], steps[i - 1].t); }
    }
  }

  lemma SameLength(s: State)
    requires Inv(s)
    ensures |s.place| == |s.nodes|
  {}

  lemma NodesStep(s: State, step: Step)
    requires Enabled(s, step) && |s.place| == |s.nodes|
    ensures var s' := Do(s, step);
      && |s'.pcs| == |s.pcs| && |s'.nodes| == |s.nodes| + (if step.NewNode? then 1 else 0) == |s'.place|
      && (step.NewNode? ==> s'.place[|s.nodes|].Client?)
  {
    hide GetStep, AddStep;
    if step.Run? { if InAdd(s.pcs[step.t]) { AddSizes(s, step.t); } else { GetSizes(s, step.t); } }
  }

  lemma GetSizes(s: State, t: nat)
    requires t < |s.pcs| && PcOk(s, s.pcs[t])
    ensures var s' := GetStep(s, t);
      && |s'.nodes| == |s.nodes| && |s'.place| == |s.place|
      && |s'.pcs| == |s.pcs| && s'.pcs == s.pcs[t := s'.pcs[t]]
  {
    hide FetchAdd;
  }

  lemma AddSizes(s: State, t: nat)
    requires t < |s.pcs| && PcOk(s, s.pcs[t])
    ensures var s' := AddStep(s, t);
      && |s'.nodes| == |s.nodes| && |s'.place| == |s.place|
      && |s'.pcs| == |s.pcs| && s'.pcs == s.pcs[t := s'.pcs[t]]
  {
    hide FetchAdd;
  }

  /** The node that a call returns exists. */
  lemma ReturnedExists(s: State, t: nat)
    requires Inv(s) && Enabled(s, Run(t))
    ensures var s' := Do(s, Run(t));
      && |s'.pcs| == |s.pcs|
      && (s'.pcs[t].Idle? && s'.pcs[t].got.Some? ==> s'.pcs[t].got.value < |s.nodes|)
  {
    hide FetchAdd, Holders, ListInv;
    assert ThreadInv(s, t);
  }

  /**
   When no call is in progress, a node is on the chain from the head through `freeListNext`
   exactly when no client owns it by the calls made: none that was given back is lost, and
   none that was handed out is still there.
   */
  lemma NoneStranded(run: seq<State>, steps: seq<Step>, i: nat, n: nat)
    requires IsRun(run, steps) && i <= |steps| && n < |run[i].nodes|
    requires forall t: nat | t < |run[i].pcs| :: run[i].pcs[t].Idle?
    ensures n in Chain(run[i].nodes, run[i].head, |run[i].nodes|) <==> !Owned(run, steps, n, i)
  {
    hide Chain, Do, Initial;
    OwnersAgree(run, steps, n, i);
    Quiescent(run, steps, i, n);
  }

  // ---------------------------------------------------------------------------
  // What try_get answers
  // ---------------------------------------------------------------------------

  /** The call of `try_get` that thread `t` made at step `c` is in progress in state `i`. */
  ghost predicate GetIn(run: seq<State>, steps: seq<Step>, t: nat, c: nat, i: nat)
    requires |run| == |steps| + 1
  {
    c < i <= |steps| && steps[c] == TryGet(t) && forall l: nat | c < l <= i :: t < |run[l].pcs| && !run[l].pcs[t].Idle?
  }

  /** The thread is at an instruction of `try_get`. */
  predicate Getting(pc: Pc) {
    !pc.Idle? && !pc.AddFlag? && (InAdd(pc) ==> pc.back.Resume?)
  }

  /** The thread has found the list empty and has only to leave. */
  predicate SawNone(pc: Pc) {
    pc == Idle(None) || (pc.GSub1? && pc.cur.None?) ||
    (InAdd(pc) && !pc.AddFlag? && pc.back == Resume(None))
  }

  /** The node that the thread has taken off the list. */
  function Popped(pc: Pc): Option<nat> {
    match pc
    case GAssert(n) => Some(n)
    case GSub2(n) => Some(n)
    case Idle(got) => got
    case _ => None
  }

  /** The thread takes the head off the list. */
  ghost predicate Pops(s: State, s': State, t: nat, n: nat) {
    t < |s.pcs| && s.pcs[t].GCasHead? && s.pcs[t].h == n && s.head == Some(n) && s'.head == s.pcs[t].next
  }

  /** What one instruction of `try_get` may do to its call. */
  ghost predicate GetProgress(s: State, s': State, t: nat)
    requires t < |s.pcs| && t < |s'.pcs|
  {
    var pc, pc' := s.pcs[t], s'.pcs[t];
    && (Getting(pc') || pc'.Idle?)
    && (SawNone(pc') && !SawNone(pc) ==> s.head.None?)
    && (Popped(pc').Some? && Popped(pc) != Popped(pc') ==> Pops(s, s', t, Popped(pc').value))
  }

  lemma GetsOn(s: State, t: nat)
    requires t < |s.pcs| && Getting(s.pcs[t]) && PcOk(s, s.pcs[t]) && !InAdd(s.pcs[t])
    ensures t < |GetStep(s, t).pcs| && GetProgress(s, GetStep(s, t), t)
  {
    hide FetchAdd;
  }

  lemma ReaddsOn(s: State, t: nat)
    requires t < |s.pcs| && Getting(s.pcs[t]) && PcOk(s, s.pcs[t]) && InAdd(s.pcs[t])
    ensures t < |AddStep(s, t).pcs| && GetProgress(s, AddStep(s, t), t)
  {
    hide FetchAdd;
  }

  /** A step of another thread. */
  lemma OthersKeep(s: State, step: Step, t: nat)
    requires Enabled(s, step) && t < |s.pcs| && (step.NewNode? || step.t != t)
    ensures t < |Do(s, step).pcs| && Do(s, step).pcs[t] == s.pcs[t]
  {
    hide GetStep, AddStep;
    if step.Run? { if InAdd(s.pcs[step.t]) { AddSizes(s, step.t); } else { GetSizes(s, step.t); } }
  }

  lemma GetsStep(s: State, step: Step, t: nat)
    requires Enabled(s, step) && t < |s.pcs| && Getting(s.pcs[t])
    ensures t < |Do(s, step).pcs|
    ensures if step == Run(t) then GetProgress(s, Do(s, step), t) else Do(s, step).pcs[t] == s.pcs[t]
  {
    hide GetStep, AddStep, GetProgress;
    if step != Run(t) {
      OthersKeep(s, step, t);
    } else if InAdd(s.pcs[t]) {
      ReaddsOn(s, t);
    } else {
      GetsOn(s, t);
    }
  }

  /** How a call of `try_get` stands: what it has seen, and where it may be. */
  lemma {:induction false} GetSoFar(run: seq<State>, steps: seq<Step>, t: nat, c: nat, i: nat)
    returns (k: nat)
    requires IsRun(run, steps) && c < i <= |steps| && steps[c] == TryGet(t)
    requires forall l: nat | c < l < i :: t < |run[l].pcs| && !run[l].pcs[t].Idle?
    ensures t < |run[i].pcs| && c < k <= i
    ensures Getting(run[i].pcs[t]) || run[i].pcs[t].Idle?
    ensures SawNone(run[i].pcs[t]) ==> k < i && run[k].head == None
    ensures Popped(run[i].pcs[t]).Some? ==>
      k < i && steps[k] == Run(t) && Pops(run[k], run[k + 1], t, Popped(run[i].pcs[t]).value)
    decreases i
  {
    hide Do, Enabled, Initial;
    if i == c + 1 {
      k := i;
      CallGets(run[c], t);
    } else {
      k := GetSoFar(run, steps, t, c, i - 1);
      GetsStep(run[i - 1], steps[i - 1], t);
      var pc, pc' := run[i - 1].pcs[t], run[i].pcs[t];
      if (SawNone(pc') && !SawNone(pc)) || (Popped(pc').Some? && Popped(pc) != Popped(pc')) { k := i - 1; }
    }
  }

  lemma CallGets(s: State, t: nat)
    requires Enabled(s, TryGet(t))
    ensures t < |Do(s, TryGet(t)).pcs| && Do(s, TryGet(t)).pcs[t] == GLoadHead
  {}

  /**
   Every call of `try_get`, here made at step `c` and returning with step `j`: it returns
   nothing only if at an instant of that call the list was empty, and otherwise a node that at
   an instant of that call was the head, when this very call replaced it by the next one.
   */
  lemma GetAnswers(run: seq<State>, steps: seq<Step>, t: nat, c: nat, j: nat) returns (k: nat)
    requires IsRun(run, steps) && GetIn(run, steps, t, c, j) && j < |steps|
    requires t < |run[j + 1].pcs| && run[j + 1].pcs[t].Idle?
    ensures c < k <= j
    ensures match run[j + 1].pcs[t].got
            case None => run[k].head == None
            case Some(n) =>
              && n < |run[k].nodes| && run[k].head == Some(n) && run[k + 1].head == run[k].nodes[n].next
              && !Owned(run, steps, n, k) && Owned(run, steps, n, j + 1)
  {
    hide Do, Enabled, Initial;
    k := GetSoFar(run, steps, t, c, j + 1);
    var got := run[j + 1].pcs[t].got;
    if got.Some? {
      RunInv(run, steps, k);
      PoppedNext(run[k], t);
      OwnersAgree(run, steps, got.value, k);
      LastStep(run, steps, t, j);
    }
  }

  lemma PoppedNext(s: State, t: nat)
    requires Inv(s) && t < |s.pcs| && s.pcs[t].GCasHead? && s.head == Some(s.pcs[t].h)
    ensures NodeOk(s, s.pcs[t].h) && s.nodes[s.pcs[t].h].next == s.pcs[t].next && !s.place[s.pcs[t].h].Client?
  {
    hide Holders;
    assert ThreadInv(s, t);
    HeadListed(s);
  }

  /** The step that ends a call is the thread's own. */
  lemma LastStep(run: seq<State>, steps: seq<Step>, t: nat, j: nat)
    requires IsRun(run, steps) && j < |steps| && t < |run[j].pcs| && !run[j].pcs[t].Idle?
    requires t < |run[j + 1].pcs| && run[j + 1].pcs[t].Idle?
    ensures steps[j] == Run(t)
  {
    hide Do, Initial;
    if steps[j].NewNode? || steps[j].t != t { OthersKeep(run[j], steps[j], t); }
  }

  // ---------------------------------------------------------------------------
  // Calls that run alone
  // ---------------------------------------------------------------------------

  /** The state after thread `t` has run alone until its call returned, or for `fuel` steps. */
  ghost function Alone(s: State, t: nat, fuel: nat): State
    decreases fuel
  {
    if fuel == 0 || !Enabled(s, Run(t)) then s else Alone(Do(s, Run(t)), t, fuel - 1)
  }

  lemma AloneNext(s: State, t: nat, fuel: nat)
    requires fuel > 0 && Enabled(s, Run(t))
    ensures Alone(s, t, fuel) == Alone(Do(s, Run(t)), t, fuel - 1)
  {}

  lemma AloneDone(s: State, t: nat, fuel: nat)
    requires t < |s.pcs| && s.pcs[t].Idle?
    ensures Alone(s, t, fuel) == s
  {}

  lemma CanRun(s: State, t: nat)
    requires Inv(s) && t < |s.pcs| && !s.pcs[t].Idle?
    ensures Enabled(s, Run(t)) && PcOk(s, s.pcs[t])
  {
    assert ThreadInv(s, t);
  }

  ghost predicate AllIdle(s: State) {
    forall t: nat | t < |s.pcs| :: s.pcs[t].Idle?
  }

  /** How many steps are left of an undisturbed push. */
  function PushRank(pc: Pc): nat {
    match pc
    case KLoadHead(_, _) => 4
    case KStoreNext(_, _, _) => 3
    case KStoreRefs(_, _, _) => 2
    case KCasHead(_, _, _) => 1
    case _ => 0
  }

  /** The thread is pushing its node, and nobody has changed the head. */
  ghost predicate Pushing(s: State, t: nat) {
    && t < |s.pcs| && PushRank(s.pcs[t]) > 0 && s.pcs[t].back == Return
    && (PushRank(s.pcs[t]) < 4 ==> s.pcs[t].seen == s.head)
  }

  lemma PushEffect(s: State, t: nat)
    requires Pushing(s, t) && Enabled(s, Run(t))
    ensures var s' := Do(s, Run(t));
      && |s'.nodes| == |s.nodes| && s'.pcs == s.pcs[t := s'.pcs[t]]
      && if s.pcs[t].KCasHead? then s'.pcs[t] == Idle(None) && s'.list == [s.pcs[t].n] + s.list
         else
           && Pushing(s', t) && PushRank(s'.pcs[t]) == PushRank(s.pcs[t]) - 1 && s'.pcs[t].n == s.pcs[t].n
           && s'.list == s.list
  {
    hide FetchAdd;
  }

  lemma {:induction false} PushAlone(s: State, t: nat, fuel: nat)
    requires Inv(s) && Pushing(s, t) && PushRank(s.pcs[t]) <= fuel
    ensures var s' := Alone(s, t, fuel);
      && Inv(s') && s'.pcs == s.pcs[t := Idle(None)] && s'.list == [s.pcs[t].n] + s.list
      && |s'.nodes| == |s.nodes|
    decreases fuel
  {
    hide Inv, Do, Alone, Enabled;
    CanRun(s, t);
    StepInv(s, Run(t));
    PushEffect(s, t);
    AloneNext(s, t, fuel);
    var s1 := Do(s, Run(t));
    if s.pcs[t].KCasHead? { AloneDone(s1, t, fuel - 1); } else { PushAlone(s1, t, fuel - 1); }
  }

  /** Running alone from an idle list, `add` puts its node in front. */
  lemma AddAlone(s: State, t: nat, n: nat)
    requires Inv(s) && AllIdle(s) && Enabled(s, Add(t, n))
    ensures var s' := Alone(Do(s, Add(t, n)), t, 5);
      && AllIdle(s') && |s'.nodes| == |s.nodes|
      && Chain(s'.nodes, s'.head, |s'.nodes|) == [n] + Chain(s.nodes, s.head, |s.nodes|)
  {
    assert s.nodes[n].refs == 0 by {
      NoHolder(s.pcs, n);
      assert NodeInv(s, n);
    }
    StepInv(s, Add(t, n));
    hide Inv, Chain;
    var s0 := Do(s, Add(t, n));
    StepInv(s0, Run(t));
    AloneNext(s0, t, 5);
    PushAlone(Do(s0, Run(t)), t, 4);
    hide Alone;
    ListIsChain(s);
    ListIsChain(Alone(s0, t, 5));
  }

  /** How many steps are left of an undisturbed pop. */
  function PopRank(pc: Pc): nat {
    match pc
    case GLoadHead => 7
    case GLoadRefs(_) => 6
    case GCasRefs(_, _) => 5
    case GLoadNext(_) => 4
    case GCasHead(_, _) => 3
    case GAssert(_) => 2
    case GSub2(_) => 1
    case _ => 0
  }

  /** The thread is on its way to take the head off the list, and nobody disturbs it. */
  ghost predicate Popping(s: State, t: nat) {
    && t < |s.pcs| && PopRank(s.pcs[t]) > 2
    && (PopRank(s.pcs[t]) < 7 ==> s.head == Some(s.pcs[t].h))
    && (s.pcs[t].GCasRefs? ==> s.pcs[t].h < |s.nodes| && s.pcs[t].r == s.nodes[s.pcs[t].h].refs)
  }

  lemma PopEffect(s: State, t: nat)
    requires Popping(s, t) && Enabled(s, Run(t)) && s.list != [] && s.head == Some(s.list[0])
    requires s.pcs[t].GLoadRefs? ==> s.nodes[s.pcs[t].h].refs % SHOULD != 0
    ensures var s' := Do(s, Run(t));
      && |s'.nodes| == |s.nodes| && s'.pcs == s.pcs[t := s'.pcs[t]]
      && if s.pcs[t].GCasHead? then s'.pcs[t] == GAssert(s.list[0]) && s'.list == s.list[1..]
         else Popping(s', t) && PopRank(s'.pcs[t]) == PopRank(s.pcs[t]) - 1 && s'.list == s.list
  {
    hide FetchAdd;
  }

  lemma LeaveEffect(s: State, t: nat)
    requires t < |s.pcs| && (s.pcs[t].GAssert? || s.pcs[t].GSub2?) && Enabled(s, Run(t))
    ensures var s', h := Do(s, Run(t)), s.pcs[t].h;
      && |s'.nodes| == |s.nodes| && s'.list == s.list
      && s'.pcs == s.pcs[t := if s.pcs[t].GAssert? then GSub2(h) else Idle(Some(h))]
  {
    hide FetchAdd;
  }

  lemma {:induction false} LeaveAlone(s: State, t: nat, fuel: nat)
    requires Inv(s) && t < |s.pcs| && 0 < PopRank(s.pcs[t]) <= 2 && PopRank(s.pcs[t]) <= fuel
    ensures var s' := Alone(s, t, fuel);
      Inv(s') && s'.pcs == s.pcs[t := Idle(Some(s.pcs[t].h))] && s'.list == s.list && |s'.nodes| == |s.nodes|
    decreases fuel
  {
    hide Inv, Do, Alone, Enabled;
    CanRun(s, t);
    StepInv(s, Run(t));
    LeaveEffect(s, t);
    AloneNext(s, t, fuel);
    var s1 := Do(s, Run(t));
    if s.pcs[t].GAssert? { LeaveAlone(s1, t, fuel - 1); } else { AloneDone(s1, t, fuel - 1); }
  }

  lemma {:induction false} PopAlone(s: State, t: nat, fuel: nat)
    requires Inv(s) && Popping(s, t) && PopRank(s.pcs[t]) <= fuel && s.list != []
    ensures var s' := Alone(s, t, fuel);
      Inv(s') && s'.pcs == s.pcs[t := Idle(Some(s.list[0]))] && s'.list == s.list[1..] && |s'.nodes| == |s.nodes|
    decreases fuel
  {
    hide Inv, Do, Alone, Enabled;
    CanRun(s, t);
    HeadCounted(s);
    StepInv(s, Run(t));
    PopEffect(s, t);
    AloneNext(s, t, fuel);
    var s1 := Do(s, Run(t));
    if s.pcs[t].GCasHead? { LeaveAlone(s1, t, fuel - 1); } else { PopAlone(s1, t, fuel - 1); }
  }

  /** A listed node is counted. */
  lemma HeadCounted(s: State)
    requires Inv(s) && s.list != []
    ensures s.head == Some(s.list[0]) && s.list[0] < |s.nodes| && s.nodes[s.list[0]].refs % SHOULD != 0
  {
    hide Holders;
    assert NodeInv(s, s.list[0]);
    HoldersBound(s.pcs, s.list[0]);
  }

  /** Running alone, `try_get` takes the first node off the list, or says that there is none. */
  lemma GetAlone(s: State, t: nat)
    requires Inv(s) && AllIdle(s) && Enabled(s, TryGet(t))
    ensures var s', chain := Alone(Do(s, TryGet(t)), t, 7), Chain(s.nodes, s.head, |s.nodes|);
      && AllIdle(s') && t < |s'.pcs| && s'.pcs[t] == Idle(First(chain))
      && Chain(s'.nodes, s'.head, |s'.nodes|) == if chain == [] then [] else chain[1..]
  {
    assert s.head == First(s.list);
    ListIsChain(s);
    StepInv(s, TryGet(t));
    var s0 := Do(s, TryGet(t));
    assert s0.head == First(s0.list);
    hide Inv, Chain;
    if s.list == [] {
      StepInv(s0, Run(t));
      AloneNext(s0, t, 7);
      AloneDone(Do(s0, Run(t)), t, 6);
    } else {
      PopAlone(s0, t, 7);
    }
    ListIsChain(Alone(s0, t, 7));
  }
}
