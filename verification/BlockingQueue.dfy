/**
 `BlockingConcurrentQueue`: every enqueue stores its items in the inner queue and then
 signals the semaphore once per item; every dequeue first acquires permits and then
 spins on the inner queue until it has taken that many items. The inner queue may hand
 out any of its items, and may answer "nothing" even when it is not empty.
 */
module BlockingQueue {
  import Sem = Semaphore

  /** What a thread is doing around its semaphore calls. */
  datatype Work =
    | Out
    | ToSignal(n: nat)      // has enqueued n items, has not called signal yet
    | Signalling            // inside signal
    | Acquiring             // inside tryWait*, wait or waitMany
    | Draining(owed: nat)   // holds permits; spins on the inner queue

  /** `enqueued` and `dequeued` are auxiliary histories. */
  datatype State<T> = State(
    sema: Sem.State, inner: multiset<T>, work: seq<Work>,
    enqueued: multiset<T>, dequeued: multiset<T>)

  datatype Step<T> =
    | Enqueue(t: nat, items: seq<T>)             // inner enqueue(_bulk) succeeds
    | Signal(t: nat)                             // call sema->signal(count)
    | Acquire(t: nat, max: nat, wait: bool)      // call tryWaitMany or waitMany
    | Sema(t: nat, choice: Sem.Choice)           // one operation inside the semaphore
    | Collect(t: nat)                            // the semaphore call returns
    | Take(t: nat, items: seq<T>)                // one inner try_dequeue(_bulk), maybe fruitless

  predicate Enabled<T>(s: State<T>, step: Step<T>) {
    && step.t < |s.work| == |s.sema.pcs|
    && match step
       case Enqueue(t, _) => s.work[t].Out?
       case Signal(t) => s.work[t].ToSignal? && s.sema.pcs[t] == Sem.Idle(0)
       case Acquire(t, _, _) => s.work[t].Out? && s.sema.pcs[t] == Sem.Idle(0)
       case Sema(t, _) => (s.work[t].Signalling? || s.work[t].Acquiring?) && !s.sema.pcs[t].Idle?
       case Collect(t) => (s.work[t].Signalling? || s.work[t].Acquiring?) && s.sema.pcs[t].Idle?
       case Take(t, items) =>
         s.work[t].Draining? && |items| <= s.work[t].owed && multiset(items) <= s.inner
  }

  function SetWork<T>(s: State<T>, t: nat, w: Work): State<T>
    requires t < |s.work|
  {
    s.(work := s.work[t := w])
  }

  function Do<T>(s: State<T>, step: Step<T>): State<T>
    requires Enabled(s, step)
  {
    match step
    case Enqueue(t, items) =>
      SetWork(s, t, ToSignal(|items|))
      .(inner := s.inner + multiset(items), enqueued := s.enqueued + multiset(items))
    case Signal(t) =>
      SetWork(s, t, Signalling).(sema := Sem.Do(s.sema, Sem.Signal(t, s.work[t].n)))
    case Acquire(t, max, wait) =>
      SetWork(s, t, Acquiring)
      .(sema := Sem.Do(s.sema, if wait then Sem.Wait(t, max) else Sem.TryWait(t, max)))
    case Sema(t, choice) => s.(sema := Sem.Do(s.sema, Sem.Run(t, choice)))
    case Collect(t) =>
      var got := s.sema.pcs[t].got;
      SetWork(s, t, if s.work[t].Acquiring? && got > 0 then Draining(got) else Out)
      .(sema := Sem.Do(s.sema, Sem.Claim(t)))
    case Take(t, items) =>
      var owed := s.work[t].owed - |items|;
      SetWork(s, t, if owed > 0 then Draining(owed) else Out)
      .(inner := s.inner - multiset(items), dequeued := s.dequeued + multiset(items))
  }

  // ---------------------------------------------------------------------------
  // The invariant
  // ---------------------------------------------------------------------------

  /** Items enqueued whose permits are not in the semaphore yet. */
  function Unsignalled(w: Work, pc: Sem.Pc): nat {
    if w.ToSignal? then w.n else if pc.SignalAdd? then pc.n else 0
  }

  function TotalUnsignalled(work: seq<Work>, pcs: seq<Sem.Pc>): nat
    requires |work| == |pcs|
  {
    if work == [] then 0 else Unsignalled(work[0], pcs[0]) + TotalUnsignalled(work[1..], pcs[1..])
  }

  function Owed(w: Work): nat { if w.Draining? then w.owed else 0 }

  /** Items still owed to threads that hold permits. */
  function TotalOwed(work: seq<Work>): nat {
    if work == [] then 0 else Owed(work[0]) + TotalOwed(work[1..])
  }

  lemma {:induction false} UnsignalledUpdate(work: seq<Work>, pcs: seq<Sem.Pc>, t: nat, w: Work, pc: Sem.Pc)
    requires |work| == |pcs| && t < |work|
    ensures TotalUnsignalled(work[t := w], pcs[t := pc]) + Unsignalled(work[t], pcs[t])
         == TotalUnsignalled(work, pcs) + Unsignalled(w, pc)
  {
    if t == 0 {
      assert work[0 := w][1..] == work[1..] && pcs[0 := pc][1..] == pcs[1..];
    } else {
      UnsignalledUpdate(work[1..], pcs[1..], t - 1, w, pc);
      assert work[t := w][1..] == work[1..][t - 1 := w] && pcs[t := pc][1..] == pcs[1..][t - 1 := pc];
    }
  }

  lemma {:induction false} OwedUpdate(work: seq<Work>, t: nat, w: Work)
    requires t < |work|
    ensures TotalOwed(work[t := w]) + Owed(work[t]) == TotalOwed(work) + Owed(w)
  {
    if t == 0 {
      assert work[0 := w][1..] == work[1..];
    } else {
      OwedUpdate(work[1..], t - 1, w);
      assert work[t := w][1..] == work[1..][t - 1 := w];
    }
  }

  lemma {:induction false} OwedAtLeast(work: seq<Work>, t: nat)
    requires t < |work|
    ensures TotalOwed(work) >= Owed(work[t])
  {
    if t > 0 { OwedAtLeast(work[1..], t - 1); }
  }

  /** A signalling thread never comes back with permits. */
  ghost predicate ThreadInv<T>(s: State<T>, t: nat)
    requires t < |s.work| == |s.sema.pcs|
  {
    match s.work[t]
    case Signalling => Sem.IsSignal(s.sema.pcs[t]) || s.sema.pcs[t] == Sem.Idle(0)
    case Acquiring => !Sem.IsSignal(s.sema.pcs[t])
    case Draining(owed) => s.sema.pcs[t] == Sem.Idle(0) && owed > 0
    case _ => s.sema.pcs[t] == Sem.Idle(0)
  }

  ghost predicate Inv<T>(s: State<T>) {
    && |s.work| == |s.sema.pcs|
    && Sem.Inv(s.sema)
    && s.enqueued == s.inner + s.dequeued
    && s.sema.signalled + TotalUnsignalled(s.work, s.sema.pcs) == |s.enqueued|
    && s.sema.claimed == |s.dequeued| + TotalOwed(s.work)
    && forall t: nat | t < |s.work| :: ThreadInv(s, t)
  }

  /** Inside the semaphore: only the fetch_add of `signal` touches the ledger. */
  lemma SemaStepInv<T>(s: State<T>, t: nat, choice: Sem.Choice)
    requires Inv(s) && Enabled(s, Sema(t, choice))
    ensures Inv(Do(s, Sema(t, choice)))
  {
    hide TotalUnsignalled, TotalOwed, Sem.Inv;
    var s' := Do(s, Sema(t, choice));
    assert ThreadInv(s, t);
    Sem.StepInv(s.sema, Sem.Run(t, choice));
    UnsignalledUpdate(s.work, s.sema.pcs, t, s.work[t], s'.sema.pcs[t]);
    assert s.work[t := s.work[t]] == s.work && s'.sema.pcs == s.sema.pcs[t := s'.sema.pcs[t]];
    forall u: nat | u < |s'.work| ensures ThreadInv(s', u) {
      if u != t { assert ThreadInv(s, u); }
    }
  }

  /** The ledger after thread `t` moved, given how its own entries changed. */
  lemma Moved<T>(s: State<T>, s': State<T>, t: nat)
    requires Inv(s) && t < |s.work| == |s'.work| == |s'.sema.pcs|
    requires s'.work == s.work[t := s'.work[t]] && s'.sema.pcs == s.sema.pcs[t := s'.sema.pcs[t]]
    requires Sem.Inv(s'.sema) && s'.enqueued == s'.inner + s'.dequeued && ThreadInv(s', t)
    requires s'.sema.signalled + Unsignalled(s'.work[t], s'.sema.pcs[t]) - |s'.enqueued|
          == s.sema.signalled + Unsignalled(s.work[t], s.sema.pcs[t]) - |s.enqueued|
    requires s'.sema.claimed - |s'.dequeued| - Owed(s'.work[t]) == s.sema.claimed - |s.dequeued| - Owed(s.work[t])
    ensures Inv(s')
  {
    hide TotalUnsignalled, TotalOwed, Sem.Inv;
    UnsignalledUpdate(s.work, s.sema.pcs, t, s'.work[t], s'.sema.pcs[t]);
    OwedUpdate(s.work, t, s'.work[t]);
    forall u: nat | u < |s'.work| ensures ThreadInv(s', u) {
      if u != t { assert ThreadInv(s, u); }
    }
  }

  lemma EnqueueInv<T>(s: State<T>, t: nat, items: seq<T>)
    requires Inv(s) && Enabled(s, Enqueue(t, items))
    ensures Inv(Do(s, Enqueue(t, items)))
  {
    hide TotalUnsignalled, TotalOwed, Sem.Inv;
    assert ThreadInv(s, t);
    Moved(s, Do(s, Enqueue(t, items)), t);
  }

  lemma TakeInv<T>(s: State<T>, t: nat, items: seq<T>)
    requires Inv(s) && Enabled(s, Take(t, items))
    ensures Inv(Do(s, Take(t, items)))
  {
    hide TotalUnsignalled, TotalOwed, Sem.Inv;
    assert ThreadInv(s, t);
    Moved(s, Do(s, Take(t, items)), t);
  }

  lemma SemaCallInv<T>(s: State<T>, step: Step<T>)
    requires Inv(s) && Enabled(s, step) && (step.Signal? || step.Acquire? || step.Collect?)
    ensures Inv(Do(s, step))
  {
    hide TotalUnsignalled, TotalOwed, Sem.Inv;
    var t := step.t;
    assert ThreadInv(s, t);
    match step {
      case Signal(_) => Sem.StepInv(s.sema, Sem.Signal(t, s.work[t].n));
      case Acquire(_, max, wait) => Sem.StepInv(s.sema, if wait then Sem.Wait(t, max) else Sem.TryWait(t, max));
      case Collect(_) => Sem.StepInv(s.sema, Sem.Claim(t));
    }
    Moved(s, Do(s, step), t);
  }

  lemma StepInv<T>(s: State<T>, step: Step<T>)
    requires Inv(s) && Enabled(s, step)
    ensures Inv(Do(s, step))
  {
    hide Inv;
    match step
    case Enqueue(t, items) => EnqueueInv(s, t, items);
    case Take(t, items) => TakeInv(s, t, items);
    case Sema(t, choice) => SemaStepInv(s, t, choice);
    case _ => SemaCallInv(s, step);
  }

  // ---------------------------------------------------------------------------
  // Runs
  // ---------------------------------------------------------------------------

  ghost predicate Initial<T>(s: State<T>) {
    && Sem.Initial(s.sema, 0) && |s.work| == |s.sema.pcs|
    && (forall t: nat | t < |s.work| :: s.work[t].Out?)
    && s.inner == multiset{} && s.enqueued == multiset{} && s.dequeued == multiset{}
  }

  ghost predicate IsRun<T>(run: seq<State<T>>, steps: seq<Step<T>>) {
    && |run| == |steps| + 1 && Initial(run[0])
    && forall i: nat | i < |steps| :: Enabled(run[i], steps[i]) && run[i + 1] == Do(run[i], steps[i])
  }

  lemma {:induction false} NothingPending(work: seq<Work>, pcs: seq<Sem.Pc>)
    requires |work| == |pcs|
    requires forall t: nat | t < |work| :: work[t].Out? && pcs[t] == Sem.Idle(0)
    ensures TotalUnsignalled(work, pcs) == 0 && TotalOwed(work) == 0
  {
    if work != [] { NothingPending(work[1..], pcs[1..]); }
  }

  lemma {:induction false} RunInv<T>(run: seq<State<T>>, steps: seq<Step<T>>, i: nat)
    requires IsRun(run, steps) && i <= |steps|
    ensures Inv(run[i])
    decreases i
  {
    if i == 0 {
      Sem.InitialInv(run[0].sema, 0);
      NothingPending(run[0].work, run[0].sema.pcs);
    } else {
      RunInv(run, steps, i - 1);
      StepInv(run[i - 1], steps[i - 1]);
    }
  }

  /**
   In every reachable state no item is lost or invented, and the inner queue holds at
   least as many items as are owed to threads with permits; so a thread spinning on the
   inner queue always has an item to find.
   */
  lemma PermitsAreBacked<T>(run: seq<State<T>>, steps: seq<Step<T>>, i: nat)
    requires IsRun(run, steps) && i <= |steps|
    ensures var s := run[i];
      && s.enqueued == s.inner + s.dequeued
      && |s.inner| >= TotalOwed(s.work)
      && forall t: nat | t < |s.work| && s.work[t].Draining? :: 0 < s.work[t].owed <= |s.inner|
  {
    RunInv(run, steps, i);
    var s := run[i];
    Sem.NoPhantomPermits(s.sema);
    forall t: nat | t < |s.work| && s.work[t].Draining? ensures 0 < s.work[t].owed <= |s.inner| {
      assert ThreadInv(s, t);
      OwedAtLeast(s.work, t);
    }
  }
}
