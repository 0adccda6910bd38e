/**
 The single-producer single-consumer queue as its callers see it: what goes in are the
 arguments of `enqueue` and `try_enqueue` calls that returned true, what comes out are the
 values returned by `try_dequeue` and `pop`, and every call returns after a bounded number of
 its own steps with an answer that the queue at that time justifies. Only calls and their
 results are used to state this, no auxiliary variable.
 */
module SpscCalls {
  import opened Options
  import opened Bits
  import opened SpscBlock
  import opened SpscQueue
  import opened SpscQueueProof
  import opened SpscMemory
  import opened SpscTheorems

  // ---------------------------------------------------------------------------
  // Calls
  // ---------------------------------------------------------------------------

  /** The last call of the producer before state `i`. */
  function LastEnqueue<T>(steps: seq<Step<T>>, i: nat): (r: Option<nat>)
    requires i <= |steps|
    ensures r.Some? ==> r.value < i && steps[r.value].Enqueue?
  {
    if i == 0 then None
    else if steps[i - 1].Enqueue? then Some(i - 1)
    else LastEnqueue(steps, i - 1)
  }

  /** The last call of the consumer before state `i`. */
  function LastConsume<T>(steps: seq<Step<T>>, i: nat): (r: Option<nat>)
    requires i <= |steps|
    ensures r.Some? ==> r.value < i && steps[r.value].Consume?
  {
    if i == 0 then None
    else if steps[i - 1].Consume? then Some(i - 1)
    else LastConsume(steps, i - 1)
  }

  /** The arguments of the calls that returned true before state `i`, in that order. */
  ghost function Accepted<T>(run: seq<State<T>>, steps: seq<Step<T>>, i: nat): seq<T>
    requires |run| == |steps| + 1 && i <= |steps|
  {
    if i == 0 then []
    else
      var call := LastEnqueue(steps, i);
      Accepted(run, steps, i - 1) +
      if call.Some? && !run[i - 1].prod.PIdle? && run[i].prod == PIdle(true) then [steps[call.value].x] else []
  }

  /** The elements returned by the consumer's calls before state `i`, in that order. */
  ghost function Received<T>(run: seq<State<T>>, steps: seq<Step<T>>, i: nat): seq<T>
    requires |run| == |steps| + 1 && i <= |steps|
  {
    if i == 0 then []
    else
      Received(run, steps, i - 1) +
      if !run[i - 1].cons.CIdle? && run[i].cons.CIdle? && run[i].cons.ret.Took? then [run[i].cons.ret.value] else []
  }

  /** The producer's call made at step `c` is still in progress in state `i`. */
  ghost predicate ProducerIn<T>(run: seq<State<T>>, steps: seq<Step<T>>, c: nat, i: nat)
    requires |run| == |steps| + 1
  {
    c < i <= |steps| && steps[c].Enqueue? && forall l: nat | c < l <= i :: !run[l].prod.PIdle?
  }

  /** The consumer's call made at step `c` is still in progress in state `i`. */
  ghost predicate ConsumerIn<T>(run: seq<State<T>>, steps: seq<Step<T>>, c: nat, i: nat)
    requires |run| == |steps| + 1
  {
    c < i <= |steps| && steps[c].Consume? && forall l: nat | c < l <= i :: !run[l].cons.CIdle?
  }

  // ---------------------------------------------------------------------------
  // A thread remembers its call
  // ---------------------------------------------------------------------------

  /** What the producer has in hand is the argument of its call, and it allocates only if it may. */
  ghost predicate Remembers<T>(prod: Producer<T>, x: T, canAlloc: bool) {
    && !prod.PIdle? && prod.x == x
    && (prod.PLoadFront? || prod.PCheckNext? ==> prod.canAlloc == canAlloc)
    && (prod.PAlloc? || prod.PLink? ==> canAlloc)
  }

  lemma CallRemembers<T>(s: State<T>, x: T, canAlloc: bool)
    requires Enabled(s, Enqueue(x, canAlloc))
    ensures Remembers(Do(s, Enqueue(x, canAlloc)).prod, x, canAlloc)
  {
    hide Flat, Queue, Wf;
  }

  lemma StepRemembers<T>(s: State<T>, step: Step<T>, x: T, canAlloc: bool)
    requires Enabled(s, step) && Remembers(s.prod, x, canAlloc)
    ensures !Do(s, step).prod.PIdle? ==> Remembers(Do(s, step).prod, x, canAlloc)
    ensures Do(s, step).prod.PIdle? ==> step.Producer?
  {
    hide Flat, Queue, Wf;
  }

  lemma OnlyCallsStart<T>(s: State<T>, step: Step<T>)
    requires Enabled(s, step)
    ensures s.prod.PIdle? && !step.Enqueue? ==> Do(s, step).prod == s.prod
    ensures s.cons.CIdle? && !step.Consume? ==> Do(s, step).cons == s.cons
  {
    hide Flat, Queue, Wf;
  }

  lemma {:induction false} ProducerCall<T>(run: seq<State<T>>, steps: seq<Step<T>>, size: nat, maxBlock: nat, i: nat)
    returns (c: nat)
    requires IsRun(run, steps, size, maxBlock) && i <= |steps| && !run[i].prod.PIdle?
    ensures ProducerIn(run, steps, c, i) && LastEnqueue(steps, i) == Some(c)
    ensures Remembers(run[i].prod, steps[c].x, steps[c].canAlloc)
    decreases i
  {
    hide Do, Enabled, Initial, Remembers;
    InitialIdle(run[0], size, maxBlock);
    var s, step := run[i - 1], steps[i - 1];
    if step.Enqueue? {
      c := i - 1;
      CallRemembers(s, step.x, step.canAlloc);
    } else {
      OnlyCallsStart(s, step);
      c := ProducerCall(run, steps, size, maxBlock, i - 1);
      StepRemembers(s, step, steps[c].x, steps[c].canAlloc);
    }
  }

  /** The consumer works for its call. */
  ghost predicate Serves<T>(cons: Consumer<T>, op: ConsumerOp) {
    !cons.CIdle? && cons.op == op
  }

  lemma CallServes<T>(s: State<T>, op: ConsumerOp)
    requires Enabled(s, Consume(op))
    ensures Serves(Do(s, Consume(op)).cons, op)
  {
    hide Flat, Queue, Wf;
  }

  lemma StepServes<T>(s: State<T>, step: Step<T>, op: ConsumerOp)
    requires Enabled(s, step) && Serves(s.cons, op)
    ensures !Do(s, step).cons.CIdle? ==> Serves(Do(s, step).cons, op)
    ensures Do(s, step).cons.CIdle? ==> step.Consumer?
  {
    hide Flat, Queue, Wf;
  }

  lemma {:induction false} ConsumerCall<T>(run: seq<State<T>>, steps: seq<Step<T>>, size: nat, maxBlock: nat, i: nat)
    returns (c: nat)
    requires IsRun(run, steps, size, maxBlock) && i <= |steps| && !run[i].cons.CIdle?
    ensures ConsumerIn(run, steps, c, i) && LastConsume(steps, i) == Some(c) && Serves(run[i].cons, steps[c].op)
    decreases i
  {
    hide Do, Enabled, Initial, Serves;
    InitialIdle(run[0], size, maxBlock);
    var s, step := run[i - 1], steps[i - 1];
    if step.Consume? {
      c := i - 1;
      CallServes(s, step.op);
    } else {
      OnlyCallsStart(s, step);
      c := ConsumerCall(run, steps, size, maxBlock, i - 1);
      StepServes(s, step, steps[c].op);
    }
  }

  /** A call in progress is the last one made. */
  lemma {:induction false} ProducerInIsLast<T>(
    run: seq<State<T>>, steps: seq<Step<T>>, size: nat, maxBlock: nat, c: nat, i: nat)
    requires IsRun(run, steps, size, maxBlock) && ProducerIn(run, steps, c, i)
    ensures LastEnqueue(steps, i) == Some(c)
    decreases i
  {
    hide Do, Initial, Wf;
    if c + 1 < i { ProducerInIsLast(run, steps, size, maxBlock, c, i - 1); }
  }

  lemma {:induction false} ConsumerInIsLast<T>(
    run: seq<State<T>>, steps: seq<Step<T>>, size: nat, maxBlock: nat, c: nat, i: nat)
    requires IsRun(run, steps, size, maxBlock) && ConsumerIn(run, steps, c, i)
    ensures LastConsume(steps, i) == Some(c)
    decreases i
  {
    hide Do, Initial, Wf;
    if c + 1 < i { ConsumerInIsLast(run, steps, size, maxBlock, c, i - 1); }
  }

  // ---------------------------------------------------------------------------
  // First in, first out
  // ---------------------------------------------------------------------------

  /** The producer's calls return true exactly where they publish. */
  lemma PutReturns<T>(s: State<T>, step: Step<T>)
    requires Enabled(s, step)
    ensures EventOf(s, step).Put? <==> !s.prod.PIdle? && Do(s, step).prod == PIdle(true)
    ensures EventOf(s, step).Put? ==> EventOf(s, step).x == s.prod.x
  {
    hide Flat, Queue, Wf;
  }

  lemma GotReturns<T>(s: State<T>, step: Step<T>)
    requires Enabled(s, step)
    ensures var cons := Do(s, step).cons;
      && (EventOf(s, step).Got? <==> !s.cons.CIdle? && cons.CIdle? && cons.ret.Took?)
      && (EventOf(s, step).Got? ==> cons.ret.value == EventOf(s, step).x)
  {
    hide Flat, Queue, Wf;
  }

  /** The histories grow exactly with the calls' results. */
  lemma ResultsFollow<T>(s: State<T>, step: Step<T>)
    requires Enabled(s, step)
    ensures var s' := Do(s, step);
      && s'.enqueued == s.enqueued + (if !s.prod.PIdle? && s'.prod == PIdle(true) then [s.prod.x] else [])
      && s'.dequeued == s.dequeued +
           (if !s.cons.CIdle? && s'.cons.CIdle? && s'.cons.ret.Took? then [s'.cons.ret.value] else [])
  {
    hide Do, Enabled, EventOf;
    LogsFollow(s, step);
    PutReturns(s, step);
    GotReturns(s, step);
  }

  lemma NothingYet<T>(s: State<T>, size: nat, maxBlock: nat)
    requires Initial(s, size, maxBlock)
    ensures s.enqueued == [] && s.dequeued == []
  {
    var rounded: nat :| Layout(s, size, maxBlock, rounded);
  }

  lemma {:induction false} CallsAreLogged<T>(
    run: seq<State<T>>, steps: seq<Step<T>>, size: nat, maxBlock: nat, i: nat)
    requires IsRun(run, steps, size, maxBlock) && i <= |steps|
    ensures Accepted(run, steps, i) == run[i].enqueued && Received(run, steps, i) == run[i].dequeued
    decreases i
  {
    hide Do, Enabled, Initial;
    if i == 0 {
      NothingYet(run[0], size, maxBlock);
    } else {
      CallsAreLogged(run, steps, size, maxBlock, i - 1);
      ResultsFollow(run[i - 1], steps[i - 1]);
      if !run[i - 1].prod.PIdle? && run[i].prod.PIdle? {
        var c := ProducerCall(run, steps, size, maxBlock, i - 1);
        StepRemembers(run[i - 1], steps[i - 1], steps[c].x, steps[c].canAlloc);
      }
    }
  }

  /** The elements accepted and not yet received. */
  ghost function Waiting<T>(run: seq<State<T>>, steps: seq<Step<T>>, i: nat): seq<T>
    requires |run| == |steps| + 1 && i <= |steps|
  {
    var n := |Received(run, steps, i)|;
    if n <= |Accepted(run, steps, i)| then Accepted(run, steps, i)[n..] else []
  }

  lemma WaitingIsQueue<T>(run: seq<State<T>>, steps: seq<Step<T>>, size: nat, maxBlock: nat, i: nat)
    requires IsRun(run, steps, size, maxBlock) && size >= 1 && i <= |steps|
    ensures Wf(run[i]) && Waiting(run, steps, i) == Queue(run[i])
    ensures Accepted(run, steps, i) == Received(run, steps, i) + Waiting(run, steps, i)
  {
    hide Do, Enabled, Initial, InMemory, Shown, Flat, Queue;
    CallsAreLogged(run, steps, size, maxBlock, i);
    Fifo(run, steps, size, maxBlock, i);
    assert Queue(run[i]) == run[i].enqueued[|run[i].dequeued|..];
  }

  /**
   First in, first out, for the callers: in every state of every run the elements returned
   so far, followed by those that wait, are exactly the arguments of the calls that returned
   true, in the order of the calls; and the memory from `frontBlock` to `tailBlock` spells out
   those that wait, but for one that the consumer is just moving out.
   */
  lemma CallerFifo<T>(run: seq<State<T>>, steps: seq<Step<T>>, size: nat, maxBlock: nat, i: nat)
    requires IsRun(run, steps, size, maxBlock) && size >= 1 && i <= |steps|
    ensures Wf(run[i]) && Accepted(run, steps, i) == Received(run, steps, i) + Waiting(run, steps, i)
    ensures InMemory(run[i]) == Shown(Waiting(run, steps, i), run[i].cons.CStore?)
  {
    hide Do, Enabled, Initial, InMemory, Shown, Flat, Queue;
    WaitingIsQueue(run, steps, size, maxBlock, i);
    Fifo(run, steps, size, maxBlock, i);
  }

  // ---------------------------------------------------------------------------
  // What the consumer's calls answer
  // ---------------------------------------------------------------------------

  /** A call that does not find the queue empty returns its front element. */
  lemma ReturnsFront<T>(s: State<T>)
    requires Inv(s) && !s.cons.CIdle? && ConsumerStep(s).cons.CIdle? && !ConsumerStep(s).cons.ret.WasEmpty?
    ensures Queue(s) != []
    ensures ConsumerStep(s).cons.ret == if s.cons.op.Peek? then Saw(Queue(s)[0]) else Took(Queue(s)[0])
  {
    ReturnKinds(s);
    if s.cons.op.Peek? {
      PeekSeesFront(s);
    } else {
      StepRefines(s, Consumer);
    }
    hide Queue, Flat, Inv;
  }

  /** What a call can return, by its kind. */
  lemma ReturnKinds<T>(s: State<T>)
    requires Inv(s) && !s.cons.CIdle? && ConsumerStep(s).cons.CIdle? && !ConsumerStep(s).cons.ret.WasEmpty?
    ensures if s.cons.op.Peek? then ConsumerStep(s).cons.ret.Saw? else EventOf(s, Consumer).Got?
    ensures EventOf(s, Consumer).Got? ==> ConsumerStep(s).cons.ret == Took(EventOf(s, Consumer).x)
  {
    assert s.cons.CAdvance? || s.cons.CStore? ==> !s.cons.op.Peek?;
    if ConsumerStep(s).cons.ret.Nothing? { NothingFaults(s); }
    ConsumerInvStep(s);
    hide Queue, Flat, BlockInv;
  }

  /** Only a fault makes a call return without an answer. */
  lemma NothingFaults<T>(s: State<T>)
    requires Wf(s) && !s.cons.CIdle? && ConsumerStep(s).cons.CIdle? && ConsumerStep(s).cons.ret.Nothing?
    ensures ConsumerStep(s).faulted
  {
    hide Queue, Flat;
  }

  /**
   Every consumer call, here made at step `c` and returning at step `j`: `peek` returns the
   element at the front, `try_dequeue` and `pop` take it, and "empty" is answered only if
   nothing waited when the call was made.
   */
  lemma ConsumerAnswers<T>(run: seq<State<T>>, steps: seq<Step<T>>, size: nat, maxBlock: nat, c: nat, j: nat)
    requires IsRun(run, steps, size, maxBlock) && size >= 1 && j < |steps|
    requires ConsumerIn(run, steps, c, j) && run[j + 1].cons.CIdle?
    ensures var ret, waiting := run[j + 1].cons.ret, Waiting(run, steps, j);
      if ret.WasEmpty? then Waiting(run, steps, c) == []
      else waiting != [] && ret == if steps[c].op.Peek? then Saw(waiting[0]) else Took(waiting[0])
  {
    var base := RunInv(run, steps, size, maxBlock, j);
    var c' := ConsumerCall(run, steps, size, maxBlock, j);
    ConsumerInIsLast(run, steps, size, maxBlock, c, j);
    WaitingIsQueue(run, steps, size, maxBlock, c);
    WaitingIsQueue(run, steps, size, maxBlock, j);
    StepServes(run[j], steps[j], steps[c].op);
    assert run[j + 1].cons == ConsumerStep(run[j]).cons;
    if run[j + 1].cons.ret.WasEmpty? {
      EmptyAtStart(run, steps, size, maxBlock, c, j);
    } else {
      ReturnsFront(run[j]);
    }
    hide Queue, Flat, Inv, Waiting;
  }

  // ---------------------------------------------------------------------------
  // What the producer's calls answer
  // ---------------------------------------------------------------------------

  /** Before it allocates, a call has seen that there is no other block to go on to. */
  lemma {:induction false} AllocPast<T>(run: seq<State<T>>, steps: seq<Step<T>>, size: nat, maxBlock: nat, j: nat)
    returns (m: nat)
    requires IsRun(run, steps, size, maxBlock) && j <= |steps| && run[j].prod.PAlloc?
    ensures m < j && run[m].prod.PCheckNext? && forall l: nat | m < l <= j :: run[l].prod.PAlloc?
    ensures Wf(run[m]) && run[m].blocks[run[m].tailBlock].next == run[m].frontBlock
    decreases j
  {
    InitialIdle(run[0], size, maxBlock);
    var s, step := run[j - 1], steps[j - 1];
    if s.prod.PAlloc? {
      m := AllocPast(run, steps, size, maxBlock, j - 1);
    } else {
      ReachedAlloc(s, step);
      m := j - 1;
    }
  }

  lemma ReachedAlloc<T>(s: State<T>, step: Step<T>)
    requires Enabled(s, step) && Do(s, step).prod.PAlloc? && !s.prod.PAlloc?
    ensures s.prod.PCheckNext? && s.blocks[s.tailBlock].next == s.frontBlock
  {
    hide Flat, Queue;
  }

  lemma Refusals<T>(s: State<T>, step: Step<T>)
    requires Enabled(s, step) && !s.prod.PIdle? && Do(s, step).prod == PIdle(false)
    ensures if s.prod.PCheckNext? then !s.prod.canAlloc && s.blocks[s.tailBlock].next == s.frontBlock
            else s.prod.PAlloc? && step == Producer(false)
  {
    hide Flat, Queue;
  }

  /**
   Every `enqueue` or `try_enqueue` call, here made at step `c` and returning false at step
   `j`: at an instant `k` of that call at least `size` elements waited, and a call that may
   allocate fails only because its allocation does.
   */
  lemma ProducerAnswers<T>(run: seq<State<T>>, steps: seq<Step<T>>, size: nat, maxBlock: nat, c: nat, j: nat)
    returns (k: nat)
    requires IsRun(run, steps, size, maxBlock) && size >= 1 && j < |steps|
    requires ProducerIn(run, steps, c, j) && run[j + 1].prod == PIdle(false)
    ensures c < k <= j && |Waiting(run, steps, k)| >= size
    ensures steps[c].canAlloc ==> steps[j] == Producer(false)
  {
    hide Flat, Queue, Inv, Waiting, Initial, Do;
    var c' := ProducerCall(run, steps, size, maxBlock, j);
    ProducerInIsLast(run, steps, size, maxBlock, c, j);
    Refusals(run[j], steps[j]);
    var m := j;
    if run[j].prod.PAlloc? { m := AllocPast(run, steps, size, maxBlock, j); }
    k := NoRoomSeen(run, steps, size, maxBlock, m);
    assert run[c].prod.PIdle?;
    WaitingIsQueue(run, steps, size, maxBlock, k);
  }

  lemma NoRoomSeen<T>(run: seq<State<T>>, steps: seq<Step<T>>, size: nat, maxBlock: nat, m: nat) returns (k: nat)
    requires IsRun(run, steps, size, maxBlock) && size >= 1 && m <= |steps| && run[m].prod.PCheckNext?
    requires Wf(run[m]) && run[m].blocks[run[m].tailBlock].next == run[m].frontBlock
    ensures k < m && Wf(run[k]) && |Queue(run[k])| >= size && !run[k].prod.PIdle?
    ensures forall l: nat | k < l <= m :: !run[l].prod.PIdle?
  {
    var base := RunInv(run, steps, size, maxBlock, m);
    k := SeenIsPast(run, steps, size, maxBlock, m);
    NextIsFront(run[m]);
  }

  // ---------------------------------------------------------------------------
  // Allocation
  // ---------------------------------------------------------------------------

  /** A step adds no block, or the one that the allocator granted. */
  ghost predicate Grants<T>(s: State<T>, s': State<T>, step: Step<T>) {
    && s'.maxBlock == s.maxBlock
    && if |s'.blocks| == |s.blocks| then s'.largest == s.largest
       else
         && |s'.blocks| == |s.blocks| + 1 && s.prod.PAlloc? && step == Producer(true)
         && s'.largest == NewSize(s) && |s'.blocks[|s.blocks|].data| == NewSize(s)
  }

  lemma BlocksStep<T>(s: State<T>, step: Step<T>)
    requires Enabled(s, step)
    ensures Grants(s, Do(s, step), step)
  {
    hide Flat, Queue, InRange;
    match step
    case Producer(allocOk) => if !s.prod.PAlloc? { ProducerAddsNone(s, allocOk); }
    case Consumer => ConsumerAddsNone(s);
    case _ =>
  }

  lemma ProducerAddsNone<T>(s: State<T>, allocOk: bool)
    requires Wf(s) && !s.prod.PAlloc?
    ensures var s' := ProducerStep(s, allocOk);
      |s'.blocks| == |s.blocks| && s'.largest == s.largest && s'.maxBlock == s.maxBlock
  {
    hide Flat, Queue, InRange;
  }

  lemma ConsumerAddsNone<T>(s: State<T>)
    requires Wf(s)
    ensures var s' := ConsumerStep(s);
      |s'.blocks| == |s.blocks| && s'.largest == s.largest && s'.maxBlock == s.maxBlock
  {
    hide Flat, Queue, InRange;
  }

  /** Only a call of `enqueue` whose allocation succeeds adds a block; `try_enqueue` never does. */
  lemma AllocatesWithLeave<T>(run: seq<State<T>>, steps: seq<Step<T>>, size: nat, maxBlock: nat, i: nat)
    requires IsRun(run, steps, size, maxBlock) && i < |steps| && |run[i + 1].blocks| != |run[i].blocks|
    ensures |run[i + 1].blocks| == |run[i].blocks| + 1 && steps[i] == Producer(true)
    ensures LastEnqueue(steps, i).Some? && steps[LastEnqueue(steps, i).value].canAlloc
  {
    hide Do, Initial;
    BlocksStep(run[i], steps[i]);
    var c := ProducerCall(run, steps, size, maxBlock, i);
  }

  /** The size of the `a`-th new block of a queue whose first blocks have `first` slots. */
  function SizeOf(first: nat, maxBlock: nat, a: nat): nat {
    if first >= maxBlock then first
    else if first * Pow2(a) >= maxBlock then maxBlock
    else first * Pow2(a)
  }

  lemma SizeGrows(first: nat, maxBlock: nat, a: nat)
    requires IsPow2(first) && IsPow2(maxBlock)
    ensures var size := SizeOf(first, maxBlock, a);
      SizeOf(first, maxBlock, a + 1) == if size >= maxBlock then size else size * 2
  {
    var m: nat, n: nat :| first == Pow2(m) && maxBlock == Pow2(n);
    Pow2Add(m, a);
    Pow2Add(m, a + 1);
    hide Pow2;
    NextPow2(m + a, n);
    if m >= n { AtLeast(m, n); }
    if m < n { NextPow2(m, n); }
  }

  lemma AtLeast(m: nat, n: nat)
    requires m >= n
    ensures Pow2(m) >= Pow2(n)
  {
    if m > n { Pow2Grows(n, m); }
  }

  /** There is no power of two between a power of two and its double. */
  lemma NextPow2(m: nat, n: nat)
    ensures Pow2(m + 1) == 2 * Pow2(m)
    ensures Pow2(m) < Pow2(n) ==> 2 * Pow2(m) <= Pow2(n)
  {
    if m >= n { AtLeast(m, n); } else { Pow2Grows(m, n); }
  }

  /** Each new block has twice as many slots as the largest before, up to `MAX_BLOCK_SIZE`. */
  lemma {:induction false} BlocksDouble<T>(
    run: seq<State<T>>, steps: seq<Step<T>>, size: nat, maxBlock: nat, i: nat)
    requires IsRun(run, steps, size, maxBlock) && i <= |steps|
    ensures var first := |run[0].blocks|;
      && first <= |run[i].blocks| && run[i].maxBlock == maxBlock
      && run[i].largest == SizeOf(run[0].largest, maxBlock, |run[i].blocks| - first)
      && (i < |steps| && |run[i + 1].blocks| > |run[i].blocks| ==>
            |run[i + 1].blocks[|run[i].blocks|].data| == SizeOf(run[0].largest, maxBlock, |run[i].blocks| - first + 1))
    decreases i
  {
    hide Do, Enabled, SizeOf;
    FirstSize(run[0], size, maxBlock);
    if i > 0 {
      BlocksDouble(run, steps, size, maxBlock, i - 1);
      BlocksStep(run[i - 1], steps[i - 1]);
      SizeGrows(run[0].largest, maxBlock, |run[i - 1].blocks| - |run[0].blocks|);
    }
    if i < |steps| {
      BlocksStep(run[i], steps[i]);
      SizeGrows(run[0].largest, maxBlock, |run[i].blocks| - |run[0].blocks|);
    }
  }

  lemma FirstSize<T>(s: State<T>, size: nat, maxBlock: nat)
    requires Initial(s, size, maxBlock)
    ensures IsPow2(s.largest) && IsPow2(maxBlock) && s.maxBlock == maxBlock
    ensures SizeOf(s.largest, maxBlock, 0) == s.largest
  {
    var rounded: nat :| Layout(s, size, maxBlock, rounded);
  }

  // ---------------------------------------------------------------------------
  // Every call ends
  // ---------------------------------------------------------------------------

  /** How many of its own steps the producer needs at most. */
  function ProducerRank<T>(prod: Producer<T>): nat {
    match prod
    case PIdle(_) => 0
    case PPublish(_) => 1
    case PAdvance(_, _) => 1
    case PWrite(_) => 2
    case PBumpNext(_) => 2
    case PLink(_, _) => 2
    case PWriteNext(_) => 3
    case PAlloc(_) => 3
    case PLoadNextFront(_) => 4
    case PCheckNext(_, _, _) => 5
    case PLoadFront(_, _) => 6
  }

  /** How many of its own steps the consumer needs at most. */
  function ConsumerRank<T>(cons: Consumer<T>): nat {
    match cons
    case CIdle(_) => 0
    case CStore(_, _) => 1
    case CTake(_) => 2
    case CAdvance(_, _) => 3
    case CLoadNextTail(_, _) => 4
    case CLoadNext(_) => 5
    case CRecheck(_) => 6
    case CLoadTailBlock(_, _) => 7
    case CLoadTail(_) => 8
  }

  lemma ProducerRankFalls<T>(s: State<T>, step: Step<T>)
    requires Enabled(s, step)
    ensures var prod := Do(s, step).prod;
      match step
      case Enqueue(_, _) => ProducerRank(prod) <= 6
      case Producer(_) => ProducerRank(prod) < ProducerRank(s.prod)
      case _ => prod == s.prod
  {
    hide Flat, Queue, Wf;
    if step.Producer? { assert Do(s, step) == ProducerStep(s, step.allocOk); }
  }

  lemma ConsumerRankFalls<T>(s: State<T>, step: Step<T>)
    requires Enabled(s, step)
    ensures var cons := Do(s, step).cons;
      match step
      case Consume(_) => ConsumerRank(cons) <= 8
      case Consumer => ConsumerRank(cons) < ConsumerRank(s.cons)
      case _ => cons == s.cons
  {
    hide Flat, Queue, Wf, ConsumerStep, ProducerStep;
    match step
    case Producer(allocOk) => ProducerKeepsCons(s, allocOk);
    case Consumer => ConsumerStepRank(s);
    case _ =>
  }

  lemma ConsumerStepRank<T>(s: State<T>)
    requires Wf(s) && !s.cons.CIdle?
    ensures ConsumerRank(ConsumerStep(s).cons) < ConsumerRank(s.cons)
  {
    hide Flat, Queue;
  }

  lemma ProducerKeepsCons<T>(s: State<T>, allocOk: bool)
    requires Wf(s)
    ensures ProducerStep(s, allocOk).cons == s.cons
  {
    hide Flat, Queue;
  }

  /** The steps of the producer between states `c` and `i`. */
  function ProducerSteps<T>(steps: seq<Step<T>>, c: nat, i: nat): nat
    requires c <= i <= |steps|
  {
    if c == i then 0 else ProducerSteps(steps, c, i - 1) + if steps[i - 1].Producer? then 1 else 0
  }

  function ConsumerSteps<T>(steps: seq<Step<T>>, c: nat, i: nat): nat
    requires c <= i <= |steps|
  {
    if c == i then 0 else ConsumerSteps(steps, c, i - 1) + if steps[i - 1].Consumer? then 1 else 0
  }

  /** Wait-free: however the threads interleave, a producer call returns with its sixth step at the latest. */
  lemma {:induction false} ProducerWaitFree<T>(
    run: seq<State<T>>, steps: seq<Step<T>>, size: nat, maxBlock: nat, c: nat, i: nat)
    requires IsRun(run, steps, size, maxBlock) && ProducerIn(run, steps, c, i)
    ensures ProducerSteps(steps, c, i) + ProducerRank(run[i].prod) <= 6
    ensures ProducerSteps(steps, c, i) < 6
    decreases i
  {
    hide Do, Initial, Wf;
    ProducerRankFalls(run[i - 1], steps[i - 1]);
    if c + 1 < i {
      ProducerWaitFree(run, steps, size, maxBlock, c, i - 1);
    }
  }

  /** Wait-free: a consumer call returns with its eighth step at the latest. */
  lemma {:induction false} ConsumerWaitFree<T>(
    run: seq<State<T>>, steps: seq<Step<T>>, size: nat, maxBlock: nat, c: nat, i: nat)
    requires IsRun(run, steps, size, maxBlock) && ConsumerIn(run, steps, c, i)
    ensures ConsumerSteps(steps, c, i) + ConsumerRank(run[i].cons) <= 8
    ensures ConsumerSteps(steps, c, i) < 8
    decreases i
  {
    hide Do, Initial, Wf;
    ConsumerRankFalls(run[i - 1], steps[i - 1]);
    if c + 1 < i {
      ConsumerWaitFree(run, steps, size, maxBlock, c, i - 1);
    }
  }
}
