/**
 The single-producer single-consumer queue over whole runs: it is a FIFO queue, its
 asserts hold, a failed `try_dequeue` saw an empty queue and a failed `try_enqueue` saw
 at least the number of elements the constructor was asked to make room for.
 */
module SpscTheorems {
  import opened Options
  import opened Bits
  import opened SpscBlock
  import opened SpscQueue
  import opened SpscQueueProof
  import opened SpscMemory

  // ---------------------------------------------------------------------------
  // The constructor
  // ---------------------------------------------------------------------------

  function EmptyBlock<T>(size: nat, next: nat): Block<T> {
    Block(0, 0, 0, 0, next, seq(size, _ => None))
  }

  /** `count` empty blocks of `size` slots linked in a circle, both ends at block 0. */
  ghost predicate Fresh<T>(s: State<T>, count: nat, size: nat) {
    && count >= 1 && |s.blocks| == |s.tracks| == |s.ring| == count
    && (forall i: nat | i < count ::
          && s.blocks[i] == EmptyBlock(size, if i + 1 < count then i + 1 else 0)
          && s.tracks[i] == Track([], 0, 0) && s.ring[i] == i)
    && s.frontBlock == 0 && s.tailBlock == 0 && s.t == 0 && s.largest == size
    && s.prod.PIdle? && s.cons.CIdle? && !s.faulted
    && s.enqueued == [] && s.dequeued == []
  }

  /** What `ReaderWriterQueue(size)` builds. */
  ghost predicate Initial<T>(s: State<T>, size: nat, maxBlock: nat) {
    && maxBlock >= 2 && IsPow2(maxBlock) && s.maxBlock == maxBlock
    && exists rounded: nat :: Layout(s, size, maxBlock, rounded)
  }

  ghost predicate Layout<T>(s: State<T>, size: nat, maxBlock: nat, rounded: nat)
    requires maxBlock >= 2
  {
    && IsLeastPow2(rounded, size + 1)
    && if rounded > maxBlock * 2
       then Fresh(s, BlockCount(size, maxBlock), maxBlock)
       else Fresh(s, 1, rounded)
  }

  function BlockCount(size: nat, maxBlock: nat): nat
    requires maxBlock >= 2
  {
    (size + maxBlock * 2 - 3) / (maxBlock - 1)
  }

  /** The constructor, with its block-linking loop, on a word of `bytes` bytes. */
  method Construct<T>(size: nat, maxBlock: nat, bytes: nat) returns (s: State<T>)
    requires bytes >= 1 && size + 1 <= Pow2(8 * bytes - 1)
    requires maxBlock >= 2 && IsPow2(maxBlock)
    ensures Initial(s, size, maxBlock)
  {
    assert Pow2(8 * bytes) == 2 * Pow2(8 * bytes - 1);
    var largest := CeilToPow2(size + 1, bytes);
    ghost var rounded := largest;
    var count := 1;
    if largest > maxBlock * 2 {
      count := BlockCount(size, maxBlock);
      RoundedIsSmall(size + 1, largest);
      CountPositive(size, maxBlock);
      largest := maxBlock;
    }
    var blocks: seq<Block<T>> := [];
    var i: nat := 0;
    while i != count
      invariant 0 <= i <= count && |blocks| == i
      invariant forall j: nat | j < i :: blocks[j] == EmptyBlock(largest, if j + 1 < i then j + 1 else 0)
    {
      if i > 0 { blocks := blocks[i - 1 := blocks[i - 1].(next := i)]; }
      blocks := blocks + [EmptyBlock(largest, 0)];
      i := i + 1;
    }
    s := State(blocks, 0, 0, largest, maxBlock, PIdle(true), CIdle(Nothing), false,
               seq(count, j requires 0 <= j => j), 0, seq(count, _ => Track([], 0, 0)), [], []);
    assert Fresh(s, count, largest);
    assert Layout(s, size, maxBlock, rounded);
  }

  lemma RoundedIsSmall(x: nat, r: nat)
    requires x >= 1 && IsLeastPow2(r, x)
    ensures r < 2 * x
  {
    var n: nat :| r == Pow2(n);
    if n > 0 { HalfTooSmall(x, n); }
  }

  lemma HalfTooSmall(x: nat, n: nat)
    requires n > 0 && IsLeastPow2(Pow2(n), x)
    ensures Pow2(n - 1) < x
  {}

  lemma CountPositive(size: nat, maxBlock: nat)
    requires maxBlock >= 2 && size >= 1
    ensures BlockCount(size, maxBlock) >= 2
  {
    QuotientAtLeast(size + maxBlock * 2 - 3, maxBlock - 1, 2);
  }

  lemma QuotientAtLeast(y: nat, d: nat, q: nat)
    requires d >= 1 && y >= q * d
    ensures y / d >= q
  {
    DivMod(y, d);
    if y / d < q { MulMono(y / d + 1, q, d); }
  }

  // ---------------------------------------------------------------------------
  // Capacity
  // ---------------------------------------------------------------------------

  /** Elements certainly present when `n` blocks of at least `base` slots offer no room. */
  function Room(n: nat, base: nat): nat
    requires base >= 1
  {
    if n <= 1 then base - 1 else (n - 1) * (base - 1)
  }

  /** The block-count formula of the constructor makes room for `size` elements. */
  lemma LayoutSuffices(size: nat, maxBlock: nat)
    requires maxBlock >= 2 && size >= 1
    ensures Room(BlockCount(size, maxBlock), maxBlock) >= size
  {
    var d := maxBlock - 1;
    var y := size + maxBlock * 2 - 3;
    DivMod(y, d);
    CountPositive(size, maxBlock);
    var n := y / d;
    assert (n - 1) * d == n * d - d;
  }

  lemma RoomGrows(n: nat, base: nat)
    requires n >= 1 && base >= 1
    ensures Room(n + 1, base) >= Room(n, base)
  {
    if n >= 2 { MulMono(n - 1, n, base - 1); }
  }

  /** Every block has at least `base` slots, and enough blocks exist for `want` elements. */
  ghost predicate CapacityInv<T>(s: State<T>, base: nat, want: nat) {
    && Inv(s)
    && base >= 2 && LargeBlocks(s, base)
    && Room(|s.ring|, base) >= want
    && (s.prod.PCheckNext? && s.t + 1 == |s.ring| ==> s.prod.seen >= want)
  }

  lemma FreshInv<T>(s: State<T>, count: nat, size: nat)
    requires Fresh(s, count, size) && size >= 2 && s.maxBlock >= 2
    ensures Inv(s) && Queue(s) == []
  {
    forall i: nat | i < |s.ring| ensures BlockInv(s, i) {}
    QueueAlone(s);
  }

  /** A queue built for at least one element starts in the invariant. */
  lemma InitialInv<T>(s: State<T>, size: nat, maxBlock: nat) returns (base: nat)
    requires Initial(s, size, maxBlock) && size >= 1
    ensures CapacityInv(s, base, size) && Queue(s) == []
  {
    var rounded: nat :| Layout(s, size, maxBlock, rounded);
    if rounded > maxBlock * 2 {
      base := maxBlock;
      LayoutSuffices(size, maxBlock);
      FreshInv(s, BlockCount(size, maxBlock), maxBlock);
    } else {
      base := rounded;
      FreshInv(s, 1, rounded);
    }
  }

  /** No room anywhere means at least `Room` elements are in the queue. */
  lemma FullQueue<T>(s: State<T>, base: nat)
    requires Inv(s) && base >= 1 && s.t + 1 == |s.ring|
    requires LargeBlocks(s, base)
    requires |Last(s).items| == LastSize(s) - 1
    ensures |Queue(s)| >= Room(|s.ring|, base)
  {
    if s.t == 0 {
      QueueAlone(s);
    } else {
      QueueHead(s);
      var ids := s.ring[1..s.t + 1];
      forall i | 0 <= i < |ids| ensures |s.tracks[ids[i]].items| >= base - 1 {
        assert BlockInv(s, i + 1);
      }
      FlatLength(s.tracks, ids, base - 1);
    }
  }

  lemma StepKeepsInv<T>(s: State<T>, step: Step<T>)
    requires Inv(s) && Enabled(s, step)
    ensures Inv(Do(s, step))
  {
    hide Inv;
    match step
    case Enqueue(x, canAlloc) => StartEnqueueInv(s, x, canAlloc);
    case Producer(allocOk) => ProducerInvStep(s, allocOk);
    case Consume(op) => StartConsumeInv(s, op);
    case Consumer => ConsumerInvStep(s);
  }

  /** No step changes the size of a block; a new block is at least as large as any before. */
  lemma ProducerKeepsSizes<T>(s: State<T>, allocOk: bool, base: nat)
    requires Wf(s) && LargeBlocks(s, base)
    ensures LargeBlocks(ProducerStep(s, allocOk), base)
    ensures |s.ring| <= |ProducerStep(s, allocOk).ring| <= |s.ring| + 1
  {
    hide Flat, Queue, LargeBlocks, NewBlock;
    var tb, nb := s.tailBlock, s.blocks[s.tailBlock].next;
    var s' := ProducerStep(s, allocOk);
    match s.prod
    case PAlloc(x) =>
      if allocOk { BlockAdded(s, s', base); } else { BlockSet(s, s', tb, base); }
    case PLoadNextFront(_) => BlockSet(s, s', nb, base);
    case PWriteNext(_) => BlockSet(s, s', nb, base);
    case PBumpNext(_) => BlockSet(s, s', nb, base);
    case _ => BlockSet(s, s', tb, base);
  }

  lemma BlockSet<T>(s: State<T>, s': State<T>, id: nat, base: nat)
    requires LargeBlocks(s, base) && id < |s.blocks| == |s'.blocks| && s'.largest == s.largest
    requires s'.blocks == s.blocks[id := s'.blocks[id]] && |s'.blocks[id].data| == |s.blocks[id].data|
    ensures LargeBlocks(s', base)
  {
    hide IsPow2;
    forall i: nat | i < |s.blocks| ensures |s'.blocks[i].data| >= base && IsPow2(|s'.blocks[i].data|) {
      assert s'.blocks[i] == s.blocks[id := s'.blocks[id]][i];
    }
  }

  lemma BlockAdded<T>(s: State<T>, s': State<T>, base: nat)
    requires Wf(s) && LargeBlocks(s, base) && s.prod.PAlloc? && s' == Allocate(s, true)
    ensures LargeBlocks(s', base)
  {
    DoubledIsPow2(s.largest);
    hide IsPow2;
  }

  lemma ConsumerKeepsSizes<T>(s: State<T>, base: nat)
    requires Wf(s) && LargeBlocks(s, base)
    ensures LargeBlocks(ConsumerStep(s), base) && |ConsumerStep(s).ring| == |s.ring|
  {
    hide Flat, Queue, LargeBlocks;
    match s.cons
    case CLoadNextTail(_, nb) => BlockSet(s, ConsumerStep(s), nb, base);
    case _ => BlockSet(s, ConsumerStep(s), s.frontBlock, base);
  }

  /** Blocks have at least `base` slots, and a power of two of them, so that masking works. */
  ghost predicate LargeBlocks<T>(s: State<T>, base: nat) {
    && s.largest >= base && IsPow2(s.largest)
    && forall i: nat | i < |s.blocks| :: |s.blocks[i].data| >= base && IsPow2(|s.blocks[i].data|)
  }

  lemma StartKeepsSizes<T>(s: State<T>, s': State<T>, base: nat)
    requires LargeBlocks(s, base) && s'.blocks == s.blocks && s'.largest == s.largest
    ensures LargeBlocks(s', base)
  {}

  lemma SeenEnough<T>(s: State<T>, base: nat, want: nat)
    requires CapacityInv(s, base, want) && s.prod.PLoadFront?
    ensures var s' := LoadFront(s);
      s'.prod.PCheckNext? && s'.t + 1 == |s'.ring| ==> s'.prod.seen >= want
  {
    hide BlockOk, Flat;
    assert BlockInv(s, s.t);
    RoomTest(s.blocks[s.tailBlock], Last(s), Held(s, s.t));
    BlockFacts(s.blocks[s.tailBlock], Last(s), Held(s, s.t), None);
    if s.t + 1 == |s.ring| && LoadFront(s).prod.PCheckNext? { FullQueue(s, base); }
  }

  lemma StepKeepsCapacity<T>(s: State<T>, step: Step<T>, base: nat, want: nat)
    requires CapacityInv(s, base, want) && Enabled(s, step)
    ensures CapacityInv(Do(s, step), base, want)
  {
    hide Inv, Flat, Queue, LargeBlocks;
    StepKeepsInv(s, step);
    match step {
      case Enqueue(_, _) => StartKeepsSizes(s, Do(s, step), base);
      case Producer(allocOk) => ProducerKeepsSizes(s, allocOk, base);
      case Consume(_) => StartKeepsSizes(s, Do(s, step), base);
      case Consumer => ConsumerKeepsSizes(s, base);
    }
    RoomGrows(|s.ring|, base);
    if s.prod.PLoadFront? { SeenEnough(s, base, want); }
    if s.cons.CAdvance? { AdvanceLeavesGap(s); }
  }

  /** Advancing the front block frees the block after the tail. */
  lemma AdvanceLeavesGap<T>(s: State<T>)
    requires Inv(s) && s.cons.CAdvance?
    ensures StoreFrontBlock(s).t + 1 < |StoreFrontBlock(s).ring|
  {}

  // ---------------------------------------------------------------------------
  // Runs
  // ---------------------------------------------------------------------------

  /** A run from the constructor: any interleaving of the two threads' steps. */
  ghost predicate IsRun<T>(run: seq<State<T>>, steps: seq<Step<T>>, size: nat, maxBlock: nat) {
    && |run| == |steps| + 1
    && Initial(run[0], size, maxBlock)
    && forall i: nat | i < |steps| :: Enabled(run[i], steps[i]) && run[i + 1] == Do(run[i], steps[i])
  }

  lemma {:induction false} RunInv<T>(
    run: seq<State<T>>, steps: seq<Step<T>>, size: nat, maxBlock: nat, i: nat)
    returns (base: nat)
    requires IsRun(run, steps, size, maxBlock) && size >= 1 && i <= |steps|
    ensures CapacityInv(run[i], base, size)
    decreases i
  {
    if i == 0 {
      base := InitialInv(run[0], size, maxBlock);
    } else {
      base := RunInv(run, steps, size, maxBlock, i - 1);
      StepKeepsCapacity(run[i - 1], steps[i - 1], base, size);
    }
  }

  /**
   In every state of every run the elements taken out are a prefix of the elements put
   in; the rest is what the memory spells out from `frontBlock` along `next` to `tailBlock`
   and in each block from `front` to `tail` (but for an element the consumer has already
   moved out); and no assert failed, no live slot was constructed over and no dead slot
   was read.
   */
  lemma Fifo<T>(run: seq<State<T>>, steps: seq<Step<T>>, size: nat, maxBlock: nat, i: nat)
    requires IsRun(run, steps, size, maxBlock) && size >= 1 && i <= |steps|
    ensures Wf(run[i]) && run[i].enqueued == run[i].dequeued + Queue(run[i])
    ensures InMemory(run[i]) == Shown(Queue(run[i]), run[i].cons.CStore?)
    ensures run[i].dequeued <= run[i].enqueued
    ensures !run[i].faulted
  {
    var base := RunInv(run, steps, size, maxBlock, i);
    MemoryHoldsQueue(run[i]);
    hide Flat, InMemory, Shown, BlockInv;
  }

  /**
   In every state of every run each block has a power of two of slots, so the index step of
   the model is the code's `(index + 1) & sizeMask`.
   */
  lemma IndexStepsAreMasked<T>(
    run: seq<State<T>>, steps: seq<Step<T>>, size: nat, maxBlock: nat, i: nat, id: nat, x: nat)
    requires IsRun(run, steps, size, maxBlock) && size >= 1 && i <= |steps|
    requires id < |run[i].blocks| && x < |run[i].blocks[id].data|
    ensures Inc(x, |run[i].blocks[id].data|) == And(x + 1, |run[i].blocks[id].data| - 1)
  {
    var base := RunInv(run, steps, size, maxBlock, i);
    MaskedStep(x, |run[i].blocks[id].data|);
  }

  /** The abstract queue operation a step performs, if any. */
  datatype Event<T> = Silent | Put(x: T) | Got(x: T)

  function EventOf<T>(s: State<T>, step: Step<T>): Event<T> {
    if step.Producer? && (s.prod.PPublish? || s.prod.PAdvance?) then Put(s.prod.x)
    else if step.Consumer? && s.cons.CStore? then Got(s.cons.value)
    else Silent
  }

  /** Each step is invisible, appends one element at the back, or removes the front one. */
  lemma StepRefines<T>(s: State<T>, step: Step<T>)
    requires Inv(s) && Enabled(s, step)
    ensures Inv(Do(s, step))
    ensures match EventOf(s, step)
            case Silent => Queue(Do(s, step)) == Queue(s)
            case Put(x) => Queue(Do(s, step)) == Queue(s) + [x]
            case Got(x) => Queue(s) == [x] + Queue(Do(s, step))
  {
    StepKeepsInv(s, step);
    var s' := Do(s, step);
    LogsFollow(s, step);
    assert s.enqueued == s.dequeued + Queue(s) && s'.enqueued == s'.dequeued + Queue(s');
    match EventOf(s, step)
    case Silent => Cancel(s.dequeued, Queue(s'), Queue(s));
    case Put(x) => Cancel(s.dequeued, Queue(s'), Queue(s) + [x]);
    case Got(x) => Cancel(s.dequeued, [x] + Queue(s'), Queue(s));
  }

  lemma LogsFollow<T>(s: State<T>, step: Step<T>)
    requires Enabled(s, step)
    ensures var s' := Do(s, step); match EventOf(s, step)
            case Silent => s'.enqueued == s.enqueued && s'.dequeued == s.dequeued
            case Put(x) => s'.enqueued == s.enqueued + [x] && s'.dequeued == s.dequeued
            case Got(x) => s'.enqueued == s.enqueued && s'.dequeued == s.dequeued + [x]
  {
    hide Flat, Queue, Wf;
  }

  lemma Cancel<T>(p: seq<T>, a: seq<T>, b: seq<T>)
    requires p + a == p + b
    ensures a == b
  {
    assert a == (p + a)[|p|..] && b == (p + b)[|p|..];
  }

  /** The state just before a consumer call reports "empty": the number it saw was 0. */
  lemma SawNothing<T>(s: State<T>)
    requires Inv(s) && s.cons.CLoadTailBlock? && ConsumerStep(s).cons == CIdle(WasEmpty)
    ensures s.cons.seen == 0
  {}

  /** A `peek` that returns an element returns the front of the queue. */
  lemma PeekSeesFront<T>(s: State<T>)
    requires Inv(s) && !s.cons.CIdle? && ConsumerStep(s).cons.CIdle? && ConsumerStep(s).cons.ret.Saw?
    ensures Queue(s) != [] && ConsumerStep(s).cons.ret.value == Queue(s)[0]
  {
    QueueHead(s);
    assert BlockInv(s, 0);
    if s.cons.CTake? {
      BlockFacts(s.blocks[s.frontBlock], First(s), false, Extra(s, 0));
      Take(s.blocks[s.frontBlock], First(s), Extra(s, 0));
    } else {
      assert BlockInv(s, 1);
      Take(s.blocks[s.ring[1]], s.tracks[s.ring[1]], Extra(s, 1));
      assert s.ring[1..s.t + 1][0] == s.ring[1];
    }
  }

  /**
   The producer's `seen` is the number of elements at an earlier instant of the same call:
   the instant it loaded `front`.
   */
  lemma {:induction false} SeenIsPast<T>(run: seq<State<T>>, steps: seq<Step<T>>, size: nat, maxBlock: nat, j: nat)
    returns (k: nat)
    requires IsRun(run, steps, size, maxBlock) && size >= 1 && j <= |steps|
    requires run[j].prod.PCheckNext?
    ensures k < j && Wf(run[k]) && |Queue(run[k])| == run[j].prod.seen
    ensures run[k].prod.PLoadFront? && forall l: nat | k < l <= j :: run[l].prod == run[j].prod
    decreases j
  {
    InitialIdle(run[0], size, maxBlock);
    if run[j - 1].prod == run[j].prod {
      k := SeenIsPast(run, steps, size, maxBlock, j - 1);
    } else {
      ReachedCheckNext(run[j - 1], steps[j - 1]);
      k := j - 1;
    }
  }

  lemma InitialIdle<T>(s: State<T>, size: nat, maxBlock: nat)
    requires Initial(s, size, maxBlock)
    ensures s.prod.PIdle? && s.cons.CIdle?
  {
    var rounded: nat :| Layout(s, size, maxBlock, rounded);
  }

  lemma ReachedCheckNext<T>(s: State<T>, step: Step<T>)
    requires Enabled(s, step) && Do(s, step).prod.PCheckNext? && Do(s, step).prod != s.prod
    ensures s.prod.PLoadFront? && Do(s, step).prod.seen == |Queue(s)|
  {
    hide Flat, Queue, Wf;
  }

  /**
   Capacity guarantee: if `try_enqueue` returns false at step `j` of a run of a queue
   built for `size >= 1` elements, then at some instant of that call at least `size`
   elements were outstanding.
   */
  lemma CapacityGuarantee<T>(run: seq<State<T>>, steps: seq<Step<T>>, size: nat, maxBlock: nat, j: nat)
    returns (k: nat)
    requires IsRun(run, steps, size, maxBlock) && size >= 1 && j < |steps|
    requires steps[j].Producer? && run[j].prod.PCheckNext? && !run[j].prod.canAlloc
    requires run[j + 1].prod == PIdle(false)
    ensures k < j && Wf(run[k]) && |Queue(run[k])| >= size
    ensures run[k].prod.PLoadFront? && forall l: nat | k < l <= j :: run[l].prod == run[j].prod
  {
    var base := RunInv(run, steps, size, maxBlock, j);
    k := SeenIsPast(run, steps, size, maxBlock, j);
    NextIsFront(run[j]);
  }

  /** The consumer's `seen` is the number of elements at the instant of the same call when it loaded `tail`. */
  lemma {:induction false} ConsumerSeenIsPast<T>(
    run: seq<State<T>>, steps: seq<Step<T>>, size: nat, maxBlock: nat, j: nat)
    returns (k: nat)
    requires IsRun(run, steps, size, maxBlock) && size >= 1 && j <= |steps|
    requires run[j].cons.CLoadTailBlock?
    ensures k < j && Wf(run[k]) && |Queue(run[k])| == run[j].cons.seen
    ensures run[k].cons.CLoadTail? && forall l: nat | k < l <= j :: run[l].cons == run[j].cons
    decreases j
  {
    InitialIdle(run[0], size, maxBlock);
    if run[j - 1].cons == run[j].cons {
      k := ConsumerSeenIsPast(run, steps, size, maxBlock, j - 1);
    } else {
      ReachedLoadTailBlock(run[j - 1], steps[j - 1]);
      k := j - 1;
    }
  }

  lemma ReachedLoadTailBlock<T>(s: State<T>, step: Step<T>)
    requires Enabled(s, step) && Do(s, step).cons.CLoadTailBlock? && Do(s, step).cons != s.cons
    ensures s.cons.CLoadTail? && Do(s, step).cons.seen == |Queue(s)|
  {
    hide Flat, Queue, Wf;
  }

  /**
   If `try_dequeue`, `pop` or `peek` reports "empty" at step `j` of a run, then at some
   instant of that very call the queue was empty.
   */
  lemma EmptyWasSeen<T>(run: seq<State<T>>, steps: seq<Step<T>>, size: nat, maxBlock: nat, j: nat)
    returns (k: nat)
    requires IsRun(run, steps, size, maxBlock) && size >= 1 && j < |steps|
    requires steps[j].Consumer? && run[j].cons.CLoadTailBlock? && run[j + 1].cons == CIdle(WasEmpty)
    ensures k < j && Wf(run[k]) && Queue(run[k]) == []
    ensures run[k].cons.CLoadTail? && forall l: nat | k < l <= j :: run[l].cons == run[j].cons
  {
    var base := RunInv(run, steps, size, maxBlock, j);
    SawNothing(run[j]);
    hide Queue, Flat, Inv;
    k := ConsumerSeenIsPast(run, steps, size, maxBlock, j);
  }

  /** "Empty" is reported at no other place. */
  lemma EmptyOnlyThere<T>(s: State<T>, step: Step<T>)
    requires Enabled(s, step) && Do(s, step).cons == CIdle(WasEmpty) && s.cons != CIdle(WasEmpty)
    ensures step.Consumer? && s.cons.CLoadTailBlock?
  {
    hide Flat, Queue, Wf;
  }

  /** Until the consumer itself takes an element, a non-empty queue stays non-empty. */
  lemma {:induction false} StaysNonEmpty<T>(
    run: seq<State<T>>, steps: seq<Step<T>>, size: nat, maxBlock: nat, i: nat, j: nat)
    requires IsRun(run, steps, size, maxBlock) && size >= 1 && i <= j <= |steps|
    requires Wf(run[i]) && Queue(run[i]) != []
    requires forall l: nat | i <= l < j :: !(steps[l].Consumer? && run[l].cons.CStore?)
    ensures Wf(run[j]) && Queue(run[j]) != []
    decreases j
  {
    if i < j {
      StaysNonEmpty(run, steps, size, maxBlock, i, j - 1);
      var base := RunInv(run, steps, size, maxBlock, j - 1);
      StepRefines(run[j - 1], steps[j - 1]);
      hide Queue, Flat, Inv;
    }
  }

  /**
   A consumer call reports "empty" only if the queue was empty when the call started: the
   call made at step `i`, in progress until it reports "empty" at step `j`.
   */
  lemma EmptyAtStart<T>(run: seq<State<T>>, steps: seq<Step<T>>, size: nat, maxBlock: nat, i: nat, j: nat)
    requires IsRun(run, steps, size, maxBlock) && size >= 1 && i < j < |steps|
    requires steps[i].Consume? && forall l: nat | i < l <= j :: !run[l].cons.CIdle?
    requires run[j + 1].cons == CIdle(WasEmpty)
    ensures Wf(run[i]) && Queue(run[i]) == []
  {
    EmptyOnlyThere(run[j], steps[j]);
    var base := RunInv(run, steps, size, maxBlock, i);
    var k := EmptyWasSeen(run, steps, size, maxBlock, j);
    assert run[i].cons.CIdle?;
    hide Queue, Flat, Inv;
    if Queue(run[i]) != [] {
      forall l: nat | i <= l < k ensures !(steps[l].Consumer? && run[l].cons.CStore?) {
        StoreEnds(run[l], steps[l]);
        assert !run[l + 1].cons.CIdle?;
      }
      StaysNonEmpty(run, steps, size, maxBlock, i, k);
    }
  }

  lemma StoreEnds<T>(s: State<T>, step: Step<T>)
    requires Enabled(s, step)
    ensures step.Consumer? && s.cons.CStore? ==> Do(s, step).cons.CIdle?
  {
    hide Wf;
  }

  lemma NextIsFront<T>(s: State<T>)
    requires Inv(s) && s.blocks[s.tailBlock].next == s.frontBlock
    ensures s.t + 1 == |s.ring|
  {
    if s.t + 1 < |s.ring| { RingDistinct(s, 0, s.t + 1); }
  }

  lemma RingDistinct<T>(s: State<T>, i: nat, j: nat)
    requires Shape(s) && i < j < |s.ring|
    ensures s.ring[i] != s.ring[j]
  {}
}
