/** Every step of the single-producer single-consumer queue keeps its invariant. */
module SpscQueueProof {
  import opened Options
  import opened Bits
  import opened SpscBlock
  import opened SpscQueue

  // ---------------------------------------------------------------------------
  // Flattening the blocks
  // ---------------------------------------------------------------------------

  ghost predicate Ids<T>(tracks: seq<Track<T>>, ids: seq<nat>) {
    forall i | 0 <= i < |ids| :: ids[i] < |tracks|
  }

  lemma {:induction false} FlatFrame<T>(tr: seq<Track<T>>, tr': seq<Track<T>>, ids: seq<nat>)
    requires Ids(tr, ids) && Ids(tr', ids)
    requires forall i | 0 <= i < |ids| :: tr[ids[i]].items == tr'[ids[i]].items
    ensures Flat(tr, ids) == Flat(tr', ids)
  {
    if ids != [] { FlatFrame(tr, tr', ids[1..]); }
  }

  lemma {:induction false} FlatSnoc<T>(tr: seq<Track<T>>, ids: seq<nat>, id: nat)
    requires Ids(tr, ids) && id < |tr|
    ensures Flat(tr, ids + [id]) == Flat(tr, ids) + tr[id].items
  {
    if ids != [] {
      FlatSnoc(tr, ids[1..], id);
      assert (ids + [id])[1..] == ids[1..] + [id];
    } else {
      assert ([] + [id])[1..] == [];
      assert tr[id].items + [] == tr[id].items;
    }
  }

  lemma {:induction false} FlatLength<T>(tr: seq<Track<T>>, ids: seq<nat>, n: nat)
    requires Ids(tr, ids)
    requires forall i | 0 <= i < |ids| :: |tr[ids[i]].items| >= n
    ensures |Flat(tr, ids)| >= |ids| * n
  {
    if ids != [] {
      FlatLength(tr, ids[1..], n);
      assert |ids| * n == |ids[1..]| * n + n;
    }
  }

  /** The queue is everything before the tail block followed by the tail block. */
  lemma QueueSplit<T>(s: State<T>)
    requires Wf(s)
    ensures Queue(s) == Flat(s.tracks, s.ring[..s.t]) + Last(s).items
  {
    assert s.ring[..s.t + 1] == s.ring[..s.t] + [s.ring[s.t]];
    FlatSnoc(s.tracks, s.ring[..s.t], s.ring[s.t]);
  }

  /** The queue is the front block followed by everything after it. */
  lemma QueueHead<T>(s: State<T>)
    requires Wf(s)
    ensures Queue(s) == First(s).items + Flat(s.tracks, s.ring[1..s.t + 1])
  {
    assert s.ring[..s.t + 1][1..] == s.ring[1..s.t + 1];
  }

  /** Steps that leave the elements of the listed blocks alone leave the queue alone. */
  lemma QueueFrame<T>(s: State<T>, s': State<T>)
    requires Wf(s) && Wf(s') && s'.t == s.t && s'.ring[..s.t + 1] == s.ring[..s.t + 1]
    requires forall i: nat | i <= s.t :: s'.tracks[s.ring[i]].items == s.tracks[s.ring[i]].items
    ensures Queue(s') == Queue(s)
  {
    forall i | 0 <= i < s.t + 1 ensures s'.tracks[s.ring[..s.t + 1][i]].items == s.tracks[s.ring[i]].items {
      assert s.ring[..s.t + 1][i] == s.ring[i];
    }
    FlatFrame(s.tracks, s'.tracks, s.ring[..s.t + 1]);
  }

  lemma QueuePush<T>(s: State<T>, s': State<T>, x: T)
    requires Wf(s) && Wf(s') && s'.t == s.t && s'.ring == s.ring
    requires forall i: nat | i < s.t :: s'.tracks[s.ring[i]].items == s.tracks[s.ring[i]].items
    requires Last(s').items == Last(s).items + [x]
    ensures Queue(s') == Queue(s) + [x]
  {
    QueueSplit(s);
    QueueSplit(s');
    FlatFrame(s.tracks, s'.tracks, s.ring[..s.t]);
  }

  lemma QueuePop<T>(s: State<T>, s': State<T>)
    requires Wf(s) && Wf(s') && s'.t == s.t && s'.ring == s.ring
    requires forall i: nat | 0 < i <= s.t :: s'.tracks[s.ring[i]].items == s.tracks[s.ring[i]].items
    requires First(s).items != [] && First(s').items == First(s).items[1..]
    ensures Queue(s) == [First(s).items[0]] + Queue(s')
  {
    QueueHead(s);
    QueueHead(s');
    FlatFrame(s.tracks, s'.tracks, s.ring[1..s.t + 1]);
  }

  // ---------------------------------------------------------------------------
  // Producer steps
  // ---------------------------------------------------------------------------

  /** The list itself is untouched. */
  ghost predicate SameList<T>(s: State<T>, s': State<T>) {
    && s'.ring == s.ring && s'.t == s.t
    && s'.frontBlock == s.frontBlock && s'.tailBlock == s.tailBlock
    && s'.largest == s.largest && s'.maxBlock == s.maxBlock
  }

  /** Only the block at position `k` of the ring changes, to `b` with record `a`. */
  ghost predicate Replaced<T>(s: State<T>, s': State<T>, k: nat, b: Block<T>, a: Track<T>)
    requires Wf(s) && k < |s.ring|
  {
    && SameList(s, s') && LocalsInRange(s')
    && s'.blocks == s.blocks[s.ring[k] := b] && s'.tracks == s.tracks[s.ring[k] := a]
    && b.next == s.blocks[s.ring[k]].next && InRange(b)
  }

  lemma ReplacedShape<T>(s: State<T>, s': State<T>, k: nat, b: Block<T>, a: Track<T>)
    requires Shape(s) && k < |s.ring| && Replaced(s, s', k, b, a)
    ensures Shape(s')
    ensures s'.blocks[s.ring[k]] == b && s'.tracks[s.ring[k]] == a
    ensures forall i: nat | i < |s.ring| && i != k ::
      s'.blocks[s.ring[i]] == s.blocks[s.ring[i]] && s'.tracks[s.ring[i]] == s.tracks[s.ring[i]]
    ensures forall id: nat | id < |s.blocks| && id !in s.ring ::
      s'.blocks[id] == s.blocks[id] && s'.tracks[id] == s.tracks[id]
  {
    hide InRange;
  }

  /** The other blocks keep their invariant. */
  lemma BlocksKept<T>(s: State<T>, s': State<T>, k: nat, b: Block<T>, a: Track<T>)
    requires Shape(s) && k < |s.ring| && Replaced(s, s', k, b, a)
    requires forall i: nat | i < |s.ring| :: BlockInv(s, i)
    requires BlockOk(b, a, Held(s', k), Extra(s', k)) && RoleOk(s', k, |b.data|, a)
    requires forall i: nat | i < |s.ring| && i != k :: Held(s', i) == Held(s, i) && Extra(s', i) == Extra(s, i)
    requires Spare(s') == Spare(s) || k == s.t + 1
    ensures Shape(s') && forall i: nat | i < |s'.ring| :: BlockInv(s', i)
  {
    hide BlockOk;
    ReplacedShape(s, s', k, b, a);
    forall i: nat | i < |s'.ring| ensures BlockInv(s', i) {
      if i != k { assert BlockInv(s, i); }
    }
  }

  /** A consumer step that moves slots from "item" to "freed" cannot disturb the producer. */
  lemma ProducerKept<T>(s: State<T>, s': State<T>, k: nat, b: Block<T>, a: Track<T>)
    requires Shape(s) && Wf(s') && k <= s.t && Replaced(s, s', k, b, a) && ProducerInv(s) && s'.prod == s.prod
    requires |b.data| == |s.blocks[s.ring[k]].data|
    requires |a.items| + a.freed == |s.tracks[s.ring[k]].items| + s.tracks[s.ring[k]].freed
    ensures ProducerInv(s')
  {
    hide BlockOk;
    ReplacedShape(s, s', k, b, a);
  }

  /** A producer step that only appends to a block cannot disturb the consumer. */
  lemma ConsumerKept<T>(s: State<T>, s': State<T>, k: nat, b: Block<T>, a: Track<T>)
    requires Shape(s) && Wf(s') && k < |s.ring| && Replaced(s, s', k, b, a) && ConsumerInv(s) && s'.cons == s.cons
    requires a.known == s.tracks[s.ring[k]].known
    requires s.tracks[s.ring[k]].items <= a.items && (k < s.t ==> a.items == s.tracks[s.ring[k]].items)
    ensures ConsumerInv(s')
  {
    hide BlockOk;
    ReplacedShape(s, s', k, b, a);
  }

  lemma ReplaceSame<T>(s: State<T>, s': State<T>, k: nat)
    requires Wf(s) && k < |s.ring| && SameList(s, s') && LocalsInRange(s')
    requires s'.blocks == s.blocks && s'.tracks == s.tracks
    ensures Replaced(s, s', k, s.blocks[s.ring[k]], s.tracks[s.ring[k]])
  {}

  lemma StartEnqueueInv<T>(s: State<T>, x: T, canAlloc: bool)
    requires Inv(s) && s.prod.PIdle?
    ensures Inv(StartEnqueue(s, x, canAlloc))
  {
    hide BlockOk, Flat;
    var s', b, a := StartEnqueue(s, x, canAlloc), s.blocks[s.tailBlock], Last(s);
    assert BlockInv(s, s.t);
    RoomTest(b, a, Held(s, s.t));
    ReplaceSame(s, s', s.t);
    BlocksKept(s, s', s.t, b, a);
    ConsumerKept(s, s', s.t, b, a);
  }

  lemma LoadFrontInv<T>(s: State<T>)
    requires Inv(s) && s.prod.PLoadFront?
    ensures Inv(LoadFront(s))
  {
    hide BlockOk, Flat;
    var s', b, a := LoadFront(s), s.blocks[s.tailBlock], Last(s);
    assert BlockInv(s, s.t);
    RoomTest(b, a, Held(s, s.t));
    BlockFacts(b, a, Held(s, s.t), None);
    RefreshFront(b, a, Held(s, s.t), None);
    var b', a' := b.(localFront := b.front), a.(freed := 0);
    BlocksKept(s, s', s.t, b', a');
    ConsumerKept(s, s', s.t, b', a');
    QueueFrame(s, s');
  }

  lemma WriteInv<T>(s: State<T>)
    requires Inv(s) && s.prod.PWrite?
    ensures Inv(Write(s))
  {
    hide BlockOk, Flat;
    var s', b, a := Write(s), s.blocks[s.tailBlock], Last(s);
    assert BlockInv(s, s.t);
    Construct(b, a, Held(s, s.t), s.prod.x);
    var b' := b.(data := b.data[b.tail := Some(s.prod.x)]);
    BlocksKept(s, s', s.t, b', a);
    ConsumerKept(s, s', s.t, b', a);
    QueueFrame(s, s');
  }

  lemma StoreTailInv<T>(s: State<T>)
    requires Inv(s) && s.prod.PPublish?
    ensures Inv(StoreTail(s))
    ensures Queue(StoreTail(s)) == Queue(s) + [s.prod.x]
  {
    hide BlockOk, Flat;
    var s', b, a := StoreTail(s), s.blocks[s.tailBlock], Last(s);
    assert BlockInv(s, s.t);
    Publish(b, a, Held(s, s.t), s.prod.x);
    var b', a' := b.(tail := Inc(b.tail, |b.data|)), a.(items := a.items + [s.prod.x]);
    BlocksKept(s, s', s.t, b', a');
    ConsumerKept(s, s', s.t, b', a');
    QueuePush(s, s', s.prod.x);
  }

  lemma CheckNextInv<T>(s: State<T>)
    requires Inv(s) && s.prod.PCheckNext?
    ensures Inv(CheckNext(s))
  {
    hide BlockOk, Flat;
    var s', b, a := CheckNext(s), s.blocks[s.tailBlock], Last(s);
    assert BlockInv(s, s.t);
    ReplaceSame(s, s', s.t);
    BlocksKept(s, s', s.t, b, a);
    ConsumerKept(s, s', s.t, b, a);
  }

  lemma LoadNextFrontInv<T>(s: State<T>)
    requires Inv(s) && s.prod.PLoadNextFront?
    ensures Inv(LoadNextFront(s))
  {
    hide BlockOk, Flat;
    var k := s.t + 1;
    var s', b, a := LoadNextFront(s), s.blocks[s.ring[k]], s.tracks[s.ring[k]];
    assert BlockInv(s, k);
    EmptyTest(b, a, Held(s, k), None);
    RefreshFront(b, a, Held(s, k), None);
    var b', a' := b.(localFront := b.front), a.(freed := 0);
    BlocksKept(s, s', k, b', a');
    ConsumerKept(s, s', k, b', a');
    ReplacedShape(s, s', k, b', a');
    QueueFrame(s, s');
  }

  lemma WriteNextInv<T>(s: State<T>)
    requires Inv(s) && s.prod.PWriteNext?
    ensures Inv(WriteNext(s))
  {
    hide BlockOk, Flat;
    var k := s.t + 1;
    var s', b, a := WriteNext(s), s.blocks[s.ring[k]], s.tracks[s.ring[k]];
    assert BlockInv(s, k);
    BlockFacts(b, a, Held(s, k), None);
    Construct(b, a, Held(s, k), s.prod.x);
    var b' := b.(data := b.data[b.tail := Some(s.prod.x)]);
    BlocksKept(s, s', k, b', a);
    ConsumerKept(s, s', k, b', a);
    ReplacedShape(s, s', k, b', a);
    QueueFrame(s, s');
  }

  lemma BumpNextBlocks<T>(s: State<T>)
    requires Inv(s) && s.prod.PBumpNext?
    ensures Shape(BumpNext(s)) && ConsumerInv(BumpNext(s))
    ensures forall i: nat | i < |s.ring| :: BlockInv(BumpNext(s), i)
    ensures forall i: nat | i < |s.ring| && i != s.t + 1 ::
      BumpNext(s).tracks[s.ring[i]] == s.tracks[s.ring[i]] && BumpNext(s).blocks[s.ring[i]] == s.blocks[s.ring[i]]
  {
    hide BlockOk, Flat;
    var k := s.t + 1;
    var s', b, a := BumpNext(s), s.blocks[s.ring[k]], s.tracks[s.ring[k]];
    assert BlockInv(s, k);
    Publish(b, a, Held(s, k), s.prod.x);
    var b', a' := b.(tail := Inc(b.tail, |b.data|)), a.(items := a.items + [s.prod.x]);
    BlocksKept(s, s', k, b', a');
    ConsumerKept(s, s', k, b', a');
    ReplacedShape(s, s', k, b', a');
  }

  lemma BumpNextInv<T>(s: State<T>)
    requires Inv(s) && s.prod.PBumpNext?
    ensures Inv(BumpNext(s))
  {
    hide BlockOk, BlockInv, Flat;
    BumpNextBlocks(s);
    QueueFrame(s, BumpNext(s));
  }

  lemma NewBlockOk<T>(size: nat, x: T, next: nat)
    requires size >= 2
    ensures BlockOk(NewBlock(size, x, next), Track([x], 1, 0), false, None)
    ensures InRange(NewBlock(size, x, next)) && NewBlock(size, x, next).next == next
  {}

  lemma AllocateInv<T>(s: State<T>, allocOk: bool)
    requires Inv(s) && s.prod.PAlloc?
    ensures Inv(Allocate(s, allocOk))
  {
    if allocOk { AllocatedInv(s); } else { NotAllocatedInv(s); }
  }

  lemma NotAllocatedInv<T>(s: State<T>)
    requires Inv(s) && s.prod.PAlloc?
    ensures Inv(Allocate(s, false))
  {
    hide BlockOk, Flat, NewBlock;
    assert BlockInv(s, s.t);
    ReplaceSame(s, Allocate(s, false), s.t);
    BlocksKept(s, Allocate(s, false), s.t, s.blocks[s.tailBlock], Last(s));
  }

  lemma AllocatedBlocks<T>(s: State<T>)
    requires Inv(s) && s.prod.PAlloc?
    ensures Shape(Allocate(s, true)) && forall i: nat | i < |s.ring| :: BlockInv(Allocate(s, true), i)
    ensures forall i: nat | i < |s.blocks| ::
      Allocate(s, true).blocks[i] == s.blocks[i] && Allocate(s, true).tracks[i] == s.tracks[i]
  {
    hide BlockOk, Flat, NewBlock, InRange;
    var s' := Allocate(s, true);
    NewBlockOk(NewSize(s), s.prod.x, s.blocks[s.tailBlock].next);
    Extended(s, s');
    forall i: nat | i < |s'.ring| ensures BlockInv(s', i) { assert BlockInv(s, i); }
  }

  lemma AllocatedInv<T>(s: State<T>)
    requires Inv(s) && s.prod.PAlloc?
    ensures Inv(Allocate(s, true))
  {
    hide BlockOk, BlockInv, Flat, NewBlock, InRange;
    NewBlockOk(NewSize(s), s.prod.x, s.blocks[s.tailBlock].next);
    AllocatedBlocks(s);
    QueueFrame(s, Allocate(s, true));
  }

  /** A block not yet linked in leaves the list as it was. */
  lemma Extended<T>(s: State<T>, s': State<T>)
    requires Shape(s) && |s'.blocks| == |s.blocks| + 1 && |s'.tracks| == |s'.blocks|
    requires s'.blocks[..|s.blocks|] == s.blocks && s'.tracks[..|s.blocks|] == s.tracks
    requires s'.ring == s.ring && s'.t == s.t && s'.frontBlock == s.frontBlock && s'.tailBlock == s.tailBlock
    requires InRange(s'.blocks[|s.blocks|]) && s'.blocks[|s.blocks|].next < |s.blocks|
    requires s'.cons == s.cons && s'.largest >= 1 && s'.maxBlock == s.maxBlock
    requires s'.prod.PLink? && s'.prod.nb == |s.blocks|
    ensures Shape(s')
    ensures forall i: nat | i < |s.blocks| :: s'.blocks[i] == s.blocks[i] && s'.tracks[i] == s.tracks[i]
  {
    assert forall i: nat | i < |s.blocks| ::
        s'.blocks[i] == s'.blocks[..|s.blocks|][i] && s'.tracks[i] == s'.tracks[..|s.blocks|][i];
  }

  lemma InsertAfter(r: seq<nat>, t: nat, x: nat)
    requires t < |r| && x !in r && forall i, j | 0 <= i < j < |r| :: r[i] != r[j]
    ensures var r' := Insert(r, t, x);
      && |r'| == |r| + 1 && r'[t + 1] == x
      && (forall i: nat | i <= t :: r'[i] == r[i])
      && (forall i: nat | t + 1 < i < |r'| :: r'[i] == r[i - 1])
      && (forall i, j | 0 <= i < j < |r'| :: r'[i] != r'[j])
  {}

  lemma LinkShape<T>(s: State<T>)
    requires Shape(s) && s.prod.PLink? && s.prod.nb !in s.ring
    requires s.blocks[s.prod.nb].next == s.blocks[s.tailBlock].next
    ensures Shape(Link(s))
  {
    hide Insert;
    var s' := Link(s);
    InsertAfter(s.ring, s.t, s.prod.nb);
    assert forall i: nat | i < |s.blocks| && i != s.tailBlock :: s'.blocks[i] == s.blocks[i];
    forall i: nat | i < |s'.ring|
      ensures s'.ring[i] < |s.blocks|
      ensures s'.blocks[s'.ring[i]].next == s'.ring[if i + 1 < |s'.ring| then i + 1 else 0]
    {
      if i < s.t { assert s'.blocks[s.ring[i]] == s.blocks[s.ring[i]]; }
      if i > s.t + 1 { assert s'.blocks[s.ring[i - 1]] == s.blocks[s.ring[i - 1]]; }
    }
  }

  lemma LinkBlocks<T>(s: State<T>)
    requires Inv(s) && s.prod.PLink?
    ensures Shape(Link(s)) && forall i: nat | i < |Link(s).ring| :: BlockInv(Link(s), i)
  {
    hide BlockOk, Flat, Insert;
    var s' := Link(s);
    LinkShape(s);
    InsertAfter(s.ring, s.t, s.prod.nb);
    assert BlockInv(s, s.t);
    NextIsFree(s.blocks[s.tailBlock], Last(s), Held(s, s.t), None, s.prod.nb);
    forall i: nat | i < |s'.ring| ensures BlockInv(s', i) {
      if i <= s.t { assert BlockInv(s, i); } else if i > s.t + 1 { assert BlockInv(s, i - 1); }
    }
  }

  lemma LinkInv<T>(s: State<T>)
    requires Inv(s) && s.prod.PLink?
    ensures Inv(Link(s))
  {
    hide BlockOk, BlockInv, Flat, Insert;
    var s' := Link(s);
    LinkBlocks(s);
    InsertAfter(s.ring, s.t, s.prod.nb);
    assert s'.ring[..s.t + 1] == s.ring[..s.t + 1];
    QueueFrame(s, s');
  }

  /** `next` plays no part in what a block represents. */
  lemma NextIsFree<T>(b: Block<T>, a: Track<T>, held: bool, extra: Option<T>, next: nat)
    ensures BlockOk(b, a, held, extra) <==> BlockOk(b.(next := next), a, held, extra)
  {}

  lemma StoreTailBlockInv<T>(s: State<T>)
    requires Inv(s) && s.prod.PAdvance?
    ensures Inv(StoreTailBlock(s))
    ensures Queue(StoreTailBlock(s)) == Queue(s) + [s.prod.x]
  {
    hide BlockOk, Flat;
    var s' := StoreTailBlock(s);
    assert BlockInv(s, s.t);
    assert BlockInv(s, s.t + 1);
    BlockFacts(s.blocks[s.ring[s.t]], Last(s), Held(s, s.t), None);
    forall i: nat | i < |s'.ring| ensures BlockInv(s', i) { assert BlockInv(s, i); }
    QueueSplit(s');
    assert s'.ring[..s'.t] == s.ring[..s.t + 1];
  }

  lemma ProducerInvStep<T>(s: State<T>, allocOk: bool)
    requires Inv(s) && !s.prod.PIdle?
    ensures Inv(ProducerStep(s, allocOk))
  {
    hide Inv;
    match s.prod
    case PLoadFront(_, _) => LoadFrontInv(s);
    case PWrite(_) => WriteInv(s);
    case PPublish(_) => StoreTailInv(s);
    case PCheckNext(_, _, _) => CheckNextInv(s);
    case PLoadNextFront(_) => LoadNextFrontInv(s);
    case PWriteNext(_) => WriteNextInv(s);
    case PBumpNext(_) => BumpNextInv(s);
    case PAlloc(_) => AllocateInv(s, allocOk);
    case PLink(_, _) => LinkInv(s);
    case PAdvance(_, _) => StoreTailBlockInv(s);
  }

  // ---------------------------------------------------------------------------
  // Consumer steps
  // ---------------------------------------------------------------------------

  lemma StartConsumeInv<T>(s: State<T>, op: ConsumerOp)
    requires Inv(s) && s.cons.CIdle?
    ensures Inv(StartConsume(s, op))
  {
    hide BlockOk, Flat;
    var s', b, a := StartConsume(s, op), s.blocks[s.frontBlock], First(s);
    assert BlockInv(s, 0);
    EmptyTest(b, a, false, Extra(s, 0));
    ReplaceSame(s, s', 0);
    BlocksKept(s, s', 0, b, a);
    ProducerKept(s, s', 0, b, a);
  }

  lemma LoadTailInv<T>(s: State<T>)
    requires Inv(s) && (s.cons.CLoadTail? || s.cons.CRecheck?)
    ensures Inv(LoadTail(s))
  {
    hide BlockOk, Flat;
    var s', b, a := LoadTail(s), s.blocks[s.frontBlock], First(s);
    assert BlockInv(s, 0);
    EmptyTest(b, a, false, Extra(s, 0));
    RefreshTail(b, a, false, Extra(s, 0));
    var b', a' := b.(localTail := b.tail), a.(known := |a.items|);
    BlocksKept(s, s', 0, b', a');
    ProducerKept(s, s', 0, b', a');
    QueueFrame(s, s');
    if s.t == 0 { QueueAlone(s); }
  }

  lemma QueueAlone<T>(s: State<T>)
    requires Wf(s) && s.t == 0
    ensures Queue(s) == First(s).items
  {
    QueueHead(s);
  }

  lemma LoadTailBlockInv<T>(s: State<T>)
    requires Inv(s) && s.cons.CLoadTailBlock?
    ensures Inv(LoadTailBlock(s))
  {
    hide BlockOk, Flat;
    var s', b, a := LoadTailBlock(s), s.blocks[s.frontBlock], First(s);
    assert BlockInv(s, 0);
    ReplaceSame(s, s', 0);
    BlocksKept(s, s', 0, b, a);
    ProducerKept(s, s', 0, b, a);
  }

  lemma LoadNextInv<T>(s: State<T>)
    requires Inv(s) && s.cons.CLoadNext?
    ensures Inv(LoadNext(s))
  {
    hide BlockOk, Flat;
    var s', b, a := LoadNext(s), s.blocks[s.frontBlock], First(s);
    assert BlockInv(s, 0);
    ReplaceSame(s, s', 0);
    BlocksKept(s, s', 0, b, a);
    ProducerKept(s, s', 0, b, a);
  }

  lemma PeekNextInv<T>(s: State<T>)
    requires Inv(s) && s.cons.CLoadNextTail? && s.cons.op.Peek?
    ensures Inv(LoadNextTail(s))
  {
    hide BlockOk, Flat;
    var s', b, a := LoadNextTail(s), s.blocks[s.ring[1]], s.tracks[s.ring[1]];
    assert BlockInv(s, 1);
    EmptyTest(b, a, false, Extra(s, 1));
    Take(b, a, Extra(s, 1));
    ReplaceSame(s, s', 1);
    BlocksKept(s, s', 1, b, a);
    ProducerKept(s, s', 1, b, a);
  }

  lemma LoadNextTailInv<T>(s: State<T>)
    requires Inv(s) && s.cons.CLoadNextTail? && !s.cons.op.Peek?
    ensures Inv(LoadNextTail(s))
  {
    hide BlockOk, Flat;
    var s', b, a := LoadNextTail(s), s.blocks[s.ring[1]], s.tracks[s.ring[1]];
    assert BlockInv(s, 1);
    EmptyTest(b, a, false, Extra(s, 1));
    RefreshTail(b, a, false, Extra(s, 1));
    var b', a' := b.(localTail := b.tail), a.(known := |a.items|);
    BlocksKept(s, s', 1, b', a');
    ProducerKept(s, s', 1, b', a');
    ReplacedShape(s, s', 1, b', a');
    QueueFrame(s, s');
  }

  lemma StoreFrontBlockShape<T>(s: State<T>)
    requires Inv(s) && s.cons.CAdvance?
    ensures Shape(StoreFrontBlock(s))
    ensures var r := StoreFrontBlock(s).ring;
      |r| == |s.ring| && r[|r| - 1] == s.ring[0]
      && forall i: nat | i + 1 < |r| :: r[i] == s.ring[i + 1]
  {
    hide BlockOk, Flat;
  }

  lemma StoreFrontBlockBlocks<T>(s: State<T>)
    requires Inv(s) && s.cons.CAdvance?
    ensures Shape(StoreFrontBlock(s))
    ensures forall i: nat | i < |s.ring| :: BlockInv(StoreFrontBlock(s), i)
  {
    hide BlockOk, Flat;
    StoreFrontBlockShape(s);
    forall i: nat | i < |s.ring| ensures BlockInv(StoreFrontBlock(s), i) {
      if i + 1 < |s.ring| { assert BlockInv(s, i + 1); } else { assert BlockInv(s, 0); }
    }
  }

  lemma StoreFrontBlockQueue<T>(s: State<T>)
    requires Shape(s) && s.cons.CAdvance? && First(s).items == [] && s.t > 0
    requires Wf(StoreFrontBlock(s))
    ensures Queue(StoreFrontBlock(s)) == Queue(s)
  {
    var s' := StoreFrontBlock(s);
    assert s'.ring[..s'.t + 1] == s.ring[1..s.t + 1];
    QueueHead(s);
  }

  lemma StoreFrontBlockInv<T>(s: State<T>)
    requires Inv(s) && s.cons.CAdvance?
    ensures Inv(StoreFrontBlock(s))
    ensures Queue(StoreFrontBlock(s)) == Queue(s)
  {
    hide BlockOk, BlockInv, Flat;
    StoreFrontBlockShape(s);
    StoreFrontBlockBlocks(s);
    StoreFrontBlockQueue(s);
  }

  lemma MoveOutInv<T>(s: State<T>)
    requires Inv(s) && s.cons.CTake?
    ensures Inv(MoveOut(s))
  {
    hide BlockOk, Flat;
    var s', b, a := MoveOut(s), s.blocks[s.frontBlock], First(s);
    assert BlockInv(s, 0);
    BlockFacts(b, a, false, Extra(s, 0));
    Take(b, a, Extra(s, 0));
    if s.cons.op.Peek? {
      ReplaceSame(s, s', 0);
      BlocksKept(s, s', 0, b, a);
      ProducerKept(s, s', 0, b, a);
    } else {
      var b' := b.(data := b.data[b.front := None]);
      BlocksKept(s, s', 0, b', a);
      ProducerKept(s, s', 0, b', a);
      QueueFrame(s, s');
    }
  }

  lemma StoreFrontInv<T>(s: State<T>)
    requires Inv(s) && s.cons.CStore?
    ensures Inv(StoreFront(s))
    ensures Queue(s) == [s.cons.value] + Queue(StoreFront(s))
  {
    hide BlockOk, Flat;
    var s', b, a := StoreFront(s), s.blocks[s.frontBlock], First(s);
    assert BlockInv(s, 0);
    BlockFacts(b, a, true, Extra(s, 0));
    Release(b, a, Extra(s, 0));
    var b' := b.(front := Inc(b.front, |b.data|));
    BlocksKept(s, s', 0, b', Released(a));
    ProducerKept(s, s', 0, b', Released(a));
    ReplacedShape(s, s', 0, b', Released(a));
    QueuePop(s, s');
  }

  lemma ConsumerInvStep<T>(s: State<T>)
    requires Inv(s) && !s.cons.CIdle?
    ensures Inv(ConsumerStep(s))
  {
    hide Inv;
    match s.cons
    case CLoadTail(_) => LoadTailInv(s);
    case CLoadTailBlock(_, _) => LoadTailBlockInv(s);
    case CRecheck(_) => LoadTailInv(s);
    case CLoadNext(_) => LoadNextInv(s);
    case CLoadNextTail(op, _) => if op.Peek? { PeekNextInv(s); } else { LoadNextTailInv(s); }
    case CAdvance(_, _) => StoreFrontBlockInv(s);
    case CTake(_) => MoveOutInv(s);
    case CStore(_, _) => StoreFrontInv(s);
  }
}
