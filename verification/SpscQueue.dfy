/**
 `ReaderWriterQueue`: a circular list of circular buffers shared by one producer and one
 consumer. The two threads are a transition system with one step for each load or store
 of a variable the other thread may write; a thread's reads of variables only it writes
 happen inside the step that uses them. Memory is sequentially consistent.
 */
module SpscQueue {
  import opened Options
  import opened Bits
  import opened SpscBlock

  datatype ConsumerOp = TryDequeue | Pop | Peek

  datatype Return<T> = Nothing | Took(value: T) | Saw(value: T) | WasEmpty

  /** Where the producer is inside `inner_enqueue`. */
  datatype Producer<T> =
    | PIdle(ok: bool)
    | PLoadFront(x: T, canAlloc: bool)               // shadow says full: load front
    | PWrite(x: T)                                   // construct in the tail block
    | PPublish(x: T)                                 // store tail
    | PCheckNext(x: T, canAlloc: bool, seen: nat)    // load frontBlock, compare with next
    | PLoadNextFront(x: T)                           // load front of the next block
    | PWriteNext(x: T)                               // construct in the next block
    | PBumpNext(x: T)                                // store tail of the next block
    | PAlloc(x: T)                                   // make_block
    | PLink(x: T, nb: nat)                           // store next of the tail block
    | PAdvance(x: T, nb: nat)                        // store tailBlock

  /** Where the consumer is inside `try_dequeue`, `pop` or `peek`. */
  datatype Consumer<T> =
    | CIdle(ret: Return<T>)
    | CLoadTail(op: ConsumerOp)                      // shadow says empty: load tail
    | CLoadTailBlock(op: ConsumerOp, seen: nat)      // load tailBlock
    | CRecheck(op: ConsumerOp)                       // load tail again
    | CLoadNext(op: ConsumerOp)                      // load next of the front block
    | CLoadNextTail(op: ConsumerOp, nb: nat)         // load tail of the next block
    | CAdvance(op: ConsumerOp, nb: nat)              // store frontBlock
    | CTake(op: ConsumerOp)                          // move the element out and destroy it
    | CStore(op: ConsumerOp, value: T)               // store front

  /**
   The shared memory, the two threads, and (last line) auxiliary variables that no guard
   reads: the block ids in list order starting at `frontBlock`, the position of
   `tailBlock` in that order, one `Track` per block, and the two histories.
   `faulted` records a failed assert, a construction over a live object or a read of a
   dead one.
   */
  datatype State<T> = State(
    blocks: seq<Block<T>>, frontBlock: nat, tailBlock: nat, largest: nat, maxBlock: nat,
    prod: Producer<T>, cons: Consumer<T>, faulted: bool,
    ring: seq<nat>, t: nat, tracks: seq<Track<T>>, enqueued: seq<T>, dequeued: seq<T>)

  /** Indices and pointers are in range, so that every step is defined. */
  predicate Wf<T>(s: State<T>) {
    && |s.tracks| == |s.blocks|
    && s.frontBlock < |s.blocks| && s.tailBlock < |s.blocks|
    && (forall i | 0 <= i < |s.blocks| :: InRange(s.blocks[i]) && s.blocks[i].next < |s.blocks|)
    && s.t < |s.ring| && (forall i | 0 <= i < |s.ring| :: s.ring[i] < |s.blocks|)
    && LocalsInRange(s)
    && s.largest >= 1 && s.maxBlock >= 2
  }

  /** The block pointers in the threads' local variables. */
  predicate LocalsInRange<T>(s: State<T>) {
    && (s.prod.PLink? || s.prod.PAdvance? ==> s.prod.nb < |s.blocks|)
    && (s.cons.CLoadNextTail? || s.cons.CAdvance? ==> s.cons.nb < |s.blocks|)
  }

  /** The elements of the listed blocks, one block after the other. */
  function Flat<T>(tracks: seq<Track<T>>, ids: seq<nat>): seq<T>
    requires forall i | 0 <= i < |ids| :: ids[i] < |tracks|
  {
    if ids == [] then [] else tracks[ids[0]].items + Flat(tracks, ids[1..])
  }

  /** The queue the memory stands for: the blocks from `frontBlock` to `tailBlock` in list order. */
  function Queue<T>(s: State<T>): seq<T>
    requires Wf(s)
  {
    Flat(s.tracks, s.ring[..s.t + 1])
  }

  // ---------------------------------------------------------------------------
  // The program
  // ---------------------------------------------------------------------------

  function SetBlock<T>(s: State<T>, id: nat, b: Block<T>, a: Track<T>): State<T>
    requires id < |s.blocks| && |s.tracks| == |s.blocks|
  {
    s.(blocks := s.blocks[id := b], tracks := s.tracks[id := a])
  }

  /** A fresh block of `size` slots holding just `x`. */
  function NewBlock<T>(size: nat, x: T, next: nat): Block<T>
    requires size >= 2
  {
    Block(0, 1, 1, 0, next, [Some(x)] + seq(size - 1, _ => None))
  }

  function StartEnqueue<T>(s: State<T>, x: T, canAlloc: bool): State<T>
    requires Wf(s)
  {
    var b := s.blocks[s.tailBlock];
    if Inc(b.tail, |b.data|) != b.localFront then s.(prod := PWrite(x))
    else s.(prod := PLoadFront(x, canAlloc))
  }

  function LoadFront<T>(s: State<T>): State<T>
    requires Wf(s) && s.prod.PLoadFront?
  {
    var b, a := s.blocks[s.tailBlock], s.tracks[s.tailBlock];
    SetBlock(s, s.tailBlock, b.(localFront := b.front), a.(freed := 0))
    .(prod := if Inc(b.tail, |b.data|) != b.front then PWrite(s.prod.x)
              else PCheckNext(s.prod.x, s.prod.canAlloc, |Queue(s)|))
  }

  function Write<T>(s: State<T>): State<T>
    requires Wf(s) && s.prod.PWrite?
  {
    var b, a := s.blocks[s.tailBlock], s.tracks[s.tailBlock];
    SetBlock(s, s.tailBlock, b.(data := b.data[b.tail := Some(s.prod.x)]), a)
    .(faulted := s.faulted || b.data[b.tail].Some?, prod := PPublish(s.prod.x))
  }

  function StoreTail<T>(s: State<T>): State<T>
    requires Wf(s) && s.prod.PPublish?
  {
    var b, a := s.blocks[s.tailBlock], s.tracks[s.tailBlock];
    SetBlock(s, s.tailBlock, b.(tail := Inc(b.tail, |b.data|)), a.(items := a.items + [s.prod.x]))
    .(prod := PIdle(true), enqueued := s.enqueued + [s.prod.x])
  }

  function CheckNext<T>(s: State<T>): State<T>
    requires Wf(s) && s.prod.PCheckNext?
  {
    s.(prod := if s.blocks[s.tailBlock].next != s.frontBlock then PLoadNextFront(s.prod.x)
               else if s.prod.canAlloc then PAlloc(s.prod.x)
               else PIdle(false))
  }

  function LoadNextFront<T>(s: State<T>): State<T>
    requires Wf(s) && s.prod.PLoadNextFront?
  {
    var nb := s.blocks[s.tailBlock].next;
    var n, m := s.blocks[nb], s.tracks[nb];
    SetBlock(s, nb, n.(localFront := n.front), m.(freed := 0))
    .(faulted := s.faulted || n.front != n.tail, prod := PWriteNext(s.prod.x))
  }

  function WriteNext<T>(s: State<T>): State<T>
    requires Wf(s) && s.prod.PWriteNext?
  {
    var nb := s.blocks[s.tailBlock].next;
    var n, m := s.blocks[nb], s.tracks[nb];
    SetBlock(s, nb, n.(data := n.data[n.tail := Some(s.prod.x)]), m)
    .(faulted := s.faulted || n.data[n.tail].Some?, prod := PBumpNext(s.prod.x))
  }

  function BumpNext<T>(s: State<T>): State<T>
    requires Wf(s) && s.prod.PBumpNext?
  {
    var nb := s.blocks[s.tailBlock].next;
    var n, m := s.blocks[nb], s.tracks[nb];
    SetBlock(s, nb, n.(tail := Inc(n.tail, |n.data|)), m.(items := m.items + [s.prod.x]))
    .(prod := PAdvance(s.prod.x, nb))
  }

  /** Block sizes double until `MAX_BLOCK_SIZE` is reached. */
  function NewSize<T>(s: State<T>): nat {
    if s.largest >= s.maxBlock then s.largest else s.largest * 2
  }

  function Allocate<T>(s: State<T>, allocOk: bool): State<T>
    requires Wf(s) && s.prod.PAlloc?
  {
    if !allocOk then s.(prod := PIdle(false))
    else
      s.(blocks := s.blocks + [NewBlock(NewSize(s), s.prod.x, s.blocks[s.tailBlock].next)],
         tracks := s.tracks + [Track([s.prod.x], 1, 0)],
         largest := NewSize(s), prod := PLink(s.prod.x, |s.blocks|))
  }

  function Insert(ids: seq<nat>, t: nat, id: nat): seq<nat>
    requires t < |ids|
  {
    ids[..t + 1] + [id] + ids[t + 1..]
  }

  function Link<T>(s: State<T>): State<T>
    requires Wf(s) && s.prod.PLink?
  {
    s.(blocks := s.blocks[s.tailBlock := s.blocks[s.tailBlock].(next := s.prod.nb)],
       prod := PAdvance(s.prod.x, s.prod.nb),
       ring := Insert(s.ring, s.t, s.prod.nb))
  }

  function StoreTailBlock<T>(s: State<T>): State<T>
    requires Wf(s) && s.prod.PAdvance?
  {
    s.(tailBlock := s.prod.nb, prod := PIdle(true), enqueued := s.enqueued + [s.prod.x],
       t := if s.t + 1 < |s.ring| then s.t + 1 else s.t)
  }

  function ProducerStep<T>(s: State<T>, allocOk: bool): State<T>
    requires Wf(s)
  {
    match s.prod
    case PIdle(_) => s
    case PLoadFront(_, _) => LoadFront(s)
    case PWrite(_) => Write(s)
    case PPublish(_) => StoreTail(s)
    case PCheckNext(_, _, _) => CheckNext(s)
    case PLoadNextFront(_) => LoadNextFront(s)
    case PWriteNext(_) => WriteNext(s)
    case PBumpNext(_) => BumpNext(s)
    case PAlloc(_) => Allocate(s, allocOk)
    case PLink(_, _) => Link(s)
    case PAdvance(_, _) => StoreTailBlock(s)
  }

  function StartConsume<T>(s: State<T>, op: ConsumerOp): State<T>
    requires Wf(s)
  {
    var b := s.blocks[s.frontBlock];
    if b.front != b.localTail then s.(cons := CTake(op)) else s.(cons := CLoadTail(op))
  }

  /** The front block after `localTail` has been reloaded. */
  function ReloadTail<T>(s: State<T>, id: nat): State<T>
    requires Wf(s) && id < |s.blocks|
  {
    var b, a := s.blocks[id], s.tracks[id];
    SetBlock(s, id, b.(localTail := b.tail), a.(known := |a.items|))
  }

  function LoadTail<T>(s: State<T>): State<T>
    requires Wf(s) && (s.cons.CLoadTail? || s.cons.CRecheck?)
  {
    var b := s.blocks[s.frontBlock];
    ReloadTail(s, s.frontBlock)
    .(cons := if b.front != b.tail then CTake(s.cons.op)
              else if s.cons.CLoadTail? then CLoadTailBlock(s.cons.op, |Queue(s)|)
              else CLoadNext(s.cons.op))
  }

  function LoadTailBlock<T>(s: State<T>): State<T>
    requires Wf(s) && s.cons.CLoadTailBlock?
  {
    s.(cons := if s.frontBlock != s.tailBlock then CRecheck(s.cons.op) else CIdle(WasEmpty))
  }

  function LoadNext<T>(s: State<T>): State<T>
    requires Wf(s) && s.cons.CLoadNext?
  {
    s.(cons := CLoadNextTail(s.cons.op, s.blocks[s.frontBlock].next))
  }

  function LoadNextTail<T>(s: State<T>): State<T>
    requires Wf(s) && s.cons.CLoadNextTail?
  {
    var n := s.blocks[s.cons.nb];
    if s.cons.op.Peek? then
      s.(faulted := s.faulted || n.front == n.tail || n.data[n.front].None?,
         cons := CIdle(if n.data[n.front].Some? then Saw(n.data[n.front].value) else Nothing))
    else
      ReloadTail(s, s.cons.nb)
      .(faulted := s.faulted || n.front == n.tail, cons := CAdvance(s.cons.op, s.cons.nb))
  }

  function StoreFrontBlock<T>(s: State<T>): State<T>
    requires Wf(s) && s.cons.CAdvance?
  {
    s.(frontBlock := s.cons.nb, cons := CTake(s.cons.op),
       ring := s.ring[1..] + [s.ring[0]], t := if s.t > 0 then s.t - 1 else 0)
  }

  function MoveOut<T>(s: State<T>): State<T>
    requires Wf(s) && s.cons.CTake?
  {
    var b, a := s.blocks[s.frontBlock], s.tracks[s.frontBlock];
    match b.data[b.front]
    case None => s.(faulted := true, cons := CIdle(Nothing))
    case Some(x) =>
      if s.cons.op.Peek? then s.(cons := CIdle(Saw(x)))
      else SetBlock(s, s.frontBlock, b.(data := b.data[b.front := None]), a)
           .(cons := CStore(s.cons.op, x))
  }

  function StoreFront<T>(s: State<T>): State<T>
    requires Wf(s) && s.cons.CStore?
  {
    var b, a := s.blocks[s.frontBlock], s.tracks[s.frontBlock];
    SetBlock(s, s.frontBlock, b.(front := Inc(b.front, |b.data|)), Released(a))
    .(cons := CIdle(Took(s.cons.value)), dequeued := s.dequeued + [s.cons.value])
  }

  function ConsumerStep<T>(s: State<T>): State<T>
    requires Wf(s)
  {
    match s.cons
    case CIdle(_) => s
    case CLoadTail(_) => LoadTail(s)
    case CLoadTailBlock(_, _) => LoadTailBlock(s)
    case CRecheck(_) => LoadTail(s)
    case CLoadNext(_) => LoadNext(s)
    case CLoadNextTail(_, _) => LoadNextTail(s)
    case CAdvance(_, _) => StoreFrontBlock(s)
    case CTake(_) => MoveOut(s)
    case CStore(_, _) => StoreFront(s)
  }

  datatype Step<T> =
    | Enqueue(x: T, canAlloc: bool)
    | Producer(allocOk: bool)
    | Consume(op: ConsumerOp)
    | Consumer

  predicate Enabled<T>(s: State<T>, step: Step<T>) {
    && Wf(s)
    && match step
       case Enqueue(_, _) => s.prod.PIdle?
       case Producer(_) => !s.prod.PIdle?
       case Consume(_) => s.cons.CIdle?
       case Consumer => !s.cons.CIdle?
  }

  function Do<T>(s: State<T>, step: Step<T>): State<T>
    requires Enabled(s, step)
  {
    match step
    case Enqueue(x, canAlloc) => StartEnqueue(s, x, canAlloc)
    case Producer(allocOk) => ProducerStep(s, allocOk)
    case Consume(op) => StartConsume(s, op)
    case Consumer => ConsumerStep(s)
  }

  // ---------------------------------------------------------------------------
  // The invariant
  // ---------------------------------------------------------------------------

  ghost predicate Shape<T>(s: State<T>) {
    && Wf(s)
    && (forall i, j | 0 <= i < j < |s.ring| :: s.ring[i] != s.ring[j])
    && s.ring[0] == s.frontBlock && s.ring[s.t] == s.tailBlock
    && forall i | 0 <= i < |s.ring| ::
         s.blocks[s.ring[i]].next == s.ring[if i + 1 < |s.ring| then i + 1 else 0]
  }

  /** The consumer holds the first element of block number `i`. */
  ghost predicate Held<T>(s: State<T>, i: nat) {
    i == 0 && s.cons.CStore?
  }

  /** The element the producer has constructed but not published in block number `i`. */
  ghost function Extra<T>(s: State<T>, i: nat): Option<T> {
    if s.prod.PPublish? && i == s.t then Some(s.prod.x)
    else if s.prod.PBumpNext? && i == s.t + 1 then Some(s.prod.x)
    else None
  }

  /** Block number `i` in list order is well formed and as full as its place demands. */
  ghost predicate BlockInv<T>(s: State<T>, i: nat)
    requires Wf(s) && i < |s.ring|
  {
    && BlockOk(s.blocks[s.ring[i]], s.tracks[s.ring[i]], Held(s, i), Extra(s, i))
    && RoleOk(s, i, |s.blocks[s.ring[i]].data|, s.tracks[s.ring[i]])
  }

  /** Blocks after the front one and before the tail one are full; blocks after the tail are empty. */
  ghost predicate RoleOk<T>(s: State<T>, i: nat, size: nat, a: Track<T>) {
    && (0 < i < s.t ==> |a.items| == size - 1)
    && (0 < i <= s.t ==> |a.items| > 0 && a.freed == 0)
    && (s.t < i ==> a.items == if i == s.t + 1 then Spare(s) else [])
  }

  /** What the block just after the tail block holds. */
  ghost function Spare<T>(s: State<T>): seq<T> {
    if s.prod.PAdvance? then [s.prod.x] else []
  }

  function First<T>(s: State<T>): Track<T> requires Wf(s) { s.tracks[s.ring[0]] }
  function Last<T>(s: State<T>): Track<T> requires Wf(s) { s.tracks[s.ring[s.t]] }
  function LastSize<T>(s: State<T>): nat requires Wf(s) { |s.blocks[s.ring[s.t]].data| }

  ghost predicate ProducerInv<T>(s: State<T>)
    requires Wf(s)
  {
    match s.prod
    case PIdle(_) => true
    case PLoadFront(_, _) => true
    case PWrite(_) => |Last(s).items| + Last(s).freed + 1 <= LastSize(s) - 1
    case PPublish(_) => true
    case PCheckNext(_, _, _) => TailFull(s)
    case PLoadNextFront(_) => TailFull(s) && s.t + 1 < |s.ring|
    case PWriteNext(_) => TailFull(s) && s.t + 1 < |s.ring| && s.tracks[s.ring[s.t + 1]].freed == 0
    case PBumpNext(_) => TailFull(s) && s.t + 1 < |s.ring| && s.tracks[s.ring[s.t + 1]].freed == 0
    case PAlloc(_) => TailFull(s)
    case PLink(x, nb) =>
      && TailFull(s) && nb !in s.ring
      && BlockOk(s.blocks[nb], s.tracks[nb], false, None)
      && s.tracks[nb].items == [x] && s.tracks[nb].freed == 0
      && s.blocks[nb].next == s.blocks[s.tailBlock].next
    case PAdvance(x, nb) =>
      TailFull(s) && s.t + 1 < |s.ring| && s.ring[s.t + 1] == nb && s.tracks[nb].freed == 0
  }

  /** To the producer's knowledge the tail block has no room. */
  ghost predicate TailFull<T>(s: State<T>)
    requires Wf(s)
  {
    |Last(s).items| + Last(s).freed == LastSize(s) - 1
  }

  ghost predicate ConsumerInv<T>(s: State<T>)
    requires Wf(s)
  {
    match s.cons
    case CIdle(_) => true
    case CLoadTail(_) => true
    case CLoadTailBlock(_, seen) => s.t == 0 ==> seen == 0
    case CRecheck(_) => s.t > 0
    case CLoadNext(_) => s.t > 0 && First(s).items == []
    case CLoadNextTail(_, nb) => s.t > 0 && First(s).items == [] && s.ring[1] == nb
    case CAdvance(op, nb) =>
      && s.t > 0 && First(s).items == [] && s.ring[1] == nb
      && s.tracks[nb].known > 0 && !op.Peek?
    case CTake(_) => First(s).known > 0
    case CStore(op, x) => First(s).known > 0 && First(s).items != [] && First(s).items[0] == x && !op.Peek?
  }

  ghost predicate Inv<T>(s: State<T>) {
    && Shape(s)
    && (forall i: nat | i < |s.ring| :: BlockInv(s, i))
    && ProducerInv(s) && ConsumerInv(s)
    && !s.faulted
    && s.enqueued == s.dequeued + Queue(s)
  }
}
