/**
 What the shared memory of the single-producer single-consumer queue spells out when read
 the way the program reads it: from `frontBlock` along the `next` pointers to `tailBlock`,
 and in each block from `front` round to `tail`. No auxiliary variable is involved.
 */
module SpscMemory {
  import opened Options
  import opened Sequences
  import opened SpscBlock
  import opened SpscQueue

  /** How many slots lie from `front` round to `tail`. */
  function Gap(front: nat, tail: nat, size: nat): nat
    requires front < size && tail < size
  {
    if tail >= front then tail - front else tail + size - front
  }

  /** The slots of a block from `front` to `tail`. */
  function Cells<T>(b: Block<T>): seq<Option<T>>
    requires InRange(b)
  {
    seq(Gap(b.front, b.tail, |b.data|),
        i requires 0 <= i < Gap(b.front, b.tail, |b.data|) => b.data[At(b.front, i, |b.data|)])
  }

  /** All pointers lead to blocks. */
  predicate Linked<T>(blocks: seq<Block<T>>) {
    forall i: nat | i < |blocks| :: InRange(blocks[i]) && blocks[i].next < |blocks|
  }

  /** The slots of the blocks from `id` along `next` to `last`, giving up after `fuel` links. */
  function Follow<T>(blocks: seq<Block<T>>, id: nat, last: nat, fuel: nat): seq<Option<T>>
    requires Linked(blocks) && id < |blocks|
    decreases fuel
  {
    Cells(blocks[id]) + (if id == last || fuel == 0 then [] else Follow(blocks, blocks[id].next, last, fuel - 1))
  }

  /** The slots that the memory holds between the two ends of the queue. */
  function InMemory<T>(s: State<T>): seq<Option<T>>
    requires Wf(s)
  {
    Follow(s.blocks, s.frontBlock, s.tailBlock, |s.blocks|)
  }

  /** `items`, one per slot; the first one is gone while the consumer has it in its hands. */
  function Shown<T>(items: seq<T>, held: bool): seq<Option<T>> {
    seq(|items|, i requires 0 <= i < |items| => if held && i == 0 then None else Some(items[i]))
  }

  lemma CellsAre<T>(b: Block<T>, a: Track<T>, held: bool, extra: Option<T>)
    requires BlockOk(b, a, held, extra)
    ensures Cells(b) == Shown(a.items, held)
  {
    forall i: nat | i < |a.items| ensures Cells(b)[i] == Shown(a.items, held)[i] {
      assert b.data[At(b.front, i, |b.data|)] == Slot(a.items, held, extra, i);
    }
  }

  lemma ShownConcat<T>(a: seq<T>, b: seq<T>, held: bool)
    requires held ==> a != []
    ensures Shown(a + b, held) == Shown(a, held) + Shown(b, false)
  {}

  /** Block number `p`: its slots, and where its `next` pointer leads. */
  lemma BlockReads<T>(s: State<T>, p: nat)
    requires Inv(s) && p <= s.t
    ensures s.ring[p] < |s.blocks| && Cells(s.blocks[s.ring[p]]) == Shown(s.tracks[s.ring[p]].items, Held(s, p))
    ensures Held(s, p) ==> s.tracks[s.ring[p]].items != []
    ensures s.ring[p] == s.tailBlock <==> p == s.t
    ensures p < s.t ==> s.blocks[s.ring[p]].next == s.ring[p + 1]
  {
    hide BlockOk, Flat, Queue;
    assert BlockInv(s, p);
    CellsAre(s.blocks[s.ring[p]], s.tracks[s.ring[p]], Held(s, p), Extra(s, p));
  }

  /** The blocks `ids` are linked in this order up to `last`, and their slots show their records. */
  ghost predicate Spelled<T>(
    blocks: seq<Block<T>>, tracks: seq<Track<T>>, ids: seq<nat>, last: nat, held: bool)
  {
    && Linked(blocks) && |tracks| == |blocks| && ids != []
    && (forall k: nat | k < |ids| :: ids[k] < |blocks|)
    && (forall k: nat | k < |ids| :: ids[k] == last <==> k == |ids| - 1)
    && (forall k: nat | k < |ids| - 1 :: blocks[ids[k]].next == ids[k + 1])
    && (forall k: nat | k < |ids| :: Cells(blocks[ids[k]]) == Shown(tracks[ids[k]].items, held && k == 0))
    && (held ==> tracks[ids[0]].items != [])
  }

  /** Following the pointers reads the listed blocks one after the other. */
  lemma {:induction false} FollowReads<T>(
    blocks: seq<Block<T>>, tracks: seq<Track<T>>, ids: seq<nat>, last: nat, held: bool, fuel: nat)
    requires Spelled(blocks, tracks, ids, last, held) && fuel + 1 >= |ids|
    ensures Follow(blocks, ids[0], last, fuel) == Shown(Flat(tracks, ids), held)
    decreases |ids|
  {
    hide Cells, Shown;
    ShownConcat(tracks[ids[0]].items, Flat(tracks, ids[1..]), held);
    if |ids| > 1 {
      FollowReads(blocks, tracks, ids[1..], last, false, fuel - 1);
    } else {
      ShownNothing<T>();
    }
  }

  lemma ShownNothing<T>()
    ensures Shown<T>([], false) == []
  {}

  /** The memory spells out exactly the queue. */
  lemma MemoryHoldsQueue<T>(s: State<T>)
    requires Inv(s)
    ensures InMemory(s) == Shown(Queue(s), s.cons.CStore?)
  {
    Pigeonhole(s.ring, |s.blocks|);
    var ids := s.ring[..s.t + 1];
    forall p: nat | p <= s.t
      ensures ids[p] < |s.blocks| && Cells(s.blocks[ids[p]]) == Shown(s.tracks[ids[p]].items, s.cons.CStore? && p == 0)
      ensures s.cons.CStore? && p == 0 ==> s.tracks[ids[p]].items != []
      ensures ids[p] == s.tailBlock <==> p == s.t
      ensures p < s.t ==> s.blocks[ids[p]].next == ids[p + 1]
    {
      BlockReads(s, p);
    }
    hide BlockInv, Flat, Cells, Shown;
    FollowReads(s.blocks, s.tracks, ids, s.tailBlock, s.cons.CStore?, |s.blocks|);
  }
}
