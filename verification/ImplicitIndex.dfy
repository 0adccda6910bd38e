/**
 The data of an implicit producer of the multi-producer queue: blocks taken from and
 returned to a shared pool, and a growable circular index of pointers to key/value entries.
 Each part of the invariant is a predicate on values, with lemmas on how it changes.
 */
module ImplicitIndex {
  import opened Options
  import opened Bits
  import opened BlockIndex

  /** `dequeued` counts the elements completely taken out. */
  datatype Block<T> = Block(next: Option<nat>, elements: seq<Option<T>>, dequeued: nat)

  /** A key of `None` is the invalid base (odd, so never the base of a block). */
  datatype Entry = Entry(key: Option<nat>, value: Option<nat>)

  predicate Vacant(e: Entry) {
    e.key.None? || e.value.None?
  }

  // ---------------------------------------------------------------------------
  // The index
  // ---------------------------------------------------------------------------

  /** `index` points to distinct entries. */
  ghost predicate Pointers(entries: seq<Entry>, index: seq<nat>) {
    && (forall i: nat | i < |index| :: index[i] < |entries|)
    && (forall i: nat, j: nat | i < j < |index| :: index[i] != index[j])
  }

  /** The slots from `start` on hold the blocks of `ring` under their wrapped bases; the others are vacant. */
  ghost predicate Listed(entries: seq<Entry>, index: seq<nat>, start: nat, ring: seq<nat>, bases: seq<nat>, w: nat) {
    && Pointers(entries, index) && |ring| == |bases| <= |index| && start < |index|
    && (forall i: nat | i < |ring| ::
          entries[index[Around(start, i, |index|)]] == Entry(Some(Wrap(bases[i], w)), Some(ring[i])))
    && (forall i: nat | |ring| <= i < |index| :: Vacant(entries[index[Around(start, i, |index|)]]))
  }

  lemma AroundInjective(start: nat, i: nat, j: nat, size: nat)
    requires start < size && i < size && j < size && Around(start, i, size) == Around(start, j, size)
    ensures i == j
  {}

  /** Different places lead to different entries. */
  lemma EntriesDiffer(entries: seq<Entry>, index: seq<nat>, start: nat, i: nat, j: nat)
    requires Pointers(entries, index) && start < |index| && i < |index| && j < |index| && i != j
    ensures index[Around(start, i, |index|)] != index[Around(start, j, |index|)]
  {
    if Around(start, i, |index|) == Around(start, j, |index|) { AroundInjective(start, i, j, |index|); }
  }

  lemma ListedFacts(entries: seq<Entry>, index: seq<nat>, start: nat, ring: seq<nat>, bases: seq<nat>, w: nat)
    requires Listed(entries, index, start, ring, bases, w)
    ensures Pointers(entries, index) && |ring| == |bases| <= |index| && start < |index|
  {}

  lemma ListedEntry(entries: seq<Entry>, index: seq<nat>, start: nat, ring: seq<nat>, bases: seq<nat>, w: nat, i: nat)
    requires Listed(entries, index, start, ring, bases, w) && i < |ring|
    ensures start < |index| && i < |index| && i < |bases|
    ensures index[Around(start, i, |index|)] < |entries|
    ensures entries[index[Around(start, i, |index|)]] == Entry(Some(Wrap(bases[i], w)), Some(ring[i]))
  {}

  /** The slot after the last block is vacant exactly when the index has room. */
  lemma RoomIffVacant(entries: seq<Entry>, index: seq<nat>, start: nat, ring: seq<nat>, bases: seq<nat>, w: nat)
    requires Listed(entries, index, start, ring, bases, w)
    ensures |ring| <= |index| && start < |index|
    ensures index[Around(start, |ring|, |index|)] < |entries|
    ensures Vacant(entries[index[Around(start, |ring|, |index|)]]) <==> |ring| < |index|
  {
    if |ring| == |index| {
      assert Around(start, |ring|, |index|) == Around(start, 0, |index|);
    }
  }

  lemma ListedAdd(
    entries: seq<Entry>, index: seq<nat>, start: nat, ring: seq<nat>, bases: seq<nat>, w: nat, base: nat, id: nat)
    requires Listed(entries, index, start, ring, bases, w) && |ring| < |index|
    ensures var e := index[Around(start, |ring|, |index|)];
      && e < |entries|
      && Listed(entries[e := Entry(Some(Wrap(base, w)), Some(id))], index, start, ring + [id], bases + [base], w)
  {
    var n, e := |ring|, index[Around(start, |ring|, |index|)];
    forall i: nat | i < |index| && i != n ensures index[Around(start, i, |index|)] != e {
      EntriesDiffer(entries, index, start, i, n);
    }
  }

  /** An entry taken and given back unused is vacant again. */
  lemma ListedUnused(
    entries: seq<Entry>, index: seq<nat>, start: nat, ring: seq<nat>, bases: seq<nat>, w: nat, key: Option<nat>)
    requires Listed(entries, index, start, ring, bases, w) && |ring| < |index|
    ensures var e := index[Around(start, |ring|, |index|)];
      e < |entries| && Listed(entries[e := Entry(key, None)], index, start, ring, bases, w)
  {
    var n, e := |ring|, index[Around(start, |ring|, |index|)];
    forall i: nat | i < |index| && i != n ensures index[Around(start, i, |index|)] != e {
      EntriesDiffer(entries, index, start, i, n);
    }
  }

  /** Clearing the entry of the first block removes it from the list. */
  lemma ListedDropFirst(entries: seq<Entry>, index: seq<nat>, start: nat, ring: seq<nat>, bases: seq<nat>, w: nat)
    requires Listed(entries, index, start, ring, bases, w) && ring != []
    ensures var e := index[start];
      && e < |entries|
      && Listed(entries[e := entries[e].(value := None)], index, Inc(start, |index|), ring[1..], bases[1..], w)
  {
    var e, cap := index[start], |index|;
    assert Around(start, 0, cap) == start;
    forall i: nat | i < cap && i != 0 ensures index[Around(start, i, cap)] != e {
      EntriesDiffer(entries, index, start, i, 0);
    }
    forall i: nat | i < cap - 1 ensures Around(Inc(start, cap), i, cap) == Around(start, i + 1, cap) {}
    assert Around(Inc(start, cap), cap - 1, cap) == start;
  }

  /** A full index, copied oldest first and followed by as many vacant entries. */
  lemma ListedDouble(entries: seq<Entry>, index: seq<nat>, start: nat, ring: seq<nat>, bases: seq<nat>, w: nat,
                     entries': seq<Entry>, index': seq<nat>)
    requires Listed(entries, index, start, ring, bases, w) && |ring| == |index|
    requires |entries'| == |entries| + |index| && |index'| == 2 * |index|
    requires forall e: nat | e < |entries| :: entries'[e] == entries[e]
    requires forall e: nat | |entries| <= e < |entries'| :: Vacant(entries'[e])
    requires forall i: nat | i < |index| :: index'[i] == index[Around(start, i, |index|)]
    requires forall i: nat | |index| <= i < |index'| :: index'[i] == |entries| + (i - |index|)
    ensures Listed(entries', index', 0, ring, bases, w)
  {
    var cap := |index|;
    forall i: nat | i < |index'| ensures index'[i] < |entries'| {
      if i < cap { assert index[Around(start, i, cap)] < |entries|; }
    }
    forall i: nat, j: nat | i < j < |index'| ensures index'[i] != index'[j] {
      if j < cap { EntriesDiffer(entries, index, start, i, j); }
      else if i < cap { assert index[Around(start, i, cap)] < |entries|; }
    }
    forall i: nat | i < |index'| ensures Around(0, i, |index'|) == i {}
  }

  /**
   The slots are as they were, or there are more of them: first the old pointers, oldest
   first, and at the end one to an entry that did not exist before, when there were `entries0`.
   */
  ghost predicate Grown(index0: seq<nat>, start0: nat, entries0: nat, index: seq<nat>, start: nat) {
    if |index| == |index0| then index == index0 && start == start0
    else
      && |index0| < |index| && start == 0 && start0 < |index0| && index[|index| - 1] >= entries0
      && forall i: nat | i < |index0| :: index[i] == index0[Around(start0, i, |index0|)]
  }

  lemma GrownTwice(index0: seq<nat>, start0: nat, entries0: nat, index1: seq<nat>, start1: nat, entries1: nat,
                   index2: seq<nat>, start2: nat)
    requires Grown(index0, start0, entries0, index1, start1) && Grown(index1, start1, entries1, index2, start2)
    requires entries0 <= entries1
    ensures Grown(index0, start0, entries0, index2, start2)
  {
    if |index0| < |index1| < |index2| {
      forall i: nat | i < |index0| ensures index2[i] == index0[Around(start0, i, |index0|)] {
        assert Around(start1, i, |index1|) == i;
      }
    }
  }

  /**
   When the index tail is back where the same blocks are listed, it points to the same entry
   unless the index has grown and lists none.
   */
  lemma TailPointer(index0: seq<nat>, start0: nat, tail0: nat, entries0: nat, index: seq<nat>, start: nat, tail: nat,
                    listed: nat)
    requires Grown(index0, start0, entries0, index, start) && start0 < |index0| && listed <= |index0|
    requires tail0 < |index0| && Inc(tail0, |index0|) == Around(start0, listed, |index0|) && index0[tail0] < entries0
    requires tail < |index| && Inc(tail, |index|) == Around(start, listed, |index|)
    ensures index[tail] == index0[tail0] <==> listed > 0 || |index| == |index0|
  {
    if |index0| < |index| {
      if listed > 0 {
        assert tail == listed - 1;
        assert index[tail] == index0[Around(start0, tail, |index0|)];
      } else {
        assert tail == |index| - 1;
      }
    }
  }

  // ---------------------------------------------------------------------------
  // Undoing insertions
  // ---------------------------------------------------------------------------

  /** Of the blocks from number `n` on, the first `m` have had their entries cleared (the keys stay). */
  ghost predicate Unwinding(
    entries: seq<Entry>, index: seq<nat>, start: nat, ring: seq<nat>, bases: seq<nat>, w: nat, n: nat, m: nat)
  {
    && Pointers(entries, index) && |ring| == |bases| <= |index| && start < |index| && n + m <= |ring|
    && (forall i: nat | i < |ring| ::
          entries[index[Around(start, i, |index|)]]
          == Entry(Some(Wrap(bases[i], w)), if n <= i < n + m then None else Some(ring[i])))
    && (forall i: nat | |ring| <= i < |index| :: Vacant(entries[index[Around(start, i, |index|)]]))
  }

  lemma UnwindStart(entries: seq<Entry>, index: seq<nat>, start: nat, ring: seq<nat>, bases: seq<nat>, w: nat, n: nat)
    requires Listed(entries, index, start, ring, bases, w) && n <= |ring|
    ensures Unwinding(entries, index, start, ring, bases, w, n, 0)
  {}

  lemma UnwindStep(
    entries: seq<Entry>, index: seq<nat>, start: nat, ring: seq<nat>, bases: seq<nat>, w: nat, n: nat, m: nat)
    requires Unwinding(entries, index, start, ring, bases, w, n, m) && n + m < |ring|
    ensures var e := index[Around(start, n + m, |index|)];
      && e < |entries| && entries[e] == Entry(Some(Wrap(bases[n + m], w)), Some(ring[n + m]))
      && Unwinding(entries[e := entries[e].(value := None)], index, start, ring, bases, w, n, m + 1)
  {
    var e := index[Around(start, n + m, |index|)];
    forall i: nat | i < |index| && i != n + m ensures index[Around(start, i, |index|)] != e {
      EntriesDiffer(entries, index, start, i, n + m);
    }
  }

  lemma UnwindEnd(entries: seq<Entry>, index: seq<nat>, start: nat, ring: seq<nat>, bases: seq<nat>, w: nat, n: nat)
    requires n <= |ring| && Unwinding(entries, index, start, ring, bases, w, n, |ring| - n)
    ensures Listed(entries, index, start, ring[..n], bases[..n], w)
  {}

  lemma UnwindKey(
    entries: seq<Entry>, index: seq<nat>, start: nat, ring: seq<nat>, bases: seq<nat>, w: nat, n: nat, m: nat,
    i: nat)
    requires Unwinding(entries, index, start, ring, bases, w, n, m) && i < |ring|
    ensures i < |bases| && i < |index| && start < |index| && index[Around(start, i, |index|)] < |entries|
    ensures entries[index[Around(start, i, |index|)]].key == Some(Wrap(bases[i], w))
  {}

  /** From the slot of block `from` the lookup reaches the slot of block `to`, forwards or backwards. */
  lemma LookupReaches(bases: seq<nat>, start: nat, size: nat, b: nat, k: nat, w: nat, from: nat, to: nat, j: nat)
    requires w >= 1 && b <= w && k <= w && size == Pow2(k) && start < size && |bases| <= size
    requires Spaced(bases, Pow2(b)) && from < |bases| && to < |bases|
    requires bases[|bases| - 1] - bases[0] < Pow2(w - 1)
    requires bases[to] <= j < bases[to] + Pow2(b)
    ensures SlotFor(Wrap(bases[from], w), Around(start, from, size), size, Wrap(j, w), b, w) == Around(start, to, size)
  {
    hide Wrap, Spaced, Pow2, SlotFor;
    var d: int := to - from;
    Multiple(bases, Pow2(b), to);
    BlocksApart(bases, Pow2(b), from, to);
    SlotMoves(bases[from], bases[to], j, d, Around(start, from, size), b, k, w);
  }

  lemma BlocksApart(bases: seq<nat>, size: nat, from: nat, to: nat)
    requires size >= 1 && Spaced(bases, size) && from < |bases| && to < |bases|
    ensures bases[to] as int - bases[from] as int == (to - from) * size
    ensures bases[0] <= bases[to] <= bases[|bases| - 1] && bases[0] <= bases[from] <= bases[|bases| - 1]
  {
    if from <= to { Span(bases, size, from, to); } else {
      Span(bases, size, to, from);
      assert (to - from) * size == 0 - (from - to) * size;
    }
    InOrder(bases, size, to);
    InOrder(bases, size, from);
  }

  lemma InOrder(bases: seq<nat>, size: nat, i: nat)
    requires size >= 1 && Spaced(bases, size) && i < |bases|
    ensures bases[0] <= bases[i] <= bases[|bases| - 1]
  {
    Span(bases, size, 0, i);
    Span(bases, size, i, |bases| - 1);
    MulMono(0, i, size);
    MulMono(0, |bases| - 1 - i, size);
  }

  // ---------------------------------------------------------------------------
  // Blocks and the pool
  // ---------------------------------------------------------------------------

  /** Elements in place, and the counter of taken elements right. */
  ghost predicate Holds<T>(block: Block<T>, base: nat, size: nat, head: nat, contents: seq<T>) {
    && Cells(block.elements, base, size, head, contents)
    && block.dequeued == if head <= base then 0 else head - base
  }

  /** No object in any cell. */
  ghost predicate Clean<T>(block: Block<T>, size: nat) {
    |block.elements| == size && forall o: nat | o < size :: block.elements[o] == None
  }

  ghost predicate Distinct(ids: seq<nat>) {
    forall i: nat, j: nat | i < j < |ids| :: ids[i] != ids[j]
  }

  /** The producer's blocks are distinct, not in the pool and hold the contents; pool blocks are clean. */
  ghost predicate Memory<T>(
    blocks: seq<Block<T>>, free: set<nat>, ring: seq<nat>, bases: seq<nat>, size: nat, head: nat, contents: seq<T>)
  {
    && |ring| == |bases|
    && (forall i: nat | i < |ring| :: ring[i] < |blocks| && ring[i] !in free)
    && Distinct(ring)
    && (forall id: nat | id in free :: id < |blocks| && Clean(blocks[id], size))
    && (forall i: nat | i < |ring| :: Holds(blocks[ring[i]], bases[i], size, head, contents))
  }

  lemma MemoryFacts<T>(
    blocks: seq<Block<T>>, free: set<nat>, ring: seq<nat>, bases: seq<nat>, size: nat, head: nat, contents: seq<T>,
    i: nat)
    requires Memory(blocks, free, ring, bases, size, head, contents) && i < |ring|
    ensures |ring| == |bases| && ring[i] < |blocks| && ring[i] !in free
    ensures Holds(blocks[ring[i]], bases[i], size, head, contents)
  {}

  lemma NotOurs<T>(
    blocks: seq<Block<T>>, free: set<nat>, ring: seq<nat>, bases: seq<nat>, size: nat, head: nat, contents: seq<T>,
    id: nat)
    requires Memory(blocks, free, ring, bases, size, head, contents) && id in free
    ensures id !in ring && id < |blocks|
  {}

  /** A clean block as a new last block: counter reset, end of the chain. */
  function Prepared<T>(block: Block<T>): Block<T> {
    block.(next := None, dequeued := 0)
  }

  lemma PreparedHolds<T>(block: Block<T>, base: nat, size: nat, head: nat, contents: seq<T>)
    requires Clean(block, size) && base >= head + |contents|
    ensures Holds(Prepared(block), base, size, head, contents)
  {}

  /** Changing a link leaves everything else alone. */
  lemma MemoryLink<T>(
    blocks: seq<Block<T>>, free: set<nat>, ring: seq<nat>, bases: seq<nat>, size: nat, head: nat, contents: seq<T>,
    id: nat, next: Option<nat>)
    requires Memory(blocks, free, ring, bases, size, head, contents) && id < |blocks|
    ensures Memory(blocks[id := blocks[id].(next := next)], free, ring, bases, size, head, contents)
  {}

  /** A block from the pool becomes the last block of the producer. */
  lemma MemoryAdd<T>(
    blocks: seq<Block<T>>, free: set<nat>, ring: seq<nat>, bases: seq<nat>, size: nat, head: nat, contents: seq<T>,
    id: nat, base: nat)
    requires Memory(blocks, free, ring, bases, size, head, contents) && id in free && base >= head + |contents|
    ensures id < |blocks|
    ensures Memory(blocks[id := Prepared(blocks[id])], free - {id}, ring + [id], bases + [base], size, head, contents)
  {
    PreparedHolds(blocks[id], base, size, head, contents);
    hide Holds, Clean;
    var bs, fr, r, ba := blocks[id := Prepared(blocks[id])], free - {id}, ring + [id], bases + [base];
    forall i: nat | i < |r| ensures Holds(bs[r[i]], ba[i], size, head, contents) {
      if i < |ring| { assert r[i] == ring[i] && ring[i] !in free; }
    }
  }

  /** A newly allocated block joins the pool. */
  lemma MemoryFresh<T>(
    blocks: seq<Block<T>>, free: set<nat>, ring: seq<nat>, bases: seq<nat>, size: nat, head: nat, contents: seq<T>,
    block: Block<T>)
    requires Memory(blocks, free, ring, bases, size, head, contents) && Clean(block, size)
    ensures Memory(blocks + [block], free + {|blocks|}, ring, bases, size, head, contents)
  {
    hide Holds, Clean;
  }

  lemma UnusedIsClean<T>(block: Block<T>, base: nat, size: nat, head: nat, contents: seq<T>)
    requires Holds(block, base, size, head, contents) && (base >= head + |contents| || base + size <= head)
    ensures Clean(block, size)
  {
    forall o: nat | o < size ensures block.elements[o] == None {
      assert block.elements[o] == Cell(base + o, head, contents);
    }
  }

  /** The first block, completely dequeued, goes back to the pool. */
  lemma MemoryReturnFirst<T>(
    blocks: seq<Block<T>>, free: set<nat>, ring: seq<nat>, bases: seq<nat>, size: nat, head: nat, contents: seq<T>)
    requires Memory(blocks, free, ring, bases, size, head, contents) && ring != []
    requires bases[0] + size <= head
    ensures Memory(blocks, free + {ring[0]}, ring[1..], bases[1..], size, head, contents)
  {
    UnusedIsClean(blocks[ring[0]], bases[0], size, head, contents);
    hide Holds, Clean;
    forall id: nat | id in free + {ring[0]} ensures id < |blocks| && Clean(blocks[id], size) {}
  }

  /** Constructing `x` at the tail, in block number `i`, touches no live cell and nothing else. */
  lemma MemoryPut<T>(
    blocks: seq<Block<T>>, free: set<nat>, ring: seq<nat>, bases: seq<nat>, size: nat, head: nat, contents: seq<T>,
    x: T, i: nat, o: nat)
    requires Memory(blocks, free, ring, bases, size, head, contents) && size >= 1 && Spaced(bases, size)
    requires i < |ring| && o < size && bases[i] + o == head + |contents|
    ensures var block := blocks[ring[i]];
      && |block.elements| == size && block.elements[o] == None
      && var blocks' := blocks[ring[i] := block.(elements := block.elements[o := Some(x)])];
      Memory(blocks', free, ring, bases, size, head, contents + [x])
  {
    var block := blocks[ring[i]];
    var bs := blocks[ring[i] := block.(elements := block.elements[o := Some(x)])];
    CellsPut(block.elements, bases[i], size, head, contents, x, o);
    forall j: nat | j < |ring| ensures Holds(bs[ring[j]], bases[j], size, head, contents + [x]) {
      if j != i {
        if j < i { Apart(bases, size, j, i); } else { Apart(bases, size, i, j); }
        CellsPutElsewhere(blocks[ring[j]].elements, bases[j], size, head, contents, x);
      }
    }
  }

  /** `block` after the element at offset `o` has been moved out and counted. */
  function Taken<T>(block: Block<T>, o: nat): Block<T>
    requires o < |block.elements|
  {
    block.(elements := block.elements[o := None], dequeued := block.dequeued + 1)
  }

  /** Taking the front element out of the first block. */
  lemma MemoryTake<T>(
    blocks: seq<Block<T>>, free: set<nat>, ring: seq<nat>, bases: seq<nat>, size: nat, head: nat, contents: seq<T>)
    requires Memory(blocks, free, ring, bases, size, head, contents) && contents != []
    requires size >= 1 && Spaced(bases, size) && ring != [] && bases[0] <= head < bases[0] + size
    ensures var block, o := blocks[ring[0]], head - bases[0];
      && |block.elements| == size && block.elements[o] == Some(contents[0]) && block.dequeued == o
      && Memory(blocks[ring[0] := Taken(block, o)], free, ring, bases, size, head + 1, contents[1..])
  {
    var block, o := blocks[ring[0]], head - bases[0];
    var bs := blocks[ring[0] := Taken(block, o)];
    CellsTake(block.elements, bases[0], size, head, contents, o);
    forall j: nat | j < |ring| ensures Holds(bs[ring[j]], bases[j], size, head + 1, contents[1..]) {
      if j != 0 {
        Apart(bases, size, 0, j);
        CellsTakeElsewhere(blocks[ring[j]].elements, bases[j], size, head, contents);
      }
    }
  }

  // ---------------------------------------------------------------------------
  // The chain of newly taken blocks
  // ---------------------------------------------------------------------------

  ghost predicate Chain<T>(blocks: seq<Block<T>>, taken: seq<nat>) {
    && (forall i: nat | i < |taken| :: taken[i] < |blocks|)
    && (forall i: nat | i < |taken| ::
          blocks[taken[i]].next == if i + 1 < |taken| then Some(taken[i + 1]) else None)
  }

  lemma ChainAt<T>(blocks: seq<Block<T>>, taken: seq<nat>, i: nat)
    requires Chain(blocks, taken) && i < |taken|
    ensures taken[i] < |blocks| && blocks[taken[i]].next == if i + 1 < |taken| then Some(taken[i + 1]) else None
  {}

  /** The blocks from pool and memory that are not in `taken` are those of before. */
  ghost predicate PoolSplit(free: set<nat>, taken: seq<nat>, free0: set<nat>, blocks0: nat, blocks: nat) {
    && blocks0 <= blocks
    && forall id: nat :: id in free || id in taken <==> id in free0 || blocks0 <= id < blocks
  }

  /** A block with no successor becomes the last link of the chain. */
  lemma ChainExtend<T>(blocks: seq<Block<T>>, taken: seq<nat>, id: nat)
    requires Chain(blocks, taken) && taken != [] && id < |blocks| && id !in taken && blocks[id].next == None
    requires Distinct(taken)
    ensures var last := taken[|taken| - 1];
      last < |blocks| && Chain(blocks[last := blocks[last].(next := Some(id))], taken + [id])
  {
    var n := |taken|;
    var bs := blocks[taken[n - 1] := blocks[taken[n - 1]].(next := Some(id))];
    var t := taken + [id];
    forall i: nat | i < |t| ensures bs[t[i]].next == if i + 1 < |t| then Some(t[i + 1]) else None {
      if i < n - 1 { assert taken[i] != taken[n - 1]; }
    }
  }

  lemma ChainKept<T>(blocks: seq<Block<T>>, blocks': seq<Block<T>>, taken: seq<nat>, id: nat)
    requires Chain(blocks, taken) && |blocks| <= |blocks'| && id !in taken
    requires forall i: nat | i < |blocks| && i != id :: blocks'[i] == blocks[i]
    ensures Chain(blocks', taken)
  {
    forall i: nat | i < |taken| ensures taken[i] != id {}
  }

  lemma ChainElements<T>(blocks: seq<Block<T>>, taken: seq<nat>, id: nat, elements: seq<Option<T>>)
    requires Chain(blocks, taken) && id < |blocks|
    ensures Chain(blocks[id := blocks[id].(elements := elements)], taken)
  {}

  lemma PoolTakes(free0: set<nat>, n0: nat, free: set<nat>, n: nat, free': set<nat>, n': nat, taken: seq<nat>, id: nat)
    requires PoolSplit(free, taken, free0, n0, n) && PoolSplit(free', [id], free, n, n')
    ensures PoolSplit(free', taken + [id], free0, n0, n')
  {}

  lemma PoolReturned(free: set<nat>, taken: seq<nat>, free0: set<nat>, n0: nat, n: nat)
    requires PoolSplit(free, taken, free0, n0, n)
    ensures PoolSplit(free + (set id | id in taken), [], free0, n0, n)
  {}

  lemma PoolSame(free: set<nat>, n: nat)
    requires forall id: nat | id in free :: id < n
    ensures PoolSplit(free, [], free, n, n)
  {}

  /** The producer's blocks from number `n` on, still unused, go back to the pool. */
  lemma MemoryReturn<T>(
    blocks: seq<Block<T>>, free: set<nat>, ring: seq<nat>, bases: seq<nat>, size: nat, head: nat, contents: seq<T>,
    n: nat)
    requires Memory(blocks, free, ring, bases, size, head, contents) && n <= |ring|
    requires forall i: nat | n <= i < |bases| :: bases[i] >= head + |contents|
    ensures Memory(blocks, free + (set id | id in ring[n..]), ring[..n], bases[..n], size, head, contents)
  {
    forall id: nat | id in ring[n..] ensures id < |blocks| && Clean(blocks[id], size) {
      var i: nat :| n <= i < |ring| && ring[i] == id;
      UnusedIsClean(blocks[id], bases[i], size, head, contents);
    }
    hide Holds, Clean;
    forall i: nat | i < n ensures ring[i] !in ring[n..] {}
  }

  /** The blocks after the last one of `ring` has been linked to the one before it, if need be. */
  function LinkedLast<T>(blocks: seq<Block<T>>, ring: seq<nat>, link: bool): seq<Block<T>>
    requires link ==> |ring| >= 2 && ring[|ring| - 2] < |blocks|
  {
    if link
    then blocks[ring[|ring| - 2] := blocks[ring[|ring| - 2]].(next := Some(ring[|ring| - 1]))]
    else blocks
  }

  /** Linking the last block completes the chain from block `n` on, or from the block before when that has room. */
  lemma LinkLast<T>(
    blocks: seq<Block<T>>, free: set<nat>, ring: seq<nat>, bases: seq<nat>, size: nat, head: nat, contents: seq<T>,
    n: nat, room: bool)
    requires Memory(blocks, free, ring, bases, size, head, contents) && n < |ring| && (room ==> n > 0)
    requires Chain(blocks, ring[n..|ring| - 1]) && ring[|ring| - 1] < |blocks| && blocks[ring[|ring| - 1]].next == None
    requires room && n + 1 < |ring| ==> ring[n - 1] < |blocks| && blocks[ring[n - 1]].next == Some(ring[n])
    ensures var link := room || n + 1 < |ring|;
      && (link ==> |ring| >= 2 && ring[|ring| - 2] < |blocks|)
      && var blocks' := LinkedLast(blocks, ring, link);
      && Chain(blocks', ring[n..]) && Memory(blocks', free, ring, bases, size, head, contents)
      && (room ==> ring[n - 1] < |blocks| && blocks'[ring[n - 1]].next == Some(ring[n]))
  {
    var m := |ring|;
    if room || n + 1 < m {
      RingAt(blocks, free, ring, bases, size, head, contents, m - 2);
      MemoryLink(blocks, free, ring, bases, size, head, contents, ring[m - 2], Some(ring[m - 1]));
    }
    RingAt(blocks, free, ring, bases, size, head, contents, m - 1);
    hide Memory;
    LinkChain(blocks, ring, n, room);
  }

  lemma RingAt<T>(
    blocks: seq<Block<T>>, free: set<nat>, ring: seq<nat>, bases: seq<nat>, size: nat, head: nat, contents: seq<T>,
    i: nat)
    requires Memory(blocks, free, ring, bases, size, head, contents) && i < |ring|
    ensures ring[i] < |blocks| && Distinct(ring)
  {}

  lemma LinkChain<T>(blocks: seq<Block<T>>, ring: seq<nat>, n: nat, room: bool)
    requires Distinct(ring) && n < |ring| && (room ==> n > 0)
    requires room || n + 1 < |ring| ==> ring[|ring| - 2] < |blocks|
    requires Chain(blocks, ring[n..|ring| - 1]) && ring[|ring| - 1] < |blocks| && blocks[ring[|ring| - 1]].next == None
    requires room && n + 1 < |ring| ==> ring[n - 1] < |blocks| && blocks[ring[n - 1]].next == Some(ring[n])
    ensures var blocks' := LinkedLast(blocks, ring, room || n + 1 < |ring|);
      && Chain(blocks', ring[n..])
      && (room ==> ring[n - 1] < |blocks| && blocks'[ring[n - 1]].next == Some(ring[n]))
  {
    var taken, m := ring[n..|ring| - 1], |ring|;
    assert ring[n..] == taken + [ring[m - 1]];
    if n + 1 < m {
      TakenDistinct(ring, n);
      ChainExtend(blocks, taken, ring[m - 1]);
      hide Chain;
    } else if room {
      assert ring[n..] == [ring[m - 1]];
    }
  }

  lemma TakenDistinct(ring: seq<nat>, n: nat)
    requires Distinct(ring) && n < |ring|
    ensures Distinct(ring[n..|ring| - 1]) && ring[|ring| - 1] !in ring[n..|ring| - 1]
  {}
}
