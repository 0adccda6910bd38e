/**
 The implicit producer of the multi-producer queue, with whole calls: `enqueue_bulk` with
 its allocation loop and roll-back, the growable block index, and `dequeue`. What the
 allocator does is a parameter of the call.
 */
module ImplicitProducer {
  import opened Options
  import opened Bits
  import opened BlockIndex
  import opened ImplicitIndex

  /** What `requisition_block` comes back with: nothing, a new block or one from the pool. */
  datatype BlockGrant = Refused | Fresh | Recycled(id: nat)

  /** The allocator's answers for one block: index memory if it is needed, and the block. */
  datatype Grant = Grant(index: bool, block: BlockGrant)

  /** log2(BLOCK_SIZE), the bits of `index_t`, and MAX_SUBQUEUE_SIZE if there is one. */
  datatype Traits = Traits(b: nat, w: nat, limit: Option<nat>)

  /** Another block with base `next` fits under half the index range and under the size limit. */
  predicate FitsAt(t: Traits, head: nat, next: nat)
    requires t.w >= 1
  {
    && next + Pow2(t.b) - head < Pow2(t.w - 1)
    && (t.limit.Some? ==> t.limit.value != 0 && next - head <= t.limit.value - Pow2(t.b))
  }

  /** Whether all blocks are granted, and the index capacity afterwards. */
  datatype Allotment = Allotment(ok: bool, cap: nat)

  /**
   What an allocator with these answers allots to a batch that needs `need` blocks, the
   first with base `next`, when `live` blocks and `cap` index slots are there at turn `i`.
   */
  function Allot(t: Traits, present: bool, head: nat, need: nat, i: nat, live: nat, cap: nat, next: nat,
                 canAlloc: bool, grants: nat -> Grant): Allotment
    requires t.w >= 1
    decreases need
  {
    if need == 0 then Allotment(true, cap)
    else if !FitsAt(t, head, next) || !present then Allotment(false, cap)
    else if live >= cap && !(canAlloc && grants(i).index) then Allotment(false, cap)
    else
      var cap' := if live < cap then cap else 2 * cap;
      if grants(i).block.Refused? then Allotment(false, cap')
      else Allot(t, present, head, need - 1, i + 1, live + 1, cap', next + Pow2(t.b), canAlloc, grants)
  }

  /**
   The last of `count` more elements after `tail` lies a whole index range or more behind the
   start of the block of the element before the first.
   */
  predicate Overruns(b: nat, w: nat, tail: nat, count: nat) {
    (tail - 1) % Pow2(b) + count >= Pow2(w)
  }

  /** The range of the blocks that begin within `count` steps after `x`. */
  function Covered(x: int, count: nat, size: nat): int
    requires size >= 1
  {
    ((x + count) / size - x / size) * size
  }

  /** That is when, for a count within the word, the new blocks cover the whole index range. */
  lemma OverrunsExactly(b: nat, w: nat, tail: nat, count: nat)
    requires b <= w && count < Pow2(w)
    ensures var range := Covered(tail - 1, count, Pow2(b));
      && (Overruns(b, w, tail, count) <==> range == Pow2(w))
      && (!Overruns(b, w, tail, count) <==> 0 <= range < Pow2(w))
  {
    Pow2Add(b, w - b);
    hide Pow2;
    hide Covered;
    CoversExactly(tail - 1, count, Pow2(b), Pow2(w - b), Pow2(w));
  }

  lemma CoversExactly(x: int, count: nat, size: nat, m: nat, whole: nat)
    requires size >= 1 && whole == size * m && count < whole
    ensures var range := Covered(x, count, size);
      && (x % size + count >= whole <==> range == whole)
      && (x % size + count < whole <==> 0 <= range < whole)
  {
    var y := x % size + count;
    Crossed(x, count, size);
    var p, o := y / size, y % size;
    assert y == size * p + o && 0 <= o < size && p >= 0 by { DivMod(y, size); }
    assert (x + count) / size - x / size == p;
    assert Covered(x, count, size) == p * size;
    assert y < whole + size;
    FullBlocks(y, size, m, p, o);
  }

  /** The block boundaries crossed by `count` steps from `x`. */
  lemma Crossed(x: int, count: nat, size: nat)
    requires size >= 1
    ensures (x + count) / size - x / size == (x % size + count) / size
  {
    var q, r := x / size, x % size;
    var p, o := (r + count) / size, (r + count) % size;
    assert x + count == size * (q + p) + o by { assert size * (q + p) == size * q + size * p; }
    RemainderUnique(x + count, size, q + p, o);
  }

  lemma FullBlocks(y: nat, size: nat, m: nat, p: nat, o: nat)
    requires y == size * p + o && o < size && y < size * m + size
    ensures y >= size * m <==> p * size == size * m
    ensures y < size * m <==> 0 <= p * size < size * m
  {
    assert p * size == size * p;
    if p < m {
      MulMono(p + 1, m, size);
      assert (p + 1) * size == size * p + size;
    } else if p > m {
      MulMono(m + 1, p, size);
      assert (m + 1) * size == size * m + size;
    }
  }

  /** What the allocation loop remembers of the state it started from. */
  datatype Loop = Loop(
    n: nat, startBlock: Option<nat>, free0: set<nat>, blocks0: nat,
    ring0: seq<nat>, bases0: seq<nat>, next0: nat, end: int, index0: seq<nat>, start0: nat, entries0: nat)

  /** The block index as a value. */
  datatype Index = Index(
    present: bool, entries: seq<Entry>, slots: seq<nat>, tail: nat, nextCapacity: nat, start: nat, k: nat)

  class Producer<T> {
    const b: nat                 // log2(BLOCK_SIZE)
    const w: nat                 // bits of index_t and size_t
    const limit: Option<nat>     // MAX_SUBQUEUE_SIZE, if there is one

    var tailIndex: nat
    var headIndex: nat
    var dequeueOptimisticCount: nat
    var dequeueOvercommit: nat
    var tailBlock: Option<nat>
    var blocks: seq<Block<T>>    // all blocks, this producer's and the pool's
    var free: set<nat>           // the shared pool

    var hasIndex: bool           // blockIndex != nullptr
    var entries: seq<Entry>      // all index entries ever allocated
    var index: seq<nat>          // blockIndex->index
    var indexTail: nat           // blockIndex->tail
    var nextCapacity: nat        // nextBlockIndexCapacity

    ghost var ring: seq<nat>     // this producer's blocks, oldest first
    ghost var bases: seq<nat>    // their true bases
    ghost var start: nat         // index slot of the oldest
    ghost var k: nat             // log2(nextCapacity)
    ghost var head: nat          // true counters
    ghost var tail: nat
    ghost var contents: seq<T>   // the elements enqueued and not dequeued

    function Size(): nat { Pow2(b) }

    /** `t` is the first index of a block. */
    predicate Aligned(t: nat) {
      t % Size() == 0
    }

    ghost predicate Parameters() {
      1 <= b && b + 1 < w
    }

    /** The blocks cover exactly the range from the head's block to the tail, within half the index range. */
    ghost predicate WindowOf(ring: seq<nat>, bases: seq<nat>, head: nat, tail: nat)
      requires Parameters()
    {
      && |ring| == |bases| && Spaced(bases, Size()) && head <= tail
      && (ring == [] ==> head == tail && Aligned(tail))
      && (ring != [] ==>
            && bases[0] <= head < bases[0] + Size()
            && tail <= bases[|bases| - 1] + Size()
            && bases[|bases| - 1] + Size() - head < Pow2(w - 1)
            && (limit.Some? ==> bases[|bases| - 1] + Size() - head <= limit.value))
    }

    ghost predicate Window()
      reads this`ring, this`bases, this`head, this`tail
      requires Parameters()
    {
      WindowOf(ring, bases, head, tail)
    }

    /** The index lists the blocks, and its tail stands at the last of them. */
    ghost predicate IndexOf(i: Index, ring: seq<nat>, bases: seq<nat>) {
      && i.nextCapacity == Pow2(i.k) && i.k <= w + 1
      && (!i.present ==> ring == [])
      && (i.present ==>
            && i.k >= 1 && |i.slots| == Pow2(i.k - 1) && i.start < |i.slots| && |ring| <= |i.slots|
            && i.tail < |i.slots| && Inc(i.tail, |i.slots|) == Around(i.start, |ring|, |i.slots|)
            && Listed(i.entries, i.slots, i.start, ring, bases, w))
    }

    ghost function TheIndex(): Index
      reads this`hasIndex, this`entries, this`index, this`indexTail, this`nextCapacity, this`start, this`k
    {
      Index(hasIndex, entries, index, indexTail, nextCapacity, start, k)
    }

    ghost predicate IndexInv()
      reads this`hasIndex, this`entries, this`index, this`indexTail, this`nextCapacity, this`ring, this`bases,
            this`start, this`k
    {
      IndexOf(TheIndex(), ring, bases)
    }

    ghost predicate Core()
      reads this`ring, this`bases, this`head, this`tail, this`hasIndex, this`entries, this`index, this`indexTail,
            this`nextCapacity, this`start, this`k, this`blocks, this`free, this`contents, this`headIndex
    {
      && Parameters() && Window() && IndexInv() && tail == head + |contents| && headIndex == Wrap(head, w)
      && Memory(blocks, free, ring, bases, Size(), head, contents)
    }

    /** Between calls every block holds a place before the tail, and no reservation is open. */
    ghost predicate Valid()
      reads this
    {
      && Core() && tailIndex == Wrap(tail, w)
      && WordSub(dequeueOptimisticCount, dequeueOvercommit, w) == headIndex
      && (ring != [] ==> bases[|bases| - 1] < tail && tailBlock == Some(ring[|ring| - 1]))
      && (tailBlock.Some? ==> tailBlock.value < |blocks|)
    }

    // -------------------------------------------------------------------------
    // The block index
    // -------------------------------------------------------------------------

    /** `new_block_index`: twice the slots, the old ones oldest first; `junk` is what new memory holds. */
    method NewBlockIndex(ok: bool, junk: Option<nat>) returns (r: bool)
      requires Core() && hasIndex && |ring| == |index| && k <= w
      modifies this`entries, this`index, this`indexTail, this`nextCapacity, this`start, this`k
      ensures Core() && r == ok
      ensures !ok ==> entries == old(entries) && index == old(index) && indexTail == old(indexTail)
      ensures ok ==> |index| == 2 * old(|index|)
      ensures Grown(old(index), old(start), old(|entries|), index, start) && old(|entries|) <= |entries|
    {
      hide Listed, Memory, Wrap, Pow2, WindowOf, IndexOf, Grown;
      Same(index, start, |entries|);
      if !ok { return false; }
      var entries', index' := DoubleIndex(junk);
      entries, index, indexTail := entries', index', |index| - 1;
      nextCapacity, start, k := 2 * nextCapacity, 0, k + 1;
      return true;
    }

    /** The new entries and slots. */
    method DoubleIndex(junk: Option<nat>) returns (entries': seq<Entry>, index': seq<nat>)
      requires IndexInv() && hasIndex && |ring| == |index| && k <= w
      ensures index != [] && |index'| == 2 * |index| && |entries| <= |entries'|
      ensures Grown(index, start, |entries|, index', 0)
      ensures IndexOf(Index(true, entries', index', |index| - 1, 2 * nextCapacity, 0, k + 1), ring, bases)
    {
      hide IndexOf, Grown;
      var copied := CopyIndex();
      entries', index' := FreshSlots(copied, junk);
      Doubled(entries', index', junk);
    }

    /** As many new entries as there were slots, listed after the copied ones. */
    method FreshSlots(copied: seq<nat>, junk: Option<nat>) returns (entries': seq<Entry>, index': seq<nat>)
      ensures |entries'| == |entries| + |copied| && |index'| == 2 * |copied|
      ensures forall e: nat | e < |entries| :: entries'[e] == entries[e]
      ensures forall e: nat | |entries| <= e < |entries'| :: entries'[e] == Entry(None, junk)
      ensures forall j: nat | j < |copied| :: index'[j] == copied[j]
      ensures forall j: nat | |copied| <= j < |index'| :: index'[j] == |entries| + (j - |copied|)
    {
      entries', index' := entries, copied;
      for i := 0 to |copied|
        invariant |entries'| == |entries| + i && |index'| == |copied| + i
        invariant forall e: nat | e < |entries| :: entries'[e] == entries[e]
        invariant forall e: nat | |entries| <= e < |entries'| :: entries'[e] == Entry(None, junk)
        invariant forall j: nat | j < |copied| :: index'[j] == copied[j]
        invariant forall j: nat | |copied| <= j < |index'| :: index'[j] == |entries| + (j - |copied|)
      {
        index' := index' + [|entries'|];
        entries' := entries' + [Entry(None, junk)];
      }
    }

    lemma Same(index: seq<nat>, start: nat, entries0: nat)
      ensures Grown(index, start, entries0, index, start)
    {}

    /** The doubled index lists the same blocks. */
    lemma Doubled(entries': seq<Entry>, index': seq<nat>, junk: Option<nat>)
      requires IndexInv() && hasIndex && |ring| == |index| && k <= w
      requires |entries'| == |entries| + |index| && |index'| == 2 * |index|
      requires forall e: nat | e < |entries| :: entries'[e] == entries[e]
      requires forall e: nat | |entries| <= e < |entries'| :: entries'[e] == Entry(None, junk)
      requires forall i: nat | i < |index| :: index'[i] == index[Around(start, i, |index|)]
      requires forall i: nat | |index| <= i < |index'| :: index'[i] == |entries| + (i - |index|)
      ensures index != [] && Grown(index, start, |entries|, index', 0)
      ensures IndexOf(Index(true, entries', index', |index| - 1, 2 * nextCapacity, 0, k + 1), ring, bases)
    {
      hide Listed, Pow2;
      DoubledPower(k);
      ListedDouble(entries, index, start, ring, bases, w, entries', index');
    }

    lemma DoubledPower(k: nat)
      requires k >= 1
      ensures Pow2(k) == 2 * Pow2(k - 1) && Pow2(k + 1) == 2 * Pow2(k)
    {}

    /** The copying loop, from the slot after the tail round to the tail. */
    method CopyIndex() returns (copied: seq<nat>)
      requires IndexInv() && hasIndex && |ring| == |index|
      ensures |copied| == |index| && forall i: nat | i < |index| :: copied[i] == index[Around(start, i, |index|)]
    {
      hide Listed, Wrap;
      var cap := |index|;
      copied := [];
      var pos: nat := indexTail;
      var done := false;
      while !done
        invariant |copied| <= cap && pos < cap && Inc(pos, cap) == Around(start, |copied|, cap)
        invariant done == (|copied| == cap)
        invariant forall i: nat | i < |copied| :: copied[i] == index[Around(start, i, cap)]
        decreases cap - |copied|
      {
        IncIsMaskedStep(pos, k - 1);
        pos := And(pos + 1, cap - 1);
        copied := copied + [index[pos]];
        done := pos == indexTail;
      }
    }

    /** Twice the slots of a full index still fit the word. */
    lemma GrowthFits()
      requires Core() && hasIndex && |ring| == |index|
      ensures k <= w
    {
      hide Listed, Memory, Wrap, Spaced;
      FewBlocks(bases, Size());
      Pow2Grows(b, w - 1);
      Pow2Grows(w - 1, w);
      hide Pow2;
      Pow2Below(k - 1, w);
    }

    /** Entry `e` has got its key but not its value; without it the index lists the ring. */
    ghost predicate HalfInserted(listed: seq<Entry>, e: nat, key: nat)
      reads this`hasIndex, this`entries, this`index, this`indexTail, this`nextCapacity, this`ring, this`bases,
            this`start, this`k
    {
      && hasIndex && nextCapacity == Pow2(k) && 1 <= k <= w + 1 && |index| == Pow2(k - 1)
      && start < |index| && |ring| < |index| && indexTail == Around(start, |ring|, |index|)
      && Listed(listed, index, start, ring, bases, w)
      && e == index[indexTail] && e < |listed| && entries == listed[e := Entry(Some(key), listed[e].value)]
    }

    /** `insert_block_index_entry`: says exactly when it finds or makes room. */
    method InsertEntry(
      key: nat, canAlloc: bool, ok: bool, junk: Option<nat>)
      returns (r: Option<nat>, ghost listed: seq<Entry>)
      requires Core()
      modifies this`entries, this`index, this`indexTail, this`nextCapacity, this`start, this`k
      ensures r.Some? == (hasIndex && (|ring| < old(|index|) || (canAlloc && ok)))
      ensures r.Some? ==> HalfInserted(listed, r.value, key)
      ensures r.Some? ==> |index| == if |ring| < old(|index|) then old(|index|) else 2 * old(|index|)
      ensures r.None? ==> Core() && entries == old(entries) && index == old(index) && indexTail == old(indexTail)
      ensures Grown(old(index), old(start), old(|entries|), index, start) && old(|entries|) <= |entries|
    {
      hide Listed, Memory, Window, Wrap, Pow2, And, Grown;
      Same(index, start, |entries|);
      listed := entries;
      if !hasIndex { return None, listed; }
      RoomIffVacant(entries, index, start, ring, bases, w);
      ListedFacts(entries, index, start, ring, bases, w);
      var newTail := NextSlot();
      if !Vacant(entries[index[newTail]]) {
        if !canAlloc { return None, listed; }
        GrowthFits();
        var grown := NewBlockIndex(ok, junk);
        if !grown { return None, listed; }
        RoomIffVacant(entries, index, start, ring, bases, w);
        newTail := NextSlot();
        listed := entries;
      }
      var e := index[newTail];
      entries := entries[e := Entry(Some(key), entries[e].value)];
      indexTail := newTail;
      return Some(e), listed;
    }

    /** `(tail + 1) & (capacity - 1)`. */
    method NextSlot() returns (r: nat)
      requires IndexInv() && hasIndex
      ensures r == Around(start, |ring|, |index|)
    {
      hide Listed, Wrap;
      IncIsMaskedStep(indexTail, k - 1);
      r := And(indexTail + 1, |index| - 1);
    }

    /** `rewind_block_index_tail`. */
    method RewindTail()
      requires hasIndex && 1 <= w && 1 <= k <= w + 1 && |index| == Pow2(k - 1) && indexTail < |index|
      modifies this`indexTail
      ensures indexTail < |index| && Inc(indexTail, |index|) == old(indexTail)
    {
      hide Wrap, And;
      MaskedWrap(indexTail - 1, k - 1, w);
      TurnIsRemainder(indexTail - 1, |index|);
      indexTail := And(WordSub(indexTail, 1, w), |index| - 1);
    }

    /** Undo a half-done insertion: the entry is vacant again. */
    method GiveUpEntry(e: nat, key: nat, ghost listed: seq<Entry>)
      requires HalfInserted(listed, e, key) && 1 <= w
      modifies this`indexTail, this`entries
      ensures IndexInv() && |index| == old(|index|) && |entries| == old(|entries|)
    {
      hide Listed, Wrap, Pow2;
      ListedUnused(listed, index, start, ring, bases, w, Some(key));
      RewindTail();
      assert entries[e := entries[e].(value := None)] == listed[e := Entry(Some(key), None)];
      entries := entries[e := entries[e].(value := None)];
    }

    // -------------------------------------------------------------------------
    // Blocks
    // -------------------------------------------------------------------------

    ghost function Setting(): Traits {
      Traits(b, w, limit)
    }

    ghost predicate Fits(next: nat)
      reads this`head
      requires Parameters()
    {
      FitsAt(Setting(), head, next)
    }

    /** The test on words is the test on the true counters. */
    lemma FullTest(next: nat, word: nat)
      requires Core() && word == Wrap(next, w) && head <= next < head + Pow2(w - 1)
      ensures CircularLess(headIndex, Wrap(word + Size(), w), w) <==> next + Size() - head < Pow2(w - 1)
      ensures !CircularLess(word, headIndex, w)
      ensures WordSub(word, headIndex, w) == next - head
    {
      hide Listed, Memory, IndexInv;
      WrapSum(next, Size(), w);
      WrapSub(head, next + Size(), w);
      WrapSub(next, head, w);
      WrapSmall(next - head, w);
      Pow2Grows(b, w - 1);
      WrapSmall(head - (next + Size()), w);
      hide Wrap;
    }

    /** `requisition_block`: a block of the pool, newly allocated if need be. */
    method Requisition(grant: BlockGrant) returns (r: Option<nat>)
      requires Memory(blocks, free, ring, bases, Size(), head, contents)
      modifies this`blocks, this`free
      ensures Memory(blocks, free, ring, bases, Size(), head, contents)
      ensures r.Some? == !grant.Refused?
      ensures r.None? ==> blocks == old(blocks) && free == old(free)
      ensures r.Some? ==> r.value in free && r.value < |blocks|
      ensures old(blocks) <= blocks && PoolSplit(free, [], old(free), |old(blocks)|, |blocks|)
    {
      if grant.Refused? { return None; }
      if grant.Recycled? && grant.id in free { return Some(grant.id); }
      var block := Block(None, seq(Size(), _ => None), 0);
      MemoryFresh(blocks, free, ring, bases, Size(), head, contents, block);
      hide Memory, Pow2;
      blocks, free := blocks + [block], free + {|blocks|};
      return Some(|blocks| - 1);
    }

    /** The base of the next block. */
    ghost function Next(): nat
      reads this`ring, this`bases, this`tail
      requires |ring| == |bases|
    {
      if ring == [] then tail else bases[|bases| - 1] + Size()
    }

    /**
     One turn of the allocation loop: take a block with base `next` and list it in the
     index, or change nothing; and exactly when it succeeds.
     */
    method TakeBlock(
      ghost next: nat, word: nat, canAlloc: bool, grant: Grant, junk: Option<nat>)
      returns (r: Option<nat>)
      requires Core() && next == Next() && word == Wrap(next, w)
      modifies this`entries, this`index, this`indexTail, this`nextCapacity, this`start, this`k, this`blocks, this`free,
               this`ring, this`bases
      ensures Core() && |index| == old(TurnCapacity(next, canAlloc, grant))
      ensures Grown(old(index), old(start), old(|entries|), index, start) && old(|entries|) <= |entries|
      ensures r.Some? == old(
        Fits(next) && hasIndex && (|ring| < |index| || (canAlloc && grant.index)) && !grant.block.Refused?)
      ensures r.None? ==> ring == old(ring) && bases == old(bases) && blocks == old(blocks) && free == old(free)
      ensures r.Some? ==>
        && ring == old(ring) + [r.value] && bases == old(bases) + [next]
        && r.value < |blocks| && blocks[r.value].next == None && r.value !in old(ring)
        && |old(blocks)| <= |blocks|
        && (forall id: nat | id < |old(blocks)| && id != r.value :: blocks[id] == old(blocks[id]))
        && PoolSplit(free, [r.value], old(free), |old(blocks)|, |blocks|)
    {
      hide Listed, Memory, Wrap, Pow2, And, WordSub, Grown;
      Same(index, start, |entries|);
      NextInRange(next);
      FullTest(next, word);
      assert !CircularLess(word, headIndex, w);
      if !CircularLess(headIndex, Wrap(word + Size(), w), w) { return None; }
      if limit.Some? && (limit.value == 0 || limit.value - Size() < WordSub(word, headIndex, w)) { return None; }
      var e;
      ghost var listed;
      e, listed := InsertEntry(word, canAlloc, grant.index, junk);
      if e == None { return None; }
      r := FinishBlock(next, word, e.value, listed, grant.block);
    }

    /** Get the block for a half-inserted entry, or undo the insertion. */
    method FinishBlock(
      ghost next: nat, word: nat, e: nat, ghost listed: seq<Entry>, grant: BlockGrant)
      returns (r: Option<nat>)
      requires Parameters() && Window() && |ring| == |bases| && next == Next() && Fits(next) && word == Wrap(next, w)
      requires tail == head + |contents| && headIndex == Wrap(head, w)
      requires HalfInserted(listed, e, word) && Memory(blocks, free, ring, bases, Size(), head, contents)
      modifies this`entries, this`indexTail, this`blocks, this`free, this`ring, this`bases
      ensures Core() && r.Some? == !grant.Refused? && |entries| == old(|entries|)
      ensures r.None? ==> ring == old(ring) && bases == old(bases) && blocks == old(blocks) && free == old(free)
      ensures r.Some? ==>
        && ring == old(ring) + [r.value] && bases == old(bases) + [next]
        && r.value < |blocks| && blocks[r.value].next == None && r.value !in old(ring)
        && |old(blocks)| <= |blocks|
        && (forall id: nat | id < |old(blocks)| && id != r.value :: blocks[id] == old(blocks[id]))
        && PoolSplit(free, [r.value], old(free), |old(blocks)|, |blocks|)
    {
      hide Memory, Wrap, Pow2, WindowOf, IndexOf, HalfInserted, Next, Fits;
      r := Requisition(grant);
      if r == None {
        GiveUpEntry(e, word, listed);
        return None;
      }
      var id := r.value;
      NotOurs(blocks, free, ring, bases, Size(), head, contents, id);
      MemoryAdd(blocks, free, ring, bases, Size(), head, contents, id, next) by { NextInRange(next); }
      IndexGrows(next, word, e, listed, id);
      WindowGrows(next, id);
      blocks := blocks[id := Prepared(blocks[id])];
      free := free - {id};
      entries := entries[e := entries[e].(value := Some(id))];
      ring, bases := ring + [id], bases + [next];
    }

    lemma NextInRange(next: nat)
      requires Parameters() && Window() && |ring| == |bases| && next == Next()
      ensures head <= tail <= next < head + Pow2(w - 1)
    {}

    /** The index after a half-inserted entry has got its value. */
    lemma IndexGrows(next: nat, word: nat, e: nat, listed: seq<Entry>, id: nat)
      requires HalfInserted(listed, e, word) && word == Wrap(next, w) && |ring| == |bases|
      ensures e < |entries|
      ensures IndexOf(TheIndex().(entries := entries[e := entries[e].(value := Some(id))]), ring + [id], bases + [next])
    {
      hide Listed, Wrap, Pow2;
      ListedAdd(listed, index, start, ring, bases, w, next, id);
      assert entries[e := entries[e].(value := Some(id))] == listed[e := Entry(Some(word), Some(id))];
    }

    /** The window after a block with base `next` has been added. */
    lemma WindowGrows(next: nat, id: nat)
      requires Parameters() && Window() && next == Next() && Fits(next)
      ensures |ring| == |bases| && WindowOf(ring + [id], bases + [next], head, tail)
    {
      if ring == [] { SpacedOne(next, Size()); assert bases + [next] == [next]; } else { SpacedSnoc(bases, Size()); }
      hide Pow2, Spaced;
    }

    // -------------------------------------------------------------------------
    // The allocation loop of enqueue_bulk
    // -------------------------------------------------------------------------

    /** How many blocks `count` more elements need. */
    ghost function Needed(count: nat): nat
      reads this`tail
    {
      FloorsApart(tail - 1, tail + count - 1, b);
      (tail + count - 1) / Size() - (tail - 1) / Size()
    }

    /** What the allocator allots to this producer. */
    ghost function Allotted(
      need: nat, i: nat, live: nat, cap: nat, next: nat, canAlloc: bool, grants: nat -> Grant): Allotment
      reads this`head, this`hasIndex
      requires Parameters()
    {
      Allot(Setting(), hasIndex, head, need, i, live, cap, next, canAlloc, grants)
    }

    /** The index capacity after one turn. */
    ghost function TurnCapacity(next: nat, canAlloc: bool, grant: Grant): nat
      reads this`head, this`hasIndex, this`ring, this`index
      requires Parameters()
    {
      if Fits(next) && hasIndex && |ring| >= |index| && canAlloc && grant.index then 2 * |index| else |index|
    }

    /** Blocks from number `n` on were taken in this call and are chained from `first`. */
    ghost predicate Taking(n: nat, first: Option<nat>, startBlock: Option<nat>, free0: set<nat>, blocks0: nat)
      reads this
    {
      && Core() && n <= |ring|
      && Chain(blocks, ring[n..]) && PoolSplit(free, ring[n..], free0, blocks0, |blocks|)
      && (n < |ring| ==> bases[n] >= tail)
      && first == (if n < |ring| then Some(ring[n]) else None)
      && tailBlock == (if n < |ring| then Some(ring[|ring| - 1]) else startBlock)
      && (startBlock.Some? ==> startBlock.value < |blocks|)
      && (!Aligned(tail) ==> n > 0 && startBlock == Some(ring[n - 1]))
      && (!Aligned(tail) && n < |ring| ==> ring[n - 1] < |blocks| && blocks[ring[n - 1]].next == Some(ring[n]))
    }

    /** One turn of the loop: take a block and chain it. */
    method TakeAndLink(
      ghost n: nat, first: Option<nat>, ghost startBlock: Option<nat>, ghost free0: set<nat>, ghost blocks0: nat,
      aligned: bool, word: nat, canAlloc: bool, grant: Grant, junk: Option<nat>)
      returns (ok: bool, first': Option<nat>)
      requires Taking(n, first, startBlock, free0, blocks0) && word == Wrap(Next(), w) && aligned == Aligned(tail)
      modifies this`entries, this`index, this`indexTail, this`nextCapacity, this`start, this`k, this`blocks, this`free,
               this`ring, this`bases, this`tailBlock
      ensures Taking(n, first', startBlock, free0, blocks0) && |index| == old(TurnCapacity(Next(), canAlloc, grant))
      ensures Grown(old(index), old(start), old(|entries|), index, start) && old(|entries|) <= |entries|
      ensures ok == old(
        Fits(Next()) && hasIndex && (|ring| < |index| || (canAlloc && grant.index)) && !grant.block.Refused?)
      ensures !ok ==> ring == old(ring) && bases == old(bases)
      ensures ok ==>
        && |ring| == old(|ring|) + 1 && ring == old(ring) + [ring[|ring| - 1]] && bases == old(bases) + [old(Next())]
    {
      hide Memory, Wrap, Pow2, Chain, PoolSplit, Fits, WindowOf, IndexOf, Core, Taking, Aligned, Grown;
      TakingFacts(n, first, startBlock, free0, blocks0);
      TakingLinks(n, first, startBlock, free0, blocks0);
      NextInRange(Next());
      ghost var ring0, blocks1, free1 := ring, blocks, free;
      var r := TakeBlock(Next(), word, canAlloc, grant, junk);
      assert |ring| == |bases| by { SameLength(); }
      if r == None {
        StillTaking(n, first, startBlock, free0, blocks0);
        return false, first;
      }
      var id := r.value;
      first' := LinkTaken(n, id, first, startBlock, aligned, free0, blocks0, ring0, blocks1, free1);
      return true, first';
    }

    /** Chain the block just taken. */
    method LinkTaken(
      ghost n: nat, id: nat, first: Option<nat>, ghost startBlock: Option<nat>, aligned: bool,
      ghost free0: set<nat>, ghost blocks0: nat, ghost ring0: seq<nat>, ghost blocks1: seq<Block<T>>,
      ghost free1: set<nat>)
      returns (first': Option<nat>)
      requires Core() && n <= |ring0| && ring == ring0 + [id] && id !in ring0 && |ring| == |bases| && bases[n] >= tail
      requires Chain(blocks1, ring0[n..]) && PoolSplit(free1, ring0[n..], free0, blocks0, |blocks1|)
      requires id < |blocks| && blocks[id].next == None && PoolSplit(free, [id], free1, |blocks1|, |blocks|)
      requires |blocks1| <= |blocks| && (forall i: nat | i < |blocks1| && i != id :: blocks[i] == blocks1[i])
      requires first == (if n < |ring0| then Some(ring0[n]) else None)
      requires tailBlock == if n < |ring0| then Some(ring0[|ring0| - 1]) else startBlock
      requires aligned == Aligned(tail) && (startBlock.Some? ==> startBlock.value < |blocks|)
      requires !aligned ==> n > 0 && startBlock == Some(ring0[n - 1])
      requires !aligned && n < |ring0| ==> ring0[n - 1] < |blocks1| && blocks1[ring0[n - 1]].next == Some(ring0[n])
      modifies this`blocks, this`tailBlock
      ensures Taking(n, first', startBlock, free0, blocks0)
    {
      hide Memory, Wrap, Pow2, Chain, PoolSplit, WindowOf, IndexOf, Core, Taking, Aligned;
      Snoc(ring0, n, id);
      PoolTakes(free0, blocks0, free1, |blocks1|, free, |blocks|, ring0[n..], id);
      ChainKept(blocks1, blocks, ring0[n..], id);
      first' := LinkBlock(n, id, first, startBlock, aligned, free0, blocks0);
    }

    /** The slices of a list with one more element. */
    lemma Snoc(ring0: seq<nat>, n: nat, id: nat)
      requires n <= |ring0| && id !in ring0
      ensures var ring1 := ring0 + [id];
        && ring1[n..] == ring0[n..] + [id] && ring1[n..|ring1| - 1] == ring0[n..] && ring1[..|ring1| - 1] == ring0
        && id !in ring0[n..]
    {}

    lemma SameLength()
      requires Core()
      ensures |ring| == |bases|
    {}

    /** Append the block just taken to the chain and make it the tail block. */
    method LinkBlock(ghost n: nat, id: nat, first: Option<nat>, ghost startBlock: Option<nat>, aligned: bool,
                     ghost free0: set<nat>, ghost blocks0: nat)
      returns (first': Option<nat>)
      requires Core() && n < |ring| == |bases| && id == ring[|ring| - 1] && id < |blocks| && blocks[id].next == None
      requires Chain(blocks, ring[n..|ring| - 1]) && bases[n] >= tail
      requires PoolSplit(free, ring[n..], free0, blocks0, |blocks|)
      requires first == (if n + 1 < |ring| then Some(ring[n]) else None)
      requires tailBlock == if n + 1 < |ring| then Some(ring[|ring| - 2]) else startBlock
      requires aligned == Aligned(tail) && (startBlock.Some? ==> startBlock.value < |blocks|)
      requires !aligned ==> n > 0 && startBlock == Some(ring[n - 1])
      requires !aligned && n + 1 < |ring| ==> ring[n - 1] < |blocks| && blocks[ring[n - 1]].next == Some(ring[n])
      modifies this`blocks, this`tailBlock
      ensures Taking(n, first', startBlock, free0, blocks0)
    {
      hide Memory, Wrap, Pow2, Chain, PoolSplit, WindowOf, IndexOf, Aligned;
      LinkLast(blocks, free, ring, bases, Size(), head, contents, n, !aligned);
      if !aligned || first.Some? {
        blocks := blocks[tailBlock.value := blocks[tailBlock.value].(next := Some(id))];
      }
      tailBlock := Some(id);
      first' := if first == None then Some(id) else first;
    }

    // -------------------------------------------------------------------------
    // Roll-back
    // -------------------------------------------------------------------------

    /** `get_block_index_entry_for_index` while the tail stands at block `from`; its asserts hold. */
    method EntryFor(
      word: nat, ghost j: nat, ghost from: nat, ghost to: nat, ghost n: nat, ghost m: nat)
      returns (e: nat)
      requires Parameters() && Window() && hasIndex && 1 <= k <= w + 1 && |index| == Pow2(k - 1)
      requires Unwinding(entries, index, start, ring, bases, w, n, m)
      requires from < |ring| && to < |ring| && !(n <= to < n + m)
      requires indexTail < |index| && indexTail == Around(start, from, |index|)
      requires bases[to] <= j < bases[to] + Size() && word == Wrap(j, w)
      ensures e == index[Around(start, to, |index|)]
    {
      SpanBelowHalf();
      LookupReaches(bases, start, |index|, b, k - 1, w, from, to, j);
      UnwindKey(entries, index, start, ring, bases, w, n, m, from);
      UnwindKey(entries, index, start, ring, bases, w, n, m, to);
      hide Wrap, Pow2, SlotFor, Spaced;
      var tailBase := entries[index[indexTail]].key;
      assert tailBase != None;
      var slot := SlotFor(tailBase.value, indexTail, |index|, word, b, w);
      assert entries[index[slot]].key == Some(Wrap(bases[to], w)) && entries[index[slot]].value != None;
      e := index[slot];
    }

    lemma SpanBelowHalf()
      requires Parameters() && Window() && ring != []
      ensures bases[|bases| - 1] - bases[0] < Pow2(w - 1)
    {}

    /** The loop that clears the entries of the blocks taken and moves the tail back. */
    method ClearEntries(ghost n: nat, first: Option<nat>)
      requires Parameters() && Window() && IndexInv()
      requires tailIndex == Wrap(tail, w) && n <= |ring| == |bases| && Chain(blocks, ring[n..])
      requires first == if n < |ring| then Some(ring[n]) else None
      requires n < |ring| ==> bases[n] == Floor(tail - 1, b) + Size()
      modifies this`entries, this`indexTail
      ensures IndexOf(TheIndex(), ring[..n], bases[..n])
    {
      hide Listed, Unwound, Unwinding, Wrap, Pow2, Chain, Floor, WindowOf, IndexOf;
      var current := FloorOfTail();
      var block := first;
      ghost var m: nat := 0;
      if n < |ring| { StartUnwinding(n); }
      while block != None
        invariant n + m <= |ring|
        invariant block == if n + m < |ring| then Some(ring[n + m]) else None
        invariant n + m < |ring| ==> current == Wrap(bases[n + m] - Size(), w)
        invariant n < |ring| ==> Unwound(n, m)
        invariant n == |ring| ==> entries == old(entries) && indexTail == old(indexTail)
        decreases |ring| - m
      {
        current := ClearOne(n, m, current);
        assert block.value == ring[n..][m];
        ChainAt(blocks, ring[n..], m);
        block := blocks[block.value].next;
        m := m + 1;
      }
      if n < |ring| {
        Rewound(n);
      } else {
        assert ring[..n] == ring && bases[..n] == bases;
      }
    }

    lemma StartUnwinding(n: nat)
      requires IndexInv() && n < |ring|
      ensures hasIndex && nextCapacity == Pow2(k) && 1 <= k <= w + 1 && |index| == Pow2(k - 1) && Unwound(n, 0)
    {
      UnwindStart(entries, index, start, ring, bases, w, n);
    }

    /** The index after everything has been undone. */
    lemma Rewound(n: nat)
      requires hasIndex && nextCapacity == Pow2(k) && 1 <= k <= w + 1 && |index| == Pow2(k - 1)
      requires n <= |ring| == |bases| && Unwound(n, |ring| - n)
      ensures IndexOf(TheIndex(), ring[..n], bases[..n])
    {
      UnwindEnd(entries, index, start, ring, bases, w, n);
      hide Listed;
    }

    ghost predicate Unwound(n: nat, m: nat)
      reads this`entries, this`index, this`indexTail, this`ring, this`bases, this`start
    {
      && Unwinding(entries, index, start, ring, bases, w, n, m) && n + m <= |ring|
      && start < |index| && |ring| <= |index|
      && indexTail < |index| && Inc(indexTail, |index|) == Around(start, |ring| - m, |index|)
    }

    lemma ClearStep(i: nat)
      requires Parameters() && Window() && i < |ring|
      ensures Wrap(Wrap(bases[i] - Size(), w) + Size(), w) == Wrap(bases[i], w)
      ensures i + 1 < |ring| ==> bases[i + 1] - Size() == bases[i]
    {
      WrapSum(bases[i] - Size(), Size(), w);
    }

    /** One turn of the roll-back: clear the entry of the next block and move the tail back. */
    method ClearOne(ghost n: nat, ghost m: nat, current: nat) returns (current': nat)
      requires Parameters() && Window() && hasIndex && 1 <= k <= w + 1 && |index| == Pow2(k - 1)
      requires Unwound(n, m) && n + m < |ring| && current == Wrap(bases[n + m] - Size(), w)
      modifies this`entries, this`indexTail
      ensures Unwound(n, m + 1)
      ensures n + m + 1 < |ring| ==> current' == Wrap(bases[n + m + 1] - Size(), w)
    {
      hide Unwinding, Wrap, Pow2, And, Spaced;
      ClearStep(n + m);
      UnwindStep(entries, index, start, ring, bases, w, n, m);
      current' := Wrap(current + Size(), w);
      var e := EntryFor(current', bases[n + m], |ring| - 1 - m, n + m, n, m);
      entries := entries[e := entries[e].(value := None)];
      RewindTail();
    }

    /** `(startTailIndex - 1) & ~(BLOCK_SIZE - 1)`. */
    method FloorOfTail() returns (r: nat)
      requires Parameters() && tailIndex == Wrap(tail, w)
      ensures r == Wrap(Floor(tail - 1, b), w)
    {
      WrapSum(tail, -1, w);
      FloorWraps(tail - 1, b, w);
      hide Wrap, FloorWord, Floor;
      r := FloorWord(Wrap(tailIndex - 1, w), b);
    }

    /** `add_blocks_to_free_list`: every block of the chain goes back to the pool. */
    method ReturnBlocks(ghost taken: seq<nat>, first: Option<nat>)
      requires Chain(blocks, taken) && first == if taken == [] then None else Some(taken[0])
      modifies this`free
      ensures free == old(free) + (set id | id in taken)
    {
      hide Chain;
      var block := first;
      ghost var m: nat := 0;
      while block != None
        invariant m <= |taken| && block == if m < |taken| then Some(taken[m]) else None
        invariant free == old(free) + (set id | id in taken[..m])
        decreases |taken| - m
      {
        ChainAt(blocks, taken, m);
        var next := blocks[block.value].next;
        free := free + {block.value};
        assert taken[..m + 1] == taken[..m] + [taken[m]];
        block := next;
        m := m + 1;
      }
      assert taken[..m] == taken;
    }

    /** A shorter list of blocks that still covers the contents. */
    lemma Shrinks(n: nat)
      requires Parameters() && Window() && n <= |ring| && (n < |ring| ==> bases[n] >= tail)
      requires n == 0 ==> head == tail && Aligned(tail)
      requires n > 0 ==> tail <= bases[n - 1] + Size()
      ensures WindowOf(ring[..n], bases[..n], head, tail)
      ensures forall i: nat | n <= i < |bases| :: bases[i] >= tail
      ensures n == |ring| ==> ring[..n] == ring && bases[..n] == bases
    {
      forall i: nat | n < i < |bases| ensures bases[i] >= tail { Apart(bases, Size(), n, i); }
      if 0 < n < |bases| { Apart(bases, Size(), n - 1, |bases| - 1); }
    }

    /** Everything taken in this call is given back: blocks, index entries, tail block. */
    method RollBack(
      ghost n: nat, first: Option<nat>, startBlock: Option<nat>, ghost free0: set<nat>, ghost blocks0: nat)
      requires Taking(n, first, startBlock, free0, blocks0) && tailIndex == Wrap(tail, w)
      requires n < |ring| ==> bases[n] == Floor(tail - 1, b) + Size()
      requires n == 0 ==> head == tail && Aligned(tail)
      requires n > 0 ==> tail <= bases[n - 1] + Size()
      modifies this`entries, this`indexTail, this`free, this`tailBlock, this`ring, this`bases
      ensures Core() && ring == old(ring[..n]) && bases == old(bases[..n]) && tailBlock == startBlock
      ensures PoolSplit(free, [], free0, blocks0, |blocks|)
    {
      hide Listed, Memory, Wrap, Pow2, Chain, PoolSplit, Floor, WindowOf, IndexOf, Aligned;
      SameLength();
      Shrinks(n);
      ClearEntries(n, first);
      ReturnBlocks(ring[n..], first);
      MemoryReturn(blocks, old(free), ring, bases, Size(), head, contents, n);
      PoolReturned(old(free), ring[n..], free0, blocks0, |blocks|);
      tailBlock := startBlock;
      ring, bases := ring[..n], bases[..n];
    }

    /** The bases from which the loop counts, in true numbers. */
    lemma Boundaries(count: nat)
      requires Valid()
      ensures Next() - Size() == Floor(tail - 1, b)
      ensures Floor(tail + count - 1, b) - Floor(tail - 1, b) == Range(Needed(count)) < count + Size()
      ensures ring == [] ==> head == tail && Aligned(tail)
      ensures ring != [] ==> tail <= bases[|bases| - 1] + Size()
    {
      hide Listed, Memory, Wrap, WordSub, IndexInv, Floor;
      FloorsApart(tail - 1, tail + count - 1, b);
      if ring == [] {
        AlignedFloor(tail, b);
      } else {
        var base := bases[|bases| - 1];
        Multiple(bases, Size(), |bases| - 1);
        BaseFloor(tail - 1, base, b);
      }
      hide Pow2, Spaced;
    }

    lemma BaseFloor(x: nat, base: nat, b: nat)
      requires base % Pow2(b) == 0 && base <= x < base + Pow2(b)
      ensures Floor(x, b) == base
    {
      DivMod(base, Pow2(b));
      RemainderUnique(x, Pow2(b), base / Pow2(b), x - base);
    }

    lemma WrapWhole(x: nat, w: nat)
      requires x <= Pow2(w)
      ensures Wrap(x, w) == if x < Pow2(w) then x else 0
    {
      RemainderUnique(x, Pow2(w), if x < Pow2(w) then 0 else 1, if x < Pow2(w) then x else 0);
    }

    /** The word `blockBaseDiff`: the range to allocate, but 0 if the batch overruns the index range. */
    method BlockBaseDiff(count: nat) returns (diff: nat)
      requires Valid() && count < Pow2(w)
      ensures diff == if Overruns(b, w, tail, count) then 0 else Range(Needed(count))
    {
      hide Wrap, Floor, FloorWord, Pow2, Window, IndexInv, Memory, Overruns;
      Boundaries(count);
      OverrunsExactly(b, w, tail, count);
      var from := FloorOfTail();
      WrapSum(tail, count - 1, w);
      FloorWraps(tail + count - 1, b, w);
      WrapSub(Floor(tail + count - 1, b), Floor(tail - 1, b), w);
      WrapWhole(Range(Needed(count)), w);
      diff := WordSub(FloorWord(Wrap(tailIndex + count - 1, w), b), from, w);
    }

    /** `(startTailIndex & (BLOCK_SIZE - 1)) == 0`. */
    method AtBoundary() returns (r: bool)
      requires Parameters() && tailIndex == Wrap(tail, w)
      ensures r == Aligned(tail)
    {
      MaskedWrap(tail, b, w);
      r := And(tailIndex, Size() - 1) == 0;
    }

    lemma StartTaking()
      requires Valid()
      ensures Taking(|ring|, None, tailBlock, free, |blocks|)
    {
      Boundaries(0);
      PoolSame(free, |blocks|);
      hide Wrap, WordSub, Pow2, Window, IndexInv;
      assert ring[|ring|..] == [];
    }

    /** The range that `left` blocks cover. */
    ghost function Range(left: nat): int {
      left * Size()
    }

    lemma NoRange()
      ensures Range(0) == 0
    {}

    lemma LoopStep(left: nat, next: nat)
      requires Range(left) > 0
      ensures left >= 1 && Range(left) - Size() == Range(left - 1) >= 0
      ensures Wrap(Wrap(next - Size(), w) + Size(), w) == Wrap(next, w)
    {
      WrapSum(next - Size(), Size(), w);
      MulMono(0, left - 1, Size());
    }

    lemma TakingFacts(n: nat, first: Option<nat>, startBlock: Option<nat>, free0: set<nat>, blocks0: nat)
      requires Taking(n, first, startBlock, free0, blocks0)
      ensures Core() && n <= |ring| == |bases| && PoolSplit(free, ring[n..], free0, blocks0, |blocks|)
      ensures Parameters() && Window()
    {}

    lemma TakingLinks(n: nat, first: Option<nat>, startBlock: Option<nat>, free0: set<nat>, blocks0: nat)
      requires Taking(n, first, startBlock, free0, blocks0)
      ensures |ring| == |bases| && Chain(blocks, ring[n..]) && (n < |ring| ==> bases[n] >= tail)
      ensures first == (if n < |ring| then Some(ring[n]) else None)
      ensures tailBlock == (if n < |ring| then Some(ring[|ring| - 1]) else startBlock)
      ensures startBlock.Some? ==> startBlock.value < |blocks|
      ensures !Aligned(tail) ==> n > 0 && startBlock == Some(ring[n - 1])
      ensures !Aligned(tail) && n < |ring| ==> ring[n - 1] < |blocks| && blocks[ring[n - 1]].next == Some(ring[n])
    {}

    lemma StillTaking(n: nat, first: Option<nat>, startBlock: Option<nat>, free0: set<nat>, blocks0: nat)
      requires Core() && n <= |ring| == |bases| && Chain(blocks, ring[n..]) && (n < |ring| ==> bases[n] >= tail)
      requires PoolSplit(free, ring[n..], free0, blocks0, |blocks|)
      requires first == (if n < |ring| then Some(ring[n]) else None)
      requires tailBlock == (if n < |ring| then Some(ring[|ring| - 1]) else startBlock)
      requires startBlock.Some? ==> startBlock.value < |blocks|
      requires !Aligned(tail) ==> n > 0 && startBlock == Some(ring[n - 1])
      requires !Aligned(tail) && n < |ring| ==> ring[n - 1] < |blocks| && blocks[ring[n - 1]].next == Some(ring[n])
      ensures Taking(n, first, startBlock, free0, blocks0)
    {}

    lemma AllottedStep(left: nat, i: nat, live: nat, cap: nat, next: nat, canAlloc: bool, grants: nat -> Grant)
      requires Parameters() && left >= 1
      ensures var cap' := if Fits(next) && hasIndex && live >= cap && canAlloc && grants(i).index then 2 * cap else cap;
        Allotted(left, i, live, cap, next, canAlloc, grants) ==
        if Fits(next) && hasIndex && (live < cap || (canAlloc && grants(i).index)) && !grants(i).block.Refused?
        then Allotted(left - 1, i + 1, live + 1, cap', next + Size(), canAlloc, grants)
        else Allotment(false, cap')
    {
      hide FitsAt;
    }

    /** The index has at most grown since the loop started. */
    ghost predicate Grew(g: Loop)
      reads this`index, this`start, this`entries
    {
      Grown(g.index0, g.start0, g.entries0, index, start) && g.entries0 <= |entries|
    }

    lemma PoolGrows(free: set<nat>, free0: set<nat>, blocks0: nat, blocks1: nat)
      requires PoolSplit(free, [], free0, blocks0, blocks1)
      ensures blocks0 <= blocks1
    {}

    lemma StartGrew(g: Loop)
      requires g.index0 == index && g.start0 == start && g.entries0 == |entries|
      ensures Grew(g)
    {}

    lemma GrewFacts(g: Loop)
      requires Grew(g)
      ensures Grown(g.index0, g.start0, g.entries0, index, start)
    {}

    /** The state of the loop before turn `i`, with `left` blocks to go up to `end`. */
    ghost predicate Progress(g: Loop, i: nat, left: nat, first: Option<nat>, current: nat, diff: nat)
      reads this
    {
      && Taking(g.n, first, g.startBlock, g.free0, g.blocks0) && |ring| == |bases| == g.n + i
      && ring[..g.n] == g.ring0 && bases[..g.n] == g.bases0
      && (if g.n < |ring| then bases[g.n] else Next()) == g.next0
      && current == Wrap(Next() - Size(), w) && diff == Range(left) && Next() + Range(left) == g.end
    }

    /** One turn: either it stops with nothing changed, or one block less is to go. */
    method Turn(ghost g: Loop, i: nat, ghost left: nat, first: Option<nat>, current: nat, diff: nat,
                aligned: bool, canAlloc: bool, grants: nat -> Grant, junk: Option<nat>)
      returns (ok: bool, first': Option<nat>, current': nat, diff': nat)
      requires Progress(g, i, left, first, current, diff) && diff > 0 && aligned == Aligned(tail) && Grew(g)
      modifies this`entries, this`index, this`indexTail, this`nextCapacity, this`start, this`k, this`blocks, this`free,
               this`ring, this`bases, this`tailBlock
      ensures left >= 1 && |ring| == |bases| && Grew(g)
      ensures ok ==> Progress(g, i + 1, left - 1, first', current', diff')
      ensures !ok ==> Taking(g.n, first', g.startBlock, g.free0, g.blocks0) && ring == old(ring) && bases == old(bases)
      ensures old(Allotted(left, i, |ring|, |index|, Next(), canAlloc, grants)) ==
        if ok then Allotted(left - 1, i + 1, |ring|, |index|, Next(), canAlloc, grants) else Allotment(false, |index|)
    {
      hide Memory, Wrap, Pow2, Chain, PoolSplit, Window, IndexInv, Fits, Taking, Range, Allotted, Aligned, Grown;
      LoopStep(left, Next());
      TakingFacts(g.n, first, g.startBlock, g.free0, g.blocks0);
      AllottedStep(left, i, |ring|, |index|, Next(), canAlloc, grants);
      diff' := diff - Size();
      current' := Wrap(current + Size(), w);
      ok, first' := TakeAndLink(
        g.n, first, g.startBlock, g.free0, g.blocks0, aligned, current', canAlloc, grants(i), junk);
      TakingFacts(g.n, first', g.startBlock, g.free0, g.blocks0);
      GrownTwice(g.index0, g.start0, g.entries0, old(index), old(start), old(|entries|), index, start);
      assert ring[..g.n] == old(ring)[..g.n] && bases[..g.n] == old(bases)[..g.n];
    }

    lemma ProgressFacts(g: Loop, i: nat, left: nat, first: Option<nat>, current: nat, diff: nat)
      requires Progress(g, i, left, first, current, diff)
      ensures Taking(g.n, first, g.startBlock, g.free0, g.blocks0) && |ring| == |bases| == g.n + i
      ensures ring[..g.n] == g.ring0 && bases[..g.n] == g.bases0 && (g.n < |ring| ==> bases[g.n] == g.next0)
      ensures diff == Range(left) && Next() + Range(left) == g.end
    {}

    lemma StartProgress(count: nat, g: Loop, current: nat, diff: nat)
      requires Valid() && current == Wrap(Floor(tail - 1, b), w) && diff == Range(Needed(count))
      requires |ring| == |bases|
      requires g == Loop(|ring|, tailBlock, free, |blocks|, ring, bases, Next(), Next() + Range(Needed(count)),
                        index, start, |entries|)
      ensures Progress(g, 0, Needed(count), None, current, diff)
    {
      Boundaries(count);
      StartTaking();
      hide Taking, Wrap, Range, Floor, Pow2;
      assert ring[..|ring|] == ring && bases[..|bases|] == bases;
    }

    /** The allocation loop: take all the blocks that `count` elements need, or none; and exactly when it succeeds. */
    method TakeBlocks(count: nat, startDiff: nat, canAlloc: bool, grants: nat -> Grant, junk: Option<nat>)
      returns (ok: bool, first: Option<nat>)
      requires Valid() && startDiff == Range(Needed(count))
      modifies this`entries, this`index, this`indexTail, this`nextCapacity, this`start, this`k, this`blocks, this`free,
               this`ring, this`bases, this`tailBlock
      ensures Allotment(ok, |index|) == old(Allotted(Needed(count), 0, |ring|, |index|, Next(), canAlloc, grants))
      ensures Grown(old(index), old(start), old(|entries|), index, start)
      ensures !ok ==>
        && Core() && ring == old(ring) && bases == old(bases) && tailBlock == old(tailBlock)
        && |old(blocks)| <= |blocks| && PoolSplit(free, [], old(free), |old(blocks)|, |blocks|)
      ensures ok ==>
        && Taking(old(|ring|), first, old(tailBlock), old(free), |old(blocks)|)
        && |ring| == |bases| == old(|ring|) + Needed(count)
        && ring[..old(|ring|)] == old(ring) && bases[..old(|ring|)] == old(bases)
        && (old(|ring|) < |ring| ==> bases[old(|ring|)] == old(Next()))
        && Next() == old(Next()) + Range(Needed(count))
    {
      hide *;
      ValidParts();
      Same(index, start, |entries|);
      ghost var g := Loop(|ring|, tailBlock, free, |blocks|, ring, bases, Next(), Next() + Range(Needed(count)),
                        index, start, |entries|);
      var startBlock := tailBlock;
      var diff := startDiff;
      var current := FloorOfTail();
      var aligned := AtBoundary();
      var i: nat := 0;
      ghost var left := Needed(count);
      Boundaries(count);
      StartProgress(count, g, current, diff);
      StartGrew(g);
      first := None;
      while diff > 0
        invariant Progress(g, i, left, first, current, diff) && i + left == Needed(count) && |ring| == |bases|
        invariant Grew(g)
        invariant old(Allotted(Needed(count), 0, |ring|, |index|, Next(), canAlloc, grants))
               == Allotted(left, i, |ring|, |index|, Next(), canAlloc, grants)
        decreases left
      {
        ProgressFacts(g, i, left, first, current, diff);
        var taken;
        taken, first, current, diff := Turn(g, i, left, first, current, diff, aligned, canAlloc, grants, junk);
        if !taken {
          GrewFacts(g);
          RollBack(g.n, first, startBlock, g.free0, g.blocks0);
          PoolGrows(free, g.free0, g.blocks0, |blocks|);
          return false, None;
        }
        i, left := i + 1, left - 1;
      }
      ok := true;
      ProgressFacts(g, i, left, first, current, diff);
      GrewFacts(g);
      NoneLeft(left, i, |ring|, |index|, Next(), canAlloc, grants);
    }

    /**
     Take all the blocks that `count` elements need, or none; and exactly when it succeeds.
     A batch that overruns the index range passes without a single block.
     */
    method AllocateBlocks(count: nat, canAlloc: bool, grants: nat -> Grant, junk: Option<nat>)
      returns (ok: bool, first: Option<nat>)
      requires Valid() && count < Pow2(w)
      modifies this`entries, this`index, this`indexTail, this`nextCapacity, this`start, this`k, this`blocks, this`free,
               this`ring, this`bases, this`tailBlock
      ensures Overruns(b, w, tail, count) ==> ok && first == None && unchanged(this)
      ensures Grown(old(index), old(start), old(|entries|), index, start)
      ensures !Overruns(b, w, tail, count) ==>
        Allotment(ok, |index|) == old(Allotted(Needed(count), 0, |ring|, |index|, Next(), canAlloc, grants))
      ensures !ok ==>
        && Core() && ring == old(ring) && bases == old(bases) && tailBlock == old(tailBlock)
        && |old(blocks)| <= |blocks| && PoolSplit(free, [], old(free), |old(blocks)|, |blocks|)
      ensures ok && !Overruns(b, w, tail, count) ==>
        && Taking(old(|ring|), first, old(tailBlock), old(free), |old(blocks)|)
        && |ring| == |bases| == old(|ring|) + Needed(count)
        && ring[..old(|ring|)] == old(ring) && bases[..old(|ring|)] == old(bases)
        && (old(|ring|) < |ring| ==> bases[old(|ring|)] == old(Next()))
        && Next() == old(Next()) + Range(Needed(count))
    {
      hide Memory, Wrap, Pow2, Window, IndexInv, Floor, Taking, Range, Allotted, Needed, Aligned, Overruns, Grown;
      Same(index, start, |entries|);
      ok, first := true, None;
      var diff := BlockBaseDiff(count);
      if diff > 0 {
        ok, first := TakeBlocks(count, diff, canAlloc, grants, junk);
      } else if !Overruns(b, w, tail, count) {
        NothingToTake(count, canAlloc, grants);
      }
    }

    lemma NothingToTake(count: nat, canAlloc: bool, grants: nat -> Grant)
      requires Valid() && Range(Needed(count)) == 0
      ensures Needed(count) == 0 && |ring| == |bases| && Taking(|ring|, None, tailBlock, free, |blocks|)
      ensures ring[..|ring|] == ring && bases[..|bases|] == bases
      ensures Allotted(Needed(count), 0, |ring|, |index|, Next(), canAlloc, grants) == Allotment(true, |index|)
    {
      hide Needed, Taking, Window, IndexInv, Memory;
      StartTaking();
      SameLength();
      NoneLeft(Needed(count), 0, |ring|, |index|, Next(), canAlloc, grants);
    }

    lemma NoneLeft(left: nat, i: nat, live: nat, cap: nat, next: nat, canAlloc: bool, grants: nat -> Grant)
      requires Parameters() && Range(left) <= 0
      ensures left == 0 && Range(left) == 0
      ensures Allotted(left, i, live, cap, next, canAlloc, grants) == Allotment(true, cap)
    {
      if left >= 1 { MulMono(1, left, Size()); }
    }

    // -------------------------------------------------------------------------
    // Constructing the elements
    // -------------------------------------------------------------------------

    /** The blocks to fill are linked: from block `n` on, and from the block before when that has room. */
    ghost predicate Links(n: nat, aligned: bool)
      reads this`blocks, this`ring
    {
      && n <= |ring| && Chain(blocks, ring[n..])
      && (!aligned ==> n > 0)
      && (!aligned && n < |ring| ==> ring[n - 1] < |blocks| && blocks[ring[n - 1]].next == Some(ring[n]))
    }

    lemma LinkAt(n: nat, aligned: bool, i: nat)
      requires Links(n, aligned) && i + 1 < |ring| && (if aligned then n <= i else n <= i + 1)
      ensures ring[i] < |blocks| && blocks[ring[i]].next == Some(ring[i + 1])
    {
      if n <= i {
        ChainAt(blocks, ring[n..], i - n);
        assert ring[i] == ring[n..][i - n] && ring[i + 1] == ring[n..][i - n + 1];
      }
    }

    /** The first `pos` items are in place, the next one goes into block `i`. */
    ghost predicate Filling(items: seq<T>, pos: nat, i: nat, n: nat, aligned: bool, end: Option<nat>)
      reads this`blocks, this`free, this`ring, this`bases, this`head, this`tail, this`contents, this`tailBlock
      requires Parameters()
    {
      && Window() && tail == head + |contents| && pos <= |items| && Links(n, aligned)
      && Memory(blocks, free, ring, bases, Size(), head, contents + items[..pos])
      && (items == [] ==> tailBlock == end)
      && (items != [] ==>
            && pos < |items| && i < |ring| && tailBlock == Some(ring[i]) && end == Some(ring[|ring| - 1])
            && (if aligned then n <= i else n <= i + 1)
            && bases[i] <= tail + pos < bases[i] + Size()
            && bases[|bases| - 1] < tail + |items| <= bases[|bases| - 1] + Size())
    }

    /** Where the items for the current block end. */
    ghost function StopAt(items: seq<T>, pos: nat): int
      reads this`tail
      requires Parameters()
    {
      var top := Floor(tail + pos, b) + Size();
      if tail + |items| < top then tail + |items| else top
    }

    /** The batch overruns the index range and starts within the tail block. */
    ghost predicate Overrunning(items: seq<T>)
      reads this`blocks, this`tailBlock, this`tail
    {
      Parameters() && Overruns(b, w, tail, |items|) && |items| < Pow2(w) && !Aligned(tail) && TailBlockOk()
    }

    /** `stopIndex`. */
    method StopIndex(ghost items: seq<T>, ghost pos: nat, ghost i: nat, current: nat, newTail: nat, ghost n: nat,
                     ghost aligned: bool, ghost end: Option<nat>, ghost overrun: bool)
      returns (stop: nat)
      requires Parameters() && current == Wrap(tail + pos, w) && newTail == Wrap(tail + |items|, w)
      requires if overrun then Overrunning(items) && pos == 0 else Filling(items, pos, i, n, aligned, end)
      ensures overrun ==> stop == newTail
      ensures !overrun ==>
        && stop == Wrap(StopAt(items, pos), w)
        && tail + pos <= StopAt(items, pos) < tail + pos + Pow2(w)
        && (items != [] ==> StopAt(items, pos) <= bases[i] + Size())
        && (items != [] && i + 1 < |ring| ==> StopAt(items, pos) == bases[i] + Size() == bases[i + 1] < tail + |items|)
        && (items == [] || i + 1 == |ring| ==> StopAt(items, pos) == tail + |items|)
    {
      hide Memory, Links, Wrap, Spaced, FloorWord, Floor, Pow2, Window, CircularLess, Overrunning;
      if overrun {
        OverrunStops(items);
      } else {
        StopWords(items, pos, i, n, aligned, end);
        if items != [] { StopInBlock(items, pos, i); }
      }
      stop := Wrap(FloorWord(current, b) + Size(), w);
      if CircularLess(newTail, stop, w) { stop := newTail; }
    }

    /** An overrunning batch seems to end in its first block, just before where it begins. */
    lemma OverrunStops(items: seq<T>)
      requires Overrunning(items)
      ensures CircularLess(Wrap(tail + |items|, w), Wrap(FloorWord(Wrap(tail, w), b) + Size(), w), w)
    {
      var v: int := tail + |items| - Pow2(w);
      OverrunEnds(|items|);
      Pow2Grows(b, w - 1);
      hide FloorWord, Floor, CircularLess, Wrap, Pow2, Overruns, Aligned;
      FloorWraps(tail, b, w);
      WrapSum(Floor(tail, b), Size(), w);
      RangeLess(tail + |items|, w);
      CircularLessAgrees(v, Floor(tail, b) + Size(), w);
    }

    lemma OverrunEnds(count: nat)
      requires Parameters() && Overruns(b, w, tail, count) && count < Pow2(w) && !Aligned(tail)
      ensures Floor(tail, b) < tail + count - Pow2(w) < tail <= Floor(tail, b) + Size()
    {
      InnerFloor(tail, Size());
      FloorNear(tail, b);
    }

    lemma InnerFloor(t: nat, size: nat)
      requires size >= 1 && t % size != 0
      ensures t >= 1 && t - (t - 1) % size == size * (t / size) + 1
    {
      DivMod(t, size);
      RemainderUnique(t - 1, size, t / size, t % size - 1);
    }

    lemma RangeLess(x: int, w: nat)
      ensures Wrap(x - Pow2(w), w) == Wrap(x, w)
    {
      var m := Pow2(w);
      assert x - m == m * (x / m - 1) + x % m by { assert m * (x / m - 1) == m * (x / m) - m; }
      RemainderUnique(x - m, m, x / m - 1, x % m);
    }

    lemma OverrunIsLong(items: seq<T>)
      requires Parameters() && Overruns(b, w, tail, |items|)
      ensures |items| > Size()
    {
      Pow2Grows(b, w);
      hide Pow2;
    }

    /** The comparison of words that picks the stop index. */
    lemma StopWords(items: seq<T>, pos: nat, i: nat, n: nat, aligned: bool, end: Option<nat>)
      requires Parameters() && Filling(items, pos, i, n, aligned, end)
      ensures Wrap(FloorWord(Wrap(tail + pos, w), b) + Size(), w) == Wrap(Floor(tail + pos, b) + Size(), w)
      ensures CircularLess(Wrap(tail + |items|, w), Wrap(Floor(tail + pos, b) + Size(), w), w)
         <==> tail + |items| < Floor(tail + pos, b) + Size()
      ensures tail + pos < Floor(tail + pos, b) + Size() <= tail + pos + Size() < tail + pos + Pow2(w)
    {
      hide Memory, Links, Wrap, Spaced, FloorWord, Floor, CircularLess;
      FloorWraps(tail + pos, b, w);
      FloorNear(tail + pos, b);
      WrapSum(Floor(tail + pos, b), Size(), w);
      Pow2Grows(b, w - 1);
      if items != [] { StopInBlock(items, pos, i); }
      CircularLessAgrees(tail + |items|, Floor(tail + pos, b) + Size(), w);
    }

    lemma StopInBlock(items: seq<T>, pos: nat, i: nat)
      requires Parameters() && Window() && i < |ring| && bases[i] <= tail + pos < bases[i] + Size()
      ensures |ring| == |bases| && Floor(tail + pos, b) == bases[i] && bases[i] <= bases[|bases| - 1]
      ensures bases[|bases| - 1] - bases[i] < Pow2(w - 1)
      ensures i + 1 < |ring| ==> bases[i] + Size() == bases[i + 1] <= bases[|bases| - 1]
    {
      Multiple(bases, Size(), i);
      DivMod(bases[i], Size());
      RemainderUnique(tail + pos, Size(), bases[i] / Size(), tail + pos - bases[i]);
      InOrder(bases, Size(), i);
      if i + 1 < |ring| { InOrder(bases, Size(), i + 1); }
    }

    /** The tail block is there, whatever is in it. */
    ghost predicate TailBlockOk()
      reads this`blocks, this`tailBlock
    {
      tailBlock.Some? && tailBlock.value < |blocks| && |blocks[tailBlock.value].elements| == Size()
    }

    /** The slot of the true index `x` in the tail block holds an object. */
    ghost predicate LiveAt(x: nat)
      reads this`blocks, this`tailBlock
      requires TailBlockOk() && Size() >= 1
    {
      blocks[tailBlock.value].elements[x % Size()].Some?
    }

    lemma ConstructReady(items: seq<T>, pos: nat, i: nat, n: nat, aligned: bool)
      requires Parameters() && Window() && tail == head + |contents| && Links(n, aligned)
      requires pos < |items| && Memory(blocks, free, ring, bases, Size(), head, contents + items[..pos])
      requires i < |ring| && tailBlock == Some(ring[i]) && bases[i] <= tail + pos < bases[i] + Size()
      ensures TailBlockOk() && !LiveAt(tail + pos)
      ensures var t, o := tailBlock.value, (tail + pos) % Size();
        var blocks' := blocks[t := blocks[t].(elements := blocks[t].elements[o := Some(items[pos])])];
        && Chain(blocks', ring[n..])
        && (!aligned && n < |ring| ==> ring[n - 1] < |blocks'| && blocks'[ring[n - 1]].next == Some(ring[n]))
        && Memory(blocks', free, ring, bases, Size(), head, contents + items[..pos + 1])
    {
      Multiple(bases, Size(), i);
      BlockBase(tail + pos, bases[i], b, w);
      MaskedWrap(tail + pos, b, w);
      hide Wrap, And, Chain, Spaced;
      var o := (tail + pos) % Size();
      assert |contents + items[..pos]| == |contents| + pos;
      MemoryPut(blocks, free, ring, bases, Size(), head, contents + items[..pos], items[pos], i, o);
      assert contents + items[..pos + 1] == contents + items[..pos] + [items[pos]];
      MemoryFacts(blocks, free, ring, bases, Size(), head, contents + items[..pos], i);
      hide Memory;
      var t := tailBlock.value;
      ChainElements(blocks, ring[n..], t, blocks[t].elements[o := Some(items[pos])]);
    }

    /**
     Construct an item in the slot of the word `current`; it is a fault to do so over a live
     object. In a batch that overruns the index range nothing is known of the slot.
     */
    method Construct(
      items: seq<T>, pos: nat, ghost i: nat, current: nat, ghost n: nat, ghost aligned: bool, ghost overrun: bool)
      returns (fault: bool)
      requires Parameters() && pos < |items| && current == Wrap(tail + pos, w)
      requires !overrun ==>
        && Window() && tail == head + |contents| && Links(n, aligned)
        && Memory(blocks, free, ring, bases, Size(), head, contents + items[..pos])
        && i < |ring| && tailBlock == Some(ring[i]) && bases[i] <= tail + pos < bases[i] + Size()
      requires overrun ==> TailBlockOk()
      modifies this`blocks
      ensures |blocks| == old(|blocks|)
      ensures !overrun ==>
        && !fault && Links(n, aligned)
        && Memory(blocks, free, ring, bases, Size(), head, contents + items[..pos + 1])
      ensures overrun ==>
        && TailBlockOk() && fault == old(LiveAt(tail + pos))
        && (!fault ==> forall x: nat :: LiveAt(x) <==> old(LiveAt(x)) || x % Size() == (tail + pos) % Size())
    {
      hide Memory, Wrap, And, Chain, Spaced, Window, Pow2;
      MaskedWrap(tail + pos, b, w);
      if !overrun { ConstructReady(items, pos, i, n, aligned); }
      var t, o := tailBlock.value, And(current, Size() - 1);
      if blocks[t].elements[o].Some? { return true; }
      blocks := blocks[t := blocks[t].(elements := blocks[t].elements[o := Some(items[pos])])];
      return false;
    }

    /** The inner loop: construct items up to the stop index. */
    method FillBlock(
      items: seq<T>, pos0: nat, ghost i: nat, current0: nat, stop: nat, ghost n: nat, ghost aligned: bool,
      ghost stopAt: nat, ghost overrun: bool)
      returns (pos: nat, current: nat, fault: bool)
      requires Parameters() && pos0 <= |items| && current0 == Wrap(tail + pos0, w) && stop == Wrap(stopAt, w)
      requires tail + pos0 <= stopAt <= tail + |items| && stopAt < tail + pos0 + Pow2(w)
      requires !overrun ==>
        && Window() && tail == head + |contents| && Links(n, aligned)
        && Memory(blocks, free, ring, bases, Size(), head, contents + items[..pos0])
        && (tail + pos0 < stopAt ==>
              i < |ring| && tailBlock == Some(ring[i]) && bases[i] <= tail + pos0 && stopAt <= bases[i] + Size())
      requires overrun ==> TailBlockOk() && tail + pos0 + Size() < stopAt
      modifies this`blocks
      ensures fault == overrun && |blocks| == old(|blocks|)
      ensures !fault ==>
        && Links(n, aligned) && pos == stopAt - tail && current == Wrap(stopAt, w)
        && Memory(blocks, free, ring, bases, Size(), head, contents + items[..pos])
    {
      hide Memory, Links, Wrap, Spaced, Pow2, Window, LiveAt, TailBlockOk;
      pos, current, fault := pos0, current0, false;
      while current != stop
        invariant pos0 <= pos && tail + pos <= stopAt && current == Wrap(tail + pos, w)
        invariant |blocks| == old(|blocks|)
        invariant !overrun ==>
          Links(n, aligned) && Memory(blocks, free, ring, bases, Size(), head, contents + items[..pos])
        invariant overrun ==>
          TailBlockOk() && pos <= pos0 + Size() && (pos0 < pos ==> LiveAt(tail + pos0))
        decreases stopAt - pos
      {
        if overrun { OnceRound(tail + pos0); }
        fault := Construct(items, pos, i, current, n, aligned, overrun);
        if fault { return; }
        WrapSum(tail + pos, 1, w);
        current := Wrap(current + 1, w);
        pos := pos + 1;
      }
      if tail + pos < stopAt { WordsDiffer(tail + pos, stopAt, w); }
    }

    /** A block further on it is the same slot again. */
    lemma OnceRound(x: nat)
      requires TailBlockOk() && Size() >= 1
      ensures LiveAt(x + Size()) <==> LiveAt(x)
    {
      DivMod(x, Size());
      assert Size() * (x / Size() + 1) == Size() * (x / Size()) + Size();
      RemainderUnique(x + Size(), Size(), x / Size() + 1, x % Size());
    }

    /** Construct all items, one block at a time. */
    method Fill(
      items: seq<T>, first: Option<nat>, startBlock: Option<nat>, end: Option<nat>, aligned: bool, ghost n: nat,
      ghost overrun: bool)
      returns (fault: bool)
      requires Parameters() && tailIndex == Wrap(tail, w) && aligned == Aligned(tail)
      requires overrun ==> tailBlock == startBlock && Overrunning(items)
      requires !overrun ==>
        && Core() && Links(n, aligned)
        && first == (if n < |ring| then Some(ring[n]) else None)
        && end == (if n < |ring| then Some(ring[|ring| - 1]) else startBlock)
        && (!aligned ==> 0 < n <= |ring| && startBlock == Some(ring[n - 1]))
        && (items == [] ==> n == |ring|)
        && (items != [] ==>
              && ring != [] && bases[|bases| - 1] < tail + |items| <= bases[|bases| - 1] + Size()
              && (aligned ==> n < |ring| && bases[n] == tail)
              && (!aligned ==> bases[n - 1] <= tail < bases[n - 1] + Size()))
      modifies this`blocks, this`tailBlock
      ensures fault == overrun && |blocks| == old(|blocks|)
      ensures !fault ==> tailBlock == end && Memory(blocks, free, ring, bases, Size(), head, contents + items)
    {
      hide Memory, Links, Wrap, Spaced, Pow2, IndexInv, Aligned, Overruns, TailBlockOk;
      var newTail, current := Wrap(tailIndex + |items|, w), tailIndex;
      WrapSum(tail, |items|, w);
      tailBlock := startBlock;
      if aligned && first.Some? { tailBlock := first; }
      var pos: nat := 0;
      var done := false;
      ghost var i: nat := if aligned then n else if n > 0 then n - 1 else 0;
      assert contents + items[..0] == contents;
      assert !overrun ==> Filling(items, pos, i, n, aligned, end);
      assert overrun ==> Overrunning(items);
      hide Filling, Core, Overrunning;
      while !done
        invariant |blocks| == old(|blocks|)
        invariant overrun ==> !done && pos == 0 && current == Wrap(tail, w) && Overrunning(items)
        invariant !overrun && !done ==> Filling(items, pos, i, n, aligned, end) && current == Wrap(tail + pos, w)
        invariant !overrun && done ==>
          tailBlock == end && Memory(blocks, free, ring, bases, Size(), head, contents + items)
        decreases !done, |ring| - i
      {
        pos, current, done, fault := FillTurn(items, pos, i, current, newTail, n, aligned, end, overrun);
        if fault { return; }
        i := i + 1;
      }
      fault := false;
    }

    /** One turn: fill the current block and go on to the next, or stop after the last. */
    method FillTurn(
      items: seq<T>, pos: nat, ghost i: nat, current: nat, newTail: nat, ghost n: nat, ghost aligned: bool,
      end: Option<nat>, ghost overrun: bool)
      returns (pos': nat, current': nat, done: bool, fault: bool)
      requires Parameters() && pos <= |items|
      requires if overrun then Overrunning(items) && pos == 0 else Filling(items, pos, i, n, aligned, end)
      requires current == Wrap(tail + pos, w) && newTail == Wrap(tail + |items|, w)
      modifies this`blocks, this`tailBlock
      ensures fault == overrun && |blocks| == old(|blocks|)
      ensures !fault && !done ==>
        i + 1 < |ring| && Filling(items, pos', i + 1, n, aligned, end) && current' == Wrap(tail + pos', w)
      ensures !fault && done ==>
        tailBlock == end && Memory(blocks, free, ring, bases, Size(), head, contents + items)
    {
      hide Memory, Links, Wrap, Spaced, Pow2, Window, StopAt, Overruns, TailBlockOk;
      if overrun { OverrunIsLong(items); } else if items != [] { StopInBlock(items, pos, i); }
      ghost var stopAt := if overrun then tail + |items| else StopAt(items, pos);
      var stop := StopIndex(items, pos, i, current, newTail, n, aligned, end, overrun);
      done := false;
      pos', current', fault := FillBlock(items, pos, i, current, stop, n, aligned, stopAt, overrun);
      if fault { return; }
      if items != [] { OnlyLast(i, contents + items[..pos']); }
      assert items[..|items|] == items;
      done := tailBlock == end;
      if done {
        assert current' == newTail;
      } else {
        LinkAt(n, aligned, i);
        tailBlock := blocks[tailBlock.value].next;
      }
    }

    /** A block other than the last one is a different block. */
    lemma OnlyLast(i: nat, c: seq<T>)
      requires Memory(blocks, free, ring, bases, Size(), head, c) && i < |ring|
      ensures ring[i] == ring[|ring| - 1] <==> i == |ring| - 1
    {}

    /** The entry at the tail of the index. */
    function TailEntry(): Option<Entry>
      reads this`index, this`indexTail, this`entries
    {
      if indexTail < |index| && index[indexTail] < |entries| then Some(entries[index[indexTail]]) else None
    }

    /** The entry that the index tail points to, by identity. */
    function TailPointsTo(): Option<nat>
      reads this`index, this`indexTail
    {
      if indexTail < |index| then Some(index[indexTail]) else None
    }

    /** After a roll-back the index tail points where it did, unless the index has grown and lists no block. */
    lemma TailStands(i0: Index)
      requires IndexOf(i0, ring, bases) && IndexInv() && i0.present == hasIndex
      requires Grown(i0.slots, i0.start, |i0.entries|, index, start)
      ensures hasIndex ==>
        && i0.tail < |i0.slots|
        && (TailPointsTo() == Some(i0.slots[i0.tail]) <==> ring != [] || |index| == |i0.slots|)
    {
      hide Wrap, Pow2, Grown;
      if hasIndex {
        TailPointer(i0.slots, i0.start, i0.tail, |i0.entries|, index, start, indexTail, |ring|);
      }
    }

    /** The index tail stands at the entry of the last block. */
    lemma TailListed()
      requires Core() && ring != []
      ensures |ring| == |bases| && TailEntry() == Some(Entry(Some(Wrap(bases[|bases| - 1], w)), Some(ring[|ring| - 1])))
    {
      hide Memory, Wrap, Pow2, Listed, Spaced;
      ListedEntry(entries, index, start, ring, bases, w, |ring| - 1);
    }

    /** The last block is the one of the last item. */
    lemma LastPlacement(count: nat)
      requires Parameters() && Window() && |ring| == |bases| && Next() - Size() == Floor(tail + count - 1, b)
      ensures WindowOf(ring, bases, head, tail + count)
      ensures count > 0 ==> ring != [] && bases[|bases| - 1] < tail + count <= bases[|bases| - 1] + Size()
    {
      hide Floor, Pow2, Spaced;
      FloorNear(tail + count - 1, b);
    }

    /** At a boundary the first item goes to the first new block. */
    lemma AlignedPlacement(count: nat, n: nat, next0: nat)
      requires Parameters() && |ring| == |bases| && n <= |ring| && count > 0 && Aligned(tail)
      requires next0 - Size() == Floor(tail - 1, b) && Next() - Size() == Floor(tail + count - 1, b)
      requires n < |ring| ==> bases[n] == next0
      requires n == |ring| ==> Next() == next0
      ensures n < |ring| && bases[n] == tail
    {
      FloorNear(tail + count - 1, b);
      AlignedFloor(tail, b);
      hide Floor, Pow2;
    }

    /** Inside a block the first item goes to the old tail block. */
    lemma InnerPlacement(n: nat)
      requires Parameters() && Window() && 0 < n <= |ring| == |bases| && !Aligned(tail)
      requires bases[n - 1] < tail <= bases[n - 1] + Size()
      ensures tail < bases[n - 1] + Size()
    {
      Multiple(bases, Size(), n - 1);
      NextMultiple(bases[n - 1], Size());
    }

    lemma NoneNeeded()
      ensures Needed(0) == 0
    {}

    lemma AlignedFloor(t: nat, b: nat)
      requires t % Pow2(b) == 0
      ensures Floor(t - 1, b) == t - Pow2(b)
    {
      var size := Pow2(b);
      DivMod(t, size);
      assert size * (t / size - 1) == size * (t / size) - size;
      RemainderUnique(t - 1, size, t / size - 1, size - 1);
    }

    /**
     `enqueue_bulk`: with an allocator that may fail at any point, either all the items are
     appended in order, or nothing has changed: the same contents, the same blocks under the
     same keys, the index tail at the same entry, and every block taken back in the pool. A
     batch that overruns the index range, and no other, is a fault: an assert fails or an
     item is constructed over a live one.
     */
    method EnqueueBulk(items: seq<T>, canAlloc: bool, grants: nat -> Grant, junk: Option<nat>)
      returns (ok: bool, fault: bool)
      requires Valid() && |items| < Pow2(w)
      modifies this
      ensures fault == old(Overruns(b, w, tail, |items|))
      ensures !fault ==>
        && Valid() && head == old(head) && hasIndex == old(hasIndex)
        && Allotment(ok, |index|) == old(Allotted(Needed(|items|), 0, |ring|, |index|, Next(), canAlloc, grants))
      ensures !fault && ok ==>
        && contents == old(contents) + items && old(ring) <= ring
        && PoolSplit(free, ring[old(|ring|)..], old(free), |old(blocks)|, |blocks|)
      ensures !fault && !ok ==>
        && contents == old(contents) && ring == old(ring) && bases == old(bases) && tailBlock == old(tailBlock)
        && (ring != [] ==> TailEntry() == old(TailEntry()))
        && PoolSplit(free, [], old(free), |old(blocks)|, |blocks|)
      ensures !fault && !ok && hasIndex ==>
        (TailPointsTo() == old(TailPointsTo()) <==> ring != [] || |index| == old(|index|))
    {
      hide *;
      ValidParts();
      ghost var i0 := TheIndex();
      ghost var n, next0, overrun := |ring|, Next(), Overruns(b, w, tail, |items|);
      var startBlock := tailBlock;
      Boundaries(|items|);
      NoRange();
      if ring != [] { TailListed(); }
      var first;
      ok, first := AllocateBlocks(|items|, canAlloc, grants, junk);
      if !ok {
        if ring != [] { TailListed(); }
        ValidAgain();
        TailStands(i0);
        return false, false;
      }
      if !overrun {
        assert ring[..n] <= ring;
        TakingFacts(n, first, startBlock, old(free), |old(blocks)|);
      }
      fault := Commit(items, first, startBlock, n, next0, old(free), |old(blocks)|, overrun);
    }

    lemma SizeIs()
      ensures Size() == Pow2(b)
    {}

    lemma ValidParts()
      requires Valid()
      ensures Core() && Parameters() && w >= 1 && IndexInv() && IndexOf(TheIndex(), ring, bases) && |ring| == |bases|
      ensures tailIndex == Wrap(tail, w) && WordSub(dequeueOptimisticCount, dequeueOvercommit, w) == headIndex
      ensures ring != [] ==> bases[|bases| - 1] < tail && tailBlock == Some(ring[|ring| - 1])
      ensures tailBlock.Some? ==> tailBlock.value < |blocks|
      ensures TheIndex() == Index(hasIndex, entries, index, indexTail, nextCapacity, start, k)
      ensures hasIndex ==> indexTail < |index| && TailPointsTo() == Some(index[indexTail])
    {
      hide Memory, Spaced, Wrap, Listed, Pow2;
    }

    lemma ValidAgain()
      requires Core() && |ring| == |bases|
      requires tailIndex == Wrap(tail, w) && WordSub(dequeueOptimisticCount, dequeueOvercommit, w) == headIndex
      requires ring != [] ==> bases[|bases| - 1] < tail && tailBlock == Some(ring[|ring| - 1])
      requires tailBlock.Some? ==> tailBlock.value < |blocks|
      ensures Valid() && IndexInv()
    {
      hide Memory, WindowOf, Wrap, IndexOf;
    }

    /** Fill the blocks and publish the new tail. */
    method Commit(items: seq<T>, first: Option<nat>, startBlock: Option<nat>, ghost n: nat, ghost next0: nat,
                  ghost free0: set<nat>, ghost blocks0: nat, ghost overrun: bool)
      returns (fault: bool)
      requires Parameters() && tailIndex == Wrap(tail, w)
      requires overrun ==> Valid() && Overruns(b, w, tail, |items|) && |items| < Pow2(w)
      requires overrun ==> first == None && startBlock == tailBlock
      requires !overrun ==>
        && Taking(n, first, startBlock, free0, blocks0)
        && WordSub(dequeueOptimisticCount, dequeueOvercommit, w) == headIndex
        && |ring| == |bases| == n + Needed(|items|)
        && (n < |ring| ==> bases[n] == next0)
        && (n == |ring| ==> Next() == next0)
        && next0 - Size() == Floor(tail - 1, b) && Next() - Size() == Floor(tail + |items| - 1, b)
        && (n > 0 ==> bases[n - 1] < tail <= bases[n - 1] + Size() && startBlock == Some(ring[n - 1]))
      modifies this`blocks, this`tailBlock, this`tailIndex, this`tail, this`contents
      ensures fault == overrun
      ensures !fault ==> Valid() && contents == old(contents) + items && |blocks| == old(|blocks|)
    {
      hide Memory, Wrap, Pow2, WindowOf, IndexOf, WordSub, Floor, Needed, Taking, Links, Aligned, Overruns;
      if overrun { OverrunIsLong(items); } else { ReadyToFill(n, first, startBlock, free0, blocks0); }
      NoneNeeded();
      var aligned := AtBoundary();
      if overrun {
        if !aligned { WithinTailBlock(); }
      } else {
        Placement(items, n, next0, aligned);
      }
      if aligned && first.None? && items != [] { return true; }
      fault := Fill(items, first, startBlock, tailBlock, aligned, n, overrun);
      if !fault { Publish(items); }
    }

    /** Where the first and the last item go. */
    lemma Placement(items: seq<T>, n: nat, next0: nat, aligned: bool)
      requires Parameters() && Window() && n <= |ring| == |bases| && aligned == Aligned(tail)
      requires n < |ring| ==> bases[n] == next0
      requires n == |ring| ==> Next() == next0
      requires next0 - Size() == Floor(tail - 1, b) && Next() - Size() == Floor(tail + |items| - 1, b)
      requires n > 0 ==> bases[n - 1] < tail <= bases[n - 1] + Size()
      requires !aligned ==> n > 0
      ensures WindowOf(ring, bases, head, tail + |items|)
      ensures items != [] ==> ring != [] && bases[|bases| - 1] < tail + |items| <= bases[|bases| - 1] + Size()
      ensures items != [] && aligned ==> n < |ring| && bases[n] == tail
      ensures !aligned ==> bases[n - 1] <= tail < bases[n - 1] + Size()
    {
      hide Pow2, WindowOf, Floor, Aligned;
      LastPlacement(|items|);
      if !aligned {
        InnerPlacement(n);
      } else if items != [] {
        AlignedPlacement(|items|, n, next0);
      }
    }

    /** Inside a block the tail block is there. */
    lemma WithinTailBlock()
      requires Valid() && !Aligned(tail)
      ensures TailBlockOk()
    {
      MemoryFacts(blocks, free, ring, bases, Size(), head, contents, |ring| - 1);
      hide Memory, Wrap, IndexOf, WordSub;
    }

    /** Store the new tail index. */
    method Publish(items: seq<T>)
      requires Parameters() && IndexInv() && headIndex == Wrap(head, w) && tail == head + |contents|
      requires WindowOf(ring, bases, head, tail + |items|) && tailIndex == Wrap(tail, w)
      requires Memory(blocks, free, ring, bases, Size(), head, contents + items)
      requires WordSub(dequeueOptimisticCount, dequeueOvercommit, w) == headIndex
      requires |ring| == |bases|
      requires ring != [] ==> bases[|bases| - 1] < tail + |items| && tailBlock == Some(ring[|ring| - 1])
      requires tailBlock.Some? ==> tailBlock.value < |blocks|
      modifies this`tailIndex, this`tail, this`contents
      ensures Valid() && contents == old(contents) + items
    {
      hide Memory, Wrap, WindowOf, IndexOf, WordSub;
      WrapSum(tail, |items|, w);
      tailIndex := Wrap(tailIndex + |items|, w);
      tail, contents := tail + |items|, contents + items;
    }

    /** What the filling loop needs to know. */
    lemma ReadyToFill(n: nat, first: Option<nat>, startBlock: Option<nat>, free0: set<nat>, blocks0: nat)
      requires Taking(n, first, startBlock, free0, blocks0)
      ensures Core() && Links(n, Aligned(tail))
      ensures first == (if n < |ring| then Some(ring[n]) else None)
      ensures tailBlock == (if n < |ring| then Some(ring[|ring| - 1]) else startBlock)
      ensures tailBlock.Some? ==> tailBlock.value < |blocks|
      ensures !Aligned(tail) ==> 0 < n <= |ring| && startBlock == Some(ring[n - 1])
    {
      hide Wrap, Pow2, WindowOf, IndexOf, Aligned, Chain, Memory, PoolSplit;
      if ring != [] { RingAt(blocks, free, ring, bases, Size(), head, contents, |ring| - 1); }
    }

    // -------------------------------------------------------------------------
    // Construction and dequeue
    // -------------------------------------------------------------------------

    /** `capacity` is the initial index size; `ok` whether its allocation succeeds. `free` is the pool so far. */
    constructor (b: nat, w: nat, limit: Option<nat>, ghost k: nat, capacity: nat, ok: bool, junk: Option<nat>,
                 blocks: seq<Block<T>>, free: set<nat>)
      requires 1 <= b && b + 1 < w && capacity == Pow2(k) && k <= w
      requires forall id: nat | id in free :: id < |blocks| && Clean(blocks[id], Pow2(b))
      ensures Valid() && contents == [] && ring == [] && head == 0 && hasIndex == ok
      ensures this.b == b && this.w == w && this.limit == limit && this.blocks == blocks && this.free == free
      ensures |index| == if ok then capacity else 0
    {
      this.b, this.w, this.limit, this.blocks, this.free := b, w, limit, blocks, free;
      this.tailIndex, this.headIndex, this.dequeueOptimisticCount, this.dequeueOvercommit := 0, 0, 0, 0;
      this.tailBlock := None;
      this.hasIndex := ok;
      this.entries := if ok then seq(capacity, _ => Entry(None, junk)) else [];
      this.index := if ok then seq(capacity, i requires 0 <= i => i) else [];
      this.indexTail := if ok then capacity - 1 else 0;
      this.nextCapacity := if ok then 2 * capacity else capacity;
      this.ring, this.bases, this.start, this.k := [], [], 0, if ok then k + 1 else k;
      this.head, this.tail, this.contents := 0, 0, [];
      new;
      WrapSmall(0, w);
      RemainderUnique(0, Pow2(b), 0, 0);
      hide Wrap, Pow2;
    }

    /** `set_empty` and, when the block is drained, its return to the pool and out of the index. */
    method ReleaseSlot(e: nat, id: nat, o: nat)
      requires Parameters() && Window() && IndexInv() && ring != [] && contents != []
      requires tail == head + |contents| && headIndex == Wrap(head + 1, w)
      requires Memory(blocks, free, ring, bases, Size(), head, contents)
      requires id == ring[0] && o == head - bases[0] && start < |index| && e == index[start]
      requires bases[|bases| - 1] < tail
      modifies this`blocks, this`entries, this`free, this`ring, this`bases, this`start, this`head, this`contents
      ensures Core() && head == old(head) + 1 && contents == old(contents)[1..]
      ensures ring == [] || (ring != [] && bases[|bases| - 1] < tail && ring[|ring| - 1] == old(ring[|ring| - 1]))
      ensures |blocks| == old(|blocks|)
    {
      hide Listed, Memory, Wrap, Pow2, Spaced, IndexInv;
      FrontTaken();
      blocks := blocks[id := Taken(blocks[id], o)];
      head, contents := head + 1, contents[1..];
      if blocks[id].dequeued == Size() { ReturnFirst(e, id); } else { StillInWindow(); }
    }

    /** The parts of the invariant after the front element has been taken out of its block. */
    lemma FrontTaken()
      requires Parameters() && Window() && ring != [] && contents != []
      requires Memory(blocks, free, ring, bases, Size(), head, contents)
      ensures |ring| == |bases| && ring[0] < |blocks| && bases[0] <= head < bases[0] + Size()
      ensures var block, o := blocks[ring[0]], head - bases[0];
        && o < |block.elements| && block.elements[o] == Some(contents[0]) && block.dequeued == o
        && Memory(blocks[ring[0] := Taken(block, o)], free, ring, bases, Size(), head + 1, contents[1..])
    {
      MemoryTake(blocks, free, ring, bases, Size(), head, contents);
    }

    /** The window with `head` advanced, before the first block is dropped if it is drained. */
    ghost predicate Advanced()
      reads this`ring, this`bases, this`head, this`tail
      requires Parameters()
    {
      && |ring| == |bases| && ring != [] && Spaced(bases, Size()) && head <= tail
      && bases[0] < head <= bases[0] + Size() && bases[|bases| - 1] < tail <= bases[|bases| - 1] + Size()
      && bases[|bases| - 1] + Size() - head < Pow2(w - 1)
      && (limit.Some? ==> bases[|bases| - 1] + Size() - head <= limit.value)
    }

    lemma StillInWindow()
      requires Parameters() && Advanced() && head < bases[0] + Size()
      ensures Window()
    {}

    /** Window and index without the first block. */
    lemma WithoutFirst(e: nat)
      requires Parameters() && Advanced() && IndexInv() && head == bases[0] + Size()
      requires start < |index| && e == index[start]
      ensures WindowOf(ring[1..], bases[1..], head, tail) && e < |entries|
      ensures var entries' := entries[e := entries[e].(value := None)];
        IndexOf(TheIndex().(entries := entries', start := Inc(start, |index|)), ring[1..], bases[1..])
    {
      ListedDropFirst(entries, index, start, ring, bases, w);
      SpacedDrop(bases, Size());
      hide Listed, Spaced, Pow2;
    }

    /** The first block is drained: out of the index and back to the pool. */
    method ReturnFirst(e: nat, id: nat)
      requires Parameters() && Advanced() && IndexInv() && head == bases[0] + Size()
      requires tail == head + |contents| && headIndex == Wrap(head, w)
      requires Memory(blocks, free, ring, bases, Size(), head, contents)
      requires start < |index| && e == index[start] && id == ring[0]
      modifies this`entries, this`free, this`ring, this`bases, this`start
      ensures Core() && ring == old(ring)[1..] && bases == old(bases)[1..]
    {
      hide Memory, Wrap, Pow2, WindowOf, IndexOf;
      WithoutFirst(e);
      MemoryReturnFirst(blocks, free, ring, bases, Size(), head, contents);
      entries := entries[e := entries[e].(value := None)];
      free := free + {id};
      start, ring, bases := Inc(start, |index|), ring[1..], bases[1..];
    }

    /** The words say "something to dequeue" exactly when the queue is not empty. */
    lemma EmptinessTest()
      requires Valid()
      ensures CircularLess(headIndex, tailIndex, w) <==> contents != []
      ensures contents != [] ==> ring != []
    {
      hide Listed, Memory, IndexInv;
      CircularLessAgrees(head, tail, w);
      hide Wrap;
    }

    /** The element at the head: its block, found through the index, and its offset. */
    method FindHead(index0: nat) returns (e: nat, id: nat, o: nat)
      requires Core() && ring != [] && index0 == Wrap(head, w)
      ensures id == ring[0] && o == head - bases[0] && index != [] && start < |index| && e == index[start] < |entries|
    {
      UnwindStart(entries, index, start, ring, bases, w, |ring|);
      ListedEntry(entries, index, start, ring, bases, w, 0);
      Multiple(bases, Size(), 0);
      BlockBase(head, bases[0], b, w);
      hide Listed, Unwinding, Memory, Wrap, Pow2, Spaced, And;
      e := EntryFor(index0, head, |ring| - 1, 0, |ring|, 0);
      id := entries[e].value.value;
      o := And(index0, Size() - 1);
    }

    /** `dequeue`: hands out the front element, or reports "nothing" exactly when the queue is empty. */
    method Dequeue() returns (r: Option<T>)
      requires Valid()
      modifies this
      ensures Valid() && r.Some? == (old(contents) != [])
      ensures r.Some? ==> r.value == old(contents)[0] && contents == old(contents)[1..] && head == old(head) + 1
      ensures r.None? ==> contents == old(contents) && head == old(head)
      ensures index == old(index) && hasIndex == old(hasIndex)
    {
      hide *;
      ValidParts();
      EmptinessTest();
      var overcommit := dequeueOvercommit;
      if !CircularLess(WordSub(dequeueOptimisticCount, overcommit, w), tailIndex, w) { return None; }
      var mine := dequeueOptimisticCount;
      dequeueOptimisticCount := Wrap(dequeueOptimisticCount + 1, w);
      // Nothing ran in between, so the second test agrees with the first.
      assert CircularLess(WordSub(mine, overcommit, w), tailIndex, w);
      ReservationClosed(mine, overcommit, w);
      r := TakeFront();
      SameLength();
      ValidAgain();
    }

    /** `headIndex++`, then move the element out of its block and release its slot. */
    method TakeFront() returns (r: Option<T>)
      requires Core() && contents != [] && ring != [] && bases[|bases| - 1] < tail
      modifies this`headIndex, this`blocks, this`entries, this`free, this`ring, this`bases, this`start, this`head,
               this`contents
      ensures Core() && r == Some(old(contents)[0]) && contents == old(contents)[1..]
      ensures head == old(head) + 1 && headIndex == Wrap(old(headIndex) + 1, w) && |blocks| == old(|blocks|)
      ensures ring != [] ==> bases[|bases| - 1] < tail && ring[|ring| - 1] == old(ring[|ring| - 1])
    {
      hide Listed, Memory, Wrap, Pow2, Spaced, And, Window, IndexInv;
      var index0 := headIndex;
      var e, id, o := FindHead(index0);
      FrontTaken();
      r := blocks[id].elements[o];
      WrapSum(head, 1, w);
      headIndex := Wrap(headIndex + 1, w);
      ReleaseSlot(e, id, o);
    }

    /** This producer as a plain queue. */
    ghost function AsPlain(): Plain<T>
      reads this
    {
      Plain(hasIndex, |index|, head, contents)
    }

    lemma Known()
      requires Valid()
      ensures Setting() == Traits(b, w, limit) && AsPlain() == Plain(hasIndex, |index|, head, contents)
      ensures tail == head + |contents|
    {
      hide Memory, WindowOf, IndexOf, Wrap, WordSub;
    }

    /** The number of blocks follows from the counters. */
    lemma BlocksLive()
      requires Valid()
      ensures |ring| == Live(Setting(), head, tail)
    {
      hide Listed, Memory, Wrap, WordSub, IndexOf;
      var size := Size();
      if ring == [] {
        DivMod(tail, size);
        RemainderUnique(tail + size - 1, size, tail / size, size - 1);
      } else {
        var first, last, n := bases[0], bases[|bases| - 1], |bases|;
        Span(bases, size, 0, n - 1);
        DivMod(first, size);
        RemainderUnique(head, size, first / size, head - first);
        BlockNumber(last, first, n, size);
        RemainderUnique(tail + size - 1, size, first / size + n, tail - 1 - last);
      }
    }

    lemma BlockNumber(last: nat, first: nat, n: nat, size: nat)
      requires size >= 1 && n >= 1 && first % size == 0 && last == first + (n - 1) * size
      ensures last + size == size * (first / size + n)
    {
      DivMod(first, size);
      assert (n - 1) * size == size * n - size;
      assert size * (first / size + n) == size * (first / size) + size * n;
    }

    /** What a batch meets, in plain terms. */
    lemma PutInPlainTerms(count: nat)
      requires Valid()
      ensures |ring| == |bases| == Live(Setting(), head, tail) && Next() == NextBase(Setting(), tail)
      ensures Needed(count) == NeededBlocks(Setting(), tail, count)
      ensures Range(Needed(count)) == NeededBlocks(Setting(), tail, count) * Size()
    {
      SameLength();
      BlocksLive();
      Boundaries(count);
    }

    /** One operation of a run. */
    method Answer(op: Op<T>) returns (answer: Answer<T>, fault: bool)
      requires Valid() && (op.Put? ==> |op.items| < Pow2(w))
      modifies this
      ensures fault == (op.Put? && Overruns(b, w, old(tail), |op.items|))
      ensures !fault ==> Valid() && Expect(Setting(), old(AsPlain()), op) == Expected(answer, AsPlain())
    {
      hide Memory, Wrap, WordSub, WindowOf, IndexOf, Pow2, Allot, Overruns;
      hide Needed, TailEntry, PoolSplit, Live, NextBase, NeededBlocks, Range, Floor;
      match op
      case Put(items, canAlloc, grants, junk) =>
        PutInPlainTerms(|items|);
        var ok;
        ok, fault := EnqueueBulk(items, canAlloc, grants, junk);
        answer := Accepted(ok);
      case Get =>
        var r := Dequeue();
        answer, fault := Received(r), false;
    }
  }

  // ---------------------------------------------------------------------------
  // Runs
  // ---------------------------------------------------------------------------

  datatype Op<!T> = Put(items: seq<T>, canAlloc: bool, grants: nat -> Grant, junk: Option<nat>) | Get

  datatype Answer<T> = Accepted(ok: bool) | Received(r: Option<T>)

  /** A plain queue, with what its answers depend on: is there an index, how big, and where is the head. */
  datatype Plain<T> = Plain(present: bool, cap: nat, head: nat, queue: seq<T>)

  /** The answer to an operation and what it makes of the plain queue. */
  datatype Expected<T> = Expected(answer: Answer<T>, plain: Plain<T>)

  /** How many blocks the indices from `head` to `tail` touch. */
  ghost function Live(t: Traits, head: nat, tail: nat): int {
    (tail + Pow2(t.b) - 1) / Pow2(t.b) - head / Pow2(t.b)
  }

  /** The base of the first block after the one before `tail`. */
  ghost function NextBase(t: Traits, tail: nat): int {
    Floor(tail - 1, t.b) + Pow2(t.b)
  }

  /** How many block boundaries `count` more elements cross. */
  ghost function NeededBlocks(t: Traits, tail: nat, count: nat): int {
    (tail + count - 1) / Pow2(t.b) - (tail - 1) / Pow2(t.b)
  }

  ghost function Expect<T>(t: Traits, p: Plain<T>, op: Op<T>): Expected<T>
    requires t.w >= 1
  {
    match op
    case Put(items, canAlloc, grants, _) =>
      var tail := p.head + |p.queue|;
      var need, live, next := NeededBlocks(t, tail, |items|), Live(t, p.head, tail), NextBase(t, tail);
      if need < 0 || live < 0 || next < 0 then Expected(Accepted(false), p)
      else
        var a := Allot(t, p.present, p.head, need, 0, live, p.cap, next, canAlloc, grants);
        Expected(Accepted(a.ok), p.(cap := a.cap, queue := if a.ok then p.queue + items else p.queue))
    case Get =>
      if p.queue == [] then Expected(Received(None), p)
      else Expected(Received(Some(p.queue[0])), p.(head := p.head + 1, queue := p.queue[1..]))
  }

  /** The plain queue after a whole run. */
  ghost function Outcome<T>(t: Traits, p: Plain<T>, ops: seq<Op<T>>): Plain<T>
    requires t.w >= 1
  {
    if ops == [] then p
    else Expect(t, Outcome(t, p, ops[..|ops| - 1]), ops[|ops| - 1]).plain
  }

  /** The answers of a whole run. */
  ghost function Answers<T>(t: Traits, p: Plain<T>, ops: seq<Op<T>>): seq<Answer<T>>
    requires t.w >= 1
  {
    if ops == [] then []
    else
      var n := |ops| - 1;
      Answers(t, p, ops[..n]) + [Expect(t, Outcome(t, p, ops[..n]), ops[n]).answer]
  }

  /** The next operation is a batch that overruns the index range. */
  ghost predicate Overrun<T>(t: Traits, p: Plain<T>, op: Op<T>) {
    op.Put? && Overruns(t.b, t.w, p.head + |p.queue|, |op.items|)
  }

  /** No batch of the run overruns the index range when its turn comes. */
  ghost predicate NoOverrun<T>(t: Traits, p: Plain<T>, ops: seq<Op<T>>)
    requires t.w >= 1
  {
    forall i: nat | i < |ops| :: !Overrun(t, Outcome(t, p, ops[..i]), ops[i])
  }

  /**
   Every run of whole calls, with any behaviour of the allocator, gives exactly the answers
   of a plain queue: a batch is appended whole or refused, and refused only if it does not
   fit the index range or the limit, or an allocation that it needs fails or is not allowed.
   The run ends in a fault exactly if one of its batches overruns the index range.
   */
  method Replay<T>(ops: seq<Op<T>>, t: Traits, ghost k: nat, capacity: nat, ok: bool, junk: Option<nat>)
    returns (answers: seq<Answer<T>>, fault: bool)
    requires 1 <= t.b && t.b + 1 < t.w && capacity == Pow2(k) && k <= t.w
    requires forall i: nat | i < |ops| && ops[i].Put? :: |ops[i].items| < Pow2(t.w)
    ensures fault <==> !NoOverrun(t, Plain(ok, if ok then capacity else 0, 0, []), ops)
    ensures |answers| <= |ops| && (!fault ==> |answers| == |ops|)
    ensures answers == Answers(t, Plain(ok, if ok then capacity else 0, 0, []), ops[..|answers|])
  {
    hide *;
    ghost var p0 := Plain(ok, if ok then capacity else 0, 0, []);
    var p := new Producer<T>(t.b, t.w, t.limit, k, capacity, ok, junk, [], {});
    answers, fault := [], false;
    p.Known();
    NothingDone(t, p0, ops);
    for i := 0 to |ops|
      invariant p.Valid() && p.Setting() == t && fresh(p) && |answers| == i && !fault
      invariant p.AsPlain() == Outcome(t, p0, ops[..i]) && answers == Answers(t, p0, ops[..i])
      invariant NoOverrun(t, p0, ops[..i])
    {
      p.Known();
      OneMore(t, p0, ops, i);
      NextOverrun(t, p0, ops, i);
      var answer;
      answer, fault := p.Answer(ops[i]);
      if fault { return; }
      answers := answers + [answer];
    }
    assert ops[..|ops|] == ops;
  }

  lemma OneMore<T>(t: Traits, p: Plain<T>, ops: seq<Op<T>>, i: nat)
    requires t.w >= 1 && i < |ops|
    ensures var e := Expect(t, Outcome(t, p, ops[..i]), ops[i]);
      && Outcome(t, p, ops[..i + 1]) == e.plain
      && Answers(t, p, ops[..i + 1]) == Answers(t, p, ops[..i]) + [e.answer]
  {
    assert ops[..i + 1][..i] == ops[..i];
    hide Expect;
  }

  lemma NextOverrun<T>(t: Traits, p: Plain<T>, ops: seq<Op<T>>, i: nat)
    requires t.w >= 1 && i < |ops|
    ensures var before := Outcome(t, p, ops[..i]);
      var over := ops[i].Put? && Overruns(t.b, t.w, before.head + |before.queue|, |ops[i].items|);
      && (over ==> !NoOverrun(t, p, ops))
      && (NoOverrun(t, p, ops[..i]) && !over ==> NoOverrun(t, p, ops[..i + 1]))
  {
    hide Outcome, Overruns;
    assert Overrun(t, Outcome(t, p, ops[..i]), ops[i]) ==> !NoOverrun(t, p, ops);
    if NoOverrun(t, p, ops[..i]) && !Overrun(t, Outcome(t, p, ops[..i]), ops[i]) {
      var more := ops[..i + 1];
      forall j: nat | j < |more| ensures !Overrun(t, Outcome(t, p, more[..j]), more[j]) {
        assert more[..j] == ops[..j];
        if j < i { assert ops[..i][..j] == ops[..j] && ops[..i][j] == ops[j]; }
      }
    }
  }

  lemma NothingDone<T>(t: Traits, p: Plain<T>, ops: seq<Op<T>>)
    requires t.w >= 1
    ensures Outcome(t, p, ops[..0]) == p && Answers(t, p, ops[..0]) == [] && NoOverrun(t, p, ops[..0])
  {}

  /** At the start of a block the largest batch overruns. */
  lemma LargestOverruns(b: nat, w: nat)
    requires 1 <= b
    ensures Overruns(b, w, 0, Pow2(w) - 1)
  {
    RemainderUnique(0 - 1, Pow2(b), 0 - 1, Pow2(b) - 1);
  }

  /** Such a run exists for every block size and index width: the largest batch, as the first operation. */
  method FirstBatchOverruns<T>(t: Traits, ghost k: nat, capacity: nat, ok: bool, items: seq<T>, canAlloc: bool,
                               grants: nat -> Grant, junk: Option<nat>)
    returns (p: Producer<T>, fault: bool)
    requires 1 <= t.b && t.b + 1 < t.w && capacity == Pow2(k) && k <= t.w && |items| == Pow2(t.w) - 1
    ensures fault
  {
    hide *;
    LargestOverruns(t.b, t.w);
    p := new Producer<T>(t.b, t.w, t.limit, k, capacity, ok, junk, [], {});
    p.Known();
    var accepted;
    accepted, fault := p.EnqueueBulk(items, canAlloc, grants, junk);
  }

  /** One block more than the first is not to be had. */
  function FirstOnly(i: nat): Grant {
    Grant(true, if i == 0 then Fresh else Refused)
  }

  lemma SecondRefused<T>(p: Producer<T>)
    requires p.Valid() && p.head == 0 && p.contents == [] && p.ring == [] && p.hasIndex && |p.index| == 1
    requires p.limit == None && p.b + 2 < p.w
    ensures !Overruns(p.b, p.w, p.tail, p.Size() + 1) && p.Size() + 1 < Pow2(p.w)
    ensures p.Allotted(p.Needed(p.Size() + 1), 0, |p.ring|, |p.index|, p.Next(), true, FirstOnly) == Allotment(false, 2)
  {
    var size := p.Size();
    p.Known();
    RemainderUnique(0 - 1, size, 0 - 1, size - 1);
    RemainderUnique(size, size, 1, 0);
    assert p.Needed(size + 1) == 2;
    Pow2Grows(p.b + 1, p.w - 1);
    Pow2Grows(p.w - 1, p.w);
    assert Pow2(p.b + 1) == 2 * size;
    hide Pow2;
    assert FitsAt(p.Setting(), 0, 0) && FitsAt(p.Setting(), 0, size);
    assert Allot(p.Setting(), true, 0, 1, 1, 1, 1, size, true, FirstOnly) == Allotment(false, 2);
  }

  /** A batch of two blocks, for which the index grows and the second block is refused. */
  method RefuseSecond<T>(p: Producer<T>, items: seq<T>, junk: Option<nat>) returns (ok: bool)
    requires p.Valid() && p.head == 0 && p.contents == [] && p.ring == [] && p.hasIndex && |p.index| == 1
    requires p.limit == None && p.b + 2 < p.w && |items| == p.Size() + 1
    modifies p
    ensures !ok && p.Valid() && p.hasIndex && p.TailPointsTo() != old(p.TailPointsTo())
  {
    hide *;
    SecondRefused(p);
    var fault;
    ok, fault := p.EnqueueBulk(items, true, FirstOnly, junk);
    assert !fault && Allotment(ok, |p.index|) == Allotment(false, 2);
  }

  /**
   The index tail of an empty producer is not always put back: the index grows for the second
   block of a batch, the block is refused, and the tail ends at an entry that is new.
   */
  method RollBackMovesTail<T>(t: Traits, items: seq<T>, junk: Option<nat>)
    returns (ok: bool, before: Option<nat>, after: Option<nat>)
    requires 1 <= t.b && t.b + 2 < t.w && t.limit == None && |items| == Pow2(t.b) + 1
    ensures !ok && before.Some? && after.Some? && before != after
  {
    assert Pow2(0) == 1;
    hide *;
    var p := new Producer<T>(t.b, t.w, t.limit, 0, 1, true, junk, [], {});
    p.ValidParts();
    p.SizeIs();
    before := p.TailPointsTo();
    ok := RefuseSecond(p, items, junk);
    p.ValidParts();
    after := p.TailPointsTo();
  }

  /** A generous allocator: everything is granted and allocation is allowed. */
  ghost predicate Generous(canAlloc: bool, grants: nat -> Grant) {
    canAlloc && forall i: nat :: grants(i).index && !grants(i).block.Refused?
  }

  /** With a generous allocator and an index, a batch is allotted its blocks if the last of them fits. */
  lemma {:induction false} GenerousAllots(
    t: Traits, head: nat, need: nat, i: nat, live: nat, cap: nat, next: nat, last: int,
    canAlloc: bool, grants: nat -> Grant)
    requires t.w >= 1 && Generous(canAlloc, grants) && head <= next && last == next + (need - 1) * Pow2(t.b)
    requires need > 0 ==> last >= 0 && FitsAt(t, head, last)
    ensures Allot(t, true, head, need, i, live, cap, next, canAlloc, grants).ok
    decreases need
  {
    if need > 0 {
      var size := Pow2(t.b);
      MulMono(0, need - 1, size);
      assert FitsAt(t, head, next);
      assert (need - 1) * size == size + (need - 2) * size;
      hide Pow2;
      GenerousAllots(t, head, need - 1, i + 1, live + 1, if live < cap then cap else 2 * cap, next + size, last,
                     canAlloc, grants);
    }
  }

  /** An index that started with `cap` slots and doubles when it is full is full with `n` blocks. */
  ghost predicate FullWith(n: nat, cap: nat) {
    exists m: nat :: n == cap * Pow2(m)
  }

  /** The allocator does its part for block number `n` of the producer. */
  ghost predicate Supplies(n: nat, cap: nat, canAlloc: bool, grant: Grant) {
    !grant.block.Refused? && (FullWith(n, cap) ==> canAlloc && grant.index)
  }

  /**
   Exactly when a batch is allotted its blocks: there is an index, the last block still fits
   under half the index range and the limit, every block is granted, and where a block finds
   the index full, it may and can be doubled. Nothing else matters; in particular a batch that
   needs no block is always accepted.
   */
  lemma {:induction false} AllotExactly(
    t: Traits, present: bool, head: nat, need: nat, i: nat, live: nat, cap: nat, next: nat,
    canAlloc: bool, grants: nat -> Grant)
    requires t.w >= 1 && head <= next && 1 <= cap && live <= cap
    ensures Allot(t, present, head, need, i, live, cap, next, canAlloc, grants).ok <==>
      need == 0 ||
      (present && FitsAt(t, head, LastBase(t, next, need)) &&
       forall j: nat | i <= j < i + need :: Supplies(live + (j - i), cap, canAlloc, grants(j)))
    decreases need
  {
    if need > 0 {
      hide Pow2;
      FitsBefore(t, head, next, need);
      FullNow(live, cap);
      var cap' := if live < cap then cap else 2 * cap;
      AllotExactly(t, present, head, need - 1, i + 1, live + 1, cap', next + Pow2(t.b), canAlloc, grants);
      forall j: nat | i + 1 <= j < i + need
        ensures Supplies(live + 1 + (j - (i + 1)), cap', canAlloc, grants(j))
           <==> Supplies(live + (j - i), cap, canAlloc, grants(j))
      {
        if live == cap { FullLater(live + (j - i), cap); }
      }
      hide FullWith, FitsAt;
      if forall j: nat | i <= j < i + need :: Supplies(live + (j - i), cap, canAlloc, grants(j)) {
        assert Supplies(live + (i - i), cap, canAlloc, grants(i));
      }
    }
  }

  /** The base of the last of `need` blocks from `next` on. */
  function LastBase(t: Traits, next: nat, need: nat): (r: nat)
    ensures r >= next
    decreases need
  {
    if need <= 1 then next else LastBase(t, next + Pow2(t.b), need - 1)
  }

  lemma FitsBefore(t: Traits, head: nat, next: nat, need: nat)
    requires t.w >= 1 && head <= next && need > 0
    ensures FitsAt(t, head, LastBase(t, next, need)) ==> FitsAt(t, head, next)
  {
    hide Pow2;
  }

  lemma FullNow(live: nat, cap: nat)
    requires 1 <= cap && live <= cap
    ensures FullWith(live, cap) <==> live == cap
  {
    if live == cap { assert live == cap * Pow2(0); }
    if FullWith(live, cap) {
      var m: nat :| live == cap * Pow2(m);
      MulMono(1, Pow2(m), cap);
    }
  }

  lemma FullLater(n: nat, cap: nat)
    requires 1 <= cap < n
    ensures FullWith(n, cap) <==> FullWith(n, 2 * cap)
  {
    assert cap * Pow2(0) == cap;
    if FullWith(n, cap) {
      var m: nat :| n == cap * Pow2(m);
      if m > 0 { DoubleUp(cap, m - 1); }
    }
    if FullWith(n, 2 * cap) {
      var m: nat :| n == 2 * cap * Pow2(m);
      DoubleUp(cap, m);
    }
  }

  lemma DoubleUp(cap: nat, m: nat)
    ensures 2 * cap * Pow2(m) == cap * Pow2(m + 1)
  {
    var p := Pow2(m);
    assert Pow2(m + 1) == 2 * p;
    assert 2 * cap * p == cap * (2 * p);
  }

  /** No batch is refused for nothing: with a generous allocator, an index and room for it and one more block. */
  lemma RoomAccepts<T>(t: Traits, p: Plain<T>, items: seq<T>, canAlloc: bool, grants: nat -> Grant, junk: Option<nat>)
    requires t.w >= 1 && p.present && Generous(canAlloc, grants)
    requires |p.queue| + |items| + Pow2(t.b) <= Pow2(t.w - 1)
    requires t.limit.Some? ==> |p.queue| + |items| + Pow2(t.b) <= t.limit.value
    ensures Expect(t, p, Put(items, canAlloc, grants, junk)).answer == Accepted(true)
  {
    hide Pow2, Floor, Live, NextBase, NeededBlocks, Allot;
    var tail := p.head + |p.queue|;
    var need, next := NeededBlocks(t, tail, |items|), NextBase(t, tail);
    var last := BatchGeometry(t, p.head, tail, |items|);
    GenerousAllots(t, p.head, need, 0, Live(t, p.head, tail), p.cap, next, last, canAlloc, grants);
  }

  /** Where the blocks of a batch lie: `last` is the base of the last one. */
  lemma BatchGeometry(t: Traits, head: nat, tail: nat, count: nat) returns (last: int)
    requires head <= tail
    ensures var need, next := NeededBlocks(t, tail, count), NextBase(t, tail);
      && need >= 0 && Live(t, head, tail) >= 0 && next >= tail
      && last == next + (need - 1) * Pow2(t.b) && last <= tail + count - 1
      && (need > 0 ==> last >= next)
  {
    var size := Pow2(t.b);
    var need := NeededBlocks(t, tail, count);
    FloorsApart(tail - 1, tail + count - 1, t.b);
    FloorsApart(head, tail + size - 1, t.b);
    FloorNear(tail - 1, t.b);
    FloorNear(tail + count - 1, t.b);
    last := Floor(tail + count - 1, t.b);
    hide Floor, Pow2;
    assert (need - 1) * size == need * size - size;
    if need > 0 { MulMono(0, need - 1, size); }
  }
}
