/**
 The explicit producer of the multi-producer queue, with whole calls: `enqueue`, `dequeue`
 and `new_block_index`. Whether an allocation succeeds is a parameter of the call.
 */
module ExplicitProducer {
  import opened Options
  import opened Bits
  import opened BlockIndex
  import opened ExplicitIndex

  class Producer<T> {
    const b: nat                 // log2(BLOCK_SIZE)
    const w: nat                 // bits of index_t and size_t
    const limit: Option<nat>     // MAX_SUBQUEUE_SIZE, if there is one

    var tailIndex: nat
    var headIndex: nat
    var dequeueOptimisticCount: nat
    var dequeueOvercommit: nat
    var blocks: seq<Block<T>>
    var tailBlock: Option<nat>

    var hasIndex: bool           // pr_blockIndexRaw != nullptr
    var slotsUsed: nat           // pr_blockIndexSlotsUsed
    var indexSize: nat           // pr_blockIndexSize
    var indexFront: nat          // pr_blockIndexFront: the next slot
    var entries: array<Entry>    // pr_blockIndexEntries
    var exposed: int             // blockIndex->front: the current slot, -1 if there is none

    ghost var ring: seq<nat>     // blocks from tailBlock->next to tailBlock
    ghost var bases: seq<nat>    // their true bases
    ghost var start: nat         // index slot of the first of them
    ghost var k: nat             // log2(indexSize)
    ghost var head: nat          // true counters
    ghost var tail: nat
    ghost var contents: seq<T>   // the elements enqueued and not dequeued

    function Size(): nat { Pow2(b) }

    ghost predicate Parameters() {
      && w >= 1 && b <= w - 1
      && (limit.Some? ==> limit.value % Size() == 0)
    }

    ghost predicate Counters()
      reads this`tailIndex, this`headIndex, this`tail, this`head, this`contents
    {
      && tailIndex == Wrap(tail, w) && headIndex == Wrap(head, w)
      && tail == head + |contents|
    }

    /** The blocks cover the elements, and all of them together at most half the index range. */
    ghost predicate Cover()
      reads this`ring, this`bases, this`head, this`tail
      requires Parameters()
    {
      && |ring| == |bases| && Spaced(bases, Size())
      && (ring == [] ==> tail == 0)
      && (ring != [] ==>
            && bases[0] <= head && bases[|bases| - 1] <= tail <= bases[|bases| - 1] + Size()
            && bases[|bases| - 1] + Size() - bases[0] <= Pow2(w - 1)
            && (limit.Some? ==> bases[|bases| - 1] + Size() - bases[0] <= limit.value))
    }

    ghost predicate IndexInv()
      reads this`slotsUsed, this`indexSize, this`hasIndex, this`indexFront, this`exposed, this`entries,
            this`ring, this`bases, this`start, this`k, entries
    {
      && slotsUsed == |ring| && indexSize == Pow2(k) && k <= w
      && (!hasIndex ==> ring == [] && k < w)
      && (hasIndex ==>
            && k >= 1 && entries.Length == indexSize && |ring| <= indexSize && start < indexSize
            && Indexed(entries[..], start, ring, bases, w)
            && indexFront == Around(start, |ring|, indexSize)
            && exposed == (if ring == [] then -1 else Around(start, |ring| - 1, indexSize)))
    }

    ghost predicate Core()
      reads this, entries
    {
      && Parameters() && Counters() && Cover() && IndexInv()
      && tailBlock == LastOf(ring) && Linked(blocks, ring)
      && AllHold(blocks, ring, bases, Size(), head, contents)
    }

    /** Between calls the tail block holds the place before the tail and no reservation is open. */
    ghost predicate Valid()
      reads this, entries
    {
      && Core() && (ring != [] ==> bases[|bases| - 1] < tail)
      && WordSub(dequeueOptimisticCount, dequeueOvercommit, w) == headIndex
    }

    /** `pool` is the index size suggested by the initial block pool, `ok` whether the allocation succeeds. */
    constructor (b: nat, w: nat, limit: Option<nat>, ghost k: nat, indexSize: nat, ok: bool)
      requires w >= 1 && b <= w - 1 && (limit.Some? ==> limit.value % Pow2(b) == 0)
      requires indexSize == Pow2(k) && k < w
      ensures Valid() && fresh(entries) && contents == [] && head == 0 && ring == []
      ensures this.b == b && this.w == w && this.limit == limit
      ensures hasIndex == ok && this.k == (if ok then k + 1 else k)
      ensures this.indexSize == if ok then 2 * indexSize else indexSize
    {
      hide Pow2, Core, Valid;
      this.b, this.w, this.limit := b, w, limit;
      this.tailIndex, this.headIndex, this.dequeueOptimisticCount, this.dequeueOvercommit := 0, 0, 0, 0;
      this.blocks, this.tailBlock := [], None;
      this.hasIndex, this.slotsUsed, this.indexSize, this.indexFront := false, 0, indexSize, 0;
      this.entries, this.exposed := new Entry[0], -1;
      this.ring, this.bases, this.start, this.k := [], [], 0, k;
      this.head, this.tail, this.contents := 0, 0, [];
      new;
      NothingYet();
      var _ := NewBlockIndex(ok);
      Settled();
    }

    lemma NothingYet()
      requires Parameters() && tailIndex == headIndex == tail == head == 0 && contents == []
      requires blocks == [] && tailBlock == None && ring == [] && bases == []
      requires slotsUsed == 0 && indexSize == Pow2(k) && k < w && !hasIndex
      ensures Core()
    {
      WrapSmall(0, w);
      hide Wrap, Pow2;
    }

    lemma Settled()
      requires Core() && ring == [] && dequeueOptimisticCount == dequeueOvercommit == headIndex == 0
      ensures Valid()
    {
      WrapSmall(0, w);
      hide Wrap, Pow2, Linked, AllHold, IndexInv, Cover;
    }

    /** A bigger index with the same entries, from slot 0 on; a failed allocation changes nothing. */
    method NewBlockIndex(ok: bool) returns (r: bool)
      requires Core() && (!hasIndex || slotsUsed == indexSize) && k < w
      modifies this`hasIndex, this`indexSize, this`indexFront, this`entries, this`exposed, this`start, this`k
      ensures Core() && r == ok
      ensures !ok ==> entries == old(entries) && hasIndex == old(hasIndex) && k == old(k) && indexSize == old(indexSize)
      ensures ok ==> fresh(entries) && hasIndex && slotsUsed < indexSize == 2 * old(indexSize) && k == old(k) + 1
    {
      hide Linked, AllHold, Spaced, Indexed, Wrap, WordSub, Counters, Cover, IndexInv, Pow2;
      if !ok { return false; }
      RingAndBases();
      IndexFacts();
      var newEntries := new Entry[2 * indexSize];
      var j := CopyEntries(newEntries);
      InstallIndex(newEntries, j);
      return true;
    }

    /** Switch to the new index, whose slots from 0 on are filled. */
    method InstallIndex(newEntries: array<Entry>, j: nat)
      requires newEntries.Length == 2 * indexSize && indexSize == Pow2(k) && k < w
      requires j == slotsUsed == |ring| <= indexSize && Indexed(newEntries[..], 0, ring, bases, w)
      modifies this`hasIndex, this`indexSize, this`indexFront, this`entries, this`exposed, this`start, this`k
      ensures IndexInv() && hasIndex && entries == newEntries
      ensures slotsUsed < indexSize == 2 * old(indexSize) && k == old(k) + 1
    {
      hide Indexed;
      hasIndex, indexSize, indexFront, entries, exposed := true, 2 * indexSize, j, newEntries, slotsUsed - 1;
      start, k := 0, k + 1;
    }

    lemma RingAndBases()
      requires Core()
      ensures |ring| == |bases|
    {}

    /** What the rest of a call needs to know about the index. */
    lemma IndexFacts()
      requires IndexInv()
      ensures slotsUsed == |ring| && indexSize == Pow2(k)
      ensures ring != [] ==> hasIndex
      ensures |ring| <= indexSize
    {}

    /** The copying loop: the entries in use, oldest first. */
    method CopyEntries(newEntries: array<Entry>) returns (j: nat)
      requires IndexInv() && (!hasIndex || slotsUsed == indexSize) && |ring| == |bases|
      requires newEntries != entries && newEntries.Length == 2 * indexSize
      modifies newEntries
      ensures j == slotsUsed
      ensures Indexed(newEntries[..], 0, ring, bases, w)
    {
      hide And, Wrap;
      j := 0;
      var i := indexFront;
      if slotsUsed != 0 {
        i := And(WordSub(indexFront, slotsUsed, w), indexSize - 1);
        MaskedWrap(indexFront - slotsUsed, k, w);
        TurnIsRemainder(indexFront - slotsUsed, indexSize);
      }
      var done := slotsUsed == 0;
      while !done
        invariant j <= slotsUsed && done == (j == slotsUsed)
        invariant slotsUsed > 0 ==> i == Around(start, j, indexSize)
        invariant forall m: nat | m < j :: newEntries[m] == Entry(Wrap(bases[m], w), ring[m])
        decreases slotsUsed - j
      {
        IndexEntry(entries[..], start, ring, bases, w, j);
        newEntries[j] := entries[i];
        j := j + 1;
        IncIsMaskedStep(i, k);
        i := And(i + 1, indexSize - 1);
        done := i == indexFront;
      }
      forall m: nat | m < |ring|
        ensures newEntries[..][Around(0, m, newEntries.Length)] == Entry(Wrap(bases[m], w), ring[m])
      {}
    }

    // -------------------------------------------------------------------------
    // enqueue
    // -------------------------------------------------------------------------

    /** The block after the tail block has been drained completely. */
    ghost predicate Reusable()
      reads this
      requires Parameters() && |ring| == |bases|
    {
      ring != [] && bases[0] + Size() <= head
    }

    /** The base of the oldest block. */
    ghost function Oldest(): nat
      reads this`bases
    {
      if bases == [] then 0 else bases[0]
    }

    /** Another block fits under half the index range and under the size limit. */
    ghost predicate Leeway()
      reads this
      requires Parameters()
    {
      && tail + Size() - head < Pow2(w - 1)
      && (limit.Some? ==> limit.value != 0 && tail - head <= limit.value - Size())
    }

    /** Exactly when `enqueue` returns true. */
    ghost predicate Accepts(canAlloc: bool, indexOk: bool, blockOk: bool)
      reads this
      requires Parameters() && |ring| == |bases|
    {
      || tail % Size() != 0
      || Reusable()
      || (Leeway() && ((hasIndex && |ring| < indexSize) || (canAlloc && indexOk)) && blockOk)
    }

    /** Exactly when a call makes the index grow. */
    ghost predicate Grows(canAlloc: bool, indexOk: bool)
      reads this
      requires Parameters() && |ring| == |bases|
    {
      tail % Size() == 0 && !Reusable() && Leeway() && (!hasIndex || |ring| == indexSize) && canAlloc && indexOk
    }

    /** At a block boundary the tail block, if any, is full. */
    lemma AtBoundary()
      requires Valid()
      ensures tail % Size() == 0 <==> And(tailIndex, Size() - 1) == 0
      ensures tail % Size() == 0 && ring != [] ==> tail == bases[|bases| - 1] + Size()
    {
      hide Linked, AllHold, IndexInv, And, Wrap;
      var size := Size();
      if ring == [] {
        WrapSmall(0, w);
        MaskIsRemainder(0, b);
      } else {
        var last := bases[|bases| - 1];
        NextMultiple(last, size);
        if tail == last + size {
          BlockBase(tail, tail, b, w);
        } else {
          BlockBase(tail, last, b, w);
          DivMod(last, size);
          RemainderUnique(tail, size, last / size, tail - last);
        }
      }
    }

    /** The leeway test on words is the test on the true counters. */
    lemma LeewayTest()
      requires Valid()
      ensures CircularLess(headIndex, Wrap(tailIndex + Size(), w), w) <==> tail + Size() - head < Pow2(w - 1)
      ensures !CircularLess(tailIndex, headIndex, w)
      ensures WordSub(tailIndex, headIndex, w) == tail - head
    {
      hide Linked, AllHold, IndexInv, Cover, Wrap, CircularLess, WordSub;
      InWindow();
      if b < w - 1 { Pow2Grows(b, w - 1); }
      hide Pow2;
      LeewayWords(head, tail, Size(), w);
    }

    /** At most half the index range is outstanding. */
    lemma InWindow()
      requires Core()
      ensures 0 <= tail - head <= Pow2(w - 1)
      ensures limit.Some? ==> tail - head <= limit.value
    {
      hide Linked, AllHold, IndexInv, Wrap;
    }

    /** Adding a block when the oldest one is not drained keeps the blocks within half the range. */
    lemma CoverGrows()
      requires Valid() && Leeway() && !Reusable() && tail % Size() == 0
      ensures ring != [] ==> tail + Size() - bases[0] <= Pow2(w - 1)
      ensures ring != [] && limit.Some? ==> tail + Size() - bases[0] <= limit.value
      ensures Size() <= Pow2(w - 1) && (limit.Some? ==> Size() <= limit.value)
    {
      AtBoundary();
      hide Linked, AllHold, IndexInv, Wrap, And, Counters;
      if b < w - 1 { Pow2Grows(b, w - 1); }
      Pow2Add(b, w - 1 - b);
      var size := Size();
      RemainderUnique(Pow2(w - 1), size, Pow2(w - 1 - b), 0);
      if ring != [] {
        NextMultiple(bases[|bases| - 1], size);
        NextMultiple(tail, size);
        Span(bases, size, 0, |bases| - 1);
        MulMono(0, |bases| - 1, size);
        MultiplesSubtract(tail + size, bases[0], size);
        NoMultipleBetween(tail + size - bases[0], Pow2(w - 1), size);
        if limit.Some? { NoMultipleBetween(tail + size - bases[0], limit.value, size); }
      } else if limit.Some? {
        NoMultipleBetween(size, limit.value, size) by { NextMultiple(0, size); }
      }
    }

    /** The parts of the invariant after the oldest block has become the tail block. */
    lemma RotateParts()
      requires Valid() && hasIndex && tail % Size() == 0 && Reusable()
      ensures var ring', bases' := ring[1..] + [ring[0]], bases[1..] + [tail];
        && ring[0] < |blocks|
        && var blocks' := blocks[ring[0] := ResetEmpty(blocks[ring[0]])];
        && Linked(blocks', ring') && AllHold(blocks', ring', bases', Size(), head, contents)
        && Spaced(bases', Size()) && bases'[0] == bases[0] + Size()
        && Indexed(entries[..][indexFront := Entry(tailIndex, ring[0])], Inc(start, indexSize), ring', bases', w)
    {
      AtBoundary();
      hide Linked, AllHold, Spaced, Indexed, Wrap, And, WordSub;
      FirstAfterLast(blocks, ring);
      SpacedRotate(bases, Size());
      LinkedRotate(blocks, ring);
      LinkedKept(blocks, ring[1..] + [ring[0]], ring[0], ResetEmpty(blocks[ring[0]]));
      AllHoldRotate(blocks, ring, bases, Size(), head, contents, tail);
      IndexedRotate(entries[..], start, ring, bases, w, tail);
    }

    /** The parts of the invariant after a new block has become the tail block. */
    lemma AddParts()
      requires Valid() && hasIndex && tail % Size() == 0 && Leeway() && !Reusable() && |ring| < indexSize
      ensures (ring != [] ==> ring[|ring| - 1] < |blocks|)
      ensures var ring', bases' := ring + [|blocks|], bases + [tail];
        var blocks' := Chained(blocks, LastOf(ring), NewBlock(Size()));
        && Linked(blocks', ring') && AllHold(blocks', ring', bases', Size(), head, contents)
        && Spaced(bases', Size())
        && tail + Size() - bases'[0] <= Pow2(w - 1)
        && (limit.Some? ==> tail + Size() - bases'[0] <= limit.value)
        && Indexed(entries[..][indexFront := Entry(tailIndex, |blocks|)], start, ring', bases', w)
    {
      AtBoundary();
      CoverGrows();
      hide Linked, AllHold, Indexed, Wrap, And, WordSub, Spaced;
      if ring != [] {
        FirstAfterLast(blocks, ring);
        SpacedSnoc(bases, Size());
      } else {
        SpacedOne(tail, Size());
        assert bases + [tail] == [tail];
      }
      LinkedAdd(blocks, ring, NewBlock(Size()));
      AllHoldAdd(blocks, ring, bases, Size(), head, contents, tail);
      IndexedAdd(entries[..], start, ring, bases, w, tail, |blocks|);
    }

    /** A block has been put at the tail but not in the index yet. */
    ghost predicate Unindexed()
      reads this, entries
    {
      && Parameters() && Counters() && Cover()
      && ring != [] && tail == bases[|bases| - 1]
      && slotsUsed == |ring| <= indexSize && indexSize == Pow2(k) && 1 <= k <= w
      && hasIndex && entries.Length == indexSize && start < indexSize
      && indexFront == Around(start, |ring| - 1, indexSize)
      && Indexed(entries[..][indexFront := Entry(tailIndex, ring[|ring| - 1])], start, ring, bases, w)
      && tailBlock == LastOf(ring) && Linked(blocks, ring)
      && AllHold(blocks, ring, bases, Size(), head, contents)
    }

    method ReuseBlock()
      requires Valid() && hasIndex && tail % Size() == 0 && Reusable()
      modifies this`blocks, this`tailBlock, this`ring, this`bases, this`start
      ensures Unindexed() && Oldest() == old(Oldest()) + Size()
    {
      AtBoundary();
      hide Linked, AllHold, Spaced, Indexed, Wrap, And, WordSub;
      FirstAfterLast(blocks, ring);
      RotateParts();
      tailBlock := Some(blocks[tailBlock.value].next);
      blocks := blocks[tailBlock.value := ResetEmpty(blocks[tailBlock.value])];
      start, ring, bases := Inc(start, indexSize), ring[1..] + [ring[0]], bases[1..] + [tail];
    }

    method AppendBlock()
      requires Valid() && hasIndex && tail % Size() == 0 && Leeway() && !Reusable() && |ring| < indexSize
      modifies this`blocks, this`tailBlock, this`slotsUsed, this`ring, this`bases
      ensures Unindexed() && |ring| == old(|ring|) + 1 && Oldest() == old(Oldest())
    {
      hide Linked, AllHold, Spaced, Indexed, Wrap, And, WordSub;
      AtBoundary();
      AddParts();
      ring, bases := ring + [|blocks|], bases + [tail];
      blocks := Chained(blocks, tailBlock, NewBlock(Size()));
      tailBlock := Some(|blocks| - 1);
      slotsUsed := slotsUsed + 1;
    }

    /** Record the tail block in the index and expose its slot. */
    method AddEntry()
      requires Unindexed()
      modifies this`exposed, this`indexFront, entries
      ensures Core() && ring != [] && tail == bases[|bases| - 1]
    {
      hide Linked, AllHold, Spaced, Indexed, Wrap, And, WordSub;
      entries[indexFront] := Entry(tailIndex, tailBlock.value);
      assert entries[..] == old(entries[..][indexFront := Entry(tailIndex, ring[|ring| - 1])]);
      exposed := indexFront;
      IncIsMaskedStep(indexFront, k);
      indexFront := And(indexFront + 1, indexSize - 1);
    }

    /** A full index can be doubled: its slots stand for at most half the index range. */
    lemma GrowthFits()
      requires Valid() && (!hasIndex || slotsUsed == indexSize)
      ensures k < w
    {
      hide Linked, AllHold, Indexed, Wrap, Counters, Spaced, Pow2;
      if hasIndex {
        FewBlocks(bases, Size());
        Pow2Order(k, w - 1);
      }
    }

    /** The test whether the block after the tail block is empty. */
    method NextIsDrained() returns (r: bool)
      requires Valid()
      ensures r == Reusable()
    {
      if tailBlock == None { return false; }
      assert Holds(blocks[ring[0]], bases[0], Size(), head, contents);
      DrainedIffPassed(blocks[ring[0]], bases[0], Size(), head, contents);
      hide Holds;
      FirstAfterLast(blocks, ring);
      r := IsEmpty(blocks[blocks[tailBlock.value].next].emptyFlags);
    }

    /** Make sure that the index has a free slot. */
    method MakeSlot(canAlloc: bool, indexOk: bool) returns (ok: bool)
      requires Valid()
      modifies this`hasIndex, this`indexSize, this`indexFront, this`entries, this`exposed, this`start, this`k
      ensures Valid() && (entries == old(entries) || fresh(entries))
      ensures ok == old((hasIndex && |ring| < indexSize) || (canAlloc && indexOk))
      ensures ok ==> hasIndex && |ring| < indexSize
      ensures hasIndex == old(hasIndex || ((!hasIndex || |ring| == indexSize) && canAlloc && indexOk))
      ensures indexSize ==
        if old((!hasIndex || |ring| == indexSize) && canAlloc && indexOk) then 2 * old(indexSize) else old(indexSize)
    {
      hide Linked, AllHold, Spaced, Indexed, Wrap, And, WordSub, Counters, Cover, IndexInv, Pow2;
      IndexFacts();
      ok := true;
      if !hasIndex || slotsUsed == indexSize {
        if !canAlloc { return false; }
        GrowthFits();
        ok := NewBlockIndex(indexOk);
        IndexFacts();
      }
    }

    /** The part of `enqueue` that starts a new block. */
    method TakeBlock(canAlloc: bool, indexOk: bool, blockOk: bool) returns (ok: bool)
      requires Valid() && tail % Size() == 0
      modifies this`blocks, this`tailBlock, this`hasIndex, this`slotsUsed, this`indexSize, this`indexFront,
               this`entries, this`exposed, this`ring, this`bases, this`start, this`k, entries
      ensures entries == old(entries) || fresh(entries)
      ensures ok == old(Accepts(canAlloc, indexOk, blockOk))
      ensures |ring| == old(|ring|) + (if ok && !old(Reusable()) then 1 else 0)
      ensures hasIndex == old(hasIndex || Grows(canAlloc, indexOk))
      ensures indexSize == if old(Grows(canAlloc, indexOk)) then 2 * old(indexSize) else old(indexSize)
      ensures Oldest() == old(Oldest()) + (if ok && old(Reusable()) then Size() else 0)
      ensures if ok then Core() && ring != [] && tail == bases[|bases| - 1] else Valid()
    {
      hide Linked, AllHold, Spaced, Indexed, Wrap, And, WordSub, Counters, Cover, IndexInv, Pow2;
      IndexFacts();
      RingAndBases();
      var reuse := NextIsDrained();
      if reuse {
        ReuseBlock();
      } else {
        LeewayTest();
        assert !CircularLess(tailIndex, headIndex, w);
        if !CircularLess(headIndex, Wrap(tailIndex + Size(), w), w) { return false; }
        if limit.Some? && (limit.value == 0 || limit.value - Size() < WordSub(tailIndex, headIndex, w)) {
          return false;
        }
        var slot := MakeSlot(canAlloc, indexOk);
        if !slot || !blockOk { return false; }
        AppendBlock();
      }
      AddEntry();
      return true;
    }

    /** The parts of the invariant after `x` has been constructed at the tail. */
    lemma PutParts(x: T)
      requires Core() && ring != [] && tail < bases[|bases| - 1] + Size()
      ensures var t, o := ring[|ring| - 1], And(tailIndex, Size() - 1);
        && t < |blocks| && o < |blocks[t].elements| && blocks[t].elements[o] == None
        && var blocks' := blocks[t := blocks[t].(elements := blocks[t].elements[o := Some(x)])];
        && Linked(blocks', ring) && AllHold(blocks', ring, bases, Size(), head, contents + [x])
      ensures Wrap(tailIndex + 1, w) == Wrap(tail + 1, w)
    {
      hide Linked, AllHold, Indexed, Wrap, And, IndexInv;
      FirstAfterLast(blocks, ring);
      var t, o := ring[|ring| - 1], And(tailIndex, Size() - 1);
      BlockBase(tail, bases[|bases| - 1], b, w);
      AllHoldPut(blocks, ring, bases, Size(), head, contents, x, o);
      LinkedKept(blocks, ring, t, blocks[t].(elements := blocks[t].elements[o := Some(x)]));
      WrapSum(tail, 1, w);
    }

    /** Construct `x` at the tail and publish it. */
    method Construct(x: T)
      requires Core() && ring != [] && tail < bases[|bases| - 1] + Size()
      requires WordSub(dequeueOptimisticCount, dequeueOvercommit, w) == headIndex
      modifies this`blocks, this`tailIndex, this`tail, this`contents
      ensures Valid() && contents == old(contents) + [x] && tail == old(tail) + 1
    {
      hide Linked, AllHold, Spaced, Wrap, And, WordSub, IndexInv;
      PutParts(x);
      var t, o := tailBlock.value, And(tailIndex, Size() - 1);
      blocks := blocks[t := blocks[t].(elements := blocks[t].elements[o := Some(x)])];
      tailIndex := Wrap(tailIndex + 1, w);
      tail, contents := tail + 1, contents + [x];
    }

    /**
     `enqueue`: on success `x` is at the back of the queue, on failure the queue is as
     before; and it says exactly when it succeeds.
     */
    method Enqueue(x: T, canAlloc: bool, indexOk: bool, blockOk: bool) returns (ok: bool)
      requires Valid()
      modifies this, entries
      ensures Valid() && (entries == old(entries) || fresh(entries))
      ensures ok == old(Accepts(canAlloc, indexOk, blockOk))
      ensures contents == if ok then old(contents) + [x] else old(contents)
      ensures head == old(head) && tail == old(tail) + (if ok then 1 else 0)
      ensures |ring| == old(|ring|) + (if ok && old(Boundary(tail, Size()) && !Reusable()) then 1 else 0)
      ensures hasIndex == old(hasIndex || Grows(canAlloc, indexOk))
      ensures indexSize == if old(Grows(canAlloc, indexOk)) then 2 * old(indexSize) else old(indexSize)
      ensures Oldest() == old(Oldest()) + (if ok && old(Boundary(tail, Size()) && Reusable()) then Size() else 0)
    {
      hide Linked, AllHold, Spaced, Indexed, Wrap, And, WordSub, Counters;
      AtBoundary();
      if And(tailIndex, Size() - 1) == 0 {
        ok := TakeBlock(canAlloc, indexOk, blockOk);
        if !ok { return false; }
      } else {
        InsideBlock();
      }
      Construct(x);
      return true;
    }

    lemma InsideBlock()
      requires Valid() && tail % Size() != 0
      ensures ring != [] && tail < bases[|bases| - 1] + Size()
    {
      hide Linked, AllHold, Indexed, Wrap, And, WordSub, Counters;
      RemainderUnique(0, Size(), 0, 0);
      if ring != [] { NextMultiple(bases[|bases| - 1], Size()); }
    }

    // -------------------------------------------------------------------------
    // dequeue
    // -------------------------------------------------------------------------

    /** The words say "something to dequeue" unless the queue is empty or fills half the index range. */
    lemma EmptinessTest()
      requires Valid()
      ensures CircularLess(headIndex, tailIndex, w) <==> 0 < |contents| < Pow2(w - 1)
    {
      hide Linked, AllHold, IndexInv;
      InWindow();
      WrapSub(head, tail, w);
      WrapSmall(head - tail, w);
      hide Wrap;
    }

    /** The read-only half of `dequeue`: the block index leads to the block a linear scan would find. */
    method Find(index: nat) returns (block: nat)
      requires Core() && ring != [] && index == headIndex && contents != []
      ensures Scan(ring, bases, Size(), head) == Some(block)
    {
      LookupIsScan(entries[..], start, ring, bases, b, k, w, head);
      hide Linked, AllHold, Spaced, Indexed, Wrap, And, Scan, Lookup;
      var slot := Lookup(entries[..], exposed, index, b, w);
      block := entries[slot].block;
    }

    /** The parts of the invariant after the front element has been taken out of its block. */
    lemma TakeParts()
      requires Core() && contents != []
      ensures var scan, o := Scan(ring, bases, Size(), head), And(headIndex, Size() - 1);
        && scan.Some? && scan.value < |blocks| && o < Size()
        && |blocks[scan.value].elements| == |blocks[scan.value].emptyFlags| == Size()
        && blocks[scan.value].elements[o] == Some(contents[0]) && !blocks[scan.value].emptyFlags[Size() - 1 - o]
        && var blocks' := blocks[scan.value := Taken(blocks[scan.value], o, Size())];
        && Linked(blocks', ring) && AllHold(blocks', ring, bases, Size(), head + 1, contents[1..])
      ensures Wrap(headIndex + 1, w) == Wrap(head + 1, w)
    {
      hide Linked, AllHold, Indexed, Wrap, And, IndexInv, Spaced;
      var i := FindBlock(bases, Size(), head);
      ScanFinds(ring, bases, Size(), head, i);
      Multiple(bases, Size(), i);
      BlockBase(head, bases[i], b, w);
      RingInRange(blocks, ring, i);
      AllHoldTake(blocks, ring, bases, Size(), head, contents, i);
      LinkedKept(blocks, ring, ring[i], Taken(blocks[ring[i]], head - bases[i], Size()));
      WrapSum(head, 1, w);
    }

    /** `headIndex++`, then move the element out of its block and flag its slot. */
    method TakeFront() returns (r: Option<T>)
      requires Core() && contents != []
      modifies this`blocks, this`headIndex, this`head, this`contents
      ensures Core() && r == Some(old(contents)[0]) && contents == old(contents)[1..]
      ensures head == old(head) + 1 && headIndex == Wrap(old(headIndex) + 1, w)
    {
      hide Linked, AllHold, Spaced, Wrap, And, Scan, IndexInv;
      TakeParts();
      var index := headIndex;
      var id := Find(index);
      var o := And(index, Size() - 1);
      r := blocks[id].elements[o];
      assert !blocks[id].emptyFlags[Size() - 1 - o];
      blocks := blocks[id := Taken(blocks[id], o, Size())];
      headIndex := Wrap(headIndex + 1, w);
      head, contents := head + 1, contents[1..];
    }

    /**
     `dequeue`: hands out the front element, found through the block index. It reports
     "nothing" exactly when the queue is empty or holds half the index range.
     */
    method Dequeue() returns (r: Option<T>)
      requires Valid()
      modifies this`blocks, this`headIndex, this`dequeueOptimisticCount, this`dequeueOvercommit, this`head,
               this`contents
      ensures Valid() && r.Some? == (0 < |old(contents)| < Pow2(w - 1))
      ensures r.Some? ==> r.value == old(contents)[0] && contents == old(contents)[1..] && head == old(head) + 1
      ensures r.None? ==> contents == old(contents) && head == old(head)
    {
      hide Linked, AllHold, Spaced, Indexed, Wrap, And, Cover, IndexInv;
      EmptinessTest();
      var overcommit := dequeueOvercommit;
      if !CircularLess(WordSub(dequeueOptimisticCount, overcommit, w), tailIndex, w) { return None; }
      var mine := dequeueOptimisticCount;
      dequeueOptimisticCount := Wrap(dequeueOptimisticCount + 1, w);
      // Nothing ran in between, so the second test agrees with the first.
      assert CircularLess(WordSub(mine, overcommit, w), tailIndex, w);
      ReservationClosed(mine, overcommit, w);
      r := TakeFront();
    }

    /** When a producer without a limit below half the range accepts, by its counters and its oldest block. */
    lemma WhenUnlimited()
      requires Valid() && (limit.Some? ==> limit.value >= Pow2(w - 1))
      ensures w >= 1 && Parameters() && |ring| == |bases| && tail == head + |contents| && Size() == Pow2(b)
      ensures Reusable() <==> ring != [] && Oldest() + Size() <= head
      ensures Accepts(true, true, true)
         <==> !Boundary(tail, Size()) || Reusable() || tail + Size() - head < Pow2(w - 1)
    {
      hide Linked, AllHold, IndexInv, Wrap, WordSub, And, Spaced, Pow2;
    }

    /** While the drained first block is filled again, elements are accepted. */
    lemma RefillAccepts(n: nat)
      requires Valid() && (limit.Some? ==> limit.value >= Pow2(w - 1)) && n < Pow2(b)
      requires Boundary(Pow2(w - 1), Pow2(b)) && tail == Pow2(w - 1) + n
      requires n == 0 ==> head == Pow2(b) && ring != [] && Oldest() == 0
      ensures Parameters() && |ring| == |bases| && Accepts(true, true, true)
    {
      hide *;
      WhenUnlimited();
      InsideBlockAt(Pow2(w - 1), n, Pow2(b));
    }

    /** A queue of half the index range refuses every element, whatever the allocator does. */
    lemma HalfRangeRefuses(canAlloc: bool, indexOk: bool, blockOk: bool)
      requires Valid() && |contents| == Pow2(w - 1)
      ensures Parameters() && |ring| == |bases| && !Accepts(canAlloc, indexOk, blockOk)
    {
      AtBoundary();
      if ring != [] { NextMultiple(bases[|bases| - 1], Size()); }
      hide Linked, AllHold, IndexInv, Wrap, WordSub, And, Pow2;
    }

    /** With a limit below half the index range the queue never fills it, so `Dequeue` fails only when empty. */
    lemma LimitPreventsSticking()
      requires Valid() && limit.Some? && limit.value < Pow2(w - 1)
      ensures |contents| < Pow2(w - 1)
    {
      InWindow();
      hide Linked, AllHold, IndexInv, Wrap, WordSub, Cover, Pow2;
    }

    /** This producer as a plain queue. */
    ghost function AsPlain(): Plain<T>
      reads this
    {
      Plain(hasIndex, indexSize, |ring|, head, contents)
    }

    lemma NoneOldest()
      requires Valid() && ring == []
      ensures Oldest() == 0
    {
      RingAndBases();
    }

    lemma Known()
      requires Valid()
      ensures w >= 1 && Setting() == Traits(Pow2(b), Pow2(w - 1), limit) && Setting().size >= 1
      ensures AsPlain() == Plain(hasIndex, indexSize, |ring|, head, contents)
    {}

    ghost function Setting(): Traits
      requires w >= 1
    {
      Traits(Pow2(b), Pow2(w - 1), limit)
    }

    /** At a block boundary the oldest block is drained exactly when the other blocks hold all the elements. */
    lemma DrainedByCount()
      requires Valid() && Boundary(tail, Size())
      ensures |ring| == |bases|
      ensures Reusable() <==> ring != [] && |contents| + Size() <= |ring| * Size()
    {
      AtBoundary();
      RingAndBases();
      if ring != [] { Span(bases, Size(), 0, |bases| - 1); }
      hide Linked, AllHold, IndexInv, And, Wrap, WordSub, Pow2, Spaced, Boundary;
      if ring != [] { OneLess(|ring|, Size()); }
    }

    /**
     When an element is accepted, in terms of what a user can count: inside a block always; at
     a block boundary if the other blocks hold everything, so that the oldest can be used again;
     otherwise if half the index range and the limit leave room for a block, the index has a
     slot or may and can grow, and a block is to be had.
     */
    lemma AcceptsByCount(canAlloc: bool, indexOk: bool, blockOk: bool)
      requires Valid()
      ensures |ring| == |bases| && tail == head + |contents| && Parameters() && w >= 1 && Setting().size == Size()
      ensures Accepts(canAlloc, indexOk, blockOk) ==
        match Outlook(Setting(), AsPlain())
        case Free => true
        case NoRoom => false
        case NeedsBlock => blockOk
        case NeedsIndex => canAlloc && indexOk && blockOk
      ensures Grows(canAlloc, indexOk) == (Outlook(Setting(), AsPlain()).NeedsIndex? && canAlloc && indexOk)
      ensures (Boundary(tail, Size()) && !Reusable()) == !Outlook(Setting(), AsPlain()).Free?
    {
      if Boundary(tail, Size()) { DrainedByCount(); }
      hide Linked, AllHold, Wrap, WordSub, Spaced, Indexed, And, Pow2;
    }

    /** One operation of a run. */
    method Answer(op: Op<T>) returns (answer: Answer<T>)
      requires Valid()
      modifies this, entries
      ensures Valid() && w >= 1 && (entries == old(entries) || fresh(entries))
      ensures Expect(Setting(), old(AsPlain()), op) == Expected(answer, AsPlain())
    {
      hide Linked, AllHold, Spaced, Wrap, WordSub, IndexInv, Cover, Pow2, Accepts, Grows, Reusable, Outlook;
      RingAndBases();
      match op
      case Put(x, canAlloc, indexOk, blockOk) =>
        AcceptsByCount(canAlloc, indexOk, blockOk);
        var ok := Enqueue(x, canAlloc, indexOk, blockOk);
        answer := Accepted(ok);
      case Get =>
        var r := Dequeue();
        answer := Received(r);
    }
  }

  lemma OneLess(n: nat, size: nat)
    requires n >= 1
    ensures (n - 1) * size == n * size - size
  {}

  /** The tests on words are tests on the true counters while at most half the range is outstanding. */
  lemma LeewayWords(head: nat, tail: nat, size: nat, w: nat)
    requires w >= 1 && head <= tail <= head + Pow2(w - 1) && 1 <= size <= Pow2(w - 1)
    ensures CircularLess(Wrap(head, w), Wrap(Wrap(tail, w) + size, w), w) <==> tail + size - head < Pow2(w - 1)
    ensures !CircularLess(Wrap(tail, w), Wrap(head, w), w)
    ensures WordSub(Wrap(tail, w), Wrap(head, w), w) == tail - head
  {
    WrapSum(tail, size, w);
    WrapSub(head, tail + size, w);
    WrapSub(tail, head, w);
    WrapSmall(tail - head, w);
    WrapSmall(head - (tail + size), w);
    hide Wrap, WordSub;
  }

  // ---------------------------------------------------------------------------
  // Runs
  // ---------------------------------------------------------------------------

  datatype Op<T> = Put(x: T, canAlloc: bool, indexOk: bool, blockOk: bool) | Get

  datatype Answer<T> = Accepted(ok: bool) | Received(r: Option<T>)

  /** The traits of a producer that the answers depend on. */
  datatype Traits = Traits(size: nat, half: nat, limit: Option<nat>)

  /** A plain queue, with what its answers depend on: is there an index, how big, how many blocks, the head. */
  datatype Plain<T> = Plain(present: bool, cap: nat, blocks: nat, head: nat, queue: seq<T>)

  datatype Expected<T> = Expected(answer: Answer<T>, plain: Plain<T>)

  /** What the next element needs. */
  datatype Need = Free | NoRoom | NeedsBlock | NeedsIndex

  /** The other blocks hold all the elements. */
  ghost predicate Drained<T>(t: Traits, p: Plain<T>) {
    p.blocks > 0 && |p.queue| + t.size <= p.blocks * t.size
  }

  ghost function Outlook<T>(t: Traits, p: Plain<T>): Need
    requires t.size >= 1
  {
    if !Boundary(p.head + |p.queue|, t.size) || Drained(t, p) then Free
    else if |p.queue| + t.size >= t.half || (t.limit.Some? && |p.queue| + t.size > t.limit.value) then NoRoom
    else if p.present && p.blocks < p.cap then NeedsBlock
    else NeedsIndex
  }

  ghost function Expect<T>(t: Traits, p: Plain<T>, op: Op<T>): Expected<T>
    requires t.size >= 1
  {
    match op
    case Put(x, canAlloc, indexOk, blockOk) =>
      var need := Outlook(t, p);
      var grow := need.NeedsIndex? && canAlloc && indexOk;
      var ok := need.Free? || ((need.NeedsBlock? || grow) && blockOk);
      var p' := if grow then p.(present := true, cap := 2 * p.cap) else p;
      var more := if need.Free? then 0 else 1;
      Expected(Accepted(ok), if ok then p'.(blocks := p.blocks + more, queue := p.queue + [x]) else p')
    case Get =>
      if 0 < |p.queue| < t.half
      then Expected(Received(Some(p.queue[0])), p.(head := p.head + 1, queue := p.queue[1..]))
      else Expected(Received(None), p)
  }

  /** The plain queue after a whole run. */
  ghost function Outcome<T>(t: Traits, p: Plain<T>, ops: seq<Op<T>>): Plain<T>
    requires t.size >= 1
  {
    if ops == [] then p
    else Expect(t, Outcome(t, p, ops[..|ops| - 1]), ops[|ops| - 1]).plain
  }

  /** The answers of a whole run. */
  ghost function Answers<T>(t: Traits, p: Plain<T>, ops: seq<Op<T>>): seq<Answer<T>>
    requires t.size >= 1
  {
    if ops == [] then []
    else
      var n := |ops| - 1;
      Answers(t, p, ops[..n]) + [Expect(t, Outcome(t, p, ops[..n]), ops[n]).answer]
  }

  /**
   Every run of whole calls, with any pattern of allocation failures, gives exactly the
   answers of a plain sequence, through block reuse, wrap-around of the indices and growth of
   the index: an element is refused only for half the index range, the limit, or an
   allocation that it needs.
   */
  method Replay<T>(ops: seq<Op<T>>, b: nat, w: nat, limit: Option<nat>, ghost k: nat, indexSize: nat, ok: bool)
    returns (answers: seq<Answer<T>>)
    requires w >= 1 && b <= w - 1 && (limit.Some? ==> limit.value % Pow2(b) == 0)
    requires indexSize == Pow2(k) && k < w
    ensures answers == Answers(
      Traits(Pow2(b), Pow2(w - 1), limit), Plain(ok, if ok then 2 * indexSize else indexSize, 0, 0, []), ops)
  {
    hide *;
    ghost var t := Traits(Pow2(b), Pow2(w - 1), limit);
    ghost var p0 := Plain(ok, if ok then 2 * indexSize else indexSize, 0, 0, []);
    var p := new Producer<T>(b, w, limit, k, indexSize, ok);
    answers := [];
    p.Known();
    NothingDone(t, p0, ops);
    for i := 0 to |ops|
      invariant p.Valid() && p.w >= 1 && p.Setting() == t && fresh(p) && fresh(p.entries)
      invariant p.AsPlain() == Outcome(t, p0, ops[..i]) && answers == Answers(t, p0, ops[..i])
    {
      var answer := p.Answer(ops[i]);
      OneMore(t, p0, ops, i);
      answers := answers + [answer];
    }
    assert ops[..|ops|] == ops;
  }

  lemma NothingDone<T>(t: Traits, p: Plain<T>, ops: seq<Op<T>>)
    requires t.size >= 1
    ensures Outcome(t, p, ops[..0]) == p && Answers(t, p, ops[..0]) == []
  {}

  lemma OneMore<T>(t: Traits, p: Plain<T>, ops: seq<Op<T>>, i: nat)
    requires t.size >= 1 && i < |ops|
    ensures var e := Expect(t, Outcome(t, p, ops[..i]), ops[i]);
      && Outcome(t, p, ops[..i + 1]) == e.plain
      && Answers(t, p, ops[..i + 1]) == Answers(t, p, ops[..i]) + [e.answer]
  {
    assert ops[..i + 1][..i] == ops[..i];
    hide Expect;
  }

  // ---------------------------------------------------------------------------
  // Half the index range
  // ---------------------------------------------------------------------------

  /** `t` is the first index of a block. */
  predicate Boundary(t: nat, size: nat)
    requires size >= 1
  {
    t % size == 0
  }

  lemma InsideBlockAt(base: nat, o: nat, size: nat)
    requires size >= 1 && Boundary(base, size) && o < size
    ensures Boundary(base + o, size) <==> o == 0
  {
    OffsetRemainder(base, o, size);
  }

  lemma MultiplesOfBlocks(b: nat, w: nat)
    requires 1 <= b && b + 2 <= w
    ensures 2 <= Pow2(b) && 2 * Pow2(b) <= Pow2(w - 1) && Boundary(Pow2(w - 1), Pow2(b)) && Boundary(0, Pow2(b))
  {
    Pow2Grows(b, w - 1);
    Pow2Grows(0, b);
    Pow2Add(b, w - 1 - b);
    RemainderUnique(Pow2(w - 1), Pow2(b), Pow2(w - 1 - b), 0);
    RemainderUnique(0, Pow2(b), 0, 0);
  }

  /** At a block boundary below half the range there is room for a whole block. */
  lemma RoomForBlock(tail: nat, size: nat, half: nat)
    requires size >= 1 && Boundary(half, size) && tail < half && Boundary(tail, size)
    ensures tail + size <= half
  {
    NextMultiple(tail, size);
    NoMultipleBetween(tail + size, half, size);
  }

  /** A producer that has seen one element come and go. */
  method StartUp(b: nat, w: nat, limit: Option<nat>, ghost k: nat, indexSize: nat) returns (p: Producer<int>)
    requires 1 <= b && b + 2 <= w && indexSize == Pow2(k) && k < w
    requires limit.Some? ==> limit.value % Pow2(b) == 0 && limit.value >= Pow2(w - 1)
    ensures fresh(p) && fresh(p.entries) && p.Valid() && p.b == b && p.w == w && p.limit == limit
    ensures p.head == 1 && p.ring != [] && p.Oldest() == 0 && p.tail == 1
  {
    hide *;
    p := new Producer<int>(b, w, limit, k, indexSize, true);
    InAndOut(p);
  }

  /** The first element goes in. */
  method FirstIn(p: Producer<int>)
    requires p.Valid() && 1 <= p.b && p.b + 2 <= p.w && (p.limit.Some? ==> p.limit.value >= Pow2(p.w - 1))
    requires p.head == 0 && p.contents == [] && p.ring == []
    modifies p, p.entries
    ensures p.Valid() && (p.entries == old(p.entries) || fresh(p.entries))
    ensures p.head == 0 && p.ring != [] && p.Oldest() == 0 && p.tail == 1 && |p.contents| == 1
  {
    MultiplesOfBlocks(p.b, p.w);
    hide *;
    p.WhenUnlimited();
    p.NoneOldest();
    var ok := p.Enqueue(0, true, true, true);
  }

  /** One element in, one out. */
  method InAndOut(p: Producer<int>)
    requires p.Valid() && 1 <= p.b && p.b + 2 <= p.w && (p.limit.Some? ==> p.limit.value >= Pow2(p.w - 1))
    requires p.head == 0 && p.contents == [] && p.ring == []
    modifies p, p.entries
    ensures p.Valid() && (p.entries == old(p.entries) || fresh(p.entries))
    ensures p.head == 1 && p.ring != [] && p.Oldest() == 0 && p.tail == 1
  {
    MultiplesOfBlocks(p.b, p.w);
    hide *;
    FirstIn(p);
    var _ := p.Dequeue();
  }

  /** One more element, below half the index range. */
  method FillOne(p: Producer<int>, n: nat)
    requires p.Valid() && 1 <= p.b && p.b + 2 <= p.w && (p.limit.Some? ==> p.limit.value >= Pow2(p.w - 1))
    requires p.head == 1 && p.ring != [] && p.Oldest() == 0 && p.tail == n < Pow2(p.w - 1)
    modifies p, p.entries
    ensures p.Valid() && (p.entries == old(p.entries) || fresh(p.entries))
    ensures p.head == 1 && p.ring != [] && p.Oldest() == 0 && p.tail == n + 1
  {
    MultiplesOfBlocks(p.b, p.w);
    hide *;
    p.WhenUnlimited();
    if Boundary(n, Pow2(p.b)) { RoomForBlock(n, Pow2(p.b), Pow2(p.w - 1)); }
    var ok := p.Enqueue(n, true, true, true);
  }

  /** One element in, one out, then enqueue until the tail is at half the range. */
  method FillUp(b: nat, w: nat, limit: Option<nat>, ghost k: nat, indexSize: nat) returns (p: Producer<int>)
    requires 1 <= b && b + 2 <= w && indexSize == Pow2(k) && k < w
    requires limit.Some? ==> limit.value % Pow2(b) == 0 && limit.value >= Pow2(w - 1)
    ensures fresh(p) && fresh(p.entries) && p.Valid() && p.b == b && p.w == w && p.limit == limit
    ensures p.head == 1 && p.ring != [] && p.Oldest() == 0 && p.tail == Pow2(w - 1)
  {
    MultiplesOfBlocks(b, w);
    hide *;
    p := StartUp(b, w, limit, k, indexSize);
    for n := 1 to Pow2(w - 1)
      invariant fresh(p) && fresh(p.entries) && p.Valid()
      invariant p.head == 1 && p.ring != [] && p.Oldest() == 0 && p.tail == n
    {
      FillOne(p, n);
    }
  }

  /** Take the first block out completely. */
  method DrainFirst(p: Producer<int>)
    requires p.Valid() && 1 <= p.b && p.b + 2 <= p.w && (p.limit.Some? ==> p.limit.value >= Pow2(p.w - 1))
    requires p.head == 1 && p.ring != [] && p.Oldest() == 0 && p.tail == Pow2(p.w - 1)
    modifies p
    ensures p.Valid() && p.entries == old(p.entries)
    ensures p.head == Pow2(p.b) && p.ring != [] && p.Oldest() == 0 && p.tail == Pow2(p.w - 1)
  {
    MultiplesOfBlocks(p.b, p.w);
    hide *;
    for n := 1 to Pow2(p.b)
      invariant p.Valid() && p.entries == old(p.entries)
      invariant p.head == n && p.ring != [] && p.Oldest() == 0 && p.tail == Pow2(p.w - 1)
    {
      p.WhenUnlimited();
      var _ := p.Dequeue();
    }
  }

  /** Fill the first block again: it is reused without the leeway test. */
  method RefillFirst(p: Producer<int>)
    requires p.Valid() && 1 <= p.b && p.b + 2 <= p.w && (p.limit.Some? ==> p.limit.value >= Pow2(p.w - 1))
    requires p.head == Pow2(p.b) && p.ring != [] && p.Oldest() == 0 && p.tail == Pow2(p.w - 1)
    modifies p, p.entries
    ensures p.Valid() && |p.contents| == Pow2(p.w - 1) && (p.entries == old(p.entries) || fresh(p.entries))
  {
    MultiplesOfBlocks(p.b, p.w);
    hide *;
    ghost var half, size := Pow2(p.w - 1), Pow2(p.b);
    for n := 0 to Pow2(p.b)
      invariant p.Valid() && (p.entries == old(p.entries) || fresh(p.entries))
      invariant p.head == size && p.ring != [] && p.tail == half + n && (n == 0 ==> p.Oldest() == 0)
    {
      p.RefillAccepts(n);
      var ok := p.Enqueue(n, true, true, true);
    }
    p.WhenUnlimited();
  }

  /**
   The reuse of a drained block is not subject to the leeway test, so for every block size,
   every index width and every limit that is not below half the index range, the queue can
   come to hold exactly half the range. Then
   `dequeue` answers "nothing" although the queue is not empty, and `enqueue` refuses; as
   neither changes anything, it stays so.
   */
  method HalfRangeSticks(b: nat, w: nat, limit: Option<nat>, ghost k: nat, indexSize: nat)
    returns (p: Producer<int>, r: Option<int>, more: bool)
    requires 1 <= b && b + 2 <= w && indexSize == Pow2(k) && k < w
    requires limit.Some? ==> limit.value % Pow2(b) == 0 && limit.value >= Pow2(w - 1)
    ensures p.Valid() && p.b == b && p.w == w && p.limit == limit && |p.contents| == Pow2(w - 1) && r == None && !more
  {
    hide *;
    p := FillUp(b, w, limit, k, indexSize);
    DrainFirst(p);
    RefillFirst(p);
    r := p.Dequeue();
    p.HalfRangeRefuses(true, true, true);
    more := p.Enqueue(0, true, true, true);
  }
}
