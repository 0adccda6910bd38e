/**
 The data of an explicit producer of the multi-producer queue: a circular list of element
 blocks and a circular index from the base of each block to the block. Indices are machine
 words of `w` bits; blocks hold `Pow2(b)` elements. Each part of the invariant is a
 predicate on values, with lemmas on how the operations change it.
 */
module ExplicitIndex {
  import opened Options
  import opened Bits
  import opened BlockIndex

  /** `emptyFlags[size - 1 - o]` is set once the element at offset `o` has been taken. */
  datatype Block<T> = Block(next: nat, elements: seq<Option<T>>, emptyFlags: seq<bool>)

  datatype Entry = Entry(base: nat, block: nat)

  // ---------------------------------------------------------------------------
  // The parts of the invariant
  // ---------------------------------------------------------------------------

  /** `ring` lists distinct blocks, each linked to the next and the last to the first. */
  ghost predicate Linked<T>(blocks: seq<Block<T>>, ring: seq<nat>) {
    && (forall i: nat | i < |ring| :: ring[i] < |blocks|)
    && (forall i: nat, j: nat | i < j < |ring| :: ring[i] != ring[j])
    && (forall i: nat | i < |ring| :: blocks[ring[i]].next == ring[if i + 1 < |ring| then i + 1 else 0])
  }

  /** The index slots from `start` on list the blocks of the ring with their wrapped bases. */
  ghost predicate Indexed(entries: seq<Entry>, start: nat, ring: seq<nat>, bases: seq<nat>, w: nat) {
    && |ring| == |bases| <= |entries| && start < |entries|
    && forall i: nat | i < |ring| :: entries[Around(start, i, |entries|)] == Entry(Wrap(bases[i], w), ring[i])
  }

  /** Elements in place, flags set exactly for the elements already taken. */
  ghost predicate Holds<T>(block: Block<T>, base: nat, size: nat, head: nat, contents: seq<T>) {
    && Cells(block.elements, base, size, head, contents) && |block.emptyFlags| == size
    && (forall f: nat | f < size :: block.emptyFlags[f] <==> base + (size - 1 - f) < head)
  }

  ghost predicate AllHold<T>(
    blocks: seq<Block<T>>, ring: seq<nat>, bases: seq<nat>, size: nat, head: nat, contents: seq<T>)
  {
    && |ring| == |bases|
    && (forall i: nat | i < |ring| :: ring[i] < |blocks|)
    && forall i: nat | i < |ring| :: Holds(blocks[ring[i]], bases[i], size, head, contents)
  }

  /** The slot that `dequeue` looks up for the word `index`. */
  function Lookup(entries: seq<Entry>, exposed: nat, index: nat, b: nat, w: nat): nat
    requires w >= 1 && exposed < |entries|
  {
    SlotFor(entries[exposed].base, exposed, |entries|, index, b, w)
  }

  /** The looked-up slot is the one of the block that contains the index. */
  lemma LookupFinds(
    entries: seq<Entry>, start: nat, ring: seq<nat>, bases: seq<nat>, b: nat, k: nat, w: nat, j: nat, i: nat)
    requires w >= 1 && b <= w && k <= w && |entries| == Pow2(k)
    requires Indexed(entries, start, ring, bases, w) && Spaced(bases, Pow2(b)) && i < |bases|
    requires bases[|bases| - 1] - bases[0] < Pow2(w - 1)
    requires bases[i] <= j < bases[i] + Pow2(b)
    ensures var exposed := Around(start, |ring| - 1, |entries|);
      Lookup(entries, exposed, Wrap(j, w), b, w) == Around(start, i, |entries|)
  {
    hide Wrap, Indexed, Spaced, Pow2, SlotFor;
    IndexSize(entries, start, ring, bases, w);
    var n, size := |bases|, Pow2(b);
    var exposed, d: int := Around(start, |ring| - 1, |entries|), i - (n - 1);
    IndexEntry(entries, start, ring, bases, w, n - 1);
    Multiple(bases, size, i);
    Span(bases, size, i, n - 1);
    Span(bases, size, 0, i);
    MulMono(0, i, size);
    MulMono(0, n - 1 - i, size);
    assert d * size == 0 - (n - 1 - i) * size;
    SlotMoves(bases[n - 1], bases[i], j, d, exposed, b, k, w);
  }

  lemma IndexSize(entries: seq<Entry>, start: nat, ring: seq<nat>, bases: seq<nat>, w: nat)
    requires Indexed(entries, start, ring, bases, w)
    ensures |ring| == |bases| <= |entries| && start < |entries|
  {}

  lemma IndexEntry(entries: seq<Entry>, start: nat, ring: seq<nat>, bases: seq<nat>, w: nat, i: nat)
    requires Indexed(entries, start, ring, bases, w) && i < |ring|
    ensures |ring| == |bases| <= |entries| && start < |entries|
    ensures entries[Around(start, i, |entries|)] == Entry(Wrap(bases[i], w), ring[i])
  {}

  /** The block of true index `j`, found by scanning the list from its first block. */
  function Scan(ring: seq<nat>, bases: seq<nat>, size: nat, j: nat): Option<nat>
    requires |ring| == |bases|
  {
    if ring == [] then None
    else if bases[0] <= j < bases[0] + size then Some(ring[0])
    else Scan(ring[1..], bases[1..], size, j)
  }

  lemma {:induction false} ScanFinds(ring: seq<nat>, bases: seq<nat>, size: nat, j: nat, i: nat)
    requires size >= 1 && |ring| == |bases| && Spaced(bases, size) && i < |ring|
    requires bases[i] <= j < bases[i] + size
    ensures Scan(ring, bases, size, j) == Some(ring[i])
  {
    if i > 0 {
      Apart(bases, size, 0, i);
      ScanFinds(ring[1..], bases[1..], size, j, i - 1);
    }
  }

  /** The fast lookup of a wrapped index is the linear scan for the true index. */
  lemma LookupIsScan(entries: seq<Entry>, start: nat, ring: seq<nat>, bases: seq<nat>, b: nat, k: nat, w: nat, j: nat)
    requires w >= 1 && b <= w && k <= w && |entries| == Pow2(k)
    requires Indexed(entries, start, ring, bases, w) && Spaced(bases, Pow2(b)) && bases != []
    requires bases[|bases| - 1] - bases[0] < Pow2(w - 1)
    requires bases[0] <= j < bases[|bases| - 1] + Pow2(b)
    ensures var slot := Lookup(entries, Around(start, |ring| - 1, |entries|), Wrap(j, w), b, w);
      slot < |entries| && Scan(ring, bases, Pow2(b), j) == Some(entries[slot].block)
  {
    var i := FindBlock(bases, Pow2(b), j);
    ScanFinds(ring, bases, Pow2(b), j, i);
    LookupFinds(entries, start, ring, bases, b, k, w, j, i);
    IndexEntry(entries, start, ring, bases, w, i);
    hide Lookup, Wrap, Spaced, Indexed;
  }

  // ---------------------------------------------------------------------------
  // How the parts change
  // ---------------------------------------------------------------------------

  /** Changing the contents of a block leaves the links alone. */
  lemma LinkedKept<T>(blocks: seq<Block<T>>, ring: seq<nat>, id: nat, block: Block<T>)
    requires Linked(blocks, ring) && id < |blocks| && block.next == blocks[id].next
    ensures Linked(blocks[id := block], ring)
  {}

  lemma LinkedRotate<T>(blocks: seq<Block<T>>, ring: seq<nat>)
    requires Linked(blocks, ring) && ring != []
    ensures Linked(blocks, ring[1..] + [ring[0]])
  {
    var r := ring[1..] + [ring[0]];
    forall i: nat | i < |r| ensures blocks[r[i]].next == r[if i + 1 < |r| then i + 1 else 0] {
      if i + 1 < |r| { assert r[i] == ring[i + 1]; }
    }
  }

  lemma RingInRange<T>(blocks: seq<Block<T>>, ring: seq<nat>, i: nat)
    requires Linked(blocks, ring) && i < |ring|
    ensures ring[i] < |blocks|
  {}

  lemma FirstAfterLast<T>(blocks: seq<Block<T>>, ring: seq<nat>)
    requires Linked(blocks, ring) && ring != []
    ensures ring[0] < |blocks| && ring[|ring| - 1] < |blocks| && blocks[ring[|ring| - 1]].next == ring[0]
  {}

  /** The list of blocks with a new one after the last. */
  function Chained<T>(blocks: seq<Block<T>>, last: Option<nat>, block: Block<T>): seq<Block<T>>
    requires last.Some? ==> last.value < |blocks|
  {
    match last
    case None => blocks + [block.(next := |blocks|)]
    case Some(t) => blocks[t := blocks[t].(next := |blocks|)] + [block.(next := blocks[t].next)]
  }

  function LastOf(ring: seq<nat>): Option<nat> {
    if ring == [] then None else Some(ring[|ring| - 1])
  }

  lemma LinkedAdd<T>(blocks: seq<Block<T>>, ring: seq<nat>, block: Block<T>)
    requires Linked(blocks, ring)
    ensures Linked(Chained(blocks, LastOf(ring), block), ring + [|blocks|])
  {
    var n, r := |ring|, ring + [|blocks|];
    var bs := Chained(blocks, LastOf(ring), block);
    if n > 0 {
      assert blocks[ring[n - 1]].next == ring[0];
      forall i: nat | i < |r| ensures bs[r[i]].next == r[if i + 1 < |r| then i + 1 else 0] {
        if i < n - 1 { assert ring[i] != ring[n - 1] && blocks[ring[i]].next == ring[i + 1]; }
      }
    }
  }

  lemma IndexedAdd(entries: seq<Entry>, start: nat, ring: seq<nat>, bases: seq<nat>, w: nat, base: nat, id: nat)
    requires Indexed(entries, start, ring, bases, w) && |ring| < |entries|
    ensures var entries' := entries[Around(start, |ring|, |entries|) := Entry(Wrap(base, w), id)];
      Indexed(entries', start, ring + [id], bases + [base], w)
  {}

  /** Reusing the oldest block overwrites the oldest entry or takes the next free slot. */
  lemma IndexedRotate(entries: seq<Entry>, start: nat, ring: seq<nat>, bases: seq<nat>, w: nat, base: nat)
    requires Indexed(entries, start, ring, bases, w) && ring != []
    ensures Indexed(entries[Around(start, |ring|, |entries|) := Entry(Wrap(base, w), ring[0])],
                    Inc(start, |entries|), ring[1..] + [ring[0]], bases[1..] + [base], w)
  {
    var size, n := |entries|, |ring|;
    forall i: nat | i < n ensures Around(Inc(start, size), i, size) == Around(start, i + 1, size) {}
  }

  /** `block` after the flags have been reset. */
  function ResetEmpty<T>(block: Block<T>): Block<T> {
    block.(emptyFlags := seq(|block.emptyFlags|, _ => false))
  }

  /** A drained block, its flags reset, is ready for the elements from the tail on. */
  lemma HoldsReset<T>(block: Block<T>, base: nat, base': nat, size: nat, head: nat, contents: seq<T>)
    requires Holds(block, base, size, head, contents) && base + size <= head && base' >= head + |contents|
    ensures Holds(ResetEmpty(block), base', size, head, contents)
  {
    forall o: nat | o < size ensures block.elements[o] == Cell(base' + o, head, contents) {
      assert block.elements[o] == Cell(base + o, head, contents);
    }
  }

  /** A new block: nothing constructed, flags clear. */
  function NewBlock<T>(size: nat): Block<T> {
    Block(0, seq(size, _ => None), seq(size, _ => false))
  }

  lemma HoldsNew<T>(base: nat, size: nat, head: nat, contents: seq<T>, next: nat)
    requires base >= head + |contents|
    ensures Holds(NewBlock(size).(next := next), base, size, head, contents)
  {}

  lemma AllHoldRotate<T>(
    blocks: seq<Block<T>>, ring: seq<nat>, bases: seq<nat>, size: nat, head: nat, contents: seq<T>, base: nat)
    requires AllHold(blocks, ring, bases, size, head, contents) && Linked(blocks, ring) && ring != []
    requires bases[0] + size <= head && base >= head + |contents|
    ensures var blocks' := blocks[ring[0] := ResetEmpty(blocks[ring[0]])];
      AllHold(blocks', ring[1..] + [ring[0]], bases[1..] + [base], size, head, contents)
  {
    hide Holds;
    HoldsReset(blocks[ring[0]], bases[0], base, size, head, contents);
  }

  lemma AllHoldAdd<T>(
    blocks: seq<Block<T>>, ring: seq<nat>, bases: seq<nat>, size: nat, head: nat, contents: seq<T>, base: nat)
    requires AllHold(blocks, ring, bases, size, head, contents) && Linked(blocks, ring) && base >= head + |contents|
    ensures var blocks' := Chained(blocks, LastOf(ring), NewBlock(size));
      AllHold(blocks', ring + [|blocks|], bases + [base], size, head, contents)
  {
    hide Holds;
    var bs := Chained(blocks, LastOf(ring), NewBlock(size));
    HoldsNew(base, size, head, contents, bs[|blocks|].next);
    assert bs[|blocks|] == NewBlock(size).(next := bs[|blocks|].next);
    forall i: nat | i < |ring| ensures Holds(bs[ring[i]], bases[i], size, head, contents) {
      HoldsAnyNext(blocks[ring[i]], bs[ring[i]].next, bases[i], size, head, contents);
      assert bs[ring[i]] == blocks[ring[i]].(next := bs[ring[i]].next);
    }
  }

  lemma HoldsAnyNext<T>(block: Block<T>, next: nat, base: nat, size: nat, head: nat, contents: seq<T>)
    requires Holds(block, base, size, head, contents)
    ensures Holds(block.(next := next), base, size, head, contents)
  {}

  /** Constructing `x` at the tail touches no live cell and nothing outside its block. */
  lemma AllHoldPut<T>(
    blocks: seq<Block<T>>, ring: seq<nat>, bases: seq<nat>, size: nat, head: nat, contents: seq<T>, x: T, o: nat)
    requires AllHold(blocks, ring, bases, size, head, contents) && Linked(blocks, ring) && ring != []
    requires size >= 1 && Spaced(bases, size)
    requires o < size && bases[|ring| - 1] + o == head + |contents|
    ensures var block := blocks[ring[|ring| - 1]];
      && |block.elements| == size && block.elements[o] == None
      && AllHold(blocks[ring[|ring| - 1] := block.(elements := block.elements[o := Some(x)])],
                 ring, bases, size, head, contents + [x])
  {
    var n := |ring|;
    var block := blocks[ring[n - 1]];
    var bs := blocks[ring[n - 1] := block.(elements := block.elements[o := Some(x)])];
    forall i: nat | i < n ensures Holds(bs[ring[i]], bases[i], size, head, contents + [x]) {
      if i < n - 1 {
        Apart(bases, size, i, n - 1);
        HoldsPutElsewhere(blocks[ring[i]], bases[i], size, head, contents, x);
      } else {
        HoldsPut(block, bases[i], size, head, contents, x, o);
      }
    }
  }

  lemma HoldsPutElsewhere<T>(block: Block<T>, base: nat, size: nat, head: nat, contents: seq<T>, x: T)
    requires Holds(block, base, size, head, contents) && base + size <= head + |contents|
    ensures Holds(block, base, size, head, contents + [x])
  {
    CellsPutElsewhere(block.elements, base, size, head, contents, x);
  }

  lemma HoldsPut<T>(block: Block<T>, base: nat, size: nat, head: nat, contents: seq<T>, x: T, o: nat)
    requires Holds(block, base, size, head, contents) && o < size && base + o == head + |contents|
    ensures block.elements[o] == None
    ensures Holds(block.(elements := block.elements[o := Some(x)]), base, size, head, contents + [x])
  {
    CellsPut(block.elements, base, size, head, contents, x, o);
  }

  /** `block` after the element at offset `o` has been moved out and flagged. */
  function Taken<T>(block: Block<T>, o: nat, size: nat): Block<T>
    requires |block.elements| == |block.emptyFlags| == size && o < size
  {
    block.(elements := block.elements[o := None], emptyFlags := block.emptyFlags[size - 1 - o := true])
  }

  lemma HoldsTake<T>(block: Block<T>, base: nat, size: nat, head: nat, contents: seq<T>, o: nat)
    requires Holds(block, base, size, head, contents) && o < size && base + o == head && contents != []
    ensures block.elements[o] == Some(contents[0]) && !block.emptyFlags[size - 1 - o]
    ensures Holds(Taken(block, o, size), base, size, head + 1, contents[1..])
  {
    CellsTake(block.elements, base, size, head, contents, o);
    var block' := Taken(block, o, size);
    forall f: nat | f < size ensures block'.emptyFlags[f] <==> base + (size - 1 - f) < head + 1 {}
  }

  lemma HoldsTakeElsewhere<T>(block: Block<T>, base: nat, size: nat, head: nat, contents: seq<T>)
    requires Holds(block, base, size, head, contents) && !(base <= head < base + size) && contents != []
    ensures Holds(block, base, size, head + 1, contents[1..])
  {
    CellsTakeElsewhere(block.elements, base, size, head, contents);
  }

  lemma AllHoldTake<T>(
    blocks: seq<Block<T>>, ring: seq<nat>, bases: seq<nat>, size: nat, head: nat, contents: seq<T>, i: nat)
    requires AllHold(blocks, ring, bases, size, head, contents) && Linked(blocks, ring) && contents != []
    requires size >= 1 && Spaced(bases, size) && i < |ring| && bases[i] <= head < bases[i] + size
    ensures var block := blocks[ring[i]];
      && |block.elements| == |block.emptyFlags| == size
      && block.elements[head - bases[i]] == Some(contents[0]) && !block.emptyFlags[size - 1 - (head - bases[i])]
      && AllHold(blocks[ring[i] := Taken(block, head - bases[i], size)], ring, bases, size, head + 1, contents[1..])
  {
    var block := blocks[ring[i]];
    HoldsTake(block, bases[i], size, head, contents, head - bases[i]);
    var bs := blocks[ring[i] := Taken(block, head - bases[i], size)];
    forall j: nat | j < |ring| ensures Holds(bs[ring[j]], bases[j], size, head + 1, contents[1..]) {
      if j != i {
        if j < i { Apart(bases, size, j, i); } else { Apart(bases, size, i, j); }
        HoldsTakeElsewhere(blocks[ring[j]], bases[j], size, head, contents);
      }
    }
  }

  /** The flags of a block are all set exactly when the head has passed it. */
  lemma DrainedIffPassed<T>(block: Block<T>, base: nat, size: nat, head: nat, contents: seq<T>)
    requires size >= 1 && Holds(block, base, size, head, contents)
    ensures (forall f: nat | f < |block.emptyFlags| :: block.emptyFlags[f]) <==> base + size <= head
  {
    if base + size > head { assert !block.emptyFlags[0]; }
  }

  /** `is_empty`. */
  method IsEmpty(flags: seq<bool>) returns (r: bool)
    ensures r <==> forall f: nat | f < |flags| :: flags[f]
  {
    for i := 0 to |flags|
      invariant forall f: nat | f < i :: flags[f]
    {
      if !flags[i] { return false; }
    }
    return true;
  }
}
