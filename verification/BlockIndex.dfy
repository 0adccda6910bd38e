/**
 What the block indices of both kinds of producer share: consecutive block bases, what a
 block's cells hold, and the signed-offset lookup of a wrapped index. Indices are machine
 words of `w` bits; blocks hold `Pow2(b)` elements.
 */
module BlockIndex {
  import opened Options
  import opened Bits

  /** The `i`-th slot from `start` in a ring of `size` slots; a whole turn comes back to `start`. */
  function Around(start: nat, i: nat, size: nat): (r: nat)
    requires start < size && i <= size
    ensures r < size
  {
    if start + i < size then start + i else start + i - size
  }

  /** How far slot `p` is from `start`, going round. */
  function Distance(start: nat, p: nat, size: nat): (d: nat)
    requires start < size && p < size
    ensures d < size && Around(start, d, size) == p
  {
    if p >= start then p - start else p + size - start
  }

  /** Consecutive bases, all multiples of the block size. */
  ghost predicate Spaced(bases: seq<nat>, size: nat)
    requires size >= 1
  {
    && (forall i: nat | i < |bases| :: bases[i] % size == 0)
    && (forall i: nat | 0 < i < |bases| :: bases[i] == bases[i - 1] + size)
  }

  /** What the cell of true index `j` holds while the elements from `head` on are `contents`. */
  ghost function Cell<T>(j: nat, head: nat, contents: seq<T>): Option<T> {
    if head <= j < head + |contents| then Some(contents[j - head]) else None
  }

  // ---------------------------------------------------------------------------
  // Bases
  // ---------------------------------------------------------------------------

  lemma {:induction false} Span(bases: seq<nat>, size: nat, i: nat, j: nat)
    requires size >= 1 && Spaced(bases, size) && i <= j < |bases|
    ensures bases[j] == bases[i] + (j - i) * size
    decreases j - i
  {
    if i < j {
      Span(bases, size, i, j - 1);
      assert (j - i) * size == (j - 1 - i) * size + size;
    }
  }

  /** There are no more blocks than the range they cover. */
  lemma FewBlocks(bases: seq<nat>, size: nat)
    requires size >= 1 && Spaced(bases, size) && bases != []
    ensures |bases| <= bases[|bases| - 1] + size - bases[0]
  {
    var n := |bases|;
    Span(bases, size, 0, n - 1);
    MulMono(1, size, n);
    assert n * size == (n - 1) * size + size;
  }

  lemma NextMultiple(x: nat, size: nat)
    requires size >= 1 && x % size == 0
    ensures (x + size) % size == 0
  {
    DivMod(x, size);
    assert x + size == size * (x / size + 1) + 0 by { assert size * (x / size + 1) == size * (x / size) + size; }
    RemainderUnique(x + size, size, x / size + 1, 0);
  }

  lemma SpacedSnoc(bases: seq<nat>, size: nat)
    requires size >= 1 && Spaced(bases, size) && bases != []
    ensures Spaced(bases + [bases[|bases| - 1] + size], size)
  {
    NextMultiple(bases[|bases| - 1], size);
  }

  lemma SpacedOne(base: nat, size: nat)
    requires size >= 1 && base % size == 0
    ensures Spaced([base], size)
  {}

  lemma SpacedDrop(bases: seq<nat>, size: nat)
    requires size >= 1 && Spaced(bases, size) && bases != []
    ensures Spaced(bases[1..], size) && (bases[0] + size) % size == 0
    ensures |bases| > 1 ==> bases[1] == bases[0] + size
  {
    NextMultiple(bases[0], size);
  }

  /** Dropping the first base and adding the next one. */
  lemma SpacedRotate(bases: seq<nat>, size: nat)
    requires size >= 1 && Spaced(bases, size) && bases != []
    ensures var bases' := bases[1..] + [bases[|bases| - 1] + size];
      Spaced(bases', size) && bases'[0] == bases[0] + size
  {
    NextMultiple(bases[|bases| - 1], size);
  }

  /** A multiple of `size` less than `size` above another multiple is not above it. */
  lemma NoMultipleBetween(x: nat, h: nat, size: nat)
    requires size >= 1 && x % size == 0 && h % size == 0 && x < h + size
    ensures x <= h
  {
    DivMod(x, size);
    DivMod(h, size);
    if x / size > h / size { MulMono(h / size + 1, x / size, size); } else { MulMono(x / size, h / size, size); }
  }

  lemma MultiplesSubtract(x: nat, y: nat, size: nat)
    requires size >= 1 && y <= x && x % size == 0 && y % size == 0
    ensures (x - y) % size == 0
  {
    DivMod(x, size);
    DivMod(y, size);
    var q := x / size - y / size;
    assert x - y == size * q + 0 by { assert size * q == x / size * size - y / size * size; }
    RemainderUnique(x - y, size, q, 0);
  }

  /** The block that contains true index `j`. */
  lemma {:induction false} FindBlock(bases: seq<nat>, size: nat, j: nat) returns (i: nat)
    requires size >= 1 && Spaced(bases, size) && bases != []
    requires bases[0] <= j < bases[|bases| - 1] + size
    ensures i < |bases| && bases[i] <= j < bases[i] + size
    decreases |bases|
  {
    var n := |bases|;
    if bases[n - 1] <= j {
      i := n - 1;
    } else {
      assert n > 1;
      i := FindBlock(bases[..n - 1], size, j);
    }
  }

  lemma Multiple(bases: seq<nat>, size: nat, i: nat)
    requires size >= 1 && Spaced(bases, size) && i < |bases|
    ensures bases[i] % size == 0
  {}

  /** Different blocks cover disjoint ranges. */
  lemma Apart(bases: seq<nat>, size: nat, i: nat, j: nat)
    requires size >= 1 && Spaced(bases, size) && i < j < |bases|
    ensures bases[i] + size <= bases[j]
  {
    Span(bases, size, i, j);
    MulMono(1, j - i, size);
  }

  // ---------------------------------------------------------------------------
  // Words
  // ---------------------------------------------------------------------------

  /** `static_cast<signed>` of a word. */
  function Signed(x: nat, w: nat): int
    requires w >= 1
  {
    if x >= Pow2(w - 1) then x - Pow2(w) else x
  }

  /** Division truncating toward zero, by a positive divisor. */
  function TruncDiv(x: int, d: nat): int
    requires d >= 1
  {
    if x >= 0 then x / d else -((-x) / d)
  }

  /**
   The slot that holds the block of word `index`, given that slot `exposed` of `size` slots
   holds the block with base `headBase`: go the signed distance in blocks from there.
   */
  function SlotFor(headBase: nat, exposed: nat, size: nat, index: nat, b: nat, w: nat): nat
    requires w >= 1 && size >= 1
  {
    var blockBase := index - And(index, Pow2(b) - 1);
    var offset := Wrap(TruncDiv(Signed(Wrap(blockBase - headBase, w), w), Pow2(b)), w);
    And(Wrap(exposed + offset, w), size - 1)
  }

  /** Clearing the low bits of a wrapped index gives the wrapped base of its block. */
  lemma BlockBase(j: nat, base: nat, b: nat, w: nat)
    requires b <= w && base <= j < base + Pow2(b) && base % Pow2(b) == 0
    ensures And(Wrap(j, w), Pow2(b) - 1) == j - base
    ensures Wrap(j, w) - And(Wrap(j, w), Pow2(b) - 1) == Wrap(base, w)
  {
    var size, m := Pow2(b), Pow2(w);
    MaskIsRemainder(Wrap(j, w), b);
    Pow2Add(b, w - b);
    RemainderSplits(j, base, size, Pow2(w - b));
  }

  /** `index & ~(BLOCK_SIZE - 1)`. */
  function FloorWord(index: nat, b: nat): int {
    index - And(index, Pow2(b) - 1)
  }

  /** The base of the block that contains `t`. */
  function Floor(t: int, b: nat): int {
    t - t % Pow2(b)
  }

  lemma FloorNear(t: int, b: nat)
    ensures Floor(t, b) <= t < Floor(t, b) + Pow2(b)
  {}

  /** The number of block boundaries in between. */
  lemma FloorsApart(x: int, y: int, b: nat)
    requires x <= y
    ensures y / Pow2(b) >= x / Pow2(b)
    ensures Floor(y, b) - Floor(x, b) == (y / Pow2(b) - x / Pow2(b)) * Pow2(b)
    ensures Floor(y, b) - Floor(x, b) < y - x + Pow2(b)
  {
    var size := Pow2(b);
    var p, q := x / size, y / size;
    assert x == size * p + x % size && y == size * q + y % size;
    assert (q - p) * size == size * q - size * p;
    if q < p { GapAtLeast(q, p, size); }
  }

  lemma GapAtLeast(q: int, p: int, size: nat)
    requires q < p
    ensures size * p >= size * q + size
  {
    MulMono(1, p - q, size);
    assert (p - q) * size == size * p - size * q;
  }

  /** Clearing the low bits commutes with wrapping, also just below zero. */
  lemma FloorWraps(t: int, b: nat, w: nat)
    requires b <= w
    ensures FloorWord(Wrap(t, w), b) == Wrap(Floor(t, b), w)
  {
    var x := Wrap(t, w);
    MaskedWrap(t, b, w);
    MaskIsRemainder(x, b);
    RemainderBelow(x, Pow2(b));
    FloorRemainder(t, t % Pow2(b), Pow2(w));
  }

  lemma FloorRemainder(t: int, r: nat, m: nat)
    requires m >= 1 && r <= t % m
    ensures (t - r) % m == t % m - r
  {
    RemainderUnique(t - r, m, t / m, t % m - r);
  }

  /** Within a block the remainder modulo a multiple of the block size does not wrap. */
  lemma RemainderSplits(j: nat, base: nat, size: nat, c: nat)
    requires size >= 1 && c >= 1 && size * c >= 1 && base <= j < base + size && base % size == 0
    ensures j % (size * c) == base % (size * c) + (j - base)
    ensures j % (size * c) % size == j - base
  {
    var m := size * c;
    var x := base % m;
    RemainderTwice(base, size, c);
    RemainderUnique(m, size, c, 0);
    NextMultiple(x, size);
    NoMultipleBetween(x + size, m, size);
    OffsetRemainder(base, j - base, m);
    DivMod(x, size);
    RemainderUnique(x + (j - base), size, x / size, j - base);
  }

  lemma OffsetRemainder(base: nat, o: nat, m: nat)
    requires m >= 1 && base % m + o < m
    ensures (base + o) % m == base % m + o
  {
    DivMod(base, m);
    RemainderUnique(base + o, m, base / m, base % m + o);
  }

  /** The signed distance survives the wrap of the indices. */
  lemma SignedDistance(base: nat, from: nat, w: nat)
    requires w >= 1 && 0 - Pow2(w - 1) < base - from < Pow2(w - 1)
    ensures Signed(Wrap(Wrap(base, w) - Wrap(from, w), w), w) == base - from
  {
    WrapSub(base, from, w);
    WrapSmall(base - from, w);
  }

  lemma TruncDivExact(x: int, n: int, size: nat)
    requires size >= 1 && x == n * size
    ensures TruncDiv(x, size) == n
  {
    if n >= 0 {
      MulMono(0, n, size);
      RemainderUnique(x, size, n, 0);
    } else {
      MulMono(1, 0 - n, size);
      assert 0 - x == (0 - n) * size;
      RemainderUnique(0 - x, size, 0 - n, 0);
    }
  }

  /** Slot `p` of a ring of `size` slots, for `p` at most one turn away. */
  function Turn(p: int, size: nat): (r: int)
    requires 0 - size <= p < 2 * size
    ensures 0 <= r < size
  {
    if p < 0 then p + size else if p < size then p else p - size
  }

  lemma TurnIsRemainder(p: int, size: nat)
    requires 0 - size <= p < 2 * size
    ensures p % size == Turn(p, size)
  {
    RemainderUnique(p, size, if p < 0 then -1 else if p < size then 0 else 1, Turn(p, size));
  }

  /** Going `d` blocks from base `from` leads `d` slots from `exposed`, through every wrap-around. */
  lemma SlotMoves(from: nat, base: nat, j: nat, d: int, exposed: nat, b: nat, k: nat, w: nat)
    requires w >= 1 && b <= w && k <= w && exposed < Pow2(k) && 0 - Pow2(k) < d < Pow2(k)
    requires base % Pow2(b) == 0 && base <= j < base + Pow2(b)
    requires base - from == d * Pow2(b) && 0 - Pow2(w - 1) < base - from < Pow2(w - 1)
    ensures SlotFor(Wrap(from, w), exposed, Pow2(k), Wrap(j, w), b, w) == Turn(exposed + d, Pow2(k))
  {
    hide And, Wrap, TruncDiv, Signed, Pow2, Turn;
    BlockBase(j, base, b, w);
    BlocksBetween(from, base, d, b, w);
    WrapSum(d, exposed, w);
    MaskedWrap(exposed + d, k, w);
    TurnIsRemainder(exposed + d, Pow2(k));
  }

  /** The signed distance in blocks between two wrapped bases. */
  lemma BlocksBetween(from: nat, base: nat, d: int, b: nat, w: nat)
    requires w >= 1 && base - from == d * Pow2(b) && 0 - Pow2(w - 1) < base - from < Pow2(w - 1)
    ensures TruncDiv(Signed(Wrap(Wrap(base, w) - Wrap(from, w), w), w), Pow2(b)) == d
  {
    hide Wrap, TruncDiv, Signed, Pow2;
    SignedDistance(base, from, w);
    TruncDivExact(base as int - from as int, d, Pow2(b));
  }

  /** Taking an element closes the reservation: count and head advance together. */
  lemma ReservationClosed(count: nat, overcommit: nat, w: nat)
    ensures WordSub(Wrap(count + 1, w), overcommit, w) == Wrap(WordSub(count, overcommit, w) + 1, w)
  {
    WrapSum(count + 1, 0 - overcommit, w);
    WrapSum(count - overcommit, 1, w);
  }

  // ---------------------------------------------------------------------------
  // Cells
  // ---------------------------------------------------------------------------

  /** The cells of the block with base `base`. */
  ghost predicate Cells<T>(elements: seq<Option<T>>, base: nat, size: nat, head: nat, contents: seq<T>) {
    |elements| == size && forall o: nat | o < size :: elements[o] == Cell(base + o, head, contents)
  }

  /** Cells away from the tail do not notice a new element. */
  lemma CellsPutElsewhere<T>(elements: seq<Option<T>>, base: nat, size: nat, head: nat, contents: seq<T>, x: T)
    requires Cells(elements, base, size, head, contents) && !(base <= head + |contents| < base + size)
    ensures Cells(elements, base, size, head, contents + [x])
  {
    forall o: nat | o < size ensures elements[o] == Cell(base + o, head, contents + [x]) {}
  }

  lemma CellsPut<T>(elements: seq<Option<T>>, base: nat, size: nat, head: nat, contents: seq<T>, x: T, o: nat)
    requires Cells(elements, base, size, head, contents) && o < size && base + o == head + |contents|
    ensures elements[o] == None && Cells(elements[o := Some(x)], base, size, head, contents + [x])
  {
    var next := elements[o := Some(x)];
    forall p: nat | p < size ensures next[p] == Cell(base + p, head, contents + [x]) {}
  }

  lemma CellsTake<T>(elements: seq<Option<T>>, base: nat, size: nat, head: nat, contents: seq<T>, o: nat)
    requires Cells(elements, base, size, head, contents) && o < size && base + o == head && contents != []
    ensures elements[o] == Some(contents[0]) && Cells(elements[o := None], base, size, head + 1, contents[1..])
  {
    var next := elements[o := None];
    forall p: nat | p < size ensures next[p] == Cell(base + p, head + 1, contents[1..]) {}
  }

  lemma CellsTakeElsewhere<T>(elements: seq<Option<T>>, base: nat, size: nat, head: nat, contents: seq<T>)
    requires Cells(elements, base, size, head, contents) && !(base <= head < base + size) && contents != []
    ensures Cells(elements, base, size, head + 1, contents[1..])
  {
    forall p: nat | p < size ensures elements[p] == Cell(base + p, head + 1, contents[1..]) {}
  }
}
