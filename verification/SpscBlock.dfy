/**
 One low-level circular buffer ("block") of the single-producer single-consumer queue:
 `front`/`localTail` belong to the consumer, `tail`/`localFront`/`next` to the producer.
 A slot is `Some` while it holds a constructed element.
 */
module SpscBlock {
  import opened Options
  import opened Bits

  datatype Block<T> = Block(
    front: nat, localTail: nat,
    tail: nat, localFront: nat, next: nat,
    data: seq<Option<T>>)

  /**
   Auxiliary record of a block: the elements it holds in order, how many of them the
   consumer's `localTail` already covers, and how many slots the consumer has freed
   since the producer last read `front`.
   */
  datatype Track<T> = Track(items: seq<T>, known: nat, freed: nat)

  /** The `i`-th slot counted from `front` around a ring of `size` slots. */
  function At(front: nat, i: nat, size: nat): (r: nat)
    requires front < size && i < size
    ensures r < size
  {
    if front + i < size then front + i else front + i - size
  }

  predicate InRange<T>(b: Block<T>) {
    && b.front < |b.data| && b.localTail < |b.data|
    && b.tail < |b.data| && b.localFront < |b.data|
  }

  /** What slot number `i` (from `front`) holds. */
  ghost function Slot<T>(items: seq<T>, held: bool, extra: Option<T>, i: nat): Option<T> {
    if i < |items| then (if held && i == 0 then None else Some(items[i]))
    else if i == |items| then extra
    else None
  }

  /**
   The block represents `a.items`. `held`: the consumer has moved the first element out
   but not yet stored `front`. `extra`: the producer has constructed an element but not
   yet stored `tail`. All other slots are free of objects.
   */
  ghost predicate BlockOk<T>(b: Block<T>, a: Track<T>, held: bool, extra: Option<T>) {
    && InRange(b) && |b.data| >= 2
    && |a.items| + a.freed + (if extra.Some? then 1 else 0) <= |b.data| - 1
    && a.known <= |a.items|
    && b.tail == At(b.front, |a.items|, |b.data|)
    && b.localTail == At(b.front, a.known, |b.data|)
    && b.front == At(b.localFront, a.freed, |b.data|)
    && forall i: nat :: i < |b.data| ==>
         b.data[At(b.front, i, |b.data|)] == Slot(a.items, held, extra, i)
  }

  lemma BlockFacts<T>(b: Block<T>, a: Track<T>, held: bool, extra: Option<T>)
    requires BlockOk(b, a, held, extra)
    ensures InRange(b) && |b.data| >= 2 && a.known <= |a.items| && |a.items| + a.freed <= |b.data| - 1
  {}

  /** The producer's test "this block has room" against its shadow is never wrong. */
  lemma RoomTest<T>(b: Block<T>, a: Track<T>, held: bool)
    requires BlockOk(b, a, held, None)
    ensures Inc(b.tail, |b.data|) != b.localFront <==> |a.items| + a.freed + 1 <= |b.data| - 1
    ensures Inc(b.tail, |b.data|) != b.front <==> |a.items| + 1 <= |b.data| - 1
  {}

  /** The consumer's emptiness tests, against the shadow and against the real tail. */
  lemma EmptyTest<T>(b: Block<T>, a: Track<T>, held: bool, extra: Option<T>)
    requires BlockOk(b, a, held, extra)
    ensures b.front != b.localTail <==> a.known > 0
    ensures b.front != b.tail <==> |a.items| > 0
  {}

  lemma RefreshFront<T>(b: Block<T>, a: Track<T>, held: bool, extra: Option<T>)
    requires BlockOk(b, a, held, extra)
    ensures BlockOk(b.(localFront := b.front), a.(freed := 0), held, extra)
  {}

  lemma RefreshTail<T>(b: Block<T>, a: Track<T>, held: bool, extra: Option<T>)
    requires BlockOk(b, a, held, extra)
    ensures BlockOk(b.(localTail := b.tail), a.(known := |a.items|), held, extra)
  {}

  /** Slots at different offsets are different. */
  lemma AtInjective(front: nat, i: nat, j: nat, size: nat)
    requires front < size && i < size && j < size && At(front, i, size) == At(front, j, size)
    ensures i == j
  {}

  /** The slot at `tail` holds no object, so constructing there overwrites nothing. */
  lemma Construct<T>(b: Block<T>, a: Track<T>, held: bool, x: T)
    requires BlockOk(b, a, held, None) && |a.items| + a.freed + 1 <= |b.data| - 1
    ensures b.data[b.tail] == None
    ensures BlockOk(b.(data := b.data[b.tail := Some(x)]), a, held, Some(x))
  {
    var b' := b.(data := b.data[b.tail := Some(x)]);
    forall i: nat | i < |b.data|
      ensures b'.data[At(b.front, i, |b.data|)] == Slot(a.items, held, Some(x), i)
    {
      if At(b.front, i, |b.data|) == b.tail { AtInjective(b.front, i, |a.items|, |b.data|); }
    }
  }

  lemma Publish<T>(b: Block<T>, a: Track<T>, held: bool, x: T)
    requires BlockOk(b, a, held, Some(x)) && (held ==> |a.items| > 0)
    ensures BlockOk(b.(tail := Inc(b.tail, |b.data|)), a.(items := a.items + [x]), held, None)
  {
    forall i: nat | i < |b.data|
      ensures Slot(a.items + [x], held, None, i) == Slot(a.items, held, Some(x), i)
    {}
  }

  /** The slot at `front` holds the first element; moving it out leaves the rest alone. */
  lemma Take<T>(b: Block<T>, a: Track<T>, extra: Option<T>)
    requires BlockOk(b, a, false, extra) && |a.items| > 0
    ensures b.data[b.front] == Some(a.items[0])
    ensures BlockOk(b.(data := b.data[b.front := None]), a, true, extra)
  {
    assert At(b.front, 0, |b.data|) == b.front;
    var b' := b.(data := b.data[b.front := None]);
    forall i: nat | i < |b.data|
      ensures b'.data[At(b.front, i, |b.data|)] == Slot(a.items, true, extra, i)
    {
      if At(b.front, i, |b.data|) == b.front { AtInjective(b.front, i, 0, |b.data|); }
    }
  }

  function Released<T>(a: Track<T>): Track<T> {
    if |a.items| == 0 || a.known == 0 then a
    else Track(a.items[1..], a.known - 1, a.freed + 1)
  }

  lemma Release<T>(b: Block<T>, a: Track<T>, extra: Option<T>)
    requires BlockOk(b, a, true, extra) && a.known > 0
    ensures BlockOk(b.(front := Inc(b.front, |b.data|)), Released(a), false, extra)
  {
    var b', a' := b.(front := Inc(b.front, |b.data|)), Released(a);
    var n := |b.data|;
    forall i: nat | i < n
      ensures b'.data[At(b'.front, i, n)] == Slot(a'.items, false, extra, i)
    {
      if i + 1 < n {
        assert At(b'.front, i, n) == At(b.front, i + 1, n);
        assert Slot(a.items, true, extra, i + 1) == Slot(a'.items, false, extra, i);
      } else {
        assert At(b'.front, i, n) == At(b.front, 0, n);
      }
    }
  }
}
