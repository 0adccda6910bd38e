/**
 Dequeueing with a consumer token, with whole calls: the token remembers a producer, moves
 on when all consumers are told to rotate, and walks the circular producer list when its
 producer runs dry. `queues[i]` is what producer number `i` holds, counted from
 `producerListTail` along `next_prod`.
 */
module ConsumerToken {
  import opened Options
  import opened Bits
  import opened BlockIndex

  // ---------------------------------------------------------------------------
  // The elements in walking order
  // ---------------------------------------------------------------------------

  function Flat<T>(queues: seq<seq<T>>): seq<T> {
    if queues == [] then [] else queues[0] + Flat(queues[1..])
  }

  /** All elements, producer by producer, starting at producer `c`. */
  function Line<T>(queues: seq<seq<T>>, c: nat): seq<T>
    requires c < |queues|
  {
    Flat(queues[c..] + queues[..c])
  }

  lemma RotateAt<T>(queues: seq<seq<T>>, c: nat, i: nat)
    requires c < |queues| && i < |queues|
    ensures (queues[c..] + queues[..c])[i] == queues[Around(c, i, |queues|)]
  {}

  lemma RotateUpdate<T>(queues: seq<seq<T>>, c: nat, i: nat, q: seq<T>)
    requires c < |queues| && i < |queues|
    ensures var queues' := queues[Around(c, i, |queues|) := q];
      queues'[c..] + queues'[..c] == (queues[c..] + queues[..c])[i := q]
  {}

  /** Taking from the front of the first non-empty queue takes from the front of them all. */
  lemma {:induction false} FlatTake<T>(r: seq<seq<T>>, k: nat, t: nat)
    requires k < |r| && t <= |r[k]| && forall j: nat | j < k :: r[j] == []
    ensures Flat(r) == r[k][..t] + Flat(r[k := r[k][t..]])
    decreases k
  {
    if k == 0 {
      assert r[0 := r[0][t..]][1..] == r[1..];
    } else {
      FlatTake(r[1..], k - 1, t);
      assert r[k := r[k][t..]][1..] == r[1..][k - 1 := r[1..][k - 1][t..]];
    }
  }

  lemma {:induction false} FlatEmpty<T>(r: seq<seq<T>>)
    requires forall j: nat | j < |r| :: r[j] == []
    ensures Flat(r) == []
  {
    if r != [] { FlatEmpty(r[1..]); }
  }

  /** The first `k` producers from `c` on have run dry. */
  ghost predicate Dry<T>(queues: seq<seq<T>>, c: nat, k: nat)
    requires c < |queues| && k <= |queues|
  {
    forall j: nat | j < k :: queues[Around(c, j, |queues|)] == []
  }

  lemma LineTake<T>(queues: seq<seq<T>>, c: nat, k: nat, t: nat)
    requires c < |queues| && k < |queues| && Dry(queues, c, k)
    requires t <= |queues[Around(c, k, |queues|)]|
    ensures var i := Around(c, k, |queues|);
      Line(queues, c) == queues[i][..t] + Line(queues[i := queues[i][t..]], c)
  {
    var r, i := queues[c..] + queues[..c], Around(c, k, |queues|);
    forall j: nat | j <= k ensures r[j] == queues[Around(c, j, |queues|)] { RotateAt(queues, c, j); }
    FlatTake(r, k, t);
    RotateUpdate(queues, c, k, queues[i][t..]);
  }

  lemma AllDry<T>(queues: seq<seq<T>>, c: nat)
    requires c < |queues| && Dry(queues, c, |queues|)
    ensures Line(queues, c) == [] && forall i: nat | i < |queues| :: queues[i] == []
  {
    forall i: nat | i < |queues| ensures queues[i] == [] {
      assert queues[Around(c, Distance(c, i, |queues|), |queues|)] == [];
    }
    FlatEmpty(queues[c..] + queues[..c]);
  }

  /** Each queue has lost a prefix. */
  ghost predicate Suffixes<T>(queues: seq<seq<T>>, queues0: seq<seq<T>>) {
    && |queues| == |queues0|
    && forall i: nat | i < |queues| ::
         |queues[i]| <= |queues0[i]| && queues[i] == queues0[i][|queues0[i]| - |queues[i]|..]
  }

  lemma SuffixTake<T>(queues: seq<seq<T>>, queues0: seq<seq<T>>, i: nat, t: nat)
    requires Suffixes(queues, queues0) && i < |queues| && t <= |queues[i]|
    ensures Suffixes(queues[i := queues[i][t..]], queues0)
  {}

  /** The producers from number `k` on, counted from `c`, are as they were. */
  ghost predicate Untouched<T>(queues: seq<seq<T>>, queues0: seq<seq<T>>, c: nat, k: nat)
    requires |queues| == |queues0| && c < |queues|
  {
    forall i: nat | i < |queues| && Distance(c, i, |queues|) >= k :: queues[i] == queues0[i]
  }

  /**
   Where a walk from `c` has left the token: at `c` if nothing was found, otherwise at the last
   producer that gave elements, with their number noted; none behind it was touched.
   */
  ghost predicate LeftAt<T>(
    queues: seq<seq<T>>, queues0: seq<seq<T>>, c: nat, p: nat, items: nat, items0: nat, found: bool)
  {
    && |queues| == |queues0| && c < |queues| && p < |queues|
    && if !found then p == c && items == items0 && queues == queues0
       else
         && p != c && |queues[p]| < |queues0[p]| && items == Wrap(|queues0[p]| - |queues[p]|, 32)
         && Untouched(queues, queues0, c, Distance(c, p, |queues|) + 1)
  }

  // ---------------------------------------------------------------------------
  // The queue and its tokens
  // ---------------------------------------------------------------------------

  /** `ptr->next_prod()`, wrapping to the tail, in a list of `n` producers. */
  function Next(ptr: nat, n: nat): (r: nat)
    requires ptr < n
    ensures r < n
  {
    Inc(ptr, n)
  }

  class Token {
    const initialOffset: nat
    var lastKnownGlobalOffset: nat
    var itemsConsumedFromCurrent: nat
    var currentProducer: nat
    var desiredProducer: Option<nat>

    constructor (initialOffset: nat)
      ensures desiredProducer == None && lastKnownGlobalOffset == 0xFFFF_FFFF && this.initialOffset == initialOffset
    {
      this.initialOffset := initialOffset;
      lastKnownGlobalOffset, itemsConsumedFromCurrent, currentProducer := 0xFFFF_FFFF, 0, 0;
      desiredProducer := None;
    }
  }

  class Queue<T> {
    const quota: nat                // EXPLICIT_CONSUMER_CONSUMPTION_QUOTA_BEFORE_ROTATE
    var queues: seq<seq<T>>
    var globalOffset: nat           // globalExplicitConsumerOffset

    constructor (quota: nat, queues: seq<seq<T>>)
      ensures this.queues == queues && globalOffset == 0 && this.quota == quota
    {
      this.quota, this.queues, this.globalOffset := quota, queues, 0;
    }

    /** A token points at producers that exist. */
    ghost predicate Fits(token: Token)
      reads this, token
    {
      token.desiredProducer.Some? ==> token.desiredProducer.value < |queues| && token.currentProducer < |queues|
    }

    /** `ProducerBase::dequeue_bulk` with nothing running beside it. */
    method DequeueFrom(i: nat, max: nat) returns (out: seq<T>)
      requires i < |queues|
      modifies this`queues
      ensures out == old(queues[i])[..Min(max, old(|queues[i]|))]
      ensures queues == old(queues)[i := old(queues[i])[|out|..]]
    {
      var t := Min(max, |queues[i]|);
      out := queues[i][..t];
      queues := queues[i := queues[i][t..]];
    }

    /** `count` steps along the circular list. */
    method Advance(from: nat, count: nat) returns (r: nat)
      requires from < |queues|
      ensures r == (from + count) % |queues|
    {
      r := from;
      RemainderUnique(from, |queues|, 0, from);
      for i := 0 to count
        invariant r < |queues| && r == (from + i) % |queues|
      {
        StepRemainder(from + i, |queues|);
        r := Next(r, |queues|);
      }
    }

    /** The producer a token should be at, given the rotations it has missed. */
    function Designated(token: Token): nat
      reads this, token
      requires |queues| > 0
    {
      var n := |queues|;
      var from := if token.desiredProducer.Some? then token.desiredProducer.value
                  else n - 1 - token.initialOffset % n;
      (from + WordSub(globalOffset, token.lastKnownGlobalOffset, 32)) % n
    }

    /** A token that has missed `r` rotations moves `r` producers on from where it was, also when the count wraps. */
    lemma RotationsMove(token: Token, r: nat)
      requires Fits(token) && token.desiredProducer.Some? && |queues| > 0 && r < Pow2(32)
      requires globalOffset == Wrap(token.lastKnownGlobalOffset + r, 32) && token.lastKnownGlobalOffset < Pow2(32)
      ensures Designated(token) == (token.desiredProducer.value + r) % |queues|
    {
      hide Wrap, WordSub, Pow2;
      MissedRotations(token.lastKnownGlobalOffset, r);
      assert WordSub(globalOffset, token.lastKnownGlobalOffset, 32) == r;
    }

    /** Tokens that start together are spread: they meet only if their numbers agree modulo the producers. */
    lemma TokensSpread(a: Token, b: Token)
      requires |queues| > 0 && a.desiredProducer == None && b.desiredProducer == None
      requires a.lastKnownGlobalOffset == b.lastKnownGlobalOffset
      ensures Designated(a) == Designated(b) <==> a.initialOffset % |queues| == b.initialOffset % |queues|
    {
      var n := |queues|;
      var d := WordSub(globalOffset, a.lastKnownGlobalOffset, 32);
      hide WordSub;
      SamePlace(n - 1 - a.initialOffset % n, n - 1 - b.initialOffset % n, d, n);
    }

    /** `update_current_producer_after_rotation`. */
    method UpdateAfterRotation(token: Token) returns (ok: bool)
      requires Fits(token)
      modifies token
      ensures Fits(token) && ok == (|queues| > 0)
      ensures ok ==>
        && token.desiredProducer == Some(old(Designated(token))) && token.currentProducer == old(Designated(token))
        && token.lastKnownGlobalOffset == globalOffset && token.itemsConsumedFromCurrent == 0
    {
      var n := |queues|;
      if n == 0 { return false; }
      ghost var target := Designated(token);
      if token.desiredProducer == None {
        var start := Advance(0, n - 1 - token.initialOffset % n);
        RemainderUnique(n - 1 - token.initialOffset % n, n, 0, n - 1 - token.initialOffset % n);
        token.desiredProducer := Some(start);
      }
      var delta := WordSub(globalOffset, token.lastKnownGlobalOffset, 32);
      ReducedDelta(token.desiredProducer.value, delta, n);
      if delta >= n { delta := delta % n; }
      var target' := Advance(token.desiredProducer.value, delta);
      token.desiredProducer := Some(target');
      token.lastKnownGlobalOffset := globalOffset;
      token.currentProducer := target';
      token.itemsConsumedFromCurrent := 0;
      return true;
    }

    /** The token needs no update: it has a producer and has seen the last rotation. */
    predicate Current(token: Token)
      reads this, token
    {
      token.desiredProducer.Some? && token.lastKnownGlobalOffset == globalOffset
    }

    /**
     `try_dequeue_bulk` with a token: returns min(max, total) elements, namely the first ones
     in walking order from the token's producer, each taken from the front of its queue. A
     token that took its quota from one producer makes everybody rotate.
     */
    method TryDequeueBulk(token: Token, max: nat) returns (out: seq<T>)
      requires Fits(token) && max > 0
      modifies this, token
      ensures Fits(token) && Suffixes(queues, old(queues))
      ensures old(queues) == [] ==> out == []
      ensures old(queues) != [] ==>
        var c := if old(Current(token)) then old(token.currentProducer) else old(Designated(token));
        && c < |queues| && Splits(Line(old(queues), c), out, Line(queues, c))
        && |out| == Min(max, |Line(old(queues), c)|)
        && token.lastKnownGlobalOffset == old(globalOffset)
        && token.desiredProducer == (if old(Current(token)) then old(token.desiredProducer) else Some(c))
        && (|old(queues)[c]| < max ==>
              var consumed := if old(Current(token)) then old(token.itemsConsumedFromCurrent) else 0;
              && globalOffset == old(globalOffset) && queues[c] == []
              && LeftAt(queues, old(queues)[c := []], c, token.currentProducer, token.itemsConsumedFromCurrent,
                        Wrap(consumed + |old(queues)[c]|, 32), |out| > |old(queues)[c]|))
        && (|old(queues)[c]| >= max ==>
              var consumed := if old(Current(token)) then old(token.itemsConsumedFromCurrent) else 0;
              && token.currentProducer == c && token.itemsConsumedFromCurrent == Wrap(consumed + max, 32)
              && globalOffset == if Wrap(consumed + max, 32) >= quota
                                 then Wrap(old(globalOffset) + 1, 32) else old(globalOffset))
    {
      hide Line, Suffixes, Wrap, Pow2, LeftAt;
      if token.desiredProducer == None || token.lastKnownGlobalOffset != globalOffset {
        var ok := UpdateAfterRotation(token);
        if !ok {
          SuffixSelf(queues);
          return [];
        }
      }
      ghost var c := token.currentProducer;
      out := DequeueFrom(token.currentProducer, max);
      FirstTaken(old(queues), c, |out|);
      if |out| == max {
        token.itemsConsumedFromCurrent := Wrap(token.itemsConsumedFromCurrent + max, 32);
        if token.itemsConsumedFromCurrent >= quota { globalOffset := Wrap(globalOffset + 1, 32); }
        Lengths(Line(old(queues), c), out, Line(queues, c));
        return out;
      }
      token.itemsConsumedFromCurrent := Wrap(token.itemsConsumedFromCurrent + |out|, 32);
      ghost var first, queues1 := out, queues;
      var more := Walk(token, max - |out|, c);
      out := out + more;
      SuffixTrans(queues, queues1, old(queues));
      StaysEmpty(queues, queues1, c);
      Split(first, more, Line(queues, c), Line(queues1, c), Line(old(queues), c));
      Lengths(Line(old(queues), c), first, Line(queues1, c));
    }

    /** Take what producer `ptr` has, up to `max`; the first `k` producers from `c` on are dry. */
    method Visit(ptr: nat, max: nat, ghost c: nat, ghost k: nat) returns (dequeued: seq<T>)
      requires c < |queues| && ptr < |queues| && k <= |queues| && Dry(queues, c, k)
      requires k < |queues| ==> ptr == Around(c, k, |queues|)
      modifies this`queues
      ensures |queues| == old(|queues|) && Suffixes(queues, old(queues))
      ensures |dequeued| <= max && Splits(Line(old(queues), c), dequeued, Line(queues, c))
      ensures |dequeued| < max ==> Dry(queues, c, if k < |queues| then k + 1 else k)
      ensures k == |queues| ==> dequeued == []
      ensures |dequeued| <= old(|queues[ptr]|) && queues == old(queues)[ptr := old(queues[ptr])[|dequeued|..]]
    {
      ghost var before, t := queues, Min(max, |queues[ptr]|);
      if k == |queues| { Everything(queues, c, ptr); } else { LineTake(queues, c, k, t); }
      SuffixSelf(queues);
      SuffixTake(queues, queues, ptr, t);
      dequeued := DequeueFrom(ptr, max);
      if |dequeued| < max {
        assert before[ptr][|dequeued|..] == [];
        StillDry(before, queues, c, k, ptr);
      }
    }

    /**
     The walk has come to `ptr`: the first `k` producers from `c` on are dry, the token's
     producer is one of them, and `out` has been taken from the front of the line.
     */
    ghost predicate Walking(token: Token, ptr: nat, c: nat, k: nat, out: seq<T>, queues0: seq<seq<T>>)
      reads this`queues, token`currentProducer
    {
      var n := |queues|;
      && n == |queues0| && c < n && ptr < n && token.currentProducer < n && 1 <= k <= n
      && (k < n ==> ptr == Around(c, k, n) && Distance(c, token.currentProducer, n) < k)
      && Dry(queues, c, k) && Suffixes(queues, queues0)
      && Splits(Line(queues0, c), out, Line(queues, c))
    }

    /** One turn: visit `ptr`, move the stopping point there if elements were found, step on. */
    method Turn(
      token: Token, ptr: nat, max: nat, ghost c: nat, ghost k: nat, ghost out: seq<T>, ghost queues0: seq<seq<T>>)
      returns (dequeued: seq<T>, ptr': nat, ghost k': nat)
      requires Walking(token, ptr, c, k, out, queues0) && ptr != token.currentProducer && max > 0
      requires Untouched(queues, queues0, c, k)
      modifies this`queues, token`currentProducer, token`itemsConsumedFromCurrent
      ensures |queues| == |queues0| && token.currentProducer < |queues| && c < |queues|
      ensures |dequeued| <= max && Suffixes(queues, queues0)
      ensures Splits(Line(queues0, c), out + dequeued, Line(queues, c))
      ensures |dequeued| < max ==> Walking(token, ptr', c, k', out + dequeued, queues0)
      ensures ptr < |queues| && ptr' < |queues|
      ensures dequeued == [] ==>
        && token.currentProducer == old(token.currentProducer)
        && Distance(ptr', token.currentProducer, |queues|) < Distance(ptr, token.currentProducer, |queues|)
        && token.itemsConsumedFromCurrent == old(token.itemsConsumedFromCurrent) && queues == old(queues)
      ensures Untouched(queues, queues0, c, k')
      ensures dequeued != [] ==>
        LeftAt(queues, queues0, c, token.currentProducer, token.itemsConsumedFromCurrent, 0, true)
    {
      hide Line, Suffixes, Dry, Wrap, Pow2, Splits, Around, Distance, LeftAt, Untouched;
      ghost var before := queues;
      dequeued := Visit(ptr, max, c, k);
      SuffixTrans(queues, before, queues0);
      Split(out, dequeued, Line(queues, c), Line(before, c), Line(queues0, c));
      StepOn(c, k, ptr, |queues|);
      if dequeued != [] {
        token.currentProducer := ptr;
        token.itemsConsumedFromCurrent := Wrap(|dequeued|, 32);
      }
      if k < |queues| {
        Touched(queues, before, queues0, c, k, ptr, dequeued);
      } else {
        assert queues == before;
      }
      Nearer(ptr, token.currentProducer, |queues|);
      ptr' := Next(ptr, |queues|);
      k' := if k < |queues| then k + 1 else k;
    }

    /** The walk has come to `ptr`, with the token where it should be. */
    ghost predicate OnWalk(
      token: Token, ptr: nat, c: nat, k: nat, out: seq<T>, queues0: seq<seq<T>>, items0: nat)
      reads this`queues, token`currentProducer, token`itemsConsumedFromCurrent
    {
      && Walking(token, ptr, c, k, out, queues0) && Untouched(queues, queues0, c, k)
      && LeftAt(queues, queues0, c, token.currentProducer, token.itemsConsumedFromCurrent, items0, out != [])
    }

    /** One turn of the walk: either it goes on, or all that was wanted has been taken. */
    method WalkTurn(token: Token, ptr: nat, max: nat, ghost c: nat, ghost k: nat, ghost out: seq<T>,
                    ghost queues0: seq<seq<T>>, ghost items0: nat)
      returns (dequeued: seq<T>, ptr': nat, ghost k': nat)
      requires OnWalk(token, ptr, c, k, out, queues0, items0) && ptr != token.currentProducer && max > 0
      modifies this`queues, token`currentProducer, token`itemsConsumedFromCurrent
      ensures |dequeued| <= max && |queues| == |queues0| && ptr < |queues|
      ensures token.currentProducer < |queues| && ptr' < |queues| && c < |queues|
      ensures |dequeued| < max ==> OnWalk(token, ptr', c, k', out + dequeued, queues0, items0)
      ensures |dequeued| == max ==>
        && Suffixes(queues, queues0) && Splits(Line(queues0, c), out + dequeued, Line(queues, c))
        && LeftAt(queues, queues0, c, token.currentProducer, token.itemsConsumedFromCurrent, items0, true)
      ensures dequeued == [] ==>
        && token.currentProducer == old(token.currentProducer)
        && Distance(ptr', token.currentProducer, |queues|) < Distance(ptr, token.currentProducer, |queues|)
    {
      hide Line, Suffixes, Splits, Around, Distance, LeftAt, Untouched, Wrap, Pow2, Dry, Inc, Walking;
      dequeued, ptr', k' := Turn(token, ptr, max, c, k, out, queues0);
      if dequeued != [] {
        FoundSome(queues, queues0, c, token.currentProducer, token.itemsConsumedFromCurrent, items0);
      } else {
        assert out + dequeued == out;
      }
    }

    /**
     The walk round the circular list. Its stopping point, the token's producer, moves each
     time elements are found; the elements still wanted and the distance to the stopping
     point decrease lexicographically.
     */
    method Walk(token: Token, wanted: nat, ghost c: nat) returns (out: seq<T>)
      requires wanted > 0 && c < |queues| && token.currentProducer == c && queues[c] == []
      modifies this`queues, token`currentProducer, token`itemsConsumedFromCurrent
      ensures Suffixes(queues, old(queues)) && token.currentProducer < |queues| == old(|queues|)
      ensures Splits(Line(old(queues), c), out, Line(queues, c)) && |out| == Min(wanted, |Line(old(queues), c)|)
      ensures LeftAt(queues, old(queues), c, token.currentProducer, token.itemsConsumedFromCurrent,
                     old(token.itemsConsumedFromCurrent), out != [])
    {
      hide *;
      var max := wanted;
      var ptr: nat := Next(token.currentProducer, |queues|);
      out := [];
      ghost var k: nat, items0 := 1, token.itemsConsumedFromCurrent;
      StartWalking(token, ptr);
      while ptr != token.currentProducer
        invariant |queues| == old(|queues|) && ptr < |queues| && token.currentProducer < |queues|
        invariant OnWalk(token, ptr, c, k, out, old(queues), items0)
        invariant max > 0 && |out| + max == wanted
        decreases max, Distance(ptr, token.currentProducer, |queues|)
      {
        var dequeued;
        dequeued, ptr, k := WalkTurn(token, ptr, max, c, k, out, old(queues), items0);
        out := out + dequeued;
        if |dequeued| == max {
          Lengths(Line(old(queues), c), out, Line(queues, c));
          Smaller(wanted, |Line(old(queues), c)|);
          return;
        }
        max := max - |dequeued|;
      }
      WalkedRound(token, c, k, out, old(queues), items0);
      Smaller(wanted, |Line(old(queues), c)|);
    }

    lemma StartWalking(token: Token, ptr: nat)
      requires token.currentProducer < |queues| && queues[token.currentProducer] == []
      requires ptr == Next(token.currentProducer, |queues|)
      ensures OnWalk(token, ptr, token.currentProducer, 1, [], queues, token.itemsConsumedFromCurrent)
    {
      AtStart(queues, token.currentProducer, token.itemsConsumedFromCurrent);
      FirstStep(token.currentProducer, |queues|);
      FirstDry(queues, token.currentProducer);
    }

    /** Back at the stopping point, everything is dry. */
    lemma WalkedRound(token: Token, c: nat, k: nat, out: seq<T>, queues0: seq<seq<T>>, items0: nat)
      requires OnWalk(token, token.currentProducer, c, k, out, queues0, items0)
      ensures LeftAt(queues, queues0, c, token.currentProducer, token.itemsConsumedFromCurrent, items0, out != [])
      ensures Suffixes(queues, queues0) && c < |queues| == |queues0|
      ensures Splits(Line(queues0, c), out, Line(queues, c)) && |out| == |Line(queues0, c)|
    {
      hide Line, Suffixes, Splits, Dry, LeftAt, Untouched;
      if k < |queues| { NotMet(c, k, token.currentProducer, |queues|); }
      AllDry(queues, c);
      Lengths(Line(queues0, c), out, Line(queues, c));
    }
  }

  lemma StaysEmpty<T>(queues: seq<seq<T>>, queues0: seq<seq<T>>, c: nat)
    requires Suffixes(queues, queues0) && c < |queues0| && queues0[c] == []
    ensures c < |queues| && queues[c] == []
  {}

  lemma MissedRotations(last: nat, r: nat)
    requires last < Pow2(32) && r < Pow2(32)
    ensures WordSub(Wrap(last + r, 32), last, 32) == r
  {
    hide Pow2;
    WrapSmall(last, 32);
    WrapSub(last + r, last, 32);
    WrapSmall(r, 32);
  }

  /** Places less than a turn apart stay apart when both move on. */
  lemma SamePlace(x: nat, y: nat, d: nat, n: nat)
    requires x < n && y < n
    ensures (x + d) % n == (y + d) % n <==> x == y
  {
    if (x + d) % n == (y + d) % n {
      assert x - y == n * ((x + d) / n - (y + d) / n) by {
        assert n * ((x + d) / n - (y + d) / n) == n * ((x + d) / n) - n * ((y + d) / n);
      }
      SmallMultiple(n, (x + d) / n - (y + d) / n);
    }
  }

  lemma Smaller(a: nat, b: nat)
    ensures Min(a, b) == if a <= b then a else b
  {}

  lemma AtStart<T>(queues: seq<seq<T>>, c: nat, items: nat)
    requires c < |queues|
    ensures LeftAt(queues, queues, c, c, items, items, false) && Untouched(queues, queues, c, 1)
  {}

  lemma FoundSome<T>(queues: seq<seq<T>>, queues0: seq<seq<T>>, c: nat, p: nat, items: nat, items0: nat)
    requires LeftAt(queues, queues0, c, p, items, 0, true)
    ensures LeftAt(queues, queues0, c, p, items, items0, true)
  {}

  /** What a visit of producer number `k` from `c` on has touched. */
  lemma Touched<T>(
    queues: seq<seq<T>>, before: seq<seq<T>>, queues0: seq<seq<T>>, c: nat, k: nat, ptr: nat, dequeued: seq<T>)
    requires |queues| == |before| == |queues0| && c < |queues| && 1 <= k < |queues| && ptr == Around(c, k, |queues|)
    requires ptr < |queues| && |dequeued| <= |before[ptr]| && queues == before[ptr := before[ptr][|dequeued|..]]
    requires Untouched(before, queues0, c, k)
    ensures Untouched(queues, queues0, c, k + 1)
    ensures dequeued != [] ==> LeftAt(queues, queues0, c, ptr, Wrap(|dequeued|, 32), 0, true)
  {
    hide Wrap;
    assert Distance(c, ptr, |queues|) == k;
  }

  lemma FirstStep(c: nat, n: nat)
    requires c < n
    ensures Distance(c, c, n) == 0 && (1 < n ==> Inc(c, n) == Around(c, 1, n))
  {}

  lemma StepOn(c: nat, k: nat, ptr: nat, n: nat)
    requires c < n && k <= n && ptr < n && (k < n ==> ptr == Around(c, k, n))
    ensures k < n ==> Distance(c, ptr, n) == k
    ensures k + 1 < n ==> Inc(ptr, n) == Around(c, k + 1, n)
  {}

  /** One step brings the walk nearer to its stopping point. */
  lemma Nearer(ptr: nat, stop: nat, n: nat)
    requires ptr < n && stop < n
    ensures ptr != stop ==> Distance(Inc(ptr, n), stop, n) < Distance(ptr, stop, n)
  {}

  lemma NotMet(c: nat, k: nat, stop: nat, n: nat)
    requires c < n && k < n && stop < n && Distance(c, stop, n) < k
    ensures Around(c, k, n) != stop
  {}

  lemma FirstDry<T>(queues: seq<seq<T>>, c: nat)
    requires c < |queues| && queues[c] == []
    ensures Dry(queues, c, 1)
  {}

  lemma SuffixSelf<T>(queues: seq<seq<T>>)
    ensures Suffixes(queues, queues)
  {}

  lemma SuffixTrans<T>(a: seq<seq<T>>, b: seq<seq<T>>, c: seq<seq<T>>)
    requires Suffixes(a, b) && Suffixes(b, c)
    ensures Suffixes(a, c)
  {}

  lemma FirstTaken<T>(queues: seq<seq<T>>, c: nat, t: nat)
    requires c < |queues| && t <= |queues[c]|
    ensures Line(queues, c) == queues[c][..t] + Line(queues[c := queues[c][t..]], c)
    ensures Suffixes(queues[c := queues[c][t..]], queues)
  {
    assert Around(c, 0, |queues|) == c;
    LineTake(queues, c, 0, t);
  }

  /** When everything is dry, another visit changes nothing. */
  lemma Everything<T>(queues: seq<seq<T>>, c: nat, i: nat)
    requires c < |queues| && Dry(queues, c, |queues|) && i < |queues|
    ensures queues[i] == [] && queues[i := queues[i][0..]] == queues
  {
    AllDry(queues, c);
  }

  /** After the visit of `ptr`, with elements still wanted, `ptr` is dry too. */
  lemma StillDry<T>(before: seq<seq<T>>, queues: seq<seq<T>>, c: nat, k: nat, ptr: nat)
    requires c < |before| && k <= |before| && Dry(before, c, k) && ptr < |before|
    requires queues == before[ptr := []] && (k < |before| ==> ptr == Around(c, k, |before|))
    ensures Dry(queues, c, if k < |before| then k + 1 else k)
  {}

  /** `all` is what was taken followed by what is left. */
  ghost predicate Splits<T>(all: seq<T>, taken: seq<T>, left: seq<T>) {
    all == taken + left
  }

  lemma Split<T>(taken: seq<T>, more: seq<T>, left: seq<T>, before: seq<T>, all: seq<T>)
    requires Splits(all, taken, before) && Splits(before, more, left)
    ensures Splits(all, taken + more, left)
  {}

  lemma Lengths<T>(all: seq<T>, taken: seq<T>, left: seq<T>)
    requires Splits(all, taken, left)
    ensures |all| == |taken| + |left|
  {}

  lemma StepRemainder(x: nat, n: nat)
    requires n >= 1
    ensures Inc(x % n, n) == (x + 1) % n
  {
    DivMod(x, n);
    if x % n + 1 == n {
      assert x + 1 == n * (x / n + 1) + 0 by { assert n * (x / n + 1) == n * (x / n) + n; }
      RemainderUnique(x + 1, n, x / n + 1, 0);
    } else {
      RemainderUnique(x + 1, n, x / n, x % n + 1);
    }
  }

  lemma ReducedDelta(from: nat, delta: nat, n: nat)
    requires n >= 1
    ensures (from + delta % n) % n == (from + delta) % n
  {
    DivMod(delta, n);
    var s := from + delta % n;
    assert from + delta == n * (delta / n + s / n) + s % n by {
      assert n * (delta / n + s / n) == n * (delta / n) + n * (s / n);
      DivMod(s, n);
    }
    RemainderUnique(from + delta, n, delta / n + s / n, s % n);
  }
}
