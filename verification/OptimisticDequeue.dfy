/**
 The optimistic dequeue counters of a `ConcurrentQueue` producer: one producer publishing
 elements through `tailIndex`, any number of consumers reserving elements through
 `dequeueOptimisticCount`, giving failed reservations back through `dequeueOvercommit`
 and taking indices from `headIndex`. The state holds true (unwrapped) counts; every
 decision is taken on `w`-bit words, as in the code.
 */
module OptimisticDequeue {
  import opened Options
  import opened Bits

  /** `dequeue` is `dequeue_bulk` for one element, so `max == 1` covers it. */
  datatype Pc =
    | Idle(got: seq<nat>)                    // the indices the last call handed out
    | LoadTail(max: nat)
    | LoadOver(max: nat, tail: nat)
    | LoadOpt(max: nat, tail: nat, over: nat)
    | Reserve(over: nat, desired: nat)
    | ReloadTail(over: nat, desired: nat, mine: nat)
    | GiveBackSome(lost: nat, actual: nat)   // fetch_add on dequeueOvercommit, then TakeIndices
    | TakeIndices(actual: nat)               // fetch_add on headIndex
    | GiveBackAll(lost: nat)                 // fetch_add on dequeueOvercommit, then done

  /** Auxiliary: what became of one reserved unit. */
  datatype Unit = Pending(t: nat) | Won | Lost

  /**
   `units` (one entry per unit of `opt`, in reservation order) and `given` (the indices
   handed out, in order) are auxiliary.
   */
  datatype State = State(
    tail: nat, head: nat, opt: nat, over: nat, pcs: seq<Pc>,
    units: seq<Unit>, given: seq<nat>)

  // ---------------------------------------------------------------------------
  // Decisions on words
  // ---------------------------------------------------------------------------

  /** The test `circular_less_than(count - overcommit, tail)` on wrapped counters. */
  predicate SeemsAvailable(count: nat, over: nat, tail: nat, w: nat)
    requires w >= 1
  {
    CircularLess(WordSub(Wrap(count, w), Wrap(over, w), w), Wrap(tail, w), w)
  }

  /** The word `tail - (count - overcommit)`. */
  function Available(count: nat, over: nat, tail: nat, w: nat): nat
    requires w >= 1
  {
    WordSub(Wrap(tail, w), WordSub(Wrap(count, w), Wrap(over, w), w), w)
  }

  lemma WordsDecideTruly(count: nat, over: nat, tail: nat, w: nat)
    requires w >= 1 && 0 - Pow2(w - 1) < count - over - tail < Pow2(w - 1)
    ensures SeemsAvailable(count, over, tail, w) <==> count - over < tail
    ensures count - over < tail ==> Available(count, over, tail, w) == tail - (count - over)
  {
    WrapSub(count, over, w);
    CircularLessAgrees(count - over, tail, w);
    WrapSub(tail, count - over, w);
    WrapSmall(tail - (count - over), w);
  }

  /** The exact window: for values less than a whole range apart, the words decide truly just within it. */
  lemma WordsDecideExactly(count: nat, over: nat, tail: nat, w: nat)
    requires w >= 1 && 0 - Pow2(w) < count - over - tail < Pow2(w)
    ensures (SeemsAvailable(count, over, tail, w) <==> count - over < tail)
       <==> 0 - Pow2(w - 1) < count - over - tail <= Pow2(w - 1)
  {
    WrapSub(count, over, w);
    CircularLessExact(count - over, tail, w);
  }

  /** A positive answer is never backed by the word 0. */
  lemma SeemsMeansSome(count: nat, over: nat, tail: nat, w: nat)
    requires w >= 1 && SeemsAvailable(count, over, tail, w)
    ensures Available(count, over, tail, w) > 0
  {
    WrapSub(count, over, w);
    WrapSub(tail, count - over, w);
    WrapSub(count - over, tail, w);
    OppositeWord(tail - (count - over), w);
  }

  /** The word of `-v` is 0 exactly when that of `v` is, and otherwise what it lacks to a whole range. */
  lemma OppositeWord(v: int, w: nat)
    ensures Wrap(0 - v, w) == if Wrap(v, w) == 0 then 0 else Pow2(w) - Wrap(v, w)
  {
    var m := Pow2(w);
    var q, r := v / m, v % m;
    if r == 0 {
      assert 0 - v == m * (0 - q) + 0 by { assert m * (0 - q) == 0 - m * q; }
      RemainderUnique(0 - v, m, 0 - q, 0);
    } else {
      assert 0 - v == m * (0 - q - 1) + (m - r) by { assert m * (0 - q - 1) == 0 - m * q - m; }
      RemainderUnique(0 - v, m, 0 - q - 1, m - r);
    }
  }

  /**
   Unless the effective count is more than half the index range ahead of the tail, the words
   never claim more than is there; they may claim less.
   */
  lemma NeverOverclaims(count: nat, over: nat, tail: nat, w: nat)
    requires w >= 1 && count - over - tail <= Pow2(w - 1)
    ensures SeemsAvailable(count, over, tail, w) ==>
      count - over < tail && Available(count, over, tail, w) <= tail - (count - over)
  {
    var v: int := tail - (count - over);
    WrapSub(count, over, w);
    WrapSub(tail, count - over, w);
    WrapSub(count - over, tail, w);
    if v <= 0 { WrapSmall(0 - v, w); } else { WrapBelow(v, w); }
  }

  lemma WrapBelow(v: nat, w: nat)
    ensures Wrap(v, w) <= v
  {
    RemainderBelow(v, Pow2(w));
  }

  /** That bound is exact for counts less than a whole range ahead. */
  lemma OverclaimsExactly(count: nat, over: nat, tail: nat, w: nat)
    requires w >= 1 && count - over - tail < Pow2(w)
    ensures (SeemsAvailable(count, over, tail, w) ==> count - over < tail) <==> count - over - tail <= Pow2(w - 1)
  {
    if count - over - tail <= Pow2(w - 1) {
      NeverOverclaims(count, over, tail, w);
    } else {
      WrapSub(count, over, w);
      WrapSub(count - over, tail, w);
      WrapSmall(count - over - tail, w);
    }
  }

  // ---------------------------------------------------------------------------
  // The program
  // ---------------------------------------------------------------------------

  function SetPc(s: State, t: nat, pc: Pc): State
    requires t < |s.pcs|
  {
    s.(pcs := s.pcs[t := pc])
  }

  function Resolve(units: seq<Unit>, mine: nat, desired: nat, actual: nat): seq<Unit>
    requires mine + desired <= |units| && actual <= desired
  {
    units[..mine] + seq(actual, _ => Won) + seq(desired - actual, _ => Lost) + units[mine + desired..]
  }

  predicate PcOk(s: State, pc: Pc) {
    pc.ReloadTail? ==> pc.mine + pc.desired <= |s.units|
  }

  /** The `n` indices from `from` on. */
  function Indices(from: nat, n: nat): seq<nat> {
    seq(n, i requires 0 <= i => from + i)
  }

  function ThreadStep(s: State, t: nat, w: nat): State
    requires t < |s.pcs| && PcOk(s, s.pcs[t]) && w >= 1
  {
    match s.pcs[t]
    case Idle(_) => s
    case LoadTail(max) => SetPc(s, t, LoadOver(max, s.tail))
    case LoadOver(max, tail) => SetPc(s, t, LoadOpt(max, tail, s.over))
    case LoadOpt(max, tail, over) =>
      SetPc(s, t, if SeemsAvailable(s.opt, over, tail, w)
                  then Reserve(over, Min(Available(s.opt, over, tail, w), max)) else Idle([]))
    case Reserve(over, desired) =>
      SetPc(s, t, ReloadTail(over, desired, s.opt))
      .(opt := s.opt + desired, units := s.units + seq(desired, _ => Pending(t)))
    case ReloadTail(over, desired, mine) =>
      if SeemsAvailable(mine, over, s.tail, w) then
        var actual := Min(desired, Available(mine, over, s.tail, w));
        SetPc(s, t, if actual < desired then GiveBackSome(desired - actual, actual) else TakeIndices(actual))
        .(units := Resolve(s.units, mine, desired, actual))
      else
        SetPc(s, t, GiveBackAll(desired)).(units := Resolve(s.units, mine, desired, 0))
    case GiveBackSome(lost, actual) => SetPc(s, t, TakeIndices(actual)).(over := s.over + lost)
    case TakeIndices(actual) =>
      SetPc(s, t, Idle(Indices(s.head, actual)))
      .(head := s.head + actual, given := s.given + Indices(s.head, actual))
    case GiveBackAll(lost) => SetPc(s, t, Idle([])).(over := s.over + lost)
  }

  datatype Step =
    | Publish(count: nat)           // the producer stores tailIndex
    | Dequeue(t: nat, max: nat)     // an idle consumer calls dequeue (max == 1) or dequeue_bulk
    | Run(t: nat)                   // a busy consumer executes one instruction

  predicate Enabled(s: State, step: Step) {
    match step
    case Publish(_) => true
    case Dequeue(t, max) => t < |s.pcs| && s.pcs[t].Idle? && max > 0
    case Run(t) => t < |s.pcs| && !s.pcs[t].Idle? && PcOk(s, s.pcs[t])
  }

  /** The deciding comparison of the step, if any, cannot overclaim. */
  predicate Windowed(s: State, step: Step, w: nat)
    requires Enabled(s, step) && w >= 1
  {
    step.Run? && s.pcs[step.t].ReloadTail? ==>
      s.pcs[step.t].mine - s.pcs[step.t].over - s.tail <= Pow2(w - 1)
  }

  function Do(s: State, step: Step, w: nat): State
    requires Enabled(s, step) && w >= 1
  {
    match step
    case Publish(count) => s.(tail := s.tail + count)
    case Dequeue(t, max) => SetPc(s, t, LoadTail(max))
    case Run(t) => ThreadStep(s, t, w)
  }

  // ---------------------------------------------------------------------------
  // Counting
  // ---------------------------------------------------------------------------

  datatype Kind = KPending | KWon | KLost

  predicate Is(u: Unit, k: Kind) {
    match k case KPending => u.Pending? case KWon => u.Won? case KLost => u.Lost?
  }

  function Count(units: seq<Unit>, k: Kind): nat {
    if units == [] then 0 else (if Is(units[0], k) then 1 else 0) + Count(units[1..], k)
  }

  /** Units of each kind a thread has decided on but not yet entered in the shared counters. */
  function Owed(pc: Pc, k: Kind): nat {
    match k
    case KPending => if pc.ReloadTail? then pc.desired else 0
    case KWon => if pc.GiveBackSome? || pc.TakeIndices? then pc.actual else 0
    case KLost => if pc.GiveBackSome? || pc.GiveBackAll? then pc.lost else 0
  }

  function TotalOwed(pcs: seq<Pc>, k: Kind): nat {
    if pcs == [] then 0 else Owed(pcs[0], k) + TotalOwed(pcs[1..], k)
  }

  lemma {:induction false} OwedUpdate(pcs: seq<Pc>, t: nat, pc: Pc, k: Kind)
    requires t < |pcs|
    ensures TotalOwed(pcs[t := pc], k) + Owed(pcs[t], k) == TotalOwed(pcs, k) + Owed(pc, k)
  {
    if t == 0 {
      assert pcs[0 := pc][1..] == pcs[1..];
    } else {
      OwedUpdate(pcs[1..], t - 1, pc, k);
      assert pcs[t := pc][1..] == pcs[1..][t - 1 := pc];
    }
  }

  lemma {:induction false} CountConcat(a: seq<Unit>, b: seq<Unit>, k: Kind)
    ensures Count(a + b, k) == Count(a, k) + Count(b, k)
  {
    if a == [] {
      assert a + b == b;
    } else {
      CountConcat(a[1..], b, k);
      assert (a + b)[1..] == a[1..] + b;
    }
  }

  lemma {:induction false} CountAll(units: seq<Unit>, k: Kind)
    requires forall i | 0 <= i < |units| :: Is(units[i], k)
    ensures Count(units, k) == |units|
  {
    if units != [] { CountAll(units[1..], k); }
  }

  lemma {:induction false} CountNone(units: seq<Unit>, k: Kind)
    requires forall i | 0 <= i < |units| :: !Is(units[i], k)
    ensures Count(units, k) == 0
  {
    if units != [] { CountNone(units[1..], k); }
  }

  lemma {:induction false} CountTotal(units: seq<Unit>)
    ensures Count(units, KPending) + Count(units, KWon) + Count(units, KLost) == |units|
  {
    if units != [] { CountTotal(units[1..]); }
  }

  /** Lost units among the first `k`. */
  function LostBefore(units: seq<Unit>, k: nat): nat
    requires k <= |units|
  {
    Count(units[..k], KLost)
  }

  /**
   The largest-successful-reservation argument: if every won unit has at most `bound`
   units up to and including itself that are not lost, then at most `bound` units are won.
   */
  lemma {:induction false} WonBound(units: seq<Unit>, bound: nat)
    requires forall i: nat | i < |units| && units[i].Won? :: i + 1 - LostBefore(units, i + 1) <= bound
    ensures Count(units, KWon) <= bound
    decreases |units|
  {
    if units != [] {
      var n := |units| - 1;
      var init := units[..n];
      assert units == init + [units[n]];
      CountConcat(init, [units[n]], KWon);
      if units[n].Won? {
        CountTotal(units);
        assert units[..n + 1] == units;
      } else {
        forall i: nat | i < n && init[i].Won?
          ensures i + 1 - LostBefore(init, i + 1) <= bound
        {
          assert init[..i + 1] == units[..i + 1];
        }
        WonBound(init, bound);
      }
    }
  }

  // ---------------------------------------------------------------------------
  // The invariant
  // ---------------------------------------------------------------------------

  function Booked(s: State, k: Kind): nat {
    match k case KPending => 0 case KWon => s.head case KLost => s.over
  }

  ghost predicate ThreadInv(s: State, t: nat)
    requires t < |s.pcs|
  {
    match s.pcs[t]
    case LoadTail(max) => max > 0
    case LoadOver(max, _) => max > 0
    case LoadOpt(max, _, over) => max > 0 && over <= Count(s.units, KLost)
    case Reserve(over, desired) => over <= Count(s.units, KLost) && desired > 0
    case ReloadTail(over, desired, mine) =>
      && mine + desired <= |s.units| && desired > 0
      && over <= LostBefore(s.units, mine)
      && forall i: nat | mine <= i < mine + desired :: s.units[i] == Pending(t)
    case _ => true
  }

  ghost predicate WonInv(s: State) {
    forall i: nat | i < |s.units| && s.units[i].Won? :: i + 1 - LostBefore(s.units, i + 1) <= s.tail
  }

  ghost predicate Inv(s: State) {
    && |s.units| == s.opt
    && (forall k: Kind :: Count(s.units, k) == Booked(s, k) + TotalOwed(s.pcs, k))
    && WonInv(s)
    && (forall t: nat | t < |s.pcs| :: ThreadInv(s, t))
    && |s.given| == s.head && forall i: nat | i < s.head :: s.given[i] == i
  }

  /** Steps that leave the reservations alone. */
  lemma QuietStep(s: State, s': State, t: nat)
    requires Inv(s) && t < |s.pcs| && t < |s'.pcs| && s'.pcs == s.pcs[t := s'.pcs[t]]
    requires s'.units == s.units && s'.opt == s.opt && s'.tail == s.tail
    requires forall k: Kind :: Booked(s', k) + Owed(s'.pcs[t], k) == Booked(s, k) + Owed(s.pcs[t], k)
    requires ThreadInv(s', t)
    requires |s'.given| == s'.head && forall i: nat | i < s'.head :: s'.given[i] == i
    ensures Inv(s')
  {
    hide Count, LostBefore;
    forall k: Kind ensures Count(s'.units, k) == Booked(s', k) + TotalOwed(s'.pcs, k) {
      OwedUpdate(s.pcs, t, s'.pcs[t], k);
    }
    forall u: nat | u < |s'.pcs| ensures ThreadInv(s', u) {
      if u != t { assert ThreadInv(s, u); }
    }
  }

  lemma OverIsLost(s: State)
    requires Inv(s)
    ensures s.over <= Count(s.units, KLost)
  {
    assert Count(s.units, KLost) == Booked(s, KLost) + TotalOwed(s.pcs, KLost);
  }

  lemma LoadsInv(s: State, t: nat, w: nat)
    requires Inv(s) && Enabled(s, Run(t)) && w >= 1
    requires s.pcs[t].LoadTail? || s.pcs[t].LoadOver? || s.pcs[t].LoadOpt?
    ensures Inv(ThreadStep(s, t, w))
  {
    hide Count, SeemsAvailable, Available;
    assert ThreadInv(s, t);
    OverIsLost(s);
    if s.pcs[t].LoadOpt? && SeemsAvailable(s.opt, s.pcs[t].over, s.pcs[t].tail, w) {
      SeemsMeansSome(s.opt, s.pcs[t].over, s.pcs[t].tail, w);
    }
    QuietStep(s, ThreadStep(s, t, w), t);
  }

  lemma SettleInv(s: State, t: nat, w: nat)
    requires Inv(s) && Enabled(s, Run(t)) && w >= 1
    requires s.pcs[t].GiveBackSome? || s.pcs[t].TakeIndices? || s.pcs[t].GiveBackAll?
    ensures Inv(ThreadStep(s, t, w))
  {
    hide Count;
    QuietStep(s, ThreadStep(s, t, w), t);
  }

  /** Reservations only grow the list; lost units stay lost. */
  lemma ReserveInv(s: State, t: nat, w: nat)
    requires Inv(s) && Enabled(s, Run(t)) && w >= 1 && s.pcs[t].Reserve?
    ensures Inv(ThreadStep(s, t, w))
  {
    hide Count;
    var s', d := ThreadStep(s, t, w), s.pcs[t].desired;
    var more: seq<Unit> := seq(d, _ => Pending(t));
    assert ThreadInv(s, t);
    CountAll(more, KPending);
    CountNone(more, KWon);
    CountNone(more, KLost);
    forall k: Kind ensures Count(s'.units, k) == Booked(s', k) + TotalOwed(s'.pcs, k) {
      CountConcat(s.units, more, k);
      OwedUpdate(s.pcs, t, s'.pcs[t], k);
      assert Count(s.units, k) == Booked(s, k) + TotalOwed(s.pcs, k);
    }
    forall k: nat | k <= |s.units| ensures s'.units[..k] == s.units[..k] {}
    assert s.units[..|s.units|] == s.units;
    CountConcat(s.units, more, KLost);
    forall u: nat | u < |s'.pcs| ensures ThreadInv(s', u) {
      if u != t { assert ThreadInv(s, u); }
    }
  }

  /** What deciding a reservation does to the unit counts. */
  lemma ResolveCounts(units: seq<Unit>, mine: nat, desired: nat, actual: nat)
    requires mine + desired <= |units| && actual <= desired
    requires forall i: nat | mine <= i < mine + desired :: units[i].Pending?
    ensures var units' := Resolve(units, mine, desired, actual);
      && |units'| == |units|
      && Count(units', KPending) + desired == Count(units, KPending)
      && Count(units', KWon) == Count(units, KWon) + actual
      && Count(units', KLost) == Count(units, KLost) + desired - actual
  {
    hide Count;
    var a, p, b := units[..mine], units[mine..mine + desired], units[mine + desired..];
    assert units == a + p + b;
    var won: seq<Unit>, lost: seq<Unit> := seq(actual, _ => Won), seq(desired - actual, _ => Lost);
    CountAll(p, KPending); CountNone(p, KWon); CountNone(p, KLost);
    CountAll(won, KWon); CountNone(won, KPending); CountNone(won, KLost);
    CountAll(lost, KLost); CountNone(lost, KPending); CountNone(lost, KWon);
    forall k: Kind
      ensures Count(units, k) == Count(a, k) + Count(p, k) + Count(b, k)
      ensures Count(a + won + lost + b, k) == Count(a, k) + Count(won, k) + Count(lost, k) + Count(b, k)
    {
      CountConcat(a + p, b, k);
      CountConcat(a, p, k);
      CountConcat(a + won + lost, b, k);
      CountConcat(a + won, lost, k);
      CountConcat(a, won, k);
    }
  }

  lemma {:induction false} LostMonotone(units: seq<Unit>, units': seq<Unit>)
    requires |units| == |units'|
    requires forall i: nat | i < |units| && units[i].Lost? :: units'[i].Lost?
    ensures Count(units, KLost) <= Count(units', KLost)
  {
    if units != [] { LostMonotone(units[1..], units'[1..]); }
  }

  /** Slot by slot: only the thread's own pending units change. */
  lemma ResolveSlots(units: seq<Unit>, mine: nat, desired: nat, actual: nat)
    requires mine + desired <= |units| && actual <= desired
    requires forall i: nat | mine <= i < mine + desired :: units[i].Pending?
    ensures var units' := Resolve(units, mine, desired, actual);
      && |units'| == |units|
      && (forall i: nat | i < |units| && !(mine <= i < mine + desired) :: units'[i] == units[i])
      && (forall i: nat | mine <= i < mine + actual :: units'[i] == Won)
      && (forall i: nat | mine + actual <= i < mine + desired :: units'[i] == Lost)
    ensures forall k: nat | k <= |units| ::
      LostBefore(units, k) <= LostBefore(Resolve(units, mine, desired, actual), k)
    ensures forall k: nat | k <= mine ::
      LostBefore(units, k) == LostBefore(Resolve(units, mine, desired, actual), k)
  {
    hide Count;
    var units' := Resolve(units, mine, desired, actual);
    forall k: nat | k <= |units| ensures LostBefore(units, k) <= LostBefore(units', k) {
      LostMonotone(units[..k], units'[..k]);
    }
    forall k: nat | k <= mine ensures LostBefore(units, k) == LostBefore(units', k) {
      assert units[..k] == units'[..k];
    }
  }

  /** Every newly won unit respects the bound because `tail` was loaded after the reservation. */
  lemma ResolveWon(s: State, t: nat, actual: nat)
    requires Inv(s) && t < |s.pcs| && s.pcs[t].ReloadTail?
    requires var pc := s.pcs[t]; actual <= pc.desired && pc.mine + pc.desired <= |s.units|
    requires var pc := s.pcs[t]; actual == 0 || actual <= s.tail - (pc.mine - pc.over)
    ensures var pc := s.pcs[t];
      WonInv(s.(units := Resolve(s.units, pc.mine, pc.desired, actual)))
  {
    hide Count, LostBefore;
    var pc := s.pcs[t];
    var units' := Resolve(s.units, pc.mine, pc.desired, actual);
    assert ThreadInv(s, t);
    ResolveSlots(s.units, pc.mine, pc.desired, actual);
    forall i: nat | i < |units'| && units'[i].Won? ensures i + 1 - LostBefore(units', i + 1) <= s.tail {
      if pc.mine <= i < pc.mine + actual {
        LostGrows(units', pc.mine, i + 1);
      } else {
        assert s.units[i].Won?;
      }
    }
  }

  lemma LostGrows(units: seq<Unit>, a: nat, b: nat)
    requires a <= b <= |units|
    ensures LostBefore(units, a) <= LostBefore(units, b)
  {
    assert units[..b] == units[..a] + units[a..b];
    CountConcat(units[..a], units[a..b], KLost);
  }

  lemma ResolveThreads(s: State, s': State, t: nat, actual: nat)
    requires Inv(s) && t < |s.pcs| && s.pcs[t].ReloadTail?
    requires s.pcs[t].mine + s.pcs[t].desired <= |s.units| && actual <= s.pcs[t].desired
    requires s'.units == Resolve(s.units, s.pcs[t].mine, s.pcs[t].desired, actual)
    requires |s'.pcs| == |s.pcs| && forall u: nat | u < |s.pcs| && u != t :: s'.pcs[u] == s.pcs[u]
    ensures forall u: nat | u < |s.pcs| && u != t :: ThreadInv(s', u)
  {
    hide Count, LostBefore, Resolve;
    var pc := s.pcs[t];
    assert ThreadInv(s, t);
    ResolveSlots(s.units, pc.mine, pc.desired, actual);
    ResolveCounts(s.units, pc.mine, pc.desired, actual);
    forall u: nat | u < |s.pcs| && u != t ensures ThreadInv(s', u) {
      assert ThreadInv(s, u);
      if s.pcs[u].ReloadTail? {
        var other := s.pcs[u];
        assert LostBefore(s.units, other.mine) <= LostBefore(s'.units, other.mine);
        forall i: nat | other.mine <= i < other.mine + other.desired ensures s'.units[i] == Pending(u) {
          assert s.units[i] == Pending(u);
        }
      }
    }
  }

  /** The units a thread decides to win and to give back. */
  function Winnings(s: State, pc: Pc, w: nat): nat
    requires pc.ReloadTail? && w >= 1
  {
    if SeemsAvailable(pc.mine, pc.over, s.tail, w)
    then Min(pc.desired, Available(pc.mine, pc.over, s.tail, w)) else 0
  }

  lemma DecideCounts(s: State, t: nat, w: nat, k: Kind)
    requires Inv(s) && Enabled(s, Run(t)) && w >= 1 && s.pcs[t].ReloadTail?
    ensures var s' := ThreadStep(s, t, w);
      |s'.units| == s'.opt && Count(s'.units, k) == Booked(s', k) + TotalOwed(s'.pcs, k)
  {
    hide Count, SeemsAvailable, Available, Resolve;
    var s', pc := ThreadStep(s, t, w), s.pcs[t];
    assert ThreadInv(s, t);
    ResolveCounts(s.units, pc.mine, pc.desired, Winnings(s, pc, w));
    assert Count(s.units, k) == Booked(s, k) + TotalOwed(s.pcs, k);
    OwedUpdate(s.pcs, t, s'.pcs[t], k);
  }

  lemma DecideInv(s: State, t: nat, w: nat)
    requires Inv(s) && Enabled(s, Run(t)) && w >= 1 && s.pcs[t].ReloadTail? && Windowed(s, Run(t), w)
    ensures Inv(ThreadStep(s, t, w))
  {
    hide Count, LostBefore, SeemsAvailable, Available, Resolve, TotalOwed;
    var s', pc := ThreadStep(s, t, w), s.pcs[t];
    assert ThreadInv(s, t);
    NeverOverclaims(pc.mine, pc.over, s.tail, w);
    ResolveWon(s, t, Winnings(s, pc, w));
    ResolveThreads(s, s', t, Winnings(s, pc, w));
    forall k: Kind
      ensures |s'.units| == s'.opt && Count(s'.units, k) == Booked(s', k) + TotalOwed(s'.pcs, k)
    {
      DecideCounts(s, t, w, k);
    }
    assert |s'.units| == s'.opt by { DecideCounts(s, t, w, KWon); }
  }

  lemma StepInv(s: State, step: Step, w: nat)
    requires Inv(s) && w >= 1 && Enabled(s, step) && Windowed(s, step, w)
    ensures Inv(Do(s, step, w))
  {
    hide Count, LostBefore;
    match step
    case Publish(count) =>
      forall t: nat | t < |s.pcs| ensures ThreadInv(Do(s, step, w), t) { assert ThreadInv(s, t); }
      forall k: Kind ensures Count(s.units, k) == Booked(Do(s, step, w), k) + TotalOwed(s.pcs, k) {}
    case Dequeue(t, max) => QuietStep(s, Do(s, step, w), t);
    case Run(t) =>
      match s.pcs[t]
      case Reserve(_, _) => ReserveInv(s, t, w);
      case ReloadTail(_, _, _) => DecideInv(s, t, w);
      case LoadTail(_) => LoadsInv(s, t, w);
      case LoadOver(_, _) => LoadsInv(s, t, w);
      case LoadOpt(_, _, _) => LoadsInv(s, t, w);
      case _ => SettleInv(s, t, w);
  }

  // ---------------------------------------------------------------------------
  // Runs
  // ---------------------------------------------------------------------------

  ghost predicate Initial(s: State) {
    && s.tail == 0 && s.head == 0 && s.opt == 0 && s.over == 0
    && (forall t: nat | t < |s.pcs| :: s.pcs[t].Idle?)
    && s.units == [] && s.given == []
  }

  /** Any interleaving. */
  ghost predicate RawRun(run: seq<State>, steps: seq<Step>, w: nat) {
    && w >= 1 && |run| == |steps| + 1 && Initial(run[0])
    && forall i: nat | i < |steps| :: Enabled(run[i], steps[i]) && run[i + 1] == Do(run[i], steps[i], w)
  }

  /** Any interleaving in which no deciding comparison can overclaim. */
  ghost predicate IsRun(run: seq<State>, steps: seq<Step>, w: nat) {
    && w >= 1 && |run| == |steps| + 1 && Initial(run[0])
    && forall i: nat | i < |steps| ::
         && Enabled(run[i], steps[i]) && Windowed(run[i], steps[i], w)
         && run[i + 1] == Do(run[i], steps[i], w)
  }

  lemma {:induction false} NothingOwed(pcs: seq<Pc>, k: Kind)
    requires forall t: nat | t < |pcs| :: pcs[t].Idle?
    ensures TotalOwed(pcs, k) == 0
  {
    if pcs != [] { NothingOwed(pcs[1..], k); }
  }

  lemma {:induction false} RunInv(run: seq<State>, steps: seq<Step>, w: nat, i: nat)
    requires IsRun(run, steps, w) && i <= |steps|
    ensures Inv(run[i])
    decreases i
  {
    if i == 0 {
      forall k: Kind ensures Count(run[0].units, k) == Booked(run[0], k) + TotalOwed(run[0].pcs, k) {
        NothingOwed(run[0].pcs, k);
      }
    } else {
      RunInv(run, steps, w, i - 1);
      StepInv(run[i - 1], steps[i - 1], w);
    }
  }

  /** Reservations in flight: undecided, or decided and not yet entered in the shared counters. */
  function InFlight(s: State): nat {
    TotalOwed(s.pcs, KPending) + TotalOwed(s.pcs, KWon) + TotalOwed(s.pcs, KLost)
  }

  /** Every reservation is accounted for. */
  lemma Conservation(s: State)
    requires Inv(s)
    ensures s.opt == s.head + s.over + InFlight(s)
  {
    CountTotal(s.units);
    assert Count(s.units, KPending) == Booked(s, KPending) + TotalOwed(s.pcs, KPending);
    assert Count(s.units, KWon) == Booked(s, KWon) + TotalOwed(s.pcs, KWon);
    assert Count(s.units, KLost) == Booked(s, KLost) + TotalOwed(s.pcs, KLost);
  }

  /** Even counting the successes whose indices are not yet taken, the head is within the tail. */
  lemma HeadWithinTail(s: State)
    requires Inv(s)
    ensures s.head + TotalOwed(s.pcs, KWon) <= s.tail
  {
    WonBound(s.units, s.tail);
    assert Count(s.units, KWon) == Booked(s, KWon) + TotalOwed(s.pcs, KWon);
  }

  lemma {:induction false} OwedAtLeast(pcs: seq<Pc>, t: nat, k: Kind)
    requires t < |pcs|
    ensures TotalOwed(pcs, k) >= Owed(pcs[t], k)
  {
    if t > 0 { OwedAtLeast(pcs[1..], t - 1, k); }
  }

  // ---------------------------------------------------------------------------
  // Calm runs
  // ---------------------------------------------------------------------------

  /** Thread `t` is inside one call from state `i` to state `j`. */
  ghost predicate Busy(run: seq<State>, t: nat, i: nat, j: nat)
    requires i <= j < |run|
  {
    forall l: nat | i <= l <= j :: t < |run[l].pcs| && !run[l].pcs[t].Idle?
  }

  /**
   While one call lasts, the reservations given back by everybody and those in flight are
   together at most half the index range. How many elements come and go does not matter.
   */
  ghost predicate Calm(run: seq<State>, w: nat)
    requires w >= 1
  {
    forall t: nat, i: nat, j: nat | i <= j < |run| && Busy(run, t, i, j) ::
      run[j].over - run[i].over + InFlight(run[j]) <= Pow2(w - 1)
  }

  /** The overcommit value a thread has in hand. */
  function HeldOver(pc: Pc): Option<nat> {
    match pc
    case LoadOpt(_, _, over) => Some(over)
    case Reserve(over, _) => Some(over)
    case ReloadTail(over, _, _) => Some(over)
    case _ => None
  }

  /** It was loaded at an earlier instant `i` of the same call; a reservation made since is not older. */
  lemma {:induction false} OverWasLoaded(run: seq<State>, steps: seq<Step>, w: nat, t: nat, j: nat) returns (i: nat)
    requires RawRun(run, steps, w) && j <= |steps| && t < |run[j].pcs| && HeldOver(run[j].pcs[t]).Some?
    ensures i < j && Busy(run, t, i, j) && run[i].over == HeldOver(run[j].pcs[t]).value
    ensures run[j].pcs[t].ReloadTail? ==> run[j].pcs[t].mine <= run[j].opt
    decreases j
  {
    var s, step := run[j - 1], steps[j - 1];
    LoadStep(s, step, w, t);
    if s.pcs[t].LoadOver? {
      i := j - 1;
    } else {
      i := OverWasLoaded(run, steps, w, t, j - 1);
    }
  }

  /** How a thread comes by its overcommit value: it loads it, or keeps it. */
  lemma LoadStep(s: State, step: Step, w: nat, t: nat)
    requires Enabled(s, step) && w >= 1 && t < |s.pcs|
    requires HeldOver(Do(s, step, w).pcs[t]).Some?
    ensures var pc, pc' := s.pcs[t], Do(s, step, w).pcs[t];
      && (if pc.LoadOver? then HeldOver(pc').value == s.over else HeldOver(pc') == HeldOver(pc))
      && (pc'.ReloadTail? ==> pc' == pc || pc'.mine == s.opt)
      && s.opt <= Do(s, step, w).opt
  {
    hide SeemsAvailable, Available, Resolve;
  }

  /** In a calm run no comparison overclaims. */
  lemma {:induction false} CalmIsWindowed(run: seq<State>, steps: seq<Step>, w: nat, j: nat)
    requires RawRun(run, steps, w) && Calm(run, w) && j <= |steps|
    ensures IsRun(run[..j + 1], steps[..j], w)
    decreases j
  {
    if j > 0 {
      CalmIsWindowed(run, steps, w, j - 1);
      var s, step := run[j - 1], steps[j - 1];
      RunInv(run[..j], steps[..j - 1], w, j - 1);
      Conservation(s);
      HeadWithinTail(s);
      if step.Run? && s.pcs[step.t].ReloadTail? {
        var i := OverWasLoaded(run, steps, w, step.t, j - 1);
        assert run[j - 1].over - run[i].over + InFlight(run[j - 1]) <= Pow2(w - 1);
      }
      assert Windowed(s, step, w);
      hide Inv, InFlight;
      Prefixes(run, steps, w, j);
    }
  }

  lemma Prefixes(run: seq<State>, steps: seq<Step>, w: nat, j: nat)
    requires RawRun(run, steps, w) && 0 < j <= |steps|
    requires IsRun(run[..j], steps[..j - 1], w) && Windowed(run[j - 1], steps[j - 1], w)
    ensures IsRun(run[..j + 1], steps[..j], w)
  {
    forall i: nat | i < j
      ensures Enabled(run[i], steps[i]) && Windowed(run[i], steps[i], w) && run[i + 1] == Do(run[i], steps[i], w)
    {
      if i < j - 1 {
        assert run[..j][i] == run[i] && steps[..j - 1][i] == steps[i];
      }
    }
  }

  /**
   The counters balance, the head is within the tail, and the indices handed out so far are
   0, 1, 2, ... without gap or repetition, each already published by the producer.
   */
  ghost predicate OnceEach(s: State) {
    && s.opt == s.head + s.over + InFlight(s)
    && s.head <= s.tail
    && |s.given| == s.head && forall j: nat | j < |s.given| :: s.given[j] == j && s.given[j] < s.tail
  }

  lemma WindowedOnceEach(run: seq<State>, steps: seq<Step>, w: nat, i: nat)
    requires IsRun(run, steps, w) && i <= |steps|
    ensures OnceEach(run[i])
  {
    RunInv(run, steps, w, i);
    Conservation(run[i]);
    HeadWithinTail(run[i]);
  }

  /** In every state of every calm run every index has been handed out at most once, and in order. */
  lemma EveryIndexOnce(run: seq<State>, steps: seq<Step>, w: nat, i: nat)
    requires RawRun(run, steps, w) && Calm(run, w) && i <= |steps|
    ensures OnceEach(run[i])
  {
    CalmIsWindowed(run, steps, w, i);
    WindowedOnceEach(run[..i + 1], steps[..i], w, i);
  }

  /** A thread about to take indices takes published ones. */
  lemma TakenIndicesConstructed(s: State, t: nat)
    requires Inv(s) && t < |s.pcs| && s.pcs[t].TakeIndices?
    ensures s.head + s.pcs[t].actual <= s.tail
  {
    HeadWithinTail(s);
    OwedAtLeast(s.pcs, t, KWon);
  }

  /**
   When no call is in flight, the entry test answers exactly "the word `tailIndex - headIndex`
   is between 0 and half the range": "the queue is non-empty" unless it holds that many.
   */
  lemma QuiescentTest(s: State, w: nat)
    requires Inv(s) && w >= 1 && forall t: nat | t < |s.pcs| :: s.pcs[t].Idle?
    ensures SeemsAvailable(s.opt, s.over, s.tail, w) <==> 0 < Wrap(s.tail - s.head, w) < Pow2(w - 1)
    ensures s.tail - s.head < Pow2(w - 1) ==> (SeemsAvailable(s.opt, s.over, s.tail, w) <==> s.head < s.tail)
  {
    Conservation(s);
    NothingOwed(s.pcs, KPending);
    NothingOwed(s.pcs, KWon);
    NothingOwed(s.pcs, KLost);
    HeadWithinTail(s);
    WrapSub(s.opt, s.over, w);
    WrapSub(s.head, s.tail, w);
    OppositeWord(s.tail - s.head, w);
    if s.tail - s.head < Pow2(w - 1) { WrapSmall(s.tail - s.head, w); }
    hide Wrap, Inv;
  }
}
