/**
 The lock-free free list of `ConcurrentQueue`: a CAS-based stack of nodes, each with a
 reference word whose top bit says "should be on the free list". Any number of threads;
 one step for each atomic load, store or read-modify-write.
 */
module FreeList {
  import opened Options
  import opened Sequences

  const SHOULD: nat := 0x8000_0000
  const WORD: nat := 0x1_0000_0000

  datatype Node = Node(refs: nat, next: Option<nat>)

  /** What the thread does after re-adding a node: return, or go on with `try_get`'s loop. */
  datatype Back = Return | Resume(cur: Option<nat>)

  datatype Pc =
    | Idle(got: Option<nat>)           // what the last call returned, if a node
    // try_get
    | GLoadHead
    | GLoadRefs(h: nat)
    | GCasRefs(h: nat, r: nat)
    | GLoadNext(h: nat)
    | GCasHead(h: nat, next: Option<nat>)
    | GAssert(h: nat)
    | GSub2(h: nat)
    | GSub1(h: nat, cur: Option<nat>)
    // add
    | AddFlag(n: nat)
    // add_knowing_refcount_is_zero
    | KLoadHead(n: nat, back: Back)
    | KStoreNext(n: nat, seen: Option<nat>, back: Back)
    | KStoreRefs(n: nat, seen: Option<nat>, back: Back)
    | KCasHead(n: nat, seen: Option<nat>, back: Back)
    | KGiveUp(n: nat, seen: Option<nat>, back: Back)

  /** Auxiliary: the one place each node is in. */
  datatype Where =
    | Client                 // owned by some client of the list
    | Returning(t: nat)      // handed to `add` by thread t
    | Listed                 // on the list
    | Parked                 // waiting for the last reference holder to re-add it
    | Adding(t: nat)         // being pushed by thread t
    | Taken(t: nat)          // popped by thread t, references not yet dropped

  /**
   `list` and `place` are auxiliary: no instruction reads them. A call of `add` is only
   asked to give back a node that its client owns, which `place` records.
   */
  datatype State = State(
    head: Option<nat>, nodes: seq<Node>, pcs: seq<Pc>, faulted: bool,
    list: seq<nat>, place: seq<Where>)

  function FetchAdd(w: nat, d: int): nat {
    (w + d) % WORD
  }

  function Resumed(back: Back): Pc {
    match back
    case Return => Idle(None)
    case Resume(None) => Idle(None)
    case Resume(Some(h)) => GLoadRefs(h)
  }

  predicate NodeOk(s: State, n: nat) {
    n < |s.nodes| && |s.place| == |s.nodes|
  }

  function SetPc(s: State, t: nat, pc: Pc): State
    requires t < |s.pcs|
  {
    s.(pcs := s.pcs[t := pc])
  }

  function SetRefs(s: State, n: nat, w: nat): State
    requires n < |s.nodes|
  {
    s.(nodes := s.nodes[n := s.nodes[n].(refs := w)])
  }

  function Move(s: State, n: nat, p: Where): State
    requires n < |s.place|
  {
    s.(place := s.place[n := p])
  }

  // ---------------------------------------------------------------------------
  // The program
  // ---------------------------------------------------------------------------

  /** The node named by the thread's current instruction exists. */
  predicate PcOk(s: State, pc: Pc) {
    match pc
    case Idle(_) => true
    case GLoadHead => true
    case GLoadRefs(h) => NodeOk(s, h)
    case GCasRefs(h, _) => NodeOk(s, h)
    case GLoadNext(h) => NodeOk(s, h)
    case GCasHead(h, _) => NodeOk(s, h)
    case GAssert(h) => NodeOk(s, h)
    case GSub2(h) => NodeOk(s, h)
    case GSub1(h, cur) => NodeOk(s, h) && (cur.Some? ==> NodeOk(s, cur.value))
    case AddFlag(n) => NodeOk(s, n)
    case KLoadHead(n, back) => NodeOk(s, n) && BackOk(s, back)
    case KStoreNext(n, _, back) => NodeOk(s, n) && BackOk(s, back)
    case KStoreRefs(n, _, back) => NodeOk(s, n) && BackOk(s, back)
    case KCasHead(n, _, back) => NodeOk(s, n) && BackOk(s, back)
    case KGiveUp(n, _, back) => NodeOk(s, n) && BackOk(s, back)
  }

  predicate BackOk(s: State, back: Back) {
    back.Resume? && back.cur.Some? ==> NodeOk(s, back.cur.value)
  }

  /** One instruction of `try_get`. */
  function GetStep(s: State, t: nat): State
    requires t < |s.pcs| && PcOk(s, s.pcs[t])
  {
    match s.pcs[t]
    case GLoadHead =>
      SetPc(s, t, if s.head.None? then Idle(None) else GLoadRefs(s.head.value))
    case GLoadRefs(h) =>
      var r := s.nodes[h].refs;
      SetPc(s, t, if r % SHOULD == 0 then GLoadHead else GCasRefs(h, r))
    case GCasRefs(h, r) =>
      if s.nodes[h].refs == r then SetPc(SetRefs(s, h, FetchAdd(r, 1)), t, GLoadNext(h))
      else SetPc(s, t, GLoadHead)
    case GLoadNext(h) => SetPc(s, t, GCasHead(h, s.nodes[h].next))
    case GCasHead(h, next) =>
      if s.head == Some(h) then
        SetPc(Move(s, h, Taken(t)), t, GAssert(h))
        .(head := next, list := if s.list == [] then [] else s.list[1..])
      else SetPc(s, t, GSub1(h, s.head))
    case GAssert(h) =>
      SetPc(s, t, GSub2(h)).(faulted := s.faulted || s.nodes[h].refs >= SHOULD)
    case GSub2(h) =>
      SetPc(SetRefs(Move(s, h, Client), h, FetchAdd(s.nodes[h].refs, -2)), t, Idle(Some(h)))
    case GSub1(h, cur) =>
      var s1 := SetRefs(s, h, FetchAdd(s.nodes[h].refs, -1));
      if s.nodes[h].refs == SHOULD + 1
      then SetPc(Move(s1, h, Adding(t)), t, KLoadHead(h, Resume(cur)))
      else SetPc(s1, t, Resumed(Resume(cur)))
    case _ => s
  }

  /** One instruction of `add` or of `add_knowing_refcount_is_zero`. */
  function AddStep(s: State, t: nat): State
    requires t < |s.pcs| && PcOk(s, s.pcs[t])
  {
    match s.pcs[t]
    case AddFlag(n) =>
      var s1 := SetRefs(s, n, FetchAdd(s.nodes[n].refs, SHOULD));
      if s.nodes[n].refs == 0
      then SetPc(Move(s1, n, Adding(t)), t, KLoadHead(n, Return))
      else SetPc(Move(s1, n, Parked), t, Idle(None))
    case KLoadHead(n, back) => SetPc(s, t, KStoreNext(n, s.head, back))
    case KStoreNext(n, seen, back) =>
      SetPc(s.(nodes := s.nodes[n := s.nodes[n].(next := seen)]), t, KStoreRefs(n, seen, back))
    case KStoreRefs(n, seen, back) =>
      SetPc(SetRefs(s, n, 1), t, KCasHead(n, seen, back))
    case KCasHead(n, seen, back) =>
      if s.head == seen then
        SetPc(Move(s, n, Listed), t, Resumed(back)).(head := Some(n), list := [n] + s.list)
      else SetPc(s, t, KGiveUp(n, s.head, back))
    case KGiveUp(n, seen, back) =>
      var s1 := SetRefs(s, n, FetchAdd(s.nodes[n].refs, SHOULD - 1));
      if s.nodes[n].refs == 1 then SetPc(s1, t, KStoreNext(n, seen, back))
      else SetPc(Move(s1, n, Parked), t, Resumed(back))
    case _ => s
  }

  datatype Step =
    | TryGet(t: nat)              // an idle thread calls try_get
    | Add(t: nat, n: nat)         // an idle thread gives back a client's node
    | Run(t: nat)                 // a busy thread executes one instruction
    | NewNode                     // a client allocates a node

  predicate Enabled(s: State, step: Step) {
    match step
    case TryGet(t) => t < |s.pcs| && s.pcs[t].Idle?
    case Add(t, n) => t < |s.pcs| && s.pcs[t].Idle? && NodeOk(s, n) && s.place[n].Client?
    case Run(t) => t < |s.pcs| && !s.pcs[t].Idle? && PcOk(s, s.pcs[t])
    case NewNode => true
  }

  predicate InAdd(pc: Pc) {
    pc.AddFlag? || pc.KLoadHead? || pc.KStoreNext? || pc.KStoreRefs? || pc.KCasHead? || pc.KGiveUp?
  }

  function Do(s: State, step: Step): State
    requires Enabled(s, step)
  {
    match step
    case TryGet(t) => SetPc(s, t, GLoadHead)
    case Add(t, n) => SetPc(Move(s, n, Returning(t)), t, AddFlag(n))
    case Run(t) => if InAdd(s.pcs[t]) then AddStep(s, t) else GetStep(s, t)
    case NewNode => s.(nodes := s.nodes + [Node(0, None)], place := s.place + [Client])
  }

  // ---------------------------------------------------------------------------
  // The invariant
  // ---------------------------------------------------------------------------

  /** The thread has counted itself in the node's reference word. */
  predicate Holds(pc: Pc, n: nat) {
    (pc.GLoadNext? || pc.GCasHead? || pc.GAssert? || pc.GSub2? || pc.GSub1?) && pc.h == n
  }

  /** How many threads hold a reference to `n`. */
  function Holders(pcs: seq<Pc>, n: nat): nat {
    if pcs == [] then 0
    else (if Holds(pcs[0], n) then 1 else 0) + Holders(pcs[1..], n)
  }

  ghost predicate NodeInv(s: State, n: nat)
    requires NodeOk(s, n)
  {
    var w, c := s.nodes[n].refs, Holders(s.pcs, n);
    match s.place[n]
    case Client => w == c
    case Returning(t) => w == c && t < |s.pcs| && s.pcs[t] == AddFlag(n)
    case Listed => w == c + 1 && n in s.list
    case Parked => w == SHOULD + c && c > 0
    case Adding(t) =>
      && t < |s.pcs| && InAdd(s.pcs[t]) && !s.pcs[t].AddFlag? && s.pcs[t].n == n
      && if s.pcs[t].KCasHead? || s.pcs[t].KGiveUp? then w == c + 1 else w == SHOULD && c == 0
    case Taken(t) =>
      w == c + 1 && t < |s.pcs| && (s.pcs[t] == GAssert(n) || s.pcs[t] == GSub2(n))
  }

  ghost predicate ThreadInv(s: State, t: nat)
    requires t < |s.pcs|
  {
    && PcOk(s, s.pcs[t])
    && match s.pcs[t]
       case GCasRefs(_, r) => r % SHOULD != 0
       case GCasHead(h, next) => s.nodes[h].next == next
       case GAssert(h) => s.place[h] == Taken(t)
       case GSub2(h) => s.place[h] == Taken(t)
       case AddFlag(n) => s.place[n] == Returning(t)
       case KLoadHead(n, _) => s.place[n] == Adding(t)
       case KStoreNext(n, seen, _) => s.place[n] == Adding(t) && (seen.Some? ==> NodeOk(s, seen.value))
       case KStoreRefs(n, seen, _) => s.place[n] == Adding(t) && s.nodes[n].next == seen
       case KCasHead(n, seen, _) => s.place[n] == Adding(t) && s.nodes[n].next == seen
       case KGiveUp(n, seen, _) => s.place[n] == Adding(t) && (seen.Some? ==> NodeOk(s, seen.value))
       case _ => true
  }

  function First(list: seq<nat>): Option<nat> {
    if list == [] then None else Some(list[0])
  }

  /** Following `freeListNext` from the head visits exactly `list`, each node once. */
  ghost predicate ListInv(s: State) {
    && s.head == First(s.list)
    && (forall i: nat | i < |s.list| ::
          && NodeOk(s, s.list[i]) && s.place[s.list[i]].Listed?
          && s.nodes[s.list[i]].next == First(s.list[i + 1..]))
    && forall i: nat, j: nat | i < j < |s.list| :: s.list[i] != s.list[j]
  }

  ghost predicate Inv(s: State) {
    && |s.place| == |s.nodes| && !s.faulted
    && |s.pcs| + 2 <= SHOULD
    && ListInv(s)
    && (forall n: nat | n < |s.nodes| :: NodeInv(s, n))
    && (forall t: nat | t < |s.pcs| :: ThreadInv(s, t))
  }

  // ---------------------------------------------------------------------------
  // Counting reference holders
  // ---------------------------------------------------------------------------

  lemma {:induction false} HoldersBound(pcs: seq<Pc>, n: nat)
    ensures Holders(pcs, n) <= |pcs|
  {
    if pcs != [] { HoldersBound(pcs[1..], n); }
  }

  lemma {:induction false} HoldersUpdate(pcs: seq<Pc>, t: nat, pc: Pc, n: nat)
    requires t < |pcs|
    ensures Holders(pcs[t := pc], n) + (if Holds(pcs[t], n) then 1 else 0)
         == Holders(pcs, n) + (if Holds(pc, n) then 1 else 0)
  {
    if t == 0 {
      assert pcs[0 := pc][1..] == pcs[1..];
    } else {
      HoldersUpdate(pcs[1..], t - 1, pc, n);
      assert pcs[t := pc][1..] == pcs[1..][t - 1 := pc];
    }
  }

  lemma HolderCounts(pcs: seq<Pc>, t: nat, n: nat)
    requires t < |pcs| && Holds(pcs[t], n)
    ensures Holders(pcs, n) >= 1
  {
    HoldersUpdate(pcs, t, Idle(None), n);
  }

  /** No reference holder, no thread holding it. */
  lemma {:induction false} NoHolder(pcs: seq<Pc>, n: nat)
    requires forall t: nat | t < |pcs| :: !Holds(pcs[t], n)
    ensures Holders(pcs, n) == 0
  {
    if pcs != [] { NoHolder(pcs[1..], n); }
  }

  // ---------------------------------------------------------------------------
  // Every step keeps the invariant
  // ---------------------------------------------------------------------------

  /** Thread `t` moved to `pc` and touched at most node `n`. */
  ghost predicate Touched(s: State, s': State, t: nat, pc: Pc, n: nat) {
    && t < |s.pcs| && s'.pcs == s.pcs[t := pc]
    && |s'.nodes| == |s.nodes| == |s.place| == |s'.place|
    && (forall m: nat | m < |s.nodes| && m != n :: s'.nodes[m] == s.nodes[m] && s'.place[m] == s.place[m])
  }

  /** The thread's instruction concerns no node but `n`. */
  predicate Names(pc: Pc, n: nat) {
    (InAdd(pc) ==> pc.n == n)
    && (pc.GLoadNext? || pc.GCasHead? || pc.GAssert? || pc.GSub2? || pc.GSub1? ==> pc.h == n)
  }

  /** A thread owns the auxiliary tag of no node but the one its instruction names. */
  lemma OwnTags(s: State, t: nat, m: nat)
    requires Inv(s) && t < |s.pcs| && m < |s.nodes|
    requires s.place[m] == Returning(t) || s.place[m] == Adding(t) || s.place[m] == Taken(t)
    ensures InAdd(s.pcs[t]) ==> s.pcs[t].n == m
    ensures !InAdd(s.pcs[t]) ==> s.pcs[t] == GAssert(m) || s.pcs[t] == GSub2(m)
  {
    assert NodeInv(s, m);
  }

  /** The other nodes are not affected: `t` held at most `n` before and holds at most `n` after. */
  lemma OtherNodes(s: State, s': State, t: nat, pc: Pc, n: nat)
    requires Inv(s) && Touched(s, s', t, pc, n)
    requires Names(s.pcs[t], n) && Names(pc, n)
    requires forall m: nat | m < |s.nodes| && m != n :: m in s.list ==> m in s'.list
    ensures forall m: nat | m < |s.nodes| && m != n :: NodeInv(s', m)
  {
    forall m: nat | m < |s.nodes| && m != n ensures NodeInv(s', m) {
      assert NodeInv(s, m);
      HoldersUpdate(s.pcs, t, pc, m);
      if s.place[m] == Returning(t) || s.place[m] == Adding(t) || s.place[m] == Taken(t) { OwnTags(s, t, m); }
    }
  }

  /** Which tag changes and `next` changes other threads tolerate. */
  ghost predicate Tolerable(s: State, s': State, t: nat, n: nat)
    requires n < |s.nodes| == |s.place| == |s'.nodes| == |s'.place|
  {
    && (s'.nodes[n].next == s.nodes[n].next || (Holders(s.pcs, n) == 0 && s.place[n] == Adding(t)))
    && (s'.place[n] == s.place[n] || s.place[n].Client? || s.place[n].Listed? || s.place[n].Parked?
        || s.place[n] == Returning(t) || s.place[n] == Adding(t) || s.place[n] == Taken(t))
  }

  lemma OtherThreads(s: State, s': State, t: nat, pc: Pc, n: nat)
    requires Inv(s) && Touched(s, s', t, pc, n)
    requires n < |s.nodes| ==> Tolerable(s, s', t, n)
    ensures forall u: nat | u < |s.pcs| && u != t :: ThreadInv(s', u)
  {
    forall u: nat | u < |s.pcs| && u != t ensures ThreadInv(s', u) {
      assert ThreadInv(s, u);
      if s.pcs[u].GCasHead? { HolderCounts(s.pcs, u, s.pcs[u].h); }
    }
  }

  /** What is left to check for one step of thread `t`. */
  lemma StepOk(s: State, s': State, t: nat, pc: Pc, n: nat)
    requires Inv(s) && Touched(s, s', t, pc, n) && !s'.faulted
    requires Names(s.pcs[t], n) && Names(pc, n)
    requires n < |s.nodes| ==> Tolerable(s, s', t, n) && NodeInv(s', n)
    requires forall m: nat | m < |s.nodes| && m != n :: m in s.list ==> m in s'.list
    requires ThreadInv(s', t) && ListInv(s')
    ensures Inv(s')
  {
    hide Holders, ListInv;
    OtherNodes(s, s', t, pc, n);
    OtherThreads(s, s', t, pc, n);
  }

  /** The list survives any step that leaves listed nodes' `next` and tags alone. */
  lemma ListKept(s: State, s': State, t: nat, pc: Pc, n: nat)
    requires Inv(s) && Touched(s, s', t, pc, n) && s'.head == s.head && s'.list == s.list
    requires n < |s.nodes| ==> !s.place[n].Listed? || (s'.place[n] == s.place[n] && s'.nodes[n].next == s.nodes[n].next)
    ensures ListInv(s')
  {
    forall i: nat | i < |s.list|
      ensures NodeOk(s', s.list[i]) && s'.place[s.list[i]].Listed?
      ensures s'.nodes[s.list[i]].next == First(s.list[i + 1..])
    {
      assert NodeOk(s, s.list[i]);
    }
  }

  /** A listed node's successor exists. */
  lemma HeadOk(s: State)
    requires Inv(s) && s.head.Some?
    ensures NodeOk(s, s.head.value) && s.place[s.head.value].Listed? && s.head.value in s.list
  {
    assert NodeOk(s, s.list[0]);
  }

  /** Reference words never overflow. */
  lemma FetchAddExact(w: nat, d: int)
    requires 0 <= w + d < WORD
    ensures FetchAdd(w, d) == w + d
  {}

  lemma GetLoadsInv(s: State, t: nat)
    requires Inv(s) && t < |s.pcs| && PcOk(s, s.pcs[t])
    requires s.pcs[t].GLoadHead? || s.pcs[t].GLoadRefs?
    ensures Inv(GetStep(s, t))
  {
    hide Holders, FetchAdd, ListInv;
    var s' := GetStep(s, t);
    assert ThreadInv(s, t);
    if s.head.Some? { HeadOk(s); }
    ListKept(s, s', t, s'.pcs[t], |s.nodes|);
    StepOk(s, s', t, s'.pcs[t], |s.nodes|);
  }

  lemma GCasRefsInv(s: State, t: nat)
    requires Inv(s) && t < |s.pcs| && s.pcs[t].GCasRefs? && PcOk(s, s.pcs[t])
    ensures Inv(GetStep(s, t))
  {
    hide Holders, FetchAdd, ListInv;
    var s', h := GetStep(s, t), s.pcs[t].h;
    assert ThreadInv(s, t) && NodeInv(s, h);
    HoldersBound(s.pcs, h);
    FetchAddExact(s.nodes[h].refs, 1);
    HoldersUpdate(s.pcs, t, s'.pcs[t], h);
    ListKept(s, s', t, s'.pcs[t], h);
    StepOk(s, s', t, s'.pcs[t], h);
  }

  lemma GLoadNextInv(s: State, t: nat)
    requires Inv(s) && t < |s.pcs| && (s.pcs[t].GLoadNext? || s.pcs[t].GAssert?) && PcOk(s, s.pcs[t])
    ensures Inv(GetStep(s, t))
  {
    hide Holders, FetchAdd, ListInv;
    var s', h := GetStep(s, t), s.pcs[t].h;
    assert ThreadInv(s, t) && NodeInv(s, h);
    HoldersBound(s.pcs, h);
    HoldersUpdate(s.pcs, t, s'.pcs[t], h);
    ListKept(s, s', t, s'.pcs[t], h);
    StepOk(s, s', t, s'.pcs[t], h);
  }

  /** Popping: the value swung into the head is the true successor (no ABA). */
  lemma GPoppedInv(s: State, t: nat)
    requires Inv(s) && t < |s.pcs| && s.pcs[t].GCasHead? && PcOk(s, s.pcs[t]) && s.head == Some(s.pcs[t].h)
    ensures Inv(GetStep(s, t))
    ensures s.list != [] && s.list[0] == s.pcs[t].h && GetStep(s, t).list == s.list[1..]
  {
    hide Holders, FetchAdd, ListInv;
    var s', h := GetStep(s, t), s.pcs[t].h;
    assert ThreadInv(s, t) && NodeInv(s, h);
    HoldersUpdate(s.pcs, t, s'.pcs[t], h);
    PoppedList(s, s', h, Taken(t));
    StepOk(s, s', t, s'.pcs[t], h);
  }

  lemma PoppedList(s: State, s': State, h: nat, p: Where)
    requires ListInv(s) && s.head == Some(h) && !p.Listed? && NodeOk(s, h)
    requires s'.nodes == s.nodes && s'.place == s.place[h := p]
    requires s'.head == s.nodes[h].next && s'.list == if s.list == [] then [] else s.list[1..]
    ensures s.list != [] && s.list[0] == h && s.place[h].Listed? && ListInv(s')
    ensures forall m: nat | m in s.list && m != h :: m in s'.list
  {
    assert NodeOk(s, s.list[0]);
    forall i: nat | i < |s'.list|
      ensures NodeOk(s', s'.list[i]) && s'.place[s'.list[i]].Listed?
      ensures s'.nodes[s'.list[i]].next == First(s'.list[i + 1..])
    {
      assert s'.list[i] == s.list[i + 1] && s'.list[i + 1..] == s.list[i + 2..];
    }
  }

  lemma GCasHeadFailedInv(s: State, t: nat)
    requires Inv(s) && t < |s.pcs| && s.pcs[t].GCasHead? && PcOk(s, s.pcs[t]) && s.head != Some(s.pcs[t].h)
    ensures Inv(GetStep(s, t))
  {
    hide Holders, FetchAdd, ListInv;
    var s', h := GetStep(s, t), s.pcs[t].h;
    assert ThreadInv(s, t) && NodeInv(s, h);
    HoldersUpdate(s.pcs, t, s'.pcs[t], h);
    if s.head.Some? { HeadOk(s); }
    ListKept(s, s', t, s'.pcs[t], h);
    StepOk(s, s', t, s'.pcs[t], h);
  }

  lemma GSub2Inv(s: State, t: nat)
    requires Inv(s) && t < |s.pcs| && s.pcs[t].GSub2? && PcOk(s, s.pcs[t])
    ensures Inv(GetStep(s, t))
  {
    hide Holders, FetchAdd, ListInv;
    var s', h := GetStep(s, t), s.pcs[t].h;
    assert ThreadInv(s, t) && NodeInv(s, h);
    HoldersBound(s.pcs, h);
    HolderCounts(s.pcs, t, h);
    FetchAddExact(s.nodes[h].refs, -2);
    HoldersUpdate(s.pcs, t, s'.pcs[t], h);
    ListKept(s, s', t, s'.pcs[t], h);
    StepOk(s, s', t, s'.pcs[t], h);
  }

  lemma GSub1Inv(s: State, t: nat)
    requires Inv(s) && t < |s.pcs| && s.pcs[t].GSub1? && PcOk(s, s.pcs[t])
    ensures Inv(GetStep(s, t))
  {
    hide Holders, FetchAdd, ListInv;
    var s', h := GetStep(s, t), s.pcs[t].h;
    assert ThreadInv(s, t) && NodeInv(s, h);
    HoldersBound(s.pcs, h);
    HolderCounts(s.pcs, t, h);
    FetchAddExact(s.nodes[h].refs, -1);
    HoldersUpdate(s.pcs, t, s'.pcs[t], h);
    ListKept(s, s', t, s'.pcs[t], h);
    StepOk(s, s', t, s'.pcs[t], h);
  }

  lemma AddFlagInv(s: State, t: nat)
    requires Inv(s) && t < |s.pcs| && s.pcs[t].AddFlag? && PcOk(s, s.pcs[t])
    ensures Inv(AddStep(s, t))
  {
    hide Holders, FetchAdd, ListInv;
    var s', n := AddStep(s, t), s.pcs[t].n;
    assert ThreadInv(s, t) && NodeInv(s, n);
    HoldersBound(s.pcs, n);
    FetchAddExact(s.nodes[n].refs, SHOULD);
    HoldersUpdate(s.pcs, t, s'.pcs[t], n);
    ListKept(s, s', t, s'.pcs[t], n);
    StepOk(s, s', t, s'.pcs[t], n);
  }

  lemma KLoadHeadInv(s: State, t: nat)
    requires Inv(s) && t < |s.pcs| && s.pcs[t].KLoadHead? && PcOk(s, s.pcs[t])
    ensures Inv(AddStep(s, t))
  {
    hide Holders, FetchAdd, ListInv;
    var s', n := AddStep(s, t), s.pcs[t].n;
    assert ThreadInv(s, t) && NodeInv(s, n);
    HoldersUpdate(s.pcs, t, s'.pcs[t], n);
    if s.head.Some? { HeadOk(s); }
    ListKept(s, s', t, s'.pcs[t], n);
    StepOk(s, s', t, s'.pcs[t], n);
  }

  lemma KStoreInv(s: State, t: nat)
    requires Inv(s) && t < |s.pcs| && (s.pcs[t].KStoreNext? || s.pcs[t].KStoreRefs?) && PcOk(s, s.pcs[t])
    ensures Inv(AddStep(s, t))
  {
    hide Holders, FetchAdd, ListInv;
    var s', n := AddStep(s, t), s.pcs[t].n;
    assert ThreadInv(s, t) && NodeInv(s, n);
    HoldersUpdate(s.pcs, t, s'.pcs[t], n);
    ListKept(s, s', t, s'.pcs[t], n);
    StepOk(s, s', t, s'.pcs[t], n);
  }

  lemma KPushedInv(s: State, t: nat)
    requires Inv(s) && t < |s.pcs| && s.pcs[t].KCasHead? && PcOk(s, s.pcs[t]) && s.head == s.pcs[t].seen
    ensures Inv(AddStep(s, t))
  {
    hide Holders, FetchAdd, ListInv;
    var s', n := AddStep(s, t), s.pcs[t].n;
    assert ThreadInv(s, t) && NodeInv(s, n);
    HoldersUpdate(s.pcs, t, s'.pcs[t], n);
    PushedList(s, s', n);
    StepOk(s, s', t, s'.pcs[t], n);
  }

  lemma PushedList(s: State, s': State, n: nat)
    requires ListInv(s) && NodeOk(s, n) && !s.place[n].Listed? && s.nodes[n].next == s.head
    requires s'.nodes == s.nodes && s'.place == s.place[n := Listed]
    requires s'.head == Some(n) && s'.list == [n] + s.list
    ensures ListInv(s')
  {
    assert s'.list[1..] == s.list;
    forall i: nat | i < |s'.list|
      ensures NodeOk(s', s'.list[i]) && s'.place[s'.list[i]].Listed?
      ensures s'.nodes[s'.list[i]].next == First(s'.list[i + 1..])
    {
      if i > 0 { assert s'.list[i] == s.list[i - 1] && s'.list[i + 1..] == s.list[i..]; }
    }
  }

  lemma KCasFailedInv(s: State, t: nat)
    requires Inv(s) && t < |s.pcs| && s.pcs[t].KCasHead? && PcOk(s, s.pcs[t]) && s.head != s.pcs[t].seen
    ensures Inv(AddStep(s, t))
  {
    hide Holders, FetchAdd, ListInv;
    var s', n := AddStep(s, t), s.pcs[t].n;
    assert ThreadInv(s, t) && NodeInv(s, n);
    HoldersUpdate(s.pcs, t, s'.pcs[t], n);
    if s.head.Some? { HeadOk(s); }
    ListKept(s, s', t, s'.pcs[t], n);
    StepOk(s, s', t, s'.pcs[t], n);
  }

  lemma KGiveUpInv(s: State, t: nat)
    requires Inv(s) && t < |s.pcs| && s.pcs[t].KGiveUp? && PcOk(s, s.pcs[t])
    ensures Inv(AddStep(s, t))
  {
    hide Holders, FetchAdd, ListInv;
    var s', n := AddStep(s, t), s.pcs[t].n;
    assert ThreadInv(s, t) && NodeInv(s, n);
    HoldersBound(s.pcs, n);
    FetchAddExact(s.nodes[n].refs, SHOULD - 1);
    HoldersUpdate(s.pcs, t, s'.pcs[t], n);
    ListKept(s, s', t, s'.pcs[t], n);
    StepOk(s, s', t, s'.pcs[t], n);
  }

  lemma StartInv(s: State, step: Step)
    requires Inv(s) && Enabled(s, step) && (step.TryGet? || step.Add?)
    ensures Inv(Do(s, step))
  {
    hide Holders, FetchAdd, ListInv;
    var s', t := Do(s, step), step.t;
    var n := if step.Add? then step.n else |s.nodes|;
    if step.Add? { assert NodeInv(s, n); }
    HoldersUpdate(s.pcs, t, s'.pcs[t], n);
    ListKept(s, s', t, s'.pcs[t], n);
    StepOk(s, s', t, s'.pcs[t], n);
  }

  lemma NewNodeInv(s: State)
    requires Inv(s)
    ensures Inv(Do(s, NewNode))
  {
    hide Holders, FetchAdd;
    var s', k := Do(s, NewNode), |s.nodes|;
    forall t: nat | t < |s.pcs| ensures !Holds(s.pcs[t], k) && ThreadInv(s', t) { assert ThreadInv(s, t); }
    NoHolder(s.pcs, k);
    forall n: nat | n < |s'.nodes| ensures NodeInv(s', n) {
      if n < k { assert NodeInv(s, n); }
    }
    forall i: nat | i < |s.list| ensures NodeOk(s, s.list[i]) {}
  }

  /** Every step of every thread keeps the invariant. */
  lemma StepInv(s: State, step: Step)
    requires Inv(s) && Enabled(s, step)
    ensures Inv(Do(s, step))
  {
    hide Inv;
    match step
    case TryGet(_) => StartInv(s, step);
    case Add(_, _) => StartInv(s, step);
    case NewNode => NewNodeInv(s);
    case Run(t) =>
      match s.pcs[t]
      case GLoadHead => GetLoadsInv(s, t);
      case GLoadRefs(_) => GetLoadsInv(s, t);
      case GCasRefs(_, _) => GCasRefsInv(s, t);
      case GLoadNext(_) => GLoadNextInv(s, t);
      case GCasHead(h, _) => if s.head == Some(h) { GPoppedInv(s, t); } else { GCasHeadFailedInv(s, t); }
      case GAssert(_) => GLoadNextInv(s, t);
      case GSub2(_) => GSub2Inv(s, t);
      case GSub1(_, _) => GSub1Inv(s, t);
      case AddFlag(_) => AddFlagInv(s, t);
      case KLoadHead(_, _) => KLoadHeadInv(s, t);
      case KStoreNext(_, _, _) => KStoreInv(s, t);
      case KStoreRefs(_, _, _) => KStoreInv(s, t);
      case KCasHead(_, seen, _) => if s.head == seen { KPushedInv(s, t); } else { KCasFailedInv(s, t); }
      case KGiveUp(_, _, _) => KGiveUpInv(s, t);
  }

  // ---------------------------------------------------------------------------
  // Runs
  // ---------------------------------------------------------------------------

  /** Threads idle, an empty list, every existing node owned by a client. */
  ghost predicate Initial(s: State) {
    && s.head == None && s.list == [] && !s.faulted
    && |s.pcs| + 2 <= SHOULD && (forall t: nat | t < |s.pcs| :: s.pcs[t].Idle?)
    && |s.place| == |s.nodes|
    && forall n: nat | n < |s.nodes| :: s.nodes[n].refs == 0 && s.place[n].Client?
  }

  ghost predicate IsRun(run: seq<State>, steps: seq<Step>) {
    && |run| == |steps| + 1 && Initial(run[0])
    && forall i: nat | i < |steps| :: Enabled(run[i], steps[i]) && run[i + 1] == Do(run[i], steps[i])
  }

  lemma InitialInv(s: State)
    requires Initial(s)
    ensures Inv(s)
  {
    forall n: nat | n < |s.nodes| ensures NodeInv(s, n) { NoHolder(s.pcs, n); }
  }

  lemma {:induction false} RunInv(run: seq<State>, steps: seq<Step>, i: nat)
    requires IsRun(run, steps) && i <= |steps|
    ensures Inv(run[i])
    decreases i
  {
    if i == 0 {
      InitialInv(run[0]);
    } else {
      RunInv(run, steps, i - 1);
      StepInv(run[i - 1], steps[i - 1]);
    }
  }

  /** The nodes met from `from` along `freeListNext`, giving up after `fuel` links. */
  function Chain(nodes: seq<Node>, from: Option<nat>, fuel: nat): seq<nat>
    decreases fuel
  {
    if from.None? || fuel == 0 || from.value >= |nodes| then []
    else [from.value] + Chain(nodes, nodes[from.value].next, fuel - 1)
  }

  lemma {:induction false} ChainReads(nodes: seq<Node>, list: seq<nat>, fuel: nat)
    requires fuel >= |list|
    requires forall i: nat | i < |list| :: list[i] < |nodes| && nodes[list[i]].next == First(list[i + 1..])
    ensures Chain(nodes, First(list), fuel) == list
    decreases |list|
  {
    if list != [] {
      forall i: nat | i < |list[1..]| ensures nodes[list[1..][i]].next == First(list[1..][i + 1..]) {
        assert list[1..][i] == list[i + 1] && list[1..][i + 1..] == list[i + 2..];
      }
      ChainReads(nodes, list[1..], fuel - 1);
    }
  }

  /** The chain from the head through `freeListNext` is the list, without repetition. */
  lemma ListIsChain(s: State)
    requires Inv(s)
    ensures Chain(s.nodes, s.head, |s.nodes|) == s.list
    ensures forall i: nat, j: nat | i < j < |s.list| :: s.list[i] != s.list[j]
  {
    Pigeonhole(s.list, |s.nodes|);
    ChainReads(s.nodes, s.list, |s.nodes|);
  }

  /** The thread is at an instruction that only the owner of node `n` executes. */
  predicate Owning(pc: Pc, n: nat) {
    (InAdd(pc) && pc.n == n) || pc == GAssert(n) || pc == GSub2(n)
  }

  /** Node `n` is with thread `t`, on its way to or from the list. */
  predicate WithThread(s: State, n: nat, t: nat)
    requires n < |s.place|
  {
    s.place[n] == Returning(t) || s.place[n] == Adding(t) || s.place[n] == Taken(t)
  }

  /** The place of a node names the one thread that is working on it. */
  lemma OneOwner(s: State, n: nat, t: nat)
    requires Inv(s) && n < |s.nodes|
    ensures WithThread(s, n, t) <==> t < |s.pcs| && Owning(s.pcs[t], n)
  {
    hide Holders, ListInv;
    assert NodeInv(s, n);
    if t < |s.pcs| { assert ThreadInv(s, t); }
  }

  /** The list's own share of a node's reference count. */
  function Share(s: State, n: nat): nat
    requires NodeOk(s, n)
  {
    match s.place[n]
    case Listed => 1
    case Taken(_) => 1
    case Adding(t) => if t < |s.pcs| && (s.pcs[t].KCasHead? || s.pcs[t].KGiveUp?) then 1 else 0
    case _ => 0
  }

  /**
   In every reachable state the reference word is the list's share plus the threads that
   hold the node, with the top bit set exactly while the node waits to be (re-)added; the
   chain from the head through `freeListNext` visits each of its nodes once; a node is on it
   exactly when it is with no client, no thread and not waiting; a node is with a thread
   exactly when that thread is at an instruction of its owner; and the assert in `try_get`
   has never failed.
   */
  lemma ReferenceCounts(run: seq<State>, steps: seq<Step>, i: nat, n: nat)
    requires IsRun(run, steps) && i <= |steps| && n < |run[i].nodes|
    ensures var s := run[i];
      && !s.faulted && NodeOk(s, n)
      && s.nodes[n].refs % SHOULD == Share(s, n) + Holders(s.pcs, n)
      && (s.nodes[n].refs >= SHOULD <==>
            s.place[n].Parked? || (s.place[n].Adding? && Share(s, n) == 0))
      && (s.place[n].Parked? ==> Holders(s.pcs, n) > 0)
    ensures var s := run[i]; var chain := Chain(s.nodes, s.head, |s.nodes|);
      && NodeOk(s, n) && (n in chain <==> s.place[n].Listed?)
      && (forall k: nat, l: nat | k < l < |chain| :: chain[k] != chain[l])
      && (forall t: nat :: WithThread(s, n, t) <==> t < |s.pcs| && Owning(s.pcs[t], n))
  {
    hide Inv;
    RunInv(run, steps, i);
    NodeCounts(run[i], n);
    ListIsChain(run[i]);
    forall t: nat ensures WithThread(run[i], n, t) <==> t < |run[i].pcs| && Owning(run[i].pcs[t], n) {
      OneOwner(run[i], n, t);
    }
  }

  lemma NodeCounts(s: State, n: nat)
    requires Inv(s) && n < |s.nodes|
    ensures
      && !s.faulted && NodeOk(s, n)
      && s.nodes[n].refs % SHOULD == Share(s, n) + Holders(s.pcs, n)
      && (s.nodes[n].refs >= SHOULD <==>
            s.place[n].Parked? || (s.place[n].Adding? && Share(s, n) == 0))
      && (n in s.list <==> s.place[n].Listed?)
      && (s.place[n].Parked? ==> Holders(s.pcs, n) > 0)
  {
    hide Holders;
    assert NodeInv(s, n);
    HoldersBound(s.pcs, n);
  }

  /** `freeListNext` never changes while some thread holds a reference (no ABA). */
  lemma NextStable(s: State, step: Step, n: nat)
    requires Inv(s) && Enabled(s, step) && n < |s.nodes| && Holders(s.pcs, n) > 0
    ensures Do(s, step).nodes[n].next == s.nodes[n].next
  {
    hide Holders, Inv;
    if step.Run? && s.pcs[step.t].KStoreNext? { StoreHasNoHolder(s, step.t); }
    OnlyStoreChanges(s, step, n);
  }

  /** Only the store of `freeListNext` itself changes it. */
  lemma OnlyStoreChanges(s: State, step: Step, n: nat)
    requires Enabled(s, step) && n < |s.nodes|
    requires step.Run? && s.pcs[step.t].KStoreNext? ==> s.pcs[step.t].n != n
    ensures n < |Do(s, step).nodes| && Do(s, step).nodes[n].next == s.nodes[n].next
  {
    hide FetchAdd;
  }

  lemma StoreHasNoHolder(s: State, t: nat)
    requires Inv(s) && t < |s.pcs| && s.pcs[t].KStoreNext?
    ensures s.pcs[t].n < |s.nodes| && Holders(s.pcs, s.pcs[t].n) == 0
  {
    hide Holders, ListInv;
    assert ThreadInv(s, t);
    assert NodeInv(s, s.pcs[t].n);
  }

  /**
   When no call is in progress, every node is with a client or on the chain from the head
   through `freeListNext`, where its reference count is 1: none is stranded.
   */
  lemma Quiescent(run: seq<State>, steps: seq<Step>, i: nat, n: nat)
    requires IsRun(run, steps) && i <= |steps| && n < |run[i].nodes|
    requires forall t: nat | t < |run[i].pcs| :: run[i].pcs[t].Idle?
    ensures var s := run[i]; var chain := Chain(s.nodes, s.head, |s.nodes|);
      && NodeOk(s, n) && (s.place[n].Client? <==> n !in chain)
      && s.nodes[n].refs == (if n in chain then 1 else 0)
      && (forall k: nat, l: nat | k < l < |chain| :: chain[k] != chain[l])
  {
    RunInv(run, steps, i);
    NoHolder(run[i].pcs, n);
    assert NodeInv(run[i], n);
    ListIsChain(run[i]);
    NodeCounts(run[i], n);
    hide Chain, ListInv;
  }

  /** A successful `try_get` takes the first node off the list and gives it to the caller alone. */
  lemma PopIsHead(s: State, t: nat)
    requires Inv(s) && t < |s.pcs| && s.pcs[t].GCasHead? && s.head == Some(s.pcs[t].h)
    ensures Enabled(s, Run(t)) && s.list != [] && s.list[0] == s.pcs[t].h
    ensures var s' := Do(s, Run(t)); s'.list == s.list[1..] && s'.place[s.list[0]] == Taken(t)
  {
    assert ThreadInv(s, t);
    GPoppedInv(s, t);
  }
}
