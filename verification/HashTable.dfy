/**
 One open-addressing table of the thread-to-producer hash: linear probing from the hashed
 id, slots that are never emptied again but may become reusable.
 */
module HashTable {
  import opened Options
  import opened Bits
  import opened BlockIndex

  /** `Empty` is `invalid_thread_id`, `Reusable` is `invalid_thread_id2`. */
  datatype Key = Empty | Reusable | Id(id: nat)

  datatype Slot = Slot(key: Key, value: nat)

  type Table = seq<Slot>

  /** The slot where probing for an id with this hash starts: `hashedId & (capacity - 1)`. */
  function Home(hashed: nat, capacity: nat): nat
    requires capacity >= 1
  {
    And(hashed, capacity - 1)
  }

  lemma HomeInRange(hashed: nat, capacity: nat)
    requires IsPow2(capacity)
    ensures capacity >= 1 && Home(hashed, capacity) < capacity
  {
    var k: nat :| capacity == Pow2(k);
    MaskIsRemainder(hashed, k);
  }

  // ---------------------------------------------------------------------------
  // Contents and occupancy
  // ---------------------------------------------------------------------------

  ghost function Ids(t: Table): set<nat> {
    set p | 0 <= p < |t| && t[p].key.Id? :: t[p].key.id
  }

  /** The number of slots that are not empty (in use or reusable). */
  function Occupied(t: Table): nat {
    if t == [] then 0 else (if t[0].key.Empty? then 0 else 1) + Occupied(t[1..])
  }

  lemma {:induction false} OccupiedUpdate(t: Table, p: nat, s: Slot)
    requires p < |t|
    ensures Occupied(t[p := s]) + (if t[p].key.Empty? then 0 else 1) == Occupied(t) + (if s.key.Empty? then 0 else 1)
  {
    if p == 0 {
      assert t[0 := s][1..] == t[1..];
    } else {
      OccupiedUpdate(t[1..], p - 1, s);
      assert t[p := s][1..] == t[1..][p - 1 := s];
    }
  }

  /** A table that is not fully occupied has an empty slot. */
  lemma {:induction false} EmptySlot(t: Table) returns (p: nat)
    requires Occupied(t) < |t|
    ensures p < |t| && t[p].key.Empty?
  {
    if t[0].key.Empty? {
      p := 0;
    } else {
      p := EmptySlot(t[1..]);
      p := p + 1;
    }
  }

  /** There are at most as many ids as occupied slots. */
  lemma {:induction false} FewIds(t: Table)
    ensures |Ids(t)| <= Occupied(t)
    decreases |t|
  {
    if t != [] {
      FewIds(t[1..]);
      if t[0].key.Id? {
        assert Ids(t) == {t[0].key.id} + Ids(t[1..]) by { IdsCons(t); }
      } else {
        assert Ids(t) == Ids(t[1..]) by { IdsCons(t); }
      }
    }
  }

  lemma IdsCons(t: Table)
    requires t != []
    ensures Ids(t) == (if t[0].key.Id? then {t[0].key.id} else {}) + Ids(t[1..])
  {
    forall id | id in Ids(t) ensures id in (if t[0].key.Id? then {t[0].key.id} else {}) + Ids(t[1..]) {
      var p :| 0 <= p < |t| && t[p].key == Id(id);
      if p > 0 { assert t[1..][p - 1].key == Id(id); }
    }
    forall id | id in Ids(t[1..]) ensures id in Ids(t) {
      var p :| 0 <= p < |t[1..]| && t[1..][p].key == Id(id);
      assert t[p + 1].key == Id(id);
    }
  }

  /** A table of empty slots. */
  function NewTable(capacity: nat): Table {
    seq(capacity, _ => Slot(Empty, 0))
  }

  lemma {:induction false} NewTableEmpty(t: Table)
    requires forall p: nat | p < |t| :: t[p].key.Empty?
    ensures Occupied(t) == 0 && Ids(t) == {}
    decreases |t|
  {
    if t != [] { NewTableEmpty(t[1..]); }
  }

  // ---------------------------------------------------------------------------
  // The invariant of a table
  // ---------------------------------------------------------------------------

  /** No empty slot lies between `start` and `p`. */
  ghost predicate Reachable(t: Table, start: nat, p: nat)
    requires start < |t| && p < |t|
  {
    forall i: nat | i < Distance(start, p, |t|) :: !t[Around(start, i, |t|)].key.Empty?
  }

  /** Each id occurs once and probing for it reaches it; some slot is empty. */
  ghost predicate TableOk(t: Table, hash: nat -> nat) {
    && IsPow2(|t|) && |t| >= 1 && Occupied(t) < |t|
    && (forall p: nat | p < |t| && t[p].key.Id? ::
          Home(hash(t[p].key.id), |t|) < |t| && Reachable(t, Home(hash(t[p].key.id), |t|), p))
    && (forall p: nat, q: nat | p < q < |t| && t[p].key.Id? :: t[q].key != t[p].key)
  }

  /** Probing comes round to every slot, so it meets an empty one. */
  lemma ProbeEnds(t: Table, start: nat)
    requires start < |t| && Occupied(t) < |t|
    ensures exists i: nat :: i < |t| && t[Around(start, i, |t|)].key.Empty?
  {
    var p := EmptySlot(t);
    assert t[Around(start, Distance(start, p, |t|), |t|)].key.Empty?;
  }

  /** Filling or burying a slot keeps every other id reachable. */
  lemma ReachableKept(t: Table, p: nat, s: Slot, start: nat, q: nat)
    requires p < |t| && !s.key.Empty? && start < |t| && q < |t| && Reachable(t, start, q)
    ensures Reachable(t[p := s], start, q)
  {}

  /** Storing an id that is not there yet, in a slot that probing for it reaches. */
  lemma StoreOk(t: Table, hash: nat -> nat, p: nat, id: nat, value: nat)
    requires TableOk(t, hash) && p < |t| && id !in Ids(t) && !t[p].key.Id?
    requires Home(hash(id), |t|) < |t| && Reachable(t, Home(hash(id), |t|), p)
    requires Occupied(t) + (if t[p].key.Empty? then 1 else 0) < |t|
    ensures var t' := t[p := Slot(Id(id), value)];
      && TableOk(t', hash) && Ids(t') == Ids(t) + {id}
      && Occupied(t') == Occupied(t) + (if t[p].key.Empty? then 1 else 0)
  {
    var s := Slot(Id(id), value);
    var t' := t[p := s];
    OccupiedUpdate(t, p, s);
    forall q: nat | q < |t'| && t'[q].key.Id?
      ensures Home(hash(t'[q].key.id), |t'|) < |t'| && Reachable(t', Home(hash(t'[q].key.id), |t'|), q)
    {
      if q != p { ReachableKept(t, p, s, Home(hash(t[q].key.id), |t|), q); }
      else { ReachableKept(t, p, s, Home(hash(id), |t|), p); }
    }
    forall q: nat | q < |t| && q != p && t[q].key.Id? ensures t[q].key.id in Ids(t) {}
    assert t'[p].key.id == id;
    forall x | x in Ids(t) ensures x in Ids(t') {
      var q :| 0 <= q < |t| && t[q].key == Id(x);
      assert t'[q].key == Id(x);
    }
  }

  /** Burying the slot of an id removes just that id. */
  lemma BuryOk(t: Table, hash: nat -> nat, p: nat)
    requires TableOk(t, hash) && p < |t| && t[p].key.Id?
    ensures var t' := t[p := Slot(Reusable, t[p].value)];
      TableOk(t', hash) && Ids(t') == Ids(t) - {t[p].key.id} && Occupied(t') == Occupied(t)
  {
    var s := Slot(Reusable, t[p].value);
    var t' := t[p := s];
    OccupiedUpdate(t, p, s);
    forall q: nat | q < |t'| && t'[q].key.Id?
      ensures Home(hash(t'[q].key.id), |t'|) < |t'| && Reachable(t', Home(hash(t'[q].key.id), |t'|), q)
    {
      ReachableKept(t, p, s, Home(hash(t[q].key.id), |t|), q);
    }
    forall x | x in Ids(t) && x != t[p].key.id ensures x in Ids(t') {
      var q :| 0 <= q < |t| && t[q].key == Id(x);
      assert t'[q].key == Id(x);
    }
    forall x | x in Ids(t') ensures x in Ids(t) && x != t[p].key.id {
      var q :| 0 <= q < |t'| && t'[q].key == Id(x);
      assert t[q].key == Id(x);
    }
  }

  lemma NewTableOk(capacity: nat, hash: nat -> nat)
    requires IsPow2(capacity) && capacity >= 1
    ensures TableOk(NewTable(capacity), hash) && Occupied(NewTable(capacity)) == 0 && Ids(NewTable(capacity)) == {}
  {
    NewTableEmpty(NewTable(capacity));
  }

  // ---------------------------------------------------------------------------
  // Probing
  // ---------------------------------------------------------------------------

  /** The lookup loop: the slot of `id`, or nothing exactly when the table does not hold it. */
  method Find(t: Table, hash: nat -> nat, id: nat) returns (r: Option<nat>)
    requires TableOk(t, hash)
    ensures r.Some? ==> r.value < |t| && t[r.value].key == Id(id)
    ensures r.None? <==> id !in Ids(t)
  {
    hide And, Occupied, TableOk, IsPow2, Ids;
    TableFacts(t, hash);
    HomeInRange(hash(id), |t|);
    var start := Home(hash(id), |t|);
    ProbeEnds(t, start);
    var index := start;
    ghost var i: nat := 0;
    ghost var stop: nat :| stop < |t| && t[Around(start, stop, |t|)].key.Empty?;
    while true
      invariant i <= stop && index == Around(start, i, |t|)
      invariant forall j: nat | j < i :: !t[Around(start, j, |t|)].key.Empty? && t[Around(start, j, |t|)].key != Id(id)
      decreases stop - i
    {
      var key := t[index].key;
      if key == Id(id) {
        IsIn(t, index);
        return Some(index);
      }
      if key.Empty? {
        NotThere(t, hash, id, i);
        return None;
      }
      MaskedStep(index, |t|);
      index := And(index + 1, |t| - 1);
      i := i + 1;
    }
  }

  lemma TableFacts(t: Table, hash: nat -> nat)
    requires TableOk(t, hash)
    ensures IsPow2(|t|) && |t| >= 1 && Occupied(t) < |t|
  {}

  lemma IsIn(t: Table, p: nat)
    requires p < |t| && t[p].key.Id?
    ensures t[p].key.id in Ids(t)
  {}

  lemma NoOthers(t: Table, id: nat, p: nat)
    requires p < |t| && id !in Ids(t)
    ensures t[p].key != Id(id)
  {}

  /** An id not met before the first empty slot is not in the table. */
  lemma NotThere(t: Table, hash: nat -> nat, id: nat, i: nat)
    requires TableOk(t, hash) && i < |t| && Home(hash(id), |t|) < |t|
    requires forall j: nat | j < i :: t[Around(Home(hash(id), |t|), j, |t|)].key != Id(id)
    requires t[Around(Home(hash(id), |t|), i, |t|)].key.Empty?
    ensures id !in Ids(t)
  {
    forall p: nat | p < |t| ensures t[p].key != Id(id) {
      var start := Home(hash(id), |t|);
      var d := Distance(start, p, |t|);
      assert t[p].key == Id(id) ==> Reachable(t, start, p);
      assert d > i ==> !Reachable(t, start, p);
    }
  }

  /** The insertion loop: the first slot on the way that is empty or reusable takes the id. */
  method Claim(t: Table, hash: nat -> nat, id: nat, value: nat) returns (t': Table, reused: bool)
    requires TableOk(t, hash) && id !in Ids(t) && Occupied(t) + 1 < |t|
    ensures TableOk(t', hash) && |t'| == |t| && Ids(t') == Ids(t) + {id}
    ensures Occupied(t') == Occupied(t) + (if reused then 0 else 1)
    ensures forall p: nat | p < |t| && t'[p].key.Id? ::
      if t'[p].key.id == id then t'[p].value == value else t'[p] == t[p]
  {
    hide And, Occupied, TableOk, IsPow2, Ids;
    TableFacts(t, hash);
    HomeInRange(hash(id), |t|);
    var start := Home(hash(id), |t|);
    ProbeEnds(t, start);
    var index := start;
    ghost var i: nat := 0;
    ghost var stop: nat :| stop < |t| && t[Around(start, stop, |t|)].key.Empty?;
    while t[index].key.Id?
      invariant i <= stop && index == Around(start, i, |t|)
      invariant forall j: nat | j < i :: !t[Around(start, j, |t|)].key.Empty?
      decreases stop - i
    {
      MaskedStep(index, |t|);
      index := And(index + 1, |t| - 1);
      i := i + 1;
    }
    assert Distance(start, index, |t|) == i;
    StoreOk(t, hash, index, id, value);
    reused := t[index].key.Reusable?;
    t' := t[index := Slot(Id(id), value)];
    forall p: nat | p < |t| ensures t[p].key != Id(id) { NoOthers(t, id, p); }
  }

  /** The removal loop: the slot of `id`, if there is one, becomes reusable. */
  method Bury(t: Table, hash: nat -> nat, id: nat) returns (t': Table)
    requires TableOk(t, hash)
    ensures TableOk(t', hash) && |t'| == |t| && Ids(t') == Ids(t) - {id} && Occupied(t') == Occupied(t)
    ensures forall p: nat | p < |t| && t'[p].key.Id? :: t'[p] == t[p]
  {
    var p := Find(t, hash, id);
    t' := t;
    if p.Some? {
      BuryOk(t, hash, p.value);
      t' := t[p.value := Slot(Reusable, t[p.value].value)];
    }
  }
}
