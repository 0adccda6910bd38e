/**
 The thread-to-producer hash of the multi-producer queue: a chain of open-addressing
 tables, newest first. Lookups that succeed in an older table copy the entry to the newest
 one; a new table is started when half of the newest would be in use. Each call is taken
 as one step. The abstract state is a map from live thread ids to producers.
 */
module ProducerHash {
  import opened Options
  import opened Bits
  import opened HashTable

  /** What `recycle_or_create_producer` comes back with. */
  datatype ProducerGrant = Refused | Created | Recycled(producer: nat)

  // ---------------------------------------------------------------------------
  // The invariant
  // ---------------------------------------------------------------------------

  /** Slots hold live ids with their producers, and every live id is in some table. */
  ghost predicate Represents(tables: seq<Table>, hash: nat -> nat, live: map<nat, nat>) {
    && (forall j: nat | j < |tables| :: TableOk(tables[j], hash) && SlotsRight(tables[j], live))
    && (forall id: nat | id in live :: exists j: nat :: j < |tables| && id in Ids(tables[j]))
  }

  ghost predicate SlotsRight(t: Table, live: map<nat, nat>) {
    forall p: nat | p < |t| && t[p].key.Id? :: t[p].key.id in live && live[t[p].key.id] == t[p].value
  }

  /** Occupied slots and ids still to be copied fit the count, and the count fits half the table. */
  ghost predicate Budget(main: Table, live: map<nat, nat>, count: nat) {
    && Occupied(main) + |live.Keys - Ids(main)| <= count
    && (count == 0 || count < |main| / 2)
  }

  /** Live threads have different producers, none of them up for recycling. */
  ghost predicate Owners(live: map<nat, nat>, inactive: set<nat>, created: nat) {
    && (forall id: nat | id in live :: live[id] < created && live[id] !in inactive)
    && (forall id: nat, id': nat | id in live && id' in live && id != id' :: live[id] != live[id'])
    && (forall p: nat | p in inactive :: p < created)
  }

  // ---------------------------------------------------------------------------
  // How it changes
  // ---------------------------------------------------------------------------

  /** A slot for every id: the tables after the newest one has changed. */
  lemma MainChanged(tables: seq<Table>, hash: nat -> nat, live: map<nat, nat>, main: Table, live': map<nat, nat>)
    requires tables != [] && Represents(tables, hash, live)
    requires TableOk(main, hash) && SlotsRight(main, live') && Ids(tables[0]) <= Ids(main)
    requires forall id: nat | id in live :: id in live' && live'[id] == live[id]
    requires forall id: nat | id in live' && id !in live :: id in Ids(main)
    ensures Represents(tables[0 := main], hash, live')
  {
    hide TableOk, Ids;
    var ts := tables[0 := main];
    forall j: nat | j < |ts| ensures TableOk(ts[j], hash) && SlotsRight(ts[j], live') {
      if j > 0 { assert TableOk(tables[j], hash) && SlotsRight(tables[j], live); }
    }
    forall id: nat | id in live' ensures exists j: nat :: j < |ts| && id in Ids(ts[j]) {
      if id in live {
        var j: nat :| j < |tables| && id in Ids(tables[j]);
        assert j == 0 || ts[j] == tables[j];
        assert id in Ids(ts[j]);
      } else {
        assert id in Ids(ts[0]);
      }
    }
  }

  lemma TableAdded(tables: seq<Table>, hash: nat -> nat, live: map<nat, nat>, capacity: nat)
    requires Represents(tables, hash, live) && IsPow2(capacity) && capacity >= 1
    ensures Represents([NewTable(capacity)] + tables, hash, live)
  {
    NewTableOk(capacity, hash);
    hide TableOk, Ids;
    var ts := [NewTable(capacity)] + tables;
    forall j: nat | j < |ts| ensures TableOk(ts[j], hash) && SlotsRight(ts[j], live) {
      if j > 0 { assert ts[j] == tables[j - 1]; }
    }
    forall id: nat | id in live ensures exists j: nat :: j < |ts| && id in Ids(ts[j]) {
      var j: nat :| j < |tables| && id in Ids(tables[j]);
      assert ts[j + 1] == tables[j];
    }
  }

  /** Every live id fits a new, empty table. */
  lemma LiveFits(main: Table, live: map<nat, nat>, count: nat)
    requires Budget(main, live, count)
    ensures |live.Keys| <= count
  {
    FewIds(main);
  }

  lemma FreshBudget(capacity: nat, hash: nat -> nat, live: map<nat, nat>, count: nat)
    requires IsPow2(capacity) && capacity >= 1 && |live.Keys| <= count < capacity / 2
    ensures Budget(NewTable(capacity), live, count)
  {
    NewTableOk(capacity, hash);
    hide Ids, Occupied;
    assert live.Keys - {} == live.Keys;
  }

  lemma MainCapacity(tables: seq<Table>, hash: nat -> nat, live: map<nat, nat>)
    requires tables != [] && Represents(tables, hash, live)
    ensures IsPow2(|tables[0]|) && |tables[0]| >= 1
  {}

  /** An id found in an older table leaves room for itself in the newest. */
  lemma MigrationFits(main: Table, live: map<nat, nat>, count: nat, id: nat)
    requires Budget(main, live, count) && id in live && id !in Ids(main)
    ensures Occupied(main) + 1 < |main|
  {
    assert id in live.Keys - Ids(main);
  }

  /** Copying a live id to the newest table keeps the budget. */
  lemma MigrationKeepsBudget(main: Table, live: map<nat, nat>, count: nat, id: nat, main': Table, reused: bool)
    requires Budget(main, live, count) && id in live && id !in Ids(main) && |main'| == |main|
    requires Ids(main') == Ids(main) + {id} && Occupied(main') == Occupied(main) + (if reused then 0 else 1)
    ensures Budget(main', live, count)
  {
    hide Ids, Occupied;
    assert live.Keys - Ids(main') == (live.Keys - Ids(main)) - {id};
  }

  /** A new id pays for its slot, unless the slot was already counted. */
  lemma InsertKeepsBudget(main: Table, live: map<nat, nat>, count: nat, id: nat, value: nat, main': Table, reused: bool)
    requires Budget(main, live, count) && id !in live && |main'| == |main|
    requires Ids(main') == Ids(main) + {id} && Occupied(main') == Occupied(main) + (if reused then 0 else 1)
    requires count + 1 < |main| / 2
    ensures Budget(main', live[id := value], if reused then count else count + 1)
  {
    hide Ids, Occupied;
    assert live[id := value].Keys - Ids(main') == live.Keys - Ids(main) - {id};
  }

  /** The tables after an id has been buried in all of them. */
  lemma AllBuried(tables: seq<Table>, hash: nat -> nat, live: map<nat, nat>, id: nat, tables': seq<Table>)
    requires Represents(tables, hash, live) && |tables'| == |tables|
    requires forall j: nat | j < |tables| :: Buried(tables[j], hash, id, tables'[j])
    ensures Represents(tables', hash, live - {id})
  {
    hide TableOk, Ids;
    var live' := live - {id};
    forall j: nat | j < |tables'| ensures TableOk(tables'[j], hash) && SlotsRight(tables'[j], live') {
      assert Buried(tables[j], hash, id, tables'[j]) && SlotsRight(tables[j], live);
      forall p: nat | p < |tables'[j]| && tables'[j][p].key.Id?
        ensures tables'[j][p].key.id in live' && live'[tables'[j][p].key.id] == tables'[j][p].value
      {
        IsIn(tables'[j], p);
        assert tables'[j][p] == tables[j][p];
      }
    }
    forall x: nat | x in live' ensures exists j: nat :: j < |tables'| && x in Ids(tables'[j]) {
      var j: nat :| j < |tables| && x in Ids(tables[j]);
      assert Buried(tables[j], hash, id, tables'[j]);
    }
  }

  /** `t'` is `t` with `id` buried. */
  ghost predicate Buried(t: Table, hash: nat -> nat, id: nat, t': Table) {
    && TableOk(t', hash) && |t'| == |t| && Ids(t') == Ids(t) - {id} && Occupied(t') == Occupied(t)
    && forall p: nat | p < |t| && t'[p].key.Id? :: t'[p] == t[p]
  }

  lemma BurialKeepsBudget(main: Table, hash: nat -> nat, live: map<nat, nat>, count: nat, id: nat, main': Table)
    requires Budget(main, live, count) && Buried(main, hash, id, main')
    ensures Budget(main', live - {id}, count)
  {
    hide Ids, Occupied, TableOk;
    assert (live - {id}).Keys - Ids(main') == (live.Keys - Ids(main)) - {id};
  }

  // ---------------------------------------------------------------------------
  // The operations
  // ---------------------------------------------------------------------------

  class ThreadHash {
    const hash: nat -> nat       // hash_thread_id
    var tables: seq<Table>       // implicitProducerHash, its prev, and so on
    var count: nat               // implicitProducerHashCount
    var inactive: set<nat>       // producers marked inactive
    var created: nat             // producers created so far
    ghost var live: map<nat, nat>

    ghost predicate Valid()
      reads this
    {
      && tables != [] && Represents(tables, hash, live) && Budget(tables[0], live, count)
      && Owners(live, inactive, created)
    }

    constructor (hash: nat -> nat, capacity: nat)
      requires IsPow2(capacity) && capacity >= 1
      ensures Valid() && live == map[] && this.hash == hash && count == 0 && |tables[0]| == capacity
    {
      this.hash := hash;
      this.tables := [NewTable(capacity)];
      this.count, this.inactive, this.created, this.live := 0, {}, 0, map[];
      new;
      NewTableOk(capacity, hash);
    }

    /** Search the tables from the newest to the oldest. */
    method Search(id: nat) returns (r: Option<(nat, nat)>)
      requires Valid()
      ensures r.Some? <==> id in live
      ensures r.Some? ==> r.value.0 < |tables| && r.value.1 == live[id]
      ensures r.Some? ==> (r.value.0 != 0 ==> id !in Ids(tables[0]))
    {
      hide TableOk, Ids, Budget, Owners;
      for j := 0 to |tables|
        invariant forall i: nat | i < j :: id !in Ids(tables[i])
      {
        var p := Find(tables[j], hash, id);
        if p.Some? {
          assert SlotsRight(tables[j], live);
          return Some((j, tables[j][p.value].value));
        }
      }
      return None;
    }

    /** Copy a live id to the newest table. */
    method Migrate(id: nat, value: nat)
      requires Valid() && id in live && live[id] == value && id !in Ids(tables[0])
      modifies this`tables
      ensures Valid() && |tables[0]| == old(|tables[0]|)
    {
      hide TableOk, Ids, Occupied, Owners, Represents, Budget, SlotsRight;
      MainSlots(tables, hash, live);
      MigrationFits(tables[0], live, count, id);
      var main, reused := Claim(tables[0], hash, id, value);
      MigrationKeepsBudget(tables[0], live, count, id, main, reused);
      SlotsInserted(tables[0], live, id, value, main);
      assert live[id := value] == live;
      MainChanged(tables, hash, live, main, live);
      tables := tables[0 := main];
    }

    /** The smallest doubling of `capacity`, at least once, of which `newCount` is less than half. */
    method GrownCapacity(capacity: nat, newCount: nat) returns (r: nat)
      requires IsPow2(capacity) && capacity >= 1
      ensures IsPow2(r) && r >= 2 * capacity && newCount < r / 2
    {
      r := 2 * capacity;
      assert IsPow2(r) by { DoubledIsPow2(capacity); }
      while newCount >= r / 2
        invariant IsPow2(r) && r >= 2 * capacity
        decreases 2 * newCount + 2 - r
      {
        DoubledIsPow2(r);
        r := 2 * r;
      }
    }

    /** Start a new table if half of the newest would be in use. */
    method MakeRoom(newCount: nat, ok: bool) returns (r: bool)
      requires Valid() && newCount == count + 1
      modifies this`tables
      ensures Valid() && r == (newCount < old(|tables[0]|) / 2 || ok)
      ensures !r ==> tables == old(tables)
      ensures r ==> newCount < |tables[0]| / 2
      ensures |tables[0]| >= old(|tables[0]|) && (newCount < old(|tables[0]|) / 2 ==> tables == old(tables))
    {
      hide Ids, Occupied, Owners, TableOk, IsPow2, Represents, Budget;
      if newCount < |tables[0]| / 2 { return true; }
      if !ok { return false; }
      MainCapacity(tables, hash, live);
      var capacity := GrownCapacity(|tables[0]|, newCount);
      TableAdded(tables, hash, live, capacity);
      LiveFits(tables[0], live, count);
      FreshBudget(capacity, hash, live, count);
      tables := [NewTable(capacity)] + tables;
      return true;
    }

    /** A producer nobody owns. */
    method RecycleOrCreate(grant: ProducerGrant) returns (r: Option<nat>)
      requires Owners(live, inactive, created)
      modifies this`inactive, this`created
      ensures Owners(live, inactive, created) && r.Some? == !grant.Refused?
      ensures r.Some? ==> r.value < created && r.value !in inactive && r.value !in live.Values
      ensures r.Some? ==>
        if grant.Recycled? && grant.producer in old(inactive) then r.value == grant.producer && created == old(created)
        else r.value == old(created) && created == old(created) + 1
    {
      if grant.Refused? { return None; }
      if grant.Recycled? && grant.producer in inactive {
        inactive := inactive - {grant.producer};
        return Some(grant.producer);
      }
      created := created + 1;
      return Some(created - 1);
    }

    /**
     `get_or_add_implicit_producer`: the producer of a live thread; for a new thread an
     unowned producer, or nothing exactly when an allocation fails.
     */
    method GetOrAdd(id: nat, tableOk: bool, grant: ProducerGrant) returns (r: Option<nat>)
      requires Valid()
      modifies this
      ensures Valid()
      ensures id in old(live) ==> r == Some(old(live)[id]) && live == old(live)
      ensures id !in old(live) ==> r.Some? == old((count + 1 < |tables[0]| / 2 || tableOk) && !grant.Refused?)
      ensures id !in old(live) && r.Some? ==> live == old(live)[id := r.value] && r.value !in old(live).Values
      ensures id !in old(live) && r.None? ==> live == old(live)
      ensures if id in old(live) || r.None? then count == old(count) else old(count) <= count <= old(count) + 1
      ensures |tables[0]| >= old(|tables[0]|)
    {
      hide Represents, Budget, Owners, Ids;
      var found := Search(id);
      if found.Some? {
        if found.value.0 != 0 { Migrate(id, found.value.1); }
        return Some(found.value.1);
      }
      var room := MakeRoom(count + 1, tableOk);
      if !room { return None; }
      assert count + 1 < |tables[0]| / 2 + |tables[0]| / 4;
      r := RecycleOrCreate(grant);
      if r.Some? { Insert(id, r.value); }
    }

    /** Put a new id with its producer into the newest table and count it. */
    method Insert(id: nat, producer: nat)
      requires Valid() && id !in live && count + 1 < |tables[0]| / 2
      requires producer < created && producer !in inactive && producer !in live.Values
      modifies this`tables, this`count, this`live
      ensures Valid() && live == old(live)[id := producer] && |tables[0]| == old(|tables[0]|)
      ensures count + old(Occupied(tables[0])) == old(count) + Occupied(tables[0])
      ensures old(count) <= count <= old(count) + 1
    {
      hide TableOk, Ids, Occupied, Represents, Budget, Owners, SlotsRight;
      NotInMain(tables, hash, live, id);
      BelowHalf(tables[0], live, count);
      var main, reused := Claim(tables[0], hash, id, producer);
      InsertKeepsBudget(tables[0], live, count, id, producer, main, reused);
      SlotsInserted(tables[0], live, id, producer, main);
      MainChanged(tables, hash, live, main, live[id := producer]);
      OwnersAdd(live, inactive, created, id, producer);
      tables := tables[0 := main];
      count := if reused then count else count + 1;
      live := live[id := producer];
    }

    /** `implicit_producer_thread_exited`: the thread disappears from every table, its producer can be recycled. */
    method Exit(id: nat, producer: nat)
      requires Valid() && id in live && live[id] == producer
      modifies this
      ensures Valid() && live == old(live) - {id} && inactive == old(inactive) + {producer} && count == old(count)
      ensures |tables[0]| == old(|tables[0]|)
    {
      hide Represents, Budget, Owners, Buried;
      ghost var tables0 := tables;
      BuryAll(id);
      AllBuried(tables0, hash, live, id, tables);
      BurialKeepsBudget(tables0[0], hash, live, count, id, tables[0]);
      OwnersDrop(live, inactive, created, id);
      live := live - {id};
      inactive := inactive + {producer};
    }

    /** One operation of a run; a thread that leaves is looked up first. */
    method Answer(op: Op, ghost users: Users, ghost capacity: nat) returns (answer: Option<nat>)
      requires Valid() && users.live == live && count <= users.adds && capacity <= |tables[0]|
      modifies this
      ensures Valid() && |tables[0]| >= old(|tables[0]|)
      ensures var after := Plain(users, op, answer, capacity);
        after.Some? && after.value.live == live && count <= after.value.adds
    {
      hide Represents, Budget, Owners;
      match op
      case Ask(id, tableOk, grant) =>
        answer := GetOrAdd(id, tableOk, grant);
      case Leave(id) =>
        answer := None;
        var found := Search(id);
        if found.Some? { Exit(id, found.value.1); } else { assert live - {id} == live; }
    }

    /** The loop over all tables. */
    method BuryAll(id: nat)
      requires Represents(tables, hash, live)
      modifies this`tables
      ensures |tables| == old(|tables|)
      ensures forall j: nat | j < |tables| ::
        Buried(old(tables)[j], hash, id, tables[j]) && |tables[j]| == |old(tables)[j]|
    {
      hide TableOk, Ids, Occupied;
      for j := 0 to |tables|
        invariant |tables| == old(|tables|)
        invariant forall i: nat | i < j :: Buried(old(tables)[i], hash, id, tables[i])
        invariant forall i: nat | j <= i < |tables| :: tables[i] == old(tables)[i]
      {
        var t := Bury(tables[j], hash, id);
        tables := tables[j := t];
      }
    }
  }

  lemma NotInMain(tables: seq<Table>, hash: nat -> nat, live: map<nat, nat>, id: nat)
    requires tables != [] && Represents(tables, hash, live) && id !in live
    ensures id !in Ids(tables[0]) && TableOk(tables[0], hash) && SlotsRight(tables[0], live)
  {
    assert SlotsRight(tables[0], live);
  }

  lemma MainSlots(tables: seq<Table>, hash: nat -> nat, live: map<nat, nat>)
    requires tables != [] && Represents(tables, hash, live)
    ensures TableOk(tables[0], hash) && SlotsRight(tables[0], live)
  {}

  lemma BelowHalf(main: Table, live: map<nat, nat>, count: nat)
    requires Budget(main, live, count)
    ensures Occupied(main) <= count
  {}

  lemma SlotsInserted(t: Table, live: map<nat, nat>, id: nat, producer: nat, main: Table)
    requires SlotsRight(t, live) && |main| == |t|
    requires forall p: nat | p < |t| && main[p].key.Id? ::
      if main[p].key.id == id then main[p].value == producer else main[p] == t[p]
    ensures SlotsRight(main, live[id := producer])
  {}

  lemma OwnersDrop(live: map<nat, nat>, inactive: set<nat>, created: nat, id: nat)
    requires Owners(live, inactive, created) && id in live
    ensures Owners(live - {id}, inactive + {live[id]}, created)
  {}

  lemma OwnersAdd(live: map<nat, nat>, inactive: set<nat>, created: nat, id: nat, producer: nat)
    requires Owners(live, inactive, created) && id !in live
    requires producer < created && producer !in inactive && producer !in live.Values
    ensures Owners(live[id := producer], inactive, created)
  {
    forall x: nat | x in live ensures live[x] != producer { assert live[x] in live.Values; }
  }

  // ---------------------------------------------------------------------------
  // Runs
  // ---------------------------------------------------------------------------

  datatype Op = Ask(id: nat, tableOk: bool, grant: ProducerGrant) | Leave(id: nat)

  /** The live threads with their producers, and how many threads have been added so far. */
  datatype Users = Users(live: map<nat, nat>, adds: nat)

  /**
   What `op` with this answer makes of a plain map; `None` if the answer is wrong. A new thread
   is refused only if no producer is to be had, or if so many have been added that a table of
   the initial capacity would be half full and there is no memory for a bigger one.
   */
  ghost function Plain(users: Users, op: Op, answer: Option<nat>, capacity: nat): Option<Users> {
    match op
    case Ask(id, tableOk, grant) =>
      if id in users.live then (if answer == Some(users.live[id]) then Some(users) else None)
      else if answer.None? then
        if grant.Refused? || (!tableOk && users.adds + 1 >= capacity / 2) then Some(users) else None
      else if answer.value in users.live.Values || grant.Refused? then None
      else Some(Users(users.live[id := answer.value], users.adds + 1))
    case Leave(id) => Some(users.(live := users.live - {id}))
  }

  /** The users after a whole run that started empty. */
  ghost function Outcome(ops: seq<Op>, answers: seq<Option<nat>>, capacity: nat): Option<Users>
    requires |ops| == |answers|
  {
    if ops == [] then Some(Users(map[], 0))
    else
      var n := |ops| - 1;
      match Outcome(ops[..n], answers[..n], capacity)
      case None => None
      case Some(users) => Plain(users, ops[n], answers[n], capacity)
  }

  /** Every run of calls, with any hash function and any pattern of allocation failures, answers as a plain map does. */
  method Replay(ops: seq<Op>, hash: nat -> nat, capacity: nat) returns (answers: seq<Option<nat>>)
    requires IsPow2(capacity) && capacity >= 1
    ensures |answers| == |ops| && Outcome(ops, answers, capacity).Some?
  {
    hide Represents, Budget, Owners, IsPow2, Plain;
    var h := new ThreadHash(hash, capacity);
    answers := [];
    ghost var users := Users(map[], 0);
    for i := 0 to |ops|
      invariant h.Valid() && fresh(h) && |h.tables[0]| >= capacity
      invariant |answers| == i && Outcome(ops[..i], answers, capacity) == Some(users)
      invariant users.live == h.live && h.count <= users.adds
    {
      var answer := h.Answer(ops[i], users, capacity);
      assert ops[..i + 1][..i] == ops[..i] && (answers + [answer])[..i] == answers;
      users := Plain(users, ops[i], answer, capacity).value;
      answers := answers + [answer];
    }
    assert ops[..|ops|] == ops;
  }
}
