/**
 The topic cache: a hash table and an LRU list under one lock, topics with an
 atomic reference count, and a window in which a caller drops the lock to
 create a topic. This module is the interleaving of any number of callers of
 topics_db_get_topic with holders that release topics, step by step.
 */
module TopicDb {

  type Name = string
  type Id = nat     // a topic object
  type Tid = nat    // a thread

  /** topic_live_time_s */
  const LIVE_TIME := 900

  /** Where a thread is inside topics_db_get_topic(name, now), while it does not hold the lock. */
  datatype Pc =
    | Idle
    | Entering(name: Name, now: int)             // before the first lock
    | Creating(name: Name, now: int)             // not found; lock released
    | Relocking(name: Name, now: int, mine: Id)  // created; before the second lock
    | Inside                                     // holds the lock, see Critical

  /** The lock, and where its holder is. `ret` is the topic the call will return. */
  datatype Critical =
    | Free
    | Dropping(t: Tid, name: Name, now: int, ret: Id, mine: Id)            // lost the race to create
    | Purging(t: Tid, name: Name, now: int, ret: Id, k: nat)               // purge loop, at node k
    | Evicting(t: Tid, name: Name, now: int, ret: Id, k: nat, victim: Id)  // victim unlinked, not yet released
    | Counting(t: Tid, name: Name, now: int, ret: Id)                      // stamped and linked again
    | Leaving(t: Tid, name: Name, now: int, ret: Id)                       // counted for the caller

  /** Topics have one map per field; a freed topic keeps its entries. */
  datatype State = State(
    names: map<Id, Name>,
    counts: map<Id, int>,    // refcnt
    stamps: map<Id, int>,    // timestamp
    freed: set<Id>,
    unoffered: map<Id, Tid>,     // made by a thread that has not offered it to the table yet
    table: set<Id>,          // the hash table
    index: map<Name, Id>,    // history: the entry of each name
    lru: seq<Id>,
    crit: Critical,
    pcs: map<Tid, Pc>,
    held: multiset<Id>,      // handles that callers hold
    spec: map<Name, int>)    // history: the plain map, updated when a call completes (see CallsAreServed)

  const EMPTY := State(map[], map[], map[], {}, map[], {}, map[], [], Free, map[], multiset{}, map[])

  /** The plain map's version of a call: drop what is older than the limit, then set the name. */
  function Apply(m: map<Name, int>, name: Name, now: int): map<Name, int> {
    (map n | n in m && m[n] >= now - LIVE_TIME :: m[n])[name := now]
  }

  // ---------------------------------------------------------------------
  // Steps
  // ---------------------------------------------------------------------

  datatype Action =
    | Call(t: Tid, name: Name, now: int)
    | LockFound(t: Tid, id: Id)
    | LockMissed(t: Tid)
    | CreateFailed(t: Tid)
    | Created(t: Tid, id: Id)
    | RelockFound(t: Tid, id: Id)
    | RelockMissed(t: Tid)
    | DropMine
    | PurgeNode
    | Evict
    | PurgeEnd
    | Incref
    | Unlock
    | Release(id: Id)

  function PcOf(pcs: map<Tid, Pc>, t: Tid): Pc {
    if t in pcs then pcs[t] else Idle
  }

  /** tommy_hashdyn_search finds `id`. */
  predicate FoundAs(s: State, name: Name, id: Id) {
    id in s.table && id in s.names && s.names[id] == name
  }

  /** tommy_hashdyn_search finds nothing. */
  predicate NotFound(s: State, name: Name) {
    forall id :: id in s.table && id in s.names ==> s.names[id] != name
  }

  predicate Enabled(s: State, a: Action) {
    match a
    case Call(t, _, _) => PcOf(s.pcs, t).Idle?
    case LockFound(t, id) =>
      PcOf(s.pcs, t).Entering? && s.crit.Free? && FoundAs(s, PcOf(s.pcs, t).name, id)
    case LockMissed(t) => PcOf(s.pcs, t).Entering? && s.crit.Free? && NotFound(s, PcOf(s.pcs, t).name)
    case CreateFailed(t) => PcOf(s.pcs, t).Creating?
    case Created(t, id) => PcOf(s.pcs, t).Creating? && id !in s.names
    case RelockFound(t, id) =>
      PcOf(s.pcs, t).Relocking? && s.crit.Free? && FoundAs(s, PcOf(s.pcs, t).name, id)
    case RelockMissed(t) => PcOf(s.pcs, t).Relocking? && s.crit.Free? && NotFound(s, PcOf(s.pcs, t).name)
    case DropMine => s.crit.Dropping?
    case PurgeNode => s.crit.Purging? && s.crit.k < |s.lru|
    case Evict => s.crit.Evicting?
    case PurgeEnd => s.crit.Purging? && s.crit.k >= |s.lru|
    case Incref => s.crit.Counting?
    case Unlock => s.crit.Leaving?
    case Release(id) => s.held[id] > 0
  }

  function Count(s: State, id: Id): int {
    if id in s.counts then s.counts[id] else 0
  }

  /** topic_decref: one atomic step; the topic is freed when it reaches zero. */
  function Decref(s: State, id: Id): State {
    var c := Count(s, id) - 1;
    s.(counts := s.counts[id := c], freed := if c == 0 then s.freed + {id} else s.freed)
  }

  /** The list without a node. */
  function Without(lru: seq<Id>, id: Id): seq<Id> {
    if lru == [] then []
    else if lru[0] == id then lru[1..]
    else [lru[0]] + Without(lru[1..], id)
  }

  /** node_older_than(topic, now - topic_live_time_s) */
  predicate Old(s: State, id: Id, now: int) {
    id in s.stamps && s.stamps[id] < now - LIVE_TIME
  }

  /** new_topic_s: one reference, for its creator. */
  function NewTopic(s: State, t: Tid, id: Id): State
    requires PcOf(s.pcs, t).Creating?
  {
    var pc := PcOf(s.pcs, t);
    s.(pcs := s.pcs[t := Relocking(pc.name, pc.now, id)], unoffered := s.unoffered[id := t],
       names := s.names[id := pc.name], counts := s.counts[id := 1], stamps := s.stamps[id := 0])
  }

  /** Purge loop: the node at hand is old, and leaves table and list. */
  function UnlinkNode(s: State): State
    requires s.crit.Purging? && s.crit.k < |s.lru|
  {
    var c, id := s.crit, s.lru[s.crit.k];
    s.(crit := Evicting(c.t, c.name, c.now, c.ret, c.k, id), table := s.table - {id},
       lru := s.lru[..c.k] + s.lru[c.k + 1..],
       index := if id in s.names then s.index - {s.names[id]} else s.index)
  }

  /** Purge loop: the node at hand stays. */
  function SkipNode(s: State): State
    requires s.crit.Purging?
  {
    var c := s.crit;
    s.(crit := Purging(c.t, c.name, c.now, c.ret, c.k + 1))
  }

  /** Stamp the topic and link it at the tail. */
  function Relink(s: State): State
    requires s.crit.Purging?
  {
    var c := s.crit;
    s.(crit := Counting(c.t, c.name, c.now, c.ret), lru := s.lru + [c.ret], stamps := s.stamps[c.ret := c.now])
  }

  /** The caller's reference. */
  function CountCaller(s: State): State
    requires s.crit.Counting?
  {
    var c := s.crit;
    s.(crit := Leaving(c.t, c.name, c.now, c.ret), counts := s.counts[c.ret := Count(s, c.ret) + 1])
  }

  /** The lock is free again; the caller holds its topic. */
  function Leave(s: State): State
    requires s.crit.Leaving?
  {
    var c := s.crit;
    s.(crit := Free, pcs := s.pcs[c.t := Idle], held := s.held + multiset{c.ret}, spec := Apply(s.spec, c.name, c.now))
  }

  /** A caller is done with its topic. */
  function LetGo(s: State, id: Id): State {
    Decref(s.(held := s.held - multiset{id}), id)
  }

  function Step(s: State, a: Action): State
    requires Enabled(s, a)
  {
    match a
    case Call(t, name, now) => s.(pcs := s.pcs[t := Entering(name, now)])
    case LockFound(t, id) =>
      var pc := PcOf(s.pcs, t);
      s.(pcs := s.pcs[t := Inside], crit := Purging(t, pc.name, pc.now, id, 0), lru := Without(s.lru, id))
    case LockMissed(t) => s.(pcs := s.pcs[t := Creating(PcOf(s.pcs, t).name, PcOf(s.pcs, t).now)])
    case CreateFailed(t) => s.(pcs := s.pcs[t := Idle])
    case Created(t, id) => NewTopic(s, t, id)
    case RelockFound(t, id) =>
      var pc := PcOf(s.pcs, t);
      s.(pcs := s.pcs[t := Inside], crit := Dropping(t, pc.name, pc.now, id, pc.mine),
         unoffered := s.unoffered - {pc.mine}, lru := Without(s.lru, id))
    case RelockMissed(t) =>
      var pc := PcOf(s.pcs, t);
      s.(pcs := s.pcs[t := Inside], crit := Purging(t, pc.name, pc.now, pc.mine, 0),
         unoffered := s.unoffered - {pc.mine}, table := s.table + {pc.mine}, index := s.index[pc.name := pc.mine])
    case DropMine =>
      var c := s.crit;
      Decref(s, c.mine).(crit := Purging(c.t, c.name, c.now, c.ret, 0))
    case PurgeNode => if Old(s, s.lru[s.crit.k], s.crit.now) then UnlinkNode(s) else SkipNode(s)
    case Evict =>
      var c := s.crit;
      Decref(s, c.victim).(crit := Purging(c.t, c.name, c.now, c.ret, c.k))
    case PurgeEnd => Relink(s)
    case Incref => CountCaller(s)
    case Unlock => Leave(s)
    case Release(id) => LetGo(s, id)
  }

  // ---------------------------------------------------------------------
  // Invariant, one part per group of fields
  // ---------------------------------------------------------------------

  /** The reference that the holder of the lock has on `id`, besides the database's. */
  function OwnRef(c: Critical, id: Id): nat {
    match c
    case Dropping(_, _, _, _, mine) => if mine == id then 1 else 0
    case Evicting(_, _, _, _, _, victim) => if victim == id then 1 else 0
    case Leaving(_, _, _, ret) => if ret == id then 1 else 0
    case _ => 0
  }

  /** Who refers to a topic: the database, the callers that hold it, its creator, the holder of the lock. */
  function Refs(table: set<Id>, held: multiset<Id>, unoffered: map<Id, Tid>, c: Critical, id: Id): int {
    (if id in table then 1 else 0) + held[id] + (if id in unoffered then 1 else 0) + OwnRef(c, id)
  }

  ghost predicate RefOk(counts: map<Id, int>, freed: set<Id>, table: set<Id>, held: multiset<Id>,
                        unoffered: map<Id, Tid>, c: Critical) {
    && (forall id :: id in counts ==> counts[id] == Refs(table, held, unoffered, c, id))
    && (forall id :: id in counts ==> (id in freed <==> counts[id] == 0))
    && (forall id :: id in freed ==> id in counts)
    && (forall id :: id !in counts ==> Refs(table, held, unoffered, c, id) == 0)
  }

  ghost predicate TableOk(names: map<Id, Name>, table: set<Id>, index: map<Name, Id>) {
    && (forall id :: id in table ==> id in names && names[id] in index && index[names[id]] == id)
    && (forall n :: n in index ==> index[n] in table && index[n] in names && names[index[n]] == n)
  }

  /** The topic that is in the table but, for now, not in the list. */
  predicate Unlinked(c: Critical, id: Id) {
    (c.Dropping? || c.Purging? || c.Evicting?) && c.ret == id
  }

  ghost predicate Distinct(lru: seq<Id>) {
    forall i, j :: 0 <= i < j < |lru| ==> lru[i] != lru[j]
  }

  ghost predicate ListOk(table: set<Id>, lru: seq<Id>, c: Critical) {
    && Distinct(lru)
    && (forall id :: id in lru ==> id in table)
    && (forall id :: id in table ==> (id in lru <==> !Unlinked(c, id)))
  }

  /** Topics between creation and second lock belong to one thread each. */
  ghost predicate ThreadsOk(names: map<Id, Name>, table: set<Id>, unoffered: map<Id, Tid>, pcs: map<Tid, Pc>,
                            c: Critical) {
    && (forall id :: id in unoffered ==>
          id in names && id !in table && PcOf(pcs, unoffered[id]).Relocking? && PcOf(pcs, unoffered[id]).mine == id)
    && (forall t :: t in pcs && pcs[t].Relocking? ==>
          pcs[t].mine in unoffered && unoffered[pcs[t].mine] == t && names[pcs[t].mine] == pcs[t].name)
    && (!c.Free? ==> PcOf(pcs, c.t).Inside?)
  }

  /** What the holder of the lock points at. */
  ghost predicate CritOk(names: map<Id, Name>, table: set<Id>, lru: seq<Id>, c: Critical) {
    && (!c.Free? ==> c.ret in table && c.ret in names && names[c.ret] == c.name)
    && (c.Dropping? ==> c.mine in names && c.mine !in table)
    && (c.Evicting? ==> c.victim in names && c.victim !in table)
    && (c.Purging? || c.Evicting? ==> c.k <= |lru|)
  }

  /** Table and timestamps are the map `m`. */
  ghost predicate Shows(index: map<Name, Id>, stamps: map<Id, int>, m: map<Name, int>) {
    && index.Keys == m.Keys
    && forall n :: n in index ==> index[n] in stamps && stamps[index[n]] == m[n]
  }

  /** In the purge loop: nodes before `k` are young, what is gone was old, the rest is as in `spec`. */
  ghost predicate Purged(index: map<Name, Id>, stamps: map<Id, int>, lru: seq<Id>, spec: map<Name, int>,
                         name: Name, now: int, k: nat) {
    && (forall n :: n in index && n != name ==> index[n] in stamps && n in spec && spec[n] == stamps[index[n]])
    && (forall n :: n in spec && n != name && n !in index ==> spec[n] < now - LIVE_TIME)
    && (forall j :: 0 <= j < k && j < |lru| ==> lru[j] in stamps && stamps[lru[j]] >= now - LIVE_TIME)
  }

  ghost predicate SpecOk(index: map<Name, Id>, stamps: map<Id, int>, lru: seq<Id>, c: Critical,
                         spec: map<Name, int>) {
    match c
    case Free => Shows(index, stamps, spec)
    case Dropping(_, name, now, _, _) => Purged(index, stamps, lru, spec, name, now, 0)
    case Purging(_, name, now, _, k) => Purged(index, stamps, lru, spec, name, now, k)
    case Evicting(_, name, now, _, k, _) => Purged(index, stamps, lru, spec, name, now, k)
    case Counting(_, name, now, _) => Shows(index, stamps, Apply(spec, name, now))
    case Leaving(_, name, now, _) => Shows(index, stamps, Apply(spec, name, now))
  }

  ghost predicate Inv(s: State) {
    && s.counts.Keys == s.names.Keys
    && s.stamps.Keys == s.names.Keys
    && RefOk(s.counts, s.freed, s.table, s.held, s.unoffered, s.crit)
    && TableOk(s.names, s.table, s.index)
    && ListOk(s.table, s.lru, s.crit)
    && ThreadsOk(s.names, s.table, s.unoffered, s.pcs, s.crit)
    && CritOk(s.names, s.table, s.lru, s.crit)
    && SpecOk(s.index, s.stamps, s.lru, s.crit, s.spec)
  }

  // ---------------------------------------------------------------------
  // Each step keeps it
  // ---------------------------------------------------------------------

  lemma DistinctTail(lru: seq<Id>)
    requires lru != [] && Distinct(lru)
    ensures Distinct(lru[1..]) && lru == [lru[0]] + lru[1..] && lru[0] !in lru[1..]
  {
    var rest := lru[1..];
    assert forall i :: 0 <= i < |rest| ==> rest[i] == lru[i + 1];
  }

  lemma DistinctCons(id: Id, lru: seq<Id>)
    requires Distinct(lru) && id !in lru
    ensures Distinct([id] + lru)
  {
    var w := [id] + lru;
    forall i, j | 0 <= i < j < |w|
      ensures w[i] != w[j]
    {
      assert w[j] == lru[j - 1] && w[j] in lru;
    }
  }

  lemma {:induction false} WithoutRemoves(lru: seq<Id>, id: Id)
    requires Distinct(lru)
    ensures Distinct(Without(lru, id))
    ensures forall x :: x in Without(lru, id) <==> x in lru && x != id
  {
    if lru != [] {
      DistinctTail(lru);
      WithoutRemoves(lru[1..], id);
      if lru[0] != id {
        DistinctCons(lru[0], Without(lru[1..], id));
      }
    }
  }

  // ----- references

  /** From `s` to `r`, `d` references to `id` are added and no others change. */
  ghost predicate RefsMove(s: State, r: State, id: Id, d: int) {
    forall x: Id :: Refs(r.table, r.held, r.unoffered, r.crit, x) ==
                    Refs(s.table, s.held, s.unoffered, s.crit, x) + if x == id then d else 0
  }

  /** A step that hands references on without changing how many there are. */
  lemma RefsSame(s: State, r: State)
    requires RefOk(s.counts, s.freed, s.table, s.held, s.unoffered, s.crit)
    requires r.counts == s.counts && r.freed == s.freed
    requires exists id :: RefsMove(s, r, id, 0)
    ensures RefOk(r.counts, r.freed, r.table, r.held, r.unoffered, r.crit)
  {
  }

  /** A step that adds or drops one reference to `id`, and counts it. A count never rises from zero. */
  lemma RefsOne(s: State, r: State, id: Id, d: int)
    requires RefOk(s.counts, s.freed, s.table, s.held, s.unoffered, s.crit)
    requires id in s.counts && (d == -1 || (d == 1 && s.counts[id] > 0))
    requires r.counts == s.counts[id := s.counts[id] + d]
    requires r.freed == if s.counts[id] + d == 0 then s.freed + {id} else s.freed
    requires RefsMove(s, r, id, d)
    ensures RefOk(r.counts, r.freed, r.table, r.held, r.unoffered, r.crit)
  {
    assert Refs(r.table, r.held, r.unoffered, r.crit, id) >= 0;
  }

  /** Only the holder of the lock moved, from one place to the next. */
  lemma CritRefs(s: State, r: State, id: Id, d: int)
    requires r.table == s.table && r.held == s.held && r.unoffered == s.unoffered
    requires forall x: Id :: OwnRef(r.crit, x) == OwnRef(s.crit, x) + if x == id then d else 0
    ensures RefsMove(s, r, id, d)
  {
  }

  // ----- threads

  /** A thread without a topic of its own moves on. */
  lemma ThreadMoves(names: map<Id, Name>, table: set<Id>, un: map<Id, Tid>, pcs: map<Tid, Pc>, c: Critical,
                    t: Tid, pc: Pc, c': Critical)
    requires ThreadsOk(names, table, un, pcs, c)
    requires !PcOf(pcs, t).Relocking? && !pc.Relocking?
    requires !c'.Free? ==> if c'.t == t then pc.Inside? else !c.Free? && c.t == c'.t
    ensures ThreadsOk(names, table, un, pcs[t := pc], c')
  {
    forall id | id in un
      ensures PcOf(pcs[t := pc], un[id]).Relocking? && PcOf(pcs[t := pc], un[id]).mine == id
    {
      assert PcOf(pcs, un[id]).Relocking?;
    }
  }

  /** A thread with a topic of its own takes the lock and offers the topic to the table, or drops it. */
  lemma ThreadOffers(names: map<Id, Name>, table: set<Id>, un: map<Id, Tid>, pcs: map<Tid, Pc>, c: Critical,
                     t: Tid, table': set<Id>, c': Critical)
    requires ThreadsOk(names, table, un, pcs, c) && PcOf(pcs, t).Relocking?
    requires table' == table || table' == table + {PcOf(pcs, t).mine}
    requires !c'.Free? && c'.t == t
    ensures ThreadsOk(names, table', un - {PcOf(pcs, t).mine}, pcs[t := Inside], c')
  {
    var mine := PcOf(pcs, t).mine;
    forall id | id in un - {mine}
      ensures PcOf(pcs[t := Inside], un[id]).Relocking? && PcOf(pcs[t := Inside], un[id]).mine == id
    {
      assert PcOf(pcs, un[id]).Relocking? && PcOf(pcs, un[id]).mine == id;
    }
    forall u | u in pcs[t := Inside] && pcs[t := Inside][u].Relocking?
      ensures pcs[u].mine in un - {mine} && un[pcs[u].mine] == u && names[pcs[u].mine] == pcs[u].name
    {
      assert pcs[u].Relocking? && un[pcs[u].mine] == u && un[mine] == t;
    }
  }

  lemma ThreadCreates(names: map<Id, Name>, table: set<Id>, un: map<Id, Tid>, pcs: map<Tid, Pc>, c: Critical,
                      t: Tid, id: Id, now: int, name: Name)
    requires ThreadsOk(names, table, un, pcs, c) && PcOf(pcs, t).Creating? && id !in names && id !in table
    ensures ThreadsOk(names[id := name], table, un[id := t], pcs[t := Relocking(name, now, id)], c)
  {
    var pcs', un' := pcs[t := Relocking(name, now, id)], un[id := t];
    forall x | x in un'
      ensures PcOf(pcs', un'[x]).Relocking? && PcOf(pcs', un'[x]).mine == x
    {
      if x != id {
        assert PcOf(pcs, un[x]).Relocking?;
      }
    }
    forall u | u in pcs' && pcs'[u].Relocking?
      ensures pcs'[u].mine in un' && un'[pcs'[u].mine] == u
      ensures names[id := name][pcs'[u].mine] == pcs'[u].name
    {
      if u != t {
        assert pcs[u].mine in un && pcs[u].mine in names;
      }
    }
  }

  // ----- calls and creation

  lemma CallKeepsInv(s: State, r: State, t: Tid, name: Name, now: int)
    requires Inv(s) && Enabled(s, Call(t, name, now)) && r == Step(s, Call(t, name, now))
    ensures Inv(r)
  {
    ThreadMoves(s.names, s.table, s.unoffered, s.pcs, s.crit, t, Entering(name, now), s.crit);
  }

  lemma LockMissedKeepsInv(s: State, r: State, t: Tid)
    requires Inv(s) && Enabled(s, LockMissed(t)) && r == Step(s, LockMissed(t))
    ensures Inv(r)
  {
    ThreadMoves(s.names, s.table, s.unoffered, s.pcs, s.crit, t, r.pcs[t], s.crit);
  }

  lemma CreateFailedKeepsInv(s: State, r: State, t: Tid)
    requires Inv(s) && Enabled(s, CreateFailed(t)) && r == Step(s, CreateFailed(t))
    ensures Inv(r)
  {
    ThreadMoves(s.names, s.table, s.unoffered, s.pcs, s.crit, t, Idle, s.crit);
  }

  lemma CreatedOwners(s: State, r: State, t: Tid, id: Id)
    requires Inv(s) && PcOf(s.pcs, t).Creating? && id !in s.names && r == NewTopic(s, t, id)
    ensures RefOk(r.counts, r.freed, r.table, r.held, r.unoffered, r.crit)
    ensures ThreadsOk(r.names, r.table, r.unoffered, r.pcs, r.crit) && CritOk(r.names, r.table, r.lru, r.crit)
  {
    var pc := PcOf(s.pcs, t);
    assert id !in s.table && id !in s.unoffered;
    ThreadCreates(s.names, s.table, s.unoffered, s.pcs, s.crit, t, id, pc.now, pc.name);
    CreatedRefs(s, r, t, id);
    CreatedCrit(s.names, s.table, s.lru, s.crit, id, pc.name);
  }

  lemma CreatedLists(s: State, r: State, t: Tid, id: Id)
    requires Inv(s) && PcOf(s.pcs, t).Creating? && id !in s.names && r == NewTopic(s, t, id)
    ensures r.counts.Keys == r.names.Keys && r.stamps.Keys == r.names.Keys
    ensures TableOk(r.names, r.table, r.index) && SpecOk(r.index, r.stamps, r.lru, r.crit, r.spec)
  {
    CreatedTable(s.names, s.table, s.index, id, PcOf(s.pcs, t).name);
    CreatedSpec(s.names, s.table, s.index, s.stamps, s.lru, s.crit, s.spec, id);
    assert r.names.Keys == s.names.Keys + {id} && r.counts.Keys == s.counts.Keys + {id};
    assert r.stamps.Keys == s.stamps.Keys + {id};
  }

  lemma CreatedKeepsInv(s: State, r: State, t: Tid, id: Id)
    requires Inv(s) && PcOf(s.pcs, t).Creating? && id !in s.names && r == NewTopic(s, t, id)
    ensures Inv(r)
  {
    CreatedOwners(s, r, t, id);
    CreatedLists(s, r, t, id);
  }

  lemma CreatedCrit(names: map<Id, Name>, table: set<Id>, lru: seq<Id>, c: Critical, id: Id, name: Name)
    requires CritOk(names, table, lru, c) && id !in names
    ensures CritOk(names[id := name], table, lru, c)
  {
  }

  lemma CreatedRefs(s: State, r: State, t: Tid, id: Id)
    requires RefOk(s.counts, s.freed, s.table, s.held, s.unoffered, s.crit)
    requires id !in s.counts && r.counts == s.counts[id := 1] && r.freed == s.freed
    requires r.table == s.table && r.held == s.held && r.crit == s.crit && r.unoffered == s.unoffered[id := t]
    ensures RefOk(r.counts, r.freed, r.table, r.held, r.unoffered, r.crit)
  {
    assert Refs(s.table, s.held, s.unoffered, s.crit, id) == 0;
  }

  lemma CreatedTable(names: map<Id, Name>, table: set<Id>, index: map<Name, Id>, id: Id, name: Name)
    requires TableOk(names, table, index) && id !in names
    ensures TableOk(names[id := name], table, index)
  {
  }

  lemma CreatedSpec(names: map<Id, Name>, table: set<Id>, index: map<Name, Id>, stamps: map<Id, int>, lru: seq<Id>,
                    c: Critical, spec: map<Name, int>, id: Id)
    requires TableOk(names, table, index) && ListOk(table, lru, c) && id !in names
    requires SpecOk(index, stamps, lru, c, spec)
    ensures SpecOk(index, stamps[id := 0], lru, c, spec)
  {
    assert forall n :: n in index ==> index[n] != id;
    assert forall j :: 0 <= j < |lru| ==> lru[j] in table;
  }

  /** The holder of the lock moves between places where it has no reference of its own. */
  lemma QuietRefs(s: State, r: State)
    requires RefOk(s.counts, s.freed, s.table, s.held, s.unoffered, s.crit)
    requires r.counts == s.counts && r.freed == s.freed
    requires r.table == s.table && r.held == s.held && r.unoffered == s.unoffered
    requires s.crit.Free? || s.crit.Purging?
    requires r.crit.Purging? || r.crit.Counting?
    ensures RefOk(r.counts, r.freed, r.table, r.held, r.unoffered, r.crit)
  {
    CritRefs(s, r, 0, 0);
    RefsSame(s, r);
  }

  // ----- taking the lock

  lemma UnlinkFound(table: set<Id>, lru: seq<Id>, id: Id, c: Critical)
    requires ListOk(table, lru, Free) && id in table
    requires (c.Dropping? || c.Purging?) && c.ret == id
    ensures ListOk(table, Without(lru, id), c)
  {
    WithoutRemoves(lru, id);
  }

  /** Right after the lock is taken nothing is purged yet. */
  lemma SpecAtLock(index: map<Name, Id>, stamps: map<Id, int>, lru: seq<Id>, spec: map<Name, int>, name: Name,
                   now: int, index': map<Name, Id>)
    requires Shows(index, stamps, spec)
    requires forall n :: n != name ==> (n in index' <==> n in index)
    requires forall n :: n in index && n != name ==> index'[n] == index[n]
    ensures Purged(index', stamps, lru, spec, name, now, 0)
  {
  }

  lemma LockFoundKeepsInv(s: State, r: State, t: Tid, id: Id)
    requires Inv(s) && Enabled(s, LockFound(t, id)) && r == Step(s, LockFound(t, id))
    ensures Inv(r)
  {
    var pc := PcOf(s.pcs, t);
    QuietRefs(s, r);
    UnlinkFound(s.table, s.lru, id, r.crit);
    ThreadMoves(s.names, s.table, s.unoffered, s.pcs, s.crit, t, Inside, r.crit);
    SpecAtLock(s.index, s.stamps, r.lru, s.spec, pc.name, pc.now, s.index);
  }

  lemma RelockFoundRefs(s: State, r: State, mine: Id)
    requires RefOk(s.counts, s.freed, s.table, s.held, s.unoffered, s.crit)
    requires mine in s.unoffered && s.crit.Free? && r.counts == s.counts && r.freed == s.freed
    requires r.table == s.table && r.held == s.held && r.unoffered == s.unoffered - {mine}
    requires r.crit.Dropping? && r.crit.mine == mine
    ensures RefOk(r.counts, r.freed, r.table, r.held, r.unoffered, r.crit)
  {
    assert RefsMove(s, r, mine, 0);
    RefsSame(s, r);
  }

  lemma RelockFoundKeepsInv(s: State, r: State, t: Tid, id: Id)
    requires Inv(s) && Enabled(s, RelockFound(t, id)) && r == Step(s, RelockFound(t, id))
    ensures Inv(r)
  {
    var pc := PcOf(s.pcs, t);
    assert s.pcs[t] == pc && pc.mine in s.unoffered && pc.mine in s.names && pc.mine !in s.table;
    RelockFoundRefs(s, r, pc.mine);
    UnlinkFound(s.table, s.lru, id, r.crit);
    ThreadOffers(s.names, s.table, s.unoffered, s.pcs, s.crit, t, s.table, r.crit);
    SpecAtLock(s.index, s.stamps, r.lru, s.spec, pc.name, pc.now, s.index);
  }

  lemma RelockMissedRefs(s: State, r: State, mine: Id)
    requires RefOk(s.counts, s.freed, s.table, s.held, s.unoffered, s.crit)
    requires mine in s.unoffered && mine !in s.table && s.crit.Free? && r.counts == s.counts && r.freed == s.freed
    requires r.table == s.table + {mine} && r.held == s.held && r.unoffered == s.unoffered - {mine}
    requires r.crit.Purging?
    ensures RefOk(r.counts, r.freed, r.table, r.held, r.unoffered, r.crit)
  {
    assert RefsMove(s, r, mine, 0);
    RefsSame(s, r);
  }

  lemma TableAdds(names: map<Id, Name>, table: set<Id>, index: map<Name, Id>, id: Id)
    requires TableOk(names, table, index) && id in names
    requires forall x :: x in table && x in names ==> names[x] != names[id]
    ensures TableOk(names, table + {id}, index[names[id] := id])
    ensures names[id] !in index
  {
  }

  lemma RelockMissedKeepsInv(s: State, r: State, t: Tid)
    requires Inv(s) && Enabled(s, RelockMissed(t)) && r == Step(s, RelockMissed(t))
    ensures Inv(r)
  {
    var pc := PcOf(s.pcs, t);
    assert s.pcs[t] == pc && pc.mine in s.unoffered && pc.mine in s.names && s.names[pc.mine] == pc.name;
    RelockMissedRefs(s, r, pc.mine);
    TableAdds(s.names, s.table, s.index, pc.mine);
    ThreadOffers(s.names, s.table, s.unoffered, s.pcs, s.crit, t, r.table, r.crit);
    SpecAtLock(s.index, s.stamps, r.lru, s.spec, pc.name, pc.now, r.index);
    ListAdds(s.table, s.lru, pc.mine, r.crit);
  }

  lemma ListAdds(table: set<Id>, lru: seq<Id>, id: Id, c: Critical)
    requires ListOk(table, lru, Free) && id !in table && c.Purging? && c.ret == id
    ensures ListOk(table + {id}, lru, c)
  {
  }

  // ----- the critical section

  /** The holder of the lock moves on; list and threads are as before. */
  lemma HolderMoves(s: State, r: State)
    requires ListOk(s.table, s.lru, s.crit) && ThreadsOk(s.names, s.table, s.unoffered, s.pcs, s.crit)
    requires CritOk(s.names, s.table, s.lru, s.crit)
    requires !s.crit.Free? && (r.crit.Purging? || r.crit.Leaving?)
    requires r.crit.ret == s.crit.ret && r.crit.name == s.crit.name && (r.crit.Purging? ==> r.crit.k <= |s.lru|)
    requires r.table == s.table && r.lru == s.lru && r.names == s.names && r.unoffered == s.unoffered && r.pcs == s.pcs
    requires r.crit.t == s.crit.t
    requires forall id :: Unlinked(r.crit, id) == Unlinked(s.crit, id)
    ensures ListOk(r.table, r.lru, r.crit) && ThreadsOk(r.names, r.table, r.unoffered, r.pcs, r.crit)
    ensures CritOk(r.names, r.table, r.lru, r.crit)
  {
  }

  /** The holder of the lock drops a reference of its own. */
  lemma DecrefOwn(s: State, r: State, id: Id)
    requires RefOk(s.counts, s.freed, s.table, s.held, s.unoffered, s.crit)
    requires id in s.counts && OwnRef(s.crit, id) == 1
    requires r.counts == Decref(s, id).counts && r.freed == Decref(s, id).freed
    requires r.table == s.table && r.held == s.held && r.unoffered == s.unoffered
    requires (s.crit.Dropping? || s.crit.Evicting?) && r.crit.Purging?
    ensures RefOk(r.counts, r.freed, r.table, r.held, r.unoffered, r.crit)
    ensures r.counts.Keys == s.counts.Keys
  {
    CritRefs(s, r, id, -1);
    RefsOne(s, r, id, -1);
  }

  lemma DropMineKeepsInv(s: State, r: State)
    requires Inv(s) && Enabled(s, DropMine) && r == Step(s, DropMine)
    ensures Inv(r)
  {
    DecrefOwn(s, r, s.crit.mine);
    HolderMoves(s, r);
  }

  lemma EvictKeepsInv(s: State, r: State)
    requires Inv(s) && Enabled(s, Evict) && r == Step(s, Evict)
    ensures Inv(r)
  {
    DecrefOwn(s, r, s.crit.victim);
    HolderMoves(s, r);
  }

  lemma SpecKeeps(index: map<Name, Id>, stamps: map<Id, int>, lru: seq<Id>, spec: map<Name, int>,
                  name: Name, now: int, k: nat)
    requires Purged(index, stamps, lru, spec, name, now, k)
    requires k < |lru| && lru[k] in stamps && stamps[lru[k]] >= now - LIVE_TIME
    ensures Purged(index, stamps, lru, spec, name, now, k + 1)
  {
  }

  lemma KeepNodeSpec(s: State, r: State)
    requires Inv(s) && s.crit.Purging? && s.crit.k < |s.lru| && r == SkipNode(s)
    requires !Old(s, s.lru[s.crit.k], s.crit.now)
    ensures SpecOk(r.index, r.stamps, r.lru, r.crit, r.spec)
  {
    assert s.lru[s.crit.k] in s.table;
    SpecKeeps(s.index, s.stamps, s.lru, s.spec, s.crit.name, s.crit.now, s.crit.k);
  }

  lemma KeepNode(s: State, r: State)
    requires Inv(s) && s.crit.Purging? && s.crit.k < |s.lru| && r == SkipNode(s)
    requires !Old(s, s.lru[s.crit.k], s.crit.now)
    ensures Inv(r)
  {
    KeepNodeSpec(s, r);
    QuietRefs(s, r);
    HolderMoves(s, r);
  }

  lemma TableDrops(names: map<Id, Name>, table: set<Id>, index: map<Name, Id>, id: Id)
    requires TableOk(names, table, index) && id in table
    ensures TableOk(names, table - {id}, index - {names[id]})
  {
  }

  lemma ListDrops(table: set<Id>, lru: seq<Id>, c: Critical, k: nat, c': Critical)
    requires ListOk(table, lru, c) && k < |lru|
    requires forall id :: Unlinked(c, id) == Unlinked(c', id)
    ensures ListOk(table - {lru[k]}, lru[..k] + lru[k + 1..], c')
  {
    var w := lru[..k] + lru[k + 1..];
    assert forall i :: 0 <= i < |w| ==> w[i] == lru[if i < k then i else i + 1];
    assert lru == lru[..k] + [lru[k]] + lru[k + 1..];
    assert forall id :: id in lru <==> id in w || id == lru[k];
    assert lru[k] !in w;
  }

  lemma DropNodeRefs(s: State, r: State, id: Id)
    requires RefOk(s.counts, s.freed, s.table, s.held, s.unoffered, s.crit)
    requires id in s.table && s.crit.Purging? && r.counts == s.counts && r.freed == s.freed
    requires r.table == s.table - {id} && r.held == s.held && r.unoffered == s.unoffered
    requires r.crit.Evicting? && r.crit.victim == id
    ensures RefOk(r.counts, r.freed, r.table, r.held, r.unoffered, r.crit)
  {
    assert RefsMove(s, r, id, 0);
    RefsSame(s, r);
  }

  lemma SpecDrops(names: map<Id, Name>, table: set<Id>, index: map<Name, Id>, stamps: map<Id, int>, lru: seq<Id>,
                  spec: map<Name, int>, name: Name, now: int, k: nat)
    requires TableOk(names, table, index) && k < |lru| && lru[k] in table && lru[k] in stamps
    requires stamps[lru[k]] < now - LIVE_TIME && names[lru[k]] != name
    requires Purged(index, stamps, lru, spec, name, now, k)
    ensures Purged(index - {names[lru[k]]}, stamps, lru[..k] + lru[k + 1..], spec, name, now, k)
  {
    var gone := names[lru[k]];
    assert index[gone] == lru[k] && spec[gone] == stamps[lru[k]];
    assert forall j :: 0 <= j < k ==> (lru[..k] + lru[k + 1..])[j] == lru[j];
  }

  /** The node at hand is not the topic that the call returns, nor another one of that name. */
  lemma NodeAtHand(s: State, id: Id)
    requires TableOk(s.names, s.table, s.index) && ListOk(s.table, s.lru, s.crit)
    requires CritOk(s.names, s.table, s.lru, s.crit)
    requires s.crit.Purging? && s.crit.k < |s.lru| && id == s.lru[s.crit.k]
    ensures id in s.table && id in s.names && id != s.crit.ret && s.names[id] != s.crit.name
  {
    assert id in s.lru;
    assert !Unlinked(s.crit, id);
  }

  lemma DropNodeLists(s: State, r: State, id: Id)
    requires Inv(s) && s.crit.Purging? && s.crit.k < |s.lru| && r == UnlinkNode(s) && id == s.lru[s.crit.k]
    ensures TableOk(r.names, r.table, r.index) && ListOk(r.table, r.lru, r.crit)
  {
    NodeAtHand(s, id);
    TableDrops(s.names, s.table, s.index, id);
    ListDrops(s.table, s.lru, s.crit, s.crit.k, r.crit);
  }

  lemma DropNodeSpec(s: State, r: State, id: Id)
    requires Inv(s) && s.crit.Purging? && s.crit.k < |s.lru| && r == UnlinkNode(s) && id == s.lru[s.crit.k]
    requires Old(s, id, s.crit.now)
    ensures SpecOk(r.index, r.stamps, r.lru, r.crit, r.spec)
  {
    NodeAtHand(s, id);
    SpecDrops(s.names, s.table, s.index, s.stamps, s.lru, s.spec, s.crit.name, s.crit.now, s.crit.k);
  }

  lemma DropNodeOwners(s: State, r: State, id: Id)
    requires Inv(s) && s.crit.Purging? && s.crit.k < |s.lru| && r == UnlinkNode(s) && id == s.lru[s.crit.k]
    ensures RefOk(r.counts, r.freed, r.table, r.held, r.unoffered, r.crit)
    ensures ThreadsOk(r.names, r.table, r.unoffered, r.pcs, r.crit) && CritOk(r.names, r.table, r.lru, r.crit)
  {
    NodeAtHand(s, id);
    DropNodeRefs(s, r, id);
    ThreadsDrop(s, r, id);
  }

  lemma DropNode(s: State, r: State)
    requires Inv(s) && s.crit.Purging? && s.crit.k < |s.lru| && r == UnlinkNode(s)
    requires Old(s, s.lru[s.crit.k], s.crit.now)
    ensures Inv(r)
  {
    DropNodeLists(s, r, s.lru[s.crit.k]);
    DropNodeSpec(s, r, s.lru[s.crit.k]);
    DropNodeOwners(s, r, s.lru[s.crit.k]);
  }

  lemma ThreadsDrop(s: State, r: State, id: Id)
    requires ThreadsOk(s.names, s.table, s.unoffered, s.pcs, s.crit) && CritOk(s.names, s.table, s.lru, s.crit)
    requires id in s.names && s.crit.Purging? && s.crit.k < |s.lru| && |r.lru| == |s.lru| - 1 && id != s.crit.ret
    requires r.crit == Evicting(s.crit.t, s.crit.name, s.crit.now, s.crit.ret, s.crit.k, id)
    requires r.names == s.names && r.table == s.table - {id} && r.unoffered == s.unoffered && r.pcs == s.pcs
    ensures ThreadsOk(r.names, r.table, r.unoffered, r.pcs, r.crit)
    ensures CritOk(r.names, r.table, r.lru, r.crit)
  {
  }

  lemma PurgeNodeKeepsInv(s: State, r: State)
    requires Inv(s) && Enabled(s, PurgeNode) && r == Step(s, PurgeNode)
    ensures Inv(r)
  {
    if Old(s, s.lru[s.crit.k], s.crit.now) {
      DropNode(s, r);
    } else {
      KeepNode(s, r);
    }
  }

  lemma LinkAgain(table: set<Id>, lru: seq<Id>, c: Critical, c': Critical)
    requires ListOk(table, lru, c) && c.Purging? && c.ret in table && c'.Counting?
    ensures ListOk(table, lru + [c.ret], c')
  {
    assert Unlinked(c, c.ret);
  }

  /** At the end of the purge, with the new stamp, table and stamps are the plain map after the call. */
  lemma SpecAtEnd(names: map<Id, Name>, table: set<Id>, index: map<Name, Id>, stamps: map<Id, int>, lru: seq<Id>,
                  c: Critical, spec: map<Name, int>)
    requires TableOk(names, table, index) && ListOk(table, lru, c) && CritOk(names, table, lru, c)
    requires c.Purging? && c.k >= |lru| && Purged(index, stamps, lru, spec, c.name, c.now, c.k)
    ensures Shows(index, stamps[c.ret := c.now], Apply(spec, c.name, c.now))
  {
    assert index[c.name] == c.ret;
    forall n | n in index && n != c.name ensures n in spec && spec[n] >= c.now - LIVE_TIME && index[n] != c.ret {
      assert index[n] in table && index[n] in lru;
    }
  }

  lemma PurgeEndKeepsInv(s: State, r: State)
    requires Inv(s) && s.crit.Purging? && s.crit.k >= |s.lru| && r == Relink(s)
    ensures Inv(r)
  {
    QuietRefs(s, r);
    LinkAgain(s.table, s.lru, s.crit, r.crit);
    SpecAtEnd(s.names, s.table, s.index, s.stamps, s.lru, s.crit, s.spec);
    RelinkRest(s, r);
  }

  lemma RelinkRest(s: State, r: State)
    requires ThreadsOk(s.names, s.table, s.unoffered, s.pcs, s.crit) && CritOk(s.names, s.table, s.lru, s.crit)
    requires s.crit.Purging? && s.crit.ret in s.stamps && r == Relink(s)
    ensures ThreadsOk(r.names, r.table, r.unoffered, r.pcs, r.crit) && CritOk(r.names, r.table, r.lru, r.crit)
    ensures r.stamps.Keys == s.stamps.Keys
  {
  }

  lemma IncrefRefs(s: State, r: State)
    requires RefOk(s.counts, s.freed, s.table, s.held, s.unoffered, s.crit)
    requires s.crit.Counting? && s.crit.ret in s.table && s.crit.ret in s.counts
    requires r.counts == s.counts[s.crit.ret := s.counts[s.crit.ret] + 1] && r.freed == s.freed
    requires r.table == s.table && r.held == s.held && r.unoffered == s.unoffered
    requires r.crit.Leaving? && r.crit.ret == s.crit.ret
    ensures RefOk(r.counts, r.freed, r.table, r.held, r.unoffered, r.crit)
    ensures r.counts.Keys == s.counts.Keys
  {
    CritRefs(s, r, s.crit.ret, 1);
    assert Refs(s.table, s.held, s.unoffered, s.crit, s.crit.ret) >= 1;
    RefsOne(s, r, s.crit.ret, 1);
  }

  lemma IncrefList(table: set<Id>, lru: seq<Id>, c: Critical, c': Critical)
    requires ListOk(table, lru, c) && c.Counting? && c'.Leaving?
    ensures ListOk(table, lru, c')
  {
    assert forall id :: !Unlinked(c, id) && !Unlinked(c', id);
  }

  lemma IncrefOwners(s: State, r: State)
    requires Inv(s) && s.crit.Counting? && r == CountCaller(s)
    ensures RefOk(r.counts, r.freed, r.table, r.held, r.unoffered, r.crit) && r.counts.Keys == s.counts.Keys
  {
    IncrefRefs(s, r);
  }

  lemma IncrefRest(s: State, r: State)
    requires Inv(s) && s.crit.Counting? && r == CountCaller(s)
    ensures TableOk(r.names, r.table, r.index) && ListOk(r.table, r.lru, r.crit)
    ensures ThreadsOk(r.names, r.table, r.unoffered, r.pcs, r.crit) && CritOk(r.names, r.table, r.lru, r.crit)
    ensures SpecOk(r.index, r.stamps, r.lru, r.crit, r.spec)
  {
    IncrefList(s.table, s.lru, s.crit, r.crit);
  }

  lemma IncrefKeepsInv(s: State, r: State)
    requires Inv(s) && s.crit.Counting? && r == CountCaller(s)
    ensures Inv(r)
  {
    IncrefOwners(s, r);
    IncrefRest(s, r);
  }

  lemma UnlockRefs(s: State, r: State)
    requires RefOk(s.counts, s.freed, s.table, s.held, s.unoffered, s.crit)
    requires s.crit.Leaving? && r.crit.Free? && r.counts == s.counts && r.freed == s.freed
    requires r.table == s.table && r.unoffered == s.unoffered && r.held == s.held + multiset{s.crit.ret}
    ensures RefOk(r.counts, r.freed, r.table, r.held, r.unoffered, r.crit)
  {
    assert RefsMove(s, r, 0, 0);
    RefsSame(s, r);
  }

  lemma UnlockKeepsInv(s: State, r: State)
    requires Inv(s) && s.crit.Leaving? && r == Leave(s)
    ensures Inv(r)
  {
    UnlockRefs(s, r);
    ThreadMoves(s.names, s.table, s.unoffered, s.pcs, s.crit, s.crit.t, Idle, Free);
  }

  // ----- releases by callers

  lemma ReleaseRefs(s: State, r: State, id: Id)
    requires RefOk(s.counts, s.freed, s.table, s.held, s.unoffered, s.crit)
    requires s.held[id] > 0 && r.held == s.held - multiset{id}
    requires r.counts == Decref(s, id).counts && r.freed == Decref(s, id).freed
    requires r.table == s.table && r.unoffered == s.unoffered && r.crit == s.crit
    ensures RefOk(r.counts, r.freed, r.table, r.held, r.unoffered, r.crit)
    ensures r.counts.Keys == s.counts.Keys
  {
    assert Refs(s.table, s.held, s.unoffered, s.crit, id) > 0;
    assert RefsMove(s, r, id, -1);
    RefsOne(s, r, id, -1);
  }

  lemma ReleaseKeepsInv(s: State, r: State, id: Id)
    requires Inv(s) && s.held[id] > 0 && r == LetGo(s, id)
    ensures Inv(r)
  {
    ReleaseRefs(s, r, id);
  }

  /** Steps of a thread that does not hold the lock and changes nothing shared. */
  predicate Outside(a: Action) {
    a.Call? || a.LockMissed? || a.CreateFailed?
  }

  predicate Enters(a: Action) {
    a.LockFound? || a.Created?
  }

  predicate Relocks(a: Action) {
    a.RelockFound? || a.RelockMissed?
  }

  lemma OutsideKeepsInv(s: State, a: Action, r: State)
    requires Inv(s) && Outside(a) && Enabled(s, a) && r == Step(s, a)
    ensures Inv(r)
  {
    match a
    case Call(t, name, now) => CallKeepsInv(s, r, t, name, now);
    case LockMissed(t) => LockMissedKeepsInv(s, r, t);
    case CreateFailed(t) => CreateFailedKeepsInv(s, r, t);
  }

  lemma EntersKeepsInv(s: State, a: Action, r: State)
    requires Inv(s) && Enters(a) && Enabled(s, a) && r == Step(s, a)
    ensures Inv(r)
  {
    match a
    case LockFound(t, id) => LockFoundKeepsInv(s, r, t, id);
    case Created(t, id) => CreatedKeepsInv(s, r, t, id);
  }

  lemma RelocksKeepsInv(s: State, a: Action, r: State)
    requires Inv(s) && Relocks(a) && Enabled(s, a) && r == Step(s, a)
    ensures Inv(r)
  {
    match a
    case RelockFound(t, id) => RelockFoundKeepsInv(s, r, t, id);
    case RelockMissed(t) => RelockMissedKeepsInv(s, r, t);
  }

  /** The steps of the purge. */
  predicate Purges(a: Action) {
    a.PurgeNode? || a.Evict? || a.PurgeEnd?
  }

  lemma PurgesKeepsInv(s: State, a: Action, r: State)
    requires Inv(s) && Purges(a) && Enabled(s, a) && r == Step(s, a)
    ensures Inv(r)
  {
    match a
    case PurgeNode => PurgeNodeKeepsInv(s, r);
    case Evict => EvictKeepsInv(s, r);
    case PurgeEnd => PurgeEndKeepsInv(s, r);
  }

  lemma InsideKeepsInv(s: State, a: Action, r: State)
    requires Inv(s) && !Outside(a) && !Enters(a) && !Relocks(a) && !Purges(a) && Enabled(s, a) && r == Step(s, a)
    ensures Inv(r)
  {
    match a
    case DropMine => DropMineKeepsInv(s, r);
    case Incref => IncrefKeepsInv(s, r);
    case Unlock => UnlockKeepsInv(s, r);
    case Release(id) => ReleaseKeepsInv(s, r, id);
  }

  lemma StepKeepsInv(s: State, a: Action, r: State)
    requires Inv(s) && Enabled(s, a) && r == Step(s, a)
    ensures Inv(r)
  {
    if Outside(a) {
      OutsideKeepsInv(s, a, r);
    } else if Enters(a) {
      EntersKeepsInv(s, a, r);
    } else if Relocks(a) {
      RelocksKeepsInv(s, a, r);
    } else if Purges(a) {
      PurgesKeepsInv(s, a, r);
    } else {
      InsideKeepsInv(s, a, r);
    }
  }

  // ---------------------------------------------------------------------
  // Every interleaving
  // ---------------------------------------------------------------------

  /** A run: every action is enabled where it is taken. */
  ghost predicate IsRun(s: State, acts: seq<Action>)
    decreases |acts|
  {
    acts != [] ==> Enabled(s, acts[0]) && IsRun(Step(s, acts[0]), acts[1..])
  }

  ghost function After(s: State, acts: seq<Action>): State
    requires IsRun(s, acts)
    decreases |acts|
  {
    if acts == [] then s else After(Step(s, acts[0]), acts[1..])
  }

  lemma {:induction false} RunKeepsInv(s: State, acts: seq<Action>)
    requires Inv(s) && IsRun(s, acts)
    ensures Inv(After(s, acts))
    decreases |acts|
  {
    if acts != [] {
      StepKeepsInv(s, acts[0], Step(s, acts[0]));
      RunKeepsInv(Step(s, acts[0]), acts[1..]);
    }
  }

  lemma EmptyIsInv()
    ensures Inv(EMPTY)
  {
  }

  // ----- what was asked, from the actions alone

  datatype Asked = Asked(name: Name, now: int)

  /** The latest call of each thread, the thread that took the lock last, and the calls served so far. */
  datatype Story = Story(calls: map<Tid, Asked>, holder: Tid, served: seq<Asked>)

  const NO_STORY := Story(map[], 0, [])

  function Note(h: Story, a: Action): Story {
    match a
    case Call(t, name, now) => h.(calls := h.calls[t := Asked(name, now)])
    case LockFound(t, _) => h.(holder := t)
    case RelockFound(t, _) => h.(holder := t)
    case RelockMissed(t) => h.(holder := t)
    case Unlock => if h.holder in h.calls then h.(served := h.served + [h.calls[h.holder]]) else h
    case _ => h
  }

  function Told(h: Story, acts: seq<Action>): Story
    decreases |acts|
  {
    if acts == [] then h else Told(Note(h, acts[0]), acts[1..])
  }

  /** The plain map after the calls served, one after the other. */
  function ApplyAll(served: seq<Asked>): map<Name, int> {
    if served == [] then map[]
    else Apply(ApplyAll(served[..|served| - 1]), served[|served| - 1].name, served[|served| - 1].now)
  }

  /** A topic is dropped exactly when it is more than 900 seconds old, and the one asked for is stamped. */
  lemma ApplyIs(m: map<Name, int>, name: Name, now: int, n: Name)
    ensures n != name ==> (n in Apply(m, name, now) <==> n in m && m[n] >= now - 900)
    ensures n != name && n in Apply(m, name, now) ==> Apply(m, name, now)[n] == m[n]
    ensures name in Apply(m, name, now) && Apply(m, name, now)[name] == now
  {
  }

  /** What a thread on its way is after is what it was called with. */
  ghost predicate OnItsWay(pc: Pc, h: Story, t: Tid) {
    pc.Entering? || pc.Creating? || pc.Relocking? ==> t in h.calls && h.calls[t] == Asked(pc.name, pc.now)
  }

  ghost predicate Matches(s: State, h: Story) {
    && (forall t :: t in s.pcs ==> OnItsWay(s.pcs[t], h, t))
    && (!s.crit.Free? ==>
          s.crit.t == h.holder && h.holder in h.calls && h.calls[h.holder] == Asked(s.crit.name, s.crit.now))
    && s.spec == ApplyAll(h.served)
  }

  lemma CallMatches(s: State, h: Story, t: Tid, name: Name, now: int)
    requires ThreadsOk(s.names, s.table, s.unoffered, s.pcs, s.crit) && Matches(s, h) && Enabled(s, Call(t, name, now))
    ensures Matches(Step(s, Call(t, name, now)), Note(h, Call(t, name, now)))
  {
    var r, g := Step(s, Call(t, name, now)), Note(h, Call(t, name, now));
    forall u | u in r.pcs
      ensures OnItsWay(r.pcs[u], g, u)
    {
      if u != t {
        assert OnItsWay(s.pcs[u], h, u);
      }
    }
  }

  /** Steps by which one thread moves, before it has the lock or when it takes it. */
  lemma ThreadMatches(s: State, h: Story, a: Action, t: Tid)
    requires Matches(s, h) && Enabled(s, a) && PcOf(s.pcs, t) != Idle
    requires a == LockMissed(t) || a == CreateFailed(t) || (a.Created? && a.t == t) || (a.LockFound? && a.t == t)
             || (a.RelockFound? && a.t == t) || a == RelockMissed(t)
    ensures Matches(Step(s, a), Note(h, a))
  {
    var r, g := Step(s, a), Note(h, a);
    assert OnItsWay(s.pcs[t], h, t);
    forall u | u in r.pcs
      ensures OnItsWay(r.pcs[u], g, u)
    {
      if u != t {
        assert OnItsWay(s.pcs[u], h, u);
      }
    }
  }

  lemma UnlockMatches(s: State, h: Story)
    requires Matches(s, h) && s.crit.Leaving?
    ensures Matches(Leave(s), Note(h, Unlock))
  {
    var r, g := Leave(s), Note(h, Unlock);
    assert g.served[..|g.served| - 1] == h.served;
    forall u | u in r.pcs
      ensures OnItsWay(r.pcs[u], g, u)
    {
      if u != s.crit.t {
        assert OnItsWay(s.pcs[u], h, u);
      }
    }
  }

  /** Steps that drop a reference. */
  lemma HolderMatches(s: State, h: Story, a: Action)
    requires Matches(s, h) && Enabled(s, a)
    requires a.DropMine? || a.Evict? || a.Release?
    ensures Matches(Step(s, a), Note(h, a))
  {
  }

  lemma PurgeMatches(s: State, h: Story, a: Action)
    requires Matches(s, h) && Enabled(s, a) && (a.PurgeNode? || a.PurgeEnd? || a.Incref?)
    ensures Matches(Step(s, a), Note(h, a))
  {
  }

  lemma OutsideMatches(s: State, h: Story, a: Action)
    requires Matches(s, h) && Enabled(s, a) && !a.Call? && (Outside(a) || Enters(a) || Relocks(a))
    ensures Matches(Step(s, a), Note(h, a))
  {
    match a
    case LockFound(t, _) => ThreadMatches(s, h, a, t);
    case LockMissed(t) => ThreadMatches(s, h, a, t);
    case CreateFailed(t) => ThreadMatches(s, h, a, t);
    case Created(t, _) => ThreadMatches(s, h, a, t);
    case RelockFound(t, _) => ThreadMatches(s, h, a, t);
    case RelockMissed(t) => ThreadMatches(s, h, a, t);
  }

  lemma StepMatches(s: State, h: Story, a: Action)
    requires ThreadsOk(s.names, s.table, s.unoffered, s.pcs, s.crit) && Matches(s, h) && Enabled(s, a)
    ensures Matches(Step(s, a), Note(h, a))
  {
    match a
    case Call(t, name, now) => CallMatches(s, h, t, name, now);
    case Unlock => UnlockMatches(s, h);
    case DropMine => HolderMatches(s, h, a);
    case Evict => HolderMatches(s, h, a);
    case Release(_) => HolderMatches(s, h, a);
    case _ =>
      if Outside(a) || Enters(a) || Relocks(a) {
        OutsideMatches(s, h, a);
      } else {
        PurgeMatches(s, h, a);
      }
  }

  lemma {:induction false} RunMatches(s: State, h: Story, acts: seq<Action>)
    requires Inv(s) && Matches(s, h) && IsRun(s, acts)
    ensures Matches(After(s, acts), Told(h, acts))
    decreases |acts|
  {
    if acts != [] {
      StepMatches(s, h, acts[0]);
      StepKeepsInv(s, acts[0], Step(s, acts[0]));
      RunMatches(Step(s, acts[0]), Note(h, acts[0]), acts[1..]);
    }
  }

  /**
   Whoever holds the lock works on the name and time of its own latest call, and the plain map is that
   of the calls served, in the order in which they released the lock.
   */
  lemma CallsAreServed(acts: seq<Action>)
    requires IsRun(EMPTY, acts)
    ensures var s, h := After(EMPTY, acts), Told(NO_STORY, acts);
            && (!s.crit.Free? ==>
                  && s.crit.t == h.holder && h.holder in h.calls
                  && s.crit.name == h.calls[h.holder].name && s.crit.now == h.calls[h.holder].now)
            && s.spec == ApplyAll(h.served)
  {
    EmptyIsInv();
    RunMatches(EMPTY, NO_STORY, acts);
  }

  // ----- the order of the list

  /** When a name was served last; -1 if never. */
  function LastServed(served: seq<Asked>, name: Name): (k: int)
    ensures -1 <= k < |served|
  {
    if served == [] then -1
    else if served[|served| - 1].name == name then |served| - 1
    else LastServed(served[..|served| - 1], name)
  }

  /** The nodes are in the order in which their names were served last. */
  ghost predicate ByAge(names: map<Id, Name>, lru: seq<Id>, served: seq<Asked>) {
    && (forall i :: 0 <= i < |lru| ==> lru[i] in names)
    && (forall i, j :: 0 <= i < j < |lru| ==>
          LastServed(served, names[lru[i]]) < LastServed(served, names[lru[j]]))
  }

  /** The nodes of topics that are not being served; the one served last is linked at the tail. */
  function Settled(lru: seq<Id>, c: Critical): seq<Id> {
    if (c.Counting? || c.Leaving?) && lru != [] then lru[..|lru| - 1] else lru
  }

  ghost predicate Aged(s: State, h: Story) {
    && ByAge(s.names, Settled(s.lru, s.crit), h.served)
    && (s.crit.Counting? || s.crit.Leaving? ==> s.lru != [] && s.lru[|s.lru| - 1] == s.crit.ret)
  }

  /** Leaving out a node keeps the order. */
  lemma ByAgeRemove(names: map<Id, Name>, lru: seq<Id>, served: seq<Asked>, k: nat)
    requires ByAge(names, lru, served) && k < |lru|
    ensures ByAge(names, lru[..k] + lru[k + 1..], served)
  {
    var w := lru[..k] + lru[k + 1..];
    assert forall i :: 0 <= i < |w| ==> w[i] == lru[if i < k then i else i + 1];
  }

  lemma RemoveCons(x: Id, rest: seq<Id>, lru: seq<Id>, k: nat)
    requires lru == [x] + rest && k < |rest|
    ensures [x] + (rest[..k] + rest[k + 1..]) == lru[..k + 1] + lru[k + 2..]
  {
    assert lru[..k + 1] == [x] + rest[..k] && lru[k + 2..] == rest[k + 1..];
  }

  lemma HeadAndTail(lru: seq<Id>)
    requires lru != []
    ensures lru == [lru[0]] + lru[1..] && lru[1..] == lru[..0] + lru[1..]
  {
  }

  lemma {:induction false} WithoutIsRemove(lru: seq<Id>, id: Id) returns (k: nat)
    ensures Without(lru, id) == if k < |lru| then lru[..k] + lru[k + 1..] else lru
  {
    k := 0;
    if lru != [] {
      HeadAndTail(lru);
      if lru[0] != id {
        var i := WithoutIsRemove(lru[1..], id);
        k := i + 1;
        if i < |lru[1..]| {
          RemoveCons(lru[0], lru[1..], lru, i);
        }
      }
    }
  }

  lemma ByAgeWithout(names: map<Id, Name>, lru: seq<Id>, served: seq<Asked>, id: Id)
    requires ByAge(names, lru, served)
    ensures ByAge(names, Without(lru, id), served)
  {
    var k := WithoutIsRemove(lru, id);
    if k < |lru| {
      ByAgeRemove(names, lru, served, k);
    }
  }

  /** The name served now is the latest; the others are as before. */
  lemma ServedLast(served: seq<Asked>, a: Asked, name: Name)
    ensures LastServed(served + [a], name) == if name == a.name then |served| else LastServed(served, name)
  {
    assert (served + [a])[..|served + [a]| - 1] == served;
  }

  lemma ByAgeAppend(names: map<Id, Name>, lru: seq<Id>, served: seq<Asked>, id: Id, a: Asked)
    requires ByAge(names, lru, served) && id in names && names[id] == a.name
    requires forall i :: 0 <= i < |lru| ==> names[lru[i]] != a.name
    ensures ByAge(names, lru + [id], served + [a])
  {
    var w := lru + [id];
    forall i, j | 0 <= i < j < |w|
      ensures LastServed(served + [a], names[w[i]]) < LastServed(served + [a], names[w[j]])
    {
      ServedLast(served, a, names[w[i]]);
      ServedLast(served, a, names[w[j]]);
    }
  }

  lemma CreatedAged(s: State, h: Story, t: Tid, id: Id)
    requires Aged(s, h) && Enabled(s, Created(t, id))
    ensures Aged(NewTopic(s, t, id), h)
  {
    var lru := Settled(s.lru, s.crit);
    assert forall i :: 0 <= i < |lru| ==> lru[i] != id;
  }

  /** No two nodes of the list have the same name. */
  lemma NamesDiffer(names: map<Id, Name>, table: set<Id>, index: map<Name, Id>, lru: seq<Id>, c: Critical, i: nat, j: nat)
    requires TableOk(names, table, index) && ListOk(table, lru, c) && i < j < |lru|
    ensures lru[i] in names && lru[j] in names && names[lru[i]] != names[lru[j]]
  {
    assert lru[i] in lru && lru[j] in lru;
  }

  lemma TailIsLatest(names: map<Id, Name>, table: set<Id>, index: map<Name, Id>, lru: seq<Id>, c: Critical,
                     served: seq<Asked>, a: Asked)
    requires TableOk(names, table, index) && ListOk(table, lru, c) && lru != []
    requires ByAge(names, lru[..|lru| - 1], served) && lru[|lru| - 1] in names && names[lru[|lru| - 1]] == a.name
    ensures ByAge(names, lru, served + [a])
  {
    var n := |lru| - 1;
    forall i: nat | i < n
      ensures names[lru[..n][i]] != a.name
    {
      NamesDiffer(names, table, index, lru, c, i, n);
    }
    ByAgeAppend(names, lru[..n], served, lru[n], a);
    assert lru == lru[..n] + [lru[n]];
  }

  lemma LeavingIsLatest(s: State, served: seq<Asked>)
    requires TableOk(s.names, s.table, s.index) && ListOk(s.table, s.lru, s.crit) && CritOk(s.names, s.table, s.lru, s.crit)
    requires s.crit.Leaving? && s.lru != [] && s.lru[|s.lru| - 1] == s.crit.ret
    requires ByAge(s.names, s.lru[..|s.lru| - 1], served)
    ensures ByAge(s.names, s.lru, served + [Asked(s.crit.name, s.crit.now)])
  {
    TailIsLatest(s.names, s.table, s.index, s.lru, s.crit, served, Asked(s.crit.name, s.crit.now));
  }

  lemma UnlockAged(s: State, h: Story)
    requires s.crit.Leaving? && ByAge(s.names, s.lru, h.served + [Asked(s.crit.name, s.crit.now)])
    requires h.holder in h.calls && h.calls[h.holder] == Asked(s.crit.name, s.crit.now)
    ensures Aged(Leave(s), Note(h, Unlock))
  {
  }

  /** Steps that find a topic and take its node out of the list. */
  lemma FoundAged(s: State, h: Story, a: Action)
    requires Aged(s, h) && Enabled(s, a) && (a.LockFound? || a.RelockFound?)
    ensures Aged(Step(s, a), Note(h, a))
  {
    ByAgeWithout(s.names, s.lru, h.served, a.id);
  }

  lemma PurgeAged(s: State, h: Story)
    requires Aged(s, h) && s.crit.Purging? && s.crit.k < |s.lru|
    ensures Aged(UnlinkNode(s), h) && Aged(SkipNode(s), h)
  {
    ByAgeRemove(s.names, s.lru, h.served, s.crit.k);
  }

  lemma RelinkAged(s: State, h: Story)
    requires Aged(s, h) && s.crit.Purging?
    ensures Aged(Relink(s), h)
  {
    assert (s.lru + [s.crit.ret])[..|s.lru|] == s.lru;
  }

  lemma OtherStepAged(s: State, h: Story, a: Action)
    requires Aged(s, h) && Enabled(s, a)
    requires a.Call? || a.LockMissed? || a.CreateFailed? || a.RelockMissed? || a.DropMine? || a.Evict? || a.Incref? || a.Release?
    ensures Aged(Step(s, a), Note(h, a))
  {
  }

  lemma StepAged(s: State, h: Story, a: Action)
    requires TableOk(s.names, s.table, s.index) && ListOk(s.table, s.lru, s.crit) && CritOk(s.names, s.table, s.lru, s.crit)
    requires Matches(s, h) && Aged(s, h) && Enabled(s, a)
    ensures Aged(Step(s, a), Note(h, a))
  {
    match a
    case Created(t, id) => CreatedAged(s, h, t, id);
    case Unlock =>
      LeavingIsLatest(s, h.served);
      UnlockAged(s, h);
    case LockFound(_, _) => FoundAged(s, h, a);
    case RelockFound(_, _) => FoundAged(s, h, a);
    case PurgeNode => PurgeAged(s, h);
    case PurgeEnd => RelinkAged(s, h);
    case _ => OtherStepAged(s, h, a);
  }

  lemma {:induction false} RunAged(s: State, h: Story, acts: seq<Action>)
    requires Inv(s) && Matches(s, h) && Aged(s, h) && IsRun(s, acts)
    ensures Aged(After(s, acts), Told(h, acts))
    decreases |acts|
  {
    if acts != [] {
      StepAged(s, h, acts[0]);
      StepMatches(s, h, acts[0]);
      StepKeepsInv(s, acts[0], Step(s, acts[0]));
      RunAged(Step(s, acts[0]), Note(h, acts[0]), acts[1..]);
    }
  }

  /** Whenever the lock is free the list is ordered by use: the topic served longest ago is at its head. */
  lemma ListIsByAge(acts: seq<Action>)
    requires IsRun(EMPTY, acts) && After(EMPTY, acts).crit.Free?
    ensures var s := After(EMPTY, acts);
            ByAge(s.names, s.lru, Told(NO_STORY, acts).served)
  {
    EmptyIsInv();
    RunAged(EMPTY, NO_STORY, acts);
  }

  /** The contents of table and timestamps as a plain map. */
  ghost predicate Cache(s: State, m: map<Name, int>) {
    && (forall id :: id in s.table ==> id in s.names && id in s.stamps
                                       && s.names[id] in m && m[s.names[id]] == s.stamps[id])
    && (forall n :: n in m ==> exists id :: FoundAs(s, n, id))
  }

  /**
   Whenever the lock is free: table and list hold the same topics, no name has two entries, and the
   cache is the plain map after the calls served so far, by their own names and times.
   */
  lemma CacheRefinesMap(acts: seq<Action>)
    requires IsRun(EMPTY, acts) && After(EMPTY, acts).crit.Free?
    ensures var s := After(EMPTY, acts);
            && (forall id :: id in s.table <==> id in s.lru)
            && Distinct(s.lru)
            && (forall n, a, b :: FoundAs(s, n, a) && FoundAs(s, n, b) ==> a == b)
            && Cache(s, ApplyAll(Told(NO_STORY, acts).served))
  {
    EmptyIsInv();
    RunKeepsInv(EMPTY, acts);
    CallsAreServed(acts);
    FreeRefinesMap(After(EMPTY, acts));
  }

  lemma FreeRefinesMap(s: State)
    requires Inv(s) && s.crit.Free?
    ensures (forall id :: id in s.table <==> id in s.lru) && Distinct(s.lru)
    ensures forall n, a, b :: FoundAs(s, n, a) && FoundAs(s, n, b) ==> a == b
    ensures Cache(s, s.spec)
  {
    forall n | n in s.spec
      ensures exists id :: FoundAs(s, n, id)
    {
      assert n in s.index;
      assert FoundAs(s, n, s.index[n]);
    }
  }

  /**
   In every state of every run, a topic's count is one for the database plus one per handle, plus one
   while its creator or the holder of the lock has it; it is freed exactly when that is zero. So a
   topic that is held, or in the table, is not freed.
   */
  lemma CountsAreReferences(acts: seq<Action>)
    requires IsRun(EMPTY, acts)
    ensures var s := After(EMPTY, acts);
            && (forall id :: id in s.counts ==> s.counts[id] == Refs(s.table, s.held, s.unoffered, s.crit, id)
                                                && (id in s.freed <==> s.counts[id] == 0))
            && (forall id :: s.held[id] > 0 || id in s.table ==> id in s.counts && id !in s.freed)
  {
    EmptyIsInv();
    RunKeepsInv(EMPTY, acts);
    var s := After(EMPTY, acts);
    forall id | s.held[id] > 0 || id in s.table ensures id in s.counts && id !in s.freed {
      assert Refs(s.table, s.held, s.unoffered, s.crit, id) > 0;
    }
  }

  /**
   A call returns a topic of the name that it was called with, stamped with the time of the call, alive
   and in the table, so that no purge took it; the caller gets a handle on it and the call is served.
   */
  lemma CallReturnsLiveTopic(acts: seq<Action>)
    requires IsRun(EMPTY, acts) && After(EMPTY, acts).crit.Leaving?
    ensures var s, h := After(EMPTY, acts), Told(NO_STORY, acts);
            && h.holder in h.calls
            && Returns(s, h.calls[h.holder], s.crit.ret)
            && Leave(s).held == s.held + multiset{s.crit.ret}
  {
    EmptyIsInv();
    RunKeepsInv(EMPTY, acts);
    CallsAreServed(acts);
    LeavingIsLive(After(EMPTY, acts));
  }

  /** The topic is what the call asked for. */
  ghost predicate Returns(s: State, c: Asked, id: Id) {
    && FoundAs(s, c.name, id) && id !in s.freed && Count(s, id) >= 2
    && id in s.stamps && s.stamps[id] == c.now
  }

  lemma LeavingIsLive(s: State)
    requires Inv(s) && s.crit.Leaving?
    ensures Returns(s, Asked(s.crit.name, s.crit.now), s.crit.ret)
  {
    assert s.index[s.crit.name] == s.crit.ret;
    assert Apply(s.spec, s.crit.name, s.crit.now)[s.crit.name] == s.crit.now;
  }

  lemma FreedGrows(s: State, a: Action)
    requires Enabled(s, a)
    ensures s.freed <= Step(s, a).freed
  {
    match a
    case DropMine =>
    case Evict =>
    case Release(_) =>
    case _ =>
  }

  /** No count rises from zero. */
  lemma FreedForGood(acts: seq<Action>, a: Action, id: Id)
    requires IsRun(EMPTY, acts) && Enabled(After(EMPTY, acts), a)
    requires id in After(EMPTY, acts).freed
    ensures id in Step(After(EMPTY, acts), a).freed && Count(Step(After(EMPTY, acts), a), id) == 0
  {
    var s := After(EMPTY, acts);
    var r := Step(s, a);
    EmptyIsInv();
    RunKeepsInv(EMPTY, acts);
    StepKeepsInv(s, a, r);
    FreedGrows(s, a);
  }

  /** The topics that a step reads or counts. */
  predicate Uses(s: State, a: Action, id: Id)
    requires Enabled(s, a)
  {
    match a
    case LockFound(_, x) => id == x
    case RelockFound(_, x) => id == x
    case PurgeNode => id == s.lru[s.crit.k]
    case DropMine => id == s.crit.mine
    case Evict => id == s.crit.victim
    case PurgeEnd => id == s.crit.ret
    case Incref => id == s.crit.ret
    case Release(x) => id == x
    case _ => false
  }

  /** No step of any run uses a freed topic. */
  lemma NothingFreedIsUsed(acts: seq<Action>, a: Action, id: Id)
    requires IsRun(EMPTY, acts) && Enabled(After(EMPTY, acts), a) && Uses(After(EMPTY, acts), a, id)
    ensures id in After(EMPTY, acts).counts && id !in After(EMPTY, acts).freed
  {
    var s := After(EMPTY, acts);
    EmptyIsInv();
    RunKeepsInv(EMPTY, acts);
    UsedIsReferenced(s, a, id);
  }

  lemma UsedIsReferenced(s: State, a: Action, id: Id)
    requires Inv(s) && Enabled(s, a) && Uses(s, a, id)
    ensures Refs(s.table, s.held, s.unoffered, s.crit, id) > 0
  {
    if a.PurgeNode? {
      assert s.lru[s.crit.k] in s.lru;
    }
  }

  // ---------------------------------------------------------------------
  // Shutdown
  // ---------------------------------------------------------------------

  /** topics_db_done: the database drops its reference to every topic in the table. */
  function Close(s: State, order: seq<Id>): State
    decreases |order|
  {
    if order == [] then s
    else
      var id := order[0];
      Close(Decref(s, id).(table := s.table - {id}), order[1..])
  }

  /** After the shutdown of an idle cache a topic is alive exactly if a caller still holds it. */
  lemma {:induction false} CloseKeepsHeld(s: State, order: seq<Id>)
    requires s.crit.Free? && s.unoffered == map[]
    requires RefOk(s.counts, s.freed, s.table, s.held, s.unoffered, s.crit)
    requires Distinct(order) && forall id :: id in order <==> id in s.table
    ensures var r := Close(s, order);
            && r.counts.Keys == s.counts.Keys
            && forall id :: id in r.counts ==> r.counts[id] == s.held[id] && (id in r.freed <==> s.held[id] == 0)
    decreases |order|
  {
    if order != [] {
      var id, rest := order[0], order[1..];
      var t := Decref(s, id).(table := s.table - {id});
      assert id in order && forall i :: 0 <= i < |rest| ==> rest[i] == order[i + 1];
      assert order == [id] + rest;
      CloseOne(s, t, id);
      CloseKeepsHeld(t, rest);
    }
  }

  /** The same for the cache at the end of any run, with no call going on. */
  lemma CloseAfterRun(acts: seq<Action>, order: seq<Id>)
    requires IsRun(EMPTY, acts) && After(EMPTY, acts).crit.Free?
    requires forall t :: PcOf(After(EMPTY, acts).pcs, t).Idle?
    requires Distinct(order) && forall id :: id in order <==> id in After(EMPTY, acts).table
    ensures var s := After(EMPTY, acts);
            var r := Close(s, order);
            forall id :: id in s.names ==>
              id in r.counts && r.counts[id] == s.held[id] && (id in r.freed <==> s.held[id] == 0)
  {
    EmptyIsInv();
    RunKeepsInv(EMPTY, acts);
    var s := After(EMPTY, acts);
    NobodyCreates(s);
    CloseKeepsHeld(s, order);
  }

  lemma NobodyCreates(s: State)
    requires ThreadsOk(s.names, s.table, s.unoffered, s.pcs, s.crit) && forall t :: PcOf(s.pcs, t).Idle?
    ensures s.unoffered == map[]
  {
    assert forall id :: id in s.unoffered ==> !PcOf(s.pcs, s.unoffered[id]).Idle?;
  }

  lemma CloseOne(s: State, t: State, id: Id)
    requires s.crit.Free? && id in s.table && t == Decref(s, id).(table := s.table - {id})
    requires RefOk(s.counts, s.freed, s.table, s.held, s.unoffered, s.crit)
    ensures RefOk(t.counts, t.freed, t.table, t.held, t.unoffered, t.crit)
    ensures t.counts.Keys == s.counts.Keys
  {
    assert Refs(s.table, s.held, s.unoffered, s.crit, id) > 0;
    assert RefsMove(s, t, id, -1);
    RefsOne(s, t, id, -1);
  }
}
