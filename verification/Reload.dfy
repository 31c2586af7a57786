/**
 Reload of the configuration: listeners whose port is still configured are
 reloaded in place, the others are shut down, and what is missing is created.
 */
module Reload {

  const PORTS := 0x1_0000

  /**
   An entry of the listeners array. `usable`: it names a known protocol; parse_listener skips any
   other one, and there `port` reads as 0 if it is missing. A usable entry has a port, because the
   process ends when a listener cannot be created.
   */
  datatype Entry = Entry(port: int, usable: bool)

  /** A running listener. `id` is its identity; `conf` is what it was created or last reloaded with. */
  datatype Listener = Listener(id: nat, port: nat, canReload: bool, conf: Entry)

  /** A port number as it fits the 16 bits of a listener's port. */
  function Low16(port: int): nat {
    port % PORTS
  }

  /** A port number from 0 to 65535 is kept; of any other one the upper half is lost. */
  lemma PortsAre16Bits(port: int)
    ensures 0 <= port <= 65535 ==> Low16(port) == port
    ensures Low16(port) <= 65535 && Low16(port + 65536) == Low16(port)
    ensures Low16(65536) == 0 && Low16(70000) == 4464
  {
  }

  // ---------------------------------------------------------------------
  // Specification
  // ---------------------------------------------------------------------

  predicate Configured(cfg: seq<Entry>, port: nat) {
    port > 0 && exists k :: 0 <= k < |cfg| && cfg[k].port == port
  }

  predicate Runs(ls: seq<Listener>, port: nat) {
    exists k :: 0 <= k < |ls| && ls[k].port == port
  }

  predicate Stays(l: Listener, cfg: seq<Entry>) {
    Configured(cfg, l.port) && l.canReload
  }

  /** The first entry for a configured port. */
  function EntryFor(cfg: seq<Entry>, port: nat): (e: Entry)
    requires Configured(cfg, port)
    ensures e in cfg && e.port == port
  {
    if cfg[0].port == port then cfg[0] else EntryFor(cfg[1..], port)
  }

  /** What is left of the list after the first half of a reload. */
  function Kept(ls: seq<Listener>, cfg: seq<Entry>): seq<Listener> {
    if ls == [] then []
    else
      var before, l := Kept(ls[..|ls| - 1], cfg), ls[|ls| - 1];
      if Stays(l, cfg) then before + [l.(conf := EntryFor(cfg, l.port))] else before
  }

  /** The listeners that the first half shuts down, in order. */
  function Closed(ls: seq<Listener>, cfg: seq<Entry>): seq<nat> {
    if ls == [] then []
    else
      var before, l := Closed(ls[..|ls| - 1], cfg), ls[|ls| - 1];
      if Stays(l, cfg) then before else before + [l.id]
  }

  /** Does an entry, in the second half, find no listener and make one? */
  predicate Creates(ls: seq<Listener>, e: Entry) {
    e.usable && !(Low16(e.port) > 0 && Runs(ls, Low16(e.port)))
  }

  /** The list after the second half; new listeners get the identities from `id` on. */
  function Completed(ls: seq<Listener>, cfg: seq<Entry>, id: nat): (r: seq<Listener>)
    ensures |r| >= |ls|
  {
    if cfg == [] then ls
    else
      var before, e := Completed(ls, cfg[..|cfg| - 1], id), cfg[|cfg| - 1];
      if Creates(before, e) then [Listener(id + |before| - |ls|, Low16(e.port), true, e)] + before else before
  }

  function Reloaded(ls: seq<Listener>, cfg: seq<Entry>, id: nat): seq<Listener> {
    Completed(Kept(ls, cfg), cfg, id)
  }

  // ---------------------------------------------------------------------
  // The code
  // ---------------------------------------------------------------------

  class Config {
    var listeners: seq<Listener>
    var nextId: nat
    var joined: seq<nat>  // shut down so far

    constructor ()
      ensures listeners == [] && nextId == 0 && joined == []
    {
      listeners, nextId, joined := [], 0, [];
    }

    /** The search for an entry, with the break one round after the match. */
    method FindEntry(cfg: seq<Entry>, port: nat) returns (found: bool, e: Entry)
      ensures found == Configured(cfg, port)
      ensures found ==> e == EntryFor(cfg, port)
    {
      found, e := false, Entry(0, false);
      var k := 0;
      while k < |cfg| && !found
        invariant 0 <= k <= |cfg|
        invariant !found ==> forall j :: 0 <= j < k && port > 0 ==> cfg[j].port != port
        invariant found ==> Configured(cfg, port) && e == EntryFor(cfg, port)
      {
        if cfg[k].port > 0 && cfg[k].port == port {
          found, e := true, cfg[k];
          FirstEntry(cfg, port, k);
        }
        k := k + 1;
      }
    }

    /** reload_listeners_check_already_present */
    method CheckAlreadyPresent(cfg: seq<Entry>)
      modifies this`listeners, this`joined
      ensures listeners == Kept(old(listeners), cfg)
      ensures joined == old(joined) + Closed(old(listeners), cfg)
    {
      ghost var ls := listeners;
      var i := 0;
      ghost var seen := 0;
      while i < |listeners|
        invariant 0 <= i <= |listeners| && 0 <= seen <= |ls| && |listeners| - i == |ls| - seen
        invariant listeners[..i] == Kept(ls[..seen], cfg) && listeners[i..] == ls[seen..]
        invariant joined == old(joined) + Closed(ls[..seen], cfg)
        decreases |listeners| - i
      {
        var l := listeners[i];
        WalkStep(listeners, i, ls, seen);
        var found, e := FindEntry(cfg, l.port);
        if found && l.canReload {
          listeners := listeners[i := l.(conf := e)];
          i := i + 1;
        } else {
          listeners := listeners[..i] + listeners[i + 1..];
          joined := joined + [l.id];
        }
        seen := seen + 1;
      }
      assert ls[..|ls|] == ls && listeners[..|listeners|] == listeners;
    }

    /** The search for a running listener. */
    method FindListener(port: nat) returns (found: bool)
      ensures found == (port > 0 && Runs(listeners, port))
    {
      found := false;
      var k := 0;
      while k < |listeners| && !found
        invariant 0 <= k <= |listeners|
        invariant !found && port > 0 ==> forall j :: 0 <= j < k ==> listeners[j].port != port
        invariant found ==> port > 0 && Runs(listeners, port)
      {
        if listeners[k].port > 0 && listeners[k].port == port {
          found := true;
        }
        k := k + 1;
      }
    }

    /** parse_listener: an entry without a known protocol is skipped. */
    method ParseListener(e: Entry)
      modifies this`listeners, this`nextId
      ensures nextId == if e.usable then old(nextId) + 1 else old(nextId)
      ensures listeners == if e.usable then [Listener(old(nextId), Low16(e.port), true, e)] + old(listeners)
                           else old(listeners)
    {
      if e.usable {
        listeners := [Listener(nextId, Low16(e.port), true, e)] + listeners;
        nextId := nextId + 1;
      }
    }

    /** reload_listeners_create_new_ones */
    method CreateNewOnes(cfg: seq<Entry>)
      modifies this`listeners, this`nextId
      ensures listeners == Completed(old(listeners), cfg, old(nextId))
      ensures nextId == old(nextId) + |listeners| - |old(listeners)|
    {
      var k := 0;
      while k < |cfg|
        invariant 0 <= k <= |cfg|
        invariant listeners == Completed(old(listeners), cfg[..k], old(nextId))
        invariant nextId == old(nextId) + |listeners| - |old(listeners)|
      {
        assert cfg[..k + 1][..k] == cfg[..k];
        var found := FindListener(Low16(cfg[k].port));
        if !found {
          ParseListener(cfg[k]);
        }
        k := k + 1;
      }
      assert cfg[..|cfg|] == cfg;
    }

    /** reload_listeners */
    method ReloadListeners(cfg: seq<Entry>)
      modifies this
      ensures listeners == Reloaded(old(listeners), cfg, old(nextId))
      ensures joined == old(joined) + Closed(old(listeners), cfg)
      ensures nextId == old(nextId) + |listeners| - |Kept(old(listeners), cfg)|
    {
      CheckAlreadyPresent(cfg);
      CreateNewOnes(cfg);
    }
  }

  /** One node further in the walk over the list. */
  lemma WalkStep(now: seq<Listener>, i: nat, ls: seq<Listener>, seen: nat)
    requires i < |now| && seen < |ls| && now[i..] == ls[seen..]
    ensures now[i] == ls[seen] && now[i + 1..] == ls[seen + 1..]
    ensures ls[..seen + 1][..seen] == ls[..seen] && ls[..seen + 1][seen] == ls[seen]
    ensures (now[..i] + now[i + 1..])[..i] == now[..i] && (now[..i] + now[i + 1..])[i..] == now[i + 1..]
    ensures forall l :: now[i := l][..i + 1] == now[..i] + [l] && now[i := l][i + 1..] == now[i + 1..]
  {
    assert now[i..][0] == now[i] && now[i..][1..] == now[i + 1..];
    assert ls[seen..][0] == ls[seen] && ls[seen..][1..] == ls[seen + 1..];
  }

  lemma {:induction false} FirstEntry(cfg: seq<Entry>, port: nat, k: nat)
    requires k < |cfg| && cfg[k].port == port > 0
    requires forall j :: 0 <= j < k ==> cfg[j].port != port
    ensures Configured(cfg, port) && EntryFor(cfg, port) == cfg[k]
  {
    if k > 0 {
      FirstEntry(cfg[1..], port, k - 1);
    }
  }

  // ---------------------------------------------------------------------
  // The first half
  // ---------------------------------------------------------------------

  /** Same listeners, whatever they were last reloaded with. */
  ghost predicate Same(a: seq<Listener>, b: seq<Listener>) {
    |a| == |b| && forall k :: 0 <= k < |a| ==> a[k].id == b[k].id && a[k].port == b[k].port
  }

  predicate HasId(ls: seq<Listener>, id: nat) {
    exists k :: 0 <= k < |ls| && ls[k].id == id
  }

  ghost predicate DistinctIds(ls: seq<Listener>) {
    forall i, j :: 0 <= i < j < |ls| ==> ls[i].id != ls[j].id
  }

  /** Every listener is either kept, in place, with its port, or shut down, and never both. */
  lemma {:induction false} KeptOrClosed(ls: seq<Listener>, cfg: seq<Entry>)
    ensures forall k :: 0 <= k < |ls| && Stays(ls[k], cfg) ==> ls[k].(conf := EntryFor(cfg, ls[k].port)) in Kept(ls, cfg)
    ensures forall k :: 0 <= k < |ls| && !Stays(ls[k], cfg) ==> ls[k].id in Closed(ls, cfg)
    ensures forall l :: l in Kept(ls, cfg) ==> Stays(l, cfg) && exists k :: KeptAs(ls, k, l)
    ensures forall id :: id in Closed(ls, cfg) ==> exists k :: 0 <= k < |ls| && ls[k].id == id && !Stays(ls[k], cfg)
    ensures |Kept(ls, cfg)| + |Closed(ls, cfg)| == |ls|
  {
    if ls != [] {
      var before := ls[..|ls| - 1];
      KeptOrClosed(before, cfg);
      assert forall k :: 0 <= k < |before| ==> before[k] == ls[k];
      assert forall k, l :: KeptAs(before, k, l) ==> KeptAs(ls, k, l);
      var l := ls[|ls| - 1];
      if Stays(l, cfg) {
        assert KeptAs(ls, |ls| - 1, l.(conf := EntryFor(cfg, l.port)));
      }
    }
  }

  ghost predicate KeptAs(ls: seq<Listener>, k: int, l: Listener) {
    0 <= k < |ls| && ls[k].(conf := l.conf) == l
  }

  ghost predicate AllStay(ls: seq<Listener>, cfg: seq<Entry>) {
    forall k {:trigger ls[k]} :: 0 <= k < |ls| ==> Stays(ls[k], cfg)
  }

  /** The first half changes no list of listeners that all stay. */
  lemma {:induction false} KeptAll(ls: seq<Listener>, cfg: seq<Entry>)
    requires AllStay(ls, cfg)
    ensures Same(Kept(ls, cfg), ls)
  {
    if ls != [] {
      var before, l := ls[..|ls| - 1], ls[|ls| - 1];
      KeptAll(before, cfg);
      SameAppend(Kept(before, cfg), before, l, EntryFor(cfg, l.port));
      assert before + [l] == ls;
    }
  }

  lemma SameAppend(a: seq<Listener>, b: seq<Listener>, l: Listener, e: Entry)
    requires Same(a, b)
    ensures Same(a + [l.(conf := e)], b + [l])
  {
  }

  /** No port but 0 is taken twice. */
  ghost predicate NoDuplicates(ls: seq<Listener>) {
    forall i, j :: 0 <= i < j < |ls| && ls[i].port == ls[j].port ==> ls[i].port == 0
  }

  lemma {:induction false} KeptNoDuplicates(ls: seq<Listener>, cfg: seq<Entry>)
    requires NoDuplicates(ls)
    ensures NoDuplicates(Kept(ls, cfg))
  {
    if ls != [] {
      var before, l := ls[..|ls| - 1], ls[|ls| - 1];
      KeptNoDuplicates(before, cfg);
      KeptOrClosed(before, cfg);
      var kept := Kept(before, cfg);
      forall i | 0 <= i < |kept|
        ensures kept[i].port == l.port ==> l.port == 0
      {
        assert kept[i] in kept;
        var k :| KeptAs(before, k, kept[i]);
        assert before[k] == ls[k] && ls[k].port == kept[i].port;
      }
    }
  }

  // ---------------------------------------------------------------------
  // The second half
  // ---------------------------------------------------------------------

  /** A listener that the second half made out of a usable entry, with an identity from `id` on. */
  ghost predicate Made(l: Listener, cfg: seq<Entry>, id: nat) {
    l.id >= id && l.conf in cfg && l.conf.usable && l.port == Low16(l.conf.port) && l.canReload
  }

  /** `r` is `ls` with new listeners in front. */
  ghost predicate Extends(r: seq<Listener>, ls: seq<Listener>, cfg: seq<Entry>, id: nat) {
    && |r| >= |ls|
    && r[|r| - |ls|..] == ls
    && forall k :: 0 <= k < |r| - |ls| ==> r[k].id == id + |r| - |ls| - 1 - k && Made(r[k], cfg, id)
  }

  /** The second half only puts new listeners in front, with new identities. */
  lemma {:induction false} CompletedExtends(ls: seq<Listener>, cfg: seq<Entry>, id: nat)
    ensures Extends(Completed(ls, cfg, id), ls, cfg, id)
  {
    if cfg != [] {
      CompletedExtends(ls, cfg[..|cfg| - 1], id);
    }
  }

  /** Afterwards every usable entry has a listener. */
  lemma {:induction false} CompletedRuns(ls: seq<Listener>, cfg: seq<Entry>, id: nat, e: Entry)
    requires e in cfg && e.usable
    ensures Runs(Completed(ls, cfg, id), Low16(e.port))
    ensures Low16(e.port) == 0 ==> |Completed(ls, cfg, id)| > |ls|
  {
    var before, last := cfg[..|cfg| - 1], cfg[|cfg| - 1];
    var r, r0 := Completed(ls, cfg, id), Completed(ls, before, id);
    if e == last {
      if Creates(r0, e) {
        assert r[0].port == Low16(e.port);
      }
    } else {
      assert e in before;
      CompletedRuns(ls, before, id, e);
      var k :| 0 <= k < |r0| && r0[k].port == Low16(e.port);
      assert r[|r| - |r0| + k] == r0[k];
    }
  }

  lemma {:induction false} CompletedNoDuplicates(ls: seq<Listener>, cfg: seq<Entry>, id: nat)
    requires NoDuplicates(ls)
    ensures NoDuplicates(Completed(ls, cfg, id))
  {
    if cfg != [] {
      CompletedNoDuplicates(ls, cfg[..|cfg| - 1], id);
    }
  }

  /** Where every usable entry finds its listener nothing is created. */
  lemma {:induction false} NothingToCreate(ls: seq<Listener>, cfg: seq<Entry>, id: nat)
    requires forall e :: e in cfg && e.usable ==> Low16(e.port) > 0 && Runs(ls, Low16(e.port))
    ensures Completed(ls, cfg, id) == ls
  {
    if cfg != [] {
      NothingToCreate(ls, cfg[..|cfg| - 1], id);
      assert cfg[|cfg| - 1] in cfg;
    }
  }

  // ---------------------------------------------------------------------
  // A whole reload
  // ---------------------------------------------------------------------

  /** Does an entry ask for this port? */
  predicate AsksFor(e: Entry, port: nat) {
    e.usable && Low16(e.port) == port
  }

  /** What is not new comes from a listener that stays. */
  lemma Origin(ls: seq<Listener>, cfg: seq<Entry>, id: nat, r: seq<Listener>, k: nat) returns (j: nat)
    requires r == Reloaded(ls, cfg, id) && k < |r| && !Made(r[k], cfg, id)
    ensures KeptAs(ls, j, r[k]) && Stays(ls[j], cfg)
  {
    var kept := Kept(ls, cfg);
    CompletedExtends(kept, cfg, id);
    KeptOrClosed(ls, cfg);
    assert r[k] == kept[k - (|r| - |kept|)] && r[k] in kept;
    j :| KeptAs(ls, j, r[k]);
  }

  /** A listener that stays is in the list afterwards. */
  lemma Remains(ls: seq<Listener>, cfg: seq<Entry>, id: nat, r: seq<Listener>, j: nat) returns (k: nat)
    requires r == Reloaded(ls, cfg, id) && j < |ls| && Stays(ls[j], cfg)
    ensures k < |r| && KeptAs(ls, j, r[k])
  {
    var kept, l := Kept(ls, cfg), ls[j].(conf := EntryFor(cfg, ls[j].port));
    CompletedExtends(kept, cfg, id);
    KeptOrClosed(ls, cfg);
    assert l in kept;
    var i: nat :| i < |kept| && kept[i] == l;
    k := |r| - |kept| + i;
  }

  /** A port runs afterwards exactly if a listener on it stays or a usable entry asks for it. */
  lemma RunningPorts(ls: seq<Listener>, cfg: seq<Entry>, id: nat, port: nat)
    ensures Runs(Reloaded(ls, cfg, id), port) <==>
            || (exists l :: l in ls && l.port == port && Stays(l, cfg))
            || (exists e :: e in cfg && AsksFor(e, port))
  {
    var r := Reloaded(ls, cfg, id);
    if Runs(r, port) {
      var k: nat :| k < |r| && r[k].port == port;
      if Made(r[k], cfg, id) {
        assert AsksFor(r[k].conf, port);
      } else {
        var j := Origin(ls, cfg, id, r, k);
        assert ls[j] in ls;
      }
    }
    if l :| l in ls && l.port == port && Stays(l, cfg) {
      var j: nat :| j < |ls| && ls[j] == l;
      var k := Remains(ls, cfg, id, r, j);
      assert r[k].port == port;
    }
    if e :| e in cfg && AsksFor(e, port) {
      CompletedRuns(Kept(ls, cfg), cfg, id, e);
    }
  }

  /** Usable entries with proper ports: exactly the configured ports run, whatever ran before. */
  lemma RunningIsConfigured(ls: seq<Listener>, cfg: seq<Entry>, id: nat, port: nat)
    requires forall e :: e in cfg ==> e.usable && 1 <= e.port <= 65535
    ensures Runs(Reloaded(ls, cfg, id), port) <==> Configured(cfg, port)
  {
    RunningPorts(ls, cfg, id, port);
    if Configured(cfg, port) {
      var k :| 0 <= k < |cfg| && cfg[k].port == port;
      assert cfg[k] in cfg && AsksFor(cfg[k], port);
    }
    if e :| e in cfg && AsksFor(e, port) {
      var k :| 0 <= k < |cfg| && cfg[k] == e;
      assert cfg[k].port == port;
    }
  }

  /** No reload gives a port to a second listener. */
  lemma ReloadNoDuplicates(ls: seq<Listener>, cfg: seq<Entry>, id: nat)
    requires NoDuplicates(ls)
    ensures NoDuplicates(Reloaded(ls, cfg, id))
  {
    KeptNoDuplicates(ls, cfg);
    CompletedNoDuplicates(Kept(ls, cfg), cfg, id);
  }

  /** Identities are given once, and all of them below `id`. */
  ghost predicate Known(ls: seq<Listener>, id: nat) {
    DistinctIds(ls) && forall k :: 0 <= k < |ls| ==> ls[k].id < id
  }

  /** A running listener survives, on its port, exactly if it stays; it is never made anew. */
  lemma Survives(ls: seq<Listener>, cfg: seq<Entry>, id: nat, k: nat)
    requires Known(ls, id) && k < |ls|
    ensures var r := Reloaded(ls, cfg, id);
            && (HasId(r, ls[k].id) <==> Stays(ls[k], cfg))
            && (forall j :: 0 <= j < |r| && r[j].id == ls[k].id ==> r[j].port == ls[k].port)
            && (ls[k].id in Closed(ls, cfg) <==> !Stays(ls[k], cfg))
  {
    var r := Reloaded(ls, cfg, id);
    forall j: nat | j < |r| && r[j].id == ls[k].id
      ensures Stays(ls[k], cfg) && r[j].port == ls[k].port
    {
      var i := Origin(ls, cfg, id, r, j);
      assert i == k;
    }
    if Stays(ls[k], cfg) {
      var j := Remains(ls, cfg, id, r, k);
      assert r[j].id == ls[k].id;
    }
    ClosedUnlessStays(ls, cfg, k);
  }

  lemma ClosedUnlessStays(ls: seq<Listener>, cfg: seq<Entry>, k: nat)
    requires DistinctIds(ls) && k < |ls|
    ensures ls[k].id in Closed(ls, cfg) <==> !Stays(ls[k], cfg)
  {
    KeptOrClosed(ls, cfg);
  }

  // ---------------------------------------------------------------------
  // Reloading the same configuration again
  // ---------------------------------------------------------------------

  /** Each usable entry has a port that fits 16 bits as some entry says it, and is not 0. */
  predicate Stable(cfg: seq<Entry>) {
    forall e :: e in cfg && e.usable ==> Configured(cfg, Low16(e.port))
  }

  lemma ReloadedAllStay(ls: seq<Listener>, cfg: seq<Entry>, id: nat)
    requires Stable(cfg)
    ensures AllStay(Reloaded(ls, cfg, id), cfg)
  {
    var kept, r := Kept(ls, cfg), Reloaded(ls, cfg, id);
    KeptOrClosed(ls, cfg);
    CompletedExtends(kept, cfg, id);
    var n := |r| - |kept|;
    forall k | 0 <= k < |r|
      ensures Stays(r[k], cfg)
    {
      if k < n {
        assert Made(r[k], cfg, id);
      } else {
        assert r[k] == kept[k - n] && r[k] in kept;
      }
    }
  }

  lemma StableAgain(ls: seq<Listener>, cfg: seq<Entry>, id: nat, r: seq<Listener>, id': nat)
    requires Stable(cfg) && r == Reloaded(ls, cfg, id)
    ensures Same(Reloaded(r, cfg, id'), r)
  {
    ReloadedAllStay(ls, cfg, id);
    KeptAll(r, cfg);
    var kept := Kept(r, cfg);
    forall e | e in cfg && e.usable
      ensures Low16(e.port) > 0 && Runs(kept, Low16(e.port))
    {
      CompletedRuns(Kept(ls, cfg), cfg, id, e);
      var k :| 0 <= k < |r| && r[k].port == Low16(e.port);
      assert kept[k].port == r[k].port;
    }
    NothingToCreate(kept, cfg, id');
  }

  /** An entry that is not stable makes a new listener at every reload. */
  lemma UnstableAgain(r: seq<Listener>, cfg: seq<Entry>, id': nat, e: Entry)
    requires e in cfg && e.usable && !Configured(cfg, Low16(e.port))
    requires forall k :: 0 <= k < |r| ==> r[k].id < id'
    ensures !Same(Reloaded(r, cfg, id'), r)
  {
    var kept, r' := Kept(r, cfg), Reloaded(r, cfg, id');
    CompletedRuns(kept, cfg, id', e);
    CompletedExtends(kept, cfg, id');
    KeptOrClosed(r, cfg);
    var n := |r'| - |kept|;
    forall k | n <= k < |r'|
      ensures r'[k].port != Low16(e.port)
    {
      assert r'[k] == kept[k - n] && r'[k] in kept;
    }
    assert n > 0 && r'[0].id >= id';
  }

  /** A second reload of the same configuration changes no listener exactly if the configuration is stable. */
  lemma ReloadAgain(ls: seq<Listener>, cfg: seq<Entry>, id: nat, r: seq<Listener>, id': nat)
    requires Known(ls, id) && r == Reloaded(ls, cfg, id) && id' == id + |r| - |Kept(ls, cfg)|
    ensures Same(Reloaded(r, cfg, id'), r) <==> Stable(cfg)
  {
    if Stable(cfg) {
      StableAgain(ls, cfg, id, r, id');
    } else {
      var e :| e in cfg && e.usable && !Configured(cfg, Low16(e.port));
      KnownAfter(ls, cfg, id, r, id');
      UnstableAgain(r, cfg, id', e);
    }
  }

  /** An entry that says port 0 gets a new listener at every reload. */
  lemma PortZeroIsRecreated()
    ensures var cfg := [Entry(0, true)];
            var r := Reloaded([], cfg, 0);
            |r| == 1 && !Same(Reloaded(r, cfg, 1), r)
  {
    var cfg := [Entry(0, true)];
    var r := Reloaded([], cfg, 0);
    CompletedRuns([], cfg, 0, cfg[0]);
    assert r == [Listener(0, 0, true, cfg[0])] by {
      assert cfg[..0] == [] && Creates([], cfg[0]);
    }
    assert cfg[0] in cfg && !Configured(cfg, 0);
    ReloadAgain([], cfg, 0, r, 1);
  }

  lemma KnownAfter(ls: seq<Listener>, cfg: seq<Entry>, id: nat, r: seq<Listener>, id': nat)
    requires Known(ls, id) && r == Reloaded(ls, cfg, id) && id' == id + |r| - |Kept(ls, cfg)|
    ensures forall k :: 0 <= k < |r| ==> r[k].id < id'
  {
    var kept := Kept(ls, cfg);
    KeptOrClosed(ls, cfg);
    CompletedExtends(kept, cfg, id);
    forall k | |r| - |kept| <= k < |r|
      ensures r[k].id < id
    {
      assert r[k] == kept[k - (|r| - |kept|)] && r[k] in kept;
      var j :| KeptAs(ls, j, r[k]);
    }
  }

  /** With ports that fit 16 bits, a second reload changes nothing exactly if no usable entry says port 0. */
  lemma ProperPortsAreStable(cfg: seq<Entry>)
    requires forall e :: e in cfg ==> 0 <= e.port <= 65535
    ensures Stable(cfg) <==> forall e :: e in cfg && e.usable ==> e.port != 0
  {
    forall e | e in cfg && e.usable
      ensures Configured(cfg, Low16(e.port)) <==> e.port != 0
    {
      var k :| 0 <= k < |cfg| && cfg[k] == e;
      assert cfg[k].port == Low16(e.port);
    }
  }
}
