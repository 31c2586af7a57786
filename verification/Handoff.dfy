/**
 The acceptor of a TCP listener hands connections to its workers: it queues the
 connection at the next worker and wakes it. This module is the interleaving of
 the acceptor with all the workers, up to shutdown.
 */
module Handoff {

  const MAX_THREADS := 256

  /** The number of threads, from the 32 bits that the configuration stores. */
  function Threads(configured: int): (n: nat)
    ensures 1 <= configured <= 256 ==> n == configured
    ensures configured == 0 ==> n == 1
    ensures 257 <= configured <= 0x7FFF_FFFF ==> n == 256
    ensures -0x8000_0000 <= configured < 0 ==> n == 256
    ensures 1 <= n <= 256
  {
    var stored := configured % 0x1_0000_0000;
    if stored == 0 then 1 else if stored > MAX_THREADS then MAX_THREADS else stored
  }

  /** Connections are numbered in the order of acceptance. */
  type Conn = nat

  /** One event loop. libev keeps a wake-up until the callback runs, and merges wake-ups. */
  datatype Worker = Worker(
    queue: seq<Conn>,    // watchers_queue[i]
    wake: bool,          // event_asyncs[i] was sent and async_cb has not begun
    draining: bool,      // inside async_cb
    hand: seq<Conn>,     // popped, to be started
    watched: seq<Conn>)  // ev_io_start was called

  /** Where accept_cb is. */
  datatype Acceptor =
    | Waiting
    | Chosen(conn: Conn, w: nat)  // the index is advanced, the connection is in no queue yet
    | Queued(w: nat)              // the wake-up is still to be sent

  datatype State = State(workers: seq<Worker>, acceptor: Acceptor, idx: nat, accepted: nat)

  datatype Action =
    | Accept          // accept_cb up to the choice of a worker
    | Enqueue         // rd_fifoq_add
    | Send            // ev_async_send
    | Wake(w: nat)    // libev runs async_cb
    | Pop(w: nat)     // rd_fifoq_pop gives a connection
    | Start(w: nat)   // ev_io_start
    | Finish(w: nat)  // rd_fifoq_pop gives nothing

  const IDLE_WORKER := Worker([], false, false, [], [])

  function Initial(threads: nat): State {
    State(seq(threads, _ => IDLE_WORKER), Waiting, 0, 0)
  }

  predicate Enabled(s: State, a: Action) {
    match a
    case Accept => s.acceptor.Waiting? && s.idx < |s.workers|
    case Enqueue => s.acceptor.Chosen? && s.acceptor.w < |s.workers|
    case Send => s.acceptor.Queued? && s.acceptor.w < |s.workers|
    case Wake(w) => w < |s.workers| && s.workers[w].wake && !s.workers[w].draining
    case Pop(w) =>
      w < |s.workers| && s.workers[w].draining && s.workers[w].hand == [] && s.workers[w].queue != []
    case Start(w) => w < |s.workers| && s.workers[w].draining && s.workers[w].hand != []
    case Finish(w) =>
      w < |s.workers| && s.workers[w].draining && s.workers[w].hand == [] && s.workers[w].queue == []
  }

  /** What a step does to the worker it is about. */
  function Touched(v: Worker, a: Action, acceptor: Acceptor): Worker {
    match a
    case Accept => v
    case Enqueue => if acceptor.Chosen? then v.(queue := v.queue + [acceptor.conn]) else v
    case Send => v.(wake := true)
    case Wake(_) => v.(wake := false, draining := true)
    case Pop(_) => if v.queue == [] then v else v.(queue := v.queue[1..], hand := [v.queue[0]])
    case Start(_) => v.(hand := [], watched := v.watched + v.hand)
    case Finish(_) => v.(draining := false)
  }

  function Target(s: State, a: Action): nat {
    match a
    case Accept => s.idx
    case Enqueue => if s.acceptor.Chosen? then s.acceptor.w else 0
    case Send => if s.acceptor.Queued? then s.acceptor.w else 0
    case Wake(w) => w
    case Pop(w) => w
    case Start(w) => w
    case Finish(w) => w
  }

  /** accept_current_worker_idx after one more connection. */
  function NextIndex(s: State): nat {
    if s.idx + 1 >= |s.workers| then 0 else s.idx + 1
  }

  function Step(s: State, a: Action): State
    requires Enabled(s, a)
  {
    var t := Target(s, a);
    var s1 := s.(workers := s.workers[t := Touched(s.workers[t], a, s.acceptor)]);
    match a
    case Accept => s1.(acceptor := Chosen(s.accepted, s.idx), idx := NextIndex(s), accepted := s.accepted + 1)
    case Enqueue => s1.(acceptor := Queued(s.acceptor.w))
    case Send => s1.(acceptor := Waiting)
    case _ => s1
  }

  predicate IsRun(s: State, acts: seq<Action>)
    decreases |acts|
  {
    acts != [] ==> Enabled(s, acts[0]) && IsRun(Step(s, acts[0]), acts[1..])
  }

  function After(s: State, acts: seq<Action>): State
    requires IsRun(s, acts)
    decreases |acts|
  {
    if acts == [] then s else After(Step(s, acts[0]), acts[1..])
  }

  // ---------------------------------------------------------------------
  // Where every connection is
  // ---------------------------------------------------------------------

  /** The connections that worker `w` of `n` should get out of the first `k`: every n-th one. */
  function Share(k: nat, n: nat, w: nat): seq<Conn>
    requires w < n
  {
    if k == 0 then [] else Share(k - 1, n, w) + if (k - 1) % n == w then [k - 1] else []
  }

  /** What the acceptor holds for worker `w`. */
  function InHand(a: Acceptor, w: nat): seq<Conn> {
    if a.Chosen? && a.w == w then [a.conn] else []
  }

  /** All the connections of a worker, oldest first. */
  function Has(s: State, w: nat): seq<Conn>
    requires w < |s.workers|
  {
    var v := s.workers[w];
    v.watched + v.hand + v.queue + InHand(s.acceptor, w)
  }

  /** A queue that is not empty will be looked at. */
  predicate Noticed(s: State, w: nat)
    requires w < |s.workers|
  {
    var v := s.workers[w];
    v.queue != [] ==> v.wake || v.draining || s.acceptor == Queued(w)
  }

  predicate WorkerOk(s: State, w: nat)
    requires w < |s.workers|
  {
    && Has(s, w) == Share(s.accepted, |s.workers|, w)
    && Noticed(s, w)
    && (s.workers[w].hand != [] ==> s.workers[w].draining)
  }

  ghost predicate Inv(s: State) {
    && s.workers != []
    && s.idx == s.accepted % |s.workers|
    && (!s.acceptor.Waiting? ==> s.acceptor.w < |s.workers|)
    && forall w: nat :: w < |s.workers| ==> WorkerOk(s, w)
  }

  /** A quotient and a remainder in range are the ones of division. */
  lemma DivisionIs(x: nat, q: int, m: nat, n: nat)
    requires m < n && x == n * q + m
    ensures x / n == q && x % n == m
  {
    var d := x / n - q;
    assert x == n * (x / n) + x % n;
    assert n * d == m - x % n;
    if d > 0 {
      AtLeastOnce(n, d);
    } else if d < 0 {
      assert n * -d == -(n * d);
      AtLeastOnce(n, -d);
    }
  }

  lemma AtLeastOnce(n: nat, d: int)
    requires d > 0
    ensures n * d >= n
  {
    assert n * d == n + n * (d - 1);
  }

  /** Counting one further: the remainder grows by one or starts again. */
  lemma NextModulo(k: nat, n: nat)
    requires n > 0
    ensures (k + 1) % n == if k % n + 1 >= n then 0 else k % n + 1
    ensures (k + 1) / n == k / n + if k % n + 1 >= n then 1 else 0
  {
    var q, m := k / n, k % n;
    assert k == n * q + m;
    if m + 1 < n {
      DivisionIs(k + 1, q, m + 1, n);
    } else {
      assert n * (q + 1) == n * q + n;
      DivisionIs(k + 1, q + 1, 0, n);
    }
  }

  lemma AcceptKeeps(s: State, r: State, w: nat)
    requires Inv(s) && Enabled(s, Accept) && r == Step(s, Accept) && w < |s.workers|
    ensures WorkerOk(r, w)
  {
    assert WorkerOk(s, w);
    assert r.workers == s.workers;
    assert Has(r, w) == Has(s, w) + InHand(r.acceptor, w);
  }

  lemma EnqueueKeeps(s: State, r: State, w: nat)
    requires Inv(s) && Enabled(s, Enqueue) && r == Step(s, Enqueue) && w < |s.workers|
    ensures WorkerOk(r, w)
  {
    assert WorkerOk(s, w);
    assert Has(r, w) == Has(s, w);
  }

  lemma SendKeeps(s: State, r: State, w: nat)
    requires Inv(s) && Enabled(s, Send) && r == Step(s, Send) && w < |s.workers|
    ensures WorkerOk(r, w)
  {
    assert WorkerOk(s, w);
    assert Has(r, w) == Has(s, w);
  }

  lemma PopKeeps(s: State, r: State, v: nat, w: nat)
    requires Inv(s) && Enabled(s, Pop(v)) && r == Step(s, Pop(v)) && w < |s.workers|
    ensures WorkerOk(r, w)
  {
    assert WorkerOk(s, w);
    var q := s.workers[v].queue;
    assert q == [q[0]] + q[1..];
    assert Has(r, w) == Has(s, w);
  }

  /** Steps of a worker that move no connection out of its queue. */
  lemma WorkerKeeps(s: State, a: Action, r: State, w: nat)
    requires Inv(s) && Enabled(s, a) && r == Step(s, a) && w < |s.workers| && (a.Wake? || a.Start? || a.Finish?)
    ensures WorkerOk(r, w)
  {
    assert WorkerOk(s, w);
    assert Has(r, w) == Has(s, w);
  }

  lemma StepKeepsInv(s: State, a: Action)
    requires Inv(s) && Enabled(s, a)
    ensures Inv(Step(s, a))
  {
    var r := Step(s, a);
    NextModulo(s.accepted, |s.workers|);
    forall w: nat | w < |s.workers|
      ensures WorkerOk(r, w)
    {
      match a
      case Accept => AcceptKeeps(s, r, w);
      case Enqueue => EnqueueKeeps(s, r, w);
      case Send => SendKeeps(s, r, w);
      case Pop(v) => PopKeeps(s, r, v, w);
      case _ => WorkerKeeps(s, a, r, w);
    }
  }

  lemma InitialInv(n: nat)
    requires n > 0
    ensures Inv(Initial(n))
  {
    var s := Initial(n);
    forall w: nat | w < n
      ensures WorkerOk(s, w)
    {
      assert s.workers[w] == IDLE_WORKER && Has(s, w) == [];
    }
  }

  lemma {:induction false} RunKeepsInv(s: State, acts: seq<Action>)
    requires Inv(s) && IsRun(s, acts)
    ensures Inv(After(s, acts)) && |After(s, acts).workers| == |s.workers|
    decreases |acts|
  {
    if acts != [] {
      StepKeepsInv(s, acts[0]);
      RunKeepsInv(Step(s, acts[0]), acts[1..]);
    }
  }

  /**
   In every interleaving, worker w has exactly the connections numbered w modulo the number of
   threads, each once and in order; a queue that is not empty will be looked at; and the index of the
   next worker is in range.
   */
  lemma EveryInterleaving(configured: int, acts: seq<Action>)
    requires IsRun(Initial(Threads(configured)), acts)
    ensures var n, s := Threads(configured), After(Initial(Threads(configured)), acts);
            && |s.workers| == n && s.idx < n
            && (forall w: nat :: w < n ==> Has(s, w) == Share(s.accepted, n, w) && Noticed(s, w))
  {
    var start := Initial(Threads(configured));
    InitialInv(Threads(configured));
    RunKeepsInv(start, acts);
    var s := After(start, acts);
    forall w: nat | w < |s.workers|
      ensures Has(s, w) == Share(s.accepted, |s.workers|, w) && Noticed(s, w)
    {
      assert WorkerOk(s, w);
    }
  }

  /** A share holds each of its connections once: just the ones with the right remainder. */
  lemma {:induction false} ShareMembers(k: nat, n: nat, w: nat)
    requires w < n
    ensures forall c: Conn :: c in Share(k, n, w) <==> c < k && c % n == w
    ensures forall i, j :: 0 <= i < j < |Share(k, n, w)| ==> Share(k, n, w)[i] < Share(k, n, w)[j]
  {
    if k > 0 {
      ShareMembers(k - 1, n, w);
      var before := Share(k - 1, n, w);
      assert forall i :: 0 <= i < |before| ==> before[i] in before;
    }
  }

  /** The sizes of the shares: the first `k % n` workers have one more. */
  lemma {:induction false} ShareSize(k: nat, n: nat, w: nat)
    requires w < n
    ensures |Share(k, n, w)| == k / n + if w < k % n then 1 else 0
  {
    if k > 0 {
      ShareSize(k - 1, n, w);
      NextModulo(k - 1, n);
    } else {
      assert 0 / n == 0 && 0 % n == 0;
    }
  }

  /** Two workers never differ by more than one connection, in any run. */
  lemma Balanced(configured: int, acts: seq<Action>, v: nat, w: nat)
    requires IsRun(Initial(Threads(configured)), acts)
    requires v < Threads(configured) && w < Threads(configured)
    ensures var s := After(Initial(Threads(configured)), acts);
            |s.workers| == Threads(configured) && |Has(s, v)| <= |Has(s, w)| + 1
  {
    EveryInterleaving(configured, acts);
    var s := After(Initial(Threads(configured)), acts);
    ShareSize(s.accepted, |s.workers|, v);
    ShareSize(s.accepted, |s.workers|, w);
  }

  // ---------------------------------------------------------------------
  // No connection is forgotten
  // ---------------------------------------------------------------------

  /** Steps still to do without another connection; a bound. */
  function Todo(v: Worker): nat {
    2 * |v.queue| + |v.hand| + (if v.draining then 1 else 0) + if v.wake then 2 else 0
  }

  function TodoAll(ws: seq<Worker>): nat {
    if ws == [] then 0 else TodoAll(ws[..|ws| - 1]) + Todo(ws[|ws| - 1])
  }

  function Left(s: State): nat {
    TodoAll(s.workers) + match s.acceptor case Waiting => 0 case Chosen(_, _) => 6 case Queued(_) => 3
  }

  lemma {:induction false} TodoUpdate(ws: seq<Worker>, w: nat, v: Worker)
    requires w < |ws|
    ensures TodoAll(ws[w := v]) == TodoAll(ws) - Todo(ws[w]) + Todo(v)
  {
    var n := |ws| - 1;
    if w < n {
      TodoUpdate(ws[..n], w, v);
      assert ws[w := v][..n] == ws[..n][w := v];
    } else {
      assert ws[w := v][..n] == ws[..n];
    }
  }

  lemma StepGetsCloser(s: State, a: Action)
    requires Enabled(s, a) && !a.Accept?
    ensures Left(Step(s, a)) < Left(s)
  {
    var t := Target(s, a);
    TodoUpdate(s.workers, t, Touched(s.workers[t], a, s.acceptor));
  }

  ghost predicate NoAccept(acts: seq<Action>) {
    forall k :: 0 <= k < |acts| ==> !acts[k].Accept?
  }

  /** Nothing but another connection can happen. */
  ghost predicate Quiet(s: State) {
    forall a: Action :: Enabled(s, a) ==> a.Accept?
  }

  lemma {:induction false} RunIsBounded(s: State, acts: seq<Action>)
    requires IsRun(s, acts) && NoAccept(acts)
    ensures |acts| + Left(After(s, acts)) <= Left(s)
    decreases |acts|
  {
    if acts != [] {
      assert !acts[0].Accept?;
      StepGetsCloser(s, acts[0]);
      RunIsBounded(Step(s, acts[0]), acts[1..]);
    }
  }

  lemma QuietWorker(s: State, w: nat)
    requires Inv(s) && Quiet(s) && w < |s.workers|
    ensures s.acceptor.Waiting? && s.workers[w].queue == [] && s.workers[w].hand == []
  {
    assert WorkerOk(s, w);
    assert !Enabled(s, Enqueue) && !Enabled(s, Send);
    assert !Enabled(s, Wake(w)) && !Enabled(s, Pop(w)) && !Enabled(s, Start(w)) && !Enabled(s, Finish(w));
  }

  /**
   However the threads are scheduled: after the last connection only a bounded number of steps can
   follow, and where no more can, every connection is watched by its worker.
   */
  lemma EveryConnectionIsWatched(configured: int, acts: seq<Action>, more: seq<Action>)
    requires IsRun(Initial(Threads(configured)), acts)
    requires IsRun(After(Initial(Threads(configured)), acts), more) && NoAccept(more)
    ensures var s := After(Initial(Threads(configured)), acts);
            var r := After(s, more);
            && |more| <= Left(s)
            && |r.workers| == Threads(configured)
            && (Quiet(r) ==> forall w: nat :: w < |r.workers| ==>
                  r.workers[w].watched == Share(r.accepted, |r.workers|, w))
  {
    var start := Initial(Threads(configured));
    InitialInv(Threads(configured));
    var s := After(start, acts);
    RunKeepsInv(start, acts);
    RunKeepsInv(s, more);
    RunIsBounded(s, more);
    var r := After(s, more);
    if Quiet(r) {
      forall w: nat | w < |r.workers|
        ensures r.workers[w].watched == Share(r.accepted, |r.workers|, w)
      {
        QuietWorker(r, w);
        assert WorkerOk(r, w) && Has(r, w) == r.workers[w].watched;
      }
    }
  }
}
