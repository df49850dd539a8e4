/** Selective signalling. Work requests of a queue pair complete in order, only
    signaled ones make a completion, and reaping a completion retires every
    earlier request of the queue pair. A full send queue refuses a post. */
module SendQueue {
  import opened Arithmetic
  import opened Options

  datatype Wr = Wr(id: nat, signaled: bool)

  /** Requests posted and not retired, oldest first, and the counter beside them. */
  datatype Queue = Queue(unreaped: seq<Wr>, countWR: nat)

  /** What holds between blocking calls: the counter is the number of unretired
      requests, there is room for one more, and no completion is waiting. */
  ghost predicate Ready(maxWr: nat, q: Queue) {
    && |q.unreaped| == q.countWR < maxWr
    && forall i :: 0 <= i < |q.unreaped| ==> !q.unreaped[i].signaled
  }

  /** Position of the oldest signaled request, or the length if there is none. */
  function Oldest(s: seq<Wr>): (i: nat)
    ensures i <= |s|
    ensures i < |s| ==> s[i].signaled
    ensures forall k :: 0 <= k < i ==> !s[k].signaled
  {
    if s == [] then 0 else if s[0].signaled then 0 else 1 + Oldest(s[1..])
  }

  lemma OldestUnique(s: seq<Wr>, i: nat)
    requires i < |s| && s[i].signaled && forall k :: 0 <= k < i ==> !s[k].signaled
    ensures Oldest(s) == i
  {
  }

  class QueuePair {
    const maxWr: nat          // RDMA_MAX_WR, the capacity asked for the send queue
    var unreaped: seq<Wr>
    var countWR: nat
    var executed: nat         // how many of the unretired requests the adapter has executed

    ghost predicate Valid()
      reads this
    {
      executed <= |unreaped|
    }

    ghost function State(): Queue
      reads this
    {
      Queue(unreaped, countWR)
    }

    constructor (maxWr: nat)
      requires maxWr >= 1
      ensures Valid() && this.maxWr == maxWr && State() == Queue([], 0)
    {
      this.maxWr := maxWr;
      unreaped, countWR, executed := [], 0, 0;
    }

    /** Forces a signal when the caller gave none for RDMA_MAX_WR posts. */
    method CheckSignaled(signaled: bool) returns (signaled': bool)
      modifies this`countWR
      ensures signaled' == (signaled || old(countWR) + 1 == maxWr)
      ensures countWR == if signaled' then 0 else old(countWR) + 1
    {
      signaled' := signaled;
      if signaled {
        countWR := 0;
        return;
      }
      countWR := countWR + 1;
      if countWR == maxWr {
        signaled' := true;
        countWR := 0;
      }
    }

    /** False when the send queue is full. */
    method PostSend(id: nat, signaled: bool) returns (ok: bool)
      requires Valid()
      modifies this`unreaped
      ensures Valid() && ok == (|old(unreaped)| < maxWr)
      ensures unreaped == if ok then old(unreaped) + [Wr(id, signaled)] else old(unreaped)
    {
      ok := |unreaped| < maxWr;
      if ok {
        unreaped := unreaped + [Wr(id, signaled)];
      }
    }

    /** The adapter may have executed more requests on its own by now. */
    method Elapse()
      requires Valid()
      modifies this`executed
      ensures Valid() && executed >= old(executed)
    {
      if * {
        executed := |unreaped|;
      }
    }

    /** Polls until the completion queue yields one entry. It waits for ever
        unless a signaled request is under way. */
    method PollSendCq() returns (id: nat)
      requires Valid() && Oldest(unreaped) < |unreaped|
      modifies this`unreaped, this`executed
      ensures Valid() && id == old(unreaped)[Oldest(old(unreaped))].id
      ensures unreaped == old(unreaped)[Oldest(old(unreaped)) + 1..]
    {
      var first := Oldest(unreaped);
      while executed <= first
        invariant executed <= |unreaped| && unreaped == old(unreaped)
        decreases |unreaped| - executed
      {
        executed := executed + 1;
      }
      id := unreaped[first].id;
      unreaped := unreaped[first + 1..];
      executed := executed - first - 1;
    }

    /** A send, write, read or atomic on whatever is in the queue: post, and wait
        for a completion if the request is signaled. `reaped` is the request whose
        completion was polled. */
    method Access(id: nat, signaled: bool) returns (ok: bool, reaped: Option<nat>)
      requires Valid()
      modifies this
      ensures Valid() && ok == BlockingCall(maxWr, old(State()), id, signaled).Returned?
      ensures ok ==> BlockingCall(maxWr, old(State()), id, signaled) == Returned(State(), reaped)
      ensures !ok ==> unreaped == old(unreaped) && reaped == None
      ensures !ok ==> countWR == if Signals(maxWr, old(State()), signaled) then 0 else old(countWR) + 1
    {
      reaped := None;
      var s := CheckSignaled(signaled);
      ok := PostSend(id, s);
      if ok {
        Elapse();
        if s {
          LastIsSignaled(unreaped);
          var r := PollSendCq();
          reaped := Some(r);
        }
      }
    }

    /** A read that is posted signaled and not waited for. */
    method RequestRead(id: nat) returns (ok: bool)
      requires Valid()
      modifies this
      ensures Valid() && ok == Read(maxWr, old(State()), id).Returned?
      ensures ok ==> Read(maxWr, old(State()), id) == Returned(State(), None)
      ensures !ok ==> unreaped == old(unreaped) && countWR == 0
    {
      var s := CheckSignaled(true);
      ok := PostSend(id, s);
    }
  }

  lemma LastIsSignaled(s: seq<Wr>)
    requires s != [] && s[|s| - 1].signaled
    ensures Oldest(s) < |s|
  {
  }

  // ---- one call on any queue ----

  datatype Outcome = Full | Returned(q: Queue, reaped: Option<nat>)

  function Signals(maxWr: nat, q: Queue, signaled: bool): bool { signaled || q.countWR + 1 == maxWr }

  function BlockingCall(maxWr: nat, q: Queue, id: nat, signaled: bool): Outcome {
    if |q.unreaped| >= maxWr then Full
    else if !Signals(maxWr, q, signaled) then Returned(Queue(q.unreaped + [Wr(id, false)], q.countWR + 1), None)
    else
      var u := q.unreaped + [Wr(id, true)];
      LastIsSignaled(u);
      Returned(Queue(u[Oldest(u) + 1..], 0), Some(u[Oldest(u)].id))
  }

  function Read(maxWr: nat, q: Queue, id: nat): Outcome {
    if |q.unreaped| >= maxWr then Full else Returned(Queue(q.unreaped + [Wr(id, true)], 0), None)
  }

  ghost predicate NoneSignaled(q: Queue) {
    forall i :: 0 <= i < |q.unreaped| ==> !q.unreaped[i].signaled
  }

  /** A ready queue has room, the call reaps its own completion or none, and the
      queue is ready again. */
  lemma ReadyCall(maxWr: nat, q: Queue, id: nat, signaled: bool)
    requires Ready(maxWr, q)
    ensures BlockingCall(maxWr, q, id, signaled) ==
            Returned(After(maxWr, q, id, signaled), if Signals(maxWr, q, signaled) then Some(id) else None)
    ensures Ready(maxWr, After(maxWr, q, id, signaled))
  {
    if Signals(maxWr, q, signaled) {
      OldestUnique(q.unreaped + [Wr(id, true)], |q.unreaped|);
    }
  }

  /** A signaled call on any queue with room reaps its own completion exactly when
      no signaled request is waiting to be reaped before it. */
  lemma OwnCompletionIff(maxWr: nat, q: Queue, id: nat, signaled: bool)
    requires |q.unreaped| < maxWr && Signals(maxWr, q, signaled)
    requires forall i :: 0 <= i < |q.unreaped| ==> q.unreaped[i].id != id
    ensures BlockingCall(maxWr, q, id, signaled).reaped == Some(id) <==> NoneSignaled(q)
  {
    var u := q.unreaped + [Wr(id, true)];
    LastIsSignaled(u);
    if NoneSignaled(q) {
      OldestUnique(u, |q.unreaped|);
    } else {
      var i :| 0 <= i < |q.unreaped| && q.unreaped[i].signaled;
      assert u[i].signaled && Oldest(u) <= i;
    }
  }

  // ---- reads that nobody waits for ----

  function SignaledOf(ids: seq<nat>): (r: seq<Wr>)
    ensures |r| == |ids| && forall i :: 0 <= i < |ids| ==> r[i] == Wr(ids[i], true)
  {
    seq(|ids|, i requires 0 <= i < |ids| => Wr(ids[i], true))
  }

  function Reads(maxWr: nat, q: Queue, ids: seq<nat>): Option<Queue>
    decreases |ids|
  {
    if ids == [] then Some(q)
    else
      match Read(maxWr, q, ids[0])
      case Full => None
      case Returned(next, _) => Reads(maxWr, next, ids[1..])
  }

  /** Reads go through exactly as long as there is room; nothing is reaped, and the
      counter no longer tells how full the queue is. */
  lemma {:induction false} ReadsIff(maxWr: nat, q: Queue, ids: seq<nat>)
    requires |q.unreaped| <= maxWr
    ensures Reads(maxWr, q, ids) ==
            if ids == [] then Some(q)
            else if |q.unreaped| + |ids| <= maxWr then Some(Queue(q.unreaped + SignaledOf(ids), 0))
            else None
    decreases |ids|
  {
    if ids != [] && |q.unreaped| < maxWr {
      var next := Queue(q.unreaped + [Wr(ids[0], true)], 0);
      ReadsIff(maxWr, next, ids[1..]);
      assert q.unreaped + SignaledOf(ids) == next.unreaped + SignaledOf(ids[1..]);
      assert ids[1..] == [] ==> next.unreaped + SignaledOf(ids[1..]) == next.unreaped;
    }
  }

  /** After some reads on a ready queue a signaled call reaps its own completion
      exactly when there were none: otherwise it returns with the oldest read's. */
  lemma ForeignCompletion(maxWr: nat, q: Queue, loose: seq<nat>, id: nat)
    requires Ready(maxWr, q) && |q.unreaped| + |loose| < maxWr
    ensures Reads(maxWr, q, loose).Some?
    ensures BlockingCall(maxWr, Reads(maxWr, q, loose).value, id, true).Returned?
    ensures BlockingCall(maxWr, Reads(maxWr, q, loose).value, id, true).reaped ==
            Some(if loose == [] then id else loose[0])
  {
    ReadsIff(maxWr, q, loose);
    var u := q.unreaped + SignaledOf(loose) + [Wr(id, true)];
    OldestUnique(u, |q.unreaped|);
    assert loose == [] ==> u == q.unreaped + [Wr(id, true)];
  }

  /** What signaled calls with these ids reap one after the other. */
  function ReapedBy(maxWr: nat, q: Queue, ids: seq<nat>): Option<seq<nat>>
    decreases |ids|
  {
    if ids == [] then Some([])
    else
      match BlockingCall(maxWr, q, ids[0], true)
      case Full => None
      case Returned(next, reaped) =>
        var rest := ReapedBy(maxWr, next, ids[1..]);
        if rest.None? || reaped.None? then None else Some([reaped.value] + rest.value)
  }

  /** And it never catches up: with k reads under way every later call returns on
      the completion of the request k before its own. */
  lemma {:induction false} NeverCatchesUp(maxWr: nat, quiet: seq<Wr>, pending: seq<nat>, c: nat, ids: seq<nat>)
    requires |quiet| + |pending| < maxWr && forall i :: 0 <= i < |quiet| ==> !quiet[i].signaled
    ensures ReapedBy(maxWr, Queue(quiet + SignaledOf(pending), c), ids) == Some((pending + ids)[..|ids|])
    decreases |ids|
  {
    if ids != [] {
      var u := quiet + SignaledOf(pending) + [Wr(ids[0], true)];
      var all := pending + [ids[0]];
      assert u == quiet + SignaledOf(all);
      OldestUnique(u, |quiet|);
      assert u[|quiet| + 1..] == [] + SignaledOf(all[1..]);
      NeverCatchesUp(maxWr, [], all[1..], 0, ids[1..]);
      assert all + ids[1..] == pending + ids;
      assert [all[0]] + (all[1..] + ids[1..])[..|ids| - 1] == (pending + ids)[..|ids|];
    }
  }

  // ---- the counter and the room ----

  function UnsignaledCalls(maxWr: nat, q: Queue, ids: seq<nat>): Option<Queue>
    decreases |ids|
  {
    if ids == [] then Some(q)
    else
      match BlockingCall(maxWr, q, ids[0], false)
      case Full => None
      case Returned(next, _) => UnsignaledCalls(maxWr, next, ids[1..])
  }

  /** Until the counter forces a signal, calls without one only fill the queue. */
  lemma {:induction false} RoomIff(maxWr: nat, q: Queue, ids: seq<nat>)
    requires |q.unreaped| <= maxWr && q.countWR + |ids| <= maxWr
    ensures UnsignaledCalls(maxWr, q, ids).Some? <==> |q.unreaped| + |ids| <= maxWr
    decreases |ids|
  {
    if ids != [] && |q.unreaped| < maxWr && !Signals(maxWr, q, false) {
      RoomIff(maxWr, Queue(q.unreaped + [Wr(ids[0], false)], q.countWR + 1), ids[1..]);
    }
  }

  /** Unawaited reads reset the counter without reaping. The calls after them, up to
      the one that the counter would signal, all find room exactly when what was
      unreaped, the reads and the calls fit the queue together; RDMA_MAX_WR calls
      never do. */
  lemma ResetOverflows(maxWr: nat, q: Queue, loose: seq<nat>, ids: seq<nat>)
    requires Ready(maxWr, q) && loose != [] && |q.unreaped| + |loose| <= maxWr && |ids| <= maxWr
    ensures Reads(maxWr, q, loose).Some?
    ensures UnsignaledCalls(maxWr, Reads(maxWr, q, loose).value, ids).Some? <==>
            |q.unreaped| + |loose| + |ids| <= maxWr
    ensures |ids| == maxWr ==> UnsignaledCalls(maxWr, Reads(maxWr, q, loose).value, ids).None?
  {
    ReadsIff(maxWr, q, loose);
    RoomIff(maxWr, Reads(maxWr, q, loose).value, ids);
  }

  // ---- runs over many connections ----

  datatype Call = Call(conn: nat, id: nat, signaled: bool)

  /** What a blocking call leaves of a ready queue. */
  function After(maxWr: nat, q: Queue, id: nat, signaled: bool): Queue {
    if Signals(maxWr, q, signaled) then Queue([], 0)
    else Queue(q.unreaped + [Wr(id, false)], q.countWR + 1)
  }

  /** The queue that serves a connection: its own on reliable connections, the one
      shared queue pair with its one counter on datagrams. */
  function Serving(shared: bool, conn: nat): nat { if shared then 0 else conn }

  function Run(maxWr: nat, shared: bool, qs: seq<Queue>, calls: seq<Call>): (end: seq<Queue>)
    requires forall k :: 0 <= k < |calls| ==> Serving(shared, calls[k].conn) < |qs|
    ensures |end| == |qs|
    decreases |calls|
  {
    if calls == [] then qs else
    var c := calls[0];
    var i := Serving(shared, c.conn);
    Run(maxWr, shared, qs[i := After(maxWr, qs[i], c.id, c.signaled)], calls[1..])
  }

  /** After any calls on any connections every queue is ready for the next. */
  lemma {:induction false} RunReady(maxWr: nat, shared: bool, qs: seq<Queue>, calls: seq<Call>)
    requires maxWr >= 1 && forall i :: 0 <= i < |qs| ==> Ready(maxWr, qs[i])
    requires forall k :: 0 <= k < |calls| ==> Serving(shared, calls[k].conn) < |qs|
    ensures var end := Run(maxWr, shared, qs, calls);
            forall i :: 0 <= i < |end| ==> Ready(maxWr, end[i])
    decreases |calls|
  {
    if calls != [] {
      var c := calls[0];
      var i := Serving(shared, c.conn);
      var next := qs[i := After(maxWr, qs[i], c.id, c.signaled)];
      RunReady(maxWr, shared, next, calls[1..]);
      assert Run(maxWr, shared, qs, calls) == Run(maxWr, shared, next, calls[1..]);
    }
  }

  /** The calls on one connection, in order. */
  function OnConn(calls: seq<Call>, conn: nat): seq<Call> {
    if calls == [] then []
    else (if calls[0].conn == conn then [calls[0]] else []) + OnConn(calls[1..], conn)
  }

  /** One queue after calls that all go to it. */
  function AfterAll(maxWr: nat, q: Queue, calls: seq<Call>): Queue
    decreases |calls|
  {
    if calls == [] then q
    else AfterAll(maxWr, After(maxWr, q, calls[0].id, calls[0].signaled), calls[1..])
  }

  /** On reliable connections each queue sees the calls on its own connection and no others. */
  lemma {:induction false} OwnQueues(maxWr: nat, qs: seq<Queue>, calls: seq<Call>, conn: nat)
    requires conn < |qs| && forall k :: 0 <= k < |calls| ==> calls[k].conn < |qs|
    ensures Run(maxWr, false, qs, calls)[conn] == AfterAll(maxWr, qs[conn], OnConn(calls, conn))
    decreases |calls|
  {
    if calls != [] {
      var c := calls[0];
      var next := qs[c.conn := After(maxWr, qs[c.conn], c.id, c.signaled)];
      OwnQueues(maxWr, next, calls[1..], conn);
      assert Run(maxWr, false, qs, calls) == Run(maxWr, false, next, calls[1..]);
      var rest := OnConn(calls[1..], conn);
      assert OnConn(calls, conn) == if c.conn == conn then [c] + rest else rest;
      assert ([c] + rest)[1..] == rest;
    }
  }

  /** On datagrams the first queue sees all calls, whatever their connections. */
  lemma {:induction false} SharedQueue(maxWr: nat, qs: seq<Queue>, calls: seq<Call>)
    requires qs != []
    ensures Run(maxWr, true, qs, calls) == qs[0 := AfterAll(maxWr, qs[0], calls)]
    decreases |calls|
  {
    if calls != [] {
      var c := calls[0];
      var next := qs[0 := After(maxWr, qs[0], c.id, c.signaled)];
      SharedQueue(maxWr, next, calls[1..]);
      assert Run(maxWr, true, qs, calls) == Run(maxWr, true, next, calls[1..]);
    }
  }

  function Unsignaled(conn: nat, ids: seq<nat>): seq<Call> {
    seq(|ids|, k requires 0 <= k < |ids| => Call(conn, ids[k], false))
  }

  lemma RunUnsignaled(maxWr: nat, q: Queue, ids: seq<nat>)
    requires ids != []
    ensures Run(maxWr, true, [q], Unsignaled(0, ids)) ==
            Run(maxWr, true, [After(maxWr, q, ids[0], false)], Unsignaled(0, ids[1..]))
  {
    assert Unsignaled(0, ids)[1..] == Unsignaled(0, ids[1..]);
    assert [q][0 := After(maxWr, q, ids[0], false)] == [After(maxWr, q, ids[0], false)];
  }

  /** How many of the calls wait for a completion. */
  function Waits(maxWr: nat, q: Queue, ids: seq<nat>): nat
    decreases |ids|
  {
    if ids == [] then 0
    else (if Signals(maxWr, q, false) then 1 else 0) + Waits(maxWr, After(maxWr, q, ids[0], false), ids[1..])
  }

  /** Calls without a signal wait once for every RDMA_MAX_WR of them. */
  lemma {:induction false} UnsignaledPeriod(maxWr: nat, q: Queue, ids: seq<nat>)
    requires maxWr >= 1 && Ready(maxWr, q)
    ensures Waits(maxWr, q, ids) == (q.countWR + |ids|) / maxWr
    ensures Run(maxWr, true, [q], Unsignaled(0, ids))[0].countWR == (q.countWR + |ids|) % maxWr
    decreases |ids|
  {
    if ids == [] {
      RemainderUnique(maxWr, 0, q.countWR, q.countWR);
    } else {
      var next := After(maxWr, q, ids[0], false);
      RunUnsignaled(maxWr, q, ids);
      UnsignaledPeriod(maxWr, next, ids[1..]);
      if Signals(maxWr, q, false) {
        AddPeriod(maxWr, |ids| - 1);
        assert q.countWR + |ids| == (|ids| - 1) + maxWr;
      }
    }
  }
}
