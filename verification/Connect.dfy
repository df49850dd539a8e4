/** Connection set-up between nodes that may call each other at the same time.
    Every node keeps one flag per peer; a request that meets a raised flag is
    refused when the caller has the smaller ID. Each step below is one region
    the program runs under its connection lock, or one message. */
module Connect {

  /** A connected queue pair: its own number and the peer's. */
  datatype Qp = Qp(local: nat, remote: nat)

  datatype Node = Node(flags: set<nat>, table: map<nat, Qp>, nextQp: nat)

  datatype Reply = Accept(qp: nat) | Refuse

  datatype Outcome = Shortcut | Installed(mine: nat, theirs: nat) | BackedOff

  /** How far a node's `connect` to one peer has come. */
  datatype Call = NotCalled | Claimed | Requested(qp: nat) | Answered(qp: nat, reply: Reply) | Done(how: Outcome) {
    predicate Took() { !NotCalled? && this != Done(Shortcut) }

    predicate Accepted() { (Answered? && reply.Accept?) || (Done? && how.Installed?) }

    predicate Refused() { (Answered? && reply.Refuse?) || this == Done(BackedOff) }

    predicate Pending() { Claimed? || Requested? || Answered? }

    function Mine(): nat
      requires Accepted()
    {
      if Answered? then qp else how.mine
    }

    function Theirs(): nat
      requires Accepted()
    {
      if Answered? then reply.qp else how.theirs
    }

    function Rank(): nat {
      match this
      case NotCalled => 4
      case Claimed => 3
      case Requested(_) => 2
      case Answered(_, _) => 1
      case Done(_) => 0
    }
  }

  // ---- what one node does ----

  /** `connect` before its request: go on only if nobody raised the flag yet. */
  function Claim(n: Node, peer: nat): (Node, bool) {
    if peer in n.flags then (n, false) else (n.(flags := n.flags + {peer}), true)
  }

  function CreateQp(n: Node): (Node, nat) { (n.(nextQp := n.nextQp + 1), n.nextQp) }

  function Install(n: Node, peer: nat, local: nat, remote: nat): Node {
    n.(table := n.table[peer := Qp(local, remote)])
  }

  /** The server's answer to a request of `caller`. */
  function Answer(n: Node, own: nat, caller: nat, callerQp: nat): (Node, Reply) {
    if caller in n.flags && caller < own then
      (n, Refuse)
    else
      var q := n.nextQp;
      (Node(n.flags + {caller}, n.table[caller := Qp(q, callerQp)], q + 1), Accept(q))
  }

  // ---- all nodes ----

  type Pair = (nat, nat)

  datatype State = State(nodes: seq<Node>, servers: set<nat>, calls: map<Pair, Call>)

  ghost function Pairs(n: nat): set<Pair> {
    set i: nat, j: nat | i < n && j < n && i != j :: (i, j)
  }

  ghost function Init(n: nat, servers: set<nat>): State {
    State(seq(n, _ => Node({}, map[], 0)), servers, map p | p in Pairs(n) :: NotCalled)
  }

  ghost predicate Shape(s: State) { s.calls.Keys == Pairs(|s.nodes|) }

  /** The call of `p.0` to `p.1` moves on. */
  ghost predicate Move(s: State, s': State, p: Pair)
    requires Shape(s)
  {
    && p in s.calls
    && var (i, j) := p;
    match s.calls[p] {
      case NotCalled =>
        && j in s.servers
        && var (n, go) := Claim(s.nodes[i], j);
        s' == s.(nodes := s.nodes[i := n], calls := s.calls[p := if go then Claimed else Done(Shortcut)])
      case Claimed =>
        var (n, q) := CreateQp(s.nodes[i]);
        s' == s.(nodes := s.nodes[i := n], calls := s.calls[p := Requested(q)])
      case Requested(q) =>
        var (n, r) := Answer(s.nodes[j], j, i, q);
        s' == s.(nodes := s.nodes[j := n], calls := s.calls[p := Answered(q, r)])
      case Answered(q, r) =>
        if r.Accept? then
          s' == s.(nodes := s.nodes[i := Install(s.nodes[i], j, q, r.qp)],
          calls := s.calls[p := Done(Installed(q, r.qp))])
        else
          s' == s.(calls := s.calls[p := Done(BackedOff)])
      case Done(_) => false
    }
  }

  ghost predicate Step(s: State, s': State) {
    Shape(s) && exists p :: Move(s, s', p)
  }

  ghost predicate IsRun(n: nat, servers: set<nat>, run: seq<State>) {
    && run != [] && run[0] == Init(n, servers)
    && forall k :: 0 <= k < |run| - 1 ==> Step(run[k], run[k + 1])
  }

  // ---- invariant, one ordered pair at a time ----

  ghost predicate PairInv(s: State, i: nat, j: nat)
    requires Shape(s) && (i, j) in s.calls && (j, i) in s.calls
  {
    var c, d := s.calls[(i, j)], s.calls[(j, i)];
    && (j in s.nodes[i].flags <==> c.Took() || d.Accepted())
    && (j in s.nodes[i].table <==> (c.Done? && c.how.Installed?) || d.Accepted())
    && !(c.Accepted() && d.Accepted())
    && (c.Accepted() ==> i in s.nodes[j].table && s.nodes[j].table[i] == Qp(c.Theirs(), c.Mine()))
    && (c.Done? && c.how.Installed? ==> s.nodes[i].table[j] == Qp(c.Mine(), c.Theirs()))
    && (c.Refused() ==> i < j && d.Took() && !d.Refused())
    && (c == Done(Shortcut) ==> d.Accepted())
    && (c.Accepted() && i < j ==> !d.Took())
    && (c.Took() ==> j in s.servers)
  }

  lemma Both(s: State, i: nat, j: nat)
    requires Shape(s) && (i, j) in s.calls
    ensures (j, i) in s.calls && i < |s.nodes| && j < |s.nodes| && i != j
  {
    assert (i, j) in Pairs(|s.nodes|);
    assert (j, i) in Pairs(|s.nodes|);
  }

  ghost predicate Inv(s: State) {
    && Shape(s)
    && forall p :: p in s.calls ==> (p.1, p.0) in s.calls && PairInv(s, p.0, p.1)
  }

  lemma InitInv(n: nat, servers: set<nat>)
    ensures Inv(Init(n, servers))
  {
    var s := Init(n, servers);
    forall p | p in s.calls ensures (p.1, p.0) in s.calls && PairInv(s, p.0, p.1) {
      Both(s, p.0, p.1);
    }
  }

  /** A move touches what a node knows about one peer only. */
  lemma MoveFrame(s: State, s': State, p: Pair)
    requires Shape(s) && Move(s, s', p)
    ensures Shape(s') && |s'.nodes| == |s.nodes| && s'.servers == s.servers
    ensures s'.calls == s.calls[p := s'.calls[p]]
    ensures forall a: nat, b: nat :: a < |s.nodes| && (a, b) != p && (b, a) != p ==>
                                       && (b in s'.nodes[a].flags <==> b in s.nodes[a].flags)
                                       && (b in s'.nodes[a].table <==> b in s.nodes[a].table)
                                       && (b in s.nodes[a].table ==> s'.nodes[a].table[b] == s.nodes[a].table[b])
  {
    Both(s, p.0, p.1);
    assert s'.calls.Keys == s.calls.Keys;
  }

  /** The two directions of the pair that moved. */
  lemma MoveSelf(s: State, s': State, p: Pair)
    requires Inv(s) && Move(s, s', p) && Shape(s') && (p.1, p.0) in s'.calls && p in s'.calls
    ensures PairInv(s', p.0, p.1) && PairInv(s', p.1, p.0)
  {
    Both(s, p.0, p.1);
    assert PairInv(s, p.0, p.1) && PairInv(s, p.1, p.0);
  }

  lemma MoveOther(s: State, s': State, p: Pair, a: nat, b: nat)
    requires Inv(s) && Move(s, s', p) && Shape(s') && (a, b) in s.calls && (a, b) != p && (b, a) != p
    requires (a, b) in s'.calls && (b, a) in s'.calls
    ensures PairInv(s', a, b)
  {
    hide Move;
    MoveFrame(s, s', p);
    Both(s, a, b);
    assert PairInv(s, a, b);
    assert s'.calls[(a, b)] == s.calls[(a, b)] && s'.calls[(b, a)] == s.calls[(b, a)];
  }

  lemma MoveInv(s: State, s': State, p: Pair)
    requires Inv(s) && Move(s, s', p)
    ensures Inv(s')
  {
    hide Move, PairInv;
    MoveFrame(s, s', p);
    forall r | r in s'.calls ensures (r.1, r.0) in s'.calls && PairInv(s', r.0, r.1) {
      Both(s', r.0, r.1);
      if r == p || (r.1, r.0) == p {
        MoveSelf(s, s', p);
      } else {
        MoveOther(s, s', p, r.0, r.1);
      }
    }
  }

  lemma {:induction false} RunInv(n: nat, servers: set<nat>, run: seq<State>, k: nat)
    requires IsRun(n, servers, run) && k < |run|
    ensures Inv(run[k]) && |run[k].nodes| == n && run[k].servers == servers
  {
    if k == 0 {
      InitInv(n, servers);
    } else {
      RunInv(n, servers, run, k - 1);
      assert Step(run[k - 1], run[k]);
      var p :| Move(run[k - 1], run[k], p);
      MoveInv(run[k - 1], run[k], p);
      MoveFrame(run[k - 1], run[k], p);
    }
  }

  // ---- at most one queue pair ----

  lemma EntryKept(s: State, s': State, a: nat, b: nat)
    requires Inv(s) && Step(s, s') && a < |s.nodes| && b in s.nodes[a].table
    ensures |s'.nodes| == |s.nodes| && b in s'.nodes[a].table && s'.nodes[a].table[b] == s.nodes[a].table[b]
  {
    var p :| Move(s, s', p);
    MoveFrame(s, s', p);
    Both(s, p.0, p.1);
    if (a, b) == p || (b, a) == p {
      assert PairInv(s, p.0, p.1) && PairInv(s, p.1, p.0);
    }
  }

  /** An entry of a connection table stays as it is for the rest of the run. */
  lemma {:induction false} TableWrittenOnce(n: nat, servers: set<nat>, run: seq<State>, k: nat, m: nat, a: nat, b: nat)
    requires IsRun(n, servers, run) && k <= m < |run| && a < |run[k].nodes| && b in run[k].nodes[a].table
    ensures |run[m].nodes| == |run[k].nodes| && b in run[m].nodes[a].table
    ensures run[m].nodes[a].table[b] == run[k].nodes[a].table[b]
    decreases m
  {
    hide Inv, Step;
    if k < m {
      TableWrittenOnce(n, servers, run, k, m - 1, a, b);
      RunInv(n, servers, run, m - 1);
      assert Step(run[m - 1], run[m - 1 + 1]);
      EntryKept(run[m - 1], run[m], a, b);
    }
  }

  /** Two entries of one pair of nodes always belong to the same queue pair. */
  lemma EntriesMatch(n: nat, servers: set<nat>, run: seq<State>, k: nat, i: nat, j: nat)
    requires IsRun(n, servers, run) && k < |run| && i < n && j < n && i != j
    ensures |run[k].nodes| == n
    ensures var s := run[k];
            j in s.nodes[i].table && i in s.nodes[j].table ==>
              && s.nodes[i].table[j].remote == s.nodes[j].table[i].local
              && s.nodes[j].table[i].remote == s.nodes[i].table[j].local
  {
    BothInv(n, servers, run, k, i, j);
  }

  lemma BothInv(n: nat, servers: set<nat>, run: seq<State>, k: nat, i: nat, j: nat)
    requires IsRun(n, servers, run) && k < |run| && i < n && j < n && i != j
    ensures var s := run[k];
            && |s.nodes| == n && Shape(s) && (i, j) in s.calls && (j, i) in s.calls
            && PairInv(s, i, j) && PairInv(s, j, i)
  {
    hide PairInv, IsRun;
    RunInv(n, servers, run, k);
    assert (i, j) in Pairs(n) && (j, i) in Pairs(n);
  }

  ghost predicate Drained(s: State) {
    forall p :: p in s.calls ==> !s.calls[p].Pending()
  }

  /** Once no call is under way, a pair of nodes is connected exactly when one of
      them called, on both sides, and each side knows the other's number. */
  lemma DrainedPairs(n: nat, servers: set<nat>, run: seq<State>, k: nat, i: nat, j: nat)
    requires IsRun(n, servers, run) && k < |run| && Drained(run[k]) && i < n && j < n && i != j
    ensures |run[k].nodes| == n && (i, j) in run[k].calls && (j, i) in run[k].calls
    ensures var s := run[k];
            var called := !s.calls[(i, j)].NotCalled? || !s.calls[(j, i)].NotCalled?;
            && (j in s.nodes[i].table <==> called)
            && (i in s.nodes[j].table <==> called)
            && (called ==>
                  && s.nodes[i].table[j].remote == s.nodes[j].table[i].local
                  && s.nodes[j].table[i].remote == s.nodes[i].table[j].local)
  {
    hide IsRun;
    BothInv(n, servers, run, k, i, j);
  }

  /** `connect` may return before the queue pair exists: exactly when it backed
      off and the request of the peer has not been answered yet. */
  lemma ReturnedWithoutQueuePair(n: nat, servers: set<nat>, run: seq<State>, k: nat, i: nat, j: nat)
    requires IsRun(n, servers, run) && k < |run| && i < n && j < n && i != j
    ensures |run[k].nodes| == n && (i, j) in run[k].calls && (j, i) in run[k].calls
    ensures var s := run[k];
            s.calls[(i, j)].Done? ==>
              (j !in s.nodes[i].table <==>
               s.calls[(i, j)] == Done(BackedOff) && (s.calls[(j, i)].Claimed? || s.calls[(j, i)].Requested?))
  {
    hide IsRun;
    BothInv(n, servers, run, k, i, j);
  }

  // ---- when a return promises a queue pair ----

  /** In every state of every run: once `i`'s connect to `j` has returned, `i` has its entry. */
  ghost predicate ReturnMeansConnected(n: nat, servers: set<nat>, i: nat, j: nat)
    requires i < n && j < n && i != j
  {
    forall run, k: nat :: IsRun(n, servers, run) && k < |run| ==> ConnectedIfReturned(run[k], i, j)
  }

  ghost predicate ConnectedIfReturned(s: State, i: nat, j: nat) {
    (i, j) in s.calls && i < |s.nodes| && (s.calls[(i, j)].Done? ==> j in s.nodes[i].table)
  }

  /** A call backs off only if the peer, with the larger ID, is a server that the
      peer's own call can go to. */
  lemma NeverBacksOff(n: nat, servers: set<nat>, run: seq<State>, k: nat, i: nat, j: nat)
    requires IsRun(n, servers, run) && k < |run| && i < n && j < n && i != j
    requires i > j || i !in servers || j !in servers
    ensures ConnectedIfReturned(run[k], i, j)
  {
    hide IsRun;
    BothInv(n, servers, run, k, i, j);
    RunInv(n, servers, run, k);
  }

  ghost predicate EndsIn(n: nat, servers: set<nat>, run: seq<State>, s: State) {
    IsRun(n, servers, run) && run[|run| - 1] == s
  }

  lemma Extend(n: nat, servers: set<nat>, run: seq<State>, s: State, s': State, p: Pair)
    requires EndsIn(n, servers, run, s) && Shape(s) && Move(s, s', p)
    ensures EndsIn(n, servers, run + [s'], s')
  {
    hide Move;
    assert Step(s, s');
    var longer := run + [s'];
    forall k | 0 <= k < |longer| - 1 ensures Step(longer[k], longer[k + 1]) {
      assert k < |run| - 1 ==> Step(run[k], run[k + 1]);
    }
  }

  /** Both nodes claim, the request of the smaller is refused, and it returns while
      the larger has not even sent its request. */
  lemma BacksOffUnconnected(n: nat, servers: set<nat>, i: nat, j: nat) returns (run: seq<State>)
    requires i < j < n && i in servers && j in servers
    ensures IsRun(n, servers, run) && !ConnectedIfReturned(run[|run| - 1], i, j)
  {
    var s0 := Init(n, servers);
    run := [s0];
    var blank := Node({}, map[], 0);
    var mine, theirs := Node({j}, map[], 0), Node({i}, map[], 0);
    assert (i, j) in Pairs(n) && (j, i) in Pairs(n);
    var s1 := s0.(nodes := s0.nodes[i := mine], calls := s0.calls[(i, j) := Claimed]);
    var s2 := s1.(nodes := s1.nodes[j := theirs], calls := s1.calls[(j, i) := Claimed]);
    var s3 := s2.(nodes := s2.nodes[i := Node({j}, map[], 1)], calls := s2.calls[(i, j) := Requested(0)]);
    var s4 := s3.(calls := s3.calls[(i, j) := Answered(0, Refuse)]);
    var s5 := s4.(calls := s4.calls[(i, j) := Done(BackedOff)]);
    assert s0.nodes[i] == s0.nodes[j] == blank;
    assert blank.flags + {j} == mine.flags && blank.flags + {i} == theirs.flags;
    assert Claim(blank, j) == (mine, true) && Claim(blank, i) == (theirs, true);
    assert s4 == s3.(nodes := s3.nodes[j := theirs], calls := s3.calls[(i, j) := Answered(0, Refuse)]) by {
      assert s3.nodes[j := theirs] == s3.nodes;
    }
    Extend(n, servers, run, s0, s1, (i, j));
    Extend(n, servers, run + [s1], s1, s2, (j, i));
    Extend(n, servers, run + [s1] + [s2], s2, s3, (i, j));
    Extend(n, servers, run + [s1] + [s2] + [s3], s3, s4, (i, j));
    Extend(n, servers, run + [s1] + [s2] + [s3] + [s4], s4, s5, (i, j));
    run := run + [s1] + [s2] + [s3] + [s4] + [s5];
  }

  /** A return of `connect` always means a queue pair, exactly for calls from the
      larger ID, from a node that is no server, or to one: what the caller knows
      before it calls. */
  lemma ReturnMeansConnectedIff(n: nat, servers: set<nat>, i: nat, j: nat)
    requires i < n && j < n && i != j
    ensures ReturnMeansConnected(n, servers, i, j) <==> i > j || i !in servers || j !in servers
  {
    if i > j || i !in servers || j !in servers {
      forall run, k: nat | IsRun(n, servers, run) && k < |run| ensures ConnectedIfReturned(run[k], i, j) {
        NeverBacksOff(n, servers, run, k, i, j);
      }
    } else {
      var run := BacksOffUnconnected(n, servers, i, j);
    }
  }

  // ---- numbers of one node are never shared ----

  /** Node `i` uses number `q` towards `j`: in its table or in a call under way. */
  ghost predicate Uses(s: State, i: nat, j: nat, q: nat)
    requires Shape(s)
  {
    || (i < |s.nodes| && j in s.nodes[i].table && s.nodes[i].table[j].local == q)
    || ((i, j) in s.calls && s.calls[(i, j)] == Requested(q))
    || ((i, j) in s.calls && s.calls[(i, j)].Answered? && s.calls[(i, j)].qp == q)
  }

  /** The numbers a node uses lie below its counter and belong to one peer each. */
  ghost predicate Fresh(s: State)
    requires Shape(s)
  {
    && (forall i: nat, j: nat, q: nat :: i < |s.nodes| && Uses(s, i, j, q) ==> q < s.nodes[i].nextQp)
    && (forall i: nat, j: nat, k: nat, q: nat :: i < |s.nodes| && Uses(s, i, j, q) && Uses(s, i, k, q) ==> j == k)
  }

  /** A move brings in at most one number, the counter of the node that takes it. */
  lemma MoveUses(s: State, s': State, p: Pair, i: nat, j: nat, q: nat) returns (new': bool)
    requires Shape(s) && Move(s, s', p) && Shape(s') && i < |s.nodes| == |s'.nodes|
    ensures s'.nodes[i].nextQp >= s.nodes[i].nextQp
    ensures Uses(s', i, j, q) ==> Uses(s, i, j, q) || (new' && q == s.nodes[i].nextQp)
    ensures new' ==> s'.nodes[i].nextQp == s.nodes[i].nextQp + 1 && ((i, j) == p || (j, i) == p)
  {
    Both(s, p.0, p.1);
    new' := s'.nodes[i].nextQp > s.nodes[i].nextQp && ((i, j) == p || (j, i) == p);
    var n, n' := s.nodes[i], s'.nodes[i];
    if (i, j) != p && (j, i) != p {
      MoveFrame(s, s', p);
    } else {
      assert (i, j) == p ==> s'.nodes[p.1] == s.nodes[p.1] || s.calls[p].Requested?;
      assert (j, i) == p && (i, j) in s.calls ==> s'.calls[(i, j)] == s.calls[(i, j)];
    }
  }

  lemma MoveFresh(s: State, s': State, p: Pair)
    requires Inv(s) && Fresh(s) && Move(s, s', p)
    ensures Shape(s') && Fresh(s')
  {
    hide Move, Uses, Inv, PairInv;
    InvShape(s);
    MoveFrame(s, s', p);
    Both(s, p.0, p.1);
    forall i: nat, j: nat, q: nat | i < |s'.nodes| && Uses(s', i, j, q) ensures q < s'.nodes[i].nextQp {
      var n := MoveUses(s, s', p, i, j, q);
    }
    forall i: nat, j: nat, k: nat, q: nat | i < |s'.nodes| && Uses(s', i, j, q) && Uses(s', i, k, q) ensures j == k {
      var n := MoveUses(s, s', p, i, j, q);
      var m := MoveUses(s, s', p, i, k, q);
    }
  }

  lemma InvShape(s: State)
    requires Inv(s)
    ensures Shape(s)
  {
  }

  lemma {:induction false} RunFresh(n: nat, servers: set<nat>, run: seq<State>, k: nat)
    requires IsRun(n, servers, run) && k < |run|
    ensures Inv(run[k]) && Fresh(run[k])
  {
    hide Inv, Fresh, Move;
    RunInv(n, servers, run, k);
    if k == 0 {
      InitFresh(n, servers);
    } else {
      RunFresh(n, servers, run, k - 1);
      assert Step(run[k - 1], run[k]);
      var p :| Move(run[k - 1], run[k], p);
      MoveFresh(run[k - 1], run[k], p);
    }
  }

  lemma InitFresh(n: nat, servers: set<nat>)
    ensures Shape(Init(n, servers)) && Fresh(Init(n, servers))
  {
  }

  // ---- every run comes to an end ----

  ghost function RankSum(calls: map<Pair, Call>, ps: set<Pair>): nat
    requires ps <= calls.Keys
  {
    if ps == {} then 0 else
    var p :| p in ps;
    calls[p].Rank() + RankSum(calls, ps - {p})
  }

  lemma {:induction false} RankSplit(calls: map<Pair, Call>, ps: set<Pair>, p: Pair)
    requires ps <= calls.Keys && p in ps
    ensures RankSum(calls, ps) == calls[p].Rank() + RankSum(calls, ps - {p})
    decreases ps
  {
    var q :| q in ps && RankSum(calls, ps) == calls[q].Rank() + RankSum(calls, ps - {q});
    if q != p {
      RankSplit(calls, ps - {q}, p);
      RankSplit(calls, ps - {p}, q);
      assert ps - {q} - {p} == ps - {p} - {q};
    }
  }

  lemma {:induction false} RankSame(calls: map<Pair, Call>, other: map<Pair, Call>, ps: set<Pair>)
    requires ps <= calls.Keys && ps <= other.Keys && forall p :: p in ps ==> calls[p] == other[p]
    ensures RankSum(calls, ps) == RankSum(other, ps)
    decreases ps
  {
    if ps != {} {
      var p :| p in ps;
      RankSplit(calls, ps, p);
      RankSplit(other, ps, p);
      RankSame(calls, other, ps - {p});
    }
  }

  lemma {:induction false} RankAtMost(calls: map<Pair, Call>, ps: set<Pair>)
    requires ps <= calls.Keys
    ensures RankSum(calls, ps) <= 4 * |ps|
    decreases ps
  {
    if ps != {} {
      var p :| p in ps;
      RankSplit(calls, ps, p);
      RankAtMost(calls, ps - {p});
    }
  }

  lemma MoveRank(s: State, s': State, p: Pair)
    requires Shape(s) && Move(s, s', p)
    ensures p in s.calls && p in s'.calls && s'.calls[p].Rank() < s.calls[p].Rank()
  {
  }

  /** Every step brings one call nearer to its end. */
  lemma StepRank(s: State, s': State)
    requires Inv(s) && Step(s, s')
    ensures s'.calls.Keys == s.calls.Keys && RankSum(s'.calls, s'.calls.Keys) < RankSum(s.calls, s.calls.Keys)
  {
    hide Inv, Move;
    InvShape(s);
    var p :| Move(s, s', p);
    MoveFrame(s, s', p);
    MoveRank(s, s', p);
    RankSplit(s.calls, s.calls.Keys, p);
    RankSplit(s'.calls, s.calls.Keys, p);
    RankSame(s.calls, s'.calls, s.calls.Keys - {p});
  }

  /** No run is longer than four steps per ordered pair of nodes. */
  lemma {:induction false} RunLength(n: nat, servers: set<nat>, run: seq<State>, k: nat)
    requires IsRun(n, servers, run) && k < |run|
    ensures Inv(run[k]) && k + RankSum(run[k].calls, run[k].calls.Keys) <= 4 * |Pairs(n)|
  {
    RunInv(n, servers, run, k);
    if k == 0 {
      RankAtMost(run[0].calls, run[0].calls.Keys);
    } else {
      RunLength(n, servers, run, k - 1);
      assert Step(run[k - 1], run[k]);
      StepRank(run[k - 1], run[k]);
    }
  }

  /** A call under way can always move, so a run that cannot go on is drained. */
  lemma PendingMoves(s: State, p: Pair) returns (s': State)
    requires Inv(s) && p in s.calls && s.calls[p].Pending()
    ensures Step(s, s')
  {
    var (i, j) := p;
    Both(s, i, j);
    match s.calls[p] {
      case Claimed =>
        var (n, q) := CreateQp(s.nodes[i]);
        s' := s.(nodes := s.nodes[i := n], calls := s.calls[p := Requested(q)]);
      case Requested(q) =>
        var (n, r) := Answer(s.nodes[j], j, i, q);
        s' := s.(nodes := s.nodes[j := n], calls := s.calls[p := Answered(q, r)]);
      case Answered(q, r) =>
        s' := if r.Accept?
        then s.(nodes := s.nodes[i := Install(s.nodes[i], j, q, r.qp)], calls := s.calls[p := Done(Installed(q, r.qp))])
        else s.(calls := s.calls[p := Done(BackedOff)]);
    }
    assert Move(s, s', p);
  }
}
