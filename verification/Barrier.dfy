/** The global barrier, called again and again by `clients` client threads, each
    connected to all of `servers` servers. A client's round: post a receive for
    every server, send a message to every server, poll a message from every
    server. A server's round: post a receive for every client, poll a message
    from every client, send to every client. Within a phase the partners are
    served in any order. A message that finds no receive breaks its queue pair,
    which never retries, and the client tries a broken pair again for ever. */
module Barrier {
  import opened Arithmetic
  import opened Sets

  datatype Config = Config(clients: nat, servers: nat, rounds: nat) {
    ghost predicate Valid() { clients > 0 && servers > 0 }
  }

  /** A participant: its barrier call, the phase of that call, and the partners still to serve in it. */
  datatype Proc = Proc(round: nat, phase: nat, todo: set<nat>) {
    ghost predicate Valid(n: nat) {
      phase <= 2 && todo != {} && todo <= Partners(n)
    }

    /** One of `rounds` calls is under way, or all are over. */
    ghost predicate InCall(n: nat, rounds: nat) {
      Valid(n) && round <= rounds && (round == rounds ==> phase == 0 && todo == Partners(n))
    }

    /** How often phase `k` has been done for partner `x` over all rounds. */
    ghost function Done(k: nat, x: nat): nat {
      round + if phase > k || (phase == k && x !in todo) then 1 else 0
    }

    /** Partner `x` of `n` is served: the next phase starts after the last one. */
    function Advance(x: nat, n: nat): Proc {
      if todo != {x} then Proc(round, phase, todo - {x})
      else if phase < 2 then Proc(round, phase + 1, Partners(n))
      else Proc(round + 1, 0, Partners(n))
    }
  }

  function Partners(n: nat): (r: set<nat>)
    ensures |r| == n && forall x: nat :: x in r <==> x < n
  {
    if n == 0 then {} else Partners(n - 1) + {n - 1}
  }

  /** A connection. Messages are named by the round of their sender. A negative
      number of receives is a message that found none. */
  datatype Link = Link(serverPosted: int, requests: seq<nat>, clientPosted: int, replies: seq<nat>) {

    function Client(phase: nat, round: nat): Link
      requires phase >= 2 ==> replies != []
    {
      if phase == 0 then this.(clientPosted := clientPosted + 1)
      else if phase == 1 then this.(serverPosted := serverPosted - 1, requests := requests + [round])
      else this.(replies := replies[1..])
    }

    function Server(phase: nat, round: nat): Link
      requires phase == 1 ==> requests != []
    {
      if phase == 0 then this.(serverPosted := serverPosted + 1)
      else if phase == 1 then this.(requests := requests[1..])
      else this.(clientPosted := clientPosted - 1, replies := replies + [round])
    }
  }

  datatype State = State(clients: seq<Proc>, servers: seq<Proc>,
                         links: map<(nat, nat), Link>, connected: set<(nat, nat)>, broken: set<(nat, nat)>)

  datatype Event = Connect(c: nat, s: nat) | ClientStep(c: nat, s: nat) | ServerStep(c: nat, s: nat)

  ghost predicate Sized(cfg: Config, st: State) {
    && |st.clients| == cfg.clients && |st.servers| == cfg.servers
    && forall c, s :: 0 <= c < cfg.clients && 0 <= s < cfg.servers ==> (c, s) in st.links
  }

  ghost predicate Init(cfg: Config, st: State) {
    && Sized(cfg, st) && st.connected == st.broken == {}
    && (forall c :: 0 <= c < cfg.clients ==> st.clients[c] == Proc(0, 0, Partners(cfg.servers)))
    && (forall s :: 0 <= s < cfg.servers ==> st.servers[s] == Proc(0, 0, Partners(cfg.clients)))
    && forall c, s :: 0 <= c < cfg.clients && 0 <= s < cfg.servers ==> st.links[(c, s)] == Link(0, [], 0, [])
  }

  /** A client starts once it is connected everywhere, its sends wait for nothing, its
      poll waits for a message. A server posts for a connected client, its poll
      waits, its sends do not. */
  ghost predicate Enabled(cfg: Config, st: State, e: Event)
    requires Sized(cfg, st)
  {
    && e.c < cfg.clients && e.s < cfg.servers
    && var l := st.links[(e.c, e.s)];
    match e
    case Connect(c, s) => (c, s) !in st.connected
    case ClientStep(c, s) =>
      var p := st.clients[c];
      && p.round < cfg.rounds && s in p.todo && (c, s) !in st.broken
      && (p.phase == 0 ==> forall t :: 0 <= t < cfg.servers ==> (c, t) in st.connected)
      && (p.phase >= 2 ==> l.replies != [])
    case ServerStep(c, s) =>
      var p := st.servers[s];
      && p.round < cfg.rounds && c in p.todo
      && (p.phase == 0 ==> (c, s) in st.connected)
      && (p.phase == 1 ==> l.requests != [])
  }

  /** A send that finds no receive at the server. */
  ghost predicate Early(cfg: Config, st: State, e: Event)
    requires Sized(cfg, st) && Enabled(cfg, st, e)
  {
    e.ClientStep? && st.clients[e.c].phase == 1 && st.links[(e.c, e.s)].serverPosted <= 0
  }

  ghost predicate InTime(cfg: Config, st: State, e: Event)
    requires Sized(cfg, st)
  {
    Enabled(cfg, st, e) && !Early(cfg, st, e)
  }

  ghost function Apply(cfg: Config, st: State, e: Event): State
    requires Sized(cfg, st) && Enabled(cfg, st, e)
  {
    var l := st.links[(e.c, e.s)];
    if Early(cfg, st, e) then st.(broken := st.broken + {(e.c, e.s)}) else
    match e
    case Connect(c, s) => st.(connected := st.connected + {(c, s)})
    case ClientStep(c, s) =>
      var p := st.clients[c];
      st.(clients := st.clients[c := p.Advance(s, cfg.servers)],
      links := st.links[(c, s) := l.Client(p.phase, p.round)])
    case ServerStep(c, s) =>
      var p := st.servers[s];
      st.(servers := st.servers[s := p.Advance(c, cfg.clients)],
      links := st.links[(c, s) := l.Server(p.phase, p.round)])
  }

  ghost predicate Step(cfg: Config, st: State, st': State) {
    Sized(cfg, st) && exists e :: Enabled(cfg, st, e) && st' == Apply(cfg, st, e)
  }

  ghost predicate IsRun(cfg: Config, run: seq<State>) {
    && run != [] && Init(cfg, run[0])
    && (forall i :: 0 <= i < |run| ==> Sized(cfg, run[i]))
    && forall i :: 0 <= i < |run| - 1 ==> Step(cfg, run[i], run[i + 1])
  }

  // ---- the invariant ----

  function Rounds(a: nat, b: nat): (r: seq<nat>)
    ensures |r| == if a <= b then b - a else 0
    ensures forall i :: 0 <= i < |r| ==> r[i] == a + i
  {
    if a <= b then seq(b - a, i requires i >= 0 => a + i) else []
  }

  /** What a connection holds follows from how far its two ends are. */
  ghost predicate LinkInv(l: Link, cl: Proc, sv: Proc, c: nat, s: nat) {
    && l.serverPosted == sv.Done(0, c) - cl.Done(1, s) >= 0
    && l.clientPosted == cl.Done(0, s) - sv.Done(2, c)
    && sv.Done(1, c) <= cl.Done(1, s) && l.requests == Rounds(sv.Done(1, c), cl.Done(1, s))
    && cl.Done(2, s) <= sv.Done(2, c) && l.replies == Rounds(cl.Done(2, s), sv.Done(2, c))
  }

  function Row(x: nat, m: nat): (r: set<(nat, nat)>)
    ensures |r| == m && forall p :: p in r <==> p.0 == x && p.1 < m
  {
    if m == 0 then {} else Row(x, m - 1) + {(x, m - 1)}
  }

  function Pairs(n: nat, m: nat): (r: set<(nat, nat)>)
    ensures |r| == n * m && forall p :: p in r <==> p.0 < n && p.1 < m
  {
    if n == 0 then {} else AddProduct(n - 1, m, Pairs(n - 1, m), Row(n - 1, m)); Pairs(n - 1, m) + Row(n - 1, m)
  }

  lemma AddProduct(n: nat, m: nat, a: set<(nat, nat)>, b: set<(nat, nat)>)
    requires |a| == n * m && |b| == m && forall p :: p in a && p in b ==> false
    ensures |a + b| == (n + 1) * m
  {
    assert a !! b;
  }

  ghost predicate AllInCall(ps: seq<Proc>, n: nat, rounds: nat) {
    forall i :: 0 <= i < |ps| ==> ps[i].InCall(n, rounds)
  }

  ghost predicate LinksInv(cfg: Config, st: State)
    requires Sized(cfg, st)
  {
    forall c, s :: 0 <= c < cfg.clients && 0 <= s < cfg.servers ==>
                     LinkInv(st.links[(c, s)], st.clients[c], st.servers[s], c, s)
  }

  ghost predicate ConnectedInRange(cfg: Config, st: State) {
    st.connected <= Pairs(cfg.clients, cfg.servers) && st.broken <= Pairs(cfg.clients, cfg.servers)
  }

  ghost predicate Inv(cfg: Config, st: State) {
    && cfg.Valid() && Sized(cfg, st) && ConnectedInRange(cfg, st)
    && AllInCall(st.clients, cfg.servers, cfg.rounds) && AllInCall(st.servers, cfg.clients, cfg.rounds)
    && LinksInv(cfg, st)
  }

  /** Serving a partner counts in one phase, for that partner alone. */
  lemma AdvanceDone(p: Proc, x: nat, n: nat)
    requires p.Valid(n) && x in p.todo
    ensures p.Advance(x, n).Valid(n)
    ensures forall k: nat, y: nat :: k <= 2 && y < n ==>
                                       p.Advance(x, n).Done(k, y) == p.Done(k, y) +
                                       if k == p.phase && y == x then 1 else 0
  {
    if p.todo != {x} {
      assert p.todo - {x} != {} by {
        assert p.todo <= {x} <==> p.todo - {x} == {};
      }
    } else {
      assert x in Partners(n);
    }
  }

  lemma ClientKeepsLink(l: Link, cl: Proc, sv: Proc, c: nat, s: nat, cl': Proc)
    requires LinkInv(l, cl, sv, c, s) && cl.phase <= 2 && s in cl.todo
    requires cl.phase == 1 ==> l.serverPosted > 0
    requires cl.phase >= 2 ==> l.replies != []
    requires forall k: nat :: k <= 2 ==> cl'.Done(k, s) == cl.Done(k, s) + if k == cl.phase then 1 else 0
    ensures LinkInv(l.Client(cl.phase, cl.round), cl', sv, c, s)
  {
    hide Proc.Advance;
    assert cl.Done(cl.phase, s) == cl.round;
    assert cl'.Done(0, s) == cl.Done(0, s) + (if cl.phase == 0 then 1 else 0);
    assert cl'.Done(1, s) == cl.Done(1, s) + (if cl.phase == 1 then 1 else 0);
    assert cl'.Done(2, s) == cl.Done(2, s) + (if cl.phase == 2 then 1 else 0);
  }

  lemma ServerKeepsLink(l: Link, cl: Proc, sv: Proc, c: nat, s: nat, sv': Proc)
    requires LinkInv(l, cl, sv, c, s) && sv.phase <= 2 && c in sv.todo
    requires sv.phase == 1 ==> l.requests != []
    requires forall k: nat :: k <= 2 ==> sv'.Done(k, c) == sv.Done(k, c) + if k == sv.phase then 1 else 0
    ensures LinkInv(l.Server(sv.phase, sv.round), cl, sv', c, s)
  {
    assert sv.Done(sv.phase, c) == sv.round;
    assert sv'.Done(0, c) == sv.Done(0, c) + (if sv.phase == 0 then 1 else 0);
    assert sv'.Done(1, c) == sv.Done(1, c) + (if sv.phase == 1 then 1 else 0);
    assert sv'.Done(2, c) == sv.Done(2, c) + (if sv.phase == 2 then 1 else 0);
  }

  /** Only the counts of an end matter to its other connections. */
  lemma LinkFrame(l: Link, cl: Proc, sv: Proc, c: nat, s: nat, cl': Proc, sv': Proc)
    requires LinkInv(l, cl, sv, c, s)
    requires forall k: nat :: k <= 2 ==> cl'.Done(k, s) == cl.Done(k, s) && sv'.Done(k, c) == sv.Done(k, c)
    ensures LinkInv(l, cl', sv', c, s)
  {
    assert cl'.Done(0, s) == cl.Done(0, s) && cl'.Done(1, s) == cl.Done(1, s) && cl'.Done(2, s) == cl.Done(2, s);
  }

  lemma InCallValid(p: Proc, n: nat, rounds: nat)
    requires p.InCall(n, rounds)
    ensures p.Valid(n) && p.todo <= Partners(n) && p.round <= rounds
  {
  }

  lemma SameConnected(cfg: Config, st: State, st': State)
    requires ConnectedInRange(cfg, st) && st'.connected == st.connected && st'.broken == st.broken
    ensures ConnectedInRange(cfg, st')
  {
  }

  lemma Linked(cfg: Config, st: State, c: nat, s: nat)
    requires Sized(cfg, st) && LinksInv(cfg, st) && c < cfg.clients && s < cfg.servers
    ensures LinkInv(st.links[(c, s)], st.clients[c], st.servers[s], c, s)
  {
  }

  lemma ClientStepInv(cfg: Config, st: State, c: nat, s: nat)
    requires Inv(cfg, st) && InTime(cfg, st, ClientStep(c, s))
    ensures Inv(cfg, Apply(cfg, st, ClientStep(c, s)))
  {
    hide LinkInv, Proc.Done, Proc.Advance, Proc.InCall, Link.Client, ConnectedInRange, Partners;
    var st' := Apply(cfg, st, ClientStep(c, s));
    var p := st.clients[c];
    InCallValid(p, cfg.servers, cfg.rounds);
    AdvanceDone(p, s, cfg.servers);
    AdvanceInCall(p, s, cfg.servers, cfg.rounds);
    Linked(cfg, st, c, s);
    ClientKeepsLink(st.links[(c, s)], p, st.servers[s], c, s, p.Advance(s, cfg.servers));
    forall d, t | 0 <= d < cfg.clients && 0 <= t < cfg.servers
      ensures LinkInv(st'.links[(d, t)], st'.clients[d], st'.servers[t], d, t)
    {
      Linked(cfg, st, d, t);
      if (d, t) != (c, s) {
        LinkFrame(st.links[(d, t)], st.clients[d], st.servers[t], d, t, st'.clients[d], st'.servers[t]);
      }
    }
    SameConnected(cfg, st, st');
  }

  lemma ServerStepInv(cfg: Config, st: State, c: nat, s: nat)
    requires Inv(cfg, st) && Enabled(cfg, st, ServerStep(c, s))
    ensures Inv(cfg, Apply(cfg, st, ServerStep(c, s)))
  {
    hide LinkInv, Proc.Done, Proc.Advance, Proc.InCall, Link.Server, ConnectedInRange, Partners;
    var st' := Apply(cfg, st, ServerStep(c, s));
    var p := st.servers[s];
    InCallValid(p, cfg.clients, cfg.rounds);
    AdvanceDone(p, c, cfg.clients);
    AdvanceInCall(p, c, cfg.clients, cfg.rounds);
    Linked(cfg, st, c, s);
    ServerKeepsLink(st.links[(c, s)], st.clients[c], p, c, s, p.Advance(c, cfg.clients));
    forall d, t | 0 <= d < cfg.clients && 0 <= t < cfg.servers
      ensures LinkInv(st'.links[(d, t)], st'.clients[d], st'.servers[t], d, t)
    {
      Linked(cfg, st, d, t);
      if (d, t) != (c, s) {
        LinkFrame(st.links[(d, t)], st.clients[d], st.servers[t], d, t, st'.clients[d], st'.servers[t]);
      }
    }
    SameConnected(cfg, st, st');
  }

  lemma AdvanceInCall(p: Proc, x: nat, n: nat, rounds: nat)
    requires p.Valid(n) && x in p.todo && p.round < rounds
    ensures p.Advance(x, n).InCall(n, rounds)
  {
    AdvanceDone(p, x, n);
  }

  lemma ConnectInv(cfg: Config, st: State, c: nat, s: nat)
    requires Inv(cfg, st) && Enabled(cfg, st, Connect(c, s))
    ensures Inv(cfg, Apply(cfg, st, Connect(c, s)))
  {
    hide LinkInv, Proc.InCall;
  }

  lemma EarlyInv(cfg: Config, st: State, e: Event)
    requires Inv(cfg, st) && Enabled(cfg, st, e) && Early(cfg, st, e)
    ensures Inv(cfg, Apply(cfg, st, e))
  {
    hide LinkInv, Proc.InCall;
  }

  lemma StepInv(cfg: Config, st: State, st': State)
    requires Inv(cfg, st) && Step(cfg, st, st')
    ensures Inv(cfg, st')
  {
    hide Inv, Enabled, Apply, Early;
    var e :| Enabled(cfg, st, e) && st' == Apply(cfg, st, e);
    if Early(cfg, st, e) {
      EarlyInv(cfg, st, e);
    } else {
      match e
      case Connect(c, s) => ConnectInv(cfg, st, c, s);
      case ClientStep(c, s) => ClientStepInv(cfg, st, c, s);
      case ServerStep(c, s) => ServerStepInv(cfg, st, c, s);
    }
  }

  lemma InitLink(cfg: Config, c: nat, s: nat)
    requires c < cfg.clients && s < cfg.servers
    ensures Proc(0, 0, Partners(cfg.clients)).InCall(cfg.clients, cfg.rounds)
    ensures Proc(0, 0, Partners(cfg.servers)).InCall(cfg.servers, cfg.rounds)
    ensures LinkInv(Link(0, [], 0, []), Proc(0, 0, Partners(cfg.servers)), Proc(0, 0, Partners(cfg.clients)), c, s)
  {
    assert c in Partners(cfg.clients) && s in Partners(cfg.servers);
  }

  lemma InitInv(cfg: Config, st: State)
    requires cfg.Valid() && Init(cfg, st)
    ensures Inv(cfg, st)
  {
    hide LinkInv, Proc.InCall, Partners;
    InitLink(cfg, 0, 0);
    forall c, s | 0 <= c < cfg.clients && 0 <= s < cfg.servers
      ensures LinkInv(st.links[(c, s)], st.clients[c], st.servers[s], c, s)
    {
      InitLink(cfg, c, s);
    }
  }

  lemma {:induction false} RunInv(cfg: Config, run: seq<State>, i: nat)
    requires cfg.Valid() && IsRun(cfg, run) && i < |run|
    ensures Inv(cfg, run[i])
  {
    hide Inv, Step, Init;
    if i == 0 {
      InitInv(cfg, run[0]);
    } else {
      RunInv(cfg, run, i - 1);
      StepInv(cfg, run[i - 1], run[i - 1 + 1]);
    }
  }

  // ---- what the barrier is for ----

  /** If any client has left round `r`, every client has got its message of that
      round through to every server, and every server has sent its replies to it. */
  lemma BarrierHolds(cfg: Config, run: seq<State>, i: nat, r: nat, c: nat, d: nat, s: nat)
    requires cfg.Valid() && IsRun(cfg, run) && i < |run|
    requires c < cfg.clients && d < cfg.clients && s < cfg.servers && run[i].clients[c].round > r
    ensures run[i].clients[d].Done(1, s) > r
    ensures run[i].servers[s].Done(1, d) > r && run[i].servers[s].Done(2, c) > r
  {
    RunInv(cfg, run, i);
    var st := run[i];
    assert LinkInv(st.links[(c, s)], st.clients[c], st.servers[s], c, s);
    assert LinkInv(st.links[(d, s)], st.clients[d], st.servers[s], d, s);
  }

  /** No two participants are more than one round apart. */
  lemma RoundsClose(cfg: Config, run: seq<State>, i: nat, c: nat, d: nat, s: nat)
    requires cfg.Valid() && IsRun(cfg, run) && i < |run|
    requires c < cfg.clients && d < cfg.clients && s < cfg.servers
    ensures -1 <= run[i].clients[c].round - run[i].clients[d].round <= 1
    ensures -1 <= run[i].clients[c].round - run[i].servers[s].round <= 1
  {
    RunInv(cfg, run, i);
    var st := run[i];
    assert LinkInv(st.links[(c, s)], st.clients[c], st.servers[s], c, s);
    assert LinkInv(st.links[(d, s)], st.clients[d], st.servers[s], d, s);
  }

  /** Every message polled is of the poller's own round, nothing is left to take by mistake,
      and every reply of a server finds the client's receive. */
  ghost predicate OwnRound(l: Link, cl: Proc, sv: Proc, c: nat, s: nat) {
    && (sv.phase == 1 && c in sv.todo ==> l.requests == [] || l.requests == [sv.round])
    && (cl.phase == 2 && s in cl.todo ==> l.replies == [] || l.replies == [cl.round])
    && (cl.phase == 0 && s in cl.todo ==> l.clientPosted == 0 && l.requests == [] && l.replies == [])
    && (sv.phase == 0 && c in sv.todo ==> l.serverPosted == 0 && l.requests == [])
    && (sv.phase == 2 && c in sv.todo ==> l.clientPosted == 1 && l.replies == [])
    && 0 <= l.serverPosted <= 1 && 0 <= l.clientPosted <= 1 && |l.requests| <= 1 && |l.replies| <= 1
  }

  lemma LinkOwnRound(l: Link, cl: Proc, sv: Proc, c: nat, s: nat)
    requires LinkInv(l, cl, sv, c, s) && cl.phase <= 2 && sv.phase <= 2
    ensures OwnRound(l, cl, sv, c, s)
  {
  }

  lemma RunOwnRound(cfg: Config, run: seq<State>, i: nat, c: nat, s: nat)
    requires cfg.Valid() && IsRun(cfg, run) && i < |run| && c < cfg.clients && s < cfg.servers
    ensures OwnRound(run[i].links[(c, s)], run[i].clients[c], run[i].servers[s], c, s)
  {
    RunInv(cfg, run, i);
    var st := run[i];
    hide OwnRound, LinkInv, IsRun, Init;
    Linked(cfg, st, c, s);
    InCallValid(st.clients[c], cfg.servers, cfg.rounds);
    InCallValid(st.servers[s], cfg.clients, cfg.rounds);
    LinkOwnRound(st.links[(c, s)], st.clients[c], st.servers[s], c, s);
  }

  // ---- it ends ----

  /** `cpick[c]` and `spick[s]` name the partner each participant serves next, in whatever order it goes. */
  ghost predicate CanMove(cfg: Config, st: State, cpick: seq<nat>, spick: seq<nat>)
    requires Sized(cfg, st) && |cpick| == cfg.clients && |spick| == cfg.servers
  {
    || (exists c: nat, s: nat :: InTime(cfg, st, Connect(c, s)))
    || (exists c: nat :: c < cfg.clients && InTime(cfg, st, ClientStep(c, cpick[c])))
    || (exists s: nat :: s < cfg.servers && InTime(cfg, st, ServerStep(spick[s], s)))
  }

  ghost predicate Picks(cfg: Config, st: State, cpick: seq<nat>, spick: seq<nat>)
    requires Sized(cfg, st)
  {
    && |cpick| == cfg.clients && |spick| == cfg.servers
    && (forall c :: 0 <= c < cfg.clients ==> cpick[c] in st.clients[c].todo)
    && (forall s :: 0 <= s < cfg.servers ==> spick[s] in st.servers[s].todo)
  }

  ghost predicate Finished(cfg: Config, st: State)
    requires Sized(cfg, st)
  {
    && (forall c :: 0 <= c < cfg.clients ==> st.clients[c].round == cfg.rounds)
    && (forall s :: 0 <= s < cfg.servers ==> st.servers[s].round == cfg.rounds)
  }

  lemma AlreadyConnected(cfg: Config, st: State, c: nat, s: nat)
    requires Sized(cfg, st) && c < cfg.clients && s < cfg.servers && !InTime(cfg, st, Connect(c, s))
    ensures (c, s) in st.connected
  {
  }

  lemma Stuck(cfg: Config, st: State, cpick: seq<nat>, spick: seq<nat>)
    requires Inv(cfg, st) && st.broken == {} && Picks(cfg, st, cpick, spick) && !CanMove(cfg, st, cpick, spick)
    ensures forall c: nat, s: nat :: c < cfg.clients && s < cfg.servers ==> (c, s) in st.connected
    ensures forall c: nat :: c < cfg.clients ==> cpick[c] < cfg.servers && !InTime(cfg, st, ClientStep(c, cpick[c]))
    ensures forall s: nat :: s < cfg.servers ==> spick[s] < cfg.clients && !InTime(cfg, st, ServerStep(spick[s], s))
  {
    hide LinkInv, InTime, Proc.InCall;
    forall c: nat, s: nat | c < cfg.clients && s < cfg.servers ensures (c, s) in st.connected {
      assert !InTime(cfg, st, Connect(c, s));
      AlreadyConnected(cfg, st, c, s);
    }
    forall c: nat | c < cfg.clients ensures cpick[c] < cfg.servers && !InTime(cfg, st, ClientStep(c, cpick[c])) {
      InCallValid(st.clients[c], cfg.servers, cfg.rounds);
      assert cpick[c] in Partners(cfg.servers);
    }
    forall s: nat | s < cfg.servers ensures spick[s] < cfg.clients && !InTime(cfg, st, ServerStep(spick[s], s)) {
      InCallValid(st.servers[s], cfg.clients, cfg.rounds);
      assert spick[s] in Partners(cfg.clients);
    }
  }

  /** A server that cannot move waits for a client that has not sent this round. */
  lemma StuckServer(cfg: Config, st: State, cpick: seq<nat>, spick: seq<nat>, s: nat)
    requires Inv(cfg, st) && st.broken == {} && Picks(cfg, st, cpick, spick) && !CanMove(cfg, st, cpick, spick)
    requires s < cfg.servers && st.servers[s].round < cfg.rounds
    ensures st.servers[s].phase == 1 && spick[s] < cfg.clients
    ensures st.clients[spick[s]].Done(1, s) == st.servers[s].round
  {
    hide CanMove, InTime, LinkInv, Proc.InCall, Partners;
    Stuck(cfg, st, cpick, spick);
    var d := spick[s];
    Linked(cfg, st, d, s);
    InCallValid(st.servers[s], cfg.clients, cfg.rounds);
    BlockedServer(cfg, st, d, s);
    WaitingServer(st.links[(d, s)], st.clients[d], st.servers[s], d, s);
  }

  lemma BlockedServer(cfg: Config, st: State, c: nat, s: nat)
    requires Sized(cfg, st) && c < cfg.clients && s < cfg.servers && !InTime(cfg, st, ServerStep(c, s))
    requires (c, s) in st.connected && st.servers[s].round < cfg.rounds && c in st.servers[s].todo
    ensures st.servers[s].phase == 1 && st.links[(c, s)].requests == []
  {
  }

  lemma WaitingServer(l: Link, cl: Proc, sv: Proc, c: nat, s: nat)
    requires LinkInv(l, cl, sv, c, s) && sv.phase == 1 && c in sv.todo && l.requests == []
    ensures cl.Done(1, s) == sv.round
  {
  }

  /** A client that cannot move has sent, and waits for a server in its own round. */
  lemma StuckClient(cfg: Config, st: State, cpick: seq<nat>, spick: seq<nat>, c: nat)
    requires Inv(cfg, st) && st.broken == {} && Picks(cfg, st, cpick, spick) && !CanMove(cfg, st, cpick, spick)
    requires c < cfg.clients && st.clients[c].round < cfg.rounds
    ensures st.clients[c].phase == 2 && cpick[c] < cfg.servers
    ensures st.servers[cpick[c]].round == st.clients[c].round
  {
    hide CanMove, InTime, LinkInv, Proc.InCall, Partners;
    Stuck(cfg, st, cpick, spick);
    var s := cpick[c];
    Linked(cfg, st, c, s);
    if st.servers[s].round < cfg.rounds {
      StuckServer(cfg, st, cpick, spick, s);
    }
    InCallValid(st.clients[c], cfg.servers, cfg.rounds);
    BlockedClient(cfg, st, c, s);
    Unserved(st.servers[s], c, cfg.clients, cfg.rounds);
    WaitingClient(st.links[(c, s)], st.clients[c], st.servers[s], c, s, cfg.rounds);
  }

  lemma BlockedClient(cfg: Config, st: State, c: nat, s: nat)
    requires Sized(cfg, st) && c < cfg.clients && s < cfg.servers
    requires !InTime(cfg, st, ClientStep(c, s)) && st.broken == {}
    requires forall t: nat :: t < cfg.servers ==> (c, t) in st.connected
    requires st.clients[c].round < cfg.rounds && s in st.clients[c].todo
    ensures st.clients[c].phase != 0
    ensures st.clients[c].phase == 1 ==> st.links[(c, s)].serverPosted <= 0
    ensures st.clients[c].phase >= 2 ==> st.links[(c, s)].replies == []
  {
  }

  lemma Unserved(p: Proc, x: nat, n: nat, rounds: nat)
    requires p.InCall(n, rounds) && x < n
    ensures p.round <= rounds && (p.round == rounds ==> p.phase == 0 && x in p.todo)
  {
  }

  lemma WaitingClient(l: Link, cl: Proc, sv: Proc, c: nat, s: nat, rounds: nat)
    requires LinkInv(l, cl, sv, c, s) && 1 <= cl.phase <= 2 && s in cl.todo && cl.round < rounds
    requires cl.phase == 1 ==> l.serverPosted <= 0
    requires cl.phase == 2 ==> l.replies == []
    requires sv.round < rounds ==> sv.phase == 1
    requires sv.round >= rounds ==> sv.round == rounds && sv.phase == 0 && c in sv.todo
    ensures cl.phase == 2 && sv.round == cl.round
  {
  }

  /** The server it waits for waits for a client a round behind, which waits for a server that this one has passed. */
  lemma NoStuckClient(cfg: Config, st: State, cpick: seq<nat>, spick: seq<nat>, c: nat)
    requires Inv(cfg, st) && st.broken == {} && Picks(cfg, st, cpick, spick) && !CanMove(cfg, st, cpick, spick)
    requires c < cfg.clients
    ensures st.clients[c].round == cfg.rounds
  {
    hide CanMove, InTime;
    if st.clients[c].round < cfg.rounds {
      StuckClient(cfg, st, cpick, spick, c);
      StuckServer(cfg, st, cpick, spick, cpick[c]);
      var d := spick[cpick[c]];
      StuckClient(cfg, st, cpick, spick, d);
      Linked(cfg, st, c, cpick[d]);
    }
  }

  lemma StuckIsFinished(cfg: Config, st: State, cpick: seq<nat>, spick: seq<nat>)
    requires Inv(cfg, st) && st.broken == {} && Picks(cfg, st, cpick, spick) && !CanMove(cfg, st, cpick, spick)
    ensures Finished(cfg, st)
  {
    hide CanMove, InTime, LinkInv;
    forall c: nat | c < cfg.clients ensures st.clients[c].round == cfg.rounds {
      NoStuckClient(cfg, st, cpick, spick, c);
    }
    forall s: nat | s < cfg.servers ensures st.servers[s].round == cfg.rounds {
      if st.servers[s].round < cfg.rounds {
        StuckServer(cfg, st, cpick, spick, s);
      }
    }
  }

  /** As long as no queue pair is broken, until all have finished, some participant
      can take its very next step without breaking one. */
  lemma Progress(cfg: Config, run: seq<State>, i: nat, cpick: seq<nat>, spick: seq<nat>)
    requires cfg.Valid() && IsRun(cfg, run) && i < |run|
    requires run[i].broken == {} && Picks(cfg, run[i], cpick, spick) && !Finished(cfg, run[i])
    ensures CanMove(cfg, run[i], cpick, spick)
  {
    RunInv(cfg, run, i);
    if !CanMove(cfg, run[i], cpick, spick) {
      StuckIsFinished(cfg, run[i], cpick, spick);
    }
  }

  // ---- how many steps ----

  ghost function Position(p: Proc, n: nat): int {
    (3 * p.round + p.phase) * n + n - |p.todo|
  }

  ghost function Positions(ps: seq<Proc>, n: nat): int {
    if ps == [] then 0 else Positions(ps[..|ps| - 1], n) + Position(ps[|ps| - 1], n)
  }

  ghost function Work(cfg: Config, st: State): int {
    Positions(st.clients, cfg.servers) + Positions(st.servers, cfg.clients) + |st.connected| + |st.broken|
  }

  lemma {:induction false} SumUpdate(ps: seq<Proc>, n: nat, i: nat, p: Proc)
    requires i < |ps|
    ensures Positions(ps[i := p], n) == Positions(ps, n) - Position(ps[i], n) + Position(p, n)
  {
    var last := |ps| - 1;
    if i == last {
      assert ps[i := p][..last] == ps[..last];
    } else {
      SumUpdate(ps[..last], n, i, p);
      assert ps[i := p][..last] == ps[..last][i := p];
    }
  }

  lemma AdvancePosition(p: Proc, x: nat, n: nat)
    requires p.Valid(n) && x in p.todo
    ensures Position(p.Advance(x, n), n) == Position(p, n) + 1
  {
    if p.todo == {x} && p.phase == 2 {
      assert (3 * (p.round + 1)) * n == (3 * p.round + 2) * n + n;
    } else if p.todo == {x} {
      assert (3 * p.round + p.phase + 1) * n == (3 * p.round + p.phase) * n + n;
    }
  }

  lemma StepWork(cfg: Config, st: State, st': State)
    requires Inv(cfg, st) && Step(cfg, st, st')
    ensures Work(cfg, st') == Work(cfg, st) + 1
  {
    hide LinkInv, Position, Positions;
    var e :| Enabled(cfg, st, e) && st' == Apply(cfg, st, e);
    if !Early(cfg, st, e) {
      match e
      case Connect(_, _) =>
      case ClientStep(c, s) =>
        AdvancePosition(st.clients[c], s, cfg.servers);
        SumUpdate(st.clients, cfg.servers, c, st'.clients[c]);
      case ServerStep(c, s) =>
        AdvancePosition(st.servers[s], c, cfg.clients);
        SumUpdate(st.servers, cfg.clients, s, st'.servers[s]);
    }
  }

  lemma {:induction false} SumBound(ps: seq<Proc>, n: nat, rounds: nat)
    requires forall i :: 0 <= i < |ps| ==> ps[i].InCall(n, rounds)
    ensures Positions(ps, n) <= |ps| * (3 * rounds * n)
  {
    if ps != [] {
      var last := ps[|ps| - 1];
      SumBound(ps[..|ps| - 1], n, rounds);
      Scale(3 * last.round + last.phase + 1, 3 * rounds, n);
      assert (3 * last.round + last.phase + 1) * n == (3 * last.round + last.phase) * n + n;
      assert |ps| * (3 * rounds * n) == (|ps| - 1) * (3 * rounds * n) + 3 * rounds * n;
    }
  }

  lemma {:induction false} SumZero(ps: seq<Proc>, n: nat)
    requires forall i :: 0 <= i < |ps| ==> ps[i] == Proc(0, 0, Partners(n))
    ensures Positions(ps, n) == 0
  {
    if ps != [] {
      SumZero(ps[..|ps| - 1], n);
    }
  }

  lemma {:induction false} RunWork(cfg: Config, run: seq<State>, i: nat)
    requires cfg.Valid() && IsRun(cfg, run) && i < |run|
    ensures Sized(cfg, run[i]) && Work(cfg, run[i]) == i
  {
    hide Inv, Step, Positions;
    RunInv(cfg, run, i);
    assert Sized(cfg, run[i]);
    if i == 0 {
      SumZero(run[0].clients, cfg.servers);
      SumZero(run[0].servers, cfg.clients);
    } else {
      RunWork(cfg, run, i - 1);
      RunInv(cfg, run, i - 1);
      StepWork(cfg, run[i - 1], run[i - 1 + 1]);
    }
  }

  /** Every run stops after at most three steps a round for each end of each
      connection, one to connect it and one to break it. */
  lemma RunLength(cfg: Config, run: seq<State>)
    requires cfg.Valid() && IsRun(cfg, run)
    ensures |run| - 1 <= cfg.clients * cfg.servers * (6 * cfg.rounds + 2)
  {
    var i := |run| - 1;
    RunInv(cfg, run, i);
    RunWork(cfg, run, i);
    WorkBound(cfg, run[i]);
  }

  lemma WorkBound(cfg: Config, st: State)
    requires Inv(cfg, st)
    ensures Work(cfg, st) <= cfg.clients * cfg.servers * (6 * cfg.rounds + 2)
  {
    hide LinksInv, Positions, Partners, Pairs;
    SumBound(st.clients, cfg.servers, cfg.rounds);
    SumBound(st.servers, cfg.clients, cfg.rounds);
    SubsetSize(st.connected, Pairs(cfg.clients, cfg.servers));
    SubsetSize(st.broken, Pairs(cfg.clients, cfg.servers));
    Total(cfg.clients, cfg.servers, cfg.rounds);
  }

  lemma Total(n: nat, m: nat, r: nat)
    ensures n * (3 * r * m) + m * (3 * r * n) + n * m + n * m == n * m * (6 * r + 2)
  {
    assert n * (3 * r * m) == 3 * (n * m * r) && m * (3 * r * n) == 3 * (n * m * r);
    assert n * m * (6 * r + 2) == 6 * (n * m * r) + n * m + n * m;
  }
}
