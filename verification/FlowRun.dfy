/** The whole client: one thread going round its connections until none is
    working, against one server thread per connection. */
module FlowRun {
  import opened FlowControl
  import opened FlowSlots

  /** `cur` is the connection of the inner loop, `working` the counter of the outer. */
  datatype State = State(links: seq<Link>, cur: nat, working: int, done: bool)

  predicate IsOpen(l: Link) { !l.Closed() || !l.phase.Idle? }

  function OpenCount(links: seq<Link>): nat {
    if links == [] then 0 else OpenCount(links[..|links| - 1]) + if IsOpen(links[|links| - 1]) then 1 else 0
  }

  /** One connection per entry of `held`, each with that many receives found at the start. */
  function Init(cfg: Config, held: seq<nat>): State
    requires cfg.Valid()
  {
    State(seq(|held|, j requires 0 <= j < |held| => Start(cfg, held[j])), 0, |held|, false)
  }

  /** The end of one turn of the inner loop. */
  function Advance(s: State): State {
    if s.cur + 1 < |s.links| then s.(cur := s.cur + 1)
    else if s.working > 0 then s.(cur := 0)
    else s.(done := true)
  }

  /** The client at connection `cur`; `l'` is what becomes of it. */
  ghost predicate ClientMove(cfg: Config, s: State, s': State, l': Link)
    requires cfg.Valid()
  {
    && !s.done && s.cur < |s.links| && s.links[s.cur].failure == {}
    && var l := s.links[s.cur];
    var t := s.(links := s.links[s.cur := l']);
    || (l.phase.Idle? && l.Closed() && l' == l && s' == Advance(s))
    || (Stays(cfg, l, l') && s' == t)
    || (PollNothing(cfg, l, l') &&
        s' == Advance(if l'.Closed() then t.(working := s.working - 1) else t))
  }

  ghost predicate ClientMoves(cfg: Config, s: State, s': State)
    requires cfg.Valid()
  {
    exists l' :: ClientMove(cfg, s, s', l')
  }

  /** A server thread or the network on connection `j`. */
  ghost predicate OtherMove(cfg: Config, s: State, s': State, j: nat, l': Link)
    requires cfg.Valid()
  {
    && j < |s.links| && s.links[j].failure == {}
    && OtherStep(cfg, s.links[j], l')
    && s' == s.(links := s.links[j := l'])
  }

  ghost predicate Step(cfg: Config, s: State, s': State)
    requires cfg.Valid()
  {
    || ClientMoves(cfg, s, s')
    || (exists j: nat, l' :: OtherMove(cfg, s, s', j, l'))
  }

  ghost predicate IsPath(cfg: Config, run: seq<State>)
    requires cfg.Valid()
  {
    run != [] && forall i :: 0 <= i < |run| - 1 ==> Step(cfg, run[i], run[i + 1])
  }

  ghost predicate IsRun(cfg: Config, held: seq<nat>, run: seq<State>)
    requires cfg.Valid()
  {
    IsPath(cfg, run) && run[0] == Init(cfg, held)
  }

  // ---- invariant ----

  ghost predicate Inv(cfg: Config, s: State)
    requires cfg.Valid()
  {
    && s.links != []
    && (forall j :: 0 <= j < |s.links| ==> LinkInv(cfg, s.links[j]) && SlotInv(cfg, s.links[j]))
    && (forall j :: 0 <= j < |s.links| && j != s.cur ==> s.links[j].phase.Idle?)
    && s.cur < |s.links|
    && s.working == OpenCount(s.links)
    && (s.done ==> s.working == 0)
  }

  lemma {:induction false} CountUpdate(links: seq<Link>, j: nat, l': Link)
    requires j < |links|
    ensures OpenCount(links[j := l']) ==
            OpenCount(links) + (if IsOpen(l') then 1 else 0) - (if IsOpen(links[j]) then 1 else 0)
  {
    var n := |links| - 1;
    if j == n {
      assert links[j := l'][..n] == links[..n];
    } else {
      CountUpdate(links[..n], j, l');
      assert links[j := l'][..n] == links[..n][j := l'];
    }
  }

  lemma {:induction false} CountZero(links: seq<Link>, j: nat)
    requires j < |links|
    ensures OpenCount(links) == 0 ==> !IsOpen(links[j])
  {
    if j < |links| - 1 {
      CountZero(links[..|links| - 1], j);
    }
  }

  lemma {:induction false} CountPositive(links: seq<Link>) returns (j: nat)
    requires OpenCount(links) > 0
    ensures j < |links| && IsOpen(links[j])
  {
    var n := |links| - 1;
    if IsOpen(links[n]) {
      j := n;
    } else {
      j := CountPositive(links[..n]);
    }
  }

  lemma {:induction false} CountFresh(cfg: Config, held: seq<nat>)
    requires cfg.Valid()
    ensures OpenCount(Init(cfg, held).links) == |held|
  {
    if held != [] {
      var n := |held| - 1;
      CountFresh(cfg, held[..n]);
      assert Init(cfg, held).links[..n] == Init(cfg, held[..n]).links;
    }
  }

  lemma InitInv(cfg: Config, held: seq<nat>)
    requires cfg.Valid() && held != []
    ensures Inv(cfg, Init(cfg, held))
  {
    hide LinkInv, SlotInv, Start;
    CountFresh(cfg, held);
    forall j | 0 <= j < |held| ensures LinkInv(cfg, Start(cfg, held[j])) && SlotInv(cfg, Start(cfg, held[j])) {
      StartSlots(cfg, held[j]);
    }
    assert forall j :: 0 <= j < |held| ==> Init(cfg, held).links[j] == Start(cfg, held[j]);
    forall j | 0 <= j < |held| ensures Start(cfg, held[j]).phase.Idle? {
      StartIdle(cfg, held[j]);
    }
  }

  lemma StartIdle(cfg: Config, held: nat)
    requires cfg.Valid()
    ensures Start(cfg, held).phase.Idle? && !Start(cfg, held).Closed()
  {
  }

  /** The steps of a visit other than its end. */
  ghost predicate Stays(cfg: Config, l: Link, l': Link)
    requires cfg.Valid()
  {
    Visit(cfg, l, l') || Send(cfg, l, l') || BurstEnd(l, l') || PollAck(l, l')
  }

  lemma StaysOpen(cfg: Config, l: Link, l': Link)
    requires cfg.Valid()
    ensures Stays(cfg, l, l') ==> IsOpen(l) && IsOpen(l')
    ensures PollNothing(cfg, l, l') ==> IsOpen(l) && l'.phase.Idle? && (IsOpen(l') <==> !l'.Closed())
    ensures PollNothing(cfg, l, l') ==> !l.phase.Idle?
  {
  }

  lemma ClientMoveInv(cfg: Config, s: State, s': State, l': Link)
    requires cfg.Valid() && Inv(cfg, s) && ClientMove(cfg, s, s', l')
    ensures Inv(cfg, s')
  {
    hide LinkInv, SlotInv, Visit, Send, BurstEnd, PollAck, PollNothing;
    var l := s.links[s.cur];
    CountUpdate(s.links, s.cur, l');
    StaysOpen(cfg, l, l');
    if !(l.phase.Idle? && l.Closed()) {
      ClientStepSlots(cfg, l, l');
    }
  }

  /** Server and network steps leave the client's side of a connection alone. */
  lemma OtherKeepsClient(cfg: Config, l: Link, l': Link)
    requires cfg.Valid() && OtherStep(cfg, l, l')
    ensures l'.budget == l.budget && l'.pending == l.pending && l'.phase == l.phase
  {
  }

  lemma OtherMoveInv(cfg: Config, s: State, s': State, j: nat, l': Link)
    requires cfg.Valid() && Inv(cfg, s) && OtherMove(cfg, s, s', j, l')
    ensures Inv(cfg, s')
  {
    hide LinkInv, SlotInv, OtherStep;
    OtherStepSlots(cfg, s.links[j], l');
    OtherKeepsClient(cfg, s.links[j], l');
    CountUpdate(s.links, j, l');
  }

  lemma StepInv(cfg: Config, s: State, s': State)
    requires cfg.Valid() && Inv(cfg, s) && Step(cfg, s, s')
    ensures Inv(cfg, s')
  {
    if exists l' :: ClientMove(cfg, s, s', l') {
      var l' :| ClientMove(cfg, s, s', l');
      ClientMoveInv(cfg, s, s', l');
    } else {
      var j: nat, l' :| OtherMove(cfg, s, s', j, l');
      OtherMoveInv(cfg, s, s', j, l');
    }
  }

  lemma {:induction false} PathInv(cfg: Config, run: seq<State>, k: nat)
    requires cfg.Valid() && IsPath(cfg, run) && Inv(cfg, run[0]) && k < |run|
    ensures Inv(cfg, run[k])
  {
    if k > 0 {
      PathInv(cfg, run, k - 1);
      StepInv(cfg, run[k - 1], run[k]);
    }
  }

  /** Safety of every run, for every window, message count, slot count and number
      of connections, and whatever receives were left before: no message arrives
      without a receive, the window is kept, no credit underflows, budget, pending
      and the sum of all immediates polled make the number of messages, and the
      loop counter is exact. */
  lemma RunSafe(cfg: Config, held: seq<nat>, run: seq<State>, k: nat, j: nat)
    requires cfg.Valid() && held != [] && IsRun(cfg, held, run) && k < |run| && j < |run[k].links|
    ensures var l := run[k].links[j];
            && NoMessageReceive !in l.failure && BadCredit !in l.failure
            && |l.messages| <= |l.receives| <= cfg.window
            && l.pending <= cfg.window
            && l.budget + l.pending + l.credited == cfg.iterations
            && l.credited + Total(Outstanding(l)) + l.counter + Uncounted(l) == l.Served(cfg)
            && l.credited <= l.Served(cfg) <= l.Sent(cfg) <= cfg.iterations
            && (forall i :: 0 <= i < |l.messages| ==> l.messages[i] == l.receives[i])
            && (forall i :: 0 <= i < |l.received| ==> l.received[i].0 == l.received[i].1)
    ensures run[k].working == OpenCount(run[k].links)
    ensures run[k].done ==>
              var l := run[k].links[j];
              l.Closed() && l.credited == cfg.iterations && l.todo == 0 && l.open == 0
  {
    InitInv(cfg, held);
    PathInv(cfg, run, k);
    LinkSafe(cfg, run[k].links[j]);
    CountZero(run[k].links, j);
  }

  ghost predicate NothingFailed(s: State) {
    forall j :: 0 <= j < |s.links| ==> s.links[j].failure == {}
  }

  /** On every connection the immediates polled add up to the number of messages. */
  ghost predicate AllCredited(cfg: Config, s: State) {
    forall j :: 0 <= j < |s.links| ==> s.links[j].Closed() && s.links[j].credited == cfg.iterations
  }

  lemma DoneIsCredited(cfg: Config, s: State)
    requires cfg.Valid() && Inv(cfg, s)
    ensures s.done ==> AllCredited(cfg, s)
  {
    hide SlotInv, ServerInv, ChannelInv;
    if s.done {
      forall j | 0 <= j < |s.links| ensures s.links[j].Closed() && s.links[j].credited == cfg.iterations {
        CountZero(s.links, j);
      }
    }
  }

  // ---- progress ----

  function Stage(p: ServerPhase): nat {
    match p
    case Repost => 5
    case Count => 4
    case Flush => 1
    case _ => 0
  }

  /** Steps that data on this connection can still take. */
  function Work(cfg: Config, l: Link): nat
    requires l.Sent(cfg) <= cfg.iterations
  {
    8 * (cfg.iterations - l.Sent(cfg)) + 7 * |l.messages| + 6 * |l.received| + Stage(l.serving)
    + 2 * |l.acks| + |l.ackDone| + (if l.failure == {} then 1 else 0)
  }

  lemma SentBound(cfg: Config, l: Link)
    requires cfg.Valid() && LinkInv(cfg, l)
    ensures l.Sent(cfg) <= cfg.iterations
  {
  }

  lemma OtherWork(cfg: Config, l: Link, l': Link)
    requires cfg.Valid() && LinkInv(cfg, l) && LinkInv(cfg, l') && l.failure == {} && OtherStep(cfg, l, l')
    ensures l.Sent(cfg) <= cfg.iterations && l'.Sent(cfg) <= cfg.iterations
    ensures Work(cfg, l') < Work(cfg, l)
  {
    hide LinkInv, Config.Pack, Config.Slot;
    SentBound(cfg, l);
    SentBound(cfg, l');
    if MessageArrives(l, l') || AckArrives(l, l') {
      NetworkWork(cfg, l, l');
    } else {
      ServerWork(cfg, l, l');
    }
  }

  lemma NetworkWork(cfg: Config, l: Link, l': Link)
    requires cfg.Valid() && l.failure == {} && l.Sent(cfg) <= cfg.iterations
    requires MessageArrives(l, l') || AckArrives(l, l')
    ensures l'.Sent(cfg) == l.Sent(cfg) && Work(cfg, l') < Work(cfg, l)
  {
  }

  lemma ServerWork(cfg: Config, l: Link, l': Link)
    requires cfg.Valid() && l.failure == {} && l.Sent(cfg) <= cfg.iterations
    requires ServerPoll(l, l') || ServerRepost(cfg, l, l') || ServerCount(cfg, l, l') || ServerNext(l, l')
    ensures l'.Sent(cfg) == l.Sent(cfg) && Work(cfg, l') < Work(cfg, l)
  {
    hide Config.Pack, Config.Slot;
  }

  lemma ClientWork(cfg: Config, l: Link, l': Link)
    requires cfg.Valid() && LinkInv(cfg, l) && LinkInv(cfg, l') && l.failure == {} && ClientStep(cfg, l, l')
    ensures l.Sent(cfg) <= cfg.iterations && l'.Sent(cfg) <= cfg.iterations
    ensures Work(cfg, l') <= Work(cfg, l)
    ensures Send(cfg, l, l') || PollAck(l, l') ==> Work(cfg, l') < Work(cfg, l)
  {
    hide ChannelInv, ServerInv;
  }

  /** Steps that move data make the work smaller; steps of client control leave it. */
  lemma LinkWork(cfg: Config, l: Link, l': Link)
    requires cfg.Valid() && LinkInv(cfg, l) && LinkInv(cfg, l') && LinkStep(cfg, l, l')
    ensures l.Sent(cfg) <= cfg.iterations && l'.Sent(cfg) <= cfg.iterations
    ensures Work(cfg, l') <= Work(cfg, l)
    ensures OtherStep(cfg, l, l') || Send(cfg, l, l') || PollAck(l, l') ==> Work(cfg, l') < Work(cfg, l)
  {
    hide LinkInv, OtherStep, Send, PollAck, Visit, BurstEnd, PollNothing, Work;
    if OtherStep(cfg, l, l') {
      OtherWork(cfg, l, l');
    } else {
      ClientWork(cfg, l, l');
    }
  }

  function TotalWork(cfg: Config, links: seq<Link>): nat
    requires forall j :: 0 <= j < |links| ==> links[j].Sent(cfg) <= cfg.iterations
  {
    if links == [] then 0 else TotalWork(cfg, links[..|links| - 1]) + Work(cfg, links[|links| - 1])
  }

  lemma {:induction false} TotalWorkUpdate(cfg: Config, links: seq<Link>, j: nat, l': Link)
    requires forall i :: 0 <= i < |links| ==> links[i].Sent(cfg) <= cfg.iterations
    requires j < |links| && l'.Sent(cfg) <= cfg.iterations
    ensures TotalWork(cfg, links[j := l']) == TotalWork(cfg, links) - Work(cfg, links[j]) + Work(cfg, l')
  {
    var n := |links| - 1;
    if j == n {
      assert links[j := l'][..n] == links[..n];
    } else {
      TotalWorkUpdate(cfg, links[..n], j, l');
      assert links[j := l'][..n] == links[..n][j := l'];
    }
  }

  lemma SentAll(cfg: Config, s: State)
    requires cfg.Valid() && Inv(cfg, s)
    ensures forall j :: 0 <= j < |s.links| ==> s.links[j].Sent(cfg) <= cfg.iterations
  {
  }

  ghost function StateWork(cfg: Config, s: State): nat
    requires cfg.Valid() && Inv(cfg, s)
  {
    TotalWork(cfg, s.links)
  }

  /** Nothing is in flight and the server cannot move. */
  ghost predicate Quiet(l: Link) {
    l.messages == [] && l.acks == [] && l.received == [] && (l.serving.Waiting? || l.serving.Finished?)
  }

  /** A connection that is not quiet has a server or network step. */
  lemma BusyMoves(cfg: Config, l: Link) returns (l': Link)
    requires cfg.Valid() && LinkInv(cfg, l) && l.failure == {} && !Quiet(l)
    ensures OtherStep(cfg, l, l')
  {
    if l.messages != [] {
      l' := MessageArrived(l);
    } else if l.acks != [] {
      l' := AckArrived(l);
    } else {
      match l.serving {
        case Repost => l' := ServerReposted(cfg, l);
        case Count => l' := ServerCounted(cfg, l);
        case Flush => l' := l.(serving := if l.todo > 0 || l.open > 0 then Waiting else Finished);
        case Waiting => l' := ServerPolled(l);
        case Finished => l' := l;
      }
    }
  }

  /** When a connection is quiet and no acknowledgement waits, everything sent is
      counted by the server and the count is below the packing size: the window is
      not full, and an open connection still has messages to send. */
  lemma QuietHasRoom(cfg: Config, l: Link)
    requires cfg.Valid() && LinkInv(cfg, l) && Quiet(l) && l.ackDone == []
    ensures !l.phase.Burst? ==> l.pending < cfg.window && (!l.Closed() ==> l.budget > 0)
    ensures l.phase.Burst? && l.phase.i == l.phase.n ==> l.phase.n > 0 || l.pending < cfg.window
  {
    assert Outstanding(l) == [];
  }

  /** The connection under the cursor still has something for this visit. */
  ghost predicate HasTurn(l: Link) {
    match l.phase
    case Idle => !l.Closed()
    case Burst(i, n, _, _) => i < n || l.ackDone != []
    case Polling => l.ackDone != []
  }

  ghost predicate Ahead(s: State)
    requires s.cur < |s.links|
  {
    HasTurn(s.links[s.cur]) || exists j :: s.cur < j < |s.links| && IsOpen(s.links[j])
  }

  ghost function Lap(s: State): nat
    requires s.cur < |s.links|
  {
    if s.done then 0 else if Ahead(s) then 1 else 2
  }

  ghost function PhaseWeight(p: ClientPhase): nat {
    match p
    case Idle => 2
    case Burst(_, _, _, _) => 1
    case Polling => 0
  }

  /** Lexicographic: work left, laps to the next useful visit, connections left in the lap, phase. */
  ghost predicate Smaller(cfg: Config, s': State, s: State)
    requires cfg.Valid() && Inv(cfg, s) && Inv(cfg, s')
  {
    var w', w := StateWork(cfg, s'), StateWork(cfg, s);
    || w' < w
    || (w' == w && Lap(s') < Lap(s))
    || (w' == w && Lap(s') == Lap(s) && |s'.links| == |s.links| && s'.cur > s.cur)
    || (w' == w && Lap(s') == Lap(s) && |s'.links| == |s.links| && s'.cur == s.cur
        && PhaseWeight(s'.links[s'.cur].phase) < PhaseWeight(s.links[s.cur].phase))
  }

  ghost predicate Stopped(s: State) {
    s.done || exists j :: 0 <= j < |s.links| && s.links[j].failure != {}
  }

  /** Leaving the connection under the cursor when it has no turn left. */
  lemma AdvanceSmaller(cfg: Config, s: State, t: State)
    requires cfg.Valid() && Inv(cfg, s) && !s.done && !HasTurn(s.links[s.cur])
    requires |t.links| == |s.links| && t.cur == s.cur && !t.done && Inv(cfg, Advance(t))
    requires forall j :: 0 <= j < |s.links| && j != s.cur ==> t.links[j] == s.links[j]
    requires t.links[s.cur].phase.Idle? && t.working == OpenCount(t.links)
    requires StateWork(cfg, Advance(t)) == StateWork(cfg, s)
    ensures Smaller(cfg, Advance(t), s)
  {
    if s.cur + 1 < |s.links| {
      var s' := Advance(t);
      if Ahead(s) {
        var j :| s.cur < j < |s.links| && IsOpen(s.links[j]);
        assert IsOpen(s'.links[j]);
        assert j == s'.cur ==> HasTurn(s'.links[j]);
        assert Ahead(s');
      } else {
        assert forall j :: s'.cur < j < |s'.links| ==> !IsOpen(s.links[j]);
        assert !IsOpen(s.links[s'.cur]);
      }
    } else if t.working > 0 {
      var j := CountPositive(t.links);
      assert Advance(t).links[j] == t.links[j];
      assert j == 0 ==> HasTurn(t.links[j]);
      assert Ahead(Advance(t));
    }
  }

  /** Deadlock freedom with a measure: while the client is not done and nothing has
      failed, some step is enabled that makes the measure smaller. */
  lemma Progress(cfg: Config, s: State) returns (s': State)
    requires cfg.Valid() && Inv(cfg, s) && !Stopped(s)
    ensures Step(cfg, s, s') && Inv(cfg, s') && Smaller(cfg, s', s)
  {
    hide LinkInv, SlotInv, OtherStep, Quiet, Work;
    if j: nat :| j < |s.links| && !Quiet(s.links[j]) {
      var l' := BusyMoves(cfg, s.links[j]);
      s' := s.(links := s.links[j := l']);
      assert OtherMove(cfg, s, s', j, l');
      OtherMoveInv(cfg, s, s', j, l');
      assert s'.links[j] == l';
      SentAll(cfg, s);
      LinkWork(cfg, s.links[j], l');
      TotalWorkUpdate(cfg, s.links, j, l');
    } else {
      s' := ClientProgress(cfg, s);
    }
  }

  lemma ClientStay(cfg: Config, s: State, l': Link) returns (s': State)
    requires cfg.Valid() && Inv(cfg, s) && !Stopped(s)
    requires Stays(cfg, s.links[s.cur], l')
    ensures s' == s.(links := s.links[s.cur := l']) && ClientMoves(cfg, s, s') && Inv(cfg, s') && LinkInv(cfg, l')
    ensures var l := s.links[s.cur];
            l.Sent(cfg) <= cfg.iterations && l'.Sent(cfg) <= cfg.iterations
            && StateWork(cfg, s') == StateWork(cfg, s) - Work(cfg, l) + Work(cfg, l')
  {
    hide LinkInv, SlotInv, Visit, Send, BurstEnd, PollAck, Work;
    s' := s.(links := s.links[s.cur := l']);
    assert ClientMove(cfg, s, s', l');
    ClientMoveInv(cfg, s, s', l');
    assert s'.links[s.cur] == l';
    SentAll(cfg, s);
    SentBound(cfg, l');
    TotalWorkUpdate(cfg, s.links, s.cur, l');
  }

  lemma LeaveFacts(cfg: Config, l: Link, l': Link)
    requires cfg.Valid() && LinkInv(cfg, l) && PollNothing(cfg, l, l')
    ensures l'.phase.Idle? && l.Sent(cfg) == l'.Sent(cfg) <= cfg.iterations && Work(cfg, l') == Work(cfg, l)
    ensures !HasTurn(l) && IsOpen(l) && (IsOpen(l') <==> !l'.Closed())
  {
  }

  lemma ClientSkip(cfg: Config, s: State) returns (s': State)
    requires cfg.Valid() && Inv(cfg, s) && !Stopped(s)
    requires s.links[s.cur].phase.Idle? && s.links[s.cur].Closed()
    ensures ClientMoves(cfg, s, s') && Inv(cfg, s') && Smaller(cfg, s', s)
  {
    hide LinkInv, SlotInv, Work;
    var l := s.links[s.cur];
    s' := Advance(s);
    assert ClientMove(cfg, s, s', l);
    ClientMoveInv(cfg, s, s', l);
    AdvanceSmaller(cfg, s, s);
  }

  lemma ClientLeave(cfg: Config, s: State, l': Link) returns (s': State)
    requires cfg.Valid() && Inv(cfg, s) && !Stopped(s) && PollNothing(cfg, s.links[s.cur], l')
    ensures ClientMoves(cfg, s, s') && Inv(cfg, s') && Smaller(cfg, s', s)
  {
    hide LinkInv, SlotInv, PollNothing, Work, HasTurn, Lap, PhaseWeight, Smaller;
    var l := s.links[s.cur];
    LeaveFacts(cfg, l, l');
    var t := s.(links := s.links[s.cur := l']);
    var u := if l'.Closed() then t.(working := s.working - 1) else t;
    s' := Advance(u);
    assert ClientMove(cfg, s, s', l');
    ClientMoveInv(cfg, s, s', l');
    CountUpdate(s.links, s.cur, l');
    SentAll(cfg, s);
    TotalWorkUpdate(cfg, s.links, s.cur, l');
    AdvanceSmaller(cfg, s, u);
  }

  lemma ClientProgress(cfg: Config, s: State) returns (s': State)
    requires cfg.Valid() && Inv(cfg, s) && !Stopped(s)
    requires Quiet(s.links[s.cur])
    ensures ClientMoves(cfg, s, s') && Inv(cfg, s') && Smaller(cfg, s', s)
  {
    hide SlotInv, Smaller, ClientMoves, Work;
    var l := s.links[s.cur];
    match l.phase {
      case Idle =>
        if l.Closed() {
          s' := ClientSkip(cfg, s);
        } else {
          s' := ClientVisit(cfg, s);
        }
      case Burst(i, n, _, _) =>
        if i < n {
          s' := ClientSend(cfg, s);
        } else {
          s' := ClientBurstEnd(cfg, s);
        }
      case Polling =>
        if l.ackDone != [] {
          s' := ClientPollAck(cfg, s);
        } else {
          QuietHasRoom(cfg, l);
          s' := ClientLeave(cfg, s, l.(phase := Idle));
        }
    }
  }

  lemma SameWork(cfg: Config, l: Link)
    requires cfg.Valid() && l.phase.Idle? && l.pending <= cfg.window && l.Sent(cfg) <= cfg.iterations
    ensures Visited(cfg, l).Sent(cfg) == l.Sent(cfg) && Work(cfg, Visited(cfg, l)) == Work(cfg, l)
  {
  }

  lemma ClientVisit(cfg: Config, s: State) returns (s': State)
    requires cfg.Valid() && Inv(cfg, s) && !Stopped(s) && Quiet(s.links[s.cur])
    requires s.links[s.cur].phase.Idle? && !s.links[s.cur].Closed()
    ensures ClientMoves(cfg, s, s') && Inv(cfg, s') && Smaller(cfg, s', s)
  {
    var l := s.links[s.cur];
    if l.ackDone == [] {
      QuietHasRoom(cfg, l);
    }
    hide LinkInv, SlotInv, ClientMoves, Work;
    s' := ClientStay(cfg, s, Visited(cfg, l));
    SameWork(cfg, l);
    assert HasTurn(l) && HasTurn(Visited(cfg, l));
    SameAhead(s, s');
  }

  lemma ClientBurstEnd(cfg: Config, s: State) returns (s': State)
    requires cfg.Valid() && Inv(cfg, s) && !Stopped(s) && Quiet(s.links[s.cur])
    requires s.links[s.cur].phase.Burst? && s.links[s.cur].phase.i == s.links[s.cur].phase.n
    ensures ClientMoves(cfg, s, s') && Inv(cfg, s') && Smaller(cfg, s', s)
  {
    var l := s.links[s.cur];
    s' := ClientStay(cfg, s, BurstEnded(l));
    hide LinkInv, SlotInv, ClientMoves;
    SameAhead(s, s');
  }

  lemma ClientSend(cfg: Config, s: State) returns (s': State)
    requires cfg.Valid() && Inv(cfg, s) && !Stopped(s)
    requires s.links[s.cur].phase.Burst? && s.links[s.cur].phase.i < s.links[s.cur].phase.n
    ensures ClientMoves(cfg, s, s') && Inv(cfg, s') && Smaller(cfg, s', s)
  {
    hide LinkInv, SlotInv, SentOne;
    var l := s.links[s.cur];
    s' := ClientStay(cfg, s, SentOne(cfg, l));
    LinkWork(cfg, l, SentOne(cfg, l));
  }

  lemma ClientPollAck(cfg: Config, s: State) returns (s': State)
    requires cfg.Valid() && Inv(cfg, s) && !Stopped(s)
    requires s.links[s.cur].phase.Polling? && s.links[s.cur].ackDone != []
    ensures ClientMoves(cfg, s, s') && Inv(cfg, s') && Smaller(cfg, s', s)
  {
    hide LinkInv, SlotInv, AckPolled;
    var l := s.links[s.cur];
    s' := ClientStay(cfg, s, AckPolled(l));
    LinkWork(cfg, l, AckPolled(l));
  }

  lemma SameAhead(s: State, s': State)
    requires s.cur < |s.links| && |s'.links| == |s.links| && s'.cur == s.cur && s'.done == s.done
    requires HasTurn(s.links[s.cur]) <==> HasTurn(s'.links[s.cur])
    requires forall j :: 0 <= j < |s.links| && j != s.cur ==> s'.links[j] == s.links[j]
    ensures Lap(s) == Lap(s')
  {
    if j :| s.cur < j < |s.links| && IsOpen(s.links[j]) {
      assert IsOpen(s'.links[j]);
    }
    if j :| s.cur < j < |s.links| && IsOpen(s'.links[j]) {
      assert IsOpen(s.links[j]);
    }
  }

  /** From every reachable state the client can still come to its end. */
  lemma {:induction false} CanStop(cfg: Config, s: State) returns (run: seq<State>)
    requires cfg.Valid() && Inv(cfg, s)
    ensures IsPath(cfg, run) && run[0] == s && Stopped(run[|run| - 1])
    decreases StateWork(cfg, s), Lap(s), |s.links| - s.cur, PhaseWeight(s.links[s.cur].phase)
  {
    hide LinkInv, SlotInv, Step, Ahead, PhaseWeight;
    if Stopped(s) {
      run := [s];
    } else {
      var s' := Progress(cfg, s);
      SameSize(cfg, s, s');
      var rest := CanStop(cfg, s');
      run := [s] + rest;
      forall i | 0 <= i < |run| - 1 ensures Step(cfg, run[i], run[i + 1]) {
        if i > 0 {
          assert run[i] == rest[i - 1] && run[i + 1] == rest[i];
        }
      }
    }
  }

  lemma SameSize(cfg: Config, s: State, s': State)
    requires cfg.Valid() && Step(cfg, s, s')
    ensures |s'.links| == |s.links|
  {
  }

  // ---- no run works for ever ----

  /** Every step keeps the work or makes it smaller; only client control keeps it. */
  lemma StepWork(cfg: Config, s: State, s': State)
    requires cfg.Valid() && Inv(cfg, s) && Inv(cfg, s') && Step(cfg, s, s')
    ensures StateWork(cfg, s') <= StateWork(cfg, s)
    ensures (exists j: nat, l' :: OtherMove(cfg, s, s', j, l')) ==> StateWork(cfg, s') < StateWork(cfg, s)
  {
    hide LinkInv, SlotInv, OtherStep, Visit, Send, BurstEnd, PollAck, PollNothing, Work;
    SentAll(cfg, s);
    SentAll(cfg, s');
    if exists j: nat, l' :: OtherMove(cfg, s, s', j, l') {
      var j: nat, l' :| OtherMove(cfg, s, s', j, l');
      assert s'.links[j] == l';
      LinkWork(cfg, s.links[j], l');
      TotalWorkUpdate(cfg, s.links, j, l');
    } else {
      var l' :| ClientMove(cfg, s, s', l');
      var l := s.links[s.cur];
      assert s'.links[s.cur] == l';
      if l' == l {
        assert s'.links == s.links;
      } else {
        LinkWork(cfg, l, l');
        TotalWorkUpdate(cfg, s.links, s.cur, l');
      }
    }
  }

  /** How often the work went down along a run. */
  ghost function DataSteps(cfg: Config, run: seq<State>): nat
    requires cfg.Valid() && forall i :: 0 <= i < |run| ==> Inv(cfg, run[i])
  {
    if |run| <= 1 then 0 else
    var n := |run| - 1;
    DataSteps(cfg, run[..n]) + if StateWork(cfg, run[n]) < StateWork(cfg, run[n - 1]) then 1 else 0
  }

  lemma PathPrefix(cfg: Config, run: seq<State>, n: nat)
    requires cfg.Valid() && IsPath(cfg, run) && 0 < n <= |run|
    ensures IsPath(cfg, run[..n])
  {
    hide Step;
    forall i | 0 <= i < n - 1 ensures Step(cfg, run[..n][i], run[..n][i + 1]) {
      assert Step(cfg, run[i], run[i + 1]);
    }
  }

  /** Any run, however long, has at most as many data steps as it started with work. */
  lemma {:induction false} DataStepsBounded(cfg: Config, run: seq<State>)
    requires cfg.Valid() && IsPath(cfg, run) && forall i :: 0 <= i < |run| ==> Inv(cfg, run[i])
    ensures DataSteps(cfg, run) + StateWork(cfg, run[|run| - 1]) <= StateWork(cfg, run[0])
  {
    hide Inv, Step, StateWork;
    var n := |run| - 1;
    if n > 0 {
      PathPrefix(cfg, run, n);
      DataStepsBounded(cfg, run[..n]);
      assert Step(cfg, run[n - 1], run[n]);
      StepWork(cfg, run[n - 1], run[n]);
    }
  }
}
