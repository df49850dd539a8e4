/** The other direction: when acknowledgements are packed and the run is long
    enough, there is a schedule in which the client posts more receives than its
    queue holds. Each burst but the last polls one acknowledgement, the one that
    posts again polls two. */
module FlowOverflow {
  import opened Arithmetic
  import opened FlowControl
  import opened FlowAcks
  import opened FlowHeld

  ghost predicate IsLinkPath(cfg: Config, run: seq<Link>)
    requires cfg.Valid()
  {
    run != [] && forall i :: 0 <= i < |run| - 1 ==> LinkStep(cfg, run[i], run[i + 1])
  }

  ghost predicate Reaches(cfg: Config, a: Link, b: Link)
    requires cfg.Valid()
  {
    exists run :: IsLinkPath(cfg, run) && run[0] == a && run[|run| - 1] == b
  }

  lemma ReachesSelf(cfg: Config, a: Link)
    requires cfg.Valid()
    ensures Reaches(cfg, a, a)
  {
    assert IsLinkPath(cfg, [a]);
  }

  lemma ReachesStep(cfg: Config, a: Link, b: Link, c: Link)
    requires cfg.Valid() && Reaches(cfg, a, b) && LinkStep(cfg, b, c)
    ensures Reaches(cfg, a, c)
  {
    var run :| IsLinkPath(cfg, run) && run[0] == a && run[|run| - 1] == b;
    var longer := run + [c];
    forall i | 0 <= i < |longer| - 1 ensures LinkStep(cfg, longer[i], longer[i + 1]) {
      if i < |run| - 1 {
        assert LinkStep(cfg, run[i], run[i + 1]);
      }
    }
    assert IsLinkPath(cfg, longer);
  }

  lemma ReachesTrans(cfg: Config, a: Link, b: Link, c: Link)
    requires cfg.Valid() && Reaches(cfg, a, b) && Reaches(cfg, b, c)
    ensures Reaches(cfg, a, c)
  {
    var run :| IsLinkPath(cfg, run) && run[0] == a && run[|run| - 1] == b;
    var next :| IsLinkPath(cfg, next) && next[0] == b && next[|next| - 1] == c;
    var longer := run + next[1..];
    forall i | 0 <= i < |longer| - 1 ensures LinkStep(cfg, longer[i], longer[i + 1]) {
      if i < |run| - 1 {
        assert LinkStep(cfg, run[i], run[i + 1]);
      } else {
        var k := i - (|run| - 1);
        assert longer[i] == next[k] && longer[i + 1] == next[k + 1];
      }
    }
    assert longer[|longer| - 1] == c;
    assert IsLinkPath(cfg, longer);
  }

  ghost predicate Fine(cfg: Config, l: Link)
    requires cfg.Valid()
  {
    LinkInv(cfg, l) && l.failure == {}
  }

  /** One step taken from `l`, itself reached from `from`. */
  lemma Go(cfg: Config, from: Link, l: Link, l': Link)
    requires cfg.Valid() && Fine(cfg, l) && Reaches(cfg, from, l)
    requires ClientStep(cfg, l, l') || OtherStep(cfg, l, l')
    ensures LinkInv(cfg, l') && Reaches(cfg, from, l')
  {
    hide LinkInv, ClientStep, OtherStep, Reaches;
    LinkStepInv(cfg, l, l');
    ReachesStep(cfg, from, l, l');
  }

  // ---- sending and delivering ----

  /** `m` turns of the send loop. */
  lemma {:induction false} SendMany(cfg: Config, l: Link, m: nat) returns (l': Link)
    requires cfg.Valid() && Fine(cfg, l)
    requires l.phase.Burst? && l.phase.i + m <= l.phase.n
    requires l.phase.counter == 0 ==> l.ackReceives + m <= cfg.window
    ensures Fine(cfg, l') && Reaches(cfg, l, l')
    ensures l'.phase == l.phase.(i := l.phase.i + m)
    ensures var posts := if l.phase.counter == 0 then m else 0;
            l'.ackReceives == l.ackReceives + posts && l'.offered == l.offered + posts
    ensures m > 0 ==> l'.ackCounter == if l.phase.counter + 1 < cfg.Pack() then l.phase.counter + 1 else 0
    ensures SameServer(l, l') && l'.budget == l.budget && l'.pending == l.pending && l'.credits == l.credits
    ensures l'.acks == l.acks && l'.ackDone == l.ackDone && l'.received == l.received
  {
    if m == 0 {
      l' := l;
      ReachesSelf(cfg, l);
    } else {
      var k := SendMany(cfg, l, m - 1);
      l' := SentOne(cfg, k);
      Go(cfg, l, k, l');
    }
  }

  ghost predicate SameServer(l: Link, l': Link) {
    && l'.todo == l.todo && l'.open == l.open && l'.counter == l.counter && l'.serving == l.serving
  }

  ghost predicate SameClient(l: Link, l': Link) {
    && l'.budget == l.budget && l'.pending == l.pending && l'.phase == l.phase && l'.ackCounter == l.ackCounter
    && l'.offered == l.offered && l'.credits == l.credits
  }

  lemma {:induction false} ArriveAll(cfg: Config, l: Link) returns (l': Link)
    requires cfg.Valid() && Fine(cfg, l)
    ensures Fine(cfg, l') && Reaches(cfg, l, l') && l'.messages == []
    ensures SameServer(l, l') && SameClient(l, l') && l'.ackReceives == l.ackReceives
    ensures l'.acks == l.acks && l'.ackDone == l.ackDone
    decreases |l.messages|
  {
    if l.messages == [] {
      l' := l;
      ReachesSelf(cfg, l);
    } else {
      var k := MessageArrived(l);
      LinkSafe(cfg, l);
      ReachesSelf(cfg, l);
      Go(cfg, l, l, k);
      l' := ArriveAll(cfg, k);
      ReachesTrans(cfg, l, k, l');
    }
  }

  // ---- serving ----

  /** The server waits, nothing is in flight towards the client, and not every message is served. */
  ghost predicate Serving(cfg: Config, l: Link)
    requires cfg.Valid()
  {
    Fine(cfg, l) && l.messages == [] && l.acks == [] && l.serving.Waiting?
  }

  /** One message polled, reposted and counted; the acknowledgement, if any, is in flight. */
  lemma ServeTurn(cfg: Config, l: Link) returns (l': Link)
    requires cfg.Valid() && Serving(cfg, l) && l.received != [] && l.Served(cfg) + 1 < cfg.iterations
    ensures Fine(cfg, l') && Reaches(cfg, l, l') && l'.messages == [] && l'.serving.Flush?
    ensures SameClient(l, l') && l'.ackReceives == l.ackReceives && l'.ackDone == l.ackDone
    ensures l'.Served(cfg) == l.Served(cfg) + 1 && |l'.received| == |l.received| - 1
    ensures if l.counter + 1 == cfg.Pack() then l'.counter == 0 && l'.acks == [cfg.Pack()]
            else l'.counter == l.counter + 1 && l'.acks == []
  {
    hide ClientInv, ChannelInv, Config.Slot;
    var a := ServerPolled(l);
    var b := ServerReposted(cfg, a);
    l' := ServerCounted(cfg, b);
    CountFits(cfg, l);
    ReachesSelf(cfg, l);
    ServeSteps(cfg, l, a, b, l');
  }

  lemma ServeSteps(cfg: Config, l: Link, a: Link, b: Link, c: Link)
    requires cfg.Valid() && Serving(cfg, l) && Reaches(cfg, l, l)
    requires ServerPoll(l, a) && ServerRepost(cfg, a, b) && ServerCount(cfg, b, c)
    ensures Fine(cfg, c) && Reaches(cfg, l, c)
  {
    hide LinkInv;
    Go(cfg, l, l, a);
    Go(cfg, l, a, b);
    Go(cfg, l, b, c);
  }

  lemma Resume(cfg: Config, l: Link) returns (l': Link)
    requires cfg.Valid() && Fine(cfg, l) && l.serving.Flush? && l.acks == [] && l.Served(cfg) < cfg.iterations
    ensures LinkInv(cfg, l') && Reaches(cfg, l, l') && l' == l.(serving := Waiting)
  {
    l' := l.(serving := Waiting);
    ReachesSelf(cfg, l);
    Go(cfg, l, l, l');
  }

  /** `m` messages counted without reaching the packing size. */
  lemma {:induction false} ServeQuietly(cfg: Config, l: Link, m: nat) returns (l': Link)
    requires cfg.Valid() && Serving(cfg, l) && m <= |l.received|
    requires l.counter + m < cfg.Pack() && l.Served(cfg) + m < cfg.iterations
    ensures Serving(cfg, l') && Reaches(cfg, l, l')
    ensures SameClient(l, l') && l'.ackReceives == l.ackReceives && l'.ackDone == l.ackDone
    ensures l'.Served(cfg) == l.Served(cfg) + m && |l'.received| == |l.received| - m && l'.counter == l.counter + m
  {
    if m == 0 {
      l' := l;
      ReachesSelf(cfg, l);
    } else {
      hide LinkInv, Reaches;
      var a := ServeQuietly(cfg, l, m - 1);
      var b := ServeTurn(cfg, a);
      l' := Resume(cfg, b);
      ReachesTrans(cfg, l, a, b);
      ReachesTrans(cfg, l, b, l');
    }
  }

  /** A full pack: one acknowledgement of the packing size arrives at the client. */
  lemma ServePack(cfg: Config, l: Link) returns (l': Link)
    requires cfg.Valid() && Serving(cfg, l) && l.counter == 0 && l.ackReceives > 0
    requires cfg.Pack() <= |l.received| && l.Served(cfg) + cfg.Pack() < cfg.iterations
    ensures Serving(cfg, l') && Reaches(cfg, l, l') && l'.counter == 0
    ensures SameClient(l, l') && l'.ackReceives == l.ackReceives - 1 && l'.ackDone == l.ackDone + [cfg.Pack()]
    ensures l'.Served(cfg) == l.Served(cfg) + cfg.Pack() && |l'.received| == |l.received| - cfg.Pack()
  {
    hide LinkInv, Reaches;
    PackRange(cfg);
    var a := ServeQuietly(cfg, l, cfg.Pack() - 1);
    var b := ServeTurn(cfg, a);
    var c := AckArrived(b);
    ReachesTrans(cfg, l, a, b);
    Go(cfg, l, b, c);
    l' := Resume(cfg, c);
    ReachesTrans(cfg, l, c, l');
  }

  // ---- rounds ----

  /** After `j` bursts that each polled one acknowledgement: the window is full
      and everything unacknowledged waits at the server. */
  ghost predicate AfterBursts(cfg: Config, l: Link, j: nat)
    requires cfg.Valid()
  {
    && Serving(cfg, l) && l.counter == 0 && l.phase.Polling? && l.ackDone == []
    && l.pending == cfg.window
    && l.Served(cfg) == (j - 1) * cfg.Pack()
    && l.ackCounter == (if j < cfg.Pack() then j else 0)
    && l.ackReceives == cfg.window - (j - 1)
    && l.offered == cfg.window
  }

  lemma AfterBurstsReceived(cfg: Config, l: Link, j: nat)
    requires cfg.Valid() && AfterBursts(cfg, l, j)
    ensures |l.received| == cfg.window && l.budget == cfg.iterations - cfg.window - (j - 1) * cfg.Pack()
  {
    assert Outstanding(l) == [];
  }

  lemma FirstBurst(cfg: Config) returns (l': Link)
    requires cfg.Valid() && cfg.Pack() >= 2 && cfg.iterations > cfg.window
    ensures Reaches(cfg, Start(cfg, 0), l') && AfterBursts(cfg, l', 1)
  {
    var l := Start(cfg, 0);
    StartInv(cfg, 0);
    ReachesSelf(cfg, l);
    var a := Visited(cfg, l);
    Go(cfg, l, l, a);
    l' := Burst(cfg, l, a, cfg.window);
  }

  /** A visit that has just begun: send `n`, deliver them, end the burst. */
  lemma Burst(cfg: Config, from: Link, l: Link, n: nat) returns (l': Link)
    requires cfg.Valid() && Serving(cfg, l) && Reaches(cfg, from, l)
    requires l.phase == FlowControl.Burst(0, n, l.budget, l.ackCounter) && 0 < n <= l.budget
    requires l.ackCounter == 0 ==> l.ackReceives + n <= cfg.window
    ensures Serving(cfg, l') && Reaches(cfg, from, l') && l'.phase.Polling?
    ensures SameServer(l, l') && l'.ackDone == l.ackDone
    ensures l'.budget == l.budget - n && l'.pending == l.pending + n && l'.credits == l.credits
    ensures l'.ackReceives == l.ackReceives + if l.ackCounter == 0 then n else 0
    ensures l'.offered == l.offered + if l.ackCounter == 0 then n else 0
    ensures l'.ackCounter == if l.ackCounter + 1 < cfg.Pack() then l.ackCounter + 1 else 0
  {
    hide LinkInv, Reaches;
    var a := SendMany(cfg, l, n);
    var b := ArriveAll(cfg, a);
    l' := BurstEnded(b);
    ReachesTrans(cfg, from, l, a);
    ReachesTrans(cfg, from, a, b);
    Go(cfg, from, b, l');
  }

  /** Polls every arrived acknowledgement and starts the next visit. */
  lemma {:induction false} PollAll(cfg: Config, from: Link, l: Link, k: nat) returns (l': Link)
    requires cfg.Valid() && Serving(cfg, l) && Reaches(cfg, from, l) && l.phase.Polling?
    requires |l.ackDone| == k && forall i :: 0 <= i < k ==> l.ackDone[i] == cfg.Pack()
    requires l.pending - k * cfg.Pack() < cfg.window && l.budget > 0
    requires 0 <= l.pending - k * cfg.Pack()
    ensures Serving(cfg, l') && Reaches(cfg, from, l') && SameServer(l, l') && l'.ackDone == []
    ensures l'.pending == l.pending - k * cfg.Pack() && l'.budget == l.budget
    ensures l'.phase == FlowControl.Burst(0, Min(cfg.window - l'.pending, l.budget), l.budget, l.ackCounter)
    ensures l'.ackCounter == l.ackCounter && l'.ackReceives == l.ackReceives && l'.credits == l.credits + k
    ensures l'.offered == l.offered
    decreases k
  {
    hide LinkInv, Reaches, Config.Pack;
    if k == 0 {
      var a := l.(phase := Idle);
      Go(cfg, from, l, a);
      l' := Visited(cfg, a);
      Go(cfg, from, a, l');
    } else {
      assert k * cfg.Pack() == (k - 1) * cfg.Pack() + cfg.Pack();
      assert (k - 1) * cfg.Pack() >= 0;
      var a := AckPolled(l);
      assert l.ackDone[0] == cfg.Pack() <= l.pending;
      assert forall i :: 0 <= i < |a.ackDone| ==> a.ackDone[i] == l.ackDone[i + 1];
      Go(cfg, from, l, a);
      l' := PollAll(cfg, from, a, k - 1);
    }
  }

  lemma NextBurst(cfg: Config, l: Link, j: nat) returns (l': Link)
    requires cfg.Valid() && cfg.Pack() >= 2 && 1 <= j < cfg.Pack() && AfterBursts(cfg, l, j)
    requires cfg.iterations > cfg.window + (cfg.Pack() - 1) * cfg.Pack()
    ensures Reaches(cfg, l, l') && AfterBursts(cfg, l', j + 1)
  {
    hide LinkInv, Reaches;
    PackRange(cfg);
    AfterBurstsReceived(cfg, l, j);
    Scale(j, cfg.Pack() - 1, cfg.Pack());
    assert j * cfg.Pack() == (j - 1) * cfg.Pack() + cfg.Pack();
    var a := ServePack(cfg, l);
    assert 1 * cfg.Pack() == cfg.Pack();
    var b := PollAll(cfg, l, a, 1);
    l' := Burst(cfg, l, b, cfg.Pack());
  }

  lemma {:induction false} ManyBursts(cfg: Config, j: nat) returns (l': Link)
    requires cfg.Valid() && cfg.Pack() >= 2 && 1 <= j <= cfg.Pack()
    requires cfg.iterations > cfg.window + (cfg.Pack() - 1) * cfg.Pack()
    ensures Reaches(cfg, Start(cfg, 0), l') && AfterBursts(cfg, l', j)
  {
    hide LinkInv, Config.Pack, Reaches, AfterBursts;
    assert (cfg.Pack() - 1) * cfg.Pack() >= 0;
    if j == 1 {
      l' := FirstBurst(cfg);
    } else {
      var l := ManyBursts(cfg, j - 1);
      l' := NextBurst(cfg, l, j - 1);
      ReachesTrans(cfg, Start(cfg, 0), l, l');
    }
  }

  /** The burst after `Pack` bursts posts again while too many receives are still unused. */
  lemma Overflow(cfg: Config) returns (l': Link)
    requires cfg.Valid() && cfg.Pack() >= 2
    requires cfg.iterations >= cfg.window + cfg.Pack() * cfg.Pack() + 2
    ensures Reaches(cfg, Start(cfg, 0), l') && l'.failure == {TooManyReceives}
  {
    hide LinkInv, Reaches;
    PackRange(cfg);
    var p := cfg.Pack();
    var l := ManyBursts(cfg, p);
    AfterBurstsReceived(cfg, l, p);
    assert (p - 1) * p == p * p - p;
    Scale(1, p, p);
    var a := ServePack(cfg, l);
    var b := ServePack(cfg, a);
    ReachesTrans(cfg, l, a, b);
    ReachesTrans(cfg, Start(cfg, 0), l, b);
    assert 2 * p == p + p;
    var c := PollAll(cfg, Start(cfg, 0), b, 2);
    var d := SendMany(cfg, c, p + 1);
    ReachesTrans(cfg, Start(cfg, 0), c, d);
    l' := SentOne(cfg, d);
    Go(cfg, Start(cfg, 0), d, l');
  }

  /** Too many receives from before: the first burst alone overfills the queue. */
  lemma EarlyOverflow(cfg: Config, held: nat) returns (l': Link)
    requires cfg.Valid() && held + Min(cfg.window, cfg.iterations) > cfg.window
    ensures Reaches(cfg, Start(cfg, held), l') && l'.failure == {TooManyReceives}
  {
    hide LinkInv, Reaches;
    var s := Start(cfg, held);
    StartInv(cfg, held);
    ReachesSelf(cfg, s);
    var a := Visited(cfg, s);
    Go(cfg, s, s, a);
    var room := if held < cfg.window then cfg.window - held else 0;
    var b := SendManyFrom(cfg, s, a, room);
    l' := SentOne(cfg, b);
    Go(cfg, s, b, l');
  }

  lemma SendManyFrom(cfg: Config, from: Link, l: Link, m: nat) returns (l': Link)
    requires cfg.Valid() && Fine(cfg, l) && Reaches(cfg, from, l)
    requires l.phase.Burst? && l.phase.i + m <= l.phase.n && l.phase.counter == 0
    requires m > 0 ==> l.ackReceives + m <= cfg.window
    ensures Fine(cfg, l') && Reaches(cfg, from, l')
    ensures l'.phase == l.phase.(i := l.phase.i + m) && l'.ackReceives == l.ackReceives + m
  {
    hide LinkInv, Reaches;
    if m == 0 {
      l' := l;
    } else {
      l' := SendMany(cfg, l, m);
      ReachesTrans(cfg, from, l, l');
    }
  }

  /** The burst after `Pack` bursts posts beyond the window, if only one
      acknowledgement was polled before each. */
  lemma SecondRound(cfg: Config) returns (l': Link)
    requires cfg.Valid() && cfg.Pack() >= 2
    requires cfg.iterations > cfg.window + (cfg.Pack() - 1) * cfg.Pack()
    ensures Reaches(cfg, Start(cfg, 0), l') && !l'.Closed()
    ensures l'.offered == cfg.window + Min(cfg.Pack(), cfg.iterations - cfg.window - (cfg.Pack() - 1) * cfg.Pack())
  {
    hide LinkInv, Reaches;
    PackRange(cfg);
    var p := cfg.Pack();
    var l := ManyBursts(cfg, p);
    AfterBurstsReceived(cfg, l, p);
    var a := ServePack(cfg, l);
    ReachesTrans(cfg, Start(cfg, 0), l, a);
    assert 1 * p == p;
    var b := PollAll(cfg, Start(cfg, 0), a, 1);
    l' := SendMany(cfg, b, b.phase.n);
    ReachesTrans(cfg, Start(cfg, 0), b, l');
  }

  // ---- the exact condition ----

  lemma {:induction false} PathAcks(cfg: Config, held: nat, run: seq<Link>, k: nat)
    requires cfg.Valid() && FitFrom(cfg, held) && IsLinkPath(cfg, run) && run[0] == Start(cfg, held) && k < |run|
    ensures LinkInv(cfg, run[k]) && AckInv(cfg, held, run[k]) && run[k].failure == {}
  {
    hide LinkInv, AckInv, FitFrom, LinkStep;
    if k == 0 {
      StartInv(cfg, held);
      StartAcks(cfg, held);
    } else {
      PathAcks(cfg, held, run, k - 1);
      assert LinkStep(cfg, run[k - 1], run[k - 1 + 1]);
      StepAcks(cfg, held, run[k - 1], run[k]);
      LinkStepInv(cfg, run[k - 1], run[k]);
    }
  }

  /** Every failing schedule, whatever the reason the condition fails for. */
  lemma Fails(cfg: Config, held: nat) returns (l: Link)
    requires cfg.Valid() && !FitFrom(cfg, held)
    ensures Reaches(cfg, Start(cfg, held), l) && l.failure == {TooManyReceives}
  {
    PackRange(cfg);
    if held + Min(cfg.window, cfg.iterations) > cfg.window {
      l := EarlyOverflow(cfg, held);
    } else {
      assert cfg.Pack() * cfg.Pack() >= 0;
      l := Overflow(cfg);
    }
  }

  /** Exactly when no schedule of a connection ever fails: every acknowledgement
      finds a receive and the receive queue never overflows. */
  lemma AcksSafeIff(cfg: Config, held: nat)
    requires cfg.Valid()
    ensures (forall l :: Reaches(cfg, Start(cfg, held), l) ==> l.failure == {}) <==> FitFrom(cfg, held)
  {
    if FitFrom(cfg, held) {
      forall l | Reaches(cfg, Start(cfg, held), l) ensures l.failure == {} {
        var run :| IsLinkPath(cfg, run) && run[0] == Start(cfg, held) && run[|run| - 1] == l;
        PathAcks(cfg, held, run, |run| - 1);
      }
    } else {
      var l := Fails(cfg, held);
    }
  }

  /** And then the client never holds more receives it has not polled than the window. */
  lemma HeldWhenFit(cfg: Config, held: nat, l: Link)
    requires cfg.Valid() && FitFrom(cfg, held) && Reaches(cfg, Start(cfg, held), l)
    ensures l.offered - l.credits <= cfg.window && |l.acks| <= l.ackReceives
  {
    var run :| IsLinkPath(cfg, run) && run[0] == Start(cfg, held) && run[|run| - 1] == l;
    PathAcks(cfg, held, run, |run| - 1);
    HeldAtMost(cfg, held, l);
    ReceivesSuffice(cfg, held, l);
  }
}
