/** Where the barrier fails: a client whose message is faster than the server's
    receive breaks its queue pair, and with it the barrier for everybody. */
module BarrierFailure {
  import opened Barrier

  /** A client sends its message of a round to a server that has not posted the
      receive of that round for it yet. */
  ghost predicate SentTooEarly(cfg: Config, st: State, st': State)
    requires Sized(cfg, st)
  {
    exists c: nat, s: nat :: Outruns(cfg, st, c, s) && st' == Apply(cfg, st, ClientStep(c, s))
  }

  ghost predicate Outruns(cfg: Config, st: State, c: nat, s: nat)
    requires Sized(cfg, st)
  {
    && Enabled(cfg, st, ClientStep(c, s)) && st.clients[c].phase == 1
    && st.servers[s].Done(0, c) <= st.clients[c].round
  }

  /** The receive a send finds is that of its own round, so the two notions agree. */
  lemma EarlyIffOutruns(cfg: Config, st: State, c: nat, s: nat)
    requires Inv(cfg, st) && Enabled(cfg, st, ClientStep(c, s))
    ensures Early(cfg, st, ClientStep(c, s)) <==> Outruns(cfg, st, c, s)
  {
    Linked(cfg, st, c, s);
    hide Inv, LinksInv;
  }

  lemma StepBreaks(cfg: Config, st: State, st': State)
    requires Inv(cfg, st) && Step(cfg, st, st')
    ensures st.broken <= st'.broken
    ensures st'.broken == st.broken <==> !SentTooEarly(cfg, st, st')
  {
    hide Inv;
    SizedInv(cfg, st);
    var e :| Enabled(cfg, st, e) && st' == Apply(cfg, st, e);
    if Early(cfg, st, e) {
      EarlyIffOutruns(cfg, st, e.c, e.s);
      assert (e.c, e.s) in st'.broken;
    }
    if SentTooEarly(cfg, st, st') {
      var c: nat, s: nat :| Outruns(cfg, st, c, s) && st' == Apply(cfg, st, ClientStep(c, s));
      OutrunsEnabled(cfg, st, c, s);
      EarlyIffOutruns(cfg, st, c, s);
      assert (c, s) in st'.broken;
    }
  }

  lemma SizedInv(cfg: Config, st: State)
    requires Inv(cfg, st)
    ensures Sized(cfg, st)
  {
  }

  lemma OutrunsEnabled(cfg: Config, st: State, c: nat, s: nat)
    requires Sized(cfg, st) && Outruns(cfg, st, c, s)
    ensures Enabled(cfg, st, ClientStep(c, s)) && (c, s) !in st.broken
  {
  }

  /** A run breaks nothing exactly when in none of its steps a client's message of a
      round is sent before the server has posted the receive of that round. */
  lemma {:induction false} UnbrokenIff(cfg: Config, run: seq<State>, k: nat)
    requires cfg.Valid() && IsRun(cfg, run) && k < |run|
    ensures run[k].broken == {} <==> forall i :: 0 <= i < k ==> !SentTooEarly(cfg, run[i], run[i + 1])
  {
    hide Step, SentTooEarly, Inv;
    if k > 0 {
      UnbrokenIff(cfg, run, k - 1);
      RunInv(cfg, run, k - 1);
      assert Step(cfg, run[k - 1], run[k - 1 + 1]);
      StepBreaks(cfg, run[k - 1], run[k]);
    }
  }

  // ---- one early message closes the barrier for good ----

  /** A client whose pair to a server is broken never counts as through to it again. */
  lemma StaysBroken(cfg: Config, st: State, st': State, c: nat, s: nat)
    requires Inv(cfg, st) && Step(cfg, st, st') && (c, s) in st.broken && c < cfg.clients && s < cfg.servers
    ensures (c, s) in st'.broken && |st'.clients| == cfg.clients
    ensures st'.clients[c].Done(1, s) == st.clients[c].Done(1, s)
  {
    hide LinksInv, Proc.Done, Proc.Advance, Proc.InCall;
    var e :| Enabled(cfg, st, e) && st' == Apply(cfg, st, e);
    if e.ClientStep? && e.c == c && !Early(cfg, st, e) {
      InCallValid(st.clients[c], cfg.servers, cfg.rounds);
      AdvanceDone(st.clients[c], e.s, cfg.servers);
      assert st'.clients[c].Done(1, s) == st.clients[c].Done(1, s);
    }
  }

  lemma {:induction false} BrokenOnward(cfg: Config, run: seq<State>, i: nat, k: nat, c: nat, s: nat)
    requires cfg.Valid() && IsRun(cfg, run) && i <= k < |run|
    requires c < cfg.clients && s < cfg.servers && (c, s) in run[i].broken
    ensures (c, s) in run[k].broken && run[k].clients[c].Done(1, s) == run[i].clients[c].Done(1, s)
    decreases k
  {
    hide Step, Inv, Proc.Done;
    if i < k {
      BrokenOnward(cfg, run, i, k - 1, c, s);
      RunInv(cfg, run, k - 1);
      assert Step(cfg, run[k - 1], run[k - 1 + 1]);
      StaysBroken(cfg, run[k - 1], run[k], c, s);
    }
  }

  /** After an early message in round `r` no client ever leaves that round. */
  lemma NobodyPasses(cfg: Config, run: seq<State>, i: nat, k: nat, c: nat, s: nat, d: nat)
    requires cfg.Valid() && IsRun(cfg, run) && i <= k < |run|
    requires c < cfg.clients && s < cfg.servers && d < cfg.clients && (c, s) in run[i].broken
    ensures run[k].clients[d].round <= run[i].clients[c].Done(1, s)
  {
    BrokenOnward(cfg, run, i, k, c, s);
    var r := run[i].clients[c].Done(1, s);
    if run[k].clients[d].round > r {
      BarrierHolds(cfg, run, k, r, d, c, s);
    }
  }

  // ---- nothing in the program rules it out ----

  ghost predicate EndsIn(cfg: Config, run: seq<State>, st: State) {
    IsRun(cfg, run) && run[|run| - 1] == st
  }

  lemma Extend(cfg: Config, run: seq<State>, st: State, e: Event) returns (run': seq<State>)
    requires EndsIn(cfg, run, st) && Sized(cfg, st) && Enabled(cfg, st, e)
    ensures EndsIn(cfg, run', Apply(cfg, st, e)) && Sized(cfg, Apply(cfg, st, e))
  {
    hide Enabled, Init;
    var st' := Apply(cfg, st, e);
    KeepsSize(cfg, st, e);
    assert Step(cfg, st, st');
    hide Apply, Step, Sized;
    run' := run + [st'];
    forall i | 0 <= i < |run'| - 1 ensures Step(cfg, run'[i], run'[i + 1]) {
      assert i < |run| - 1 ==> Step(cfg, run[i], run[i + 1]);
    }
  }

  lemma KeepsSize(cfg: Config, st: State, e: Event)
    requires Sized(cfg, st) && Enabled(cfg, st, e)
    ensures Sized(cfg, Apply(cfg, st, e))
  {
  }

  lemma AtRest(cfg: Config) returns (st: State)
    ensures Init(cfg, st)
  {
    st := State(seq(cfg.clients, _ => Proc(0, 0, Partners(cfg.servers))),
                seq(cfg.servers, _ => Proc(0, 0, Partners(cfg.clients))),
                map p | p in Pairs(cfg.clients, cfg.servers) :: Link(0, [], 0, []), {}, {});
  }

  /** Only client 0 has done anything, and nothing has been sent. */
  ghost predicate FirstClientOnly(cfg: Config, st: State) {
    && Sized(cfg, st) && st.broken == {} && cfg.Valid()
    && st.clients[0].round == 0 && st.clients[0].phase <= 1 && st.clients[0].Valid(cfg.servers)
    && forall s :: 0 <= s < cfg.servers ==> st.servers[s] == Proc(0, 0, Partners(cfg.clients))
  }

  lemma {:induction false} ConnectAll(cfg: Config, st0: State, n: nat) returns (run: seq<State>, st: State)
    requires cfg.Valid() && Init(cfg, st0) && n <= cfg.servers
    ensures EndsIn(cfg, run, st) && FirstClientOnly(cfg, st)
    ensures st.clients[0] == Proc(0, 0, Partners(cfg.servers))
    ensures forall s: nat :: s < cfg.servers ==> ((0, s) in st.connected <==> s < n)
  {
    if n == 0 {
      assert 0 in Partners(cfg.servers);
      run, st := [st0], st0;
    } else {
      run, st := ConnectAll(cfg, st0, n - 1);
      var e := Connect(0, n - 1);
      run := Extend(cfg, run, st, e);
      st := Apply(cfg, st, e);
    }
  }

  /** Posts the receives that are missing; the last of them brings the client to sending. */
  lemma {:induction false} PostAll(cfg: Config, run: seq<State>, st: State) returns (run': seq<State>, st': State)
    requires cfg.rounds > 0 && EndsIn(cfg, run, st) && FirstClientOnly(cfg, st)
    requires forall s: nat :: s < cfg.servers ==> (0, s) in st.connected
    ensures EndsIn(cfg, run', st') && FirstClientOnly(cfg, st') && st'.clients[0].phase == 1
    decreases if st.clients[0].phase == 0 then |st.clients[0].todo| else 0
  {
    if st.clients[0].phase == 1 {
      run', st' := run, st;
    } else {
      var p := st.clients[0];
      var s :| s in p.todo;
      assert s in Partners(cfg.servers);
      var e := ClientStep(0, s);
      var r := Extend(cfg, run, st, e);
      var t := Apply(cfg, st, e);
      AdvanceDone(p, s, cfg.servers);
      run', st' := PostAll(cfg, r, t);
    }
  }

  /** For all numbers of clients and servers there is a run that breaks a queue pair
      in its first round: the first client connects, posts and sends before any
      server has posted. */
  lemma FailingRun(cfg: Config) returns (run: seq<State>)
    requires cfg.Valid() && cfg.rounds > 0
    ensures IsRun(cfg, run) && run[|run| - 1].broken != {}
  {
    hide Init, Step, Apply, FirstClientOnly, Enabled;
    var st0 := AtRest(cfg);
    var st;
    run, st := ConnectAll(cfg, st0, cfg.servers);
    run, st := PostAll(cfg, run, st);
    RunInv(cfg, run, |run| - 1);
    var s := SomeTodo(cfg, st);
    hide Inv;
    run := Extend(cfg, run, st, ClientStep(0, s));
    BreaksPair(cfg, st, s);
  }

  lemma SomeTodo(cfg: Config, st: State) returns (s: nat)
    requires FirstClientOnly(cfg, st) && st.clients[0].phase == 1 && cfg.rounds > 0
    ensures Enabled(cfg, st, ClientStep(0, s)) && s < cfg.servers
  {
    s :| s in st.clients[0].todo;
    assert s in Partners(cfg.servers);
  }

  lemma BreaksPair(cfg: Config, st: State, s: nat)
    requires Inv(cfg, st) && FirstClientOnly(cfg, st) && st.clients[0].phase == 1
    requires Enabled(cfg, st, ClientStep(0, s))
    ensures Apply(cfg, st, ClientStep(0, s)).broken != {}
  {
    hide Inv;
    assert 0 in Partners(cfg.clients);
    EarlyIffOutruns(cfg, st, 0, s);
    assert (0, s) in Apply(cfg, st, ClientStep(0, s)).broken;
  }
}
