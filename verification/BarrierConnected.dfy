/** The barrier uses a connection only once it exists: a server posts only for
    clients it finds connected, a client starts only when connected everywhere. */
module BarrierConnected {
  import opened Barrier

  ghost predicate ConnInv(cfg: Config, st: State)
    requires Sized(cfg, st)
  {
    && (forall c: nat, s: nat, t: nat :: c < cfg.clients && s < cfg.servers && t < cfg.servers ==>
                                           st.clients[c].Done(0, s) > 0 ==> (c, t) in st.connected)
    && (forall c: nat, s: nat :: c < cfg.clients && s < cfg.servers ==>
                                   st.servers[s].Done(0, c) > 0 ==> (c, s) in st.connected)
  }

  lemma ClientStepConn(cfg: Config, st: State, c: nat, s: nat)
    requires Inv(cfg, st) && ConnInv(cfg, st) && InTime(cfg, st, ClientStep(c, s))
    ensures Sized(cfg, Apply(cfg, st, ClientStep(c, s))) && ConnInv(cfg, Apply(cfg, st, ClientStep(c, s)))
  {
    hide LinksInv, Proc.InCall, Proc.Advance, ConnectedInRange, Link.Client;
    var st' := Apply(cfg, st, ClientStep(c, s));
    var p := st.clients[c];
    InCallValid(p, cfg.servers, cfg.rounds);
    AdvanceDone(p, s, cfg.servers);
    forall t: nat, u: nat | t < cfg.servers && u < cfg.servers && st'.clients[c].Done(0, t) > 0
      ensures (c, u) in st.connected
    {
      if p.phase > 0 {
        assert p.Done(0, t) > 0;
      }
    }
  }

  lemma ServerStepConn(cfg: Config, st: State, c: nat, s: nat)
    requires Inv(cfg, st) && ConnInv(cfg, st) && Enabled(cfg, st, ServerStep(c, s))
    ensures Sized(cfg, Apply(cfg, st, ServerStep(c, s))) && ConnInv(cfg, Apply(cfg, st, ServerStep(c, s)))
  {
    hide LinksInv, Proc.InCall, Proc.Advance, ConnectedInRange, Link.Server;
    var p := st.servers[s];
    InCallValid(p, cfg.clients, cfg.rounds);
    AdvanceDone(p, c, cfg.clients);
  }

  lemma StepConn(cfg: Config, st: State, st': State)
    requires Inv(cfg, st) && ConnInv(cfg, st) && Step(cfg, st, st')
    ensures Sized(cfg, st') && ConnInv(cfg, st')
  {
    hide LinksInv, Proc.Done;
    var e :| Enabled(cfg, st, e) && st' == Apply(cfg, st, e);
    if !Early(cfg, st, e) {
      match e
      case Connect(_, _) =>
      case ClientStep(c, s) => ClientStepConn(cfg, st, c, s);
      case ServerStep(c, s) => ServerStepConn(cfg, st, c, s);
    }
  }

  lemma InitConn(cfg: Config, st: State)
    requires Init(cfg, st)
    ensures ConnInv(cfg, st)
  {
  }

  lemma {:induction false} RunConn(cfg: Config, run: seq<State>, i: nat)
    requires cfg.Valid() && IsRun(cfg, run) && i < |run|
    ensures ConnInv(cfg, run[i])
  {
    hide Inv, Step, Init, ConnInv;
    if i == 0 {
      InitConn(cfg, run[0]);
    } else {
      RunConn(cfg, run, i - 1);
      RunInv(cfg, run, i - 1);
      assert Step(cfg, run[i - 1], run[i - 1 + 1]);
      StepConn(cfg, run[i - 1], run[i]);
    }
  }

  /** In every state of every run: whatever a connection holds, and whatever either
      end has done on it, the connection exists. */
  lemma UsedIsConnected(cfg: Config, run: seq<State>, i: nat, c: nat, s: nat)
    requires cfg.Valid() && IsRun(cfg, run) && i < |run| && c < cfg.clients && s < cfg.servers
    ensures var st := run[i];
            && (st.links[(c, s)] != Link(0, [], 0, []) ==> (c, s) in st.connected)
            && (st.clients[c].Done(0, s) > 0 ==> (c, s) in st.connected)
            && (st.servers[s].Done(0, c) > 0 ==> (c, s) in st.connected)
  {
    RunInv(cfg, run, i);
    RunConn(cfg, run, i);
    hide Step, Init, IsRun;
    Linked(cfg, run[i], c, s);
    NothingDone(run[i].links[(c, s)], run[i].clients[c], run[i].servers[s], c, s);
  }

  lemma NothingDone(l: Link, cl: Proc, sv: Proc, c: nat, s: nat)
    requires LinkInv(l, cl, sv, c, s)
    ensures cl.Done(0, s) == 0 && sv.Done(0, c) == 0 ==> l == Link(0, [], 0, [])
  {
    assert cl.Done(1, s) <= cl.Done(0, s) && cl.Done(2, s) <= cl.Done(1, s);
    assert sv.Done(1, c) <= sv.Done(0, c) && sv.Done(2, c) <= sv.Done(1, c);
  }

  /** A server waits for messages only after all its clients have connected to it,
      and a client posts its first receive only after it has connected to all servers. */
  lemma StartsConnected(cfg: Config, run: seq<State>, i: nat, c: nat, s: nat, t: nat)
    requires cfg.Valid() && IsRun(cfg, run) && i < |run|
    requires c < cfg.clients && s < cfg.servers && t < cfg.servers
    ensures run[i].servers[s].phase > 0 || run[i].servers[s].round > 0 ==> (c, s) in run[i].connected
    ensures run[i].clients[c].Done(0, t) > 0 ==> (c, s) in run[i].connected
  {
    RunConn(cfg, run, i);
    hide Step, Init;
    assert run[i].servers[s].phase > 0 || run[i].servers[s].round > 0 ==> run[i].servers[s].Done(0, c) > 0;
  }
}
