/** What waiting for completions and blocking polls keep off the wire. The last
    message of a burst and every acknowledgement are signaled, so their senders
    wait for them to arrive, and the client waits at a full window. */
module FlowWire {
  import opened FlowControl
  import opened FlowSlots
  import opened FlowRun

  ghost predicate WireInv(cfg: Config, l: Link) {
    && (!l.phase.Polling? ==> l.pending < cfg.window)
    && |l.messages| <= (if l.phase.Burst? then l.phase.i else 0)
    && |l.acks| <= (if l.serving.Flush? then 1 else 0)
  }

  lemma StartWire(cfg: Config, held: nat)
    requires cfg.Valid()
    ensures WireInv(cfg, Start(cfg, held))
  {
  }

  lemma ClientWire(cfg: Config, l: Link, l': Link)
    requires cfg.Valid() && ClientInv(cfg, l) && WireInv(cfg, l) && ClientStep(cfg, l, l')
    ensures WireInv(cfg, l')
  {
    hide Config.Pack, Config.Slot;
  }

  lemma OtherWire(cfg: Config, l: Link, l': Link)
    requires cfg.Valid() && WireInv(cfg, l) && OtherStep(cfg, l, l')
    ensures WireInv(cfg, l')
  {
    hide Config.Pack, Config.Slot;
  }

  ghost predicate AllWire(cfg: Config, s: State) {
    forall j :: 0 <= j < |s.links| ==> WireInv(cfg, s.links[j])
  }

  lemma StepWire(cfg: Config, s: State, s': State)
    requires cfg.Valid() && Inv(cfg, s) && AllWire(cfg, s) && Step(cfg, s, s')
    ensures AllWire(cfg, s')
  {
    hide ServerInv, ChannelInv, SlotInv, WireInv, ClientInv, Visit, Send, BurstEnd, PollAck, PollNothing, OtherStep;
    if ClientMoves(cfg, s, s') {
      var l' :| ClientMove(cfg, s, s', l');
      if l' != s.links[s.cur] {
        ClientWire(cfg, s.links[s.cur], l');
      }
    } else {
      var j: nat, l' :| OtherMove(cfg, s, s', j, l');
      OtherWire(cfg, s.links[j], l');
    }
  }

  lemma {:induction false} PathWire(cfg: Config, run: seq<State>, k: nat)
    requires cfg.Valid() && IsPath(cfg, run) && Inv(cfg, run[0]) && AllWire(cfg, run[0]) && k < |run|
    ensures AllWire(cfg, run[k])
  {
    if k > 0 {
      hide Inv, AllWire, Step;
      PathWire(cfg, run, k - 1);
      PathInv(cfg, run, k - 1);
      assert Step(cfg, run[k - 1], run[k - 1 + 1]);
      StepWire(cfg, run[k - 1], run[k]);
    }
  }

  lemma RunWire(cfg: Config, held: seq<nat>, run: seq<State>, k: nat, j: nat)
    requires cfg.Valid() && held != [] && IsRun(cfg, held, run) && k < |run| && j < |run[k].links|
    ensures WireInv(cfg, run[k].links[j]) && LinkInv(cfg, run[k].links[j])
  {
    hide LinkInv, SlotInv, Step, WireInv, Start;
    InitInv(cfg, held);
    forall i | 0 <= i < |held| ensures WireInv(cfg, Start(cfg, held[i])) {
      StartWire(cfg, held[i]);
    }
    PathWire(cfg, run, k);
    PathInv(cfg, run, k);
  }

  /** The client leaves a connection only with room in its window, and so every
      burst on a connection with budget left sends at least one message. */
  lemma IdleHasRoom(cfg: Config, held: seq<nat>, run: seq<State>, k: nat, j: nat)
    requires cfg.Valid() && held != [] && IsRun(cfg, held, run) && k < |run| && j < |run[k].links|
    ensures var l := run[k].links[j];
            && (l.phase.Idle? ==> l.pending < cfg.window)
            && (l.phase.Burst? && l.budget > 0 ==> l.phase.n > 0)
  {
    RunWire(cfg, held, run, k, j);
    hide Step, Init;
  }

  /** Outside its burst no message of a connection is on the wire, and at most one
      acknowledgement is, while the server waits for it to arrive. */
  lemma WireIsWaitedFor(cfg: Config, held: seq<nat>, run: seq<State>, k: nat, j: nat)
    requires cfg.Valid() && held != [] && IsRun(cfg, held, run) && k < |run| && j < |run[k].links|
    ensures var l := run[k].links[j];
            && (l.messages != [] ==> l.phase.Burst? && |l.messages| <= l.phase.i)
            && (l.acks != [] ==> l.serving.Flush? && |l.acks| == 1)
  {
    RunWire(cfg, held, run, k, j);
    hide Step, Init, LinkInv;
  }
}
