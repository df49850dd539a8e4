/** Receives for acknowledgements when some are left over from an earlier
    operation on the same queue pair. Then there is room for one burst at most,
    and the run must fit into it. */
module FlowHeld {
  import opened Arithmetic
  import opened FlowControl
  import opened FlowAcks

  /** The first burst must fit beside the receives found, and the later ones too. */
  ghost predicate FitFrom(cfg: Config, held: nat) {
    held + Min(cfg.window, cfg.iterations) <= cfg.window && AcksFit(cfg)
  }

  /** The whole run is one burst, and every message of it posts a receive. */
  ghost predicate OneBurst(cfg: Config, held: nat) { held + cfg.iterations <= cfg.window }

  ghost predicate BurstOnce(cfg: Config, held: nat, l: Link) {
    && l.offered == held + l.Sent(cfg)
    && (l.budget == 0 || l.budget == cfg.iterations)
    && (l.budget > 0 && !Sending(l) ==> l.ackCounter == 0)
    && (l.budget > 0 && l.phase.Burst? ==> l.phase.counter == 0)
  }

  ghost predicate AckInv(cfg: Config, held: nat, l: Link) {
    if OneBurst(cfg, held) then CreditInv(cfg, l) && BurstOnce(cfg, held, l) else FreshInv(cfg, l)
  }

  lemma LongRunsStartFresh(cfg: Config, held: nat)
    requires FitFrom(cfg, held) && !OneBurst(cfg, held)
    ensures held == 0 && cfg.iterations > cfg.window
  {
  }

  lemma StartAcks(cfg: Config, held: nat)
    requires cfg.Valid() && FitFrom(cfg, held)
    ensures AckInv(cfg, held, Start(cfg, held))
  {
    StartCredit(cfg, held);
    if !OneBurst(cfg, held) {
      StartFresh(cfg);
    }
  }

  lemma SendOnce(cfg: Config, held: nat, l: Link, l': Link)
    requires cfg.Valid() && OneBurst(cfg, held) && LinkInv(cfg, l) && CreditInv(cfg, l) && BurstOnce(cfg, held, l)
    requires l.failure == {} && Send(cfg, l, l')
    ensures l'.failure == {} && BurstOnce(cfg, held, l')
  {
    hide ServerInv, ChannelInv, FullAcks, Adds, Config.Pack;
  }

  lemma OtherOnce(cfg: Config, held: nat, l: Link, l': Link)
    requires cfg.Valid() && OneBurst(cfg, held) && ClientInv(cfg, l) && BurstOnce(cfg, held, l)
    requires LinkStep(cfg, l, l') && !Send(cfg, l, l')
    ensures BurstOnce(cfg, held, l')
  {
    NotSend(cfg, l, l');
    BudgetOnce(cfg, l, l');
    hide LinkStep, Send, Config.Pack;
  }

  /** A burst of everything leaves nothing to send. */
  lemma BudgetOnce(cfg: Config, l: Link, l': Link)
    requires cfg.Valid() && cfg.iterations <= cfg.window && ClientInv(cfg, l) && LinkStep(cfg, l, l')
    requires l.budget == 0 || l.budget == cfg.iterations
    ensures l'.budget == 0 || (l'.budget == l.budget == cfg.iterations && (Sending(l') || !Sending(l)))
  {
    hide Config.Pack, Config.Slot;
  }

  lemma CountAtMostSent(cfg: Config, l: Link)
    requires cfg.Valid() && LinkInv(cfg, l) && CreditInv(cfg, l)
    ensures AcksSent(l) <= l.Sent(cfg)
  {
    PackRange(cfg);
    LinkSafe(cfg, l);
    assert Emitted(cfg, l) <= l.Served(cfg);
    if AcksSent(l) > 0 {
      CountAtMost(AcksSent(l), cfg.Pack(), Emitted(cfg, l));
    }
  }

  /** There is a receive for every acknowledgement ever sent. */
  lemma ReceivesSuffice(cfg: Config, held: nat, l: Link)
    requires cfg.Valid() && FitFrom(cfg, held) && LinkInv(cfg, l) && AckInv(cfg, held, l)
    ensures CreditInv(cfg, l) && AcksSent(l) <= l.offered
  {
    if OneBurst(cfg, held) {
      CountAtMostSent(cfg, l);
    } else {
      EnoughOffered(cfg, l);
    }
  }

  lemma StepAcks(cfg: Config, held: nat, l: Link, l': Link)
    requires cfg.Valid() && FitFrom(cfg, held) && LinkInv(cfg, l) && AckInv(cfg, held, l) && LinkStep(cfg, l, l')
    ensures l'.failure == {} && AckInv(cfg, held, l')
  {
    hide LinkInv, CreditInv, BurstOnce, LinkStep, FreshInv, Send;
    if OneBurst(cfg, held) {
      FineBefore(cfg, l, l');
      LinkStepInv(cfg, l, l');
      if Send(cfg, l, l') {
        SendOnce(cfg, held, l, l');
      } else {
        ReceivesSuffice(cfg, held, l);
        NoFailure(cfg, l, l');
        ClientPart(cfg, l);
        OtherOnce(cfg, held, l, l');
      }
      StepCredit(cfg, l, l');
    } else {
      StepFresh(cfg, l, l');
    }
  }

  lemma FineBefore(cfg: Config, l: Link, l': Link)
    requires cfg.Valid() && LinkStep(cfg, l, l')
    ensures l.failure == {}
  {
  }

  lemma ClientPart(cfg: Config, l: Link)
    requires LinkInv(cfg, l)
    ensures ClientInv(cfg, l)
  {
  }

  /** The client never holds more than a window of receives that it has not polled. */
  lemma HeldAtMost(cfg: Config, held: nat, l: Link)
    requires cfg.Valid() && FitFrom(cfg, held) && LinkInv(cfg, l) && AckInv(cfg, held, l)
    ensures l.offered - l.credits <= cfg.window
  {
    if OneBurst(cfg, held) {
      LinkSafe(cfg, l);
    } else {
      HeldAtMostWindow(cfg, l);
    }
  }

  // ---- what a run leaves behind ----

  /** How many acknowledgements a run takes: T / P, rounded up. */
  function AckCount(cfg: Config): nat { (cfg.iterations + cfg.Pack() - 1) / cfg.Pack() }

  lemma AckCountIs(cfg: Config, k: nat)
    requires cfg.Valid() && Adds(cfg, k, cfg.iterations)
    ensures k == AckCount(cfg)
  {
    var p, r := cfg.Pack(), cfg.iterations + cfg.Pack() - 1 - k * cfg.Pack();
    RemainderUnique(p, k, r, cfg.iterations + p - 1);
  }

  /** A finished connection has polled every acknowledgement and keeps the receives
      it posted in excess: known in advance if the run was one burst, none if
      every message is acknowledged on its own. */
  lemma LeftOver(cfg: Config, held: nat, l: Link)
    requires cfg.Valid() && FitFrom(cfg, held) && LinkInv(cfg, l) && AckInv(cfg, held, l)
    requires l.Closed() && l.phase.Idle?
    ensures l.ackDone == l.acks == [] && l.credits == AckCount(cfg)
    ensures l.ackReceives == l.offered - AckCount(cfg)
    ensures cfg.Pack() == 1 ==> l.ackReceives == held
    ensures cfg.iterations <= cfg.window ==> l.ackReceives == held + cfg.iterations - AckCount(cfg)
    ensures cfg.iterations > cfg.window && cfg.Pack() > 1 ==> l.offered >= cfg.window
  {
    NothingOutstanding(cfg, held, l);
    AckCountIs(cfg, l.credits);
    if cfg.Pack() == 1 {
      assert AckCount(cfg) == cfg.iterations;
    } else if cfg.iterations > cfg.window && l.bursts <= 1 {
      LongRunsStartFresh(cfg, held);
      SentSmallFirstRound(cfg, l);
    }
    if cfg.iterations <= cfg.window && !OneBurst(cfg, held) {
      LongRunsStartFresh(cfg, held);
    }
  }

  lemma NothingOutstanding(cfg: Config, held: nat, l: Link)
    requires cfg.Valid() && LinkInv(cfg, l) && AckInv(cfg, held, l) && l.Closed()
    ensures Outstanding(l) == [] && l.ackDone == l.acks == [] && CreditInv(cfg, l)
    ensures Adds(cfg, l.credits, cfg.iterations)
  {
    TotalOfNone(cfg, l);
    LinkSafe(cfg, l);
    assert |Outstanding(l)| == |l.ackDone| + |l.acks|;
  }

  lemma TotalOfNone(cfg: Config, l: Link)
    requires FullAcks(cfg, l)
    ensures Total(Outstanding(l)) == 0 ==> Outstanding(l) == []
  {
  }
}
