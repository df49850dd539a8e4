/** Receives for acknowledgements. The client posts them in the bursts whose
    counter copy is 0, one per message of the burst, and the copy is taken once
    per burst. When this never fails is decided here exactly. */
module FlowAcks {
  import opened Arithmetic
  import opened FlowControl

  /** Either every message is acknowledged on its own, or the run ends before the
      second round of posting can overtake the receives still held. */
  ghost predicate AcksFit(cfg: Config) {
    cfg.Pack() == 1 || cfg.iterations <= cfg.window + cfg.Pack() * cfg.Pack() + 1
  }

  lemma PackRange(cfg: Config)
    requires cfg.Valid()
    ensures 1 <= cfg.Pack() <= cfg.window
    ensures cfg.Pack() > 1 ==> 2 * cfg.Pack() <= cfg.window <= 2 * cfg.Pack() + 1
    ensures cfg.Pack() == 1 <==> cfg.window <= 3
  {
  }

  // ---- the values of the acknowledgements ----

  function Emitted(cfg: Config, l: Link): int { l.Acked(cfg) + Total(Outstanding(l)) }

  function AcksSent(l: Link): nat { l.credits + |Outstanding(l)| }

  /** Every immediate is the packing size, except one that completes the run. */
  ghost predicate FullAcks(cfg: Config, l: Link) {
    var q := Outstanding(l);
    forall i :: 0 <= i < |q| ==>
                  1 <= q[i] <= cfg.Pack() && (i + 1 < |q| || Emitted(cfg, l) < cfg.iterations ==> q[i] == cfg.Pack())
  }

  /** `n` immediates add up to `sum`: exactly `n` times the packing size, short only at the end. */
  ghost predicate Adds(cfg: Config, n: nat, sum: int) {
    && sum <= n * cfg.Pack() < sum + cfg.Pack()
    && (sum < cfg.iterations ==> sum == n * cfg.Pack())
  }

  ghost predicate CreditInv(cfg: Config, l: Link) {
    && FullAcks(cfg, l)
    && Adds(cfg, AcksSent(l), Emitted(cfg, l))
    && Adds(cfg, l.credits, l.Acked(cfg))
    && l.ackReceives + l.credits + |l.ackDone| == l.offered
  }

  lemma AddsOne(cfg: Config, n: nat, sum: int, x: nat)
    requires cfg.Valid() && Adds(cfg, n, sum) && 1 <= x <= cfg.Pack() && sum + x <= cfg.iterations
    requires sum + x < cfg.iterations ==> x == cfg.Pack()
    ensures Adds(cfg, n + 1, sum + x)
  {
    assert (n + 1) * cfg.Pack() == n * cfg.Pack() + cfg.Pack();
  }

  lemma StartCredit(cfg: Config, held: nat)
    requires cfg.Valid()
    ensures CreditInv(cfg, Start(cfg, held))
  {
  }

  lemma SameFull(cfg: Config, l: Link, l': Link)
    requires FullAcks(cfg, l) && Outstanding(l') == Outstanding(l) && Emitted(cfg, l') == Emitted(cfg, l)
    ensures FullAcks(cfg, l')
  {
  }

  lemma FullOneMore(cfg: Config, l: Link, l': Link, c: nat)
    requires cfg.Valid() && FullAcks(cfg, l) && Emitted(cfg, l) < cfg.iterations
    requires Outstanding(l') == Outstanding(l) + [c] && 1 <= c <= cfg.Pack()
    requires Emitted(cfg, l') < cfg.iterations ==> c == cfg.Pack()
    ensures FullAcks(cfg, l')
  {
    hide Outstanding, Emitted, Config.Pack;
  }

  lemma FullOneLess(cfg: Config, l: Link, l': Link)
    requires FullAcks(cfg, l) && Outstanding(l) != [] && Outstanding(l') == Outstanding(l)[1..]
    requires Emitted(cfg, l') == Emitted(cfg, l)
    ensures FullAcks(cfg, l')
    ensures var x := Outstanding(l)[0];
            1 <= x <= cfg.Pack() && (Total(Outstanding(l')) > 0 || Emitted(cfg, l) < cfg.iterations ==> x == cfg.Pack())
  {
    hide Outstanding, Emitted, Config.Pack;
    var q, r := Outstanding(l), Outstanding(l');
    assert forall i :: 0 <= i < |r| ==> r[i] == q[i + 1];
  }

  lemma CountCredit(cfg: Config, l: Link, l': Link)
    requires cfg.Valid() && LinkInv(cfg, l) && LinkInv(cfg, l') && CreditInv(cfg, l)
    requires ServerCount(cfg, l, l')
    ensures CreditInv(cfg, l')
  {
    hide Adds, ClientInv, FullAcks;
    var c := l.counter + 1;
    CountFits(cfg, l);
    if c == cfg.Pack() || (l.todo == 0 && l.open == 0) {
      TotalAppend(Outstanding(l), c);
      assert Outstanding(l') == Outstanding(l) + [c];
      assert Emitted(cfg, l') == Emitted(cfg, l) + c == l'.Served(cfg);
      AddsOne(cfg, AcksSent(l), Emitted(cfg, l), c);
      FullOneMore(cfg, l, l', c);
    } else {
      SameFull(cfg, l, l');
    }
  }

  lemma PollCredit(cfg: Config, l: Link, l': Link)
    requires cfg.Valid() && LinkInv(cfg, l) && LinkInv(cfg, l') && CreditInv(cfg, l)
    requires PollAck(l, l') && l'.failure == {}
    ensures CreditInv(cfg, l')
  {
    hide FullAcks, Adds, ClientInv, ServerInv, Config.Pack;
    var q := Outstanding(l);
    var x := l.ackDone[0];
    assert q[0] == x && Outstanding(l') == q[1..];
    assert Emitted(cfg, l') == Emitted(cfg, l) && AcksSent(l') == AcksSent(l);
    FullOneLess(cfg, l, l');
    AddsOne(cfg, l.credits, l.Acked(cfg), x);
  }

  lemma ArriveCredit(cfg: Config, l: Link, l': Link)
    requires cfg.Valid() && CreditInv(cfg, l) && AckArrives(l, l') && l'.failure == {}
    ensures CreditInv(cfg, l')
  {
    assert Outstanding(l') == Outstanding(l);
  }

  /** Steps that neither send, count nor touch an acknowledgement. */
  lemma IdleCredit(cfg: Config, l: Link, l': Link)
    requires cfg.Valid() && CreditInv(cfg, l)
    requires l'.acks == l.acks && l'.ackDone == l.ackDone && l'.credits == l.credits
    requires l'.budget + l'.pending == l.budget + l.pending
    requires l'.offered - l'.ackReceives == l.offered - l.ackReceives
    ensures CreditInv(cfg, l')
  {
    assert Outstanding(l') == Outstanding(l);
  }

  lemma StepCredit(cfg: Config, l: Link, l': Link)
    requires cfg.Valid() && LinkInv(cfg, l) && LinkInv(cfg, l') && CreditInv(cfg, l)
    requires LinkStep(cfg, l, l') && l'.failure == {}
    ensures CreditInv(cfg, l')
  {
    hide LinkInv, CreditInv;
    if ServerCount(cfg, l, l') {
      CountCredit(cfg, l, l');
    } else if PollAck(l, l') {
      PollCredit(cfg, l, l');
    } else if AckArrives(l, l') {
      ArriveCredit(cfg, l, l');
    } else {
      IdleCredit(cfg, l, l');
    }
  }

  // ---- how far the bursts have come ----

  predicate Sending(l: Link) { l.phase.Burst? && l.phase.i > 0 }

  /** What has been sent once the current burst is through. */
  function Goal(cfg: Config, l: Link): int {
    cfg.iterations - l.budget + if Sending(l) then l.phase.n else 0
  }

  /** Each burst fills the window again, and only a new credit makes room for one. */
  ghost predicate BurstInv(cfg: Config, l: Link) {
    && l.base <= l.credits
    && (l.bursts == 0 ==> Goal(cfg, l) == 0 && !Sending(l))
    && (l.bursts > 0 ==> l.base + 1 >= l.bursts)
    && (l.bursts > 0 ==> Goal(cfg, l) == Min(cfg.iterations, cfg.window + l.base * cfg.Pack()))
    && (Sending(l) ==> l.base == l.credits)
    && cfg.iterations - l.budget <= (if Sending(l) then l.bursts - 1 else l.bursts) * cfg.window
  }

  /** The room for a new burst is made of credits newer than the latest burst. */
  lemma RoomIsCredits(cfg: Config, l: Link)
    requires cfg.Valid() && LinkInv(cfg, l) && CreditInv(cfg, l) && BurstInv(cfg, l)
    requires l.phase.Burst? && l.phase.i == 0 < l.phase.n
    ensures l.bursts == 0 ==> l.Sent(cfg) == 0 && l.Acked(cfg) == 0
    ensures l.bursts > 0 ==> l.Sent(cfg) == cfg.window + l.base * cfg.Pack() < cfg.iterations
    ensures l.Acked(cfg) == l.credits * cfg.Pack()
    ensures l.phase.n == Min(cfg.window - l.Sent(cfg) + l.Acked(cfg), cfg.iterations - l.Sent(cfg))
    ensures l.bursts > 0 ==> l.phase.n <= (l.credits - l.base) * cfg.Pack() && l.credits > l.base
  {
    RoomFacts(cfg, l);
    hide LinkInv, CreditInv, BurstInv, Config.Pack;
    CreditsForRoom(l.phase.n, l.credits, l.base, cfg.Pack());
  }

  lemma CreditsForRoom(n: nat, credits: nat, base: nat, p: nat)
    ensures 0 < n <= credits * p - base * p ==> n <= (credits - base) * p && credits > base
  {
    assert (credits - base) * p == credits * p - base * p;
    Scale(credits - base, 0, p);
  }

  lemma RoomFacts(cfg: Config, l: Link)
    requires cfg.Valid() && LinkInv(cfg, l) && CreditInv(cfg, l) && BurstInv(cfg, l)
    requires l.phase.Burst? && l.phase.i == 0 < l.phase.n
    ensures l.bursts == 0 ==> l.Sent(cfg) == 0 && l.Acked(cfg) == 0
    ensures l.bursts > 0 ==> l.Sent(cfg) == cfg.window + l.base * cfg.Pack() < cfg.iterations
    ensures l.Acked(cfg) == l.credits * cfg.Pack()
    ensures l.phase.n == Min(cfg.window - l.Sent(cfg) + l.Acked(cfg), cfg.iterations - l.Sent(cfg))
  {
    hide FullAcks, ServerInv, ChannelInv, Config.Pack;
  }

  lemma StartBurst(cfg: Config, held: nat)
    requires cfg.Valid()
    ensures BurstInv(cfg, Start(cfg, held))
  {
  }

  lemma FirstSendBurst(cfg: Config, l: Link, l': Link)
    requires cfg.Valid() && LinkInv(cfg, l) && LinkInv(cfg, l') && CreditInv(cfg, l) && BurstInv(cfg, l)
    requires Send(cfg, l, l') && l'.failure == {} && l.phase.i == 0
    ensures BurstInv(cfg, l')
  {
    RoomIsCredits(cfg, l);
    NothingAcked(cfg, l);
  }

  lemma NothingAcked(cfg: Config, l: Link)
    requires cfg.Valid() && Adds(cfg, l.credits, l.Acked(cfg))
    ensures l.Acked(cfg) == 0 ==> l.credits == 0
  {
    if l.credits > 0 {
      assert l.credits * cfg.Pack() >= cfg.Pack();
    }
  }

  lemma BurstEndBurst(cfg: Config, l: Link, l': Link)
    requires cfg.Valid() && LinkInv(cfg, l) && BurstInv(cfg, l) && BurstEnd(l, l')
    ensures BurstInv(cfg, l')
  {
    hide ServerInv, ChannelInv, Config.Pack;
    if l.phase.n > 0 {
      assert l.bursts * cfg.window == (l.bursts - 1) * cfg.window + cfg.window;
    }
  }

  lemma SameBurst(cfg: Config, l: Link, l': Link)
    requires BurstInv(cfg, l)
    requires l'.base == l.base && l'.bursts == l.bursts && l'.budget == l.budget && l'.credits >= l.credits
    requires Sending(l') == Sending(l) && (Sending(l) ==> l'.phase.n == l.phase.n && l'.credits == l.credits)
    ensures BurstInv(cfg, l')
  {
  }

  lemma StepBurst(cfg: Config, l: Link, l': Link)
    requires cfg.Valid() && LinkInv(cfg, l) && LinkInv(cfg, l') && CreditInv(cfg, l) && BurstInv(cfg, l)
    requires LinkStep(cfg, l, l') && l'.failure == {}
    ensures BurstInv(cfg, l')
  {
    hide LinkInv, CreditInv, BurstInv;
    if Send(cfg, l, l') && l.phase.i == 0 {
      FirstSendBurst(cfg, l, l');
    } else if BurstEnd(l, l') {
      BurstEndBurst(cfg, l, l');
    } else {
      SameBurst(cfg, l, l');
    }
  }

  // ---- the receives the client holds ----

  /** The stored counter after `m` bursts, as long as there are at most two rounds. */
  function CounterAfter(cfg: Config, m: nat): nat {
    var p := cfg.Pack();
    if m < p then m else if m < 2 * p then m - p else 0
  }

  ghost predicate CounterInv(cfg: Config, l: Link) {
    && l.bursts <= 2 * cfg.Pack()
    && l.ackCounter == CounterAfter(cfg, l.bursts)
    && (l.phase.Burst? && l.phase.n > 0 ==>
          && (l.phase.i == 0 ==> l.phase.counter == CounterAfter(cfg, l.bursts))
          && (l.phase.i > 0 ==> l.bursts > 0 && l.phase.counter == CounterAfter(cfg, l.bursts - 1)))
  }

  /** First round: `bursts` 1 posts one receive per message. Second round: burst
      Pack + 1 posts again, at most as many as credits were polled. */
  ghost predicate OfferInv(cfg: Config, l: Link) {
    && (l.bursts <= 1 ==> l.offered == l.Sent(cfg))
    && (2 <= l.bursts <= cfg.Pack() ==> l.offered == cfg.window)
    && (l.bursts > cfg.Pack() ==> cfg.window < l.offered <= cfg.window + l.credits)
    && (l.bursts == cfg.Pack() + 1 && Sending(l) ==> l.offered == cfg.window + l.phase.i && l.phase.n <= l.credits)
  }

  /** The invariant of a connection that started without receives from before. */
  ghost predicate FreshInv(cfg: Config, l: Link) {
    && CreditInv(cfg, l) && BurstInv(cfg, l)
    && if cfg.Pack() == 1 then
         l.ackCounter == 0 && (l.phase.Burst? ==> l.phase.counter == 0) && l.offered == l.Sent(cfg)
       else CounterInv(cfg, l) && OfferInv(cfg, l)
  }

  lemma StartFresh(cfg: Config)
    requires cfg.Valid()
    ensures FreshInv(cfg, Start(cfg, 0))
  {
    StartCredit(cfg, 0);
    StartBurst(cfg, 0);
  }

  /** The one place where the bound on the iterations is used for the queue length. */
  lemma SecondRoundSmall(p: int, w: int, t: int, n: int, base: int, credits: int)
    requires p >= 2 && t <= w + p * p + 1 && base >= p - 1 && credits > base
    requires n <= (credits - base) * p && n <= t - (w + base * p)
    ensures n <= credits
  {
    var e, d := base - (p - 1), credits - base;
    assert base * p == (p - 1) * p + e * p;
    assert (p - 1) * p == p * p - p;
    if e > 0 {
      assert e * p >= p;
    } else if d == 1 {
      assert d * p == p;
    }
  }

  lemma NoThirdRound(p: int, w: int, t: int, base: int)
    requires p >= 2 && t <= w + p * p + 1 && w + base * p < t
    ensures base < 2 * p - 1
  {
    Scale(2 * p - 1, base, p);
    assert (2 * p - 1) * p == p * p + (p - 1) * p;
    Scale(1, p - 1, p);
  }

  lemma FirstSendAcks(cfg: Config, l: Link, l': Link)
    requires cfg.Valid() && AcksFit(cfg) && cfg.Pack() > 1 && LinkInv(cfg, l) && FreshInv(cfg, l)
    requires Send(cfg, l, l') && l.phase.i == 0
    ensures l'.failure == {} || l.failure != {}
    ensures l'.failure == {} ==> CounterInv(cfg, l') && OfferInv(cfg, l')
  {
    PackRange(cfg);
    RoomIsCredits(cfg, l);
    NothingAcked(cfg, l);
    if l.bursts == 1 {
      FirstRoundFull(cfg, l);
    }
    hide Config.Pack, CreditInv, ServerInv, ChannelInv;
    if l.bursts > 0 {
      NoThirdRound(cfg.Pack(), cfg.window, cfg.iterations, l.base);
      if l.bursts == cfg.Pack() {
        SecondRoundSmall(cfg.Pack(), cfg.window, cfg.iterations, l.phase.n, l.base, l.credits);
      }
    }
  }

  /** Ending the first burst with messages left means it filled the window. */
  lemma FirstRoundFull(cfg: Config, l: Link)
    requires cfg.Valid() && LinkInv(cfg, l) && CreditInv(cfg, l) && BurstInv(cfg, l)
    requires l.phase.Burst? && l.phase.i == 0 < l.phase.n && l.bursts == 1
    ensures l.Sent(cfg) == cfg.window
  {
    RoomIsCredits(cfg, l);
    SentAtMost(cfg, l);
    Scale(0, l.base, cfg.Pack());
  }

  lemma NextSendAcks(cfg: Config, l: Link, l': Link)
    requires cfg.Valid() && cfg.Pack() > 1 && LinkInv(cfg, l) && FreshInv(cfg, l)
    requires Send(cfg, l, l') && l.phase.i > 0
    ensures l'.failure == {} || l.failure != {}
    ensures l'.failure == {} ==> CounterInv(cfg, l') && OfferInv(cfg, l')
  {
    PackRange(cfg);
    if l.bursts == 1 {
      FirstBurstIsFirst(cfg, l);
    }
    HeldIsPosted(cfg, l);
    hide Config.Pack, Config.Slot, CreditInv, BurstInv, ServerInv, ChannelInv;
  }

  lemma FirstBurstIsFirst(cfg: Config, l: Link)
    requires BurstInv(cfg, l) && l.bursts == 1 && Sending(l)
    ensures cfg.iterations <= l.budget
  {
  }

  lemma HeldIsPosted(cfg: Config, l: Link)
    requires CreditInv(cfg, l)
    ensures l.ackReceives + l.credits <= l.offered
  {
  }

  // ---- an arriving acknowledgement finds a receive ----

  lemma CountAtMost(k: int, p: int, e: int)
    requires k >= 1 && p >= 1 && k * p < e + p
    ensures k <= e
  {
    assert (k - 1) * p >= k - 1;
    assert k * p == (k - 1) * p + p;
  }

  lemma CountAtMostWindow(k: int, p: int, w: int, e: int, b: int)
    requires p >= 1 && k * p < e + p && e <= b * w && b <= p && w >= 0
    ensures k <= w
  {
    Scale(b, p, w);
    Scale(w + 1, k, p);
    assert (w + 1) * p == p * w + p;
  }

  lemma CountAtMostWindowPlusOne(k: int, p: int, w: int, t: int)
    requires p >= 2 && 2 * p <= w && t <= w + p * p + 1 && k * p < t + p
    ensures k <= w + 1
  {
    Scale(w + 2, k, p);
    assert (w + 2) * p == w * p + 2 * p;
    assert w * p - w == w * (p - 1);
    Scale(p + 1, w, p - 1);
    assert (p + 1) * (p - 1) == p * p - 1;
  }

  lemma EnoughOffered(cfg: Config, l: Link)
    requires cfg.Valid() && AcksFit(cfg) && LinkInv(cfg, l) && FreshInv(cfg, l)
    ensures AcksSent(l) <= l.offered
  {
    PackRange(cfg);
    var k, p, e := AcksSent(l), cfg.Pack(), Emitted(cfg, l);
    assert e <= l.Served(cfg) <= l.Sent(cfg);
    if k > 0 {
      CountAtMost(k, p, e);
      if p > 1 && 2 <= l.bursts <= p {
        SentAtMost(cfg, l);
        CountAtMostWindow(k, p, cfg.window, e, l.bursts);
      } else if p > 1 && l.bursts > p {
        CountAtMostWindowPlusOne(k, p, cfg.window, cfg.iterations);
      }
    }
  }

  lemma SentAtMost(cfg: Config, l: Link)
    requires cfg.Valid() && LinkInv(cfg, l) && BurstInv(cfg, l) && l.bursts > 0
    ensures l.Sent(cfg) <= l.bursts * cfg.window
  {
    hide ServerInv, ChannelInv, Config.Pack, Goal;
    if Sending(l) {
      assert l.bursts * cfg.window == (l.bursts - 1) * cfg.window + cfg.window;
    }
  }

  // ---- preservation ----

  /** Without packing every burst posts, one receive per message. */
  lemma SingleSendAcks(cfg: Config, l: Link, l': Link)
    requires cfg.Valid() && cfg.Pack() == 1 && LinkInv(cfg, l) && FreshInv(cfg, l)
    requires l.failure == {} && Send(cfg, l, l')
    ensures l'.failure == {} && l'.ackCounter == 0
    ensures l'.phase.Burst? && l'.phase.counter == 0 && l'.offered == l'.Sent(cfg)
  {
    hide ServerInv, ChannelInv, BurstInv, FullAcks, Config.Pack;
    assert l.Acked(cfg) == l.credits;
  }

  lemma SendAcks(cfg: Config, l: Link, l': Link)
    requires cfg.Valid() && AcksFit(cfg) && LinkInv(cfg, l) && FreshInv(cfg, l) && l.failure == {} && Send(cfg, l, l')
    ensures l'.failure == {} && FreshInv(cfg, l')
  {
    hide LinkInv, CreditInv, BurstInv, CounterInv, OfferInv, AcksFit;
    if cfg.Pack() == 1 {
      SingleSendAcks(cfg, l, l');
    } else if l.phase.i == 0 {
      FirstSendAcks(cfg, l, l');
    } else {
      NextSendAcks(cfg, l, l');
    }
    LinkStepInv(cfg, l, l');
    StepCredit(cfg, l, l');
    StepBurst(cfg, l, l');
  }

  lemma OtherAcks(cfg: Config, l: Link, l': Link)
    requires cfg.Valid() && AcksFit(cfg) && LinkInv(cfg, l) && FreshInv(cfg, l) && l.failure == {}
    requires LinkStep(cfg, l, l') && !Send(cfg, l, l')
    ensures l'.failure == {} && FreshInv(cfg, l')
  {
    LinkStepInv(cfg, l, l');
    EnoughOffered(cfg, l);
    NoFailure(cfg, l, l');
    StepCredit(cfg, l, l');
    StepBurst(cfg, l, l');
    hide LinkInv, CreditInv, BurstInv, Config.Pack;
    KeepsOffer(cfg, l, l');
  }

  /** With a receive for every acknowledgement only a send can fail. */
  lemma NoFailure(cfg: Config, l: Link, l': Link)
    requires cfg.Valid() && CreditInv(cfg, l) && AcksSent(l) <= l.offered && l.failure == {}
    requires LinkStep(cfg, l, l') && LinkInv(cfg, l') && !Send(cfg, l, l')
    ensures l'.failure == {}
  {
    LinkSafe(cfg, l');
    FailureKind(cfg, l, l');
    hide LinkInv, FullAcks, Adds, LinkStep;
  }

  /** Only a send can overfill the queue of acknowledgement receives. */
  lemma FailureKind(cfg: Config, l: Link, l': Link)
    requires cfg.Valid() && l.failure == {} && LinkStep(cfg, l, l') && !Send(cfg, l, l')
    ensures l'.failure <= {NoMessageReceive, BadCredit, NoAckReceive}
    ensures NoAckReceive in l'.failure ==> l.ackReceives == 0 && l.acks != []
  {
  }

  lemma KeepsOffer(cfg: Config, l: Link, l': Link)
    requires cfg.Valid() && FreshInv(cfg, l) && ClientInv(cfg, l) && LinkStep(cfg, l, l') && !Send(cfg, l, l')
    ensures if cfg.Pack() == 1 then
              l'.ackCounter == 0 && (l'.phase.Burst? ==> l'.phase.counter == 0) && l'.offered == l'.Sent(cfg)
            else CounterInv(cfg, l') && OfferInv(cfg, l')
  {
    NotSend(cfg, l, l');
    hide CreditInv, BurstInv, Config.Pack, LinkStep, CounterAfter, Send;
  }

  /** Steps other than a send leave what was posted and sent as it is. */
  lemma NotSend(cfg: Config, l: Link, l': Link)
    requires cfg.Valid() && ClientInv(cfg, l) && LinkStep(cfg, l, l') && !Send(cfg, l, l')
    ensures l'.bursts == l.bursts && l'.offered == l.offered && l'.ackCounter == l.ackCounter
    ensures l'.Sent(cfg) == l.Sent(cfg) && l'.credits >= l.credits
    ensures l'.phase.Burst? ==>
              (l.phase == l'.phase && l'.credits == l.credits) || (l'.phase.i == 0 && l'.phase.counter == l.ackCounter)
  {
  }

  lemma StepFresh(cfg: Config, l: Link, l': Link)
    requires cfg.Valid() && AcksFit(cfg) && LinkInv(cfg, l) && FreshInv(cfg, l) && LinkStep(cfg, l, l')
    ensures l'.failure == {} && FreshInv(cfg, l')
  {
    if Send(cfg, l, l') {
      SendAcks(cfg, l, l');
    } else {
      OtherAcks(cfg, l, l');
    }
  }

  lemma SentSmallFirstRound(cfg: Config, l: Link)
    requires cfg.Valid() && LinkInv(cfg, l) && BurstInv(cfg, l) && l.bursts <= 1
    ensures l.Sent(cfg) <= cfg.window
  {
    if l.bursts == 1 {
      SentAtMost(cfg, l);
    }
  }

  lemma SingleCredits(cfg: Config, l: Link)
    requires cfg.Valid() && LinkInv(cfg, l) && Adds(cfg, l.credits, l.Acked(cfg)) && cfg.Pack() == 1
    ensures l.Sent(cfg) - l.credits <= cfg.window
  {
    assert l.Acked(cfg) == l.credits * cfg.Pack();
  }

  /** The client never holds more than a window of receives that it has not polled. */
  lemma HeldAtMostWindow(cfg: Config, l: Link)
    requires cfg.Valid() && LinkInv(cfg, l) && FreshInv(cfg, l)
    ensures l.offered - l.credits <= cfg.window
  {
    hide LinkInv, BurstInv, CounterInv, FullAcks, Adds, Config.Pack;
    PackRange(cfg);
    if cfg.Pack() == 1 {
      SingleCredits(cfg, l);
    } else if l.bursts <= 1 {
      SentSmallFirstRound(cfg, l);
    }
  }
}
