/** Two operations one after the other on the same queue pairs, as a benchmark
    does that measures writes with immediates and then sends. The client starts
    its counters anew, but the receives that the first operation posted in excess
    are still there. */
module FlowTwice {
  import opened Arithmetic
  import opened FlowControl
  import opened FlowSlots
  import opened FlowRun
  import opened FlowAcks
  import opened FlowHeld
  import opened FlowOverflow
  import opened FlowVerdict

  /** Every message is acknowledged on its own, or both runs are single bursts
      that fit beside what the first one leaves. */
  ghost predicate TwiceFit(cfg: Config) {
    cfg.Pack() == 1 || 2 * cfg.iterations <= cfg.window + AckCount(cfg)
  }

  /** The receives each connection of a finished client still has. */
  function Held(s: State): (r: seq<nat>)
    ensures |r| == |s.links|
  {
    seq(|s.links|, j requires 0 <= j < |s.links| => s.links[j].ackReceives)
  }

  /** No schedule of the first operation fails, and after none does one of the second. */
  ghost predicate TwiceSafe(cfg: Config, conns: nat)
    requires cfg.Valid()
  {
    && (forall run :: IsRun(cfg, Zeros(conns), run) ==> NothingFailed(run[|run| - 1]))
    && (forall run: seq<State>, next: seq<State> ::
          IsRun(cfg, Zeros(conns), run) && run[|run| - 1].done && IsRun(cfg, Held(run[|run| - 1]), next)
          ==> NothingFailed(next[|next| - 1]))
  }

  lemma AckCountBounds(cfg: Config)
    requires cfg.Valid()
    ensures 1 <= AckCount(cfg) <= cfg.iterations
    ensures cfg.Pack() == 1 ==> AckCount(cfg) == cfg.iterations
    ensures (AckCount(cfg) - 1) * cfg.Pack() < cfg.iterations <= AckCount(cfg) * cfg.Pack()
  {
    PackRange(cfg);
    CeilBounds(cfg.iterations, cfg.Pack(), AckCount(cfg));
  }

  lemma CeilBounds(t: int, p: int, k: int)
    requires t >= 1 && p >= 1 && k == (t + p - 1) / p
    ensures 1 <= k <= t && (p == 1 ==> k == t)
    ensures (k - 1) * p < t <= k * p
  {
    var r := (t + p - 1) % p;
    assert t + p - 1 == p * k + r;
    CeilFromProduct(t, p, k, r);
  }

  lemma CeilFromProduct(t: int, p: int, k: int, r: int)
    requires t >= 1 && p >= 1 && 0 <= r < p && t + p - 1 == p * k + r
    ensures 1 <= k <= t && (p == 1 ==> k == t)
    ensures (k - 1) * p < t <= k * p
  {
    assert k * p == p * k && (k - 1) * p == k * p - p;
    Scale(k, 0, p);
    assert (t + 1) * p == t * p + p;
    Scale(t + 1, k, p);
    assert t * p - t == t * (p - 1);
    Scale(0, t, p - 1);
  }

  /** Two packed bursts that fit are short enough for the condition of one run. */
  lemma TwiceFitsOnce(cfg: Config)
    requires cfg.Valid() && TwiceFit(cfg)
    ensures FitFrom(cfg, 0) && AckCount(cfg) <= cfg.iterations
    ensures cfg.Pack() > 1 ==> cfg.iterations <= cfg.window && FitFrom(cfg, cfg.iterations - AckCount(cfg))
  {
    hide AcksFit, AckCount, Config.Pack;
    AckCountRange(cfg);
    ShortFits(cfg);
  }

  lemma AckCountRange(cfg: Config)
    requires cfg.Valid()
    ensures 1 <= AckCount(cfg) <= cfg.iterations && (cfg.Pack() > 1 || cfg.Pack() == 1)
  {
    AckCountBounds(cfg);
  }

  lemma ShortFits(cfg: Config)
    ensures cfg.Pack() == 1 || cfg.iterations <= cfg.window ==> AcksFit(cfg)
  {
    hide Config.Pack;
    Square(cfg.Pack());
  }

  lemma Square(p: int)
    ensures p * p >= 0
  {
  }

  /** What a connection keeps after a whole first run. */
  lemma DoneLeavesOver(cfg: Config, conns: nat, run: seq<State>, j: nat)
    requires cfg.Valid() && conns > 0 && AcksFit(cfg) && IsRun(cfg, Zeros(conns), run)
    requires run[|run| - 1].done && j < conns
    ensures var s := run[|run| - 1];
            && |s.links| == conns
            && s.links[j].ackReceives == s.links[j].offered - AckCount(cfg)
            && (cfg.Pack() == 1 ==> s.links[j].ackReceives == 0)
            && (cfg.iterations <= cfg.window ==> s.links[j].ackReceives == cfg.iterations - AckCount(cfg))
            && (cfg.iterations > cfg.window && cfg.Pack() > 1 ==> s.links[j].offered >= cfg.window)
  {
    var s := run[|run| - 1];
    FreshFits(cfg, conns);
    RunAllAcks(cfg, Zeros(conns), run, |run| - 1);
    hide Init, AckInv, LinkInv, IsPath;
    CountZero(s.links, j);
    LeftOver(cfg, 0, s.links[j]);
  }

  lemma FreshFits(cfg: Config, conns: nat)
    requires AcksFit(cfg)
    ensures AllFit(cfg, Zeros(conns)) && |Zeros(conns)| == conns
  {
  }

  lemma SafeWhenFit(cfg: Config, conns: nat)
    requires cfg.Valid() && conns > 0 && TwiceFit(cfg)
    ensures TwiceSafe(cfg, conns)
  {
    hide Init, TwiceFit, AckCount, FitFrom, Step, NothingFailed;
    TwiceFitsOnce(cfg);
    FitIsAcksFit(cfg);
    FreshFits(cfg, conns);
    NeverFailsIff(cfg, Zeros(conns));
    forall run: seq<State>, next: seq<State>
      | IsRun(cfg, Zeros(conns), run) && run[|run| - 1].done && IsRun(cfg, Held(run[|run| - 1]), next)
      ensures NothingFailed(next[|next| - 1])
    {
      var s := run[|run| - 1];
      forall j | 0 <= j < conns ensures |s.links| == conns && FitFrom(cfg, s.links[j].ackReceives) {
        DoneLeavesOver(cfg, conns, run, j);
      }
      DoneLeavesOver(cfg, conns, run, 0);
      assert AllFit(cfg, Held(s));
      NeverFailsIff(cfg, Held(s));
    }
  }

  lemma FitIsAcksFit(cfg: Config)
    requires FitFrom(cfg, 0)
    ensures AcksFit(cfg)
  {
  }

  // ---- a first run that leaves too much ----

  lemma OfferedGrows(cfg: Config, l: Link, l': Link)
    requires cfg.Valid() && LinkStep(cfg, l, l')
    ensures l'.offered >= l.offered
  {
  }

  lemma StepOffered(cfg: Config, s: State, s': State)
    requires cfg.Valid() && Inv(cfg, s) && Step(cfg, s, s')
    ensures |s'.links| == |s.links| > 0 && s'.links[0].offered >= s.links[0].offered
  {
    hide LinkInv, SlotInv, Visit, Send, BurstEnd, PollAck, PollNothing, OtherStep;
    if ClientMoves(cfg, s, s') {
      var l' :| ClientMove(cfg, s, s', l');
      if l' != s.links[s.cur] {
        OfferedGrows(cfg, s.links[s.cur], l');
      }
    } else {
      var j: nat, l' :| OtherMove(cfg, s, s', j, l');
      OfferedGrows(cfg, s.links[j], l');
    }
  }

  lemma {:induction false} PathOffered(cfg: Config, path: seq<State>, k: nat)
    requires cfg.Valid() && IsPath(cfg, path) && Inv(cfg, path[0]) && k < |path|
    ensures |path[k].links| == |path[0].links| > 0 && path[k].links[0].offered >= path[0].links[0].offered
  {
    if k > 0 {
      hide Inv, Step;
      PathOffered(cfg, path, k - 1);
      PathInv(cfg, path, k - 1);
      assert Step(cfg, path[k - 1], path[k - 1 + 1]);
      StepOffered(cfg, path[k - 1], path[k]);
    } else {
      hide LinkInv, SlotInv, Step;
    }
  }

  lemma Join(cfg: Config, held: seq<nat>, run: seq<State>, rest: seq<State>) returns (all: seq<State>)
    requires cfg.Valid() && IsRun(cfg, held, run) && IsPath(cfg, rest) && rest[0] == run[|run| - 1]
    ensures IsRun(cfg, held, all) && all[|all| - 1] == rest[|rest| - 1]
  {
    hide Step, Init;
    all := run + rest[1..];
    forall i | 0 <= i < |all| - 1 ensures Step(cfg, all[i], all[i + 1]) {
      if i < |run| - 1 {
        assert Step(cfg, run[i], run[i + 1]);
      } else {
        var k := i - (|run| - 1);
        assert all[i] == rest[k] && all[i + 1] == rest[k + 1];
      }
    }
  }

  /** A finished first run after which the first connection has offered at least as much as `run` had. */
  lemma FinishFirst(cfg: Config, conns: nat, run: seq<State>) returns (all: seq<State>)
    requires cfg.Valid() && conns > 0 && AcksFit(cfg) && IsRun(cfg, Zeros(conns), run)
    ensures IsRun(cfg, Zeros(conns), all) && all[|all| - 1].done
    ensures var s := run[|run| - 1];
            |s.links| > 0 && |all[|all| - 1].links| > 0 && all[|all| - 1].links[0].offered >= s.links[0].offered
  {
    FreshFits(cfg, conns);
    RunAllAcks(cfg, Zeros(conns), run, |run| - 1);
    var rest := FitRunsFinish(cfg, Zeros(conns), run, |run| - 1);
    hide Inv, Step, Init;
    PathOffered(cfg, rest, |rest| - 1);
    all := Join(cfg, Zeros(conns), run, rest);
  }

  /** When the acknowledgements alone would use up a window, the run is long
      enough for a second round of posting, which posts more than is used up. */
  lemma SecondRoundLeaves(p: int, w: int, t: int, k: int)
    requires p >= 2 && 2 * p <= w <= 2 * p + 1 && t <= w + p * p + 1 && k >= w
    requires (k - 1) * p < t <= k * p
    ensures t > w + (p - 1) * p
    ensures t - w - (p - 1) * p <= p ==> w + (t - w - (p - 1) * p) > k
    ensures w + p > k
  {
    var r := t - w - (p - 1) * p;
    assert (p - 1) * p == p * p - p;
    assert (k - 1) * p == k * p - p;
    LongEnough(p, w, k);
    assert r >= 1;
    if r <= p && k >= w + r {
      RoundArithmetic(p, w, r, k);
    }
    if k >= w + p {
      FullRoundArithmetic(p, w, k);
    }
  }

  lemma FullRoundArithmetic(p: int, w: int, k: int)
    requires p >= 2 && w >= 2 * p && k >= w + p
    ensures k * p > w + p * p + p
  {
    Scale(w + p, k, p);
    assert (w + p) * p == (w + p) * (p - 1) + w + p;
    Scale(3 * p, w + p, p - 1);
    assert 3 * p * (p - 1) == 3 * (p * p) - 3 * p;
    assert p * p >= 2 * p;
  }

  lemma LongEnough(p: int, w: int, k: int)
    requires p >= 2 && 2 * p <= w <= 2 * p + 1 && k >= w
    ensures k * p - p >= w + p * p - p
  {
    Scale(w, k, p);
    assert w * p == w * (p - 1) + w;
    Scale(2 * p, w, p - 1);
    assert 2 * p * (p - 1) == 2 * (p * p) - 2 * p;
    assert p * p >= 2 * p;
  }

  lemma RoundArithmetic(p: int, w: int, r: int, k: int)
    requires p >= 2 && w >= 2 * p && 1 <= r <= p && k >= w + r
    ensures k * p >= w + p * p + r
  {
    Scale(w + r, k, p);
    assert (w + r) * p == (w + r) * (p - 1) + w + r;
    Scale(2 * p + 1, w + r, p - 1);
    assert (2 * p + 1) * (p - 1) == 2 * (p * p) - p - 1;
    assert p * p >= 2 * p;
  }

  /** A first run of several bursts can always end with receives left over. */
  lemma LongRunLeaves(cfg: Config, conns: nat) returns (run: seq<State>)
    requires cfg.Valid() && conns > 0 && cfg.Pack() > 1 && AcksFit(cfg) && cfg.iterations > cfg.window
    ensures IsRun(cfg, Zeros(conns), run) && run[|run| - 1].done
    ensures var s := run[|run| - 1]; |s.links| == conns && s.links[0].ackReceives > 0
  {
    hide Inv, Step, Init;
    var first := [Init(cfg, Zeros(conns))];
    if AckCount(cfg) >= cfg.window {
      PackRange(cfg);
      AckCountBounds(cfg);
      SecondRoundLeaves(cfg.Pack(), cfg.window, cfg.iterations, AckCount(cfg));
      var l := SecondRound(cfg);
      first := PlayTo(cfg, conns, l);
    }
    run := FinishFirst(cfg, conns, first);
    DoneLeavesOver(cfg, conns, run, 0);
  }

  lemma SomeRunEnds(cfg: Config, conns: nat) returns (run: seq<State>)
    requires cfg.Valid() && conns > 0 && AcksFit(cfg)
    ensures IsRun(cfg, Zeros(conns), run) && run[|run| - 1].done
  {
    hide Inv, Step, Init;
    run := FinishFirst(cfg, conns, [Init(cfg, Zeros(conns))]);
  }

  lemma FailsWhenNot(cfg: Config, conns: nat)
    requires cfg.Valid() && conns > 0 && !TwiceFit(cfg)
    ensures !TwiceSafe(cfg, conns)
  {
    hide Init, AckCount, Step, NothingFailed;
    if !AcksFit(cfg) {
      var run := FailingFresh(cfg, conns);
    } else {
      PackRange(cfg);
      var run;
      if cfg.iterations > cfg.window {
        run := LongRunLeaves(cfg, conns);
      } else {
        run := SomeRunEnds(cfg, conns);
      }
      DoneLeavesOver(cfg, conns, run, 0);
      var s := run[|run| - 1];
      assert Held(s)[0] + Min(cfg.window, cfg.iterations) > cfg.window;
      var next := FailingAt(cfg, Held(s), 0);
    }
  }

  /** Two operations never fail, on any number of connections and in any schedule,
      exactly under the condition. */
  lemma TwoOperationsIff(cfg: Config, conns: nat)
    requires cfg.Valid() && conns > 0
    ensures TwiceSafe(cfg, conns) <==> TwiceFit(cfg)
  {
    if TwiceFit(cfg) {
      SafeWhenFit(cfg, conns);
    } else {
      FailsWhenNot(cfg, conns);
    }
  }

  /** One operation may be safe and two of it not: any run of a full window. */
  lemma FullWindowFailsSecond(cfg: Config, conns: nat)
    requires cfg.Valid() && conns > 0 && cfg.window >= 4 && cfg.iterations == cfg.window
    ensures FitFrom(cfg, 0) && !TwiceSafe(cfg, conns)
  {
    PackRange(cfg);
    AckCountBounds(cfg);
    assert cfg.Pack() * cfg.Pack() >= 0;
    Scale(2, cfg.Pack(), AckCount(cfg) - 1);
    TwoOperationsIff(cfg, conns);
  }
}
