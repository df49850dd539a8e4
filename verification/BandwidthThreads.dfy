/** The loops of the two benchmark threads as they are written, each proved
    against what the transition system of FlowControl does. */
module BandwidthThreads {
  import opened FlowControl
  import opened FlowSlots

  /** The client's counters for one connection. */
  datatype Side = Side(budget: nat, pending: nat, ackCounter: nat, offered: nat)

  function SideOf(l: Link): Side { Side(l.budget, l.pending, l.ackCounter, l.offered) }

  function BurstSize(cfg: Config, s: Side): nat
    requires s.pending <= cfg.window
  {
    Min(cfg.window - s.pending, s.budget)
  }

  /** One burst: the window is filled or the budget used up; receives are posted
      for all of its messages or for none; the counter moves by one per burst. */
  function BurstSide(cfg: Config, s: Side): Side
    requires s.pending <= cfg.window
  {
    var n := BurstSize(cfg, s);
    Side(s.budget - n, s.pending + n,
         if n == 0 then s.ackCounter else if s.ackCounter + 1 < cfg.Pack() then s.ackCounter + 1 else 0,
         s.offered + if s.ackCounter == 0 then n else 0)
  }

  /** The body of the connection loop up to the polling of acknowledgements. */
  method SendBurst(cfg: Config, totalBudgets: seq<nat>, pendingMessages: seq<nat>, ackMsgCounters: seq<nat>,
                   connIdx: nat)
    returns (totalBudgets': seq<nat>, pendingMessages': seq<nat>, ackMsgCounters': seq<nat>,
             posted: nat, slots: seq<int>)
    requires cfg.Valid() && connIdx < |totalBudgets| == |pendingMessages| == |ackMsgCounters|
    requires pendingMessages[connIdx] <= cfg.window && totalBudgets[connIdx] <= cfg.iterations
    ensures var s := BurstSide(cfg, Side(totalBudgets[connIdx], pendingMessages[connIdx], ackMsgCounters[connIdx], 0));
            && totalBudgets' == totalBudgets[connIdx := s.budget]
            && pendingMessages' == pendingMessages[connIdx := s.pending]
            && ackMsgCounters' == ackMsgCounters[connIdx := s.ackCounter]
            && posted == s.offered
    ensures |slots| == totalBudgets[connIdx] - totalBudgets'[connIdx]
    ensures InOrder(cfg, slots, cfg.iterations - totalBudgets[connIdx])
  {
    totalBudgets', pendingMessages', ackMsgCounters' := totalBudgets, pendingMessages, ackMsgCounters;
    var ackMsgPackgin := cfg.window / 2;
    if ackMsgPackgin < 1 {
      ackMsgPackgin := 1;
    }
    var totalBudget := totalBudgets[connIdx];
    var pendingMsgs := pendingMessages[connIdx];
    var ackMsgCounter := ackMsgCounters[connIdx];
    posted, slots := 0, [];
    var sendBudget := cfg.window - pendingMsgs;
    if sendBudget > totalBudget {
      sendBudget := totalBudget;
    }
    var i := 0;
    while i < sendBudget
      invariant i <= sendBudget
      invariant posted == if ackMsgCounter == 0 then i else 0
      invariant ackMsgCounters' ==
                if i == 0 then ackMsgCounters
                else ackMsgCounters[connIdx := if ackMsgCounter + 1 < ackMsgPackgin then ackMsgCounter + 1 else 0]
      invariant |slots| == i && InOrder(cfg, slots, cfg.iterations - totalBudget)
    {
      if ackMsgCounter == 0 {
        posted := posted + 1;
      }
      ackMsgCounters' := ackMsgCounters'[connIdx := if ackMsgCounter + 1 < ackMsgPackgin then ackMsgCounter + 1 else 0];
      InOrderAppend(cfg, slots, cfg.iterations - totalBudget);
      slots := slots + [(totalBudget - i) % cfg.slots];
      i := i + 1;
    }
    totalBudgets' := totalBudgets'[connIdx := totalBudgets'[connIdx] - sendBudget];
    pendingMessages' := pendingMessages'[connIdx := pendingMessages'[connIdx] + sendBudget];
  }

  /** The polling loop: `acks` are the immediates it gets before the empty poll.
      `blocking` tells for every poll whether it waits: it does exactly while the
      window is full. */
  method PollAcks(cfg: Config, pendingMessages: seq<nat>, totalBudgets: seq<nat>, workingConnections: int,
                  connIdx: nat, acks: seq<nat>)
    returns (pendingMessages': seq<nat>, workingConnections': int, blocking: seq<bool>)
    requires connIdx < |pendingMessages| == |totalBudgets|
    requires Total(acks) <= pendingMessages[connIdx]
    ensures pendingMessages' == pendingMessages[connIdx := pendingMessages[connIdx] - Total(acks)]
    ensures workingConnections - workingConnections' ==
            if totalBudgets[connIdx] == 0 && Total(acks) == pendingMessages[connIdx] then 1 else 0
    ensures |blocking| == |acks| + 1
    ensures forall k :: 0 <= k <= |acks| ==>
                          (blocking[k] <==> pendingMessages[connIdx] - Total(acks[..k]) == cfg.window)
  {
    pendingMessages', workingConnections' := pendingMessages, workingConnections;
    blocking := [];
    var i := 0;
    while i < |acks|
      invariant i <= |acks| && |pendingMessages'| == |pendingMessages|
      invariant Total(acks[i..]) <= pendingMessages'[connIdx]
      invariant pendingMessages' == pendingMessages[connIdx := pendingMessages'[connIdx]]
      invariant pendingMessages'[connIdx] - Total(acks[i..]) == pendingMessages[connIdx] - Total(acks)
      invariant pendingMessages'[connIdx] == pendingMessages[connIdx] - Total(acks[..i])
      invariant |blocking| == i
      invariant forall k :: 0 <= k < i ==>
                              (blocking[k] <==> pendingMessages[connIdx] - Total(acks[..k]) == cfg.window)
    {
      blocking := blocking + [pendingMessages'[connIdx] == cfg.window];
      assert acks[i..][1..] == acks[i + 1..];
      TotalAppend(acks[..i], acks[i]);
      assert acks[..i + 1] == acks[..i] + [acks[i]];
      pendingMessages' := pendingMessages'[connIdx := pendingMessages'[connIdx] - acks[i]];
      i := i + 1;
    }
    blocking := blocking + [pendingMessages'[connIdx] == cfg.window];
    assert acks[..i] == acks;
    if totalBudgets[connIdx] == 0 && pendingMessages'[connIdx] == 0 {
      workingConnections' := workingConnections' - 1;
    }
  }

  lemma PostNext(cfg: Config, posted: seq<int>, left: nat)
    requires cfg.Valid() && InOrder(cfg, posted, 0) && |posted| + left == cfg.iterations
    ensures InOrder(cfg, posted + [left % cfg.slots], 0)
  {
    assert cfg.iterations - |posted| == left;
  }

  ghost predicate FullPacks(cfg: Config, acks: seq<nat>, last: bool) {
    forall k :: 0 <= k < |acks| ==> 1 <= acks[k] <= cfg.Pack() && (k + 1 < |acks| || !last ==> acks[k] == cfg.Pack())
  }

  lemma PackFits(cfg: Config, c: nat)
    requires cfg.Valid() && c <= cfg.Pack()
    ensures c % IMM_MODULUS == c
  {
  }

  lemma PackNext(cfg: Config, acks: seq<nat>, c: nat, last: bool)
    requires cfg.Valid() && FullPacks(cfg, acks, false) && 1 <= c <= cfg.Pack() && (c == cfg.Pack() || last)
    ensures FullPacks(cfg, acks + [c % IMM_MODULUS], last) && Total(acks + [c % IMM_MODULUS]) == Total(acks) + c
  {
    PackFits(cfg, c);
    TotalAppend(acks, c);
    hide Config.Pack, Total;
    var all := acks + [c % IMM_MODULUS];
    forall k | 0 <= k < |all|
      ensures 1 <= all[k] <= cfg.Pack() && (k + 1 < |all| || !last ==> all[k] == cfg.Pack())
    {
      assert k < |acks| ==> all[k] == acks[k];
    }
  }

  lemma PackedNothing(cfg: Config)
    requires cfg.Valid()
    ensures FullPacks(cfg, [], false) && Total([]) == 0 && InOrder(cfg, [], 0)
  {
  }

  /** The server thread's whole loop, given that every blocking poll returns. It
      polls every message once, posts the receive of every message once and in
      order, and its immediates add up to the number of messages, each a full
      pack except perhaps the last. */
  method ServeAll(cfg: Config) returns (polled: nat, posted: seq<int>, acks: seq<nat>)
    requires cfg.Valid()
    ensures polled == cfg.iterations
    ensures |posted| == cfg.iterations && InOrder(cfg, posted, 0)
    ensures Total(acks) == cfg.iterations && FullPacks(cfg, acks, true)
  {
    hide InOrder, FullPacks, Total;
    PackedNothing(cfg);
    var ackMsgPackgin := cfg.window / 2;
    if ackMsgPackgin < 1 {
      ackMsgPackgin := 1;
    }
    var ackMsgCounter := 0;
    var totalBudget := cfg.iterations;
    var budgetR := if totalBudget > cfg.window then cfg.window else totalBudget;
    polled, posted, acks := 0, [], [];
    var i := 0;
    while i < budgetR
      invariant i <= budgetR && |posted| == i && InOrder(cfg, posted, 0)
    {
      PostNext(cfg, posted, totalBudget - i);
      posted := posted + [(totalBudget - i) % cfg.slots];
      i := i + 1;
    }
    totalBudget := totalBudget - budgetR;
    var more := true;
    while more
      invariant totalBudget >= 0 && budgetR >= 0 && polled + totalBudget + budgetR == cfg.iterations
      invariant more == (totalBudget > 0 || budgetR > 0)
      invariant totalBudget > 0 ==> budgetR == cfg.window
      invariant |posted| == cfg.iterations - totalBudget && InOrder(cfg, posted, 0)
      invariant ackMsgCounter < ackMsgPackgin && (!more ==> ackMsgCounter == 0)
      invariant Total(acks) + ackMsgCounter == polled
      invariant FullPacks(cfg, acks, !more)
      decreases totalBudget + budgetR
    {
      polled := polled + 1;
      budgetR := budgetR - 1;
      if totalBudget > 0 {
        PostNext(cfg, posted, totalBudget);
        posted := posted + [totalBudget % cfg.slots];
        budgetR := budgetR + 1;
        totalBudget := totalBudget - 1;
      }
      ackMsgCounter := ackMsgCounter + 1;
      var lastMsg := totalBudget == 0 && budgetR == 0;
      if ackMsgCounter == ackMsgPackgin || lastMsg {
        PackNext(cfg, acks, ackMsgCounter, lastMsg);
        acks := acks + [ackMsgCounter % IMM_MODULUS];
        ackMsgCounter := 0;
      }
      more := totalBudget > 0 || budgetR > 0;
    }
  }

  // ---- the burst in the transition system ----

  /** `l` is inside the burst that began at `l0`, whatever happened meanwhile. */
  ghost predicate InBurst(cfg: Config, l0: Link, l: Link) {
    && l0.pending <= cfg.window
    && l.phase.Burst?
    && l.phase == Burst(l.phase.i, BurstSize(cfg, SideOf(l0)), l0.budget, l0.ackCounter)
    && l.phase.i <= l.phase.n
    && SideOf(l) == Side(l0.budget, l0.pending,
                         if l.phase.i == 0 then l0.ackCounter
                         else if l0.ackCounter + 1 < cfg.Pack() then l0.ackCounter + 1 else 0,
                         l0.offered + if l0.ackCounter == 0 then l.phase.i else 0)
  }

  lemma BurstBegins(cfg: Config, l0: Link, l: Link)
    requires Visit(cfg, l0, l)
    ensures InBurst(cfg, l0, l)
  {
  }

  /** Whatever the server and the network do during a burst, it ends with the
      counters that the loop of SendBurst computes. */
  lemma BurstEndsAs(cfg: Config, l0: Link, l: Link, l': Link)
    requires cfg.Valid() && InBurst(cfg, l0, l) && LinkStep(cfg, l, l') && l'.failure == {}
    ensures if BurstEnd(l, l') then SideOf(l') == BurstSide(cfg, SideOf(l0)) else InBurst(cfg, l0, l')
  {
    hide Config.Pack;
  }
}
