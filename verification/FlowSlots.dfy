/** Slot agreement: however the bursts are split, the j-th message is sent from
    slot (T-j) mod slots and lands in the receive posted j-th, which names the
    same slot. */
module FlowSlots {
  import opened Arithmetic
  import opened FlowControl

  /** The slots of messages `first`, `first + 1`, and so on. */
  ghost predicate InOrder(cfg: Config, slots: seq<int>, first: nat)
    requires cfg.Valid()
  {
    forall k :: 0 <= k < |slots| ==> slots[k] == cfg.Slot(first + k)
  }

  /** Pairs (sent from, received into) that agree, for messages `first`, `first + 1`, and so on. */
  ghost predicate PairsInOrder(cfg: Config, pairs: seq<(int, int)>, first: nat)
    requires cfg.Valid()
  {
    forall k :: 0 <= k < |pairs| ==> pairs[k].0 == pairs[k].1 == cfg.Slot(first + k)
  }

  lemma InOrderTail(cfg: Config, slots: seq<int>, first: nat)
    requires cfg.Valid() && InOrder(cfg, slots, first) && slots != []
    ensures InOrder(cfg, slots[1..], first + 1) && slots[0] == cfg.Slot(first)
  {
    assert slots[0] == cfg.Slot(first + 0);
    forall k | 0 <= k < |slots[1..]| ensures slots[1..][k] == cfg.Slot(first + 1 + k) {
      assert slots[1..][k] == slots[k + 1] == cfg.Slot(first + (k + 1));
    }
  }

  lemma PairsTail(cfg: Config, pairs: seq<(int, int)>, first: nat)
    requires cfg.Valid() && PairsInOrder(cfg, pairs, first) && pairs != []
    ensures PairsInOrder(cfg, pairs[1..], first + 1) && pairs[0] == (cfg.Slot(first), cfg.Slot(first))
  {
    assert pairs[0].0 == cfg.Slot(first + 0);
    forall k | 0 <= k < |pairs[1..]| ensures pairs[1..][k].0 == pairs[1..][k].1 == cfg.Slot(first + 1 + k) {
      assert pairs[1..][k] == pairs[k + 1];
      assert pairs[k + 1].0 == cfg.Slot(first + (k + 1));
    }
  }

  lemma InOrderAppend(cfg: Config, slots: seq<int>, first: nat)
    requires cfg.Valid() && InOrder(cfg, slots, first)
    ensures InOrder(cfg, slots + [cfg.Slot(first + |slots|)], first)
  {
  }

  ghost predicate SlotInv(cfg: Config, l: Link)
    requires cfg.Valid() && LinkInv(cfg, l)
  {
    && PairsInOrder(cfg, l.received, l.Served(cfg))
    && InOrder(cfg, l.messages, l.Served(cfg) + |l.received|)
    && InOrder(cfg, l.receives, l.Served(cfg) + |l.received|)
  }

  lemma StartSlots(cfg: Config, held: nat)
    requires cfg.Valid()
    ensures LinkInv(cfg, Start(cfg, held)) && SlotInv(cfg, Start(cfg, held))
  {
    StartInv(cfg, held);
  }

  lemma SlotOfNext(cfg: Config, l: Link)
    requires cfg.Valid() && LinkInv(cfg, l) && l.phase.Burst?
    ensures (l.phase.budget - l.phase.i) % cfg.slots == cfg.Slot(l.Served(cfg) + |l.received| + |l.messages|)
  {
    hide ServerInv, Config.Pack;
    assert l.phase.budget - l.phase.i == cfg.iterations - l.Sent(cfg);
  }

  lemma SendSlots(cfg: Config, l: Link, l': Link)
    requires cfg.Valid() && LinkInv(cfg, l) && SlotInv(cfg, l) && LinkInv(cfg, l') && Send(cfg, l, l')
    ensures SlotInv(cfg, l')
  {
    InOrderAppend(cfg, l.messages, l.Served(cfg) + |l.received|);
    SlotOfNext(cfg, l);
    hide InOrder, PairsInOrder, LinkInv, Config.Pack, Config.Slot;
  }

  lemma MessageArrivesSlots(cfg: Config, l: Link, l': Link)
    requires cfg.Valid() && LinkInv(cfg, l) && SlotInv(cfg, l) && LinkInv(cfg, l') && MessageArrives(l, l')
    ensures SlotInv(cfg, l')
  {
    hide InOrder, PairsInOrder, LinkInv, Config.Slot;
    LinkSafe(cfg, l);
    if l.receives != [] {
      InOrderTail(cfg, l.messages, l.Served(cfg) + |l.received|);
      InOrderTail(cfg, l.receives, l.Served(cfg) + |l.received|);
      ArrivedPair(cfg, l, l');
    }
  }

  lemma ServerPollSlots(cfg: Config, l: Link, l': Link)
    requires cfg.Valid() && LinkInv(cfg, l) && SlotInv(cfg, l) && LinkInv(cfg, l') && ServerPoll(l, l')
    ensures SlotInv(cfg, l')
  {
    PairsTail(cfg, l.received, l.Served(cfg));
  }

  lemma ServerRepostSlots(cfg: Config, l: Link, l': Link)
    requires cfg.Valid() && LinkInv(cfg, l) && SlotInv(cfg, l) && LinkInv(cfg, l') && ServerRepost(cfg, l, l')
    ensures SlotInv(cfg, l')
  {
    hide InOrder, PairsInOrder, LinkInv, Config.Slot;
    LinkSafe(cfg, l);
    InOrderAppend(cfg, l.receives, l.Served(cfg) + |l.received|);
    RepostSlot(cfg, l);
  }

  lemma RepostSlot(cfg: Config, l: Link)
    requires cfg.Valid() && LinkInv(cfg, l)
    ensures l.todo % cfg.slots == cfg.Slot(l.Served(cfg) + |l.received| + |l.receives|)
  {
    hide ClientInv, ChannelInv, Config.Pack;
    assert cfg.iterations - l.todo == l.Served(cfg) + |l.received| + |l.receives|;
  }

  /** Steps that leave both ends of the message channel alone. */
  lemma UnchangedSlots(cfg: Config, l: Link, l': Link)
    requires cfg.Valid() && LinkInv(cfg, l) && SlotInv(cfg, l) && LinkInv(cfg, l')
    requires l'.received == l.received && l'.messages == l.messages && l'.receives == l.receives
    requires l'.todo == l.todo && l'.open == l.open
    ensures SlotInv(cfg, l')
  {
  }

  lemma ClientStepSlots(cfg: Config, l: Link, l': Link)
    requires cfg.Valid() && LinkInv(cfg, l) && SlotInv(cfg, l) && l.failure == {} && ClientStep(cfg, l, l')
    ensures LinkInv(cfg, l') && SlotInv(cfg, l')
  {
    ClientStepInv(cfg, l, l');
    if Send(cfg, l, l') {
      SendSlots(cfg, l, l');
    } else {
      UnchangedSlots(cfg, l, l');
    }
  }

  lemma OtherStepSlots(cfg: Config, l: Link, l': Link)
    requires cfg.Valid() && LinkInv(cfg, l) && SlotInv(cfg, l) && l.failure == {} && OtherStep(cfg, l, l')
    ensures LinkInv(cfg, l') && SlotInv(cfg, l')
  {
    hide LinkInv, SlotInv;
    OtherStepInv(cfg, l, l');
    if MessageArrives(l, l') {
      MessageArrivesSlots(cfg, l, l');
    } else if ServerPoll(l, l') {
      ServerPollSlots(cfg, l, l');
    } else if ServerRepost(cfg, l, l') {
      ServerRepostSlots(cfg, l, l');
    } else {
      UnchangedSlots(cfg, l, l');
    }
  }

  lemma ArrivedPair(cfg: Config, l: Link, l': Link)
    requires cfg.Valid() && LinkInv(cfg, l) && SlotInv(cfg, l) && l.messages != [] && l.receives != []
    requires l'.received == l.received + [(l.messages[0], l.receives[0])]
    ensures PairsInOrder(cfg, l'.received, l.Served(cfg))
  {
    InOrderTail(cfg, l.messages, l.Served(cfg) + |l.received|);
    InOrderTail(cfg, l.receives, l.Served(cfg) + |l.received|);
  }

  /** The server polls messages in order, each from the slot it was sent from. */
  lemma PolledSlot(cfg: Config, l: Link, l': Link)
    requires cfg.Valid() && LinkInv(cfg, l) && SlotInv(cfg, l) && ServerPoll(l, l')
    ensures var j := l.Served(cfg); l.received[0] == (cfg.Slot(j), cfg.Slot(j)) && l'.Served(cfg) == j + 1
  {
  }

  // ---- the memory regions behind the slots ----

  /** Start of the client's send region of a connection and slot. */
  function SendRegion(connIdx: nat, packet: nat, slots: nat, slot: nat): nat {
    connIdx * packet * slots + slot * packet
  }

  lemma RegionIndex(connIdx: nat, packet: nat, slots: nat, slot: nat)
    ensures SendRegion(connIdx, packet, slots, slot) == (connIdx * slots + slot) * packet
  {
    assert connIdx * packet * slots == (connIdx * slots) * packet;
  }

  lemma MulOrder(a: int, b: int, p: nat)
    requires a < b
    ensures a * p + p <= b * p
  {
    Scale(a + 1, b, p);
  }

  lemma IndexDistinct(conns: nat, slots: nat, c: nat, s: nat, d: nat, t: nat)
    requires c < conns && d < conns && s < slots && t < slots
    ensures 0 <= c * slots + s < conns * slots
    ensures (c, s) != (d, t) ==> c * slots + s != d * slots + t
  {
    MulOrder(c, conns, slots);
    if c < d {
      MulOrder(c, d, slots);
    } else if d < c {
      MulOrder(d, c, slots);
    }
  }

  ghost predicate Disjoint(a: int, b: int, size: int) { a + size <= b || b + size <= a }

  lemma DistinctApart(i: int, j: int, packet: nat)
    requires i != j
    ensures Disjoint(i * packet, j * packet, packet)
  {
    if i < j {
      MulOrder(i, j, packet);
    } else {
      MulOrder(j, i, packet);
    }
  }

  lemma BlockSize(packet: nat, slots: nat, conns: nat)
    ensures packet * slots * conns == (conns * slots) * packet
  {
    assert packet * slots == slots * packet;
    assert slots * packet * conns == (conns * slots) * packet;
  }

  /** Send regions lie in the client's block and do not overlap. */
  lemma RegionsDisjoint(conns: nat, packet: nat, slots: nat, c: nat, s: nat, d: nat, t: nat)
    requires c < conns && d < conns && s < slots && t < slots
    ensures SendRegion(c, packet, slots, s) + packet <= packet * slots * conns
    ensures (c, s) != (d, t) ==> Disjoint(SendRegion(c, packet, slots, s), SendRegion(d, packet, slots, t), packet)
  {
    RegionIndex(c, packet, slots, s);
    RegionIndex(d, packet, slots, t);
    BlockSize(packet, slots, conns);
    IndexDistinct(conns, slots, c, s, d, t);
    MulOrder(c * slots + s, conns * slots, packet);
    if (c, s) != (d, t) {
      DistinctApart(c * slots + s, d * slots + t, packet);
    }
  }
}
