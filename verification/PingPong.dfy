/** The latency loop over one-sided writes, for one server. The client writes a
    word that names where its answer belongs, the server recognises a new word by
    its parity, which alternates from pass to pass over the slots, and writes it back. */
module PingPong {
  import opened Arithmetic
  import opened Options

  const WORD := 0x1_0000_0000            // uint32_t
  const SIZE := 0x1_0000_0000_0000_0000  // size_t

  /** Slots, packet size, offset of the client's block, iterations. */
  datatype Config = Config(slots: nat, packet: nat, root: nat, iterations: nat) {
    function Slot(i: nat): (s: nat)
      requires slots > 0
      ensures s < slots
    {
      i % slots
    }

    function Flip(i: nat): (f: nat)
      requires slots > 0
      ensures f == 1 || f == 2
    {
      1 + (i / slots) % 2
    }

    /** Where the answer of iteration `i` belongs: region 2 * slot of the client's block. */
    function ReceiveOffset(i: nat): nat
      requires slots > 0
    {
      root + 2 * Slot(i) * packet
    }

    function Word(i: nat): nat
      requires slots > 0 && packet > 0
    {
      Encode(ReceiveOffset(i), packet, Flip(i))
    }

    /** The block starts on a packet boundary and every word fits. */
    ghost predicate Valid() {
      && slots > 0 && packet > 0 && root % packet == 0
      && (root / packet + 2 * (slots - 1)) * 2 + 2 < WORD
      && root + 2 * slots * packet < SIZE
    }
  }

  function Encode(address: nat, packet: nat, flip: nat): nat
    requires packet > 0
  {
    (address / packet * 2 + flip) % WORD
  }

  /** The server's arithmetic, in size_t. */
  function Decode(word: nat, packet: nat, flip: nat): nat {
    ((word - flip) % SIZE) / 2 * packet % SIZE
  }

  // ---- the address survives exactly when it is aligned and fits ----

  lemma Quotient(address: nat, packet: nat)
    requires packet > 0
    ensures address / packet * packet <= address < address / packet * packet + packet
    ensures address / packet * packet == address <==> address % packet == 0
  {
    assert address == packet * (address / packet) + address % packet;
  }

  /** Without underflow the server multiplies out half of the difference. */
  lemma DecodePlain(word: nat, packet: nat, flip: nat, t: nat, address: nat)
    requires packet > 0 && word - flip == 2 * t && word < WORD && t * packet <= address < SIZE
    ensures Decode(word, packet, flip) == t * packet
  {
    assert (word - flip) % SIZE == word - flip;
    assert (word - flip) / 2 == t;
  }

  lemma DecodeFits(address: nat, packet: nat, flip: nat)
    requires packet > 0 && flip in {1, 2} && address < 0x1_0000_0000_0000_0000
    requires address / packet * 2 + flip < 0x1_0000_0000
    ensures Decode(Encode(address, packet, flip), packet, flip) == address / packet * packet
    ensures Encode(address, packet, flip) == address / packet * 2 + flip
  {
    Quotient(address, packet);
    EncodeFits(address, packet, flip);
    hide Encode, Decode;
    DecodePlain(address / packet * 2 + flip, packet, flip, address / packet, address);
  }

  /** The word is a uint32_t: it is cut off to 32 bits, and only then loses anything. */
  lemma EncodeFits(address: nat, packet: nat, flip: nat)
    requires packet > 0
    ensures 0 <= Encode(address, packet, flip) < 0x1_0000_0000
    ensures Encode(address, packet, flip) == address / packet * 2 + flip <==>
            address / packet * 2 + flip < 0x1_0000_0000
  {
    var word := address / packet * 2 + flip;
    assert word < WORD ==> word % WORD == word;
  }

  /** Where the server's difference wraps below zero, whatever the word. */
  function UnderflowAddress(packet: nat): int {
    (if packet % 2 == 0 then 0x1_0000_0000_0000_0000 else 0x8000_0000_0000_0000) - packet
  }

  lemma DecodeWrapped(address: nat, packet: nat, flip: nat)
    requires packet > 0 && flip in {1, 2} && address < 0x1_0000_0000_0000_0000
    requires address / packet * 2 + flip >= 0x1_0000_0000
    ensures Decode(Encode(address, packet, flip), packet, flip) == address <==>
            flip == 2 && (address / packet + 1) % 0x8000_0000 == 0 && address == UnderflowAddress(packet)
  {
    var q := address / packet;
    Quotient(address, packet);
    var k, v := (q * 2 + flip) / WORD, Encode(address, packet, flip);
    assert q * 2 + flip == k * WORD + v && k >= 1;
    WrappedWord(q, flip, k, v);
    if v >= flip {
      var t := q - k * (WORD / 2);
      assert v - flip == 2 * t;
      Scale(t + 1, q, packet);
      assert (t + 1) * packet == t * packet + packet;
      DecodePlain(v, packet, flip, t, address);
    } else {
      PacketIsSmall(address, packet, q);
      Underflow(packet);
      assert (v - flip) % SIZE == SIZE - 2;
    }
  }

  /** A word that is cut off is below its flip only if it is cut off to zero. */
  lemma WrappedWord(q: nat, flip: nat, k: nat, v: nat)
    requires flip in {1, 2} && q * 2 + flip == k * WORD + v && v < WORD
    ensures v < flip <==> flip == 2 && v == 0
    ensures flip == 2 && v == 0 <==> flip == 2 && (q + 1) % (WORD / 2) == 0
  {
    if flip == 2 && v == 0 {
      RemainderUnique(WORD / 2, k, 0, q + 1);
    }
  }

  lemma PacketIsSmall(address: nat, packet: nat, q: nat)
    requires q * packet <= address < SIZE && q * 2 + 2 >= WORD
    ensures packet <= 0x4000_0000_0000_0000
  {
    Scale(0x7FFF_FFFF, q, packet);
  }

  lemma Underflow(packet: nat)
    requires 0 < packet <= 0x4000_0000_0000_0000
    ensures (0x7FFF_FFFF_FFFF_FFFF * packet) % SIZE == UnderflowAddress(packet)
  {
    var h := packet / 2;
    if packet % 2 == 0 {
      RemainderUnique(SIZE, h - 1, SIZE - packet, 0x7FFF_FFFF_FFFF_FFFF * packet);
    } else {
      RemainderUnique(SIZE, h, SIZE / 2 - packet, 0x7FFF_FFFF_FFFF_FFFF * packet);
    }
  }

  /** The server writes back to where the client reads exactly when the address is
      a multiple of the packet size and its word needs no more than 32 bits, or at
      the one address per packet size where both sides wrap by the same amount. */
  lemma DecodeIff(address: nat, packet: nat, flip: nat)
    requires packet > 0 && flip in {1, 2} && address < 0x1_0000_0000_0000_0000
    ensures Decode(Encode(address, packet, flip), packet, flip) == address <==>
            || (address % packet == 0 && address / packet * 2 + flip < 0x1_0000_0000)
            || (flip == 2 && (address / packet + 1) % 0x8000_0000 == 0 && address == UnderflowAddress(packet))
  {
    hide Encode, Decode, UnderflowAddress;
    if address / packet * 2 + flip < WORD {
      DecodeFits(address, packet, flip);
      Quotient(address, packet);
      SmallRemainder(address / packet);
    } else {
      DecodeWrapped(address, packet, flip);
    }
  }

  lemma SmallRemainder(q: nat)
    ensures q + 1 < WORD / 2 ==> (q + 1) % (WORD / 2) != 0
  {
  }

  /** Below 2^62, so for any real memory, the second case does not arise. */
  lemma DecodeIffBelow(address: nat, packet: nat, flip: nat)
    requires 0 < packet <= 0x4000_0000_0000_0000 && flip in {1, 2} && address < 0x4000_0000_0000_0000
    ensures Decode(Encode(address, packet, flip), packet, flip) == address <==>
            address % packet == 0 && address / packet * 2 + flip < 0x1_0000_0000
  {
    hide Encode, Decode;
    DecodeIff(address, packet, flip);
  }

  /** It does arise above: the last even address, in packets of two bytes. */
  lemma LastAddressSurvives()
    ensures var last := 0xFFFF_FFFF_FFFF_FFFE;
            Decode(Encode(last, 2, 2), 2, 2) == last && last / 2 * 2 + 2 >= 0x1_0000_0000
  {
    assert Encode(0xFFFF_FFFF_FFFF_FFFE, 2, 2) == 0;
  }

  lemma RegionAddress(cfg: Config, i: nat)
    requires cfg.Valid()
    ensures cfg.ReceiveOffset(i) % cfg.packet == 0 && cfg.ReceiveOffset(i) < SIZE
    ensures cfg.ReceiveOffset(i) / cfg.packet == cfg.root / cfg.packet + 2 * cfg.Slot(i)
  {
    var s, p := cfg.Slot(i), cfg.packet;
    assert cfg.ReceiveOffset(i) == p * (cfg.root / p + 2 * s) + 0;
    RemainderUnique(p, cfg.root / p + 2 * s, 0, cfg.ReceiveOffset(i));
    Scale(2 * s, 2 * cfg.slots, p);
  }

  lemma EvenPart(q: nat, flip: nat)
    ensures (q * 2 + flip) % 2 == flip % 2
  {
  }

  lemma WordFits(cfg: Config, i: nat)
    requires cfg.Valid()
    ensures cfg.ReceiveOffset(i) < SIZE && cfg.ReceiveOffset(i) / cfg.packet * 2 + cfg.Flip(i) < WORD
    ensures cfg.ReceiveOffset(i) / cfg.packet * cfg.packet == cfg.ReceiveOffset(i)
  {
    RegionAddress(cfg, i);
    Quotient(cfg.ReceiveOffset(i), cfg.packet);
    hide Config.ReceiveOffset;
  }

  /** The word of an iteration is not cut off, is odd in the first pass over the
      slots and alternates from pass to pass, is not zero, and decodes to the
      client's region. */
  lemma WordFacts(cfg: Config, i: nat)
    requires cfg.Valid()
    ensures cfg.Word(i) > 0 && cfg.Word(i) % 2 == cfg.Flip(i) % 2 == (1 + i / cfg.slots) % 2
    ensures Decode(cfg.Word(i), cfg.packet, cfg.Flip(i)) == cfg.ReceiveOffset(i)
  {
    WordFits(cfg, i);
    var q := cfg.ReceiveOffset(i) / cfg.packet;
    hide Config.Valid, Encode, Decode, Config.ReceiveOffset, Config.Slot, Config.Flip;
    DecodeFits(cfg.ReceiveOffset(i), cfg.packet, cfg.Flip(i));
    EvenPart(q, cfg.Flip(i));
    FlipParity(cfg, i);
  }

  lemma FlipParity(cfg: Config, i: nat)
    requires cfg.Valid()
    ensures cfg.Flip(i) % 2 == (1 + i / cfg.slots) % 2
    ensures i < cfg.slots ==> cfg.Flip(i) == 1
  {
    if i < cfg.slots {
      RemainderUnique(cfg.slots, 0, i, i);
    }
  }

  /** The client sends from the packet behind the one it receives into. */
  function SendOffset(cfg: Config, i: nat): nat
    requires cfg.slots > 0
  {
    cfg.ReceiveOffset(i) + cfg.packet
  }

  /** The receive and send packets of all slots lie in the client's block, apart from each other. */
  lemma PacketsApart(cfg: Config, i: nat, j: nat)
    requires cfg.Valid()
    ensures cfg.root <= cfg.ReceiveOffset(i) && SendOffset(cfg, i) + cfg.packet <= cfg.root + 2 * cfg.slots * cfg.packet
    ensures cfg.Slot(i) < cfg.Slot(j) ==> SendOffset(cfg, i) + cfg.packet <= cfg.ReceiveOffset(j)
    ensures cfg.ReceiveOffset(i) + cfg.packet <= SendOffset(cfg, i)
  {
    var a, b, n, p := cfg.Slot(i), cfg.Slot(j), cfg.slots, cfg.packet;
    assert 2 * a * p + 2 * p == 2 * (a + 1) * p;
    Scale(2 * (a + 1), 2 * n, p);
    if a < b {
      Scale(2 * (a + 1), 2 * b, p);
    }
    Scale(0, 2 * a, p);
  }

  // ---- the two loops ----

  /** Next: about to write. Posted: the write is not known to be complete. Polling: waits for the answer. */
  datatype ClientPhase = Next | Posted | Polling

  /** Looking: polls its slot. Answering: its write is not known to be complete. */
  datatype ServerPhase = Looking | Answering

  datatype State = State(
    i: nat, client: ClientPhase, clientWords: seq<nat>,   // first word of the receive region of each slot
    j: nat, server: ServerPhase, serverWords: seq<nat>,   // first word of each slot
    toServer: Option<(nat, nat)>,                         // slot, word
    toClient: Option<(nat, nat)>,                         // address, word
    accepted: seq<nat>, answered: seq<nat>)               // words taken by the server, by the client

  /** The server's slots start zeroed, the client's block with anything in it. */
  ghost predicate Init(cfg: Config, s: State) {
    && s.i == s.j == 0 && s.client.Next? && s.server.Looking?
    && |s.clientWords| == cfg.slots && s.serverWords == seq(cfg.slots, _ => 0)
    && s.toServer.None? && s.toClient.None? && s.accepted == [] && s.answered == []
  }

  /** A new pass first clears the client's block. */
  ghost predicate ClientWrite(cfg: Config, s: State, s': State)
    requires cfg.Valid()
  {
    && s.client.Next? && s.i < cfg.iterations
    && s' == s.(client := Posted, toServer := Some((cfg.Slot(s.i), cfg.Word(s.i))),
             clientWords := if cfg.Slot(s.i) == 0 then seq(|s.clientWords|, _ => 0) else s.clientWords)
  }

  ghost predicate ClientCompletes(s: State, s': State) {
    s.client.Posted? && s.toServer.None? && s' == s.(client := Polling)
  }

  ghost predicate ClientAccepts(cfg: Config, s: State, s': State)
    requires cfg.Valid()
  {
    && s.client.Polling? && cfg.Slot(s.i) < |s.clientWords|
    && var tmp := s.clientWords[cfg.Slot(s.i)];
    && tmp == cfg.Word(s.i) && tmp > 0
    && s' == s.(i := s.i + 1, client := Next, answered := s.answered + [tmp])
  }

  ghost predicate ReachesServer(s: State, s': State) {
    && s.toServer.Some? && s.toServer.value.0 < |s.serverWords|
    && s' == s.(toServer := None, serverWords := s.serverWords[s.toServer.value.0 := s.toServer.value.1])
  }

  ghost predicate ServerAccepts(cfg: Config, s: State, s': State)
    requires cfg.Valid()
  {
    && s.server.Looking? && s.j < cfg.iterations && cfg.Slot(s.j) < |s.serverWords|
    && var word := s.serverWords[cfg.Slot(s.j)];
    && word % 2 == cfg.Flip(s.j) % 2 && word > 0
    && s' == s.(server := Answering, accepted := s.accepted + [word],
             toClient := Some((Decode(word, cfg.packet, cfg.Flip(s.j)), word)))
  }

  /** The answer lands in whichever slot's region has that address; anywhere else
      it misses the words the client looks at. */
  ghost predicate ReachesClient(cfg: Config, s: State, s': State)
    requires cfg.Valid()
  {
    && s.toClient.Some?
    && |s'.clientWords| == |s.clientWords|
    && (forall k :: 0 <= k < |s.clientWords| ==>
                      s'.clientWords[k] ==
                      if s.toClient.value.0 == cfg.root + 2 * k * cfg.packet then s.toClient.value.1
                      else s.clientWords[k])
    && s' == s.(toClient := None, clientWords := s'.clientWords)
  }

  ghost predicate ServerCompletes(s: State, s': State) {
    s.server.Answering? && s.toClient.None? && s' == s.(server := Looking, j := s.j + 1)
  }

  ghost predicate Step(cfg: Config, s: State, s': State)
    requires cfg.Valid()
  {
    || ClientWrite(cfg, s, s') || ClientCompletes(s, s') || ClientAccepts(cfg, s, s')
    || ServerAccepts(cfg, s, s') || ServerCompletes(s, s')
    || ReachesServer(s, s') || ReachesClient(cfg, s, s')
  }

  ghost predicate IsRun(cfg: Config, run: seq<State>)
    requires cfg.Valid()
  {
    run != [] && Init(cfg, run[0]) && forall k :: 0 <= k < |run| - 1 ==> Step(cfg, run[k], run[k + 1])
  }

  // ---- invariant ----

  /** What slot `k` of the server holds after `n` writes have arrived. */
  function Held(cfg: Config, n: nat, k: nat): nat
    requires cfg.Valid()
  {
    if n == 0 then 0 else if cfg.Slot(n - 1) == k then cfg.Word(n - 1) else Held(cfg, n - 1, k)
  }

  /** Going back to the last write into the slot of iteration `i`. */
  lemma {:induction false} HeldBefore(cfg: Config, i: nat, d: nat)
    requires cfg.Valid() && d <= cfg.slots - 1 && d <= i
    ensures Held(cfg, i, cfg.Slot(i)) == Held(cfg, i - d, cfg.Slot(i))
  {
    if d > 0 {
      HeldBefore(cfg, i, d - 1);
      Apart(cfg.slots, i - d, d);
    }
  }

  lemma FlipAlternates(cfg: Config, o: nat)
    requires cfg.Valid()
    ensures cfg.Slot(o + cfg.slots) == cfg.Slot(o) && cfg.Flip(o + cfg.slots) % 2 != cfg.Flip(o) % 2
  {
    AddPeriod(cfg.slots, o);
  }

  /** Until write `i` arrives its slot holds a word the server does not accept. */
  lemma StaleParity(cfg: Config, i: nat)
    requires cfg.Valid()
    ensures var w := Held(cfg, i, cfg.Slot(i)); w == 0 || w % 2 != cfg.Flip(i) % 2
  {
    hide Config.Slot, Config.Word, Config.Flip;
    if i < cfg.slots {
      HeldBefore(cfg, i, i);
    } else {
      HeldBefore(cfg, i, cfg.slots - 1);
      FlipAlternates(cfg, i - cfg.slots);
      WordFacts(cfg, i - cfg.slots);
    }
  }

  // Counters behind the phases: writes issued and arrived, answers issued and arrived.
  function Written(s: State): nat { s.i + if s.client.Next? then 0 else 1 }

  function Arrived(s: State): int { Written(s) - if s.toServer.Some? then 1 else 0 }

  function Accepted(s: State): nat { s.j + if s.server.Answering? then 1 else 0 }

  function Echoed(s: State): int { Accepted(s) - if s.toClient.Some? then 1 else 0 }

  /** The words of the first `n` iterations. */
  function Words(cfg: Config, n: nat): (r: seq<nat>)
    requires cfg.Valid()
    ensures |r| == n && forall k :: 0 <= k < n ==> r[k] == cfg.Word(k)
  {
    seq(n, k requires 0 <= k => cfg.Word(k))
  }

  /** The order of the counters: the two sides are never more than one iteration apart. */
  ghost predicate Order(cfg: Config, s: State) {
    && s.i <= Echoed(s) <= Accepted(s) <= Arrived(s) <= Written(s) <= s.i + 1
    && Written(s) <= cfg.iterations
    && (s.client.Polling? ==> s.toServer.None?)
    && (s.server.Looking? ==> s.toClient.None?)
  }

  ghost predicate InFlight(cfg: Config, s: State)
    requires cfg.Valid()
  {
    && (s.toServer.Some? ==> s.toServer.value == (cfg.Slot(s.i), cfg.Word(s.i)))
    && (s.toClient.Some? ==> s.toClient.value == (cfg.ReceiveOffset(s.j), cfg.Word(s.j)))
  }

  /** The words in memory: the server's slots hold what last arrived; in the
      current pass the client's slots are clear until their answer arrives. */
  ghost predicate Memory(cfg: Config, s: State)
    requires cfg.Valid()
  {
    && |s.clientWords| == |s.serverWords| == cfg.slots
    && Arrived(s) >= 0
    && (forall k :: 0 <= k < cfg.slots ==> s.serverWords[k] == Held(cfg, Arrived(s), k))
    && (!s.client.Next? || cfg.Slot(s.i) > 0 ==>
          forall k :: cfg.Slot(s.i) <= k < cfg.slots ==>
                        s.clientWords[k] == if k == cfg.Slot(s.i) && Echoed(s) > s.i then cfg.Word(s.i) else 0)
  }

  ghost predicate Inv(cfg: Config, s: State)
    requires cfg.Valid()
  {
    && Order(cfg, s) && InFlight(cfg, s) && Memory(cfg, s)
    && s.accepted == Words(cfg, Accepted(s)) && s.answered == Words(cfg, s.i)
  }

  lemma InitInv(cfg: Config, s: State)
    requires cfg.Valid() && Init(cfg, s)
    ensures Inv(cfg, s)
  {
    assert cfg.Slot(0) == 0;
  }

  lemma ClientWriteInv(cfg: Config, s: State, s': State)
    requires cfg.Valid() && Inv(cfg, s) && ClientWrite(cfg, s, s')
    ensures Inv(cfg, s')
  {
  }

  lemma ReachesServerInv(cfg: Config, s: State, s': State)
    requires cfg.Valid() && Inv(cfg, s) && ReachesServer(s, s')
    ensures Inv(cfg, s')
  {
  }

  /** The server accepts exactly the client's next word. */
  lemma ServerAcceptsNext(cfg: Config, s: State, s': State)
    requires cfg.Valid() && Inv(cfg, s) && ServerAccepts(cfg, s, s')
    ensures Arrived(s) == s.j + 1 && s.j == s.i && s.serverWords[cfg.Slot(s.j)] == cfg.Word(s.j)
    ensures s'.toClient == Some((cfg.ReceiveOffset(s.j), cfg.Word(s.j)))
  {
    StaleParity(cfg, s.j);
    WordFacts(cfg, s.j);
  }

  lemma ServerAcceptsInv(cfg: Config, s: State, s': State)
    requires cfg.Valid() && Inv(cfg, s) && ServerAccepts(cfg, s, s')
    ensures Inv(cfg, s')
  {
    ServerAcceptsNext(cfg, s, s');
    hide Config.Slot, Config.Word, Config.Flip, Config.ReceiveOffset, Held;
    assert s'.accepted == s.accepted + [cfg.Word(s.j)];
  }

  /** A region's address belongs to one slot. */
  lemma AddressOfSlot(cfg: Config, k: nat, n: nat)
    requires cfg.Valid() && cfg.root + 2 * k * cfg.packet == cfg.root + 2 * n * cfg.packet
    ensures k == n
  {
    var p := cfg.packet;
    assert p * (2 * (k - n)) == 0;
    ScaleAway(p, 2 * (k - n));
  }

  lemma ReachesClientInv(cfg: Config, s: State, s': State)
    requires cfg.Valid() && Inv(cfg, s) && ReachesClient(cfg, s, s')
    ensures Inv(cfg, s')
  {
    assert s.j == s.i && Written(s) == s.i + 1;
    var here := cfg.Slot(s.i);
    forall k | 0 <= k < cfg.slots && k != here ensures s'.clientWords[k] == s.clientWords[k] {
      if cfg.root + 2 * k * cfg.packet == cfg.root + 2 * here * cfg.packet {
        AddressOfSlot(cfg, k, here);
      }
    }
  }

  /** The client accepts exactly the answer to its own word. */
  lemma ClientAcceptsEcho(cfg: Config, s: State, s': State)
    requires cfg.Valid() && Inv(cfg, s) && ClientAccepts(cfg, s, s')
    ensures Echoed(s) == s.i + 1
  {
  }

  /** Within a pass the slots behind the current one are the following ones. */
  lemma NextSlot(cfg: Config, i: nat)
    requires cfg.Valid()
    ensures cfg.Slot(i + 1) > 0 ==> cfg.Slot(i + 1) == cfg.Slot(i) + 1
  {
    var m, q, r := cfg.slots, i / cfg.slots, i % cfg.slots;
    if r + 1 < m {
      RemainderUnique(m, q, r + 1, i + 1);
    } else {
      assert i + 1 == m * (q + 1) + 0;
      RemainderUnique(m, q + 1, 0, i + 1);
    }
  }

  lemma ClientAcceptsInv(cfg: Config, s: State, s': State)
    requires cfg.Valid() && Inv(cfg, s) && ClientAccepts(cfg, s, s')
    ensures Inv(cfg, s')
  {
    ClientAcceptsEcho(cfg, s, s');
    NextSlot(cfg, s.i);
    hide Config.Slot, Config.Word, Held;
    assert s'.answered == s.answered + [cfg.Word(s.i)];
  }

  lemma StepInv(cfg: Config, s: State, s': State)
    requires cfg.Valid() && Inv(cfg, s) && Step(cfg, s, s')
    ensures Inv(cfg, s')
  {
    if ClientWrite(cfg, s, s') {
      ClientWriteInv(cfg, s, s');
    } else if ClientAccepts(cfg, s, s') {
      ClientAcceptsInv(cfg, s, s');
    } else if ServerAccepts(cfg, s, s') {
      ServerAcceptsInv(cfg, s, s');
    } else if ReachesServer(s, s') {
      ReachesServerInv(cfg, s, s');
    } else if ReachesClient(cfg, s, s') {
      ReachesClientInv(cfg, s, s');
    } else {
      CompletesInv(cfg, s, s');
    }
  }

  lemma CompletesInv(cfg: Config, s: State, s': State)
    requires cfg.Valid() && Inv(cfg, s) && (ClientCompletes(s, s') || ServerCompletes(s, s'))
    ensures Inv(cfg, s')
  {
    hide Held, Config.Slot, Config.Word, Config.ReceiveOffset;
  }

  lemma {:induction false} RunInv(cfg: Config, run: seq<State>, k: nat)
    requires cfg.Valid() && IsRun(cfg, run) && k < |run|
    ensures Inv(cfg, run[k])
  {
    if k == 0 {
      InitInv(cfg, run[0]);
    } else {
      RunInv(cfg, run, k - 1);
      StepInv(cfg, run[k - 1], run[k]);
    }
  }

  // ---- what a run achieves ----

  /** In every state of every run the server has taken exactly the client's words in
      order and the client exactly their answers; neither ever takes a stale word. */
  lemma NeverStale(cfg: Config, run: seq<State>, k: nat)
    requires cfg.Valid() && IsRun(cfg, run) && k < |run|
    ensures var s := run[k];
            && s.accepted == Words(cfg, |s.accepted|) && s.answered == Words(cfg, s.i)
            && s.i <= |s.accepted| <= s.i + 1
  {
    RunInv(cfg, run, k);
  }

  /** A side polls for the next word only when its own write has landed. */
  lemma WritesLanded(cfg: Config, run: seq<State>, k: nat)
    requires cfg.Valid() && IsRun(cfg, run) && k < |run|
    ensures run[k].client.Next? || run[k].client.Polling? ==> run[k].toServer.None?
    ensures run[k].server.Looking? ==> run[k].toClient.None?
  {
    RunInv(cfg, run, k);
  }

  function Progress(s: State): int {
    s.i + Written(s) + Arrived(s) + Accepted(s) + Echoed(s) + s.j + if s.client.Polling? then s.i + 1 else s.i
  }

  /** Every step counts, so no run is longer than seven steps per iteration. */
  lemma {:induction false} RunLength(cfg: Config, run: seq<State>, k: nat)
    requires cfg.Valid() && IsRun(cfg, run) && k < |run|
    ensures k <= Progress(run[k]) <= 7 * cfg.iterations
  {
    RunInv(cfg, run, k);
    if k > 0 {
      RunLength(cfg, run, k - 1);
      RunInv(cfg, run, k - 1);
      StepProgress(cfg, run[k - 1], run[k]);
    }
  }

  lemma StepProgress(cfg: Config, s: State, s': State)
    requires cfg.Valid() && Step(cfg, s, s')
    ensures Progress(s') >= Progress(s) + 1
  {
    hide Config.Slot, Config.Word, Config.Flip, Decode;
  }

  /** A run that cannot go on has finished all iterations on both sides. */
  lemma NotFinishedMoves(cfg: Config, s: State) returns (s': State)
    requires cfg.Valid() && Inv(cfg, s) && !(s.i == s.j == cfg.iterations)
    ensures Step(cfg, s, s')
  {
    if s.toServer.Some? {
      s' := s.(toServer := None, serverWords := s.serverWords[s.toServer.value.0 := s.toServer.value.1]);
      assert ReachesServer(s, s');
    } else if s.toClient.Some? {
      var words := seq(cfg.slots, k requires 0 <= k < cfg.slots =>
        if s.toClient.value.0 == cfg.root + 2 * k * cfg.packet then s.toClient.value.1
        else s.clientWords[k]);
      s' := s.(toClient := None, clientWords := words);
      assert ReachesClient(cfg, s, s');
    } else if s.server.Answering? {
      s' := s.(server := Looking, j := s.j + 1);
      assert ServerCompletes(s, s');
    } else if s.client.Posted? {
      s' := s.(client := Polling);
      assert ClientCompletes(s, s');
    } else if s.client.Next? {
      s' := s.(client := Posted, toServer := Some((cfg.Slot(s.i), cfg.Word(s.i))),
      clientWords := if cfg.Slot(s.i) == 0 then seq(|s.clientWords|, _ => 0) else s.clientWords);
      assert ClientWrite(cfg, s, s');
    } else {
      s' := PollingMoves(cfg, s);
    }
  }

  lemma PollingMoves(cfg: Config, s: State) returns (s': State)
    requires cfg.Valid() && Inv(cfg, s) && s.client.Polling? && s.server.Looking?
    ensures Step(cfg, s, s')
  {
    WordFacts(cfg, s.i);
    if s.j == s.i {
      var word := s.serverWords[cfg.Slot(s.j)];
      assert word == Held(cfg, s.j + 1, cfg.Slot(s.j)) == cfg.Word(s.j);
      s' := s.(server := Answering, accepted := s.accepted + [word],
      toClient := Some((Decode(word, cfg.packet, cfg.Flip(s.j)), word)));
      assert ServerAccepts(cfg, s, s');
    } else {
      s' := s.(i := s.i + 1, client := Next, answered := s.answered + [cfg.Word(s.i)]);
      assert ClientAccepts(cfg, s, s');
    }
  }
}
