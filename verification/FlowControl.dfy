/** Credit and acknowledgement flow control between one client thread and the
    server threads of its connections. The channels are lossless and FIFO, an
    arriving message consumes the oldest posted receive, and an arrival that
    finds none is fatal because the queue pairs never retry. */
module FlowControl {

  const IMM_MODULUS := 0x1_0000_0000

  /** Window, messages per connection, buffer slots, size of one slot. */
  datatype Config = Config(window: nat, iterations: nat, slots: nat) {

    ghost predicate Valid() {
      1 <= window < IMM_MODULUS && 1 <= iterations && 1 <= slots
    }

    /** How many messages one acknowledgement stands for. */
    function Pack(): nat { if window / 2 < 1 then 1 else window / 2 }

    /** The slot of the j-th message, counted from 0. */
    function Slot(j: nat): int
      requires slots > 0
    {
      (iterations - j) % slots
    }
  }

  /** Any window below 2^32, the range of an immediate. */
  lemma ConfigRange(cfg: Config)
    ensures cfg.Valid() <==> 1 <= cfg.window < 0x1_0000_0000 && 1 <= cfg.iterations && 1 <= cfg.slots
  {
  }

  /** Where the client is with a connection. In `Burst`, `n` messages are to be
      sent, `i` are, and `budget` and `counter` are the copies taken at its start. */
  datatype ClientPhase = Idle | Burst(i: nat, n: nat, budget: nat, counter: nat) | Polling

  /** Where the server thread is: waiting for a message, about to repost, about
      to count, waiting for its acknowledgement to complete, finished. */
  datatype ServerPhase = Waiting | Repost | Count | Flush | Finished

  datatype Failure = NoMessageReceive | NoAckReceive | TooManyReceives | BadCredit

  /** One connection: the client's counters for it, both channels, the server
      thread, and in `bursts`, `base`, `credits`, `offered` a history that no
      step reads. */
  datatype Link = Link(
    // client
    budget: nat, pending: nat, ackCounter: nat, phase: ClientPhase,
    ackReceives: nat,      // posted for acknowledgements, not consumed yet
    ackDone: seq<nat>,     // arrived immediates, not polled yet
    // channels: message slots and immediates on the wire
    messages: seq<int>, acks: seq<nat>,
    // server
    todo: nat, open: nat, counter: nat, serving: ServerPhase,
    receives: seq<int>,         // slots of the posted receives
    received: seq<(int, int)>,  // (slot sent from, slot received into), not polled yet
    failure: set<Failure>,
    // history
    bursts: nat,   // bursts that sent something
    base: nat,     // acknowledgements polled when the latest of them began
    credits: nat,   // acknowledgements polled
    credited: nat,  // the sum of their immediates
    offered: nat)   // receives ever posted for acknowledgements, those found at the start included
  {
    predicate Closed() { budget == 0 && pending == 0 }

    function Sent(cfg: Config): int {
      cfg.iterations - budget + if phase.Burst? then phase.i else 0
    }

    function Served(cfg: Config): int { cfg.iterations - todo - open }

    /** What the client's counters say is acknowledged; `credited` is what really came in. */
    function Acked(cfg: Config): int { cfg.iterations - budget - pending }
  }

  function Min(a: nat, b: nat): nat { if a < b then a else b }

  /** The connection when the client starts: the server has posted its first
      receives. `held` receives for acknowledgements are still there from an
      earlier operation on the same queue pair; nothing ever takes them back. */
  function Start(cfg: Config, held: nat): Link
    requires cfg.Valid()
  {
    var posted := Min(cfg.window, cfg.iterations);
    Link(cfg.iterations, 0, 0, Idle, held, [], [], [],
         cfg.iterations - posted, posted, 0, Waiting, seq(posted, j requires 0 <= j => cfg.Slot(j)), [],
         {}, 0, 0, 0, 0, held)
  }

  // ---- client steps ----

  function Visited(cfg: Config, l: Link): Link
    requires l.pending <= cfg.window
  {
    l.(phase := Burst(0, Min(cfg.window - l.pending, l.budget), l.budget, l.ackCounter))
  }

  ghost predicate Visit(cfg: Config, l: Link, l': Link) {
    l.phase.Idle? && !l.Closed() && l.pending <= cfg.window && l' == Visited(cfg, l)
  }

  /** One turn of the send loop. The counter copy decides whether an
      acknowledgement receive is posted; the stored counter is overwritten. */
  function SentOne(cfg: Config, l: Link): Link
    requires cfg.Valid() && l.phase.Burst?
  {
    var post := l.phase.counter == 0;
    if post && l.ackReceives >= cfg.window then
      l.(failure := {TooManyReceives})
    else
      l.(ackReceives := if post then l.ackReceives + 1 else l.ackReceives,
      offered := if post then l.offered + 1 else l.offered,
      ackCounter := if l.phase.counter + 1 < cfg.Pack() then l.phase.counter + 1 else 0,
      messages := l.messages + [(l.phase.budget - l.phase.i) % cfg.slots],
      bursts := if l.phase.i == 0 then l.bursts + 1 else l.bursts,
      base := if l.phase.i == 0 then l.credits else l.base,
      phase := l.phase.(i := l.phase.i + 1))
  }

  ghost predicate Send(cfg: Config, l: Link, l': Link)
    requires cfg.Valid()
  {
    l.phase.Burst? && l.phase.i < l.phase.n && l' == SentOne(cfg, l)
  }

  function BurstEnded(l: Link): Link
    requires l.phase.Burst? && l.phase.n <= l.budget
  {
    l.(budget := l.budget - l.phase.n, pending := l.pending + l.phase.n, phase := Polling)
  }

  /** The last send of a burst is signaled, so the burst ends once all have arrived. */
  ghost predicate BurstEnd(l: Link, l': Link) {
    && l.phase.Burst? && l.phase.i == l.phase.n <= l.budget
    && (l.phase.n > 0 ==> l.messages == [])
    && l' == BurstEnded(l)
  }

  function AckPolled(l: Link): Link
    requires l.ackDone != []
  {
    if l.ackDone[0] > l.pending then
      l.(failure := {BadCredit})
    else
      l.(pending := l.pending - l.ackDone[0], ackDone := l.ackDone[1..],
      credits := l.credits + 1, credited := l.credited + l.ackDone[0])
  }

  ghost predicate PollAck(l: Link, l': Link) {
    l.phase.Polling? && l.ackDone != [] && l' == AckPolled(l)
  }

  /** An empty poll ends the visit, unless the window is full: then it blocks. */
  ghost predicate PollNothing(cfg: Config, l: Link, l': Link) {
    && l.phase.Polling? && l.ackDone == [] && l.pending != cfg.window
    && l' == l.(phase := Idle)
  }

  // ---- network steps ----

  function MessageArrived(l: Link): Link
    requires l.messages != []
  {
    if l.receives == [] then
      l.(failure := {NoMessageReceive})
    else
      l.(messages := l.messages[1..], receives := l.receives[1..],
      received := l.received + [(l.messages[0], l.receives[0])])
  }

  ghost predicate MessageArrives(l: Link, l': Link) {
    l.messages != [] && l' == MessageArrived(l)
  }

  function AckArrived(l: Link): Link
    requires l.acks != []
  {
    if l.ackReceives == 0 then
      l.(failure := {NoAckReceive})
    else
      l.(acks := l.acks[1..], ackReceives := l.ackReceives - 1, ackDone := l.ackDone + [l.acks[0]])
  }

  ghost predicate AckArrives(l: Link, l': Link) {
    l.acks != [] && l' == AckArrived(l)
  }

  // ---- server steps ----

  function ServerPolled(l: Link): Link
    requires l.received != [] && l.open > 0
  {
    l.(received := l.received[1..], open := l.open - 1, serving := Repost)
  }

  ghost predicate ServerPoll(l: Link, l': Link) {
    l.serving.Waiting? && l.received != [] && l.open > 0 && l' == ServerPolled(l)
  }

  function ServerReposted(cfg: Config, l: Link): Link
    requires cfg.Valid()
  {
    if l.todo > 0 then
      l.(receives := l.receives + [l.todo % cfg.slots], open := l.open + 1, todo := l.todo - 1, serving := Count)
    else
      l.(serving := Count)
  }

  ghost predicate ServerRepost(cfg: Config, l: Link, l': Link)
    requires cfg.Valid()
  {
    l.serving.Repost? && l' == ServerReposted(cfg, l)
  }

  function ServerCounted(cfg: Config, l: Link): Link {
    var c := l.counter + 1;
    if c == cfg.Pack() || (l.todo == 0 && l.open == 0) then
      l.(acks := l.acks + [c % IMM_MODULUS], counter := 0, serving := Flush)
    else
      l.(counter := c, serving := Flush)
  }

  ghost predicate ServerCount(cfg: Config, l: Link, l': Link) {
    l.serving.Count? && l' == ServerCounted(cfg, l)
  }

  /** The acknowledgement is signaled: the server goes on once it has arrived. */
  ghost predicate ServerNext(l: Link, l': Link) {
    && l.serving.Flush? && l.acks == []
    && l' == l.(serving := if l.todo > 0 || l.open > 0 then Waiting else Finished)
  }

  ghost predicate OtherStep(cfg: Config, l: Link, l': Link)
    requires cfg.Valid()
  {
    || MessageArrives(l, l') || AckArrives(l, l')
    || ServerPoll(l, l') || ServerRepost(cfg, l, l') || ServerCount(cfg, l, l') || ServerNext(l, l')
  }

  ghost predicate ClientStep(cfg: Config, l: Link, l': Link)
    requires cfg.Valid()
  {
    Visit(cfg, l, l') || Send(cfg, l, l') || BurstEnd(l, l') || PollAck(l, l') || PollNothing(cfg, l, l')
  }

  ghost predicate LinkStep(cfg: Config, l: Link, l': Link)
    requires cfg.Valid()
  {
    l.failure == {} && (ClientStep(cfg, l, l') || OtherStep(cfg, l, l'))
  }

  // ---- the invariant ----

  function Total(s: seq<nat>): nat {
    if s == [] then 0 else s[0] + Total(s[1..])
  }

  lemma TotalAppend(s: seq<nat>, x: nat)
    ensures Total(s + [x]) == Total(s) + x
  {
    if s != [] {
      assert (s + [x])[1..] == s[1..] + [x];
    }
  }

  /** Immediates between server and client, oldest first. */
  function Outstanding(l: Link): seq<nat> { l.ackDone + l.acks }

  ghost predicate ClientInv(cfg: Config, l: Link) {
    && l.budget + l.pending + l.credited == cfg.iterations
    && l.pending <= cfg.window
    && (l.phase.Burst? ==>
          && l.phase.i <= l.phase.n == Min(cfg.window - l.pending, l.budget)
          && l.phase.budget == l.budget)
  }

  ghost predicate ServerInv(cfg: Config, l: Link) {
    && l.todo + l.open <= cfg.iterations
    && |l.receives| + |l.received| == l.open <= cfg.window
    && (l.todo > 0 ==> l.open + (if l.serving.Repost? then 1 else 0) == cfg.window)
    && l.counter < cfg.Pack()
    && (l.serving.Finished? ==> l.todo == 0 && l.open == 0)
    && (l.todo == 0 && l.open == 0 ==> !l.serving.Waiting?)
    && (l.todo == 0 && l.open == 0 && (l.serving.Flush? || l.serving.Finished?) ==> l.counter == 0)
  }

  /** Messages polled by the server but neither in its counter nor acknowledged yet. */
  function Uncounted(l: Link): nat { if l.serving.Repost? || l.serving.Count? then 1 else 0 }

  ghost predicate ChannelInv(cfg: Config, l: Link) {
    && l.Sent(cfg) == |l.messages| + |l.received| + l.Served(cfg)
    && l.Served(cfg) == l.Acked(cfg) + Total(Outstanding(l)) + l.counter + Uncounted(l)
  }

  /** The invariant of every connection, for every window and every number of messages. */
  ghost predicate LinkInv(cfg: Config, l: Link) {
    && ClientInv(cfg, l) && ServerInv(cfg, l) && ChannelInv(cfg, l)
    && l.failure <= {NoAckReceive, TooManyReceives}
  }

  lemma StartInv(cfg: Config, held: nat)
    requires cfg.Valid()
    ensures LinkInv(cfg, Start(cfg, held))
  {
  }

  lemma FirstOutstanding(l: Link, l': Link)
    requires l.ackDone != [] && l'.acks == l.acks
    ensures l'.ackDone == l.ackDone[1..] ==> Total(Outstanding(l)) == l.ackDone[0] + Total(Outstanding(l'))
    ensures l'.ackDone == l.ackDone ==> Outstanding(l') == Outstanding(l)
    ensures Total(Outstanding(l)) >= l.ackDone[0]
  {
    assert Outstanding(l)[0] == l.ackDone[0];
    assert Outstanding(l)[1..] == l.ackDone[1..] + l.acks;
  }

  lemma PollAckInv(cfg: Config, l: Link, l': Link)
    requires cfg.Valid() && LinkInv(cfg, l) && l.failure == {} && PollAck(l, l')
    ensures LinkInv(cfg, l')
  {
    hide Total, Config.Pack, Config.Slot, Outstanding;
    FirstOutstanding(l, l');
  }

  /** The other client steps leave the acknowledgements and the server alone. */
  lemma ClientControlInv(cfg: Config, l: Link, l': Link)
    requires cfg.Valid() && LinkInv(cfg, l) && l.failure == {}
    requires Visit(cfg, l, l') || Send(cfg, l, l') || BurstEnd(l, l') || PollNothing(cfg, l, l')
    ensures LinkInv(cfg, l')
  {
    hide Total, Config.Pack, Config.Slot, Outstanding;
    SameOutstanding(l, l');
  }

  lemma ClientStepInv(cfg: Config, l: Link, l': Link)
    requires cfg.Valid() && LinkInv(cfg, l) && l.failure == {} && ClientStep(cfg, l, l')
    ensures LinkInv(cfg, l')
  {
    hide LinkInv, Visit, Send, BurstEnd, PollAck, PollNothing;
    if PollAck(l, l') {
      PollAckInv(cfg, l, l');
    } else {
      ClientControlInv(cfg, l, l');
    }
  }

  lemma MessageArrivesInv(cfg: Config, l: Link, l': Link)
    requires cfg.Valid() && LinkInv(cfg, l) && l.failure == {} && MessageArrives(l, l')
    ensures LinkInv(cfg, l')
  {
    hide Config.Pack, Total;
    assert Outstanding(l') == Outstanding(l);
  }

  lemma AckArrivesInv(cfg: Config, l: Link, l': Link)
    requires cfg.Valid() && LinkInv(cfg, l) && l.failure == {} && AckArrives(l, l')
    ensures LinkInv(cfg, l')
  {
    assert l.ackReceives > 0 ==> Outstanding(l') == Outstanding(l);
  }

  lemma ServerPollInv(cfg: Config, l: Link, l': Link)
    requires cfg.Valid() && LinkInv(cfg, l) && l.failure == {}
    requires ServerPoll(l, l') || ServerRepost(cfg, l, l') || ServerNext(l, l')
    ensures LinkInv(cfg, l')
  {
    assert Outstanding(l') == Outstanding(l);
  }

  lemma CountOutstanding(l: Link, l': Link, c: nat)
    requires l'.acks == l.acks + [c] && l'.ackDone == l.ackDone
    ensures Total(Outstanding(l')) == Total(Outstanding(l)) + c
  {
    TotalAppend(Outstanding(l), c);
    assert Outstanding(l') == Outstanding(l) + [c];
  }

  lemma SameOutstanding(l: Link, l': Link)
    requires l'.acks == l.acks && l'.ackDone == l.ackDone
    ensures Outstanding(l') == Outstanding(l)
  {
  }

  lemma ServerCountInv(cfg: Config, l: Link, l': Link)
    requires cfg.Valid() && LinkInv(cfg, l) && l.failure == {} && ServerCount(cfg, l, l')
    ensures LinkInv(cfg, l')
  {
    var c := l.counter + 1;
    CountFits(cfg, l);
    hide Total, Config.Pack, Config.Slot, Outstanding;
    if c == cfg.Pack() || (l.todo == 0 && l.open == 0) {
      CountOutstanding(l, l', c);
    } else {
      SameOutstanding(l, l');
    }
  }

  /** The count is never cut off by its 32-bit immediate. */
  lemma CountFits(cfg: Config, l: Link)
    requires cfg.Valid() && l.counter < cfg.Pack()
    ensures (l.counter + 1) % IMM_MODULUS == (l.counter + 1) % 0x1_0000_0000 == l.counter + 1 <= cfg.window
  {
  }

  lemma OtherStepInv(cfg: Config, l: Link, l': Link)
    requires cfg.Valid() && LinkInv(cfg, l) && l.failure == {} && OtherStep(cfg, l, l')
    ensures LinkInv(cfg, l')
  {
    if MessageArrives(l, l') {
      MessageArrivesInv(cfg, l, l');
    } else if AckArrives(l, l') {
      AckArrivesInv(cfg, l, l');
    } else if ServerCount(cfg, l, l') {
      ServerCountInv(cfg, l, l');
    } else {
      ServerPollInv(cfg, l, l');
    }
  }

  lemma LinkStepInv(cfg: Config, l: Link, l': Link)
    requires cfg.Valid() && LinkInv(cfg, l) && LinkStep(cfg, l, l')
    ensures LinkInv(cfg, l')
  {
    if ClientStep(cfg, l, l') {
      ClientStepInv(cfg, l, l');
    } else {
      OtherStepInv(cfg, l, l');
    }
  }

  /** What the invariant says to a user: every message on the wire has a receive,
      the window is kept, every immediate fits the pending count, budget, pending and
      the immediates polled add up, so do the immediates that left the server and
      its counter, and no receive queue of the server exceeds the window. */
  lemma LinkSafe(cfg: Config, l: Link)
    requires cfg.Valid() && LinkInv(cfg, l)
    ensures |l.messages| <= |l.receives| <= cfg.window
    ensures l.pending <= cfg.window
    ensures l.phase.Polling? && l.ackDone != [] ==> l.ackDone[0] <= l.pending
    ensures NoMessageReceive !in l.failure && BadCredit !in l.failure
    ensures l.budget + l.pending + l.credited == cfg.iterations
    ensures l.credited + Total(Outstanding(l)) + l.counter + Uncounted(l) == l.Served(cfg)
    ensures 0 <= l.Acked(cfg) <= l.Served(cfg) <= l.Sent(cfg) <= cfg.iterations
  {
    if l.ackDone != [] {
      assert Outstanding(l)[0] == l.ackDone[0];
    }
  }
}
