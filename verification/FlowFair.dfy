/** Termination. The client may go round its connections for as long as the
    network and the servers stand still; a scheduler that lets one of them take
    a step at least once in every `k` brings every run to its end. */
module FlowFair {
  import opened Arithmetic
  import opened FlowControl
  import opened FlowSlots
  import opened FlowRun

  /** A server thread or the network could take a step. */
  ghost predicate OtherEnabled(cfg: Config, s: State)
    requires cfg.Valid()
  {
    exists j: nat, l', s' :: OtherMove(cfg, s, s', j, l')
  }

  ghost predicate OtherTaken(cfg: Config, s: State, s': State)
    requires cfg.Valid()
  {
    exists j: nat, l' :: OtherMove(cfg, s, s', j, l')
  }

  /** Among any `k` consecutive steps one is taken by a server thread or the
      network, unless at some point among them none of these had a step to take. */
  ghost predicate Fair(cfg: Config, run: seq<State>, k: nat)
    requires cfg.Valid()
  {
    forall i: nat :: i + k < |run| ==> Served(cfg, run, i, k)
  }

  ghost predicate Served(cfg: Config, run: seq<State>, i: nat, k: nat)
    requires cfg.Valid() && i + k < |run|
  {
    exists m :: i <= m < i + k && Serves(cfg, run, m)
  }

  ghost predicate Serves(cfg: Config, run: seq<State>, m: nat)
    requires cfg.Valid() && m + 1 < |run|
  {
    OtherTaken(cfg, run[m], run[m + 1]) || !OtherEnabled(cfg, run[m])
  }

  /** Nothing has failed before the last state: a failure ends the program. */
  ghost predicate UpToFailure(run: seq<State>) {
    forall i :: 0 <= i < |run| - 1 ==> NothingFailed(run[i])
  }

  // ---- steps that move no data ----

  ghost predicate AllQuiet(s: State) {
    forall j :: 0 <= j < |s.links| ==> Quiet(s.links[j])
  }

  lemma QuietIsStuck(cfg: Config, l: Link, l': Link)
    requires cfg.Valid() && Quiet(l)
    ensures !OtherStep(cfg, l, l')
  {
  }

  lemma EnabledIffBusy(cfg: Config, s: State)
    requires cfg.Valid() && Inv(cfg, s) && NothingFailed(s)
    ensures OtherEnabled(cfg, s) <==> !AllQuiet(s)
  {
    hide LinkInv, SlotInv, OtherStep, Quiet;
    if OtherEnabled(cfg, s) {
      var j: nat, l', s' :| OtherMove(cfg, s, s', j, l');
      if Quiet(s.links[j]) {
        QuietIsStuck(cfg, s.links[j], l');
      }
    }
    if !AllQuiet(s) {
      var j: nat :| j < |s.links| && !Quiet(s.links[j]);
      var l' := BusyMoves(cfg, s.links[j]);
      assert OtherMove(cfg, s, s.(links := s.links[j := l']), j, l');
    }
  }

  /** Client control neither wakes a connection nor quiets one. */
  lemma ControlKeepsQuiet(cfg: Config, l: Link, l': Link)
    requires cfg.Valid() && (Visit(cfg, l, l') || BurstEnd(l, l') || PollNothing(cfg, l, l'))
    ensures Quiet(l') <==> Quiet(l)
  {
  }

  lemma IdleStep(cfg: Config, s: State, s': State)
    requires cfg.Valid() && Inv(cfg, s) && Inv(cfg, s') && Step(cfg, s, s')
    requires StateWork(cfg, s') == StateWork(cfg, s)
    ensures ClientMoves(cfg, s, s') && |s'.links| == |s.links|
    ensures AllQuiet(s') <==> AllQuiet(s)
  {
    hide LinkInv, SlotInv, OtherStep, Visit, Send, BurstEnd, PollAck, PollNothing, Work, Quiet;
    StepWork(cfg, s, s');
    var l' :| ClientMove(cfg, s, s', l');
    var l := s.links[s.cur];
    SentAll(cfg, s);
    assert s'.links == s.links[s.cur := l'] && s'.links[s.cur] == l';
    if l' != l {
      LinkWork(cfg, l, l');
      TotalWorkUpdate(cfg, s.links, s.cur, l');
      ControlKeepsQuiet(cfg, l, l');
    }
    forall j | 0 <= j < |s.links| ensures Quiet(s'.links[j]) <==> Quiet(s.links[j]) {
    }
  }

  /** The client's next step is never a choice. */
  lemma ClientUnique(cfg: Config, s: State, a: State, b: State)
    requires cfg.Valid() && Inv(cfg, s) && ClientMoves(cfg, s, a) && ClientMoves(cfg, s, b)
    ensures a == b
  {
    hide LinkInv, SlotInv;
    var x :| ClientMove(cfg, s, a, x);
    var y :| ClientMove(cfg, s, b, y);
    LinkUnique(cfg, s.links[s.cur], x, y);
    hide Visit, Send, BurstEnd, PollAck, PollNothing;
  }

  lemma LinkUnique(cfg: Config, l: Link, x: Link, y: Link)
    requires cfg.Valid()
    ensures Stays(cfg, l, x) && Stays(cfg, l, y) ==> x == y
    ensures PollNothing(cfg, l, x) && PollNothing(cfg, l, y) ==> x == y
    ensures !(Stays(cfg, l, x) && PollNothing(cfg, l, y))
    ensures l.phase.Idle? && l.Closed() ==> !Stays(cfg, l, x) && !PollNothing(cfg, l, x)
  {
  }

  /** Where the client is on its way to the next data, below 9 per connection. */
  ghost function Rank(s: State): nat
    requires s.cur < |s.links|
  {
    Lap(s) * (3 * |s.links|) + 3 * (|s.links| - 1 - s.cur) + PhaseWeight(s.links[s.cur].phase)
  }

  lemma RankBound(s: State)
    requires s.cur < |s.links|
    ensures Rank(s) < 9 * |s.links|
  {
    Scale(Lap(s), 2, 3 * |s.links|);
  }

  lemma SmallerRank(cfg: Config, s: State, s': State)
    requires cfg.Valid() && Inv(cfg, s) && Inv(cfg, s') && |s'.links| == |s.links|
    requires Smaller(cfg, s', s) && StateWork(cfg, s') == StateWork(cfg, s)
    ensures Rank(s') < Rank(s)
  {
    hide Lap, PhaseWeight, LinkInv, SlotInv, StateWork;
    WeightBound(s');
    RankOrder(Lap(s'), Lap(s), |s.links|, s'.cur, s.cur,
              PhaseWeight(s'.links[s'.cur].phase), PhaseWeight(s.links[s.cur].phase));
  }

  lemma RankOrder(a': nat, a: nat, n: nat, c': nat, c: nat, w': nat, w: nat)
    requires c < n && c' < n && w' <= 2
    requires a' < a || (a' == a && (c' > c || (c' == c && w' < w)))
    ensures a' * (3 * n) + 3 * (n - 1 - c') + w' < a * (3 * n) + 3 * (n - 1 - c) + w
  {
    if a' < a {
      Scale(a' + 1, a, 3 * n);
      assert (a' + 1) * (3 * n) == a' * (3 * n) + 3 * n;
    }
  }

  lemma WeightBound(s: State)
    requires s.cur < |s.links|
    ensures PhaseWeight(s.links[s.cur].phase) <= 2
  {
  }

  lemma QuietStepRanks(cfg: Config, s: State, s': State)
    requires cfg.Valid() && Inv(cfg, s) && Inv(cfg, s') && NothingFailed(s) && AllQuiet(s) && Step(cfg, s, s')
    requires StateWork(cfg, s') == StateWork(cfg, s)
    ensures Rank(s') < Rank(s)
  {
    IdleStep(cfg, s, s');
    hide LinkInv, SlotInv, Step, Smaller, ClientMoves, Quiet, Rank;
    NotDone(cfg, s, s');
    var t := ClientProgress(cfg, s);
    ClientUnique(cfg, s, s', t);
    SmallerRank(cfg, s, s');
  }

  lemma NotDone(cfg: Config, s: State, s': State)
    requires cfg.Valid() && ClientMoves(cfg, s, s')
    ensures !s.done
  {
  }

  // ---- stretches without data ----

  /** A path that was reached and has not failed, except perhaps in its last state. */
  ghost predicate Alive(cfg: Config, run: seq<State>)
    requires cfg.Valid()
  {
    IsPath(cfg, run) && UpToFailure(run) && forall i :: 0 <= i < |run| ==> Inv(cfg, run[i])
  }

  lemma AlivePart(cfg: Config, run: seq<State>, i: nat, j: nat)
    requires cfg.Valid() && Alive(cfg, run) && i < j <= |run|
    ensures Alive(cfg, run[i..j])
  {
    hide Inv, Step, NothingFailed;
    var part := run[i..j];
    forall k | 0 <= k < |part| - 1 ensures Step(cfg, part[k], part[k + 1]) && NothingFailed(part[k]) {
      var m := i + k;
      assert part[k] == run[m] && part[k + 1] == run[m + 1];
    }
    assert IsPath(cfg, part);
  }

  lemma AliveStep(cfg: Config, run: seq<State>, k: nat)
    requires cfg.Valid() && Alive(cfg, run) && k + 1 < |run|
    ensures Inv(cfg, run[k]) && Inv(cfg, run[k + 1]) && NothingFailed(run[k]) && Step(cfg, run[k], run[k + 1])
  {
    hide Inv, Step, NothingFailed;
  }

  lemma {:induction false} WorkFalls(cfg: Config, run: seq<State>, k: nat)
    requires cfg.Valid() && Alive(cfg, run) && k < |run|
    ensures Inv(cfg, run[k]) && Inv(cfg, run[0]) && StateWork(cfg, run[k]) <= StateWork(cfg, run[0])
  {
    if k > 0 {
      hide Inv, Step, StateWork, Alive;
      WorkFalls(cfg, run, k - 1);
      AliveStep(cfg, run, k - 1);
      StepWork(cfg, run[k - 1], run[k]);
    } else {
      hide LinkInv, SlotInv, Step, StateWork;
    }
  }

  /** The work is the same from the first state to the last. */
  ghost predicate Stretch(cfg: Config, run: seq<State>)
    requires cfg.Valid()
  {
    Alive(cfg, run) && forall k :: 0 <= k < |run| ==> StateWork(cfg, run[k]) == StateWork(cfg, run[0])
  }

  lemma StretchStep(cfg: Config, run: seq<State>, k: nat)
    requires cfg.Valid() && Stretch(cfg, run) && k + 1 < |run|
    ensures Inv(cfg, run[k]) && Inv(cfg, run[k + 1]) && NothingFailed(run[k]) && Step(cfg, run[k], run[k + 1])
    ensures StateWork(cfg, run[k + 1]) == StateWork(cfg, run[k])
  {
    hide Inv, Step, NothingFailed, StateWork;
    AliveStep(cfg, run, k);
  }

  lemma {:induction false} SameThroughout(cfg: Config, run: seq<State>, k: nat)
    requires cfg.Valid() && Stretch(cfg, run) && k < |run|
    ensures AllQuiet(run[k]) <==> AllQuiet(run[0])
    ensures |run[k].links| == |run[0].links|
  {
    hide Inv, NothingFailed, Step, StateWork, AllQuiet, Stretch;
    if k > 0 {
      SameThroughout(cfg, run, k - 1);
      StretchStep(cfg, run, k - 1);
      IdleStep(cfg, run[k - 1], run[k]);
    }
  }

  lemma CursorInRange(cfg: Config, s: State)
    requires cfg.Valid() && Inv(cfg, s)
    ensures s.cur < |s.links|
  {
  }

  lemma {:induction false} QuietStretchRanks(cfg: Config, run: seq<State>, k: nat)
    requires cfg.Valid() && Stretch(cfg, run) && k < |run| && AllQuiet(run[0])
    ensures Inv(cfg, run[0]) && Inv(cfg, run[k])
    ensures run[0].cur < |run[0].links| && run[k].cur < |run[k].links| && Rank(run[k]) + k <= Rank(run[0])
  {
    hide Inv, NothingFailed, Step, StateWork, AllQuiet, Rank, Stretch;
    if k > 0 {
      QuietStretchRanks(cfg, run, k - 1);
      SameThroughout(cfg, run, k - 1);
      StretchStep(cfg, run, k - 1);
      CursorInRange(cfg, run[k]);
      QuietStepRanks(cfg, run[k - 1], run[k]);
    } else {
      StretchStart(cfg, run);
      CursorInRange(cfg, run[0]);
    }
  }

  lemma StretchStart(cfg: Config, run: seq<State>)
    requires cfg.Valid() && Stretch(cfg, run)
    ensures run != [] && Inv(cfg, run[0])
  {
    hide Inv, Step, NothingFailed, StateWork;
  }

  /** Whenever the client goes on for nine steps per connection without moving
      data, a server thread or the network has had a step to take all the time. */
  lemma LongStretchIsBusy(cfg: Config, run: seq<State>, k: nat)
    requires cfg.Valid() && Stretch(cfg, run) && |run| > 9 * |run[0].links| && k < |run| - 1
    ensures OtherEnabled(cfg, run[k])
  {
    hide Inv, NothingFailed, Step, StateWork, AllQuiet, Rank, OtherEnabled, Stretch;
    var m := |run| - 1;
    if AllQuiet(run[0]) {
      QuietStretchRanks(cfg, run, m);
      RankBound(run[0]);
    }
    SameThroughout(cfg, run, k);
    StretchStep(cfg, run, k);
    EnabledIffBusy(cfg, run[k]);
  }

  // ---- fair runs ----

  function Max(a: nat, b: nat): nat { if a < b then b else a }

  lemma FairServes(cfg: Config, run: seq<State>, k: nat, i: nat)
    requires cfg.Valid() && i + k < |run| && Fair(cfg, run, k)
    ensures Served(cfg, run, i, k)
  {
    hide Served;
  }

  lemma FairMove(cfg: Config, run: seq<State>, k: nat, i: nat) returns (j: nat)
    requires cfg.Valid() && i + k < |run| && Served(cfg, run, i, k)
    ensures i <= j < i + k && Serves(cfg, run, j)
  {
    hide Serves;
    j :| i <= j < i + k && Serves(cfg, run, j);
  }

  /** A fair run moves data within every so many steps. */
  lemma FairDrops(cfg: Config, run: seq<State>, k: nat, i: nat, m: nat)
    requires cfg.Valid() && Alive(cfg, run) && Fair(cfg, run, k)
    requires i + m < |run| && m >= k && m >= 9 * |run[i].links|
    ensures Inv(cfg, run[i]) && Inv(cfg, run[i + m]) && StateWork(cfg, run[i + m]) < StateWork(cfg, run[i])
  {
    hide Inv, Step, StateWork, NothingFailed, OtherEnabled, OtherTaken, Alive, Fair, Stretch;
    var part := run[i..i + m + 1];
    AlivePart(cfg, run, i, i + m + 1);
    assert part[0] == run[i] && part[m] == run[i + m];
    WorkFalls(cfg, part, m);
    if StateWork(cfg, part[m]) == StateWork(cfg, part[0]) {
      SameWorkThroughout(cfg, part);
      FairServes(cfg, run, k, i);
      var j := FairMove(cfg, run, k, i);
      var p := j - i;
      assert part[p] == run[j] && part[p + 1] == run[j + 1];
      LongStretchIsBusy(cfg, part, p);
      StretchStep(cfg, part, p);
      TakenDrops(cfg, part[p], part[p + 1]);
    }
  }

  lemma SameWorkThroughout(cfg: Config, run: seq<State>)
    requires cfg.Valid() && Alive(cfg, run) && StateWork(cfg, run[|run| - 1]) == StateWork(cfg, run[0])
    ensures Stretch(cfg, run)
  {
    hide Inv, Step, StateWork, IsPath, UpToFailure;
    forall k | 0 <= k < |run| ensures StateWork(cfg, run[k]) == StateWork(cfg, run[0]) {
      WorkFalls(cfg, run, k);
      AlivePart(cfg, run, k, |run|);
      var rest := run[k..|run|];
      assert rest[0] == run[k] && rest[|rest| - 1] == run[|run| - 1];
      WorkFalls(cfg, rest, |rest| - 1);
    }
  }

  lemma TakenDrops(cfg: Config, s: State, s': State)
    requires cfg.Valid() && Inv(cfg, s) && Inv(cfg, s') && Step(cfg, s, s') && OtherTaken(cfg, s, s')
    ensures StateWork(cfg, s') < StateWork(cfg, s)
  {
    hide Inv, StateWork, Step;
    StepWork(cfg, s, s');
  }

  lemma OneMore(q: nat, m: nat)
    requires q > 0
    ensures q * m == (q - 1) * m + m && (q - 1) * m >= 0
  {
  }

  lemma AliveStart(cfg: Config, run: seq<State>)
    requires cfg.Valid() && Alive(cfg, run)
    ensures run != [] && Inv(cfg, run[0])
  {
    hide Inv;
  }

  ghost predicate SameSizes(run: seq<State>, n: nat) {
    forall i :: 0 <= i < |run| ==> |run[i].links| == n
  }

  /** After `q` times `m` steps of a fair run the work has fallen `q` times. */
  lemma {:induction false} DropsAddUp(cfg: Config, run: seq<State>, k: nat, n: nat, m: nat, q: nat, at: nat)
    requires cfg.Valid() && Alive(cfg, run) && Fair(cfg, run, k) && SameSizes(run, n)
    requires m >= k && m >= 9 * n && at == q * m && at < |run|
    ensures Inv(cfg, run[at]) && Inv(cfg, run[0])
    ensures StateWork(cfg, run[at]) + q <= StateWork(cfg, run[0])
  {
    hide Inv, StateWork, Alive, Fair;
    if q > 0 {
      OneMore(q, m);
      DropsAddUp(cfg, run, k, n, m, q - 1, at - m);
      FairDrops(cfg, run, k, at - m, m);
    } else {
      AliveStart(cfg, run);
    }
  }

  lemma StartWork(cfg: Config, held: nat)
    requires cfg.Valid()
    ensures var l := Start(cfg, held); l.Sent(cfg) == 0 && Work(cfg, l) == 8 * cfg.iterations + 1
  {
  }

  lemma {:induction false} InitWork(cfg: Config, held: seq<nat>)
    requires cfg.Valid()
    ensures var links := Init(cfg, held).links;
            && (forall j :: 0 <= j < |links| ==> links[j].Sent(cfg) <= cfg.iterations)
            && TotalWork(cfg, links) == |held| * (8 * cfg.iterations + 1)
  {
    hide Start, Work;
    forall j | 0 <= j < |held| ensures Start(cfg, held[j]).Sent(cfg) <= cfg.iterations {
      StartWork(cfg, held[j]);
    }
    if held != [] {
      var n := |held| - 1;
      InitWork(cfg, held[..n]);
      assert Init(cfg, held).links[..n] == Init(cfg, held[..n]).links;
      StartWork(cfg, held[n]);
      assert (n + 1) * (8 * cfg.iterations + 1) == n * (8 * cfg.iterations + 1) + 8 * cfg.iterations + 1;
    }
  }

  lemma {:induction false} RunShape(cfg: Config, held: seq<nat>, run: seq<State>, k: nat)
    requires cfg.Valid() && held != [] && IsRun(cfg, held, run) && k < |run|
    ensures Inv(cfg, run[k]) && |run[k].links| == |held|
  {
    hide Inv, Step, Init;
    if k == 0 {
      InitInv(cfg, held);
      InitSize(cfg, held);
    } else {
      RunShape(cfg, held, run, k - 1);
      assert Step(cfg, run[k - 1], run[k - 1 + 1]);
      StepInv(cfg, run[k - 1], run[k]);
      SameSize(cfg, run[k - 1], run[k]);
    }
  }

  lemma InitSize(cfg: Config, held: seq<nat>)
    requires cfg.Valid()
    ensures |Init(cfg, held).links| == |held|
  {
  }

  /** No fair run goes on for ever: its length is bounded by what there is to do. */
  lemma FairRunLength(cfg: Config, held: seq<nat>, run: seq<State>, k: nat)
    requires cfg.Valid() && held != [] && IsRun(cfg, held, run) && Fair(cfg, run, k) && UpToFailure(run)
    ensures |run| - 1 < (|held| * (8 * cfg.iterations + 1) + 1) * Max(k, 9 * |held|)
  {
    hide Inv, Step, Init, Fair, UpToFailure;
    forall i | 0 <= i < |run| ensures Inv(cfg, run[i]) && |run[i].links| == |held| {
      RunShape(cfg, held, run, i);
    }
    InitWork(cfg, held);
    var q, m := |held| * (8 * cfg.iterations + 1) + 1, Max(k, 9 * |held|);
    if q * m < |run| {
      DropsAddUp(cfg, run, k, |held|, m, q, q * m);
    }
  }

  /** And a fair run that is neither done nor failed can go on fairly. */
  lemma FairRunExtends(cfg: Config, held: seq<nat>, run: seq<State>, k: nat) returns (s': State)
    requires cfg.Valid() && held != [] && IsRun(cfg, held, run) && k > 0 && Fair(cfg, run, k)
    requires UpToFailure(run) && !Stopped(run[|run| - 1])
    ensures IsRun(cfg, held, run + [s']) && Fair(cfg, run + [s'], k) && UpToFailure(run + [s'])
  {
    var last := run[|run| - 1];
    RunShape(cfg, held, run, |run| - 1);
    if OtherEnabled(cfg, last) {
      var j: nat, l';
      j, l', s' :| OtherMove(cfg, last, s', j, l');
    } else {
      s' := Progress(cfg, last);
    }
    hide Inv, Init, OtherEnabled, OtherTaken, OtherMove;
    assert OtherTaken(cfg, last, s') || !OtherEnabled(cfg, last);
    AddStep(cfg, held, run, s', k);
  }

  lemma AddStep(cfg: Config, held: seq<nat>, run: seq<State>, s': State, k: nat)
    requires cfg.Valid() && IsRun(cfg, held, run) && k > 0 && Fair(cfg, run, k) && UpToFailure(run)
    requires var last := run[|run| - 1];
             NothingFailed(last) && Step(cfg, last, s') && (OtherTaken(cfg, last, s') || !OtherEnabled(cfg, last))
    ensures IsRun(cfg, held, run + [s']) && Fair(cfg, run + [s'], k) && UpToFailure(run + [s'])
  {
    hide Init, Step, OtherTaken, OtherEnabled, NothingFailed, Served;
    var longer := run + [s'];
    forall i | 0 <= i < |longer| - 1 ensures Step(cfg, longer[i], longer[i + 1]) && NothingFailed(longer[i]) {
      assert i < |run| - 1 ==> Step(cfg, run[i], run[i + 1]) && NothingFailed(run[i]);
    }
    forall i: nat | i + k < |longer| ensures Served(cfg, longer, i, k) {
      if i + k < |run| {
        ServedBefore(cfg, run, s', i, k);
      } else {
        ServedLast(cfg, run, s', i, k);
      }
    }
  }

  lemma ServedBefore(cfg: Config, run: seq<State>, s': State, i: nat, k: nat)
    requires cfg.Valid() && i + k < |run| && Served(cfg, run, i, k)
    ensures Served(cfg, run + [s'], i, k)
  {
    var m := FairMove(cfg, run, k, i);
    hide Served;
    SameServes(cfg, run, s', m);
    ServesAt(cfg, run + [s'], i, k, m);
  }

  lemma ServedLast(cfg: Config, run: seq<State>, s': State, i: nat, k: nat)
    requires cfg.Valid() && k > 0 && i + k == |run|
    requires OtherTaken(cfg, run[|run| - 1], s') || !OtherEnabled(cfg, run[|run| - 1])
    ensures Served(cfg, run + [s'], i, k)
  {
    hide OtherTaken, OtherEnabled, Served;
    var longer, m := run + [s'], |run| - 1;
    assert longer[m] == run[m] && longer[m + 1] == s';
    ServesAt(cfg, longer, i, k, m);
  }

  lemma SameServes(cfg: Config, run: seq<State>, s': State, m: nat)
    requires cfg.Valid() && m + 1 < |run| && Serves(cfg, run, m)
    ensures Serves(cfg, run + [s'], m)
  {
    hide OtherTaken, OtherEnabled;
    var longer := run + [s'];
    assert longer[m] == run[m] && longer[m + 1] == run[m + 1];
  }

  lemma ServesAt(cfg: Config, run: seq<State>, i: nat, k: nat, m: nat)
    requires cfg.Valid() && i + k < |run| && i <= m < i + k && Serves(cfg, run, m)
    ensures Served(cfg, run, i, k)
  {
    hide Serves;
  }
}
