/** The verdict for the whole client: with the exact condition on window,
    iterations and receives found at the start no run fails; without it a client
    with any number of connections has a run that fails. */
module FlowVerdict {
  import opened FlowControl
  import opened FlowSlots
  import opened FlowRun
  import opened FlowAcks
  import opened FlowFair
  import opened FlowHeld
  import opened FlowOverflow

  ghost predicate AllFit(cfg: Config, held: seq<nat>) {
    forall j :: 0 <= j < |held| ==> FitFrom(cfg, held[j])
  }

  ghost predicate AllAcks(cfg: Config, held: seq<nat>, s: State)
    requires cfg.Valid()
  {
    |s.links| == |held| &&
    forall j :: 0 <= j < |held| ==> AckInv(cfg, held[j], s.links[j]) && s.links[j].failure == {}
  }

  lemma StepAllAcks(cfg: Config, held: seq<nat>, s: State, s': State)
    requires cfg.Valid() && AllFit(cfg, held) && Inv(cfg, s) && AllAcks(cfg, held, s) && Step(cfg, s, s')
    ensures AllAcks(cfg, held, s')
  {
    hide LinkInv, SlotInv, AckInv, FitFrom, Visit, Send, BurstEnd, PollAck, PollNothing, OtherStep;
    if exists l' :: ClientMove(cfg, s, s', l') {
      var l' :| ClientMove(cfg, s, s', l');
      var l := s.links[s.cur];
      if l' != l {
        StepAcks(cfg, held[s.cur], l, l');
      }
    } else {
      var j: nat, l' :| OtherMove(cfg, s, s', j, l');
      StepAcks(cfg, held[j], s.links[j], l');
    }
  }

  lemma {:induction false} PathAllAcks(cfg: Config, held: seq<nat>, run: seq<State>, k: nat)
    requires cfg.Valid() && AllFit(cfg, held) && IsPath(cfg, run) && k < |run|
    requires Inv(cfg, run[0]) && AllAcks(cfg, held, run[0])
    ensures Inv(cfg, run[k]) && AllAcks(cfg, held, run[k])
  {
    if k > 0 {
      hide Inv, AllAcks, Step, AllFit;
      PathAllAcks(cfg, held, run, k - 1);
      assert Step(cfg, run[k - 1], run[k - 1 + 1]);
      StepInv(cfg, run[k - 1], run[k]);
      StepAllAcks(cfg, held, run[k - 1], run[k]);
    }
  }

  lemma RunAllAcks(cfg: Config, held: seq<nat>, run: seq<State>, k: nat)
    requires cfg.Valid() && held != [] && AllFit(cfg, held) && IsRun(cfg, held, run) && k < |run|
    ensures Inv(cfg, run[k]) && AllAcks(cfg, held, run[k])
  {
    InitInv(cfg, held);
    forall j | 0 <= j < |held| ensures AckInv(cfg, held[j], Start(cfg, held[j])) {
      StartAcks(cfg, held[j]);
    }
    PathAllAcks(cfg, held, run, k);
  }

  /** Under the condition no connection fails in any run; wherever a run is, it can
      be continued to its end; and at an end every message of every connection has
      been acknowledged by the immediates that were polled. */
  lemma FitRunsFinish(cfg: Config, held: seq<nat>, run: seq<State>, k: nat) returns (rest: seq<State>)
    requires cfg.Valid() && held != [] && AllFit(cfg, held) && IsRun(cfg, held, run) && k < |run|
    ensures NothingFailed(run[k])
    ensures IsPath(cfg, rest) && rest[0] == run[k] && NothingFailed(rest[|rest| - 1])
    ensures rest[|rest| - 1].done && AllCredited(cfg, rest[|rest| - 1])
    ensures run[k].done ==> AllCredited(cfg, run[k])
  {
    RunAllAcks(cfg, held, run, k);
    rest := CanStop(cfg, run[k]);
    PathAllAcks(cfg, held, rest, |rest| - 1);
    DoneIsCredited(cfg, rest[|rest| - 1]);
    DoneIsCredited(cfg, run[k]);
  }

  lemma RunAlive(cfg: Config, held: seq<nat>, run: seq<State>)
    requires cfg.Valid() && held != [] && AllFit(cfg, held) && IsRun(cfg, held, run)
    ensures UpToFailure(run) && NothingFailed(run[|run| - 1])
  {
    hide Inv, Step, Init;
    forall k | 0 <= k < |run| ensures NothingFailed(run[k]) {
      RunAllAcks(cfg, held, run, k);
    }
  }

  /** Under the condition every fair run comes to its end, within a bound known in
      advance: one that cannot be continued fairly is done, with everything acknowledged. */
  lemma FairRunsFinish(cfg: Config, held: seq<nat>, run: seq<State>, k: nat)
    requires cfg.Valid() && held != [] && AllFit(cfg, held) && IsRun(cfg, held, run) && k > 0 && Fair(cfg, run, k)
    ensures |run| - 1 < (|held| * (8 * cfg.iterations + 1) + 1) * Max(k, 9 * |held|)
    ensures (forall s' :: IsRun(cfg, held, run + [s']) ==> !Fair(cfg, run + [s'], k)) ==>
              run[|run| - 1].done && AllCredited(cfg, run[|run| - 1])
  {
    hide Inv, Step, Init, AllFit, Fair;
    RunAlive(cfg, held, run);
    FairRunLength(cfg, held, run, k);
    if forall s' :: IsRun(cfg, held, run + [s']) ==> !Fair(cfg, run + [s'], k) {
      if !run[|run| - 1].done {
        var s' := FairRunExtends(cfg, held, run, k);
        assert false;
      }
      RunAllAcks(cfg, held, run, |run| - 1);
      DoneIsCredited(cfg, run[|run| - 1]);
    }
  }

  // ---- the failing schedule, played on every connection ----

  /** `s` with the connection under the cursor replaced. */
  function At(s: State, l: Link): State
    requires s.cur < |s.links|
  {
    s.(links := s.links[s.cur := l])
  }

  /** The client is at connection `c`: those before it are one visit ahead of those behind it. */
  function Mixed(conns: nat, c: nat, ahead: Link, here: Link, behind: Link): State
    requires c < conns
  {
    State(seq(conns, j requires 0 <= j < conns => if j < c then ahead else if j == c then here else behind),
          c, conns, false)
  }

  lemma MixedAt(conns: nat, c: nat, ahead: Link, here: Link, behind: Link, here': Link)
    requires c < conns
    ensures var s := Mixed(conns, c, ahead, here, behind);
            && |s.links| == conns && s.cur == c && s.working == conns && !s.done && s.links[c] == here
            && At(s, here') == Mixed(conns, c, ahead, here', behind)
  {
    assert Mixed(conns, c, ahead, here, behind).links[c := here'] == Mixed(conns, c, ahead, here', behind).links;
  }

  lemma MixedAdvance(conns: nat, c: nat, l: Link, behind: Link)
    requires c < conns
    ensures Advance(Mixed(conns, c, l, l, behind)) ==
            if c + 1 < conns then Mixed(conns, c + 1, l, behind, behind) else Mixed(conns, 0, l, l, l)
  {
    var s := Mixed(conns, c, l, l, behind);
    if c + 1 < conns {
      assert s.links == Mixed(conns, c + 1, l, behind, behind).links;
    } else {
      assert s.links == Mixed(conns, 0, l, l, l).links;
    }
  }

  /** A step of the connection under the cursor, unless it is the empty poll, is a step of the whole. */
  lemma StepHere(cfg: Config, s: State, l: Link, l': Link)
    requires cfg.Valid() && s.cur < |s.links| && !s.done && LinkStep(cfg, l, l') && !PollNothing(cfg, l, l')
    ensures Step(cfg, At(s, l), At(s, l'))
  {
    hide Visit, Send, BurstEnd, PollAck, PollNothing, OtherStep;
    assert At(At(s, l), l') == At(s, l');
    if OtherStep(cfg, l, l') {
      assert OtherMove(cfg, At(s, l), At(s, l'), s.cur, l');
    } else {
      assert ClientMove(cfg, At(s, l), At(s, l'), l');
    }
  }

  /** The empty poll moves the cursor on. */
  lemma StepLeave(cfg: Config, conns: nat, c: nat, l: Link, behind: Link, l': Link)
    requires cfg.Valid() && c < conns && l.failure == {} && PollNothing(cfg, l, l') && !l'.Closed()
    ensures Step(cfg, Mixed(conns, c, l', l, behind),
                 if c + 1 < conns then Mixed(conns, c + 1, l', behind, behind) else Mixed(conns, 0, l', l', l'))
  {
    hide PollNothing, Mixed, Advance;
    var s := Mixed(conns, c, l', l, behind);
    MixedAt(conns, c, l', l, behind, l');
    MixedAdvance(conns, c, l', behind);
    assert ClientMove(cfg, s, Advance(Mixed(conns, c, l', l', behind)), l');
  }

  ghost predicate EndsIn(cfg: Config, held: seq<nat>, run: seq<State>, s: State)
    requires cfg.Valid()
  {
    IsRun(cfg, held, run) && run[|run| - 1] == s
  }

  lemma Extend(cfg: Config, held: seq<nat>, run: seq<State>, s: State, s': State)
    requires cfg.Valid() && EndsIn(cfg, held, run, s) && Step(cfg, s, s')
    ensures EndsIn(cfg, held, run + [s'], s')
  {
    hide Step;
    var longer := run + [s'];
    forall i | 0 <= i < |longer| - 1 ensures Step(cfg, longer[i], longer[i + 1]) {
      assert i < |run| - 1 ==> Step(cfg, run[i], run[i + 1]);
    }
  }

  /** No empty poll in `path[a..i]`: all of it belongs to one visit. */
  ghost predicate OneVisit(cfg: Config, path: seq<Link>, a: nat, i: nat)
    requires cfg.Valid() && i < |path|
  {
    IsLinkPath(cfg, path) && a <= i && forall k :: a <= k < i ==> !PollNothing(cfg, path[k], path[k + 1])
  }

  /** The connection under the cursor replays `path[a..i]`. */
  lemma {:induction false} Replay(cfg: Config, held: seq<nat>, s: State, path: seq<Link>, a: nat, i: nat,
                                  run: seq<State>)
    returns (run': seq<State>)
    requires cfg.Valid() && s.cur < |s.links| && !s.done && i < |path| && OneVisit(cfg, path, a, i)
    requires EndsIn(cfg, held, run, At(s, path[a]))
    ensures EndsIn(cfg, held, run', At(s, path[i]))
    decreases i
  {
    hide EndsIn, LinkStep, PollNothing, At, Step;
    if i == a {
      run' := run;
    } else {
      var r := Replay(cfg, held, s, path, a, i - 1, run);
      assert LinkStep(cfg, path[i - 1], path[i - 1 + 1]);
      StepHere(cfg, s, path[i - 1], path[i]);
      Extend(cfg, held, r, At(s, path[i - 1]), At(s, path[i]));
      run' := r + [At(s, path[i])];
    }
  }

  /** From the last step but one of the visit of connection `c` to the end of the lap. */
  lemma {:induction false} EndLap(cfg: Config, held: seq<nat>, c: nat, path: seq<Link>, a: nat, i: nat, run: seq<State>)
    returns (run': seq<State>)
    requires cfg.Valid() && c < |held| && i + 1 < |path| && OneVisit(cfg, path, a, i)
    requires PollNothing(cfg, path[i], path[i + 1]) && path[i].failure == {} && !path[i + 1].Closed()
    requires EndsIn(cfg, held, run, Mixed(|held|, c, path[i + 1], path[i], path[a]))
    ensures EndsIn(cfg, held, run', Mixed(|held|, 0, path[i + 1], path[i + 1], path[i + 1]))
    decreases |held| - c
  {
    hide EndsIn, LinkStep, PollNothing, Mixed, Step, At;
    var conns, x, y := |held|, path[a], path[i + 1];
    StepLeave(cfg, conns, c, path[i], x, y);
    var s := if c + 1 < conns then Mixed(conns, c + 1, y, x, x) else Mixed(conns, 0, y, y, y);
    Extend(cfg, held, run, Mixed(conns, c, y, path[i], x), s);
    run' := run + [s];
    if c + 1 < conns {
      MixedAt(conns, c + 1, y, x, x, x);
      MixedAt(conns, c + 1, y, x, x, path[i]);
      run' := Replay(cfg, held, s, path, a, i, run');
      run' := EndLap(cfg, held, c + 1, path, a, i, run');
    }
  }

  function Zeros(conns: nat): seq<nat> { seq(conns, _ => 0) }

  lemma StartIsMixed(cfg: Config, conns: nat)
    requires cfg.Valid() && conns > 0
    ensures var x := Start(cfg, 0); EndsIn(cfg, Zeros(conns), [Init(cfg, Zeros(conns))], Mixed(conns, 0, x, x, x))
  {
    var x := Start(cfg, 0);
    assert Init(cfg, Zeros(conns)).links == Mixed(conns, 0, x, x, x).links;
  }

  lemma FirstIgnoresAhead(conns: nat, ahead: Link, other: Link, here: Link, behind: Link)
    requires conns > 0
    ensures Mixed(conns, 0, ahead, here, behind) == Mixed(conns, 0, other, here, behind)
  {
    assert Mixed(conns, 0, ahead, here, behind).links == Mixed(conns, 0, other, here, behind).links;
  }

  /** Any path of one connection that stays open has a run of all connections in
      which the first connection goes through it, and the others follow lap by lap. */
  lemma {:induction false} PlayAll(cfg: Config, conns: nat, path: seq<Link>, i: nat) returns (run: seq<State>, a: nat)
    requires cfg.Valid() && conns > 0 && IsLinkPath(cfg, path) && path[0] == Start(cfg, 0) && i < |path|
    requires forall k :: 0 <= k < |path| ==> !path[k].Closed()
    ensures OneVisit(cfg, path, a, i)
    ensures EndsIn(cfg, Zeros(conns), run, Mixed(conns, 0, path[a], path[i], path[a]))
  {
    hide EndsIn, LinkStep, PollNothing, Mixed, Step, Link.Closed, Start, At;
    if i == 0 {
      a, run := 0, [Init(cfg, Zeros(conns))];
      StartIsMixed(cfg, conns);
    } else {
      run, a := PlayAll(cfg, conns, path, i - 1);
      var x, l, l' := path[a], path[i - 1], path[i];
      assert LinkStep(cfg, path[i - 1], path[i - 1 + 1]);
      if PollNothing(cfg, l, l') {
        FirstIgnoresAhead(conns, x, l', l, x);
        FineBefore(cfg, l, l');
        run := EndLap(cfg, Zeros(conns), 0, path, a, i - 1, run);
        a := i;
      } else {
        var s := Mixed(conns, 0, x, l, x);
        MixedAt(conns, 0, x, l, x, l);
        MixedAt(conns, 0, x, l, x, l');
        StepHere(cfg, s, l, l');
        Extend(cfg, Zeros(conns), run, s, At(s, l'));
        run := run + [At(s, l')];
      }
    }
  }

  lemma {:induction false} PathLinkInv(cfg: Config, held: nat, path: seq<Link>, k: nat)
    requires cfg.Valid() && IsLinkPath(cfg, path) && path[0] == Start(cfg, held) && k < |path|
    ensures LinkInv(cfg, path[k])
  {
    hide LinkStep, LinkInv;
    if k == 0 {
      StartInv(cfg, held);
    } else {
      PathLinkInv(cfg, held, path, k - 1);
      assert LinkStep(cfg, path[k - 1], path[k - 1 + 1]);
      LinkStepInv(cfg, path[k - 1], path[k]);
    }
  }

  /** A connection with nothing left to send or await stays so. */
  lemma ClosedStays(cfg: Config, l: Link, l': Link)
    requires cfg.Valid() && LinkInv(cfg, l) && LinkStep(cfg, l, l') && l.Closed()
    ensures l'.Closed()
  {
    hide ServerInv, ChannelInv, Config.Pack;
  }

  lemma {:induction false} ClosedOnward(cfg: Config, held: nat, path: seq<Link>, k: nat, m: nat)
    requires cfg.Valid() && IsLinkPath(cfg, path) && path[0] == Start(cfg, held) && k <= m < |path| && path[k].Closed()
    ensures path[m].Closed()
    decreases m
  {
    hide LinkStep, LinkInv, Link.Closed;
    if k < m {
      ClosedOnward(cfg, held, path, k, m - 1);
      PathLinkInv(cfg, held, path, m - 1);
      assert LinkStep(cfg, path[m - 1], path[m - 1 + 1]);
      ClosedStays(cfg, path[m - 1], path[m]);
    }
  }

  /** Every state a connection reaches while it is open is reached by the first
      connection of a run of the whole client. */
  lemma PlayTo(cfg: Config, conns: nat, l: Link) returns (run: seq<State>)
    requires cfg.Valid() && conns > 0 && Reaches(cfg, Start(cfg, 0), l) && !l.Closed()
    ensures IsRun(cfg, Zeros(conns), run)
    ensures var s := run[|run| - 1]; |s.links| == conns && s.links[0] == l
  {
    var path: seq<Link> :| IsLinkPath(cfg, path) && path[0] == Start(cfg, 0) && path[|path| - 1] == l;
    forall k | 0 <= k < |path| ensures !path[k].Closed() {
      if path[k].Closed() {
        ClosedOnward(cfg, 0, path, k, |path| - 1);
      }
    }
    var a;
    run, a := PlayAll(cfg, conns, path, |path| - 1);
  }

  /** Where a burst overflows the connection is open. */
  lemma {:induction false} OverflowIsOpen(cfg: Config, held: nat, path: seq<Link>, k: nat)
    requires cfg.Valid() && IsLinkPath(cfg, path) && path[0] == Start(cfg, held) && k < |path|
    ensures TooManyReceives in path[k].failure ==> !path[k].Closed()
  {
    hide LinkStep, LinkInv;
    if k > 0 {
      OverflowIsOpen(cfg, held, path, k - 1);
      PathLinkInv(cfg, held, path, k - 1);
      assert LinkStep(cfg, path[k - 1], path[k - 1 + 1]);
      OverflowStep(cfg, path[k - 1], path[k]);
    }
  }

  lemma OverflowStep(cfg: Config, l: Link, l': Link)
    requires cfg.Valid() && LinkInv(cfg, l) && LinkStep(cfg, l, l')
    ensures TooManyReceives in l'.failure ==> !l'.Closed()
  {
    hide ServerInv, ChannelInv, Config.Pack;
  }

  lemma FailingFresh(cfg: Config, conns: nat) returns (run: seq<State>)
    requires cfg.Valid() && conns > 0 && !AcksFit(cfg)
    ensures IsRun(cfg, Zeros(conns), run) && !NothingFailed(run[|run| - 1])
  {
    PackRange(cfg);
    var l := Overflow(cfg);
    var path: seq<Link> :| IsLinkPath(cfg, path) && path[0] == Start(cfg, 0) && path[|path| - 1] == l;
    OverflowIsOpen(cfg, 0, path, |path| - 1);
    run := PlayTo(cfg, conns, l);
    assert run[|run| - 1].links[0].failure != {};
  }

  // ---- the failing schedule when one connection starts with too many receives ----

  lemma ClientFrame(cfg: Config, s: State, s': State)
    requires cfg.Valid() && Inv(cfg, s) && ClientMoves(cfg, s, s') && s.cur + 1 < |s.links|
    ensures !s'.done && |s'.links| == |s.links| && (s'.cur == s.cur || s'.cur == s.cur + 1)
    ensures forall j :: s.cur < j < |s.links| ==> s'.links[j] == s.links[j]
  {
    hide LinkInv, SlotInv, Visit, Send, BurstEnd, PollAck, PollNothing;
  }

  /** From the visit of one connection to the next, unless something fails before. */
  lemma {:induction false} LeaveVisit(cfg: Config, held: seq<nat>, run: seq<State>, s: State) returns (run': seq<State>)
    requires cfg.Valid() && EndsIn(cfg, held, run, s) && Inv(cfg, s) && !s.done && s.cur + 1 < |s.links|
    ensures IsRun(cfg, held, run')
    ensures var e := run'[|run'| - 1];
            && Inv(cfg, e)
            && (NothingFailed(e) ==>
                  && !e.done && e.cur == s.cur + 1 && |e.links| == |s.links|
                  && forall j :: s.cur < j < |s.links| ==> e.links[j] == s.links[j])
    decreases StateWork(cfg, s), Lap(s), PhaseWeight(s.links[s.cur].phase)
  {
    hide LinkInv, SlotInv, Step, StateWork, Lap, PhaseWeight, ClientMoves, Quiet, OtherStep;
    if !NothingFailed(s) {
      run' := run;
    } else {
      var t := VisitStep(cfg, s);
      Extend(cfg, held, run, s, t);
      run' := run + [t];
      if t.cur == s.cur {
        run' := LeaveVisit(cfg, held, run', t);
      }
    }
  }

  /** One step on the connection under the cursor: its server or network if these can move, else the client. */
  lemma VisitStep(cfg: Config, s: State) returns (t: State)
    requires cfg.Valid() && Inv(cfg, s) && !s.done && NothingFailed(s) && s.cur + 1 < |s.links|
    ensures Step(cfg, s, t) && Inv(cfg, t) && !t.done && |t.links| == |s.links|
    ensures t.cur == s.cur + 1 || (t.cur == s.cur && Smaller(cfg, t, s))
    ensures forall j :: s.cur < j < |s.links| ==> t.links[j] == s.links[j]
  {
    hide LinkInv, SlotInv, StateWork, ClientMoves, Quiet, OtherStep, ClientMove, Lap, PhaseWeight;
    if Quiet(s.links[s.cur]) {
      t := ClientProgress(cfg, s);
      ClientFrame(cfg, s, t);
    } else {
      var l' := BusyMoves(cfg, s.links[s.cur]);
      t := At(s, l');
      assert OtherMove(cfg, s, t, s.cur, l');
      OtherMoveInv(cfg, s, t, s.cur, l');
      StepWork(cfg, s, t);
    }
  }

  lemma {:induction false} ReachCursor(cfg: Config, held: seq<nat>, j: nat) returns (run: seq<State>)
    requires cfg.Valid() && j < |held|
    ensures IsRun(cfg, held, run)
    ensures var e := run[|run| - 1];
            && Inv(cfg, e)
            && (NothingFailed(e) ==>
                  && !e.done && e.cur == j && |e.links| == |held|
                  && forall i :: j <= i < |held| ==> e.links[i] == Start(cfg, held[i]))
  {
    hide Inv, Start, Step;
    if j == 0 {
      InitInv(cfg, held);
      run := [Init(cfg, held)];
    } else {
      run := ReachCursor(cfg, held, j - 1);
      var s := run[|run| - 1];
      if NothingFailed(s) {
        run := LeaveVisit(cfg, held, run, s);
      }
    }
  }

  /** A burst that posts goes on until the queue overflows. */
  lemma {:induction false} SendUntilFull(cfg: Config, held: seq<nat>, s: State, l: Link, run: seq<State>)
    returns (run': seq<State>)
    requires cfg.Valid() && s.cur < |s.links| && !s.done && EndsIn(cfg, held, run, At(s, l))
    requires l.failure == {} && l.phase.Burst? && l.phase.counter == 0 && l.phase.i < l.phase.n
    requires l.ackReceives + (l.phase.n - l.phase.i) > cfg.window
    ensures IsRun(cfg, held, run') && !NothingFailed(run'[|run'| - 1])
    decreases l.phase.n - l.phase.i
  {
    hide EndsIn, Step;
    var l' := SentOne(cfg, l);
    SendIsStep(cfg, l, l');
    StepHere(cfg, s, l, l');
    Extend(cfg, held, run, At(s, l), At(s, l'));
    run' := run + [At(s, l')];
    if l'.failure == {} {
      run' := SendUntilFull(cfg, held, s, l', run');
    } else {
      FailedEnd(cfg, held, s, l', run');
    }
  }

  lemma SendIsStep(cfg: Config, l: Link, l': Link)
    requires cfg.Valid() && l.failure == {} && Send(cfg, l, l')
    ensures LinkStep(cfg, l, l') && !PollNothing(cfg, l, l')
  {
  }

  lemma FailedEnd(cfg: Config, held: seq<nat>, s: State, l: Link, run: seq<State>)
    requires cfg.Valid() && s.cur < |s.links| && l.failure != {} && EndsIn(cfg, held, run, At(s, l))
    ensures IsRun(cfg, held, run) && !NothingFailed(run[|run| - 1])
  {
    assert At(s, l).links[s.cur] == l;
  }

  lemma FailingAt(cfg: Config, held: seq<nat>, j: nat) returns (run: seq<State>)
    requires cfg.Valid() && j < |held| && held[j] + Min(cfg.window, cfg.iterations) > cfg.window
    ensures IsRun(cfg, held, run) && !NothingFailed(run[|run| - 1])
  {
    hide Inv, Step;
    run := ReachCursor(cfg, held, j);
    var s := run[|run| - 1];
    if NothingFailed(s) {
      var l := Start(cfg, held[j]);
      var l' := Visited(cfg, l);
      assert At(s, l) == s;
      assert Visit(cfg, l, l');
      StepHere(cfg, s, l, l');
      Extend(cfg, held, run, s, At(s, l'));
      run := SendUntilFull(cfg, held, s, l', run + [At(s, l')]);
    }
  }

  // ---- the verdict ----

  /** A client never fails, however many connections it has and whatever receives
      each of them starts with, exactly under the condition. */
  lemma NeverFailsIff(cfg: Config, held: seq<nat>)
    requires cfg.Valid() && held != []
    ensures AllFit(cfg, held) <==> forall run :: IsRun(cfg, held, run) ==> NothingFailed(run[|run| - 1])
  {
    if AllFit(cfg, held) {
      forall run | IsRun(cfg, held, run) ensures NothingFailed(run[|run| - 1]) {
        RunAllAcks(cfg, held, run, |run| - 1);
      }
    } else {
      var run := FailingRun(cfg, held);
    }
  }

  lemma FailingRun(cfg: Config, held: seq<nat>) returns (run: seq<State>)
    requires cfg.Valid() && held != [] && !AllFit(cfg, held)
    ensures IsRun(cfg, held, run) && !NothingFailed(run[|run| - 1])
  {
    if j: nat :| j < |held| && held[j] + Min(cfg.window, cfg.iterations) > cfg.window {
      run := FailingAt(cfg, held, j);
    } else {
      assert !AcksFit(cfg);
      PackRange(cfg);
      assert cfg.Pack() * cfg.Pack() >= 0;
      assert forall j :: 0 <= j < |held| ==> held[j] == 0;
      assert held == Zeros(|held|);
      run := FailingFresh(cfg, |held|);
    }
  }
}
