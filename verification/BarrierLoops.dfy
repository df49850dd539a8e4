/** The two loops of the barrier that search for work: a server posting one receive
    for each client while clients are still connecting, and a client trying
    its servers until each has taken its message. */
module BarrierLoops {
  import opened Sets

  ghost predicate Distinct(s: seq<nat>) {
    forall i, j :: 0 <= i < j < |s| ==> s[i] != s[j]
  }

  function Members(s: seq<nat>): set<nat> {
    set x | x in s
  }

  lemma {:induction false} DistinctSize(s: seq<nat>)
    requires Distinct(s)
    ensures |Members(s)| == |s| && multiset(s) == multiset(Members(s))
  {
    if s != [] {
      var n := |s| - 1;
      DistinctSize(s[..n]);
      assert s == s[..n] + [s[n]];
      assert Members(s) == Members(s[..n]) + {s[n]};
    }
  }

  /** What the server sees of its connections, look after look: clients only come. */
  ghost predicate Growing(views: seq<seq<nat>>) {
    && (forall i :: 0 <= i < |views| ==> Distinct(views[i]))
    && forall i :: 0 <= i < |views| - 1 ==> Members(views[i]) <= Members(views[i + 1])
  }

  ghost predicate FirstEnough(expected: nat, views: seq<seq<nat>>, k: nat) {
    k < |views| && |views[k]| >= expected && forall j :: 0 <= j < k ==> |views[j]| < expected
  }

  /** One pass over the clients seen: a receive for each that has none yet. */
  method PostMissing(clientIds: seq<nat>, already: set<nat>, posts: seq<nat>)
    returns (already': set<nat>, posts': seq<nat>)
    requires already <= Members(clientIds) && multiset(posts) == multiset(already)
    ensures already' == Members(clientIds) && multiset(posts') == multiset(already')
    ensures posts <= posts'
  {
    already', posts' := already, posts;
    var i := 0;
    while i < |clientIds|
      invariant i <= |clientIds| && multiset(posts') == multiset(already') && posts <= posts'
      invariant Members(clientIds[..i]) <= already' <= Members(clientIds)
    {
      if clientIds[i] !in already' {
        already' := already' + {clientIds[i]};
        posts' := posts' + [clientIds[i]];
      }
      i := i + 1;
    }
    assert clientIds[..i] == clientIds;
  }

  /** Stops at the first look with enough clients, and has then posted exactly one receive for each. */
  method PrepareReceives(expected: nat, views: seq<seq<nat>>) returns (clientIds: seq<nat>, posts: seq<nat>)
    requires views != [] && Growing(views) && |views[|views| - 1]| >= expected
    ensures exists k: nat :: FirstEnough(expected, views, k) && clientIds == views[k]
    ensures multiset(posts) == multiset(clientIds)
  {
    var k: nat := 0;
    clientIds, posts := views[0], [];
    var already: set<nat> := {};
    while true
      invariant k < |views| && clientIds == views[k] && forall j :: 0 <= j < k ==> |views[j]| < expected
      invariant already <= Members(clientIds) && multiset(posts) == multiset(already)
      decreases |views| - k
    {
      DistinctSize(clientIds);
      SubsetSize(already, Members(clientIds));
      if |already| < |clientIds| {
        already, posts := PostMissing(clientIds, already, posts);
      }
      assert already == Members(clientIds) && |already| == |clientIds|;
      if |already| >= expected {
        assert FirstEnough(expected, views, k);
        break;
      }
      k := k + 1;
      clientIds := views[k];
    }
  }

  /** A look with as many clients as are expected, none of them unexpected, shows all of them. */
  lemma AllExpected(expected: set<nat>, view: seq<nat>)
    requires Distinct(view) && Members(view) <= expected && |view| >= |expected|
    ensures Members(view) == expected
  {
    DistinctSize(view);
    SubsetSize(Members(view), expected);
  }

  // ---- the client's sends ----

  /** The members of `s` whose send succeeds. `takes(m)` says that server `m` had
      posted its receive at the first attempt: an attempt before that breaks the
      queue pair, and every later one fails on it. */
  function Taken(s: seq<nat>, takes: nat -> bool): seq<nat> {
    if s == [] then [] else Taken(s[..|s| - 1], takes) + if takes(s[|s| - 1]) then [s[|s| - 1]] else []
  }

  function Refused(s: seq<nat>, takes: nat -> bool): seq<nat> {
    if s == [] then [] else Refused(s[..|s| - 1], takes) + if takes(s[|s| - 1]) then [] else [s[|s| - 1]]
  }

  ghost predicate AllTake(s: seq<nat>, takes: nat -> bool) {
    forall i :: 0 <= i < |s| ==> takes(s[i])
  }

  ghost predicate NoneTakes(s: seq<nat>, takes: nat -> bool) {
    forall i :: 0 <= i < |s| ==> !takes(s[i])
  }

  /** Nothing is refused exactly when all servers take, and then all are sent to in order. */
  lemma {:induction false} AllTaken(s: seq<nat>, takes: nat -> bool)
    ensures Refused(s, takes) == [] <==> AllTake(s, takes)
    ensures AllTake(s, takes) ==> Taken(s, takes) == s
  {
    if s != [] {
      var n := |s| - 1;
      AllTaken(s[..n], takes);
      assert s == s[..n] + [s[n]];
      assert AllTake(s, takes) <==> AllTake(s[..n], takes) && takes(s[n]);
    }
  }

  lemma {:induction false} NoneTaken(s: seq<nat>, takes: nat -> bool)
    requires NoneTakes(s, takes)
    ensures Taken(s, takes) == [] && Refused(s, takes) == s
  {
    if s != [] {
      var n := |s| - 1;
      NoneTaken(s[..n], takes);
      assert s == s[..n] + [s[n]];
    }
  }

  lemma {:induction false} RefusedTakeNothing(s: seq<nat>, takes: nat -> bool)
    ensures NoneTakes(Refused(s, takes), takes)
  {
    if s != [] {
      RefusedTakeNothing(s[..|s| - 1], takes);
    }
  }

  lemma PassStart(s: seq<nat>, takes: nat -> bool)
    ensures s[..0] == [] && Taken([], takes) == Refused([], takes) == []
  {
  }

  lemma TryNext(s: seq<nat>, tried: nat, takes: nat -> bool)
    requires tried < |s|
    ensures var m, r, t := s[tried], Refused(s[..tried], takes), Taken(s[..tried], takes);
            && Refused(s[..tried + 1], takes) == (if takes(m) then r else r + [m])
            && Taken(s[..tried + 1], takes) == (if takes(m) then t + [m] else t)
            && s[tried..] == [m] + s[tried + 1..]
  {
    assert s[..tried + 1][..tried] == s[..tried];
  }

  lemma Erased(r: seq<nat>, rest: seq<nat>)
    requires rest != []
    ensures (r + rest)[|r|] == rest[0] && (r + rest)[..|r|] + (r + rest)[|r| + 1..] == r + rest[1..]
    ensures r + rest == (r + [rest[0]]) + rest[1..]
  {
  }

  /** One pass over the servers left: erasing keeps the place in the vector, so
      each of them is tried exactly once, in order. */
  method OnePass(leftConIDs: seq<nat>, sent: seq<nat>, takes: nat -> bool)
    returns (leftConIDs': seq<nat>, sent': seq<nat>)
    ensures sent' == sent + Taken(leftConIDs, takes)
    ensures leftConIDs' == Refused(leftConIDs, takes)
  {
    hide Taken, Refused;
    leftConIDs', sent' := leftConIDs, sent;
    PassStart(leftConIDs, takes);
    var i := 0;
    ghost var tried, r, t := 0, [], [];
    while i < |leftConIDs'|
      invariant tried <= |leftConIDs| && i == |r|
      invariant r == Refused(leftConIDs[..tried], takes) && t == Taken(leftConIDs[..tried], takes)
      invariant leftConIDs' == r + leftConIDs[tried..] && sent' == sent + t
      decreases |leftConIDs| - tried
    {
      TryNext(leftConIDs, tried, takes);
      ghost var m, rest := leftConIDs[tried], leftConIDs[tried + 1..];
      Erased(r, [m] + rest);
      assert ([m] + rest)[1..] == rest && leftConIDs' == r + ([m] + rest) && leftConIDs'[i] == m;
      if takes(leftConIDs'[i]) {
        sent' := sent' + [leftConIDs'[i]];
        leftConIDs' := leftConIDs'[..i] + leftConIDs'[i + 1..];
        t := t + [m];
      } else {
        i := i + 1;
        r := r + [m];
      }
      tried := tried + 1;
    }
    assert leftConIDs[..tried] == leftConIDs;
  }

  /** The loop as it is. It ends because every server has posted its receive in
      time; then each has taken exactly one message, in order, in the first pass. */
  method SendToAll(conIDs: seq<nat>, takes: nat -> bool) returns (sent: seq<nat>)
    requires AllTake(conIDs, takes)
    ensures sent == conIDs
  {
    var leftConIDs := conIDs;
    sent := [];
    AllTaken(conIDs, takes);
    while leftConIDs != []
      invariant (sent == [] && leftConIDs == conIDs) || (sent == conIDs && leftConIDs == [])
      decreases |leftConIDs|
    {
      leftConIDs, sent := OnePass(leftConIDs, sent, takes);
    }
  }

  /** Without that, trying again never helps: after any number of passes those
      refused in the first are still left, so the loop ends exactly when there is none. */
  method RepeatPasses(conIDs: seq<nat>, takes: nat -> bool, passes: nat) returns (leftConIDs: seq<nat>, sent: seq<nat>)
    requires passes > 0
    ensures leftConIDs == Refused(conIDs, takes) && sent == Taken(conIDs, takes)
    ensures leftConIDs == [] <==> AllTake(conIDs, takes)
  {
    hide Taken, Refused, AllTake, NoneTakes;
    leftConIDs, sent := OnePass(conIDs, [], takes);
    AllTaken(conIDs, takes);
    RefusedTakeNothing(conIDs, takes);
    var n := 1;
    while n < passes
      invariant leftConIDs == Refused(conIDs, takes) && sent == Taken(conIDs, takes)
    {
      NoneTaken(leftConIDs, takes);
      leftConIDs, sent := OnePass(leftConIDs, sent, takes);
      n := n + 1;
    }
  }
}
