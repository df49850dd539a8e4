/** Message slots of an RPC server behind a shared receive queue. A message takes
    the oldest posted receive; completions of different connections come in any
    order; each completion names its slot. */
module RpcSlots {

  function Slots<M>(completed: seq<(nat, M)>): (r: seq<nat>)
    ensures |r| == |completed| && forall k :: 0 <= k < |r| ==> r[k] == completed[k].0
  {
    seq(|completed|, k requires 0 <= k < |completed| => completed[k].0)
  }

  function AllSlots(max: nat): (r: seq<nat>)
    ensures |r| == max && forall k :: 0 <= k < max ==> r[k] == k
  {
    seq(max, k requires 0 <= k => k)
  }

  lemma HeadAndRest(s: seq<nat>)
    requires s != []
    ensures multiset(s) == multiset{s[0]} + multiset(s[1..])
  {
    assert s == [s[0]] + s[1..];
  }

  lemma SlotsTail<M>(completed: seq<(nat, M)>)
    requires completed != []
    ensures Slots(completed[1..]) == Slots(completed)[1..]
  {
  }

  lemma SlotsAppend<M>(completed: seq<(nat, M)>, p: (nat, M))
    ensures Slots(completed + [p]) == Slots(completed) + [p.0]
  {
  }

  /** No slot of a duplicate-free split is in two places. */
  lemma {:induction false} OnceEach(max: nat, x: nat)
    ensures multiset(AllSlots(max))[x] == if x < max then 1 else 0
  {
    if max > 0 {
      OnceEach(max - 1, x);
      assert AllSlots(max) == AllSlots(max - 1) + [max - 1];
    }
  }

  class RpcHandler<M> {
    const maxNumberMsgs: nat
    var buffer: seq<M>
    var posted: seq<nat>             // shared receive queue, oldest first
    var arriving: map<nat, M>        // slots a message is being written into, and the message
    var completed: seq<(nat, M)>     // completion queue: slot, and the message that was delivered
    var handling: seq<(nat, M)>      // the slot in the handler, at most one

    ghost function Everywhere(): multiset<nat>
      reads this
    {
      multiset(posted) + multiset(arriving.Keys) + multiset(Slots(completed)) + multiset(Slots(handling))
    }

    /** Every slot is in exactly one place, and delivered messages are intact. */
    ghost predicate Valid()
      reads this
    {
      && |buffer| == maxNumberMsgs && |handling| <= 1
      && Everywhere() == multiset(AllSlots(maxNumberMsgs))
      && (forall k :: 0 <= k < |completed| ==> completed[k].0 < |buffer| && buffer[completed[k].0] == completed[k].1)
      && (forall k :: 0 <= k < |handling| ==> handling[k].0 < |buffer| && buffer[handling[k].0] == handling[k].1)
    }

    lemma PlaceIsUnique(x: nat)
      requires Valid()
      ensures x in Everywhere() <==> x < maxNumberMsgs
      ensures multiset(posted)[x] + multiset(arriving.Keys)[x] +
              multiset(Slots(completed))[x] + multiset(Slots(handling))[x] ==
              if x < maxNumberMsgs then 1 else 0
    {
      OnceEach(maxNumberMsgs, x);
    }

    /** Posts every slot once. */
    constructor (maxNumberMsgs: nat, buffer: seq<M>)
      requires |buffer| == maxNumberMsgs
      ensures Valid() && this.maxNumberMsgs == maxNumberMsgs && posted == AllSlots(maxNumberMsgs)
      ensures arriving == map[] && completed == [] && handling == []
    {
      this.maxNumberMsgs := maxNumberMsgs;
      this.buffer := buffer;
      arriving, completed, handling := map[], [], [];
      posted := [];
      new;
      var i := 0;
      while i < maxNumberMsgs
        invariant i <= maxNumberMsgs && posted == AllSlots(i)
        invariant this.buffer == buffer && arriving == map[] && completed == [] && handling == []
      {
        posted := posted + [i];
        i := i + 1;
      }
    }

    // ---- the adapter ----

    /** A message arrives and takes the oldest receive; false when none is posted. */
    method MessageArrives(m: M) returns (ok: bool)
      requires Valid()
      modifies this`posted, this`arriving
      ensures Valid() && ok == (old(posted) != [])
      ensures ok ==> posted == old(posted)[1..] && arriving == old(arriving)[old(posted)[0] := m]
      ensures !ok ==> posted == old(posted) && arriving == old(arriving)
    {
      ok := posted != [];
      if ok {
        var slot := posted[0];
        PlaceIsUnique(slot);
        HeadAndRest(posted);
        assert slot !in arriving;
        arriving := arriving[slot := m];
        posted := posted[1..];
        assert arriving.Keys == old(arriving.Keys) + {slot};
      }
    }

    /** Part of an arriving message is written to its slot. */
    method PartialWrite(slot: nat, partial: M)
      requires Valid() && slot in arriving
      modifies this`buffer
      ensures Valid() && slot < |old(buffer)|
      ensures buffer == old(buffer)[slot := partial]
    {
      PlaceIsUnique(slot);
      NotElsewhere(slot);
      buffer := buffer[slot := partial];
    }

    lemma NotElsewhere(slot: nat)
      requires Valid() && slot in arriving
      ensures slot < |buffer|
      ensures forall k :: 0 <= k < |completed| ==> completed[k].0 != slot
      ensures forall k :: 0 <= k < |handling| ==> handling[k].0 != slot
    {
      PlaceIsUnique(slot);
      assert slot !in multiset(Slots(completed)) && slot !in multiset(Slots(handling));
      forall k | 0 <= k < |completed| ensures completed[k].0 != slot {
        assert Slots(completed)[k] in multiset(Slots(completed));
      }
      forall k | 0 <= k < |handling| ensures handling[k].0 != slot {
        assert Slots(handling)[k] in multiset(Slots(handling));
      }
    }

    /** Any arriving message may be the next to complete. */
    method MessageCompletes(slot: nat)
      requires Valid() && slot in arriving
      modifies this`arriving, this`completed, this`buffer
      ensures Valid() && completed == old(completed) + [(slot, old(arriving)[slot])]
      ensures arriving == old(arriving) - {slot}
    {
      var m := arriving[slot];
      NotElsewhere(slot);
      SlotsAppend(completed, (slot, m));
      buffer := buffer[slot := m];
      completed := completed + [(slot, m)];
      arriving := arriving - {slot};
      assert old(arriving.Keys) == arriving.Keys + {slot};
    }

    // ---- the handler thread ----

    /** Polls one completion. The handler then sees exactly the delivered message. */
    method PollReceive() returns (memIndex: nat, message: M)
      requires Valid() && handling == [] && completed != []
      modifies this`completed, this`handling
      ensures Valid() && completed == old(completed)[1..] && handling == [old(completed)[0]]
      ensures (memIndex, message) == old(completed)[0]
    {
      memIndex := completed[0].0;
      message := buffer[memIndex];
      HeadAndRest(Slots(completed));
      SlotsTail(completed);
      handling := [completed[0]];
      assert Slots(handling) == [memIndex];
      completed := completed[1..];
    }

    /** Posts the slot of the handled message again. */
    method Repost() returns (message: M)
      requires Valid() && handling != []
      modifies this`posted, this`handling
      ensures Valid() && handling == [] && posted == old(posted) + [old(handling)[0].0]
      ensures message == old(handling)[0].1
    {
      var memIndex := handling[0].0;
      message := buffer[memIndex];
      assert Slots(handling) == [memIndex];
      posted := posted + [memIndex];
      handling := [];
    }
  }
}
