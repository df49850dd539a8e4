/** The older RPC handler: it does not ask the completion for its slot but takes
    the next one round robin, with an index of 32 bits. */
module RoundRobin {
  import opened Arithmetic

  const WRAP := 0x1_0000_0000

  /** The slot the k-th call of getNext returns. */
  function NextSlot(max: nat, k: nat): nat
    requires max > 0
  {
    (k % WRAP) % max
  }

  /** For the first 2^32 calls the slots go round; then the index starts again at 0. */
  lemma SlotsGoRound(max: nat, k: nat)
    requires max > 0
    ensures k < 0x1_0000_0000 ==> NextSlot(max, k) == k % max
    ensures NextSlot(max, k + 0x1_0000_0000) == NextSlot(max, k)
  {
    assert (k + 0x1_0000_0000) % 0x1_0000_0000 == k % 0x1_0000_0000;
  }

  class RpcMemory {
    const maxNumberMsgs: nat
    var index: nat

    ghost predicate After(k: nat)
      reads this
    {
      0 < maxNumberMsgs < WRAP && index == k % WRAP
    }

    constructor (maxMsgs: nat)
      requires 0 < maxMsgs < 0x1_0000_0000
      ensures After(0) && maxNumberMsgs == maxMsgs
    {
      maxNumberMsgs := maxMsgs;
      index := 0;
    }

    method GetNext(ghost k: nat) returns (slot: nat)
      requires After(k)
      modifies this
      ensures After(k + 1) && slot == NextSlot(maxNumberMsgs, k)
    {
      slot := index % maxNumberMsgs;
      index := (index + 1) % WRAP;
    }
  }

  /** The slots of calls `from`, `from + 1`, ... of getNext. */
  ghost predicate Consecutive(max: nat, s: seq<nat>, from: nat)
    requires max > 0
  {
    forall j :: 0 <= j < |s| ==> s[j] == NextSlot(max, from + j)
  }

  lemma Rotate(max: nat, queue: seq<nat>, i: nat)
    requires 0 < max == |queue| && Consecutive(max, queue, i)
    ensures queue[0] == NextSlot(max, i)
    ensures Consecutive(max, queue[1..] + [NextSlot(max, max + i)], i + 1)
  {
    hide NextSlot;
    assert queue[0] == NextSlot(max, i + 0);
    forall j | 0 <= j < max - 1 ensures queue[1..][j] == NextSlot(max, i + 1 + j) {
      assert queue[1..][j] == queue[j + 1] == NextSlot(max, i + (j + 1));
    }
  }

  /** The handler for `n` messages whose completions come in posting order.
      `completed` are the slots the messages were received in, `handled` those the
      handler looked at. */
  method RunHandler(max: nat, n: nat) returns (completed: seq<nat>, handled: seq<nat>)
    requires 0 < max < 0x1_0000_0000
    ensures |completed| == |handled| == n
    ensures forall i :: 0 <= i < n ==> completed[i] == NextSlot(max, i) && handled[i] == NextSlot(max, max + i)
  {
    hide NextSlot;
    assert Consecutive(max, [], 0) && Consecutive(max, [], max);
    var memory := new RpcMemory(max);
    var queue: seq<nat> := [];
    var i := 0;
    while i < max
      invariant i <= max && memory.After(i) && memory.maxNumberMsgs == max
      invariant |queue| == i && Consecutive(max, queue, 0)
    {
      var ptr := memory.GetNext(i);
      queue := queue + [ptr];
      i := i + 1;
    }
    completed, handled := [], [];
    i := 0;
    while i < n
      invariant i <= n && memory.After(max + i) && memory.maxNumberMsgs == max
      invariant |queue| == max && Consecutive(max, queue, i)
      invariant |completed| == |handled| == i && Consecutive(max, completed, 0) && Consecutive(max, handled, max)
    {
      Rotate(max, queue, i);
      completed := completed + [queue[0]];
      var message := memory.GetNext(max + i);
      handled := handled + [message];
      queue := queue[1..] + [message];
      i := i + 1;
    }
  }

  // ---- arithmetic ----

  /** When the buffer size divides 2^32 the wrap is invisible. */
  lemma WrapInvisible(max: nat, k: nat)
    requires 0 < max < WRAP && WRAP % max == 0
    ensures NextSlot(max, k) == k % max
  {
    var q, r := k / WRAP, k % WRAP;
    MultipleOfWrap(max, q);
    assert k == r + q * WRAP;
    AddMultiple(max, q * WRAP, r);
  }

  lemma MultipleOfWrap(max: nat, q: nat)
    requires 0 < max < WRAP && WRAP % max == 0
    ensures (q * WRAP) % max == 0
  {
    var w := WRAP / max;
    assert WRAP == max * w;
    assert q * WRAP == max * (q * w) + 0;
    RemainderUnique(max, q * w, 0, q * WRAP);
  }

  /** The handler always looks at the slot that completed, in every run, exactly
      when the number of slots divides 2^32. */
  lemma RoundRobinIff(max: nat)
    requires 0 < max < 0x1_0000_0000
    ensures (forall i: nat :: NextSlot(max, max + i) == NextSlot(max, i)) <==> 0x1_0000_0000 % max == 0
  {
    if WRAP % max == 0 {
      forall i: nat ensures NextSlot(max, max + i) == NextSlot(max, i) {
        WrapInvisible(max, i);
        WrapInvisible(max, max + i);
        AddPeriod(max, i);
      }
    } else {
      FirstWrongSlot(max);
    }
  }

  /** The first message after the index wraps is looked for in slot 0. */
  lemma FirstWrongSlot(max: nat)
    requires 0 < max < 0x1_0000_0000 && 0x1_0000_0000 % max != 0
    ensures var i := 0x1_0000_0000 - max; NextSlot(max, max + i) == 0 && NextSlot(max, i) == 0x1_0000_0000 % max
  {
    var i := WRAP - max;
    assert (max + i) % WRAP == 0;
    RemainderUnique(max, 0, 0, 0);
    assert i % WRAP == i;
    AddPeriod(max, i);
  }
}
