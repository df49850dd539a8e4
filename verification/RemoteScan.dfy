/** The prefetching scan of a remote table: reads run ahead of the sum through a
    ring of local pages, and the adapter may write the page of a read that is
    under way at any time before its completion is polled. */
module RemoteScan {
  import opened Arithmetic

  const SIZE := 0x1_0000_0000_0000_0000

  type Page = seq<nat>

  function SumTuples(page: Page): nat {
    if page == [] then 0 else SumTuples(page[..|page| - 1]) + page[|page| - 1]
  }

  /** The sequential scan: every page of the range once, in order. */
  function SumPages(remote: seq<Page>, lo: nat, hi: nat): nat
    requires lo <= hi <= |remote|
    decreases hi - lo
  {
    if lo == hi then 0 else SumPages(remote, lo, hi - 1) + SumTuples(remote[hi - 1])
  }

  // ---- what the sums are ----

  lemma {:induction false} SumOfParts(a: Page, b: Page)
    ensures SumTuples(a + b) == SumTuples(a) + SumTuples(b)
  {
    if b == [] {
      assert a + b == a;
    } else {
      var n := |b| - 1;
      SumOfParts(a, b[..n]);
      assert (a + b)[..|a + b| - 1] == a + b[..n];
    }
  }

  lemma SumOfOne(x: nat)
    ensures SumTuples([]) == 0 && SumTuples([x]) == x
  {
  }

  /** Every tuple counts with its value: changing one by `d` changes the sum by `d`. */
  lemma SumOfChange(page: Page, i: nat, x: nat)
    requires i < |page|
    ensures SumTuples(page[i := x]) == SumTuples(page) - page[i] + x
  {
    var a, b := page[..i], page[i + 1..];
    assert page == a + [page[i]] + b && page[i := x] == a + [x] + b;
    SumOfParts(a + [page[i]], b);
    SumOfParts(a, [page[i]]);
    SumOfParts(a + [x], b);
    SumOfParts(a, [x]);
  }

  /** The tuples of consecutive pages in one row. */
  function Tuples(pages: seq<Page>): Page {
    if pages == [] then [] else pages[0] + Tuples(pages[1..])
  }

  lemma {:induction false} TuplesAppend(pages: seq<Page>, p: Page)
    ensures Tuples(pages + [p]) == Tuples(pages) + p
  {
    if pages == [] {
      assert [p][0] == p && [p][1..] == [];
    } else {
      TuplesAppend(pages[1..], p);
      assert (pages + [p])[1..] == pages[1..] + [p];
    }
  }

  /** The scan of a range sums up all tuples of its pages. */
  lemma {:induction false} SumOfRange(remote: seq<Page>, lo: nat, hi: nat)
    requires lo <= hi <= |remote|
    ensures SumPages(remote, lo, hi) == SumTuples(Tuples(remote[lo..hi]))
    decreases hi - lo
  {
    if lo < hi {
      SumOfRange(remote, lo, hi - 1);
      assert remote[lo..hi] == remote[lo..hi - 1] + [remote[hi - 1]];
      TuplesAppend(remote[lo..hi - 1], remote[hi - 1]);
      SumOfParts(Tuples(remote[lo..hi - 1]), remote[hi - 1]);
    }
  }

  lemma WrapAdd(a: nat, b: nat)
    ensures (a % SIZE + b) % SIZE == (a + b) % SIZE
  {
  }

  lemma AddTuple(total: nat, page: Page, i: nat)
    requires i < |page|
    ensures ((total + SumTuples(page[..i])) % SIZE + page[i]) % SIZE == (total + SumTuples(page[..i + 1])) % SIZE
  {
    assert page[..i + 1][..i] == page[..i];
    WrapAdd(total + SumTuples(page[..i]), page[i]);
  }

  lemma SumNext(remote: seq<Page>, lo: nat, i: nat)
    requires lo <= i < |remote|
    ensures (SumPages(remote, lo, i) % SIZE + SumTuples(remote[i])) % SIZE == SumPages(remote, lo, i + 1) % SIZE
  {
    WrapAdd(SumPages(remote, lo, i), SumTuples(remote[i]));
  }

  class RemoteScanThread {
    const remote: seq<Page>
    const tuplesPerPage: nat
    const prefetchCount: nat
    const startIdx: nat
    const endIdx: nat
    var readIdx: nat
    var remReadIdx: nat
    var writeIdx: nat
    var data: seq<Page>               // the ring of local pages
    var underway: seq<(nat, nat)>     // reads under way, oldest first: ring slot and remote page

    function RingSlot(i: nat): nat
      requires prefetchCount > 0
    {
      i % prefetchCount
    }

    /** The reads under way are those of the pages `first .. writeIdx`, each into its ring slot. */
    ghost predicate Window(first: nat)
      reads this`writeIdx, this`remReadIdx, this`data, this`underway
    {
      && prefetchCount > 0 && |data| == prefetchCount
      && startIdx <= first <= writeIdx <= endIdx <= |remote|
      && writeIdx - first <= prefetchCount && remReadIdx == writeIdx
      && |underway| == writeIdx - first
      && (forall k :: 0 <= k < |underway| ==> underway[k] == (RingSlot(first + k), first + k))
      && forall p :: 0 <= p < |remote| ==> |remote[p]| == tuplesPerPage
    }

    ghost predicate Valid()
      reads this
    {
      startIdx <= readIdx && Window(readIdx)
    }

    constructor (remote: seq<Page>, tuplesPerPage: nat, totalPages: nat, numThreads: nat, threadId: nat,
                 data: seq<Page>)
      requires |data| > 0 && threadId < numThreads && totalPages <= |remote|
      requires forall p :: 0 <= p < |remote| ==> |remote[p]| == tuplesPerPage
      ensures Valid() && readIdx == writeIdx == startIdx == StartIdx(totalPages, numThreads, threadId)
      ensures endIdx == StartIdx(totalPages, numThreads, threadId + 1)
      ensures this.remote == remote && prefetchCount == |data|
    {
      var pagesPerThread := totalPages / numThreads;
      RangeInTable(totalPages, numThreads, threadId);
      this.remote, this.tuplesPerPage, this.prefetchCount := remote, tuplesPerPage, |data|;
      startIdx, endIdx := pagesPerThread * threadId, pagesPerThread * threadId + pagesPerThread;
      readIdx, remReadIdx := pagesPerThread * threadId, pagesPerThread * threadId;
      writeIdx := pagesPerThread * threadId;
      this.data := data;
      underway := [];
    }

    ghost predicate UnderWay(slot: nat)
      reads this`underway
    {
      exists k :: 0 <= k < |underway| && underway[k].0 == slot
    }

    /** No two reads under way share a slot, and all slots are in the ring. */
    lemma SlotsDiffer(first: nat)
      requires Window(first)
      ensures forall k :: 0 <= k < |underway| ==> underway[k].0 < prefetchCount
      ensures forall j, k :: 0 <= j < k < |underway| ==> underway[j].0 != underway[k].0
    {
      forall j, k | 0 <= j < k < |underway| ensures underway[j].0 != underway[k].0 {
        Apart(prefetchCount, first + j, k - j);
      }
    }

    lemma WindowFacts(first: nat)
      requires Window(first)
      ensures 0 < prefetchCount == |data| && first <= endIdx <= |remote|
      ensures forall p :: 0 <= p < |remote| ==> |remote[p]| == tuplesPerPage
      ensures forall i: nat :: RingSlot(i) < |data|
    {
    }

    /** Fills the window as far as it goes: never more reads than slots, never two into one slot. */
    method Prefetch()
      requires Valid()
      modifies this`writeIdx, this`remReadIdx, this`underway
      ensures Valid() && writeIdx == if endIdx - readIdx < prefetchCount then endIdx else readIdx + prefetchCount
      ensures old(underway) <= underway && |underway| <= prefetchCount
      ensures forall j, k :: 0 <= j < k < |underway| ==> underway[j].0 != underway[k].0
    {
      while writeIdx - readIdx < prefetchCount && writeIdx < endIdx
        invariant Valid() && old(underway) <= underway
        decreases endIdx - writeIdx
      {
        RequestRead();
      }
      SlotsDiffer(readIdx);
    }

    /** Starts the next read of the window. */
    method RequestRead()
      requires Valid() && writeIdx - readIdx < prefetchCount && writeIdx < endIdx
      modifies this`writeIdx, this`remReadIdx, this`underway
      ensures Valid() && writeIdx == old(writeIdx) + 1
      ensures underway == old(underway) + [(old(writeIdx) % prefetchCount, old(writeIdx))]
    {
      underway := underway + [(RingSlot(writeIdx), remReadIdx)];
      writeIdx := writeIdx + 1;
      remReadIdx := remReadIdx + 1;
    }

    /** The adapter may write anything into the slots of reads under way, and into no others. */
    method AdapterWrites(ghost first: nat, noise: nat -> Page)
      requires Window(first)
      modifies this`data
      ensures Window(first)
      ensures forall s: nat :: s < prefetchCount && !UnderWay(s) ==> data[s] == old(data)[s]
      ensures forall k :: 0 <= k < |underway| ==>
                            underway[k].0 < |data| && data[underway[k].0] == noise(k)
    {
      SlotsDiffer(first);
      ghost var before := data;
      var i := 0;
      while i < |underway|
        invariant i <= |underway| && Window(first)
        invariant forall s: nat :: s < prefetchCount && !UnderWay(s) ==> data[s] == before[s]
        invariant forall k :: 0 <= k < i ==> underway[k].0 < |data| && data[underway[k].0] == noise(k)
      {
        SlotsDiffer(first);
        assert UnderWay(underway[i].0);
        data := data[underway[i].0 := noise(i)];
        i := i + 1;
      }
    }

    /** The oldest read completes: its slot holds its page, and no other read writes there. */
    method PollSend()
      requires Valid() && readIdx < writeIdx
      modifies this`underway, this`data
      ensures Window(readIdx + 1)
      ensures data[RingSlot(readIdx)] == remote[readIdx] && !UnderWay(RingSlot(readIdx))
    {
      SlotsDiffer(readIdx);
      var (slot, page) := underway[0];
      data := data[slot := remote[page]];
      underway := underway[1..];
      assert forall k :: 0 <= k < |underway| ==> underway[k] == old(underway)[k + 1];
    }

    /** Adds up the page at `readIdx`, while the adapter goes on writing. */
    method AddPage(total: nat, noise: (nat, nat) -> Page) returns (total': nat)
      requires total < 0x1_0000_0000_0000_0000 && startIdx <= readIdx && Window(readIdx + 1)
      requires data[RingSlot(readIdx)] == remote[readIdx] && !UnderWay(RingSlot(readIdx))
      modifies this`data
      ensures Window(readIdx + 1) && total' == (total + SumTuples(remote[readIdx])) % 0x1_0000_0000_0000_0000
    {
      hide Window, UnderWay, RingSlot, SumTuples;
      WindowFacts(readIdx + 1);
      SumOfOne(0);
      var slot := RingSlot(readIdx);
      ghost var page := remote[readIdx];
      total' := total;
      var i := 0;
      while i < tuplesPerPage
        invariant i <= tuplesPerPage && Window(readIdx + 1)
        invariant slot < |data| && data[slot] == page && !UnderWay(slot)
        invariant total' == (total + SumTuples(page[..i])) % SIZE
      {
        var step := i;
        AdapterWrites(readIdx + 1, k => noise(step, k));
        WindowFacts(readIdx + 1);
        AddTuple(total, page, i);
        total' := (total' + data[slot][i]) % SIZE;
        i := i + 1;
      }
      assert page[..i] == page;
    }

    /** The thread's loop. `noise` is anything the adapter may write, at any point. */
    method Run(noise: (nat, nat, nat) -> Page) returns (total: nat)
      requires Valid() && readIdx == writeIdx == startIdx
      modifies this
      ensures total == SumTuples(Tuples(remote[startIdx..endIdx])) % 0x1_0000_0000_0000_0000
      ensures Valid() && readIdx == endIdx
    {
      hide Window, UnderWay, RingSlot, SumTuples, Tuples;
      WindowFacts(readIdx);
      Prefetch();
      total := 0;
      while readIdx < endIdx
        invariant Valid() && startIdx <= readIdx <= endIdx <= |remote| && prefetchCount > 0
        invariant writeIdx == if endIdx - readIdx < prefetchCount then endIdx else readIdx + prefetchCount
        invariant total == SumPages(remote, startIdx, readIdx) % SIZE
        decreases endIdx - readIdx
      {
        var pass := readIdx;
        WindowFacts(readIdx);
        AdapterWrites(readIdx, k => noise(pass, 0, k));
        PollSend();
        WindowFacts(readIdx + 1);
        SumNext(remote, startIdx, readIdx);
        total := AddPage(total, (step, k) => noise(pass, step + 1, k));
        readIdx := readIdx + 1;
        Prefetch();
      }
      SumOfRange(remote, startIdx, endIdx);
    }
  }

  // ---- the ranges of the threads ----

  /** First page of thread `t`; the range ends where the next one starts. */
  function StartIdx(totalPages: nat, numThreads: nat, t: nat): nat
    requires numThreads > 0
  {
    totalPages / numThreads * t
  }

  lemma RangeInTable(totalPages: nat, numThreads: nat, t: nat)
    requires t < numThreads
    ensures StartIdx(totalPages, numThreads, t + 1) == StartIdx(totalPages, numThreads, t) + totalPages / numThreads
    ensures StartIdx(totalPages, numThreads, t + 1) <= totalPages
  {
    Scale(t + 1, numThreads, totalPages / numThreads);
  }

  ghost predicate InRange(totalPages: nat, numThreads: nat, t: nat, page: nat)
    requires numThreads > 0
  {
    StartIdx(totalPages, numThreads, t) <= page < StartIdx(totalPages, numThreads, t) + totalPages / numThreads
  }

  lemma RangesDisjoint(totalPages: nat, numThreads: nat, t: nat, u: nat, page: nat)
    requires numThreads > 0 && InRange(totalPages, numThreads, t, page) && InRange(totalPages, numThreads, u, page)
    ensures t == u
  {
    var n := totalPages / numThreads;
    assert n * (t + 1) == n * t + n && n * (u + 1) == n * u + n;
    Scale(t + 1, u, n);
    Scale(u + 1, t, n);
  }

  ghost predicate Scanned(totalPages: nat, numThreads: nat, page: nat)
    requires numThreads > 0
  {
    exists t: nat :: t < numThreads && InRange(totalPages, numThreads, t, page)
  }

  /** Pages below the rounded-down product are scanned, the others are not. */
  lemma ScannedPages(totalPages: nat, numThreads: nat, page: nat)
    requires numThreads > 0
    ensures Scanned(totalPages, numThreads, page) <==> page < totalPages / numThreads * numThreads
  {
    if Scanned(totalPages, numThreads, page) {
      var t: nat :| t < numThreads && InRange(totalPages, numThreads, t, page);
      InTable(totalPages / numThreads, numThreads, t, page);
    }
    if page < totalPages / numThreads * numThreads {
      Owner(totalPages, numThreads, page);
    }
  }

  lemma InTable(n: nat, numThreads: nat, t: nat, page: nat)
    requires t < numThreads && page < n * t + n
    ensures page < n * numThreads
  {
    Scale(t + 1, numThreads, n);
  }

  lemma Owner(totalPages: nat, numThreads: nat, page: nat)
    requires numThreads > 0 && page < totalPages / numThreads * numThreads
    ensures Scanned(totalPages, numThreads, page)
  {
    var n := totalPages / numThreads;
    var t := page / n;
    assert page == n * t + page % n;
    assert n * (t + 1) == n * t + n;
    Scale(numThreads, t, n);
    assert InRange(totalPages, numThreads, t, page);
  }

  /** The threads scan the whole table exactly when their number divides its pages. */
  lemma WholeTableIff(totalPages: nat, numThreads: nat)
    requires numThreads > 0
    ensures (forall page: nat :: page < totalPages ==> Scanned(totalPages, numThreads, page)) <==>
            totalPages % numThreads == 0
  {
    assert totalPages == totalPages / numThreads * numThreads + totalPages % numThreads;
    forall page: nat ensures Scanned(totalPages, numThreads, page) <==> page < totalPages / numThreads * numThreads {
      ScannedPages(totalPages, numThreads, page);
    }
    if totalPages % numThreads != 0 {
      assert !Scanned(totalPages, numThreads, totalPages / numThreads * numThreads);
    }
  }
}
