/** Consequences of the canonical form: fragmentation, conservation of bytes,
    alignment and the layout of buffers that only grow. */
module HeapTheorems {
  import opened Allocator
  import opened Options
  import opened Arithmetic
  import opened Sets

  // ---- fragmentation ----

  /** The live block that starts right behind free block `i`. */
  ghost function Behind(h: Heap, i: nat): (o: nat)
    requires Valid(h) && i + 1 < |h.free|
    ensures o in h.used && h.used[o].Has(h.free[i].End())
  {
    EndUncovered(h.free, h.memSize, i);
    assert h.free[i].End() < h.free[i + 1].offset;
    assert Live(h.used, h.free[i].End());
    var o :| o in h.used && h.used[o].Has(h.free[i].End());
    o
  }

  lemma BehindIncreases(h: Heap, i: nat, j: nat)
    requires Valid(h) && i < j && j + 1 < |h.free|
    ensures Behind(h, i) < Behind(h, j)
  {
    var o, p := Behind(h, i), Behind(h, j);
    var x := h.free[j].offset;
    assert h.free[j].Has(x);
    assert Covers(h.free, x);
    assert !h.used[o].Has(x);
    assert h.free[i].End() < x;
  }

  lemma BehindNext(h: Heap, n: nat)
    requires Valid(h) && 0 < n < |h.free|
    ensures n > 1 ==> Behind(h, n - 2) < Behind(h, n - 1)
  {
    if n > 1 {
      BehindIncreases(h, n - 2, n - 1);
    }
  }

  ghost function BehindSet(h: Heap, n: nat): (s: set<nat>)
    requires Valid(h) && n < |h.free|
    ensures s <= h.used.Keys
    ensures n > 0 ==> Behind(h, n - 1) in s && forall o :: o in s ==> o <= Behind(h, n - 1)
    ensures n == 0 ==> s == {}
    ensures |s| == n
  {
    if n == 0 then {} else BehindNext(h, n); BehindSet(h, n - 1) + {Behind(h, n - 1)}
  }

  /** There is at most one free block more than there are live blocks. */
  lemma Fragmentation(h: Heap)
    requires Valid(h)
    ensures |h.free| <= |h.used| + 1
  {
    if h.free != [] {
      SubsetSize(BehindSet(h, |h.free| - 1), h.used.Keys);
    }
  }

  // ---- conservation ----

  ghost function LiveBytes(h: Heap): set<int> {
    set x | 0 <= x < h.memSize && Live(h.used, x)
  }

  ghost function CoveredBytes(l: seq<Block>, memSize: nat): set<int> {
    set x | 0 <= x < memSize && Covers(l, x)
  }

  ghost function Interval(lo: int, hi: int): (s: set<int>)
    requires lo <= hi
    ensures |s| == hi - lo
    ensures forall x :: x in s <==> lo <= x < hi
    decreases hi - lo
  {
    if lo == hi then {} else Interval(lo, hi - 1) + {hi - 1}
  }

  /** The sizes in the free list add up to the number of bytes it covers. */
  lemma {:induction false} SumIsCovered(l: seq<Block>, memSize: nat)
    requires Canonical(l, memSize)
    ensures |CoveredBytes(l, memSize)| == SumSizes(l)
  {
    if l == [] {
      assert CoveredBytes(l, memSize) == {};
    } else {
      var n := |l| - 1;
      var k := l[..n];
      SumIsCovered(k, memSize);
      var last := Interval(l[n].offset, l[n].End());
      var before := CoveredBytes(k, memSize);
      LastSplits(l, memSize, last);
      assert CoveredBytes(l, memSize) == before + last && before !! last;
    }
  }

  lemma LastSplits(l: seq<Block>, memSize: nat, last: set<int>)
    requires Canonical(l, memSize) && l != []
    requires forall x :: x in last <==> l[|l| - 1].offset <= x < l[|l| - 1].End()
    ensures CoveredBytes(l, memSize) == CoveredBytes(l[..|l| - 1], memSize) + last
    ensures CoveredBytes(l[..|l| - 1], memSize) !! last
  {
    var n := |l| - 1;
    var k := l[..n];
    assert k + [l[n]] == l;
    forall x ensures Covers(l, x) <==> Covers(k, x) || l[n].Has(x) {
      CoversConcat(k, [l[n]], x);
      CoversOne(l[n], x);
    }
    forall x | Covers(k, x) ensures x < l[n].offset {
      var i :| 0 <= i < |k| && k[i].Has(x);
      assert l[i].End() < l[n].offset;
    }
  }

  /** Free sizes and live bytes always add up to the buffer. */
  lemma BytesConserved(h: Heap)
    requires Valid(h)
    ensures SumSizes(h.free) + |LiveBytes(h)| == h.memSize
  {
    SumIsCovered(h.free, h.memSize);
    var all := Interval(0, h.memSize);
    var covered := CoveredBytes(h.free, h.memSize);
    assert all == covered + LiveBytes(h);
    assert covered !! LiveBytes(h);
  }

  // ---- alignment ----

  /** Every offset handed out is 0 or the end of a live block. */
  lemma FitsBehindLive(h: Heap, size: nat, x: nat)
    requires Valid(h) && size > 0 && FirstFit(h, size, x)
    ensures x == 0 || exists o :: o in h.used && h.used[o].End() == x
  {
    if x > 0 {
      assert !FitsAt(h.used, h.memSize, x - 1, size);
      assert Live(h.used, x - 1);
      var o :| o in h.used && h.used[o].Has(x - 1);
      assert !Live(h.used, x);
      assert !h.used[o].Has(x);
    }
  }

  ghost predicate Aligned(h: Heap, g: nat)
    requires g > 0
  {
    forall o :: o in h.used ==> h.used[o].offset % g == 0 && h.used[o].size % g == 0
  }

  lemma AddMultiples(a: nat, b: nat, g: nat)
    requires g > 0 && a % g == 0 && b % g == 0
    ensures (a + b) % g == 0
  {
    AddMultiple(g, b, a);
  }

  lemma FitOffsetAligned(h: Heap, x: nat, g: nat)
    requires g > 0 && Aligned(h, g)
    requires x > 0 ==> exists o :: o in h.used && h.used[o].End() == x
    ensures x % g == 0
  {
    if x > 0 {
      var o :| o in h.used && h.used[o].End() == x;
      AddMultiples(h.used[o].offset, h.used[o].size, g);
    } else {
      RemainderUnique(g, 0, 0, 0);
    }
  }

  lemma AlignedStep(h: Heap, op: Op, h': Heap, g: nat)
    requires Valid(h) && Does(h, op, h') && g > 0 && Aligned(h, g)
    requires op.Alloc? ==> op.size % g == 0
    ensures Aligned(h', g)
  {
    if op.Alloc? {
      var r: Option<nat> :| Allocates(h, op.size, r, h');
      if r.Some? {
        FitsBehindLive(h, op.size, r.value);
        hide Valid;
        FitOffsetAligned(h, r.value, g);
      }
    }
  }

  /** When every request is a multiple of `g`, so is every offset, over any history. */
  lemma {:induction false} AlignedRun(hs: seq<Heap>, ops: seq<Op>, g: nat, n: nat)
    requires IsRun(hs, ops) && g > 0 && n <= |ops| && Aligned(hs[0], g)
    requires forall i :: 0 <= i < |ops| ==> ops[i].Alloc? ==> ops[i].size % g == 0
    ensures Aligned(hs[n], g) && Valid(hs[n])
  {
    if n > 0 {
      AlignedRun(hs, ops, g, n - 1);
      assert Does(hs[n - 1], ops[n - 1], hs[n]);
      AlignedStep(hs[n - 1], ops[n - 1], hs[n], g);
    }
  }

  // ---- layout of a buffer that only grows ----

  /** The live bytes are exactly those below `top`. */
  ghost predicate Packed(h: Heap, top: nat) {
    forall x :: 0 <= x < h.memSize ==> (Live(h.used, x) <==> x < top)
  }

  lemma PackedAlloc(h: Heap, size: nat, r: Option<nat>, h': Heap, top: nat)
    requires Valid(h) && size > 0 && Packed(h, top) && top + size <= h.memSize
    requires Allocates(h, size, r, h')
    ensures r == Some(top) && Packed(h', top + size)
  {
    assert FitsAt(h.used, h.memSize, top, size);
    forall y | 0 <= y < top ensures !FitsAt(h.used, h.memSize, y, size) {
      assert Live(h.used, y);
    }
    assert FirstFit(h, size, top);
    FirstFitUnique(h, size, r, Some(top));
    assert top !in h.used by {
      assert !Live(h.used, top);
      assert top in h.used ==> h.used[top].Has(top);
    }
    LiveAfterTake(h, top, size);
  }

  /** On a fresh buffer the k-th of equal requests lands at k*size. */
  lemma {:induction false} EqualRequestsTile(hs: seq<Heap>, ops: seq<Op>, size: nat, k: nat)
    requires IsRun(hs, ops) && size > 0 && hs[0].used == map[]
    requires forall i :: 0 <= i < |ops| ==> ops[i] == Alloc(size)
    requires |ops| * size <= hs[0].memSize && k <= |ops|
    ensures Packed(hs[k], k * size) && hs[k].memSize == hs[0].memSize && Valid(hs[k])
    ensures k > 0 ==> (k - 1) * size in hs[k].used && (k - 1) * size !in hs[k - 1].used
  {
    if k > 0 {
      EqualRequestsTile(hs, ops, size, k - 1);
      assert Does(hs[k - 1], ops[k - 1], hs[k]);
      var r: Option<nat> :| Allocates(hs[k - 1], size, r, hs[k]);
      Fits(k, |ops|, size, hs[0].memSize);
      PackedAlloc(hs[k - 1], size, r, hs[k], (k - 1) * size);
      assert !Live(hs[k - 1].used, (k - 1) * size);
      assert (k - 1) * size in hs[k - 1].used ==> hs[k - 1].used[(k - 1) * size].Has((k - 1) * size);
    }
  }

  lemma Fits(k: nat, n: nat, size: nat, memSize: nat)
    requires 0 < k <= n && n * size <= memSize
    ensures 0 <= (k - 1) * size && (k - 1) * size + size == k * size && k * size <= memSize
  {
    assert (n - k) * size >= 0;
  }

  /** The server side of a bandwidth run: `threads` local blocks of `size` bytes,
      then as many remote ones. Adding `threads * size` to the start of a
      thread's local block names the start of the remote block of the same index. */
  lemma ReceiveBaseIsRemoteBlock(hs: seq<Heap>, ops: seq<Op>, size: nat, threads: nat, i: nat)
    requires IsRun(hs, ops) && size > 0 && hs[0].used == map[]
    requires |ops| == 2 * threads && forall j :: 0 <= j < |ops| ==> ops[j] == Alloc(size)
    requires |ops| * size <= hs[0].memSize && i < threads
    ensures i * size in hs[i + 1].used && i * size !in hs[i].used
    ensures var remote := i * size + threads * size;
            remote in hs[threads + i + 1].used && remote !in hs[threads + i].used
  {
    EqualRequestsTile(hs, ops, size, i + 1);
    EqualRequestsTile(hs, ops, size, threads + i + 1);
    assert (threads + i) * size == i * size + threads * size;
  }
}
