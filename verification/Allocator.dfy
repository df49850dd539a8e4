/** The registered-buffer allocator: first fit over a free list, a map of live
    blocks, and two-sided coalescing. `Heap` is the value the class
    `BaseMemory` of Memory.dfy keeps in its fields. */
module Allocator {
  import opened Options

  /** One entry of the free list or of the map of live blocks. */
  datatype Block = Block(size: nat, free: bool, offset: nat) {
    function End(): nat { offset + size }

    predicate Has(x: int) { offset <= x < End() }
  }

  /** The state of the allocator: buffer size, free list, live blocks by offset. */
  datatype Heap = Heap(memSize: nat, free: seq<Block>, used: map<nat, Block>)

  /** Blocks in increasing order, none empty, none touching the next. */
  ghost predicate Canonical(l: seq<Block>, memSize: nat) {
    && (forall i :: 0 <= i < |l| ==> l[i].free && l[i].size > 0 && l[i].End() <= memSize)
    && (forall i, j :: 0 <= i < j < |l| ==> l[i].End() < l[j].offset)
  }

  ghost predicate Covers(l: seq<Block>, x: int) {
    exists i :: 0 <= i < |l| && l[i].Has(x)
  }

  ghost predicate Live(used: map<nat, Block>, x: int) {
    exists o :: o in used && used[o].Has(x)
  }

  ghost predicate UsedOk(used: map<nat, Block>, memSize: nat) {
    && (forall o :: o in used ==> used[o].offset == o && !used[o].free && used[o].size > 0 && used[o].End() <= memSize)
    && (forall o, p :: o in used && p in used && o < p ==> used[o].End() <= p)
  }

  /** The free list is canonical, live blocks are disjoint, and together they
      split the bytes of the buffer. */
  ghost predicate Valid(h: Heap) {
    && h.memSize > 0
    && Canonical(h.free, h.memSize)
    && UsedOk(h.used, h.memSize)
    && (forall x :: 0 <= x < h.memSize ==> (Covers(h.free, x) <==> !Live(h.used, x)))
  }

  /** `size` contiguous bytes starting at `x` are inside the buffer and owned by no live block. */
  ghost predicate FitsAt(used: map<nat, Block>, memSize: nat, x: int, size: nat) {
    && 0 <= x
    && x + size <= memSize
    && (forall y :: x <= y < x + size ==> !Live(used, y))
  }

  ghost predicate FirstFit(h: Heap, size: nat, x: int) {
    && FitsAt(h.used, h.memSize, x, size)
    && (forall y :: 0 <= y < x ==> !FitsAt(h.used, h.memSize, y, size))
  }

  /** The answer of an allocation: the lowest fitting offset, or nothing when no offset fits. */
  ghost predicate Answer(h: Heap, size: nat, r: Option<nat>) {
    match r
    case None => forall x :: !FitsAt(h.used, h.memSize, x, size)
    case Some(o) => FirstFit(h, size, o)
  }

  // ---- allocation and release, told by the live blocks only ----

  /** What one allocation does: it fails and changes nothing, or it takes the
      lowest run of `size` unowned bytes. */
  ghost predicate Allocates(h: Heap, size: nat, r: Option<nat>, h': Heap) {
    && Valid(h')
    && h'.memSize == h.memSize
    && Answer(h, size, r)
    && match r {
         case None => h' == h
         case Some(o) => h'.used == h.used[o := Block(size, false, o)]
       }
  }

  /** What one release does: the block leaves the map of live blocks. */
  ghost predicate Releases(h: Heap, offset: nat, h': Heap) {
    && offset in h.used
    && Valid(h')
    && h'.memSize == h.memSize
    && h'.used == h.used - {offset}
  }

  // ---- canonical form ----

  lemma CoversTail(l: seq<Block>, x: int)
    requires l != []
    ensures Covers(l, x) <==> l[0].Has(x) || Covers(l[1..], x)
  {
    if Covers(l, x) && !l[0].Has(x) {
      var i :| 0 <= i < |l| && l[i].Has(x);
      assert l[1..][i - 1].Has(x);
    }
    if Covers(l[1..], x) {
      var i :| 0 <= i < |l[1..]| && l[1..][i].Has(x);
      assert l[i + 1].Has(x);
    }
  }

  /** A canonical list is determined by the bytes it covers. */
  lemma {:induction false} CanonicalUnique(l: seq<Block>, m: seq<Block>, memSize: nat)
    requires Canonical(l, memSize) && Canonical(m, memSize)
    requires forall x :: Covers(l, x) <==> Covers(m, x)
    ensures l == m
  {
    StartsCovered(l, memSize);
    StartsCovered(m, memSize);
    if l != [] && m != [] {
      FirstBlock(l, m, memSize);
      FirstBlock(m, l, memSize);
      assert l[0] == m[0];
      forall x ensures Covers(l[1..], x) <==> Covers(m[1..], x) {
        CoversTail(l, x);
        CoversTail(m, x);
        TailMisses(l, memSize, x);
        TailMisses(m, memSize, x);
      }
      CanonicalUnique(l[1..], m[1..], memSize);
      assert l == [l[0]] + l[1..] && m == [m[0]] + m[1..];
    }
  }

  lemma StartsCovered(l: seq<Block>, memSize: nat)
    requires Canonical(l, memSize)
    ensures l != [] ==> Covers(l, l[0].offset)
  {
    if l != [] {
      assert l[0].Has(l[0].offset);
    }
  }

  lemma TailMisses(l: seq<Block>, memSize: nat, x: int)
    requires Canonical(l, memSize) && l != []
    ensures Covers(l[1..], x) ==> l[0].End() < x
  {
    if Covers(l[1..], x) {
      var i :| 0 <= i < |l[1..]| && l[1..][i].Has(x);
      assert l[0].End() < l[i + 1].offset;
    }
  }

  /** The first block of `l` starts no earlier and ends no earlier than that of `m`. */
  lemma FirstBlock(l: seq<Block>, m: seq<Block>, memSize: nat)
    requires Canonical(l, memSize) && Canonical(m, memSize) && l != [] && m != []
    requires forall x :: Covers(l, x) <==> Covers(m, x)
    ensures l[0].offset <= m[0].offset
    ensures l[0].offset == m[0].offset ==> l[0].End() <= m[0].End()
  {
    StartsCovered(m, memSize);
    assert Covers(l, m[0].offset);
    CoveredFromFirst(l, memSize, m[0].offset);
    var e := m[0].End();
    assert l[0].Has(e) ==> Covers(l, e);
    EndUncovered(m, memSize, 0);
  }

  lemma CoveredFromFirst(l: seq<Block>, memSize: nat, x: int)
    requires Canonical(l, memSize) && Covers(l, x)
    ensures l != [] && l[0].offset <= x
  {
  }

  /** The byte after a block of a canonical list is not covered. */
  lemma EndUncovered(l: seq<Block>, memSize: nat, i: nat)
    requires Canonical(l, memSize) && i < |l|
    ensures !Covers(l, l[i].End())
  {
    forall j | 0 <= j < |l| ensures !l[j].Has(l[i].End()) {
      if j < i {
        assert l[j].End() < l[i].offset;
      }
    }
  }

  /** The free list is a function of the live blocks. */
  lemma FreeListDetermined(h: Heap, k: Heap)
    requires Valid(h) && Valid(k) && h.memSize == k.memSize && h.used == k.used
    ensures h.free == k.free
  {
    forall x ensures Covers(h.free, x) <==> Covers(k.free, x) {
      if 0 <= x < h.memSize {
      } else {
        CoversOnlyBuffer(h, x);
        CoversOnlyBuffer(k, x);
      }
    }
    CanonicalUnique(h.free, k.free, h.memSize);
  }

  lemma CoversOnlyBuffer(h: Heap, x: int)
    requires Valid(h)
    ensures Covers(h.free, x) ==> 0 <= x < h.memSize
  {
  }

  /** Taking `size` bytes at `o` makes exactly those live. */
  lemma LiveAfterTake(h: Heap, o: nat, size: nat)
    requires o !in h.used
    ensures var used' := h.used[o := Block(size, false, o)];
            forall x :: Live(used', x) <==> Live(h.used, x) || o <= x < o + size
  {
    var used' := h.used[o := Block(size, false, o)];
    forall x ensures Live(used', x) <==> Live(h.used, x) || o <= x < o + size {
      if Live(h.used, x) {
        var p :| p in h.used && h.used[p].Has(x);
        assert used'[p].Has(x);
      }
      if o <= x < o + size {
        assert used'[o].Has(x);
      }
    }
  }

  /** Releasing what was just allocated restores the identical heap. */
  lemma AllocThenFree(h: Heap, size: nat, o: nat, h': Heap, h'': Heap)
    requires Valid(h) && size > 0
    requires Allocates(h, size, Some(o), h')
    requires Releases(h', o, h'')
    ensures h'' == h
  {
    assert o !in h.used by {
      if o in h.used {
        assert h.used[o].Has(o);
        assert Live(h.used, o);
      }
    }
    assert h''.used == h.used;
    FreeListDetermined(h, h'');
  }

  lemma MinusCommutes(used: map<nat, Block>, a: nat, b: nat)
    ensures used - {a} - {b} == used - {b} - {a}
  {
  }

  /** Two releases commute. */
  lemma ReleasesCommute(h: Heap, a: nat, b: nat, ha: Heap, hab: Heap, hb: Heap, hba: Heap)
    requires Valid(h)
    requires Releases(h, a, ha) && Releases(ha, b, hab)
    requires Releases(h, b, hb) && Releases(hb, a, hba)
    ensures hab == hba
  {
    assert hab.used == h.used - {a} - {b};
    assert hba.used == h.used - {b} - {a};
    MinusCommutes(h.used, a, b);
    FreeListDetermined(hab, hba);
  }

  /** With nothing live the free list is the single block the constructor made. */
  lemma NothingLive(h: Heap)
    requires Valid(h) && h.used == map[]
    ensures h.free == [Block(h.memSize, true, 0)]
  {
    var initial := Heap(h.memSize, [Block(h.memSize, true, 0)], map[]);
    FreshIsValid(h.memSize);
    FreeListDetermined(h, initial);
  }

  lemma FreshIsValid(memSize: nat)
    requires memSize > 0
    ensures Valid(Heap(memSize, [Block(memSize, true, 0)], map[]))
  {
    var l := [Block(memSize, true, 0)];
    forall x | 0 <= x < memSize ensures Covers(l, x) {
      assert l[0].Has(x);
    }
  }

  /** A script of allocations and releases. */
  datatype Op = Alloc(size: nat) | Free(offset: nat)

  ghost predicate Does(h: Heap, op: Op, h': Heap) {
    match op
    case Alloc(size) => size > 0 && exists r: Option<nat> :: Allocates(h, size, r, h')
    case Free(offset) => Releases(h, offset, h')
  }

  ghost predicate IsRun(hs: seq<Heap>, ops: seq<Op>) {
    && |hs| == |ops| + 1
    && Valid(hs[0])
    && forall i :: 0 <= i < |ops| ==> Does(hs[i], ops[i], hs[i + 1])
  }

  lemma FirstFitUnique(h: Heap, size: nat, r: Option<nat>, q: Option<nat>)
    requires Answer(h, size, r) && Answer(h, size, q)
    ensures r == q
  {
    if r.Some? && q.Some? {
      assert FitsAt(h.used, h.memSize, r.value, size) && FitsAt(h.used, h.memSize, q.value, size);
    }
  }

  /** First fit leaves no choice: a step has one outcome. */
  lemma StepDetermined(h: Heap, op: Op, k: Heap, m: Heap)
    requires Valid(h) && Does(h, op, k) && Does(h, op, m)
    ensures k == m
  {
    match op {
      case Alloc(size) =>
        var r: Option<nat> :| Allocates(h, size, r, k);
        var q: Option<nat> :| Allocates(h, size, q, m);
        FirstFitUnique(h, size, r, q);
        if r.Some? {
          FreeListDetermined(k, m);
        }
      case Free(offset) =>
        FreeListDetermined(k, m);
    }
  }

  /** Every run of a script from one heap ends in one heap, which is valid. */
  lemma {:induction false} RunDetermined(hs: seq<Heap>, ks: seq<Heap>, ops: seq<Op>)
    requires IsRun(hs, ops) && IsRun(ks, ops) && hs[0] == ks[0]
    ensures hs == ks && Valid(hs[|ops|])
  {
    if ops == [] {
      assert hs == [hs[0]] && ks == [ks[0]];
    } else {
      var n := |ops| - 1;
      RunDetermined(hs[..n + 1], ks[..n + 1], ops[..n]);
      assert hs[..n + 1][n] == hs[n] && ks[..n + 1][n] == ks[n];
      assert Does(hs[n], ops[n], hs[n + 1]) && Does(ks[n], ops[n], ks[n + 1]);
      StepDetermined(hs[n], ops[n], hs[n + 1], ks[n + 1]);
      assert hs == hs[..n + 1] + [hs[n + 1]] && ks == ks[..n + 1] + [ks[n + 1]];
    }
  }

  // ---- first fit over the list is first fit over the bytes ----

  /** A run of unowned bytes lies inside one block of the free list. */
  lemma RunInOneBlock(h: Heap, x: int, size: nat) returns (i: nat)
    requires Valid(h) && size > 0 && FitsAt(h.used, h.memSize, x, size)
    ensures i < |h.free| && h.free[i].offset <= x && x + size <= h.free[i].End()
  {
    assert !Live(h.used, x);
    assert Covers(h.free, x);
    i :| 0 <= i < |h.free| && h.free[i].Has(x);
    var e := h.free[i].End();
    EndUncovered(h.free, h.memSize, i);
    assert e < h.memSize ==> Live(h.used, e);
  }

  lemma BlockFits(h: Heap, i: nat, size: nat)
    requires Valid(h) && i < |h.free| && h.free[i].size >= size
    ensures FitsAt(h.used, h.memSize, h.free[i].offset, size)
  {
    var o := h.free[i].offset;
    forall y | o <= y < o + size ensures !Live(h.used, y) {
      assert h.free[i].Has(y);
      assert Covers(h.free, y);
    }
  }

  /** The first block that is large enough starts at the lowest fitting offset. */
  lemma FirstBlockIsFirstFit(h: Heap, i: nat, size: nat)
    requires Valid(h) && size > 0 && i < |h.free| && h.free[i].size >= size
    requires forall k :: 0 <= k < i ==> h.free[k].size < size
    ensures FirstFit(h, size, h.free[i].offset)
  {
    BlockFits(h, i, size);
    forall y | 0 <= y < h.free[i].offset ensures !FitsAt(h.used, h.memSize, y, size) {
      if FitsAt(h.used, h.memSize, y, size) {
        var k := RunInOneBlock(h, y, size);
      }
    }
  }

  /** No block is large enough exactly when no run of bytes is. */
  lemma NoBlockNoFit(h: Heap, size: nat)
    requires Valid(h) && size > 0
    ensures (forall k :: 0 <= k < |h.free| ==> h.free[k].size < size)
       <==> (forall x :: !FitsAt(h.used, h.memSize, x, size))
  {
    if forall k :: 0 <= k < |h.free| ==> h.free[k].size < size {
      forall x ensures !FitsAt(h.used, h.memSize, x, size) {
        if FitsAt(h.used, h.memSize, x, size) {
          var k := RunInOneBlock(h, x, size);
        }
      }
    } else {
      var k :| 0 <= k < |h.free| && h.free[k].size >= size;
      BlockFits(h, k, size);
    }
  }

  // ---- list surgery keeps coverage ----

  lemma CoversConcat(a: seq<Block>, b: seq<Block>, x: int)
    ensures Covers(a + b, x) <==> Covers(a, x) || Covers(b, x)
  {
    if Covers(a, x) {
      var i :| 0 <= i < |a| && a[i].Has(x);
      assert (a + b)[i].Has(x);
    }
    if Covers(b, x) {
      var i :| 0 <= i < |b| && b[i].Has(x);
      assert (a + b)[|a| + i].Has(x);
    }
    if Covers(a + b, x) {
      var i :| 0 <= i < |a + b| && (a + b)[i].Has(x);
      if i < |a| {
        assert a[i].Has(x);
      } else {
        assert b[i - |a|].Has(x);
      }
    }
  }

  /** Replacing the blocks `mid` between `pre` and `post`. */
  lemma CoversSplice(pre: seq<Block>, mid: seq<Block>, post: seq<Block>, x: int)
    ensures Covers(pre + mid + post, x) <==> Covers(pre, x) || Covers(mid, x) || Covers(post, x)
  {
    CoversConcat(pre, mid, x);
    CoversConcat(pre + mid, post, x);
  }

  lemma CoversOne(b: Block, x: int)
    ensures Covers([b], x) <==> b.Has(x)
  {
    if b.Has(x) {
      assert [b][0].Has(x);
    }
  }

  lemma CoversTwo(b: Block, c: Block, x: int)
    ensures Covers([b, c], x) <==> b.Has(x) || c.Has(x)
  {
    CoversOne(b, x);
    CoversOne(c, x);
    CoversConcat([b], [c], x);
    assert [b] + [c] == [b, c];
  }

  // ---- the insertion guard of free ----

  function SumSizes(l: seq<Block>): nat {
    if l == [] then 0 else SumSizes(l[..|l| - 1]) + l[|l| - 1].size
  }

  /** The bytes of a canonical prefix fit below the end of its last block, so the
      running sum that `free` compares with never exceeds a live offset above it. */
  lemma {:induction false} SumBelowEnd(l: seq<Block>, memSize: nat)
    requires Canonical(l, memSize)
    ensures l != [] ==> SumSizes(l) <= l[|l| - 1].End()
    ensures l == [] ==> SumSizes(l) == 0
  {
    if |l| > 1 {
      var k := l[..|l| - 1];
      SumBelowEnd(k, memSize);
      assert k[|k| - 1] == l[|l| - 2];
    }
  }
}
