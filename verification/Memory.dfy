/** The allocator as the program runs it: a list changed in place through an
    iterator, here an index, and a map of live blocks. */
module Memory {
  import opened Allocator
  import opened Options

  class BaseMemory {
    const memSize: nat
    const buffer: nat           // address of the registered buffer
    var freeList: seq<Block>
    var used: map<nat, Block>

    ghost function State(): Heap
      reads this
    {
      Heap(memSize, freeList, used)
    }

    constructor (memSize: nat, buffer: nat)
      requires memSize > 0
      ensures this.memSize == memSize && this.buffer == buffer
      ensures Valid(State()) && used == map[]
    {
      this.memSize := memSize;
      this.buffer := buffer;
      freeList := [Block(memSize, true, 0)];
      used := map[];
      new;
      FreshIsValid(memSize);
    }

    /** First fit. A larger block is split and keeps its tail. */
    method InternalAlloc(size: nat) returns (r: Option<Block>)
      requires Valid(State()) && size > 0
      modifies this
      ensures Allocates(old(State()), size, if r.Some? then Some(r.value.offset) else None, State())
      ensures r.Some? ==> r.value == Block(size, false, r.value.offset)
    {
      ghost var h := State();
      var i := 0;
      while i < |freeList|
        invariant i <= |freeList| && State() == h
        invariant forall k :: 0 <= k < i ==> freeList[k].size < size
      {
        var memRes := freeList[i];
        if memRes.free && memRes.size >= size {
          FirstBlockIsFirstFit(h, i, size);
          var memResUsed := Block(size, false, memRes.offset);
          used := used[memRes.offset := memResUsed];
          if memRes.size > size {
            var memResFree := Block(memRes.size - size, true, memRes.offset + size);
            freeList := freeList[..i] + [memResFree] + freeList[i + 1..];
          } else {
            freeList := freeList[..i] + freeList[i + 1..];
          }
          TakeKeepsValid(h, i, size, State());
          return Some(memResUsed);
        }
        i := i + 1;
      }
      NoBlockNoFit(h, size);
      return None;
    }

    /** Address of a fresh allocation, or the exception of the original. */
    method Alloc(size: nat) returns (r: Option<nat>)
      requires Valid(State()) && size > 0
      modifies this
      ensures r.Some? ==> buffer <= r.value
      ensures r.Some? ==> Allocates(old(State()), size, Some(r.value - buffer), State())
      ensures r.None? ==> Allocates(old(State()), size, None, State())
    {
      var memRes := InternalAlloc(size);
      if memRes.Some? {
        return Some(buffer + memRes.value.offset);
      }
      return None;
    }

    method FreePointer(ptr: nat)
      requires Valid(State()) && buffer <= ptr && ptr - buffer in used
      modifies this
      ensures Releases(old(State()), ptr - buffer, State())
    {
      var offset := ptr - buffer;
      Free(offset);
    }

    /** The insertion point is the first block above `offset`; the guard also
        asks that the sizes passed so far do not exceed `offset`. The final throw
        of the original is the dead branch at the end. */
    method Free(offset: nat)
      requires Valid(State()) && offset in used
      modifies this
      ensures Releases(old(State()), offset, State())
    {
      ghost var h := State();
      var lastOffset := 0;
      var memResFree := used[offset];
      used := used - {offset};
      var i := 0;
      if i < |freeList| {
        while i < |freeList|
          invariant i <= |freeList| && freeList == h.free && used == h.used - {offset}
          invariant lastOffset == SumSizes(freeList[..i])
          invariant forall k :: 0 <= k < i ==> freeList[k].End() <= offset
        {
          var memRes := freeList[i];
          GuardSum(h, offset, i);
          if lastOffset <= offset && offset < memRes.offset {
            memResFree := memResFree.(free := true);
            InsertBefore(i, memResFree);
            InsertedIsLoose(h, offset, i, freeList);
            MergeRestoresCanonical(freeList, i, memSize);
            var j := MergeFreeMem(i);
            ReleaseKeepsValid(h, offset, i, freeList);
            return;
          }
          LiveAboveBlock(h, offset, i);
          assert freeList[..i + 1] == freeList[..i] + [memRes];
          lastOffset := lastOffset + memRes.size;
          i := i + 1;
        }
        GuardSum(h, offset, i);
        if lastOffset <= offset {
          memResFree := memResFree.(free := true);
          InsertBefore(i, memResFree);
          InsertedIsLoose(h, offset, i, freeList);
          MergeRestoresCanonical(freeList, i, memSize);
          var j := MergeFreeMem(i);
          ReleaseKeepsValid(h, offset, i, freeList);
          return;
        }
      } else {
        memResFree := memResFree.(free := true);
        InsertBefore(i, memResFree);
        InsertedIsLoose(h, offset, i, freeList);
        ReleaseKeepsValid(h, offset, i, freeList);
        return;
      }
      assert false;
    }

    method InsertBefore(i: nat, b: Block)
      requires i <= |freeList|
      modifies this`freeList
      ensures freeList == old(freeList)[..i] + [b] + old(freeList)[i..]
    {
      freeList := freeList[..i] + [b] + freeList[i..];
    }

    /** Merges the block at the iterator into its neighbours. Returns where the
        iterator is left. */
    method MergeFreeMem(iter: nat) returns (listIter: nat)
      requires iter < |freeList|
      modifies this`freeList
      ensures freeList == Merged(old(freeList), iter)
    {
      hide Join;
      ghost var before := freeList;
      listIter := iter;
      var freeSpace := freeList[listIter].size;
      var offset := freeList[listIter].offset;
      var size := freeList[listIter].size;
      if listIter != 0 {
        listIter := listIter - 1;
        if freeList[listIter].End() == offset {
          freeSpace := freeSpace + freeList[listIter].size;
          freeList := freeList[listIter := freeList[listIter].(size := freeSpace)];
          listIter := listIter + 1;
          freeList := freeList[..listIter] + freeList[listIter + 1..];
          listIter := listIter - 1;
          WidenThenErase(before, listIter, freeList);
        } else {
          listIter := listIter + 1;
        }
      }
      assert (freeList, listIter) == MergedPrev(before, iter);
      before := freeList;
      listIter := listIter + 1;
      if listIter != |freeList| {
        if offset + size == freeList[listIter].offset {
          freeSpace := freeSpace + freeList[listIter].size;
          freeList := freeList[..listIter] + freeList[listIter + 1..];
          listIter := listIter - 1;
          freeList := freeList[listIter := freeList[listIter].(size := freeSpace)];
          EraseThenWiden(before, listIter, freeList);
        }
      }
    }
  }

  /** The two ways in which the merge joins a block to the next one. */
  lemma WidenThenErase(l: seq<Block>, i: nat, m: seq<Block>)
    requires i + 1 < |l|
    requires var w := l[i := l[i].(size := l[i + 1].size + l[i].size)];
             m == w[..i + 1] + w[i + 2..]
    ensures m == Join(l, i)
  {
  }

  lemma EraseThenWiden(l: seq<Block>, i: nat, m: seq<Block>)
    requires i + 1 < |l|
    requires var e := l[..i + 1] + l[i + 2..];
             m == e[i := e[i].(size := l[i].size + l[i + 1].size)]
    ensures m == Join(l, i)
  {
  }

  /** Sorted with gaps everywhere except possibly on the two sides of block `i`. */
  ghost predicate Loose(l: seq<Block>, i: nat, memSize: nat) {
    && i < |l|
    && (forall k :: 0 <= k < |l| ==> l[k].free && l[k].size > 0 && l[k].End() <= memSize)
    && (forall j, k :: 0 <= j < k < |l| ==> l[j].End() <= l[k].offset)
    && (forall j, k :: 0 <= j < k < |l| && !(j + 1 == k && (j == i || k == i)) ==> l[j].End() < l[k].offset)
  }

  predicate TouchesPrev(l: seq<Block>, i: nat)
    requires i < |l|
  {
    i > 0 && l[i - 1].End() == l[i].offset
  }

  predicate TouchesNext(l: seq<Block>, i: nat)
    requires i < |l|
  {
    i + 1 < |l| && l[i].End() == l[i + 1].offset
  }

  /** Blocks `i` and `i + 1` joined into one. */
  function Join(l: seq<Block>, i: nat): seq<Block>
    requires i + 1 < |l|
  {
    l[..i] + [Joined(l, i)] + l[i + 2..]
  }

  function MergedPrev(l: seq<Block>, i: nat): (r: (seq<Block>, nat))
    requires i < |l|
    ensures r.1 < |r.0|
  {
    if TouchesPrev(l, i) then (Join(l, i - 1), i - 1) else (l, i)
  }

  /** The list with block `i` joined to the neighbours it touches. */
  function Merged(l: seq<Block>, i: nat): seq<Block>
    requires i < |l|
  {
    var (m, at) := MergedPrev(l, i);
    if TouchesNext(m, at) then Join(m, at) else m
  }

  /** Two touching blocks joined into one cover the same bytes. */
  lemma JoinCovers(l: seq<Block>, i: nat, m: seq<Block>)
    requires i + 1 < |l| && l[i].End() == l[i + 1].offset
    requires m == l[..i] + [Joined(l, i)] + l[i + 2..]
    ensures forall x :: Covers(m, x) <==> Covers(l, x)
  {
    var pre, post := l[..i], l[i + 2..];
    assert l == pre + [l[i], l[i + 1]] + post;
    forall x ensures Covers(m, x) <==> Covers(l, x) {
      CoversSplice(pre, [Joined(l, i)], post, x);
      CoversSplice(pre, [l[i], l[i + 1]], post, x);
      CoversOne(Joined(l, i), x);
      CoversTwo(l[i], l[i + 1], x);
    }
  }

  function Joined(l: seq<Block>, i: nat): Block
    requires i + 1 < |l|
  {
    l[i].(size := l[i].size + l[i + 1].size)
  }

  lemma JoinAt(l: seq<Block>, i: nat, m: seq<Block>, k: nat)
    requires i + 1 < |l| && m == l[..i] + [Joined(l, i)] + l[i + 2..] && k < |m|
    ensures |m| == |l| - 1
    ensures m[k] == if k < i then l[k] else if k == i then Joined(l, i) else l[k + 1]
  {
  }

  /** Joining the loose block `at` (one of the two joined) with its neighbour. */
  lemma JoinKeepsOrder(l: seq<Block>, i: nat, at: nat, memSize: nat, m: seq<Block>)
    requires i + 1 < |l| && Loose(l, at, memSize) && at in {i, i + 1}
    requires l[i].End() == l[i + 1].offset
    requires m == l[..i] + [Joined(l, i)] + l[i + 2..]
    ensures Loose(m, i, memSize)
    ensures at == i + 1 ==> i > 0 ==> m[i - 1].End() < m[i].offset
    ensures at == i ==> i + 1 < |m| ==> m[i].End() < m[i + 1].offset
    ensures at == i ==> i > 0 && l[i - 1].End() < l[i].offset ==> m[i - 1].End() < m[i].offset
    ensures m[i].End() == l[i + 1].End()
  {
    forall k | 0 <= k < |m| ensures m[k].free && m[k].size > 0 && m[k].End() <= memSize {
      JoinAt(l, i, m, k);
    }
    forall j, k | 0 <= j < k < |m|
      ensures m[j].End() <= m[k].offset
      ensures !(j + 1 == k && (j == i || k == i)) ==> m[j].End() < m[k].offset
      ensures at == i + 1 && k == i ==> m[j].End() < m[k].offset
      ensures at == i && j == i ==> m[j].End() < m[k].offset
    {
      JoinAt(l, i, m, j);
      JoinAt(l, i, m, k);
      var lj := if j <= i then j else j + 1;
      var lk := if k <= i then k else k + 1;
      assert l[lj].End() <= l[lk].offset;
      assert j == i ==> l[i + 1].End() <= l[lk].offset;
    }
    JoinAt(l, i, m, i);
    if i > 0 {
      JoinAt(l, i, m, i - 1);
    }
  }

  /** Merging at the one loose block makes the list canonical and keeps its bytes. */
  lemma MergeRestoresCanonical(l: seq<Block>, i: nat, memSize: nat)
    requires Loose(l, i, memSize)
    ensures Canonical(Merged(l, i), memSize)
    ensures forall x :: Covers(Merged(l, i), x) <==> Covers(l, x)
  {
    var (m, at) := MergedPrev(l, i);
    if TouchesPrev(l, i) {
      JoinCovers(l, at, m);
      JoinKeepsOrder(l, at, i, memSize, m);
    }
    var n := Merged(l, i);
    if TouchesNext(m, at) {
      JoinCovers(m, at, n);
      JoinKeepsOrder(m, at, at, memSize, n);
    }
    LooseTight(n, at, memSize);
  }

  lemma LooseTight(l: seq<Block>, i: nat, memSize: nat)
    requires Loose(l, i, memSize)
    requires i > 0 ==> l[i - 1].End() < l[i].offset
    requires i + 1 < |l| ==> l[i].End() < l[i + 1].offset
    ensures Canonical(l, memSize)
  {
  }

  /** Taking `size` bytes from the head of block `i`. */
  lemma TakeKeepsValid(h: Heap, i: nat, size: nat, h': Heap)
    requires Valid(h) && size > 0 && i < |h.free| && h.free[i].size >= size
    requires h'.memSize == h.memSize
    requires var b := h.free[i];
             && h'.used == h.used[b.offset := Block(size, false, b.offset)]
             && h'.free ==
                h.free[..i] +
                (if b.size > size then [Block(b.size - size, true, b.offset + size)] else []) +
                h.free[i + 1..]
    ensures Valid(h')
  {
    var b := h.free[i];
    var rest := if b.size > size then [Block(b.size - size, true, b.offset + size)] else [];
    BlockFits(h, i, size);
    TakeKeepsOrder(h, i, size, rest, h'.free);
    forall x | 0 <= x < h.memSize
      ensures Covers(h'.free, x) <==> Covers(h.free, x) && !(b.offset <= x < b.offset + size)
    {
      CoversSplice(h.free[..i], rest, h.free[i + 1..], x);
      CoversSplice(h.free[..i], [b], h.free[i + 1..], x);
      assert h.free == h.free[..i] + [b] + h.free[i + 1..];
      CoversOne(b, x);
      OthersMiss(h, i, x);
      if b.size > size {
        CoversOne(rest[0], x);
      }
    }
    TakenIsDisjoint(h, b.offset, size);
    LiveAfterTake(h, b.offset, size);
  }

  lemma TakeKeepsOrder(h: Heap, i: nat, size: nat, rest: seq<Block>, m: seq<Block>)
    requires Valid(h) && size > 0 && i < |h.free| && h.free[i].size >= size
    requires rest == if h.free[i].size > size then [Block(h.free[i].size - size, true, h.free[i].offset + size)] else []
    requires m == h.free[..i] + rest + h.free[i + 1..]
    ensures Canonical(m, h.memSize)
  {
    var l := h.free;
    forall j, k | 0 <= j < k < |m| ensures m[j].End() < m[k].offset {
      TakeAt(h, i, size, rest, m, j);
      TakeAt(h, i, size, rest, m, k);
      var lj := if j < i then j else j + 1 - |rest|;
      var lk := if k < i then k else k + 1 - |rest|;
      assert l[lj].End() < l[lk].offset;
    }
    forall k | 0 <= k < |m| ensures m[k].free && m[k].size > 0 && m[k].End() <= h.memSize {
      TakeAt(h, i, size, rest, m, k);
    }
  }

  lemma TakeAt(h: Heap, i: nat, size: nat, rest: seq<Block>, m: seq<Block>, k: nat)
    requires i < |h.free| && h.free[i].size >= size > 0
    requires rest == if h.free[i].size > size then [Block(h.free[i].size - size, true, h.free[i].offset + size)] else []
    requires m == h.free[..i] + rest + h.free[i + 1..] && k < |m|
    ensures var j := if k < i then k else k + 1 - |rest|;
            && j < |h.free| && (j == i ==> |rest| == 1) && (j < i <==> k < i)
            && m[k] == if j == i then rest[0] else h.free[j]
  {
  }

  lemma OthersMiss(h: Heap, i: nat, x: int)
    requires Valid(h) && i < |h.free|
    ensures Covers(h.free[..i], x) || Covers(h.free[i + 1..], x) ==> !h.free[i].Has(x)
  {
    if Covers(h.free[..i], x) {
      var k :| 0 <= k < i && h.free[..i][k].Has(x);
      assert h.free[k].End() < h.free[i].offset;
    }
    if Covers(h.free[i + 1..], x) {
      var k :| 0 <= k < |h.free| - i - 1 && h.free[i + 1..][k].Has(x);
      assert h.free[i].End() < h.free[i + 1 + k].offset;
    }
  }

  lemma TakenIsDisjoint(h: Heap, o: nat, size: nat)
    requires Valid(h) && size > 0 && FitsAt(h.used, h.memSize, o, size)
    ensures o !in h.used
    ensures UsedOk(h.used[o := Block(size, false, o)], h.memSize)
  {
    forall p | p in h.used ensures p != o && (p < o ==> h.used[p].End() <= o) && (o < p ==> o + size <= p) {
      assert !Live(h.used, o);
      assert !h.used[p].Has(o);
      assert h.used[p].Has(p);
      assert Live(h.used, p);
    }
  }

  // ---- where free inserts ----

  /** Sizes of the blocks before the insertion point never exceed the offset. */
  lemma GuardSum(h: Heap, offset: nat, i: nat)
    requires Valid(h) && i <= |h.free|
    requires forall k :: 0 <= k < i ==> h.free[k].End() <= offset
    ensures SumSizes(h.free[..i]) <= offset
  {
    SumBelowEnd(h.free[..i], h.memSize);
  }

  lemma LiveAboveBlock(h: Heap, offset: nat, i: nat)
    requires Valid(h) && offset in h.used && i < |h.free| && h.free[i].offset <= offset
    ensures h.free[i].End() <= offset
  {
    assert h.used[offset].Has(offset);
    assert Live(h.used, offset);
    assert h.free[i].Has(offset) ==> Covers(h.free, offset);
  }

  /** The released block sits between its neighbours. */
  lemma InsertedIsLoose(h: Heap, offset: nat, i: nat, l: seq<Block>)
    requires Valid(h) && offset in h.used && i <= |h.free|
    requires forall k :: 0 <= k < i ==> h.free[k].End() <= offset
    requires i < |h.free| ==> offset < h.free[i].offset
    requires l == h.free[..i] + [h.used[offset].(free := true)] + h.free[i..]
    ensures Loose(l, i, h.memSize)
    ensures i == 0 && i == |h.free| ==> Canonical(l, h.memSize)
  {
    if i < |h.free| {
      var x := h.free[i].offset;
      assert h.free[i].Has(x);
      assert Covers(h.free, x);
      assert !h.used[offset].Has(x);
    }
    forall j, k | 0 <= j < k < |l|
      ensures l[j].End() <= l[k].offset
      ensures !(j + 1 == k && (j == i || k == i)) ==> l[j].End() < l[k].offset
    {
      InsertedAt(h, offset, i, l, j);
      InsertedAt(h, offset, i, l, k);
      var fj := if j < i then j else j - 1;
      var fk := if k < i then k else k - 1;
      assert j == i || k == i || h.free[fj].End() < h.free[fk].offset;
      assert k == i && j + 1 < k ==> h.free[j].End() < h.free[k - 1].offset;
      assert j == i && k > i + 1 ==> h.free[i].End() < h.free[k - 1].offset;
    }
    forall k | 0 <= k < |l| ensures l[k].free && l[k].size > 0 && l[k].End() <= h.memSize {
      InsertedAt(h, offset, i, l, k);
    }
  }

  lemma InsertedAt(h: Heap, offset: nat, i: nat, l: seq<Block>, k: nat)
    requires offset in h.used && i <= |h.free| && k < |l|
    requires l == h.free[..i] + [h.used[offset].(free := true)] + h.free[i..]
    ensures l[k] == if k < i then h.free[k] else if k == i then h.used[offset].(free := true) else h.free[k - 1]
  {
  }

  /** Releasing gives back exactly the bytes of the block. */
  lemma ReleaseKeepsValid(h: Heap, offset: nat, i: nat, l: seq<Block>)
    requires Valid(h) && offset in h.used && i <= |h.free|
    requires Canonical(l, h.memSize)
    requires var b := h.used[offset].(free := true);
             forall x :: Covers(l, x) <==> Covers(h.free[..i] + [b] + h.free[i..], x)
    ensures Valid(Heap(h.memSize, l, h.used - {offset}))
  {
    var b := h.used[offset].(free := true);
    var used' := h.used - {offset};
    forall x | 0 <= x < h.memSize ensures Covers(l, x) <==> !Live(used', x) {
      CoversSplice(h.free[..i], [b], h.free[i..], x);
      CoversConcat(h.free[..i], h.free[i..], x);
      assert h.free[..i] + h.free[i..] == h.free;
      CoversOne(b, x);
      LiveWithout(h, offset, x);
    }
  }

  lemma LiveWithout(h: Heap, offset: nat, x: int)
    requires Valid(h) && offset in h.used
    ensures Live(h.used - {offset}, x) <==> Live(h.used, x) && !h.used[offset].Has(x)
  {
    var used' := h.used - {offset};
    if Live(used', x) {
      var o :| o in used' && used'[o].Has(x);
      assert h.used[o].Has(x);
      assert o != offset;
    }
    if Live(h.used, x) && !h.used[offset].Has(x) {
      var o :| o in h.used && h.used[o].Has(x);
      assert used'[o].Has(x);
    }
  }
}
