/** malloc and free over two doubly linked chains. */
module HeapCode {
  import opened Common
  import opened HeapRing
  import opened HeapModel

  /** What malloc_head and the block headers hold; `main` and `free` are the chains they form. */
  class Heap {
    var size: Sizes
    var kind: Kinds
    var next: Links
    var prev: Links
    var nextFree: Links
    var prevFree: Links
    ghost var main: seq<Addr>
    ghost var free: seq<Addr>
    /** Bytes of memory the heap was given, and the request each used block serves. */
    ghost var supplied: nat
    ghost var requested: map<Addr, nat>

    /** Everything but how block `x` stands to the free chain. */
    ghost predicate Sound(x: Addr)
      reads this
    {
      && Ring(next, prev, main) && Ring(nextFree, prevFree, free)
      && Blocks(size, kind, main, x) && FreeIs(kind, main, free, x) && Total(size, main) == supplied
      && Served(LiveOf(size, kind, main), requested, x)
    }

    ghost predicate Valid()
      reads this
    {
      Sound(HEAD)
    }

    /** The used blocks and their sizes. */
    ghost function Live(): map<Addr, nat>
      reads this
    {
      LiveOf(size, kind, main)
    }

    constructor ()
      ensures Valid() && main == [] && supplied == 0
    {
      size, kind := map[HEAD := 0], map[HEAD := Head];
      next, prev, nextFree, prevFree := map[HEAD := HEAD], map[HEAD := HEAD], map[HEAD := HEAD], map[HEAD := HEAD];
      main, free, supplied, requested := [], [], 0, map[];
    }

    /** remove_from_free_chain */
    method RemoveFromFreeChain(a: Addr, ghost f: nat)
      requires Ring(nextFree, prevFree, free) && f < |free| && free[f] == a
      modifies this`nextFree, this`prevFree, this`free
      ensures Ring(nextFree, prevFree, free) && free == DropAt(old(free), f)
    {
      hide Ring;
      RingDrop(nextFree, prevFree, free, f);
      var ap, an := prevFree[a], nextFree[a];
      nextFree := nextFree[ap := an];
      prevFree := prevFree[an := ap];
      free := DropAt(free, f);
    }

    /** remove_from_main_chain */
    method RemoveFromMainChain(a: Addr, ghost i: nat)
      requires Ring(next, prev, main) && i < |main| && main[i] == a
      modifies this`next, this`prev, this`main
      ensures Ring(next, prev, main) && main == DropAt(old(main), i)
    {
      hide Ring;
      RingDrop(next, prev, main, i);
      var ap, an := prev[a], next[a];
      next := next[ap := an];
      prev := prev[an := ap];
      main := DropAt(main, i);
    }

    /** Push a block on the free chain. */
    method AddToFreeChain(a: Addr)
      requires Ring(nextFree, prevFree, free) && a !in free && a != HEAD
      modifies this`nextFree, this`prevFree, this`free
      ensures Ring(nextFree, prevFree, free) && free == [a] + old(free)
    {
      hide Ring;
      RingInsert(nextFree, prevFree, free, 0, a);
      assert InsertAt(free, 0, a) == [a] + free;
      var first := nextFree[HEAD];
      nextFree := nextFree[HEAD := a][a := first];
      prevFree := prevFree[first := a][a := HEAD];
      free := [a] + free;
    }

    /** The splitting part of __malloc_from_block: the upper part of the block takes its place on the
        free chain. */
    method SplitBlock(fp: Addr, n: nat, ghost request: nat, ghost i: nat, ghost f: nat)
      requires Valid() && i < |main| && main[i] == fp && f < |free| && free[f] == fp
      requires n >= 2 * HEADER && SizeOf(size, fp) >= n + 2 * HEADER && request + HEADER <= n
      modifies this
      ensures Valid() && supplied == old(supplied) && Live() == old(Live())[fp := n] && fp !in old(Live())
      ensures requested == old(requested)[fp := request]
    {
      hide Ring, Blocks, FreeIs, Total, LiveOf, Served;
      ghost var live := Live();
      FreeOnMain(kind, main, free, nextFree, prevFree, next, prev, i, f);
      BlockSized(size, kind, main, i);
      SplitBlocks(size, kind, main, i, n);
      var fsize := size[fp];
      var nfp := fp + n;
      SplitFree(kind, main, free, InsertAt(main, i + 1, nfp), f, nfp);
      ServedMore(live, requested, fp, n, request);
      kind := kind[fp := Used][nfp := Free];
      size := size[fp := n][nfp := fsize - n];
      SplitChains(fp, nfp, i, f);
      requested := requested[fp := request];
    }

    /** The links of a split: the new block behind the old one on the main chain and in its place on the
        free chain. */
    method SplitChains(fp: Addr, nfp: Addr, ghost i: nat, ghost f: nat)
      requires Ring(next, prev, main) && Ring(nextFree, prevFree, free) && i < |main| && main[i] == fp && f < |free| &&
               free[f] == fp
      requires nfp !in main && nfp !in free && nfp != HEAD
      modifies this`next, this`prev, this`nextFree, this`prevFree, this`main, this`free
      ensures Ring(next, prev, main) && Ring(nextFree, prevFree, free)
      ensures main == InsertAt(old(main), i + 1, nfp) && free == old(free)[f := nfp]
    {
      hide Ring, Distinct;
      RingInsert(next, prev, main, i + 1, nfp);
      RingReplace(nextFree, prevFree, free, f, nfp);
      var na := next[fp];
      next := next[fp := nfp][nfp := na];
      prev := prev[na := nfp][nfp := fp];
      var fpn, fpp := nextFree[fp], prevFree[fp];
      nextFree := nextFree[fpp := nfp][nfp := fpn];
      prevFree := prevFree[fpn := nfp][nfp := fpp];
      main := InsertAt(main, i + 1, nfp);
      free := free[f := nfp];
    }

    /** __malloc_from_block */
    method MallocFromBlock(fp: Addr, n: nat, ghost request: nat, ghost i: nat, ghost f: nat) returns (ptr: Addr)
      requires Valid() && i < |main| && main[i] == fp && f < |free| && free[f] == fp
      requires n >= 2 * HEADER && SizeOf(size, fp) >= n && request + HEADER <= n
      modifies this
      ensures Valid() && supplied == old(supplied) && ptr == fp + HEADER && fp !in old(Live())
      ensures fp in Live() && n <= Live()[fp] < n + 2 * HEADER && Live() == old(Live())[fp := Live()[fp]] &&
              requested == old(requested)[fp := request]
    {
      hide Ring, Blocks, FreeIs, Total, LiveOf, Served;
      BlockSized(size, kind, main, i);
      if size[fp] >= n + 2 * HEADER {
        SplitBlock(fp, n, request, i, f);
      } else {
        FreeOnMain(kind, main, free, nextFree, prevFree, next, prev, i, f);
        UseBlocks(size, kind, main, i);
        UseFree(kind, main, free, f);
        ServedMore(Live(), requested, fp, size[fp], request);
        kind := kind[fp := Used];
        RemoveFromFreeChain(fp, f);
        requested := requested[fp := request];
      }
      return fp + HEADER;
    }

    /** Half way through __free_block: the block at position `j` is free and on the free chain, and does
        not touch a free block below it. */
    ghost predicate Half(j: nat)
      reads this
    {
      && Ring(next, prev, main) && Ring(nextFree, prevFree, free) && j < |main|
      && Blocks(size, kind, main, main[j]) && FreeIs(kind, main, free, HEAD) && Total(size, main) == supplied
      && Served(LiveOf(size, kind, main), requested, HEAD) && KindOf(kind, main[j]) == Free
      && LeftClear(size, kind, main, j)
    }

    /** Coalesce into the previous block. */
    method MergeDown(pah: Addr, ah: Addr, ghost i: nat)
      requires Sound(ah) && 0 < i < |main| && main[i] == ah && main[i - 1] == pah
      requires KindOf(kind, pah) == Free && End(size, pah) == ah
      modifies this
      ensures Half(i - 1) && main[i - 1] == pah && supplied == old(supplied) && Live() == old(Live()) - {ah}
      ensures At(main, i + 1) == At(old(main), i + 2) && |main| == |old(main)| - 1 && requested == old(requested)
      ensures kind == old(kind) && size == Merged(old(size), pah, ah)
    {
      hide Ring, Blocks, FreeIs, Total, LiveOf, Served, Distinct, LeftClear;
      RingIs(next, prev, main);
      MergeDownBlocks(size, kind, main, free, requested, i);
      HasSize(size, kind, main, i, ah);
      HasSize(size, kind, main, i - 1, ah);
      size := size[pah := size[pah] + size[ah]];
      DropPositions(main, i, i + 1);
      DropIndex(main, i, i - 1);
      RemoveFromMainChain(ah, i);
    }

    /** Put a block that cannot be merged downwards on the free chain. */
    method PushFree(ah: Addr, ghost i: nat)
      requires Sound(ah) && i < |main| && main[i] == ah
      requires !(i > 0 && KindOf(kind, main[i - 1]) == Free && End(size, main[i - 1]) == ah)
      modifies this`kind, this`nextFree, this`prevFree, this`free
      ensures Half(i) && Live() == old(Live()) - {ah} && kind == old(kind)[ah := Free]
    {
      hide Ring, Blocks, FreeIs, Total, LiveOf, Served, Distinct, LeftClear;
      RingIs(next, prev, main);
      PushBlocks(size, kind, main, free, requested, i);
      kind := kind[ah := Free];
      AddToFreeChain(ah);
    }

    /** Merge with the subsequent block. */
    method MergeUp(a: Addr, nah: Addr, ghost j: nat, ghost f: nat)
      requires Half(j) && j + 1 < |main| && main[j] == a && main[j + 1] == nah && KindOf(kind, nah) == Free &&
               End(size, a) == nah
      requires f < |free| && free[f] == nah
      modifies this
      ensures Valid() && supplied == old(supplied) && Live() == old(Live()) && a in main && requested == old(requested)
      ensures kind == old(kind) && size == Merged(old(size), a, nah)
    {
      hide Ring, Blocks, FreeIs, Total, LiveOf, Served, Distinct, LeftClear;
      RingIs(next, prev, main);
      RingIs(nextFree, prevFree, free);
      MergeUpBlocks(size, kind, main, free, j, f);
      HasSize(size, kind, main, j, a);
      HasSize(size, kind, main, j + 1, a);
      size := size[a := size[a] + size[nah]];
      DropIndex(main, j + 1, j);
      RemoveFromFreeChain(nah, f);
      RemoveFromMainChain(nah, j + 1);
      assert main[j] == a;
    }

    /** __free_block: the block that now holds the freed one. */
    method FreeBlock(ah: Addr, ghost i: nat) returns (r: Addr)
      requires Sound(ah) && i < |main| && main[i] == ah
      modifies this
      ensures Valid() && supplied == old(supplied) && Live() == old(Live()) - {ah} && requested == old(requested)
      ensures r in free && SizeOf(size, r) >= old(SizeOf(size, ah))
    {
      hide Ring, Blocks, FreeIs, Total, LiveOf, Served, Distinct, LeftClear;
      RingAt(next, prev, main, i + 1);
      BlockFacts(size, kind, main, i, ah);
      ghost var n := SizeOf(size, ah);
      var pah, nah := prev[ah], next[ah];
      r := ah;
      ghost var j := i;
      if KindOf(kind, pah) == Free && pah + SizeOf(size, pah) == ah {
        MergedSize(size, pah, ah);
        MergeDown(pah, ah, i);
        r := pah;
        j := i - 1;
      } else {
        PushFree(ah, i);
      }
      HalfFacts(size, kind, main, free, j);
      RingIs(next, prev, main);
      if KindOf(kind, nah) == Free && r + SizeOf(size, r) == nah {
        NextFree(kind, main, free, j);
        ghost var f :| 0 <= f < |free| && free[f] == nah;
        MergedSize(size, r, nah);
        StaysFree(kind, main, free, r);
        MergeUp(r, nah, j, f);
        StaysFree(kind, main, free, r);
      } else {
        HalfDone(size, kind, main, j);
      }
    }

    /** The first block on the free chain that is large enough, as the loop of malloc finds it. */
    method FirstFit(n: nat) returns (fp: Addr, ghost f: nat)
      requires Valid()
      ensures f <= |free| && (forall g :: 0 <= g < f ==> SizeOf(size, free[g]) < n)
      ensures if fp == HEAD then f == |free| else f < |free| && free[f] == fp && SizeOf(size, fp) >= n
      ensures (fp != HEAD <==> Fits(size, free, n)) && (fp != HEAD ==> fp in free && SizeOf(size, fp) >= n)
    {
      hide Fits, Blocks, Total, LiveOf, Served;
      HeadKind(size, kind, main);
      RingAt(nextFree, prevFree, free, 0);
      fp := nextFree[HEAD];
      f := 0;
      while KindOf(kind, fp) != Head
        invariant f <= |free| && fp == At(free, f + 1) && forall g :: 0 <= g < f ==> SizeOf(size, free[g]) < n
        decreases |free| - f
      {
        FreeHere(kind, main, free, f);
        if SizeOf(size, fp) >= n {
          NoneFits(size, free, f, n);
          return;
        }
        RingAt(nextFree, prevFree, free, f + 1);
        fp := nextFree[fp];
        f := f + 1;
      }
      ChainEnd(size, kind, main, free, f);
      NoneFits(size, free, f, n);
    }

    /** add_malloc_block: too small a block is ignored, any other becomes free memory. */
    method AddMallocBlock(buf: Addr, n: nat)
      requires Valid() && Fresh(size, main, buf, n)
      modifies this
      ensures Valid() && Live() == old(Live()) && requested == old(requested)
      ensures supplied == old(supplied) + if n < FREE_HEADER then 0 else n
      ensures n >= FREE_HEADER ==> exists r :: r in free && SizeOf(size, r) >= n
    {
      hide Ring, Blocks, FreeIs, Total, LiveOf, Served, Distinct, Fresh;
      if n < FREE_HEADER {
        return;
      }
      RingIs(next, prev, main);
      FreshNew(size, kind, main, buf, n);
      var pah;
      ghost var i;
      pah, i := FindPlace(buf);
      NewBlock(size, kind, main, free, requested, i, buf, n);
      InsertIndex(main, i, buf, i);
      kind := kind[buf := Free];
      size := size[buf := n];
      LinkAfter(pah, buf, i);
      supplied := supplied + n;
      var r := FreeBlock(buf, i);
    }

    /** Link a new block in behind `pah` on the main chain. */
    method LinkAfter(pah: Addr, buf: Addr, ghost i: nat)
      requires Ring(next, prev, main) && i <= |main| && pah == At(main, i) && buf !in main && buf != HEAD
      modifies this`next, this`prev, this`main
      ensures Ring(next, prev, main) && main == InsertAt(old(main), i, buf)
    {
      hide Ring;
      RingInsert(next, prev, main, i, buf);
      var succ := next[pah];
      next := next[pah := buf][buf := succ];
      prev := prev[succ := buf][buf := pah];
      main := InsertAt(main, i, buf);
    }

    /** The backward search of add_malloc_block for the predecessor of a new block. */
    method FindPlace(buf: Addr) returns (pah: Addr, ghost i: nat)
      requires Valid() && buf !in main
      ensures i <= |main| && pah == At(main, i) && (i > 0 ==> main[i - 1] < buf) && (i < |main| ==> buf < main[i])
      ensures pah != HEAD ==> pah in main && pah < buf
    {
      hide Blocks, FreeIs, Total, LiveOf, Served;
      i := |main|;
      RingAt(next, prev, main, i);
      pah := prev[HEAD];
      while KindOf(kind, pah) != Head
        invariant i <= |main| && pah == At(main, i) && (i < |main| ==> buf < main[i])
        decreases i
      {
        MainHere(kind, main, i, size);
        if pah < buf {
          break;
        }
        RingAt(next, prev, main, i);
        assert main[i - 1] in main;
        pah := prev[pah];
        i := i - 1;
      }
      MainEnd(kind, main, i, size);
    }

    /** malloc.  `more` is what _sbrk returns if it is called: memory of the rounded size that no block
        lies in, or HEAD for failure. */
    method Malloc(request: nat, more: Addr) returns (ptr: Addr)
      requires Valid() && request <= WORD32 - 2 * HEADER && (more != HEAD ==> Fresh(size, main, more, RoundUp(request)))
      modifies this
      ensures Valid()
      ensures ptr == 0 <==> request == 0 || (more == HEAD && !Fits(old(size), old(free), RoundUp(request)))
      ensures ptr == 0 ==> Live() == old(Live()) && supplied == old(supplied) && requested == old(requested)
      ensures ptr != 0 ==>
                var a := ptr - HEADER;
                && a !in old(Live()) && a in Live() && Live() == old(Live())[a := Live()[a]]
                && request + HEADER <= Live()[a] < request + 4 * HEADER && requested == old(requested)[a := request]
                && supplied == old(supplied) + (if Fits(old(size), old(free), RoundUp(request)) then 0
                                                else RoundUp(request))
                && (Fits(old(size), old(free), RoundUp(request)) ==>
                      FirstFits(old(size), old(free), RoundUp(request), a))
    {
      hide Ring, Blocks, FreeIs, Total, LiveOf, Served, Fresh, RoundUp;
      if request == 0 {
        return 0;
      }
      RoundUpRoom(request);
      var n := RoundUp(request);
      var fp;
      ghost var f;
      fp, f := FirstFit(n);
      ghost var found := fp != HEAD;
      NoneFits(size, free, f, n);
      if fp == HEAD {
        if more == HEAD {
          return 0;
        }
        AddMallocBlock(more, n);
        fp, f := FirstFit(n);
        NoneFits(size, free, f, n);
      }
      FreeInMain(kind, main, free, f);
      ghost var i :| 0 <= i < |main| && main[i] == fp;
      assert found ==> fp in old(free) && FirstFits(old(size), old(free), n, fp);
      ptr := MallocFromBlock(fp, n, request, i, f);
    }

    /** free */
    method FreeMemory(ptr: Addr)
      requires Valid() && (ptr != 0 ==> ptr >= HEADER && ptr - HEADER in Live())
      modifies this
      ensures Valid() && supplied == old(supplied) && requested == old(requested)
      ensures Live() == if ptr == 0 then old(Live()) else old(Live()) - {ptr - HEADER}
    {
      hide Ring, Blocks, FreeIs, Total, LiveOf, Served;
      if ptr == 0 {
        return;
      }
      var ah := ptr - HEADER;
      Release(size, kind, main, free, requested, ah);
      ghost var i :| 0 <= i < |main| && main[i] == ah;
      var r := FreeBlock(ah, i);
    }
  }

  /** The block is the first on the free chain that is large enough. */
  ghost predicate FirstFits(size: Sizes, free: seq<Addr>, n: nat, a: Addr) {
    exists f :: 0 <= f < |free| && free[f] == a && SizeOf(size, a) >= n &&
                forall j :: 0 <= j < f ==> SizeOf(size, free[j]) < n
  }

  ghost predicate KindsOk(kind: Kinds, main: seq<Addr>) {
    KindOf(kind, HEAD) == Head && forall a :: a in main ==> KindOf(kind, a) != Head
  }

  /** The free chain holds exactly the free blocks, `x` apart. */
  ghost predicate FreeIs(kind: Kinds, main: seq<Addr>, free: seq<Addr>, x: Addr) {
    forall a :: a in free <==> a in main && KindOf(kind, a) == Free && a != x
  }

  /** Some block on the free chain is large enough. */
  ghost predicate Fits(size: Sizes, free: seq<Addr>, n: nat) {
    exists a :: a in free && SizeOf(size, a) >= n
  }

  /** Blocks in order, none too small for a free header, no free ones touching but at `x`. */
  ghost predicate Blocks(size: Sizes, kind: Kinds, main: seq<Addr>, x: Addr) {
    Ordered(size, main) && Sized(size, main) && Apart(size, kind, main, x) && KindsOk(kind, main)
  }

  ghost function LiveOf(size: Sizes, kind: Kinds, main: seq<Addr>): map<Addr, nat> {
    map a | a in main && KindOf(kind, a) == Used :: SizeOf(size, a)
  }

  /** Every used block has room for its header and for what was requested. */
  ghost predicate Served(live: map<Addr, nat>, requested: map<Addr, nat>, x: Addr) {
    forall a :: a in live && a != x ==> a in requested && requested[a] + HEADER <= live[a]
  }

  lemma SplitBlocks(size: Sizes, kind: Kinds, main: seq<Addr>, i: nat, n: nat)
    requires Distinct(main) && Blocks(size, kind, main, HEAD) && i < |main| && KindOf(kind, main[i]) == Free
    requires n >= 2 * HEADER && SizeOf(size, main[i]) >= n + 2 * HEADER
    ensures
      var fp := main[i];
      var size' := size[fp := n][fp + n := SizeOf(size, fp) - n];
      var kind', main' := kind[fp := Used][fp + n := Free], InsertAt(main, i + 1, fp + n);
      && fp + n !in main && Blocks(size', kind', main', HEAD) && Total(size', main') == Total(size, main)
      && LiveOf(size', kind', main') == LiveOf(size, kind, main)[fp := n] && fp !in LiveOf(size, kind, main)
      && forall a :: a in main' <==> a in main || a == fp + n
  {
    hide Ordered, Apart, Total;
    var fp := main[i];
    assert fp in main;
    SplitFresh(size, main, i, n);
    SplitOrdered(size, main, i, n);
    SplitApart(size, kind, main, i, n);
    SplitTotal(size, main, i, n);
    InsertDistinct(main, i + 1, fp + n);
  }

  lemma SplitFree(kind: Kinds, main: seq<Addr>, free: seq<Addr>, main': seq<Addr>, f: nat, x: Addr)
    requires FreeIs(kind, main, free, HEAD) && Distinct(free) && f < |free| && x !in main && x != HEAD && free[f] != x
    requires forall a :: a in main' <==> a in main || a == x
    ensures FreeIs(kind[free[f] := Used][x := Free], main', free[f := x], HEAD)
  {
    hide Distinct;
    assert x !in free;
    ReplaceElems(free, f, x);
    DistinctHead(free);
    var kind', free' := kind[free[f] := Used][x := Free], free[f := x];
    forall a
      ensures a in free' <==> a in main' && KindOf(kind', a) == Free && a != HEAD
    {
      assert a in free <==> a in main && KindOf(kind, a) == Free && a != HEAD;
    }
  }

  lemma DistinctHead(l: seq<Addr>)
    requires Distinct(l)
    ensures HEAD !in l
  {
  }

  lemma ReplaceElems(l: seq<Addr>, f: nat, x: Addr)
    requires Distinct(l) && f < |l| && x !in l
    ensures forall a :: a in l[f := x] <==> (a in l && a != l[f]) || a == x
  {
    var d := l[f := x];
    assert d[f] == x;
    forall a | a in l && a != l[f]
      ensures a in d
    {
      var k :| 0 <= k < |l| && l[k] == a;
      assert d[k] == a;
    }
    forall a | a in d && a != x
      ensures a in l && a != l[f]
    {
      var k :| 0 <= k < |d| && d[k] == a;
      assert k != f && l[k] == a;
    }
  }

  lemma FreeOnMain(kind: Kinds, main: seq<Addr>, free: seq<Addr>, nextFree: Links, prevFree: Links, next: Links,
      prev: Links, i: nat, f: nat)
    requires Ring(next, prev, main) && Ring(nextFree, prevFree, free) && FreeIs(kind, main, free, HEAD) &&
             i < |main| && f < |free| && free[f] == main[i]
    ensures Distinct(main) && Distinct(free) && KindOf(kind, main[i]) == Free && main[i] != HEAD
    ensures forall a :: a in free ==> a in main
  {
    hide Distinct;
    assert main[i] in main && free[f] in free;
  }

  lemma BlockSized(size: Sizes, kind: Kinds, main: seq<Addr>, i: nat)
    requires Blocks(size, kind, main, HEAD) && i < |main|
    ensures main[i] in size && size[main[i]] == SizeOf(size, main[i])
  {
    assert main[i] in main;
  }

  lemma ServedMore(live: map<Addr, nat>, requested: map<Addr, nat>, a: Addr, n: nat, request: nat)
    requires Served(live, requested, HEAD) && request + HEADER <= n
    ensures Served(live[a := n], requested[a := request], HEAD)
  {
  }

  /** The whole block is taken. */
  lemma UseBlocks(size: Sizes, kind: Kinds, main: seq<Addr>, i: nat)
    requires Distinct(main) && Blocks(size, kind, main, HEAD) && i < |main| && KindOf(kind, main[i]) == Free
    ensures Blocks(size, kind[main[i] := Used], main, HEAD)
    ensures LiveOf(size, kind[main[i] := Used], main) == LiveOf(size, kind, main)[main[i] := SizeOf(size, main[i])] &&
            main[i] !in LiveOf(size, kind, main)
  {
    hide Ordered, Apart;
    assert main[i] in main;
    UsedApart(size, kind, main, main[i]);
    DistinctHead(main);
  }

  lemma UseFree(kind: Kinds, main: seq<Addr>, free: seq<Addr>, f: nat)
    requires FreeIs(kind, main, free, HEAD) && Distinct(free) && f < |free|
    ensures FreeIs(kind[free[f] := Used], main, DropAt(free, f), HEAD)
  {
    hide Distinct;
    DropDistinct(free, f);
    var kind', free' := kind[free[f] := Used], DropAt(free, f);
    forall a
      ensures a in free' <==> a in main && KindOf(kind', a) == Free && a != HEAD
    {
      assert a in free <==> a in main && KindOf(kind, a) == Free && a != HEAD;
    }
  }

  lemma RingIs(next: Links, prev: Links, l: seq<Addr>)
    requires Ring(next, prev, l)
    ensures Distinct(l)
  {
  }

  lemma HasSize(size: Sizes, kind: Kinds, main: seq<Addr>, i: nat, x: Addr)
    requires Blocks(size, kind, main, x) && i < |main|
    ensures main[i] in size && size[main[i]] == SizeOf(size, main[i])
  {
    assert main[i] in main;
  }

  lemma MergeSized(size: Sizes, l: seq<Addr>, i: nat)
    requires Sized(size, l) && Distinct(l) && i + 1 < |l|
    ensures Sized(Merged(size, l[i], l[i + 1]), DropAt(l, i + 1)) && forall a :: a in DropAt(l, i + 1) <==>
      a in l && a != l[i + 1]
  {
    hide Distinct;
    DropDistinct(l, i + 1);
    assert l[i] in l && l[i + 1] in l;
  }

  lemma MergeDownBlocks(size: Sizes, kind: Kinds, main: seq<Addr>, free: seq<Addr>, requested: map<Addr, nat>, i: nat)
    requires Distinct(main) && 0 < i < |main| && Blocks(size, kind, main, main[i]) && FreeIs(kind, main, free, main[i])
    requires KindOf(kind, main[i - 1]) == Free && End(size, main[i - 1]) == main[i] &&
             Served(LiveOf(size, kind, main), requested, main[i])
    ensures
      var size', main' := Merged(size, main[i - 1], main[i]), DropAt(main, i);
      && Blocks(size', kind, main', main[i - 1]) && LeftClear(size', kind, main', i - 1)
      && FreeIs(kind, main', free, HEAD)
      && Total(size', main') == Total(size, main) && LiveOf(size', kind, main') == LiveOf(size, kind, main) - {main[i]}
      && Served(LiveOf(size', kind, main'), requested, HEAD)
  {
    hide Ordered, Apart, Total, Sized, Distinct;
    MergeOrdered(size, main, i - 1);
    MergeApart(size, kind, main, i - 1, main[i]);
    MergeTotal(size, main, i - 1);
    MergeSized(size, main, i - 1);
    MergeLeft(size, kind, main, i);
    DistinctHead(main);
    assert main[i - 1] in main;
  }

  lemma MergeLeft(size: Sizes, kind: Kinds, main: seq<Addr>, i: nat)
    requires Distinct(main) && 0 < i < |main| && Apart(size, kind, main, main[i])
    ensures LeftClear(Merged(size, main[i - 1], main[i]), kind, DropAt(main, i), i - 1)
  {
    if i > 1 {
      DropIndex(main, i, i - 1);
      DropIndex(main, i, i - 2);
      assert main[i - 2] != main[i] && main[i - 1] != main[i] && main[i - 2] != main[i - 1];
      assert !Touch(size, kind, main, i - 2);
    }
  }

  lemma PushBlocks(size: Sizes, kind: Kinds, main: seq<Addr>, free: seq<Addr>, requested: map<Addr, nat>, i: nat)
    requires Distinct(main) && i < |main| && Blocks(size, kind, main, main[i]) && FreeIs(kind, main, free, main[i])
    requires !(i > 0 && KindOf(kind, main[i - 1]) == Free && End(size, main[i - 1]) == main[i]) &&
             Served(LiveOf(size, kind, main), requested, main[i])
    ensures
      var kind' := kind[main[i] := Free];
      && Blocks(size, kind', main, main[i]) && LeftClear(size, kind', main, i)
      && FreeIs(kind', main, [main[i]] + free, HEAD)
      && LiveOf(size, kind', main) == LiveOf(size, kind, main) - {main[i]}
      && Served(LiveOf(size, kind', main), requested, HEAD)
      && main[i] !in free && main[i] != HEAD && KindOf(kind', main[i]) == Free
  {
    hide Ordered, Sized, Distinct;
    assert main[i] in main;
    DistinctHead(main);
    PushApart(size, kind, main, i);
  }

  lemma PushApart(size: Sizes, kind: Kinds, main: seq<Addr>, i: nat)
    requires Distinct(main) && i < |main| && Apart(size, kind, main, main[i])
    requires !(i > 0 && KindOf(kind, main[i - 1]) == Free && End(size, main[i - 1]) == main[i])
    ensures Apart(size, kind[main[i] := Free], main, main[i]) && LeftClear(size, kind[main[i] := Free], main, i)
  {
    var kind' := kind[main[i] := Free];
    forall j | 0 <= j && j + 1 < |main| && main[j] != main[i] && main[j + 1] != main[i]
      ensures !Touch(size, kind', main, j)
    {
      assert !Touch(size, kind, main, j);
    }
    if i > 0 {
      assert main[i - 1] != main[i];
    }
  }

  lemma MergeUpBlocks(size: Sizes, kind: Kinds, main: seq<Addr>, free: seq<Addr>, j: nat, f: nat)
    requires Distinct(main) && Distinct(free) && j + 1 < |main| && Blocks(size, kind, main, main[j]) &&
             FreeIs(kind, main, free, HEAD)
    requires LeftClear(size, kind, main, j) && KindOf(kind, main[j]) == Free && KindOf(kind, main[j + 1]) == Free &&
             End(size, main[j]) == main[j + 1]
    requires f < |free| && free[f] == main[j + 1]
    ensures
      var size', main' := Merged(size, main[j], main[j + 1]), DropAt(main, j + 1);
      && Blocks(size', kind, main', HEAD) && FreeIs(kind, main', DropAt(free, f), HEAD)
      && Total(size', main') == Total(size, main) && LiveOf(size', kind, main') == LiveOf(size, kind, main)
  {
    hide Ordered, Apart, Total, Sized, Distinct, LeftClear, RightClear;
    MergeOrdered(size, main, j);
    MergeApart(size, kind, main, j, main[j]);
    MergeTotal(size, main, j);
    MergeSized(size, main, j);
    MergeRightClear(size, kind, main, j);
    DropDistinct(main, j + 1);
    DropDistinct(free, f);
    DropIndex(main, j + 1, j);
    AllApart(Merged(size, main[j], main[j + 1]), kind, DropAt(main, j + 1), j);
    assert main[j] in main && main[j + 1] in main;
  }

  lemma BlockFacts(size: Sizes, kind: Kinds, main: seq<Addr>, i: nat, x: Addr)
    requires Blocks(size, kind, main, x) && i < |main|
    ensures At(main, i + 1) == main[i] && KindOf(kind, HEAD) == Head && (i > 0 ==> At(main, i) == main[i - 1])
    ensures KindOf(kind, At(main, i)) == Free ==> i > 0
  {
  }

  lemma MergedSize(size: Sizes, a: Addr, b: Addr)
    ensures SizeOf(Merged(size, a, b), a) == SizeOf(size, a) + SizeOf(size, b)
  {
  }

  lemma HalfFacts(size: Sizes, kind: Kinds, main: seq<Addr>, free: seq<Addr>, j: nat)
    requires j < |main| && Blocks(size, kind, main, main[j]) && FreeIs(kind, main, free, HEAD) &&
             KindOf(kind, main[j]) == Free
    ensures KindOf(kind, At(main, j + 2)) == Free ==> j + 1 < |main| && At(main, j + 2) == main[j + 1]
    ensures j + 1 < |main| ==> At(main, j + 2) == main[j + 1]
    ensures main[j] != HEAD ==> main[j] in free
  {
    assert main[j] in main;
  }

  lemma NextFree(kind: Kinds, main: seq<Addr>, free: seq<Addr>, j: nat)
    requires j + 1 < |main| && FreeIs(kind, main, free, HEAD) && Distinct(main) && KindOf(kind, main[j + 1]) == Free
    ensures main[j + 1] in free
  {
    DistinctHead(main);
    assert main[j + 1] in main;
  }

  lemma StaysFree(kind: Kinds, main: seq<Addr>, free: seq<Addr>, a: Addr)
    requires FreeIs(kind, main, free, HEAD) && a in main && a != HEAD && KindOf(kind, a) == Free
    ensures a in free
  {
  }

  lemma HalfDone(size: Sizes, kind: Kinds, main: seq<Addr>, j: nat)
    requires Distinct(main) && j < |main| && Blocks(size, kind, main, main[j]) && LeftClear(size, kind, main, j)
    requires !(KindOf(kind, At(main, j + 2)) == Free && End(size, main[j]) == At(main, j + 2))
    ensures Blocks(size, kind, main, HEAD)
  {
    AllApart(size, kind, main, j);
  }

  lemma FreeHere(kind: Kinds, main: seq<Addr>, free: seq<Addr>, f: nat)
    requires FreeIs(kind, main, free, HEAD) && f <= |free| && KindOf(kind, At(free, f + 1)) != Head &&
             KindOf(kind, HEAD) == Head
    ensures f < |free| && At(free, f + 1) == free[f]
  {
  }

  lemma ChainEnd(size: Sizes, kind: Kinds, main: seq<Addr>, free: seq<Addr>, f: nat)
    requires Blocks(size, kind, main, HEAD) && FreeIs(kind, main, free, HEAD) && f <= |free| &&
             KindOf(kind, At(free, f + 1)) == Head
    ensures f == |free| && At(free, f + 1) == HEAD
  {
    hide FreeIs, Blocks;
    if f < |free| {
      FreeKind(kind, main, free, f);
    }
  }

  lemma FreeKind(kind: Kinds, main: seq<Addr>, free: seq<Addr>, f: nat)
    requires FreeIs(kind, main, free, HEAD) && f < |free|
    ensures KindOf(kind, free[f]) == Free
  {
    assert free[f] in free;
  }

  lemma HeadKind(size: Sizes, kind: Kinds, main: seq<Addr>)
    requires Blocks(size, kind, main, HEAD)
    ensures KindOf(kind, HEAD) == Head
  {
  }

  lemma FreshNew(size: Sizes, kind: Kinds, main: seq<Addr>, buf: Addr, n: nat)
    requires Blocks(size, kind, main, HEAD) && Fresh(size, main, buf, n) && n > 0
    ensures buf !in main && buf != HEAD
  {
  }

  lemma NewBlock(size: Sizes, kind: Kinds, main: seq<Addr>, free: seq<Addr>, requested: map<Addr, nat>, i: nat,
      buf: Addr, n: nat)
    requires Distinct(main) && Blocks(size, kind, main, HEAD) && FreeIs(kind, main, free, HEAD) &&
             Served(LiveOf(size, kind, main), requested, HEAD)
    requires i <= |main| && buf !in main && Fresh(size, main, buf, n) && n >= FREE_HEADER
    requires (i > 0 ==> main[i - 1] < buf) && (i < |main| ==> buf < main[i])
    ensures
      var size', kind', main' := size[buf := n], kind[buf := Free], InsertAt(main, i, buf);
      && Blocks(size', kind', main', buf) && FreeIs(kind', main', free, buf)
      && Total(size', main') == Total(size, main) + n
      && LiveOf(size', kind', main') == LiveOf(size, kind, main) && Served(LiveOf(size', kind', main'), requested, buf)
      && buf !in LiveOf(size, kind, main) && SizeOf(size', buf) == n
  {
    hide Ordered, Apart, Total, LiveOf, Served, FreeIs, Distinct;
    NewOrdered(size, main, i, buf, n);
    NewApart(size, kind, main, i, buf, n);
    NewTotal(size, main, i, buf, n);
    InsertDistinct(main, i, buf);
    DistinctHead(main);
    NewChains(size, kind, main, free, requested, InsertAt(main, i, buf), buf, n);
  }

  lemma NewChains(size: Sizes, kind: Kinds, main: seq<Addr>, free: seq<Addr>, requested: map<Addr, nat>,
      main': seq<Addr>, buf: Addr, n: nat)
    requires FreeIs(kind, main, free, HEAD) && Served(LiveOf(size, kind, main), requested, HEAD) && buf !in main &&
             HEAD !in main
    requires forall a :: a in main' <==> a in main || a == buf
    ensures
      var size', kind' := size[buf := n], kind[buf := Free];
      && FreeIs(kind', main', free, buf) && LiveOf(size', kind', main') == LiveOf(size, kind, main)
      && Served(LiveOf(size', kind', main'), requested, buf) && buf !in LiveOf(size, kind, main)
  {
    var kind' := kind[buf := Free];
    forall a
      ensures a in free <==> a in main' && KindOf(kind', a) == Free && a != buf
    {
      assert a in free <==> a in main && KindOf(kind, a) == Free && a != HEAD;
    }
  }

  lemma MainHere(kind: Kinds, main: seq<Addr>, i: nat, size: Sizes)
    requires Blocks(size, kind, main, HEAD) && i <= |main| && KindOf(kind, At(main, i)) != Head
    ensures i > 0 && At(main, i) == main[i - 1]
  {
  }

  lemma MainEnd(kind: Kinds, main: seq<Addr>, i: nat, size: Sizes)
    requires Blocks(size, kind, main, HEAD) && i <= |main|
    ensures KindOf(kind, At(main, i)) == Head ==> i == 0
  {
    if i > 0 {
      assert main[i - 1] in main;
    }
  }

  lemma NoneFits(size: Sizes, free: seq<Addr>, f: nat, n: nat)
    requires f <= |free| && forall g :: 0 <= g < f ==> SizeOf(size, free[g]) < n
    requires f < |free| ==> SizeOf(size, free[f]) >= n
    ensures Fits(size, free, n) <==> f < |free|
  {
    if f < |free| {
      assert free[f] in free;
    }
  }

  lemma FreeInMain(kind: Kinds, main: seq<Addr>, free: seq<Addr>, f: nat)
    requires FreeIs(kind, main, free, HEAD) && f < |free|
    ensures free[f] in main
  {
    assert free[f] in free;
  }

  /** The block to be freed is on the main chain and not on the free one. */
  lemma Release(size: Sizes, kind: Kinds, main: seq<Addr>, free: seq<Addr>, requested: map<Addr, nat>, a: Addr)
    requires Blocks(size, kind, main, HEAD) && FreeIs(kind, main, free, HEAD) &&
             Served(LiveOf(size, kind, main), requested, HEAD)
    requires a in LiveOf(size, kind, main)
    ensures a in main && Blocks(size, kind, main, a) && FreeIs(kind, main, free, a) &&
            Served(LiveOf(size, kind, main), requested, a)
  {
    forall i | 0 <= i && i + 1 < |main| && main[i] != a && main[i + 1] != a
      ensures !Touch(size, kind, main, i)
    {
      assert main[i] in main && main[i + 1] in main;
    }
    forall b
      ensures b in free <==> b in main && KindOf(kind, b) == Free && b != a
    {
      assert b in free <==> b in main && KindOf(kind, b) == Free && b != HEAD;
    }
  }

  /** Used blocks, and so the payloads in them, do not overlap. */
  lemma LiveDisjoint(size: Sizes, kind: Kinds, main: seq<Addr>, a: Addr, b: Addr)
    requires Blocks(size, kind, main, HEAD) && a in LiveOf(size, kind, main) && b in LiveOf(size, kind, main) && a != b
    ensures End(size, a) <= b || End(size, b) <= a
  {
    hide Apart;
    var i :| 0 <= i < |main| && main[i] == a;
    var j :| 0 <= j < |main| && main[j] == b;
    if i < j {
      OrderedAbove(size, main, i, j);
    } else {
      OrderedAbove(size, main, j, i);
    }
  }
}
