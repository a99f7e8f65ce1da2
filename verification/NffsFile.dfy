/** Reading a file through the cache. */
module NffsFile {
  import opened Common
  import opened Bytes
  import opened NffsChain
  import opened NffsDisk
  import opened NffsIndex
  import opened NffsPlace
  import opened NffsVolume
  import opened NffsGc
  import opened NffsCache

  class FileSystem {
    const vol: Volume
    /** nffs_cache_inode_list, most recent first, and what it holds. */
    var order: seq<Id>
    var entries: map<Id, CacheInode>
    /** Free elements of nffs_cache_block_pool and nffs_cache_inode_pool. */
    var blockFree: nat
    var inodeFree: nat
    const blockCapacity: nat
    const inodeCapacity: nat
    /** The chain of every file, which block of it is the first cached one, and the
        files whose cached data is out of date. */
    ghost var files: Files
    ghost var first: map<Id, nat>
    ghost var doubt: map<Id, Trust>

    ghost predicate OnDisk()
      reads this, vol
    {
      Mounted(vol.disk, vol.index, files)
    }

    ghost function View(): View
      reads this, vol
    {
      if AllLive(vol.disk, vol.index) then ViewOf(vol.disk, vol.index) else map[]
    }

    /** The chain of file `x`. */
    ghost function Ids(x: Id): seq<Id>
      reads this
    {
      if x in files then files[x] else []
    }

    /** The first cached block of file `x`. */
    ghost function First(x: Id): nat
      reads this
    {
      if x in first then first[x] else 0
    }

    /** The data of block `b`. */
    ghost function Block(b: Id): seq<byte>
      reads this, vol
    {
      if b in View() then View()[b].data else []
    }

    ghost function CachedSize(x: Id): nat
      reads this
    {
      if x in entries then entries[x].fileSize else 0
    }

    ghost function Trusted(x: Id): Trust
      reads this
    {
      TrustIn(doubt, x)
    }

    ghost predicate Pools()
      reads this
    {
      && PoolOk(order, entries, blockFree, blockCapacity) && blockCapacity >= 1
      && inodeFree + |order| == inodeCapacity && inodeCapacity >= 1
    }

    ghost predicate Valid()
      reads this, vol
    {
      OnDisk() && Pools() && CacheOk(View(), files, entries, first, doubt)
    }

    /** A mounted volume with nothing cached. */
    constructor (vol: Volume, blocks: nat, inodes: nat, ghost files: Files)
      requires Mounted(vol.disk, vol.index, files) && blocks >= 1 && inodes >= 1
      ensures Valid() && this.vol == vol && this.files == files && entries == map[]
    {
      this.vol := vol;
      order, entries := [], map[];
      blockFree, inodeFree := blocks, inodes;
      blockCapacity, inodeCapacity := blocks, inodes;
      this.files, first, doubt := files, map[], map[];
    }

    /** nffs_cache_inode_free_blocks */
    method InodeFreeBlocks(x: Id, ghost n: nat)
      requires NoDup(order) && x in order && x in entries && blockFree + InUse(order, entries) == n
      modifies this`entries, this`blockFree
      ensures entries == old(entries)[x := old(entries)[x].(blocks := [])]
      ensures blockFree == old(blockFree) + |old(entries)[x].blocks|
      ensures blockFree + InUse(order, entries) == n
    {
      ghost var c := entries[x];
      assert entries == entries[x := c];
      while entries[x].blocks != []
        invariant x in entries && entries == old(entries)[x := c.(blocks := entries[x].blocks)]
        invariant blockFree + |entries[x].blocks| == old(blockFree) + |c.blocks|
        invariant blockFree + InUse(order, entries) == n
        decreases |entries[x].blocks|
      {
        var ci := entries[x].(blocks := entries[x].blocks[1..]);
        InUseUpdate(order, entries, x, ci);
        entries := entries[x := ci];
        blockFree := blockFree + 1;
      }
    }

    /** nffs_cache_collect_blocks: empty the least recent inode that has blocks. */
    method CollectBlocks()
      requires PoolOk(order, entries, blockFree, blockCapacity) && blockFree < blockCapacity
      modifies this`entries, this`blockFree
      ensures PoolOk(order, entries, blockFree, blockCapacity) && Shed(old(entries), entries) &&
              blockFree > old(blockFree)
      ensures LastSheds(order, old(entries), entries)
    {
      hide InUse, NoDup;
      var k := |order|;
      while k > 0
        invariant 0 <= k <= |order| && forall j :: k <= j < |order| ==> entries[order[j]].blocks == []
      {
        k := k - 1;
        if entries[order[k]].blocks != [] {
          InodeFreeBlocks(order[k], blockCapacity);
          assert LastSheds(order, old(entries), entries) by {
            assert order[k] in entries && entries == old(entries)[order[k] := old(entries)[order[k]].(blocks := [])];
          }
          return;
        }
      }
      InUseNone(order, entries);
      assert false;
    }

    /** nffs_cache_block_acquire: a block comes off the pool, if need be at the expense of a cached inode. */
    method BlockAcquire()
      requires Pools()
      modifies this`entries, this`blockFree
      ensures PoolOk(order, entries, blockFree + 1, blockCapacity) && Shed(old(entries), entries)
    {
      hide InUse, NoDup;
      if blockFree == 0 {
        CollectBlocks();
      }
      blockFree := blockFree - 1;
    }

    /** nffs_cache_inode_range: where the cached run starts in the file, and where it ends, which is at most
        where its last block ends; 0 and 0 if there is none. */
    method InodeRange(x: Id) returns (start: nat, end: nat)
      requires Valid() && x in entries
      ensures
        var n := |entries[x].blocks|;
        if n == 0 then start == end == 0 else
          && start == Off(View(), Ids(x), First(x)) < end <= Off(View(), Ids(x), First(x) + n)
          && (Exact(Trusted(x), First(x) + n - 1) ==> end == Off(View(), Ids(x), First(x) + n))
          && end == entries[x].blocks[n - 1].off + entries[x].blocks[n - 1].len
    {
      hide Mounted, CacheOk, PoolOk, ViewOf, AllLive, Off, Exact;
      InFiles(View(), files, entries, first, doubt, x);
      var b := entries[x].blocks;
      if b == [] {
        return 0, 0;
      }
      RunRange(View(), Ids(x), First(x), b, Trusted(x));
      return b[0].off, b[|b| - 1].off + b[|b| - 1].len;
    }

    /** nffs_cache_block_populate: what flash says about block `k - 1`, which ends at `end`. */
    method BlockPopulate(x: Id, entry: Id, end: nat, ghost k: nat) returns (cb: CacheBlock)
      requires OnDisk() && x in files && 1 <= k <= |Ids(x)| && entry == Ids(x)[k - 1] && end == Off(View(), Ids(x), k)
      ensures cb == EntryOf(View(), Ids(x), k - 1)
    {
      hide Live, BlockAt, Chain, Linked, AllLive, Off, EntryOf, Mounted;
      ChainFacts(vol.disk, vol.index, files, x);
      SeekRead(View(), x, Ids(x), k);
      OffStep(View(), Ids(x), k);
      ViewHeader(vol.disk, vol.index, entry);
      var rc, block := vol.BlockFromEntry(entry);
      cb := CacheBlock(entry, block.prev, block.dataLen, end - block.dataLen);
    }

    /** The part of nffs_cache_seek that caches the block before the run. */
    method PrependBlock(x: Id, entry: Id, end: nat, ghost seek: nat, ghost start: nat, ghost k: nat)
      requires Valid() && x in entries
      requires Seeking(View(), Ids(x), entries[x], First(x), Trusted(x), seek, start, Before, k, entry, end, -1)
      modifies this`entries, this`blockFree, this`first
      ensures Valid() && SameSizes(old(entries), entries) && x in entries && entries[x].blocks != []
      ensures 1 <= k <= |Ids(x)| && entries[x].blocks[0] == EntryOf(View(), Ids(x), k - 1) && First(x) == k - 1
      ensures if Off(View(), Ids(x), k - 1) <= seek then Sought(View(), Ids(x), entries[x], First(x), Trusted(x), seek,
              0) else
              Seeking(View(), Ids(x), entries[x], First(x), Trusted(x), seek, start, Before, k - 1,
                      EntryOf(View(), Ids(x), k - 1).prev, Off(View(), Ids(x), k - 1), -1)
    {
      hide Mounted, CacheOk, PoolOk, ViewOf, Coherent, Off, Shed, SameSizes, AllLive, Chain, EntryOf, Sought, ShedOne;
      ghost var v, ids, e := View(), Ids(x), entries;
      InFiles(v, files, entries, first, doubt, x);
      BlockAcquire();
      ghost var e1 := entries;
      ShedFacts(v, files, e, e1, first, doubt, x);
      ChainFacts(vol.disk, vol.index, files, x);
      SeekPrepend(v, x, ids, e[x], e1[x], first[x], Trusted(x), seek, start, k, entry, end);
      var cb := BlockPopulate(x, entry, end, k);
      PoolInsert(order, entries, blockFree, blockCapacity, x, entries[x].(blocks := [cb] + entries[x].blocks));
      UpdateOk(v, files, entries, first, doubt, x, entries[x].(blocks := [cb] + entries[x].blocks), k - 1);
      entries := entries[x := entries[x].(blocks := [cb] + entries[x].blocks)];
      first := first[x := k - 1];
      SizesUpdate(e, e1, entries, x);
    }

    /** The part of nffs_cache_seek that caches a block found behind the run. */
    method AppendBlock(x: Id, cb: CacheBlock, ghost seek: nat, ghost start: nat, ghost k: nat, ghost entry: Id,
        ghost end: nat) returns (pos: nat)
      requires Valid() && x in entries
      requires Seeking(View(), Ids(x), entries[x], First(x), Trusted(x), seek, start, After, k, entry, end, -1)
      requires 1 <= k <= |Ids(x)| && cb == EntryOf(View(), Ids(x), k - 1) && Off(View(), Ids(x), k - 1) <= seek
      modifies this`entries, this`blockFree, this`first
      ensures Valid() && SameSizes(old(entries), entries) && x in entries
      ensures Sought(View(), Ids(x), entries[x], First(x), Trusted(x), seek, pos)
    {
      hide Mounted, CacheOk, PoolOk, ViewOf, Off, Shed, SameSizes, AllLive, Chain, EntryOf, ShedOne, Coherent, Run;
      ghost var v, ids, e := View(), Ids(x), entries;
      InFiles(v, files, entries, first, doubt, x);
      BlockAcquire();
      ghost var e1 := entries;
      ShedFacts(v, files, e, e1, first, doubt, x);
      ChainFacts(vol.disk, vol.index, files, x);
      SeekAppend(v, x, ids, e[x], e1[x], first[x], Trusted(x), seek, start, k, entry, end);
      var b := entries[x].blocks;
      if b != [] && b[|b| - 1].id == cb.prev {
        PoolInsert(order, entries, blockFree, blockCapacity, x, entries[x].(blocks := b + [cb]));
        UpdateOk(v, files, entries, first, doubt, x, entries[x].(blocks := b + [cb]), first[x]);
        entries := entries[x := entries[x].(blocks := b + [cb])];
        first := first[x := first[x]];
        pos := |b|;
      } else {
        PoolHas(order, entries, blockFree, blockCapacity, x);
        InodeFreeBlocks(x, blockCapacity - 1);
        PoolInsert(order, entries, blockFree, blockCapacity, x, entries[x].(blocks := [cb]));
        UpdateOk(v, files, e1, first, doubt, x, entries[x].(blocks := [cb]), k - 1);
        entries := entries[x := entries[x].(blocks := [cb])];
        assert entries == e1[x := entries[x]];
        first := first[x := k - 1];
        pos := 0;
      }
      SizesUpdate(e, e1, entries, x);
    }

    /** nffs_cache_seek: the cached block that holds offset `seek`, or the last block
        of the file if the offset is beyond its end. */
    method CacheSeek(x: Id, seek: nat) returns (rc: Rc, pos: int)
      requires Valid() && x in entries
      requires Trusted(x).sized || (entries[x].blocks != [] && seek < Off(View(), Ids(x), First(x)))
      modifies this`entries, this`blockFree, this`first
      ensures Valid() && SameSizes(old(entries), entries)
      ensures rc == if old(entries)[x].fileSize == 0 then ErrNoEntry else Ok
      ensures rc == Ok ==> x in entries && Sought(View(), Ids(x), entries[x], First(x), Trusted(x), seek, pos)
    {
      hide Mounted, CacheOk, PoolOk, ViewOf, Off, AllLive, Chain, EntryOf, Coherent, Run, Sought, Seeking;
      if entries[x].fileSize == 0 {
        return ErrNoEntry, -1;
      }
      ghost var v, ids, t := View(), Ids(x), Trusted(x);
      InFiles(v, files, entries, first, doubt, x);
      ChainFacts(vol.disk, vol.index, files, x);
      var start, end := InodeRange(x);
      SeekBegin(v, x, ids, entries[x], first[x], t, seek, start, end);
      var blockEntry, blockEnd;
      ghost var mode;
      ghost var k: nat;
      var blocks := entries[x].blocks;
      pos := -1;
      if end != 0 && seek < start {
        blockEntry, blockEnd := blocks[0].prev, blocks[0].off;
        mode, k := Before, first[x];
      } else if seek < end {
        pos := |blocks| - 1;
        blockEntry, blockEnd := blocks[pos].id, end;
        mode, k := Through, first[x] + |blocks|;
      } else {
        blockEntry, blockEnd := vol.index.inodes[x].last, entries[x].fileSize;
        mode, k := After, |ids|;
      }
      while true
        invariant Valid() && SameSizes(old(entries), entries) && x in entries
        invariant View() == v && Ids(x) == ids
        invariant Seeking(v, ids, entries[x], First(x), t, seek, start, mode, k, blockEntry, blockEnd, pos)
        decreases k
      {
        SeekMode(v, ids, entries[x], First(x), t, seek, start, mode, k, blockEntry, blockEnd, pos);
        ghost var c, s := entries[x], First(x);
        if blockEnd <= start {
          PrependBlock(x, blockEntry, blockEnd, seek, start, k);
          pos := 0;
        }
        var cb;
        if pos >= 0 {
          if mode == Through {
            SeekThrough(v, x, ids, c, s, t, seek, start, k, blockEntry, blockEnd, pos);
          }
          cb := entries[x].blocks[pos];
        } else {
          cb := BlockPopulate(x, blockEntry, blockEnd, k);
        }
        EntryOff(v, ids, k - 1);
        if cb.off <= seek {
          if pos == -1 {
            pos := AppendBlock(x, cb, seek, start, k, blockEntry, blockEnd);
          }
          return Ok, pos;
        }
        if mode == After {
          SeekBack(v, x, ids, c, s, t, seek, start, k, blockEntry, blockEnd);
        }
        if pos >= 0 {
          pos := pos - 1;
        }
        blockEntry, blockEnd := cb.prev, cb.off;
        k := k - 1;
      }
    }

    /** nffs_inode_calc_data_length */
    method CalcDataLength(x: Id) returns (rc: Rc, len: nat)
      requires OnDisk() && x in files
      ensures rc == Ok && len == Off(View(), Ids(x), |Ids(x)|)
    {
      hide Mounted, Live, AllLive, Chain, Off, EntryOf, BlockAt, HeaderAt, Within;
      ghost var v, ids := View(), Ids(x);
      ChainFacts(vol.disk, vol.index, files, x);
      len := 0;
      rc := Ok;
      var cur := vol.index.inodes[x].last;
      ghost var k := |ids|;
      assert ids[..k] == ids;
      while cur != NFFS_ID_NONE
        invariant 0 <= k <= |ids| && rc == Ok && cur == LastOr(NFFS_ID_NONE, ids[..k])
        invariant len + Off(v, ids, k) == Off(v, ids, |ids|)
        decreases k
      {
        SeekRead(v, x, ids, k);
        OffStep(v, ids, k);
        ViewHeader(vol.disk, vol.index, cur);
        var block;
        rc, block := vol.BlockFromEntry(cur);
        len := len + block.dataLen;
        cur := block.prev;
        k := k - 1;
      }
      WalkDone(v, x, ids, k);
    }

    /** nffs_cache_inode_acquire: an element comes off the inode pool, if need be at
        the expense of the least recent cached inode. */
    method InodeAcquire()
      requires Valid()
      modifies this`order, this`entries, this`blockFree, this`inodeFree
      ensures OnDisk() && CacheOk(View(), files, entries, first, doubt) &&
              PoolOk(order, entries, blockFree, blockCapacity)
      ensures inodeFree + 1 + |order| == inodeCapacity && Kept(old(entries), entries)
      ensures order == old(order)[..if old(inodeFree) == 0 then |old(order)| - 1 else |old(order)|]
    {
      hide Mounted, CacheOk, ViewOf, AllLive, InUse, NoDup;
      if inodeFree == 0 {
        var n := |order| - 1;
        var x := order[n];
        ghost var e := entries;
        InodeFreeBlocks(x, blockCapacity);
        PoolDropLast(order, entries, blockFree, blockCapacity);
        CacheWithout(View(), files, e, entries, first, doubt, x);
        entries := map i | i in entries && i != x :: entries[i];
        order := order[..n];
        inodeFree := inodeFree + 1;
      }
      inodeFree := inodeFree - 1;
    }

    /** nffs_cache_inode_ensure */
    method InodeEnsure(x: Id) returns (rc: Rc)
      requires Valid() && x in files
      modifies this`order, this`entries, this`blockFree, this`inodeFree, this`first, this`doubt
      ensures rc == Ok && Valid() && x in entries && (Trusted(x).sized ==>
              entries[x].fileSize == Off(View(), Ids(x), |Ids(x)|))
      ensures if x in old(entries) then doubt == old(doubt) else doubt == old(doubt) - {x}
      ensures order == if x in old(entries) then old(order)
              else [x] + old(order)[..if old(inodeFree) == 0 then |old(order)| - 1 else |old(order)|]
    {
      hide Mounted, CacheOk, ViewOf, AllLive, InUse, NoDup, Off, Kept, Run, PoolOk;
      if x in entries {
        InFiles(View(), files, entries, first, doubt, x);
        return Ok;
      }
      InodeAcquire();
      var len;
      rc, len := CalcDataLength(x);
      Absent(entries, old(entries), x);
      PoolInsertHead(order, entries, blockFree, blockCapacity, x, CacheInode(len, []));
      CacheInsert(View(), files, entries, first, doubt, x, CacheInode(len, []));
      entries := entries[x := CacheInode(len, [])];
      order := [x] + order;
      first := first[x := 0];
      doubt := doubt - {x};
    }

    /** What a plain walk of the chain gives. */
    ghost function FileData(x: Id): seq<byte>
      reads this, vol
    {
      if Within(View(), Ids(x)) then Contents(View(), Ids(x)) else []
    }

    /** The loop of nffs_inode_read: fill the buffer from its end, block by block. */
    method ReadBlocks(x: Id, offset: nat, srcEnd: nat) returns (rc: Rc, data: seq<byte>)
      requires Valid() && x in entries && Trusted(x).sized && Ends(Trusted(x), Ids(x)) && Within(View(), Ids(x)) &&
               offset <= srcEnd <= |Contents(View(), Ids(x))|
      modifies this`entries, this`blockFree, this`first
      ensures rc == Ok && Valid()
      ensures data == Contents(View(), Ids(x))[offset..srcEnd]
    {
      hide Mounted, CacheOk, ViewOf, AllLive, Chain, EntryOf, Run, PoolOk, Off, Contents, Linked, Within, SameSizes,
          Reading, Sought, Coherent, Ends;
      ghost var v, ids, t := View(), Ids(x), Trusted(x);
      ghost var j: nat := 0;
      InFiles(v, files, entries, first, doubt, x);
      SizeOf(v, ids, entries[x], first[x], t);
      ChainFacts(vol.disk, vol.index, files, x);
      OnDiskValid(vol.disk, vol.index, files);
      var dstOff := srcEnd - offset;
      var srcOff := srcEnd;
      var pos := -1;
      data := [];
      rc := Ok;
      while dstOff > 0
        invariant rc == Ok && Valid() && x in entries && View() == v && Ids(x) == ids
        invariant entries[x].fileSize == |Contents(v, ids)|
        invariant 0 <= dstOff <= srcEnd - offset && srcOff == offset + dstOff && pos >= -1
        invariant data == Contents(v, ids)[srcOff..srcEnd]
        invariant dstOff > 0 ==> AtBoundary(v, ids, srcOff, srcEnd, j)
        invariant dstOff > 0 && pos != -1 ==> Reading(v, ids, entries[x], First(x), t, pos, srcOff, srcEnd)
      {
        if pos == -1 {
          ghost var e := entries;
          rc, pos := CacheSeek(x, srcOff - 1);
          SizeKept(e, entries, x);
          ReadBegin(v, x, ids, entries[x], First(x), t, pos, srcOff, srcEnd, j);
        }
        ReadAt(v, ids, entries[x], First(x), t, pos, srcOff, srcEnd);
        var cb := entries[x].blocks[pos];
        var blockOff := if cb.off < offset then offset - cb.off else 0;
        var blockEnd := cb.off + cb.len;
        var chunk := cb.len - blockOff;
        if blockEnd > srcEnd {
          chunk := chunk - (blockEnd - srcEnd);
        }
        ReadStep(v, x, ids, entries[x], First(x), t, pos, offset, srcOff, srcEnd, blockOff, chunk);
        ViewBlock(vol.disk, vol.index, cb.id);
        var part;
        rc, part := vol.BlockReadData(cb.id, blockOff, chunk);
        JoinSlices(Contents(v, ids), srcOff - chunk, srcOff, srcEnd);
        j := First(x) + pos;
        dstOff := dstOff - chunk;
        srcOff := srcOff - chunk;
        data := part + data;
        pos := pos - 1;
      }
    }

    /** nffs_inode_read */
    method InodeRead(x: Id, offset: nat, len: nat) returns (rc: Rc, data: seq<byte>)
      requires Valid() && x in files && (x in entries ==> Trusted(x).sized && Ends(Trusted(x), Ids(x))) &&
               offset <= |FileData(x)|
      modifies this`order, this`entries, this`blockFree, this`inodeFree, this`first, this`doubt
      ensures rc == Ok && Valid() && (doubt == old(doubt) || doubt == old(doubt) - {x}) &&
              FileData(x) == old(FileData(x))
      ensures data == FileData(x)[offset..if offset + len > |FileData(x)| then |FileData(x)| else offset + len]
    {
      hide Mounted, CacheOk, ViewOf, AllLive, Chain, PoolOk, Off, Contents, Linked, Within;
      if len == 0 {
        return Ok, [];
      }
      rc := InodeEnsure(x);
      ChainFacts(vol.disk, vol.index, files, x);
      Whole(View(), Ids(x));
      var srcEnd := offset + len;
      if srcEnd > entries[x].fileSize {
        srcEnd := entries[x].fileSize;
      }
      rc, data := ReadBlocks(x, offset, srcEnd);
    }
  }

  lemma SizeOf(v: View, ids: seq<Id>, ci: CacheInode, s: nat, t: Trust)
    requires Within(v, ids) && Coherent(v, ids, ci, s, t) && t.sized
    ensures ci.fileSize == |Contents(v, ids)|
  {
    Whole(v, ids);
  }

  /** The ends of a cached run, as offsets in the file. */
  lemma RunRange(v: View, ids: seq<Id>, s: nat, b: seq<CacheBlock>, t: Trust)
    requires Run(v, ids, s, b, t) && b != []
    ensures
      var last := b[|b| - 1];
      && b[0].off == Off(v, ids, s) < last.off + last.len <= Off(v, ids, s + |b|)
      && (Exact(t, s + |b| - 1) ==> last.off + last.len == Off(v, ids, s + |b|))
  {
    assert EntryOk(v, ids, s + 0, b[0], t) && EntryOk(v, ids, s + (|b| - 1), b[|b| - 1], t);
    OffMono(v, ids, s, s + |b| - 1);
    OffStep(v, ids, s + |b|);
  }

  lemma JoinSlices(c: seq<byte>, a: nat, b: nat, e: nat)
    requires a <= b <= e <= |c|
    ensures c[a..b] + c[b..e] == c[a..e]
  {
  }

  lemma OnDiskValid(d: Disk, ix: Index, files: Files)
    requires Mounted(d, ix, files)
    ensures DiskOk(d) && AllLive(d, ix) && BlockIds(ix) && Disjoint(d, ix)
  {
  }

  lemma ViewBlock(d: Disk, ix: Index, b: Id)
    requires AllLive(d, ix)
    ensures b in ViewOf(d, ix) ==> b in ix.blocks
  {
  }

  lemma SizeKept(e: map<Id, CacheInode>, e': map<Id, CacheInode>, x: Id)
    requires SameSizes(e, e') && x in e
    ensures x in e' && e'[x].fileSize == e[x].fileSize
  {
  }

  lemma Whole(v: View, ids: seq<Id>)
    requires Within(v, ids)
    ensures Off(v, ids, |ids|) == |Contents(v, ids)|
  {
    OffContents(v, ids, |ids|);
    assert ids[..|ids|] == ids;
  }

  /** The last byte to read, at `to - 1`, is in cached block `pos`: at its end, unless the read ends there. */
  ghost predicate Reading(v: View, ids: seq<Id>, ci: CacheInode, s: nat, t: Trust, pos: int, to: nat, end: nat) {
    && Coherent(v, ids, ci, s, t) && Ends(t, ids) && 0 <= pos < |ci.blocks|
    && Off(v, ids, s + pos) < to <= ci.blocks[pos].off + ci.blocks[pos].len
    && (to == end || to == Off(v, ids, s + pos + 1))
  }

  /** What is left to read ends where block `j` starts, or nothing has been read. */
  ghost predicate AtBoundary(v: View, ids: seq<Id>, to: nat, end: nat, j: nat) {
    to == end || (j <= |ids| && to == Off(v, ids, j))
  }

  lemma ReadBegin(v: View, inode: Id, ids: seq<Id>, ci: CacheInode, s: nat, t: Trust, pos: int, to: nat, end: nat,
      j: nat)
    requires Linked(v, inode, NFFS_ID_NONE, ids) && Within(v, ids) && 0 < to <= end <= |Contents(v, ids)|
    requires Sought(v, ids, ci, s, t, to - 1, pos) && AtBoundary(v, ids, to, end, j) && Ends(t, ids)
    ensures Reading(v, ids, ci, s, t, pos, to, end)
  {
    hide Linked, EntryOk, Contents;
    Whole(v, ids);
    if to != end {
      if j <= s + pos {
        OffMono(v, ids, j, s + pos);
      } else if j > s + pos + 1 {
        OffLess(v, inode, ids, s + pos + 1, j);
      }
    }
  }

  lemma ReadAt(v: View, ids: seq<Id>, ci: CacheInode, s: nat, t: Trust, pos: int, to: nat, end: nat)
    requires Reading(v, ids, ci, s, t, pos, to, end)
    ensures 0 <= pos < |ci.blocks| && ci.blocks[pos].len > 0
  {
    assert EntryOk(v, ids, s + pos, ci.blocks[pos], t);
  }

  lemma ReadStep(v: View, inode: Id, ids: seq<Id>, ci: CacheInode, s: nat, t: Trust, pos: int, from: nat, to: nat,
      end: nat, blockOff: nat, chunk: int)
    requires Linked(v, inode, NFFS_ID_NONE, ids) && Within(v, ids) && Reading(v, ids, ci, s, t, pos, to, end) &&
             from < to <= end
    requires var cb := ci.blocks[pos];
             && blockOff == (if cb.off < from then from - cb.off else 0)
             && chunk == cb.len - blockOff - (if cb.off + cb.len > end then cb.off + cb.len - end else 0)
    ensures to <= |Contents(v, ids)|
    ensures ci.blocks[pos].id in v && 0 < chunk <= to - from && blockOff + chunk <= |v[ci.blocks[pos].id].data|
    ensures v[ci.blocks[pos].id].data[blockOff..blockOff + chunk] == Contents(v, ids)[to - chunk..to]
    ensures to - chunk > from ==> AtBoundary(v, ids, to - chunk, end, s + pos)
    ensures to - chunk > from && pos > 0 ==> Reading(v, ids, ci, s, t, pos - 1, to - chunk, end)
  {
    hide Linked, Contents, Off, Within;
    assert EntryOk(v, ids, s + pos, ci.blocks[pos], t);
    BlockSlice(v, ids, s + pos);
    OffStep(v, ids, s + pos + 1);
    OffMono(v, ids, s + pos + 1, |ids|);
    SubSlice(Contents(v, ids), Off(v, ids, s + pos), Off(v, ids, s + pos + 1), blockOff, blockOff + chunk);
    if pos > 0 {
      assert EntryOk(v, ids, s + (pos - 1), ci.blocks[pos - 1], t);
      OffLess(v, inode, ids, s + pos - 1, s + pos);
      OffStep(v, ids, s + pos);
    }
  }

  /** A block that a read takes to its end is put in its place if and only if its cached length is right. */
  lemma ReadPlace(v: View, ids: seq<Id>, ci: CacheInode, s: nat, t: Trust, pos: int, from: nat, to: nat, end: nat,
      blockOff: nat, chunk: int)
    requires Coherent(v, ids, ci, s, t) && 0 <= pos < |ci.blocks| && from < to == Off(v, ids, s + pos + 1) <= end
    requires var cb := ci.blocks[pos];
             && blockOff == (if cb.off < from then from - cb.off else 0)
             && chunk == cb.len - blockOff - (if cb.off + cb.len > end then cb.off + cb.len - end else 0)
    ensures Off(v, ids, s + pos) + blockOff == to - chunk <==> ci.blocks[pos].len == Len(v, ids[s + pos])
  {
    assert EntryOk(v, ids, s + pos, ci.blocks[pos], t);
    OffStep(v, ids, s + pos + 1);
  }

  /** The number of bytes nffs_inode_read sets out to read, in 32 bits. */
  function ReadLength(offset: nat, len: nat, size: nat): nat {
    ((if offset + len > size then size else offset + len) - offset) % WORD32
  }

  /** It is what is asked for or less, and there, if and only if the offset is not beyond the file. */
  lemma ReadLengthHolds(offset: nat, len: nat, size: nat)
    requires 0 < len && offset + len < WORD32 && size < WORD32
    ensures ReadLength(offset, len, size) <= len <==> offset <= size
    ensures offset <= size ==> offset + ReadLength(offset, len, size) <= size
  {
  }

  /** The last inode of the list that has any cached blocks has given them up, and no other has. */
  ghost predicate LastSheds(order: seq<Id>, e: map<Id, CacheInode>, e': map<Id, CacheInode>) {
    exists k :: 0 <= k < |order| && order[k] in e && e[order[k]].blocks != [] &&
                e' == e[order[k] := e[order[k]].(blocks := [])] &&
                forall j :: k < j < |order| ==> order[j] in e && e[order[j]].blocks == []
  }

  /** Some cached inodes may have gone. */
  ghost predicate Kept(e: map<Id, CacheInode>, e': map<Id, CacheInode>) {
    forall i :: i in e' ==> i in e && e'[i] == e[i]
  }

  lemma Absent(e': map<Id, CacheInode>, e: map<Id, CacheInode>, x: Id)
    requires Kept(e, e') && x !in e
    ensures x !in e'
  {
  }

  lemma WalkDone(v: View, inode: Id, ids: seq<Id>, k: nat)
    requires Linked(v, inode, NFFS_ID_NONE, ids) && k <= |ids| && LastOr(NFFS_ID_NONE, ids[..k]) == NFFS_ID_NONE
    ensures k == 0 && Off(v, ids, 0) == 0
  {
    if k > 0 {
      LinkedAt(v, inode, NFFS_ID_NONE, ids, k - 1);
    }
  }

  lemma CacheWithout(v: View, files: Files, e: map<Id, CacheInode>, e1: map<Id, CacheInode>, first: map<Id, nat>,
      doubt: map<Id, Trust>, x: Id)
    requires CacheOk(v, files, e, first, doubt) && x in e && e1 == e[x := e[x].(blocks := [])]
    ensures CacheOk(v, files, map i | i in e1 && i != x :: e1[i], first, doubt)
  {
    hide Coherent;
  }

  lemma CacheInsert(v: View, files: Files, e: map<Id, CacheInode>, first: map<Id, nat>, doubt: map<Id, Trust>, x: Id,
      ci: CacheInode)
    requires CacheOk(v, files, e, first, doubt) && x !in e && x in files &&
             ci == CacheInode(Off(v, files[x], |files[x]|), [])
    ensures CacheOk(v, files, e[x := ci], first[x := 0], doubt - {x})
  {
    hide Off;
    assert Coherent(v, files[x], ci, 0, FULL);
    forall i | i in e && i != x
      ensures Coherent(v, files[i], e[i], first[i], TrustIn(doubt - {x}, i))
    {
    }
  }

  lemma {:induction false} InUseJoin(a: seq<Id>, b: seq<Id>, e: map<Id, CacheInode>)
    ensures InUse(a + b, e) == InUse(a, e) + InUse(b, e)
    decreases |a|
  {
    if a == [] {
      assert a + b == b;
    } else {
      assert (a + b)[1..] == a[1..] + b;
      InUseJoin(a[1..], b, e);
    }
  }

  lemma {:induction false} InUseFrame(a: seq<Id>, e: map<Id, CacheInode>, e': map<Id, CacheInode>)
    requires forall i :: i in a ==> i in e && i in e' && e'[i] == e[i]
    ensures InUse(a, e') == InUse(a, e)
    decreases |a|
  {
    if a != [] {
      assert a[0] in a;
      assert forall i :: i in a[1..] ==> i in a;
      InUseFrame(a[1..], e, e');
    }
  }

  lemma PoolDropLast(order: seq<Id>, e: map<Id, CacheInode>, free: nat, capacity: nat)
    requires PoolOk(order, e, free, capacity) && order != [] && e[order[|order| - 1]].blocks == []
    ensures
      var x := order[|order| - 1];
      var e' := map i | i in e && i != x :: e[i];
      PoolOk(order[..|order| - 1], e', free, capacity)
  {
    var n := |order| - 1;
    var x := order[n];
    var e' := map i | i in e && i != x :: e[i];
    assert order == order[..n] + [x];
    NoDupJoin(order[..n], [x]);
    InUseJoin(order[..n], [x], e);
    assert InUse([x], e) == 0 + InUse([], e);
    InUseFrame(order[..n], e, e');
  }

  lemma PoolInsertHead(order: seq<Id>, e: map<Id, CacheInode>, free: nat, capacity: nat, x: Id, ci: CacheInode)
    requires PoolOk(order, e, free, capacity) && x !in e && ci.blocks == []
    ensures PoolOk([x] + order, e[x := ci], free, capacity)
  {
    assert ([x] + order)[1..] == order;
    InUseFrame(order, e, e[x := ci]);
  }

  lemma EntryOff(v: View, ids: seq<Id>, k: nat)
    requires k < |ids|
    ensures EntryOf(v, ids, k).off == Off(v, ids, k)
  {
  }

  lemma SeekMode(v: View, ids: seq<Id>, ci: CacheInode, s: nat, t: Trust, seek: nat, start: nat, mode: Mode, k: nat,
      entry: Id, end: nat, pos: int)
    requires Seeking(v, ids, ci, s, t, seek, start, mode, k, entry, end, pos)
    ensures 1 <= k <= |ids| && entry == ids[k - 1]
    ensures match mode
            case Before => pos == -1 && end == Off(v, ids, k) <= start
            case Through => pos >= 0 && start < end
            case After => pos == -1 && start < end == Off(v, ids, k)
  {
  }

  lemma PoolHas(order: seq<Id>, e: map<Id, CacheInode>, free: nat, capacity: nat, x: Id)
    requires PoolOk(order, e, free + 1, capacity) && x in e
    ensures NoDup(order) && x in order && free + InUse(order, e) == capacity - 1
    ensures forall f: nat, e': map<Id, CacheInode> {:trigger PoolOk(order, e', f, capacity)} ::
              e'.Keys == e.Keys && f + InUse(order, e') == capacity ==> PoolOk(order, e', f, capacity)
  {
  }

  ghost predicate SameSizes(e: map<Id, CacheInode>, e': map<Id, CacheInode>) {
    e'.Keys == e.Keys && forall i :: i in e ==> e'[i].fileSize == e[i].fileSize
  }

  lemma SizesUpdate(e: map<Id, CacheInode>, e1: map<Id, CacheInode>, e2: map<Id, CacheInode>, x: Id)
    requires Shed(e, e1) && x in e && e2.Keys == e1.Keys && (forall i :: i in e1 && i != x ==> e2[i] == e1[i]) &&
             e2[x].fileSize == e1[x].fileSize
    ensures SameSizes(e, e2)
  {
    forall i | i in e
      ensures e2[i].fileSize == e[i].fileSize
    {
      assert ShedOne(e[i], e1[i]);
    }
  }

  lemma ShedFacts(v: View, files: Files, e: map<Id, CacheInode>, e': map<Id, CacheInode>, first: map<Id, nat>,
      doubt: map<Id, Trust>, x: Id)
    requires CacheOk(v, files, e, first, doubt) && Shed(e, e') && x in e
    ensures CacheOk(v, files, e', first, doubt) && x in e' && ShedOne(e[x], e'[x]) && e'.Keys == e.Keys
  {
    hide Coherent;
    ShedOk(v, files, e, e', first, doubt);
  }

  lemma InFiles(v: View, files: Files, e: map<Id, CacheInode>, first: map<Id, nat>, doubt: map<Id, Trust>, x: Id)
    requires CacheOk(v, files, e, first, doubt) && x in e
    ensures x in files && x in first && Coherent(v, files[x], e[x], first[x], TrustIn(doubt, x))
  {
  }

  /** A block taken from the pool has been added to the list of inode `x`. */
  lemma PoolInsert(order: seq<Id>, e: map<Id, CacheInode>, free: nat, capacity: nat, x: Id, ci: CacheInode)
    requires PoolOk(order, e, free + 1, capacity) && x in e && |ci.blocks| == |e[x].blocks| + 1
    ensures PoolOk(order, e[x := ci], free, capacity)
  {
    hide NoDup, InUse;
    InUseUpdate(order, e, x, ci);
  }

  lemma ChainFacts(d: Disk, ix: Index, files: Files, x: Id)
    requires Mounted(d, ix, files) && x in files
    ensures AllLive(d, ix) && DiskOk(d)
    ensures Chain(ViewOf(d, ix), x, files[x]) && Linked(ViewOf(d, ix), x, NFFS_ID_NONE, files[x]) && x in ix.inodes
    ensures Within(ViewOf(d, ix), files[x]) && ix.inodes[x].last == LastOr(NFFS_ID_NONE, files[x])
  {
    hide Linked, NoDup, Live, BlockAt, AllLive, Owned, RecordsOk;
    ChainWithin(ViewOf(d, ix), ix, files, x);
    assert FileIn(ViewOf(d, ix), ix, x, files[x]);
  }

  lemma OffStep(v: View, ids: seq<Id>, k: nat)
    requires 1 <= k <= |ids|
    ensures Off(v, ids, k) == Off(v, ids, k - 1) + Len(v, ids[k - 1])
  {
  }
}
