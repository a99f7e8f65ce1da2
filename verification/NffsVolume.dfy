/** The mounted volume: flash access, block lookup and garbage collection, as
    they run. */
module NffsVolume {
  import opened Common
  import opened Bytes
  import opened NffsChain
  import opened NffsDisk
  import opened NffsIndex
  import opened NffsPlace

  const NFFS_FLASH_BUF_SZ := 256

  class Volume {
    var disk: Disk
    var index: Index
    /** nffs_block_max_data_sz */
    var maxDataSize: nat
    /** The longest block of memory that malloc has to give. */
    var heap: nat

    ghost predicate Valid()
      reads this
    {
      DiskOk(disk) && AllLive(disk, index) && BlockIds(index) && Disjoint(disk, index)
    }

    ghost function View(): View
      requires Valid()
      reads this
    {
      ViewOf(disk, index)
    }

    /** nffs_flash_read */
    method FlashRead(area: nat, off: nat, len: nat) returns (rc: Rc, data: seq<byte>)
      requires area < |disk.areas|
      ensures rc == Ok <==> InArea(disk, area, off, len)
      ensures rc == Ok ==> data == ReadBytes(disk, area, off, len)
    {
      if off + len > |disk.areas[area].data| {
        return ErrRange, [];
      }
      return Ok, disk.areas[area].data[off..off + len];
    }

    /** nffs_flash_write: a write must not reach back before the end of what is written. */
    method FlashWrite(area: nat, off: nat, data: seq<byte>) returns (rc: Rc)
      requires DiskOk(disk) && area < |disk.areas|
      modifies this`disk
      ensures rc == Ok <==> CanWrite(old(disk), area, off, |data|)
      ensures rc == Ok ==> disk == WriteBytes(old(disk), area, off, data)
      ensures rc != Ok ==> disk == old(disk)
      ensures DiskOk(disk) && (rc == Ok ==> Extends(old(disk), disk)) && OnlyArea(old(disk), disk, area)
    {
      if off + |data| > |disk.areas[area].data| {
        return ErrRange;
      }
      if off < disk.areas[area].cur {
        return ErrRange;
      }
      WriteExtends(disk, area, off, data);
      var bytes := disk.areas[area].data;
      disk := Disk(disk.areas[area := Area(bytes[..off] + data + bytes[off + |data|..], off + |data|)]);
      return Ok;
    }

    /** nffs_flash_copy: through a buffer, a chunk at a time; what has been copied before a write fails
        stays. */
    method FlashCopy(fromArea: nat, fromOff: nat, toArea: nat, toOff: nat, len: nat) returns (rc: Rc)
      requires DiskOk(disk) && fromArea < |disk.areas| && fromOff + len <= disk.areas[fromArea].cur
      requires len > 0 && toArea < |disk.areas|
      modifies this`disk
      ensures DiskOk(disk) && Extends(old(disk), disk)
      ensures rc == if CanWrite(old(disk), toArea, toOff, len) then Ok else ErrRange
      ensures OnlyArea(old(disk), disk, toArea)
      ensures rc == Ok ==> disk == WriteBytes(old(disk), toArea, toOff, ReadBytes(old(disk), fromArea, fromOff, len))
    {
      hide Extends, WriteBytes;
      ghost var d0 := disk;
      ghost var fits := CanWrite(d0, toArea, toOff, len);
      ExtendsSelf(disk);
      ghost var raw := ReadBytes(disk, fromArea, fromOff, len);
      var done := 0;
      while done < len
        invariant 0 <= done <= len
        invariant DiskOk(disk) && Extends(d0, disk) && (done > 0 ==> CanWrite(d0, toArea, toOff, done))
        invariant fits ==> PartWritten(d0, disk, toArea, toOff, raw, done)
        invariant OnlyArea(d0, disk, toArea)
      {
        var chunk := if len - done > NFFS_FLASH_BUF_SZ then NFFS_FLASH_BUF_SZ else len - done;
        var buf;
        ReadExtends(d0, disk, fromArea, fromOff + done, chunk);
        ReadPart(d0, fromArea, fromOff, len, done, chunk);
        SameLength(d0, disk, toArea);
        if fits {
          WriteNext(d0, disk, toArea, toOff, raw, done, chunk);
        }
        rc, buf := FlashRead(fromArea, fromOff + done, chunk);
        ghost var d1 := disk;
        rc := FlashWrite(toArea, toOff + done, buf);
        if rc != Ok {
          return ErrRange;
        }
        ExtendsTrans(d0, d1, disk);
        done := done + chunk;
      }
      assert raw[..len] == raw;
      rc := Ok;
    }

    /** nffs_block_from_hash_entry */
    method BlockFromEntry(b: Id) returns (rc: Rc, block: BlockInfo)
      requires DiskOk(disk) && b in index.blocks && Live(disk, index.blocks[b])
      ensures
        var h := HeaderAt(disk, index.blocks[b]);
        && rc == (if h.inodeId in index.inodes && (h.prevId == NFFS_ID_NONE || h.prevId in index.blocks) then Ok
            else ErrCorrupt)
        && (rc == Ok ==> block == BlockInfo(b, h.seqNum, h.inodeId, h.prevId, h.dataLen))
    {
      var loc := index.blocks[b];
      var raw;
      rc, raw := FlashRead(loc.area, loc.off, NFFS_DISK_BLOCK_SIZE);
      var h := Decode(raw);
      block := BlockInfo(b, h.seqNum, h.inodeId, NFFS_ID_NONE, h.dataLen);
      if h.magic != NFFS_BLOCK_MAGIC {
        return ErrUnexpected, block;
      }
      if h.inodeId !in index.inodes {
        return ErrCorrupt, block;
      }
      if h.prevId != NFFS_ID_NONE {
        if h.prevId !in index.blocks {
          return ErrCorrupt, block;
        }
        block := block.(prev := h.prevId);
      }
      return Ok, block;
    }

    // ------------------------------------------------- garbage collection

    /** nffs_gc_copy_object, for a block. */
    method GcCopyBlock(b: Id, objectSize: nat, to: nat) returns (rc: Rc)
      requires Valid() && b in index.blocks && to < |disk.areas|
      requires objectSize == NFFS_DISK_BLOCK_SIZE + |View()[b].data|
      requires NFFS_DISK_AREA_SIZE <= disk.areas[to].cur && disk.areas[to].cur + objectSize <= |disk.areas[to].data|
      modifies this`disk, this`index
      ensures rc == Ok && Valid() && View() == old(View()) && Labels(disk, index) == Labels(old(disk), old(index))
      ensures index == old(index).(blocks := old(index).blocks[b := Loc(to, old(disk).areas[to].cur)])
      ensures Entries(index) == Entries(old(index))
      ensures GrowsBy(old(disk), disk, to, objectSize)
    {
      hide Live, Extends, BlockAt, WriteBytes, Decode, CrcOf, Disjoint, LabelAt;
      var loc := index.blocks[b];
      var off := disk.areas[to].cur;
      ghost var d0, ix0 := disk, index;
      ViewHeader(disk, index, b);
      CopiedBlock(disk, loc, to, off);
      CopyGrows(disk, loc.area, loc.off, to, objectSize);
      rc := FlashCopy(loc.area, loc.off, to, off, objectSize);
      ViewExtends(d0, disk, index);
      ViewStore(disk, index, b, Loc(to, off));
      LabelsExtend(d0, disk, index);
      LabelsStore(disk, index, b, Loc(to, off));
      LabelCopied(d0, loc, disk, Loc(to, off));
      EntryStored(index, b, Loc(to, off));
      index := index.(blocks := index.blocks[b := Loc(to, off)]);
      BlockPlaced(d0, ix0, disk, index, b, to);
    }

    /** nffs_gc_block_chain_copy: move each block of the run, last to first. */
    method GcBlockChainCopy(lastEntry: Id, dataLen: nat, to: nat, ghost inode: Id, ghost prev: Id, ghost run: seq<Id>)
        returns (rc: Rc)
      requires Valid() && GcRun(View(), index, inode, prev, run) && to < |disk.areas|
      requires dataLen == |Contents(View(), run)| && (run != [] ==> lastEntry == run[|run| - 1])
      requires NFFS_DISK_AREA_SIZE <= disk.areas[to].cur &&
               disk.areas[to].cur + RunBytes(View(), run) <= |disk.areas[to].data|
      modifies this`disk, this`index
      ensures rc == Ok && Valid() && View() == old(View()) && Labels(disk, index) == Labels(old(disk), old(index))
      ensures index.inodes == old(index).inodes && index.nextBlockId == old(index).nextBlockId
      ensures Entries(index) == Entries(old(index))
      ensures Relocated(old(index).blocks, index.blocks, run, to)
      ensures GrowsBy(old(disk), disk, to, RunBytes(old(View()), run))
    {
      hide Live, Extends, BlockAt, Linked, NoDup, Contents, AllLive, Disjoint, Relocated, Decode, CrcOf, Labels,
          Entries;
      ghost var v := View();
      var copied := 0;
      var entry := lastEntry;
      ghost var m := |run|;
      rc := Ok;
      assert run[m..] == [] && run[..m] == run;
      NothingYet(v, disk, index.blocks, to);
      while copied < dataLen
        invariant 0 <= m <= |run| && (m > 0 ==> entry == run[m - 1])
        invariant Within(v, run[m..]) && copied == |Contents(v, run[m..])|
        invariant rc == Ok && Valid() && View() == v && Labels(disk, index) == Labels(old(disk), old(index))
        invariant index.inodes == old(index).inodes && index.nextBlockId == old(index).nextBlockId
        invariant Entries(index) == Entries(old(index))
        invariant index.blocks.Keys == old(index).blocks.Keys
        invariant Relocated(old(index).blocks, index.blocks, run[m..], to)
        invariant GrowsBy(old(disk), disk, to, RunBytes(v, run[m..]))
        decreases m
      {
        RunStep(v, inode, prev, run, m);
        ViewHeader(disk, index, entry);
        var block;
        ghost var d1, blocks1 := disk, index.blocks;
        rc, block := BlockFromEntry(entry);
        rc := GcCopyBlock(entry, NFFS_DISK_BLOCK_SIZE + block.dataLen, to);
        RelocateOne(old(index).blocks, blocks1, index.blocks, run, m, to);
        GrowsTwice(old(disk), d1, disk, to, RunBytes(v, run[m..]), NFFS_DISK_BLOCK_SIZE + block.dataLen);
        copied := copied + block.dataLen;
        entry := block.prev;
        m := m - 1;
      }
      RunEmpty(v, inode, prev, run, m);
    }

    /** nffs_block_delete_from_ram */
    method BlockDeleteFromRam(b: Id) returns (rc: Rc)
      requires Valid() && b in index.blocks && View()[b].inode in index.inodes
      requires View()[b].prev == NFFS_ID_NONE || View()[b].prev in index.blocks
      modifies this`index
      ensures rc == Ok && Valid() && View() == Without(old(View()), [b])
      ensures index.blocks == Drop(old(index).blocks, [b]) && index.nextBlockId == old(index).nextBlockId
      ensures index.free == old(index).free + 1 && Entries(index) == Entries(old(index))
      ensures
        var v := old(View());
        var i := old(index).inodes[v[b].inode];
        index.inodes == if i.last == b then old(index).inodes[v[b].inode := i.(last := v[b].prev)]
            else old(index).inodes
    {
      hide Live, BlockAt, Disjoint;
      ghost var ix0 := index;
      ViewHeader(disk, index, b);
      var block;
      rc, block := BlockFromEntry(b);
      ViewDrop(disk, index, [b]);
      ExtendsSelf(disk);
      if index.inodes[block.inode].last == b {
        index := index.(inodes := index.inodes[block.inode := index.inodes[block.inode].(last := block.prev)]);
      }
      index := index.(blocks := map x | x in index.blocks && x != b :: index.blocks[x], free := index.free + 1);
      assert index.blocks == Drop(old(index).blocks, [b]);
      EntryFreed(old(index).blocks, b, index.blocks);
      BlocksGone(disk, ix0, disk, index);
    }

    /** nffs_block_read_data */
    method BlockReadData(b: Id, off: nat, len: nat) returns (rc: Rc, data: seq<byte>)
      requires Valid() && b in index.blocks && off + len <= |View()[b].data|
      ensures rc == Ok && data == View()[b].data[off..off + len]
    {
      hide Live, BlockAt, Decode, CrcOf;
      ViewHeader(disk, index, b);
      ViewData(disk, index, b, off, len);
      var loc := index.blocks[b];
      rc, data := FlashRead(loc.area, loc.off + NFFS_DISK_BLOCK_SIZE + off, len);
    }

    /** Write a block, header first, at the end of an area. */
    method WriteBlock(area: nat, off: nat, h: Header, data: seq<byte>) returns (rc: Rc)
      requires DiskOk(disk) && area < |disk.areas| && off == disk.areas[area].cur
      requires GoodHeader(h, data) && off + NFFS_DISK_BLOCK_SIZE + |data| <= |disk.areas[area].data|
      modifies this`disk
      ensures rc == Ok && GrowsBy(old(disk), disk, area, NFFS_DISK_BLOCK_SIZE + |data|)
      ensures disk == WriteBytes(old(disk), area, off, BlockBytes(h, data))
      ensures Live(disk, Loc(area, off)) && BlockAt(disk, Loc(area, off)) == Block(h.inodeId, h.prevId, data)
      ensures LabelAt(disk, Loc(area, off)) == Label(h.id, h.seqNum)
    {
      hide Live, Extends, BlockAt, Encode, CrcOf, WriteBytes;
      WrittenBlock(disk, area, off, h, data);
      BlockGrows(disk, area, h, data);
      WriteJoin(disk, area, off, Encode(h), data);
      rc := FlashWrite(area, off, Encode(h));
      rc := FlashWrite(area, off + NFFS_DISK_BLOCK_SIZE, data);
    }

    /** The reading loop of nffs_gc_block_chain_collate: collect the data of the
        run, last block first, dropping every entry but the last.  `block` is the
        first block of the run and `entry` what precedes it. */
    method CollateRead(lastEntry: Id, dataLen: nat, ghost inode: Id, ghost prev: Id, ghost run: seq<Id>)
      returns (data: seq<byte>, block: BlockInfo, entry: Id)
      requires Valid() && GcRun(View(), index, inode, prev, run)
      requires run != [] && lastEntry == run[|run| - 1] && dataLen == |Contents(View(), run)|
      requires index.inodes[inode].last !in run[..|run| - 1]
      modifies this`index
      ensures Valid() && View() == Without(old(View()), run[..|run| - 1])
      ensures index == old(index).(blocks := Drop(old(index).blocks, run[..|run| - 1]), free := index.free)
      ensures Entries(index) == Entries(old(index))
      ensures data == Contents(old(View()), run) && entry == prev
      ensures block.inode == inode && block.id == run[0] && 0 <= block.seqNum < 0x1_0000_0000
      ensures run[0] in old(index).blocks && block.seqNum == LabelAt(disk, old(index).blocks[run[0]]).seqNum
    {
      hide Live, Extends, BlockAt, Linked, NoDup, Contents, AllLive, Decode, CrcOf, Drop, Without, Disjoint, LabelAt,
          Entries;
      ghost var v, n := View(), |run|;
      ghost var ix := index;
      data := [];
      entry := lastEntry;
      var dataOffset := dataLen;
      block := BlockInfo(lastEntry, 0, 0, NFFS_ID_NONE, 0);
      ghost var m := n;
      CollateStart(v, ix, run);
      while dataOffset > 0
        invariant 0 <= m <= n && Within(v, run[m..])
        invariant Valid()
        invariant View() == Without(v, Dropped(run, m)) && Entries(index) == Entries(ix)
        invariant index == ix.(blocks := Drop(ix.blocks, Dropped(run, m)), free := index.free)
        invariant data == Contents(v, run[m..]) && dataOffset == dataLen - |data|
        invariant m < n ==> block.inode == inode && block.id == run[m] && 0 <= block.seqNum < 0x1_0000_0000
        invariant m < n ==> run[m] in ix.blocks && block.seqNum == LabelAt(disk, ix.blocks[run[m]]).seqNum
        invariant entry == if m > 0 then run[m - 1] else prev
        decreases m
      {
        RunStep(v, inode, prev, run, m);
        CollateEntry(v, ix, inode, prev, run, m);
        ViewHeader(disk, index, entry);
        DropSame(ix.blocks, Dropped(run, m), entry);
        LabelIs(disk, index.blocks[entry]);
        var rc, chunk;
        rc, block := BlockFromEntry(entry);
        dataOffset := dataOffset - block.dataLen;
        rc, chunk := BlockReadData(entry, 0, block.dataLen);
        data := chunk + data;
        if entry != lastEntry {
          rc := BlockDeleteFromRam(entry);
        }
        CollateNext(v, ix, inode, prev, run, m);
        entry := block.prev;
        m := m - 1;
      }
      RunEmpty(v, inode, prev, run, m);
      CollateEnd(v, ix, inode, prev, run, m);
    }

    /** nffs_gc_block_chain_collate: read the run into RAM and write it back as one
        block, whose entry is the last one's.  The heap may be exhausted. */
    method GcBlockChainCollate(lastEntry: Id, dataLen: nat, to: nat, ghost inode: Id, ghost prev: Id,
        ghost run: seq<Id>) returns (rc: Rc)
      requires Valid() && GcRun(View(), index, inode, prev, run) && to < |disk.areas|
      requires run != [] && lastEntry == run[|run| - 1] && dataLen == |Contents(View(), run)| &&
               dataLen <= MAX_BLOCK_DATA
      requires index.inodes[inode].last !in run[..|run| - 1]
      requires NFFS_DISK_AREA_SIZE <= disk.areas[to].cur &&
               disk.areas[to].cur + NFFS_DISK_BLOCK_SIZE + dataLen <= |disk.areas[to].data|
      modifies this`disk, this`index
      ensures rc == if dataLen <= heap then Ok else ErrNoMemory
      ensures rc == ErrNoMemory ==> disk == old(disk) && index == old(index)
      ensures rc == Ok ==> Valid() && View() == Collated(old(View()), inode, prev, run)
      ensures rc == Ok ==> index == old(index).(blocks := Drop(old(index).blocks,
              run[..|run| - 1])[lastEntry := Loc(to, old(disk).areas[to].cur)], free := index.free)
      ensures Entries(index) == Entries(old(index))
      ensures rc == Ok ==> GrowsBy(old(disk), disk, to, NFFS_DISK_BLOCK_SIZE + dataLen)
      ensures rc == Ok ==> run[0] in old(index).blocks
      ensures rc == Ok ==>
                Labels(disk, index) ==
                Labels(old(disk), old(index).(blocks := Drop(old(index).blocks, run[..|run| - 1])))
                  [lastEntry := Supersedes(run[0], LabelAt(old(disk), old(index).blocks[run[0]]).seqNum)]
    {
      hide Live, BlockAt, Linked, NoDup, Contents, AllLive, CrcOf, Drop, Without, Disjoint, LabelAt, Labels, Entries;
      if dataLen > heap {
        return ErrNoMemory;
      }
      PrevFits(View(), disk, index, inode, prev, run);
      RunKnown(View(), index, inode, prev, run);
      var data, block, entry := CollateRead(lastEntry, dataLen, inode, prev, run);
      var h := Header(NFFS_BLOCK_MAGIC, block.id, (block.seqNum + 1) % 0x1_0000_0000, block.inode, entry, dataLen, 0);
      h := FillCrc(h, data);
      var off := disk.areas[to].cur;
      ghost var ix := index;
      rc := WriteBlock(to, off, h, data);
      ViewExtends(old(disk), disk, ix);
      ViewStore(disk, ix, lastEntry, Loc(to, off));
      LabelsExtend(old(disk), disk, ix);
      LabelsStore(disk, ix, lastEntry, Loc(to, off));
      LabelsSame(old(disk), ix, old(index).(blocks := ix.blocks));
      LastStays(old(index).blocks, run);
      EntryStored(ix, lastEntry, Loc(to, off));
      index := index.(blocks := index.blocks[lastEntry := Loc(to, off)]);
      BlockPlaced(old(disk), ix, disk, index, lastEntry, to);
    }

    /** nffs_gc_block_chain: copy a single block, collate several, and fall back to
        copying when the heap is exhausted.  `run'` replaces `run` in the chain. */
    method GcBlockChain(lastEntry: Id, multiple: bool, dataLen: nat, to: nat, ghost inode: Id, ghost pre: seq<Id>,
        ghost run: seq<Id>, ghost post: seq<Id>)
      returns (rc: Rc, ghost run': seq<Id>, ghost grown: nat)
      requires Valid() && FileIn(View(), index, inode, pre + run + post) && to < |disk.areas|
      requires Within(View(), run) && dataLen == |Contents(View(), run)| && dataLen <= MAX_BLOCK_DATA
      requires run != [] ==> lastEntry == run[|run| - 1]
      requires multiple <==> |run| > 1
      requires NFFS_DISK_AREA_SIZE <= disk.areas[to].cur &&
               disk.areas[to].cur + RunBytes(View(), run) <= |disk.areas[to].data|
      modifies this`disk, this`index
      ensures rc == Ok && Valid()
      ensures index.inodes == old(index).inodes && index.nextBlockId == old(index).nextBlockId
      ensures Replaced(old(View()), old(index).blocks, View(), index.blocks, inode, pre, run, run', post, to)
      ensures grown <= RunBytes(old(View()), run) && GrowsBy(old(disk), disk, to, grown)
      ensures Entries(index) == Entries(old(index))
      ensures Labelled(disk, index) <==> Labelled(old(disk), old(index)) && run' == run
      ensures run' == run || |run'| < |run|
      ensures run' == if multiple && dataLen <= heap then [lastEntry] else run
      ensures run' == [lastEntry] ==> lastEntry in View() && |View()[lastEntry].data| == dataLen
    {
      hide Live, BlockAt, Linked, NoDup, Contents, AllLive, Drop, Without, Replaced, Disjoint, Labels, Labelled,
          LabelAt, Entries;
      ghost var v, blocks := View(), index.blocks;
      ghost var prev := LastOr(NFFS_ID_NONE, pre);
      RunOfFile(v, index, inode, pre, run, post);
      rc := ErrNoMemory;
      if multiple {
        rc := GcBlockChainCollate(lastEntry, dataLen, to, inode, prev, run);
        if rc == Ok {
          CollateReplaces(v, blocks, inode, pre, run, post, index.blocks, to);
          RunEnds(v, old(index), inode, prev, run);
          CollatedLabel(old(disk), old(index), disk, index, run, lastEntry);
          CollatedData(v, inode, prev, run);
          return rc, [lastEntry], NFFS_DISK_BLOCK_SIZE + dataLen;
        }
      }
      rc := GcBlockChainCopy(lastEntry, dataLen, to, inode, prev, run);
      CopyReplaces(v, blocks, index.blocks, inode, pre, run, post, to);
      SameLabels(old(disk), old(index), disk, index);
      if |run| == 1 {
        SingleData(v, run);
      }
      return rc, run, RunBytes(v, run);
    }

    /** Move the run gathered so far, if any. */
    method GcFlush(w: GcWalk, from: nat, to: nat, ghost g: GcGoal, ghost p: GcPos, ghost d0: Disk, ghost ix0: Index)
      returns (rc: Rc, ghost done': seq<Id>, ghost grown': nat)
      requires Valid() && g.Gathered(View(), index, disk, from, to, w, p) && from != to
      requires Accounted(d0, ix0, disk, index, g.ids, p.j, p.done)
      modifies this`disk, this`index
      ensures rc == Ok && Valid() && g.Flushed(View(), index, disk, from, to, p.k, done', grown')
      ensures index.inodes == old(index).inodes && index.nextBlockId == old(index).nextBlockId
      ensures Accounted(d0, ix0, disk, index, g.ids, p.k, done')
      ensures (w.multiple ==> w.dataLen <= heap) && Packing(g, old(View()), p, from, maxDataSize) ==>
                PackedTo(g, View(), p.k, p.j, w.dataLen, done', from, maxDataSize)
    {
      hide Live, BlockAt, Linked, NoDup, Contents, AllLive, Extends, Replaced, BytesIn, Untouched, Disjoint, Labelled,
          Entries, Packing, PackedTo;
      ghost var v, ix := View(), index;
      g.SplitState(v, index, p.k, p.j, p.done, from);
      g.RunFits(v, index, disk, p.k, p.j, p.done, from, to, p.grown, w.dataLen);
      ghost var run', n;
      ghost var d1 := disk;
      rc, run', n := GcBlockChain(w.last, w.multiple, w.dataLen, to, g.inode, g.ids[..p.k], g.ids[p.k..p.j], p.done);
      done' := run' + p.done;
      UnmergedStep(g.ids, p.k, p.j, p.done, run');
      grown' := p.grown + n;
      GrowsTwice(g.disk, d1, disk, to, p.grown, n);
      g.FlushState(v, ix, View(), index, p.k, p.j, p.done, run', from, to);
      if (w.multiple ==> w.dataLen <= heap) && Packing(g, v, p, from, maxDataSize) {
        FlushPacks(g, v, ix, View(), index, p, run', from, to, maxDataSize, w.dataLen);
      }
    }

    /** nffs_gc_inode_blocks: walk the chain from its end, gathering runs of blocks
        in `from` and moving each run to `to`. */
    method GcInodeBlocks(inode: Id, from: nat, to: nat, ghost ids: seq<Id>)
      returns (rc: Rc, ghost ids': seq<Id>, ghost grown: nat)
      requires Valid() && FileIn(View(), index, inode, ids) && Within(View(), ids)
      requires from < |disk.areas| && to < |disk.areas| && from != to && maxDataSize <= MAX_BLOCK_DATA
      requires NFFS_DISK_AREA_SIZE <= disk.areas[to].cur &&
               disk.areas[to].cur + BytesIn(View(), index.blocks, ids, from) <= |disk.areas[to].data|
      modifies this`disk, this`index
      ensures rc == Ok && Valid() && FileIn(View(), index, inode, ids') && Within(View(), ids')
      ensures Contents(View(), ids') == Contents(old(View()), ids)
      ensures NoneIn(index.blocks, ids', from)
      ensures index.inodes == old(index).inodes && index.nextBlockId == old(index).nextBlockId
      ensures Untouched(old(View()), old(index).blocks, View(), index.blocks, ids)
      ensures (forall b :: b in ids' ==> b in ids) && Gone(index.blocks, ids, ids')
      ensures grown <= BytesIn(old(View()), old(index).blocks, ids, from) && GrowsBy(old(disk), disk, to, grown)
      ensures Entries(index) == Entries(old(index))
      ensures Labelled(disk, index) <==> Labelled(old(disk), old(index)) && ids' == ids
      ensures ids' == ids || |ids'| < |ids|
      ensures heap >= maxDataSize ==> Packed(old(View()), old(index).blocks, View(), ids', from, maxDataSize)
    {
      hide Live, BlockAt, Linked, NoDup, Contents, AllLive, Extends, BytesIn, RunUnderWay, Untouched, GrowsBy, NoneIn,
          GcGoal.Walk, GcGoal.Gathered, GcGoal.Flushed, GcGoal.State, GcGoal.Budget, Disjoint, Labelled, Unmerged, Short,
          Entries, Accounted, Packing, PackedTo, Packed;
      ghost var g := GcGoal(inode, ids, View(), index.blocks, disk);
      g.Start(View(), index, disk, from, to);
      var w := GcWalk(NFFS_ID_NONE, false, 0);
      var entry := index.inodes[inode].last;
      ghost var p := GcPos(|ids|, |ids|, [], 0);
      KeptStart(disk, index, ids);
      PackStart(g, View(), from, maxDataSize);
      rc := Ok;
      while entry != NFFS_ID_NONE
        invariant p.k <= |ids| && entry == LastOr(NFFS_ID_NONE, ids[..p.k])
        invariant rc == Ok && Valid() && g.Walk(View(), index, disk, from, to, w, p)
        invariant index.inodes == old(index).inodes && index.nextBlockId == old(index).nextBlockId
        invariant Accounted(old(disk), old(index), disk, index, ids, p.j, p.done)
        invariant heap >= maxDataSize ==> Packing(g, View(), p, from, maxDataSize) && (w.multiple ==> w.dataLen <= heap)
        decreases p.k
      {
        g.Entry(View(), index, disk, from, to, w, p);
        ViewHeader(disk, index, entry);
        var block;
        rc, block := BlockFromEntry(entry);
        if index.blocks[entry].area == from {
          ghost var was := w;
          if w.last == NFFS_ID_NONE {
            w := w.(last := entry);
          }
          var prospective := w.dataLen + block.dataLen;
          if prospective <= maxDataSize {
            g.GrowRun(View(), index, disk, from, to, was, p, maxDataSize);
            if heap >= maxDataSize {
              PackGrow(g, View(), p, from, maxDataSize);
            }
            w := w.(dataLen := prospective, multiple := w.multiple || w.last != entry);
            p := p.(k := p.k - 1);
          } else {
            ghost var done, grown;
            rc, done, grown := GcFlush(w, from, to, g, p, old(disk), old(index));
            g.StartRun(View(), index, disk, from, to, p.k, done, grown);
            if heap >= maxDataSize {
              PackRestart(g, View(), p.k, p.j, w.dataLen, done, grown, from, maxDataSize);
            }
            w := GcWalk(entry, false, block.dataLen);
            p := GcPos(p.k - 1, p.k, done, grown);
          }
        } else {
          ghost var done, grown, n := p.done, p.grown, w.dataLen;
          g.NoRun(View(), index, disk, from, to, w, p);
          if w.last != NFFS_ID_NONE {
            rc, done, grown := GcFlush(w, from, to, g, p, old(disk), old(index));
            w := GcWalk(NFFS_ID_NONE, false, 0);
          } else {
            g.EmptyRun(View(), index, disk, from, to, w, p);
            if heap >= maxDataSize {
              PackNone(g, View(), p, from, maxDataSize);
            }
          }
          if heap >= maxDataSize {
            PackSkip(g, View(), p.k, p.j, n, done, grown, from, maxDataSize);
          }
          KeptSkip(old(disk), old(index), disk, index, ids, p.k, done);
          g.Skip(View(), index, disk, from, to, p.k, done, grown);
          p := GcPos(p.k - 1, p.k - 1, [entry] + done, grown);
        }
        entry := block.prev;
      }
      g.NoRun(View(), index, disk, from, to, w, p);
      if w.last != NFFS_ID_NONE {
        rc, ids', grown := GcFlush(w, from, to, g, p, old(disk), old(index));
      } else {
        ids', grown := p.done, p.grown;
        g.EmptyRun(View(), index, disk, from, to, w, p);
        if heap >= maxDataSize {
          PackNone(g, View(), p, from, maxDataSize);
        }
      }
      if heap >= maxDataSize {
        PackEnd(g, View(), p.k, p.j, w.dataLen, ids', from, maxDataSize);
      }
      KeptEnd(old(disk), old(index), disk, index, ids, p.k, ids');
      g.End(View(), index, disk, from, to, p.k, ids', grown);
    }
  }

  ghost predicate BlockIds(ix: Index) {
    forall b :: b in ix.blocks ==> b < NFFS_ID_NONE
  }

  /** The label of a copy that supersedes one with the given sequence number. */
  ghost function Supersedes(b: Id, seqNum: int): Label {
    Label(b, (seqNum + 1) % 0x1_0000_0000)
  }

  lemma LastStays(m: map<Id, Loc>, run: seq<Id>)
    requires run != [] && NoDup(run) && run[|run| - 1] in m
    ensures run[|run| - 1] in Drop(m, run[..|run| - 1])
  {
    assert run == run[..|run| - 1] + [run[|run| - 1]];
    NoDupJoin(run[..|run| - 1], [run[|run| - 1]]);
  }

  lemma RunKnown(v: View, ix: Index, inode: Id, prev: Id, run: seq<Id>)
    requires GcRun(v, ix, inode, prev, run) && run != []
    ensures run[|run| - 1] in ix.blocks && run[0] in ix.blocks
  {
    hide Linked, NoDup;
  }

  lemma DropSame(m: map<Id, Loc>, ids: seq<Id>, b: Id)
    requires b in Drop(m, ids)
    ensures b in m && Drop(m, ids)[b] == m[b]
  {
  }

  lemma LabelIs(d: Disk, l: Loc)
    requires Live(d, l)
    ensures LabelAt(d, l) == Label(HeaderAt(d, l).id, HeaderAt(d, l).seqNum)
  {
    hide Decode, CrcOf;
  }

  lemma SameLabels(d: Disk, ix: Index, d': Disk, ix': Index)
    requires Labels(d', ix') == Labels(d, ix)
    ensures Labelled(d', ix') <==> Labelled(d, ix)
  {
    hide LabelAt;
    assert ix'.blocks.Keys == Labels(d', ix').Keys == Labels(d, ix).Keys == ix.blocks.Keys;
    assert forall b :: b in ix.blocks ==> Labels(d, ix)[b] == LabelAt(d, ix.blocks[b]);
    assert forall b :: b in ix'.blocks ==> Labels(d', ix')[b] == LabelAt(d', ix'.blocks[b]);
  }

  /** A run of several blocks that has been collated is on flash under the id of its first block, and in the
      index under that of its last. */
  lemma CollatedLabel(d: Disk, ix: Index, d': Disk, ix': Index, run: seq<Id>, last: Id)
    requires |run| > 1 && run[0] != run[|run| - 1] == last && last in ix'.blocks
    requires last in Labels(d', ix') && Labels(d', ix')[last].id == run[0]
    ensures !Labelled(d', ix') && [last] != run
  {
    hide LabelAt;
  }

  lemma CollatedData(v: View, inode: Id, prev: Id, run: seq<Id>)
    requires run != [] && Within(v, run)
    ensures
      var v', last := Collated(v, inode, prev, run), run[|run| - 1];
      last in v' && v'[last].data == Contents(v, run)
  {
    hide Without;
  }

  lemma SingleData(v: View, run: seq<Id>)
    requires |run| == 1 && Within(v, run)
    ensures run[0] in v && Contents(v, run) == v[run[0]].data && run == [run[0]]
  {
    assert run[1..] == [];
  }

  lemma RunEnds(v: View, ix: Index, inode: Id, prev: Id, run: seq<Id>)
    requires GcRun(v, ix, inode, prev, run) && |run| > 1
    ensures run[0] != run[|run| - 1]
  {
    hide Linked;
    assert run[|run| - 1] in run[1..];
  }

  /** Neighbours in a chain that were both in area `from` are too long to be merged: the last block that went
      into the first of them, and the second. */
  ghost predicate Tight(v0: View, locs: map<Id, Loc>, v: View, x: Id, y: Id, from: nat, max: nat) {
    x in v0 && y in v && x in locs && y in locs && locs[x].area == from && locs[y].area == from ==>
      |v0[x].data| + |v[y].data| > max
  }

  ghost predicate Packed(v0: View, locs: map<Id, Loc>, v: View, s: seq<Id>, from: nat, max: nat) {
    forall n :: 0 <= n < |s| - 1 ==> Tight(v0, locs, v, s[n], s[n + 1], from, max)
  }

  /** What has been moved is packed, and so is the run under way with what has been moved. */
  ghost predicate Packing(g: GcGoal, v: View, p: GcPos, from: nat, max: nat) {
    && p.k <= p.j <= |g.ids| && Packed(g.view, g.locs, v, p.done, from, max)
    && (p.done != [] ==>
          if p.k < p.j then Tight(g.view, g.locs, v, g.ids[p.j - 1], p.done[0], from, max)
          else p.done[0] in g.locs && g.locs[p.done[0]].area != from)
  }

  lemma PackingFlush(g: GcGoal, v: View, v': View, p: GcPos, from: nat, max: nat, run': seq<Id>)
    requires Packing(g, v, p, from, max)
    requires run' == if p.k < p.j then [g.ids[p.j - 1]] else []
    requires forall b :: b in p.done ==> (b in v <==> b in v') && (b in v ==> v'[b] == v[b])
    ensures Packed(g.view, g.locs, v', run' + p.done, from, max)
  {
    var s := run' + p.done;
    forall n | 0 <= n < |s| - 1
      ensures Tight(g.view, g.locs, v', s[n], s[n + 1], from, max)
    {
      if p.k == p.j {
        assert Tight(g.view, g.locs, v, p.done[n], p.done[n + 1], from, max);
        assert p.done[n + 1] in p.done;
      } else {
        assert s[n + 1] == p.done[n] && p.done[n] in p.done;
        if n > 0 {
          assert Tight(g.view, g.locs, v, p.done[n - 1], p.done[n], from, max);
        }
      }
    }
  }

  lemma DoneStays(g: GcGoal, v: View, ix: Index, v': View, ix': Index, p: GcPos, run': seq<Id>, from: nat, to: nat)
    requires g.State(v, ix, p.j, p.done, from) && p.k <= p.j
    requires Replaced(v, ix.blocks, v', ix'.blocks, g.inode, g.ids[..p.k], g.ids[p.k..p.j], run', p.done, to)
    ensures forall b :: b in p.done ==> (b in v <==> b in v') && (b in v ==> v'[b] == v[b])
    ensures p.k < p.j ==> g.ids[p.k..p.j][p.j - p.k - 1] == g.ids[p.j - 1]
    ensures p.j == p.k + 1 ==> g.ids[p.k..p.j] == [g.ids[p.j - 1]]
    ensures p.j == p.k ==> g.ids[p.k..p.j] == []
  {
    hide Linked, Contents, Gone, NoneIn, AllIn;
    NoDupJoin(g.ids[..p.j], p.done);
    forall b | b in p.done
      ensures b !in g.ids[p.k..p.j]
    {
      assert forall x :: x in g.ids[p.k..p.j] ==> x in g.ids[..p.j];
    }
  }

  /** What has been moved is packed.  It begins with the run from `k` to `j`, now one block of `n` bytes, or,
      if there was no run, with a block that was not in area `from`. */
  ghost predicate PackedTo(g: GcGoal, v: View, k: nat, j: nat, n: nat, done: seq<Id>, from: nat, max: nat) {
    && Packed(g.view, g.locs, v, done, from, max)
    && (if k < j then done != [] && done[0] in v && |v[done[0]].data| == n
        else done != [] ==> done[0] in g.locs && g.locs[done[0]].area != from)
  }

  lemma FlushPacks(g: GcGoal, v: View, ix: Index, v': View, ix': Index, p: GcPos, run': seq<Id>, from: nat, to: nat,
      max: nat, n: nat)
    requires g.State(v, ix, p.j, p.done, from) && Packing(g, v, p, from, max)
    requires Replaced(v, ix.blocks, v', ix'.blocks, g.inode, g.ids[..p.k], g.ids[p.k..p.j], run', p.done, to)
    requires run' == if p.j - p.k > 1 then [g.ids[p.j - 1]] else g.ids[p.k..p.j]
    requires p.k < p.j && run' == [g.ids[p.j - 1]] ==> g.ids[p.j - 1] in v' && |v'[g.ids[p.j - 1]].data| == n
    ensures PackedTo(g, v', p.k, p.j, n, run' + p.done, from, max)
  {
    hide GcGoal.State, Replaced, Tight, Packed;
    DoneStays(g, v, ix, v', ix', p, run', from, to);
    PackingFlush(g, v, v', p, from, max, run');
  }

  lemma PackStart(g: GcGoal, v: View, from: nat, max: nat)
    ensures Packing(g, v, GcPos(|g.ids|, |g.ids|, [], 0), from, max)
  {
  }

  lemma PackGrow(g: GcGoal, v: View, p: GcPos, from: nat, max: nat)
    requires Packing(g, v, p, from, max) && p.k > 0
    ensures Packing(g, v, p.(k := p.k - 1), from, max)
  {
    hide Packed;
  }

  lemma PackRestart(g: GcGoal, v: View, k: nat, j: nat, n: nat, done: seq<Id>, grown: nat, from: nat, max: nat)
    requires PackedTo(g, v, k, j, n, done, from, max) && 0 < k <= |g.ids| && g.ids[k - 1] in g.view
    requires |g.view[g.ids[k - 1]].data| + n > max
    ensures Packing(g, v, GcPos(k - 1, k, done, grown), from, max)
  {
    hide Packed;
  }

  lemma PackSkip(g: GcGoal, v: View, k: nat, j: nat, n: nat, done: seq<Id>, grown: nat, from: nat, max: nat)
    requires PackedTo(g, v, k, j, n, done, from, max) && 0 < k <= |g.ids|
    requires g.ids[k - 1] in g.locs && g.locs[g.ids[k - 1]].area != from
    ensures Packing(g, v, GcPos(k - 1, k - 1, [g.ids[k - 1]] + done, grown), from, max)
  {
    hide Packed;
    PackedNext(g.view, g.locs, v, g.ids[k - 1], done, from, max);
  }

  lemma PackNone(g: GcGoal, v: View, p: GcPos, from: nat, max: nat)
    requires Packing(g, v, p, from, max) && p.k == p.j
    ensures PackedTo(g, v, p.k, p.j, 0, p.done, from, max)
  {
    hide Packed;
  }

  lemma PackEnd(g: GcGoal, v: View, k: nat, j: nat, n: nat, done: seq<Id>, from: nat, max: nat)
    requires PackedTo(g, v, k, j, n, done, from, max)
    ensures Packed(g.view, g.locs, v, done, from, max)
  {
  }

  lemma PackedNext(v0: View, locs: map<Id, Loc>, v: View, x: Id, s: seq<Id>, from: nat, max: nat)
    requires Packed(v0, locs, v, s, from, max) && (s != [] ==> Tight(v0, locs, v, x, s[0], from, max))
    ensures Packed(v0, locs, v, [x] + s, from, max)
  {
    forall n | 0 <= n < |[x] + s| - 1
      ensures Tight(v0, locs, v, ([x] + s)[n], ([x] + s)[n + 1], from, max)
    {
      if n > 0 {
        assert Tight(v0, locs, v, s[n - 1], s[n], from, max);
      }
    }
  }

  /** No entry has been lost since `d0`, and labels are as right as they were unless a block has been merged
      into another. */
  ghost predicate Accounted(d0: Disk, ix0: Index, d: Disk, ix: Index, ids: seq<Id>, j: nat, done: seq<Id>) {
    && Short(ids, j, done) && Entries(ix) == Entries(ix0)
    && (Labelled(d, ix) <==> Labelled(d0, ix0) && Unmerged(ids, j, done))
  }

  lemma KeptStart(d: Disk, ix: Index, ids: seq<Id>)
    ensures Accounted(d, ix, d, ix, ids, |ids|, [])
  {
  }

  lemma KeptSkip(d0: Disk, ix0: Index, d: Disk, ix: Index, ids: seq<Id>, k: nat, done: seq<Id>)
    requires 0 < k <= |ids| && Accounted(d0, ix0, d, ix, ids, k, done)
    ensures Accounted(d0, ix0, d, ix, ids, k - 1, [ids[k - 1]] + done)
  {
    hide Labelled, Entries;
    UnmergedSkip(ids, k, done);
  }

  lemma KeptEnd(d0: Disk, ix0: Index, d: Disk, ix: Index, ids: seq<Id>, k: nat, done: seq<Id>)
    requires Accounted(d0, ix0, d, ix, ids, k, done)
    ensures Entries(ix) == Entries(ix0)
    ensures k == 0 ==> (Labelled(d, ix) <==> Labelled(d0, ix0) && done == ids) && (done == ids || |done| < |ids|)
  {
    hide Labelled, Entries;
    assert ids[0..] == ids;
  }

  /** No block behind position `j` has been merged into another. */
  ghost predicate Unmerged(ids: seq<Id>, j: nat, done: seq<Id>) {
    j <= |ids| && done == ids[j..]
  }

  ghost predicate Short(ids: seq<Id>, j: nat, done: seq<Id>) {
    j <= |ids| && (done == ids[j..] || |done| < |ids| - j)
  }

  lemma UnmergedStep(ids: seq<Id>, k: nat, j: nat, done: seq<Id>, run': seq<Id>)
    requires k <= j <= |ids| && Short(ids, j, done) && (run' == ids[k..j] || |run'| < j - k)
    ensures Short(ids, k, run' + done)
    ensures Unmerged(ids, k, run' + done) <==> Unmerged(ids, j, done) && run' == ids[k..j]
  {
    assert ids[k..] == ids[k..j] + ids[j..];
    if Unmerged(ids, k, run' + done) {
      assert (run' + done)[..j - k] == run' && ids[k..][..j - k] == ids[k..j];
      assert (run' + done)[j - k..] == done && ids[k..][j - k..] == ids[j..];
    }
  }

  lemma UnmergedSkip(ids: seq<Id>, k: nat, done: seq<Id>)
    requires 0 < k && Short(ids, k, done)
    ensures Short(ids, k - 1, [ids[k - 1]] + done)
    ensures Unmerged(ids, k - 1, [ids[k - 1]] + done) <==> Unmerged(ids, k, done)
  {
    assert ids[k - 1..] == [ids[k - 1]] + ids[k..];
    if Unmerged(ids, k - 1, [ids[k - 1]] + done) {
      assert ([ids[k - 1]] + done)[1..] == done && ids[k - 1..][1..] == ids[k..];
    }
  }

  lemma LabelCopied(d: Disk, l: Loc, d': Disk, l': Loc)
    requires Live(d, l) && Live(d', l') && HeaderAt(d', l') == HeaderAt(d, l)
    ensures LabelAt(d', l') == LabelAt(d, l)
  {
    hide Decode, CrcOf;
  }

  /** Only area `to` changes, growing by `n` bytes. */
  ghost predicate GrowsBy(d: Disk, d': Disk, to: nat, n: nat)
    requires to < |d.areas|
  {
    && DiskOk(d') && Extends(d, d') && |d'.areas| == |d.areas|
    && d'.areas[to].cur == d.areas[to].cur + n && |d'.areas[to].data| == |d.areas[to].data|
    && forall a :: 0 <= a < |d.areas| && a != to ==> d'.areas[a] == d.areas[a]
  }

  /** No other area has changed. */
  ghost predicate OnlyArea(d: Disk, d': Disk, area: nat) {
    |d'.areas| == |d.areas| && forall a :: 0 <= a < |d.areas| && a != area ==> d'.areas[a] == d.areas[a]
  }

  lemma SameLength(d: Disk, d': Disk, area: nat)
    requires Extends(d, d') && area < |d.areas|
    ensures |d'.areas| == |d.areas| && |d'.areas[area].data| == |d.areas[area].data| &&
            d.areas[area].cur <= d'.areas[area].cur
  {
    assert AreaExtends(d.areas[area], d'.areas[area]);
  }

  lemma GrowsTwice(d: Disk, d': Disk, d'': Disk, to: nat, m: nat, n: nat)
    requires to < |d.areas| && GrowsBy(d, d', to, m) && GrowsBy(d', d'', to, n)
    ensures GrowsBy(d, d'', to, m + n)
  {
    hide Extends;
    ExtendsTrans(d, d', d'');
  }

  ghost predicate GoodHeader(h: Header, data: seq<byte>) {
    Fits(h) && h.magic == NFFS_BLOCK_MAGIC && h.dataLen == |data| && 0 < |data| <= MAX_BLOCK_DATA &&
        h.crc16 == CrcOf(h, data)
  }

  /** nffs_crc_disk_block_fill */
  function FillCrc(h: Header, data: seq<byte>): (r: Header)
    requires Fits(h)
    ensures Fits(r) && r.crc16 == CrcOf(r, data) && r == h.(crc16 := r.crc16)
  {
    h.(crc16 := CrcOf(h, data))
  }

  lemma BlockGrows(d: Disk, area: nat, h: Header, data: seq<byte>)
    requires DiskOk(d) && area < |d.areas| && Fits(h)
    requires d.areas[area].cur + NFFS_DISK_BLOCK_SIZE + |data| <= |d.areas[area].data|
    ensures CanWrite(d, area, d.areas[area].cur, NFFS_DISK_BLOCK_SIZE + |data|)
    ensures GrowsBy(d, WriteBytes(d, area, d.areas[area].cur, BlockBytes(h, data)), area, NFFS_DISK_BLOCK_SIZE + |data|)
  {
    hide Encode;
    WriteExtends(d, area, d.areas[area].cur, BlockBytes(h, data));
  }

  lemma CopyGrows(d: Disk, a: nat, off: nat, to: nat, n: nat)
    requires DiskOk(d) && a < |d.areas| && off + n <= d.areas[a].cur && to < |d.areas| && n > 0
    requires d.areas[to].cur + n <= |d.areas[to].data|
    ensures CanWrite(d, to, d.areas[to].cur, n)
    ensures GrowsBy(d, WriteBytes(d, to, d.areas[to].cur, ReadBytes(d, a, off, n)), to, n)
  {
    WriteExtends(d, to, d.areas[to].cur, ReadBytes(d, a, off, n));
  }

  /** The blocks of `run` are now in area `to`; the others have not moved. */
  ghost predicate Relocated(m: map<Id, Loc>, m': map<Id, Loc>, run: seq<Id>, to: nat) {
    && m'.Keys == m.Keys
    && forall b :: b in m ==> if b in run then m'[b].area == to else m'[b] == m[b]
  }

  lemma RelocateOne(m0: map<Id, Loc>, m: map<Id, Loc>, m': map<Id, Loc>, run: seq<Id>, k: nat, to: nat)
    requires 0 < k <= |run| && run[k - 1] in m
    requires Relocated(m0, m, run[k..], to)
    requires m'.Keys == m.Keys && m'[run[k - 1]].area == to && forall b :: b in m && b != run[k - 1] ==> m'[b] == m[b]
    ensures Relocated(m0, m', run[k - 1..], to)
  {
    assert run[k - 1..] == [run[k - 1]] + run[k..];
  }

  lemma NothingYet(v: View, d: Disk, m: map<Id, Loc>, to: nat)
    requires DiskOk(d) && to < |d.areas|
    ensures Relocated(m, m, [], to) && GrowsBy(d, d, to, RunBytes(v, []))
  {
    ExtendsSelf(d);
  }

  /** A run of consecutive blocks of one file, `prev` preceding it. */
  ghost predicate GcRun(v: View, ix: Index, inode: Id, prev: Id, run: seq<Id>) {
    && inode in ix.inodes && (prev == NFFS_ID_NONE || prev in ix.blocks) && prev !in run
    && Linked(v, inode, prev, run) && NoDup(run) && Within(v, run)
    && v.Keys == ix.blocks.Keys
  }

  lemma ViewHeader(d: Disk, ix: Index, b: Id)
    requires AllLive(d, ix) && b in ix.blocks
    ensures
      var h := HeaderAt(d, ix.blocks[b]);
      var l := ix.blocks[b];
      && Live(d, l) && b in ViewOf(d, ix) && ViewOf(d, ix)[b] == BlockAt(d, l)
      && ViewOf(d, ix)[b].inode == h.inodeId && ViewOf(d, ix)[b].prev == h.prevId
      && |ViewOf(d, ix)[b].data| == h.dataLen
      && l.area < |d.areas| && l.off + NFFS_DISK_BLOCK_SIZE + h.dataLen <= d.areas[l.area].cur
      && 0 < h.dataLen <= MAX_BLOCK_DATA
  {
  }

  lemma ViewData(d: Disk, ix: Index, b: Id, off: nat, len: nat)
    requires AllLive(d, ix) && b in ix.blocks && off + len <= |ViewOf(d, ix)[b].data|
    ensures
      var l := ix.blocks[b];
      && InArea(d, l.area, l.off + NFFS_DISK_BLOCK_SIZE + off, len)
      && ReadBytes(d, l.area, l.off + NFFS_DISK_BLOCK_SIZE + off, len) == ViewOf(d, ix)[b].data[off..off + len]
  {
    hide Decode, CrcOf, Encode;
    var l := ix.blocks[b];
    assert Live(d, l);
    ReadPart(d, l.area, l.off + NFFS_DISK_BLOCK_SIZE, HeaderAt(d, l).dataLen, off, len);
  }

  /** The block before position `m` of a run. */
  lemma RunStep(v: View, inode: Id, prev: Id, run: seq<Id>, m: nat)
    requires Linked(v, inode, prev, run) && Within(v, run) && m <= |run|
    requires Within(v, run[m..]) && |Contents(v, run[m..])| < |Contents(v, run)|
    ensures m > 0 && Within(v, run[m - 1..])
    ensures
      var b := run[m - 1];
      && b in v && v[b].inode == inode && v[b].prev == LastOr(prev, run[..m - 1]) && |v[b].data| > 0
      && |Contents(v, run[m - 1..])| == |v[b].data| + |Contents(v, run[m..])|
      && RunBytes(v, run[m - 1..]) == NFFS_DISK_BLOCK_SIZE + |v[b].data| + RunBytes(v, run[m..])
      && RunBytes(v, run[m - 1..]) <= RunBytes(v, run)
      && (m > 1 ==> v[b].prev == run[m - 2] && run[m - 2] in v)
      && (m == 1 ==> v[b].prev == prev)
  {
    assert run[0..] == run;
    LinkedAt(v, inode, prev, run, m - 1);
    assert run[m - 1..] == [run[m - 1]] + run[m..];
    Single(v, inode, LastOr(prev, run[..m - 1]), run[m - 1]);
    ContentsJoin(v, [run[m - 1]], run[m..]);
    ContentsJoin(v, run[..m - 1], run[m - 1..]);
    assert run == run[..m - 1] + run[m - 1..];
  }

  lemma RunEmpty(v: View, inode: Id, prev: Id, run: seq<Id>, m: nat)
    requires Linked(v, inode, prev, run) && Within(v, run) && m <= |run|
    requires Within(v, run[m..]) && |Contents(v, run[m..])| >= |Contents(v, run)|
    ensures run[m..] == run
  {
    assert run == run[..m] + run[m..];
    ContentsJoin(v, run[..m], run[m..]);
  }

  /** The entries dropped once the blocks from position `m` on have been read. */
  function Dropped(run: seq<Id>, m: nat): seq<Id>
    requires m <= |run|
  {
    if m < |run| then run[m..|run| - 1] else []
  }

  lemma {:induction false} NoDupAt(ids: seq<Id>, i: nat, j: nat)
    requires NoDup(ids) && i < j < |ids|
    ensures ids[i] != ids[j]
    decreases i
  {
    if i == 0 {
      assert ids[j] in ids[1..];
    } else {
      NoDupAt(ids[1..], i - 1, j - 1);
    }
  }

  lemma CollateStart(v: View, ix: Index, run: seq<Id>)
    requires Within(v, run)
    ensures run[|run|..] == [] && Contents(v, []) == []
    ensures Without(v, Dropped(run, |run|)) == v && Drop(ix.blocks, Dropped(run, |run|)) == ix.blocks
  {
  }

  /** The entry about to be read is still there, and so is its predecessor. */
  lemma CollateEntry(v: View, ix: Index, inode: Id, prev: Id, run: seq<Id>, m: nat)
    requires GcRun(v, ix, inode, prev, run) && 0 < m <= |run|
    ensures
      var b := run[m - 1];
      var blocks := Drop(ix.blocks, Dropped(run, m));
      && b in v && b in blocks && b in Without(v, Dropped(run, m)) && Without(v, Dropped(run, m))[b] == v[b]
      && (m > 1 ==> run[m - 2] in blocks) && (prev == NFFS_ID_NONE || prev in blocks)
  {
    forall i | m <= i < |run| - 1
      ensures run[i] != run[m - 1] && (m > 1 ==> run[i] != run[m - 2])
    {
      NoDupAt(run, m - 1, i);
      if m > 1 {
        NoDupAt(run, m - 2, i);
      }
    }
  }

  lemma CollateNext(v: View, ix: Index, inode: Id, prev: Id, run: seq<Id>, m: nat)
    requires GcRun(v, ix, inode, prev, run) && 0 < m <= |run|
    ensures Within(v, run[m - 1..]) && Within(v, run[m..])
    ensures Contents(v, run[m - 1..]) == v[run[m - 1]].data + Contents(v, run[m..])
    ensures m < |run| ==> run[m - 1] != run[|run| - 1]
    ensures
      var b := run[m - 1];
      var gone, gone' := Dropped(run, m), Dropped(run, m - 1);
      if m < |run| then Without(Without(v, gone), [b]) == Without(v, gone') &&
          Drop(Drop(ix.blocks, gone), [b]) == Drop(ix.blocks, gone')
      else gone == gone' == []
  {
    hide Linked, NoDup;
    assert run[m - 1..] == [run[m - 1]] + run[m..];
    if m < |run| {
      NoDupAt(run, m - 1, |run| - 1);
      DropMore(v, ix.blocks, run, m);
    }
  }

  lemma DropMore(v: View, blocks: map<Id, Loc>, run: seq<Id>, m: nat)
    requires 0 < m < |run|
    ensures Without(Without(v, Dropped(run, m)), [run[m - 1]]) == Without(v, Dropped(run, m - 1))
    ensures Drop(Drop(blocks, Dropped(run, m)), [run[m - 1]]) == Drop(blocks, Dropped(run, m - 1))
  {
    assert Dropped(run, m - 1) == [run[m - 1]] + Dropped(run, m);
  }

  lemma CollateEnd(v: View, ix: Index, inode: Id, prev: Id, run: seq<Id>, m: nat)
    requires GcRun(v, ix, inode, prev, run) && run != [] && m <= |run| && run[m..] == run
    ensures m == 0 && Dropped(run, m) == run[..|run| - 1]
  {
  }

  lemma PrevFits(v: View, d: Disk, ix: Index, inode: Id, prev: Id, run: seq<Id>)
    requires AllLive(d, ix) && BlockIds(ix) && v == ViewOf(d, ix) && GcRun(v, ix, inode, prev, run) && run != []
    ensures prev < 0x1_0000_0000 && inode < 0x1_0000_0000 && run[0] < 0x1_0000_0000 && |Contents(v, run)| > 0
    ensures run[|run| - 1] < NFFS_ID_NONE
  {
    hide Live, BlockAt, Linked, NoDup, Contents, CrcOf, AllLive;
    LinkedAt(v, inode, prev, run, 0);
    ContentsAt(v, run, 0);
    ViewHeader(d, ix, run[0]);
    assert run[|run| - 1] in run;
  }

  /** `ids` is the chain of file `inode`, and the index knows its end. */
  ghost predicate FileIn(v: View, ix: Index, inode: Id, ids: seq<Id>) {
    && v.Keys == ix.blocks.Keys
    && inode in ix.inodes && ix.inodes[inode].last == LastOr(NFFS_ID_NONE, ids)
    && Chain(v, inode, ids)
  }

  /** In the chain of `inode`, `run` has become `run'`, which lies in area `to`;
      the file's contents are the same and no other block is affected. */
  ghost predicate Replaced(v: View, locs: map<Id, Loc>, v': View, locs': map<Id, Loc>, inode: Id, pre: seq<Id>,
      run: seq<Id>, run': seq<Id>, post: seq<Id>, to: nat) {
    && v'.Keys == locs'.Keys
    && Chain(v', inode, pre + run' + post)
    && Within(v, pre + run + post) && Within(v', pre + run' + post)
    && Contents(v', pre + run' + post) == Contents(v, pre + run + post)
    && AllIn(locs', run', to) && (forall b :: b in run' ==> b in run)
    && LastOr(NFFS_ID_NONE, pre + run' + post) == LastOr(NFFS_ID_NONE, pre + run + post)
    && Untouched(v, locs, v', locs', run) && Gone(locs', run, run')
  }

  /** Blocks of the old run that are not in the new one have left the index. */
  ghost predicate Gone(locs': map<Id, Loc>, run: seq<Id>, run': seq<Id>) {
    forall b :: b in run && b in locs' ==> b in run'
  }

  /** Blocks not in `ids` are as they were. */
  ghost predicate Untouched(v: View, locs: map<Id, Loc>, v': View, locs': map<Id, Loc>, ids: seq<Id>) {
    forall b :: b !in ids ==>
      && (b in locs <==> b in locs') && (b in v <==> b in v')
      && (b in locs ==> locs'[b] == locs[b]) && (b in v ==> v'[b] == v[b])
  }

  lemma RunOfFile(v: View, ix: Index, inode: Id, pre: seq<Id>, run: seq<Id>, post: seq<Id>)
    requires FileIn(v, ix, inode, pre + run + post)
    ensures GcRun(v, ix, inode, LastOr(NFFS_ID_NONE, pre), run)
    ensures run != [] ==> ix.inodes[inode].last !in run[..|run| - 1]
  {
    LinkedJoin(v, inode, NFFS_ID_NONE, pre + run, post);
    LinkedJoin(v, inode, NFFS_ID_NONE, pre, run);
    NoDupJoin(pre + run, post);
    NoDupJoin(pre, run);
    LinkedWithin(v, inode, LastOr(NFFS_ID_NONE, pre), run);
    LinkedWithin(v, inode, NFFS_ID_NONE, pre);
    if run != [] {
      assert run == run[..|run| - 1] + [run[|run| - 1]];
      NoDupJoin(run[..|run| - 1], [run[|run| - 1]]);
      var last := LastOr(NFFS_ID_NONE, pre + run + post);
      assert post == [] ==> last == run[|run| - 1];
      assert post != [] ==> last == post[|post| - 1] && last in post;
      var front := run[..|run| - 1];
      forall x | x in front
        ensures x != last
      {
        assert x in run && x in pre + run;
      }
    }
  }

  lemma CopyReplaces(v: View, locs: map<Id, Loc>, locs': map<Id, Loc>, inode: Id, pre: seq<Id>, run: seq<Id>,
      post: seq<Id>, to: nat)
    requires v.Keys == locs.Keys && Chain(v, inode, pre + run + post) && Relocated(locs, locs', run, to) &&
             Within(v, run)
    ensures Replaced(v, locs, v, locs', inode, pre, run, run, post, to)
  {
    hide Linked, NoDup, Contents;
    LinkedWithin(v, inode, NFFS_ID_NONE, pre + run + post);
  }

  lemma CollateReplaces(v: View, locs: map<Id, Loc>, inode: Id, pre: seq<Id>, run: seq<Id>, post: seq<Id>,
      locs': map<Id, Loc>, to: nat)
    requires v.Keys == locs.Keys && Chain(v, inode, pre + run + post) && run != [] && Within(v, run)
    requires run[|run| - 1] in locs' && locs'[run[|run| - 1]].area == to
    requires locs' == Drop(locs, run[..|run| - 1])[run[|run| - 1] := locs'[run[|run| - 1]]]
    ensures Replaced(v, locs, Collated(v, inode, LastOr(NFFS_ID_NONE, pre), run), locs', inode, pre, run,
            [run[|run| - 1]], post, to)
  {
    hide Linked, NoDup, Contents;
    CollateRun(v, inode, pre, run, post);
    var v' := Collated(v, inode, LastOr(NFFS_ID_NONE, pre), run);
    assert forall b :: b in run[..|run| - 1] ==> b in run;
    assert v'.Keys == locs'.Keys;
  }

  /** A run of blocks, all in area `from`, holding `dataLen` bytes. */
  ghost predicate RunUnderWay(v: View, locs: map<Id, Loc>, run: seq<Id>, from: nat, dataLen: nat) {
    Within(v, run) && dataLen == |Contents(v, run)| && dataLen <= MAX_BLOCK_DATA && AllIn(locs, run, from)
  }

  lemma RunEmptyUnderWay(v: View, locs: map<Id, Loc>, from: nat)
    ensures RunUnderWay(v, locs, [], from, 0)
  {
  }

  lemma RunLonger(v: View, locs: map<Id, Loc>, b: Id, run: seq<Id>, from: nat, dataLen: nat)
    requires RunUnderWay(v, locs, run, from, dataLen)
    requires b in locs && locs[b].area == from && b in v && dataLen + |v[b].data| <= MAX_BLOCK_DATA
    ensures RunUnderWay(v, locs, [b] + run, from, dataLen + |v[b].data|)
  {
    assert ([b] + run)[1..] == run;
  }

  lemma UntouchedTrans(v: View, m: map<Id, Loc>, v1: View, m1: map<Id, Loc>, v2: View, m2: map<Id, Loc>, a: seq<Id>,
      b: seq<Id>, c: seq<Id>)
    requires Untouched(v, m, v1, m1, b) && Untouched(v1, m1, v2, m2, a)
    requires forall x :: x in c <==> x in a || x in b
    ensures Untouched(v, m, v2, m2, c)
  {
  }

  lemma DoneLeaves(v: View, m: map<Id, Loc>, v': View, m': map<Id, Loc>, run: seq<Id>, run': seq<Id>, done: seq<Id>,
      from: nat, to: nat)
    requires NoneIn(m, done, from) && Untouched(v, m, v', m', run) && AllIn(m', run', to) && from != to
    requires forall x :: x in run ==> x !in done
    ensures NoneIn(m', run' + done, from)
  {
  }

  lemma GoneToo(v: View, m: map<Id, Loc>, v': View, m': map<Id, Loc>, a: seq<Id>, a': seq<Id>, b: seq<Id>, b': seq<Id>,
      c: seq<Id>)
    requires Gone(m, b, b') && Gone(m', a, a') && Untouched(v, m, v', m', a)
    requires forall x :: x in c <==> x in a || x in b
    ensures Gone(m', c, a' + b')
  {
  }

  /** The locals of nffs_gc_inode_blocks: the end of the run under way, whether it
      has several blocks, and how much data it holds. */
  datatype GcWalk = GcWalk(last: Id, multiple: bool, dataLen: nat)

  /** Where the walk is: see GcGoal.Walk. */
  datatype GcPos = GcPos(k: nat, j: nat, done: seq<Id>, grown: nat)

  /** What collecting one file starts from. */
  datatype GcGoal = GcGoal(inode: Id, ids: seq<Id>, view: View, locs: map<Id, Loc>, disk: Disk) {

    /** The chain is `ids[..j] + done`: what is before `j` has not been touched,
        `done` has left area `from`, and the contents are those of the start. */
    ghost predicate State(v: View, ix: Index, j: nat, done: seq<Id>, from: nat) {
      && j <= |ids| && NoDup(ids) && Within(view, ids)
      && FileIn(v, ix, inode, ids[..j] + done)
      && Within(v, ids[..j] + done) && Contents(v, ids[..j] + done) == Contents(view, ids)
      && NoneIn(ix.blocks, done, from) && (forall b :: b in done ==> b in ids[j..])
      && Untouched(view, locs, v, ix.blocks, ids[j..]) && Gone(ix.blocks, ids[j..], done)
    }

    ghost predicate Budget(d: Disk, j: nat, from: nat, to: nat, grown: nat) {
      && j <= |ids| && Within(view, ids) && Within(view, ids[..j])
      && to < |disk.areas| && GrowsBy(disk, d, to, grown)
      && grown + BytesIn(view, locs, ids[..j], from) <= BytesIn(view, locs, ids, from)
      && NFFS_DISK_AREA_SIZE <= disk.areas[to].cur && disk.areas[to].cur + BytesIn(view, locs, ids, from) <=
          |disk.areas[to].data|
    }

    lemma SplitState(v: View, ix: Index, k: nat, j: nat, done: seq<Id>, from: nat)
      requires State(v, ix, j, done, from) && k <= j
      ensures ids[..k] + ids[k..j] + done == ids[..j] + done
      ensures FileIn(v, ix, inode, ids[..k] + ids[k..j] + done) && v.Keys == ix.blocks.Keys
    {
      assert ids[..k] + ids[k..j] == ids[..j];
    }

    /** The run's bytes were counted in the budget and are no longer needed. */
    lemma RunFits(v: View, ix: Index, d: Disk, k: nat, j: nat, done: seq<Id>, from: nat, to: nat, grown: nat,
        dataLen: nat)
      requires State(v, ix, j, done, from) && k <= j && Budget(d, j, from, to, grown)
      requires RunUnderWay(v, ix.blocks, ids[k..j], from, dataLen)
      ensures to < |d.areas| && NFFS_DISK_AREA_SIZE <= d.areas[to].cur &&
              d.areas[to].cur + RunBytes(v, ids[k..j]) <= |d.areas[to].data|
      ensures Within(view, ids[..k])
      ensures grown + RunBytes(v, ids[k..j]) + BytesIn(view, locs, ids[..k], from) <= BytesIn(view, locs, ids, from)
    {
      hide Linked, NoDup, Contents, BytesIn, Chain;
      assert ids[..k] + ids[k..j] == ids[..j];
      BytesInJoin(view, locs, ids[..k], ids[k..j], from);
      BytesInAll(v, ix.blocks, ids[k..j], from);
      NoDupJoin(ids[..j], ids[j..]);
      assert ids == ids[..j] + ids[j..];
      forall b | b in ids[..j]
        ensures b !in ids[j..]
      {
      }
      assert forall b :: b in ids[k..j] ==> b in ids[..j];
      BytesInFrame(view, locs, v, ix.blocks, ids[k..j], from);
    }

    lemma FlushState(v: View, ix: Index, v': View, ix': Index, k: nat, j: nat, done: seq<Id>, run': seq<Id>, from: nat,
        to: nat)
      requires State(v, ix, j, done, from) && k <= j && from != to && ix'.inodes == ix.inodes
      requires Replaced(v, ix.blocks, v', ix'.blocks, inode, ids[..k], ids[k..j], run', done, to)
      ensures State(v', ix', k, run' + done, from)
    {
      hide Linked, NoDup, Contents, Untouched, NoneIn, AllIn, Gone;
      assert ids[..k] + ids[k..j] == ids[..j];
      assert ids[..k] + (run' + done) == ids[..k] + run' + done;
      NoDupJoin(ids[..j], done);
      Membership(k, j);
      UntouchedTrans(view, locs, v, ix.blocks, v', ix'.blocks, ids[k..j], ids[j..], ids[k..]);
      DoneLeaves(v, ix.blocks, v', ix'.blocks, ids[k..j], run', done, from, to);
      GoneToo(v, ix.blocks, v', ix'.blocks, ids[k..j], run', ids[j..], done, ids[k..]);
    }

    lemma Membership(k: nat, j: nat)
      requires k <= j <= |ids|
      ensures forall b :: b in ids[k..] <==> b in ids[k..j] || b in ids[j..]
      ensures forall b :: b in ids[k..j] ==> b in ids[..j]
    {
      assert ids[k..] == ids[k..j] + ids[j..];
    }

    /** A block outside `from` needs no move. */
    lemma SkipState(v: View, ix: Index, j: nat, done: seq<Id>, from: nat)
      requires State(v, ix, j, done, from) && j > 0
      requires ids[j - 1] in ix.blocks ==> ix.blocks[ids[j - 1]].area != from
      ensures State(v, ix, j - 1, [ids[j - 1]] + done, from)
    {
      hide Linked, NoDup, Contents;
      assert ids[..j - 1] + ([ids[j - 1]] + done) == ids[..j] + done;
      assert ids[j - 1..] == [ids[j - 1]] + ids[j..];
    }

    /** The run under way is ids[k..j]. */
    ghost predicate Gathered(v: View, ix: Index, d: Disk, from: nat, to: nat, w: GcWalk, p: GcPos) {
      && p.k <= p.j <= |ids| && State(v, ix, p.j, p.done, from) && Budget(d, p.j, from, to, p.grown)
      && RunUnderWay(v, ix.blocks, ids[p.k..p.j], from, w.dataLen)
      && (p.k < p.j ==> w.last == ids[p.j - 1]) && (w.multiple <==> p.j - p.k > 1)
    }

    ghost predicate Walk(v: View, ix: Index, d: Disk, from: nat, to: nat, w: GcWalk, p: GcPos) {
      Gathered(v, ix, d, from, to, w, p) && (p.k == p.j ==> w.last == NFFS_ID_NONE)
    }

    ghost predicate Flushed(v: View, ix: Index, d: Disk, from: nat, to: nat, k: nat, done: seq<Id>, grown: nat) {
      State(v, ix, k, done, from) && Budget(d, k, from, to, grown)
    }

    lemma Start(v: View, ix: Index, d: Disk, from: nat, to: nat)
      requires v == view && ix.blocks == locs && d == disk && DiskOk(d) && to < |d.areas|
      requires FileIn(v, ix, inode, ids) && Within(v, ids)
      requires NFFS_DISK_AREA_SIZE <= d.areas[to].cur && d.areas[to].cur + BytesIn(v, locs, ids, from) <=
               |d.areas[to].data|
      ensures Walk(v, ix, d, from, to, GcWalk(NFFS_ID_NONE, false, 0), GcPos(|ids|, |ids|, [], 0))
      ensures ids[..|ids|] == ids && ix.inodes[inode].last == LastOr(NFFS_ID_NONE, ids)
    {
      assert ids[..|ids|] + [] == ids && ids[..|ids|] == ids;
      ExtendsSelf(d);
    }

    /** The block the walk is at, and the one before it. */
    lemma Entry(v: View, ix: Index, d: Disk, from: nat, to: nat, w: GcWalk, p: GcPos)
      requires Walk(v, ix, d, from, to, w, p) && LastOr(NFFS_ID_NONE, ids[..p.k]) != NFFS_ID_NONE
      ensures p.k > 0 && ids[p.k - 1] in ix.blocks && ids[p.k - 1] in v
      ensures v[ids[p.k - 1]].inode == inode && inode in ix.inodes
      ensures v[ids[p.k - 1]].prev == LastOr(NFFS_ID_NONE, ids[..p.k - 1])
      ensures v[ids[p.k - 1]].prev == NFFS_ID_NONE || v[ids[p.k - 1]].prev in ix.blocks
      ensures if p.k < p.j then w.last != NFFS_ID_NONE && w.last != ids[p.k - 1] else w.last == NFFS_ID_NONE
      ensures Gathered(v, ix, d, from, to, if w.last == NFFS_ID_NONE then w.(last := ids[p.k - 1]) else w, p)
      ensures ids[p.k - 1] in view && view[ids[p.k - 1]] == v[ids[p.k - 1]]
      ensures ids[p.k - 1] in locs && locs[ids[p.k - 1]] == ix.blocks[ids[p.k - 1]]
    {
      hide NoDup, Contents, Untouched, BytesIn, GrowsBy, RunUnderWay;
      var c := ids[..p.j] + p.done;
      LinkedAt(v, inode, NFFS_ID_NONE, c, p.k - 1);
      assert c[..p.k - 1] == ids[..p.k - 1];
      if p.k > 1 {
        LinkedAt(v, inode, NFFS_ID_NONE, c, p.k - 2);
      }
      Same(v, ix, p.k, p.j, p.done, from);
      if p.k < p.j {
        LinkedAt(v, inode, NFFS_ID_NONE, c, p.j - 1);
        NoDupAt(ids, p.k - 1, p.j - 1);
      }
    }

    lemma NoRun(v: View, ix: Index, d: Disk, from: nat, to: nat, w: GcWalk, p: GcPos)
      requires Walk(v, ix, d, from, to, w, p)
      ensures Gathered(v, ix, d, from, to, w, p)
      ensures w.last == NFFS_ID_NONE ==>
        w == GcWalk(NFFS_ID_NONE, false, 0) && Flushed(v, ix, d, from, to, p.k, p.done, p.grown)
    {
      hide NoDup, Untouched, BytesIn, GrowsBy;
      if p.k < p.j {
        LinkedAt(v, inode, NFFS_ID_NONE, ids[..p.j] + p.done, p.j - 1);
      }
    }

    lemma EmptyRun(v: View, ix: Index, d: Disk, from: nat, to: nat, w: GcWalk, p: GcPos)
      requires Walk(v, ix, d, from, to, w, p) && w.last == NFFS_ID_NONE
      ensures p.k == p.j
    {
      hide NoDup, Untouched, BytesIn, GrowsBy;
      if p.k < p.j {
        LinkedAt(v, inode, NFFS_ID_NONE, ids[..p.j] + p.done, p.j - 1);
      }
    }

    /** The block before position `k`, lying in `from`, joins the run. */
    lemma GrowRun(v: View, ix: Index, d: Disk, from: nat, to: nat, w: GcWalk, p: GcPos, max: nat)
      requires Walk(v, ix, d, from, to, w, p) && p.k > 0 && ids[p.k - 1] in v && (p.k < p.j ==> w.last != ids[p.k - 1])
      requires ids[p.k - 1] in ix.blocks && ix.blocks[ids[p.k - 1]].area == from
      requires w.dataLen + |v[ids[p.k - 1]].data| <= max <= MAX_BLOCK_DATA
      ensures
        var last := if p.k < p.j then w.last else ids[p.k - 1];
        Walk(v, ix, d, from, to, GcWalk(last, w.multiple || last != ids[p.k - 1], w.dataLen + |v[ids[p.k - 1]].data|),
            p.(k := p.k - 1))
    {
      hide State, Budget, RunUnderWay;
      assert ids[p.k - 1..p.j] == [ids[p.k - 1]] + ids[p.k..p.j];
      RunLonger(v, ix.blocks, ids[p.k - 1], ids[p.k..p.j], from, w.dataLen);
    }

    /** After a flush the block before position `k` starts a run of its own. */
    lemma StartRun(v: View, ix: Index, d: Disk, from: nat, to: nat, k: nat, done: seq<Id>, grown: nat)
      requires Flushed(v, ix, d, from, to, k, done, grown) && 0 < k <= |ids|
      requires ids[k - 1] in view && ids[k - 1] in locs && locs[ids[k - 1]].area == from &&
               |view[ids[k - 1]].data| <= MAX_BLOCK_DATA
      ensures Walk(v, ix, d, from, to, GcWalk(ids[k - 1], false, |view[ids[k - 1]].data|), GcPos(k - 1, k, done, grown))
    {
      hide State, Budget, RunUnderWay;
      Same(v, ix, k, k, done, from);
      assert ids[k - 1..k] == [ids[k - 1]] + [];
      RunEmptyUnderWay(v, ix.blocks, from);
      RunLonger(v, ix.blocks, ids[k - 1], [], from, 0);
    }

    /** A block the walk has not reached is as it was at the start. */
    lemma Same(v: View, ix: Index, k: nat, j: nat, done: seq<Id>, from: nat)
      requires State(v, ix, j, done, from) && 0 < k <= j
      ensures j <= |ids|
      ensures ids[k - 1] in v <==> ids[k - 1] in view
      ensures ids[k - 1] in v ==> v[ids[k - 1]] == view[ids[k - 1]]
      ensures ids[k - 1] in ix.blocks <==> ids[k - 1] in locs
      ensures ids[k - 1] in locs ==> ix.blocks[ids[k - 1]] == locs[ids[k - 1]]
    {
      hide Linked, NoDup, Contents;
      assert ids == ids[..j] + ids[j..];
      NoDupJoin(ids[..j], ids[j..]);
      assert ids[k - 1] in ids[..j];
    }

    /** A block outside `from` needs no move. */
    lemma Skip(v: View, ix: Index, d: Disk, from: nat, to: nat, k: nat, done: seq<Id>, grown: nat)
      requires Flushed(v, ix, d, from, to, k, done, grown) && 0 < k <= |ids|
      requires ids[k - 1] in locs && locs[ids[k - 1]].area != from
      ensures Walk(v, ix, d, from, to, GcWalk(NFFS_ID_NONE, false, 0), GcPos(k - 1, k - 1, [ids[k - 1]] + done, grown))
    {
      hide State, BytesIn, RunUnderWay, GrowsBy;
      Same(v, ix, k, k, done, from);
      SkipState(v, ix, k, done, from);
      assert ids[..k - 1] + [ids[k - 1]] == ids[..k];
      BytesInJoin(view, locs, ids[..k - 1], [ids[k - 1]], from);
      RunEmptyUnderWay(v, ix.blocks, from);
      assert ids[k - 1..k - 1] == [];
    }

    lemma End(v: View, ix: Index, d: Disk, from: nat, to: nat, k: nat, done: seq<Id>, grown: nat)
      requires Flushed(v, ix, d, from, to, k, done, grown) && k <= |ids| &&
               LastOr(NFFS_ID_NONE, ids[..k]) == NFFS_ID_NONE
      ensures FileIn(v, ix, inode, done) && Within(v, done) && Contents(v, done) == Contents(view, ids)
      ensures Untouched(view, locs, v, ix.blocks, ids) && NoneIn(ix.blocks, done, from)
      ensures (forall b :: b in done ==> b in ids) && Gone(ix.blocks, ids, done)
      ensures Within(view, ids) && grown <= BytesIn(view, locs, ids, from) && to < |disk.areas| &&
              GrowsBy(disk, d, to, grown) && k == 0
    {
      hide NoDup, Contents, Untouched, NoneIn, BytesIn, GrowsBy;
      if k > 0 {
        LinkedAt(v, inode, NFFS_ID_NONE, ids[..k] + done, k - 1);
      }
      assert ids[..0] + done == done && ids[0..] == ids;
    }
  }
}
