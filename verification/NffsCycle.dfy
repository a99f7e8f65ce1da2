/** nffs_gc: one whole collection cycle. */
module NffsCycle {
  import opened Common
  import opened Bytes
  import opened NffsChain
  import opened NffsDisk
  import opened NffsIndex
  import opened NffsPlace
  import opened NffsVolume
  import opened NffsGc
  import opened NffsSpace

  /** The inodes still to be moved, as a list without repetition. */
  ghost predicate Lists(ix: Index, all: seq<Id>) {
    NoDup(all) && forall i :: i in all <==> i in ix.inodes
  }

  /** None of the listed inodes has anything in the area. */
  ghost predicate Emptied(v: View, ix: Index, files: Files, order: seq<Id>, area: nat)
    requires FilesOk(v, ix, files)
  {
    forall i :: i in order ==> i in ix.inodes && InodeBytes(v, ix, files, i, area) == 0
  }

  lemma EmptiedMore(v: View, ix: Index, files: Files, v': View, ix': Index, files': Files, order: seq<Id>, x: Id,
      area: nat)
    requires FilesOk(v, ix, files) && FilesOk(v', ix', files') && Visited(v, ix, files, v', ix', files', x, area)
    requires Emptied(v, ix, files, order, area) && x in ix.inodes
    ensures Emptied(v', ix', files', order + [x], area)
  {
    hide FilesOk, InodeBytes, Disjoint;
  }

  /** The loop over inodes in nffs_gc, for any order of visits and any repetition. */
  method GcInodes(vol: Volume, order: seq<Id>, from: nat, to: nat, ghost files: Files, ghost all: seq<Id>)
    returns (rc: Rc, ghost files': Files)
    requires Mounted(vol.disk, vol.index, files) && vol.maxDataSize <= MAX_BLOCK_DATA
    requires from < |vol.disk.areas| && to < |vol.disk.areas| && from != to
    requires Lists(vol.index, all) && forall i :: i in order ==> i in vol.index.inodes
    requires NFFS_DISK_AREA_SIZE <= vol.disk.areas[to].cur
    requires vol.disk.areas[to].cur + LiveBytes(ViewOf(vol.disk, vol.index), vol.index, files, all, from) <=
             |vol.disk.areas[to].data|
    modifies vol`disk, vol`index
    ensures rc == Ok && Mounted(vol.disk, vol.index, files')
    ensures SameFiles(old(vol.disk), old(vol.index), files, vol.disk, vol.index, files')
    ensures Emptied(ViewOf(vol.disk, vol.index), vol.index, files', order, from)
    ensures |vol.disk.areas| == |old(vol.disk).areas|
    ensures forall a :: 0 <= a < |vol.disk.areas| && a != to ==> vol.disk.areas[a] == old(vol.disk).areas[a]
    ensures vol.disk.areas[to].cur <= old(vol.disk).areas[to].cur +
            LiveBytes(ViewOf(old(vol.disk), old(vol.index)), old(vol.index), files, all, from)
    ensures |vol.disk.areas[to].data| == |old(vol.disk).areas[to].data| && NFFS_DISK_AREA_SIZE <= vol.disk.areas[to].cur
    ensures NoNewIds(old(vol.index), vol.index) && Extends(old(vol.disk), vol.disk)
    ensures Shrunk(files, files')
    ensures Labelled(vol.disk, vol.index) <==> Labelled(old(vol.disk), old(vol.index)) && files' == files
  {
    hide Labelled, Shrunk, FilesOk, AllLive, ViewOf, FileContents, RecordsOk, BlockIds, LiveBytes, InodeBytes,
        Extends, NoDup, RecordOk,
        SameRecord, Visited, Disjoint;
    ghost var d, ix := vol.disk, vol.index;
    SameFilesSelf(d, ix, files);
    ShrunkSelf(files);
    ExtendsSelf(d);
    files' := files;
    rc := Ok;
    var n := 0;
    while n < |order|
      invariant 0 <= n <= |order| && rc == Ok && Mounted(vol.disk, vol.index, files')
      invariant SameFiles(d, ix, files, vol.disk, vol.index, files') && Lists(vol.index, all)
      invariant Emptied(ViewOf(vol.disk, vol.index), vol.index, files', order[..n], from)
      invariant |vol.disk.areas| == |d.areas|
      invariant forall a :: 0 <= a < |d.areas| && a != to ==> vol.disk.areas[a] == d.areas[a]
      invariant |vol.disk.areas[to].data| == |d.areas[to].data| && NFFS_DISK_AREA_SIZE <= vol.disk.areas[to].cur
      invariant NoNewIds(ix, vol.index) && Shrunk(files, files') && Extends(d, vol.disk)
      invariant Labelled(vol.disk, vol.index) <==> Labelled(d, ix) && files' == files
      invariant vol.disk.areas[to].cur + LiveBytes(ViewOf(vol.disk, vol.index), vol.index, files', all, from)
             <= d.areas[to].cur + LiveBytes(ViewOf(d, ix), ix, files, all, from)
    {
      ghost var d1, ix1, files1 := vol.disk, vol.index, files';
      ghost var grown;
      OneOfAll(ViewOf(d1, ix1), ix1, files1, order[n], all, from);
      rc, files', grown := GcInode(vol, order[n], from, to, files1);
      LiveBytesVisit(ViewOf(d1, ix1), ix1, files1, ViewOf(vol.disk, vol.index), vol.index, files', order[n], all, from);
      EmptiedMore(ViewOf(d1, ix1), ix1, files1, ViewOf(vol.disk, vol.index), vol.index, files', order[..n], order[n],
          from);
      SameFilesTrans(d, ix, files, d1, ix1, files1, vol.disk, vol.index, files');
      ShrunkTrans(files, files1, files');
      ExtendsTrans(d, d1, vol.disk);
      assert order[..n] + [order[n]] == order[..n + 1];
      n := n + 1;
    }
    assert order[..n] == order;
  }

  lemma ShrunkSelf(files: Files)
    ensures Shrunk(files, files)
  {
  }

  lemma {:induction false} OneOfAll(v: View, ix: Index, files: Files, x: Id, all: seq<Id>, area: nat)
    requires FilesOk(v, ix, files) && x in all && forall i :: i in all ==> i in ix.inodes
    ensures InodeBytes(v, ix, files, x, area) <= LiveBytes(v, ix, files, all, area)
    decreases |all|
  {
    hide FilesOk, InodeBytes, Disjoint;
    assert all[0] in all;
    assert forall i :: i in all[1..] ==> i in all;
    if x != all[0] {
      OneOfAll(v, ix, files, x, all[1..], area);
    }
  }

  /** nffs_format_area: erase, then write the header; a scratch area's id stays erased. */
  method FormatArea(vol: Volume, area: nat, header: seq<byte>, isScratch: bool) returns (rc: Rc)
    requires DiskOk(vol.disk) && area < |vol.disk.areas| &&
             |header| == NFFS_DISK_AREA_SIZE <= |vol.disk.areas[area].data|
    modifies vol`disk
    ensures rc == Ok && DiskOk(vol.disk) && |vol.disk.areas| == |old(vol.disk).areas|
    ensures
      var len := if isScratch then NFFS_AREA_OFFSET_ID else NFFS_DISK_AREA_SIZE;
      var a := vol.disk.areas[area];
      && vol.disk.areas == old(vol.disk).areas[area := a]
      && a.cur == len && |a.data| == |old(vol.disk).areas[area].data| && a.data[..len] == header[..len]
      && forall o :: len <= o < |a.data| ==> a.data[o] == 0xff
  {
    var bytes := seq(|vol.disk.areas[area].data|, _ => 0xff);
    vol.disk := Disk(vol.disk.areas[area := Area(bytes, 0)]);
    var len := if isScratch then NFFS_AREA_OFFSET_ID else NFFS_DISK_AREA_SIZE;
    rc := vol.FlashWrite(area, 0, header[..len]);
  }

  /** Nothing of any file is in the area. */
  ghost predicate AreaUnused(ix: Index, area: nat) {
    && (forall b :: b in ix.blocks ==> ix.blocks[b].area != area)
    && forall i :: i in ix.inodes ==> ix.inodes[i].loc.area != area
  }

  lemma {:induction false} NoBytesNone(v: View, locs: map<Id, Loc>, ids: seq<Id>, area: nat)
    requires Within(v, ids) && BytesIn(v, locs, ids, area) == 0
    ensures NoneIn(locs, ids, area)
    decreases |ids|
  {
    if ids != [] {
      assert forall b :: b in ids[1..] ==> b in ids;
      NoBytesNone(v, locs, ids[1..], area);
      assert forall b :: b in ids ==> b == ids[0] || b in ids[1..];
    }
  }

  lemma EmptiedUnused(d: Disk, ix: Index, files: Files, order: seq<Id>, area: nat)
    requires Mounted(d, ix, files) && Emptied(ViewOf(d, ix), ix, files, order, area)
    requires forall i :: i in ix.inodes ==> i in order
    ensures AreaUnused(ix, area)
  {
    hide BytesIn, Live, BlockAt, FileIn, Disjoint;
    var v := ViewOf(d, ix);
    forall b | b in ix.blocks
      ensures ix.blocks[b].area != area
    {
      assert Owned(v, files, b);
      var i := v[b].inode;
      ChainWithin(v, ix, files, i);
      NoBytesNone(v, ix.blocks, files[i], area);
    }
    forall i | i in ix.inodes
      ensures ix.inodes[i].loc.area != area
    {
      assert RecordOk(d, ix.inodes[i]);
    }
  }

  /** The volume after the scratch area has been given an id, or erased when nothing uses it:
      no file has changed. */
  lemma UnusedArea(d: Disk, d': Disk, ix: Index, files: Files, area: nat)
    requires Mounted(d, ix, files) && AreaUnused(ix, area) && DiskOk(d') && |d'.areas| == |d.areas|
    requires forall a :: 0 <= a < |d.areas| && a != area ==> d'.areas[a] == d.areas[a]
    ensures Mounted(d', ix, files) && ViewOf(d', ix) == ViewOf(d, ix) && SameFiles(d, ix, files, d', ix, files)
  {
    hide BlockIds, FilesOk, Live, BlockAt, FileContents, RecordOk, Record, Apart;
    forall b | b in ix.blocks
      ensures Live(d', ix.blocks[b]) && BlockAt(d', ix.blocks[b]) == BlockAt(d, ix.blocks[b])
    {
      SameArea(d, d', ix.blocks[b]);
    }
    forall i | i in ix.inodes
      ensures RecordOk(d', ix.inodes[i]) && SameRecord(d, ix.inodes[i], d', ix.inodes[i])
    {
      SameAreaRecord(d, d', ix.inodes[i]);
    }
    assert ViewOf(d', ix) == ViewOf(d, ix);
    ApartUnused(d, d', ViewOf(d, ix), ix, area);
  }

  lemma UnusedLabels(d: Disk, d': Disk, ix: Index, area: nat)
    requires AreaUnused(ix, area) && |d'.areas| == |d.areas|
    requires forall a :: 0 <= a < |d.areas| && a != area ==> d'.areas[a] == d.areas[a]
    ensures Labelled(d', ix) <==> Labelled(d, ix)
  {
    hide Decode;
    forall b | b in ix.blocks
      ensures LabelAt(d', ix.blocks[b]) == LabelAt(d, ix.blocks[b])
    {
      SameAreaLabel(d, d', ix.blocks[b]);
    }
  }

  lemma ByteStays(d: Disk, d': Disk, area: nat, off: nat)
    requires Extends(d, d') && area < |d.areas| && off < d.areas[area].cur <= |d.areas[area].data|
    ensures area < |d'.areas| && off < |d'.areas[area].data| && d'.areas[area].data[off] == d.areas[area].data[off]
  {
    assert AreaExtends(d.areas[area], d'.areas[area]);
  }

  lemma SameAreaLabel(d: Disk, d': Disk, l: Loc)
    requires |d'.areas| == |d.areas| && (l.area < |d.areas| ==> d'.areas[l.area] == d.areas[l.area])
    ensures LabelAt(d', l) == LabelAt(d, l)
  {
    hide Decode;
    assert InArea(d', l.area, l.off, NFFS_DISK_BLOCK_SIZE) == InArea(d, l.area, l.off, NFFS_DISK_BLOCK_SIZE);
    if InArea(d, l.area, l.off, NFFS_DISK_BLOCK_SIZE) {
      assert ReadBytes(d', l.area, l.off, NFFS_DISK_BLOCK_SIZE) == ReadBytes(d, l.area, l.off, NFFS_DISK_BLOCK_SIZE);
    }
  }

  lemma ApartUnused(d: Disk, d': Disk, v: View, ix: Index, area: nat)
    requires v.Keys == ix.blocks.Keys && Apart(d, v, ix) && AreaUnused(ix, area) && |d'.areas| == |d.areas|
    requires forall a :: 0 <= a < |d.areas| && a != area ==> d'.areas[a] == d.areas[a]
    ensures Apart(d', v, ix)
  {
    forall o | Has(ix, o)
      ensures Inside(d', v, ix, o)
    {
      assert Inside(d, v, ix, o);
    }
  }

  lemma SameAreaRecord(d: Disk, d': Disk, n: Inode)
    requires RecordOk(d, n) && |d'.areas| == |d.areas|
    requires n.loc.area < |d.areas| ==> d'.areas[n.loc.area] == d.areas[n.loc.area]
    ensures RecordOk(d', n) && SameRecord(d, n, d', n)
  {
  }

  lemma SameArea(d: Disk, d': Disk, l: Loc)
    requires Live(d, l) && |d'.areas| == |d.areas|
    requires l.area < |d.areas| ==> d'.areas[l.area] == d.areas[l.area]
    ensures Live(d', l) && BlockAt(d', l) == BlockAt(d, l)
  {
    hide Decode, CrcOf, Disjoint;
  }

  /** The scratch area has all of its header but the id, nothing refers to it, and it is as long as any
      other area; every other area has its header. */
  ghost predicate Spare(d: Disk, ix: Index, scratch: nat) {
    && scratch < |d.areas| && d.areas[scratch].cur == NFFS_AREA_OFFSET_ID && AreaUnused(ix, scratch)
    && NFFS_DISK_AREA_SIZE <= |d.areas[scratch].data|
    && forall a :: 0 <= a < |d.areas| && a != scratch ==> HeadedArea(d.areas[a], d.areas[scratch])
  }

  ghost predicate HeadedArea(a: Area, scratch: Area) {
    NFFS_DISK_AREA_SIZE <= a.cur <= |a.data| <= |scratch.data|
  }

  /** The id in the header of an area. */
  ghost predicate HasId(a: Area, id: byte) {
    NFFS_AREA_OFFSET_ID < |a.data| && a.data[NFFS_AREA_OFFSET_ID] == id
  }

  /** nffs_gc, from the choice of the source area on.  `header` is the header of a
      freshly formatted area.  The source area is the scratch area afterwards, and
      the volume is fit for the next cycle if it is as long as any other. */
  method Gc(vol: Volume, order: seq<Id>, from: nat, scratch: nat, areaId: byte, header: seq<byte>, ghost files: Files,
      ghost all: seq<Id>)
    returns (rc: Rc, ghost files': Files)
    requires Mounted(vol.disk, vol.index, files) && vol.maxDataSize <= MAX_BLOCK_DATA
    requires from < |vol.disk.areas| && from != scratch && |header| == NFFS_DISK_AREA_SIZE
    requires Lists(vol.index, all) && forall i :: i in order <==> i in vol.index.inodes
    requires Spare(vol.disk, vol.index, scratch)
    modifies vol`disk, vol`index
    ensures rc == Ok && Mounted(vol.disk, vol.index, files')
    ensures SameFiles(old(vol.disk), old(vol.index), files, vol.disk, vol.index, files')
    ensures AreaUnused(vol.index, from) && |vol.disk.areas| == |old(vol.disk).areas| &&
            NoNewIds(old(vol.index), vol.index)
    ensures vol.disk.areas[from].cur == NFFS_AREA_OFFSET_ID
    ensures vol.disk.areas[scratch].cur <= old(vol.disk).areas[from].cur
    ensures forall a :: 0 <= a < |vol.disk.areas| ==> |vol.disk.areas[a].data| == |old(vol.disk).areas[a].data|
    ensures forall a :: 0 <= a < |vol.disk.areas| && a != from && a != scratch ==>
            vol.disk.areas[a] == old(vol.disk).areas[a]
    ensures (forall a :: 0 <= a < |old(vol.disk).areas| ==>
            |old(vol.disk).areas[a].data| <= |old(vol.disk).areas[from].data|) ==>
              Spare(vol.disk, vol.index, from)
    ensures Shrunk(files, files')
    ensures Labelled(vol.disk, vol.index) <==> Labelled(old(vol.disk), old(vol.index)) && files' == files
    ensures HasId(vol.disk.areas[scratch], areaId)
    ensures vol.disk.areas[from].data[..NFFS_AREA_OFFSET_ID] == header[..NFFS_AREA_OFFSET_ID]
  {
    hide Labelled, Shrunk, FilesOk, AllLive, ViewOf, FileContents, RecordsOk, BlockIds, LiveBytes, InodeBytes,
        Extends, NoDup, RecordOk,
        SameRecord, Emptied, AreaUnused, Disjoint;
    ghost var d, ix := vol.disk, vol.index;
    assert HeadedArea(d.areas[from], d.areas[scratch]);
    // nffs_format_from_scratch_area: the id turns the scratch area into the destination.
    LiveFits(d, ix, files, all, from);
    rc := vol.FlashWrite(scratch, NFFS_AREA_OFFSET_ID, [areaId]);
    ghost var d1 := vol.disk;
    UnusedArea(d, d1, ix, files, scratch);
    UnusedLabels(d, d1, ix, scratch);
    rc, files' := GcInodes(vol, order, from, scratch, files, all);
    SameFilesTrans(d, ix, files, d1, ix, files, vol.disk, vol.index, files');
    ByteStays(d1, vol.disk, scratch, NFFS_AREA_OFFSET_ID);
    assert vol.disk.areas[scratch].cur <= vol.disk.areas[from].cur;
    ghost var d2 := vol.disk;
    EmptiedUnused(d2, vol.index, files', order, from);
    rc := FormatArea(vol, from, header, true);
    UnusedArea(d2, vol.disk, vol.index, files', from);
    UnusedLabels(d2, vol.disk, vol.index, from);
    SameFilesTrans(d, ix, files, d2, vol.index, files', vol.disk, vol.index, files');
    SpareAgain(d, vol.disk, ix, vol.index, from, scratch);
  }

  /** Writes to other areas leave the scratch area fit for the next cycle. */
  lemma SpareKept(d: Disk, d': Disk, ix: Index, ix': Index, scratch: nat)
    requires Spare(d, ix, scratch) && Extends(d, d') && d'.areas[scratch] == d.areas[scratch] &&
             AreaUnused(ix', scratch)
    ensures Spare(d', ix', scratch)
  {
    hide AreaUnused, Extends;
    SameCount(d, d');
    forall a | 0 <= a < |d'.areas| && a != scratch
      ensures HeadedArea(d'.areas[a], d'.areas[scratch])
    {
      assert HeadedArea(d.areas[a], d.areas[scratch]);
      AreaGrows(d, d', a);
    }
  }

  lemma SameCount(d: Disk, d': Disk)
    requires Extends(d, d')
    ensures |d'.areas| == |d.areas|
  {
  }

  lemma AreaGrows(d: Disk, d': Disk, a: nat)
    requires Extends(d, d') && a < |d.areas|
    ensures |d'.areas[a].data| == |d.areas[a].data| && d.areas[a].cur <= d'.areas[a].cur <= |d'.areas[a].data|
  {
    assert AreaExtends(d.areas[a], d'.areas[a]);
  }

  lemma SpareAgain(d: Disk, d': Disk, ix: Index, ix': Index, from: nat, scratch: nat)
    requires Spare(d, ix, scratch) && from < |d.areas| == |d'.areas| && from != scratch && AreaUnused(ix', from) &&
             DiskOk(d')
    requires d'.areas[from].cur == NFFS_AREA_OFFSET_ID && |d'.areas[from].data| == |d.areas[from].data|
    requires NFFS_DISK_AREA_SIZE <= d'.areas[scratch].cur && |d'.areas[scratch].data| == |d.areas[scratch].data|
    requires forall a :: 0 <= a < |d.areas| && a != from && a != scratch ==> d'.areas[a] == d.areas[a]
    ensures (forall a :: 0 <= a < |d.areas| ==> |d.areas[a].data| <= |d.areas[from].data|) ==> Spare(d', ix', from)
  {
    hide AreaUnused, Disjoint;
    if forall a :: 0 <= a < |d.areas| ==> |d.areas[a].data| <= |d.areas[from].data| {
      assert HeadedArea(d.areas[from], d.areas[scratch]);
      forall a | 0 <= a < |d'.areas| && a != from
        ensures HeadedArea(d'.areas[a], d'.areas[from])
      {
        assert a != scratch ==> HeadedArea(d.areas[a], d.areas[scratch]);
      }
    }
  }
}
