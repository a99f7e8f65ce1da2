/** A garbage collection cycle: every inode is visited, what it has in the source
    area is moved to the destination, and the source area becomes the scratch. */
module NffsGc {
  import opened Common
  import opened Bytes
  import opened NffsChain
  import opened NffsDisk
  import opened NffsIndex
  import opened NffsPlace
  import opened NffsVolume

  const NFFS_ID_FILE_MIN := 0x1000_0000
  const NFFS_ID_FILE_MAX := 0x8000_0000
  const NFFS_AREA_OFFSET_ID := 23

  predicate IdIsFile(id: Id) {
    NFFS_ID_FILE_MIN <= id < NFFS_ID_FILE_MAX
  }

  type Files = map<Id, seq<Id>>

  // ------------------------------------------------------------ the mounted state

  /** The record of an inode lies in the written part of its area. */
  ghost predicate RecordOk(d: Disk, n: Inode) {
    n.loc.area < |d.areas| && n.loc.off + n.size <= d.areas[n.loc.area].cur <= |d.areas[n.loc.area].data| && n.size > 0
  }

  ghost predicate RecordsOk(d: Disk, ix: Index) {
    forall i :: i in ix.inodes ==> RecordOk(d, ix.inodes[i])
  }

  ghost function Record(d: Disk, n: Inode): seq<byte>
    requires RecordOk(d, n)
  {
    ReadBytes(d, n.loc.area, n.loc.off, n.size)
  }

  /** Every file has its chain, and every block belongs to one. */
  ghost predicate FilesOk(v: View, ix: Index, files: Files) {
    && (forall i :: i in files <==> i in ix.inodes && IdIsFile(i))
    && (forall i :: i in files ==> FileIn(v, ix, i, files[i]))
    && (forall b :: b in ix.blocks ==> Owned(v, files, b))
  }

  ghost predicate Owned(v: View, files: Files, b: Id) {
    b in v && v[b].inode in files && b in files[v[b].inode]
  }

  ghost predicate Mounted(d: Disk, ix: Index, files: Files) {
    DiskOk(d) && AllLive(d, ix) && BlockIds(ix) && RecordsOk(d, ix) && FilesOk(ViewOf(d, ix), ix, files) &&
        Disjoint(d, ix)
  }

  /** A disk without objects is mounted, and has no files. */
  lemma FormattedMounts(d: Disk, next: Id, free: nat)
    requires DiskOk(d)
    ensures Mounted(d, Index(map[], map[], next, free), map[])
  {
  }

  lemma ChainWithin(v: View, ix: Index, files: Files, i: Id)
    requires FilesOk(v, ix, files) && i in files
    ensures Within(v, files[i]) && FileIn(v, ix, i, files[i])
  {
    LinkedWithin(v, i, NFFS_ID_NONE, files[i]);
  }

  ghost function FileContents(v: View, ix: Index, files: Files, i: Id): seq<byte>
    requires FilesOk(v, ix, files) && i in files
  {
    ChainWithin(v, ix, files, i);
    Contents(v, files[i])
  }

  /** Every file reads the same and every inode record is the same. */
  ghost predicate SameFiles(d: Disk, ix: Index, files: Files, d': Disk, ix': Index, files': Files)
    requires Mounted(d, ix, files) && Mounted(d', ix', files')
  {
    && ix'.inodes.Keys == ix.inodes.Keys && files'.Keys == files.Keys && ix'.nextBlockId == ix.nextBlockId
    && (forall i :: i in ix.inodes ==> SameRecord(d, ix.inodes[i], d', ix'.inodes[i]))
    && (forall i :: i in files ==>
      FileContents(ViewOf(d', ix'), ix', files', i) == FileContents(ViewOf(d, ix), ix, files, i))
  }

  ghost predicate SameRecord(d: Disk, n: Inode, d': Disk, n': Inode)
    requires RecordOk(d, n) && RecordOk(d', n')
  {
    n'.size == n.size && n'.last == n.last && Record(d', n') == Record(d, n)
  }

  // ------------------------------------------------------------ bytes to move

  /** Flash bytes that inode `i`, its record and its blocks, takes in an area. */
  ghost function InodeBytes(v: View, ix: Index, files: Files, i: Id, area: nat): nat
    requires FilesOk(v, ix, files) && i in ix.inodes
  {
    (if ix.inodes[i].loc.area == area then ix.inodes[i].size else 0) + BlocksBytes(v, ix, files, i, area)
  }

  ghost function BlocksBytes(v: View, ix: Index, files: Files, i: Id, area: nat): nat
    requires FilesOk(v, ix, files)
  {
    if i !in files then 0 else
      ChainWithin(v, ix, files, i);
      BytesIn(v, ix.blocks, files[i], area)
  }

  /** Flash bytes that the listed inodes take in an area. */
  ghost function LiveBytes(v: View, ix: Index, files: Files, all: seq<Id>, area: nat): nat
    requires FilesOk(v, ix, files) && forall i :: i in all ==> i in ix.inodes
    decreases |all|
  {
    if all == [] then 0 else InodeBytes(v, ix, files, all[0], area) + LiveBytes(v, ix, files, all[1..], area)
  }

  /** What is left to move after a visit to `x`: nothing of `x`, and the same of every other inode. */
  ghost predicate Visited(v: View, ix: Index, files: Files, v': View, ix': Index, files': Files, x: Id, area: nat)
    requires FilesOk(v, ix, files) && FilesOk(v', ix', files')
  {
    && ix'.inodes.Keys == ix.inodes.Keys
    && forall i :: i in ix.inodes ==> InodeBytes(v', ix', files', i, area) == if i == x then 0
        else InodeBytes(v, ix, files, i, area)
  }

  lemma {:induction false} LiveBytesVisit(v: View, ix: Index, files: Files, v': View, ix': Index, files': Files, x: Id,
      all: seq<Id>, area: nat)
    requires FilesOk(v, ix, files) && FilesOk(v', ix', files') && Visited(v, ix, files, v', ix', files', x, area)
    requires NoDup(all) && forall i :: i in all ==> i in ix.inodes
    ensures forall i :: i in all ==> i in ix'.inodes
    ensures LiveBytes(v', ix', files', all, area) == LiveBytes(v, ix, files, all,
            area) - (if x in all then InodeBytes(v, ix, files, x, area) else 0)
    ensures x in all ==> InodeBytes(v, ix, files, x, area) <= LiveBytes(v, ix, files, all, area)
    decreases |all|
  {
    hide FilesOk, InodeBytes, Disjoint;
    if all != [] {
      assert all[0] in all;
      assert forall i :: i in all[1..] ==> i in all;
      LiveBytesVisit(v, ix, files, v', ix', files', x, all[1..], area);
      assert x in all <==> x == all[0] || x in all[1..];
    }
  }

  // ------------------------------------------------------------ one visit

  lemma RecordExtends(d: Disk, d': Disk, n: Inode)
    requires RecordOk(d, n) && Extends(d, d')
    ensures RecordOk(d', n) && Record(d', n) == Record(d, n)
  {
    ReadExtends(d, d', n.loc.area, n.loc.off, n.size);
  }

  lemma RecordsExtend(d: Disk, d': Disk, ix: Index)
    requires RecordsOk(d, ix) && Extends(d, d')
    ensures RecordsOk(d', ix) && forall i :: i in ix.inodes ==> SameRecord(d, ix.inodes[i], d', ix.inodes[i])
  {
    hide Extends, RecordOk, Record, Disjoint;
    forall i | i in ix.inodes
      ensures RecordOk(d', ix.inodes[i]) && Record(d', ix.inodes[i]) == Record(d, ix.inodes[i])
    {
      RecordExtends(d, d', ix.inodes[i]);
    }
  }

  /** The record of one inode has moved; its blocks have not. */
  ghost predicate RecordMoved(ix: Index, ix': Index, i: Id, l: Loc) {
    i in ix.inodes && ix' == ix.(inodes := ix.inodes[i := ix.inodes[i].(loc := l)])
  }

  /** A new file has its record at the end of an area and no block; the others stay. */
  lemma NewFileMounts(d: Disk, ix: Index, files: Files, x: Id, area: nat, record: seq<byte>)
    requires Mounted(d, ix, files) && IdIsFile(x) && x !in ix.inodes && record != []
    requires area < |d.areas| && NFFS_DISK_AREA_SIZE <= d.areas[area].cur &&
             CanWrite(d, area, d.areas[area].cur, |record|)
    ensures
      var d' := WriteBytes(d, area, d.areas[area].cur, record);
      var ix' := ix.(inodes := ix.inodes[x := Inode(Loc(area, d.areas[area].cur), |record|, NFFS_ID_NONE)]);
      && Mounted(d', ix', files[x := []]) && ViewOf(d', ix') == ViewOf(d, ix)
      && Record(d', ix'.inodes[x]) == record && FileContents(ViewOf(d', ix'), ix', files[x := []], x) == []
  {
    hide Extends, Live, WriteBytes, FilesOk, RecordOk, Record, ViewOf, Contents, AllLive, FileContents, SameRecord,
        Disjoint;
    var off := d.areas[area].cur;
    var d' := WriteBytes(d, area, off, record);
    var n := Inode(Loc(area, off), |record|, NFFS_ID_NONE);
    var ix' := ix.(inodes := ix.inodes[x := n]);
    WriteExtends(d, area, off, record);
    ViewExtends(d, d', ix);
    ViewBlocks(d', ix, ix');
    RecordsExtend(d, d', ix);
    NewRecord(d, area, record);
    FilesWithNew(ViewOf(d, ix), ix, ix', files, x);
    RecordPlaced(d, ix, d', ix', x, area);
  }

  lemma ViewBlocks(d: Disk, ix: Index, ix': Index)
    requires AllLive(d, ix) && ix'.blocks == ix.blocks
    ensures AllLive(d, ix') && ViewOf(d, ix') == ViewOf(d, ix) && ViewOf(d, ix).Keys == ix.blocks.Keys
  {
    hide Live, BlockAt, Disjoint;
  }

  lemma NewRecord(d: Disk, area: nat, record: seq<byte>)
    requires DiskOk(d) && record != [] && area < |d.areas| && CanWrite(d, area, d.areas[area].cur, |record|)
    ensures
      var n := Inode(Loc(area, d.areas[area].cur), |record|, NFFS_ID_NONE);
      var d' := WriteBytes(d, area, d.areas[area].cur, record);
      RecordOk(d', n) && Record(d', n) == record
  {
  }

  lemma FilesWithNew(v: View, ix: Index, ix': Index, files: Files, x: Id)
    requires FilesOk(v, ix, files) && IdIsFile(x) && x !in ix.inodes && v.Keys == ix.blocks.Keys
    requires ix'.blocks == ix.blocks && ix'.inodes.Keys == ix.inodes.Keys + {x} && ix'.inodes[x].last == NFFS_ID_NONE
    requires forall i :: i in ix.inodes ==> ix'.inodes[i] == ix.inodes[i]
    ensures FilesOk(v, ix', files[x := []]) && FileContents(v, ix', files[x := []], x) == []
  {
    hide Chain, Disjoint;
    var files' := files[x := []];
    assert Chain(v, x, []) by { NoBlocksChain(v, x); }
    forall i | i in files'
      ensures FileIn(v, ix', i, files'[i])
    {
      assert i != x ==> FileIn(v, ix, i, files[i]);
    }
    forall b | b in ix'.blocks
      ensures Owned(v, files', b)
    {
      assert Owned(v, files, b);
    }
  }

  lemma NoBlocksChain(v: View, x: Id)
    ensures Chain(v, x, [])
  {
  }

  lemma FilesAfterRecord(v: View, ix: Index, ix': Index, files: Files, i: Id, l: Loc)
    requires FilesOk(v, ix, files) && RecordMoved(ix, ix', i, l)
    ensures FilesOk(v, ix', files)
  {
    hide Chain, Disjoint;
    forall j | j in files
      ensures FileIn(v, ix', j, files[j])
    {
    }
  }

  lemma RecordVisit(v: View, ix: Index, ix': Index, files: Files, i: Id, l: Loc, j: Id, area: nat)
    requires FilesOk(v, ix, files) && RecordMoved(ix, ix', i, l) && FilesOk(v, ix', files) && j in ix.inodes &&
             l.area != area
    ensures InodeBytes(v, ix', files, j, area) == if j == i then BlocksBytes(v, ix, files, i, area)
            else InodeBytes(v, ix, files, j, area)
  {
    hide FilesOk, BytesIn, Disjoint;
  }

  lemma CopyInodeReady(d: Disk, ix: Index, files: Files, i: Id, to: nat)
    requires Mounted(d, ix, files) && i in ix.inodes && to < |d.areas|
    requires d.areas[to].cur + ix.inodes[i].size <= |d.areas[to].data|
    ensures
      var n := ix.inodes[i];
      && DiskOk(d) && n.loc.area < |d.areas| && n.loc.off + n.size <= d.areas[n.loc.area].cur && n.size > 0
      && CanWrite(d, to, d.areas[to].cur, n.size) && InArea(d, n.loc.area, n.loc.off, n.size)
  {
    hide FilesOk, AllLive, Disjoint;
    assert RecordOk(d, ix.inodes[i]);
  }

  lemma CopiedRecord(d: Disk, n: Inode, to: nat)
    requires DiskOk(d) && RecordOk(d, n) && to < |d.areas| && CanWrite(d, to, d.areas[to].cur, n.size)
    ensures
      var d' := WriteBytes(d, to, d.areas[to].cur, Record(d, n));
      var n' := n.(loc := Loc(to, d.areas[to].cur));
      RecordOk(d', n') && SameRecord(d, n, d', n')
  {
  }

  lemma RecordsAfterCopy(d: Disk, d': Disk, ix: Index, ix': Index, i: Id, l: Loc)
    requires RecordsOk(d, ix) && Extends(d, d') && RecordMoved(ix, ix', i, l)
    requires RecordOk(d', ix'.inodes[i]) && SameRecord(d, ix.inodes[i], d', ix'.inodes[i])
    ensures RecordsOk(d', ix') && forall j :: j in ix.inodes ==> SameRecord(d, ix.inodes[j], d', ix'.inodes[j])
  {
    hide Extends, RecordOk, SameRecord, Disjoint;
    RecordsExtend(d, d', ix);
  }

  lemma CopyInodeState(d: Disk, d': Disk, ix: Index, ix': Index, files: Files, i: Id, to: nat)
    requires Mounted(d, ix, files) && i in ix.inodes && to < |d.areas|
    requires InArea(d, ix.inodes[i].loc.area, ix.inodes[i].loc.off, ix.inodes[i].size)
    requires NFFS_DISK_AREA_SIZE <= d.areas[to].cur && d.areas[to].cur + ix.inodes[i].size <= |d.areas[to].data|
    requires d' == WriteBytes(d, to, d.areas[to].cur, ReadBytes(d, ix.inodes[i].loc.area, ix.inodes[i].loc.off,
             ix.inodes[i].size))
    requires ix' == ix.(inodes := ix.inodes[i := ix.inodes[i].(loc := Loc(to, d.areas[to].cur))])
    ensures RecordMoved(ix, ix', i, Loc(to, d.areas[to].cur))
    ensures Mounted(d', ix', files) && ViewOf(d', ix') == ViewOf(d, ix)
    ensures GrowsBy(d, d', to, ix.inodes[i].size)
    ensures SameFiles(d, ix, files, d', ix', files)
  {
    hide Extends, Live, BlockAt, WriteBytes, FilesOk, FileContents, RecordsOk, RecordOk, SameRecord, Disjoint;
    CopyInodeReady(d, ix, files, i, to);
    var n, l := ix.inodes[i], Loc(to, d.areas[to].cur);
    OneRecord(d, ix, i);
    CopiedRecord(d, n, to);
    CopyGrows(d, n.loc.area, n.loc.off, to, n.size);
    ViewExtends(d, d', ix);
    RecordsAfterCopy(d, d', ix, ix', i, l);
    FilesAfterRecord(ViewOf(d, ix), ix, ix', files, i, l);
    RecordPlaced(d, ix, d', ix', i, to);
    forall j | j in files
      ensures FileContents(ViewOf(d', ix'), ix', files, j) == FileContents(ViewOf(d, ix), ix, files, j)
    {
      SameContents(ViewOf(d, ix), ix, ix', files, j);
    }
  }

  lemma OneRecord(d: Disk, ix: Index, i: Id)
    requires RecordsOk(d, ix) && i in ix.inodes
    ensures RecordOk(d, ix.inodes[i])
    ensures Record(d, ix.inodes[i]) == ReadBytes(d, ix.inodes[i].loc.area, ix.inodes[i].loc.off, ix.inodes[i].size)
  {
  }

  lemma SameContents(v: View, ix: Index, ix': Index, files: Files, j: Id)
    requires FilesOk(v, ix, files) && FilesOk(v, ix', files) && j in files
    ensures FileContents(v, ix', files, j) == FileContents(v, ix, files, j)
  {
  }

  lemma SameIds(ix: Index, ix': Index)
    requires ix'.blocks == ix.blocks && ix'.nextBlockId == ix.nextBlockId && ix'.free == ix.free
    ensures NoNewIds(ix, ix')
  {
  }

  lemma RecordLabels(d: Disk, d': Disk, ix: Index, ix': Index, files: Files)
    requires Mounted(d, ix, files) && Extends(d, d') && ix'.blocks == ix.blocks
    ensures Labelled(d', ix') <==> Labelled(d, ix)
  {
    hide Extends, FilesOk, ViewOf, RecordsOk, Disjoint, LabelAt;
    LabelsExtend(d, d', ix);
    assert Labels(d', ix') == Labels(d', ix);
    SameLabels(d, ix, d', ix');
  }

  /** Files whose chains have stayed or become shorter. */
  ghost predicate Shrunk(files: Files, files': Files) {
    files'.Keys == files.Keys && forall i :: i in files ==> files'[i] == files[i] || |files'[i]| < |files[i]|
  }

  lemma ShrunkTrans(a: Files, b: Files, c: Files)
    requires Shrunk(a, b) && Shrunk(b, c)
    ensures Shrunk(a, c) && (c == a <==> b == a && c == b)
  {
  }

  lemma ShrunkOne(files: Files, i: Id, ids: seq<Id>)
    requires i in files && (ids == files[i] || |ids| < |files[i]|)
    ensures Shrunk(files, files[i := ids]) && (files[i := ids] == files <==> ids == files[i])
  {
  }

  /** nffs_gc_copy_inode: the record is copied as it is. */
  method GcCopyInode(vol: Volume, i: Id, to: nat, ghost files: Files) returns (rc: Rc)
    requires Mounted(vol.disk, vol.index, files) && i in vol.index.inodes && to < |vol.disk.areas|
    requires NFFS_DISK_AREA_SIZE <= vol.disk.areas[to].cur &&
             vol.disk.areas[to].cur + vol.index.inodes[i].size <= |vol.disk.areas[to].data|
    modifies vol`disk, vol`index
    ensures rc == Ok && Mounted(vol.disk, vol.index, files)
    ensures RecordMoved(old(vol.index), vol.index, i, Loc(to, old(vol.disk).areas[to].cur)) &&
            NoNewIds(old(vol.index), vol.index)
    ensures ViewOf(vol.disk, vol.index) == ViewOf(old(vol.disk), old(vol.index))
    ensures GrowsBy(old(vol.disk), vol.disk, to, old(vol.index).inodes[i].size)
    ensures SameFiles(old(vol.disk), old(vol.index), files, vol.disk, vol.index, files)
    ensures Labelled(vol.disk, vol.index) <==> Labelled(old(vol.disk), old(vol.index))
  {
    hide *;
    ghost var d, ix := vol.disk, vol.index;
    var n := vol.index.inodes[i];
    var off := vol.disk.areas[to].cur;
    CopyInodeReady(d, ix, files, i, to);
    rc := vol.FlashCopy(n.loc.area, n.loc.off, to, off, n.size);
    vol.index := vol.index.(inodes := vol.index.inodes[i := n.(loc := Loc(to, off))]);
    SameIds(ix, vol.index);
    RecordLabels(d, vol.disk, ix, vol.index, files);
    CopyInodeState(d, vol.disk, ix, vol.index, files, i, to);
  }

  /** The chain of file `x` has changed from `ids` to `ids'`, whose blocks come from `ids` or are new;
      no other file has changed. */
  ghost predicate BlocksMoved(v: View, ix: Index, v': View, ix': Index, x: Id, ids: seq<Id>, ids': seq<Id>) {
    && ix'.inodes.Keys == ix.inodes.Keys && (forall i :: i in ix.inodes && i != x ==> ix'.inodes[i] == ix.inodes[i])
    && FileIn(v', ix', x, ids') && v'.Keys == ix'.blocks.Keys
    && Untouched(v, ix.blocks, v', ix'.blocks, ids + ids') && Gone(ix'.blocks, ids, ids')
    && forall b :: b in ids' ==> b in ids || b !in v
  }

  /** The chain of another file shares no block with that of `x`. */
  lemma OtherChain(v: View, ix: Index, files: Files, v': View, ix': Index, x: Id, ids': seq<Id>, j: Id)
    requires FilesOk(v, ix, files) && x in files && BlocksMoved(v, ix, v', ix', x, files[x], ids') && j in files &&
             j != x
    ensures FileIn(v', ix', j, files[j]) && Within(v, files[j]) && Within(v', files[j])
    ensures Contents(v', files[j]) == Contents(v, files[j])
    ensures forall b :: b in files[j] ==> b !in files[x] && v'[b] == v[b]
  {
    hide Linked, NoDup, Contents, LastOr, Disjoint;
    ChainWithin(v, ix, files, x);
    ChainWithin(v, ix, files, j);
    forall b | b in files[j]
      ensures b !in files[x] + ids'
    {
      InodeOf(v, j, files[j], b);
      if b in files[x] {
        InodeOf(v, x, files[x], b);
      }
    }
    assert Agree(v, v', files[j]);
    LinkedFrame(v, v', j, NFFS_ID_NONE, files[j]);
  }

  lemma InodeOf(v: View, inode: Id, ids: seq<Id>, b: Id)
    requires Linked(v, inode, NFFS_ID_NONE, ids) && b in ids
    ensures b in v && v[b].inode == inode
  {
    hide Linked, Disjoint;
    var k :| 0 <= k < |ids| && ids[k] == b;
    LinkedAt(v, inode, NFFS_ID_NONE, ids, k);
  }

  lemma OwnedAfter(v: View, ix: Index, files: Files, v': View, ix': Index, x: Id, ids': seq<Id>, b: Id)
    requires FilesOk(v, ix, files) && x in files && BlocksMoved(v, ix, v', ix', x, files[x], ids') && b in ix'.blocks
    ensures Owned(v', files[x := ids'], b)
  {
    hide Linked, NoDup, LastOr, Disjoint;
    if b in files[x] + ids' {
      InodeOf(v', x, ids', b);
    } else {
      assert Owned(v, files, b);
    }
  }

  lemma FilesAfterBlocks(v: View, ix: Index, files: Files, v': View, ix': Index, x: Id, ids': seq<Id>)
    requires FilesOk(v, ix, files) && x in files && BlocksMoved(v, ix, v', ix', x, files[x], ids')
    ensures FilesOk(v', ix', files[x := ids'])
  {
    hide FileIn, Untouched, Gone, Owned, Disjoint;
    forall j | j in files && j != x
      ensures FileIn(v', ix', j, files[j])
    {
      OtherChain(v, ix, files, v', ix', x, ids', j);
    }
    forall b | b in ix'.blocks
      ensures Owned(v', files[x := ids'], b)
    {
      OwnedAfter(v, ix, files, v', ix', x, ids', b);
    }
  }

  lemma OtherBytes(v: View, ix: Index, files: Files, v': View, ix': Index, x: Id, ids': seq<Id>, j: Id, area: nat)
    requires FilesOk(v, ix, files) && x in files && BlocksMoved(v, ix, v', ix', x, files[x], ids') && j in ix.inodes &&
             j != x
    requires FilesOk(v', ix', files[x := ids'])
    ensures InodeBytes(v', ix', files[x := ids'], j, area) == InodeBytes(v, ix, files, j, area)
    ensures j in files ==> FileContents(v', ix', files[x := ids'], j) == FileContents(v, ix, files, j)
  {
    hide FilesOk, FileIn, Gone, Contents, BytesIn, Disjoint;
    if j in files {
      OtherChain(v, ix, files, v', ix', x, ids', j);
      BytesInFrame(v, ix.blocks, v', ix'.blocks, files[j], area);
    }
  }

  lemma VisitReady(d: Disk, ix: Index, files: Files, i: Id, area: nat)
    requires Mounted(d, ix, files) && i in ix.inodes
    ensures DiskOk(d) && AllLive(d, ix) && BlockIds(ix) && (i in files <==> IdIsFile(i))
    ensures i in files ==>
              && Within(ViewOf(d, ix), files[i]) && FileIn(ViewOf(d, ix), ix, i, files[i])
              && BlocksBytes(ViewOf(d, ix), ix, files, i, area) == BytesIn(ViewOf(d, ix), ix.blocks, files[i], area)
  {
    hide FileIn, Disjoint;
    if i in files {
      ChainWithin(ViewOf(d, ix), ix, files, i);
    }
  }

  /** Moving the blocks of file `x` keeps every file, and leaves none of its blocks in `from`. */
  lemma BlocksVisit(d: Disk, ix: Index, files: Files, d': Disk, ix': Index, x: Id, ids': seq<Id>, from: nat)
    requires Mounted(d, ix, files) && x in files && DiskOk(d') && AllLive(d', ix') && BlockIds(ix') &&
             Disjoint(d', ix') && Extends(d, d')
    requires BlocksMoved(ViewOf(d, ix), ix, ViewOf(d', ix'), ix', x, files[x], ids')
    requires ix'.inodes == ix.inodes && ix'.nextBlockId == ix.nextBlockId
    requires Within(ViewOf(d, ix), files[x]) && Within(ViewOf(d', ix'), ids')
    requires Contents(ViewOf(d', ix'), ids') == Contents(ViewOf(d, ix), files[x]) && NoneIn(ix'.blocks, ids', from)
    ensures Mounted(d', ix', files[x := ids']) && SameFiles(d, ix, files, d', ix', files[x := ids'])
    ensures forall j :: j in ix.inodes ==>
                          InodeBytes(ViewOf(d', ix'), ix', files[x := ids'], j, from) ==
                          if j != x then InodeBytes(ViewOf(d, ix), ix, files, j, from)
                          else if ix.inodes[x].loc.area == from then ix.inodes[x].size else 0
  {
    hide FilesOk, FileIn, Gone, Untouched, Contents, BytesIn, Live, BlockAt, Extends, RecordOk, SameRecord, NoneIn,
        ViewOf, AllLive, Disjoint;
    var v, v', files' := ViewOf(d, ix), ViewOf(d', ix'), files[x := ids'];
    FilesAfterBlocks(v, ix, files, v', ix', x, ids');
    RecordsExtend(d, d', ix);
    BytesInAll(v', ix'.blocks, ids', from);
    forall j | j in ix.inodes && j != x
      ensures InodeBytes(v', ix', files', j, from) == InodeBytes(v, ix, files, j, from)
      ensures j in files ==> FileContents(v', ix', files', j) == FileContents(v, ix, files, j)
    {
      OtherBytes(v, ix, files, v', ix', x, ids', j, from);
    }
    FileInodes(v, ix, files);
  }

  lemma FileInodes(v: View, ix: Index, files: Files)
    requires FilesOk(v, ix, files)
    ensures forall i :: i in files ==> i in ix.inodes
  {
  }

  lemma SameFilesTrans(d: Disk, ix: Index, files: Files, d1: Disk, ix1: Index, files1: Files, d2: Disk, ix2: Index,
      files2: Files)
    requires Mounted(d, ix, files) && Mounted(d1, ix1, files1) && Mounted(d2, ix2, files2)
    requires SameFiles(d, ix, files, d1, ix1, files1) && SameFiles(d1, ix1, files1, d2, ix2, files2)
    ensures SameFiles(d, ix, files, d2, ix2, files2)
  {
    hide FilesOk, AllLive, ViewOf, FileContents, RecordOk, Record, DiskOk, Disjoint;
  }

  lemma SameFilesSelf(d: Disk, ix: Index, files: Files)
    requires Mounted(d, ix, files)
    ensures SameFiles(d, ix, files, d, ix, files)
  {
    hide FilesOk, AllLive, ViewOf, FileContents, RecordOk, Record, DiskOk, Disjoint;
  }

  /** Bytes left to move once the record of `i`, if it was in `from`, has moved. */
  ghost predicate RecordVisited(v: View, ix: Index, files: Files, ix1: Index, i: Id, from: nat)
    requires FilesOk(v, ix, files) && FilesOk(v, ix1, files) && i in ix.inodes
  {
    && ix1.inodes.Keys == ix.inodes.Keys && ix1.inodes[i].loc.area != from
    && InodeBytes(v, ix1, files, i, from) == BlocksBytes(v, ix1, files, i, from) == BlocksBytes(v, ix, files, i, from)
    && forall j :: j in ix.inodes && j != i ==> InodeBytes(v, ix1, files, j, from) == InodeBytes(v, ix, files, j, from)
  }

  lemma RecordVisitAll(v: View, ix: Index, ix1: Index, files: Files, i: Id, to: nat, off: nat, from: nat)
    requires FilesOk(v, ix, files) && RecordMoved(ix, ix1, i, Loc(to, off)) && FilesOk(v, ix1, files) && to != from
    ensures RecordVisited(v, ix, files, ix1, i, from)
  {
    hide FilesOk, InodeBytes, BytesIn, Disjoint;
    forall j | j in ix.inodes
      ensures InodeBytes(v, ix1, files, j, from) == if j == i then BlocksBytes(v, ix, files, i, from)
              else InodeBytes(v, ix, files, j, from)
    {
      RecordVisit(v, ix, ix1, files, i, Loc(to, off), j, from);
    }
  }

  /** Collecting a file only moves or drops its own blocks. */
  lemma Collected(v: View, ix: Index, v': View, ix': Index, x: Id, ids: seq<Id>, ids': seq<Id>)
    requires ix'.inodes == ix.inodes && FileIn(v', ix', x, ids') && (forall b :: b in ids' ==> b in ids)
    requires Untouched(v, ix.blocks, v', ix'.blocks, ids) && Gone(ix'.blocks, ids, ids')
    ensures BlocksMoved(v, ix, v', ix', x, ids, ids')
  {
  }

  /** No block has a new id, and no entry is lost. */
  ghost predicate NoNewIds(ix: Index, ix': Index) {
    && ix'.nextBlockId == ix.nextBlockId && Entries(ix') == Entries(ix)
    && forall b :: b in ix'.blocks ==> b in ix.blocks
  }

  lemma CollectedIds(v: View, ix: Index, v': View, ix': Index, ids: seq<Id>, ids': seq<Id>)
    requires Untouched(v, ix.blocks, v', ix'.blocks, ids) && Gone(ix'.blocks, ids, ids') &&
             ix'.nextBlockId == ix.nextBlockId && Entries(ix') == Entries(ix)
    requires (forall b :: b in ids' ==> b in ids) && forall b :: b in ids ==> b in ix.blocks
    ensures NoNewIds(ix, ix')
  {
  }

  lemma ChainIds(v: View, ix: Index, files: Files, i: Id)
    requires FilesOk(v, ix, files) && i in files
    ensures forall b :: b in files[i] ==> b in ix.blocks
  {
    ChainWithin(v, ix, files, i);
  }

  /** One turn of the loop in nffs_gc: the inode's record, then its blocks. */
  method GcInode(vol: Volume, i: Id, from: nat, to: nat, ghost files: Files)
      returns (rc: Rc, ghost files': Files, ghost grown: nat)
    requires Mounted(vol.disk, vol.index, files) && i in vol.index.inodes && vol.maxDataSize <= MAX_BLOCK_DATA
    requires from < |vol.disk.areas| && to < |vol.disk.areas| && from != to
    requires NFFS_DISK_AREA_SIZE <= vol.disk.areas[to].cur
    requires vol.disk.areas[to].cur + InodeBytes(ViewOf(vol.disk, vol.index), vol.index, files, i, from) <=
             |vol.disk.areas[to].data|
    modifies vol`disk, vol`index
    ensures rc == Ok && Mounted(vol.disk, vol.index, files')
    ensures SameFiles(old(vol.disk), old(vol.index), files, vol.disk, vol.index, files')
    ensures Visited(ViewOf(old(vol.disk), old(vol.index)), old(vol.index), files, ViewOf(vol.disk, vol.index),
            vol.index, files', i, from)
    ensures grown <= InodeBytes(ViewOf(old(vol.disk), old(vol.index)), old(vol.index), files, i, from)
    ensures GrowsBy(old(vol.disk), vol.disk, to, grown) && NoNewIds(old(vol.index), vol.index)
    ensures Shrunk(files, files')
    ensures Labelled(vol.disk, vol.index) <==> Labelled(old(vol.disk), old(vol.index)) && files' == files
  {
    hide Labelled, FilesOk, AllLive, ViewOf, SameFiles, FileContents, RecordsOk, BlockIds, BytesIn, Contents, Within,
        Live,
        Extends, Untouched, Gone, NoneIn, RecordMoved, Disjoint;
    ghost var d, ix := vol.disk, vol.index;
    ghost var v := ViewOf(d, ix);
    VisitReady(d, ix, files, i, from);
    SameFilesSelf(d, ix, files);
    ExtendsSelf(d);
    files', grown := files, 0;
    if vol.index.inodes[i].loc.area == from {
      grown := vol.index.inodes[i].size;
      rc := GcCopyInode(vol, i, to, files);
      RecordVisitAll(v, ix, vol.index, files, i, to, d.areas[to].cur, from);
    }

    ghost var d1, ix1 := vol.disk, vol.index;
    assert NoNewIds(ix, ix1);
    assert RecordVisited(v, ix, files, ix1, i, from);
    VisitReady(d1, ix1, files, i, from);
    rc := Ok;
    if IdIsFile(i) {
      ghost var ids', n;
      ChainIds(ViewOf(d1, ix1), ix1, files, i);
      rc, ids', n := vol.GcInodeBlocks(i, from, to, files[i]);
      CollectedIds(ViewOf(d1, ix1), ix1, ViewOf(vol.disk, vol.index), vol.index, files[i], ids');
      GrowsTwice(d, d1, vol.disk, to, grown, n);
      grown := grown + n;
      files' := files[i := ids'];
      ShrunkOne(files, i, ids');
      Collected(ViewOf(d1, ix1), ix1, ViewOf(vol.disk, vol.index), vol.index, i, files[i], ids');
      BlocksVisit(d1, ix1, files, vol.disk, vol.index, i, ids', from);
      SameFilesTrans(d, ix, files, d1, ix1, files, vol.disk, vol.index, files');
    }
  }
}
