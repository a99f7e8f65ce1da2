/** nffs_write_to_file and the cache: what a write does to the file and to what is
    cached of it. */
module NffsUpdate {
  import opened Common
  import opened Bytes
  import opened NffsChain
  import opened NffsDisk
  import opened NffsIndex
  import opened NffsPlace
  import opened NffsVolume
  import opened NffsGc
  import opened NffsCycle
  import opened NffsCache
  import opened NffsFile
  import opened NffsWrite

  // ------------------------------------------------------------ contents

  ghost predicate Spliced(c: seq<byte>, at: nat, data: seq<byte>, c': seq<byte>) {
    at <= |c| && c' == Splice(c, at, data)
  }

  /** Two adjoining writes are one. */
  lemma SpliceJoin(c: seq<byte>, a: nat, x: seq<byte>, y: seq<byte>)
    requires a + |x| <= |c|
    ensures Splice(Splice(c, a + |x|, y), a, x) == Splice(c, a, x + y)
  {
  }

  /** Of the data for offset `at`, the bytes from `d` on have been written. */
  ghost predicate Partly(c: seq<byte>, at: nat, data: seq<byte>, d: nat, c': seq<byte>) {
    d <= |data| && if d == |data| then c' == c else at + d <= |c| && c' == Splice(c, at + d, data[d..])
  }

  lemma PartlyMore(c: seq<byte>, at: nat, data: seq<byte>, d: nat, c': seq<byte>, d': nat)
    requires Partly(c, at, data, d, c') && d' < d && at + d' <= |c|
    ensures at + d' <= |c'| && Partly(c, at, data, d', Splice(c', at + d', data[d'..d]))
  {
    hide Splice;
    if d == |data| {
      assert data[d'..d] == data[d'..];
    } else {
      SpliceJoin(c, at + d', data[d'..d], data[d..]);
      assert data[d'..d] + data[d..] == data[d'..];
    }
  }

  /** Writing into one block of the chain, past its end only if it is the last one. */
  lemma SpliceBlock(v: View, v': View, inode: Id, ids: seq<Id>, k: nat, left: nat, data: seq<byte>)
    requires Chain(v, inode, ids) && k < |ids| && ids[k] in v && left <= |v[ids[k]].data| && data != []
    requires left + |data| <= |v[ids[k]].data| || k + 1 == |ids|
    requires v' == v[ids[k] := v[ids[k]].(data := Splice(v[ids[k]].data, left, data))]
    ensures Chain(v', inode, ids) && Within(v, ids) && Within(v', ids) && Off(v, ids, k) + left <= |Contents(v, ids)|
    ensures Contents(v', ids) == Splice(Contents(v, ids), Off(v, ids, k) + left, data)
  {
    hide Linked, NoDup, Contents, Off, Splice;
    ReplaceBlock(v, v', inode, ids, k, Splice(v[ids[k]].data, left, data));
    ContentsAt(v, ids, k);
    OffContents(v, ids, k);
    if k + 1 == |ids| {
      assert ids[k + 1..] == [];
      NoBlocks(v);
    }
    SpliceMiddle(Contents(v, ids[..k]), v[ids[k]].data, Contents(v, ids[k + 1..]), left, data);
  }

  lemma NoBlocks(v: View)
    ensures Within(v, []) && Contents(v, []) == []
  {
  }

  lemma SpliceMiddle(a: seq<byte>, b: seq<byte>, c: seq<byte>, left: nat, data: seq<byte>)
    requires left <= |b| && (left + |data| <= |b| || c == [])
    ensures Splice(a + b + c, |a| + left, data) == a + Splice(b, left, data) + c
  {
    Middle(a, b, c, left);
    if left + |data| <= |b| {
      Middle(a, b, c, left + |data|);
      Regroup(a, b[..left], data, b[left + |data|..], c);
    } else {
      Regroup(a, b[..left], data, [], c);
    }
    if left + |data| == |b| && c == [] {
      assert b[|b|..] + c == [];
    }
  }

  lemma Middle(a: seq<byte>, b: seq<byte>, c: seq<byte>, n: nat)
    requires n <= |b|
    ensures (a + b + c)[..|a| + n] == a + b[..n] && (a + b + c)[|a| + n..] == b[n..] + c
  {
  }

  lemma Regroup(a: seq<byte>, b: seq<byte>, c: seq<byte>, d: seq<byte>, e: seq<byte>)
    ensures a + b + c + (d + e) == a + (b + c + d) + e
  {
  }

  // ------------------------------------------------------------ what stays in the cache

  lemma {:induction false} OffFrame(v: View, v': View, ids: seq<Id>, j: nat)
    requires j <= |ids| && forall i :: 0 <= i < j ==> Len(v', ids[i]) == Len(v, ids[i])
    ensures Off(v', ids, j) == Off(v, ids, j)
  {
    if j > 0 {
      OffFrame(v, v', ids, j - 1);
    }
  }

  /** A block of the chain has new data, of the same length. */
  lemma SameLens(v: View, v': View, ids: seq<Id>, ci: CacheInode, s: nat, t: Trust)
    requires Coherent(v, ids, ci, s, t) && forall i :: 0 <= i < |ids| ==> Len(v', ids[i]) == Len(v, ids[i])
    ensures Coherent(v', ids, ci, s, t)
  {
    hide Off;
    OffFrame(v, v', ids, |ids|);
    forall k | 0 <= k < |ci.blocks|
      ensures EntryOk(v', ids, s + k, ci.blocks[k], t)
    {
      assert EntryOk(v, ids, s + k, ci.blocks[k], t);
      OffFrame(v, v', ids, s + k);
    }
  }

  /** What can be trusted once the last block has grown: neither its cached length nor the cached size. */
  ghost function Weaker(t: Trust, ids: seq<Id>): Trust {
    var last := if ids == [] then 0 else |ids| - 1;
    Trust(Below(if t.exact.Below? && t.exact.n < last then t.exact.n else last), false)
  }

  /** The last block has grown: its cached length and the cached size are behind. */
  lemma LastGrown(v: View, v': View, ids: seq<Id>, ci: CacheInode, s: nat, t: Trust)
    requires ids != [] && Coherent(v, ids, ci, s, t)
    requires forall i :: 0 <= i < |ids| - 1 ==> Len(v', ids[i]) == Len(v, ids[i])
    requires Len(v', ids[|ids| - 1]) >= Len(v, ids[|ids| - 1])
    ensures Coherent(v', ids, ci, s, Weaker(t, ids))
  {
    hide Off;
    forall k | 0 <= k < |ci.blocks|
      ensures EntryOk(v', ids, s + k, ci.blocks[k], Weaker(t, ids))
    {
      assert EntryOk(v, ids, s + k, ci.blocks[k], t);
      OffFrame(v, v', ids, s + k);
    }
  }

  /** A block has been appended to the chain; the cached size has yet to follow. */
  lemma ChainGrown(v: View, v': View, ids: seq<Id>, b: Id, ci: CacheInode, ci': CacheInode, s: nat, t: Trust)
    requires Coherent(v, ids, ci, s, t) && t.sized && Agree(v, v', ids)
    requires ci' == ci.(fileSize := ci.fileSize + Len(v', b))
    ensures Coherent(v', ids + [b], ci', s, t)
  {
    hide Off;
    var ids' := ids + [b];
    forall j | 0 <= j <= |ids|
      ensures Off(v', ids', j) == Off(v, ids, j)
    {
      OffPrefix(v, v', ids, b, j);
    }
    OffStep(v', ids', |ids'|);
    forall k | 0 <= k < |ci.blocks|
      ensures EntryOk(v', ids', s + k, ci.blocks[k], t)
    {
      assert EntryOk(v, ids, s + k, ci.blocks[k], t);
      assert ids'[..s + k] == ids[..s + k];
      assert ids[s + k] in ids;
    }
  }

  lemma {:induction false} OffPrefix(v: View, v': View, ids: seq<Id>, b: Id, j: nat)
    requires j <= |ids| && Agree(v, v', ids)
    ensures Off(v', ids + [b], j) == Off(v, ids, j)
  {
    if j > 0 {
      assert ids[j - 1] in ids;
      OffPrefix(v, v', ids, b, j - 1);
    }
  }

  lemma CoherentFrame(v: View, v': View, ids: seq<Id>, ci: CacheInode, s: nat, t: Trust)
    requires Coherent(v, ids, ci, s, t) && Agree(v, v', ids)
    ensures Coherent(v', ids, ci, s, t)
  {
    hide Coherent;
    forall i | 0 <= i < |ids|
      ensures Len(v', ids[i]) == Len(v, ids[i])
    {
      assert ids[i] in ids;
    }
    SameLens(v, v', ids, ci, s, t);
  }

  /** Only the file `x` has changed, and what is cached of it is known to be coherent. */
  lemma CacheFrame(v: View, files: Files, v': View, files': Files, e: map<Id, CacheInode>, first: map<Id, nat>,
      doubt: map<Id, Trust>,
                   x: Id, ci: CacheInode, t: Trust)
    requires CacheOk(v, files, e, first, doubt) && x in e && x in files'
    requires OthersSame(v, files, v', files', x) && Coherent(v', files'[x], ci, first[x], t)
    ensures CacheOk(v', files', e[x := ci], first, doubt[x := t])
  {
    hide Coherent, Agree;
    forall i | i in e && i != x
      ensures i in files' && Coherent(v', files'[i], e[i], first[i], TrustIn(doubt[x := t], i))
    {
      CoherentFrame(v, v', files[i], e[i], first[i], TrustIn(doubt, i));
    }
  }

  /** No other file has changed. */
  ghost predicate OthersSame(v: View, files: Files, v': View, files': Files, x: Id) {
    files'.Keys == files.Keys && forall j :: j in files && j != x ==> files'[j] == files[j] && Agree(v, v', files[j])
  }

  // ------------------------------------------------------------ what stays on disk

  /** What the index knows about block ids: they are below the next one to be given out. */
  ghost predicate IdsBelow(ix: Index) {
    ix.nextBlockId <= NFFS_ID_NONE && forall b :: b in ix.blocks ==> b < ix.nextBlockId
  }

  lemma OthersKept(v: View, ix: Index, files: Files, v': View, ix': Index, x: Id, ids': seq<Id>)
    requires FilesOk(v, ix, files) && x in files && BlocksMoved(v, ix, v', ix', x, files[x], ids')
    ensures OthersSame(v, files, v', files[x := ids'], x)
  {
    hide FilesOk, BlocksMoved, FileIn, Contents;
    forall j | j in files && j != x
      ensures Agree(v, v', files[j])
    {
      OtherChain(v, ix, files, v', ix', x, ids', j);
    }
  }

  lemma MountedAfter(d: Disk, ix: Index, files: Files, d': Disk, ix': Index, x: Id, ids': seq<Id>)
    requires Mounted(d, ix, files) && x in files && DiskOk(d') && AllLive(d', ix') && BlockIds(ix') &&
             Disjoint(d', ix') && Extends(d, d')
    requires BlocksMoved(ViewOf(d, ix), ix, ViewOf(d', ix'), ix', x, files[x], ids')
    requires x in ix.inodes && x in ix'.inodes && ix'.inodes[x] == ix.inodes[x].(last := ix'.inodes[x].last)
    ensures Mounted(d', ix', files[x := ids']) && OthersSame(ViewOf(d, ix), files, ViewOf(d', ix'), files[x := ids'], x)
  {
    hide FilesOk, AllLive, ViewOf, Extends, RecordOk, FileIn, Untouched, Gone, SameRecord, Disjoint;
    FilesAfterBlocks(ViewOf(d, ix), ix, files, ViewOf(d', ix'), ix', x, ids');
    OthersKept(ViewOf(d, ix), ix, files, ViewOf(d', ix'), ix', x, ids');
    RecordsExtend(d, d', ix);
    forall i | i in ix'.inodes
      ensures RecordOk(d', ix'.inodes[i])
    {
      RecordLast(d', ix.inodes[i], ix'.inodes[i]);
    }
  }

  lemma RecordLast(d: Disk, n: Inode, n': Inode)
    requires RecordOk(d, n) && n' == n.(last := n'.last)
    ensures RecordOk(d, n')
  {
  }

  lemma OverMoved(v: View, ix: Index, v': View, ix': Index, x: Id, ids: seq<Id>, b: Id, l: Loc)
    requires FileIn(v, ix, x, ids) && b in ids && b in v && b in v' && Chain(v', x, ids)
    requires ix' == ix.(blocks := ix.blocks[b := l]) && v' == v[b := v'[b]]
    ensures BlocksMoved(v, ix, v', ix', x, ids, ids)
  {
    hide Chain;
  }

  lemma AppendMoved(v: View, ix: Index, v': View, ix': Index, x: Id, ids: seq<Id>, b: Id, l: Loc)
    requires FileIn(v, ix, x, ids) && b !in v && b in v' && Chain(v', x, ids + [b])
    requires ix'.blocks == ix.blocks[b := l] && ix'.inodes == ix.inodes[x := ix.inodes[x].(last := b)] &&
             v' == v[b := v'[b]]
    ensures BlocksMoved(v, ix, v', ix', x, ids, ids + [b])
  {
    hide Chain;
  }

  /** Overwriting block `k` of file `x`. */
  lemma OverMounted(d: Disk, ix: Index, files: Files, d': Disk, ix': Index, x: Id, k: nat, left: nat, data: seq<byte>,
      l: Loc)
    requires Mounted(d, ix, files) && x in files && k < |files[x]| && DiskOk(d') && AllLive(d', ix') &&
             BlockIds(ix') && Disjoint(d', ix') && Extends(d, d')
    requires files[x][k] in ViewOf(d, ix) && left <= |ViewOf(d, ix)[files[x][k]].data| && data != []
    requires left + |data| <= |ViewOf(d, ix)[files[x][k]].data| || k + 1 == |files[x]|
    requires ix' == ix.(blocks := ix.blocks[files[x][k] := l])
    requires
      var v, b := ViewOf(d, ix), files[x][k];
      ViewOf(d', ix') == v[b := v[b].(data := Splice(v[b].data, left, data))]
    ensures
      var v, v', ids := ViewOf(d, ix), ViewOf(d', ix'), files[x];
      && Mounted(d', ix', files) && OthersSame(v, files, v', files, x)
      && Within(v, ids) && Within(v', ids) && Off(v, ids, k) + left <= |Contents(v, ids)|
      && Contents(v', ids) == Splice(Contents(v, ids), Off(v, ids, k) + left, data)
  {
    hide FilesOk, AllLive, ViewOf, Extends, BlocksMoved, Mounted, Chain, OthersSame, Contents, Off, Splice, Disjoint;
    ChainFacts(d, ix, files, x);
    var v, v', ids := ViewOf(d, ix), ViewOf(d', ix'), files[x];
    FileFacts(d, ix, files, x);
    SpliceBlock(v, v', x, ids, k, left, data);
    OverMoved(v, ix, v', ix', x, ids, ids[k], l);
    MountedAfter(d, ix, files, d', ix', x, ids);
    assert files[x := ids] == files;
  }

  lemma FileFacts(d: Disk, ix: Index, files: Files, x: Id)
    requires Mounted(d, ix, files) && x in files
    ensures FileIn(ViewOf(d, ix), ix, x, files[x]) && BlockIds(ix)
  {
    hide FileIn;
  }

  /** Appending block `b` to file `x`. */
  lemma AppendMounted(d: Disk, ix: Index, files: Files, d': Disk, ix': Index, x: Id, b: Id, data: seq<byte>, l: Loc)
    requires Mounted(d, ix, files) && x in files && DiskOk(d') && AllLive(d', ix') && BlockIds(ix') &&
             Disjoint(d', ix') && Extends(d, d')
    requires b !in ix.blocks && b != NFFS_ID_NONE && data != [] && x in ix.inodes
    requires ix'.blocks == ix.blocks[b := l] && ix'.inodes == ix.inodes[x := ix.inodes[x].(last := b)]
    requires ViewOf(d', ix') == ViewOf(d, ix)[b := Block(x, ix.inodes[x].last, data)]
    ensures
      var v, v', ids := ViewOf(d, ix), ViewOf(d', ix'), files[x];
      && Mounted(d', ix', files[x := ids + [b]]) && OthersSame(v, files, v', files[x := ids + [b]], x)
      && Agree(v, v', ids) && Within(v, ids) && Within(v', ids + [b])
      && Contents(v', ids + [b]) == Contents(v, ids) + data
  {
    hide FilesOk, AllLive, Extends, BlocksMoved, Mounted, Chain, OthersSame, Contents, Disjoint;
    ChainFacts(d, ix, files, x);
    var v, v', ids := ViewOf(d, ix), ViewOf(d', ix'), files[x];
    FileFacts(d, ix, files, x);
    AppendBlock(v, v', x, ids, b, data);
    AppendMoved(v, ix, v', ix', x, ids, b, l);
    MountedAfter(d, ix, files, d', ix', x, ids + [b]);
  }

  // ------------------------------------------------------------ writing

  /** The write fits into block `k`, or that is the last block. */
  ghost predicate MayWrite(v: View, ids: seq<Id>, k: nat, left: nat, data: seq<byte>) {
    && k < |ids| && left <= Len(v, ids[k]) && 0 < |data| < WORD16
    && (left + |data| <= Len(v, ids[k]) || k + 1 == |ids|)
  }

  ghost function TrustAfter(v: View, ids: seq<Id>, k: nat, left: nat, data: seq<byte>, t: Trust): Trust {
    if k < |ids| && left + |data| > Len(v, ids[k]) then Weaker(t, ids) else t
  }

  /** What is cached of a file after a write into one of its blocks. */
  lemma CoherentAfter(v: View, v': View, ids: seq<Id>, ci: CacheInode, s: nat, k: nat, left: nat, data: seq<byte>,
      t: Trust)
    requires NoDup(ids) && Coherent(v, ids, ci, s, t) && MayWrite(v, ids, k, left, data) && ids[k] in v
    requires v' == v[ids[k] := v[ids[k]].(data := Splice(v[ids[k]].data, left, data))]
    ensures Coherent(v', ids, ci, s, TrustAfter(v, ids, k, left, data, t))
  {
    hide Coherent, NoDup, Splice;
    forall i | 0 <= i < |ids| && i != k
      ensures ids[i] != ids[k]
    {
      if i < k {
        NoDupAt(ids, i, k);
      } else {
        NoDupAt(ids, k, i);
      }
    }
    if left + |data| <= Len(v, ids[k]) {
      SameLens(v, v', ids, ci, s, t);
    } else {
      LastGrown(v, v', ids, ci, s, t);
    }
  }

  /** The ways in which a write that makes a block too long can end. */
  predicate TooLong(rc: Rc) {
    rc == ErrAssert || rc == ErrRange || rc == ErrLost
  }

  method OverBlock(fs: FileSystem, scratch: nat, x: Id, id: Id, left: nat, data: seq<byte>, ghost k: nat)
      returns (rc: Rc)
    requires fs.Valid() && x in fs.entries && MayWrite(fs.View(), fs.Ids(x), k, left, data) && id == fs.Ids(x)[k]
    requires Spare(fs.vol.disk, fs.vol.index, scratch)
    modifies fs.vol`disk, fs.vol`index, fs`doubt
    ensures Spare(fs.vol.disk, fs.vol.index, scratch)
    ensures rc != ErrLost ==> fs.Valid()
    ensures if left + |data| <= MAX_BLOCK_DATA then rc == Ok || rc == ErrFull else TooLong(rc) || rc == ErrFull
    ensures rc != Ok && rc != ErrLost ==> fs.vol.index == old(fs.vol.index) && fs.View() == old(fs.View())
    ensures rc != Ok ==> fs.doubt == old(fs.doubt)
    ensures rc == ErrFull ==> NoRoom(fs.vol.disk, scratch)
    ensures rc == ErrLost ==> Mislabelled(fs.vol.disk, fs.vol.index, id, left + |data|)
    ensures rc == Ok ==>
      OneBlock(old(fs.View()), fs.View(), id, left, data) &&
      OthersSame(old(fs.View()), fs.files, fs.View(), fs.files, x)
    ensures fs.vol.index.inodes == old(fs.vol.index).inodes && fs.vol.index.nextBlockId == old(fs.vol.index).nextBlockId
    ensures fs.vol.index.blocks.Keys == old(fs.vol.index).blocks.Keys
    ensures rc == Ok ==> Spliced(old(fs.FileData(x)), Off(old(fs.View()), fs.Ids(x), k) + left, data, fs.FileData(x))
    ensures rc == Ok ==> fs.Trusted(x) == TrustAfter(old(fs.View()), fs.Ids(x), k, left, data, old(fs.Trusted(x)))
  {
    hide Mounted, CacheOk, ViewOf, AllLive, Chain, PoolOk, Off, Contents, Linked, Within, Splice, Extends, BlockIds,
        Coherent, OthersSame, Full, NoRoom, Mislabelled, Spare, Disjoint, Labels, LabelAt;
    ghost var d, ix, v, ids := fs.vol.disk, fs.vol.index, fs.View(), fs.Ids(x);
    InFiles(v, fs.files, fs.entries, fs.first, fs.doubt, x);
    ChainFacts(d, ix, fs.files, x);
    FileFacts(d, ix, fs.files, x);
    OnDiskValid(d, ix, fs.files);
    ChainEntry(v, ix, x, ids, k);
    ghost var l;
    LenMax(d, ix, fs.files, x, k);
    FitsWord(v, ids, k, left, data, fs.vol.disk, scratch);
    rc, l := WriteOverBlock(fs.vol, scratch, id, left, data);
    if rc == Ok {
      OverMounted(d, ix, fs.files, fs.vol.disk, fs.vol.index, x, k, left, data, l);
      ghost var t := TrustAfter(v, ids, k, left, data, fs.Trusted(x));
      CoherentAfter(v, fs.View(), ids, fs.entries[x], fs.first[x], k, left, data, fs.Trusted(x));
      CacheFrame(v, fs.files, fs.View(), fs.files, fs.entries, fs.first, fs.doubt, x, fs.entries[x], t);
      assert fs.entries[x := fs.entries[x]] == fs.entries;
      fs.doubt := fs.doubt[x := t];
    } else if rc != ErrLost {
      MountedExtends(d, ix, fs.files, fs.vol.disk);
    }
  }

  /** More has been written to flash, but the index is as it was. */
  lemma MountedExtends(d: Disk, ix: Index, files: Files, d': Disk)
    requires Mounted(d, ix, files) && DiskOk(d') && Extends(d, d')
    ensures Mounted(d', ix, files)
  {
    hide Extends, FilesOk, AllLive, ViewOf, RecordOk, SameRecord, Disjoint;
    ViewExtends(d, d', ix);
    RecordsExtend(d, d', ix);
    ExtendsDisjoint(d, d', ix);
  }

  /** One block has new data. */
  ghost predicate OneBlock(v: View, v': View, b: Id, left: nat, data: seq<byte>) {
    b in v && left <= |v[b].data| && v' == v[b := v[b].(data := Splice(v[b].data, left, data))]
  }

  /** Block `k` of the chain, and the one before it, are in the index. */
  lemma ChainEntry(v: View, ix: Index, x: Id, ids: seq<Id>, k: nat)
    requires FileIn(v, ix, x, ids) && k < |ids|
    ensures ids[k] in ix.blocks && ids[k] in v && v[ids[k]].inode == x && x in ix.inodes && NoDup(ids) &&
            Len(v, ids[k]) == |v[ids[k]].data|
    ensures v[ids[k]].prev == NFFS_ID_NONE || v[ids[k]].prev in ix.blocks
  {
    hide Linked;
    SeekRead(v, x, ids, k + 1);
  }

  /** nffs_block_write_disk, for a new block at the end of a chain; `l` is where it went. */
  method BlockWriteDisk(vol: Volume, scratch: nat, h: Header, data: seq<byte>) returns (rc: Rc, l: Loc)
    requires DiskOk(vol.disk) && GoodHeader(h, data)
    modifies vol`disk
    ensures rc == if Full(old(vol.disk), scratch, NFFS_DISK_BLOCK_SIZE + |data|) then ErrFull else Ok
    ensures rc != Ok ==> vol.disk == old(vol.disk)
    ensures DiskOk(vol.disk) && Extends(old(vol.disk), vol.disk)
    ensures rc == Ok ==> Live(vol.disk, l) && BlockAt(vol.disk, l) == Block(h.inodeId, h.prevId, data)
    ensures rc == Ok ==> WrittenAt(old(vol.disk), vol.disk, l, NFFS_DISK_BLOCK_SIZE + |data|) && l.area != scratch
    ensures rc == Ok ==> LabelAt(vol.disk, l) == Label(h.id, h.seqNum)
  {
    hide Live, BlockAt, Extends, CrcOf, Full, HasRoom, BlockBytes;
    ExtendsSelf(vol.disk);
    var area, off;
    rc, area, off := ReserveSpace(vol, scratch, NFFS_DISK_BLOCK_SIZE + h.dataLen);
    l := Loc(area, off);
    if rc == Ok {
      RoomToWrite(vol.disk, area, NFFS_DISK_BLOCK_SIZE + h.dataLen);
      rc := vol.WriteBlock(area, off, h, data);
    }
  }

  /** `n` bytes have been written at the end of an area, where `l` is. */
  ghost predicate WrittenAt(d: Disk, d': Disk, l: Loc, n: nat) {
    l.area < |d.areas| && l.off == d.areas[l.area].cur && OnlyArea(d, d', l.area) && d'.areas[l.area].cur == l.off + n
  }

  lemma FreshId(ix: Index, free: nat)
    requires IdsBelow(ix) && BlockIds(ix) && ix.nextBlockId < NFFS_ID_NONE
    ensures ix.nextBlockId !in ix.blocks
    ensures IdsBelow(ix.(nextBlockId := ix.nextBlockId + 1, free := free))
  {
  }

  /** The index only differs in the next block id and in what is left in the pool. */
  lemma NextIdOnly(d: Disk, ix: Index, files: Files, next: Id, free: nat)
    requires Mounted(d, ix, files)
    ensures
      var ix' := ix.(nextBlockId := next, free := free);
      AllLive(d, ix) && AllLive(d, ix') && Mounted(d, ix', files) && ViewOf(d, ix') == ViewOf(d, ix)
  {
    hide Live, BlockAt, Chain, Disjoint;
    var ix' := ix.(nextBlockId := next, free := free);
    assert ViewOf(d, ix') == ViewOf(d, ix);
    ExtendsSelf(d);
    BlocksGone(d, ix, d, ix');
    forall i | i in files
      ensures FileIn(ViewOf(d, ix'), ix', i, files[i])
    {
      assert FileIn(ViewOf(d, ix), ix, i, files[i]);
    }
  }

  lemma LastFits(d: Disk, ix: Index, files: Files, x: Id)
    requires Mounted(d, ix, files) && x in files && x in ix.inodes
    ensures ix.inodes[x].last < 0x1_0000_0000 && x < 0x1_0000_0000
  {
    hide Live, BlockAt, NoDup, AllLive, ViewOf, RecordsOk, Owned, Disjoint;
    var ids := files[x];
    assert FileIn(ViewOf(d, ix), ix, x, ids);
    if ids != [] {
      LinkedAt(ViewOf(d, ix), x, NFFS_ID_NONE, ids, |ids| - 1);
    }
  }

  /** What an append does to the pool of entries: it fails for want of one exactly if there is none, it takes
      one otherwise, and the one it has taken is lost exactly if there is no room on flash. */
  ghost predicate Pooled(ix: Index, ix': Index, rc: Rc) {
    && (rc == ErrNoMemory <==> ix.free == 0)
    && ix'.free == (if rc == ErrNoMemory then ix.free else ix.free - 1)
    && Entries(ix') == (if rc == ErrFull then Entries(ix) - 1 else Entries(ix))
  }

  lemma PoolEmpty(ix: Index, ix': Index, rc: Rc)
    requires Pooled(ix, ix', rc)
    ensures rc == ErrNoMemory ==> ix'.free == 0
  {
  }

  /** nffs_write_append, up to the update of the cache. */
  method AppendToDisk(fs: FileSystem, scratch: nat, x: Id, data: seq<byte>) returns (rc: Rc)
    requires fs.OnDisk() && IdsBelow(fs.vol.index) && fs.vol.index.nextBlockId < NFFS_ID_NONE
    requires x in fs.files && 0 < |data| <= MAX_BLOCK_DATA
    requires Spare(fs.vol.disk, fs.vol.index, scratch)
    modifies fs.vol`disk, fs.vol`index, fs`files
    ensures Spare(fs.vol.disk, fs.vol.index, scratch)
    ensures fs.OnDisk() && IdsBelow(fs.vol.index) && fs.vol.index.nextBlockId <= old(fs.vol.index).nextBlockId + 1
    ensures rc == Ok || rc == ErrFull || rc == ErrNoMemory
    ensures Pooled(old(fs.vol.index), fs.vol.index, rc)
    ensures rc != Ok ==> fs.View() == old(fs.View()) && fs.files == old(fs.files)
    ensures rc == ErrFull ==> Full(fs.vol.disk, scratch, NFFS_DISK_BLOCK_SIZE + |data|)
    ensures rc == Ok ==>
              var b := old(fs.vol.index).nextBlockId;
              && fs.files == old(fs.files)[x := old(fs.Ids(x)) + [b]]
              && OthersSame(old(fs.View()), old(fs.files), fs.View(), fs.files, x)
              && Agree(old(fs.View()), fs.View(), old(fs.Ids(x))) && Len(fs.View(), b) == |data|
              && fs.FileData(x) == old(fs.FileData(x)) + data
              && Labels(fs.vol.disk, fs.vol.index) == Labels(old(fs.vol.disk), old(fs.vol.index))[b := Label(b, 0)]
  {
    hide Mounted, AllLive, Chain, Contents, Linked, Within, Extends, BlockIds, Live, BlockAt, CrcOf, OthersSame, Agree,
        IdsBelow, Full, Spare, Disjoint, LabelAt, Labels;
    if fs.vol.index.free == 0 {
      return ErrNoMemory;
    }
    fs.vol.index := fs.vol.index.(free := fs.vol.index.free - 1);

    ghost var d, ix := old(fs.vol.disk), old(fs.vol.index);
    ChainFacts(d, ix, fs.files, x);
    LastFits(d, ix, fs.files, x);
    OnDiskValid(d, ix, fs.files);
    var id := fs.vol.index.nextBlockId;
    fs.vol.index := fs.vol.index.(nextBlockId := id + 1);
    var h := Header(NFFS_BLOCK_MAGIC, id, 0, x, fs.vol.index.inodes[x].last, |data|, 0);
    h := FillCrc(h, data);
    var l;
    rc, l := BlockWriteDisk(fs.vol, scratch, h, data);
    FreshId(ix, ix.free - 1);
    NextIdOnly(d, ix, fs.files, id + 1, ix.free - 1);
    SpareNextId(d, ix, scratch, id + 1, ix.free - 1);
    if rc != Ok {
      return;
    }

    Appended(d, fs.vol.index, fs.files, fs.vol.disk, x, id, l, data, scratch);
    AppendLabels(d, ix, fs.vol.disk, WithBlock(fs.vol.index, x, id, l), id, l);
    fs.vol.index := fs.vol.index.(blocks := fs.vol.index.blocks[id := l],
        inodes := fs.vol.index.inodes[x := fs.vol.index.inodes[x].(last := id)]);
    EntryKept(ix.blocks, id, l);
    fs.files := fs.files[x := fs.files[x] + [id]];
  }

  lemma AppendLabels(d: Disk, ix: Index, d': Disk, ix': Index, b: Id, l: Loc)
    requires AllLive(d, ix) && Extends(d, d') && ix'.blocks == ix.blocks[b := l]
    ensures Labels(d', ix') == Labels(d, ix)[b := LabelAt(d', l)]
  {
    hide Live, Extends, LabelAt;
    LabelsExtend(d, d', ix);
    assert Labels(d', ix') == Labels(d', ix)[b := LabelAt(d', l)];
  }

  /** Block `b` of `data`, on flash at `l`, is now the last one of file `x`. */
  ghost function WithBlock(ix: Index, x: Id, b: Id, l: Loc): Index
    requires x in ix.inodes
  {
    ix.(blocks := ix.blocks[b := l], inodes := ix.inodes[x := ix.inodes[x].(last := b)])
  }

  lemma Appended(d: Disk, ix: Index, files: Files, d': Disk, x: Id, b: Id, l: Loc, data: seq<byte>, scratch: nat)
    requires Mounted(d, ix, files) && x in files && x in ix.inodes && IdsBelow(ix) && data != []
    requires b !in ix.blocks && b < NFFS_ID_NONE && b < ix.nextBlockId
    requires DiskOk(d') && Extends(d, d') && Live(d', l) && BlockAt(d', l) == Block(x, ix.inodes[x].last, data)
    requires WrittenAt(d, d', l, NFFS_DISK_BLOCK_SIZE + |data|) && l.area != scratch && Spare(d, ix, scratch)
    ensures
      var ix' := WithBlock(ix, x, b, l);
      && AllLive(d', ix') && AllLive(d, ix) && IdsBelow(ix') && Spare(d', ix', scratch)
      && Mounted(d', ix', files[x := files[x] + [b]])
      && OthersSame(ViewOf(d, ix), files, ViewOf(d', ix'), files[x := files[x] + [b]], x)
      && Agree(ViewOf(d, ix), ViewOf(d', ix'), files[x]) && Len(ViewOf(d', ix'), b) == |data|
      && Within(ViewOf(d, ix), files[x]) && Within(ViewOf(d', ix'), files[x] + [b])
      && Contents(ViewOf(d', ix'), files[x] + [b]) == Contents(ViewOf(d, ix), files[x]) + data
  {
    hide Mounted, AllLive, Chain, Contents, Linked, Within, Extends, Live, BlockAt, OthersSame, Agree, Spare, Disjoint;
    var ix' := WithBlock(ix, x, b, l);
    ChainFacts(d, ix, files, x);
    OnDiskValid(d, ix, files);
    ViewExtends(d, d', ix);
    ViewStore(d', ix, b, l);
    InodesOnly(d', ix.(blocks := ix.blocks[b := l]), ix');
    AppendPlaced(d, ix, d', ix', b, x, l, scratch);
    AppendMounted(d, ix, files, d', ix', x, b, data, l);
  }

  lemma SpareNextId(d: Disk, ix: Index, scratch: nat, next: Id, free: nat)
    requires Spare(d, ix, scratch)
    ensures Spare(d, ix.(nextBlockId := next, free := free), scratch)
  {
  }

  /** The new block does not overlap any other, and the scratch area is as it was. */
  lemma AppendPlaced(d: Disk, ix: Index, d': Disk, ix': Index, b: Id, x: Id, l: Loc, scratch: nat)
    requires Disjoint(d, ix) && Extends(d, d') && AllLive(d', ix') && Spare(d, ix, scratch) && l.area != scratch &&
             x in ix.inodes
    requires ix'.blocks == ix.blocks[b := l] && ix'.inodes == ix.inodes[x := ix.inodes[x].(last := b)]
    requires b in ViewOf(d', ix') && ViewOf(d', ix') == ViewOf(d, ix)[b := ViewOf(d', ix')[b]]
    requires WrittenAt(d, d', l, NFFS_DISK_BLOCK_SIZE + |ViewOf(d', ix')[b].data|)
    ensures Disjoint(d', ix') && Spare(d', ix', scratch)
  {
    hide Extends, AllLive, ViewOf, Disjoint;
    assert HeadedArea(d.areas[l.area], d.areas[scratch]);
    BlockPlaced(d, ix, d', ix', b, l.area);
    SpareKept(d, d', ix, ix', scratch);
  }

  lemma InodesOnly(d: Disk, ix: Index, ix': Index)
    requires AllLive(d, ix) && ix'.blocks == ix.blocks && ix'.nextBlockId == ix.nextBlockId
    ensures AllLive(d, ix') && ViewOf(d, ix') == ViewOf(d, ix) && (BlockIds(ix) ==> BlockIds(ix')) &&
            (IdsBelow(ix) ==> IdsBelow(ix'))
  {
    hide Live, BlockAt;
  }

  /** nffs_write_append */
  method WriteAppend(fs: FileSystem, scratch: nat, x: Id, data: seq<byte>) returns (rc: Rc)
    requires fs.Valid() && IdsBelow(fs.vol.index) && fs.vol.index.nextBlockId < NFFS_ID_NONE
    requires x in fs.entries && fs.Trusted(x).sized && 0 < |data| <= MAX_BLOCK_DATA
    requires Spare(fs.vol.disk, fs.vol.index, scratch)
    modifies fs.vol`disk, fs.vol`index, fs`files, fs`entries, fs`blockFree, fs`first, fs`doubt
    ensures Spare(fs.vol.disk, fs.vol.index, scratch)
    ensures fs.Valid() && x in fs.entries && IdsBelow(fs.vol.index) &&
            fs.vol.index.nextBlockId <= old(fs.vol.index).nextBlockId + 1
    ensures rc == Ok || rc == ErrFull || rc == ErrNoMemory
    ensures rc == ErrFull ==> Full(fs.vol.disk, scratch, NFFS_DISK_BLOCK_SIZE + |data|)
    ensures Pooled(old(fs.vol.index), fs.vol.index, rc)
    ensures OthersSame(old(fs.View()), old(fs.files), fs.View(), fs.files, x) && fs.Trusted(x) == old(fs.Trusted(x))
    ensures fs.FileData(x) == if rc == Ok then old(fs.FileData(x)) + data else old(fs.FileData(x))
  {
    hide Mounted, CacheOk, ViewOf, AllLive, Chain, PoolOk, Off, Contents, Linked, Within, Coherent, OthersSame, Agree,
        IdsBelow, Full, SameSizes, Sought, Spare;
    ghost var v, files, ids, ci := fs.View(), fs.files, fs.Ids(x), fs.entries[x];
    ghost var t := fs.Trusted(x);
    ghost var b := fs.vol.index.nextBlockId;
    InFiles(v, files, fs.entries, fs.first, fs.doubt, x);
    OthersRefl(v, files, x);
    rc := AppendToDisk(fs, scratch, x, data);
    if rc != Ok {
      return;
    }
    var size := fs.entries[x].fileSize + |data|;
    ChainGrown(v, fs.View(), ids, b, ci, ci.(fileSize := size), fs.first[x], t);
    CacheFrame(v, files, fs.View(), fs.files, fs.entries, fs.first, fs.doubt, x, ci.(fileSize := size), t);
    PoolSize(fs.order, fs.entries, fs.blockFree, fs.blockCapacity, x, ci.(fileSize := size));
    fs.entries := fs.entries[x := fs.entries[x].(fileSize := size)];
    fs.doubt := fs.doubt[x := t];
    ghost var e := fs.entries;
    var rc', pos := fs.CacheSeek(x, size - 1);
    SizeKept(e, fs.entries, x);
  }

  lemma OthersRefl(v: View, files: Files, x: Id)
    ensures OthersSame(v, files, v, files, x)
  {
  }

  lemma PoolSize(order: seq<Id>, e: map<Id, CacheInode>, free: nat, capacity: nat, x: Id, ci: CacheInode)
    requires PoolOk(order, e, free, capacity) && x in e && |ci.blocks| == |e[x].blocks|
    ensures PoolOk(order, e[x := ci], free, capacity)
  {
    hide NoDup, InUse;
    InUseUpdate(order, e, x, ci);
  }

  // ------------------------------------------------------------ overwriting, last block first

  /** Cached block `pos` is the one to write next: the data left to write ends at `dst`, which is in
      this block or behind the end of the file. */
  ghost predicate At(v: View, ids: seq<Id>, ci: CacheInode, s: nat, t: Trust, pos: int, dst: nat) {
    && Coherent(v, ids, ci, s, t) && 0 <= pos < |ci.blocks|
    && Off(v, ids, s + pos) < dst && (dst <= Off(v, ids, s + pos + 1) || s + pos + 1 == |ids|)
  }

  /** The bytes from `d` on have been written and end at the start of block `k`, the one behind
      cached block `pos`; or nothing has been written. */
  ghost predicate Going(v: View, ids: seq<Id>, ci: CacheInode, s: nat, t: Trust, pos: int, k: nat, at: nat, d: nat,
      n: nat) {
    && 0 < d <= n && Coherent(v, ids, ci, s, t) && -1 <= pos < |ci.blocks|
    && if d == n then t.sized && pos == -1 && ids != [] && at < Off(v, ids, |ids|)
       else 0 < k < |ids| && at + d == Off(v, ids, k) && s + pos + 1 == k && ci.blocks != []
  }

  lemma SeekAllowed(v: View, ids: seq<Id>, ci: CacheInode, s: nat, t: Trust, k: nat, at: nat, d: nat, n: nat)
    requires Going(v, ids, ci, s, t, -1, k, at, d, n)
    ensures t.sized || (ci.blocks != [] && at + d - 1 < Off(v, ids, s))
  {
    if d < n {
      assert EntryOk(v, ids, s + 0, ci.blocks[0], t);
    }
  }

  lemma AtSought(v: View, x: Id, ids: seq<Id>, ci: CacheInode, s: nat, t: Trust, k: nat, at: nat, d: nat, n: nat,
      ci': CacheInode, s': nat, pos: int)
    requires Linked(v, x, NFFS_ID_NONE, ids) && Going(v, ids, ci, s, t, -1, k, at, d, n)
    requires Sought(v, ids, ci', s', t, at + d - 1, pos)
    ensures At(v, ids, ci', s', t, pos, at + d) && (d < n ==> s' + pos + 1 == k)
  {
    hide Linked, EntryOk;
    if d < n {
      if k <= s' + pos {
        OffMono(v, ids, k, s' + pos);
      } else if k > s' + pos + 1 {
        OffLess(v, x, ids, s' + pos + 1, k);
      }
    }
  }

  lemma AtNext(v: View, x: Id, ids: seq<Id>, ci: CacheInode, s: nat, t: Trust, pos: int, k: nat, at: nat, d: nat,
      n: nat)
    requires Linked(v, x, NFFS_ID_NONE, ids) && Going(v, ids, ci, s, t, pos, k, at, d, n) && pos >= 0
    ensures At(v, ids, ci, s, t, pos, at + d)
  {
    hide Linked, EntryOk;
    OffLess(v, x, ids, s + pos, k);
  }

  /** The lengths nffs_write_chunk computes for the block at hand: the cached length of the block does
      not matter. */
  lemma ChunkStep(v: View, ids: seq<Id>, ci: CacheInode, s: nat, t: Trust, pos: int, at: nat, d: nat, data: seq<byte>,
      chunkOff: nat, chunkSz: int, dataOff: int)
    requires At(v, ids, ci, s, t, pos, at + d) && 0 < d <= |data| < WORD16 && at < Off(v, ids, |ids|)
    requires
      var cb := ci.blocks[pos];
      && chunkOff == (if cb.off < at then at - cb.off else 0)
      && chunkSz == cb.len - chunkOff + (at + d - (cb.off + cb.len)) && dataOff == cb.off + chunkOff - at
    ensures 0 <= dataOff < d && dataOff + chunkSz == d && s + pos < |ids| && ci.blocks[pos].id == ids[s + pos]
    ensures Off(v, ids, s + pos) + chunkOff == at + dataOff
    ensures MayWrite(v, ids, s + pos, chunkOff, data[dataOff..d])
    ensures dataOff > 0 ==> at + dataOff == Off(v, ids, s + pos) && s + pos > 0
    ensures at + dataOff <= Off(v, ids, |ids|)
  {
    assert EntryOk(v, ids, s + pos, ci.blocks[pos], t);
    OffStep(v, ids, s + pos + 1);
    OffMono(v, ids, s + pos, |ids|);
  }

  /** After the block has been written the scan goes on with the one before it. */
  lemma GoingOn(v: View, v': View, ids: seq<Id>, ci: CacheInode, s: nat, t': Trust, pos: int, at: nat, d: nat, n: nat,
      left: nat, data: seq<byte>)
    requires Coherent(v', ids, ci, s, t') && 0 <= pos < |ci.blocks| && NoDup(ids)
    requires s + pos < |ids| && OneBlock(v, v', ids[s + pos], left, data)
    requires 0 < d < n && at + d == Off(v, ids, s + pos) && s + pos > 0
    ensures Going(v', ids, ci, s, t', pos - 1, s + pos, at, d, n)
  {
    hide Coherent, NoDup, Splice;
    forall i | 0 <= i < s + pos
      ensures Len(v', ids[i]) == Len(v, ids[i])
    {
      NoDupAt(ids, i, s + pos);
    }
    OffFrame(v, v', ids, s + pos);
  }

  /** Find the next block to write, unless the list already gives it. */
  method Position(fs: FileSystem, x: Id, pos0: int, dst: nat, ghost k: nat, ghost at: nat, ghost d: nat, ghost n: nat)
      returns (pos: int)
    requires fs.Valid() && x in fs.entries && fs.entries[x].fileSize != 0 && dst == at + d
    requires Going(fs.View(), fs.Ids(x), fs.entries[x], fs.First(x), fs.Trusted(x), pos0, k, at, d, n)
    modifies fs`entries, fs`blockFree, fs`first
    ensures fs.Valid() && x in fs.entries && fs.entries[x].fileSize == old(fs.entries)[x].fileSize
    ensures At(fs.View(), fs.Ids(x), fs.entries[x], fs.First(x), fs.Trusted(x), pos, dst)
    ensures d < n ==> fs.First(x) + pos + 1 == k
  {
    hide Mounted, CacheOk, ViewOf, AllLive, Chain, PoolOk, Off, Linked, Coherent, SameSizes, Sought, At, Going;
    ghost var v, ids, ci, s := fs.View(), fs.Ids(x), fs.entries[x], fs.First(x);
    InFiles(v, fs.files, fs.entries, fs.first, fs.doubt, x);
    ChainFacts(fs.vol.disk, fs.vol.index, fs.files, x);
    pos := pos0;
    GoingPos(v, ids, ci, s, fs.Trusted(x), pos, k, at, d, n);
    if pos == -1 {
      SeekAllowed(v, ids, ci, s, fs.Trusted(x), k, at, d, n);
      ghost var e := fs.entries;
      var rc;
      rc, pos := fs.CacheSeek(x, dst - 1);
      SizeKept(e, fs.entries, x);
      AtSought(v, x, ids, ci, s, fs.Trusted(x), k, at, d, n, fs.entries[x], fs.First(x), pos);
    } else {
      AtNext(v, x, ids, ci, s, fs.Trusted(x), pos, k, at, d, n);
    }
  }

  lemma GoingPos(v: View, ids: seq<Id>, ci: CacheInode, s: nat, t: Trust, pos: int, k: nat, at: nat, d: nat, n: nat)
    requires Going(v, ids, ci, s, t, pos, k, at, d, n)
    ensures 0 < d <= n && -1 <= pos && (d < n ==> s + pos + 1 == k) && (d == n ==> t.sized)
    ensures d < n ==> 0 < k < |ids| && at + d == Off(v, ids, k)
  {
  }

  /** The last block of the file can take the data that goes past its end. */
  ghost predicate GrowthFits(v: View, ids: seq<Id>, at: nat, n: nat) {
    at + n > Off(v, ids, |ids|) ==> at + n - LastOff(v, ids) <= MAX_BLOCK_DATA
  }

  /** Where the last block starts. */
  ghost function LastOff(v: View, ids: seq<Id>): nat {
    if ids == [] then 0 else Off(v, ids, |ids| - 1)
  }

  /** A write may make the last block longer, but does not move it. */
  lemma LastOffStays(v: View, v': View, ids: seq<Id>, k: nat, left: nat, data: seq<byte>)
    requires MayWrite(v, ids, k, left, data) && OneBlock(v, v', ids[k], left, data) && NoDup(ids)
    ensures LastOff(v', ids) == LastOff(v, ids)
  {
    hide NoDup, Splice, Off;
    forall i | 0 <= i < |ids| - 1
      ensures Len(v', ids[i]) == Len(v, ids[i])
    {
      if i < k {
        NoDupAt(ids, i, k);
      } else if k < i {
        NoDupAt(ids, k, i);
      }
    }
    OffFrame(v, v', ids, |ids| - 1);
  }

  lemma LenMax(d: Disk, ix: Index, files: Files, x: Id, k: nat)
    requires Mounted(d, ix, files) && x in files && k < |files[x]|
    ensures AllLive(d, ix) && Len(ViewOf(d, ix), files[x][k]) <= MAX_BLOCK_DATA
  {
    hide Live, BlockAt, Chain, FilesOk, AllLive, Disjoint;
    FileFacts(d, ix, files, x);
    ChainEntry(ViewOf(d, ix), ix, x, files[x], k);
    ViewHeader(d, ix, files[x][k]);
  }

  lemma AtBound(v: View, ids: seq<Id>, ci: CacheInode, s: nat, t: Trust, pos: int, dst: nat)
    requires At(v, ids, ci, s, t, pos, dst)
    ensures 0 <= pos < |ci.blocks| && s + pos < |ids| && ci.blocks[pos].len > 0
  {
    assert EntryOk(v, ids, s + pos, ci.blocks[pos], t);
  }

  /** The block at hand becomes too long exactly when it is the last one and cannot take the data that
      goes past its end. */
  lemma GrowthAt(v: View, ids: seq<Id>, ci: CacheInode, s: nat, t: Trust, pos: int, k: nat, at: nat, d: nat, n: nat)
    requires At(v, ids, ci, s, t, pos, at + d) && s + pos < |ids| && d <= n &&
             (d < n ==> s + pos + 1 == k && k < |ids| && at + d == Off(v, ids, k))
    requires Len(v, ids[s + pos]) <= MAX_BLOCK_DATA
    ensures at + d - Off(v, ids, s + pos) > MAX_BLOCK_DATA <==> d == n && !GrowthFits(v, ids, at, n)
    ensures !GrowthFits(v, ids, at, n) && d == n ==> s + pos + 1 == |ids| && LastOff(v, ids) == Off(v, ids, s + pos)
  {
    OffStep(v, ids, s + pos + 1);
    OffMono(v, ids, s + pos + 1, |ids|);
  }

  /** One turn of the loop in nffs_write_chunk: write the block that holds the end of what is left. */
  method OverwriteOne(fs: FileSystem, scratch: nat, x: Id, at: nat, data: seq<byte>, pos0: int, dst: nat, ghost k: nat,
      ghost d: nat)
    returns (rc: Rc, pos: int, dataOff: nat, ghost k': nat)
    requires fs.Valid() && x in fs.entries && fs.CachedSize(x) != 0 && dst == at + d && d <= |data| < WORD16
    requires Going(fs.View(), fs.Ids(x), fs.entries[x], fs.First(x), fs.Trusted(x), pos0, k, at, d, |data|)
    requires at < |fs.FileData(x)|
    requires Spare(fs.vol.disk, fs.vol.index, scratch)
    modifies fs.vol`disk, fs.vol`index, fs`entries, fs`blockFree, fs`first, fs`doubt
    ensures Spare(fs.vol.disk, fs.vol.index, scratch)
    ensures rc != ErrLost ==> fs.Valid()
    ensures if d == |data| && !GrowthFits(old(fs.View()), fs.Ids(x), at, |data|) then TooLong(rc) || rc == ErrFull
            else rc == Ok || rc == ErrFull
    ensures x in fs.entries && fs.CachedSize(x) == old(fs.CachedSize(x))
    ensures rc != Ok && rc != ErrLost ==> fs.View() == old(fs.View()) && fs.doubt == old(fs.doubt)
    ensures rc == ErrFull ==> NoRoom(fs.vol.disk, scratch)
    ensures rc == ErrLost ==> LastLost(fs, x, at + |data| - LastOff(old(fs.View()), fs.Ids(x)))
    ensures rc != ErrLost ==> OthersSame(old(fs.View()), fs.files, fs.View(), fs.files, x)
    ensures fs.vol.index.nextBlockId == old(fs.vol.index).nextBlockId &&
            fs.vol.index.blocks.Keys == old(fs.vol.index).blocks.Keys
    ensures rc == Ok ==> Wrote(old(fs.FileData(x)), at, data, dataOff, d, fs.FileData(x))
    ensures rc == Ok && dataOff > 0 ==> Going(fs.View(), fs.Ids(x), fs.entries[x], fs.First(x), fs.Trusted(x), pos, k',
            at, dataOff, |data|)
    ensures rc == Ok ==> fs.Trusted(x) == if dst <= |old(fs.FileData(x))| then old(fs.Trusted(x))
            else Weaker(old(fs.Trusted(x)), fs.Ids(x))
    ensures rc != ErrLost ==> LastOff(fs.View(), fs.Ids(x)) == LastOff(old(fs.View()), fs.Ids(x))
  {
    hide Mounted, CacheOk, ViewOf, AllLive, Chain, PoolOk, Off, Contents, Linked, Within, Coherent, OthersSame, Full,
        At, Going, GrowthFits, NoRoom, LastOff, LastLost, Weaker, Spare, Wrote;
    GoingPos(fs.View(), fs.Ids(x), fs.entries[x], fs.First(x), fs.Trusted(x), pos0, k, at, d, |data|);
    pos := Position(fs, x, pos0, dst, k, at, d, |data|);
    rc, dataOff, k' := OverChunk(fs, scratch, x, at, data, pos, dst, k, d);
    pos := pos - 1;
  }

  /** The block at `pos` is the one to write next: behind its end all of the data is in place. */
  ghost predicate Chosen(v: View, ids: seq<Id>, ci: CacheInode, s: nat, t: Trust, pos: int, k: nat, at: nat, d: nat,
      n: nat)
  {
    At(v, ids, ci, s, t, pos, at + d) && (d < n ==> s + pos + 1 == k && k < |ids| && at + d == Off(v, ids, k))
  }

  lemma ChosenAt(v: View, ids: seq<Id>, ci: CacheInode, s: nat, t: Trust, pos: int, k: nat, at: nat, d: nat, n: nat)
    requires Chosen(v, ids, ci, s, t, pos, k, at, d, n)
    ensures At(v, ids, ci, s, t, pos, at + d) && 0 <= pos < |ci.blocks| && s + pos < |ids| && ci.blocks[pos].len > 0
    ensures d < n ==> s + pos + 1 == k && k < |ids| && at + d == Off(v, ids, k)
  {
    hide At;
    AtBound(v, ids, ci, s, t, pos, at + d);
  }

  /** The part of the write that falls on the cached block at `pos`. */
  method OverChunk(fs: FileSystem, scratch: nat, x: Id, at: nat, data: seq<byte>, pos: int, dst: nat, ghost k: nat,
      ghost d: nat)
    returns (rc: Rc, dataOff: nat, ghost k': nat)
    requires x in fs.entries && fs.Valid() && dst == at + d && 0 < d <= |data| < WORD16
    requires at < |fs.FileData(x)| && Spare(fs.vol.disk, fs.vol.index, scratch)
    requires Chosen(fs.View(), fs.Ids(x), fs.entries[x], fs.First(x), fs.Trusted(x), pos, k, at, d, |data|)
    modifies fs.vol`disk, fs.vol`index, fs`doubt
    ensures x in fs.entries && Spare(fs.vol.disk, fs.vol.index, scratch)
    ensures rc != ErrLost ==> fs.Valid()
    ensures if d == |data| && !GrowthFits(old(fs.View()), fs.Ids(x), at, |data|) then TooLong(rc) || rc == ErrFull
            else rc == Ok || rc == ErrFull
    ensures rc != Ok && rc != ErrLost ==> fs.View() == old(fs.View()) && fs.doubt == old(fs.doubt)
    ensures rc == ErrFull ==> NoRoom(fs.vol.disk, scratch)
    ensures rc == ErrLost ==> LastLost(fs, x, at + |data| - LastOff(old(fs.View()), fs.Ids(x)))
    ensures rc != ErrLost ==> OthersSame(old(fs.View()), fs.files, fs.View(), fs.files, x)
    ensures fs.vol.index.nextBlockId == old(fs.vol.index).nextBlockId &&
            fs.vol.index.blocks.Keys == old(fs.vol.index).blocks.Keys
    ensures rc == Ok ==> Wrote(old(fs.FileData(x)), at, data, dataOff, d, fs.FileData(x))
    ensures rc == Ok && dataOff > 0 ==>
              Going(fs.View(), fs.Ids(x), fs.entries[x], fs.First(x), fs.Trusted(x), pos - 1, k', at, dataOff, |data|)
    ensures rc == Ok ==>
              fs.Trusted(x) ==
              if dst <= |old(fs.FileData(x))| then old(fs.Trusted(x)) else Weaker(old(fs.Trusted(x)), fs.Ids(x))
    ensures rc != ErrLost ==> LastOff(fs.View(), fs.Ids(x)) == LastOff(old(fs.View()), fs.Ids(x))
  {
    hide Mounted, CacheOk, ViewOf, AllLive, Chain, PoolOk, Off, Contents, Linked, Within, Coherent, OthersSame, Full,
        At, Going, Splice, GrowthFits, MayWrite, OneBlock, NoRoom, LastOff, Mislabelled, Weaker, TrustAfter, Spare,
        Wrote, Spliced, Chosen;
    ChosenAt(fs.View(), fs.Ids(x), fs.entries[x], fs.First(x), fs.Trusted(x), pos, k, at, d, |data|);
    ghost var v, ids, t, ci, s := fs.View(), fs.Ids(x), fs.Trusted(x), fs.entries[x], fs.First(x);
    OthersRefl(v, fs.files, x);
    InFiles(v, fs.files, fs.entries, fs.first, fs.doubt, x);
    ChainFacts(fs.vol.disk, fs.vol.index, fs.files, x);
    LenMax(fs.vol.disk, fs.vol.index, fs.files, x, s + pos);
    Whole(v, ids);
    k' := s + pos;
    var cb := fs.entries[x].blocks[pos];
    var chunkOff := if cb.off < at then at - cb.off else 0;
    var chunkSz := cb.len - chunkOff;
    var blockEnd := cb.off + cb.len;
    if blockEnd != dst {
      chunkSz := chunkSz + (dst - blockEnd);
    }
    Planned(v, ids, ci, s, t, pos, k, at, d, data, chunkOff, chunkSz, cb.off + chunkOff - at);
    dataOff := cb.off + chunkOff - at;
    rc := OverBlock(fs, scratch, x, cb.id, chunkOff, data[dataOff..dataOff + chunkSz], k');
    WroteNow(old(fs.FileData(x)), at, data, dataOff, d, fs.FileData(x));
    NoDupOf(v, x, ids);
    if rc == Ok {
      LastOffStays(v, fs.View(), ids, k', chunkOff, data[dataOff..d]);
    }
    if rc == Ok && dataOff > 0 {
      InFiles(fs.View(), fs.files, fs.entries, fs.first, fs.doubt, x);
      GoingOn(v, fs.View(), ids, ci, s, fs.Trusted(x), pos, at, dataOff, |data|, chunkOff, data[dataOff..d]);
    }
  }

  /** What the chosen chunk is and what writing it needs. */
  lemma Planned(v: View, ids: seq<Id>, ci: CacheInode, s: nat, t: Trust, pos: int, k: nat, at: nat, d: nat,
      data: seq<byte>, chunkOff: nat, chunkSz: int, dataOff: int)
    requires At(v, ids, ci, s, t, pos, at + d) && 0 < d <= |data| < WORD16 && at < Off(v, ids, |ids|)
    requires d < |data| ==> s + pos + 1 == k && k < |ids| && at + d == Off(v, ids, k)
    requires s + pos < |ids| && Len(v, ids[s + pos]) <= MAX_BLOCK_DATA
    requires
      var cb := ci.blocks[pos];
      && chunkOff == (if cb.off < at then at - cb.off else 0)
      && chunkSz == cb.len - chunkOff + (at + d - (cb.off + cb.len)) && dataOff == cb.off + chunkOff - at
    ensures 0 <= dataOff < d && dataOff + chunkSz == d && ci.blocks[pos].id == ids[s + pos]
    ensures Off(v, ids, s + pos) + chunkOff == at + dataOff
    ensures MayWrite(v, ids, s + pos, chunkOff, data[dataOff..d])
    ensures dataOff > 0 ==> at + dataOff == Off(v, ids, s + pos) && s + pos > 0
    ensures TrustAfter(v, ids, s + pos, chunkOff, data[dataOff..d], t) ==
            if at + d <= Off(v, ids, |ids|) then t else Weaker(t, ids)
    ensures chunkOff + chunkSz > MAX_BLOCK_DATA <==> d == |data| && !GrowthFits(v, ids, at, |data|)
    ensures !GrowthFits(v, ids, at, |data|) && d == |data| ==>
              s + pos + 1 == |ids| && at + |data| - LastOff(v, ids) == chunkOff + chunkSz
  {
    hide At, Off, MayWrite, TrustAfter, Weaker, GrowthFits, LastOff, Len;
    AtBound(v, ids, ci, s, t, pos, at + d);
    ChunkStep(v, ids, ci, s, t, pos, at, d, data, chunkOff, chunkSz, dataOff);
    GrowsPast(v, ids, ci, s, t, pos, at, d, chunkOff, data[dataOff..d]);
    GrowthAt(v, ids, ci, s, t, pos, k, at, d, |data|);
  }

  lemma WroteNow(c: seq<byte>, at: nat, data: seq<byte>, d': nat, d: nat, c': seq<byte>)
    requires d' < d <= |data|
    ensures Spliced(c, at + d', data[d'..d], c') ==> Wrote(c, at, data, d', d, c')
  {
  }

  /** The last block of file `x` has `len` bytes but records fewer. */
  ghost predicate LastLost(fs: FileSystem, x: Id, len: int)
    reads fs, fs.vol
  {
    fs.Ids(x) != [] && len >= 0 && Mislabelled(fs.vol.disk, fs.vol.index, fs.Ids(x)[|fs.Ids(x)| - 1], len)
  }

  /** The bytes of `data` from `d'` to `d` have been written. */
  ghost predicate Wrote(c: seq<byte>, at: nat, data: seq<byte>, d': nat, d: nat, c': seq<byte>) {
    d' < d <= |data| && Spliced(c, at + d', data[d'..d], c')
  }

  /** For some size of block no area has room. */
  ghost predicate NoRoom(d: Disk, scratch: nat) {
    exists n :: NFFS_DISK_BLOCK_SIZE <= n <= 0xffff && Full(d, scratch, n)
  }

  lemma NoDupOf(v: View, x: Id, ids: seq<Id>)
    requires Chain(v, x, ids)
    ensures NoDup(ids)
  {
  }

  /** The block grows exactly when the data goes past the end of the file. */
  lemma GrowsPast(v: View, ids: seq<Id>, ci: CacheInode, s: nat, t: Trust, pos: int, at: nat, d: nat, left: nat,
      data: seq<byte>)
    requires At(v, ids, ci, s, t, pos, at + d) && Off(v, ids, s + pos) + left + |data| == at + d && s + pos < |ids|
    ensures TrustAfter(v, ids, s + pos, left, data, t) == if at + d <= Off(v, ids, |ids|) then t else Weaker(t, ids)
  {
    hide Weaker;
    OffStep(v, ids, s + pos + 1);
    OffMono(v, ids, s + pos + 1, |ids|);
  }

  lemma FitsWord(v: View, ids: seq<Id>, k: nat, left: nat, data: seq<byte>, d: Disk, scratch: nat)
    requires MayWrite(v, ids, k, left, data) && Len(v, ids[k]) <= MAX_BLOCK_DATA && ids[k] in v
    ensures
      var n := |Splice(v[ids[k]].data, left, data)|;
      && (n <= MAX_BLOCK_DATA <==> left + |data| <= MAX_BLOCK_DATA) && (n > MAX_BLOCK_DATA ==> n == left + |data|)
      && (n <= MAX_BLOCK_DATA && Full(d, scratch, NFFS_DISK_BLOCK_SIZE + n) ==> NoRoom(d, scratch))
      && (n % WORD16 <= MAX_BLOCK_DATA && Full(d, scratch, NFFS_DISK_BLOCK_SIZE + n % WORD16) ==> NoRoom(d, scratch))
  {
    hide Full;
  }

  lemma OthersTrans(v: View, files: Files, v1: View, files1: Files, v2: View, files2: Files, x: Id)
    requires OthersSame(v, files, v1, files1, x) && OthersSame(v1, files1, v2, files2, x)
    ensures OthersSame(v, files, v2, files2, x)
  {
    forall j | j in files && j != x
      ensures files2[j] == files[j] && Agree(v, v2, files[j])
    {
      assert files1[j] == files[j] && Agree(v, v1, files[j]) && Agree(v1, v2, files1[j]);
    }
  }

  lemma PartlyFacts(c: seq<byte>, at: nat, data: seq<byte>, d: nat, c': seq<byte>, d': nat, c'': seq<byte>)
    requires Partly(c, at, data, d, c') && Wrote(c', at, data, d', d, c'') && at <= |c| &&
             (d == |data| || at + d <= |c|)
    ensures |c'| >= |c| && Partly(c, at, data, d', c'') && (d < |data| ==> at + d <= |c'|) && |c''| >= |c|
    ensures d' == 0 ==> c'' == Splice(c, at, data)
    ensures d' > 0 ==> at + d' <= |c| || d == |data|
  {
    if at + d' <= |c| {
      PartlyMore(c, at, data, d, c', d');
    }
    assert d' == 0 ==> data[d'..] == data;
  }

  lemma IdsKept(ix: Index, ix': Index)
    requires IdsBelow(ix) && ix'.nextBlockId == ix.nextBlockId && ix'.blocks.Keys == ix.blocks.Keys
    ensures IdsBelow(ix')
  {
    forall b | b in ix'.blocks
      ensures b < ix'.nextBlockId
    {
      assert b in ix.blocks;
    }
  }

  /** The overwriting part of nffs_write_chunk: all blocks the data falls into, last one first. */
  method Overwrite(fs: FileSystem, scratch: nat, x: Id, at: nat, data: seq<byte>) returns (rc: Rc, ghost d: nat)
    requires fs.Valid() && x in fs.entries && IdsBelow(fs.vol.index) && 0 < |data| < WORD16 && fs.Trusted(x).sized
    requires at < |fs.FileData(x)|
    requires Spare(fs.vol.disk, fs.vol.index, scratch)
    modifies fs.vol`disk, fs.vol`index, fs`entries, fs`blockFree, fs`first, fs`doubt
    ensures Spare(fs.vol.disk, fs.vol.index, scratch)
    ensures rc != ErrLost ==> fs.Valid()
    ensures if GrowthFits(old(fs.View()), fs.Ids(x), at, |data|) then rc == Ok || rc == ErrFull
            else TooLong(rc) || rc == ErrFull
    ensures x in fs.entries && IdsBelow(fs.vol.index) && fs.CachedSize(x) == old(fs.CachedSize(x)) ==
            |old(fs.FileData(x))|
    ensures rc == ErrFull ==> NoRoom(fs.vol.disk, scratch)
    ensures rc == ErrLost ==> LastLost(fs, x, at + |data| - LastOff(old(fs.View()), fs.Ids(x)))
    ensures fs.vol.index.nextBlockId == old(fs.vol.index).nextBlockId
    ensures rc != ErrLost ==> OthersSame(old(fs.View()), fs.files, fs.View(), fs.files, x)
    ensures rc != ErrLost ==> Partly(old(fs.FileData(x)), at, data, d, fs.FileData(x)) && (rc == Ok ==> d == 0)
    ensures rc != ErrLost ==>
              fs.Trusted(x) == if d < |data| && at + |data| > |old(fs.FileData(x))| then
                  Weaker(old(fs.Trusted(x)), fs.Ids(x)) else old(fs.Trusted(x))
    ensures rc != ErrLost ==> LastOff(fs.View(), fs.Ids(x)) == LastOff(old(fs.View()), fs.Ids(x))
  {
    hide Mounted, CacheOk, ViewOf, AllLive, Chain, PoolOk, Off, Contents, Linked, Within, Coherent, OthersSame, Going,
        Splice, GrowthFits, NoRoom, IdsBelow, Partly, Wrote, LastOff, Weaker, LastLost, Spare;
    ghost var v, c, t := fs.View(), fs.FileData(x), fs.Trusted(x);
    InFiles(v, fs.files, fs.entries, fs.first, fs.doubt, x);
    ChainFacts(fs.vol.disk, fs.vol.index, fs.files, x);
    Whole(v, fs.Ids(x));
    GoingStart(v, fs.Ids(x), fs.entries[x], fs.First(x), t, at, data, c);
    OthersRefl(v, fs.files, x);
    var dst, pos := at + |data|, -1;
    var dataOff: nat := |data|;
    ghost var k: nat := 0;
    var more := true;
    rc := Ok;
    while more
      invariant fs.Valid() && x in fs.entries && fs.CachedSize(x) == |c| && IdsBelow(fs.vol.index)
      invariant fs.vol.index.nextBlockId == old(fs.vol.index).nextBlockId && rc == Ok && dataOff <= |data| &&
                dst == at + dataOff
      invariant Spare(fs.vol.disk, fs.vol.index, scratch)
      invariant OthersSame(v, fs.files, fs.View(), fs.files, x) && Partly(c, at, data, dataOff, fs.FileData(x)) &&
                |fs.FileData(x)| >= |c|
      invariant more ==> Going(fs.View(), fs.Ids(x), fs.entries[x], fs.First(x), fs.Trusted(x), pos, k, at, dataOff,
                |data|)
      invariant more ==> dataOff == |data| || at + dataOff <= |c|
      invariant if dataOff == |data| then more && fs.View() == v &&
                fs.FileData(x) == c else GrowthFits(v, fs.Ids(x), at, |data|)
      invariant !more ==> dataOff == 0
      invariant LastOff(fs.View(), fs.Ids(x)) == LastOff(v, fs.Ids(x))
      invariant fs.Trusted(x) == if dataOff < |data| && at + |data| > |c| then Weaker(t, fs.Ids(x)) else t
      decreases dataOff, more
    {
      ghost var v1, c1, ix1 := fs.View(), fs.FileData(x), fs.vol.index;
      ghost var off1 := dataOff;
      d := dataOff;
      var off2;
      rc, pos, off2, k := OverwriteOne(fs, scratch, x, at, data, pos, dst, k, off1);
      IdsKept(ix1, fs.vol.index);
      if rc == ErrLost {
        return;
      }
      OthersTrans(v, fs.files, v1, fs.files, fs.View(), fs.files, x);
      if rc != Ok {
        return;
      }
      dataOff := off2;
      PartlyFacts(c, at, data, off1, c1, dataOff, fs.FileData(x));
      dst := at + dataOff;
      WroteLess(c1, at, data, dataOff, off1, fs.FileData(x));
      more := dataOff > 0;
    }
    d := 0;
  }

  lemma WroteLess(c: seq<byte>, at: nat, data: seq<byte>, d': nat, d: nat, c': seq<byte>)
    requires Wrote(c, at, data, d', d, c')
    ensures d' < d <= |data|
  {
  }

  lemma GoingStart(v: View, ids: seq<Id>, ci: CacheInode, s: nat, t: Trust, at: nat, data: seq<byte>, c: seq<byte>)
    requires Coherent(v, ids, ci, s, t) && t.sized && |c| == Off(v, ids, |ids|) && at < |c| && data != []
    ensures Going(v, ids, ci, s, t, -1, 0, at, |data|, |data|) && ci.fileSize == |c| && Partly(c, at, data, |data|, c)
  {
  }

  /** The cached size catches up with a block that has grown. */
  lemma SizeCatchesUp(v: View, files: Files, e: map<Id, CacheInode>, first: map<Id, nat>, doubt: map<Id, Trust>, x: Id,
      size: nat)
    requires CacheOk(v, files, e, first, doubt) && x in e && size == Off(v, files[x], |files[x]|)
    ensures CacheOk(v, files, e[x := e[x].(fileSize := size)], first, doubt[x := TrustIn(doubt, x).(sized := true)])
  {
    hide EntryOk, Off;
    var t := TrustIn(doubt, x).(sized := true);
    var ci := e[x].(fileSize := size);
    assert Run(v, files[x], first[x], ci.blocks, t) by {
      forall k | 0 <= k < |ci.blocks|
        ensures EntryOk(v, files[x], first[x] + k, ci.blocks[k], t)
      {
        SizeDoesNotMatter(v, files[x], first[x] + k, ci.blocks[k], TrustIn(doubt, x), t);
      }
    }
  }

  lemma SizeDoesNotMatter(v: View, ids: seq<Id>, k: nat, cb: CacheBlock, t: Trust, t': Trust)
    requires k < |ids| && EntryOk(v, ids, k, cb, t) && t'.exact == t.exact
    ensures EntryOk(v, ids, k, cb, t')
  {
  }

  /** nffs_write_chunk.  It succeeds, unless there is no room or memory, exactly if the last block can take
      the data that goes past its end. */
  method WriteChunk(fs: FileSystem, scratch: nat, x: Id, at: nat, data: seq<byte>) returns (rc: Rc, ghost d: nat)
    requires fs.Valid() && x in fs.entries && IdsBelow(fs.vol.index) && fs.vol.index.nextBlockId < NFFS_ID_NONE
    requires 0 < |data| <= MAX_BLOCK_DATA && at <= |fs.FileData(x)| && fs.Trusted(x).sized
    requires Spare(fs.vol.disk, fs.vol.index, scratch)
    modifies fs.vol`disk, fs.vol`index, fs`files, fs`entries, fs`blockFree, fs`first, fs`doubt
    ensures Spare(fs.vol.disk, fs.vol.index, scratch)
    ensures rc != ErrLost ==> fs.Valid()
    ensures
      if at == |old(fs.FileData(x))| || GrowthFits(old(fs.View()), old(fs.Ids(x)), at, |data|)
      then rc == Ok || rc == ErrFull || rc == ErrNoMemory
      else TooLong(rc) || rc == ErrFull
    ensures x in fs.entries && IdsBelow(fs.vol.index) && fs.vol.index.nextBlockId <= old(fs.vol.index).nextBlockId + 1
    ensures rc == ErrFull ==> NoRoom(fs.vol.disk, scratch)
    ensures rc == ErrNoMemory ==> fs.vol.index.free == 0
    ensures rc == ErrLost ==> LastLost(fs, x, at + |data| - LastOff(old(fs.View()), old(fs.Ids(x))))
    ensures rc != ErrLost ==> OthersSame(old(fs.View()), old(fs.files), fs.View(), fs.files, x)
    ensures rc != ErrLost ==> Partly(old(fs.FileData(x)), at, data, d, fs.FileData(x))
    ensures rc == Ok ==> d == 0 && fs.Trusted(x) == ChunkTrust(old(fs.Trusted(x)), old(fs.Ids(x)),
            |old(fs.FileData(x))|, at, |data|)
    ensures rc == Ok && at < |old(fs.FileData(x))| ==>
              SameLast(old(fs.View()), old(fs.Ids(x)), fs.View(), fs.Ids(x)) &&
                  fs.vol.index.nextBlockId == old(fs.vol.index).nextBlockId
  {
    hide Mounted, CacheOk, ViewOf, AllLive, Chain, PoolOk, Off, Contents, Linked, Within, Coherent, OthersSame, Splice,
        GrowthFits, NoRoom, IdsBelow, Partly, Full, LastOff, LastLost, Spare, Pooled, Weaker;
    ghost var c := fs.FileData(x);
    InFiles(fs.View(), fs.files, fs.entries, fs.first, fs.doubt, x);
    ChainFacts(fs.vol.disk, fs.vol.index, fs.files, x);
    Whole(fs.View(), fs.Ids(x));
    SizedOf(fs.View(), fs.Ids(x), fs.entries[x], fs.First(x), fs.Trusted(x));
    if at == fs.entries[x].fileSize {
      rc := WriteAppend(fs, scratch, x, data);
      d := if rc == Ok then 0 else |data|;
      SpliceEnd(c, data);
      FullNoRoom(fs.vol.disk, scratch, |data|);
      PoolEmpty(old(fs.vol.index), fs.vol.index, rc);
      return;
    }
    var append := if at + |data| > fs.entries[x].fileSize then at + |data| - fs.entries[x].fileSize else 0;
    ghost var v, ids := fs.View(), fs.Ids(x);
    rc, d := Overwrite(fs, scratch, x, at, data);
    if rc == Ok {
      InFiles(fs.View(), fs.files, fs.entries, fs.first, fs.doubt, x);
      ChainFacts(fs.vol.disk, fs.vol.index, fs.files, x);
      Whole(fs.View(), fs.Ids(x));
      PartlyAll(c, at, data, fs.FileData(x));
      ghost var t := fs.Trusted(x).(sized := true);
      SizeCatchesUp(fs.View(), fs.files, fs.entries, fs.first, fs.doubt, x, fs.entries[x].fileSize + append);
      PoolSize(fs.order, fs.entries, fs.blockFree, fs.blockCapacity, x,
          fs.entries[x].(fileSize := fs.entries[x].fileSize + append));
      fs.entries := fs.entries[x := fs.entries[x].(fileSize := fs.entries[x].fileSize + append)];
      fs.doubt := fs.doubt[x := t];
    }
  }

  /** What can be trusted after a chunk: the length of a last block that has grown is in doubt. */
  ghost function ChunkTrust(t: Trust, ids: seq<Id>, size: nat, at: nat, n: nat): Trust {
    if at < size < at + n then Weaker(t, ids).(sized := true) else t
  }

  /** The last block starts where it did. */
  ghost predicate SameLast(v: View, ids: seq<Id>, v': View, ids': seq<Id>) {
    ids' == ids && LastOff(v', ids) == LastOff(v, ids)
  }

  lemma SizedOf(v: View, ids: seq<Id>, ci: CacheInode, s: nat, t: Trust)
    requires Coherent(v, ids, ci, s, t) && t.sized
    ensures ci.fileSize == Off(v, ids, |ids|)
  {
  }

  lemma SpliceEnd(c: seq<byte>, data: seq<byte>)
    ensures data != [] ==> Partly(c, |c|, data, 0, c + data) && Partly(c, |c|, data, |data|, c)
  {
    assert data[0..] == data;
  }

  lemma FullNoRoom(d: Disk, scratch: nat, n: nat)
    requires 0 < n <= MAX_BLOCK_DATA
    ensures Full(d, scratch, NFFS_DISK_BLOCK_SIZE + n) ==> NoRoom(d, scratch)
  {
    hide Full;
  }

  lemma PartlyAll(c: seq<byte>, at: nat, data: seq<byte>, c': seq<byte>)
    requires Partly(c, at, data, 0, c') && data != []
    ensures at <= |c| && c' == Splice(c, at, data) && |c'| == if at + |data| > |c| then at + |data| else |c|
  {
    assert data[0..] == data;
  }

  // ------------------------------------------------------------ a whole write

  /** An open file: its inode, its position, and how it was opened. */
  datatype OpenFile = OpenFile(inode: Id, offset: nat, canWrite: bool, append: bool)

  /** Written in chunks of at most `max` bytes, no chunk makes the last block, which starts at
      `lastOff`, longer than a block can be. */
  ghost predicate ChunksFit(size: nat, lastOff: nat, at: nat, n: nat, max: nat)
    requires max > 0
    decreases n
  {
    n > 0 ==>
      var c := if n > max then max else n;
      && (at < size < at + c ==> at + c - lastOff <= MAX_BLOCK_DATA)
      && ChunksFit(size, lastOff, at + c, n - c, max)
  }

  /** A last block that has room for one more chunk always does. */
  lemma {:induction false} RoomForChunk(size: nat, lastOff: nat, at: nat, n: nat, max: nat)
    requires max > 0 && lastOff <= size && size - lastOff + max <= MAX_BLOCK_DATA + 1
    ensures ChunksFit(size, lastOff, at, n, max)
    decreases n
  {
    if n > 0 {
      var c := if n > max then max else n;
      RoomForChunk(size, lastOff, at + c, n - c, max);
    }
  }

  lemma {:induction false} ChunksAppend(size: nat, lastOff: nat, at: nat, n: nat, max: nat)
    requires max > 0 && size <= at
    ensures ChunksFit(size, lastOff, at, n, max)
    decreases n
  {
    if n > 0 {
      var c := if n > max then max else n;
      ChunksAppend(size, lastOff, at + c, n - c, max);
    }
  }

  /** A prefix of the data has been written, and then one more chunk. */
  lemma ChunkDone(c: seq<byte>, at: nat, data: seq<byte>, done: nat, n: nat, c1: seq<byte>, c2: seq<byte>)
    requires at <= |c| && done + n <= |data| && n > 0 && c1 == Splice(c, at, data[..done]) && at + done <= |c1|
    requires Partly(c1, at + done, data[done..done + n], 0, c2)
    ensures c2 == Splice(c, at, data[..done + n]) && at + done + n <= |c2|
    ensures |c1| == if at + done > |c| then at + done else |c|
    ensures |c2| == if at + done + n > |c| then at + done + n else |c|
  {
    hide Partly;
    PartlyAll(c1, at + done, data[done..done + n], c2);
    SpliceOnward(c, at, data[..done], data[done..done + n]);
    assert data[..done] + data[done..done + n] == data[..done + n];
  }

  /** Writing on from where the last write ended. */
  lemma SpliceOnward(c: seq<byte>, at: nat, x: seq<byte>, y: seq<byte>)
    requires at <= |c|
    ensures Splice(Splice(c, at, x), at + |x|, y) == Splice(c, at, x + y)
  {
    var s := Splice(c, at, x);
    assert s[..at + |x|] == c[..at] + x;
    if at + |x| + |y| <= |c| {
      assert s[at + |x| + |y|..] == c[at + |x| + |y|..];
    }
    assert c[..at] + x + y == c[..at] + (x + y);
  }

  /** What a write may rely on: the cached size is up to date, and ids are left. */
  ghost predicate Ready(fs: FileSystem, scratch: nat, x: Id, at: nat, n: nat)
    reads fs, fs.vol
  {
    && Spare(fs.vol.disk, fs.vol.index, scratch) && fs.Valid() && IdsBelow(fs.vol.index)
    && fs.vol.index.nextBlockId + n <= NFFS_ID_NONE
    && 0 < fs.vol.maxDataSize <= MAX_BLOCK_DATA && x in fs.files && at <= |fs.FileData(x)|
  }

  /** No chunk of the write makes the last block of the file too long. */
  ghost predicate Fit(fs: FileSystem, x: Id, at: nat, n: nat)
    reads fs, fs.vol
  {
    fs.vol.maxDataSize > 0 && ChunksFit(|fs.FileData(x)|, LastOff(fs.View(), fs.Ids(x)), at, n, fs.vol.maxDataSize)
  }

  lemma ChunksGoOn(v: View, ids: seq<Id>, v': View, ids': seq<Id>, at: nat, c: nat, n: nat, max: nat)
    requires max > 0
    requires if at + c <= Off(v, ids, |ids|) then Off(v', ids', |ids'|) == Off(v, ids, |ids|) &&
             LastOff(v', ids') == LastOff(v, ids)
             else Off(v', ids', |ids'|) == at + c
    ensures ChunksFit(Off(v, ids, |ids|), LastOff(v, ids), at + c, n, max) <==>
            ChunksFit(Off(v', ids', |ids'|), LastOff(v', ids'), at + c, n, max)
  {
    hide ChunksFit, LastOff, Off;
    if at + c > Off(v, ids, |ids|) {
      ChunksAppend(Off(v', ids', |ids'|), LastOff(v', ids'), at + c, n, max);
      ChunksAppend(Off(v, ids, |ids|), LastOff(v, ids), at + c, n, max);
    }
  }

  lemma ChunksStep(v: View, ids: seq<Id>, size: nat, at: nat, n: nat, max: nat)
    requires max > 0 && n > 0 && size == Off(v, ids, |ids|) && at <= size
    ensures
      var c := if n > max then max else n;
      ChunksFit(size, LastOff(v, ids), at, n, max) <==>
        (at == size || GrowthFits(v, ids, at, c)) && ChunksFit(size, LastOff(v, ids), at + c, n - c, max)
  {
    hide Off;
  }

  /** How far a write that stopped early has got: `done` bytes, and of the next `n` those from `d` on. */
  ghost predicate Stopped(c: seq<byte>, at: nat, data: seq<byte>, done: nat, n: nat, d: nat, c': seq<byte>) {
    at <= |c| && done + n <= |data| && Partly(Splice(c, at, data[..done]), at + done, data[done..done + n], d, c')
  }

  /** The first `done` bytes of the data have been written over the contents `c`. */
  ghost predicate Progress(fs: FileSystem, scratch: nat, x: Id, at: nat, data: seq<byte>, c: seq<byte>, done: nat)
    reads fs, fs.vol
  {
    && at <= |c| && done <= |data| && Ready(fs, scratch, x, at + done, |data| - done) && x in fs.entries
    && fs.Trusted(x).sized
    && fs.FileData(x) == Splice(c, at, data[..done])
  }

  /** One turn of the loop of nffs_write_to_file. */
  method NextChunk(fs: FileSystem, scratch: nat, x: Id, at: nat, data: seq<byte>, done: nat, chunk: nat,
      ghost c: seq<byte>) returns (rc: Rc, ghost d: nat)
    requires Progress(fs, scratch, x, at, data, c, done) && done < |data|
    requires chunk == if |data| - done > fs.vol.maxDataSize then fs.vol.maxDataSize else |data| - done
    modifies fs.vol`disk, fs.vol`index, fs`files, fs`entries, fs`blockFree, fs`first, fs`doubt
    ensures Spare(fs.vol.disk, fs.vol.index, scratch)
    ensures rc == Ok || rc == ErrFull || rc == ErrNoMemory || TooLong(rc)
    ensures rc != ErrLost ==> fs.Valid() && OthersSame(old(fs.View()), old(fs.files), fs.View(), fs.files, x)
    ensures x in fs.entries && IdsBelow(fs.vol.index) && (rc == ErrFull ==> NoRoom(fs.vol.disk, scratch))
    ensures rc == ErrNoMemory ==> fs.vol.index.free == 0
    ensures TooLong(rc) ==> !old(Fit(fs, x, at + done, |data| - done))
    ensures rc == Ok ==> Progress(fs, scratch, x, at, data, c, done + chunk)
    ensures rc == Ok ==> (old(Fit(fs, x, at + done, |data| - done)) <==>
            Fit(fs, x, at + done + chunk, |data| - done - chunk))
    ensures rc != Ok && rc != ErrLost ==> Stopped(c, at, data, done, chunk, d, fs.FileData(x))
    ensures rc == Ok ==> fs.Trusted(x) == ChunkTrust(old(fs.Trusted(x)), old(fs.Ids(x)), |old(fs.FileData(x))|,
            at + done, chunk)
    ensures rc == Ok && at + done < |old(fs.FileData(x))| ==>
              SameLast(old(fs.View()), old(fs.Ids(x)), fs.View(), fs.Ids(x)) &&
                  fs.vol.index.nextBlockId == old(fs.vol.index).nextBlockId
  {
    hide Mounted, CacheOk, ViewOf, AllLive, Chain, PoolOk, Off, Contents, Linked, Within, Coherent, OthersSame, Splice,
        GrowthFits, NoRoom, IdsBelow, Partly, LastOff, ChunksFit, LastLost, Weaker, Spare;
    ghost var v, ids, c1, files := fs.View(), fs.Ids(x), fs.FileData(x), fs.files;
    ghost var left := |data| - done;
    ChainFacts(fs.vol.disk, fs.vol.index, fs.files, x);
    Whole(v, ids);
    SpliceSize(c, at, data[..done]);
    ChunksStep(v, ids, |c1|, at + done, left, fs.vol.maxDataSize);
    rc, d := WriteChunk(fs, scratch, x, at + done, data[done..done + chunk]);
    if rc == Ok {
      FileKept(files, fs.files, x, v, fs.View());
      ChunkDone(c, at, data, done, chunk, c1, fs.FileData(x));
      ChainFacts(fs.vol.disk, fs.vol.index, fs.files, x);
      Whole(fs.View(), fs.Ids(x));
      ChunksGoOn(v, ids, fs.View(), fs.Ids(x), at + done, chunk, left - chunk, fs.vol.maxDataSize);
    }
  }

  lemma SpliceSize(c: seq<byte>, at: nat, data: seq<byte>)
    requires at <= |c|
    ensures |Splice(c, at, data)| == if at + |data| > |c| then at + |data| else |c|
  {
  }

  /** The loop of nffs_write_to_file. */
  method WriteChunks(fs: FileSystem, scratch: nat, x: Id, at: nat, data: seq<byte>)
      returns (rc: Rc, done: nat, ghost n: nat, ghost d: nat)
    requires Ready(fs, scratch, x, at, |data|) && x in fs.entries && fs.Trusted(x).sized
    modifies fs.vol`disk, fs.vol`index, fs`files, fs`entries, fs`blockFree, fs`first, fs`doubt
    ensures Spare(fs.vol.disk, fs.vol.index, scratch)
    ensures rc == Ok || rc == ErrFull || rc == ErrNoMemory || TooLong(rc)
    ensures (rc == Ok ==> old(Fit(fs, x, at, |data|))) && (TooLong(rc) ==> !old(Fit(fs, x, at, |data|)))
    ensures rc != ErrLost ==> fs.Valid() && OthersSame(old(fs.View()), old(fs.files), fs.View(), fs.files, x)
    ensures x in fs.entries && IdsBelow(fs.vol.index) && (rc == ErrFull ==> NoRoom(fs.vol.disk, scratch))
    ensures rc == ErrNoMemory ==> fs.vol.index.free == 0
    ensures rc == Ok ==> done == |data| && Spliced(old(fs.FileData(x)), at, data, fs.FileData(x))
    ensures rc != Ok && rc != ErrLost ==> Stopped(old(fs.FileData(x)), at, data, done, n, d, fs.FileData(x))
    ensures rc == Ok ==> AfterWrite(old(fs.Trusted(x)), old(fs.View()), old(fs.Ids(x)), |old(fs.FileData(x))|, at,
            |data|, fs.vol.maxDataSize,
                                    fs.Trusted(x), fs.View(), fs.Ids(x))
    ensures rc == Ok && at < |old(fs.FileData(x))| && |data| <= fs.vol.maxDataSize ==>
            fs.vol.index.nextBlockId == old(fs.vol.index).nextBlockId
  {
    hide Mounted, CacheOk, ViewOf, AllLive, PoolOk, Contents, Within, OthersSame, Splice, NoRoom, IdsBelow, Partly,
        LastOff, ChunksFit, Stopped, AfterWrite, SameLast, ChunkTrust, Progress, Fit, Spare, Chain, Off, Linked,
        Coherent,
        Weaker, Spliced;
    ghost var v, files, c, ids, t := fs.View(), fs.files, fs.FileData(x), fs.Ids(x), fs.Trusted(x);
    ghost var fit := Fit(fs, x, at, |data|);
    OthersRefl(v, files, x);
    ProgressStart(fs, scratch, x, at, data);
    AfterNothing(t, v, ids, |c|, at, fs.vol.maxDataSize);
    rc, done, n, d := Ok, 0, 0, 0;
    var left := |data|;
    while left > 0
      invariant 0 <= left <= |data| && done == |data| - left && rc == Ok
      invariant OthersSame(v, files, fs.View(), fs.files, x) && Progress(fs, scratch, x, at, data, c, done)
      invariant fit <==> Fit(fs, x, at + done, |data| - done)
      invariant done > 0 && left > 0 ==> done >= fs.vol.maxDataSize
      invariant done == 0 ==> fs.View() == v && fs.Ids(x) == ids && fs.Trusted(x) == t && fs.FileData(x) == c
      invariant at < |c| && done <= fs.vol.maxDataSize ==> fs.vol.index.nextBlockId == old(fs.vol.index).nextBlockId
      invariant AfterWrite(t, v, ids, |c|, at, done, fs.vol.maxDataSize, fs.Trusted(x), fs.View(), fs.Ids(x))
    {
      var chunk := if left > fs.vol.maxDataSize then fs.vol.maxDataSize else left;
      ghost var v1, files1, ids1, t1, size1 := fs.View(), fs.files, fs.Ids(x), fs.Trusted(x), |fs.FileData(x)|;
      n := chunk;
      ProgressFacts(fs, scratch, x, at, data, c, done);
      rc, d := NextChunk(fs, scratch, x, at, data, done, chunk, c);
      if rc == ErrLost {
        return;
      }
      OthersTrans(v, files, v1, files1, fs.View(), fs.files, x);
      if rc != Ok {
        return;
      }
      AfterChunk(t, v, ids, |c|, at, done, chunk, fs.vol.maxDataSize, t1, v1, ids1, size1, fs.Trusted(x), fs.View(),
          fs.Ids(x));
      left := left - chunk;
      done := done + chunk;
    }
    ProgressFacts(fs, scratch, x, at, data, c, done);
    ProgressEnd(fs, scratch, x, at, data, c);
  }

  lemma ProgressEnd(fs: FileSystem, scratch: nat, x: Id, at: nat, data: seq<byte>, c: seq<byte>)
    requires Progress(fs, scratch, x, at, data, c, |data|)
    ensures Spliced(c, at, data, fs.FileData(x))
  {
    hide Mounted, CacheOk, PoolOk, Splice;
    assert data[..|data|] == data;
  }

  lemma ProgressStart(fs: FileSystem, scratch: nat, x: Id, at: nat, data: seq<byte>)
    requires Ready(fs, scratch, x, at, |data|) && x in fs.entries && fs.Trusted(x).sized
    ensures Progress(fs, scratch, x, at, data, fs.FileData(x), 0)
  {
    hide Mounted, CacheOk, PoolOk, Splice;
    SpliceNone(fs.FileData(x), at, data);
  }

  lemma ProgressFacts(fs: FileSystem, scratch: nat, x: Id, at: nat, data: seq<byte>, c: seq<byte>, done: nat)
    requires Progress(fs, scratch, x, at, data, c, done)
    ensures fs.Valid() && x in fs.entries && IdsBelow(fs.vol.index) && fs.vol.maxDataSize > 0 && at <= |c| &&
            done <= |data|
    ensures Spare(fs.vol.disk, fs.vol.index, scratch)
    ensures fs.FileData(x) == Splice(c, at, data[..done]) &&
            |fs.FileData(x)| == if at + done > |c| then at + done else |c|
    ensures done == |data| ==> Fit(fs, x, at + done, |data| - done)
  {
    hide Mounted, CacheOk, PoolOk, Splice, LastOff;
    SpliceSize(c, at, data[..done]);
    NoneFit(|fs.FileData(x)|, LastOff(fs.View(), fs.Ids(x)), at + done, fs.vol.maxDataSize);
  }

  lemma NoneFit(size: nat, lastOff: nat, at: nat, max: nat)
    requires max > 0
    ensures ChunksFit(size, lastOff, at, 0, max)
  {
  }

  /** What is known of the cache and the last block after `n` bytes have been written at `at`: nothing is in
      doubt that was not, unless the data went past the end; and one chunk that does so only makes the last
      block longer. */
  ghost predicate AfterWrite(t: Trust, v: View, ids: seq<Id>, size: nat, at: nat, n: nat, max: nat, t': Trust,
      v': View, ids': seq<Id>) {
    && t'.sized && (at == size || at + n <= size ==> t' == t)
    && (at < size < at + n <= at + max ==> SameLast(v, ids, v', ids') && t' == Weaker(t, ids).(sized := true))
  }

  lemma AfterChunk(t: Trust, v: View, ids: seq<Id>, size: nat, at: nat, done: nat, chunk: nat, max: nat,
                   t1: Trust, v1: View, ids1: seq<Id>, size1: nat, t2: Trust, v2: View, ids2: seq<Id>)
    requires AfterWrite(t, v, ids, size, at, done, max, t1, v1, ids1) && 0 < chunk <= max
    requires if done == 0 then t1 == t && v1 == v && ids1 == ids else done >= max
    requires size1 == if at + done > size then at + done else size
    requires t2 == ChunkTrust(t1, ids1, size1, at + done, chunk) && (at + done < size1 ==> SameLast(v1, ids1, v2, ids2))
    ensures AfterWrite(t, v, ids, size, at, done + chunk, max, t2, v2, ids2)
  {
    hide Weaker, LastOff;
  }

  lemma AfterNothing(t: Trust, v: View, ids: seq<Id>, size: nat, at: nat, max: nat)
    requires t.sized
    ensures AfterWrite(t, v, ids, size, at, 0, max, t, v, ids)
  {
  }

  /** nffs_write_to_file: the file becomes the splice of old and new bytes.  Unless there is no room or
      memory, it does so exactly if no chunk makes the last block too long. */
  method WriteToFile(fs: FileSystem, scratch: nat, file: OpenFile, data: seq<byte>)
      returns (rc: Rc, file': OpenFile, ghost done: nat, ghost n: nat, ghost d: nat)
    requires
      var x := file.inode;
      Ready(fs, scratch, x, if file.append then |fs.FileData(x)| else file.offset, |data|) &&
          (x in fs.entries ==> fs.Trusted(x).sized)
    modifies fs.vol`disk, fs.vol`index, fs`files, fs`order, fs`entries, fs`blockFree, fs`inodeFree, fs`first, fs`doubt
    ensures Spare(fs.vol.disk, fs.vol.index, scratch)
    ensures rc != ErrLost ==> fs.Valid() && OthersSame(old(fs.View()), old(fs.files), fs.View(), fs.files, file.inode)
    ensures IdsBelow(fs.vol.index) && (rc == ErrAccess <==> !file.canWrite)
    ensures rc == ErrAccess || data == [] ==> file' == file && fs.FileData(file.inode) == old(fs.FileData(file.inode))
    ensures (rc == ErrFull ==> NoRoom(fs.vol.disk, scratch)) && (rc == ErrNoMemory ==> fs.vol.index.free == 0)
    ensures rc == Ok || rc == ErrAccess || rc == ErrFull || rc == ErrNoMemory || TooLong(rc)
    ensures
      var c := old(fs.FileData(file.inode));
      var at := if file.append then |c| else file.offset;
      && (rc == Ok ==> old(Fit(fs, file.inode, at, |data|))) && (TooLong(rc) ==> !old(Fit(fs, file.inode, at, |data|)))
      && (rc == Ok && data != [] ==>
        Spliced(c, at, data, fs.FileData(file.inode)) && file' == file.(offset := at + |data|))
      && (rc == ErrFull || rc == ErrNoMemory || rc == ErrAssert || rc == ErrRange ==>
            Stopped(c, at, data, done, n, d, fs.FileData(file.inode)) && file' == file.(offset := at + done))
      && (rc == Ok && data != [] ==>
            && file.inode in fs.entries
            && AfterWrite(if file.inode in old(fs.entries) then old(fs.Trusted(file.inode)) else FULL, old(fs.View()),
                old(fs.Ids(file.inode)), |c|, at, |data|, fs.vol.maxDataSize, fs.Trusted(file.inode), fs.View(),
                fs.Ids(file.inode)))
      && (rc == Ok && at < |c| && |data| <= fs.vol.maxDataSize ==>
          fs.vol.index.nextBlockId == old(fs.vol.index).nextBlockId)
  {
    hide Mounted, CacheOk, ViewOf, AllLive, Chain, PoolOk, Off, Contents, Linked, Within, OthersSame, Splice, NoRoom,
        IdsBelow, Partly, LastOff, ChunksFit, Stopped, Spliced, AfterWrite, Spare;
    var x := file.inode;
    file' := file;
    done, n, d := 0, 0, 0;
    OthersRefl(fs.View(), fs.files, x);
    if !file.canWrite {
      return ErrAccess, file', done, n, d;
    }
    if data == [] {
      NoneFit(|fs.FileData(x)|, LastOff(fs.View(), fs.Ids(x)), if file.append then |fs.FileData(x)| else file.offset,
          fs.vol.maxDataSize);
      return Ok, file', done, n, d;
    }
    rc := fs.InodeEnsure(x);
    TrustGone(old(fs.doubt), x);
    ChainFacts(fs.vol.disk, fs.vol.index, fs.files, x);
    Whole(fs.View(), fs.Ids(x));
    if file.append {
      file' := file'.(offset := fs.entries[x].fileSize);
    }
    var written;
    rc, written, n, d := WriteChunks(fs, scratch, x, file'.offset, data);
    done := written;
    file' := file'.(offset := file'.offset + written);
  }

  // ------------------------------------------------------------ the longest block

  /** A write that adds a byte to the last block is too long exactly when that block is as long as it can be. */
  lemma ByteFits(size: nat, lastOff: nat, max: nat)
    requires max >= 2 && lastOff < size
    ensures ChunksFit(size, lastOff, size - 1, 2, max) <==> size - lastOff < MAX_BLOCK_DATA
  {
    NoneFit(size, lastOff, size + 1, max);
  }

  /** A file that can be written and whose last block has `len` bytes. */
  ghost predicate LastIs(fs: FileSystem, scratch: nat, file: OpenFile, size: nat, len: nat)
    reads fs, fs.vol
  {
    var x := file.inode;
    && Spare(fs.vol.disk, fs.vol.index, scratch)
    && fs.Valid() && IdsBelow(fs.vol.index) && fs.vol.index.nextBlockId + 2 <= NFFS_ID_NONE
    && 2 <= fs.vol.maxDataSize <= MAX_BLOCK_DATA
    && x in fs.files && x in fs.entries && fs.Trusted(x).sized && file.canWrite && !file.append
    && |fs.FileData(x)| == size && 0 < len == size - LastOff(fs.View(), fs.Ids(x)) <= MAX_BLOCK_DATA
  }

  /** Replace the last byte of the file and add one. */
  method AddByte(fs: FileSystem, scratch: nat, file: OpenFile, size: nat, ghost len: nat) returns (rc: Rc)
    requires LastIs(fs, scratch, file, size, len) && len < MAX_BLOCK_DATA
    modifies fs.vol`disk, fs.vol`index, fs`files, fs`order, fs`entries, fs`blockFree, fs`inodeFree, fs`first, fs`doubt
    ensures fs.Valid() && (rc == Ok || rc == ErrFull || rc == ErrNoMemory) &&
            (rc == Ok ==> LastIs(fs, scratch, file, size + 1, len + 1))
  {
    hide Mounted, CacheOk, ViewOf, AllLive, Chain, PoolOk, Off, Contents, Linked, Within, OthersSame, NoRoom, IdsBelow,
        Partly, LastOff, ChunksFit, Stopped, Splice, Weaker, CrcOf, Spare;
    var x := file.inode;
    ByteFits(size, LastOff(fs.View(), fs.Ids(x)), fs.vol.maxDataSize);
    ghost var files, v := fs.files, fs.View();
    var file1;
    ghost var done, n, d;
    SpliceSize(fs.FileData(x), size - 1, [0, 0]);
    rc, file1, done, n, d := WriteToFile(fs, scratch, file.(offset := size - 1), [0, 0]);
    if rc == Ok {
      FileKept(files, fs.files, x, v, fs.View());
    }
  }

  /** Adding bytes makes the last block of a file as long as a block can be, unless there is no room; the
      next byte then does not fit. */
  method ExtendToLimit(fs: FileSystem, scratch: nat, file: OpenFile, size0: nat, len0: nat) returns (rc: Rc, size: nat)
    requires LastIs(fs, scratch, file, size0, len0)
    modifies fs.vol`disk, fs.vol`index, fs`files, fs`order, fs`entries, fs`blockFree, fs`inodeFree, fs`first, fs`doubt
    ensures fs.Valid() && (rc == Ok || rc == ErrFull || rc == ErrNoMemory)
    ensures rc == Ok ==>
      LastIs(fs, scratch, file, size, MAX_BLOCK_DATA) && size > 0 && !Fit(fs, file.inode, size - 1, 2)
  {
    hide LastOff, ChunksFit, Mounted, CacheOk, Off, Contents, ViewOf, Spare;
    rc, size := Ok, size0;
    var len := len0;
    while len < MAX_BLOCK_DATA
      invariant LastIs(fs, scratch, file, size, len) && rc == Ok
      decreases MAX_BLOCK_DATA - len
    {
      rc := AddByte(fs, scratch, file, size, len);
      if rc != Ok {
        return;
      }
      size, len := size + 1, len + 1;
    }
    ByteFits(size, LastOff(fs.View(), fs.Ids(file.inode)), fs.vol.maxDataSize);
  }

  lemma TrustGone(doubt: map<Id, Trust>, x: Id)
    ensures TrustIn(doubt - {x}, x) == FULL
  {
  }

  lemma SpliceNone(c: seq<byte>, at: nat, data: seq<byte>)
    requires at <= |c|
    ensures Splice(c, at, data[..0]) == c
  {
  }

  lemma FileKept(files: Files, files': Files, x: Id, v: View, v': View)
    requires OthersSame(v, files, v', files', x) && x in files
    ensures x in files'
  {
  }
}
