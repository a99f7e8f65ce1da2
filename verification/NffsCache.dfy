/** The cache of inodes and blocks: for a cached file, a run of consecutive blocks
    with their offsets in the file. */
module NffsCache {
  import opened Common
  import opened Bytes
  import opened NffsChain
  import opened NffsDisk
  import opened NffsIndex
  import opened NffsVolume
  import opened NffsGc

  /** A cached block: its entry, the one before it, its length and its offset in the file. */
  datatype CacheBlock = CacheBlock(id: Id, prev: Id, len: nat, off: nat)

  datatype CacheInode = CacheInode(fileSize: nat, blocks: seq<CacheBlock>)

  // ------------------------------------------------------------ offsets in a file

  ghost function Len(v: View, b: Id): nat {
    if b in v then |v[b].data| else 0
  }

  /** Where block `k` of the chain starts. */
  ghost function Off(v: View, ids: seq<Id>, k: nat): nat {
    if 0 < k <= |ids| then Off(v, ids, k - 1) + Len(v, ids[k - 1]) else 0
  }

  lemma {:induction false} OffContents(v: View, ids: seq<Id>, k: nat)
    requires k <= |ids| && Within(v, ids)
    ensures Within(v, ids[..k]) && Off(v, ids, k) == |Contents(v, ids[..k])|
  {
    if k > 0 {
      OffContents(v, ids, k - 1);
      assert ids[..k] == ids[..k - 1] + [ids[k - 1]];
      assert ids[k - 1] in ids;
      ContentsJoin(v, ids[..k - 1], [ids[k - 1]]);
      assert Contents(v, [ids[k - 1]]) == v[ids[k - 1]].data + Contents(v, []);
    }
  }

  lemma {:induction false} OffMono(v: View, ids: seq<Id>, i: nat, k: nat)
    requires i <= k <= |ids|
    ensures Off(v, ids, i) <= Off(v, ids, k)
    decreases k
  {
    if i < k {
      OffMono(v, ids, i, k - 1);
    }
  }

  /** Every block has data, so offsets grow strictly. */
  lemma OffLess(v: View, inode: Id, ids: seq<Id>, i: nat, k: nat)
    requires i < k <= |ids| && Linked(v, inode, NFFS_ID_NONE, ids)
    ensures Off(v, ids, i) < Off(v, ids, k)
  {
    OffMono(v, ids, i, k - 1);
    LinkedAt(v, inode, NFFS_ID_NONE, ids, k - 1);
  }

  /** Block `k` holds the bytes of the file from its offset on. */
  lemma BlockSlice(v: View, ids: seq<Id>, k: nat)
    requires k < |ids| && Within(v, ids)
    ensures ids[k] in v && Off(v, ids, k + 1) <= |Contents(v, ids)| == Off(v, ids, |ids|)
    ensures Contents(v, ids)[Off(v, ids, k)..Off(v, ids, k + 1)] == v[ids[k]].data
  {
    hide Contents;
    assert ids[k] in ids;
    OffContents(v, ids, k);
    OffContents(v, ids, |ids|);
    assert ids[..|ids|] == ids;
    OffMono(v, ids, k + 1, |ids|);
    ContentsAt(v, ids, k);
  }

  // ------------------------------------------------------------ coherence

  datatype Bound = All | Below(n: nat)

  /** Which blocks of a file have up to date lengths when they are cached, and whether
      its cached size is up to date. */
  datatype Trust = Trust(exact: Bound, sized: bool)

  const FULL := Trust(All, true)

  ghost predicate Exact(t: Trust, k: nat) {
    t.exact.All? || k < t.exact.n
  }

  /** Only the last block of the file may have a length that is out of date. */
  ghost predicate Ends(t: Trust, ids: seq<Id>) {
    t.exact.All? || t.exact.n + 1 >= |ids|
  }

  ghost function TrustIn(doubt: map<Id, Trust>, i: Id): Trust {
    if i in doubt then doubt[i] else FULL
  }

  ghost function EntryOf(v: View, ids: seq<Id>, k: nat): CacheBlock
    requires k < |ids|
  {
    CacheBlock(ids[k], LastOr(NFFS_ID_NONE, ids[..k]), Len(v, ids[k]), Off(v, ids, k))
  }

  /** What is cached about block `k`.  Its length may be out of date, unless it
      is to be trusted, and is then less than what the block holds. */
  ghost predicate EntryOk(v: View, ids: seq<Id>, k: nat, cb: CacheBlock, t: Trust)
    requires k < |ids|
  {
    && cb == EntryOf(v, ids, k).(len := cb.len)
    && 0 < cb.len <= Len(v, ids[k]) && (Exact(t, k) ==> cb.len == Len(v, ids[k]))
  }

  /** The cached blocks are blocks `s`, `s + 1`, ... of the chain. */
  ghost predicate Run(v: View, ids: seq<Id>, s: nat, blocks: seq<CacheBlock>, t: Trust) {
    s + |blocks| <= |ids| && forall k :: 0 <= k < |blocks| ==> EntryOk(v, ids, s + k, blocks[k], t)
  }

  ghost predicate Coherent(v: View, ids: seq<Id>, ci: CacheInode, s: nat, t: Trust) {
    Run(v, ids, s, ci.blocks, t) && (t.sized ==> ci.fileSize == Off(v, ids, |ids|))
  }

  lemma RunPrepend(v: View, ids: seq<Id>, s: nat, blocks: seq<CacheBlock>, t: Trust)
    requires Run(v, ids, s, blocks, t) && s > 0 && Len(v, ids[s - 1]) > 0
    ensures Run(v, ids, s - 1, [EntryOf(v, ids, s - 1)] + blocks, t)
  {
  }

  lemma RunAppend(v: View, ids: seq<Id>, s: nat, blocks: seq<CacheBlock>, t: Trust)
    requires Run(v, ids, s, blocks, t) && s + |blocks| < |ids| && Len(v, ids[s + |blocks|]) > 0
    ensures Run(v, ids, s, blocks + [EntryOf(v, ids, s + |blocks|)], t)
  {
  }

  // ------------------------------------------------------------ the block pool

  /** Cached blocks in use. */
  ghost function InUse(order: seq<Id>, entries: map<Id, CacheInode>): nat
    decreases |order|
  {
    if order == [] then 0
    else (if order[0] in entries then |entries[order[0]].blocks| else 0) + InUse(order[1..], entries)
  }

  lemma {:induction false} InUseUpdate(order: seq<Id>, entries: map<Id, CacheInode>, x: Id, ci: CacheInode)
    requires NoDup(order) && x in entries
    ensures InUse(order, entries[x := ci]) == InUse(order, entries) +
            (if x in order then |ci.blocks| - |entries[x].blocks| else 0)
    decreases |order|
  {
    if order != [] {
      InUseUpdate(order[1..], entries, x, ci);
      assert x in order <==> x == order[0] || x in order[1..];
    }
  }

  lemma {:induction false} InUseNone(order: seq<Id>, entries: map<Id, CacheInode>)
    requires forall i :: i in order ==> i in entries && entries[i].blocks == []
    ensures InUse(order, entries) == 0
    decreases |order|
  {
    if order != [] {
      assert order[0] in order;
      assert forall i :: i in order[1..] ==> i in order;
      InUseNone(order[1..], entries);
    }
  }

  /** Some cached inode may have lost all its blocks; nothing else has changed. */
  ghost predicate Shed(e: map<Id, CacheInode>, e': map<Id, CacheInode>) {
    e'.Keys == e.Keys && forall i :: i in e ==> ShedOne(e[i], e'[i])
  }

  ghost predicate ShedOne(c: CacheInode, c': CacheInode) {
    c'.fileSize == c.fileSize && (c'.blocks == c.blocks || c'.blocks == [])
  }

  ghost predicate PoolOk(order: seq<Id>, entries: map<Id, CacheInode>, free: nat, capacity: nat) {
    && NoDup(order) && (forall i :: i in order <==> i in entries)
    && free + InUse(order, entries) == capacity
  }

  /** What is cached of each file is a run of its blocks, up to date unless the file is in doubt. */
  ghost predicate CacheOk(v: View, files: Files, entries: map<Id, CacheInode>, first: map<Id, nat>, doubt: map<Id,
      Trust>) {
    && (forall i :: i in entries ==> i in files && i in first)
    && forall i :: i in entries ==> Coherent(v, files[i], entries[i], first[i], TrustIn(doubt, i))
  }

  lemma ShedCoherent(v: View, ids: seq<Id>, c: CacheInode, c': CacheInode, s: nat, t: Trust)
    requires Coherent(v, ids, c, s, t) && ShedOne(c, c')
    ensures Coherent(v, ids, c', s, t)
  {
  }

  lemma ShedOk(v: View, files: Files, e: map<Id, CacheInode>, e': map<Id, CacheInode>, first: map<Id, nat>,
      doubt: map<Id, Trust>)
    requires CacheOk(v, files, e, first, doubt) && Shed(e, e')
    ensures CacheOk(v, files, e', first, doubt)
  {
    hide Coherent, ShedOne;
    forall i | i in e'
      ensures Coherent(v, files[i], e'[i], first[i], TrustIn(doubt, i))
    {
      ShedCoherent(v, files[i], e[i], e'[i], first[i], TrustIn(doubt, i));
    }
  }

  lemma UpdateOk(v: View, files: Files, e: map<Id, CacheInode>, first: map<Id, nat>, doubt: map<Id, Trust>, x: Id,
      ci: CacheInode, s: nat)
    requires CacheOk(v, files, e, first, doubt) && x in files && Coherent(v, files[x], ci, s, TrustIn(doubt, x))
    ensures CacheOk(v, files, e[x := ci], first[x := s], doubt)
  {
    hide Coherent;
  }

  // ------------------------------------------------------------ seeking

  /** Where the scan of nffs_cache_seek goes: before the cached run, through it, or
      from the end of the file. */
  datatype Mode = Before | Through | After

  /** The scan is at block `k - 1` of the chain, which ends at or before nothing that is sought. */
  ghost predicate Seeking(v: View, ids: seq<Id>, ci: CacheInode, s: nat, t: Trust, seek: nat, start: nat,
                          mode: Mode, k: nat, entry: Id, end: nat, pos: int) {
    && 1 <= k <= |ids| && entry == ids[k - 1] && (seek < Off(v, ids, k) || k == |ids|)
    && Coherent(v, ids, ci, s, t)
    && match mode
       case Before => pos == -1 && end == Off(v, ids, k) <= start && s == k
       case Through =>
         && 0 <= pos < |ci.blocks| && s + pos == k - 1 && start == Off(v, ids, s) <= seek < end && start < end
         && end == (if pos + 1 == |ci.blocks| then ci.blocks[pos].off + ci.blocks[pos].len else Off(v, ids, k))
       case After => pos == -1 && start < end == Off(v, ids, k) && start <= seek
  }

  /** Block `pos` of the cached run is the one that holds offset `seek`, or the last of the file.  Its
      cached length reaches beyond the offset, if no length but that of the last block is in doubt. */
  ghost predicate Sought(v: View, ids: seq<Id>, ci: CacheInode, s: nat, t: Trust, seek: nat, pos: int) {
    && Coherent(v, ids, ci, s, t) && 0 <= pos < |ci.blocks|
    && Off(v, ids, s + pos) <= seek && (seek < Off(v, ids, s + pos + 1) || s + pos + 1 == |ids|)
    && (Ends(t, ids) && seek < Off(v, ids, |ids|) ==> seek < ci.blocks[pos].off + ci.blocks[pos].len)
  }

  lemma SeekBegin(v: View, inode: Id, ids: seq<Id>, ci: CacheInode, s: nat, t: Trust, seek: nat, start: nat, end: nat)
    requires Linked(v, inode, NFFS_ID_NONE, ids) && Coherent(v, ids, ci, s, t) && ci.fileSize != 0
    requires t.sized || (ci.blocks != [] && seek < start)
    requires if ci.blocks == [] then start == end == 0 else
             start == Off(v, ids, s) && end == ci.blocks[|ci.blocks| - 1].off + ci.blocks[|ci.blocks| - 1].len
    ensures
      var b := ci.blocks;
      if end != 0 && seek < start then
        b != [] && Seeking(v, ids, ci, s, t, seek, start, Before, s, b[0].prev, b[0].off, -1)
      else if seek < end then
        b != [] && Seeking(v, ids, ci, s, t, seek, start, Through, s + |b|, b[|b| - 1].id, end, |b| - 1)
      else
        Seeking(v, ids, ci, s, t, seek, start, After, |ids|, LastOr(NFFS_ID_NONE, ids), ci.fileSize, -1)
  {
    hide Linked;
    var b := ci.blocks;
    if b != [] {
      assert EntryOk(v, ids, s + 0, b[0], t) && EntryOk(v, ids, s + (|b| - 1), b[|b| - 1], t);
      OffMono(v, ids, s, s + |b| - 1);
      OffLess(v, inode, ids, s, |ids|);
    }
  }

  /** The block read from flash at position `k - 1`. */
  lemma SeekRead(v: View, inode: Id, ids: seq<Id>, k: nat)
    requires Linked(v, inode, NFFS_ID_NONE, ids) && 1 <= k <= |ids|
    ensures ids[k - 1] in v && 0 < |v[ids[k - 1]].data| == Len(v, ids[k - 1]) && v[ids[k - 1]].inode == inode
    ensures v[ids[k - 1]].prev == LastOr(NFFS_ID_NONE, ids[..k - 1])
    ensures EntryOf(v, ids, k - 1) == CacheBlock(ids[k - 1], v[ids[k - 1]].prev, |v[ids[k - 1]].data|,
            Off(v, ids, k) - |v[ids[k - 1]].data|)
    ensures k > 1 ==> v[ids[k - 1]].prev == ids[k - 2] && ids[k - 2] in v && ids[k - 2] != NFFS_ID_NONE
  {
    hide Linked;
    LinkedAt(v, inode, NFFS_ID_NONE, ids, k - 1);
    if k > 1 {
      LinkedAt(v, inode, NFFS_ID_NONE, ids, k - 2);
    }
  }

  /** A block cached in front of the run, whose blocks may just have been given up. */
  lemma SeekPrepend(v: View, inode: Id, ids: seq<Id>, ci: CacheInode, c': CacheInode, s: nat, t: Trust, seek: nat,
      start: nat, k: nat, entry: Id, end: nat)
    requires Linked(v, inode, NFFS_ID_NONE, ids) && ShedOne(ci, c')
    requires Seeking(v, ids, ci, s, t, seek, start, Before, k, entry, end, -1)
    ensures
      var c := c'.(blocks := [EntryOf(v, ids, k - 1)] + c'.blocks);
      && Coherent(v, ids, c, k - 1, t)
      && if Off(v, ids, k - 1) <= seek then Sought(v, ids, c, k - 1, t, seek, 0) else
         Seeking(v, ids, c, k - 1, t, seek, start, Before, k - 1, EntryOf(v, ids, k - 1).prev, Off(v, ids, k - 1), -1)
  {
    hide Linked;
    SeekRead(v, inode, ids, k);
    RunPrepend(v, ids, k, c'.blocks, t);
  }

  lemma SeekThrough(v: View, inode: Id, ids: seq<Id>, ci: CacheInode, s: nat, t: Trust, seek: nat, start: nat, k: nat,
      entry: Id, end: nat, pos: int)
    requires Linked(v, inode, NFFS_ID_NONE, ids)
    requires Seeking(v, ids, ci, s, t, seek, start, Through, k, entry, end, pos)
    ensures 0 <= pos < |ci.blocks| && ci.blocks[pos].off == Off(v, ids, k - 1)
    ensures if Off(v, ids, k - 1) <= seek then Sought(v, ids, ci, s, t, seek, pos) else
            Seeking(v, ids, ci, s, t, seek, start, Through, k - 1, ci.blocks[pos].prev, ci.blocks[pos].off, pos - 1)
  {
    hide Linked;
    assert EntryOk(v, ids, s + pos, ci.blocks[pos], t);
    if k >= 2 {
      SeekRead(v, inode, ids, k);
    }
  }

  lemma SeekBack(v: View, inode: Id, ids: seq<Id>, ci: CacheInode, s: nat, t: Trust, seek: nat, start: nat, k: nat,
      entry: Id, end: nat)
    requires Linked(v, inode, NFFS_ID_NONE, ids)
    requires Seeking(v, ids, ci, s, t, seek, start, After, k, entry, end, -1) && Off(v, ids, k - 1) > seek
    ensures Seeking(v, ids, ci, s, t, seek, start, After, k - 1, EntryOf(v, ids, k - 1).prev, Off(v, ids, k - 1), -1)
  {
    hide Linked, Coherent;
    SeekRead(v, inode, ids, k);
  }

  /** A block cached at the end of the run if it directly follows, and in place of the run if not. */
  lemma SeekAppend(v: View, inode: Id, ids: seq<Id>, ci: CacheInode, c': CacheInode, s: nat, t: Trust, seek: nat,
      start: nat, k: nat, entry: Id, end: nat)
    requires Chain(v, inode, ids) && ShedOne(ci, c')
    requires Seeking(v, ids, ci, s, t, seek, start, After, k, entry, end, -1) && Off(v, ids, k - 1) <= seek
    ensures Sought(v, ids, c'.(blocks := [EntryOf(v, ids, k - 1)]), k - 1, t, seek, 0)
    ensures c'.blocks != [] && c'.blocks[|c'.blocks| - 1].id == EntryOf(v, ids, k - 1).prev ==>
              Sought(v, ids, c'.(blocks := c'.blocks + [EntryOf(v, ids, k - 1)]), s, t, seek, |c'.blocks|)
  {
    hide Linked, NoDup, EntryOf, Off, EntryOk;
    SeekRead(v, inode, ids, k);
    RunAppend(v, ids, k - 1, [], t);
    assert [] + [EntryOf(v, ids, k - 1)] == [EntryOf(v, ids, k - 1)];
    var b := c'.blocks;
    if b != [] && b[|b| - 1].id == EntryOf(v, ids, k - 1).prev {
      Follows(v, inode, ids, s, b, t, k);
      RunAppend(v, ids, s, b, t);
    }
  }

  lemma Follows(v: View, inode: Id, ids: seq<Id>, s: nat, b: seq<CacheBlock>, t: Trust, k: nat)
    requires Chain(v, inode, ids) && Run(v, ids, s, b, t) && b != [] && 1 <= k <= |ids|
    requires b[|b| - 1].id == EntryOf(v, ids, k - 1).prev
    ensures s + |b| == k - 1
  {
    hide Linked, NoDup, Off;
    SeekRead(v, inode, ids, k);
    assert EntryOk(v, ids, s + (|b| - 1), b[|b| - 1], t);
    LinkedAt(v, inode, NFFS_ID_NONE, ids, s + |b| - 1);
    SamePlace(ids, s + |b| - 1, k - 2);
  }

  lemma SamePlace(ids: seq<Id>, i: nat, j: int)
    requires NoDup(ids) && i < |ids| && 0 <= j < |ids| && ids[i] == ids[j]
    ensures i == j
  {
    if i < j {
      NoDupAt(ids, i, j);
    }
    if j < i {
      NoDupAt(ids, j, i);
    }
  }
}
