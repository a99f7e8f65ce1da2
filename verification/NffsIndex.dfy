/** The RAM index: which location on flash holds each block, and each inode's
    last block. */
module NffsIndex {
  import opened Bytes
  import opened NffsChain
  import opened NffsDisk

  /** An inode entry: where its record lies, how long the record is, and the last
      block of the file (NFFS_ID_NONE if it has none). */
  datatype Inode = Inode(loc: Loc, size: nat, last: Id)

  /** The entries of the index; `free` counts those left in the pool that entries of blocks come from. */
  datatype Index = Index(blocks: map<Id, Loc>, inodes: map<Id, Inode>, nextBlockId: Id, free: nat)

  /** Entries for blocks there are, in the pool and in use. */
  ghost function Entries(ix: Index): nat {
    ix.free + |ix.blocks|
  }

  lemma EntryFreed(m: map<Id, Loc>, b: Id, m': map<Id, Loc>)
    requires b in m && m' == Drop(m, [b])
    ensures |m'| == |m| - 1
  {
    assert m'.Keys == m.Keys - {b};
    assert |m'.Keys| == |m'| && |m.Keys| == |m|;
  }

  lemma EntryStored(ix: Index, b: Id, l: Loc)
    requires b in ix.blocks
    ensures Entries(ix.(blocks := ix.blocks[b := l])) == Entries(ix)
  {
    EntryKept(ix.blocks, b, l);
  }

  lemma EntryKept(m: map<Id, Loc>, b: Id, l: Loc)
    ensures |m[b := l]| == |m| + (if b in m then 0 else 1)
  {
    assert m[b := l].Keys == m.Keys + {b};
    assert |m[b := l].Keys| == |m[b := l]| && |m.Keys| == |m|;
  }

  /** What a call returns.  ErrAssert stands for an assertion of the source that fails, and ErrLost for a
      write that the source reports as a success although the block it has written records another
      length than it has. */
  datatype Rc =
    | Ok | ErrAccess | ErrRange | ErrUnexpected | ErrCorrupt | ErrFull | ErrNoEntry | ErrNoMemory | ErrAssert | ErrLost

  /** What nffs_block_from_hash_entry fills in. */
  datatype BlockInfo = BlockInfo(id: Id, seqNum: int, inode: Id, prev: Id, dataLen: int)

  ghost predicate AllLive(d: Disk, ix: Index) {
    forall b :: b in ix.blocks ==> Live(d, ix.blocks[b])
  }

  ghost function ViewOf(d: Disk, ix: Index): View
    requires AllLive(d, ix)
  {
    map b | b in ix.blocks :: BlockAt(d, ix.blocks[b])
  }

  lemma ViewExtends(d: Disk, d': Disk, ix: Index)
    requires AllLive(d, ix) && Extends(d, d')
    ensures AllLive(d', ix) && ViewOf(d', ix) == ViewOf(d, ix)
  {
    hide Live, Extends, BlockAt;
    forall b | b in ix.blocks
      ensures Live(d', ix.blocks[b]) && BlockAt(d', ix.blocks[b]) == BlockAt(d, ix.blocks[b])
    {
      LiveExtends(d, d', ix.blocks[b]);
    }
  }

  /** Recording a block at a location. */
  lemma ViewStore(d: Disk, ix: Index, b: Id, l: Loc)
    requires AllLive(d, ix) && Live(d, l)
    ensures
      var ix' := ix.(blocks := ix.blocks[b := l]);
      AllLive(d, ix') && ViewOf(d, ix') == ViewOf(d, ix)[b := BlockAt(d, l)]
  {
    hide Live, BlockAt;
  }

  /** What a block header on flash says of the block: its id, and the sequence number by which a later copy
      supersedes an earlier one. */
  datatype Label = Label(id: Id, seqNum: int)

  ghost function LabelAt(d: Disk, l: Loc): Label {
    if InArea(d, l.area, l.off, NFFS_DISK_BLOCK_SIZE) then Label(HeaderAt(d, l).id, HeaderAt(d, l).seqNum)
    else Label(0, 0)
  }

  ghost function Labels(d: Disk, ix: Index): map<Id, Label> {
    map b | b in ix.blocks :: LabelAt(d, ix.blocks[b])
  }

  /** Every block in the index has its own id on flash. */
  ghost predicate Labelled(d: Disk, ix: Index) {
    forall b :: b in ix.blocks ==> LabelAt(d, ix.blocks[b]).id == b
  }

  lemma LabelsExtend(d: Disk, d': Disk, ix: Index)
    requires AllLive(d, ix) && Extends(d, d')
    ensures Labels(d', ix) == Labels(d, ix)
  {
    hide Live, Extends, HeaderAt;
    forall b | b in ix.blocks
      ensures LabelAt(d', ix.blocks[b]) == LabelAt(d, ix.blocks[b])
    {
      LabelExtends(d, d', ix.blocks[b]);
    }
  }

  lemma LabelExtends(d: Disk, d': Disk, l: Loc)
    requires Live(d, l) && Extends(d, d')
    ensures LabelAt(d', l) == LabelAt(d, l)
  {
    hide Decode, CrcOf, Extends;
    LiveExtends(d, d', l);
  }

  lemma LabelsSame(d: Disk, ix: Index, ix': Index)
    requires ix'.blocks == ix.blocks
    ensures Labels(d, ix') == Labels(d, ix)
  {
    hide LabelAt;
  }

  lemma LabelsStore(d: Disk, ix: Index, b: Id, l: Loc)
    ensures Labels(d, ix.(blocks := ix.blocks[b := l])) == Labels(d, ix)[b := LabelAt(d, l)]
  {
  }

  function Drop(m: map<Id, Loc>, ids: seq<Id>): map<Id, Loc> {
    map b | b in m && b !in ids :: m[b]
  }

  lemma ViewDrop(d: Disk, ix: Index, ids: seq<Id>)
    requires AllLive(d, ix)
    ensures
      var ix' := ix.(blocks := Drop(ix.blocks, ids));
      AllLive(d, ix') && ViewOf(d, ix') == Without(ViewOf(d, ix), ids)
  {
    hide Live, BlockAt;
  }

  // ------------------------------------------------------ space on one area

  /** Flash bytes a run of blocks takes. */
  ghost function RunBytes(v: View, run: seq<Id>): nat
    requires Within(v, run)
  {
    NFFS_DISK_BLOCK_SIZE * |run| + |Contents(v, run)|
  }

  /** Flash bytes the blocks of a chain take in the given area. */
  ghost function BytesIn(v: View, locs: map<Id, Loc>, ids: seq<Id>, area: nat): nat
    requires Within(v, ids)
    decreases |ids|
  {
    if ids == [] then 0
    else (if ids[0] in locs && locs[ids[0]].area == area then NFFS_DISK_BLOCK_SIZE + |v[ids[0]].data| else 0)
         + BytesIn(v, locs, ids[1..], area)
  }

  lemma {:induction false} BytesInJoin(v: View, locs: map<Id, Loc>, a: seq<Id>, b: seq<Id>, area: nat)
    requires Within(v, a) && Within(v, b)
    ensures Within(v, a + b) && BytesIn(v, locs, a + b, area) == BytesIn(v, locs, a, area) + BytesIn(v, locs, b, area)
    decreases |a|
  {
    if a == [] {
      assert a + b == b;
    } else {
      assert (a + b)[1..] == a[1..] + b;
      BytesInJoin(v, locs, a[1..], b, area);
    }
  }

  ghost predicate AllIn(locs: map<Id, Loc>, ids: seq<Id>, area: nat) {
    forall b :: b in ids ==> b in locs && locs[b].area == area
  }

  ghost predicate NoneIn(locs: map<Id, Loc>, ids: seq<Id>, area: nat) {
    forall b :: b in ids ==> b in locs ==> locs[b].area != area
  }

  lemma {:induction false} BytesInAll(v: View, locs: map<Id, Loc>, ids: seq<Id>, area: nat)
    requires Within(v, ids)
    ensures AllIn(locs, ids, area) ==> BytesIn(v, locs, ids, area) == RunBytes(v, ids)
    ensures NoneIn(locs, ids, area) ==> BytesIn(v, locs, ids, area) == 0
    decreases |ids|
  {
    if ids != [] {
      assert ids[0] in ids;
      assert forall b :: b in ids[1..] ==> b in ids;
      BytesInAll(v, locs, ids[1..], area);
    }
  }

  lemma {:induction false} BytesInFrame(v: View, locs: map<Id, Loc>, v': View, locs': map<Id, Loc>, ids: seq<Id>,
      area: nat)
    requires Within(v, ids) && Within(v', ids)
    requires forall b :: b in ids ==>
      v'[b] == v[b] && (b in locs <==> b in locs') && (b in locs ==> locs'[b] == locs[b])
    ensures BytesIn(v', locs', ids, area) == BytesIn(v, locs, ids, area)
    decreases |ids|
  {
    if ids != [] {
      assert ids[0] in ids;
      assert forall b :: b in ids[1..] ==> b in ids;
      BytesInFrame(v, locs, v', locs', ids[1..], area);
    }
  }
}
