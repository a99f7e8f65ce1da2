/** nffs_gc_select_area, nffs_gc_until and nffs_misc_reserve_space: which areas are collected, and when
    the file system is full. */
module NffsCollect {
  import opened Common
  import opened Bytes
  import opened NffsChain
  import opened NffsDisk
  import opened NffsIndex
  import opened NffsPlace
  import opened NffsVolume
  import opened NffsGc
  import opened NffsSpace
  import opened NffsCycle
  import opened NffsWrite
  import opened NffsFile
  import opened NffsUpdate

  const AREA_MAGIC0 := 0xb98a31e2
  const AREA_MAGIC1 := 0x7fb0428c
  const AREA_MAGIC2 := 0xace08253
  const AREA_MAGIC3 := 0xb185fc8e
  const AREA_ID_NONE: byte := 0xff

  // ------------------------------------------------------------ the choice of the area

  /** The difference of two 8 bit collection counts is negative as a signed 8 bit number. */
  predicate Older(a: nat, b: nat) {
    (a - b) % 256 >= 128
  }

  function Better(lens: seq<nat>, gcSeq: seq<nat>, scratch: nat, best: nat, i: nat): nat
    requires best < |lens| == |gcSeq| && i < |lens|
  {
    if i == scratch then best
    else if lens[i] > lens[best] then i
    else if best == scratch then i
    else if Older(gcSeq[i], gcSeq[best]) then i
    else best
  }

  function SelectFrom(lens: seq<nat>, gcSeq: seq<nat>, scratch: nat, best: nat, i: nat): (r: nat)
    requires best < |lens| == |gcSeq|
    ensures r < |lens|
    decreases |lens| - i
  {
    if i >= |lens| then best
    else SelectFrom(lens, gcSeq, scratch, Better(lens, gcSeq, scratch, best, i), i + 1)
  }

  /** nffs_gc_select_area */
  function Select(lens: seq<nat>, gcSeq: seq<nat>, scratch: nat): (r: nat)
    requires 0 < |lens| == |gcSeq|
    ensures r < |lens|
  {
    SelectFrom(lens, gcSeq, scratch, 0, 1)
  }

  lemma {:induction false} SelectFromData(lens: seq<nat>, gcSeq: seq<nat>, scratch: nat, best: nat, i: nat)
    requires best < |lens| == |gcSeq| && best < i
    ensures SelectFrom(lens, gcSeq, scratch, best, i) == scratch <==> best == scratch && i >= |lens|
    decreases |lens| - i
  {
    if i < |lens| {
      SelectFromData(lens, gcSeq, scratch, Better(lens, gcSeq, scratch, best, i), i + 1);
    }
  }

  /** The closing assertion holds if and only if there is another area than the scratch area. */
  lemma SelectData(lens: seq<nat>, gcSeq: seq<nat>, scratch: nat)
    requires scratch < |lens| == |gcSeq|
    ensures Select(lens, gcSeq, scratch) != scratch <==> |lens| >= 2
  {
    SelectFromData(lens, gcSeq, scratch, 0, 1);
  }

  /** Area `f` is as long as any area that holds data. */
  ghost predicate Longest(lens: seq<nat>, scratch: nat, f: nat)
    requires f < |lens|
  {
    forall a :: 0 <= a < |lens| && a != scratch ==> lens[a] <= lens[f]
  }

  /** The last area that is not the scratch area. */
  function LastData(n: nat, scratch: nat): nat
    requires n >= 2
  {
    if scratch == n - 1 then n - 2 else n - 1
  }

  ghost predicate AlwaysLongest(lens: seq<nat>, scratch: nat) {
    forall gcSeq: seq<nat> :: 0 < |gcSeq| == |lens| ==> Longest(lens, scratch, Select(lens, gcSeq, scratch))
  }

  /** Whatever the collection counts, a longest area is chosen: if and only if the last one is a longest. */
  lemma SelectLongest(lens: seq<nat>, scratch: nat)
    requires scratch < |lens| && |lens| >= 2
    ensures AlwaysLongest(lens, scratch) <==> Longest(lens, scratch, LastData(|lens|, scratch))
  {
    var f := LastData(|lens|, scratch);
    if Longest(lens, scratch, f) {
      forall gcSeq: seq<nat> | 0 < |gcSeq| == |lens|
        ensures Longest(lens, scratch, Select(lens, gcSeq, scratch))
      {
        LastTaken(lens, gcSeq, scratch, 0, 1);
      }
    } else {
      var gcSeq := seq(|lens|, a => if a == f then 0 else 1);
      LastChosen(lens, gcSeq, scratch, 0, 1);
      assert !Longest(lens, scratch, Select(lens, gcSeq, scratch));
    }
  }

  lemma {:induction false} LastTaken(lens: seq<nat>, gcSeq: seq<nat>, scratch: nat, best: nat, i: nat)
    requires scratch < |lens| == |gcSeq| && |lens| >= 2 && best < i <= |lens|
    requires
      var f := LastData(|lens|, scratch);
      Longest(lens, scratch, f) && (i > f ==> best != scratch && lens[best] >= lens[f])
    ensures Longest(lens, scratch, SelectFrom(lens, gcSeq, scratch, best, i))
    decreases |lens| - i
  {
    if i < |lens| {
      LastTaken(lens, gcSeq, scratch, Better(lens, gcSeq, scratch, best, i), i + 1);
    }
  }

  lemma {:induction false} LastChosen(lens: seq<nat>, gcSeq: seq<nat>, scratch: nat, best: nat, i: nat)
    requires scratch < |lens| == |gcSeq| && |lens| >= 2 && best < i <= |lens|
    requires
      var f := LastData(|lens|, scratch);
      && (forall a :: 0 <= a < |lens| ==> gcSeq[a] == if a == f then 0 else 1)
      && (i > f ==> best == f)
    ensures SelectFrom(lens, gcSeq, scratch, best, i) == LastData(|lens|, scratch)
    decreases |lens| - i
  {
    if i < |lens| {
      LastChosen(lens, gcSeq, scratch, Better(lens, gcSeq, scratch, best, i), i + 1);
    }
  }

  // ------------------------------------------------------------ rounds of collections

  /** How often each area has been collected, without the wrap-around of the 8 bit counts. */
  datatype Round = Round(ages: seq<nat>, top: nat, k: nat, second: bool)

  /** The areas collected as often as any: the first `k`, or just area 1 where the round began with
      area 0 as the scratch area. */
  ghost predicate Done(r: Round, a: nat) {
    if r.second then a == 1 else a < r.k
  }

  ghost predicate RoundOk(r: Round, scratch: nat) {
    && scratch < |r.ages| && |r.ages| >= 2 && Done(r, scratch)
    && (if r.second then r.k == 1 else 1 <= r.k <= |r.ages|)
    && forall a :: 0 <= a < |r.ages| ==> r.ages[a] + (if Done(r, a) then 0 else 1) == r.top
  }

  /** The area to be collected next. */
  ghost function Turn(r: Round, scratch: nat): nat {
    if r.second then 0 else if r.k < |r.ages| then r.k else if scratch == 0 then 1 else 0
  }

  ghost function NextRound(r: Round, scratch: nat): Round
    requires RoundOk(r, scratch)
  {
    var f := Turn(r, scratch);
    var ages := r.ages[f := r.ages[f] + 1];
    if r.second then Round(ages, r.top, 2, false)
    else if r.k < |r.ages| then Round(ages, r.top, r.k + 1, false)
    else Round(ages, r.top + 1, 1, scratch == 0)
  }

  lemma NextRoundOk(r: Round, scratch: nat)
    requires RoundOk(r, scratch)
    ensures Turn(r, scratch) < |r.ages| && Turn(r, scratch) != scratch
    ensures RoundOk(NextRound(r, scratch), Turn(r, scratch)) && |NextRound(r, scratch).ages| == |r.ages|
  {
  }

  /** The 8 bit counts tell an area collected less often by one. */
  lemma OlderAge(a: nat, b: nat)
    requires a <= b + 1 && b <= a + 1
    ensures Older(a % 256, b % 256) <==> a < b
  {
  }

  ghost predicate Counts(ages: seq<nat>, gcSeq: seq<nat>) {
    |gcSeq| == |ages| && forall a :: 0 <= a < |ages| ==> gcSeq[a] == ages[a] % 256
  }

  ghost predicate OneLength(lens: seq<nat>) {
    forall a, b :: 0 <= a < |lens| && 0 <= b < |lens| ==> lens[a] == lens[b]
  }

  /** Among areas of one length the choice goes by turns. */
  lemma SelectTurn(lens: seq<nat>, gcSeq: seq<nat>, r: Round, scratch: nat)
    requires RoundOk(r, scratch) && Counts(r.ages, gcSeq) && |lens| == |gcSeq| && OneLength(lens)
    ensures Select(lens, gcSeq, scratch) == Turn(r, scratch)
  {
    TurnTaken(lens, gcSeq, r, scratch, 0, 1);
  }

  lemma {:induction false} TurnTaken(lens: seq<nat>, gcSeq: seq<nat>, r: Round, scratch: nat, best: nat, i: nat)
    requires RoundOk(r, scratch) && Counts(r.ages, gcSeq) && |lens| == |gcSeq| && OneLength(lens)
    requires best < i <= |lens| && (i > Turn(r, scratch) ==> best == Turn(r, scratch))
    ensures SelectFrom(lens, gcSeq, scratch, best, i) == Turn(r, scratch)
    decreases |lens| - i
  {
    if i < |lens| {
      OlderAge(r.ages[i], r.ages[best]);
      TurnTaken(lens, gcSeq, r, scratch, Better(lens, gcSeq, scratch, best, i), i + 1);
    }
  }

  /** From `r0` the areas in `got` have been collected in `c` turns. */
  ghost predicate Since(r0: Round, r: Round, c: nat, got: set<nat>) {
    var n := |r0.ages|;
    && |r.ages| == n
    && if r.top == r0.top
       then c + r0.k == r.k && forall a :: 0 <= a < n && Done(r, a) && !Done(r0, a) ==> a in got
       else
         && r.top == r0.top + 1 && c + r0.k == n + r.k
         && forall a :: 0 <= a < n && (Done(r, a) || !Done(r0, a)) ==> a in got
  }

  lemma SinceSelf(r: Round, scratch: nat)
    requires RoundOk(r, scratch)
    ensures Since(r, r, 0, {})
  {
  }

  lemma SinceNext(r0: Round, r: Round, scratch0: nat, scratch: nat, c: nat, got: set<nat>)
    requires RoundOk(r0, scratch0) && RoundOk(r, scratch) && Since(r0, r, c, got) && c < |r0.ages|
    ensures Since(r0, NextRound(r, scratch), c + 1, got + {Turn(r, scratch)})
  {
  }

  /** As many turns as there are areas collect every area that held data at first. */
  lemma SinceAll(r0: Round, r: Round, scratch0: nat, scratch: nat, got: set<nat>)
    requires RoundOk(r0, scratch0) && RoundOk(r, scratch) && Since(r0, r, |r0.ages|, got)
    ensures forall a :: 0 <= a < |r0.ages| && a != scratch0 ==> a in got
  {
  }

  // ------------------------------------------------------------ the collector

  /** The header of an area, as nffs_area_to_disk makes it. */
  function AreaHeader(length: nat, gcSeq: byte, id: byte): (s: seq<byte>)
    requires length < WORD32
    ensures |s| == NFFS_DISK_AREA_SIZE
  {
    Put32(AREA_MAGIC0) + Put32(AREA_MAGIC1) + Put32(AREA_MAGIC2) + Put32(AREA_MAGIC3) + Put32(length) +
    [0, gcSeq, 0, id]
  }

  function Lengths(d: Disk): (lens: seq<nat>)
    ensures |lens| == |d.areas| && forall a :: 0 <= a < |lens| ==> lens[a] == |d.areas[a].data|
  {
    seq(|d.areas|, a requires 0 <= a < |d.areas| => |d.areas[a].data|)
  }

  /** Areas of one length, the scratch area among them fit for a collection. */
  ghost predicate Regular(d: Disk, ix: Index, scratch: nat) {
    Spare(d, ix, scratch) && OneLength(Lengths(d)) && forall a :: 0 <= a < |d.areas| ==> |d.areas[a].data| < WORD32
  }

  class Collector {
    const vol: Volume
    /** nffs_scratch_area_idx */
    var scratch: nat
    /** na_gc_seq and na_id of the areas */
    var gcSeq: seq<byte>
    var ids: seq<byte>
    ghost var round: Round

    ghost predicate Valid(files: Files)
      reads this, vol
    {
      && Mounted(vol.disk, vol.index, files) && Regular(vol.disk, vol.index, scratch)
      && vol.maxDataSize <= MAX_BLOCK_DATA
      && |vol.disk.areas| == |gcSeq| == |ids| == |round.ages|
      && RoundOk(round, scratch) && Counts(round.ages, gcSeq)
      && forall a :: 0 <= a < |ids| && a != scratch ==> HasId(vol.disk.areas[a], ids[a])
    }

    /** The counts that formatting leaves. */
    constructor (vol: Volume, scratch: nat, ids: seq<byte>, ghost files: Files)
      requires Mounted(vol.disk, vol.index, files) && Regular(vol.disk, vol.index, scratch)
      requires vol.maxDataSize <= MAX_BLOCK_DATA && |ids| == |vol.disk.areas| >= 2
      requires forall a :: 0 <= a < |ids| && a != scratch ==> HasId(vol.disk.areas[a], ids[a])
      ensures Valid(files) && this.vol == vol && this.scratch == scratch && this.ids == ids
      ensures forall a :: 0 <= a < |gcSeq| ==> gcSeq[a] == 0
    {
      this.vol := vol;
      this.scratch := scratch;
      this.ids := ids;
      gcSeq := seq(|vol.disk.areas|, _ => 0);
      round := Round(seq(|vol.disk.areas|, _ => 0), 0, |vol.disk.areas|, false);
    }

    /** nffs_gc_select_area */
    method SelectArea() returns (best: nat)
      requires 0 < |vol.disk.areas| == |gcSeq|
      ensures best == Select(Lengths(vol.disk), gcSeq, scratch)
    {
      ghost var lens := Lengths(vol.disk);
      best := 0;
      for i := 1 to |vol.disk.areas|
        invariant best < |vol.disk.areas|
        invariant SelectFrom(lens, gcSeq, scratch, best, i) == Select(lens, gcSeq, scratch)
      {
        if i != scratch {
          if |vol.disk.areas[i].data| > |vol.disk.areas[best].data| {
            best := i;
          } else if best == scratch {
            best := i;
          } else {
            var diff: int := gcSeq[i] as int - gcSeq[best];
            if diff % 256 >= 128 {
              best := i;
            }
          }
        }
      }
    }

    /** The walk through the hash table meets every inode, in an order of its own. */
    method Walk() returns (order: seq<Id>)
      ensures Lists(vol.index, order)
    {
      var rest := vol.index.inodes.Keys;
      order := [];
      while rest != {}
        invariant rest <= vol.index.inodes.Keys && NoDup(order)
        invariant forall i :: i in order <==> i in vol.index.inodes && i !in rest
        decreases |rest|
      {
        var i :| i in rest;
        NoDupJoin(order, [i]);
        rest := rest - {i};
        order := order + [i];
      }
    }

    /** nffs_gc: whose turn it is, is collected; the files stay, and the collector is fit for the next cycle. */
    method Collect(ghost files: Files) returns (rc: Rc, area: nat, ghost files': Files)
      requires Valid(files)
      modifies vol`disk, vol`index, this`scratch, this`gcSeq, this`ids, this`round
      ensures rc == Ok && Valid(files')
      ensures SameFiles(old(vol.disk), old(vol.index), files, vol.disk, vol.index, files')
      ensures area == old(scratch) && scratch == Turn(old(round), old(scratch))
      ensures round == NextRound(old(round), old(scratch)) && |vol.disk.areas| == |old(vol.disk).areas|
      ensures forall a :: 0 <= a < |vol.disk.areas| && a != scratch && a != area ==>
                vol.disk.areas[a] == old(vol.disk).areas[a]
      ensures NoNewIds(old(vol.index), vol.index)
      ensures |ids| == |old(ids)| && ids[area] == old(ids)[scratch] && ids[scratch] == AREA_ID_NONE
      ensures forall a :: 0 <= a < |ids| && a != scratch && a != area ==> ids[a] == old(ids)[a]
      ensures
        var a := vol.disk.areas[scratch];
        && |a.data| < WORD32
        && a.data[..NFFS_AREA_OFFSET_ID] ==
           AreaHeader(|a.data|, gcSeq[scratch], old(ids)[scratch])[..NFFS_AREA_OFFSET_ID]
      ensures Labelled(vol.disk, vol.index) <==> Labelled(old(vol.disk), old(vol.index)) && files' == files
    {
      hide Labelled, Shrunk, NoNewIds, Mounted, SameFiles, Spare, Regular, RoundOk, NextRound, Turn, Counts, AreaHeader;
      ghost var d, ix := vol.disk, vol.index;
      RegularLongest(d, ix, scratch);
      RoundBounds(round, scratch);
      NextRoundOk(round, scratch);
      var from := SelectArea();
      SelectTurn(Lengths(d), gcSeq, round, scratch);
      var order := Walk();
      var count := gcSeq[from] as int + 1;
      var header := AreaHeader(|vol.disk.areas[from].data|, count % 256, ids[from]);
      rc, files' := Gc(vol, order, from, scratch, ids[from], header, files, order);
      area := scratch;
      RegularAgain(d, vol.disk, ix, vol.index, scratch, from);
      CountsNext(round, gcSeq, scratch, from);
      ids := ids[scratch := ids[from]][from := AREA_ID_NONE];
      gcSeq := gcSeq[from := count % 256];
      round := NextRound(round, scratch);
      scratch := from;
    }

    /** nffs_gc_until: it fails if and only if no area has room once every area has been collected. */
    method GcUntil(space: nat, ghost files: Files) returns (rc: Rc, area: nat, ghost files': Files)
      requires Valid(files)
      modifies vol`disk, vol`index, this`scratch, this`gcSeq, this`ids, this`round
      ensures Valid(files') && SameFiles(old(vol.disk), old(vol.index), files, vol.disk, vol.index, files')
      ensures |vol.disk.areas| == |old(vol.disk).areas| && NoNewIds(old(vol.index), vol.index)
      ensures rc == if Full(vol.disk, scratch, space) then ErrFull else Ok
      ensures rc == Ok ==> area < |vol.disk.areas| && area != scratch && HasRoom(vol.disk, area, space)
    {
      hide Mounted, SameFiles, Regular, RoundOk, NextRound, Turn, Counts, Since, Labelled, AreaHeader, Entries, HasId;
      ghost var d, ix, r0, s0 := vol.disk, vol.index, round, scratch;
      ghost var got: set<nat> := {};
      SameFilesSelf(d, ix, files);
      SinceSelf(r0, scratch);
      files', area := files, 0;
      for c := 0 to |vol.disk.areas|
        invariant Valid(files') && SameFiles(d, ix, files, vol.disk, vol.index, files')
        invariant NoNewIds(ix, vol.index)
        invariant |vol.disk.areas| == |d.areas| && Since(r0, round, c, got) && (c == 0 ==> scratch == s0)
        invariant forall a :: 0 <= a < |d.areas| && a != scratch && (a in got || a == s0) ==>
                    !HasRoom(vol.disk, a, space)
      {
        ghost var d1, ix1, files1 := vol.disk, vol.index, files';
        RoundBounds(round, scratch);
        NextRoundOk(round, scratch);
        SinceNext(r0, round, s0, scratch, c, got);
        got := got + {Turn(round, scratch)};
        rc, area, files' := Collect(files1);
        SameFilesTrans(d, ix, files, d1, ix1, files1, vol.disk, vol.index, files');
        var free := |vol.disk.areas[area].data| - vol.disk.areas[area].cur;
        if free >= space {
          assert HasRoom(vol.disk, area, space);
          return Ok, area, files';
        }
        assert forall a :: 0 <= a < |d.areas| && a != scratch && a != area ==>
          HasRoom(vol.disk, a, space) == HasRoom(d1, a, space);
      }
      SinceAll(r0, round, s0, scratch, got);
      return ErrFull, area, files';
    }

    /** nffs_misc_reserve_space: collections and all, it fails if and only if no area has room then, and the
        files stay. */
    method Reserve(space: nat, ghost files: Files) returns (rc: Rc, area: nat, off: nat, ghost files': Files)
      requires Valid(files)
      modifies vol`disk, vol`index, this`scratch, this`gcSeq, this`ids, this`round
      ensures Valid(files') && SameFiles(old(vol.disk), old(vol.index), files, vol.disk, vol.index, files')
      ensures rc == if Full(vol.disk, scratch, space) then ErrFull else Ok
      ensures rc == Ok ==>
        area < |vol.disk.areas| && area != scratch && off == vol.disk.areas[area].cur && HasRoom(vol.disk, area, space)
      ensures !Full(old(vol.disk), old(scratch), space) ==> vol.disk == old(vol.disk) && vol.index == old(vol.index)
      ensures NoNewIds(old(vol.index), vol.index)
    {
      hide SameFiles, Regular, RoundOk, Counts;
      files' := files;
      SameFilesSelf(vol.disk, vol.index, files);
      rc, area, off := ReserveSpace(vol, scratch, space);
      if rc == Ok {
        return;
      }
      rc, area, files' := GcUntil(space, files);
      if rc == Ok {
        off := vol.disk.areas[area].cur;
      }
    }

    /** nffs_write_append, but for the cache: with or without collections on the way, the data is appended
        to the file, or the file is as before, and the other files stay. */
    method Append(x: Id, data: seq<byte>, ghost files: Files) returns (rc: Rc, ghost files': Files)
      requires Valid(files) && x in files && 0 < |data| <= MAX_BLOCK_DATA
      requires IdsBelow(vol.index) && vol.index.nextBlockId < NFFS_ID_NONE
      modifies vol`disk, vol`index, this`scratch, this`gcSeq, this`ids, this`round
      ensures Valid(files') && IdsBelow(vol.index) && vol.index.nextBlockId <= old(vol.index).nextBlockId + 1
      ensures rc == Ok || rc == ErrNoMemory || (rc == ErrFull && Full(vol.disk, scratch, NFFS_DISK_BLOCK_SIZE + |data|))
      ensures rc == ErrNoMemory <==> old(vol.index).free == 0
      ensures Entries(vol.index) == Entries(old(vol.index)) - (if rc == ErrFull then 1 else 0)
      ensures Added(old(vol.disk), old(vol.index), files, vol.disk, vol.index, files', Logged(rc, x, data))
    {
      hide Mounted, SameFiles, Regular, RoundOk, Counts, NoNewIds, Full, HasRoom, Added, IdsBelow, CrcOf, Entries;
      files' := files;
      ghost var d, ix := vol.disk, vol.index;
      NothingAdded(d, ix, files);
      if vol.index.free == 0 {
        return ErrNoMemory, files';
      }

      ChainFacts(d, ix, files, x);
      LastFits(d, ix, files, x);
      var id := vol.index.nextBlockId;
      vol.index := vol.index.(nextBlockId := id + 1, free := vol.index.free - 1);
      Bumped(d, ix, files, scratch);
      var h := Header(NFFS_BLOCK_MAGIC, id, 0, x, vol.index.inodes[x].last, |data|, 0);
      h := FillCrc(h, data);
      ghost var ix0 := vol.index;
      var area, off;
      rc, area, off, files' := Reserve(NFFS_DISK_BLOCK_SIZE + h.dataLen, files);
      ghost var d1, ix1, files1 := vol.disk, vol.index, files';
      AddedNone(d, ix, files, id + 1, ix.free - 1, d1, ix1, files1);
      LastKept(d, ix, files, ix0, d1, ix1, files1, x);
      if rc == Ok {
        files' := PlaceBlock(area, off, h, x, data, files1);
        AddedTrans(d, ix, files, d1, ix1, files1, vol.disk, vol.index, files', [], [Entry(x, data)]);
        assert [] + [Entry(x, data)] == [Entry(x, data)];
      }
    }

    /** The block goes to its place and becomes the last one of the file. */
    method PlaceBlock(area: nat, off: nat, h: Header, x: Id, data: seq<byte>, ghost files: Files)
        returns (ghost files': Files)
      requires Valid(files) && x in files && x in vol.index.inodes && IdsBelow(vol.index)
      requires area < |vol.disk.areas| && area != scratch && off == vol.disk.areas[area].cur
      requires HasRoom(vol.disk, area, NFFS_DISK_BLOCK_SIZE + |data|) && GoodHeader(h, data)
      requires h.inodeId == x && h.prevId == vol.index.inodes[x].last
      requires h.id !in vol.index.blocks && h.id < NFFS_ID_NONE && h.id < vol.index.nextBlockId
      modifies vol`disk, vol`index
      ensures Valid(files') && IdsBelow(vol.index) && vol.index.nextBlockId == old(vol.index).nextBlockId
      ensures Entries(vol.index) == Entries(old(vol.index)) + 1
      ensures Added(old(vol.disk), old(vol.index), files, vol.disk, vol.index, files', [Entry(x, data)])
    {
      hide Mounted, Regular, RoundOk, Counts, Added, IdsBelow, Live, BlockAt, Extends, CrcOf, GrowsBy, WrittenAt,
          AllLive, ViewOf, Spare, OthersSame, Contents, Within, Agree, BlockBytes, WriteBytes;
      ghost var d, ix := vol.disk, vol.index;
      RegularLongest(d, ix, scratch);
      MountedDisk(d, ix, files);
      var rc := vol.WriteBlock(area, off, h, data);
      GrownAt(d, vol.disk, area, NFFS_DISK_BLOCK_SIZE + |data|);
      IdsStay(d, vol.disk, ix, scratch, ids);
      Appended(d, ix, files, vol.disk, x, h.id, Loc(area, off), data, scratch);
      vol.index := vol.index.(blocks := vol.index.blocks[h.id := Loc(area, off)],
          inodes := vol.index.inodes[x := vol.index.inodes[x].(last := h.id)]);
      EntryKept(ix.blocks, h.id, Loc(area, off));
      files' := files[x := files[x] + [h.id]];
      RegularAgain(d, vol.disk, ix, vol.index, scratch, scratch);
      AddedBlock(d, ix, files, vol.disk, vol.index, files', x, data, h.id);
    }

    /** Any run of appends and collections: each file gets exactly the data whose writes succeeded, in their
        order, and every collection succeeds. */
    method Run(ops: seq<Op>, ghost files: Files) returns (rcs: seq<Rc>, ghost files': Files)
      requires Valid(files) && IdsBelow(vol.index) && vol.index.nextBlockId + |ops| <= NFFS_ID_NONE
      requires forall op :: op in ops && op.Write? ==> op.x in files && 0 < |op.data| <= MAX_BLOCK_DATA
      modifies vol`disk, vol`index, this`scratch, this`gcSeq, this`ids, this`round
      ensures Valid(files') && IdsBelow(vol.index) && |rcs| == |ops|
      ensures forall n :: 0 <= n < |ops| && ops[n].Cycle? ==> rcs[n] == Ok
      ensures Added(old(vol.disk), old(vol.index), files, vol.disk, vol.index, files', Log(ops, rcs))
    {
      hide Mounted, SameFiles, Regular, RoundOk, Counts, NoNewIds, Full, Added, IdsBelow, NextRound, Turn;
      ghost var d, ix := vol.disk, vol.index;
      NothingAdded(d, ix, files);
      rcs, files' := [], files;
      for n := 0 to |ops|
        invariant Valid(files') && IdsBelow(vol.index) && vol.index.nextBlockId + |ops| - n <= NFFS_ID_NONE
        invariant |rcs| == n && files'.Keys == files.Keys
        invariant forall m :: 0 <= m < n && ops[m].Cycle? ==> rcs[m] == Ok
        invariant Added(d, ix, files, vol.disk, vol.index, files', Log(ops[..n], rcs))
      {
        ghost var d1, ix1, files1 := vol.disk, vol.index, files';
        var rc;
        ghost var log: seq<Entry> := [];
        assert ops[n] in ops;
        if ops[n].Write? {
          rc, files' := Append(ops[n].x, ops[n].data, files1);
          log := Logged(rc, ops[n].x, ops[n].data);
        } else {
          var area;
          rc, area, files' := Collect(files1);
          AddedNone(d1, ix1, files1, ix1.nextBlockId, ix1.free, vol.disk, vol.index, files');
          StillBelow(ix1, vol.index);
        }
        AddedTrans(d, ix, files, d1, ix1, files1, vol.disk, vol.index, files', Log(ops[..n], rcs), log);
        LogNext(ops, rcs, n, rc);
        AddedKeys(d, ix, files, vol.disk, vol.index, files', Log(ops[..n + 1], rcs + [rc]));
        rcs := rcs + [rc];
      }
      assert ops[..|ops|] == ops;
    }
  }

  // ------------------------------------------------------------ what has been written

  datatype Op = Write(x: Id, data: seq<byte>) | Cycle

  datatype Entry = Entry(x: Id, data: seq<byte>)

  function Logged(rc: Rc, x: Id, data: seq<byte>): seq<Entry> {
    if rc == Ok then [Entry(x, data)] else []
  }

  /** The writes among the operations that succeeded. */
  function Log(ops: seq<Op>, rcs: seq<Rc>): seq<Entry>
    requires |rcs| == |ops|
  {
    if ops == [] then []
    else
      var n := |ops| - 1;
      Log(ops[..n], rcs[..n]) + (if ops[n].Write? then Logged(rcs[n], ops[n].x, ops[n].data) else [])
  }

  lemma LogNext(ops: seq<Op>, rcs: seq<Rc>, n: nat, rc: Rc)
    requires |rcs| == n < |ops|
    ensures Log(ops[..n + 1], rcs + [rc]) ==
            Log(ops[..n], rcs) + (if ops[n].Write? then Logged(rc, ops[n].x, ops[n].data) else [])
  {
    assert ops[..n + 1][..n] == ops[..n] && (rcs + [rc])[..n] == rcs;
  }

  /** What the entries add to file `i`. */
  function Written(log: seq<Entry>, i: Id): seq<byte> {
    if log == [] then []
    else (if log[0].x == i then log[0].data else []) + Written(log[1..], i)
  }

  lemma {:induction false} WrittenJoin(a: seq<Entry>, b: seq<Entry>, i: Id)
    ensures Written(a + b, i) == Written(a, i) + Written(b, i)
    decreases |a|
  {
    if a == [] {
      assert a + b == b;
    } else {
      assert (a + b)[1..] == a[1..] + b;
      WrittenJoin(a[1..], b, i);
    }
  }

  ghost predicate SameBytes(d: Disk, n: Inode, d': Disk, n': Inode)
    requires RecordOk(d, n) && RecordOk(d', n')
  {
    n'.size == n.size && Record(d', n') == Record(d, n)
  }

  /** The files have what the log says, in addition, and no inode's record has changed. */
  ghost predicate Added(d: Disk, ix: Index, files: Files, d': Disk, ix': Index, files': Files, log: seq<Entry>)
    requires Mounted(d, ix, files) && Mounted(d', ix', files')
  {
    && ix'.inodes.Keys == ix.inodes.Keys && files'.Keys == files.Keys
    && (forall i :: i in ix.inodes ==> SameBytes(d, ix.inodes[i], d', ix'.inodes[i]))
    && (forall i :: i in files ==>
      FileContents(ViewOf(d', ix'), ix', files', i) == FileContents(ViewOf(d, ix), ix, files, i) + Written(log, i))
  }

  lemma AddedKeys(d: Disk, ix: Index, files: Files, d': Disk, ix': Index, files': Files, log: seq<Entry>)
    requires Mounted(d, ix, files) && Mounted(d', ix', files') && Added(d, ix, files, d', ix', files', log)
    ensures files'.Keys == files.Keys
  {
  }

  lemma NothingAdded(d: Disk, ix: Index, files: Files)
    requires Mounted(d, ix, files)
    ensures Added(d, ix, files, d, ix, files, [])
  {
    hide FilesOk, AllLive, ViewOf, FileContents, RecordOk, Record, DiskOk, Disjoint;
  }

  lemma AddedTrans(d: Disk, ix: Index, files: Files, d1: Disk, ix1: Index, files1: Files, d2: Disk, ix2: Index,
      files2: Files, a: seq<Entry>, b: seq<Entry>)
    requires Mounted(d, ix, files) && Mounted(d1, ix1, files1) && Mounted(d2, ix2, files2)
    requires Added(d, ix, files, d1, ix1, files1, a) && Added(d1, ix1, files1, d2, ix2, files2, b)
    ensures Added(d, ix, files, d2, ix2, files2, a + b)
  {
    hide FilesOk, AllLive, ViewOf, FileContents, RecordOk, Record, DiskOk, Disjoint, Written;
    forall i | i in files
      ensures FileContents(ViewOf(d2, ix2), ix2, files2, i) ==
              FileContents(ViewOf(d, ix), ix, files, i) + Written(a + b, i)
    {
      WrittenJoin(a, b, i);
    }
  }

  /** A collection adds nothing, whatever the next block id. */
  lemma AddedNone(d: Disk, ix: Index, files: Files, next: Id, free: nat, d': Disk, ix': Index, files': Files)
    requires Mounted(d, ix, files) && Mounted(d, ix.(nextBlockId := next, free := free), files)
    requires Mounted(d', ix', files') && SameFiles(d, ix.(nextBlockId := next, free := free), files, d', ix', files')
    ensures Added(d, ix, files, d', ix', files', [])
  {
    hide FilesOk, AllLive, RecordOk, Record, DiskOk, Disjoint;
    NextIdOnly(d, ix, files, next, free);
  }

  lemma AddedBlock(d: Disk, ix: Index, files: Files, d': Disk, ix': Index, files': Files, x: Id, data: seq<byte>, b: Id)
    requires Mounted(d, ix, files) && Mounted(d', ix', files') && x in files && x in ix.inodes && Extends(d, d')
    requires files' == files[x := files[x] + [b]] && ix'.inodes == ix.inodes[x := ix.inodes[x].(last := b)]
    requires AllLive(d, ix) && AllLive(d', ix')
    requires
      var v, v' := ViewOf(d, ix), ViewOf(d', ix');
      && OthersSame(v, files, v', files', x) && Within(v, files[x]) && Within(v', files'[x])
      && Contents(v', files'[x]) == Contents(v, files[x]) + data
    ensures Added(d, ix, files, d', ix', files', [Entry(x, data)])
  {
    hide FilesOk, AllLive, ViewOf, FileContents, RecordOk, Record, DiskOk, Disjoint, Extends, Contents, Within, Agree;
    var log := [Entry(x, data)];
    RecordsExtend(d, d', ix);
    forall i | i in ix.inodes
      ensures SameBytes(d, ix.inodes[i], d', ix'.inodes[i])
    {
      SameInode(d', ix.inodes[i], ix'.inodes[i]);
    }
    forall i | i in files
      ensures FileContents(ViewOf(d', ix'), ix', files', i) ==
              FileContents(ViewOf(d, ix), ix, files, i) + Written(log, i)
    {
      assert log[1..] == [] && Written([], i) == [];
      ContentsOf(ViewOf(d, ix), ix, files, i);
      ContentsOf(ViewOf(d', ix'), ix', files', i);
      if i != x {
        assert files'[i] == files[i];
        LinkedFrame(ViewOf(d, ix), ViewOf(d', ix'), i, NFFS_ID_NONE, files[i]);
      }
    }
  }

  lemma SameInode(d: Disk, n: Inode, n': Inode)
    requires RecordOk(d, n) && n' == n.(last := n'.last)
    ensures RecordOk(d, n') && Record(d, n') == Record(d, n)
  {
  }

  lemma ContentsOf(v: View, ix: Index, files: Files, i: Id)
    requires FilesOk(v, ix, files) && i in files
    ensures Within(v, files[i]) && Linked(v, i, NFFS_ID_NONE, files[i])
    ensures FileContents(v, ix, files, i) == Contents(v, files[i])
  {
    ChainWithin(v, ix, files, i);
  }

  lemma IdsStay(d: Disk, d': Disk, ix: Index, scratch: nat, ids: seq<byte>)
    requires Extends(d, d') && Spare(d, ix, scratch) && |ids| == |d.areas| == |d'.areas|
    requires forall a :: 0 <= a < |ids| && a != scratch ==> HasId(d.areas[a], ids[a])
    ensures forall a :: 0 <= a < |ids| && a != scratch ==> HasId(d'.areas[a], ids[a])
  {
    hide Extends;
    forall a | 0 <= a < |ids| && a != scratch
      ensures HasId(d'.areas[a], ids[a])
    {
      assert HeadedArea(d.areas[a], d.areas[scratch]);
      ByteStays(d, d', a, NFFS_AREA_OFFSET_ID);
    }
  }

  lemma MountedDisk(d: Disk, ix: Index, files: Files)
    requires Mounted(d, ix, files)
    ensures DiskOk(d) && AllLive(d, ix)
  {
  }

  lemma GrownAt(d: Disk, d': Disk, area: nat, n: nat)
    requires area < |d.areas| && GrowsBy(d, d', area, n)
    ensures DiskOk(d') && Extends(d, d') && WrittenAt(d, d', Loc(area, d.areas[area].cur), n)
    ensures |d'.areas| == |d.areas| && forall a :: 0 <= a < |d'.areas| ==> |d'.areas[a].data| == |d.areas[a].data|
  {
    hide Extends;
  }

  lemma Bumped(d: Disk, ix: Index, files: Files, scratch: nat)
    requires Mounted(d, ix, files) && Regular(d, ix, scratch) && IdsBelow(ix) && ix.nextBlockId < NFFS_ID_NONE
    requires ix.free > 0
    ensures
      var ix' := ix.(nextBlockId := ix.nextBlockId + 1, free := ix.free - 1);
      Mounted(d, ix', files) && Regular(d, ix', scratch) && IdsBelow(ix') && Entries(ix') == Entries(ix) - 1
  {
    hide Mounted, Spare, OneLength;
    NextIdOnly(d, ix, files, ix.nextBlockId + 1, ix.free - 1);
    SpareNextId(d, ix, scratch, ix.nextBlockId + 1, ix.free - 1);
  }

  /** After a collection the id taken before is still free, and the file still ends with the same block. */
  lemma LastKept(d: Disk, ix: Index, files: Files, ix0: Index, d1: Disk, ix1: Index, files1: Files, x: Id)
    requires Mounted(d, ix, files) && Mounted(d1, ix1, files1) && x in files && IdsBelow(ix)
    requires ix.nextBlockId < NFFS_ID_NONE
    requires ix.free > 0 && ix0 == ix.(nextBlockId := ix.nextBlockId + 1, free := ix.free - 1) && NoNewIds(ix0, ix1)
    requires Mounted(d, ix0, files) && SameFiles(d, ix0, files, d1, ix1, files1)
    ensures IdsBelow(ix1) && x in files1 && x in ix.inodes && x in ix1.inodes
    ensures ix1.inodes[x].last == ix.inodes[x].last
    ensures ix.nextBlockId !in ix1.blocks && ix.nextBlockId < ix1.nextBlockId == ix.nextBlockId + 1
    ensures Entries(ix1) == Entries(ix) - 1
  {
    hide Mounted;
    ChainFacts(d, ix, files, x);
  }

  lemma StillBelow(ix: Index, ix': Index)
    requires IdsBelow(ix) && NoNewIds(ix, ix')
    ensures IdsBelow(ix') && ix'.nextBlockId == ix.nextBlockId
  {
  }

  /** Where a block was before area `from` was collected it still is, if and only if it was not in that area.
      nffs_write_over_block goes on to copy from there if its request for space has led to a collection. */
  lemma SourceStays(d: Disk, ix: Index, scratch: nat, d': Disk, ix': Index, from: nat, b: Id)
    requires AllLive(d, ix) && b in ix.blocks && Spare(d, ix, scratch) && Spare(d', ix', from)
    requires |d'.areas| == |d.areas|
    requires forall a :: 0 <= a < |d.areas| && a != from && a != scratch ==> d'.areas[a] == d.areas[a]
    ensures
      var l := ix.blocks[b];
      && (Live(d', l) <==> l.area != from)
      && (l.area != from ==> BlockAt(d', l) == BlockAt(d, l))
  {
    var l := ix.blocks[b];
    if l.area != from {
      SameArea(d, d', l);
    }
  }

  lemma RoundBounds(r: Round, scratch: nat)
    requires RoundOk(r, scratch)
    ensures scratch < |r.ages| && |r.ages| >= 2
  {
  }

  lemma RegularLongest(d: Disk, ix: Index, scratch: nat)
    requires Regular(d, ix, scratch)
    ensures Spare(d, ix, scratch) && scratch < |d.areas| && OneLength(Lengths(d))
    ensures forall a, b :: 0 <= a < |d.areas| && 0 <= b < |d.areas| ==> |d.areas[a].data| <= |d.areas[b].data| < WORD32
  {
    forall a, b | 0 <= a < |d.areas| && 0 <= b < |d.areas|
      ensures |d.areas[a].data| <= |d.areas[b].data| < WORD32
    {
      assert Lengths(d)[a] == Lengths(d)[b];
    }
  }

  lemma RegularAgain(d: Disk, d': Disk, ix: Index, ix': Index, scratch: nat, from: nat)
    requires Regular(d, ix, scratch) && Spare(d', ix', from) && |d'.areas| == |d.areas|
    requires forall a :: 0 <= a < |d'.areas| ==> |d'.areas[a].data| == |d.areas[a].data|
    ensures Regular(d', ix', from)
  {
    hide Spare;
    assert Lengths(d') == Lengths(d);
  }

  lemma CountsNext(r: Round, gcSeq: seq<nat>, scratch: nat, from: nat)
    requires RoundOk(r, scratch) && Counts(r.ages, gcSeq) && from == Turn(r, scratch) < |gcSeq|
    ensures Counts(NextRound(r, scratch).ages, gcSeq[from := (gcSeq[from] + 1) % 256])
  {
  }
}
