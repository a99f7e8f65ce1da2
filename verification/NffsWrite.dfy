/** Writing to a file: overwriting blocks, extending the last one, appending. */
module NffsWrite {
  import opened Common
  import opened Bytes
  import opened Crc16
  import opened NffsChain
  import opened NffsDisk
  import opened NffsIndex
  import opened NffsPlace
  import opened NffsVolume
  import opened NffsGc
  import opened NffsCycle
  import opened NffsCache
  import opened NffsFile

  // ------------------------------------------------------------ checksums over flash

  /** nffs_crc_flash: the checksum of a stretch of flash, read a buffer at a time. */
  method CrcFlash(vol: Volume, initial: bv16, area: nat, off: nat, len: nat) returns (rc: Rc, crc: bv16)
    requires area < |vol.disk.areas|
    ensures rc == Ok <==> InArea(vol.disk, area, off, len) || len == 0
    ensures rc == Ok && len > 0 ==> crc == Crc(initial, ReadBytes(vol.disk, area, off, len))
    ensures len == 0 ==> crc == initial
  {
    hide Crc, CrcSoFar, ReadBytes;
    CrcStart(vol.disk, area, off, len, initial);
    crc := initial;
    var done := 0;
    while done < len
      invariant 0 <= done <= len && (done > 0 ==> off + done <= |vol.disk.areas[area].data|)
      invariant CrcSoFar(vol.disk, area, off, len, initial, done, crc)
    {
      var chunk := if len - done > NFFS_FLASH_BUF_SZ then NFFS_FLASH_BUF_SZ else len - done;
      var buf;
      rc, buf := vol.FlashRead(area, off + done, chunk);
      if rc != Ok {
        return rc, crc;
      }
      ghost var crc0 := crc;
      crc := Crc16Ccitt(crc, buf);
      CrcChunk(vol.disk, initial, crc0, area, off, len, done, chunk);
      done := done + chunk;
    }
    rc := Ok;
    CrcEnd(vol.disk, area, off, len, initial, crc);
  }

  /** The checksum of the first `done` bytes of the stretch. */
  ghost predicate CrcSoFar(d: Disk, area: nat, off: nat, len: nat, initial: bv16, done: nat, crc: bv16) {
    done <= len && (InArea(d, area, off, len) ==> crc == Crc(initial, ReadBytes(d, area, off, len)[..done])) &&
        (done == 0 ==> crc == initial)
  }

  lemma CrcStart(d: Disk, area: nat, off: nat, len: nat, initial: bv16)
    ensures CrcSoFar(d, area, off, len, initial, 0, initial)
  {
    CrcEmpty(initial);
  }

  lemma CrcEnd(d: Disk, area: nat, off: nat, len: nat, initial: bv16, crc: bv16)
    requires CrcSoFar(d, area, off, len, initial, len, crc)
    ensures InArea(d, area, off, len) ==> crc == Crc(initial, ReadBytes(d, area, off, len))
    ensures len == 0 ==> crc == initial
  {
    hide Crc;
    if InArea(d, area, off, len) {
      assert ReadBytes(d, area, off, len)[..len] == ReadBytes(d, area, off, len);
    }
  }

  lemma CrcEmpty(c: bv16)
    ensures Crc(c, []) == c
  {
  }

  lemma CrcChunk(d: Disk, initial: bv16, crc0: bv16, area: nat, off: nat, len: nat, done: nat, n: nat)
    requires InArea(d, area, off + done, n) && done + n <= len && n > 0 &&
             CrcSoFar(d, area, off, len, initial, done, crc0)
    ensures CrcSoFar(d, area, off, len, initial, done + n, Crc(crc0, ReadBytes(d, area, off + done, n)))
  {
    hide Crc;
    if InArea(d, area, off, len) {
      var all := ReadBytes(d, area, off, len);
      ReadPart(d, area, off, len, done, n);
      CrcAppend(initial, all[..done], all[done..done + n]);
      assert all[..done] + all[done..done + n] == all[..done + n];
    }
  }

  /** nffs_crc_disk_block_hdr */
  method CrcDiskBlockHdr(h: Header) returns (crc: bv16)
    requires Fits(h)
    ensures crc == Crc(0, EncodePrefix(h))
  {
    crc := Crc16Ccitt(0, Encode(h)[..NFFS_DISK_BLOCK_OFFSET_CRC]);
    PrefixOfHeader(h);
  }

  lemma PrefixOfHeader(h: Header)
    requires Fits(h)
    ensures Encode(h)[..NFFS_DISK_BLOCK_OFFSET_CRC] == EncodePrefix(h)
  {
    hide EncodePrefix, Put16, Put32;
  }

  /** nffs_crc_disk_block_validate: accepts exactly the blocks whose checksum is the one over header and data. */
  method DiskBlockValidate(vol: Volume, h: Header, area: nat, off: nat) returns (rc: Rc)
    requires Fits(h) && area < |vol.disk.areas| && InArea(vol.disk, area, off + NFFS_DISK_BLOCK_SIZE, h.dataLen)
    ensures rc == Ok <==> h.crc16 == CrcOf(h, ReadBytes(vol.disk, area, off + NFFS_DISK_BLOCK_SIZE, h.dataLen))
  {
    hide Crc, EncodePrefix;
    var crc := CrcDiskBlockHdr(h);
    CrcEmpty(crc);
    rc, crc := CrcFlash(vol, crc, area, off + NFFS_DISK_BLOCK_SIZE, h.dataLen);
    if crc as int != h.crc16 {
      return ErrCorrupt;
    }
    return Ok;
  }

  // ------------------------------------------------------------ overwriting a block

  /** `data` written over `c` from `at` on; the result may be longer. */
  function Splice(c: seq<byte>, at: nat, data: seq<byte>): (r: seq<byte>)
    requires at <= |c|
    ensures |r| == if at + |data| > |c| then at + |data| else |c|
  {
    c[..at] + data + if at + |data| > |c| then [] else c[at + |data|..]
  }

  /** A sum in 16 bits. */
  function Add16(a: nat, b: nat): nat {
    (a + b) % WORD16
  }

  /** The lengths nffs_write_over_block computes, in 16 bits: the new block's data
      length, and how much it has written when it compares the two. */
  function DataLen16(left: nat, len: nat, right: nat): nat {
    (left + len + right) % WORD16
  }

  function BlockOff16(left: nat, len: nat, right: nat): nat {
    Add16(Add16(Add16(NFFS_DISK_BLOCK_SIZE, left), len), right)
  }

  /** The recorded length is the true one and the closing assertion holds exactly when the whole block,
      header included, is shorter than 2^16 bytes; the assertion alone holds whenever the recorded
      length is one that a block can have. */
  lemma LengthsHold(left: nat, len: nat, right: nat)
    ensures DataLen16(left, len, right) < WORD16 && BlockOff16(left, len, right) ==
            (NFFS_DISK_BLOCK_SIZE + left + len + right) % WORD16
    ensures BlockOff16(left, len, right) == NFFS_DISK_BLOCK_SIZE + DataLen16(left, len, right) <==>
            DataLen16(left, len, right) <= MAX_BLOCK_DATA
    ensures DataLen16(left, len, right) == left + len + right <= MAX_BLOCK_DATA <==>
            left + len + right <= MAX_BLOCK_DATA
  {
    var n := left + len + right;
    assert n == n / WORD16 * WORD16 + n % WORD16;
    assert NFFS_DISK_BLOCK_SIZE + n == n / WORD16 * WORD16 + (NFFS_DISK_BLOCK_SIZE + n % WORD16);
    if n % WORD16 <= MAX_BLOCK_DATA {
      ModPlus(n / WORD16, NFFS_DISK_BLOCK_SIZE + n % WORD16);
    } else {
      ModPlus(n / WORD16 + 1, NFFS_DISK_BLOCK_SIZE + n % WORD16 - WORD16);
    }
  }

  lemma ModPlus(q: nat, r: nat)
    requires r < WORD16
    ensures (q * WORD16 + r) % WORD16 == r
  {
  }

  /** nffs_write_fill_crc16_overwrite: the checksum of the new block, from the pieces it will be made of.
      Its closing assertion compares the length written to the header with a 16 bit sum. */
  method FillCrcOverwrite(vol: Volume, h: Header, src: Loc, left: nat, right: nat, data: seq<byte>,
      ghost old_: seq<byte>) returns (rc: Rc, r: Header)
    requires Fits(h) && left <= |old_| <= MAX_BLOCK_DATA && left + |data| + right == |Splice(old_, left, data)|
    requires src.area < |vol.disk.areas| && InArea(vol.disk, src.area, src.off + NFFS_DISK_BLOCK_SIZE, |old_|)
    requires ReadBytes(vol.disk, src.area, src.off + NFFS_DISK_BLOCK_SIZE, |old_|) == old_
    ensures rc == if BlockOff16(left, |data|, right) == NFFS_DISK_BLOCK_SIZE + h.dataLen then Ok else ErrAssert
    ensures rc == Ok ==> Fits(r) && r == h.(crc16 := r.crc16) && r.crc16 == CrcOf(r, Splice(old_, left, data))
  {
    hide Crc, EncodePrefix, Splice, ReadBytes, InArea, Add16;
    OldPieces(vol.disk, src, left, right, data, old_);
    NoWrap(left, right, data, old_);
    var crc := CrcDiskBlockHdr(h);
    PiecesCrc(crc, left, right, data, old_);
    var blockOff := NFFS_DISK_BLOCK_SIZE;
    if left > 0 {
      rc, crc := CrcFlash(vol, crc, src.area, src.off + blockOff, left);
    }
    blockOff := Add16(blockOff, left);
    crc := Crc16Ccitt(crc, data);
    blockOff := Add16(blockOff, |data|);
    if right > 0 {
      rc, crc := CrcFlash(vol, crc, src.area, src.off + blockOff, right);
    }
    blockOff := Add16(blockOff, right);
    r := h;
    if blockOff != NFFS_DISK_BLOCK_SIZE + h.dataLen {
      return ErrAssert, r;
    }
    rc := Ok;
    r := h.(crc16 := crc as int);
    SamePrefix(h, r);
  }

  /** Where something of the old block is kept behind the new data, offsets do not wrap. */
  lemma NoWrap(left: nat, right: nat, data: seq<byte>, old_: seq<byte>)
    requires left <= |old_| <= MAX_BLOCK_DATA && left + |data| + right == |Splice(old_, left, data)|
    ensures Add16(NFFS_DISK_BLOCK_SIZE, left) == NFFS_DISK_BLOCK_SIZE + left
    ensures right > 0 ==> Add16(NFFS_DISK_BLOCK_SIZE + left, |data|) == NFFS_DISK_BLOCK_SIZE + left + |data|
  {
  }

  /** The parts of the old block that are kept, on flash. */
  lemma OldPieces(d: Disk, src: Loc, left: nat, right: nat, data: seq<byte>, old_: seq<byte>)
    requires left <= |old_| && left + |data| + right == |Splice(old_, left, data)|
    requires src.area < |d.areas| && InArea(d, src.area, src.off + NFFS_DISK_BLOCK_SIZE, |old_|)
    requires ReadBytes(d, src.area, src.off + NFFS_DISK_BLOCK_SIZE, |old_|) == old_
    ensures InArea(d, src.area, src.off + NFFS_DISK_BLOCK_SIZE, left)
    ensures ReadBytes(d, src.area, src.off + NFFS_DISK_BLOCK_SIZE, left) == old_[..left]
    ensures right > 0 ==>
              && left + |data| + right == |old_| && InArea(d, src.area,
                  src.off + (NFFS_DISK_BLOCK_SIZE + left + |data|), right)
              && ReadBytes(d, src.area, src.off + (NFFS_DISK_BLOCK_SIZE + left + |data|), right) ==
                  old_[left + |data|..]
  {
    ReadPart(d, src.area, src.off + NFFS_DISK_BLOCK_SIZE, |old_|, 0, left);
    if right > 0 {
      ReadPart(d, src.area, src.off + NFFS_DISK_BLOCK_SIZE, |old_|, left + |data|, right);
    }
  }

  /** Summing the pieces one after the other sums the new block. */
  lemma PiecesCrc(c0: bv16, left: nat, right: nat, data: seq<byte>, old_: seq<byte>)
    requires left <= |old_| && left + |data| + right == |Splice(old_, left, data)|
    ensures left == 0 ==> Crc(c0, old_[..left]) == c0
    ensures right == 0 ==>
      Crc(Crc(Crc(c0, old_[..left]), data), []) == Crc(c0, Splice(old_, left, data)) == Crc(Crc(c0, old_[..left]), data)
    ensures right > 0 ==>
      left + |data| <= |old_| && Crc(Crc(Crc(c0, old_[..left]), data), old_[left + |data|..]) ==
      Crc(c0, Splice(old_, left, data))
  {
    hide Crc;
    CrcEmpty(c0);
    CrcEmpty(Crc(Crc(c0, old_[..left]), data));
    CrcAppend(c0, old_[..left], data);
    if right > 0 {
      CrcAppend(c0, old_[..left] + data, old_[left + |data|..]);
    } else {
      assert Splice(old_, left, data) == old_[..left] + data;
    }
  }

  /** The checksum field is not part of what is summed. */
  lemma SamePrefix(h: Header, r: Header)
    requires Fits(h) && Fits(r) && r == h.(crc16 := r.crc16)
    ensures EncodePrefix(r) == EncodePrefix(h)
  {
  }

  predicate HasRoom(d: Disk, area: nat, space: nat)
    requires area < |d.areas|
  {
    d.areas[area].cur + space <= |d.areas[area].data|
  }

  /** No area but the scratch area has room. */
  predicate Full(d: Disk, scratch: nat, space: nat) {
    forall a :: 0 <= a < |d.areas| && a != scratch ==> !HasRoom(d, a, space)
  }

  /** nffs_misc_reserve_space, up to the point where it would collect garbage: the first area with room. */
  method ReserveSpace(vol: Volume, scratch: nat, space: nat) returns (rc: Rc, area: nat, off: nat)
    requires DiskOk(vol.disk)
    ensures rc == if Full(vol.disk, scratch, space) then ErrFull else Ok
    ensures rc == Ok ==>
      area < |vol.disk.areas| && area != scratch && off == vol.disk.areas[area].cur && HasRoom(vol.disk, area, space)
    ensures rc == Ok ==> forall a :: 0 <= a < area && a != scratch ==> !HasRoom(vol.disk, a, space)
  {
    area := 0;
    while area < |vol.disk.areas|
      invariant area <= |vol.disk.areas|
      invariant forall a :: 0 <= a < area && a != scratch ==> !HasRoom(vol.disk, a, space)
    {
      if area != scratch {
        var available := |vol.disk.areas[area].data| - vol.disk.areas[area].cur;
        if available >= space {
          assert HasRoom(vol.disk, area, space);
          return Ok, area, vol.disk.areas[area].cur;
        }
      }
      area := area + 1;
    }
    return ErrFull, 0, 0;
  }

  lemma SourceReady(d: Disk, ix: Index, b: Id)
    requires AllLive(d, ix) && DiskOk(d) && b in ix.blocks
    ensures
      var l, old_ := ix.blocks[b], ViewOf(d, ix)[b].data;
      && l.area < |d.areas| && InArea(d, l.area, l.off + NFFS_DISK_BLOCK_SIZE, |old_|)
      && ReadBytes(d, l.area, l.off + NFFS_DISK_BLOCK_SIZE, |old_|) == old_
      && l.off + NFFS_DISK_BLOCK_SIZE + |old_| <= d.areas[l.area].cur
  {
    hide Live, BlockAt, Decode, CrcOf;
    ViewHeader(d, ix, b);
    ViewData(d, ix, b, 0, |ViewOf(d, ix)[b].data|);
    assert ViewOf(d, ix)[b].data[0..|ViewOf(d, ix)[b].data|] == ViewOf(d, ix)[b].data;
  }

  /** The pieces a new block is made of: header, kept data, new data, kept data. */
  lemma Pieces(h: Header, left: nat, right: nat, data: seq<byte>, old_: seq<byte>)
    requires Fits(h) && left <= |old_| && left + |data| + right == |Splice(old_, left, data)|
    ensures
      var raw := BlockBytes(h, Splice(old_, left, data));
      var n := NFFS_DISK_BLOCK_SIZE;
      && |raw| == n + left + |data| + right
      && raw[0..n] == Encode(h) && raw[n..n + left] == old_[..left] && raw[n + left..n + left + |data|] == data
      && (right > 0 ==>
        left + |data| <= |old_| && raw[n + left + |data|..n + left + |data| + right] == old_[left + |data|..])
  {
    hide Encode;
  }

  /** The writing part of nffs_write_over_block: all of the block, or as much of it as there is room for. */
  method WritePieces(vol: Volume, area: nat, off: nat, h: Header, src: Loc, left: nat, right: nat, data: seq<byte>,
      ghost old_: seq<byte>) returns (rc: Rc)
    requires DiskOk(vol.disk) && Fits(h) && left <= |old_| <= MAX_BLOCK_DATA &&
             left + |data| + right == |Splice(old_, left, data)| && data != []
    requires src.area < |vol.disk.areas| && src.off + NFFS_DISK_BLOCK_SIZE + |old_| <= vol.disk.areas[src.area].cur
    requires InArea(vol.disk, src.area, src.off + NFFS_DISK_BLOCK_SIZE, |old_|)
    requires ReadBytes(vol.disk, src.area, src.off + NFFS_DISK_BLOCK_SIZE, |old_|) == old_
    requires area < |vol.disk.areas|
    modifies vol`disk
    ensures DiskOk(vol.disk) && Extends(old(vol.disk), vol.disk) && OnlyArea(old(vol.disk), vol.disk, area)
    ensures rc == if CanWrite(old(vol.disk), area, off, NFFS_DISK_BLOCK_SIZE + left + |data| + right) then Ok
            else ErrRange
    ensures rc == Ok ==> CanWrite(old(vol.disk), area, off, |BlockBytes(h, Splice(old_, left, data))|)
    ensures rc == Ok ==> vol.disk == WriteBytes(old(vol.disk), area, off, BlockBytes(h, Splice(old_, left, data)))
  {
    hide Splice, Encode, ReadBytes, WriteBytes, Extends, BlockBytes, PartWritten, Add16, OnlyArea;
    ghost var d0 := vol.disk;
    ghost var raw := BlockBytes(h, Splice(old_, left, data));
    ghost var fits := CanWrite(d0, area, off, |raw|);
    Pieces(h, left, right, data, old_);
    NoWrap(left, right, data, old_);
    ExtendsSelf(d0);
    OnlySelf(d0, area);
    OldPieces(d0, src, left, right, data, old_);
    if fits {
      WriteFirst(d0, area, off, raw, NFFS_DISK_BLOCK_SIZE);
    }
    var blockOff := NFFS_DISK_BLOCK_SIZE;
    rc := vol.FlashWrite(area, off, Encode(h));
    if rc != Ok {
      return ErrRange;
    }
    if left > 0 {
      if fits {
        WriteNext(d0, vol.disk, area, off, raw, blockOff, left);
      }
      StillThere(d0, vol.disk, src.area, src.off + blockOff, left);
      ghost var d1 := vol.disk;
      rc := vol.FlashCopy(src.area, src.off + blockOff, area, off + blockOff, left);
      OnlyTrans(d0, d1, vol.disk, area);
      if rc != Ok {
        return ErrRange;
      }
      blockOff := blockOff + left;
    }
    if fits {
      WriteNext(d0, vol.disk, area, off, raw, blockOff, |data|);
    }
    SameLength(d0, vol.disk, area);
    ghost var d2 := vol.disk;
    rc := vol.FlashWrite(area, off + blockOff, data);
    if rc != Ok {
      return ErrRange;
    }
    OnlyTrans(d0, d2, vol.disk, area);
    blockOff := Add16(blockOff, |data|);
    if right > 0 {
      if fits {
        WriteNext(d0, vol.disk, area, off, raw, blockOff, right);
      }
      StillThere(d0, vol.disk, src.area, src.off + blockOff, right);
      SameLength(d0, vol.disk, area);
      ghost var d3 := vol.disk;
      rc := vol.FlashCopy(src.area, src.off + blockOff, area, off + blockOff, right);
      OnlyTrans(d0, d3, vol.disk, area);
      if rc != Ok {
        return ErrRange;
      }
    }
    WriteAll(d0, vol.disk, area, off, raw);
  }

  lemma OnlySelf(d: Disk, area: nat)
    ensures OnlyArea(d, d, area)
  {
  }

  lemma OnlyTrans(d0: Disk, d1: Disk, d2: Disk, area: nat)
    requires Extends(d0, d1) && Extends(d1, d2) && OnlyArea(d0, d1, area) && OnlyArea(d1, d2, area)
    ensures Extends(d0, d2) && OnlyArea(d0, d2, area)
  {
    hide Extends;
    ExtendsTrans(d0, d1, d2);
  }

  lemma StillThere(d: Disk, d': Disk, area: nat, off: nat, len: nat)
    requires Extends(d, d') && area < |d.areas| && off + len <= d.areas[area].cur
    ensures |d'.areas| == |d.areas| && off + len <= d'.areas[area].cur && InArea(d, area, off, len) &&
            InArea(d', area, off, len)
    ensures ReadBytes(d', area, off, len) == ReadBytes(d, area, off, len)
  {
    ReadExtends(d, d', area, off, len);
    assert AreaExtends(d.areas[area], d'.areas[area]);
  }

  lemma WriteFirst(d: Disk, area: nat, off: nat, raw: seq<byte>, n: nat)
    requires DiskOk(d) && CanWrite(d, area, off, |raw|) && 0 < n <= |raw|
    ensures CanWrite(d, area, off, n)
    ensures PartWritten(d, WriteBytes(d, area, off, raw[0..n]), area, off, raw, n)
    ensures DiskOk(WriteBytes(d, area, off, raw[0..n])) && Extends(d, WriteBytes(d, area, off, raw[0..n]))
  {
    hide Extends, WriteBytes;
    assert raw[0..n] == raw[..n];
    WriteExtends(d, area, off, raw[0..n]);
  }

  lemma WriteAll(d0: Disk, d: Disk, area: nat, off: nat, raw: seq<byte>)
    requires CanWrite(d0, area, off, |raw|) && raw != [] && PartWritten(d0, d, area, off, raw, |raw|)
    ensures d == WriteBytes(d0, area, off, raw)
  {
    assert raw[..|raw|] == raw;
  }

  /** The header recorded for block `b` says another length than the block has. */
  ghost predicate Mislabelled(d: Disk, ix: Index, b: Id, len: nat) {
    && b in ix.blocks && InArea(d, ix.blocks[b].area, ix.blocks[b].off, NFFS_DISK_BLOCK_SIZE)
    && HeaderAt(d, ix.blocks[b]).dataLen == len % WORD16 < len
  }

  /** nffs_write_over_block: a new block with the same id supersedes the old one.  It has the spliced data
      if and only if that is no longer than a block can be; if it is longer, the call fails, or the block
      records a length that is 2^16 less. */
  method WriteOverBlock(vol: Volume, scratch: nat, b: Id, left: nat, data: seq<byte>) returns (rc: Rc, ghost l: Loc)
    requires vol.Valid() && b in vol.index.blocks && vol.View()[b].inode in vol.index.inodes
    requires vol.View()[b].prev == NFFS_ID_NONE || vol.View()[b].prev in vol.index.blocks
    requires left <= |vol.View()[b].data| && 0 < |data| < WORD16 && Spare(vol.disk, vol.index, scratch)
    modifies vol`disk, vol`index
    ensures
      var n := |Splice(old(vol.View())[b].data, left, data)|;
      if n <= MAX_BLOCK_DATA then rc == if Full(old(vol.disk), scratch, NFFS_DISK_BLOCK_SIZE + n) then ErrFull else Ok
      else if n % WORD16 > MAX_BLOCK_DATA then rc == ErrAssert
      else rc == ErrLost || rc == (if Full(old(vol.disk), scratch, NFFS_DISK_BLOCK_SIZE + n % WORD16) then ErrFull
          else ErrRange)
    ensures DiskOk(vol.disk) && Extends(old(vol.disk), vol.disk) && (rc != ErrLost ==> vol.Valid()) &&
            Spare(vol.disk, vol.index, scratch)
    ensures rc != Ok && rc != ErrRange && rc != ErrLost ==> vol.disk == old(vol.disk)
    ensures rc != Ok && rc != ErrLost ==> vol.index == old(vol.index) && vol.View() == old(vol.View())
    ensures rc == Ok || rc == ErrLost ==> vol.index == old(vol.index).(blocks := old(vol.index).blocks[b := l])
    ensures rc == Ok ==> vol.View() == old(vol.View())[b := old(vol.View())[b].(data := Splice(old(vol.View())[b].data,
            left, data))]
    ensures rc == ErrLost ==> Mislabelled(vol.disk, vol.index, b, |Splice(old(vol.View())[b].data, left, data)|)
    ensures rc == Ok ==>
              Labels(vol.disk, vol.index) == Labels(old(vol.disk), old(vol.index))
                [b := Supersedes(b, LabelAt(old(vol.disk), old(vol.index).blocks[b]).seqNum)]
  {
    hide Live, BlockAt, Decode, CrcOf, Splice, Full, HasRoom, WriteBytes, Extends, ReadBytes, BlockIds, Mislabelled,
        Spare, Disjoint, OnlyArea, LabelAt, Labels;
    ghost var d0, v := vol.disk, vol.View();
    ghost var old_ := v[b].data;
    l := vol.index.blocks[b];
    ExtendsSelf(d0);
    ViewHeader(d0, vol.index, b);
    SourceReady(d0, vol.index, b);
    var block;
    LabelIs(vol.disk, vol.index.blocks[b]);
    rc, block := vol.BlockFromEntry(b);
    var right := if left + |data| > block.dataLen then 0 else block.dataLen - left - |data|;
    LengthsHold(left, |data|, right);
    var len := (left + |data| + right) % WORD16;
    var src := vol.index.blocks[b];
    BlockIdFits(vol.index, b);
    var h := Header(NFFS_BLOCK_MAGIC, b, (block.seqNum + 1) % 0x1_0000_0000, block.inode, block.prev, len, 0);
    rc, h := FillCrcOverwrite(vol, h, src, left, right, data, old_);
    if rc != Ok {
      return;
    }
    var area, off;
    rc, area, off := ReserveSpace(vol, scratch, NFFS_DISK_BLOCK_SIZE + len);
    if rc != Ok {
      return;
    }
    RoomToWrite(d0, area, NFFS_DISK_BLOCK_SIZE + len);
    rc := WritePieces(vol, area, off, h, src, left, right, data, old_);
    ViewExtends(d0, vol.disk, vol.index);
    SpareAfter(d0, vol.disk, vol.index, b, area, scratch);
    ExtendsDisjoint(d0, vol.disk, vol.index);
    if rc != Ok {
      return;
    }
    ghost var ix := vol.index;
    l := Loc(area, off);
    if left + |data| + right != len {
      WrittenHeader(d0, area, off, h, Splice(old_, left, data));
      vol.index := vol.index.(blocks := vol.index.blocks[b := Loc(area, off)]);
      MislabelledNow(vol.disk, vol.index, b, left + |data| + right);
      return ErrLost, l;
    }
    WrittenBlock(d0, area, off, h, Splice(old_, left, data));
    ViewStore(vol.disk, vol.index, b, l);
    LabelIs(vol.disk, l);
    LabelsExtend(d0, vol.disk, vol.index);
    LabelsStore(vol.disk, vol.index, b, l);
    IdsUpdate(vol.index, b, l);
    vol.index := vol.index.(blocks := vol.index.blocks[b := Loc(area, off)]);
    PlacedBlock(d0, ix, vol.disk, vol.index, b, area, scratch, h, Splice(old_, left, data));
  }

  /** The scratch area is as it was, wherever in area `area` block `b` now is. */
  lemma SpareAfter(d: Disk, d': Disk, ix: Index, b: Id, area: nat, scratch: nat)
    requires Spare(d, ix, scratch) && Extends(d, d') && OnlyArea(d, d', area) && area != scratch
    ensures Spare(d', ix, scratch) && forall off: nat :: Spare(d', ix.(blocks := ix.blocks[b := Loc(area, off)]),
            scratch)
  {
    hide Extends;
    SpareKept(d, d', ix, ix, scratch);
    forall off: nat
      ensures Spare(d', ix.(blocks := ix.blocks[b := Loc(area, off)]), scratch)
    {
      SpareKept(d, d', ix, ix.(blocks := ix.blocks[b := Loc(area, off)]), scratch);
    }
  }

  lemma ExtendsDisjoint(d: Disk, d': Disk, ix: Index)
    requires Disjoint(d, ix) && Extends(d, d')
    ensures Disjoint(d', ix)
  {
    hide Extends, Apart, Live, BlockAt;
    ViewExtends(d, d', ix);
    BlocksGone(d, ix, d', ix);
  }

  /** The block written at the end of area `area` does not overlap any other. */
  lemma PlacedBlock(d: Disk, ix: Index, d': Disk, ix': Index, b: Id, area: nat, scratch: nat, h: Header,
      data: seq<byte>)
    requires Disjoint(d, ix) && Extends(d, d') && AllLive(d', ix') && Spare(d, ix, scratch) && area < |d.areas| &&
             area != scratch
    requires ix' == ix.(blocks := ix.blocks[b := Loc(area, d.areas[area].cur)])
    requires Fits(h) && CanWrite(d, area, d.areas[area].cur, |BlockBytes(h, data)|)
    requires d' == WriteBytes(d, area, d.areas[area].cur, BlockBytes(h, data))
    requires b in ViewOf(d', ix') && ViewOf(d', ix') == ViewOf(d, ix)[b := ViewOf(d', ix')[b]] &&
             ViewOf(d', ix')[b].data == data
    ensures Disjoint(d', ix')
  {
    hide Extends, AllLive, ViewOf, Disjoint, Encode, AreaUnused;
    assert HeadedArea(d.areas[area], d.areas[scratch]);
    BlockPlaced(d, ix, d', ix', b, area);
  }

  lemma MislabelledNow(d: Disk, ix: Index, b: Id, n: nat)
    requires b in ix.blocks && InArea(d, ix.blocks[b].area, ix.blocks[b].off, NFFS_DISK_BLOCK_SIZE)
    requires HeaderAt(d, ix.blocks[b]).dataLen == n % WORD16 && n % WORD16 != n
    ensures Mislabelled(d, ix, b, n)
  {
    hide HeaderAt;
  }

  /** The header is found where it was written, whatever its length field says. */
  lemma WrittenHeader(d: Disk, a: nat, off: nat, h: Header, data: seq<byte>)
    requires Fits(h) && CanWrite(d, a, off, |BlockBytes(h, data)|)
    ensures
      var d' := WriteBytes(d, a, off, BlockBytes(h, data));
      InArea(d', a, off, NFFS_DISK_BLOCK_SIZE) && HeaderAt(d', Loc(a, off)) == h
  {
    hide Decode, Encode;
    var d' := WriteBytes(d, a, off, BlockBytes(h, data));
    DecodeEncode(h);
    assert ReadBytes(d', a, off, NFFS_DISK_BLOCK_SIZE) == Encode(h);
  }

  lemma BlockIdFits(ix: Index, b: Id)
    requires BlockIds(ix) && b in ix.blocks
    ensures b < 0x1_0000_0000
  {
  }

  lemma IdsUpdate(ix: Index, b: Id, l: Loc)
    requires BlockIds(ix) && (b < NFFS_ID_NONE || b in ix.blocks)
    ensures BlockIds(ix.(blocks := ix.blocks[b := l]))
  {
  }

  lemma RoomToWrite(d: Disk, area: nat, space: nat)
    requires area < |d.areas| && HasRoom(d, area, space)
    ensures CanWrite(d, area, d.areas[area].cur, space)
  {
  }
}
