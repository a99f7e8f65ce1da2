/** Data blocks on flash: the on-disk format, append-only areas, and what the
    RAM index sees through them. */
module NffsDisk {
  import opened Bytes
  import opened NffsChain
  import Crc16

  const NFFS_BLOCK_MAGIC := 0x53ba_23b9
  const NFFS_DISK_BLOCK_SIZE := 24
  const NFFS_DISK_AREA_SIZE := 24
  const NFFS_DISK_BLOCK_OFFSET_CRC := 20
  /** The most data a block can hold when its whole length is kept in 16 bits. */
  const MAX_BLOCK_DATA := 0xffff - NFFS_DISK_BLOCK_SIZE

  // ------------------------------------------------------------ block header

  datatype Header = Header(magic: int, id: Id, seqNum: int, inodeId: Id, prevId: Id, dataLen: int, crc16: int)

  predicate Fits(h: Header) {
    && 0 <= h.magic < 0x1_0000_0000 && h.id < 0x1_0000_0000 && 0 <= h.seqNum < 0x1_0000_0000
    && h.inodeId < 0x1_0000_0000 && h.prevId < 0x1_0000_0000
    && 0 <= h.dataLen < 0x1_0000 && 0 <= h.crc16 < 0x1_0000
  }

  /** Little endian. */
  function Put32(x: int): (s: seq<byte>)
    requires 0 <= x < 0x1_0000_0000
    ensures |s| == 4
  {
    [x % 256, x / 256 % 256, x / 65536 % 256, x / 16777216 % 256]
  }

  function Put16(x: int): (s: seq<byte>)
    requires 0 <= x < 0x1_0000
    ensures |s| == 2
  {
    [x % 256, x / 256 % 256]
  }

  function Get32(s: seq<byte>, i: nat): (x: int)
    requires i + 4 <= |s|
    ensures 0 <= x < 0x1_0000_0000
  {
    (s[i] as int) + 256 * (s[i + 1] as int) + 65536 * (s[i + 2] as int) + 16777216 * (s[i + 3] as int)
  }

  function Get16(s: seq<byte>, i: nat): (x: int)
    requires i + 2 <= |s|
    ensures 0 <= x < 0x1_0000
  {
    (s[i] as int) + 256 * (s[i + 1] as int)
  }

  /** The part of the header the CRC covers. */
  function EncodePrefix(h: Header): (s: seq<byte>)
    requires Fits(h)
    ensures |s| == NFFS_DISK_BLOCK_OFFSET_CRC
  {
    Put32(h.magic) + Put32(h.id) + Put32(h.seqNum) + Put32(h.inodeId) + Put32(h.prevId)
  }

  function Encode(h: Header): (s: seq<byte>)
    requires Fits(h)
    ensures |s| == NFFS_DISK_BLOCK_SIZE
  {
    EncodePrefix(h) + (Put16(h.dataLen) + Put16(h.crc16))
  }

  function Decode(s: seq<byte>): (h: Header)
    requires |s| == NFFS_DISK_BLOCK_SIZE
    ensures Fits(h)
  {
    Header(Get32(s, 0), Get32(s, 4), Get32(s, 8), Get32(s, 12), Get32(s, 16), Get16(s, 20), Get16(s, 22))
  }

  lemma Put32Get32(x: int, a: seq<byte>, b: seq<byte>)
    requires 0 <= x < 0x1_0000_0000
    ensures Get32(a + Put32(x) + b, |a|) == x
  {
    Digits(x);
    Shifted(a, Put32(x), b);
  }

  lemma Digits(x: int)
    requires 0 <= x < 0x1_0000_0000
    ensures x == x % 256 + 256 * (x / 256 % 256) + 65536 * (x / 65536 % 256) + 16777216 * (x / 16777216 % 256)
  {
  }

  lemma Shifted(a: seq<byte>, w: seq<byte>, b: seq<byte>)
    requires |w| == 4
    ensures Get32(a + w + b, |a|) == Get32(w, 0)
  {
    assert forall k :: 0 <= k < 4 ==> (a + w + b)[|a| + k] == w[k];
  }

  lemma Put16Get16(x: int, a: seq<byte>, b: seq<byte>)
    requires 0 <= x < 0x1_0000
    ensures Get16(a + Put16(x) + b, |a|) == x
  {
    var s := a + Put16(x) + b;
    assert s[|a|] == x % 256 && s[|a| + 1] == x / 256 % 256;
  }

  /** A header written to flash reads back unchanged. */
  lemma DecodeEncode(h: Header)
    requires Fits(h)
    ensures Decode(Encode(h)) == h
  {
    var s := Encode(h);
    var m, i, q, n, p, l, c := Put32(h.magic), Put32(h.id), Put32(h.seqNum), Put32(h.inodeId), Put32(h.prevId),
        Put16(h.dataLen), Put16(h.crc16);
    hide Put32, Put16, Get32, Get16;
    Put32Get32(h.magic, [], i + q + n + p + l + c);
    assert s == [] + m + (i + q + n + p + l + c);
    Put32Get32(h.id, m, q + n + p + l + c);
    assert s == m + i + (q + n + p + l + c);
    Put32Get32(h.seqNum, m + i, n + p + l + c);
    assert s == m + i + q + (n + p + l + c);
    Put32Get32(h.inodeId, m + i + q, p + l + c);
    assert s == m + i + q + n + (p + l + c);
    Put32Get32(h.prevId, m + i + q + n, l + c);
    assert s == m + i + q + n + p + (l + c);
    Put16Get16(h.dataLen, m + i + q + n + p, c);
    assert s == m + i + q + n + p + l + c;
    Put16Get16(h.crc16, m + i + q + n + p + l, []);
    assert s == m + i + q + n + p + l + c + [];
  }

  // ------------------------------------------------------------------ areas

  /** An area: its contents and the offset up to which it has been written. */
  datatype Area = Area(data: seq<byte>, cur: nat)

  datatype Disk = Disk(areas: seq<Area>)

  datatype Loc = Loc(area: nat, off: nat)

  ghost predicate DiskOk(d: Disk) {
    forall a :: 0 <= a < |d.areas| ==> d.areas[a].cur <= |d.areas[a].data|
  }

  predicate InArea(d: Disk, a: nat, off: nat, len: nat) {
    a < |d.areas| && off + len <= |d.areas[a].data|
  }

  function ReadBytes(d: Disk, a: nat, off: nat, len: nat): (s: seq<byte>)
    requires InArea(d, a, off, len)
    ensures |s| == len
  {
    d.areas[a].data[off..off + len]
  }

  /** Writing is only possible at or beyond the end of what is written. */
  predicate CanWrite(d: Disk, a: nat, off: nat, len: nat) {
    InArea(d, a, off, len) && d.areas[a].cur <= off
  }

  function WriteBytes(d: Disk, a: nat, off: nat, s: seq<byte>): (d': Disk)
    requires CanWrite(d, a, off, |s|)
    ensures |d'.areas| == |d.areas| && d'.areas[a].cur == off + |s|
    ensures |d'.areas[a].data| == |d.areas[a].data|
  {
    var data := d.areas[a].data;
    Disk(d.areas[a := Area(data[..off] + s + data[off + |s|..], off + |s|)])
  }

  /** `d'` only adds to what `d` has written. */
  ghost predicate Extends(d: Disk, d': Disk) {
    && |d'.areas| == |d.areas|
    && forall a :: 0 <= a < |d.areas| ==> AreaExtends(d.areas[a], d'.areas[a])
  }

  ghost predicate AreaExtends(x: Area, y: Area) {
    |y.data| == |x.data| && x.cur <= y.cur <= |x.data| && y.data[..x.cur] == x.data[..x.cur]
  }

  lemma WriteExtends(d: Disk, a: nat, off: nat, s: seq<byte>)
    requires DiskOk(d) && CanWrite(d, a, off, |s|)
    ensures DiskOk(WriteBytes(d, a, off, s)) && Extends(d, WriteBytes(d, a, off, s))
  {
    var d' := WriteBytes(d, a, off, s);
    var x := d.areas[a];
    assert d'.areas[a].data[..x.cur] == x.data[..x.cur];
  }

  lemma ExtendsSelf(d: Disk)
    requires DiskOk(d)
    ensures Extends(d, d)
  {
  }

  lemma ExtendsTrans(d: Disk, d': Disk, d'': Disk)
    requires Extends(d, d') && Extends(d', d'')
    ensures Extends(d, d'')
  {
    forall a | 0 <= a < |d.areas|
      ensures AreaExtends(d.areas[a], d''.areas[a])
    {
      var x, y, z := d.areas[a], d'.areas[a], d''.areas[a];
      assert AreaExtends(x, y) && AreaExtends(y, z);
      assert z.data[..x.cur] == z.data[..y.cur][..x.cur];
      assert y.data[..x.cur] == y.data[..y.cur][..x.cur];
    }
  }

  /** Two writes in a row are one. */
  lemma WriteJoin(d: Disk, a: nat, off: nat, s: seq<byte>, t: seq<byte>)
    requires CanWrite(d, a, off, |s| + |t|)
    ensures CanWrite(d, a, off, |s + t|) && CanWrite(d, a, off, |s|)
    ensures CanWrite(WriteBytes(d, a, off, s), a, off + |s|, |t|)
    ensures WriteBytes(WriteBytes(d, a, off, s), a, off + |s|, t) == WriteBytes(d, a, off, s + t)
  {
    var d1 := WriteBytes(d, a, off, s);
    var d2 := WriteBytes(d1, a, off + |s|, t);
    assert d2.areas[a].data == WriteBytes(d, a, off, s + t).areas[a].data;
    assert d2.areas == WriteBytes(d, a, off, s + t).areas;
  }

  lemma ReadPart(d: Disk, a: nat, off: nat, len: nat, i: nat, n: nat)
    requires InArea(d, a, off, len) && i + n <= len
    ensures InArea(d, a, off + i, n) && ReadBytes(d, a, off + i, n) == ReadBytes(d, a, off, len)[i..i + n]
  {
  }

  /** `d` is `d0` with the first `done` bytes of `raw` written. */
  ghost predicate PartWritten(d0: Disk, d: Disk, a: nat, off: nat, raw: seq<byte>, done: nat)
    requires CanWrite(d0, a, off, |raw|) && done <= |raw|
  {
    if done == 0 then d == d0 else d == WriteBytes(d0, a, off, raw[..done])
  }

  lemma WriteNext(d0: Disk, d: Disk, a: nat, off: nat, raw: seq<byte>, done: nat, n: nat)
    requires DiskOk(d0) && CanWrite(d0, a, off, |raw|) && done + n <= |raw| && n > 0
    requires PartWritten(d0, d, a, off, raw, done)
    ensures CanWrite(d, a, off + done, n)
    ensures PartWritten(d0, WriteBytes(d, a, off + done, raw[done..done + n]), a, off, raw, done + n)
  {
    assert raw[..done] + raw[done..done + n] == raw[..done + n];
    if done > 0 {
      WriteJoin(d0, a, off, raw[..done], raw[done..done + n]);
    }
  }

  lemma ReadExtends(d: Disk, d': Disk, a: nat, off: nat, len: nat)
    requires Extends(d, d') && a < |d.areas| && off + len <= d.areas[a].cur
    ensures InArea(d, a, off, len) && InArea(d', a, off, len)
    ensures ReadBytes(d', a, off, len) == ReadBytes(d, a, off, len)
  {
    var x, y := d.areas[a], d'.areas[a];
    assert AreaExtends(x, y);
    SliceOfPrefix(x.data, x.cur, off, off + len);
    SliceOfPrefix(y.data, x.cur, off, off + len);
  }

  lemma SliceOfPrefix(s: seq<byte>, c: nat, i: nat, j: nat)
    requires i <= j <= c <= |s|
    ensures s[..c][i..j] == s[i..j]
  {
  }

  // ---------------------------------------------------------- blocks on disk

  function CrcOf(h: Header, data: seq<byte>): (c: int)
    requires Fits(h)
    ensures 0 <= c < 0x1_0000
  {
    Crc16.Crc(Crc16.Crc(0, EncodePrefix(h)), data) as int
  }

  /** The bytes that the checksum of a block covers. */
  function Covered(h: Header, data: seq<byte>): seq<byte>
    requires Fits(h)
  {
    EncodePrefix(h) + data
  }

  /** The checksum is the remainder of dividing what it covers by x^16+x^12+x^5+1. */
  lemma ChecksumIs(h: Header, data: seq<byte>)
    requires Fits(h)
    ensures CrcOf(h, data) == Crc16.Remainder(Crc16.Bits(Covered(h, data))) as int
  {
    hide Crc16.Crc, EncodePrefix, Crc16.Remainder, Crc16.Bits;
    Crc16.CrcAppend(0, EncodePrefix(h), data);
    Crc16.CrcIsRemainder(Covered(h, data));
  }

  /** The number that bytes spell, least significant first. */
  function Little(s: seq<byte>): nat
    decreases |s|
  {
    if s == [] then 0 else s[0] + 256 * Little(s[1..])
  }

  lemma LittleFour(s: seq<byte>)
    requires |s| == 4
    ensures Little(s) == s[0] + 256 * (s[1] + 256 * (s[2] + 256 * s[3] as int))
  {
    var a, b, c := s[1..], s[2..], s[3..];
    assert a[1..] == b && b[1..] == c && c[1..] == [];
    assert Little(c) == s[3];
    assert Little(b) == s[2] + 256 * Little(c);
    assert Little(a) == s[1] + 256 * Little(b);
  }

  lemma LittlePut(x: int)
    ensures 0 <= x < 0x1_0000_0000 ==> Little(Put32(x)) == x
    ensures 0 <= x < 0x1_0000 ==> Little(Put16(x)) == x
  {
    if 0 <= x < 0x1_0000_0000 {
      LittleFour(Put32(x));
    }
    if 0 <= x < 0x1_0000 {
      var s := Put16(x);
      assert s[1..] == [s[1]] && s[1..][1..] == [];
      assert Little(s[1..]) == s[1];
    }
  }

  /** Where on flash the fields of a block header are. */
  lemma HeaderLayout(h: Header)
    requires Fits(h)
    ensures
      var s := Encode(h);
      && Little(s[0..4]) == h.magic && Little(s[4..8]) == h.id && Little(s[8..12]) == h.seqNum
      && Little(s[12..16]) == h.inodeId && Little(s[16..20]) == h.prevId
      && Little(s[20..22]) == h.dataLen && Little(s[22..24]) == h.crc16
  {
    hide Put32, Put16, Little;
    LittlePut(h.magic);
    LittlePut(h.id);
    LittlePut(h.seqNum);
    LittlePut(h.inodeId);
    LittlePut(h.prevId);
    LittlePut(h.dataLen);
    LittlePut(h.crc16);
    var s := Encode(h);
    assert s[0..4] == Put32(h.magic) && s[4..8] == Put32(h.id) && s[8..12] == Put32(h.seqNum);
    assert s[12..16] == Put32(h.inodeId) && s[16..20] == Put32(h.prevId);
    assert s[20..22] == Put16(h.dataLen) && s[22..24] == Put16(h.crc16);
  }

  /** Blocks that differ in a single covered byte, of the header or of the data, have different checksums. */
  lemma ChecksumDetects(h: Header, data: seq<byte>, h': Header, data': seq<byte>, i: nat)
    requires Fits(h) && Fits(h') && i < |Covered(h, data)| && |data'| == |data|
    requires Covered(h, data)[i] != Covered(h', data')[i]
    requires Covered(h', data') == Covered(h, data)[i := Covered(h', data')[i]]
    ensures CrcOf(h, data) != CrcOf(h', data')
  {
    hide Crc16.Crc, EncodePrefix;
    var c, c' := Covered(h, data), Covered(h', data');
    Crc16.CrcAppend(0, EncodePrefix(h), data);
    Crc16.CrcAppend(0, EncodePrefix(h'), data');
    assert c == c[..i] + [c[i]] + c[i + 1..];
    assert c' == c[..i] + [c'[i]] + c[i + 1..];
    Crc16.CrcDetects(0, c[..i], c[i], c'[i], c[i + 1..]);
    WordsDiffer(Crc16.Crc(0, c), Crc16.Crc(0, c'));
  }

  lemma WordsDiffer(x: bv16, y: bv16)
    requires x != y
    ensures x as int != y as int
  {
    assert (x as int) as bv16 == x && (y as int) as bv16 == y;
  }

  ghost function HeaderAt(d: Disk, l: Loc): Header
    requires InArea(d, l.area, l.off, NFFS_DISK_BLOCK_SIZE)
  {
    Decode(ReadBytes(d, l.area, l.off, NFFS_DISK_BLOCK_SIZE))
  }

  ghost predicate HasData(d: Disk, l: Loc) {
    && l.area < |d.areas|
    && l.off + NFFS_DISK_BLOCK_SIZE <= d.areas[l.area].cur <= |d.areas[l.area].data|
    && 0 < HeaderAt(d, l).dataLen <= MAX_BLOCK_DATA
    && l.off + NFFS_DISK_BLOCK_SIZE + HeaderAt(d, l).dataLen <= d.areas[l.area].cur
  }

  ghost function DataAt(d: Disk, l: Loc): (s: seq<byte>)
    requires HasData(d, l)
    ensures |s| == HeaderAt(d, l).dataLen
  {
    ReadBytes(d, l.area, l.off + NFFS_DISK_BLOCK_SIZE, HeaderAt(d, l).dataLen)
  }

  /** A whole block, written, with the right magic number and checksum. */
  ghost predicate Live(d: Disk, l: Loc) {
    && HasData(d, l)
    && HeaderAt(d, l).magic == NFFS_BLOCK_MAGIC
    && HeaderAt(d, l).crc16 == CrcOf(HeaderAt(d, l), DataAt(d, l))
  }

  ghost function BlockAt(d: Disk, l: Loc): Block
    requires Live(d, l)
  {
    Block(HeaderAt(d, l).inodeId, HeaderAt(d, l).prevId, DataAt(d, l))
  }

  lemma LiveExtends(d: Disk, d': Disk, l: Loc)
    requires Live(d, l) && Extends(d, d')
    ensures Live(d', l) && BlockAt(d', l) == BlockAt(d, l) && HeaderAt(d', l) == HeaderAt(d, l)
  {
    hide Decode, CrcOf;
    assert AreaExtends(d.areas[l.area], d'.areas[l.area]);
    ReadExtends(d, d', l.area, l.off, NFFS_DISK_BLOCK_SIZE);
    ReadExtends(d, d', l.area, l.off + NFFS_DISK_BLOCK_SIZE, HeaderAt(d, l).dataLen);
  }

  /** The bytes of a block. */
  ghost function BlockBytes(h: Header, data: seq<byte>): seq<byte>
    requires Fits(h)
  {
    Encode(h) + data
  }

  lemma WrittenBlock(d: Disk, a: nat, off: nat, h: Header, data: seq<byte>)
    requires DiskOk(d) && Fits(h) && |data| == h.dataLen && 0 < |data| <= MAX_BLOCK_DATA
    requires h.magic == NFFS_BLOCK_MAGIC && h.crc16 == CrcOf(h, data)
    requires CanWrite(d, a, off, NFFS_DISK_BLOCK_SIZE + |data|)
    ensures
      var d' := WriteBytes(d, a, off, BlockBytes(h, data));
      Live(d', Loc(a, off)) && BlockAt(d', Loc(a, off)) == Block(h.inodeId, h.prevId, data) &&
          HeaderAt(d', Loc(a, off)) == h
  {
    hide Decode, Encode, CrcOf;
    var d' := WriteBytes(d, a, off, BlockBytes(h, data));
    DecodeEncode(h);
    assert ReadBytes(d', a, off, NFFS_DISK_BLOCK_SIZE) == Encode(h);
    assert HeaderAt(d', Loc(a, off)) == h;
    assert ReadBytes(d', a, off + NFFS_DISK_BLOCK_SIZE, |data|) == data;
  }

  /** The raw bytes of a live block, copied elsewhere, are the same block. */
  lemma CopiedBlock(d: Disk, l: Loc, a: nat, off: nat)
    requires DiskOk(d) && Live(d, l)
    requires CanWrite(d, a, off, NFFS_DISK_BLOCK_SIZE + HeaderAt(d, l).dataLen)
    ensures
      var raw := ReadBytes(d, l.area, l.off, NFFS_DISK_BLOCK_SIZE + HeaderAt(d, l).dataLen);
      var d' := WriteBytes(d, a, off, raw);
      Live(d', Loc(a, off)) && BlockAt(d', Loc(a, off)) == BlockAt(d, l) && HeaderAt(d', Loc(a, off)) == HeaderAt(d, l)
  {
    hide Decode, CrcOf;
    var n := HeaderAt(d, l).dataLen;
    var raw := ReadBytes(d, l.area, l.off, NFFS_DISK_BLOCK_SIZE + n);
    var d' := WriteBytes(d, a, off, raw);
    assert ReadBytes(d', a, off, NFFS_DISK_BLOCK_SIZE) == ReadBytes(d, l.area, l.off, NFFS_DISK_BLOCK_SIZE);
    assert HeaderAt(d', Loc(a, off)) == HeaderAt(d, l);
    assert ReadBytes(d', a, off + NFFS_DISK_BLOCK_SIZE, n) == DataAt(d, l);
  }

  // ------------------------------------------------------------ packed locations

  /** nffs_flash_loc: area in the upper byte, offset in the rest. */
  function FlashLoc(l: Loc): nat
    requires l.area < 0x100 && l.off <= 0x00ff_ffff
  {
    l.area * 0x100_0000 + l.off
  }

  /** nffs_flash_loc_expand */
  function FlashLocExpand(flashLoc: nat): Loc {
    Loc(flashLoc / 0x100_0000, flashLoc % 0x100_0000)
  }

  /** A packed location expands to the one it was made from, and fits 32 bits. */
  /** Packed locations are in the order of areas and, within an area, of offsets. */
  lemma FlashLocOrder(l: Loc, m: Loc)
    requires l.area < 0x100 && l.off <= 0x00ff_ffff && m.area < 0x100 && m.off <= 0x00ff_ffff
    ensures FlashLoc(l) < FlashLoc(m) <==> l.area < m.area || (l.area == m.area && l.off < m.off)
  {
  }

  lemma FlashLocRoundTrip(l: Loc)
    requires l.area < 0x100 && l.off <= 0x00ff_ffff
    ensures FlashLoc(l) < 0x1_0000_0000 && FlashLocExpand(FlashLoc(l)) == l
  {
  }
}
