/** The CCITT CRC: a table-driven loop over bytes, proved to be the remainder of
    long division by x^16 + x^12 + x^5 + 1 (ITU-T V.41) over GF(2). */
module Crc16 {
  import opened Bytes

  // ------------------------------------------------ long division, bit by bit

  function Xor(x: bv16, y: bv16): bv16 {
    x ^ y
  }

  /** Multiply by x and reduce. */
  function Shift(r: bv16): bv16 {
    (r << 1) ^ Overflow(r)
  }

  function Overflow(r: bv16): bv16 {
    if r & 0x8000 != 0 then 0x1021 else 0
  }

  function Shifts(r: bv16, n: nat): bv16
    decreases n
  {
    if n == 0 then r else Shifts(Shift(r), n - 1)
  }

  /** One step of long division: bring down the next bit of the dividend. */
  function DivideBit(r: bv16, bit: bool): bv16 {
    Xor(Shift(r), if bit then 1 else 0)
  }

  function Divide(r: bv16, bits: seq<bool>): bv16
    decreases |bits|
  {
    if bits == [] then r else Divide(DivideBit(r, bits[0]), bits[1..])
  }

  function Zeros(n: nat): seq<bool> {
    seq(n, _ => false)
  }

  /** The remainder of the message times x^16, as V.41 defines the check bits. */
  function Remainder(bits: seq<bool>): bv16 {
    Divide(0, bits + Zeros(16))
  }

  /** Most significant bit first. */
  function ByteBits(b: byte): seq<bool> {
    TopBits(b as bv16, 8)
  }

  function TopBits(w: bv16, n: nat): seq<bool>
    decreases n
  {
    if n == 0 then [] else [w & 0x80 != 0] + TopBits((w << 1) & 0xff, n - 1)
  }

  function Bits(s: seq<byte>): seq<bool>
    decreases |s|
  {
    if s == [] then [] else ByteBits(s[0]) + Bits(s[1..])
  }

  // --------------------------------------------------------- the table and loop

  /** crc16tab, eight entries to a row. */
  const TABLE: seq<seq<bv16>> := [
    [0x0000, 0x1021, 0x2042, 0x3063, 0x4084, 0x50a5, 0x60c6, 0x70e7],
    [0x8108, 0x9129, 0xa14a, 0xb16b, 0xc18c, 0xd1ad, 0xe1ce, 0xf1ef],
    [0x1231, 0x0210, 0x3273, 0x2252, 0x52b5, 0x4294, 0x72f7, 0x62d6],
    [0x9339, 0x8318, 0xb37b, 0xa35a, 0xd3bd, 0xc39c, 0xf3ff, 0xe3de],
    [0x2462, 0x3443, 0x0420, 0x1401, 0x64e6, 0x74c7, 0x44a4, 0x5485],
    [0xa56a, 0xb54b, 0x8528, 0x9509, 0xe5ee, 0xf5cf, 0xc5ac, 0xd58d],
    [0x3653, 0x2672, 0x1611, 0x0630, 0x76d7, 0x66f6, 0x5695, 0x46b4],
    [0xb75b, 0xa77a, 0x9719, 0x8738, 0xf7df, 0xe7fe, 0xd79d, 0xc7bc],
    [0x48c4, 0x58e5, 0x6886, 0x78a7, 0x0840, 0x1861, 0x2802, 0x3823],
    [0xc9cc, 0xd9ed, 0xe98e, 0xf9af, 0x8948, 0x9969, 0xa90a, 0xb92b],
    [0x5af5, 0x4ad4, 0x7ab7, 0x6a96, 0x1a71, 0x0a50, 0x3a33, 0x2a12],
    [0xdbfd, 0xcbdc, 0xfbbf, 0xeb9e, 0x9b79, 0x8b58, 0xbb3b, 0xab1a],
    [0x6ca6, 0x7c87, 0x4ce4, 0x5cc5, 0x2c22, 0x3c03, 0x0c60, 0x1c41],
    [0xedae, 0xfd8f, 0xcdec, 0xddcd, 0xad2a, 0xbd0b, 0x8d68, 0x9d49],
    [0x7e97, 0x6eb6, 0x5ed5, 0x4ef4, 0x3e13, 0x2e32, 0x1e51, 0x0e70],
    [0xff9f, 0xefbe, 0xdfdd, 0xcffc, 0xbf1b, 0xaf3a, 0x9f59, 0x8f78],
    [0x9188, 0x81a9, 0xb1ca, 0xa1eb, 0xd10c, 0xc12d, 0xf14e, 0xe16f],
    [0x1080, 0x00a1, 0x30c2, 0x20e3, 0x5004, 0x4025, 0x7046, 0x6067],
    [0x83b9, 0x9398, 0xa3fb, 0xb3da, 0xc33d, 0xd31c, 0xe37f, 0xf35e],
    [0x02b1, 0x1290, 0x22f3, 0x32d2, 0x4235, 0x5214, 0x6277, 0x7256],
    [0xb5ea, 0xa5cb, 0x95a8, 0x8589, 0xf56e, 0xe54f, 0xd52c, 0xc50d],
    [0x34e2, 0x24c3, 0x14a0, 0x0481, 0x7466, 0x6447, 0x5424, 0x4405],
    [0xa7db, 0xb7fa, 0x8799, 0x97b8, 0xe75f, 0xf77e, 0xc71d, 0xd73c],
    [0x26d3, 0x36f2, 0x0691, 0x16b0, 0x6657, 0x7676, 0x4615, 0x5634],
    [0xd94c, 0xc96d, 0xf90e, 0xe92f, 0x99c8, 0x89e9, 0xb98a, 0xa9ab],
    [0x5844, 0x4865, 0x7806, 0x6827, 0x18c0, 0x08e1, 0x3882, 0x28a3],
    [0xcb7d, 0xdb5c, 0xeb3f, 0xfb1e, 0x8bf9, 0x9bd8, 0xabbb, 0xbb9a],
    [0x4a75, 0x5a54, 0x6a37, 0x7a16, 0x0af1, 0x1ad0, 0x2ab3, 0x3a92],
    [0xfd2e, 0xed0f, 0xdd6c, 0xcd4d, 0xbdaa, 0xad8b, 0x9de8, 0x8dc9],
    [0x7c26, 0x6c07, 0x5c64, 0x4c45, 0x3ca2, 0x2c83, 0x1ce0, 0x0cc1],
    [0xef1f, 0xff3e, 0xcf5d, 0xdf7c, 0xaf9b, 0xbfba, 0x8fd9, 0x9ff8],
    [0x6e17, 0x7e36, 0x4e55, 0x5e74, 0x2e93, 0x3eb2, 0x0ed1, 0x1ef0]
  ]

  lemma TableEntry(i: bv16)
    requires i < 256
    ensures |TABLE| == 32 && |TABLE[(i >> 3) as int]| == 8
    ensures TABLE[(i >> 3) as int][(i & 7) as int] == Shift(Shift(Shift(Shift(Shift(Shift(Shift(Shift(i << 8))))))))
  {
  }

  function Lookup(i: bv16): bv16
    requires i < 256
  {
    TableEntry(i);
    TABLE[(i >> 3) as int][(i & 7) as int]
  }

  function Step(crc: bv16, b: byte): bv16 {
    Xor(crc << 8, Lookup(Xor(crc >> 8, b as bv16) & 0xff))
  }

  /** The value crc16_ccitt computes. */
  function Crc(initial: bv16, data: seq<byte>): bv16
    decreases |data|
  {
    if data == [] then initial else Crc(Step(initial, data[0]), data[1..])
  }

  method Crc16Ccitt(initial: bv16, buf: seq<byte>) returns (crc: bv16)
    ensures crc == Crc(initial, buf)
    ensures initial == 0 ==> crc == Remainder(Bits(buf))
  {
    hide Step, Remainder, Bits;
    crc := initial;
    for counter := 0 to |buf|
      invariant Crc(crc, buf[counter..]) == Crc(initial, buf)
    {
      assert buf[counter..][1..] == buf[counter + 1..];
      crc := Step(crc, buf[counter]);
    }
    assert buf[|buf|..] == [];
    CrcIsRemainder(buf);
  }

  lemma {:induction false} CrcAppend(initial: bv16, a: seq<byte>, b: seq<byte>)
    ensures Crc(initial, a + b) == Crc(Crc(initial, a), b)
    decreases |a|
  {
    if a == [] {
      assert a + b == b;
    } else {
      assert (a + b)[1..] == a[1..] + b;
      CrcAppend(Step(initial, a[0]), a[1..], b);
    }
  }

  // ------------------------------------------------------- proof of agreement

  lemma XorLeft(x: bv16, y: bv16)
    ensures (x ^ y) << 1 == (x << 1) ^ (y << 1)
  {
  }

  lemma XorTop(x: bv16, y: bv16)
    ensures (x ^ y) & 0x8000 == (x & 0x8000) ^ (y & 0x8000)
    ensures x & 0x8000 == 0 || x & 0x8000 == 0x8000
  {
  }

  lemma XorOverflow(x: bv16, y: bv16)
    ensures Overflow(x ^ y) == Overflow(x) ^ Overflow(y)
  {
    XorTop(x, y);
    XorTop(y, x);
  }

  lemma XorMiddle(a: bv16, b: bv16, c: bv16, d: bv16)
    ensures (a ^ b) ^ (c ^ d) == (a ^ c) ^ (b ^ d)
  {
  }

  lemma XorSwap(x: bv16, y: bv16)
    ensures Xor(x, y) == Xor(y, x)
  {
  }

  lemma XorPlain(a: bv16)
    ensures a ^ 0 == a
  {
  }

  lemma XorZero(a: bv16)
    ensures Xor(a, 0) == a
  {
  }

  /** Shifting is linear over GF(2). */
  lemma ShiftXorPlain(x: bv16, y: bv16)
    ensures Shift(x ^ y) == Shift(x) ^ Shift(y)
  {
    hide Overflow;
    XorLeft(x, y);
    XorOverflow(x, y);
    XorMiddle(x << 1, y << 1, Overflow(x), Overflow(y));
  }

  lemma ShiftXor(x: bv16, y: bv16)
    ensures Shift(Xor(x, y)) == Xor(Shift(x), Shift(y))
  {
    hide Shift;
    ShiftXorPlain(x, y);
  }

  lemma {:induction false} ShiftsXor(x: bv16, y: bv16, n: nat)
    ensures Shifts(Xor(x, y), n) == Xor(Shifts(x, n), Shifts(y, n))
    decreases n
  {
    hide Shift, Xor;
    if n > 0 {
      ShiftXor(x, y);
      ShiftsXor(Shift(x), Shift(y), n - 1);
    }
  }

  lemma {:induction false} ShiftsShift(x: bv16, n: nat)
    ensures Shifts(Shift(x), n) == Shift(Shifts(x, n))
    decreases n
  {
    if n > 0 {
      ShiftsShift(Shift(x), n - 1);
    }
  }

  /** One step of the register that needs no trailing zeros: the bit enters at
      the top. */
  function EnterBit(r: bv16, bit: bool): bv16 {
    Shift(Xor(r, if bit then 0x8000 else 0))
  }

  function Enter(r: bv16, bits: seq<bool>): bv16
    decreases |bits|
  {
    if bits == [] then r else Enter(EnterBit(r, bits[0]), bits[1..])
  }

  lemma {:induction false} EnterAppend(r: bv16, a: seq<bool>, b: seq<bool>)
    ensures Enter(r, a + b) == Enter(Enter(r, a), b)
    decreases |a|
  {
    if a == [] {
      assert a + b == b;
    } else {
      assert (a + b)[1..] == a[1..] + b;
      EnterAppend(EnterBit(r, a[0]), a[1..], b);
    }
  }

  lemma {:induction false} DivideZeros(r: bv16, n: nat)
    ensures Divide(r, Zeros(n)) == Shifts(r, n)
    decreases n
  {
    hide Shift, Xor;
    if n > 0 {
      assert Zeros(n)[1..] == Zeros(n - 1);
      XorZero(Shift(r));
      DivideZeros(Shift(r), n - 1);
    }
  }

  lemma {:induction false} DivideAppend(r: bv16, a: seq<bool>, b: seq<bool>)
    ensures Divide(r, a + b) == Divide(Divide(r, a), b)
    decreases |a|
  {
    if a == [] {
      assert a + b == b;
    } else {
      assert (a + b)[1..] == a[1..] + b;
      DivideAppend(DivideBit(r, a[0]), a[1..], b);
    }
  }

  lemma ShiftLow(u: bv16)
    requires u & 0x8000 == 0
    ensures Shift(u) == u << 1
  {
    XorPlain(u << 1);
  }

  lemma LowWord(w: bv16)
    requires w < 256
    ensures w & 0x8000 == (w << 1) & 0x8000 == (w << 2) & 0x8000 == (w << 3) & 0x8000 == 0
    ensures (w << 4) & 0x8000 == (w << 5) & 0x8000 == (w << 6) & 0x8000 == (w << 7) & 0x8000 == 0
    ensures (w << 1) << 1 == w << 2 && (w << 2) << 1 == w << 3 && (w << 3) << 1 == w << 4 && (w << 4) << 1 == w << 5
    ensures (w << 5) << 1 == w << 6 && (w << 6) << 1 == w << 7 && (w << 7) << 1 == w << 8
  {
  }

  lemma ShiftsEight(r: bv16)
    ensures Shifts(r, 8) == Shift(Shift(Shift(Shift(Shift(Shift(Shift(Shift(r))))))))
  {
    hide Shift;
    var r1 := Shift(r); var r2 := Shift(r1); var r3 := Shift(r2); var r4 := Shift(r3);
    var r5 := Shift(r4); var r6 := Shift(r5); var r7 := Shift(r6);
    assert Shifts(r, 8) == Shifts(r1, 7) == Shifts(r2, 6) == Shifts(r3, 5) == Shifts(r4, 4);
    assert Shifts(r4, 4) == Shifts(r5, 3) == Shifts(r6, 2) == Shifts(r7, 1) == Shifts(Shift(r7), 0);
  }

  /** Eight shifts of a value below 256 never reduce. */
  lemma ShiftsLow(w: bv16)
    requires w < 256
    ensures Shifts(w, 8) == w << 8
  {
    hide Shift;
    LowWord(w);
    ShiftsEight(w);
    ShiftLow(w);
    ShiftLow(w << 1);
    ShiftLow(w << 2);
    ShiftLow(w << 3);
    ShiftLow(w << 4);
    ShiftLow(w << 5);
    ShiftLow(w << 6);
    ShiftLow(w << 7);
  }

  lemma {:induction false} ShiftsAdd(r: bv16, m: nat, n: nat)
    ensures Shifts(r, m + n) == Shifts(Shifts(r, m), n)
    decreases m
  {
    if m > 0 {
      ShiftsAdd(Shift(r), m - 1, n);
    }
  }

  lemma ShiftsOne()
    ensures Shifts(1, 16) == Shift(0x8000)
  {
    ShiftsAdd(1, 8, 8);
    ShiftsLow(1);
    ShiftsEight(0x100);
  }

  /** Multiplying by x^16 turns long division into the entering register. */
  lemma EnterDivideBit(r: bv16, bit: bool)
    ensures Shifts(DivideBit(r, bit), 16) == EnterBit(Shifts(r, 16), bit)
  {
    hide Shift, Xor;
    var low: bv16 := if bit then 1 else 0;
    var high: bv16 := if bit then 0x8000 else 0;
    ShiftsXor(Shift(r), low, 16);
    ShiftsShift(r, 16);
    ShiftXor(Shifts(r, 16), high);
    ShiftsOne();
    ShiftsZero(16);
    ShiftsZero(1);
  }

  lemma {:induction false} ShiftsZero(n: nat)
    ensures Shifts(0, n) == 0
  {
    if n > 0 {
      ShiftLow(0);
      ShiftsZero(n - 1);
    }
  }

  lemma {:induction false} EnterDivide(r: bv16, bits: seq<bool>)
    ensures Enter(Shifts(r, 16), bits) == Shifts(Divide(r, bits), 16)
    decreases |bits|
  {
    if bits != [] {
      EnterDivideBit(r, bits[0]);
      EnterDivide(DivideBit(r, bits[0]), bits[1..]);
    }
  }

  lemma RemainderEnter(bits: seq<bool>)
    ensures Remainder(bits) == Enter(0, bits)
  {
    DivideAppend(0, bits, Zeros(16));
    DivideZeros(Divide(0, bits), 16);
    EnterDivide(0, bits);
    ShiftsZero(16);
  }

  // ---------------------------------- a table step is eight entering steps

  lemma TopSplitPlain(t: bv16)
    requires t < 256
    ensures t << 8 == ((t & 0x80) << 8) ^ ((t & 0x7f) << 8)
  {
  }

  lemma TopSplit(t: bv16)
    requires t < 256
    ensures t << 8 == Xor((t & 0x80) << 8, (t & 0x7f) << 8)
  {
    TopSplitPlain(t);
  }

  lemma TopHigh(t: bv16)
    requires t < 256
    ensures (t & 0x80) << 8 == if t & 0x80 != 0 then 0x8000 else 0
  {
  }

  lemma TopRest(t: bv16)
    requires t < 256
    ensures ((t & 0x7f) << 8) & 0x8000 == 0
    ensures ((t & 0x7f) << 8) << 1 == ((t << 1) & 0xff) << 8
    ensures (t << 1) & 0xff < 256
  {
  }

  lemma XorAssoc(a: bv16, b: bv16, c: bv16)
    ensures Xor(a, Xor(b, c)) == Xor(Xor(a, b), c)
  {
  }

  lemma TopBitParts(r: bv16, t: bv16)
    requires t < 256
    ensures Xor(r, t << 8) == Xor(Xor(r, if t & 0x80 != 0 then 0x8000 else 0), (t & 0x7f) << 8)
  {
    hide Xor;
    TopSplit(t);
    TopHigh(t);
    XorAssoc(r, (t & 0x80) << 8, (t & 0x7f) << 8);
  }

  lemma EnterTop(r: bv16, t: bv16)
    requires t < 256
    ensures Shift(Xor(r, t << 8)) == Xor(EnterBit(r, t & 0x80 != 0), ((t << 1) & 0xff) << 8)
  {
    hide Shift, Xor;
    TopBitParts(r, t);
    TopRest(t);
    ShiftXor(Xor(r, if t & 0x80 != 0 then 0x8000 else 0), (t & 0x7f) << 8);
    ShiftLow((t & 0x7f) << 8);
  }

  function Drop(t: bv16, n: nat): bv16
    decreases n
  {
    if n == 0 then t else Drop((t << 1) & 0xff, n - 1)
  }

  lemma {:induction false} EnterTops(r: bv16, t: bv16, n: nat)
    requires t < 256
    ensures Shifts(Xor(r, t << 8), n) == Xor(Enter(r, TopBits(t, n)), Drop(t, n) << 8)
    decreases n
  {
    hide Shift, Xor, EnterBit;
    if n > 0 {
      var t' := (t << 1) & 0xff;
      TopRest(t);
      EnterTop(r, t);
      assert TopBits(t, n)[1..] == TopBits(t', n - 1);
      EnterTops(EnterBit(r, t & 0x80 != 0), t', n - 1);
    }
  }

  lemma DropAll(t: bv16)
    requires t < 256
    ensures Drop(t, 8) == 0
  {
    var t1 := (t << 1) & 0xff; var t2 := (t1 << 1) & 0xff; var t3 := (t2 << 1) & 0xff; var t4 := (t3 << 1) & 0xff;
    var t5 := (t4 << 1) & 0xff; var t6 := (t5 << 1) & 0xff; var t7 := (t6 << 1) & 0xff; var t8 := (t7 << 1) & 0xff;
    assert Drop(t, 8) == Drop(t1, 7) == Drop(t2, 6) == Drop(t3, 5) == Drop(t4, 4);
    assert Drop(t4, 4) == Drop(t5, 3) == Drop(t6, 2) == Drop(t7, 1) == Drop(t8, 0);
    EightOut(t);
  }

  lemma EightOut(t: bv16)
    requires t < 256
    ensures (((((((((((((((t << 1) & 0xff) << 1) & 0xff) << 1) & 0xff) << 1) & 0xff) << 1) & 0xff) << 1) & 0xff) << 1) & 0xff) << 1) & 0xff == 0
  {
  }

  lemma Halves(crc: bv16, w: bv16)
    requires w < 256
    ensures crc ^ (w << 8) == ((((crc >> 8) ^ w) & 0xff) << 8) ^ (crc & 0xff)
  {
  }

  lemma HalvesXor(crc: bv16, w: bv16)
    requires w < 256
    ensures Xor(crc, w << 8) == Xor((Xor(crc >> 8, w) & 0xff) << 8, crc & 0xff)
  {
    Halves(crc, w);
  }

  lemma Masks(crc: bv16, x: bv16)
    ensures (crc & 0xff) << 8 == crc << 8 && crc & 0xff < 256
    ensures x & 0xff < 256
  {
  }

  /** A table step, on a 16-bit word. */
  lemma WordStep(crc: bv16, w: bv16, i: bv16)
    requires w < 256 && i < 256 && i == Xor(crc >> 8, w) & 0xff
    ensures Xor(crc << 8, Lookup(i)) == Shifts(Xor(crc, w << 8), 8)
  {
    hide Shift, Lookup, Shifts, Xor;
    HalvesXor(crc, w);
    Masks(crc, 0);
    ShiftsXor(i << 8, crc & 0xff, 8);
    ShiftsLow(crc & 0xff);
    LookupShifts(i);
    XorSwap(crc << 8, Lookup(i));
  }

  lemma StepEnters(crc: bv16, b: byte)
    ensures Step(crc, b) == Enter(crc, ByteBits(b))
  {
    hide Shift, Lookup, Xor, TopBits, Shifts, Enter, Drop;
    var w := b as bv16;
    Masks(0, Xor(crc >> 8, w));
    WordStep(crc, w, Xor(crc >> 8, w) & 0xff);
    EnterTops(crc, w, 8);
    DropAll(w);
    XorZero(Enter(crc, TopBits(w, 8)));
    assert (0 as bv16) << 8 == 0;
  }

  lemma LookupShifts(i: bv16)
    requires i < 256
    ensures Lookup(i) == Shifts(i << 8, 8)
  {
    hide Shift;
    TableEntry(i);
    ShiftsEight(i << 8);
  }

  lemma {:induction false} CrcEnter(initial: bv16, data: seq<byte>)
    ensures Crc(initial, data) == Enter(initial, Bits(data))
    decreases |data|
  {
    hide Step, EnterBit, ByteBits;
    if data != [] {
      StepEnters(initial, data[0]);
      CrcEnter(Step(initial, data[0]), data[1..]);
      EnterAppend(initial, ByteBits(data[0]), Bits(data[1..]));
    }
  }

  /** The table-driven CRC, started at 0, is the remainder of the message. */
  lemma CrcIsRemainder(data: seq<byte>)
    ensures Crc(0, data) == Remainder(Bits(data))
  {
    CrcEnter(0, data);
    RemainderEnter(Bits(data));
  }

  // ------------------------------------------------ what the CRC detects

  /** Divide by x. */
  function Unshift(r: bv16): bv16 {
    if r & 1 == 0 then r >> 1 else ((r ^ 0x1021) >> 1) | 0x8000
  }

  lemma LowBit(x: bv16)
    ensures (x << 1) & 1 == 0 && ((x << 1) ^ 0x1021) & 1 == 1 && (x << 1) ^ 0 == x << 1
  {
  }

  lemma TwiceXor(x: bv16)
    ensures (x ^ 0x1021) ^ 0x1021 == x
  {
  }

  lemma BackDown(x: bv16)
    ensures x & 0x8000 == 0 ==> (x << 1) >> 1 == x
    ensures x & 0x8000 != 0 ==> ((x << 1) >> 1) | 0x8000 == x
  {
  }

  lemma UnshiftShift(x: bv16)
    ensures Unshift(Shift(x)) == x
  {
    LowBit(x);
    TwiceXor(x << 1);
    BackDown(x);
  }

  lemma ShiftInjective(x: bv16, y: bv16)
    requires Shift(x) == Shift(y)
    ensures x == y
  {
    hide Shift, Unshift;
    UnshiftShift(x);
    UnshiftShift(y);
  }

  lemma {:induction false} ShiftsInjective(x: bv16, y: bv16, n: nat)
    requires Shifts(x, n) == Shifts(y, n)
    ensures x == y
    decreases n
  {
    hide Shift;
    if n > 0 {
      ShiftsInjective(Shift(x), Shift(y), n - 1);
      ShiftInjective(x, y);
    }
  }

  lemma EnterBitInjective(x: bv16, y: bv16, bit: bool)
    requires EnterBit(x, bit) == EnterBit(y, bit)
    ensures x == y
  {
    hide Shift, Xor;
    var top: bv16 := if bit then 0x8000 else 0;
    ShiftInjective(Xor(x, top), Xor(y, top));
    SwapXor(x, top);
    SwapXor(y, top);
    CancelXor(top, x, y);
  }

  lemma SwapXor(a: bv16, b: bv16)
    ensures Xor(a, b) == Xor(b, a)
  {
  }

  lemma {:induction false} EnterInjective(x: bv16, y: bv16, bits: seq<bool>)
    requires Enter(x, bits) == Enter(y, bits)
    ensures x == y
    decreases |bits|
  {
    hide EnterBit;
    if bits != [] {
      EnterInjective(EnterBit(x, bits[0]), EnterBit(y, bits[0]), bits[1..]);
      EnterBitInjective(x, y, bits[0]);
    }
  }

  lemma CancelXor(a: bv16, b: bv16, c: bv16)
    requires Xor(a, b) == Xor(a, c)
    ensures b == c
  {
  }

  lemma SameIndex(crc: bv16, x: bv16, y: bv16)
    requires x < 256 && y < 256 && Xor(crc >> 8, x) & 0xff == Xor(crc >> 8, y) & 0xff
    ensures x == y
  {
  }

  lemma HighInjective(i: bv16, j: bv16)
    requires i < 256 && j < 256 && i << 8 == j << 8
    ensures i == j
  {
  }

  lemma WordDetected(crc: bv16, i: bv16, j: bv16)
    requires i < 256 && j < 256 && Xor(crc << 8, Lookup(i)) == Xor(crc << 8, Lookup(j))
    ensures i == j
  {
    hide Lookup, Shifts, Xor, Shift;
    CancelXor(crc << 8, Lookup(i), Lookup(j));
    LookupShifts(i);
    LookupShifts(j);
    ShiftsInjective(i << 8, j << 8, 8);
    HighInjective(i, j);
  }

  lemma ByteWord(x: byte)
    ensures (x as bv16) as int == x && x as bv16 < 256
  {
  }

  /** Two bytes never leave the same CRC behind. */
  lemma ByteDetected(crc: bv16, x: byte, y: byte)
    requires x != y
    ensures Step(crc, x) != Step(crc, y)
  {
    hide Lookup, Xor;
    var v, w := x as bv16, y as bv16;
    ByteWord(x);
    ByteWord(y);
    Masks(0, Xor(crc >> 8, v));
    Masks(0, Xor(crc >> 8, w));
    if Step(crc, x) == Step(crc, y) {
      WordDetected(crc, Xor(crc >> 8, v) & 0xff, Xor(crc >> 8, w) & 0xff);
      SameIndex(crc, v, w);
    }
  }

  /** Messages that differ in a single byte have different CRCs. */
  lemma CrcDetects(initial: bv16, a: seq<byte>, x: byte, y: byte, b: seq<byte>)
    requires x != y
    ensures Crc(initial, a + [x] + b) != Crc(initial, a + [y] + b)
  {
    hide Step, Enter;
    var crc := Crc(initial, a);
    CrcAppend(initial, a + [x], b);
    CrcAppend(initial, a + [y], b);
    CrcAppend(initial, a, [x]);
    CrcAppend(initial, a, [y]);
    assert [x][1..] == [] && [y][1..] == [];
    ByteDetected(crc, x, y);
    CrcEnter(Step(crc, x), b);
    CrcEnter(Step(crc, y), b);
    if Crc(Step(crc, x), b) == Crc(Step(crc, y), b) {
      EnterInjective(Step(crc, x), Step(crc, y), Bits(b));
    }
  }
}
