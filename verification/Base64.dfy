/** Base64 encoding and decoding. */
module Base64 {
  import opened Common
  import opened Bytes

  const DECODE_ERROR := 0xffff_ffff

  const UPPER := "ABCDEFGHIJKLMNOPQRSTUVWXYZ"
  const LOWER := "abcdefghijklmnopqrstuvwxyz"
  const DIGITS := "0123456789"
  /** base64_chars */
  const CHARS := UPPER + LOWER + DIGITS + "+/"

  // ------------------------------------------------------------ the alphabet

  /** The alphabet of table 1 in section 4 of RFC 4648. */
  function CharOf(i: nat): char
    requires i < 64
  {
    if i < 26 then 'A' + i as char
    else if i < 52 then 'a' + (i - 26) as char
    else if i < 62 then '0' + (i - 52) as char
    else if i == 62 then '+' else '/'
  }

  /** The place of a character in the alphabet, or -1. */
  function PosOf(c: char): int {
    if 'A' <= c <= 'Z' then c as int - 'A' as int
    else if 'a' <= c <= 'z' then c as int - 'a' as int + 26
    else if '0' <= c <= '9' then c as int - '0' as int + 52
    else if c == '+' then 62 else if c == '/' then 63 else -1
  }

  lemma PosOfChar(i: nat)
    requires i < 64
    ensures PosOf(CharOf(i)) == i && CharOf(i) != '='
  {
  }

  lemma CharOfPos(c: char)
    requires PosOf(c) >= 0
    ensures PosOf(c) < 64 && CharOf(PosOf(c)) == c
  {
  }

  lemma UpperTable(i: nat)
    requires i < 26
    ensures |UPPER| == 26 && UPPER[i] == 'A' + i as char
  {
    var s := UPPER;
    assert s[0] == 'A' && s[1] == 'B' && s[2] == 'C' && s[3] == 'D' && s[4] == 'E' && s[5] == 'F' && s[6] == 'G';
    assert s[7] == 'H' && s[8] == 'I' && s[9] == 'J' && s[10] == 'K' && s[11] == 'L' && s[12] == 'M' && s[13] == 'N';
    assert s[14] == 'O' && s[15] == 'P' && s[16] == 'Q' && s[17] == 'R' && s[18] == 'S' && s[19] == 'T' && s[20] == 'U';
    assert s[21] == 'V' && s[22] == 'W' && s[23] == 'X' && s[24] == 'Y' && s[25] == 'Z';
  }

  lemma LowerTable(i: nat)
    requires i < 26
    ensures |LOWER| == 26 && LOWER[i] == 'a' + i as char
  {
    var s := LOWER;
    assert s[0] == 'a' && s[1] == 'b' && s[2] == 'c' && s[3] == 'd' && s[4] == 'e' && s[5] == 'f' && s[6] == 'g';
    assert s[7] == 'h' && s[8] == 'i' && s[9] == 'j' && s[10] == 'k' && s[11] == 'l' && s[12] == 'm' && s[13] == 'n';
    assert s[14] == 'o' && s[15] == 'p' && s[16] == 'q' && s[17] == 'r' && s[18] == 's' && s[19] == 't' && s[20] == 'u';
    assert s[21] == 'v' && s[22] == 'w' && s[23] == 'x' && s[24] == 'y' && s[25] == 'z';
  }

  /** The table in the program is the alphabet. */
  lemma Table(i: nat)
    requires i < 64
    ensures |CHARS| == 64 && CHARS[i] == CharOf(i)
  {
    UpperTable(if i < 26 then i else 0);
    LowerTable(if 26 <= i < 52 then i - 26 else 0);
    DigitTable(if 52 <= i < 62 then i - 52 else 0);
  }

  lemma DigitTable(i: nat)
    requires i < 10
    ensures |DIGITS| == 10 && DIGITS[i] == '0' + i as char
  {
    var s := DIGITS;
    assert s[0] == '0' && s[1] == '1' && s[2] == '2' && s[3] == '3' && s[4] == '4' && s[5] == '5' && s[6] == '6' &&
        s[7] == '7' && s[8] == '8' && s[9] == '9';
  }

  /** pos */
  method Pos(c: char) returns (r: int)
    ensures r == PosOf(c)
  {
    hide CharOf;
    Table(0);
    var i := 0;
    while i < |CHARS|
      invariant 0 <= i <= 64 && (PosOf(c) < 0 || i <= PosOf(c))
    {
      Table(i);
      PosOfChar(i);
      if CHARS[i] == c {
        return i;
      }
      if PosOf(c) == i {
        CharOfPos(c);
      }
      i := i + 1;
    }
    if PosOf(c) >= 0 {
      CharOfPos(c);
    }
    return -1;
  }

  // ------------------------------------------------------------ encoding

  function Group(x: byte, y: byte, z: byte): (c: nat)
    ensures c < 0x100_0000
  {
    (x as int) * 65536 + (y as int) * 256 + (z as int)
  }

  /** The four characters for three bytes. */
  function Quad(x: byte, y: byte, z: byte): (s: string)
    ensures |s| == 4
  {
    var c := Group(x, y, z);
    [CharOf(c / 262144 % 64), CharOf(c / 4096 % 64), CharOf(c / 64 % 64), CharOf(c % 64)]
  }

  /** Section 4 of RFC 4648: groups of three bytes; one or two bytes at the end are filled up with
      zero bits and the unused characters are padding. */
  function Enc(d: seq<byte>, pad: bool): string
    decreases |d|
  {
    if d == [] then ""
    else if |d| == 1 then Quad(d[0], 0, 0)[..2] + (if pad then "==" else "")
    else if |d| == 2 then Quad(d[0], d[1], 0)[..3] + (if pad then "=" else "")
    else Quad(d[0], d[1], d[2]) + Enc(d[3..], pad)
  }

  // ------------------------------------------------------------ what an encoding means

  /** The number that the bytes behind `n` spell, most significant first. */
  function Number(n: nat, d: seq<byte>): nat
    decreases |d|
  {
    if d == [] then n else Number(n * 256 + d[0], d[1..])
  }

  /** The number that the characters behind `n` spell, six bits each. */
  function Spelled(n: nat, s: string): nat
    decreases |s|
  {
    if s == [] then n else Spelled(n * 64 + (if PosOf(s[0]) < 0 then 0 else PosOf(s[0])), s[1..])
  }

  lemma QuadSpells(n: nat, x: byte, y: byte, z: byte, s: string)
    ensures Spelled(n, Quad(x, y, z) + s) == Spelled(n * 0x100_0000 + Group(x, y, z), s)
  {
    hide CharOf, PosOf, Spelled, Group;
    var c := Group(x, y, z);
    FourSpell(n, c / 262144 % 64, c / 4096 % 64, c / 64 % 64, c % 64, s);
    Digits(c);
  }

  lemma FourSpell(n: nat, a: nat, b: nat, e: nat, f: nat, s: string)
    requires a < 64 && b < 64 && e < 64 && f < 64
    ensures Spelled(n, [CharOf(a), CharOf(b), CharOf(e), CharOf(f)] + s) ==
            Spelled(n * 0x100_0000 + ((a * 64 + b) * 64 + e) * 64 + f, s)
  {
    hide CharOf, PosOf, Spelled;
    SpellsNext(n, a, [CharOf(b), CharOf(e), CharOf(f)] + s);
    SpellsNext(n * 64 + a, b, [CharOf(e), CharOf(f)] + s);
    SpellsNext((n * 64 + a) * 64 + b, e, [CharOf(f)] + s);
    SpellsNext(((n * 64 + a) * 64 + b) * 64 + e, f, s);
    assert [CharOf(a), CharOf(b), CharOf(e), CharOf(f)] + s == [CharOf(a)] + ([CharOf(b), CharOf(e), CharOf(f)] + s);
    assert [CharOf(b), CharOf(e), CharOf(f)] + s == [CharOf(b)] + ([CharOf(e), CharOf(f)] + s);
    assert [CharOf(e), CharOf(f)] + s == [CharOf(e)] + ([CharOf(f)] + s);
  }

  lemma SpellsNext(n: nat, a: nat, s: string)
    requires a < 64
    ensures Spelled(n, [CharOf(a)] + s) == Spelled(n * 64 + a, s)
  {
    PosOfChar(a);
    assert ([CharOf(a)] + s)[1..] == s;
  }

  lemma Digits(c: nat)
    requires c < 0x100_0000
    ensures ((c / 262144 % 64 * 64 + c / 4096 % 64) * 64 + c / 64 % 64) * 64 + c % 64 == c
  {
  }

  /** How far the number is shifted: the last group may have bits to spare. */
  function Spare(n: nat): nat {
    if n % 3 == 0 then 1 else if n % 3 == 1 then 16 else 4
  }

  /** An unpadded encoding spells the number that the bytes spell, followed by zero bits up to a multiple of
      six, with no more characters than that takes. */
  lemma {:induction false} EncSpells(n: nat, d: seq<byte>)
    ensures Spelled(n, Enc(d, false)) == Number(n, d) * Spare(|d|)
    ensures 6 * |Enc(d, false)| - 8 * |d| == (if |d| % 3 == 0 then 0 else if |d| % 3 == 1 then 4 else 2)
    decreases |d|
  {
    hide Quad;
    if |d| >= 3 {
      QuadSpells(n, d[0], d[1], d[2], Enc(d[3..], false));
      NumberThree(n, d);
      EncSpells(n * 0x100_0000 + Group(d[0], d[1], d[2]), d[3..]);
    } else {
      EncEnd(n, d);
    }
  }

  lemma NumberThree(n: nat, d: seq<byte>)
    requires |d| >= 3
    ensures Number(n, d) == Number(n * 0x100_0000 + Group(d[0], d[1], d[2]), d[3..])
  {
    assert d[1..][1..] == d[2..] && d[2..][1..] == d[3..];
    assert Number(n, d) == Number(n * 256 + d[0], d[1..]);
    assert Number(n * 256 + d[0], d[1..]) == Number((n * 256 + d[0]) * 256 + d[1], d[2..]);
    assert ((n * 256 + d[0]) * 256 + d[1]) * 256 + d[2] == n * 0x100_0000 + Group(d[0], d[1], d[2]);
  }

  lemma EncEnd(n: nat, d: seq<byte>)
    requires |d| < 3
    ensures Spelled(n, Enc(d, false)) == Number(n, d) * Spare(|d|)
  {
    if |d| == 1 {
      EncOne(n, d);
    } else if |d| == 2 {
      EncTwo(n, d);
    }
  }

  lemma EncOne(n: nat, d: seq<byte>)
    requires |d| == 1
    ensures Spelled(n, Enc(d, false)) == Number(n, d) * 16
  {
    hide CharOf, PosOf;
    var c := Group(d[0], 0, 0);
    var a, b := c / 262144 % 64, c / 4096 % 64;
    assert d[1..] == [];
    assert Enc(d, false) == [CharOf(a)] + ([CharOf(b)] + "");
    SpellsNext(n, a, [CharOf(b)] + "");
    SpellsNext(n * 64 + a, b, "");
    assert a * 64 + b == d[0] as int * 16;
  }

  lemma EncTwo(n: nat, d: seq<byte>)
    requires |d| == 2
    ensures Spelled(n, Enc(d, false)) == Number(n, d) * 4
  {
    hide CharOf, PosOf, Spelled, Number, Group;
    var c := Group(d[0], d[1], 0);
    var a, b, e := c / 262144 % 64, c / 4096 % 64, c / 64 % 64;
    assert Enc(d, false) == [CharOf(a)] + ([CharOf(b)] + ([CharOf(e)] + ""));
    SpellsNext(n, a, [CharOf(b)] + ([CharOf(e)] + ""));
    SpellsNext(n * 64 + a, b, [CharOf(e)] + "");
    SpellsNext((n * 64 + a) * 64 + b, e, "");
    NothingSpelled(((n * 64 + a) * 64 + b) * 64 + e);
    NumberTwo(n, d);
    TwoBytes(d[0], d[1]);
  }

  lemma NothingSpelled(n: nat)
    ensures Spelled(n, "") == n
  {
  }

  lemma NumberTwo(n: nat, d: seq<byte>)
    requires |d| == 2
    ensures Number(n, d) == (n * 256 + d[0]) * 256 + d[1]
  {
    assert d[1..] == [d[1]] && d[1..][1..] == [];
    assert Number(n * 256 + d[0], d[1..]) == Number((n * 256 + d[0]) * 256 + d[1], []);
  }

  lemma TwoBytes(x: byte, y: byte)
    ensures
      var c := Group(x, y, 0);
      (c / 262144 % 64 * 64 + c / 4096 % 64) * 64 + c / 64 % 64 == (x * 256 + y) * 4
  {
    Digits(Group(x, y, 0));
  }

  /** All groups, filled up with zeros. */
  function Filled(d: seq<byte>): (s: string)
    ensures d != [] ==> |s| >= 4
    decreases |d|
  {
    if d == [] then ""
    else Quad(d[0], if |d| > 1 then d[1] else 0, if |d| > 2 then d[2] else 0) + (if |d| > 3 then Filled(d[3..]) else "")
  }

  /** How many characters of the last group carry nothing. */
  function Unused(n: nat): nat {
    if n % 3 == 0 then 0 else 3 - n % 3
  }

  function Equals(n: nat): (s: string)
    ensures |s| == n
  {
    seq(n, _ => '=')
  }

  lemma {:induction false} EncFilled(d: seq<byte>, pad: bool)
    ensures Unused(|d|) <= |Filled(d)|
    ensures Enc(d, pad) == Filled(d)[..|Filled(d)| - Unused(|d|)] + if pad then Equals(Unused(|d|)) else ""
    decreases |d|
  {
    hide Quad;
    if |d| > 3 {
      EncFilled(d[3..], pad);
      var q, f := Quad(d[0], d[1], d[2]), Filled(d[3..]);
      assert Unused(|d[3..]|) == Unused(|d|);
      assert (q + f)[..4 + |f| - Unused(|d|)] == q + f[..|f| - Unused(|d|)];
    } else if |d| == 3 {
      assert d[3..] == [];
      assert Equals(0) == "";
    } else if |d| == 2 {
      assert Equals(1) == "=";
    } else if |d| == 1 {
      assert Equals(2) == "==";
    } else {
      assert Equals(0) == "";
    }
  }

  lemma FilledNext(d: seq<byte>, i: nat)
    requires i < |d|
    ensures
      var q := Quad(d[i], if i + 1 < |d| then d[i + 1] else 0, if i + 2 < |d| then d[i + 2] else 0);
      Filled(d[i..]) == q + (if i + 3 < |d| then Filled(d[i + 3..]) else "")
  {
    hide Quad;
    assert |d[i..]| > 3 ==> d[i..][3..] == d[i + 3..];
  }

  /** The four table lookups of base64_encode. */
  method EncodeGroup(c: nat, ghost x: byte, ghost y: byte, ghost z: byte) returns (s: string)
    requires c == Group(x, y, z)
    ensures s == Quad(x, y, z)
  {
    hide CharOf;
    Table(c / 262144 % 64);
    Table(c / 4096 % 64);
    Table(c / 64 % 64);
    Table(c % 64);
    return [CHARS[c / 262144 % 64], CHARS[c / 4096 % 64], CHARS[c / 64 % 64], CHARS[c % 64]];
  }

  /** base64_encode */
  method Encode(data: seq<byte>, shouldPad: bool) returns (s: string)
    ensures s == Enc(data, shouldPad)
  {
    hide Filled, Enc, Quad;
    var size, i := |data|, 0;
    s := "";
    EncFilled(data, shouldPad);
    assert data[0..] == data;
    FilledEmpty();
    while i < size
      invariant 0 <= i && i % 3 == 0 && i < size + 3
      invariant s + (if i < size then Filled(data[i..]) else "") == Filled(data)
    {
      FilledNext(data, i);
      var c := data[i] as int;
      i := i + 1;
      c := c * 256;
      if i < size {
        c := c + data[i] as int;
      }
      i := i + 1;
      c := c * 256;
      if i < size {
        c := c + data[i] as int;
      }
      i := i + 1;
      var q := EncodeGroup(c, data[i - 3], if i - 2 < size then data[i - 2] else 0, if i - 1 < size then data[i - 1]
          else 0);
      s := s + q;
    }
    var diff := i - size;
    assert diff == Unused(size);
    if diff > 0 {
      s := s[..|s| - diff] + if shouldPad then Equals(diff) else "";
    } else {
      assert s[..|s|] == s && Equals(0) == "";
    }
  }

  lemma FilledEmpty()
    ensures Filled([]) == ""
  {
  }

  /** base64_pad: what to add to `len` characters. */
  method Pad(len: nat) returns (s: string)
    ensures s == Equals((4 - len % 4) % 4)
  {
    var remainder := len % 4;
    if remainder == 0 {
      return "";
    }
    return Equals(4 - remainder);
  }

  // ------------------------------------------------------------ decoding

  /** marker << 24 | val, in 32 bits and for a marker of at most 2. */
  function WithMarker(marker: nat, val: nat): nat
    requires marker <= 2 && val < WORD32
  {
    var bit := if marker == 0 then 1 else marker;
    if marker == 0 || val / 0x100_0000 / bit % 2 == 1 then val else val + marker * 0x100_0000
  }

  /** token_decode from character `i` on, with unsigned 32 bit sums: an unknown character adds -1. */
  function Token(t: string, i: nat, val: nat, marker: nat): nat
    requires i <= 4 <= |t|
    decreases 4 - i
  {
    if i == 4 then if marker > 2 then DECODE_ERROR else InWord(val, 0); WithMarker(marker, Plus(val, 0))
    else if t[i] == '=' then Token(t, i + 1, Shift(val), marker + 1)
    else if marker > 0 then DECODE_ERROR
    else Token(t, i + 1, Plus(Shift(val), PosOf(t[i])), marker)
  }

  function Shift(val: nat): nat {
    val * 64 % WORD32
  }

  function Plus(val: nat, p: int): nat {
    (val + p) % WORD32
  }

  function TokenOf(t: string): nat {
    if |t| < 4 then DECODE_ERROR else Token(t, 0, 0, 0)
  }

  /** token_decode */
  method TokenDecode(t: string) returns (r: nat)
    ensures r == TokenOf(t)
  {
    hide PosOf, Shift, Plus, WithMarker;
    if |t| < 4 {
      return DECODE_ERROR;
    }
    var val: nat, marker: nat, i: nat := 0, 0, 0;
    while i < 4
      invariant i <= 4 && val < WORD32 && Token(t, i, val, marker) == TokenOf(t)
    {
      InWord(val, 0);
      val := Shift(val);
      if t[i] == '=' {
        marker := marker + 1;
      } else if marker > 0 {
        return DECODE_ERROR;
      } else {
        var p := Pos(t[i]);
        InWord(val, p);
        val := Plus(val, p);
      }
      i := i + 1;
    }
    if marker > 2 {
      return DECODE_ERROR;
    }
    InWord(val, 0);
    return WithMarker(marker, val);
  }

  lemma InWord(val: nat, p: int)
    ensures Shift(val) < WORD32 && Plus(val, p) < WORD32 && (val < WORD32 ==> Plus(val, 0) == val)
  {
  }

  function Byte(x: nat): byte {
    x % 256
  }

  /** The bytes a decoded token stands for. */
  function TokenBytes(val: nat): seq<byte> {
    var marker := val / 0x100_0000 % 256;
    [Byte(val / 65536)] + (if marker < 2 then [Byte(val / 256)] else []) + (if marker < 1 then [Byte(val)] else [])
  }

  predicate Starts(s: string) {
    s != [] && (s[0] == '=' || PosOf(s[0]) >= 0)
  }

  /** base64_decode, on the characters before the terminating zero. */
  function Dec(s: string): Option<seq<byte>>
    decreases |s|
  {
    if !Starts(s) then Some([])
    else if TokenOf(s) == DECODE_ERROR then None
    else
      match Dec(s[4..])
      case None => None
      case Some(rest) => Some(TokenBytes(TokenOf(s)) + rest)
  }

  /** Four characters of which at most the last two are equals signs. */
  predicate Padded(t: string) {
    |t| >= 4 && t[0] != '=' && t[1] != '=' && (t[2] == '=' ==> t[3] == '=')
  }

  predicate InAlphabet(s: string) {
    forall i :: 0 <= i < |s| ==> s[i] == '=' || PosOf(s[i]) >= 0
  }

  lemma Marked(t: string, i: nat, val: nat)
    requires 2 <= i <= 4 <= |t| && val < 0x100_0000 / (if i == 2 then 4096 else if i == 3 then 64 else 1)
    requires forall j :: i <= j < 4 ==> t[j] == '=' || 0 <= PosOf(t[j]) < 64
    ensures Token(t, i, val, 0) == DECODE_ERROR <==> i == 2 && t[2] == '=' && t[3] != '='
    decreases 4 - i
  {
    hide PosOf;
    if i == 4 {
      assert Plus(val, 0) == val;
    } else if t[i] == '=' {
      assert Shift(val) == val * 64;
      if i == 3 {
        assert Token(t, 4, val * 64, 1) == WithMarker(1, val * 64);
      } else if t[3] == '=' {
        assert Shift(val * 64) == val * 64 * 64;
        assert Token(t, 3, val * 64, 1) == Token(t, 4, val * 64 * 64, 2) == WithMarker(2, val * 64 * 64);
      }
    } else {
      assert Plus(Shift(val), PosOf(t[i])) == val * 64 + PosOf(t[i]);
      Marked(t, i + 1, val * 64 + PosOf(t[i]));
    }
  }

  lemma Bad(t: string, i: nat, val: nat, marker: nat)
    requires i <= 4 <= |t| && marker > 0 && marker + 4 - i > 2
    ensures Token(t, i, val, marker) == DECODE_ERROR
    decreases 4 - i
  {
    if i < 4 && t[i] == '=' {
      Bad(t, i + 1, Shift(val), marker + 1);
    }
  }

  lemma TokenPadded(t: string)
    requires |t| >= 4 && InAlphabet(t)
    ensures TokenOf(t) == DECODE_ERROR <==> !Padded(t)
  {
    hide PosOf, Shift, Plus;
    forall i | 0 <= i < 4
      ensures t[i] == '=' || 0 <= PosOf(t[i]) < 64
    {
      if t[i] != '=' {
        CharOfPos(t[i]);
      }
    }
    if t[0] == '=' {
      Bad(t, 1, Shift(0), 1);
    } else {
      FirstValue(PosOf(t[0]));
      var v := Plus(Shift(0), PosOf(t[0]));
      if t[1] == '=' {
        Bad(t, 2, Shift(v), 1);
      } else {
        SecondValue(v, PosOf(t[1]));
        Marked(t, 2, Plus(Shift(v), PosOf(t[1])));
      }
    }
  }

  lemma FirstValue(p: int)
    requires 0 <= p < 64
    ensures Plus(Shift(0), p) == p
  {
  }

  lemma SecondValue(v: nat, p: int)
    requires v < 64 && 0 <= p < 64
    ensures Plus(Shift(v), p) == v * 64 + p
  {
  }

  /** Every group of four characters is padded as it may be. */
  predicate AllPadded(s: string)
    decreases |s|
  {
    s == [] || (Padded(s) && AllPadded(s[4..]))
  }

  /** A string of the alphabet is decoded if and only if it is made of groups of four characters, at most the
      last two of a group being equals signs. */
  lemma {:induction false} DecodeAccepts(s: string)
    requires InAlphabet(s)
    ensures Dec(s).Some? <==> AllPadded(s)
    decreases |s|
  {
    hide TokenBytes, Token;
    if s != [] {
      assert Starts(s);
      if |s| >= 4 {
        TokenPadded(s);
        DecodeAccepts(s[4..]);
      }
    }
  }

  /** base64_decode */
  method Decode(s: string) returns (r: Option<seq<byte>>)
    ensures r == Dec(s)
  {
    hide PosOf, Token, TokenBytes, Byte;
    var q: seq<byte>, p := [], 0;
    assert s[0..] == s;
    AfterNothing(Dec(s));
    while p < |s| && (s[p] == '=' || PosOf(s[p]) >= 0)
      invariant 0 <= p <= |s|
      invariant Dec(s) == After(q, Dec(s[p..]))
    {
      var val := TokenDecode(s[p..]);
      if val == DECODE_ERROR {
        return None;
      }
      var marker := val / 0x100_0000 % 256;
      ghost var q0 := q;
      q := q + [Byte(val / 65536)];
      if marker < 2 {
        q := q + [Byte(val / 256)];
      }
      if marker < 1 {
        q := q + [Byte(val)];
      }
      BytesAre(val, q0, q);
      assert s[p..][4..] == s[p + 4..];
      DecStep(s[p..], q0, q);
      p := p + 4;
    }
    assert q + [] == q;
    return Some(q);
  }

  /** Bytes before those of a result. */
  function After(q: seq<byte>, o: Option<seq<byte>>): Option<seq<byte>> {
    match o
    case None => None
    case Some(rest) => Some(q + rest)
  }

  lemma AfterNothing(o: Option<seq<byte>>)
    ensures After([], o) == o
  {
    assert o.Some? ==> [] + o.value == o.value;
  }

  lemma BytesAre(val: nat, q0: seq<byte>, q: seq<byte>)
    requires
      var marker := val / 0x100_0000 % 256;
      q == q0 + [Byte(val / 65536)] + (if marker < 2 then [Byte(val / 256)] else []) +
          (if marker < 1 then [Byte(val)] else [])
    ensures q == q0 + TokenBytes(val)
  {
    hide Byte;
  }

  lemma DecStep(s: string, q0: seq<byte>, q: seq<byte>)
    requires Starts(s) && TokenOf(s) != DECODE_ERROR && q == q0 + TokenBytes(TokenOf(s))
    ensures |s| >= 4
    ensures After(q0, Dec(s)) == After(q, Dec(s[4..]))
  {
    hide Token, TokenBytes, PosOf;
    if Dec(s[4..]).Some? {
      assert q0 + (TokenBytes(TokenOf(s)) + Dec(s[4..]).value) == q + Dec(s[4..]).value;
    }
  }

  // ------------------------------------------------------------ round trips

  lemma DivTwice(c: nat)
    ensures c / 64 / 64 == c / 4096
  {
  }

  lemma DivThrice(c: nat)
    ensures c / 4096 / 64 == c / 262144
  {
  }

  lemma Digits64(c: nat)
    requires c < 0x100_0000
    ensures c == (((c / 262144 % 64) * 64 + c / 4096 % 64) * 64 + c / 64 % 64) * 64 + c % 64
  {
    DivTwice(c);
    DivThrice(c);
    var x, y, z := c / 64, c / 4096, c / 262144;
    assert z < 64 && z % 64 == z;
    assert y == z * 64 + y % 64;
    assert x == y * 64 + x % 64;
    assert c == x * 64 + c % 64;
  }

  lemma Div65536(q: nat, r: nat)
    requires r < 65536
    ensures (q * 65536 + r) / 65536 == q
  {
  }

  lemma Div256(q: nat, r: nat)
    requires r < 256
    ensures (q * 256 + r) / 256 == q && (q * 256 + r) % 256 == r
  {
  }

  lemma Div64(q: nat)
    ensures q * 64 / 64 == q && q * 64 % 64 == 0
  {
  }

  lemma GroupBytes(x: byte, y: byte, z: byte)
    ensures
      var c := Group(x, y, z);
      Byte(c / 65536) == x && Byte(c / 256) == y && Byte(c) == z && (z == 0 ==> c % 64 == 0) &&
          (z == 0 && y == 0 ==> c / 64 % 64 == 0)
  {
    var c, a, b, d := Group(x, y, z), x as int, y as int, z as int;
    Div65536(a, b * 256 + d);
    assert c == (a * 256 + b) * 256 + d;
    Div256(a * 256 + b, d);
    Div256(a, b);
    if d == 0 {
      Div64(a * 1024 + b * 4);
      assert c == (a * 1024 + b * 4) * 64;
      if b == 0 {
        Div64(a * 16);
        assert a * 1024 == a * 16 * 64;
      }
    }
  }

  lemma TokenChar(t: string, i: nat, val: nat, a: nat)
    requires i < 4 <= |t| && a < 64 && t[i] == CharOf(a) && val < 0x4_0000
    ensures Token(t, i, val, 0) == Token(t, i + 1, val * 64 + a, 0)
  {
    hide CharOf, PosOf;
    PosOfChar(a);
    NoWrap(val, a);
  }

  lemma NoWrap(val: nat, a: nat)
    requires val < 0x4_0000 && a < 64
    ensures Shift(val) == val * 64 && Plus(val * 64, a) == val * 64 + a
  {
  }

  lemma TokenPad(t: string, i: nat, val: nat, marker: nat)
    requires i < 4 <= |t| && t[i] == '=' && val < 0x4_0000
    ensures Token(t, i, val, marker) == Token(t, i + 1, val * 64, marker + 1)
  {
    hide PosOf;
    NoWrap(val, 0);
  }

  lemma TokenEnd(t: string, val: nat, marker: nat)
    requires 4 <= |t| && val < 0x100_0000 && marker <= 2
    ensures Token(t, 4, val, marker) == val + marker * 0x100_0000
  {
    hide PosOf;
    assert val / 0x100_0000 == 0;
  }

  /** Four characters that stand for 6 bit numbers. */
  lemma TokenFour(t: string, a: nat, b: nat, c: nat, d: nat)
    requires |t| >= 4 && a < 64 && b < 64 && c < 64 && d < 64
    requires t[0] == CharOf(a) && t[1] == CharOf(b) && t[2] == CharOf(c) && t[3] == CharOf(d)
    ensures TokenOf(t) == ((a * 64 + b) * 64 + c) * 64 + d && Starts(t)
  {
    hide CharOf, PosOf, Token;
    PosOfChar(a);
    TokenChar(t, 0, 0, a);
    TokenChar(t, 1, a, b);
    TokenChar(t, 2, a * 64 + b, c);
    TokenChar(t, 3, (a * 64 + b) * 64 + c, d);
    TokenEnd(t, ((a * 64 + b) * 64 + c) * 64 + d, 0);
  }

  lemma TokenThree(t: string, a: nat, b: nat, c: nat)
    requires |t| >= 4 && a < 64 && b < 64 && c < 64
    requires t[0] == CharOf(a) && t[1] == CharOf(b) && t[2] == CharOf(c) && t[3] == '='
    ensures TokenOf(t) == ((a * 64 + b) * 64 + c) * 64 + 0x100_0000 && Starts(t)
  {
    hide CharOf, PosOf, Token;
    PosOfChar(a);
    TokenChar(t, 0, 0, a);
    TokenChar(t, 1, a, b);
    TokenChar(t, 2, a * 64 + b, c);
    TokenPad(t, 3, (a * 64 + b) * 64 + c, 0);
    TokenEnd(t, ((a * 64 + b) * 64 + c) * 64, 1);
  }

  lemma TokenTwo(t: string, a: nat, b: nat)
    requires |t| >= 4 && a < 64 && b < 64
    requires t[0] == CharOf(a) && t[1] == CharOf(b) && t[2] == '=' && t[3] == '='
    ensures TokenOf(t) == (a * 64 + b) * 4096 + 0x200_0000 && Starts(t)
  {
    hide CharOf, PosOf, Token;
    PosOfChar(a);
    TokenChar(t, 0, 0, a);
    TokenChar(t, 1, a, b);
    TokenPad(t, 2, a * 64 + b, 0);
    TokenPad(t, 3, (a * 64 + b) * 64, 1);
    TokenEnd(t, (a * 64 + b) * 4096, 2);
  }

  lemma QuadToken(x: byte, y: byte, z: byte, rest: string)
    ensures
      var t := Quad(x, y, z) + rest;
      Starts(t) && TokenOf(t) == Group(x, y, z) && TokenBytes(TokenOf(t)) == [x, y, z]
  {
    hide Byte, Token, PosOf, Quad, TokenBytes, TokenOf, Starts;
    var c := Group(x, y, z);
    QuadChars(x, y, z, rest);
    TokenFour(Quad(x, y, z) + rest, c / 262144 % 64, c / 4096 % 64, c / 64 % 64, c % 64);
    Digits64(c);
    GroupBytes(x, y, z);
    PlainBytes(c);
  }

  lemma QuadChars(x: byte, y: byte, z: byte, rest: string)
    ensures
      var t, c := Quad(x, y, z) + rest, Group(x, y, z);
      t[0] == CharOf(c / 262144 % 64) && t[1] == CharOf(c / 4096 % 64) && t[2] == CharOf(c / 64 % 64) &&
          t[3] == CharOf(c % 64)
  {
    hide CharOf, Group;
  }

  lemma PlainBytes(c: nat)
    requires c < 0x100_0000
    ensures TokenBytes(c) == [Byte(c / 65536), Byte(c / 256), Byte(c)]
  {
    hide Byte;
    assert c / 0x100_0000 == 0;
  }

  lemma TwoToken(x: byte, y: byte)
    ensures
      var t := Quad(x, y, 0)[..3] + "=";
      Starts(t) && TokenOf(t) == Group(x, y, 0) + 0x100_0000 && TokenBytes(TokenOf(t)) == [x, y]
  {
    hide Byte, CharOf, Token, PosOf;
    var c := Group(x, y, 0);
    TokenThree(Quad(x, y, 0)[..3] + "=", c / 262144 % 64, c / 4096 % 64, c / 64 % 64);
    Digits64(c);
    GroupBytes(x, y, 0);
    MarkerBytes(c, 1);
  }

  lemma OneToken(x: byte)
    ensures
      var t := Quad(x, 0, 0)[..2] + "==";
      Starts(t) && TokenOf(t) == Group(x, 0, 0) + 0x200_0000 && TokenBytes(TokenOf(t)) == [x]
  {
    hide Byte, CharOf, Token, PosOf;
    var c := Group(x, 0, 0);
    TokenTwo(Quad(x, 0, 0)[..2] + "==", c / 262144 % 64, c / 4096 % 64);
    Digits64(c);
    GroupBytes(x, 0, 0);
    MarkerBytes(c, 2);
  }

  /** The marker does not disturb the bytes. */
  lemma MarkerBytes(c: nat, marker: nat)
    requires c < 0x100_0000 && marker <= 2
    ensures
      var v := c + marker * 0x100_0000;
      Byte(v / 65536) == Byte(c / 65536) && Byte(v / 256) == Byte(c / 256) && v / 0x100_0000 % 256 == marker
  {
    MarkerShift(c, marker);
    ByteShift(c / 65536, marker);
    ByteShift(c / 256, marker * 256);
  }

  lemma MarkerShift(c: nat, marker: nat)
    requires c < 0x100_0000 && marker <= 2
    ensures
      var v := c + marker * 0x100_0000;
      v / 65536 == c / 65536 + marker * 256 && v / 256 == c / 256 + marker * 256 * 256 && v / 0x100_0000 % 256 == marker
  {
    if marker == 1 {
      assert (c + 0x100_0000) / 65536 == c / 65536 + 256 && (c + 0x100_0000) / 256 == c / 256 + 65536;
    } else if marker == 2 {
      assert (c + 0x200_0000) / 65536 == c / 65536 + 512 && (c + 0x200_0000) / 256 == c / 256 + 131072;
    }
  }

  lemma ByteShift(q: nat, m: nat)
    ensures Byte(q + m * 256) == Byte(q)
  {
    Div256(q / 256 + m, q % 256);
  }

  /** Decoding the padded encoding of any bytes gives the bytes back. */
  lemma {:induction false} DecodeEncode(d: seq<byte>)
    ensures Dec(Enc(d, true)) == Some(d)
    decreases |d|
  {
    hide Quad, TokenOf, TokenBytes, PosOf, Group;
    if d == [] {
    } else if |d| == 1 {
      OneToken(d[0]);
      GroupSmall(d[0], 0, 0);
      LastToken(Quad(d[0], 0, 0)[..2] + "==", d);
    } else if |d| == 2 {
      TwoToken(d[0], d[1]);
      GroupSmall(d[0], d[1], 0);
      LastToken(Quad(d[0], d[1], 0)[..3] + "=", d);
    } else {
      DecodeEncode(d[3..]);
      var q, rest := Quad(d[0], d[1], d[2]), Enc(d[3..], true);
      QuadToken(d[0], d[1], d[2], rest);
      GroupSmall(d[0], d[1], d[2]);
      assert (q + rest)[4..] == rest;
      assert [d[0], d[1], d[2]] + d[3..] == d;
    }
  }

  lemma GroupSmall(x: byte, y: byte, z: byte)
    ensures Group(x, y, z) < 0x100_0000
  {
  }

  lemma LastToken(t: string, d: seq<byte>)
    requires |t| == 4 && Starts(t) && TokenOf(t) != DECODE_ERROR && TokenBytes(TokenOf(t)) == d
    ensures Dec(t) == Some(d)
  {
    hide TokenOf, TokenBytes;
    assert t[4..] == [];
    assert Dec([]) == Some([]) && d + [] == d;
  }

  /** A piece of whole groups can be encoded separately. */
  lemma {:induction false} EncPieces(a: seq<byte>, b: seq<byte>, pad: bool)
    requires |a| % 3 == 0
    ensures Enc(a + b, pad) == Enc(a, false) + Enc(b, pad)
    decreases |a|
  {
    hide Quad;
    if a == [] {
      assert a + b == b && Enc(a, false) == "";
    } else {
      assert (a + b)[3..] == a[3..] + b;
      EncPieces(a[3..], b, pad);
    }
  }

  /** The length of an encoding that is not padded tells the padding it needs. */
  lemma {:induction false} EncPad(d: seq<byte>)
    ensures Enc(d, true) == Enc(d, false) + Equals((4 - |Enc(d, false)| % 4) % 4)
    decreases |d|
  {
    hide Quad;
    if |d| >= 3 {
      EncPad(d[3..]);
      var q, e := Quad(d[0], d[1], d[2]), Enc(d[3..], false);
      assert |q + e| % 4 == |e| % 4;
      assert q + e + Equals((4 - |e| % 4) % 4) == q + (e + Equals((4 - |e| % 4) % 4));
    } else if |d| == 2 {
      assert Equals(1) == "=";
    } else if |d| == 1 {
      assert Equals(2) == "==";
    } else {
      assert Equals(0) == "";
    }
  }

  ghost function Join(pieces: seq<seq<byte>>): seq<byte>
    decreases |pieces|
  {
    if pieces == [] then [] else pieces[0] + Join(pieces[1..])
  }

  ghost function EncAll(pieces: seq<seq<byte>>): string
    decreases |pieces|
  {
    if pieces == [] then "" else Enc(pieces[0], false) + EncAll(pieces[1..])
  }

  ghost predicate WholeGroups(pieces: seq<seq<byte>>)
    decreases |pieces|
  {
    |pieces| <= 1 || (|pieces[0]| % 3 == 0 && WholeGroups(pieces[1..]))
  }

  lemma {:induction false} EncJoin(pieces: seq<seq<byte>>)
    requires WholeGroups(pieces)
    ensures EncAll(pieces) == Enc(Join(pieces), false)
    decreases |pieces|
  {
    hide Quad;
    if |pieces| == 1 {
      assert pieces[1..] == [] && pieces[0] + [] == pieces[0];
    } else if |pieces| > 1 {
      EncJoin(pieces[1..]);
      EncPieces(pieces[0], Join(pieces[1..]), false);
    }
  }

  /** Pieces of whole groups, the last of any length, encoded one by one without padding and then
      padded, decode to all the bytes. */
  lemma DecodePieces(pieces: seq<seq<byte>>)
    requires WholeGroups(pieces)
    ensures
      var s := EncAll(pieces);
      Dec(s + Equals((4 - |s| % 4) % 4)) == Some(Join(pieces))
  {
    hide Enc, Dec, Join, EncAll;
    EncJoin(pieces);
    EncPad(Join(pieces));
    DecodeEncode(Join(pieces));
  }
}
