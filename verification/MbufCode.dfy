/** Chains of memory buffers that stand for one flat sequence of bytes. */
module MbufCode {
  import opened Common
  import opened Bytes

  const OS_MBUF_PKTHDR_SIZE := 8

  /** A buffer: its storage, where its data starts, how long it is, the length of the packet header
      before it, and the total length that the packet header records. */
  datatype Mbuf = Mbuf(buf: seq<byte>, off: nat, len: nat, pkthdr: nat, total: nat)

  datatype Rc = Ok | Invalid | NoMemory

  predicate IsPkthdr(m: Mbuf) {
    m.pkthdr >= OS_MBUF_PKTHDR_SIZE
  }

  /** The data lies in the storage, behind the packet header. */
  ghost predicate BufOk(m: Mbuf, n: nat) {
    |m.buf| == n && m.off + m.len <= n && (IsPkthdr(m) ==> m.pkthdr <= m.off)
  }

  ghost predicate BufsOk(c: seq<Mbuf>, n: nat) {
    forall m :: m in c ==> BufOk(m, n)
  }

  function Data(m: Mbuf): seq<byte> {
    if m.off + m.len <= |m.buf| then m.buf[m.off..m.off + m.len] else []
  }

  ghost function Flat(c: seq<Mbuf>): seq<byte>
    decreases |c|
  {
    if c == [] then [] else Data(c[0]) + Flat(c[1..])
  }

  /** The packet header, if there is one, records the flat length, in 16 bits. */
  ghost predicate HdrOk(c: seq<Mbuf>) {
    c != [] && IsPkthdr(c[0]) ==> c[0].total == |Flat(c)| % WORD16
  }

  function TrailingSpace(m: Mbuf): int {
    |m.buf| - (m.off + m.len)
  }

  function HdrLen(m: Mbuf): nat {
    if IsPkthdr(m) then m.pkthdr else 0
  }

  function LeadingSpace(m: Mbuf): int {
    m.off - HdrLen(m)
  }

  /** A chain that has a packet header still has one of that length, and it records the flat length; a chain
      that has none has none. */
  ghost predicate HeaderKept(c: seq<Mbuf>, c': seq<Mbuf>) {
    c != [] ==> c' != [] && HdrLen(c'[0]) == HdrLen(c[0]) && (IsPkthdr(c[0]) ==> c'[0].total == |Flat(c')| % WORD16)
  }

  /** The last buffer is needed for `n` bytes, unless it is the only one. */
  ghost predicate NoneSpare(c: seq<Mbuf>, n: nat) {
    |c| <= 1 || |Flat(c[..|c| - 1])| < n
  }

  function Least(a: int, b: int): int {
    if a < b then a else b
  }

  /** Bytes that `n` new buffers hold. */
  function PoolBytes(n: nat, each: int): int {
    n * each
  }

  /** Bytes that fit behind a chain: in its last buffer and in the buffers left in the pool. */
  function Room(c: seq<Mbuf>, poolFree: nat, databufLen: nat): int
    requires c != []
  {
    TrailingSpace(c[|c| - 1]) + PoolBytes(poolFree, databufLen)
  }

  lemma OneMore(n: nat, d: int)
    ensures PoolBytes(n + 1, d) == PoolBytes(n, d) + d && PoolBytes(0, d) == 0
    ensures d >= 0 ==> PoolBytes(n, d) >= 0
  {
  }

  // ------------------------------------------------------------ the flat view

  lemma {:induction false} FlatJoin(a: seq<Mbuf>, b: seq<Mbuf>)
    ensures Flat(a + b) == Flat(a) + Flat(b)
    decreases |a|
  {
    if a == [] {
      assert a + b == b;
    } else {
      assert (a + b)[1..] == a[1..] + b;
      FlatJoin(a[1..], b);
    }
  }

  lemma FlatOne(m: Mbuf)
    ensures Flat([m]) == Data(m)
  {
    assert [m][1..] == [];
  }

  lemma FlatTo(c: seq<Mbuf>, i: nat)
    requires i < |c|
    ensures Flat(c[..i + 1]) == Flat(c[..i]) + Data(c[i])
  {
    hide Flat, Data;
    assert c[..i + 1] == c[..i] + [c[i]];
    FlatJoin(c[..i], [c[i]]);
    FlatOne(c[i]);
  }

  lemma FlatFrom(c: seq<Mbuf>, i: nat)
    requires i < |c|
    ensures Flat(c[i..]) == Data(c[i]) + Flat(c[i + 1..])
  {
    assert c[i..][1..] == c[i + 1..];
  }

  /** A chain around its buffer `i`. */
  lemma FlatAt(c: seq<Mbuf>, i: nat)
    requires i < |c|
    ensures Flat(c) == Flat(c[..i]) + Data(c[i]) + Flat(c[i + 1..])
    ensures Flat(c[..i + 1]) == Flat(c[..i]) + Data(c[i]) && Flat(c[i..]) == Data(c[i]) + Flat(c[i + 1..])
  {
    hide Flat, Data;
    FlatTo(c, i);
    FlatFrom(c, i);
    assert c == c[..i + 1] + c[i + 1..];
    FlatJoin(c[..i + 1], c[i + 1..]);
  }

  /** A chain whose last buffer has changed. */
  lemma FlatLast(c: seq<Mbuf>, m: Mbuf)
    requires c != []
    ensures Flat(c[..|c| - 1] + [m]) == Flat(c[..|c| - 1]) + Data(m) && Flat(c) == Flat(c[..|c| - 1]) + Data(c[|c| - 1])
  {
    hide Flat, Data;
    FlatJoin(c[..|c| - 1], [m]);
    FlatOne(m);
    FlatTo(c, |c| - 1);
    FlatEnds(c);
  }

  lemma HeadOnly(c: seq<Mbuf>, m: Mbuf)
    requires c != [] && Data(m) == Data(c[0])
    ensures Flat([m] + c[1..]) == Flat(c)
  {
    assert ([m] + c[1..])[1..] == c[1..];
  }

  class Chain {
    var bufs: seq<Mbuf>
    /** Buffers left in the pool, all with storage of the same length. */
    var poolFree: nat
    const databufLen: nat

    ghost predicate Valid()
      reads this
    {
      BufsOk(bufs, databufLen) && HdrOk(bufs)
    }

    ghost function Bytes(): seq<byte>
      reads this
    {
      Flat(bufs)
    }

    constructor (databufLen: nat, poolFree: nat)
      ensures Valid() && Bytes() == [] && this.databufLen == databufLen && this.poolFree == poolFree
    {
      this.databufLen := databufLen;
      this.poolFree := poolFree;
      bufs := [];
    }

    /** os_mbuf_get with no leading space; the storage holds whatever it held before. */
    method Get() returns (ok: bool, m: Mbuf)
      modifies this`poolFree
      ensures ok <==> old(poolFree) > 0
      ensures poolFree == if ok then old(poolFree) - 1 else old(poolFree)
      ensures |m.buf| == databufLen && m == Mbuf(m.buf, 0, 0, 0, 0)
    {
      var some: seq<byte> := seq(databufLen, _ => 0);
      assert |some| == databufLen;
      var storage: seq<byte> :| |storage| == databufLen;
      m := Mbuf(storage, 0, 0, 0, 0);
      if poolFree == 0 {
        return false, m;
      }
      poolFree := poolFree - 1;
      return true, m;
    }

    /** Add to the length the packet header records, if there is one. */
    method AddToHeader(n: int, ghost was: nat)
      requires bufs != [] && BufsOk(bufs, databufLen) && |Flat(bufs)| == was + n
      requires IsPkthdr(bufs[0]) ==> bufs[0].total == was % WORD16
      modifies this`bufs
      ensures Valid() && Flat(bufs) == Flat(old(bufs)) && |bufs| == |old(bufs)| && HeaderKept(old(bufs), bufs)
    {
      hide Flat, Data;
      if IsPkthdr(bufs[0]) {
        var m := bufs[0].(total := (bufs[0].total + n) % WORD16);
        assert bufs[0] in bufs;
        SameData(bufs[0], m);
        HeadOnly(bufs, m);
        BufsHead(bufs, m, databufLen);
        AddMod(was, n);
        bufs := [m] + bufs[1..];
      }
    }

    /** os_mbuf_append: as much of the data as there are buffers for. */
    method Append(data: seq<byte>) returns (rc: Rc, ghost n: nat)
      requires Valid()
      modifies this`bufs, this`poolFree
      ensures Valid() && poolFree + |bufs| == old(poolFree + |bufs|)
      ensures rc == Invalid <==> old(bufs) == []
      ensures n <= |data| && Bytes() == old(Bytes()) + data[..n]
      ensures rc == Invalid ==> n == 0 && bufs == old(bufs)
      ensures rc != Invalid ==> n == Least(|data|, Room(old(bufs), old(poolFree), databufLen))
      ensures rc == Ok ==> n == |data|
      ensures rc == NoMemory ==> n < |data|
      ensures HeaderKept(old(bufs), bufs)
    {
      hide Flat, Data, PoolBytes;
      n := 0;
      OneMore(poolFree, databufLen);
      assert data[..0] == [] && Flat(bufs) + [] == Flat(bufs);
      if bufs == [] {
        return Invalid, n;
      }
      ghost var f := Flat(bufs);
      var remainder := |data|;
      ghost var room := Room(bufs, poolFree, databufLen);
      var space := FillLast(data);
      n := space;
      remainder := remainder - space;
      while remainder > 0
        invariant 0 <= remainder <= |data| && n == |data| - remainder && bufs != []
        invariant BufsOk(bufs, databufLen) && Flat(bufs) == f + data[..n] && poolFree + |bufs| == old(poolFree + |bufs|)
        invariant bufs[0].pkthdr == old(bufs)[0].pkthdr && bufs[0].total == old(bufs)[0].total
        invariant n <= room && (remainder > 0 ==> room == n + PoolBytes(poolFree, databufLen))
        decreases poolFree, remainder
      {
        var ok, m := Get();
        if !ok {
          break;
        }
        OneMore(poolFree, databufLen);
        var len := if databufLen < remainder then databufLen else remainder;
        var from := |data| - remainder;
        m := m.(len := len, buf := data[from..from + len] + m.buf[len..]);
        AppendNew(bufs, m, f, data, n, len, databufLen);
        bufs := bufs + [m];
        n := n + len;
        remainder := remainder - len;
      }
      AddToHeader(|data| - remainder, |f|);
      if remainder != 0 {
        return NoMemory, n;
      }
      return Ok, n;
    }

    /** The first part of os_mbuf_append: scroll to the last buffer and use the space it has left. */
    method FillLast(data: seq<byte>) returns (space: nat)
      requires bufs != [] && BufsOk(bufs, databufLen)
      modifies this`bufs
      ensures space == Least(|data|, TrailingSpace(old(bufs)[|old(bufs)| - 1]))
      ensures BufsOk(bufs, databufLen) && |bufs| == |old(bufs)|
      ensures Flat(bufs) == Flat(old(bufs)) + data[..space]
      ensures bufs[0].pkthdr == old(bufs)[0].pkthdr && bufs[0].total == old(bufs)[0].total
    {
      hide Flat, Data;
      var last := 0;
      while last + 1 < |bufs|
        invariant last < |bufs|
        modifies {}
      {
        last := last + 1;
      }
      var m := bufs[last];
      assert m in bufs;
      var room := TrailingSpace(m);
      space := if room > |data| then |data| else room;
      var end := m.off + m.len;
      var m' := m.(buf := m.buf[..end] + data[..space] + m.buf[end + space..], len := m.len + space);
      MoreData(m, m', data[..space]);
      FlatLast(bufs, m');
      LastOk(bufs, m', databufLen);
      bufs := bufs[..last] + [m'];
    }

    /** os_mbuf_copydata: the bytes of the flat view, if there are enough of them. */
    method CopyData(off: nat, len: int) returns (ok: bool, dst: seq<byte>)
      requires BufsOk(bufs, databufLen)
      ensures ok <==> if len <= 0 then off <= |Bytes()| else off + len <= |Bytes()|
      ensures ok ==> dst == if len <= 0 then [] else Bytes()[off..off + len]
    {
      hide Flat, Data, BufsOk;
      var i, skip := SkipTo(off);
      if skip > 0 && i == |bufs| {
        return false, [];
      }
      if len <= 0 {
        return true, [];
      }
      var left;
      dst, left := CopyFrom(i, skip, off, len);
      return left <= 0, dst;
    }

    /** The first loop of os_mbuf_copydata: the buffer that offset `off` falls into. */
    method SkipTo(off: nat) returns (i: nat, skip: nat)
      requires BufsOk(bufs, databufLen)
      ensures i <= |bufs| && off == |Flat(bufs[..i])| + skip
      ensures i < |bufs| ==> (skip == 0 || skip < bufs[i].len) && off <= |Flat(bufs)|
      ensures i == |bufs| ==> off == |Flat(bufs)| + skip
    {
      hide Flat, Data;
      i, skip := 0, off;
      FlatEnds(bufs);
      while skip > 0 && i < |bufs| && skip >= bufs[i].len
        invariant 0 <= i <= |bufs| && 0 <= skip && off == |Flat(bufs[..i])| + skip
      {
        FlatAt(bufs, i);
        DataLen(bufs, i, databufLen);
        skip := skip - bufs[i].len;
        i := i + 1;
      }
      Position(bufs, i);
      if i < |bufs| {
        FlatAt(bufs, i);
        DataLen(bufs, i, databufLen);
        Position(bufs, i + 1);
      }
    }

    /** The second loop of os_mbuf_copydata. */
    method CopyFrom(i0: nat, skip0: nat, off: nat, len: nat) returns (dst: seq<byte>, left: nat)
      requires BufsOk(bufs, databufLen) && i0 <= |bufs| && off == |Flat(bufs[..i0])| + skip0 && off <= |Flat(bufs)| &&
               len > 0
      requires (i0 < |bufs| ==> skip0 == 0 || skip0 < bufs[i0].len) && (i0 == |bufs| ==> skip0 == 0)
      ensures off + |dst| <= |Flat(bufs)| && dst == Flat(bufs)[off..off + |dst|] && |dst| == len - left
      ensures left > 0 ==> off + |dst| == |Flat(bufs)|
    {
      hide Flat, Data, BufsOk;
      var i, skip: nat := i0, skip0;
      dst, left := [], len;
      while left > 0 && i < |bufs|
        invariant 0 <= i <= |bufs| && left <= len && |dst| == len - left
        invariant left > 0 ==> off + |dst| == |Flat(bufs[..i])| + skip
        invariant (i < |bufs| ==> skip == 0 || skip < bufs[i].len) && (i == |bufs| ==> skip == 0)
        invariant off + |dst| <= |Flat(bufs)| && dst == Flat(bufs)[off..off + |dst|]
      {
        var count := if bufs[i].len - skip < left then bufs[i].len - skip else left;
        var m := bufs[i];
        CopyStep(bufs, i, skip, count, off, |dst|, databufLen);
        dst := dst + m.buf[m.off + skip..m.off + skip + count];
        left := left - count;
        skip := 0;
        i := i + 1;
      }
      FlatEnds(bufs);
    }

    /** os_mbuf_adj with a length that is not negative: trim from the head. */
    method AdjHead(req: nat)
      requires Valid()
      modifies this`bufs
      ensures Valid() && |bufs| == |old(bufs)|
      ensures Bytes() == old(Bytes())[if req < |old(Bytes())| then req else |old(Bytes())|..]
      ensures HeaderKept(old(bufs), bufs)
    {
      hide Flat, Data;
      if bufs == [] {
        NoBufs(bufs);
        return;
      }
      ghost var f := Flat(bufs);
      var i, len := 0, req;
      assert f[0..] == f;
      FlatEnds(bufs);
      while i < |bufs| && len > 0
        invariant 0 <= i <= |bufs| == |old(bufs)| && 0 <= len <= req && req - len <= |f|
        invariant BufsOk(bufs, databufLen) && Flat(bufs) == f[req - len..] && (len > 0 ==> Flat(bufs[..i]) == [])
        invariant bufs[0].pkthdr == old(bufs)[0].pkthdr && bufs[0].total == old(bufs)[0].total
        decreases |bufs| - i, len
      {
        ghost var was := bufs;
        var m := bufs[i];
        DataLen(bufs, i, databufLen);
        FlatAt(bufs, i);
        if m.len <= len {
          TrimAll(was, i, databufLen);
          bufs := bufs[i := m.(len := 0)];
          assert f[req - len..][m.len..] == f[req - len + m.len..];
          len := len - m.len;
          i := i + 1;
        } else {
          TrimSome(was, i, len, databufLen);
          bufs := bufs[i := m.(len := m.len - len, off := m.off + len)];
          assert f[req - len..][len..] == f[req..];
          len := 0;
        }
      }
      if i == |bufs| {
        FlatEnds(bufs);
      }
      AddToHeader(-(req - len), |f|);
    }

    /** os_mbuf_adj with a negative length: trim `req` bytes from the tail. */
    method AdjTail(req: nat)
      requires Valid()
      modifies this`bufs, this`poolFree
      ensures Valid() && poolFree + |bufs| == old(poolFree + |bufs|)
      ensures Bytes() == old(Bytes())[..if req < |old(Bytes())| then |old(Bytes())| - req else 0]
      ensures old(bufs) != [] ==>
                if req <= old(bufs)[|old(bufs)| - 1].len then |bufs| == |old(bufs)| else NoneSpare(bufs, |Bytes()|)
      ensures HeaderKept(old(bufs), bufs)
    {
      hide Flat, Data;
      if bufs == [] {
        NoBufs(bufs);
        return;
      }
      ghost var f := Flat(bufs);
      var i, count := 0, bufs[0].len;
      FlatEnds(bufs);
      FlatAt(bufs, 0);
      DataLen(bufs, 0, databufLen);
      while i + 1 < |bufs|
        invariant i < |bufs| && count == |Flat(bufs[..i + 1])|
        modifies {}
      {
        i := i + 1;
        FlatAt(bufs, i);
        DataLen(bufs, i, databufLen);
        count := count + bufs[i].len;
      }
      assert bufs[..i + 1] == bufs;
      var m := bufs[i];
      DataLen(bufs, i, databufLen);
      if m.len >= req {
        CutLast(bufs, req, databufLen);
        bufs := bufs[i := m.(len := m.len - req)];
        AddToHeader(0 - req, |f|);
        return;
      }
      count := if count - req < 0 then 0 else count - req;
      Truncate(count);
    }

    /** os_mbuf_adj: trim from the head, or from the tail if the length is negative. */
    method Adj(reqLen: int)
      requires Valid()
      modifies this`bufs, this`poolFree
      ensures Valid() && poolFree + |bufs| == old(poolFree + |bufs|)
      ensures
        var f := old(Bytes());
        && (reqLen >= 0 ==> Bytes() == f[if reqLen < |f| then reqLen else |f|..])
        && (reqLen < 0 ==> Bytes() == f[..if -reqLen < |f| then |f| + reqLen else 0])
      ensures reqLen >= 0 ==> |bufs| == |old(bufs)|
      ensures reqLen < 0 && old(bufs) != [] ==>
                if -reqLen <= old(bufs)[|old(bufs)| - 1].len then |bufs| == |old(bufs)| else NoneSpare(bufs, |Bytes()|)
      ensures HeaderKept(old(bufs), bufs)
    {
      hide Flat;
      if reqLen >= 0 {
        AdjHead(reqLen);
      } else {
        AdjTail(-reqLen);
      }
    }

    /** The rescan of os_mbuf_adj: keep `n` bytes, free the buffers behind them. */
    method Truncate(n: nat)
      requires bufs != [] && BufsOk(bufs, databufLen) && n <= |Flat(bufs)|
      modifies this`bufs, this`poolFree
      ensures Valid() && poolFree + |bufs| == old(poolFree + |bufs|) && Bytes() == old(Bytes())[..n]
      ensures HeaderKept(old(bufs), bufs) && NoneSpare(bufs, n)
    {
      hide Flat, Data;
      ghost var f := Flat(bufs);
      if IsPkthdr(bufs[0]) {
        var h := bufs[0].(total := n % WORD16);
        assert bufs[0] in bufs;
        SameData(bufs[0], h);
        HeadOnly(bufs, h);
        BufsHead(bufs, h, databufLen);
        bufs := [h] + bufs[1..];
      }
      ghost var all := bufs;
      var i, count := 0, n;
      FlatEnds(bufs);
      while i < |bufs| && bufs[i].len < count
        invariant 0 <= i <= |bufs| && bufs == all && 0 <= count && n == |Flat(bufs[..i])| + count
        invariant i > 0 ==> count > 0
        modifies {}
      {
        FlatAt(bufs, i);
        DataLen(bufs, i, databufLen);
        count := count - bufs[i].len;
        i := i + 1;
      }
      if i < |bufs| {
        CutAt(bufs, i, count, databufLen);
        poolFree := poolFree + (|bufs| - (i + 1));
        bufs := bufs[..i] + [bufs[i].(len := count)];
        assert bufs[..|bufs| - 1] == all[..i];
      }
    }

    /** os_mbuf_concat */
    method Concat(second: seq<Mbuf>)
      requires Valid() && bufs != [] && second != [] && BufsOk(second, databufLen) && HdrOk(second)
      modifies this`bufs
      ensures Valid() && Bytes() == old(Bytes()) + Flat(second) && |bufs| == |old(bufs)| + |second|
      ensures HeaderKept(old(bufs), bufs)
    {
      hide Flat, Data;
      ghost var f := Flat(bufs);
      var len := 0;
      if IsPkthdr(bufs[0]) {
        if IsPkthdr(second[0]) {
          len := second[0].total;
        } else {
          var i := 0;
          FlatEnds(second);
          while i < |second|
            invariant 0 <= i <= |second| && len == |Flat(second[..i])|
            modifies {}
          {
            FlatAt(second, i);
            DataLen(second, i, databufLen);
            len := len + second[i].len;
            i := i + 1;
          }
        }
      }
      var cleared := [second[0].(pkthdr := 0)] + second[1..];
      assert second[0] in second;
      SameData(second[0], cleared[0]);
      HeadOnly(second, cleared[0]);
      BufsHead(second, cleared[0], databufLen);
      FlatJoin(bufs, cleared);
      JoinOk(bufs, cleared, databufLen);
      if IsPkthdr(bufs[0]) {
        ConcatMod(|f|, |Flat(second)|, len);
      }
      bufs := bufs + cleared;
      if IsPkthdr(bufs[0]) {
        var m := bufs[0].(total := (bufs[0].total + len) % WORD16);
        assert bufs[0] in bufs;
        SameData(bufs[0], m);
        HeadOnly(bufs, m);
        BufsHead(bufs, m, databufLen);
        bufs := [m] + bufs[1..];
      }
    }

    /** os_mbuf_extend: room for `len` more bytes in one buffer, at the end of the flat view. */
    method Extend(len: nat) returns (ok: bool)
      requires Valid() && bufs != []
      modifies this`bufs, this`poolFree
      ensures Valid() && poolFree + |bufs| == old(poolFree + |bufs|)
      ensures ok <==> len <= databufLen && (TrailingSpace(old(bufs)[|old(bufs)| - 1]) >= len || old(poolFree) > 0)
      ensures ok ==> |Bytes()| == |old(Bytes())| + len && Bytes()[..|old(Bytes())|] == old(Bytes())
      ensures HeaderKept(old(bufs), bufs)
      ensures !ok ==> bufs == old(bufs)
    {
      hide Flat, Data;
      if len > databufLen {
        return false;
      }
      ghost var f := Flat(bufs);
      if TrailingSpace(bufs[|bufs| - 1]) < len {
        var got, newm := Get();
        if !got {
          return false;
        }
        JoinOk(bufs, [newm], databufLen);
        FlatJoin(bufs, [newm]);
        FlatOne(newm);
        NoData(newm);
        bufs := bufs + [newm];
      }
      var last := |bufs| - 1;
      var m := bufs[last];
      var m' := m.(len := m.len + len);
      DataLen(bufs, last, databufLen);
      LongerData(m, m', len);
      FlatLast(bufs, m');
      LastOk(bufs, m', databufLen);
      bufs := bufs[..last] + [m'];
      assert Flat(bufs)[..|f|] == f;
      ghost var g := Flat(bufs);
      AddToHeader(len, |f|);
      return true;
    }

    /** os_mbuf_prepend: `len` bytes more at the front, in new buffers if need be; on failure the whole
        chain goes back to the pool. */
    method Prepend(len: nat) returns (ok: bool)
      requires Valid() && bufs != []
      modifies this`bufs, this`poolFree
      ensures Valid() && poolFree + |bufs| == old(poolFree + |bufs|)
      ensures ok <==> len <= LeadingSpace(old(bufs)[0]) + PoolBytes(old(poolFree), databufLen - HdrLen(old(bufs)[0]))
      ensures ok ==> bufs != [] && |Bytes()| == len + |old(Bytes())| && Bytes()[len..] == old(Bytes())
      ensures ok ==> HeaderKept(old(bufs), bufs)
      ensures !ok ==> bufs == []
    {
      hide Flat, Data, PoolBytes;
      ghost var f := Flat(bufs);
      assert BufOk(bufs[0], databufLen) by { assert bufs[0] in bufs; }
      ghost var per := databufLen - HdrLen(bufs[0]);
      ghost var fits := len <= LeadingSpace(bufs[0]) + PoolBytes(poolFree, per);
      var left := len;
      ok := true;
      while true
        invariant Valid() && bufs != [] && 0 <= left <= len && ok && poolFree + |bufs| == old(poolFree + |bufs|)
        invariant |Flat(bufs)| == len - left + |f| && Flat(bufs)[len - left..] == f
        invariant databufLen - HdrLen(bufs[0]) == per && 0 <= per
        invariant fits <==> left <= LeadingSpace(bufs[0]) + PoolBytes(poolFree, per)
        decreases poolFree
      {
        OneMore(poolFree, per);
        var n := FillFirst(left);
        assert Flat(bufs)[len - left + n..] == f;
        left := left - n;
        if left == 0 {
          break;
        }
        var got, p := Get();
        if !got {
          poolFree := poolFree + |bufs|;
          bufs := [];
          ok := false;
          break;
        }
        OneMore(poolFree, per);
        NewHead(p);
      }
    }

    /** Fill the leading space of the first buffer as far as needed. */
    method FillFirst(left: nat) returns (n: nat)
      requires Valid() && bufs != []
      modifies this`bufs
      ensures Valid() && |bufs| == |old(bufs)| && n <= left
      ensures n == if left < LeadingSpace(old(bufs)[0]) then left else LeadingSpace(old(bufs)[0])
      ensures |Flat(bufs)| == n + |Flat(old(bufs))| && Flat(bufs)[n..] == Flat(old(bufs))
      ensures bufs[0].pkthdr == old(bufs)[0].pkthdr
    {
      hide Flat, Data;
      ghost var f := Flat(bufs);
      var m := bufs[0];
      DataLen(bufs, 0, databufLen);
      n := if left < LeadingSpace(m) then left else LeadingSpace(m);
      var m' := m.(off := m.off - n, len := m.len + n, total := if IsPkthdr(m) then (m.total + n) % WORD16
          else m.total);
      EarlierData(m, m', n);
      FlatFirst(bufs, m');
      BufsHead(bufs, m', databufLen);
      AddMod(|f|, n);
      bufs := [m'] + bufs[1..];
    }

    /** Put a new, empty head before the chain, with its data at the end of its storage; it takes over
        the packet header. */
    method NewHead(p: Mbuf)
      requires Valid() && bufs != [] && |p.buf| == databufLen && p == Mbuf(p.buf, 0, 0, 0, 0)
      modifies this`bufs
      ensures Valid() && |bufs| == |old(bufs)| + 1 && Flat(bufs) == Flat(old(bufs))
      ensures HdrLen(bufs[0]) == HdrLen(old(bufs)[0]) && LeadingSpace(bufs[0]) == databufLen - HdrLen(bufs[0])
    {
      hide Flat, Data;
      var om := bufs[0];
      var head, rest := p.(off := databufLen), bufs;
      assert om in bufs;
      if IsPkthdr(om) {
        head := head.(pkthdr := om.pkthdr, total := om.total);
        SameData(om, om.(pkthdr := 0));
        HeadOnly(bufs, om.(pkthdr := 0));
        BufsHead(bufs, om.(pkthdr := 0), databufLen);
        rest := [om.(pkthdr := 0)] + bufs[1..];
      }
      FlatJoin([head], rest);
      FlatOne(head);
      NoData(head);
      JoinOk([head], rest, databufLen);
      bufs := [head] + rest;
    }
  }

  lemma SameData(m: Mbuf, m': Mbuf)
    requires m' == m.(total := m'.total, pkthdr := m'.pkthdr)
    ensures Data(m') == Data(m)
  {
  }

  lemma BufsHead(c: seq<Mbuf>, m: Mbuf, n: nat)
    requires c != [] && BufsOk(c, n) && BufOk(m, n)
    ensures BufsOk([m] + c[1..], n)
  {
  }

  lemma AddMod(was: nat, n: int)
    requires was + n >= 0
    ensures (was % WORD16 + n) % WORD16 == (was + n) % WORD16
  {
    var q := was / WORD16;
    assert was == q * WORD16 + was % WORD16;
    ModQ(was % WORD16 + n, q);
  }

  lemma ModQ(x: int, q: int)
    ensures (x + q * WORD16) % WORD16 == x % WORD16
  {
  }

  lemma MoreData(m: Mbuf, m': Mbuf, data: seq<byte>)
    requires m.off + m.len + |data| <= |m.buf|
    requires m' == m.(buf := m.buf[..m.off + m.len] + data + m.buf[m.off + m.len + |data|..], len := m.len + |data|)
    ensures Data(m') == Data(m) + data && |m'.buf| == |m.buf|
  {
  }

  lemma LastOk(c: seq<Mbuf>, m: Mbuf, n: nat)
    requires c != [] && BufsOk(c, n) && BufOk(m, n)
    ensures BufsOk(c[..|c| - 1] + [m], n)
  {
  }

  lemma AppendNew(c: seq<Mbuf>, m: Mbuf, f: seq<byte>, data: seq<byte>, n: nat, len: nat, size: nat)
    requires n + len <= |data| && len <= size && BufsOk(c, size) && Flat(c) == f + data[..n]
    requires |m.buf| == size && m == Mbuf(m.buf, 0, len, 0, 0) && m.buf[..len] == data[n..n + len]
    ensures BufsOk(c + [m], size) && Flat(c + [m]) == f + data[..n + len]
  {
    hide Flat, Data;
    FlatJoin(c, [m]);
    FlatOne(m);
    WholeData(m);
    JoinOk(c, [m], size);
    assert data[..n] + data[n..n + len] == data[..n + len];
    assert f + data[..n] + data[n..n + len] == f + (data[..n] + data[n..n + len]);
  }

  lemma WholeData(m: Mbuf)
    requires m.off == 0 && m.len <= |m.buf|
    ensures Data(m) == m.buf[..m.len]
  {
  }

  lemma FlatEnds(c: seq<Mbuf>)
    ensures Flat(c[..0]) == [] && Flat(c[..|c|]) == Flat(c) && Flat(c[|c|..]) == []
  {
    assert c[..|c|] == c && c[..0] == [] && c[|c|..] == [];
  }

  lemma NoBufs(c: seq<Mbuf>)
    ensures c == [] ==> Flat(c) == []
  {
  }

  lemma DataLen(c: seq<Mbuf>, i: nat, n: nat)
    requires BufsOk(c, n) && i < |c|
    ensures |Data(c[i])| == c[i].len && c[i].off + c[i].len <= |c[i].buf| && BufOk(c[i], n)
  {
    assert c[i] in c;
  }

  lemma Position(c: seq<Mbuf>, i: nat)
    requires i <= |c|
    ensures |Flat(c[..i])| <= |Flat(c)| && (i == |c| ==> Flat(c[..i]) == Flat(c))
  {
    assert c == c[..i] + c[i..];
    FlatJoin(c[..i], c[i..]);
  }

  /** A part of the middle piece is a part of the whole. */
  lemma CopyPart(f: seq<byte>, a: seq<byte>, b: seq<byte>, c: seq<byte>, skip: nat, count: nat)
    requires f == a + b + c && skip + count <= |b|
    ensures |a| + skip + count <= |f| && b[skip..skip + count] == f[|a| + skip..|a| + skip + count]
  {
  }

  /** What is copied from one buffer continues what has been copied. */
  lemma CopyStep(c: seq<Mbuf>, i: nat, skip: nat, count: nat, off: nat, n: nat, size: nat)
    requires i < |c| && BufsOk(c, size) && skip + count <= c[i].len && off + n == |Flat(c[..i])| + skip
    ensures c[i].off + skip + count <= |c[i].buf| && off + n + count <= |Flat(c)|
    ensures Flat(c)[off..off + n] + c[i].buf[c[i].off + skip..c[i].off + skip + count] == Flat(c)[off..off + n + count]
    ensures skip + count == c[i].len ==> off + n + count == |Flat(c[..i + 1])|
  {
    hide Flat, Data, BufsOk;
    FlatAt(c, i);
    DataLen(c, i, size);
    CopyPart(Flat(c), Flat(c[..i]), Data(c[i]), Flat(c[i + 1..]), skip, count);
    PartOf(c[i], skip, count);
    JoinBytes(Flat(c), off, n, count);
  }

  lemma JoinBytes(f: seq<byte>, off: nat, n: nat, count: nat)
    requires off + n + count <= |f|
    ensures f[off..off + n] + f[off + n..off + n + count] == f[off..off + n + count]
  {
  }

  lemma PartOf(m: Mbuf, skip: nat, count: nat)
    requires m.off + m.len <= |m.buf| && skip + count <= m.len
    ensures m.buf[m.off + skip..m.off + skip + count] == Data(m)[skip..skip + count]
  {
    SubSlice(m.buf, m.off, m.off + m.len, skip, skip + count);
  }

  lemma FlatUpdate(c: seq<Mbuf>, i: nat, m: Mbuf)
    requires i < |c|
    ensures Flat(c[i := m]) == Flat(c[..i]) + Data(m) + Flat(c[i + 1..]) &&
            Flat(c[i := m][..i + 1]) == Flat(c[..i]) + Data(m)
  {
    hide Flat, Data;
    var d := c[i := m];
    FlatAt(d, i);
    assert d[..i] == c[..i] && d[i + 1..] == c[i + 1..];
  }

  lemma UpdateOk(c: seq<Mbuf>, i: nat, m: Mbuf, n: nat)
    requires i < |c| && BufsOk(c, n) && BufOk(m, n)
    ensures BufsOk(c[i := m], n)
  {
    var d := c[i := m];
    forall x | x in d
      ensures BufOk(x, n)
    {
      var k :| 0 <= k < |d| && d[k] == x;
      assert k == i || (c[k] == x && c[k] in c);
    }
  }

  lemma TrimAll(c: seq<Mbuf>, i: nat, n: nat)
    requires i < |c| && BufsOk(c, n) && Flat(c[..i]) == []
    ensures
      var d := c[i := c[i].(len := 0)];
      && BufsOk(d, n) && Flat(d[..i + 1]) == [] && c[i].len <= |Flat(c)| && Flat(d) == Flat(c)[c[i].len..]
  {
    hide Flat, Data;
    var m := c[i].(len := 0);
    DataLen(c, i, n);
    NoData(m);
    FlatAt(c, i);
    FlatUpdate(c, i, m);
    UpdateOk(c, i, m, n);
  }

  lemma NoData(m: Mbuf)
    requires m.len == 0
    ensures Data(m) == []
  {
  }

  lemma TrimSome(c: seq<Mbuf>, i: nat, k: nat, n: nat)
    requires i < |c| && BufsOk(c, n) && Flat(c[..i]) == [] && k < c[i].len
    ensures
      var d := c[i := c[i].(len := c[i].len - k, off := c[i].off + k)];
      BufsOk(d, n) && k <= |Flat(c)| && Flat(d) == Flat(c)[k..]
  {
    hide Flat, Data;
    var m := c[i].(len := c[i].len - k, off := c[i].off + k);
    DataLen(c, i, n);
    FlatAt(c, i);
    FlatUpdate(c, i, m);
    UpdateOk(c, i, m, n);
    TailData(c[i], m, k);
  }

  lemma TailData(m: Mbuf, m': Mbuf, k: nat)
    requires m.off + m.len <= |m.buf| && k <= m.len && m' == m.(len := m.len - k, off := m.off + k)
    ensures Data(m') == Data(m)[k..]
  {
    SubSlice(m.buf, m.off, m.off + m.len, k, m.len);
  }

  /** The last buffer gives up its last `k` bytes. */
  lemma CutLast(c: seq<Mbuf>, k: nat, n: nat)
    requires c != [] && BufsOk(c, n) && k <= c[|c| - 1].len
    ensures
      var i := |c| - 1;
      var d := c[i := c[i].(len := c[i].len - k)];
      BufsOk(d, n) && k <= |Flat(c)| && Flat(d) == Flat(c)[..|Flat(c)| - k]
  {
    hide Flat, Data;
    var i := |c| - 1;
    var m := c[i].(len := c[i].len - k);
    DataLen(c, i, n);
    FlatAt(c, i);
    FlatUpdate(c, i, m);
    UpdateOk(c, i, m, n);
    FlatEnds(c);
    FrontData(c[i], m);
  }

  lemma FrontData(m: Mbuf, m': Mbuf)
    requires m.off + m.len <= |m.buf| && m' == m.(len := m'.len) && m'.len <= m.len
    ensures Data(m') == Data(m)[..m'.len]
  {
    SubSlice(m.buf, m.off, m.off + m.len, 0, m'.len);
  }

  lemma CutAt(c: seq<Mbuf>, i: nat, k: nat, n: nat)
    requires i < |c| && BufsOk(c, n) && k <= c[i].len
    ensures
      var d := c[..i] + [c[i].(len := k)];
      BufsOk(d, n) && |Flat(c[..i])| + k <= |Flat(c)| && Flat(d) == Flat(c)[..|Flat(c[..i])| + k]
  {
    hide Flat, Data;
    var m := c[i].(len := k);
    DataLen(c, i, n);
    FlatAt(c, i);
    FlatJoin(c[..i], [m]);
    FlatOne(m);
    FrontData(c[i], m);
  }

  lemma JoinOk(a: seq<Mbuf>, b: seq<Mbuf>, n: nat)
    requires BufsOk(a, n) && BufsOk(b, n)
    ensures BufsOk(a + b, n)
  {
  }

  lemma ConcatMod(a: nat, b: nat, len: nat)
    requires len % WORD16 == b % WORD16
    ensures (a % WORD16 + len) % WORD16 == (a + b) % WORD16
  {
    AddMod(a, len);
    AddMod(len, a);
    AddMod(b, a);
  }

  lemma LongerData(m: Mbuf, m': Mbuf, k: nat)
    requires m.off + m.len + k <= |m.buf| && m' == m.(len := m.len + k)
    ensures |Data(m')| == |Data(m)| + k && Data(m')[..|Data(m)|] == Data(m)
  {
    SubSlice(m.buf, m.off, m.off + m.len + k, 0, m.len);
  }

  lemma EarlierData(m: Mbuf, m': Mbuf, k: nat)
    requires m.off + m.len <= |m.buf| && k <= m.off && m'.buf == m.buf && m'.off == m.off - k && m'.len == m.len + k
    ensures |Data(m')| == |Data(m)| + k && Data(m')[k..] == Data(m)
  {
    SubSlice(m.buf, m.off - k, m.off + m.len, k, m.len + k);
  }

  lemma FlatFirst(c: seq<Mbuf>, m: Mbuf)
    requires c != []
    ensures Flat([m] + c[1..]) == Data(m) + Flat(c[1..]) && Flat(c) == Data(c[0]) + Flat(c[1..])
  {
    assert ([m] + c[1..])[1..] == c[1..];
  }
}
