/** The heap as its blocks in address order, and what splitting and merging do. */
module HeapModel {
  import opened Common
  import opened HeapRing

  const HEADER := 16
  const FREE_HEADER := 24
  datatype Kind = Head | Used | Free

  /** Every size and every kind a block header records. */
  type Sizes = map<Addr, nat>
  type Kinds = map<Addr, Kind>

  /** The size malloc asks for: room for the header, rounded up, in 32 bits. */
  function RoundUp(size: nat): nat {
    (size + 2 * HEADER - 1) % WORD32 / HEADER * HEADER
  }

  /** The rounded size has room for the header and the request exactly when the sum does not wrap. */
  lemma RoundUpRoom(size: nat)
    requires size < WORD32
    ensures size + HEADER <= RoundUp(size) <==> size <= WORD32 - 2 * HEADER
    ensures size <= WORD32 - 2 * HEADER ==> RoundUp(size) < size + 2 * HEADER
    ensures 0 < size <= WORD32 - 2 * HEADER ==> RoundUp(size) >= 2 * HEADER
  {
    var s := size + 2 * HEADER - 1;
    if s < WORD32 {
      assert s % WORD32 == s;
      assert s / HEADER * HEADER == s - s % HEADER;
    } else {
      assert s % WORD32 == s - WORD32;
    }
  }

  /** Every larger request wraps, to a block that has no room for the request or none at all. */
  lemma RoundUpWraps(size: nat)
    requires WORD32 - 2 * HEADER < size < WORD32
    ensures RoundUp(size) == if size <= WORD32 - HEADER then 0 else HEADER
  {
    var s := size + 2 * HEADER - 1;
    assert s % WORD32 == s - WORD32;
    assert (s - WORD32) / HEADER == if size <= WORD32 - HEADER then 0 else 1;
  }

  function SizeOf(size: Sizes, a: Addr): nat {
    if a in size then size[a] else 0
  }

  function KindOf(kind: Kinds, a: Addr): Kind {
    if a in kind then kind[a] else Head
  }

  function End(size: Sizes, a: Addr): nat {
    a + SizeOf(size, a)
  }

  // ------------------------------------------------------------ order and touching

  /** Block `i` ends before block `i + 1` begins. */
  ghost predicate Below(size: Sizes, l: seq<Addr>, i: nat)
    requires i + 1 < |l|
  {
    End(size, l[i]) <= l[i + 1]
  }

  ghost predicate Ordered(size: Sizes, l: seq<Addr>) {
    forall i {:trigger Below(size, l, i)} :: 0 <= i && i + 1 < |l| ==> Below(size, l, i)
  }

  /** Blocks `i` and `i + 1` are free and touch. */
  ghost predicate Touch(size: Sizes, kind: Kinds, l: seq<Addr>, i: nat)
    requires i + 1 < |l|
  {
    KindOf(kind, l[i]) == Free && KindOf(kind, l[i + 1]) == Free && End(size, l[i]) == l[i + 1]
  }

  /** No two free blocks touch, except perhaps at block `x`. */
  ghost predicate Apart(size: Sizes, kind: Kinds, l: seq<Addr>, x: Addr) {
    forall i {:trigger Touch(size, kind, l, i)} :: 0 <= i && i + 1 < |l| && l[i] != x && l[i + 1] != x ==>
        !Touch(size, kind, l, i)
  }

  ghost predicate Sized(size: Sizes, l: seq<Addr>) {
    forall a :: a in l ==> a in size && size[a] >= FREE_HEADER
  }

  /** Bytes in all blocks. */
  ghost function Total(size: Sizes, l: seq<Addr>): nat
    decreases |l|
  {
    if l == [] then 0 else SizeOf(size, l[0]) + Total(size, l[1..])
  }

  lemma {:induction false} TotalJoin(size: Sizes, a: seq<Addr>, b: seq<Addr>)
    ensures Total(size, a + b) == Total(size, a) + Total(size, b)
    decreases |a|
  {
    if a == [] {
      assert a + b == b;
    } else {
      assert (a + b)[1..] == a[1..] + b;
      TotalJoin(size, a[1..], b);
    }
  }

  lemma {:induction false} TotalFrame(size: Sizes, size': Sizes, l: seq<Addr>)
    requires forall a :: a in l ==> SizeOf(size', a) == SizeOf(size, a)
    ensures Total(size', l) == Total(size, l)
    decreases |l|
  {
    if l != [] {
      assert l[0] in l;
      assert forall a :: a in l[1..] ==> a in l;
      TotalFrame(size, size', l[1..]);
    }
  }

  /** Blocks further up begin above the end of those below. */
  lemma {:induction false} OrderedAbove(size: Sizes, l: seq<Addr>, i: nat, j: nat)
    requires Ordered(size, l) && i < j < |l|
    ensures End(size, l[i]) <= l[j]
    decreases j - i
  {
    assert Below(size, l, j - 1);
    if i < j - 1 {
      OrderedAbove(size, l, i, j - 1);
    }
  }

  // ------------------------------------------------------------ merging block i + 1 into block i

  ghost function Merged(size: Sizes, a: Addr, b: Addr): Sizes {
    size[a := SizeOf(size, a) + SizeOf(size, b)]
  }

  lemma MergeOrdered(size: Sizes, l: seq<Addr>, i: nat)
    requires Ordered(size, l) && Distinct(l) && i + 1 < |l| && End(size, l[i]) == l[i + 1]
    ensures Ordered(Merged(size, l[i], l[i + 1]), DropAt(l, i + 1))
  {
    var size', d := Merged(size, l[i], l[i + 1]), DropAt(l, i + 1);
    forall j | 0 <= j && j + 1 < |d|
      ensures Below(size', d, j)
    {
      DropIndex(l, i + 1, j);
      DropIndex(l, i + 1, j + 1);
      if j < i {
        assert Below(size, l, j);
        assert l[j] != l[i];
      } else if j == i {
        assert Below(size, l, i + 1);
      } else {
        assert Below(size, l, j + 1);
        assert l[i] != l[j + 1];
      }
    }
  }

  lemma DropIndex(l: seq<Addr>, i: nat, j: nat)
    requires i < |l| && j < |l| - 1
    ensures DropAt(l, i)[j] == if j < i then l[j] else l[j + 1]
  {
  }

  lemma MergeTotal(size: Sizes, l: seq<Addr>, i: nat)
    requires Distinct(l) && i + 1 < |l|
    ensures Total(Merged(size, l[i], l[i + 1]), DropAt(l, i + 1)) == Total(size, l)
  {
    hide Distinct;
    var size', d := Merged(size, l[i], l[i + 1]), DropAt(l, i + 1);
    var a, b := l[..i], l[i + 2..];
    assert l == a + [l[i], l[i + 1]] + b && d == a + [l[i]] + b;
    NotAmong(l, i);
    TotalJoin(size, a + [l[i], l[i + 1]], b);
    TotalJoin(size, a, [l[i], l[i + 1]]);
    TotalJoin(size', a + [l[i]], b);
    TotalJoin(size', a, [l[i]]);
    TotalFrame(size, size', a);
    TotalFrame(size, size', b);
    PairTotal(size, size', l[i], l[i + 1]);
  }

  lemma PairTotal(size: Sizes, size': Sizes, x: Addr, y: Addr)
    requires SizeOf(size', x) == SizeOf(size, x) + SizeOf(size, y)
    ensures Total(size, [x, y]) == Total(size', [x])
  {
    assert [x, y][1..] == [y] && [y][1..] == [] && [x][1..] == [];
    assert Total(size, [y]) == SizeOf(size, y) + Total(size, []);
    assert Total(size, [x, y]) == SizeOf(size, x) + Total(size, [y]);
  }

  lemma NotAmong(l: seq<Addr>, i: nat)
    requires Distinct(l) && i + 1 < |l|
    ensures l[i] !in l[..i] && l[i] !in l[i + 2..]
  {
  }

  /** A merge of free blocks leaves no touching pair but those at the merged block. */
  lemma MergeApart(size: Sizes, kind: Kinds, l: seq<Addr>, i: nat, x: Addr)
    requires Apart(size, kind, l, x) && Distinct(l) && i + 1 < |l| && (x == l[i] || x == l[i + 1])
    requires End(size, l[i]) == l[i + 1]
    ensures Apart(Merged(size, l[i], l[i + 1]), kind, DropAt(l, i + 1), l[i])
  {
    var size', d := Merged(size, l[i], l[i + 1]), DropAt(l, i + 1);
    forall j | 0 <= j && j + 1 < |d| && d[j] != l[i] && d[j + 1] != l[i]
      ensures !Touch(size', kind, d, j)
    {
      DropIndex(l, i + 1, j);
      DropIndex(l, i + 1, j + 1);
      if j < i {
        assert l[j] != l[i + 1] && l[j + 1] != l[i + 1];
        assert !Touch(size, kind, l, j);
      } else {
        assert l[i] != l[j + 1] && l[i] != l[j + 2] && l[i + 1] != l[j + 1] && l[i + 1] != l[j + 2];
        assert !Touch(size, kind, l, j + 1);
      }
    }
  }

  // ------------------------------------------------------------ the blocks beside a freed one

  ghost predicate LeftClear(size: Sizes, kind: Kinds, l: seq<Addr>, i: nat)
    requires i < |l|
  {
    i > 0 ==> !Touch(size, kind, l, i - 1)
  }

  ghost predicate RightClear(size: Sizes, kind: Kinds, l: seq<Addr>, i: nat)
    requires i < |l|
  {
    i + 1 < |l| ==> !Touch(size, kind, l, i)
  }

  lemma AllApart(size: Sizes, kind: Kinds, l: seq<Addr>, i: nat)
    requires Distinct(l) && i < |l| && Apart(size, kind, l, l[i]) && LeftClear(size, kind, l, i) &&
             RightClear(size, kind, l, i)
    ensures Apart(size, kind, l, HEAD)
  {
    forall j | 0 <= j && j + 1 < |l|
      ensures !Touch(size, kind, l, j)
    {
      if j != i && j + 1 != i {
        if j < i {
          assert l[j] != l[i] && l[j + 1] != l[i];
        } else {
          assert l[i] != l[j] && l[i] != l[j + 1];
        }
      }
    }
  }

  /** A block between free neighbours that has swallowed the upper one touches none any more. */
  lemma MergeRightClear(size: Sizes, kind: Kinds, l: seq<Addr>, i: nat)
    requires Distinct(l) && i + 1 < |l| && Apart(size, kind, l, l[i]) && KindOf(kind, l[i + 1]) == Free &&
             End(size, l[i]) == l[i + 1]
    ensures RightClear(Merged(size, l[i], l[i + 1]), kind, DropAt(l, i + 1), i)
    ensures LeftClear(size, kind, l, i) ==> LeftClear(Merged(size, l[i], l[i + 1]), kind, DropAt(l, i + 1), i)
  {
    var size', d := Merged(size, l[i], l[i + 1]), DropAt(l, i + 1);
    DropIndex(l, i + 1, i);
    if i + 1 < |d| {
      DropIndex(l, i + 1, i + 1);
      assert l[i] != l[i + 1] && l[i] != l[i + 2] && !Touch(size, kind, l, i + 1);
    }
    if i > 0 {
      DropIndex(l, i + 1, i - 1);
      assert l[i - 1] != l[i];
    }
  }

  // ------------------------------------------------------------ splitting block i

  ghost function Split(size: Sizes, a: Addr, n: nat): Sizes {
    size[a := n][a + n := if SizeOf(size, a) > n then SizeOf(size, a) - n else 0]
  }

  /** The upper part of a block lies strictly inside it, so it is no block yet. */
  lemma SplitFresh(size: Sizes, l: seq<Addr>, i: nat, n: nat)
    requires Ordered(size, l) && Sized(size, l) && i < |l| && 0 < n < SizeOf(size, l[i])
    ensures l[i] + n !in l
  {
    forall j | 0 <= j < |l|
      ensures l[j] != l[i] + n
    {
      if j < i {
        OrderedAbove(size, l, j, i);
        assert l[j] in l;
      } else if j > i {
        OrderedAbove(size, l, i, j);
      }
    }
  }

  lemma SplitOrdered(size: Sizes, l: seq<Addr>, i: nat, n: nat)
    requires Ordered(size, l) && Distinct(l) && i < |l| && 0 < n < SizeOf(size, l[i]) && l[i] + n !in l
    ensures Ordered(Split(size, l[i], n), InsertAt(l, i + 1, l[i] + n))
  {
    var size', d := Split(size, l[i], n), InsertAt(l, i + 1, l[i] + n);
    forall j | 0 <= j && j + 1 < |d|
      ensures Below(size', d, j)
    {
      InsertIndex(l, i + 1, l[i] + n, j);
      InsertIndex(l, i + 1, l[i] + n, j + 1);
      if j < i {
        assert l[j] != l[i] && l[j] in l;
        assert Below(size, l, j);
      } else if j == i + 1 {
        assert Below(size, l, i);
      } else if j > i + 1 {
        assert l[i] != l[j - 1] && l[j - 1] in l;
        assert Below(size, l, j - 1);
      }
    }
  }

  lemma InsertIndex(l: seq<Addr>, i: nat, x: Addr, j: nat)
    requires i <= |l| && j <= |l|
    ensures InsertAt(l, i, x)[j] == if j < i then l[j] else if j == i then x else l[j - 1]
  {
  }

  lemma SplitTotal(size: Sizes, l: seq<Addr>, i: nat, n: nat)
    requires Distinct(l) && i < |l| && 0 < n < SizeOf(size, l[i]) && l[i] + n !in l
    ensures Total(Split(size, l[i], n), InsertAt(l, i + 1, l[i] + n)) == Total(size, l)
  {
    var size', x := Split(size, l[i], n), l[i] + n;
    var d := InsertAt(l, i + 1, x);
    InsertDistinct(l, i + 1, x);
    assert d[i] == l[i] && d[i + 1] == x;
    MergeTotal(size', d, i);
    assert DropAt(d, i + 1) == l;
    TotalFrame(size, Merged(size', l[i], x), l);
  }

  lemma SplitApart(size: Sizes, kind: Kinds, l: seq<Addr>, i: nat, n: nat)
    requires Apart(size, kind, l, HEAD) && Distinct(l) && i < |l| && 0 < n < SizeOf(size, l[i]) && l[i] + n !in l &&
             KindOf(kind, l[i]) == Free
    ensures Apart(Split(size, l[i], n), kind[l[i] := Used][l[i] + n := Free], InsertAt(l, i + 1, l[i] + n), HEAD)
  {
    var size', kind', d := Split(size, l[i], n), kind[l[i] := Used][l[i] + n := Free], InsertAt(l, i + 1, l[i] + n);
    forall j | 0 <= j && j + 1 < |d|
      ensures !Touch(size', kind', d, j)
    {
      InsertIndex(l, i + 1, l[i] + n, j);
      InsertIndex(l, i + 1, l[i] + n, j + 1);
      if j < i {
        assert l[j] in l && l[j + 1] in l && l[j] != l[i] && l[j] != HEAD && l[j + 1] != HEAD;
        assert !Touch(size, kind, l, j);
      } else if j == i + 1 {
        assert l[i] in l && l[i + 1] in l && l[i] != l[i + 1] && l[i] != HEAD && l[i + 1] != HEAD;
        assert !Touch(size, kind, l, i);
      } else if j > i + 1 {
        assert l[j - 1] in l && l[j] in l && l[i] != l[j - 1] && l[i] != l[j] && l[j - 1] != HEAD && l[j] != HEAD;
        assert !Touch(size, kind, l, j - 1);
      }
    }
  }

  /** Taking a free block away makes no two others touch. */
  lemma UsedApart(size: Sizes, kind: Kinds, l: seq<Addr>, a: Addr)
    requires Apart(size, kind, l, HEAD) && Distinct(l)
    ensures Apart(size, kind[a := Used], l, HEAD)
  {
    var kind' := kind[a := Used];
    forall j | 0 <= j && j + 1 < |l|
      ensures !Touch(size, kind', l, j)
    {
      assert l[j] in l && l[j + 1] in l && l[j] != HEAD && l[j + 1] != HEAD;
      assert !Touch(size, kind, l, j);
    }
  }

  // ------------------------------------------------------------ a new block

  /** Memory that no block lies in. */
  ghost predicate Fresh(size: Sizes, l: seq<Addr>, a: Addr, n: nat) {
    a != HEAD && forall b :: b in l ==> End(size, b) <= a || a + n <= b
  }

  lemma NewOrdered(size: Sizes, l: seq<Addr>, i: nat, a: Addr, n: nat)
    requires Ordered(size, l) && i <= |l| && a !in l && Fresh(size, l, a, n) && n > 0 && Sized(size, l)
    requires (i > 0 ==> l[i - 1] < a) && (i < |l| ==> a < l[i])
    ensures Ordered(size[a := n], InsertAt(l, i, a))
  {
    var size', d := size[a := n], InsertAt(l, i, a);
    forall j | 0 <= j && j + 1 < |d|
      ensures Below(size', d, j)
    {
      InsertIndex(l, i, a, j);
      InsertIndex(l, i, a, j + 1);
      if j + 1 < i {
        assert l[j] in l && Below(size, l, j);
      } else if j + 1 == i {
        assert l[j] in l;
      } else if j == i {
        assert l[i] in l;
      } else {
        assert l[j - 1] in l && Below(size, l, j - 1);
      }
    }
  }

  lemma NewTotal(size: Sizes, l: seq<Addr>, i: nat, a: Addr, n: nat)
    requires i <= |l| && a !in l
    ensures Total(size[a := n], InsertAt(l, i, a)) == Total(size, l) + n
  {
    var size' := size[a := n];
    assert l == l[..i] + l[i..];
    TotalJoin(size, l[..i], l[i..]);
    TotalJoin(size', l[..i] + [a], l[i..]);
    TotalJoin(size', l[..i], [a]);
    TotalFrame(size, size', l[..i]);
    TotalFrame(size, size', l[i..]);
    assert Total(size', [a]) == n + Total(size', []);
  }

  lemma NewApart(size: Sizes, kind: Kinds, l: seq<Addr>, i: nat, a: Addr, n: nat)
    requires Apart(size, kind, l, HEAD) && Distinct(l) && i <= |l| && a !in l
    ensures Apart(size[a := n], kind[a := Free], InsertAt(l, i, a), a)
  {
    var size', kind', d := size[a := n], kind[a := Free], InsertAt(l, i, a);
    forall j | 0 <= j && j + 1 < |d| && d[j] != a && d[j + 1] != a
      ensures !Touch(size', kind', d, j)
    {
      InsertIndex(l, i, a, j);
      InsertIndex(l, i, a, j + 1);
      var k := if j < i then j else j - 1;
      assert l[k] in l && l[k + 1] in l && l[k] != HEAD && l[k + 1] != HEAD;
      assert !Touch(size, kind, l, k);
    }
  }
}
