/** qsort, which is a comb sort. */
module CombSort {
  import opened Common
  import opened Bytes

  /** newgap, in 32 bits: the product may wrap. */
  function NewGap(gap: nat): nat {
    var g := gap * 10 % WORD32 / 13;
    if g == 9 || g == 10 then 11 else if g < 1 then 1 else g
  }

  /** The gap shrinks strictly until it is 1, even where the product wraps. */
  lemma NewGapShrinks(gap: nat)
    requires 0 < gap < WORD32
    ensures 1 <= NewGap(gap) && (gap == 1 ==> NewGap(gap) == 1) && (gap > 1 ==> NewGap(gap) < gap)
  {
    if gap * 10 >= WORD32 {
      assert gap * 10 % WORD32 / 13 <= (WORD32 - 1) / 13;
    }
  }

  /** The comparison is a total preorder. */
  ghost predicate Preorder<T(!new)>(cmp: (T, T) -> int) {
    && (forall x, y :: cmp(x, y) <= 0 || cmp(y, x) <= 0)
    && forall x, y, z :: cmp(x, y) <= 0 && cmp(y, z) <= 0 ==> cmp(x, z) <= 0
  }

  ghost predicate Sorted<T>(cmp: (T, T) -> int, s: seq<T>) {
    forall i, j :: 0 <= i < j < |s| ==> cmp(s[i], s[j]) <= 0
  }

  /** The first `n` entries are in order, each with the next. */
  ghost predicate Stepwise<T>(cmp: (T, T) -> int, s: seq<T>, n: nat) {
    forall k {:trigger s[k]} :: 0 < k < n && k < |s| ==> cmp(s[k - 1], s[k]) <= 0
  }

  lemma {:induction false} StepwiseFar<T(!new)>(cmp: (T, T) -> int, s: seq<T>, i: nat, j: nat)
    requires Preorder(cmp) && Stepwise(cmp, s, |s|) && i < j < |s|
    ensures cmp(s[i], s[j]) <= 0
    decreases j - i
  {
    assert cmp(s[j - 1], s[j]) <= 0;
    if i < j - 1 {
      StepwiseFar(cmp, s, i, j - 1);
      assert cmp(s[i], s[j - 1]) <= 0;
    }
  }

  lemma StepwiseSorted<T(!new)>(cmp: (T, T) -> int, s: seq<T>)
    requires Preorder(cmp) && Stepwise(cmp, s, |s|)
    ensures Sorted(cmp, s)
  {
    hide Preorder, Stepwise;
    forall i, j | 0 <= i < j < |s|
      ensures cmp(s[i], s[j]) <= 0
    {
      StepwiseFar(cmp, s, i, j);
    }
  }

  // ------------------------------------------------------------ inversions

  /** How many entries of `t` should come before `x`. */
  ghost function Smaller<T>(cmp: (T, T) -> int, x: T, t: seq<T>): nat
    decreases |t|
  {
    if t == [] then 0 else (if cmp(x, t[0]) > 0 then 1 else 0) + Smaller(cmp, x, t[1..])
  }

  /** Pairs that are in the wrong order. */
  ghost function Inversions<T>(cmp: (T, T) -> int, s: seq<T>): nat
    decreases |s|
  {
    if s == [] then 0 else Smaller(cmp, s[0], s[1..]) + Inversions(cmp, s[1..])
  }

  lemma {:induction false} SmallerJoin<T>(cmp: (T, T) -> int, x: T, a: seq<T>, b: seq<T>)
    ensures Smaller(cmp, x, a + b) == Smaller(cmp, x, a) + Smaller(cmp, x, b)
    decreases |a|
  {
    if a == [] {
      assert a + b == b;
    } else {
      assert (a + b)[1..] == a[1..] + b;
      SmallerJoin(cmp, x, a[1..], b);
    }
  }

  lemma SmallerPair<T>(cmp: (T, T) -> int, x: T, a: T, b: T)
    ensures Smaller(cmp, x, [a, b]) == Smaller(cmp, x, [b, a])
  {
    assert [a, b][1..] == [b] && [b, a][1..] == [a] && [a][1..] == [] && [b][1..] == [];
    assert Smaller(cmp, x, [a]) == (if cmp(x, a) > 0 then 1 else 0) + Smaller(cmp, x, []);
    assert Smaller(cmp, x, [b]) == (if cmp(x, b) > 0 then 1 else 0) + Smaller(cmp, x, []);
  }

  /** Exchanging two neighbours that are in the wrong order takes away exactly one inversion. */
  lemma {:induction false} SwapInversions<T(!new)>(cmp: (T, T) -> int, p: seq<T>, a: T, b: T, r: seq<T>)
    requires Preorder(cmp) && cmp(a, b) > 0
    ensures Inversions(cmp, p + [b, a] + r) == Inversions(cmp, p + [a, b] + r) - 1
    decreases |p|
  {
    hide Preorder, Smaller;
    if p == [] {
      assert p + [b, a] + r == [b] + ([a] + r) && p + [a, b] + r == [a] + ([b] + r);
      TwoHeads(cmp, a, b, r);
    } else {
      var x, q := p[0], p[1..];
      assert (p + [b, a] + r)[1..] == q + [b, a] + r && (p + [a, b] + r)[1..] == q + [a, b] + r;
      SwapInversions(cmp, q, a, b, r);
      SmallerJoin(cmp, x, q + [b, a], r);
      SmallerJoin(cmp, x, q, [b, a]);
      SmallerJoin(cmp, x, q + [a, b], r);
      SmallerJoin(cmp, x, q, [a, b]);
      SmallerPair(cmp, x, a, b);
    }
  }

  lemma TwoHeads<T(!new)>(cmp: (T, T) -> int, a: T, b: T, r: seq<T>)
    requires Preorder(cmp) && cmp(a, b) > 0
    ensures Inversions(cmp, [b] + ([a] + r)) == Inversions(cmp, [a] + ([b] + r)) - 1
  {
    assert ([a] + r)[1..] == r && ([b] + r)[1..] == r;
    assert ([b] + ([a] + r))[1..] == [a] + r && ([a] + ([b] + r))[1..] == [b] + r;
    assert cmp(b, a) <= 0;
    assert Smaller(cmp, b, [a] + r) == Smaller(cmp, b, r);
    assert Smaller(cmp, a, [b] + r) == 1 + Smaller(cmp, a, r);
  }

  // ------------------------------------------------------------ the sort

  ghost function Swapped<T>(s: seq<T>, i: nat, j: nat): seq<T>
    requires i < |s| && j < |s|
  {
    s[i := s[j]][j := s[i]]
  }

  lemma SwapPermutes<T>(s: seq<T>, i: nat, j: nat)
    requires i < j < |s|
    ensures multiset(Swapped(s, i, j)) == multiset(s)
  {
    var p, q, r := s[..i], s[i + 1..j], s[j + 1..];
    assert s == p + [s[i]] + q + [s[j]] + r;
    assert Swapped(s, i, j) == p + [s[j]] + q + [s[i]] + r;
  }

  lemma SwapNeighbours<T(!new)>(cmp: (T, T) -> int, s: seq<T>, i: nat)
    requires Preorder(cmp) && i + 1 < |s| && cmp(s[i], s[i + 1]) > 0
    ensures Inversions(cmp, Swapped(s, i, i + 1)) < Inversions(cmp, s)
  {
    hide Preorder, Inversions;
    SwapInversions(cmp, s[..i], s[i], s[i + 1], s[i + 2..]);
    assert s == s[..i] + [s[i], s[i + 1]] + s[i + 2..];
    assert Swapped(s, i, i + 1) == s[..i] + [s[i + 1], s[i]] + s[i + 2..];
  }

  /** One pass with a fixed gap.  With gap 1 it either finds everything in order or takes away
      inversions. */
  method Pass<T(!new)>(a: array<T>, cmp: (T, T) -> int, gap: nat) returns (swapped: bool)
    requires Preorder(cmp) && 0 < gap <= a.Length
    modifies a
    ensures multiset(a[..]) == multiset(old(a[..]))
    ensures gap == 1 && !swapped ==> Sorted(cmp, a[..])
    ensures gap == 1 && swapped ==> Inversions(cmp, a[..]) < Inversions(cmp, old(a[..]))
  {
    hide Preorder, Inversions, Sorted, Stepwise;
    swapped := false;
    StepwiseNone(cmp, a[..]);
    for i := 0 to a.Length - gap
      invariant multiset(a[..]) == multiset(old(a[..]))
      invariant gap == 1 && !swapped ==> Stepwise(cmp, a[..], i + 1) && a[..] == old(a[..])
      invariant gap == 1 && swapped ==> Inversions(cmp, a[..]) < Inversions(cmp, old(a[..]))
    {
      var j := i + gap;
      ghost var s := a[..];
      if cmp(a[i], a[j]) > 0 {
        a[i], a[j] := a[j], a[i];
        assert a[..] == Swapped(s, i, j);
        SwapPermutes(s, i, j);
        if gap == 1 {
          SwapNeighbours(cmp, s, i);
        }
        swapped := true;
      } else if gap == 1 && !swapped {
        StepwiseMore(cmp, s, i + 1);
      }
    }
    if gap == 1 && !swapped {
      StepwiseSorted(cmp, a[..]);
    }
  }

  lemma StepwiseNone<T>(cmp: (T, T) -> int, s: seq<T>)
    ensures Stepwise(cmp, s, 1)
  {
  }

  lemma StepwiseMore<T>(cmp: (T, T) -> int, s: seq<T>, n: nat)
    requires Stepwise(cmp, s, n) && 0 < n < |s| && cmp(s[n - 1], s[n]) <= 0
    ensures Stepwise(cmp, s, n + 1)
  {
  }

  /** qsort: a sorted permutation, for every array and every total preorder. */
  method Qsort<T(!new)>(a: array<T>, cmp: (T, T) -> int)
    requires Preorder(cmp) && a.Length < WORD32
    modifies a
    ensures multiset(a[..]) == multiset(old(a[..])) && Sorted(cmp, a[..])
  {
    hide Preorder, Inversions, NewGap;
    if a.Length == 0 {
      return;
    }
    var gap := a.Length;
    var again := true;
    while again
      invariant 0 < gap <= a.Length && multiset(a[..]) == multiset(old(a[..]))
      invariant !again ==> Sorted(cmp, a[..])
      decreases gap, if again then Inversions(cmp, a[..]) + 1 else 0
    {
      NewGapShrinks(gap);
      gap := NewGap(gap);
      var swapped := Pass(a, cmp, gap);
      again := gap > 1 || swapped;
    }
  }

  /** memswap: the two areas of `n` bytes exchange their contents. */
  method MemSwap(m: array<byte>, p: nat, q: nat, n: nat)
    requires p + n <= q && q + n <= m.Length
    modifies m
    ensures m[p..p + n] == old(m[q..q + n]) && m[q..q + n] == old(m[p..p + n])
    ensures m[..p] == old(m[..p]) && m[p + n..q] == old(m[p + n..q]) && m[q + n..] == old(m[q + n..])
  {
    for i := 0 to n
      invariant forall k :: 0 <= k < m.Length ==>
                              m[k] == if p <= k < p + i then old(m[q - p + k])
                                  else if q <= k < q + i then old(m[p - q + k]) else old(m[k])
    {
      var tmp := m[p + i];
      m[p + i] := m[q + i];
      m[q + i] := tmp;
    }
  }
}
