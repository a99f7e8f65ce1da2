/** Doubly linked rings with a head node, as pairs of link maps. */
module HeapRing {
  type Addr = nat
  type Links = map<Addr, Addr>

  /** The head node, which is not a block. */
  const HEAD: Addr := 0

  /** Position `i` of the ring: the head, the entries, the head again. */
  function At(l: seq<Addr>, i: nat): Addr {
    if 0 < i <= |l| then l[i - 1] else HEAD
  }

  ghost predicate Link(next: Links, prev: Links, a: Addr, b: Addr) {
    a in next && next[a] == b && b in prev && prev[b] == a
  }

  ghost predicate LinkAt(next: Links, prev: Links, l: seq<Addr>, i: nat) {
    Link(next, prev, At(l, i), At(l, i + 1))
  }

  ghost predicate Distinct(l: seq<Addr>) {
    HEAD !in l && forall i, j :: 0 <= i < j < |l| ==> l[i] != l[j]
  }

  /** `next` and `prev` link the head and the entries of `l`, in this order, into a ring. */
  ghost predicate Ring(next: Links, prev: Links, l: seq<Addr>) {
    Distinct(l) && forall i :: 0 <= i <= |l| ==> LinkAt(next, prev, l, i)
  }

  ghost function InsertAt(l: seq<Addr>, i: nat, x: Addr): seq<Addr>
    requires i <= |l|
  {
    l[..i] + [x] + l[i..]
  }

  ghost function DropAt(l: seq<Addr>, i: nat): seq<Addr>
    requires i < |l|
  {
    l[..i] + l[i + 1..]
  }

  lemma AtDiffers(l: seq<Addr>, i: nat, j: nat)
    requires Distinct(l) && i <= |l| && j <= |l| && i != j
    ensures At(l, i) != At(l, j)
  {
    if i > 0 && j > 0 {
      assert l[i - 1] in l && l[j - 1] in l;
      if i < j {
        assert l[i - 1] != l[j - 1];
      } else {
        assert l[j - 1] != l[i - 1];
      }
    } else if i > 0 {
      assert l[i - 1] in l;
    } else {
      assert l[j - 1] in l;
    }
  }

  lemma AtIn(l: seq<Addr>, i: nat)
    ensures At(l, i) == HEAD || At(l, i) in l
  {
  }

  lemma DropDistinct(l: seq<Addr>, i: nat)
    requires Distinct(l) && i < |l|
    ensures Distinct(DropAt(l, i)) && l[i] !in DropAt(l, i) && forall x :: x in DropAt(l, i) <==> x in l && x != l[i]
  {
    var d := DropAt(l, i);
    forall k | 0 <= k < |d|
      ensures d[k] == (if k < i then l[k] else l[k + 1]) && d[k] in l && d[k] != l[i]
    {
    }
    forall x | x in l && x != l[i]
      ensures x in d
    {
      var k :| 0 <= k < |l| && l[k] == x;
      assert if k < i then d[k] == x else d[k - 1] == x;
    }
  }

  lemma InsertDistinct(l: seq<Addr>, i: nat, x: Addr)
    requires Distinct(l) && i <= |l| && x !in l && x != HEAD
    ensures Distinct(InsertAt(l, i, x)) && forall y :: y in InsertAt(l, i, x) <==> y in l || y == x
  {
    var d := InsertAt(l, i, x);
    forall k | 0 <= k < |d|
      ensures d[k] == (if k < i then l[k] else if k == i then x else l[k - 1])
    {
    }
    forall y | y in l
      ensures y in d
    {
      var k :| 0 <= k < |l| && l[k] == y;
      assert if k < i then d[k] == y else d[k + 1] == y;
    }
    assert d[i] == x;
  }

  /** Positions of the ring after an entry has gone. */
  lemma DropPositions(l: seq<Addr>, i: nat, j: nat)
    requires i < |l| && j <= |l|
    ensures At(DropAt(l, i), j) == if j <= i then At(l, j) else At(l, j + 1)
  {
  }

  lemma InsertPositions(l: seq<Addr>, i: nat, x: Addr, j: nat)
    requires i <= |l| && j <= |l| + 2
    ensures At(InsertAt(l, i, x), j) == if j <= i then At(l, j) else if j == i + 1 then x else At(l, j - 1)
  {
  }

  /** Unlinking an entry takes it off the ring. */
  lemma RingDrop(next: Links, prev: Links, l: seq<Addr>, i: nat)
    requires Ring(next, prev, l) && i < |l|
    ensures
      var p, n := At(l, i), At(l, i + 2);
      && p in next && n in prev && l[i] in next && l[i] in prev && next[l[i]] == n && prev[l[i]] == p
      && Ring(next[p := n], prev[n := p], DropAt(l, i))
  {
    hide Distinct;
    var p, n := At(l, i), At(l, i + 2);
    assert LinkAt(next, prev, l, i) && LinkAt(next, prev, l, i + 1);
    assert At(l, i + 1) == l[i];
    DropDistinct(l, i);
    var next', prev', d := next[p := n], prev[n := p], DropAt(l, i);
    forall j | 0 <= j <= |d|
      ensures LinkAt(next', prev', d, j)
    {
      DropPositions(l, i, j);
      DropPositions(l, i, j + 1);
      if j < i {
        assert LinkAt(next, prev, l, j);
        AtDiffers(l, j, i);
        NextDiffers(l, j + 1, i + 2);
      } else if j > i {
        assert LinkAt(next, prev, l, j + 1);
        AtDiffers(l, j + 1, i);
        NextDiffers(l, i + 2, j + 2);
      }
    }
  }

  /** Targets of different links differ too. */
  lemma NextDiffers(l: seq<Addr>, i: nat, j: nat)
    requires Distinct(l) && 0 < i < j <= |l| + 1
    ensures At(l, i) != At(l, j)
  {
    if j == |l| + 1 {
      AtDiffers(l, i, 0);
    } else {
      AtDiffers(l, i, j);
    }
  }

  /** Linking a new entry in behind position `i`. */
  lemma RingInsert(next: Links, prev: Links, l: seq<Addr>, i: nat, x: Addr)
    requires Ring(next, prev, l) && i <= |l| && x !in l && x != HEAD
    ensures
      var p, n := At(l, i), At(l, i + 1);
      && p in next && n in prev && next[p] == n && prev[n] == p
      && Ring(next[p := x][x := n], prev[n := x][x := p], InsertAt(l, i, x))
  {
    hide Distinct;
    var p, n := At(l, i), At(l, i + 1);
    assert LinkAt(next, prev, l, i);
    AtIn(l, i);
    AtIn(l, i + 1);
    InsertDistinct(l, i, x);
    var next', prev', d := next[p := x][x := n], prev[n := x][x := p], InsertAt(l, i, x);
    forall j | 0 <= j <= |d|
      ensures LinkAt(next', prev', d, j)
    {
      InsertPositions(l, i, x, j);
      InsertPositions(l, i, x, j + 1);
      if j < i {
        assert LinkAt(next, prev, l, j);
        AtDiffers(l, j, i);
        NextDiffers(l, j + 1, i + 1);
        AtIn(l, j);
        AtIn(l, j + 1);
      } else if j > i + 1 {
        assert LinkAt(next, prev, l, j - 1);
        AtDiffers(l, j - 1, i);
        NextDiffers(l, i + 1, j);
        AtIn(l, j - 1);
        AtIn(l, j);
      }
    }
  }

  /** Putting a new entry in the place of another. */
  lemma RingReplace(next: Links, prev: Links, l: seq<Addr>, i: nat, x: Addr)
    requires Ring(next, prev, l) && i < |l| && x !in l && x != HEAD
    ensures
      var p, n := At(l, i), At(l, i + 2);
      && p in next && n in prev && l[i] in next && l[i] in prev && next[l[i]] == n && prev[l[i]] == p && p != x
      && n != x
      && Ring(next[p := x][x := n], prev[n := x][x := p], l[i := x]) && l[i] !in l[i := x]
  {
    hide Distinct;
    var p, n := At(l, i), At(l, i + 2);
    RingDrop(next, prev, l, i);
    DropDistinct(l, i);
    AtIn(l, i);
    AtIn(l, i + 2);
    var next': Links := next[p := n];
    var prev': Links := prev[n := p];
    var d := DropAt(l, i);
    RingInsert(next', prev', d, i, x);
    DropPositions(l, i, i);
    DropPositions(l, i, i + 1);
    assert InsertAt(d, i, x) == l[i := x];
    assert next'[p := x][x := n] == next[p := x][x := n];
    assert prev'[n := x][x := p] == prev[n := x][x := p];
    InsertDistinct(d, i, x);
  }

  /** Where a ring leads from a known entry. */
  lemma RingAt(next: Links, prev: Links, l: seq<Addr>, i: nat)
    requires Ring(next, prev, l) && i <= |l|
    ensures At(l, i) in next && next[At(l, i)] == At(l, i + 1) && At(l, i + 1) in prev && prev[At(l, i + 1)] == At(l, i)
    ensures i > 0 ==> At(l, i) == l[i - 1] && At(l, i) != HEAD && l[i - 1] in prev && prev[l[i - 1]] == At(l, i - 1)
  {
    assert LinkAt(next, prev, l, i);
    if i > 0 {
      assert LinkAt(next, prev, l, i - 1);
      assert l[i - 1] in l;
    }
  }
}
