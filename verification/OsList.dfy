/** The linked lists of the kernel: kept in order of a key by inserting each entry
    before the first one with a greater key. */
module OsList {
  import opened Common

  type Keys = map<nat, int>

  ghost function Key(keys: Keys, x: nat): int {
    if x in keys then keys[x] else 0
  }

  ghost predicate AllAbove(keys: Keys, x: nat, s: seq<nat>) {
    forall y :: y in s ==> Key(keys, x) <= Key(keys, y)
  }

  ghost predicate Sorted(keys: Keys, s: seq<nat>)
    decreases |s|
  {
    s == [] || (AllAbove(keys, s[0], s[1..]) && Sorted(keys, s[1..]))
  }

  /** `x` goes before the first entry with a greater key. */
  ghost function Insert(keys: Keys, s: seq<nat>, x: nat): seq<nat>
    decreases |s|
  {
    if s == [] || Key(keys, x) < Key(keys, s[0]) then [x] + s
    else [s[0]] + Insert(keys, s[1..], x)
  }

  function Remove(s: seq<nat>, x: nat): seq<nat>
    decreases |s|
  {
    if s == [] then [] else if s[0] == x then s[1..] else [s[0]] + Remove(s[1..], x)
  }

  lemma {:induction false} InsertElems(keys: Keys, s: seq<nat>, x: nat)
    ensures forall y :: y in Insert(keys, s, x) <==> y == x || y in s
    ensures |Insert(keys, s, x)| == |s| + 1
    decreases |s|
  {
    if s != [] && Key(keys, x) >= Key(keys, s[0]) {
      InsertElems(keys, s[1..], x);
      assert forall y :: y in s <==> y == s[0] || y in s[1..];
    }
  }

  lemma {:induction false} InsertSorted(keys: Keys, s: seq<nat>, x: nat)
    requires Sorted(keys, s)
    ensures Sorted(keys, Insert(keys, s, x))
    decreases |s|
  {
    var r := Insert(keys, s, x);
    if s != [] {
      assert forall y :: y in s <==> y == s[0] || y in s[1..];
      if Key(keys, x) < Key(keys, s[0]) {
        assert r[1..] == s;
      } else {
        InsertSorted(keys, s[1..], x);
        InsertElems(keys, s[1..], x);
        assert r[1..] == Insert(keys, s[1..], x);
      }
    }
  }

  lemma {:induction false} InsertDistinct(keys: Keys, s: seq<nat>, x: nat)
    requires NoDup(s) && x !in s
    ensures NoDup(Insert(keys, s, x))
    decreases |s|
  {
    var r := Insert(keys, s, x);
    if s == [] || Key(keys, x) < Key(keys, s[0]) {
      assert r[1..] == s;
    } else {
      InsertDistinct(keys, s[1..], x);
      InsertElems(keys, s[1..], x);
      assert r[1..] == Insert(keys, s[1..], x);
    }
  }

  lemma {:induction false} RemoveElems(s: seq<nat>, x: nat)
    requires NoDup(s)
    ensures forall y :: y in Remove(s, x) <==> y in s && y != x
    ensures x in s ==> |Remove(s, x)| == |s| - 1
    decreases |s|
  {
    if s != [] {
      assert forall y :: y in s <==> y == s[0] || y in s[1..];
      RemoveElems(s[1..], x);
    }
  }

  lemma {:induction false} RemoveDistinct(s: seq<nat>, x: nat)
    requires NoDup(s)
    ensures NoDup(Remove(s, x))
    decreases |s|
  {
    if s != [] && s[0] != x {
      RemoveDistinct(s[1..], x);
      RemoveElems(s[1..], x);
      assert Remove(s, x)[1..] == Remove(s[1..], x);
    }
  }

  lemma {:induction false} RemoveSorted(keys: Keys, s: seq<nat>, x: nat)
    requires NoDup(s) && Sorted(keys, s)
    ensures Sorted(keys, Remove(s, x))
    decreases |s|
  {
    if s != [] && s[0] != x {
      RemoveSorted(keys, s[1..], x);
      RemoveElems(s[1..], x);
      assert Remove(s, x)[1..] == Remove(s[1..], x);
    }
  }

  ghost predicate SameKeys(keys: Keys, keys': Keys, s: seq<nat>) {
    forall y :: y in s ==> Key(keys', y) == Key(keys, y)
  }

  lemma {:induction false} SortedFrame(keys: Keys, keys': Keys, s: seq<nat>)
    requires SameKeys(keys, keys', s)
    ensures Sorted(keys', s) == Sorted(keys, s)
    decreases |s|
  {
    if s != [] {
      assert s[0] in s;
      assert forall y :: y in s[1..] ==> y in s;
      SortedFrame(keys, keys', s[1..]);
    }
  }

  lemma SortedHead(keys: Keys, s: seq<nat>, y: nat)
    requires Sorted(keys, s) && y in s
    ensures Key(keys, s[0]) <= Key(keys, y)
  {
    assert y == s[0] || y in s[1..];
  }

  /** What a scan for the place of `x` has passed. */
  ghost predicate Passed(keys: Keys, s: seq<nat>, x: nat, i: nat) {
    i <= |s| && forall j :: 0 <= j < i ==> Key(keys, s[j]) <= Key(keys, x)
  }

  /** The place a scan finds is where Insert puts the new entry. */
  lemma {:induction false} InsertAt(keys: Keys, s: seq<nat>, x: nat, i: nat)
    requires Passed(keys, s, x, i) && (i < |s| ==> Key(keys, x) < Key(keys, s[i]))
    ensures Insert(keys, s, x) == s[..i] + [x] + s[i..]
    decreases i
  {
    if i > 0 {
      assert Key(keys, s[0]) <= Key(keys, x);
      forall j | 0 <= j < i - 1
        ensures Key(keys, s[1..][j]) <= Key(keys, x)
      {
        assert s[1..][j] == s[j + 1];
      }
      InsertAt(keys, s[1..], x, i - 1);
      assert s[1..][..i - 1] == s[1..i] && s[1..][i - 1..] == s[i..];
      assert s[..i] == [s[0]] + s[1..i];
    } else {
      assert s[..0] + [x] + s[0..] == [x] + s;
    }
  }

  /** `r` is `s` with `x` behind all entries with a key as small as its own and before the others. */
  ghost predicate Behind(keys: Keys, s: seq<nat>, x: nat, r: seq<nat>) {
    exists i {:trigger s[..i]} :: 0 <= i <= |s| && r == s[..i] + [x] + s[i..] &&
      forall j :: 0 <= j < |s| ==> (Key(keys, s[j]) <= Key(keys, x) <==> j < i)
  }

  /** First come, first served among equals. */
  lemma GoesBehind(keys: Keys, s: seq<nat>, x: nat)
    requires Sorted(keys, s)
    ensures Behind(keys, s, x, Insert(keys, s, x))
  {
    var i := InsertBehind(keys, s, x);
    assert s[..i] + [x] + s[i..] == Insert(keys, s, x);
  }

  lemma {:induction false} InsertBehind(keys: Keys, s: seq<nat>, x: nat) returns (i: nat)
    requires Sorted(keys, s)
    ensures i <= |s| && Insert(keys, s, x) == s[..i] + [x] + s[i..]
    ensures forall j :: 0 <= j < |s| ==> (Key(keys, s[j]) <= Key(keys, x) <==> j < i)
    decreases |s|
  {
    if s == [] || Key(keys, x) < Key(keys, s[0]) {
      i := 0;
      forall j | 0 <= j < |s|
        ensures Key(keys, x) < Key(keys, s[j])
      {
        SortedHead(keys, s, s[j]);
      }
    } else {
      i := InsertBehind(keys, s[1..], x);
      i := i + 1;
      assert s[1..][..i - 1] == s[1..i] && s[1..][i - 1..] == s[i..];
      assert s[..i] == [s[0]] + s[1..i];
      forall j | 0 <= j < |s|
        ensures Key(keys, s[j]) <= Key(keys, x) <==> j < i
      {
        if j > 0 {
          assert s[j] == s[1..][j - 1];
        }
      }
    }
  }

  /** Taking an entry out and putting it back where its new key belongs. */
  lemma Reinsert(keys: Keys, keys': Keys, s: seq<nat>, x: nat)
    requires NoDup(s) && Sorted(keys, s) && x in s && SameKeys(keys, keys', Remove(s, x))
    ensures
      var r := Insert(keys', Remove(s, x), x);
      NoDup(r) && Sorted(keys', r) && forall y :: y in r <==> y in s
  {
    hide NoDup, Sorted, Insert, Remove;
    var rest := Remove(s, x);
    RemoveElems(s, x);
    RemoveDistinct(s, x);
    RemoveSorted(keys, s, x);
    SortedFrame(keys, keys', rest);
    InsertElems(keys', rest, x);
    InsertDistinct(keys', rest, x);
    InsertSorted(keys', rest, x);
  }
}
