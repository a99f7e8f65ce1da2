/** What several components use. */
module Common {
  datatype Option<+T> = None | Some(value: T)

  const WORD16 := 0x1_0000
  const WORD32 := 0x1_0000_0000

  /** Nothing comes twice. */
  ghost predicate NoDup<T>(s: seq<T>)
    decreases |s|
  {
    s == [] || (s[0] !in s[1..] && NoDup(s[1..]))
  }

  lemma {:induction false} NoDupJoin<T>(a: seq<T>, b: seq<T>)
    ensures NoDup(a + b) <==> NoDup(a) && NoDup(b) && (forall x :: x in a ==> x !in b)
    decreases |a|
  {
    if a == [] {
      assert a + b == b;
    } else {
      assert (a + b)[1..] == a[1..] + b;
      NoDupJoin(a[1..], b);
      assert forall x :: x in a <==> x == a[0] || x in a[1..];
    }
  }

  lemma SubSlice<T>(c: seq<T>, a: nat, b: nat, i: nat, j: nat)
    requires a <= b <= |c| && i <= j <= b - a
    ensures c[a..b][i..j] == c[a + i..a + j]
  {
    assert |c[a..b][i..j]| == j - i;
    assert forall k :: 0 <= k < j - i ==> c[a..b][i..j][k] == c[a + i..a + j][k];
  }
}
