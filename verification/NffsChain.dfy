/** Files as chains of data blocks.

    A file is a backward-linked list of blocks; its contents are the blocks' data
    from first to last.  Here blocks are seen through the RAM index, as a map
    from block ID to what is stored on flash for it.
 */
module NffsChain {
  import opened Common
  import opened Bytes

  type Id = nat

  const NFFS_ID_NONE: Id := 0xffff_ffff

  datatype Block = Block(inode: Id, prev: Id, data: seq<byte>)

  type View = map<Id, Block>

  /** `ids`, first to last, is linked by the prev pointers; `prev` precedes it. */
  ghost predicate Linked(v: View, inode: Id, prev: Id, ids: seq<Id>)
    decreases |ids|
  {
    ids == [] ||
    (&& ids[0] in v && v[ids[0]].inode == inode && v[ids[0]].prev == prev
     && |v[ids[0]].data| > 0 && ids[0] != NFFS_ID_NONE
     && Linked(v, inode, ids[0], ids[1..]))
  }

  ghost predicate Chain(v: View, inode: Id, ids: seq<Id>) {
    Linked(v, inode, NFFS_ID_NONE, ids) && NoDup(ids)
  }

  function LastOr(prev: Id, ids: seq<Id>): Id {
    if ids == [] then prev else ids[|ids| - 1]
  }

  ghost predicate Within(v: View, ids: seq<Id>) {
    forall b :: b in ids ==> b in v
  }

  ghost function Contents(v: View, ids: seq<Id>): seq<byte>
    requires Within(v, ids)
    decreases |ids|
  {
    if ids == [] then [] else v[ids[0]].data + Contents(v, ids[1..])
  }

  // ------------------------------------------------------- basic lemmas

  lemma {:induction false} LinkedWithin(v: View, inode: Id, prev: Id, ids: seq<Id>)
    requires Linked(v, inode, prev, ids)
    ensures Within(v, ids)
    ensures forall b :: b in ids ==> v[b].inode == inode && |v[b].data| > 0 && b != NFFS_ID_NONE
    decreases |ids|
  {
    if ids != [] {
      LinkedWithin(v, inode, ids[0], ids[1..]);
      assert forall b :: b in ids ==> b == ids[0] || b in ids[1..];
    }
  }

  lemma {:induction false} LinkedJoin(v: View, inode: Id, prev: Id, a: seq<Id>, b: seq<Id>)
    ensures Linked(v, inode, prev, a + b) <==> Linked(v, inode, prev, a) && Linked(v, inode, LastOr(prev, a), b)
    decreases |a|
  {
    if a == [] {
      assert a + b == b;
    } else {
      assert (a + b)[1..] == a[1..] + b;
      LinkedJoin(v, inode, a[0], a[1..], b);
      assert LastOr(a[0], a[1..]) == LastOr(prev, a);
    }
  }

  lemma {:induction false} ContentsJoin(v: View, a: seq<Id>, b: seq<Id>)
    requires Within(v, a) && Within(v, b)
    ensures Within(v, a + b) && Contents(v, a + b) == Contents(v, a) + Contents(v, b)
    decreases |a|
  {
    if a == [] {
      assert a + b == b;
    } else {
      assert (a + b)[1..] == a[1..] + b;
      ContentsJoin(v, a[1..], b);
    }
  }

  lemma Single(v: View, inode: Id, prev: Id, b: Id)
    ensures Linked(v, inode, prev, [b]) <==>
      b in v && v[b].inode == inode && v[b].prev == prev && |v[b].data| > 0 && b != NFFS_ID_NONE
    ensures b in v ==> Within(v, [b]) && Contents(v, [b]) == v[b].data
    ensures NoDup([b])
  {
    assert [b][1..] == [];
  }

  ghost predicate Agree(v: View, v': View, ids: seq<Id>) {
    forall b :: b in ids ==> (b in v <==> b in v') && (b in v ==> v[b] == v'[b])
  }

  /** Linking and contents only depend on the blocks of the chain. */
  lemma {:induction false} LinkedFrame(v: View, v': View, inode: Id, prev: Id, ids: seq<Id>)
    requires Linked(v, inode, prev, ids) && Agree(v, v', ids)
    ensures Linked(v', inode, prev, ids)
    ensures Within(v, ids) && Within(v', ids) && Contents(v', ids) == Contents(v, ids)
    decreases |ids|
  {
    LinkedWithin(v, inode, prev, ids);
    if ids != [] {
      assert ids[0] in ids;
      assert forall b :: b in ids[1..] ==> b in ids;
      LinkedFrame(v, v', inode, ids[0], ids[1..]);
    }
  }

  /** The k-th block: its predecessor in the chain is the one its header names. */
  lemma LinkedAt(v: View, inode: Id, prev: Id, ids: seq<Id>, k: nat)
    requires Linked(v, inode, prev, ids) && k < |ids|
    ensures ids[k] in v && v[ids[k]].inode == inode && |v[ids[k]].data| > 0 && ids[k] != NFFS_ID_NONE
    ensures v[ids[k]].prev == LastOr(prev, ids[..k])
  {
    assert ids == ids[..k] + ids[k..];
    LinkedJoin(v, inode, prev, ids[..k], ids[k..]);
  }

  /** Contents before, of and after the k-th block. */
  lemma ContentsAt(v: View, ids: seq<Id>, k: nat)
    requires Within(v, ids) && k < |ids|
    ensures Within(v, ids[..k]) && Within(v, ids[..k + 1]) && Within(v, ids[k + 1..]) && ids[k] in v
    ensures Contents(v, ids[..k + 1]) == Contents(v, ids[..k]) + v[ids[k]].data
    ensures Contents(v, ids) == Contents(v, ids[..k]) + v[ids[k]].data + Contents(v, ids[k + 1..])
  {
    ContentsJoin(v, ids[..k], [ids[k]]);
    assert ids[..k + 1] == ids[..k] + [ids[k]];
    assert Contents(v, [ids[k]]) == v[ids[k]].data + Contents(v, [ids[k]][1..]);
    ContentsJoin(v, ids[..k + 1], ids[k + 1..]);
    assert ids == ids[..k + 1] + ids[k + 1..];
  }

  // ------------------------------------------------ operations on a chain

  /** Adding a block at the end. */
  lemma AppendBlock(v: View, v': View, inode: Id, ids: seq<Id>, b: Id, data: seq<byte>)
    requires Chain(v, inode, ids) && b !in v && b != NFFS_ID_NONE && |data| > 0
    requires v' == v[b := Block(inode, LastOr(NFFS_ID_NONE, ids), data)]
    ensures Chain(v', inode, ids + [b])
    ensures Within(v, ids) && Within(v', ids + [b]) && Contents(v', ids + [b]) == Contents(v, ids) + data
  {
    LinkedWithin(v, inode, NFFS_ID_NONE, ids);
    LinkedFrame(v, v', inode, NFFS_ID_NONE, ids);
    LinkedJoin(v', inode, NFFS_ID_NONE, ids, [b]);
    NoDupJoin(ids, [b]);
    LinkedWithin(v', inode, NFFS_ID_NONE, ids + [b]);
    ContentsJoin(v', ids, [b]);
    assert Contents(v', [b]) == data + Contents(v', [b][1..]);
  }

  /** Replacing the data of one block. */
  lemma ReplaceBlock(v: View, v': View, inode: Id, ids: seq<Id>, k: nat, data: seq<byte>)
    requires Chain(v, inode, ids) && k < |ids| && |data| > 0
    requires ids[k] in v && v' == v[ids[k] := v[ids[k]].(data := data)]
    ensures Chain(v', inode, ids)
    ensures Within(v, ids) && Within(v', ids) && Within(v, ids[..k]) && Within(v, ids[k + 1..])
    ensures Contents(v', ids) == Contents(v, ids[..k]) + data + Contents(v, ids[k + 1..])
  {
    hide Linked, NoDup, Contents;
    var a, b := ids[..k], ids[k + 1..];
    assert ids == a + [ids[k]] + b;
    NoDupJoin(a + [ids[k]], b);
    NoDupJoin(a, [ids[k]]);
    LinkedJoin(v, inode, NFFS_ID_NONE, a + [ids[k]], b);
    LinkedJoin(v, inode, NFFS_ID_NONE, a, [ids[k]]);
    Single(v, inode, LastOr(NFFS_ID_NONE, a), ids[k]);
    LinkedFrame(v, v', inode, NFFS_ID_NONE, a);
    LinkedFrame(v, v', inode, ids[k], b);
    Single(v', inode, LastOr(NFFS_ID_NONE, a), ids[k]);
    LinkedJoin(v', inode, NFFS_ID_NONE, a, [ids[k]]);
    LinkedJoin(v', inode, NFFS_ID_NONE, a + [ids[k]], b);
    LinkedWithin(v', inode, NFFS_ID_NONE, ids);
    ContentsAt(v', ids, k);
    LinkedWithin(v, inode, NFFS_ID_NONE, ids);
  }

  /** The result of collating `run` into its last block. */
  ghost function Collated(v: View, inode: Id, prev: Id, run: seq<Id>): View
    requires run != [] && Within(v, run)
  {
    Without(v, run[..|run| - 1])[run[|run| - 1] := Block(inode, prev, Contents(v, run))]
  }

  ghost function Without(v: View, ids: seq<Id>): View {
    map b | b in v && b !in ids :: v[b]
  }

  /** Collating a run of consecutive blocks keeps the file. */
  lemma CollateRun(v: View, inode: Id, pre: seq<Id>, run: seq<Id>, post: seq<Id>)
    requires Chain(v, inode, pre + run + post) && run != []
    ensures Within(v, pre + run + post) && Within(v, run)
    ensures
      var v' := Collated(v, inode, LastOr(NFFS_ID_NONE, pre), run);
      var ids' := pre + [run[|run| - 1]] + post;
      && Chain(v', inode, ids') && Within(v', ids')
      && Contents(v', ids') == Contents(v, pre + run + post)
  {
    var last := run[|run| - 1];
    LinkedJoin(v, inode, NFFS_ID_NONE, pre + run, post);
    LinkedJoin(v, inode, NFFS_ID_NONE, pre, run);
    LinkedWithin(v, inode, NFFS_ID_NONE, pre + run + post);
    LinkedWithin(v, inode, LastOr(NFFS_ID_NONE, pre), run);
    NoDupJoin(pre + run, post);
    NoDupJoin(pre, run);
    NoDupJoin(run[..|run| - 1], [last]);
    assert run == run[..|run| - 1] + [last];
    CollatedChain(v, inode, pre, run, post);
    CollatedContents(v, inode, pre, run, post);
  }

  lemma CollatedChain(v: View, inode: Id, pre: seq<Id>, run: seq<Id>, post: seq<Id>)
    requires run != [] && Within(v, run)
    requires Linked(v, inode, NFFS_ID_NONE, pre) && Linked(v, inode, LastOr(NFFS_ID_NONE, pre), run)
    requires Linked(v, inode, run[|run| - 1], post)
    requires NoDup(pre) && NoDup(post) && (forall x :: x in pre ==> x !in run && x !in post) &&
             (forall x :: x in run ==> x !in post)
    requires run[|run| - 1] !in run[..|run| - 1]
    ensures
      var v' := Collated(v, inode, LastOr(NFFS_ID_NONE, pre), run);
      Chain(v', inode, pre + [run[|run| - 1]] + post)
  {
    var last := run[|run| - 1];
    var v' := Collated(v, inode, LastOr(NFFS_ID_NONE, pre), run);
    LinkedAt(v, inode, LastOr(NFFS_ID_NONE, pre), run, |run| - 1);
    LinkedFrame(v, v', inode, NFFS_ID_NONE, pre);
    LinkedFrame(v, v', inode, last, post);
    ContentsAt(v, run, |run| - 1);
    LinkedJoin(v', inode, NFFS_ID_NONE, pre, [last]);
    LinkedJoin(v', inode, NFFS_ID_NONE, pre + [last], post);
    NoDupJoin(pre, [last]);
    NoDupJoin(pre + [last], post);
  }

  lemma CollatedContents(v: View, inode: Id, pre: seq<Id>, run: seq<Id>, post: seq<Id>)
    requires run != [] && Within(v, run)
    requires Linked(v, inode, NFFS_ID_NONE, pre)
    requires Linked(v, inode, run[|run| - 1], post)
    requires (forall x :: x in pre ==> x !in run) && (forall x :: x in run ==> x !in post)
    requires Within(v, pre + run + post)
    ensures
      var v' := Collated(v, inode, LastOr(NFFS_ID_NONE, pre), run);
      var ids' := pre + [run[|run| - 1]] + post;
      Within(v', ids') && Contents(v', ids') == Contents(v, pre + run + post)
  {
    hide Linked, NoDup, Contents;
    var last := run[|run| - 1];
    var v' := Collated(v, inode, LastOr(NFFS_ID_NONE, pre), run);
    LinkedFrame(v, v', inode, NFFS_ID_NONE, pre);
    LinkedFrame(v, v', inode, last, post);
    Single(v', inode, LastOr(NFFS_ID_NONE, pre), last);
    ContentsJoin(v', pre, [last]);
    ContentsJoin(v', pre + [last], post);
    ContentsJoin(v, pre, run);
    ContentsJoin(v, pre + run, post);
  }
}
