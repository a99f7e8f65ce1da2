/** Where objects lie on flash: behind the area header and apart from each other. */
module NffsPlace {
  import opened Bytes
  import opened NffsChain
  import opened NffsDisk
  import opened NffsIndex

  /** An object on flash: an inode record or a data block. */
  datatype Obj = RecordObj(id: Id) | BlockObj(id: Id)

  predicate Has(ix: Index, o: Obj) {
    match o
    case RecordObj(i) => i in ix.inodes
    case BlockObj(b) => b in ix.blocks
  }

  ghost function Place(ix: Index, o: Obj): Loc
    requires Has(ix, o)
  {
    match o
    case RecordObj(i) => ix.inodes[i].loc
    case BlockObj(b) => ix.blocks[b]
  }

  ghost function Size(v: View, ix: Index, o: Obj): nat
    requires Has(ix, o) && v.Keys == ix.blocks.Keys
  {
    match o
    case RecordObj(i) => ix.inodes[i].size
    case BlockObj(b) => NFFS_DISK_BLOCK_SIZE + |v[b].data|
  }

  ghost predicate Clear(v: View, ix: Index, o: Obj, p: Obj)
    requires Has(ix, o) && Has(ix, p) && v.Keys == ix.blocks.Keys
  {
    Place(ix, o).area == Place(ix, p).area ==>
      || Place(ix, o).off + Size(v, ix, o) <= Place(ix, p).off
      || Place(ix, p).off + Size(v, ix, p) <= Place(ix, o).off
  }

  /** Live objects lie behind the area header, within what has been written, and
      do not overlap. */
  ghost predicate Apart(d: Disk, v: View, ix: Index)
    requires v.Keys == ix.blocks.Keys
  {
    && (forall o :: Has(ix, o) ==> Inside(d, v, ix, o))
    && forall o, p :: Has(ix, o) && Has(ix, p) && o != p ==> Clear(v, ix, o, p)
  }

  ghost predicate Inside(d: Disk, v: View, ix: Index, o: Obj)
    requires Has(ix, o) && v.Keys == ix.blocks.Keys
  {
    var l := Place(ix, o);
    l.area < |d.areas| && NFFS_DISK_AREA_SIZE <= l.off && l.off + Size(v, ix, o) <= d.areas[l.area].cur
  }

  ghost predicate Disjoint(d: Disk, ix: Index) {
    AllLive(d, ix) && Apart(d, ViewOf(d, ix), ix)
  }

  /** An object is where it was, as long as it was. */
  ghost predicate Stays(v: View, ix: Index, v': View, ix': Index, o: Obj)
    requires Has(ix', o) && v.Keys == ix.blocks.Keys && v'.Keys == ix'.blocks.Keys
  {
    Has(ix, o) && Place(ix', o) == Place(ix, o) && Size(v', ix', o) == Size(v, ix, o)
  }

  /** An object is at the former end of area `a`. */
  ghost predicate AtEnd(d: Disk, d': Disk, v': View, ix': Index, o: Obj, a: nat)
    requires Has(ix', o) && v'.Keys == ix'.blocks.Keys
  {
    && a < |d.areas| == |d'.areas| && Place(ix', o) == Loc(a, d.areas[a].cur) && NFFS_DISK_AREA_SIZE <= d.areas[a].cur
    && d.areas[a].cur + Size(v', ix', o) <= d'.areas[a].cur
  }

  /** Every object is where it was, but for one at the former end of an area. */
  lemma Placed(d: Disk, v: View, ix: Index, d': Disk, v': View, ix': Index, o: Obj, a: nat)
    requires v.Keys == ix.blocks.Keys && v'.Keys == ix'.blocks.Keys && Apart(d, v, ix) && Extends(d, d')
    requires forall p :: Has(ix', p) ==> Stays(v, ix, v', ix', p) || (p == o && AtEnd(d, d', v', ix', p, a))
    ensures Apart(d', v', ix')
  {
    hide Extends, Place, Size;
    forall p | Has(ix', p)
      ensures Inside(d', v', ix', p)
    {
      if Stays(v, ix, v', ix', p) {
        assert Inside(d, v, ix, p);
        CurGrows(d, d', Place(ix, p).area);
      }
    }
    forall p, q | Has(ix', p) && Has(ix', q) && p != q
      ensures Clear(v', ix', p, q)
    {
      assert Stays(v, ix, v', ix', p) ==> Inside(d, v, ix, p);
      assert Stays(v, ix, v', ix', q) ==> Inside(d, v, ix, q);
      assert Stays(v, ix, v', ix', p) && Stays(v, ix, v', ix', q) ==> Clear(v, ix, p, q);
    }
  }

  lemma CurGrows(d: Disk, d': Disk, a: nat)
    requires Extends(d, d') && a < |d.areas|
    ensures |d'.areas| == |d.areas| && d.areas[a].cur <= d'.areas[a].cur
  {
    assert AreaExtends(d.areas[a], d'.areas[a]);
  }

  lemma ViewKeys(d: Disk, ix: Index)
    requires AllLive(d, ix)
    ensures ViewOf(d, ix).Keys == ix.blocks.Keys
  {
    hide Live, BlockAt;
  }

  /** Block `b` has been written at the end of area `a`. */
  lemma BlockPlaced(d: Disk, ix: Index, d': Disk, ix': Index, b: Id, a: nat)
    requires Disjoint(d, ix) && Extends(d, d') && AllLive(d', ix') && a < |d.areas| &&
             NFFS_DISK_AREA_SIZE <= d.areas[a].cur
    requires ix'.blocks == ix.blocks[b := Loc(a, d.areas[a].cur)] && SamePlaces(ix, ix')
    requires
      var v, v' := ViewOf(d, ix), ViewOf(d', ix');
      && b in v' && v' == v[b := v'[b]] && d.areas[a].cur + NFFS_DISK_BLOCK_SIZE + |v'[b].data| <= d'.areas[a].cur
    ensures Disjoint(d', ix')
  {
    hide Extends, AllLive, Apart, ViewOf;
    var v, v' := ViewOf(d, ix), ViewOf(d', ix');
    ViewKeys(d, ix);
    ViewKeys(d', ix');
    CurGrows(d, d', a);
    forall p | Has(ix', p)
      ensures Stays(v, ix, v', ix', p) || (p == BlockObj(b) && AtEnd(d, d', v', ix', p, a))
    {
    }
    Placed(d, v, ix, d', v', ix', BlockObj(b), a);
  }

  /** The records of the inodes are where they were. */
  ghost predicate SamePlaces(ix: Index, ix': Index) {
    forall i :: i in ix'.inodes ==>
      i in ix.inodes && ix'.inodes[i].loc == ix.inodes[i].loc && ix'.inodes[i].size == ix.inodes[i].size
  }

  /** Blocks have gone from the index, or nothing has. */
  lemma BlocksGone(d: Disk, ix: Index, d': Disk, ix': Index)
    requires Disjoint(d, ix) && Extends(d, d') && AllLive(d', ix') && SamePlaces(ix, ix')
    requires forall b :: b in ix'.blocks ==>
      b in ix.blocks && ix'.blocks[b] == ix.blocks[b] && ViewOf(d', ix')[b] == ViewOf(d, ix)[b]
    ensures Disjoint(d', ix')
  {
    hide Extends, AllLive, Apart, ViewOf;
    var v, v' := ViewOf(d, ix), ViewOf(d', ix');
    ViewKeys(d, ix);
    ViewKeys(d', ix');
    forall p | Has(ix', p)
      ensures Stays(v, ix, v', ix', p)
    {
    }
    Placed(d, v, ix, d', v', ix', BlockObj(0), 0);
  }

  /** The record of inode `i` has been written at the end of area `a`. */
  lemma RecordPlaced(d: Disk, ix: Index, d': Disk, ix': Index, i: Id, a: nat)
    requires Disjoint(d, ix) && Extends(d, d') && AllLive(d', ix') && a < |d.areas| &&
             NFFS_DISK_AREA_SIZE <= d.areas[a].cur
    requires ix'.blocks == ix.blocks && ViewOf(d', ix') == ViewOf(d, ix)
    requires i in ix'.inodes && ix'.inodes == ix.inodes[i := ix'.inodes[i]] &&
             ix'.inodes[i].loc == Loc(a, d.areas[a].cur)
    requires d.areas[a].cur + ix'.inodes[i].size <= d'.areas[a].cur
    ensures Disjoint(d', ix')
  {
    hide Extends, AllLive, Apart, ViewOf;
    var v, v' := ViewOf(d, ix), ViewOf(d', ix');
    ViewKeys(d, ix);
    ViewKeys(d', ix');
    CurGrows(d, d', a);
    forall p | Has(ix', p)
      ensures Stays(v, ix, v', ix', p) || (p == RecordObj(i) && AtEnd(d, d', v', ix', p, a))
    {
    }
    Placed(d, v, ix, d', v', ix', RecordObj(i), a);
  }
}
