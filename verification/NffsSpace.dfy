/** Objects on flash do not overlap, so what is live in an area fits in its
    written part, after the area header. */
module NffsSpace {
  import opened Common
  import opened Bytes
  import opened NffsChain
  import opened NffsDisk
  import opened NffsIndex
  import opened NffsPlace
  import opened NffsVolume
  import opened NffsGc

  /** The offsets an object takes in an area. */
  ghost function Cells(v: View, ix: Index, o: Obj, area: nat): set<int>
    requires Has(ix, o) && v.Keys == ix.blocks.Keys
  {
    if Place(ix, o).area != area then {}
    else Range(Place(ix, o).off, Place(ix, o).off + Size(v, ix, o))
  }

  ghost function Range(a: int, b: int): (r: set<int>)
    ensures forall x :: x in r <==> a <= x < b
    decreases b - a
  {
    if a < b then Range(a, b - 1) + {b - 1} else {}
  }

  lemma {:induction false} RangeSize(a: int, b: int)
    requires a <= b
    ensures |Range(a, b)| == b - a
    decreases b - a
  {
    if a < b {
      RangeSize(a, b - 1);
    }
  }

  ghost predicate AllHere(ix: Index, objs: seq<Obj>) {
    forall o :: o in objs ==> Has(ix, o)
  }

  ghost function AllCells(v: View, ix: Index, objs: seq<Obj>, area: nat): set<int>
    requires AllHere(ix, objs) && v.Keys == ix.blocks.Keys
    decreases |objs|
  {
    if objs == [] then {} else
      assert objs[0] in objs;
      assert forall o :: o in objs[1..] ==> o in objs;
      Cells(v, ix, objs[0], area) + AllCells(v, ix, objs[1..], area)
  }

  ghost function Total(v: View, ix: Index, objs: seq<Obj>, area: nat): nat
    requires AllHere(ix, objs) && v.Keys == ix.blocks.Keys
    decreases |objs|
  {
    if objs == [] then 0 else
      assert objs[0] in objs;
      assert forall o :: o in objs[1..] ==> o in objs;
      (if Place(ix, objs[0]).area == area then Size(v, ix, objs[0]) else 0) + Total(v, ix, objs[1..], area)
  }

  lemma CellsApart(d: Disk, v: View, ix: Index, o: Obj, p: Obj, area: nat)
    requires v.Keys == ix.blocks.Keys && Apart(d, v, ix) && Has(ix, o) && Has(ix, p) && o != p
    ensures Cells(v, ix, o, area) !! Cells(v, ix, p, area)
  {
    hide Place, Size, Inside;
    assert Clear(v, ix, o, p);
  }

  lemma {:induction false} CellsApartAll(d: Disk, v: View, ix: Index, o: Obj, objs: seq<Obj>, area: nat)
    requires v.Keys == ix.blocks.Keys && Apart(d, v, ix) && Has(ix, o) && AllHere(ix, objs) && o !in objs
    ensures Cells(v, ix, o, area) !! AllCells(v, ix, objs, area)
    decreases |objs|
  {
    hide Apart, Cells, Has;
    if objs != [] {
      assert objs[0] in objs;
      assert forall x :: x in objs[1..] ==> x in objs;
      CellsApart(d, v, ix, o, objs[0], area);
      CellsApartAll(d, v, ix, o, objs[1..], area);
    }
  }

  lemma ApartInside(d: Disk, v: View, ix: Index, o: Obj)
    requires v.Keys == ix.blocks.Keys && Apart(d, v, ix) && Has(ix, o)
    ensures Inside(d, v, ix, o)
  {
  }

  lemma CellCount(d: Disk, v: View, ix: Index, o: Obj, area: nat)
    requires v.Keys == ix.blocks.Keys && Apart(d, v, ix) && Has(ix, o) && area < |d.areas|
    ensures |Cells(v, ix, o, area)| == if Place(ix, o).area == area then Size(v, ix, o) else 0
    ensures Cells(v, ix, o, area) <= Range(NFFS_DISK_AREA_SIZE, d.areas[area].cur)
  {
    hide Place, Size, Apart, Has, Range;
    ApartInside(d, v, ix, o);
    RangeSize(Place(ix, o).off, Place(ix, o).off + Size(v, ix, o));
  }

  /** Objects that do not overlap cover exactly as many offsets as they have bytes. */
  lemma {:induction false} CellTotal(d: Disk, v: View, ix: Index, objs: seq<Obj>, area: nat)
    requires v.Keys == ix.blocks.Keys && Apart(d, v, ix) && AllHere(ix, objs) && NoDup(objs) && area < |d.areas|
    ensures |AllCells(v, ix, objs, area)| == Total(v, ix, objs, area)
    ensures AllCells(v, ix, objs, area) <= Range(NFFS_DISK_AREA_SIZE, d.areas[area].cur)
    decreases |objs|
  {
    hide Apart, Cells, Has, Range, Place, Size;
    if objs != [] {
      assert objs[0] in objs;
      assert forall x :: x in objs[1..] ==> x in objs;
      CellCount(d, v, ix, objs[0], area);
      CellsApartAll(d, v, ix, objs[0], objs[1..], area);
      CellTotal(d, v, ix, objs[1..], area);
      CardUnion(Cells(v, ix, objs[0], area), AllCells(v, ix, objs[1..], area));
    }
  }

  lemma CardUnion(a: set<int>, b: set<int>)
    requires a !! b
    ensures |a + b| == |a| + |b|
  {
    assert a + b - a == b;
  }

  lemma {:induction false} CardSubset(a: set<int>, b: set<int>)
    requires a <= b
    ensures |a| <= |b|
  {
    assert a + (b - a) == b;
    CardUnion(a, b - a);
  }

  lemma TotalFits(d: Disk, v: View, ix: Index, objs: seq<Obj>, area: nat)
    requires v.Keys == ix.blocks.Keys && Apart(d, v, ix) && AllHere(ix, objs) && NoDup(objs) && area < |d.areas|
    requires NFFS_DISK_AREA_SIZE <= d.areas[area].cur
    ensures NFFS_DISK_AREA_SIZE + Total(v, ix, objs, area) <= d.areas[area].cur
  {
    hide Apart, AllCells, Total, Range;
    CellTotal(d, v, ix, objs, area);
    CardSubset(AllCells(v, ix, objs, area), Range(NFFS_DISK_AREA_SIZE, d.areas[area].cur));
    RangeSize(NFFS_DISK_AREA_SIZE, d.areas[area].cur);
  }

  // ------------------------------------------------------------ the objects of the files

  ghost function Blocks(ids: seq<Id>): seq<Obj> {
    seq(|ids|, k requires 0 <= k < |ids| => BlockObj(ids[k]))
  }

  ghost function ObjsOf(files: Files, i: Id): seq<Obj> {
    [RecordObj(i)] + if i in files then Blocks(files[i]) else []
  }

  ghost function Objs(files: Files, all: seq<Id>): seq<Obj>
    decreases |all|
  {
    if all == [] then [] else ObjsOf(files, all[0]) + Objs(files, all[1..])
  }

  lemma {:induction false} TotalJoin(v: View, ix: Index, a: seq<Obj>, b: seq<Obj>, area: nat)
    requires AllHere(ix, a) && AllHere(ix, b) && v.Keys == ix.blocks.Keys
    ensures AllHere(ix, a + b) && Total(v, ix, a + b, area) == Total(v, ix, a, area) + Total(v, ix, b, area)
    decreases |a|
  {
    hide Has, Place, Size;
    if a == [] {
      assert a + b == b;
    } else {
      assert a[0] in a;
      assert forall o :: o in a[1..] ==> o in a;
      assert (a + b)[1..] == a[1..] + b;
      TotalJoin(v, ix, a[1..], b, area);
    }
  }

  lemma {:induction false} BlocksTotal(v: View, ix: Index, ids: seq<Id>, area: nat)
    requires Within(v, ids) && NoDup(ids) && v.Keys == ix.blocks.Keys
    ensures AllHere(ix, Blocks(ids)) && NoDup(Blocks(ids))
    ensures Total(v, ix, Blocks(ids), area) == BytesIn(v, ix.blocks, ids, area)
    decreases |ids|
  {
    if ids != [] {
      assert ids[0] in ids;
      assert forall b :: b in ids[1..] ==> b in ids;
      assert Blocks(ids) == [BlockObj(ids[0])] + Blocks(ids[1..]);
      BlocksTotal(v, ix, ids[1..], area);
    }
  }

  lemma InodeTotal(v: View, ix: Index, files: Files, i: Id, area: nat)
    requires FilesOk(v, ix, files) && v.Keys == ix.blocks.Keys && i in ix.inodes
    ensures AllHere(ix, ObjsOf(files, i)) && NoDup(ObjsOf(files, i))
    ensures Total(v, ix, ObjsOf(files, i), area) == InodeBytes(v, ix, files, i, area)
    ensures forall o :: o in ObjsOf(files, i) ==> OwnedBy(v, o, i)
  {
    hide BytesIn, FilesOk;
    var a := [RecordObj(i)];
    if i in files {
      ChainWithin(v, ix, files, i);
      BlocksTotal(v, ix, files[i], area);
      TotalJoin(v, ix, a, Blocks(files[i]), area);
      NoDupJoin(a, Blocks(files[i]));
      forall o | o in Blocks(files[i])
        ensures OwnedBy(v, o, i)
      {
        InodeOf(v, i, files[i], o.id);
      }
    }
  }

  /** The inode an object belongs to. */
  ghost predicate OwnedBy(v: View, o: Obj, i: Id) {
    match o
    case RecordObj(j) => j == i
    case BlockObj(b) => b in v && v[b].inode == i
  }

  ghost predicate SomeOwner(v: View, o: Obj, all: seq<Id>) {
    match o
    case RecordObj(j) => j in all
    case BlockObj(b) => b in v && v[b].inode in all
  }

  lemma {:induction false} LiveTotal(v: View, ix: Index, files: Files, all: seq<Id>, area: nat)
    requires FilesOk(v, ix, files) && v.Keys == ix.blocks.Keys && NoDup(all) && forall i :: i in all ==> i in ix.inodes
    ensures AllHere(ix, Objs(files, all)) && NoDup(Objs(files, all))
    ensures Total(v, ix, Objs(files, all), area) == LiveBytes(v, ix, files, all, area)
    ensures forall o :: o in Objs(files, all) ==> SomeOwner(v, o, all)
    decreases |all|
  {
    hide BytesIn, FilesOk, Total, InodeBytes;
    if all != [] {
      assert all[0] in all;
      assert forall i :: i in all[1..] ==> i in all;
      var a, b := ObjsOf(files, all[0]), Objs(files, all[1..]);
      InodeTotal(v, ix, files, all[0], area);
      LiveTotal(v, ix, files, all[1..], area);
      forall o | o in a
        ensures o !in b
      {
        assert OwnedBy(v, o, all[0]);
      }
      TotalJoin(v, ix, a, b, area);
      NoDupJoin(a, b);
    } else {
      NoObjs(v, ix, area);
    }
  }

  lemma NoObjs(v: View, ix: Index, area: nat)
    requires v.Keys == ix.blocks.Keys
    ensures AllHere(ix, []) && Total(v, ix, [], area) == 0 && NoDup<Obj>([])
  {
  }

  /** What the files hold in an area, header included, is no more than has been written there. */
  lemma LiveFits(d: Disk, ix: Index, files: Files, all: seq<Id>, area: nat)
    requires Mounted(d, ix, files) && area < |d.areas| && NFFS_DISK_AREA_SIZE <= d.areas[area].cur
    requires NoDup(all) && forall i :: i in all ==> i in ix.inodes
    ensures NFFS_DISK_AREA_SIZE + LiveBytes(ViewOf(d, ix), ix, files, all, area) <= d.areas[area].cur
  {
    hide FilesOk, Apart, Total, Objs, LiveBytes, NoDup, AllLive, RecordsOk;
    LiveTotal(ViewOf(d, ix), ix, files, all, area);
    TotalFits(d, ViewOf(d, ix), ix, Objs(files, all), area);
  }
}
