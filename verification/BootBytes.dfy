/** The images as bytes: a slot is its areas, one behind the other, and an image is the bytes it begins with. */
module BootBytes {
  import opened Common
  import opened BootProtocol
  import opened BootSafety

  function SlotStart(L: Layout, slot: nat): nat {
    if slot == 0 then L.slot0 else L.slot1
  }

  function Flat(parts: seq<Bytes>): Bytes {
    if parts == [] then [] else parts[0] + Flat(parts[1..])
  }

  /** All bytes of a slot. */
  ghost function SlotBytes(L: Layout, d: Device, slot: nat): Bytes
  {
    var s := SlotStart(L, slot);
    if s + L.parts <= |d.flash| then Flat(d.flash[s..s + L.parts]) else []
  }

  /** The bytes a slot has. */
  function SlotSize(L: Layout): nat {
    L.parts * L.areaLen
  }

  /** The areas an image covers: all of its bytes are in them, and not in fewer. */
  lemma {:induction false} PartsCover(length: int, areaLen: nat)
    requires areaLen > 0
    ensures length <= PartCount(length, areaLen) * areaLen
    ensures length > 0 ==> (PartCount(length, areaLen) - 1) * areaLen < length
    decreases if length <= 0 then 0 else length
  {
    if length > 0 {
      PartsCover(length - areaLen, areaLen);
      var n := PartCount(length - areaLen, areaLen);
      assert (1 + n) * areaLen == areaLen + n * areaLen;
      if length > areaLen {
        assert n * areaLen == areaLen + (n - 1) * areaLen;
      }
    }
  }

  /** An image that fits the slot covers no more areas than the slot has. */
  lemma PartsFit(length: nat, L: Layout)
    requires L.Valid() && length <= SlotSize(L)
    ensures PartCount(length, L.areaLen) <= L.parts
  {
    PartsCover(length, L.areaLen);
  }

  lemma {:induction false} FlatLength(parts: seq<Bytes>, areaLen: nat)
    requires forall i :: 0 <= i < |parts| ==> |parts[i]| == areaLen
    ensures |Flat(parts)| == |parts| * areaLen
    decreases |parts|
  {
    if parts != [] {
      FlatLength(parts[1..], areaLen);
      assert |parts| * areaLen == areaLen + (|parts| - 1) * areaLen;
    }
  }

  lemma {:induction false} FlatPrefix(p: seq<Bytes>, q: seq<Bytes>)
    requires p <= q
    ensures Flat(p) <= Flat(q)
    decreases |p|
  {
    if p != [] {
      FlatPrefix(p[1..], q[1..]);
    }
  }

  /** A slot whose areas hold the parts begins with the bytes of the parts. */
  lemma SlotBegins(L: Layout, d: Device, slot: nat, p: seq<Bytes>, length: nat)
    requires L.Valid() && WellFormed(L, d) && |p| == PartCount(length, L.areaLen) <= L.parts
    requires forall i :: 0 <= i < |p| ==> d.flash[SlotStart(L, slot) + i] == p[i]
    ensures Holds(L, d, slot, p, length)
  {
    var s := SlotStart(L, slot);
    var areas := d.flash[s..s + L.parts];
    assert forall i :: 0 <= i < |p| ==> areas[i] == p[i] && |p[i]| == L.areaLen by {
      forall i | 0 <= i < |p|
        ensures areas[i] == p[i] && |p[i]| == L.areaLen
      {
        assert d.flash[s + i] == p[i];
      }
    }
    assert p <= areas;
    FlatPrefix(p, areas);
    FlatLength(p, L.areaLen);
    PartsCover(length, L.areaLen);
  }

  /** The images that the first bytes of the slots are, cut into parts. */
  ghost function Cut(L: Layout, d: Device, length0: nat, length1: nat): Images
    requires L.Valid() && WellFormed(L, d)
    requires length0 <= SlotSize(L) && length1 <= SlotSize(L)
  {
    PartsFit(length0, L);
    PartsFit(length1, L);
    var n0, n1 := PartCount(length0, L.areaLen), PartCount(length1, L.areaLen);
    Images(d.flash[L.slot0..L.slot0 + n0], d.flash[L.slot1..L.slot1 + n1], Fresh(L, n0, n1))
  }

  lemma CutInitial(L: Layout, d: Device, length0: nat, length1: nat, im: Images)
    requires L.Valid() && WellFormed(L, d) && d.disk == None && length0 <= SlotSize(L) && length1 <= SlotSize(L)
    requires im == Cut(L, d, length0, length1)
    ensures |im.p0| == PartCount(length0, L.areaLen) && |im.p1| == PartCount(length1, L.areaLen)
    ensures im.Valid(L) && Initial(L, im, d)
    ensures Holds(L, d, 0, im.p0, length0) && Holds(L, d, 1, im.p1, length1)
  {
    hide SlotSize, PartCount, Fresh, Holds, WellFormed;
    PartsFit(length0, L);
    PartsFit(length1, L);
    CutParts(L, d, 0, im.p0, length0);
    CutParts(L, d, 1, im.p1, length1);
    SlotBegins(L, d, 0, im.p0, length0);
    SlotBegins(L, d, 1, im.p1, length1);
  }

  lemma CutParts(L: Layout, d: Device, slot: nat, p: seq<Bytes>, length: nat)
    requires L.Valid() && WellFormed(L, d) && PartCount(length, L.areaLen) <= L.parts
    requires p == d.flash[SlotStart(L, slot)..SlotStart(L, slot) + PartCount(length, L.areaLen)]
    ensures |p| == PartCount(length, L.areaLen)
    ensures forall i :: 0 <= i < |p| ==> |p[i]| == L.areaLen && d.flash[SlotStart(L, slot) + i] == p[i]
  {
    hide PartCount;
  }

  /** After any number of resets, each anywhere in a resumed run, a run that is not interrupted leaves slot 0
      beginning with the bytes of the image that was in slot 1; if it reports success, slot 1 begins with
      those of the image that was in slot 0. */
  lemma ImageArrives(L: Layout, length0: nat, length1: nat, chain: seq<Device>, im: Images)
    requires L.Valid() && |chain| > 0 && WellFormed(L, chain[0]) && chain[0].disk == None
    requires 0 < length0 <= SlotSize(L) && 0 < length1 <= SlotSize(L)
    requires im == Cut(L, chain[0], length0, length1) && im.Valid(L) && CrashChain(L, im, chain)
    ensures
      var d := chain[|chain| - 1];
      GoodDevice(L, im, false, d) && Arrived(L, im, d, chain[0], length0, length1)
  {
    hide Good, CrashChain, ApplyAll, Effective, Keeps0, SlotSize, Cut, Initial, WellFormed, PartCount, Holds;
    var d := chain[|chain| - 1];
    CutInitial(L, chain[0], length0, length1, im);
    PartsFit(length0, L);
    Image1NeverLost(L, im, chain);
    GoodSize(L, im, d);
    UninterruptedRun(L, im, d);
    var end := ApplyAll(L, RunFrom(L, im, d).ops, d);
    SlotBegins(L, end, 0, im.p1, length1);
    HoldsSame(L, end, 0, chain[0], 1, im.p1, length1);
    if RunFrom(L, im, d).rc == Ok {
      SlotBegins(L, end, 1, im.p0, length0);
      HoldsSame(L, end, 1, chain[0], 0, im.p0, length0);
    }
  }

  /** What the run from `d` makes of the images that were in the slots of `d0`. */
  ghost predicate Arrived(L: Layout, im: Images, d: Device, d0: Device, length0: nat, length1: nat)
    requires im.Valid(L) && GoodDevice(L, im, false, d)
  {
    var r := RunFrom(L, im, d);
    var end := ApplyAll(L, r.ops, d);
    Begins(L, end, 0, d0, 1, length1) && (r.rc == Ok ==> Begins(L, end, 1, d0, 0, length0))
  }

  /** The slot begins with the first bytes of the parts. */
  ghost predicate Holds(L: Layout, d: Device, slot: nat, p: seq<Bytes>, length: nat) {
    && length <= |Flat(p)| && length <= |SlotBytes(L, d, slot)|
    && SlotBytes(L, d, slot)[..length] == Flat(p)[..length]
  }

  lemma HoldsSame(L: Layout, d: Device, a: nat, e: Device, b: nat, p: seq<Bytes>, length: nat)
    requires Holds(L, d, a, p, length) && Holds(L, e, b, p, length)
    ensures Begins(L, d, a, e, b, length)
  {
  }

  lemma BuiltIs(L: Layout, im: Images, d: Device)
    requires im.Valid(L) && Initial(L, im, d) && d.disk == None
    ensures Effective(L, im, d) == Fresh(L, |im.p0|, |im.p1|)
  {
  }

  /** Slot `a` of `d` begins with the first bytes of slot `b` of `e`. */
  ghost predicate Begins(L: Layout, d: Device, a: nat, e: Device, b: nat, length: nat)
  {
    && length <= |SlotBytes(L, d, a)| && length <= |SlotBytes(L, e, b)|
    && SlotBytes(L, d, a)[..length] == SlotBytes(L, e, b)[..length]
  }

  lemma GoodSize(L: Layout, im: Images, d: Device)
    requires im.Valid(L) && GoodDevice(L, im, false, d)
    ensures WellFormed(L, d) && |Effective(L, im, d)| == L.count
  {
  }
}
