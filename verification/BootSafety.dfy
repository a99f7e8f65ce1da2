/** What the image swap keeps over any number of resets.

    Image 1 (the one to be booted) is never lost.  Image 0 can lose a part, and
    exactly when: a run that starts with the scratch area in use while some pair
    of parts still has to be swapped erases the scratch area.
 */
module BootSafety {
  import opened Common
  import opened BootProtocol

  /** The two images, cut into area-sized parts, and the table that is built
      from their headers when there is no status file. */
  datatype Images = Images(p0: seq<Bytes>, p1: seq<Bytes>, built: seq<Entry>) {
    ghost predicate Valid(L: Layout) {
      && L.Valid()
      && |p0| <= L.parts && |p1| <= L.parts
      && (forall i :: 0 <= i < |p0| ==> |p0[i]| == L.areaLen)
      && (forall i :: 0 <= i < |p1| ==> |p1[i]| == L.areaLen)
    }

    ghost predicate IsPart(e: Entry) {
      || (e.imageNum == 0 && 0 <= e.partNum < |p0|)
      || (e.imageNum == 1 && 0 <= e.partNum < |p1|)
    }

    ghost function Content(e: Entry): Bytes
      requires IsPart(e)
    {
      if e.imageNum == 0 then p0[e.partNum] else p1[e.partNum]
    }
  }

  // ------------------------------------------------------------- invariant

  /** A part only ever lies at its place in one of the slots; a part of image 0
      may also lie in the scratch area, if image 1 has a part of that number. */
  ghost predicate Allowed(L: Layout, im: Images, j: nat, e: Entry) {
    || e == NONE
    || (im.IsPart(e) &&
        (j == L.slot0 + e.partNum || j == L.slot1 + e.partNum ||
            (e.imageNum == 0 && e.partNum < |im.p1| && j == L.scratch)))
  }

  ghost predicate Recorded1(L: Layout, e: seq<Entry>, p: nat)
    requires |e| == L.count && L.slot0 + p < L.count && L.slot1 + p < L.count
  {
    (e[L.slot0 + p] == Entry(1, p)) != (e[L.slot1 + p] == Entry(1, p))
  }

  ghost predicate AtMostOnce0(L: Layout, e: seq<Entry>, p: nat)
    requires |e| == L.count && L.slot0 + p < L.count && L.slot1 + p < L.count && L.scratch < L.count
  {
    && (e[L.slot0 + p] == Entry(0, p) ==> e[L.slot1 + p] != Entry(0, p) && e[L.scratch] != Entry(0, p))
    && (e[L.slot1 + p] == Entry(0, p) ==> e[L.scratch] != Entry(0, p))
  }

  ghost predicate Recorded0(L: Layout, e: seq<Entry>, p: nat)
    requires |e| == L.count && L.slot0 + p < L.count && L.slot1 + p < L.count && L.scratch < L.count
  {
    e[L.slot0 + p] == Entry(0, p) || e[L.slot1 + p] == Entry(0, p) || e[L.scratch] == Entry(0, p)
  }

  ghost predicate SwapAt(L: Layout, e: seq<Entry>, p: nat)
    requires |e| == L.count && L.slot0 + p < L.count && L.slot1 + p < L.count
  {
    e[L.slot0 + p] == Entry(0, p) && e[L.slot1 + p] == Entry(1, p)
  }

  /** Some pair of parts has not been exchanged at all yet. */
  ghost predicate SwapPending(L: Layout, im: Images, e: seq<Entry>)
    requires im.Valid(L) && |e| == L.count
  {
    exists p :: 0 <= p < |im.p0| && p < |im.p1| && SwapAt(L, e, p)
  }

  /** The condition under which a run destroys a part of image 0. */
  ghost predicate Clash(L: Layout, im: Images, e: seq<Entry>)
    requires im.Valid(L) && |e| == L.count
  {
    e[L.scratch] != NONE && SwapPending(L, im, e)
  }

  ghost predicate Complete0(L: Layout, im: Images, e: seq<Entry>)
    requires im.Valid(L) && |e| == L.count
  {
    forall p :: 0 <= p < |im.p0| ==> Recorded0(L, e, p)
  }

  /** A status table the protocol can reach. */
  ghost predicate Table(L: Layout, im: Images, e: seq<Entry>)
    requires im.Valid(L)
  {
    && |e| == L.count
    && (forall j :: 0 <= j < |e| ==> Allowed(L, im, j, e[j]))
    && (forall p :: 0 <= p < |im.p1| ==> Recorded1(L, e, p))
    && (forall p :: 0 <= p < |im.p0| ==> AtMostOnce0(L, e, p))
  }

  /** Area `j` holds the part its entry names. */
  ghost predicate TruthAt(im: Images, e: Entry, content: Bytes) {
    im.IsPart(e) ==> content == im.Content(e)
  }

  /** Every recorded part is where the table says, except that the scratch area
      may be stale while a swap is pending (that swap will discard it).  With
      `both`, image 0 is complete and the scratch area is never stale. */
  ghost predicate Good(L: Layout, im: Images, both: bool, e: seq<Entry>, flash: seq<Bytes>)
    requires im.Valid(L)
  {
    && Table(L, im, e)
    && |flash| == L.count
    && (forall j :: 0 <= j < |flash| && j != L.scratch ==> TruthAt(im, e[j], flash[j]))
    && (both || !SwapPending(L, im, e) ==> TruthAt(im, e[L.scratch], flash[L.scratch]))
    && (both ==> Complete0(L, im, e))
  }

  /** The table a restart works from: the status file or, when none has been
      written yet, the one built from the image headers. */
  ghost function Effective(L: Layout, im: Images, d: Device): seq<Entry> {
    if d.disk.Some? then d.disk.value else im.built
  }

  ghost predicate GoodDevice(L: Layout, im: Images, both: bool, d: Device)
    requires im.Valid(L)
  {
    WellFormed(L, d) && Good(L, im, both, Effective(L, im, d), d.flash)
  }

  // ------------------------------------------------- one relocation of a part

  /** Erase, copy and status write: the common core of a move and of each third
      of a swap. */
  ghost predicate CanRelocate(L: Layout, im: Images, both: bool, e: seq<Entry>, flash: seq<Bytes>, src: nat, dst: nat)
    requires im.Valid(L) && Good(L, im, both, e, flash)
  {
    && src < L.count && dst < L.count && src != dst
    && im.IsPart(e[src]) && flash[src] == im.Content(e[src])
    && (if e[src].imageNum == 1 then dst == L.slot0 + e[src].partNum
        else dst == L.slot1 + e[src].partNum || (dst == L.scratch && e[src].partNum < |im.p1|))
    && (e[dst] == NONE || (dst == L.scratch && SwapPending(L, im, e) && !both))
  }

  /** While the copy is under way the old table is still good. */
  lemma RelocateDuring(L: Layout, im: Images, both: bool, e: seq<Entry>, flash: seq<Bytes>, src: nat, dst: nat,
      b: Bytes)
    requires im.Valid(L) && Good(L, im, both, e, flash)
    requires CanRelocate(L, im, both, e, flash, src, dst)
    ensures Good(L, im, both, e, flash[dst := b])
  {
  }

  /** The facts about one relocation that do not mention other positions. */
  ghost predicate Relocation(L: Layout, im: Images, e: seq<Entry>, src: nat, dst: nat)
    requires im.Valid(L)
  {
    && |e| == L.count && src < L.count && dst < L.count && src != dst
    && im.IsPart(e[src])
    && Allowed(L, im, src, e[src])
    && (if e[src].imageNum == 1 then dst == L.slot0 + e[src].partNum
        else dst == L.slot1 + e[src].partNum || (dst == L.scratch && e[src].partNum < |im.p1|))
    && (e[dst] == NONE || (dst == L.scratch && e[dst].imageNum == 0))
  }

  lemma RelocateRecorded1(L: Layout, im: Images, e: seq<Entry>, src: nat, dst: nat, p: nat)
    requires im.Valid(L) && Relocation(L, im, e, src, dst)
    requires p < |im.p1| && Recorded1(L, e, p)
    ensures Recorded1(L, Shift(e, src, dst), p)
  {
  }

  lemma RelocateRecorded0(L: Layout, im: Images, e: seq<Entry>, src: nat, dst: nat, p: nat)
    requires im.Valid(L) && Relocation(L, im, e, src, dst)
    requires p < |im.p0| && Recorded0(L, e, p) && e[dst] == NONE
    ensures Recorded0(L, Shift(e, src, dst), p)
  {
  }

  lemma RelocateSwapAt(L: Layout, im: Images, e: seq<Entry>, src: nat, dst: nat, p: nat)
    requires im.Valid(L) && Relocation(L, im, e, src, dst)
    requires p < |im.p0| && p < |im.p1|
    ensures SwapAt(L, Shift(e, src, dst), p) ==> SwapAt(L, e, p)
    ensures dst != L.scratch && SwapAt(L, e, p) ==> SwapAt(L, Shift(e, src, dst), p)
  {
  }

  lemma RelocateAtMostOnce0(L: Layout, im: Images, e: seq<Entry>, src: nat, dst: nat, p: nat)
    requires im.Valid(L) && Relocation(L, im, e, src, dst)
    requires p < |im.p0| && AtMostOnce0(L, e, p)
    ensures AtMostOnce0(L, Shift(e, src, dst), p)
  {
  }

  lemma RelocateTable(L: Layout, im: Images, both: bool, e: seq<Entry>, src: nat, dst: nat)
    requires im.Valid(L) && Table(L, im, e) && Relocation(L, im, e, src, dst)
    requires both ==> Complete0(L, im, e) && e[dst] == NONE
    ensures Table(L, im, Shift(e, src, dst))
    ensures both ==> Complete0(L, im, Shift(e, src, dst))
  {
    var e' := Shift(e, src, dst);
    forall p | 0 <= p < |im.p0|
      ensures AtMostOnce0(L, e', p)
    {
      RelocateAtMostOnce0(L, im, e, src, dst, p);
    }
    forall p | 0 <= p < |im.p1|
      ensures Recorded1(L, e', p)
    {
      RelocateRecorded1(L, im, e, src, dst, p);
    }
    if both {
      forall p | 0 <= p < |im.p0|
        ensures Recorded0(L, e', p)
      {
        RelocateRecorded0(L, im, e, src, dst, p);
      }
    }
  }

  lemma RelocatePending(L: Layout, im: Images, e: seq<Entry>, src: nat, dst: nat)
    requires im.Valid(L) && Relocation(L, im, e, src, dst)
    ensures SwapPending(L, im, Shift(e, src, dst)) ==> SwapPending(L, im, e)
    ensures dst != L.scratch && SwapPending(L, im, e) ==> SwapPending(L, im, Shift(e, src, dst))
  {
    forall p | 0 <= p < |im.p0| && p < |im.p1|
      ensures SwapAt(L, Shift(e, src, dst), p) ==> SwapAt(L, e, p)
      ensures dst != L.scratch && SwapAt(L, e, p) ==> SwapAt(L, Shift(e, src, dst), p)
    {
      RelocateSwapAt(L, im, e, src, dst, p);
    }
  }

  lemma RelocateTruth(L: Layout, im: Images, e: seq<Entry>, flash: seq<Bytes>, src: nat, dst: nat, j: nat)
    requires |e| == |flash| && src < |e| && dst < |e| && src != dst && j < |e|
    requires TruthAt(im, e[src], flash[src])
    requires j != src && j != dst ==> TruthAt(im, e[j], flash[j])
    ensures TruthAt(im, Shift(e, src, dst)[j], flash[dst := flash[src]][j])
  {
  }

  lemma RelocateAfter(L: Layout, im: Images, both: bool, e: seq<Entry>, flash: seq<Bytes>, src: nat, dst: nat)
    requires im.Valid(L) && Good(L, im, both, e, flash)
    requires CanRelocate(L, im, both, e, flash, src, dst)
    ensures Good(L, im, both, Shift(e, src, dst), flash[dst := flash[src]])
  {
    assert Relocation(L, im, e, src, dst);
    RelocateTable(L, im, both, e, src, dst);
    RelocatePending(L, im, e, src, dst);
    forall j: nat | j < |flash| && j != L.scratch
      ensures TruthAt(im, Shift(e, src, dst)[j], flash[dst := flash[src]][j])
    {
      RelocateTruth(L, im, e, flash, src, dst, j);
    }
  }

  // ------------------------------------------------------- runs and resets

  /** Whatever a reset during `ops` leaves behind is good. */
  ghost predicate Safe(L: Layout, im: Images, both: bool, ops: Ops, d: Device)
    requires im.Valid(L) && WellFormed(L, d) && OpsOk(L, ops)
  {
    forall c :: CrashAt(L, ops, d, c) ==> GoodDevice(L, im, both, c)
  }

  /** `ops` is safe throughout and ends in a good device recording table `e`. */
  ghost predicate StepSafe(L: Layout, im: Images, both: bool, ops: Ops, d: Device, e: seq<Entry>)
    requires im.Valid(L) && WellFormed(L, d)
  {
    && OpsOk(L, ops)
    && Safe(L, im, both, ops, d)
    && GoodDevice(L, im, both, ApplyAll(L, ops, d))
    && Effective(L, im, ApplyAll(L, ops, d)) == e
  }

  lemma StepAppend(L: Layout, im: Images, both: bool, a: Ops, b: Ops, d: Device, e: seq<Entry>, e': seq<Entry>)
    requires im.Valid(L) && WellFormed(L, d)
    requires StepSafe(L, im, both, a, d, e)
    requires StepSafe(L, im, both, b, ApplyAll(L, a, d), e')
    ensures StepSafe(L, im, both, Append(a, b), d, e')
    ensures ApplyAll(L, Append(a, b), d) == ApplyAll(L, b, ApplyAll(L, a, d))
  {
    SafeAppend(L, im, both, a, b, d);
  }

  lemma SafeAppend(L: Layout, im: Images, both: bool, a: Ops, b: Ops, d: Device)
    requires im.Valid(L) && WellFormed(L, d) && OpsOk(L, a) && OpsOk(L, b)
    requires Safe(L, im, both, a, d) && Safe(L, im, both, b, ApplyAll(L, a, d))
    ensures OpsOk(L, Append(a, b)) && Safe(L, im, both, Append(a, b), d)
    ensures ApplyAll(L, Append(a, b), d) == ApplyAll(L, b, ApplyAll(L, a, d))
  {
    ApplyAppend(L, a, b, d);
    forall c | CrashAt(L, Append(a, b), d, c)
      ensures GoodDevice(L, im, both, c)
    {
      CrashAppend(L, a, b, d, c);
    }
  }

  lemma RelocateApply(L: Layout, d: Device, src: nat, dst: nat, e: seq<Entry>)
    requires WellFormed(L, d) && src < L.count && dst < L.count && src != dst
    requires OpsOk(L, RelocateOps(src, dst, e))
    ensures ApplyAll(L, RelocateOps(src, dst, e), d) == Device(d.flash[dst := d.flash[src]], Some(e))
  {
    ProgramErased(d.flash[src]);
    var d1 := Apply(L, Erase(dst), d);
    var d2 := Apply(L, Copy(src, dst), d1);
    assert d2.flash == d.flash[dst := d.flash[src]];
    assert ApplyAll(L, Do(Persist(e), Done), d2) == Apply(L, Persist(e), d2);
  }

  lemma DiffersTwice(L: Layout, a: nat, d: Device, d': Device, d'': Device)
    requires WellFormed(L, d) && a < L.count
    requires DiffersAt(L, a, d, d') && DiffersAt(L, a, d', d'')
    ensures DiffersAt(L, a, d, d'')
  {
    assert d''.flash == d.flash[a := d''.flash[a]];
  }

  /** A reset while relocating leaves either the old table and an arbitrary
      destination, or the finished relocation. */
  lemma RelocateCrash(L: Layout, d: Device, src: nat, dst: nat, e: seq<Entry>, c: Device)
    requires WellFormed(L, d) && src < L.count && dst < L.count && src != dst
    requires OpsOk(L, RelocateOps(src, dst, e)) && CrashAt(L, RelocateOps(src, dst, e), d, c)
    ensures DiffersAt(L, dst, d, c) || c == ApplyAll(L, RelocateOps(src, dst, e), d)
  {
    var d1 := Apply(L, Erase(dst), d);
    var d2 := Apply(L, Copy(src, dst), d1);
    assert DiffersAt(L, dst, d, d) && DiffersAt(L, dst, d, d1) && DiffersAt(L, dst, d1, d2);
    if DiffersAt(L, dst, d1, c) {
      DiffersTwice(L, dst, d, d1, c);
    }
    var last := Do(Persist(e), Done);
    assert ApplyAll(L, last, d2) == Apply(L, Persist(e), d2) == ApplyAll(L, Done, Apply(L, Persist(e), d2));
    assert CrashAt(L, last, d2, c) ==> c == d2 || CrashAt(L, Done, Apply(L, Persist(e), d2), c);
    assert CrashAt(L, Done, Apply(L, Persist(e), d2), c) ==> c == Apply(L, Persist(e), d2);
    assert ApplyAll(L, RelocateOps(src, dst, e), d) == ApplyAll(L, Do(Copy(src, dst), last), d1) ==
        ApplyAll(L, last, d2);
  }

  lemma RelocateSafe(L: Layout, im: Images, both: bool, d: Device, e: seq<Entry>, src: nat, dst: nat)
    requires im.Valid(L) && GoodDevice(L, im, both, d) && e == Effective(L, im, d)
    requires CanRelocate(L, im, both, e, d.flash, src, dst)
    ensures StepSafe(L, im, both, ShiftOps(e, src, dst), d, Shift(e, src, dst))
    ensures ApplyAll(L, ShiftOps(e, src, dst), d) == Device(d.flash[dst := d.flash[src]], Some(Shift(e, src, dst)))
  {
    RelocateOk(L, src, dst, Shift(e, src, dst));
    RelocateApply(L, d, src, dst, Shift(e, src, dst));
    RelocateAfter(L, im, both, e, d.flash, src, dst);
    forall c | CrashAt(L, ShiftOps(e, src, dst), d, c)
      ensures GoodDevice(L, im, both, c)
    {
      RelocateCrash(L, d, src, dst, Shift(e, src, dst), c);
      if c != ApplyAll(L, ShiftOps(e, src, dst), d) {
        RelocateDuring(L, im, both, e, d.flash, src, dst, c.flash[dst]);
      }
    }
  }

  // ---------------------------------------------------- one part of a slot

  lemma EraseCrash(L: Layout, d: Device, a: nat, c: Device)
    requires WellFormed(L, d) && a < L.count && CrashAt(L, Do(Erase(a), Done), d, c)
    ensures DiffersAt(L, a, d, c)
  {
    assert DiffersAt(L, a, d, d) && DiffersAt(L, a, d, Apply(L, Erase(a), d));
  }

  lemma GoodShape(L: Layout, im: Images, both: bool, d: Device, e: seq<Entry>)
    requires im.Valid(L) && GoodDevice(L, im, both, d) && e == Effective(L, im, d)
    ensures |e| == L.count && WellFormed(L, d) && Table(L, im, e)
    ensures L.slot0 + |im.p1| <= L.count && L.slot1 + |im.p0| <= L.count && L.scratch < L.count
    ensures L.slot1 + |im.p1| <= L.count && L.slot0 + |im.p0| <= L.count
  {
  }

  /** Erasing an area the table does not use is harmless. */
  lemma EraseSafe(L: Layout, im: Images, both: bool, d: Device, a: nat)
    requires im.Valid(L) && GoodDevice(L, im, both, d)
    requires a < L.count && Effective(L, im, d)[a] == NONE
    ensures StepSafe(L, im, both, Do(Erase(a), Done), d, Effective(L, im, d))
  {
    forall c | CrashAt(L, Do(Erase(a), Done), d, c)
      ensures GoodDevice(L, im, both, c)
    {
      EraseCrash(L, d, a, c);
    }
  }

  lemma MoveSafe(L: Layout, im: Images, both: bool, d: Device, e: seq<Entry>, src: nat, dst: nat)
    requires im.Valid(L) && GoodDevice(L, im, both, d) && e == Effective(L, im, d)
    requires CanRelocate(L, im, both, e, d.flash, src, dst)
    ensures
      var en := e[src]; var ops := MoveOps(e, src, dst, en.imageNum, en.partNum);
      && Moved(e, src, dst, en.imageNum, en.partNum) == Shift(e, src, dst)
      && StepSafe(L, im, both, ops, d, Shift(e, src, dst))
  {
    var en := e[src];
    var ops := MoveOps(e, src, dst, en.imageNum, en.partNum);
    assert Moved(e, src, dst, en.imageNum, en.partNum) == Shift(e, src, dst);
    assert Append(Do(Persist(Shift(e, src, dst)), Done), Do(Erase(src), Done)) ==
        Do(Persist(Shift(e, src, dst)), Do(Erase(src), Done));
    assert ops == Append(ShiftOps(e, src, dst), Do(Erase(src), Done));
    RelocateSafe(L, im, both, d, e, src, dst);
    EraseSafe(L, im, both, ApplyAll(L, ShiftOps(e, src, dst), d), src);
    StepAppend(L, im, both, ShiftOps(e, src, dst), Do(Erase(src), Done), d, Shift(e, src, dst), Shift(e, src, dst));
  }

  /** The three relocations of a swap; `stage` says how far it has got. */
  ghost predicate SwapStage(L: Layout, im: Images, e: seq<Entry>, flash: seq<Bytes>, p: nat, stage: nat)
    requires im.Valid(L) && |e| == |flash| == L.count && p < |im.p0| && p < |im.p1|
  {
    var a, b, x := L.slot1 + p, L.slot0 + p, L.scratch;
    if stage == 1 then e[x] == Entry(0, p) && e[b] == NONE && e[a] == Entry(1, p) && flash[x] == im.p0[p]
    else e[x] == Entry(0, p) && e[b] == Entry(1, p) && e[a] == NONE && flash[x] == im.p0[p]
  }

  lemma SwapFirst(L: Layout, im: Images, both: bool, d: Device, e: seq<Entry>, p: nat)
    requires im.Valid(L) && GoodDevice(L, im, both, d) && e == Effective(L, im, d)
    requires p < |im.p0| && p < |im.p1| && SwapAt(L, e, p)
    requires both ==> e[L.scratch] == NONE
    ensures CanRelocate(L, im, both, e, d.flash, L.slot0 + p, L.scratch)
    ensures SwapStage(L, im, Shift(e, L.slot0 + p, L.scratch), d.flash[L.scratch := d.flash[L.slot0 + p]], p, 1)
  {
    assert Allowed(L, im, L.scratch, e[L.scratch]);
  }

  lemma SwapSecond(L: Layout, im: Images, both: bool, d: Device, e: seq<Entry>, p: nat)
    requires im.Valid(L) && GoodDevice(L, im, both, d) && e == Effective(L, im, d)
    requires p < |im.p0| && p < |im.p1| && SwapStage(L, im, e, d.flash, p, 1)
    ensures CanRelocate(L, im, both, e, d.flash, L.slot1 + p, L.slot0 + p)
    ensures SwapStage(L, im, Shift(e, L.slot1 + p, L.slot0 + p), d.flash[L.slot0 + p := d.flash[L.slot1 + p]], p, 2)
  {
  }

  lemma SwapThird(L: Layout, im: Images, both: bool, d: Device, e: seq<Entry>, p: nat)
    requires im.Valid(L) && GoodDevice(L, im, both, d) && e == Effective(L, im, d)
    requires p < |im.p0| && p < |im.p1| && SwapStage(L, im, e, d.flash, p, 2)
    ensures CanRelocate(L, im, both, e, d.flash, L.scratch, L.slot1 + p)
  {
  }

  lemma SwapSafe(L: Layout, im: Images, both: bool, d: Device, e: seq<Entry>, p: nat)
    requires im.Valid(L) && GoodDevice(L, im, both, d) && e == Effective(L, im, d)
    requires p < |im.p0| && p < |im.p1| && SwapAt(L, e, p)
    requires both ==> e[L.scratch] == NONE
    ensures StepSafe(L, im, both, SwapOps(e, L.slot1 + p, L.slot0 + p, L.scratch), d,
                     Swapped(e, L.slot1 + p, L.slot0 + p, L.scratch))
  {
    hide Good, Safe, SwapStage, CanRelocate, OpsOk, ApplyAll;
    GoodShape(L, im, both, d, e);
    var a, b, x := L.slot1 + p, L.slot0 + p, L.scratch;
    SwapFirst(L, im, both, d, e, p);
    RelocateSafe(L, im, both, d, e, b, x);
    var e1, d1 := Shift(e, b, x), ApplyAll(L, ShiftOps(e, b, x), d);
    SwapRest(L, im, both, d1, e1, p);
    StepAppend(L, im, both, ShiftOps(e, b, x), Append(ShiftOps(e1, a, b), ShiftOps(Shift(e1, a, b), x, a)), d, e1,
        Swapped(e, a, b, x));
  }

  lemma SwapRest(L: Layout, im: Images, both: bool, d1: Device, e1: seq<Entry>, p: nat)
    requires im.Valid(L) && GoodDevice(L, im, both, d1) && e1 == Effective(L, im, d1)
    requires p < |im.p0| && p < |im.p1| && SwapStage(L, im, e1, d1.flash, p, 1)
    ensures
      var a, b, x := L.slot1 + p, L.slot0 + p, L.scratch;
      var ops := Append(ShiftOps(e1, a, b), ShiftOps(Shift(e1, a, b), x, a));
      StepSafe(L, im, both, ops, d1, Shift(Shift(e1, a, b), x, a))
  {
    hide Good, Safe, SwapStage, CanRelocate, OpsOk, ApplyAll;
    GoodShape(L, im, both, d1, e1);
    var a, b, x := L.slot1 + p, L.slot0 + p, L.scratch;
    SwapSecond(L, im, both, d1, e1, p);
    RelocateSafe(L, im, both, d1, e1, a, b);
    var e2, d2 := Shift(e1, a, b), ApplyAll(L, ShiftOps(e1, a, b), d1);
    SwapThird(L, im, both, d2, e2, p);
    RelocateSafe(L, im, both, d2, e2, x, a);
    StepAppend(L, im, both, ShiftOps(e1, a, b), ShiftOps(e2, x, a), d1, e2, Shift(e2, x, a));
  }

  /** Image 1's part is found, in one of the two slots. */
  lemma FindPart1(L: Layout, im: Images, e: seq<Entry>, p: nat)
    requires im.Valid(L) && Table(L, im, e) && p < |im.p1|
    ensures FindPart(e, 1, p) == Some(if e[L.slot0 + p] == Entry(1, p) then L.slot0 + p else L.slot1 + p)
  {
    assert Recorded1(L, e, p);
    FindPartFirst(e, 1, p, 0, if e[L.slot0 + p] == Entry(1, p) then L.slot0 + p else L.slot1 + p);
    var r := FindPart(e, 1, p);
    assert Allowed(L, im, r.value, e[r.value]);
  }

  /** No area is recorded as holding part `r` of image 0. */
  ghost predicate Gone(e: seq<Entry>, r: nat) {
    forall j :: 0 <= j < |e| ==> e[j] != Entry(0, r)
  }

  /** Parts below `p` are in their final place in slot 0. */
  ghost predicate Filled0(L: Layout, im: Images, e: seq<Entry>, p: nat)
    requires im.Valid(L) && |e| == L.count && p <= |im.p1|
  {
    forall j :: L.slot0 <= j < L.slot0 + p ==> e[j] == Entry(1, j - L.slot0)
  }

  // ------------------------------------------------- phase A: fill slot 0

  /** The table after one iteration of phase A. */
  ghost function AfterA(L: Layout, im: Images, e: seq<Entry>, p: nat): (r: seq<Entry>)
    requires im.Valid(L) && |e| == L.count && p < |im.p1|
    ensures |r| == L.count
  {
    if e[L.slot0 + p] == Entry(1, p) then e
    else if e[L.slot0 + p] == NONE then e[L.slot1 + p := NONE][L.slot0 + p := Entry(1, p)]
    else e[L.slot1 + p := e[L.slot0 + p]][L.slot0 + p := Entry(1, p)][L.scratch := NONE]
  }

  lemma PartStepA(L: Layout, im: Images, e: seq<Entry>, p: nat, src: nat)
    requires im.Valid(L) && |e| == L.count && p < |im.p1| && Recorded1(L, e, p)
    requires Allowed(L, im, L.slot0 + p, e[L.slot0 + p])
    requires src == if e[L.slot0 + p] == Entry(1, p) then L.slot0 + p else L.slot1 + p
    ensures PartStep(L, e, 1, p, src, L.slot0 + p).entries == AfterA(L, im, e, p)
  {
  }

  lemma SwapLoses(L: Layout, im: Images, e: seq<Entry>, p: nat)
    requires im.Valid(L) && Table(L, im, e)
    requires p < |im.p0| && p < |im.p1| && SwapAt(L, e, p)
    ensures e[L.scratch] != NONE ==> Gone(AfterA(L, im, e, p), e[L.scratch].partNum)
  {
    assert Allowed(L, im, L.scratch, e[L.scratch]);
    if e[L.scratch] != NONE {
      var r := e[L.scratch].partNum;
      assert AtMostOnce0(L, e, r);
      forall j | 0 <= j < |e| && j != L.scratch
        ensures e[j] != Entry(0, r)
      {
        assert Allowed(L, im, j, e[j]);
      }
    }
  }

  lemma PartAFilled(L: Layout, im: Images, e: seq<Entry>, p: nat)
    requires im.Valid(L) && Table(L, im, e) && p < |im.p1| && Recorded1(L, e, p)
    requires Filled0(L, im, e, p)
    ensures Filled0(L, im, AfterA(L, im, e, p), p + 1)
  {
  }

  /** A move leaves the scratch area and the pending swaps alone; a swap frees
      the scratch area, and whatever part it held before is recorded nowhere. */
  lemma PartAScratch(L: Layout, im: Images, e: seq<Entry>, p: nat)
    requires im.Valid(L) && Table(L, im, e) && p < |im.p1| && Recorded1(L, e, p)
    ensures
      var e' := AfterA(L, im, e, p);
      if e[L.slot0 + p] in {NONE, Entry(1, p)} then
        e'[L.scratch] == e[L.scratch] && (SwapPending(L, im, e') <==> SwapPending(L, im, e))
      else
        e'[L.scratch] == NONE && SwapPending(L, im, e) && (e[L.scratch] != NONE ==> Gone(e', e[L.scratch].partNum))
  {
    if e[L.slot0 + p] == NONE {
      PartAMove(L, im, e, p);
    } else if e[L.slot0 + p] != Entry(1, p) {
      assert Allowed(L, im, L.slot0 + p, e[L.slot0 + p]);
      assert SwapAt(L, e, p);
      SwapLoses(L, im, e, p);
    }
  }

  lemma PartAMove(L: Layout, im: Images, e: seq<Entry>, p: nat)
    requires im.Valid(L) && Table(L, im, e) && p < |im.p1| && Recorded1(L, e, p)
    requires e[L.slot0 + p] == NONE
    ensures
      var e' := AfterA(L, im, e, p);
      e'[L.scratch] == e[L.scratch] && (SwapPending(L, im, e') <==> SwapPending(L, im, e))
  {
    var src, dst := L.slot1 + p, L.slot0 + p;
    assert AfterA(L, im, e, p) == Shift(e, src, dst);
    RelocatePending(L, im, e, src, dst);
  }

  lemma PartAGone(L: Layout, im: Images, e: seq<Entry>, p: nat, r: nat)
    requires im.Valid(L) && Table(L, im, e) && p < |im.p1| && Recorded1(L, e, p)
    requires Gone(e, r)
    ensures Gone(AfterA(L, im, e, p), r)
  {
  }

  lemma PartASafe(L: Layout, im: Images, both: bool, d: Device, e: seq<Entry>, p: nat, src: nat)
    requires im.Valid(L) && GoodDevice(L, im, both, d) && e == Effective(L, im, d)
    requires p < |im.p1| && Recorded1(L, e, p)
    requires both ==> !Clash(L, im, e)
    requires src == if e[L.slot0 + p] == Entry(1, p) then L.slot0 + p else L.slot1 + p
    ensures
      var s := PartStep(L, e, 1, p, src, L.slot0 + p);
      StepSafe(L, im, both, s.ops, d, s.entries)
  {
    var dst := L.slot0 + p;
    assert Allowed(L, im, dst, e[dst]);
    if src == dst {
    } else if e[dst] == NONE {
      MoveSafe(L, im, both, d, e, src, dst);
    } else {
      assert SwapAt(L, e, p);
      SwapSafe(L, im, both, d, e, p);
    }
  }

  /** The fill from part `p` is step `s` followed by the fill from `p + 1`. */
  ghost predicate Continues(L: Layout, e: seq<Entry>, s: Run, img: int, n: nat, start: nat, p: nat)
    requires |e| == |s.entries| == L.count && L.scratch < L.count && p < n && start + n <= L.count
  {
    FillRun(L, e, img, n, start, p) == Then(s, FillRun(L, s.entries, img, n, start, p + 1))
  }

  lemma ContinuesStep(L: Layout, im: Images, both: bool, d: Device, e: seq<Entry>, s: Run, img: int, n: nat,
      start: nat, p: nat)
    requires im.Valid(L) && WellFormed(L, d)
    requires |e| == |s.entries| == L.count && p < n && start + n <= L.count
    requires Continues(L, e, s, img, n, start, p)
    requires StepSafe(L, im, both, s.ops, d, s.entries)
    requires
      var rest := FillRun(L, s.entries, img, n, start, p + 1);
      StepSafe(L, im, both, rest.ops, ApplyAll(L, s.ops, d), rest.entries)
    ensures
      var f := FillRun(L, e, img, n, start, p);
      var rest := FillRun(L, s.entries, img, n, start, p + 1);
      && StepSafe(L, im, both, f.ops, d, f.entries)
      && f.rc == rest.rc && f.entries == rest.entries
  {
    hide FillRun, Safe, Good;
    var rest := FillRun(L, s.entries, img, n, start, p + 1);
    StepAppend(L, im, both, s.ops, rest.ops, d, s.entries, rest.entries);
  }

  /** Part `r` of image 0 is recorded nowhere, or sits in the scratch area that
      a pending swap will erase. */
  ghost predicate Doomed(L: Layout, im: Images, e: seq<Entry>, r: nat)
    requires im.Valid(L) && |e| == L.count
  {
    Gone(e, r) || (e[L.scratch] == Entry(0, r) && SwapPending(L, im, e))
  }

  lemma PartADoomed(L: Layout, im: Images, e: seq<Entry>, p: nat, r: nat)
    requires im.Valid(L) && Table(L, im, e) && p < |im.p1| && Recorded1(L, e, p)
    ensures Doomed(L, im, e, r) ==> Doomed(L, im, AfterA(L, im, e, p), r)
    ensures !Clash(L, im, e) ==> !Clash(L, im, AfterA(L, im, e, p))
  {
    PartAScratch(L, im, e, p);
    if Gone(e, r) {
      PartAGone(L, im, e, p, r);
    }
  }

  lemma TableAt(L: Layout, im: Images, e: seq<Entry>, p: nat)
    requires im.Valid(L) && Table(L, im, e) && p < |im.p1|
    ensures Recorded1(L, e, p) && Allowed(L, im, L.slot0 + p, e[L.slot0 + p])
  {
  }

  lemma StepA(L: Layout, im: Images, both: bool, d: Device, e: seq<Entry>, p: nat, r: nat) returns (s: Run, d': Device)
    requires im.Valid(L) && GoodDevice(L, im, both, d) && e == Effective(L, im, d)
    requires p < |im.p1| && Filled0(L, im, e, p)
    requires both ==> !Clash(L, im, e)
    ensures StepSafe(L, im, both, s.ops, d, s.entries)
    ensures d' == ApplyAll(L, s.ops, d) && GoodDevice(L, im, both, d') && Effective(L, im, d') == s.entries
    ensures |s.entries| == L.count
    ensures Filled0(L, im, s.entries, p + 1)
    ensures both ==> !Clash(L, im, s.entries)
    ensures Doomed(L, im, e, r) ==> Doomed(L, im, s.entries, r)
    ensures Continues(L, e, s, 1, |im.p1|, L.slot0, p)
    ensures AssertsHold(L, s.entries, 1, |im.p1|, L.slot0, p + 1) ==> AssertsHold(L, e, 1, |im.p1|, L.slot0, p)
  {
    hide Table, Good, GoodDevice, SwapPending, FillRun, FindPartFrom, PartStep, AfterA, Recorded1, Filled0, Clash,
        Doomed, AssertsHold, Safe;
    GoodShape(L, im, both, d, e);
    TableAt(L, im, e, p);
    FindPart1(L, im, e, p);
    var src := FindPart(e, 1, p).value;
    s := PartStep(L, e, 1, p, src, L.slot0 + p);
    PartASafe(L, im, both, d, e, p, src);
    PartStepA(L, im, e, p, src);
    d' := ApplyAll(L, s.ops, d);
    PartAFilled(L, im, e, p);
    PartADoomed(L, im, e, p, r);
    FillUnfold(L, e, 1, |im.p1|, L.slot0, p);
    if AssertsHold(L, s.entries, 1, |im.p1|, L.slot0, p + 1) {
      AssertsUnfold(L, e, 1, |im.p1|, L.slot0, p, src);
    }
  }

  /** Phase A from part `p` on: it never fails, it is safe throughout, image 1
      ends up in slot 0, and a doomed part of image 0 is gone at the end. */
  lemma {:induction false} FillA(L: Layout, im: Images, both: bool, d: Device, e: seq<Entry>, p: nat, r: nat)
    requires im.Valid(L) && GoodDevice(L, im, both, d) && e == Effective(L, im, d)
    requires p <= |im.p1| && Filled0(L, im, e, p)
    requires both ==> !Clash(L, im, e)
    ensures
      var f := FillRun(L, e, 1, |im.p1|, L.slot0, p);
      && f.rc == Ok
      && StepSafe(L, im, both, f.ops, d, f.entries)
      && Filled0(L, im, f.entries, |im.p1|)
      && AssertsHold(L, e, 1, |im.p1|, L.slot0, p)
      && (Doomed(L, im, e, r) ==> Gone(f.entries, r))
    decreases |im.p1| - p
  {
    hide *;
    GoodShape(L, im, both, d, e);
    if p < |im.p1| {
      var s, d' := StepA(L, im, both, d, e, p, r);
      FillA(L, im, both, d', s.entries, p + 1, r);
      ContinuesStep(L, im, both, d, e, s, 1, |im.p1|, L.slot0, p);
    } else {
      FillAEnd(L, im, both, d, e, r);
    }
  }

  lemma FillAEnd(L: Layout, im: Images, both: bool, d: Device, e: seq<Entry>, r: nat)
    requires im.Valid(L) && GoodDevice(L, im, both, d) && e == Effective(L, im, d)
    requires Filled0(L, im, e, |im.p1|)
    ensures FillRun(L, e, 1, |im.p1|, L.slot0, |im.p1|) == Run(Done, e, Ok)
    ensures AssertsHold(L, e, 1, |im.p1|, L.slot0, |im.p1|)
    ensures StepSafe(L, im, both, Done, d, e)
    ensures Doomed(L, im, e, r) ==> Gone(e, r)
  {
    FilledNoSwap(L, im, e);
  }

  lemma FilledNoSwap(L: Layout, im: Images, e: seq<Entry>)
    requires im.Valid(L) && |e| == L.count && Filled0(L, im, e, |im.p1|)
    ensures !SwapPending(L, im, e)
  {
    forall q | 0 <= q < |im.p0| && q < |im.p1|
      ensures !SwapAt(L, e, q)
    {
      assert e[L.slot0 + q] == Entry(1, q);
    }
  }

  // ------------------------------------------------- phase B: fill slot 1

  ghost predicate Filled1(L: Layout, im: Images, e: seq<Entry>, p: nat)
    requires im.Valid(L) && |e| == L.count && p <= |im.p0|
  {
    forall j :: L.slot1 <= j < L.slot1 + p ==> e[j] == Entry(0, j - L.slot1)
  }

  /** Once slot 0 holds image 1, the place of an image 0 part in slot 1 is free
      or already right. */
  lemma FindPart0(L: Layout, im: Images, e: seq<Entry>, p: nat)
    requires im.Valid(L) && Table(L, im, e) && p < |im.p0| && Filled0(L, im, e, |im.p1|)
    requires FindPart(e, 0, p).Some?
    ensures
      var src := FindPart(e, 0, p).value;
      && (src == L.slot0 + p || src == L.slot1 + p || src == L.scratch)
      && (src != L.slot1 + p ==> e[L.slot1 + p] == NONE)
  {
    var src := FindPart(e, 0, p).value;
    assert Allowed(L, im, src, e[src]) && Allowed(L, im, L.slot1 + p, e[L.slot1 + p]);
    assert AtMostOnce0(L, e, p);
    if p < |im.p1| {
      assert Recorded1(L, e, p) && e[L.slot0 + p] == Entry(1, p);
    }
  }

  ghost function AfterB(L: Layout, e: seq<Entry>, p: nat, src: nat): (r: seq<Entry>)
    requires |e| == L.count && src < L.count && L.slot1 + p < L.count
    ensures |r| == L.count
  {
    e[src := NONE][L.slot1 + p := Entry(0, p)]
  }

  lemma PartBTable(L: Layout, im: Images, e: seq<Entry>, p: nat, src: nat, r: nat)
    requires im.Valid(L) && |e| == L.count && p < |im.p0|
    requires Filled0(L, im, e, |im.p1|) && Filled1(L, im, e, p)
    requires src == L.slot0 + p || src == L.slot1 + p || src == L.scratch
    requires e[src] == Entry(0, p)
    ensures Filled0(L, im, AfterB(L, e, p, src), |im.p1|)
    ensures Filled1(L, im, AfterB(L, e, p, src), p + 1)
    ensures Gone(e, r) ==> Gone(AfterB(L, e, p, src), r)
  {
  }

  lemma PartBSafe(L: Layout, im: Images, both: bool, d: Device, e: seq<Entry>, p: nat, src: nat)
    requires im.Valid(L) && GoodDevice(L, im, both, d) && e == Effective(L, im, d)
    requires p < |im.p0| && !SwapPending(L, im, e)
    requires src == L.slot0 + p || src == L.slot1 + p || src == L.scratch
    requires e[src] == Entry(0, p) && (src != L.slot1 + p ==> e[L.slot1 + p] == NONE)
    ensures
      var s := PartStep(L, e, 0, p, src, L.slot1 + p);
      StepSafe(L, im, both, s.ops, d, s.entries) && s.entries == AfterB(L, e, p, src)
  {
    if src != L.slot1 + p {
      assert TruthAt(im, e[src], d.flash[src]);
      MoveSafe(L, im, both, d, e, src, L.slot1 + p);
    }
  }

  lemma StepB(L: Layout, im: Images, both: bool, d: Device, e: seq<Entry>, p: nat, r: nat) returns (s: Run, d': Device)
    requires im.Valid(L) && GoodDevice(L, im, both, d) && e == Effective(L, im, d)
    requires p < |im.p0| && Filled0(L, im, e, |im.p1|) && Filled1(L, im, e, p)
    requires FindPart(e, 0, p).Some?
    ensures StepSafe(L, im, both, s.ops, d, s.entries)
    ensures d' == ApplyAll(L, s.ops, d) && GoodDevice(L, im, both, d') && Effective(L, im, d') == s.entries
    ensures |s.entries| == L.count
    ensures Filled0(L, im, s.entries, |im.p1|) && Filled1(L, im, s.entries, p + 1)
    ensures Gone(e, r) ==> Gone(s.entries, r)
    ensures Continues(L, e, s, 0, |im.p0|, L.slot1, p)
    ensures AssertsHold(L, s.entries, 0, |im.p0|, L.slot1, p + 1) ==> AssertsHold(L, e, 0, |im.p0|, L.slot1, p)
  {
    hide Table, Good, GoodDevice, SwapPending, FillRun, FindPartFrom, PartStep, AfterB, Filled0, Filled1, Gone,
        AssertsHold, Safe;
    GoodShape(L, im, both, d, e);
    FindPart0(L, im, e, p);
    FilledNoSwap(L, im, e);
    var src := FindPart(e, 0, p).value;
    s := PartStep(L, e, 0, p, src, L.slot1 + p);
    PartBSafe(L, im, both, d, e, p, src);
    d' := ApplyAll(L, s.ops, d);
    PartBTable(L, im, e, p, src, r);
    FillUnfold(L, e, 0, |im.p0|, L.slot1, p);
    if AssertsHold(L, s.entries, 0, |im.p0|, L.slot1, p + 1) {
      AssertsUnfold(L, e, 0, |im.p0|, L.slot1, p, src);
    }
  }

  /** Phase B from part `p` on: safe throughout; it succeeds exactly when no part
      of image 0 is missing, and then slot 1 holds image 0. */
  lemma {:induction false} FillB(L: Layout, im: Images, both: bool, d: Device, e: seq<Entry>, p: nat, r: nat)
    requires im.Valid(L) && GoodDevice(L, im, both, d) && e == Effective(L, im, d)
    requires p <= |im.p0| && Filled0(L, im, e, |im.p1|) && Filled1(L, im, e, p)
    ensures
      var f := FillRun(L, e, 0, |im.p0|, L.slot1, p);
      && StepSafe(L, im, both, f.ops, d, f.entries)
      && Filled0(L, im, f.entries, |im.p1|)
      && (f.rc == Ok ==> Filled1(L, im, f.entries, |im.p0|))
      && (both ==> f.rc == Ok)
      && AssertsHold(L, e, 0, |im.p0|, L.slot1, p)
      && (Gone(e, r) ==> Gone(f.entries, r)) && (Gone(e, r) && p <= r < |im.p0| ==> f.rc == BadImage)
    decreases |im.p0| - p
  {
    hide *;
    GoodShape(L, im, both, d, e);
    if p < |im.p0| && FindPart(e, 0, p).Some? {
      if Gone(e, r) && p == r {
        GoneNotFound(e, r);
        assert false;
      }
      var s, d' := StepB(L, im, both, d, e, p, r);
      FillB(L, im, both, d', s.entries, p + 1, r);
      ContinuesStep(L, im, both, d, e, s, 0, |im.p0|, L.slot1, p);
    } else {
      FillBEnd(L, im, both, d, e, p);
    }
  }

  lemma GoneNotFound(e: seq<Entry>, r: nat)
    requires Gone(e, r)
    ensures FindPart(e, 0, r).None?
  {
  }

  lemma FillBEnd(L: Layout, im: Images, both: bool, d: Device, e: seq<Entry>, p: nat)
    requires im.Valid(L) && GoodDevice(L, im, both, d) && e == Effective(L, im, d)
    requires p <= |im.p0| && (p < |im.p0| ==> FindPart(e, 0, p).None?)
    ensures FillRun(L, e, 0, |im.p0|, L.slot1, p) == Run(Done, e, if p == |im.p0| then Ok else BadImage)
    ensures StepSafe(L, im, both, Done, d, e)
    ensures both ==> p == |im.p0|
    ensures AssertsHold(L, e, 0, |im.p0|, L.slot1, p)
  {
    if p < |im.p0| && Recorded0(L, e, p) {
      var j := if e[L.slot0 + p] == Entry(0, p) then L.slot0 + p
               else if e[L.slot1 + p] == Entry(0, p) then L.slot1 + p else L.scratch;
      FindPartFirst(e, 0, p, 0, j);
    }
  }

  // ------------------------------------------------------------- theorems

  /** The run of boot_copy_image after a restart from device `d`. */
  ghost function RunFrom(L: Layout, im: Images, d: Device): (r: Run)
    requires im.Valid(L) && |Effective(L, im, d)| == L.count
    ensures OpsOk(L, r.ops)
  {
    CopyRun(L, Effective(L, im, d), |im.p0|, |im.p1|)
  }

  /** Image 0 survives this run. */
  ghost predicate Keeps0(L: Layout, im: Images, e: seq<Entry>)
    requires im.Valid(L) && |e| == L.count
  {
    Complete0(L, im, e) && !Clash(L, im, e)
  }

  lemma KeepsBoth(L: Layout, im: Images, d: Device)
    requires im.Valid(L) && GoodDevice(L, im, false, d)
    ensures GoodDevice(L, im, Keeps0(L, im, Effective(L, im, d)), d)
  {
  }

  lemma NotKept(L: Layout, im: Images, e: seq<Entry>) returns (r: nat)
    requires im.Valid(L) && Table(L, im, e) && !Keeps0(L, im, e)
    ensures r < |im.p0| && Doomed(L, im, e, r)
  {
    if !Complete0(L, im, e) {
      r :| 0 <= r < |im.p0| && !Recorded0(L, e, r);
      forall j | 0 <= j < |e|
        ensures e[j] != Entry(0, r)
      {
        assert Allowed(L, im, j, e[j]);
      }
    } else {
      assert Allowed(L, im, L.scratch, e[L.scratch]);
      r := e[L.scratch].partNum;
    }
  }

  lemma FilledFlash(L: Layout, im: Images, both: bool, d: Device)
    requires im.Valid(L) && GoodDevice(L, im, both, d)
    ensures Filled0(L, im, Effective(L, im, d), |im.p1|) ==> forall p :: 0 <= p < |im.p1| ==>
            d.flash[L.slot0 + p] == im.p1[p]
    ensures Filled1(L, im, Effective(L, im, d), |im.p0|) ==> forall p :: 0 <= p < |im.p0| ==>
            d.flash[L.slot1 + p] == im.p0[p]
  {
    var e := Effective(L, im, d);
    if Filled0(L, im, e, |im.p1|) {
      forall p | 0 <= p < |im.p1|
        ensures d.flash[L.slot0 + p] == im.p1[p]
      {
        assert TruthAt(im, e[L.slot0 + p], d.flash[L.slot0 + p]);
      }
    }
    if Filled1(L, im, e, |im.p0|) {
      forall p | 0 <= p < |im.p0|
        ensures d.flash[L.slot1 + p] == im.p0[p]
      {
        assert TruthAt(im, e[L.slot1 + p], d.flash[L.slot1 + p]);
      }
    }
  }

  lemma CopyRunSafe(L: Layout, im: Images, both: bool, d: Device, r: nat)
    requires im.Valid(L) && GoodDevice(L, im, false, d) && GoodDevice(L, im, both, d)
    requires both ==> !Clash(L, im, Effective(L, im, d))
    ensures
      var f := RunFrom(L, im, d);
      && StepSafe(L, im, both, f.ops, d, f.entries)
      && Filled0(L, im, f.entries, |im.p1|)
      && (f.rc == Ok ==> Filled1(L, im, f.entries, |im.p0|))
      && (both ==> f.rc == Ok)
      && (Doomed(L, im, Effective(L, im, d), r) && r < |im.p0| ==> f.rc == BadImage && Gone(f.entries, r))
  {
    hide Good, SwapPending, Safe, Gone, FillRun, Doomed, Clash;
    var e := Effective(L, im, d);
    GoodShape(L, im, both, d, e);
    FillA(L, im, both, d, e, 0, r);
    var a := FillRun(L, e, 1, |im.p1|, L.slot0, 0);
    FillB(L, im, both, ApplyAll(L, a.ops, d), a.entries, 0, r);
    var b := FillRun(L, a.entries, 0, |im.p0|, L.slot1, 0);
    StepAppend(L, im, both, a.ops, b.ops, d, a.entries, b.entries);
  }

  /** A run of boot_copy_image that is not interrupted, from any device the
      protocol can reach: slot 0 ends up holding image 1.  It returns success
      exactly when image 0 is complete and no swap is pending while the scratch
      area is in use; then slot 1 holds image 0. */
  lemma UninterruptedRun(L: Layout, im: Images, d: Device)
    requires im.Valid(L) && GoodDevice(L, im, false, d)
    ensures
      var end := ApplyAll(L, RunFrom(L, im, d).ops, d);
      && (forall p :: 0 <= p < |im.p1| ==> end.flash[L.slot0 + p] == im.p1[p])
      && (RunFrom(L, im, d).rc == Ok <==> Keeps0(L, im, Effective(L, im, d)))
      && (RunFrom(L, im, d).rc == Ok ==> forall p :: 0 <= p < |im.p0| ==> end.flash[L.slot1 + p] == im.p0[p])
  {
    var e := Effective(L, im, d);
    var both := Keeps0(L, im, e);
    KeepsBoth(L, im, d);
    var r := 0;
    if !both {
      r := NotKept(L, im, e);
    }
    CopyRunSafe(L, im, both, d, r);
    FilledFlash(L, im, both, ApplyAll(L, RunFrom(L, im, d).ops, d));
  }

  /** The devices met over successive resets: each restart works from what the
      interrupted run before it left behind. */
  ghost predicate CrashStep(L: Layout, im: Images, d: Device, d': Device)
    requires im.Valid(L)
  {
    && WellFormed(L, d) && |Effective(L, im, d)| == L.count
    && CrashAt(L, RunFrom(L, im, d).ops, d, d')
  }

  ghost predicate CrashChain(L: Layout, im: Images, chain: seq<Device>)
    requires im.Valid(L)
  {
    forall i :: 0 <= i < |chain| - 1 ==> CrashStep(L, im, chain[i], chain[i + 1])
  }

  /** Both images complete in their slots, no reset yet. */
  ghost predicate Initial(L: Layout, im: Images, d: Device)
    requires im.Valid(L)
  {
    && WellFormed(L, d)
    && im.built == Fresh(L, |im.p0|, |im.p1|)
    && (d.disk == Some(im.built) || d.disk == None)
    && (forall p :: 0 <= p < |im.p0| ==> d.flash[L.slot0 + p] == im.p0[p])
    && (forall p :: 0 <= p < |im.p1| ==> d.flash[L.slot1 + p] == im.p1[p])
  }

  /** A restart finds the table again: in the status file, or because both slots have a header. */
  ghost predicate Restartable(im: Images, d: Device) {
    d.disk.Some? || (|im.p0| > 0 && |im.p1| > 0)
  }

  lemma FreshTable(L: Layout, im: Images)
    requires im.Valid(L)
    ensures
      var e := Fresh(L, |im.p0|, |im.p1|);
      Table(L, im, e) && Complete0(L, im, e) && e[L.scratch] == NONE
  {
    var e := Fresh(L, |im.p0|, |im.p1|);
    forall p | 0 <= p < |im.p1|
      ensures Recorded1(L, e, p)
    {
    }
    forall p | 0 <= p < |im.p0|
      ensures Recorded0(L, e, p) && AtMostOnce0(L, e, p)
    {
    }
  }

  /** Flash with the two images in their slots. */
  ghost function Installed(L: Layout, p0: seq<Bytes>, p1: seq<Bytes>): seq<Bytes> {
    seq(L.count, i requires 0 <= i < L.count =>
      if L.slot0 <= i < L.slot0 + |p0| then p0[i - L.slot0]
      else if L.slot1 <= i < L.slot1 + |p1| then p1[i - L.slot1] else Erased(L.areaLen))
  }

  /** Any two images that fit can be the ones to exchange. */
  lemma InstalledInitial(L: Layout, im: Images)
    requires im.Valid(L) && im.built == Fresh(L, |im.p0|, |im.p1|)
    ensures Initial(L, im, Device(Installed(L, im.p0, im.p1), None))
  {
    hide Fresh;
    var flash := Installed(L, im.p0, im.p1);
    forall i | 0 <= i < |flash|
      ensures |flash[i]| == L.areaLen
    {
      assert |Erased(L.areaLen)| == L.areaLen;
    }
  }

  lemma InitialGood(L: Layout, im: Images, d: Device)
    requires im.Valid(L) && Initial(L, im, d)
    ensures GoodDevice(L, im, true, d) && GoodDevice(L, im, false, d) && !Clash(L, im, Effective(L, im, d))
  {
    FreshTable(L, im);
    forall j | 0 <= j < L.count && j != L.scratch
      ensures TruthAt(im, im.built[j], d.flash[j])
    {
      if L.slot0 <= j < L.slot0 + |im.p0| {
        assert d.flash[L.slot0 + (j - L.slot0)] == im.p0[j - L.slot0];
      } else if L.slot1 <= j < L.slot1 + |im.p1| {
        assert d.flash[L.slot1 + (j - L.slot1)] == im.p1[j - L.slot1];
      }
    }
  }

  lemma CrashStepGood(L: Layout, im: Images, d: Device, d': Device)
    requires im.Valid(L) && GoodDevice(L, im, false, d) && CrashStep(L, im, d, d')
    ensures GoodDevice(L, im, false, d')
  {
    CopyRunSafe(L, im, false, d, 0);
  }

  /** Over any number of resets at any point, every part of image 1 stays
      recorded at an area that holds it. */
  lemma {:induction false} Image1NeverLost(L: Layout, im: Images, chain: seq<Device>)
    requires im.Valid(L) && |chain| > 0 && Initial(L, im, chain[0]) && Restartable(im, chain[0]) &&
             CrashChain(L, im, chain)
    ensures GoodDevice(L, im, false, chain[|chain| - 1])
    decreases |chain|
  {
    hide Good, RunFrom, CrashAt, Initial, StepSafe;
    if |chain| == 1 {
      InitialGood(L, im, chain[0]);
    } else {
      var n := |chain| - 1;
      assert chain[..n][0] == chain[0];
      assert CrashChain(L, im, chain[..n]) by {
        forall i | 0 <= i < n - 1
          ensures CrashStep(L, im, chain[..n][i], chain[..n][i + 1])
        {
          assert CrashStep(L, im, chain[i], chain[i + 1]);
        }
      }
      Image1NeverLost(L, im, chain[..n]);
      assert CrashStep(L, im, chain[n - 1], chain[n]);
      CrashStepGood(L, im, chain[n - 1], chain[n]);
    }
  }

  /** A run that starts with image 0 complete and without a clash, for instance
      with the scratch area unused, keeps both images at every reset point, and
      exchanges them if it is not interrupted. */
  lemma BothImagesKept(L: Layout, im: Images, d: Device, c: Device)
    requires im.Valid(L) && GoodDevice(L, im, false, d) && Keeps0(L, im, Effective(L, im, d))
    requires CrashAt(L, RunFrom(L, im, d).ops, d, c)
    ensures GoodDevice(L, im, true, c)
  {
    KeepsBoth(L, im, d);
    CopyRunSafe(L, im, true, d, 0);
  }

  /** The exchange: from the built table, an uninterrupted run succeeds and the
      images have changed places. */
  lemma FreshRunExchanges(L: Layout, im: Images, d: Device)
    requires im.Valid(L) && Initial(L, im, d)
    ensures RunFrom(L, im, d).rc == Ok
    ensures
      var end := ApplyAll(L, RunFrom(L, im, d).ops, d);
      && (forall p :: 0 <= p < |im.p1| ==> end.flash[L.slot0 + p] == im.p1[p])
      && (forall p :: 0 <= p < |im.p0| ==> end.flash[L.slot1 + p] == im.p0[p])
  {
    InitialGood(L, im, d);
    UninterruptedRun(L, im, d);
  }

  // ------------------------------------------------- when both images survive every reset

  /** Where the images have no two part numbers in common, no table clashes. */
  lemma NoClash(L: Layout, im: Images, e: seq<Entry>)
    requires im.Valid(L) && Table(L, im, e) && (|im.p0| < 2 || |im.p1| < 2)
    ensures !Clash(L, im, e)
  {
    assert Allowed(L, im, L.scratch, e[L.scratch]);
    assert |im.p0| > 0 ==> AtMostOnce0(L, e, 0);
  }

  /** Images that have no two part numbers in common both survive any number of
      resets, and a run that is not interrupted then exchanges them. */
  lemma {:induction false} BothNeverLost(L: Layout, im: Images, chain: seq<Device>)
    requires im.Valid(L) && |chain| > 0 && Initial(L, im, chain[0]) && Restartable(im, chain[0]) &&
             CrashChain(L, im, chain)
    requires |im.p0| < 2 || |im.p1| < 2
    ensures
      var d := chain[|chain| - 1];
      GoodDevice(L, im, true, d) && GoodDevice(L, im, false, d) && RunFrom(L, im, d).rc == Ok
    decreases |chain|
  {
    hide Good, Initial, RunFrom, Clash;
    var n := |chain| - 1;
    if n == 0 {
      InitialGood(L, im, chain[0]);
    } else {
      forall i | 0 <= i < n - 1
        ensures CrashStep(L, im, chain[..n][i], chain[..n][i + 1])
      {
        assert CrashStep(L, im, chain[i], chain[i + 1]);
      }
      BothNeverLost(L, im, chain[..n]);
      assert CrashStep(L, im, chain[n - 1], chain[n]);
      CrashStepGood(L, im, chain[n - 1], chain[n]);
      GoodKeeps(L, im, chain[n - 1]);
      BothImagesKept(L, im, chain[n - 1], chain[n]);
    }
    GoodKeeps(L, im, chain[n]);
    UninterruptedRun(L, im, chain[n]);
  }

  lemma GoodKeeps(L: Layout, im: Images, d: Device)
    requires im.Valid(L) && GoodDevice(L, im, true, d) && (|im.p0| < 2 || |im.p1| < 2)
    ensures |Effective(L, im, d)| == L.count && Keeps0(L, im, Effective(L, im, d))
  {
    NoClash(L, im, Effective(L, im, d));
  }

  /** Images with two part numbers in common do not: a reset right after the first
      status write leaves part 0 of image 0 in the scratch area, and the next run
      erases it for the swap of part 1 and ends without that part. */
  lemma ClashReached(L: Layout, im: Images, d: Device) returns (c: Device)
    requires im.Valid(L) && Initial(L, im, d) && |im.p0| >= 2 && |im.p1| >= 2
    ensures CrashStep(L, im, d, c) && GoodDevice(L, im, false, c)
    ensures Effective(L, im, c)[L.scratch] == Entry(0, 0) && Clash(L, im, Effective(L, im, c))
    ensures RunFrom(L, im, c).rc == BadImage
    ensures Gone(Effective(L, im, ApplyAll(L, RunFrom(L, im, c).ops, c)), 0)
  {
    FirstSwap(L, im, d);
    InitialGood(L, im, d);
    var ops := RunFrom(L, im, d).ops;
    assert OpsOk(L, ops.rest) && OpsOk(L, ops.rest.rest);
    c := Apply(L, ops.rest.rest.op, Apply(L, ops.rest.op, Apply(L, ops.op, d)));
    ThirdCrash(L, ops, d, c);
    FirstTable(L, im);
    hide Good, RunFrom, SwapPending, Table;
    CrashStepGood(L, im, d, c);
    CopyRunSafe(L, im, false, c, 0);
  }

  lemma FirstTable(L: Layout, im: Images)
    requires im.Valid(L) && im.built == Fresh(L, |im.p0|, |im.p1|) && |im.p0| >= 2 && |im.p1| >= 2
    ensures
      var e := Shift(im.built, L.slot0, L.scratch);
      |e| == L.count && e[L.scratch] == Entry(0, 0) && SwapPending(L, im, e)
  {
    assert SwapAt(L, Shift(im.built, L.slot0, L.scratch), 1);
  }

  lemma ThirdCrash(L: Layout, ops: Ops, d: Device, c: Device)
    requires WellFormed(L, d) && OpsOk(L, ops) && ops.Do? && OpsOk(L, ops.rest) && ops.rest.Do? &&
             OpsOk(L, ops.rest.rest) && ops.rest.rest.Do?
    requires c == Apply(L, ops.rest.rest.op, Apply(L, ops.rest.op, Apply(L, ops.op, d)))
    ensures CrashAt(L, ops, d, c)
  {
    var d1 := Apply(L, ops.op, d);
    var d2 := Apply(L, ops.rest.op, d1);
    assert CrashAt(L, ops.rest.rest.rest, c, c);
    assert CrashAt(L, ops.rest.rest, d2, c);
    assert CrashAt(L, ops.rest, d1, c);
  }

  /** The run from two fresh images begins with the backup of part 0 of image 0. */
  lemma FirstSwap(L: Layout, im: Images, d: Device)
    requires im.Valid(L) && Initial(L, im, d) && |im.p0| > 0 && |im.p1| > 0
    ensures
      var ops := RunFrom(L, im, d).ops;
      && |im.built| == L.count && Moves(ops, L.slot0, L.scratch) && ops.rest.rest.Do?
      && ops.rest.rest.op == Persist(Shift(im.built, L.slot0, L.scratch))
  {
    var e := im.built;
    FreshTable(L, im);
    FindPart1(L, im, e, 0);
    assert e[L.slot0] == Entry(0, 0) && e[L.slot1] == Entry(1, 0);
    FillUnfold(L, e, 1, |im.p1|, L.slot0, 0);
    SwapStart(e, L.slot1, L.slot0, L.scratch);
    hide FillRun, Fresh, Table, SwapOps, Append;
    var s := PartStep(L, e, 1, 0, L.slot1, L.slot0);
    var a := FillRun(L, e, 1, |im.p1|, L.slot0, 0);
    assert s.ops == SwapOps(e, L.slot1, L.slot0, L.scratch);
    AppendThree(s.ops, FillRun(L, s.entries, 1, |im.p1|, L.slot0, 1).ops);
    if a.rc == Ok {
      AppendThree(a.ops, FillRun(L, a.entries, 0, |im.p0|, L.slot1, 0).ops);
    }
  }

  lemma SwapStart(e: seq<Entry>, first: nat, second: nat, scratch: nat)
    requires first < |e| && second < |e| && scratch < |e|
    ensures
      var ops := SwapOps(e, first, second, scratch);
      && Moves(ops, second, scratch) && ops.rest.rest.Do? && ops.rest.rest.op == Persist(Shift(e, second, scratch))
  {
    var e1 := Shift(e, second, scratch);
    var e2 := Shift(e1, first, second);
    AppendThree(ShiftOps(e, second, scratch), Append(ShiftOps(e1, first, second), ShiftOps(e2, scratch, first)));
  }

  lemma AppendThree(a: Ops, b: Ops)
    requires a.Do? && a.rest.Do? && a.rest.rest.Do?
    ensures
      var r := Append(a, b);
      r.Do? && r.op == a.op && r.rest.Do? && r.rest.op == a.rest.op && r.rest.rest.Do? &&
          r.rest.rest.op == a.rest.rest.op
  {
    AppendTwo(a.rest, b);
  }

  // -------------------------------------------- restart without a status file

  /** Without a status file the table is rebuilt from the headers found in the
      slots (`parts` reads the part count off an area's contents).  With both
      images present this rebuilds the very table the interrupted run used; with
      both slots empty nothing has changed. */
  lemma RebuildSame(L: Layout, im: Images, d: Device, c: Device, parts: Bytes -> nat)
    requires im.Valid(L) && Initial(L, im, d) && d.disk == None && (|im.p0| == 0 <==> |im.p1| == 0)
    requires CrashAt(L, RunFrom(L, im, d).ops, d, c) && c.disk == None
    requires |im.p0| > 0 ==> parts(im.p0[0]) == |im.p0| && parts(im.p1[0]) == |im.p1|
    ensures L.slot0 < |c.flash| && L.slot1 < |c.flash|
    ensures |im.p0| > 0 ==> Fresh(L, parts(c.flash[L.slot0]), parts(c.flash[L.slot1])) == im.built
    ensures |im.p0| == 0 ==> c == d
  {
    InitialGood(L, im, d);
    BothImagesKept(L, im, d, c);
    if |im.p0| > 0 {
      assert TruthAt(im, im.built[L.slot0], c.flash[L.slot0]);
      assert TruthAt(im, im.built[L.slot1], c.flash[L.slot1]);
    }
  }

  /** With one slot empty it does not: a reset just before the first status write
      leaves the header of the one image in both slots, and the rebuilt table
      claims a whole image in each. */
  lemma EmptySlotMisread(L: Layout, im: Images, d: Device) returns (c: Device)
    requires im.Valid(L) && (|im.p0| == 0) != (|im.p1| == 0)
    requires Initial(L, im, d) && d.disk == None
    ensures CrashAt(L, RunFrom(L, im, d).ops, d, c) && c.disk == None
    ensures L.slot0 < |c.flash| && L.slot1 < |c.flash| && c.flash[L.slot0] == c.flash[L.slot1]
    ensures c.flash[L.slot0] == if |im.p0| == 0 then im.p1[0] else im.p0[0]
    ensures Fresh(L, |im.p0| + |im.p1|, |im.p0| + |im.p1|) != im.built
  {
    var from, to := if |im.p0| == 0 then L.slot1 else L.slot0, if |im.p0| == 0 then L.slot0 else L.slot1;
    if |im.p0| == 0 {
      EmptySlot0Ops(L, im, d);
    } else {
      EmptySlot1Ops(L, im, d);
    }
    hide FillRun, CopyRun, RunFrom;
    assert Fresh(L, |im.p0| + |im.p1|, |im.p0| + |im.p1|)[to] != im.built[to];
    var d1 := Apply(L, Erase(to), d);
    ProgramErased(d.flash[from]);
    c := Apply(L, Copy(from, to), d1);
    var ops := RunFrom(L, im, d).ops;
    assert OpsOk(L, ops.rest) && OpsOk(L, ops.rest.rest);
    assert CrashAt(L, ops.rest.rest, c, c);
    assert CrashAt(L, ops.rest, d1, c);
  }

  /** A run that starts by moving an area. */
  ghost predicate Moves(ops: Ops, from: nat, to: nat) {
    ops.Do? && ops.op == Erase(to) && ops.rest.Do? && ops.rest.op == Copy(from, to)
  }

  lemma EmptySlot0Ops(L: Layout, im: Images, d: Device)
    requires im.Valid(L) && |im.p0| == 0 && |im.p1| > 0
    requires im.built == Fresh(L, 0, |im.p1|) && d.disk == None
    ensures Moves(RunFrom(L, im, d).ops, L.slot1, L.slot0)
  {
    var e := im.built;
    FreshTable(L, im);
    FindPart1(L, im, e, 0);
    assert e[L.slot0] == NONE && e[L.slot1] == Entry(1, 0);
    FillUnfold(L, e, 1, |im.p1|, L.slot0, 0);
    hide FillRun, Fresh, Table;
    var s := PartStep(L, e, 1, 0, L.slot1, L.slot0);
    var a := FillRun(L, e, 1, |im.p1|, L.slot0, 0);
    assert s.ops == MoveOps(e, L.slot1, L.slot0, 1, 0);
    AppendTwo(s.ops, FillRun(L, s.entries, 1, |im.p1|, L.slot0, 1).ops);
    if a.rc == Ok {
      AppendTwo(a.ops, FillRun(L, a.entries, 0, 0, L.slot1, 0).ops);
    }
  }

  lemma EmptySlot1Ops(L: Layout, im: Images, d: Device)
    requires im.Valid(L) && |im.p0| > 0 && |im.p1| == 0
    requires im.built == Fresh(L, |im.p0|, 0) && d.disk == None
    ensures Moves(RunFrom(L, im, d).ops, L.slot0, L.slot1)
  {
    var e := im.built;
    assert e[L.slot0] == Entry(0, 0) && e[L.slot1] == NONE;
    FindPartFirst(e, 0, 0, 0, L.slot0);
    assert FindPart(e, 0, 0) == Some(L.slot0);
    FillUnfold(L, e, 0, |im.p0|, L.slot1, 0);
    assert FillRun(L, e, 1, 0, L.slot0, 0) == Run(Done, e, Ok);
    hide FillRun, Fresh;
    var s := PartStep(L, e, 0, 0, L.slot0, L.slot1);
    assert s.ops == MoveOps(e, L.slot0, L.slot1, 0, 0);
    AppendTwo(s.ops, FillRun(L, s.entries, 0, |im.p0|, L.slot1, 1).ops);
  }

  lemma AppendTwo(a: Ops, b: Ops)
    requires a.Do? && a.rest.Do?
    ensures Append(a, b).Do? && Append(a, b).op == a.op
    ensures Append(a, b).rest.Do? && Append(a, b).rest.op == a.rest.op
  {
    assert Append(a.rest, b).Do?;
  }
}
