/** boot_copy_image and its helpers as they run: loops over the image areas,
    with the status table and the flash updated in place.  Each method is proved
    to do what BootProtocol says, so the results of BootSafety apply to it. */
module BootLoader {
  import opened Common
  import opened BootProtocol
  import opened BootSafety
  import opened BootBytes

  const COPY_BUF_SIZE := 1024

  class Loader {
    const L: Layout
    /** br_image_areas, the first areas of the two slots, the scratch area. */
    const areas: seq<nat>
    const slotArea0: nat
    const slotArea1: nat
    const scratchArea: nat

    var flash: map<nat, Bytes>
    var entries: seq<Entry>
    /** The status file. */
    var disk: Option<seq<Entry>>

    ghost predicate ValidLayout() {
      && L.Valid()
      && |areas| == L.count
      && (forall i, j :: 0 <= i < j < |areas| ==> areas[i] != areas[j])
      && (forall i :: L.slot0 <= i < L.slot0 + L.parts ==> areas[i] == slotArea0 + (i - L.slot0))
      && (forall i :: L.slot1 <= i < L.slot1 + L.parts ==> areas[i] == slotArea1 + (i - L.slot1))
      && areas[L.scratch] == scratchArea
    }

    ghost predicate Valid()
      reads this
    {
      && ValidLayout()
      && (forall i :: 0 <= i < |areas| ==> areas[i] in flash && |flash[areas[i]]| == L.areaLen)
      && |entries| == L.count
    }

    ghost function View(): (d: Device)
      requires Valid()
      reads this
      ensures WellFormed(L, d) && d.disk == disk
      ensures forall i :: 0 <= i < L.count ==> d.flash[i] == flash[areas[i]]
    {
      var fl := flash;
      Device(seq(L.count, i requires 0 <= i < |areas| && areas[i] in fl => fl[areas[i]]), disk)
    }

    /** boot_find_image_part: the area holding the part, -1 if there is none. */
    method FindImagePart(imageNum: int, partNum: int) returns (area: int)
      requires Valid()
      ensures
        match FindPart(entries, imageNum, partNum)
        case None => area == -1
        case Some(i) => area == areas[i]
    {
      for i := 0 to |areas|
        invariant FindPart(entries, imageNum, partNum) == FindPartFrom(entries, imageNum, partNum, i)
      {
        if entries[i].imageNum == imageNum && entries[i].partNum == partNum {
          return areas[i];
        }
      }
      return -1;
    }

    /** boot_find_image_area_idx: the position of an area among the image areas. */
    method FindImageAreaIdx(area: int) returns (idx: int)
      requires ValidLayout()
      ensures idx == -1 ==> forall i :: 0 <= i < |areas| ==> areas[i] != area
      ensures idx != -1 ==> 0 <= idx < |areas| && areas[idx] == area
    {
      for i := 0 to |areas|
        invariant forall j :: 0 <= j < i ==> areas[j] != area
      {
        if areas[i] == area {
          return i;
        }
      }
      return -1;
    }

    method EraseArea(area: nat, ghost i: nat)
      requires Valid() && i < L.count && areas[i] == area
      modifies this`flash
      ensures Valid() && View() == Apply(L, Erase(i), old(View()))
    {
      flash := flash[area := Erased(L.areaLen)];
      assert View().flash == old(View()).flash[i := Erased(L.areaLen)];
    }

    /** boot_copy_area: through a buffer, a chunk at a time. */
    method CopyArea(from: nat, to: nat, ghost i: nat, ghost j: nat)
      requires Valid() && i < L.count && j < L.count && i != j && areas[i] == from && areas[j] == to
      modifies this`flash
      ensures Valid() && View() == Apply(L, Copy(i, j), old(View()))
    {
      ghost var target := Program(flash[to], flash[from]);
      ghost var before := flash[to];
      var off := 0;
      assert target[..0] + before[0..] == before;
      while off < L.areaLen
        invariant off <= L.areaLen
        invariant Valid()
        invariant flash == old(flash)[to := target[..off] + before[off..]]
      {
        var chunk := if L.areaLen - off > COPY_BUF_SIZE then COPY_BUF_SIZE else L.areaLen - off;
        var buf := flash[from][off..off + chunk];
        var dst := flash[to];
        flash := flash[to := dst[..off] + Program(dst[off..off + chunk], buf) + dst[off + chunk..]];
        ProgramChunk(before, old(flash)[from], off, chunk);
        off := off + chunk;
      }
      assert target[..off] + before[off..] == target;
      assert View().flash == old(View()).flash[j := target];
    }

    method WriteStatus()
      requires Valid()
      modifies this`disk
      ensures Valid() && View() == Apply(L, Persist(entries), old(View()))
    {
      disk := Some(entries);
      assert View().flash == old(View()).flash;
    }

    /** boot_move_area */
    method MoveArea(from: nat, to: nat, imageNum: int, partNum: int, ghost i: nat, ghost j: nat)
      requires Valid() && i < L.count && j < L.count && i != j && areas[i] == from && areas[j] == to
      modifies this
      ensures Valid() && entries == Moved(old(entries), i, j, imageNum, partNum)
      ensures OpsOk(L, MoveOps(old(entries), i, j, imageNum, partNum))
      ensures View() == ApplyAll(L, MoveOps(old(entries), i, j, imageNum, partNum), old(View()))
    {
      var src := FindImageAreaIdx(from);
      var dst := FindImageAreaIdx(to);
      assert src == i && dst == j;
      EraseArea(to, j);
      CopyArea(from, to, i, j);
      entries := entries[src := NONE];
      entries := entries[dst := Entry(imageNum, partNum)];
      WriteStatus();
      ghost var rest := Do(Erase(i), Done);
      EraseArea(from, i);
      assert OpsOk(L, rest) && OpsOk(L, Do(Persist(entries), rest));
      assert View() == ApplyAll(L, rest, Apply(L, Persist(entries),
          Apply(L, Copy(i, j), Apply(L, Erase(j), old(View())))));
      assert View() == ApplyAll(L, Do(Persist(entries), rest), Apply(L, Copy(i, j), Apply(L, Erase(j), old(View()))));
    }

    /** One third of boot_swap_areas. */
    method Relocate(from: nat, to: nat, i: nat, j: nat)
      requires Valid() && i < L.count && j < L.count && i != j && areas[i] == from && areas[j] == to
      modifies this
      ensures Valid() && entries == Shift(old(entries), i, j)
      ensures OpsOk(L, ShiftOps(old(entries), i, j))
      ensures View() == ApplyAll(L, ShiftOps(old(entries), i, j), old(View()))
    {
      EraseArea(to, j);
      CopyArea(from, to, i, j);
      entries := entries[j := entries[i]];
      entries := entries[i := NONE];
      WriteStatus();
      RelocateOk(L, i, j, entries);
      assert View() == ApplyAll(L, Do(Persist(entries), Done), Apply(L, Copy(i, j), Apply(L, Erase(j), old(View()))));
    }

    /** boot_swap_areas; its assertions are the requirements here. */
    method SwapAreas(area1: nat, area2: nat, ghost i: nat, ghost j: nat)
      requires Valid() && i < L.count && j < L.count && areas[i] == area1 && areas[j] == area2
      requires area1 != area2 && area1 != scratchArea && area2 != scratchArea
      modifies this
      ensures Valid() && entries == Swapped(old(entries), i, j, L.scratch)
      ensures OpsOk(L, SwapOps(old(entries), i, j, L.scratch))
      ensures View() == ApplyAll(L, SwapOps(old(entries), i, j, L.scratch), old(View()))
    {
      var idx1 := FindImageAreaIdx(area1);
      var idx2 := FindImageAreaIdx(area2);
      var scratchIdx := FindImageAreaIdx(scratchArea);
      assert idx1 == i && idx2 == j && scratchIdx == L.scratch;
      ghost var e, d := entries, View();
      Relocate(area2, scratchArea, idx2, scratchIdx);
      ghost var e1, d1 := entries, View();
      Relocate(area1, area2, idx1, idx2);
      ghost var e2, d2 := entries, View();
      Relocate(scratchArea, area1, scratchIdx, idx1);
      ApplyAppend(L, ShiftOps(e1, i, j), ShiftOps(e2, L.scratch, i), d1);
      ApplyAppend(L, ShiftOps(e, j, L.scratch), Append(ShiftOps(e1, i, j), ShiftOps(e2, L.scratch, i)), d);
    }

    /** The body of the loop of boot_fill_slot: put the part found at `srcArea`
        in its place. */
    method PlacePart(imageNum: int, partNum: nat, srcArea: nat, dstArea: nat, ghost src: nat, ghost dst: nat)
      requires Valid() && src < L.count && dst < L.count && areas[src] == srcArea && areas[dst] == dstArea
      requires src != dst && entries[dst].imageNum != BOOT_IMAGE_NUM_NONE ==> src != L.scratch
      requires dst != L.scratch
      modifies this
      ensures Valid() && entries == PartStep(L, old(entries), imageNum, partNum, src, dst).entries
      ensures OpsOk(L, PartStep(L, old(entries), imageNum, partNum, src, dst).ops)
      ensures View() == ApplyAll(L, PartStep(L, old(entries), imageNum, partNum, src, dst).ops, old(View()))
    {
      if srcArea != dstArea {
        var dstIdx := FindImageAreaIdx(dstArea);
        assert dstIdx == dst;
        if entries[dstIdx].imageNum == BOOT_IMAGE_NUM_NONE {
          MoveArea(srcArea, dstArea, imageNum, partNum, src, dst);
        } else {
          SwapAreas(srcArea, dstArea, src, dst);
        }
      } else {
        assert src == dst;
      }
    }

    /** boot_fill_slot, for slot `slot`. */
    method FillSlot(imageNum: int, imgLength: nat, slot: nat) returns (rc: Outcome)
      requires Valid() && slot < 2
      requires PartCount(imgLength, L.areaLen) <= L.parts
      requires AssertsHold(L, entries, imageNum, PartCount(imgLength, L.areaLen), SlotStart(L, slot), 0)
      modifies this
      ensures Valid()
      ensures
        var r := FillRun(L, old(entries), imageNum, PartCount(imgLength, L.areaLen), SlotStart(L, slot), 0);
        && rc == r.rc && entries == r.entries
        && OpsOk(L, r.ops) && View() == ApplyAll(L, r.ops, old(View()))
    {
      hide FillRun, AssertsHold, PartStep, FindPart, OpsOk, ApplyAll, View, Ahead, WellFormed, Then;
      var startArea := if slot == 0 then slotArea0 else slotArea1;
      ghost var start := SlotStart(L, slot);
      ghost var n := PartCount(imgLength, L.areaLen);
      ghost var r := FillRun(L, entries, imageNum, n, start, 0);
      var partNum := 0;
      var off := 0;
      FillOk(L, entries, imageNum, n, start, 0);
      AheadStart(L, r, View());
      while off < imgLength
        invariant 0 <= partNum && partNum + PartCount(imgLength - off, L.areaLen) == n
        invariant Valid()
        invariant AssertsHold(L, entries, imageNum, n, start, partNum)
        invariant Ahead(L, r, old(View()), FillRun(L, entries, imageNum, n, start, partNum), View())
        decreases imgLength - off
      {
        var srcArea := FindImagePart(imageNum, partNum);
        if srcArea == -1 {
          FillStop(L, entries, imageNum, n, start, partNum);
          AheadDone(L, r, old(View()), BadImage, entries, View());
          return BadImage;
        }
        ghost var src := FindPart(entries, imageNum, partNum).value;
        ghost var e, d := entries, View();
        FillNext(L, e, imageNum, n, start, partNum, src);
        PlacePart(imageNum, partNum, srcArea, startArea + partNum, src, start + partNum);
        AheadStep(L, r, old(View()), PartStep(L, e, imageNum, partNum, src, start + partNum),
                  FillRun(L, entries, imageNum, n, start, partNum + 1), d);
        off := off + L.areaLen;
        partNum := partNum + 1;
      }
      FillStop(L, entries, imageNum, n, start, partNum);
      AheadDone(L, r, old(View()), Ok, entries, View());
      return Ok;
    }

    /** boot_copy_image: from any table the protocol can reach, slot 0 ends up
        holding image 1; success is reported exactly when image 0 survives, and
        then slot 1 holds it. */
    method CopyImage(img1Length: nat, img2Length: nat, ghost im: Images) returns (rc: Outcome)
      requires Valid() && im.Valid(L)
      requires |im.p0| == PartCount(img1Length, L.areaLen) && |im.p1| == PartCount(img2Length, L.areaLen)
      requires GoodDevice(L, im, false, View()) && entries == Effective(L, im, View())
      modifies this
      ensures Valid()
      ensures View() == ApplyAll(L, RunFrom(L, im, old(View())).ops, old(View())) &&
              rc == RunFrom(L, im, old(View())).rc
      ensures rc == Ok <==> Keeps0(L, im, old(entries))
      ensures forall p :: 0 <= p < |im.p1| ==> View().flash[L.slot0 + p] == im.p1[p]
      ensures rc == Ok ==> forall p :: 0 <= p < |im.p0| ==> View().flash[L.slot1 + p] == im.p0[p]
      ensures Holds(L, View(), 0, im.p1, img2Length) && (rc == Ok ==> Holds(L, View(), 1, im.p0, img1Length))
    {
      hide FillRun, AssertsHold, Good, View, ApplyAll, OpsOk, StepSafe, Filled0, Keeps0, FindPart, Holds, PartCount;
      ghost var d, e := View(), entries;
      ghost var n0, n1 := |im.p0|, |im.p1|;
      FillAChecks(L, im, d, e);
      UninterruptedRun(L, im, d);
      ghost var a := FillRun(L, e, 1, n1, L.slot0, 0);
      rc := FillSlot(1, img2Length, 0);
      if rc == Ok {
        rc := FillSlot(0, img1Length, 1);
        ApplyAppend(L, a.ops, FillRun(L, a.entries, 0, n0, L.slot1, 0).ops, d);
      }
      SlotBegins(L, View(), 0, im.p1, img2Length);
      if rc == Ok {
        SlotBegins(L, View(), 1, im.p0, img1Length);
      }
    }

    /** boot_build_status_one */
    method BuildStatusOne(imageNum: int, slot: nat, length: nat)
      requires Valid() && slot < 2 && PartCount(length, L.areaLen) <= L.parts
      requires forall i :: SlotStart(L, slot) <= i < SlotStart(L, slot) + L.parts ==> entries[i] == NONE
      modifies this`entries
      ensures Valid()
      ensures forall i :: 0 <= i < L.count ==>
        entries[i] == if SlotStart(L, slot) <= i < SlotStart(L, slot) + PartCount(length, L.areaLen)
                      then Entry(imageNum, i - SlotStart(L, slot)) else old(entries)[i]
    {
      var slotArea := if slot == 0 then slotArea0 else slotArea1;
      ghost var start := SlotStart(L, slot);
      ghost var n := PartCount(length, L.areaLen);
      assert areas[start] == slotArea;
      var i := 0;
      while i < |areas| && areas[i] != slotArea
        invariant 0 <= i <= start
      {
        i := i + 1;
      }
      assert i == start;
      var offset, partNum := 0, 0;
      while offset < length
        invariant 0 <= partNum && i == start + partNum
        invariant partNum + PartCount(length - offset, L.areaLen) == n
        invariant |entries| == L.count
        invariant forall j :: 0 <= j < L.count ==>
          entries[j] == if start <= j < start + partNum then Entry(imageNum, j - start) else old(entries)[j]
        decreases length - offset
      {
        assert entries[i].imageNum == BOOT_IMAGE_NUM_NONE;
        entries := entries[i := Entry(imageNum, partNum)];
        offset := offset + L.areaLen;
        partNum := partNum + 1;
        i := i + 1;
      }
    }

    /** boot_build_status; a length of 0 stands for a slot without an image. */
    method BuildStatus(img1Length: nat, img2Length: nat)
      requires Valid()
      requires PartCount(img1Length, L.areaLen) <= L.parts && PartCount(img2Length, L.areaLen) <= L.parts
      modifies this`entries
      ensures Valid()
      ensures entries == Fresh(L, PartCount(img1Length, L.areaLen), PartCount(img2Length, L.areaLen))
      ensures View() == old(View())
    {
      entries := seq(L.count, _ => NONE);
      BuildStatusOne(0, 0, img1Length);
      BuildStatusOne(1, 1, img2Length);
    }

    /** The copy that boot_go makes when there is no status: the table is built from the lengths of the images,
        and the first bytes of the slots change places. */
    method Exchange(img1Length: nat, img2Length: nat) returns (rc: Outcome)
      requires Valid() && disk == None && img1Length <= SlotSize(L) && img2Length <= SlotSize(L)
      modifies this
      ensures Valid() && rc == Ok
      ensures Begins(L, View(), 0, old(View()), 1, img2Length) && Begins(L, View(), 1, old(View()), 0, img1Length)
    {
      hide Good, View, ApplyAll, Holds, Initial, SlotSize, Keeps0, Cut, Fresh;
      ghost var d := View();
      ghost var im := Cut(L, d, img1Length, img2Length);
      PartsFit(img1Length, L);
      PartsFit(img2Length, L);
      CutInitial(L, d, img1Length, img2Length, im);
      BuildStatus(img1Length, img2Length);
      InitialGood(L, im, d);
      BuiltIs(L, im, d);
      rc := CopyImage(img1Length, img2Length, im);
      FreshRunExchanges(L, im, d);
      HoldsSame(L, View(), 0, d, 1, im.p1, img2Length);
      HoldsSame(L, View(), 1, d, 0, im.p0, img1Length);
    }
  }

  /** The assertions of the source hold in both phases. */
  lemma FillAChecks(L: Layout, im: Images, d: Device, e: seq<Entry>)
    requires im.Valid(L) && GoodDevice(L, im, false, d) && e == Effective(L, im, d)
    ensures |e| == L.count
    ensures AssertsHold(L, e, 1, |im.p1|, L.slot0, 0)
    ensures
      var a := FillRun(L, e, 1, |im.p1|, L.slot0, 0);
      && a.rc == Ok && OpsOk(L, a.ops)
      && AssertsHold(L, a.entries, 0, |im.p0|, L.slot1, 0)
      && OpsOk(L, FillRun(L, a.entries, 0, |im.p0|, L.slot1, 0).ops)
      && RunFrom(L, im, d) == Then(a, FillRun(L, a.entries, 0, |im.p0|, L.slot1, 0))
  {
    hide FillRun, AssertsHold, Good, Doomed, Safe, Gone, Filled0;
    GoodShape(L, im, false, d, e);
    Filled0Empty(L, im, e);
    FillA(L, im, false, d, e, 0, 0);
    var a := FillRun(L, e, 1, |im.p1|, L.slot0, 0);
    FillB(L, im, false, ApplyAll(L, a.ops, d), a.entries, 0, 0);
  }

  lemma Filled0Empty(L: Layout, im: Images, e: seq<Entry>)
    requires im.Valid(L) && |e| == L.count
    ensures Filled0(L, im, e, 0)
  {
  }

  /** Running `r` from `d0` comes to the same as running `q` from `d`. */
  ghost predicate Ahead(L: Layout, r: Run, d0: Device, q: Run, d: Device) {
    && WellFormed(L, d0) && WellFormed(L, d) && OpsOk(L, r.ops) && OpsOk(L, q.ops)
    && r.rc == q.rc && r.entries == q.entries
    && ApplyAll(L, r.ops, d0) == ApplyAll(L, q.ops, d)
  }

  lemma AheadStart(L: Layout, r: Run, d: Device)
    requires WellFormed(L, d) && OpsOk(L, r.ops)
    ensures Ahead(L, r, d, r, d)
  {
  }

  lemma AheadStep(L: Layout, r: Run, d0: Device, s: Run, q: Run, d: Device)
    requires Ahead(L, r, d0, Then(s, q), d) && OpsOk(L, s.ops) && OpsOk(L, q.ops)
    ensures Ahead(L, r, d0, q, ApplyAll(L, s.ops, d))
  {
    ApplyAppend(L, s.ops, q.ops, d);
  }

  lemma AheadDone(L: Layout, r: Run, d0: Device, rc: Outcome, e: seq<Entry>, d: Device)
    requires Ahead(L, r, d0, Run(Done, e, rc), d)
    ensures r.rc == rc && r.entries == e && OpsOk(L, r.ops) && ApplyAll(L, r.ops, d0) == d
  {
  }

  lemma FillStop(L: Layout, e: seq<Entry>, img: int, n: nat, start: nat, part: nat)
    requires |e| == L.count && L.scratch < L.count && part <= n && start + n <= L.count
    requires part == n || FindPart(e, img, part).None?
    ensures FillRun(L, e, img, n, start, part) == Run(Done, e, if part == n then Ok else BadImage)
  {
  }

  lemma FillNext(L: Layout, e: seq<Entry>, img: int, n: nat, start: nat, part: nat, src: nat)
    requires |e| == L.count && L.scratch < L.count && part < n && start + n <= L.count
    requires FindPart(e, img, part) == Some(src) && AssertsHold(L, e, img, n, start, part)
    ensures src < L.count
    ensures src != start + part && e[start + part].imageNum != BOOT_IMAGE_NUM_NONE ==> src != L.scratch
    ensures
      var s := PartStep(L, e, img, part, src, start + part);
      && FillRun(L, e, img, n, start, part) == Then(s, FillRun(L, s.entries, img, n, start, part + 1))
      && AssertsHold(L, s.entries, img, n, start, part + 1)
      && OpsOk(L, FillRun(L, s.entries, img, n, start, part + 1).ops)
  {
    FillUnfold(L, e, img, n, start, part);
    FillOk(L, PartStep(L, e, img, part, src, start + part).entries, img, n, start, part + 1);
  }
}
