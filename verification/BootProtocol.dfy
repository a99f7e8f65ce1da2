/** The image swap of the boot loader, as a sequence of device operations.

    A run of boot_copy_image is determined by the status table alone: it is a
    list of erases, copies and status writes.  This module defines that list,
    what it does to the device, and what a reset in the middle of it can leave
    behind.  Positions index the array of image areas (and of status entries).
 */
module BootProtocol {
  import opened Common

  type Bytes = seq<bv8>

  const BOOT_IMAGE_NUM_NONE := 0xff

  /** One boot status entry: which image part an area holds. */
  datatype Entry = Entry(imageNum: int, partNum: int)

  const NONE := Entry(BOOT_IMAGE_NUM_NONE, BOOT_IMAGE_NUM_NONE)

  /** Positions of the two slots and of the scratch area among the image areas.
      Slots hold `parts` areas each; every image area is `areaLen` bytes long. */
  datatype Layout = Layout(count: nat, slot0: nat, slot1: nat, scratch: nat, parts: nat, areaLen: nat) {
    ghost predicate Valid() {
      && 0 < areaLen && 0 < parts
      && slot0 + parts <= count
      && slot1 + parts <= count
      && scratch < count
      && (slot0 + parts <= slot1 || slot1 + parts <= slot0)
      && !(slot0 <= scratch < slot0 + parts)
      && !(slot1 <= scratch < slot1 + parts)
      && count < BOOT_IMAGE_NUM_NONE
    }
  }

  /** What survives a reset: the flash areas and the status file, if any. */
  datatype Device = Device(flash: seq<Bytes>, disk: Option<seq<Entry>>)

  datatype Op =
    | Erase(area: nat)
    | Copy(from: nat, to: nat)
    | Persist(entries: seq<Entry>)

  datatype Ops = Done | Do(op: Op, rest: Ops)

  function Append(a: Ops, b: Ops): Ops {
    match a
    case Done => b
    case Do(op, rest) => Do(op, Append(rest, b))
  }

  function Erased(n: nat): Bytes {
    seq(n, _ => 0xff)
  }

  /** Writing flash can only clear bits. */
  function Program(old_: Bytes, data: Bytes): Bytes
    requires |old_| == |data|
  {
    seq(|data|, i requires 0 <= i < |data| => old_[i] & data[i])
  }

  lemma ProgramErased(data: Bytes)
    ensures Program(Erased(|data|), data) == data
  {
    forall i | 0 <= i < |data|
      ensures Program(Erased(|data|), data)[i] == data[i]
    {
      assert 0xff & data[i] == data[i];
    }
  }

  /** Programming the part [off, off + n) of a partly programmed area. */
  lemma ProgramChunk(before: Bytes, data: Bytes, off: nat, n: nat)
    requires |before| == |data| && off + n <= |data|
    ensures
      var whole := Program(before, data);
      var cur := whole[..off] + before[off..];
      cur[..off] + Program(cur[off..off + n], data[off..off + n]) + cur[off + n..] == whole[..off + n] +
          before[off + n..]
  {
    var whole := Program(before, data);
    var cur := whole[..off] + before[off..];
    assert cur[off..off + n] == before[off..off + n];
    assert Program(cur[off..off + n], data[off..off + n]) == whole[off..off + n];
  }

  ghost predicate WellFormed(L: Layout, d: Device) {
    && |d.flash| == L.count
    && (forall i :: 0 <= i < |d.flash| ==> |d.flash[i]| == L.areaLen)
  }

  ghost predicate OpOk(L: Layout, op: Op) {
    match op
    case Erase(a) => a < L.count
    case Copy(a, b) => a < L.count && b < L.count
    case Persist(_) => true
  }

  ghost predicate OpsOk(L: Layout, ops: Ops) {
    ops.Done? || (OpOk(L, ops.op) && OpsOk(L, ops.rest))
  }

  ghost function Apply(L: Layout, op: Op, d: Device): (r: Device)
    requires WellFormed(L, d) && OpOk(L, op)
    ensures WellFormed(L, r)
  {
    match op
    case Erase(a) => d.(flash := d.flash[a := Erased(L.areaLen)])
    case Copy(a, b) => d.(flash := d.flash[b := Program(d.flash[b], d.flash[a])])
    case Persist(e) => d.(disk := Some(e))
  }

  ghost function ApplyAll(L: Layout, ops: Ops, d: Device): (r: Device)
    requires WellFormed(L, d) && OpsOk(L, ops)
    ensures WellFormed(L, r)
  {
    if ops.Done? then d else ApplyAll(L, ops.rest, Apply(L, ops.op, d))
  }

  /** A reset during an erase or a copy leaves the target area arbitrary; status
      writes are atomic. */
  ghost predicate Torn(L: Layout, op: Op, d: Device, d': Device)
    requires WellFormed(L, d) && OpOk(L, op)
  {
    match op
    case Erase(a) => DiffersAt(L, a, d, d')
    case Copy(_, a) => DiffersAt(L, a, d, d')
    case Persist(_) => false
  }

  ghost predicate DiffersAt(L: Layout, a: nat, d: Device, d': Device)
    requires WellFormed(L, d) && a < L.count
  {
    WellFormed(L, d') && d'.disk == d.disk && d'.flash == d.flash[a := d'.flash[a]]
  }

  /** `d'` can be what a reset during `ops` leaves behind (the end included). */
  ghost predicate CrashAt(L: Layout, ops: Ops, d: Device, d': Device)
    requires WellFormed(L, d) && OpsOk(L, ops)
    decreases ops
  {
    || d' == d
    || (ops.Do? && (Torn(L, ops.op, d, d') || CrashAt(L, ops.rest, Apply(L, ops.op, d), d')))
  }

  lemma {:induction false} ApplyAppend(L: Layout, a: Ops, b: Ops, d: Device)
    requires WellFormed(L, d) && OpsOk(L, a) && OpsOk(L, b)
    ensures OpsOk(L, Append(a, b))
    ensures ApplyAll(L, Append(a, b), d) == ApplyAll(L, b, ApplyAll(L, a, d))
  {
    if a.Do? {
      ApplyAppend(L, a.rest, b, Apply(L, a.op, d));
    }
  }

  lemma {:induction false} CrashAppend(L: Layout, a: Ops, b: Ops, d: Device, d': Device)
    requires WellFormed(L, d) && OpsOk(L, a) && OpsOk(L, b)
    ensures OpsOk(L, Append(a, b))
    ensures CrashAt(L, Append(a, b), d, d') ==> CrashAt(L, a, d, d') || CrashAt(L, b, ApplyAll(L, a, d), d')
  {
    if a.Do? {
      CrashAppend(L, a.rest, b, Apply(L, a.op, d), d');
    }
  }

  // ---------------------------------------------------------------- the run

  /** First position recorded as holding the given part; none is None. */
  function FindPart(e: seq<Entry>, img: int, part: int): (r: Option<nat>)
    ensures r.Some? ==> r.value < |e| && e[r.value] == Entry(img, part)
  {
    FindPartFrom(e, img, part, 0)
  }

  function FindPartFrom(e: seq<Entry>, img: int, part: int, i: nat): (r: Option<nat>)
    requires i <= |e|
    ensures r.Some? ==> i <= r.value < |e| && e[r.value] == Entry(img, part)
    decreases |e| - i
  {
    if i == |e| then None
    else if e[i] == Entry(img, part) then Some(i)
    else FindPartFrom(e, img, part, i + 1)
  }

  /** It is the first, and None means there is none. */
  lemma {:induction false} FindPartFirst(e: seq<Entry>, img: int, part: int, i: nat, j: nat)
    requires i <= j < |e| && e[j] == Entry(img, part)
    ensures
      var r := FindPartFrom(e, img, part, i);
      r.Some? && i <= r.value <= j && e[r.value] == Entry(img, part)
    decreases |e| - i
  {
    if e[i] != Entry(img, part) {
      FindPartFirst(e, img, part, i + 1, j);
    }
  }

  /** boot_move_area: the new table is written before the source is erased. */
  function MoveOps(e: seq<Entry>, src: nat, dst: nat, img: int, part: int): Ops
    requires src < |e| && dst < |e|
  {
    Do(Erase(dst), Do(Copy(src, dst), Do(Persist(Moved(e, src, dst, img, part)), Do(Erase(src), Done))))
  }

  function Moved(e: seq<Entry>, src: nat, dst: nat, img: int, part: int): seq<Entry>
    requires src < |e| && dst < |e|
  {
    e[src := NONE][dst := Entry(img, part)]
  }

  /** boot_swap_areas: `second` goes to scratch, `first` to `second`, scratch to
      `first`, with a status write after each copy. */
  function SwapOps(e: seq<Entry>, first: nat, second: nat, scratch: nat): Ops
    requires first < |e| && second < |e| && scratch < |e|
  {
    var e1 := Shift(e, second, scratch);
    var e2 := Shift(e1, first, second);
    Append(ShiftOps(e, second, scratch), Append(ShiftOps(e1, first, second), ShiftOps(e2, scratch, first)))
  }

  function Swapped(e: seq<Entry>, first: nat, second: nat, scratch: nat): seq<Entry>
    requires first < |e| && second < |e| && scratch < |e|
  {
    Shift(Shift(Shift(e, second, scratch), first, second), scratch, first)
  }

  function Shift(e: seq<Entry>, src: nat, dst: nat): seq<Entry>
    requires src < |e| && dst < |e|
  {
    e[dst := e[src]][src := NONE]
  }

  function ShiftOps(e: seq<Entry>, src: nat, dst: nat): Ops
    requires src < |e| && dst < |e|
  {
    RelocateOps(src, dst, Shift(e, src, dst))
  }

  function RelocateOps(src: nat, dst: nat, e: seq<Entry>): Ops {
    Do(Erase(dst), Do(Copy(src, dst), Do(Persist(e), Done)))
  }

  datatype Outcome = Ok | BadImage

  /** Operations issued, table reached, and return code. */
  datatype Run = Run(ops: Ops, entries: seq<Entry>, rc: Outcome)

  lemma {:induction false} AppendOk(L: Layout, a: Ops, b: Ops)
    requires OpsOk(L, a) && OpsOk(L, b)
    ensures OpsOk(L, Append(a, b))
  {
    if a.Do? {
      AppendOk(L, a.rest, b);
    }
  }

  lemma RelocateOk(L: Layout, src: nat, dst: nat, e: seq<Entry>)
    requires src < L.count && dst < L.count
    ensures OpsOk(L, RelocateOps(src, dst, e))
  {
    assert OpsOk(L, Do(Persist(e), Done));
  }

  lemma PartStepOk(L: Layout, e: seq<Entry>, img: int, part: nat, src: nat, dst: nat)
    requires |e| == L.count && src < L.count && dst < L.count && L.scratch < L.count
    ensures OpsOk(L, PartStep(L, e, img, part, src, dst).ops)
  {
    var x := L.scratch;
    var e1 := Shift(e, dst, x);
    var e2 := Shift(e1, src, dst);
    RelocateOk(L, dst, x, e1);
    RelocateOk(L, src, dst, e2);
    RelocateOk(L, x, src, Shift(e2, x, src));
    AppendOk(L, ShiftOps(e1, src, dst), ShiftOps(e2, x, src));
    AppendOk(L, ShiftOps(e, dst, x), Append(ShiftOps(e1, src, dst), ShiftOps(e2, x, src)));
    var m := Moved(e, src, dst, img, part);
    assert OpsOk(L, Do(Persist(m), Do(Erase(src), Done)));
  }

  /** One iteration of the loop of boot_fill_slot, once the part is found. */
  function PartStep(L: Layout, e: seq<Entry>, img: int, part: nat, src: nat, dst: nat): Run
    requires |e| == L.count && src < L.count && dst < L.count && L.scratch < L.count
  {
    if src == dst then Run(Done, e, Ok)
    else if e[dst].imageNum == BOOT_IMAGE_NUM_NONE then
      Run(MoveOps(e, src, dst, img, part), Moved(e, src, dst, img, part), Ok)
    else
      Run(SwapOps(e, src, dst, L.scratch), Swapped(e, src, dst, L.scratch), Ok)
  }

  function Then(s: Run, rest: Run): Run {
    Run(Append(s.ops, rest.ops), rest.entries, rest.rc)
  }

  /** boot_fill_slot from part `part` on, for an image of `n` parts. */
  function FillRun(L: Layout, e: seq<Entry>, img: int, n: nat, start: nat, part: nat): (r: Run)
    requires |e| == L.count && L.scratch < L.count
    requires part <= n && start + n <= L.count
    ensures |r.entries| == L.count
    decreases n - part
  {
    if part == n then Run(Done, e, Ok)
    else
      match FindPart(e, img, part)
      case None => Run(Done, e, BadImage)
      case Some(src) =>
        var s := PartStep(L, e, img, part, src, start + part);
        Then(s, FillRun(L, s.entries, img, n, start, part + 1))
  }

  /** The assertions of boot_swap_areas hold along the run: a swap never involves
      the scratch area itself. */
  ghost predicate AssertsHold(L: Layout, e: seq<Entry>, img: int, n: nat, start: nat, part: nat)
    requires |e| == L.count && L.scratch < L.count
    requires part <= n && start + n <= L.count
    decreases n - part
  {
    part < n && FindPart(e, img, part).Some? ==>
      var src := FindPart(e, img, part).value;
      && (src != start + part && e[start + part].imageNum != BOOT_IMAGE_NUM_NONE ==> src != L.scratch)
      && AssertsHold(L, PartStep(L, e, img, part, src, start + part).entries, img, n, start, part + 1)
  }

  /** The number of areas an image of the given length occupies. */
  function PartCount(length: int, areaLen: nat): (n: nat)
    requires areaLen > 0
    ensures n == 0 <==> length <= 0
    decreases if length <= 0 then 0 else length
  {
    if length <= 0 then 0 else 1 + PartCount(length - areaLen, areaLen)
  }

  lemma FillUnfold(L: Layout, e: seq<Entry>, img: int, n: nat, start: nat, part: nat)
    requires |e| == L.count && L.scratch < L.count
    requires part < n && start + n <= L.count && FindPart(e, img, part).Some?
    ensures
      var s := PartStep(L, e, img, part, FindPart(e, img, part).value, start + part);
      FillRun(L, e, img, n, start, part) == Then(s, FillRun(L, s.entries, img, n, start, part + 1))
  {
  }

  lemma AssertsUnfold(L: Layout, e: seq<Entry>, img: int, n: nat, start: nat, part: nat, src: nat)
    requires |e| == L.count && L.scratch < L.count
    requires part < n && start + n <= L.count && FindPart(e, img, part) == Some(src)
    requires src != start + part && e[start + part].imageNum != BOOT_IMAGE_NUM_NONE ==> src != L.scratch
    requires AssertsHold(L, PartStep(L, e, img, part, src, start + part).entries, img, n, start, part + 1)
    ensures AssertsHold(L, e, img, n, start, part)
  {
  }

  lemma {:induction false} FillOk(L: Layout, e: seq<Entry>, img: int, n: nat, start: nat, part: nat)
    requires |e| == L.count && L.scratch < L.count
    requires part <= n && start + n <= L.count
    ensures OpsOk(L, FillRun(L, e, img, n, start, part).ops)
    decreases n - part
  {
    if part < n && FindPart(e, img, part).Some? {
      var s := PartStep(L, e, img, part, FindPart(e, img, part).value, start + part);
      PartStepOk(L, e, img, part, FindPart(e, img, part).value, start + part);
      FillOk(L, s.entries, img, n, start, part + 1);
      AppendOk(L, s.ops, FillRun(L, s.entries, img, n, start, part + 1).ops);
      FillUnfold(L, e, img, n, start, part);
    }
  }

  /** boot_copy_image: slot 0 is filled with image 1, then slot 1 with image 0. */
  function CopyRun(L: Layout, e: seq<Entry>, n0: nat, n1: nat): (r: Run)
    requires |e| == L.count && L.scratch < L.count
    requires L.slot0 + n1 <= L.count && L.slot1 + n0 <= L.count
    ensures |r.entries| == L.count
    ensures OpsOk(L, r.ops)
  {
    var a := FillRun(L, e, 1, n1, L.slot0, 0);
    FillOk(L, e, 1, n1, L.slot0, 0);
    if a.rc != Ok then a
    else
      var b := FillRun(L, a.entries, 0, n0, L.slot1, 0);
      FillOk(L, a.entries, 0, n0, L.slot1, 0);
      AppendOk(L, a.ops, b.ops);
      Then(a, b)
  }

  /** The table boot_build_status makes: each image complete in its own slot. */
  function Fresh(L: Layout, n0: nat, n1: nat): (e: seq<Entry>)
    ensures |e| == L.count
  {
    seq(L.count, i =>
      if L.slot0 <= i < L.slot0 + n0 then Entry(0, i - L.slot0)
      else if L.slot1 <= i < L.slot1 + n1 then Entry(1, i - L.slot1)
      else NONE)
  }
}
