/** The scheduler: tasks, the run list, the sleep list and the lists of tasks waiting
    for an object. */
module OsSched {
  import opened Common
  import opened OsList

  type Tid = nat

  /** What a task waits for besides time. */
  datatype Obj = NoObj | MutexObj(m: nat) | SemObj(s: nat)

  /** A task.  `due` is the time, counted without wrapping, that `wakeup` stands for;
      it is a history variable that no decision depends on. */
  datatype Task = Task(prio: nat, sleeping: bool, never: bool, wakeup: nat, due: nat, obj: Obj)

  /** `clock` counts ticks without wrapping; the kernel only sees it modulo 2^32. */
  datatype Core = Core(tasks: map<Tid, Task>, run: seq<Tid>, sleep: seq<Tid>, waits: map<Obj, seq<Tid>>, clock: nat)

  const OS_TIMEOUT_NEVER := 0xffff_ffff
  const FOREVER := 0x8000_0000

  function Now(c: Core): nat {
    c.clock % WORD32
  }

  /** A 32 bit difference read as a signed number. */
  function Signed(x: int): (r: int)
    ensures -0x8000_0000 <= r < 0x8000_0000
  {
    var d := x % WORD32;
    if d >= 0x8000_0000 then d - WORD32 else d
  }

  predicate TickLt(a: nat, b: nat) { Signed(a - b) < 0 }
  predicate TickGt(a: nat, b: nat) { Signed(a - b) > 0 }
  predicate TickGeq(a: nat, b: nat) { Signed(a - b) >= 0 }

  /** A sleep that the signed comparison can order: a positive timeout below 2^31, or forever. */
  predicate GoodTimeout(ticks: nat) {
    0 < ticks < 0x8000_0000 || ticks == OS_TIMEOUT_NEVER
  }

  function Waiters(c: Core, o: Obj): seq<Tid> {
    if o in c.waits then c.waits[o] else []
  }

  ghost function PrioKeys(tasks: map<Tid, Task>): Keys {
    map t | t in tasks :: tasks[t].prio
  }

  /** Ticks left to sleep. */
  ghost function SleepKeys(tasks: map<Tid, Task>, clock: nat): Keys {
    map t | t in tasks :: if tasks[t].never then FOREVER else tasks[t].due - clock
  }

  // ------------------------------------------------------------ the invariant

  /** Every task is on the run list or on the sleep list, as its state says. */
  ghost predicate Placed(c: Core) {
    && NoDup(c.run) && NoDup(c.sleep)
    && (forall t :: t in c.run <==> t in c.tasks && !c.tasks[t].sleeping)
    && (forall t :: t in c.sleep <==> t in c.tasks && c.tasks[t].sleeping)
  }

  /** The time left of a sleeper; `slack` is 1 between ticks and 0 while a tick is handled. */
  ghost predicate InTime(c: Core, t: Tid, slack: nat)
    requires t in c.tasks
  {
    var k := c.tasks[t];
    k.sleeping && !k.never ==> c.clock + slack <= k.due < c.clock + 0x8000_0000 && k.wakeup == k.due % WORD32
  }

  ghost predicate Timed(c: Core, slack: nat) {
    Sorted(SleepKeys(c.tasks, c.clock), c.sleep) && forall t :: t in c.tasks ==> InTime(c, t, slack)
  }

  /** The tasks waiting for an object are those whose t_obj names it, most urgent first. */
  ghost predicate Waiting(c: Core) {
    && (forall t :: t in c.tasks && c.tasks[t].obj != NoObj ==> c.tasks[t].sleeping)
    && forall o :: o != NoObj ==> WaitList(c, o)
  }

  ghost predicate WaitList(c: Core, o: Obj) {
    && NoDup(Waiters(c, o)) && Sorted(PrioKeys(c.tasks), Waiters(c, o))
    && forall t :: t in Waiters(c, o) <==> t in c.tasks && c.tasks[t].obj == o
  }

  ghost predicate CoreInv(c: Core, slack: nat) {
    Placed(c) && Sorted(PrioKeys(c.tasks), c.run) && Timed(c, slack) && Waiting(c)
  }

  // ------------------------------------------------------------ operations

  /** os_sched_sleep, after the task has been entered in the list of what it waits for. */
  ghost function Block(c: Core, t: Tid, ticks: nat, o: Obj): Core
    requires t in c.tasks
  {
    var tasks := c.tasks[t := Task(c.tasks[t].prio, true, ticks == OS_TIMEOUT_NEVER, (Now(c) + ticks) % WORD32,
        c.clock + ticks, o)];
    Core(tasks, Remove(c.run, t), Insert(SleepKeys(tasks, c.clock), c.sleep, t),
         if o == NoObj then c.waits else c.waits[o := Insert(PrioKeys(c.tasks), Waiters(c, o), t)], c.clock)
  }

  /** os_sched_wakeup */
  ghost function Wake(c: Core, t: Tid): Core
    requires t in c.tasks
  {
    var o := c.tasks[t].obj;
    var tasks := c.tasks[t := Task(c.tasks[t].prio, false, false, 0, 0, NoObj)];
    Core(tasks, Insert(PrioKeys(tasks), c.run, t), Remove(c.sleep, t),
         if o == NoObj then c.waits else c.waits[o := Remove(Waiters(c, o), t)], c.clock)
  }

  /** A change of priority, with os_sched_resort. */
  ghost function SetPrio(c: Core, t: Tid, p: nat): Core
    requires t in c.tasks
  {
    var tasks := c.tasks[t := c.tasks[t].(prio := p)];
    c.(tasks := tasks, run := if c.tasks[t].sleeping then c.run else Insert(PrioKeys(tasks), Remove(c.run, t), t))
  }

  ghost predicate Due(c: Core, t: Tid)
    requires t in c.tasks
  {
    !c.tasks[t].never && c.tasks[t].due <= c.clock
  }

  // ------------------------------------------------------------ they keep the invariant

  lemma KeysOfOthers(tasks: map<Tid, Task>, t: Tid, k: Task, s: seq<Tid>)
    requires t in tasks && t !in s
    ensures SameKeys(PrioKeys(tasks), PrioKeys(tasks[t := k]), s)
    ensures forall clock: nat :: SameKeys(SleepKeys(tasks, clock), SleepKeys(tasks[t := k], clock), s)
  {
  }

  lemma SamePrio(tasks: map<Tid, Task>, t: Tid, k: Task)
    requires t in tasks && k.prio == tasks[t].prio
    ensures PrioKeys(tasks[t := k]) == PrioKeys(tasks)
  {
  }

  lemma BlockPlaced(c: Core, t: Tid, ticks: nat, o: Obj)
    requires Placed(c) && t in c.run
    ensures Placed(Block(c, t, ticks, o))
  {
    var c' := Block(c, t, ticks, o);
    RemoveElems(c.run, t);
    RemoveDistinct(c.run, t);
    InsertElems(SleepKeys(c'.tasks, c.clock), c.sleep, t);
    InsertDistinct(SleepKeys(c'.tasks, c.clock), c.sleep, t);
  }

  lemma BlockRun(c: Core, t: Tid, ticks: nat, o: Obj)
    requires Placed(c) && t in c.run && Sorted(PrioKeys(c.tasks), c.run)
    ensures Sorted(PrioKeys(Block(c, t, ticks, o).tasks), Block(c, t, ticks, o).run)
  {
    SamePrio(c.tasks, t, Block(c, t, ticks, o).tasks[t]);
    RemoveSorted(PrioKeys(c.tasks), c.run, t);
  }

  lemma BlockTimed(c: Core, t: Tid, ticks: nat, o: Obj)
    requires Placed(c) && t in c.run && Timed(c, 1) && GoodTimeout(ticks)
    ensures Timed(Block(c, t, ticks, o), 1)
  {
    hide NoDup, Sorted;
    var c' := Block(c, t, ticks, o);
    var keys, keys' := SleepKeys(c.tasks, c.clock), SleepKeys(c'.tasks, c.clock);
    KeysOfOthers(c.tasks, t, c'.tasks[t], c.sleep);
    SortedFrame(keys, keys', c.sleep);
    InsertSorted(keys', c.sleep, t);
    forall u | u in c'.tasks
      ensures InTime(c', u, 1)
    {
      if u == t {
        BlockedInTime(c, t, ticks, o);
      } else {
        assert InTime(c, u, 1);
      }
    }
  }

  lemma BlockedInTime(c: Core, t: Tid, ticks: nat, o: Obj)
    requires t in c.tasks && GoodTimeout(ticks)
    ensures InTime(Block(c, t, ticks, o), t, 1)
  {
    hide Insert, Remove;
    NowPlus(c.clock, ticks);
  }

  lemma NowPlus(clock: nat, n: nat)
    ensures (clock % WORD32 + n) % WORD32 == (clock + n) % WORD32
  {
    ModShift(clock % WORD32 + n, clock / WORD32);
    assert clock % WORD32 + n + clock / WORD32 * WORD32 == clock + n;
  }

  lemma BlockWaiting(c: Core, t: Tid, ticks: nat, o: Obj)
    requires Placed(c) && t in c.run && Waiting(c)
    ensures Waiting(Block(c, t, ticks, o))
  {
    hide NoDup, Sorted;
    var c' := Block(c, t, ticks, o);
    SamePrio(c.tasks, t, c'.tasks[t]);
    forall p | p != NoObj
      ensures WaitList(c', p)
    {
      assert WaitList(c, p);
      assert t !in Waiters(c, p);
      if p == o {
        InsertElems(PrioKeys(c.tasks), Waiters(c, o), t);
        InsertSorted(PrioKeys(c.tasks), Waiters(c, o), t);
        InsertDistinct(PrioKeys(c.tasks), Waiters(c, o), t);
      }
    }
  }

  /** A task that begins to wait does so behind all waiters as urgent as it is. */
  lemma WaitsBehind(c: Core, t: Tid, ticks: nat, o: Obj)
    requires Waiting(c) && t in c.tasks && o != NoObj
    ensures Behind(PrioKeys(c.tasks), Waiters(c, o), t, Waiters(Block(c, t, ticks, o), o))
  {
    hide Sorted, NoDup, Insert, Behind;
    assert WaitList(c, o);
    GoesBehind(PrioKeys(c.tasks), Waiters(c, o), t);
  }

  lemma BlockKeeps(c: Core, t: Tid, ticks: nat, o: Obj)
    requires CoreInv(c, 1) && t in c.run && GoodTimeout(ticks)
    ensures CoreInv(Block(c, t, ticks, o), 1)
  {
    hide Sorted, Timed, Waiting;
    BlockPlaced(c, t, ticks, o);
    BlockRun(c, t, ticks, o);
    BlockTimed(c, t, ticks, o);
    BlockWaiting(c, t, ticks, o);
  }

  lemma WakePlaced(c: Core, t: Tid)
    requires Placed(c) && t in c.sleep
    ensures Placed(Wake(c, t))
  {
    var c' := Wake(c, t);
    RemoveElems(c.sleep, t);
    RemoveDistinct(c.sleep, t);
    InsertElems(PrioKeys(c'.tasks), c.run, t);
    InsertDistinct(PrioKeys(c'.tasks), c.run, t);
  }

  lemma WakeRun(c: Core, t: Tid)
    requires t in c.tasks && Sorted(PrioKeys(c.tasks), c.run)
    ensures Sorted(PrioKeys(Wake(c, t).tasks), Wake(c, t).run)
  {
    SamePrio(c.tasks, t, Wake(c, t).tasks[t]);
    InsertSorted(PrioKeys(c.tasks), c.run, t);
  }

  lemma WakeTimed(c: Core, t: Tid, slack: nat)
    requires Placed(c) && t in c.sleep && Timed(c, slack)
    ensures Timed(Wake(c, t), slack)
  {
    hide NoDup, Sorted;
    var c' := Wake(c, t);
    RemoveElems(c.sleep, t);
    RemoveSorted(SleepKeys(c.tasks, c.clock), c.sleep, t);
    KeysOfOthers(c.tasks, t, c'.tasks[t], c'.sleep);
    SortedFrame(SleepKeys(c.tasks, c.clock), SleepKeys(c'.tasks, c.clock), c'.sleep);
    forall u | u in c'.tasks
      ensures InTime(c', u, slack)
    {
      assert u in c.tasks && InTime(c, u, slack);
    }
  }

  lemma WakeWaiting(c: Core, t: Tid)
    requires Placed(c) && t in c.sleep && Waiting(c)
    ensures Waiting(Wake(c, t))
  {
    hide NoDup, Sorted;
    var c' := Wake(c, t);
    SamePrio(c.tasks, t, c'.tasks[t]);
    forall p | p != NoObj
      ensures WaitList(c', p)
    {
      assert WaitList(c, p);
      if p == c.tasks[t].obj {
        RemoveElems(Waiters(c, p), t);
        RemoveSorted(PrioKeys(c.tasks), Waiters(c, p), t);
        RemoveDistinct(Waiters(c, p), t);
      }
    }
  }

  /** A task that wakes up goes behind all ready tasks as urgent as it is. */
  lemma RunsBehind(c: Core, t: Tid)
    requires t in c.tasks && Sorted(PrioKeys(c.tasks), c.run)
    ensures Behind(PrioKeys(c.tasks), c.run, t, Wake(c, t).run)
  {
    hide Sorted, Insert, Behind;
    SamePrio(c.tasks, t, Wake(c, t).tasks[t]);
    GoesBehind(PrioKeys(c.tasks), c.run, t);
  }

  lemma WakeKeeps(c: Core, t: Tid, slack: nat)
    requires CoreInv(c, slack) && t in c.sleep
    ensures CoreInv(Wake(c, t), slack)
  {
    hide Sorted, Timed, Waiting;
    WakePlaced(c, t);
    WakeRun(c, t);
    WakeTimed(c, t, slack);
    WakeWaiting(c, t);
  }

  lemma SetPrioPlaced(c: Core, t: Tid, p: nat)
    requires Placed(c) && t in c.tasks && Sorted(PrioKeys(c.tasks), c.run)
    ensures Placed(SetPrio(c, t, p)) && Sorted(PrioKeys(SetPrio(c, t, p).tasks), SetPrio(c, t, p).run)
  {
    hide NoDup, Sorted;
    var c' := SetPrio(c, t, p);
    var keys, keys' := PrioKeys(c.tasks), PrioKeys(c'.tasks);
    if c.tasks[t].sleeping {
      KeysOfOthers(c.tasks, t, c'.tasks[t], c.run);
      SortedFrame(keys, keys', c.run);
    } else {
      RemoveElems(c.run, t);
      KeysOfOthers(c.tasks, t, c'.tasks[t], Remove(c.run, t));
      Reinsert(keys, keys', c.run, t);
    }
  }

  lemma SetPrioTimed(c: Core, t: Tid, p: nat, slack: nat)
    requires t in c.tasks && Timed(c, slack)
    ensures Timed(SetPrio(c, t, p), slack)
  {
    hide Sorted;
    var c' := SetPrio(c, t, p);
    assert SleepKeys(c'.tasks, c.clock) == SleepKeys(c.tasks, c.clock);
    forall u | u in c'.tasks
      ensures InTime(c', u, slack)
    {
      assert u in c.tasks && InTime(c, u, slack);
    }
  }

  /** So does a ready task whose priority changes. */
  lemma SetsBehind(c: Core, t: Tid, p: nat)
    requires Placed(c) && t in c.tasks && Sorted(PrioKeys(c.tasks), c.run) && !c.tasks[t].sleeping
    ensures Behind(PrioKeys(SetPrio(c, t, p).tasks), Remove(c.run, t), t, SetPrio(c, t, p).run)
  {
    hide Sorted, Insert, Behind, NoDup, Remove;
    var c' := SetPrio(c, t, p);
    RemoveElems(c.run, t);
    RemoveSorted(PrioKeys(c.tasks), c.run, t);
    KeysOfOthers(c.tasks, t, c'.tasks[t], Remove(c.run, t));
    SortedFrame(PrioKeys(c.tasks), PrioKeys(c'.tasks), Remove(c.run, t));
    GoesBehind(PrioKeys(c'.tasks), Remove(c.run, t), t);
  }

  /** Only the priority of a task that waits for nothing may change. */
  lemma SetPrioKeeps(c: Core, t: Tid, p: nat, slack: nat)
    requires CoreInv(c, slack) && t in c.tasks && c.tasks[t].obj == NoObj
    ensures CoreInv(SetPrio(c, t, p), slack)
  {
    hide Sorted, Timed, NoDup;
    SetPrioPlaced(c, t, p);
    SetPrioTimed(c, t, p, slack);
    var c' := SetPrio(c, t, p);
    forall o | o != NoObj
      ensures WaitList(c', o)
    {
      assert WaitList(c, o);
      KeysOfOthers(c.tasks, t, c'.tasks[t], Waiters(c, o));
      SortedFrame(PrioKeys(c.tasks), PrioKeys(c'.tasks), Waiters(c, o));
    }
  }

  // ------------------------------------------------------------ time

  /** One tick later every sleeper has one tick less to go, and the order stays. */
  lemma {:induction false} TickSorted(tasks: map<Tid, Task>, clock: nat, s: seq<Tid>)
    requires Sorted(SleepKeys(tasks, clock), s)
    requires forall t :: t in s ==> t in tasks && (!tasks[t].never ==> tasks[t].due < clock + FOREVER)
    ensures Sorted(SleepKeys(tasks, clock + 1), s)
    decreases |s|
  {
    if s != [] {
      assert s[0] in s;
      assert forall t :: t in s[1..] ==> t in s;
      TickSorted(tasks, clock, s[1..]);
      forall y | y in s[1..]
        ensures Key(SleepKeys(tasks, clock + 1), s[0]) <= Key(SleepKeys(tasks, clock + 1), y)
      {
        assert Key(SleepKeys(tasks, clock), s[0]) <= Key(SleepKeys(tasks, clock), y);
      }
    }
  }

  ghost function Advance(c: Core): Core {
    c.(clock := c.clock + 1)
  }

  lemma AdvanceKeeps(c: Core)
    requires CoreInv(c, 1)
    ensures CoreInv(Advance(c), 0)
  {
    hide Sorted, NoDup;
    forall t | t in c.sleep
      ensures t in c.tasks && (!c.tasks[t].never ==> c.tasks[t].due < c.clock + FOREVER)
    {
      assert InTime(c, t, 1);
    }
    TickSorted(c.tasks, c.clock, c.sleep);
    var c' := Advance(c);
    forall t | t in c'.tasks
      ensures InTime(c', t, 0)
    {
      assert InTime(c, t, 1);
    }
    forall o | o != NoObj
      ensures WaitList(c', o)
    {
      assert WaitList(c, o);
    }
  }

  /** os_sched_os_timer_exp: wake tasks from the head of the sleep list while they are due. */
  ghost function WakeDue(c: Core): Core
    requires Placed(c)
    decreases |c.sleep|
  {
    if c.sleep == [] then c else
      var t := c.sleep[0];
      if !Due(c, t) then c else
        WakePlaced(c, t);
        RemoveElems(c.sleep, t);
        WakeDue(Wake(c, t))
  }

  /** Between ticks nobody on the sleep list is due. */
  ghost predicate NoneDue(c: Core) {
    forall t :: t in c.tasks && c.tasks[t].sleeping ==> !Due(c, t)
  }

  /** The scan stops at the first sleeper that is not due; by the order none behind it is. */
  lemma RestNotDue(c: Core)
    requires Placed(c) && Timed(c, 0) && (c.sleep != [] ==> !Due(c, c.sleep[0]))
    ensures NoneDue(c) && Timed(c, 1)
  {
    hide NoDup, Sorted;
    var keys := SleepKeys(c.tasks, c.clock);
    forall t | t in c.tasks
      ensures c.tasks[t].sleeping ==> !Due(c, t)
      ensures InTime(c, t, 1)
    {
      assert InTime(c, t, 0);
      if c.tasks[t].sleeping {
        SortedHead(keys, c.sleep, t);
      }
    }
  }

  /** What a scan of expired sleepers does to one task: it wakes exactly those that are due. */
  ghost predicate Expired(c: Core, c': Core, t: Tid) {
    && (t in c.tasks <==> t in c'.tasks)
    && (t in c.tasks ==>
          c'.tasks[t] == if c.tasks[t].sleeping && Due(c, t) then Task(c.tasks[t].prio, false, false, 0, 0, NoObj)
              else c.tasks[t])
  }

  lemma ExpiredStep(c: Core, h: Tid, c': Core, t: Tid)
    requires h in c.tasks && c.tasks[h].sleeping && Due(c, h) && Expired(Wake(c, h), c', t)
    ensures Expired(c, c', t)
  {
  }

  /** Exactly the tasks that are due wake up: none early, none left behind. */
  lemma {:induction false} WakeDueExact(c: Core)
    requires CoreInv(c, 0)
    ensures CoreInv(WakeDue(c), 1) && NoneDue(WakeDue(c)) && WakeDue(c).clock == c.clock
    ensures forall t :: Expired(c, WakeDue(c), t)
    decreases |c.sleep|
  {
    hide Sorted, Timed, Waiting, NoDup, Expired, NoneDue;
    if c.sleep != [] && Due(c, c.sleep[0]) {
      var h := c.sleep[0];
      WakeKeeps(c, h, 0);
      RemoveElems(c.sleep, h);
      WakeDueExact(Wake(c, h));
      forall t
        ensures Expired(c, WakeDue(c), t)
      {
        ExpiredStep(c, h, WakeDue(c), t);
      }
    } else {
      RestNotDue(c);
      forall t
        ensures Expired(c, c, t)
      {
        ExpiredNone(c, t);
      }
    }
  }

  lemma ExpiredNone(c: Core, t: Tid)
    requires NoneDue(c)
    ensures Expired(c, c, t)
  {
  }

  /** The kernel's signed comparison of wrapped times agrees with the order of the times left. */
  lemma TicksCompare(clock: nat, a: nat, b: nat)
    requires clock <= a < clock + 0x8000_0000 && clock <= b < clock + 0x8000_0000
    ensures TickGt(a % WORD32, b % WORD32) <==> a > b
    ensures TickLt(a % WORD32, b % WORD32) <==> a < b
    ensures TickGeq(a % WORD32, b % WORD32) <==> a >= b
  {
    ModDiff(a, b);
  }

  lemma ModDiff(a: nat, b: nat)
    ensures (a % WORD32 - b % WORD32) % WORD32 == (a - b) % WORD32
  {
    var q := a / WORD32 - b / WORD32;
    assert a - b == a % WORD32 - b % WORD32 + q * WORD32;
    ModShift(a % WORD32 - b % WORD32, q);
  }

  lemma ModShift(x: int, q: int)
    ensures (x + q * WORD32) % WORD32 == x % WORD32
  {
  }
}
