/** Callouts, the tick, and whole runs of the kernel. */
module OsRun {
  import opened Common
  import opened OsList
  import opened OsSched
  import opened OsKernel
  import opened OsMutex
  import opened OsSem
  import opened OsEvent

  // ------------------------------------------------------------ callouts

  function EventOf(g: Config, c: nat): nat {
    if c in g.event then g.event[c] else 0
  }

  function HomeOf(g: Config, e: nat): nat {
    if e in g.home then g.home[e] else 0
  }

  /** os_callout_stop */
  ghost function CalloutStop(g: Config, k: Kernel, c: nat): Kernel {
    EvRemove(k.(callList := Remove(k.callList, c)), HomeOf(g, EventOf(g, c)), EventOf(g, c))
  }

  /** os_callout_reset */
  ghost function CalloutReset(g: Config, k: Kernel, c: nat, ticks: int): (Kernel, Rc) {
    if ticks < 0 then (k, Invalid)
    else
      var k1, n := CalloutStop(g, k, c), if ticks == 0 then 1 else ticks;
      var callouts := k1.callouts[c := Callout((Now(k1.core) + n) % WORD32, k1.core.clock + n)];
      (k1.(callouts := callouts, callList := Insert(CallKeys(callouts), k1.callList, c)), Ok)
  }

  predicate CalloutDue(k: Kernel, c: nat) {
    c in k.callouts && k.callouts[c].due <= k.core.clock
  }

  /** os_callout_tick: while the first callout is due, take it off the list and put its event. */
  ghost function FireDue(g: Config, k: Kernel): Kernel
    decreases |k.callList|
  {
    if k.callList == [] || !CalloutDue(k, k.callList[0]) then k
    else
      var e := EventOf(g, k.callList[0]);
      PutLeaves(k.(callList := k.callList[1..]), HomeOf(g, e), e);
      FireDue(g, EvPut(k.(callList := k.callList[1..]), HomeOf(g, e), e))
  }

  lemma PutLeaves(k: Kernel, q: nat, e: nat)
    ensures
      var k' := EvPut(k, q, e);
      k'.callList == k.callList && k'.callouts == k.callouts && k'.core.clock == k.core.clock &&
          k'.queued == k.queued + {e}
  {
    hide Insert, Remove;
    assert e in k.queued ==> k.queued + {e} == k.queued;
  }

  /** One callout has left the list. */
  lemma ListShrinks(g: Config, list: seq<nat>, callouts: map<nat, Callout>, clock: nat, slack: nat, c: nat)
    requires CalloutsOk(g, list, callouts, clock, slack)
    ensures CalloutsOk(g, Remove(list, c), callouts, clock, slack)
    ensures forall x :: x in Remove(list, c) <==> x in list && x != c
  {
    hide Sorted, NoDup, InList;
    RemoveElems(list, c);
    RemoveDistinct(list, c);
    RemoveSorted(CallKeys(callouts), list, c);
  }

  lemma StopKeeps(g: Config, k: Kernel, c: nat)
    requires Inv(g, k) && c in g.event
    ensures Inv(g, CalloutStop(g, k, c)) && EventOf(g, c) !in CalloutStop(g, k, c).queued
    ensures CalloutStop(g, k, c).callList == Remove(k.callList, c) && CalloutStop(g, k, c).core == k.core &&
            c !in CalloutStop(g, k, c).callList
  {
    hide CoreInv, TasksOk, MutexesOk, QueuesOk, SemsOk, CalloutsOk;
    var k1 := k.(callList := Remove(k.callList, c));
    ListShrinks(g, k.callList, k.callouts, k.core.clock, 1, c);
    ListOnly(g, k, k1);
    HomesOk(g, k, 1);
    EvRemoveKeeps(g, k1, HomeOf(g, EventOf(g, c)), EventOf(g, c), 1, 1);
  }

  lemma HomesOk(g: Config, k: Kernel, slack: nat)
    requires CalloutsOk(g, k.callList, k.callouts, k.core.clock, slack)
    ensures forall c :: c in g.event ==>
      EventOf(g, c) in g.home && HomeOf(g, EventOf(g, c)) in g.consumer &&
      g.home[EventOf(g, c)] == HomeOf(g, EventOf(g, c))
  {
    hide Sorted, NoDup, InList;
  }

  /** Tasks, mutexes, semaphores and queues do not depend on the callouts and the clock. */
  lemma ListOnly(g: Config, k: Kernel, k': Kernel)
    requires k' == k.(callList := k'.callList, callouts := k'.callouts, core := k.core.(clock := k'.core.clock))
    ensures TasksOk(g, k') == TasksOk(g, k) && MutexesOk(g, k') == MutexesOk(g, k)
    ensures SemsOk(g, k') == SemsOk(g, k) && QueuesOk(g, k') == QueuesOk(g, k)
  {
    hide PrioOk, ObjOk, PcOk, Named, SemOk, QueueOk, NotIn;
    assert forall t :: Tk(k', t) == Tk(k, t);
    assert forall t :: TaskOk(g, k', t) == TaskOk(g, k, t);
    assert forall m :: MutexOk(g, k', m) == MutexOk(g, k, m);
    assert forall s :: Sm(k', s) == Sm(k, s);
    assert forall q :: Qu(k', q) == Qu(k, q) && WaiterOk(g, k', q) == WaiterOk(g, k, q);
    assert forall e :: EventOk(g, k', e) == EventOk(g, k, e);
  }

  lemma ListGrows(g: Config, list: seq<nat>, callouts: map<nat, Callout>, clock: nat, c: nat, x: Callout)
    requires CalloutsOk(g, list, callouts, clock, 1) && c !in list && InList(g, c, x, clock, 1)
    ensures
      var callouts' := callouts[c := x];
      CalloutsOk(g, Insert(CallKeys(callouts'), list, c), callouts', clock, 1)
  {
    hide Sorted, NoDup;
    var keys, keys' := CallKeys(callouts), CallKeys(callouts[c := x]);
    assert SameKeys(keys, keys', list);
    SortedFrame(keys, keys', list);
    InsertElems(keys', list, c);
    InsertDistinct(keys', list, c);
    InsertSorted(keys', list, c);
  }

  /** os_callout_reset keeps the invariant; a callout is never due before the next tick. */
  lemma ResetKeeps(g: Config, k: Kernel, c: nat, ticks: int)
    requires Inv(g, k) && c in g.event && ticks < 0x8000_0000
    ensures Inv(g, CalloutReset(g, k, c, ticks).0) && (CalloutReset(g, k, c, ticks).1 == Invalid <==> ticks < 0)
    ensures ticks >= 0 ==>
              var k' := CalloutReset(g, k, c, ticks).0;
              && c in k'.callouts && k'.callouts[c].due == k.core.clock + (if ticks == 0 then 1 else ticks)
              && EventOf(g, c) !in k'.queued && c in k'.callList
              && forall d :: d != c ==> (d in k'.callList <==> d in k.callList)
  {
    hide CoreInv, TasksOk, MutexesOk, QueuesOk, SemsOk, CalloutsOk, CalloutStop;
    if ticks >= 0 {
      StopKeeps(g, k, c);
      var k1, n := CalloutStop(g, k, c), if ticks == 0 then 1 else ticks;
      var k' := CalloutReset(g, k, c, ticks).0;
      NowPlus(k1.core.clock, n);
      ListShrinks(g, k.callList, k.callouts, k.core.clock, 1, c);
      InsertElems(CallKeys(k'.callouts), k1.callList, c);
      ListGrows(g, k1.callList, k1.callouts, k1.core.clock, c, Callout((Now(k1.core) + n) % WORD32, k1.core.clock + n));
      ListOnly(g, k1, k');
    }
  }

  // ------------------------------------------------------------ the tick

  /** No callout on the list is due. */
  ghost predicate NoCalloutDue(k: Kernel) {
    forall c :: c in k.callList ==> !CalloutDue(k, c)
  }

  /** The scan stops at the first callout that is not due; by the order none behind it is. */
  lemma RestLater(g: Config, k: Kernel)
    requires CalloutsOk(g, k.callList, k.callouts, k.core.clock, 0) &&
             (k.callList != [] ==> !CalloutDue(k, k.callList[0]))
    ensures NoCalloutDue(k) && CalloutsOk(g, k.callList, k.callouts, k.core.clock, 1)
  {
    hide Sorted, NoDup;
    forall c | c in k.callList
      ensures !CalloutDue(k, c) && InList(g, c, k.callouts[c], k.core.clock, 1)
    {
      assert InList(g, c, k.callouts[c], k.core.clock, 0);
      SortedHead(CallKeys(k.callouts), k.callList, c);
      assert k.callList[0] in k.callList;
    }
  }

  /** What firing does with one callout and one event: the callouts that were due are off the list and
      their events are queued; no other callout has left it and no other event was put. */
  ghost predicate Fired(g: Config, k: Kernel, k': Kernel) {
    && (forall c :: c in k'.callList <==> c in k.callList && !CalloutDue(k, c))
    && (forall c :: c in k.callList && CalloutDue(k, c) ==> EventOf(g, c) in k'.queued)
    && (forall e :: e in k'.queued && e !in k.queued ==>
         exists c :: c in k.callList && CalloutDue(k, c) && e == EventOf(g, c))
    && k.queued <= k'.queued && k'.callouts == k.callouts && k'.core.clock == k.core.clock
  }

  lemma FiredStep(g: Config, k: Kernel, k1: Kernel, k': Kernel)
    requires k.callList != [] && CalloutDue(k, k.callList[0]) && NoDup(k.callList)
    requires k1.callList == k.callList[1..] && k1.callouts == k.callouts && k1.core.clock == k.core.clock
    requires k1.queued == k.queued + {EventOf(g, k.callList[0])} && Fired(g, k1, k')
    ensures Fired(g, k, k')
  {
    var h := k.callList[0];
    assert forall c :: c in k.callList <==> c == h || c in k1.callList;
    forall c
      ensures CalloutDue(k1, c) == CalloutDue(k, c)
    {
    }
    forall e | e in k'.queued && e !in k.queued
      ensures exists c :: c in k.callList && CalloutDue(k, c) && e == EventOf(g, c)
    {
      if e != EventOf(g, h) {
        var c :| c in k1.callList && CalloutDue(k1, c) && e == EventOf(g, c);
        assert c in k.callList;
      } else {
        assert h in k.callList;
      }
    }
  }

  lemma FiredNone(g: Config, k: Kernel)
    requires NoCalloutDue(k)
    ensures Fired(g, k, k)
  {
  }

  lemma PopHead(g: Config, k: Kernel, s: nat)
    requires InvAt(g, k, s, 0) && k.callList != []
    ensures InvAt(g, k.(callList := k.callList[1..]), s, 0) && k.callList[0] in g.event && NoDup(k.callList)
  {
    hide CoreInv, TasksOk, MutexesOk, QueuesOk, SemsOk, CalloutsOk;
    ListShrinks(g, k.callList, k.callouts, k.core.clock, 0, k.callList[0]);
    ListOnly(g, k, k.(callList := k.callList[1..]));
    HeadKnown(g, k);
  }

  lemma HeadKnown(g: Config, k: Kernel)
    requires CalloutsOk(g, k.callList, k.callouts, k.core.clock, 0) && k.callList != []
    ensures k.callList[0] in g.event && NoDup(k.callList)
  {
    hide Sorted, NoDup;
    assert k.callList[0] in k.callList;
  }

  /** os_callout_tick fires exactly the callouts that are due: none early, none left behind. */
  lemma {:induction false} FireDueExact(g: Config, k: Kernel, s: nat)
    requires InvAt(g, k, s, 0)
    ensures InvAt(g, FireDue(g, k), s, 1) && Fired(g, k, FireDue(g, k))
    decreases |k.callList|
  {
    hide CoreInv, TasksOk, MutexesOk, QueuesOk, SemsOk, CalloutsOk, Fired, EvPut, Tasks;
    if k.callList != [] && CalloutDue(k, k.callList[0]) {
      var e := EventOf(g, k.callList[0]);
      var k0 := k.(callList := k.callList[1..]);
      PopHead(g, k, s);
      HomesOk(g, k, 0);
      EvPutKeeps(g, k0, HomeOf(g, e), e, s, 0);
      PutLeaves(k0, HomeOf(g, e), e);
      var k1 := EvPut(k0, HomeOf(g, e), e);
      FireDueExact(g, k1, s);
      FiredStep(g, k, k1, FireDue(g, k));
    } else {
      RestLater(g, k);
      FiredNone(g, k);
    }
  }

  /** The handler of the tick interrupt: time, callouts, sleepers, scheduling. */
  ghost function Tick(g: Config, k: Kernel): Kernel {
    var k1 := FireDue(g, k.(core := Advance(k.core)));
    if Placed(k1.core) then Resched(k1.(core := WakeDue(k1.core))) else k1
  }

  lemma ClockOnly(g: Config, k: Kernel)
    requires Inv(g, k)
    ensures InvAt(g, k.(core := Advance(k.core)), 0, 0)
  {
    hide CoreInv, TasksOk, MutexesOk, QueuesOk, SemsOk, CalloutsOk;
    var k' := k.(core := Advance(k.core));
    AdvanceKeeps(k.core);
    ListOnly(g, k, k');
    LaterCallouts(g, k.callList, k.callouts, k.core.clock);
  }

  lemma LaterCallouts(g: Config, list: seq<nat>, callouts: map<nat, Callout>, clock: nat)
    requires CalloutsOk(g, list, callouts, clock, 1)
    ensures CalloutsOk(g, list, callouts, clock + 1, 0)
  {
    hide Sorted, NoDup;
    forall c | c in list
      ensures InList(g, c, callouts[c], clock + 1, 0)
    {
      assert InList(g, c, callouts[c], clock, 1);
    }
  }

  /** Time running out is the only thing that happens to a task in the scan of sleepers. */
  lemma ExpiredTask(g: Config, k: Kernel, k': Kernel, u: Tid)
    requires TaskOk(g, k, u) && Expired(k.core, k'.core, u) && (forall t :: Tk(k', t).prio == Tk(k, t).prio)
    requires k' == k.(core := k'.core, current := k'.current)
    requires PcOf(k, u).GetEvent? && Tk(k, u).sleeping ==> Tk(k, u).never
    ensures TaskOk(g, k', u)
  {
  }

  lemma ExpiredPrio(c: Core, c': Core, t: Tid)
    requires Expired(c, c', t)
    ensures t in c.tasks <==> t in c'.tasks
    ensures t in c.tasks ==> c'.tasks[t].prio == c.tasks[t].prio && (c.tasks[t].never ==> c'.tasks[t] == c.tasks[t])
    ensures t in c.tasks && !c.tasks[t].sleeping ==> c'.tasks[t] == c.tasks[t]
  {
  }

  lemma ConsumerNever(g: Config, k: Kernel, u: Tid)
    requires TasksOk(g, k) && QueuesOk(g, k) && u in g.base && PcOf(k, u).GetEvent? && Tk(k, u).sleeping
    ensures Tk(k, u).never
  {
    hide QueueOk;
    assert TaskOk(g, k, u);
    assert WaiterOk(g, k, PcOf(k, u).q);
  }

  lemma WakeDueKeeps(g: Config, k: Kernel)
    requires InvAt(g, k, 0, 1)
    ensures Placed(k.core)
    ensures
      var k' := Resched(k.(core := WakeDue(k.core)));
      Inv(g, k') && k'.core == WakeDue(k.core)
  {
    hide CoreInv, TaskOk, MutexesOk, QueuesOk, SemsOk, CalloutsOk, Expired, WakeDue, NoneDue;
    CorePlacedAt(k.core, 0);
    IdleRuns(g, k, 0);
    WakeDueExact(k.core);
    CorePlacedAt(WakeDue(k.core), 1);
    var k1 := k.(core := WakeDue(k.core));
    forall t: Tid
      ensures (t in k.core.tasks <==> t in k1.core.tasks) && Tk(k1, t).prio == Tk(k, t).prio &&
              (Tk(k, t).never || !Tk(k, t).sleeping ==> Tk(k1, t) == Tk(k, t))
    {
      ExpiredPrio(k.core, k1.core, t);
    }
    Scheduled(g, k, k1);
    var k' := Resched(k1);
    ExpiredTasks(g, k, k');
    MutexesFrame(g, k, k');
    RestFrame(g, k, k');
  }

  lemma ExpiredTasks(g: Config, k: Kernel, k': Kernel)
    requires TasksOk(g, k) && QueuesOk(g, k) && (forall t :: Expired(k.core, k'.core, t)) &&
             (forall t :: Tk(k', t).prio == Tk(k, t).prio)
    requires k' == k.(core := k'.core, current := k'.current)
    ensures TasksOk(g, k')
  {
    hide TaskOk, QueuesOk, Expired;
    forall u | u in g.base
      ensures TaskOk(g, k', u)
    {
      if PcOf(k, u).GetEvent? && Tk(k, u).sleeping {
        ConsumerNever(g, k, u);
      }
      ExpiredTask(g, k, k', u);
    }
  }

  /** A tick keeps the invariant.  It wakes exactly the sleepers whose time has come, fires exactly the
      callouts whose time has come, and never ends a wait that is to last forever. */
  lemma TickKeeps(g: Config, k: Kernel)
    requires Inv(g, k)
    ensures Inv(g, Tick(g, k)) && Tick(g, k).core.clock == k.core.clock + 1
    ensures
      var k0 := k.(core := Advance(k.core));
      var k1 := FireDue(g, k0);
      && Fired(g, k0, k1) && Tick(g, k).callList == k1.callList && Tick(g, k).queued == k1.queued
      && forall t :: Expired(k1.core, Tick(g, k).core, t)
  {
    hide CoreInv, TasksOk, MutexesOk, QueuesOk, SemsOk, CalloutsOk, Expired, Fired, WakeDue, FireDue, Tasks;
    ClockOnly(g, k);
    var k0 := k.(core := Advance(k.core));
    FireDueExact(g, k0, 0);
    var k1 := FireDue(g, k0);
    WakeDueKeeps(g, k1);
    WakeDueExact(k1.core);
    FiredClock(g, k0, k1);
  }

  lemma FiredClock(g: Config, k: Kernel, k': Kernel)
    requires Fired(g, k, k')
    ensures k'.core.clock == k.core.clock
  {
  }

  // ------------------------------------------------------------ os_time_delay

  ghost function Delay(k: Kernel, ticks: nat): Kernel
    requires k.current in k.core.tasks
  {
    Resched(k.(core := Block(k.core, k.current, ticks, NoObj)))
  }

  /** Nothing a task depends on has changed. */
  lemma SameTask(g: Config, k: Kernel, k': Kernel, u: Tid)
    requires TaskOk(g, k, u) && Tk(k', u) == Tk(k, u) && (forall t :: Tk(k', t).prio == Tk(k, t).prio)
    requires k'.pc == k.pc && k'.holds == k.holds && k'.semFlag == k.semFlag && k'.mutexes == k.mutexes &&
             k'.sems == k.sems && k'.queues == k.queues
    ensures TaskOk(g, k', u)
  {
    hide PrioOk, ObjOk, PcOk, Named;
  }

  /** A task outside the kernel may sleep. */
  lemma DelaySelf(g: Config, k: Kernel, k': Kernel, u: Tid)
    requires TaskOk(g, k, u) && PcOf(k, u) == Outside && Tk(k, u).obj == NoObj && Tk(k', u).obj == NoObj &&
             Tk(k', u).prio == Tk(k, u).prio
    requires k'.pc == k.pc && k'.holds == k.holds && k'.mutexes == k.mutexes
    ensures TaskOk(g, k', u)
  {
  }

  lemma DelayIs(k: Kernel, ticks: nat)
    requires k.current in k.core.tasks
    ensures
      var k' := Delay(k, ticks);
      && k'.core == Block(k.core, k.current, ticks, NoObj) && k'.pc == k.pc && k'.holds == k.holds
      && k'.mutexes == k.mutexes
      && k'.semFlag == k.semFlag && k'.sems == k.sems && k'.queues == k.queues
  {
    hide Block;
  }

  lemma DelayTask(g: Config, k: Kernel, ticks: nat, u: Tid)
    requires k.current in k.core.tasks && TaskOk(g, k, u) && PcOf(k, k.current) == Outside &&
             Tk(k, k.current).obj == NoObj
    ensures TaskOk(g, Delay(k, ticks), u)
  {
    hide Block, TaskOk, Delay;
    DelayIs(k, ticks);
    BlockTasks(k.core, k.current, ticks, NoObj);
    if u == k.current {
      DelaySelf(g, k, Delay(k, ticks), u);
    } else {
      SameTask(g, k, Delay(k, ticks), u);
    }
  }

  lemma DelayKeeps(g: Config, k: Kernel, ticks: nat)
    requires Inv(g, k) && PcOf(k, k.current) == Outside && k.current != g.idle && GoodTimeout(ticks)
    ensures k.current in k.core.tasks && Inv(g, Delay(k, ticks))
  {
    hide CoreInv, TaskOk, MutexesOk, CalloutsOk, QueuesOk, SemsOk, Block;
    CurrentRuns(g, k);
    IdleRuns(g, k, 1);
    BlockKeeps(k.core, k.current, ticks, NoObj);
    BlockTasks(k.core, k.current, ticks, NoObj);
    CorePlacedAt(Block(k.core, k.current, ticks, NoObj), 1);
    Scheduled(g, k, k.(core := Block(k.core, k.current, ticks, NoObj)));
    var k' := Delay(k, ticks);
    RestFrame(g, k, k');
    MutexesFrame(g, k, k');
    forall u | u in g.base
      ensures TaskOk(g, k', u)
    {
      DelayTask(g, k, ticks, u);
    }
  }

  // ------------------------------------------------------------ whole runs

  /** What can happen: a call by the running task up to the end of its critical section, the rest of
      the call, once the task runs again, or an interrupt. */
  datatype Step =
    | DoMutexPend(m: nat, timeout: nat) | DoMutexRelease(m: nat)
    | DoSemPend(s: nat, timeout: nat) | DoSemRelease(s: nat) | DoSemSignal(s: nat)
    | DoPut(e: nat) | DoGet(q: nat) | DoRemove(e: nat)
    | DoReset(c: nat, ticks: int) | DoStop(c: nat)
    | DoDelay(delay: nat) | DoResume | DoTick

  /** The discipline: a task holds one mutex at a time and waits for no mutex or semaphore while it
      holds one, the idle task never waits, every queue has one consumer and every event one queue. */
  ghost predicate Allowed(g: Config, k: Kernel, s: Step) {
    match s
    case DoMutexPend(m, timeout) => MayPend(g, k, m, timeout)
    case DoMutexRelease(m) => m in g.mutexIds && PcOf(k, k.current) == Outside
    case DoSemPend(n, timeout) => MayPendSem(g, k, n, timeout)
    case DoSemRelease(n) => n in g.semIds && PcOf(k, k.current) == Outside
    case DoSemSignal(n) => n in g.semIds
    case DoPut(e) => e in g.home && g.home[e] in g.consumer
    case DoGet(q) => MayGet(g, k, q) && PcOf(k, k.current) == Outside
    case DoRemove(e) => e in g.home && g.home[e] in g.consumer
    case DoReset(c, ticks) => c in g.event && ticks < 0x8000_0000
    case DoStop(c) => c in g.event
    case DoDelay(ticks) => PcOf(k, k.current) == Outside && k.current != g.idle && 0 < ticks < 0x8000_0000
    case DoResume => PcOf(k, k.current) != Outside && (k.current != g.idle || PcOf(k, k.current).Switching?)
    case DoTick => true
  }

  ghost function After(o: Outcome): Kernel {
    match o
    case Returns(k, rc) => k
    case Sleeps(k) => Resched(k)
  }

  ghost function Next(g: Config, k: Kernel, s: Step): Kernel
    requires k.current in k.core.tasks
  {
    match s
    case DoMutexPend(m, timeout) =>
      if Mu(k, m).owner.Owned? && Mu(k, m).owner.t !in k.core.tasks then k else After(MutexPend(k, m, timeout))
    case DoMutexRelease(m) => MutexDrop(k, m).0
    case DoSemPend(n, timeout) => After(SemPend(k, n, timeout))
    case DoSemRelease(n) => SemRelease(k, n)
    case DoSemSignal(n) => SemSignal(k, n)
    case DoPut(e) => EvPut(k, HomeOf(g, e), e)
    case DoGet(q) => EvGet(k, q).k
    case DoRemove(e) => EvRemove(k, HomeOf(g, e), e)
    case DoReset(c, ticks) => CalloutReset(g, k, c, ticks).0
    case DoStop(c) => CalloutStop(g, k, c)
    case DoDelay(ticks) => Delay(k, ticks)
    case DoResume => Resume(k)
    case DoTick => Tick(g, k)
  }

  /** The running task goes on from where it slept or was interrupted. */
  ghost function Resume(k: Kernel): Kernel
    requires k.current in k.core.tasks
  {
    match PcOf(k, k.current)
    case Outside => k
    case PendMutex(m) => MutexPended(k, m).k
    case PendSem(n, got) => SemPended(k).k
    case GetEvent(q) => EvGetAgain(k, q).k
    case Releasing(m) => MutexGive(k, m)
    case Switching(to) => Switched(k)
  }

  /** A release that enters its critical section finds the mutex without a level, and with the priority
      that its caller was given. */
  ghost predicate Sound(g: Config, k: Kernel, s: Step) {
    s.DoResume? && PcOf(k, k.current).Releasing? ==>
      var mu := Mu(k, PcOf(k, k.current).m);
      mu.level == 0 && mu.prio == Base(g, k.current)
  }

  ghost predicate IsCall(s: Step) {
    s.DoMutexPend? || s.DoMutexRelease? || s.DoSemPend? || s.DoSemRelease? || s.DoSemSignal?
  }

  ghost predicate IsEvent(s: Step) {
    s.DoPut? || s.DoGet? || s.DoRemove? || s.DoReset? || s.DoStop?
  }

  lemma CallKeeps(g: Config, k: Kernel, s: Step)
    requires Inv(g, k) && Allowed(g, k, s) && IsCall(s)
    ensures k.current in k.core.tasks && Inv(g, Next(g, k, s))
  {
    hide InvAt, MutexPend, MutexDrop, SemPend, SemRelease, SemSignal, Sched, MayPend, MayPendSem;
    RunsInv(g, k);
    match s
    case DoMutexPend(m, timeout) => MutexPendKeeps(g, k, m, timeout);
    case DoMutexRelease(m) => MutexDropKeeps(g, k, m);
    case DoSemPend(n, timeout) => SemPendKeeps(g, k, n, timeout);
    case DoSemRelease(n) => SemReleaseKeeps(g, k, n);
    case DoSemSignal(n) => SemReleaseKeeps(g, k, n);
  }

  lemma EventKeeps(g: Config, k: Kernel, s: Step)
    requires Inv(g, k) && Allowed(g, k, s) && IsEvent(s)
    ensures k.current in k.core.tasks && Inv(g, Next(g, k, s))
  {
    hide InvAt, EvPut, EvGet, EvRemove, CalloutReset, CalloutStop, MayGet;
    RunsInv(g, k);
    match s
    case DoPut(e) => EvPutKeeps(g, k, HomeOf(g, e), e, 1, 1);
    case DoGet(q) => EvGetKeeps(g, k, q);
    case DoRemove(e) => EvRemoveKeeps(g, k, HomeOf(g, e), e, 1, 1);
    case DoReset(c, ticks) => ResetKeeps(g, k, c, ticks);
    case DoStop(c) => StopKeeps(g, k, c);
  }

  lemma ResumeKeeps(g: Config, k: Kernel)
    requires Inv(g, k) && Allowed(g, k, DoResume) && Sound(g, k, DoResume)
    ensures k.current in k.core.tasks && Inv(g, Resume(k))
  {
    hide InvAt, EvGet, EvGetAgain, SemPended, MutexPended, MutexGive, Switched;
    RunsInv(g, k);
    match PcOf(k, k.current)
    case Releasing(m) => MutexGiveKeeps(g, k, m);
    case Switching(to) => SwitchKeeps(g, k);
    case PendMutex(m) => MutexPendedKeeps(g, k, m);
    case PendSem(n, got) => SemPendedKeeps(g, k, n, got);
    case GetEvent(q) =>
      ConsumerIs(g, k, q);
      EvGetKeeps(g, k, q);
  }

  lemma ConsumerIs(g: Config, k: Kernel, q: nat)
    requires Inv(g, k) && PcOf(k, k.current) == GetEvent(q) && k.current != g.idle
    ensures MayGet(g, k, q)
  {
    hide CoreInv, MutexesOk, CalloutsOk, QueuesOk, SemsOk;
    CurrentRuns(g, k);
    assert TaskOk(g, k, k.current);
  }

  lemma RunsInv(g: Config, k: Kernel)
    requires Inv(g, k)
    ensures k.current in k.core.tasks
  {
    hide CoreInv, TasksOk, MutexesOk, CalloutsOk, QueuesOk, SemsOk;
    CurrentRuns(g, k);
  }

  /** Every sound step keeps the invariant. */
  lemma StepKeeps(g: Config, k: Kernel, s: Step)
    requires Inv(g, k) && Allowed(g, k, s) && Sound(g, k, s)
    ensures k.current in k.core.tasks && Inv(g, Next(g, k, s))
  {
    hide Inv, Delay, Resume, Tick, Next;
    StepKinds(g, k, s);
    if IsCall(s) {
      CallKeeps(g, k, s);
    } else if IsEvent(s) {
      EventKeeps(g, k, s);
    } else if s.DoDelay? {
      DelayKeeps(g, k, s.delay);
    } else if s.DoResume? {
      ResumeKeeps(g, k);
    } else {
      TickKeeps(g, k);
    }
  }

  lemma StepKinds(g: Config, k: Kernel, s: Step)
    requires Inv(g, k)
    ensures k.current in k.core.tasks
    ensures s.DoDelay? ==> Next(g, k, s) == Delay(k, s.delay)
    ensures s.DoResume? ==> Next(g, k, s) == Resume(k)
    ensures s.DoTick? ==> Next(g, k, s) == Tick(g, k)
  {
    hide Delay, Resume, Tick, InvAt;
    RunsInv(g, k);
  }

  /** A run from `k`: each step is allowed where it is taken. */
  ghost predicate Run(g: Config, k: Kernel, steps: seq<Step>)
    decreases |steps|
  {
    steps == [] || (k.current in k.core.tasks && Allowed(g, k, steps[0]) && Run(g, Next(g, k, steps[0]), steps[1..]))
  }

  ghost function Final(g: Config, k: Kernel, steps: seq<Step>): Kernel
    decreases |steps|
  {
    if steps == [] || k.current !in k.core.tasks then k else Final(g, Next(g, k, steps[0]), steps[1..])
  }

  /** Every release in the run is sound. */
  ghost predicate RunSound(g: Config, k: Kernel, steps: seq<Step>)
    requires Run(g, k, steps)
    decreases |steps|
  {
    steps == [] || (Sound(g, k, steps[0]) && RunSound(g, Next(g, k, steps[0]), steps[1..]))
  }

  /** The invariant holds after every sound run. */
  lemma {:induction false} RunKeeps(g: Config, k: Kernel, steps: seq<Step>)
    requires Inv(g, k) && Run(g, k, steps) && RunSound(g, k, steps)
    ensures Inv(g, Final(g, k, steps))
    decreases |steps|
  {
    hide Inv, Next, Allowed, Sound;
    if steps != [] {
      StepKeeps(g, k, steps[0]);
      RunKeeps(g, Next(g, k, steps[0]), steps[1..]);
    }
  }

  // ------------------------------------------------------------ what every run promises

  /** Every task is ready or asleep, never both, and the most urgent ready task runs, or is about to be
      switched to. */
  ghost predicate SchedPromise(g: Config, k: Kernel) {
    && (forall t :: t in g.base ==> (t in k.core.run <==> t !in k.core.sleep))
    && HeadRuns(k) && forall t :: t in k.core.run ==> Tk(k, k.core.run[0]).prio <= Tk(k, t).prio
  }

  /** A waiter is asleep on a list that names what it waits for; a sleeper with a timeout is not overdue. */
  ghost predicate WaitPromise(g: Config, k: Kernel, t: Tid) {
    && (Tk(k, t).obj != NoObj ==> t in Waiters(k.core, Tk(k, t).obj) && t in k.core.sleep)
    && (Tk(k, t).sleeping && !Tk(k, t).never ==> k.core.clock < Tk(k, t).due)
  }

  /** At most one task holds a mutex, as often as its level says; the holder is at least as urgent as
      every waiter; a task that holds none and is not giving one up has the priority it was given. */
  ghost predicate MutexPromise(g: Config, k: Kernel, t: Tid, u: Tid, m: nat) {
    && (Hd(k, t).Holds? && Hd(k, u).Holds? && Hd(k, t).m == m == Hd(k, u).m ==>
      t == u && Mu(k, m).owner == Owned(t) && Mu(k, m).level == Hd(k, t).depth)
    && (Hd(k, t).Holds? && Hd(k, t).m == m && Tk(k, u).obj == MutexObj(m) ==> Tk(k, t).prio <= Tk(k, u).prio)
    && (Hd(k, t) == Nothing && !PcOf(k, t).Releasing? ==> Tk(k, t).prio == Base(g, t))
  }

  /** Tokens are neither lost nor made, and nobody waits while there are any. */
  ghost predicate SemPromise(g: Config, k: Kernel, s: nat) {
    && Sm(k, s).tokens + Sm(k, s).taken == Sm(k, s).initial + Sm(k, s).releases
    && (Sm(k, s).tokens > 0 ==> Waiters(k.core, SemObj(s)) == [])
  }

  /** An event is marked queued exactly when it is on its queue, and no consumer sleeps while an event
      is queued for it. */
  ghost predicate QueuePromise(g: Config, k: Kernel, e: nat) {
    e in g.home && g.home[e] in g.consumer ==>
      var q := g.home[e];
      && (e in k.queued <==> !NotIn(Qu(k, q).list, e))
      && (e in k.queued && PcOf(k, g.consumer[q]) == GetEvent(q) ==> !Tk(k, g.consumer[q]).sleeping)
  }

  lemma InvSched(g: Config, k: Kernel)
    requires CoreInv(k.core, 1) && Tasks(g, k)
    ensures SchedPromise(g, k)
  {
    hide NoDup, Sorted, Timed, Waiting;
    forall t | t in k.core.run
      ensures Tk(k, k.core.run[0]).prio <= Tk(k, t).prio
    {
      SortedHead(PrioKeys(k.core.tasks), k.core.run, t);
    }
  }

  lemma InvWait(g: Config, k: Kernel, t: Tid)
    requires CoreInv(k.core, 1) && Tasks(g, k) && t in g.base
    ensures WaitPromise(g, k, t)
  {
    hide NoDup, Sorted;
    assert InTime(k.core, t, 1);
    if Tk(k, t).obj != NoObj {
      assert WaitList(k.core, Tk(k, t).obj);
    }
  }

  lemma InvMutex(g: Config, k: Kernel, t: Tid, u: Tid, m: nat)
    requires TaskOk(g, k, t) && TaskOk(g, k, u)
    ensures MutexPromise(g, k, t, u, m)
  {
  }

  lemma InvSem(g: Config, k: Kernel, s: nat)
    requires CoreInv(k.core, 1) && Tasks(g, k) && TasksOk(g, k) && SemsOk(g, k) && s in g.semIds
    ensures SemPromise(g, k, s)
  {
    hide CoreInv, TaskOk;
    assert SemOk(Sm(k, s));
    var w := Waiters(k.core, SemObj(s));
    if w != [] {
      WaitersOf(k.core, SemObj(s), w[0]);
      WantsSem(g, k, s, w[0]);
    }
  }

  lemma WantsSem(g: Config, k: Kernel, s: nat, t: Tid)
    requires TaskOk(g, k, t) && Tk(k, t).obj == SemObj(s)
    ensures Sm(k, s).tokens == 0
  {
  }

  lemma InvQueue(g: Config, k: Kernel, e: nat)
    requires Tasks(g, k) && TasksOk(g, k) && QueuesOk(g, k)
    requires forall q :: q in g.consumer ==> g.consumer[q] in g.base
    ensures QueuePromise(g, k, e)
  {
    hide Serials;
    if e in g.home && g.home[e] in g.consumer {
      var q := g.home[e];
      assert QueueOk(g, q, Qu(k, q), k.queued);
      assert TaskOk(g, k, g.consumer[q]);
      if e in k.queued {
        assert EventOk(g, k, e);
      }
    }
  }

  ghost predicate Promises(g: Config, k: Kernel) {
    && SchedPromise(g, k)
    && (forall t :: t in g.base ==> WaitPromise(g, k, t))
    && (forall t, u, m :: t in g.base && u in g.base ==> MutexPromise(g, k, t, u, m))
    && (forall s :: s in g.semIds ==> SemPromise(g, k, s))
    && forall e :: QueuePromise(g, k, e)
  }

  lemma InvPromises(g: Config, k: Kernel)
    requires Inv(g, k) && forall q :: q in g.consumer ==> g.consumer[q] in g.base
    ensures Promises(g, k)
  {
    hide CoreInv, TaskOk, MutexesOk, CalloutsOk, QueuesOk, SemsOk, Tasks, SchedPromise, WaitPromise, MutexPromise,
        SemPromise, QueuePromise;
    InvSched(g, k);
    forall t | t in g.base
      ensures WaitPromise(g, k, t)
    {
      InvWait(g, k, t);
    }
    forall t, u, m | t in g.base && u in g.base
      ensures MutexPromise(g, k, t, u, m)
    {
      InvMutex(g, k, t, u, m);
    }
    forall s | s in g.semIds
      ensures SemPromise(g, k, s)
    {
      InvSem(g, k, s);
    }
    forall e
      ensures QueuePromise(g, k, e)
    {
      InvQueue(g, k, e);
    }
  }

  // ------------------------------------------------------------ a release that is not sound

  /** Another task has the mutex: it is left without its owner. */
  lemma GiveTaken(g: Config, k: Kernel, m: nat, x: Tid)
    requires Inv(g, k) && PcOf(k, k.current) == Releasing(m) && Mu(k, m).level > 0 && Mu(k, m).owner == Owned(x)
    ensures k.current in k.core.tasks && x in g.base && !MutexPromise(g, MutexGive(k, m), x, x, m)
  {
    hide CoreInv, CalloutsOk, QueuesOk, SemsOk, Restore, TaskOk, Wake;
    GiveReady(g, k, m);
    assert MutexOk(g, k, m);
    var c := Restore(k, Mu(k, m));
    var w := Waiters(c, MutexObj(m));
    RestoreTasks(k, Mu(k, m));
    if w != [] {
      WantsMutexToo(g, k, m, c, w[0]);
    }
  }

  /** The mutex remembers another priority: the caller keeps it. */
  lemma GiveStale(g: Config, k: Kernel, m: nat)
    requires Inv(g, k) && PcOf(k, k.current) == Releasing(m) && Mu(k, m).prio != Base(g, k.current)
    ensures k.current in k.core.tasks && k.current in g.base &&
            !MutexPromise(g, MutexGive(k, m), k.current, k.current, m)
  {
    hide CoreInv, CalloutsOk, QueuesOk, SemsOk, Restore, TaskOk, Wake;
    GiveReady(g, k, m);
    var c := Restore(k, Mu(k, m));
    var w := Waiters(c, MutexObj(m));
    RestoreTasks(k, Mu(k, m));
    if w != [] {
      WantsMutexToo(g, k, m, c, w[0]);
      if w[0] in c.tasks {
        WakeTasks(c, w[0]);
      }
    }
  }

  /** A step that is not sound breaks a promise. */
  lemma UnsoundBreaks(g: Config, k: Kernel, s: Step)
    requires Inv(g, k) && Allowed(g, k, s) && !Sound(g, k, s)
    ensures k.current in k.core.tasks && !Promises(g, Next(g, k, s))
  {
    hide InvAt, MutexGive, MutexPromise, SchedPromise, WaitPromise, SemPromise, QueuePromise;
    RunsInv(g, k);
    var m := PcOf(k, k.current).m;
    if Mu(k, m).prio != Base(g, k.current) {
      GiveStale(g, k, m);
    } else {
      OwnedLevel(g, k, m);
      GiveTaken(g, k, m, Mu(k, m).owner.t);
    }
  }

  lemma OwnedLevel(g: Config, k: Kernel, m: nat)
    requires Inv(g, k) && PcOf(k, k.current) == Releasing(m) && Mu(k, m).level > 0
    ensures Mu(k, m).owner.Owned?
  {
    hide CoreInv, CalloutsOk, QueuesOk, SemsOk, TaskOk, Restore;
    GiveReady(g, k, m);
    assert MutexOk(g, k, m);
  }

  /** The promises hold all along the run. */
  ghost predicate AlwaysPromised(g: Config, k: Kernel, steps: seq<Step>)
    requires Run(g, k, steps)
    decreases |steps|
  {
    Promises(g, k) && (steps == [] || AlwaysPromised(g, Next(g, k, steps[0]), steps[1..]))
  }

  /** The promises hold all along a run, whatever calls, interrupts and timeouts it is made of, if and
      only if every release that enters its critical section finds the mutex without a level, and with
      the priority that its caller was given. */
  lemma {:induction false} RunPromises(g: Config, k: Kernel, steps: seq<Step>)
    requires Inv(g, k) && Run(g, k, steps) && forall q :: q in g.consumer ==> g.consumer[q] in g.base
    ensures AlwaysPromised(g, k, steps) <==> RunSound(g, k, steps)
    decreases |steps|
  {
    hide Inv, Next, Allowed, Sound, Promises;
    InvPromises(g, k);
    if steps != [] {
      if Sound(g, k, steps[0]) {
        StepKeeps(g, k, steps[0]);
        RunPromises(g, Next(g, k, steps[0]), steps[1..]);
      } else {
        UnsoundBreaks(g, k, steps[0]);
      }
    }
  }

  /** The kernel as it starts: all tasks ready, nothing held, waited for or queued. */
  ghost predicate Initial(g: Config, k: Kernel) {
    && Tasks(g, k) && Placed(k.core) && k.core.sleep == [] && Sorted(PrioKeys(k.core.tasks), k.core.run)
    && (forall t :: t in g.base ==>
      Tk(k, t) == Task(g.base[t], false, false, 0, 0, NoObj) && PcOf(k, t) == Outside && Hd(k, t) == Nothing)
    && (forall o :: Waiters(k.core, o) == [])
    && (forall m :: Mu(k, m).owner == NoOwner && Mu(k, m).level == 0)
    && (forall s :: Sm(k, s).tokens == Sm(k, s).initial && Sm(k, s).taken == 0 && Sm(k, s).releases == 0)
    && (forall q :: Qu(k, q).list == [] && Qu(k, q).task == NoWaiter && Qu(k, q).got <= Qu(k, q).next)
    && k.queued == {} && k.callList == []
    && forall c :: c in g.event ==> g.event[c] in g.home && g.home[g.event[c]] in g.consumer
  }

  lemma InitialCore(g: Config, k: Kernel)
    requires Initial(g, k)
    ensures CoreInv(k.core, 1)
  {
    hide NoDup;
    assert forall t :: t in k.core.tasks ==> t in g.base && k.core.tasks[t] == Tk(k, t);
    forall o | o != NoObj
      ensures WaitList(k.core, o)
    {
      assert Waiters(k.core, o) == [];
      assert NoDup<Tid>([]);
    }
  }

  lemma InitialInv(g: Config, k: Kernel)
    requires Initial(g, k)
    ensures Inv(g, k)
  {
    hide CoreInv, Sorted, NoDup;
    InitialCore(g, k);
    forall t | t in g.base
      ensures TaskOk(g, k, t)
    {
    }
    InitialRest(g, k);
  }

  lemma InitialRest(g: Config, k: Kernel)
    requires Initial(g, k)
    ensures MutexesOk(g, k) && SemsOk(g, k) && QueuesOk(g, k) && CalloutsOk(g, k.callList, k.callouts, k.core.clock, 1)
  {
    assert forall q :: Qu(k, q).list == [];
  }

  /** Tasks put on the run list one by one. */
  ghost function ReadyList(keys: Keys, order: seq<Tid>): seq<Tid>
    decreases |order|
  {
    if order == [] then [] else Insert(keys, ReadyList(keys, order[1..]), order[0])
  }

  lemma {:induction false} ReadyListOk(keys: Keys, order: seq<Tid>)
    requires NoDup(order)
    ensures NoDup(ReadyList(keys, order)) && Sorted(keys, ReadyList(keys, order)) &&
            forall t :: t in ReadyList(keys, order) <==> t in order
    decreases |order|
  {
    if order != [] {
      var rest := ReadyList(keys, order[1..]);
      ReadyListOk(keys, order[1..]);
      InsertElems(keys, rest, order[0]);
      InsertSorted(keys, rest, order[0]);
      InsertDistinct(keys, rest, order[0]);
    }
  }

  /** The kernel once its tasks, created in any order, mutexes, semaphores and queues have been set up. */
  ghost function Started(g: Config, order: seq<Tid>, tokens: map<nat, nat>): Kernel
    requires tokens.Keys == g.semIds && order != []
  {
    var tasks := map t | t in g.base :: Task(g.base[t], false, false, 0, 0, NoObj);
    var run := ReadyList(PrioKeys(tasks), order);
    Kernel(Core(tasks, run, [], map[], 0), if run == [] then 0 else run[0],
           map m | m in g.mutexIds :: Mutex(NoOwner, 0, 0), map s | s in tokens :: Sem(tokens[s], tokens[s], 0, 0), {},
           map q | q in g.consumer :: Queue([], NoWaiter, 0, 0), {}, map[], [],
           map t | t in g.base :: Outside, map t | t in g.base :: Nothing)
  }

  lemma StartedTasks(g: Config, order: seq<Tid>, tokens: map<nat, nat>)
    requires NoDup(order) && (forall t :: t in order <==> t in g.base) && g.idle in g.base &&
             tokens.Keys == g.semIds && order != []
    ensures
      var k := Started(g, order, tokens);
      Tasks(g, k) && Placed(k.core) && k.core.sleep == [] && Sorted(PrioKeys(k.core.tasks), k.core.run)
  {
    hide Sorted, ReadyList, PrioKeys;
    var k := Started(g, order, tokens);
    ReadyListOk(PrioKeys(k.core.tasks), order);
    assert k.core.tasks.Keys == g.base.Keys == k.pc.Keys == k.holds.Keys;
    assert k.mutexes.Keys == g.mutexIds && k.sems.Keys == g.semIds && k.queues.Keys == g.consumer.Keys;
    assert g.idle in k.core.run;
  }

  lemma StartedInitial(g: Config, order: seq<Tid>, tokens: map<nat, nat>)
    requires NoDup(order) && (forall t :: t in order <==> t in g.base) && g.idle in g.base && tokens.Keys == g.semIds
    requires forall c :: c in g.event ==> g.event[c] in g.home && g.home[g.event[c]] in g.consumer
    ensures order != [] && Initial(g, Started(g, order, tokens))
  {
    hide NoDup, Sorted, ReadyList, PrioKeys, Tasks, Placed;
    assert g.idle in order;
    StartedTasks(g, order, tokens);
  }
}
