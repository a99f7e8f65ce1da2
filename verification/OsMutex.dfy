/** Releasing a mutex, and what pend and release keep together. */
module OsMutex {
  import opened Common
  import opened OsList
  import opened OsSched
  import opened OsKernel

  /** The owner gets back the priority it had when it took the mutex. */
  ghost function Restore(k: Kernel, mu: Mutex): Core
    requires k.current in k.core.tasks
  {
    if Tk(k, k.current).prio != mu.prio then SetPrio(k.core, k.current, mu.prio) else k.core
  }

  /** os_mutex_release up to its critical section: the check and the decrement of the level. */
  function MutexDrop(k: Kernel, m: nat): (Kernel, Rc) {
    var mu, t := Mu(k, m), k.current;
    if mu.level == 0 || mu.owner != Owned(t) then (k, BadMutex)
    else if mu.level > 1 then
      (k.(mutexes := k.mutexes[m := mu.(level := mu.level - 1)], holds := k.holds[t := Holds(m, mu.level - 1)]), Ok)
    else
      (k.(mutexes := k.mutexes[m := mu.(level := 0)], holds := k.holds[t := Nothing], pc := k.pc[t := Releasing(m)]),
          Ok)
  }

  /** The critical section of os_mutex_release. */
  ghost function MutexGive(k: Kernel, m: nat): Kernel
    requires k.current in k.core.tasks
  {
    var c := Restore(k, Mu(k, m));
    var w := Waiters(c, MutexObj(m));
    Leaves(if w == [] || w[0] !in c.tasks then Freed(k, m, c) else HandedOver(k, m, c, w[0]))
  }

  ghost function Freed(k: Kernel, m: nat, c: Core): Kernel {
    k.(core := c, mutexes := k.mutexes[m := Mu(k, m).(owner := NoOwner)])
  }

  /** The most urgent waiter becomes the owner. */
  ghost function HandedOver(k: Kernel, m: nat, c: Core, r: Tid): Kernel
    requires r in c.tasks
  {
    k.(core := Wake(c, r), mutexes := k.mutexes[m := Mutex(Owned(r), 1, c.tasks[r].prio)],
        holds := k.holds[r := Holds(m, 1)])
  }

  /** A release leaves its critical section, to switch if its caller is no longer the most urgent. */
  function Leaves(k: Kernel): Kernel {
    k.(pc := k.pc[k.current := if k.core.run == [] || k.core.run[0] == k.current then Outside
        else Switching(k.core.run[0])])
  }

  /** The switch: the head of the run list runs, whichever task it is by now. */
  function Switched(k: Kernel): Kernel {
    var k' := k.(pc := k.pc[k.current := Outside]);
    if k'.core.run == [] then k' else Sched(k')
  }

  /** The caller is about to give the mutex up, which is as it left it or free again with the
      priority that the caller was given. */
  ghost predicate Giving(g: Config, k: Kernel, m: nat) {
    && m in g.mutexIds && PcOf(k, k.current) == Releasing(m) && Mu(k, m).level == 0
    && Mu(k, m).prio == Base(g, k.current)
    && k.current in k.core.tasks && k.current in g.base && Tk(k, k.current).obj == NoObj && !Tk(k, k.current).sleeping
    && Hd(k, k.current) == Nothing
  }

  // ------------------------------------------------------------ the decrement

  ghost predicate Dropping(g: Config, k: Kernel, m: nat) {
    m in g.mutexIds && Mu(k, m).level > 0 && Mu(k, m).owner == Owned(k.current) && PcOf(k, k.current) == Outside &&
        MutexOk(g, k, m)
  }

  /** What the decrement does. */
  ghost predicate Drops(k: Kernel, m: nat, k': Kernel)
    requires Mu(k, m).level > 0
  {
    && k'.mutexes == k.mutexes[m := Mu(k, m).(level := Mu(k, m).level - 1)]
    && k'.holds == k.holds[k.current := if Mu(k, m).level > 1 then Holds(m, Mu(k, m).level - 1) else Nothing]
    && k'.pc == k.pc[k.current := if Mu(k, m).level > 1 then Outside else Releasing(m)]
    && k'.core == k.core && k'.sems == k.sems && k'.semFlag == k.semFlag && k'.queues == k.queues
    && k'.queued == k.queued
  }

  lemma DropOther(g: Config, k: Kernel, m: nat, k': Kernel, u: Tid)
    requires Dropping(g, k, m) && TaskOk(g, k, u) && Drops(k, m, k') && u != k.current
    ensures TaskOk(g, k', u)
  {
    hide PcOk;
  }

  lemma DropSelf(g: Config, k: Kernel, m: nat, k': Kernel)
    requires Dropping(g, k, m) && TaskOk(g, k, k.current) && Drops(k, m, k') && Tk(k, k.current).obj == NoObj &&
             !Tk(k, k.current).sleeping
    ensures TaskOk(g, k', k.current)
  {
    hide ObjOk;
    NothingWanted(Tk(k', k.current), PcOf(k', k.current), Hd(k', k.current), ObjMutex(k', NoObj),
        OwnerPrio(k', ObjMutex(k', NoObj)), ObjTokens(k', NoObj));
  }

  lemma DropMutex(g: Config, k: Kernel, m: nat, k': Kernel, n: nat)
    requires Dropping(g, k, m) && MutexOk(g, k, n) && Drops(k, m, k')
    ensures MutexOk(g, k', n)
  {
  }

  lemma DropIs(g: Config, k: Kernel, m: nat)
    requires Dropping(g, k, m) && Tasks(g, k)
    ensures
      var k' := MutexDrop(k, m).0;
      && Drops(k, m, k') && MutexDrop(k, m).1 == Ok && k' == k.(mutexes := k'.mutexes, holds := k'.holds, pc := k'.pc)
      && Tasks(g, k') && PcOf(k', k.current) == if Mu(k, m).level > 1 then Outside else Releasing(m)
  {
  }

  /** The first half of os_mutex_release keeps the invariant, and fails exactly when the caller is
      not the owner. */
  lemma MutexDropKeeps(g: Config, k: Kernel, m: nat)
    requires Inv(g, k) && m in g.mutexIds && PcOf(k, k.current) == Outside
    ensures k.current in k.core.tasks && Inv(g, MutexDrop(k, m).0)
    ensures MutexDrop(k, m).1 == if Mu(k, m).owner == Owned(k.current) then Ok else BadMutex
    ensures MutexDrop(k, m).1 == BadMutex ==> MutexDrop(k, m).0 == k
    ensures PcOf(MutexDrop(k, m).0, k.current) == if Hd(k, k.current) == Holds(m, 1) then Releasing(m) else Outside
  {
    hide CoreInv, TaskOk, CalloutsOk, QueuesOk, SemsOk, MutexesOk;
    CurrentRuns(g, k);
    HeldLevel(g, k, m);
    if Mu(k, m).owner == Owned(k.current) {
      DropIs(g, k, m);
      DropAll(g, k, m, MutexDrop(k, m).0);
    }
  }

  lemma DropAll(g: Config, k: Kernel, m: nat, k': Kernel)
    requires TasksOk(g, k) && MutexesOk(g, k) && SemsOk(g, k) && QueuesOk(g, k) && Dropping(g, k, m) && Drops(k, m, k')
    requires k.current in g.base && Tk(k, k.current).obj == NoObj && !Tk(k, k.current).sleeping
    ensures TasksOk(g, k') && MutexesOk(g, k') && SemsOk(g, k') && QueuesOk(g, k')
  {
    hide TaskOk, MutexOk, QueuesOk, SemsOk;
    RestFrame(g, k, k');
    DropSelf(g, k, m, k');
    forall u | u in g.base && u != k.current
      ensures TaskOk(g, k', u)
    {
      DropOther(g, k, m, k', u);
    }
    forall n | n in g.mutexIds
      ensures MutexOk(g, k', n)
    {
      DropMutex(g, k, m, k', n);
    }
  }

  lemma HeldLevel(g: Config, k: Kernel, m: nat)
    requires TasksOk(g, k) && k.current in g.base && MutexesOk(g, k) && m in g.mutexIds && PcOf(k, k.current) == Outside
    ensures MutexOk(g, k, m)
    ensures Hd(k, k.current).Holds? && Hd(k, k.current).m == m ==> Mu(k, m).owner == Owned(k.current)
    ensures Mu(k, m).owner == Owned(k.current) ==> Mu(k, m).level > 0 && Hd(k, k.current) == Holds(m, Mu(k, m).level)
  {
    assert TaskOk(g, k, k.current);
  }

  // ------------------------------------------------------------ giving the mutex up

  lemma RestoreTasks(k: Kernel, mu: Mutex)
    requires k.current in k.core.tasks
    ensures Restore(k, mu).tasks == k.core.tasks[k.current := k.core.tasks[k.current].(prio := mu.prio)]
    ensures Restore(k, mu).waits == k.core.waits && Restore(k, mu).clock == k.core.clock
  {
    hide Insert, Remove;
  }

  /** The tasks, when the caller has its own priority again. */
  ghost predicate Restored(k: Kernel, m: nat, c: Core) {
    k.current in k.core.tasks && c.tasks == k.core.tasks[k.current := k.core.tasks[k.current].(prio := Mu(k, m).prio)]
  }

  lemma FreedTask(g: Config, k: Kernel, m: nat, c: Core, u: Tid)
    requires Giving(g, k, m) && TaskOk(g, k, u) && Restored(k, m, c)
    requires Tk(k, u).obj != MutexObj(m) && (Tk(k, u).obj.MutexObj? ==> Mu(k, Tk(k, u).obj.m).owner != Owned(k.current))
    ensures TaskOk(g, Leaves(Freed(k, m, c)), u)
  {
  }

  lemma GivenMutex(g: Config, k: Kernel, m: nat, k': Kernel, r: Tid, n: nat)
    requires Giving(g, k, m) && MutexOk(g, k, n) && k'.pc == k.pc[k.current := PcOf(k', k.current)]
    requires
      || (k'.mutexes == k.mutexes[m := Mu(k, m).(owner := NoOwner)] && k'.holds == k.holds)
      || (k'.mutexes == k.mutexes[m := Mutex(Owned(r), 1, Base(g, r))] && k'.holds == k.holds[r := Holds(m, 1)] &&
          r in g.base
          && Hd(k, r) == Nothing)
    ensures MutexOk(g, k', n)
  {
  }

  /** Handing over: the caller is back to its own priority. */
  lemma HandedSelf(g: Config, k: Kernel, m: nat, c: Core, r: Tid)
    requires Giving(g, k, m) && TaskOk(g, k, k.current) && r in c.tasks && r != k.current && Restored(k, m, c)
    ensures TaskOk(g, Leaves(HandedOver(k, m, c, r)), k.current)
  {
    hide Insert, Remove;
  }

  /** Handing over: the chosen waiter owns the mutex. */
  lemma HandedNew(g: Config, k: Kernel, m: nat, c: Core, r: Tid)
    requires Giving(g, k, m) && TaskOk(g, k, r) && r in c.tasks && r != k.current && Tk(k, r).obj == MutexObj(m) &&
             Restored(k, m, c)
    ensures TaskOk(g, Leaves(HandedOver(k, m, c, r)), r) && c.tasks[r].prio == Base(g, r)
  {
    hide Insert, Remove;
  }

  /** Handing over: those who still wait are no more urgent than the new owner. */
  lemma HandedOther(g: Config, k: Kernel, m: nat, c: Core, r: Tid, u: Tid)
    requires Giving(g, k, m) && TaskOk(g, k, u) && r in c.tasks && r != k.current && u != k.current && u != r &&
             Restored(k, m, c)
    requires Tk(k, u).obj == MutexObj(m) ==> Tk(k, r).prio <= Tk(k, u).prio
    requires Tk(k, u).obj.MutexObj? && Tk(k, u).obj != MutexObj(m) ==> Mu(k, Tk(k, u).obj.m).owner != Owned(k.current)
    requires Hd(k, u).Holds? ==> Hd(k, u).m != m
    ensures TaskOk(g, Leaves(HandedOver(k, m, c, r)), u)
  {
    hide Insert, Remove, PcOk;
  }

  /** The caller is ready to give the mutex up, and the run list can be put in order. */
  lemma GiveReady(g: Config, k: Kernel, m: nat)
    requires Inv(g, k) && PcOf(k, k.current) == Releasing(m)
    ensures k.current in k.core.tasks && k.current in g.base && TaskOk(g, k, k.current) && m in g.mutexIds &&
            Hd(k, k.current) == Nothing
    ensures Mu(k, m).level == 0 && Mu(k, m).prio == Base(g, k.current) ==> Giving(g, k, m)
    ensures CoreInv(Restore(k, Mu(k, m)), 1)
  {
    hide CalloutsOk, QueuesOk, SemsOk, CoreInv, SetPrio;
    CurrentRuns(g, k);
    assert TaskOk(g, k, k.current);
    SetPrioKeeps(k.core, k.current, Mu(k, m).prio, 1);
  }

  /** Who waits for which mutex. */
  lemma WaitersOf(c: Core, o: Obj, t: Tid)
    requires CoreInv(c, 1) && o != NoObj
    ensures t in Waiters(c, o) <==> t in c.tasks && c.tasks[t].obj == o
    ensures t in Waiters(c, o) ==> t in c.sleep && t in c.tasks
    ensures Waiters(c, o) != [] && t in Waiters(c, o) ==>
      Waiters(c, o)[0] in c.tasks && c.tasks[Waiters(c, o)[0]].prio <= c.tasks[t].prio
  {
    hide NoDup, Timed, Sorted;
    assert WaitList(c, o);
    if t in Waiters(c, o) {
      assert Waiters(c, o)[0] in Waiters(c, o);
      SortedHead(PrioKeys(c.tasks), Waiters(c, o), t);
    }
  }

  lemma OtherOwner(g: Config, k: Kernel, m: nat, u: Tid)
    requires MutexesOk(g, k) && TaskOk(g, k, u) && Giving(g, k, m)
    ensures Tk(k, u).obj.MutexObj? && Tk(k, u).obj != MutexObj(m) ==> Mu(k, Tk(k, u).obj.m).owner != Owned(k.current)
    ensures Hd(k, u).Holds? ==> Hd(k, u).m != m
  {
    if Tk(k, u).obj.MutexObj? {
      assert MutexOk(g, k, Tk(k, u).obj.m);
    }
  }

  /** The caller goes on, to switch if it must. */
  lemma LeavesTasks(g: Config, k: Kernel, k1: Kernel)
    requires Tasks(g, k) && Placed(k1.core) && k1.core.tasks.Keys == k.core.tasks.Keys && k1.current == k.current
    requires !Tk(k1, k.current).sleeping && !Tk(k1, g.idle).sleeping
    requires k1.pc.Keys == k.pc.Keys && k1.holds.Keys == k.holds.Keys
    requires k1.mutexes.Keys == k.mutexes.Keys && k1.sems.Keys == k.sems.Keys && k1.queues.Keys == k.queues.Keys
    requires g.idle in k.core.tasks && k.current in k.core.tasks
    ensures Tasks(g, Leaves(k1))
  {
    hide NoDup;
    assert g.idle in k1.core.run && k.current in k1.core.run;
  }

  lemma FreedKeeps(g: Config, k: Kernel, m: nat)
    requires Inv(g, k) && Giving(g, k, m) && CoreInv(Restore(k, Mu(k, m)), 1)
    requires Waiters(Restore(k, Mu(k, m)), MutexObj(m)) == []
    ensures Inv(g, Leaves(Freed(k, m, Restore(k, Mu(k, m)))))
  {
    hide CoreInv, TaskOk, MutexOk, CalloutsOk, QueuesOk, SemsOk, Restore;
    var c := Restore(k, Mu(k, m));
    var k1 := Freed(k, m, c);
    var k' := Leaves(k1);
    RestoreTasks(k, Mu(k, m));
    IdleRuns(g, k, 1);
    CorePlaced(c);
    LeavesTasks(g, k, k1);
    RestFrame(g, k, k');
    forall u | u in g.base
      ensures TaskOk(g, k', u)
    {
      WaitersOf(c, MutexObj(m), u);
      OtherOwner(g, k, m, u);
      FreedTask(g, k, m, c, u);
    }
    forall n | n in g.mutexIds
      ensures MutexOk(g, k', n)
    {
      GivenMutex(g, k, m, k', 0, n);
    }
  }

  lemma CurrentOnly(g: Config, k: Kernel, k': Kernel, u: Tid)
    requires TaskOk(g, k, u) && k' == k.(current := k'.current)
    ensures TaskOk(g, k', u)
  {
    hide PrioOk, ObjOk, PcOk, Named;
  }

  lemma HandedTasks(g: Config, k: Kernel, m: nat, c: Core, r: Tid)
    requires Tasks(g, k) && TasksOk(g, k) && MutexesOk(g, k) && Giving(g, k, m) && CoreInv(c, 1) && r in c.tasks &&
             Restored(k, m, c)
    requires Waiters(c, MutexObj(m)) != [] && r == Waiters(c, MutexObj(m))[0]
    ensures TasksOk(g, Leaves(HandedOver(k, m, c, r)))
    ensures r in c.sleep && r != k.current && Hd(k, r) == Nothing && c.tasks[r].prio == Base(g, r)
  {
    hide CoreInv, TaskOk, HandedOver, MutexOk, Leaves;
    WaitersOf(c, MutexObj(m), r);
    assert TaskOk(g, k, r);
    WantsMutex(g, k, m, r);
    HandedNew(g, k, m, c, r);
    forall u | u in g.base
      ensures TaskOk(g, Leaves(HandedOver(k, m, c, r)), u)
    {
      if u == k.current {
        HandedSelf(g, k, m, c, r);
      } else if u != r {
        WaitersOf(c, MutexObj(m), u);
        OtherOwner(g, k, m, u);
        HandedOther(g, k, m, c, r, u);
      }
    }
  }

  lemma WantsMutex(g: Config, k: Kernel, m: nat, r: Tid)
    requires TaskOk(g, k, r) && Tk(k, r).obj == MutexObj(m)
    ensures Hd(k, r) == Nothing && PcOf(k, r) == PendMutex(m)
  {
  }

  lemma HandedKeeps(g: Config, k: Kernel, m: nat, r: Tid)
    requires Inv(g, k) && Giving(g, k, m) && CoreInv(Restore(k, Mu(k, m)), 1)
    requires
      var w := Waiters(Restore(k, Mu(k, m)), MutexObj(m));
      w != [] && r == w[0] && r in Restore(k, Mu(k, m)).tasks
    ensures Inv(g, Leaves(HandedOver(k, m, Restore(k, Mu(k, m)), r)))
  {
    hide CoreInv, TaskOk, MutexesOk, CalloutsOk, QueuesOk, SemsOk, Restore, Wake, Tasks, Giving;
    GivesTask(g, k, m);
    var c := Restore(k, Mu(k, m));
    RestoreTasks(k, Mu(k, m));
    WantsMutexToo(g, k, m, c, r);
    HandedTasks(g, k, m, c, r);
    HandedCore(g, k, m, c, r);
    HandedRest(g, k, m, c, r);
  }

  lemma GivesTask(g: Config, k: Kernel, m: nat)
    requires Giving(g, k, m) && Tasks(g, k)
    ensures k.current in k.core.tasks && k.core.tasks.Keys == g.base.Keys
  {
  }

  lemma HandedCore(g: Config, k: Kernel, m: nat, c: Core, r: Tid)
    requires CoreInv(k.core, 1) && CoreInv(c, 1) && Tasks(g, k) && Giving(g, k, m) && Restored(k, m, c) &&
             r in c.sleep && r in c.tasks && r in g.base
    ensures CoreInv(Wake(c, r), 1) && Wake(c, r).clock == c.clock && Tasks(g, Leaves(HandedOver(k, m, c, r)))
  {
    hide CoreInv, Wake, Leaves;
    IdleRuns(g, k, 1);
    WakeKeeps(c, r, 1);
    WakeTasks(c, r);
    CorePlaced(Wake(c, r));
    LeavesTasks(g, k, HandedOver(k, m, c, r));
  }

  lemma HandedRest(g: Config, k: Kernel, m: nat, c: Core, r: Tid)
    requires MutexesOk(g, k) && SemsOk(g, k) && QueuesOk(g, k) && Giving(g, k, m) && Restored(k, m, c) &&
             r in c.tasks && r in g.base
    requires PcOf(k, r) == PendMutex(m) && Hd(k, r) == Nothing && c.tasks[r].prio == Base(g, r)
    ensures
      var k' := Leaves(HandedOver(k, m, c, r));
      MutexesOk(g, k') && SemsOk(g, k') && QueuesOk(g, k')
  {
    hide MutexOk, QueuesOk, SemsOk, Wake;
    WakeTasks(c, r);
    var k' := Leaves(HandedOver(k, m, c, r));
    RestFrame(g, k, k');
    forall n | n in g.mutexIds
      ensures MutexOk(g, k', n)
    {
      GivenMutex(g, k, m, k', r, n);
    }
  }

  lemma WantsMutexToo(g: Config, k: Kernel, m: nat, c: Core, r: Tid)
    requires TasksOk(g, k) && Tasks(g, k) && CoreInv(c, 1) && k.current in k.core.tasks
    requires Restored(k, m, c) && r in Waiters(c, MutexObj(m))
    ensures PcOf(k, r) == PendMutex(m) && r in g.base && r in c.sleep && Hd(k, r) == Nothing
  {
    hide CoreInv, TaskOk;
    WaitersOf(c, MutexObj(m), r);
    assert TaskOk(g, k, r);
    WantsMutex(g, k, m, r);
  }

  lemma WakeTasks(c: Core, r: Tid)
    requires r in c.tasks
    ensures Wake(c, r).tasks == c.tasks[r := Task(c.tasks[r].prio, false, false, 0, 0, NoObj)] &&
            Wake(c, r).clock == c.clock
  {
    hide Insert, Remove;
  }

  /** The critical section of os_mutex_release keeps the invariant if the mutex has no level and
      remembers the priority the caller was given. */
  lemma MutexGiveKeeps(g: Config, k: Kernel, m: nat)
    requires Inv(g, k) && PcOf(k, k.current) == Releasing(m) && Mu(k, m).level == 0 &&
             Mu(k, m).prio == Base(g, k.current)
    ensures k.current in k.core.tasks && Inv(g, MutexGive(k, m))
  {
    hide CoreInv, TaskOk, CalloutsOk, QueuesOk, SemsOk, Restore, Freed, HandedOver, Leaves, Giving;
    GiveReady(g, k, m);
    var c := Restore(k, Mu(k, m));
    var w := Waiters(c, MutexObj(m));
    if w == [] {
      FreedKeeps(g, k, m);
    } else {
      WaitersOf(c, MutexObj(m), w[0]);
      HandedKeeps(g, k, m, w[0]);
    }
  }

  /** The switch keeps the invariant, whatever has happened since the critical section. */
  lemma SwitchKeeps(g: Config, k: Kernel)
    requires Inv(g, k) && PcOf(k, k.current).Switching?
    ensures Inv(g, Switched(k)) && Switched(k).core.run != [] && Switched(k).current == Switched(k).core.run[0]
  {
    hide CoreInv, TaskOk, MutexesOk, CalloutsOk, QueuesOk, SemsOk;
    CurrentRuns(g, k);
    IdleRuns(g, k, 1);
    CorePlaced(k.core);
    var k' := k.(pc := k.pc[k.current := Outside]);
    Scheduled(g, k, k');
    RestFrame(g, k, Switched(k));
    MutexesFrame(g, k, Switched(k));
    forall u | u in g.base
      ensures TaskOk(g, Switched(k), u)
    {
      PendedTask(g, k, u);
      CurrentOnly(g, k', Switched(k), u);
    }
  }

  /** A caller of os_mutex_pend that holds another mutex breaks the discipline. */
  ghost predicate MayPend(g: Config, k: Kernel, m: nat, timeout: nat) {
    && m in g.mutexIds && PcOf(k, k.current) == Outside && k.current != g.idle
    && (Hd(k, k.current).Holds? ==> Hd(k, k.current).m == m) && (timeout == 0 || GoodTimeout(timeout))
  }

  /** os_mutex_pend keeps the invariant.  It returns at once with the mutex, or with a timeout when
      somebody else has it; or its caller sleeps. */
  lemma MutexPendKeeps(g: Config, k: Kernel, m: nat, timeout: nat)
    requires Inv(g, k) && MayPend(g, k, m, timeout)
    ensures k.current in k.core.tasks && (Mu(k, m).owner.Owned? ==> Mu(k, m).owner.t in k.core.tasks)
    ensures match MutexPend(k, m, timeout)
            case Returns(k', rc) => Inv(g, k') && (rc == Ok <==> Mu(k', m).owner == Owned(k.current)) &&
                (rc != Ok ==> rc == Timeout && k' == k)
            case Sleeps(k') =>
              k'.core.run != [] && Inv(g, Sched(k')) && Mu(k, m).owner != NoOwner && Mu(k, m).owner != Owned(k.current)
  {
    hide CoreInv, TaskOk, CalloutsOk, QueuesOk, SemsOk, Block, Inherit, TakeMutex;
    CurrentRuns(g, k);
    assert MutexOk(g, k, m) && TaskOk(g, k, k.current);
    var mu, t := Mu(k, m), k.current;
    if mu.level == 0 {
      HoldsNone(g, k, m);
      MutexTaken(g, k, m, Mutex(Owned(t), 1, Tk(k, t).prio));
      TakenOwner(k, m, Mutex(Owned(t), 1, Tk(k, t).prio));
    } else if mu.owner == Owned(t) {
      MutexTaken(g, k, m, mu.(level := mu.level + 1));
      TakenOwner(k, m, mu.(level := mu.level + 1));
    } else if timeout != 0 {
      HoldsNone(g, k, m);
      MutexWaits(g, k, m, timeout);
    }
  }

  lemma TakenOwner(k: Kernel, m: nat, mu: Mutex)
    ensures Mu(TakeMutex(k, m, mu), m) == mu
  {
  }

  lemma HoldsNone(g: Config, k: Kernel, m: nat)
    requires TaskOk(g, k, k.current) && MutexOk(g, k, m) && Mu(k, m).owner != Owned(k.current)
    requires Hd(k, k.current).Holds? ==> Hd(k, k.current).m == m
    ensures Hd(k, k.current) == Nothing
  {
  }

  lemma PendedTask(g: Config, k: Kernel, u: Tid)
    requires TaskOk(g, k, u) && !Tk(k, k.current).sleeping && Tk(k, k.current).obj == NoObj &&
             !PcOf(k, k.current).Releasing?
    ensures TaskOk(g, k.(pc := k.pc[k.current := Outside]), u)
  {
    hide PrioOk;
  }

  /** A waiter that runs again succeeds exactly when it holds the mutex: a release has chosen it.
      One whose time ran out holds nothing, whatever has been released since. */
  lemma MutexPendedKeeps(g: Config, k: Kernel, m: nat)
    requires Inv(g, k) && PcOf(k, k.current) == PendMutex(m)
    ensures
      var r := MutexPended(k, m);
      && Inv(g, r.k) && r.rc == (if Hd(r.k, k.current).Holds? then Ok else Timeout)
      && (r.rc == Ok ==> Hd(r.k, k.current).m == m && Mu(r.k, m).owner == Owned(k.current))
      && (r.rc == Timeout ==> Tk(r.k, k.current).prio == Base(g, k.current))
  {
    hide CoreInv, CalloutsOk, QueuesOk, SemsOk, TaskOk, MutexOk;
    CurrentRuns(g, k);
    var k' := MutexPended(k, m).k;
    RestFrame(g, k, k');
    MutexesFrame(g, k, k');
    PendedOwner(g, k, m);
    forall u | u in g.base
      ensures TaskOk(g, k', u)
    {
      PendedTask(g, k, u);
    }
  }

  lemma PendedOwner(g: Config, k: Kernel, m: nat)
    requires TaskOk(g, k, k.current) && (m in g.mutexIds ==> MutexOk(g, k, m)) && PcOf(k, k.current) == PendMutex(m)
    ensures Mu(k, m).owner == Owned(k.current) <==> Hd(k, k.current).Holds?
    ensures if Hd(k, k.current).Holds? then Hd(k, k.current).m == m else Tk(k, k.current).prio == Base(g, k.current)
  {
  }
}
