/** The kernel as it runs: lists are scanned and fields assigned, and each critical
    section does what the corresponding step says. */
module OsCode {
  import opened Common
  import opened OsList
  import opened OsSched
  import opened OsKernel
  import opened OsMutex
  import opened OsSem
  import opened OsEvent
  import opened OsRun

  class Os {
    /** The tasks, g_os_run_list, g_os_sleep_list, and the wait list of each object. */
    var tasks: map<Tid, Task>
    var runList: seq<Tid>
    var sleepList: seq<Tid>
    var waits: map<Obj, seq<Tid>>
    /** g_os_time is the clock modulo 2^32. */
    var clock: nat
    /** g_current_task */
    var current: Tid
    var mutexes: map<nat, Mutex>
    var sems: map<nat, Sem>
    var semFlag: set<Tid>
    var queues: map<nat, Queue>
    var queued: set<nat>
    var callouts: map<nat, Callout>
    var callList: seq<nat>
    ghost var pc: map<Tid, Pc>
    ghost var holds: map<Tid, Held>

    ghost function C(): Core
      reads this
    {
      Core(tasks, runList, sleepList, waits, clock)
    }

    ghost function K(): Kernel
      reads this
    {
      Kernel(C(), current, mutexes, sems, semFlag, queues, queued, callouts, callList, pc, holds)
    }

    // ------------------------------------------------------------ os_sched.c

    /** os_sched_insert */
    method SchedInsert(t: Tid) returns (rc: Rc)
      requires t in tasks && forall u :: u in runList ==> u in tasks
      modifies this`runList
      ensures rc == if tasks[t].sleeping then Invalid else Ok
      ensures runList == if rc == Ok then Insert(PrioKeys(tasks), old(runList), t) else old(runList)
    {
      if tasks[t].sleeping {
        return Invalid;
      }
      var i := 0;
      while i < |runList| && tasks[t].prio >= tasks[runList[i]].prio
        invariant 0 <= i <= |runList| && Passed(PrioKeys(tasks), runList, t, i)
      {
        i := i + 1;
      }
      InsertAt(PrioKeys(tasks), runList, t, i);
      runList := runList[..i] + [t] + runList[i..];
      return Ok;
    }

    /** os_sched_sleep */
    method SchedSleep(t: Tid, ticks: nat)
      requires t in tasks && GoodTimeout(ticks) && t !in sleepList
      requires forall u :: u in sleepList ==> Timely(tasks, clock, u)
      modifies this`tasks, this`runList, this`sleepList
      ensures tasks == old(tasks)[t := Task(old(tasks)[t].prio, true, ticks == OS_TIMEOUT_NEVER,
              (clock % WORD32 + ticks) % WORD32, clock + ticks, old(tasks)[t].obj)]
      ensures runList == Remove(old(runList), t) && sleepList == Insert(SleepKeys(tasks, clock), old(sleepList), t)
    {
      hide Insert, Remove;
      runList := Remove(runList, t);
      var wakeup := (clock % WORD32 + ticks) % WORD32;
      ghost var was := tasks;
      tasks := tasks[t := Task(tasks[t].prio, true, ticks == OS_TIMEOUT_NEVER, wakeup, clock + ticks, tasks[t].obj)];
      var list, all := sleepList, tasks;
      assert forall u :: u in list ==> Timely(was, clock, u) && Timely(all, clock, u);
      assert forall j :: 0 <= j < |list| ==> Timely(all, clock, list[j]);
      var i := 0;
      if ticks == OS_TIMEOUT_NEVER {
        i := |list|;
        AllPassed(all, clock, list, t);
      } else {
        while i < |list| && !(all[list[i]].never || TickGt(all[list[i]].wakeup, wakeup))
          invariant 0 <= i <= |list| && Passed(SleepKeys(all, clock), list, t, i)
          modifies {}
        {
          SleepCompare(all, clock, list[i], t, ticks);
          i := i + 1;
        }
        if i < |list| {
          SleepCompare(all, clock, list[i], t, ticks);
        }
      }
      InsertAt(SleepKeys(all, clock), list, t, i);
      sleepList := list[..i] + [t] + list[i..];
    }

    /** os_sched_wakeup; its assertion that the task sleeps is a precondition. */
    method SchedWakeup(t: Tid)
      requires t in tasks && tasks[t].sleeping && forall u :: u in runList ==> u in tasks
      modifies this`tasks, this`runList, this`sleepList, this`waits
      ensures C() == Wake(old(C()), t)
    {
      hide Insert, Remove;
      var o := tasks[t].obj;
      if o != NoObj {
        waits := waits[o := Remove(if o in waits then waits[o] else [], t)];
      }
      tasks := tasks[t := Task(tasks[t].prio, false, false, 0, 0, NoObj)];
      sleepList := Remove(sleepList, t);
      var rc := SchedInsert(t);
    }

    /** os_sched_resort */
    method SchedResort(t: Tid)
      requires t in tasks && forall u :: u in runList ==> u in tasks
      modifies this`runList
      ensures runList == if tasks[t].sleeping then old(runList) else Insert(PrioKeys(tasks), Remove(old(runList), t), t)
    {
      if !tasks[t].sleeping {
        RemoveSubset(runList, t);
        runList := Remove(runList, t);
        var rc := SchedInsert(t);
      }
    }

    /** os_sched_os_timer_exp */
    method TimerExp()
      requires CoreInv(C(), 0)
      modifies this`tasks, this`runList, this`sleepList, this`waits
      ensures C() == WakeDue(old(C()))
    {
      hide CoreInv, Wake, WakeDue;
      ghost var c := C();
      CorePlacedAt(c, 0);
      while sleepList != []
        invariant CoreInv(C(), 0) && Placed(C()) && WakeDue(C()) == WakeDue(c)
        decreases |sleepList|
      {
        var t := sleepList[0];
        HeadDue(C(), t);
        if tasks[t].never {
          break;
        }
        if !TickGeq(clock % WORD32, tasks[t].wakeup) {
          break;
        }
        WakeKeeps(C(), t, 0);
        SchedWakeup(t);
        CorePlacedAt(C(), 0);
      }
      WakeDueEnd(C());
    }

    /** The scan of a wait list that os_mutex_pend and os_sem_pend make: the caller goes behind the
        last waiter that is at least as urgent. */
    method WaitInsert(o: Obj, t: Tid)
      requires t in tasks && forall u :: u in Waiters(C(), o) ==> u in tasks
      modifies this`waits
      ensures waits == old(waits)[o := Insert(PrioKeys(tasks), Waiters(old(C()), o), t)]
    {
      hide Insert;
      var list := if o in waits then waits[o] else [];
      var i := 0;
      while i < |list| && tasks[t].prio >= tasks[list[i]].prio
        invariant 0 <= i <= |list| && Passed(PrioKeys(tasks), list, t, i)
        modifies {}
      {
        i := i + 1;
      }
      InsertAt(PrioKeys(tasks), list, t, i);
      waits := waits[o := list[..i] + [t] + list[i..]];
    }

    /** A task waits for an object, or just sleeps. */
    method BlockOn(t: Tid, ticks: nat, o: Obj)
      requires CoreInv(C(), 1) && t in runList && GoodTimeout(ticks)
      modifies this`tasks, this`runList, this`sleepList, this`waits
      ensures t in old(tasks) && C() == Block(old(C()), t, ticks, o)
    {
      hide CoreInv, Insert, Remove, Timely;
      ghost var was := tasks;
      BlockReady(C(), t, o);
      if o != NoObj {
        WaitInsert(o, t);
      }
      tasks := tasks[t := tasks[t].(obj := o)];
      SleepersTimely(was, tasks, clock, sleepList, t);
      SchedSleep(t, ticks);
      assert tasks == was[t := tasks[t]];
    }

    /** os_sched with no task given */
    method Sched()
      requires runList != []
      modifies this`current
      ensures K() == OsKernel.Sched(old(K()))
    {
      current := runList[0];
    }

    // ------------------------------------------------------------ os_mutex.c

    /** The caller becomes the owner of a mutex, or owns it once more. */
    method MutexTake(m: nat, mu: Mutex)
      modifies this`mutexes, this`holds
      ensures K() == TakeMutex(old(K()), m, mu)
    {
      mutexes := mutexes[m := mu];
      holds := holds[current := Holds(m, mu.level)];
    }

    /** os_mutex_pend, up to where its caller sleeps. */
    method MutexPend(g: Config, m: nat, timeout: nat) returns (rc: Rc, sleeps: bool)
      requires Inv(g, K()) && MayPend(g, K(), m, timeout)
      modifies this`tasks, this`runList, this`sleepList, this`waits, this`current, this`mutexes, this`pc, this`holds
      ensures old(current) in old(tasks) && (Mu(old(K()), m).owner.Owned? ==> Mu(old(K()), m).owner.t in old(tasks))
      ensures
        var o := OsKernel.MutexPend(old(K()), m, timeout);
        K() == After(o) && sleeps == o.Sleeps? && (o.Returns? ==> rc == o.rc)
    {
      hide Inv, MayPend, After, OsKernel.MutexPend, TakeMutex, AsleepOn, Inherit, Block, CoreInv;
      PendFacts(g, K(), m, timeout);
      PendCases(K(), m, timeout);
      var mu, t := mutexes[m], current;
      if mu.level == 0 {
        MutexTake(m, Mutex(Owned(t), 1, tasks[t].prio));
        return Ok, false;
      }
      if mu.owner == Owned(t) {
        MutexTake(m, mu.(level := mu.level + 1));
        return Ok, false;
      }
      if timeout == 0 {
        return Timeout, false;
      }
      MutexWait(m, timeout, mu.owner.t);
      return Ok, true;
    }

    /** The owner of a mutex becomes as urgent as the running task. */
    method InheritFrom(m: nat, o: Tid)
      requires o in tasks && current in tasks && Mu(K(), m).owner == Owned(o) && forall u :: u in runList ==> u in tasks
      modifies this`tasks, this`runList
      ensures C() == Inherit(old(K()), Mu(old(K()), m))
    {
      hide SetPrio;
      if tasks[o].prio > tasks[current].prio {
        SetPrioOf(o, tasks[current].prio);
      }
    }

    /** The part of os_mutex_pend that makes the owner inherit and lets the caller queue up and sleep. */
    method MutexWait(m: nat, timeout: nat, o: Tid)
      requires o in tasks && current in tasks && Mu(K(), m).owner == Owned(o) && GoodTimeout(timeout)
      requires (forall u :: u in runList ==> u in tasks) && current in Inherit(K(), Mu(K(), m)).run &&
               CoreInv(Inherit(K(), Mu(K(), m)), 1)
      requires Block(Inherit(K(), Mu(K(), m)), current, timeout, MutexObj(m)).run != []
      modifies this`tasks, this`runList, this`sleepList, this`waits, this`current, this`pc
      ensures K() == AsleepOn(old(K()), m, timeout)
    {
      hide Inherit, Block, CoreInv, Mu;
      var t := current;
      InheritFrom(m, o);
      BlockOn(t, timeout, MutexObj(m));
      pc := pc[t := PendMutex(m)];
      Sched();
    }

    /** The priority of a task changes and the run list is put in order again. */
    method SetPrioOf(t: Tid, p: nat)
      requires t in tasks && forall u :: u in runList ==> u in tasks
      modifies this`tasks, this`runList
      ensures C() == SetPrio(old(C()), t, p)
    {
      hide Insert, Remove;
      tasks := tasks[t := tasks[t].(prio := p)];
      SchedResort(t);
    }

    /** os_mutex_release up to its critical section. */
    method MutexRelease(g: Config, m: nat) returns (rc: Rc)
      requires Inv(g, K()) && m in g.mutexIds && PcOf(K(), current) == Outside
      modifies this`mutexes, this`holds, this`pc
      ensures (K(), rc) == MutexDrop(old(K()), m)
    {
      hide Inv;
      ReleaseFacts(g, K(), m);
      var mu := mutexes[m];
      if mu.level == 0 || mu.owner != Owned(current) {
        return BadMutex;
      }
      mutexes := mutexes[m := mu.(level := mu.level - 1)];
      if mutexes[m].level != 0 {
        holds := holds[current := Holds(m, mu.level - 1)];
        return Ok;
      }
      holds, pc := holds[current := Nothing], pc[current := Releasing(m)];
      return Ok;
    }

    /** The critical section of os_mutex_release: priority back, the first waiter becomes the owner. */
    method MutexGive(g: Config, m: nat)
      requires Inv(g, K()) && PcOf(K(), current) == Releasing(m)
      modifies this`tasks, this`runList, this`sleepList, this`waits, this`mutexes, this`holds, this`pc
      ensures old(current) in old(tasks) && K() == OsMutex.MutexGive(old(K()), m)
    {
      hide Inv, Restore, CoreInv, Wake, Freed, HandedOver, Leaves;
      ghost var k := K();
      GiveFacts(g, k, m);
      RestorePrio(m);
      ghost var c := C();
      var list := if MutexObj(m) in waits then waits[MutexObj(m)] else [];
      if list != [] {
        WaitersOf(c, MutexObj(m), list[0]);
        CorePlacedAt(c, 1);
        GiveTo(m, list[0], k);
      } else {
        GiveNone(m, k);
      }
      Leave();
    }

    method GiveTo(m: nat, r: Tid, ghost k: Kernel)
      requires r in tasks && tasks[r].sleeping && (forall u :: u in runList ==> u in tasks) && K() == k.(core := C())
      modifies this`tasks, this`runList, this`sleepList, this`waits, this`mutexes, this`holds
      ensures K() == HandedOver(k, m, old(C()), r)
    {
      hide Wake;
      WakeTasks(C(), r);
      SchedWakeup(r);
      mutexes := mutexes[m := Mutex(Owned(r), 1, tasks[r].prio)];
      holds := holds[r := Holds(m, 1)];
    }

    method GiveNone(m: nat, ghost k: Kernel)
      requires m in mutexes && K() == k.(core := C())
      modifies this`mutexes
      ensures K() == Freed(k, m, old(C()))
    {
      mutexes := mutexes[m := mutexes[m].(owner := NoOwner)];
    }

    /** Whether there is to be a switch, once the critical section is left. */
    ghost method Leave()
      modifies this`pc
      ensures K() == Leaves(old(K()))
    {
      pc := pc[current := if runList == [] || runList[0] == current then Outside else Switching(runList[0])];
    }

    method RestorePrio(m: nat)
      requires current in tasks && m in mutexes && CoreInv(C(), 1)
      modifies this`tasks, this`runList
      ensures C() == Restore(old(K()), Mu(old(K()), m))
    {
      hide CoreInv, SetPrio;
      CorePlacedAt(C(), 1);
      if tasks[current].prio != mutexes[m].prio {
        SetPrioOf(current, mutexes[m].prio);
      }
    }

    /** The switch that ends a release. */
    method Switch(g: Config)
      requires Inv(g, K()) && PcOf(K(), current).Switching?
      modifies this`current, this`pc
      ensures K() == Switched(old(K())) && runList != [] && current == runList[0]
    {
      hide Inv;
      SwitchKeeps(g, K());
      pc := pc[current := Outside];
      Sched();
    }

    // ------------------------------------------------------------ os_sem.c

    /** os_sem_pend, up to where its caller sleeps. */
    method SemPend(g: Config, s: nat, timeout: nat) returns (rc: Rc, sleeps: bool)
      requires Inv(g, K()) && MayPendSem(g, K(), s, timeout)
      modifies this`tasks, this`runList, this`sleepList, this`waits, this`current, this`sems, this`semFlag, this`pc
      ensures old(current) in old(tasks)
      ensures
        var o := OsSem.SemPend(old(K()), s, timeout);
        K() == After(o) && sleeps == o.Sleeps? && (o.Returns? ==> rc == o.rc)
    {
      hide Inv, MayPendSem, Block, CoreInv, After, OsSem.SemPend;
      SemFacts(g, K(), s, timeout);
      SemCases(K(), s, timeout);
      var x := sems[s];
      if x.tokens != 0 {
        sems := sems[s := x.(tokens := x.tokens - 1, taken := x.taken + 1)];
        return Ok, false;
      }
      if timeout == 0 {
        return Timeout, false;
      }
      SemWait(s, timeout);
      return Ok, true;
    }

    method SemWait(s: nat, timeout: nat)
      requires current in tasks && current in runList && CoreInv(C(), 1) && GoodTimeout(timeout)
      requires Block(C(), current, timeout, SemObj(s)).run != []
      modifies this`tasks, this`runList, this`sleepList, this`waits, this`current, this`semFlag, this`pc
      ensures C() == Block(old(C()), old(current), timeout, SemObj(s)) && current == runList[0]
      ensures semFlag == old(semFlag) + {old(current)} && pc == old(pc)[old(current) := PendSem(s, false)]
    {
      hide Block, CoreInv;
      var t := current;
      semFlag := semFlag + {t};
      BlockOn(t, timeout, SemObj(s));
      pc := pc[t := PendSem(s, false)];
      Sched();
    }

    /** os_sem_release, called by a task, up to its switch. */
    method SemRelease(g: Config, s: nat)
      requires Inv(g, K()) && s in g.semIds && PcOf(K(), current) == Outside
      modifies this`tasks, this`runList, this`sleepList, this`waits, this`sems, this`semFlag, this`pc
      ensures K() == OsSem.SemRelease(old(K()), s)
    {
      hide Inv, TokenGiven;
      ghost var k := K();
      SemReleaseFacts(g, k, s);
      var resched, r := SemGive(s);
      if resched {
        pc := pc[current := Switching(r)];
      }
    }

    /** os_sem_release, called by an interrupt handler. */
    method SemSignal(g: Config, s: nat)
      requires Inv(g, K()) && s in g.semIds
      modifies this`tasks, this`runList, this`sleepList, this`waits, this`sems, this`semFlag, this`pc, this`current
      ensures K() == OsSem.SemSignal(old(K()), s)
    {
      hide Inv, TokenGiven, Wake;
      ghost var k := K();
      SemReleaseFacts(g, k, s);
      var resched, r := SemGive(s);
      if resched {
        TokenGives(k, s, r);
        Sched();
      }
    }

    /** The critical section: the first waiter or the semaphore gets the token. */
    method SemGive(s: nat) returns (resched: bool, r: Tid)
      requires s in sems && current in tasks && forall u :: u in runList ==> u in tasks
      requires
        var w := Waiters(C(), SemObj(s));
        w != [] ==> w[0] in tasks && tasks[w[0]].sleeping
      modifies this`tasks, this`runList, this`sleepList, this`waits, this`sems, this`semFlag, this`pc
      ensures
        var k := old(K());
        var w := Waiters(k.core, SemObj(s));
        if w == [] then K() == TokenKept(k, s) && !resched
        else K() == TokenGiven(k, s, w[0]) && r == w[0] && resched == (Tk(k, k.current).prio > Tk(k, w[0]).prio)
    {
      hide Wake, TokenGiven;
      ghost var k := K();
      var x := sems[s];
      var list := if SemObj(s) in waits then waits[SemObj(s)] else [];
      if list == [] {
        sems := sems[s := x.(tokens := x.tokens + 1, releases := x.releases + 1)];
        return false, 0;
      }
      r := list[0];
      TokenTo(s, r);
      GivenIs(k, K(), s, r);
      resched := tasks[current].prio > tasks[r].prio;
    }

    method TokenTo(s: nat, r: Tid)
      requires s in sems && current in tasks && r in tasks && tasks[r].sleeping
      requires forall u :: u in runList ==> u in tasks
      modifies this`tasks, this`runList, this`sleepList, this`waits, this`sems, this`semFlag, this`pc
      ensures C() == Wake(old(C()), r) && semFlag == old(semFlag) - {r} && pc == old(pc)[r := PendSem(s, true)]
      ensures sems == old(sems)[s := old(sems)[s].(releases := old(sems)[s].releases + 1,
              taken := old(sems)[s].taken + 1)]
      ensures current in tasks && r in tasks && tasks[current].prio == old(tasks)[current].prio &&
              tasks[r].prio == old(tasks)[r].prio
    {
      hide Wake;
      WakeTasks(C(), r);
      semFlag := semFlag - {r};
      SchedWakeup(r);
      pc := pc[r := PendSem(s, true)];
      sems := sems[s := sems[s].(releases := sems[s].releases + 1, taken := sems[s].taken + 1)];
    }

    // ------------------------------------------------------------ os_eventq.c

    /** os_eventq_put2 */
    method EventqPut(g: Config, q: nat, e: nat, ghost s: nat, ghost c: nat)
      requires InvAt(g, K(), s, c) && q in g.consumer
      modifies this`tasks, this`runList, this`sleepList, this`waits, this`current, this`queues, this`queued
      ensures K() == EvPut(old(K()), q, e)
    {
      hide InvAt, Wake, EvPut, PutQueue;
      ghost var k := K();
      PutFacts(g, k, q, e, s, c);
      PutCases(k, q, e);
      if e in queued {
        return;
      }
      var task := queues[q].task;
      PutEntry(q, e);
      if task.WaiterTask? {
        WakeAndSched(task.t);
      }
    }

    method PutEntry(q: nat, e: nat)
      requires q in queues
      modifies this`queues, this`queued
      ensures queued == old(queued) + {e} && queues == old(queues)[q := PutQueue(old(queues)[q], e)]
    {
      queued := queued + {e};
      var u := queues[q];
      queues := queues[q := Queue(u.list + [Entry(e, u.next)], NoWaiter, u.next + 1, u.got)];
    }

    method WakeAndSched(t: Tid)
      requires t in tasks && tasks[t].sleeping && (forall u :: u in runList ==> u in tasks) && Wake(C(), t).run != []
      modifies this`tasks, this`runList, this`sleepList, this`waits, this`current
      ensures C() == Wake(old(C()), t) && current == runList[0]
    {
      hide Wake;
      SchedWakeup(t);
      Sched();
    }

    /** os_eventq_get from pull_one on: an event, or the caller sleeps. */
    method EventqGet(g: Config, q: nat) returns (found: bool, e: nat)
      requires Inv(g, K()) && MayGet(g, K(), q)
      modifies this`tasks, this`runList, this`sleepList, this`waits, this`current, this`queues, this`queued, this`pc
      ensures old(current) in old(tasks)
      ensures
        var f := EvGet(old(K()), q);
        K() == f.k && found == f.Got? && (found ==> e == f.e)
    {
      hide Inv, MayGet, Block, EvGet, CoreInv;
      ghost var k := K();
      GetFacts(g, k, q);
      GetCases(k, q);
      var u, t := queues[q], current;
      if u.list != [] {
        var x := u.list[0];
        queues := queues[q := Queue(u.list[1..], u.task, u.next, x.serial + 1)];
        queued := queued - {x.ev};
        pc := pc[t := Outside];
        return true, x.ev;
      }
      EventWait(q);
      return false, 0;
    }

    method EventWait(q: nat)
      requires q in queues && current in tasks && current in runList && CoreInv(C(), 1)
      requires Block(C(), current, OS_TIMEOUT_NEVER, NoObj).run != []
      modifies this`tasks, this`runList, this`sleepList, this`waits, this`current, this`queues, this`pc
      ensures C() == Block(old(C()), old(current), OS_TIMEOUT_NEVER, NoObj) && current == runList[0]
      ensures queues == old(queues)[q := old(queues)[q].(task := WaiterTask(old(current)))] &&
              pc == old(pc)[old(current) := GetEvent(q)]
    {
      hide Block, CoreInv;
      var t := current;
      queues := queues[q := queues[q].(task := WaiterTask(t))];
      BlockOn(t, OS_TIMEOUT_NEVER, NoObj);
      pc := pc[t := GetEvent(q)];
      Sched();
    }

    /** os_eventq_remove */
    method EventqRemove(q: nat, e: nat)
      requires q in queues
      modifies this`queues, this`queued
      ensures K() == EvRemove(old(K()), q, e)
    {
      hide Without;
      if e in queued {
        queues := queues[q := queues[q].(list := Without(queues[q].list, e))];
      }
      queued := queued - {e};
      assert e !in old(queued) ==> queued == old(queued);
    }

    // ------------------------------------------------------------ os_callout.c

    /** os_callout_stop */
    method CalloutStop(g: Config, c: nat)
      requires Inv(g, K()) && c in g.event
      modifies this`queues, this`queued, this`callList
      ensures K() == OsRun.CalloutStop(g, old(K()), c)
    {
      hide Inv, EvRemove, Remove;
      CalloutFacts(g, K(), c);
      if c in callList {
        callList := Remove(callList, c);
      }
      EventqRemove(g.home[g.event[c]], g.event[c]);
    }

    /** os_callout_reset */
    method CalloutReset(g: Config, c: nat, ticks: int) returns (rc: Rc)
      requires Inv(g, K()) && c in g.event && ticks < 0x8000_0000
      modifies this`queues, this`queued, this`callList, this`callouts
      ensures (K(), rc) == OsRun.CalloutReset(g, old(K()), c, ticks)
    {
      hide Inv, OsRun.CalloutStop, Insert;
      if ticks < 0 {
        return Invalid;
      }
      StopKeeps(g, K(), c);
      CalloutStop(g, c);
      ResetFacts(g, K());
      CalloutInsert(c, if ticks == 0 then 1 else ticks);
      return Ok;
    }

    /** The scan of the callout list for the place of callout `c`, due in `n` ticks. */
    method CalloutInsert(c: nat, n: nat)
      requires 0 < n < 0x8000_0000 && c !in callList
      requires forall i :: 0 <= i < |callList| ==> CallTimely(callouts, clock, callList[i])
      modifies this`callList, this`callouts
      ensures callouts == old(callouts)[c := Callout((clock % WORD32 + n) % WORD32, clock + n)]
      ensures callList == Insert(CallKeys(callouts), old(callList), c)
    {
      hide Insert;
      var due := (clock % WORD32 + n) % WORD32;
      ghost var was := callouts;
      callouts := callouts[c := Callout(due, clock + n)];
      var list, all := callList, callouts;
      assert forall i :: 0 <= i < |list| ==>
        CallTimely(was, clock, list[i]) && list[i] in list && CallTimely(all, clock, list[i]);
      var i := 0;
      while i < |list| && !TickLt(due, all[list[i]].ticks)
        invariant 0 <= i <= |list| && Passed(CallKeys(all), list, c, i)
        modifies {}
      {
        CallCompare(all, clock, list[i], c, n);
        i := i + 1;
      }
      if i < |list| {
        CallCompare(all, clock, list[i], c, n);
      }
      InsertAt(CallKeys(all), list, c, i);
      callList := list[..i] + [c] + list[i..];
    }

    /** os_callout_tick */
    method CalloutTick(g: Config)
      requires InvAt(g, K(), 0, 0)
      modifies this`tasks, this`runList, this`sleepList, this`waits, this`current, this`queues, this`queued,
               this`callList
      ensures K() == FireDue(g, old(K()))
    {
      hide InvAt, EvPut, FireDue;
      ghost var k := K();
      while callList != []
        invariant InvAt(g, K(), 0, 0) && FireDue(g, K()) == FireDue(g, k)
        decreases |callList|
      {
        var c := callList[0];
        FireFacts(g, K());
        if !TickGeq(clock % WORD32, callouts[c].ticks) {
          return;
        }
        callList := callList[1..];
        EventqPut(g, g.home[g.event[c]], g.event[c], 0, 0);
      }
      FireEnd(g, K());
    }

    /** The tick interrupt. */
    method TimerHandler(g: Config)
      requires Inv(g, K())
      modifies this`tasks, this`runList, this`sleepList, this`waits, this`current, this`queues, this`queued,
               this`callList, this`clock
      ensures K() == Tick(g, old(K()))
    {
      hide InvAt, FireDue, WakeDue, CoreInv;
      ClockOnly(g, K());
      FireDueExact(g, K().(core := Advance(C())), 0);
      clock := clock + 1;
      CalloutTick(g);
      TickFacts(g, K());
      TimerExp();
      Sched();
    }
  }

  /** A sleeper that the signed comparison can order. */
  ghost predicate Timely(tasks: map<Tid, Task>, clock: nat, u: Tid) {
    u in tasks && (!tasks[u].never ==>
      clock < tasks[u].due < clock + 0x8000_0000 && tasks[u].wakeup == tasks[u].due % WORD32)
  }

  lemma AllPassed(tasks: map<Tid, Task>, clock: nat, list: seq<Tid>, t: Tid)
    requires t in tasks && tasks[t].never && forall u :: u in list ==> Timely(tasks, clock, u)
    ensures Passed(SleepKeys(tasks, clock), list, t, |list|)
  {
    forall j | 0 <= j < |list|
      ensures Key(SleepKeys(tasks, clock), list[j]) <= Key(SleepKeys(tasks, clock), t)
    {
      assert Timely(tasks, clock, list[j]);
    }
  }

  /** The signed comparison puts a new sleeper where the time it has left says. */
  lemma SleepCompare(tasks: map<Tid, Task>, clock: nat, u: Tid, t: Tid, ticks: nat)
    requires Timely(tasks, clock, u) && t in tasks && 0 < ticks < 0x8000_0000
    requires !tasks[t].never && tasks[t].due == clock + ticks && tasks[t].wakeup == (clock % WORD32 + ticks) % WORD32
    ensures (tasks[u].never || TickGt(tasks[u].wakeup, tasks[t].wakeup)) <==>
            Key(SleepKeys(tasks, clock), t) < Key(SleepKeys(tasks, clock), u)
  {
    hide TickGt;
    NowPlus(clock, ticks);
    if !tasks[u].never {
      TicksCompare(clock, tasks[u].due, clock + ticks);
    }
  }

  lemma {:induction false} RemoveSubset(s: seq<nat>, x: nat)
    ensures forall y :: y in Remove(s, x) ==> y in s
    decreases |s|
  {
    if s != [] {
      RemoveSubset(s[1..], x);
      assert forall y :: y in s[1..] ==> y in s;
    }
  }

  lemma HeadDue(c: Core, t: Tid)
    requires CoreInv(c, 0) && c.sleep != [] && t == c.sleep[0]
    ensures t in c.tasks && c.tasks[t].sleeping && Placed(c) && (forall u :: u in c.run ==> u in c.tasks)
    ensures !c.tasks[t].never ==> (TickGeq(Now(c), c.tasks[t].wakeup) <==> Due(c, t))
    ensures if Due(c, t) then Placed(Wake(c, t)) && WakeDue(c) == WakeDue(Wake(c, t)) &&
            |Wake(c, t).sleep| < |c.sleep| else WakeDue(c) == c
  {
    hide NoDup, Sorted, Waiting, TickGeq;
    assert t in c.sleep;
    assert InTime(c, t, 0);
    if !c.tasks[t].never {
      TicksCompare(c.clock, c.clock, c.tasks[t].due);
    }
    if Due(c, t) {
      WakePlaced(c, t);
      RemoveElems(c.sleep, t);
    }
  }

  lemma WakeDueEnd(c: Core)
    requires Placed(c)
    ensures c.sleep == [] ==> WakeDue(c) == c
  {
  }

  lemma BlockReady(c: Core, t: Tid, o: Obj)
    requires CoreInv(c, 1) && t in c.run
    ensures t in c.tasks && t !in c.sleep && (forall u :: u in Waiters(c, o) && o != NoObj ==> u in c.tasks)
    ensures forall u :: u in c.sleep ==> Timely(c.tasks, c.clock, u)
  {
    hide NoDup, Sorted;
    if o != NoObj {
      assert WaitList(c, o);
    }
    forall u | u in c.sleep
      ensures Timely(c.tasks, c.clock, u)
    {
      assert InTime(c, u, 1);
    }
  }

  lemma SleepersTimely(was: map<Tid, Task>, tasks: map<Tid, Task>, clock: nat, list: seq<Tid>, t: Tid)
    requires t !in list && (forall u :: u in list ==> Timely(was, clock, u)) &&
             (forall u :: u in was && u != t ==> u in tasks && tasks[u] == was[u])
    ensures forall u :: u in list ==> Timely(tasks, clock, u)
  {
  }

  lemma PendFacts(g: Config, k: Kernel, m: nat, timeout: nat)
    requires Inv(g, k) && MayPend(g, k, m, timeout)
    ensures (timeout == 0 || GoodTimeout(timeout)) && k.current in k.core.tasks && k.current in k.core.run &&
            m in k.mutexes && (forall u :: u in k.core.run ==> u in k.core.tasks)
    ensures k.mutexes[m].level > 0 ==> k.mutexes[m].owner.Owned? && k.mutexes[m].owner.t in k.core.tasks
    ensures k.mutexes[m].owner.Owned? ==> k.mutexes[m].owner.t in k.core.tasks
    ensures CoreInv(k.core, 1) && (k.mutexes[m].level > 0 && k.mutexes[m].owner != Owned(k.current) ==>
              k.current in Inherit(k, k.mutexes[m]).run && CoreInv(Inherit(k, k.mutexes[m]), 1))
    ensures k.mutexes[m].level > 0 && k.mutexes[m].owner != Owned(k.current) && timeout != 0 ==>
              Block(Inherit(k, k.mutexes[m]), k.current, timeout, MutexObj(m)).run != []
  {
    hide CoreInv, TasksOk, CalloutsOk, QueuesOk, SemsOk, SetPrio, Block;
    CurrentRuns(g, k);
    CorePlacedAt(k.core, 1);
    assert MutexOk(g, k, m);
    var mu := Mu(k, m);
    if mu.owner.Owned? && mu.level > 0 {
      OwnerFacts(g, k, m);
      if mu.owner.t != k.current && Tk(k, mu.owner.t).prio > Tk(k, k.current).prio {
        SetPrioKeeps(k.core, mu.owner.t, Tk(k, k.current).prio, 1);
        SetPrioTasks(k.core, mu.owner.t, Tk(k, k.current).prio);
        CorePlacedAt(SetPrio(k.core, mu.owner.t, Tk(k, k.current).prio), 1);
      }
    }
    MutexPendKeeps(g, k, m, timeout);
  }

  lemma SetPrioTasks(c: Core, t: Tid, p: nat)
    requires t in c.tasks
    ensures SetPrio(c, t, p).tasks == c.tasks[t := c.tasks[t].(prio := p)]
  {
  }

  /** The kernel once the caller of os_mutex_pend sleeps and another task runs. */
  ghost function AsleepOn(k: Kernel, m: nat, timeout: nat): Kernel
    requires k.current in k.core.tasks && (Mu(k, m).owner.Owned? ==> Mu(k, m).owner.t in k.core.tasks)
  {
    Resched(k.(core := Block(Inherit(k, Mu(k, m)), k.current, timeout, MutexObj(m)),
        pc := k.pc[k.current := PendMutex(m)]))
  }

  lemma PendCases(k: Kernel, m: nat, timeout: nat)
    requires m in k.mutexes && k.current in k.core.tasks && (Mu(k, m).owner.Owned? ==> Mu(k, m).owner.t in k.core.tasks)
    ensures
      var mu, t, o := k.mutexes[m], k.current, OsKernel.MutexPend(k, m, timeout);
      && Mu(k, m) == mu
      && if mu.level == 0 then o == Returns(TakeMutex(k, m, Mutex(Owned(t), 1, k.core.tasks[t].prio)), Ok)
      && After(o) == o.k
         else if mu.owner == Owned(t) then o == Returns(TakeMutex(k, m, mu.(level := mu.level + 1)), Ok) &&
             After(o) == o.k
         else if timeout == 0 then o == Returns(k, Timeout) && After(o) == k
         else o.Sleeps? && After(o) == AsleepOn(k, m, timeout)
  {
    hide Block, Inherit, TakeMutex;
  }

  lemma ReleaseFacts(g: Config, k: Kernel, m: nat)
    requires Inv(g, k) && m in g.mutexIds
    ensures m in k.mutexes && Mu(k, m) == k.mutexes[m]
  {
    hide CoreInv, TasksOk, MutexesOk, CalloutsOk, QueuesOk, SemsOk;
  }

  lemma GiveFacts(g: Config, k: Kernel, m: nat)
    requires Inv(g, k) && PcOf(k, k.current) == Releasing(m)
    ensures k.current in k.core.tasks && m in k.mutexes && CoreInv(k.core, 1) && CoreInv(Restore(k, Mu(k, m)), 1)
  {
    hide CoreInv, TasksOk, MutexesOk, CalloutsOk, QueuesOk, SemsOk, Restore;
    GiveReady(g, k, m);
    ReleaseFacts(g, k, m);
  }

  lemma SemFacts(g: Config, k: Kernel, s: nat, timeout: nat)
    requires Inv(g, k) && MayPendSem(g, k, s, timeout)
    ensures (timeout == 0 || GoodTimeout(timeout)) && k.current in k.core.tasks && k.current in k.core.run &&
            s in k.sems && CoreInv(k.core, 1)
    ensures Sm(k, s).tokens == 0 && timeout != 0 ==> Block(k.core, k.current, timeout, SemObj(s)).run != []
  {
    hide CoreInv, TasksOk, MutexesOk, CalloutsOk, QueuesOk, SemsOk, Block;
    CurrentRuns(g, k);
    SemPendKeeps(g, k, s, timeout);
  }

  lemma SemReleaseFacts(g: Config, k: Kernel, s: nat)
    requires Inv(g, k) && s in g.semIds
    ensures k.current in k.core.tasks && s in k.sems && (forall u :: u in k.core.run ==> u in k.core.tasks)
    ensures
      var w := Waiters(k.core, SemObj(s));
      w != [] ==> w[0] in k.core.tasks && k.core.tasks[w[0]].sleeping && Wake(k.core, w[0]).run != []
  {
    hide CoreInv, TasksOk, MutexesOk, CalloutsOk, QueuesOk, SemsOk, Wake;
    CurrentRuns(g, k);
    CorePlacedAt(k.core, 1);
    var w := Waiters(k.core, SemObj(s));
    if w != [] {
      WaitersOf(k.core, SemObj(s), w[0]);
      TokenRuns(k.core, w[0]);
    }
  }

  ghost function AsleepOnSem(k: Kernel, s: nat, timeout: nat): Kernel
    requires k.current in k.core.tasks
  {
    Resched(k.(core := Block(k.core, k.current, timeout, SemObj(s)), semFlag := k.semFlag + {k.current},
        pc := k.pc[k.current := PendSem(s, false)]))
  }

  lemma SemCases(k: Kernel, s: nat, timeout: nat)
    requires s in k.sems && k.current in k.core.tasks
    ensures
      var x, o := k.sems[s], OsSem.SemPend(k, s, timeout);
      && Sm(k, s) == x
      && if x.tokens != 0 then o == Returns(k.(sems := k.sems[s := x.(tokens := x.tokens - 1, taken := x.taken + 1)]),
          Ok) && After(o) == o.k
         else if timeout == 0 then o == Returns(k, Timeout) && After(o) == k
         else o.Sleeps? && After(o) == AsleepOnSem(k, s, timeout)
  {
    hide Block;
  }

  lemma GivenIs(k: Kernel, k': Kernel, s: nat, r: Tid)
    requires r in k.core.tasks && s in k.sems
    requires k'.core == Wake(k.core, r) && k'.semFlag == k.semFlag - {r} && k'.pc == k.pc[r := PendSem(s, true)]
    requires k'.sems == k.sems[s := k.sems[s].(releases := k.sems[s].releases + 1, taken := k.sems[s].taken + 1)]
    requires k' == k.(core := k'.core, semFlag := k'.semFlag, pc := k'.pc, sems := k'.sems)
    ensures k' == TokenGiven(k, s, r)
  {
    hide Wake;
  }

  lemma PutFacts(g: Config, k: Kernel, q: nat, e: nat, s: nat, c: nat)
    requires InvAt(g, k, s, c) && q in g.consumer
    ensures q in k.queues && (forall u :: u in k.core.run ==> u in k.core.tasks)
    ensures
      var w := Qu(k, q).task;
      w.WaiterTask? ==> w.t in k.core.tasks && k.core.tasks[w.t].sleeping && Wake(k.core, w.t).run != []
  {
    hide CoreInv, TasksOk, MutexesOk, CalloutsOk, SemsOk, QueueOk;
    CorePlacedAt(k.core, s);
    assert WaiterOk(g, k, q);
    var w := Qu(k, q).task;
    if w.WaiterTask? {
      WakeKeeps(k.core, w.t, s);
      CorePlacedAt(Wake(k.core, w.t), s);
      WakeTasks(k.core, w.t);
      assert w.t in Wake(k.core, w.t).run;
    }
  }

  lemma PutCases(k: Kernel, q: nat, e: nat)
    requires q in k.queues
    ensures
      var u := k.queues[q];
      var k1 := k.(queued := k.queued + {e}, queues := k.queues[q := PutQueue(u, e)]);
      && Qu(k, q) == u
      && (e in k.queued ==> EvPut(k, q, e) == k)
      && (e !in k.queued && !u.task.WaiterTask? ==> EvPut(k, q, e) == k1)
      && (e !in k.queued && u.task.WaiterTask? && u.task.t in k.core.tasks ==>
          EvPut(k, q, e) == Resched(k1.(core := Wake(k.core, u.task.t))))
  {
    hide Wake;
  }

  lemma GetFacts(g: Config, k: Kernel, q: nat)
    requires Inv(g, k) && MayGet(g, k, q)
    ensures q in k.queues && k.current in k.core.tasks && k.current in k.core.run && CoreInv(k.core, 1)
    ensures Block(k.core, k.current, OS_TIMEOUT_NEVER, NoObj).run != []
  {
    hide CoreInv, TasksOk, MutexesOk, CalloutsOk, SemsOk, QueuesOk, Block;
    CurrentRuns(g, k);
    IdleRuns(g, k, 1);
    BlockKeeps(k.core, k.current, OS_TIMEOUT_NEVER, NoObj);
    BlockTasks(k.core, k.current, OS_TIMEOUT_NEVER, NoObj);
    CorePlacedAt(Block(k.core, k.current, OS_TIMEOUT_NEVER, NoObj), 1);
    assert g.idle in Block(k.core, k.current, OS_TIMEOUT_NEVER, NoObj).run;
  }

  lemma GetCases(k: Kernel, q: nat)
    requires q in k.queues && k.current in k.core.tasks
    ensures
      var u, t, f := k.queues[q], k.current, EvGet(k, q);
      if u.list != [] then
        f == Got(k.(queues := k.queues[q := Queue(u.list[1..], u.task, u.next, u.list[0].serial + 1)],
            queued := k.queued - {u.list[0].ev},
                    pc := k.pc[t := Outside]), u.list[0].ev, u.list[0].serial)
      else
        f == Empty(Resched(k.(core := Block(k.core, t, OS_TIMEOUT_NEVER, NoObj),
            queues := k.queues[q := u.(task := WaiterTask(t))], pc := k.pc[t := GetEvent(q)])))
  {
    hide Block;
  }

  lemma CalloutFacts(g: Config, k: Kernel, c: nat)
    requires Inv(g, k) && c in g.event
    ensures g.event[c] in g.home && g.home[g.event[c]] in k.queues &&
            (c !in k.callList ==> Remove(k.callList, c) == k.callList)
  {
    hide CoreInv, TasksOk, MutexesOk, SemsOk, QueuesOk, Sorted, NoDup;
    RemoveAbsent(k.callList, c);
  }

  lemma {:induction false} RemoveAbsent(s: seq<nat>, x: nat)
    ensures x !in s ==> Remove(s, x) == s
    decreases |s|
  {
    if s != [] {
      RemoveAbsent(s[1..], x);
    }
  }

  /** A callout on the list that the signed comparison can order. */
  ghost predicate CallTimely(callouts: map<nat, Callout>, clock: nat, c: nat) {
    c in callouts && clock < callouts[c].due < clock + 0x8000_0000 && callouts[c].ticks == callouts[c].due % WORD32
  }

  lemma ResetFacts(g: Config, k: Kernel)
    requires Inv(g, k)
    ensures forall i :: 0 <= i < |k.callList| ==> CallTimely(k.callouts, k.core.clock, k.callList[i])
  {
    hide CoreInv, TasksOk, MutexesOk, SemsOk, QueuesOk, Sorted, NoDup;
    forall i | 0 <= i < |k.callList|
      ensures CallTimely(k.callouts, k.core.clock, k.callList[i])
    {
      assert k.callList[i] in k.callList;
      assert InList(g, k.callList[i], k.callouts[k.callList[i]], k.core.clock, 1);
    }
  }

  lemma CallCompare(callouts: map<nat, Callout>, clock: nat, u: nat, c: nat, n: nat)
    requires CallTimely(callouts, clock, u) && 0 < n < 0x8000_0000 && c in callouts &&
             callouts[c] == Callout((clock % WORD32 + n) % WORD32, clock + n)
    ensures TickLt(callouts[c].ticks, callouts[u].ticks) <==> Key(CallKeys(callouts), c) < Key(CallKeys(callouts), u)
  {
    hide TickLt;
    NowPlus(clock, n);
    TicksCompare(clock, clock + n, callouts[u].due);
  }

  lemma FireFacts(g: Config, k: Kernel)
    requires InvAt(g, k, 0, 0) && k.callList != []
    ensures
      var c := k.callList[0];
      && c in k.callouts && c in g.event && g.event[c] in g.home && g.home[g.event[c]] in g.consumer
      && (TickGeq(k.core.clock % WORD32, k.callouts[c].ticks) <==> CalloutDue(k, c))
      && (!CalloutDue(k, c) ==> FireDue(g, k) == k)
      && (CalloutDue(k, c) ==>
            var k0 := k.(callList := k.callList[1..]);
            var k1 := EvPut(k0, g.home[g.event[c]], g.event[c]);
            InvAt(g, k0, 0, 0) && InvAt(g, k1, 0, 0) && FireDue(g, k) == FireDue(g, k1) &&
                k1.callList == k.callList[1..])
  {
    hide CoreInv, TasksOk, MutexesOk, SemsOk, QueuesOk, CalloutsOk, EvPut, TickGeq;
    var c := k.callList[0];
    PopHead(g, k, 0);
    HomesOk(g, k, 0);
    HeadTimely(g, k);
    TicksCompare(k.core.clock, k.core.clock, k.callouts[c].due);
    if CalloutDue(k, c) {
      var k0 := k.(callList := k.callList[1..]);
      EvPutKeeps(g, k0, g.home[g.event[c]], g.event[c], 0, 0);
      PutLeaves(k0, g.home[g.event[c]], g.event[c]);
    }
  }

  lemma HeadTimely(g: Config, k: Kernel)
    requires CalloutsOk(g, k.callList, k.callouts, k.core.clock, 0) && k.callList != []
    ensures
      var c := k.callList[0];
      c in k.callouts && k.core.clock <= k.callouts[c].due < k.core.clock + 0x8000_0000 &&
          k.callouts[c].ticks == k.callouts[c].due % WORD32
  {
    hide Sorted, NoDup;
    assert k.callList[0] in k.callList;
    assert InList(g, k.callList[0], k.callouts[k.callList[0]], k.core.clock, 0);
  }

  lemma FireEnd(g: Config, k: Kernel)
    ensures k.callList == [] ==> FireDue(g, k) == k
  {
  }

  lemma TickFacts(g: Config, k: Kernel)
    requires InvAt(g, k, 0, 1)
    ensures CoreInv(k.core, 0) && Placed(k.core) && WakeDue(k.core).run != []
  {
    hide CoreInv, TasksOk, MutexesOk, SemsOk, QueuesOk, CalloutsOk, WakeDue, Expired, NoneDue;
    CorePlacedAt(k.core, 0);
    IdleRuns(g, k, 0);
    WakeDueExact(k.core);
    CorePlacedAt(WakeDue(k.core), 1);
    ExpiredPrio(k.core, WakeDue(k.core), g.idle);
    assert g.idle in WakeDue(k.core).run;
  }
}
