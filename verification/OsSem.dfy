/** Semaphores. */
module OsSem {
  import opened Common
  import opened OsList
  import opened OsSched
  import opened OsKernel
  import opened OsMutex

  /** os_sem_pend, up to where the caller sleeps. */
  ghost function SemPend(k: Kernel, s: nat, timeout: nat): Outcome
    requires k.current in k.core.tasks
  {
    var x, t := Sm(k, s), k.current;
    if x.tokens != 0 then
      Returns(k.(sems := k.sems[s := x.(tokens := x.tokens - 1, taken := x.taken + 1)]), Ok)
    else if timeout == 0 then
      Returns(k, Timeout)
    else
      Sleeps(k.(core := Block(k.core, t, timeout, SemObj(s)), semFlag := k.semFlag + {t},
          pc := k.pc[t := PendSem(s, false)]))
  }

  /** os_sem_pend, once its caller runs again. */
  function SemPended(k: Kernel): Outcome {
    Returns(k.(semFlag := k.semFlag - {k.current}, pc := k.pc[k.current := Outside]),
        if k.current in k.semFlag then Timeout else Ok)
  }

  /** The most urgent waiter gets the token of a release. */
  ghost function TokenGiven(k: Kernel, s: nat, r: Tid): Kernel
    requires r in k.core.tasks
  {
    var x := Sm(k, s);
    k.(core := Wake(k.core, r), semFlag := k.semFlag - {r}, pc := k.pc[r := PendSem(s, true)],
       sems := k.sems[s := x.(releases := x.releases + 1, taken := x.taken + 1)])
  }

  /** Nobody waits: the semaphore gets the token. */
  function TokenKept(k: Kernel, s: nat): Kernel {
    var x := Sm(k, s);
    k.(sems := k.sems[s := x.(tokens := x.tokens + 1, releases := x.releases + 1)])
  }

  /** The critical section of os_sem_release, called by a task: it is about to switch to a waiter that
      is more urgent. */
  ghost function SemRelease(k: Kernel, s: nat): Kernel {
    var w := Waiters(k.core, SemObj(s));
    if w == [] || w[0] !in k.core.tasks then TokenKept(k, s)
    else
      var k' := TokenGiven(k, s, w[0]);
      if Tk(k, k.current).prio > Tk(k, w[0]).prio then k'.(pc := k'.pc[k.current := Switching(w[0])]) else k'
  }

  /** os_sem_release, called by an interrupt handler: the switch comes with it. */
  ghost function SemSignal(k: Kernel, s: nat): Kernel {
    var w := Waiters(k.core, SemObj(s));
    if w == [] || w[0] !in k.core.tasks then TokenKept(k, s)
    else
      var k' := TokenGiven(k, s, w[0]);
      if Tk(k, k.current).prio > Tk(k, w[0]).prio && k'.core.run != [] then Sched(k') else k'
  }

  // ------------------------------------------------------------ what they keep

  /** Only the counters of one semaphore change, and it has no waiters. */
  lemma CountTask(g: Config, k: Kernel, s: nat, x: Sem, u: Tid)
    requires TaskOk(g, k, u) && Tk(k, u).obj != SemObj(s)
    ensures TaskOk(g, k.(sems := k.sems[s := x]), u)
  {
    hide PrioOk, PcOk;
  }

  lemma SemsUpdate(g: Config, k: Kernel, k': Kernel, s: nat, x: Sem)
    requires SemsOk(g, k) && k'.sems == k.sems[s := x] && SemOk(x)
    ensures SemsOk(g, k')
  {
    hide SemOk;
    forall n | n in g.semIds
      ensures SemOk(Sm(k', n))
    {
      assert SemOk(Sm(k, n));
    }
  }

  lemma QueuesFrame(g: Config, k: Kernel, k': Kernel)
    requires QueuesOk(g, k) && k'.queues == k.queues && k'.queued == k.queued
    requires forall t :: PcOf(k, t).GetEvent? ==> PcOf(k', t) == PcOf(k, t)
    requires forall t :: PcOf(k, t).GetEvent? && Tk(k, t).sleeping && Tk(k, t).never && Tk(k, t).obj == NoObj ==>
                           Tk(k', t).sleeping && Tk(k', t).never && Tk(k', t).obj == NoObj
    ensures QueuesOk(g, k')
  {
    hide QueueOk, NotIn;
    forall q | q in g.consumer
      ensures QueueOk(g, q, Qu(k', q), k'.queued) && WaiterOk(g, k', q)
    {
      assert QueueOk(g, q, Qu(k, q), k.queued) && WaiterOk(g, k, q);
    }
    forall e | e in k'.queued
      ensures EventOk(g, k', e)
    {
      assert EventOk(g, k, e);
    }
  }

  lemma CountKeeps(g: Config, k: Kernel, s: nat, x: Sem)
    requires Inv(g, k) && s in g.semIds && SemOk(x) && forall u :: u in g.base ==> Tk(k, u).obj != SemObj(s)
    ensures Inv(g, k.(sems := k.sems[s := x]))
  {
    hide CoreInv, TaskOk, MutexesOk, CalloutsOk, QueuesOk, SemsOk, SemOk;
    var k' := k.(sems := k.sems[s := x]);
    MutexesFrame(g, k, k');
    QueuesFrame(g, k, k');
    SemsUpdate(g, k, k', s, x);
    forall u | u in g.base
      ensures TaskOk(g, k', u)
    {
      CountTask(g, k, s, x, u);
    }
  }

  /** A semaphore with tokens has no waiters. */
  lemma NoWaiters(g: Config, k: Kernel, s: nat)
    requires TasksOk(g, k) && Sm(k, s).tokens > 0
    ensures forall u :: u in g.base ==> Tk(k, u).obj != SemObj(s)
  {
    forall u | u in g.base
      ensures Tk(k, u).obj != SemObj(s)
    {
      assert TaskOk(g, k, u);
    }
  }

  ghost predicate WaitsForSem(k: Kernel, s: nat, timeout: nat, k': Kernel)
    requires k.current in k.core.tasks
  {
    && k'.core == Block(k.core, k.current, timeout, SemObj(s)) && k'.semFlag == k.semFlag + {k.current}
    && k'.pc == k.pc[k.current := PendSem(s, false)]
    && k'.mutexes == k.mutexes && k'.holds == k.holds && k'.sems == k.sems && k'.queues == k.queues
  }

  lemma SemWaitOther(g: Config, k: Kernel, s: nat, timeout: nat, k': Kernel, u: Tid)
    requires k.current in k.core.tasks && WaitsForSem(k, s, timeout, k') && u != k.current && TaskOk(g, k, u)
    ensures TaskOk(g, k', u)
  {
    hide Insert, Remove, PrioOk, ObjOk;
  }

  lemma SemWaitSelf(g: Config, k: Kernel, s: nat, timeout: nat, k': Kernel)
    requires k.current in k.core.tasks && WaitsForSem(k, s, timeout, k') && TaskOk(g, k, k.current)
    requires Hd(k, k.current) == Nothing && s in g.semIds && Sm(k, s).tokens == 0 && PcOf(k, k.current) == Outside
    ensures TaskOk(g, k', k.current)
  {
    hide Insert, Remove;
  }

  lemma SemWaits(g: Config, k: Kernel, s: nat, timeout: nat)
    requires Inv(g, k) && s in g.semIds && PcOf(k, k.current) == Outside && Hd(k, k.current) == Nothing &&
             GoodTimeout(timeout)
    requires Sm(k, s).tokens == 0 && k.current != g.idle
    ensures k.current in k.core.tasks && SemPend(k, s, timeout).Sleeps?
    ensures SemPend(k, s, timeout).k.core.run != [] && Inv(g, Sched(SemPend(k, s, timeout).k))
  {
    hide CoreInv, TaskOk, MutexesOk, CalloutsOk, QueuesOk, SemsOk, Block;
    CurrentRuns(g, k);
    IdleRuns(g, k, 1);
    BlockKeeps(k.core, k.current, timeout, SemObj(s));
    BlockTasks(k.core, k.current, timeout, SemObj(s));
    var k' := SemPend(k, s, timeout).k;
    CorePlaced(k'.core);
    Scheduled(g, k, k');
    RestFrame(g, k, Sched(k'));
    MutexesFrame(g, k, Sched(k'));
    forall u | u in g.base
      ensures TaskOk(g, Sched(k'), u)
    {
      if u == k.current {
        SemWaitSelf(g, k, s, timeout, Sched(k'));
      } else {
        SemWaitOther(g, k, s, timeout, Sched(k'), u);
      }
    }
  }

  lemma BlockTasks(c: Core, t: Tid, ticks: nat, o: Obj)
    requires t in c.tasks
    ensures Block(c, t, ticks, o).tasks.Keys == c.tasks.Keys && Block(c, t, ticks, o).clock == c.clock
    ensures forall u :: u in c.tasks && u != t ==> Block(c, t, ticks, o).tasks[u] == c.tasks[u]
    ensures
      var x := Block(c, t, ticks, o).tasks[t];
      && x.prio == c.tasks[t].prio && x.sleeping && x.never == (ticks == OS_TIMEOUT_NEVER) && x.obj == o
      && x.due == c.clock + ticks
  {
    hide Insert, Remove, Now;
  }

  /** A task that holds a mutex must not wait for a semaphore. */
  ghost predicate MayPendSem(g: Config, k: Kernel, s: nat, timeout: nat) {
    && s in g.semIds && PcOf(k, k.current) == Outside && k.current != g.idle
    && (timeout == 0 || (GoodTimeout(timeout) && (Sm(k, s).tokens == 0 ==> Hd(k, k.current) == Nothing)))
  }

  lemma SemPendKeeps(g: Config, k: Kernel, s: nat, timeout: nat)
    requires Inv(g, k) && MayPendSem(g, k, s, timeout)
    ensures k.current in k.core.tasks
    ensures match SemPend(k, s, timeout)
            case Returns(k', rc) => Inv(g, k') && Sm(k', s).taken == Sm(k, s).taken + (if rc == Ok then 1 else 0) &&
                (rc != Ok ==> rc == Timeout && k' == k)
            case Sleeps(k') => k'.core.run != [] && Inv(g, Sched(k'))
  {
    hide CoreInv, TaskOk, MutexesOk, CalloutsOk, QueuesOk, Block;
    CurrentRuns(g, k);
    var x := Sm(k, s);
    assert SemOk(x);
    if x.tokens != 0 {
      NoWaiters(g, k, s);
      CountKeeps(g, k, s, x.(tokens := x.tokens - 1, taken := x.taken + 1));
    } else if timeout != 0 {
      SemWaits(g, k, s, timeout);
    }
  }

  lemma SemPendedTask(g: Config, k: Kernel, u: Tid)
    requires TaskOk(g, k, u) && !Tk(k, k.current).sleeping && Tk(k, k.current).obj == NoObj &&
             (u == k.current ==> PcOf(k, u).PendSem?)
    ensures TaskOk(g, SemPended(k).k, u)
  {
    hide PrioOk;
  }

  /** A waiter that runs again returns OS_OK exactly when a release has given it a token, and a
      timeout exactly when its time ran out. */
  lemma SemPendedKeeps(g: Config, k: Kernel, s: nat, got: bool)
    requires Inv(g, k) && PcOf(k, k.current) == PendSem(s, got)
    ensures Inv(g, SemPended(k).k) && SemPended(k).rc == if got then Ok else Timeout
  {
    hide CoreInv, MutexesOk, CalloutsOk, QueuesOk, SemsOk, TaskOk;
    CurrentRuns(g, k);
    SemFlagOf(g, k, s, got);
    var k' := SemPended(k).k;
    RestFrame(g, k, k');
    MutexesFrame(g, k, k');
    forall u | u in g.base
      ensures TaskOk(g, k', u)
    {
      SemPendedTask(g, k, u);
    }
  }

  lemma SemFlagOf(g: Config, k: Kernel, s: nat, got: bool)
    requires TaskOk(g, k, k.current) && PcOf(k, k.current) == PendSem(s, got)
    ensures k.current in k.semFlag <==> !got
  {
  }

  // ------------------------------------------------------------ release

  ghost predicate GivesToken(k: Kernel, s: nat, r: Tid, k': Kernel)
    requires r in k.core.tasks
  {
    && k'.core == Wake(k.core, r) && k'.semFlag == k.semFlag - {r} && k'.pc == k.pc[r := PendSem(s, true)]
    && k'.sems == k.sems[s := Sm(k, s).(releases := Sm(k, s).releases + 1, taken := Sm(k, s).taken + 1)]
    && k'.mutexes == k.mutexes && k'.holds == k.holds && k'.queues == k.queues
  }

  lemma GivenOther(g: Config, k: Kernel, s: nat, r: Tid, k': Kernel, u: Tid)
    requires r in k.core.tasks && GivesToken(k, s, r, k') && u != r && TaskOk(g, k, u)
    ensures TaskOk(g, k', u)
  {
    hide Insert, Remove, PrioOk, ObjOk;
  }

  lemma GivenSelf(g: Config, k: Kernel, s: nat, r: Tid, k': Kernel)
    requires r in k.core.tasks && GivesToken(k, s, r, k') && TaskOk(g, k, r) && Tk(k, r).obj == SemObj(s)
    ensures TaskOk(g, k', r) && PcOf(k, r) == PendSem(s, false)
  {
    hide Insert, Remove;
  }

  /** The woken task goes to the head of the run list exactly when it is more urgent than the head. */
  lemma WokenHead(c: Core, r: Tid)
    requires r in c.tasks && c.run != [] && c.run[0] in c.tasks && r !in c.run
    ensures Wake(c, r).run != [] && Wake(c, r).run[0] == if c.tasks[r].prio < c.tasks[c.run[0]].prio then r
            else c.run[0]
  {
    hide Remove;
  }

  /** The running task stays, goes on to switch to the woken one, or is switched from. */
  ghost predicate Goes(k: Kernel, k1: Kernel, r: Tid, k': Kernel) {
    if Tk(k, k.current).prio <= Tk(k, r).prio then k' == k1
    else
      || (k1.core.run != [] && k' == Sched(k1))
      || (PcOf(k, k.current) == Outside && k' == k1.(pc := k1.pc[k.current := Switching(r)]))
  }

  lemma GivenKeeps(g: Config, k: Kernel, s: nat, r: Tid, k': Kernel)
    requires Inv(g, k) && s in g.semIds && r in k.core.tasks && r in Waiters(k.core, SemObj(s)) &&
             Goes(k, TokenGiven(k, s, r), r, k')
    ensures Inv(g, k')
  {
    hide CoreInv, TaskOk, MutexesOk, CalloutsOk, QueuesOk, SemsOk, Wake, GivesToken, Tasks, TokenGiven, Goes;
    InBase(g, k, r);
    RunningInBase(g, k);
    TokenGives(k, s, r);
    var k1 := TokenGiven(k, s, r);
    GivenCore(g, k, s, r, k1);
    GivenTasks(g, k, s, r, k1);
    GivenRest(g, k, s, r, k1);
    GivenGoes(g, k, s, r, k1, k');
  }

  lemma TokenGives(k: Kernel, s: nat, r: Tid)
    requires r in k.core.tasks
    ensures
      var k' := TokenGiven(k, s, r);
      GivesToken(k, s, r, k') && k' == k.(core := k'.core, semFlag := k'.semFlag, pc := k'.pc, sems := k'.sems)
  {
    hide Wake;
  }

  lemma GivenCore(g: Config, k: Kernel, s: nat, r: Tid, k': Kernel)
    requires CoreInv(k.core, 1) && Tasks(g, k) && s in g.semIds && r in Waiters(k.core, SemObj(s)) &&
             r in k.core.tasks && GivesToken(k, s, r, k')
    requires k'.current == k.current
    ensures CoreInv(k'.core, 1) && k'.core.clock == k.core.clock && Tk(k, r).obj == SemObj(s) && r != k.current &&
            k.current in k.core.tasks
    ensures !Tk(k', k.current).sleeping && Tk(k', k.current).obj == NoObj && k'.core.run != [] && Tasks(g, Sched(k'))
    ensures Tk(k, k.current).prio <= Tk(k, r).prio ==> Tasks(g, k')
    ensures PcOf(k, k.current) == Outside ==>
      PcOf(k', k.current) == Outside && (Tk(k, k.current).prio > Tk(k, r).prio ==> k'.core.run[0] == r)
  {
    hide CoreInv, Wake;
    CurrentRuns(g, k);
    IdleRuns(g, k, 1);
    WaitersOf(k.core, SemObj(s), r);
    AsleepNotRunning(k.core, r);
    WakeKeeps(k.core, r, 1);
    WakeTasks(k.core, r);
    WokenHead(k.core, r);
    CurrentBehind(g, k);
    CorePlaced(k'.core);
    Scheduled(g, k, k');
    CorePlacedRuns(k'.core, k.current);
  }

  lemma CorePlacedRuns(c: Core, t: Tid)
    requires Placed(c) && t in c.tasks && !c.tasks[t].sleeping
    ensures t in c.run
  {
  }

  /** Nobody on the run list is more urgent than its head. */
  lemma CurrentBehind(g: Config, k: Kernel)
    requires CoreInv(k.core, 1) && Tasks(g, k)
    ensures Tk(k, k.core.run[0]).prio <= Tk(k, k.current).prio
  {
    hide Sorted, NoDup, Timed, Waiting;
    SortedHead(PrioKeys(k.core.tasks), k.core.run, k.current);
  }

  lemma GivenGoes(g: Config, k: Kernel, s: nat, r: Tid, k1: Kernel, k': Kernel)
    requires TasksOk(g, k1) && MutexesOk(g, k1) && SemsOk(g, k1) && QueuesOk(g, k1) &&
             CalloutsOk(g, k1.callList, k1.callouts, k1.core.clock, 1)
    requires CoreInv(k1.core, 1) && k1.core.run != [] && Tasks(g, Sched(k1)) && k1.current == k.current &&
             Goes(k, k1, r, k')
    requires !Tk(k1, k.current).sleeping && Tk(k1, k.current).obj == NoObj && k.current in g.base && r != k.current
    requires PcOf(k, k.current) == Outside ==>
      PcOf(k1, k.current) == Outside && (Tk(k, k.current).prio > Tk(k, r).prio ==> k1.core.run[0] == r)
    requires Tk(k, k.current).prio <= Tk(k, r).prio ==> Tasks(g, k1)
    ensures Inv(g, k')
  {
    hide CoreInv, TaskOk, MutexesOk, CalloutsOk, QueuesOk, SemsOk;
    RestFrame(g, k1, k');
    MutexesFrame(g, k1, k');
    CorePlaced(k1.core);
    CorePlacedRuns(k1.core, k.current);
    forall u | u in g.base
      ensures TaskOk(g, k', u)
    {
      if k' == k1.(pc := k1.pc[k.current := Switching(r)]) && Tk(k, k.current).prio > Tk(k, r).prio {
        SwitchingTask(g, k1, r, u);
      } else {
        CurrentOnly(g, k1, k', u);
      }
    }
  }

  lemma SwitchingTask(g: Config, k: Kernel, r: Tid, u: Tid)
    requires TaskOk(g, k, u) && !Tk(k, k.current).sleeping && Tk(k, k.current).obj == NoObj &&
             !PcOf(k, k.current).Releasing? && r != k.current
    ensures TaskOk(g, k.(pc := k.pc[k.current := Switching(r)]), u)
  {
    hide PrioOk;
  }

  lemma GivenTasks(g: Config, k: Kernel, s: nat, r: Tid, k': Kernel)
    requires TasksOk(g, k) && r in k.core.tasks && r in g.base && GivesToken(k, s, r, k') && Tk(k, r).obj == SemObj(s)
    ensures TasksOk(g, k')
  {
    hide TaskOk, GivesToken;
    GivenSelf(g, k, s, r, k');
    forall u | u in g.base
      ensures TaskOk(g, k', u)
    {
      if u != r {
        GivenOther(g, k, s, r, k', u);
      }
    }
  }

  lemma GivenRest(g: Config, k: Kernel, s: nat, r: Tid, k': Kernel)
    requires TasksOk(g, k) && MutexesOk(g, k) && SemsOk(g, k) && QueuesOk(g, k) && s in g.semIds
    requires r in k.core.tasks && r in g.base && GivesToken(k, s, r, k') && Tk(k, r).obj == SemObj(s) &&
             k'.queued == k.queued
    ensures MutexesOk(g, k') && SemsOk(g, k') && QueuesOk(g, k')
  {
    hide TaskOk, Wake, MutexesOk, QueuesOk, SemsOk;
    WakeTasks(k.core, r);
    GivenSelf(g, k, s, r, k');
    QueuesFrame(g, k, k');
    MutexesFrame(g, k, k');
    TokenCounted(g, k, k', s);
  }

  lemma RunningInBase(g: Config, k: Kernel)
    requires Tasks(g, k) && CoreInv(k.core, 1)
    ensures k.current in g.base
  {
    hide CoreInv;
    CurrentRuns(g, k);
  }

  lemma TokenRuns(c: Core, r: Tid)
    requires CoreInv(c, 1) && r in c.sleep && r in c.tasks
    ensures Wake(c, r).run != []
  {
    hide CoreInv, Wake;
    WakeKeeps(c, r, 1);
    WakeTasks(c, r);
    CorePlaced(Wake(c, r));
    CorePlacedRuns(Wake(c, r), r);
  }

  lemma InBase(g: Config, k: Kernel, r: Tid)
    requires Tasks(g, k) && r in k.core.tasks
    ensures r in g.base
  {
  }

  lemma TokenCounted(g: Config, k: Kernel, k': Kernel, s: nat)
    requires SemsOk(g, k) && s in g.semIds
    requires k'.sems == k.sems[s := Sm(k, s).(releases := Sm(k, s).releases + 1, taken := Sm(k, s).taken + 1)]
    ensures SemsOk(g, k')
  {
    assert SemOk(Sm(k, s));
    SemsUpdate(g, k, k', s, Sm(k', s));
  }

  lemma AsleepNotRunning(c: Core, r: Tid)
    requires CoreInv(c, 1) && r in c.sleep
    ensures r !in c.run && r in c.tasks && (c.run != [] ==> c.run[0] in c.tasks)
  {
    hide NoDup, Sorted, Timed, Waiting;
    if c.run != [] {
      assert c.run[0] in c.run;
    }
  }

  /** What either form of the release does when somebody waits. */
  lemma ReleaseGoes(k: Kernel, s: nat)
    requires
      var w := Waiters(k.core, SemObj(s));
      w != [] && w[0] in k.core.tasks && TokenGiven(k, s, w[0]).core.run != []
    ensures
      var r := Waiters(k.core, SemObj(s))[0];
      var k1 := TokenGiven(k, s, r);
      && Goes(k, k1, r, SemSignal(k, s)) && (PcOf(k, k.current) == Outside ==> Goes(k, k1, r, SemRelease(k, s)))
      && Sm(SemSignal(k, s), s).releases == Sm(SemRelease(k, s), s).releases == Sm(k, s).releases + 1
  {
    hide Wake;
  }

  lemma SemGivenKeeps(g: Config, k: Kernel, s: nat)
    requires Inv(g, k) && s in g.semIds && Waiters(k.core, SemObj(s)) != []
    ensures PcOf(k, k.current) == Outside ==> Inv(g, SemRelease(k, s))
    ensures Inv(g, SemSignal(k, s))
    ensures Sm(SemSignal(k, s), s).releases == Sm(SemRelease(k, s), s).releases == Sm(k, s).releases + 1
  {
    hide CoreInv, TasksOk, MutexesOk, CalloutsOk, QueuesOk, SemsOk, Wake, TokenGiven, SemRelease, SemSignal, Goes,
        Tasks;
    var r := Waiters(k.core, SemObj(s))[0];
    WaitersOf(k.core, SemObj(s), r);
    TokenRuns(k.core, r);
    TokenGives(k, s, r);
    ReleaseGoes(k, s);
    if PcOf(k, k.current) == Outside {
      GivenKeeps(g, k, s, r, SemRelease(k, s));
    }
    GivenKeeps(g, k, s, r, SemSignal(k, s));
  }

  lemma SemKeptKeeps(g: Config, k: Kernel, s: nat)
    requires Inv(g, k) && s in g.semIds && Waiters(k.core, SemObj(s)) == []
    ensures SemRelease(k, s) == SemSignal(k, s) == TokenKept(k, s)
    ensures Inv(g, TokenKept(k, s)) && Sm(TokenKept(k, s), s).releases == Sm(k, s).releases + 1
  {
    hide CoreInv, TaskOk, MutexesOk, CalloutsOk, QueuesOk, Wake;
    var x := Sm(k, s);
    assert SemOk(x);
    forall u | u in g.base
      ensures Tk(k, u).obj != SemObj(s)
    {
      WaitersOf(k.core, SemObj(s), u);
    }
    CountKeeps(g, k, s, x.(tokens := x.tokens + 1, releases := x.releases + 1));
  }

  /** Without a waiter a release makes one token more and no pend succeeds; with one, the tokens stay and
      exactly the first waiter has been chosen. */
  ghost predicate Accounts(k: Kernel, s: nat, k': Kernel) {
    var x, x', w := Sm(k, s), Sm(k', s), Waiters(k.core, SemObj(s));
    if w == [] || w[0] !in k.core.tasks then x'.tokens == x.tokens + 1 && x'.taken == x.taken && k'.pc == k.pc
    else
      && x'.tokens == x.tokens && x'.taken == x.taken + 1
      && (w[0] != k.current ==> PcOf(k', w[0]) == PendSem(s, true))
      && forall t :: t != w[0] && t != k.current ==> PcOf(k', t) == PcOf(k, t)
  }

  lemma ReleaseAccounts(k: Kernel, s: nat)
    ensures Accounts(k, s, SemRelease(k, s)) && Accounts(k, s, SemSignal(k, s))
  {
    hide TokenGiven, TokenKept, Tk;
    var w := Waiters(k.core, SemObj(s));
    if w == [] || w[0] !in k.core.tasks {
      KeptCounts(k, s);
    } else {
      GivenCounts(k, s, w[0]);
    }
  }

  lemma KeptCounts(k: Kernel, s: nat)
    ensures
      var k' := TokenKept(k, s);
      Sm(k', s).tokens == Sm(k, s).tokens + 1 && Sm(k', s).taken == Sm(k, s).taken && k'.pc == k.pc
  {
  }

  lemma GivenCounts(k: Kernel, s: nat, r: Tid)
    requires r in k.core.tasks
    ensures
      var k' := TokenGiven(k, s, r);
      && Sm(k', s).tokens == Sm(k, s).tokens && Sm(k', s).taken == Sm(k, s).taken + 1
      && k'.pc == k.pc[r := PendSem(s, true)] && k'.current == k.current
  {
    hide Wake;
  }

  /** os_sem_release keeps the invariant: either the waiter it chooses or the semaphore has the
      token, and nobody waits while there are tokens. */
  lemma SemReleaseKeeps(g: Config, k: Kernel, s: nat)
    requires Inv(g, k) && s in g.semIds
    ensures PcOf(k, k.current) == Outside ==>
              Inv(g, SemRelease(k, s)) && Sm(SemRelease(k, s), s).releases == Sm(k, s).releases + 1
    ensures Inv(g, SemSignal(k, s)) && Sm(SemSignal(k, s), s).releases == Sm(k, s).releases + 1
    ensures Accounts(k, s, SemRelease(k, s)) && Accounts(k, s, SemSignal(k, s))
  {
    hide Inv, SemRelease, SemSignal, TokenKept, Accounts;
    ReleaseAccounts(k, s);
    if Waiters(k.core, SemObj(s)) == [] {
      SemKeptKeeps(g, k, s);
    } else {
      SemGivenKeeps(g, k, s);
    }
  }
}
