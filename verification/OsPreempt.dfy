/** What a release needs in order to be sound, and runs in which it is not: os_mutex_release checks and
    decrements the level before its critical section, and both releases switch after theirs. */
module OsPreempt {
  import opened Common
  import opened OsList
  import opened OsSched
  import opened OsKernel
  import opened OsMutex
  import opened OsSem
  import opened OsEvent
  import opened OsRun

  // ------------------------------------------------------------ nobody comes between

  /** No task pends on a mutex that another one is releasing. */
  ghost predicate Quiet(g: Config, k: Kernel, s: Step) {
    s.DoMutexPend? ==> forall t :: t in g.base && t != k.current ==> PcOf(k, t) != Releasing(s.m)
  }

  ghost predicate QuietRun(g: Config, k: Kernel, steps: seq<Step>)
    requires Run(g, k, steps)
    decreases |steps|
  {
    steps == [] || (Quiet(g, k, steps[0]) && QuietRun(g, Next(g, k, steps[0]), steps[1..]))
  }

  /** A mutex that is being released is as its owner left it. */
  ghost predicate Calm(g: Config, k: Kernel) {
    forall t :: t in g.base ==> CalmTask(k, t)
  }

  ghost predicate CalmTask(k: Kernel, t: Tid) {
    PcOf(k, t).Releasing? ==> Mu(k, PcOf(k, t).m).owner == Owned(t) && Mu(k, PcOf(k, t).m).level == 0
  }

  /** Neither mutexes nor releases are concerned. */
  ghost predicate Apart(k: Kernel, k': Kernel) {
    k'.mutexes == k.mutexes && forall t :: PcOf(k', t).Releasing? ==> PcOf(k, t) == PcOf(k', t)
  }

  lemma ApartCalm(g: Config, k: Kernel, k': Kernel)
    requires Calm(g, k) && Apart(k, k')
    ensures Calm(g, k')
  {
    forall t | t in g.base
      ensures CalmTask(k', t)
    {
      assert CalmTask(k, t);
    }
  }

  lemma {:induction false} FireApart(g: Config, k: Kernel)
    ensures FireDue(g, k).mutexes == k.mutexes && FireDue(g, k).pc == k.pc
    decreases |k.callList|
  {
    hide Wake, EvPut;
    if k.callList != [] && CalloutDue(k, k.callList[0]) {
      var e := EventOf(g, k.callList[0]);
      var k0 := k.(callList := k.callList[1..]);
      PutLeaves(k0, HomeOf(g, e), e);
      PutApart(k0, HomeOf(g, e), e);
      FireApart(g, EvPut(k0, HomeOf(g, e), e));
    }
  }

  lemma PutApart(k: Kernel, q: nat, e: nat)
    ensures EvPut(k, q, e).mutexes == k.mutexes && EvPut(k, q, e).pc == k.pc
  {
    hide Wake;
  }

  /** At most one task has moved, and not into a release. */
  lemma PcApart(k: Kernel, k': Kernel, t: Tid, p: Pc)
    requires k'.mutexes == k.mutexes && (k'.pc == k.pc || k'.pc == k.pc[t := p]) && !p.Releasing?
    ensures Apart(k, k')
  {
  }

  lemma TickApart(g: Config, k: Kernel)
    ensures Tick(g, k).mutexes == k.mutexes && Tick(g, k).pc == k.pc
  {
    hide FireDue, WakeDue, Placed;
    FireApart(g, k.(core := Advance(k.core)));
  }

  lemma GetApart(k: Kernel, q: nat)
    requires k.current in k.core.tasks
    ensures EvGet(k, q).k.mutexes == k.mutexes && EvGet(k, q).k.pc == k.pc[k.current := PcOf(EvGet(k, q).k, k.current)]
    ensures !PcOf(EvGet(k, q).k, k.current).Releasing?
  {
    hide Block;
  }

  lemma EventApart(g: Config, k: Kernel, s: Step)
    requires k.current in k.core.tasks && (IsEvent(s) || s.DoTick? || s.DoDelay?)
    ensures Apart(k, Next(g, k, s))
  {
    hide Apart, Delay, Tick, EvPut, EvGet, EvRemove, CalloutStop, CalloutReset;
    if s.DoTick? {
      TickApart(g, k);
    } else if s.DoPut? {
      PutApart(k, HomeOf(g, s.e), s.e);
    } else if s.DoGet? {
      GetApart(k, s.q);
    } else {
      CalloutApart(g, k, s);
    }
    PcApart(k, Next(g, k, s), k.current, if s.DoGet? then PcOf(EvGet(k, s.q).k, k.current) else Outside);
  }

  lemma CalloutApart(g: Config, k: Kernel, s: Step)
    requires k.current in k.core.tasks && (s.DoRemove? || s.DoReset? || s.DoStop? || s.DoDelay?)
    ensures Next(g, k, s).mutexes == k.mutexes && Next(g, k, s).pc == k.pc
  {
    hide Block, Without, Insert, Remove;
  }

  lemma AfterApart(o: Outcome)
    ensures After(o).mutexes == o.k.mutexes && After(o).pc == o.k.pc
  {
  }

  lemma SemPendApart(k: Kernel, n: nat, timeout: nat)
    requires k.current in k.core.tasks
    ensures
      var k' := After(SemPend(k, n, timeout));
      k'.mutexes == k.mutexes && (k'.pc == k.pc || k'.pc == k.pc[k.current := PendSem(n, false)])
  {
    hide Block, After;
    AfterApart(SemPend(k, n, timeout));
  }

  lemma SemGiveApart(k: Kernel, n: nat)
    ensures Apart(k, SemRelease(k, n)) && Apart(k, SemSignal(k, n))
  {
    hide Wake, Apart, TokenGiven;
    var w := Waiters(k.core, SemObj(n));
    if w != [] && w[0] in k.core.tasks {
      var k1 := TokenGiven(k, n, w[0]);
      TokenApart(k, n, w[0]);
      PcApart(k, k1, w[0], PendSem(n, true));
      PcApart(k1, SemRelease(k, n), k.current, Switching(w[0]));
      ApartTrans(k, k1, SemRelease(k, n));
      PcApart(k, SemSignal(k, n), w[0], PendSem(n, true));
    } else {
      PcApart(k, TokenKept(k, n), k.current, Outside);
    }
  }

  lemma TokenApart(k: Kernel, n: nat, r: Tid)
    requires r in k.core.tasks
    ensures TokenGiven(k, n, r).mutexes == k.mutexes && TokenGiven(k, n, r).pc == k.pc[r := PendSem(n, true)]
    ensures TokenGiven(k, n, r).current == k.current
  {
    hide Wake;
  }

  lemma ApartTrans(k: Kernel, k1: Kernel, k2: Kernel)
    requires Apart(k, k1) && Apart(k1, k2)
    ensures Apart(k, k2)
  {
  }

  lemma ResumeApart(g: Config, k: Kernel)
    requires k.current in k.core.tasks && !PcOf(k, k.current).Releasing?
    ensures Apart(k, Resume(k))
  {
    hide EvGet, Apart, MutexGive;
    var p := PcOf(k, k.current);
    if p.GetEvent? {
      var k0 := k.(queues := k.queues[p.q := Qu(k, p.q).(task := NoWaiter)]);
      GetApart(k0, p.q);
      PcApart(k, Resume(k), k.current, PcOf(EvGet(k0, p.q).k, k.current));
    } else {
      PcApart(k, Resume(k), k.current, Outside);
    }
  }

  lemma PendCalm(g: Config, k: Kernel, m: nat, timeout: nat)
    requires k.current in k.core.tasks && (Mu(k, m).owner.Owned? ==> Mu(k, m).owner.t in k.core.tasks)
    requires Calm(g, k) && PcOf(k, k.current) == Outside && Quiet(g, k, DoMutexPend(m, timeout))
    ensures Calm(g, After(MutexPend(k, m, timeout)))
  {
    hide Block, Inherit;
    var k' := After(MutexPend(k, m, timeout));
    forall t | t in g.base
      ensures CalmTask(k', t)
    {
      assert CalmTask(k, t);
    }
  }

  lemma DropCalm(g: Config, k: Kernel, m: nat)
    requires Calm(g, k) && PcOf(k, k.current) == Outside
    ensures Calm(g, MutexDrop(k, m).0)
  {
    var k' := MutexDrop(k, m).0;
    forall t | t in g.base
      ensures CalmTask(k', t)
    {
      assert CalmTask(k, t);
    }
  }

  lemma GiveCalm(g: Config, k: Kernel, m: nat)
    requires k.current in k.core.tasks && Calm(g, k) && k.current in g.base && PcOf(k, k.current) == Releasing(m)
    ensures Calm(g, MutexGive(k, m))
  {
    hide Restore, Wake;
    var k' := MutexGive(k, m);
    assert CalmTask(k, k.current);
    forall t | t in g.base
      ensures CalmTask(k', t)
    {
      assert CalmTask(k, t);
    }
  }

  /** In a quiet run every release is sound, and so the promises hold all along. */
  lemma QuietStep(g: Config, k: Kernel, s: Step)
    requires Inv(g, k) && Calm(g, k) && Allowed(g, k, s) && Quiet(g, k, s)
    ensures k.current in k.core.tasks && Sound(g, k, s) && Calm(g, Next(g, k, s))
  {
    hide InvAt, Calm, Quiet, MutexPend, MutexDrop, SemPend, SemRelease, SemSignal, MutexGive, After, EvPut, EvGet,
        EvRemove, CalloutReset, CalloutStop, Delay, Tick, Apart;
    RunsInv(g, k);
    CalmSound(g, k);
    if s.DoMutexPend? {
      MutexPendKeeps(g, k, s.m, s.timeout);
      PendCalm(g, k, s.m, s.timeout);
    } else if s.DoMutexRelease? {
      DropCalm(g, k, s.m);
    } else if s.DoResume? && PcOf(k, k.current).Releasing? {
      GiveCalm(g, k, PcOf(k, k.current).m);
    } else {
      if s.DoResume? {
        ResumeApart(g, k);
      } else if s.DoSemPend? {
        SemPendApart(k, s.s, s.timeout);
        PcApart(k, Next(g, k, s), k.current, PendSem(s.s, false));
      } else if s.DoSemRelease? || s.DoSemSignal? {
        SemGiveApart(k, s.s);
      } else {
        EventApart(g, k, s);
      }
      ApartCalm(g, k, Next(g, k, s));
    }
  }

  lemma CalmSound(g: Config, k: Kernel)
    requires Inv(g, k) && Calm(g, k)
    ensures k.current in g.base && Sound(g, k, DoResume)
  {
    hide CoreInv, CalloutsOk, QueuesOk, SemsOk, TaskOk, Restore;
    CurrentRuns(g, k);
    assert CalmTask(k, k.current);
    if PcOf(k, k.current).Releasing? {
      var m := PcOf(k, k.current).m;
      GiveReady(g, k, m);
      assert MutexOk(g, k, m);
    }
  }

  lemma {:induction false} QuietSound(g: Config, k: Kernel, steps: seq<Step>)
    requires Inv(g, k) && Calm(g, k) && Run(g, k, steps) && QuietRun(g, k, steps)
    ensures RunSound(g, k, steps)
    decreases |steps|
  {
    hide Inv, Calm, Next, Allowed, Sound, Quiet;
    if steps != [] {
      QuietStep(g, k, steps[0]);
      StepKeeps(g, k, steps[0]);
      QuietSound(g, Next(g, k, steps[0]), steps[1..]);
    }
  }

  /** The promises hold all along every run from the start in which no task pends on a mutex that another
      one is releasing. */
  lemma QuietPromises(g: Config, k: Kernel, steps: seq<Step>)
    requires Initial(g, k) && Run(g, k, steps) && QuietRun(g, k, steps)
    requires forall q :: q in g.consumer ==> g.consumer[q] in g.base
    ensures AlwaysPromised(g, k, steps)
  {
    hide Initial, Inv, Run, QuietRun, RunSound, AlwaysPromised;
    InitialInv(g, k);
    InitialCalm(g, k);
    QuietSound(g, k, steps);
    RunPromises(g, k, steps);
  }

  lemma InitialCalm(g: Config, k: Kernel)
    requires Initial(g, k)
    ensures Calm(g, k)
  {
    hide Tasks, Placed, Sorted;
    forall t | t in g.base
      ensures CalmTask(k, t)
    {
      assert PcOf(k, t) == Outside;
    }
  }

  // ------------------------------------------------------------ somebody comes between

  const LOW: Tid := 0
  const HIGH: Tid := 1
  const IDLE: Tid := 2

  /** Two tasks of different urgency, the idle task, a mutex and a semaphore. */
  ghost function Pair(high: nat, low: nat, idle: nat): Config {
    Config(map[LOW := low, HIGH := high, IDLE := idle], IDLE, {0}, {0}, map[], map[], map[])
  }

  /** A kernel with these tasks, of which only the more urgent one ever sleeps. */
  ghost function Small(g: Config, clock: nat, asleep: bool, x: Task, a: Task, waits: map<Obj, seq<Tid>>, mu: Mutex,
      sem: Sem,
                       pa: Pc, px: Pc, ha: Held, hx: Held): Kernel
    requires g.base.Keys == {LOW, HIGH, IDLE}
  {
    Kernel(Core(map[LOW := a, HIGH := x, IDLE := Ready(g.base[IDLE])], if asleep then [LOW, IDLE]
        else [HIGH, LOW, IDLE],
                if asleep then [HIGH] else [], waits, clock),
           if asleep then LOW else HIGH, map[0 := mu], map[0 := sem], {}, map[], {}, map[], [],
           map[LOW := pa, HIGH := px, IDLE := Outside], map[LOW := ha, HIGH := hx, IDLE := Nothing])
  }

  function Ready(p: nat): Task {
    Task(p, false, false, 0, 0, NoObj)
  }

  function Asleep(p: nat, due: nat): Task {
    Task(p, true, false, due % WORD32, due, NoObj)
  }

  lemma PairDelays(g: Config, clock: nat, x: Task, a: Task, waits: map<Obj, seq<Tid>>, mu: Mutex, sem: Sem, pa: Pc,
      ha: Held, hx: Held)
    requires g.base.Keys == {LOW, HIGH, IDLE} && g.idle == IDLE && x == Ready(x.prio) && a == Ready(a.prio)
    ensures
      var k := Small(g, clock, false, x, a, waits, mu, sem, pa, Outside, ha, hx);
      && Allowed(g, k, DoDelay(1)) && k.current in k.core.tasks
      && Next(g, k, DoDelay(1)) == Small(g, clock, true, Asleep(x.prio, clock + 1), a, waits, mu, sem, pa, Outside, ha,
          hx)
  {
    var k := Small(g, clock, false, x, a, waits, mu, sem, pa, Outside, ha, hx);
    var c := Block(k.core, HIGH, 1, NoObj);
    NowPlus(clock, 1);
    assert Remove(k.core.run, HIGH) == [LOW, IDLE];
    assert c.sleep == [HIGH];
    assert c.tasks == map[LOW := a, HIGH := Asleep(x.prio, clock + 1), IDLE := Ready(g.base[IDLE])];
  }

  /** The sleeper wakes. */
  lemma PairWakes(c: Core, a: Task, p: nat, i: Task)
    requires a == Ready(a.prio) && p < a.prio && i == Ready(i.prio)
    requires c == Core(map[LOW := a, HIGH := Asleep(p, c.clock), IDLE := i], [LOW, IDLE], [HIGH], map[], c.clock)
    ensures Placed(c) && WakeDue(c) == Core(map[LOW := a, HIGH := Ready(p), IDLE := i], [HIGH, LOW, IDLE], [], map[],
            c.clock)
  {
    PairPlaced(c);
    var c' := Wake(c, HIGH);
    assert c'.tasks == map[LOW := a, HIGH := Ready(p), IDLE := i];
    assert c'.run == [HIGH, LOW, IDLE] && c'.sleep == [];
    WakePlaced(c, HIGH);
  }

  lemma PairPlaced(c: Core)
    requires c.tasks.Keys == {LOW, HIGH, IDLE} && c.run == [LOW, IDLE] && c.sleep == [HIGH]
    requires !c.tasks[LOW].sleeping && c.tasks[HIGH].sleeping && !c.tasks[IDLE].sleeping
    ensures Placed(c)
  {
  }

  lemma PairTicks(g: Config, clock: nat, p: nat, a: Task, mu: Mutex, sem: Sem, pa: Pc, ha: Held, hx: Held)
    requires g.base.Keys == {LOW, HIGH, IDLE} && g.idle == IDLE && a == Ready(a.prio) && p < a.prio
    ensures
      var k := Small(g, clock, true, Asleep(p, clock + 1), a, map[], mu, sem, pa, Outside, ha, hx);
      && Allowed(g, k, DoTick) && k.current in k.core.tasks
      && Next(g, k, DoTick) == Small(g, clock + 1, false, Ready(p), a, map[], mu, sem, pa, Outside, ha, hx)
  {
    hide WakeDue, Placed;
    var k := Small(g, clock, true, Asleep(p, clock + 1), a, map[], mu, sem, pa, Outside, ha, hx);
    PairWakes(Advance(k.core), a, p, Ready(g.base[IDLE]));
  }

  /** The running task takes the mutex, which has no level. */
  lemma PairPends(g: Config, clock: nat, asleep: bool, x: Task, a: Task, mu: Mutex, sem: Sem, pa: Pc, ha: Held,
      hx: Held)
    requires g.base.Keys == {LOW, HIGH, IDLE} && g.idle == IDLE && g.mutexIds == {0} && mu.level == 0
    requires mu.owner.Owned? ==> mu.owner.t in g.base
    requires if asleep then pa == Outside && ha == Nothing else hx == Nothing
    ensures
      var k := Small(g, clock, asleep, x, a, map[], mu, sem, pa, Outside, ha, hx);
      var mu' := if asleep then Mutex(Owned(LOW), 1, a.prio) else Mutex(Owned(HIGH), 1, x.prio);
      && Allowed(g, k, DoMutexPend(0, 0)) && k.current in k.core.tasks
      && Next(g, k, DoMutexPend(0, 0)) == Small(g, clock, asleep, x, a, map[], mu', sem, pa, Outside,
                                                if asleep then Holds(0, 1) else ha, if asleep then hx else Holds(0, 1))
  {
    hide Block, Inherit;
    var k := Small(g, clock, asleep, x, a, map[], mu, sem, pa, Outside, ha, hx);
    var k' := Next(g, k, DoMutexPend(0, 0));
    assert k'.holds == map[LOW := if asleep then Holds(0, 1) else ha, HIGH := if asleep then hx else Holds(0, 1),
        IDLE := Nothing];
    assert k'.mutexes == map[0 := Mu(k', 0)];
  }

  /** The running task, which holds the mutex, begins to release it. */
  lemma PairDrops(g: Config, clock: nat, asleep: bool, x: Task, a: Task, p: nat, sem: Sem, pa: Pc, ha: Held, hx: Held)
    requires g.base.Keys == {LOW, HIGH, IDLE} && g.mutexIds == {0} && (asleep ==> pa == Outside)
    ensures
      var t := if asleep then LOW else HIGH;
      var k := Small(g, clock, asleep, x, a, map[], Mutex(Owned(t), 1, p), sem, pa, Outside, ha, hx);
      && Allowed(g, k, DoMutexRelease(0)) && k.current in k.core.tasks
      && Next(g, k, DoMutexRelease(0)) == Small(g, clock, asleep, x, a, map[], Mutex(Owned(t), 0, p), sem,
          if asleep then Releasing(0) else pa,
                                                if asleep then Outside else Releasing(0), if asleep then Nothing
                                                    else ha, if asleep then hx else Nothing)
  {
    var t := if asleep then LOW else HIGH;
    var k := Small(g, clock, asleep, x, a, map[], Mutex(Owned(t), 1, p), sem, pa, Outside, ha, hx);
    var k' := Next(g, k, DoMutexRelease(0));
    assert k'.holds == map[LOW := if asleep then Nothing else ha, HIGH := if asleep then hx else Nothing,
        IDLE := Nothing];
    assert k'.pc == map[LOW := if asleep then Releasing(0) else pa, HIGH := if asleep then Outside else Releasing(0),
        IDLE := Outside];
    assert k'.mutexes == map[0 := Mu(k', 0)];
  }

  lemma RunCons(g: Config, k: Kernel, s: Step, rest: seq<Step>)
    requires k.current in k.core.tasks && Allowed(g, k, s) && Run(g, Next(g, k, s), rest)
    ensures Run(g, k, [s] + rest) && (RunSound(g, k, [s] + rest) <==>
      Sound(g, k, s) && RunSound(g, Next(g, k, s), rest))
    ensures Final(g, k, [s] + rest) == Final(g, Next(g, k, s), rest)
  {
    hide Next, Allowed, Sound;
    assert ([s] + rest)[0] == s && ([s] + rest)[1..] == rest;
  }

  /** The more urgent task, which nobody waits for, gives the mutex up. */
  lemma PairGives(g: Config, clock: nat, x: Task, a: Task, sem: Sem, pa: Pc, ha: Held)
    requires g.base.Keys == {LOW, HIGH, IDLE} && g.idle == IDLE
    ensures
      var k := Small(g, clock, false, x, a, map[], Mutex(Owned(HIGH), 0, x.prio), sem, pa, Releasing(0), ha, Nothing);
      && Allowed(g, k, DoResume) && k.current in k.core.tasks
      && Next(g, k, DoResume) == Small(g, clock, false, x, a, map[], Mutex(NoOwner, 0, x.prio), sem, pa, Outside, ha,
          Nothing)
  {
    hide SetPrio, Wake;
    var k := Small(g, clock, false, x, a, map[], Mutex(Owned(HIGH), 0, x.prio), sem, pa, Releasing(0), ha, Nothing);
    var k' := Next(g, k, DoResume);
    assert k'.pc == map[LOW := pa, HIGH := Outside, IDLE := Outside];
    assert k'.mutexes == map[0 := Mu(k', 0)];
  }

  /** The less urgent task goes on with its release: it takes the priority that the mutex remembers. */
  lemma PairGivesLate(g: Config, clock: nat, x: Task, a: Task, mu: Mutex, sem: Sem, hx: Held)
    requires g.base.Keys == {LOW, HIGH, IDLE} && g.idle == IDLE
    ensures
      var k := Small(g, clock, true, x, a, map[], mu, sem, Releasing(0), Outside, Nothing, hx);
      && Allowed(g, k, DoResume) && k.current in k.core.tasks
      && Mu(Next(g, k, DoResume), 0) == mu.(owner := NoOwner) && Hd(Next(g, k, DoResume), HIGH) == hx
      && Tk(Next(g, k, DoResume), LOW).prio == mu.prio && Hd(Next(g, k, DoResume), LOW) == Nothing
  {
    hide Insert, Remove;
  }

  ghost function Start(g: Config, tokens: nat): Kernel
    requires g.base.Keys == {LOW, HIGH, IDLE}
  {
    Small(g, 0, false, Ready(g.base[HIGH]), Ready(g.base[LOW]), map[], Mutex(NoOwner, 0, 0), Sem(tokens, tokens, 0, 0),
        Outside, Outside, Nothing, Nothing)
  }

  lemma StartInitial(high: nat, low: nat, idle: nat, tokens: nat)
    requires high < low < idle
    ensures Initial(Pair(high, low, idle), Start(Pair(high, low, idle), tokens))
  {
    hide Placed, Sorted, Tasks, PrioKeys;
    var g := Pair(high, low, idle);
    var k := Start(g, tokens);
    StartTasks(g, tokens);
    ReadyPlaced(k.core);
    StartSorted(k.core.tasks);
    StartReady(g, tokens);
    forall t | t in g.base
      ensures Tk(k, t) == Ready(g.base[t]) && PcOf(k, t) == Outside && Hd(k, t) == Nothing
    {
      assert t == LOW || t == HIGH || t == IDLE;
    }
  }

  lemma StartReady(g: Config, tokens: nat)
    requires g.base.Keys == {LOW, HIGH, IDLE}
    ensures
      var k := Start(g, tokens);
      && Tk(k, LOW) == Ready(g.base[LOW]) && Tk(k, HIGH) == Ready(g.base[HIGH]) && Tk(k, IDLE) == Ready(g.base[IDLE])
      && PcOf(k, LOW) == PcOf(k, HIGH) == PcOf(k, IDLE) == Outside
      && Hd(k, LOW) == Hd(k, HIGH) == Hd(k, IDLE) == Nothing
  {
  }

  lemma StartTasks(g: Config, tokens: nat)
    requires g.base.Keys == {LOW, HIGH, IDLE} && g.idle == IDLE && g.mutexIds == {0} && g.semIds == {0} &&
             g.consumer == map[]
    ensures Tasks(g, Start(g, tokens))
  {
    assert IDLE in [HIGH, LOW, IDLE];
  }

  lemma StartSorted(tasks: map<Tid, Task>)
    requires tasks.Keys == {LOW, HIGH, IDLE} && tasks[HIGH].prio <= tasks[LOW].prio <= tasks[IDLE].prio
    ensures Sorted(PrioKeys(tasks), [HIGH, LOW, IDLE])
  {
    hide Sorted;
    ReadySorted(PrioKeys(tasks));
  }

  lemma ReadyPlaced(c: Core)
    requires c.tasks.Keys == {LOW, HIGH, IDLE} && c.run == [HIGH, LOW, IDLE] && c.sleep == []
    requires !c.tasks[LOW].sleeping && !c.tasks[HIGH].sleeping && !c.tasks[IDLE].sleeping
    ensures Placed(c)
  {
    assert [HIGH, LOW, IDLE][1..] == [LOW, IDLE] && [LOW, IDLE][1..] == [IDLE];
    assert NoDup([LOW, IDLE]);
  }

  lemma ReadySorted(keys: Keys)
    requires Key(keys, HIGH) <= Key(keys, LOW) <= Key(keys, IDLE)
    ensures Sorted(keys, [HIGH, LOW, IDLE])
  {
    assert [HIGH, LOW, IDLE][1..] == [LOW, IDLE] && [LOW, IDLE][1..] == [IDLE];
    assert Sorted(keys, [IDLE]);
    assert Sorted(keys, [LOW, IDLE]);
  }

  /** The run up to where the more urgent task has taken the mutex that the other is releasing. */
  ghost function Intrusion(rest: seq<Step>): seq<Step> {
    [DoDelay(1)] + ([DoMutexPend(0, 0)] + ([DoMutexRelease(0)] + ([DoTick] + ([DoMutexPend(0, 0)] + rest))))
  }

  ghost function Intruded(g: Config): Kernel
    requires g.base.Keys == {LOW, HIGH, IDLE}
  {
    Small(g, 1, false, Ready(g.base[HIGH]), Ready(g.base[LOW]), map[], Mutex(Owned(HIGH), 1, g.base[HIGH]),
        Sem(0, 0, 0, 0),
          Releasing(0), Outside, Nothing, Holds(0, 1))
  }

  lemma IntrusionRuns(high: nat, low: nat, idle: nat, rest: seq<Step>)
    requires high < low < idle && Run(Pair(high, low, idle), Intruded(Pair(high, low, idle)), rest)
    ensures
      var g := Pair(high, low, idle);
      var k := Start(g, 0);
      && Run(g, k, Intrusion(rest)) && Final(g, k, Intrusion(rest)) == Final(g, Intruded(g), rest)
      && (RunSound(g, k, Intrusion(rest)) ==> RunSound(g, Intruded(g), rest))
  {
    hide Run, RunSound, Final, Next, Allowed, Sound, Small;
    var g, sem := Pair(high, low, idle), Sem(0, 0, 0, 0);
    var x, a, z := Ready(high), Ready(low), Asleep(high, 1);
    var k := Start(g, 0);
    PairDelays(g, 0, x, a, map[], Mutex(NoOwner, 0, 0), sem, Outside, Nothing, Nothing);
    PairPends(g, 0, true, z, a, Mutex(NoOwner, 0, 0), sem, Outside, Nothing, Nothing);
    PairDrops(g, 0, true, z, a, low, sem, Outside, Holds(0, 1), Nothing);
    PairTicks(g, 0, high, a, Mutex(Owned(LOW), 0, low), sem, Releasing(0), Nothing, Nothing);
    PairPends(g, 1, false, x, a, Mutex(Owned(LOW), 0, low), sem, Releasing(0), Nothing, Nothing);
    var k1 := Next(g, k, DoDelay(1));
    var k2 := Next(g, k1, DoMutexPend(0, 0));
    var k3 := Next(g, k2, DoMutexRelease(0));
    var k4 := Next(g, k3, DoTick);
    RunCons(g, k4, DoMutexPend(0, 0), rest);
    RunCons(g, k3, DoTick, [DoMutexPend(0, 0)] + rest);
    RunCons(g, k2, DoMutexRelease(0), [DoTick] + ([DoMutexPend(0, 0)] + rest));
    RunCons(g, k1, DoMutexPend(0, 0), [DoMutexRelease(0)] + ([DoTick] + ([DoMutexPend(0, 0)] + rest)));
    RunCons(g, k, DoDelay(1), [DoMutexPend(0, 0)] + ([DoMutexRelease(0)] + ([DoTick] + ([DoMutexPend(0, 0)] + rest))));
  }

  lemma OneStep(g: Config, k: Kernel, s: Step)
    requires k.current in k.core.tasks && Allowed(g, k, s)
    ensures Run(g, k, [s] + []) && (RunSound(g, k, [s] + []) <==> Sound(g, k, s)) &&
            Final(g, k, [s] + []) == Next(g, k, s)
  {
    hide Next, Allowed, Sound;
    RunCons(g, k, s, []);
  }

  /** Preempted between its decrement and its critical section, a release takes the mutex from the task
      that has got it meanwhile. */
  lemma ReleaseTakesAway(high: nat, low: nat, idle: nat) returns (steps: seq<Step>)
    requires high < low < idle
    ensures
      var g := Pair(high, low, idle);
      var k := Start(g, 0);
      && Initial(g, k) && Run(g, k, steps) && !AlwaysPromised(g, k, steps)
      && Hd(Final(g, k, steps), HIGH) == Holds(0, 1) && Mu(Final(g, k, steps), 0) == Mutex(NoOwner, 1, high)
  {
    hide Run, RunSound, Final, Next, Allowed, Small, Initial, AlwaysPromised, Inv;
    var g, sem := Pair(high, low, idle), Sem(0, 0, 0, 0);
    var k5 := Intruded(g);
    PairDelays(g, 1, Ready(high), Ready(low), map[], Mutex(Owned(HIGH), 1, high), sem, Releasing(0), Nothing,
        Holds(0, 1));
    PairGivesLate(g, 1, Asleep(high, 2), Ready(low), Mutex(Owned(HIGH), 1, high), sem, Holds(0, 1));
    var k6 := Next(g, k5, DoDelay(1));
    OneStep(g, k6, DoResume);
    RunCons(g, k5, DoDelay(1), [DoResume] + []);
    LateUnsound(g, 1, Asleep(high, 2), Ready(low), Mutex(Owned(HIGH), 1, high), sem, Holds(0, 1));
    steps := Intrusion([DoDelay(1)] + ([DoResume] + []));
    IntrusionRuns(high, low, idle, [DoDelay(1)] + ([DoResume] + []));
    StartInitial(high, low, idle, 0);
    InitialInv(g, Start(g, 0));
    RunPromises(g, Start(g, 0), steps);
  }

  lemma LateUnsound(g: Config, clock: nat, x: Task, a: Task, mu: Mutex, sem: Sem, hx: Held)
    requires g.base.Keys == {LOW, HIGH, IDLE} && (mu.level > 0 || mu.prio != g.base[LOW])
    ensures !Sound(g, Small(g, clock, true, x, a, map[], mu, sem, Releasing(0), Outside, Nothing, hx), DoResume)
  {
  }

  /** The task that has got the mutex meanwhile gives it up in time: the preempted release leaves its
      caller with the priority of that task. */
  lemma ReleaseKeepsPrio(high: nat, low: nat, idle: nat) returns (steps: seq<Step>)
    requires high < low < idle
    ensures
      var g := Pair(high, low, idle);
      var k := Start(g, 0);
      && Initial(g, k) && Run(g, k, steps) && !AlwaysPromised(g, k, steps)
      && Tk(Final(g, k, steps), LOW).prio == high && Hd(Final(g, k, steps), LOW) == Nothing
      && Mu(Final(g, k, steps), 0).level == 0
  {
    hide Run, RunSound, Final, Next, Allowed, Small, Initial, AlwaysPromised, Inv;
    var g, sem := Pair(high, low, idle), Sem(0, 0, 0, 0);
    var k5 := Intruded(g);
    PairDrops(g, 1, false, Ready(high), Ready(low), high, sem, Releasing(0), Nothing, Holds(0, 1));
    PairGives(g, 1, Ready(high), Ready(low), sem, Releasing(0), Nothing);
    PairDelays(g, 1, Ready(high), Ready(low), map[], Mutex(NoOwner, 0, high), sem, Releasing(0), Nothing, Nothing);
    PairGivesLate(g, 1, Asleep(high, 2), Ready(low), Mutex(NoOwner, 0, high), sem, Nothing);
    LateUnsound(g, 1, Asleep(high, 2), Ready(low), Mutex(NoOwner, 0, high), sem, Nothing);
    var k6 := Next(g, k5, DoMutexRelease(0));
    var k7 := Next(g, k6, DoResume);
    var k8 := Next(g, k7, DoDelay(1));
    var end := [DoDelay(1)] + ([DoResume] + []);
    OneStep(g, k8, DoResume);
    RunCons(g, k7, DoDelay(1), [DoResume] + []);
    RunCons(g, k6, DoResume, end);
    RunCons(g, k5, DoMutexRelease(0), [DoResume] + end);
    steps := Intrusion([DoMutexRelease(0)] + ([DoResume] + end));
    IntrusionRuns(high, low, idle, [DoMutexRelease(0)] + ([DoResume] + end));
    StartInitial(high, low, idle, 0);
    InitialInv(g, Start(g, 0));
    RunPromises(g, Start(g, 0), steps);
  }

  // ------------------------------------------------------------ a switch to the task chosen before

  /** The switch on a port that makes the task it is asked for run, without a look at the run list. */
  function SwitchedTo(k: Kernel, to: Tid): Kernel {
    k.(pc := k.pc[k.current := Outside], current := to)
  }

  /** Such a switch makes the most urgent ready task run if and only if the caller is not that task
      itself, which it is when it has been preempted since it chose. */
  lemma DirectSwitch(g: Config, k: Kernel, to: Tid)
    requires Inv(g, k) && PcOf(k, k.current) == Switching(to)
    ensures k.core.run != [] && (to == k.core.run[0] <==> k.current != k.core.run[0])
    ensures k.current != k.core.run[0] ==> SwitchedTo(k, to) == Switched(k)
  {
    hide CoreInv, CalloutsOk, QueuesOk, SemsOk, MutexesOk;
    CurrentRuns(g, k);
    assert TaskOk(g, k, k.current);
  }

  /** The more urgent task waits for the semaphore, forever. */
  ghost function SemAsleep(g: Config): Kernel
    requires g.base.Keys == {LOW, HIGH, IDLE}
  {
    Small(g, 0, true, Task(g.base[HIGH], true, true, OS_TIMEOUT_NEVER % WORD32, OS_TIMEOUT_NEVER, SemObj(0)),
        Ready(g.base[LOW]), map[SemObj(0) := [HIGH]],
          Mutex(NoOwner, 0, 0), Sem(0, 0, 0, 0), Outside, PendSem(0, false), Nothing, Nothing).(semFlag := {HIGH})
  }

  /** It has the token; `late` is that the other one has not switched to it yet. */
  ghost function SemGiven(g: Config, clock: nat, late: bool): Kernel
    requires g.base.Keys == {LOW, HIGH, IDLE}
  {
    Small(g, clock, false, Ready(g.base[HIGH]), Ready(g.base[LOW]), map[SemObj(0) := []], Mutex(NoOwner, 0, 0),
        Sem(0, 0, 1, 1),
          Switching(HIGH), PendSem(0, true), Nothing, Nothing).(current := if late then LOW else HIGH)
  }

  lemma PairSemPends(g: Config)
    requires g.base.Keys == {LOW, HIGH, IDLE} && g.idle == IDLE && g.semIds == {0}
    ensures
      var k := Start(g, 0);
      && Allowed(g, k, DoSemPend(0, OS_TIMEOUT_NEVER)) && k.current in k.core.tasks
      && Next(g, k, DoSemPend(0, OS_TIMEOUT_NEVER)) == SemAsleep(g)
  {
    hide Block;
    var k := Start(g, 0);
    PairSemBlocks(g);
    assert k.pc[HIGH := PendSem(0, false)] == SemAsleep(g).pc;
    assert {} + {HIGH} == {HIGH};
  }

  lemma PairSemBlocks(g: Config)
    requires g.base.Keys == {LOW, HIGH, IDLE}
    ensures Block(Start(g, 0).core, HIGH, OS_TIMEOUT_NEVER, SemObj(0)) == SemAsleep(g).core
  {
    var c := Block(Start(g, 0).core, HIGH, OS_TIMEOUT_NEVER, SemObj(0));
    assert c.run == [LOW, IDLE];
    assert c.sleep == [HIGH] && c.waits == map[SemObj(0) := [HIGH]];
    assert c.tasks == SemAsleep(g).core.tasks;
  }

  lemma PairSemWakes(g: Config)
    requires g.base.Keys == {LOW, HIGH, IDLE} && g.base[HIGH] < g.base[LOW]
    ensures Wake(SemAsleep(g).core, HIGH) == SemGiven(g, 0, true).core
  {
    var c := Wake(SemAsleep(g).core, HIGH);
    assert c.run == [HIGH, LOW, IDLE];
    assert c.sleep == [] && c.waits == map[SemObj(0) := []];
    assert c.tasks == SemGiven(g, 0, true).core.tasks;
  }

  lemma PairSemGives(g: Config)
    requires g.base.Keys == {LOW, HIGH, IDLE} && g.idle == IDLE && g.semIds == {0} && g.base[HIGH] < g.base[LOW]
    ensures
      var k := SemAsleep(g);
      && Allowed(g, k, DoSemRelease(0)) && k.current in k.core.tasks
      && Next(g, k, DoSemRelease(0)) == SemGiven(g, 0, true)
  {
    hide Wake;
    var k, k' := SemAsleep(g), SemGiven(g, 0, true);
    PairSemWakes(g);
    assert k.pc[HIGH := PendSem(0, true)][LOW := Switching(HIGH)] == k'.pc;
    assert k.semFlag - {HIGH} == {};
    assert k.sems[0 := Sem(0, 0, 1, 1)] == k'.sems;
  }

  lemma PairSemTicks(g: Config)
    requires g.base.Keys == {LOW, HIGH, IDLE} && g.idle == IDLE
    ensures
      var k := SemGiven(g, 0, true);
      && Allowed(g, k, DoTick) && k.current in k.core.tasks
      && Next(g, k, DoTick) == SemGiven(g, 1, false)
  {
    hide Placed;
    ReadyPlaced(Advance(SemGiven(g, 0, true).core));
  }

  lemma PairSemReturns(g: Config)
    requires g.base.Keys == {LOW, HIGH, IDLE} && g.idle == IDLE
    ensures
      var k := SemGiven(g, 1, false);
      && Allowed(g, k, DoResume) && k.current in k.core.tasks
      && Next(g, k, DoResume) == Small(g, 1, false, Ready(g.base[HIGH]), Ready(g.base[LOW]), map[SemObj(0) := []],
          Mutex(NoOwner, 0, 0), Sem(0, 0, 1, 1),
                                       Switching(HIGH), Outside, Nothing, Nothing)
  {
    var k := SemGiven(g, 1, false);
    assert k.pc[HIGH := Outside] == map[LOW := Switching(HIGH), HIGH := Outside, IDLE := Outside];
    assert k.semFlag - {HIGH} == {};
  }

  /** Preempted between its critical section and its switch, a release asks for a task that sleeps by
      then. */
  lemma SwitchToSleeper(high: nat, low: nat, idle: nat) returns (steps: seq<Step>)
    requires high < low < idle
    ensures
      var g := Pair(high, low, idle);
      var k := Start(g, 0);
      var end := Final(g, k, steps);
      && Initial(g, k) && Run(g, k, steps) && RunSound(g, k, steps)
      && PcOf(end, end.current) == Switching(HIGH) && Tk(end, HIGH).sleeping && HIGH !in end.core.run
  {
    hide Run, RunSound, Final, Next, Allowed, Sound, Initial;
    var g := Pair(high, low, idle);
    PairSemPends(g);
    PairSemGives(g);
    PairSemTicks(g);
    PairSemReturns(g);
    PairDelays(g, 1, Ready(high), Ready(low), map[SemObj(0) := []], Mutex(NoOwner, 0, 0), Sem(0, 0, 1, 1),
        Switching(HIGH), Nothing, Nothing);
    var k := Start(g, 0);
    var k4 := Next(g, SemGiven(g, 1, false), DoResume);
    var s2, s3, s4, s5 := DoSemRelease(0), DoTick, DoResume, DoDelay(1);
    OneStep(g, k4, s5);
    RunCons(g, SemGiven(g, 1, false), s4, [s5] + []);
    RunCons(g, SemGiven(g, 0, true), s3, [s4] + ([s5] + []));
    RunCons(g, SemAsleep(g), s2, [s3] + ([s4] + ([s5] + [])));
    RunCons(g, k, DoSemPend(0, OS_TIMEOUT_NEVER), [s2] + ([s3] + ([s4] + ([s5] + []))));
    steps := [DoSemPend(0, OS_TIMEOUT_NEVER)] + ([s2] + ([s3] + ([s4] + ([s5] + []))));
    NoRelease(g, k, DoSemPend(0, OS_TIMEOUT_NEVER));
    NoRelease(g, SemAsleep(g), s2);
    NoRelease(g, SemGiven(g, 0, true), s3);
    NoRelease(g, SemGiven(g, 1, false), s4);
    NoRelease(g, k4, s5);
    StartInitial(high, low, idle, 0);
  }

  lemma NoRelease(g: Config, k: Kernel, s: Step)
    requires !s.DoResume? || !PcOf(k, k.current).Releasing?
    ensures Sound(g, k, s)
  {
  }
}
