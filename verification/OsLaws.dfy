/** What the system calls promise over time: sleeps, timeouts and callouts last as long as they were asked
    to, and every token of a semaphore goes to exactly one pend. */
module OsLaws {
  import opened Common
  import opened OsList
  import opened OsSched
  import opened OsKernel
  import opened OsRun
  import opened OsRefine
  import S = OsSpec

  /** The ticks in a run. */
  function Ticks(steps: seq<Step>): nat {
    if steps == [] then 0 else (if steps[0].DoTick? then 1 else 0) + Ticks(steps[1..])
  }

  ghost predicate Consumers(g: Config) {
    forall q :: q in g.consumer ==> g.consumer[q] in g.base
  }

  // ------------------------------------------------------------ sleeping

  /** The task sleeps before every step of the run, and nothing but a tick may wake it. */
  ghost predicate Dozes(g: Config, k: Kernel, steps: seq<Step>, t: Tid)
    requires Run(g, k, steps)
    decreases |steps|
  {
    steps == [] ||
    (Tk(k, t).sleeping && (steps[0].DoTick? || Tk(Next(g, k, steps[0]), t).sleeping) &&
     Dozes(g, Next(g, k, steps[0]), steps[1..], t))
  }

  /** A sleeper is woken or left as it is. */
  ghost predicate Passed(a: S.State, a': S.State, t: Tid) {
    Sleeper(a, t) ==>
    && (S.RestOf(a', t) == S.RestOf(a, t) || S.RestOf(a', t) == S.Awake)
    && (S.RestOf(a', t).Asleep? ==> S.Place(a', t) == S.Place(a, t))
  }

  ghost predicate Sleeper(a: S.State, t: Tid) {
    t != a.running && S.RestOf(a, t).Asleep?
  }

  lemma PassesReschedule(a: S.State, b: S.State, a': S.State, t: Tid)
    requires S.Rescheduled(b, a') && Passed(a, b, t) && b.timers == a.timers
    ensures Passed(a, a', t) && a'.timers == a.timers
  {
    hide S.Urgent;
  }

  lemma PassesSleep(a: S.State, n: nat, o: Obj, p: Pc, t: Tid)
    ensures Passed(a, S.Sleep(a, n, o, p), t) && S.Sleep(a, n, o, p).timers == a.timers
  {
  }

  lemma PassesPend(a: S.State, m: nat, timeout: nat, a': S.State, t: Tid)
    requires S.PendsMutex(a, m, timeout, a')
    ensures Passed(a, a', t) && a'.timers == a.timers
  {
    hide S.Rescheduled, S.Sleep, Passed, S.Lend, S.SetMutex;
    var b := S.Lend(a, m);
    PassesLend(a, m, t);
    PassesSleep(b, timeout, MutexObj(m), PendMutex(m), t);
    PassesBoth(a, b, S.Sleep(b, timeout, MutexObj(m), PendMutex(m)), t);
    if S.Rescheduled(S.Sleep(b, timeout, MutexObj(m), PendMutex(m)), a') {
      PassesReschedule(a, S.Sleep(b, timeout, MutexObj(m), PendMutex(m)), a', t);
    }
    PassesSet(a, m, S.MutexIn(a, m), t);
    PassesSet(a, m, Mutex(Owned(a.running), 1, S.Prio(a, a.running)), t);
    PassesSet(a, m, S.MutexIn(a, m).(level := S.MutexIn(a, m).level + 1), t);
    PassesSelf(a, t);
  }

  lemma PassesSelf(a: S.State, t: Tid)
    ensures Passed(a, a, t)
  {
  }

  lemma PassesBoth(a: S.State, b: S.State, c: S.State, t: Tid)
    requires Passed(a, b, t) && Passed(b, c, t) && b.rest == a.rest && b.running == a.running
    ensures Passed(a, c, t)
  {
  }

  lemma PassesLend(a: S.State, m: nat, t: Tid)
    ensures
      var b := S.Lend(a, m);
      Passed(a, b, t) && b.timers == a.timers && b.running == a.running && b.rest == a.rest
  {
  }

  lemma PassesSet(a: S.State, m: nat, mu: Mutex, t: Tid)
    ensures Passed(a, S.SetMutex(a, m, mu), t) && S.SetMutex(a, m, mu).timers == a.timers
  {
  }

  lemma PassesDrop(a: S.State, m: nat, a': S.State, t: Tid)
    requires S.DropsMutex(a, m, a')
    ensures Passed(a, a', t) && a'.timers == a.timers
  {
  }

  lemma PassesLeave(a: S.State, b: S.State, a': S.State, t: Tid)
    requires S.Leaves(b, a') && a.running == b.running && Passed(a, b, t) && b.timers == a.timers
    ensures Passed(a, a', t) && a'.timers == a.timers
  {
    hide S.Urgent;
  }

  lemma PassesGive(a: S.State, m: nat, a': S.State, t: Tid)
    requires S.GivesMutex(a, m, a')
    ensures Passed(a, a', t) && a'.timers == a.timers
  {
    hide S.Leaves, S.First, S.Waits, Passed;
    var b := a.(prio := a.prio[a.running := S.MutexIn(a, m).prio]);
    if forall u :: !S.Waits(b, u, MutexObj(m)) {
      var c := S.SetMutex(b, m, S.MutexIn(a, m).(owner := NoOwner));
      SameRestPasses(a, c, t);
      PassesLeave(a, c, a', t);
    } else {
      var r :| S.First(b, r, MutexObj(m)) &&
               S.Leaves(S.WakeUp(S.SetMutex(b, m, Mutex(Owned(r), 1, S.Prio(b, r))), r), a');
      var c := S.WakeUp(S.SetMutex(b, m, Mutex(Owned(r), 1, S.Prio(b, r))), r);
      WakePasses(a, c, r, t);
      PassesLeave(a, c, a', t);
    }
  }

  lemma SameRestPasses(a: S.State, c: S.State, t: Tid)
    requires c.rest == a.rest && c.at == a.at
    ensures Passed(a, c, t)
  {
  }

  lemma WakePasses(a: S.State, c: S.State, r: Tid, t: Tid)
    requires c.rest == a.rest[r := S.Awake] && (c.at == a.at || c.at == a.at[r := S.Place(c, r)])
    ensures Passed(a, c, t)
  {
  }

  lemma PassesSem(a: S.State, n: nat, timeout: nat, a': S.State, t: Tid)
    requires S.PendsSem(a, n, timeout, a')
    ensures Passed(a, a', t) && a'.timers == a.timers
  {
    hide S.Rescheduled, S.Sleep;
    var b := S.Sleep(a, timeout, SemObj(n), PendSem(n, false));
    PassesSleep(a, timeout, SemObj(n), PendSem(n, false), t);
    if S.Rescheduled(b, a') {
      PassesReschedule(a, b, a', t);
    }
  }

  lemma PassesRelease(a: S.State, n: nat, isr: bool, a': S.State, t: Tid)
    requires S.ReleasesSem(a, n, isr, a')
    ensures Passed(a, a', t) && a'.timers == a.timers
  {
    hide S.Rescheduled, S.First, S.Waits;
    if exists u :: S.Waits(a, u, SemObj(n)) {
      var r :| S.First(a, r, SemObj(n)) && S.Hands(a, n, isr, r, a');
      var b := S.Go(S.WakeUp(a, r), r, PendSem(n, true));
      WakePasses(a, b, r, t);
      if S.Rescheduled(b, a') {
        PassesReschedule(a, b, a', t);
      }
    }
  }
  lemma PassesPut(g: Config, a: S.State, e: nat, a': S.State, t: Tid)
    requires S.PutsEvent(g, a, e, a')
    ensures Passed(a, a', t) && a'.timers == a.timers
  {
    hide S.Rescheduled, S.Starved;
    var q := HomeOf(g, e);
    var b := S.SetEvents(a, q, S.Events(a, q) + [e]);
    if e !in S.Events(a, q) && S.Starved(g, a, q) {
      StarvedKnown(g, a, q);
      WakePasses(a, S.WakeUp(b, g.consumer[q]), g.consumer[q], t);
      PassesReschedule(a, S.WakeUp(b, g.consumer[q]), a', t);
    }
  }

  lemma StarvedKnown(g: Config, a: S.State, q: nat)
    requires S.Starved(g, a, q)
    ensures q in g.consumer
  {
  }

  lemma PassesGet(a: S.State, q: nat, a': S.State, t: Tid)
    requires S.GetsEvent(a, q, a')
    ensures Passed(a, a', t) && a'.timers == a.timers
  {
    hide S.Rescheduled, S.Sleep;
    var b := S.Sleep(a, OS_TIMEOUT_NEVER, NoObj, GetEvent(q));
    PassesSleep(a, OS_TIMEOUT_NEVER, NoObj, GetEvent(q), t);
    if S.Rescheduled(b, a') {
      PassesReschedule(a, b, a', t);
    }
  }

  lemma PassesDelay(a: S.State, n: nat, a': S.State, t: Tid)
    requires S.Rescheduled(S.Sleep(a, n, NoObj, Outside), a')
    ensures Passed(a, a', t) && a'.timers == a.timers
  {
    hide S.Rescheduled, S.Sleep;
    PassesSleep(a, n, NoObj, Outside, t);
    PassesReschedule(a, S.Sleep(a, n, NoObj, Outside), a', t);
  }

  lemma PassesResume(a: S.State, a': S.State, t: Tid)
    requires S.Resumes(a, a')
    ensures Passed(a, a', t) && a'.timers == a.timers
  {
    hide S.Rescheduled, S.GivesMutex, S.GetsEvent;
    var p := S.Place(a, a.running);
    if p.GetEvent? {
      PassesGet(a, p.q, a', t);
    } else if p.Releasing? {
      PassesGive(a, p.m, a', t);
    } else if p.Switching? {
      PassesReschedule(a, S.Go(a, a.running, Outside), a', t);
    }
  }

  /** A step of the simple machine, but for ticks and for calls that concern callouts. */
  lemma Passes(g: Config, a: S.State, s: Step, a': S.State, t: Tid)
    requires S.SpecStep(g, a, s, a') && !s.DoTick?
    ensures Passed(a, a', t) && (!s.DoReset? && !s.DoStop? ==> a'.timers == a.timers)
  {
    hide S.PendsMutex, S.DropsMutex, S.PendsSem, S.ReleasesSem, S.PutsEvent, S.GetsEvent, S.Rescheduled, S.Resumes,
        S.Sleep,
        S.Except, Passed;
    match s
    case DoMutexPend(m, timeout) => PassesPend(a, m, timeout, a', t);
    case DoMutexRelease(m) => PassesDrop(a, m, a', t);
    case DoSemPend(n, timeout) => PassesSem(a, n, timeout, a', t);
    case DoSemRelease(n) => PassesRelease(a, n, false, a', t);
    case DoSemSignal(n) => PassesRelease(a, n, true, a', t);
    case DoPut(e) => PassesPut(g, a, e, a', t);
    case DoGet(q) => PassesGet(a, q, a', t);
    case DoRemove(e) => SameRestPasses(a, a', t);
    case DoReset(c, ticks) => SameRestPasses(a, a', t);
    case DoStop(c) => SameRestPasses(a, a', t);
    case DoDelay(ticks) => PassesDelay(a, ticks, a', t);
    case DoResume => PassesResume(a, a', t);
  }

  lemma SleepTicks(g: Config, a: S.State, a': S.State, t: Tid)
    requires S.Ticked(g, a, a') && t in a.rest && !S.Place(a, t).GetEvent?
    ensures S.RestOf(a', t) == S.TickRest(S.RestOf(a, t))
  {
    hide S.Urgent, S.Fires, S.TickTimers, S.TickRest;
  }

  /** How long a sleep of which `left` is left lasts. */
  function After(r: S.Rest, ticks: nat): S.Rest {
    if r.Awake? || r.left.NoLimit? then r
    else if ticks >= r.left.n then S.Awake
    else S.Asleep(S.Ticks(r.left.n - ticks), r.on)
  }

  lemma DozesOn(g: Config, k: Kernel, s: Step, t: Tid)
    requires Inv(g, k) && Allowed(g, k, s) && Sound(g, k, s) && Consumers(g) && t in g.base
    requires Tk(k, t).sleeping && !PcOf(k, t).GetEvent?
    ensures k.current in k.core.tasks
    ensures s.DoTick? ==> AbsRest(Next(g, k, s), t) == S.TickRest(AbsRest(k, t))
    ensures !s.DoTick? ==> AbsRest(Next(g, k, s), t) == AbsRest(k, t) || AbsRest(Next(g, k, s), t) == S.Awake
    ensures AbsRest(Next(g, k, s), t).Asleep? ==> PcOf(Next(g, k, s), t) == PcOf(k, t)
  {
    hide InvAt, Abs, Next, Allowed, Sound, S.SpecStep, S.TickRest;
    StepRefines(g, k, s);
    StepKeeps(g, k, s);
    var k' := Next(g, k, s);
    AbsTask(g, k, t);
    AbsTask(g, k', t);
    AbsObjects(g, k);
    InvCore(g, k);
    RunningAwake(g, k);
    if s.DoTick? {
      TickStep(g, Abs(g, k), s, Abs(g, k'));
      SleepTicks(g, Abs(g, k), Abs(g, k'), t);
      TickPlaces(g, Abs(g, k), Abs(g, k'), t);
    } else {
      Passes(g, Abs(g, k), s, Abs(g, k'), t);
    }
  }

  lemma TickStep(g: Config, a: S.State, s: Step, a': S.State)
    requires S.SpecStep(g, a, s, a') && s.DoTick?
    ensures S.Ticked(g, a, a')
  {
  }

  lemma TickPlaces(g: Config, a: S.State, a': S.State, t: Tid)
    requires S.Ticked(g, a, a')
    ensures S.Place(a', t) == S.Place(a, t)
  {
  }

  lemma RunningAwake(g: Config, k: Kernel)
    requires Inv(g, k)
    ensures !Tk(k, k.current).sleeping
  {
    hide CoreInv, TasksOk, MutexesOk, CalloutsOk, QueuesOk, SemsOk;
    CurrentRuns(g, k);
  }

  lemma {:induction false} Countdown(g: Config, k: Kernel, steps: seq<Step>, t: Tid)
    requires Inv(g, k) && Run(g, k, steps) && RunSound(g, k, steps) && Consumers(g) && t in g.base
    requires !PcOf(k, t).GetEvent? && Dozes(g, k, steps, t) && AbsRest(k, t) != S.Asleep(S.Ticks(0), Tk(k, t).obj)
    ensures AbsRest(Final(g, k, steps), t) == After(AbsRest(k, t), Ticks(steps))
    decreases |steps|
  {
    hide Inv, Next, Allowed, Sound;
    if steps != [] {
      var k' := Next(g, k, steps[0]);
      DozesOn(g, k, steps[0], t);
      StepKeeps(g, k, steps[0]);
      if steps[1..] == [] {
        assert Ticks(steps[1..]) == 0;
      } else {
        Countdown(g, k', steps[1..], t);
      }
    }
  }

  /** A call that may put its caller to sleep, and for how long. */
  predicate MaySleep(s: Step) {
    s.DoDelay? || s.DoMutexPend? || s.DoSemPend?
  }

  function TimeoutOf(s: Step): nat
    requires MaySleep(s)
  {
    match s
    case DoDelay(n) => n
    case DoMutexPend(m, n) => n
    case DoSemPend(m, n) => n
  }

  /** It does so: a delay always, a pend if what it wants is not there and it is to wait. */
  ghost predicate MustWait(k: Kernel, s: Step)
    requires MaySleep(s)
  {
    match s
    case DoDelay(n) => true
    case DoMutexPend(m, n) => Mu(k, m).level > 0 && Mu(k, m).owner != Owned(k.current) && n > 0
    case DoSemPend(m, n) => Sm(k, m).tokens == 0 && n > 0
  }

  lemma FallsAsleep(g: Config, k: Kernel, s: Step)
    requires Inv(g, k) && Allowed(g, k, s) && MaySleep(s) && Consumers(g)
    ensures k.current in k.core.tasks && k.current in g.base
    ensures
      var r := AbsRest(Next(g, k, s), k.current);
      && (r.Asleep? <==> MustWait(k, s)) && (r.Asleep? ==> r.left == S.TimeOf(TimeoutOf(s)))
    ensures !PcOf(Next(g, k, s), k.current).GetEvent?
  {
    hide InvAt, Abs, Next;
    InvCore(g, k);
    var t, k' := k.current, Next(g, k, s);
    RunningAwake(g, k);
    AbsTask(g, k, t);
    AbsObjects(g, k);
    StepRefines(g, k, s);
    AbsTask(g, k', t);
    CallPlace(g, k, s);
    MayCall(g, k, s);
    SpecSleeps(g, Abs(g, k), s, Abs(g, k'));
  }

  lemma MayCall(g: Config, k: Kernel, s: Step)
    requires Allowed(g, k, s)
    ensures s.DoMutexPend? ==> s.m in g.mutexIds
    ensures s.DoSemPend? ==> s.s in g.semIds
  {
  }

  lemma CallPlace(g: Config, k: Kernel, s: Step)
    requires Allowed(g, k, s) && MaySleep(s)
    ensures PcOf(k, k.current) == Outside
  {
  }

  ghost predicate SpecMustWait(a: S.State, s: Step)
    requires MaySleep(s)
  {
    match s
    case DoDelay(n) => true
    case DoMutexPend(m, n) => S.MutexIn(a, m).level > 0 && S.MutexIn(a, m).owner != Owned(a.running) && n > 0
    case DoSemPend(m, n) => S.Tokens(a, m) == 0 && n > 0
  }

  lemma SpecSleeps(g: Config, a: S.State, s: Step, a': S.State)
    requires S.SpecStep(g, a, s, a') && MaySleep(s) && S.RestOf(a, a.running) == S.Awake
    requires S.Place(a, a.running) == Outside
    ensures
      var r := S.RestOf(a', a.running);
      && (r.Asleep? <==> SpecMustWait(a, s)) && (r.Asleep? ==> r.left == S.TimeOf(TimeoutOf(s)))
    ensures !S.Place(a', a.running).GetEvent?
  {
    hide S.Rescheduled, S.Sleep, S.PendsMutex;
    match s
    case DoDelay(n) => SleepsNow(a, n, NoObj, Outside, a');
    case DoMutexPend(m, n) => PendSleeps(a, m, n, a');
    case DoSemPend(m, n) =>
      if SpecMustWait(a, s) {
        SleepsNow(a, n, SemObj(m), PendSem(m, false), a');
      }
  }

  lemma SleepsNow(a: S.State, n: nat, o: Obj, p: Pc, a': S.State)
    requires S.Rescheduled(S.Sleep(a, n, o, p), a')
    ensures S.RestOf(a', a.running) == S.Asleep(S.TimeOf(n), o) && S.Place(a', a.running) == p
  {
    hide S.Urgent;
  }

  lemma PendSleeps(a: S.State, m: nat, n: nat, a': S.State)
    requires S.PendsMutex(a, m, n, a') && S.RestOf(a, a.running) == S.Awake && S.Place(a, a.running) == Outside
    ensures
      var r := S.RestOf(a', a.running);
      && (r.Asleep? <==> SpecMustWait(a, DoMutexPend(m, n))) && (r.Asleep? ==> r.left == S.TimeOf(n))
    ensures !S.Place(a', a.running).GetEvent?
  {
    hide S.Rescheduled, S.Sleep, S.Lend;
    if SpecMustWait(a, DoMutexPend(m, n)) {
      PassesLend(a, m, 0);
      SleepsNow(S.Lend(a, m), n, MutexObj(m), PendMutex(m), a');
    }
  }

  /** A task that a delay or a pend puts to sleep, and that nothing else wakes, sleeps through as many ticks
      as the timeout says and no more, or forever. */
  lemma SleepLaw(g: Config, k: Kernel, s: Step, steps: seq<Step>)
    requires Inv(g, k) && Allowed(g, k, s) && MaySleep(s) && Consumers(g)
    ensures k.current in k.core.tasks && (Tk(Next(g, k, s), k.current).sleeping <==> MustWait(k, s))
    ensures
      var k1 := Next(g, k, s);
      MustWait(k, s) && Run(g, k1, steps) && RunSound(g, k1, steps) && Dozes(g, k1, steps, k.current) ==>
        (Tk(Final(g, k1, steps), k.current).sleeping <==>
         TimeoutOf(s) == OS_TIMEOUT_NEVER || Ticks(steps) < TimeoutOf(s))
  {
    hide InvAt, Next, MustWait, Allowed;
    FallsAsleep(g, k, s);
    StepKeeps(g, k, s);
    var k1 := Next(g, k, s);
    if MustWait(k, s) && Run(g, k1, steps) && RunSound(g, k1, steps) && Dozes(g, k1, steps, k.current) {
      WaitsSome(g, k, s);
      Countdown(g, k1, steps, k.current);
    }
  }

  lemma WaitsSome(g: Config, k: Kernel, s: Step)
    requires Allowed(g, k, s) && MaySleep(s) && MustWait(k, s)
    ensures TimeoutOf(s) > 0
  {
  }

  // ------------------------------------------------------------ callouts

  /** The run does not touch the callout. */
  ghost predicate LeavesAlone(steps: seq<Step>, c: nat) {
    forall s :: s in steps ==> !(s.DoReset? && s.c == c) && !(s.DoStop? && s.c == c)
  }

  lemma TimerStays(g: Config, a: S.State, s: Step, a': S.State, c: nat)
    requires S.SpecStep(g, a, s, a') && !s.DoTick? && LeavesAlone([s], c)
    ensures c in a'.timers <==> c in a.timers
    ensures c in a.timers ==> a'.timers[c] == a.timers[c]
  {
    hide S.PendsMutex, S.DropsMutex, S.PendsSem, S.ReleasesSem, S.PutsEvent, S.GetsEvent, S.Rescheduled, S.Resumes;
    assert s in [s];
    Passes(g, a, s, a', 0);
  }

  lemma TimerTicks(g: Config, a: S.State, s: Step, a': S.State, c: nat)
    requires S.SpecStep(g, a, s, a') && s.DoTick?
    ensures c in a'.timers <==> c in a.timers && a.timers[c] > 1
    ensures c in a'.timers ==> a'.timers[c] == a.timers[c] - 1
  {
    hide S.Fires, S.Served, S.Urgent;
  }

  /** A callout with `n` ticks to go is on the list until the run has had as many. */
  lemma {:induction false} TimerRuns(g: Config, k: Kernel, steps: seq<Step>, c: nat)
    requires Inv(g, k) && Run(g, k, steps) && RunSound(g, k, steps) && Consumers(g) && LeavesAlone(steps, c)
    ensures
      var timers := Timers(Final(g, k, steps));
      && (c in timers <==> c in Timers(k) && (Ticks(steps) == 0 || Ticks(steps) < Timers(k)[c]))
      && (c in timers ==> timers[c] == Timers(k)[c] - Ticks(steps))
    decreases |steps|
  {
    hide Inv, Next, Allowed, Sound, Timers, S.SpecStep;
    if steps != [] {
      var k' := Next(g, k, steps[0]);
      StepRefines(g, k, steps[0]);
      StepKeeps(g, k, steps[0]);
      assert steps[0] in steps && forall s :: s in steps[1..] ==> s in steps;
      if steps[0].DoTick? {
        TimerTicks(g, Abs(g, k), steps[0], Abs(g, k'), c);
      } else {
        TimerStays(g, Abs(g, k), steps[0], Abs(g, k'), c);
      }
      TimerRuns(g, k', steps[1..], c);
    }
  }

  /** The ticks that a reset gives a callout. */
  function TicksOf(ticks: nat): nat {
    if ticks == 0 then 1 else ticks
  }

  lemma ResetTimer(g: Config, k: Kernel, c: nat, ticks: nat)
    requires Inv(g, k) && Allowed(g, k, DoReset(c, ticks)) && Consumers(g)
    ensures k.current in k.core.tasks
    ensures Timers(Next(g, k, DoReset(c, ticks))) == Timers(k)[c := TicksOf(ticks)]
    ensures EventOf(g, c) !in Next(g, k, DoReset(c, ticks)).queued
  {
    hide InvAt, Timers, Prios, Rests, Places, Mutexes, Tokens, Events, CalloutReset, S.Except;
    StepRefines(g, k, DoReset(c, ticks));
    ResetKeeps(g, k, c, ticks);
    assert (Timers(k) - {c})[c := TicksOf(ticks)] == Timers(k)[c := TicksOf(ticks)];
  }

  /** No other callout has the event. */
  ghost predicate OwnEvent(g: Config, c: nat) {
    forall d :: d in g.event && d != c ==> g.event[d] != EventOf(g, c)
  }

  /** A callout that is reset and then left alone is on the list for as many ticks as were asked for, at
      least one.  The last of them puts its event, and none before it does. */
  lemma CalloutLaw(g: Config, k: Kernel, c: nat, ticks: nat, steps: seq<Step>)
    requires Inv(g, k) && Allowed(g, k, DoReset(c, ticks)) && Consumers(g) && k.current in k.core.tasks
    requires
      var k1 := Next(g, k, DoReset(c, ticks));
      Run(g, k1, steps) && RunSound(g, k1, steps) && LeavesAlone(steps, c)
    ensures
      var k1 := Next(g, k, DoReset(c, ticks));
      var k2 := Final(g, k1, steps);
      var n, done, e := TicksOf(ticks), Ticks(steps), EventOf(g, c);
      && (forall d :: d != c ==> (d in k1.callList <==> d in k.callList))
      && e !in k1.queued
      && (c in k2.callList <==> done < n)
      && (done == n - 1 ==> e in Tick(g, k2).queued)
      && (done < n - 1 && OwnEvent(g, c) ==> (e in Tick(g, k2).queued <==> e in k2.queued))
  {
    hide InvAt, Next, Allowed, Tick, Timers, CoreInv, FireDue;
    var k1 := Next(g, k, DoReset(c, ticks));
    var k2 := Final(g, k1, steps);
    ResetTimer(g, k, c, ticks);
    StepKeeps(g, k, DoReset(c, ticks));
    TimerRuns(g, k1, steps, c);
    RunKeeps(g, k1, steps);
    Listed(k, c);
    Listed(k1, c);
    Listed(k2, c);
    if Ticks(steps) < TicksOf(ticks) {
      FiresThen(g, k2, c);
    }
  }

  lemma Listed(k: Kernel, c: nat)
    ensures forall d :: d in k.callList <==> d in Timers(k)
    ensures c in Timers(k) ==> Timers(k)[c] == Left(k, c)
  {
  }

  /** What the next tick does with a callout on the list. */
  lemma FiresThen(g: Config, k: Kernel, c: nat)
    requires Inv(g, k) && c in k.callList
    ensures Left(k, c) <= 1 ==> EventOf(g, c) in Tick(g, k).queued
    ensures Left(k, c) > 1 && OwnEvent(g, c) ==> (EventOf(g, c) in Tick(g, k).queued <==> EventOf(g, c) in k.queued)
  {
    hide CoreInv, TasksOk, MutexesOk, QueuesOk, SemsOk, Tasks, Tick, FireDue, Expired, Sorted, NoDup;
    TickKeeps(g, k);
    assert InList(g, c, k.callouts[c], k.core.clock, 1);
    forall d | d in k.callList
      ensures d in g.event
    {
      assert InList(g, d, k.callouts[d], k.core.clock, 1);
    }
  }

  // ------------------------------------------------------------ tokens

  /** The tasks that a release has chosen and that have not returned yet. */
  ghost function Chosen(at: map<Tid, Pc>, n: nat): set<Tid> {
    set t | t in at && at[t] == PendSem(n, true)
  }

  /** Tokens there are, in the semaphore or on their way to a task. */
  ghost function Supply(a: S.State, n: nat): nat {
    S.Tokens(a, n) + |Chosen(a.at, n)|
  }

  function One(b: bool): nat {
    if b then 1 else 0
  }

  lemma ChosenMoves(at: map<Tid, Pc>, t: Tid, p: Pc, n: nat)
    requires t in at
    ensures |Chosen(at[t := p], n)| + One(at[t] == PendSem(n, true)) == |Chosen(at, n)| + One(p == PendSem(n, true))
  {
    var a, b := Chosen(at, n), Chosen(at[t := p], n);
    if at[t] == PendSem(n, true) {
      assert b == if p == PendSem(n, true) then a else a - {t};
    } else {
      assert b == if p == PendSem(n, true) then a + {t} else a;
    }
  }

  /** A pend on the semaphore is in this step: its call, or the rest of it. */
  ghost predicate OnSem(k: Kernel, s: Step, n: nat) {
    (s.DoSemPend? && s.s == n) || (s.DoResume? && PcOf(k, k.current).PendSem? && PcOf(k, k.current).s == n)
  }

  predicate Releases(s: Step, n: nat) {
    (s.DoSemRelease? || s.DoSemSignal?) && s.s == n
  }

  /** The running task moves, but not out of a pend that has got its token, nor into one. */
  ghost predicate Strolls(a: S.State, a': S.State) {
    && a'.tokens == a.tokens
    && (a'.at == a.at ||
        (a.running in a.at && !a.at[a.running].PendSem? && a'.at == a.at[a.running := S.Place(a', a.running)] &&
         (S.Place(a', a.running).PendSem? ==> !S.Place(a', a.running).got)))
  }

  lemma StrollSupply(a: S.State, a': S.State, n: nat)
    requires Strolls(a, a')
    ensures Supply(a', n) == Supply(a, n)
  {
    if a'.at != a.at {
      ChosenMoves(a.at, a.running, S.Place(a', a.running), n);
    }
  }

  lemma StrollSleep(a: S.State, b: S.State, n: nat, o: Obj, p: Pc, a': S.State)
    requires S.Rescheduled(S.Sleep(b, n, o, p), a') && b.at == a.at && b.tokens == a.tokens && b.running == a.running
    requires a.running in a.at && !a.at[a.running].PendSem? && (p.PendSem? ==> !p.got)
    ensures Strolls(a, a')
  {
    hide S.Urgent;
  }

  lemma StrollPend(a: S.State, m: nat, timeout: nat, a': S.State)
    requires S.PendsMutex(a, m, timeout, a') && a.running in a.at && a.at[a.running] == Outside
    ensures Strolls(a, a')
  {
    hide S.Rescheduled, S.Sleep, S.Lend;
    if S.Rescheduled(S.Sleep(S.Lend(a, m), timeout, MutexObj(m), PendMutex(m)), a') {
      LendLeaves(a, m);
      StrollSleep(a, S.Lend(a, m), timeout, MutexObj(m), PendMutex(m), a');
    }
  }

  lemma LendLeaves(a: S.State, m: nat)
    ensures S.Lend(a, m).at == a.at && S.Lend(a, m).tokens == a.tokens && S.Lend(a, m).running == a.running
  {
  }

  lemma StrollDrop(a: S.State, m: nat, a': S.State)
    requires S.DropsMutex(a, m, a') && a.running in a.at && a.at[a.running] == Outside
    ensures Strolls(a, a')
  {
  }

  lemma StrollGet(a: S.State, q: nat, a': S.State)
    requires S.GetsEvent(a, q, a') && a.running in a.at && !a.at[a.running].PendSem?
    ensures Strolls(a, a')
  {
    hide S.Rescheduled, S.Sleep;
    if S.Rescheduled(S.Sleep(a, OS_TIMEOUT_NEVER, NoObj, GetEvent(q)), a') {
      StrollSleep(a, a, OS_TIMEOUT_NEVER, NoObj, GetEvent(q), a');
    }
  }

  lemma StrollMutex(g: Config, a: S.State, s: Step, a': S.State)
    requires S.SpecStep(g, a, s, a') && (s.DoMutexPend? || s.DoMutexRelease? || s.DoDelay? || s.DoGet?)
    requires a.running in a.at && a.at[a.running] == Outside
    ensures Strolls(a, a')
  {
    hide S.Rescheduled, S.Sleep, S.PendsMutex, S.DropsMutex, S.GetsEvent, Strolls;
    match s
    case DoMutexPend(m, timeout) => StrollPend(a, m, timeout, a');
    case DoMutexRelease(m) => StrollDrop(a, m, a');
    case DoDelay(n) => StrollSleep(a, a, n, NoObj, Outside, a');
    case DoGet(q) => StrollGet(a, q, a');
  }

  lemma StrollRest(g: Config, a: S.State, s: Step, a': S.State)
    requires S.SpecStep(g, a, s, a') && (s.DoPut? || s.DoRemove? || s.DoReset? || s.DoStop? || s.DoTick?)
    ensures Strolls(a, a')
  {
    hide S.Urgent, S.Fires, S.Starved, S.Served, S.Except, S.TickTimers, S.TickRest;
  }

  lemma StrollLeave(a: S.State, b: S.State, a': S.State)
    requires S.Leaves(b, a') && b.at == a.at && b.tokens == a.tokens && b.running == a.running
    requires a.running in a.at && !a.at[a.running].PendSem?
    ensures Strolls(a, a')
  {
    hide S.Urgent;
  }

  lemma StrollGive(a: S.State, m: nat, a': S.State)
    requires S.GivesMutex(a, m, a') && a.running in a.at && !a.at[a.running].PendSem?
    ensures Strolls(a, a')
  {
    hide S.Leaves, S.First, S.Waits, Strolls;
    var b := a.(prio := a.prio[a.running := S.MutexIn(a, m).prio]);
    if forall u :: !S.Waits(b, u, MutexObj(m)) {
      StrollLeave(a, S.SetMutex(b, m, S.MutexIn(a, m).(owner := NoOwner)), a');
    } else {
      var r :| S.First(b, r, MutexObj(m)) &&
               S.Leaves(S.WakeUp(S.SetMutex(b, m, Mutex(Owned(r), 1, S.Prio(b, r))), r), a');
      StrollLeave(a, S.WakeUp(S.SetMutex(b, m, Mutex(Owned(r), 1, S.Prio(b, r))), r), a');
    }
  }

  lemma StrollResume(a: S.State, a': S.State)
    requires S.Resumes(a, a') && a.running in a.at && !a.at[a.running].PendSem?
    ensures Strolls(a, a')
  {
    hide S.GivesMutex, S.GetsEvent, S.Urgent;
    var p := a.at[a.running];
    if p.Releasing? {
      StrollGive(a, p.m, a');
    } else if p.GetEvent? {
      StrollGet(a, p.q, a');
    }
  }

  /** A pend takes a token, or waits. */
  lemma PendSupply(a: S.State, m: nat, timeout: nat, a': S.State, n: nat)
    requires S.PendsSem(a, m, timeout, a') && a.running in a.at && a.at[a.running] == Outside
    ensures Supply(a', n) + One(n == m && S.Tokens(a, m) > 0) == Supply(a, n)
  {
    hide S.Rescheduled, S.Sleep;
    if S.Rescheduled(S.Sleep(a, timeout, SemObj(m), PendSem(m, false)), a') && S.Tokens(a, m) == 0 && timeout > 0 {
      StrollSleep(a, a, timeout, SemObj(m), PendSem(m, false), a');
      StrollSupply(a, a', n);
    }
  }

  /** Those who wait for a semaphore have not been chosen; the running task is not among them. */
  ghost predicate WaitersWait(a: S.State) {
    forall t, m :: S.Waits(a, t, SemObj(m)) ==> t in a.at && a.at[t] == PendSem(m, false) && t != a.running
  }

  /** A release adds one. */
  lemma ReleaseSupply(a: S.State, m: nat, isr: bool, a': S.State, n: nat)
    requires S.ReleasesSem(a, m, isr, a') && WaitersWait(a) && a.running in a.at
    requires !isr ==> a.at[a.running] == Outside
    ensures Supply(a', n) == Supply(a, n) + One(n == m)
  {
    hide S.First, S.Waits, S.Urgent;
    if exists u :: S.Waits(a, u, SemObj(m)) {
      var r :| S.First(a, r, SemObj(m)) && S.Hands(a, m, isr, r, a');
      FirstWaits(a, r, m);
      ChosenMoves(a.at, r, PendSem(m, true), n);
      ChosenMoves(a.at[r := PendSem(m, true)], a.running, Switching(r), n);
    }
  }

  lemma FirstWaits(a: S.State, r: Tid, m: nat)
    requires S.First(a, r, SemObj(m))
    ensures S.Waits(a, r, SemObj(m))
  {
  }

  /** The rest of a pend returns OS_OK if the task was chosen, and then one is used. */
  lemma ReturnSupply(a: S.State, a': S.State, n: nat)
    requires S.Resumes(a, a') && a.running in a.at && a.at[a.running].PendSem?
    ensures Supply(a', n) + One(a.at[a.running] == PendSem(n, true)) == Supply(a, n)
  {
    ChosenMoves(a.at, a.running, Outside, n);
  }

  lemma WaitersKnown(g: Config, k: Kernel)
    requires Inv(g, k)
    ensures WaitersWait(Abs(g, k)) && k.current in g.base && k.current in Abs(g, k).at
    ensures Abs(g, k).at[k.current] == PcOf(k, k.current)
  {
    hide InvAt, CoreInv, TaskOk, Abs, Tasks, MutexesOk, CalloutsOk, QueuesOk, SemsOk, S.Place, S.Prio;
    InvCore(g, k);
    InvParts(g, k);
    AbsObjects(g, k);
    AbsPlaces(g, k);
    RunningAwake(g, k);
    forall t, m | S.Waits(Abs(g, k), t, SemObj(m))
      ensures t in Abs(g, k).at && Abs(g, k).at[t] == PendSem(m, false) && t != k.current
    {
      AbsTask(g, k, t);
      WantsToken(g, k, t, m);
    }
  }

  lemma WantsToken(g: Config, k: Kernel, t: Tid, m: nat)
    requires TaskOk(g, k, t) && Tk(k, t).obj == SemObj(m)
    ensures PcOf(k, t) == PendSem(m, false)
  {
  }

  lemma AbsPlaces(g: Config, k: Kernel)
    ensures Abs(g, k).at.Keys == g.base.Keys && forall t :: t in g.base ==> Abs(g, k).at[t] == PcOf(k, t)
  {
  }

  /** Every step accounts for its tokens. */
  lemma TokenStep(g: Config, k: Kernel, s: Step, n: nat)
    requires Inv(g, k) && Allowed(g, k, s) && Sound(g, k, s) && Consumers(g) && n in g.semIds
    ensures k.current in k.core.tasks
    ensures Supply(Abs(g, Next(g, k, s)), n) + One(OnSem(k, s, n) && ReplyOf(g, k, s) == Some(S.Code(Ok))) ==
            Supply(Abs(g, k), n) + One(Releases(s, n))
  {
    hide InvAt, Abs, Next, Supply, ReplyOf, WaitersWait, S.PendsMutex, S.DropsMutex, S.PendsSem, S.ReleasesSem,
        S.PutsEvent,
        S.GetsEvent, S.Rescheduled, S.Resumes, S.RemoveEvent, S.ResetTimer, S.StopTimer, S.Ticked, Strolls;
    StepRefines(g, k, s);
    StepReplies(g, k, s);
    WaitersKnown(g, k);
    AbsObjects(g, k);
    CallPlaces(g, k, s);
    var a, a' := Abs(g, k), Abs(g, Next(g, k, s));
    if s.DoSemPend? {
      PendSupply(a, s.s, s.timeout, a', n);
    } else if s.DoSemRelease? || s.DoSemSignal? {
      ReleaseSupply(a, s.s, s.DoSemSignal?, a', n);
    } else if s.DoResume? && PcOf(k, k.current).PendSem? {
      ReturnSupply(a, a', n);
    } else {
      if s.DoResume? {
        StrollResume(a, a');
      } else if s.DoMutexPend? || s.DoMutexRelease? || s.DoDelay? || s.DoGet? {
        StrollMutex(g, a, s, a');
      } else {
        StrollRest(g, a, s, a');
      }
      StrollSupply(a, a', n);
    }
  }

  lemma CallPlaces(g: Config, k: Kernel, s: Step)
    requires Allowed(g, k, s)
    ensures s.DoMutexPend? || s.DoMutexRelease? || s.DoSemPend? || s.DoSemRelease? || s.DoGet? || s.DoDelay? ==>
              PcOf(k, k.current) == Outside
  {
  }

  /** How many pends on the semaphore have returned OS_OK in a run. */
  ghost function Oks(g: Config, k: Kernel, steps: seq<Step>, n: nat): nat
    requires Run(g, k, steps)
    decreases |steps|
  {
    if steps == [] then 0
    else One(OnSem(k, steps[0], n) && ReplyOf(g, k, steps[0]) == Some(S.Code(Ok))) +
         Oks(g, Next(g, k, steps[0]), steps[1..], n)
  }

  function ReleasesIn(steps: seq<Step>, n: nat): nat {
    if steps == [] then 0 else One(Releases(steps[0], n)) + ReleasesIn(steps[1..], n)
  }

  /** The tasks that have been chosen and will return OS_OK. */
  ghost function OnTheirWay(g: Config, k: Kernel, n: nat): set<Tid> {
    set t | t in g.base && PcOf(k, t) == PendSem(n, true)
  }

  /** Tokens there are, tokens on their way and pends that have returned OS_OK add up to what there was and
      the releases. */
  lemma {:induction false} TokenLaw(g: Config, k: Kernel, steps: seq<Step>, n: nat)
    requires Inv(g, k) && Run(g, k, steps) && RunSound(g, k, steps) && Consumers(g) && n in g.semIds
    ensures
      var k' := Final(g, k, steps);
      Sm(k', n).tokens + |OnTheirWay(g, k', n)| + Oks(g, k, steps, n) ==
      Sm(k, n).tokens + |OnTheirWay(g, k, n)| + ReleasesIn(steps, n)
    decreases |steps|
  {
    hide Inv, Next, Allowed, Sound, ReplyOf;
    if steps != [] {
      var k' := Next(g, k, steps[0]);
      TokenStep(g, k, steps[0], n);
      StepKeeps(g, k, steps[0]);
      SupplyIs(g, k, n);
      SupplyIs(g, k', n);
      TokenLaw(g, k', steps[1..], n);
    }
  }

  lemma SupplyIs(g: Config, k: Kernel, n: nat)
    requires n in g.semIds
    ensures Supply(Abs(g, k), n) == Sm(k, n).tokens + |OnTheirWay(g, k, n)|
  {
    hide Abs;
    AbsObjects(g, k);
    AbsPlaces(g, k);
    assert Chosen(Abs(g, k).at, n) == OnTheirWay(g, k, n);
  }
}
