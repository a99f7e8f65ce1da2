/** The kernel, with its sorted lists, its wrapping clock and its flags, takes the steps of the simple machine. */
module OsRefine {
  import opened Common
  import opened OsList
  import opened OsSched
  import opened OsKernel
  import opened OsMutex
  import opened OsSem
  import opened OsEvent
  import opened OsRun
  import S = OsSpec

  // ------------------------------------------------------------ what a kernel state stands for

  ghost function AbsRest(k: Kernel, t: Tid): S.Rest {
    var x := Tk(k, t);
    if !x.sleeping then S.Awake
    else S.Asleep(if x.never then S.NoLimit else S.Ticks(Minus(x.due, k.core.clock)), x.obj)
  }

  function Minus(a: nat, b: nat): nat {
    if a >= b then a - b else 0
  }

  ghost function Evs(list: seq<Entry>): (s: seq<nat>)
    ensures |s| == |list| && forall i :: 0 <= i < |s| ==> s[i] == list[i].ev
  {
    seq(|list|, i requires 0 <= i < |list| => list[i].ev)
  }

  ghost function Left(k: Kernel, c: nat): nat {
    if c in k.callouts then Minus(k.callouts[c].due, k.core.clock) else 0
  }

  ghost function Prios(g: Config, k: Kernel): map<Tid, nat> {
    map t | t in g.base :: Tk(k, t).prio
  }

  ghost function Rests(g: Config, k: Kernel): map<Tid, S.Rest> {
    map t | t in g.base :: AbsRest(k, t)
  }

  ghost function Places(g: Config, k: Kernel): map<Tid, Pc> {
    map t | t in g.base :: PcOf(k, t)
  }

  ghost function Mutexes(g: Config, k: Kernel): map<nat, Mutex> {
    map m | m in g.mutexIds :: Mu(k, m)
  }

  ghost function Tokens(g: Config, k: Kernel): map<nat, nat> {
    map s | s in g.semIds :: Sm(k, s).tokens
  }

  ghost function Events(g: Config, k: Kernel): map<nat, seq<nat>> {
    map q | q in g.consumer :: Evs(Qu(k, q).list)
  }

  ghost function Timers(k: Kernel): map<nat, nat> {
    map c | c in k.callList :: Left(k, c)
  }

  ghost function Abs(g: Config, k: Kernel): S.State {
    S.State(Prios(g, k), Rests(g, k), Places(g, k), k.current, Mutexes(g, k), Tokens(g, k), Events(g, k), Timers(k))
  }

  lemma AbsTask(g: Config, k: Kernel, t: Tid)
    requires t in g.base
    ensures t in Abs(g, k).prio && t in Abs(g, k).rest
    ensures S.Prio(Abs(g, k), t) == Tk(k, t).prio && S.RestOf(Abs(g, k), t) == AbsRest(k, t)
    ensures S.Place(Abs(g, k), t) == PcOf(k, t)
  {
  }

  lemma AbsObjects(g: Config, k: Kernel)
    ensures forall m :: m in g.mutexIds ==> S.MutexIn(Abs(g, k), m) == Mu(k, m)
    ensures forall s :: s in g.semIds ==> S.Tokens(Abs(g, k), s) == Sm(k, s).tokens
    ensures forall q :: q in g.consumer ==> S.Events(Abs(g, k), q) == Evs(Qu(k, q).list)
    ensures Abs(g, k).running == k.current && Abs(g, k).prio.Keys == g.base.Keys == Abs(g, k).rest.Keys
    ensures Abs(g, k).events.Keys == g.consumer.Keys
  {
  }

  lemma SameRests(g: Config, k: Kernel, k': Kernel)
    requires k'.core.tasks == k.core.tasks && k'.core.clock == k.core.clock
    ensures Prios(g, k') == Prios(g, k) && Rests(g, k') == Rests(g, k)
  {
    assert forall t :: Tk(k', t) == Tk(k, t) && AbsRest(k', t) == AbsRest(k, t);
  }

  lemma SamePlaces(g: Config, k: Kernel, k': Kernel)
    requires k'.pc == k.pc
    ensures Places(g, k') == Places(g, k)
  {
    assert forall t :: PcOf(k', t) == PcOf(k, t);
  }

  lemma SameMutexes(g: Config, k: Kernel, k': Kernel)
    requires k'.mutexes == k.mutexes
    ensures Mutexes(g, k') == Mutexes(g, k)
  {
    assert forall m :: Mu(k', m) == Mu(k, m);
  }

  lemma SameTokens(g: Config, k: Kernel, k': Kernel)
    requires k'.sems == k.sems
    ensures Tokens(g, k') == Tokens(g, k)
  {
    assert forall s :: Sm(k', s) == Sm(k, s);
  }

  lemma SameEvents(g: Config, k: Kernel, k': Kernel)
    requires k'.queues == k.queues
    ensures Events(g, k') == Events(g, k)
  {
    hide Evs;
    assert forall q :: Qu(k', q) == Qu(k, q);
  }

  lemma SameTimers(k: Kernel, k': Kernel)
    requires k'.callList == k.callList && k'.callouts == k.callouts && k'.core.clock == k.core.clock
    ensures Timers(k') == Timers(k)
  {
    assert forall c :: Left(k', c) == Left(k, c);
  }

  /** What has not changed in the kernel has not changed in the simple machine. */
  lemma Same(g: Config, k: Kernel, k': Kernel)
    ensures k'.core == k.core ==> Prios(g, k') == Prios(g, k) && Rests(g, k') == Rests(g, k)
    ensures k'.pc == k.pc ==> Places(g, k') == Places(g, k)
    ensures k'.mutexes == k.mutexes ==> Mutexes(g, k') == Mutexes(g, k)
    ensures k'.sems == k.sems ==> Tokens(g, k') == Tokens(g, k)
    ensures k'.queues == k.queues ==> Events(g, k') == Events(g, k)
    ensures k'.callList == k.callList && k'.callouts == k.callouts && k'.core.clock == k.core.clock ==>
              Timers(k') == Timers(k)
  {
    hide Prios, Rests, Places, Mutexes, Tokens, Events, Timers;
    if k'.core == k.core { SameRests(g, k, k'); }
    if k'.pc == k.pc { SamePlaces(g, k, k'); }
    if k'.mutexes == k.mutexes { SameMutexes(g, k, k'); }
    if k'.sems == k.sems { SameTokens(g, k, k'); }
    if k'.queues == k.queues { SameEvents(g, k, k'); }
    if k'.callList == k.callList && k'.callouts == k.callouts && k'.core.clock == k.core.clock { SameTimers(k, k'); }
  }

  lemma NewPlace(g: Config, k: Kernel, k': Kernel, t: Tid, p: Pc)
    requires k'.pc == k.pc[t := p] && t in g.base
    ensures Places(g, k') == Places(g, k)[t := p]
  {
  }

  lemma NewMutex(g: Config, k: Kernel, k': Kernel, m: nat, mu: Mutex)
    requires k'.mutexes == k.mutexes[m := mu] && m in g.mutexIds
    ensures Mutexes(g, k') == Mutexes(g, k)[m := mu]
  {
  }

  lemma NewTokens(g: Config, k: Kernel, k': Kernel, s: nat, x: Sem)
    requires k'.sems == k.sems[s := x] && s in g.semIds
    ensures Tokens(g, k') == Tokens(g, k)[s := x.tokens]
  {
  }

  lemma NewEvents(g: Config, k: Kernel, k': Kernel, q: nat, u: Queue)
    requires k'.queues == k.queues[q := u] && q in g.consumer
    ensures Events(g, k') == Events(g, k)[q := Evs(u.list)]
  {
    hide Evs;
  }

  /** One task goes to sleep: for as many ticks as it asked for. */
  lemma NewSleeper(g: Config, k: Kernel, k': Kernel, t: Tid, n: nat, o: Obj)
    requires t in g.base && t in k.core.tasks && k'.core == Block(k.core, t, n, o)
    ensures Prios(g, k') == Prios(g, k)
    ensures Rests(g, k') == Rests(g, k)[t := S.Asleep(S.TimeOf(n), o)]
  {
    hide Block;
    BlockTasks(k.core, t, n, o);
    assert forall u :: u != t ==> Tk(k', u) == Tk(k, u) && AbsRest(k', u) == AbsRest(k, u);
    assert AbsRest(k', t) == S.Asleep(S.TimeOf(n), o);
  }

  lemma NewWoken(g: Config, k: Kernel, k': Kernel, t: Tid)
    requires t in g.base && t in k.core.tasks && k'.core == Wake(k.core, t)
    ensures Prios(g, k') == Prios(g, k)
    ensures Rests(g, k') == Rests(g, k)[t := S.Awake]
  {
    hide Wake;
    WakeTasks(k.core, t);
    assert forall u :: u != t ==> Tk(k', u) == Tk(k, u) && AbsRest(k', u) == AbsRest(k, u);
  }

  lemma NewPrio(g: Config, k: Kernel, k': Kernel, t: Tid, p: nat)
    requires t in g.base && t in k.core.tasks && k'.core.clock == k.core.clock
    requires k'.core.tasks == k.core.tasks[t := k.core.tasks[t].(prio := p)]
    ensures Prios(g, k') == Prios(g, k)[t := p] && Rests(g, k') == Rests(g, k)
  {
    assert forall u :: u != t ==> Tk(k', u) == Tk(k, u);
    assert forall u :: AbsRest(k', u) == AbsRest(k, u);
  }

  /** The head of the run list is one of the most urgent tasks. */
  lemma HeadUrgent(g: Config, k: Kernel)
    requires CoreInv(k.core, 1) && k.core.tasks.Keys == g.base.Keys && k.core.run != []
    ensures S.Urgent(Abs(g, k), k.core.run[0])
  {
    hide Abs, Sorted, NoDup, Timed, Waiting;
    var h := k.core.run[0];
    assert h in k.core.run;
    AbsObjects(g, k);
    AbsTask(g, k, h);
    forall u | u in Abs(g, k).prio && S.RestOf(Abs(g, k), u) == S.Awake
      ensures S.Prio(Abs(g, k), h) <= S.Prio(Abs(g, k), u)
    {
      AbsTask(g, k, u);
      SortedHead(PrioKeys(k.core.tasks), k.core.run, u);
    }
  }

  /** The list of an object has just the tasks that wait for it, one of the most urgent first. */
  lemma WaitersMean(g: Config, k: Kernel, o: Obj)
    requires CoreInv(k.core, 1) && k.core.tasks.Keys == g.base.Keys && o != NoObj
    ensures forall t :: S.Waits(Abs(g, k), t, o) <==> t in Waiters(k.core, o)
    ensures Waiters(k.core, o) != [] ==> S.First(Abs(g, k), Waiters(k.core, o)[0], o)
    ensures Waiters(k.core, o) == [] <==> forall t :: !S.Waits(Abs(g, k), t, o)
  {
    hide Abs, CoreInv;
    AbsObjects(g, k);
    var w := Waiters(k.core, o);
    forall t: Tid
      ensures S.Waits(Abs(g, k), t, o) <==> t in w
    {
      WaitersOf(k.core, o, t);
      if t in g.base {
        AbsTask(g, k, t);
        if Tk(k, t).obj != NoObj {
          WaitsAsleep(k.core, t);
        }
      }
    }
    if w != [] {
      assert w[0] in w;
      forall u | u in w
        ensures S.Prio(Abs(g, k), w[0]) <= S.Prio(Abs(g, k), u)
      {
        WaitersOf(k.core, o, u);
        WaitersOf(k.core, o, w[0]);
        AbsTask(g, k, w[0]);
        AbsTask(g, k, u);
      }
    }
  }

  lemma WaitsAsleep(c: Core, t: Tid)
    requires CoreInv(c, 1) && t in c.tasks && c.tasks[t].obj != NoObj
    ensures c.tasks[t].sleeping
  {
  }

  // ------------------------------------------------------------ semaphores

  lemma RefSemPend(g: Config, k: Kernel, n: nat, timeout: nat)
    requires k.current in k.core.tasks && n in g.semIds && Inv(g, k) && Inv(g, After(SemPend(k, n, timeout)))
    ensures S.PendsSem(Abs(g, k), n, timeout, Abs(g, After(SemPend(k, n, timeout))))
  {
    hide InvAt, SemPend, After, Abs, S.Rescheduled, S.SetTokens, S.Sleep;
    AbsObjects(g, k);
    if Sm(k, n).tokens != 0 {
      TookToken(g, k, n, timeout);
    } else if timeout == 0 {
      SemRefused(k, n);
    } else {
      SemSleeps(g, k, n, timeout);
    }
  }

  lemma SemRefused(k: Kernel, n: nat)
    requires k.current in k.core.tasks && Sm(k, n).tokens == 0
    ensures After(SemPend(k, n, 0)) == k
  {
    hide Block;
  }

  lemma SemSleeps(g: Config, k: Kernel, n: nat, timeout: nat)
    requires k.current in k.core.tasks && Sm(k, n).tokens == 0 && timeout != 0
    requires Inv(g, k) && Inv(g, After(SemPend(k, n, timeout)))
    ensures S.Rescheduled(S.Sleep(Abs(g, k), timeout, SemObj(n), PendSem(n, false)),
                          Abs(g, After(SemPend(k, n, timeout))))
  {
    hide InvAt, CoreInv, Block, Abs, S.Rescheduled, S.Sleep;
    InvCore(g, k);
    InvCore(g, After(SemPend(k, n, timeout)));
    SleptNow(g, k, After(SemPend(k, n, timeout)), timeout, SemObj(n), PendSem(n, false));
  }

  lemma TookToken(g: Config, k: Kernel, n: nat, timeout: nat)
    requires k.current in k.core.tasks && n in g.semIds && Sm(k, n).tokens > 0
    ensures Abs(g, After(SemPend(k, n, timeout))) == S.SetTokens(Abs(g, k), n, Sm(k, n).tokens - 1)
  {
    hide Prios, Rests, Places, Mutexes, Tokens, Events, Timers;
    var k' := After(SemPend(k, n, timeout));
    Same(g, k, k');
    NewTokens(g, k, k', n, Sm(k', n));
  }

  /** The running task has gone to sleep and another one runs. */
  lemma SleptNow(g: Config, k: Kernel, k': Kernel, n: nat, o: Obj, p: Pc)
    requires k.current in g.base && k.current in k.core.tasks && k'.core == Block(k.core, k.current, n, o)
    requires k'.pc == k.pc[k.current := p] && Inv(g, k') && k'.core.run != [] && k'.current == k'.core.run[0]
    requires k'.mutexes == k.mutexes && k'.sems == k.sems && k'.queues == k.queues && k'.callList == k.callList &&
             k'.callouts == k.callouts
    ensures S.Rescheduled(S.Sleep(Abs(g, k), n, o, p), Abs(g, k'))
  {
    hide InvAt, CoreInv, Block, Prios, Rests, Places, Mutexes, Tokens, Events, Timers, S.Urgent;
    InvCore(g, k');
    BlockTasks(k.core, k.current, n, o);
    Same(g, k, k');
    NewSleeper(g, k, k', k.current, n, o);
    NewPlace(g, k, k', k.current, p);
    HeadUrgent(g, k');
  }

  lemma TaskKeys(g: Config, k: Kernel)
    requires Tasks(g, k)
    ensures k.core.tasks.Keys == g.base.Keys && k.core.run != []
  {
  }

  lemma RefSemRelease(g: Config, k: Kernel, n: nat)
    requires Inv(g, k) && n in g.semIds && PcOf(k, k.current) == Outside && Inv(g, SemRelease(k, n))
    ensures S.ReleasesSem(Abs(g, k), n, false, Abs(g, SemRelease(k, n)))
  {
    hide CoreInv, TasksOk, MutexesOk, CalloutsOk, QueuesOk, SemsOk, Tasks, TokenKept, TokenGiven;
    hide Prios, Rests, Places, Mutexes, Tokens, Events, Timers, S.First, S.Waits;
    var k', w := SemRelease(k, n), Waiters(k.core, SemObj(n));
    ReleaseFacts(g, k, n);
    if w == [] {
      KeptToken(g, k, n);
    } else {
      var k1 := TokenGiven(k, n, w[0]);
      GivenToken(g, k, n, w[0]);
      Same(g, k1, k');
      if Tk(k, k.current).prio > Tk(k, w[0]).prio {
        NewPlace(g, k1, k', k.current, Switching(w[0]));
      }
    }
  }

  lemma RefSemSignal(g: Config, k: Kernel, n: nat)
    requires Inv(g, k) && n in g.semIds && Inv(g, SemSignal(k, n))
    ensures S.ReleasesSem(Abs(g, k), n, true, Abs(g, SemSignal(k, n)))
  {
    hide CoreInv, TasksOk, MutexesOk, CalloutsOk, QueuesOk, SemsOk, Tasks, TokenKept, TokenGiven;
    hide Prios, Rests, Places, Mutexes, Tokens, Events, Timers, S.First, S.Waits, S.Urgent;
    var k', w := SemSignal(k, n), Waiters(k.core, SemObj(n));
    ReleaseFacts(g, k, n);
    if w == [] {
      KeptToken(g, k, n);
    } else {
      var k1 := TokenGiven(k, n, w[0]);
      GivenToken(g, k, n, w[0]);
      Same(g, k1, k');
      TaskKeys(g, k');
      HeadUrgent(g, k');
    }
  }

  /** The waiters as the simple machine sees them. */
  lemma ReleaseFacts(g: Config, k: Kernel, n: nat)
    requires Inv(g, k) && n in g.semIds
    ensures
      var a, w := Abs(g, k), Waiters(k.core, SemObj(n));
      && (w == [] <==> forall t :: !S.Waits(a, t, SemObj(n)))
      && (w != [] ==> S.First(a, w[0], SemObj(n)) && w[0] in g.base && w[0] in k.core.tasks && w[0] != k.current &&
                      S.Prio(a, w[0]) == Tk(k, w[0]).prio)
      && S.Prio(a, k.current) == Tk(k, k.current).prio && k.current in g.base && a.running == k.current
      && S.Tokens(a, n) == Sm(k, n).tokens
  {
    hide CoreInv, TasksOk, MutexesOk, CalloutsOk, QueuesOk, SemsOk, Abs, S.First, S.Waits, HeadRuns;
    var w := Waiters(k.core, SemObj(n));
    CurrentRuns(g, k);
    AbsObjects(g, k);
    WaitersMean(g, k, SemObj(n));
    AbsTask(g, k, k.current);
    if w != [] {
      WaitersOf(k.core, SemObj(n), w[0]);
      AbsTask(g, k, w[0]);
    }
  }

  lemma KeptToken(g: Config, k: Kernel, n: nat)
    requires n in g.semIds
    ensures Abs(g, TokenKept(k, n)) == S.SetTokens(Abs(g, k), n, S.Tokens(Abs(g, k), n) + 1)
  {
    hide Prios, Rests, Places, Mutexes, Tokens, Events, Timers;
    AbsObjects(g, k);
    Same(g, k, TokenKept(k, n));
    NewTokens(g, k, TokenKept(k, n), n, Sm(TokenKept(k, n), n));
  }

  lemma GivenToken(g: Config, k: Kernel, n: nat, r: Tid)
    requires n in g.semIds && r in g.base && r in k.core.tasks
    ensures Abs(g, TokenGiven(k, n, r)) == S.Go(S.WakeUp(Abs(g, k), r), r, PendSem(n, true))
  {
    hide Prios, Rests, Places, Mutexes, Tokens, Events, Timers, Wake;
    var k' := TokenGiven(k, n, r);
    WakeTasks(k.core, r);
    Same(g, k, k');
    NewTokens(g, k, k', n, Sm(k', n));
    NewPlace(g, k, k', r, PendSem(n, true));
    NewWoken(g, k, k', r);
    TokensKept(g, k, n);
  }

  lemma TokensKept(g: Config, k: Kernel, n: nat)
    requires n in g.semIds
    ensures Tokens(g, k)[n := Sm(k, n).tokens] == Tokens(g, k)
  {
  }

  // ------------------------------------------------------------ mutexes

  lemma RefMutexPend(g: Config, k: Kernel, m: nat, timeout: nat)
    requires Inv(g, k) && MayPend(g, k, m, timeout) && k.current in k.core.tasks
    requires Mu(k, m).owner.Owned? ==> Mu(k, m).owner.t in k.core.tasks
    requires Inv(g, After(MutexPend(k, m, timeout)))
    ensures S.PendsMutex(Abs(g, k), m, timeout, Abs(g, After(MutexPend(k, m, timeout))))
  {
    hide InvAt, Block, Inherit, TakeMutex, Abs, S.Rescheduled, S.Lend, S.Sleep, S.SetMutex;
    var mu := Mu(k, m);
    InvCore(g, k);
    AbsObjects(g, k);
    AbsTask(g, k, k.current);
    if mu.level == 0 {
      TakenMutex(g, k, m, Mutex(Owned(k.current), 1, Tk(k, k.current).prio));
    } else if mu.owner == Owned(k.current) {
      TakenMutex(g, k, m, mu.(level := mu.level + 1));
    } else if timeout != 0 {
      WaitsNow(g, k, m, timeout);
    }
  }

  lemma TakenMutex(g: Config, k: Kernel, m: nat, mu: Mutex)
    requires m in g.mutexIds
    ensures Abs(g, TakeMutex(k, m, mu)) == S.SetMutex(Abs(g, k), m, mu)
  {
    hide Prios, Rests, Places, Mutexes, Tokens, Events, Timers;
    Same(g, k, TakeMutex(k, m, mu));
    NewMutex(g, k, TakeMutex(k, m, mu), m, mu);
  }

  lemma WaitsNow(g: Config, k: Kernel, m: nat, timeout: nat)
    requires Inv(g, k) && m in g.mutexIds && k.current in k.core.tasks && Mu(k, m).level > 0
    requires Mu(k, m).owner.Owned? ==> Mu(k, m).owner.t in k.core.tasks
    requires Mu(k, m).owner != Owned(k.current) && timeout != 0 && Inv(g, After(MutexPend(k, m, timeout)))
    ensures S.Rescheduled(S.Sleep(S.Lend(Abs(g, k), m), timeout, MutexObj(m), PendMutex(m)),
                          Abs(g, After(MutexPend(k, m, timeout))))
  {
    hide InvAt, Tasks, CoreInv, Block, Inherit, Abs, S.Lend, S.Sleep, S.Rescheduled;
    var k1, k' := k.(core := Inherit(k, Mu(k, m))), After(MutexPend(k, m, timeout));
    InvCore(g, k);
    InvCore(g, k');
    InvParts(g, k);
    Lent(g, k, m);
    SleptNow(g, k1, k', timeout, MutexObj(m), PendMutex(m));
  }

  lemma Lent(g: Config, k: Kernel, m: nat)
    requires Tasks(g, k) && m in g.mutexIds && k.current in g.base
    requires Mu(k, m).owner.Owned? ==> Mu(k, m).owner.t in k.core.tasks
    ensures Abs(g, k.(core := Inherit(k, Mu(k, m)))) == S.Lend(Abs(g, k), m)
    ensures Inherit(k, Mu(k, m)).tasks.Keys == k.core.tasks.Keys
  {
    hide Prios, Rests, Places, Mutexes, Tokens, Events, Timers, Insert, Remove, HeadRuns;
    var k1, mu := k.(core := Inherit(k, Mu(k, m))), Mu(k, m);
    AbsObjects(g, k);
    AbsTask(g, k, k.current);
    Same(g, k, k1);
    if mu.owner.Owned? {
      AbsTask(g, k, mu.owner.t);
      if Tk(k, mu.owner.t).prio > Tk(k, k.current).prio {
        NewPrio(g, k, k1, mu.owner.t, Tk(k, k.current).prio);
      }
    }
  }

  lemma RefMutexDrop(g: Config, k: Kernel, m: nat)
    requires Inv(g, k) && m in g.mutexIds && PcOf(k, k.current) == Outside
    ensures S.DropsMutex(Abs(g, k), m, Abs(g, MutexDrop(k, m).0))
  {
    hide InvAt, CoreInv, Prios, Rests, Places, Mutexes, Tokens, Events, Timers;
    var k', mu := MutexDrop(k, m).0, Mu(k, m);
    InvCore(g, k);
    AbsObjects(g, k);
    Same(g, k, k');
    if mu.level > 0 && mu.owner == Owned(k.current) {
      NewMutex(g, k, k', m, mu.(level := mu.level - 1));
      if mu.level == 1 {
        NewPlace(g, k, k', k.current, Releasing(m));
      }
    }
  }

  lemma RefMutexGive(g: Config, k: Kernel, m: nat)
    requires Inv(g, k) && PcOf(k, k.current) == Releasing(m) && k.current in k.core.tasks && Inv(g, MutexGive(k, m))
    ensures S.GivesMutex(Abs(g, k), m, Abs(g, MutexGive(k, m)))
  {
    hide InvAt, CoreInv, TaskOk, Restore, Freed, HandedOver, Leaves, Abs, S.Leaves, S.Waits, S.First, S.SetMutex,
        S.WakeUp;
    var a, b, mu := Abs(g, k), Abs(g, k.(core := Restore(k, Mu(k, m)))), Mu(k, m);
    var c := Restore(k, mu);
    var w := Waiters(c, MutexObj(m));
    InvCore(g, k);
    GiveReady(g, k, m);
    GiveFacts(g, k, m);
    if w == [] {
      FreedIs(g, k, k.(core := c), m, Freed(k, m, c));
      LeavesNow(g, Freed(k, m, c));
    } else {
      var r := w[0];
      HandedIs(g, k, k.(core := c), m, r, HandedOver(k, m, c, r));
      LeavesNow(g, HandedOver(k, m, c, r));
      assert S.First(b, r, MutexObj(m)) &&
        S.Leaves(S.WakeUp(S.SetMutex(b, m, Mutex(Owned(r), 1, S.Prio(b, r))), r), Abs(g, MutexGive(k, m)));
    }
  }

  lemma GiveFacts(g: Config, k: Kernel, m: nat)
    requires k.current in k.core.tasks && k.core.tasks.Keys == g.base.Keys && m in g.mutexIds
    requires CoreInv(Restore(k, Mu(k, m)), 1)
    ensures S.MutexIn(Abs(g, k), m) == Mu(k, m)
    ensures
      var c := Restore(k, Mu(k, m));
      var b, w := Abs(g, k.(core := c)), Waiters(c, MutexObj(m));
      && b == Abs(g, k).(prio := Abs(g, k).prio[Abs(g, k).running := Mu(k, m).prio])
      && (w == [] <==> forall t :: !S.Waits(b, t, MutexObj(m)))
      && (w != [] ==> S.First(b, w[0], MutexObj(m)) && w[0] in g.base && w[0] in c.tasks)
  {
    hide CoreInv, Restore, Abs, S.Waits, S.First;
    var k1 := k.(core := Restore(k, Mu(k, m)));
    var w := Waiters(k1.core, MutexObj(m));
    RestoreTasks(k, Mu(k, m));
    AbsObjects(g, k);
    RestoredPrio(g, k, Mu(k, m), k1);
    WaitersMean(g, k1, MutexObj(m));
    if w != [] {
      WaitersOf(k1.core, MutexObj(m), w[0]);
    }
  }

  lemma RestoredPrio(g: Config, k: Kernel, mu: Mutex, k1: Kernel)
    requires k.current in g.base && k.current in k.core.tasks && k1 == k.(core := Restore(k, mu))
    ensures Abs(g, k1) == Abs(g, k).(prio := Abs(g, k).prio[k.current := mu.prio])
  {
    hide Rests, Places, Mutexes, Tokens, Events, Timers, Restore, Prios;
    RestoreTasks(k, mu);
    Same(g, k, k1);
    NewPrio(g, k, k1, k.current, mu.prio);
  }

  lemma FreedIs(g: Config, k: Kernel, k1: Kernel, m: nat, k2: Kernel)
    requires m in g.mutexIds && k2 == Freed(k, m, k1.core) && k1 == k.(core := k1.core)
    ensures Abs(g, k2) == S.SetMutex(Abs(g, k1), m, Mu(k, m).(owner := NoOwner)) && k2.current == k.current
  {
    hide Prios, Rests, Places, Mutexes, Tokens, Events, Timers;
    Same(g, k1, k2);
    NewMutex(g, k1, k2, m, Mu(k, m).(owner := NoOwner));
  }

  lemma HandedIs(g: Config, k: Kernel, k1: Kernel, m: nat, r: Tid, k2: Kernel)
    requires m in g.mutexIds && r in g.base && r in k1.core.tasks && k2 == HandedOver(k, m, k1.core, r)
    requires k1 == k.(core := k1.core)
    ensures Abs(g, k2) == S.WakeUp(S.SetMutex(Abs(g, k1), m, Mutex(Owned(r), 1, S.Prio(Abs(g, k1), r))), r)
    ensures k2.current == k.current
  {
    hide Prios, Rests, Places, Mutexes, Tokens, Events, Timers, Wake;
    AbsTask(g, k1, r);
    WakeTasks(k1.core, r);
    Same(g, k1, k2);
    NewWoken(g, k1, k2, r);
    NewMutex(g, k1, k2, m, Mutex(Owned(r), 1, Tk(k1, r).prio));
  }

  lemma LeavesNow(g: Config, k2: Kernel)
    requires Inv(g, Leaves(k2)) && k2.current in g.base
    ensures S.Leaves(Abs(g, k2), Abs(g, Leaves(k2)))
  {
    hide Prios, Rests, Places, Mutexes, Tokens, Events, Timers, S.Urgent, InvAt;
    var k' := Leaves(k2);
    InvCore(g, k');
    HeadUrgent(g, k2);
    Same(g, k2, k');
    NewPlace(g, k2, k', k2.current, PcOf(k', k2.current));
    var u := k2.core.run[0];
    assert S.Urgent(Abs(g, k2), u) &&
      Abs(g, k') == S.Go(Abs(g, k2), k2.current, if u == k2.current then Outside else Switching(u));
  }

  lemma InvCore(g: Config, k: Kernel)
    requires Inv(g, k)
    ensures CoreInv(k.core, 1) && k.core.tasks.Keys == g.base.Keys && k.core.run != []
    ensures k.current in g.base && k.current in k.core.tasks
  {
    hide CoreInv, TasksOk, MutexesOk, CalloutsOk, QueuesOk, SemsOk;
    CurrentRuns(g, k);
  }

  /** The rest of a call that has slept, or of a release. */
  lemma RefOutside(g: Config, k: Kernel, k': Kernel)
    requires Inv(g, k) && k'.pc == k.pc[k.current := Outside]
    requires k'.core == k.core && k'.mutexes == k.mutexes && k'.sems == k.sems && k'.queues == k.queues
    requires k'.callList == k.callList && k'.callouts == k.callouts
    ensures Abs(g, k') == S.Go(Abs(g, k), k.current, Outside).(running := k'.current)
  {
    hide Prios, Rests, Places, Mutexes, Tokens, Events, Timers, InvAt;
    InvCore(g, k);
    Same(g, k, k');
    NewPlace(g, k, k', k.current, Outside);
  }

  // ------------------------------------------------------------ events

  lemma QueuedIs(g: Config, k: Kernel, e: nat)
    requires QueuesOk(g, k) && e in g.home && g.home[e] in g.consumer
    ensures e in k.queued <==> e in Evs(Qu(k, g.home[e]).list)
  {
    hide WaiterOk;
    var list := Qu(k, g.home[e]).list;
    assert QueueOk(g, g.home[e], Qu(k, g.home[e]), k.queued);
    if e in k.queued {
      assert EventOk(g, k, e);
      var x :| x in list && x.ev == e;
      var i :| 0 <= i < |list| && list[i] == x;
      assert Evs(list)[i] == e;
    }
    if e in Evs(list) {
      var i :| 0 <= i < |list| && Evs(list)[i] == e;
      assert list[i] in list;
    }
  }

  /** A queue knows its consumer to be waiting exactly if it sleeps in a get. */
  lemma StarvedIs(g: Config, k: Kernel, q: nat)
    requires Tasks(g, k) && TasksOk(g, k) && QueuesOk(g, k) && q in g.consumer && g.consumer[q] in g.base
    ensures S.Starved(g, Abs(g, k), q) <==> Qu(k, q).task.WaiterTask?
    ensures Qu(k, q).task.WaiterTask? ==> Qu(k, q).task == WaiterTask(g.consumer[q])
  {
    hide Abs, QueueOk, HeadRuns;
    var t := g.consumer[q];
    AbsTask(g, k, t);
    assert TaskOk(g, k, t) && WaiterOk(g, k, q);
    if Qu(k, q).task.WaiterTask? {
      assert TaskOk(g, k, Qu(k, q).task.t);
    }
  }

  lemma RefPut(g: Config, k: Kernel, e: nat)
    requires Inv(g, k) && e in g.home && g.home[e] in g.consumer && g.consumer[g.home[e]] in g.base
    requires Inv(g, EvPut(k, HomeOf(g, e), e))
    ensures S.PutsEvent(g, Abs(g, k), e, Abs(g, EvPut(k, HomeOf(g, e), e)))
  {
    hide InvAt, CoreInv, TasksOk, Tasks, QueuesOk, EvPut, Abs, S.Rescheduled, S.Starved, S.SetEvents, S.WakeUp;
    var q := g.home[e];
    AbsObjects(g, k);
    InvParts(g, k);
    QueuedIs(g, k, e);
    if e !in k.queued {
      StarvedIs(g, k, q);
      if Qu(k, q).task.WaiterTask? {
        PutWakes(g, k, q, e);
      } else {
        PutOnly(g, k, q, e);
      }
    } else {
      assert EvPut(k, q, e) == k by { PutNothing(k, q, e); }
    }
  }

  lemma InvParts(g: Config, k: Kernel)
    requires Inv(g, k)
    ensures CoreInv(k.core, 1) && Tasks(g, k) && TasksOk(g, k) && MutexesOk(g, k) && SemsOk(g, k) && QueuesOk(g, k)
    ensures CalloutsOk(g, k.callList, k.callouts, k.core.clock, 1)
  {
  }

  lemma PutNothing(k: Kernel, q: nat, e: nat)
    requires e in k.queued
    ensures EvPut(k, q, e) == k
  {
  }

  lemma EvsAppend(list: seq<Entry>, e: nat, n: nat)
    ensures Evs(list + [Entry(e, n)]) == Evs(list) + [e]
  {
  }

  lemma PutOnly(g: Config, k: Kernel, q: nat, e: nat)
    requires q in g.consumer && e !in k.queued && !Qu(k, q).task.WaiterTask?
    ensures Abs(g, EvPut(k, q, e)) == S.SetEvents(Abs(g, k), q, S.Events(Abs(g, k), q) + [e])
  {
    hide Prios, Rests, Places, Mutexes, Tokens, Events, Timers, Evs;
    AbsObjects(g, k);
    Same(g, k, EvPut(k, q, e));
    NewEvents(g, k, EvPut(k, q, e), q, PutQueue(Qu(k, q), e));
    EvsAppend(Qu(k, q).list, e, Qu(k, q).next);
  }

  lemma PutWakes(g: Config, k: Kernel, q: nat, e: nat)
    requires q in g.consumer && e !in k.queued && Qu(k, q).task == WaiterTask(g.consumer[q]) && g.consumer[q] in g.base
    requires Inv(g, k) && Inv(g, EvPut(k, q, e))
    ensures S.Rescheduled(S.WakeUp(S.SetEvents(Abs(g, k), q, S.Events(Abs(g, k), q) + [e]), g.consumer[q]),
                          Abs(g, EvPut(k, q, e)))
  {
    hide Prios, Rests, Places, Mutexes, Tokens, Events, Timers, Evs, InvAt, Wake, S.Urgent, CoreInv;
    var w, k' := g.consumer[q], EvPut(k, q, e);
    InvCore(g, k);
    InvCore(g, k');
    AbsObjects(g, k);
    Same(g, k, k');
    WakeTasks(k.core, w);
    NewWoken(g, k, k', w);
    NewEvents(g, k, k', q, PutQueue(Qu(k, q), e));
    EvsAppend(Qu(k, q).list, e, Qu(k, q).next);
    HeadUrgent(g, k');
  }

  lemma RefGet(g: Config, k: Kernel, q: nat)
    requires Inv(g, k) && MayGet(g, k, q) && k.current in k.core.tasks && Inv(g, EvGet(k, q).k)
    ensures S.GetsEvent(Abs(g, k), q, Abs(g, EvGet(k, q).k))
  {
    hide InvAt, EvGet, Abs, S.Rescheduled, S.Sleep, S.Go, S.SetEvents;
    AbsObjects(g, k);
    InvCore(g, k);
    if Qu(k, q).list != [] {
      GotFirst(g, k, q);
    } else {
      GotNone(g, k, q);
    }
  }

  lemma GotFirst(g: Config, k: Kernel, q: nat)
    requires q in g.consumer && k.current in g.base && k.current in k.core.tasks && Qu(k, q).list != []
    ensures Abs(g, EvGet(k, q).k) ==
            S.Go(S.SetEvents(Abs(g, k), q, S.Events(Abs(g, k), q)[1..]), k.current, Outside)
  {
    hide Prios, Rests, Places, Mutexes, Tokens, Events, Timers, Evs;
    var u, k' := Qu(k, q), EvGet(k, q).k;
    AbsObjects(g, k);
    Same(g, k, k');
    NewEvents(g, k, k', q, Qu(k', q));
    NewPlace(g, k, k', k.current, Outside);
    EvsTail(u.list);
  }

  lemma EvsTail(list: seq<Entry>)
    requires list != []
    ensures Evs(list[1..]) == Evs(list)[1..]
  {
  }

  lemma GotNone(g: Config, k: Kernel, q: nat)
    requires q in g.consumer && k.current in g.base && k.current in k.core.tasks && Qu(k, q).list == []
    requires Inv(g, EvGet(k, q).k)
    ensures S.Rescheduled(S.Sleep(Abs(g, k), OS_TIMEOUT_NEVER, NoObj, GetEvent(q)), Abs(g, EvGet(k, q).k))
  {
    hide Prios, Rests, Places, Mutexes, Tokens, Events, Timers, InvAt, Block, S.Rescheduled;
    var u, k' := Qu(k, q), EvGet(k, q).k;
    var k1 := k.(queues := k.queues[q := u.(task := WaiterTask(k.current))]);
    InvCore(g, k');
    Same(g, k, k1);
    NewEvents(g, k, k1, q, u.(task := WaiterTask(k.current)));
    SameEventsAt(g, k, q);
    SleptNow(g, k1, k', OS_TIMEOUT_NEVER, NoObj, GetEvent(q));
  }

  lemma SameEventsAt(g: Config, k: Kernel, q: nat)
    requires q in g.consumer
    ensures Events(g, k)[q := Evs(Qu(k, q).list)] == Events(g, k)
  {
  }

  lemma {:induction false} ExceptIs(list: seq<Entry>, lo: nat, hi: nat, e: nat)
    requires Serials(list, lo, hi)
    ensures Evs(Without(list, e)) == S.Except(Evs(list), e)
    decreases |list|
  {
    if list != [] {
      assert Evs(list)[1..] == Evs(list[1..]);
      if list[0].ev == e {
        ExceptNone(list[1..], e);
      } else {
        ExceptIs(list[1..], list[0].serial + 1, hi, e);
        assert Evs([list[0]] + Without(list[1..], e)) == [list[0].ev] + Evs(Without(list[1..], e));
      }
    }
  }

  lemma {:induction false} ExceptNone(list: seq<Entry>, e: nat)
    requires NotIn(list, e)
    ensures S.Except(Evs(list), e) == Evs(list)
    decreases |list|
  {
    if list != [] {
      assert list[0] in list;
      assert Evs(list)[1..] == Evs(list[1..]);
      ExceptNone(list[1..], e);
      assert Evs(list) == [list[0].ev] + Evs(list[1..]);
    }
  }

  /** An event that is not queued is not there to be taken out. */
  lemma RefRemove(g: Config, k: Kernel, e: nat)
    requires QueuesOk(g, k) && e in g.home && g.home[e] in g.consumer
    ensures Abs(g, EvRemove(k, HomeOf(g, e), e)) == S.RemoveEvent(g, Abs(g, k), e)
  {
    hide Prios, Rests, Places, Mutexes, Tokens, Events, Timers, WaiterOk, EventOk, Without, Serials, NotIn;
    var q := g.home[e];
    var u, k' := Qu(k, q), EvRemove(k, q, e);
    AbsObjects(g, k);
    assert QueueOk(g, q, u, k.queued);
    Same(g, k, k');
    if e in k.queued {
      NewEvents(g, k, k', q, Qu(k', q));
      ExceptIs(u.list, u.got, u.next, e);
    } else {
      QueuedIs(g, k, e);
      NotQueued(u.list, e);
      ExceptNone(u.list, e);
      SameEventsAt(g, k, q);
    }
  }

  lemma NotQueued(list: seq<Entry>, e: nat)
    requires e !in Evs(list)
    ensures NotIn(list, e)
  {
    forall x | x in list
      ensures x.ev != e
    {
      var i :| 0 <= i < |list| && list[i] == x;
      assert Evs(list)[i] == x.ev;
    }
  }

  // ------------------------------------------------------------ callouts

  lemma RefStop(g: Config, k: Kernel, c: nat)
    requires Inv(g, k) && c in g.event
    ensures Abs(g, CalloutStop(g, k, c)) == S.StopTimer(g, Abs(g, k), c)
  {
    hide InvAt, QueuesOk, CoreInv, CalloutsOk, Tasks, TasksOk, EvRemove, Abs, S.RemoveEvent;
    var k1 := k.(callList := Remove(k.callList, c));
    InvParts(g, k);
    HomesOk(g, k, 1);
    StoppedTimer(g, k, k1, c);
    ListOnly(g, k, k1);
    RefRemove(g, k1, EventOf(g, c));
  }

  lemma StoppedTimer(g: Config, k: Kernel, k1: Kernel, c: nat)
    requires CalloutsOk(g, k.callList, k.callouts, k.core.clock, 1) && k1 == k.(callList := Remove(k.callList, c))
    ensures Abs(g, k1) == Abs(g, k).(timers := Abs(g, k).timers - {c})
  {
    hide Prios, Rests, Places, Mutexes, Tokens, Events, CalloutsOk;
    Same(g, k, k1);
    ListShrinks(g, k.callList, k.callouts, k.core.clock, 1, c);
    assert forall x :: Left(k1, x) == Left(k, x);
  }

  lemma RefReset(g: Config, k: Kernel, c: nat, ticks: int)
    requires Inv(g, k) && c in g.event && ticks < 0x8000_0000
    ensures Abs(g, CalloutReset(g, k, c, ticks).0) == S.ResetTimer(g, Abs(g, k), c, ticks)
  {
    hide InvAt, CalloutStop, S.StopTimer, Prios, Rests, Places, Mutexes, Tokens, Events, Timers, Insert;
    if ticks >= 0 {
      RefStop(g, k, c);
      var k1, k' := CalloutStop(g, k, c), CalloutReset(g, k, c, ticks).0;
      Same(g, k1, k');
      NewTimer(k1, k', c, if ticks == 0 then 1 else ticks);
    }
  }

  lemma NewTimer(k: Kernel, k': Kernel, c: nat, n: nat)
    requires k'.core.clock == k.core.clock && k'.callList == Insert(CallKeys(k'.callouts), k.callList, c)
    requires c in k'.callouts && k'.callouts == k.callouts[c := k'.callouts[c]]
    requires k'.callouts[c].due == k.core.clock + n
    ensures Timers(k') == Timers(k)[c := n]
  {
    hide Insert, CallKeys;
    InsertElems(CallKeys(k'.callouts), k.callList, c);
    assert forall x :: x != c ==> Left(k', x) == Left(k, x);
  }

  lemma RefDelay(g: Config, k: Kernel, ticks: nat)
    requires k.current in k.core.tasks && PcOf(k, k.current) == Outside && Inv(g, k) && Inv(g, Delay(k, ticks))
    ensures S.Rescheduled(S.Sleep(Abs(g, k), ticks, NoObj, Outside), Abs(g, Delay(k, ticks)))
  {
    hide InvAt, Block, Abs, S.Rescheduled, S.Sleep;
    InvCore(g, k);
    InvCore(g, Delay(k, ticks));
    PlaceStays(g, k);
    SleptNow(g, k, Delay(k, ticks), ticks, NoObj, Outside);
  }

  lemma PlaceStays(g: Config, k: Kernel)
    requires Inv(g, k)
    ensures k.current in k.pc && k.pc[k.current := PcOf(k, k.current)] == k.pc
  {
    hide CoreInv, TasksOk, MutexesOk, CalloutsOk, QueuesOk, SemsOk;
    CurrentRuns(g, k);
  }

  // ------------------------------------------------------------ the tick

  /** What firing callouts does to queues and tasks: events are added behind those that are queued, and a
      consumer that waits for one is awake. */
  ghost predicate FireEffect(k: Kernel, k': Kernel) {
    && k'.pc == k.pc && k'.mutexes == k.mutexes && k'.sems == k.sems && k'.callouts == k.callouts
    && k'.core.clock == k.core.clock && k'.core.tasks.Keys == k.core.tasks.Keys
    && (forall q :: Qu(k, q).list <= Qu(k', q).list)
    && forall t :: FireTask(k, k', t)
  }

  ghost predicate FireTask(k: Kernel, k': Kernel, t: Tid) {
    Tk(k', t) == if Fed(k, k', t) then Task(Tk(k, t).prio, false, false, 0, 0, NoObj) else Tk(k, t)
  }

  /** The task waits for an event, and there is one now. */
  ghost predicate Fed(k: Kernel, k': Kernel, t: Tid) {
    t in k.core.tasks && PcOf(k, t).GetEvent? && Tk(k, t).sleeping && Qu(k', PcOf(k, t).q).list != []
  }

  /** A consumer sleeps only while its queue is empty, and the queue knows. */
  lemma AsleepEmpty(g: Config, k: Kernel, s: nat, c: nat, t: Tid)
    requires InvAt(g, k, s, c) && t in k.core.tasks && PcOf(k, t).GetEvent? && Tk(k, t).sleeping
    ensures Qu(k, PcOf(k, t).q).list == [] && Qu(k, PcOf(k, t).q).task == WaiterTask(t)
  {
    hide CoreInv, MutexesOk, CalloutsOk, SemsOk, NotIn, Serials, HeadRuns;
    assert TaskOk(g, k, t);
    assert QueueOk(g, PcOf(k, t).q, Qu(k, PcOf(k, t).q), k.queued);
  }

  lemma FireSelf(g: Config, k: Kernel, s: nat, c: nat)
    requires InvAt(g, k, s, c)
    ensures FireEffect(k, k)
  {
    hide InvAt;
    forall t
      ensures FireTask(k, k, t)
    {
      if t in k.core.tasks && PcOf(k, t).GetEvent? && Tk(k, t).sleeping {
        AsleepEmpty(g, k, s, c, t);
      }
    }
  }

  lemma FireTrans(k: Kernel, k1: Kernel, k2: Kernel)
    requires FireEffect(k, k1) && FireEffect(k1, k2)
    ensures FireEffect(k, k2)
  {
    forall q
      ensures Qu(k, q).list <= Qu(k2, q).list
    {
      assert Qu(k, q).list <= Qu(k1, q).list && Qu(k1, q).list <= Qu(k2, q).list;
    }
    forall t
      ensures FireTask(k, k2, t)
    {
      assert FireTask(k, k1, t) && FireTask(k1, k2, t);
      assert PcOf(k1, t) == PcOf(k, t);
      if PcOf(k, t).GetEvent? {
        assert Qu(k1, PcOf(k, t).q).list <= Qu(k2, PcOf(k, t).q).list;
      }
    }
  }

  lemma PutEffect(g: Config, k: Kernel, e: nat, s: nat, c: nat)
    requires InvAt(g, k, s, c) && e in g.home && g.home[e] in g.consumer
    ensures FireEffect(k, EvPut(k, g.home[e], e))
  {
    hide InvAt, Wake, FireTask, EvPut, Qu, PutQueue;
    var q := g.home[e];
    var k' := EvPut(k, q, e);
    if e in k.queued {
      FireSelf(g, k, s, c);
      PutNothing(k, q, e);
    } else {
      PutLists(k, q, e);
      PutQueuesGrow(k, k', q, e);
      if Qu(k, q).task.WaiterTask? && Qu(k, q).task.t in k.core.tasks {
        WakeSame(k.core, Qu(k, q).task.t);
      }
      forall t
        ensures FireTask(k, k', t)
      {
        PutTask(g, k, e, s, c, t);
      }
    }
  }

  /** What a put of an event that is not queued leaves, and what it does. */
  lemma PutLists(k: Kernel, q: nat, e: nat)
    requires e !in k.queued
    ensures
      var k' := EvPut(k, q, e);
      && k'.pc == k.pc && k'.mutexes == k.mutexes && k'.sems == k.sems && k'.callouts == k.callouts
      && k'.queues == k.queues[q := PutQueue(Qu(k, q), e)]
      && k'.core == if Qu(k, q).task.WaiterTask? && Qu(k, q).task.t in k.core.tasks then Wake(k.core, Qu(k, q).task.t)
                    else k.core
  {
    hide Wake;
  }

  lemma PutQueuesGrow(k: Kernel, k': Kernel, q: nat, e: nat)
    requires k'.queues == k.queues[q := PutQueue(Qu(k, q), e)]
    ensures Qu(k', q).list != [] && forall p :: Qu(k, p).list <= Qu(k', p).list && (p != q ==> Qu(k', p) == Qu(k, p))
  {
  }

  lemma WakeSame(c: Core, t: Tid)
    requires t in c.tasks
    ensures Wake(c, t).tasks.Keys == c.tasks.Keys && Wake(c, t).clock == c.clock
  {
    hide Wake;
    WakeTasks(c, t);
  }

  lemma PutTask(g: Config, k: Kernel, e: nat, s: nat, c: nat, t: Tid)
    requires InvAt(g, k, s, c) && e in g.home && g.home[e] in g.consumer && e !in k.queued
    ensures FireTask(k, EvPut(k, g.home[e], e), t)
  {
    hide InvAt, Wake, EvPut, Qu, PutQueue;
    var q := g.home[e];
    var u, k' := Qu(k, q), EvPut(k, q, e);
    PutLists(k, q, e);
    PutQueuesGrow(k, k', q, e);
    if t in k.core.tasks && PcOf(k, t).GetEvent? && Tk(k, t).sleeping {
      AsleepEmpty(g, k, s, c, t);
    }
    if u.task.WaiterTask? {
      WaiterWaits(g, k, q, s, c);
      WakeTasks(k.core, u.task.t);
    }
  }

  lemma WaiterWaits(g: Config, k: Kernel, q: nat, s: nat, c: nat)
    requires InvAt(g, k, s, c) && q in g.consumer && Qu(k, q).task.WaiterTask?
    ensures
      var t := Qu(k, q).task.t;
      t in k.core.tasks && PcOf(k, t) == GetEvent(q) && Tk(k, t).sleeping
  {
    hide CoreInv, MutexesOk, CalloutsOk, SemsOk, TasksOk, QueueOk, HeadRuns;
    assert WaiterOk(g, k, q);
  }

  lemma {:induction false} FireEffects(g: Config, k: Kernel, s: nat)
    requires InvAt(g, k, s, 0)
    ensures FireEffect(k, FireDue(g, k))
    decreases |k.callList|
  {
    hide InvAt, EvPut, FireEffect, CoreInv;
    if k.callList != [] && CalloutDue(k, k.callList[0]) {
      var e := EventOf(g, k.callList[0]);
      var k0 := k.(callList := k.callList[1..]);
      PopHead(g, k, s);
      CalloutHome(g, k, s, k.callList[0]);
      EvPutKeeps(g, k0, HomeOf(g, e), e, s, 0);
      PutLeaves(k0, HomeOf(g, e), e);
      var k1 := EvPut(k0, HomeOf(g, e), e);
      PutEffect(g, k0, e, s, 0);
      ListIgnored(k, k0, k1);
      FireEffects(g, k1, s);
      FireTrans(k, k1, FireDue(g, k));
    } else {
      FireSelf(g, k, s, 0);
    }
  }

  lemma ListIgnored(k: Kernel, k0: Kernel, k1: Kernel)
    requires FireEffect(k0, k1) && k0 == k.(callList := k0.callList)
    ensures FireEffect(k, k1)
  {
    forall t
      ensures FireTask(k, k1, t)
    {
      assert FireTask(k0, k1, t);
    }
    forall q
      ensures Qu(k, q).list <= Qu(k1, q).list
    {
      assert Qu(k0, q).list <= Qu(k1, q).list;
    }
  }

  lemma CalloutHome(g: Config, k: Kernel, s: nat, c: nat)
    requires InvAt(g, k, s, 0) && c in g.event
    ensures EventOf(g, c) in g.home && g.home[EventOf(g, c)] in g.consumer
    ensures HomeOf(g, EventOf(g, c)) == g.home[EventOf(g, c)]
  {
    hide CoreInv, TasksOk, MutexesOk, QueuesOk, SemsOk, Tasks;
    HomesOk(g, k, 0);
  }

  lemma {:induction false} SerialsNoDup(list: seq<Entry>, lo: nat, hi: nat)
    requires Serials(list, lo, hi)
    ensures NoDup(Evs(list))
    decreases |list|
  {
    if list != [] {
      SerialsNoDup(list[1..], list[0].serial + 1, hi);
      EvsTail(list);
    }
  }

  /** The events that a tick adds to a queue. */
  lemma TickEvents(g: Config, k: Kernel, k1: Kernel, q: nat)
    requires InvAt(g, k, 0, 0) && InvAt(g, k1, 0, 1) && Fired(g, k, k1) && FireEffect(k, k1) && q in g.consumer
    ensures
      var old_, list := Evs(Qu(k, q).list), Evs(Qu(k1, q).list);
      && old_ <= list && NoDup(list[|old_|..])
      && forall e :: e in list[|old_|..] <==> e !in old_ && HomeOf(g, e) == q && DueEvent(g, k, e)
  {
    hide CoreInv, TasksOk, MutexesOk, SemsOk, Tasks, CalloutsOk, FireTask, QueuesOk, NoDup, Fired;
    var a, b := Evs(Qu(k, q).list), Evs(Qu(k1, q).list);
    assert Qu(k, q).list <= Qu(k1, q).list;
    EvsPrefix(Qu(k, q).list, Qu(k1, q).list);
    QueueNoDup(g, k1, q);
    NoDupJoin(a, b[|a|..]);
    assert a + b[|a|..] == b;
    forall e
      ensures e in b[|a|..] <==> e !in a && HomeOf(g, e) == q && DueEvent(g, k, e)
    {
      assert e in b <==> e in a || e in b[|a|..];
      TickEvent(g, k, k1, q, e);
    }
  }

  lemma EvsPrefix(list: seq<Entry>, list': seq<Entry>)
    requires list <= list'
    ensures Evs(list) <= Evs(list')
  {
  }

  lemma QueueNoDup(g: Config, k: Kernel, q: nat)
    requires QueuesOk(g, k) && q in g.consumer
    ensures NoDup(Evs(Qu(k, q).list))
  {
    assert QueueOk(g, q, Qu(k, q), k.queued);
    SerialsNoDup(Qu(k, q).list, Qu(k, q).got, Qu(k, q).next);
  }

  ghost predicate DueEvent(g: Config, k: Kernel, e: nat) {
    exists c :: c in k.callList && CalloutDue(k, c) && e == EventOf(g, c)
  }

  lemma TickEvent(g: Config, k: Kernel, k1: Kernel, q: nat, e: nat)
    requires QueuesOk(g, k) && QueuesOk(g, k1) && CalloutsOk(g, k.callList, k.callouts, k.core.clock, 0)
    requires Fired(g, k, k1) && q in g.consumer && Evs(Qu(k, q).list) <= Evs(Qu(k1, q).list)
    ensures
      var a, b := Evs(Qu(k, q).list), Evs(Qu(k1, q).list);
      e in b && e !in a <==> e !in a && HomeOf(g, e) == q && DueEvent(g, k, e)
  {
    hide QueuesOk, CalloutsOk;
    HomesOk(g, k, 0);
    EventHome(g, k1, q, e);
    if DueEvent(g, k, e) {
      var c :| c in k.callList && CalloutDue(k, c) && e == EventOf(g, c);
      ListedKnown(g, k, c);
    }
    if e in g.home && g.home[e] in g.consumer {
      QueuedIs(g, k, e);
      QueuedIs(g, k1, e);
    }
  }

  lemma ListedKnown(g: Config, k: Kernel, c: nat)
    requires CalloutsOk(g, k.callList, k.callouts, k.core.clock, 0) && c in k.callList
    ensures c in g.event
  {
    hide Sorted, NoDup;
  }

  lemma EventHome(g: Config, k: Kernel, q: nat, e: nat)
    requires QueuesOk(g, k) && q in g.consumer
    ensures e in Evs(Qu(k, q).list) ==> e in g.home && g.home[e] == q && e in k.queued
  {
    hide Serials;
    var list := Qu(k, q).list;
    assert QueueOk(g, q, Qu(k, q), k.queued);
    if e in Evs(list) {
      var i :| 0 <= i < |list| && Evs(list)[i] == e;
      assert list[i] in list;
    }
  }

  /** The kernel in the middle of a tick: time has gone on, and the callouts have fired. */
  ghost function Midway(g: Config, k: Kernel): Kernel {
    FireDue(g, k.(core := Advance(k.core)))
  }

  ghost predicate TickParts(g: Config, k: Kernel, k0: Kernel, k1: Kernel, k': Kernel) {
    && k0 == k.(core := Advance(k.core)) && FireEffect(k0, k1) && Fired(g, k0, k1)
    && k' == k1.(core := k'.core, current := k'.current) && k'.core.clock == k.core.clock + 1
    && forall t :: Expired(k1.core, k'.core, t)
  }

  lemma TickFacts(g: Config, k: Kernel)
    requires Inv(g, k)
    ensures InvAt(g, k.(core := Advance(k.core)), 0, 0) && InvAt(g, Midway(g, k), 0, 1) && Inv(g, Tick(g, k))
    ensures TickParts(g, k, k.(core := Advance(k.core)), Midway(g, k), Tick(g, k))
  {
    hide InvAt, FireDue, WakeDue, Fired, FireEffect, Expired, Placed;
    ClockOnly(g, k);
    var k0 := k.(core := Advance(k.core));
    FireDueExact(g, k0, 0);
    FireEffects(g, k0, 0);
    TickKeeps(g, k);
    MidPlaced(g, Midway(g, k));
  }

  lemma TickRuns(g: Config, k: Kernel)
    requires Placed(Midway(g, k).core) && Tick(g, k).core.run != []
    ensures Tick(g, k).current == Tick(g, k).core.run[0]
  {
    hide Placed, WakeDue, FireDue;
  }

  lemma MidPlaced(g: Config, k: Kernel)
    requires InvAt(g, k, 0, 1)
    ensures Placed(k.core)
  {
  }

  lemma TickTimersIs(g: Config, k: Kernel, k0: Kernel, k1: Kernel)
    requires CalloutsOk(g, k.callList, k.callouts, k.core.clock, 1) && k0 == k.(core := Advance(k.core))
    requires Fired(g, k0, k1)
    ensures Timers(k1) == S.TickTimers(Timers(k))
    ensures forall e :: DueEvent(g, k0, e) <==> S.RunsOut(g, Abs(g, k), e)
  {
    hide Sorted, NoDup, Prios, Rests, Places, Mutexes, Tokens, Events;
    forall c | c in k.callList
      ensures c in k.callouts && Left(k, c) == k.callouts[c].due - k.core.clock >= 1
      ensures CalloutDue(k0, c) <==> Left(k, c) <= 1
      ensures !CalloutDue(k0, c) ==> Left(k1, c) == Left(k, c) - 1
    {
      assert InList(g, c, k.callouts[c], k.core.clock, 1);
    }
  }

  lemma TickRestIs(g: Config, k: Kernel, k0: Kernel, k1: Kernel, k': Kernel, t: Tid)
    requires Timed(k.core, 1) && t in k.core.tasks && k0 == k.(core := Advance(k.core))
    requires FireTask(k0, k1, t) && k1.core.tasks.Keys == k0.core.tasks.Keys && k1.core.clock == k0.core.clock
    requires Expired(k1.core, k'.core, t) && k'.core.clock == k.core.clock + 1
    ensures AbsRest(k', t) == if Fed(k0, k1, t) then S.Awake else S.TickRest(AbsRest(k, t))
    ensures Tk(k', t).prio == Tk(k, t).prio
  {
    hide Sorted;
    assert InTime(k.core, t, 1);
  }

  lemma RefTick(g: Config, k: Kernel)
    requires Inv(g, k)
    ensures S.Ticked(g, Abs(g, k), Abs(g, Tick(g, k)))
  {
    hide InvAt, CoreInv, TickParts, Tick, Abs, S.Urgent, S.Fires, S.Served, CalloutsOk, Midway, Placed, TasksOk, Tasks,
        QueuesOk, MutexesOk, SemsOk, S.TickRest, S.TickTimers, S.Place, S.Prio, Advance;
    var k0, k1, k' := k.(core := Advance(k.core)), Midway(g, k), Tick(g, k);
    var a, a' := Abs(g, k), Abs(g, k');
    TickFacts(g, k);
    InvParts(g, k);
    InvCore(g, k);
    InvCore(g, k');
    AbsObjects(g, k);
    AbsObjects(g, k');
    MidPlaced(g, k1);
    TickRuns(g, k);
    HeadUrgent(g, k');
    TickSame(g, k, k0, k1, k');
    forall q | q in a.events
      ensures S.Events(a, q) <= S.Events(a', q) && S.Fires(g, a, q, S.Events(a', q)[|S.Events(a, q)|..])
    {
      TickQueue(g, k, k0, k1, k', q);
    }
    forall t | t in a.rest
      ensures S.RestOf(a', t) == if S.Served(g, a, a', t) then S.Awake else S.TickRest(S.RestOf(a, t))
    {
      TickSleeper(g, k, k0, k1, k', t);
    }
  }

  lemma TickSame(g: Config, k: Kernel, k0: Kernel, k1: Kernel, k': Kernel)
    requires TickParts(g, k, k0, k1, k') && CalloutsOk(g, k.callList, k.callouts, k.core.clock, 1)
    requires CoreInv(k.core, 1) && k.core.tasks.Keys == g.base.Keys
    ensures
      var a, a' := Abs(g, k), Abs(g, k');
      && a'.prio == a.prio && a'.at == a.at && a'.mutexes == a.mutexes && a'.tokens == a.tokens
      && a'.timers == S.TickTimers(a.timers)
  {
    hide Expired, Fired, Timed, CalloutsOk, Places, Mutexes, Tokens, Events, Timers, Rests, FireTask, Placed, Waiting,
        Sorted;
    TickTimersIs(g, k, k0, k1);
    Same(g, k, k');
    FiredClock(g, k0, k1);
    SameTimers(k1, k');
    forall t | t in g.base
      ensures Tk(k', t).prio == Tk(k, t).prio
    {
      TickRestIs(g, k, k0, k1, k', t);
    }
  }

  lemma TickQueue(g: Config, k: Kernel, k0: Kernel, k1: Kernel, k': Kernel, q: nat)
    requires TickParts(g, k, k0, k1, k') && CalloutsOk(g, k.callList, k.callouts, k.core.clock, 1)
    requires InvAt(g, k0, 0, 0) && InvAt(g, k1, 0, 1) && q in g.consumer
    ensures
      var a, b := S.Events(Abs(g, k), q), S.Events(Abs(g, k'), q);
      a <= b && S.Fires(g, Abs(g, k), q, b[|a|..])
  {
    hide InvAt, Expired, Fired, CalloutsOk, Abs, FireEffect, DueEvent, S.RunsOut;
    AbsObjects(g, k);
    AbsObjects(g, k');
    TickTimersIs(g, k, k0, k1);
    TickEvents(g, k0, k1, q);
  }

  lemma TickSleeper(g: Config, k: Kernel, k0: Kernel, k1: Kernel, k': Kernel, t: Tid)
    requires TickParts(g, k, k0, k1, k') && CoreInv(k.core, 1) && k.core.tasks.Keys == g.base.Keys && t in g.base
    requires TasksOk(g, k)
    ensures
      var a, a' := Abs(g, k), Abs(g, k');
      S.RestOf(a', t) == if S.Served(g, a, a', t) then S.Awake else S.TickRest(S.RestOf(a, t))
  {
    hide TickParts, CoreInv, TasksOk, Abs, Fed, S.Served, S.TickRest, AbsRest;
    AbsTask(g, k, t);
    AbsTask(g, k', t);
    ServedIs(g, k, k0, k1, k', t);
    TickOne(g, k, k0, k1, k', t);
  }

  lemma TickOne(g: Config, k: Kernel, k0: Kernel, k1: Kernel, k': Kernel, t: Tid)
    requires TickParts(g, k, k0, k1, k') && CoreInv(k.core, 1) && t in k.core.tasks
    ensures AbsRest(k', t) == if Fed(k0, k1, t) then S.Awake else S.TickRest(AbsRest(k, t))
  {
    hide Expired, Fired, Timed, FireTask, AbsRest, S.TickRest, Fed, Placed, Waiting, Sorted;
    TickRestIs(g, k, k0, k1, k', t);
  }

  /** A consumer is served exactly if its queue has an event in the middle of the tick. */
  lemma ServedIs(g: Config, k: Kernel, k0: Kernel, k1: Kernel, k': Kernel, t: Tid)
    requires TickParts(g, k, k0, k1, k') && t in g.base && t in k.core.tasks && TasksOk(g, k)
    ensures S.Served(g, Abs(g, k), Abs(g, k'), t) <==> Fed(k0, k1, t)
  {
    hide Expired, Fired, FireTask, Abs, FireEffect, TaskOk, TasksOk;
    AbsTask(g, k, t);
    AbsObjects(g, k');
    GetKnown(g, k, t);
    assert Tk(k0, t) == Tk(k, t) && PcOf(k0, t) == PcOf(k, t);
    if PcOf(k, t).GetEvent? {
      assert Qu(k', PcOf(k, t).q) == Qu(k1, PcOf(k, t).q);
    }
  }

  lemma GetKnown(g: Config, k: Kernel, t: Tid)
    requires TasksOk(g, k) && t in g.base
    ensures PcOf(k, t).GetEvent? ==> PcOf(k, t).q in g.consumer
  {
    assert TaskOk(g, k, t);
  }

  // ------------------------------------------------------------ every step

  /** What the kernel returns. */
  ghost function ReplyOf(g: Config, k: Kernel, s: Step): Option<S.Reply>
    requires k.current in k.core.tasks
  {
    match s
    case DoMutexPend(m, timeout) =>
      if Mu(k, m).owner.Owned? && Mu(k, m).owner.t !in k.core.tasks then None else Returned(MutexPend(k, m, timeout))
    case DoMutexRelease(m) => Some(S.Code(MutexDrop(k, m).1))
    case DoSemPend(n, timeout) => Returned(SemPend(k, n, timeout))
    case DoGet(q) => Fetched(EvGet(k, q))
    case DoReset(c, ticks) => Some(S.Code(CalloutReset(g, k, c, ticks).1))
    case DoResume =>
      (match PcOf(k, k.current)
       case PendMutex(m) => Returned(MutexPended(k, m))
       case PendSem(n, got) => Returned(SemPended(k))
       case GetEvent(q) => Fetched(EvGetAgain(k, q))
       case _ => None)
    case _ => None
  }

  function Returned(o: Outcome): Option<S.Reply> {
    match o
    case Returns(k, rc) => Some(S.Code(rc))
    case Sleeps(k) => None
  }

  function Fetched(f: Fetch): Option<S.Reply> {
    match f
    case Got(k, e, n) => Some(S.Event(e))
    case Empty(k) => None
  }

  lemma CallRefines(g: Config, k: Kernel, s: Step)
    requires Inv(g, k) && Allowed(g, k, s) && IsCall(s)
    ensures k.current in k.core.tasks && S.SpecStep(g, Abs(g, k), s, Abs(g, Next(g, k, s)))
  {
    hide InvAt, MutexPend, MutexDrop, SemPend, SemRelease, SemSignal, Abs, After;
    hide S.PendsMutex, S.DropsMutex, S.PendsSem, S.ReleasesSem;
    CallKeeps(g, k, s);
    match s
    case DoMutexPend(m, timeout) =>
      MutexPendKeeps(g, k, m, timeout);
      RefMutexPend(g, k, m, timeout);
    case DoMutexRelease(m) => RefMutexDrop(g, k, m);
    case DoSemPend(n, timeout) => RefSemPend(g, k, n, timeout);
    case DoSemRelease(n) => RefSemRelease(g, k, n);
    case DoSemSignal(n) => RefSemSignal(g, k, n);
  }

  lemma EventRefines(g: Config, k: Kernel, s: Step)
    requires Inv(g, k) && Allowed(g, k, s) && IsEvent(s) && forall q :: q in g.consumer ==> g.consumer[q] in g.base
    ensures k.current in k.core.tasks && S.SpecStep(g, Abs(g, k), s, Abs(g, Next(g, k, s)))
  {
    hide InvAt, EvPut, EvGet, EvRemove, CalloutReset, CalloutStop, Abs, CoreInv, QueuesOk;
    hide S.PutsEvent, S.GetsEvent, S.RemoveEvent, S.ResetTimer, S.StopTimer;
    EventKeeps(g, k, s);
    match s
    case DoPut(e) => RefPut(g, k, e);
    case DoGet(q) => RefGet(g, k, q);
    case DoRemove(e) =>
      InvParts(g, k);
      RefRemove(g, k, e);
    case DoReset(c, ticks) => RefReset(g, k, c, ticks);
    case DoStop(c) => RefStop(g, k, c);
  }

  lemma ResumeRefines(g: Config, k: Kernel)
    requires Inv(g, k) && Allowed(g, k, DoResume) && Sound(g, k, DoResume)
    ensures k.current in k.core.tasks && S.Resumes(Abs(g, k), Abs(g, Resume(k)))
  {
    hide InvAt, EvGet, EvGetAgain, MutexGive, Abs, CoreInv, S.GivesMutex, S.GetsEvent, S.Urgent;
    ResumeKeeps(g, k);
    InvCore(g, k);
    AbsTask(g, k, k.current);
    AbsObjects(g, k);
    match PcOf(k, k.current)
    case Releasing(m) => RefMutexGive(g, k, m);
    case Switching(to) =>
      InvCore(g, Switched(k));
      SwitchKeeps(g, k);
      HeadUrgent(g, Switched(k));
      RefOutside(g, k, Switched(k));
    case PendMutex(m) => RefOutside(g, k, MutexPended(k, m).k);
    case PendSem(n, got) => RefOutside(g, k, SemPended(k).k);
    case GetEvent(q) =>
      ConsumerIs(g, k, q);
      EvGetKeeps(g, k, q);
      RefGet(g, k, q);
  }

  /** Every sound step of the kernel is a step of the simple machine. */
  lemma StepRefines(g: Config, k: Kernel, s: Step)
    requires Inv(g, k) && Allowed(g, k, s) && Sound(g, k, s) && forall q :: q in g.consumer ==> g.consumer[q] in g.base
    ensures k.current in k.core.tasks && S.SpecStep(g, Abs(g, k), s, Abs(g, Next(g, k, s)))
  {
    hide Inv, Delay, Resume, Tick, Next, Abs, S.Resumes, S.Ticked, S.Rescheduled;
    StepKinds(g, k, s);
    if IsCall(s) {
      CallRefines(g, k, s);
    } else if IsEvent(s) {
      EventRefines(g, k, s);
    } else if s.DoDelay? {
      DelayKeeps(g, k, s.delay);
      RefDelay(g, k, s.delay);
    } else if s.DoResume? {
      ResumeRefines(g, k);
    } else {
      RefTick(g, k);
    }
  }

  lemma ResumeReplies(g: Config, k: Kernel)
    requires Inv(g, k) && Allowed(g, k, DoResume)
    ensures k.current in k.core.tasks && ReplyOf(g, k, DoResume) == S.SpecReply(Abs(g, k), DoResume)
  {
    hide InvAt, CoreInv, Abs, EvGet, EvGetAgain, TasksOk;
    InvCore(g, k);
    InvParts(g, k);
    AbsTask(g, k, k.current);
    AbsObjects(g, k);
    var p := PcOf(k, k.current);
    PlaceNamed(g, k, k.current);
    if p.PendSem? {
      SemPendedKeeps(g, k, p.s, p.got);
    } else if p.GetEvent? {
      ConsumerIs(g, k, p.q);
      EvGetKeeps(g, k, p.q);
      GetReplies(g, k, p.q);
    }
  }

  lemma PlaceNamed(g: Config, k: Kernel, t: Tid)
    requires TasksOk(g, k) && t in g.base
    ensures PcOf(k, t).PendMutex? ==> PcOf(k, t).m in g.mutexIds
    ensures PcOf(k, t).PendSem? ==> PcOf(k, t).s in g.semIds
  {
    assert TaskOk(g, k, t);
  }

  lemma GetReplies(g: Config, k: Kernel, q: nat)
    requires k.current in k.core.tasks && q in g.consumer
    ensures Fetched(EvGet(k, q)) == S.Fetched(Abs(g, k), q)
  {
    hide Abs, Block;
    AbsObjects(g, k);
  }

  /** The kernel returns what the simple machine returns. */
  lemma StepReplies(g: Config, k: Kernel, s: Step)
    requires Inv(g, k) && Allowed(g, k, s)
    ensures k.current in k.core.tasks && ReplyOf(g, k, s) == S.SpecReply(Abs(g, k), s)
  {
    hide InvAt, CoreInv, Abs, EvGet, Block, Inherit, TakeMutex, CalloutStop, Insert;
    InvCore(g, k);
    AbsObjects(g, k);
    if s.DoResume? {
      ResumeReplies(g, k);
    } else if s.DoGet? {
      GetReplies(g, k, s.q);
    } else if s.DoMutexPend? {
      MutexPendKeeps(g, k, s.m, s.timeout);
    }
  }

  /** One state follows the other by the steps of the simple machine. */
  ghost predicate Trace(g: Config, steps: seq<Step>, states: seq<S.State>) {
    && |states| == |steps| + 1
    && forall i :: 0 <= i < |steps| ==> S.SpecStep(g, states[i], steps[i], states[i + 1])
  }

  /** Every sound run of the kernel is a run of the simple machine. */
  lemma {:induction false} RunRefines(g: Config, k: Kernel, steps: seq<Step>) returns (states: seq<S.State>)
    requires Inv(g, k) && Run(g, k, steps) && RunSound(g, k, steps)
    requires forall q :: q in g.consumer ==> g.consumer[q] in g.base
    ensures Trace(g, steps, states) && states[0] == Abs(g, k) && states[|steps|] == Abs(g, Final(g, k, steps))
    decreases |steps|
  {
    hide Inv, Next, Allowed, Sound, Abs, S.SpecStep;
    if steps == [] {
      states := [Abs(g, k)];
    } else {
      StepRefines(g, k, steps[0]);
      StepKeeps(g, k, steps[0]);
      var rest := RunRefines(g, Next(g, k, steps[0]), steps[1..]);
      states := [Abs(g, k)] + rest;
      forall i | 0 <= i < |steps|
        ensures S.SpecStep(g, states[i], steps[i], states[i + 1])
      {
        if i > 0 {
          assert S.SpecStep(g, rest[i - 1], steps[1..][i - 1], rest[i]);
        }
      }
    }
  }
}
