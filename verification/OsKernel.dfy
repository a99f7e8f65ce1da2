/** Mutexes, semaphores and the tasks that use them, one critical section a step. */
module OsKernel {
  import opened Common
  import opened OsList
  import opened OsSched

  datatype Owner = NoOwner | Owned(t: Tid)

  /** A mutex; the tasks waiting for it are in the core. */
  datatype Mutex = Mutex(owner: Owner, level: nat, prio: nat)

  /** A semaphore.  `initial`, `releases` and `taken` count the tokens it started with,
      the releases, and the pends that got a token; they are history variables. */
  datatype Sem = Sem(tokens: nat, initial: nat, releases: nat, taken: nat)

  /** A queued event; `serial` counts the events put on the queue and is a history variable. */
  datatype Entry = Entry(ev: nat, serial: nat)

  datatype Waiter = NoWaiter | WaiterTask(t: Tid)

  /** An event queue.  `next` is the serial of the next event put on it, `got` is above
      the serials of all events that have been taken off it. */
  datatype Queue = Queue(list: seq<Entry>, task: Waiter, next: nat, got: nat)

  /** A callout on the callout list: the time it is due, wrapped and not. */
  datatype Callout = Callout(ticks: nat, due: nat)

  /** Where a task is: outside the kernel, or in a call that put it to sleep, or in a release
      outside its critical section: about to enter it, with the level of the mutex at 0
      already, or about to switch to a task.  `got` says that a release has chosen the waiter
      and is a history variable. */
  datatype Pc =
    | Outside | PendMutex(m: nat) | PendSem(s: nat, got: bool) | GetEvent(q: nat)
    | Releasing(m: nat) | Switching(to: Tid)

  /** The mutex a task holds and how many of its pends have not been released. */
  datatype Held = Nothing | Holds(m: nat, depth: nat)

  datatype Rc = Ok | Timeout | BadMutex | Invalid

  datatype Kernel = Kernel(
    core: Core, current: Tid, mutexes: map<nat, Mutex>, sems: map<nat, Sem>, semFlag: set<Tid>,
    queues: map<nat, Queue>, queued: set<nat>, callouts: map<nat, Callout>, callList: seq<nat>,
    pc: map<Tid, Pc>, holds: map<Tid, Held>)

  /** What does not change: the priorities the tasks were given, the task that never sleeps, the
      mutexes and semaphores there are, the queue of each event, the consumer of each queue, and
      the event of each callout. */
  datatype Config = Config(base: map<Tid, nat>, idle: Tid, mutexIds: set<nat>, semIds: set<nat>,
                           home: map<nat, nat>, consumer: map<nat, Tid>, event: map<nat, nat>)

  function Tk(k: Kernel, t: Tid): Task {
    if t in k.core.tasks then k.core.tasks[t] else Task(0, false, false, 0, 0, NoObj)
  }

  function PcOf(k: Kernel, t: Tid): Pc {
    if t in k.pc then k.pc[t] else Outside
  }

  function Hd(k: Kernel, t: Tid): Held {
    if t in k.holds then k.holds[t] else Nothing
  }

  function Mu(k: Kernel, m: nat): Mutex {
    if m in k.mutexes then k.mutexes[m] else Mutex(NoOwner, 0, 0)
  }

  function Sm(k: Kernel, s: nat): Sem {
    if s in k.sems then k.sems[s] else Sem(0, 0, 0, 0)
  }

  function Qu(k: Kernel, q: nat): Queue {
    if q in k.queues then k.queues[q] else Queue([], NoWaiter, 0, 0)
  }

  // ------------------------------------------------------------ the invariant

  ghost predicate Tasks(g: Config, k: Kernel) {
    && k.core.tasks.Keys == g.base.Keys == k.pc.Keys == k.holds.Keys
    && k.mutexes.Keys == g.mutexIds && k.sems.Keys == g.semIds && k.queues.Keys == g.consumer.Keys
    && g.idle in k.core.run && k.current in k.core.run && HeadRuns(k)
  }

  /** The head of the run list runs, or the running task is about to switch to it. */
  ghost predicate HeadRuns(k: Kernel) {
    k.core.run != [] && (k.current == k.core.run[0] || PcOf(k, k.current) == Switching(k.core.run[0]))
  }

  /** A task that holds nothing has the priority `b` it was given, unless it is releasing a mutex; one
      that holds a mutex is at least that urgent, owns the mutex, has pended on it as often as the
      mutex says, and waits for no other object. */
  ghost predicate PrioOk(b: nat, t: Tid, x: Task, h: Held, releasing: bool, mu: Mutex) {
    && x.prio <= b
    && match h
       case Nothing => x.prio == b || releasing
       case Holds(m, n) => mu.owner == Owned(t) && mu.level == n > 0 && x.obj == NoObj
  }

  /** What a task waits for is there to be waited for: a mutex whose owner, of priority `op`, is at
      least as urgent, or a semaphore without tokens. */
  ghost predicate ObjOk(x: Task, p: Pc, h: Held, mu: Mutex, op: nat, tokens: nat) {
    match x.obj
    case NoObj => true
    case MutexObj(m) => p == PendMutex(m) && h == Nothing && mu.owner.Owned? && op <= x.prio
    case SemObj(s) => p == PendSem(s, false) && h == Nothing && tokens == 0
  }

  /** How a task that is in a call got there, and what it will find.  `flag` is its semaphore wait
      flag, `w` the task its queue knows to be waiting. */
  ghost predicate PcOk(t: Tid, x: Task, p: Pc, h: Held, flag: bool, w: Waiter, consumer: Tid) {
    match p
    case Outside => true
    case PendMutex(m) => (x.sleeping ==> x.obj == MutexObj(m)) && (h.Holds? ==> h.m == m)
    case PendSem(s, got) => (x.sleeping ==> x.obj == SemObj(s)) && (flag <==> !got)
    case GetEvent(q) => x.obj == NoObj && consumer == t && w == if x.sleeping then WaiterTask(t) else NoWaiter
    case Releasing(m) => !x.sleeping && x.obj == NoObj && h == Nothing
    case Switching(to) => !x.sleeping && x.obj == NoObj && to != t
  }

  ghost function HeldMutex(k: Kernel, h: Held): Mutex {
    Mu(k, if h.Holds? then h.m else 0)
  }

  ghost function ObjMutex(k: Kernel, o: Obj): Mutex {
    Mu(k, if o.MutexObj? then o.m else 0)
  }

  ghost function OwnerPrio(k: Kernel, mu: Mutex): nat {
    if mu.owner.Owned? then Tk(k, mu.owner.t).prio else 0
  }

  ghost function ObjTokens(k: Kernel, o: Obj): nat {
    Sm(k, if o.SemObj? then o.s else 0).tokens
  }

  ghost function PcQueue(p: Pc): nat {
    if p.GetEvent? then p.q else 0
  }

  ghost function ConsumerOf(g: Config, q: nat): Tid {
    if q in g.consumer then g.consumer[q] else 0
  }

  ghost function Base(g: Config, t: Tid): nat {
    if t in g.base then g.base[t] else 0
  }

  ghost predicate TaskOk(g: Config, k: Kernel, t: Tid) {
    var x, p, h := Tk(k, t), PcOf(k, t), Hd(k, t);
    && PrioOk(Base(g, t), t, x, h, p.Releasing?, HeldMutex(k, h))
    && ObjOk(x, p, h, ObjMutex(k, x.obj), OwnerPrio(k, ObjMutex(k, x.obj)), ObjTokens(k, x.obj))
    && PcOk(t, x, p, h, t in k.semFlag, Qu(k, PcQueue(p)).task, ConsumerOf(g, PcQueue(p)))
    && Named(g, x.obj, p, h)
  }

  /** The objects a task has to do with exist. */
  ghost predicate Named(g: Config, o: Obj, p: Pc, h: Held) {
    && (o.MutexObj? ==> o.m in g.mutexIds) && (o.SemObj? ==> o.s in g.semIds)
    && (p.PendMutex? ==> p.m in g.mutexIds) && (p.PendSem? ==> p.s in g.semIds) && (p.GetEvent? ==> p.q in g.consumer)
    && (h.Holds? ==> h.m in g.mutexIds) && (p.Releasing? ==> p.m in g.mutexIds)
  }

  /** A free mutex has no level; an owned one is held by its owner, or is being released by it, and
      remembers the owner's priority. */
  ghost predicate MutexOk(g: Config, k: Kernel, m: nat) {
    var mu := Mu(k, m);
    match mu.owner
    case NoOwner => mu.level == 0
    case Owned(o) =>
      && o in g.base && mu.prio == Base(g, o)
      && if mu.level > 0 then Hd(k, o) == Holds(m, mu.level) else PcOf(k, o) == Releasing(m)
  }

  /** Every token is accounted for. */
  ghost predicate SemOk(s: Sem) {
    s.tokens + s.taken == s.initial + s.releases
  }

  /** A queue with a sleeping consumer is empty; events are queued once, in the order they were put. */
  ghost predicate QueueOk(g: Config, q: nat, u: Queue, queued: set<nat>) {
    && (u.task.WaiterTask? ==> u.list == [])
    && Serials(u.list, u.got, u.next)
    && forall e :: e in u.list ==> e.ev in g.home && g.home[e.ev] == q && e.ev in queued
  }

  /** The task a queue knows to be waiting does wait, until an event comes. */
  ghost predicate WaiterOk(g: Config, k: Kernel, q: nat) {
    var w := Qu(k, q).task;
    w.WaiterTask? ==>
      w.t in g.base && PcOf(k, w.t) == GetEvent(q) && Tk(k, w.t).sleeping && Tk(k, w.t).never && Tk(k, w.t).obj == NoObj
  }

  /** The serials go up, from `lo` on and below `hi`, and no event comes twice. */
  ghost predicate Serials(list: seq<Entry>, lo: nat, hi: nat)
    decreases |list|
  {
    if list == [] then lo <= hi
    else lo <= list[0].serial && Serials(list[1..], list[0].serial + 1, hi) && NotIn(list[1..], list[0].ev)
  }

  ghost predicate NotIn(list: seq<Entry>, ev: nat) {
    forall e :: e in list ==> e.ev != ev
  }

  ghost predicate EventOk(g: Config, k: Kernel, e: nat) {
    e in g.home && g.home[e] in g.consumer && !NotIn(Qu(k, g.home[e]).list, e)
  }

  /** The callout list is in order of the time left, and no callout on it is overdue. */
  ghost predicate CalloutsOk(g: Config, list: seq<nat>, callouts: map<nat, Callout>, clock: nat, slack: nat) {
    && NoDup(list) && Sorted(CallKeys(callouts), list)
    && (forall c :: c in list ==> c in callouts && InList(g, c, callouts[c], clock, slack))
    && forall c :: c in g.event ==> g.event[c] in g.home && g.home[g.event[c]] in g.consumer
  }

  ghost predicate InList(g: Config, c: nat, x: Callout, clock: nat, slack: nat) {
    c in g.event && x.ticks == x.due % WORD32 && clock + slack <= x.due < clock + 0x8000_0000
  }

  ghost function CallKeys(callouts: map<nat, Callout>): Keys {
    map c | c in callouts :: callouts[c].due
  }

  ghost predicate TasksOk(g: Config, k: Kernel) {
    forall t :: t in g.base ==> TaskOk(g, k, t)
  }

  ghost predicate MutexesOk(g: Config, k: Kernel) {
    forall m :: m in g.mutexIds ==> MutexOk(g, k, m)
  }

  ghost predicate SemsOk(g: Config, k: Kernel) {
    forall s :: s in g.semIds ==> SemOk(Sm(k, s))
  }

  ghost predicate QueuesOk(g: Config, k: Kernel) {
    && (forall q :: q in g.consumer ==> QueueOk(g, q, Qu(k, q), k.queued) && WaiterOk(g, k, q))
    && forall e :: e in k.queued ==> EventOk(g, k, e)
  }

  /** The invariant while a tick is handled: sleepers have `s` ticks left or more, callouts `c`. */
  ghost predicate InvAt(g: Config, k: Kernel, s: nat, c: nat) {
    && CoreInv(k.core, s) && Tasks(g, k) && TasksOk(g, k) && MutexesOk(g, k) && SemsOk(g, k) && QueuesOk(g, k)
    && CalloutsOk(g, k.callList, k.callouts, k.core.clock, c)
  }

  /** What holds whenever no critical section is in progress. */
  ghost predicate Inv(g: Config, k: Kernel) {
    InvAt(g, k, 1, 1)
  }

  // ------------------------------------------------------------ scheduling

  /** os_sched(NULL): the head of the run list runs. */
  function Sched(k: Kernel): Kernel
    requires k.core.run != []
  {
    k.(current := k.core.run[0])
  }

  /** A call returns at once, or puts its caller to sleep. */
  datatype Outcome = Returns(k: Kernel, rc: Rc) | Sleeps(k: Kernel)

  // ------------------------------------------------------------ mutexes

  /** os_mutex_pend, up to where the caller sleeps. */
  ghost function MutexPend(k: Kernel, m: nat, timeout: nat): Outcome
    requires k.current in k.core.tasks && (Mu(k, m).owner.Owned? ==> Mu(k, m).owner.t in k.core.tasks)
  {
    var mu, t := Mu(k, m), k.current;
    if mu.level == 0 then
      Returns(TakeMutex(k, m, Mutex(Owned(t), 1, Tk(k, t).prio)), Ok)
    else if mu.owner == Owned(t) then
      Returns(TakeMutex(k, m, mu.(level := mu.level + 1)), Ok)
    else if timeout == 0 then
      Returns(k, Timeout)
    else
      Sleeps(k.(core := Block(Inherit(k, mu), t, timeout, MutexObj(m)), pc := k.pc[t := PendMutex(m)]))
  }

  function TakeMutex(k: Kernel, m: nat, mu: Mutex): Kernel {
    k.(mutexes := k.mutexes[m := mu], holds := k.holds[k.current := Holds(m, mu.level)])
  }

  /** The owner of a mutex becomes as urgent as the task that is about to wait for it. */
  ghost function Inherit(k: Kernel, mu: Mutex): Core
    requires mu.owner.Owned? ==> mu.owner.t in k.core.tasks
  {
    if mu.owner.Owned? && Tk(k, mu.owner.t).prio > Tk(k, k.current).prio
    then SetPrio(k.core, mu.owner.t, Tk(k, k.current).prio) else k.core
  }

  /** os_mutex_pend, once its caller runs again. */
  function MutexPended(k: Kernel, m: nat): Outcome {
    Returns(k.(pc := k.pc[k.current := Outside]), if Mu(k, m).owner == Owned(k.current) then Ok else Timeout)
  }

  // ------------------------------------------------------------ what a mutex step keeps

  /** The caller takes a mutex that was free, when it holds no other, or that is its own already. */
  ghost predicate MayTake(k: Kernel, m: nat, mu': Mutex) {
    var mu, t := Mu(k, m), k.current;
    || (mu.level == 0 && Hd(k, t) == Nothing && mu' == Mutex(Owned(t), 1, Tk(k, t).prio))
    || (mu.owner == Owned(t) && mu' == mu.(level := mu.level + 1))
  }

  lemma TakenSelf(g: Config, k: Kernel, m: nat, mu': Mutex)
    requires m in g.mutexIds && TaskOk(g, k, k.current) && MutexOk(g, k, m) && MayTake(k, m, mu')
    requires PcOf(k, k.current) == Outside && Tk(k, k.current).obj == NoObj
    ensures TaskOk(g, TakeMutex(k, m, mu'), k.current)
  {
    hide ObjOk;
    NothingWanted(Tk(k, k.current), Outside, Holds(m, mu'.level), ObjMutex(TakeMutex(k, m, mu'), NoObj),
                  OwnerPrio(TakeMutex(k, m, mu'), ObjMutex(TakeMutex(k, m, mu'), NoObj)), ObjTokens(k, NoObj));
  }

  lemma NothingWanted(x: Task, p: Pc, h: Held, mu: Mutex, op: nat, tokens: nat)
    requires x.obj == NoObj
    ensures ObjOk(x, p, h, mu, op, tokens)
  {
  }

  /** A task that takes a mutex which another one is releasing is the more urgent of the two, and so
      at least as urgent as those who wait for it. */
  lemma TakenOther(g: Config, k: Kernel, m: nat, mu': Mutex, u: Tid)
    requires m in g.mutexIds && u != k.current && TaskOk(g, k, u) && MutexOk(g, k, m) && MayTake(k, m, mu')
    requires Mu(k, m).owner.Owned? ==> Mu(k, m).level > 0 || Tk(k, k.current).prio <= Tk(k, Mu(k, m).owner.t).prio
    ensures TaskOk(g, TakeMutex(k, m, mu'), u)
  {
    hide PcOk;
  }

  lemma TakenMutex(g: Config, k: Kernel, m: nat, mu': Mutex, n: nat)
    requires k.current in g.base && m in g.mutexIds && n in g.mutexIds
    requires TaskOk(g, k, k.current) && MutexOk(g, k, m) && MutexOk(g, k, n) && MayTake(k, m, mu') &&
             PcOf(k, k.current) == Outside
    ensures MutexOk(g, TakeMutex(k, m, mu'), n)
  {
    hide PcOk, ObjOk;
  }

  /** Semaphores and queues do not change, nor do the tasks waiting for events. */
  lemma RestFrame(g: Config, k: Kernel, k': Kernel)
    requires SemsOk(g, k) && QueuesOk(g, k) && k'.sems == k.sems && k'.queues == k.queues && k'.queued == k.queued
    requires forall t :: PcOf(k, t).GetEvent? ==> PcOf(k', t) == PcOf(k, t)
    requires forall t :: PcOf(k, t).GetEvent? && Tk(k, t).sleeping && Tk(k, t).never && Tk(k, t).obj == NoObj ==>
                           Tk(k', t).sleeping && Tk(k', t).never && Tk(k', t).obj == NoObj
    ensures SemsOk(g, k') && QueuesOk(g, k')
  {
    hide QueueOk, SemOk, NotIn;
    forall q | q in g.consumer
      ensures QueueOk(g, q, Qu(k', q), k'.queued) && WaiterOk(g, k', q)
    {
      assert QueueOk(g, q, Qu(k, q), k.queued) && WaiterOk(g, k, q);
    }
    forall e | e in k'.queued
      ensures EventOk(g, k', e)
    {
      assert EventOk(g, k, e);
    }
    forall s | s in g.semIds
      ensures SemOk(Sm(k', s))
    {
      assert SemOk(Sm(k, s));
    }
  }

  lemma MutexTaken(g: Config, k: Kernel, m: nat, mu': Mutex)
    requires Inv(g, k) && m in g.mutexIds && PcOf(k, k.current) == Outside && MayTake(k, m, mu')
    ensures Inv(g, TakeMutex(k, m, mu'))
  {
    hide CoreInv, TaskOk, MutexOk, CalloutsOk, QueuesOk, SemsOk, MayTake;
    var k' := TakeMutex(k, m, mu');
    CurrentRuns(g, k);
    ReleaserBehind(g, k, m);
    RestFrame(g, k, k');
    forall u | u in g.base
      ensures TaskOk(g, k', u)
    {
      if u == k.current {
        TakenSelf(g, k, m, mu');
      } else {
        TakenOther(g, k, m, mu', u);
      }
    }
    forall n | n in g.mutexIds
      ensures MutexOk(g, k', n)
    {
      TakenMutex(g, k, m, mu', n);
    }
  }

  /** A task that releases a mutex is ready, so the running task is at least as urgent. */
  lemma ReleaserBehind(g: Config, k: Kernel, m: nat)
    requires CoreInv(k.core, 1) && Tasks(g, k) && TasksOk(g, k) && MutexesOk(g, k) && m in g.mutexIds &&
             PcOf(k, k.current) == Outside
    ensures MutexOk(g, k, m)
    ensures Mu(k, m).owner.Owned? ==> Mu(k, m).level > 0 || Tk(k, k.current).prio <= Tk(k, Mu(k, m).owner.t).prio
  {
    hide Sorted, NoDup, Timed, Waiting;
    assert MutexOk(g, k, m);
    var mu := Mu(k, m);
    if mu.owner.Owned? && mu.level == 0 {
      assert TaskOk(g, k, mu.owner.t);
      SortedHead(PrioKeys(k.core.tasks), k.core.run, mu.owner.t);
    }
  }

  lemma CurrentRuns(g: Config, k: Kernel)
    requires CoreInv(k.core, 1) && Tasks(g, k)
    ensures k.current in g.base && k.current in k.core.tasks && !Tk(k, k.current).sleeping &&
            Tk(k, k.current).obj == NoObj
  {
    hide Sorted, NoDup, Timed;
  }

  /** The caller has gone to sleep waiting for the mutex. */
  ghost predicate WaitsForMutex(k: Kernel, m: nat, timeout: nat, k': Kernel)
    requires k.current in k.core.tasks && Mu(k, m).owner.Owned? && Mu(k, m).owner.t in k.core.tasks
  {
    k'.core == Block(Inherit(k, Mu(k, m)), k.current, timeout, MutexObj(m)) && k'.pc == k.pc[k.current := PendMutex(m)]
    && k'.mutexes == k.mutexes && k'.holds == k.holds && k'.sems == k.sems && k'.semFlag == k.semFlag
    && k'.queues == k.queues
  }

  lemma WaitingOther(g: Config, k: Kernel, m: nat, timeout: nat, k': Kernel, u: Tid)
    requires k.current in k.core.tasks && Mu(k, m).owner.Owned? && Mu(k, m).owner.t in k.core.tasks
    requires WaitsForMutex(k, m, timeout, k') && u != k.current && TaskOk(g, k, u) && Mu(k, m).owner.t != k.current
    requires Tk(k, u).obj.MutexObj? ==> Mu(k, Tk(k, u).obj.m).owner != Owned(k.current)
    requires u != Mu(k, m).owner.t
    ensures TaskOk(g, k', u)
  {
    hide Insert, Remove, PcOk, PrioOk;
  }

  lemma WaitingOwner(g: Config, k: Kernel, m: nat, timeout: nat, k': Kernel, u: Tid)
    requires k.current in k.core.tasks && Mu(k, m).owner.Owned? && Mu(k, m).owner.t in k.core.tasks
    requires WaitsForMutex(k, m, timeout, k') && u != k.current && TaskOk(g, k, u) && Hd(k, u).Holds?
    requires u == Mu(k, m).owner.t
    ensures TaskOk(g, k', u)
  {
    hide Insert, Remove;
  }

  lemma WaitingAll(g: Config, k: Kernel, m: nat, timeout: nat, k': Kernel)
    requires TasksOk(g, k) && MutexesOk(g, k) && k.current in k.core.tasks && Hd(k, k.current) == Nothing &&
             m in g.mutexIds
    requires PcOf(k, k.current) == Outside
    requires Mu(k, m).owner.Owned? && Mu(k, m).owner.t in k.core.tasks && Mu(k, m).owner.t != k.current &&
             Hd(k, Mu(k, m).owner.t).Holds?
    requires WaitsForMutex(k, m, timeout, k')
    ensures TasksOk(g, k')
  {
    hide TaskOk, WaitsForMutex;
    forall u | u in g.base
      ensures TaskOk(g, k', u)
    {
      if u == k.current {
        WaitingSelf(g, k, m, timeout, k');
      } else if u == Mu(k, m).owner.t {
        WaitingOwner(g, k, m, timeout, k', u);
      } else {
        NotOwnedBy(g, k, u, k.current);
        WaitingOther(g, k, m, timeout, k', u);
      }
    }
  }

  lemma WaitingSelf(g: Config, k: Kernel, m: nat, timeout: nat, k': Kernel)
    requires k.current in k.core.tasks && Mu(k, m).owner.Owned? && Mu(k, m).owner.t in k.core.tasks
    requires WaitsForMutex(k, m, timeout, k') && TaskOk(g, k, k.current) && Hd(k, k.current) == Nothing &&
             m in g.mutexIds
    requires Mu(k, m).owner.t != k.current && PcOf(k, k.current) == Outside
    ensures TaskOk(g, k', k.current)
  {
    hide Insert, Remove;
  }

  /** After a scheduling point the head of the run list runs; there is one, for the idle task never sleeps. */
  lemma Scheduled(g: Config, k: Kernel, k': Kernel)
    requires Tasks(g, k) && Placed(k'.core) && k'.core.tasks.Keys == k.core.tasks.Keys && g.idle in k'.core.tasks &&
             !Tk(k', g.idle).sleeping
    requires k'.pc.Keys == k.pc.Keys && k'.holds.Keys == k.holds.Keys
    requires k'.mutexes.Keys == k.mutexes.Keys && k'.sems.Keys == k.sems.Keys && k'.queues.Keys == k.queues.Keys
    ensures k'.core.run != [] && Tasks(g, Sched(k'))
  {
    hide NoDup, PcOf;
    assert g.idle in k'.core.run;
    assert k'.core.run[0] in k'.core.run;
  }

  lemma IdleRuns(g: Config, k: Kernel, s: nat)
    requires CoreInv(k.core, s) && Tasks(g, k)
    ensures g.idle in k.core.tasks && !Tk(k, g.idle).sleeping
  {
    hide NoDup, Sorted, Timed, Waiting;
  }

  /** The core while the caller goes to sleep. */
  lemma WaitsCore(g: Config, k: Kernel, m: nat, timeout: nat)
    requires CoreInv(k.core, 1) && Tasks(g, k) && GoodTimeout(timeout) && k.current in k.core.run
    requires Mu(k, m).owner.Owned? && Mu(k, m).owner.t in k.core.tasks && Tk(k, Mu(k, m).owner.t).obj == NoObj &&
             Mu(k, m).owner.t != k.current
    ensures k.current in k.core.tasks && CoreInv(Block(Inherit(k, Mu(k, m)), k.current, timeout, MutexObj(m)), 1)
    ensures Block(Inherit(k, Mu(k, m)), k.current, timeout, MutexObj(m)).clock == k.core.clock
  {
    hide Sorted, Timed, Waiting, NoDup, Insert, Remove;
    var mu := Mu(k, m);
    if Tk(k, mu.owner.t).prio > Tk(k, k.current).prio {
      SetPrioKeeps(k.core, mu.owner.t, Tk(k, k.current).prio, 1);
    }
    BlockKeeps(Inherit(k, mu), k.current, timeout, MutexObj(m));
  }

  lemma OwnerFacts(g: Config, k: Kernel, m: nat)
    requires Tasks(g, k) && TasksOk(g, k) && MutexOk(g, k, m) && Mu(k, m).owner.Owned? && Mu(k, m).level > 0
    ensures
      var o := Mu(k, m).owner.t;
      o in k.core.tasks && Hd(k, o) == Holds(m, Mu(k, m).level) && Tk(k, o).obj == NoObj &&
          Tk(k, o).prio <= Base(g, o) == Mu(k, m).prio
  {
    assert TaskOk(g, k, Mu(k, m).owner.t);
  }

  lemma MutexesFrame(g: Config, k: Kernel, k': Kernel)
    requires MutexesOk(g, k) && k'.mutexes == k.mutexes && k'.holds == k.holds
    requires forall t :: PcOf(k, t).Releasing? ==> PcOf(k', t) == PcOf(k, t)
    ensures MutexesOk(g, k')
  {
    forall m | m in g.mutexIds
      ensures MutexOk(g, k', m)
    {
      assert MutexOk(g, k, m);
    }
  }

  lemma MutexWaits(g: Config, k: Kernel, m: nat, timeout: nat)
    requires Inv(g, k) && m in g.mutexIds && PcOf(k, k.current) == Outside && Hd(k, k.current) == Nothing &&
             GoodTimeout(timeout)
    requires Mu(k, m).owner.Owned? && Mu(k, m).level > 0 && k.current != g.idle
    ensures k.current in k.core.tasks && Mu(k, m).owner.t in k.core.tasks && MutexPend(k, m, timeout).Sleeps?
    ensures MutexPend(k, m, timeout).k.core.run != [] && Inv(g, Sched(MutexPend(k, m, timeout).k))
  {
    hide CoreInv, TaskOk, CalloutsOk, QueuesOk, SemsOk, Insert, Remove, SetPrio, Block, Inherit;
    CurrentRuns(g, k);
    OwnerFacts(g, k, m);
    assert MutexOk(g, k, m);
    WaitsCore(g, k, m, timeout);
    IdleRuns(g, k, 1);
    var k' := MutexPend(k, m, timeout).k;
    WaitTasks(k, m, timeout, k');
    CorePlaced(k'.core);
    Scheduled(g, k, k');
    RestFrame(g, k, Sched(k'));
    MutexesFrame(g, k, Sched(k'));
    WaitingAll(g, k, m, timeout, Sched(k'));
  }

  lemma CorePlaced(c: Core)
    requires CoreInv(c, 1)
    ensures Placed(c)
  {
  }

  lemma WaitTasks(k: Kernel, m: nat, timeout: nat, k': Kernel)
    requires k.current in k.core.tasks && Mu(k, m).owner.Owned? && Mu(k, m).owner.t in k.core.tasks
    requires WaitsForMutex(k, m, timeout, k')
    ensures k'.core.tasks.Keys == k.core.tasks.Keys
    ensures forall t :: t != k.current ==> Tk(k', t) == Tk(k, t).(prio := Tk(k', t).prio)
  {
    hide Insert, Remove;
  }

  /** No task waits for a mutex of a task that holds none and releases none. */
  lemma NotOwnedBy(g: Config, k: Kernel, u: Tid, t: Tid)
    requires MutexesOk(g, k) && TaskOk(g, k, u) && Hd(k, t) == Nothing && !PcOf(k, t).Releasing?
    ensures Tk(k, u).obj.MutexObj? ==> Mu(k, Tk(k, u).obj.m).owner != Owned(t)
  {
    if Tk(k, u).obj.MutexObj? {
      assert MutexOk(g, k, Tk(k, u).obj.m);
    }
  }
}
