/** Event queues. */
module OsEvent {
  import opened Common
  import opened OsList
  import opened OsSched
  import opened OsKernel
  import opened OsMutex
  import opened OsSem

  /** os_eventq_put2 */
  ghost function EvPut(k: Kernel, q: nat, e: nat): Kernel {
    var u := Qu(k, q);
    if e in k.queued then k
    else
      var k' := k.(queued := k.queued + {e}, queues := k.queues[q := Queue(u.list + [Entry(e, u.next)], NoWaiter,
          u.next + 1, u.got)]);
      if u.task.WaiterTask? && u.task.t in k.core.tasks then Resched(k'.(core := Wake(k.core, u.task.t))) else k'
  }

  function Resched(k: Kernel): Kernel {
    if k.core.run == [] then k else Sched(k)
  }

  datatype Fetch = Got(k: Kernel, e: nat, serial: nat) | Empty(k: Kernel)

  /** os_eventq_get from the label pull_one on, up to where the caller sleeps. */
  ghost function EvGet(k: Kernel, q: nat): Fetch
    requires k.current in k.core.tasks
  {
    var u, t := Qu(k, q), k.current;
    if u.list != [] then
      var x := u.list[0];
      Got(k.(queues := k.queues[q := Queue(u.list[1..], u.task, u.next, x.serial + 1)], queued := k.queued - {x.ev},
          pc := k.pc[t := Outside]), x.ev, x.serial)
    else
      Empty(Resched(k.(core := Block(k.core, t, OS_TIMEOUT_NEVER, NoObj),
          queues := k.queues[q := u.(task := WaiterTask(t))], pc := k.pc[t := GetEvent(q)])))
  }

  /** os_eventq_get, once its caller runs again: the queue forgets it and the list is looked at again. */
  ghost function EvGetAgain(k: Kernel, q: nat): Fetch
    requires k.current in k.core.tasks
  {
    EvGet(k.(queues := k.queues[q := Qu(k, q).(task := NoWaiter)]), q)
  }

  /** os_eventq_remove */
  ghost function EvRemove(k: Kernel, q: nat, e: nat): Kernel {
    var u := Qu(k, q);
    if e in k.queued then k.(queues := k.queues[q := u.(list := Without(u.list, e))], queued := k.queued - {e}) else k
  }

  function Without(list: seq<Entry>, e: nat): seq<Entry>
    decreases |list|
  {
    if list == [] then [] else if list[0].ev == e then list[1..] else [list[0]] + Without(list[1..], e)
  }

  // ------------------------------------------------------------ lists of events

  lemma {:induction false} SerialsBounds(list: seq<Entry>, lo: nat, hi: nat)
    requires Serials(list, lo, hi)
    ensures lo <= hi && forall x :: x in list ==> lo <= x.serial < hi
    decreases |list|
  {
    if list != [] {
      SerialsBounds(list[1..], list[0].serial + 1, hi);
      assert forall x :: x in list ==> x == list[0] || x in list[1..];
    }
  }

  lemma {:induction false} SerialsAppend(list: seq<Entry>, lo: nat, hi: nat, e: nat)
    requires Serials(list, lo, hi) && NotIn(list, e)
    ensures Serials(list + [Entry(e, hi)], lo, hi + 1)
    decreases |list|
  {
    if list != [] {
      assert forall x :: x in list[1..] ==> x in list;
      assert list[0] in list;
      SerialsAppend(list[1..], list[0].serial + 1, hi, e);
      assert (list + [Entry(e, hi)])[1..] == list[1..] + [Entry(e, hi)];
    } else {
      assert list + [Entry(e, hi)] == [Entry(e, hi)];
      assert Serials([Entry(e, hi)][1..], hi + 1, hi + 1);
    }
  }

  lemma SerialsFrom(list: seq<Entry>, lo: nat, lo': nat, hi: nat)
    requires Serials(list, lo, hi) && lo' <= lo
    ensures Serials(list, lo', hi)
  {
  }

  lemma {:induction false} WithoutElems(list: seq<Entry>, lo: nat, hi: nat, e: nat)
    requires Serials(list, lo, hi)
    ensures forall x :: x in Without(list, e) <==> x in list && x.ev != e
    ensures NotIn(Without(list, e), e)
    decreases |list|
  {
    if list != [] {
      WithoutElems(list[1..], list[0].serial + 1, hi, e);
      assert forall x :: x in list <==> x == list[0] || x in list[1..];
    }
  }

  lemma {:induction false} WithoutSerials(list: seq<Entry>, lo: nat, hi: nat, e: nat)
    requires Serials(list, lo, hi)
    ensures Serials(Without(list, e), lo, hi)
    decreases |list|
  {
    if list != [] {
      WithoutElems(list[1..], list[0].serial + 1, hi, e);
      WithoutSerials(list[1..], list[0].serial + 1, hi, e);
      if list[0].ev == e {
        SerialsFrom(list[1..], list[0].serial + 1, lo, hi);
      } else {
        assert Without(list, e)[1..] == Without(list[1..], e);
      }
    }
  }

  // ------------------------------------------------------------ the queues after a change to one of them

  /** One queue has a new list, with a change of what is queued that concerns this queue only. */
  ghost predicate ListChange(g: Config, k: Kernel, k': Kernel, q: nat) {
    && k'.queues == k.queues[q := Qu(k', q)]
    && (forall e :: e in g.home && g.home[e] != q ==> (e in k'.queued <==> e in k.queued))
    && (forall e :: e in k'.queued ==> e in g.home && g.home[e] in g.consumer)
    && (forall e :: e in g.home && g.home[e] == q && e in k'.queued ==> !NotIn(Qu(k', q).list, e))
  }

  lemma QueuesAfter(g: Config, k: Kernel, k': Kernel, q: nat)
    requires QueuesOk(g, k) && q in g.consumer && ListChange(g, k, k', q) && QueueOk(g, q, Qu(k', q), k'.queued) &&
             WaiterOk(g, k', q)
    requires forall p :: p in g.consumer && p != q ==> WaiterOk(g, k', p)
    ensures QueuesOk(g, k')
  {
    hide Serials, NotIn, WaiterOk;
    forall p | p in g.consumer && p != q
      ensures QueueOk(g, p, Qu(k', p), k'.queued)
    {
      assert QueueOk(g, p, Qu(k, p), k.queued);
    }
    forall e | e in k'.queued
      ensures EventOk(g, k', e)
    {
      if g.home[e] != q {
        assert EventOk(g, k, e);
      }
    }
  }

  // ------------------------------------------------------------ put

  ghost function PutQueue(u: Queue, e: nat): Queue {
    Queue(u.list + [Entry(e, u.next)], NoWaiter, u.next + 1, u.got)
  }

  lemma PutQueueOk(g: Config, q: nat, u: Queue, queued: set<nat>, e: nat)
    requires QueueOk(g, q, u, queued) && e in g.home && g.home[e] == q && e !in queued
    ensures QueueOk(g, q, PutQueue(u, e), queued + {e}) && !NotIn(PutQueue(u, e).list, e)
    ensures forall x :: !NotIn(u.list, x) ==> !NotIn(PutQueue(u, e).list, x)
  {
    hide Serials;
    SerialsAppend(u.list, u.got, u.next, e);
    var list := PutQueue(u, e).list;
    assert Entry(e, u.next) in list;
    forall x | !NotIn(u.list, x)
      ensures !NotIn(list, x)
    {
      var y :| y in u.list && y.ev == x;
      assert y in list;
    }
  }

  /** What the put does, apart from scheduling. */
  ghost predicate Puts(k: Kernel, q: nat, e: nat, k': Kernel) {
    && k'.queued == k.queued + {e} && k'.queues == k.queues[q := PutQueue(Qu(k, q), e)]
    && k'.mutexes == k.mutexes && k'.holds == k.holds && k'.sems == k.sems && k'.semFlag == k.semFlag && k'.pc == k.pc
  }

  /** A task other than the woken one does not notice. */
  lemma PutOther(g: Config, k: Kernel, q: nat, e: nat, k': Kernel, u: Tid)
    requires TaskOk(g, k, u) && Puts(k, q, e, k') && Tk(k', u) == Tk(k, u) &&
             (forall t :: Tk(k', t).prio == Tk(k, t).prio)
    requires Qu(k, q).task == NoWaiter || ConsumerOf(g, q) != u
    ensures TaskOk(g, k', u)
  {
    hide PrioOk, ObjOk;
  }

  /** The consumer was asleep, as os_sched_wakeup asserts, and now runs. */
  lemma PutWaiter(g: Config, k: Kernel, q: nat, e: nat, k': Kernel, w: Tid)
    requires TaskOk(g, k, w) && WaiterOk(g, k, q) && Qu(k, q).task == WaiterTask(w) && Puts(k, q, e, k') &&
             Tk(k', w) == Task(Tk(k, w).prio, false, false, 0, 0, NoObj)
    ensures TaskOk(g, k', w) && Tk(k, w).sleeping && ConsumerOf(g, q) == w && PcOf(k, w) == GetEvent(q)
  {
    hide ObjOk;
    NothingWanted(Tk(k', w), PcOf(k', w), Hd(k', w), ObjMutex(k', NoObj), OwnerPrio(k', ObjMutex(k', NoObj)),
        ObjTokens(k', NoObj));
  }

  lemma PutQueues(g: Config, k: Kernel, q: nat, e: nat, k': Kernel, w: Tid)
    requires QueuesOk(g, k) && q in g.consumer && e in g.home && g.home[e] == q && e !in k.queued && Puts(k, q, e, k')
    requires forall u :: u != w ==> Tk(k', u) == Tk(k, u)
    requires PcOf(k, w) == GetEvent(q) || Tk(k', w) == Tk(k, w)
    ensures QueuesOk(g, k')
  {
    hide Serials, NotIn, PutQueue, QueueOk;
    assert QueueOk(g, q, Qu(k, q), k.queued);
    PutQueueOk(g, q, Qu(k, q), k.queued, e);
    forall x | x in g.home && g.home[x] == q && x in k'.queued
      ensures !NotIn(Qu(k', q).list, x)
    {
      if x != e {
        assert EventOk(g, k, x);
      }
    }
    forall x | x in k'.queued
      ensures x in g.home && g.home[x] in g.consumer
    {
      if x != e {
        assert EventOk(g, k, x);
      }
    }
    forall p | p in g.consumer && p != q
      ensures WaiterOk(g, k', p)
    {
      assert WaiterOk(g, k, p);
    }
    PutNoWaiter(g, k, q, e, k');
    QueuesAfter(g, k, k', q);
  }

  lemma PutNoWaiter(g: Config, k: Kernel, q: nat, e: nat, k': Kernel)
    requires Puts(k, q, e, k')
    ensures WaiterOk(g, k', q) && Qu(k', q) == PutQueue(Qu(k, q), e)
  {
  }

  lemma CorePlacedAt(c: Core, s: nat)
    requires CoreInv(c, s)
    ensures Placed(c) && forall t :: t in c.sleep <==> t in c.tasks && c.tasks[t].sleeping
  {
    hide NoDup, Sorted, Timed, Waiting;
  }

  lemma PutAwake(g: Config, k: Kernel, q: nat, e: nat, s: nat, c: nat)
    requires InvAt(g, k, s, c) && q in g.consumer && e in g.home && g.home[e] == q && e !in k.queued &&
             Qu(k, q).task == NoWaiter
    ensures InvAt(g, EvPut(k, q, e), s, c)
  {
    hide CoreInv, TaskOk, MutexesOk, CalloutsOk, QueuesOk, SemsOk;
    var k' := EvPut(k, q, e);
    PutQueues(g, k, q, e, k', 0);
    MutexesFrame(g, k, k');
    SemsSame(g, k, k');
    forall u | u in g.base
      ensures TaskOk(g, k', u)
    {
      PutOther(g, k, q, e, k', u);
    }
  }

  lemma SemsSame(g: Config, k: Kernel, k': Kernel)
    requires SemsOk(g, k) && k'.sems == k.sems
    ensures SemsOk(g, k')
  {
    hide SemOk;
    forall n | n in g.semIds
      ensures SemOk(Sm(k', n))
    {
      assert SemOk(Sm(k, n));
    }
  }

  lemma PutTasks(g: Config, k: Kernel, q: nat, e: nat, k': Kernel, w: Tid)
    requires TasksOk(g, k) && WaiterOk(g, k, q) && Qu(k, q).task == WaiterTask(w) && w in k.core.tasks &&
             Puts(k, q, e, k')
    requires k'.core.tasks == k.core.tasks[w := Task(Tk(k, w).prio, false, false, 0, 0, NoObj)] && w in g.base
    ensures TasksOk(g, k') && PcOf(k, w) == GetEvent(q) && Tk(k, w).sleeping
  {
    hide TaskOk, Puts, WaiterOk;
    assert TaskOk(g, k, w);
    PutWaiter(g, k, q, e, k', w);
    forall u | u in g.base
      ensures TaskOk(g, k', u)
    {
      if u != w {
        PutOther(g, k, q, e, k', u);
      }
    }
  }

  lemma PutAsleep(g: Config, k: Kernel, q: nat, e: nat, s: nat, c: nat)
    requires InvAt(g, k, s, c) && q in g.consumer && e in g.home && g.home[e] == q && e !in k.queued &&
             Qu(k, q).task.WaiterTask?
    ensures InvAt(g, EvPut(k, q, e), s, c)
  {
    hide CoreInv, TasksOk, Tasks, MutexesOk, CalloutsOk, SemsOk, QueuesOk, WaiterOk, EvPut, Puts;
    var k', w := EvPut(k, q, e), Qu(k, q).task.t;
    PutCore(g, k, q, e, w, s);
    PutIs(k, q, e, w);
    PutTasks(g, k, q, e, k', w);
    PutQueues(g, k, q, e, k', w);
    MutexesFrame(g, k, k');
    SemsSame(g, k, k');
  }

  lemma PutIs(k: Kernel, q: nat, e: nat, w: Tid)
    requires e !in k.queued && Qu(k, q).task == WaiterTask(w) && w in k.core.tasks
    ensures
      var k' := EvPut(k, q, e);
      && Puts(k, q, e, k') && k'.core.tasks == k.core.tasks[w := Task(Tk(k, w).prio, false, false, 0, 0, NoObj)]
      && k'.callouts == k.callouts && k'.callList == k.callList && k'.holds == k.holds && k'.mutexes == k.mutexes
      && k'.sems == k.sems
      && k'.pc == k.pc && k'.core == Wake(k.core, w) && forall u :: u != w ==> Tk(k', u) == Tk(k, u)
  {
    hide Wake;
    WakeTasks(k.core, w);
  }

  lemma PutCore(g: Config, k: Kernel, q: nat, e: nat, w: Tid, s: nat)
    requires CoreInv(k.core, s) && Tasks(g, k) && QueuesOk(g, k) && q in g.consumer && e !in k.queued &&
             Qu(k, q).task == WaiterTask(w)
    ensures WaiterOk(g, k, q) && w in g.base && w in k.core.tasks && CoreInv(Wake(k.core, w), s) &&
            Wake(k.core, w).clock == k.core.clock
    ensures Tasks(g, EvPut(k, q, e)) && EvPut(k, q, e).core == Wake(k.core, w)
  {
    hide CoreInv, Wake, QueueOk, EvPut;
    assert WaiterOk(g, k, q);
    CorePlacedAt(k.core, s);
    IdleRuns(g, k, s);
    WakeKeeps(k.core, w, s);
    WakeTasks(k.core, w);
    CorePlacedAt(Wake(k.core, w), s);
    PutSched(g, k, q, e, w);
  }

  lemma PutSched(g: Config, k: Kernel, q: nat, e: nat, w: Tid)
    requires Tasks(g, k) && q in g.consumer && e !in k.queued && Qu(k, q).task == WaiterTask(w) && w in k.core.tasks &&
             Placed(Wake(k.core, w))
    requires g.idle in k.core.tasks && !Tk(k, g.idle).sleeping
    ensures Tasks(g, EvPut(k, q, e)) && EvPut(k, q, e).core == Wake(k.core, w)
  {
    hide Wake, NoDup;
    WakeTasks(k.core, w);
    var k1 := k.(queued := k.queued + {e}, queues := k.queues[q := PutQueue(Qu(k, q), e)], core := Wake(k.core, w));
    Scheduled(g, k, k1);
  }

  /** os_eventq_put2 keeps the invariant; it does nothing to an event that is queued. */
  lemma EvPutKeeps(g: Config, k: Kernel, q: nat, e: nat, s: nat, c: nat)
    requires InvAt(g, k, s, c) && q in g.consumer && e in g.home && g.home[e] == q
    ensures InvAt(g, EvPut(k, q, e), s, c) && e in EvPut(k, q, e).queued
  {
    hide InvAt;
    if e !in k.queued {
      if Qu(k, q).task == NoWaiter {
        PutAwake(g, k, q, e, s, c);
      } else {
        PutAsleep(g, k, q, e, s, c);
      }
    }
  }

  // ------------------------------------------------------------ get

  /** The caller may be the consumer of the queue, on its way in or woken up. */
  ghost predicate MayGet(g: Config, k: Kernel, q: nat) {
    && q in g.consumer && g.consumer[q] == k.current && k.current != g.idle
    && (PcOf(k, k.current) == Outside || PcOf(k, k.current) == GetEvent(q))
  }

  /** No queue waits for a task that runs. */
  lemma NobodyWaits(g: Config, k: Kernel, q: nat)
    requires TasksOk(g, k) && QueuesOk(g, k) && q in g.consumer && g.consumer[q] == k.current && k.current in g.base &&
             !Tk(k, k.current).sleeping
    ensures Qu(k, q).task == NoWaiter
  {
    hide QueueOk;
    assert WaiterOk(g, k, q);
    var w := Qu(k, q).task;
    assert w.WaiterTask? ==> TaskOk(g, k, w.t);
  }

  ghost predicate Takes(k: Kernel, q: nat, k': Kernel) {
    var u := Qu(k, q);
    && u.list != [] && k'.queues == k.queues[q := Queue(u.list[1..], u.task, u.next, u.list[0].serial + 1)]
    && k'.queued == k.queued - {u.list[0].ev} && k'.pc == k.pc[k.current := Outside]
    && k'.core == k.core && k'.mutexes == k.mutexes && k'.holds == k.holds && k'.sems == k.sems
    && k'.semFlag == k.semFlag
  }

  lemma TakeQueueOk(g: Config, q: nat, u: Queue, queued: set<nat>)
    requires QueueOk(g, q, u, queued) && u.list != []
    ensures QueueOk(g, q, Queue(u.list[1..], u.task, u.next, u.list[0].serial + 1), queued - {u.list[0].ev})
    ensures u.got <= u.list[0].serial < u.next && u.list[0].ev in g.home && g.home[u.list[0].ev] == q
    ensures forall x :: x != u.list[0].ev && !NotIn(u.list, x) ==> !NotIn(u.list[1..], x)
  {
    SerialsBounds(u.list, u.got, u.next);
    assert u.list[0] in u.list;
    assert forall x :: x in u.list[1..] ==> x in u.list;
    forall x | x != u.list[0].ev && !NotIn(u.list, x)
      ensures !NotIn(u.list[1..], x)
    {
      var y :| y in u.list && y.ev == x;
      assert y in u.list[1..];
    }
  }

  lemma TakeTask(g: Config, k: Kernel, q: nat, k': Kernel, u: Tid)
    requires TaskOk(g, k, u) && Takes(k, q, k') && !Tk(k, k.current).sleeping && Tk(k, k.current).obj == NoObj
    requires !PcOf(k, k.current).Releasing?
    ensures TaskOk(g, k', u)
  {
    hide PrioOk;
  }

  lemma TakeQueues(g: Config, k: Kernel, q: nat, k': Kernel)
    requires QueuesOk(g, k) && q in g.consumer && Takes(k, q, k') && Qu(k, q).task == NoWaiter &&
             !Tk(k, k.current).sleeping
    ensures QueuesOk(g, k')
  {
    hide Serials, NotIn, QueueOk;
    var u := Qu(k, q);
    assert QueueOk(g, q, u, k.queued);
    TakeQueueOk(g, q, u, k.queued);
    forall x | x in k'.queued
      ensures x in g.home && g.home[x] in g.consumer && (g.home[x] == q ==> !NotIn(Qu(k', q).list, x))
    {
      assert EventOk(g, k, x);
    }
    forall p | p in g.consumer && p != q
      ensures WaiterOk(g, k', p)
    {
      assert WaiterOk(g, k, p);
    }
    QueuesAfter(g, k, k', q);
  }

  lemma TakeKeeps(g: Config, k: Kernel, q: nat)
    requires Inv(g, k) && MayGet(g, k, q) && Qu(k, q).list != []
    ensures k.current in k.core.tasks && EvGet(k, q).Got? && Inv(g, EvGet(k, q).k)
    ensures Qu(k, q).got <= EvGet(k, q).serial < Qu(EvGet(k, q).k, q).got
  {
    hide CoreInv, TaskOk, MutexesOk, CalloutsOk, QueuesOk, SemsOk;
    CurrentRuns(g, k);
    NobodyWaits(g, k, q);
    var k' := EvGet(k, q).k;
    TakeQueues(g, k, q, k');
    MutexesFrame(g, k, k');
    SemsSame(g, k, k');
    TakeSerial(g, k, q);
    forall u | u in g.base
      ensures TaskOk(g, k', u)
    {
      TakeTask(g, k, q, k', u);
    }
  }

  lemma TakeSerial(g: Config, k: Kernel, q: nat)
    requires QueuesOk(g, k) && q in g.consumer && Qu(k, q).list != []
    ensures Qu(k, q).got <= Qu(k, q).list[0].serial
  {
    assert QueueOk(g, q, Qu(k, q), k.queued);
    SerialsBounds(Qu(k, q).list, Qu(k, q).got, Qu(k, q).next);
  }

  ghost predicate SleepsOn(k: Kernel, q: nat, k': Kernel)
    requires k.current in k.core.tasks
  {
    && k'.queues == k.queues[q := Qu(k, q).(task := WaiterTask(k.current))] && k'.queued == k.queued
    && k'.pc == k.pc[k.current := GetEvent(q)]
    && k'.core == Block(k.core, k.current, OS_TIMEOUT_NEVER, NoObj)
    && k'.mutexes == k.mutexes && k'.holds == k.holds && k'.sems == k.sems && k'.semFlag == k.semFlag
  }

  lemma SleepOther(g: Config, k: Kernel, q: nat, k': Kernel, u: Tid)
    requires k.current in k.core.tasks && TaskOk(g, k, u) && SleepsOn(k, q, k') && u != k.current &&
             ConsumerOf(g, q) == k.current
    ensures TaskOk(g, k', u)
  {
    hide SleepsOn, PrioOk, ObjOk, Named, PcOk, Tk, PcOf, Hd, Qu;
    SleepFrame(k, q, k', u);
    PriosKept(k, k');
    OtherPc(u, Tk(k, u), PcOf(k, u), Hd(k, u), u in k.semFlag, Qu(k, PcQueue(PcOf(k, u))).task,
        Qu(k', PcQueue(PcOf(k, u))).task, g, q);
  }

  lemma SleepFrame(k: Kernel, q: nat, k': Kernel, u: Tid)
    requires k.current in k.core.tasks && SleepsOn(k, q, k') && u != k.current
    ensures Tk(k', u) == Tk(k, u) && PcOf(k', u) == PcOf(k, u) && Hd(k', u) == Hd(k, u)
    ensures k'.mutexes == k.mutexes && k'.sems == k.sems && k'.semFlag == k.semFlag
    ensures (forall t :: Tk(k', t).prio == Tk(k, t).prio) && forall p :: p != q ==> Qu(k', p) == Qu(k, p)
  {
    hide Block;
    BlockTasks(k.core, k.current, OS_TIMEOUT_NEVER, NoObj);
  }

  lemma OtherPc(u: Tid, x: Task, p: Pc, h: Held, flag: bool, w: Waiter, w': Waiter, g: Config, q: nat)
    requires PcOk(u, x, p, h, flag, w, ConsumerOf(g, PcQueue(p))) && ConsumerOf(g, q) != u &&
             (PcQueue(p) != q ==> w' == w)
    ensures PcOk(u, x, p, h, flag, w', ConsumerOf(g, PcQueue(p)))
  {
  }

  lemma PriosKept(k: Kernel, k': Kernel)
    requires k'.mutexes == k.mutexes && forall t :: Tk(k', t).prio == Tk(k, t).prio
    ensures forall o: Obj ::
              OwnerPrio(k', ObjMutex(k', o)) == OwnerPrio(k, ObjMutex(k, o)) && ObjMutex(k', o) == ObjMutex(k, o)
  {
  }

  lemma SleepSelf(g: Config, k: Kernel, q: nat, k': Kernel)
    requires k.current in k.core.tasks && TaskOk(g, k, k.current) && SleepsOn(k, q, k') &&
             ConsumerOf(g, q) == k.current && q in g.consumer
    requires Tk(k, k.current).obj == NoObj && !PcOf(k, k.current).Releasing?
    ensures TaskOk(g, k', k.current)
  {
    hide Insert, Remove, ObjOk;
    BlockTasks(k.core, k.current, OS_TIMEOUT_NEVER, NoObj);
    NothingWanted(Tk(k', k.current), GetEvent(q), Hd(k, k.current), ObjMutex(k', NoObj),
        OwnerPrio(k', ObjMutex(k', NoObj)), ObjTokens(k', NoObj));
  }

  lemma SleepQueues(g: Config, k: Kernel, q: nat, k': Kernel)
    requires k.current in k.core.tasks && k.current in g.base && QueuesOk(g, k) && q in g.consumer &&
             SleepsOn(k, q, k') && Qu(k, q).list == []
    requires !Tk(k, k.current).sleeping
    ensures QueuesOk(g, k')
  {
    hide Insert, Remove, Serials, NotIn, Block;
    BlockTasks(k.core, k.current, OS_TIMEOUT_NEVER, NoObj);
    assert QueueOk(g, q, Qu(k, q), k.queued);
    forall x | x in k'.queued
      ensures x in g.home && g.home[x] in g.consumer && (g.home[x] == q ==> !NotIn(Qu(k', q).list, x))
    {
      assert EventOk(g, k, x);
    }
    forall p | p in g.consumer && p != q
      ensures WaiterOk(g, k', p)
    {
      assert WaiterOk(g, k, p);
    }
    QueuesAfter(g, k, k', q);
  }

  lemma SleepCore(g: Config, k: Kernel, q: nat)
    requires CoreInv(k.core, 1) && Tasks(g, k) && MayGet(g, k, q) && Qu(k, q).list == []
    ensures k.current in k.core.tasks && EvGet(k, q).Empty? && SleepsOn(k, q, EvGet(k, q).k) &&
            Tasks(g, EvGet(k, q).k) && CoreInv(EvGet(k, q).k.core, 1)
    ensures
      var k' := EvGet(k, q).k;
      k'.callList == k.callList && k'.callouts == k.callouts && k'.core.clock == k.core.clock
  {
    hide CoreInv, Block;
    CurrentRuns(g, k);
    IdleRuns(g, k, 1);
    var t := k.current;
    BlockKeeps(k.core, t, OS_TIMEOUT_NEVER, NoObj);
    BlockTasks(k.core, t, OS_TIMEOUT_NEVER, NoObj);
    CorePlacedAt(Block(k.core, t, OS_TIMEOUT_NEVER, NoObj), 1);
    Scheduled(g, k, k.(core := Block(k.core, t, OS_TIMEOUT_NEVER, NoObj),
        queues := k.queues[q := Qu(k, q).(task := WaiterTask(t))], pc := k.pc[t := GetEvent(q)]));
  }

  lemma SleepTasks(g: Config, k: Kernel, q: nat, k': Kernel)
    requires k.current in k.core.tasks && TasksOk(g, k) && SleepsOn(k, q, k') && ConsumerOf(g, q) == k.current &&
             q in g.consumer
    requires Tk(k, k.current).obj == NoObj && !PcOf(k, k.current).Releasing?
    ensures TasksOk(g, k')
  {
    hide TaskOk, SleepsOn;
    forall u | u in g.base
      ensures TaskOk(g, k', u)
    {
      if u == k.current {
        SleepSelf(g, k, q, k');
      } else {
        SleepOther(g, k, q, k', u);
      }
    }
  }

  lemma SleepKeeps(g: Config, k: Kernel, q: nat)
    requires Inv(g, k) && MayGet(g, k, q) && Qu(k, q).list == []
    ensures k.current in k.core.tasks && EvGet(k, q).Empty? && Inv(g, EvGet(k, q).k)
  {
    hide CoreInv, TasksOk, MutexesOk, CalloutsOk, QueuesOk, SemsOk, EvGet, Block;
    CurrentRuns(g, k);
    SleepCore(g, k, q);
    var k' := EvGet(k, q).k;
    SleepQueues(g, k, q, k');
    MutexesFrame(g, k, k');
    SemsSame(g, k, k');
    SleepTasks(g, k, q, k');
  }

  /** os_eventq_get keeps the invariant.  The event it returns comes from a later put than any the
      queue has given before; its caller sleeps only if the queue is empty. */
  lemma EvGetKeeps(g: Config, k: Kernel, q: nat)
    requires Inv(g, k) && MayGet(g, k, q)
    ensures k.current in k.core.tasks && EvGetAgain(k, q) == EvGet(k, q)
    ensures match EvGet(k, q)
            case Got(k', e, n) => Inv(g, k') && Qu(k, q).got <= n < Qu(k', q).got && Qu(k, q).list != [] &&
                Qu(k, q).list[0] == Entry(e, n)
            case Empty(k') => Inv(g, k') && Qu(k, q).list == []
  {
    hide CoreInv, TaskOk, MutexesOk, CalloutsOk, QueuesOk, SemsOk, Block;
    CurrentRuns(g, k);
    NobodyWaits(g, k, q);
    assert k.(queues := k.queues[q := Qu(k, q).(task := NoWaiter)]) == k;
    if Qu(k, q).list == [] {
      SleepKeeps(g, k, q);
    } else {
      TakeKeeps(g, k, q);
    }
  }

  // ------------------------------------------------------------ remove

  lemma RemoveTask(g: Config, k: Kernel, q: nat, e: nat, u: Tid)
    requires TaskOk(g, k, u)
    ensures TaskOk(g, EvRemove(k, q, e), u)
  {
    hide PrioOk, ObjOk, PcOk;
  }

  lemma RemoveQueues(g: Config, k: Kernel, q: nat, e: nat)
    requires QueuesOk(g, k) && q in g.consumer && e in g.home && g.home[e] == q
    ensures QueuesOk(g, EvRemove(k, q, e))
  {
    hide Serials, NotIn, Without;
    var k', u := EvRemove(k, q, e), Qu(k, q);
    if e in k.queued {
      assert QueueOk(g, q, u, k.queued);
      WithoutElems(u.list, u.got, u.next, e);
      WithoutSerials(u.list, u.got, u.next, e);
      forall x | x in k'.queued
        ensures x in g.home && g.home[x] in g.consumer && (g.home[x] == q ==> !NotIn(Qu(k', q).list, x))
      {
        assert EventOk(g, k, x);
        if g.home[x] == q {
          WithoutKeeps(u.list, Qu(k', q).list, e, x);
        }
      }
      RemoveQueueOk(g, q, u, k.queued, e);
      forall p | p in g.consumer
        ensures WaiterOk(g, k', p)
      {
        assert WaiterOk(g, k, p);
      }
      QueuesAfter(g, k, k', q);
    }
  }

  lemma WithoutKeeps(list: seq<Entry>, list': seq<Entry>, e: nat, x: nat)
    requires !NotIn(list, x) && x != e && forall y :: y in list && y.ev != e ==> y in list'
    ensures !NotIn(list', x)
  {
  }

  lemma RemoveQueueOk(g: Config, q: nat, u: Queue, queued: set<nat>, e: nat)
    requires QueueOk(g, q, u, queued)
    ensures QueueOk(g, q, u.(list := Without(u.list, e)), queued - {e})
  {
    hide Serials;
    WithoutElems(u.list, u.got, u.next, e);
    WithoutSerials(u.list, u.got, u.next, e);
  }

  /** The entries of other events, in their order. */
  ghost function Omit(list: seq<Entry>, e: nat): seq<Entry>
    decreases |list|
  {
    if list == [] then [] else (if list[0].ev == e then [] else [list[0]]) + Omit(list[1..], e)
  }

  lemma {:induction false} OmitNone(list: seq<Entry>, e: nat)
    requires NotIn(list, e)
    ensures Omit(list, e) == list
    decreases |list|
  {
    if list != [] {
      assert list[0] in list;
      OmitNone(list[1..], e);
    }
  }

  lemma {:induction false} WithoutOmits(list: seq<Entry>, lo: nat, hi: nat, e: nat)
    requires Serials(list, lo, hi)
    ensures Without(list, e) == Omit(list, e)
    decreases |list|
  {
    if list != [] {
      if list[0].ev == e {
        OmitNone(list[1..], e);
      } else {
        WithoutOmits(list[1..], list[0].serial + 1, hi, e);
      }
    }
  }

  lemma RemoveOmits(g: Config, k: Kernel, q: nat, e: nat)
    requires QueuesOk(g, k) && q in g.consumer && e in g.home && g.home[e] == q
    ensures EvRemove(k, q, e).queued == k.queued - {e} && Qu(EvRemove(k, q, e), q).list == Omit(Qu(k, q).list, e)
  {
    hide Serials, Without, Omit;
    var u := Qu(k, q);
    assert QueueOk(g, q, u, k.queued);
    if e in k.queued {
      WithoutOmits(u.list, u.got, u.next, e);
    } else {
      assert NotIn(u.list, e);
      OmitNone(u.list, e);
    }
  }

  lemma EvRemoveKeeps(g: Config, k: Kernel, q: nat, e: nat, s: nat, c: nat)
    requires InvAt(g, k, s, c) && q in g.consumer && e in g.home && g.home[e] == q
    ensures InvAt(g, EvRemove(k, q, e), s, c)
    ensures EvRemove(k, q, e).queued == k.queued - {e} && Qu(EvRemove(k, q, e), q).list == Omit(Qu(k, q).list, e)
  {
    hide CoreInv, TaskOk, MutexesOk, CalloutsOk, QueuesOk, SemsOk;
    var k' := EvRemove(k, q, e);
    RemoveQueues(g, k, q, e);
    RemoveOmits(g, k, q, e);
    MutexesFrame(g, k, k');
    SemsSame(g, k, k');
    forall u | u in g.base
      ensures TaskOk(g, k', u)
    {
      RemoveTask(g, k, q, e, u);
    }
  }
}
