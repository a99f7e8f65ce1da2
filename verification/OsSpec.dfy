/** What the system calls mean: a machine without lists, without a clock and without wrap-around.  A sleeper
    has so many ticks left and waits for an object or for nothing; a mutex has an owner, a semaphore tokens, a
    queue events, a callout so many ticks to go.  Where the kernel chooses among equals, any choice will do. */
module OsSpec {
  import opened Common
  import opened OsSched
  import opened OsKernel
  import opened OsRun

  datatype Time = Ticks(n: nat) | NoLimit

  datatype Rest = Awake | Asleep(left: Time, on: Obj)

  datatype State = State(
    prio: map<Tid, nat>, rest: map<Tid, Rest>, at: map<Tid, Pc>, running: Tid,
    mutexes: map<nat, Mutex>, tokens: map<nat, nat>, events: map<nat, seq<nat>>, timers: map<nat, nat>)

  function Prio(a: State, t: Tid): nat {
    if t in a.prio then a.prio[t] else 0
  }

  function RestOf(a: State, t: Tid): Rest {
    if t in a.rest then a.rest[t] else Awake
  }

  function Place(a: State, t: Tid): Pc {
    if t in a.at then a.at[t] else Outside
  }

  function MutexIn(a: State, m: nat): Mutex {
    if m in a.mutexes then a.mutexes[m] else Mutex(NoOwner, 0, 0)
  }

  function Tokens(a: State, s: nat): nat {
    if s in a.tokens then a.tokens[s] else 0
  }

  function Events(a: State, q: nat): seq<nat> {
    if q in a.events then a.events[q] else []
  }

  // ------------------------------------------------------------ scheduling

  /** No task that is awake is more urgent. */
  ghost predicate Urgent(a: State, t: Tid) {
    && t in a.prio && RestOf(a, t) == Awake
    && forall u :: u in a.prio && RestOf(a, u) == Awake ==> Prio(a, t) <= Prio(a, u)
  }

  /** One of the most urgent tasks runs. */
  ghost predicate Rescheduled(a: State, a': State) {
    a' == a.(running := a'.running) && Urgent(a', a'.running)
  }

  ghost predicate Waits(a: State, t: Tid, o: Obj) {
    t in a.prio && RestOf(a, t).Asleep? && RestOf(a, t).on == o
  }

  /** One of the most urgent tasks that wait for the object. */
  ghost predicate First(a: State, t: Tid, o: Obj) {
    Waits(a, t, o) && forall u :: Waits(a, u, o) ==> Prio(a, t) <= Prio(a, u)
  }

  function TimeOf(timeout: nat): Time {
    if timeout == OS_TIMEOUT_NEVER then NoLimit else Ticks(timeout)
  }

  /** The running task sleeps, in the call where it is. */
  function Sleep(a: State, timeout: nat, o: Obj, p: Pc): State {
    a.(rest := a.rest[a.running := Asleep(TimeOf(timeout), o)], at := a.at[a.running := p])
  }

  function WakeUp(a: State, t: Tid): State {
    a.(rest := a.rest[t := Awake])
  }

  function Go(a: State, t: Tid, p: Pc): State {
    a.(at := a.at[t := p])
  }

  // ------------------------------------------------------------ mutexes

  function SetMutex(a: State, m: nat, mu: Mutex): State {
    a.(mutexes := a.mutexes[m := mu])
  }

  /** The owner of the mutex is as urgent as the running task, or more. */
  function Lend(a: State, m: nat): State {
    match MutexIn(a, m).owner
    case NoOwner => a
    case Owned(o) => if Prio(a, o) <= Prio(a, a.running) then a else a.(prio := a.prio[o := Prio(a, a.running)])
  }

  ghost predicate PendsMutex(a: State, m: nat, timeout: nat, a': State) {
    var mu, t := MutexIn(a, m), a.running;
    if mu.level == 0 then a' == SetMutex(a, m, Mutex(Owned(t), 1, Prio(a, t)))
    else if mu.owner == Owned(t) then a' == SetMutex(a, m, mu.(level := mu.level + 1))
    else if timeout == 0 then a' == a
    else Rescheduled(Sleep(Lend(a, m), timeout, MutexObj(m), PendMutex(m)), a')
  }

  /** The release up to its critical section. */
  ghost predicate DropsMutex(a: State, m: nat, a': State) {
    var mu := MutexIn(a, m);
    if mu.level == 0 || mu.owner != Owned(a.running) then a' == a
    else
      var b := SetMutex(a, m, mu.(level := mu.level - 1));
      a' == if mu.level == 1 then Go(b, a.running, Releasing(m)) else b
  }

  /** Its critical section: the mutex goes to one of the most urgent waiters, if there are any. */
  ghost predicate GivesMutex(a: State, m: nat, a': State) {
    var b := a.(prio := a.prio[a.running := MutexIn(a, m).prio]);
    if forall t :: !Waits(b, t, MutexObj(m)) then Leaves(SetMutex(b, m, MutexIn(a, m).(owner := NoOwner)), a')
    else
      exists r :: First(b, r, MutexObj(m)) &&
                  Leaves(WakeUp(SetMutex(b, m, Mutex(Owned(r), 1, Prio(b, r))), r), a')
  }

  /** The running task goes on, or goes to switch to a task at least as urgent as all others. */
  ghost predicate Leaves(a: State, a': State) {
    exists u :: Urgent(a, u) && a' == Go(a, a.running, if u == a.running then Outside else Switching(u))
  }

  // ------------------------------------------------------------ semaphores

  function SetTokens(a: State, s: nat, n: nat): State {
    a.(tokens := a.tokens[s := n])
  }

  ghost predicate PendsSem(a: State, s: nat, timeout: nat, a': State) {
    if Tokens(a, s) > 0 then a' == SetTokens(a, s, Tokens(a, s) - 1)
    else if timeout == 0 then a' == a
    else Rescheduled(Sleep(a, timeout, SemObj(s), PendSem(s, false)), a')
  }

  /** A waiter, one of the most urgent, is told so and woken; without waiters there is a token more. */
  ghost predicate ReleasesSem(a: State, s: nat, isr: bool, a': State) {
    if forall t :: !Waits(a, t, SemObj(s)) then a' == SetTokens(a, s, Tokens(a, s) + 1)
    else
      exists r :: First(a, r, SemObj(s)) && Hands(a, s, isr, r, a')
  }

  ghost predicate Hands(a: State, s: nat, isr: bool, r: Tid, a': State) {
    var b := Go(WakeUp(a, r), r, PendSem(s, true));
    if Prio(a, a.running) <= Prio(a, r) then a' == b
    else if isr then Rescheduled(b, a')
    else a' == Go(b, a.running, Switching(r))
  }

  // ------------------------------------------------------------ events

  function SetEvents(a: State, q: nat, s: seq<nat>): State {
    a.(events := a.events[q := s])
  }

  /** The consumer of the queue sleeps for want of an event. */
  ghost predicate Starved(g: Config, a: State, q: nat) {
    q in g.consumer && RestOf(a, g.consumer[q]).Asleep? && Place(a, g.consumer[q]) == GetEvent(q)
  }

  ghost predicate PutsEvent(g: Config, a: State, e: nat, a': State) {
    var q := HomeOf(g, e);
    if e in Events(a, q) then a' == a
    else
      var b := SetEvents(a, q, Events(a, q) + [e]);
      if Starved(g, a, q) then Rescheduled(WakeUp(b, g.consumer[q]), a') else a' == b
  }

  ghost predicate GetsEvent(a: State, q: nat, a': State) {
    if Events(a, q) != [] then a' == Go(SetEvents(a, q, Events(a, q)[1..]), a.running, Outside)
    else Rescheduled(Sleep(a, OS_TIMEOUT_NEVER, NoObj, GetEvent(q)), a')
  }

  /** The queue without the event, in its order. */
  function Except(s: seq<nat>, e: nat): seq<nat> {
    if s == [] then [] else (if s[0] == e then [] else [s[0]]) + Except(s[1..], e)
  }

  function RemoveEvent(g: Config, a: State, e: nat): State {
    SetEvents(a, HomeOf(g, e), Except(Events(a, HomeOf(g, e)), e))
  }

  // ------------------------------------------------------------ callouts and time

  function StopTimer(g: Config, a: State, c: nat): State {
    RemoveEvent(g, a.(timers := a.timers - {c}), EventOf(g, c))
  }

  function ResetTimer(g: Config, a: State, c: nat, ticks: int): State {
    if ticks < 0 then a
    else
      var b := StopTimer(g, a, c);
      b.(timers := b.timers[c := if ticks == 0 then 1 else ticks])
  }

  /** A tick less to sleep. */
  function TickRest(r: Rest): Rest {
    if r.Asleep? && r.left.Ticks? then (if r.left.n <= 1 then Awake else r.(left := Ticks(r.left.n - 1))) else r
  }

  function TickTimers(timers: map<nat, nat>): map<nat, nat> {
    map c | c in timers && timers[c] > 1 :: timers[c] - 1
  }

  /** A callout of the event has its last tick. */
  ghost predicate RunsOut(g: Config, a: State, e: nat) {
    exists c :: c in a.timers && a.timers[c] <= 1 && EventOf(g, c) == e
  }

  /** `added` are the events of the callouts whose last tick this is, those that are not queued already. */
  ghost predicate Fires(g: Config, a: State, q: nat, added: seq<nat>) {
    && NoDup(added)
    && forall e :: e in added <==> e !in Events(a, q) && HomeOf(g, e) == q && RunsOut(g, a, e)
  }

  /** A tick: everybody has one tick less; callouts that run out put their events, which wakes the consumers. */
  ghost predicate Ticked(g: Config, a: State, a': State) {
    && a'.prio == a.prio && a'.at == a.at && a'.mutexes == a.mutexes && a'.tokens == a.tokens
    && a'.timers == TickTimers(a.timers)
    && a'.events.Keys == a.events.Keys && a'.rest.Keys == a.rest.Keys
    && (forall q :: q in a.events ==>
         Events(a, q) <= Events(a', q) && Fires(g, a, q, Events(a', q)[|Events(a, q)|..]))
    && (forall t :: t in a.rest ==> RestOf(a', t) == if Served(g, a, a', t) then Awake else TickRest(RestOf(a, t)))
    && Urgent(a', a'.running)
  }

  /** The task waits for an event, and one has come. */
  ghost predicate Served(g: Config, a: State, a': State, t: Tid) {
    Place(a, t).GetEvent? && RestOf(a, t).Asleep? && Events(a', Place(a, t).q) != []
  }

  // ------------------------------------------------------------ the machine

  ghost predicate Resumes(a: State, a': State) {
    match Place(a, a.running)
    case Outside => a' == a
    case PendMutex(m) => a' == Go(a, a.running, Outside)
    case PendSem(s, got) => a' == Go(a, a.running, Outside)
    case GetEvent(q) => GetsEvent(a, q, a')
    case Releasing(m) => GivesMutex(a, m, a')
    case Switching(to) => Rescheduled(Go(a, a.running, Outside), a')
  }

  ghost predicate SpecStep(g: Config, a: State, s: Step, a': State) {
    match s
    case DoMutexPend(m, timeout) => PendsMutex(a, m, timeout, a')
    case DoMutexRelease(m) => DropsMutex(a, m, a')
    case DoSemPend(n, timeout) => PendsSem(a, n, timeout, a')
    case DoSemRelease(n) => ReleasesSem(a, n, false, a')
    case DoSemSignal(n) => ReleasesSem(a, n, true, a')
    case DoPut(e) => PutsEvent(g, a, e, a')
    case DoGet(q) => GetsEvent(a, q, a')
    case DoRemove(e) => a' == RemoveEvent(g, a, e)
    case DoReset(c, ticks) => a' == ResetTimer(g, a, c, ticks)
    case DoStop(c) => a' == StopTimer(g, a, c)
    case DoDelay(ticks) => Rescheduled(Sleep(a, ticks, NoObj, Outside), a')
    case DoResume => Resumes(a, a')
    case DoTick => Ticked(g, a, a')
  }

  /** What a call returns: a code, or the event that a get has got. */
  datatype Reply = Code(rc: Rc) | Event(e: nat)

  function Fetched(a: State, q: nat): Option<Reply> {
    if Events(a, q) == [] then None else Some(Event(Events(a, q)[0]))
  }

  /** The reply, if the call returns in this step.  The code that a release returns is known before its
      critical section. */
  function SpecReply(a: State, s: Step): Option<Reply> {
    match s
    case DoMutexPend(m, timeout) =>
      if MutexIn(a, m).level == 0 || MutexIn(a, m).owner == Owned(a.running) then Some(Code(Ok))
      else if timeout == 0 then Some(Code(Timeout))
      else None
    case DoMutexRelease(m) =>
      Some(Code(if MutexIn(a, m).level > 0 && MutexIn(a, m).owner == Owned(a.running) then Ok else BadMutex))
    case DoSemPend(n, timeout) =>
      if Tokens(a, n) > 0 then Some(Code(Ok)) else if timeout == 0 then Some(Code(Timeout)) else None
    case DoGet(q) => Fetched(a, q)
    case DoReset(c, ticks) => Some(Code(if ticks < 0 then Invalid else Ok))
    case DoResume =>
      (match Place(a, a.running)
       case PendMutex(m) => Some(Code(if MutexIn(a, m).owner == Owned(a.running) then Ok else Timeout))
       case PendSem(n, got) => Some(Code(if got then Ok else Timeout))
       case GetEvent(q) => Fetched(a, q)
       case _ => None)
    case _ => None
  }
}
