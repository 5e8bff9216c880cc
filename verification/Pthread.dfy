/** The thread library as a transition system: one step per call made by a running thread.  Threads,
    mutexes, condition variables and barriers are numbers; pointer 0 is the null pointer. */
module Pthread {

  datatype Kind = Fast | Recursive | ErrorCheck

  datatype Mutex = Mutex(kind: Kind, count: nat, owner: int)

  datatype Waiter = Waiter(thread: nat, mutex: nat)

  datatype Barrier = Barrier(num: nat, waiters: seq<nat>)

  datatype Joinee = Joinee(done: bool, joined: bool, joiner: nat, retval: int)

  datatype Joiner = Joiner(joinee: nat, retvalPtr: nat)

  /** Where a thread is: running, in the queue of a mutex, of a condition or of a barrier, waiting for
      the end of a thread, or taken out of a queue and not yet put anywhere. */
  datatype Place = Running | OnMutex(m: nat) | OnCond(c: nat) | OnBarrier(b: nat) | OnJoin(joinee: nat) | Nowhere

  /** `active` are the threads of the scheduler.  `place` and `exited` (the values given to exit) are
      history: no step depends on them. */
  datatype Sim = Sim(active: map<nat, bool>, nactive: int,
                     mutexes: map<nat, Mutex>, spinning: map<nat, seq<nat>>,
                     waiters: map<nat, seq<Waiter>>, barriers: map<nat, Barrier>,
                     joinables: map<nat, Joinee>, joinings: map<nat, Joiner>,
                     memory: map<nat, int>, nextId: nat, hthreads: nat,
                     place: map<nat, Place>, exited: map<nat, int>)

  /** What a step leads to: a next state, the end of the program because every thread waits, or the
      end of the program because of a failed check. */
  datatype Outcome = Next(s: Sim) | Deadlock | Fault

  datatype Code = Success | EDeadlk | EBusy | EPerm

  // ---------------------------------------------------------------- scheduler

  function Put(s: Sim, t: nat, p: Place): Sim {
    s.(place := s.place[t := p])
  }

  predicate IsActive(s: Sim, t: nat) {
    t in s.active && s.active[t]
  }

  function Block(s: Sim, t: nat): (r: Outcome)
    ensures r.Next? ==> r.s == s.(active := r.s.active, nactive := r.s.nactive)
  {
    if !IsActive(s, t) then Fault
    else if s.nactive - 1 > 0 then Next(s.(active := s.active[t := false], nactive := s.nactive - 1))
    else Deadlock
  }

  function Unblock(s: Sim, t: nat): (r: Outcome)
    ensures r.Next? ==> r.s == s.(active := r.s.active, nactive := r.s.nactive, place := r.s.place)
  {
    if t !in s.active || s.active[t] then Fault
    else Next(Put(s, t, Running).(active := s.active[t := true], nactive := s.nactive + 1))
  }

  // ---------------------------------------------------------------- mutexes

  /** A mutex that was never initialised by a call holds zeros. */
  function MutexOf(s: Sim, m: nat): Mutex {
    if m in s.mutexes then s.mutexes[m] else Mutex(Fast, 0, 0)
  }

  function Queue(s: Sim, m: nat): seq<nat> {
    if m in s.spinning then s.spinning[m] else []
  }

  function SetMutex(s: Sim, m: nat, x: Mutex): Sim {
    s.(mutexes := s.mutexes[m := x])
  }

  /** The thread joins the queue of the mutex. */
  function SpinOn(s: Sim, t: nat, m: nat): Sim {
    Put(s, t, OnMutex(m)).(spinning := s.spinning[m := Queue(s, m) + [t]])
  }

  datatype Locked = Locked(s: Sim, code: Code)

  function Lock(s: Sim, t: nat, m: nat, try: bool): (r: Locked)
    ensures r.s == s.(mutexes := r.s.mutexes, spinning := r.s.spinning, place := r.s.place)
  {
    var x := MutexOf(s, m);
    if x.count == 0 then Locked(SetMutex(s, m, x.(count := 1, owner := t)), Success)
    else if x.owner == t then
      if x.kind == Recursive then Locked(SetMutex(s, m, x.(count := x.count + 1)), Success)
      else Locked(if try then s else SpinOn(s, t, m), EDeadlk)
    else Locked(if try then s else SpinOn(s, t, m), EBusy)
  }

  /** Take the first thread out of the queue of the mutex. */
  function PopSpin(s: Sim, m: nat): Sim
    requires Queue(s, m) != []
  {
    var q := Queue(s, m);
    Put(s, q[0], Nowhere).(spinning := if |q| == 1 then s.spinning - {m} else s.spinning[m := q[1..]])
  }

  /** The released mutex goes to the thread that has waited longest. */
  function HandOff(s: Sim, m: nat): Outcome {
    if Queue(s, m) == [] then Next(s)
    else Unblock(Lock(PopSpin(s, m), Queue(s, m)[0], m, false).s, Queue(s, m)[0])
  }

  function UnlockCode(s: Sim, t: nat, m: nat): Code {
    var x := MutexOf(s, m);
    if x.kind == ErrorCheck && (x.count == 0 || x.owner != t) then EPerm else Success
  }

  function MutexUnlock(s: Sim, t: nat, m: nat): Outcome {
    var x := MutexOf(s, m);
    if UnlockCode(s, t, m) != Success then Next(s)
    else if x.kind == Recursive then
      if x.count == 0 then Fault
      else if x.count > 1 then Next(SetMutex(s, m, x.(count := x.count - 1)))
      else HandOff(SetMutex(s, m, x.(count := 0)), m)
    else HandOff(SetMutex(s, m, x.(count := 0)), m)
  }

  function MutexLock(s: Sim, t: nat, m: nat): Outcome {
    var r := Lock(s, t, m, false);
    if r.code != Success then Block(r.s, t) else Next(r.s)
  }

  // ---------------------------------------------------------------- condition variables

  function WaitersOf(s: Sim, c: nat): seq<Waiter> {
    if c in s.waiters then s.waiters[c] else []
  }

  function AddWaiter(s: Sim, c: nat, t: nat, m: nat): Sim {
    Put(s, t, OnCond(c)).(waiters := s.waiters[c := WaitersOf(s, c) + [Waiter(t, m)]])
  }

  function PopWaiter(s: Sim, c: nat): (s': Sim)
    requires WaitersOf(s, c) != []
    ensures WaitersOf(s', c) == WaitersOf(s, c)[1..]
  {
    var q := WaitersOf(s, c);
    Put(s, q[0].thread, Nowhere).(waiters := if |q| == 1 then s.waiters - {c} else s.waiters[c := q[1..]])
  }

  function CondWait(s: Sim, t: nat, c: nat, m: nat): Outcome {
    match MutexUnlock(s, t, m)
    case Next(s1) => Block(AddWaiter(s1, c, t, m), t)
    case other => other
  }

  /** Move the first waiter of the condition to its mutex. */
  function WakeOne(s: Sim, c: nat): (r: Outcome)
    requires WaitersOf(s, c) != []
    ensures r.Next? ==> WaitersOf(r.s, c) == WaitersOf(s, c)[1..]
  {
    var w := WaitersOf(s, c)[0];
    var r := Lock(PopWaiter(s, c), w.thread, w.mutex, false);
    if r.code == Success then Unblock(r.s, w.thread) else Next(r.s)
  }

  function Signal(s: Sim, c: nat): Outcome {
    if WaitersOf(s, c) == [] then Next(s) else WakeOne(s, c)
  }

  function Broadcast(s: Sim, c: nat): Outcome
    decreases |WaitersOf(s, c)|
  {
    if WaitersOf(s, c) == [] then Next(s)
    else
      match WakeOne(s, c)
      case Next(s1) => Broadcast(s1, c)
      case other => other
  }

  // ---------------------------------------------------------------- barriers

  function SetBarrier(s: Sim, b: nat, x: Barrier): Sim {
    s.(barriers := s.barriers[b := x])
  }

  function AddToBarrier(s: Sim, b: nat, t: nat): Sim
    requires b in s.barriers
  {
    Put(SetBarrier(s, b, s.barriers[b].(waiters := s.barriers[b].waiters + [t])), t, OnBarrier(b))
  }

  function PopBarrier(s: Sim, b: nat): (s': Sim)
    requires b in s.barriers && s.barriers[b].waiters != []
    ensures b in s'.barriers && s'.barriers[b].waiters == s.barriers[b].waiters[1..]
  {
    var x := s.barriers[b];
    Put(SetBarrier(s, b, x.(waiters := x.waiters[1..])), x.waiters[0], Nowhere)
  }

  /** The first thread at the barrier goes on; the one that came last is running already. */
  function ReleaseOne(s: Sim, b: nat, last: nat): (r: Outcome)
    requires b in s.barriers && s.barriers[b].waiters != []
    ensures r.Next? ==> b in r.s.barriers && r.s.barriers[b].waiters == s.barriers[b].waiters[1..]
  {
    var t := s.barriers[b].waiters[0];
    if t == last then Next(Put(PopBarrier(s, b), last, Running)) else Unblock(PopBarrier(s, b), t)
  }

  /** Everyone at the barrier goes on. */
  function ReleaseAll(s: Sim, b: nat, last: nat): Outcome
    requires b in s.barriers
    decreases |s.barriers[b].waiters|
  {
    if s.barriers[b].waiters == [] then Next(s)
    else
      match ReleaseOne(s, b, last)
      case Next(s1) => ReleaseAll(s1, b, last)
      case other => other
  }

  function BarrierWait(s: Sim, t: nat, b: nat): Outcome {
    if b !in s.barriers then Fault
    else
      var s1 := AddToBarrier(s, b, t);
      if |s1.barriers[b].waiters| == s1.barriers[b].num then ReleaseAll(s1, b, t) else Block(s1, t)
  }

  // ---------------------------------------------------------------- creation, exit and join

  function Create(s: Sim, joinable: bool): Outcome {
    var t := s.nextId;
    if t in s.active || |s.active| + 1 > s.hthreads || (joinable && t in s.joinables) then Fault
    else
      Next(Put(s, t, Running).(active := s.active[t := true], nactive := s.nactive + 1, nextId := t + 1,
                               joinables := if joinable then s.joinables[t := Joinee(false, false, 0, 0)] else s.joinables))
  }

  function Store(memory: map<nat, int>, ptr: nat, v: int): map<nat, int> {
    if ptr != 0 then memory[ptr := v] else memory
  }

  /** The record of a joined thread is given up and the value handed to the joiner. */
  function Deliver(s: Sim, t: nat, v: int): Outcome
    requires t in s.joinables
  {
    var j := s.joinables[t].joiner;
    if j !in s.joinings || s.joinings[j].joinee != t then Fault
    else
      Unblock(Unjoin(s, t, v), j)
  }

  function Unjoin(s: Sim, t: nat, v: int): Sim
    requires t in s.joinables && s.joinables[t].joiner in s.joinings
  {
    var j := s.joinables[t].joiner;
    Put(s, j, Nowhere).(memory := Store(s.memory, s.joinings[j].retvalPtr, v),
                        joinings := s.joinings - {j}, joinables := s.joinables - {t})
  }

  function KillJoin(s: Sim, t: nat, v: int): Outcome {
    if t !in s.joinables then Next(s)
    else if s.joinables[t].joined then Deliver(s, t, v)
    else Next(s.(joinables := s.joinables[t := s.joinables[t].(done := true, retval := v)]))
  }

  /** The thread leaves the scheduler. */
  function Kill(s: Sim, t: nat, v: int): Outcome {
    if !IsActive(s, t) then Fault
    else Next(s.(active := s.active - {t}, nactive := s.nactive - 1, place := s.place - {t}, exited := s.exited[t := v]))
  }

  function Exit(s: Sim, t: nat, v: int): Outcome {
    match KillJoin(s, t, v)
    case Next(s1) => Kill(s1, t, v)
    case other => other
  }

  function StartJoin(s: Sim, t: nat, joinee: nat, ptr: nat): Sim
    requires joinee in s.joinables
  {
    Put(s, t, OnJoin(joinee)).(joinables := s.joinables[joinee := s.joinables[joinee].(joined := true, joiner := t)],
                               joinings := s.joinings[t := Joiner(joinee, ptr)])
  }

  function Join(s: Sim, t: nat, joinee: nat, ptr: nat): Outcome {
    if t == joinee || joinee !in s.joinables || s.joinables[joinee].joined then Fault
    else if s.joinables[joinee].done then
      Next(s.(memory := Store(s.memory, ptr, s.joinables[joinee].retval), joinables := s.joinables - {joinee}))
    else if t in s.joinings then Fault
    else Block(StartJoin(s, t, joinee, ptr), t)
  }

  function Detach(s: Sim, th: nat): Sim {
    if th in s.active && th in s.joinables && !s.joinables[th].joined then s.(joinables := s.joinables - {th}) else s
  }

  // ---------------------------------------------------------------- steps

  datatype Call =
    | MutexInitCall(m: nat, kind: Kind)
    | LockCall(m: nat)
    | TryLockCall(m: nat)
    | UnlockCall(m: nat)
    | WaitCall(c: nat, m: nat)
    | SignalCall(c: nat)
    | BroadcastCall(c: nat)
    | BarrierInitCall(b: nat, num: nat)
    | BarrierDestroyCall(b: nat)
    | BarrierWaitCall(b: nat)
    | CreateCall(joinable: bool)
    | ExitCall(v: int)
    | JoinCall(joinee: nat, ptr: nat)
    | DetachCall(th: nat)

  /** Mutexes and barriers are not initialised or destroyed while threads wait on them. */
  predicate NotInUse(s: Sim, a: Call) {
    match a
    case MutexInitCall(m, kind) => Queue(s, m) == []
    case BarrierInitCall(b, num) => b in s.barriers ==> s.barriers[b].waiters == []
    case BarrierDestroyCall(b) => b in s.barriers ==> s.barriers[b].waiters == []
    case _ => true
  }

  /** The call `a` of the running thread t. */
  function Step(s: Sim, t: nat, a: Call): Outcome {
    match a
    case MutexInitCall(m, kind) => Next(SetMutex(s, m, Mutex(kind, 0, -1)))
    case LockCall(m) => MutexLock(s, t, m)
    case TryLockCall(m) => Next(Lock(s, t, m, true).s)
    case UnlockCall(m) => MutexUnlock(s, t, m)
    case WaitCall(c, m) => CondWait(s, t, c, m)
    case SignalCall(c) => Signal(s, c)
    case BroadcastCall(c) => Broadcast(s, c)
    case BarrierInitCall(b, num) => Next(SetBarrier(s, b, Barrier(num, [])))
    case BarrierDestroyCall(b) => if b in s.barriers then Next(s.(barriers := s.barriers - {b})) else Fault
    case BarrierWaitCall(b) => BarrierWait(s, t, b)
    case CreateCall(joinable) => Create(s, joinable)
    case ExitCall(v) => Exit(s, t, v)
    case JoinCall(joinee, ptr) => Join(s, t, joinee, ptr)
    case DetachCall(th) => Next(Detach(s, th))
  }

  /** The program starts with one thread, number 0, whose end can be waited for. */
  function Initial(hthreads: nat): Sim {
    Sim(map[0 := true], 1, map[], map[], map[], map[], map[0 := Joinee(false, false, 0, 0)], map[], map[], 1, hthreads,
        map[0 := Running], map[])
  }

  /** s' is reached from s by the calls in order, each made by a running thread. */
  ghost predicate Run(s: Sim, calls: seq<(nat, Call)>, s': Sim)
    decreases |calls|
  {
    if calls == [] then s' == s
    else
      var (t, a) := calls[0];
      IsActive(s, t) && NotInUse(s, a) && Step(s, t, a).Next? && Run(Step(s, t, a).s, calls[1..], s')
  }
}
