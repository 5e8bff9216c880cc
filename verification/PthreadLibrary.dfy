/** The thread library as the program runs it: the tables of its managers updated in place.  Every
    method is proved against the step function of module Pthread; `Failed` stands for a check that ends
    the program. */
module PthreadLibrary {
  import opened Pthread
  import opened PthreadSafety
  import opened PthreadRuns

  datatype Status = Fine | Deadlocked | Failed

  /** The outcome o of a step is what a method that returned `status` in state s has done. */
  ghost predicate Does(o: Outcome, status: Status, s: Sim) {
    match o
    case Next(s') => status == Fine && s == s'
    case Deadlock => status == Deadlocked
    case Fault => status == Failed
  }

  lemma QueuesNotEmpty(s: Sim)
    requires Inv(s)
    ensures forall m :: m in s.spinning ==> s.spinning[m] != []
    ensures forall c :: c in s.waiters ==> s.waiters[c] != []
  {
  }

  /** A call that succeeds keeps the invariant. */
  lemma Keeps(s: Sim, t: nat, a: Call)
    requires Inv(s) && IsActive(s, t) && NotInUse(s, a)
    ensures forall s' :: Step(s, t, a) == Next(s') ==> Inv(s')
  {
    if Step(s, t, a).Next? { StepInv(s, t, a); }
  }

  class PthreadSim {
    // scheduler
    var active: map<nat, bool>
    var nactive: int
    const hthreads: nat
    // mutex manager
    var mutexes: map<nat, Mutex>
    var spinning: map<nat, seq<nat>>
    // condition and barrier managers
    var waiters: map<nat, seq<Waiter>>
    var barriers: map<nat, Barrier>
    // join manager
    var joinables: map<nat, Joinee>
    var joinings: map<nat, Joiner>
    var memory: map<nat, int>
    var newThreadId: nat
    ghost var place: map<nat, Place>
    ghost var exited: map<nat, int>

    ghost function State(): Sim
      reads this
    {
      Sim(active, nactive, mutexes, spinning, waiters, barriers, joinables, joinings, memory, newThreadId, hthreads, place, exited)
    }

    ghost predicate Valid()
      reads this
    {
      Inv(State())
    }

    constructor (threads: nat)
      ensures Valid() && State() == Initial(threads)
    {
      active, nactive, hthreads, newThreadId := map[0 := true], 1, threads, 1;
      mutexes, spinning, waiters, barriers := map[], map[], map[], map[];
      joinables, joinings, memory := map[0 := Joinee(false, false, 0, 0)], map[], map[];
      place, exited := map[0 := Running], map[];
      new;
      InitialInv(threads);
    }

    // -------------------------------------------------------------- scheduler

    method BlockThread(thread: nat) returns (status: Status)
      modifies this`active, this`nactive
      ensures Does(Block(old(State()), thread), status, State())
    {
      if thread !in active || !active[thread] { return Failed; }
      active := active[thread := false];
      nactive := nactive - 1;
      status := if nactive > 0 then Fine else Deadlocked;
    }

    method UnblockThread(thread: nat) returns (status: Status)
      modifies this`active, this`nactive, this`place
      ensures Does(Unblock(old(State()), thread), status, State())
    {
      if thread !in active || active[thread] { return Failed; }
      active := active[thread := true];
      nactive := nactive + 1;
      place := place[thread := Running];
      status := Fine;
    }

    // -------------------------------------------------------------- mutexes

    method MutexInit(ghost current: nat, mutex: nat, kind: Kind)
      requires Valid() && IsActive(State(), current) && Queue(State(), mutex) == []
      modifies this`mutexes
      ensures State() == SetMutex(old(State()), mutex, Mutex(kind, 0, -1))
      ensures Valid()
    {
      Keeps(State(), current, MutexInitCall(mutex, kind));
      QueuesNotEmpty(State());
      hide Inv;
      mutexes := mutexes[mutex := Mutex(kind, 0, -1)];
    }

    method LockFor(thread: nat, mutex: nat, trylock: bool) returns (code: Code)
      modifies this`mutexes, this`spinning, this`place
      ensures State() == Lock(old(State()), thread, mutex, trylock).s && code == Lock(old(State()), thread, mutex, trylock).code
    {
      var x := if mutex in mutexes then mutexes[mutex] else Mutex(Fast, 0, 0);
      if x.count == 0 {
        mutexes := mutexes[mutex := x.(count := 1, owner := thread)];
        return Success;
      }
      if x.owner == thread && x.kind == Recursive {
        mutexes := mutexes[mutex := x.(count := x.count + 1)];
        return Success;
      }
      if !trylock { Spin(thread, mutex); }
      code := if x.owner == thread then EDeadlk else EBusy;
    }

    /** The thread joins the queue of the mutex. */
    method Spin(thread: nat, mutex: nat)
      modifies this`spinning, this`place
      ensures State() == SpinOn(old(State()), thread, mutex)
    {
      var queue := if mutex in spinning then spinning[mutex] else [];
      spinning := spinning[mutex := queue + [thread]];
      place := place[thread := OnMutex(mutex)];
    }

    /** Hand the free mutex to the first thread of its queue. */
    method UnblockSpinning(mutex: nat) returns (status: Status)
      requires forall m :: m in spinning ==> spinning[m] != []
      modifies this`mutexes, this`spinning, this`active, this`nactive, this`place
      ensures Does(HandOff(old(State()), mutex), status, State())
    {
      if mutex !in spinning { return Fine; }
      var thread := spinning[mutex][0];
      var rest := spinning[mutex][1..];
      spinning := if rest == [] then spinning - {mutex} else spinning[mutex := rest];
      place := place[thread := Nowhere];
      assert State() == PopSpin(old(State()), mutex);
      var code := LockFor(thread, mutex, false);
      status := UnblockThread(thread);
    }

    method Release(current: nat, mutex: nat) returns (status: Status)
      requires forall m :: m in spinning ==> spinning[m] != []
      modifies this`mutexes, this`spinning, this`active, this`nactive, this`place
      ensures Does(Pthread.MutexUnlock(old(State()), current, mutex), status, State())
    {
      var x := if mutex in mutexes then mutexes[mutex] else Mutex(Fast, 0, 0);
      if x.kind == ErrorCheck && (x.count == 0 || x.owner != current) { return Fine; }
      if x.kind == Recursive {
        if x.count == 0 { return Failed; }
        mutexes := mutexes[mutex := x.(count := x.count - 1)];
        if x.count > 1 { return Fine; }
      } else {
        mutexes := mutexes[mutex := x.(count := 0)];
      }
      status := UnblockSpinning(mutex);
    }

    method MutexUnlock(current: nat, mutex: nat) returns (status: Status)
      requires Valid() && IsActive(State(), current)
      modifies this`mutexes, this`spinning, this`active, this`nactive, this`place
      ensures Does(Pthread.MutexUnlock(old(State()), current, mutex), status, State())
      ensures status == Fine ==> Valid()
    {
      Keeps(State(), current, UnlockCall(mutex));
      QueuesNotEmpty(State());
      hide Inv;
      status := Release(current, mutex);
    }

    method MutexTrylock(current: nat, mutex: nat) returns (code: Code)
      requires Valid() && IsActive(State(), current)
      modifies this`mutexes, this`spinning, this`place
      ensures Valid() && State() == Lock(old(State()), current, mutex, true).s && code == Lock(old(State()), current, mutex, true).code
    {
      Keeps(State(), current, TryLockCall(mutex));
      hide Inv;
      code := LockFor(current, mutex, true);
    }

    method MutexLock(current: nat, mutex: nat) returns (status: Status)
      requires Valid() && IsActive(State(), current)
      modifies this`mutexes, this`spinning, this`active, this`nactive, this`place
      ensures Does(Pthread.MutexLock(old(State()), current, mutex), status, State())
      ensures status == Fine ==> Valid()
    {
      Keeps(State(), current, LockCall(mutex));
      QueuesNotEmpty(State());
      hide Inv;
      var code := LockFor(current, mutex, false);
      status := Fine;
      if code != Success { status := BlockThread(current); }
    }

    // -------------------------------------------------------------- condition variables

    method WaitOn(current: nat, cond: nat, mutex: nat) returns (status: Status)
      requires forall m :: m in spinning ==> spinning[m] != []
      modifies this
      ensures Does(Pthread.CondWait(old(State()), current, cond, mutex), status, State())
    {
      status := Release(current, mutex);
      if status != Fine { return; }
      var w := Waiter(current, mutex);
      var list := if cond in waiters then waiters[cond] else [];
      waiters := waiters[cond := list + [w]];
      place := place[current := OnCond(cond)];
      status := BlockThread(current);
    }

    method CondWait(current: nat, cond: nat, mutex: nat) returns (status: Status)
      requires Valid() && IsActive(State(), current)
      modifies this
      ensures Does(Pthread.CondWait(old(State()), current, cond, mutex), status, State())
      ensures status == Fine ==> Valid()
    {
      Keeps(State(), current, WaitCall(cond, mutex));
      QueuesNotEmpty(State());
      hide Inv;
      status := WaitOn(current, cond, mutex);
    }

    /** Take the first waiter of the condition and let it ask for its mutex. */
    method Wake(cond: nat) returns (status: Status)
      requires cond in waiters && waiters[cond] != []
      modifies this
      ensures Does(WakeOne(old(State()), cond), status, State())
    {
      var w := waiters[cond][0];
      var rest := waiters[cond][1..];
      waiters := if rest == [] then waiters - {cond} else waiters[cond := rest];
      place := place[w.thread := Nowhere];
      assert State() == PopWaiter(old(State()), cond);
      var code := LockFor(w.thread, w.mutex, false);
      status := Fine;
      if code == Success { status := UnblockThread(w.thread); }
    }

    method CondSignal(ghost current: nat, cond: nat) returns (status: Status)
      requires Valid() && IsActive(State(), current)
      modifies this
      ensures Does(Signal(old(State()), cond), status, State())
      ensures status == Fine ==> Valid()
    {
      Keeps(State(), current, SignalCall(cond));
      QueuesNotEmpty(State());
      hide Inv;
      status := Fine;
      if cond in waiters { status := Wake(cond); }
    }

    /** Wake the waiters one after the other until none is left. */
    method CondBroadcast(ghost current: nat, cond: nat) returns (status: Status)
      requires Valid() && IsActive(State(), current)
      modifies this
      ensures Does(Broadcast(old(State()), cond), status, State())
      ensures status == Fine ==> Valid()
    {
      Keeps(State(), current, BroadcastCall(cond));
      QueuesNotEmpty(State());
      hide Inv;
      ghost var s := State();
      status := Fine;
      while cond in waiters
        invariant status == Fine && Broadcast(s, cond) == Broadcast(State(), cond)
        invariant cond in waiters ==> waiters[cond] != []
        decreases |WaitersOf(State(), cond)|
      {
        ghost var before := State();
        status := Wake(cond);
        if status != Fine { return; }
        WakeKeeps(before, cond);
      }
    }

    lemma WakeKeeps(s: Sim, cond: nat)
      requires WaitersOf(s, cond) != [] && WakeOne(s, cond).Next?
      ensures var s' := WakeOne(s, cond).s; cond in s'.waiters ==> s'.waiters[cond] != []
    {
    }

    // -------------------------------------------------------------- barriers

    method BarrierInit(ghost current: nat, barrier: nat, num: nat)
      requires Valid() && IsActive(State(), current) && NotInUse(State(), BarrierInitCall(barrier, num))
      modifies this`barriers
      ensures State() == SetBarrier(old(State()), barrier, Barrier(num, []))
      ensures Valid()
    {
      Keeps(State(), current, BarrierInitCall(barrier, num));
      QueuesNotEmpty(State());
      hide Inv;
      barriers := barriers[barrier := Barrier(num, [])];
    }

    method BarrierDestroy(ghost current: nat, barrier: nat) returns (status: Status)
      requires Valid() && IsActive(State(), current) && NotInUse(State(), BarrierDestroyCall(barrier))
      modifies this`barriers
      ensures Does(Step(old(State()), current, BarrierDestroyCall(barrier)), status, State())
      ensures status == Fine ==> Valid()
    {
      Keeps(State(), current, BarrierDestroyCall(barrier));
      QueuesNotEmpty(State());
      hide Inv;
      if barrier !in barriers { return Failed; }
      barriers := barriers - {barrier};
      status := Fine;
    }

    /** Wait until all participants have come; the last one lets the others go. */
    method BarrierWait(current: nat, barrier: nat) returns (status: Status)
      requires Valid() && IsActive(State(), current)
      modifies this
      ensures Does(Pthread.BarrierWait(old(State()), current, barrier), status, State())
      ensures status == Fine ==> Valid()
    {
      Keeps(State(), current, BarrierWaitCall(barrier));
      QueuesNotEmpty(State());
      hide Inv;
      if barrier !in barriers { return Failed; }
      var x := barriers[barrier];
      barriers := barriers[barrier := x.(waiters := x.waiters + [current])];
      place := place[current := OnBarrier(barrier)];
      ghost var s := State();
      assert s == AddToBarrier(old(State()), barrier, current);
      if |x.waiters| + 1 != x.num {
        status := BlockThread(current);
        return;
      }
      status := Fine;
      while barriers[barrier].waiters != []
        invariant status == Fine && barrier in barriers && ReleaseAll(s, barrier, current) == ReleaseAll(State(), barrier, current)
        decreases |barriers[barrier].waiters|
      {
        ghost var before := State();
        var thread := barriers[barrier].waiters[0];
        barriers := barriers[barrier := barriers[barrier].(waiters := barriers[barrier].waiters[1..])];
        place := place[thread := Nowhere];
        assert State() == PopBarrier(before, barrier);
        if thread != current {
          status := UnblockThread(thread);
          if status != Fine { return; }
        } else {
          place := place[thread := Running];
        }
      }
    }

    // -------------------------------------------------------------- creation, exit and join

    method AddThread(joinable: bool) returns (status: Status)
      modifies this
      ensures Does(Create(old(State()), joinable), status, State())
    {
      var t := newThreadId;
      if t in active || |active| + 1 > hthreads || (joinable && t in joinables) { return Failed; }
      active := active[t := true];
      nactive := nactive + 1;
      if joinable { joinables := joinables[t := Joinee(false, false, 0, 0)]; }
      newThreadId := t + 1;
      place := place[t := Running];
      status := Fine;
    }

    method CreateThread(ghost current: nat, joinable: bool) returns (status: Status)
      requires Valid() && IsActive(State(), current)
      modifies this
      ensures Does(Create(old(State()), joinable), status, State())
      ensures status == Fine ==> Valid()
    {
      Keeps(State(), current, CreateCall(joinable));
      QueuesNotEmpty(State());
      hide Inv;
      status := AddThread(joinable);
    }

    method Leave(current: nat, retval: int) returns (status: Status)
      modifies this
      ensures Does(Exit(old(State()), current, retval), status, State())
    {
      status := KillJoinable(current, retval);
      if status != Fine { return; }
      if current !in active || !active[current] { return Failed; }
      active := active - {current};
      nactive := nactive - 1;
      place, exited := place - {current}, exited[current := retval];
    }

    method ExitThread(current: nat, retval: int) returns (status: Status)
      requires Valid() && IsActive(State(), current)
      modifies this
      ensures Does(Exit(old(State()), current, retval), status, State())
      ensures status == Fine ==> Valid()
    {
      Keeps(State(), current, ExitCall(retval));
      QueuesNotEmpty(State());
      hide Inv;
      status := Leave(current, retval);
    }

    method KillJoinable(thread: nat, retval: int) returns (status: Status)
      modifies this
      ensures Does(KillJoin(old(State()), thread, retval), status, State())
    {
      if thread !in joinables { return Fine; }
      if joinables[thread].joined {
        var joiner := joinables[thread].joiner;
        if joiner !in joinings || joinings[joiner].joinee != thread { return Failed; }
        var ptr := joinings[joiner].retvalPtr;
        if ptr != 0 { memory := memory[ptr := retval]; }
        joinings := joinings - {joiner};
        joinables := joinables - {thread};
        place := place[joiner := Nowhere];
        assert State() == Unjoin(old(State()), thread, retval);
        status := UnblockThread(joiner);
      } else {
        joinables := joinables[thread := joinables[thread].(done := true, retval := retval)];
        status := Fine;
      }
    }

    method StartJoining(current: nat, joinee: nat, ptr: nat) returns (status: Status)
      modifies this
      ensures Does(Join(old(State()), current, joinee, ptr), status, State())
    {
      if current == joinee || joinee !in joinables || joinables[joinee].joined { return Failed; }
      if joinables[joinee].done {
        if ptr != 0 { memory := memory[ptr := joinables[joinee].retval]; }
        joinables := joinables - {joinee};
        return Fine;
      }
      if current in joinings { return Failed; }
      joinables := joinables[joinee := joinables[joinee].(joined := true, joiner := current)];
      joinings := joinings[current := Joiner(joinee, ptr)];
      place := place[current := OnJoin(joinee)];
      assert State() == StartJoin(old(State()), current, joinee, ptr);
      status := BlockThread(current);
    }

    method JoinThread(current: nat, joinee: nat, ptr: nat) returns (status: Status)
      requires Valid() && IsActive(State(), current)
      modifies this
      ensures Does(Join(old(State()), current, joinee, ptr), status, State())
      ensures status == Fine ==> Valid()
    {
      Keeps(State(), current, JoinCall(joinee, ptr));
      QueuesNotEmpty(State());
      hide Inv;
      status := StartJoining(current, joinee, ptr);
    }

    method DetachThread(ghost current: nat, thread: nat)
      requires Valid() && IsActive(State(), current)
      modifies this`joinables
      ensures State() == Detach(old(State()), thread)
      ensures Valid()
    {
      Keeps(State(), current, DetachCall(thread));
      QueuesNotEmpty(State());
      hide Inv;
      if thread in active && thread in joinables && !joinables[thread].joined {
        joinables := joinables - {thread};
      }
    }
  }
}
