/** What the calls on conditions and threads lead to, and that conditions are served in the order of waiting. */
module PthreadOutcomes {
  import opened Pthread
  import opened PthreadSafety
  import opened PthreadRuns
  import opened PthreadHandOver

  // ---------------------------------------------------------------- waiting on a condition

  /** The caller waits last on the condition, everything else is as after giving up the mutex. */
  ghost predicate Waits(s: Sim, u: Sim, t: nat, c: nat, m: nat, s': Sim) {
    && WaitersOf(s', c) == WaitersOf(s, c) + [Waiter(t, m)]
    && (forall d :: d != c ==> WaitersOf(s', d) == WaitersOf(s, d))
    && s'.mutexes == u.mutexes && s'.spinning == u.spinning && s'.active == u.active[t := false]
    && s'.barriers == u.barriers && s'.joinables == u.joinables && s'.joinings == u.joinings && s'.memory == u.memory
  }

  lemma UnlockWaiters(s: Sim, t: nat, m: nat)
    requires MutexUnlock(s, t, m).Next?
    ensures MutexUnlock(s, t, m).s.waiters == s.waiters
  {
    UnlockCases(s, t, m);
    hide MutexUnlock, HandOff;
    if HandOff(Freed(s, m), m).Next? { HandOffWaiters(Freed(s, m), m); }
  }

  lemma HandOffWaiters(s: Sim, m: nat)
    requires HandOff(s, m).Next?
    ensures HandOff(s, m).s.waiters == s.waiters
  {
    hide Lock, Unblock;
  }

  lemma AddWaiterAt(s: Sim, c: nat, t: nat, m: nat)
    ensures var s' := AddWaiter(s, c, t, m);
      && WaitersOf(s', c) == WaitersOf(s, c) + [Waiter(t, m)] && (forall d :: d != c ==> WaitersOf(s', d) == WaitersOf(s, d))
      && s' == s.(waiters := s'.waiters, place := s'.place)
  {
  }

  /** What a call of wait leads to, in every case: the mutex is given up as by unlock (see UnlockOutcome),
      then the caller stops as the last one waiting on the condition, which ends the program when nobody
      else runs. */
  lemma WaitOutcome(s: Sim, t: nat, c: nat, m: nat)
    requires Reachable(s) && IsActive(s, t)
    ensures var u, r := MutexUnlock(s, t, m), CondWait(s, t, c, m);
      if !u.Next? then r == u
      else if ActiveSet(u.s.active) == {t} then r == Deadlock
      else r.Next? && Waits(s, u.s, t, c, m, r.s) && !IsActive(r.s, t)
  {
    hide Reachable, Inv, Mid, MutexUnlock, AddWaiter, WaitersOf;
    ReachableInv(s);
    var u := MutexUnlock(s, t, m);
    if u.Next? {
      UnlockKeepsActive(s, t, m);
      MutexUnlockInv(s, t, m);
      OnlyActive(u.s, t);
      WaitsLast(s, t, c, m);
    }
  }

  lemma WaitsLast(s: Sim, t: nat, c: nat, m: nat)
    requires MutexUnlock(s, t, m).Next? && IsActive(MutexUnlock(s, t, m).s, t)
    ensures var u, r := MutexUnlock(s, t, m).s, CondWait(s, t, c, m);
      if u.nactive <= 1 then r == Deadlock else r.Next? && Waits(s, u, t, c, m, r.s) && !IsActive(r.s, t)
  {
    UnlockWaiters(s, t, m);
    var u := MutexUnlock(s, t, m).s;
    AddWaiterAt(u, c, t, m);
    SameAll(s, u);
    hide MutexUnlock, AddWaiter, WaitersOf;
  }

  lemma SameAll(s: Sim, s': Sim)
    requires s'.waiters == s.waiters
    ensures forall c :: WaitersOf(s', c) == WaitersOf(s, c)
  {
  }

  /** The caller of unlock goes on running. */
  lemma UnlockKeepsActive(s: Sim, t: nat, m: nat)
    requires Inv(s) && IsActive(s, t) && MutexUnlock(s, t, m).Next?
    ensures IsActive(MutexUnlock(s, t, m).s, t)
  {
    GaveUp(s, t, m);
  }

  // ---------------------------------------------------------------- conditions are fair

  /** What a step does to the queue of condition c: a wait appends its caller, a signal takes the first, a
      broadcast takes all, and nothing else touches it. */
  ghost predicate ServedInOrder(q: seq<Waiter>, t: nat, a: Call, c: nat, q': seq<Waiter>) {
    match a
    case WaitCall(d, m) => q' == if d == c then q + [Waiter(t, m)] else q
    case SignalCall(d) => q' == if d == c && q != [] then q[1..] else q
    case BroadcastCall(d) => q' == if d == c then [] else q
    case _ => q' == q
  }

  lemma WakeOneWaiters(s: Sim, c: nat, d: nat)
    requires WaitersOf(s, c) != [] && WakeOne(s, c).Next?
    ensures WaitersOf(WakeOne(s, c).s, d) == if d == c then WaitersOf(s, c)[1..] else WaitersOf(s, d)
  {
    hide Lock, Unblock;
  }

  lemma {:induction false} BroadcastWaiters(s: Sim, c: nat, d: nat)
    requires Broadcast(s, c).Next?
    ensures WaitersOf(Broadcast(s, c).s, d) == if d == c then [] else WaitersOf(s, d)
    decreases |WaitersOf(s, c)|
  {
    hide WakeOne;
    if WaitersOf(s, c) != [] {
      WakeOneWaiters(s, c, d);
      BroadcastWaiters(WakeOne(s, c).s, c, d);
    }
  }

  lemma BlockWaiters(s: Sim, t: nat)
    requires Block(s, t).Next?
    ensures Block(s, t).s.waiters == s.waiters
  {
  }

  lemma CondWaitWaiters(s: Sim, t: nat, d: nat, m: nat, c: nat)
    requires CondWait(s, t, d, m).Next?
    ensures WaitersOf(CondWait(s, t, d, m).s, c) == if d == c then WaitersOf(s, c) + [Waiter(t, m)] else WaitersOf(s, c)
  {
    UnlockWaiters(s, t, m);
    var u := MutexUnlock(s, t, m);
    AddWaiterAt(u.s, d, t, m);
    BlockWaiters(AddWaiter(u.s, d, t, m), t);
    hide MutexUnlock, AddWaiter, Block;
  }

  /** Every step serves every condition in the order of waiting. */
  lemma ConditionsAreFair(s: Sim, t: nat, a: Call, c: nat)
    requires Step(s, t, a).Next?
    ensures ServedInOrder(WaitersOf(s, c), t, a, c, WaitersOf(Step(s, t, a).s, c))
  {
    hide MutexUnlock, CondWait, WakeOne, Broadcast, BarrierWait, Create, Exit, Join, Lock, WaitersOf;
    match a
    case UnlockCall(m) => UnlockWaiters(s, t, m); SameWaiters(s, Step(s, t, a).s, c);
    case WaitCall(d, m) => CondWaitWaiters(s, t, d, m, c);
    case SignalCall(d) => if WaitersOf(s, d) != [] { WakeOneWaiters(s, d, c); }
    case BroadcastCall(d) => BroadcastWaiters(s, d, c);
    case BarrierWaitCall(b) => BarrierFrame(s, t, b); SameWaiters(s, Step(s, t, a).s, c);
    case ExitCall(v) => ExitWaiters(s, t, v); SameWaiters(s, Step(s, t, a).s, c);
    case JoinCall(u, ptr) => JoinWaiters(s, t, u, ptr); SameWaiters(s, Step(s, t, a).s, c);
    case CreateCall(joinable) => CreateWaiters(s, joinable); SameWaiters(s, Step(s, t, a).s, c);
    case _ => OtherWaiters(s, t, a); SameWaiters(s, Step(s, t, a).s, c);
  }

  lemma SameWaiters(s: Sim, s': Sim, c: nat)
    requires s'.waiters == s.waiters
    ensures WaitersOf(s', c) == WaitersOf(s, c)
  {
  }

  lemma ExitWaiters(s: Sim, t: nat, v: int)
    requires Exit(s, t, v).Next?
    ensures Exit(s, t, v).s.waiters == s.waiters
  {
    KillJoinFrame(s, t, v);
    hide KillJoin;
  }

  lemma JoinWaiters(s: Sim, t: nat, u: nat, ptr: nat)
    requires Join(s, t, u, ptr).Next?
    ensures Join(s, t, u, ptr).s.waiters == s.waiters
  {
  }

  lemma CreateWaiters(s: Sim, joinable: bool)
    requires Create(s, joinable).Next?
    ensures Create(s, joinable).s.waiters == s.waiters
  {
  }

  lemma OtherWaiters(s: Sim, t: nat, a: Call)
    requires a.MutexInitCall? || a.LockCall? || a.TryLockCall? || a.BarrierInitCall? || a.BarrierDestroyCall? || a.DetachCall?
    requires Step(s, t, a).Next?
    ensures Step(s, t, a).s.waiters == s.waiters
  {
    hide Lock;
  }

  // ---------------------------------------------------------------- threads

  /** A new thread runs at once, under a number that was never used, and can be joined if it was asked for. */
  lemma CreateOutcome(s: Sim, joinable: bool)
    requires Reachable(s) && |s.active| < s.hthreads
    ensures var t, r := s.nextId, Create(s, joinable);
      && r.Next? && t !in s.active && t !in s.exited && t !in s.joinables
      && r.s.active == s.active[t := true] && r.s.nactive == s.nactive + 1
      && (if joinable then t in r.s.joinables && r.s.joinables == s.joinables[t := Joinee(false, false, 0, 0)] else r.s.joinables == s.joinables)
      && r.s.nextId > t && r.s.mutexes == s.mutexes && r.s.spinning == s.spinning && r.s.joinings == s.joinings
  {
    ReachableInv(s);
  }

  /** An exit that nobody waits for: the thread leaves the scheduler, its value is kept if it can still be
      joined, and nobody else is affected. */
  lemma ExitAlone(s: Sim, t: nat, v: int)
    requires Reachable(s) && IsActive(s, t) && !(t in s.joinables && s.joinables[t].joined)
    ensures var r := Exit(s, t, v);
      && r.Next? && r.s.active == s.active - {t} && r.s.nactive == s.nactive - 1 && t in r.s.exited && r.s.exited[t] == v
      && r.s.joinings == s.joinings && r.s.memory == s.memory
      && (forall u :: u in r.s.joinables <==> u in s.joinables)
      && (forall u :: u in s.joinables && u != t ==> r.s.joinables[u] == s.joinables[u])
      && (t in s.joinables ==> r.s.joinables[t].done && r.s.joinables[t].retval == v && !r.s.joinables[t].joined)
  {
    ReachableInv(s);
  }

  /** A join before the exit: the caller stops, and the two records point at each other. */
  lemma JoinBeforeExit(s: Sim, t: nat, u: nat, ptr: nat)
    requires Reachable(s) && IsActive(s, t) && t != u && u in s.joinables && !s.joinables[u].joined && !s.joinables[u].done
    ensures var r := Join(s, t, u, ptr);
      if ActiveSet(s.active) == {t} then r == Deadlock
      else
        && r.Next? && r.s.active == s.active[t := false] && r.s.memory == s.memory
        && t in r.s.joinings && r.s.joinings == s.joinings[t := Joiner(u, ptr)]
        && u in r.s.joinables && r.s.joinables == s.joinables[u := s.joinables[u].(joined := true, joiner := t)]
  {
    ReachableInv(s);
    OnlyActive(s, t);
    RunnerNotJoining(s, t);
  }

  /** A detached thread can no longer be joined, unless it has been joined before; nothing else changes. */
  lemma DetachOutcome(s: Sim, th: nat)
    ensures var s' := Detach(s, th);
      && s' == s.(joinables := s'.joinables)
      && (forall u :: u in s'.joinables <==> u in s.joinables && !(u == th && th in s.active && !s.joinables[th].joined))
      && (forall u :: u in s'.joinables ==> s'.joinables[u] == s.joinables[u])
  {
  }

  /** A new mutex is free and of its kind, a new barrier waits for as many threads as were asked for. */
  lemma InitOutcome(s: Sim, t: nat, m: nat, kind: Kind, b: nat, num: nat)
    ensures var r := Step(s, t, MutexInitCall(m, kind));
      r.Next? && MutexOf(r.s, m).kind == kind && MutexOf(r.s, m).count == 0 && forall n :: n != m ==> MutexOf(r.s, n) == MutexOf(s, n)
    ensures var r := Step(s, t, BarrierInitCall(b, num));
      r.Next? && b in r.s.barriers && r.s.barriers == s.barriers[b := Barrier(num, [])]
    ensures var r := Step(s, t, BarrierDestroyCall(b));
      if b in s.barriers then r.Next? && r.s.barriers == s.barriers - {b} else r == Fault
  {
  }
}
