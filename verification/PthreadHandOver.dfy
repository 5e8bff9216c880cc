/** What each call hands over to whom: mutexes to the longest waiter, broadcast waiters to their
    mutexes in order, barriers to all participants at once, and exit values to joiners. */
module PthreadHandOver {
  import opened Pthread
  import opened PthreadSafety
  import opened PthreadRuns

  // ---------------------------------------------------------------- mutexes

  /** What a call of lock leads to, in every case. */
  lemma LockOutcome(s: Sim, t: nat, m: nat)
    requires Reachable(s) && IsActive(s, t)
    ensures var x, r := MutexOf(s, m), MutexLock(s, t, m);
      if x.count == 0 then r == Next(SetMutex(s, m, x.(count := 1, owner := t))) && Queue(s, m) == []
      else if x.owner == t && x.kind == Recursive then r == Next(SetMutex(s, m, x.(count := x.count + 1)))
      else if ActiveSet(s.active) == {t} then r == Deadlock
      else r == Next(SpinOn(s, t, m).(active := s.active[t := false], nactive := s.nactive - 1))
    ensures TryOutcome(s, t, m, Lock(s, t, m, true))
  {
    hide MutexLock, Lock, SpinOn, SetMutex, TryOutcome, Reachable;
    ReachableInv(s);
    OnlyActive(s, t);
    if MutexOf(s, m).count == 0 { NotSpinning(s, m, {}, -1); }
    hide Inv, Mid;
    TryChanges(s, t, m);
    LockCases(s, t, m);
  }

  lemma LockCases(s: Sim, t: nat, m: nat)
    requires IsActive(s, t)
    ensures var x, r := MutexOf(s, m), MutexLock(s, t, m);
      if x.count == 0 then r == Next(SetMutex(s, m, x.(count := 1, owner := t)))
      else if x.owner == t && x.kind == Recursive then r == Next(SetMutex(s, m, x.(count := x.count + 1)))
      else if s.nactive <= 1 then r == Deadlock
      else r == Next(SpinOn(s, t, m).(active := s.active[t := false], nactive := s.nactive - 1))
  {
    hide SpinOn, SetMutex, Block;
    if MutexOf(s, m).count != 0 && !(MutexOf(s, m).owner == t && MutexOf(s, m).kind == Recursive) { BlockSpinning(s, t, m); }
  }

  lemma BlockSpinning(s: Sim, t: nat, m: nat)
    requires IsActive(s, t)
    ensures Block(SpinOn(s, t, m), t) == if s.nactive <= 1 then Deadlock
      else Next(SpinOn(s, t, m).(active := s.active[t := false], nactive := s.nactive - 1))
  {
    SpinOnFrame(s, t, m);
    hide SpinOn;
  }

  /** A try never waits: it takes a free mutex, counts a recursive one, or changes nothing. */
  predicate TryOutcome(s: Sim, t: nat, m: nat, r: Locked) {
    var x := MutexOf(s, m);
    if x.count == 0 then r == Locked(SetMutex(s, m, x.(count := 1, owner := t)), Success)
    else if x.owner == t && x.kind == Recursive then r == Locked(SetMutex(s, m, x.(count := x.count + 1)), Success)
    else r == Locked(s, if x.owner == t then EDeadlk else EBusy)
  }

  lemma TryChanges(s: Sim, t: nat, m: nat)
    ensures TryOutcome(s, t, m, Lock(s, t, m, true))
  {
  }

  /** A thread that has to wait goes to the end of the queue. */
  lemma SpinOnFrame(s: Sim, t: nat, m: nat)
    ensures var s' := SpinOn(s, t, m);
      s'.active == s.active && s'.nactive == s.nactive && Queue(s', m) == Queue(s, m) + [t] && MutexOf(s', m) == MutexOf(s, m)
  {
  }

  lemma OnlyActive(s: Sim, t: nat)
    requires Inv(s) && IsActive(s, t)
    ensures s.nactive > 1 <==> ActiveSet(s.active) != {t}
  {
    var a := ActiveSet(s.active);
    assert a == {t} + (a - {t});
    assert |a| == 1 + |a - {t}|;
  }

  function Freed(s: Sim, m: nat): Sim {
    SetMutex(s, m, MutexOf(s, m).(count := 0))
  }

  /** The mutex goes to the longest waiter, which runs again; without waiters it becomes free. */
  ghost predicate GivesTo(s: Sim, m: nat, s': Sim) {
    var x, q := MutexOf(s, m), Queue(s, m);
    if q == [] then s' == Freed(s, m)
    else
      && MutexOf(s', m) == x.(count := 1, owner := q[0]) && Queue(s', m) == q[1..]
      && q[0] in s.active && !s.active[q[0]] && s'.active == s.active[q[0] := true]
      && SameApart(s, m, s')
  }

  /** What is the same in two states apart from mutex m, its queue, and who runs. */
  ghost predicate SameApart(s: Sim, m: nat, s': Sim) {
    && (forall n :: n != m ==> MutexOf(s', n) == MutexOf(s, n) && Queue(s', n) == Queue(s, n))
    && s'.waiters == s.waiters && s'.barriers == s.barriers && s'.joinables == s.joinables && s'.joinings == s.joinings
  }

  lemma LockOthers(s: Sim, t: nat, m: nat, try: bool)
    ensures SameApart(s, m, Lock(s, t, m, try).s)
  {
    var x := MutexOf(s, m);
    SetMutexOthers(s, m, x.(count := 1, owner := t));
    SetMutexOthers(s, m, x.(count := x.count + 1));
    SpinOnSame(s, t, m);
    SameItself(s, m);
    hide SetMutex, SpinOn, SameApart, MutexOf;
  }

  lemma SetMutexOthers(s: Sim, m: nat, x: Mutex)
    ensures SameApart(s, m, SetMutex(s, m, x))
  {
  }

  lemma SpinOnSame(s: Sim, t: nat, m: nat)
    ensures SameApart(s, m, SpinOn(s, t, m))
  {
  }

  lemma SameItself(s: Sim, m: nat)
    ensures SameApart(s, m, s)
  {
  }

  lemma PopSpinOthers(s: Sim, m: nat)
    requires Queue(s, m) != []
    ensures SameApart(s, m, PopSpin(s, m))
  {
  }

  lemma UnblockOthers(s: Sim, t: nat, m: nat)
    requires Unblock(s, t).Next?
    ensures SameApart(s, m, Unblock(s, t).s)
  {
  }

  /** Handing over a mutex concerns that mutex only. */
  lemma HandOffOthers(s: Sim, m: nat)
    requires HandOff(s, m).Next?
    ensures SameApart(s, m, HandOff(s, m).s)
  {
    if Queue(s, m) != [] {
      var s1, t := PopSpin(s, m), Queue(s, m)[0];
      PopSpinOthers(s, m);
      LockOthers(s1, t, m, false);
      UnblockOthers(Lock(s1, t, m, false).s, t, m);
      hide PopSpin, Lock, Unblock, Queue, MutexOf;
    }
  }

  lemma SameTwice(s: Sim, s1: Sim, m: nat, s': Sim)
    requires SameApart(s, m, s1) && SameApart(s1, m, s')
    ensures SameApart(s, m, s')
  {
  }

  lemma FreedOthers(s: Sim, m: nat)
    ensures SameApart(s, m, Freed(s, m)) && Freed(s, m).active == s.active && Queue(Freed(s, m), m) == Queue(s, m)
  {
  }

  lemma Released(s: Sim, t: nat, m: nat)
    requires Reachable(s) && UnlockCode(s, t, m) == Success
    requires MutexOf(s, m).kind == Recursive ==> MutexOf(s, m).count == 1
    ensures MutexUnlock(s, t, m).Next? && GivesTo(s, m, MutexUnlock(s, t, m).s)
  {
    ReachableInv(s);
    HandOffNext(s, m);
    hide HandOff;
    if Queue(s, m) == [] {
      NobodyWaits(Freed(s, m), m);
    } else {
      OnlyThreadsWait(s, OnMutex(m), 0);
      HandsOver(Freed(s, m), m);
      HandOffOthers(Freed(s, m), m);
      FreedOthers(s, m);
      SameTwice(s, Freed(s, m), m, HandOff(Freed(s, m), m).s);
      hide Mid, Inv, Reachable, SameApart;
    }
  }

  /** What a call of unlock leads to, in every case: an error-checking mutex of somebody else is left
      alone, a recursive one must be held and is counted down, and giving up a mutex hands it to the
      thread that has waited longest. */
  lemma UnlockOutcome(s: Sim, t: nat, m: nat)
    requires Reachable(s)
    ensures var x, r := MutexOf(s, m), MutexUnlock(s, t, m);
      if x.kind == ErrorCheck && (x.count == 0 || x.owner != t) then r == Next(s) && UnlockCode(s, t, m) == EPerm
      else if x.kind == Recursive && x.count == 0 then r == Fault
      else if x.kind == Recursive && x.count > 1 then r == Next(SetMutex(s, m, x.(count := x.count - 1)))
      else r.Next? && GivesTo(s, m, r.s)
  {
    hide Reachable, GivesTo, HandOff;
    if UnlockCode(s, t, m) == Success && (MutexOf(s, m).kind == Recursive ==> MutexOf(s, m).count == 1) {
      Released(s, t, m);
    }
  }

  // ---------------------------------------------------------------- first come, first served

  /** A queue of a mutex gains threads at its end or loses the first one. */
  predicate Fifo(q: seq<nat>, q': seq<nat>) {
    q <= q' || (q != [] && q' == q[1..])
  }

  lemma LockFifo(s: Sim, t: nat, n: nat, try: bool, m: nat)
    ensures Queue(s, m) <= Queue(Lock(s, t, n, try).s, m)
  {
  }

  lemma UnlockCases(s: Sim, t: nat, n: nat)
    ensures var r := MutexUnlock(s, t, n);
      r == Next(s) || r == Fault || r == HandOff(Freed(s, n), n)
      || r == Next(SetMutex(s, n, MutexOf(s, n).(count := MutexOf(s, n).count - if MutexOf(s, n).count > 0 then 1 else 0)))
  {
    hide HandOff;
  }

  lemma UnlockFifo(s: Sim, t: nat, n: nat, m: nat)
    requires MutexUnlock(s, t, n).Next?
    ensures Fifo(Queue(s, m), Queue(MutexUnlock(s, t, n).s, m))
  {
    UnlockCases(s, t, n);
    hide MutexUnlock, HandOff;
    if HandOff(Freed(s, n), n).Next? { HandOffFifo(Freed(s, n), n, m); }
  }

  lemma HandOffFifo(s: Sim, n: nat, m: nat)
    requires MutexOf(s, n).count == 0 && HandOff(s, n).Next?
    ensures Fifo(Queue(s, m), Queue(HandOff(s, n).s, m))
  {
  }

  lemma WakeOneFifo(s: Sim, c: nat, m: nat)
    requires WaitersOf(s, c) != [] && WakeOne(s, c).Next?
    ensures Queue(s, m) <= Queue(WakeOne(s, c).s, m)
  {
    var w := WaitersOf(s, c)[0];
    LockFifo(PopWaiter(s, c), w.thread, w.mutex, false, m);
    hide Lock;
  }

  lemma {:induction false} BroadcastFifo(s: Sim, c: nat, m: nat)
    requires Broadcast(s, c).Next?
    ensures Queue(s, m) <= Queue(Broadcast(s, c).s, m)
    decreases |WaitersOf(s, c)|
  {
    hide WakeOne, Queue;
    if WaitersOf(s, c) != [] {
      WakeOneFifo(s, c, m);
      BroadcastFifo(WakeOne(s, c).s, c, m);
    }
  }

  /** Passing a barrier concerns the barrier and the scheduler only. */
  ghost predicate Passed(s: Sim, b: nat, s': Sim)
    requires b in s.barriers
  {
    && s' == s.(active := s'.active, nactive := s'.nactive, place := s'.place, barriers := s'.barriers)
    && s'.barriers == s.barriers[b := s.barriers[b].(waiters := [])]
  }

  lemma PassedMore(s: Sim, s1: Sim, b: nat, s': Sim)
    requires b in s.barriers && b in s1.barriers && s1.barriers == s.barriers[b := s.barriers[b].(waiters := s1.barriers[b].waiters)]
    requires s1 == s.(active := s1.active, nactive := s1.nactive, place := s1.place, barriers := s1.barriers)
    requires Passed(s1, b, s')
    ensures Passed(s, b, s')
  {
  }

  lemma PopBarrierFrame(s: Sim, b: nat)
    requires b in s.barriers && s.barriers[b].waiters != []
    ensures var s1 := PopBarrier(s, b);
      s1 == s.(place := s1.place, barriers := s.barriers[b := s.barriers[b].(waiters := s.barriers[b].waiters[1..])])
  {
  }

  lemma ReleaseOneFrame(s: Sim, b: nat, last: nat)
    requires b in s.barriers && s.barriers[b].waiters != [] && ReleaseOne(s, b, last).Next?
    ensures var s1 := ReleaseOne(s, b, last).s;
      s1 == s.(active := s1.active, nactive := s1.nactive, place := s1.place,
               barriers := s.barriers[b := s.barriers[b].(waiters := s.barriers[b].waiters[1..])])
  {
    PopBarrierFrame(s, b);
    hide PopBarrier, Unblock;
  }

  lemma {:induction false} ReleaseAllFrame(s: Sim, b: nat, last: nat)
    requires b in s.barriers && ReleaseAll(s, b, last).Next?
    ensures Passed(s, b, ReleaseAll(s, b, last).s)
    decreases |s.barriers[b].waiters|
  {
    if s.barriers[b].waiters == [] {
      assert s.barriers == s.barriers[b := s.barriers[b].(waiters := [])];
    } else {
      var s1 := ReleaseOne(s, b, last).s;
      ReleaseOneFrame(s, b, last);
      hide Passed, ReleaseOne;
      ReleaseAllFrame(s1, b, last);
      PassedMore(s, s1, b, ReleaseAll(s1, b, last).s);
    }
  }

  lemma BarrierFrame(s: Sim, t: nat, b: nat)
    requires BarrierWait(s, t, b).Next?
    ensures var s' := BarrierWait(s, t, b).s;
      s' == s.(active := s'.active, nactive := s'.nactive, place := s'.place, barriers := s'.barriers)
      && forall d :: d != b ==> (d in s.barriers <==> d in s'.barriers) && (d in s.barriers ==> s'.barriers[d] == s.barriers[d])
  {
    var s1 := AddToBarrier(s, b, t);
    if ReleaseAll(s1, b, t).Next? { ReleaseAllFrame(s1, b, t); }
    hide ReleaseAll;
  }

  lemma UnjoinFrame(s: Sim, t: nat, v: int)
    requires t in s.joinables && s.joinables[t].joiner in s.joinings
    ensures var s' := Unjoin(s, t, v); s'.spinning == s.spinning && s'.waiters == s.waiters && s'.barriers == s.barriers
  {
  }

  lemma DeliverFrame(s: Sim, t: nat, v: int)
    requires t in s.joinables && Deliver(s, t, v).Next?
    ensures var s' := Deliver(s, t, v).s; s'.spinning == s.spinning && s'.waiters == s.waiters && s'.barriers == s.barriers
  {
    UnjoinFrame(s, t, v);
    hide Unjoin, Unblock;
  }

  lemma KillJoinFrame(s: Sim, t: nat, v: int)
    requires KillJoin(s, t, v).Next?
    ensures var s' := KillJoin(s, t, v).s; s'.spinning == s.spinning && s'.waiters == s.waiters && s'.barriers == s.barriers
  {
    hide Deliver;
    if t in s.joinables && s.joinables[t].joined { DeliverFrame(s, t, v); }
  }

  lemma ExitFifo(s: Sim, t: nat, v: int, m: nat)
    requires Exit(s, t, v).Next?
    ensures Queue(Exit(s, t, v).s, m) == Queue(s, m) && Exit(s, t, v).s.barriers == s.barriers
  {
    KillJoinFrame(s, t, v);
    hide KillJoin;
  }

  lemma JoinFifo(s: Sim, t: nat, u: nat, ptr: nat, m: nat)
    requires Join(s, t, u, ptr).Next?
    ensures Queue(Join(s, t, u, ptr).s, m) == Queue(s, m)
  {
  }

  lemma CreateFifo(s: Sim, joinable: bool, m: nat)
    requires Create(s, joinable).Next?
    ensures Queue(Create(s, joinable).s, m) == Queue(s, m)
  {
  }

  /** Every step serves every mutex in the order of arrival. */
  lemma MutexesAreFair(s: Sim, t: nat, a: Call, m: nat)
    requires Step(s, t, a).Next?
    ensures Fifo(Queue(s, m), Queue(Step(s, t, a).s, m))
  {
    hide MutexUnlock, WakeOne, Broadcast, BarrierWait, Create, Exit, Join;
    match a
    case LockCall(n) => LockFifo(s, t, n, false, m);
    case TryLockCall(n) => LockFifo(s, t, n, true, m);
    case UnlockCall(n) => UnlockFifo(s, t, n, m);
    case WaitCall(c, n) => UnlockFifo(s, t, n, m);
    case SignalCall(c) => if WaitersOf(s, c) != [] { WakeOneFifo(s, c, m); }
    case BroadcastCall(c) => BroadcastFifo(s, c, m);
    case BarrierWaitCall(b) => BarrierFrame(s, t, b);
    case ExitCall(v) => ExitFifo(s, t, v, m);
    case JoinCall(u, ptr) => JoinFifo(s, t, u, ptr, m);
    case CreateCall(joinable) => CreateFifo(s, joinable, m);
    case _ =>
  }

  // ---------------------------------------------------------------- broadcast

  /** The threads of the list that wait with mutex m, in order. */
  function OfMutex(ws: seq<Waiter>, m: nat): seq<nat> {
    if ws == [] then []
    else (if ws[0].mutex == m then [ws[0].thread] else []) + OfMutex(ws[1..], m)
  }

  function Without(q: seq<nat>, x: int): seq<nat> {
    if q == [] then [] else (if q[0] == x then [] else [q[0]]) + Without(q[1..], x)
  }

  /** The first waiter of a condition gets its mutex and runs, or goes to the end of its queue. */
  ghost predicate Served(s: Sim, w: Waiter, s1: Sim) {
    var x := MutexOf(s, w.mutex);
    && (forall m :: m != w.mutex ==> MutexOf(s1, m) == MutexOf(s, m) && Queue(s1, m) == Queue(s, m))
    && if x.count == 0 || x.owner == w.thread then
         && Queue(s1, w.mutex) == Queue(s, w.mutex) && IsActive(s1, w.thread)
         && MutexOf(s1, w.mutex).owner == w.thread && MutexOf(s1, w.mutex).count > 0
         && (x.count == 0 ==> Queue(s, w.mutex) == [])
       else Queue(s1, w.mutex) == Queue(s, w.mutex) + [w.thread] && MutexOf(s1, w.mutex) == x
  }

  /** The part of being served that happens when the mutex is asked for. */
  ghost predicate Asked(s: Sim, w: Waiter, r: Locked) {
    var x, s1 := MutexOf(s, w.mutex), r.s;
    && s1.active == s.active
    && (forall m :: m != w.mutex ==> MutexOf(s1, m) == MutexOf(s, m) && Queue(s1, m) == Queue(s, m))
    && if x.count == 0 || x.owner == w.thread then
         && r.code == Success && Queue(s1, w.mutex) == Queue(s, w.mutex)
         && MutexOf(s1, w.mutex).owner == w.thread && MutexOf(s1, w.mutex).count > 0
       else r.code != Success && Queue(s1, w.mutex) == Queue(s, w.mutex) + [w.thread] && MutexOf(s1, w.mutex) == x
  }

  lemma LockAsked(s: Sim, w: Waiter)
    requires WaiterOk(s.mutexes, w)
    ensures Asked(s, w, Lock(s, w.thread, w.mutex, false))
  {
    var x := MutexOf(s, w.mutex);
    SetMutexFrame(s, w.mutex, x.(count := 1, owner := w.thread));
    SetMutexFrame(s, w.mutex, x.(count := x.count + 1));
    SpinOnFrame(s, w.thread, w.mutex);
    SpinOnOthers(s, w.thread, w.mutex);
    hide SetMutex, SpinOn, Queue;
  }

  lemma SetMutexFrame(s: Sim, m: nat, x: Mutex)
    ensures var s' := SetMutex(s, m, x);
      MutexOf(s', m) == x && s'.active == s.active && forall n :: Queue(s', n) == Queue(s, n) && (n != m ==> MutexOf(s', n) == MutexOf(s, n))
  {
  }

  lemma SpinOnOthers(s: Sim, t: nat, m: nat)
    ensures var s' := SpinOn(s, t, m);
      forall n :: n != m ==> Queue(s', n) == Queue(s, n) && MutexOf(s', n) == MutexOf(s, n)
  {
  }

  lemma ServedBy(s: Sim, w: Waiter, r: Locked, o: Outcome)
    requires Asked(s, w, r) && o == (if r.code == Success then Unblock(r.s, w.thread) else Next(r.s)) && o.Next?
    requires MutexOf(s, w.mutex).count == 0 ==> Queue(s, w.mutex) == []
    ensures Served(s, w, o.s) && forall u :: IsActive(s, u) ==> IsActive(o.s, u)
  {
  }

  lemma WakeOneServes(s: Sim, c: nat)
    requires Inv(s) && WaitersOf(s, c) != [] && WakeOne(s, c).Next?
    ensures Served(s, WaitersOf(s, c)[0], WakeOne(s, c).s)
    ensures forall u :: IsActive(s, u) ==> IsActive(WakeOne(s, c).s, u)
  {
    var w, s1 := WaitersOf(s, c)[0], PopWaiter(s, c);
    assert WaiterOk(s.mutexes, w);
    if MutexOf(s, w.mutex).count == 0 { NotSpinning(s, w.mutex, {}, -1); }
    PopWaiterFrame(s, c);
    hide Mid, PopWaiter, Lock, Unblock, Served, Asked, WaiterOk;
    LockAsked(s1, w);
    ServedBy(s1, w, Lock(s1, w.thread, w.mutex, false), WakeOne(s, c));
    ServedSame(s, s1, w, WakeOne(s, c).s);
  }

  lemma ServedSame(s: Sim, s1: Sim, w: Waiter, s': Sim)
    requires Served(s1, w, s') && s1 == s.(waiters := s1.waiters, place := s1.place)
    ensures Served(s, w, s')
  {
    assert forall m :: MutexOf(s1, m) == MutexOf(s, m) && Queue(s1, m) == Queue(s, m);
    hide MutexOf, Queue;
  }

  lemma PopWaiterFrame(s: Sim, c: nat)
    requires WaitersOf(s, c) != []
    ensures var s1 := PopWaiter(s, c); s1 == s.(waiters := s1.waiters, place := s1.place)
  {
  }

  /** During a broadcast a held mutex keeps its owner, and nobody is stopped. */
  lemma {:induction false} BroadcastKeeps(s: Sim, c: nat, m: nat, u: nat)
    requires Inv(s) && Broadcast(s, c).Next?
    ensures var s' := Broadcast(s, c).s;
      && (MutexOf(s, m).count > 0 ==> MutexOf(s', m).owner == MutexOf(s, m).owner && MutexOf(s', m).count > 0)
      && (IsActive(s, u) ==> IsActive(s', u)) && WaitersOf(s', c) == []
    decreases |WaitersOf(s, c)|
  {
    hide WakeOne, Inv;
    if WaitersOf(s, c) != [] {
      WakeOneInv(s, c);
      WakeOneServes(s, c);
      BroadcastKeeps(WakeOne(s, c).s, c, m, u);
    }
  }

  /** Broadcast hands over: afterwards nobody waits on the condition, and the queue of each mutex has
      grown, in the order of waiting, by the waiters that came with it, except the one that owns it. */
  lemma {:induction false} BroadcastQueues(s: Sim, c: nat, m: nat)
    requires Inv(s)
    ensures Broadcast(s, c).Next?
    ensures var s' := Broadcast(s, c).s;
      WaitersOf(s', c) == [] && Queue(s', m) == Queue(s, m) + Without(OfMutex(WaitersOf(s, c), m), MutexOf(s', m).owner)
    decreases |WaitersOf(s, c)|
  {
    BroadcastNext(s, c);
    hide WakeOne, Inv;
    var ws := WaitersOf(s, c);
    if ws != [] {
      var s1 := WakeOne(s, c).s;
      WakeOneInv(s, c);
      WakeOneServes(s, c);
      BroadcastQueues(s1, c, m);
      BroadcastKeeps(s1, c, m, 0);
      BroadcastOne(s, ws, s1, Broadcast(s, c).s, m);
    }
  }

  lemma BroadcastOne(s: Sim, ws: seq<Waiter>, s1: Sim, s': Sim, m: nat)
    requires ws != [] && Served(s, ws[0], s1)
    requires MutexOf(s1, m).count > 0 ==> MutexOf(s', m).owner == MutexOf(s1, m).owner
    requires Queue(s', m) == Queue(s1, m) + Without(OfMutex(ws[1..], m), MutexOf(s', m).owner)
    ensures Queue(s', m) == Queue(s, m) + Without(OfMutex(ws, m), MutexOf(s', m).owner)
  {
    var t, x := ws[0].thread, MutexOf(s', m).owner;
    hide Queue, MutexOf, OfMutex, Without;
    OfMutexStep(ws, m);
    WithoutStep(t, OfMutex(ws[1..], m), x);
    if ws[0].mutex == m && x != t {
      assert Queue(s1, m) == Queue(s, m) + [t];
      AppendAssoc(Queue(s, m), [t], Without(OfMutex(ws[1..], m), x));
    }
  }

  lemma AppendAssoc(a: seq<nat>, b: seq<nat>, d: seq<nat>)
    ensures (a + b) + d == a + (b + d)
  {
  }

  lemma OfMutexStep(ws: seq<Waiter>, m: nat)
    requires ws != []
    ensures OfMutex(ws, m) == if ws[0].mutex == m then [ws[0].thread] + OfMutex(ws[1..], m) else OfMutex(ws[1..], m)
  {
  }

  lemma WithoutStep(t: nat, rest: seq<nat>, x: int)
    ensures Without([t] + rest, x) == if t == x then Without(rest, x) else [t] + Without(rest, x)
  {
    assert ([t] + rest)[1..] == rest;
  }

  /** A former waiter runs and owns its mutex, or stands in the queue of that mutex. */
  ghost predicate Settled(s: Sim, w: Waiter) {
    if At(s.place, w.thread, OnMutex(w.mutex)) then !IsActive(s, w.thread) && w.thread in Queue(s, w.mutex)
    else IsActive(s, w.thread) && MutexOf(s, w.mutex).owner == w.thread && MutexOf(s, w.mutex).count > 0
  }

  /** The i-th waiter is settled by a broadcast. */
  ghost predicate SettledAt(s: Sim, c: nat, i: nat) {
    i < |WaitersOf(s, c)| && Broadcast(s, c).Next? && Settled(Broadcast(s, c).s, WaitersOf(s, c)[i])
  }

  lemma SettledLater(s: Sim, c: nat, i: nat)
    requires WaitersOf(s, c) != [] && WakeOne(s, c).Next? && SettledAt(WakeOne(s, c).s, c, i)
    ensures SettledAt(s, c, i + 1)
  {
    BroadcastStep(s, c);
    hide WakeOne, Broadcast, Settled;
  }

  /** After a broadcast every former waiter runs and owns its mutex, or stands in its queue. */
  lemma {:induction false} BroadcastServesAll(s: Sim, c: nat, i: nat)
    requires Inv(s) && i < |WaitersOf(s, c)|
    ensures SettledAt(s, c, i)
    decreases i
  {
    hide Inv, Settled;
    WakeOneNext(s, c);
    if i == 0 {
      BroadcastNext(s, c);
      BroadcastServesFirst(s, c);
    } else {
      WakeOneInv(s, c);
      hide SettledAt;
      BroadcastServesAll(WakeOne(s, c).s, c, i - 1);
      SettledLater(s, c, i - 1);
    }
  }

  lemma BroadcastStep(s: Sim, c: nat)
    requires WaitersOf(s, c) != [] && WakeOne(s, c).Next?
    ensures Broadcast(s, c) == Broadcast(WakeOne(s, c).s, c) && WaitersOf(WakeOne(s, c).s, c) == WaitersOf(s, c)[1..]
  {
    hide WakeOne;
  }

  lemma BroadcastServesFirst(s: Sim, c: nat)
    requires Inv(s) && WaitersOf(s, c) != [] && WakeOne(s, c).Next? && Broadcast(s, c).Next?
    ensures Settled(Broadcast(s, c).s, WaitersOf(s, c)[0])
  {
    var w, s', s1 := WaitersOf(s, c)[0], Broadcast(s, c).s, WakeOne(s, c).s;
    assert Broadcast(s, c) == Broadcast(s1, c);
    hide WakeOne, Inv, Broadcast, Settled;
    WakeOneInv(s, c);
    WakeOneServes(s, c);
    BroadcastInv(s, c);
    BroadcastKeeps(s1, c, w.mutex, w.thread);
    BroadcastFifo(s1, c, w.mutex);
    FirstSettled(s, w, s1, s');
  }

  lemma FirstSettled(s: Sim, w: Waiter, s1: Sim, s': Sim)
    requires Served(s, w, s1) && Inv(s') && Queue(s1, w.mutex) <= Queue(s', w.mutex)
    requires MutexOf(s1, w.mutex).count > 0 ==>
      MutexOf(s', w.mutex).owner == MutexOf(s1, w.mutex).owner && MutexOf(s', w.mutex).count > 0
    requires IsActive(s1, w.thread) ==> IsActive(s', w.thread)
    ensures Settled(s', w)
  {
    var q, p := Queue(s', w.mutex), OnMutex(w.mutex);
    if MutexOf(s, w.mutex).count == 0 || MutexOf(s, w.mutex).owner == w.thread {
      RunningPlace(s', w.thread);
    } else {
      var k := |Queue(s, w.mutex)|;
      assert Queue(s1, w.mutex)[k] == w.thread && q[k] == w.thread;
      assert q == Seat(RoomsOf(s'), p);
      Sits(RoomsOf(s'), s'.place, p, k);
      Stopped(s', {}, -1, -1, w.thread);
    }
    hide Mid;
  }

  /** A signal does the same for the first waiter only. */
  lemma SignalServes(s: Sim, c: nat)
    requires Reachable(s) && WaitersOf(s, c) != []
    ensures Signal(s, c).Next? && WaitersOf(Signal(s, c).s, c) == WaitersOf(s, c)[1..]
    ensures Served(s, WaitersOf(s, c)[0], Signal(s, c).s)
  {
    ReachableInv(s);
    hide Inv, WakeOne;
    WakeOneNext(s, c);
    WakeOneServes(s, c);
  }

  // ---------------------------------------------------------------- barriers

  lemma ReleaseOneActive(s: Sim, b: nat, last: nat)
    requires b in s.barriers && s.barriers[b].waiters != [] && ReleaseOne(s, b, last).Next? && IsActive(s, last)
    ensures ReleaseOne(s, b, last).s.active == s.active[s.barriers[b].waiters[0] := true]
  {
    PopBarrierFacts(s, b);
    hide PopBarrier;
    if s.barriers[b].waiters[0] == last {
      assert s.active == s.active[last := true];
    }
  }

  lemma {:induction false} ReleaseAllActive(s: Sim, b: nat, last: nat, u: nat)
    requires b in s.barriers && ReleaseAll(s, b, last).Next? && IsActive(s, last)
    ensures IsActive(ReleaseAll(s, b, last).s, u) <==> IsActive(s, u) || u in s.barriers[b].waiters
    decreases |s.barriers[b].waiters|
  {
    var q := s.barriers[b].waiters;
    if q != [] {
      ReleaseOneActive(s, b, last);
      hide ReleaseOne;
      assert q == [q[0]] + q[1..];
      ReleaseAllActive(ReleaseOne(s, b, last).s, b, last, u);
    }
  }

  /** A barrier opens exactly when the last participant comes, and then for everyone who waits there;
      as long as participants are missing the caller is the only one to stop. */
  lemma BarrierOpens(s: Sim, t: nat, b: nat, u: nat)
    requires Reachable(s) && IsActive(s, t) && b in s.barriers
    ensures var x, r := s.barriers[b], BarrierWait(s, t, b);
      if |x.waiters| + 1 == x.num then
        && r.Next? && b in r.s.barriers && r.s.barriers[b].waiters == []
        && (IsActive(r.s, u) <==> IsActive(s, u) || u in x.waiters)
      else if ActiveSet(s.active) == {t} then r == Deadlock
      else r.Next? && b in r.s.barriers && r.s.barriers[b].waiters == x.waiters + [t] && r.s.active == s.active[t := false]
  {
    ReachableInv(s);
    OnlyActive(s, t);
    var s1 := AddToBarrier(s, b, t);
    AddToBarrierFacts(s, b, t);
    if |s.barriers[b].waiters| + 1 == s.barriers[b].num {
      AddToBarrierMid(s, b, t);
      hide Mid, AddToBarrier;
      ReleaseAllInv(s1, b, t);
      ReleaseAllFrame(s1, b, t);
      ReleaseAllActive(s1, b, t, u);
    } else {
      hide Mid, AddToBarrier, ReleaseAll;
    }
  }

  lemma AddToBarrierFacts(s: Sim, b: nat, t: nat)
    requires b in s.barriers
    ensures var s1 := AddToBarrier(s, b, t);
      && s1.active == s.active && s1.nactive == s.nactive && b in s1.barriers
      && s1.barriers[b] == s.barriers[b].(waiters := s.barriers[b].waiters + [t])
  {
  }

  /** So each round frees as many threads as take part: those in the list and the last one. */
  lemma BarrierRound(s: Sim, t: nat, b: nat)
    requires Reachable(s) && IsActive(s, t) && b in s.barriers && |s.barriers[b].waiters| + 1 == s.barriers[b].num
    ensures BarrierWait(s, t, b).Next? && BarrierWait(s, t, b).s.nactive == s.nactive + s.barriers[b].num - 1
  {
    ReachableInv(s);
    BarrierOpens(s, t, b, t);
    BarrierWaitInv(s, t, b);
    var q, s' := s.barriers[b].waiters, BarrierWait(s, t, b).s;
    InvCounts(s);
    InvCounts(s');
    hide Inv, BarrierWait, IsActive;
    forall u ensures IsActive(s', u) <==> IsActive(s, u) || u in q { BarrierOpens(s, t, b, u); }
    ListedStopped(s, b);
    RoundCount(s, q, s');
  }

  lemma InvCounts(s: Sim)
    requires Inv(s)
    ensures s.nactive == |ActiveSet(s.active)|
  {
  }

  /** The threads in the list of a barrier are different and stopped. */
  lemma ListedStopped(s: Sim, b: nat)
    requires Reachable(s) && b in s.barriers
    ensures var q := s.barriers[b].waiters;
      (forall i: nat :: i < |q| ==> !IsActive(s, q[i])) && forall i: nat, j: nat :: i < j < |q| ==> q[i] != q[j]
  {
    var q := s.barriers[b].waiters;
    ReachableInv(s);
    hide Inv;
    forall i: nat | i < |q| ensures !IsActive(s, q[i]) { OnlyThreadsWait(s, OnBarrier(b), i); }
    forall i: nat, j: nat | i < j < |q| ensures q[i] != q[j] { SitsOnce(s, OnBarrier(b), i, j); }
  }

  lemma RoundCount(s: Sim, q: seq<nat>, s': Sim)
    requires forall u :: IsActive(s', u) <==> IsActive(s, u) || u in q
    requires forall i: nat :: i < |q| ==> !IsActive(s, q[i])
    requires forall i: nat, j: nat :: i < j < |q| ==> q[i] != q[j]
    ensures |ActiveSet(s'.active)| == |ActiveSet(s.active)| + |q|
  {
    DistinctCount(q);
    forall u ensures u in ActiveSet(s'.active) <==> u in ActiveSet(s.active) || u in q {
      assert IsActive(s', u) <==> IsActive(s, u) || u in q;
    }
    assert ActiveSet(s'.active) == ActiveSet(s.active) + Elements(q);
    assert ActiveSet(s.active) !! Elements(q);
  }

  lemma SitsOnce(s: Sim, p: Place, i: nat, j: nat)
    requires Inv(s) && Parking(p) && i < j < |Seat(RoomsOf(s), p)|
    ensures Seat(RoomsOf(s), p)[i] != Seat(RoomsOf(s), p)[j]
  {
    var q := Seat(RoomsOf(s), p);
    assert Seats(RoomsOf(s), s.place, p, q[i]);
    if q[i] == q[j] { CountTwice(q, i, j); }
  }

  lemma CountTwice(q: seq<nat>, i: nat, j: nat)
    requires i < j < |q| && q[i] == q[j]
    ensures multiset(q)[q[i]] >= 2
  {
    assert q == q[..j] + [q[j]] + q[j + 1..];
    assert multiset(q) == multiset(q[..j]) + multiset{q[j]} + multiset(q[j + 1..]);
    assert q[..j][i] == q[i];
  }

  function Elements(q: seq<nat>): set<nat> {
    set u | u in q
  }

  lemma {:induction false} DistinctCount(q: seq<nat>)
    requires forall i: nat, j: nat :: i < j < |q| ==> q[i] != q[j]
    ensures |Elements(q)| == |q|
  {
    if q != [] {
      var rest := q[1..];
      DistinctCount(rest);
      assert q == [q[0]] + rest;
      assert Elements(q) == Elements(rest) + {q[0]};
      assert forall i: nat :: i < |rest| ==> rest[i] == q[i + 1];
      assert q[0] !in Elements(rest);
    }
  }

  // ---------------------------------------------------------------- leaving a barrier or a join

  lemma BroadcastFrame(s: Sim, c: nat)
    requires Broadcast(s, c).Next?
    ensures var s' := Broadcast(s, c).s;
      s'.barriers == s.barriers && s'.joinables == s.joinables && s'.joinings == s.joinings && s'.memory == s.memory
    decreases |WaitersOf(s, c)|
  {
    if WaitersOf(s, c) != [] {
      WakeOneFrame(s, c);
      hide WakeOne;
      BroadcastFrame(WakeOne(s, c).s, c);
    }
  }

  lemma WakeOneFrame(s: Sim, c: nat)
    requires WaitersOf(s, c) != [] && WakeOne(s, c).Next?
    ensures var s' := WakeOne(s, c).s;
      s'.barriers == s.barriers && s'.joinables == s.joinables && s'.joinings == s.joinings && s'.memory == s.memory
  {
    PopWaiterFrame(s, c);
    hide PopWaiter, Lock, Unblock;
  }

  lemma HandOffFrame(s: Sim, m: nat)
    requires HandOff(s, m).Next?
    ensures var s' := HandOff(s, m).s;
      s'.barriers == s.barriers && s'.joinables == s.joinables && s'.joinings == s.joinings && s'.memory == s.memory
  {
    hide Lock, Unblock;
  }

  lemma UnlockFrame(s: Sim, t: nat, m: nat)
    requires MutexUnlock(s, t, m).Next?
    ensures var s' := MutexUnlock(s, t, m).s;
      s'.barriers == s.barriers && s'.joinables == s.joinables && s'.joinings == s.joinings && s'.memory == s.memory
  {
    UnlockCases(s, t, m);
    hide MutexUnlock, HandOff;
    if HandOff(Freed(s, m), m).Next? { HandOffFrame(Freed(s, m), m); }
  }

  /** Calls on mutexes and conditions do not touch barriers and join records. */
  lemma SyncFrame(s: Sim, t: nat, a: Call)
    requires Step(s, t, a).Next?
    requires a.MutexInitCall? || a.LockCall? || a.TryLockCall? || a.UnlockCall? || a.WaitCall? || a.SignalCall? || a.BroadcastCall?
    ensures var s' := Step(s, t, a).s;
      s'.barriers == s.barriers && s'.joinables == s.joinables && s'.joinings == s.joinings && s'.memory == s.memory
  {
    hide Lock, MutexUnlock, WakeOne, Broadcast;
    match a
    case UnlockCall(m) => UnlockFrame(s, t, m);
    case WaitCall(c, m) => UnlockFrame(s, t, m);
    case SignalCall(c) => if WaitersOf(s, c) != [] { WakeOneFrame(s, c); }
    case BroadcastCall(c) => BroadcastFrame(s, c);
    case _ =>
  }

  /** The other calls on threads leave barriers alone. */
  lemma ThreadFrame(s: Sim, t: nat, a: Call)
    requires Step(s, t, a).Next? && (a.CreateCall? || a.ExitCall? || a.JoinCall? || a.DetachCall?)
    ensures Step(s, t, a).s.barriers == s.barriers
  {
    hide Exit, Create, Join;
    match a
    case CreateCall(joinable) => CreateBarriers(s, joinable);
    case ExitCall(v) => ExitFifo(s, t, v, 0);
    case JoinCall(u, ptr) => JoinBarriers(s, t, u, ptr);
    case DetachCall(th) =>
  }

  lemma CreateBarriers(s: Sim, joinable: bool)
    requires Create(s, joinable).Next?
    ensures Create(s, joinable).s.barriers == s.barriers
  {
  }

  lemma JoinBarriers(s: Sim, t: nat, u: nat, ptr: nat)
    requires Join(s, t, u, ptr).Next?
    ensures Join(s, t, u, ptr).s.barriers == s.barriers
  {
    hide Block;
  }

  /** Nobody leaves a barrier before all participants have come: the only step that lets a waiting
      thread run again is the arrival of the last participant. */
  lemma BarrierHolds(s: Sim, t: nat, a: Call, u: nat, b: nat)
    requires Reachable(s) && IsActive(s, t) && NotInUse(s, a) && Step(s, t, a).Next?
    requires At(s.place, u, OnBarrier(b)) && IsActive(Step(s, t, a).s, u)
    ensures a == BarrierWaitCall(b) && b in s.barriers && |s.barriers[b].waiters| + 1 == s.barriers[b].num
  {
    ReachableInv(s);
    StepInv(s, t, a);
    hide Inv, Step;
    LeftBarrier(s, Step(s, t, a).s, u, b);
    BarrierChanges(s, t, a, b, u);
  }

  /** A thread that waits at a barrier and runs later is no longer in its list. */
  lemma LeftBarrier(s: Sim, s': Sim, u: nat, b: nat)
    requires Inv(s) && Inv(s') && At(s.place, u, OnBarrier(b)) && IsActive(s', u)
    ensures b in s.barriers && u in s.barriers[b].waiters && !(b in s'.barriers && u in s'.barriers[b].waiters)
  {
    RunningPlace(s', u);
    assert Seats(RoomsOf(s), s.place, OnBarrier(b), u);
    assert Seats(RoomsOf(s'), s'.place, OnBarrier(b), u);
  }

  lemma BarrierChanges(s: Sim, t: nat, a: Call, b: nat, u: nat)
    requires Reachable(s) && IsActive(s, t) && NotInUse(s, a) && Step(s, t, a).Next?
    requires b in s.barriers && u in s.barriers[b].waiters
    requires var s' := Step(s, t, a).s; !(b in s'.barriers && u in s'.barriers[b].waiters)
    ensures a == BarrierWaitCall(b) && |s.barriers[b].waiters| + 1 == s.barriers[b].num
  {
    match a
    case BarrierInitCall(d, num) =>
    case BarrierDestroyCall(d) =>
    case BarrierWaitCall(d) =>
      BarrierFrame(s, t, d);
      if d == b { BarrierOpens(s, t, b, t); }
    case CreateCall(joinable) => ThreadFrame(s, t, a);
    case ExitCall(v) => ThreadFrame(s, t, a);
    case JoinCall(v, ptr) => ThreadFrame(s, t, a);
    case DetachCall(th) => ThreadFrame(s, t, a);
    case _ => SyncFrame(s, t, a);
  }

  // ---------------------------------------------------------------- join

  /** A join after the exit does not wait and delivers the value given to exit. */
  lemma JoinAfterExit(s: Sim, t: nat, u: nat, ptr: nat)
    requires Reachable(s) && t != u && u in s.joinables && s.joinables[u].done
    ensures u in s.exited
    ensures var r := Join(s, t, u, ptr);
      r.Next? && r.s.active == s.active && r.s.memory == Store(s.memory, ptr, s.exited[u]) && u !in r.s.joinables
  {
    ReachableInv(s);
    assert RecordOk(u, s.joinables[u], s.active.Keys, s.exited);
    hide Mid;
  }

  /** An exit after the join delivers the value to the waiting thread and lets it run. */
  lemma ExitAfterJoin(s: Sim, j: nat, t: nat, v: int)
    requires Reachable(s) && IsActive(s, t) && j in s.joinings && s.joinings[j].joinee == t
    ensures var r := Exit(s, t, v);
      && r.Next? && !IsActive(s, j) && IsActive(r.s, j) && j !in r.s.joinings && t !in r.s.joinables
      && r.s.memory == Store(s.memory, s.joinings[j].retvalPtr, v)
  {
    ReachableInv(s);
    JoinBijection(s, j, t);
    JoinerWaits(s, t);
    hide Mid, Deliver, KillJoin, Inv, Reachable;
    DeliverInv(s, t, v);
    DeliverOthers(s, t, v);
    KillJoinIs(s, t, v);
  }

  lemma KillJoinIs(s: Sim, t: nat, v: int)
    requires t in s.joinables && s.joinables[t].joined
    ensures KillJoin(s, t, v) == Deliver(s, t, v)
  {
  }

  lemma DeliverJoinings(s: Sim, t: nat, v: int)
    requires t in s.joinables && Deliver(s, t, v).Next?
    ensures Deliver(s, t, v).s.joinings == s.joinings - {s.joinables[t].joiner}
    ensures s.joinables[t].joiner in s.joinings && s.joinings[s.joinables[t].joiner].joinee == t
  {
    hide Unblock;
  }

  /** The record of another joiner stays when a thread leaves. */
  lemma ExitRecords(s: Sim, t: nat, v: int, j: nat)
    requires Exit(s, t, v).Next? && j in s.joinings && s.joinings[j].joinee != t
    ensures j in Exit(s, t, v).s.joinings && Exit(s, t, v).s.joinings[j] == s.joinings[j]
  {
    if t in s.joinables && s.joinables[t].joined { DeliverJoinings(s, t, v); }
    hide Deliver;
  }

  /** The only step that lets a joining thread run again is the exit of the thread it waits for, and it
      delivers the value given to that exit: whichever of exit and join comes first, the joiner
      receives the exit value. */
  lemma WokenByExitOnly(s: Sim, t: nat, a: Call, j: nat)
    requires Reachable(s) && IsActive(s, t) && NotInUse(s, a) && Step(s, t, a).Next?
    requires j in s.joinings && IsActive(Step(s, t, a).s, j)
    ensures s.joinings[j].joinee == t && a.ExitCall?
    ensures Step(s, t, a).s.memory == Store(s.memory, s.joinings[j].retvalPtr, a.v)
  {
    ReachableInv(s);
    StepInv(s, t, a);
    var s' := Step(s, t, a).s;
    if a.ExitCall? && s.joinings[j].joinee == t {
      ExitAfterJoin(s, j, t, a.v);
    } else {
      RunnerNotJoining(s', j);
      JoiningKept(s, t, a, j);
      assert false;
    }
  }

  lemma JoiningKept(s: Sim, t: nat, a: Call, j: nat)
    requires Reachable(s) && IsActive(s, t) && Step(s, t, a).Next? && j in s.joinings
    requires a.ExitCall? ==> s.joinings[j].joinee != t
    ensures j in Step(s, t, a).s.joinings
  {
    match a
    case BarrierWaitCall(d) => BarrierFrame(s, t, d);
    case CreateCall(joinable) =>
    case ExitCall(v) => ExitRecords(s, t, v, j);
    case JoinCall(u, ptr) => JoinRecords(s, t, u, ptr, j);
    case DetachCall(th) =>
    case BarrierInitCall(d, num) =>
    case BarrierDestroyCall(d) =>
    case _ => SyncFrame(s, t, a);
  }

  lemma JoinRecords(s: Sim, t: nat, u: nat, ptr: nat, j: nat)
    requires Join(s, t, u, ptr).Next? && j in s.joinings
    ensures j in Join(s, t, u, ptr).s.joinings
  {
    hide Block;
  }
}
