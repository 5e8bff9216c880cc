/** Every call keeps the invariant of the thread library, and what follows for whole runs. */
module PthreadRuns {
  import opened Pthread
  import opened PthreadSafety

  // ---------------------------------------------------------------- creation, exit and join

  lemma CreateInv(s: Sim, joinable: bool)
    requires Inv(s) && Create(s, joinable).Next?
    ensures Inv(Create(s, joinable).s)
  {
    NewSeated(s, joinable);
    NewRecord(s, joinable);
    NewCount(s, joinable);
    hide Seated, Held, WaitersOk, BarriersOk, JoinsOk, Counted;
  }

  lemma NewCount(s: Sim, joinable: bool)
    requires Counted(s.active, s.nactive, s.nextId, s.exited) && Create(s, joinable).Next?
    ensures var s' := Create(s, joinable).s; Counted(s'.active, s'.nactive, s'.nextId, s'.exited)
  {
    ActiveSetUpdate(s.active, s.nextId, true);
  }

  lemma NewRecord(s: Sim, joinable: bool)
    requires Inv(s) && Create(s, joinable).Next?
    ensures var s' := Create(s, joinable).s; JoinsOk(s'.joinables, s'.joinings, s'.active.Keys, s'.exited)
  {
    var t, s' := s.nextId, Create(s, joinable).s;
    NoSuchRecord(s);
    forall j, u ensures Joins(s'.joinables, s'.joinings, j, u) { assert Joins(s.joinables, s.joinings, j, u); }
    forall u | u in s'.joinables ensures RecordOk(u, s'.joinables[u], s'.active.Keys, s'.exited) {
      if u != t { assert RecordOk(u, s.joinables[u], s.active.Keys, s.exited); }
    }
    hide Joins, RecordOk;
  }

  lemma NewSeated(s: Sim, joinable: bool)
    requires Inv(s) && Create(s, joinable).Next?
    ensures Seated(RoomsOf(Create(s, joinable).s), Create(s, joinable).s.place)
  {
    NoSuchRecord(s);
    NewRooms(s, joinable);
    hide Seat;
    NewPlace(RoomsOf(s), RoomsOf(Create(s, joinable).s), s.place, s.nextId);
  }

  lemma NewRooms(s: Sim, joinable: bool)
    requires s.nextId !in s.joinables && Create(s, joinable).Next?
    ensures forall p :: Seat(RoomsOf(Create(s, joinable).s), p) == Seat(RoomsOf(s), p)
  {
  }

  lemma NewPlace(r: Rooms, r': Rooms, place: map<nat, Place>, t: nat)
    requires Seated(r, place) && t !in place && forall p :: Seat(r', p) == Seat(r, p)
    ensures Seated(r', place[t := Running])
  {
    hide Seat;
    var place' := place[t := Running];
    forall p, u | Parking(p) ensures Seats(r', place', p, u) {
      assert Seats(r, place, p, u);
    }
  }

  lemma NoSuchRecord(s: Sim)
    requires Inv(s)
    ensures s.nextId !in s.joinables && s.nextId !in s.active
  {
    assert s.nextId in s.joinables ==> RecordOk(s.nextId, s.joinables[s.nextId], s.active.Keys, s.exited);
  }

  /** A thread that runs waits for nobody's end. */
  lemma RunnerNotJoining(s: Sim, t: nat)
    requires Inv(s) && IsActive(s, t)
    ensures t !in s.joinings
  {
    RunningPlace(s, t);
    if t in s.joinings {
      var u := s.joinings[t].joinee;
      assert Joins(s.joinables, s.joinings, t, u);
      Sits(RoomsOf(s), s.place, OnJoin(u), 0);
    }
  }

  /** The thread that waits for the end of t. */
  lemma JoinerWaits(s: Sim, t: nat)
    requires Inv(s) && t in s.joinables && s.joinables[t].joined
    ensures var j := s.joinables[t].joiner;
      j in s.joinings && s.joinings[j].joinee == t && At(s.place, j, OnJoin(t)) && j in s.active && !s.active[j]
  {
    assert Joins(s.joinables, s.joinings, s.joinables[t].joiner, t);
    Sits(RoomsOf(s), s.place, OnJoin(t), 0);
    Stopped(s, {}, -1, -1, s.joinables[t].joiner);
  }

  lemma StartJoinMid(s: Sim, t: nat, u: nat, ptr: nat)
    requires Inv(s) && IsActive(s, t) && u in s.joinables && !s.joinables[u].joined && !s.joinables[u].done
    ensures Mid(StartJoin(s, t, u, ptr), {t}, -1, -1) && At(StartJoin(s, t, u, ptr).place, t, OnJoin(u))
  {
    var s' := StartJoin(s, t, u, ptr);
    RunnerNotJoining(s, t);
    RunningPlace(s, t);
    forall j, v ensures Joins(s'.joinables, s'.joinings, j, v) {
      assert Joins(s.joinables, s.joinings, j, v) && Joins(s.joinables, s.joinings, t, v);
    }
    forall v | v in s'.joinables ensures RecordOk(v, s'.joinables[v], s'.active.Keys, s'.exited) {
      assert RecordOk(v, s.joinables[v], s.active.Keys, s.exited);
    }
    StartJoinSeated(s, t, u, ptr);
    hide Seated, Held, WaitersOk, BarriersOk, Joins, RecordOk;
  }

  lemma StartJoinSeated(s: Sim, t: nat, u: nat, ptr: nat)
    requires Seated(RoomsOf(s), s.place) && At(s.place, t, Running) && u in s.joinables && !s.joinables[u].joined
    ensures Seated(RoomsOf(StartJoin(s, t, u, ptr)), StartJoin(s, t, u, ptr).place)
  {
    hide Seated;
    Move(RoomsOf(s), RoomsOf(StartJoin(s, t, u, ptr)), s.place, t, OnJoin(u));
  }

  /** Giving up a record that nobody waits for. */
  lemma DropRecordInv(s: Sim, u: nat, memory: map<nat, int>)
    requires Inv(s) && u in s.joinables && !s.joinables[u].joined
    ensures Inv(s.(memory := memory, joinables := s.joinables - {u}))
  {
    var s' := s.(memory := memory, joinables := s.joinables - {u});
    SameSeats(RoomsOf(s), RoomsOf(s'), s.place);
    forall j, v ensures Joins(s'.joinables, s'.joinings, j, v) { assert Joins(s.joinables, s.joinings, j, v); }
    forall v | v in s'.joinables ensures RecordOk(v, s'.joinables[v], s'.active.Keys, s'.exited) {
      assert RecordOk(v, s.joinables[v], s.active.Keys, s.exited);
    }
    hide Seated, Held, WaitersOk, BarriersOk, Joins, RecordOk;
  }

  lemma JoinInv(s: Sim, t: nat, u: nat, ptr: nat)
    requires Inv(s) && IsActive(s, t) && Join(s, t, u, ptr).Next?
    ensures Inv(Join(s, t, u, ptr).s)
  {
    hide Mid;
    if s.joinables[u].done {
      DropRecordInv(s, u, Store(s.memory, ptr, s.joinables[u].retval));
    } else {
      StartJoinMid(s, t, u, ptr);
      assert {} + {t} == {t};
      BlockMid(StartJoin(s, t, u, ptr), t, {}, -1);
    }
  }

  lemma DetachInv(s: Sim, u: nat)
    requires Inv(s)
    ensures Inv(Detach(s, u))
  {
    if u in s.joinables && !s.joinables[u].joined { DropRecordInv(s, u, s.memory); }
  }

  lemma UnjoinMid(s: Sim, t: nat, v: int)
    requires Inv(s) && t in s.joinables && s.joinables[t].joined && s.joinables[t].joiner in s.joinings
    ensures var j := s.joinables[t].joiner; Mid(Unjoin(s, t, v), {j}, -1, -1) && At(Unjoin(s, t, v).place, j, Nowhere)
  {
    var j, s' := s.joinables[t].joiner, Unjoin(s, t, v);
    JoinerWaits(s, t);
    forall i, u ensures Joins(s'.joinables, s'.joinings, i, u) {
      assert Joins(s.joinables, s.joinings, i, u) && Joins(s.joinables, s.joinings, j, u);
    }
    forall u | u in s'.joinables ensures RecordOk(u, s'.joinables[u], s'.active.Keys, s'.exited) {
      assert RecordOk(u, s.joinables[u], s.active.Keys, s.exited);
    }
    UnjoinSeated(s, t, v);
    hide Seated, Held, WaitersOk, BarriersOk, Joins, RecordOk;
  }

  lemma UnjoinSeated(s: Sim, t: nat, v: int)
    requires Seated(RoomsOf(s), s.place) && t in s.joinables && s.joinables[t].joined && s.joinables[t].joiner in s.joinings
    ensures Seated(RoomsOf(Unjoin(s, t, v)), Unjoin(s, t, v).place)
  {
    Sits(RoomsOf(s), s.place, OnJoin(t), 0);
    hide Seated;
    Move(RoomsOf(s), RoomsOf(Unjoin(s, t, v)), s.place, s.joinables[t].joiner, Nowhere);
  }

  lemma DeliverInv(s: Sim, t: nat, v: int)
    requires Inv(s) && t in s.joinables && s.joinables[t].joined
    ensures Deliver(s, t, v).Next? && Inv(Deliver(s, t, v).s) && t !in Deliver(s, t, v).s.joinables
  {
    var j := s.joinables[t].joiner;
    JoinerWaits(s, t);
    hide Mid;
    UnjoinMid(s, t, v);
    assert {} + {j} == {j};
    UnblockMid(Unjoin(s, t, v), j, {}, -1, -1);
  }

  /** A thread leaves; the records agree with that already. */
  lemma KillMid(s: Sim, t: nat, v: int)
    requires Seated(RoomsOf(s), s.place) && Counted(s.active, s.nactive, s.nextId, s.exited)
    requires Scheduled(s.active, s.place, {}) && Held(s.spinning, s.mutexes, -1) && WaitersOk(s.waiters, s.mutexes)
    requires BarriersOk(s.barriers, -1) && JoinsOk(s.joinables, s.joinings, s.active.Keys - {t}, s.exited[t := v])
    requires IsActive(s, t)
    ensures Inv(Kill(s, t, v).s)
  {
    var s' := Kill(s, t, v).s;
    assert ActiveSet(s'.active) == ActiveSet(s.active) - {t};
    assert s'.active.Keys == s.active.Keys - {t};
    forall p, u | Parking(p) ensures Seats(RoomsOf(s'), s'.place, p, u) { assert Seats(RoomsOf(s), s.place, p, u); }
    hide Seat, Held, WaitersOk, BarriersOk, JoinsOk;
  }

  lemma KillInv(s: Sim, t: nat, v: int)
    requires Inv(s) && IsActive(s, t) && t !in s.joinables
    ensures Inv(Kill(s, t, v).s)
  {
    forall u | u in s.joinables ensures RecordOk(u, s.joinables[u], s.active.Keys - {t}, s.exited[t := v]) {
      assert RecordOk(u, s.joinables[u], s.active.Keys, s.exited);
    }
    hide Joins, RecordOk;
    assert JoinsOk(s.joinables, s.joinings, s.active.Keys - {t}, s.exited[t := v]);
    KillMid(s, t, v);
  }

  /** An exit that nobody waits for yet. */
  lemma LeaveInv(s: Sim, t: nat, v: int)
    requires Inv(s) && IsActive(s, t) && t in s.joinables && !s.joinables[t].joined
    ensures Inv(Kill(s.(joinables := s.joinables[t := s.joinables[t].(done := true, retval := v)]), t, v).s)
  {
    var s1 := s.(joinables := s.joinables[t := s.joinables[t].(done := true, retval := v)]);
    SameSeats(RoomsOf(s), RoomsOf(s1), s.place);
    forall j, u ensures Joins(s1.joinables, s1.joinings, j, u) { assert Joins(s.joinables, s.joinings, j, u); }
    forall u | u in s1.joinables ensures RecordOk(u, s1.joinables[u], s.active.Keys - {t}, s.exited[t := v]) {
      assert RecordOk(u, s.joinables[u], s.active.Keys, s.exited);
    }
    hide Joins, RecordOk, Seated, Held, WaitersOk, BarriersOk;
    assert JoinsOk(s1.joinables, s1.joinings, s1.active.Keys - {t}, s1.exited[t := v]);
    KillMid(s1, t, v);
  }

  lemma ExitInv(s: Sim, t: nat, v: int)
    requires Inv(s) && IsActive(s, t)
    ensures Exit(s, t, v).Next? && Inv(Exit(s, t, v).s)
  {
    if t !in s.joinables {
      KillInv(s, t, v);
      hide Mid;
    } else if s.joinables[t].joined {
      ExitJoined(s, t, v);
    } else {
      LeaveInv(s, t, v);
      hide Mid;
    }
  }

  lemma ExitJoined(s: Sim, t: nat, v: int)
    requires Inv(s) && IsActive(s, t) && t in s.joinables && s.joinables[t].joined
    ensures Exit(s, t, v).Next? && Inv(Exit(s, t, v).s)
  {
    hide Inv;
    DeliverInv(s, t, v);
    DeliverOthers(s, t, v);
    hide Deliver;
    KillInv(Deliver(s, t, v).s, t, v);
  }

  /** Delivering the value wakes the joiner and nobody else. */
  lemma DeliverOthers(s: Sim, t: nat, v: int)
    requires Inv(s) && t in s.joinables && s.joinables[t].joined
    ensures var j := s.joinables[t].joiner;
      Deliver(s, t, v).Next? && Deliver(s, t, v).s.active == s.active[j := true] && j in s.joinings
      && Deliver(s, t, v).s.memory == Store(s.memory, s.joinings[j].retvalPtr, v) && j !in Deliver(s, t, v).s.joinings
  {
    JoinerWaits(s, t);
    hide Mid;
  }

  // ---------------------------------------------------------------- runs

  lemma StepInv(s: Sim, t: nat, a: Call)
    requires Inv(s) && IsActive(s, t) && NotInUse(s, a) && Step(s, t, a).Next?
    ensures Inv(Step(s, t, a).s)
  {
    hide Mid;
    match a
    case MutexInitCall(m, kind) => MutexInitInv(s, m, kind);
    case LockCall(m) => MutexLockInv(s, t, m);
    case TryLockCall(m) => TryLockMid(s, t, m);
    case UnlockCall(m) => MutexUnlockInv(s, t, m);
    case WaitCall(c, m) => CondWaitInv(s, t, c, m);
    case SignalCall(c) => if WaitersOf(s, c) != [] { WakeOneInv(s, c); }
    case BroadcastCall(c) => BroadcastInv(s, c);
    case BarrierInitCall(b, num) => SetBarrierInv(s, b, num);
    case BarrierDestroyCall(b) => DropBarrierInv(s, b);
    case BarrierWaitCall(b) => BarrierWaitInv(s, t, b);
    case CreateCall(joinable) => CreateInv(s, joinable);
    case ExitCall(v) => ExitInv(s, t, v);
    case JoinCall(joinee, ptr) => JoinInv(s, t, joinee, ptr);
    case DetachCall(th) => DetachInv(s, th);
  }

  lemma MutexInitInv(s: Sim, m: nat, kind: Kind)
    requires Inv(s) && Queue(s, m) == []
    ensures Inv(SetMutex(s, m, Mutex(kind, 0, -1)))
  {
    assert m !in s.spinning;
    SetMutexMid(s, m, Mutex(kind, 0, -1), {}, -1, -1);
  }

  lemma {:induction false} RunInv(s: Sim, calls: seq<(nat, Call)>, s': Sim)
    requires Inv(s) && Run(s, calls, s')
    ensures Inv(s')
    decreases |calls|
  {
    hide Inv, Step;
    if calls != [] {
      StepInv(s, calls[0].0, calls[0].1);
      RunInv(Step(s, calls[0].0, calls[0].1).s, calls[1..], s');
    }
  }

  ghost predicate Reachable(s: Sim) {
    exists hthreads, calls :: Run(Initial(hthreads), calls, s)
  }

  lemma InitialInv(hthreads: nat)
    ensures Inv(Initial(hthreads))
  {
    var s := Initial(hthreads);
    assert ActiveSet(s.active) == {0};
    forall p, u | Parking(p) ensures Seats(RoomsOf(s), s.place, p, u) {}
  }

  lemma ReachableInv(s: Sim)
    requires Reachable(s)
    ensures Inv(s)
  {
    var hthreads, calls :| Run(Initial(hthreads), calls, s);
    InitialInv(hthreads);
    RunInv(Initial(hthreads), calls, s);
  }

  /** The place of a thread of the scheduler. */
  function PlaceOf(s: Sim, t: nat): Place
    requires t in s.place
  {
    s.place[t]
  }

  /** No waiter is lost: a thread of the scheduler that is not active occurs exactly once, in exactly
      one queue, barrier list or join record; an active one occurs in none; the number of active
      threads is counted right. */
  lemma NoWaiterLost(s: Sim, t: nat)
    requires Reachable(s) && t in s.active
    ensures t in s.place
    ensures !s.active[t] <==> Parking(PlaceOf(s, t))
    ensures forall p :: Parking(p) ==> multiset(Seat(RoomsOf(s), p))[t] == if p == PlaceOf(s, t) then 1 else 0
    ensures s.nactive == |ActiveSet(s.active)|
  {
    ReachableInv(s);
    forall p | Parking(p) ensures multiset(Seat(RoomsOf(s), p))[t] == if p == PlaceOf(s, t) then 1 else 0 {
      assert Seats(RoomsOf(s), s.place, p, t);
    }
  }

  /** Only threads of the scheduler sit anywhere. */
  lemma OnlyThreadsWait(s: Sim, p: Place, i: nat)
    requires Reachable(s) && Parking(p) && i < |Seat(RoomsOf(s), p)|
    ensures var t := Seat(RoomsOf(s), p)[i]; t in s.active && !s.active[t]
  {
    ReachableInv(s);
    Sits(RoomsOf(s), s.place, p, i);
    Stopped(s, {}, -1, -1, Seat(RoomsOf(s), p)[i]);
  }

  /** A mutex with waiters is held. */
  lemma WaitersMeanHeld(s: Sim, m: nat)
    requires Reachable(s) && Queue(s, m) != []
    ensures MutexOf(s, m).count > 0
  {
    ReachableInv(s);
  }

  /** Joined records and joiners mirror each other, one to one. */
  lemma JoinBijection(s: Sim, j: nat, u: nat)
    requires Reachable(s)
    ensures (j in s.joinings && s.joinings[j].joinee == u) <==> (u in s.joinables && s.joinables[u].joined && s.joinables[u].joiner == j)
  {
    ReachableInv(s);
    assert Joins(s.joinables, s.joinings, j, u);
  }

  // ---------------------------------------------------------------- which calls fail

  predicate NotHeld(s: Sim, m: nat) {
    MutexOf(s, m).kind == Recursive && MutexOf(s, m).count == 0
  }

  /** The calls that break the rules of the library. */
  predicate Misuse(s: Sim, t: nat, a: Call) {
    match a
    case UnlockCall(m) => NotHeld(s, m)
    case WaitCall(c, m) => NotHeld(s, m)
    case BarrierDestroyCall(b) => b !in s.barriers
    case BarrierWaitCall(b) => b !in s.barriers
    case CreateCall(joinable) => |s.active| + 1 > s.hthreads
    case JoinCall(u, ptr) => t == u || u !in s.joinables || s.joinables[u].joined
    case _ => false
  }

  lemma HandOffNext(s: Sim, m: nat)
    requires Inv(s)
    ensures HandOff(SetMutex(s, m, MutexOf(s, m).(count := 0)), m).Next?
  {
    if Queue(s, m) != [] {
      PopSpinSeated(s, m);
      Stopped(s, {}, -1, -1, Queue(s, m)[0]);
    }
    hide Mid;
  }

  lemma UnlockNext(s: Sim, t: nat, m: nat)
    requires Inv(s)
    ensures if NotHeld(s, m) then MutexUnlock(s, t, m) == Fault else MutexUnlock(s, t, m).Next?
  {
    HandOffNext(s, m);
    hide Mid, HandOff;
  }

  lemma WakeOneNext(s: Sim, c: nat)
    requires Inv(s) && WaitersOf(s, c) != []
    ensures WakeOne(s, c).Next?
  {
    PopWaiterSeated(s, c);
    Stopped(s, {}, -1, -1, WaitersOf(s, c)[0].thread);
    hide Mid;
  }

  lemma SignalNext(s: Sim, c: nat)
    requires Inv(s)
    ensures Signal(s, c).Next?
  {
    if WaitersOf(s, c) != [] { WakeOneNext(s, c); }
    hide Mid, WakeOne;
  }

  lemma {:induction false} BroadcastNext(s: Sim, c: nat)
    requires Inv(s)
    ensures Broadcast(s, c).Next?
    decreases |WaitersOf(s, c)|
  {
    hide Inv, WakeOne;
    if WaitersOf(s, c) != [] {
      WakeOneNext(s, c);
      WakeOneInv(s, c);
      BroadcastNext(WakeOne(s, c).s, c);
    }
  }

  lemma BlockNeverFaults(s: Sim, t: nat, m: nat)
    requires IsActive(s, t)
    ensures Block(s, t) != Fault && MutexLock(s, t, m) != Fault
  {
  }

  lemma WaitFault(s: Sim, t: nat, c: nat, m: nat)
    requires Inv(s) && IsActive(s, t)
    ensures CondWait(s, t, c, m) == Fault <==> NotHeld(s, m)
  {
    UnlockNext(s, t, m);
    if MutexUnlock(s, t, m).Next? { GaveUp(s, t, m); }
    hide Mid, MutexUnlock;
  }

  lemma BarrierFault(s: Sim, t: nat, b: nat)
    requires Inv(s) && IsActive(s, t)
    ensures BarrierWait(s, t, b) == Fault <==> b !in s.barriers
  {
    if b in s.barriers {
      AddToBarrierMid(s, b, t);
      var s1 := AddToBarrier(s, b, t);
      hide Mid;
      if |s1.barriers[b].waiters| == s1.barriers[b].num { ReleaseAllInv(s1, b, t); }
    }
  }

  lemma CreateFault(s: Sim, joinable: bool)
    requires Inv(s)
    ensures Create(s, joinable) == Fault <==> |s.active| + 1 > s.hthreads
  {
    NoSuchRecord(s);
  }

  lemma JoinFault(s: Sim, t: nat, u: nat, ptr: nat)
    requires Inv(s) && IsActive(s, t)
    ensures Join(s, t, u, ptr) == Fault <==> t == u || u !in s.joinables || s.joinables[u].joined
  {
    RunnerNotJoining(s, t);
    hide Mid;
  }

  /** The checks inside the library never fail: a call of a running thread ends in a failed check if
      and only if it breaks the rules. */
  lemma OnlyMisuseFails(s: Sim, t: nat, a: Call)
    requires Reachable(s) && IsActive(s, t)
    ensures Step(s, t, a) == Fault <==> Misuse(s, t, a)
  {
    ReachableInv(s);
    hide Mid, Lock, Signal, MutexLock, MutexUnlock, CondWait, WakeOne, Broadcast, BarrierWait, Create, Exit, Join, NotHeld;
    match a
    case LockCall(m) => BlockNeverFaults(s, t, m);
    case UnlockCall(m) => UnlockNext(s, t, m);
    case WaitCall(c, m) => WaitFault(s, t, c, m);
    case SignalCall(c) => SignalNext(s, c);
    case BroadcastCall(c) => BroadcastNext(s, c);
    case BarrierWaitCall(b) => BarrierFault(s, t, b);
    case CreateCall(joinable) => CreateFault(s, joinable);
    case ExitCall(v) => ExitInv(s, t, v);
    case JoinCall(u, ptr) => JoinFault(s, t, u, ptr);
    case _ =>
  }
}
