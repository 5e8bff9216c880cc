/** No waiter is ever lost: in every run a thread that does not run sits exactly once, in exactly one
    queue, and the bookkeeping of the managers agrees with that. */
module PthreadSafety {
  import opened Pthread

  // ---------------------------------------------------------------- seats

  /** The tables in which threads wait. */
  datatype Rooms = Rooms(spinning: map<nat, seq<nat>>, waiters: map<nat, seq<Waiter>>, barriers: map<nat, Barrier>,
                         joinables: map<nat, Joinee>)

  function RoomsOf(s: Sim): Rooms {
    Rooms(s.spinning, s.waiters, s.barriers, s.joinables)
  }

  function Threads(ws: seq<Waiter>): seq<nat> {
    seq(|ws|, i requires 0 <= i < |ws| => ws[i].thread)
  }

  predicate Parking(p: Place) {
    !p.Running? && !p.Nowhere?
  }

  /** The threads that sit at a place, in the order of their queue. */
  function Seat(r: Rooms, p: Place): seq<nat> {
    match p
    case OnMutex(m) => if m in r.spinning then r.spinning[m] else []
    case OnCond(c) => if c in r.waiters then Threads(r.waiters[c]) else []
    case OnBarrier(b) => if b in r.barriers then r.barriers[b].waiters else []
    case OnJoin(u) => if u in r.joinables && r.joinables[u].joined then [r.joinables[u].joiner] else []
    case _ => []
  }

  predicate At(place: map<nat, Place>, t: nat, p: Place) {
    t in place && place[t] == p
  }

  ghost predicate Seats(r: Rooms, place: map<nat, Place>, p: Place, t: nat) {
    multiset(Seat(r, p))[t] == if At(place, t, p) then 1 else 0
  }

  /** Every thread occurs exactly once at its place and nowhere else. */
  ghost predicate Seated(r: Rooms, place: map<nat, Place>) {
    forall p, t :: Parking(p) ==> Seats(r, place, p, t)
  }

  // ---------------------------------------------------------------- the invariant

  function ActiveSet(active: map<nat, bool>): set<nat> {
    set t | t in active && active[t]
  }

  /** `nactive` counts the active threads; numbers are given out once. */
  predicate Counted(active: map<nat, bool>, nactive: int, nextId: nat, exited: map<nat, int>) {
    && nactive == |ActiveSet(active)|
    && (forall t :: t in active ==> t < nextId && t !in exited)
    && (forall t :: t in exited ==> t < nextId)
  }

  /** The threads outside X run exactly when they sit nowhere. */
  ghost predicate Scheduled(active: map<nat, bool>, place: map<nat, Place>, X: set<nat>) {
    && place.Keys == active.Keys
    && forall t :: t in active && t !in X ==> (active[t] <==> place[t] == Running) && place[t] != Nowhere
  }

  function MutexIn(mutexes: map<nat, Mutex>, m: nat): Mutex {
    if m in mutexes then mutexes[m] else Mutex(Fast, 0, 0)
  }

  /** A mutex with waiters is held, except mutex m0, which is being handed over. */
  predicate Held(spinning: map<nat, seq<nat>>, mutexes: map<nat, Mutex>, m0: int) {
    forall m :: m in spinning ==> spinning[m] != [] && (m != m0 ==> MutexIn(mutexes, m).count > 0)
  }

  predicate WaiterOk(mutexes: map<nat, Mutex>, w: Waiter) {
    var x := MutexIn(mutexes, w.mutex);
    x.count > 0 && x.owner == w.thread ==> x.kind == Recursive
  }

  /** A thread that waits on a condition does not hold the mutex, unless recursively; lists that are
      kept are not empty. */
  ghost predicate WaitersOk(waiters: map<nat, seq<Waiter>>, mutexes: map<nat, Mutex>) {
    && (forall c :: c in waiters ==> waiters[c] != [])
    && (forall c, i :: c in waiters && 0 <= i < |waiters[c]| ==> WaiterOk(mutexes, waiters[c][i]))
  }

  /** Fewer threads wait at a barrier than take part, except at barrier b0, which is being passed. */
  predicate BarriersOk(barriers: map<nat, Barrier>, b0: int) {
    forall b :: b in barriers && b != b0 && barriers[b].num > 0 ==> |barriers[b].waiters| < barriers[b].num
  }

  predicate Joins(joinables: map<nat, Joinee>, joinings: map<nat, Joiner>, j: nat, u: nat) {
    (j in joinings && joinings[j].joinee == u) <==> (u in joinables && joinables[u].joined && joinables[u].joiner == j)
  }

  predicate RecordOk(u: nat, x: Joinee, alive: set<nat>, exited: map<nat, int>) {
    if x.done then !x.joined && u in exited && exited[u] == x.retval else u in alive
  }

  /** The records of joiners and of joined threads mirror each other; a record that is done holds the
      value given to exit, the others belong to threads that are alive. */
  ghost predicate JoinsOk(joinables: map<nat, Joinee>, joinings: map<nat, Joiner>, alive: set<nat>, exited: map<nat, int>) {
    && (forall j, u :: Joins(joinables, joinings, j, u))
    && (forall u :: u in joinables ==> RecordOk(u, joinables[u], alive, exited))
  }

  /** The invariant in the middle of a step: the threads of X change places, mutex m0 is being handed
      over and barrier b0 passed. */
  ghost predicate Mid(s: Sim, X: set<nat>, m0: int, b0: int) {
    && Seated(RoomsOf(s), s.place)
    && Counted(s.active, s.nactive, s.nextId, s.exited)
    && Scheduled(s.active, s.place, X)
    && Held(s.spinning, s.mutexes, m0)
    && WaitersOk(s.waiters, s.mutexes)
    && BarriersOk(s.barriers, b0)
    && JoinsOk(s.joinables, s.joinings, s.active.Keys, s.exited)
  }

  ghost predicate Inv(s: Sim) {
    Mid(s, {}, -1, -1)
  }

  // ---------------------------------------------------------------- moving a thread

  ghost predicate Loses(r: Rooms, r': Rooms, p: Place, t: nat) {
    Parking(p) ==> multiset(Seat(r, p)) == multiset(Seat(r', p)) + multiset{t}
  }

  /** One thread changes its place and its seat. */
  lemma Move(r: Rooms, r': Rooms, place: map<nat, Place>, t: nat, q: Place)
    requires Seated(r, place) && t in place && place[t] != q
    requires Loses(r, r', place[t], t) && Loses(r', r, q, t)
    requires forall p :: p != place[t] && p != q ==> Seat(r', p) == Seat(r, p)
    ensures Seated(r', place[t := q])
  {
    hide Seat;
    var place' := place[t := q];
    forall p, u | Parking(p) ensures Seats(r', place', p, u) {
      assert Seats(r, place, p, u);
    }
  }

  lemma HeadMultiset(q: seq<nat>)
    requires q != []
    ensures multiset(q) == multiset(q[1..]) + multiset{q[0]}
  {
    assert q == [q[0]] + q[1..];
  }

  lemma Sits(r: Rooms, place: map<nat, Place>, p: Place, i: nat)
    requires Seated(r, place) && Parking(p) && i < |Seat(r, p)|
    ensures At(place, Seat(r, p)[i], p)
  {
    assert Seats(r, place, p, Seat(r, p)[i]);
  }

  // ---------------------------------------------------------------- the scheduler

  lemma ActiveSetUpdate(active: map<nat, bool>, t: nat, on: bool)
    ensures ActiveSet(active[t := on]) == if on then ActiveSet(active) + {t} else ActiveSet(active) - {t}
  {
  }

  lemma BlockMid(s: Sim, t: nat, X: set<nat>, b0: int)
    requires Mid(s, X + {t}, -1, b0) && Block(s, t).Next? && t in s.place && Parking(s.place[t])
    ensures Mid(Block(s, t).s, X, -1, b0)
  {
    ActiveSetUpdate(s.active, t, false);
    hide Seated, WaitersOk, BarriersOk, JoinsOk, Held;
    assert Block(s, t).s.active.Keys == s.active.Keys;
  }

  lemma UnblockMid(s: Sim, t: nat, X: set<nat>, m0: int, b0: int)
    requires Mid(s, X + {t}, m0, b0) && Unblock(s, t).Next? && At(s.place, t, Nowhere)
    ensures Mid(Unblock(s, t).s, X, m0, b0)
  {
    ActiveSetUpdate(s.active, t, true);
    Move(RoomsOf(s), RoomsOf(s), s.place, t, Running);
    hide Seated, WaitersOk, BarriersOk, JoinsOk, Held;
    assert Unblock(s, t).s.active.Keys == s.active.Keys;
  }

  // ---------------------------------------------------------------- mutexes

  /** Writing a mutex record: it keeps its kind, and if it is held its owner is not waiting on a
      condition, or holds it recursively already. */
  lemma SetMutexMid(s: Sim, m: nat, x: Mutex, X: set<nat>, m0: int, b0: int)
    requires Mid(s, X, m0, b0) && (x.count == 0 ==> m == m0 || m !in s.spinning)
    requires x.count > 0 ==> x.kind == Recursive || x.owner < 0 || (x.owner in s.place && !s.place[x.owner].OnCond?)
    ensures Mid(SetMutex(s, m, x), X, if m == m0 && x.count > 0 then -1 else m0, b0)
  {
    var s' := SetMutex(s, m, x);
    forall c, i | c in s.waiters && 0 <= i < |s.waiters[c]| ensures WaiterOk(s'.mutexes, s.waiters[c][i]) {
      assert WaiterOk(s.mutexes, s.waiters[c][i]);
      Sits(RoomsOf(s), s.place, OnCond(c), i);
    }
    hide Seated, BarriersOk, JoinsOk, Counted, Scheduled, WaiterOk;
  }

  lemma SpinOnMid(s: Sim, t: nat, m: nat, X: set<nat>, b0: int)
    requires Mid(s, X, -1, b0) && t in s.place && !Parking(s.place[t]) && MutexOf(s, m).count > 0
    ensures Mid(SpinOn(s, t, m), if IsActive(s, t) then X + {t} else X - {t}, -1, b0)
  {
    SpinOnSeated(s, t, m);
    hide Seated, WaitersOk, BarriersOk, JoinsOk, Counted;
  }

  lemma SpinOnSeated(s: Sim, t: nat, m: nat)
    requires Seated(RoomsOf(s), s.place) && t in s.place && !Parking(s.place[t])
    ensures Seated(RoomsOf(SpinOn(s, t, m)), SpinOn(s, t, m).place)
  {
    Move(RoomsOf(s), RoomsOf(SpinOn(s, t, m)), s.place, t, OnMutex(m));
  }

  /** What asking for a mutex leads to: it is granted, or the thread is in its queue. */
  ghost predicate LockedMid(s: Sim, t: nat, m: nat, r: Locked, X: set<nat>, b0: int) {
    && r.s.active == s.active
    && if r.code == Success then Mid(r.s, X, -1, b0) && r.s.place == s.place
       else Mid(r.s, if IsActive(s, t) then X + {t} else X - {t}, -1, b0) && At(r.s.place, t, OnMutex(m))
  }

  lemma LockMid(s: Sim, t: nat, m: nat, X: set<nat>, b0: int)
    requires Mid(s, X, -1, b0) && t in s.place && !Parking(s.place[t])
    ensures LockedMid(s, t, m, Lock(s, t, m, false), X, b0)
  {
    var x := MutexOf(s, m);
    if x.count == 0 {
      LockGranted(s, t, m, X, b0);
    } else if x.owner == t && x.kind == Recursive {
      LockedAgain(s, t, m, X, b0);
    } else {
      LockRefused(s, t, m, X, b0);
    }
  }

  lemma LockGranted(s: Sim, t: nat, m: nat, X: set<nat>, b0: int)
    requires Mid(s, X, -1, b0) && t in s.place && !Parking(s.place[t]) && MutexOf(s, m).count == 0
    ensures LockedMid(s, t, m, Lock(s, t, m, false), X, b0)
  {
    NotSpinning(s, m, X, b0);
    hide Mid;
    SetMutexMid(s, m, MutexOf(s, m).(count := 1, owner := t), X, -1, b0);
  }

  lemma LockedAgain(s: Sim, t: nat, m: nat, X: set<nat>, b0: int)
    requires Mid(s, X, -1, b0) && t in s.place && !Parking(s.place[t])
    requires MutexOf(s, m).count > 0 && MutexOf(s, m).owner == t && MutexOf(s, m).kind == Recursive
    ensures LockedMid(s, t, m, Lock(s, t, m, false), X, b0)
  {
    hide Mid;
    SetMutexMid(s, m, MutexOf(s, m).(count := MutexOf(s, m).count + 1), X, -1, b0);
  }

  lemma LockRefused(s: Sim, t: nat, m: nat, X: set<nat>, b0: int)
    requires Mid(s, X, -1, b0) && t in s.place && !Parking(s.place[t])
    requires MutexOf(s, m).count > 0 && (MutexOf(s, m).owner != t || MutexOf(s, m).kind != Recursive)
    ensures LockedMid(s, t, m, Lock(s, t, m, false), X, b0)
  {
    hide Mid;
    SpinOnMid(s, t, m, X, b0);
  }

  lemma NotSpinning(s: Sim, m: nat, X: set<nat>, b0: int)
    requires Mid(s, X, -1, b0) && MutexOf(s, m).count == 0
    ensures m !in s.spinning
  {
  }

  lemma PopSpinMid(s: Sim, m: nat, X: set<nat>, m0: int, b0: int)
    requires Mid(s, X, m0, b0) && Queue(s, m) != []
    ensures var t := Queue(s, m)[0]; Mid(PopSpin(s, m), X + {t}, m0, b0) && At(s.place, t, OnMutex(m))
  {
    PopSpinSeated(s, m);
    hide Seated, WaitersOk, BarriersOk, JoinsOk, Counted;
  }

  lemma PopSpinSeated(s: Sim, m: nat)
    requires Seated(RoomsOf(s), s.place) && Queue(s, m) != []
    ensures At(s.place, Queue(s, m)[0], OnMutex(m)) && Seated(RoomsOf(PopSpin(s, m)), PopSpin(s, m).place)
  {
    PopSpinSeats(s, m);
    Sits(RoomsOf(s), s.place, OnMutex(m), 0);
    HeadMultiset(Queue(s, m));
    hide Seated, Seat;
    Move(RoomsOf(s), RoomsOf(PopSpin(s, m)), s.place, Queue(s, m)[0], Nowhere);
  }

  lemma PopSpinSeats(s: Sim, m: nat)
    requires Queue(s, m) != []
    ensures var r, r' := RoomsOf(s), RoomsOf(PopSpin(s, m));
      && Seat(r, OnMutex(m)) == Queue(s, m) && Seat(r', OnMutex(m)) == Queue(s, m)[1..]
      && Seat(r, Nowhere) == Seat(r', Nowhere) == []
      && forall p :: p != OnMutex(m) ==> Seat(r', p) == Seat(r, p)
  {
  }

  lemma TryLockMid(s: Sim, t: nat, m: nat)
    requires Inv(s) && IsActive(s, t)
    ensures Inv(Lock(s, t, m, true).s)
  {
    var x := MutexOf(s, m);
    if x.count == 0 {
      SetMutexMid(s, m, x.(count := 1, owner := t), {}, -1, -1);
    } else if x.owner == t && x.kind == Recursive {
      SetMutexMid(s, m, x.(count := x.count + 1), {}, -1, -1);
    }
  }

  /** Handing the mutex over to the longest waiter. */
  lemma HandOffMid(s: Sim, m: nat)
    requires Mid(s, {}, m, -1) && MutexOf(s, m).count == 0 && HandOff(s, m).Next?
    ensures Inv(HandOff(s, m).s)
  {
    if Queue(s, m) == [] {
      NoQueue(s, m);
    } else {
      var t, s1 := Queue(s, m)[0], PopSpin(s, m);
      PopSpinMid(s, m, {}, m, -1);
      var x := MutexOf(s1, m).(count := 1, owner := t);
      SetMutexMid(s1, m, x, {t}, m, -1);
      assert Lock(s1, t, m, false).s == SetMutex(s1, m, x);
      hide Mid;
      UnblockMid(SetMutex(s1, m, x), t, {}, -1, -1);
    }
  }

  lemma NoQueue(s: Sim, m: nat)
    requires Mid(s, {}, m, -1) && Queue(s, m) == []
    ensures Inv(s)
  {
    hide Seated, WaitersOk, BarriersOk, JoinsOk, Counted, Scheduled;
  }

  lemma ReleaseMid(s: Sim, m: nat)
    requires Inv(s)
    ensures Mid(SetMutex(s, m, MutexOf(s, m).(count := 0)), {}, m, -1)
  {
    assert Mid(s, {}, m, -1) by { hide Seated, WaitersOk, BarriersOk, JoinsOk, Counted, Scheduled; }
    SetMutexMid(s, m, MutexOf(s, m).(count := 0), {}, m, -1);
  }

  lemma MutexUnlockInv(s: Sim, t: nat, m: nat)
    requires Inv(s) && MutexUnlock(s, t, m).Next?
    ensures Inv(MutexUnlock(s, t, m).s)
  {
    var x := MutexOf(s, m);
    hide Mid;
    ReleaseMid(s, m);
    if UnlockCode(s, t, m) == Success {
      if x.kind == Recursive && x.count > 1 {
        SetMutexMid(s, m, x.(count := x.count - 1), {}, -1, -1);
      } else {
        HandOffMid(SetMutex(s, m, x.(count := 0)), m);
      }
    }
  }

  lemma MutexLockInv(s: Sim, t: nat, m: nat)
    requires Inv(s) && IsActive(s, t) && MutexLock(s, t, m).Next?
    ensures Inv(MutexLock(s, t, m).s)
  {
    RunningPlace(s, t);
    LockMid(s, t, m, {}, -1);
    hide Mid;
    var r := Lock(s, t, m, false);
    assert {} + {t} == {t};
    if r.code != Success { BlockMid(r.s, t, {}, -1); }
  }

  lemma RunningPlace(s: Sim, t: nat)
    requires Inv(s) && IsActive(s, t)
    ensures t in s.place && s.place[t] == Running
  {
  }

  // ---------------------------------------------------------------- condition variables

  lemma AddWaiterMid(s: Sim, c: nat, t: nat, m: nat)
    requires Inv(s) && IsActive(s, t) && WaiterOk(s.mutexes, Waiter(t, m))
    ensures Mid(AddWaiter(s, c, t, m), {t}, -1, -1) && At(AddWaiter(s, c, t, m).place, t, OnCond(c))
  {
    RunningPlace(s, t);
    AddWaiterSeated(s, c, t, m);
    var s' := AddWaiter(s, c, t, m);
    forall d, i | d in s'.waiters && 0 <= i < |s'.waiters[d]| ensures WaiterOk(s.mutexes, s'.waiters[d][i]) {
      if d in s.waiters && i < |s.waiters[d]| { assert WaiterOk(s.mutexes, s.waiters[d][i]); }
    }
    hide Seated, BarriersOk, JoinsOk, Counted, Held, WaiterOk;
  }

  lemma AddWaiterSeated(s: Sim, c: nat, t: nat, m: nat)
    requires Seated(RoomsOf(s), s.place) && At(s.place, t, Running)
    ensures Seated(RoomsOf(AddWaiter(s, c, t, m)), AddWaiter(s, c, t, m).place)
  {
    var s' := AddWaiter(s, c, t, m);
    assert Seat(RoomsOf(s'), OnCond(c)) == Seat(RoomsOf(s), OnCond(c)) + [t];
    hide Seated;
    Move(RoomsOf(s), RoomsOf(s'), s.place, t, OnCond(c));
  }

  lemma PopWaiterMid(s: Sim, c: nat)
    requires Inv(s) && WaitersOf(s, c) != []
    ensures var t := WaitersOf(s, c)[0].thread; Mid(PopWaiter(s, c), {t}, -1, -1) && At(s.place, t, OnCond(c))
  {
    PopWaiterSeated(s, c);
    var s' := PopWaiter(s, c);
    forall d, i | d in s'.waiters && 0 <= i < |s'.waiters[d]| ensures WaiterOk(s.mutexes, s'.waiters[d][i]) {
      assert WaiterOk(s.mutexes, s.waiters[d][if d == c then i + 1 else i]);
    }
    hide Seated, BarriersOk, JoinsOk, Counted, Held, WaiterOk;
  }

  lemma PopWaiterSeated(s: Sim, c: nat)
    requires Seated(RoomsOf(s), s.place) && WaitersOf(s, c) != []
    ensures At(s.place, WaitersOf(s, c)[0].thread, OnCond(c)) && Seated(RoomsOf(PopWaiter(s, c)), PopWaiter(s, c).place)
  {
    var s' := PopWaiter(s, c);
    var q := Threads(WaitersOf(s, c));
    Sits(RoomsOf(s), s.place, OnCond(c), 0);
    HeadMultiset(q);
    assert Seat(RoomsOf(s'), OnCond(c)) == q[1..];
    hide Seated;
    Move(RoomsOf(s), RoomsOf(s'), s.place, q[0], Nowhere);
  }

  lemma WakeOneInv(s: Sim, c: nat)
    requires Inv(s) && WaitersOf(s, c) != [] && WakeOne(s, c).Next?
    ensures Inv(WakeOne(s, c).s)
  {
    var w, s1 := WaitersOf(s, c)[0], PopWaiter(s, c);
    PopWaiterMid(s, c);
    Inactive(s, w.thread);
    hide Mid;
    LockMid(s1, w.thread, w.mutex, {w.thread}, -1);
    var r := Lock(s1, w.thread, w.mutex, false);
    assert {} + {w.thread} == {w.thread} && {w.thread} - {w.thread} == {};
    if r.code == Success { UnblockMid(r.s, w.thread, {}, -1, -1); }
  }

  lemma Inactive(s: Sim, t: nat)
    requires Inv(s) && t in s.place && s.place[t] != Running
    ensures t in s.active && !s.active[t]
  {
  }

  lemma {:induction false} BroadcastInv(s: Sim, c: nat)
    requires Inv(s) && Broadcast(s, c).Next?
    ensures Inv(Broadcast(s, c).s)
    decreases |WaitersOf(s, c)|
  {
    hide Inv, WakeOne;
    if WaitersOf(s, c) != [] {
      WakeOneInv(s, c);
      BroadcastInv(WakeOne(s, c).s, c);
    }
  }

  /** A released mutex belongs to the longest waiter at once. */
  lemma HandsOver(s: Sim, m: nat)
    requires Queue(s, m) != [] && MutexOf(s, m).count == 0 && HandOff(s, m).Next?
    ensures var h, s' := Queue(s, m)[0], HandOff(s, m).s;
      && MutexOf(s', m) == MutexOf(s, m).(count := 1, owner := h) && s'.active == s.active[h := true]
      && Queue(s', m) == Queue(s, m)[1..]
  {
  }

  /** After giving up the mutex a thread no longer holds it, unless recursively. */
  lemma GaveUp(s: Sim, t: nat, m: nat)
    requires Inv(s) && IsActive(s, t) && MutexUnlock(s, t, m).Next?
    ensures var s1 := MutexUnlock(s, t, m).s; IsActive(s1, t) && WaiterOk(s1.mutexes, Waiter(t, m))
  {
    var x := MutexOf(s, m);
    if UnlockCode(s, t, m) == Success && (x.kind != Recursive || x.count == 1) {
      GaveUpAll(s, t, m);
    } else {
      hide HandOff, Mid;
    }
  }

  lemma GaveUpAll(s: Sim, t: nat, m: nat)
    requires Inv(s) && IsActive(s, t) && HandOff(SetMutex(s, m, MutexOf(s, m).(count := 0)), m).Next?
    ensures var s1 := HandOff(SetMutex(s, m, MutexOf(s, m).(count := 0)), m).s;
      IsActive(s1, t) && WaiterOk(s1.mutexes, Waiter(t, m))
  {
    var s0 := SetMutex(s, m, MutexOf(s, m).(count := 0));
    hide HandOff, Mid;
    if Queue(s, m) == [] {
      NobodyWaits(s0, m);
    } else {
      RunnerNotQueued(s, t, m);
      GaveUpTo(s0, t, m);
    }
  }

  lemma RunnerNotQueued(s: Sim, t: nat, m: nat)
    requires Inv(s) && IsActive(s, t) && Queue(s, m) != []
    ensures Queue(s, m)[0] != t
  {
    RunningPlace(s, t);
    PopSpinSeated(s, m);
  }

  lemma NobodyWaits(s: Sim, m: nat)
    requires Queue(s, m) == []
    ensures HandOff(s, m) == Next(s)
  {
  }

  lemma GaveUpTo(s: Sim, t: nat, m: nat)
    requires IsActive(s, t) && Queue(s, m) != [] && Queue(s, m)[0] != t && MutexOf(s, m).count == 0 && HandOff(s, m).Next?
    ensures var s1 := HandOff(s, m).s; IsActive(s1, t) && WaiterOk(s1.mutexes, Waiter(t, m))
  {
    HandsOver(s, m);
    hide HandOff, Queue;
  }

  lemma CondWaitInv(s: Sim, t: nat, c: nat, m: nat)
    requires Inv(s) && IsActive(s, t) && CondWait(s, t, c, m).Next?
    ensures Inv(CondWait(s, t, c, m).s)
  {
    MutexUnlockInv(s, t, m);
    GaveUp(s, t, m);
    hide MutexUnlock;
    var s1 := MutexUnlock(s, t, m).s;
    AddWaiterMid(s1, c, t, m);
    hide Mid;
    assert {} + {t} == {t};
    BlockMid(AddWaiter(s1, c, t, m), t, {}, -1);
  }

  // ---------------------------------------------------------------- barriers

  lemma AddToBarrierMid(s: Sim, b: nat, t: nat)
    requires Inv(s) && IsActive(s, t) && b in s.barriers
    ensures Mid(AddToBarrier(s, b, t), {t}, -1, b) && At(AddToBarrier(s, b, t).place, t, OnBarrier(b))
  {
    RunningPlace(s, t);
    AddToBarrierSeated(s, b, t);
    hide Seated, WaitersOk, JoinsOk, Counted, Held;
  }

  lemma AddToBarrierSeated(s: Sim, b: nat, t: nat)
    requires Seated(RoomsOf(s), s.place) && b in s.barriers && At(s.place, t, Running)
    ensures Seated(RoomsOf(AddToBarrier(s, b, t)), AddToBarrier(s, b, t).place)
  {
    hide Seated;
    Move(RoomsOf(s), RoomsOf(AddToBarrier(s, b, t)), s.place, t, OnBarrier(b));
  }

  lemma PopBarrierMid(s: Sim, b: nat, X: set<nat>)
    requires Mid(s, X, -1, b) && b in s.barriers && s.barriers[b].waiters != []
    ensures var t := s.barriers[b].waiters[0];
      Mid(PopBarrier(s, b), X + {t}, -1, b) && At(s.place, t, OnBarrier(b)) && At(PopBarrier(s, b).place, t, Nowhere)
  {
    PopBarrierSeated(s, b);
    hide Seated, WaitersOk, JoinsOk, Counted, Held;
  }

  lemma PopBarrierSeated(s: Sim, b: nat)
    requires Seated(RoomsOf(s), s.place) && b in s.barriers && s.barriers[b].waiters != []
    ensures At(s.place, s.barriers[b].waiters[0], OnBarrier(b)) && Seated(RoomsOf(PopBarrier(s, b)), PopBarrier(s, b).place)
  {
    var q := s.barriers[b].waiters;
    Sits(RoomsOf(s), s.place, OnBarrier(b), 0);
    HeadMultiset(q);
    hide Seated;
    Move(RoomsOf(s), RoomsOf(PopBarrier(s, b)), s.place, q[0], Nowhere);
  }

  /** A thread that never stopped is put back. */
  lemma PutRunningMid(s: Sim, t: nat, b: nat)
    requires Mid(s, {t}, -1, b) && At(s.place, t, Nowhere) && IsActive(s, t)
    ensures Mid(Put(s, t, Running), {}, -1, b)
  {
    Move(RoomsOf(s), RoomsOf(s), s.place, t, Running);
    hide Seated, WaitersOk, JoinsOk, Counted, Held, BarriersOk;
  }

  /** While a barrier is passed, the thread that came last is still in its list or has been put back. */
  ghost predicate Passing(s: Sim, b: nat, last: nat) {
    && b in s.barriers && IsActive(s, last) && last in s.place
    && (s.place[last] == OnBarrier(b) || s.place[last] == Running)
    && Mid(s, Moving(s.place[last], last), -1, b)
  }

  function Moving(p: Place, t: nat): set<nat> {
    if p == Running then {} else {t}
  }

  lemma Stopped(s: Sim, X: set<nat>, m0: int, b0: int, t: nat)
    requires Mid(s, X, m0, b0) && t !in X && t in s.place && s.place[t] != Running
    ensures t in s.active && !s.active[t]
  {
  }

  lemma PassOne(s: Sim, b: nat, last: nat)
    requires Passing(s, b, last) && s.barriers[b].waiters != [] && s.barriers[b].waiters[0] != last
    ensures PassedOn(PopBarrier(s, b), s.barriers[b].waiters[0], b, last)
  {
    var t := s.barriers[b].waiters[0];
    var X := Moving(s.place[last], last);
    assert t !in X;
    hide Mid, Moving;
    PopBarrierMid(s, b, X);
    Stopped(s, X, -1, b, t);
    PopBarrierFacts(s, b);
    hide PopBarrier, Unblock, PassedOn;
    PassUnblock(PopBarrier(s, b), t, b, last, X);
  }

  lemma PopBarrierFacts(s: Sim, b: nat)
    requires b in s.barriers && s.barriers[b].waiters != []
    ensures PopBarrier(s, b).active == s.active && PopBarrier(s, b).place == s.place[s.barriers[b].waiters[0] := Nowhere]
  {
  }

  /** Taking thread t off the list lets it run again. */
  ghost predicate PassedOn(s1: Sim, t: nat, b: nat, last: nat) {
    Unblock(s1, t).Next? && Passing(Unblock(s1, t).s, b, last)
  }

  lemma PassUnblock(s1: Sim, t: nat, b: nat, last: nat, X: set<nat>)
    requires b in s1.barriers && IsActive(s1, last) && last in s1.place && t != last
    requires s1.place[last] == OnBarrier(b) || s1.place[last] == Running
    requires X == Moving(s1.place[last], last)
    requires Mid(s1, X + {t}, -1, b) && At(s1.place, t, Nowhere) && t in s1.active && !s1.active[t]
    ensures PassedOn(s1, t, b, last)
  {
    hide Mid, Moving;
    UnblockMid(s1, t, X, -1, b);
  }

  lemma PassLast(s: Sim, b: nat, last: nat)
    requires Passing(s, b, last) && s.barriers[b].waiters != [] && s.barriers[b].waiters[0] == last
    ensures Passing(Put(PopBarrier(s, b), last, Running), b, last)
  {
    PopBarrierMid(s, b, {last});
    hide Mid;
    assert {last} + {last} == {last};
    PutRunningMid(PopBarrier(s, b), last, b);
  }

  lemma PassedAll(s: Sim, b: nat, last: nat)
    requires Passing(s, b, last) && s.barriers[b].waiters == []
    ensures Inv(s)
  {
    assert s.place[last] == Running by { assert Seats(RoomsOf(s), s.place, OnBarrier(b), last); }
    hide Seated, WaitersOk, JoinsOk, Counted, Held;
  }

  lemma PassStep(s: Sim, b: nat, last: nat)
    requires b in s.barriers && Passing(s, b, last) && s.barriers[b].waiters != []
    ensures ReleaseOne(s, b, last).Next? && Passing(ReleaseOne(s, b, last).s, b, last)
  {
    hide Passing;
    if s.barriers[b].waiters[0] == last { PassLast(s, b, last); } else { PassOne(s, b, last); }
  }

  lemma {:induction false} ReleaseAllInv(s: Sim, b: nat, last: nat)
    requires Passing(s, b, last)
    ensures ReleaseAll(s, b, last).Next? && Inv(ReleaseAll(s, b, last).s)
    decreases |s.barriers[b].waiters|
  {
    if s.barriers[b].waiters == [] {
      PassedAll(s, b, last);
    } else {
      PassStep(s, b, last);
      hide Passing, ReleaseOne;
      ReleaseAllInv(ReleaseOne(s, b, last).s, b, last);
    }
  }

  lemma BarrierWaitInv(s: Sim, t: nat, b: nat)
    requires Inv(s) && IsActive(s, t) && BarrierWait(s, t, b).Next?
    ensures Inv(BarrierWait(s, t, b).s)
  {
    AddToBarrierMid(s, b, t);
    var s1 := AddToBarrier(s, b, t);
    if |s1.barriers[b].waiters| == s1.barriers[b].num {
      hide Mid;
      ReleaseAllInv(s1, b, t);
    } else {
      assert Mid(s1, {t}, -1, -1) by { hide Seated, WaitersOk, JoinsOk, Counted, Held, Scheduled; }
      hide Mid;
      assert {} + {t} == {t};
      BlockMid(s1, t, {}, -1);
    }
  }

  lemma SetBarrierInv(s: Sim, b: nat, num: nat)
    requires Inv(s) && NotInUse(s, BarrierInitCall(b, num))
    ensures Inv(SetBarrier(s, b, Barrier(num, [])))
  {
    var s' := SetBarrier(s, b, Barrier(num, []));
    SameSeats(RoomsOf(s), RoomsOf(s'), s.place);
    hide Seated, WaitersOk, JoinsOk, Counted, Held, Scheduled;
  }

  lemma DropBarrierInv(s: Sim, b: nat)
    requires Inv(s) && NotInUse(s, BarrierDestroyCall(b))
    ensures Inv(s.(barriers := s.barriers - {b}))
  {
    var s' := s.(barriers := s.barriers - {b});
    SameSeats(RoomsOf(s), RoomsOf(s'), s.place);
    hide Seated, WaitersOk, JoinsOk, Counted, Held, Scheduled;
  }

  lemma SameSeats(r: Rooms, r': Rooms, place: map<nat, Place>)
    requires Seated(r, place) && forall p :: Seat(r', p) == Seat(r, p)
    ensures Seated(r', place)
  {
    hide Seat;
    forall p, u | Parking(p) ensures Seats(r', place, p, u) { assert Seats(r, place, p, u); }
  }
}
