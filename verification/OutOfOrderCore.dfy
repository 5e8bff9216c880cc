/** The out-of-order core as the program runs it: a circular instruction queue and a circular reorder
    buffer whose entries name each other by slot, although slots are used again and again.  Every
    method is proved against the state machine of module O3, where entries have absolute positions. */
module OutOfOrderCore {
  import opened Arithmetic
  import opened O3
  import opened O3Safety
  import opened O3Runs

  // ---------------------------------------------------------------- slots

  datatype RobState = RobIssued | RobExecuting | RobCompleted | RobInvalid

  /** A slot of the reorder buffer; `deps` holds slots. */
  datatype Entry = Entry(state: RobState, readyTime: int, memaddr: nat, isRead: bool, branchMiss: bool,
                         kind: Kind, rw: Regs, deps: Deps)

  function Slot(n: int, max: nat): (r: nat)
    requires max > 0
    ensures r < max
  {
    n % max
  }

  /** The slot of the k-th entry of a circular buffer. */
  function Place(head: nat, k: int, max: nat): (r: nat)
    requires max > 0
    ensures r < max
  {
    Slot(head + k, max)
  }

  lemma SlotOffset(b: int, i: int, max: nat)
    requires max > 0
    ensures Slot(Slot(b, max) + i, max) == Slot(b + i, max)
  {
    var q := (Slot(b, max) + i) / max;
    assert b == b / max * max + Slot(b, max);
    assert b + i == b / max * max + q * max + Slot(Slot(b, max) + i, max);
    assert b / max * max + q * max == (b / max + q) * max;
    DivModUnique(b + i, max, b / max + q, Slot(Slot(b, max) + i, max));
  }

  /** Slots are used again, but never within one window. */
  lemma SlotDistinct(a: int, b: int, max: nat)
    requires a < b < a + max
    ensures Slot(a, max) != Slot(b, max)
  {
    if Slot(a, max) == Slot(b, max) {
      MulSub(b / max, a / max, max);
      assert b - a == (b / max - a / max) * max;
      MulLess(b / max - a / max, 0, max);
      MulLess(b / max - a / max, 1, max);
      assert false;
    }
  }

  function SlotOf(d: int, max: nat): int
    requires max > 0
  {
    if d == -1 then -1 else Slot(d, max)
  }

  function SlotDeps(x: Deps, max: nat): Deps
    requires max > 0
  {
    Deps(SlotOf(x.mem, max), SlotOf(x.instr, max), SlotOf(x.branch, max),
         SlotOf(x.r0, max), SlotOf(x.r1, max), SlotOf(x.r2, max), SlotOf(x.r3, max))
  }

  function StateOf(stage: Stage): RobState {
    match stage
    case Issued => RobIssued
    case Executing => RobExecuting
    case Completed => RobCompleted
  }

  /** How the reorder buffer holds an entry of the log. */
  function Image(u: Uop, max: nat): Entry
    requires max > 0
  {
    Entry(StateOf(u.stage), u.ready, u.addr, u.isRead, u.missed, u.kind, u.dst, SlotDeps(u.deps, max))
  }

  /** The slots hold the live part of the log. */
  ghost predicate Holds(rob: seq<Entry>, log: seq<Uop>, base: nat, max: nat) {
    && |rob| == max > 0 && base <= |log| < base + max
    && forall n :: base <= n < |log| ==> rob[Slot(n, max)] == Image(log[n], max)
  }

  lemma HoldsAt(rob: seq<Entry>, log: seq<Uop>, base: nat, max: nat, i: nat)
    requires Holds(rob, log, base, max) && i < |log| - base
    ensures Slot(Slot(base, max) + i, max) == Slot(base + i, max) && rob[Slot(base + i, max)] == Image(log[base + i], max)
  {
    SlotOffset(base, i, max);
  }

  lemma HoldsShape(rob: seq<Entry>, log: seq<Uop>, base: nat, max: nat)
    requires Holds(rob, log, base, max)
    ensures |rob| == max > 0 && base <= |log| < base + max
  {
  }

  lemma HoldsUpdate(rob: seq<Entry>, log: seq<Uop>, base: nat, max: nat, n: nat, u: Uop)
    requires Holds(rob, log, base, max) && base <= n < |log|
    ensures Holds(rob[Slot(n, max) := Image(u, max)], log[n := u], base, max)
  {
    hide Slot, Image;
    forall m | base <= m < |log| && m != n ensures Slot(m, max) != Slot(n, max) {
      if m < n { SlotDistinct(m, n, max); } else { SlotDistinct(n, m, max); }
    }
  }

  /** The slot past the newest entry is free. */
  lemma HoldsScratch(rob: seq<Entry>, log: seq<Uop>, base: nat, max: nat, e: Entry)
    requires Holds(rob, log, base, max)
    ensures Holds(rob[Slot(|log|, max) := e], log, base, max)
  {
    hide Slot, Image;
    forall m | base <= m < |log| ensures Slot(m, max) != Slot(|log|, max) { SlotDistinct(m, |log|, max); }
  }

  lemma HoldsAppend(rob: seq<Entry>, log: seq<Uop>, base: nat, max: nat, u: Uop)
    requires Holds(rob, log, base, max) && |log| + 1 < base + max
    ensures Holds(rob[Slot(|log|, max) := Image(u, max)], log + [u], base, max)
  {
    hide Slot, Image;
    HoldsScratch(rob, log, base, max, Image(u, max));
  }

  lemma PlaceDistinct(head: nat, j: nat, k: nat, max: nat)
    requires j < k < max
    ensures Place(head, j, max) != Place(head, k, max)
  {
    SlotDistinct(head + j, head + k, max);
  }

  /** The circular queue holds `pending` from its head on. */
  ghost predicate Queued(q: seq<Instr>, pending: seq<Instr>, head: nat, max: nat) {
    && |q| == max > 0 && head < max && |pending| <= max
    && forall k :: 0 <= k < |pending| ==> q[Place(head, k, max)] == pending[k]
  }

  lemma QueuedUpdate(q: seq<Instr>, pending: seq<Instr>, head: nat, max: nat, k: nat, i: Instr)
    requires Queued(q, pending, head, max) && k < |pending|
    ensures Queued(q[Place(head, k, max) := i], pending[k := i], head, max)
  {
    hide Place;
    forall m | 0 <= m < |pending| && m != k ensures Place(head, m, max) != Place(head, k, max) {
      if m < k { PlaceDistinct(head, m, k, max); } else { PlaceDistinct(head, k, m, max); }
    }
  }

  lemma QueuedAppend(q: seq<Instr>, pending: seq<Instr>, head: nat, max: nat, i: Instr)
    requires Queued(q, pending, head, max) && |pending| < max
    ensures Queued(q[Place(head, |pending|, max) := i], pending + [i], head, max)
  {
    hide Place;
    forall m | 0 <= m < |pending| ensures Place(head, m, max) != Place(head, |pending|, max) {
      PlaceDistinct(head, m, |pending|, max);
    }
  }

  lemma QueuedPop(q: seq<Instr>, pending: seq<Instr>, head: nat, max: nat)
    requires Queued(q, pending, head, max) && pending != []
    ensures q[head] == pending[0]
    ensures Queued(q, pending[1..], Place(head, 1, max), max)
  {
    DivModUnique(head, max, 0, head);
    assert Place(head, 0, max) == head;
    forall k | 0 <= k < |pending| - 1 ensures Place(Place(head, 1, max), k, max) == Place(head, k + 1, max) {
      SlotOffset(head + 1, k, max);
    }
    hide Place;
    forall k | 0 <= k < |pending| - 1 ensures q[Place(Place(head, 1, max), k, max)] == pending[1..][k] {
      assert q[Place(head, k + 1, max)] == pending[k + 1];
    }
  }

  // ---------------------------------------------------------------- searching backwards

  /** r is the slot found so far by a search that has looked at everything from hi on. */
  ghost predicate Resolved(s: Core, q: Query, hi: int, r: int, max: nat)
    requires max > 0
  {
    && s.base <= hi <= |s.log|
    && var d := Newest(s.log, s.base, |s.log|, s.now, q);
      if r == -1 then d == Newest(s.log, s.base, hi, s.now, q) else r == SlotOf(d, max)
  }

  lemma ResolvedStart(s: Core, q: Query, max: nat)
    requires max > 0 && s.base <= |s.log|
    ensures Resolved(s, q, |s.log|, -1, max)
  {
  }

  lemma ResolvedStep(s: Core, q: Query, hi: nat, r: int, max: nat)
    requires max > 0 && Resolved(s, q, hi, r, max) && s.base < hi
    ensures var found := r == -1 && !Done(s.log[hi - 1], s.now) && Matches(q, s.log[hi - 1]);
      Resolved(s, q, hi - 1, if found then Slot(hi - 1, max) else r, max)
  {
  }

  lemma ResolvedAll(s: Core, q: Query, r: int, max: nat)
    requires max > 0 && Resolved(s, q, s.base, r, max)
    ensures r == SlotOf(Newest(s.log, s.base, |s.log|, s.now, q), max)
  {
  }

  lemma ResolvedHit(s: Core, q: Query, hi: nat, r: int, max: nat)
    requires max > 0 && Resolved(s, q, hi, r, max) && r != -1
    ensures r == SlotOf(Newest(s.log, s.base, |s.log|, s.now, q), max)
  {
  }

  // ---------------------------------------------------------------- dispatching operand by operand

  function Operand(i: Instr, k: nat): nat {
    if k == 0 then i.raddr else if k == 1 then i.raddr2 else if k == 2 then i.waddr else 0
  }

  predicate NoMemory(i: Instr) {
    i.raddr == 0 && i.raddr2 == 0 && i.waddr == 0
  }

  /** The entries still to be made when operand k is looked at. */
  function Remaining(i: Instr, k: nat): seq<Access>
    decreases 4 - k
  {
    if k > 3 then []
    else if k == 3 then if NoMemory(i) then [Access(0, false)] else []
    else (if Operand(i, k) != 0 then [Access(Operand(i, k), k < 2)] else []) + Remaining(i, k + 1)
  }

  lemma RemainingAll(i: Instr)
    ensures Remaining(i, 0) == Accesses(i)
  {
    assert Remaining(i, 2) == (if i.waddr != 0 then [Access(i.waddr, false)] else []) + Remaining(i, 3);
    assert Remaining(i, 1) == (if i.raddr2 != 0 then [Access(i.raddr2, true)] else []) + Remaining(i, 2);
  }

  lemma {:induction false} FillStep(c: Config, s: Core, i: Instr, deps: Deps, previous: int, a: Access, rest: seq<Access>)
    requires s.base <= |s.log|
    ensures Fill(c, s, i, deps, previous, [a] + rest) == Fill(c, Append(s, NewUop(c, s, i, deps, previous, a)), i, deps, |s.log|, rest)
  {
    assert ([a] + rest)[1..] == rest;
  }

  lemma FillNothing(c: Config, s: Core, i: Instr, deps: Deps, previous: int)
    requires s.base <= |s.log|
    ensures Fill(c, s, i, deps, previous, []) == s && Remaining(i, 4) == []
    ensures !NoMemory(i) ==> Remaining(i, 3) == []
  {
  }

  lemma RemainingStep(i: Instr, k: nat)
    requires k < 4
    ensures Remaining(i, k)
         == if (k < 3 && Operand(i, k) == 0) || (k == 3 && !NoMemory(i)) then Remaining(i, k + 1)
            else [Access(Operand(i, k), k < 2)] + Remaining(i, k + 1)
  {
  }

  /** While entries remain to be made there is a free slot. */
  lemma FillRoom(c: Config, s0: Core, s: Core, i: Instr, deps: Deps, previous: int, k: nat)
    requires s0.base == s.base <= |s0.log| && s.base <= |s.log| && k < 4
    requires Fill(c, s, i, deps, previous, Remaining(i, k)) == Fill(c, s0, i, deps, -1, Accesses(i))
    ensures Remaining(i, k) != [] ==> |s.log| < |s0.log| + 3
  {
    assert |Accesses(i)| <= 3;
  }

  /** The slot of a new entry holds it. */
  lemma ImageNew(c: Config, s: Core, i: Instr, deps: Deps, previous: int, a: Access)
    requires c.robSize > 0 && s.base <= |s.log|
    ensures var mem := if a.addr == 0 then -1 else SlotOf(Newest(s.log, s.base, |s.log|, s.now, AccessTo(Word(a.addr))), c.robSize);
      Image(NewUop(c, s, i, deps, previous, a), c.robSize)
      == Entry(RobIssued, s.now + c.interval, a.addr, a.isRead, i.missed, i.kind, i.dst,
               SlotDeps(deps, c.robSize).(mem := mem, instr := SlotOf(previous, c.robSize)))
  {
  }

  lemma PopQueued(q: seq<Instr>, pending: seq<Instr>, head: nat, max: nat, i: Instr)
    requires Queued(q, pending, head, max) && pending != []
    ensures Queued(q[head := i], pending[1..], Slot(head + 1, max), max)
  {
    QueuedPop(q, pending, head, max);
    QueuedUpdate(q, pending, head, max, 0, i);
    assert Place(head, 0, max) == head by { DivModUnique(head, max, 0, head); }
    QueuedPop(q[head := i], pending[0 := i], head, max);
    assert pending[0 := i][1..] == pending[1..];
  }

  lemma SlotDepsNone(x: Deps, max: nat)
    requires max > 0
    ensures SlotDeps(x, max) == NoDeps <==> x == NoDeps
  {
    hide Slot;
  }

  lemma HoldsRetire(rob: seq<Entry>, log: seq<Uop>, base: nat, max: nat, e: Entry)
    requires Holds(rob, log, base, max) && base < |log|
    ensures Holds(rob[Slot(base, max) := e], log, base + 1, max)
  {
    hide Slot, Image;
    forall m | base < m < |log| ensures Slot(m, max) != Slot(base, max) { SlotDistinct(base, m, max); }
  }

  // ---------------------------------------------------------------- announcing one finished entry

  function Unless(d: int, x: int): int {
    if d == x then -1 else d
  }

  /** The dependencies without x. */
  function ClearDeps(deps: Deps, x: int): Deps {
    Deps(Unless(deps.mem, x), Unless(deps.instr, x), Unless(deps.branch, x),
         Unless(deps.r0, x), Unless(deps.r1, x), Unless(deps.r2, x), Unless(deps.r3, x))
  }

  /** Clearing a slot clears the entry in it, because everything waited for is in the window. */
  lemma ClearSlots(deps: Deps, x: nat, base: nat, n: nat, max: nat)
    requires max > 0 && base <= x < n < base + max
    requires forall d: int :: Has(deps, d) ==> base <= d < n
    ensures ClearDeps(SlotDeps(deps, max), Slot(x, max)) == SlotDeps(ClearDeps(deps, x), max)
  {
    hide Slot;
    ClearSlot(deps, deps.mem, x, base, n, max);
    ClearSlot(deps, deps.instr, x, base, n, max);
    ClearSlot(deps, deps.branch, x, base, n, max);
    ClearSlot(deps, deps.r0, x, base, n, max);
    ClearSlot(deps, deps.r1, x, base, n, max);
    ClearSlot(deps, deps.r2, x, base, n, max);
    ClearSlot(deps, deps.r3, x, base, n, max);
  }

  lemma ClearSlot(deps: Deps, d: int, x: nat, base: nat, n: nat, max: nat)
    requires max > 0 && base <= x < n < base + max
    requires d == -1 || Has(deps, d)
    requires forall d: int :: Has(deps, d) ==> base <= d < n
    ensures Unless(SlotOf(d, max), Slot(x, max)) == SlotOf(Unless(d, x), max)
  {
    hide Slot;
    if d != -1 && d < x { SlotDistinct(d, x, max); }
    if d != -1 && x < d { SlotDistinct(x, d, max); }
  }

  /** The log after entry x has been announced to the entries before position hi. */
  function Announced(log: seq<Uop>, x: nat, hi: nat): seq<Uop> {
    seq(|log|, n requires 0 <= n < |log| =>
      if x < n < hi && log[n].stage == Issued then log[n].(deps := ClearDeps(log[n].deps, x)) else log[n])
  }

  lemma AnnouncedNone(log: seq<Uop>, x: nat)
    ensures Announced(log, x, x + 1) == log
  {
  }

  lemma AnnouncedNext(log: seq<Uop>, x: nat, j: nat)
    requires x < j < |log|
    ensures Announced(log, x, j)[j] == log[j]
    ensures Announced(log, x, j + 1)
         == if log[j].stage != Issued then Announced(log, x, j)
            else Announced(log, x, j)[j := log[j].(deps := ClearDeps(log[j].deps, x))]
  {
  }

  // ---------------------------------------------------------------- announcing one after the other

  function ClearedBelow(s: Core, d: int, hi: nat): int {
    if s.base <= d < hi && FinishesNow(s, d) then -1 else d
  }

  function WokenUop(s: Core, u: Uop, hi: nat): Uop {
    if u.stage != Issued then u
    else
      var x := u.deps;
      u.(deps := Deps(ClearedBelow(s, x.mem, hi), ClearedBelow(s, x.instr, hi), ClearedBelow(s, x.branch, hi),
                      ClearedBelow(s, x.r0, hi), ClearedBelow(s, x.r1, hi), ClearedBelow(s, x.r2, hi),
                      ClearedBelow(s, x.r3, hi)))
  }

  /** The log after the finished entries before position hi have been announced. */
  function Woken(s: Core, hi: nat): seq<Uop> {
    seq(|s.log|, n requires 0 <= n < |s.log| => WokenUop(s, s.log[n], hi))
  }

  /** The state after the finished entries before position hi have been announced. */
  ghost function WokenState(c: Config, s: Core, hi: nat): Core {
    s.(log := Woken(s, hi),
       events := s.events + if exists n :: 0 <= n < hi && FinishesNow(s, n) then {s.now + c.interval} else {})
  }

  /** Dependencies point at older entries of the window. */
  ghost predicate InWindow(log: seq<Uop>, base: nat) {
    forall n: nat, d: int :: n < |log| && Has(log[n].deps, d) ==> base <= d < n
  }

  lemma WokenNone(c: Config, s: Core)
    ensures WokenState(c, s, s.base) == s
  {
  }

  lemma WokenUopNext(s: Core, n: nat, hi: nat)
    requires n < |s.log| && s.base <= hi && DepsOk(s, Pending(s))
    ensures WokenUop(s, s.log[n], hi + 1)
         == if FinishesNow(s, hi) && hi < n && s.log[n].stage == Issued
            then WokenUop(s, s.log[n], hi).(deps := ClearDeps(WokenUop(s, s.log[n], hi).deps, hi))
            else WokenUop(s, s.log[n], hi)
  {
    if n <= hi && s.log[n].stage == Issued {
      forall d: int | Has(s.log[n].deps, d) ensures d < hi { assert DepOk(s, Pending(s), n, d); }
      var x := s.log[n].deps;
      forall d | d in {x.mem, x.instr, x.branch, x.r0, x.r1, x.r2, x.r3}
        ensures ClearedBelow(s, d, hi + 1) == ClearedBelow(s, d, hi)
      {
        assert d == -1 || Has(x, d);
      }
    }
  }

  lemma WokenNext(c: Config, s: Core, hi: nat)
    requires s.base <= hi < |s.log| && DepsOk(s, Pending(s))
    ensures var log := Woken(s, hi);
      && |log| == |s.log| && log[hi].stage == s.log[hi].stage && log[hi].ready == s.log[hi].ready && InWindow(log, s.base)
      && WokenState(c, s, hi + 1) == if !FinishesNow(s, hi) then WokenState(c, s, hi)
         else s.(log := Announced(log, hi, |s.log|), events := WokenState(c, s, hi).events + {s.now + c.interval})
  {
    forall n: nat, d: int | n < |s.log| && Has(Woken(s, hi)[n].deps, d) ensures s.base <= d < n {
      assert DepOk(s, Pending(s), n, d);
    }
    WokenEvents(c, s, hi);
    var left := Woken(s, hi + 1);
    var right := if FinishesNow(s, hi) then Announced(Woken(s, hi), hi, |s.log|) else Woken(s, hi);
    forall n: nat | n < |s.log| ensures left[n] == right[n] {
      hide WokenUop, ClearedBelow;
      WokenUopNext(s, n, hi);
      WokenStage(s, s.log[n], hi);
    }
    assert left == right;
  }

  lemma WokenLog(c: Config, s: Core, hi: nat)
    ensures var s' := WokenState(c, s, hi); s'.log == Woken(s, hi) && s' == s.(log := s'.log, events := s'.events)
  {
  }

  lemma WokenEvents(c: Config, s: Core, hi: nat)
    ensures WokenState(c, s, hi + 1).events
         == WokenState(c, s, hi).events + if FinishesNow(s, hi) then {s.now + c.interval} else {}
  {
    if n :| 0 <= n < hi && FinishesNow(s, n) { assert 0 <= n < hi + 1 && FinishesNow(s, n); }
  }

  lemma WokenStage(s: Core, u: Uop, hi: nat)
    ensures WokenUop(s, u, hi).stage == u.stage
  {
  }

  lemma WokenAll(c: Config, s: Core)
    requires s.base <= |s.log| && DepsOk(s, Pending(s))
    ensures WokenState(c, s, |s.log|) == Wake(c, s)
  {
    forall n: nat | n < |s.log| ensures Woken(s, |s.log|)[n] == Wake(c, s).log[n] {
      WakeEntry(c, s, n);
      if n < s.base && s.log[n].stage == Issued {
        forall d: int ensures !Has(s.log[n].deps, d) {
          assert Has(s.log[n].deps, d) ==> DepOk(s, Pending(s), n, d);
        }
        NothingHas(s.log[n].deps);
      }
    }
    assert Woken(s, |s.log|) == Wake(c, s).log;
  }

  // ---------------------------------------------------------------- the instruction queue

  lemma FetchStep(c: Config, q: seq<Instr>, i: nat, addr: nat)
    requires c.lineSize > 0 && i < |q|
    ensures var next := if addr == 0 then LineStart(c, q[i].ip) else addr;
      var e := q[i].(state := BeingLoaded);
      q[..i] + Fetch(c, q[i..], addr)
      == if q[i].state == NotInQueue && (addr == 0 || Line(c, addr) == Line(c, q[i].ip))
         then q[i := e][..i + 1] + Fetch(c, q[i := e][i + 1..], next)
         else q[..i + 1] + Fetch(c, q[i + 1..], addr)
  {
    assert q[i..][1..] == q[i + 1..];
    assert q[i := q[i].(state := BeingLoaded)][i + 1..] == q[i + 1..];
  }

  lemma FetchEnd(c: Config, q: seq<Instr>, addr: nat)
    requires c.lineSize > 0
    ensures q[..|q|] + Fetch(c, q[|q|..], addr) == q
  {
  }

  lemma DeliveredStep(c: Config, q: seq<Instr>, i: nat, addr: nat, t: int)
    requires c.lineSize > 0 && i < |q|
    ensures var e := q[i].(state := Loaded, ready := t);
      q[..i] + Delivered(c, q[i..], addr, t)
      == if q[i].state == BeingLoaded && Line(c, addr) == Line(c, q[i].ip)
         then q[i := e][..i + 1] + Delivered(c, q[i := e][i + 1..], addr, t)
         else q[..i + 1] + Delivered(c, q[i + 1..], addr, t)
  {
    assert q[i..][1..] == q[i + 1..];
    assert q[i := q[i].(state := Loaded, ready := t)][i + 1..] == q[i + 1..];
  }

  lemma DeliveredEnd(c: Config, q: seq<Instr>, addr: nat, t: int)
    requires c.lineSize > 0
    ensures q[..|q|] + Delivered(c, q[|q|..], addr, t) == q
  {
  }

  lemma QueuedShape(q: seq<Instr>, pending: seq<Instr>, head: nat, max: nat)
    requires Queued(q, pending, head, max)
    ensures |q| == max > 0 && head < max && |pending| <= max
  {
  }

  lemma AroundOnce(head: nat, k: nat, max: nat)
    requires max > 0
    ensures Slot(max + head + k, max) == Place(head, k, max)
  {
    AddMod(head + k, max);
  }

  // ---------------------------------------------------------------- stages of a call

  lemma StagesDeps(c: Config, s: Core, t: int)
    requires ValidConfig(c) && Inv(c, s) && Callable(s, t)
    ensures var s3 := Execute(c, Staged(c, s, t), s.base, Units(0, 0, 0, 0, 0)); DepsOk(s3, Pending(s3))
  {
    CalledMid(c, s, t, Fetch(c, s.queue, 0));
    DispatchMid(c, Called(s, t).(queue := Fetch(c, s.queue, 0)), c.issueWidth);
    var s2 := Staged(c, s, t);
    ExecuteSound(c, s2, s2.base, Units(0, 0, 0, 0, 0), |s2.log|);
  }

  /** The entry whose slot is d among the dependencies. */
  function DepInSlot(x: Deps, d: int, max: nat): (r: int)
    requires max > 0 && Has(SlotDeps(x, max), d)
    ensures Has(x, r) && Slot(r, max) == d
  {
    if SlotOf(x.mem, max) == d then x.mem
    else if SlotOf(x.instr, max) == d then x.instr
    else if SlotOf(x.branch, max) == d then x.branch
    else if SlotOf(x.r0, max) == d then x.r0
    else if SlotOf(x.r1, max) == d then x.r1
    else if SlotOf(x.r2, max) == d then x.r2
    else x.r3
  }

  class O3Core {
    const c: Config
    const o3queue: array<Instr>
    var o3queueHead: nat
    var o3queueSize: nat
    const o3rob: array<Entry>
    var o3robHead: nat
    var o3robSize: nat
    var active: bool
    /** The migration flags and the calls of this core in the global event queue. */
    var isMigrateReady: set<nat>
    var scheduled: set<int>
    /** All entries ever dispatched, the number retired, and the queued instructions. */
    ghost var log: seq<Uop>
    ghost var base: nat
    ghost var pending: seq<Instr>
    ghost var now: int
    ghost var instrs: nat

    /** The representation is consistent. */
    ghost predicate Shape()
      reads this, o3queue, o3rob
    {
      && ValidConfig(c) && o3rob.Length == c.robSize && o3queue.Length == c.queueSize
      && Holds(o3rob[..], log, base, c.robSize) && o3robHead == Slot(base, c.robSize) && o3robSize == |log| - base
      && Queued(o3queue[..], pending, o3queueHead, c.queueSize) && o3queueSize == |pending|
    }

    ghost function State(): Core
      reads this
    {
      Core(log, base, pending, scheduled, isMigrateReady, active, now, instrs)
    }

    ghost predicate Valid()
      reads this, o3queue, o3rob
    {
      Shape() && Inv(c, State())
    }

    constructor (config: Config)
      requires ValidConfig(config)
      ensures Valid() && c == config && State() == Initial && fresh(o3queue) && fresh(o3rob)
    {
      c := config;
      o3queue := new Instr[config.queueSize](_ => Instr(Dispatched, 0, 0, 0, 0, 0, Plain, Regs(0, 0, 0, 0), Regs(0, 0, 0, 0), false));
      o3rob := new Entry[config.robSize](_ => Entry(RobInvalid, 0, 0, false, false, Plain, Regs(0, 0, 0, 0), NoDeps));
      o3queueHead, o3queueSize, o3robHead, o3robSize := 0, 0, 0, 0;
      active, isMigrateReady, scheduled := false, {}, {};
      log, base, pending, now, instrs := [], 0, [], 0, 0;
    }

    // -------------------------------------------------------------- dispatch

    /** The entry that has j newer ones. */
    method FromNewest(j: nat) returns (idx: nat, e: Entry)
      requires Shape() && j < o3robSize
      ensures var n := base + (o3robSize - 1 - j); idx == Slot(n, c.robSize) && e == Image(log[n], c.robSize)
    {
      hide Slot, Image, Holds, Queued, ValidConfig;
      SlotAt(o3robSize - 1 - j);
      idx := Place(o3robHead, o3robSize - 1 - j, c.robSize);
      e := o3rob[idx];
    }

    lemma SlotAt(i: nat)
      requires Shape() && i < o3robSize
      ensures var n := base + i;
        Place(o3robHead, i, c.robSize) == Slot(n, c.robSize) < o3rob.Length && o3rob[Slot(n, c.robSize)] == Image(log[n], c.robSize)
    {
      hide Slot, Image, Holds, Queued, ValidConfig;
      HoldsAt(o3rob[..], log, base, c.robSize, i);
      HoldsShape(o3rob[..], log, base, c.robSize);
    }

    method FindBranch(t: int) returns (dep: int)
      requires Shape() && t == now
      ensures dep == SlotOf(Newest(log, base, |log|, now, MissedBranch), c.robSize)
    {
      hide Slot, Place, Holds, Queued, Resolved, Newest;
      HoldsShape(o3rob[..], log, base, c.robSize);
      ResolvedStart(State(), MissedBranch, c.robSize);
      dep := -1;
      for j := 0 to o3robSize
        invariant dep == -1 && Resolved(State(), MissedBranch, |log| - j, dep, c.robSize)
      {
        var idx, e := FromNewest(j);
        ResolvedStep(State(), MissedBranch, |log| - j, dep, c.robSize);
        if e.state == RobCompleted && e.readyTime <= t { continue; }
        if e.branchMiss {
          ResolvedHit(State(), MissedBranch, |log| - j - 1, idx, c.robSize);
          return idx;
        }
      }
      ResolvedAll(State(), MissedBranch, dep, c.robSize);
    }

    /** Is r written by the entry? */
    predicate IsRegDep(r: nat, e: Entry) {
      r != 0 && (r == e.rw.r0 || r == e.rw.r1 || r == e.rw.r2 || r == e.rw.r3)
    }

    method FindWriters(src: Regs, t: int) returns (r0: int, r1: int, r2: int, r3: int)
      requires Shape() && t == now
      ensures r0 == SlotOf(Newest(log, base, |log|, now, WriterOf(src.r0)), c.robSize)
      ensures r1 == SlotOf(Newest(log, base, |log|, now, WriterOf(src.r1)), c.robSize)
      ensures r2 == SlotOf(Newest(log, base, |log|, now, WriterOf(src.r2)), c.robSize)
      ensures r3 == SlotOf(Newest(log, base, |log|, now, WriterOf(src.r3)), c.robSize)
    {
      hide Slot, Place, Holds, Queued, Resolved, Newest;
      HoldsShape(o3rob[..], log, base, c.robSize);
      ResolvedStart(State(), WriterOf(src.r0), c.robSize);
      ResolvedStart(State(), WriterOf(src.r1), c.robSize);
      ResolvedStart(State(), WriterOf(src.r2), c.robSize);
      ResolvedStart(State(), WriterOf(src.r3), c.robSize);
      r0, r1, r2, r3 := -1, -1, -1, -1;
      for j := 0 to o3robSize
        invariant Resolved(State(), WriterOf(src.r0), |log| - j, r0, c.robSize)
        invariant Resolved(State(), WriterOf(src.r1), |log| - j, r1, c.robSize)
        invariant Resolved(State(), WriterOf(src.r2), |log| - j, r2, c.robSize)
        invariant Resolved(State(), WriterOf(src.r3), |log| - j, r3, c.robSize)
      {
        var idx, e := FromNewest(j);
        ResolvedStep(State(), WriterOf(src.r0), |log| - j, r0, c.robSize);
        ResolvedStep(State(), WriterOf(src.r1), |log| - j, r1, c.robSize);
        ResolvedStep(State(), WriterOf(src.r2), |log| - j, r2, c.robSize);
        ResolvedStep(State(), WriterOf(src.r3), |log| - j, r3, c.robSize);
        if e.state == RobCompleted && e.readyTime <= t { continue; }
        if r0 == -1 && IsRegDep(src.r0, e) { r0 := idx; }
        if r1 == -1 && IsRegDep(src.r1, e) { r1 := idx; }
        if r2 == -1 && IsRegDep(src.r2, e) { r2 := idx; }
        if r3 == -1 && IsRegDep(src.r3, e) { r3 := idx; }
      }
      ResolvedAll(State(), WriterOf(src.r0), r0, c.robSize);
      ResolvedAll(State(), WriterOf(src.r1), r1, c.robSize);
      ResolvedAll(State(), WriterOf(src.r2), r2, c.robSize);
      ResolvedAll(State(), WriterOf(src.r3), r3, c.robSize);
    }

    method FindAccess(memaddr: nat, t: int) returns (dep: int)
      requires Shape() && t == now
      ensures dep == SlotOf(Newest(log, base, |log|, now, AccessTo(Word(memaddr))), c.robSize)
    {
      hide Slot, Place, Holds, Queued, Resolved, Newest, Word;
      HoldsShape(o3rob[..], log, base, c.robSize);
      ghost var q := AccessTo(Word(memaddr));
      ResolvedStart(State(), q, c.robSize);
      dep := -1;
      for j := 0 to o3robSize
        invariant dep == -1 && Resolved(State(), q, |log| - j, dep, c.robSize)
      {
        var idx, e := FromNewest(j);
        ResolvedStep(State(), q, |log| - j, dep, c.robSize);
        if (e.state != RobCompleted || t < e.readyTime) && Word(e.memaddr) == Word(memaddr) {
          ResolvedHit(State(), q, |log| - j - 1, idx, c.robSize);
          return idx;
        }
      }
      ResolvedAll(State(), q, dep, c.robSize);
    }

    /** Write the slot past the newest entry; nothing depends on it. */
    method Scratch(robIdx: nat, e: Entry)
      requires Shape() && robIdx == Slot(|log|, c.robSize)
      modifies o3rob
      ensures Shape() && o3rob[robIdx] == e
    {
      hide Slot, Place, Holds, Queued;
      HoldsShape(o3rob[..], log, base, c.robSize);
      HoldsScratch(o3rob[..], log, base, c.robSize, e);
      ghost var old_rob := o3rob[..];
      o3rob[robIdx] := e;
      assert o3rob[..] == old_rob[robIdx := e];
    }

    method WriteEntry(robIdx: nat, e: Entry, ghost u: Uop)
      requires Shape() && robIdx == Slot(|log|, c.robSize) && o3robSize + 1 < c.robSize && e == Image(u, c.robSize)
      modifies o3rob, this`log, this`o3robSize
      ensures Shape() && State() == Append(old(State()), u)
    {
      hide Slot, Place, Holds, Queued, Image;
      HoldsShape(o3rob[..], log, base, c.robSize);
      HoldsAppend(o3rob[..], log, base, c.robSize, u);
      ghost var old_rob := o3rob[..];
      o3rob[robIdx] := e;
      assert o3rob[..] == old_rob[robIdx := e];
      log, o3robSize := log + [u], o3robSize + 1;
    }

    /** Dispatch the entries of one instruction, one memory operand after the other. */
    method FillRob(i: Instr, shared: Deps, t: int, ghost deps: Deps)
      requires Shape() && t == now && o3robSize < c.robSize - 3
      requires deps.mem == deps.instr == -1 && shared == SlotDeps(deps, c.robSize)
      modifies o3rob, this`log, this`o3robSize
      ensures Shape() && State() == Fill(c, old(State()), i, deps, -1, Accesses(i))
    {
      hide Slot, Place, Holds, Queued, Fill, Image, Remaining, Accesses;
      ghost var s0 := State();
      ghost var previous: int := -1;
      RemainingAll(i);
      NextSlot();
      var robIdx := Place(o3robHead, o3robSize, c.robSize);
      var instrDep: int := -1;
      for k := 0 to 4
        invariant Shape() && robIdx == Slot(|log|, c.robSize) && instrDep == SlotOf(previous, c.robSize)
        invariant State().(log := s0.log) == s0 && |s0.log| - base < c.robSize - 3
        invariant Fill(c, State(), i, deps, previous, Remaining(i, k)) == Fill(c, s0, i, deps, -1, Accesses(i))
      {
        FillRoom(c, s0, State(), i, deps, previous, k);
        RemainingStep(i, k);
        Scratch(robIdx, o3rob[robIdx].(state := RobIssued, readyTime := t + c.interval));
        var memaddr := Operand(i, k);
        if k < 3 && memaddr == 0 { continue; }
        if k == 3 && !NoMemory(i) { break; }
        var memDep: int := -1;
        if k < 3 { memDep := FindAccess(memaddr, t); }
        ghost var u := NewUop(c, State(), i, deps, previous, Access(memaddr, k < 2));
        var e := Entry(RobIssued, t + c.interval, memaddr, k < 2, i.missed, i.kind, i.dst,
                       shared.(mem := memDep, instr := instrDep));
        ImageNew(c, State(), i, deps, previous, Access(memaddr, k < 2));
        FillStep(c, State(), i, deps, previous, Access(memaddr, k < 2), Remaining(i, k + 1));
        previous := |log|;
        WriteEntry(robIdx, e, u);
        instrDep := robIdx;
        NextSlotIndex();
        robIdx := Slot(robIdx + 1, c.robSize);
      }
      FillNothing(c, State(), i, deps, previous);
    }

    lemma NextSlot()
      requires Shape()
      ensures Place(o3robHead, o3robSize, c.robSize) == Slot(|log|, c.robSize)
    {
      hide Slot, Queued, Holds;
      HoldsShape(o3rob[..], log, base, c.robSize);
      SlotOffset(base, o3robSize, c.robSize);
    }

    lemma NextSlotIndex()
      requires Shape() && |log| > 0
      ensures Slot(Slot(|log| - 1, c.robSize) + 1, c.robSize) == Slot(|log|, c.robSize)
    {
      hide Slot, Queued, Holds;
      SlotOffset(|log| - 1, 1, c.robSize);
    }

    /** Send the instruction at the head of the queue to the reorder buffer. */
    method DispatchHead(t: int)
      requires Shape() && t == now && CanDispatch(c, State())
      modifies this, o3rob, o3queue
      ensures Shape() && State() == DispatchOne(c, old(State()))
    {
      hide Slot, Place, Holds, Queued, Fill, Newest, Accesses;
      HoldsShape(o3rob[..], log, base, c.robSize);
      ghost var s := State();
      ghost var deps := InstrDeps(s, s.queue[0]);
      HeadIs();
      var i := o3queue[o3queueHead];
      var branchDep := FindBranch(t);
      var r0, r1, r2, r3 := FindWriters(i.src, t);
      scheduled := scheduled + {t + c.interval};
      FillRob(i, Deps(-1, -1, branchDep, r0, r1, r2, r3), t, deps);
      instrs := instrs + 1;
      PopQueue();
    }

    lemma HeadIs()
      requires Shape() && o3queueSize > 0
      ensures o3queueHead < o3queue.Length && o3queue[o3queueHead] == pending[0]
    {
      QueuedPop(o3queue[..], pending, o3queueHead, c.queueSize);
      hide Holds;
    }

    method PopQueue()
      requires Shape() && o3queueSize > 0
      modifies o3queue, this`o3queueHead, this`o3queueSize, this`pending
      ensures Shape() && pending == old(pending)[1..]
    {
      hide Slot, Place, Holds, Queued;
      HeadIs();
      o3queueSize := o3queueSize - 1;
      ghost var i := o3queue[o3queueHead].(state := Dispatched);
      PopQueued(o3queue[..], pending, o3queueHead, c.queueSize, i);
      ghost var old_queue := o3queue[..];
      o3queue[o3queueHead] := o3queue[o3queueHead].(state := Dispatched);
      assert o3queue[..] == old_queue[o3queueHead := i];
      o3queueHead := Slot(o3queueHead + 1, c.queueSize);
      pending := pending[1..];
    }

    // -------------------------------------------------------------- execute

    /** Replace entry n, which is in slot robIdx. */
    method SetSlot(robIdx: nat, e: Entry, ghost n: nat, ghost u: Uop)
      requires Shape() && base <= n < |log| && robIdx == Slot(n, c.robSize) && e == Image(u, c.robSize)
      modifies o3rob, this`log
      ensures Shape() && log == old(log)[n := u]
    {
      hide Slot, Holds, Queued, Image;
      HoldsShape(o3rob[..], log, base, c.robSize);
      HoldsUpdate(o3rob[..], log, base, c.robSize, n, u);
      ghost var was := o3rob[..];
      o3rob[robIdx] := e;
      assert o3rob[..] == was[robIdx := e];
      log := log[n := u];
    }

    /** Replace the entry that has i older ones. */
    method SetEntry(i: nat, e: Entry, ghost u: Uop)
      requires Shape() && i < o3robSize && e == Image(u, c.robSize)
      modifies o3rob, this`log
      ensures Shape() && log == old(log)[base + i := u]
    {
      hide Slot, Place, Holds, Queued, Image;
      SlotAt(i);
      HoldsShape(o3rob[..], log, base, c.robSize);
      SetSlot(Place(o3robHead, i, c.robSize), e, base + i, u);
    }

    /** Start the entry if it can be started. */
    method ExecuteEntry(i: nat, t: int, k: Units) returns (k': Units, stop: bool)
      requires Shape() && i < o3robSize && t == now
      modifies o3rob, this`log, this`scheduled, this`isMigrateReady
      ensures Shape()
      ensures var a := TryExecute(c, old(log)[base + i], i == 0, old(isMigrateReady), k, t);
        State() == Put(old(State()), base + i, a) && k' == a.units && stop == a.stop
    {
      hide Slot, Place, Holds, Queued;
      SlotAt(i);
      HoldsShape(o3rob[..], log, base, c.robSize);
      ghost var u := log[base + i];
      var e := o3rob[Place(o3robHead, i, c.robSize)];
      SlotDepsNone(u.deps, c.robSize);
      k', stop := k, false;
      if e.state == RobIssued && e.readyTime <= t {
        if e.kind == Notify {
          if i == 0 {
            FinishEntry(i, t, t + c.barrierT, e, u);
            isMigrateReady := isMigrateReady + {e.rw.r0};
          } else {
            stop := true;
          }
        } else if e.kind == WaitFor {
          if i == 0 && e.rw.r0 in isMigrateReady {
            FinishEntry(i, t, t + c.interval, e, u);
            isMigrateReady := isMigrateReady - {e.rw.r0};
          } else {
            stop := true;
          }
        } else if e.deps == NoDeps {
          k' := StartEntry(i, t, k, e, u);
        } else if c.inOrder {
          stop := true;
        }
      } else if c.inOrder {
        stop := true;
      }
      if stop { scheduled := scheduled + {t + c.interval}; }
    }

    /** Start an entry that waits for nothing if a unit is free. */
    method StartEntry(i: nat, t: int, k: Units, e: Entry, ghost u: Uop) returns (k': Units)
      requires Shape() && i < o3robSize && t == now && u == log[base + i] && e == Image(u, c.robSize)
      requires u.stage == Issued && u.ready <= t && u.kind != Notify && u.kind != WaitFor && u.deps == NoDeps
      modifies o3rob, this`log, this`scheduled
      ensures Shape()
      ensures var a := TryExecute(c, u, i == 0, isMigrateReady, k, t);
        State() == Put(old(State()), base + i, a) && k' == a.units && !a.stop
    {
      hide Slot, Place, Holds, Queued;
      HoldsShape(o3rob[..], log, base, c.robSize);
      k' := k;
      if e.memaddr == 0 && k.alu < c.maxAlu && (e.kind != X87 || k.sse < c.maxSse) {
        FinishEntry(i, t, t + LatencyOf(e), e, u);
        k' := k.(alu := k.alu + 1, sse := k.sse + if e.kind == X87 then 1 else 0);
      } else if e.memaddr != 0 && k.ldst < c.maxLdst && ((e.isRead && k.ld < c.maxLd) || (!e.isRead && k.st < c.maxSt)) {
        SetEntry(i, e.(state := RobExecuting), u.(stage := Executing, start := t));
        k' := k.(ldst := k.ldst + 1, ld := k.ld + if e.isRead then 1 else 0, st := k.st + if e.isRead then 0 else 1);
      }
    }

    function LatencyOf(e: Entry): int {
      if e.kind == Lock then c.lockT
      else if e.kind == Unlock then c.unlockT
      else if e.kind == Barrier then c.barrierT
      else if e.kind == X87 then c.sseT
      else if e.branchMiss then c.missPenalty + c.interval
      else c.interval
    }

    method FinishEntry(i: nat, t: int, ready: int, e: Entry, ghost u: Uop)
      requires Shape() && i < o3robSize && e == Image(u, c.robSize)
      modifies o3rob, this`log, this`scheduled
      ensures Shape() && log == old(log)[base + i := Finish(u, t, ready)] && scheduled == old(scheduled) + {ready}
    {
      SetEntry(i, e.(state := RobCompleted, readyTime := ready), Finish(u, t, ready));
      scheduled := scheduled + {ready};
    }

    /** Start what can be started, oldest first. */
    method ExecuteReady(t: int)
      requires Shape() && t == now
      modifies o3rob, this`log, this`scheduled, this`isMigrateReady
      ensures Shape() && State() == Execute(c, old(State()), base, Units(0, 0, 0, 0, 0))
    {
      hide Slot, Place, Holds, Queued, TryExecute;
      HoldsShape(o3rob[..], log, base, c.robSize);
      ghost var s := State();
      var k := Units(0, 0, 0, 0, 0);
      for i := 0 to o3robSize
        invariant Shape() && |log| == |s.log|
        invariant Execute(c, s, base, Units(0, 0, 0, 0, 0)) == Execute(c, State(), base + i, k)
        invariant State() == s.(log := log, events := scheduled, flags := isMigrateReady)
      {
        var k', stop := ExecuteEntry(i, t, k);
        if stop { return; }
        k := k';
      }
    }

    // -------------------------------------------------------------- wake up

    /** Tell all younger entries that the entry at position i has finished. */
    method Announce(i: nat)
      requires Shape() && i < o3robSize && InWindow(log, base)
      modifies o3rob, this`log
      ensures Shape() && log == Announced(old(log), base + i, |log|)
    {
      hide Slot, Place, Holds, Queued, Announced, InWindow;
      HoldsShape(o3rob[..], log, base, c.robSize);
      ghost var was := log;
      AnnouncedNone(log, base + i);
      SlotAt(i);
      var robIdx := Place(o3robHead, i, c.robSize);
      for j := i + 1 to o3robSize
        invariant Shape() && log == Announced(was, base + i, base + j) && |log| == |was|
      {
        AnnouncedNext(was, base + i, base + j);
        ClearEntry(j, robIdx, base + i, was);
      }
    }

    /** Clear the dependency of entry j on slot robIdx. */
    method ClearEntry(j: nat, robIdx: nat, ghost x: nat, ghost was: seq<Uop>)
      requires Shape() && j < o3robSize && base <= x < base + j && robIdx == Slot(x, c.robSize)
      requires InWindow(was, base) && |was| == |log| && log[base + j] == was[base + j]
      modifies o3rob, this`log
      ensures Shape()
      ensures var u := was[base + j];
        log == if u.stage == Issued then old(log)[base + j := u.(deps := ClearDeps(u.deps, x))] else old(log)
    {
      hide Slot, Place, Holds, Queued, ClearDeps, SlotDeps;
      HoldsShape(o3rob[..], log, base, c.robSize);
      SlotAt(j);
      var e := o3rob[Place(o3robHead, j, c.robSize)];
      ghost var u := log[base + j];
      if e.state == RobIssued {
        ClearSlots(u.deps, x, base, base + j, c.robSize);
        SetEntry(j, e.(deps := ClearDeps(e.deps, robIdx)), u.(deps := ClearDeps(u.deps, x)));
      }
    }

    /** Announce every entry that finishes now. */
    method WakeUp(t: int)
      requires Shape() && t == now && DepsOk(State(), Pending(State()))
      modifies o3rob, this`log, this`scheduled
      ensures Shape() && State() == Wake(c, old(State()))
    {
      hide Slot, Place, Holds, Queued, Woken, Announced, DepsOk, WokenState, InWindow;
      HoldsShape(o3rob[..], log, base, c.robSize);
      ghost var s := State();
      WokenNone(c, s);
      for i := 0 to o3robSize
        invariant Shape() && |log| == |s.log|
        invariant State() == WokenState(c, s, base + i)
      {
        SlotAt(i);
        var e := o3rob[Place(o3robHead, i, c.robSize)];
        WokenLog(c, s, base + i);
        WokenNext(c, s, base + i);
        if e.state == RobCompleted && e.readyTime == t {
          scheduled := scheduled + {t + c.interval};
          Announce(i);
        }
      }
      WokenAll(c, s);
    }

    // -------------------------------------------------------------- commit

    method CommitHeads(t: int)
      requires Shape() && t == now
      modifies o3rob, this`base, this`o3robHead, this`o3robSize, this`scheduled
      ensures Shape() && State() == Commit(c, old(State()))
    {
      hide Slot, Place, Holds, Queued, Retire;
      RetireHeads(t);
      var more := HeadIsDone(t);
      if more {
        scheduled := scheduled + {t + c.interval};
      }
    }

    method HeadIsDone(t: int) returns (done: bool)
      requires Shape() && t == now
      ensures done == HeadDone(State())
    {
      hide Slot, Place, Holds, Queued;
      HoldsShape(o3rob[..], log, base, c.robSize);
      if o3robSize == 0 { return false; }
      SlotAt(0);
      HeadSlot();
      done := o3rob[o3robHead].state == RobCompleted && o3rob[o3robHead].readyTime <= t;
    }

    method RetireHeads(t: int)
      requires Shape() && t == now
      modifies o3rob, this`base, this`o3robHead, this`o3robSize
      ensures Shape() && State() == Retire(old(State()), c.commitWidth)
    {
      hide Slot, Place, Holds, Queued;
      HoldsShape(o3rob[..], log, base, c.robSize);
      ghost var s := State();
      for i := 0 to c.commitWidth
        invariant Shape() && Retire(s, c.commitWidth) == Retire(State(), c.commitWidth - i)
        invariant State() == s.(base := base) && base <= |log|
      {
        var done := HeadIsDone(t);
        if done {
          HoldsShape(o3rob[..], log, base, c.robSize);
          RetireHead(o3rob[o3robHead]);
        }
      }
    }

    lemma HeadSlot()
      requires Shape()
      ensures Place(o3robHead, 0, c.robSize) == o3robHead
    {
      hide Queued, Holds;
      DivModUnique(o3robHead, c.robSize, 0, o3robHead);
    }

    method RetireHead(e: Entry)
      requires Shape() && o3robSize > 0
      modifies o3rob, this`base, this`o3robHead, this`o3robSize
      ensures Shape() && base == old(base) + 1
    {
      hide Slot, Queued, Holds;
      HoldsShape(o3rob[..], log, base, c.robSize);
      HoldsRetire(o3rob[..], log, base, c.robSize, e.(state := RobInvalid));
      ghost var was := o3rob[..];
      o3rob[o3robHead] := e.(state := RobInvalid);
      assert o3rob[..] == was[o3robHead := e.(state := RobInvalid)];
      o3robSize := o3robSize - 1;
      SlotOffset(base, 1, c.robSize);
      o3robHead := Place(o3robHead, 1, c.robSize);
      base := base + 1;
    }

    // -------------------------------------------------------------- the instruction queue

    /** Replace the i-th instruction of the queue. */
    method SetQueue(i: nat, x: Instr)
      requires Shape() && i < o3queueSize
      modifies o3queue, this`pending
      ensures Shape() && pending == old(pending)[i := x]
    {
      hide Slot, Place, Holds, Queued;
      QueuedUpdate(o3queue[..], pending, o3queueHead, c.queueSize, i, x);
      QueueSlot(i);
      ghost var was := o3queue[..];
      var idx := Place(o3queueHead, i, c.queueSize);
      o3queue[idx] := x;
      assert o3queue[..] == was[idx := x];
      pending := pending[i := x];
    }

    lemma QueueSlot(i: nat)
      requires Shape() && i < o3queueSize
      ensures var idx := Place(o3queueHead, i, c.queueSize); idx < o3queue.Length && o3queue[idx] == pending[i]
    {
      hide Place, Holds;
    }

    /** Ask the instruction cache for one line. */
    method FetchLines()
      requires Shape()
      modifies o3queue, this`pending
      ensures Shape() && pending == Fetch(c, old(pending), 0)
    {
      hide Slot, Place, Holds, Queued, Fetch;
      ghost var q := pending;
      var addrToRead: nat := 0;
      for i := 0 to o3queueSize
        invariant Shape()
        invariant |pending| == |q| && Fetch(c, q, 0) == pending[..i] + Fetch(c, pending[i..], addrToRead)
      {
        QueueSlot(i);
        var e := o3queue[Place(o3queueHead, i, c.queueSize)];
        FetchStep(c, pending, i, addrToRead);
        if e.state != NotInQueue { continue; }
        if addrToRead == 0 {
          addrToRead := LineStart(c, e.ip);
          SetQueue(i, e.(state := BeingLoaded));
        } else if Line(c, addrToRead) == Line(c, e.ip) {
          SetQueue(i, e.(state := BeingLoaded));
        }
      }
      FetchEnd(c, pending, addrToRead);
    }

    /** The instructions of the line become ready at time t. */
    method DeliverLine(address: nat, t: int)
      requires Shape()
      modifies o3queue, this`pending
      ensures Shape() && pending == Delivered(c, old(pending), address, t)
    {
      hide Slot, Place, Holds, Queued, Delivered;
      ghost var q := pending;
      for i := 0 to o3queueSize
        invariant Shape() && |pending| == |q|
        invariant Delivered(c, q, address, t) == pending[..i] + Delivered(c, pending[i..], address, t)
      {
        QueueSlot(i);
        var e := o3queue[Place(o3queueHead, i, c.queueSize)];
        DeliveredStep(c, pending, i, address, t);
        if e.state == BeingLoaded && Line(c, address) == Line(c, e.ip) {
          SetQueue(i, e.(state := Loaded, ready := t));
        }
      }
      assert pending[o3queueSize..] == [];
      DeliveredEnd(c, pending, address, t);
    }

    /** A line has come back from the instruction cache. */
    method AddReqEvent(eventTime: int, address: nat)
      requires Valid() && now <= eventTime
      modifies o3queue, this`pending, this`scheduled
      ensures Valid() && State() == Next(c, old(State()), LineReply(address, eventTime))
    {
      NextInv(c, State(), LineReply(address, eventTime));
      hide Slot, Place, Holds, Queued, Delivered, Inv;
      var t := CeilBy(eventTime, c.interval);
      scheduled := scheduled + {t};
      DeliverLine(address, t);
    }

    /** Queue an instruction, unless the queue is full. */
    method AddInstruction(i: Instr, t: int, resumed: bool) returns (queued: bool)
      requires Valid() && now <= t && i.state == NotInQueue
      modifies o3queue, this`pending, this`o3queueSize, this`scheduled
      ensures Valid() && State() == Next(c, old(State()), Enqueue(i, t, resumed))
      ensures queued == (old(o3queueSize) < c.queueSize)
    {
      ghost var s := State();
      NextInv(c, s, Enqueue(i, t, resumed));
      hide Slot, Place, Holds, Queued, Inv;
      if o3queueSize == 0 && resumed {
        scheduled := scheduled + {t};
      }
      queued := o3queueSize < c.queueSize;
      if queued {
        PushQueue(i);
      }
      assert State() == Next(c, s, Enqueue(i, t, resumed));
    }

    method PushQueue(i: Instr)
      requires Shape() && o3queueSize < c.queueSize
      modifies o3queue, this`pending, this`o3queueSize
      ensures Shape() && pending == old(pending) + [i]
    {
      hide Slot, Place, Holds, Queued;
      QueuedShape(o3queue[..], pending, o3queueHead, c.queueSize);
      QueuedAppend(o3queue[..], pending, o3queueHead, c.queueSize, i);
      AroundOnce(o3queueHead, o3queueSize, c.queueSize);
      ghost var was := o3queue[..];
      var idx := Slot(c.queueSize + o3queueHead + o3queueSize, c.queueSize);
      o3queue[idx] := i;
      assert o3queue[..] == was[idx := i];
      o3queueSize, pending := o3queueSize + 1, pending + [i];
    }

    // -------------------------------------------------------------- calls and answers

    /** One call of the core. */
    method ProcessEvent(t: int)
      requires Valid() && Callable(State(), t)
      modifies this, o3rob, o3queue
      ensures Valid() && State() == Next(c, old(State()), Call(t))
    {
      ghost var s := State();
      hide Slot, Place, Holds, Queued, Inv, Fetch, Dispatch, Execute, Wake, Commit;
      scheduled, now := scheduled - {t}, t;
      if o3queueSize <= c.queueSize / 2 && active {
        scheduled := scheduled + {t};
      } else {
        RunStages(t, s);
      }
      NextInv(c, s, Call(t));
    }

    method RunStages(t: int, ghost s: Core)
      requires Shape() && Inv(c, s) && Callable(s, t) && State() == Called(s, t)
      modifies this, o3rob, o3queue
      ensures Shape() && State() == Commit(c, Wake(c, Execute(c, Staged(c, s, t), s.base, Units(0, 0, 0, 0, 0))))
    {
      hide Slot, Place, Holds, Queued, Inv, Fetch, Dispatch, Execute, Wake, Commit;
      FetchLines();
      DispatchHeads(t);
      ExecuteReady(t);
      StagesDeps(c, s, t);
      WakeUp(t);
      CommitHeads(t);
    }

    method DispatchHeads(t: int)
      requires Shape() && t == now
      modifies this, o3rob, o3queue
      ensures Shape() && State() == Dispatch(c, old(State()), c.issueWidth)
    {
      hide Slot, Place, Holds, Queued, DispatchOne;
      HoldsShape(o3rob[..], log, base, c.robSize);
      ghost var s := State();
      for i := 0 to c.issueWidth
        invariant Shape() && t == now && Dispatch(c, s, c.issueWidth) == Dispatch(c, State(), c.issueWidth - i)
      {
        if o3queueSize > 0 && o3robSize < c.robSize - 3 {
          HeadIs();
          var e := o3queue[o3queueHead];
          if e.state == Loaded && e.ready <= t {
            DispatchHead(t);
          }
        }
      }
    }

    /** The memory has answered the access made from a slot. */
    method AddRepEvent(eventTime: int, robEntry: nat) returns (ghost n: nat)
      requires Valid() && now <= eventTime
      requires exists i :: 0 <= i < o3robSize && robEntry == Place(o3robHead, i, c.robSize)
      requires robEntry < o3rob.Length && o3rob[robEntry].state == RobExecuting
      modifies o3rob, this`log, this`scheduled
      ensures Valid() && base <= n < |log| == |old(log)| && robEntry == Slot(n, c.robSize)
      ensures Enabled(c, old(State()), Reply(n, eventTime)) && State() == Answer(c, old(State()), n, eventTime)
    {
      hide Slot, Place, Holds, Queued, Inv, Answer;
      ghost var i :| 0 <= i < o3robSize && robEntry == Place(o3robHead, i, c.robSize);
      SlotAt(i);
      n := base + i;
      NextInv(c, State(), Reply(n, eventTime));
      AnswerSlot(eventTime, robEntry, n);
    }

    method AnswerSlot(eventTime: int, robEntry: nat, ghost n: nat)
      requires Shape() && base <= n < |log| && robEntry == Slot(n, c.robSize)
      modifies o3rob, this`log, this`scheduled
      ensures Shape() && |log| == |old(log)| && State() == Answer(c, old(State()), n, eventTime)
    {
      hide Slot, Place, Holds, Queued;
      SlotAt(n - base);
      HoldsShape(o3rob[..], log, base, c.robSize);
      var e := o3rob[robEntry];
      var aligned := CeilBy(eventTime, c.interval);
      var ready := aligned + if e.branchMiss then c.missPenalty else 0;
      scheduled := scheduled + {aligned};
      SetSlot(robEntry, e.(state := RobCompleted, readyTime := ready), n, log[n].(stage := Completed, ready := ready));
      scheduled := scheduled + {ready};
    }

    /** The position of an older entry whose finish, if it has finished, is still to be announced. */
    ghost predicate Awaited(j: int, i: nat, d: int)
      requires Shape()
      reads this, o3rob, o3queue
    {
      && 0 <= j < i && j < o3robSize && d == Place(o3robHead, j, c.robSize)
      && (o3rob[d].state == RobCompleted ==> now <= o3rob[d].readyTime && o3rob[d].readyTime in scheduled)
    }

    /** In the buffer itself: the slots that an entry waits on hold strictly older live entries, which
        are unfinished or whose finish is still to be announced, although slots are used again. */
    lemma SlotsNeverStale(i: nat, d: int)
      requires Valid() && i < o3robSize && Has(o3rob[Place(o3robHead, i, c.robSize)].deps, d)
      ensures o3rob[Place(o3robHead, i, c.robSize)].state == RobIssued
      ensures exists j :: Awaited(j, i, d)
    {
      hide Slot, Place, Holds, Queued;
      SlotAt(i);
      HoldsShape(o3rob[..], log, base, c.robSize);
      var x := DepInSlot(log[base + i].deps, d, c.robSize);
      assert DepOk(State(), scheduled, base + i, x);
      SlotAt(x - base);
      assert Awaited(x - base, i, d);
    }
  }
}
