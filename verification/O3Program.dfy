/** What is dispatched: the log holds the instructions that were queued, in order, each with one entry per
    memory operand. */
module O3Program {
  import opened Arithmetic
  import opened O3
  import opened O3Safety
  import opened O3Runs

  // ---------------------------------------------------------------- what the log has to hold

  /** The entries of instruction k. */
  function Entries(log: seq<Uop>, k: nat): seq<Uop> {
    if log == [] then []
    else Entries(log[..|log| - 1], k) + if log[|log| - 1].instr == k then [log[|log| - 1]] else []
  }

  function One(addr: nat): nat {
    if addr != 0 then 1 else 0
  }

  predicate EntryOf(u: Uop, i: Instr, addr: nat, isRead: bool) {
    u.addr == addr && u.isRead == isRead && u.src == i.src && u.dst == i.dst && u.kind == i.kind && u.missed == i.missed
  }

  /** One entry per operand that there is, first the reads, then the write; otherwise one without memory. */
  predicate Fits(es: seq<Uop>, i: Instr) {
    var r, r2, w := One(i.raddr), One(i.raddr2), One(i.waddr);
    if r + r2 + w == 0 then |es| == 1 && EntryOf(es[0], i, 0, false)
    else
      && |es| == r + r2 + w
      && (i.raddr != 0 ==> EntryOf(es[0], i, i.raddr, true))
      && (i.raddr2 != 0 ==> EntryOf(es[r], i, i.raddr2, true))
      && (i.waddr != 0 ==> EntryOf(es[r + r2], i, i.waddr, false))
  }

  /** The log holds exactly the instructions of the program, in its order. */
  ghost predicate Holds(log: seq<Uop>, program: seq<Instr>) {
    && (forall n :: 0 <= n < |log| ==> log[n].instr < |program|)
    && (forall b, n :: 0 <= b < n < |log| ==> log[b].instr <= log[n].instr)
    && (forall k :: 0 <= k < |program| ==> Fits(Entries(log, k), program[k]))
  }

  /** The same instruction at another stage of its way through the queue. */
  predicate SameInstr(i: Instr, j: Instr) {
    i.(state := j.state, ready := j.ready) == j
  }

  predicate SameInstrs(p: seq<Instr>, q: seq<Instr>) {
    |p| == |q| && forall k :: 0 <= k < |p| ==> SameInstr(p[k], q[k])
  }

  // ---------------------------------------------------------------- histories of a run

  /** The instructions that an action takes into the queue. */
  function Accepted(c: Config, s: Core, a: Action): seq<Instr> {
    if a.Enqueue? && |s.queue| < c.queueSize then [a.i] else []
  }

  /** The instructions that an action takes from the front of the queue. */
  ghost function Taken(c: Config, s: Core, a: Action): seq<Instr>
    requires ValidConfig(c) && s.base <= |s.log| && Enabled(c, s, a)
  {
    var left := |Next(c, s, a).queue|;
    if a.Call? && left <= |s.queue| then s.queue[..|s.queue| - left] else []
  }

  /** The program is what the log holds; with the queue it is everything that was accepted. */
  ghost predicate Consistent(s: Core, program: seq<Instr>, accepted: seq<Instr>) {
    Holds(s.log, program) && |program| == s.instrs && SameInstrs(program + s.queue, accepted)
  }

  // ---------------------------------------------------------------- entries

  lemma EntriesAppend(log: seq<Uop>, u: Uop, k: nat)
    ensures Entries(log + [u], k) == Entries(log, k) + if u.instr == k then [u] else []
  {
    assert (log + [u])[..|log|] == log;
  }

  lemma {:induction false} NoEntries(log: seq<Uop>, k: nat)
    requires forall n :: 0 <= n < |log| ==> log[n].instr != k
    ensures Entries(log, k) == []
  {
    if log != [] { NoEntries(log[..|log| - 1], k); }
  }

  lemma {:induction false} EntriesStatic(a: seq<Uop>, b: seq<Uop>, k: nat)
    requires SameProgram(a, b)
    ensures SameProgram(Entries(a, k), Entries(b, k))
  {
    if a != [] {
      var n := |a| - 1;
      assert SameStatic(a[n], b[n]);
      EntriesStatic(a[..n], b[..n], k);
    }
  }

  lemma FitsStatic(a: seq<Uop>, b: seq<Uop>, i: Instr)
    requires SameProgram(a, b) && Fits(a, i)
    ensures Fits(b, i)
  {
    assert forall n :: 0 <= n < |a| ==> SameStatic(a[n], b[n]);
  }

  /** Later stages of the pipeline do not change what the log holds. */
  lemma HoldsStatic(a: seq<Uop>, b: seq<Uop>, program: seq<Instr>)
    requires SameProgram(a, b) && Holds(a, program)
    ensures Holds(b, program)
  {
    forall k | 0 <= k < |program| ensures Fits(Entries(b, k), program[k]) {
      EntriesStatic(a, b, k);
      FitsStatic(Entries(a, k), Entries(b, k), program[k]);
    }
    hide Fits;
    assert forall n :: 0 <= n < |a| ==> SameStatic(a[n], b[n]);
  }

  // ---------------------------------------------------------------- dispatch

  predicate MadeOf(us: seq<Uop>, i: Instr, todo: seq<Access>, k: nat) {
    |us| == |todo| && forall j :: 0 <= j < |us| ==> EntryOf(us[j], i, todo[j].addr, todo[j].isRead) && us[j].instr == k
  }

  /** Filling the buffer appends one entry per access. */
  lemma {:induction false} FillAppends(c: Config, s: Core, i: Instr, shared: Deps, previous: int, todo: seq<Access>)
    requires s.base <= |s.log|
    ensures var s' := Fill(c, s, i, shared, previous, todo);
      s.log <= s'.log && MadeOf(s'.log[|s.log|..], i, todo, s.instrs)
    decreases |todo|
  {
    if todo != [] {
      var u := NewUop(c, s, i, shared, previous, todo[0]);
      var s1 := Append(s, u);
      FillAppends(c, s1, i, shared, |s.log|, todo[1..]);
      var s' := Fill(c, s1, i, shared, |s.log|, todo[1..]);
      var us, rest := s'.log[|s.log|..], s'.log[|s1.log|..];
      assert us == [u] + rest;
      forall j | 0 <= j < |us| ensures EntryOf(us[j], i, todo[j].addr, todo[j].isRead) && us[j].instr == s.instrs {
        if j > 0 { assert us[j] == rest[j - 1] && todo[j] == todo[1..][j - 1]; }
      }
    }
  }

  lemma AccessesFit(us: seq<Uop>, i: Instr, k: nat)
    requires MadeOf(us, i, Accesses(i), k)
    ensures Fits(us, i)
  {
  }

  lemma {:induction false} EntriesMade(log: seq<Uop>, us: seq<Uop>, k: nat, j: nat)
    requires forall n :: 0 <= n < |us| ==> us[n].instr == k
    ensures Entries(log + us, j) == Entries(log, j) + if j == k then us else []
    decreases |us|
  {
    if us == [] {
      assert log + us == log;
    } else {
      var n := |us| - 1;
      EntriesMade(log, us[..n], k, j);
      assert (log + us) == (log + us[..n]) + [us[n]];
      EntriesAppend(log + us[..n], us[n], j);
      assert us == us[..n] + [us[n]];
    }
  }

  lemma HoldsMore(log: seq<Uop>, us: seq<Uop>, program: seq<Instr>, i: Instr)
    requires Holds(log, program) && MadeOf(us, i, Accesses(i), |program|)
    ensures Holds(log + us, program + [i])
  {
    var k := |program|;
    AccessesFit(us, i, k);
    NoEntries(log, k);
    hide Fits, Accesses, EntryOf;
    forall j | 0 <= j <= k ensures Fits(Entries(log + us, j), (program + [i])[j]) {
      EntriesMade(log, us, k, j);
      assert [] + us == us;
    }
  }

  lemma DispatchOneHolds(c: Config, s: Core, program: seq<Instr>)
    requires s.base <= |s.log| && CanDispatch(c, s) && Holds(s.log, program) && |program| == s.instrs
    ensures var s' := DispatchOne(c, s);
      Holds(s'.log, program + [s.queue[0]]) && s'.instrs == s.instrs + 1 && s'.queue == s.queue[1..]
  {
    var i := s.queue[0];
    var s0 := Announce(c, s);
    FillAppends(c, s0, i, InstrDeps(s, i), -1, Accesses(i));
    var s' := Fill(c, s0, i, InstrDeps(s, i), -1, Accesses(i));
    assert s'.log == s.log + s'.log[|s.log|..];
    hide Holds, MadeOf, Accesses, InstrDeps;
    HoldsMore(s.log, s'.log[|s.log|..], program, i);
  }

  lemma {:induction false} DispatchHolds(c: Config, s: Core, n: nat, program: seq<Instr>)
    requires s.base <= |s.log| && Holds(s.log, program) && |program| == s.instrs
    ensures var s' := Dispatch(c, s, n);
      var k := |s.queue| - |s'.queue|;
      && 0 <= k && s'.queue == s.queue[k..] && s'.instrs == s.instrs + k && Holds(s'.log, program + s.queue[..k])
    decreases n
  {
    hide Holds, DispatchOne;
    if n > 0 && CanDispatch(c, s) {
      DispatchOneHolds(c, s, program);
      var s1 := DispatchOne(c, s);
      DispatchHolds(c, s1, n - 1, program + [s.queue[0]]);
      var k := |s1.queue| - |Dispatch(c, s1, n - 1).queue|;
      assert (program + [s.queue[0]]) + s1.queue[..k] == program + s.queue[..k + 1];
    } else {
      assert program + s.queue[..0] == program;
    }
  }

  // ---------------------------------------------------------------- one call

  lemma {:induction false} FetchSame(c: Config, q: seq<Instr>, addr: nat)
    requires c.lineSize > 0
    ensures SameInstrs(q, Fetch(c, q, addr))
    decreases |q|
  {
    if q != [] {
      var a := if q[0].state == NotInQueue && addr == 0 then LineStart(c, q[0].ip) else addr;
      FetchSame(c, q[1..], a);
      assert q == [q[0]] + q[1..];
    }
  }

  lemma {:induction false} DeliveredSame(c: Config, q: seq<Instr>, addr: nat, t: int)
    requires c.lineSize > 0
    ensures SameInstrs(q, Delivered(c, q, addr, t))
    decreases |q|
  {
    if q != [] {
      DeliveredSame(c, q[1..], addr, t);
      assert q == [q[0]] + q[1..];
    }
  }

  lemma AttemptSame(c: Config, u: Uop, oldest: bool, flags: set<nat>, k: Units, t: int)
    ensures SameStatic(u, TryExecute(c, u, oldest, flags, k, t).u)
  {
  }

  lemma {:induction false} ExecuteSame(c: Config, s: Core, i: nat, k: Units)
    requires s.base <= i <= |s.log|
    ensures var s' := Execute(c, s, i, k); SameProgram(s.log, s'.log) && s'.queue == s.queue && s'.instrs == s.instrs
    decreases |s.log| - i
  {
    if i < |s.log| {
      AttemptSame(c, s.log[i], i == s.base, s.flags, k, s.now);
      var a := TryExecute(c, s.log[i], i == s.base, s.flags, k, s.now);
      hide TryExecute;
      if !a.stop { ExecuteSame(c, Put(s, i, a), i + 1, a.units); }
    }
  }

  lemma LaterStagesSame(c: Config, s: Core)
    requires s.base <= |s.log|
    ensures var s' := Commit(c, Wake(c, Execute(c, s, s.base, Units(0, 0, 0, 0, 0))));
      SameProgram(s.log, s'.log) && s'.queue == s.queue && s'.instrs == s.instrs
  {
    var s3 := Execute(c, s, s.base, Units(0, 0, 0, 0, 0));
    ExecuteSame(c, s, s.base, Units(0, 0, 0, 0, 0));
    WakeSame(c, s3);
    hide Execute;
  }

  /** How an instruction got through the queue does not matter. */
  lemma HoldsSame(log: seq<Uop>, p: seq<Instr>, q: seq<Instr>)
    requires SameInstrs(p, q) && Holds(log, p)
    ensures Holds(log, q)
  {
    forall k | 0 <= k < |q| ensures Fits(Entries(log, k), q[k]) { assert SameInstr(p[k], q[k]); }
  }

  /** A call that is not starved: fetch and dispatch, then the stages that only change entries. */
  lemma StagesHold(c: Config, s: Core, s2: Core, program: seq<Instr>)
    requires ValidConfig(c) && s.base <= |s.log| && Holds(s.log, program) && |program| == s.instrs
    requires s2 == Dispatch(c, s, c.issueWidth)
    ensures var s' := Commit(c, Wake(c, Execute(c, s2, s2.base, Units(0, 0, 0, 0, 0))));
      var k := |s.queue| - |s'.queue|;
      && 0 <= k <= |s.queue| && s'.queue == s.queue[k..] && s'.instrs == s.instrs + k && Holds(s'.log, program + s.queue[..k])
  {
    hide *;
    DispatchHolds(c, s, c.issueWidth, program);
    LaterStagesSame(c, s2);
    HoldsStatic(s2.log, Commit(c, Wake(c, Execute(c, s2, s2.base, Units(0, 0, 0, 0, 0)))).log, program + s.queue[..|s.queue| - |s2.queue|]);
  }

  lemma ProcessHolds(c: Config, s: Core, t: int, program: seq<Instr>)
    requires ValidConfig(c) && s.base <= |s.log| && Holds(s.log, program) && |program| == s.instrs
    ensures var s' := Process(c, s, t);
      var k := |s.queue| - |s'.queue|;
      && 0 <= k <= |s.queue| && SameInstrs(s.queue[k..], s'.queue) && s'.instrs == s.instrs + k
      && Holds(s'.log, program + s.queue[..k])
  {
    hide Holds, Dispatch, Execute, Wake, Commit, Fetch, SameInstr;
    if Starved(c, s) {
      QueueStays(s.queue, program);
    } else {
      FetchSame(c, s.queue, 0);
      var q := Fetch(c, s.queue, 0);
      var s1 := Called(s, t).(queue := q);
      StagesHold(c, s1, Dispatch(c, s1, c.issueWidth), program);
      var k := |s.queue| - |Process(c, s, t).queue|;
      TakenSame(program, s.queue, q, k);
      HoldsSame(Process(c, s, t).log, program + q[..k], program + s.queue[..k]);
    }
  }

  lemma QueueStays(q: seq<Instr>, program: seq<Instr>)
    ensures program + q[..0] == program && SameInstrs(q[0..], q)
  {
  }

  lemma TakenSame(program: seq<Instr>, p: seq<Instr>, q: seq<Instr>, k: nat)
    requires SameInstrs(p, q) && k <= |p|
    ensures SameInstrs(program + q[..k], program + p[..k]) && SameInstrs(p[k..], q[k..])
  {
  }

  // ---------------------------------------------------------------- runs

  lemma NextConsistent(c: Config, s: Core, a: Action, program: seq<Instr>, accepted: seq<Instr>)
    requires ValidConfig(c) && s.base <= |s.log| && Enabled(c, s, a) && Consistent(s, program, accepted)
    ensures Consistent(Next(c, s, a), program + Taken(c, s, a), accepted + Accepted(c, s, a))
  {
    var s' := Next(c, s, a);
    match a
    case Call(t) =>
      ProcessHolds(c, s, t, program);
      hide Holds, Process, SameInstr;
      CallKeepsProgram(program, s.queue, s'.queue, accepted);
    case Enqueue(i, time, wake) =>
      assert program + [] == program;
      if |s.queue| < c.queueSize {
        assert program + (s.queue + [i]) == (program + s.queue) + [i];
      } else {
        assert accepted + [] == accepted;
      }
    case LineReply(addr, time) =>
      DeliveredSame(c, s.queue, addr, CeilBy(time, c.interval));
      hide Holds, Delivered;
      QueueMoves(program, s.queue, s'.queue, accepted);
    case Reply(n, time) =>
      assert program + [] == program && accepted + [] == accepted;
      HoldsStatic(s.log, s'.log, program);
    case _ => assert program + [] == program && accepted + [] == accepted;
  }

  lemma QueueMoves(program: seq<Instr>, q: seq<Instr>, q': seq<Instr>, accepted: seq<Instr>)
    requires SameInstrs(q, q') && SameInstrs(program + q, accepted)
    ensures SameInstrs(program + q', accepted) && program + [] == program && accepted + [] == accepted
  {
    forall k | 0 <= k < |accepted| ensures SameInstr((program + q')[k], accepted[k]) {
      assert SameInstr((program + q)[k], accepted[k]);
      if k >= |program| { assert SameInstr(q[k - |program|], q'[k - |program|]); }
    }
  }

  lemma CallKeepsProgram(program: seq<Instr>, q: seq<Instr>, q': seq<Instr>, accepted: seq<Instr>)
    requires |q'| <= |q| && SameInstrs(q[|q| - |q'|..], q') && SameInstrs(program + q, accepted)
    ensures SameInstrs((program + q[..|q| - |q'|]) + q', accepted) && accepted + [] == accepted
  {
    var k := |q| - |q'|;
    assert (program + q[..k]) + q[k..] == program + q;
    QueueMoves(program + q[..k], q[k..], q', accepted);
  }

  /** The instructions taken from the queue in a run, in order. */
  ghost function Dispatched(c: Config, s: Core, actions: seq<Action>, s': Core): seq<Instr>
    requires ValidConfig(c) && Run(c, s, actions, s')
    decreases |actions|
  {
    if actions == [] then []
    else Taken(c, s, actions[0]) + Dispatched(c, Next(c, s, actions[0]), actions[1..], s')
  }

  /** The instructions that found room in the queue in a run, in order. */
  ghost function Queued(c: Config, s: Core, actions: seq<Action>, s': Core): seq<Instr>
    requires ValidConfig(c) && Run(c, s, actions, s')
    decreases |actions|
  {
    if actions == [] then []
    else Accepted(c, s, actions[0]) + Queued(c, Next(c, s, actions[0]), actions[1..], s')
  }

  lemma {:induction false} RunConsistent(c: Config, s: Core, actions: seq<Action>, s': Core, program: seq<Instr>, accepted: seq<Instr>)
    requires ValidConfig(c) && Run(c, s, actions, s') && Consistent(s, program, accepted)
    ensures Consistent(s', program + Dispatched(c, s, actions, s'), accepted + Queued(c, s, actions, s'))
    decreases |actions|
  {
    hide Consistent, Taken, Accepted, Next, Enabled;
    if actions == [] {
      assert program + [] == program && accepted + [] == accepted;
    } else {
      var a, rest, s1 := actions[0], actions[1..], Next(c, s, actions[0]);
      NextConsistent(c, s, a, program, accepted);
      RunConsistent(c, s1, rest, s', program + Taken(c, s, a), accepted + Accepted(c, s, a));
      assert (program + Taken(c, s, a)) + Dispatched(c, s1, rest, s') == program + Dispatched(c, s, actions, s');
      assert (accepted + Accepted(c, s, a)) + Queued(c, s1, rest, s') == accepted + Queued(c, s, actions, s');
    }
  }

  /** In every run the log holds the dispatched instructions in order: instruction k has one entry for
      each of its memory operands, first the reads and then the write, with that address, or a single
      entry without memory, and each entry carries its registers, kind and branch outcome.  What has been
      dispatched and what still waits are together everything that found room in the queue, in order. */
  lemma LogIsProgram(c: Config, actions: seq<Action>, s: Core)
    requires ValidConfig(c) && Run(c, Initial, actions, s)
    ensures var program := Dispatched(c, Initial, actions, s);
      && (forall k :: 0 <= k < |program| ==> Fits(Entries(s.log, k), program[k]))
      && (forall n :: 0 <= n < |s.log| ==> s.log[n].instr < |program|)
      && (forall b, n :: 0 <= b < n < |s.log| ==> s.log[b].instr <= s.log[n].instr)
      && SameInstrs(program + s.queue, Queued(c, Initial, actions, s))
  {
    var program, accepted := Dispatched(c, Initial, actions, s), Queued(c, Initial, actions, s);
    assert Consistent(Initial, [], []);
    RunConsistent(c, Initial, actions, s, [], []);
    assert [] + program == program && [] + accepted == accepted;
    hide Fits, Run;
  }
}
