/** What one call of the core does at most and at least, stage by stage. */
module O3Calls {
  import opened Arithmetic
  import opened O3
  import opened O3Safety
  import opened O3Runs
  import opened O3Program

  // ---------------------------------------------------------------- dispatch and commit are as wide as they may be

  /** Dispatch stops at the issue width, when the queue is empty, when fewer than four entries are free, or
      at an instruction that is not ready. */
  lemma {:induction false} DispatchWide(c: Config, s: Core, n: nat)
    requires s.base <= |s.log|
    ensures var s' := Dispatch(c, s, n);
      var k := |s.queue| - |s'.queue|;
      && 0 <= k <= n && s'.queue == s.queue[k..]
      && (k == n || s'.queue == [] || |s'.log| - s'.base >= c.robSize - 3
          || s'.queue[0].state != Loaded || s'.queue[0].ready > s'.now)
    decreases n
  {
    hide DispatchOne;
    if n > 0 && CanDispatch(c, s) {
      DispatchQueue(c, s);
      DispatchWide(c, DispatchOne(c, s), n - 1);
    }
  }

  lemma DispatchQueue(c: Config, s: Core)
    requires s.base <= |s.log| && CanDispatch(c, s)
    ensures DispatchOne(c, s).queue == s.queue[1..]
  {
  }

  /** Commit stops at the commit width, when the buffer is empty, or at an entry that has not finished. */
  lemma {:induction false} RetireWide(s: Core, n: nat)
    requires s.base <= |s.log|
    ensures var s' := Retire(s, n);
      && s.base <= s'.base <= s.base + n
      && (forall m :: s.base <= m < s'.base ==> Done(s.log[m], s.now))
      && (s'.base == s.base + n || s'.base == |s.log| || !Done(s.log[s'.base], s.now))
    decreases n
  {
    if n > 0 && HeadDone(s) { RetireWide(s.(base := s.base + 1), n - 1); }
  }

  /** The entries that finished in time leave in order, as many as the commit width allows. */
  lemma CommitsInOrder(c: Config, s: Core, t: int)
    requires ValidConfig(c) && s.base <= |s.log| && !Starved(c, s)
    ensures var s' := Process(c, s, t);
      && s.base <= s'.base <= s.base + c.commitWidth && s'.base <= |s'.log|
      && (forall m :: s.base <= m < s'.base ==> Done(s'.log[m], t))
      && (s'.base == s.base + c.commitWidth || s'.base == |s'.log| || !Done(s'.log[s'.base], t))
  {
    var s4 := Wake(c, Execute(c, Staged(c, s, t), s.base, Units(0, 0, 0, 0, 0)));
    hide Wake, Execute, Dispatch;
    RetireWide(s4, c.commitWidth);
  }

  /** The instructions that a call takes: the oldest ones, at most as many as the issue width, and it stops
      before only where it has to. */
  lemma DispatchesInOrder(c: Config, s: Core, t: int)
    requires ValidConfig(c) && s.base <= |s.log| && !Starved(c, s)
    ensures var q, s' := Fetch(c, s.queue, 0), Process(c, s, t);
      var k := |q| - |s'.queue|;
      && 0 <= k <= c.issueWidth && s'.queue == q[k..]
      && (k == c.issueWidth || s'.queue == [] || |s'.log| - s.base >= c.robSize - 3
          || s'.queue[0].state != Loaded || s'.queue[0].ready > t)
  {
    hide Wake, Execute, Dispatch, Fetch, Commit;
    DispatchWide(c, Called(s, t).(queue := Fetch(c, s.queue, 0)), c.issueWidth);
    LaterStagesSame(c, Staged(c, s, t));
  }

  predicate Waiting(c: Config, u: Uop, t: int) {
    u.stage == Issued && u.ready == t + c.interval
  }

  lemma {:induction false} FillWaits(c: Config, s: Core, i: Instr, shared: Deps, previous: int, todo: seq<Access>)
    requires s.base <= |s.log|
    ensures var s' := Fill(c, s, i, shared, previous, todo);
      s.log <= s'.log && forall n :: |s.log| <= n < |s'.log| ==> Waiting(c, s'.log[n], s.now)
    decreases |todo|
  {
    if todo != [] {
      var u := NewUop(c, s, i, shared, previous, todo[0]);
      assert Waiting(c, u, s.now);
      hide NewUop;
      FillWaits(c, Append(s, u), i, shared, |s.log|, todo[1..]);
    }
  }

  lemma {:induction false} DispatchWaits(c: Config, s: Core, n: nat)
    requires s.base <= |s.log|
    ensures var s' := Dispatch(c, s, n);
      s.log <= s'.log && forall m :: |s.log| <= m < |s'.log| ==> Waiting(c, s'.log[m], s.now)
    decreases n
  {
    if n > 0 && CanDispatch(c, s) {
      FillWaits(c, Announce(c, s), s.queue[0], InstrDeps(s, s.queue[0]), -1, Accesses(s.queue[0]));
      hide Accesses, InstrDeps, Waiting;
      DispatchWaits(c, DispatchOne(c, s), n - 1);
    }
  }

  lemma {:induction false} ExecuteLeavesWaiting(c: Config, s: Core, i: nat, k: Units, n: nat)
    requires s.base <= i <= |s.log| && n < |s.log| && c.interval > 0 && Waiting(c, s.log[n], s.now)
    ensures Execute(c, s, i, k).log[n] == s.log[n]
    decreases |s.log| - i
  {
    if i < |s.log| {
      var a := TryExecute(c, s.log[i], i == s.base, s.flags, k, s.now);
      assert i == n ==> a.u == s.log[n];
      hide TryExecute;
      if !a.stop { ExecuteLeavesWaiting(c, Put(s, i, a), i + 1, a.units, n); }
    }
  }

  /** New entries wait for the next interval: none of them starts in the call that dispatches it. */
  lemma NewEntriesWait(c: Config, s: Core, t: int, n: nat)
    requires ValidConfig(c) && s.base <= |s.log| <= n < |Process(c, s, t).log|
    ensures Waiting(c, Process(c, s, t).log[n], t)
  {
    if !Starved(c, s) {
      var s2 := Staged(c, s, t);
      DispatchWaits(c, Called(s, t).(queue := Fetch(c, s.queue, 0)), c.issueWidth);
      LaterStages(c, s2);
      hide Wake, Execute, Dispatch, Fetch, Commit;
      ExecuteLeavesWaiting(c, s2, s2.base, Units(0, 0, 0, 0, 0), n);
    }
  }

  // ---------------------------------------------------------------- units

  datatype Unit = Alu | Sse | Port | Load | Store

  predicate Syncs(u: Uop) {
    u.kind == Notify || u.kind == WaitFor
  }

  predicate Uses(u: Uop, x: Unit) {
    && !Syncs(u)
    && match x
       case Alu => u.addr == 0
       case Sse => u.addr == 0 && u.kind == X87
       case Port => u.addr != 0
       case Load => u.addr != 0 && u.isRead
       case Store => u.addr != 0 && !u.isRead
  }

  function Limit(c: Config, x: Unit): int {
    match x case Alu => c.maxAlu case Sse => c.maxSse case Port => c.maxLdst case Load => c.maxLd case Store => c.maxSt
  }

  function InUse(k: Units, x: Unit): int {
    match x case Alu => k.alu case Sse => k.sse case Port => k.ldst case Load => k.ld case Store => k.st
  }

  predicate StartedIn(a: seq<Uop>, b: seq<Uop>, n: int) {
    0 <= n < |a| && n < |b| && a[n].stage == Issued && b[n].stage != Issued
  }

  /** The entries from lo to hi that are started between two logs on unit x. */
  function Started(a: seq<Uop>, b: seq<Uop>, lo: int, hi: int, x: Unit): set<int> {
    set n | lo <= n < hi && StartedIn(a, b, n) && Uses(b[n], x)
  }

  function NumStarted(a: seq<Uop>, b: seq<Uop>, lo: int, hi: int, x: Unit): nat {
    |Started(a, b, lo, hi, x)|
  }

  lemma {:induction false} ExecutePrefix(c: Config, s: Core, i: nat, k: Units, n: nat)
    requires s.base <= i <= |s.log| && n < i
    ensures Execute(c, s, i, k).log[n] == s.log[n]
    decreases |s.log| - i
  {
    if i < |s.log| {
      var a := TryExecute(c, s.log[i], i == s.base, s.flags, k, s.now);
      hide TryExecute;
      if !a.stop { ExecutePrefix(c, Put(s, i, a), i + 1, a.units, n); }
    }
  }

  /** What an attempt does to the units. */
  lemma AttemptUnits(c: Config, u: Uop, oldest: bool, flags: set<nat>, k: Units, t: int, x: Unit)
    ensures var a := TryExecute(c, u, oldest, flags, k, t);
      var starts := u.stage == Issued && a.u.stage != Issued;
      && SameStatic(u, a.u)
      && InUse(a.units, x) == InUse(k, x) + (if starts && Uses(u, x) then 1 else 0)
      && (starts && Uses(u, x) ==> InUse(k, x) < Limit(c, x) && !a.stop)
  {
  }

  lemma SplitStarted(a: seq<Uop>, m: seq<Uop>, b: seq<Uop>, i: nat, hi: int, x: Unit)
    requires |a| == |m| == |b| && i < |a| && i < hi && m == a[i := m[i]] && b[i] == m[i]
    ensures NumStarted(a, b, i, hi, x) == NumStarted(m, b, i + 1, hi, x) + if StartedIn(a, b, i) && Uses(b[i], x) then 1 else 0
  {
    var rest := Started(m, b, i + 1, hi, x);
    hide Uses;
    forall n | i < n < hi ensures StartedIn(a, b, n) <==> StartedIn(m, b, n) {
      if n < |a| { assert m[n] == a[n]; }
    }
    hide StartedIn;
    assert Started(a, b, i, hi, x) == rest + if StartedIn(a, b, i) && Uses(b[i], x) then {i} else {};
    assert i !in rest;
  }

  lemma ExecuteStep(c: Config, s: Core, i: nat, k: Units)
    requires s.base <= i < |s.log|
    ensures var a := TryExecute(c, s.log[i], i == s.base, s.flags, k, s.now);
      Execute(c, s, i, k) == if a.stop then Put(s, i, a) else Execute(c, Put(s, i, a), i + 1, a.units)
  {
  }

  lemma {:induction false} ExecuteUnits(c: Config, s: Core, i: nat, k: Units, x: Unit)
    requires s.base <= i <= |s.log|
    ensures var b := Execute(c, s, i, k).log;
      var started := NumStarted(s.log, b, i, |s.log|, x);
      started == 0 || InUse(k, x) + started <= Limit(c, x)
    decreases |s.log| - i
  {
    hide *;
    if i == |s.log| {
      NoneStarted(s.log, Execute(c, s, i, k).log, i, x);
    } else {
      var a := TryExecute(c, s.log[i], i == s.base, s.flags, k, s.now);
      var s1 := Put(s, i, a);
      AttemptUnits(c, s.log[i], i == s.base, s.flags, k, s.now, x);
      UsesStatic(s.log[i], a.u, x);
      ExecuteStep(c, s, i, k);
      PutShape(s, i, a);
      if a.stop {
        PutStops(s, i, a, x);
      } else {
        ExecutePrefix(c, s1, i + 1, a.units, i);
        ExecuteUnits(c, s1, i + 1, a.units, x);
        PutSplit(c, s, i, k, a, Execute(c, s1, i + 1, a.units).log, x);
      }
    }
  }

  lemma NoneStarted(a: seq<Uop>, b: seq<Uop>, i: nat, x: Unit)
    ensures NumStarted(a, b, i, i, x) == 0
  {
    assert Started(a, b, i, i, x) == {};
  }

  lemma PutShape(s: Core, i: nat, a: Attempt)
    requires i < |s.log|
    ensures var s1 := Put(s, i, a);
      && |s1.log| == |s.log| && s1.log[i] == a.u && s1.log == s.log[i := s1.log[i]]
      && s1.base == s.base && s1.now == s.now && s1.flags == a.flags
  {
  }

  /** The step of the count from one entry to the next. */
  lemma CountStep(s: Core, i: nat, k: Units, a: Attempt, b: seq<Uop>, hi: int, x: Unit)
    requires i < |s.log| == |b| && i < hi && b[i] == a.u && Uses(a.u, x) == Uses(s.log[i], x)
    requires InUse(a.units, x) == InUse(k, x) + if s.log[i].stage == Issued && a.u.stage != Issued && Uses(s.log[i], x) then 1 else 0
    ensures InUse(k, x) + NumStarted(s.log, b, i, hi, x) == InUse(a.units, x) + NumStarted(Put(s, i, a).log, b, i + 1, hi, x)
  {
    SplitStarted(s.log, Put(s, i, a).log, b, i, hi, x);
    hide NumStarted, Uses, InUse;
  }

  lemma PutSplit(c: Config, s: Core, i: nat, k: Units, a: Attempt, b: seq<Uop>, x: Unit)
    requires i < |s.log| == |b| && b[i] == a.u && Uses(a.u, x) == Uses(s.log[i], x)
    requires var starts := s.log[i].stage == Issued && a.u.stage != Issued;
      && InUse(a.units, x) == InUse(k, x) + (if starts && Uses(s.log[i], x) then 1 else 0)
      && (starts && Uses(s.log[i], x) ==> InUse(k, x) < Limit(c, x))
    requires var rest := NumStarted(Put(s, i, a).log, b, i + 1, |s.log|, x); rest == 0 || InUse(a.units, x) + rest <= Limit(c, x)
    ensures var all := NumStarted(s.log, b, i, |s.log|, x); all == 0 || InUse(k, x) + all <= Limit(c, x)
  {
    CountStep(s, i, k, a, b, |s.log|, x);
    hide NumStarted, Uses, InUse, Limit;
  }

  lemma PutStops(s: Core, i: nat, a: Attempt, x: Unit)
    requires i < |s.log| && Uses(a.u, x) == Uses(s.log[i], x)
    requires !(s.log[i].stage == Issued && a.u.stage != Issued && Uses(s.log[i], x))
    ensures |Put(s, i, a).log| == |s.log| && NumStarted(s.log, Put(s, i, a).log, i, |s.log|, x) == 0
  {
    hide Uses;
    StopStarts(s.log, Put(s, i, a).log, i, x);
  }

  lemma UsesStatic(u: Uop, v: Uop, x: Unit)
    requires SameStatic(u, v)
    ensures Uses(u, x) == Uses(v, x)
  {
  }

  lemma StopStarts(a: seq<Uop>, b: seq<Uop>, i: nat, x: Unit)
    requires i < |a| == |b| && b == a[i := b[i]] && !(StartedIn(a, b, i) && Uses(b[i], x))
    ensures NumStarted(a, b, i, |a|, x) == 0
  {
    assert Started(a, b, i, |a|, x) == {};
  }

  /** In one call no more entries start on a kind of unit than there are units of it. */
  lemma UnitsRespected(c: Config, s: Core, t: int, x: Unit)
    requires ValidConfig(c) && s.base <= |s.log|
    ensures var started := NumStarted(s.log, Process(c, s, t).log, s.base, |s.log|, x); started == 0 || started <= Limit(c, x)
  {
    var s' := Process(c, s, t);
    if Starved(c, s) {
      assert Started(s.log, s'.log, s.base, |s.log|, x) == {};
    } else {
      var s2 := Staged(c, s, t);
      var s3 := Execute(c, s2, s2.base, Units(0, 0, 0, 0, 0));
      StagedLog(c, s, t);
      ExecuteUnits(c, s2, s2.base, Units(0, 0, 0, 0, 0), x);
      LaterStages(c, s2);
      hide Wake, Execute, Dispatch, Fetch, Uses, NumStarted;
      FewerStarted(s.log, s2.log, s3.log, s'.log, s.base, x);
    }
  }

  /** Dispatch only appends. */
  lemma {:induction false} DispatchAppends(c: Config, s: Core, n: nat)
    requires s.base <= |s.log|
    ensures s.log <= Dispatch(c, s, n).log
    decreases n
  {
    if n > 0 && CanDispatch(c, s) {
      FillAppends(c, Announce(c, s), s.queue[0], InstrDeps(s, s.queue[0]), -1, Accesses(s.queue[0]));
      DispatchAppends(c, DispatchOne(c, s), n - 1);
    }
  }

  lemma StagedLog(c: Config, s: Core, t: int)
    requires ValidConfig(c) && s.base <= |s.log|
    ensures var s2 := Staged(c, s, t); s.log <= s2.log && s2.base == s.base && s2.now == t && s2.flags == s.flags
  {
    StagedFlags(c, Called(s, t).(queue := Fetch(c, s.queue, 0)), c.issueWidth);
    DispatchAppends(c, Called(s, t).(queue := Fetch(c, s.queue, 0)), c.issueWidth);
  }

  /** Wake-up and commit leave the stages, times and static parts of entries alone. */
  lemma LaterStages(c: Config, s: Core)
    requires s.base <= |s.log|
    ensures var s3 := Execute(c, s, s.base, Units(0, 0, 0, 0, 0));
      var s' := Commit(c, Wake(c, s3));
      && SameProgram(s3.log, s'.log) && s'.flags == s3.flags
      && forall n :: 0 <= n < |s3.log| ==> s'.log[n] == s3.log[n].(deps := s'.log[n].deps)
  {
    var s3 := Execute(c, s, s.base, Units(0, 0, 0, 0, 0));
    hide Execute;
    WakeSame(c, s3);
  }

  lemma FewerStarted(a: seq<Uop>, a2: seq<Uop>, b: seq<Uop>, b2: seq<Uop>, base: nat, x: Unit)
    requires a <= a2 && |a2| == |b| && SameProgram(b, b2) && forall n :: 0 <= n < |b| ==> b2[n].stage == b[n].stage
    ensures Started(a, b2, base, |a|, x) <= Started(a2, b, base, |a2|, x)
    ensures NumStarted(a, b2, base, |a|, x) <= NumStarted(a2, b, base, |a2|, x)
  {
    forall n | n in Started(a, b2, base, |a|, x) ensures n in Started(a2, b, base, |a2|, x) {
      assert SameStatic(b[n], b2[n]);
      UsesStatic(b[n], b2[n], x);
    }
    hide Uses;
    SubsetSize(Started(a, b2, base, |a|, x), Started(a2, b, base, |a2|, x));
  }

  // ---------------------------------------------------------------- nothing waits without a reason

  /** Entry n could start now if a unit is free. */
  predicate Startable(s: Core, n: int) {
    0 <= n < |s.log| && s.log[n].stage == Issued && s.log[n].ready <= s.now && s.log[n].deps == NoDeps && !Syncs(s.log[n])
  }

  /** Entry m is a synchronisation that cannot complete now and lets nothing younger start. */
  predicate Blocks(s: Core, m: int) {
    && 0 <= m < |s.log| && s.log[m].stage == Issued && s.log[m].ready <= s.now && Syncs(s.log[m])
    && !(m == s.base && (s.log[m].kind == Notify || s.log[m].dst.r0 in s.flags))
  }

  predicate Exhausted(c: Config, u: Uop, x: Unit, used: int) {
    Uses(u, x) && used >= Limit(c, x)
  }

  lemma AttemptStarts(c: Config, s: Core, i: nat, k: Units) returns (x: Unit)
    requires Startable(s, i)
    ensures var a := TryExecute(c, s.log[i], i == s.base, s.flags, k, s.now);
      if a.u.stage != Issued then !a.stop else Exhausted(c, s.log[i], x, InUse(k, x))
  {
    var u := s.log[i];
    if u.addr == 0 {
      x := if k.alu >= c.maxAlu then Alu else Sse;
    } else {
      x := if k.ldst >= c.maxLdst then Port else if u.isRead then Load else Store;
    }
  }

  lemma AttemptPasses(c: Config, s: Core, i: nat, k: Units)
    requires i < |s.log| && !c.inOrder && !Blocks(s, i)
    ensures !TryExecute(c, s.log[i], i == s.base, s.flags, k, s.now).stop
  {
  }

  /** Out of order, the entry is started, or one of its units is used up by older entries. */
  lemma {:induction false} ExecuteGreedy(c: Config, s: Core, i: nat, k: Units, n: nat) returns (x: Unit)
    requires s.base <= i <= n < |s.log| && Startable(s, n) && !c.inOrder && forall m :: i <= m < n ==> !Blocks(s, m)
    ensures var b := Execute(c, s, i, k).log;
      b[n].stage != Issued || Exhausted(c, s.log[n], x, InUse(k, x) + NumStarted(s.log, b, i, n, x))
    decreases n - i
  {
    hide *;
    var a := TryExecute(c, s.log[i], i == s.base, s.flags, k, s.now);
    var s1 := Put(s, i, a);
    ExecuteStep(c, s, i, k);
    PutShape(s, i, a);
    if i == n {
      x := GreedyHere(c, s, i, k);
    } else {
      AttemptPasses(c, s, i, k);
      GreedyLater(s, i, a, n);
      x := ExecuteGreedy(c, s1, i + 1, a.units, n);
      AttemptUnits(c, s.log[i], i == s.base, s.flags, k, s.now, x);
      UsesStatic(s.log[i], a.u, x);
      ExecutePrefix(c, s1, i + 1, a.units, i);
      CountStep(s, i, k, a, Execute(c, s1, i + 1, a.units).log, n, x);
    }
  }

  lemma NothingInUse(x: Unit)
    ensures InUse(Units(0, 0, 0, 0, 0), x) == 0
  {
  }

  /** What an attempt makes of an entry stays for the rest of the call. */
  lemma AttemptStays(c: Config, s: Core, i: nat, k: Units)
    requires s.base <= i < |s.log|
    ensures Execute(c, s, i, k).log[i] == TryExecute(c, s.log[i], i == s.base, s.flags, k, s.now).u
  {
    hide *;
    var a := TryExecute(c, s.log[i], i == s.base, s.flags, k, s.now);
    ExecuteStep(c, s, i, k);
    PutShape(s, i, a);
    if !a.stop { ExecutePrefix(c, Put(s, i, a), i + 1, a.units, i); }
  }

  lemma GreedyHere(c: Config, s: Core, i: nat, k: Units) returns (x: Unit)
    requires s.base <= i < |s.log| && Startable(s, i)
    ensures var b := Execute(c, s, i, k).log;
      b[i].stage != Issued || Exhausted(c, s.log[i], x, InUse(k, x) + NumStarted(s.log, b, i, i, x))
  {
    hide *;
    x := AttemptStarts(c, s, i, k);
    AttemptStays(c, s, i, k);
    NoneStarted(s.log, Execute(c, s, i, k).log, i, x);
  }

  lemma GreedyLater(s: Core, i: nat, a: Attempt, n: nat)
    requires s.base <= i < n && Startable(s, n) && forall m :: i <= m < n ==> !Blocks(s, m)
    ensures var s1 := Put(s, i, a); Startable(s1, n) && s1.log[n] == s.log[n] && forall m :: i + 1 <= m < n ==> !Blocks(s1, m)
  {
    var s1 := Put(s, i, a);
    forall m | i + 1 <= m < n ensures !Blocks(s1, m) { assert !Blocks(s, m) && s1.log[m] == s.log[m]; }
  }

  /** In one call of an out-of-order core, an entry that is ready, has no dependency and is not held up by a
      synchronisation starts, unless older entries that start in this call use up one of its units. */
  lemma StartsGreedily(c: Config, s: Core, t: int, n: nat) returns (x: Unit)
    requires ValidConfig(c) && s.base <= n < |s.log| && !Starved(c, s) && !c.inOrder
    requires Startable(s.(now := t), n) && forall m :: s.base <= m < n ==> !Blocks(s.(now := t), m)
    ensures var b := Process(c, s, t).log;
      n < |b| && (b[n].stage != Issued || Exhausted(c, s.log[n], x, NumStarted(s.log, b, s.base, n, x)))
  {
    assert c.lineSize > 0;
    hide *;
    var s2, k := Staged(c, s, t), Units(0, 0, 0, 0, 0);
    StagedLog(c, s, t);
    StagedStartable(s, t, s2, n);
    ProcessStages(c, s, t);
    x := StagedGreedy(c, s2, n);
    SameStarted(s.log, s2.log, Execute(c, s2, s2.base, k).log, Process(c, s, t).log, s.base, n, x);
    assert s2.log[n] == s.log[n];
  }

  lemma StagedGreedy(c: Config, s: Core, n: nat) returns (x: Unit)
    requires s.base <= n < |s.log| && Startable(s, n) && !c.inOrder && forall m :: s.base <= m < n ==> !Blocks(s, m)
    ensures var b := Execute(c, s, s.base, Units(0, 0, 0, 0, 0)).log;
      b[n].stage != Issued || Exhausted(c, s.log[n], x, NumStarted(s.log, b, s.base, n, x))
  {
    hide *;
    x := ExecuteGreedy(c, s, s.base, Units(0, 0, 0, 0, 0), n);
    NothingInUse(x);
  }

  /** A call that is not starved, with what its later stages leave alone. */
  lemma ProcessStages(c: Config, s: Core, t: int)
    requires ValidConfig(c) && s.base <= |s.log| && !Starved(c, s)
    ensures var s2 := Staged(c, s, t);
      var b, s' := Execute(c, s2, s2.base, Units(0, 0, 0, 0, 0)), Process(c, s, t);
      && SameProgram(b.log, s'.log) && s'.flags == b.flags && |s'.log| == |b.log|
      && forall n :: 0 <= n < |b.log| ==> s'.log[n] == b.log[n].(deps := s'.log[n].deps)
  {
    LaterStages(c, Staged(c, s, t));
    hide Wake, Execute, Dispatch, Fetch;
  }

  lemma StagedStartable(s: Core, t: int, s2: Core, n: nat)
    requires s.log <= s2.log && s2.base == s.base && s2.now == t && s2.flags == s.flags && n < |s.log|
    requires Startable(s.(now := t), n) && forall m :: s.base <= m < n ==> !Blocks(s.(now := t), m)
    ensures Startable(s2, n) && forall m :: s.base <= m < n ==> !Blocks(s2, m)
  {
    forall m | s.base <= m < n ensures !Blocks(s2, m) { assert !Blocks(s.(now := t), m) && s2.log[m] == s.log[m]; }
  }

  lemma {:induction false} StagedFlags(c: Config, s: Core, n: nat)
    requires s.base <= |s.log|
    ensures Dispatch(c, s, n).flags == s.flags
    decreases n
  {
    if n > 0 && CanDispatch(c, s) {
      hide Accesses, InstrDeps;
      StagedFlags(c, DispatchOne(c, s), n - 1);
    }
  }

  lemma SameStarted(a: seq<Uop>, a2: seq<Uop>, b: seq<Uop>, b2: seq<Uop>, base: nat, n: nat, x: Unit)
    requires a <= a2 && |a2| == |b| && n <= |a| && SameProgram(b, b2) && forall m :: 0 <= m < |b| ==> b2[m].stage == b[m].stage
    ensures NumStarted(a2, b, base, n, x) == NumStarted(a, b2, base, n, x)
  {
    forall m | base <= m < n ensures m in Started(a2, b, base, n, x) <==> m in Started(a, b2, base, n, x) {
      assert SameStatic(b[m], b2[m]);
      UsesStatic(b[m], b2[m], x);
    }
    hide Uses;
    assert Started(a2, b, base, n, x) == Started(a, b2, base, n, x);
  }

  // ---------------------------------------------------------------- in order

  /** Entry m does not stop a core that mimics one without reordering. */
  predicate Passable(s: Core, m: int) {
    0 <= m < |s.log| && s.log[m].stage == Issued && s.log[m].ready <= s.now && (s.log[m].deps == NoDeps || Syncs(s.log[m]))
  }

  lemma {:induction false} ExecutePasses(c: Config, s: Core, i: nat, k: Units, n: nat)
    requires s.base <= i <= n < |s.log| && c.inOrder && StartedIn(s.log, Execute(c, s, i, k).log, n)
    ensures forall m :: i <= m < n ==> Passable(s, m)
    decreases n - i
  {
    if i < n {
      var a := TryExecute(c, s.log[i], i == s.base, s.flags, k, s.now);
      var s1 := Put(s, i, a);
      ExecuteStep(c, s, i, k);
      assert !a.stop ==> Passable(s, i);
      hide TryExecute, Execute;
      assert !a.stop;
      ExecutePasses(c, s1, i + 1, a.units, n);
      forall m | i <= m < n ensures Passable(s, m) { if m > i { assert Passable(s1, m); } }
    }
  }

  /** A core that mimics one without reordering starts an entry only if every older one of the buffer could
      start in this call, apart from units. */
  lemma InOrderStarts(c: Config, s: Core, t: int, n: nat)
    requires ValidConfig(c) && s.base <= n < |s.log| && c.inOrder && StartedIn(s.log, Process(c, s, t).log, n)
    ensures forall m :: s.base <= m < n ==> Passable(s.(now := t), m)
  {
    if !Starved(c, s) {
      var s2 := Staged(c, s, t);
      StagedLog(c, s, t);
      LaterStages(c, s2);
      ExecutePasses(c, s2, s2.base, Units(0, 0, 0, 0, 0), n);
      hide Wake, Execute, Dispatch, Fetch;
      forall m | s.base <= m < n ensures Passable(s.(now := t), m) { assert Passable(s2, m); }
    }
  }

  // ---------------------------------------------------------------- synchronisation between cores

  /** What becomes of the flags when head entry u is looked at. */
  predicate FlagsMove(u: Uop, t: int, flags: set<nat>, v: Uop, flags': set<nat>) {
    if u.stage == Issued && u.ready <= t && u.kind == Notify then v.stage == Completed && flags' == flags + {u.dst.r0}
    else if u.stage == Issued && u.ready <= t && u.kind == WaitFor && u.dst.r0 in flags then
      v.stage == Completed && flags' == flags - {u.dst.r0}
    else flags' == flags && (Syncs(u) ==> v == u)
  }

  lemma {:induction false} ExecuteFlags(c: Config, s: Core, i: nat, k: Units)
    requires s.base < i <= |s.log|
    ensures var s' := Execute(c, s, i, k);
      s'.flags == s.flags && forall n :: 0 <= n < |s.log| && Syncs(s.log[n]) ==> s'.log[n] == s.log[n]
    decreases |s.log| - i
  {
    if i < |s.log| {
      var a := TryExecute(c, s.log[i], i == s.base, s.flags, k, s.now);
      if !a.stop { ExecuteFlags(c, Put(s, i, a), i + 1, a.units); }
    }
  }

  lemma HeadFlags(c: Config, s: Core, k: Units)
    requires s.base < |s.log|
    ensures var s' := Execute(c, s, s.base, k);
      && FlagsMove(s.log[s.base], s.now, s.flags, s'.log[s.base], s'.flags)
      && forall n :: s.base < n < |s.log| && Syncs(s.log[n]) ==> s'.log[n] == s.log[n]
  {
    var i := s.base;
    var a := TryExecute(c, s.log[i], true, s.flags, k, s.now);
    if !a.stop {
      ExecuteFlags(c, Put(s, i, a), i + 1, a.units);
      ExecutePrefix(c, Put(s, i, a), i + 1, a.units, i);
    }
  }

  /** Notifications and waits complete only as the oldest entry, in order: a notification sets its flag, a
      wait takes a flag that is set, and nothing else touches the flags. */
  lemma SyncsAtHead(c: Config, s: Core, t: int)
    requires ValidConfig(c) && s.base < |s.log| && !Starved(c, s)
    ensures var s' := Process(c, s, t);
      && |s.log| <= |s'.log|
      && FlagsMove(s.log[s.base], t, s.flags, s'.log[s.base].(deps := s.log[s.base].deps), s'.flags)
      && forall n :: s.base < n < |s.log| && Syncs(s.log[n]) ==> s'.log[n].stage == s.log[n].stage
  {
    var s2 := Staged(c, s, t);
    StagedLog(c, s, t);
    HeadFlags(c, s2, Units(0, 0, 0, 0, 0));
    LaterStages(c, s2);
    hide Wake, Execute, Dispatch, Fetch;
  }
}
