/** The invariant of the core over every run, and what follows from it. */
module O3Runs {
  import opened O3
  import opened O3Safety
  import opened Arithmetic

  // ---------------------------------------------------------------- the invariant

  /** Some entry has a memory access under way. */
  ghost predicate Outstanding(s: Core) {
    exists n :: s.base <= n < |s.log| && s.log[n].stage == Executing
  }

  /** A reorder buffer that is not empty will be looked at again. */
  ghost predicate Lively(s: Core) {
    s.base < |s.log| ==> s.events != {} || Outstanding(s)
  }

  ghost predicate Inv(c: Config, s: Core) {
    && Sound(s, s.events, |s.log|)
    && (forall e :: e in s.events ==> s.now <= e)
    && |s.log| - s.base < c.robSize
    && (UnitsExist(c) ==> Lively(s))
  }

  /** Every unit exists. */
  predicate UnitsExist(c: Config) {
    c.maxAlu >= 1 && c.maxSse >= 1 && c.maxLdst >= 1 && c.maxLd >= 1 && c.maxSt >= 1
  }

  // ---------------------------------------------------------------- dispatch

  lemma AnnounceMid(c: Config, s: Core)
    requires ValidConfig(c) && Mid(s, |s.log|)
    ensures Mid(Announce(c, s), |s.log|)
  {
    var s' := Announce(c, s);
    forall n: nat, d: int | n < |s.log| && Has(s.log[n].deps, d) ensures DepOk(s', Pending(s'), n, d) {
      assert DepOk(s, Pending(s), n, d);
    }
  }

  lemma NextInstr(s: Core, n0: nat, queue: seq<Instr>)
    requires Mid(s, n0)
    ensures Mid(s.(queue := queue, instrs := s.instrs + 1), |s.log|)
  {
    var s' := s.(queue := queue, instrs := s.instrs + 1);
    forall n: nat, d: int | n < |s.log| && Has(s.log[n].deps, d) ensures DepOk(s', Pending(s'), n, d) {
      assert DepOk(s, Pending(s), n, d);
    }
    assert Ordered(s') by {
      forall b: nat, n: nat | Must(s'.log, b, n) ensures b < n < |s'.log| && Precedes(s'.log, b, n, s'.now) {
        assert Precedes(s.log, b, n, s.now);
      }
    }
    assert ProgramOrder(s', |s'.log|);
  }

  lemma StartFilling(c: Config, s: Core, i: Instr)
    requires ValidConfig(c) && Mid(s, |s.log|)
    ensures Filling(c, Announce(c, s), i, InstrDeps(s, i), |s.log|)
  {
    AnnounceMid(c, s);
    hide Mid, Newest;
  }

  lemma FilledMid(c: Config, s: Core, i: Instr, shared: Deps, n0: nat)
    requires Filling(c, s, i, shared, n0)
    ensures Mid(s, n0)
  {
  }

  lemma DispatchOneMid(c: Config, s: Core)
    requires ValidConfig(c) && Mid(s, |s.log|) && CanDispatch(c, s)
    ensures Mid(DispatchOne(c, s), |DispatchOne(c, s).log|) && DispatchOne(c, s).now == s.now
  {
    var i, shared := s.queue[0], InstrDeps(s, s.queue[0]);
    var s0 := Announce(c, s);
    hide Filling, Mid;
    StartFilling(c, s, i);
    FillSound(c, s0, i, shared, |s.log|, Accesses(i));
    var s1 := Fill(c, s0, i, shared, -1, Accesses(i));
    FilledMid(c, s1, i, shared, |s.log|);
    NextInstr(s1, |s.log|, s.queue[1..]);
  }

  lemma {:induction false} DispatchMid(c: Config, s: Core, n: nat)
    requires ValidConfig(c) && Mid(s, |s.log|) && |s.log| - s.base < c.robSize
    ensures var s' := Dispatch(c, s, n);
      Mid(s', |s'.log|) && |s'.log| - s'.base < c.robSize && s'.now == s.now
    decreases n
  {
    if n > 0 && CanDispatch(c, s) {
      DispatchOneMid(c, s);
      hide Mid;
      DispatchMid(c, DispatchOne(c, s), n - 1);
    }
  }

  // ---------------------------------------------------------------- one call

  lemma CalledMid(c: Config, s: Core, t: int, queue: seq<Instr>)
    requires Inv(c, s) && Callable(s, t)
    ensures Mid(Called(s, t).(queue := queue), |s.log|)
  {
    var s' := Called(s, t).(queue := queue);
    assert Pending(s') == s.events;
    forall n: nat, d: int | n < |s.log| && Has(s.log[n].deps, d) ensures DepOk(s', Pending(s'), n, d) {
      assert DepOk(s, s.events, n, d);
    }
    assert Ordered(s') by {
      forall b: nat, n: nat | Must(s'.log, b, n) ensures b < n < |s'.log| && Precedes(s'.log, b, n, s'.now) {
        assert Precedes(s.log, b, n, s.now);
      }
    }
  }

  function Staged(c: Config, s: Core, t: int): (s2: Core)
    requires c.lineSize > 0 && s.base <= |s.log|
    ensures s2.base == s.base <= |s2.log|
  {
    Dispatch(c, Called(s, t).(queue := Fetch(c, s.queue, 0)), c.issueWidth)
  }

  lemma StagesSound(c: Config, s2: Core)
    requires ValidConfig(c) && Mid(s2, |s2.log|) && |s2.log| - s2.base < c.robSize
    ensures var s' := Commit(c, Wake(c, Execute(c, s2, s2.base, Units(0, 0, 0, 0, 0))));
      Sound(s', s'.events, |s'.log|) && (forall e :: e in s'.events ==> s'.now <= e) && |s'.log| - s'.base < c.robSize
  {
    var s3 := Execute(c, s2, s2.base, Units(0, 0, 0, 0, 0));
    ExecuteSound(c, s2, s2.base, Units(0, 0, 0, 0, 0), |s2.log|);
    hide Mid, Sound, Execute;
    WakeSound(c, s3, |s2.log|);
    hide Awake;
    CommitSound(c, Wake(c, s3), |s2.log|);
  }

  lemma ProcessSound(c: Config, s: Core, t: int)
    requires ValidConfig(c) && Inv(c, s) && Callable(s, t)
    ensures var s' := Process(c, s, t);
      Sound(s', s'.events, |s'.log|) && (forall e :: e in s'.events ==> s'.now <= e) && |s'.log| - s'.base < c.robSize
  {
    CalledMid(c, s, t, Fetch(c, s.queue, 0));
    CalledMid(c, s, t, s.queue);
    hide Mid, Sound, Execute, Wake, Commit;
    if Starved(c, s) {
      assert Called(s, t).(queue := s.queue) == Called(s, t);
      StarvedSound(Called(s, t), t);
    } else {
      DispatchMid(c, Called(s, t).(queue := Fetch(c, s.queue, 0)), c.issueWidth);
      StagesSound(c, Staged(c, s, t));
    }
  }

  lemma StarvedSound(s: Core, t: int)
    requires Mid(s, |s.log|) && s.now == t
    ensures var s' := s.(events := s.events + {t}); Sound(s', s'.events, |s'.log|) && forall e :: e in s'.events ==> t <= e
  {
    var s' := s.(events := s.events + {t});
    forall n: nat, d: int | n < |s.log| && Has(s.log[n].deps, d) ensures DepOk(s', s'.events, n, d) {
      assert DepOk(s, Pending(s), n, d);
    }
    assert Ordered(s') by {
      forall b: nat, n: nat | Must(s'.log, b, n) ensures b < n < |s'.log| && Precedes(s'.log, b, n, s'.now) {
        assert Precedes(s.log, b, n, s.now);
      }
    }
  }

  // ---------------------------------------------------------------- a call leaves work or another call

  lemma {:induction false} ExecuteEvents(c: Config, s: Core, i: nat, k: Units)
    requires s.base <= i <= |s.log|
    ensures s.events <= Execute(c, s, i, k).events
    decreases |s.log| - i
  {
    if i < |s.log| {
      var a := TryExecute(c, s.log[i], i == s.base, s.flags, k, s.now);
      if !a.stop { ExecuteEvents(c, Put(s, i, a), i + 1, a.units); }
    }
  }

  /** Without a new call nothing finishes: an entry is left alone or sent to memory. */
  lemma {:induction false} ExecuteQuiet(c: Config, s: Core, i: nat, k: Units, n: nat)
    requires s.base <= i <= |s.log| && n < |s.log| && Execute(c, s, i, k).events == {}
    ensures var v := Execute(c, s, i, k).log[n];
      v == s.log[n] || (s.log[n].stage == Issued && v.stage == Executing)
    decreases |s.log| - i
  {
    if i < |s.log| {
      var a := TryExecute(c, s.log[i], i == s.base, s.flags, k, s.now);
      if !a.stop {
        ExecuteEvents(c, Put(s, i, a), i + 1, a.units);
        ExecuteQuiet(c, Put(s, i, a), i + 1, a.units, n);
      }
    }
  }

  /** Finished entries are passed over, so the first unfinished one finds every unit free. */
  lemma {:induction false} ExecuteSkips(c: Config, s: Core, i: nat, k: Units, h: nat)
    requires s.base <= i <= h <= |s.log| && Execute(c, s, i, k).events == {}
    requires forall n :: i <= n < h ==> s.log[n].stage == Completed
    ensures Execute(c, s, i, k) == Execute(c, s, h, k)
    decreases h - i
  {
    if i < h {
      var a := TryExecute(c, s.log[i], i == s.base, s.flags, k, s.now);
      assert a.u == s.log[i] && a.units == k && a.flags == s.flags;
      assert !a.stop;
      assert Put(s, i, a) == s;
      ExecuteSkips(c, s, i + 1, k, h);
    }
  }

  /** An entry that is ready, has no dependency and finds the units free is started or looked at again. */
  lemma ExecuteStarts(c: Config, s: Core, h: nat)
    requires UnitsExist(c) && s.base <= h < |s.log|
    requires s.log[h].stage == Issued && s.log[h].ready <= s.now && s.log[h].deps == NoDeps
    requires Execute(c, s, h, Units(0, 0, 0, 0, 0)).events == {}
    ensures Execute(c, s, h, Units(0, 0, 0, 0, 0)).log[h].stage == Executing
  {
    var a := TryExecute(c, s.log[h], h == s.base, s.flags, Units(0, 0, 0, 0, 0), s.now);
    if !a.stop {
      ExecuteEvents(c, Put(s, h, a), h + 1, a.units);
      ExecuteQuiet(c, Put(s, h, a), h + 1, a.units, h);
    }
  }

  lemma {:induction false} DispatchQuiet(c: Config, s: Core, n: nat)
    requires s.base <= |s.log|
    ensures s.events <= Dispatch(c, s, n).events
    ensures Dispatch(c, s, n).events == {} ==> Dispatch(c, s, n) == s
    decreases n
  {
    if n > 0 && CanDispatch(c, s) {
      assert s.now + c.interval in DispatchOne(c, s).events;
      DispatchQuiet(c, DispatchOne(c, s), n - 1);
    }
  }

  /** The log after the execution stage and the wake-up of a call that asks for no further call. */
  ghost predicate Quiet(c: Config, s: Core, s3: Core) {
    && s.base <= |s.log| == |s3.log| && s3.base == s.base && s3.now == s.now && s.events == {}
    && (forall n :: s.base <= n < |s.log| ==>
          s3.log[n] == s.log[n] || (s.log[n].stage == Issued && s3.log[n].stage == Executing))
    && forall n :: !FinishesNow(s3, n)
  }

  lemma WakeQuiet(c: Config, s: Core)
    requires s.base <= |s.log| && Wake(c, s).events == {}
    ensures forall n :: !FinishesNow(s, n)
  {
  }

  lemma QuietCall(c: Config, s: Core)
    requires ValidConfig(c) && Mid(s, |s.log|) && Wake(c, Execute(c, s, s.base, Units(0, 0, 0, 0, 0))).events == {}
    ensures Quiet(c, s, Execute(c, s, s.base, Units(0, 0, 0, 0, 0)))
  {
    var k := Units(0, 0, 0, 0, 0);
    var s3 := Execute(c, s, s.base, k);
    ExecuteEvents(c, s, s.base, k);
    forall n: nat | s.base <= n < |s.log|
      ensures s3.log[n] == s.log[n] || (s.log[n].stage == Issued && s3.log[n].stage == Executing)
    {
      ExecuteQuiet(c, s, s.base, k, n);
    }
    ExecuteSound(c, s, s.base, k, |s.log|);
    WakeQuiet(c, s3);
  }

  /** When everything older has finished, an entry waits for nothing. */
  lemma QuietDeps(c: Config, s: Core, s3: Core, h: nat)
    requires Mid(s, |s.log|) && Quiet(c, s, s3) && s.base <= h < |s.log|
    requires forall n :: s.base <= n < h ==> Done(s3.log[n], s.now)
    ensures s.log[h].deps == NoDeps
  {
    forall d: int ensures !Has(s.log[h].deps, d) {
      if Has(s.log[h].deps, d) {
        assert DepOk(s, Pending(s), h, d);
        assert Done(s3.log[d], s.now);
        assert FinishesNow(s3, d);
        assert false;
      }
    }
    NothingHas(s.log[h].deps);
  }

  /** The oldest entry left after a call without a further call has a memory access under way. */
  lemma QuietHead(c: Config, s: Core, s3: Core, h: nat)
    requires ValidConfig(c) && UnitsExist(c) && Mid(s, |s.log|) && s.base <= h < |s.log|
    requires s3 == Execute(c, s, s.base, Units(0, 0, 0, 0, 0)) && s3.events == {} && Quiet(c, s, s3)
    requires (forall n :: s.base <= n < h ==> Done(s3.log[n], s.now)) && !Done(s3.log[h], s.now)
    ensures s3.log[h].stage == Executing
  {
    QuietDeps(c, s, s3, h);
    hide Execute;
    ExecuteSkips(c, s, s.base, Units(0, 0, 0, 0, 0), h);
    if s.log[h].stage == Issued {
      ExecuteStarts(c, s, h);
    }
  }

  lemma NothingHas(x: Deps)
    requires forall d: int :: !Has(x, d)
    ensures x == NoDeps
  {
    assert !Has(x, x.mem) && !Has(x, x.instr) && !Has(x, x.branch);
    assert !Has(x, x.r0) && !Has(x, x.r1) && !Has(x, x.r2) && !Has(x, x.r3);
  }

  lemma {:induction false} RetireDone(s: Core, n: nat)
    requires s.base <= |s.log|
    ensures forall m :: s.base <= m < Retire(s, n).base ==> Done(s.log[m], s.now)
    decreases n
  {
    if n > 0 && HeadDone(s) { RetireDone(s.(base := s.base + 1), n - 1); }
  }

  lemma StagesLively(c: Config, s: Core)
    requires ValidConfig(c) && UnitsExist(c) && Mid(s, |s.log|)
    ensures Lively(Commit(c, Wake(c, Execute(c, s, s.base, Units(0, 0, 0, 0, 0)))))
  {
    var s3 := Execute(c, s, s.base, Units(0, 0, 0, 0, 0));
    var s4 := Wake(c, s3);
    var s5 := Commit(c, s4);
    if s5.base < |s5.log| && s5.events == {} {
      hide Mid, Execute;
      assert s3.events == {} && s4.events == {};
      QuietCall(c, s);
      RetireDone(s4, c.commitWidth);
      WakeStages(c, s3);
      QuietHead(c, s, s3, s5.base);
      assert s5.log[s5.base].stage == Executing;
    }
  }

  lemma WakeStages(c: Config, s: Core)
    requires s.base <= |s.log|
    ensures forall n :: 0 <= n < |s.log| ==> Wake(c, s).log[n].stage == s.log[n].stage && Wake(c, s).log[n].ready == s.log[n].ready
  {
    WakeSame(c, s);
  }

  lemma ProcessLively(c: Config, s: Core, t: int)
    requires ValidConfig(c) && UnitsExist(c) && Inv(c, s) && Callable(s, t)
    ensures Lively(Process(c, s, t))
  {
    if Starved(c, s) {
      assert t in Process(c, s, t).events;
    } else {
      CalledMid(c, s, t, Fetch(c, s.queue, 0));
      hide Mid, Sound;
      DispatchMid(c, Called(s, t).(queue := Fetch(c, s.queue, 0)), c.issueWidth);
      StagesLively(c, Staged(c, s, t));
    }
  }

  // ---------------------------------------------------------------- the answer of the memory

  lemma AnswerOrdered(c: Config, s: Core, n: nat, time: int)
    requires ValidConfig(c) && Inv(c, s) && Enabled(c, s, Reply(n, time))
    ensures Ordered(Answer(c, s, n, time))
  {
    var s' := Answer(c, s, n, time);
    assert SameProgram(s.log, s'.log);
    forall b: nat, m: nat | Must(s'.log, b, m) ensures b < m < |s'.log| && Precedes(s'.log, b, m, s'.now) {
      MustStatic(s.log, s'.log, b, m);
      assert Precedes(s.log, b, m, s.now);
      if d :| Guards(s.log, b, m, d) {
        MustStatic(s.log, s'.log, b, d);
        assert Guards(s'.log, b, m, d);
      }
    }
  }

  lemma AnswerInv(c: Config, s: Core, n: nat, time: int)
    requires ValidConfig(c) && Inv(c, s) && Enabled(c, s, Reply(n, time))
    ensures Inv(c, Answer(c, s, n, time))
  {
    var s' := Answer(c, s, n, time);
    AnswerOrdered(c, s, n, time);
    ProgramOrderStatic(s, s', |s.log|);
    hide Ordered, ProgramOrder;
    forall m: nat, d: int | m < |s'.log| && Has(s'.log[m].deps, d) ensures DepOk(s', s'.events, m, d) {
      assert DepOk(s, s.events, m, d);
    }
  }

  lemma OtherInv(c: Config, s: Core, s': Core)
    requires Inv(c, s) && s'.log == s.log && s'.base == s.base && s'.now == s.now && s'.instrs == s.instrs
    requires s.events <= s'.events && forall e :: e in s'.events ==> s.now <= e
    ensures Inv(c, s')
  {
    MoreEvents(s, s', |s.log|);
    hide Sound;
    if Outstanding(s) { assert Outstanding(s'); }
  }

  // ---------------------------------------------------------------- runs

  lemma NextInv(c: Config, s: Core, a: Action)
    requires ValidConfig(c) && Inv(c, s) && Enabled(c, s, a)
    ensures Inv(c, Next(c, s, a))
  {
    match a
    case Call(t) => ProcessSound(c, s, t); if UnitsExist(c) { ProcessLively(c, s, t); }
    case Reply(n, time) => AnswerInv(c, s, n, time);
    case _ => OtherInv(c, s, Next(c, s, a));
  }

  lemma {:induction false} RunInv(c: Config, s: Core, actions: seq<Action>, s': Core)
    requires ValidConfig(c) && Inv(c, s) && Run(c, s, actions, s')
    ensures Inv(c, s')
    decreases |actions|
  {
    if actions != [] {
      NextInv(c, s, actions[0]);
      hide Inv;
      RunInv(c, Next(c, s, actions[0]), actions[1..], s');
    }
  }

  ghost predicate Reachable(c: Config, s: Core) {
    ValidConfig(c) && exists actions :: Run(c, Initial, actions, s)
  }

  lemma ReachableInv(c: Config, s: Core)
    requires Reachable(c, s)
    ensures Inv(c, s)
  {
    var actions :| Run(c, Initial, actions, s);
    assert Inv(c, Initial);
    RunInv(c, Initial, actions, s);
  }

  /** Dependencies are acyclic and never stale: they belong to entries that have not started and point
      at a live, strictly older entry, which is unfinished or whose finish is still to be announced by
      a call. */
  lemma DependenciesLive(c: Config, s: Core, n: nat, d: int)
    requires Reachable(c, s) && n < |s.log| && Has(s.log[n].deps, d)
    ensures s.base <= d < n && s.log[n].stage == Issued
    ensures s.log[d].stage == Completed ==> s.log[d].ready in s.events && s.now <= s.log[d].ready
  {
    ReachableInv(c, s);
    assert DepOk(s, s.events, n, d);
  }

  /** The oldest entry never waits for another one. */
  lemma OldestIsFree(c: Config, s: Core)
    requires Reachable(c, s) && s.base < |s.log|
    ensures s.log[s.base].deps == NoDeps
  {
    forall d: int ensures !Has(s.log[s.base].deps, d) {
      if Has(s.log[s.base].deps, d) {
        DependenciesLive(c, s, s.base, d);
        assert false;
      }
    }
    NothingHas(s.log[s.base].deps);
  }

  /** With a unit of each kind, a reorder buffer that is not empty has a memory access under way or will
      be looked at again. */
  lemma NeverStuck(c: Config, s: Core)
    requires Reachable(c, s) && UnitsExist(c) && s.base < |s.log|
    ensures Outstanding(s) || s.events != {}
  {
    ReachableInv(c, s);
  }

  /** Data flow: when an entry starts, every earlier part of its instruction, every earlier
      mispredicted branch, every earlier access to its word, and the last writer of each register it
      reads have finished. */
  lemma DataFlow(c: Config, s: Core, b: nat, n: nat)
    requires Reachable(c, s) && Must(s.log, b, n) && s.log[n].stage != Issued
    ensures s.log[b].stage == Completed && s.log[b].ready <= s.log[n].start <= s.now
  {
    ReachableInv(c, s);
    assert Precedes(s.log, b, n, s.now);
  }

  /** The other parts of the instruction that wrote the register have finished as well. */
  lemma WholeWriter(c: Config, s: Core, a: nat, b: nat, n: nat, r: nat)
    requires Reachable(c, s) && LastWriter(s.log, b, n, r) && s.log[n].stage != Issued
    requires a < |s.log| && s.log[a].instr == s.log[b].instr
    ensures s.log[a].stage == Completed && s.log[a].ready <= s.log[n].start
  {
    ReachableInv(c, s);
    assert Must(s.log, b, n);
    DataFlow(c, s, b, n);
    if a < b {
      assert Must(s.log, a, b);
      DataFlow(c, s, a, b);
    } else if b < a {
      assert a < n && Writes(s.log[a], r);
      assert false;
    }
  }

  /** Entries leave the reorder buffer finished. */
  lemma RetiredAreDone(c: Config, s: Core, n: nat)
    requires Reachable(c, s) && n < s.base
    ensures n < |s.log| && s.log[n].stage == Completed && s.log[n].ready <= s.now
  {
    ReachableInv(c, s);
    assert Done(s.log[n], s.now);
  }
}
