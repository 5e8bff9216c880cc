/** Word 0 is not ordered: entries without memory carry address 0 and hide older accesses to it. */
module O3ZeroWord {
  import opened Arithmetic
  import opened O3
  import opened O3Safety
  import opened O3Runs

  const K := Config(16, 4, 4, 4, 4, 4, 4, 4, 4, 1, 0, 0, 0, 0, 0, 64, false)
  const NoRegs := Regs(0, 0, 0, 0)

  /** A store to address 5, an instruction without memory operands and a load from address 5. */
  function Program(state: QueueState, ready: int): seq<Instr> {
    [Instr(state, ready, 64, 0, 0, 5, Plain, NoRegs, NoRegs, false),
     Instr(state, ready, 64, 0, 0, 0, Plain, NoRegs, NoRegs, false),
     Instr(state, ready, 64, 5, 0, 0, Plain, NoRegs, NoRegs, false)]
  }

  function Store(stage: Stage, start: int): Uop {
    Uop(stage, 2, 5, false, false, Plain, NoRegs, NoDeps, 0, NoRegs, start)
  }

  function Compute(stage: Stage, ready: int, start: int): Uop {
    Uop(stage, ready, 0, false, false, Plain, NoRegs, NoDeps, 1, NoRegs, start)
  }

  /** The load waits for the entry without memory, not for the store. */
  function Load(stage: Stage, mem: int, start: int): Uop {
    Uop(stage, 2, 5, true, false, Plain, NoRegs, NoDeps.(mem := mem), 2, NoRegs, start)
  }

  const Queued := Core([], 0, Program(NotInQueue, 0), {0}, {}, false, 0, 0)
  const Fetching := Core([], 0, Program(BeingLoaded, 0), {}, {}, false, 0, 0)
  const Fetched := Core([], 0, Program(Loaded, 1), {1}, {}, false, 0, 0)
  const Waiting := Core([Store(Issued, 1), Compute(Issued, 2, 1), Load(Issued, 1, 1)], 0, [], {2}, {}, false, 1, 3)
  const Computed := Core([Store(Executing, 2), Compute(Completed, 3, 2), Load(Issued, 1, 1)], 0, [], {3}, {}, false, 2, 3)
  const Woken := Core([Store(Executing, 2), Compute(Completed, 3, 2), Load(Issued, -1, 1)], 0, [], {4}, {}, false, 3, 3)
  const Loading := Core([Store(Executing, 2), Compute(Completed, 3, 2), Load(Executing, -1, 4)], 0, [], {}, {}, false, 4, 3)

  /** One call, stage by stage. */
  lemma CallStages(s: Core, t: int, queue: seq<Instr>, s2: Core, s3: Core, s4: Core)
    requires s.base == 0 && Callable(s, t) && !s.active
    requires queue == Fetch(K, s.queue, 0)
    requires s2 == Dispatch(K, Called(s, t).(queue := queue), 4)
    requires s3 == Execute(K, s2, 0, Units(0, 0, 0, 0, 0)) && s4 == Wake(K, s3)
    requires !HeadDone(s4)
    ensures Enabled(K, s, Call(t)) && Next(K, s, Call(t)) == s4
  {
  }

  lemma Fetches()
    ensures Enabled(K, Queued, Call(0)) && Next(K, Queued, Call(0)) == Fetching
  {
    var q := Program(NotInQueue, 0);
    var s := Core([], 0, Program(BeingLoaded, 0), {}, {}, false, 0, 0);
    assert Fetch(K, q, 0) == Program(BeingLoaded, 0) by {
      assert Fetch(K, q[2..], 64) == [q[2].(state := BeingLoaded)];
      assert q[1..][1..] == q[2..];
      assert Fetch(K, q[1..], 64) == [q[1].(state := BeingLoaded), q[2].(state := BeingLoaded)];
    }
    assert Called(Queued, 0).(queue := Program(BeingLoaded, 0)) == s;
    assert !CanDispatch(K, s);
    assert Wake(K, s) == s;
    CallStages(Queued, 0, Program(BeingLoaded, 0), s, s, s);
  }

  lemma Arrives()
    ensures Enabled(K, Fetching, LineReply(64, 1)) && Next(K, Fetching, LineReply(64, 1)) == Fetched
  {
    var q := Program(BeingLoaded, 0);
    hide CeilBy;
    assert CeilBy(1, 1) == 1;
    assert Delivered(K, q, 64, 1) == Program(Loaded, 1) by {
      assert Delivered(K, q[2..], 64, 1) == [q[2].(state := Loaded, ready := 1)];
      assert q[1..][1..] == q[2..];
      assert Delivered(K, q[1..], 64, 1) == [q[1].(state := Loaded, ready := 1), q[2].(state := Loaded, ready := 1)];
    }
  }

  lemma NothingToFetch()
    ensures Fetch(K, Program(Loaded, 1), 0) == Program(Loaded, 1)
  {
    var q := Program(Loaded, 1);
    assert Fetch(K, q[2..], 0) == [q[2]];
    assert q[1..][1..] == q[2..];
    assert Fetch(K, q[1..], 0) == [q[1], q[2]];
  }

  lemma DispatchAll()
    ensures Dispatch(K, Called(Fetched, 1), 4) == Waiting
  {
    var q, s := Program(Loaded, 1), Called(Fetched, 1);
    var a := Core([Store(Issued, 1)], 0, q[1..], {2}, {}, false, 1, 1);
    var b := Core([Store(Issued, 1), Compute(Issued, 2, 1)], 0, q[1..][1..], {2}, {}, false, 1, 2);
    OneEntry(s, Access(5, false), -1, a);
    OneEntry(a, Access(0, false), -1, b);
    assert Newest(b.log, 0, 2, 1, AccessTo(0)) == 1;
    OneEntry(b, Access(5, true), 1, Waiting);
    hide DispatchOne;
    assert Dispatch(K, Waiting, 1) == Waiting;
    assert Dispatch(K, b, 2) == Waiting;
    assert Dispatch(K, a, 3) == Waiting;
  }

  lemma Dispatches()
    ensures Enabled(K, Fetched, Call(1)) && Next(K, Fetched, Call(1)) == Waiting
  {
    hide Fetch, Dispatch, Execute, Wake;
    NothingToFetch();
    DispatchAll();
    Idle(Waiting);
    NothingToWake(Waiting);
    CallStages(Fetched, 1, Program(Loaded, 1), Waiting, Waiting, Waiting);
  }

  /** Dispatching an instruction of one entry. */
  lemma OneEntry(s: Core, x: Access, mem: int, s': Core)
    requires s.base == 0 && CanDispatch(K, s) && Accesses(s.queue[0]) == [x]
    requires s.queue[0].src == NoRegs && !s.queue[0].missed && forall n :: 0 <= n < |s.log| ==> !s.log[n].missed
    requires mem == if x.addr == 0 then -1 else Newest(s.log, 0, |s.log|, s.now, AccessTo(Word(x.addr)))
    requires s' == s.(log := s.log + [Uop(Issued, s.now + 1, x.addr, x.isRead, false, s.queue[0].kind, s.queue[0].dst,
                                          NoDeps.(mem := mem), s.instrs, NoRegs, s.now)],
                      queue := s.queue[1..], events := s.events + {s.now + 1}, instrs := s.instrs + 1)
    ensures DispatchOne(K, s) == s'
  {
    NewestFound(s.log, 0, |s.log|, s.now, MissedBranch);
    NewestFound(s.log, 0, |s.log|, s.now, WriterOf(0));
    var i, s0 := s.queue[0], Announce(K, s);
    assert InstrDeps(s, i) == NoDeps;
    var u := NewUop(K, s0, i, NoDeps, -1, x);
    assert Fill(K, s0, i, NoDeps, -1, [x]) == Append(s0, u);
  }

  lemma NothingToWake(s: Core)
    requires s.base == 0 && forall n :: 0 <= n < |s.log| ==> s.log[n].stage != Completed
    ensures Wake(K, s) == s
  {
    forall n: nat | n < |s.log| ensures Wake(K, s).log[n] == s.log[n] { WakeEntry(K, s, n); }
    assert Wake(K, s).log == s.log;
  }

  /** Nothing is executed before it is ready. */
  lemma Idle(s: Core)
    requires s.base == 0 && |s.log| == 3 && forall n :: 0 <= n < 3 ==> s.log[n].stage == Issued && s.now < s.log[n].ready
    ensures Execute(K, s, 0, Units(0, 0, 0, 0, 0)) == s
  {
    var k := Units(0, 0, 0, 0, 0);
    assert Execute(K, s, 3, k) == s;
    assert Put(s, 2, TryExecute(K, s.log[2], false, s.flags, k, s.now)) == s;
    assert Execute(K, s, 2, k) == s;
    assert Put(s, 1, TryExecute(K, s.log[1], false, s.flags, k, s.now)) == s;
    assert Execute(K, s, 1, k) == s;
    assert Put(s, 0, TryExecute(K, s.log[0], true, s.flags, k, s.now)) == s;
  }

  /** Looking at the next entry, which does not end the search for work. */
  lemma OneAttempt(s: Core, i: nat, k: Units, s': Core, k': Units)
    requires s.base == 0 && i < |s.log|
    requires var a := TryExecute(K, s.log[i], i == 0, s.flags, k, s.now); !a.stop && s' == Put(s, i, a) && k' == a.units
    ensures Execute(K, s, i, k) == Execute(K, s', i + 1, k')
  {
  }

  lemma Computes()
    ensures Enabled(K, Waiting, Call(2)) && Next(K, Waiting, Call(2)) == Computed
  {
    var s := Called(Waiting, 2);
    var a := s.(log := [Store(Executing, 2), Compute(Issued, 2, 1), Load(Issued, 1, 1)]);
    var k0, k1, k2 := Units(0, 0, 0, 0, 0), Units(0, 1, 0, 1, 0), Units(1, 1, 0, 1, 0);
    OneAttempt(s, 0, k0, a, k1);
    OneAttempt(a, 1, k1, Computed, k2);
    OneAttempt(Computed, 2, k2, Computed, k2);
    NothingNow(Computed);
    CallStages(Waiting, 2, [], s, Computed, Computed);
  }

  lemma NothingNow(s: Core)
    requires s.base == 0 && forall n :: 0 <= n < |s.log| ==> s.log[n].stage == Completed ==> s.log[n].ready != s.now
    ensures Wake(K, s) == s
  {
    forall n: nat | n < |s.log| ensures Wake(K, s).log[n] == s.log[n] { WakeEntry(K, s, n); }
    assert Wake(K, s).log == s.log;
  }

  lemma Wakes()
    ensures Enabled(K, Computed, Call(3)) && Next(K, Computed, Call(3)) == Woken
  {
    var s := Called(Computed, 3);
    var k := Units(0, 0, 0, 0, 0);
    OneAttempt(s, 0, k, s, k);
    OneAttempt(s, 1, k, s, k);
    OneAttempt(s, 2, k, s, k);
    assert FinishesNow(s, 1);
    WakeEntry(K, s, 0);
    WakeEntry(K, s, 1);
    WakeEntry(K, s, 2);
    assert Wake(K, s).log == Woken.log;
    CallStages(Computed, 3, [], s, s, Woken);
  }

  lemma Loads()
    ensures Enabled(K, Woken, Call(4)) && Next(K, Woken, Call(4)) == Loading
  {
    var s := Called(Woken, 4);
    var k := Units(0, 0, 0, 0, 0);
    OneAttempt(s, 0, k, s, k);
    OneAttempt(s, 1, k, s, k);
    OneAttempt(s, 2, k, Loading, Units(0, 1, 1, 0, 0));
    NothingNow(Loading);
    CallStages(Woken, 4, [], s, Loading, Loading);
  }

  /** The state with the program queued is reached. */
  lemma Enqueues()
    ensures Run(K, Initial, [Enqueue(Program(NotInQueue, 0)[0], 0, true), Enqueue(Program(NotInQueue, 0)[1], 0, true),
                             Enqueue(Program(NotInQueue, 0)[2], 0, true)], Queued)
  {
    var q := Program(NotInQueue, 0);
    var s1 := Core([], 0, [q[0]], {0}, {}, false, 0, 0);
    var s2 := Core([], 0, [q[0], q[1]], {0}, {}, false, 0, 0);
    RunStep(s2, Enqueue(q[2], 0, true), Queued, [], Queued);
    RunStep(s1, Enqueue(q[1], 0, true), s2, [Enqueue(q[2], 0, true)], Queued);
    RunStep(Initial, Enqueue(q[0], 0, true), s1, [Enqueue(q[1], 0, true), Enqueue(q[2], 0, true)], Queued);
  }

  lemma RunStep(s: Core, a: Action, s': Core, rest: seq<Action>, s'': Core)
    requires s.base <= |s.log| && Enabled(K, s, a) && Next(K, s, a) == s' && Run(K, s', rest, s'')
    ensures Run(K, s, [a] + rest, s'')
  {
    assert ([a] + rest)[1..] == rest;
  }

  lemma {:induction false} RunThen(s: Core, actions: seq<Action>, s': Core, more: seq<Action>, s'': Core)
    requires Run(K, s, actions, s') && Run(K, s', more, s'')
    ensures Run(K, s, actions + more, s'')
    decreases |actions|
  {
    hide Enabled, Next;
    if actions == [] {
      assert actions + more == more;
    } else {
      assert (actions + more)[1..] == actions[1..] + more;
      RunThen(Next(K, s, actions[0]), actions[1..], s', more, s'');
    }
  }

  /** The condition on the word in DataFlow is needed: the core reaches a state where a load from
      address 5 has been sent to memory while an older store to the same address is still under way. */
  lemma ZeroWordUnordered()
    ensures Reachable(K, Loading)
    ensures exists b, n :: 0 <= b < n < |Loading.log| && Loading.log[b].addr == Loading.log[n].addr != 0
              && Loading.log[n].stage != Issued && Loading.log[b].stage == Executing
  {
    Calls();
    var q := Program(NotInQueue, 0);
    var calls :| Run(K, Queued, calls, Loading);
    hide Enabled, Next, Run;
    Enqueues();
    RunThen(Initial, [Enqueue(q[0], 0, true), Enqueue(q[1], 0, true), Enqueue(q[2], 0, true)], Queued, calls, Loading);
    assert Loading.log[0].addr == Loading.log[2].addr;
  }

  lemma Calls()
    ensures exists calls :: Run(K, Queued, calls, Loading)
  {
    hide Enabled, Next, Run;
    Loads();
    assert Run(K, Loading, [], Loading) by { EmptyRun(Loading); }
    RunStep(Woken, Call(4), Loading, [], Loading);
    Wakes();
    RunStep(Computed, Call(3), Woken, [Call(4)] + [], Loading);
    Computes();
    RunStep(Waiting, Call(2), Computed, [Call(3)] + ([Call(4)] + []), Loading);
    Dispatches();
    var late := [Call(2)] + ([Call(3)] + ([Call(4)] + []));
    RunStep(Fetched, Call(1), Waiting, late, Loading);
    Arrives();
    RunStep(Fetching, LineReply(64, 1), Fetched, [Call(1)] + late, Loading);
    Fetches();
    RunStep(Queued, Call(0), Fetching, [LineReply(64, 1)] + ([Call(1)] + late), Loading);
  }

  lemma EmptyRun(s: Core)
    ensures Run(K, s, [], s)
  {
  }

  predicate Touches(u: Uop, w: nat) {
    u.addr != 0 && Word(u.addr) == w
  }

  /** No core ever starts an access to word w before every older access to it has finished. */
  ghost predicate WordOrdered(w: nat) {
    forall c, s, b: nat, n: nat ::
      Reachable(c, s) && b < n < |s.log| && Touches(s.log[b], w) && Touches(s.log[n], w) && s.log[n].stage != Issued ==>
        s.log[b].stage == Completed && s.log[b].ready <= s.log[n].start
  }

  /** Memory order is kept for exactly the words other than word 0. */
  lemma WordsOrderedExactly(w: nat)
    ensures WordOrdered(w) <==> w != 0
  {
    if w == 0 {
      ZeroWordUnordered();
      var b, n :| 0 <= b < n < |Loading.log| && Loading.log[b].addr == Loading.log[n].addr != 0
                  && Loading.log[n].stage != Issued && Loading.log[b].stage == Executing;
      assert Touches(Loading.log[b], 0) && Touches(Loading.log[n], 0);
    } else {
      forall c, s, b: nat, n: nat
        | Reachable(c, s) && b < n < |s.log| && Touches(s.log[b], w) && Touches(s.log[n], w) && s.log[n].stage != Issued
        ensures s.log[b].stage == Completed && s.log[b].ready <= s.log[n].start
      {
        assert Must(s.log, b, n);
        DataFlow(c, s, b, n);
      }
    }
  }
}
