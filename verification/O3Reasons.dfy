/** Entries wait only for what they have to: there are no false dependencies. */
module O3Reasons {
  import opened Arithmetic
  import opened O3
  import opened O3Safety
  import opened O3Runs
  import opened O3Program

  /** Entry n has a reason to wait for entry d: both belong to one instruction, d is a mispredicted branch,
      d writes a register that n reads, or d accesses the word that n accesses.  Entries without memory
      count as accesses to word 0. */
  ghost predicate Reason(log: seq<Uop>, n: int, d: int) {
    && 0 <= d < n < |log|
    && (|| log[d].instr == log[n].instr
        || log[d].missed
        || (exists r :: Reads(log[n], r) && Writes(log[d], r))
        || (log[n].addr != 0 && Word(log[d].addr) == Word(log[n].addr)))
  }

  ghost predicate Reasoned(log: seq<Uop>) {
    forall n, d :: 0 <= n < |log| && Has(log[n].deps, d) ==> Reason(log, n, d)
  }

  // ---------------------------------------------------------------- dispatch

  predicate FoundBy(log: seq<Uop>, d: int, q: Query) {
    d == -1 || (0 <= d < |log| && Matches(q, log[d]))
  }

  predicate SharedBy(log: seq<Uop>, i: Instr, x: Deps) {
    && x.mem == x.instr == -1 && FoundBy(log, x.branch, MissedBranch)
    && FoundBy(log, x.r0, WriterOf(i.src.r0)) && FoundBy(log, x.r1, WriterOf(i.src.r1))
    && FoundBy(log, x.r2, WriterOf(i.src.r2)) && FoundBy(log, x.r3, WriterOf(i.src.r3))
  }

  lemma NewestFoundBy(log: seq<Uop>, lo: nat, hi: nat, t: int, q: Query)
    requires hi <= |log|
    ensures FoundBy(log, Newest(log, lo, hi, t, q), q)
  {
    NewestFound(log, lo, hi, t, q);
  }

  lemma InstrDepsShared(s: Core, i: Instr)
    requires s.base <= |s.log|
    ensures SharedBy(s.log, i, InstrDeps(s, i))
  {
    var n := |s.log|;
    NewestFoundBy(s.log, s.base, n, s.now, MissedBranch);
    NewestFoundBy(s.log, s.base, n, s.now, WriterOf(i.src.r0));
    NewestFoundBy(s.log, s.base, n, s.now, WriterOf(i.src.r1));
    NewestFoundBy(s.log, s.base, n, s.now, WriterOf(i.src.r2));
    NewestFoundBy(s.log, s.base, n, s.now, WriterOf(i.src.r3));
    hide Newest, FoundBy;
  }

  lemma ReasonMore(log: seq<Uop>, u: Uop, n: int, d: int)
    requires Reason(log, n, d)
    ensures Reason(log + [u], n, d)
  {
  }

  lemma NewReason(c: Config, s: Core, i: Instr, shared: Deps, previous: int, a: Access, d: int)
    requires s.base <= |s.log| && SharedBy(s.log, i, shared)
    requires previous == -1 || (0 <= previous < |s.log| && s.log[previous].instr == s.instrs)
    requires Has(NewUop(c, s, i, shared, previous, a).deps, d)
    ensures Reason(s.log + [NewUop(c, s, i, shared, previous, a)], |s.log|, d)
  {
    var u := NewUop(c, s, i, shared, previous, a);
    var log := s.log + [u];
    if a.addr != 0 { NewestFoundBy(s.log, s.base, |s.log|, s.now, AccessTo(Word(a.addr))); }
    hide Newest;
    assert 0 <= d < |s.log| && log[d] == s.log[d] && log[|s.log|] == u;
    if d == u.deps.r0 { assert Reads(u, i.src.r0) && Writes(log[d], i.src.r0); }
    if d == u.deps.r1 { assert Reads(u, i.src.r1) && Writes(log[d], i.src.r1); }
    if d == u.deps.r2 { assert Reads(u, i.src.r2) && Writes(log[d], i.src.r2); }
    if d == u.deps.r3 { assert Reads(u, i.src.r3) && Writes(log[d], i.src.r3); }
  }

  lemma AppendReasoned(c: Config, s: Core, i: Instr, shared: Deps, previous: int, a: Access)
    requires s.base <= |s.log| && SharedBy(s.log, i, shared) && Reasoned(s.log)
    requires previous == -1 || (0 <= previous < |s.log| && s.log[previous].instr == s.instrs)
    ensures var log := s.log + [NewUop(c, s, i, shared, previous, a)]; Reasoned(log) && SharedBy(log, i, shared)
  {
    var log := s.log + [NewUop(c, s, i, shared, previous, a)];
    forall n, d | 0 <= n < |log| && Has(log[n].deps, d) ensures Reason(log, n, d) {
      if n < |s.log| { ReasonMore(s.log, log[|s.log|], n, d); } else { NewReason(c, s, i, shared, previous, a, d); }
    }
  }

  lemma {:induction false} FillReasoned(c: Config, s: Core, i: Instr, shared: Deps, previous: int, todo: seq<Access>)
    requires s.base <= |s.log| && SharedBy(s.log, i, shared) && Reasoned(s.log)
    requires previous == -1 || (0 <= previous < |s.log| && s.log[previous].instr == s.instrs)
    ensures Reasoned(Fill(c, s, i, shared, previous, todo).log)
    decreases |todo|
  {
    if todo != [] {
      AppendReasoned(c, s, i, shared, previous, todo[0]);
      var u := NewUop(c, s, i, shared, previous, todo[0]);
      assert u.instr == s.instrs;
      hide Reasoned, NewUop, SharedBy;
      FillReasoned(c, Append(s, u), i, shared, |s.log|, todo[1..]);
    }
  }

  lemma {:induction false} DispatchReasoned(c: Config, s: Core, n: nat)
    requires s.base <= |s.log| && Reasoned(s.log)
    ensures Reasoned(Dispatch(c, s, n).log)
    decreases n
  {
    if n > 0 && CanDispatch(c, s) {
      var i := s.queue[0];
      InstrDepsShared(s, i);
      hide Reasoned, Accesses, InstrDeps, SharedBy;
      FillReasoned(c, Announce(c, s), i, InstrDeps(s, i), -1, Accesses(i));
      DispatchReasoned(c, DispatchOne(c, s), n - 1);
    }
  }

  // ---------------------------------------------------------------- later stages

  /** Entries keep what is static and at most lose dependencies. */
  ghost predicate Loosened(a: seq<Uop>, b: seq<Uop>) {
    SameProgram(a, b) && forall n, d :: 0 <= n < |b| && Has(b[n].deps, d) ==> Has(a[n].deps, d)
  }

  lemma LoosenedReasoned(a: seq<Uop>, b: seq<Uop>)
    requires Loosened(a, b) && Reasoned(a)
    ensures Reasoned(b)
  {
    forall n, d | 0 <= n < |b| && Has(b[n].deps, d) ensures Reason(b, n, d) {
      assert Reason(a, n, d) && SameStatic(a[n], b[n]) && SameStatic(a[d], b[d]);
      if r :| Reads(a[n], r) && Writes(a[d], r) { assert Reads(b[n], r) && Writes(b[d], r); }
    }
  }

  lemma AttemptDeps(c: Config, u: Uop, oldest: bool, flags: set<nat>, k: Units, t: int)
    ensures TryExecute(c, u, oldest, flags, k, t).u.deps == u.deps
  {
  }

  lemma {:induction false} ExecuteDeps(c: Config, s: Core, i: nat, k: Units)
    requires s.base <= i <= |s.log|
    ensures var b := Execute(c, s, i, k).log; forall n :: 0 <= n < |s.log| ==> b[n].deps == s.log[n].deps
    decreases |s.log| - i
  {
    if i < |s.log| {
      var a := TryExecute(c, s.log[i], i == s.base, s.flags, k, s.now);
      AttemptDeps(c, s.log[i], i == s.base, s.flags, k, s.now);
      hide TryExecute;
      if !a.stop { ExecuteDeps(c, Put(s, i, a), i + 1, a.units); }
    }
  }

  lemma WakeLoosens(c: Config, s: Core)
    requires s.base <= |s.log|
    ensures Loosened(s.log, Wake(c, s).log)
  {
    WakeSame(c, s);
    forall n, d | 0 <= n < |s.log| && Has(Wake(c, s).log[n].deps, d) ensures Has(s.log[n].deps, d) { WakeEntry(c, s, n); }
  }

  lemma ProcessReasoned(c: Config, s: Core, t: int)
    requires ValidConfig(c) && s.base <= |s.log| && Reasoned(s.log)
    ensures Reasoned(Process(c, s, t).log)
  {
    if !Starved(c, s) {
      var s2 := Staged(c, s, t);
      hide Wake, Execute, Fetch, Dispatch, Reasoned;
      DispatchReasoned(c, Called(s, t).(queue := Fetch(c, s.queue, 0)), c.issueWidth);
      StagesReasoned(c, s2);
    }
  }

  lemma StagesReasoned(c: Config, s: Core)
    requires s.base <= |s.log| && Reasoned(s.log)
    ensures Reasoned(Commit(c, Wake(c, Execute(c, s, s.base, Units(0, 0, 0, 0, 0)))).log)
  {
    hide Wake, Execute, Reasoned;
    var s3 := Execute(c, s, s.base, Units(0, 0, 0, 0, 0));
    ExecuteSame(c, s, s.base, Units(0, 0, 0, 0, 0));
    ExecuteDeps(c, s, s.base, Units(0, 0, 0, 0, 0));
    LoosenedReasoned(s.log, s3.log);
    WakeLoosens(c, s3);
    LoosenedReasoned(s3.log, Wake(c, s3).log);
  }

  lemma {:induction false} RunReasoned(c: Config, s: Core, actions: seq<Action>, s': Core)
    requires ValidConfig(c) && Run(c, s, actions, s') && Reasoned(s.log)
    ensures Reasoned(s'.log)
    decreases |actions|
  {
    if actions != [] {
      match actions[0] {
        case Call(t) => ProcessReasoned(c, s, t);
        case Reply(n, time) => LoosenedReasoned(s.log, Next(c, s, actions[0]).log);
        case _ =>
      }
      hide Process, Reasoned;
      RunReasoned(c, Next(c, s, actions[0]), actions[1..], s');
    }
  }

  /** In every reachable state an entry waits only for older ones it has a reason to wait for. */
  lemma NoFalseDependencies(c: Config, s: Core, n: nat, d: int)
    requires Reachable(c, s) && n < |s.log| && Has(s.log[n].deps, d)
    ensures Reason(s.log, n, d)
  {
    var actions :| Run(c, Initial, actions, s);
    RunReasoned(c, Initial, actions, s);
  }
}
