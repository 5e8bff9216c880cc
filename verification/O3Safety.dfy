/** What the core keeps over every run: dependencies point at live, older, unfinished entries, and a
    micro-operation starts only after everything that must precede it has finished. */
module O3Safety {
  import opened O3

  // ---------------------------------------------------------------- what must precede what

  /** Both access the same 8-byte word.  Word 0 is left out: see ZeroWordUnordered. */
  predicate SameWord(u: Uop, v: Uop) {
    u.addr != 0 && v.addr != 0 && Word(u.addr) == Word(v.addr) != 0
  }

  /** Entry n of the log has to wait for b: an earlier part of the same instruction, an earlier
      mispredicted branch, or an earlier access to the same word. */
  predicate Waits(log: seq<Uop>, b: nat, n: nat) {
    && b < n < |log|
    && (|| log[b].instr == log[n].instr
        || (log[b].missed && log[b].instr < log[n].instr)
        || SameWord(log[b], log[n]))
  }

  predicate Reads(u: Uop, r: nat) {
    r == u.src.r0 || r == u.src.r1 || r == u.src.r2 || r == u.src.r3
  }

  /** b is the last writer of register r before the instruction of n, which reads it. */
  ghost predicate LastWriter(log: seq<Uop>, b: nat, n: nat, r: nat) {
    && b < n < |log| && Reads(log[n], r) && Writes(log[b], r) && log[b].instr < log[n].instr
    && forall m :: b < m < n && Writes(log[m], r) ==> log[m].instr == log[n].instr
  }

  ghost predicate Must(log: seq<Uop>, b: nat, n: nat) {
    Waits(log, b, n) || exists r :: LastWriter(log, b, n, r)
  }

  /** An entry that n depends on and that itself waits for b. */
  predicate Guards(log: seq<Uop>, b: nat, n: nat, d: int) {
    n < |log| && Has(log[n].deps, d) && b < d < n && Waits(log, b, d)
  }

  /** b precedes n: it had finished when n started or, as long as n has not started, it has finished
      or is waited for. */
  ghost predicate Precedes(log: seq<Uop>, b: nat, n: nat, now: int)
    requires b < n < |log|
  {
    if log[n].stage == Issued then
      Done(log[b], now) || Has(log[n].deps, b) || exists d :: Guards(log, b, n, d)
    else log[b].stage == Completed && log[b].ready <= log[n].start
  }

  // ---------------------------------------------------------------- the invariant

  predicate DepOk(s: Core, events: set<int>, n: nat, d: int) {
    && n < |s.log| && s.base <= d < n && s.log[n].stage == Issued
    && (s.log[d].stage == Completed ==> s.log[d].ready in events)
  }

  /** Every dependency points at a live older entry that is not known to have finished. */
  ghost predicate DepsOk(s: Core, events: set<int>) {
    forall n: nat, d: int :: n < |s.log| && Has(s.log[n].deps, d) ==> DepOk(s, events, n, d)
  }

  /** The core is called when an entry becomes ready. */
  ghost predicate TimesOk(s: Core, events: set<int>) {
    forall n :: s.base <= n < |s.log| && s.log[n].stage != Executing && s.now < s.log[n].ready ==> s.log[n].ready in events
  }

  ghost predicate StartsOk(s: Core) {
    && (forall n :: 0 <= n < |s.log| && s.log[n].stage != Issued ==> s.log[n].start <= s.now)
    && (forall n :: 0 <= n < |s.log| && s.log[n].stage == Completed ==> s.log[n].start <= s.log[n].ready)
  }

  ghost predicate RetiredOk(s: Core) {
    s.base <= |s.log| && forall n :: 0 <= n < s.base ==> Done(s.log[n], s.now)
  }

  /** The entries from n0 on belong to the latest instruction, the others are in program order. */
  ghost predicate ProgramOrder(s: Core, n0: nat) {
    && n0 <= |s.log|
    && (forall n :: 0 <= n < n0 ==> s.log[n].instr < s.instrs)
    && (forall n :: n0 <= n < |s.log| ==> s.log[n].instr == s.instrs)
    && (forall b, n :: 0 <= b < n < |s.log| ==> s.log[b].instr <= s.log[n].instr)
    && (forall b, n :: 0 <= b < n < |s.log| && s.log[b].instr == s.log[n].instr ==> s.log[b].dst == s.log[n].dst)
  }

  ghost predicate Ordered(s: Core) {
    forall b: nat, n: nat :: Must(s.log, b, n) ==> b < n < |s.log| && Precedes(s.log, b, n, s.now)
  }

  /** The invariant apart from call times, with the calls still to come given. */
  ghost predicate Sound(s: Core, events: set<int>, n0: nat) {
    DepsOk(s, events) && TimesOk(s, events) && StartsOk(s) && RetiredOk(s) && ProgramOrder(s, n0) && Ordered(s)
  }

  /** The calls to come while the core is being called: the present one counts. */
  function Pending(s: Core): set<int> {
    s.events + {s.now}
  }

  ghost predicate Mid(s: Core, n0: nat) {
    && Sound(s, Pending(s), n0)
    && forall e :: e in s.events ==> s.now <= e
  }

  // ---------------------------------------------------------------- dependencies on static facts

  predicate SameStatic(u: Uop, v: Uop) {
    v.(stage := u.stage, ready := u.ready, deps := u.deps, start := u.start) == u
  }

  ghost predicate SameProgram(a: seq<Uop>, b: seq<Uop>) {
    |a| == |b| && forall n :: 0 <= n < |a| ==> SameStatic(a[n], b[n])
  }

  lemma MustStatic(x: seq<Uop>, y: seq<Uop>, b: nat, n: nat)
    requires SameProgram(x, y)
    ensures Must(x, b, n) == Must(y, b, n) && Waits(x, b, n) == Waits(y, b, n)
  {
    if b < n < |x| {
      assert SameStatic(x[b], y[b]) && SameStatic(x[n], y[n]);
      forall r ensures LastWriter(x, b, n, r) == LastWriter(y, b, n, r) {
        forall m | b < m < n ensures Writes(x[m], r) == Writes(y[m], r) && x[m].instr == y[m].instr {
          assert SameStatic(x[m], y[m]);
        }
      }
    }
  }

  lemma ProgramOrderStatic(s: Core, s': Core, n0: nat)
    requires ProgramOrder(s, n0) && SameProgram(s.log, s'.log) && s'.instrs == s.instrs
    ensures ProgramOrder(s', n0)
  {
    forall n | 0 <= n < |s.log| ensures s'.log[n].instr == s.log[n].instr && s'.log[n].dst == s.log[n].dst {
      assert SameStatic(s.log[n], s'.log[n]);
    }
  }

  // ---------------------------------------------------------------- executing one entry

  /** What an attempt may do to entry i: nothing, or start it. */
  ghost predicate Starts(s: Core, i: nat, a: Attempt)
    requires i < |s.log|
  {
    var u := s.log[i];
    && SameStatic(u, a.u) && u.stage == Issued && a.u.stage != Issued && a.u.start == s.now && a.u.deps == u.deps
    && (a.u.stage == Completed ==> s.now <= a.u.ready && a.u.ready in a.events)
    && (u.deps == NoDeps || i == s.base)
    && forall e :: e in a.events ==> s.now <= e
  }

  lemma AttemptShape(c: Config, s: Core, i: nat, k: Units)
    requires ValidConfig(c) && s.base <= i < |s.log|
    ensures var a := TryExecute(c, s.log[i], i == s.base, s.flags, k, s.now);
      Starts(s, i, a) || (a.u == s.log[i] && forall e :: e in a.events ==> s.now <= e)
  {
  }

  lemma NoDependencies(s: Core, i: nat, events: set<int>, a: Attempt)
    requires s.base <= i < |s.log| && DepsOk(s, events) && Starts(s, i, a)
    ensures forall d :: !Has(s.log[i].deps, d)
  {
    forall d: int ensures !Has(s.log[i].deps, d) {
      assert Has(s.log[i].deps, d) ==> DepOk(s, events, i, d);
    }
  }

  /** Starting an entry without dependencies keeps the order of the program. */
  lemma StartOrdered(s: Core, i: nat, a: Attempt, n0: nat)
    requires s.base <= i < |s.log| && Mid(s, n0) && Starts(s, i, a)
    ensures Ordered(Put(s, i, a))
  {
    var s' := Put(s, i, a);
    NoDependencies(s, i, Pending(s), a);
    assert SameProgram(s.log, s'.log);
    forall b: nat, n: nat | Must(s'.log, b, n) ensures b < n < |s'.log| && Precedes(s'.log, b, n, s.now) {
      MustStatic(s.log, s'.log, b, n);
      assert Precedes(s.log, b, n, s.now);
      if n != i && s.log[n].stage == Issued && !Done(s.log[b], s.now) && !Has(s.log[n].deps, b) {
        var d :| Guards(s.log, b, n, d);
        MustStatic(s.log, s'.log, b, d);
        assert Guards(s'.log, b, n, d);
      }
    }
  }

  lemma StartSound(s: Core, i: nat, a: Attempt, n0: nat)
    requires s.base <= i < |s.log| && Mid(s, n0) && Starts(s, i, a)
    ensures Mid(Put(s, i, a), n0)
  {
    var s' := Put(s, i, a);
    NoDependencies(s, i, Pending(s), a);
    StartOrdered(s, i, a, n0);
    ProgramOrderStatic(s, s', n0);
    forall n: nat, d: int | n < |s'.log| && Has(s'.log[n].deps, d) ensures DepOk(s', Pending(s'), n, d) {
      assert DepOk(s, Pending(s), n, d);
    }
  }

  lemma HoldSound(s: Core, i: nat, a: Attempt, n0: nat)
    requires s.base <= i < |s.log| && Mid(s, n0) && a.u == s.log[i] && (forall e :: e in a.events ==> s.now <= e)
    ensures Mid(Put(s, i, a), n0)
  {
    var s' := Put(s, i, a);
    assert s'.log == s.log;
    forall n: nat, d: int | n < |s'.log| && Has(s'.log[n].deps, d) ensures DepOk(s', Pending(s'), n, d) {
      assert DepOk(s, Pending(s), n, d);
    }
  }

  lemma {:induction false} ExecuteSound(c: Config, s: Core, i: nat, k: Units, n0: nat)
    requires ValidConfig(c) && s.base <= i <= |s.log| && Mid(s, n0)
    ensures Mid(Execute(c, s, i, k), n0) && Execute(c, s, i, k).now == s.now
    decreases |s.log| - i
  {
    if i < |s.log| {
      var a := TryExecute(c, s.log[i], i == s.base, s.flags, k, s.now);
      AttemptShape(c, s, i, k);
      if Starts(s, i, a) { StartSound(s, i, a, n0); } else { HoldSound(s, i, a, n0); }
      if !a.stop { ExecuteSound(c, Put(s, i, a), i + 1, a.units, n0); }
    }
  }

  // ---------------------------------------------------------------- wake up

  /** After the wake-up nobody depends on an entry that has finished. */
  ghost predicate Awake(s: Core) {
    forall n: nat, d: int :: n < |s.log| && Has(s.log[n].deps, d) ==> Unfinished(s, d)
  }

  predicate Unfinished(s: Core, d: int) {
    0 <= d < |s.log| && !Done(s.log[d], s.now)
  }

  lemma WakeEntry(c: Config, s: Core, n: nat)
    requires s.base <= |s.log| && n < |s.log|
    ensures Wake(c, s).log[n] == if n < s.base then s.log[n] else WakeUop(s, s.log[n])
  {
  }

  /** Exactly the dependencies on entries that finish now disappear. */
  lemma WakeDeps(c: Config, s: Core, n: nat, d: int)
    requires s.base <= n < |s.log| && s.log[n].stage == Issued
    ensures var v := Wake(c, s).log[n];
      SameStatic(s.log[n], v) && v.stage == Issued && v.ready == s.log[n].ready
      && (Has(v.deps, d) <==> Has(s.log[n].deps, d) && !FinishesNow(s, d))
  {
    WakeEntry(c, s, n);
  }

  lemma WakeSame(c: Config, s: Core)
    requires s.base <= |s.log|
    ensures var s' := Wake(c, s);
      SameProgram(s.log, s'.log)
      && forall n :: 0 <= n < |s.log| ==> s'.log[n] == s.log[n].(deps := s'.log[n].deps)
                                          && (n < s.base || s.log[n].stage != Issued ==> s'.log[n] == s.log[n])
  {
    forall n: nat | n < |s.log|
      ensures var v := Wake(c, s).log[n];
        SameStatic(s.log[n], v) && v == s.log[n].(deps := v.deps)
        && (n < s.base || s.log[n].stage != Issued ==> v == s.log[n])
    {
      WakeEntry(c, s, n);
    }
  }

  lemma WakePrecedes(c: Config, s: Core, n0: nat, b: nat, n: nat)
    requires Mid(s, n0) && Must(s.log, b, n)
    ensures b < n < |s.log| && Precedes(Wake(c, s).log, b, n, s.now)
  {
    var log := Wake(c, s).log;
    WakeSame(c, s);
    assert Precedes(s.log, b, n, s.now);
    if s.log[n].stage == Issued && !Done(s.log[b], s.now) {
      assert n >= s.base;
      if Has(s.log[n].deps, b) {
        WakeDeps(c, s, n, b);
      } else {
        var d :| Guards(s.log, b, n, d);
        WakeDeps(c, s, n, d);
        assert Must(s.log, b, d);
        assert !FinishesNow(s, d) by { assert Precedes(s.log, b, d, s.now); }
        MustStatic(s.log, log, b, d);
        assert Guards(log, b, n, d);
      }
    }
  }

  lemma WakeDepsOk(c: Config, s: Core, n0: nat, n: nat, d: int)
    requires Mid(s, n0) && n < |s.log| && Has(Wake(c, s).log[n].deps, d)
    ensures var s' := Wake(c, s); DepOk(s', s'.events, n, d) && Unfinished(s', d)
  {
    WakeSame(c, s);
    assert Has(s.log[n].deps, d) by { if n >= s.base && s.log[n].stage == Issued { WakeDeps(c, s, n, d); } }
    assert DepOk(s, Pending(s), n, d);
    WakeDeps(c, s, n, d);
    assert forall e :: e in s.events ==> s.now <= e;
  }

  lemma WakeOrdered(c: Config, s: Core, n0: nat)
    requires Mid(s, n0)
    ensures Ordered(Wake(c, s))
  {
    var s' := Wake(c, s);
    WakeSame(c, s);
    forall b: nat, n: nat | Must(s'.log, b, n) ensures b < n < |s'.log| && Precedes(s'.log, b, n, s.now) {
      MustStatic(s.log, s'.log, b, n);
      WakePrecedes(c, s, n0, b, n);
    }
  }

  lemma WakeTimes(c: Config, s: Core, n0: nat)
    requires ValidConfig(c) && Mid(s, n0)
    ensures var s' := Wake(c, s);
      TimesOk(s', s'.events) && StartsOk(s') && RetiredOk(s') && ProgramOrder(s', n0)
      && forall e :: e in s'.events ==> s.now <= e
  {
    WakeSame(c, s);
    ProgramOrderStatic(s, Wake(c, s), n0);
  }

  lemma WakeSound(c: Config, s: Core, n0: nat)
    requires ValidConfig(c) && Mid(s, n0)
    ensures Sound(Wake(c, s), Wake(c, s).events, n0) && Awake(Wake(c, s))
    ensures forall e :: e in Wake(c, s).events ==> s.now <= e
  {
    var s' := Wake(c, s);
    WakeTimes(c, s, n0);
    WakeOrdered(c, s, n0);
    forall n: nat, d: int | n < |s'.log| && Has(s'.log[n].deps, d)
      ensures DepOk(s', s'.events, n, d) && Unfinished(s', d)
    {
      WakeDepsOk(c, s, n0, n, d);
    }
  }

  // ---------------------------------------------------------------- commit

  lemma RetireOne(s: Core, n0: nat)
    requires Sound(s, s.events, n0) && Awake(s) && HeadDone(s)
    ensures var s' := s.(base := s.base + 1); Sound(s', s'.events, n0) && Awake(s')
  {
    var s' := s.(base := s.base + 1);
    forall m: nat, d: int | m < |s.log| && Has(s.log[m].deps, d) ensures DepOk(s', s.events, m, d) && Unfinished(s', d) {
      assert DepOk(s, s.events, m, d) && Unfinished(s, d);
    }
  }

  lemma {:induction false} RetireSound(s: Core, n: nat, n0: nat)
    requires s.base <= |s.log| && Sound(s, s.events, n0) && Awake(s)
    ensures Sound(Retire(s, n), s.events, n0) && Awake(Retire(s, n))
    decreases n
  {
    hide Sound, Awake;
    if n > 0 && HeadDone(s) {
      RetireOne(s, n0);
      RetireSound(s.(base := s.base + 1), n - 1, n0);
    }
  }

  lemma MoreEvents(s: Core, s': Core, n0: nat)
    requires Sound(s, s.events, n0) && s.events <= s'.events && s'.log == s.log && s'.base == s.base
    requires s'.instrs == s.instrs && s'.now == s.now
    ensures Sound(s', s'.events, n0)
  {
    forall m: nat, d: int | m < |s.log| && Has(s.log[m].deps, d) ensures DepOk(s', s'.events, m, d) {
      assert DepOk(s, s.events, m, d);
    }
  }

  lemma CommitSound(c: Config, s: Core, n0: nat)
    requires Sound(s, s.events, n0) && Awake(s)
    ensures Sound(Commit(c, s), Commit(c, s).events, n0)
  {
    RetireSound(s, c.commitWidth, n0);
    MoreEvents(Retire(s, c.commitWidth), Commit(c, s), n0);
  }

  // ---------------------------------------------------------------- dispatch

  /** The search finds the newest unfinished answer. */
  lemma {:induction false} NewestFound(log: seq<Uop>, lo: nat, hi: nat, t: int, q: Query)
    requires hi <= |log|
    ensures var d := Newest(log, lo, hi, t, q);
      && (d == -1 || (lo <= d < hi && !Done(log[d], t) && Matches(q, log[d])))
      && forall j :: lo <= j < hi && d < j && Matches(q, log[j]) ==> Done(log[j], t)
    decreases hi
  {
    if lo < hi && (Done(log[hi - 1], t) || !Matches(q, log[hi - 1])) {
      NewestFound(log, lo, hi - 1, t, q);
    }
  }

  lemma {:induction false} NewestPrefix(log: seq<Uop>, more: seq<Uop>, lo: nat, hi: nat, t: int, q: Query)
    requires hi <= |log| <= |more| && more[..hi] == log[..hi]
    ensures Newest(log, lo, hi, t, q) == Newest(more, lo, hi, t, q)
    decreases hi
  {
    if lo < hi {
      assert more[hi - 1] == more[..hi][hi - 1] && log[hi - 1] == log[..hi][hi - 1];
      assert more[..hi - 1] == more[..hi][..hi - 1] && log[..hi - 1] == log[..hi][..hi - 1];
      NewestPrefix(log, more, lo, hi - 1, t, q);
    }
  }

  /** Any earlier answer has finished, or is found, or precedes the one that is found. */
  lemma NewestCovers(s: Core, hi: nat, q: Query, b: nat)
    requires hi <= |s.log| && RetiredOk(s) && b < hi && Matches(q, s.log[b])
    ensures var d := Newest(s.log, s.base, hi, s.now, q);
      Done(s.log[b], s.now) || d == b || (b < d < hi && Matches(q, s.log[d]))
  {
    NewestFound(s.log, s.base, hi, s.now, q);
  }

  /** The dependencies computed once per instruction, when the log was n0 long. */
  ghost predicate SharedOk(s: Core, i: Instr, shared: Deps, n0: nat)
    requires n0 <= |s.log|
  {
    && shared.branch == Newest(s.log, s.base, n0, s.now, MissedBranch)
    && shared.r0 == Newest(s.log, s.base, n0, s.now, WriterOf(i.src.r0))
    && shared.r1 == Newest(s.log, s.base, n0, s.now, WriterOf(i.src.r1))
    && shared.r2 == Newest(s.log, s.base, n0, s.now, WriterOf(i.src.r2))
    && shared.r3 == Newest(s.log, s.base, n0, s.now, WriterOf(i.src.r3))
  }

  function Previous(s: Core, n0: nat): int {
    if |s.log| > n0 then |s.log| - 1 else -1
  }

  ghost predicate Filling(c: Config, s: Core, i: Instr, shared: Deps, n0: nat) {
    && Mid(s, n0) && SharedOk(s, i, shared, n0)
    && (s.now + c.interval) in s.events
    && forall n :: n0 <= n < |s.log| ==> Fresh(s, i, n)
  }

  predicate Fresh(s: Core, i: Instr, n: int) {
    0 <= n < |s.log| && s.log[n].dst == i.dst && s.base <= n && s.log[n].stage == Issued
  }

  /** The new entry `u` depends on the newest unfinished answer to q among the first hi entries. */
  lemma GuardedBy(s: Core, u: Uop, hi: nat, q: Query, b: nat)
    requires hi <= |s.log| && RetiredOk(s) && b < hi && Matches(q, s.log[b])
    requires var d := Newest(s.log, s.base, hi, s.now, q); d != -1 ==> Has(u.deps, d)
    requires forall d: nat :: b < d < hi && Matches(q, s.log[d]) && !Done(s.log[b], s.now) ==> Waits(s.log + [u], b, d)
    requires u.stage == Issued
    ensures Precedes(s.log + [u], b, |s.log|, s.now)
  {
    NewestCovers(s, hi, q, b);
    var d := Newest(s.log, s.base, hi, s.now, q);
    if !Done(s.log[b], s.now) && b < d {
      assert Guards(s.log + [u], b, |s.log|, d);
    }
  }

  lemma NewAfterWriter(c: Config, s: Core, i: Instr, u: Uop, n0: nat, b: nat, r: nat)
    requires ValidConfig(c) && Filling(c, s, i, u.deps, n0) && u.instr == s.instrs && u.src == i.src && u.stage == Issued
    requires LastWriter(s.log + [u], b, |s.log|, r)
    ensures Precedes(s.log + [u], b, |s.log|, s.now)
  {
    var log := s.log + [u];
    assert log[b] == s.log[b] && b < n0;
    forall d: nat | b < d < n0 ensures !Matches(WriterOf(r), s.log[d]) {
      assert log[d] == s.log[d] && s.log[d].instr < s.instrs;
    }
    GuardedBy(s, u, n0, WriterOf(r), b);
  }

  lemma NewAfterBranch(c: Config, s: Core, i: Instr, u: Uop, n0: nat, b: nat)
    requires ValidConfig(c) && Filling(c, s, i, u.deps, n0) && u.stage == Issued
    requires b < n0 && s.log[b].missed
    ensures Precedes(s.log + [u], b, |s.log|, s.now)
  {
    var log := s.log + [u];
    forall d: nat | b < d < n0 && Matches(MissedBranch, s.log[d]) ensures Waits(log, b, d) {
      assert log[d] == s.log[d] && log[b] == s.log[b];
    }
    GuardedBy(s, u, n0, MissedBranch, b);
  }

  lemma NewAfterAccess(s: Core, u: Uop, b: nat)
    requires RetiredOk(s) && u.stage == Issued && b < |s.log| && SameWord(s.log[b], u)
    requires u.deps.mem == Newest(s.log, s.base, |s.log|, s.now, AccessTo(Word(u.addr)))
    ensures Precedes(s.log + [u], b, |s.log|, s.now)
  {
    var log, q := s.log + [u], AccessTo(Word(u.addr));
    forall d: nat | b < d < |s.log| && Matches(q, s.log[d]) ensures Waits(log, b, d) {
      assert log[d] == s.log[d] && log[b] == s.log[b];
      assert s.log[d].addr != 0;
    }
    GuardedBy(s, u, |s.log|, q, b);
  }

  lemma NewAfterPart(s: Core, u: Uop, b: nat)
    requires u.stage == Issued && b < |s.log| && s.log[b].instr == s.log[|s.log| - 1].instr && u.deps.instr == |s.log| - 1
    ensures Precedes(s.log + [u], b, |s.log|, s.now)
  {
    var log, n := s.log + [u], |s.log|;
    if b < n - 1 {
      assert Waits(log, b, n - 1);
      assert Guards(log, b, n, n - 1);
    }
  }

  /** Everything that must precede a new entry has finished or is waited for. */
  lemma NewPrecedes(c: Config, s: Core, i: Instr, shared: Deps, n0: nat, a: Access, b: nat)
    requires ValidConfig(c) && Filling(c, s, i, shared, n0)
    requires var u := NewUop(c, s, i, shared, Previous(s, n0), a); Must(s.log + [u], b, |s.log|)
    ensures var u := NewUop(c, s, i, shared, Previous(s, n0), a); Precedes(s.log + [u], b, |s.log|, s.now)
  {
    var n, u := |s.log|, NewUop(c, s, i, shared, Previous(s, n0), a);
    var log := s.log + [u];
    assert SharedOk(s, i, u.deps, n0);
    hide Precedes;
    if r :| LastWriter(log, b, n, r) {
      NewAfterWriter(c, s, i, u, n0, b, r);
    } else if log[b].instr == log[n].instr {
      NewAfterPart(s, u, b);
    } else if log[b].missed && log[b].instr < log[n].instr {
      NewAfterBranch(c, s, i, u, n0, b);
    } else {
      NewAfterAccess(s, u, b);
    }
  }

  lemma AppendOrdered(c: Config, s: Core, i: Instr, shared: Deps, n0: nat, a: Access)
    requires ValidConfig(c) && Filling(c, s, i, shared, n0)
    ensures Ordered(Append(s, NewUop(c, s, i, shared, Previous(s, n0), a)))
  {
    var u := NewUop(c, s, i, shared, Previous(s, n0), a);
    var log := s.log + [u];
    forall b: nat, n: nat | Must(log, b, n) ensures b < n < |log| && Precedes(log, b, n, s.now) {
      if n == |s.log| {
        NewPrecedes(c, s, i, shared, n0, a, b);
      } else {
        OlderKept(s, u, b, n);
      }
    }
  }

  /** Nothing changes between two older entries. */
  lemma OlderKept(s: Core, u: Uop, b: nat, n: nat)
    requires Ordered(s) && n != |s.log| && Must(s.log + [u], b, n)
    ensures b < n < |s.log| && Precedes(s.log + [u], b, n, s.now)
  {
    var log := s.log + [u];
    assert Must(s.log, b, n) by {
      if r :| LastWriter(log, b, n, r) {
        assert forall m :: 0 <= m < |s.log| ==> log[m] == s.log[m];
        assert LastWriter(s.log, b, n, r) by {
          forall m | b < m < n && Writes(s.log[m], r) ensures s.log[m].instr == s.log[n].instr { assert Writes(log[m], r); }
        }
      }
    }
    assert Precedes(s.log, b, n, s.now);
    if d :| Guards(s.log, b, n, d) { assert Guards(log, b, n, d); }
  }

  lemma NewDeps(c: Config, s: Core, i: Instr, shared: Deps, n0: nat, a: Access, d: int)
    requires ValidConfig(c) && Filling(c, s, i, shared, n0)
    requires shared.mem == shared.instr == -1
    requires var u := NewUop(c, s, i, shared, Previous(s, n0), a); Has(u.deps, d)
    ensures s.base <= d < |s.log| && (s.log[d].stage == Completed ==> s.log[d].ready > s.now)
  {
    NewestFound(s.log, s.base, n0, s.now, MissedBranch);
    NewestFound(s.log, s.base, n0, s.now, WriterOf(i.src.r0));
    NewestFound(s.log, s.base, n0, s.now, WriterOf(i.src.r1));
    NewestFound(s.log, s.base, n0, s.now, WriterOf(i.src.r2));
    NewestFound(s.log, s.base, n0, s.now, WriterOf(i.src.r3));
    NewestFound(s.log, s.base, |s.log|, s.now, AccessTo(Word(a.addr)));
    assert |s.log| > n0 ==> Fresh(s, i, |s.log| - 1);
  }

  lemma AppendDeps(c: Config, s: Core, i: Instr, shared: Deps, n0: nat, a: Access)
    requires ValidConfig(c) && Filling(c, s, i, shared, n0) && shared.mem == shared.instr == -1
    ensures var s' := Append(s, NewUop(c, s, i, shared, Previous(s, n0), a)); DepsOk(s', Pending(s'))
  {
    var s' := Append(s, NewUop(c, s, i, shared, Previous(s, n0), a));
    forall n: nat, d: int | n < |s'.log| && Has(s'.log[n].deps, d) ensures DepOk(s', Pending(s'), n, d) {
      if n == |s.log| {
        NewDeps(c, s, i, shared, n0, a, d);
      } else {
        assert DepOk(s, Pending(s), n, d);
      }
    }
  }

  lemma AppendShared(c: Config, s: Core, i: Instr, shared: Deps, n0: nat, u: Uop)
    requires n0 <= |s.log| && SharedOk(s, i, shared, n0)
    ensures SharedOk(Append(s, u), i, shared, n0)
  {
    var more := s.log + [u];
    assert more[..n0] == s.log[..n0];
    NewestPrefix(s.log, more, s.base, n0, s.now, MissedBranch);
    NewestPrefix(s.log, more, s.base, n0, s.now, WriterOf(i.src.r0));
    NewestPrefix(s.log, more, s.base, n0, s.now, WriterOf(i.src.r1));
    NewestPrefix(s.log, more, s.base, n0, s.now, WriterOf(i.src.r2));
    NewestPrefix(s.log, more, s.base, n0, s.now, WriterOf(i.src.r3));
  }

  lemma AppendFilling(c: Config, s: Core, i: Instr, shared: Deps, n0: nat, a: Access)
    requires ValidConfig(c) && Filling(c, s, i, shared, n0) && shared.mem == shared.instr == -1
    ensures Filling(c, Append(s, NewUop(c, s, i, shared, Previous(s, n0), a)), i, shared, n0)
  {
    var u := NewUop(c, s, i, shared, Previous(s, n0), a);
    AppendOrdered(c, s, i, shared, n0, a);
    AppendDeps(c, s, i, shared, n0, a);
    AppendShared(c, s, i, shared, n0, u);
    hide Ordered, DepsOk, SharedOk;
    AppendRest(c, s, i, shared, n0, u);
  }

  lemma AppendRest(c: Config, s: Core, i: Instr, shared: Deps, n0: nat, u: Uop)
    requires ValidConfig(c) && Filling(c, s, i, shared, n0)
    requires u.stage == Issued && u.ready == s.now + c.interval && u.instr == s.instrs && u.dst == i.dst
    ensures var s' := Append(s, u);
      && TimesOk(s', Pending(s')) && StartsOk(s') && RetiredOk(s') && ProgramOrder(s', n0)
      && forall n :: n0 <= n < |s'.log| ==> Fresh(s', i, n)
  {
    hide Ordered, DepsOk, SharedOk;
    var s' := Append(s, u);
    forall n | n0 <= n < |s'.log| ensures Fresh(s', i, n) {
      assert n < |s.log| ==> Fresh(s, i, n);
    }
    assert forall n :: 0 <= n < |s.log| ==> s'.log[n] == s.log[n];
    if |s.log| > n0 { assert Fresh(s, i, |s.log| - 1); }
  }

  lemma {:induction false} FillSound(c: Config, s: Core, i: Instr, shared: Deps, n0: nat, todo: seq<Access>)
    requires ValidConfig(c) && Filling(c, s, i, shared, n0) && shared.mem == shared.instr == -1
    ensures Filling(c, Fill(c, s, i, shared, Previous(s, n0), todo), i, shared, n0)
    decreases |todo|
  {
    if todo != [] {
      AppendFilling(c, s, i, shared, n0, todo[0]);
      hide Filling;
      FillSound(c, Append(s, NewUop(c, s, i, shared, Previous(s, n0), todo[0])), i, shared, n0, todo[1..]);
    }
  }
}
