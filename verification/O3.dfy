/** The out-of-order core as a state machine.  Micro-operations are kept in an append-only log in
    program order; the reorder buffer is the part of the log from `base` on, so a dependency is the
    absolute position of the micro-operation that is waited for (-1 for none).  The circular buffer
    with its re-used slots is the business of module OutOfOrderCore. */
module O3 {
  import opened Arithmetic

  datatype Kind = Notify | WaitFor | BranchTaken | BranchNotTaken | X87 | Lock | Unlock | Barrier | Plain

  datatype Stage = Issued | Executing | Completed

  datatype Regs = Regs(r0: nat, r1: nat, r2: nat, r3: nat)

  /** What an entry waits for; the last four stand for its source registers. */
  datatype Deps = Deps(mem: int, instr: int, branch: int, r0: int, r1: int, r2: int, r3: int)

  /** An entry of the reorder buffer.  `instr` numbers the instruction it belongs to, `src` are that
      instruction's source registers and `start` is the time it left the issued stage: these three
      are history, no step depends on them. */
  datatype Uop = Uop(stage: Stage, ready: int, addr: nat, isRead: bool, missed: bool, kind: Kind,
                     dst: Regs, deps: Deps, instr: nat, src: Regs, start: int)

  datatype QueueState = NotInQueue | BeingLoaded | Loaded | Dispatched

  /** An entry of the instruction queue.  `missed` is what the branch predictor says of it. */
  datatype Instr = Instr(state: QueueState, ready: int, ip: nat, raddr: nat, raddr2: nat, waddr: nat,
                         kind: Kind, src: Regs, dst: Regs, missed: bool)

  datatype Config = Config(robSize: nat, queueSize: nat, issueWidth: nat, commitWidth: nat,
                           maxAlu: int, maxLdst: int, maxLd: int, maxSt: int, maxSse: int,
                           interval: int, missPenalty: int, lockT: int, unlockT: int, barrierT: int, sseT: int,
                           lineSize: nat, inOrder: bool)

  predicate ValidConfig(c: Config) {
    && c.robSize >= 4 && c.queueSize > 0 && c.interval > 0 && c.lineSize > 0
    && c.missPenalty >= 0 && c.lockT >= 0 && c.unlockT >= 0 && c.barrierT >= 0 && c.sseT >= 0
  }

  /** `events` are the future times at which the core is called, `flags` the migration flags that the
      cores share, `instrs` the number of instructions dispatched. */
  datatype Core = Core(log: seq<Uop>, base: nat, queue: seq<Instr>, events: set<int>, flags: set<nat>,
                       active: bool, now: int, instrs: nat)

  // ---------------------------------------------------------------- dependencies

  const NoDeps := Deps(-1, -1, -1, -1, -1, -1, -1)

  predicate Has(x: Deps, d: int) {
    && d != -1
    && (d == x.mem || d == x.instr || d == x.branch || d == x.r0 || d == x.r1 || d == x.r2 || d == x.r3)
  }

  predicate Done(u: Uop, t: int) {
    u.stage == Completed && u.ready <= t
  }

  predicate Writes(u: Uop, r: nat) {
    r != 0 && (r == u.dst.r0 || r == u.dst.r1 || r == u.dst.r2 || r == u.dst.r3)
  }

  function Word(addr: nat): nat {
    addr / 8
  }

  /** What a new entry looks for among the older ones. */
  datatype Query = MissedBranch | WriterOf(r: nat) | AccessTo(word: nat)

  predicate Matches(q: Query, u: Uop) {
    match q
    case MissedBranch => u.missed
    case WriterOf(r) => Writes(u, r)
    case AccessTo(w) => Word(u.addr) == w
  }

  /** The newest unfinished entry of log[lo..hi] that answers the query. */
  function Newest(log: seq<Uop>, lo: nat, hi: nat, t: int, q: Query): (d: int)
    requires hi <= |log|
    decreases hi
  {
    if hi <= lo then -1
    else if !Done(log[hi - 1], t) && Matches(q, log[hi - 1]) then hi - 1
    else Newest(log, lo, hi - 1, t, q)
  }

  // ---------------------------------------------------------------- dispatch

  datatype Access = Access(addr: nat, isRead: bool)

  /** The entries an instruction takes: one per memory operand, or one without memory. */
  function Accesses(i: Instr): seq<Access> {
    if i.raddr == 0 && i.raddr2 == 0 && i.waddr == 0 then [Access(0, false)]
    else (if i.raddr != 0 then [Access(i.raddr, true)] else [])
         + (if i.raddr2 != 0 then [Access(i.raddr2, true)] else [])
         + (if i.waddr != 0 then [Access(i.waddr, false)] else [])
  }

  /** The dependencies that all entries of an instruction share. */
  function InstrDeps(s: Core, i: Instr): Deps
    requires s.base <= |s.log|
  {
    var n := |s.log|;
    Deps(-1, -1, Newest(s.log, s.base, n, s.now, MissedBranch),
         Newest(s.log, s.base, n, s.now, WriterOf(i.src.r0)), Newest(s.log, s.base, n, s.now, WriterOf(i.src.r1)),
         Newest(s.log, s.base, n, s.now, WriterOf(i.src.r2)), Newest(s.log, s.base, n, s.now, WriterOf(i.src.r3)))
  }

  function NewUop(c: Config, s: Core, i: Instr, shared: Deps, previous: int, a: Access): Uop
    requires s.base <= |s.log|
  {
    var mem := if a.addr == 0 then -1 else Newest(s.log, s.base, |s.log|, s.now, AccessTo(Word(a.addr)));
    Uop(Issued, s.now + c.interval, a.addr, a.isRead, i.missed, i.kind, i.dst,
        shared.(mem := mem, instr := previous), s.instrs, i.src, s.now)
  }

  function Append(s: Core, u: Uop): Core {
    s.(log := s.log + [u])
  }

  function Fill(c: Config, s: Core, i: Instr, shared: Deps, previous: int, todo: seq<Access>): (s': Core)
    requires s.base <= |s.log|
    ensures |s'.log| == |s.log| + |todo| && s'.base == s.base && s' == s.(log := s'.log)
    decreases |todo|
  {
    if todo == [] then s
    else Fill(c, Append(s, NewUop(c, s, i, shared, previous, todo[0])), i, shared, |s.log|, todo[1..])
  }

  predicate CanDispatch(c: Config, s: Core) {
    && s.queue != [] && |s.log| - s.base < c.robSize - 3
    && s.queue[0].state == Loaded && s.queue[0].ready <= s.now
  }

  function Announce(c: Config, s: Core): Core {
    s.(events := s.events + {s.now + c.interval})
  }

  function DispatchOne(c: Config, s: Core): (s': Core)
    requires s.base <= |s.log| && CanDispatch(c, s)
    ensures |s.log| < |s'.log| <= |s.log| + 3 && s'.base == s.base && s'.now == s.now
  {
    var i := s.queue[0];
    var s1 := Fill(c, Announce(c, s), i, InstrDeps(s, i), -1, Accesses(i));
    s1.(queue := s.queue[1..], instrs := s.instrs + 1)
  }

  function Dispatch(c: Config, s: Core, n: nat): (s': Core)
    requires s.base <= |s.log|
    ensures s'.base == s.base <= |s'.log| && s'.now == s.now
    decreases n
  {
    if n > 0 && CanDispatch(c, s) then Dispatch(c, DispatchOne(c, s), n - 1) else s
  }

  // ---------------------------------------------------------------- execute

  /** Functional units used in the current call. */
  datatype Units = Units(alu: int, ldst: int, ld: int, st: int, sse: int)

  /** The outcome of looking at one entry: the new entry, the times at which the core is called again,
      the flags, the units used, and whether younger entries are left for a later call. */
  datatype Attempt = Attempt(u: Uop, events: set<int>, flags: set<nat>, units: Units, stop: bool)

  function Latency(c: Config, u: Uop): int {
    if u.kind == Lock then c.lockT
    else if u.kind == Unlock then c.unlockT
    else if u.kind == Barrier then c.barrierT
    else if u.kind == X87 then c.sseT
    else if u.missed then c.missPenalty + c.interval
    else c.interval
  }

  function Finish(u: Uop, t: int, ready: int): Uop {
    u.(stage := Completed, ready := ready, start := t)
  }

  function Hold(c: Config, u: Uop, flags: set<nat>, k: Units, t: int, stop: bool): Attempt {
    Attempt(u, if stop then {t + c.interval} else {}, flags, k, stop)
  }

  predicate AluFree(c: Config, u: Uop, k: Units) {
    k.alu < c.maxAlu && (u.kind == X87 ==> k.sse < c.maxSse)
  }

  predicate PortFree(c: Config, u: Uop, k: Units) {
    k.ldst < c.maxLdst && (if u.isRead then k.ld < c.maxLd else k.st < c.maxSt)
  }

  function TryExecute(c: Config, u: Uop, oldest: bool, flags: set<nat>, k: Units, t: int): Attempt {
    if u.stage != Issued || t < u.ready then Hold(c, u, flags, k, t, c.inOrder)
    else if u.kind == Notify then
      if oldest then Attempt(Finish(u, t, t + c.barrierT), {t + c.barrierT}, flags + {u.dst.r0}, k, false)
      else Hold(c, u, flags, k, t, true)
    else if u.kind == WaitFor then
      if oldest && u.dst.r0 in flags then
        Attempt(Finish(u, t, t + c.interval), {t + c.interval}, flags - {u.dst.r0}, k, false)
      else Hold(c, u, flags, k, t, true)
    else if u.deps != NoDeps then Hold(c, u, flags, k, t, c.inOrder)
    else if u.addr == 0 then
      if AluFree(c, u, k) then
        Attempt(Finish(u, t, t + Latency(c, u)), {t + Latency(c, u)}, flags,
                k.(alu := k.alu + 1, sse := k.sse + if u.kind == X87 then 1 else 0), false)
      else Hold(c, u, flags, k, t, false)
    else
      if PortFree(c, u, k) then
        Attempt(u.(stage := Executing, start := t), {}, flags,
                k.(ldst := k.ldst + 1, ld := k.ld + if u.isRead then 1 else 0, st := k.st + if u.isRead then 0 else 1),
                false)
      else Hold(c, u, flags, k, t, false)
  }

  function Put(s: Core, i: nat, a: Attempt): Core
    requires i < |s.log|
  {
    s.(log := s.log[i := a.u], events := s.events + a.events, flags := a.flags)
  }

  function Execute(c: Config, s: Core, i: nat, k: Units): (s': Core)
    requires s.base <= i <= |s.log|
    ensures |s'.log| == |s.log| && s'.base == s.base && s'.now == s.now
    decreases |s.log| - i
  {
    if i == |s.log| then s
    else
      var a := TryExecute(c, s.log[i], i == s.base, s.flags, k, s.now);
      if a.stop then Put(s, i, a) else Execute(c, Put(s, i, a), i + 1, a.units)
  }

  // ---------------------------------------------------------------- wake up and commit

  /** The dependency d once everything that finishes exactly now has been announced. */
  function Cleared(s: Core, d: int): int {
    if s.base <= d < |s.log| && s.log[d].stage == Completed && s.log[d].ready == s.now then -1 else d
  }

  function WakeUop(s: Core, u: Uop): Uop {
    if u.stage != Issued then u
    else
      var x := u.deps;
      u.(deps := Deps(Cleared(s, x.mem), Cleared(s, x.instr), Cleared(s, x.branch),
                      Cleared(s, x.r0), Cleared(s, x.r1), Cleared(s, x.r2), Cleared(s, x.r3)))
  }

  predicate FinishesNow(s: Core, i: int) {
    s.base <= i < |s.log| && s.log[i].stage == Completed && s.log[i].ready == s.now
  }

  function Wake(c: Config, s: Core): (s': Core)
    requires s.base <= |s.log|
    ensures |s'.log| == |s.log| && s'.base == s.base && s'.now == s.now
  {
    s.(log := s.log[..s.base] + seq(|s.log| - s.base, i requires 0 <= i < |s.log| - s.base => WakeUop(s, s.log[s.base + i])),
       events := s.events + if exists i :: 0 <= i < |s.log| && FinishesNow(s, i) then {s.now + c.interval} else {})
  }

  predicate HeadDone(s: Core) {
    s.base < |s.log| && Done(s.log[s.base], s.now)
  }

  function Retire(s: Core, n: nat): (s': Core)
    requires s.base <= |s.log|
    ensures s.base <= s'.base <= |s'.log| && s' == s.(base := s'.base)
    decreases n
  {
    if n > 0 && HeadDone(s) then Retire(s.(base := s.base + 1), n - 1) else s
  }

  function Commit(c: Config, s: Core): (s': Core)
    requires s.base <= |s.log|
    ensures s.base <= s'.base <= |s'.log|
  {
    var s1 := Retire(s, c.commitWidth);
    if HeadDone(s1) then s1.(events := s1.events + {s.now + c.interval}) else s1
  }

  // ---------------------------------------------------------------- fetch

  function Line(c: Config, ip: nat): nat
    requires c.lineSize > 0
  {
    ip / c.lineSize
  }

  function LineStart(c: Config, ip: nat): nat
    requires c.lineSize > 0
  {
    Line(c, ip) * c.lineSize
  }

  /** One line of the instruction cache is asked for: the one of the oldest instruction not yet in the
      queue.  `addr` is the address asked for so far, 0 for none. */
  function Fetch(c: Config, q: seq<Instr>, addr: nat): (r: seq<Instr>)
    requires c.lineSize > 0
    ensures |r| == |q|
  {
    if q == [] then []
    else if q[0].state == NotInQueue && addr == 0 then
      [q[0].(state := BeingLoaded)] + Fetch(c, q[1..], LineStart(c, q[0].ip))
    else if q[0].state == NotInQueue && Line(c, addr) == Line(c, q[0].ip) then
      [q[0].(state := BeingLoaded)] + Fetch(c, q[1..], addr)
    else [q[0]] + Fetch(c, q[1..], addr)
  }

  // ---------------------------------------------------------------- one call

  predicate Callable(s: Core, t: int) {
    t in s.events && s.now <= t && forall e :: e in s.events ==> t <= e
  }

  function Called(s: Core, t: int): Core {
    s.(now := t, events := s.events - {t})
  }

  predicate Starved(c: Config, s: Core) {
    |s.queue| <= c.queueSize / 2 && s.active
  }

  /** One call of the core at time t. */
  function Process(c: Config, s: Core, t: int): (s': Core)
    requires c.lineSize > 0 && s.base <= |s.log|
  {
    var s0 := Called(s, t);
    if Starved(c, s) then s0.(events := s0.events + {t})
    else
      var s1 := s0.(queue := Fetch(c, s.queue, 0));
      var s2 := Dispatch(c, s1, c.issueWidth);
      var s3 := Execute(c, s2, s2.base, Units(0, 0, 0, 0, 0));
      Commit(c, Wake(c, s3))
  }

  // ---------------------------------------------------------------- runs

  /** What can happen to a core between two states: it is called, an instruction arrives (with a call
      when the queue was empty), a line comes back from the instruction cache, the access of an
      executing entry is answered, another core changes the flags, or the core is (de)activated. */
  datatype Action =
    | Call(t: int)
    | Enqueue(i: Instr, time: int, wake: bool)
    | LineReply(addr: nat, time: int)
    | Reply(n: nat, time: int)
    | SetFlags(flags: set<nat>)
    | SetActive(active: bool)

  predicate Enabled(c: Config, s: Core, a: Action) {
    match a
    case Call(t) => Callable(s, t)
    case Enqueue(i, time, wake) => s.now <= time && i.state == NotInQueue
    case LineReply(addr, time) => s.now <= time
    case Reply(n, time) => s.now <= time && n < |s.log| && s.log[n].stage == Executing
    case SetFlags(flags) => true
    case SetActive(active) => true
  }

  function Delivered(c: Config, q: seq<Instr>, addr: nat, t: int): (r: seq<Instr>)
    requires c.lineSize > 0
    ensures |r| == |q|
  {
    if q == [] then []
    else
      [if q[0].state == BeingLoaded && Line(c, addr) == Line(c, q[0].ip) then q[0].(state := Loaded, ready := t) else q[0]]
      + Delivered(c, q[1..], addr, t)
  }

  function ReplyTime(c: Config, u: Uop, time: int): int
    requires c.interval > 0
  {
    CeilBy(time, c.interval) + if u.missed then c.missPenalty else 0
  }

  function Answer(c: Config, s: Core, n: nat, time: int): Core
    requires c.interval > 0 && n < |s.log|
  {
    var ready := ReplyTime(c, s.log[n], time);
    s.(log := s.log[n := s.log[n].(stage := Completed, ready := ready)],
       events := s.events + {CeilBy(time, c.interval), ready})
  }

  function Next(c: Config, s: Core, a: Action): Core
    requires ValidConfig(c) && s.base <= |s.log| && Enabled(c, s, a)
  {
    match a
    case Call(t) => Process(c, s, t)
    case Enqueue(i, time, wake) =>
      s.(queue := if |s.queue| < c.queueSize then s.queue + [i] else s.queue,
         events := s.events + if s.queue == [] && wake then {time} else {})
    case LineReply(addr, time) =>
      var t := CeilBy(time, c.interval);
      s.(queue := Delivered(c, s.queue, addr, t), events := s.events + {t})
    case Reply(n, time) => Answer(c, s, n, time)
    case SetFlags(flags) => s.(flags := flags)
    case SetActive(active) => s.(active := active)
  }

  const Initial := Core([], 0, [], {}, {}, false, 0, 0)

  /** s' is reached from s by the actions in order. */
  ghost predicate Run(c: Config, s: Core, actions: seq<Action>, s': Core)
    requires ValidConfig(c)
    decreases |actions|
  {
    if actions == [] then s' == s
    else s.base <= |s.log| && Enabled(c, s, actions[0]) && Run(c, Next(c, s, actions[0]), actions[1..], s')
  }
}
