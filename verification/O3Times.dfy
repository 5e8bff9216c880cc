/** How long entries take, which instructions are fetched, and which calls are asked for. */
module O3Times {
  import opened Arithmetic
  import opened O3
  import opened O3Safety
  import opened O3Runs
  import opened O3Program
  import opened O3Calls

  // ---------------------------------------------------------------- how long entries take

  /** An entry without memory takes the time of its kind; only accesses are under way. */
  predicate Timed(c: Config, u: Uop) {
    && (u.stage == Executing ==> u.addr != 0 && !Syncs(u))
    && (u.stage == Completed && u.kind == Notify ==> u.ready == u.start + c.barrierT)
    && (u.stage == Completed && u.kind == WaitFor ==> u.ready == u.start + c.interval)
    && (u.stage == Completed && u.addr == 0 && !Syncs(u) ==>
          match u.kind
          case Lock => u.ready == u.start + c.lockT
          case Unlock => u.ready == u.start + c.unlockT
          case Barrier => u.ready == u.start + c.barrierT
          case X87 => u.ready == u.start + c.sseT
          case _ => u.ready == u.start + c.interval + if u.missed then c.missPenalty else 0)
  }

  ghost predicate AllTimed(c: Config, log: seq<Uop>) {
    forall n :: 0 <= n < |log| ==> Timed(c, log[n])
  }

  lemma AttemptTimed(c: Config, u: Uop, oldest: bool, flags: set<nat>, k: Units, t: int)
    requires Timed(c, u)
    ensures Timed(c, TryExecute(c, u, oldest, flags, k, t).u)
  {
  }

  lemma {:induction false} ExecuteTimed(c: Config, s: Core, i: nat, k: Units)
    requires s.base <= i <= |s.log| && AllTimed(c, s.log)
    ensures AllTimed(c, Execute(c, s, i, k).log)
    decreases |s.log| - i
  {
    if i < |s.log| {
      var a := TryExecute(c, s.log[i], i == s.base, s.flags, k, s.now);
      AttemptTimed(c, s.log[i], i == s.base, s.flags, k, s.now);
      hide TryExecute, Timed;
      if !a.stop { ExecuteTimed(c, Put(s, i, a), i + 1, a.units); }
    }
  }

  lemma {:induction false} FillTimed(c: Config, s: Core, i: Instr, shared: Deps, previous: int, todo: seq<Access>)
    requires s.base <= |s.log| && AllTimed(c, s.log)
    ensures AllTimed(c, Fill(c, s, i, shared, previous, todo).log)
    decreases |todo|
  {
    if todo != [] {
      var u := NewUop(c, s, i, shared, previous, todo[0]);
      assert Timed(c, u);
      hide Timed, NewUop;
      FillTimed(c, Append(s, u), i, shared, |s.log|, todo[1..]);
    }
  }

  lemma {:induction false} DispatchTimed(c: Config, s: Core, n: nat)
    requires s.base <= |s.log| && AllTimed(c, s.log)
    ensures AllTimed(c, Dispatch(c, s, n).log)
    decreases n
  {
    if n > 0 && CanDispatch(c, s) {
      FillTimed(c, Announce(c, s), s.queue[0], InstrDeps(s, s.queue[0]), -1, Accesses(s.queue[0]));
      hide AllTimed, Accesses, InstrDeps;
      DispatchTimed(c, DispatchOne(c, s), n - 1);
    }
  }

  lemma StagedTimed(c: Config, s: Core, t: int)
    requires ValidConfig(c) && s.base <= |s.log| && AllTimed(c, s.log)
    ensures var s2 := Staged(c, s, t); AllTimed(c, Execute(c, s2, s2.base, Units(0, 0, 0, 0, 0)).log)
  {
    hide AllTimed, Execute, Fetch, Dispatch;
    DispatchTimed(c, Called(s, t).(queue := Fetch(c, s.queue, 0)), c.issueWidth);
    ExecuteTimed(c, Staged(c, s, t), s.base, Units(0, 0, 0, 0, 0));
  }

  lemma SameTimed(c: Config, a: seq<Uop>, b: seq<Uop>)
    requires |a| == |b| && AllTimed(c, a) && forall n :: 0 <= n < |a| ==> b[n] == a[n].(deps := b[n].deps)
    ensures AllTimed(c, b)
  {
    forall n | 0 <= n < |b| ensures Timed(c, b[n]) { assert Timed(c, a[n]); }
  }

  lemma ProcessTimed(c: Config, s: Core, t: int)
    requires ValidConfig(c) && s.base <= |s.log| && AllTimed(c, s.log)
    ensures AllTimed(c, Process(c, s, t).log)
  {
    if !Starved(c, s) {
      assert c.lineSize > 0;
      hide *;
      ProcessStages(c, s, t);
      StagedTimed(c, s, t);
      var s2 := Staged(c, s, t);
      SameTimed(c, Execute(c, s2, s2.base, Units(0, 0, 0, 0, 0)).log, Process(c, s, t).log);
    }
  }

  lemma {:induction false} RunTimed(c: Config, s: Core, actions: seq<Action>, s': Core)
    requires ValidConfig(c) && Run(c, s, actions, s') && AllTimed(c, s.log)
    ensures AllTimed(c, s'.log)
    decreases |actions|
  {
    if actions != [] {
      match actions[0] {
        case Call(t) => ProcessTimed(c, s, t);
        case _ =>
      }
      hide Process, AllTimed;
      RunTimed(c, Next(c, s, actions[0]), actions[1..], s');
    }
  }

  /** In every reachable state each finished entry without memory has taken the time of its kind. */
  lemma TakesItsTime(c: Config, s: Core, n: nat)
    requires Reachable(c, s) && n < |s.log|
    ensures Timed(c, s.log[n])
  {
    var actions :| Run(c, Initial, actions, s);
    RunTimed(c, Initial, actions, s);
  }

  /** The answer of the memory finishes exactly its entry, at the next multiple of the interval or, after a
      mispredicted branch, the penalty later, and the core is called for it. */
  lemma AnswerFinishes(c: Config, s: Core, n: nat, time: int)
    requires ValidConfig(c) && s.base <= |s.log| && Enabled(c, s, Reply(n, time))
    ensures var s', u := Next(c, s, Reply(n, time)), s.log[n];
      var t := s'.log[n].ready - if u.missed then c.missPenalty else 0;
      && s'.log[n] == u.(stage := Completed, ready := s'.log[n].ready)
      && t % c.interval == 0 && time <= t < time + c.interval
      && s'.events == s.events + {t, s'.log[n].ready} && |s'.log| == |s.log|
      && forall m :: 0 <= m < |s.log| && m != n ==> s'.log[m] == s.log[m]
  {
  }

  // ---------------------------------------------------------------- fetch

  /** The instructions before j that are not in the queue yet are all in line 0, which looks like no line. */
  predicate OnlyLineZeroBefore(c: Config, q: seq<Instr>, j: int)
    requires c.lineSize > 0
  {
    forall i :: 0 <= i < j && i < |q| && q[i].state == NotInQueue ==> Line(c, q[i].ip) == 0
  }

  /** The line asked for: that of the oldest instruction outside line 0 that is not in the queue yet. */
  ghost predicate Wanted(c: Config, q: seq<Instr>, line: nat)
    requires c.lineSize > 0
  {
    exists j :: 0 <= j < |q| && q[j].state == NotInQueue && line == Line(c, q[j].ip) != 0 && OnlyLineZeroBefore(c, q, j)
  }

  lemma LineOfStart(c: Config, ip: nat)
    requires c.lineSize > 0
    ensures Line(c, LineStart(c, ip)) == Line(c, ip) && (LineStart(c, ip) == 0 <==> Line(c, ip) == 0)
  {
    MulMod(Line(c, ip), c.lineSize);
    DivModUnique(LineStart(c, ip), c.lineSize, Line(c, ip), 0);
  }

  /** What a call does to instruction j of the queue: it is being loaded from now on if it was not in the
      queue yet and is of the line that is asked for; the others stay as they are. */
  predicate FetchedAt(c: Config, q: seq<Instr>, r: seq<Instr>, j: nat, asked: bool)
    requires j < |q| == |r|
  {
    r[j] == if q[j].state == NotInQueue && asked then q[j].(state := BeingLoaded) else q[j]
  }

  lemma {:induction false} FetchRest(c: Config, q: seq<Instr>, addr: nat, j: nat)
    requires c.lineSize > 0 && addr != 0 && Line(c, addr) != 0 && j < |q|
    ensures FetchedAt(c, q, Fetch(c, q, addr), j, Line(c, q[j].ip) == Line(c, addr))
    decreases |q|
  {
    if j > 0 {
      FetchRest(c, q[1..], addr, j - 1);
    }
  }

  /** Exactly the instructions of one line are asked for: those of the line of the oldest one not in the
      queue yet.  Instructions of line 0 in front of it are asked for as well. */
  lemma {:induction false} FetchExact(c: Config, q: seq<Instr>, j: nat)
    requires c.lineSize > 0 && j < |q|
    ensures FetchedAt(c, q, Fetch(c, q, 0), j, OnlyLineZeroBefore(c, q, j) || Wanted(c, q, Line(c, q[j].ip)))
    decreases |q|
  {
    LineOfStart(c, q[0].ip);
    if q[0].state == NotInQueue && Line(c, q[0].ip) != 0 {
      FirstWanted(c, q, Line(c, q[j].ip));
      if j > 0 { FetchRest(c, q[1..], LineStart(c, q[0].ip), j - 1); }
    } else if j > 0 {
      FetchExact(c, q[1..], j - 1);
      NotWantedFirst(c, q, Line(c, q[j].ip), j);
    }
  }

  lemma FirstWanted(c: Config, q: seq<Instr>, line: nat)
    requires c.lineSize > 0 && q != [] && q[0].state == NotInQueue && Line(c, q[0].ip) != 0
    ensures Wanted(c, q, line) <==> line == Line(c, q[0].ip)
    ensures forall j :: j > 0 ==> !OnlyLineZeroBefore(c, q, j)
  {
    assert OnlyLineZeroBefore(c, q, 0);
  }

  lemma NotWantedFirst(c: Config, q: seq<Instr>, line: nat, j: nat)
    requires c.lineSize > 0 && q != [] && 0 < j < |q| && (q[0].state == NotInQueue ==> Line(c, q[0].ip) == 0)
    ensures OnlyLineZeroBefore(c, q, j) <==> OnlyLineZeroBefore(c, q[1..], j - 1)
    ensures Wanted(c, q, line) <==> Wanted(c, q[1..], line)
  {
    var rest := q[1..];
    forall k | 0 < k < |q| ensures OnlyLineZeroBefore(c, q, k) <==> OnlyLineZeroBefore(c, rest, k - 1) {
      assert forall i :: 0 <= i < |rest| ==> rest[i] == q[i + 1];
      if OnlyLineZeroBefore(c, rest, k - 1) {
        forall i | 0 <= i < k && i < |q| && q[i].state == NotInQueue ensures Line(c, q[i].ip) == 0 {
          if i > 0 { assert rest[i - 1] == q[i]; }
        }
      }
      if OnlyLineZeroBefore(c, q, k) {
        forall i | 0 <= i < k - 1 && i < |rest| && rest[i].state == NotInQueue ensures Line(c, rest[i].ip) == 0 {
          assert rest[i] == q[i + 1];
        }
      }
    }
    if Wanted(c, q, line) {
      var k :| 0 <= k < |q| && q[k].state == NotInQueue && line == Line(c, q[k].ip) != 0 && OnlyLineZeroBefore(c, q, k);
      assert rest[k - 1] == q[k];
    }
    if Wanted(c, rest, line) {
      var k :| 0 <= k < |rest| && rest[k].state == NotInQueue && line == Line(c, rest[k].ip) != 0 && OnlyLineZeroBefore(c, rest, k);
      assert OnlyLineZeroBefore(c, q, k + 1) && q[k + 1] == rest[k];
    }
  }

  /** A line that comes back makes exactly its instructions ready that were being loaded. */
  lemma {:induction false} DeliveredExact(c: Config, q: seq<Instr>, addr: nat, t: int, j: nat)
    requires c.lineSize > 0 && j < |q|
    ensures Delivered(c, q, addr, t)[j] ==
      if q[j].state == BeingLoaded && q[j].ip / c.lineSize == addr / c.lineSize then q[j].(state := Loaded, ready := t) else q[j]
    decreases |q|
  {
    if j > 0 { DeliveredExact(c, q[1..], addr, t, j - 1); }
  }

  // ---------------------------------------------------------------- calls that are asked for

  lemma {:induction false} DispatchEvents(c: Config, s: Core, n: nat)
    requires s.base <= |s.log|
    ensures s.events <= Dispatch(c, s, n).events
    ensures |Dispatch(c, s, n).queue| < |s.queue| ==> s.now + c.interval in Dispatch(c, s, n).events
    decreases n
  {
    if n > 0 && CanDispatch(c, s) {
      assert s.now + c.interval in DispatchOne(c, s).events && s.events <= DispatchOne(c, s).events;
      hide DispatchOne;
      DispatchEvents(c, DispatchOne(c, s), n - 1);
    }
  }

  lemma LaterEvents(c: Config, s: Core)
    requires s.base <= |s.log|
    ensures s.events <= Commit(c, Wake(c, Execute(c, s, s.base, Units(0, 0, 0, 0, 0)))).events
  {
    ExecuteEvents(c, s, s.base, Units(0, 0, 0, 0, 0));
    hide Execute;
  }

  /** The first multiple of the interval that is not before the time. */
  predicate Aligned(c: Config, t: int, time: int)
    requires c.interval > 0
  {
    t % c.interval == 0 && time <= t < time + c.interval
  }

  lemma ProcessEvents(c: Config, s: Core, t: int)
    requires ValidConfig(c) && s.base <= |s.log| && Callable(s, t)
    ensures var s' := Process(c, s, t);
      && (s.events - {t} <= s'.events)
      && (|s'.queue| < |s.queue| ==> t + c.interval in s'.events)
      && (|s.queue| <= c.queueSize / 2 && s.active ==> s' == s.(now := t))
  {
    if !Starved(c, s) {
      hide Wake, Execute, Dispatch, Fetch, Commit;
      DispatchEvents(c, Called(s, t).(queue := Fetch(c, s.queue, 0)), c.issueWidth);
      LaterEvents(c, Staged(c, s, t));
      LaterStagesSame(c, Staged(c, s, t));
    } else {
      assert s.events - {t} + {t} == s.events;
    }
  }

  /** The core is called again: for the first instruction that is queued, for a line that comes back, one
      interval after instructions have been dispatched, and while it is starved. */
  lemma CallsAskedFor(c: Config, s: Core, a: Action)
    requires ValidConfig(c) && s.base <= |s.log| && Enabled(c, s, a)
    ensures var s' := Next(c, s, a);
      match a
      case Call(t) =>
        && (s.events - {t} <= s'.events)
        && (|s'.queue| < |s.queue| ==> t + c.interval in s'.events)
        && (|s.queue| <= c.queueSize / 2 && s.active ==> s' == s.(now := t))
      case Enqueue(i, time, wake) => s'.events == if s.queue == [] && wake then s.events + {time} else s.events
      case LineReply(addr, time) => exists t :: Aligned(c, t, time) && s'.events == s.events + {t}
      case Reply(n, time) => s.events <= s'.events
      case _ => s'.events == s.events
  {
    hide Process;
    match a
    case Call(t) => ProcessEvents(c, s, t);
    case LineReply(addr, time) => assert Aligned(c, CeilBy(time, c.interval), time);
    case _ =>
  }
}
