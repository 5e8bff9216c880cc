/** One entry of the directory (no directory cache) as a state machine over the messages it receives.
    Second-level caches are numbers. */
module DirectoryEntry {

  datatype Kind = Exclusive | Shared | Modified | ToExclusive | ToShared | ToModified | ModifiedToShared

  /** The request that an entry holds back. */
  datatype Pending = Nothing | Held(requester: nat, write: bool)

  /** `recorded` are the sharers there were when the held write request arrived and `answered` those
      whose answer to the invalidation has arrived; both are history. */
  datatype Entry = Entry(kind: Kind, sharers: set<nat>, pending: Pending, gotLine: bool,
                         recorded: set<nat>, answered: set<nat>)

  datatype Slot = Absent | Present(e: Entry)

  datatype Message =
    // requests
    | Read(from: nat)
    | Write(from: nat)
    // replies
    | Evict(from: nat)
    | UpgradeFailed
    | Upgraded
    | Invalidated(from: nat, data: bool)
    | SharedWithoutData
    | SharedWithData(written: bool)
    | FromMemory(requester: nat, exclusive: bool)

  datatype Output =
    | Nack(to: nat)
    | GrantUpgrade(to: nat)
    | Data(to: nat, write: bool)
    | AskShared(of: nat, modified: bool)
    | AskInvalidate(of: nat, data: bool)
    | Fetch(for_: nat)
    | WriteBack

  /** What ends the program: a set of sharers of an unexpected size, or a message that does not fit. */
  datatype Failure = WrongSize | WrongState

  datatype Outcome = Next(slot: Slot, out: seq<Output>) | Fatal(why: Failure)

  predicate InTransit(k: Kind) {
    k == ToExclusive || k == ToShared || k == ToModified || k == ModifiedToShared
  }

  predicate IsLeast(s: set<nat>, r: nat) {
    r in s && forall x :: x in s ==> r <= x
  }

  /** The sharer that is asked: the first in the order of the set. */
  ghost function First(s: set<nat>): (r: nat)
    requires s != {}
    ensures IsLeast(s, r)
  {
    Least(s);
    var r :| IsLeast(s, r);
    r
  }

  lemma {:induction false} Least(s: set<nat>)
    requires s != {}
    ensures exists r :: IsLeast(s, r)
    decreases |s|
  {
    var a :| a in s;
    var rest := s - {a};
    assert forall x :: x in s ==> x == a || x in rest;
    if rest == {} {
      assert IsLeast(s, a);
    } else {
      Least(rest);
      var b :| IsLeast(rest, b);
      assert IsLeast(s, if a <= b then a else b);
    }
  }

  /** The invalidations of a round: the first sharer is asked for the line, the others only confirm. */
  ghost function Invalidations(s: set<nat>, first: nat): seq<Output>
    decreases |s|
  {
    if s == {} then []
    else [AskInvalidate(First(s), First(s) == first)] + Invalidations(s - {First(s)}, first)
  }

  // ---------------------------------------------------------------- requests

  const Fresh := Entry(ToExclusive, {}, Nothing, false, {}, {})

  function Hold(e: Entry, kind: Kind, from: nat, write: bool): Entry {
    e.(kind := kind, pending := Held(from, write), recorded := e.sharers, answered := {})
  }

  ghost function OnRead(e: Entry, from: nat): Outcome {
    if InTransit(e.kind) || from in e.sharers then Next(Present(e), [Nack(from)])
    else if e.kind == Exclusive || e.kind == Modified then
      if |e.sharers| != 1 then Fatal(WrongSize)
      else
        Next(Present(Hold(e, if e.kind == Exclusive then ToShared else ModifiedToShared, from, false)),
             [AskShared(First(e.sharers), e.kind == Modified)])
    else if e.sharers == {} then Fatal(WrongSize)
    else Next(Present(Hold(e, ToShared, from, false)), [AskShared(First(e.sharers), false)])
  }

  ghost function OnWrite(e: Entry, from: nat): Outcome {
    if InTransit(e.kind) then Next(Present(e), [Nack(from)])
    else if e.kind == Exclusive then
      if |e.sharers| != 1 then Fatal(WrongSize)
      else if from in e.sharers then Next(Present(e.(kind := ToModified)), [GrantUpgrade(from)])
      else Next(Present(Hold(e, ToModified, from, true).(gotLine := false)), [AskInvalidate(First(e.sharers), true)])
    else if e.kind == Shared then
      if e.sharers == {} then Fatal(WrongSize)
      else Next(Present(Hold(e, ToModified, from, true)), Invalidations(e.sharers, First(e.sharers)))
    else if e.pending != Nothing || |e.sharers| != 1 then Fatal(WrongSize)
    else if from in e.sharers then Next(Present(e), [Nack(from)])
    else Next(Present(Hold(e, ToModified, from, true)), [AskInvalidate(First(e.sharers), true)])
  }

  // ---------------------------------------------------------------- replies

  ghost function OnEvict(e: Entry, from: nat): Outcome {
    if e.kind == Modified || e.kind == ModifiedToShared then
      if |e.sharers| > 1 then Fatal(WrongSize)
      else if from !in e.sharers then Next(Present(e), [])
      else if e.kind == Modified then Next(Absent, [WriteBack])
      else Next(Present(e.(sharers := e.sharers - {from})), [WriteBack])
    else if e.kind == ToShared then Next(Present(e.(sharers := e.sharers - {from})), [])
    else if e.kind == ToModified then Next(Present(e), [])
    else
      var rest := e.sharers - {from};
      Next(if rest == {} then Absent else Present(e.(sharers := rest)), [])
  }

  function OnInvalidated(e: Entry, from: nat, data: bool): Outcome {
    if e.kind != ToModified || e.pending == Nothing then Fatal(WrongState)
    else
      var w := e.pending.requester;
      var rest, got := e.sharers - {from}, data || e.gotLine;
      var e1 := e.(gotLine := got, sharers := rest, answered := e.answered + {from});
      if rest != {} then Next(Present(e1), [])
      else if got then Next(Present(e1.(kind := Modified, sharers := {w}, gotLine := false, pending := Nothing)), [Data(w, true)])
      else Next(Present(e1.(sharers := {w}, pending := Nothing)), [Fetch(w)])
  }

  /** The other cache could not give the line: the held request is refused. */
  function OnSharedNd(e: Entry): Outcome {
    if (e.kind != ToShared && e.kind != ModifiedToShared) || e.pending == Nothing then Fatal(WrongState)
    else
      Next(if e.sharers == {} then Absent else Present(e.(kind := Shared, pending := Nothing)), [Nack(e.pending.requester)])
  }

  function OnShared(e: Entry, written: bool): Outcome {
    if (e.kind != ToShared && e.kind != ModifiedToShared) || e.pending == Nothing then Fatal(WrongState)
    else
      Next(Present(e.(kind := Shared, sharers := e.sharers + {e.pending.requester}, pending := Nothing)),
           if written then [WriteBack, Data(e.pending.requester, false)] else [Data(e.pending.requester, false)])
  }

  function OnMemory(slot: Slot, requester: nat, exclusive: bool): Outcome {
    if slot.Present? && slot.e.kind == ToExclusive && exclusive then
      Next(Present(slot.e.(kind := Exclusive)), [Data(requester, false)])
    else if slot.Present? && slot.e.kind == ToModified && exclusive then
      Next(Present(slot.e.(kind := Modified)), [Data(requester, true)])
    else Next(slot, [Data(requester, false)])
  }

  /** One message. */
  ghost function Step(slot: Slot, m: Message): Outcome {
    match m
    case Read(from) =>
      if slot.Absent? then Next(Present(Fresh.(kind := ToExclusive, sharers := {from})), [Fetch(from)])
      else OnRead(slot.e, from)
    case Write(from) =>
      if slot.Absent? then Next(Present(Fresh.(kind := ToModified, sharers := {from})), [Fetch(from)])
      else OnWrite(slot.e, from)
    case Evict(from) => if slot.Absent? then Next(slot, []) else OnEvict(slot.e, from)
    case UpgradeFailed =>
      if slot.Absent? then Next(slot, [])
      else if slot.e.kind != ToModified then Fatal(WrongState)
      else Next(Absent, [])
    case Upgraded =>
      if slot.Absent? then Next(slot, [])
      else if slot.e.kind != ToModified then Fatal(WrongState)
      else Next(Present(slot.e.(kind := Modified, pending := Nothing)), [])
    case Invalidated(from, data) => if slot.Absent? then Next(slot, []) else OnInvalidated(slot.e, from, data)
    case SharedWithoutData => if slot.Absent? then Fatal(WrongState) else OnSharedNd(slot.e)
    case SharedWithData(written) => if slot.Absent? then Fatal(WrongState) else OnShared(slot.e, written)
    case FromMemory(requester, exclusive) => OnMemory(slot, requester, exclusive)
  }

  // ---------------------------------------------------------------- the invariant

  /** An invalidation round is open: a write request is held back until all sharers have answered. */
  predicate RoundOpen(slot: Slot) {
    slot.Present? && slot.e.kind == ToModified && slot.e.pending != Nothing
  }

  predicate EntryOk(e: Entry) {
    match e.kind
    case Exclusive => |e.sharers| == 1 && e.pending == Nothing && !e.gotLine
    case Modified => |e.sharers| == 1 && e.pending == Nothing && !e.gotLine
    case Shared => e.sharers != {} && e.pending == Nothing && !e.gotLine
    case ToExclusive => |e.sharers| == 1 && e.pending == Nothing && !e.gotLine
    case ToShared => e.pending != Nothing && !e.pending.write && !e.gotLine
    case ModifiedToShared => |e.sharers| <= 1 && e.pending != Nothing && !e.pending.write && !e.gotLine
    case ToModified =>
      if e.pending == Nothing then |e.sharers| == 1 && !e.gotLine
      else e.pending.write && e.sharers != {} && e.sharers == e.recorded - e.answered
  }

  predicate Ok(slot: Slot) {
    slot.Present? ==> EntryOk(slot.e)
  }

  /** A stale answer: it belongs to an earlier life of the entry, and ends the round too early. */
  predicate Harmful(slot: Slot, m: Message) {
    RoundOpen(slot)
    && ((m.FromMemory? && m.exclusive) || (m.Upgraded? && (|slot.e.sharers| != 1 || slot.e.gotLine)))
  }

  lemma OneLess(s: set<nat>, x: nat)
    requires |s| <= 1 && x in s
    ensures s - {x} == {} && |s| == 1
  {
    if y :| y in s && y != x { assert {x, y} <= s; Subsets({x, y}, s); }
  }

  lemma Subsets(a: set<nat>, b: set<nat>)
    requires a <= b
    ensures |a| <= |b|
    decreases |a|
  {
    if a != {} {
      var x :| x in a;
      Subsets(a - {x}, b - {x});
    }
  }

  /** What is kept by a step: no check of the number of sharers fails, and the entry stays consistent. */
  predicate Keeps(o: Outcome) {
    o != Fatal(WrongSize) && (o.Next? ==> Ok(o.slot))
  }

  lemma ReadOk(e: Entry, from: nat)
    requires EntryOk(e)
    ensures Keeps(OnRead(e, from))
  {
  }

  lemma WriteOk(e: Entry, from: nat)
    requires EntryOk(e)
    ensures Keeps(OnWrite(e, from))
  {
    hide First, Invalidations;
    if e.kind != ToShared && e.kind != ToModified && e.kind != ModifiedToShared {
      assert e.sharers != {};
      assert e.sharers - {} == e.sharers;
    }
  }

  lemma EvictOk(e: Entry, from: nat)
    requires EntryOk(e)
    ensures Keeps(OnEvict(e, from))
  {
    if from !in e.sharers {
      assert e.sharers - {from} == e.sharers;
    } else if |e.sharers| <= 1 {
      OneLess(e.sharers, from);
    }
  }

  lemma InvalidatedOk(e: Entry, from: nat, data: bool)
    requires EntryOk(e)
    ensures Keeps(OnInvalidated(e, from, data))
  {
    if e.kind == ToModified && e.pending != Nothing {
      assert e.sharers - {from} == e.recorded - (e.answered + {from});
    }
  }

  /** Exactly the harmful messages fail a check of the number of sharers or leave the entry inconsistent. */
  lemma StepOk(slot: Slot, m: Message)
    requires Ok(slot)
    ensures Keeps(Step(slot, m)) <==> !Harmful(slot, m)
  {
    hide OnRead, OnWrite, OnEvict, OnInvalidated;
    match m
    case Read(from) => if slot.Present? { ReadOk(slot.e, from); }
    case Write(from) => if slot.Present? { WriteOk(slot.e, from); }
    case Evict(from) => if slot.Present? { EvictOk(slot.e, from); }
    case Invalidated(from, data) => if slot.Present? { InvalidatedOk(slot.e, from, data); }
    case _ =>
  }

  /** The answer that an entry in transit waits for. */
  predicate Awaited(e: Entry, m: Message) {
    match e.kind
    case ToExclusive => m.FromMemory? && m.exclusive
    case ToModified => e.pending == Nothing && ((m.FromMemory? && m.exclusive) || m.Upgraded? || m.UpgradeFailed?)
    case ToShared => m.SharedWithData? || m.SharedWithoutData?
    case ModifiedToShared => m.SharedWithData? || m.SharedWithoutData?
    case _ => false
  }

  /** The kind of the entry once the answer has arrived; none if the entry ends. */
  predicate Settles(e: Entry, m: Message, slot: Slot) {
    if e.kind == ToExclusive then slot == Present(e.(kind := Exclusive))
    else if e.kind == ToModified then if m.UpgradeFailed? then slot == Absent else slot == Present(e.(kind := Modified))
    else if m.SharedWithoutData? && e.sharers == {} then slot == Absent
    else slot.Present? && slot.e.kind == Shared && slot.e.pending == Nothing
  }

  /** The answer that is waited for ends the transit in the kind that it stands for, and while it is awaited
      every request is refused. */
  lemma TransitEnds(slot: Slot, m: Message)
    requires Ok(slot) && slot.Present? && InTransit(slot.e.kind)
    ensures Awaited(slot.e, m) ==> Step(slot, m).Next? && Settles(slot.e, m, Step(slot, m).slot)
    ensures m.Read? || m.Write? ==> Step(slot, m) == Next(slot, [Nack(m.from)])
  {
  }

  /** Answers that do not fit the entry end the program, and nothing else does. */
  predicate Unfit(slot: Slot, m: Message) {
    match m
    case UpgradeFailed => slot.Present? && slot.e.kind != ToModified
    case Upgraded => slot.Present? && slot.e.kind != ToModified
    case Invalidated(from, data) => slot.Present? && !RoundOpen(slot)
    case SharedWithoutData => slot.Absent? || (slot.e.kind != ToShared && slot.e.kind != ModifiedToShared)
    case SharedWithData(written) => slot.Absent? || (slot.e.kind != ToShared && slot.e.kind != ModifiedToShared)
    case _ => false
  }

  lemma RequestsGoOn(e: Entry, from: nat)
    requires EntryOk(e)
    ensures OnRead(e, from).Next? && OnWrite(e, from).Next? && OnEvict(e, from).Next?
  {
    ReadOk(e, from);
    WriteOk(e, from);
    EvictOk(e, from);
    hide First, Invalidations;
  }

  lemma FailsExactly(slot: Slot, m: Message)
    requires Ok(slot)
    ensures Step(slot, m).Fatal? <==> Unfit(slot, m)
  {
    if slot.Present? && (m.Read? || m.Write? || m.Evict?) { RequestsGoOn(slot.e, m.from); }
    hide OnRead, OnWrite, OnEvict;
  }

  // ---------------------------------------------------------------- who becomes the owner

  /** An answer that ends a round although sharers have not answered. */
  predicate EndsEarly(m: Message) {
    m.UpgradeFailed? || m.Upgraded? || (m.FromMemory? && m.exclusive)
  }

  /** A round ends with the last answer, when every sharer recorded at its start has answered its
      invalidation, and otherwise only by a message that ends it early.  With the last answer, and only
      then, the request that is held back becomes the owner: it gets the line if any answer has brought it,
      and otherwise from memory.  Until then it stays, the answers are added up, and other requests are
      refused. */
  lemma OwnerAfterAllAnswers(slot: Slot, m: Message)
    requires Ok(slot) && RoundOpen(slot) && Step(slot, m).Next?
    ensures var last := m.Invalidated? && slot.e.recorded <= slot.e.answered + {m.from};
      && (!RoundOpen(Step(slot, m).slot) <==> last || EndsEarly(m))
      && (last ==> var s, w := Step(slot, m).slot, slot.e.pending.requester;
            && s.Present? && s.e.sharers == {w}
            && if m.data || slot.e.gotLine then s.e.kind == Modified && Step(slot, m).out == [Data(w, true)]
               else s.e.kind == ToModified && Step(slot, m).out == [Fetch(w)])
    ensures RoundOpen(Step(slot, m).slot) ==>
      var e, r := slot.e, Step(slot, m);
      && r.slot.e.pending == e.pending && r.slot.e.recorded == e.recorded
      && r.slot.e.answered == (if m.Invalidated? then e.answered + {m.from} else e.answered)
      && r.slot.e.gotLine == (e.gotLine || (m.Invalidated? && m.data))
      && (m.Read? || m.Write? ==> r.slot == slot && r.out == [Nack(m.from)])
  {
    if m.Invalidated? {
      assert slot.e.sharers - {m.from} == {} <==> slot.e.recorded <= slot.e.answered + {m.from};
    }
  }

  /** A round starts with all sharers recorded, none of them counted as answered, and each of them
      asked once, the first for the line. */
  lemma RoundStarts(slot: Slot, m: Message)
    requires Ok(slot) && !RoundOpen(slot) && Step(slot, m).Next? && RoundOpen(Step(slot, m).slot)
    ensures m.Write? && slot.Present? && Step(slot, m).slot.e.pending == Held(m.from, true)
    ensures Step(slot, m).slot.e.recorded == slot.e.sharers && Step(slot, m).slot.e.answered == {} && !Step(slot, m).slot.e.gotLine
    ensures forall x :: x in slot.e.sharers <==> exists d :: AskInvalidate(x, d) in Step(slot, m).out
    ensures AskInvalidate(First(slot.e.sharers), true) in Step(slot, m).out
  {
    var s := slot.e.sharers;
    var out := Step(slot, m).out;
    if slot.e.kind == Shared {
      AllAsked(s, First(s));
      assert AskInvalidate(First(s), true) in out;
      forall x ensures x in s <==> exists d :: AskInvalidate(x, d) in out {
        if x in s { assert AskInvalidate(x, x == First(s)) in out; }
      }
    } else {
      SingleFirst(s);
      assert out == [AskInvalidate(First(s), true)] && out[0] in out;
      forall x ensures x in s <==> exists d :: AskInvalidate(x, d) in out {
        if x in s { assert AskInvalidate(x, true) in out; }
      }
    }
  }

  lemma SingleFirst(s: set<nat>)
    requires |s| == 1
    ensures s == {First(s)}
  {
    OneLess(s, First(s));
    assert s == (s - {First(s)}) + {First(s)};
  }

  lemma {:induction false} AllAsked(s: set<nat>, first: nat)
    ensures forall x, d :: AskInvalidate(x, d) in Invalidations(s, first) <==> x in s && d == (x == first)
    decreases |s|
  {
    if s != {} {
      AllAsked(s - {First(s)}, first);
    }
  }

  // ---------------------------------------------------------------- runs

  /** The entry is reached from `slot` by the messages, none of which is harmful or fatal. */
  ghost predicate Run(slot: Slot, ms: seq<Message>, slot': Slot)
    decreases |ms|
  {
    if ms == [] then slot' == slot
    else !Harmful(slot, ms[0]) && Step(slot, ms[0]).Next? && Run(Step(slot, ms[0]).slot, ms[1..], slot')
  }

  lemma {:induction false} RunOk(slot: Slot, ms: seq<Message>, slot': Slot)
    requires Ok(slot) && Run(slot, ms, slot')
    ensures Ok(slot')
    decreases |ms|
  {
    hide Step, Ok, Harmful;
    if ms != [] {
      StepOk(slot, ms[0]);
      RunOk(Step(slot, ms[0]).slot, ms[1..], slot');
    }
  }

  /** In every run: one sharer while exclusive or modified, at least one while shared, a held request
      while the line moves to shared, and in an open round exactly those recorded sharers are left that
      have not answered. */
  lemma DirectoryConsistent(ms: seq<Message>, slot: Slot)
    requires Run(Absent, ms, slot) && slot.Present?
    ensures var e := slot.e;
      && (e.kind == Exclusive || e.kind == Modified || e.kind == ToExclusive ==> |e.sharers| == 1)
      && (e.kind == Shared ==> e.sharers != {})
      && (e.kind == ToShared || e.kind == ModifiedToShared <==> e.pending != Nothing && !e.pending.write)
      && (RoundOpen(slot) <==> e.pending != Nothing && e.pending.write)
      && (RoundOpen(slot) ==> e.sharers == e.recorded - e.answered != {})
  {
    RunOk(Absent, ms, slot);
  }

  /** Every entry on the way is consistent and no check of the number of sharers fails. */
  ghost predicate StaysConsistent(slot: Slot, ms: seq<Message>)
    decreases |ms|
  {
    Ok(slot) && (ms != [] ==>
      Keeps(Step(slot, ms[0])) && (Step(slot, ms[0]).Next? ==> StaysConsistent(Step(slot, ms[0]).slot, ms[1..])))
  }

  ghost predicate NeverHarmful(slot: Slot, ms: seq<Message>)
    decreases |ms|
  {
    ms != [] ==>
      !Harmful(slot, ms[0]) && (Step(slot, ms[0]).Next? ==> NeverHarmful(Step(slot, ms[0]).slot, ms[1..]))
  }

  /** A run keeps the entry consistent throughout exactly if it contains no harmful message. */
  lemma {:induction false} ConsistentExactly(slot: Slot, ms: seq<Message>)
    requires Ok(slot)
    ensures StaysConsistent(slot, ms) <==> NeverHarmful(slot, ms)
    decreases |ms|
  {
    if ms != [] {
      StepOk(slot, ms[0]);
      if Step(slot, ms[0]).Next? && Keeps(Step(slot, ms[0])) {
        ConsistentExactly(Step(slot, ms[0]).slot, ms[1..]);
      }
      hide Step, Ok, Harmful, Keeps;
    }
  }

  // ---------------------------------------------------------------- a harmful message can arrive

  /** The outcome of the messages up to the first fatal one. */
  ghost function After(slot: Slot, ms: seq<Message>): Outcome
    decreases |ms|
  {
    if ms == [] then Next(slot, [])
    else if Step(slot, ms[0]).Next? then After(Step(slot, ms[0]).slot, ms[1..])
    else Step(slot, ms[0])
  }

  function OneSharer(kind: Kind, sharer: nat, pending: Pending, recorded: set<nat>): Slot {
    Present(Entry(kind, {sharer}, pending, false, recorded, {}))
  }

  lemma Moves(slot: Slot, m: Message, ms: seq<Message>, slot': Slot)
    requires Step(slot, m).Next? && Step(slot, m).slot == slot'
    ensures After(slot, [m] + ms) == After(slot', ms)
  {
    assert ([m] + ms)[1..] == ms;
  }

  /** The answer to a fetch arrives after its entry has been dropped and made anew: it makes the entry
      exclusive too early, the answer that belongs to the entry then ends a round early, and the next
      write request fails the check of the number of sharers. */
  lemma StaleAnswerBreaks()
    ensures After(Absent, [Read(1), Evict(1), Read(2), FromMemory(1, true), Write(3), FromMemory(2, true), Write(4)])
         == Fatal(WrongSize)
  {
    var round := OneSharer(ToModified, 2, Held(3, true), {2});
    var ended := OneSharer(Modified, 2, Held(3, true), {2});
    assert Step(ended, Write(4)) == Fatal(WrongSize);
    var m6, m5, m4 := [Write(4)], [FromMemory(2, true)] + [Write(4)], [Write(3)] + ([FromMemory(2, true)] + [Write(4)]);
    Moves(round, FromMemory(2, true), m6, ended);
    assert Step(OneSharer(Exclusive, 2, Nothing, {}), Write(3)).slot == round;
    Moves(OneSharer(Exclusive, 2, Nothing, {}), Write(3), m5, round);
    Moves(OneSharer(ToExclusive, 2, Nothing, {}), FromMemory(1, true), m4, OneSharer(Exclusive, 2, Nothing, {}));
    var m3 := [FromMemory(1, true)] + m4;
    Moves(Absent, Read(2), m3, OneSharer(ToExclusive, 2, Nothing, {}));
    assert {1} - {1} == {};
    Moves(OneSharer(ToExclusive, 1, Nothing, {}), Evict(1), [Read(2)] + m3, Absent);
    Moves(Absent, Read(1), [Evict(1)] + ([Read(2)] + m3), OneSharer(ToExclusive, 1, Nothing, {}));
    assert [Read(1), Evict(1), Read(2), FromMemory(1, true), Write(3), FromMemory(2, true), Write(4)]
        == [Read(1)] + ([Evict(1)] + ([Read(2)] + m3));
  }
}
