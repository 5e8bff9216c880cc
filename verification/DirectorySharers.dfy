/** Who is listed as a sharer, who gets the line, and what goes back to memory. */
module DirectorySharers {
  import opened DirectoryEntry

  predicate Listed(slot: Slot, x: nat) {
    slot.Present? && x in slot.e.sharers
  }

  /** Cache x is sent the line or may go on writing. */
  predicate Receives(out: seq<Output>, x: nat) {
    Data(x, true) in out || Data(x, false) in out || GrantUpgrade(x) in out
  }

  /** An answer of the memory for a cache that the entry does not list, or no longer. */
  predicate Misdirected(slot: Slot, m: Message) {
    m.FromMemory? && !Listed(slot, m.requester)
  }

  ghost predicate ReceiversListed(o: Outcome)
    requires o.Next?
  {
    forall x: nat :: Receives(o.out, x) ==> Listed(o.slot, x)
  }

  lemma InvalidationsGiveNothing(s: set<nat>, first: nat)
    ensures forall o :: o in Invalidations(s, first) ==> o.AskInvalidate?
    decreases |s|
  {
    if s != {} { InvalidationsGiveNothing(s - {First(s)}, first); }
  }

  /** Whoever is sent the line is listed, exactly unless the answer of the memory is misdirected. */
  lemma ReceiverIsListed(slot: Slot, m: Message)
    requires Ok(slot) && Step(slot, m).Next?
    ensures ReceiversListed(Step(slot, m)) <==> !Misdirected(slot, m)
  {
    if m.Write? && slot.Present? { InvalidationsGiveNothing(slot.e.sharers, if slot.e.sharers == {} then 0 else First(slot.e.sharers)); }
    if m.FromMemory? {
      assert Receives(Step(slot, m).out, m.requester) by { MemoryAnswers(slot, m); }
    }
    if m.Read? && slot.Present? { ReadGivesNothing(slot.e, m.from); }
    if m.Write? && slot.Present? { WriteGives(slot.e, m.from); }
    hide OnRead, OnWrite, Invalidations;
  }

  lemma MemoryAnswers(slot: Slot, m: Message)
    requires m.FromMemory?
    ensures var o := Step(slot, m); o.Next? && |o.out| == 1 && o.out[0].Data? && o.out[0].to == m.requester
    ensures Data(m.requester, true) in Step(slot, m).out || Data(m.requester, false) in Step(slot, m).out
  {
    var o := Step(slot, m).out[0];
    assert o in Step(slot, m).out;
  }

  lemma ReadGivesNothing(e: Entry, x: nat)
    requires EntryOk(e) && OnRead(e, x).Next?
    ensures forall o :: o in OnRead(e, x).out ==> o.Nack? || o.AskShared?
  {
  }

  lemma WriteGives(e: Entry, x: nat)
    requires EntryOk(e) && OnWrite(e, x).Next?
    ensures forall o :: o in OnWrite(e, x).out ==> o.Nack? || o.AskInvalidate? || (o == GrantUpgrade(x) && x in e.sharers)
    ensures OnWrite(e, x).slot.Present? && OnWrite(e, x).slot.e.sharers == e.sharers
  {
    if e.kind == Shared { InvalidationsGiveNothing(e.sharers, First(e.sharers)); }
  }

  // ---------------------------------------------------------------- who joins and who leaves

  /** A message by which cache x leaves the list: its own eviction, its answer to an invalidation, or the end
      of the entry when an upgrade has failed. */
  predicate TakesOff(m: Message, x: nat) {
    m == Evict(x) || m == Invalidated(x, true) || m == Invalidated(x, false) || m == UpgradeFailed
  }

  /** A message by which cache x joins the list: its own request for a new entry, or the answer for which its
      request has been held back. */
  predicate PutsOn(slot: Slot, m: Message, x: nat) {
    if slot.Absent? then m == Read(x) || m == Write(x)
    else slot.e.pending.Held? && slot.e.pending.requester == x && (m.SharedWithData? || m.Invalidated?)
  }

  /** Sharers come and go only by their own messages: a read that is served keeps every earlier sharer. */
  lemma SharersChange(slot: Slot, m: Message, x: nat)
    requires Ok(slot) && Step(slot, m).Next?
    ensures Listed(slot, x) && !Listed(Step(slot, m).slot, x) ==> TakesOff(m, x)
    ensures !Listed(slot, x) && Listed(Step(slot, m).slot, x) ==> PutsOn(slot, m, x)
    ensures m.SharedWithData? && slot.e.pending.Held? ==>
      var s := Step(slot, m).slot; s.Present? && s.e.sharers == slot.e.sharers + {slot.e.pending.requester}
  {
    if m.Evict? && slot.Present? { EvictSharers(slot.e, m.from); }
    if m.Write? && slot.Present? { WriteGives(slot.e, m.from); }
    hide OnWrite, OnEvict;
  }

  lemma EvictSharers(e: Entry, x: nat)
    requires EntryOk(e) && OnEvict(e, x).Next?
    ensures var s := OnEvict(e, x).slot;
      if s.Present? then s.e.sharers == e.sharers || s.e.sharers == e.sharers - {x} else forall y :: y in e.sharers ==> y == x
  {
    if |e.sharers| <= 1 && x in e.sharers { OneLess(e.sharers, x); }
    forall y | y in e.sharers && e.sharers - {x} == {} ensures y == x { assert y !in e.sharers - {x}; }
  }

  // ---------------------------------------------------------------- runs

  /** The caches that have been sent the line and have neither given it up nor seen the entry end. */
  ghost function Holders(h: set<nat>, m: Message, out: seq<Output>): set<nat> {
    var stay := if m.UpgradeFailed? then {} else if m.Evict? || m.Invalidated? then h - {m.from} else h;
    stay + To(out)
  }

  function To(out: seq<Output>): (s: set<nat>)
    ensures forall x :: x in s <==> Receives(out, x)
  {
    if out == [] then {}
    else
      var rest := To(out[1..]);
      match out[0]
      case Data(x, write) => rest + {x}
      case GrantUpgrade(x) => rest + {x}
      case _ => rest
  }

  /** The holders after a run that starts with the holders h. */
  ghost function HoldersAfter(slot: Slot, ms: seq<Message>, h: set<nat>): set<nat>
    decreases |ms|
  {
    if ms == [] || !Step(slot, ms[0]).Next? then h
    else HoldersAfter(Step(slot, ms[0]).slot, ms[1..], Holders(h, ms[0], Step(slot, ms[0]).out))
  }

  ghost predicate NeverMisdirected(slot: Slot, ms: seq<Message>)
    decreases |ms|
  {
    ms != [] && Step(slot, ms[0]).Next? ==>
      !Misdirected(slot, ms[0]) && NeverMisdirected(Step(slot, ms[0]).slot, ms[1..])
  }

  predicate AllListed(slot: Slot, h: set<nat>) {
    forall x :: x in h ==> Listed(slot, x)
  }

  lemma HoldersListed(slot: Slot, m: Message, h: set<nat>)
    requires Ok(slot) && Step(slot, m).Next? && AllListed(slot, h) && !Misdirected(slot, m)
    ensures AllListed(Step(slot, m).slot, Holders(h, m, Step(slot, m).out))
  {
    ReceiverIsListed(slot, m);
    var o := Step(slot, m);
    var h' := Holders(h, m, o.out);
    forall x | x in h' ensures Listed(o.slot, x) {
      if !Receives(o.out, x) { SharersChange(slot, m, x); }
    }
    hide Step;
  }

  /** In every run without stale answers, every cache that has been sent the line and has not given it up
      since is listed, so that a later write invalidates it. */
  lemma {:induction false} HoldersAreListed(slot: Slot, ms: seq<Message>, slot': Slot, h: set<nat>)
    requires Ok(slot) && Run(slot, ms, slot') && NeverMisdirected(slot, ms) && AllListed(slot, h)
    ensures AllListed(slot', HoldersAfter(slot, ms, h))
    decreases |ms|
  {
    if ms != [] {
      StepOk(slot, ms[0]);
      HoldersListed(slot, ms[0], h);
      hide Step, Ok, Harmful, AllListed, Holders;
      HoldersAreListed(Step(slot, ms[0]).slot, ms[1..], slot', Holders(h, ms[0], Step(slot, ms[0]).out));
    }
  }

  /** Every step of the run serves only caches that are listed. */
  ghost predicate ServesListed(slot: Slot, ms: seq<Message>)
    decreases |ms|
  {
    ms != [] && Step(slot, ms[0]).Next? ==>
      ReceiversListed(Step(slot, ms[0])) && ServesListed(Step(slot, ms[0]).slot, ms[1..])
  }

  /** A run serves only listed caches exactly if no answer of the memory is misdirected in it. */
  lemma {:induction false} ServesListedExactly(slot: Slot, ms: seq<Message>)
    requires Ok(slot) && NeverHarmful(slot, ms)
    ensures ServesListed(slot, ms) <==> NeverMisdirected(slot, ms)
    decreases |ms|
  {
    if ms != [] && Step(slot, ms[0]).Next? {
      StepOk(slot, ms[0]);
      ReceiverIsListed(slot, ms[0]);
      hide Step, Ok, Harmful, ReceiversListed, Misdirected;
      ServesListedExactly(Step(slot, ms[0]).slot, ms[1..]);
    }
  }

  // ---------------------------------------------------------------- writers and owners

  /** Cache x may write: it is the only sharer, of an entry that is modified or becomes so. */
  predicate Owner(slot: Slot, x: nat, granted: bool) {
    slot.Present? && slot.e.sharers == {x} && slot.e.kind == if granted then ToModified else Modified
  }

  /** Whoever may write is the only sharer of a modified entry, and reads are served as reads. */
  lemma WriterIsOwner(slot: Slot, m: Message, x: nat)
    requires Ok(slot) && Step(slot, m).Next? && !Harmful(slot, m) && !Misdirected(slot, m)
    ensures var o := Step(slot, m);
      && (Data(x, true) in o.out ==> Owner(o.slot, x, false))
      && (GrantUpgrade(x) in o.out ==> Owner(o.slot, x, true))
      && (Data(x, false) in o.out ==> Listed(o.slot, x) && (o.slot.e.kind == Modified ==> m.FromMemory?))
  {
    if m.Write? && slot.Present? { WriteGives(slot.e, m.from); GrantsOwner(slot.e, m.from); }
    if m.Read? && slot.Present? { ReadGivesNothing(slot.e, m.from); }
    if m.FromMemory? && slot.Present? { MemoryOwner(slot.e, m.requester); }
    hide OnRead, OnWrite, Invalidations;
  }

  lemma GrantsOwner(e: Entry, x: nat)
    requires EntryOk(e) && OnWrite(e, x).Next?
    ensures GrantUpgrade(x) in OnWrite(e, x).out ==> Owner(OnWrite(e, x).slot, x, true)
  {
    if e.kind == Shared { InvalidationsGiveNothing(e.sharers, First(e.sharers)); }
    if e.kind == Exclusive { SingleFirst(e.sharers); }
  }

  lemma MemoryOwner(e: Entry, x: nat)
    requires EntryOk(e) && x in e.sharers
    ensures e.kind == ToModified && e.pending == Nothing ==> e.sharers == {x}
  {
    if |e.sharers| == 1 { SingleFirst(e.sharers); }
  }

  // ---------------------------------------------------------------- requests are answered to those who asked

  predicate HeldFor(slot: Slot, x: nat) {
    slot.Present? && slot.e.pending.Held? && slot.e.pending.requester == x
  }

  predicate AnswersTo(o: Output, x: nat) {
    o == Nack(x) || o == GrantUpgrade(x) || o == Data(x, true) || o == Data(x, false) || o == Fetch(x)
  }

  function NumAnswers(out: seq<Output>, x: nat): nat {
    if out == [] then 0 else (if AnswersTo(out[0], x) then 1 else 0) + NumAnswers(out[1..], x)
  }

  predicate Asks(m: Message, x: nat) {
    m == Read(x) || m == Write(x) || m == FromMemory(x, true) || m == FromMemory(x, false)
  }

  function One(b: bool): nat {
    if b then 1 else 0
  }

  ghost predicate Balanced(slot: Slot, m: Message, x: nat)
    requires Step(slot, m).Next?
  {
    One(HeldFor(Step(slot, m).slot, x)) + NumAnswers(Step(slot, m).out, x) == One(HeldFor(slot, x)) + One(Asks(m, x))
  }

  lemma {:induction false} NoAnswers(out: seq<Output>, x: nat)
    requires forall o :: o in out ==> !AnswersTo(o, x)
    ensures NumAnswers(out, x) == 0
  {
    if out != [] { NoAnswers(out[1..], x); }
  }

  lemma TwoAnswers(a: Output, b: Output, x: nat)
    ensures NumAnswers([a, b], x) == One(AnswersTo(a, x)) + One(AnswersTo(b, x))
    ensures NumAnswers([a], x) == One(AnswersTo(a, x))
  {
    assert [a, b][1..] == [b] && [a][1..] == [] && [b][1..] == [];
    assert NumAnswers([b], x) == One(AnswersTo(b, x));
  }

  lemma WriteBalanced(slot: Slot, from: nat, x: nat)
    requires Ok(slot) && Step(slot, Write(from)).Next?
    ensures Balanced(slot, Write(from), x)
  {
    if slot.Present? && slot.e.kind == Shared {
      InvalidationsGiveNothing(slot.e.sharers, First(slot.e.sharers));
      NoAnswers(Step(slot, Write(from)).out, x);
    } else if slot.Present? && |Step(slot, Write(from)).out| == 1 {
      TwoAnswers(Step(slot, Write(from)).out[0], WriteBack, x);
    } else {
      TwoAnswers(Fetch(from), WriteBack, x);
    }
  }

  lemma FewAnswers(out: seq<Output>, x: nat)
    requires |out| <= 2
    ensures NumAnswers(out, x) == (if out != [] then One(AnswersTo(out[0], x)) else 0) + if |out| == 2 then One(AnswersTo(out[1], x)) else 0
  {
    if |out| == 1 {
      TwoAnswers(out[0], WriteBack, x);
      assert out == [out[0]];
    } else if |out| == 2 {
      TwoAnswers(out[0], out[1], x);
      assert out == [out[0], out[1]];
    }
  }

  lemma ReadBalanced(slot: Slot, m: Message, x: nat)
    requires Ok(slot) && Step(slot, m).Next? && (m.Read? || m.Evict?)
    ensures Balanced(slot, m, x)
  {
    FewAnswers(Step(slot, m).out, x);
    hide NumAnswers;
  }

  lemma ReplyBalanced(slot: Slot, m: Message, x: nat)
    requires Ok(slot) && Step(slot, m).Next? && !m.Write? && !m.Read? && !m.Evict?
    ensures Balanced(slot, m, x) <==> !(HeldFor(slot, x) && RoundOpen(slot) && (m.UpgradeFailed? || m.Upgraded?))
  {
    FewAnswers(Step(slot, m).out, x);
    hide NumAnswers;
  }

  lemma OtherBalanced(slot: Slot, m: Message, x: nat)
    requires Ok(slot) && Step(slot, m).Next? && !m.Write?
    ensures Balanced(slot, m, x) <==> !(HeldFor(slot, x) && RoundOpen(slot) && (m.UpgradeFailed? || m.Upgraded?))
  {
    hide Step, Balanced;
    if m.Read? || m.Evict? { ReadBalanced(slot, m, x); } else { ReplyBalanced(slot, m, x); }
  }

  /** Each request is answered to the cache that asked, exactly once, or held back for it; the only request
      that is lost is one held back when an upgrade answer ends its round. */
  lemma AnsweredToAskers(slot: Slot, m: Message)
    requires Ok(slot) && Step(slot, m).Next?
    ensures (forall x: nat :: Balanced(slot, m, x)) <==> !(RoundOpen(slot) && (m.UpgradeFailed? || m.Upgraded?))
  {
    if m.Write? {
      forall x: nat ensures Balanced(slot, m, x) { WriteBalanced(slot, m.from, x); }
    } else {
      hide Step, Balanced;
      forall x: nat
        ensures Balanced(slot, m, x) <==> !(HeldFor(slot, x) && RoundOpen(slot) && (m.UpgradeFailed? || m.Upgraded?))
      {
        OtherBalanced(slot, m, x);
      }
      if RoundOpen(slot) { assert HeldFor(slot, slot.e.pending.requester); }
    }
  }

  // ---------------------------------------------------------------- memory is kept up to date

  /** The line in memory is out of date. */
  predicate Dirty(slot: Slot) {
    slot.Present? && (slot.e.kind == Modified || slot.e.kind == ModifiedToShared)
  }

  /** The line is written back exactly when its owner evicts it while it is modified, or hands over data that
      it has written. */
  lemma WritesBack(slot: Slot, m: Message)
    requires Ok(slot) && Step(slot, m).Next?
    ensures WriteBack in Step(slot, m).out <==> (m.Evict? && Dirty(slot) && Listed(slot, m.from)) || m == SharedWithData(true)
  {
    if m.Read? && slot.Present? { ReadGivesNothing(slot.e, m.from); }
    if m.Write? && slot.Present? { WriteGives(slot.e, m.from); }
    hide OnRead, OnWrite;
    if m == SharedWithData(true) { assert Step(slot, m).out[0] == WriteBack; }
    if m.Evict? && Dirty(slot) && Listed(slot, m.from) { assert Step(slot, m).out[0] == WriteBack; }
  }

  /** A line that is out of date in memory stays marked so until it is written back, its owner is asked to
      send it to a new owner, or its owner answers that it has not written it or no longer has it. */
  lemma DirtyUntilWritten(slot: Slot, m: Message)
    requires Ok(slot) && Dirty(slot) && Step(slot, m).Next?
    ensures var o := Step(slot, m);
      Dirty(o.slot) || WriteBack in o.out || m == SharedWithData(false) || m == SharedWithoutData
      || (m.Write? && o.slot.Present? && o.slot.e.kind == ToModified && exists y :: y in slot.e.sharers && AskInvalidate(y, true) in o.out)
  {
    WritesBack(slot, m);
    if m.Write? && slot.e.sharers != {} && AskInvalidate(First(slot.e.sharers), true) in Step(slot, m).out {
      assert First(slot.e.sharers) in slot.e.sharers;
    }
  }

  // ---------------------------------------------------------------- what becomes of a request

  /** The request is held back by the entry, whose sharers stay. */
  predicate HoldsBack(e: Entry, o: Outcome, from: nat, write: bool) {
    && o.Next? && o.slot.Present? && InTransit(o.slot.e.kind)
    && o.slot.e.pending == Held(from, write) && o.slot.e.sharers == e.sharers
  }

  /** A read request: a new entry fetches the line; while the entry is in transit, or when the cache is listed
      already, it is refused; otherwise it is held back and one sharer is asked, as the owner if it is one. */
  lemma ReadOutcome(slot: Slot, from: nat)
    requires Ok(slot)
    ensures var o := Step(slot, Read(from));
      if slot.Absent? then o.Next? && o.out == [Fetch(from)] && o.slot.Present? && o.slot.e.kind == ToExclusive && o.slot.e.sharers == {from}
      else if InTransit(slot.e.kind) || Listed(slot, from) then o == Next(slot, [Nack(from)])
      else
        && HoldsBack(slot.e, o, from, false) && (o.slot.e.kind == ModifiedToShared <==> slot.e.kind == Modified)
        && exists y :: y in slot.e.sharers && o.out == [AskShared(y, slot.e.kind == Modified)]
  {
    if slot.Present? && slot.e.sharers != {} {
      assert First(slot.e.sharers) in slot.e.sharers;
    }
  }

  /** A write request: a new entry fetches the line; while the entry is in transit, or from the owner of a
      modified line, it is refused; the only sharer of an exclusive line may upgrade; otherwise a round
      starts (see RoundStarts). */
  lemma WriteOutcome(slot: Slot, from: nat)
    requires Ok(slot)
    ensures var o := Step(slot, Write(from));
      if slot.Absent? then o.Next? && o.out == [Fetch(from)] && o.slot.Present? && o.slot.e.kind == ToModified && o.slot.e.sharers == {from}
      else if InTransit(slot.e.kind) || (slot.e.kind == Modified && Listed(slot, from)) then o == Next(slot, [Nack(from)])
      else if slot.e.kind == Exclusive && Listed(slot, from) then
        o.Next? && o.out == [GrantUpgrade(from)] && Owner(o.slot, from, true)
      else HoldsBack(slot.e, o, from, true) && RoundOpen(o.slot)
  {
    if slot.Present? && slot.e.kind == Exclusive { SingleFirst(slot.e.sharers); }
    hide Invalidations;
  }

  /** An eviction takes exactly its sender off the list, unless a write is under way, which will ask for its
      answer; and the entry ends when nobody is left, unless a read is held back. */
  lemma EvictOutcome(slot: Slot, x: nat)
    requires Ok(slot)
    ensures var o := Step(slot, Evict(x));
      && o.Next?
      && (Listed(o.slot, x) <==> Listed(slot, x) && slot.e.kind == ToModified)
      && (forall y: nat :: y != x ==> (Listed(o.slot, y) <==> Listed(slot, y)))
      && (o.slot.Present? && o.slot != slot ==> o.slot.e.kind == slot.e.kind && o.slot.e.pending == slot.e.pending)
      && (slot.Present? && o.slot.Absent? ==> (Listed(slot, x) && !InTransit(slot.e.kind)) || slot.e.kind == ToExclusive)
  {
    if slot.Present? {
      EvictOk(slot.e, x);
      EvictList(slot.e, x);
      hide OnEvict;
    }
  }

  lemma EvictList(e: Entry, x: nat)
    requires EntryOk(e)
    ensures OnEvict(e, x).Next?
    ensures var s := OnEvict(e, x).slot;
      && (Listed(s, x) <==> x in e.sharers && e.kind == ToModified)
      && (forall y: nat :: y != x ==> (Listed(s, y) <==> y in e.sharers))
      && (s.Present? && s.e != e ==> s.e.kind == e.kind && s.e.pending == e.pending)
      && (s.Absent? ==> (x in e.sharers && !InTransit(e.kind)) || e.kind == ToExclusive)
  {
    if |e.sharers| <= 1 && x in e.sharers {
      OneLess(e.sharers, x);
    }
    if x !in e.sharers { assert e.sharers - {x} == e.sharers; }
    forall y | y in e.sharers && y != x ensures y in e.sharers - {x} && e.sharers - {x} != {} {}
  }
}
