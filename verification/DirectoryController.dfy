/** The directory as the program runs it: queues and event maps in front of a table of entries that is
    updated in place.  Handling a message is proved against module DirectoryEntry, and the hand-over from
    events to queues against a simple description; a call never finds nothing to do. */
module DirectoryController {
  import opened Arithmetic
  import opened DirectoryEntry
  import opened Inbox

  /** A message about one entry. */
  datatype Packet = Packet(entry: nat, m: Message)

  function SlotOf(dir: map<nat, Entry>, entry: nat): Slot {
    if entry in dir then Present(dir[entry]) else Absent
  }

  /** The table after an entry has been changed or dropped. */
  function Stored(dir: map<nat, Entry>, entry: nat, slot: Slot): map<nat, Entry> {
    match slot
    case Present(e) => dir[entry := e]
    case Absent => dir - {entry}
  }

  /** The first of the replies waiting is taken, or if there is none the first of the requests. */
  predicate Took(rep: seq<Packet>, req: seq<Packet>, p: Packet, repQ: seq<Packet>, reqQ: seq<Packet>) {
    if rep != [] then p == rep[0] && repQ == rep[1..] && reqQ == req
    else req != [] && p == req[0] && repQ == [] && reqQ == req[1..]
  }

  /** Something is left when the first message has been taken. */
  predicate More(rep: seq<Packet>, req: seq<Packet>) {
    if rep != [] then |rep| > 1 || req != [] else |req| > 1
  }

  lemma TookMore(rep: seq<Packet>, req: seq<Packet>, p: Packet, repQ: seq<Packet>, reqQ: seq<Packet>)
    requires Took(rep, req, p, repQ, reqQ)
    ensures More(rep, req) == (repQ != [] || reqQ != [])
  {
  }

  datatype Verdict = Fine | Failed(why: Failure)

  /** The outcome o of a step is what a method has done that returned `out` and `v`. */
  predicate Does(o: Outcome, v: Verdict, out: seq<Output>, dir: map<nat, Entry>, dir': map<nat, Entry>, entry: nat) {
    match o
    case Next(slot, sent) => v == Fine && out == sent && dir' == Stored(dir, entry, slot)
    case Fatal(why) => v == Failed(why)
  }

  lemma StoredSame(dir: map<nat, Entry>, entry: nat)
    ensures Stored(dir, entry, SlotOf(dir, entry)) == dir
  {
  }

  class Directory {
    const interval: int
    var dir: map<nat, Entry>
    var repQ: seq<Packet>
    var reqQ: seq<Packet>
    var repEvent: map<int, seq<Packet>>
    var reqEvent: map<int, seq<Packet>>
    /** The calls of this directory in the global event queue, and the time of the last one. */
    var scheduled: set<int>
    ghost var now: int

    /** Every waiting message has its call and every call its message. */
    ghost predicate Valid()
      reads this
    {
      && Timely(repEvent, reqEvent, repQ != [] || reqQ != [], scheduled, now, interval)
      && (forall e :: e in dir ==> EntryOk(dir[e]))
    }

    constructor (pi: int)
      requires pi > 0
      ensures Valid() && dir == map[] && now == 0
    {
      interval, dir, repQ, reqQ := pi, map[], [], [];
      repEvent, reqEvent, scheduled, now := map[], map[], {}, 0;
      new;
      assert 0 % interval == 0;
    }

    // -------------------------------------------------------------- arrivals

    method AddReqEvent(eventTime: int, p: Packet)
      requires Valid() && now < eventTime
      modifies this`reqEvent, this`scheduled
      ensures Valid()
      ensures var t := CeilBy(eventTime, interval);
        reqEvent == old(reqEvent)[t := At(old(reqEvent), t) + [p]] && scheduled == old(scheduled) + {t}
    {
      var t := CeilBy(eventTime, interval);
      scheduled := scheduled + {t};
      reqEvent := reqEvent[t := At(reqEvent, t) + [p]];
    }

    method AddRepEvent(eventTime: int, p: Packet)
      requires Valid() && now < eventTime
      modifies this`repEvent, this`scheduled
      ensures Valid()
      ensures var t := CeilBy(eventTime, interval);
        repEvent == old(repEvent)[t := At(old(repEvent), t) + [p]] && scheduled == old(scheduled) + {t}
    {
      var t := CeilBy(eventTime, interval);
      scheduled := scheduled + {t};
      repEvent := repEvent[t := At(repEvent, t) + [p]];
    }

    // -------------------------------------------------------------- from events to queues

    /** Move what is due into the queues and take the first message: replies go before requests.  There
        always is one. */
    method TakeNext(t: int) returns (p: Packet)
      requires Valid() && t in scheduled && forall e :: e in scheduled ==> t <= e
      modifies this`repQ, this`reqQ, this`repEvent, this`reqEvent, this`scheduled, this`now
      ensures Valid() && now == t && dir == old(dir)
      ensures Took(old(repQ) + At(old(repEvent), t), old(reqQ) + At(old(reqEvent), t), p, repQ, reqQ)
      ensures repEvent == old(repEvent) - {t} && reqEvent == old(reqEvent) - {t}
      ensures scheduled == old(scheduled) - {t} + if repQ != [] || reqQ != [] then {t + interval} else {}
    {
      ghost var rep, req := repQ + At(repEvent, t), reqQ + At(reqEvent, t);
      ghost var more := More(rep, req);
      SomethingDue(repEvent, reqEvent, repQ != [] || reqQ != [], scheduled, now, interval, t);
      TimelyNext(repEvent, reqEvent, repQ != [] || reqQ != [], scheduled, now, interval, t, more);
      hide Timely, Took, More, At;
      p := TakeFirst(t);
      TookMore(rep, req, p, repQ, reqQ);
      scheduled := scheduled - {t};
      if repQ != [] || reqQ != [] {
        scheduled := scheduled + {t + interval};
      }
      now := t;
    }

    method TakeFirst(t: int) returns (p: Packet)
      requires repQ + At(repEvent, t) != [] || reqQ + At(reqEvent, t) != []
      modifies this`repQ, this`reqQ, this`repEvent, this`reqEvent
      ensures Took(old(repQ) + At(old(repEvent), t), old(reqQ) + At(old(reqEvent), t), p, repQ, reqQ)
      ensures repEvent == old(repEvent) - {t} && reqEvent == old(reqEvent) - {t}
    {
      var found, reply := TakeReply(t);
      p := reply;
      if !found { p := TakeRequest(t); } else { QueueRequests(t); }
    }

    method TakeReply(t: int) returns (found: bool, p: Packet)
      modifies this`repQ, this`repEvent
      ensures repEvent == old(repEvent) - {t}
      ensures var rep := old(repQ) + At(old(repEvent), t);
        found == (rep != []) && if found then p == rep[0] && repQ == rep[1..] else repQ == []
    {
      p := Packet(0, UpgradeFailed);
      var due := At(repEvent, t);
      repEvent := repEvent - {t};
      found := true;
      if repQ != [] {
        p, repQ := repQ[0], repQ[1..];
      } else if due != [] {
        p, due := due[0], due[1..];
      } else {
        found := false;
      }
      repQ := PushAll(repQ, due);
    }

    method TakeRequest(t: int) returns (p: Packet)
      requires reqQ + At(reqEvent, t) != []
      modifies this`reqQ, this`reqEvent
      ensures reqEvent == old(reqEvent) - {t}
      ensures var req := old(reqQ) + At(old(reqEvent), t); p == req[0] && reqQ == req[1..]
    {
      var due := At(reqEvent, t);
      reqEvent := reqEvent - {t};
      if reqQ != [] {
        p, reqQ := reqQ[0], reqQ[1..];
      } else {
        p, due := due[0], due[1..];
      }
      reqQ := PushAll(reqQ, due);
    }

    method QueueRequests(t: int)
      modifies this`reqQ, this`reqEvent
      ensures reqEvent == old(reqEvent) - {t} && reqQ == old(reqQ) + At(old(reqEvent), t)
    {
      var due := At(reqEvent, t);
      reqEvent := reqEvent - {t};
      reqQ := PushAll(reqQ, due);
    }

    method PushAll(q: seq<Packet>, due: seq<Packet>) returns (r: seq<Packet>)
      ensures r == q + due
    {
      r := q;
      for i := 0 to |due|
        invariant r == q + due[..i]
      {
        r := r + [due[i]];
      }
    }

    // -------------------------------------------------------------- handling a message

    /** One call at time t: take the next message and handle it. */
    method ProcessEvent(t: int) returns (p: Packet, out: seq<Output>, v: Verdict)
      requires Valid() && t in scheduled && forall e :: e in scheduled ==> t <= e
      modifies this
      ensures Took(old(repQ) + At(old(repEvent), t), old(reqQ) + At(old(reqEvent), t), p, repQ, reqQ)
      ensures Does(Step(SlotOf(old(dir), p.entry), p.m), v, out, old(dir), dir, p.entry)
      ensures !Harmful(SlotOf(old(dir), p.entry), p.m) ==> v != Failed(WrongSize) && (v == Fine ==> Valid())
    {
      p := TakeNext(t);
      ghost var slot := SlotOf(dir, p.entry);
      ghost var before := dir;
      StoredSame(dir, p.entry);
      if p.m.Read? || p.m.Write? {
        out, v := HandleRequest(p.entry, p.m);
      } else {
        out, v := HandleReply(p.entry, p.m);
      }
      if !Harmful(slot, p.m) {
        StepOk(slot, p.m);
        hide Step;
        if v == Fine {
          assert forall e :: e in dir && e != p.entry ==> e in before && dir[e] == before[e];
        }
      }
    }

    method HandleRequest(entry: nat, m: Message) returns (out: seq<Output>, v: Verdict)
      requires m.Read? || m.Write?
      modifies this`dir
      ensures Does(Step(SlotOf(old(dir), entry), m), v, out, old(dir), dir, entry)
    {
      StoredSame(dir, entry);
      if entry !in dir {
        dir := dir[entry := Fresh.(kind := if m.Read? then ToExclusive else ToModified, sharers := {m.from})];
        return [Fetch(m.from)], Fine;
      }
      hide Stored;
      if InTransit(dir[entry].kind) {
        out, v := [Nack(m.from)], Fine;
      } else if m.Read? {
        out, v := HandleRead(entry, m.from);
      } else {
        out, v := HandleWrite(entry, m.from);
      }
    }

    method HandleRead(entry: nat, from: nat) returns (out: seq<Output>, v: Verdict)
      requires entry in dir && !InTransit(dir[entry].kind)
      modifies this`dir
      ensures Does(OnRead(old(dir)[entry], from), v, out, old(dir), dir, entry)
    {
      var e := dir[entry];
      StoredSame(dir, entry);
      if from in e.sharers { return [Nack(from)], Fine; }
      if e.kind == Shared {
        if e.sharers == {} { return [], Failed(WrongSize); }
      } else if |e.sharers| != 1 {
        return [], Failed(WrongSize);
      }
      dir := dir[entry := Hold(e, if e.kind == Modified then ModifiedToShared else ToShared, from, false)];
      var first := FirstOf(e.sharers);
      out, v := [AskShared(first, e.kind == Modified)], Fine;
    }

    method HandleWrite(entry: nat, from: nat) returns (out: seq<Output>, v: Verdict)
      requires entry in dir && !InTransit(dir[entry].kind)
      modifies this`dir
      ensures Does(OnWrite(old(dir)[entry], from), v, out, old(dir), dir, entry)
    {
      var e := dir[entry];
      StoredSame(dir, entry);
      if e.kind == Exclusive {
        if |e.sharers| != 1 { return [], Failed(WrongSize); }
        if from in e.sharers {
          dir := dir[entry := e.(kind := ToModified)];
          return [GrantUpgrade(from)], Fine;
        }
        dir := dir[entry := Hold(e, ToModified, from, true).(gotLine := false)];
        var first := FirstOf(e.sharers);
        out := [AskInvalidate(first, true)];
      } else if e.kind == Shared {
        if e.sharers == {} { return [], Failed(WrongSize); }
        dir := dir[entry := Hold(e, ToModified, from, true)];
        out := InvalidateAll(e.sharers);
      } else {
        if e.pending != Nothing || |e.sharers| != 1 { return [], Failed(WrongSize); }
        if from in e.sharers { return [Nack(from)], Fine; }
        dir := dir[entry := Hold(e, ToModified, from, true)];
        var first := FirstOf(e.sharers);
        out := [AskInvalidate(first, true)];
      }
      v := Fine;
    }

    /** The least element of a set. */
    method FirstOf(s: set<nat>) returns (r: nat)
      requires s != {}
      ensures r == First(s)
    {
      var rest := s;
      r :| r in s;
      while rest != {}
        invariant rest <= s && r in s && forall x :: x in s - rest ==> r <= x
      {
        var x :| x in rest;
        assert s - (rest - {x}) == (s - rest) + {x};
        rest := rest - {x};
        if x < r { r := x; }
      }
      assert s - rest == s;
      assert forall x :: x in s ==> x in s - rest;
    }

    /** Ask every sharer, in order, to invalidate its line. */
    method InvalidateAll(s: set<nat>) returns (out: seq<Output>)
      requires s != {}
      ensures out == Invalidations(s, First(s))
    {
      var first := FirstOf(s);
      var rest := s;
      out := [];
      while rest != {}
        invariant rest <= s && out + Invalidations(rest, first) == Invalidations(s, first)
      {
        var x := FirstOf(rest);
        out := out + [AskInvalidate(x, x == first)];
        rest := rest - {x};
      }
    }

    method HandleReply(entry: nat, m: Message) returns (out: seq<Output>, v: Verdict)
      requires !m.Read? && !m.Write?
      modifies this`dir
      ensures Does(Step(SlotOf(old(dir), entry), m), v, out, old(dir), dir, entry)
    {
      StoredSame(dir, entry);
      out, v := [], Fine;
      match m
      case Evict(from) =>
        if entry in dir { out, v := HandleEvict(entry, from); }
      case UpgradeFailed =>
        if entry in dir {
          if dir[entry].kind != ToModified { return [], Failed(WrongState); }
          dir := dir - {entry};
        }
      case Upgraded =>
        if entry in dir {
          if dir[entry].kind != ToModified { return [], Failed(WrongState); }
          dir := dir[entry := dir[entry].(kind := Modified, pending := Nothing)];
        }
      case Invalidated(from, data) =>
        if entry in dir { out, v := HandleInvalidated(entry, from, data); }
      case SharedWithoutData =>
        if entry !in dir { return [], Failed(WrongState); }
        out, v := HandleShared(entry, false, false);
      case SharedWithData(written) =>
        if entry !in dir { return [], Failed(WrongState); }
        out, v := HandleShared(entry, true, written);
      case FromMemory(requester, exclusive) =>
        var write := false;
        if entry in dir {
          if dir[entry].kind == ToExclusive && exclusive {
            dir := dir[entry := dir[entry].(kind := Exclusive)];
          } else if dir[entry].kind == ToModified && exclusive {
            dir := dir[entry := dir[entry].(kind := Modified)];
            write := true;
          }
        }
        out := [Data(requester, write)];
      case _ =>
    }

    method HandleEvict(entry: nat, from: nat) returns (out: seq<Output>, v: Verdict)
      requires entry in dir
      modifies this`dir
      ensures Does(OnEvict(old(dir)[entry], from), v, out, old(dir), dir, entry)
    {
      var e := dir[entry];
      StoredSame(dir, entry);
      out, v := [], Fine;
      if e.kind == Modified || e.kind == ModifiedToShared {
        if |e.sharers| > 1 { return [], Failed(WrongSize); }
        if from in e.sharers {
          if e.kind == Modified {
            dir := dir - {entry};
          } else {
            dir := dir[entry := e.(sharers := e.sharers - {from})];
          }
          out := [WriteBack];
        }
      } else if e.kind == ToShared {
        dir := dir[entry := e.(sharers := e.sharers - {from})];
      } else if e.kind != ToModified {
        var rest := e.sharers - {from};
        dir := dir[entry := e.(sharers := rest)];
        if rest == {} { dir := dir - {entry}; }
      }
    }

    method HandleInvalidated(entry: nat, from: nat, data: bool) returns (out: seq<Output>, v: Verdict)
      requires entry in dir
      modifies this`dir
      ensures Does(OnInvalidated(old(dir)[entry], from, data), v, out, old(dir), dir, entry)
    {
      var e := dir[entry];
      if e.kind != ToModified || e.pending == Nothing { return [], Failed(WrongState); }
      var w := e.pending.requester;
      e := e.(gotLine := data || e.gotLine, sharers := e.sharers - {from}, answered := e.answered + {from});
      out, v := [], Fine;
      if e.sharers == {} {
        e := e.(sharers := {w}, pending := Nothing);
        if e.gotLine {
          e := e.(kind := Modified, gotLine := false);
          out := [Data(w, true)];
        } else {
          out := [Fetch(w)];
        }
      }
      dir := dir[entry := e];
    }

    method HandleShared(entry: nat, hasData: bool, written: bool) returns (out: seq<Output>, v: Verdict)
      requires entry in dir
      modifies this`dir
      ensures Does(if hasData then OnShared(old(dir)[entry], written) else OnSharedNd(old(dir)[entry]), v, out, old(dir), dir, entry)
    {
      var e := dir[entry];
      if (e.kind != ToShared && e.kind != ModifiedToShared) || e.pending == Nothing { return [], Failed(WrongState); }
      var w := e.pending.requester;
      e := e.(kind := Shared, pending := Nothing);
      if hasData {
        out := (if written then [WriteBack] else []) + [Data(w, false)];
        e := e.(sharers := e.sharers + {w});
      } else {
        out := [Nack(w)];
      }
      v := Fine;
      dir := dir[entry := e];
      if e.sharers == {} { dir := dir - {entry}; }
    }
  }
}
