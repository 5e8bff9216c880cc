/** A set of the second-level cache as the program runs it: an array of ways, searched by loops and
    shifted in place when a way becomes the most recently used one.  Every method is proved against
    module CacheSet. */
module CacheL2 {
  import opened CacheSet

  datatype Verdict = Fine | Failed(why: Failure)

  /** The outcome o of a step is what a method has done that left `ways` and returned `out` and `v`. */
  predicate Does(o: Outcome, v: Verdict, out: set<Output>, ways: seq<Line>) {
    match o
    case Next(after, sent) => v == Fine && out == sent && ways == after
    case Fatal(why) => v == Failed(why)
  }

  predicate Decides(c: Change, v: Verdict, out: set<Output>, l: Line, touched: bool) {
    match c
    case Change(line, t, sent) => v == Fine && out == sent && l == line && touched == t
    case Bad(why) => v == Failed(why)
  }

  lemma FindAt(ways: seq<Line>, tag: nat, request: bool, i: nat)
    requires i <= |ways| && (i < |ways| ==> Visible(ways[i], tag, request))
    requires forall j :: 0 <= j < i ==> !Visible(ways[j], tag, request)
    ensures Find(ways, tag, request) == i
  {
  }

  class L2Set {
    const ways: array<Line>
    const alwaysHit: bool

    ghost predicate Valid()
      reads ways
    {
      SetOk(ways[..])
    }

    constructor (numWays: nat, hit: bool)
      requires numWays > 0
      ensures Valid() && Empty(ways[..]) && ways.Length == numWays && alwaysHit == hit && fresh(ways)
    {
      ways := new Line[numWays](_ => Line(0, Invalid, Invalid, {}, Nothing));
      alwaysHit := hit;
    }

    /** The first way that holds the tag, or the number of ways. */
    method FindWay(tag: nat, request: bool) returns (idx: nat)
      ensures idx == Find(ways[..], tag, request)
    {
      idx := 0;
      while idx < ways.Length
        invariant idx <= ways.Length && forall j :: 0 <= j < idx ==> !Visible(ways[j], tag, request)
      {
        var l := ways[idx];
        if l.state == Invalid || (request && l.state == ToExclusive) {
          idx := idx + 1;
        } else if l.tag == tag {
          break;
        } else {
          idx := idx + 1;
        }
      }
      FindAt(ways[..], tag, request, idx);
    }

    /** Move the ways behind idx up by one and put l last. */
    method UpdateLru(idx: nat, l: Line)
      requires idx < ways.Length
      modifies ways
      ensures ways[..] == Touch(old(ways[..]), idx, l)
    {
      var i := idx;
      while i < ways.Length - 1
        invariant idx <= i <= ways.Length - 1
        invariant forall j :: idx <= j < i ==> ways[j] == old(ways[j + 1])
        invariant forall j :: 0 <= j < idx || i <= j < ways.Length ==> ways[j] == old(ways[j])
      {
        ways[i] := ways[i + 1];
        i := i + 1;
      }
      ways[ways.Length - 1] := l;
    }

    /** Tell the sharers, all but one of them if it is given, to evict the line. */
    method EvictSharers(s: set<nat>, all: bool, except: nat) returns (out: set<Output>)
      ensures out == Evictions(if all then s else s - {except})
    {
      out := {};
      ghost var kept := if all then s else s - {except};
      var rest := s;
      while rest != {}
        invariant rest <= s && out == Evictions(kept - rest)
      {
        var x :| x in rest;
        if all || x != except {
          out := out + {L1(x, EvictLine)};
          assert kept - (rest - {x}) == (kept - rest) + {x};
        } else {
          assert kept - (rest - {x}) == kept - rest;
        }
        rest := rest - {x};
      }
      assert kept - rest == kept;
    }

    /** Store a changed line. */
    method Store(idx: nat, l: Line, touched: bool)
      requires idx < ways.Length
      modifies ways
      ensures ways[..] == if touched then Touch(old(ways[..]), idx, l) else old(ways[..])[idx := l]
    {
      if touched { UpdateLru(idx, l); } else { ways[idx] := l; }
    }

    // -------------------------------------------------------------- requests

    /** A read request for a line of the set. */
    method ReadHit(l0: Line, x: nat) returns (v: Verdict, l: Line, out: set<Output>)
      ensures Decides(ReadLine(l0, x), v, out, l, true)
    {
      l, v, out := l0, Fine, {L1(x, ReadData)};
      var stable := l.state == Exclusive || l.state == Shared || l.state == Modified;
      if l.l1 == Invalid && stable {
        l := l.(l1 := Exclusive, sharers := l.sharers + {x});
      } else if l.l1 == Exclusive && stable {
        l := l.(sharers := l.sharers + {x});
        if |l.sharers| > 1 { l := l.(l1 := Shared); }
      } else if l.l1 == Shared && stable {
        l := l.(sharers := l.sharers + {x});
      } else if l.l1 == Modified && l.state == Modified {
        if |l.sharers| > 1 { return Failed(WrongSize), l, {}; }
        if |l.sharers| == 1 {
          if x !in l.sharers {
            var owner :| owner in l.sharers;
            OnlyIs(l.sharers, owner);
            out := {L1(owner, YieldShared)};
            l := l.(l1 := ToShared, sharers := {});
          }
        } else {
          l := l.(l1 := Shared, sharers := l.sharers + {x});
        }
      } else if Waiting(l) {
        out := {L1(x, Nack)};
      } else {
        v := Failed(WrongState);
      }
    }

    /** A write request for a line of the set. */
    method WriteHit(l0: Line, x: nat) returns (v: Verdict, l: Line, touched: bool, out: set<Output>)
      ensures Decides(WriteLine(l0, x, Missed(alwaysHit, x, true, true)), v, out, l, touched)
    {
      l, v, touched, out := l0, Fine, true, {L1(x, WriteData)};
      if l.state == Exclusive || l.state == Shared {
        touched := false;
        out := RequestMiss(x, true, true);
        if l.state == Exclusive && l.sharers == {x} {
          l := l.(state := ToModified);
        } else {
          var told := EvictSharers(l.sharers, false, x);
          out := out + told;
          if l.sharers != {} { l := l.(state := Invalid); }
          l := l.(sharers := {});
        }
        return;
      }
      if l.state == Modified && l.l1 == Invalid {
      } else if l.state == Modified && l.l1 == Modified {
        if |l.sharers| != 1 { return Failed(WrongSize), l, false, {}; }
        if x !in l.sharers {
          var owner :| owner in l.sharers;
          OnlyIs(l.sharers, owner);
          out := {L1(owner, YieldModified)};
          l := l.(l1 := ToModified, sharers := {});
          return;
        }
      } else if l.state == Modified && l.l1 == Exclusive {
        if |l.sharers| > 1 { return Failed(WrongSize), l, false, {}; }
        var told := EvictSharers(l.sharers, false, x);
        out := told + out;
        l := l.(sharers := {});
      } else if l.state == Modified && l.l1 == Shared {
        var told := EvictSharers(l.sharers, false, x);
        out := told + out;
        l := l.(sharers := {});
      } else if Waiting(l) {
        out := {L1(x, Nack)};
        return;
      } else {
        return Failed(WrongState), l, false, {};
      }
      l := l.(l1 := Modified, sharers := l.sharers + {x});
    }

    /** A request that is not served by the set goes to the directory, or is answered all the same in the
        always-hit mode. */
    method RequestMiss(x: nat, write: bool, demand: bool) returns (out: set<Output>)
      ensures out == Missed(alwaysHit, x, write, demand)
    {
      out := {};
      if !alwaysHit {
        out := {Dir(Request(x, write))};
      } else if demand {
        if write { out := {L1(x, WriteData)}; } else { out := {L1(x, ReadData)}; }
      }
    }

    method HandleRequest(tag: nat, m: Message) returns (v: Verdict, out: set<Output>)
      requires Valid() && (m.Read? || m.Write?)
      modifies ways
      ensures Does(OnRequest(alwaysHit, old(ways[..]), tag, m), v, out, ways[..])
      ensures Valid() && v == Fine
    {
      RequestOk(alwaysHit, ways[..], tag, m);
      hide SetOk, ReadLine, WriteLine;
      var idx := FindWay(tag, true);
      if idx == ways.Length {
        v := Fine;
        out := RequestMiss(m.x, m.Write?, m.Write? || m.demand);
        return;
      }
      if m.Write? {
        var l, touched;
        v, l, touched, out := WriteHit(ways[idx], m.x);
        if v == Fine { Store(idx, l, touched); }
      } else if m.demand {
        var l;
        v, l, out := ReadHit(ways[idx], m.x);
        if v == Fine { UpdateLru(idx, l); }
      } else {
        v, out := Fine, {};
      }
    }

    // -------------------------------------------------------------- messages of the directory

    method DirReadHit(l0: Line) returns (v: Verdict, l: Line, out: set<Output>)
      ensures Decides(DirReadLine(l0), v, out, l, false)
    {
      l, v, out := l0, Fine, {};
      if l.state != Modified { return Failed(WrongState), l, {}; }
      if l.l1 == Invalid || l.l1 == Exclusive || l.l1 == Shared {
        l := l.(state := Shared);
        out := {Dir(GivesRead)};
      } else if l.l1 == Modified {
        if |l.sharers| != 1 { return Failed(WrongSize), l, {}; }
        var owner :| owner in l.sharers;
        OnlyIs(l.sharers, owner);
        out := {L1(owner, GiveBack)};
        l := l.(l1 := Exclusive, state := ToShared, pending := HeldRead, sharers := {});
      } else if l.l1 == ToModified || l.l1 == ToShared {
        if l.pending != Nothing { return Failed(WrongState), l, {}; }
        l := l.(pending := HeldRead);
      } else {
        v := Failed(WrongState);
      }
    }

    method DirInvalidateHit(l0: Line, data: bool) returns (v: Verdict, l: Line, out: set<Output>)
      ensures Decides(DirInvalidateLine(l0, data), v, out, l, false)
    {
      l, v, out := l0, Fine, {};
      if l.state == ToShared || l.state == ToExclusive || l.state == ToInvalid { return Failed(WrongState), l, {}; }
      if l.state == Modified && l.l1 == Modified {
        if |l.sharers| != 1 { return Failed(WrongSize), l, {}; }
        var owner :| owner in l.sharers;
        OnlyIs(l.sharers, owner);
        out := {L1(owner, YieldModified)};
        l := l.(l1 := ToInvalid, state := ToInvalid, pending := HeldInvalidate(data), sharers := {});
      } else if l.state == Modified && (l.l1 == ToModified || l.l1 == ToShared) {
        if l.pending != Nothing { return Failed(WrongState), l, {}; }
        l := l.(state := ToInvalid, pending := HeldInvalidate(data));
      } else {
        var told := EvictSharers(l.sharers, true, 0);
        out := told + {Dir(Invalidated(data))};
        l := l.(state := Invalid, l1 := Invalid, sharers := {});
      }
    }

    method DirShareHit(l0: Line) returns (v: Verdict, l: Line, out: set<Output>)
      ensures Decides(DirShareLine(l0), v, out, l, false)
    {
      l := l0;
      if l.state != Exclusive && l.state != Shared && l.state != ToModified { return Failed(WrongState), l, {}; }
      l := l.(state := Shared);
      v, out := Fine, {Dir(Shares(true))};
    }

    // -------------------------------------------------------------- replies for a line of the set

    /** The directory grants the upgrade of a line, which may have been lost meanwhile. */
    method UpgradeHit(l0: Line, x: nat) returns (l: Line, touched: bool, out: set<Output>)
      ensures Decides(UpgradeLine(l0, x), Fine, out, l, touched)
    {
      l, touched := l0, false;
      if l.state != ToModified {
        out := {L1(x, Nack)};
        out := out + {Dir(UpgradeFailed)};
      } else {
        out := EvictSharers(l.sharers, false, x);
        l := l.(sharers := {});
        l := l.(state := Modified, l1 := Modified);
        l := l.(sharers := l.sharers + {x});
        touched := true;
        out := out + {L1(x, WriteData)};
        out := out + {Dir(Upgraded)};
      }
    }

    /** Put the filled line in place, for the cache that waits for it or, after a prefetch, for nobody. */
    method Install(l0: Line, tag: nat, kind: FillKind, x: nat, demand: bool, shared: bool) returns (l: Line, out: set<Output>)
      ensures l == Filled(l0, tag, kind, x, demand, shared) && out == FillAnswer(kind, x, demand)
    {
      l, out := l0.(state := if kind == ExclusiveFill then Exclusive else if kind == SharedFill then Shared else Modified), {};
      if demand {
        l := l.(l1 := if kind == WriteFill then Modified else if shared then Shared else Exclusive, tag := tag);
        l := l.(sharers := l.sharers + {x});
        out := {L1(x, if kind == WriteFill then WriteData else ReadData)};
      } else {
        l := l.(l1 := Invalid, tag := tag);
      }
    }

    /** The data of a miss arrives and its tag is in the set. */
    method FillHit(l0: Line, kind: FillKind, x: nat, demand: bool) returns (l: Line, touched: bool, out: set<Output>)
      ensures Decides(FillLine(l0, kind, x, demand), Fine, out, l, touched)
    {
      l, out := l0, {};
      var bypass, shared := false, false;
      if kind == WriteFill {
        out := EvictSharers(l.sharers, false, x);
        l := l.(sharers := {});
      } else if l.state == Modified || l.state == ToExclusive {
        bypass := true;
        if demand { out := {L1(x, ReadBypass)}; }
      } else if kind == SharedFill {
        shared := true;
      }
      touched := !bypass;
      if !bypass {
        var answer;
        l, answer := Install(l, l.tag, kind, x, demand, shared);
        out := out + answer;
      }
    }

    /** The data of a miss arrives and takes the place of the least recently used line. */
    method FillMiss(l0: Line, tag: nat, kind: FillKind, x: nat, demand: bool) returns (l: Line, touched: bool, out: set<Output>)
      ensures Decides(FillVictim(l0, tag, kind, x, demand), Fine, out, l, touched)
    {
      l, out := l0, {};
      var bypass := false;
      if l.state == ToShared || l.state == ToModified || l.state == ToExclusive || l.state == ToInvalid {
        bypass := true;
        if demand { out := {L1(x, Nack)}; }
        out := out + {Dir(Evicted(tag))};
      } else if l.state != Invalid {
        out := EvictSharers(l.sharers, true, 0);
        l := l.(sharers := {});
        if l.l1 != Modified { out := out + {Dir(Evicted(l.tag))}; }
      }
      touched := !bypass;
      if !bypass {
        var answer;
        l, answer := Install(l, tag, kind, x, demand, false);
        out := out + answer;
      }
    }

    /** A first-level cache gives up a line so that x can have it. */
    method YieldHit(l0: Line, x: nat, read: bool) returns (v: Verdict, l: Line, out: set<Output>)
      ensures Decides(YieldLine(l0, x, read), v, out, l, true)
    {
      l, v, out := l0, Fine, {};
      if l.state == ToInvalid && l.pending != Nothing {
        if l.l1 == ToInvalid {
        } else if l.l1 == ToModified {
          out := {L1(x, Nack)};
        } else {
          out := {L1(x, Nack)};
          l := l.(sharers := l.sharers + {x});
          var told := EvictSharers(l.sharers, true, 0);
          out := out + told;
        }
        out := out + {Dir(Answer(l.pending))};
        l := l.(pending := Nothing, l1 := Invalid, state := Invalid, sharers := {});
      } else if l.l1 == ToModified || l.l1 == ToShared {
        l := l.(l1 := if l.l1 == ToShared then Shared else if l.pending == Nothing then Modified else Invalid);
        l := l.(sharers := l.sharers + {x});
        out := {L1(x, if read then ReadData else if l.pending == Nothing then WriteData else Nack)};
        if l.pending != Nothing {
          out := out + {Dir(Answer(l.pending))};
          l := l.(pending := Nothing, state := Shared);
        }
      } else {
        v := Failed(WrongState);
      }
    }

    /** A first-level cache evicts the line, or answers the directory's read through it. */
    method L1EvictHit(l0: Line, x: nat) returns (l: Line, touched: bool, out: set<Output>)
      ensures Decides(EvictLineOf(l0, x), Fine, out, l, touched)
    {
      l, touched, out := l0, false, {};
      if l.state == ToShared {
        l := l.(state := Shared);
        out := {Dir(Answer(l.pending))};
        l := l.(pending := Nothing);
        l := l.(sharers := l.sharers + {x});
      } else {
        l := l.(sharers := l.sharers - {x});
        if l.sharers == {} && l.l1 != ToShared && l.l1 != ToModified && l.l1 != ToInvalid { l := l.(l1 := Invalid); }
        touched := true;
      }
    }

    method ReplyHit(l0: Line, m: Message) returns (v: Verdict, l: Line, touched: bool, out: set<Output>)
      requires !m.Read? && !m.Write?
      ensures Decides(OnLine(l0, m), v, out, l, touched)
    {
      hide UpgradeLine, FillLine, YieldLine, EvictLineOf, DirReadLine, DirShareLine, DirInvalidateLine;
      v, l, touched, out := Fine, l0, false, {};
      match m {
        case UpgradeGranted(x) => l, touched, out := UpgradeHit(l0, x);
        case Fill(kind, x, demand) => l, touched, out := FillHit(l0, kind, x, demand);
        case Yielded(x, read) => v, l, out := YieldHit(l0, x, read); touched := true;
        case L1Evict(x, data) => l, touched, out := L1EvictHit(l0, x);
        case DirRead => v, l, out := DirReadHit(l0);
        case DirShare(exclusive) => v, l, out := DirShareHit(l0);
        case DirInvalidate(data) => v, l, out := DirInvalidateHit(l0, data);
        case Refused(x, demand) => if demand { out := {L1(x, Nack)}; }
        case Nop =>
      }
    }

    // -------------------------------------------------------------- replies for a line that is gone

    /** What is answered for a line that is not in the set; a fill makes room for it. */
    method ReplyMiss(m: Message) returns (v: Verdict, out: set<Output>)
      requires !m.Read? && !m.Write? && !m.Fill?
      ensures if m.Yielded? then v == Failed(WrongState) else v == Fine && out == AbsentAnswer(alwaysHit, m)
    {
      v, out := Fine, {};
      match m {
        case UpgradeGranted(x) =>
          out := {L1(x, Nack)};
          out := out + {Dir(UpgradeFailed)};
        case Yielded(x, read) => v := Failed(WrongState);
        case L1Evict(x, data) => if data && !alwaysHit { out := {Dir(PassOn(x))}; }
        case DirRead => out := {Dir(NoData)};
        case DirShare(exclusive) => out := {Dir(Shares(false))};
        case DirInvalidate(data) => out := {Dir(Invalidated(false))};
        case Refused(x, demand) => if demand { out := {L1(x, Nack)}; }
        case Nop =>
      }
    }

    method HandleReply(tag: nat, m: Message) returns (v: Verdict, out: set<Output>)
      requires Valid() && !m.Read? && !m.Write?
      modifies ways
      ensures Does(Step(alwaysHit, old(ways[..]), tag, m), v, out, ways[..])
      ensures v != Failed(WrongSize) && (v == Fine ==> Valid())
    {
      StepOk(alwaysHit, ways[..], tag, m);
      assert ways.Length > 0;
      hide SetOk, OnLine, FillVictim;
      var idx := FindWay(tag, false);
      var l, touched;
      if idx < ways.Length {
        v, l, touched, out := ReplyHit(ways[idx], m);
        if v == Fine { Store(idx, l, touched); }
      } else if m.Fill? {
        l, touched, out := FillMiss(ways[0], tag, m.kind, m.x, m.demand);
        v := Fine;
        Store(0, l, touched);
      } else {
        v, out := ReplyMiss(m);
      }
    }
  }
}
