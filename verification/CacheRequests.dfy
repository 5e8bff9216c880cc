/** Every request of a first-level cache that reaches the second level, by itself or with the message that
    carries it, goes on exactly once: to its requester, to the directory, or to the owner of the line. */
module CacheRequests {
  import opened CacheSet

  /** A first-level cache waits for the message, which is then the requester m.x.  When a line is given up
      only because the directory invalidates it nobody does. */
  predicate Awaited(l: Line, m: Message) {
    match m
    case Read(x, demand) => demand
    case Write(x) => true
    case UpgradeGranted(x) => true
    case Fill(kind, x, demand) => demand
    case Yielded(x, read) => !(l.state == ToInvalid && l.pending != Nothing && l.l1 == ToInvalid)
    case Refused(x, demand) => demand
    case _ => false
  }

  function Requester(m: Message): nat {
    match m
    case Read(x, demand) => x
    case Write(x) => x
    case UpgradeGranted(x) => x
    case Fill(kind, x, demand) => x
    case Yielded(x, read) => x
    case L1Evict(x, data) => x
    case Refused(x, demand) => x
    case _ => 0
  }

  /** The output is the answer to a request, or the request on its way to the directory. */
  predicate Goes(o: Output) {
    match o
    case L1(x, order) => order == ReadData || order == WriteData || order == Nack || order == ReadBypass
    case Dir(news) => news.Request?
  }

  predicate GoesFor(o: Output, x: nat) {
    if o.L1? then o.x == x else o.news.Request? && o.news.x == x
  }

  predicate ForWrite(m: Message) {
    m.Write? || m.UpgradeGranted? || (m.Fill? && m.kind == WriteFill) || (m.Yielded? && !m.read)
  }

  /** Reads are answered as reads and writes as writes, unless they are refused. */
  predicate RightKind(o: Output, m: Message) {
    if o.L1? then
      (o.order == WriteData ==> ForWrite(m)) && (o.order == ReadData || o.order == ReadBypass ==> !ForWrite(m))
    else o.news.Request? && (o.news.write <==> ForWrite(m))
  }

  predicate Silent(out: set<Output>) {
    forall o :: o in out ==> !Goes(o)
  }

  /** Exactly one output carries the request on. */
  ghost predicate CarriedBy(out: set<Output>, o: Output, m: Message) {
    && o in out && Goes(o) && GoesFor(o, Requester(m)) && RightKind(o, m)
    && forall p :: p in out && Goes(p) ==> p == o
  }

  /** The request goes on: it is answered or sent to the directory once, or the owner is asked to give up
      the line and takes the request with it. */
  ghost predicate GoesOn(m: Message, awaited: bool, out: set<Output>) {
    if !awaited then Silent(out)
    else
      || (exists o :: CarriedBy(out, o, m))
      || (Silent(out) && m.Read? && exists y: nat :: L1(y, YieldShared) in out)
      || (Silent(out) && m.Write? && exists y: nat :: L1(y, YieldModified) in out)
  }

  lemma Carried(m: Message, out: set<Output>, o: Output)
    requires CarriedBy(out, o, m)
    ensures GoesOn(m, true, out)
  {
  }

  lemma EvictionsQuiet(s: set<nat>)
    ensures forall o :: o in Evictions(s) ==> o.L1? && !Goes(o)
  {
  }

  predicate OnlyEvicts(out: set<Output>, except: Output) {
    forall o :: o in out ==> o == except || (o.L1? && o.order == EvictLine)
  }

  lemma ReadOutputs(l: Line, x: nat)
    requires LineOk(l) && l.state != Invalid
    ensures var c := ReadLine(l, x);
      && c.Change?
      && (c.out == {L1(x, ReadData)} || c.out == {L1(x, Nack)} || (|l.sharers| == 1 && c.out == {L1(Only(l.sharers), YieldShared)}))
  {
    ReadLineOk(l, x);
  }

  lemma ReadGoes(l: Line, x: nat)
    requires LineOk(l) && l.state != Invalid
    ensures ReadLine(l, x).Change? && GoesOn(Read(x, true), true, ReadLine(l, x).out)
  {
    ReadOutputs(l, x);
    hide ReadLine, LineOk, Only;
    var m, out := Read(x, true), ReadLine(l, x).out;
    if out == {L1(x, ReadData)} { Carried(m, out, L1(x, ReadData)); }
    else if out == {L1(x, Nack)} { Carried(m, out, L1(x, Nack)); }
    else { assert L1(Only(l.sharers), YieldShared) in out; }
  }

  lemma WriteOutputs(l: Line, x: nat, miss: set<Output>, o: Output)
    requires LineOk(l) && l.state != Invalid && miss == {o}
    ensures var c := WriteLine(l, x, miss);
      && c.Change?
      && (if l.state == Exclusive || l.state == Shared then o in c.out && OnlyEvicts(c.out, o)
          else || (L1(x, WriteData) in c.out && OnlyEvicts(c.out, L1(x, WriteData))) || c.out == {L1(x, Nack)}
               || (|l.sharers| == 1 && c.out == {L1(Only(l.sharers), YieldModified)}))
  {
    WriteLineOk(l, x, miss);
    hide LineOk;
  }

  lemma WriteGoes(l: Line, x: nat, miss: set<Output>, o: Output)
    requires LineOk(l) && l.state != Invalid && miss == {o} && Goes(o) && GoesFor(o, x) && RightKind(o, Write(x))
    ensures WriteLine(l, x, miss).Change? && GoesOn(Write(x), true, WriteLine(l, x, miss).out)
  {
    WriteOutputs(l, x, miss, o);
    hide WriteLine, LineOk, Only, GoesOn;
    var m, out := Write(x), WriteLine(l, x, miss).out;
    if l.state == Exclusive || l.state == Shared { Carried(m, out, o); }
    else if L1(x, WriteData) in out { Carried(m, out, L1(x, WriteData)); }
    else if out == {L1(x, Nack)} { Carried(m, out, L1(x, Nack)); }
    else { Passed(m, out, Only(l.sharers)); }
  }

  lemma Passed(m: Message, out: set<Output>, y: nat)
    requires m.Write? && out == {L1(y, YieldModified)}
    ensures GoesOn(m, true, out)
  {
    assert L1(y, YieldModified) in out;
  }

  lemma UpgradeGoes(l: Line, x: nat)
    ensures UpgradeLine(l, x).Change? && GoesOn(UpgradeGranted(x), true, UpgradeLine(l, x).out)
  {
    EvictionsQuiet(l.sharers - {x});
    var out := UpgradeLine(l, x).out;
    hide Evictions;
    Carried(UpgradeGranted(x), out, if l.state == ToModified then L1(x, WriteData) else L1(x, Nack));
  }

  lemma FillGoes(l: Line, tag: nat, kind: FillKind, x: nat, demand: bool)
    ensures FillLine(l, kind, x, demand).Change? && GoesOn(Fill(kind, x, demand), demand, FillLine(l, kind, x, demand).out)
    ensures FillVictim(l, tag, kind, x, demand).Change? && GoesOn(Fill(kind, x, demand), demand, FillVictim(l, tag, kind, x, demand).out)
  {
    EvictionsQuiet(l.sharers - {x});
    EvictionsQuiet(l.sharers);
    var m, a, b := Fill(kind, x, demand), FillLine(l, kind, x, demand).out, FillVictim(l, tag, kind, x, demand).out;
    hide Evictions;
    if demand {
      var o := L1(x, if kind == WriteFill then WriteData else ReadData);
      Carried(m, a, if L1(x, ReadBypass) in a then L1(x, ReadBypass) else o);
      Carried(m, b, if L1(x, Nack) in b then L1(x, Nack) else o);
    }
  }

  lemma YieldGoes(l: Line, x: nat, read: bool)
    requires LineOk(l) && YieldLine(l, x, read).Change?
    ensures GoesOn(Yielded(x, read), Awaited(l, Yielded(x, read)), YieldLine(l, x, read).out)
  {
    EvictionsQuiet(l.sharers + {x});
    var m, out := Yielded(x, read), YieldLine(l, x, read).out;
    hide Evictions, LineOk;
    if Awaited(l, m) {
      Carried(m, out, if L1(x, Nack) in out then L1(x, Nack) else if read then L1(x, ReadData) else L1(x, WriteData));
    }
  }

  lemma OthersGo(l: Line, m: Message)
    requires m.L1Evict? || m.DirRead? || m.DirShare? || m.DirInvalidate? || m.Refused? || m.Nop?
    requires OnLine(l, m).Change?
    ensures GoesOn(m, Awaited(l, m), OnLine(l, m).out)
  {
    EvictionsQuiet(l.sharers);
    var out := OnLine(l, m).out;
    hide Evictions;
    if m.Refused? && m.demand { Carried(m, out, L1(m.x, Nack)); }
  }

  lemma LineGoes(l: Line, m: Message)
    requires LineOk(l) && l.state != Invalid && !m.Read? && !m.Write? && OnLine(l, m).Change?
    ensures GoesOn(m, Awaited(l, m), OnLine(l, m).out)
  {
    hide GoesOn;
    match m
    case UpgradeGranted(x) => UpgradeGoes(l, x);
    case Fill(kind, x, demand) => FillGoes(l, l.tag, kind, x, demand);
    case Yielded(x, read) => YieldGoes(l, x, read);
    case _ => OthersGo(l, m);
  }

  lemma MissGoes(alwaysHit: bool, x: nat, write: bool, demand: bool) returns (o: Output)
    requires write ==> demand
    ensures var m, out := if write then Write(x) else Read(x, demand), Missed(alwaysHit, x, write, demand);
      if !alwaysHit || demand then CarriedBy(out, o, m) && out == {o} else out == {}
  {
    o := if !alwaysHit then Dir(Request(x, write)) else L1(x, if write then WriteData else ReadData);
  }

  lemma AbsentGoes(alwaysHit: bool, m: Message, l: Line)
    requires !m.Read? && !m.Write? && !m.Fill? && !m.Yielded?
    ensures GoesOn(m, Awaited(l, m), AbsentAnswer(alwaysHit, m))
  {
    var out := AbsentAnswer(alwaysHit, m);
    if m.UpgradeGranted? || (m.Refused? && m.demand) { Carried(m, out, L1(m.x, Nack)); }
  }

  /** A prefetch that misses goes to the directory although no first-level cache waits for it. */
  predicate Prefetches(alwaysHit: bool, ways: seq<Line>, tag: nat, m: Message) {
    m.Read? && !m.demand && !alwaysHit && Find(ways, tag, true) == |ways|
  }

  /** The line that the message finds; where there is none nobody has given one up. */
  function Found(ways: seq<Line>, tag: nat): Line
    requires |ways| > 0
  {
    var i := Find(ways, tag, false);
    if i < |ways| then ways[i] else ways[0]
  }

  lemma RequestsGoOn(alwaysHit: bool, ways: seq<Line>, tag: nat, m: Message)
    requires SetOk(ways) && (m.Read? || m.Write?)
    ensures var o := OnRequest(alwaysHit, ways, tag, m);
      o.Next? && GoesOn(m, Awaited(ways[0], m) || Prefetches(alwaysHit, ways, tag, m), o.out)
  {
    RequestOk(alwaysHit, ways, tag, m);
    var i := Find(ways, tag, true);
    hide GoesOn, LineOk;
    if i == |ways| {
      var demand := m.Write? || m.demand;
      var o := MissGoes(alwaysHit, m.x, m.Write?, demand);
      if !alwaysHit || demand { Carried(m, {o}, o); } else { assert GoesOn(m, false, {}) by { Quiet(m); } }
    } else if m.Write? {
      var o := MissGoes(alwaysHit, m.x, true, true);
      WriteGoes(ways[i], m.x, Missed(alwaysHit, m.x, true, true), o);
    } else if m.demand {
      ReadGoes(ways[i], m.x);
    } else {
      Quiet(m);
    }
  }

  lemma Quiet(m: Message)
    ensures GoesOn(m, false, {})
  {
  }

  /** Conservation of the first level's requests: a message for which a first-level cache waits, and a
      prefetch that misses, is carried on by exactly one output, of the right kind; and no output answers
      anything else. */
  lemma RequestsConserved(alwaysHit: bool, ways: seq<Line>, tag: nat, m: Message)
    requires SetOk(ways) && Step(alwaysHit, ways, tag, m).Next?
    ensures GoesOn(m, Awaited(Found(ways, tag), m) || Prefetches(alwaysHit, ways, tag, m), Step(alwaysHit, ways, tag, m).out)
  {
    var i := Find(ways, tag, false);
    hide GoesOn, LineOk, FillVictim, OnLine;
    if m.Read? || m.Write? {
      RequestsGoOn(alwaysHit, ways, tag, m);
    } else if i < |ways| {
      LineGoes(ways[i], m);
    } else if m.Fill? {
      FillGoes(ways[0], tag, m.kind, m.x, m.demand);
    } else {
      AbsentGoes(alwaysHit, m, ways[0]);
    }
  }
}
