/** One set of the second-level cache as a state machine over the messages for its lines.  First-level
    caches are numbers; `state` is a line's state towards the directory and `l1` towards them. */
module CacheSet {

  datatype State = Invalid | Exclusive | Shared | Modified | ToShared | ToModified | ToExclusive | ToInvalid

  /** The message of the directory that a line holds back. */
  datatype Pending = Nothing | HeldRead | HeldInvalidate(data: bool)

  datatype Line = Line(tag: nat, state: State, l1: State, sharers: set<nat>, pending: Pending)

  datatype FillKind = ExclusiveFill | SharedFill | WriteFill

  /** `demand` is false for prefetches, which have no first-level cache waiting. */
  datatype Message =
    | Read(x: nat, demand: bool)
    | Write(x: nat)
    | UpgradeGranted(x: nat)
    | Fill(kind: FillKind, x: nat, demand: bool)
    | Yielded(x: nat, read: bool)
    | L1Evict(x: nat, data: bool)
    | DirRead
    | DirShare(exclusive: bool)
    | DirInvalidate(data: bool)
    | Refused(x: nat, demand: bool)
    | Nop

  datatype ToL1 = EvictLine | ReadData | WriteData | Nack | ReadBypass | YieldShared | YieldModified | GiveBack

  datatype ToDir =
    | UpgradeFailed | Upgraded | Evicted(tag: nat) | Answer(held: Pending) | PassOn(x: nat)
    | NoData | Shares(data: bool) | GivesRead | Invalidated(data: bool) | Request(x: nat, write: bool)

  datatype Output = L1(x: nat, order: ToL1) | Dir(news: ToDir)

  datatype Failure = WrongSize | WrongState

  datatype Outcome = Next(ways: seq<Line>, out: set<Output>) | Fatal(why: Failure)

  /** What becomes of one line; `touched` lines become the most recently used. */
  datatype Change = Change(line: Line, touched: bool, out: set<Output>) | Bad(why: Failure)

  // ---------------------------------------------------------------- the set

  /** Replies see every line that is not invalid, requests not those waiting to become exclusive. */
  predicate Visible(l: Line, tag: nat, request: bool) {
    l.state != Invalid && l.tag == tag && (request ==> l.state != ToExclusive)
  }

  /** The way that holds the tag, or the number of ways. */
  function Find(ways: seq<Line>, tag: nat, request: bool): (i: nat)
    ensures i <= |ways|
    ensures i < |ways| ==> Visible(ways[i], tag, request)
    ensures forall j :: 0 <= j < i ==> !Visible(ways[j], tag, request)
  {
    if ways == [] then 0
    else if Visible(ways[0], tag, request) then 0
    else 1 + Find(ways[1..], tag, request)
  }

  /** The line leaves way i for the last one; the ways behind it move up. */
  function Touch(ways: seq<Line>, i: nat, l: Line): (r: seq<Line>)
    requires i < |ways|
    ensures |r| == |ways|
  {
    ways[..i] + ways[i + 1..] + [l]
  }

  function Apply(ways: seq<Line>, i: nat, c: Change): Outcome
    requires i < |ways|
  {
    match c
    case Bad(why) => Fatal(why)
    case Change(l, touched, out) => Next(if touched then Touch(ways, i, l) else ways[i := l], out)
  }

  /** Evictions for the sharers of a line, all or all but one. */
  function Evictions(s: set<nat>): set<Output> {
    set x | x in s :: L1(x, EvictLine)
  }

  predicate Stable(l: Line) {
    l.state == Exclusive || l.state == Shared || l.state == Modified
  }

  /** The only element of a set. */
  ghost function Only(s: set<nat>): (x: nat)
    requires |s| == 1
    ensures x in s
  {
    var x :| x in s;
    x
  }

  // ---------------------------------------------------------------- requests of the first-level caches

  ghost function ReadLine(l: Line, x: nat): Change {
    if l.l1 == Invalid && Stable(l) then Change(l.(l1 := Exclusive, sharers := l.sharers + {x}), true, {L1(x, ReadData)})
    else if l.l1 == Exclusive && Stable(l) then
      var s := l.sharers + {x};
      Change(l.(l1 := if |s| > 1 then Shared else Exclusive, sharers := s), true, {L1(x, ReadData)})
    else if l.l1 == Shared && Stable(l) then Change(l.(sharers := l.sharers + {x}), true, {L1(x, ReadData)})
    else if l.l1 == Modified && l.state == Modified then
      if |l.sharers| > 1 then Bad(WrongSize)
      else if |l.sharers| == 1 then
        if x in l.sharers then Change(l, true, {L1(x, ReadData)})
        else Change(l.(l1 := ToShared, sharers := {}), true, {L1(Only(l.sharers), YieldShared)})
      else Change(l.(l1 := Shared, sharers := l.sharers + {x}), true, {L1(x, ReadData)})
    else if Waiting(l) then Change(l, true, {L1(x, Nack)})
    else Bad(WrongState)
  }

  predicate Waiting(l: Line) {
    || (l.l1 == Exclusive && l.state == ToShared) || l.l1 == ToShared || l.l1 == ToModified || l.l1 == ToInvalid
    || l.state == ToModified
  }

  function OwnedBy(l: Line, x: nat): Line {
    l.(l1 := Modified, sharers := l.sharers + {x})
  }

  ghost function WriteLine(l: Line, x: nat, miss: set<Output>): Change {
    if l.state == Exclusive || l.state == Shared then
      if l.state == Exclusive && l.sharers == {x} then Change(l.(state := ToModified), false, miss)
      else
        Change(l.(state := if l.sharers != {} then Invalid else l.state, sharers := {}), false,
               miss + Evictions(l.sharers - {x}))
    else if l.state == Modified && l.l1 == Invalid then Change(OwnedBy(l, x), true, {L1(x, WriteData)})
    else if l.state == Modified && l.l1 == Modified then
      if |l.sharers| != 1 then Bad(WrongSize)
      else if x in l.sharers then Change(OwnedBy(l, x), true, {L1(x, WriteData)})
      else Change(l.(l1 := ToModified, sharers := {}), true, {L1(Only(l.sharers), YieldModified)})
    else if l.state == Modified && l.l1 == Exclusive then
      if |l.sharers| > 1 then Bad(WrongSize)
      else Change(l.(l1 := Modified, sharers := {x}), true, Evictions(l.sharers - {x}) + {L1(x, WriteData)})
    else if l.state == Modified && l.l1 == Shared then
      Change(l.(l1 := Modified, sharers := {x}), true, Evictions(l.sharers - {x}) + {L1(x, WriteData)})
    else if Waiting(l) then Change(l, true, {L1(x, Nack)})
    else Bad(WrongState)
  }

  // ---------------------------------------------------------------- replies

  /** A line filled by kind for x. */
  function Filled(l: Line, tag: nat, kind: FillKind, x: nat, demand: bool, shared: bool): Line {
    l.(tag := tag,
       state := match kind case ExclusiveFill => Exclusive case SharedFill => Shared case WriteFill => Modified,
       l1 := if !demand then Invalid else if kind == WriteFill then Modified else if shared then Shared else Exclusive,
       sharers := if demand then l.sharers + {x} else l.sharers)
  }

  function FillAnswer(kind: FillKind, x: nat, demand: bool): set<Output> {
    if demand then {L1(x, if kind == WriteFill then WriteData else ReadData)} else {}
  }

  /** The line is already in the set. */
  function FillLine(l: Line, kind: FillKind, x: nat, demand: bool): Change {
    if kind == WriteFill then
      Change(Filled(l.(sharers := {}), l.tag, kind, x, demand, false), true,
             Evictions(l.sharers - {x}) + FillAnswer(kind, x, demand))
    else if l.state == Modified || l.state == ToExclusive then
      Change(l, false, if demand then {L1(x, ReadBypass)} else {})
    else Change(Filled(l, l.tag, kind, x, demand, kind == SharedFill), true, FillAnswer(kind, x, demand))
  }

  /** The line takes the place of the least recently used one, l. */
  function FillVictim(l: Line, tag: nat, kind: FillKind, x: nat, demand: bool): Change {
    if l.state == ToShared || l.state == ToModified || l.state == ToExclusive || l.state == ToInvalid then
      Change(l, false, {Dir(Evicted(tag))} + if demand then {L1(x, Nack)} else {})
    else
      var gone := if l.state != Invalid then Evictions(l.sharers) else {};
      var told := if l.state != Invalid && l.l1 != Modified then {Dir(Evicted(l.tag))} else {};
      var l1 := if l.state != Invalid then l.(sharers := {}) else l;
      Change(Filled(l1, tag, kind, x, demand, false), true, gone + told + FillAnswer(kind, x, demand))
  }

  function UpgradeLine(l: Line, x: nat): Change {
    if l.state != ToModified then Change(l, false, {L1(x, Nack), Dir(UpgradeFailed)})
    else
      Change(l.(state := Modified, l1 := Modified, sharers := {x}), true,
             Evictions(l.sharers - {x}) + {L1(x, WriteData), Dir(Upgraded)})
  }

  /** A first-level cache has given up the line for x. */
  function YieldLine(l: Line, x: nat, read: bool): Change {
    if l.state == ToInvalid && l.pending != Nothing then
      Change(l.(state := Invalid, l1 := Invalid, sharers := {}, pending := Nothing), true,
             {Dir(Answer(l.pending))}
             + (if l.l1 == ToInvalid then {} else {L1(x, Nack)})
             + (if l.l1 == ToInvalid || l.l1 == ToModified then {} else Evictions(l.sharers + {x})))
    else if l.l1 == ToModified || l.l1 == ToShared then
      Change(l.(l1 := if l.l1 == ToShared then Shared else if l.pending == Nothing then Modified else Invalid,
                sharers := l.sharers + {x},
                state := if l.pending != Nothing then Shared else l.state, pending := Nothing), true,
             {L1(x, if read then ReadData else if l.pending == Nothing then WriteData else Nack)}
             + if l.pending != Nothing then {Dir(Answer(l.pending))} else {})
    else Bad(WrongState)
  }

  function EvictLineOf(l: Line, x: nat): Change {
    if l.state == ToShared then
      Change(l.(state := Shared, pending := Nothing, sharers := l.sharers + {x}), false, {Dir(Answer(l.pending))})
    else
      var s := l.sharers - {x};
      var quiet := s == {} && l.l1 != ToShared && l.l1 != ToModified && l.l1 != ToInvalid;
      Change(l.(sharers := s, l1 := if quiet then Invalid else l.l1), true, {})
  }

  ghost function DirReadLine(l: Line): Change {
    if l.state != Modified then Bad(WrongState)
    else if l.l1 == Invalid || l.l1 == Exclusive || l.l1 == Shared then Change(l.(state := Shared), false, {Dir(GivesRead)})
    else if l.l1 == Modified then
      if |l.sharers| != 1 then Bad(WrongSize)
      else
        Change(l.(l1 := Exclusive, state := ToShared, pending := HeldRead, sharers := {}), false,
               {L1(Only(l.sharers), GiveBack)})
    else if l.l1 == ToModified || l.l1 == ToShared then
      if l.pending != Nothing then Bad(WrongState) else Change(l.(pending := HeldRead), false, {})
    else Bad(WrongState)
  }

  function DirShareLine(l: Line): Change {
    if l.state != Exclusive && l.state != Shared && l.state != ToModified then Bad(WrongState)
    else Change(l.(state := Shared), false, {Dir(Shares(true))})
  }

  ghost function DirInvalidateLine(l: Line, data: bool): Change {
    if l.state == ToShared || l.state == ToExclusive || l.state == ToInvalid then Bad(WrongState)
    else if l.state == Modified && l.l1 == Modified then
      if |l.sharers| != 1 then Bad(WrongSize)
      else
        Change(l.(l1 := ToInvalid, state := ToInvalid, pending := HeldInvalidate(data), sharers := {}), false,
               {L1(Only(l.sharers), YieldModified)})
    else if l.state == Modified && (l.l1 == ToModified || l.l1 == ToShared) then
      if l.pending != Nothing then Bad(WrongState)
      else Change(l.(state := ToInvalid, pending := HeldInvalidate(data)), false, {})
    else
      Change(l.(state := Invalid, l1 := Invalid, sharers := {}), false, Evictions(l.sharers) + {Dir(Invalidated(data))})
  }

  // ---------------------------------------------------------------- one message

  /** Where a request that misses goes. */
  function Missed(alwaysHit: bool, x: nat, write: bool, demand: bool): set<Output> {
    if !alwaysHit then {Dir(Request(x, write))}
    else if demand then {L1(x, if write then WriteData else ReadData)} else {}
  }

  ghost function OnRequest(alwaysHit: bool, ways: seq<Line>, tag: nat, m: Message): Outcome
    requires m.Read? || m.Write?
  {
    var i := Find(ways, tag, true);
    if i == |ways| then Next(ways, Missed(alwaysHit, m.x, m.Write?, m.Write? || m.demand))
    else if m.Write? then Apply(ways, i, WriteLine(ways[i], m.x, Missed(alwaysHit, m.x, true, true)))
    else if m.demand then Apply(ways, i, ReadLine(ways[i], m.x))
    else Next(ways, {})
  }

  /** A reply for a line of the set. */
  ghost function OnLine(l: Line, m: Message): Change
    requires !m.Read? && !m.Write?
  {
    match m
    case UpgradeGranted(x) => UpgradeLine(l, x)
    case Fill(kind, x, demand) => FillLine(l, kind, x, demand)
    case Yielded(x, read) => YieldLine(l, x, read)
    case L1Evict(x, data) => EvictLineOf(l, x)
    case DirRead => DirReadLine(l)
    case DirShare(exclusive) => DirShareLine(l)
    case DirInvalidate(data) => DirInvalidateLine(l, data)
    case Refused(x, demand) => Change(l, false, if demand then {L1(x, Nack)} else {})
    case Nop => Change(l, false, {})
  }

  /** What is sent when a reply other than a fill does not find its line. */
  function AbsentAnswer(alwaysHit: bool, m: Message): set<Output> {
    match m
    case UpgradeGranted(x) => {L1(x, Nack), Dir(UpgradeFailed)}
    case L1Evict(x, data) => if data && !alwaysHit then {Dir(PassOn(x))} else {}
    case DirRead => {Dir(NoData)}
    case DirShare(exclusive) => {Dir(Shares(false))}
    case DirInvalidate(data) => {Dir(Invalidated(false))}
    case Refused(x, demand) => if demand then {L1(x, Nack)} else {}
    case _ => {}
  }

  /** A reply for a line that is not in the set. */
  function OnAbsent(alwaysHit: bool, ways: seq<Line>, tag: nat, m: Message): Outcome
    requires !m.Read? && !m.Write? && |ways| > 0
  {
    match m
    case Fill(kind, x, demand) => Apply(ways, 0, FillVictim(ways[0], tag, kind, x, demand))
    case Yielded(x, read) => Fatal(WrongState)
    case _ => Next(ways, AbsentAnswer(alwaysHit, m))
  }

  ghost function Step(alwaysHit: bool, ways: seq<Line>, tag: nat, m: Message): Outcome
    requires |ways| > 0
  {
    if m.Read? || m.Write? then OnRequest(alwaysHit, ways, tag, m)
    else
      var i := Find(ways, tag, false);
      if i < |ways| then Apply(ways, i, OnLine(ways[i], m)) else OnAbsent(alwaysHit, ways, tag, m)
  }

  // ---------------------------------------------------------------- the invariant

  /** The combinations of states, and the sharers that go with them. */
  predicate LineOk(l: Line) {
    match l.state
    case Invalid => l.sharers == {}
    case Exclusive => (l.l1 == Invalid || l.l1 == Exclusive || l.l1 == Shared)
    case Shared => (l.l1 == Invalid || l.l1 == Exclusive || l.l1 == Shared)
    case ToModified => (l.l1 == Invalid || l.l1 == Exclusive || l.l1 == Shared)
    case Modified =>
      && l.l1 != ToExclusive && l.l1 != ToInvalid
      && (l.l1 == Modified ==> |l.sharers| == 1)
      && (l.l1 == Exclusive ==> |l.sharers| <= 1)
      && (l.l1 == Invalid || l.l1 == ToShared || l.l1 == ToModified ==> l.sharers == {})
    case ToShared => l.l1 == Exclusive && l.pending == HeldRead
    case ToInvalid => (l.l1 == ToInvalid || l.l1 == ToModified || l.l1 == ToShared) && l.sharers == {} && l.pending != Nothing
    case ToExclusive => false
  }

  /** No tag is held twice. */
  predicate TagsUnique(ways: seq<Line>) {
    forall i, j :: 0 <= i < j < |ways| && ways[i].state != Invalid && ways[j].state != Invalid ==> ways[i].tag != ways[j].tag
  }

  predicate SetOk(ways: seq<Line>) {
    |ways| > 0 && (forall i :: 0 <= i < |ways| ==> LineOk(ways[i])) && TagsUnique(ways)
  }

  /** A change keeps a line consistent, fails no check of a number of sharers, and keeps the tag unless
      the line becomes or was invalid. */
  predicate ChangeOk(l: Line, c: Change) {
    c != Bad(WrongSize) && (c.Change? ==> LineOk(c.line) && (c.line.state != Invalid ==> c.line.tag == l.tag && l.state != Invalid))
  }

  lemma SingleOf(s: set<nat>, x: nat)
    requires |s| <= 1
    ensures x in s ==> s == {x} && s - {x} == {}
  {
    if x in s {
      assert |s - {x}| == |s| - 1;
      assert s == (s - {x}) + {x};
    }
  }

  lemma ReadLineOk(l: Line, x: nat)
    requires LineOk(l) && l.state != Invalid
    ensures ChangeOk(l, ReadLine(l, x)) && ReadLine(l, x).Change?
  {
    assert |{} + {x}| == 1;
  }

  lemma WriteLineOk(l: Line, x: nat, miss: set<Output>)
    requires LineOk(l) && l.state != Invalid
    ensures ChangeOk(l, WriteLine(l, x, miss)) && WriteLine(l, x, miss).Change?
  {
    if |l.sharers| <= 1 { SingleOf(l.sharers, x); }
    assert {} + {x} == {x};
  }

  lemma UpgradeLineOk(l: Line, x: nat)
    requires LineOk(l) && l.state != Invalid
    ensures ChangeOk(l, UpgradeLine(l, x))
  {
    assert |{x}| == 1 && {} + {x} == {x};
  }

  lemma FillLineOk(l: Line, kind: FillKind, x: nat, demand: bool)
    requires LineOk(l) && l.state != Invalid
    ensures ChangeOk(l, FillLine(l, kind, x, demand))
  {
    assert |{x}| == 1 && {} + {x} == {x};
  }

  lemma YieldLineOk(l: Line, x: nat, read: bool)
    requires LineOk(l) && l.state != Invalid
    ensures ChangeOk(l, YieldLine(l, x, read))
  {
    assert |{x}| == 1 && {} + {x} == {x};
  }

  lemma EvictLineOk(l: Line, x: nat)
    requires LineOk(l) && l.state != Invalid
    ensures ChangeOk(l, EvictLineOf(l, x))
  {
    if |l.sharers| <= 1 { SingleOf(l.sharers, x); }
  }

  lemma DirReadLineOk(l: Line)
    requires LineOk(l) && l.state != Invalid
    ensures ChangeOk(l, DirReadLine(l))
  {
  }

  lemma DirShareLineOk(l: Line)
    requires LineOk(l) && l.state != Invalid
    ensures ChangeOk(l, DirShareLine(l))
  {
  }

  lemma DirInvalidateLineOk(l: Line, data: bool)
    requires LineOk(l) && l.state != Invalid
    ensures ChangeOk(l, DirInvalidateLine(l, data))
  {
  }

  /** No reply breaks a line either. */
  lemma OnLineOk(l: Line, m: Message)
    requires LineOk(l) && l.state != Invalid && !m.Read? && !m.Write?
    ensures ChangeOk(l, OnLine(l, m))
  {
    hide LineOk, UpgradeLine, FillLine, YieldLine, EvictLineOf, DirReadLine, DirShareLine, DirInvalidateLine;
    match m
    case UpgradeGranted(x) => UpgradeLineOk(l, x);
    case Fill(kind, x, demand) => FillLineOk(l, kind, x, demand);
    case Yielded(x, read) => YieldLineOk(l, x, read);
    case L1Evict(x, data) => EvictLineOk(l, x);
    case DirRead => DirReadLineOk(l);
    case DirShare(exclusive) => DirShareLineOk(l);
    case DirInvalidate(data) => DirInvalidateLineOk(l, data);
    case Refused(x, demand) =>
    case Nop =>
  }

  lemma FillVictimOk(l: Line, tag: nat, kind: FillKind, x: nat, demand: bool)
    requires LineOk(l)
    ensures var c := FillVictim(l, tag, kind, x, demand); c.Change? && LineOk(c.line) && (c.line == l || c.line.tag == tag)
  {
  }

  /** An order of the ways is kept when one of them is touched. */
  lemma TouchAt(ways: seq<Line>, i: nat, l: Line, j: nat)
    requires i < |ways| && j < |ways|
    ensures Touch(ways, i, l)[j] == if j < i then ways[j] else if j < |ways| - 1 then ways[j + 1] else l
  {
  }

  lemma ApplyOk(ways: seq<Line>, i: nat, c: Change)
    requires SetOk(ways) && i < |ways| && c.Change? && LineOk(c.line)
    requires c.line.state != Invalid ==> forall j :: 0 <= j < |ways| && j != i && ways[j].state != Invalid ==> ways[j].tag != c.line.tag
    ensures Apply(ways, i, c).Next? && SetOk(Apply(ways, i, c).ways) && |Apply(ways, i, c).ways| == |ways|
  {
    var r := Apply(ways, i, c).ways;
    if c.touched {
      forall j: nat | j < |ways| ensures r[j] == if j < i then ways[j] else if j < |ways| - 1 then ways[j + 1] else c.line {
        TouchAt(ways, i, c.line, j);
      }
    }
  }

  lemma OthersDiffer(ways: seq<Line>, i: nat, c: Change)
    requires SetOk(ways) && i < |ways| && c.Change? && ChangeOk(ways[i], c)
    ensures c.line.state != Invalid ==> forall j :: 0 <= j < |ways| && j != i && ways[j].state != Invalid ==> ways[j].tag != c.line.tag
  {
  }

  lemma RequestOk(alwaysHit: bool, ways: seq<Line>, tag: nat, m: Message)
    requires SetOk(ways) && (m.Read? || m.Write?)
    ensures OnRequest(alwaysHit, ways, tag, m).Next?
    ensures SetOk(OnRequest(alwaysHit, ways, tag, m).ways) && |OnRequest(alwaysHit, ways, tag, m).ways| == |ways|
  {
    var i := Find(ways, tag, true);
    if i < |ways| {
      var miss := Missed(alwaysHit, m.x, true, true);
      WriteLineOk(ways[i], m.x, miss);
      ReadLineOk(ways[i], m.x);
      var c := if m.Write? then WriteLine(ways[i], m.x, miss) else ReadLine(ways[i], m.x);
      hide WriteLine, ReadLine, SetOk, LineOk;
      OthersDiffer(ways, i, c);
      ApplyOk(ways, i, c);
    }
  }

  lemma ReplyOk(alwaysHit: bool, ways: seq<Line>, tag: nat, m: Message)
    requires SetOk(ways) && !m.Read? && !m.Write?
    ensures Kept(ways, Step(alwaysHit, ways, tag, m))
  {
    var i := Find(ways, tag, false);
    if i < |ways| {
      OnLineOk(ways[i], m);
      var c := OnLine(ways[i], m);
      hide OnLine, LineOk;
      if c.Change? {
        OthersDiffer(ways, i, c);
        ApplyOk(ways, i, c);
      }
    } else if m.Fill? {
      FillVictimOk(ways[0], tag, m.kind, m.x, m.demand);
      var c := FillVictim(ways[0], tag, m.kind, m.x, m.demand);
      assert forall j :: 0 <= j < |ways| && ways[j].state != Invalid ==> ways[j].tag != tag;
      hide FillVictim, LineOk;
      ApplyOk(ways, 0, c);
    }
  }

  /** What every message keeps: the number of ways, consistent lines and unique tags; and no check of a
      number of sharers fails. */
  ghost predicate Kept(ways: seq<Line>, o: Outcome) {
    o != Fatal(WrongSize) && (o.Next? ==> SetOk(o.ways) && |o.ways| == |ways|)
  }

  /** Every message keeps the set consistent and no check of a number of sharers ever fails. */
  lemma StepOk(alwaysHit: bool, ways: seq<Line>, tag: nat, m: Message)
    requires SetOk(ways)
    ensures Kept(ways, Step(alwaysHit, ways, tag, m))
  {
    hide SetOk;
    if m.Read? || m.Write? { RequestOk(alwaysHit, ways, tag, m); } else { ReplyOk(alwaysHit, ways, tag, m); }
  }

  // ---------------------------------------------------------------- answers agree with the bookkeeping

  /** A line is not given up for a write while it waits, with nothing held back, to be shared. */
  predicate Fits(l: Line, m: Message) {
    m.Yielded? && !m.read && l.l1 == ToShared ==> l.pending != Nothing
  }

  /** In the always-hit mode a request is answered with data although the line is not there, or not owned. */
  predicate HitsAnyway(ways: seq<Line>, tag: nat, m: Message) {
    var i := Find(ways, tag, true);
    || (m.Read? && m.demand && i == |ways|)
    || (m.Write? && (i == |ways| || ways[i].state == Exclusive || ways[i].state == Shared))
  }

  /** The message makes an answer differ from the bookkeeping. */
  predicate Misfit(alwaysHit: bool, ways: seq<Line>, tag: nat, m: Message) {
    var i := Find(ways, tag, false);
    (alwaysHit && HitsAnyway(ways, tag, m)) || (i < |ways| && !Fits(ways[i], m))
  }

  /** The line as it is left agrees with what the first-level caches are told: one that may write is the
      only sharer of a modified line, one that may read is a sharer, and a sharer that is dropped is
      told, unless it sent the message itself. */
  ghost predicate Tells(l: Line, c: Change, m: Message) {
    c.Change? ==>
      && (forall x: nat :: L1(x, WriteData) in c.out ==> c.line.state == Modified && c.line.l1 == Modified && c.line.sharers == {x})
      && (forall x: nat :: L1(x, ReadData) in c.out ==> x in c.line.sharers)
      && (forall x: nat :: x in l.sharers && x !in c.line.sharers ==> Told(x, c.out) || Sender(x, m))
  }

  ghost predicate Told(x: nat, out: set<Output>) {
    L1(x, EvictLine) in out || L1(x, YieldShared) in out || L1(x, YieldModified) in out || L1(x, GiveBack) in out
  }

  predicate Sender(x: nat, m: Message) {
    match m
    case Write(y) => x == y
    case UpgradeGranted(y) => x == y
    case L1Evict(y, data) => x == y
    case Fill(kind, y, demand) => x == y && kind == WriteFill && !demand
    case _ => false
  }

  lemma OnlyIs(s: set<nat>, x: nat)
    requires |s| == 1 && x in s
    ensures x == Only(s)
  {
    SingleOf(s, x);
  }

  lemma ReadTells(l: Line, x: nat)
    requires LineOk(l)
    ensures Tells(l, ReadLine(l, x), Read(x, true))
  {
    forall y | y in l.sharers && |l.sharers| == 1 ensures y == Only(l.sharers) { OnlyIs(l.sharers, y); }
  }

  lemma WriteTells(l: Line, x: nat, miss: set<Output>)
    requires LineOk(l) && forall o :: o in miss ==> o.Dir?
    ensures Tells(l, WriteLine(l, x, miss), Write(x))
  {
    forall y | y in l.sharers && |l.sharers| == 1 ensures y == Only(l.sharers) { OnlyIs(l.sharers, y); }
    if x in l.sharers && |l.sharers| <= 1 { SingleOf(l.sharers, x); }
    assert {} + {x} == {x};
  }

  lemma UpgradeTells(l: Line, x: nat)
    ensures Tells(l, UpgradeLine(l, x), UpgradeGranted(x))
  {
  }

  lemma FillTells(l: Line, kind: FillKind, x: nat, demand: bool)
    ensures Tells(l, FillLine(l, kind, x, demand), Fill(kind, x, demand))
  {
    assert {} + {x} == {x};
    var c := FillLine(l, kind, x, demand);
    forall y: nat | y in l.sharers && y !in c.line.sharers && y != x ensures L1(y, EvictLine) in c.out {
      assert y in l.sharers - {x};
    }
  }

  lemma VictimTells(l: Line, tag: nat, kind: FillKind, x: nat, demand: bool)
    requires LineOk(l)
    ensures Tells(l, FillVictim(l, tag, kind, x, demand), Fill(kind, x, demand))
  {
    var c := FillVictim(l, tag, kind, x, demand);
    VictimServed(l, tag, kind, x, demand);
    if l.state == Invalid {
      assert l.sharers == {};
    } else if c.line != l {
      VictimTold(l, tag, kind, x, demand);
    }
    hide FillVictim, Told;
  }

  /** Only the cache that waits for the line is served, and it gets the line with it. */
  lemma VictimServed(l: Line, tag: nat, kind: FillKind, x: nat, demand: bool)
    requires LineOk(l)
    ensures var c := FillVictim(l, tag, kind, x, demand);
      && (forall y: nat :: L1(y, WriteData) in c.out ==> c.line.state == Modified && c.line.l1 == Modified && c.line.sharers == {y})
      && (forall y: nat :: L1(y, ReadData) in c.out ==> y in c.line.sharers)
  {
    assert {} + {x} == {x};
    var c := FillVictim(l, tag, kind, x, demand);
    forall y: nat, o: ToL1 | L1(y, o) in c.out && (o == WriteData || o == ReadData) ensures L1(y, o) in FillAnswer(kind, x, demand) {
      assert L1(y, o) !in Evictions(l.sharers);
    }
  }

  lemma YieldTells(l: Line, x: nat, read: bool)
    requires LineOk(l) && l.state != Invalid && Fits(l, Yielded(x, read))
    ensures Tells(l, YieldLine(l, x, read), Yielded(x, read))
  {
    assert {} + {x} == {x};
    hide Told;
  }

  lemma DirTells(l: Line, m: Message)
    requires m.DirRead? || m.DirShare? || m.DirInvalidate? || m.L1Evict? || m.Refused? || m.Nop?
    ensures Tells(l, OnLine(l, m), m)
  {
    forall y | y in l.sharers && |l.sharers| == 1 ensures y == Only(l.sharers) { OnlyIs(l.sharers, y); }
  }

  /** A valid line of the set lists x as a sharer. */
  predicate Lists(l: Line, tag: nat, x: nat) {
    l.state != Invalid && l.tag == tag && x in l.sharers
  }

  ghost predicate Tracks(ways: seq<Line>, tag: nat, x: nat) {
    exists l :: l in ways && Lists(l, tag, x)
  }

  predicate MayWrite(l: Line, tag: nat, x: nat) {
    l.state == Modified && l.l1 == Modified && l.tag == tag && l.sharers == {x}
  }

  ghost predicate Owns(ways: seq<Line>, tag: nat, x: nat) {
    exists l :: l in ways && MayWrite(l, tag, x)
  }

  lemma ApplyMembers(ways: seq<Line>, i: nat, c: Change)
    requires i < |ways| && c.Change?
    ensures c.line in Apply(ways, i, c).ways
    ensures forall j :: 0 <= j < |ways| && j != i ==> ways[j] in Apply(ways, i, c).ways
  {
    var r := Apply(ways, i, c).ways;
    if c.touched {
      assert r[|ways| - 1] == c.line;
      forall j | 0 <= j < |ways| && j != i ensures ways[j] in r {
        TouchAt(ways, i, c.line, if j < i then j else j - 1);
      }
    } else {
      assert r[i] == c.line;
      forall j | 0 <= j < |ways| && j != i ensures ways[j] in r { assert r[j] == ways[j]; }
    }
  }

  /** The answers of a step agree with the new set: writers own their line, readers are tracked, and who
      is no longer tracked has been told or sent the message. */
  ghost predicate Agrees(ways: seq<Line>, tag: nat, m: Message, o: Outcome) {
    o.Next? ==>
      && (forall x: nat :: L1(x, WriteData) in o.out ==> Owns(o.ways, tag, x))
      && (forall x: nat :: L1(x, ReadData) in o.out ==> Tracks(o.ways, tag, x))
      && (forall g: nat, x: nat :: Tracks(ways, g, x) && !Tracks(o.ways, g, x) ==> Told(x, o.out) || Sender(x, m))
  }

  /** All sharers of the line are told. */
  ghost predicate AllTold(l: Line, out: set<Output>) {
    forall x: nat :: x in l.sharers ==> Told(x, out)
  }

  predicate Answered(c: Change, tag: nat)
    requires c.Change?
  {
    forall o :: o in c.out && o.L1? && (o.order == ReadData || o.order == WriteData) ==> c.line.state != Invalid && c.line.tag == tag
  }

  lemma ApplyAgrees(ways: seq<Line>, i: nat, tag: nat, m: Message, c: Change)
    requires i < |ways| && c.Change? && Tells(ways[i], c, m) && LineOk(c.line) && Answered(c, tag)
    requires (c.line.state != Invalid ==> c.line.tag == ways[i].tag) || AllTold(ways[i], c.out)
    ensures Agrees(ways, tag, m, Apply(ways, i, c))
  {
    var r := Apply(ways, i, c).ways;
    ApplyMembers(ways, i, c);
    forall x: nat | L1(x, WriteData) in c.out ensures Owns(r, tag, x) { assert MayWrite(c.line, tag, x); }
    forall x: nat | L1(x, ReadData) in c.out ensures Tracks(r, tag, x) { assert Lists(c.line, tag, x); }
    forall g: nat, x: nat | Tracks(ways, g, x) && !Tracks(r, g, x) ensures Told(x, c.out) || Sender(x, m) {
      var l :| l in ways && Lists(l, g, x);
      var j :| 0 <= j < |ways| && ways[j] == l;
      assert j == i;
      assert !Lists(c.line, g, x);
    }
    hide Told, Sender;
  }

  lemma LineTells(l: Line, m: Message)
    requires LineOk(l) && l.state != Invalid && Fits(l, m) && !m.Read? && !m.Write?
    ensures Tells(l, OnLine(l, m), m)
  {
    hide Tells, Fits;
    match m
    case UpgradeGranted(x) => UpgradeTells(l, x);
    case Fill(kind, x, demand) => FillTells(l, kind, x, demand);
    case Yielded(x, read) => YieldTells(l, x, read);
    case _ => DirTells(l, m);
  }

  lemma FillAnswered(l: Line, kind: FillKind, x: nat, demand: bool)
    ensures Answered(FillLine(l, kind, x, demand), l.tag)
  {
    var c := FillLine(l, kind, x, demand);
    forall o | o in c.out && o.L1? && (o.order == ReadData || o.order == WriteData)
      ensures c.line.state != Invalid && c.line.tag == l.tag
    {
      assert o in FillAnswer(kind, x, demand);
    }
  }

  lemma YieldAnswered(l: Line, x: nat, read: bool)
    requires LineOk(l) && l.state != Invalid && YieldLine(l, x, read).Change?
    ensures Answered(YieldLine(l, x, read), l.tag)
  {
  }

  lemma LineAnswered(l: Line, m: Message)
    requires LineOk(l) && l.state != Invalid && !m.Read? && !m.Write? && OnLine(l, m).Change?
    ensures Answered(OnLine(l, m), l.tag)
  {
    match m
    case Fill(kind, x, demand) => FillAnswered(l, kind, x, demand);
    case Yielded(x, read) => YieldAnswered(l, x, read);
    case _ => hide FillLine, YieldLine;
  }

  lemma VictimAnswered(l: Line, tag: nat, kind: FillKind, x: nat, demand: bool)
    ensures Answered(FillVictim(l, tag, kind, x, demand), tag)
  {
    var c := FillVictim(l, tag, kind, x, demand);
    forall o | o in c.out && o.L1? && (o.order == ReadData || o.order == WriteData)
      ensures c.line.state != Invalid && c.line.tag == tag
    {
      assert o !in Evictions(l.sharers);
    }
  }

  lemma RequestAgrees(alwaysHit: bool, ways: seq<Line>, tag: nat, m: Message)
    requires SetOk(ways) && (m.Read? || m.Write?) && !(alwaysHit && HitsAnyway(ways, tag, m))
    ensures Agrees(ways, tag, m, OnRequest(alwaysHit, ways, tag, m))
  {
    var i := Find(ways, tag, true);
    hide Agrees, SetOk, Apply, ReadLine, WriteLine;
    if i < |ways| && m.Write? {
      WriteAgrees(alwaysHit, ways, i, tag, m.x);
    } else if i < |ways| && m.demand {
      ReadAgrees(ways, i, tag, m.x);
    } else {
      NothingChanges(ways, tag, m, Missed(alwaysHit, m.x, m.Write?, m.Write? || m.demand));
      NothingChanges(ways, tag, m, {});
    }
  }

  lemma NothingChanges(ways: seq<Line>, tag: nat, m: Message, out: set<Output>)
    ensures (forall o :: o in out ==> o.Dir?) ==> Agrees(ways, tag, m, Next(ways, out))
  {
  }

  lemma ReadAgrees(ways: seq<Line>, i: nat, tag: nat, x: nat)
    requires SetOk(ways) && i < |ways| && Visible(ways[i], tag, true)
    ensures Agrees(ways, tag, Read(x, true), Apply(ways, i, ReadLine(ways[i], x)))
  {
    ReadTells(ways[i], x);
    ReadLineOk(ways[i], x);
    var c := ReadLine(ways[i], x);
    assert Answered(c, tag);
    hide ReadLine, Tells, LineOk, SetOk, Answered, Apply, Agrees;
    ApplyAgrees(ways, i, tag, Read(x, true), c);
  }

  lemma WriteAgrees(alwaysHit: bool, ways: seq<Line>, i: nat, tag: nat, x: nat)
    requires SetOk(ways) && i < |ways| && Visible(ways[i], tag, true)
    requires alwaysHit ==> ways[i].state != Exclusive && ways[i].state != Shared
    ensures Agrees(ways, tag, Write(x), Apply(ways, i, WriteLine(ways[i], x, Missed(alwaysHit, x, true, true))))
  {
    var miss := if alwaysHit then {} else Missed(false, x, true, true);
    var c := WriteLine(ways[i], x, Missed(alwaysHit, x, true, true));
    assert c == WriteLine(ways[i], x, miss);
    WriteTells(ways[i], x, miss);
    WriteLineOk(ways[i], x, miss);
    WriteAnswered(ways[i], x, miss);
    hide WriteLine, Tells, LineOk, SetOk, Answered, Apply, Agrees;
    ApplyAgrees(ways, i, tag, Write(x), c);
  }

  lemma WriteAnswered(l: Line, x: nat, miss: set<Output>)
    requires LineOk(l) && l.state != Invalid && forall o :: o in miss ==> o.Dir?
    ensures WriteLine(l, x, miss).Change? ==> Answered(WriteLine(l, x, miss), l.tag)
  {
  }

  /** Every message leaves the set in agreement with what the first-level caches are told, except exactly
      the misfits. */
  lemma StepAgrees(alwaysHit: bool, ways: seq<Line>, tag: nat, m: Message)
    requires SetOk(ways)
    ensures Agrees(ways, tag, m, Step(alwaysHit, ways, tag, m)) <==> !Misfit(alwaysHit, ways, tag, m)
  {
    var i := Find(ways, tag, false);
    if Misfit(alwaysHit, ways, tag, m) {
      MisfitDisagrees(alwaysHit, ways, tag, m);
    } else if m.Read? || m.Write? {
      RequestAgrees(alwaysHit, ways, tag, m);
    } else if i < |ways| {
      LineAgrees(ways, i, tag, m);
    } else if m.Fill? {
      VictimAgrees(ways, tag, m);
    }
  }

  lemma MisfitDisagrees(alwaysHit: bool, ways: seq<Line>, tag: nat, m: Message)
    requires SetOk(ways) && Misfit(alwaysHit, ways, tag, m)
    ensures !Agrees(ways, tag, m, Step(alwaysHit, ways, tag, m))
  {
    if alwaysHit && HitsAnyway(ways, tag, m) {
      HitDisagrees(ways, tag, m);
    } else {
      YieldDisagrees(alwaysHit, ways, tag, m);
    }
  }

  /** Nobody owns a tag whose only valid line is not modified. */
  lemma NotOwned(ways: seq<Line>, i: nat, tag: nat, x: nat)
    requires SetOk(ways) && i < |ways| && ways[i].tag == tag && ways[i].state != Invalid
    requires ways[i].state != Modified || ways[i].l1 != Modified
    ensures !Owns(ways, tag, x)
  {
  }

  lemma AbsentTag(ways: seq<Line>, tag: nat, x: nat)
    requires SetOk(ways) && forall j :: 0 <= j < |ways| ==> !Visible(ways[j], tag, true)
    ensures !Owns(ways, tag, x) && !Tracks(ways, tag, x)
  {
  }

  lemma HitDisagrees(ways: seq<Line>, tag: nat, m: Message)
    requires SetOk(ways) && HitsAnyway(ways, tag, m)
    ensures !Agrees(ways, tag, m, Step(true, ways, tag, m))
  {
    var i := Find(ways, tag, true);
    var o := Step(true, ways, tag, m);
    if i == |ways| {
      AbsentTag(ways, tag, m.x);
      assert o == Next(ways, {L1(m.x, if m.Write? then WriteData else ReadData)});
    } else {
      var l := ways[i];
      var c := WriteLine(l, m.x, {L1(m.x, WriteData)});
      assert o == Next(ways[i := c.line], c.out) && L1(m.x, WriteData) in c.out;
      RequestOk(true, ways, tag, m);
      if c.line.state == Invalid {
        hide Step;
        GoneNotOwned(ways, i, c.line, tag, m.x);
      } else {
        NotOwned(o.ways, i, tag, m.x);
      }
    }
  }

  lemma GoneNotOwned(ways: seq<Line>, i: nat, l: Line, tag: nat, x: nat)
    requires SetOk(ways) && i < |ways| && ways[i].tag == tag && ways[i].state != Invalid && l.state == Invalid
    ensures !Owns(ways[i := l], tag, x)
  {
  }

  lemma YieldDisagrees(alwaysHit: bool, ways: seq<Line>, tag: nat, m: Message)
    requires SetOk(ways)
    requires var i := Find(ways, tag, false); i < |ways| && !Fits(ways[i], m)
    ensures !Agrees(ways, tag, m, Step(alwaysHit, ways, tag, m))
  {
    var i := Find(ways, tag, false);
    var c := YieldLine(ways[i], m.x, m.read);
    var o := Step(alwaysHit, ways, tag, m);
    assert c.Change? && c.touched && c.line.l1 == Shared && L1(m.x, WriteData) in c.out && c.line.tag == tag;
    assert o == Next(Touch(ways, i, c.line), c.out);
    StepOk(alwaysHit, ways, tag, m);
    hide Step, YieldLine, SetOk, LineOk;
    NotOwned(o.ways, |ways| - 1, tag, m.x);
  }

  lemma LineAgrees(ways: seq<Line>, i: nat, tag: nat, m: Message)
    requires SetOk(ways) && i < |ways| && Visible(ways[i], tag, false) && Fits(ways[i], m) && !m.Read? && !m.Write?
    ensures Agrees(ways, tag, m, Apply(ways, i, OnLine(ways[i], m)))
  {
    LineTells(ways[i], m);
    OnLineOk(ways[i], m);
    hide OnLine, Tells, LineOk, SetOk, Answered, Apply, Fits;
    if OnLine(ways[i], m).Change? {
      LineAnswered(ways[i], m);
      ApplyAgrees(ways, i, tag, m, OnLine(ways[i], m));
    } else {
      assert Apply(ways, i, OnLine(ways[i], m)).Fatal? by { NoChange(ways, i, OnLine(ways[i], m)); }
    }
  }

  lemma NoChange(ways: seq<Line>, i: nat, c: Change)
    requires i < |ways| && c.Bad?
    ensures Apply(ways, i, c) == Fatal(c.why)
  {
  }

  lemma VictimTold(l: Line, tag: nat, kind: FillKind, x: nat, demand: bool)
    requires LineOk(l) && FillVictim(l, tag, kind, x, demand).line != l
    ensures AllTold(l, FillVictim(l, tag, kind, x, demand).out)
  {
    forall y: nat | y in l.sharers ensures Told(y, FillVictim(l, tag, kind, x, demand).out) {
      assert L1(y, EvictLine) in Evictions(l.sharers);
    }
  }

  lemma VictimAgrees(ways: seq<Line>, tag: nat, m: Message)
    requires SetOk(ways) && m.Fill?
    ensures Agrees(ways, tag, m, Apply(ways, 0, FillVictim(ways[0], tag, m.kind, m.x, m.demand)))
  {
    var l, c := ways[0], FillVictim(ways[0], tag, m.kind, m.x, m.demand);
    VictimTells(l, tag, m.kind, m.x, m.demand);
    FillVictimOk(l, tag, m.kind, m.x, m.demand);
    VictimAnswered(l, tag, m.kind, m.x, m.demand);
    if c.line != l { VictimTold(l, tag, m.kind, m.x, m.demand); }
    hide FillVictim, Tells, LineOk, SetOk, Answered, Apply;
    ApplyAgrees(ways, 0, tag, m, c);
  }

  // ---------------------------------------------------------------- runs

  /** The set is reached from `ways` by messages for its lines, none of them fatal. */
  ghost predicate Run(alwaysHit: bool, ways: seq<Line>, ms: seq<(nat, Message)>, ways': seq<Line>)
    decreases |ms|
  {
    if ms == [] then ways' == ways
    else
      && |ways| > 0 && Step(alwaysHit, ways, ms[0].0, ms[0].1).Next?
      && Run(alwaysHit, Step(alwaysHit, ways, ms[0].0, ms[0].1).ways, ms[1..], ways')
  }

  lemma {:induction false} RunOk(alwaysHit: bool, ways: seq<Line>, ms: seq<(nat, Message)>, ways': seq<Line>)
    requires SetOk(ways) && Run(alwaysHit, ways, ms, ways')
    ensures SetOk(ways') && |ways'| == |ways|
    decreases |ms|
  {
    if ms != [] {
      StepOk(alwaysHit, ways, ms[0].0, ms[0].1);
      hide Step, SetOk;
      RunOk(alwaysHit, Step(alwaysHit, ways, ms[0].0, ms[0].1).ways, ms[1..], ways');
    }
  }

  /** An empty set: no line is valid. */
  predicate Empty(ways: seq<Line>) {
    |ways| > 0 && forall i :: 0 <= i < |ways| ==> ways[i].state == Invalid && ways[i].sharers == {}
  }

  /** In every run the sharers of a modified line fit its state towards the first-level caches, and tags
      are unique; so the checks of the number of sharers cannot fail, and a request is always served,
      sent on, or refused. */
  lemma OwnersConsistent(alwaysHit: bool, start: seq<Line>, ms: seq<(nat, Message)>, ways: seq<Line>, i: nat)
    requires Empty(start) && Run(alwaysHit, start, ms, ways) && i < |ways|
    ensures TagsUnique(ways)
    ensures var l := ways[i]; l.state == Modified ==>
      && (l.l1 == Modified ==> |l.sharers| == 1) && (l.l1 == Exclusive ==> |l.sharers| <= 1)
      && (l.l1 != Modified && l.l1 != Exclusive && l.l1 != Shared ==> l.sharers == {})
    ensures forall tag, m :: Step(alwaysHit, ways, tag, m) != Fatal(WrongSize)
    ensures forall tag, m: Message :: m.Read? || m.Write? ==> Step(alwaysHit, ways, tag, m).Next?
  {
    RunOk(alwaysHit, start, ms, ways);
    forall tag, m ensures Step(alwaysHit, ways, tag, m) != Fatal(WrongSize) { StepOk(alwaysHit, ways, tag, m); }
    forall tag, m: Message | m.Read? || m.Write? ensures Step(alwaysHit, ways, tag, m).Next? { RequestOk(alwaysHit, ways, tag, m); }
  }
}
