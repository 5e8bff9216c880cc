/** What becomes of the lines of a set: their state follows the messages, none leaves unnoticed, and the one
    that is displaced is the least recently used. */
module CacheLines {
  import opened CacheSet
  import opened CacheAnswers

  // ---------------------------------------------------------------- the state follows the messages

  /** Only the question that has come is held. */
  predicate HoldsRight(l: Line, m: Message, c: Change)
    requires c.Change?
  {
    || c.line.pending == l.pending || c.line.pending == Nothing
    || (m.DirRead? && c.line.pending == HeldRead) || (m.DirInvalidate? && c.line.pending == HeldInvalidate(m.data))
  }

  /** A line becomes modified or exclusive only when the directory grants it, with data or by an upgrade;
      once the directory has been told so it is shared or gone. */
  ghost predicate Follows(l: Line, m: Message, c: Change)
    requires c.Change?
  {
    && HoldsRight(l, m, c)
    && (c.line.state == Modified && l.state != Modified ==> m.UpgradeGranted? || (m.Fill? && m.kind == WriteFill))
    && (c.line.state == Exclusive && l.state != Exclusive ==> m.Fill? && m.kind == ExclusiveFill)
    && (m.Fill? && c.line != l ==>
          c.line.state == match m.kind case ExclusiveFill => Exclusive case SharedFill => Shared case WriteFill => Modified)
    && (Dir(GivesRead) in c.out || Dir(Shares(true)) in c.out || Dir(Answer(HeldRead)) in c.out ==> c.line.state == Shared)
    && (forall d :: Dir(Invalidated(d)) in c.out || Dir(Answer(HeldInvalidate(d))) in c.out ==> c.line.state == Invalid)
    && (Dir(Upgraded) in c.out ==> c.line.state == Modified) && (Dir(UpgradeFailed) in c.out ==> c.line == l)
  }

  lemma RepliesFollow(l: Line, m: Message)
    requires LineOk(l) && !Stale(l) && l.state != Invalid && !m.Read? && !m.Write? && !m.Fill? && OnLine(l, m).Change?
    ensures Follows(l, m, OnLine(l, m))
  {
    hide *;
    match m
    case UpgradeGranted(x) => UpgradeFollows(l, x); OnLineIs(l, m);
    case Yielded(x, read) => OnLineIs(l, m); YieldFollows(l, x, read);
    case L1Evict(x, data) => OnLineIs(l, m); EvictFollows(l, x, data);
    case DirRead => OnLineIs(l, m); DirReadFollows(l);
    case DirShare(exclusive) => OnLineIs(l, m); DirShareFollows(l, exclusive);
    case DirInvalidate(data) => OnLineIs(l, m); DirInvalidateFollows(l, data);
    case _ => OnLineIs(l, m); NothingFollows(l, m);
  }

  lemma OnLineIs(l: Line, m: Message)
    requires !m.Read? && !m.Write? && !m.Fill?
    ensures OnLine(l, m) == match m
      case UpgradeGranted(x) => UpgradeLine(l, x)
      case Yielded(x, read) => YieldLine(l, x, read)
      case L1Evict(x, data) => EvictLineOf(l, x)
      case DirRead => DirReadLine(l)
      case DirShare(exclusive) => DirShareLine(l)
      case DirInvalidate(data) => DirInvalidateLine(l, data)
      case Refused(x, demand) => Change(l, false, if demand then {L1(x, Nack)} else {})
      case _ => Change(l, false, {})
  {
  }

  lemma NothingFollows(l: Line, m: Message)
    ensures var c := Change(l, false, if m.Refused? && m.demand then {L1(m.x, Nack)} else {}); !m.Fill? ==> Follows(l, m, c)
  {
  }

  lemma UpgradeFollows(l: Line, x: nat)
    ensures UpgradeLine(l, x).Change? && Follows(l, UpgradeGranted(x), UpgradeLine(l, x))
  {
    UpgradeNews(l, x);
    var c := UpgradeLine(l, x);
    assert Dir(Upgraded) in c.out <==> l.state == ToModified;
    assert Dir(UpgradeFailed) in c.out <==> l.state != ToModified;
    hide Evictions;
  }

  /** A change with one kind of news for the directory at most follows if its state does. */
  lemma OneNews(l: Line, m: Message, c: Change, news: ToDir)
    requires c.Change? && OnlyNews(c.out, news) && !m.Fill? && news != Upgraded && news != UpgradeFailed && HoldsRight(l, m, c)
    requires c.line.state == l.state || (c.line.state != Modified && c.line.state != Exclusive)
    requires Dir(news) in c.out && (news == GivesRead || news == Shares(true) || news == Answer(HeldRead)) ==> c.line.state == Shared
    requires Dir(news) in c.out && (news.Invalidated? || (news.Answer? && news.held.HeldInvalidate?)) ==> c.line.state == Invalid
    ensures Follows(l, m, c)
  {
  }

  lemma YieldFollows(l: Line, x: nat, read: bool)
    requires LineOk(l) && !Stale(l) && YieldLine(l, x, read).Change?
    ensures Follows(l, Yielded(x, read), YieldLine(l, x, read))
  {
    YieldNews(l, x, read);
    var c := YieldLine(l, x, read);
    assert c.line.state == match l.pending case Nothing => l.state case HeldRead => Shared case HeldInvalidate(data) => Invalid;
    hide YieldLine, LineOk, Follows, OnlyNews;
    OneNews(l, Yielded(x, read), c, Answer(l.pending));
  }

  lemma EvictFollows(l: Line, x: nat, data: bool)
    requires LineOk(l) && !Stale(l)
    ensures EvictLineOf(l, x).Change? && Follows(l, L1Evict(x, data), EvictLineOf(l, x))
  {
    EvictNews(l, x);
    var c := EvictLineOf(l, x);
    assert if l.state == ToShared then c.line.state == Shared && l.pending == HeldRead else c.line.state == l.state && c.out == {};
    assert HoldsRight(l, L1Evict(x, data), c);
    hide EvictLineOf, LineOk, Follows, OnlyNews;
    OneNews(l, L1Evict(x, data), c, Answer(l.pending));
  }

  lemma DirReadFollows(l: Line)
    requires DirReadLine(l).Change?
    ensures Follows(l, DirRead, DirReadLine(l))
  {
    DirReadNews(l);
    var c := DirReadLine(l);
    assert if Dir(GivesRead) in c.out then c.line.state == Shared else c.line.state == ToShared || c.line.state == l.state;
    assert HoldsRight(l, DirRead, c);
    hide DirReadLine, Follows, OnlyNews;
    OneNews(l, DirRead, c, GivesRead);
  }

  lemma DirShareFollows(l: Line, exclusive: bool)
    requires DirShareLine(l).Change?
    ensures Follows(l, DirShare(exclusive), DirShareLine(l))
  {
    DirShareNews(l);
    OneNews(l, DirShare(exclusive), DirShareLine(l), Shares(true));
  }

  lemma DirInvalidateFollows(l: Line, data: bool)
    requires DirInvalidateLine(l, data).Change?
    ensures Follows(l, DirInvalidate(data), DirInvalidateLine(l, data))
  {
    DirInvalidateNews(l, data);
    var c := DirInvalidateLine(l, data);
    assert c.line.state == if Dir(Invalidated(data)) in c.out then Invalid else ToInvalid;
    assert HoldsRight(l, DirInvalidate(data), c);
    hide DirInvalidateLine, Follows, OnlyNews;
    OneNews(l, DirInvalidate(data), c, Invalidated(data));
  }

  lemma FillsFollow(l: Line, tag: nat, m: Message)
    requires m.Fill?
    ensures var c := FillLine(l, m.kind, m.x, m.demand); c.Change? && Follows(l, m, c)
    ensures var c := FillVictim(l, tag, m.kind, m.x, m.demand); c.Change? && Follows(l, m, c)
  {
    FillNews(l, tag, m.kind, m.x, m.demand);
    hide Evictions, FillAnswer;
  }

  lemma RequestStates(l: Line, x: nat, miss: set<Output>)
    requires LineOk(l) && l.state != Invalid
    ensures var r, w := ReadLine(l, x), WriteLine(l, x, miss);
      && r.Change? && w.Change? && r.line.state == l.state
      && (w.line.state == l.state || w.line.state == ToModified || w.line.state == Invalid)
  {
    ReadLineOk(l, x);
    WriteLineOk(l, x, miss);
    hide LineOk, Evictions;
  }

  lemma RequestsFollow(l: Line, m: Message, miss: set<Output>)
    requires LineOk(l) && l.state != Invalid && (m.Read? || m.Write?) && forall o :: o in miss ==> o.L1? || o.news.Request?
    ensures ReadLine(l, m.x).Change? && WriteLine(l, m.x, miss).Change?
    ensures Follows(l, m, ReadLine(l, m.x)) && Follows(l, m, WriteLine(l, m.x, miss))
  {
    RequestNews(l, m.x, miss);
    RequestStates(l, m.x, miss);
    hide ReadLine, WriteLine, LineOk;
  }

  /** In the set: the state of the line that a message finds, or puts in place of another, follows the
      message and what the directory is told. */
  lemma StateFollows(alwaysHit: bool, ways: seq<Line>, tag: nat, m: Message)
    requires SetOk(ways) && NoneStale(ways) && Step(alwaysHit, ways, tag, m).Next?
    ensures var (i, c) := TargetChange(alwaysHit, ways, tag, m);
      c.Change? && Step(alwaysHit, ways, tag, m).ways == Apply(ways, i, c).ways && Follows(ways[i], m, c)
  {
    StepIsChange(alwaysHit, ways, tag, m);
    var i, j := Find(ways, tag, true), Find(ways, tag, false);
    var miss := Missed(alwaysHit, if m.Write? then m.x else 0, true, true);
    assert forall o :: o in miss ==> o.L1? || o.news.Request?;
    hide ReadLine, WriteLine, FillVictim, OnLine, LineOk, Step, Apply;
    if (m.Read? || m.Write?) && i < |ways| {
      RequestsFollow(ways[i], m, miss);
    } else if !m.Read? && !m.Write? && j < |ways| {
      if m.Fill? { FillsFollow(ways[j], tag, m); FillIs(ways[j], m); } else { RepliesFollow(ways[j], m); }
    } else if m.Fill? {
      FillsFollow(ways[0], tag, m);
    }
  }

  lemma FillIs(l: Line, m: Message)
    requires m.Fill?
    ensures OnLine(l, m) == FillLine(l, m.kind, m.x, m.demand)
  {
  }

  // ---------------------------------------------------------------- lines leave the set

  predicate Present(ways: seq<Line>, tag: nat) {
    exists i :: 0 <= i < |ways| && ways[i].state != Invalid && ways[i].tag == tag
  }

  /** Why a line leaves: it is displaced, and announced unless its owner below is told to send it back; or a
      write request has to fetch it anew; or the directory has it invalidated. */
  ghost predicate LeavesFor(l: Line, m: Message, out: set<Output>) {
    || Dir(Evicted(l.tag)) in out
    || (l.state == Modified && l.l1 == Modified && forall x :: x in l.sharers ==> L1(x, EvictLine) in out)
    || m.Write?
    || exists d :: Dir(Invalidated(d)) in out || Dir(Answer(HeldInvalidate(d))) in out
  }

  lemma ChangeLeaves(alwaysHit: bool, ways: seq<Line>, tag: nat, m: Message)
    requires SetOk(ways) && NoneStale(ways) && Step(alwaysHit, ways, tag, m).Next?
    ensures var (i, c) := TargetChange(alwaysHit, ways, tag, m);
      && c.Change? && c.out <= Step(alwaysHit, ways, tag, m).out
      && (ways[i].state != Invalid && (c.line.state == Invalid || c.line.tag != ways[i].tag) ==> LeavesFor(ways[i], m, c.out))
  {
    StepIsChange(alwaysHit, ways, tag, m);
    var i, j := Find(ways, tag, true), Find(ways, tag, false);
    hide FillVictim, OnLine, Step, Apply, Evictions, WriteLine;
    if m.Read? && i < |ways| {
      ReadLineOk(ways[i], m.x);
    } else if !m.Read? && !m.Write? && j < |ways| {
      LineLeaves(ways[j], m);
    } else if m.Fill? {
      VictimLeaves(ways[0], tag, m);
    }
  }

  lemma VictimLeaves(l: Line, tag: nat, m: Message)
    requires LineOk(l) && m.Fill?
    ensures var c := FillVictim(l, tag, m.kind, m.x, m.demand);
      c.Change? && (l.state != Invalid && (c.line.state == Invalid || c.line.tag != l.tag) ==> LeavesFor(l, m, c.out))
  {
  }

  lemma LineLeaves(l: Line, m: Message)
    requires LineOk(l) && !Stale(l) && l.state != Invalid && !m.Read? && !m.Write? && OnLine(l, m).Change?
    ensures var c := OnLine(l, m); (c.line.state == Invalid ==> LeavesFor(l, m, c.out)) && c.line.tag == l.tag
  {
    hide UpgradeLine, FillLine, LineOk, EvictLineOf, Evictions;
    match m
    case UpgradeGranted(x) => UpgradeKeeps(l, x);
    case Fill(kind, x, demand) => FillKeeps(l, kind, x, demand);
    case L1Evict(x, data) => EvictKeeps(l, x);
    case _ =>
  }

  lemma UpgradeKeeps(l: Line, x: nat)
    requires l.state != Invalid
    ensures UpgradeLine(l, x).line.state != Invalid && UpgradeLine(l, x).line.tag == l.tag
  {
  }

  lemma FillKeeps(l: Line, kind: FillKind, x: nat, demand: bool)
    requires l.state != Invalid
    ensures FillLine(l, kind, x, demand).line.state != Invalid && FillLine(l, kind, x, demand).line.tag == l.tag
  {
  }

  lemma EvictKeeps(l: Line, x: nat)
    requires l.state != Invalid
    ensures EvictLineOf(l, x).line.state != Invalid && EvictLineOf(l, x).line.tag == l.tag
  {
  }

  /** No line leaves the set unnoticed. */
  lemma LinesLeave(alwaysHit: bool, ways: seq<Line>, tag: nat, m: Message, j: nat)
    requires SetOk(ways) && NoneStale(ways) && Step(alwaysHit, ways, tag, m).Next? && j < |ways| && ways[j].state != Invalid
    ensures var o := Step(alwaysHit, ways, tag, m); Present(o.ways, ways[j].tag) || LeavesFor(ways[j], m, o.out)
  {
    ChangeLeaves(alwaysHit, ways, tag, m);
    StepIsChange(alwaysHit, ways, tag, m);
    var (i, c) := TargetChange(alwaysHit, ways, tag, m);
    hide Step, TargetChange, LeavesFor;
    ApplyMembers(ways, i, c);
    var r := Apply(ways, i, c).ways;
    if j != i {
      var k :| 0 <= k < |r| && r[k] == ways[j];
    } else if c.line.state != Invalid && c.line.tag == ways[j].tag {
      var k :| 0 <= k < |r| && r[k] == c.line;
    } else {
      MoreOutput(ways[j], m, c.out, Step(alwaysHit, ways, tag, m).out);
    }
  }

  lemma MoreOutput(l: Line, m: Message, a: set<Output>, b: set<Output>)
    requires a <= b && LeavesFor(l, m, a)
    ensures LeavesFor(l, m, b)
  {
  }

  // ---------------------------------------------------------------- least recently used

  /** The message uses the line. */
  predicate Uses(l: Line, m: Message) {
    match m
    case Read(x, demand) => demand
    case Write(x) => l.state != Exclusive && l.state != Shared
    case UpgradeGranted(x) => l.state == ToModified
    case Fill(kind, x, demand) => kind == WriteFill || (l.state != Modified && l.state != ToExclusive)
    case Yielded(x, read) => true
    case L1Evict(x, data) => l.state != ToShared
    case _ => false
  }

  /** The place of the line that the message uses or brings into the set, and the number of ways if there
      is none. */
  function UsedWay(ways: seq<Line>, tag: nat, m: Message): (i: nat)
    requires |ways| > 0
    ensures i <= |ways|
  {
    var i := Find(ways, tag, m.Read? || m.Write?);
    if i < |ways| then if Uses(ways[i], m) then i else |ways|
    else if m.Fill? && (ways[0].state == Invalid || Stable(ways[0])) then 0
    else |ways|
  }

  /** A line that is used goes to the end and the others keep their order; otherwise every line keeps its
      place, its tag and at most loses its validity. */
  ghost predicate Reordered(ways: seq<Line>, used: nat, tag: nat, ways': seq<Line>)
    requires used <= |ways|
  {
    && |ways'| == |ways|
    && if used < |ways| then
         && ways'[..|ways| - 1] == ways[..used] + ways[used + 1..]
         && (ways'[|ways| - 1].state != Invalid ==> ways'[|ways| - 1].tag == tag)
       else forall k :: 0 <= k < |ways| && ways'[k].state != Invalid ==> ways[k].state != Invalid && ways'[k].tag == ways[k].tag
  }

  /** A change that touches exactly the line that is used, and otherwise brings nothing new. */
  predicate TouchesUsed(l: Line, tag: nat, c: Change, uses: bool)
    requires c.Change?
  {
    && c.touched == uses
    && (c.line.state != Invalid ==> (if uses then c.line.tag == tag else l.state != Invalid && c.line.tag == l.tag))
  }

  lemma ReadTouches(l: Line, x: nat)
    requires LineOk(l) && l.state != Invalid
    ensures ReadLine(l, x).Change? && TouchesUsed(l, l.tag, ReadLine(l, x), true)
  {
    ReadLineOk(l, x);
  }

  lemma WriteTouches(l: Line, x: nat, miss: set<Output>)
    requires LineOk(l) && l.state != Invalid
    ensures WriteLine(l, x, miss).Change? && TouchesUsed(l, l.tag, WriteLine(l, x, miss), l.state != Exclusive && l.state != Shared)
  {
    WriteLineOk(l, x, miss);
    hide Evictions;
  }

  lemma RequestTouches(l: Line, m: Message, miss: set<Output>)
    requires LineOk(l) && l.state != Invalid && (m.Read? || m.Write?)
    ensures ReadLine(l, m.x).Change? && WriteLine(l, m.x, miss).Change?
    ensures m.Read? && m.demand ==> TouchesUsed(l, l.tag, ReadLine(l, m.x), Uses(l, m))
    ensures m.Write? ==> TouchesUsed(l, l.tag, WriteLine(l, m.x, miss), Uses(l, m))
  {
    hide ReadLine, WriteLine, LineOk, TouchesUsed;
    ReadTouches(l, m.x);
    WriteTouches(l, m.x, miss);
  }

  lemma ReplyTouches(l: Line, m: Message)
    requires LineOk(l) && l.state != Invalid && !m.Read? && !m.Write? && OnLine(l, m).Change?
    ensures TouchesUsed(l, l.tag, OnLine(l, m), Uses(l, m))
  {
    hide Evictions, FillAnswer;
  }

  lemma VictimTouches(l: Line, tag: nat, m: Message)
    requires LineOk(l) && m.Fill?
    ensures var c := FillVictim(l, tag, m.kind, m.x, m.demand);
      c.Change? && TouchesUsed(l, tag, c, l.state == Invalid || Stable(l))
  {
    hide Evictions, FillAnswer;
  }

  lemma ApplyReorders(ways: seq<Line>, i: nat, tag: nat, c: Change, uses: bool)
    requires i < |ways| && c.Change? && TouchesUsed(ways[i], tag, c, uses)
    ensures Reordered(ways, if uses then i else |ways|, tag, Apply(ways, i, c).ways)
  {
  }

  lemma StaysPut(ways: seq<Line>, tag: nat)
    ensures Reordered(ways, |ways|, tag, ways)
  {
  }

  /** Every message moves exactly the line it uses, to the end. */
  lemma UsedGoesLast(alwaysHit: bool, ways: seq<Line>, tag: nat, m: Message)
    requires SetOk(ways) && Step(alwaysHit, ways, tag, m).Next?
    ensures Reordered(ways, UsedWay(ways, tag, m), tag, Step(alwaysHit, ways, tag, m).ways)
  {
    var i, j := Find(ways, tag, true), Find(ways, tag, false);
    hide Reordered, ReadLine, WriteLine, OnLine, FillVictim, LineOk, Apply, Uses;
    if m.Read? || m.Write? {
      RequestReorders(alwaysHit, ways, tag, m);
    } else if j < |ways| {
      AppliedChange(ways, j, OnLine(ways[j], m));
      ReplyTouches(ways[j], m);
      ApplyReorders(ways, j, tag, OnLine(ways[j], m), Uses(ways[j], m));
    } else if m.Fill? {
      VictimTouches(ways[0], tag, m);
      ApplyReorders(ways, 0, tag, FillVictim(ways[0], tag, m.kind, m.x, m.demand), ways[0].state == Invalid || Stable(ways[0]));
    } else {
      StaysPut(ways, tag);
    }
  }

  lemma RequestReorders(alwaysHit: bool, ways: seq<Line>, tag: nat, m: Message)
    requires SetOk(ways) && (m.Read? || m.Write?) && OnRequest(alwaysHit, ways, tag, m).Next?
    ensures Reordered(ways, UsedWay(ways, tag, m), tag, OnRequest(alwaysHit, ways, tag, m).ways)
  {
    var i := Find(ways, tag, true);
    StaysPut(ways, tag);
    hide Reordered, ReadLine, WriteLine, LineOk, Apply;
    if i < |ways| {
      var miss := Missed(alwaysHit, m.x, true, true);
      RequestTouches(ways[i], m, miss);
      if m.Write? {
        ApplyReorders(ways, i, tag, WriteLine(ways[i], m.x, miss), Uses(ways[i], m));
      } else if m.demand {
        ApplyReorders(ways, i, tag, ReadLine(ways[i], m.x), true);
      }
    }
  }

  /** When each tag was last used in a run whose messages are numbered from n on. */
  ghost function LastUse(alwaysHit: bool, ways: seq<Line>, ms: seq<(nat, Message)>, n: nat, last: map<nat, nat>): map<nat, nat>
    decreases |ms|
  {
    if ms == [] || ways == [] then last
    else
      var o := Step(alwaysHit, ways, ms[0].0, ms[0].1);
      var last' := if UsedWay(ways, ms[0].0, ms[0].1) < |ways| then last[ms[0].0 := n] else last;
      if o.Next? then LastUse(alwaysHit, o.ways, ms[1..], n + 1, last') else last'
  }

  /** The valid lines are in the order of their last uses. */
  predicate InOrder(ways: seq<Line>, last: map<nat, nat>, n: nat) {
    && (forall i :: 0 <= i < |ways| && ways[i].state != Invalid ==> ways[i].tag in last && last[ways[i].tag] < n)
    && forall i, j :: 0 <= i < j < |ways| && ways[i].state != Invalid && ways[j].state != Invalid
         ==> last[ways[i].tag] < last[ways[j].tag]
  }

  lemma ReorderedInOrder(ways: seq<Line>, used: nat, tag: nat, ways': seq<Line>, last: map<nat, nat>, n: nat)
    requires used <= |ways| && InOrder(ways, last, n) && Reordered(ways, used, tag, ways')
    requires used < |ways| ==> forall k :: 0 <= k < |ways| && k != used && ways[k].state != Invalid ==> ways[k].tag != tag
    ensures InOrder(ways', if used < |ways| then last[tag := n] else last, n + 1)
  {
    if used < |ways| {
      var z := |ways| - 1;
      forall k | 0 <= k < z ensures ways'[k] == if k < used then ways[k] else ways[k + 1] {
        assert ways'[k] == ways'[..z][k];
      }
    }
  }

  lemma UsedAlone(ways: seq<Line>, tag: nat, m: Message)
    requires SetOk(ways)
    ensures var used := UsedWay(ways, tag, m);
      used < |ways| ==> forall k :: 0 <= k < |ways| && k != used && ways[k].state != Invalid ==> ways[k].tag != tag
  {
  }

  lemma {:induction false} RunInOrder(alwaysHit: bool, ways: seq<Line>, ms: seq<(nat, Message)>, ways': seq<Line>, n: nat, last: map<nat, nat>)
    requires SetOk(ways) && InOrder(ways, last, n) && Run(alwaysHit, ways, ms, ways')
    ensures InOrder(ways', LastUse(alwaysHit, ways, ms, n, last), n + |ms|)
    decreases |ms|
  {
    if ms != [] {
      var tag, m := ms[0].0, ms[0].1;
      var o := Step(alwaysHit, ways, tag, m);
      CacheSet.StepOk(alwaysHit, ways, tag, m);
      UsedGoesLast(alwaysHit, ways, tag, m);
      UsedAlone(ways, tag, m);
      var used := UsedWay(ways, tag, m);
      ReorderedInOrder(ways, used, tag, o.ways, last, n);
      hide Step, SetOk, InOrder, UsedWay, Reordered;
      RunInOrder(alwaysHit, o.ways, ms[1..], ways', n + 1, if used < |ways| then last[tag := n] else last);
    }
  }

  /** After every run, the line that a fill displaces has been used less recently than every other valid
      line of the set. */
  lemma VictimIsOldest(alwaysHit: bool, start: seq<Line>, ms: seq<(nat, Message)>, ways: seq<Line>, tag: nat, m: Message, j: nat)
    requires Empty(start) && Run(alwaysHit, start, ms, ways)
    requires m.Fill? && Find(ways, tag, false) == |ways| && 0 < j < |ways| && ways[j].state != Invalid
    requires Step(alwaysHit, ways, tag, m).Next?
    ensures var last, o := LastUse(alwaysHit, start, ms, 0, map[]), Step(alwaysHit, ways, tag, m);
      && ways[j].tag in last && (ways[0].state != Invalid ==> ways[0].tag in last && last[ways[0].tag] < last[ways[j].tag])
      && ways[j] in o.ways
  {
    RunOk(alwaysHit, start, ms, ways);
    RunInOrder(alwaysHit, start, ms, ways, 0, map[]);
    var c := FillVictim(ways[0], tag, m.kind, m.x, m.demand);
    VictimTouches(ways[0], tag, m);
    ApplyMembers(ways, 0, c);
    hide FillVictim, Apply, SetOk, LastUse, Run;
  }

  // ---------------------------------------------------------------- reports to the directory

  /** The directory is told what has become of an upgrade, of a fill, and of data that a first-level cache
      evicts after the line has gone. */
  lemma Reported(alwaysHit: bool, ways: seq<Line>, tag: nat, m: Message)
    requires SetOk(ways) && Step(alwaysHit, ways, tag, m).Next?
    ensures var o, i := Step(alwaysHit, ways, tag, m), Find(ways, tag, false);
      && (m.UpgradeGranted? ==>
            if i < |ways| && ways[i].state == ToModified then Dir(Upgraded) in o.out && Dir(UpgradeFailed) !in o.out
            else Dir(UpgradeFailed) in o.out && Dir(Upgraded) !in o.out)
      && (m.Fill? ==> Present(o.ways, tag) || Dir(Evicted(tag)) in o.out)
      && (m.L1Evict? && i == |ways| ==> o.ways == ways && o.out == if m.data && !alwaysHit then {Dir(PassOn(m.x))} else {})
  {
    var i := Find(ways, tag, false);
    if m.UpgradeGranted? && i < |ways| {
      UpgradeTold(ways[i], m.x);
      hide UpgradeLine;
    } else if m.Fill? {
      FillPresent(ways, tag, m);
    }
  }

  lemma UpgradeTold(l: Line, x: nat)
    ensures var out := UpgradeLine(l, x).out;
      if l.state == ToModified then Dir(Upgraded) in out && Dir(UpgradeFailed) !in out
      else Dir(UpgradeFailed) in out && Dir(Upgraded) !in out
  {
  }

  lemma FillPresent(ways: seq<Line>, tag: nat, m: Message)
    requires SetOk(ways) && m.Fill?
    ensures var i := Find(ways, tag, false);
      var c := if i < |ways| then FillLine(ways[i], m.kind, m.x, m.demand) else FillVictim(ways[0], tag, m.kind, m.x, m.demand);
      var j := if i < |ways| then i else 0;
      c.Change? && (Present(Apply(ways, j, c).ways, tag) || Dir(Evicted(tag)) in c.out)
  {
    var i := Find(ways, tag, false);
    var c := if i < |ways| then FillLine(ways[i], m.kind, m.x, m.demand) else FillVictim(ways[0], tag, m.kind, m.x, m.demand);
    var j := if i < |ways| then i else 0;
    assert (c.line.state != Invalid && c.line.tag == tag) || Dir(Evicted(tag)) in c.out by {
      hide Evictions, FillAnswer;
    }
    hide FillLine, FillVictim;
    ApplyMembers(ways, j, c);
    var r := Apply(ways, j, c).ways;
    var k :| 0 <= k < |r| && r[k] == c.line;
  }

  /** An eviction by the first level takes exactly its sender off the sharers of the line; if the directory
      waits for the line, its answer comes through the sender, which is listed again. */
  lemma L1EvictOutcome(alwaysHit: bool, ways: seq<Line>, tag: nat, x: nat, data: bool)
    requires SetOk(ways) && Find(ways, tag, false) < |ways|
    ensures var i, o := Find(ways, tag, false), Step(alwaysHit, ways, tag, L1Evict(x, data));
      var l := ways[i];
      && o.Next?
      && if l.state == ToShared then o == Next(ways[i := l.(state := Shared, pending := Nothing, sharers := l.sharers + {x})], {Dir(Answer(HeldRead))})
         else o.out == {} && exists l' :: o.ways == Touch(ways, i, l') && l'.sharers == l.sharers - {x} && l'.state == l.state && l'.tag == l.tag
  {
    var i := Find(ways, tag, false);
    var c := EvictLineOf(ways[i], x);
    if ways[i].state != ToShared { assert Step(alwaysHit, ways, tag, L1Evict(x, data)).ways == Touch(ways, i, c.line); }
  }

  // ---------------------------------------------------------------- failed checks

  /** Messages that do not fit the line end the program, and nothing else does. */
  predicate Unfit(ways: seq<Line>, tag: nat, m: Message) {
    var i := Find(ways, tag, false);
    if i == |ways| then m.Yielded?
    else
      var l := ways[i];
      match m
      case Yielded(x, read) => l.state != ToInvalid && l.l1 != ToModified && l.l1 != ToShared
      case DirRead => l.state != Modified || ((l.l1 == ToModified || l.l1 == ToShared) && l.pending != Nothing)
      case DirShare(exclusive) => l.state != Exclusive && l.state != Shared && l.state != ToModified
      case DirInvalidate(data) =>
        || l.state == ToShared || l.state == ToInvalid
        || (l.state == Modified && (l.l1 == ToModified || l.l1 == ToShared) && l.pending != Nothing)
      case _ => false
  }

  lemma FailsExactly(alwaysHit: bool, ways: seq<Line>, tag: nat, m: Message)
    requires SetOk(ways)
    ensures Step(alwaysHit, ways, tag, m).Fatal? <==> Unfit(ways, tag, m)
  {
    var i := Find(ways, tag, false);
    if m.Read? || m.Write? {
      RequestOk(alwaysHit, ways, tag, m);
      hide OnRequest;
    } else if i < |ways| {
      AppliedChange(ways, i, OnLine(ways[i], m));
      hide Apply, Evictions, FillAnswer;
    }
  }

  // ---------------------------------------------------------------- write requests for lines that are not owned

  /** A write request for a line that is not owned keeps the line, to be upgraded, exactly if its requester is
      the only sharer of an exclusive line; otherwise all sharers lose it, and with them the line is given
      up. */
  lemma WritesInPlace(l: Line, x: nat, miss: set<Output>)
    requires LineOk(l) && (l.state == Exclusive || l.state == Shared)
    ensures var c := WriteLine(l, x, miss);
      && c.Change? && miss <= c.out
      && (c.line.state == ToModified <==> l.state == Exclusive && l.sharers == {x})
      && (c.line.state == ToModified ==> c.line == l.(state := ToModified) && c.out == miss)
      && (c.line.state != ToModified ==>
            c.line == l.(state := if l.sharers == {} then l.state else Invalid, sharers := {})
            && forall y :: y in l.sharers && y != x ==> L1(y, EvictLine) in c.out)
  {
    if l.state == Exclusive && l.sharers == {x} {
      assert |l.sharers| == 1;
    }
  }

  /** The line displaced by a fill is announced exactly if no owner has to send it back first, and the filled
      one exactly if the line it would displace is in transit. */
  lemma EvictionsAnnounced(alwaysHit: bool, ways: seq<Line>, tag: nat, m: Message, g: nat)
    requires SetOk(ways) && Step(alwaysHit, ways, tag, m).Next?
    ensures var l, transit := ways[0], ways[0].state != Invalid && !Stable(ways[0]);
      Dir(Evicted(g)) in Step(alwaysHit, ways, tag, m).out <==>
        m.Fill? && Find(ways, tag, false) == |ways| && if transit then g == tag else l.state != Invalid && l.l1 != Modified && g == l.tag
  {
    var i, j := Find(ways, tag, false), Find(ways, tag, true);
    if m.Read? || m.Write? {
      if j < |ways| { RequestNews(ways[j], m.x, Missed(alwaysHit, m.x, true, true)); }
      hide ReadLine, WriteLine, LineOk;
    } else if i < |ways| {
      LineAnnounces(ways[i], m, g);
      hide OnLine, LineOk;
    } else if m.Fill? {
      VictimAnnounces(ways[0], tag, m, g);
      hide FillVictim, LineOk;
    }
  }

  lemma VictimAnnounces(l: Line, tag: nat, m: Message, g: nat)
    requires LineOk(l) && m.Fill?
    ensures var c, transit := FillVictim(l, tag, m.kind, m.x, m.demand), l.state != Invalid && !Stable(l);
      c.Change? &&
      (Dir(Evicted(g)) in c.out <==> if transit then g == tag else l.state != Invalid && l.l1 != Modified && g == l.tag)
  {
    OrdersOnly(l.sharers, m.kind, m.x, m.demand);
    hide Evictions, FillAnswer, LineOk;
  }

  lemma OrdersOnly(s: set<nat>, kind: FillKind, x: nat, demand: bool)
    ensures (forall o :: o in Evictions(s) ==> o.L1?) && forall o :: o in FillAnswer(kind, x, demand) ==> o.L1?
  {
  }

  lemma LineAnnounces(l: Line, m: Message, g: nat)
    requires LineOk(l) && l.state != Invalid && !m.Read? && !m.Write? && OnLine(l, m).Change?
    ensures Dir(Evicted(g)) !in OnLine(l, m).out
  {
    hide UpgradeLine, FillLine, YieldLine, EvictLineOf, DirReadLine, DirShareLine, DirInvalidateLine, LineOk;
    match m
    case UpgradeGranted(x) => UpgradeNews(l, x);
    case Fill(kind, x, demand) => FillNews(l, l.tag, kind, x, demand);
    case Yielded(x, read) => YieldNews(l, x, read);
    case L1Evict(x, data) => EvictNews(l, x);
    case DirRead => DirReadNews(l);
    case DirShare(exclusive) => DirShareNews(l);
    case DirInvalidate(data) => DirInvalidateNews(l, data);
    case _ =>
  }

  // ---------------------------------------------------------------- the state towards the first level

  /** How the state towards the first-level caches comes about: shared with a second reader, a shared fill or
      a line given up to be shared; exclusive with the first reader, a fill for a reader, or while the owner
      sends the line back; modified for a writer. */
  predicate BelowFollows(l: Line, m: Message, c: Change)
    requires c.Change?
  {
    && (c.line.l1 == Shared && l.l1 != Shared ==>
          || (m.Read? && l.l1 == Exclusive && |c.line.sharers| > 1)
          || (m.Fill? && m.kind == SharedFill && m.demand)
          || (m.Yielded? && l.l1 == ToShared))
    && (c.line.l1 == Exclusive && l.l1 != Exclusive ==>
          || (m.Read? && l.l1 == Invalid)
          || (m.Fill? && m.kind != WriteFill && m.demand)
          || (m.DirRead? && l.l1 == Modified && c.line.state == ToShared))
    && (c.line.l1 == Modified && l.l1 != Modified ==>
          m.Write? || m.UpgradeGranted? || (m.Fill? && m.kind == WriteFill && m.demand) || (m.Yielded? && l.l1 == ToModified))
    && (c.line.l1 == ToShared && l.l1 != ToShared ==> m.Read? && l.l1 == Modified)
    && (c.line.l1 == ToModified && l.l1 != ToModified ==> m.Write? && l.l1 == Modified)
    && (c.line.l1 == ToInvalid && l.l1 != ToInvalid ==> m.DirInvalidate? && l.l1 == Modified)
    && (c.line.l1 == Invalid && l.l1 != Invalid ==>
          c.line.sharers == {} || (m.Fill? && !m.demand) || (m.Yielded? && l.pending != Nothing))
    && (m.Read? && l.l1 == Exclusive && |c.line.sharers| > |l.sharers| && |c.line.sharers| > 1 ==> c.line.l1 == Shared)
  }

  lemma ReadBelow(l: Line, x: nat)
    requires LineOk(l) && l.state != Invalid
    ensures ReadLine(l, x).Change? && BelowFollows(l, Read(x, true), ReadLine(l, x))
  {
    ReadLineOk(l, x);
    var c := ReadLine(l, x);
    assert c.line == l.(l1 := c.line.l1, sharers := c.line.sharers);
    assert c.line.l1 == l.l1
        || (l.l1 == Invalid && c.line.l1 == Exclusive)
        || (l.l1 == Exclusive && c.line.l1 == Shared && |c.line.sharers| > 1)
        || (l.l1 == Modified && c.line.l1 == ToShared);
    assert l.l1 == Exclusive && c.line.l1 == Exclusive ==> c.line == l || |c.line.sharers| <= 1;
    hide ReadLine, LineOk;
  }

  lemma WriteBelow(l: Line, x: nat, miss: set<Output>)
    requires LineOk(l) && l.state != Invalid
    ensures WriteLine(l, x, miss).Change? && BelowFollows(l, Write(x), WriteLine(l, x, miss))
  {
    WriteLineOk(l, x, miss);
    var c := WriteLine(l, x, miss);
    assert c.line.l1 == l.l1 || c.line.l1 == Modified || (l.l1 == Modified && c.line.l1 == ToModified);
    hide WriteLine, LineOk;
  }

  lemma RequestsBelow(l: Line, x: nat, miss: set<Output>)
    requires LineOk(l) && l.state != Invalid
    ensures ReadLine(l, x).Change? && WriteLine(l, x, miss).Change?
    ensures BelowFollows(l, Read(x, true), ReadLine(l, x)) && BelowFollows(l, Write(x), WriteLine(l, x, miss))
  {
    hide *;
    ReadBelow(l, x);
    WriteBelow(l, x, miss);
  }

  lemma RepliesBelow(l: Line, m: Message)
    requires LineOk(l) && l.state != Invalid && !m.Read? && !m.Write? && OnLine(l, m).Change?
    ensures BelowFollows(l, m, OnLine(l, m))
  {
    hide Evictions, FillAnswer;
  }

  lemma VictimBelow(l: Line, tag: nat, m: Message)
    requires LineOk(l) && m.Fill?
    ensures var c := FillVictim(l, tag, m.kind, m.x, m.demand); c.Change? && (c.line.l1 == Shared ==> l.l1 == Shared && c.line == l)
  {
    hide Evictions, FillAnswer;
  }

  /** In the set: the state towards the first level follows the message. */
  lemma FirstLevelFollows(alwaysHit: bool, ways: seq<Line>, tag: nat, m: Message)
    requires SetOk(ways) && Step(alwaysHit, ways, tag, m).Next? && Find(ways, tag, false) < |ways|
    ensures var (i, c) := TargetChange(alwaysHit, ways, tag, m);
      c.Change? && Step(alwaysHit, ways, tag, m).ways == Apply(ways, i, c).ways && BelowFollows(ways[i], m, c)
  {
    StepIsChange(alwaysHit, ways, tag, m);
    var i, j := Find(ways, tag, true), Find(ways, tag, false);
    hide ReadLine, WriteLine, FillVictim, OnLine, LineOk, Step, Apply, BelowFollows;
    if m.Read? || m.Write? {
      if i < |ways| { RequestsBelow(ways[i], m.x, Missed(alwaysHit, m.x, true, true)); }
      SameBelow(ways[0], m);
      ReadIs(m);
    } else {
      RepliesBelow(ways[j], m);
    }
  }

  lemma ReadIs(m: Message)
    ensures m.Read? && m.demand ==> m == Read(m.x, true)
  {
  }

  lemma SameBelow(l: Line, m: Message)
    ensures BelowFollows(l, m, Change(l, false, {}))
  {
  }
}
