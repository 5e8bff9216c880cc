/** Nothing is left unanswered by the second-level cache: every message of the directory is answered or
    held back, every request of a first-level cache is answered, sent on or passed to the owner. */
module CacheAnswers {
  import opened CacheSet

  // ---------------------------------------------------------------- messages of the directory

  datatype Ask = AskRead | AskShare | AskInvalidate

  predicate Asks(m: Message, a: Ask) {
    match a
    case AskRead => m.DirRead?
    case AskShare => m.DirShare?
    case AskInvalidate => m.DirInvalidate?
  }

  /** The message answers a question of this kind, at once or late. */
  predicate AnswersAsk(o: Output, a: Ask) {
    match a
    case AskRead => o == Dir(GivesRead) || o == Dir(NoData) || o == Dir(Answer(HeldRead))
    case AskShare => o == Dir(Shares(true)) || o == Dir(Shares(false))
    case AskInvalidate =>
      || o == Dir(Invalidated(true)) || o == Dir(Invalidated(false))
      || o == Dir(Answer(HeldInvalidate(true))) || o == Dir(Answer(HeldInvalidate(false)))
  }

  function Replies(out: set<Output>, a: Ask): set<Output> {
    set o | o in out && AnswersAsk(o, a)
  }

  predicate Holds(l: Line, a: Ask) {
    (a == AskRead && l.pending.HeldRead?) || (a == AskInvalidate && l.pending.HeldInvalidate?)
  }

  /** How many ways hold back a question of this kind. */
  function Held(ways: seq<Line>, a: Ask): nat {
    if ways == [] then 0 else Held(ways[..|ways| - 1], a) + if Holds(ways[|ways| - 1], a) then 1 else 0
  }

  /** A question finds the line busy with an earlier one that nothing will answer any more. */
  predicate Overwrites(l: Line, m: Message) {
    && (m.DirRead? || m.DirInvalidate?)
    && l.state == Modified && l.l1 == Modified && l.pending != Nothing
  }

  function One(b: bool): nat {
    if b then 1 else 0
  }

  /** What a change does to one question: it comes in, is held, or is answered. */
  ghost predicate Balanced(l: Line, m: Message, c: Change, a: Ask)
    requires c.Change?
  {
    One(Holds(c.line, a)) + |Replies(c.out, a)| == One(Holds(l, a)) + One(Asks(m, a))
  }

  lemma NoReplies(out: set<Output>, a: Ask)
    requires forall o :: o in out ==> !AnswersAsk(o, a)
    ensures |Replies(out, a)| == 0
  {
    assert Replies(out, a) == {};
  }

  lemma OneReply(out: set<Output>, a: Ask, o: Output)
    requires o in out && AnswersAsk(o, a) && forall p :: p in out && AnswersAsk(p, a) ==> p == o
    ensures |Replies(out, a)| == 1
  {
    assert Replies(out, a) == {o};
  }

  lemma DirReadBalanced(l: Line, a: Ask)
    requires LineOk(l) && DirReadLine(l).Change? && !Overwrites(l, DirRead)
    ensures Balanced(l, DirRead, DirReadLine(l), a)
  {
    var c := DirReadLine(l);
    if Dir(GivesRead) in c.out && a == AskRead { OneReply(c.out, a, Dir(GivesRead)); } else { NoReplies(c.out, a); }
  }

  lemma DirShareBalanced(l: Line, exclusive: bool, a: Ask)
    requires DirShareLine(l).Change?
    ensures Balanced(l, DirShare(exclusive), DirShareLine(l), a)
  {
    var c := DirShareLine(l);
    if a == AskShare { OneReply(c.out, a, Dir(Shares(true))); } else { NoReplies(c.out, a); }
  }

  lemma DirInvalidateBalanced(l: Line, data: bool, a: Ask)
    requires LineOk(l) && DirInvalidateLine(l, data).Change? && !Overwrites(l, DirInvalidate(data))
    ensures Balanced(l, DirInvalidate(data), DirInvalidateLine(l, data), a)
  {
    var c := DirInvalidateLine(l, data);
    if Dir(Invalidated(data)) in c.out && a == AskInvalidate {
      OneReply(c.out, a, Dir(Invalidated(data)));
    } else {
      NoReplies(c.out, a);
    }
  }

  /** The news for the directory in the output. */
  predicate OnlyNews(out: set<Output>, news: ToDir) {
    forall o :: o in out && o.Dir? ==> o.news == news
  }

  lemma YieldNews(l: Line, x: nat, read: bool)
    requires LineOk(l) && YieldLine(l, x, read).Change?
    ensures var c := YieldLine(l, x, read);
      && OnlyNews(c.out, Answer(l.pending)) && c.line.pending == Nothing
      && (Dir(Answer(l.pending)) in c.out <==> l.pending != Nothing)
  {
  }

  lemma HeldAnswered(l: Line, m: Message, c: Change, a: Ask)
    requires c.Change? && OnlyNews(c.out, Answer(l.pending)) && c.line.pending == Nothing && !Asks(m, a)
    requires Dir(Answer(l.pending)) in c.out <==> l.pending != Nothing
    ensures Balanced(l, m, c, a)
  {
    if Holds(l, a) { OneReply(c.out, a, Dir(Answer(l.pending))); } else { NoReplies(c.out, a); }
  }

  lemma YieldBalanced(l: Line, x: nat, read: bool, a: Ask)
    requires LineOk(l) && YieldLine(l, x, read).Change?
    ensures Balanced(l, Yielded(x, read), YieldLine(l, x, read), a)
  {
    YieldNews(l, x, read);
    hide YieldLine, LineOk, Balanced, OnlyNews;
    HeldAnswered(l, Yielded(x, read), YieldLine(l, x, read), a);
  }

  lemma EvictBalanced(l: Line, x: nat, data: bool, a: Ask)
    requires LineOk(l)
    ensures Balanced(l, L1Evict(x, data), EvictLineOf(l, x), a)
  {
    var c := EvictLineOf(l, x);
    if l.state == ToShared && Holds(l, a) { OneReply(c.out, a, Dir(Answer(l.pending))); } else { NoReplies(c.out, a); }
  }

  lemma FillNews(l: Line, tag: nat, kind: FillKind, x: nat, demand: bool)
    ensures forall o :: o in FillLine(l, kind, x, demand).out ==> o.L1?
    ensures forall o :: o in FillVictim(l, tag, kind, x, demand).out && o.Dir? ==> o.news.Evicted?
    ensures FillLine(l, kind, x, demand).line.pending == FillVictim(l, tag, kind, x, demand).line.pending == l.pending
  {
  }

  lemma Unaffected(l: Line, m: Message, c: Change, a: Ask)
    requires c.Change? && c.line.pending == l.pending && !Asks(m, a)
    requires forall o :: o in c.out ==> o.L1? || o.news.Evicted?
    ensures Balanced(l, m, c, a)
  {
    NoReplies(c.out, a);
  }

  /** The others neither bring nor answer a question, and leave what is held back alone. */
  lemma FillBalanced(l: Line, tag: nat, kind: FillKind, x: nat, demand: bool, a: Ask)
    ensures FillLine(l, kind, x, demand).Change? && Balanced(l, Fill(kind, x, demand), FillLine(l, kind, x, demand), a)
    ensures FillVictim(l, tag, kind, x, demand).Change? && Balanced(l, Fill(kind, x, demand), FillVictim(l, tag, kind, x, demand), a)
  {
    assert FillLine(l, kind, x, demand).Change? && FillVictim(l, tag, kind, x, demand).Change?;
    hide FillLine, FillVictim, Balanced;
    FillNews(l, tag, kind, x, demand);
    Unaffected(l, Fill(kind, x, demand), FillLine(l, kind, x, demand), a);
    Unaffected(l, Fill(kind, x, demand), FillVictim(l, tag, kind, x, demand), a);
  }

  lemma UpgradeBalanced(l: Line, x: nat, a: Ask)
    ensures Balanced(l, UpgradeGranted(x), UpgradeLine(l, x), a)
  {
    NoReplies(UpgradeLine(l, x).out, a);
  }

  lemma LineBalanced(l: Line, m: Message, a: Ask)
    requires LineOk(l) && !m.Read? && !m.Write? && OnLine(l, m).Change? && !Overwrites(l, m)
    ensures Balanced(l, m, OnLine(l, m), a)
  {
    hide UpgradeLine, FillLine, YieldLine, EvictLineOf, DirReadLine, DirShareLine, DirInvalidateLine;
    match m
    case UpgradeGranted(x) => UpgradeBalanced(l, x, a);
    case Fill(kind, x, demand) => FillBalanced(l, l.tag, kind, x, demand, a);
    case Yielded(x, read) => YieldBalanced(l, x, read, a);
    case L1Evict(x, data) => EvictBalanced(l, x, data, a);
    case DirRead => DirReadBalanced(l, a);
    case DirShare(exclusive) => DirShareBalanced(l, exclusive, a);
    case DirInvalidate(data) => DirInvalidateBalanced(l, data, a);
    case Refused(x, demand) => NoReplies(OnLine(l, m).out, a);
    case Nop => NoReplies(OnLine(l, m).out, a);
  }

  lemma RequestNews(l: Line, x: nat, miss: set<Output>)
    requires LineOk(l) && l.state != Invalid
    ensures var r, w := ReadLine(l, x), WriteLine(l, x, miss);
      && r.Change? && w.Change? && r.line.pending == w.line.pending == l.pending
      && (forall o :: o in r.out ==> o.L1?) && (forall o :: o in w.out ==> o.L1? || o in miss)
  {
    ReadLineOk(l, x);
    WriteLineOk(l, x, miss);
  }

  lemma RequestBalanced(l: Line, x: nat, miss: set<Output>, a: Ask)
    requires LineOk(l) && l.state != Invalid && forall o :: o in miss ==> !AnswersAsk(o, a)
    ensures ReadLine(l, x).Change? && WriteLine(l, x, miss).Change?
    ensures Balanced(l, Read(x, true), ReadLine(l, x), a) && Balanced(l, Write(x), WriteLine(l, x, miss), a)
  {
    RequestNews(l, x, miss);
    hide ReadLine, WriteLine, LineOk;
    NoReplies(ReadLine(l, x).out, a);
    NoReplies(WriteLine(l, x, miss).out, a);
  }

  // ---------------------------------------------------------------- one message

  lemma {:induction false} HeldConcat(p: seq<Line>, q: seq<Line>, a: Ask)
    ensures Held(p + q, a) == Held(p, a) + Held(q, a)
    decreases |q|
  {
    if q == [] {
      assert p + q == p;
    } else {
      assert (p + q)[..|p + q| - 1] == p + q[..|q| - 1];
      HeldConcat(p, q[..|q| - 1], a);
    }
  }

  lemma HeldOne(l: Line, a: Ask)
    ensures Held([l], a) == One(Holds(l, a))
  {
    assert [l][..0] == [];
  }

  /** Changing one way changes the count by what it holds. */
  lemma HeldApply(ways: seq<Line>, i: nat, c: Change, a: Ask)
    requires i < |ways| && c.Change?
    ensures Held(Apply(ways, i, c).ways, a) + One(Holds(ways[i], a)) == Held(ways, a) + One(Holds(c.line, a))
  {
    var p, q := ways[..i], ways[i + 1..];
    HeldOne(ways[i], a);
    HeldOne(c.line, a);
    assert ways == (p + [ways[i]]) + q;
    HeldConcat(p + [ways[i]], q, a);
    HeldConcat(p, [ways[i]], a);
    if c.touched {
      HeldConcat(p + q, [c.line], a);
      HeldConcat(p, q, a);
    } else {
      assert ways[i := c.line] == (p + [c.line]) + q;
      HeldConcat(p + [c.line], q, a);
      HeldConcat(p, [c.line], a);
    }
  }

  /** The line that a message finds, if any, is asked to hold a question while it still holds one. */
  predicate Loses(ways: seq<Line>, tag: nat, m: Message) {
    var i := Find(ways, tag, false);
    !m.Read? && !m.Write? && i < |ways| && Overwrites(ways[i], m)
  }

  ghost predicate StepBalanced(ways: seq<Line>, m: Message, o: Outcome, a: Ask)
    requires o.Next?
  {
    Held(o.ways, a) + |Replies(o.out, a)| == Held(ways, a) + One(Asks(m, a))
  }

  lemma ApplyBalanced(ways: seq<Line>, i: nat, m: Message, c: Change, a: Ask)
    requires i < |ways| && c.Change? && Balanced(ways[i], m, c, a)
    ensures StepBalanced(ways, m, Apply(ways, i, c), a)
  {
    HeldApply(ways, i, c, a);
    hide Held, Holds, AnswersAsk, Asks;
  }

  lemma AbsentBalanced(alwaysHit: bool, ways: seq<Line>, m: Message, a: Ask)
    requires !m.Read? && !m.Write? && !m.Fill? && !m.Yielded?
    ensures StepBalanced(ways, m, Next(ways, AbsentAnswer(alwaysHit, m)), a)
  {
    var out := AbsentAnswer(alwaysHit, m);
    if m.DirRead? && a == AskRead { OneReply(out, a, Dir(NoData)); }
    else if m.DirShare? && a == AskShare { OneReply(out, a, Dir(Shares(false))); }
    else if m.DirInvalidate? && a == AskInvalidate { OneReply(out, a, Dir(Invalidated(false))); }
    else { NoReplies(out, a); }
  }

  lemma MissNews(alwaysHit: bool, x: nat, write: bool, demand: bool, a: Ask)
    ensures forall o :: o in Missed(alwaysHit, x, write, demand) ==> !AnswersAsk(o, a)
  {
  }

  lemma RequestStepBalanced(alwaysHit: bool, ways: seq<Line>, tag: nat, m: Message, a: Ask)
    requires SetOk(ways) && (m.Read? || m.Write?) && OnRequest(alwaysHit, ways, tag, m).Next?
    ensures StepBalanced(ways, m, OnRequest(alwaysHit, ways, tag, m), a)
  {
    var i := Find(ways, tag, true);
    MissNews(alwaysHit, m.x, m.Write?, m.Write? || m.demand, a);
    if i == |ways| {
      NoReplies(Missed(alwaysHit, m.x, m.Write?, m.Write? || m.demand), a);
    } else {
      var miss := Missed(alwaysHit, m.x, true, true);
      MissNews(alwaysHit, m.x, true, true, a);
      RequestBalanced(ways[i], m.x, miss, a);
      NoReplies({}, a);
      hide ReadLine, WriteLine, LineOk, Held, AnswersAsk, Missed, Apply;
      if m.Write? {
        ApplyBalanced(ways, i, m, WriteLine(ways[i], m.x, miss), a);
      } else if m.demand {
        ApplyBalanced(ways, i, m, ReadLine(ways[i], m.x), a);
      }
    }
  }

  lemma NotLost(alwaysHit: bool, ways: seq<Line>, tag: nat, m: Message, a: Ask)
    requires SetOk(ways) && Step(alwaysHit, ways, tag, m).Next? && !Loses(ways, tag, m)
    ensures StepBalanced(ways, m, Step(alwaysHit, ways, tag, m), a)
  {
    var i := Find(ways, tag, false);
    hide Apply, Held, AnswersAsk, Replies, OnLine, FillVictim;
    if m.Read? || m.Write? {
      RequestStepBalanced(alwaysHit, ways, tag, m, a);
    } else if i < |ways| {
      AppliedChange(ways, i, OnLine(ways[i], m));
      LineBalanced(ways[i], m, a);
      ApplyBalanced(ways, i, m, OnLine(ways[i], m), a);
    } else if m.Fill? {
      FillBalanced(ways[0], tag, m.kind, m.x, m.demand, a);
      ApplyBalanced(ways, 0, m, FillVictim(ways[0], tag, m.kind, m.x, m.demand), a);
    } else {
      AbsentBalanced(alwaysHit, ways, m, a);
    }
  }

  /** The kind of question that a line holds. */
  function Kind(l: Line): Ask {
    if l.pending.HeldRead? then AskRead else AskInvalidate
  }

  lemma Lost(alwaysHit: bool, ways: seq<Line>, tag: nat, m: Message)
    requires SetOk(ways) && Step(alwaysHit, ways, tag, m).Next? && Loses(ways, tag, m)
    ensures !StepBalanced(ways, m, Step(alwaysHit, ways, tag, m), Kind(ways[Find(ways, tag, false)]))
  {
    var i := Find(ways, tag, false);
    var l := ways[i];
    var c := if m.DirRead? then DirReadLine(l) else DirInvalidateLine(l, m.data);
    assert c.Change?;
    NoReplies(c.out, Kind(l));
    HeldApply(ways, i, c, Kind(l));
    assert Step(alwaysHit, ways, tag, m) == Apply(ways, i, c);
    hide Step, Apply, Held, Replies, DirReadLine, DirInvalidateLine;
    assert StepKeepsOut(ways, i, c);
  }

  predicate StepKeepsOut(ways: seq<Line>, i: nat, c: Change)
    requires i < |ways| && c.Change?
  {
    Apply(ways, i, c).Next? && Apply(ways, i, c).out == c.out
  }

  /** Conservation of the directory's questions: each one that arrives is answered in the same step by a
      message of its kind or held back, and each one held back stays until a step answers it, except
      exactly when it is overwritten. */
  lemma AsksConserved(alwaysHit: bool, ways: seq<Line>, tag: nat, m: Message)
    requires SetOk(ways) && Step(alwaysHit, ways, tag, m).Next?
    ensures (forall a :: StepBalanced(ways, m, Step(alwaysHit, ways, tag, m), a)) <==> !Loses(ways, tag, m)
  {
    if Loses(ways, tag, m) {
      Lost(alwaysHit, ways, tag, m);
    } else {
      forall a ensures StepBalanced(ways, m, Step(alwaysHit, ways, tag, m), a) { NotLost(alwaysHit, ways, tag, m, a); }
    }
  }

  lemma AppliedChange(ways: seq<Line>, i: nat, c: Change)
    requires i < |ways|
    ensures Apply(ways, i, c).Next? <==> c.Change?
  {
  }

  /** The answers say whether the line is there: data comes only from a line of the set, and an invalidation
      is confirmed with data only if it asked for data. */
  lemma AnswersSayPresence(alwaysHit: bool, ways: seq<Line>, tag: nat, m: Message, d: bool)
    requires SetOk(ways) && Step(alwaysHit, ways, tag, m).Next?
    ensures var out, there := Step(alwaysHit, ways, tag, m).out, Find(ways, tag, false) < |ways|;
      && (Dir(Shares(d)) in out ==> d == there)
      && (Dir(GivesRead) in out ==> there && ways[Find(ways, tag, false)].state == Modified)
      && (Dir(NoData) in out ==> !there)
      && (Dir(Invalidated(d)) in out ==> m.DirInvalidate? && d == (m.data && there))
  {
    var i, j := Find(ways, tag, false), Find(ways, tag, true);
    if m.Read? || m.Write? {
      if j < |ways| { RequestNews(ways[j], m.x, Missed(alwaysHit, m.x, true, true)); }
      hide ReadLine, WriteLine, LineOk;
    } else if i < |ways| {
      LineNews(ways[i], m, d);
      hide OnLine, LineOk;
    } else if m.Fill? {
      FillNews(ways[0], tag, m.kind, m.x, m.demand);
      hide FillVictim, LineOk;
    }
  }

  lemma LineNews(l: Line, m: Message, d: bool)
    requires LineOk(l) && l.state != Invalid && !m.Read? && !m.Write? && OnLine(l, m).Change?
    ensures var out := OnLine(l, m).out;
      && (Dir(Shares(d)) in out ==> d) && (Dir(GivesRead) in out ==> l.state == Modified) && Dir(NoData) !in out
      && (Dir(Invalidated(d)) in out ==> m.DirInvalidate? && d == m.data)
  {
    hide UpgradeLine, FillLine, YieldLine, EvictLineOf, DirReadLine, DirShareLine, DirInvalidateLine, LineOk;
    match m
    case UpgradeGranted(x) => UpgradeNews(l, x);
    case Fill(kind, x, demand) => FillNews(l, l.tag, kind, x, demand);
    case Yielded(x, read) => YieldNews(l, x, read);
    case L1Evict(x, data) => EvictNews(l, x);
    case DirRead => DirReadNews(l);
    case DirShare(exclusive) => DirShareNews(l);
    case DirInvalidate(data) => DirInvalidateNews(l, data);
    case _ =>
  }

  lemma UpgradeNews(l: Line, x: nat)
    ensures forall o :: o in UpgradeLine(l, x).out && o.Dir? ==> o.news == Upgraded || o.news == UpgradeFailed
  {
  }

  lemma EvictNews(l: Line, x: nat)
    ensures OnlyNews(EvictLineOf(l, x).out, Answer(l.pending))
  {
  }

  lemma DirReadNews(l: Line)
    requires DirReadLine(l).Change?
    ensures OnlyNews(DirReadLine(l).out, GivesRead) && (Dir(GivesRead) in DirReadLine(l).out ==> l.state == Modified)
  {
  }

  lemma DirShareNews(l: Line)
    requires DirShareLine(l).Change?
    ensures OnlyNews(DirShareLine(l).out, Shares(true))
  {
  }

  lemma DirInvalidateNews(l: Line, data: bool)
    requires DirInvalidateLine(l, data).Change?
    ensures OnlyNews(DirInvalidateLine(l, data).out, Invalidated(data))
  {
  }

  // ---------------------------------------------------------------- held questions over runs

  /** The line holds a question although no first-level cache has been asked for it. */
  predicate Stale(l: Line) {
    match l.pending
    case Nothing => false
    case HeldRead => l.state != ToShared && !(l.state == Modified && (l.l1 == ToModified || l.l1 == ToShared))
    case HeldInvalidate(data) => l.state != ToInvalid
  }

  predicate NoneStale(ways: seq<Line>) {
    forall i :: 0 <= i < |ways| ==> !Stale(ways[i])
  }

  /** A fill takes over a line that holds a question. */
  predicate Clobbers(ways: seq<Line>, tag: nat, m: Message)
    requires |ways| > 0
  {
    var i := Find(ways, tag, false);
    && m.Fill?
    && if i < |ways| then ways[i].pending != Nothing && !(m.kind != WriteFill && ways[i].state == Modified)
       else ways[0].pending != Nothing && ways[0].state == Modified
  }

  /** What a change does to the question that its line holds: it stays with the line, or is answered. */
  ghost predicate KeepsQuestion(l: Line, c: Change) {
    c.Change? && l.pending != Nothing ==>
      || (c.line.pending == l.pending && c.line.tag == l.tag && c.line.state != Invalid)
      || Dir(Answer(l.pending)) in c.out
  }

  lemma RepliesStale(l: Line, m: Message)
    requires LineOk(l) && !Stale(l) && l.state != Invalid && !m.Read? && !m.Write? && !m.Fill? && OnLine(l, m).Change?
    ensures !Stale(OnLine(l, m).line) && KeepsQuestion(l, OnLine(l, m)) && !Overwrites(l, m)
  {
  }

  lemma FillsStale(l: Line, m: Message)
    requires LineOk(l) && !Stale(l) && l.state != Invalid && m.Fill?
    ensures var c := FillLine(l, m.kind, m.x, m.demand);
      && c.Change?
      && (Stale(c.line) <==> l.pending != Nothing && !(m.kind != WriteFill && l.state == Modified))
      && (!Stale(c.line) ==> KeepsQuestion(l, c))
  {
    hide FillAnswer, Evictions;
  }

  lemma VictimStale(l: Line, tag: nat, m: Message)
    requires LineOk(l) && !Stale(l) && m.Fill?
    ensures var c := FillVictim(l, tag, m.kind, m.x, m.demand);
      && c.Change?
      && (Stale(c.line) <==> l.pending != Nothing && l.state == Modified)
      && (!Stale(c.line) ==> KeepsQuestion(l, c))
  {
    hide FillAnswer, Evictions;
  }

  lemma RequestsStale(l: Line, x: nat, miss: set<Output>)
    requires LineOk(l) && !Stale(l) && l.state != Invalid
    ensures ReadLine(l, x).Change? && !Stale(ReadLine(l, x).line) && KeepsQuestion(l, ReadLine(l, x))
    ensures WriteLine(l, x, miss).Change? && !Stale(WriteLine(l, x, miss).line) && KeepsQuestion(l, WriteLine(l, x, miss))
  {
    ReadLineOk(l, x);
    WriteLineOk(l, x, miss);
  }

  /** The change that a message makes to a way of the set, if it makes any. */
  ghost function TargetChange(alwaysHit: bool, ways: seq<Line>, tag: nat, m: Message): (r: (nat, Change))
    requires |ways| > 0
    ensures r.0 < |ways|
  {
    var i, j := Find(ways, tag, true), Find(ways, tag, false);
    if m.Read? || m.Write? then
      if i == |ways| || (m.Read? && !m.demand) then (0, Change(ways[0], false, {}))
      else if m.Write? then (i, WriteLine(ways[i], m.x, Missed(alwaysHit, m.x, true, true)))
      else (i, ReadLine(ways[i], m.x))
    else if j < |ways| then (j, OnLine(ways[j], m))
    else if m.Fill? then (0, FillVictim(ways[0], tag, m.kind, m.x, m.demand))
    else (0, Change(ways[0], false, {}))
  }

  lemma StepIsChange(alwaysHit: bool, ways: seq<Line>, tag: nat, m: Message)
    requires |ways| > 0 && Step(alwaysHit, ways, tag, m).Next?
    ensures var (i, c) := TargetChange(alwaysHit, ways, tag, m);
      && c.Change? && Step(alwaysHit, ways, tag, m).ways == Apply(ways, i, c).ways
      && c.out <= Step(alwaysHit, ways, tag, m).out
  {
    hide ReadLine, WriteLine, OnLine, FillVictim;
    assert ways[0 := ways[0]] == ways;
  }

  lemma TargetStale(alwaysHit: bool, ways: seq<Line>, tag: nat, m: Message)
    requires SetOk(ways) && NoneStale(ways) && Step(alwaysHit, ways, tag, m).Next?
    ensures var (i, c) := TargetChange(alwaysHit, ways, tag, m);
      && c.Change? && (Stale(c.line) <==> Clobbers(ways, tag, m)) && (!Stale(c.line) ==> KeepsQuestion(ways[i], c))
    ensures !Loses(ways, tag, m)
  {
    StepIsChange(alwaysHit, ways, tag, m);
    var i, j := Find(ways, tag, true), Find(ways, tag, false);
    hide ReadLine, WriteLine, FillVictim, FillLine, LineOk, YieldLine, EvictLineOf, DirReadLine, DirShareLine, DirInvalidateLine, UpgradeLine;
    if (m.Read? || m.Write?) && i < |ways| {
      RequestsStale(ways[i], m.x, Missed(alwaysHit, m.x, true, true));
    } else if !m.Read? && !m.Write? && j < |ways| {
      if m.Fill? { FillsStale(ways[j], m); } else { RepliesStale(ways[j], m); }
    } else if m.Fill? {
      VictimStale(ways[0], tag, m);
    }
  }

  /** Questions stay with the lines that wait for a first-level cache, unless a fill takes over such a line;
      and each one stays with its line until a step sends its answer. */
  lemma HeldUntilAnswered(alwaysHit: bool, ways: seq<Line>, tag: nat, m: Message)
    requires SetOk(ways) && NoneStale(ways) && Step(alwaysHit, ways, tag, m).Next?
    ensures var o := Step(alwaysHit, ways, tag, m);
      && (NoneStale(o.ways) <==> !Clobbers(ways, tag, m)) && !Loses(ways, tag, m)
      && (!Clobbers(ways, tag, m) ==>
            forall l :: l in ways && l.pending != Nothing ==> Dir(Answer(l.pending)) in o.out || HeldIn(o.ways, l))
  {
    var o := Step(alwaysHit, ways, tag, m);
    TargetStale(alwaysHit, ways, tag, m);
    StepIsChange(alwaysHit, ways, tag, m);
    var (i, c) := TargetChange(alwaysHit, ways, tag, m);
    hide Step, TargetChange, Stale, Clobbers, SetOk;
    OnlyTarget(ways, i, c);
    ApplyMembers(ways, i, c);
    hide Apply;
    forall l | !Clobbers(ways, tag, m) && l in ways && l.pending != Nothing ensures Dir(Answer(l.pending)) in o.out || HeldIn(o.ways, l) {
      var j :| 0 <= j < |ways| && ways[j] == l;
      if j == i { assert KeepsQuestion(l, c); } else { Unstale(ways, j); }
    }
  }

  /** Some valid line of the set has the tag and holds the question of l. */
  ghost predicate HeldIn(ways: seq<Line>, l: Line) {
    exists k :: k in ways && k.tag == l.tag && k.pending == l.pending && k.state != Invalid
  }

  lemma Unstale(ways: seq<Line>, j: nat)
    requires NoneStale(ways) && j < |ways| && ways[j].pending != Nothing
    ensures ways[j].state != Invalid
  {
  }

  lemma OnlyTarget(ways: seq<Line>, i: nat, c: Change)
    requires NoneStale(ways) && i < |ways| && c.Change?
    ensures NoneStale(Apply(ways, i, c).ways) <==> !Stale(c.line)
  {
    ApplyMembers(ways, i, c);
    hide Stale;
    var r := Apply(ways, i, c).ways;
    assert forall k :: 0 <= k < |r| ==> r[k] == c.line || r[k] in ways;
  }

  // ---------------------------------------------------------------- runs

  /** No fill of the run takes over a line that holds a question. */
  ghost predicate Careful(alwaysHit: bool, ways: seq<Line>, ms: seq<(nat, Message)>)
    decreases |ms|
  {
    ms != [] && |ways| > 0 ==>
      && !Clobbers(ways, ms[0].0, ms[0].1)
      && var o := Step(alwaysHit, ways, ms[0].0, ms[0].1); (o.Next? ==> Careful(alwaysHit, o.ways, ms[1..]))
  }

  function Asked(ms: seq<(nat, Message)>, a: Ask): nat {
    if ms == [] then 0 else One(Asks(ms[0].1, a)) + Asked(ms[1..], a)
  }

  /** How many answers a run sends. */
  ghost function Answered(alwaysHit: bool, ways: seq<Line>, ms: seq<(nat, Message)>, a: Ask): nat
    decreases |ms|
  {
    if ms == [] || ways == [] then 0
    else
      var o := Step(alwaysHit, ways, ms[0].0, ms[0].1);
      if o.Next? then |Replies(o.out, a)| + Answered(alwaysHit, o.ways, ms[1..], a) else 0
  }

  /** In every run in which no fill takes over a line that holds a question, each question of the directory
      has been answered exactly once by a message of its kind, or is held by a line for which a
      first-level cache has been asked. */
  lemma {:induction false} EveryAskAnswered(alwaysHit: bool, ways: seq<Line>, ms: seq<(nat, Message)>, ways': seq<Line>, a: Ask)
    requires SetOk(ways) && NoneStale(ways) && Run(alwaysHit, ways, ms, ways') && Careful(alwaysHit, ways, ms)
    ensures NoneStale(ways') && Held(ways', a) + Answered(alwaysHit, ways, ms, a) == Held(ways, a) + Asked(ms, a)
    decreases |ms|
  {
    if ms != [] {
      var tag, m := ms[0].0, ms[0].1;
      HeldUntilAnswered(alwaysHit, ways, tag, m);
      CacheSet.StepOk(alwaysHit, ways, tag, m);
      NotLost(alwaysHit, ways, tag, m, a);
      hide Step, SetOk, NoneStale, Held, Replies, Clobbers;
      EveryAskAnswered(alwaysHit, Step(alwaysHit, ways, tag, m).ways, ms[1..], ways', a);
    }
  }
}
