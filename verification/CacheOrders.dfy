/** Exactly which orders and refusals the first-level caches get. */
module CacheOrders {
  import opened CacheSet
  import opened CacheAnswers

  /** The line is on its way between caches and can serve nobody. */
  predicate Busy(l: Line) {
    || l.state == ToShared || l.state == ToModified || l.state == ToInvalid
    || l.l1 == ToShared || l.l1 == ToModified || l.l1 == ToInvalid
  }

  /** One first-level cache has the line modified. */
  predicate OwnedBelow(l: Line) {
    l.state == Modified && l.l1 == Modified
  }

  /** The message for line l is refused: a request while the line is busy, an upgrade that comes too late, and a
      line given up too late, because the directory has taken it or only leaves it to be read. */
  predicate Refuses(l: Line, m: Message) {
    match m
    case Read(x, demand) => demand && Busy(l)
    case Write(x) => Busy(l)
    case UpgradeGranted(x) => l.state != ToModified
    case Yielded(x, read) => if l.state == ToInvalid then l.l1 != ToInvalid else !read && l.pending != Nothing
    case Refused(x, demand) => demand
    case _ => false
  }

  /** Cache y is told to drop line l. */
  predicate Drops(l: Line, m: Message, y: nat) {
    match m
    case Write(x) =>
      && y in l.sharers && y != x
      && (l.state == Exclusive || l.state == Shared || (l.state == Modified && (l.l1 == Exclusive || l.l1 == Shared)))
    case UpgradeGranted(x) => l.state == ToModified && y in l.sharers && y != x
    case Fill(kind, x, demand) => kind == WriteFill && y in l.sharers && y != x
    case Yielded(x, read) => l.state == ToInvalid && l.l1 == ToShared && (y in l.sharers || y == x)
    case DirInvalidate(data) => y in l.sharers && !OwnedBelow(l)
    case _ => false
  }

  /** Cache y owns line l and is asked for it: to share it with a reader, to give it to a writer or to the
      directory, or to send it back for a read of the directory. */
  predicate AskedFor(l: Line, m: Message, y: nat, order: ToL1) {
    && OwnedBelow(l) && l.sharers == {y}
    && match order
       case YieldShared => m.Read? && m.demand && m.x != y
       case YieldModified => (m.Write? && m.x != y) || m.DirInvalidate?
       case GiveBack => m.DirRead?
       case _ => false
  }

  function Waiter(m: Message): nat {
    match m
    case Read(x, demand) => x
    case Write(x) => x
    case UpgradeGranted(x) => x
    case Fill(kind, x, demand) => x
    case Yielded(x, read) => x
    case L1Evict(x, data) => x
    case Refused(x, demand) => x
    case _ => 0
  }

  lemma EvictionsAre(s: set<nat>, o: Output)
    ensures o in Evictions(s) <==> o.L1? && o.order == EvictLine && o.x in s
  {
  }

  lemma SoleOwner(l: Line, y: nat)
    requires |l.sharers| == 1
    ensures l.sharers == {y} <==> y == Only(l.sharers)
    ensures y in l.sharers <==> y == Only(l.sharers)
  {
    var o := Only(l.sharers);
    SingleOf(l.sharers, o);
  }

  /** The outputs hold exactly these orders for cache y, and refuse exactly this message. */
  predicate OrdersAt(l: Line, m: Message, out: set<Output>, y: nat) {
    && (L1(y, Nack) in out <==> Refuses(l, m) && y == Waiter(m))
    && (L1(y, EvictLine) in out <==> Drops(l, m, y))
    && (L1(y, YieldShared) in out <==> AskedFor(l, m, y, YieldShared))
    && (L1(y, YieldModified) in out <==> AskedFor(l, m, y, YieldModified))
    && (L1(y, GiveBack) in out <==> AskedFor(l, m, y, GiveBack))
  }

  lemma ReadOrders(l: Line, x: nat, y: nat)
    requires LineOk(l) && l.state != Invalid
    ensures ReadLine(l, x).Change? && OrdersAt(l, Read(x, true), ReadLine(l, x).out, y)
  {
    ReadLineOk(l, x);
    if |l.sharers| == 1 { SoleOwner(l, y); SoleOwner(l, x); }
  }

  lemma WriteOrders(l: Line, x: nat, miss: set<Output>, y: nat)
    requires LineOk(l) && l.state != Invalid && forall o :: o in miss ==> o.Dir? || o.order == WriteData
    ensures WriteLine(l, x, miss).Change? && OrdersAt(l, Write(x), WriteLine(l, x, miss).out, y)
  {
    WriteLineOk(l, x, miss);
    if |l.sharers| == 1 { SoleOwner(l, y); SoleOwner(l, x); }
    EvictionsAre(l.sharers - {x}, L1(y, EvictLine));
    EvictionsAre(l.sharers - {x}, L1(y, Nack));
    EvictionsAre(l.sharers - {x}, L1(y, YieldShared));
    EvictionsAre(l.sharers - {x}, L1(y, YieldModified));
    EvictionsAre(l.sharers - {x}, L1(y, GiveBack));
    hide Evictions;
  }

  lemma ReplyOrders(l: Line, m: Message, y: nat)
    requires LineOk(l) && l.state != Invalid && !m.Read? && !m.Write? && OnLine(l, m).Change?
    ensures OrdersAt(l, m, OnLine(l, m).out, y)
  {
    hide OrdersAt, LineOk, UpgradeLine, FillLine, YieldLine, EvictLineOf, DirReadLine, DirShareLine, DirInvalidateLine;
    match m
    case UpgradeGranted(x) => UpgradeOrders(l, x, y);
    case Fill(kind, x, demand) => FillOrders(l, kind, x, demand, y);
    case Yielded(x, read) => YieldOrders(l, x, read, y);
    case L1Evict(x, data) => EvictOut(l, x); QuietOrders(l, m, EvictLineOf(l, x).out, y);
    case DirRead => DirReadOrders(l, y);
    case DirShare(exclusive) => ShareOut(l); QuietOrders(l, m, DirShareLine(l).out, y);
    case DirInvalidate(data) => DirInvalidateOrders(l, data, y);
    case Refused(x, demand) => RefusedOrders(l, x, demand, y);
    case Nop => QuietOrders(l, m, {}, y);
  }

  lemma EvictOut(l: Line, x: nat)
    ensures forall o :: o in EvictLineOf(l, x).out ==> o.Dir?
  {
  }

  lemma ShareOut(l: Line)
    requires DirShareLine(l).Change?
    ensures forall o :: o in DirShareLine(l).out ==> o.Dir?
  {
  }

  lemma QuietOrders(l: Line, m: Message, out: set<Output>, y: nat)
    requires (m.L1Evict? || m.DirShare? || m.Nop?) && forall o :: o in out ==> o.Dir?
    ensures OrdersAt(l, m, out, y)
  {
  }

  lemma RefusedOrders(l: Line, x: nat, demand: bool, y: nat)
    ensures OrdersAt(l, Refused(x, demand), if demand then {L1(x, Nack)} else {}, y)
  {
  }

  lemma UpgradeOrders(l: Line, x: nat, y: nat)
    ensures OrdersAt(l, UpgradeGranted(x), UpgradeLine(l, x).out, y)
  {
  }

  lemma FillOrders(l: Line, kind: FillKind, x: nat, demand: bool, y: nat)
    ensures OrdersAt(l, Fill(kind, x, demand), FillLine(l, kind, x, demand).out, y)
  {
  }

  lemma TakenOrders(l: Line, x: nat, read: bool, y: nat)
    requires LineOk(l) && l.state == ToInvalid
    ensures YieldLine(l, x, read).Change? && OrdersAt(l, Yielded(x, read), YieldLine(l, x, read).out, y)
  {
    EvictionsAre(l.sharers + {x}, L1(y, EvictLine));
    EvictionsAre(l.sharers + {x}, L1(y, Nack));
    EvictionsAre(l.sharers + {x}, L1(y, YieldShared));
    EvictionsAre(l.sharers + {x}, L1(y, YieldModified));
    EvictionsAre(l.sharers + {x}, L1(y, GiveBack));
    hide Evictions;
  }

  lemma GivenOrders(l: Line, x: nat, read: bool, y: nat)
    requires LineOk(l) && l.state != ToInvalid && YieldLine(l, x, read).Change?
    ensures OrdersAt(l, Yielded(x, read), YieldLine(l, x, read).out, y)
  {
    hide Evictions, LineOk;
  }

  lemma YieldOrders(l: Line, x: nat, read: bool, y: nat)
    requires LineOk(l) && YieldLine(l, x, read).Change?
    ensures OrdersAt(l, Yielded(x, read), YieldLine(l, x, read).out, y)
  {
    hide YieldLine, OrdersAt, LineOk;
    if l.state == ToInvalid { TakenOrders(l, x, read, y); } else { GivenOrders(l, x, read, y); }
  }

  lemma DirReadOrders(l: Line, y: nat)
    requires LineOk(l) && DirReadLine(l).Change?
    ensures OrdersAt(l, DirRead, DirReadLine(l).out, y)
  {
    if |l.sharers| == 1 { SoleOwner(l, y); }
  }

  lemma DirInvalidateOrders(l: Line, data: bool, y: nat)
    requires LineOk(l) && DirInvalidateLine(l, data).Change?
    ensures OrdersAt(l, DirInvalidate(data), DirInvalidateLine(l, data).out, y)
  {
    if |l.sharers| == 1 { SoleOwner(l, y); }
  }

  // ---------------------------------------------------------------- the whole set

  /** What is ordered when the line is not in the set: a fill tells the sharers of the line it displaces, or is
      refused when that is in transit; an upgrade and a refused request are passed on as refused. */
  predicate AbsentOrders(l: Line, m: Message, out: set<Output>, y: nat) {
    var transit := l.state != Invalid && !Stable(l);
    && (L1(y, Nack) in out <==> y == Waiter(m) && (m.UpgradeGranted? || (m.Refused? && m.demand) || (m.Fill? && m.demand && transit)))
    && (L1(y, EvictLine) in out <==> m.Fill? && l.state != Invalid && !transit && y in l.sharers)
    && L1(y, YieldShared) !in out && L1(y, YieldModified) !in out && L1(y, GiveBack) !in out
  }

  lemma VictimOrders(l: Line, tag: nat, m: Message, y: nat)
    requires LineOk(l) && m.Fill?
    ensures FillVictim(l, tag, m.kind, m.x, m.demand).Change?
    ensures AbsentOrders(l, m, FillVictim(l, tag, m.kind, m.x, m.demand).out, y)
  {
    EvictionsAre(l.sharers, L1(y, EvictLine));
    EvictionsAre(l.sharers, L1(y, Nack));
    EvictionsAre(l.sharers, L1(y, YieldShared));
    EvictionsAre(l.sharers, L1(y, YieldModified));
    EvictionsAre(l.sharers, L1(y, GiveBack));
    hide Evictions;
  }

  lemma MissOrders(alwaysHit: bool, x: nat, write: bool, demand: bool, l: Line, m: Message, y: nat)
    requires m.Read? || m.Write?
    ensures AbsentOrders(l, m, Missed(alwaysHit, x, write, demand), y)
    ensures forall o :: o in Missed(alwaysHit, x, write, demand) ==> o.Dir? || o.order == ReadData || o.order == WriteData
    ensures write ==> forall o :: o in Missed(alwaysHit, x, write, demand) ==> o.Dir? || o.order == WriteData
  {
  }

  lemma OtherAbsent(alwaysHit: bool, l: Line, m: Message, y: nat)
    requires !m.Read? && !m.Write? && !m.Fill? && !m.Yielded?
    ensures AbsentOrders(l, m, AbsentAnswer(alwaysHit, m), y)
  {
  }

  lemma PrefetchQuiet(l: Line, m: Message, y: nat)
    requires m.Read? && !m.demand
    ensures OrdersAt(l, m, {}, y)
  {
  }

  lemma DemandIs(m: Message)
    ensures m.Read? && m.demand ==> m == Read(m.x, true)
    ensures m.Write? ==> m == Write(m.x)
  {
  }

  /** Requests see the same lines as replies: none waits to become exclusive. */
  lemma {:induction false} SameFind(ways: seq<Line>, tag: nat)
    requires forall i :: 0 <= i < |ways| ==> LineOk(ways[i])
    ensures Find(ways, tag, true) == Find(ways, tag, false)
  {
    if ways != [] {
      assert LineOk(ways[0]);
      SameFind(ways[1..], tag);
    }
  }

  /** In every consistent set: which cache is refused, told to drop the line, or asked for it. */
  lemma OrdersExactly(alwaysHit: bool, ways: seq<Line>, tag: nat, m: Message, y: nat)
    requires SetOk(ways) && Step(alwaysHit, ways, tag, m).Next?
    ensures var i, out := Find(ways, tag, false), Step(alwaysHit, ways, tag, m).out;
      if i < |ways| then OrdersAt(ways[i], m, out, y) else AbsentOrders(ways[0], m, out, y)
  {
    var i := Find(ways, tag, false);
    SameFind(ways, tag);
    DemandIs(m);
    hide OrdersAt, AbsentOrders, LineOk, OnLine, ReadLine, WriteLine, FillVictim, Missed;
    if m.Read? || m.Write? {
      MissOrders(alwaysHit, m.x, m.Write?, m.Write? || m.demand, ways[0], m, y);
      if i < |ways| {
        MissOrders(alwaysHit, m.x, true, true, ways[0], m, y);
        ReadOrders(ways[i], m.x, y);
        WriteOrders(ways[i], m.x, Missed(alwaysHit, m.x, true, true), y);
        if m.Read? && !m.demand { PrefetchQuiet(ways[i], m, y); }
      }
    } else if i < |ways| {
      ReplyOrders(ways[i], m, y);
    } else if m.Fill? {
      VictimOrders(ways[0], tag, m, y);
    } else {
      OtherAbsent(alwaysHit, ways[0], m, y);
    }
  }
}
