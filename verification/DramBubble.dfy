/** How long the shared data bus stays idle between a burst of one direction and a later burst of the
    other, exactly: slots that are over are forgotten, so a bubble can get lost when it is looked for. */
module DramBubble {
  import opened Dram
  import opened DramTiming
  import opened DramBus
  import opened DramDrain
  import opened Arithmetic

  /** Write then read when `wr`, otherwise read then write. */
  predicate Turns(x: Cmd, y: Cmd, wr: bool) {
    if wr then Writes(x) && Reads(y) else Reads(x) && Writes(y)
  }

  function Width(c: Config, wr: bool): nat {
    if wr then c.tWRBUB else c.tRWBUB
  }

  /** The bubble that is configured for this direction separates every two bursts of a history. */
  ghost predicate Kept(c: Config, log: seq<Cmd>, wr: bool) {
    forall i, j :: 0 <= i < j < |log| && Turns(log[i], log[j], wr)
      ==> BurstEnd(c, log[i].t) + Ticks(c, Width(c, wr)) <= BurstStart(c, log[j].t)
  }

  ghost predicate AlwaysKept(c: Config, s: Mc, wr: bool)
    requires ValidConfig(c) && Shape(s)
  {
    forall inputs :: ValidInputs(c, s, inputs) ==> Kept(c, Run(c, s, inputs).log, wr)
  }

  /** A machine with one shared data bus and a thread, before its first call. */
  ghost predicate Fresh(c: Config, s: Mc) {
    ValidConfig(c) && Initial(c, s) && Shape(s) && |s.cnt| > 0 && !c.fullDuplex && c.tBL > 0
  }

  // ---------------------------------------------------------------- what is always kept

  lemma TicksMonotone(c: Config, a: nat, b: nat)
    requires c.pi > 0 && a <= b
    ensures Ticks(c, a) <= Ticks(c, b)
  {
    if a < b { MulLess(a, b, c.pi); }
  }

  lemma TicksAdd(c: Config, a: nat, b: nat)
    ensures Ticks(c, a + b) == Ticks(c, a) + Ticks(c, b)
  {
  }

  /** A bubble no longer than tCL is kept: the slots that matter are still remembered. */
  lemma ShortKept(c: Config, s: Mc, wr: bool)
    requires Fresh(c, s) && Width(c, wr) <= c.tCL
    ensures AlwaysKept(c, s, wr)
  {
    forall inputs | ValidInputs(c, s, inputs) ensures Kept(c, Run(c, s, inputs).log, wr) {
      DataBusSafe(c, s, inputs);
      var log := Run(c, s, inputs).log;
      forall i, j | 0 <= i < j < |log| && Turns(log[i], log[j], wr)
        ensures BurstEnd(c, log[i].t) + Ticks(c, Width(c, wr)) <= BurstStart(c, log[j].t)
      {
        assert BusPair(c, log[i], log[j]);
      }
    }
  }

  ghost predicate OneRank(s: Mc) {
    forall a, b :: a in s.banks && b in s.banks ==> a.rank == b.rank
  }

  lemma RunBanks(c: Config, s: Mc, inputs: seq<Input>, i: nat)
    requires Fresh(c, s) && ValidInputs(c, s, inputs) && i < |Run(c, s, inputs).log|
    ensures Run(c, s, inputs).log[i].bk in s.banks
  {
    RunTiming(c, s, inputs);
  }

  /** With one rank the command itself waits for the end of the opposite burst. */
  lemma SameRankKept(c: Config, x: Cmd, y: Cmd, wr: bool)
    requires ValidConfig(c) && !c.fullDuplex && c.tBL > 0 && Turns(x, y, wr) && BusPair(c, x, y) && x.bk.rank == y.bk.rank
    requires wr ==> c.tWRBUB <= c.tCL + c.tWTR
    ensures BurstEnd(c, x.t) + Ticks(c, Width(c, wr)) <= BurstStart(c, y.t)
  {
    if wr {
      TicksMonotone(c, c.tWRBUB, c.tCL + c.tWTR);
      TicksAdd(c, c.tCL, c.tWTR);
    }
    assert Ticks(c, c.tCL) >= 0;
  }

  lemma OneRankKept(c: Config, s: Mc, wr: bool)
    requires Fresh(c, s) && OneRank(s) && (wr ==> c.tWRBUB <= c.tCL + c.tWTR)
    ensures AlwaysKept(c, s, wr)
  {
    forall inputs | ValidInputs(c, s, inputs) ensures Kept(c, Run(c, s, inputs).log, wr) {
      DataBusSafe(c, s, inputs);
      var log := Run(c, s, inputs).log;
      forall i, j | 0 <= i < j < |log| && Turns(log[i], log[j], wr)
        ensures BurstEnd(c, log[i].t) + Ticks(c, Width(c, wr)) <= BurstStart(c, log[j].t)
      {
        RunBanks(c, s, inputs, i);
        RunBanks(c, s, inputs, j);
        SameRankKept(c, log[i], log[j], wr);
      }
    }
  }

  /** With one bank two column commands are also tBBL apart. */
  lemma OneBankKept(c: Config, s: Mc)
    requires Fresh(c, s) && |s.banks| == 1 && c.tBL + c.tWRBUB <= c.tBBL
    ensures AlwaysKept(c, s, true)
  {
    forall inputs | ValidInputs(c, s, inputs) ensures Kept(c, Run(c, s, inputs).log, true) {
      BankTimingSafe(c, s, inputs);
      var log := Run(c, s, inputs).log;
      forall i, j | 0 <= i < j < |log| && Turns(log[i], log[j], true)
        ensures BurstEnd(c, log[i].t) + Ticks(c, c.tWRBUB) <= BurstStart(c, log[j].t)
      {
        RunBanks(c, s, inputs, i);
        RunBanks(c, s, inputs, j);
        OneElement(s.banks.Keys, log[i].bk, log[j].bk);
        assert PairLegal(c, log[i], log[j]);
        hide *;
        ColumnsApart(c, log[i], log[j]);
      }
    }
  }

  lemma ColumnsApart(c: Config, x: Cmd, y: Cmd)
    requires c.pi > 0 && c.tBL + c.tWRBUB <= c.tBBL && Turns(x, y, true) && x.bk == y.bk && PairLegal(c, x, y)
    ensures BurstEnd(c, x.t) + Ticks(c, c.tWRBUB) <= BurstStart(c, y.t)
  {
    TicksMonotone(c, c.tBL + c.tWRBUB, c.tBBL);
    TicksAdd(c, c.tBL, c.tWRBUB);
    TicksAdd(c, c.tCL, c.tBL);
    hide Ticks;
  }

  lemma OneElement<T>(s: set<T>, a: T, b: T)
    requires |s| == 1 && a in s && b in s
    ensures a == b
  {
    assert |s - {a}| == 0;
  }

  // ---------------------------------------------------------------- single calls

  ghost predicate OneThread(q: seq<Req>) {
    forall j :: 0 <= j < |q| ==> q[j].th == 0
  }

  /** Requests of one thread: the oldest is served if it can be, and it is a row hit or nobody is. */
  lemma ServesFirst(c: Config, s: Mc, t: int)
    requires Shape(s) && s.req != [] && OneThread(s.req) && Issuable(c, s, 0, t)
    requires HitOk(c, s, 0, t) || forall j: nat :: 0 < j < |s.req| ==> !HitOk(c, s, j, t)
    ensures Schedule(c, s, t) == Issue(c, s, t, 0)
  {
    assert IsSelected(c, s, t, 0);
    SelectedUnique(c, s, t, Selected(c, s, t), 0);
  }

  /** The second request is served when the first cannot be. */
  lemma ServesSecond(c: Config, s: Mc, t: int)
    requires Shape(s) && |s.req| == 2 && !Issuable(c, s, 0, t) && Issuable(c, s, 1, t)
    ensures Schedule(c, s, t) == Issue(c, s, t, 1)
  {
    assert IsSelected(c, s, t, 1);
    SelectedUnique(c, s, t, Selected(c, s, t), 1);
  }

  lemma StepStamps(c: Config, s: Mc, now: int, t: int, arrivals: seq<Req>)
    requires ValidConfig(c) && Shape(s) && WfArrivals(s, arrivals) && Stamps(c, s, now) && now <= t
    ensures Stamps(c, Step(c, s, t, arrivals).0, t)
  {
    var s1 := Ready(c, s, t, arrivals);
    ReadyShape(c, s, t, arrivals);
    ReadyStamps(c, s, now, t, arrivals);
    StampsLater(c, s1, now, t);
    var i := Selected(c, s1, t);
    if i >= 0 { IssueStamps(c, s1, t, i); }
  }

  /** Some run ends in this state with this history, its last call no later than `now`. */
  ghost predicate Reached(c: Config, s: Mc, tr: Trace, now: int)
    requires ValidConfig(c) && Shape(s)
  {
    exists inputs :: ValidInputs(c, s, inputs) && LastTime(inputs) <= now && Run(c, s, inputs) == tr
  }

  lemma Extend(c: Config, s: Mc, tr: Trace, now: int, t: int, arrivals: seq<Req>)
    requires ValidConfig(c) && Shape(s) && Reached(c, s, tr, now)
    requires 0 <= t && now <= t && t % c.pi == 0 && WfArrivals(s, arrivals)
    ensures Shape(tr.s) && WfArrivals(tr.s, arrivals)
    ensures var (s', cmds) := Step(c, tr.s, t, arrivals); Shape(s') && Reached(c, s, Trace(s', tr.log + cmds), t)
  {
    var inputs :| ValidInputs(c, s, inputs) && LastTime(inputs) <= now && Run(c, s, inputs) == tr;
    var more := inputs + [Input(t, arrivals)];
    assert more[..|more| - 1] == inputs;
    StepShape(c, tr.s, t, arrivals);
    OneMore(c, s, inputs, Input(t, arrivals));
    hide *;
    RunMore(c, s, inputs, Input(t, arrivals));
  }

  lemma OneMore(c: Config, s: Mc, inputs: seq<Input>, input: Input)
    requires ValidConfig(c) && ValidInputs(c, s, inputs) && WfArrivals(s, input.arrivals)
    requires 0 <= input.t && LastTime(inputs) <= input.t && input.t % c.pi == 0
    ensures ValidInputs(c, s, inputs + [input]) && LastTime(inputs + [input]) == input.t
  {
    hide WfArrivals;
    if inputs != [] {
      forall k | 0 <= k < |inputs| ensures inputs[k].t <= input.t {
        assert k < |inputs| - 1 ==> inputs[k].t <= inputs[|inputs| - 1].t;
      }
    }
  }

  lemma RunMore(c: Config, s: Mc, inputs: seq<Input>, input: Input)
    requires ValidConfig(c) && Shape(s) && ValidInputs(c, s, inputs) && ValidInputs(c, s, inputs + [input])
    requires WfArrivals(Run(c, s, inputs).s, input.arrivals)
    ensures Run(c, s, inputs + [input]) == StepTrace(c, Run(c, s, inputs), input)
  {
    assert (inputs + [input])[..|inputs|] == inputs;
    hide StepTrace, ValidInputs, Shape, WfArrivals;
  }

  /** A reached history without the bubble refutes AlwaysKept. */
  lemma Refuted(c: Config, s: Mc, tr: Trace, now: int, wr: bool, i: nat, j: nat)
    requires ValidConfig(c) && Shape(s) && Reached(c, s, tr, now)
    requires i < j < |tr.log| && Turns(tr.log[i], tr.log[j], wr)
    requires BurstEnd(c, tr.log[i].t) + Ticks(c, Width(c, wr)) > BurstStart(c, tr.log[j].t)
    ensures !AlwaysKept(c, s, wr)
  {
  }

  // ---------------------------------------------------------------- the turn

  /** After the column command of the first request at time u, the opposite burst of y may follow as
      soon as every slot of the first is forgotten, and within a rank tWTR later. */
  lemma BusTurns(c: Config, s: Mc, u: int, y: Req, t: int)
    requires ValidConfig(c) && Shape(s) && s.req != [] && WfReq(s, y) && Stamps(c, s, u)
    requires BusAllows(c, s, y, u) && IsRead(s.req[0].typ) != IsRead(y.typ)
    requires t >= u + Ticks(c, c.tCL + c.tBL)
    requires s.req[0].bk.rank == y.bk.rank ==> IsRead(y.typ) && t >= u + Ticks(c, c.tCL + c.tBL) + Ticks(c, c.tWTR)
    ensures var s' := IssueCol(c, s, u, 0); Shape(s') ==> WfReq(s', y) && BusAllows(c, Prune(s', t), y, t)
  {
    var s' := IssueCol(c, s, u, 0);
    ColStamps(c, s, u, 0);
    var s2 := Prune(s', t);
    assert s2.dp == map[] && s2.rdDp == map[] && s2.wrDp == map[];
  }

  // ---------------------------------------------------------------- a run that turns as early as it can

  predicate RowOpen(s: Mc, bk: BankId) {
    bk in s.banks && IsOpen(s.banks[bk]) && s.banks[bk].page == 0
  }

  const NoBank := Bank(0, 0, Idle, 0)

  /** Two requests for row 0 of one bank. */
  predicate Pair(a: Req, b: Req) {
    a.bk == b.bk && a.page == b.page == 0 && a.th == b.th == 0
  }

  /** The row of the first two requests is opened. */
  lemma OpensRow(c: Config, s: Mc, t: int, a: Req, b: Req)
    requires Fresh(c, s) && Pair(a, b) && a.bk in s.banks && t == Ticks(c, Wait(c))
    ensures WfArrivals(s, [a, b])
    ensures var (s', cmds) := Step(c, s, t, [a, b]);
      && Shape(s') && s'.req == [a, b] && RowOpen(s', a.bk) && Stamps(c, s', t) && cmds == [Act(t, a.bk, 0)]
      && (forall bk :: bk in s.banks && bk != a.bk ==> bk in s'.banks && s'.banks[bk] == NoBank)
  {
    InitialStamps(c, s);
    TicksMonotone(c, 0, Wait(c));
    StepShape(c, s, t, [a, b]);
    StepStamps(c, s, 0, t, [a, b]);
    CanOpen(c, s, t, a, b);
    hide Wait, Ticks, Stamps, Ready, Issuable, HitOk, RowOk, BankReady;
    ServesFirst(c, Ready(c, s, t, [a, b]), t);
  }

  lemma CanOpen(c: Config, s: Mc, t: int, a: Req, b: Req)
    requires Fresh(c, s) && Pair(a, b) && a.bk in s.banks && t == Ticks(c, Wait(c))
    ensures WfArrivals(s, [a, b])
    ensures var s1 := Ready(c, s, t, [a, b]);
      && Shape(s1) && s1.req == [a, b] && s1.banks == s.banks && OneThread(s1.req)
      && Issuable(c, s1, 0, t) && !HitOk(c, s1, 0, t) && !HitOk(c, s1, 1, t)
  {
    var s1 := Ready(c, s, t, [a, b]);
    ReadyShape(c, s, t, [a, b]);
    assert s1.req == [a, b] && s1.banks == s.banks && s1.lastAct == s.lastAct;
    assert s1.req[0] == a && s1.req[1] == b && s1.banks[a.bk] == NoBank;
    InitialStamps(c, s);
    QuietBank(c, s, 0, t, a.bk);
    WaitExpands(c);
    hide Wait, Ticks, Stamps, BankReady, BusAllows, Ready;
  }

  lemma InitialStamps(c: Config, s: Mc)
    requires Fresh(c, s)
    ensures Stamps(c, s, 0)
  {
    InitialDrainInv(c, s);
  }

  /** The first of two requests for an open row is served, which leaves the row open for the second. */
  lemma ServesPair(c: Config, s: Mc, now: int, t: int, a: Req, b: Req)
    requires ValidConfig(c) && c.window >= 2 && Shape(s) && s.req == [a, b] && Pair(a, b)
    requires RowOpen(s, a.bk) && Stamps(c, s, now) && t >= now + Ticks(c, Wait(c))
    ensures WfArrivals(s, [])
    ensures var s1 := Ready(c, s, t, []);
      && Shape(s1) && Stamps(c, s1, t) && s1.req == [a, b] && WfReq(s1, a) && WfReq(s1, b) && BusAllows(c, s1, a, t) && BusAllows(c, s1, b, t)
      && Step(c, s, t, []).0 == IssueCol(c, s1, t, 0)
      && |Step(c, s, t, []).1| == 1 && Step(c, s, t, []).1[0].Col?
      && Step(c, s, t, []).1[0].r == a && Step(c, s, t, []).1[0].t == t
  {
    var s1 := QuietReady(c, s, now, t);
    assert s1.req[0] == a && s1.req[1] == b;
    QuietBank(c, s1, now, t, a.bk);
    QuietBus(c, s1, now, t, a);
    QuietBus(c, s1, now, t, b);
    hide Wait, Ticks, Stamps, BusAllows;
    ServesFirst(c, s1, t);
  }

  lemma QuietReady(c: Config, s: Mc, now: int, t: int) returns (s1: Mc)
    requires ValidConfig(c) && Shape(s) && Stamps(c, s, now) && t >= now + Ticks(c, Wait(c))
    ensures WfArrivals(s, []) && s1 == Ready(c, s, t, []) && s1 == Prune(s1, t)
    ensures Shape(s1) && Stamps(c, s1, now) && Stamps(c, s1, t) && s1.req == s.req && s1.banks == s.banks && s1.lastAct == s.lastAct
  {
    s1 := Ready(c, s, t, []);
    ReadyShape(c, s, t, []);
    ReadyStamps(c, s, now, t, []);
    assert Ticks(c, Wait(c)) >= 0;
    StampsLater(c, s1, now, t);
    PruneIdle(s1.dp, t);
  }

  lemma PruneIdle(m: map<int, Action>, t: int)
    ensures PruneMap(PruneMap(m, t), t) == PruneMap(m, t)
  {
  }

  lemma RemoveFirst(q: seq<Req>, a: Req, b: Req)
    requires q == [a, b]
    ensures RemoveAt(q, 0) == [b]
  {
  }

  /** What the column command of the first of two requests for one row leaves behind. */
  lemma AfterFirst(c: Config, s: Mc, now: int, t: int, a: Req, b: Req)
    requires ValidConfig(c) && c.window >= 2 && c.tBL > 0 && Shape(s) && s.req == [a, b] && Pair(a, b) && RowOpen(s, a.bk)
    requires Stamps(c, s, now) && Stamps(c, s, t) && t >= now + Ticks(c, Wait(c))
    ensures var s' := IssueCol(c, s, t, 0);
      && s'.req == [b] && RowOpen(s', a.bk) && Stamps(c, s', t) && BurstStart(c, t) in s'.dp
      && s'.banks[a.bk].actionTime == t
      && (forall bk :: bk in s.banks && bk != a.bk ==> bk in s'.banks && s'.banks[bk] == s.banks[bk])
      && (forall r :: 0 <= r < |s'.lastAct| ==> s'.lastAct[r] + Ticks(c, c.tRR) <= t)
  {
    WaitExpands(c);
    ColStamps(c, s, t, 0);
    RemoveFirst(s.req, a, b);
    assert WantsRow(s, 1, a.bk, 0) && KeepOpen(c, s, 0);
    assert Slot(c, t, 0) in SlotsUpTo(c, t, c.tBL);
    assert BurstStart(c, t) in Burst(c, t, ActionOf(a.typ));
    hide Ticks, KeepOpen, Burst;
  }

  /** The call that serves the first of two requests for one row. */
  lemma PairStep(c: Config, s: Mc, now: int, t: int, a: Req, b: Req)
    requires ValidConfig(c) && c.window >= 2 && c.tBL > 0 && Shape(s) && s.req == [a, b] && Pair(a, b) && RowOpen(s, a.bk)
    requires Stamps(c, s, now) && t >= now + Ticks(c, Wait(c))
    ensures WfArrivals(s, []) && Shape(Step(c, s, t, []).0)
    ensures var s' := Step(c, s, t, []).0;
      && s'.req == [b] && RowOpen(s', a.bk) && Stamps(c, s', t) && BurstStart(c, t) in s'.dp
      && s'.banks[a.bk].actionTime == t
      && (forall bk :: bk in s.banks && bk != a.bk ==> bk in s'.banks && s'.banks[bk] == s.banks[bk])
      && (forall r :: 0 <= r < |s'.lastAct| ==> s'.lastAct[r] + Ticks(c, c.tRR) <= t)
  {
    ServesPair(c, s, now, t, a, b);
    StepShape(c, s, t, []);
    var s1 := Ready(c, s, t, []);
    ReadyStamps(c, s, now, t, []);
    assert s1.banks == s.banks;
    AfterFirst(c, s1, now, t, a, b);
    hide BusAllows, Step, Stamps, Ticks, Wait, IssueCol, Ready;
  }

  /** While the bus is taken by the burst of its predecessor a request of that kind has to wait, and
      another bank can be opened. */
  lemma OpensOther(c: Config, s: Mc, t: int, x: Req, y: Req)
    requires ValidConfig(c) && c.window >= 2 && c.tBL > 0 && !c.fullDuplex && Shape(s) && s.req == [x]
    requires RowOpen(s, x.bk) && x.page == 0 && y.page == 0 && y.th < |s.cnt| && 0 <= t
    requires y.bk in s.banks && y.bk != x.bk && s.banks[y.bk] == NoBank && BurstStart(c, t) in s.dp && Stamps(c, s, t)
    requires forall r :: 0 <= r < |s.lastAct| ==> s.lastAct[r] + Ticks(c, c.tRR) <= t
    ensures WfArrivals(s, [y])
    ensures var (s', cmds) := Step(c, s, t, [y]);
      && Shape(s') && s'.req == [x, y] && RowOpen(s', x.bk) && RowOpen(s', y.bk) && Stamps(c, s', t) && cmds == [Act(t, y.bk, 0)]
  {
    StepShape(c, s, t, [y]);
    StepStamps(c, s, t, t, [y]);
    var s1 := Ready(c, s, t, [y]);
    ReadyShape(c, s, t, [y]);
    assert s1.req == [x, y] && s1.banks == s.banks && s1.lastAct == s.lastAct;
    TicksAdd(c, c.tCL, c.tBL);
    assert Ticks(c, c.tCL) >= 0;
    assert s1.req[0] == x && s1.req[1] == y;
    NotFree(c, s1, x, t);
    hide Ticks, Stamps, BusAllows;
    assert !Issuable(c, s1, 0, t);
    assert RowOk(c, s1, 1, t);
    ServesSecond(c, s1, t);
  }

  lemma NotFree(c: Config, s: Mc, x: Req, t: int)
    requires ValidConfig(c) && Shape(s) && WfReq(s, x) && !c.fullDuplex && c.tBL > 0 && BurstStart(c, t) in s.dp
    ensures !BusAllows(c, s, x, t)
  {
    MulLess(c.tCL, c.tCL + c.tBL, c.pi);
    assert !Free(s.dp, t + Ticks(c, c.tCL), t + Ticks(c, c.tCL + c.tBL));
  }

  /** Both rows are open and the waits are over: the first request is served, the second is left with
      its row open, ready, and its bus allowed as it was. */
  lemma ServesOpen(c: Config, s: Mc, now: int, t: int, x: Req, y: Req)
    requires ValidConfig(c) && c.window >= 2 && Shape(s) && s.req == [x, y] && OneThread([x, y])
    requires RowOpen(s, x.bk) && RowOpen(s, y.bk) && x.bk != y.bk && x.page == y.page == 0
    requires Stamps(c, s, now) && t >= now + Ticks(c, Wait(c))
    ensures WfArrivals(s, [])
    ensures var s1 := Ready(c, s, t, []);
      && Shape(s1) && Stamps(c, s1, t) && s1.req == [x, y] && WfReq(s1, y) && BusAllows(c, s1, y, t)
      && Step(c, s, t, []).0 == IssueCol(c, s1, t, 0)
      && |Step(c, s, t, []).1| == 1 && Step(c, s, t, []).1[0].Col?
      && Step(c, s, t, []).1[0].r == x && Step(c, s, t, []).1[0].t == t
    ensures var s' := Step(c, s, t, []).0; s'.req == [y] && RowOpen(s', y.bk) && BankReady(c, s'.banks[y.bk], t)
  {
    var s1 := QuietReady(c, s, now, t);
    assert s1.req[0] == x && s1.req[1] == y;
    QuietBank(c, s1, now, t, x.bk);
    QuietBank(c, s1, now, t, y.bk);
    QuietBus(c, s1, now, t, x);
    QuietBus(c, s1, now, t, y);
    RemoveFirst(s1.req, x, y);
    hide Wait, Ticks, Stamps, BusAllows, KeepOpen, Burst, BankReady;
    ServesFirst(c, s1, t);
  }

  /** The remaining request follows as soon as its bank is ready and the bus allows it. */
  lemma ServesLast(c: Config, s: Mc, t: int, y: Req)
    requires ValidConfig(c) && Shape(s) && s.req == [y] && y.th == 0 && y.page == 0 && RowOpen(s, y.bk) && WfReq(s, y)
    requires BankReady(c, s.banks[y.bk], t) && BusAllows(c, Prune(s, t), y, t)
    ensures WfArrivals(s, [])
    ensures var cmds := Step(c, s, t, []).1; |cmds| == 1 && cmds[0].Col? && cmds[0].r == y && cmds[0].t == t
  {
    var s1 := Ready(c, s, t, []);
    ReadyShape(c, s, t, []);
    assert s1.req == [y] && s1.req[0] == y;
    assert BusAllows(c, s1, y, t);
    hide Ticks, BusAllows, KeepOpen, Burst, BankReady;
    ServesFirst(c, s1, t);
  }

  /** The k-th time at which all waits of the previous one are over. */
  function Late(c: Config, k: nat): (t: int)
    requires c.pi > 0
    ensures t >= 0 && t % c.pi == 0
  {
    MulMod(k * Wait(c), c.pi);
    MulNonneg(k * Wait(c), c.pi);
    k * Wait(c) * c.pi
  }

  lemma MulNonneg(a: nat, b: nat)
    ensures a * b >= 0
  {
  }

  lemma LateStep(c: Config, k: nat)
    requires c.pi > 0
    ensures Late(c, k + 1) == Late(c, k) + Ticks(c, Wait(c)) && Late(c, 0) == 0
  {
    var w, p := Wait(c), c.pi;
    assert (k + 1) * w == k * w + w;
    assert (k * w + w) * p == k * w * p + w * p;
  }

  /** The row of two requests is opened and the first is served: the second keeps the row open. */
  lemma FirstTwo(c: Config, s: Mc, z: Req, x: Req) returns (tr: Trace)
    requires Fresh(c, s) && c.window >= 2 && Pair(z, x) && z.bk in s.banks
    ensures Reached(c, s, tr, Late(c, 2)) && Shape(tr.s) && tr.s.req == [x] && RowOpen(tr.s, x.bk) && Stamps(c, tr.s, Late(c, 2))
    ensures BurstStart(c, Late(c, 2)) in tr.s.dp
    ensures forall bk :: bk in s.banks && bk != x.bk ==> bk in tr.s.banks && tr.s.banks[bk] == NoBank
    ensures forall r :: 0 <= r < |tr.s.lastAct| ==> tr.s.lastAct[r] + Ticks(c, c.tRR) <= Late(c, 2)
  {
    tr := OpenedPair(c, s, z, x);
    var t := Late(c, 2);
    LateStep(c, 1);
    Extend(c, s, tr, Late(c, 1), t, []);
    PairStep(c, tr.s, Late(c, 1), t, z, x);
    var (s', cmds) := Step(c, tr.s, t, []);
    tr := Trace(s', tr.log + cmds);
    hide *;
  }

  lemma OpenedPair(c: Config, s: Mc, z: Req, x: Req) returns (tr: Trace)
    requires Fresh(c, s) && Pair(z, x) && z.bk in s.banks
    ensures Reached(c, s, tr, Late(c, 1)) && Shape(tr.s) && tr.s.req == [z, x] && RowOpen(tr.s, x.bk) && Stamps(c, tr.s, Late(c, 1))
    ensures forall bk :: bk in s.banks && bk != x.bk ==> bk in tr.s.banks && tr.s.banks[bk] == NoBank
  {
    LateStep(c, 0);
    OpensRow(c, s, Late(c, 1), z, x);
    StartReached(c, s);
    Extend(c, s, Trace(s, []), 0, Late(c, 1), [z, x]);
    var (s', cmds) := Step(c, s, Late(c, 1), [z, x]);
    tr := Trace(s', [] + cmds);
    hide *;
  }

  lemma StartReached(c: Config, s: Mc)
    requires ValidConfig(c) && Shape(s)
    ensures Reached(c, s, Trace(s, []), 0)
  {
    assert ValidInputs(c, s, []) && LastTime([]) == 0 && Run(c, s, []) == Trace(s, []);
  }

  /** Both rows open, nothing else pending, the request for the first row older. */
  lemma BothOpen(c: Config, s: Mc, z: Req, x: Req, y: Req) returns (tr: Trace)
    requires Fresh(c, s) && c.window >= 2 && Pair(z, x) && z.bk in s.banks
    requires y.bk in s.banks && y.bk != x.bk && y.page == 0 && y.th == 0
    ensures Reached(c, s, tr, Late(c, 2)) && Shape(tr.s) && tr.s.req == [x, y]
    ensures RowOpen(tr.s, x.bk) && RowOpen(tr.s, y.bk) && Stamps(c, tr.s, Late(c, 2))
  {
    tr := FirstTwo(c, s, z, x);
    var t := Late(c, 2);
    Extend(c, s, tr, t, t, [y]);
    assert WfReq(tr.s, [y][0]);
    OpensOther(c, tr.s, t, x, y);
    var (s', cmds) := Step(c, tr.s, t, [y]);
    tr := Trace(s', tr.log + cmds);
    hide *;
  }

  /** A reached history with the column commands of x at u and, later, of y at t. */
  ghost predicate Served(c: Config, s: Mc, tr: Trace, x: Req, y: Req, u: int, t: int)
    requires ValidConfig(c) && Shape(s)
  {
    && Reached(c, s, tr, t)
    && exists i, j :: 0 <= i < j < |tr.log| && ColumnOf(tr.log[i], x, u) && ColumnOf(tr.log[j], y, t)
  }

  predicate ColumnOf(cmd: Cmd, r: Req, t: int) {
    cmd.Col? && cmd.r == r && cmd.t == t
  }

  lemma ReadyLater(c: Config, b: Bank, u: int, t: int)
    requires BankReady(c, b, u) && u <= t
    ensures BankReady(c, b, t)
  {
  }

  /** What the column command of x at u leaves: only y, which can be served at t. */
  ghost predicate LeavesOne(c: Config, s: Mc, cmds: seq<Cmd>, x: Req, y: Req, u: int, t: int) {
    && Shape(s) && |cmds| == 1 && ColumnOf(cmds[0], x, u)
    && s.req == [y] && y.th == 0 && y.page == 0 && RowOpen(s, y.bk) && WfReq(s, y)
    && BankReady(c, s.banks[y.bk], t) && BusAllows(c, Prune(s, t), y, t)
  }

  /** The last two calls of the run. */
  lemma Finishes(c: Config, s: Mc, tr: Trace, now: int, x: Req, y: Req, u: int, t: int) returns (tr': Trace)
    requires Fresh(c, s) && Reached(c, s, tr, now) && Shape(tr.s) && WfArrivals(tr.s, [])
    requires var (s', cmds) := Step(c, tr.s, u, []); LeavesOne(c, s', cmds, x, y, u, t)
    requires 0 <= u <= t && now <= u && u % c.pi == 0 && t % c.pi == 0
    ensures Served(c, s, tr', x, y, u, t)
  {
    Extend(c, s, tr, now, u, []);
    var (s', cmds) := Step(c, tr.s, u, []);
    var tr1 := Trace(s', tr.log + cmds);
    Extend(c, s, tr1, u, t, []);
    ServesLast(c, s', t, y);
    var (s2, cmds2) := Step(c, s', t, []);
    tr' := Trace(s2, tr1.log + cmds2);
    assert ColumnOf(tr'.log[|tr.log|], x, u) && ColumnOf(tr'.log[|tr1.log|], y, t);
    hide *;
  }

  /** `gap` intervals after every slot of a burst issued at u is over. */
  function TurnTime(c: Config, u: int, gap: nat): (t: int)
    requires c.pi > 0 && u % c.pi == 0
    ensures t % c.pi == 0 && t == u + Ticks(c, c.tCL + c.tBL) + Ticks(c, gap) && t >= u
  {
    var n := c.tCL + c.tBL + gap;
    TicksMonotone(c, 0, n);
    TicksAdd(c, c.tCL + c.tBL, gap);
    AddTicks(c, u, n);
    u + Ticks(c, n)
  }

  lemma AddTicks(c: Config, u: int, n: nat)
    requires c.pi > 0 && u % c.pi == 0
    ensures (u + Ticks(c, n)) % c.pi == 0
  {
    var q := u / c.pi;
    assert u == q * c.pi;
    assert u + Ticks(c, n) == (q + n) * c.pi;
    MulMod(q + n, c.pi);
  }

  /** Requests of different banks: the second is served as early as the bus allows. */
  lemma TurnsEarly(c: Config, s: Mc, z: Req, x: Req, y: Req, gap: nat) returns (tr: Trace)
    requires Fresh(c, s) && c.window >= 2 && Pair(z, x) && z.bk in s.banks
    requires y.bk in s.banks && y.bk != x.bk && y.page == 0 && y.th == 0 && IsRead(x.typ) != IsRead(y.typ)
    requires x.bk.rank == y.bk.rank ==> IsRead(y.typ) && gap >= c.tWTR
    ensures Served(c, s, tr, x, y, Late(c, 3), TurnTime(c, Late(c, 3), gap))
  {
    tr := BothOpen(c, s, z, x, y);
    LateStep(c, 2);
    TicksMonotone(c, 0, Wait(c));
    assert y.th == 0 && OneThread([x, y]);
    OpenTurns(c, tr.s, Late(c, 2), Late(c, 3), x, y, gap);
    hide *;
    tr := Finishes(c, s, tr, Late(c, 2), x, y, Late(c, 3), TurnTime(c, Late(c, 3), gap));
  }

  lemma OpenTurns(c: Config, s: Mc, now: int, u: int, x: Req, y: Req, gap: nat)
    requires ValidConfig(c) && c.window >= 2 && Shape(s) && s.req == [x, y] && OneThread([x, y])
    requires RowOpen(s, x.bk) && RowOpen(s, y.bk) && x.bk != y.bk && x.page == y.page == 0 && y.th == 0
    requires Stamps(c, s, now) && u >= now + Ticks(c, Wait(c)) && u % c.pi == 0 && IsRead(x.typ) != IsRead(y.typ)
    requires x.bk.rank == y.bk.rank ==> IsRead(y.typ) && gap >= c.tWTR
    ensures WfArrivals(s, [])
    ensures var (s', cmds) := Step(c, s, u, []); LeavesOne(c, s', cmds, x, y, u, TurnTime(c, u, gap))
  {
    var t := TurnTime(c, u, gap);
    ServesOpen(c, s, now, u, x, y);
    StepShape(c, s, u, []);
    var (s', cmds) := Step(c, s, u, []);
    ReadyLater(c, s'.banks[y.bk], u, t);
    hide BusAllows, Step, Stamps, BankReady, Wait, IssueCol, Ready;
    if x.bk.rank == y.bk.rank { TicksMonotone(c, c.tWTR, gap); }
    hide Ticks;
    BusTurns(c, Ready(c, s, u, []), u, y, t);
  }

  /** Requests for one row: the second waits for its bank as well. */
  lemma TurnsInRow(c: Config, s: Mc, x: Req, y: Req, gap: nat) returns (tr: Trace)
    requires Fresh(c, s) && c.window >= 2 && Pair(x, y) && x.bk in s.banks && !IsRead(x.typ) && IsRead(y.typ)
    requires gap >= c.tWTR && c.tCL + c.tBL + gap >= c.tBBL
    ensures Served(c, s, tr, x, y, Late(c, 2), TurnTime(c, Late(c, 2), gap))
  {
    tr := OpenedPair(c, s, x, y);
    LateStep(c, 1);
    TicksMonotone(c, 0, Wait(c));
    RowTurns(c, tr.s, Late(c, 1), Late(c, 2), x, y, gap);
    hide *;
    tr := Finishes(c, s, tr, Late(c, 1), x, y, Late(c, 2), TurnTime(c, Late(c, 2), gap));
  }

  /** The situation in which x is served at u and y, for the same row, comes `gap` intervals later. */
  ghost predicate InRow(c: Config, s: Mc, now: int, u: int, x: Req, y: Req, gap: nat) {
    && ValidConfig(c) && c.window >= 2 && c.tBL > 0 && Shape(s) && s.req == [x, y] && Pair(x, y) && RowOpen(s, x.bk)
    && Stamps(c, s, now) && u >= now + Ticks(c, Wait(c)) && u % c.pi == 0 && !IsRead(x.typ) && IsRead(y.typ)
    && gap >= c.tWTR && c.tCL + c.tBL + gap >= c.tBBL
  }

  lemma RowTurns(c: Config, s: Mc, now: int, u: int, x: Req, y: Req, gap: nat)
    requires InRow(c, s, now, u, x, y, gap)
    ensures WfArrivals(s, [])
    ensures var (s', cmds) := Step(c, s, u, []); LeavesOne(c, s', cmds, x, y, u, TurnTime(c, u, gap))
  {
    RowBus(c, s, now, u, x, y, gap);
    RowBank(c, s, now, u, x, y, gap);
    hide BusAllows, Step, Stamps, BankReady, Ticks, Wait;
  }

  lemma RowBank(c: Config, s: Mc, now: int, u: int, x: Req, y: Req, gap: nat)
    requires InRow(c, s, now, u, x, y, gap)
    ensures WfArrivals(s, [])
    ensures var s' := Step(c, s, u, []).0;
      s'.req == [y] && RowOpen(s', y.bk) && BankReady(c, s'.banks[y.bk], TurnTime(c, u, gap))
  {
    TicksMonotone(c, c.tBBL, c.tCL + c.tBL + gap);
    TicksAdd(c, c.tCL + c.tBL, gap);
    PairStep(c, s, now, u, x, y);
    ServesPair(c, s, now, u, x, y);
    hide Step, Stamps, Wait, BusAllows, Ready, Ticks;
  }

  lemma RowBus(c: Config, s: Mc, now: int, u: int, x: Req, y: Req, gap: nat)
    requires InRow(c, s, now, u, x, y, gap)
    ensures WfArrivals(s, [])
    ensures var (s', cmds) := Step(c, s, u, []);
      && Shape(s') && WfReq(s', y) && BusAllows(c, Prune(s', TurnTime(c, u, gap)), y, TurnTime(c, u, gap))
      && |cmds| == 1 && ColumnOf(cmds[0], x, u)
  {
    TicksMonotone(c, c.tWTR, gap);
    ServesPair(c, s, now, u, x, y);
    StepShape(c, s, u, []);
    BusTurns(c, Ready(c, s, u, []), u, y, TurnTime(c, u, gap));
    hide BusAllows, Step, Stamps, Wait, IssueCol, Ready, Ticks;
  }

  lemma TooEarly(c: Config, s: Mc, tr: Trace, x: Req, y: Req, u: int, gap: nat, wr: bool)
    requires Fresh(c, s) && u % c.pi == 0 && Served(c, s, tr, x, y, u, TurnTime(c, u, gap))
    requires if wr then !IsRead(x.typ) && IsRead(y.typ) else IsRead(x.typ) && !IsRead(y.typ)
    requires Width(c, wr) > c.tCL + gap
    ensures !AlwaysKept(c, s, wr)
  {
    var t := TurnTime(c, u, gap);
    var i, j :| 0 <= i < j < |tr.log| && ColumnOf(tr.log[i], x, u) && ColumnOf(tr.log[j], y, t);
    TicksAdd(c, c.tCL, gap);
    MulLess(c.tCL + gap, Width(c, wr), c.pi);
    hide Ticks, Reached, AlwaysKept;
    Refuted(c, s, tr, t, wr, i, j);
  }

  // ---------------------------------------------------------------- the exact conditions

  function WriteTo(bk: BankId, id: int): Req {
    Req(id, Evict, bk, 0, 0)
  }

  function ReadFrom(bk: BankId, id: int): Req {
    Req(id, Rd, bk, 0, 0)
  }

  lemma TwoBanksLost(c: Config, s: Mc, b0: BankId, b1: BankId, gap: nat, wr: bool)
    requires Fresh(c, s) && c.window >= 2 && b0 in s.banks && b1 in s.banks && b0 != b1
    requires b0.rank == b1.rank ==> wr && gap >= c.tWTR
    requires Width(c, wr) > c.tCL + gap
    ensures !AlwaysKept(c, s, wr)
  {
    var z, x, y := if wr then WriteTo(b0, 0) else ReadFrom(b0, 0), if wr then WriteTo(b0, 1) else ReadFrom(b0, 1),
      if wr then ReadFrom(b1, 2) else WriteTo(b1, 2);
    var tr := TurnsEarly(c, s, z, x, y, gap);
    TooEarly(c, s, tr, x, y, Late(c, 3), gap, wr);
  }

  /** With two ranks the bubble survives every run exactly if it is not longer than tCL. */
  lemma BubbleExact(c: Config, s: Mc, wr: bool)
    requires Fresh(c, s) && c.window >= 2 && !OneRank(s)
    ensures AlwaysKept(c, s, wr) <==> Width(c, wr) <= c.tCL
  {
    if Width(c, wr) <= c.tCL {
      ShortKept(c, s, wr);
    } else {
      var b0, b1 :| b0 in s.banks && b1 in s.banks && b0.rank != b1.rank;
      TwoBanksLost(c, s, b0, b1, 0, wr);
    }
  }

  /** With one rank the bubble before a write always survives, the one before a read exactly if it is not
      longer than tCL + tWTR, or if a single bank keeps the commands apart. */
  lemma BubbleOneRankExact(c: Config, s: Mc)
    requires Fresh(c, s) && c.window >= 2 && OneRank(s)
    ensures AlwaysKept(c, s, false)
    ensures |s.banks| >= 2 ==> (AlwaysKept(c, s, true) <==> c.tWRBUB <= c.tCL + c.tWTR)
    ensures |s.banks| == 1 ==> (AlwaysKept(c, s, true) <==> c.tWRBUB <= c.tCL + c.tWTR || c.tBL + c.tWRBUB <= c.tBBL)
  {
    OneRankKept(c, s, false);
    if c.tWRBUB <= c.tCL + c.tWTR {
      OneRankKept(c, s, true);
    } else if |s.banks| >= 2 {
      var b0 :| b0 in s.banks;
      var others := s.banks.Keys - {b0};
      assert |others| >= 1;
      var b1 :| b1 in others;
      TwoBanksLost(c, s, b0, b1, c.tWTR, true);
    } else if |s.banks| == 1 {
      if c.tBL + c.tWRBUB <= c.tBBL { OneBankKept(c, s); } else { OneBankLost(c, s); }
    }
  }

  lemma OneBankLost(c: Config, s: Mc)
    requires Fresh(c, s) && c.window >= 2 && |s.banks| == 1
    requires c.tWRBUB > c.tCL + c.tWTR && c.tBL + c.tWRBUB > c.tBBL
    ensures !AlwaysKept(c, s, true)
  {
    var b0 :| b0 in s.banks;
    var x, y := WriteTo(b0, 0), ReadFrom(b0, 1);
    var gap: nat := if c.tCL + c.tBL + c.tWTR >= c.tBBL then c.tWTR else c.tBBL - c.tCL - c.tBL;
    var tr := TurnsInRow(c, s, x, y, gap);
    TooEarly(c, s, tr, x, y, Late(c, 2), gap, true);
  }
}
