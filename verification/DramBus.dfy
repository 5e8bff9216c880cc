/** Data-bus safety of the DRAM controller, over whole command histories. */
module DramBus {
  import opened Dram
  import opened DramTiming
  import opened Arithmetic

  function BurstStart(c: Config, t: int): int {
    t + Ticks(c, c.tCL)
  }

  function BurstEnd(c: Config, t: int): int {
    t + Ticks(c, c.tCL + c.tBL)
  }

  predicate Reads(x: Cmd) {
    x.Col? && IsRead(x.r.typ)
  }

  predicate Writes(x: Cmd) {
    x.Col? && !IsRead(x.r.typ)
  }

  /** The two column commands use the same data wires. */
  predicate SharesBus(c: Config, x: Cmd, y: Cmd) {
    x.Col? && y.Col? && (!c.fullDuplex || IsRead(x.r.typ) == IsRead(y.r.typ))
  }

  /** The data-bus rules between an older command `x` and a younger command `y`. */
  predicate BusPair(c: Config, x: Cmd, y: Cmd) {
    && (SharesBus(c, x, y) && c.tBL > 0 ==> BurstEnd(c, x.t) <= BurstStart(c, y.t))
    && (!c.fullDuplex && c.tBL > 0 ==> TurnAroundKept(c, x, y))
    && (x.Col? && y.Col? && x.bk.rank == y.bk.rank ==> SameRankGap(c, x, y))
    && (Reads(x) && Reads(y) && x.bk.rank != y.bk.rank ==> x.t + Ticks(c, c.tRRBUB) <= y.t)
  }

  /** The bus idles between a write burst and a read burst, and between a read and a write burst; module
      DramBubble says when longer bubbles are kept. */
  predicate TurnAroundKept(c: Config, x: Cmd, y: Cmd) {
    && (Writes(x) && Reads(y) && c.tWRBUB <= c.tCL ==> BurstEnd(c, x.t) + Ticks(c, c.tWRBUB) <= BurstStart(c, y.t))
    && (Reads(x) && Writes(y) && c.tRWBUB <= c.tCL ==> BurstEnd(c, x.t) + Ticks(c, c.tRWBUB) <= BurstStart(c, y.t))
  }

  /** Within a rank the command itself waits for the end of the opposite burst and then some. */
  predicate SameRankGap(c: Config, x: Cmd, y: Cmd) {
    && (Writes(x) && Reads(y) && c.tWTR > 0 ==> BurstEnd(c, x.t) + Ticks(c, c.tWTR) <= y.t)
    && (Reads(x) && Writes(y) ==> BurstEnd(c, x.t) + Ticks(c, c.tRWBUB) <= y.t)
  }

  ghost predicate BusLegal(c: Config, log: seq<Cmd>) {
    forall i, j :: 0 <= i < j < |log| ==> BusPair(c, log[i], log[j])
  }

  // ---------------------------------------------------------------- arithmetic of slots

  /** Time between the last slot of an older burst and the start of a younger one: when the last slot
      comes before `lo - w` it ends at least `w` intervals before `lo`. */
  lemma AlignedGap(c: Config, xt: int, t: int, w: nat)
    requires c.pi > 0 && c.tBL > 0 && xt % c.pi == 0 && t % c.pi == 0
    requires Slot(c, xt, c.tBL - 1) < BurstStart(c, t) - Ticks(c, w)
    ensures BurstEnd(c, xt) + Ticks(c, w) <= BurstStart(c, t)
  {
    var u, v := xt / c.pi, t / c.pi;
    assert xt == u * c.pi && t == v * c.pi;
    assert Slot(c, xt, c.tBL - 1) == (u + c.tCL + c.tBL - 1) * c.pi;
    assert BurstStart(c, t) - Ticks(c, w) == (v + c.tCL - w) * c.pi;
    MulLess(u + c.tCL + c.tBL - 1, v + c.tCL - w, c.pi);
    assert BurstEnd(c, xt) + Ticks(c, w) == (u + c.tCL + c.tBL + w) * c.pi;
    assert BurstStart(c, t) == (v + c.tCL) * c.pi;
    MulLess(v + c.tCL, u + c.tCL + c.tBL + w, c.pi);
  }

  lemma LastSlotBound(c: Config, xt: int, t: int)
    requires c.pi > 0 && c.tBL > 0 && xt <= t
    ensures Slot(c, xt, c.tBL - 1) < BurstEnd(c, t)
  {
    MulLess(c.tCL + c.tBL - 1, c.tCL + c.tBL, c.pi);
  }

  /** A slot that is still remembered and a free stretch of bus exclude each other. */
  lemma BurstsApart(c: Config, m: map<int, Action>, xt: int, t: int)
    requires c.pi > 0 && c.tBL > 0 && xt <= t && xt % c.pi == 0 && t % c.pi == 0
    requires Slot(c, xt, c.tBL - 1) >= t ==> Slot(c, xt, c.tBL - 1) in m
    requires Free(m, t + Ticks(c, c.tCL), t + Ticks(c, c.tCL + c.tBL))
    ensures BurstEnd(c, xt) <= BurstStart(c, t)
  {
    LastSlotBound(c, xt, t);
    assert Ticks(c, c.tCL) >= 0;
    AlignedGap(c, xt, t, 0);
  }

  /** A turn-around search that finds nothing guarantees the bubble, because it looks back over
      slots that are all still remembered. */
  lemma TurnAround(c: Config, m: map<int, Action>, xt: int, t: int, w: nat, a: Action)
    requires c.pi > 0 && c.tBL > 0 && 0 <= xt <= t && xt % c.pi == 0 && t % c.pi == 0 && w <= c.tCL
    requires Slot(c, xt, c.tBL - 1) >= t ==> Slot(c, xt, c.tBL - 1) in m && m[Slot(c, xt, c.tBL - 1)] == a
    requires Free(m, t + Ticks(c, c.tCL), t + Ticks(c, c.tCL + c.tBL))
    requires !Bubble(m, t + Ticks(c, c.tCL), Ticks(c, w), a)
    ensures BurstEnd(c, xt) + Ticks(c, w) <= BurstStart(c, t)
  {
    LastSlotBound(c, xt, t);
    assert 0 <= Ticks(c, w) <= Ticks(c, c.tCL) by { if w < c.tCL { MulLess(w, c.tCL, c.pi); } }
    AlignedGap(c, xt, t, w);
  }

  // ---------------------------------------------------------------- the invariant

  /** Every slot of the burst of `x` that is not yet over is remembered in `m`, with kind `a`. */
  ghost predicate Remembers(c: Config, m: map<int, Action>, x: Cmd, now: int, a: Action) {
    forall j: nat :: j < c.tBL && Slot(c, x.t, j) >= now
      ==> Slot(c, x.t, j) in m && m[Slot(c, x.t, j)] == a
  }

  ghost predicate ColInv(c: Config, s: Mc, x: Cmd, now: int)
    requires c.pi > 0 && Shape(s) && x.Col?
  {
    && 0 <= x.t <= now && x.t % c.pi == 0 && x.bk.rank < |s.lastAct|
    && (!c.fullDuplex ==> Remembers(c, s.dp, x, now, ActionOf(x.r.typ)))
    && (Reads(x) && c.fullDuplex ==> Remembers(c, s.rdDp, x, now, Read))
    && (Writes(x) && c.fullDuplex ==> Remembers(c, s.wrDp, x, now, Write))
    && (Writes(x) ==> BurstEnd(c, x.t) <= s.lastWr[x.bk.rank])
    && (Reads(x) ==> BurstEnd(c, x.t) <= s.lastRdRank[x.bk.rank])
    && (Reads(x) ==> x.t <= s.lastRd.1 <= now)
    && (Reads(x) && x.bk.rank != s.lastRd.0 ==> x.t + Ticks(c, c.tRRBUB) <= s.lastRd.1)
  }

  ghost predicate BusInv(c: Config, s: Mc, log: seq<Cmd>, now: int)
    requires c.pi > 0 && Shape(s)
  {
    && 0 <= now && now % c.pi == 0
    && forall i :: 0 <= i < |log| && log[i].Col? ==> ColInv(c, s, log[i], now)
  }

  /** Time passes and requests arrive: nothing that still matters is forgotten. */
  lemma ReadyBus(c: Config, s: Mc, log: seq<Cmd>, now: int, t: int, arrivals: seq<Req>)
    requires c.pi > 0 && Shape(s) && WfArrivals(s, arrivals) && BusInv(c, s, log, now)
    requires now <= t && t % c.pi == 0
    ensures Shape(Ready(c, s, t, arrivals)) && BusInv(c, Ready(c, s, t, arrivals), log, t)
  {
    ReadyShape(c, s, t, arrivals);
  }

  /** A column command that the controller allows respects every rule against an older one. */
  lemma NewColumnLegal(c: Config, s: Mc, x: Cmd, r: Req, t: int, autoPre: bool)
    requires c.pi > 0 && Shape(s) && WfReq(s, r) && t % c.pi == 0
    requires x.Col? && ColInv(c, s, x, t) && BusAllows(c, s, r, t)
    ensures BusPair(c, x, Col(t, r.bk, r, autoPre))
  {
    var y := Col(t, r.bk, r, autoPre);
    if c.tBL > 0 && SharesBus(c, x, y) {
      var m := if !c.fullDuplex then s.dp else if IsRead(r.typ) then s.rdDp else s.wrDp;
      assert Remembers(c, m, x, t, ActionOf(x.r.typ));
      BurstsApart(c, m, x.t, t);
      if !c.fullDuplex && Writes(x) && Reads(y) && c.tWRBUB <= c.tCL {
        TurnAround(c, s.dp, x.t, t, c.tWRBUB, Write);
      }
      if !c.fullDuplex && Reads(x) && Writes(y) && c.tRWBUB <= c.tCL {
        TurnAround(c, s.dp, x.t, t, c.tRWBUB, Read);
      }
    }
  }

  /** The slots of a new burst are free, so recording it changes nothing that was recorded. */
  lemma OldBurstKept(c: Config, s: Mc, x: Cmd, t: int, i: nat)
    requires c.pi > 0 && Shape(s) && i < |s.req| && x.Col? && ColInv(c, s, x, t)
    requires BusAllows(c, s, s.req[i], t)
    ensures Shape(IssueCol(c, s, t, i)) ==> ColInv(c, IssueCol(c, s, t, i), x, t)
  {
    var s' := IssueCol(c, s, t, i);
    var a := ActionOf(s.req[i].typ);
    LaterEnd(c, x.t, t);
    if Shape(s') {
      KeptIn(c, s.dp, x, t, ActionOf(x.r.typ), a);
      if Reads(x) && a.Read? { KeptIn(c, s.rdDp, x, t, Read, a); }
      if Writes(x) && a.Write? { KeptIn(c, s.wrDp, x, t, Write, a); }
    }
  }

  lemma LaterEnd(c: Config, xt: int, t: int)
    requires xt <= t
    ensures BurstEnd(c, xt) <= BurstEnd(c, t)
  {
  }

  lemma KeptIn(c: Config, m: map<int, Action>, x: Cmd, t: int, ax: Action, a: Action)
    ensures Remembers(c, m, x, t, ax) ==> Remembers(c, Burst(c, t, a) + m, x, t, ax)
  {
  }

  /** A burst recorded into free slots is remembered. */
  lemma NewBurstKept(c: Config, m: map<int, Action>, x: Cmd, a: Action)
    requires c.pi > 0 && Free(m, BurstStart(c, x.t), BurstEnd(c, x.t))
    ensures Remembers(c, Burst(c, x.t, a) + m, x, x.t, a)
  {
    var b := Burst(c, x.t, a);
    forall j: nat | j < c.tBL ensures Slot(c, x.t, j) in b && Slot(c, x.t, j) !in m && b[Slot(c, x.t, j)] == a {
      MulLess(c.tCL + j, c.tCL + c.tBL, c.pi);
      if j > 0 { MulLess(c.tCL, c.tCL + j, c.pi); }
    }
  }

  lemma NewColInv(c: Config, s: Mc, t: int, i: nat, autoPre: bool)
    requires c.pi > 0 && Shape(s) && i < |s.req| && 0 <= t && t % c.pi == 0
    requires BusAllows(c, s, s.req[i], t)
    ensures Shape(IssueCol(c, s, t, i)) ==>
              ColInv(c, IssueCol(c, s, t, i), Col(t, s.req[i].bk, s.req[i], autoPre), t)
  {
    var r := s.req[i];
    var x := Col(t, r.bk, r, autoPre);
    var a := ActionOf(r.typ);
    if !c.fullDuplex { NewBurstKept(c, s.dp, x, a); }
    else if IsRead(r.typ) { NewBurstKept(c, s.rdDp, x, a); }
    else { NewBurstKept(c, s.wrDp, x, a); }
  }

  lemma IssueBus(c: Config, s: Mc, t: int, i: nat, log: seq<Cmd>)
    requires c.pi > 0 && Shape(s) && i < |s.req| && Issuable(c, s, i, t)
    requires BusInv(c, s, log, t) && BusLegal(c, log)
    ensures var (s', cmds) := Issue(c, s, t, i);
            Shape(s') && BusInv(c, s', log + cmds, t) && BusLegal(c, log + cmds)
  {
    IssueShape(c, s, t, i);
    IssuableFacts(c, s, i, t);
    var r := s.req[i];
    var b := s.banks[r.bk];
    var (s', cmds) := Issue(c, s, t, i);
    var log' := log + cmds;
    assert |cmds| == 1;
    if IsOpen(b) && b.page == r.page {
      NewColInv(c, s, t, i, cmds[0].autoPre);
      forall j | 0 <= j < |log| && log[j].Col? ensures ColInv(c, s', log[j], t) && BusPair(c, log[j], cmds[0]) {
        OldBurstKept(c, s, log[j], t, i);
        NewColumnLegal(c, s, log[j], r, t, cmds[0].autoPre);
      }
    } else {
      forall j | 0 <= j < |log| && log[j].Col? ensures ColInv(c, s', log[j], t) {
        assert ColInv(c, s, log[j], t);
      }
    }
    forall j, k | 0 <= j < k < |log'| ensures BusPair(c, log'[j], log'[k]) {
      if k < |log| { assert BusPair(c, log[j], log[k]); }
    }
  }

  lemma StepBus(c: Config, tr: Trace, input: Input, now: int)
    requires c.pi > 0 && Shape(tr.s) && WfArrivals(tr.s, input.arrivals)
    requires BusInv(c, tr.s, tr.log, now) && BusLegal(c, tr.log)
    requires now <= input.t && input.t % c.pi == 0
    ensures var tr' := StepTrace(c, tr, input);
            BusInv(c, tr'.s, tr'.log, input.t) && BusLegal(c, tr'.log)
  {
    var s1 := Ready(c, tr.s, input.t, input.arrivals);
    ReadyBus(c, tr.s, tr.log, now, input.t, input.arrivals);
    var i := Selected(c, s1, input.t);
    if i >= 0 {
      IssueBus(c, s1, input.t, i, tr.log);
    } else {
      assert tr.log + [] == tr.log;
    }
  }

  lemma {:induction false} RunBus(c: Config, s: Mc, inputs: seq<Input>)
    requires ValidConfig(c) && Initial(c, s) && Shape(s) && ValidInputs(c, s, inputs)
    ensures var tr := Run(c, s, inputs); BusInv(c, tr.s, tr.log, LastTime(inputs)) && BusLegal(c, tr.log)
  {
    if inputs != [] {
      var n := |inputs| - 1;
      ValidPrefix(c, s, inputs, n);
      RunBus(c, s, inputs[..n]);
      StepBus(c, Run(c, s, inputs[..n]), inputs[n], LastTime(inputs[..n]));
    }
  }

  /** Tick `k` belongs to the burst of command `x`. */
  predicate OnBus(c: Config, x: Cmd, k: int) {
    x.Col? && BurstStart(c, x.t) <= k < BurstEnd(c, x.t)
  }

  lemma PairDisjoint(c: Config, x: Cmd, y: Cmd, k: int)
    requires BusPair(c, x, y) && SharesBus(c, x, y)
    ensures !(OnBus(c, x, k) && OnBus(c, y, k))
  {
    if c.tBL == 0 {
      assert BurstStart(c, x.t) == BurstEnd(c, x.t);
    }
  }

  /** In every run no tick of the bus carries two bursts, although old slots are forgotten: of all
      bursts in half duplex, of the bursts of one direction in full duplex. */
  lemma BurstsDisjoint(c: Config, s: Mc, inputs: seq<Input>, i: nat, j: nat, k: int)
    requires ValidConfig(c) && Initial(c, s) && Shape(s) && ValidInputs(c, s, inputs)
    requires i < j < |Run(c, s, inputs).log|
    ensures var log := Run(c, s, inputs).log;
            SharesBus(c, log[i], log[j]) ==> !(OnBus(c, log[i], k) && OnBus(c, log[j], k))
  {
    RunBus(c, s, inputs);
    var log := Run(c, s, inputs).log;
    assert BusPair(c, log[i], log[j]);
    if SharesBus(c, log[i], log[j]) {
      PairDisjoint(c, log[i], log[j], k);
    }
  }

  /** In every run all data-bus rules hold between every older and every younger command. */
  lemma DataBusSafe(c: Config, s: Mc, inputs: seq<Input>)
    requires ValidConfig(c) && Initial(c, s) && Shape(s) && ValidInputs(c, s, inputs)
    ensures BusLegal(c, Run(c, s, inputs).log)
  {
    RunBus(c, s, inputs);
  }
}
