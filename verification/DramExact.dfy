/** Commands wait only for what the history asks: in every run the conditions that the controller checks on
    its stored times and slots say exactly what the command history says. */
module DramExact {
  import opened Dram
  import opened DramTiming
  import opened DramBus
  import opened Arithmetic

  // ---------------------------------------------------------------- what the history allows

  /** Tick k is a slot of the burst of x. */
  predicate SlotOf(c: Config, x: Cmd, k: int) {
    x.Col? && k in SlotsUpTo(c, x.t, c.tBL)
  }

  /** Some slot of the burst of x lies in [lo, hi). */
  ghost predicate SlotIn(c: Config, x: Cmd, lo: int, hi: int) {
    exists k :: SlotOf(c, x, k) && lo <= k < hi
  }

  /** What an older column command x asks of a column command for request r at time t.  The bubble is looked
      for among the slots that are not over yet. */
  ghost predicate Allows(c: Config, x: Cmd, r: Req, t: int)
    requires x.Col?
  {
    var lo, hi := t + Ticks(c, c.tCL), t + Ticks(c, c.tCL + c.tBL);
    var w := Ticks(c, if IsRead(r.typ) then c.tWRBUB else c.tRWBUB);
    var opposite := IsRead(x.r.typ) != IsRead(r.typ);
    && (!c.fullDuplex || !opposite ==> !SlotIn(c, x, lo, hi))
    && (!c.fullDuplex && opposite && w <= lo ==> !SlotIn(c, x, Max(lo - w, t), lo))
    && (IsRead(r.typ) && Writes(x) && x.bk.rank == r.bk.rank && c.tWTR > 0 ==> BurstEnd(c, x.t) + Ticks(c, c.tWTR) <= t)
    && (!IsRead(r.typ) && Reads(x) && x.bk.rank == r.bk.rank ==> BurstEnd(c, x.t) + Ticks(c, c.tRWBUB) <= t)
    && (IsRead(r.typ) && Reads(x) && x.bk.rank != r.bk.rank ==> x.t + Ticks(c, c.tRRBUB) <= t)
  }

  /** At the start the waits count from time 0, as if each rank had just been used. */
  ghost predicate StartAllows(c: Config, log: seq<Cmd>, r: Req, t: int) {
    if IsRead(r.typ) then
      && (c.tWTR > 0 ==> Ticks(c, c.tWTR) <= t)
      && ((forall i :: 0 <= i < |log| ==> !Reads(log[i])) && r.bk.rank != 0 ==> Ticks(c, c.tRRBUB) <= t)
    else Ticks(c, c.tRWBUB) <= t
  }

  // ---------------------------------------------------------------- the stored state comes from the history

  ghost predicate SlotsFrom(c: Config, m: map<int, Action>, log: seq<Cmd>) {
    forall k :: k in m ==> exists i :: 0 <= i < |log| && SlotOf(c, log[i], k) && m[k] == ActionOf(log[i].r.typ)
  }

  /** The time e is 0 or the end of a burst of this direction on rank q. */
  ghost predicate EndFrom(c: Config, e: int, q: nat, log: seq<Cmd>, write: bool) {
    || e == 0
    || exists i :: 0 <= i < |log| && (if write then Writes(log[i]) else Reads(log[i])) && log[i].bk.rank == q && e == BurstEnd(c, log[i].t)
  }

  ghost predicate RankFrom(c: Config, times: seq<int>, log: seq<Cmd>, write: bool) {
    forall q :: 0 <= q < |times| ==> EndFrom(c, times[q], q, log, write)
  }

  ghost predicate ActFrom(e: int, q: nat, log: seq<Cmd>) {
    e == 0 || exists i :: 0 <= i < |log| && log[i].Act? && log[i].bk.rank == q && e == log[i].t
  }

  ghost predicate ActsFrom(times: seq<int>, log: seq<Cmd>) {
    forall q :: 0 <= q < |times| ==> ActFrom(times[q], q, log)
  }

  ghost predicate ReadFrom(last: (nat, int), log: seq<Cmd>) {
    if forall i :: 0 <= i < |log| ==> !Reads(log[i]) then last == (0, 0)
    else exists i :: 0 <= i < |log| && Reads(log[i]) && last == (log[i].bk.rank, log[i].t)
  }

  ghost predicate From(c: Config, s: Mc, log: seq<Cmd>) {
    && SlotsFrom(c, s.dp, log) && SlotsFrom(c, s.rdDp, log) && SlotsFrom(c, s.wrDp, log)
    && (forall k :: k in s.rdDp ==> s.rdDp[k] == Read) && (forall k :: k in s.wrDp ==> s.wrDp[k] == Write)
    && RankFrom(c, s.lastWr, log, true) && RankFrom(c, s.lastRdRank, log, false)
    && ActsFrom(s.lastAct, log) && ReadFrom(s.lastRd, log)
  }

  lemma SlotsFromMore(c: Config, m: map<int, Action>, log: seq<Cmd>, x: Cmd)
    requires SlotsFrom(c, m, log)
    ensures SlotsFrom(c, m, log + [x])
  {
    forall k | k in m ensures exists i :: 0 <= i < |log + [x]| && SlotOf(c, (log + [x])[i], k) && m[k] == ActionOf((log + [x])[i].r.typ) {
      var i :| 0 <= i < |log| && SlotOf(c, log[i], k) && m[k] == ActionOf(log[i].r.typ);
      assert (log + [x])[i] == log[i];
    }
  }

  lemma SlotsFromBurst(c: Config, m: map<int, Action>, log: seq<Cmd>, x: Cmd)
    requires x.Col? && SlotsFrom(c, m, log)
    ensures SlotsFrom(c, Burst(c, x.t, ActionOf(x.r.typ)) + m, log + [x])
  {
    SlotsFromMore(c, m, log, x);
    var b := Burst(c, x.t, ActionOf(x.r.typ)) + m;
    forall k | k in b ensures exists i :: 0 <= i < |log + [x]| && SlotOf(c, (log + [x])[i], k) && b[k] == ActionOf((log + [x])[i].r.typ) {
      if k !in m { assert (log + [x])[|log|] == x && SlotOf(c, x, k); }
    }
  }

  lemma EndFromMore(c: Config, e: int, q: nat, log: seq<Cmd>, x: Cmd, write: bool)
    requires EndFrom(c, e, q, log, write)
    ensures EndFrom(c, e, q, log + [x], write)
  {
    if e != 0 {
      var i :| 0 <= i < |log| && (if write then Writes(log[i]) else Reads(log[i])) && log[i].bk.rank == q && e == BurstEnd(c, log[i].t);
      assert (log + [x])[i] == log[i];
    }
  }

  lemma RankFromMore(c: Config, times: seq<int>, log: seq<Cmd>, x: Cmd, write: bool)
    requires RankFrom(c, times, log, write)
    ensures RankFrom(c, times, log + [x], write)
    ensures x.Col? && x.bk.rank < |times| && (if write then Writes(x) else Reads(x)) ==>
      RankFrom(c, times[x.bk.rank := BurstEnd(c, x.t)], log + [x], write)
  {
    forall q | 0 <= q < |times| ensures EndFrom(c, times[q], q, log + [x], write) { EndFromMore(c, times[q], q, log, x, write); }
    assert (log + [x])[|log|] == x;
  }

  lemma ActFromMore(e: int, q: nat, log: seq<Cmd>, x: Cmd)
    requires ActFrom(e, q, log)
    ensures ActFrom(e, q, log + [x])
  {
    if e != 0 {
      var i :| 0 <= i < |log| && log[i].Act? && log[i].bk.rank == q && e == log[i].t;
      assert (log + [x])[i] == log[i];
    }
  }

  lemma ActsFromMore(times: seq<int>, log: seq<Cmd>, x: Cmd)
    requires ActsFrom(times, log)
    ensures ActsFrom(times, log + [x])
    ensures x.Act? && x.bk.rank < |times| ==> ActsFrom(times[x.bk.rank := x.t], log + [x])
  {
    forall q | 0 <= q < |times| ensures ActFrom(times[q], q, log + [x]) { ActFromMore(times[q], q, log, x); }
    assert (log + [x])[|log|] == x;
  }

  lemma ReadFromMore(last: (nat, int), log: seq<Cmd>, x: Cmd)
    requires ReadFrom(last, log)
    ensures ReadFrom(if Reads(x) then (x.bk.rank, x.t) else last, log + [x])
  {
    var log' := log + [x];
    forall i | 0 <= i < |log| ensures log'[i] == log[i] {}
    assert log'[|log|] == x;
  }

  lemma ReadyFrom(c: Config, s: Mc, t: int, arrivals: seq<Req>, log: seq<Cmd>)
    requires From(c, s, log)
    ensures From(c, Ready(c, s, t, arrivals), log)
  {
  }

  lemma ColumnFrom(c: Config, s: Mc, t: int, i: nat, log: seq<Cmd>, autoPre: bool)
    requires Shape(s) && i < |s.req| && From(c, s, log)
    ensures From(c, IssueCol(c, s, t, i), log + [Col(t, s.req[i].bk, s.req[i], autoPre)])
  {
    var r := s.req[i];
    var x := Col(t, r.bk, r, autoPre);
    assert WfReq(s, r);
    SlotsFromBurst(c, s.dp, log, x);
    SlotsFromBurst(c, s.rdDp, log, x);
    SlotsFromBurst(c, s.wrDp, log, x);
    SlotsFromMore(c, s.rdDp, log, x);
    SlotsFromMore(c, s.wrDp, log, x);
    RankFromMore(c, s.lastWr, log, x, true);
    RankFromMore(c, s.lastRdRank, log, x, false);
    ActsFromMore(s.lastAct, log, x);
    ReadFromMore(s.lastRd, log, x);
    hide SlotsFrom, RankFrom, ActsFrom, ReadFrom, SlotsUpTo;
  }

  lemma RowFrom(c: Config, s: Mc, s': Mc, log: seq<Cmd>, x: Cmd)
    requires From(c, s, log) && !x.Col?
    requires s'.dp == s.dp && s'.rdDp == s.rdDp && s'.wrDp == s.wrDp && s'.lastWr == s.lastWr && s'.lastRdRank == s.lastRdRank && s'.lastRd == s.lastRd
    requires s'.lastAct == s.lastAct || (x.Act? && x.bk.rank < |s.lastAct| && s'.lastAct == s.lastAct[x.bk.rank := x.t])
    ensures From(c, s', log + [x])
  {
    SlotsFromMore(c, s.dp, log, x);
    SlotsFromMore(c, s.rdDp, log, x);
    SlotsFromMore(c, s.wrDp, log, x);
    RankFromMore(c, s.lastWr, log, x, true);
    RankFromMore(c, s.lastRdRank, log, x, false);
    ActsFromMore(s.lastAct, log, x);
    ReadFromMore(s.lastRd, log, x);
    hide SlotsFrom, RankFrom, ActsFrom, ReadFrom;
  }

  lemma IssueFrom(c: Config, s: Mc, t: int, i: nat, log: seq<Cmd>)
    requires Shape(s) && i < |s.req| && From(c, s, log)
    ensures var (s', cmds) := Issue(c, s, t, i); From(c, s', log + cmds)
  {
    var r := s.req[i];
    var b := s.banks[r.bk];
    assert WfReq(s, r);
    hide From;
    if !IsOpen(b) {
      RowFrom(c, s, IssueAct(s, t, i), log, Act(t, r.bk, r.page));
    } else if b.page != r.page {
      if c.policy.Open? { RowFrom(c, s, IssuePre(c, s, t, i), log, Pre(t, r.bk)); } else { assert log + [] == log; }
    } else {
      ColumnFrom(c, s, t, i, log, !c.policy.Open? && !KeepOpen(c, s, i));
    }
  }

  lemma StepFrom(c: Config, tr: Trace, input: Input)
    requires Shape(tr.s) && WfArrivals(tr.s, input.arrivals) && From(c, tr.s, tr.log)
    ensures var tr' := StepTrace(c, tr, input); From(c, tr'.s, tr'.log)
  {
    var s1 := Ready(c, tr.s, input.t, input.arrivals);
    ReadyShape(c, tr.s, input.t, input.arrivals);
    ReadyFrom(c, tr.s, input.t, input.arrivals, tr.log);
    var i := Selected(c, s1, input.t);
    hide From, Ready, Issue;
    if i >= 0 { IssueFrom(c, s1, input.t, i, tr.log); } else { assert tr.log + [] == tr.log; }
  }

  lemma {:induction false} RunFrom(c: Config, s: Mc, inputs: seq<Input>)
    requires ValidConfig(c) && Initial(c, s) && Shape(s) && ValidInputs(c, s, inputs)
    ensures From(c, Run(c, s, inputs).s, Run(c, s, inputs).log)
  {
    if inputs != [] {
      var n := |inputs| - 1;
      ValidPrefix(c, s, inputs, n);
      RunFrom(c, s, inputs[..n]);
      StepFrom(c, Run(c, s, inputs[..n]), inputs[n]);
    }
  }

  // ---------------------------------------------------------------- column commands

  /** The slots that a command of this direction looks at. */
  function MapFor(c: Config, s: Mc, read: bool): map<int, Action> {
    if !c.fullDuplex then s.dp else if read then s.rdDp else s.wrDp
  }

  predicate Concerns(c: Config, x: Cmd, read: bool) {
    x.Col? && (!c.fullDuplex || IsRead(x.r.typ) == read)
  }

  lemma StoredSlot(c: Config, s: Mc, log: seq<Cmd>, t: int, read: bool, i: nat, k: int)
    requires c.pi > 0 && Shape(s) && BusInv(c, s, log, t) && i < |log| && Concerns(c, log[i], read) && SlotOf(c, log[i], k) && t <= k
    ensures var m := MapFor(c, s, read); k in m && m[k] == ActionOf(log[i].r.typ)
  {
    assert ColInv(c, s, log[i], t);
    var j: nat :| j < c.tBL && k == Slot(c, log[i].t, j);
  }

  lemma SlotsExact(c: Config, s: Mc, log: seq<Cmd>, t: int, read: bool, lo: int, hi: int)
    requires c.pi > 0 && Shape(s) && BusInv(c, s, log, t) && From(c, s, log) && t <= lo
    ensures Free(MapFor(c, s, read), lo, hi) <==> forall i :: 0 <= i < |log| && Concerns(c, log[i], read) ==> !SlotIn(c, log[i], lo, hi)
  {
    var m := MapFor(c, s, read);
    if Free(m, lo, hi) {
      forall i | 0 <= i < |log| && Concerns(c, log[i], read) ensures !SlotIn(c, log[i], lo, hi) {
        if k :| SlotOf(c, log[i], k) && lo <= k < hi { StoredSlot(c, s, log, t, read, i, k); }
      }
    } else {
      var k :| k in m && lo <= k < hi;
      var i :| 0 <= i < |log| && SlotOf(c, log[i], k) && m[k] == ActionOf(log[i].r.typ);
      assert Concerns(c, log[i], read) && SlotIn(c, log[i], lo, hi);
    }
  }

  /** Slots before t are forgotten. */
  ghost predicate Current(s: Mc, t: int) {
    (forall k :: k in s.dp ==> t <= k) && (forall k :: k in s.rdDp ==> t <= k) && (forall k :: k in s.wrDp ==> t <= k)
  }

  lemma BubbleSlots(c: Config, s: Mc, log: seq<Cmd>, t: int, read: bool, lo: int, w: int)
    requires c.pi > 0 && Shape(s) && BusInv(c, s, log, t) && From(c, s, log) && Current(s, t) && !c.fullDuplex
    ensures !Bubble(s.dp, lo, w, if read then Write else Read) <==>
      (w <= lo ==> forall i :: 0 <= i < |log| && log[i].Col? && IsRead(log[i].r.typ) != read ==> !SlotIn(c, log[i], Max(lo - w, t), lo))
  {
    var a := if read then Write else Read;
    if w <= lo {
      if k :| k in s.dp && lo - w <= k < lo && s.dp[k] == a {
        var i :| 0 <= i < |log| && SlotOf(c, log[i], k) && s.dp[k] == ActionOf(log[i].r.typ);
        assert SlotIn(c, log[i], Max(lo - w, t), lo);
      }
      if i :| 0 <= i < |log| && log[i].Col? && IsRead(log[i].r.typ) != read && SlotIn(c, log[i], Max(lo - w, t), lo) {
        var k :| SlotOf(c, log[i], k) && Max(lo - w, t) <= k < lo;
        StoredSlot(c, s, log, t, read, i, k);
      }
    }
  }

  /** A command of this direction on rank q. */
  predicate OnRank(x: Cmd, q: nat, write: bool) {
    (if write then Writes(x) else Reads(x)) && x.bk.rank == q
  }

  lemma EndExact(c: Config, s: Mc, log: seq<Cmd>, t: int, q: nat, write: bool, w: nat)
    requires c.pi > 0 && Shape(s) && BusInv(c, s, log, t) && From(c, s, log) && q < |s.lastAct|
    ensures (if write then s.lastWr[q] else s.lastRdRank[q]) + w <= t <==>
      w <= t && forall i :: 0 <= i < |log| && OnRank(log[i], q, write) ==> BurstEnd(c, log[i].t) + w <= t
  {
    var e := if write then s.lastWr[q] else s.lastRdRank[q];
    assert EndFrom(c, e, q, log, write);
    assert Ticks(c, c.tCL + c.tBL) >= 0;
    forall i | 0 <= i < |log| && OnRank(log[i], q, write) ensures 0 <= BurstEnd(c, log[i].t) <= e {
      assert ColInv(c, s, log[i], t);
    }
  }

  lemma ReadGapExact(c: Config, s: Mc, log: seq<Cmd>, t: int, q: nat)
    requires c.pi > 0 && Shape(s) && BusInv(c, s, log, t) && From(c, s, log)
    ensures (s.lastRd.0 != q ==> Ticks(c, c.tRRBUB) + s.lastRd.1 <= t) <==>
      && ((forall i :: 0 <= i < |log| ==> !Reads(log[i])) && q != 0 ==> Ticks(c, c.tRRBUB) <= t)
      && forall i :: 0 <= i < |log| && Reads(log[i]) && log[i].bk.rank != q ==> log[i].t + Ticks(c, c.tRRBUB) <= t
  {
    assert Ticks(c, c.tRRBUB) >= 0;
    forall i | 0 <= i < |log| && Reads(log[i])
      ensures log[i].t <= s.lastRd.1 <= t && (log[i].bk.rank != s.lastRd.0 ==> log[i].t + Ticks(c, c.tRRBUB) <= s.lastRd.1)
    {
      assert ColInv(c, s, log[i], t);
    }
  }

  ghost predicate BusClear(c: Config, log: seq<Cmd>, r: Req, t: int) {
    var lo, hi := t + Ticks(c, c.tCL), t + Ticks(c, c.tCL + c.tBL);
    forall i :: 0 <= i < |log| && Concerns(c, log[i], IsRead(r.typ)) ==> !SlotIn(c, log[i], lo, hi)
  }

  ghost predicate BubbleClear(c: Config, log: seq<Cmd>, r: Req, t: int) {
    var lo, w := t + Ticks(c, c.tCL), Ticks(c, if IsRead(r.typ) then c.tWRBUB else c.tRWBUB);
    !c.fullDuplex && w <= lo ==>
      forall i :: 0 <= i < |log| && log[i].Col? && IsRead(log[i].r.typ) != IsRead(r.typ) ==> !SlotIn(c, log[i], Max(lo - w, t), lo)
  }

  ghost predicate RankClear(c: Config, log: seq<Cmd>, r: Req, t: int) {
    var read := IsRead(r.typ);
    (read ==> c.tWTR > 0) ==>
      forall i :: 0 <= i < |log| && OnRank(log[i], r.bk.rank, read) ==> BurstEnd(c, log[i].t) + Ticks(c, if read then c.tWTR else c.tRWBUB) <= t
  }

  ghost predicate GapClear(c: Config, log: seq<Cmd>, r: Req, t: int) {
    IsRead(r.typ) ==>
      forall i :: 0 <= i < |log| && Reads(log[i]) && log[i].bk.rank != r.bk.rank ==> log[i].t + Ticks(c, c.tRRBUB) <= t
  }

  /** The conditions of Allows, one after the other. */
  ghost predicate AllApart(c: Config, log: seq<Cmd>, r: Req, t: int) {
    BusClear(c, log, r, t) && BubbleClear(c, log, r, t) && RankClear(c, log, r, t) && GapClear(c, log, r, t)
  }

  lemma CollectAllows(c: Config, s: Mc, log: seq<Cmd>, t: int, r: Req)
    ensures (forall i :: 0 <= i < |log| && log[i].Col? ==> Allows(c, log[i], r, t)) <==> AllApart(c, log, r, t)
  {
    hide SlotIn, Ticks;
    if AllApart(c, log, r, t) {
      forall i | 0 <= i < |log| && log[i].Col? ensures Allows(c, log[i], r, t) {
        assert Concerns(c, log[i], IsRead(r.typ)) <==> !c.fullDuplex || IsRead(log[i].r.typ) == IsRead(r.typ);
      }
    }
  }

  lemma WiresExact(c: Config, s: Mc, log: seq<Cmd>, t: int, r: Req)
    requires c.pi > 0 && Shape(s) && BusInv(c, s, log, t) && From(c, s, log) && Current(s, t)
    ensures var lo, hi := t + Ticks(c, c.tCL), t + Ticks(c, c.tCL + c.tBL);
      && (Free(MapFor(c, s, IsRead(r.typ)), lo, hi) <==> BusClear(c, log, r, t))
      && ((!c.fullDuplex ==> !Bubble(s.dp, lo, Ticks(c, if IsRead(r.typ) then c.tWRBUB else c.tRWBUB), if IsRead(r.typ) then Write else Read))
            <==> BubbleClear(c, log, r, t))
  {
    var read := IsRead(r.typ);
    var lo, hi := t + Ticks(c, c.tCL), t + Ticks(c, c.tCL + c.tBL);
    assert Ticks(c, c.tCL) >= 0;
    SlotsExact(c, s, log, t, read, lo, hi);
    if !c.fullDuplex { BubbleSlots(c, s, log, t, read, lo, Ticks(c, if read then c.tWRBUB else c.tRWBUB)); }
    hide Free, Bubble, SlotIn, BusInv, From, Ticks, Current;
  }

  lemma RanksExact(c: Config, s: Mc, log: seq<Cmd>, t: int, r: Req)
    requires c.pi > 0 && Shape(s) && WfReq(s, r) && BusInv(c, s, log, t) && From(c, s, log)
    ensures var rank := r.bk.rank;
      (if IsRead(r.typ) then
         && (c.tWTR > 0 ==> s.lastWr[rank] + Ticks(c, c.tWTR) <= t)
         && (s.lastRd.0 != rank ==> Ticks(c, c.tRRBUB) + s.lastRd.1 <= t)
       else s.lastRdRank[rank] + Ticks(c, c.tRWBUB) <= t)
      <==> StartAllows(c, log, r, t) && RankClear(c, log, r, t) && GapClear(c, log, r, t)
  {
    var read := IsRead(r.typ);
    EndExact(c, s, log, t, r.bk.rank, read, Ticks(c, if read then c.tWTR else c.tRWBUB));
    ReadGapExact(c, s, log, t, r.bk.rank);
    hide BusInv, From, Ticks;
  }

  /** The bus conditions on the stored times and slots say exactly what the history says. */
  lemma BusExact(c: Config, s: Mc, log: seq<Cmd>, t: int, r: Req)
    requires c.pi > 0 && Shape(s) && WfReq(s, r) && BusInv(c, s, log, t) && From(c, s, log) && Current(s, t)
    ensures BusAllows(c, s, r, t) <==> StartAllows(c, log, r, t) && forall i :: 0 <= i < |log| && log[i].Col? ==> Allows(c, log[i], r, t)
  {
    WiresExact(c, s, log, t, r);
    RanksExact(c, s, log, t, r);
    CollectAllows(c, s, log, t, r);
    hide Free, Bubble, BusInv, From, Ticks, Current, BusClear, BubbleClear, RankClear, GapClear, StartAllows, Allows;
  }

  lemma RunCurrent(c: Config, s: Mc, inputs: seq<Input>, t: int, arrivals: seq<Req>)
    requires ValidConfig(c) && Initial(c, s) && Shape(s) && ValidInputs(c, s, inputs) && LastTime(inputs) <= t && t % c.pi == 0
    requires WfArrivals(Run(c, s, inputs).s, arrivals)
    ensures var tr := Run(c, s, inputs);
      var s1 := Ready(c, tr.s, t, arrivals);
      Shape(s1) && BusInv(c, s1, tr.log, t) && From(c, s1, tr.log) && Current(s1, t)
  {
    var tr := Run(c, s, inputs);
    RunBus(c, s, inputs);
    RunFrom(c, s, inputs);
    ReadyBus(c, tr.s, tr.log, LastTime(inputs), t, arrivals);
    ReadyFrom(c, tr.s, t, arrivals, tr.log);
  }

  /** In every run a request whose bank is ready with its row open may get its column command exactly when
      the history allows it. */
  lemma ColumnsWaitExactly(c: Config, s: Mc, inputs: seq<Input>, t: int, arrivals: seq<Req>, i: nat)
    requires ValidConfig(c) && Initial(c, s) && Shape(s) && ValidInputs(c, s, inputs) && LastTime(inputs) <= t && t % c.pi == 0
    requires WfArrivals(Run(c, s, inputs).s, arrivals) && i < |Run(c, s, inputs).s.req| + |arrivals|
    ensures var log, s1 := Run(c, s, inputs).log, Ready(c, Run(c, s, inputs).s, t, arrivals);
      && Shape(s1) && i < |s1.req|
      && var r := s1.req[i];
         var b := s1.banks[r.bk];
         HitOk(c, s1, i, t) <==>
           && BankReady(c, b, t) && IsOpen(b) && b.page == r.page
           && StartAllows(c, log, r, t) && forall k :: 0 <= k < |log| && log[k].Col? ==> Allows(c, log[k], r, t)
  {
    RunCurrent(c, s, inputs, t, arrivals);
    var s1 := Ready(c, Run(c, s, inputs).s, t, arrivals);
    assert |s1.req| == |Run(c, s, inputs).s.req| + |arrivals|;
    assert WfReq(s1, s1.req[i]);
    hide BusInv, From, Current, Ready, Run, BusAllows, BankReady, Allows, StartAllows;
    BusExact(c, s1, Run(c, s, inputs).log, t, s1.req[i]);
  }

  // ---------------------------------------------------------------- row commands

  /** In every run a rank may be activated exactly tRR after its latest activate, at the start after time 0. */
  lemma RowsWaitExactly(c: Config, s: Mc, inputs: seq<Input>, t: int, q: nat)
    requires ValidConfig(c) && Initial(c, s) && Shape(s) && ValidInputs(c, s, inputs) && LastTime(inputs) <= t && q < |s.lastAct|
    ensures var tr := Run(c, s, inputs);
      && q < |tr.s.lastAct|
      && (tr.s.lastAct[q] + Ticks(c, c.tRR) <= t <==>
            Ticks(c, c.tRR) <= t && forall k :: 0 <= k < |tr.log| && tr.log[k].Act? && tr.log[k].bk.rank == q ==> tr.log[k].t + Ticks(c, c.tRR) <= t)
  {
    var tr := Run(c, s, inputs);
    RunFrom(c, s, inputs);
    RunTiming(c, s, inputs);
    RunTimes(c, s, inputs);
    assert ActFrom(tr.s.lastAct[q], q, tr.log);
  }

  lemma {:induction false} RunTimes(c: Config, s: Mc, inputs: seq<Input>)
    requires ValidConfig(c) && Shape(s) && ValidInputs(c, s, inputs)
    ensures forall k :: 0 <= k < |Run(c, s, inputs).log| ==> Run(c, s, inputs).log[k].t >= 0
  {
    if inputs != [] {
      var n := |inputs| - 1;
      ValidPrefix(c, s, inputs, n);
      RunTimes(c, s, inputs[..n]);
      var tr := Run(c, s, inputs[..n]);
      assert WfArrivals(tr.s, inputs[n].arrivals);
      StepTimes(c, tr.s, inputs[n].t, inputs[n].arrivals);
      hide Step;
    }
  }

  lemma StepTimes(c: Config, s: Mc, t: int, arrivals: seq<Req>)
    requires Shape(s) && WfArrivals(s, arrivals)
    ensures var cmds := Step(c, s, t, arrivals).1; forall k :: 0 <= k < |cmds| ==> cmds[k].t == t
  {
    ReadyShape(c, s, t, arrivals);
    hide Ready, Selected, IssueAct, IssuePre, IssueCol, KeepOpen;
  }

  // ---------------------------------------------------------------- banks

  /** The latest command for the bank. */
  ghost predicate Latest(log: seq<Cmd>, bk: BankId, i: int) {
    0 <= i < |log| && log[i].bk == bk && forall k :: i < k < |log| ==> log[k].bk != bk
  }

  /** When the row of the bank was opened, 0 if never. */
  function OpenedAt(log: seq<Cmd>, bk: BankId): int {
    if log == [] then 0
    else var x := log[|log| - 1]; if x.Act? && x.bk == bk then x.t else OpenedAt(log[..|log| - 1], bk)
  }

  /** The earliest time for the next command of the bank, from its latest command and its latest activate: after
      an activate tRCD and tBBL, after a column command tBBL, counted from the end of tRAS under a policy that
      closes rows, and after a precharge twice tRP from the end of tRAS. */
  function ReadyAt(c: Config, x: Cmd, since: int): int {
    match x
    case Act(t, bk, page) => t + Max(Ticks(c, c.tRCD), Ticks(c, c.tBBL))
    case Pre(t, bk) => Max(t, since + Ticks(c, c.tRAS)) + 2 * Ticks(c, c.tRP)
    case Col(t, bk, r, autoPre) =>
      if autoPre then Max(t, since + Ticks(c, c.tRAS)) + 2 * Ticks(c, c.tRP)
      else (if c.policy.Open? then t else Max(t, since + Ticks(c, c.tRAS))) + Ticks(c, c.tBBL)
  }

  /** The stored state of a bank says no more and no less than its history. */
  ghost predicate BankFrom(c: Config, b: Bank, bk: BankId, log: seq<Cmd>) {
    && b.lastAct == OpenedAt(log, bk)
    && (b.action.Idle? ==> (forall k :: 0 <= k < |log| ==> log[k].bk != bk) && b.actionTime == 0)
    && (!b.action.Idle? ==> exists i :: Latest(log, bk, i) && StoredAs(c, b, log[i]))
  }

  ghost predicate StoredAs(c: Config, b: Bank, x: Cmd) {
    && (forall t :: BankReady(c, b, t) <==> ReadyAt(c, x, b.lastAct) <= t)
    && (IsOpen(b) <==> x.Act? || (x.Col? && !x.autoPre))
    && (x.Act? ==> b.page == x.page && b.lastAct == x.t)
  }

  lemma LatestMore(log: seq<Cmd>, bk: BankId, i: int, x: Cmd)
    requires Latest(log, bk, i) && x.bk != bk
    ensures Latest(log + [x], bk, i)
  {
  }

  lemma OtherBank(c: Config, b: Bank, bk: BankId, log: seq<Cmd>, x: Cmd)
    requires BankFrom(c, b, bk, log) && x.bk != bk
    ensures BankFrom(c, b, bk, log + [x])
  {
    var log' := log + [x];
    assert log'[..|log|] == log;
    if !b.action.Idle? {
      var i :| Latest(log, bk, i) && StoredAs(c, b, log[i]);
      LatestMore(log, bk, i, x);
      assert log'[i] == log[i];
    }
  }

  lemma NewLatest(c: Config, b: Bank, log: seq<Cmd>, x: Cmd)
    requires !b.action.Idle? && StoredAs(c, b, x) && b.lastAct == if x.Act? then x.t else OpenedAt(log, x.bk)
    ensures BankFrom(c, b, x.bk, log + [x])
  {
    var log' := log + [x];
    assert log'[..|log|] == log && log'[|log|] == x;
    assert Latest(log', x.bk, |log|);
  }

  ghost predicate BanksFrom(c: Config, banks: map<BankId, Bank>, log: seq<Cmd>) {
    forall bk :: bk in banks ==> BankFrom(c, banks[bk], bk, log)
  }

  lemma BanksMore(c: Config, banks: map<BankId, Bank>, log: seq<Cmd>, b: Bank, x: Cmd)
    requires BanksFrom(c, banks, log) && x.bk in banks && BankFrom(c, b, x.bk, log + [x])
    ensures BanksFrom(c, banks[x.bk := b], log + [x])
  {
    forall bk | bk in banks && bk != x.bk ensures BankFrom(c, banks[bk], bk, log + [x]) { OtherBank(c, banks[bk], bk, log, x); }
  }

  lemma ActStored(c: Config, t: int, bk: BankId, page: nat)
    ensures StoredAs(c, Bank(t, page, Activate, t), Act(t, bk, page))
  {
    assert Ticks(c, c.tRCD) >= 0;
    hide Ticks;
  }

  lemma PreStored(c: Config, b: Bank, t: int, bk: BankId)
    ensures StoredAs(c, b.(actionTime := Ticks(c, c.tRP) + Max(t, Ticks(c, c.tRAS) + b.lastAct), action := Precharge), Pre(t, bk))
  {
    assert Ticks(c, c.tRP) >= 0;
    hide Ticks;
  }

  lemma ColStored(c: Config, s: Mc, t: int, i: nat)
    requires Shape(s) && i < |s.req|
    ensures StoredAs(c, BankAfterColumn(c, s, t, i), Col(t, s.req[i].bk, s.req[i], !c.policy.Open? && !KeepOpen(c, s, i)))
  {
    assert Ticks(c, c.tRP) >= 0 && Ticks(c, c.tBBL) >= 0;
    hide Ticks, KeepOpen;
  }

  lemma RowBanks(c: Config, s: Mc, t: int, i: nat, log: seq<Cmd>)
    requires Shape(s) && i < |s.req| && BanksFrom(c, s.banks, log)
    ensures var r := s.req[i];
      && BanksFrom(c, IssueAct(s, t, i).banks, log + [Act(t, r.bk, r.page)])
      && BanksFrom(c, IssuePre(c, s, t, i).banks, log + [Pre(t, r.bk)])
  {
    var r := s.req[i];
    assert WfReq(s, r);
    var b := s.banks[r.bk];
    assert BankFrom(c, b, r.bk, log);
    hide BanksFrom, StoredAs;
    ActStored(c, t, r.bk, r.page);
    NewLatest(c, Bank(t, r.page, Activate, t), log, Act(t, r.bk, r.page));
    BanksMore(c, s.banks, log, Bank(t, r.page, Activate, t), Act(t, r.bk, r.page));
    PreStored(c, b, t, r.bk);
    var b' := b.(actionTime := Ticks(c, c.tRP) + Max(t, Ticks(c, c.tRAS) + b.lastAct), action := Precharge);
    NewLatest(c, b', log, Pre(t, r.bk));
    BanksMore(c, s.banks, log, b', Pre(t, r.bk));
  }

  lemma ColBanks(c: Config, s: Mc, t: int, i: nat, log: seq<Cmd>)
    requires Shape(s) && i < |s.req| && BanksFrom(c, s.banks, log)
    ensures var r := s.req[i]; BanksFrom(c, IssueCol(c, s, t, i).banks, log + [Col(t, r.bk, r, !c.policy.Open? && !KeepOpen(c, s, i))])
  {
    var r := s.req[i];
    assert WfReq(s, r);
    assert BankFrom(c, s.banks[r.bk], r.bk, log);
    var x, b' := Col(t, r.bk, r, !c.policy.Open? && !KeepOpen(c, s, i)), BankAfterColumn(c, s, t, i);
    ColStored(c, s, t, i);
    assert !b'.action.Idle? && b'.lastAct == s.banks[r.bk].lastAct;
    hide BanksFrom, StoredAs, BankAfterColumn, KeepOpen, Burst;
    NewLatest(c, b', log, x);
    BanksMore(c, s.banks, log, b', x);
  }

  lemma IssueBanks(c: Config, s: Mc, t: int, i: nat, log: seq<Cmd>)
    requires Shape(s) && i < |s.req| && BanksFrom(c, s.banks, log)
    ensures var (s', cmds) := Issue(c, s, t, i); BanksFrom(c, s'.banks, log + cmds)
  {
    assert log + [] == log;
    hide BanksFrom, IssueAct, IssuePre, IssueCol, KeepOpen;
    RowBanks(c, s, t, i, log);
    ColBanks(c, s, t, i, log);
  }

  lemma StepBanks(c: Config, tr: Trace, input: Input)
    requires Shape(tr.s) && WfArrivals(tr.s, input.arrivals) && BanksFrom(c, tr.s.banks, tr.log)
    ensures var tr' := StepTrace(c, tr, input); BanksFrom(c, tr'.s.banks, tr'.log)
  {
    var s1 := Ready(c, tr.s, input.t, input.arrivals);
    ReadyShape(c, tr.s, input.t, input.arrivals);
    assert s1.banks == tr.s.banks;
    var i := Selected(c, s1, input.t);
    hide BanksFrom, Ready, Issue;
    if i >= 0 { IssueBanks(c, s1, input.t, i, tr.log); } else { assert tr.log + [] == tr.log; }
  }

  lemma {:induction false} RunBanksFrom(c: Config, s: Mc, inputs: seq<Input>)
    requires ValidConfig(c) && Initial(c, s) && Shape(s) && ValidInputs(c, s, inputs)
    ensures BanksFrom(c, Run(c, s, inputs).s.banks, Run(c, s, inputs).log)
  {
    if inputs != [] {
      var n := |inputs| - 1;
      ValidPrefix(c, s, inputs, n);
      RunBanksFrom(c, s, inputs[..n]);
      StepBanks(c, Run(c, s, inputs[..n]), inputs[n]);
    }
  }

  predicate WaitsFor(c: Config, b: Bank, x: Cmd, since: int, t: int) {
    (BankReady(c, b, t) <==> ReadyAt(c, x, since) <= t) && (IsOpen(b) <==> x.Act? || (x.Col? && !x.autoPre))
  }

  /** In every run a bank that has had no command is ready from time 0 on and closed, and any other is ready
      exactly from the time on that its latest command and its latest activate ask for, and open exactly if
      the latest command left it open. */
  lemma BanksWaitExactly(c: Config, s: Mc, inputs: seq<Input>, bk: BankId, t: int)
    requires ValidConfig(c) && Initial(c, s) && Shape(s) && ValidInputs(c, s, inputs) && bk in s.banks
    ensures var log := Run(c, s, inputs).log;
      && bk in Run(c, s, inputs).s.banks
      && var b := Run(c, s, inputs).s.banks[bk];
         if forall k :: 0 <= k < |log| ==> log[k].bk != bk then (BankReady(c, b, t) <==> 0 <= t) && !IsOpen(b)
         else exists i :: Latest(log, bk, i) && WaitsFor(c, b, log[i], OpenedAt(log, bk), t)
  {
    RunBanksFrom(c, s, inputs);
    var log, b := Run(c, s, inputs).log, Run(c, s, inputs).s.banks[bk];
    assert BankFrom(c, b, bk, log);
    hide Run, BanksFrom;
    if !b.action.Idle? {
      var i :| Latest(log, bk, i) && StoredAs(c, b, log[i]);
      assert WaitsFor(c, b, log[i], OpenedAt(log, bk), t);
    }
  }
}
