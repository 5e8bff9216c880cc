/** The controller drains its queue under every policy, within a bound that is explicit in the configuration. */
module DramDrain {
  import opened Dram
  import opened DramTiming
  import opened DramBatch
  import opened DramClosedPage
  import DramOpenPage
  import opened Arithmetic

  // ---------------------------------------------------------------- every wait is bounded

  /** No stored time lies further in the future of `now` than the longest action takes. */
  ghost predicate Stamps(c: Config, s: Mc, now: int) {
    && (forall bk :: bk in s.banks ==> s.banks[bk].actionTime <= now + Ticks(c, c.tRP) + Ticks(c, c.tRAS) && s.banks[bk].lastAct <= now)
    && (forall r :: 0 <= r < |s.lastAct| ==> s.lastAct[r] <= now)
    && (forall r :: 0 <= r < |s.lastWr| ==> s.lastWr[r] <= now + Ticks(c, c.tCL + c.tBL))
    && (forall r :: 0 <= r < |s.lastRdRank| ==> s.lastRdRank[r] <= now + Ticks(c, c.tCL + c.tBL))
    && s.lastRd.1 <= now
    && SlotsBefore(s.dp, now + Ticks(c, c.tCL + c.tBL))
    && SlotsBefore(s.rdDp, now + Ticks(c, c.tCL + c.tBL))
    && SlotsBefore(s.wrDp, now + Ticks(c, c.tCL + c.tBL))
  }

  ghost predicate SlotsBefore(m: map<int, Action>, bound: int) {
    forall k :: k in m ==> k < bound
  }

  lemma StampsLater(c: Config, s: Mc, now: int, t: int)
    requires Stamps(c, s, now) && now <= t
    ensures Stamps(c, s, t)
  {
  }

  lemma ReadyStamps(c: Config, s: Mc, now: int, t: int, arrivals: seq<Req>)
    requires Stamps(c, s, now)
    ensures Stamps(c, Ready(c, s, t, arrivals), now)
  {
  }

  lemma BurstBefore(c: Config, t: int, a: Action)
    requires c.pi > 0
    ensures SlotsBefore(Burst(c, t, a), t + Ticks(c, c.tCL + c.tBL))
  {
    forall k | k in SlotsUpTo(c, t, c.tBL) ensures k < t + Ticks(c, c.tCL + c.tBL) {
      var j: nat :| j < c.tBL && k == Slot(c, t, j);
      MulLess(c.tCL + j, c.tCL + c.tBL, c.pi);
    }
  }

  lemma RecordedBefore(c: Config, m: map<int, Action>, t: int, a: Action)
    requires c.pi > 0 && SlotsBefore(m, t + Ticks(c, c.tCL + c.tBL))
    ensures SlotsBefore(Burst(c, t, a) + m, t + Ticks(c, c.tCL + c.tBL))
  {
    BurstBefore(c, t, a);
  }

  lemma RowStamps(c: Config, s: Mc, t: int, i: nat)
    requires Shape(s) && i < |s.req| && Stamps(c, s, t)
    ensures Stamps(c, IssueAct(s, t, i), t) && Stamps(c, IssuePre(c, s, t, i), t)
  {
    hide Ticks, SlotsBefore;
  }

  lemma ColStamps(c: Config, s: Mc, t: int, i: nat)
    requires c.pi > 0 && Shape(s) && i < |s.req| && Stamps(c, s, t)
    ensures Stamps(c, IssueCol(c, s, t, i), t)
  {
    var a := ActionOf(s.req[i].typ);
    RecordedBefore(c, s.dp, t, a);
    RecordedBefore(c, s.rdDp, t, a);
    RecordedBefore(c, s.wrDp, t, a);
    hide Ticks, Burst, SlotsBefore, KeepOpen;
  }

  lemma IssueStamps(c: Config, s: Mc, t: int, i: nat)
    requires c.pi > 0 && Shape(s) && i < |s.req| && Stamps(c, s, t)
    ensures Stamps(c, Issue(c, s, t, i).0, t)
  {
    RowStamps(c, s, t, i);
    ColStamps(c, s, t, i);
    hide Stamps;
  }

  /** After this many intervals without a command, every timing wait has expired. */
  function Wait(c: Config): nat {
    2 * c.tRP + c.tRAS + c.tRCD + c.tBBL + c.tRR + c.tCL + c.tBL + c.tWTR + c.tRRBUB + c.tWRBUB + c.tRWBUB
  }

  lemma NextTick(c: Config, k: nat)
    ensures Ticks(c, k + 1) == Ticks(c, k) + c.pi
  {
  }

  lemma WaitExpands(c: Config)
    ensures Ticks(c, Wait(c)) ==
              2 * Ticks(c, c.tRP) + Ticks(c, c.tRAS) + Ticks(c, c.tRCD) + Ticks(c, c.tBBL) + Ticks(c, c.tRR)
              + Ticks(c, c.tCL) + Ticks(c, c.tBL) + Ticks(c, c.tWTR) + Ticks(c, c.tRRBUB)
              + Ticks(c, c.tWRBUB) + Ticks(c, c.tRWBUB)
    ensures Ticks(c, c.tCL + c.tBL) == Ticks(c, c.tCL) + Ticks(c, c.tBL)
  {
  }

  lemma QuietBank(c: Config, s: Mc, now: int, t: int, bk: BankId)
    requires Stamps(c, s, now) && bk in s.banks && now + Ticks(c, Wait(c)) <= t
    ensures BankReady(c, s.banks[bk], t)
  {
    WaitExpands(c);
    hide Ticks;
  }

  lemma QuietBus(c: Config, s: Mc, now: int, t: int, r: Req)
    requires Shape(s) && WfReq(s, r) && Stamps(c, s, now) && now + Ticks(c, Wait(c)) <= t
    ensures BusAllows(c, s, r, t)
  {
    WaitExpands(c);
    hide Ticks;
  }

  /** Once the waits have expired, a non-empty queue has something to issue. */
  lemma QuietIssuable(c: Config, s: Mc, now: int, t: int)
    requires ValidConfig(c) && Shape(s) && (!c.policy.Open? ==> OpenWanted(c, s)) && Stamps(c, s, now) && s.req != []
    requires now + Ticks(c, Wait(c)) <= t
    ensures AnyIssuable(c, s, t)
  {
    var bk := s.req[0].bk;
    QuietBank(c, s, now, t, bk);
    WaitExpands(c);
    if c.policy.Open? {
      forall j: nat | j < |s.req| ensures BusAllows(c, s, s.req[j], t) { QuietBus(c, s, now, t, s.req[j]); }
      hide Ticks, BusAllows;
      DramOpenPage.HeadIssuable(c, s, t);
    } else if IsOpen(s.banks[bk]) {
      assert Wanted(c, s, bk, s.banks[bk].page);
      var j: nat :| j < |s.req| && j < c.window && WantsRow(s, j, bk, s.banks[bk].page);
      QuietBus(c, s, now, t, s.req[j]);
      assert Issuable(c, s, j, t);
    } else {
      assert Issuable(c, s, 0, t);
    }
  }

  // ---------------------------------------------------------------- every command is progress

  /** Commands still owed, by the measure of the policy. */
  ghost function Left(c: Config, s: Mc): int {
    if c.policy.Open? then DramOpenPage.Owed(c, s) else Owed(s)
  }

  ghost predicate DrainInv(c: Config, s: Mc, now: int) {
    ValidConfig(c) && Shape(s) && BatchInv(c, s) && (!c.policy.Open? ==> OpenWanted(c, s)) && Stamps(c, s, now)
  }

  /** Under every policy the selected command decreases what is left. */
  lemma SelectedDecreases(c: Config, s: Mc, t: int, i: nat)
    requires DrainInv(c, s, t) && IsSelected(c, s, t, i)
    ensures var s' := Issue(c, s, t, i).0; DrainInv(c, s', t) && Left(c, s') < Left(c, s)
  {
    IssueStamps(c, s, t, i);
    IssueShape(c, s, t, i);
    IssueBatch(c, s, t, i);
    hide Stamps, BatchInv, OpenWanted, Issue;
    if c.policy.Open? {
      DramOpenPage.CommandDecreases(c, s, t, i);
    } else {
      CommandDecreases(c, s, t, i);
    }
  }

  /** Time passes and requests arrive. */
  lemma ReadyDrains(c: Config, s: Mc, now: int, t: int, arrivals: seq<Req>)
    requires DrainInv(c, s, now) && now <= t && WfArrivals(s, arrivals)
    ensures DrainInv(c, Ready(c, s, t, arrivals), now) && DrainInv(c, Ready(c, s, t, arrivals), t)
  {
    ReadyShape(c, s, t, arrivals);
    ReadyBatch(c, s, t, arrivals);
    if !c.policy.Open? { ReadyWanted(c, s, t, arrivals); }
    ReadyStamps(c, s, now, t, arrivals);
    StampsLater(c, Ready(c, s, t, arrivals), now, t);
    hide Stamps, BatchInv, OpenWanted, Ready;
  }

  // ---------------------------------------------------------------- draining

  /** The state after n calls without arrivals at times t, t + pi, t + 2 pi, ... */
  ghost function Quiet(c: Config, s: Mc, t: int, n: nat): Mc
    requires Shape(s)
    decreases n
  {
    if n == 0 then s
    else
      StepShape(c, s, t, []);
      Quiet(c, Step(c, s, t, []).0, t + c.pi, n - 1)
  }

  lemma NothingArrives(c: Config, s: Mc, t: int)
    requires BatchInv(c, s) && ValidConfig(c)
    ensures Ready(c, s, t, []) == Prune(s, t)
  {
    assert s.req + [] == s.req;
    assert EnqueueAll(c, s, []).cnt == s.cnt;
  }

  lemma SameLeft(c: Config, s: Mc, t: int)
    requires BatchInv(c, s) && ValidConfig(c)
    ensures Ready(c, s, t, []).req == s.req && Left(c, Ready(c, s, t, [])) == Left(c, s)
  {
    NothingArrives(c, s, t);
    var s1 := Ready(c, s, t, []);
    DramOpenPage.SameOwed(c, s, s1);
    assert OpenBanks(s1) == OpenBanks(s);
  }

  /** One quiet call issues a command, which decreases what is left, or changes nothing that
      matters; it can only do the latter while some wait has not expired. */
  lemma QuietStep(c: Config, s: Mc, now: int, t: int)
    requires DrainInv(c, s, now) && now <= t
    ensures var s' := Step(c, s, t, []).0;
            || (DrainInv(c, s', t) && Left(c, s') < Left(c, s))
            || (DrainInv(c, s', now) && s'.req == s.req && Left(c, s') == Left(c, s)
                && (s.req == [] || t < now + Ticks(c, Wait(c))))
  {
    var s1 := Ready(c, s, t, []);
    ReadyDrains(c, s, now, t, []);
    SameLeft(c, s, t);
    var i := Selected(c, s1, t);
    if i >= 0 {
      SelectedDecreases(c, s1, t, i);
    } else if s.req != [] && now + Ticks(c, Wait(c)) <= t {
      QuietIssuable(c, s1, now, t);
      SelectedExists(c, s1, t);
    }
  }

  /** Calls within which `owed` commands are issued. */
  function Calls(c: Config, owed: int): int {
    owed * (Wait(c) + 1)
  }

  /** k is the number of calls already spent waiting since the last command. */
  lemma {:induction false} DrainsFrom(c: Config, s: Mc, now: int, t: int, k: nat, n: nat)
    requires DrainInv(c, s, now)
    requires now + Ticks(c, k) <= t && k <= Wait(c)
    requires n >= Calls(c, Left(c, s)) - k
    ensures Quiet(c, s, t, n).req == []
    decreases n
  {
    hide *;
    if n == 0 || s.req == [] {
      AlreadyDrained(c, s, now, t, k, n);
    } else {
      var s', now', k' := OneQuietCall(c, s, now, t, k, n);
      DrainsFrom(c, s', now', t + c.pi, k', n - 1);
    }
  }

  lemma OneQuietCall(c: Config, s: Mc, now: int, t: int, k: nat, n: nat) returns (s': Mc, now': int, k': nat)
    requires DrainInv(c, s, now) && s.req != [] && n > 0
    requires now + Ticks(c, k) <= t && k <= Wait(c)
    requires n >= Calls(c, Left(c, s)) - k
    ensures DrainInv(c, s', now') && now' + Ticks(c, k') <= t + c.pi && k' <= Wait(c)
    ensures n - 1 >= Calls(c, Left(c, s')) - k'
    ensures Shape(s) && Shape(s') && Quiet(c, s, t, n) == Quiet(c, s', t + c.pi, n - 1)
  {
    NoTicksBack(c, k);
    QuietStep(c, s, now, t);
    QuietUnfold(c, s, t, n);
    s' := Step(c, s, t, []).0;
    hide *;
    now', k' := DrainsOnward(c, s, s', now, t, k, n);
  }

  lemma NoTicksBack(c: Config, k: nat)
    ensures Ticks(c, k) >= 0
  {
  }

  lemma AlreadyDrained(c: Config, s: Mc, now: int, t: int, k: nat, n: nat)
    requires DrainInv(c, s, now) && k <= Wait(c)
    requires n >= Calls(c, Left(c, s)) - k
    requires n == 0 || s.req == []
    ensures Quiet(c, s, t, n).req == []
  {
    if s.req == [] {
      StaysEmpty(c, s, t, n);
    } else {
      if !c.policy.Open? { OwedBound(c, s); }
      NothingOwed(c, Left(c, s), k);
    }
  }

  lemma QuietUnfold(c: Config, s: Mc, t: int, n: nat)
    requires Shape(s) && n > 0
    ensures Shape(Step(c, s, t, []).0)
    ensures Quiet(c, s, t, n) == Quiet(c, Step(c, s, t, []).0, t + c.pi, n - 1)
  {
    StepShape(c, s, t, []);
  }

  /** The waiting count to continue with after one quiet call. */
  lemma DrainsOnward(c: Config, s: Mc, s': Mc, now: int, t: int, k: nat, n: nat) returns (now': int, k': nat)
    requires || (DrainInv(c, s', t) && Left(c, s') < Left(c, s))
             || (DrainInv(c, s', now) && Left(c, s') == Left(c, s) && t < now + Ticks(c, Wait(c)))
    requires now + Ticks(c, k) <= t && k <= Wait(c)
    requires n >= Calls(c, Left(c, s)) - k
    ensures DrainInv(c, s', now') && now' + Ticks(c, k') <= t + c.pi && k' <= Wait(c)
    ensures n - 1 >= Calls(c, Left(c, s')) - k'
  {
    hide *;
    if DrainInv(c, s', t) && Left(c, s') < Left(c, s) {
      OwedStep(c, Left(c, s'), Left(c, s));
      NoTicks(c);
      now', k' := t, 0;
    } else {
      NextTick(c, k);
      now', k' := now, k + 1;
    }
  }

  lemma NoTicks(c: Config)
    ensures Ticks(c, 0) == 0
  {
  }

  lemma NothingOwed(c: Config, a: int, k: nat)
    requires Calls(c, a) <= k <= Wait(c)
    ensures a <= 0
  {
    if a >= 1 { MulAtLeast(a, Wait(c) + 1); }
  }

  lemma OwedStep(c: Config, a: int, b: int)
    requires a < b
    ensures Calls(c, a) + Wait(c) + 1 <= Calls(c, b)
  {
    var w := Wait(c) + 1;
    MulAtLeast(b - a, w);
    assert b * w == a * w + (b - a) * w;
  }

  lemma {:induction false} StaysEmpty(c: Config, s: Mc, t: int, n: nat)
    requires Shape(s) && s.req == []
    ensures Quiet(c, s, t, n).req == []
    decreases n
  {
    if n > 0 {
      StepShape(c, s, t, []);
      StaysEmpty(c, Step(c, s, t, []).0, t + c.pi, n - 1);
    }
  }

  lemma InitialDrainInv(c: Config, s: Mc)
    requires ValidConfig(c) && Initial(c, s) && Shape(s)
    ensures DrainInv(c, s, 0)
  {
    assert Ticks(c, c.tRP) >= 0 && Ticks(c, c.tRAS) >= 0 && Ticks(c, c.tCL + c.tBL) >= 0;
  }

  lemma StepDrainInv(c: Config, s: Mc, now: int, t: int, arrivals: seq<Req>)
    requires DrainInv(c, s, now) && now <= t && WfArrivals(s, arrivals)
    ensures DrainInv(c, Step(c, s, t, arrivals).0, t)
  {
    var s1 := Ready(c, s, t, arrivals);
    ReadyDrains(c, s, now, t, arrivals);
    var i := Selected(c, s1, t);
    if i >= 0 { SelectedDecreases(c, s1, t, i); }
  }

  lemma {:induction false} RunDrainInv(c: Config, s: Mc, inputs: seq<Input>)
    requires ValidConfig(c) && Initial(c, s) && Shape(s) && ValidInputs(c, s, inputs)
    ensures DrainInv(c, Run(c, s, inputs).s, LastTime(inputs))
  {
    if inputs == [] {
      InitialDrainInv(c, s);
    } else {
      var n := |inputs| - 1;
      ValidPrefix(c, s, inputs, n);
      RunDrainInv(c, s, inputs[..n]);
      var s1 := Run(c, s, inputs[..n]).s;
      StepDrainInv(c, s1, LastTime(inputs[..n]), inputs[n].t, inputs[n].arrivals);
    }
  }

  /** From every reachable state, under every policy, calls at consecutive intervals with no further
      arrivals empty the queue.  With closed pages q requests take at most 2 q (Wait + 1) calls, with open
      pages at most (3 q + 2 banks) (Wait + 1). */
  lemma EveryPolicyDrains(c: Config, s: Mc, inputs: seq<Input>, t: int, n: nat)
    requires ValidConfig(c) && Initial(c, s) && Shape(s) && ValidInputs(c, s, inputs) && LastTime(inputs) <= t
    requires var q := |Run(c, s, inputs).s.req|;
      n >= Calls(c, if c.policy.Open? then 3 * q + 2 * |s.banks| else 2 * q)
    ensures Quiet(c, Run(c, s, inputs).s, t, n).req == []
  {
    RunDrainInv(c, s, inputs);
    var s1 := Run(c, s, inputs).s;
    var most := if c.policy.Open? then 3 * |s1.req| + 2 * |s.banks| else 2 * |s1.req|;
    DramOpenPage.OwedAtMost(c, s1);
    assert |s1.banks| == |s1.banks.Keys| == |s.banks.Keys| == |s.banks|;
    if Left(c, s1) < most { OwedStep(c, Left(c, s1), most); }
    DrainsFrom(c, s1, LastTime(inputs), t, 0, n);
  }
}
