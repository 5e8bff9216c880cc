/** The memory controller as the program runs it: fields updated in place by loops, with expired
    data-bus slots forgotten only when a row hit is examined.  Every method is proved against the
    state machine of module Dram. */
module MemoryController {
  import opened Arithmetic
  import opened Dram
  import opened DramBatch
  import opened DramAnswers
  import DramTiming

  /** The requests that a call at time t takes: those at the front of the event map, if it is due. */
  ghost function Due(events: map<int, seq<Req>>, t: int): seq<Req> {
    if t in events && (forall k :: k in events ==> t <= k) then events[t] else []
  }

  // ---------------------------------------------------------------- pruning late is pruning early

  lemma PruneTwice(m: map<int, Action>, t0: int, t: int)
    requires t0 <= t
    ensures PruneMap(PruneMap(m, t0), t) == PruneMap(m, t)
  {
  }

  /** Slots that have expired cannot influence a call: states that agree up to expired slots issue
      the same command and end in the same state. */
  lemma LazyPruning(c: Config, s: Mc, s': Mc, now: int, t: int, arrivals: seq<Req>)
    requires Shape(s) && Shape(s') && WfArrivals(s, arrivals) && WfArrivals(s', arrivals)
    requires Prune(s, now) == Prune(s', now) && now <= t
    ensures Step(c, s, t, arrivals) == Step(c, s', t, arrivals)
  {
    PruneTwice(s.dp, now, t);
    PruneTwice(s.rdDp, now, t);
    PruneTwice(s.wrDp, now, t);
    PruneTwice(s'.dp, now, t);
    PruneTwice(s'.rdDp, now, t);
    PruneTwice(s'.wrDp, now, t);
    assert Ready(c, s, t, arrivals) == Ready(c, s', t, arrivals);
  }

  lemma PruneBurst(c: Config, m: map<int, Action>, t: int, a: Action)
    ensures PruneMap(Burst(c, t, a) + m, t) == Burst(c, t, a) + PruneMap(m, t)
  {
    forall k | k in SlotsUpTo(c, t, c.tBL) ensures t <= k {
      var j: nat :| j < c.tBL && k == Slot(c, t, j);
    }
  }

  lemma SameKeepOpen(c: Config, s: Mc, s': Mc, i: nat)
    requires s.req == s'.req && i < |s.req|
    ensures KeepOpen(c, s, i) == KeepOpen(c, s', i)
  {
    assert forall j: nat, bk, page :: j < |s.req| ==> WantsRow(s, j, bk, page) == WantsRow(s', j, bk, page);
  }

  lemma ColPruned(c: Config, s: Mc, t: int, i: nat)
    requires Shape(s) && i < |s.req|
    ensures Prune(IssueCol(c, s, t, i), t) == IssueCol(c, Prune(s, t), t, i)
  {
    var a := ActionOf(s.req[i].typ);
    var s1 := Prune(s, t);
    PruneBurst(c, s.dp, t, a);
    PruneBurst(c, s.rdDp, t, a);
    PruneBurst(c, s.wrDp, t, a);
    SameKeepOpen(c, s, s1, i);
    assert BankAfterColumn(c, s, t, i) == BankAfterColumn(c, s1, t, i);
    hide PruneMap, Burst, BankAfterColumn, KeepOpen, RemoveAt;
  }

  /** Pruning before or after issuing a command makes no difference. */
  lemma IssuePruned(c: Config, s: Mc, t: int, i: nat)
    requires Shape(s) && i < |s.req|
    ensures Prune(Issue(c, s, t, i).0, t) == Issue(c, Prune(s, t), t, i).0
  {
    ColPruned(c, s, t, i);
    assert Prune(IssueAct(s, t, i), t) == IssueAct(Prune(s, t), t, i);
    assert Prune(IssuePre(c, s, t, i), t) == IssuePre(c, Prune(s, t), t, i);
    hide IssueCol, IssueAct, IssuePre;
  }

  // ---------------------------------------------------------------- searching the reserved slots

  /** A position in an ordered map of slots. */
  datatype Position = End | At(slot: int)

  /** The first slot among `keys` that is not before k. */
  predicate IsLowerBound(keys: set<int>, k: int, p: Position) {
    match p
    case End => forall x :: x in keys ==> x < k
    case At(slot) => slot in keys && k <= slot && forall x :: x in keys && k <= x ==> slot <= x
  }

  lemma Member(s: set<int>)
    requires s != {}
    ensures exists x :: x in s
  {
    if forall x :: x !in s { assert false; }
  }

  method LowerBound(m: map<int, Action>, k: int) returns (p: Position)
    ensures IsLowerBound(m.Keys, k, p)
  {
    p := End;
    var keys: set<int> := m.Keys;
    var rest := keys;
    while rest != {}
      invariant rest <= keys
      invariant IsLowerBound(keys - rest, k, p)
    {
      Member(rest);
      var x: int :| x in rest;
      assert keys - (rest - {x}) == (keys - rest) + {x};
      if k <= x && (p.End? || x < p.slot) { p := At(x); }
      rest := rest - {x};
    }
    assert keys - rest == keys;
  }

  /** Is the stretch of slots free?  The first slot that is not before it decides. */
  method Unreserved(m: map<int, Action>, lo: int, hi: int) returns (free: bool)
    ensures free == Free(m, lo, hi)
  {
    var p := LowerBound(m, lo);
    free := p.End? || p.slot >= hi;
  }

  /** Walk over the reserved slots of the w ticks before lo, in order, until one of kind a is found. */
  method FindBubble(m: map<int, Action>, lo: int, w: int, a: Action) returns (found: bool)
    ensures found == Bubble(m, lo, w, a)
  {
    if w > lo { return false; }
    var p := LowerBound(m, lo - w);
    while p.At? && p.slot < lo
      invariant p.At? ==> p.slot in m && lo - w <= p.slot
      invariant forall k :: k in m && lo - w <= k < lo && (p.At? ==> k < p.slot) ==> m[k] != a
      decreases if p.At? then lo - p.slot else 0
    {
      if m[p.slot] == a { return true; }
      p := LowerBound(m, p.slot + 1);
    }
    found := false;
  }

  class Controller {
    const c: Config
    var req: seq<Req>
    var mark: int
    var cnt: seq<int>
    var banks: map<BankId, Bank>
    var lastAct: seq<int>
    var lastWr: seq<int>
    var lastRdRank: seq<int>
    var lastRd: (nat, int)
    var dp: map<int, Action>
    var rdDp: map<int, Action>
    var wrDp: map<int, Action>
    var reqEvent: map<int, seq<Req>>
    /** The times at which the global event queue will call this component. */
    var scheduled: set<int>
    /** The messages sent to the directory, oldest first. */
    var replies: seq<(int, Req)>

    ghost function State(): Mc
      reads this
    {
      Mc(req, mark, cnt, banks, lastAct, lastWr, lastRdRank, lastRd, dp, rdDp, wrDp)
    }

    /** Pending requests are well formed and wait at scheduled multiples of the interval; a controller
        with queued requests has a call coming. */
    ghost predicate Valid()
      reads this
    {
      && ValidConfig(c) && Shape(State()) && BatchInv(c, State())
      && (forall t :: t in reqEvent ==> t in scheduled && reqEvent[t] != [] && WfArrivals(State(), reqEvent[t]))
      && (forall t :: t in scheduled ==> t % c.pi == 0)
      && (req != [] ==> scheduled != {})
    }

    constructor (config: Config, bankIds: set<BankId>, numRanks: nat, numThreads: nat)
      requires ValidConfig(config) && forall b :: b in bankIds ==> b.rank < numRanks
      ensures Valid() && c == config && banks.Keys == bankIds && |lastAct| == numRanks && |cnt| == numThreads
      ensures req == [] && reqEvent == map[] && scheduled == {} && replies == []
      ensures DramTiming.Initial(c, State())
    {
      c := config;
      req, mark := [], -1;
      cnt := seq(numThreads, _ => 0);
      banks := map b | b in bankIds :: Bank(0, 0, Idle, 0);
      lastAct, lastWr, lastRdRank := seq(numRanks, _ => 0), seq(numRanks, _ => 0), seq(numRanks, _ => 0);
      lastRd := (0, 0);
      dp, rdDp, wrDp := map[], map[], map[];
      reqEvent, scheduled, replies := map[], {}, [];
    }

    /** A request becomes pending at the next multiple of the interval, where a call is scheduled. */
    method AddReqEvent(eventTime: int, r: Req)
      requires Valid() && WfReq(State(), r)
      modifies this`reqEvent, this`scheduled
      ensures Valid()
      ensures var t := CeilBy(eventTime, c.pi);
              && scheduled == old(scheduled) + {t}
              && reqEvent == old(reqEvent)[t := (if t in old(reqEvent) then old(reqEvent)[t] else []) + [r]]
    {
      var t := CeilBy(eventTime, c.pi);
      scheduled := scheduled + {t};
      var waiting := if t in reqEvent then reqEvent[t] else [];
      reqEvent := reqEvent[t := waiting + [r]];
    }

    /** Remove and return the requests that are due at time t. */
    method TakeDue(t: int) returns (due: seq<Req>)
      requires Valid()
      modifies this`reqEvent
      ensures Valid() && due == Due(old(reqEvent), t) && WfArrivals(State(), due)
      ensures reqEvent == if due == [] then old(reqEvent) else old(reqEvent) - {t}
    {
      if t in reqEvent && forall k :: k in reqEvent ==> t <= k {
        due := reqEvent[t];
        reqEvent := reqEvent - {t};
      } else {
        due := [];
      }
    }

    method PreProcessing(t: int)
      requires Valid() && scheduled != {}
      modifies this`req, this`cnt, this`mark, this`reqEvent
      ensures Valid()
      ensures State() == Arrive(c, old(State()), Due(old(reqEvent), t))
      ensures reqEvent == if Due(old(reqEvent), t) == [] then old(reqEvent) else old(reqEvent) - {t}
    {
      ghost var s0 := State();
      var due := TakeDue(t);
      EnqueueWaiting(due);
      if c.parBs && mark == -1 && |req| > 0 {
        mark := Min(|req|, c.window) - 1;
      }
      ReadyShape(c, s0, t, due);
      ReadyBatch(c, s0, t, due);
      assert State() == Arrive(c, s0, due);
      assert Shape(State()) && BatchInv(c, State());
    }

    /** The loop over the requests of one event time. */
    method EnqueueWaiting(waiting: seq<Req>)
      requires WfArrivals(State(), waiting)
      modifies this`req, this`cnt
      ensures State() == EnqueueAll(c, old(State()), waiting)
    {
      ghost var s0 := State();
      var n := 0;
      assert waiting[..0] == [] && EnqueueAll(c, s0, []) == s0;
      while n < |waiting|
        invariant 0 <= n <= |waiting|
        invariant State() == EnqueueAll(c, s0, waiting[..n])
      {
        var r := waiting[n];
        assert WfReq(s0, r);
        EnqueueOne(c, s0, waiting, n);
        if c.parBs { cnt := cnt[r.th := cnt[r.th] + 1]; }
        req := req + [r];
        n := n + 1;
      }
      assert waiting[..n] == waiting;
    }

    // -------------------------------------------------------------- the selection loop

    /** Check the data-bus constraints of request r, forgetting slots that have expired. */
    method CheckBus(r: Req, t: int) returns (met: bool)
      requires Shape(State()) && WfReq(State(), r)
      modifies this`dp, this`rdDp, this`wrDp
      ensures Prune(State(), t) == Prune(old(State()), t)
      ensures met == BusAllows(c, Prune(old(State()), t), r, t)
    {
      PruneTwice(dp, t, t);
      PruneTwice(rdDp, t, t);
      PruneTwice(wrDp, t, t);
      dp := PruneMap(dp, t);
      var lo, hi := t + Ticks(c, c.tCL), t + Ticks(c, c.tCL + c.tBL);
      met := false;
      if IsRead(r.typ) {
        rdDp := PruneMap(rdDp, t);
        var free := Unreserved(if c.fullDuplex then rdDp else dp, lo, hi);
        if free {
          var bubble := false;
          if !c.fullDuplex { bubble := FindBubble(dp, lo, Ticks(c, c.tWRBUB), Write); }
          if !bubble && c.tWTR > 0 && lastWr[r.bk.rank] + Ticks(c, c.tWTR) > t {
            bubble := true;
          }
          if !bubble && lastRd.0 != r.bk.rank && t < Ticks(c, c.tRRBUB) + lastRd.1 {
            bubble := true;
          }
          met := !bubble;
        }
      } else {
        wrDp := PruneMap(wrDp, t);
        var free := Unreserved(if c.fullDuplex then wrDp else dp, lo, hi);
        if free {
          var bubble := false;
          if !c.fullDuplex { bubble := FindBubble(dp, lo, Ticks(c, c.tRWBUB), Read); }
          if !bubble && lastRdRank[r.bk.rank] + Ticks(c, c.tRWBUB) > t {
            bubble := true;
          }
          met := !bubble;
        }
      }
    }

    /** The search for another request that still wants the open row of the bank of request i. */
    method NeedsPrecharge(i: nat) returns (need: bool)
      requires Shape(State()) && i < |req|
      ensures need == NeedPrecharge(c, State(), i)
    {
      var bk := req[i].bk;
      var page := banks[bk].page;
      var k := 0;
      while k < |req| && k < c.window
        invariant 0 <= k <= |req|
        invariant forall j: nat :: j < k && j < c.window && j != i && (i <= mark ==> j <= mark) ==>
                    !WantsRow(State(), j, bk, page)
      {
        if i <= mark && k > mark {
          return true;
        }
        if k != i && req[k].bk == bk && req[k].page == page {
          assert WantsRow(State(), k, bk, page);
          return false;
        }
        k := k + 1;
      }
      need := true;
    }

    /** Can a row command, or a column command, for request i be issued now? */
    method Examine(i: nat, t: int) returns (row: bool, hit: bool)
      requires Shape(State()) && i < |req|
      modifies this`dp, this`rdDp, this`wrDp
      ensures Prune(State(), t) == Prune(old(State()), t)
      ensures row == RowOk(c, Prune(old(State()), t), i, t)
      ensures hit == HitOk(c, Prune(old(State()), t), i, t)
    {
      var r := req[i];
      var b := banks[r.bk];
      row, hit := false, false;
      if b.actionTime > t {
        return;
      }
      match b.action {
        case Precharge =>
          row := b.actionTime + Ticks(c, c.tRP) <= t && lastAct[r.bk.rank] + Ticks(c, c.tRR) <= t;
        case Idle =>
          row := lastAct[r.bk.rank] + Ticks(c, c.tRR) <= t;
        case _ =>
          if b.action.Activate? && b.actionTime + Ticks(c, c.tRCD) > t {
            return;
          }
          if b.actionTime + Ticks(c, c.tBBL) > t {
            return;
          }
          if b.page != r.page {
            if c.policy.Open? {
              var need := NeedsPrecharge(i);
              SameNeedPrecharge(c, State(), Prune(State(), t), i);
              row := need && lastAct[r.bk.rank] + Ticks(c, c.tRR) <= t;
            }
          } else {
            hit := CheckBus(r, t);
          }
      }
    }

    /** One pass over the queue with a running best candidate finds the request that the declarative
        scheduling rule selects. */
    method SelectRequest(t: int) returns (best: int)
      requires ValidConfig(c) && Shape(State()) && BatchInv(c, State())
      modifies this`dp, this`rdDp, this`wrDp
      ensures Prune(State(), t) == Prune(old(State()), t)
      ensures Shape(State()) && BatchInv(c, State()) && SameDims(old(State()), State())
      ensures best == Selected(c, Prune(old(State()), t), t)
    {
      ghost var s1 := Prune(State(), t);
      var pageHit := false;
      var fewest := |req| + 1;
      var i := 0;
      best := -1;
      while i < |req| && !(best >= 0 && i != 0 && i > mark) && i < c.window
        invariant 0 <= i <= |req| && -1 <= best < i
        invariant Prune(State(), t) == s1
        invariant BestSoFar(c, s1, t, i, best)
        invariant pageHit == (best >= 0 && HitOk(c, s1, best, t))
        invariant fewest == if best >= 0 then cnt[req[best].th] else |req| + 1
      {
        var row, hit := Examine(i, t);
        var n := cnt[req[i].th];
        OutstandingBound(c, State(), i);
        BestExtends(c, s1, t, i, best);
        if row && !pageHit && (n < fewest || (n == fewest && best == -1)) {
          best, fewest := i, n;
        } else if hit && (!pageHit || n < fewest) {
          best, fewest, pageHit := i, n, true;
        }
        i := i + 1;
      }
      BestIsSelected(c, s1, t, i, best);
    }

    // -------------------------------------------------------------- issuing the command

    /** Reserve the slots of a burst; a slot that is already taken is left alone. */
    method ReserveBurst(m: map<int, Action>, t: int, a: Action) returns (m': map<int, Action>)
      ensures m' == Burst(c, t, a) + m
    {
      m' := m;
      var j := 0;
      while j < c.tBL
        invariant 0 <= j <= c.tBL
        invariant m' == Fill(SlotsUpTo(c, t, j), a) + m
      {
        var next := t + Ticks(c, c.tCL + j);
        BurstGrows(c, t, j);
        FillGrows(SlotsUpTo(c, t, j), next, a, m);
        if next !in m' {
          m' := m'[next := a];
        }
        j := j + 1;
      }
    }

    /** The search for a younger request that keeps the row of request i open. */
    method SearchKeepOpen(i: nat) returns (keep: bool)
      requires Shape(State()) && i < |req|
      ensures keep == KeepOpen(c, State(), i)
    {
      var k := i + 1;
      while k < |req| && k < c.window
        invariant i + 1 <= k <= |req|
        invariant forall j: nat :: i < j < k && j < c.window ==> !WantsRow(State(), j, req[i].bk, req[i].page)
      {
        if req[k].bk == req[i].bk && req[k].page == req[i].page {
          assert WantsRow(State(), k, req[i].bk, req[i].page);
          return true;
        }
        k := k + 1;
      }
      keep := false;
    }

    method IssueRow(i: nat, t: int)
      requires Shape(State()) && i < |req|
      requires var b := banks[req[i].bk]; !IsOpen(b) || (b.page != req[i].page && c.policy.Open?)
      modifies this`banks, this`lastAct
      ensures State() == Issue(c, old(State()), t, i).0
    {
      var r := req[i];
      var b := banks[r.bk];
      if !IsOpen(b) {
        banks := banks[r.bk := Bank(t, r.page, Activate, t)];
        lastAct := lastAct[r.bk.rank := t];
      } else {
        var ends := Ticks(c, c.tRP) + Max(t, Ticks(c, c.tRAS) + b.lastAct);
        banks := banks[r.bk := b.(actionTime := ends, action := Precharge)];
      }
    }

    /** What the bank does with its row after the column command of request i. */
    method CloseOrKeep(i: nat, t: int)
      requires Shape(State()) && i < |req|
      modifies this`banks
      ensures banks == old(banks)[req[i].bk := BankAfterColumn(c, old(State()), t, i)]
    {
      var r := req[i];
      var b := banks[r.bk];
      if c.policy.Open? {
        banks := banks[r.bk := b.(actionTime := t, action := ActionOf(r.typ))];
      } else {
        var b' := b.(actionTime := Ticks(c, c.tRP) + Max(t, Ticks(c, c.tRAS) + b.lastAct), action := Precharge);
        var keep := SearchKeepOpen(i);
        if keep {
          b' := b'.(action := ActionOf(r.typ), actionTime := b'.actionTime - Ticks(c, c.tRP));
        }
        banks := banks[r.bk := b'];
      }
    }

    method TransferData(r: Req, t: int)
      requires Shape(State()) && WfReq(State(), r)
      modifies this`dp, this`rdDp, this`wrDp, this`lastRd, this`lastRdRank, this`lastWr, this`replies
      ensures var a := ActionOf(r.typ);
              && dp == Burst(c, t, a) + old(dp)
              && rdDp == (if a.Read? then Burst(c, t, a) + old(rdDp) else old(rdDp))
              && wrDp == (if a.Write? then Burst(c, t, a) + old(wrDp) else old(wrDp))
      ensures lastRd == if IsRead(r.typ) then (r.bk.rank, t) else old(lastRd)
      ensures lastRdRank == if IsRead(r.typ) then old(lastRdRank)[r.bk.rank := t + Ticks(c, c.tCL + c.tBL)] else old(lastRdRank)
      ensures lastWr == if IsRead(r.typ) then old(lastWr) else old(lastWr)[r.bk.rank := t + Ticks(c, c.tCL + c.tBL)]
      ensures replies == old(replies) + Reply(c, r, t)
    {
      var a := ActionOf(r.typ);
      dp := ReserveBurst(dp, t, a);
      if IsRead(r.typ) {
        rdDp := ReserveBurst(rdDp, t, a);
        lastRd := (r.bk.rank, t);
        lastRdRank := lastRdRank[r.bk.rank := t + Ticks(c, c.tCL + c.tBL)];
        replies := replies + [(t + c.mcToDir, r)];
      } else {
        wrDp := ReserveBurst(wrDp, t, a);
        lastWr := lastWr[r.bk.rank := t + Ticks(c, c.tCL + c.tBL)];
        if r.typ.SRdWr? {
          replies := replies + [(t + c.mcToDir, r.(typ := SRd))];
        }
      }
    }

    /** Remove request i from the queue and from the bookkeeping of the batch. */
    method Dequeue(i: nat)
      requires Shape(State()) && i < |req|
      modifies this`req, this`mark, this`cnt
      ensures req == RemoveAt(old(req), i) && mark == NewMark(c, |old(req)|, old(mark), i)
      ensures var th := old(req)[i].th; cnt == if c.parBs then old(cnt)[th := old(cnt)[th] - 1] else old(cnt)
    {
      var r := req[i];
      if c.parBs { cnt := cnt[r.th := cnt[r.th] - 1]; }
      if c.parBs && mark == i {
        if i == 0 { mark := Min(c.window - 1, |req| - 2); } else { mark := mark - 1; }
      } else if c.parBs && mark > i {
        mark := mark - 1;
      }
      req := req[..i] + req[i + 1..];
    }

    method IssueColumn(i: nat, t: int)
      requires Shape(State()) && i < |req|
      modifies this`req, this`mark, this`cnt, this`banks, this`dp, this`rdDp, this`wrDp
      modifies this`lastRd, this`lastRdRank, this`lastWr, this`replies
      ensures State() == IssueCol(c, old(State()), t, i)
      ensures replies == old(replies) + Reply(c, old(req)[i], t)
    {
      hide Burst, BankAfterColumn, Ticks, Reply, RemoveAt, NewMark;
      var r := req[i];
      CloseOrKeep(i, t);
      TransferData(r, t);
      Dequeue(i);
    }

    /** Issue the command of the selected request. */
    method IssueSelected(i: nat, t: int) returns (cmds: seq<Cmd>)
      requires Shape(State()) && i < |req|
      requires var b := banks[req[i].bk]; IsOpen(b) && b.page != req[i].page ==> c.policy.Open?
      modifies this`req, this`mark, this`cnt, this`banks, this`lastAct, this`dp, this`rdDp, this`wrDp
      modifies this`lastRd, this`lastRdRank, this`lastWr, this`replies
      ensures (State(), cmds) == Issue(c, old(State()), t, i)
      ensures replies == old(replies) + Replies(c, cmds, t)
    {
      hide IssueCol, IssueAct, IssuePre, KeepOpen;
      var r := req[i];
      var b := banks[r.bk];
      if !IsOpen(b) {
        cmds := [Act(t, r.bk, r.page)];
        IssueRow(i, t);
      } else if b.page != r.page {
        cmds := [Pre(t, r.bk)];
        IssueRow(i, t);
      } else {
        var keep := SearchKeepOpen(i);
        cmds := [Col(t, r.bk, r, !c.policy.Open? && !keep)];
        IssueColumn(i, t);
      }
    }

    method SelectAndIssue(t: int) returns (cmds: seq<Cmd>)
      requires ValidConfig(c) && Shape(State()) && BatchInv(c, State())
      modifies this`req, this`mark, this`cnt, this`banks, this`lastAct, this`dp, this`rdDp, this`wrDp
      modifies this`lastRd, this`lastRdRank, this`lastWr, this`replies
      ensures Shape(State()) && BatchInv(c, State()) && SameDims(old(State()), State())
      ensures (Prune(State(), t), cmds) == Schedule(c, Prune(old(State()), t), t)
      ensures replies == old(replies) + Replies(c, cmds, t)
    {
      var i := SelectRequest(t);
      cmds := [];
      ghost var s2 := State();
      assert replies + Replies(c, [], t) == replies;
      hide BatchInv, Issue, PruneMap, Replies;
      if i >= 0 {
        SelectedFacts(c, Prune(s2, t), s2, i, t);
        cmds := IssueSelected(i, t);
      }
      ScheduleMatches(c, s2, t, State(), cmds);
    }

    /** Take what is due, select, issue. */
    method Serve(t: int) returns (cmds: seq<Cmd>)
      requires Valid() && scheduled != {}
      modifies this`req, this`mark, this`cnt, this`banks, this`lastAct, this`dp, this`rdDp, this`wrDp
      modifies this`lastRd, this`lastRdRank, this`lastWr, this`replies, this`reqEvent
      ensures Shape(State()) && BatchInv(c, State()) && SameDims(old(State()), State())
      ensures WfArrivals(old(State()), Due(old(reqEvent), t))
      ensures Step(c, old(State()), t, Due(old(reqEvent), t)) == (Prune(State(), t), cmds)
      ensures reqEvent == if Due(old(reqEvent), t) == [] then old(reqEvent) else old(reqEvent) - {t}
      ensures replies == old(replies) + Replies(c, cmds, t)
    {
      ReadyShape(c, State(), t, Due(reqEvent, t));
      PreProcessing(t);
      hide BatchInv, Schedule, Arrive, Replies;
      cmds := SelectAndIssue(t);
    }

    /** One call.  Up to expired data-bus slots the new state is that of the state machine, the
        returned command is the one it issues, and column reads and read-modify-writes are answered. */
    method ProcessEvent(t: int) returns (cmds: seq<Cmd>)
      requires Valid() && t in scheduled && forall k :: k in scheduled ==> t <= k
      modifies this
      ensures Valid()
      ensures WfArrivals(old(State()), Due(old(reqEvent), t))
      ensures Step(c, old(State()), t, Due(old(reqEvent), t)) == (Prune(State(), t), cmds)
      ensures t !in reqEvent
      ensures scheduled == if req == [] then old(scheduled) - {t} else old(scheduled) - {t} + {t + c.pi}
      ensures replies == old(replies) + Replies(c, cmds, t)
    {
      hide Step, Prune, BatchInv, Replies;
      cmds := Serve(t);
      scheduled := scheduled - {t};
      NextMultiple(t, c.pi);
      if req != [] { scheduled := scheduled + {t + c.pi}; }
    }
  }

  lemma NextMultiple(t: int, p: int)
    requires p > 0 && t % p == 0
    ensures (t + p) % p == 0
  {
    AddMod(t, p);
  }

  lemma SelectedFacts(c: Config, s1: Mc, s2: Mc, i: nat, t: int)
    requires Shape(s1) && Shape(s2) && s1 == Prune(s2, t) && IsSelected(c, s1, t, i)
    ensures var b := s2.banks[s2.req[i].bk];
            IsOpen(b) && b.page != s2.req[i].page ==> c.policy.Open?
  {
    IssuableFacts(c, s1, i, t);
  }

  /** Issuing on the state with late pruning is what the state machine does. */
  lemma ScheduleMatches(c: Config, s: Mc, t: int, s': Mc, cmds: seq<Cmd>)
    requires ValidConfig(c) && Shape(s) && BatchInv(c, s)
    requires var i := Selected(c, Prune(s, t), t);
             (s', cmds) == if i >= 0 then Issue(c, s, t, i) else (s, [])
    ensures Schedule(c, Prune(s, t), t) == (Prune(s', t), cmds)
    ensures Shape(s') && BatchInv(c, s') && SameDims(s, s')
  {
    var i := Selected(c, Prune(s, t), t);
    if i >= 0 {
      IssuePruned(c, s, t, i);
      IssueShape(c, s, t, i);
      IssueBatch(c, s, t, i);
      SameKeepOpen(c, s, Prune(s, t), i);
    }
  }

  lemma BurstGrows(c: Config, t: int, j: nat)
    ensures SlotsUpTo(c, t, j + 1) == SlotsUpTo(c, t, j) + {Slot(c, t, j)}
  {
  }

  lemma FillGrows(ks: set<int>, k: int, a: Action, m: map<int, Action>)
    ensures Fill(ks + {k}, a) + m ==
              if k in Fill(ks, a) + m then Fill(ks, a) + m else (Fill(ks, a) + m)[k := a]
  {
  }

  lemma SameNeedPrecharge(c: Config, s: Mc, s': Mc, i: nat)
    requires Shape(s) && Shape(s') && i < |s.req| && s.req == s'.req && s.banks == s'.banks && s.mark == s'.mark
    ensures NeedPrecharge(c, s, i) == NeedPrecharge(c, s', i)
  {
    assert forall j: nat, bk, page :: j < |s.req| ==> WantsRow(s, j, bk, page) == WantsRow(s', j, bk, page);
  }

  lemma OutstandingBound(c: Config, s: Mc, i: nat)
    requires Shape(s) && BatchInv(c, s) && i < |s.req|
    ensures s.cnt[s.req[i].th] <= |s.req|
  {
    CountBound(s.req, s.req[i].th);
  }

  /** `best` is the best candidate among the first n requests, -1 when none of them is issuable. */
  ghost predicate BestSoFar(c: Config, s: Mc, t: int, n: nat, best: int)
    requires Shape(s) && n <= |s.req| && -1 <= best < n
  {
    && (best == -1 ==> forall j: nat :: j < n ==> !Issuable(c, s, j, t))
    && (best >= 0 ==>
          && Issuable(c, s, best, t)
          && (forall j: nat :: j < n && j != best && j <= s.mark && Issuable(c, s, j, t) ==>
                best <= s.mark && Before(c, s, t, best, j))
          && (best > s.mark ==> forall j: nat :: j < best ==> !Issuable(c, s, j, t)))
  }

  /** When the scan goes on to request i, which of the two is the better candidate. */
  lemma BestExtends(c: Config, s: Mc, t: int, i: nat, best: int)
    requires Shape(s) && i < |s.req| && -1 <= best < i && i < c.window
    requires BestSoFar(c, s, t, i, best) && !(best >= 0 && i > s.mark)
    ensures !Issuable(c, s, i, t) ==> BestSoFar(c, s, t, i + 1, best)
    ensures Issuable(c, s, i, t) && best == -1 ==> BestSoFar(c, s, t, i + 1, i)
    ensures Issuable(c, s, i, t) && best >= 0 ==>
              BestSoFar(c, s, t, i + 1, if Before(c, s, t, i, best) then i else best)
  {
    hide HitOk, RowOk;
  }

  /** The scan may stop early: what it skips is outside the window or loses to the batch. */
  lemma BestIsSelected(c: Config, s: Mc, t: int, i: nat, best: int)
    requires Shape(s) && i <= |s.req| && -1 <= best < i && BestSoFar(c, s, t, i, best)
    requires i == |s.req| || (best >= 0 && i > s.mark) || i >= c.window
    ensures best == Selected(c, s, t)
  {
    var k := Selected(c, s, t);
    if best >= 0 {
      assert IsSelected(c, s, t, best) by { hide HitOk, RowOk; }
      SelectedUnique(c, s, t, best, k);
    }
  }

  lemma EnqueueOne(c: Config, s: Mc, q: seq<Req>, n: nat)
    requires n < |q| && WfReq(s, q[n])
    ensures var s1 := EnqueueAll(c, s, q[..n]);
            var r := q[n];
            && |s1.cnt| == |s.cnt|
            && EnqueueAll(c, s, q[..n + 1])
                 == s1.(req := s1.req + [r], cnt := if c.parBs then s1.cnt[r.th := s1.cnt[r.th] + 1] else s1.cnt)
  {
    assert q[..n + 1][..n] == q[..n];
    assert s.req + q[..n + 1] == s.req + q[..n] + [q[n]];
  }
}
