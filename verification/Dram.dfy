/** The DRAM memory controller as a pure state machine.

    One call may move due requests into the queue, then issues at most one ACT, PRE, RD or WR
    command.  All times are in ticks; every t* parameter is in units of the process interval `pi`. */
module Dram {

  datatype Policy = Open | Closed | Pred

  datatype Action = Activate | Read | Write | Precharge | Idle

  /** The request types that the controller serves; every other type ends in a fatal error. */
  datatype ReqType = RdDirInfoReq | RdDirInfoRep | Rd | ERd | SRd | Evict | DirEvict | SRdWr

  predicate IsRead(typ: ReqType) {
    typ.RdDirInfoReq? || typ.RdDirInfoRep? || typ.Rd? || typ.ERd? || typ.SRd?
  }

  function ActionOf(typ: ReqType): Action {
    if IsRead(typ) then Read else Write
  }

  datatype BankId = BankId(rank: nat, bank: nat)

  /** A queued request, with its address already decoded (see module AddressMap). */
  datatype Req = Req(id: int, typ: ReqType, bk: BankId, page: nat, th: nat)

  datatype Bank = Bank(actionTime: int, page: nat, action: Action, lastAct: int)

  datatype Config = Config(
    tRCD: nat, tRR: nat, tRP: nat, tCL: nat, tBL: nat, tBBL: nat, tRAS: nat,
    tWRBUB: nat, tRWBUB: nat, tRRBUB: nat, tWTR: nat,
    window: nat, pi: nat, mcToDir: nat, policy: Policy, parBs: bool, fullDuplex: bool)

  /** The length of n intervals in ticks. */
  function Ticks(c: Config, n: nat): (r: nat) {
    n * c.pi
  }

  predicate ValidConfig(c: Config) {
    c.pi > 0 && c.window > 0
  }

  /** The state that survives from one call to the next.  `mark` is the index of the last request
      of the current batch, -1 when there is none. */
  datatype Mc = Mc(
    req: seq<Req>, mark: int, cnt: seq<int>, banks: map<BankId, Bank>,
    lastAct: seq<int>, lastWr: seq<int>, lastRdRank: seq<int>, lastRd: (nat, int),
    dp: map<int, Action>, rdDp: map<int, Action>, wrDp: map<int, Action>)

  predicate WfReq(s: Mc, r: Req) {
    r.bk in s.banks && r.th < |s.cnt|
  }

  /** Every request addresses an existing bank and thread, every bank an existing rank. */
  predicate Shape(s: Mc) {
    && (forall j :: 0 <= j < |s.req| ==> WfReq(s, s.req[j]))
    && |s.lastAct| == |s.lastWr| == |s.lastRdRank|
    && (forall b :: b in s.banks ==> b.rank < |s.lastAct|)
  }

  // ---------------------------------------------------------------- timing conditions

  predicate IsOpen(b: Bank) {
    b.action.Activate? || b.action.Read? || b.action.Write?
  }

  /** The bank has finished its latest action. */
  predicate BankReady(c: Config, b: Bank, t: int) {
    && b.actionTime <= t
    && (b.action.Precharge? ==> b.actionTime + Ticks(c, c.tRP) <= t)
    && (b.action.Activate? ==> b.actionTime + Ticks(c, c.tRCD) <= t)
    && (IsOpen(b) ==> b.actionTime + Ticks(c, c.tBBL) <= t)
  }

  /** No slot of `m` lies in [lo, hi). */
  predicate Free(m: map<int, Action>, lo: int, hi: int) {
    forall k :: k in m ==> !(lo <= k < hi)
  }

  /** Some slot of kind `a` lies in the `w` ticks before `lo`; the bound is an unsigned number, so
      when it would be negative it wraps around and the search finds nothing. */
  predicate Bubble(m: map<int, Action>, lo: int, w: int, a: Action) {
    w <= lo && exists k :: k in m && lo - w <= k < lo && m[k] == a
  }

  predicate BusAllows(c: Config, s: Mc, r: Req, t: int)
    requires Shape(s) && WfReq(s, r)
  {
    var lo := t + Ticks(c, c.tCL);
    var hi := t + Ticks(c, c.tCL + c.tBL);
    if IsRead(r.typ) then
      && Free(if c.fullDuplex then s.rdDp else s.dp, lo, hi)
      && (!c.fullDuplex ==> !Bubble(s.dp, lo, Ticks(c, c.tWRBUB), Write))
      && (c.tWTR > 0 ==> s.lastWr[r.bk.rank] + Ticks(c, c.tWTR) <= t)
      && (s.lastRd.0 != r.bk.rank ==> Ticks(c, c.tRRBUB) + s.lastRd.1 <= t)
    else
      && Free(if c.fullDuplex then s.wrDp else s.dp, lo, hi)
      && (!c.fullDuplex ==> !Bubble(s.dp, lo, Ticks(c, c.tRWBUB), Read))
      && s.lastRdRank[r.bk.rank] + Ticks(c, c.tRWBUB) <= t
  }

  /** Request j wants the row that bank `bk` has open. */
  predicate WantsRow(s: Mc, j: nat, bk: BankId, page: nat)
    requires j < |s.req|
  {
    s.req[j].bk == bk && s.req[j].page == page
  }

  /** No other request that request i has to respect wants the open row of its bank. */
  predicate NeedPrecharge(c: Config, s: Mc, i: nat)
    requires Shape(s) && i < |s.req|
  {
    var bk := s.req[i].bk;
    forall j: nat :: j < |s.req| && j < c.window && j != i && (i <= s.mark ==> j <= s.mark)
      ==> !WantsRow(s, j, bk, s.banks[bk].page)
  }

  /** A column command for request i may be issued at time t. */
  predicate HitOk(c: Config, s: Mc, i: nat, t: int)
    requires Shape(s) && i < |s.req|
  {
    var r := s.req[i];
    var b := s.banks[r.bk];
    BankReady(c, b, t) && IsOpen(b) && b.page == r.page && BusAllows(c, s, r, t)
  }

  /** A row command (ACT, or PRE under the open policy) for request i may be issued at time t. */
  predicate RowOk(c: Config, s: Mc, i: nat, t: int)
    requires Shape(s) && i < |s.req|
  {
    var r := s.req[i];
    var b := s.banks[r.bk];
    && BankReady(c, b, t)
    && s.lastAct[r.bk.rank] + Ticks(c, c.tRR) <= t
    && (IsOpen(b) ==> b.page != r.page && c.policy.Open? && NeedPrecharge(c, s, i))
  }

  predicate Issuable(c: Config, s: Mc, i: nat, t: int)
    requires Shape(s) && i < |s.req|
  {
    i < c.window && (HitOk(c, s, i, t) || RowOk(c, s, i, t))
  }

  /** Lexicographic priority within a batch: row hits first, then the thread with fewer
      outstanding requests, then age. */
  predicate Before(c: Config, s: Mc, t: int, i: nat, j: nat)
    requires Shape(s) && i < |s.req| && j < |s.req|
  {
    var hi, hj := HitOk(c, s, i, t), HitOk(c, s, j, t);
    var ni, nj := s.cnt[s.req[i].th], s.cnt[s.req[j].th];
    (hi && !hj) || (hi == hj && (ni < nj || (ni == nj && i < j)))
  }

  /** The declarative scheduling rule: an issuable marked request with the best priority if there is
      one, otherwise the oldest issuable request of the window. */
  predicate IsSelected(c: Config, s: Mc, t: int, i: nat)
    requires Shape(s)
  {
    && i < |s.req| && Issuable(c, s, i, t)
    && (forall j: nat :: j < |s.req| && j != i && j <= s.mark && Issuable(c, s, j, t)
          ==> i <= s.mark && Before(c, s, t, i, j))
    && (i > s.mark ==> forall j: nat :: j < i ==> !Issuable(c, s, j, t))
  }

  /** What an issuable request knows about its bank. */
  lemma IssuableFacts(c: Config, s: Mc, i: nat, t: int)
    requires Shape(s) && i < |s.req| && Issuable(c, s, i, t)
    ensures var r, b := s.req[i], s.banks[s.req[i].bk];
            && BankReady(c, b, t)
            && (!IsOpen(b) || b.page != r.page ==> s.lastAct[r.bk.rank] + Ticks(c, c.tRR) <= t)
            && (IsOpen(b) && b.page != r.page ==> c.policy.Open? && NeedPrecharge(c, s, i))
            && (IsOpen(b) && b.page == r.page ==> HitOk(c, s, i, t))
  {
  }

  ghost predicate AnyIssuable(c: Config, s: Mc, t: int)
    requires Shape(s)
  {
    exists i: nat :: i < |s.req| && Issuable(c, s, i, t)
  }

  // ---------------------------------------------------------------- transitions

  function PruneMap(m: map<int, Action>, t: int): map<int, Action> {
    map k | k in m && t <= k :: m[k]
  }

  /** Forget the data-bus slots before time t. */
  function Prune(s: Mc, t: int): Mc {
    s.(dp := PruneMap(s.dp, t), rdDp := PruneMap(s.rdDp, t), wrDp := PruneMap(s.wrDp, t))
  }

  function Min(a: int, b: int): int {
    if a < b then a else b
  }

  function Max(a: int, b: int): int {
    if a < b then b else a
  }

  /** How many requests of thread `th` are in `q`. */
  function Count(q: seq<Req>, th: nat): nat {
    if q == [] then 0 else Count(q[..|q| - 1], th) + (if q[|q| - 1].th == th then 1 else 0)
  }

  /** Append the requests that become due. */
  function EnqueueAll(c: Config, s: Mc, arrivals: seq<Req>): Mc {
    s.(req := s.req + arrivals,
       cnt := if c.parBs then seq(|s.cnt|, th requires 0 <= th < |s.cnt| => s.cnt[th] + Count(arrivals, th)) else s.cnt)
  }

  /** Start a batch when there is none. */
  function Remark(c: Config, s: Mc): Mc {
    if c.parBs && s.mark == -1 && |s.req| > 0
    then s.(mark := Min(|s.req|, c.window) - 1) else s
  }

  function Arrive(c: Config, s: Mc, arrivals: seq<Req>): Mc {
    Remark(c, EnqueueAll(c, s, arrivals))
  }

  function Slot(c: Config, t: int, j: nat): int {
    t + Ticks(c, c.tCL + j)
  }

  /** The first n data-bus slots of a burst whose column command is issued at time t. */
  function SlotsUpTo(c: Config, t: int, n: nat): set<int> {
    set j: nat | j < n :: Slot(c, t, j)
  }

  function Fill(ks: set<int>, a: Action): map<int, Action> {
    map k | k in ks :: a
  }

  /** The data-bus slots of a whole burst. */
  function Burst(c: Config, t: int, a: Action): map<int, Action> {
    Fill(SlotsUpTo(c, t, c.tBL), a)
  }

  function RemoveAt<T>(q: seq<T>, i: nat): seq<T>
    requires i < |q|
  {
    q[..i] + q[i + 1..]
  }

  /** Some younger request of the window wants the same row as request i. */
  predicate KeepOpen(c: Config, s: Mc, i: nat)
    requires i < |s.req|
  {
    exists j: nat :: i < j < |s.req| && j < c.window && WantsRow(s, j, s.req[i].bk, s.req[i].page)
  }

  function BankAfterColumn(c: Config, s: Mc, t: int, i: nat): Bank
    requires Shape(s) && i < |s.req|
  {
    var r := s.req[i];
    var b := s.banks[r.bk];
    var ends := Max(t, Ticks(c, c.tRAS) + b.lastAct);
    if c.policy.Open? then b.(actionTime := t, action := ActionOf(r.typ))
    else if KeepOpen(c, s, i) then b.(actionTime := ends, action := ActionOf(r.typ))
    else b.(actionTime := Ticks(c, c.tRP) + ends, action := Precharge)
  }

  /** The batch marker after request i of n has left the queue. */
  function NewMark(c: Config, n: nat, mark: int, i: nat): int {
    if !c.parBs then mark
    else if mark == i then
      if i == 0 then Min(c.window - 1, n - 2) else mark - 1
    else if mark > i then mark - 1
    else mark
  }

  datatype Cmd =
    | Act(t: int, bk: BankId, page: nat)
    | Pre(t: int, bk: BankId)
    | Col(t: int, bk: BankId, r: Req, autoPre: bool)

  function IssueAct(s: Mc, t: int, i: nat): Mc
    requires Shape(s) && i < |s.req|
  {
    var r := s.req[i];
    s.(banks := s.banks[r.bk := Bank(t, r.page, Activate, t)], lastAct := s.lastAct[r.bk.rank := t])
  }

  function IssuePre(c: Config, s: Mc, t: int, i: nat): Mc
    requires Shape(s) && i < |s.req|
  {
    var r := s.req[i];
    var b := s.banks[r.bk];
    var b' := b.(actionTime := Ticks(c, c.tRP) + Max(t, Ticks(c, c.tRAS) + b.lastAct), action := Precharge);
    s.(banks := s.banks[r.bk := b'])
  }

  function IssueCol(c: Config, s: Mc, t: int, i: nat): Mc
    requires Shape(s) && i < |s.req|
  {
    var r := s.req[i];
    var a := ActionOf(r.typ);
    var ends := t + Ticks(c, c.tCL + c.tBL);
    s.(req := RemoveAt(s.req, i),
       mark := NewMark(c, |s.req|, s.mark, i),
       cnt := if c.parBs then s.cnt[r.th := s.cnt[r.th] - 1] else s.cnt,
       banks := s.banks[r.bk := BankAfterColumn(c, s, t, i)],
       lastWr := if a.Write? then s.lastWr[r.bk.rank := ends] else s.lastWr,
       lastRdRank := if a.Read? then s.lastRdRank[r.bk.rank := ends] else s.lastRdRank,
       lastRd := if a.Read? then (r.bk.rank, t) else s.lastRd,
       dp := Burst(c, t, a) + s.dp,
       rdDp := if a.Read? then Burst(c, t, a) + s.rdDp else s.rdDp,
       wrDp := if a.Write? then Burst(c, t, a) + s.wrDp else s.wrDp)
  }

  /** Issue the command of the chosen request. */
  function Issue(c: Config, s: Mc, t: int, i: nat): (res: (Mc, seq<Cmd>))
    requires Shape(s) && i < |s.req|
  {
    var r := s.req[i];
    var b := s.banks[r.bk];
    if !IsOpen(b) then (IssueAct(s, t, i), [Act(t, r.bk, r.page)])
    else if b.page != r.page then
      if c.policy.Open? then (IssuePre(c, s, t, i), [Pre(t, r.bk)]) else (s, [])
    else
      (IssueCol(c, s, t, i), [Col(t, r.bk, r, !c.policy.Open? && !KeepOpen(c, s, i))])
  }

  /** The request chosen by the scheduling rule, -1 when nothing can be issued. */
  ghost function Selected(c: Config, s: Mc, t: int): (i: int)
    requires Shape(s)
    ensures i == -1 || (i >= 0 && IsSelected(c, s, t, i))
  {
    if exists i: nat :: IsSelected(c, s, t, i) then var i: nat :| IsSelected(c, s, t, i); i else -1
  }

  ghost predicate WfArrivals(s: Mc, arrivals: seq<Req>) {
    forall j :: 0 <= j < |arrivals| ==> WfReq(s, arrivals[j])
  }

  /** The state in which one call at time t schedules: due requests queued, old slots forgotten. */
  function Ready(c: Config, s: Mc, t: int, arrivals: seq<Req>): Mc {
    Prune(Arrive(c, s, arrivals), t)
  }

  /** Select a request and issue its command. */
  ghost function Schedule(c: Config, s: Mc, t: int): (Mc, seq<Cmd>)
    requires Shape(s)
  {
    var i := Selected(c, s, t);
    if i >= 0 then Issue(c, s, t, i) else (s, [])
  }

  /** One call at time t, in which `arrivals` become due. */
  ghost function Step(c: Config, s: Mc, t: int, arrivals: seq<Req>): (Mc, seq<Cmd>)
    requires Shape(s) && WfArrivals(s, arrivals)
  {
    Schedule(c, Ready(c, s, t, arrivals), t)
  }

  /** The dimensions of the machine: its banks, ranks and threads. */
  ghost predicate SameDims(s: Mc, s': Mc) {
    s.banks.Keys == s'.banks.Keys && |s.cnt| == |s'.cnt| && |s.lastAct| == |s'.lastAct|
  }

  lemma ReadyShape(c: Config, s: Mc, t: int, arrivals: seq<Req>)
    requires Shape(s) && WfArrivals(s, arrivals)
    ensures Shape(Ready(c, s, t, arrivals)) && SameDims(s, Ready(c, s, t, arrivals))
  {
  }

  lemma IssueShape(c: Config, s: Mc, t: int, i: nat)
    requires Shape(s) && i < |s.req|
    ensures Shape(Issue(c, s, t, i).0) && SameDims(s, Issue(c, s, t, i).0)
  {
    var r := s.req[i];
    var s' := Issue(c, s, t, i).0;
    assert s'.banks.Keys == s.banks.Keys;
    forall j | 0 <= j < |s'.req| ensures WfReq(s', s'.req[j]) {
      assert s'.req[j] in s.req;
    }
  }

  lemma StepShape(c: Config, s: Mc, t: int, arrivals: seq<Req>)
    requires Shape(s) && WfArrivals(s, arrivals)
    ensures Shape(Step(c, s, t, arrivals).0) && SameDims(s, Step(c, s, t, arrivals).0)
  {
    var s1 := Ready(c, s, t, arrivals);
    ReadyShape(c, s, t, arrivals);
    var i := Selected(c, s1, t);
    if i >= 0 { IssueShape(c, s1, t, i); }
  }

  // ---------------------------------------------------------------- the scheduling rule is a choice function

  /** At most one request satisfies the rule. */
  lemma SelectedUnique(c: Config, s: Mc, t: int, i: nat, j: nat)
    requires Shape(s) && IsSelected(c, s, t, i) && IsSelected(c, s, t, j)
    ensures i == j
  {
  }

  /** Whenever something can be issued, the rule chooses a request. */
  lemma SelectedExists(c: Config, s: Mc, t: int)
    requires Shape(s) && AnyIssuable(c, s, t)
    ensures Selected(c, s, t) >= 0
  {
    var i: nat :| i < |s.req| && Issuable(c, s, i, t);
    var k := BestUpTo(c, s, t, |s.req|);
    assert IsSelected(c, s, t, k);
  }

  /** The best candidate among the first n requests. */
  lemma {:induction false} BestUpTo(c: Config, s: Mc, t: int, n: nat) returns (k: int)
    requires Shape(s) && n <= |s.req|
    ensures k == -1 ==> forall j: nat :: j < n ==> !Issuable(c, s, j, t)
    ensures k != -1 ==> 0 <= k < n && Issuable(c, s, k, t)
    ensures k != -1 ==> (forall j: nat :: j < n && j != k && j <= s.mark && Issuable(c, s, j, t)
                           ==> k <= s.mark && Before(c, s, t, k, j))
    ensures k > s.mark && k != -1 ==> forall j: nat :: j < k ==> !Issuable(c, s, j, t)
  {
    if n == 0 {
      k := -1;
    } else {
      k := BestUpTo(c, s, t, n - 1);
      if Issuable(c, s, n - 1, t) && (k == -1 || (n - 1 <= s.mark && Before(c, s, t, n - 1, k))) {
        k := n - 1;
      }
    }
  }
}
