/** Which request a call serves, and what a column command does to the queue and to the row, said without
    the rules by which the controller decides. */
module DramChoice {
  import opened Dram
  import opened DramTiming
  import opened DramBatch

  /** The bank of request k has its row open. */
  predicate RowIsOpen(s: Mc, k: nat)
    requires Shape(s) && k < |s.req|
  {
    IsOpen(s.banks[s.req[k].bk]) && s.banks[s.req[k].bk].page == s.req[k].page
  }

  /** Row hits come before others, then the thread with fewer requests in the queue, then age. */
  predicate Better(s: Mc, i: nat, j: nat)
    requires Shape(s) && i < |s.req| && j < |s.req|
  {
    var mine, other := Count(s.req, s.req[i].th), Count(s.req, s.req[j].th);
    || (RowIsOpen(s, i) && !RowIsOpen(s, j))
    || (RowIsOpen(s, i) == RowIsOpen(s, j) && (mine < other || (mine == other && i < j)))
  }

  /** The best request of the batch that can be issued or, when there is none, the oldest request that
      can be issued. */
  ghost predicate Best(c: Config, s: Mc, t: int, i: nat)
    requires Shape(s) && i < |s.req|
  {
    && Issuable(c, s, i, t)
    && (i <= s.mark ==> forall j: nat :: j < |s.req| && j != i && j <= s.mark && Issuable(c, s, j, t) ==> Better(s, i, j))
    && (i > s.mark ==> forall j: nat :: j < |s.req| && (j <= s.mark || j < i) ==> !Issuable(c, s, j, t))
  }

  lemma HitIsOpen(c: Config, s: Mc, i: nat, t: int)
    requires Shape(s) && i < |s.req| && Issuable(c, s, i, t)
    ensures HitOk(c, s, i, t) <==> RowIsOpen(s, i)
  {
    hide BusAllows, BankReady, NeedPrecharge;
  }

  lemma BeforeIsBetter(c: Config, s: Mc, t: int, i: nat, j: nat)
    requires Shape(s) && BatchInv(c, s) && c.parBs && i < |s.req| && j < |s.req| && Before(c, s, t, i, j)
    requires Issuable(c, s, i, t) && Issuable(c, s, j, t)
    ensures Better(s, i, j)
  {
    HitIsOpen(c, s, i, t);
    HitIsOpen(c, s, j, t);
    assert WfReq(s, s.req[i]) && WfReq(s, s.req[j]);
    hide HitOk, Issuable, RowIsOpen;
  }

  /** In every run each call serves the best request, and nothing only when nothing can be issued. */
  lemma ServesBest(c: Config, s: Mc, inputs: seq<Input>, t: int, arrivals: seq<Req>)
    requires ValidConfig(c) && Initial(c, s) && Shape(s) && ValidInputs(c, s, inputs)
    requires WfArrivals(Run(c, s, inputs).s, arrivals)
    ensures var s1 := Ready(c, Run(c, s, inputs).s, t, arrivals);
      var i := Selected(c, s1, t);
      && Shape(s1) && i < |s1.req|
      && (if i >= 0 then Best(c, s1, t, i) else !AnyIssuable(c, s1, t))
  {
    RunBatch(c, s, inputs);
    var s0 := Run(c, s, inputs).s;
    var s1 := Ready(c, s0, t, arrivals);
    ReadyShape(c, s0, t, arrivals);
    ReadyBatch(c, s0, t, arrivals);
    var i := Selected(c, s1, t);
    hide Ready, HitOk, RowOk, Better, Before, Run;
    if i >= 0 {
      forall j: nat | i <= s1.mark && j < |s1.req| && j != i && j <= s1.mark && Issuable(c, s1, j, t) ensures Better(s1, i, j) {
        BeforeIsBetter(c, s1, t, i, j);
      }
    } else if AnyIssuable(c, s1, t) {
      SelectedExists(c, s1, t);
    }
  }

  /** Some request of the window behind request i wants the same row. */
  predicate WantedAgain(c: Config, q: seq<Req>, i: nat)
    requires i < |q|
  {
    exists j :: i < j < |q| && j < c.window && q[j].bk == q[i].bk && q[j].page == q[i].page
  }

  /** Request i of the queue leaves it with a column command, and its row is closed by it exactly if the
      policy is not the open one and no younger request of the window wants the row. */
  ghost predicate Leaves(c: Config, q: seq<Req>, i: nat, s': Mc, cmds: seq<Cmd>, t: int)
    requires i < |q|
  {
    && s'.req == q[..i] + q[i + 1..] && q[i].bk in s'.banks
    && cmds == [Col(t, q[i].bk, q[i], !c.policy.Open? && !WantedAgain(c, q, i))]
    && (IsOpen(s'.banks[q[i].bk]) <==> c.policy.Open? || WantedAgain(c, q, i))
  }

  /** Requests queue in the order of their arrival, and one call takes at most the one it serves. */
  lemma QueueInOrder(c: Config, s: Mc, t: int, arrivals: seq<Req>)
    requires Shape(s) && WfArrivals(s, arrivals)
    ensures var q := s.req + arrivals;
      var (s', cmds) := Step(c, s, t, arrivals);
      || (s'.req == q && forall k :: 0 <= k < |cmds| ==> !cmds[k].Col?)
      || exists i: nat :: i < |q| && Leaves(c, q, i, s', cmds, t)
  {
    var s1 := Ready(c, s, t, arrivals);
    ReadyShape(c, s, t, arrivals);
    assert s1.req == s.req + arrivals;
    var i := Selected(c, s1, t);
    hide Ready, IsSelected;
    if i >= 0 { IssueLeaves(c, s1, t, i); }
  }

  lemma IssueLeaves(c: Config, s: Mc, t: int, i: nat)
    requires Shape(s) && i < |s.req|
    ensures var (s', cmds) := Issue(c, s, t, i);
      (s'.req == s.req && forall k :: 0 <= k < |cmds| ==> !cmds[k].Col?) || Leaves(c, s.req, i, s', cmds, t)
  {
    KeptIsWanted(c, s, i);
    hide KeepOpen, WantedAgain, Burst;
  }

  lemma KeptIsWanted(c: Config, s: Mc, i: nat)
    requires Shape(s) && i < |s.req|
    ensures KeepOpen(c, s, i) <==> WantedAgain(c, s.req, i)
  {
    if KeepOpen(c, s, i) {
      var j: nat :| i < j < |s.req| && j < c.window && WantsRow(s, j, s.req[i].bk, s.req[i].page);
      assert s.req[j].bk == s.req[i].bk;
    }
    if WantedAgain(c, s.req, i) {
      var j :| i < j < |s.req| && j < c.window && s.req[j].bk == s.req[i].bk && s.req[j].page == s.req[i].page;
      assert WantsRow(s, j, s.req[i].bk, s.req[i].page);
    }
  }
}
