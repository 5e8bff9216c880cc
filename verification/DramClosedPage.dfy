/** The measure by which commands of the closed and predictive policies make progress. */
module DramClosedPage {
  import opened Dram
  import opened Arithmetic

  /** Every open bank is wanted by some request of the scheduling window. */
  ghost predicate OpenWanted(c: Config, s: Mc) {
    forall bk :: bk in s.banks && IsOpen(s.banks[bk]) ==> Wanted(c, s, bk, s.banks[bk].page)
  }

  ghost predicate Wanted(c: Config, s: Mc, bk: BankId, page: nat) {
    exists j: nat :: j < |s.req| && j < c.window && WantsRow(s, j, bk, page)
  }

  function OpenBanks(s: Mc): set<BankId> {
    set bk | bk in s.banks && IsOpen(s.banks[bk])
  }

  /** What every command decreases: two commands are owed per request, one less per open bank. */
  function Owed(s: Mc): int {
    2 * |s.req| - |OpenBanks(s)|
  }

  function BanksOf(q: seq<Req>): (bs: set<BankId>)
    ensures |bs| <= |q|
    ensures forall j :: 0 <= j < |q| ==> q[j].bk in bs
  {
    if q == [] then {} else BanksOf(q[..|q| - 1]) + {q[|q| - 1].bk}
  }

  /** Open banks are distinct banks of queued requests, so the measure never goes below the queue length. */
  lemma OwedBound(c: Config, s: Mc)
    requires OpenWanted(c, s)
    ensures Owed(s) >= |s.req|
  {
    assert OpenBanks(s) <= BanksOf(s.req) by {
      forall bk | bk in OpenBanks(s) ensures bk in BanksOf(s.req) {
        assert Wanted(c, s, bk, s.banks[bk].page);
      }
    }
    SubsetSize(OpenBanks(s), BanksOf(s.req));
  }

  // ---------------------------------------------------------------- commands keep and decrease

  lemma ReadyWanted(c: Config, s: Mc, t: int, arrivals: seq<Req>)
    requires OpenWanted(c, s)
    ensures OpenWanted(c, Ready(c, s, t, arrivals))
  {
    var s1 := Ready(c, s, t, arrivals);
    forall bk | bk in s1.banks && IsOpen(s1.banks[bk]) ensures Wanted(c, s1, bk, s1.banks[bk].page) {
      assert Wanted(c, s, bk, s.banks[bk].page);
      var j: nat :| j < |s.req| && j < c.window && WantsRow(s, j, bk, s.banks[bk].page);
      assert WantsRow(s1, j, bk, s.banks[bk].page);
    }
  }

  lemma ActWanted(c: Config, s: Mc, t: int, i: nat)
    requires Shape(s) && OpenWanted(c, s) && i < |s.req| && i < c.window && !IsOpen(s.banks[s.req[i].bk])
    ensures var s' := IssueAct(s, t, i); OpenWanted(c, s') && Owed(s') == Owed(s) - 1
  {
    var s' := IssueAct(s, t, i);
    var r := s.req[i];
    forall bk | bk in s'.banks && IsOpen(s'.banks[bk]) ensures Wanted(c, s', bk, s'.banks[bk].page) {
      if bk == r.bk {
        assert WantsRow(s', i, bk, r.page);
      } else {
        assert Wanted(c, s, bk, s.banks[bk].page);
        var j: nat :| j < |s.req| && j < c.window && WantsRow(s, j, bk, s.banks[bk].page);
        assert WantsRow(s', j, bk, s.banks[bk].page);
      }
    }
    assert OpenBanks(s') == OpenBanks(s) + {r.bk};
  }

  /** A request other than the removed one is still in the window afterwards. */
  lemma WantedAfterRemoval(c: Config, s: Mc, s': Mc, i: nat, j: nat, bk: BankId, page: nat)
    requires i < |s.req| && s'.req == RemoveAt(s.req, i)
    requires j < |s.req| && j < c.window && j != i && WantsRow(s, j, bk, page)
    ensures Wanted(c, s', bk, page)
  {
    assert WantsRow(s', if j < i then j else j - 1, bk, page);
  }

  lemma ColWanted(c: Config, s: Mc, t: int, i: nat)
    requires Shape(s) && OpenWanted(c, s) && i < |s.req| && !c.policy.Open?
    requires IsOpen(s.banks[s.req[i].bk]) && s.banks[s.req[i].bk].page == s.req[i].page
    ensures var s' := IssueCol(c, s, t, i); OpenWanted(c, s') && Owed(s') < Owed(s)
  {
    var s' := IssueCol(c, s, t, i);
    var r := s.req[i];
    forall bk | bk in s'.banks && IsOpen(s'.banks[bk]) ensures Wanted(c, s', bk, s'.banks[bk].page) {
      if bk == r.bk {
        assert KeepOpen(c, s, i);
        var j: nat :| i < j < |s.req| && j < c.window && WantsRow(s, j, r.bk, r.page);
        WantedAfterRemoval(c, s, s', i, j, bk, r.page);
      } else {
        assert s'.banks[bk] == s.banks[bk];
        assert Wanted(c, s, bk, s.banks[bk].page);
        var j: nat :| j < |s.req| && j < c.window && WantsRow(s, j, bk, s.banks[bk].page);
        WantedAfterRemoval(c, s, s', i, j, bk, s.banks[bk].page);
      }
    }
    if KeepOpen(c, s, i) {
      assert OpenBanks(s') == OpenBanks(s);
    } else {
      assert OpenBanks(s') == OpenBanks(s) - {r.bk};
    }
  }

  /** Under the closed policy each issued command decreases what is owed. */
  lemma CommandDecreases(c: Config, s: Mc, t: int, i: nat)
    requires Shape(s) && OpenWanted(c, s) && !c.policy.Open? && i < |s.req| && Issuable(c, s, i, t)
    ensures var (s', cmds) := Issue(c, s, t, i); |cmds| == 1 && OpenWanted(c, s') && Owed(s') < Owed(s)
  {
    IssuableFacts(c, s, i, t);
    if !IsOpen(s.banks[s.req[i].bk]) { ActWanted(c, s, t, i); } else { ColWanted(c, s, t, i); }
  }
}
