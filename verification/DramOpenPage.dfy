/** The measure by which commands of the open policy make progress: a bank may stay open for nobody, and
    has to be precharged before it can be opened again. */
module DramOpenPage {
  import opened Dram
  import opened DramBatch
  import opened DramClosedPage
  import opened Arithmetic

  /** The current batch has a request for this bank. */
  ghost predicate Marked(s: Mc, bk: BankId) {
    exists j: nat :: j < |s.req| && j <= s.mark && s.req[j].bk == bk
  }

  /** Request j decides what happens to the bank: it is in the window, and in the batch if any request
      for the bank is. */
  ghost predicate Decides(c: Config, s: Mc, bk: BankId, j: nat) {
    j < |s.req| && j < c.window && s.req[j].bk == bk && (Marked(s, bk) ==> j <= s.mark)
  }

  /** The bank is open for a request that decides. */
  ghost predicate Useful(c: Config, s: Mc, bk: BankId)
    requires bk in s.banks
  {
    IsOpen(s.banks[bk]) && exists j: nat :: Decides(c, s, bk, j) && s.req[j].page == s.banks[bk].page
  }

  ghost function Useless(c: Config, s: Mc): set<BankId> {
    set bk | bk in s.banks && !Useful(c, s, bk)
  }

  ghost function OpenForNobody(c: Config, s: Mc): set<BankId> {
    set bk | bk in s.banks && IsOpen(s.banks[bk]) && !Useful(c, s, bk)
  }

  /** What every command decreases: three commands are owed per request, one more per bank that is not
      open for a request, and another one if it has to be closed first. */
  ghost function Owed(c: Config, s: Mc): nat {
    3 * |s.req| + |Useless(c, s)| + |OpenForNobody(c, s)|
  }

  lemma OwedAtMost(c: Config, s: Mc)
    ensures Owed(c, s) <= 3 * |s.req| + 2 * |s.banks|
  {
    SubsetSize(Useless(c, s), s.banks.Keys);
    SubsetSize(OpenForNobody(c, s), s.banks.Keys);
  }

  /** Commands on one bank leave the other banks as useful as they are. */
  lemma SameUseful(c: Config, s: Mc, s': Mc, bk: BankId)
    requires s'.req == s.req && s'.mark == s.mark && bk in s.banks && bk in s'.banks && s.banks[bk] == s'.banks[bk]
    ensures Useful(c, s, bk) <==> Useful(c, s', bk)
  {
    assert forall j: nat :: Decides(c, s, bk, j) <==> Decides(c, s', bk, j);
  }

  /** An activate is issued for a request that decides, because the rule prefers the batch. */
  lemma ActDecides(c: Config, s: Mc, t: int, i: nat)
    requires Shape(s) && BatchInv(c, s) && IsSelected(c, s, t, i) && !IsOpen(s.banks[s.req[i].bk])
    ensures Decides(c, s, s.req[i].bk, i)
  {
    if Marked(s, s.req[i].bk) && i > s.mark {
      var j: nat :| j < |s.req| && j <= s.mark && s.req[j].bk == s.req[i].bk;
      assert Issuable(c, s, j, t);
    }
  }

  lemma ActOwed(c: Config, s: Mc, t: int, i: nat)
    requires Shape(s) && BatchInv(c, s) && IsSelected(c, s, t, i) && !IsOpen(s.banks[s.req[i].bk])
    ensures Owed(c, IssueAct(s, t, i)) == Owed(c, s) - 1
  {
    var s' := IssueAct(s, t, i);
    var bk := s.req[i].bk;
    ActDecides(c, s, t, i);
    assert Useful(c, s', bk) by {
      assert Decides(c, s', bk, i);
    }
    forall b | b in s.banks && b != bk ensures Useful(c, s, b) <==> Useful(c, s', b) { SameUseful(c, s, s', b); }
    hide Useful;
    assert !Useful(c, s, bk) by { NotOpen(c, s, bk); }
    assert Useless(c, s') == Useless(c, s) - {bk};
    assert OpenForNobody(c, s') == OpenForNobody(c, s);
  }

  lemma NotOpen(c: Config, s: Mc, bk: BankId)
    requires bk in s.banks && !IsOpen(s.banks[bk])
    ensures !Useful(c, s, bk)
  {
  }

  /** A bank is precharged only when no request that decides wants its row. */
  lemma PreDecides(c: Config, s: Mc, i: nat)
    requires Shape(s) && BatchInv(c, s) && i < |s.req| && i < c.window && NeedPrecharge(c, s, i)
    requires s.banks[s.req[i].bk].page != s.req[i].page
    ensures !Useful(c, s, s.req[i].bk)
  {
    var bk := s.req[i].bk;
    if Useful(c, s, bk) {
      var j: nat :| Decides(c, s, bk, j) && s.req[j].page == s.banks[bk].page;
      assert WantsRow(s, j, bk, s.banks[bk].page);
      assert Marked(s, bk) <== i <= s.mark;
    }
  }

  lemma PreOwed(c: Config, s: Mc, t: int, i: nat)
    requires Shape(s) && BatchInv(c, s) && i < |s.req| && i < c.window && NeedPrecharge(c, s, i)
    requires s.banks[s.req[i].bk].page != s.req[i].page && IsOpen(s.banks[s.req[i].bk])
    ensures Owed(c, IssuePre(c, s, t, i)) == Owed(c, s) - 1
  {
    var s' := IssuePre(c, s, t, i);
    var bk := s.req[i].bk;
    PreDecides(c, s, i);
    NotOpen(c, s', bk);
    forall b | b in s.banks && b != bk ensures Useful(c, s, b) <==> Useful(c, s', b) { SameUseful(c, s, s', b); }
    hide Useful;
    assert Useless(c, s') == Useless(c, s);
    assert OpenForNobody(c, s') == OpenForNobody(c, s) - {bk};
  }

  /** Where request j is after request i has left. */
  function Moved(i: nat, j: nat): nat
    requires j != i
  {
    if j < i then j else j - 1
  }

  /** Serving a request of another bank keeps a bank useful, also when it ends the batch. */
  lemma ColumnUseful(c: Config, s: Mc, s': Mc, i: nat, bk: BankId)
    requires ValidConfig(c) && BatchInv(c, s) && i < |s.req| && s.req[i].bk != bk
    requires bk in s.banks && bk in s'.banks && s'.banks[bk] == s.banks[bk]
    requires s'.req == RemoveAt(s.req, i) && s'.mark == NewMark(c, |s.req|, s.mark, i)
    ensures Useful(c, s, bk) ==> Useful(c, s', bk)
  {
    if Useful(c, s, bk) {
      var j: nat :| Decides(c, s, bk, j) && s.req[j].page == s.banks[bk].page;
      if Marked(s', bk) && !(s.mark == i == 0) {
        var k: nat :| k < |s'.req| && k <= s'.mark && s'.req[k].bk == bk;
        assert s.req[if k < i then k else k + 1].bk == bk;
        assert Marked(s, bk);
      }
      assert Decides(c, s', bk, Moved(i, j));
    }
  }

  lemma ColumnOwed(c: Config, s: Mc, t: int, i: nat)
    requires ValidConfig(c) && Shape(s) && BatchInv(c, s) && i < |s.req|
    ensures Owed(c, IssueCol(c, s, t, i)) < Owed(c, s)
  {
    var s' := IssueCol(c, s, t, i);
    var bk := s.req[i].bk;
    forall b | b in s.banks && b != bk && Useful(c, s, b) ensures Useful(c, s', b) { ColumnUseful(c, s, s', i, b); }
    hide Useful;
    assert s'.banks.Keys == s.banks.Keys;
    SubsetSize(Useless(c, s'), Useless(c, s) + {bk});
    SubsetSize(OpenForNobody(c, s'), OpenForNobody(c, s) + {bk});
  }

  /** Under the open policy each issued command decreases what is owed. */
  lemma CommandDecreases(c: Config, s: Mc, t: int, i: nat)
    requires ValidConfig(c) && Shape(s) && BatchInv(c, s) && c.policy.Open? && IsSelected(c, s, t, i)
    ensures var (s', cmds) := Issue(c, s, t, i); |cmds| == 1 && Owed(c, s') < Owed(c, s)
  {
    IssuableFacts(c, s, i, t);
    var b, r := s.banks[s.req[i].bk], s.req[i];
    hide Owed, Issuable, IsSelected;
    if !IsOpen(b) {
      ActOwed(c, s, t, i);
    } else if b.page != r.page {
      assert i < c.window by { InWindow(c, s, t, i); }
      PreOwed(c, s, t, i);
    } else {
      ColumnOwed(c, s, t, i);
    }
  }

  lemma InWindow(c: Config, s: Mc, t: int, i: nat)
    requires Shape(s) && IsSelected(c, s, t, i)
    ensures i < c.window
  {
  }

  /** Forgetting slots changes nothing that is owed. */
  lemma SameOwed(c: Config, s: Mc, s': Mc)
    requires s'.req == s.req && s'.mark == s.mark && s'.banks == s.banks
    ensures Owed(c, s') == Owed(c, s)
  {
    forall b | b in s.banks ensures Useful(c, s, b) <==> Useful(c, s', b) { SameUseful(c, s, s', b); }
    hide Useful;
    assert Useless(c, s') == Useless(c, s) && OpenForNobody(c, s') == OpenForNobody(c, s);
  }

  /** When the oldest request's bank and the bus are ready, something can be issued. */
  lemma HeadIssuable(c: Config, s: Mc, t: int)
    requires ValidConfig(c) && Shape(s) && c.policy.Open? && s.req != []
    requires BankReady(c, s.banks[s.req[0].bk], t) && s.lastAct[s.req[0].bk.rank] + Ticks(c, c.tRR) <= t
    requires forall j: nat :: j < |s.req| ==> BusAllows(c, s, s.req[j], t)
    ensures AnyIssuable(c, s, t)
  {
    var bk := s.req[0].bk;
    if IsOpen(s.banks[bk]) && s.banks[bk].page != s.req[0].page && !NeedPrecharge(c, s, 0) {
      var j: nat :| j < |s.req| && j < c.window && j != 0 && WantsRow(s, j, bk, s.banks[bk].page);
      assert WantsRow(s, j, bk, s.banks[bk].page);
      assert s.req[j].bk == bk;
      assert BusAllows(c, s, s.req[j], t);
      assert Issuable(c, s, j, t);
    } else {
      assert Issuable(c, s, 0, t);
    }
  }
}
