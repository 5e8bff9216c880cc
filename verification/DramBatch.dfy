/** Batch and queue bookkeeping of the DRAM controller, over whole runs. */
module DramBatch {
  import opened Dram
  import opened DramTiming

  /** The requests of the current batch. */
  function Batch(s: Mc): seq<Req>
    requires -1 <= s.mark < |s.req|
  {
    s.req[..s.mark + 1]
  }

  ghost predicate BatchInv(c: Config, s: Mc) {
    && (c.parBs ==> forall th :: 0 <= th < |s.cnt| ==> s.cnt[th] == Count(s.req, th))
    && (!c.parBs ==> forall th :: 0 <= th < |s.cnt| ==> s.cnt[th] == 0)
    && (c.parBs ==> -1 <= s.mark < Min(|s.req|, c.window) && (s.mark == -1 <==> s.req == []))
    && (!c.parBs ==> s.mark == -1)
  }

  lemma {:induction false} CountConcat(a: seq<Req>, b: seq<Req>, th: nat)
    ensures Count(a + b, th) == Count(a, th) + Count(b, th)
  {
    if b == [] {
      assert a + b == a;
    } else {
      var n := |b| - 1;
      assert (a + b)[..|a + b| - 1] == a + b[..n];
      CountConcat(a, b[..n], th);
    }
  }

  lemma CountRemoveAt(q: seq<Req>, i: nat, th: nat)
    requires i < |q|
    ensures Count(q, th) == Count(RemoveAt(q, i), th) + (if q[i].th == th then 1 else 0)
  {
    assert q == q[..i] + ([q[i]] + q[i + 1..]);
    CountConcat(q[..i], [q[i]] + q[i + 1..], th);
    CountConcat([q[i]], q[i + 1..], th);
    CountConcat(q[..i], q[i + 1..], th);
    assert Count([q[i]], th) == (if q[i].th == th then 1 else 0) by {
      assert [q[i]][..0] == [];
    }
  }

  lemma {:induction false} CountBound(q: seq<Req>, th: nat)
    ensures Count(q, th) <= |q|
  {
    if q != [] { CountBound(q[..|q| - 1], th); }
  }

  lemma ArrivalsCounted(c: Config, s: Mc, arrivals: seq<Req>, th: nat)
    requires BatchInv(c, s) && th < |s.cnt|
    ensures EnqueueAll(c, s, arrivals).cnt[th] == if c.parBs then Count(s.req + arrivals, th) else 0
  {
    CountConcat(s.req, arrivals, th);
  }

  /** Arrivals are counted, and join the batch only when there is none. */
  lemma ReadyBatch(c: Config, s: Mc, t: int, arrivals: seq<Req>)
    requires ValidConfig(c) && BatchInv(c, s)
    ensures var s1 := Ready(c, s, t, arrivals);
            && BatchInv(c, s1)
            && (s.mark >= 0 ==> s1.mark == s.mark && Batch(s1) == Batch(s))
            && (c.parBs && s.mark == -1 ==> Batch(s1) == s1.req[..Min(|s1.req|, c.window)])
  {
    var s1 := Ready(c, s, t, arrivals);
    assert s1.req == s.req + arrivals && |s1.cnt| == |s.cnt|;
    forall th | 0 <= th < |s.cnt| ensures s1.cnt[th] == if c.parBs then Count(s1.req, th) else 0 {
      ArrivalsCounted(c, s, arrivals, th);
    }
  }

  lemma ColumnCount(c: Config, s: Mc, i: nat)
    requires Shape(s) && i < |s.req| && c.parBs
    requires forall th :: 0 <= th < |s.cnt| ==> s.cnt[th] == Count(s.req, th)
    ensures var r := s.req[i];
            var cnt' := s.cnt[r.th := s.cnt[r.th] - 1];
            forall th :: 0 <= th < |s.cnt| ==> cnt'[th] == Count(RemoveAt(s.req, i), th)
  {
    forall th | 0 <= th < |s.cnt| {
      CountRemoveAt(s.req, i, th);
    }
  }

  /** The batch after request i has been removed from the queue. */
  function BatchWithout(c: Config, s: Mc, i: nat): seq<Req>
    requires ValidConfig(c) && -1 <= s.mark < |s.req| && i < |s.req|
  {
    var rest := RemoveAt(s.req, i);
    if i > s.mark then Batch(s)
    else if s.mark > 0 then RemoveAt(Batch(s), i)
    else rest[..Min(|rest|, c.window)]
  }

  lemma ColumnMark(c: Config, s: Mc, i: nat)
    requires ValidConfig(c) && c.parBs && i < |s.req| && 0 <= s.mark < Min(|s.req|, c.window)
    ensures var rest, mark' := RemoveAt(s.req, i), NewMark(c, |s.req|, s.mark, i);
            && -1 <= mark' < Min(|rest|, c.window) && (mark' == -1 <==> rest == [])
            && rest[..mark' + 1] == BatchWithout(c, s, i)
  {
    var rest := RemoveAt(s.req, i);
    if s.mark < i {
      assert rest[..s.mark + 1] == s.req[..s.mark + 1];
    } else if s.mark > 0 {
      assert rest[..s.mark] == RemoveAt(s.req[..s.mark + 1], i);
    }
  }

  lemma ColumnBatch(c: Config, s: Mc, t: int, i: nat)
    requires ValidConfig(c) && Shape(s) && BatchInv(c, s) && i < |s.req|
    ensures var s' := IssueCol(c, s, t, i);
            BatchInv(c, s') && (c.parBs ==> Batch(s') == BatchWithout(c, s, i))
  {
    if c.parBs {
      ColumnCount(c, s, i);
      ColumnMark(c, s, i);
    }
  }

  /** A row command leaves the queue and the batch alone.  A column command removes its request from
      the queue and from the batch; only when that leaves no batch, the next one is the first
      `window` requests that are then queued. */
  lemma IssueBatch(c: Config, s: Mc, t: int, i: nat)
    requires ValidConfig(c) && Shape(s) && BatchInv(c, s) && i < |s.req|
    ensures var (s', cmds) := Issue(c, s, t, i);
            && BatchInv(c, s')
            && (cmds == [] || !cmds[0].Col? ==> s'.req == s.req && s'.mark == s.mark)
            && (cmds != [] && cmds[0].Col? ==> s'.req == RemoveAt(s.req, i) && cmds[0].r == s.req[i])
            && (cmds != [] && cmds[0].Col? && c.parBs ==> Batch(s') == BatchWithout(c, s, i))
  {
    ColumnBatch(c, s, t, i);
    assert IssueAct(s, t, i).req == IssuePre(c, s, t, i).req == s.req;
    hide Count, BatchWithout, NewMark, RemoveAt;
  }

  /** What one call does to the batch, whatever arrives and whatever is issued. */
  lemma StepBatch(c: Config, s: Mc, t: int, arrivals: seq<Req>)
    requires ValidConfig(c) && Shape(s) && WfArrivals(s, arrivals) && BatchInv(c, s)
    ensures var (s', cmds) := Step(c, s, t, arrivals); BatchInv(c, s')
  {
    var s1 := Ready(c, s, t, arrivals);
    ReadyShape(c, s, t, arrivals);
    ReadyBatch(c, s, t, arrivals);
    var i := Selected(c, s1, t);
    if i >= 0 { IssueBatch(c, s1, t, i); }
  }

  lemma {:induction false} RunBatch(c: Config, s: Mc, inputs: seq<Input>)
    requires ValidConfig(c) && Initial(c, s) && Shape(s) && ValidInputs(c, s, inputs)
    ensures BatchInv(c, Run(c, s, inputs).s)
  {
    if inputs != [] {
      var n := |inputs| - 1;
      ValidPrefix(c, s, inputs, n);
      RunBatch(c, s, inputs[..n]);
      StepBatch(c, Run(c, s, inputs[..n]).s, inputs[n].t, inputs[n].arrivals);
    }
  }

  /** The batch b becomes b' in a call that issues cmds: it stays, or the command serves its member i,
      which leaves it; a new batch is formed only in place of the last member. */
  ghost predicate BatchServed(b: seq<Req>, b': seq<Req>, cmds: seq<Cmd>) {
    b' == b || exists i: nat :: MemberServed(b, b', cmds, i)
  }

  predicate MemberServed(b: seq<Req>, b': seq<Req>, cmds: seq<Cmd>, i: nat) {
    i < |b| && cmds != [] && cmds[0].Col? && cmds[0].r == b[i] && (|b| > 1 ==> b' == RemoveAt(b, i))
  }

  lemma IssueServes(c: Config, s: Mc, t: int, i: nat)
    requires ValidConfig(c) && Shape(s) && BatchInv(c, s) && i < |s.req| && c.parBs && s.mark >= 0
    ensures var (s', cmds) := Issue(c, s, t, i);
            -1 <= s'.mark < |s'.req| && BatchServed(Batch(s), Batch(s'), cmds)
  {
    IssueBatch(c, s, t, i);
    var (s', cmds) := Issue(c, s, t, i);
    hide Issue, Count;
    if cmds != [] && cmds[0].Col? && i <= s.mark {
      assert MemberServed(Batch(s), Batch(s'), cmds, i);
    }
  }

  /** A batch member stays in the batch until it is served: from one call to the next a non-empty
      batch loses at most the one request that was served, gains nothing, and keeps its order. */
  lemma BatchIsClosed(c: Config, s: Mc, t: int, arrivals: seq<Req>)
    requires ValidConfig(c) && Shape(s) && WfArrivals(s, arrivals) && BatchInv(c, s) && c.parBs && s.mark >= 0
    ensures var (s', cmds) := Step(c, s, t, arrivals);
            -1 <= s'.mark < |s'.req| && BatchServed(Batch(s), Batch(s'), cmds)
  {
    var s1 := Ready(c, s, t, arrivals);
    ReadyShape(c, s, t, arrivals);
    ReadyBatch(c, s, t, arrivals);
    hide Issue, BatchServed, Ready;
    var i := Selected(c, s1, t);
    if i >= 0 {
      IssueServes(c, s1, t, i);
    } else {
      NoCommand(Batch(s));
    }
  }

  lemma NoCommand(b: seq<Req>)
    ensures BatchServed(b, b, [])
  {
  }

  // ---------------------------------------------------------------- nothing is lost or duplicated

  /** The requests whose column command is in the history. */
  ghost function Served(log: seq<Cmd>): multiset<Req> {
    if log == [] then multiset{}
    else
      var x := log[|log| - 1];
      Served(log[..|log| - 1]) + (if x.Col? then multiset{x.r} else multiset{})
  }

  /** Every request that ever became due. */
  ghost function Arrived(inputs: seq<Input>): multiset<Req> {
    if inputs == [] then multiset{}
    else Arrived(inputs[..|inputs| - 1]) + multiset(inputs[|inputs| - 1].arrivals)
  }

  lemma MultisetRemoveAt(q: seq<Req>, i: nat)
    requires i < |q|
    ensures multiset(q) == multiset(RemoveAt(q, i)) + multiset{q[i]}
  {
    assert q == q[..i] + ([q[i]] + q[i + 1..]);
  }

  lemma ServedAppend(log: seq<Cmd>, x: Cmd)
    ensures Served(log + [x]) == Served(log) + (if x.Col? then multiset{x.r} else multiset{})
  {
    assert (log + [x])[..|log|] == log;
  }

  lemma IssueConserves(c: Config, s: Mc, t: int, i: nat, log: seq<Cmd>)
    requires Shape(s) && i < |s.req|
    ensures var (s', cmds) := Issue(c, s, t, i);
            multiset(s'.req) + Served(log + cmds) == multiset(s.req) + Served(log)
  {
    var (s', cmds) := Issue(c, s, t, i);
    if cmds == [] {
      assert log + cmds == log;
    } else {
      assert cmds == [cmds[0]];
      ServedAppend(log, cmds[0]);
      MultisetRemoveAt(s.req, i);
    }
  }

  lemma StepConserves(c: Config, tr: Trace, input: Input)
    requires Shape(tr.s) && WfArrivals(tr.s, input.arrivals)
    ensures var tr' := StepTrace(c, tr, input);
            multiset(tr'.s.req) + Served(tr'.log)
              == multiset(tr.s.req) + Served(tr.log) + multiset(input.arrivals)
  {
    var s1 := Ready(c, tr.s, input.t, input.arrivals);
    ReadyShape(c, tr.s, input.t, input.arrivals);
    assert multiset(s1.req) == multiset(tr.s.req) + multiset(input.arrivals);
    var i := Selected(c, s1, input.t);
    if i >= 0 {
      IssueConserves(c, s1, input.t, i, tr.log);
    } else {
      assert tr.log + [] == tr.log;
    }
  }

  /** In every run each request that became due is either still queued or was served by exactly one
      column command, with multiplicity. */
  lemma {:induction false} RequestsConserved(c: Config, s: Mc, inputs: seq<Input>)
    requires ValidConfig(c) && Initial(c, s) && Shape(s) && ValidInputs(c, s, inputs)
    ensures multiset(Run(c, s, inputs).s.req) + Served(Run(c, s, inputs).log) == Arrived(inputs)
  {
    if inputs != [] {
      var n := |inputs| - 1;
      ValidPrefix(c, s, inputs, n);
      RequestsConserved(c, s, inputs[..n]);
      StepConserves(c, Run(c, s, inputs[..n]), inputs[n]);
    }
  }
}
