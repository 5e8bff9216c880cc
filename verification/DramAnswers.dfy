/** What the memory controller answers: every served request except evictions, once, with the request. */
module DramAnswers {
  import opened Dram
  import opened DramTiming

  /** The messages for the directory that the commands of a call at time t give rise to. */
  function Replies(c: Config, cmds: seq<Cmd>, t: int): seq<(int, Req)> {
    if |cmds| == 1 && cmds[0].Col? then Reply(c, cmds[0].r, t) else []
  }

  /** The message that answers a served request. */
  function Reply(c: Config, r: Req, t: int): seq<(int, Req)> {
    if IsRead(r.typ) then [(t + c.mcToDir, r)]
    else if r.typ.SRdWr? then [(t + c.mcToDir, r.(typ := SRd))]
    else []
  }

  /** The messages of a whole run, oldest first. */
  ghost function Sent(c: Config, s: Mc, inputs: seq<Input>): seq<(int, Req)>
    requires ValidConfig(c) && Shape(s) && ValidInputs(c, s, inputs)
  {
    if inputs == [] then []
    else
      var n := |inputs| - 1;
      ValidPrefix(c, s, inputs, n);
      var now := Run(c, s, inputs[..n]).s;
      assert WfArrivals(now, inputs[n].arrivals);
      Sent(c, s, inputs[..n]) + Replies(c, Step(c, now, inputs[n].t, inputs[n].arrivals).1, inputs[n].t)
  }

  predicate Eviction(r: Req) {
    r.typ == Evict || r.typ == DirEvict
  }

  /** The column commands that serve something other than an eviction. */
  function Services(log: seq<Cmd>): seq<Cmd> {
    if log == [] then []
    else
      var x := log[|log| - 1];
      Services(log[..|log| - 1]) + if x.Col? && !Eviction(x.r) then [x] else []
  }

  /** The answer to a column command: mcToDir later, the request itself, a read-and-write as a read. */
  predicate Answers(c: Config, m: (int, Req), x: Cmd) {
    && x.Col? && m.0 == x.t + c.mcToDir
    && m.1 == Req(x.r.id, if x.r.typ == SRdWr then SRd else x.r.typ, x.r.bk, x.r.page, x.r.th)
  }

  ghost predicate AllAnswered(c: Config, sent: seq<(int, Req)>, log: seq<Cmd>) {
    |sent| == |Services(log)| && forall k :: 0 <= k < |sent| ==> Answers(c, sent[k], Services(log)[k])
  }

  /** One call issues at most one command, at its time, for the bank of its request. */
  lemma OneCommand(c: Config, s: Mc, t: int, arrivals: seq<Req>)
    requires Shape(s) && WfArrivals(s, arrivals)
    ensures var cmds := Step(c, s, t, arrivals).1;
      |cmds| <= 1 && forall k :: 0 <= k < |cmds| ==> cmds[k].t == t && (cmds[k].Col? ==> cmds[k].bk == cmds[k].r.bk)
  {
    hide Ready, Selected, IssueAct, IssuePre, IssueCol, KeepOpen;
    ReadyShape(c, s, t, arrivals);
  }

  lemma ServicesAppend(log: seq<Cmd>, x: Cmd)
    ensures Services(log + [x]) == Services(log) + if x.Col? && !Eviction(x.r) then [x] else []
  {
    assert (log + [x])[..|log|] == log;
  }

  lemma AnswerOne(c: Config, sent: seq<(int, Req)>, log: seq<Cmd>, cmds: seq<Cmd>, t: int)
    requires AllAnswered(c, sent, log) && |cmds| <= 1 && (cmds != [] ==> cmds[0].t == t)
    ensures AllAnswered(c, sent + Replies(c, cmds, t), log + cmds)
  {
    if cmds == [] {
      assert log + cmds == log && sent + [] == sent;
    } else {
      assert cmds == [cmds[0]];
      ServicesAppend(log, cmds[0]);
    }
  }

  /** In every run the messages are, in order, exactly the answers to the column commands that serve
      something other than an eviction: sent mcToDir after the command, with the request unchanged
      except that a read-and-write is answered as a read. */
  lemma {:induction false} AnsweredInOrder(c: Config, s: Mc, inputs: seq<Input>)
    requires ValidConfig(c) && Shape(s) && ValidInputs(c, s, inputs)
    ensures AllAnswered(c, Sent(c, s, inputs), Run(c, s, inputs).log)
  {
    if inputs != [] {
      var n := |inputs| - 1;
      ValidPrefix(c, s, inputs, n);
      AnsweredInOrder(c, s, inputs[..n]);
      var tr := Run(c, s, inputs[..n]);
      assert WfArrivals(tr.s, inputs[n].arrivals);
      OneCommand(c, tr.s, inputs[n].t, inputs[n].arrivals);
      AnswerOne(c, Sent(c, s, inputs[..n]), tr.log, Step(c, tr.s, inputs[n].t, inputs[n].arrivals).1, inputs[n].t);
    }
  }

  // ---------------------------------------------------------------- nothing is left unanswered

  /** How many requests with this identification, evictions apart, are in the list. */
  function Wanting(q: seq<Req>, id: int): nat {
    if q == [] then 0
    else Wanting(q[..|q| - 1], id) + if q[|q| - 1].id == id && !Eviction(q[|q| - 1]) then 1 else 0
  }

  function Answered(sent: seq<(int, Req)>, id: int): nat {
    if sent == [] then 0 else Answered(sent[..|sent| - 1], id) + if sent[|sent| - 1].1.id == id then 1 else 0
  }

  ghost function Arriving(inputs: seq<Input>): seq<Req> {
    if inputs == [] then [] else Arriving(inputs[..|inputs| - 1]) + inputs[|inputs| - 1].arrivals
  }

  lemma {:induction false} WantingConcat(a: seq<Req>, b: seq<Req>, id: int)
    ensures Wanting(a + b, id) == Wanting(a, id) + Wanting(b, id)
  {
    if b == [] {
      assert a + b == a;
    } else {
      assert (a + b)[..|a + b| - 1] == a + b[..|b| - 1];
      WantingConcat(a, b[..|b| - 1], id);
    }
  }

  lemma WantingRemoveAt(q: seq<Req>, i: nat, id: int)
    requires i < |q|
    ensures Wanting(q, id) == Wanting(RemoveAt(q, i), id) + if q[i].id == id && !Eviction(q[i]) then 1 else 0
  {
    assert q == q[..i] + ([q[i]] + q[i + 1..]);
    WantingConcat(q[..i], [q[i]] + q[i + 1..], id);
    WantingConcat([q[i]], q[i + 1..], id);
    WantingConcat(q[..i], q[i + 1..], id);
    assert [q[i]][..0] == [];
  }

  lemma AnsweredAppend(sent: seq<(int, Req)>, more: seq<(int, Req)>, id: int)
    requires |more| <= 1
    ensures Answered(sent + more, id) == Answered(sent, id) + if more != [] && more[0].1.id == id then 1 else 0
  {
    if more == [] {
      assert sent + more == sent;
    } else {
      assert (sent + more)[..|sent|] == sent;
    }
  }

  lemma IssueAnswers(c: Config, s: Mc, t: int, i: nat, id: int)
    requires Shape(s) && i < |s.req|
    ensures var (s', cmds) := Issue(c, s, t, i);
      var more := Replies(c, cmds, t);
      && |more| <= 1
      && Wanting(s.req, id) == Wanting(s'.req, id) + if more != [] && more[0].1.id == id then 1 else 0
  {
    WantingRemoveAt(s.req, i, id);
    hide KeepOpen, BankAfterColumn, Burst, Wanting;
  }

  lemma StepAnswers(c: Config, s: Mc, t: int, arrivals: seq<Req>, id: int)
    requires Shape(s) && WfArrivals(s, arrivals)
    ensures var (s', cmds) := Step(c, s, t, arrivals);
      var more := Replies(c, cmds, t);
      && |more| <= 1
      && Wanting(s.req, id) + Wanting(arrivals, id) == Wanting(s'.req, id) + if more != [] && more[0].1.id == id then 1 else 0
  {
    var s1 := Ready(c, s, t, arrivals);
    ReadyShape(c, s, t, arrivals);
    assert s1.req == s.req + arrivals;
    WantingConcat(s.req, arrivals, id);
    var i := Selected(c, s1, t);
    hide Ready, Issue, Wanting;
    if i >= 0 { IssueAnswers(c, s1, t, i, id); }
  }

  /** In every run each request that became due, evictions apart, is still queued or has been answered
      exactly once. */
  lemma {:induction false} EveryRequestAnswered(c: Config, s: Mc, inputs: seq<Input>, id: int)
    requires ValidConfig(c) && Initial(c, s) && Shape(s) && ValidInputs(c, s, inputs)
    ensures Wanting(Arriving(inputs), id) == Wanting(Run(c, s, inputs).s.req, id) + Answered(Sent(c, s, inputs), id)
  {
    if inputs != [] {
      var n := |inputs| - 1;
      ValidPrefix(c, s, inputs, n);
      EveryRequestAnswered(c, s, inputs[..n], id);
      var now := Run(c, s, inputs[..n]).s;
      assert WfArrivals(now, inputs[n].arrivals);
      var (s', cmds) := Step(c, now, inputs[n].t, inputs[n].arrivals);
      StepAnswers(c, now, inputs[n].t, inputs[n].arrivals, id);
      WantingConcat(Arriving(inputs[..n]), inputs[n].arrivals, id);
      AnsweredAppend(Sent(c, s, inputs[..n]), Replies(c, cmds, inputs[n].t), id);
      hide Step, Wanting, Answered;
    }
  }
}
