/** Bank and rank timing of the DRAM controller, over whole command histories. */
module DramTiming {
  import opened Dram

  /** What happens at one call: its time and the requests that become due. */
  datatype Input = Input(t: int, arrivals: seq<Req>)

  ghost predicate Initial(c: Config, s: Mc) {
    && s.req == [] && s.mark == -1
    && (forall i :: 0 <= i < |s.cnt| ==> s.cnt[i] == 0)
    && (forall b :: b in s.banks ==> s.banks[b] == Bank(0, 0, Idle, 0) && b.rank < |s.lastAct|)
    && |s.lastAct| == |s.lastWr| == |s.lastRdRank|
    && (forall i :: 0 <= i < |s.lastAct| ==> s.lastAct[i] == s.lastWr[i] == s.lastRdRank[i] == 0)
    && s.lastRd == (0, 0) && s.dp == map[] && s.rdDp == map[] && s.wrDp == map[]
  }

  /** Calls come at non-decreasing times that are multiples of the process interval. */
  ghost predicate ValidInputs(c: Config, s: Mc, inputs: seq<Input>)
    requires ValidConfig(c)
  {
    && (forall k :: 0 <= k < |inputs| ==> inputs[k].t >= 0 && inputs[k].t % c.pi == 0)
    && (forall k :: 0 <= k < |inputs| ==> WfArrivals(s, inputs[k].arrivals))
    && (forall k, l :: 0 <= k < l < |inputs| ==> inputs[k].t <= inputs[l].t)
  }

  /** A controller state with every command issued so far, oldest first. */
  datatype Trace = Trace(s: Mc, log: seq<Cmd>)

  ghost function StepTrace(c: Config, tr: Trace, input: Input): (tr': Trace)
    requires Shape(tr.s) && WfArrivals(tr.s, input.arrivals)
    ensures Shape(tr'.s) && SameDims(tr.s, tr'.s)
  {
    StepShape(c, tr.s, input.t, input.arrivals);
    var (s', cmds) := Step(c, tr.s, input.t, input.arrivals);
    Trace(s', tr.log + cmds)
  }

  /** The state and the command history after the calls `inputs`. */
  ghost function Run(c: Config, s: Mc, inputs: seq<Input>): (tr: Trace)
    requires ValidConfig(c) && Shape(s) && ValidInputs(c, s, inputs)
    ensures Shape(tr.s) && SameDims(s, tr.s)
  {
    if inputs == [] then Trace(s, [])
    else
      var n := |inputs| - 1;
      ValidPrefix(c, s, inputs, n);
      var tr := Run(c, s, inputs[..n]);
      assert WfArrivals(tr.s, inputs[n].arrivals);
      StepTrace(c, tr, inputs[n])
  }

  ghost function LastTime(inputs: seq<Input>): int {
    if inputs == [] then 0 else inputs[|inputs| - 1].t
  }

  lemma ValidPrefix(c: Config, s: Mc, inputs: seq<Input>, n: nat)
    requires ValidConfig(c) && ValidInputs(c, s, inputs) && n <= |inputs|
    ensures ValidInputs(c, s, inputs[..n])
  {
  }

  // ---------------------------------------------------------------- the timing rules

  /** `i` is the latest ACT of bank `bk` among the first `j` commands, and the bank stays open
      from there to `j`. */
  ghost predicate OpenedBy(log: seq<Cmd>, i: int, j: int, bk: BankId) {
    && 0 <= i < j <= |log| && log[i].Act? && log[i].bk == bk
    && forall m :: i < m < j && log[m].bk == bk ==> log[m].Col? && !log[m].autoPre
  }

  /** The rules between an older command `x` and a younger command `y`. */
  ghost predicate PairLegal(c: Config, x: Cmd, y: Cmd) {
    && (x.Act? && y.Act? && x.bk == y.bk ==> x.t + Ticks(c, c.tRAS) + 2 * Ticks(c, c.tRP) <= y.t)
    && (x.Act? && y.Act? && x.bk.rank == y.bk.rank ==> x.t + Ticks(c, c.tRR) <= y.t)
    && (x.Col? && y.Col? && x.bk == y.bk ==> x.t + Ticks(c, c.tBBL) <= y.t)
  }

  /** The bank and rank timing rules for every pair of commands of a history. */
  ghost predicate BankTimingLegal(c: Config, log: seq<Cmd>) {
    && (forall i, j :: 0 <= i < j < |log| ==> PairLegal(c, log[i], log[j]))
    && (forall j :: 0 <= j < |log| && log[j].Col? ==> ColumnLegal(c, log, j))
  }

  /** A column command targets the row that its bank has open, tRCD after the ACT. */
  ghost predicate ColumnLegal(c: Config, log: seq<Cmd>, j: int)
    requires 0 <= j < |log| && log[j].Col?
  {
    exists i :: OpenedBy(log, i, j, log[j].bk)
             && log[i].page == log[j].r.page && log[i].t + Ticks(c, c.tRCD) <= log[j].t
  }

  // ---------------------------------------------------------------- the invariant

  /** What the stored state of bank `bk` says about the history. */
  ghost predicate BankInv(c: Config, b: Bank, bk: BankId, log: seq<Cmd>) {
    && (b.action.Idle? ==> forall i :: 0 <= i < |log| ==> log[i].bk != bk)
    && (forall i :: 0 <= i < |log| && log[i].bk == bk ==> !log[i].Pre? ==> log[i].t <= b.actionTime)
    && (forall i :: 0 <= i < |log| && log[i].bk == bk && log[i].Act? ==> log[i].t <= b.lastAct)
    && (b.action.Precharge? ==> b.lastAct + Ticks(c, c.tRAS) + Ticks(c, c.tRP) <= b.actionTime)
    && (b.action.Activate? ==> b.actionTime == b.lastAct)
    && (b.action.Read? || b.action.Write? ==> b.lastAct + Ticks(c, c.tRCD) <= b.actionTime)
    && (IsOpen(b) ==> exists i :: OpenedBy(log, i, |log|, bk) && log[i].page == b.page && log[i].t == b.lastAct)
  }

  /** The stored bank and rank state summarises the history. */
  ghost predicate TimingInv(c: Config, banks: map<BankId, Bank>, lastAct: seq<int>, log: seq<Cmd>) {
    && (forall bk :: bk in banks ==> bk.rank < |lastAct|)
    && (forall bk :: bk in banks ==> BankInv(c, banks[bk], bk, log))
    && (forall i :: 0 <= i < |log| ==> log[i].bk in banks)
    && (forall i :: 0 <= i < |log| && log[i].Act? ==> log[i].t <= lastAct[log[i].bk.rank])
  }

  /** A command on another bank leaves what is known about bank `bk` intact. */
  lemma OtherBankInv(c: Config, b: Bank, bk: BankId, log: seq<Cmd>, cmd: Cmd)
    requires BankInv(c, b, bk, log) && cmd.bk != bk
    ensures BankInv(c, b, bk, log + [cmd])
  {
    var log' := log + [cmd];
    if IsOpen(b) {
      var i :| OpenedBy(log, i, |log|, bk) && log[i].page == b.page && log[i].t == b.lastAct;
      assert OpenedBy(log', i, |log'|, bk);
    }
  }

  /** The invariant after a command on bank `bk`, given what becomes known about that bank. */
  lemma CommandInv(c: Config, banks: map<BankId, Bank>, lastAct: seq<int>, log: seq<Cmd>,
                   cmd: Cmd, b': Bank, lastAct': seq<int>)
    requires TimingInv(c, banks, lastAct, log) && cmd.bk in banks
    requires BankInv(c, b', cmd.bk, log + [cmd])
    requires |lastAct'| == |lastAct| && forall i :: 0 <= i < |lastAct| ==> lastAct[i] <= lastAct'[i]
    requires cmd.Act? ==> cmd.t <= lastAct'[cmd.bk.rank]
    ensures TimingInv(c, banks[cmd.bk := b'], lastAct', log + [cmd])
  {
    forall bk | bk in banks && bk != cmd.bk ensures BankInv(c, banks[bk], bk, log + [cmd]) {
      OtherBankInv(c, banks[bk], bk, log, cmd);
    }
  }

  lemma AppendLegal(c: Config, log: seq<Cmd>, cmd: Cmd)
    requires BankTimingLegal(c, log)
    requires forall i :: 0 <= i < |log| ==> PairLegal(c, log[i], cmd)
    requires cmd.Col? ==> ColumnLegal(c, log + [cmd], |log|)
    ensures BankTimingLegal(c, log + [cmd])
  {
    var log' := log + [cmd];
    forall j | 0 <= j < |log| && log[j].Col? ensures ColumnLegal(c, log', j) {
      assert ColumnLegal(c, log, j);
      var a :| OpenedBy(log, a, j, log[j].bk) && log[a].page == log[j].r.page && log[a].t + Ticks(c, c.tRCD) <= log[j].t;
      assert OpenedBy(log', a, j, log'[j].bk);
    }
    forall i, j | 0 <= i < j < |log'| ensures PairLegal(c, log'[i], log'[j]) {
      if j < |log| { assert log'[i] == log[i] && log'[j] == log[j]; }
    }
  }

  lemma ActBankInv(c: Config, b: Bank, bk: BankId, log: seq<Cmd>, page: nat, t: int)
    requires BankInv(c, b, bk, log) && !IsOpen(b) && BankReady(c, b, t)
    ensures BankInv(c, Bank(t, page, Activate, t), bk, log + [Act(t, bk, page)])
    ensures forall i :: 0 <= i < |log| && log[i].bk == bk ==> PairLegal(c.(tRR := 0), log[i], Act(t, bk, page))
  {
    var log' := log + [Act(t, bk, page)];
    assert OpenedBy(log', |log|, |log'|, bk);
  }

  /** Issuing the command of request i at time t keeps the invariant and the timing rules. */
  ghost predicate IssueSafe(c: Config, s: Mc, t: int, i: nat, log: seq<Cmd>)
    requires Shape(s) && i < |s.req|
  {
    var (s', cmds) := Issue(c, s, t, i);
    TimingInv(c, s'.banks, s'.lastAct, log + cmds) && BankTimingLegal(c, log + cmds)
  }

  lemma ActTiming(c: Config, s: Mc, t: int, i: nat, log: seq<Cmd>)
    requires Shape(s) && TimingInv(c, s.banks, s.lastAct, log) && BankTimingLegal(c, log)
    requires i < |s.req|
    requires var bk := s.req[i].bk;
             !IsOpen(s.banks[bk]) && BankReady(c, s.banks[bk], t) && s.lastAct[bk.rank] + Ticks(c, c.tRR) <= t
    ensures IssueSafe(c, s, t, i, log)
  {
    var r := s.req[i];
    var cmd := Act(t, r.bk, r.page);
    assert Issue(c, s, t, i).1 == [cmd];
    ActBankInv(c, s.banks[r.bk], r.bk, log, r.page, t);
    CommandInv(c, s.banks, s.lastAct, log, cmd, Bank(t, r.page, Activate, t), s.lastAct[r.bk.rank := t]);
    forall j | 0 <= j < |log| ensures PairLegal(c, log[j], cmd) {
      if log[j].Act? && log[j].bk == r.bk { assert PairLegal(c.(tRR := 0), log[j], cmd); }
    }
    AppendLegal(c, log, cmd);
  }

  lemma PreBankInv(c: Config, b: Bank, b': Bank, log: seq<Cmd>, cmd: Cmd)
    requires cmd.Pre? && BankInv(c, b, cmd.bk, log) && IsOpen(b) && BankReady(c, b, cmd.t)
    requires b' == b.(actionTime := Ticks(c, c.tRP) + Max(cmd.t, Ticks(c, c.tRAS) + b.lastAct), action := Precharge)
    ensures BankInv(c, b', cmd.bk, log + [cmd])
  {
    assert Ticks(c, c.tRP) >= 0;
  }

  lemma PreTiming(c: Config, s: Mc, t: int, i: nat, log: seq<Cmd>)
    requires Shape(s) && TimingInv(c, s.banks, s.lastAct, log) && BankTimingLegal(c, log)
    requires i < |s.req| && c.policy.Open?
    requires var b := s.banks[s.req[i].bk]; IsOpen(b) && BankReady(c, b, t) && b.page != s.req[i].page
    ensures IssueSafe(c, s, t, i, log)
  {
    var bk := s.req[i].bk;
    var cmd := Pre(t, bk);
    assert Issue(c, s, t, i).1 == [cmd];
    var b' := IssuePre(c, s, t, i).banks[bk];
    PreBankInv(c, s.banks[bk], b', log, cmd);
    CommandInv(c, s.banks, s.lastAct, log, cmd, b', s.lastAct);
    AppendLegal(c, log, cmd);
  }

  lemma ColBankInv(c: Config, b: Bank, b': Bank, log: seq<Cmd>, cmd: Cmd)
    requires cmd.Col? && BankInv(c, b, cmd.bk, log) && IsOpen(b) && BankReady(c, b, cmd.t) && b.page == cmd.r.page
    requires b'.lastAct == b.lastAct && b'.page == b.page
    requires if cmd.autoPre then b'.action.Precharge? && b'.actionTime == Ticks(c, c.tRP) + Max(cmd.t, Ticks(c, c.tRAS) + b.lastAct)
             else (b'.action.Read? || b'.action.Write?) && cmd.t <= b'.actionTime
    ensures BankInv(c, b', cmd.bk, log + [cmd])
    ensures ColumnLegal(c, log + [cmd], |log|)
    ensures forall i :: 0 <= i < |log| && log[i].bk == cmd.bk ==> PairLegal(c, log[i], cmd)
  {
    var log' := log + [cmd];
    var a :| OpenedBy(log, a, |log|, cmd.bk) && log[a].page == b.page && log[a].t == b.lastAct;
    assert OpenedBy(log', a, |log|, cmd.bk);
    if !cmd.autoPre { assert OpenedBy(log', a, |log'|, cmd.bk); }
  }

  lemma ColTiming(c: Config, s: Mc, t: int, i: nat, log: seq<Cmd>)
    requires Shape(s) && TimingInv(c, s.banks, s.lastAct, log) && BankTimingLegal(c, log)
    requires i < |s.req|
    requires var b := s.banks[s.req[i].bk]; IsOpen(b) && BankReady(c, b, t) && b.page == s.req[i].page
    ensures IssueSafe(c, s, t, i, log)
  {
    var r := s.req[i];
    var b' := BankAfterColumn(c, s, t, i);
    var cmd := Col(t, r.bk, r, !c.policy.Open? && !KeepOpen(c, s, i));
    assert Issue(c, s, t, i).1 == [cmd];
    ColBankInv(c, s.banks[r.bk], b', log, cmd);
    CommandInv(c, s.banks, s.lastAct, log, cmd, b', s.lastAct);
    AppendLegal(c, log, cmd);
  }

  lemma StepTiming(c: Config, tr: Trace, input: Input)
    requires Shape(tr.s) && WfArrivals(tr.s, input.arrivals)
    requires TimingInv(c, tr.s.banks, tr.s.lastAct, tr.log) && BankTimingLegal(c, tr.log)
    ensures var tr' := StepTrace(c, tr, input);
            TimingInv(c, tr'.s.banks, tr'.s.lastAct, tr'.log) && BankTimingLegal(c, tr'.log)
  {
    var s1 := Ready(c, tr.s, input.t, input.arrivals);
    ReadyShape(c, tr.s, input.t, input.arrivals);
    var i := Selected(c, s1, input.t);
    hide TimingInv, BankTimingLegal;
    if i >= 0 {
      IssuableFacts(c, s1, i, input.t);
      var b := s1.banks[s1.req[i].bk];
      if !IsOpen(b) {
        ActTiming(c, s1, input.t, i, tr.log);
      } else if b.page != s1.req[i].page {
        PreTiming(c, s1, input.t, i, tr.log);
      } else {
        ColTiming(c, s1, input.t, i, tr.log);
      }
      assert IssueSafe(c, s1, input.t, i, tr.log);
    } else {
      assert tr.log + [] == tr.log;
    }
  }

  lemma {:induction false} RunTiming(c: Config, s: Mc, inputs: seq<Input>)
    requires ValidConfig(c) && Initial(c, s) && Shape(s) && ValidInputs(c, s, inputs)
    ensures var tr := Run(c, s, inputs);
            TimingInv(c, tr.s.banks, tr.s.lastAct, tr.log) && BankTimingLegal(c, tr.log)
  {
    if inputs != [] {
      var n := |inputs| - 1;
      ValidPrefix(c, s, inputs, n);
      RunTiming(c, s, inputs[..n]);
      StepTiming(c, Run(c, s, inputs[..n]), inputs[n]);
    }
  }

  /** In every run, for every policy, the whole command history keeps the bank and rank timing. */
  lemma BankTimingSafe(c: Config, s: Mc, inputs: seq<Input>)
    requires ValidConfig(c) && Initial(c, s) && Shape(s) && ValidInputs(c, s, inputs)
    ensures BankTimingLegal(c, Run(c, s, inputs).log)
  {
    RunTiming(c, s, inputs);
  }
}
