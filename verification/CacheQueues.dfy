/** The hand-over from events to queues in front of the second-level cache: one reply per call, or else one
    request from each bank.  A call never finds nothing to do. */
module CacheQueues {
  import opened Arithmetic
  import opened Inbox
  import opened CacheSet

  /** A message for the line with this number. */
  datatype Packet = Packet(line: nat, m: Message)

  /** Put each request into the queue of its bank. */
  function Distribute(banks: seq<seq<Packet>>, due: seq<Packet>): (r: seq<seq<Packet>>)
    requires |banks| > 0
    ensures |r| == |banks|
    decreases |due|
  {
    if due == [] then banks
    else
      var b := due[0].line % |banks|;
      Distribute(banks[b := banks[b] + [due[0]]], due[1..])
  }

  /** The first request of each bank that has one. */
  function Heads(banks: seq<seq<Packet>>): seq<Packet> {
    if banks == [] then [] else (if banks[0] == [] then [] else [banks[0][0]]) + Heads(banks[1..])
  }

  function Tail(q: seq<Packet>): seq<Packet> {
    if q == [] then [] else q[1..]
  }

  function Tails(banks: seq<seq<Packet>>): (r: seq<seq<Packet>>)
    ensures |r| == |banks|
  {
    if banks == [] then [] else [Tail(banks[0])] + Tails(banks[1..])
  }

  predicate AnyLeft(repQ: seq<Packet>, banks: seq<seq<Packet>>) {
    repQ != [] || exists b :: 0 <= b < |banks| && banks[b] != []
  }

  lemma {:induction false} HeadsFound(banks: seq<seq<Packet>>, b: nat)
    requires b < |banks| && banks[b] != []
    ensures Heads(banks) != []
  {
    if b > 0 { HeadsFound(banks[1..], b - 1); }
  }

  /** Requests that are queued stay queued, and one that arrives is queued. */
  lemma {:induction false} DistributeKeeps(banks: seq<seq<Packet>>, due: seq<Packet>)
    requires |banks| > 0
    ensures forall b :: 0 <= b < |banks| ==> banks[b] <= Distribute(banks, due)[b]
    ensures due != [] ==> exists b :: 0 <= b < |banks| && Distribute(banks, due)[b] != []
    decreases |due|
  {
    if due != [] {
      var b := due[0].line % |banks|;
      var next := banks[b := banks[b] + [due[0]]];
      DistributeKeeps(next, due[1..]);
      var all := Distribute(banks, due);
      assert all == Distribute(next, due[1..]);
      assert next[b] <= all[b] && next[b] != [];
      assert all[b] != [];
    }
  }

  lemma DistributeStep(banks: seq<seq<Packet>>, due: seq<Packet>)
    requires |banks| > 0 && due != []
    ensures var b := due[0].line % |banks|;
      Distribute(banks, due) == Distribute(banks[b := banks[b] + [due[0]]], due[1..])
  {
  }

  /** The first reply is taken, or if there is none the first request of each bank. */
  predicate Took(rep: seq<Packet>, banks: seq<seq<Packet>>, reply: seq<Packet>, requests: seq<Packet>,
                 repQ: seq<Packet>, left: seq<seq<Packet>>) {
    if rep != [] then reply == [rep[0]] && requests == [] && repQ == rep[1..] && left == banks
    else reply == [] && requests == Heads(banks) && repQ == [] && left == Tails(banks)
  }

  /** When there was something in the queues or something is due, something is taken. */
  lemma SomethingTaken(repQ: seq<Packet>, banks: seq<seq<Packet>>, dueRep: seq<Packet>, dueReq: seq<Packet>)
    requires |banks| > 0 && (AnyLeft(repQ, banks) || dueRep != [] || dueReq != [])
    ensures forall reply, requests, q, left ::
      Took(repQ + dueRep, Distribute(banks, dueReq), reply, requests, q, left) ==> reply != [] || requests != []
  {
    var all := Distribute(banks, dueReq);
    DistributeKeeps(banks, dueReq);
    if repQ + dueRep == [] {
      if dueReq == [] {
        var b :| 0 <= b < |banks| && banks[b] != [];
        assert banks[b] <= all[b];
        HeadsFound(all, b);
      } else {
        var b :| 0 <= b < |banks| && all[b] != [];
        HeadsFound(all, b);
      }
    }
  }

  // ---------------------------------------------------------------- each bank is served in order

  /** The requests of the list for bank b of n, in order. */
  function OfBank(q: seq<Packet>, n: nat, b: nat): seq<Packet>
    requires n > 0
  {
    if q == [] then [] else (if q[0].line % n == b then [q[0]] else []) + OfBank(q[1..], n, b)
  }

  /** From bank number `from` on, each queue holds requests of its own bank only. */
  predicate Banked(banks: seq<seq<Packet>>, n: nat, from: nat)
    requires n > 0
  {
    forall b, k :: 0 <= b < |banks| && 0 <= k < |banks[b]| ==> banks[b][k].line % n == from + b
  }

  lemma {:induction false} DistributeExact(banks: seq<seq<Packet>>, due: seq<Packet>, b: nat)
    requires b < |banks|
    ensures Distribute(banks, due)[b] == banks[b] + OfBank(due, |banks|, b)
    decreases |due|
  {
    if due == [] {
      assert banks[b] + [] == banks[b];
    } else {
      var d := due[0].line % |banks|;
      DistributeExact(banks[d := banks[d] + [due[0]]], due[1..], b);
    }
  }

  lemma {:induction false} OfBankOnly(q: seq<Packet>, n: nat, b: nat)
    requires n > 0
    ensures forall k :: 0 <= k < |OfBank(q, n, b)| ==> OfBank(q, n, b)[k].line % n == b
  {
    if q != [] { OfBankOnly(q[1..], n, b); }
  }

  lemma DistributeBanked(banks: seq<seq<Packet>>, due: seq<Packet>)
    requires |banks| > 0 && Banked(banks, |banks|, 0)
    ensures Banked(Distribute(banks, due), |banks|, 0)
  {
    var n: nat, all: seq<seq<Packet>> := |banks|, Distribute(banks, due);
    forall b: nat, k: nat | b < n && k < |all[b]| ensures all[b][k].line % n == b {
      DistributeExact(banks, due, b);
      OfBankOnly(due, n, b);
    }
  }

  function First(q: seq<Packet>): seq<Packet> {
    if q == [] then [] else q[..1]
  }

  /** The heads hold the first request of each bank, and the tails are what is left. */
  lemma {:induction false} HeadsExact(banks: seq<seq<Packet>>, n: nat, from: nat, b: nat)
    requires n > 0 && Banked(banks, n, from)
    ensures OfBank(Heads(banks), n, b) == if from <= b < from + |banks| then First(banks[b - from]) else []
    decreases |banks|
  {
    if banks != [] {
      var rest := banks[1..];
      assert forall d :: 0 <= d < |rest| ==> rest[d] == banks[d + 1];
      HeadsExact(rest, n, from + 1, b);
      HeadsStep(banks);
      hide Heads, Tails;
      if banks[0] != [] {
        OfBankCons(banks[0][0], Heads(rest), n, b);
        assert banks[0][..1] == [banks[0][0]];
      }
      hide OfBank;
    }
  }

  lemma {:induction false} TailsExact(banks: seq<seq<Packet>>, b: nat)
    requires b < |banks|
    ensures Tails(banks)[b] == Tail(banks[b])
  {
    if b > 0 { TailsExact(banks[1..], b - 1); }
  }

  lemma OfBankCons(x: Packet, q: seq<Packet>, n: nat, b: nat)
    requires n > 0
    ensures OfBank([x] + q, n, b) == (if x.line % n == b then [x] else []) + OfBank(q, n, b)
  {
    assert ([x] + q)[1..] == q;
  }

  lemma HeadsStep(banks: seq<seq<Packet>>)
    requires banks != []
    ensures Heads(banks) == if banks[0] == [] then Heads(banks[1..]) else [banks[0][0]] + Heads(banks[1..])
    ensures Tails(banks) == [Tail(banks[0])] + Tails(banks[1..])
  {
  }

  lemma HeadsNone()
    ensures Heads([]) == [] && Tails([]) == []
  {
  }

  /** A call takes the oldest reply or, if there is none, the oldest request of every bank that has one; in each
      bank what is taken followed by what stays is what was queued followed by what became due. */
  lemma BanksInOrder(rep: seq<Packet>, banks: seq<seq<Packet>>, due: seq<Packet>, reply: seq<Packet>, requests: seq<Packet>,
                     repQ: seq<Packet>, left: seq<seq<Packet>>, b: nat)
    requires b < |banks| && Banked(banks, |banks|, 0)
    requires Took(rep, Distribute(banks, due), reply, requests, repQ, left)
    ensures var n := |banks|;
      && rep == reply + repQ && |reply| == (if rep == [] then 0 else 1) && |left| == n && Banked(left, n, 0)
      && OfBank(requests, n, b) + left[b] == banks[b] + OfBank(due, n, b)
      && |OfBank(requests, n, b)| == if rep != [] || banks[b] + OfBank(due, n, b) == [] then 0 else 1
  {
    var all: seq<seq<Packet>> := Distribute(banks, due);
    DistributeBanked(banks, due);
    DistributeExact(banks, due, b);
    assert |all| == |banks|;
    hide Distribute, Heads, Tails, Banked, OfBank;
    if rep == [] {
      RequestsTaken(all, b);
    } else {
      NoRequests(|banks|, b, left[b]);
    }
  }

  lemma NoRequests(n: nat, b: nat, q: seq<Packet>)
    requires n > 0
    ensures OfBank([], n, b) == [] && [] + q == q
  {
  }

  lemma RequestsTaken(all: seq<seq<Packet>>, b: nat)
    requires b < |all| && Banked(all, |all|, 0)
    ensures OfBank(Heads(all), |all|, b) + Tails(all)[b] == all[b] && Banked(Tails(all), |all|, 0)
    ensures |OfBank(Heads(all), |all|, b)| == if all[b] == [] then 0 else 1
  {
    hide Heads, Tails, OfBank, First, Tail;
    HeadsExact(all, |all|, 0, b);
    TailsExact(all, b);
    FirstAndRest(all[b]);
    TailsBanked(all);
  }

  lemma FirstAndRest(q: seq<Packet>)
    ensures First(q) + Tail(q) == q && |First(q)| == if q == [] then 0 else 1
  {
  }

  lemma TailsBanked(banks: seq<seq<Packet>>)
    requires |banks| > 0 && Banked(banks, |banks|, 0)
    ensures Banked(Tails(banks), |banks|, 0)
  {
    var r: seq<seq<Packet>> := Tails(banks);
    hide Heads, Tails, OfBank, First;
    forall b: nat, k: nat | b < |banks| && k < |r[b]| ensures r[b][k].line % |banks| == b {
      TailsExact(banks, b);
      assert r[b][k] == banks[b][k + 1];
    }
  }

  class L2Queues {
    const interval: int
    var repQ: seq<Packet>
    const reqQs: array<seq<Packet>>
    var repEvent: map<int, seq<Packet>>
    var reqEvent: map<int, seq<Packet>>
    /** The calls of this cache in the global event queue, and the time of the last one. */
    var scheduled: set<int>
    ghost var now: int

    ghost predicate Valid()
      reads this, reqQs
    {
      && reqQs.Length > 0 && Banked(reqQs[..], reqQs.Length, 0)
      && Timely(repEvent, reqEvent, AnyLeft(repQ, reqQs[..]), scheduled, now, interval)
    }

    constructor (pi: int, numBanks: nat)
      requires pi > 0 && numBanks > 0
      ensures Valid() && fresh(reqQs) && reqQs.Length == numBanks
    {
      interval, repQ, reqQs := pi, [], new seq<Packet>[numBanks](_ => []);
      repEvent, reqEvent, scheduled, now := map[], map[], {}, 0;
      new;
      assert 0 % interval == 0;
    }

    method AddReqEvent(eventTime: int, p: Packet)
      requires Valid() && now < eventTime
      modifies this`reqEvent, this`scheduled
      ensures Valid()
      ensures var t := CeilBy(eventTime, interval);
        reqEvent == old(reqEvent)[t := At(old(reqEvent), t) + [p]] && scheduled == old(scheduled) + {t}
    {
      var t := CeilBy(eventTime, interval);
      TimelyArrival(repEvent, reqEvent, AnyLeft(repQ, reqQs[..]), scheduled, now, interval, t, p);
      scheduled := scheduled + {t};
      reqEvent := reqEvent[t := At(reqEvent, t) + [p]];
    }

    method AddRepEvent(eventTime: int, p: Packet)
      requires Valid() && now < eventTime
      modifies this`repEvent, this`scheduled
      ensures Valid()
      ensures var t := CeilBy(eventTime, interval);
        repEvent == old(repEvent)[t := At(old(repEvent), t) + [p]] && scheduled == old(scheduled) + {t}
    {
      var t := CeilBy(eventTime, interval);
      TimelyArrival(repEvent, reqEvent, AnyLeft(repQ, reqQs[..]), scheduled, now, interval, t, p);
      scheduled := scheduled + {t};
      repEvent := repEvent[t := At(repEvent, t) + [p]];
    }

    /** Move what is due into the queues and take the first reply, or else the first request of each bank.
        There always is one. */
    method TakeNext(t: int) returns (reply: seq<Packet>, requests: seq<Packet>)
      requires Valid() && t in scheduled && forall e :: e in scheduled ==> t <= e
      modifies this, reqQs
      ensures Valid() && now == t && (reply != [] || requests != [])
      ensures Took(old(repQ) + At(old(repEvent), t), Distribute(old(reqQs[..]), At(old(reqEvent), t)), reply, requests, repQ, reqQs[..])
      ensures repEvent == old(repEvent) - {t} && reqEvent == old(reqEvent) - {t}
    {
      ghost var left := AnyLeft(repQ, reqQs[..]);
      ghost var events, all, last := (repEvent, reqEvent), scheduled, now;
      SomethingDue(repEvent, reqEvent, left, scheduled, now, interval, t);
      SomethingTaken(repQ, reqQs[..], At(repEvent, t), At(reqEvent, t));
      ghost var rep, due, before := repQ + At(repEvent, t), At(reqEvent, t), reqQs[..];
      hide Timely, Distribute, Took, AnyLeft, At, Banked;
      reply, requests := TakeFirst(t);
      BanksInOrder(rep, before, due, reply, requests, repQ, reqQs[..], 0);
      scheduled := scheduled - {t};
      var more := MoreLeft();
      TimelyNext(events.0, events.1, left, all, last, interval, t, more);
      if more { scheduled := scheduled + {t + interval}; }
      now := t;
    }

    method TakeFirst(t: int) returns (reply: seq<Packet>, requests: seq<Packet>)
      requires reqQs.Length > 0
      modifies this`repQ, this`repEvent, this`reqEvent, reqQs
      ensures Took(old(repQ) + At(old(repEvent), t), Distribute(old(reqQs[..]), At(old(reqEvent), t)), reply, requests, repQ, reqQs[..])
      ensures repEvent == old(repEvent) - {t} && reqEvent == old(reqEvent) - {t}
    {
      hide Distribute, Heads, Tails;
      var rep := repQ + At(repEvent, t);
      repEvent := repEvent - {t};
      var due := At(reqEvent, t);
      reqEvent := reqEvent - {t};
      QueueRequests(due);
      reply, requests := [], [];
      if rep != [] {
        reply, repQ := [rep[0]], rep[1..];
      } else {
        repQ := [];
        requests := PopBanks();
      }
    }

    method QueueRequests(due: seq<Packet>)
      requires reqQs.Length > 0
      modifies reqQs
      ensures reqQs[..] == Distribute(old(reqQs[..]), due)
    {
      ghost var before := reqQs[..];
      hide Distribute;
      for i := 0 to |due|
        invariant Distribute(reqQs[..], due[i..]) == Distribute(before, due)
      {
        DistributeStep(reqQs[..], due[i..]);
        assert due[i..][1..] == due[i + 1..];
        var b := due[i].line % reqQs.Length;
        ghost var was := reqQs[..];
        reqQs[b] := reqQs[b] + [due[i]];
        assert reqQs[..] == was[b := was[b] + [due[i]]];
      }
      DistributeNone(reqQs[..], due[|due|..]);
    }

    lemma DistributeNone(banks: seq<seq<Packet>>, due: seq<Packet>)
      requires |banks| > 0 && due == []
      ensures Distribute(banks, due) == banks
    {
    }

    /** Take the first request of each bank. */
    method PopBanks() returns (requests: seq<Packet>)
      modifies reqQs
      ensures requests == Heads(old(reqQs[..])) && reqQs[..] == Tails(old(reqQs[..]))
    {
      hide Heads, Tails;
      ghost var before := reqQs[..];
      requests := [];
      var b := 0;
      assert before[0..] == before && [] + Heads(before) == Heads(before) && [] + Tails(before) == Tails(before);
      while b < reqQs.Length
        invariant b <= reqQs.Length == |before| && reqQs[b..] == before[b..]
        invariant requests + Heads(before[b..]) == Heads(before)
        invariant reqQs[..b] + Tails(before[b..]) == Tails(before)
      {
        ghost var was, rest := reqQs[..], before[b + 1..];
        assert before[b..][1..] == rest && before[b..][0] == was[b];
        HeadsStep(before[b..]);
        if reqQs[b] != [] {
          assert (requests + [was[b][0]]) + Heads(rest) == requests + ([was[b][0]] + Heads(rest));
          requests := requests + [reqQs[b][0]];
          reqQs[b] := reqQs[b][1..];
        }
        assert reqQs[..b + 1] == was[..b] + [Tail(was[b])];
        assert (was[..b] + [Tail(was[b])]) + Tails(rest) == was[..b] + ([Tail(was[b])] + Tails(rest));
        b := b + 1;
      }
      assert before[b..] == [];
      HeadsNone();
    }

    method MoreLeft() returns (more: bool)
      ensures more == AnyLeft(repQ, reqQs[..])
    {
      if repQ != [] { return true; }
      for b := 0 to reqQs.Length
        invariant forall k :: 0 <= k < b ==> reqQs[k] == []
      {
        if reqQs[b] != [] {
          assert reqQs[..][b] != [];
          return true;
        }
      }
      more := false;
    }
  }
}
