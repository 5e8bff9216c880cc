/** The crossbar as the program runs it: an array of queues, an array of flags for the destinations
    served, and a token that turns around and rotates.  A call is proved to be the one of module
    Crossbar. */
module CrossbarArbiter {
  import opened Arithmetic
  import opened Crossbar

  /** The destinations whose flag is set. */
  function Flagged(flags: seq<bool>): set<nat> {
    set d: nat | d < |flags| && flags[d]
  }

  predicate Addressed(q: seq<Packet>, n: nat) {
    forall i :: 0 <= i < |q| ==> q[i].dest < n
  }

  lemma InsertAddressed(q: seq<Packet>, p: Packet, n: nat)
    requires Addressed(q, n) && p.dest < n
    ensures Addressed(Insert(q, p), n)
  {
  }

  lemma VisitAddressed(q: seq<Packet>, served: set<nat>, n: nat)
    requires Addressed(q, n)
    ensures Addressed(Visit(q, served).rest, n)
  {
  }

  /** The port of turn i, as the program computes it. */
  lemma PortIs(n: nat, top: nat, clockwise: bool, i: nat)
    requires n > 0 && top < n && i < n
    ensures (if clockwise then top + n + i else top + n - i) % n == Port(n, top, clockwise, i)
  {
    var x := if clockwise then top + n + i else top + n - i;
    var p := Port(n, top, clockwise, i);
    if x < n { DivModUnique(x, n, 0, p); } else if x < 2 * n { DivModUnique(x, n, 1, p); } else { DivModUnique(x, n, 2, p); }
  }

  predicate Shaped(top: nat, queues: seq<seq<Packet>>, flags: seq<bool>) {
    top < |queues| == |flags| && forall p :: 0 <= p < |queues| ==> Addressed(queues[p], |queues|)
  }

  class Arbiter {
    const queues: array<seq<Packet>>
    const alreadySent: array<bool>
    var clockwise: bool
    var topPriority: nat

    ghost function State(): State
      reads this, queues
    {
      Crossbar.State(queues[..], clockwise, topPriority)
    }

    /** The queues hold packets for existing destinations only. */
    ghost predicate Valid()
      reads this, queues
    {
      && Crossbar.Valid(State()) && alreadySent.Length == queues.Length
      && forall p :: 0 <= p < queues.Length ==> Addressed(queues[..][p], queues.Length)
    }

    constructor (numPorts: nat)
      requires numPorts > 0
      ensures Valid() && fresh(queues) && fresh(alreadySent) && queues.Length == numPorts
    {
      queues := new seq<Packet>[numPorts](_ => []);
      alreadySent := new bool[numPorts](_ => false);
      clockwise, topPriority := true, 0;
    }

    /** Queue the packets that are due. */
    method Enqueue(due: seq<Sent>)
      requires Valid() && forall i :: 0 <= i < |due| ==> due[i].port < queues.Length && due[i].packet.dest < queues.Length
      modifies queues
      ensures Valid() && queues[..] == Arrive(old(queues[..]), due)
    {
      ghost var before := queues[..];
      hide Arrive, Sorted, Insert;
      for i := 0 to |due|
        invariant Valid() && Arrive(queues[..], due[i..]) == Arrive(before, due)
      {
        ArriveStep(queues[..], due[i..]);
        assert due[i..][1..] == due[i + 1..];
        var a := due[i];
        InsertSorted(queues[a.port], a.packet);
        InsertAddressed(queues[a.port], a.packet, queues.Length);
        ghost var was := queues[..];
        queues[a.port] := Insert(queues[a.port], a.packet);
        assert queues[..] == ArriveOne(was, a);
      }
      ArriveNone(queues[..], due[|due|..]);
    }

    lemma ArriveNone(q: seq<seq<Packet>>, due: seq<Sent>)
      requires due == []
      ensures Arrive(q, due) == q
    {
    }

    /** Look at the first two packets of a port. */
    method VisitPort(p: nat) returns (sent: seq<Packet>)
      requires p < queues.Length == alreadySent.Length && Addressed(queues[p], alreadySent.Length)
      modifies queues, alreadySent
      ensures var v := Visit(old(queues[p]), Flagged(old(alreadySent[..])));
        queues[..] == old(queues[..])[p := v.rest] && Flagged(alreadySent[..]) == v.served && sent == v.sent
    {
      ghost var v := Visit(queues[p], Flagged(alreadySent[..]));
      ghost var before := queues[..];
      sent := [];
      var q := queues[p];
      var next := 0;
      if |q| > 0 {
        if !alreadySent[q[0].dest] {
          Flag(q[0].dest);
          sent := [q[0]];
          q := q[1..];
        } else {
          next := 1;
        }
        if next < |q| && !alreadySent[q[next].dest] {
          Flag(q[next].dest);
          sent := sent + [q[next]];
          q := q[..next] + q[next + 1..];
        }
      }
      assert q == v.rest && sent == v.sent;
      queues[p] := q;
      assert queues[..] == before[p := v.rest];
    }

    method Flag(d: nat)
      requires d < alreadySent.Length
      modifies alreadySent
      ensures alreadySent[..] == old(alreadySent[..])[d := true]
      ensures Flagged(alreadySent[..]) == Flagged(old(alreadySent[..])) + {d}
    {
      alreadySent[d] := true;
    }

    /** Visit the port whose turn it is. */
    method VisitTurn(i: nat) returns (idx: nat, sent: seq<Packet>)
      requires Shaped(topPriority, queues[..], alreadySent[..]) && i < queues.Length
      modifies queues, alreadySent
      ensures Shaped(topPriority, queues[..], alreadySent[..]) && idx == Port(queues.Length, topPriority, clockwise, i)
      ensures var v := Visit(old(queues[..])[idx], Flagged(old(alreadySent[..])));
        queues[..] == old(queues[..])[idx := v.rest] && Flagged(alreadySent[..]) == v.served && sent == v.sent
    {
      hide Visit, Flagged, Addressed;
      PortIs(queues.Length, topPriority, clockwise, i);
      idx := (if clockwise then topPriority + queues.Length + i else topPriority + queues.Length - i) % queues.Length;
      hide Port;
      assert queues[..][idx] == queues[idx];
      VisitAddressed(queues[idx], Flagged(alreadySent[..]), queues.Length);
      sent := VisitPort(idx);
    }

    /** Visit every port once, in the order of the token. */
    method VisitAll() returns (sent: seq<Sent>)
      requires Shaped(topPriority, queues[..], alreadySent[..])
      modifies queues, alreadySent
      ensures var r := Serve(old(queues[..]), topPriority, clockwise, 0, Flagged(old(alreadySent[..])));
        queues[..] == r.queues && sent == r.sent && Shaped(topPriority, queues[..], alreadySent[..])
    {
      ghost var whole := Serve(queues[..], topPriority, clockwise, 0, Flagged(alreadySent[..]));
      sent := [];
      assert [] + whole.sent == whole.sent;
      assert Joined(sent, whole, whole);
      hide Visit, Serve, Flagged, Addressed, Port, From, Joined;
      for i := 0 to queues.Length
        invariant Shaped(topPriority, queues[..], alreadySent[..])
        invariant Joined(sent, Serve(queues[..], topPriority, clockwise, i, Flagged(alreadySent[..])), whole)
      {
        JoinStep(queues[..], topPriority, clockwise, i, Flagged(alreadySent[..]), sent, whole);
        var idx, ps := VisitTurn(i);
        sent := sent + From(idx, ps);
      }
      JoinEnd(queues[..], topPriority, clockwise, Flagged(alreadySent[..]), sent, whole);
    }

    /** One call: the packets due are queued, every port is visited, and the token moves on. */
    method ProcessEvent(due: seq<Sent>) returns (sent: seq<Sent>)
      requires Valid() && forall i :: 0 <= i < |due| ==> due[i].port < queues.Length && due[i].packet.dest < queues.Length
      modifies this, queues, alreadySent
      ensures Valid() && State() == Call(old(State()), due) && sent == CallRound(old(State()), due).sent
    {
      CallValid(State(), due);
      hide Sorted, Visit, Serve, Arrive, Addressed;
      Enqueue(due);
      ClearFlags();
      sent := VisitAll();
      if clockwise {
        clockwise := false;
      } else {
        clockwise := true;
        topPriority := if topPriority + 1 < queues.Length then topPriority + 1 else 0;
      }
    }

    method ClearFlags()
      modifies alreadySent
      ensures Flagged(alreadySent[..]) == {}
    {
      for i := 0 to alreadySent.Length
        invariant forall j :: 0 <= j < i ==> !alreadySent[j]
      {
        alreadySent[i] := false;
      }
    }
  }

  /** The packets sent so far and the turns left make up the whole call. */
  predicate Joined(sent: seq<Sent>, left: Round, whole: Round) {
    left.queues == whole.queues && left.served == whole.served && sent + left.sent == whole.sent
  }

  lemma JoinStep(queues: seq<seq<Packet>>, top: nat, clockwise: bool, i: nat, served: set<nat>, sent: seq<Sent>, whole: Round)
    requires top < |queues| && i < |queues| && Joined(sent, Serve(queues, top, clockwise, i, served), whole)
    ensures var p := Port(|queues|, top, clockwise, i);
      var v := Visit(queues[p], served);
      Joined(sent + From(p, v.sent), Serve(queues[p := v.rest], top, clockwise, i + 1, v.served), whole)
  {
    var p := Port(|queues|, top, clockwise, i);
    var v := Visit(queues[p], served);
    var rest := Serve(queues[p := v.rest], top, clockwise, i + 1, v.served).sent;
    assert sent + (From(p, v.sent) + rest) == (sent + From(p, v.sent)) + rest;
  }

  lemma JoinEnd(queues: seq<seq<Packet>>, top: nat, clockwise: bool, served: set<nat>, sent: seq<Sent>, whole: Round)
    requires top < |queues| && Joined(sent, Serve(queues, top, clockwise, |queues|, served), whole)
    ensures queues == whole.queues && sent == whole.sent
  {
    assert sent + [] == sent;
  }
}
