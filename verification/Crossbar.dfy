/** The arbiter of the crossbar: each call visits all ports once, in an order that turns around and
    rotates, and sends at most two packets per port and one per destination. */
module Crossbar {
  import opened Arithmetic

  /** Replies go before coherence requests, these before requests. */
  datatype Priority = Reply | Coherence | Request

  datatype Packet = Packet(priority: Priority, dest: nat, id: nat)

  function Rank(p: Packet): nat {
    match p.priority
    case Reply => 0
    case Coherence => 1
    case Request => 2
  }

  /** A packet is queued behind all packets of its or a higher priority. */
  function Insert(q: seq<Packet>, p: Packet): (r: seq<Packet>)
    ensures |r| == |q| + 1
  {
    if q != [] && Rank(q[0]) <= Rank(p) then [q[0]] + Insert(q[1..], p) else [p] + q
  }

  predicate Sorted(q: seq<Packet>) {
    forall i, j :: 0 <= i < j < |q| ==> Rank(q[i]) <= Rank(q[j])
  }

  // ---------------------------------------------------------------- one port

  /** What is left of a queue, the destinations served so far in this call, and the packets sent. */
  datatype Visited = Visited(rest: seq<Packet>, served: set<nat>, sent: seq<Packet>)

  /** The first two packets of a queue are looked at. */
  function Visit(q: seq<Packet>, served: set<nat>): Visited {
    if q == [] then Visited(q, served, [])
    else if q[0].dest !in served then
      var now := served + {q[0].dest};
      if |q| > 1 && q[1].dest !in now then Visited(q[2..], now + {q[1].dest}, q[..2])
      else Visited(q[1..], now, q[..1])
    else if |q| > 1 && q[1].dest !in served then Visited(q[..1] + q[2..], served + {q[1].dest}, [q[1]])
    else Visited(q, served, [])
  }

  // ---------------------------------------------------------------- one call

  datatype State = State(queues: seq<seq<Packet>>, clockwise: bool, top: nat)

  predicate Valid(s: State) {
    |s.queues| > 0 && s.top < |s.queues| && forall p :: 0 <= p < |s.queues| ==> Sorted(s.queues[p])
  }

  /** The port visited in turn i. */
  function Port(n: nat, top: nat, clockwise: bool, i: nat): (p: nat)
    requires n > 0 && top < n && i < n
    ensures p < n
  {
    if clockwise then if top + i < n then top + i else top + i - n
    else if i <= top then top - i else top + n - i
  }

  /** A packet sent and the port it came from. */
  datatype Sent = Sent(port: nat, packet: Packet)

  datatype Round = Round(queues: seq<seq<Packet>>, served: set<nat>, sent: seq<Sent>)

  function From(port: nat, ps: seq<Packet>): seq<Sent> {
    seq(|ps|, i requires 0 <= i < |ps| => Sent(port, ps[i]))
  }

  /** The turns from i on. */
  function Serve(queues: seq<seq<Packet>>, top: nat, clockwise: bool, i: nat, served: set<nat>): (r: Round)
    requires top < |queues| && i <= |queues|
    ensures |r.queues| == |queues|
    decreases |queues| - i
  {
    if i == |queues| then Round(queues, served, [])
    else
      var p := Port(|queues|, top, clockwise, i);
      var v := Visit(queues[p], served);
      var r := Serve(queues[p := v.rest], top, clockwise, i + 1, v.served);
      Round(r.queues, r.served, From(p, v.sent) + r.sent)
  }

  function ArriveOne(queues: seq<seq<Packet>>, a: Sent): (r: seq<seq<Packet>>)
    ensures |r| == |queues|
  {
    if a.port < |queues| then queues[a.port := Insert(queues[a.port], a.packet)] else queues
  }

  /** Packets that arrive, each at a port. */
  function Arrive(queues: seq<seq<Packet>>, arrivals: seq<Sent>): (r: seq<seq<Packet>>)
    ensures |r| == |queues|
    decreases |arrivals|
  {
    if arrivals == [] then queues else Arrive(ArriveOne(queues, arrivals[0]), arrivals[1..])
  }

  function Turn(s: State): State {
    if s.clockwise then s.(clockwise := false)
    else s.(clockwise := true, top := if s.top + 1 < |s.queues| then s.top + 1 else 0)
  }

  function CallRound(s: State, arrivals: seq<Sent>): Round
    requires s.top < |s.queues|
  {
    Serve(Arrive(s.queues, arrivals), s.top, s.clockwise, 0, {})
  }

  /** One call of the arbiter. */
  function Call(s: State, arrivals: seq<Sent>): (s': State)
    requires s.top < |s.queues|
    ensures |s'.queues| == |s.queues| && s'.top < |s'.queues|
  {
    Turn(s).(queues := CallRound(s, arrivals).queues)
  }

  // ---------------------------------------------------------------- queues stay sorted

  lemma {:induction false} InsertSorted(q: seq<Packet>, p: Packet)
    requires Sorted(q)
    ensures Sorted(Insert(q, p))
    ensures forall x :: x in Insert(q, p) ==> x == p || x in q
  {
    if q != [] && Rank(q[0]) <= Rank(p) {
      var rest := q[1..];
      InsertSorted(rest, p);
      var r := Insert(rest, p);
      forall j | 0 <= j < |r| ensures Rank(q[0]) <= Rank(r[j]) {
        assert r[j] in r;
        if r[j] in rest { var k :| 0 <= k < |rest| && rest[k] == r[j]; assert q[k + 1] == r[j]; }
      }
    }
  }

  lemma VisitSorted(q: seq<Packet>, served: set<nat>)
    requires Sorted(q)
    ensures Sorted(Visit(q, served).rest)
  {
    assert |q| > 1 ==> forall j :: 0 <= j < |q[..1] + q[2..]| ==> (q[..1] + q[2..])[j] == if j == 0 then q[0] else q[j + 1];
  }

  lemma {:induction false} ServeSorted(queues: seq<seq<Packet>>, top: nat, clockwise: bool, i: nat, served: set<nat>)
    requires top < |queues| && i <= |queues| && forall p :: 0 <= p < |queues| ==> Sorted(queues[p])
    ensures forall p :: 0 <= p < |queues| ==> Sorted(Serve(queues, top, clockwise, i, served).queues[p])
    decreases |queues| - i
  {
    if i < |queues| {
      var p := Port(|queues|, top, clockwise, i);
      VisitSorted(queues[p], served);
      var v := Visit(queues[p], served);
      hide Sorted;
      ServeSorted(queues[p := v.rest], top, clockwise, i + 1, v.served);
    }
  }

  lemma {:induction false} ArriveSorted(queues: seq<seq<Packet>>, arrivals: seq<Sent>)
    requires forall p :: 0 <= p < |queues| ==> Sorted(queues[p])
    ensures forall p :: 0 <= p < |queues| ==> Sorted(Arrive(queues, arrivals)[p])
    decreases |arrivals|
  {
    if arrivals != [] {
      var a := arrivals[0];
      if a.port < |queues| { InsertSorted(queues[a.port], a.packet); }
      hide Sorted;
      ArriveSorted(ArriveOne(queues, a), arrivals[1..]);
    }
  }

  lemma CallValid(s: State, arrivals: seq<Sent>)
    requires Valid(s)
    ensures Valid(Call(s, arrivals))
  {
    ArriveSorted(s.queues, arrivals);
    hide Sorted;
    ServeSorted(Arrive(s.queues, arrivals), s.top, s.clockwise, 0, {});
  }

  // ---------------------------------------------------------------- every port once, two packets, one per destination

  /** The turn in which a port is visited. */
  function TurnOf(n: nat, top: nat, clockwise: bool, p: nat): (i: nat)
    requires n > 0 && top < n && p < n
    ensures i < n
  {
    if clockwise then if p >= top then p - top else p + n - top
    else if p <= top then top - p else top + n - p
  }

  /** Each call visits every port exactly once. */
  lemma EveryPortOnce(n: nat, top: nat, clockwise: bool, p: nat, i: nat)
    requires n > 0 && top < n && p < n && i < n
    ensures Port(n, top, clockwise, TurnOf(n, top, clockwise, p)) == p
    ensures Port(n, top, clockwise, i) == p ==> i == TurnOf(n, top, clockwise, p)
  {
  }

  /** No destination gets two packets in one call. */
  predicate OncePerDest(sent: seq<Sent>) {
    forall i, j :: 0 <= i < j < |sent| ==> sent[i].packet.dest != sent[j].packet.dest
  }

  lemma {:induction false} ServeOncePerDest(queues: seq<seq<Packet>>, top: nat, clockwise: bool, i: nat, served: set<nat>)
    requires top < |queues| && i <= |queues|
    ensures var r := Serve(queues, top, clockwise, i, served);
      OncePerDest(r.sent) && served <= r.served && forall k :: 0 <= k < |r.sent| ==> r.sent[k].packet.dest in r.served - served
    decreases |queues| - i
  {
    if i < |queues| {
      var p := Port(|queues|, top, clockwise, i);
      var v := Visit(queues[p], served);
      ServeOncePerDest(queues[p := v.rest], top, clockwise, i + 1, v.served);
    }
  }

  /** In a call each destination gets at most one packet. */
  lemma OnePerDestination(s: State, arrivals: seq<Sent>)
    requires Valid(s)
    ensures OncePerDest(CallRound(s, arrivals).sent)
  {
    ServeOncePerDest(Arrive(s.queues, arrivals), s.top, s.clockwise, 0, {});
  }

  /** Some packet is sent to the destination. */
  predicate SentTo(sent: seq<Sent>, dest: nat) {
    exists i :: 0 <= i < |sent| && sent[i].packet.dest == dest
  }

  lemma SentToMore(a: seq<Sent>, b: seq<Sent>, dest: nat)
    ensures SentTo(a + b, dest) <==> SentTo(a, dest) || SentTo(b, dest)
  {
    if i :| 0 <= i < |a| && a[i].packet.dest == dest { assert (a + b)[i] == a[i]; }
    if i :| 0 <= i < |b| && b[i].packet.dest == dest { assert (a + b)[|a| + i] == b[i]; }
  }

  lemma FromSent(p: nat, ps: seq<Packet>, dest: nat)
    ensures SentTo(From(p, ps), dest) <==> exists k :: 0 <= k < |ps| && ps[k].dest == dest
  {
    forall k | 0 <= k < |ps| ensures From(p, ps)[k].packet == ps[k] {}
  }

  /** A visit serves the destinations of the first two packets, if they have not been served already, and no
      others. */
  lemma VisitServes(q: seq<Packet>, served: set<nat>, dest: nat)
    ensures var v := Visit(q, served);
      && (dest in v.served <==> dest in served || exists k :: 0 <= k < |v.sent| && v.sent[k].dest == dest)
      && forall k :: 0 <= k < 2 && k < |q| ==> q[k].dest in v.served
  {
    var v := Visit(q, served);
    assert |v.sent| > 0 ==> v.sent[0] == if q[0].dest in served then q[1] else q[0];
    assert |v.sent| > 1 ==> v.sent[1] == q[1];
  }

  lemma {:induction false} ServeServes(queues: seq<seq<Packet>>, top: nat, clockwise: bool, i: nat, served: set<nat>, dest: nat)
    requires top < |queues| && i <= |queues|
    ensures var r := Serve(queues, top, clockwise, i, served); dest in r.served <==> dest in served || SentTo(r.sent, dest)
    decreases |queues| - i
  {
    if i < |queues| {
      var p := Port(|queues|, top, clockwise, i);
      var v := Visit(queues[p], served);
      VisitServes(queues[p], served, dest);
      FromSent(p, v.sent, dest);
      hide Visit;
      ServeServes(queues[p := v.rest], top, clockwise, i + 1, v.served, dest);
      SentToMore(From(p, v.sent), Serve(queues[p := v.rest], top, clockwise, i + 1, v.served).sent, dest);
    }
  }

  lemma {:induction false} ServeWanted(queues: seq<seq<Packet>>, top: nat, clockwise: bool, i: nat, served: set<nat>, p: nat, k: nat)
    requires top < |queues| && i <= |queues| && p < |queues| && TurnOf(|queues|, top, clockwise, p) >= i
    requires k < 2 && k < |queues[p]|
    ensures queues[p][k].dest in Serve(queues, top, clockwise, i, served).served
    decreases |queues| - i
  {
    var q := Port(|queues|, top, clockwise, i);
    var v := Visit(queues[q], served);
    var dest := queues[p][k].dest;
    EveryPortOnce(|queues|, top, clockwise, p, i);
    if q == p {
      VisitServes(queues[p], served, dest);
      ServeServes(queues[q := v.rest], top, clockwise, i + 1, v.served, dest);
    } else {
      hide Visit, Port, TurnOf;
      ServeWanted(queues[q := v.rest], top, clockwise, i + 1, v.served, p, k);
    }
  }

  /** No destination idles: in a call every destination of the first two packets of a port gets a packet. */
  lemma NoDestinationIdles(s: State, arrivals: seq<Sent>, p: nat, k: nat)
    requires Valid(s) && p < |s.queues| && k < 2 && k < |Arrive(s.queues, arrivals)[p]|
    ensures SentTo(CallRound(s, arrivals).sent, Arrive(s.queues, arrivals)[p][k].dest)
  {
    var q := Arrive(s.queues, arrivals);
    ServeWanted(q, s.top, s.clockwise, 0, {}, p, k);
    ServeServes(q, s.top, s.clockwise, 0, {}, q[p][k].dest);
  }

  // ---------------------------------------------------------------- one port in a call

  /** The packets sent from a port, in order. */
  function Out(sent: seq<Sent>, port: nat): seq<Packet> {
    if sent == [] then [] else (if sent[0].port == port then [sent[0].packet] else []) + Out(sent[1..], port)
  }

  lemma {:induction false} OutConcat(a: seq<Sent>, b: seq<Sent>, port: nat)
    ensures Out(a + b, port) == Out(a, port) + Out(b, port)
    decreases |a|
  {
    if a == [] {
      assert a + b == b;
    } else {
      OutStep(a + b, port);
      OutStep(a, port);
      assert (a + b)[1..] == a[1..] + b;
      hide Out;
      OutConcat(a[1..], b, port);
      Assoc(if a[0].port == port then [a[0].packet] else [], Out(a[1..], port), Out(b, port));
    }
  }

  lemma OutStep(a: seq<Sent>, port: nat)
    requires a != []
    ensures Out(a, port) == (if a[0].port == port then [a[0].packet] else []) + Out(a[1..], port)
  {
  }

  lemma {:induction false} OutFrom(p: nat, ps: seq<Packet>, port: nat)
    ensures Out(From(p, ps), port) == if p == port then ps else []
    decreases |ps|
  {
    if ps != [] {
      assert From(p, ps)[1..] == From(p, ps[1..]);
      OutFrom(p, ps[1..], port);
      assert ps == [ps[0]] + ps[1..];
    }
  }

  /** The destinations served before port p has its turn. */
  ghost function ServedAt(queues: seq<seq<Packet>>, top: nat, clockwise: bool, i: nat, served: set<nat>, p: nat): set<nat>
    requires top < |queues| && i <= |queues|
    decreases |queues| - i
  {
    if i == |queues| then served
    else
      var q := Port(|queues|, top, clockwise, i);
      var v := Visit(queues[q], served);
      if q == p then served else ServedAt(queues[q := v.rest], top, clockwise, i + 1, v.served, p)
  }

  /** A port is visited in its turn and left alone otherwise. */
  lemma {:induction false} ServePort(queues: seq<seq<Packet>>, top: nat, clockwise: bool, i: nat, served: set<nat>, p: nat)
    requires top < |queues| && i <= |queues| && p < |queues|
    ensures var r := Serve(queues, top, clockwise, i, served);
      if TurnOf(|queues|, top, clockwise, p) < i then r.queues[p] == queues[p] && Out(r.sent, p) == []
      else
        var v := Visit(queues[p], ServedAt(queues, top, clockwise, i, served, p));
        r.queues[p] == v.rest && Out(r.sent, p) == v.sent
    decreases |queues| - i
  {
    if i < |queues| {
      var q := Port(|queues|, top, clockwise, i);
      var v := Visit(queues[q], served);
      EveryPortOnce(|queues|, top, clockwise, p, i);
      OutFrom(q, v.sent, p);
      hide Visit, Port, TurnOf;
      ServePort(queues[q := v.rest], top, clockwise, i + 1, v.served, p);
      OutConcat(From(q, v.sent), Serve(queues[q := v.rest], top, clockwise, i + 1, v.served).sent, p);
    }
  }

  /** What a call does to one port. */
  lemma CallPort(s: State, arrivals: seq<Sent>, p: nat)
    requires Valid(s) && p < |s.queues|
    ensures var q := Arrive(s.queues, arrivals);
      var v := Visit(q[p], ServedAt(q, s.top, s.clockwise, 0, {}, p));
      Call(s, arrivals).queues[p] == v.rest && Out(CallRound(s, arrivals).sent, p) == v.sent
  {
    ServePort(Arrive(s.queues, arrivals), s.top, s.clockwise, 0, {}, p);
  }

  /** At most two packets leave a port in a call. */
  lemma TwoPerPort(s: State, arrivals: seq<Sent>, p: nat)
    requires Valid(s) && p < |s.queues|
    ensures |Out(CallRound(s, arrivals).sent, p)| <= 2
  {
    CallPort(s, arrivals, p);
  }

  // ---------------------------------------------------------------- nothing is lost, nothing overtakes

  /** The packets of one priority for one destination. */
  function Flow(q: seq<Packet>, dest: nat, priority: Priority): seq<Packet> {
    if q == [] then []
    else (if q[0].dest == dest && q[0].priority == priority then [q[0]] else []) + Flow(q[1..], dest, priority)
  }

  lemma {:induction false} FlowConcat(a: seq<Packet>, b: seq<Packet>, dest: nat, priority: Priority)
    ensures Flow(a + b, dest, priority) == Flow(a, dest, priority) + Flow(b, dest, priority)
    decreases |a|
  {
    if a == [] {
      assert a + b == b;
    } else {
      assert (a + b)[1..] == a[1..] + b;
      FlowConcat(a[1..], b, dest, priority);
    }
  }

  lemma {:induction false} NoFlow(q: seq<Packet>, dest: nat, priority: Priority)
    requires forall x :: x in q ==> x.priority != priority
    ensures Flow(q, dest, priority) == []
  {
    if q != [] { NoFlow(q[1..], dest, priority); }
  }

  /** A new packet comes last in its flow and changes no other flow. */
  lemma {:induction false} InsertFlow(q: seq<Packet>, p: Packet, dest: nat, priority: Priority)
    requires Sorted(q)
    ensures Flow(Insert(q, p), dest, priority)
         == Flow(q, dest, priority) + if p.dest == dest && p.priority == priority then [p] else []
  {
    if q != [] && Rank(q[0]) <= Rank(p) {
      var rest := q[1..];
      InsertFlow(rest, p, dest, priority);
      assert Insert(q, p)[1..] == Insert(rest, p);
    } else {
      assert ([p] + q)[1..] == q;
      if p.priority == priority {
        forall x | x in q ensures x.priority != priority { var k :| 0 <= k < |q| && q[k] == x; }
        NoFlow(q, dest, priority);
      }
    }
  }

  lemma FlowCons(x: Packet, q: seq<Packet>, dest: nat, priority: Priority)
    ensures Flow([x] + q, dest, priority) == (if x.dest == dest && x.priority == priority then [x] else []) + Flow(q, dest, priority)
  {
    assert ([x] + q)[1..] == q;
  }

  /** Two packets for different destinations may change places. */
  lemma FlowSkips(x: Packet, y: Packet, q: seq<Packet>, dest: nat, priority: Priority)
    requires x.dest != y.dest
    ensures Flow([y], dest, priority) + Flow([x] + q, dest, priority) == Flow([x] + ([y] + q), dest, priority)
  {
    FlowCons(x, q, dest, priority);
    FlowCons(x, [y] + q, dest, priority);
    FlowCons(y, q, dest, priority);
    FlowOne(y, dest, priority);
    hide Flow;
  }

  /** Sending takes packets from the front of their flows. */
  lemma VisitFlow(q: seq<Packet>, served: set<nat>, dest: nat, priority: Priority)
    ensures var v := Visit(q, served);
      Flow(v.sent, dest, priority) + Flow(v.rest, dest, priority) == Flow(q, dest, priority)
  {
    var v := Visit(q, served);
    hide Flow;
    if |q| > 1 && q[0].dest in served && q[1].dest !in served {
      assert q == [q[0]] + ([q[1]] + q[2..]);
      assert v.rest == [q[0]] + q[2..];
      FlowSkips(q[0], q[1], q[2..], dest, priority);
    } else {
      assert q == v.sent + v.rest;
      FlowConcat(v.sent, v.rest, dest, priority);
    }
  }

  lemma FlowOne(p: Packet, dest: nat, priority: Priority)
    ensures Flow([p], dest, priority) == if p.dest == dest && p.priority == priority then [p] else []
  {
  }

  lemma {:induction false} ArriveFlow(queues: seq<seq<Packet>>, arrivals: seq<Sent>, p: nat, dest: nat, priority: Priority)
    requires p < |queues| && forall k :: 0 <= k < |queues| ==> Sorted(queues[k])
    ensures Flow(Arrive(queues, arrivals)[p], dest, priority)
         == Flow(queues[p], dest, priority) + Flow(Out(arrivals, p), dest, priority)
    decreases |arrivals|
  {
    if arrivals != [] {
      var a, rest := arrivals[0], arrivals[1..];
      ArriveOneSorted(queues, a);
      ArriveOneFlow(queues, a, p, dest, priority);
      ArriveFlow(ArriveOne(queues, a), rest, p, dest, priority);
      hide *;
      FlowOut(arrivals, p, dest, priority);
      Assoc(Flow(queues[p], dest, priority), Added(a, p, dest, priority), Flow(Out(rest, p), dest, priority));
      ArriveStep(queues, arrivals);
    }
  }

  lemma ArriveStep(queues: seq<seq<Packet>>, arrivals: seq<Sent>)
    requires arrivals != []
    ensures Arrive(queues, arrivals) == Arrive(ArriveOne(queues, arrivals[0]), arrivals[1..])
  {
  }

  lemma Assoc(a: seq<Packet>, b: seq<Packet>, c: seq<Packet>)
    ensures (a + b) + c == a + (b + c)
  {
  }

  lemma ArriveOneSorted(queues: seq<seq<Packet>>, a: Sent)
    requires forall k :: 0 <= k < |queues| ==> Sorted(queues[k])
    ensures forall k :: 0 <= k < |queues| ==> Sorted(ArriveOne(queues, a)[k])
  {
    if a.port < |queues| { InsertSorted(queues[a.port], a.packet); }
    hide Sorted;
  }

  /** The part of a flow that one arrival adds. */
  function Added(a: Sent, p: nat, dest: nat, priority: Priority): seq<Packet> {
    if a.port == p && a.packet.dest == dest && a.packet.priority == priority then [a.packet] else []
  }

  lemma ArriveOneFlow(queues: seq<seq<Packet>>, a: Sent, p: nat, dest: nat, priority: Priority)
    requires p < |queues| && forall k :: 0 <= k < |queues| ==> Sorted(queues[k])
    ensures Flow(ArriveOne(queues, a)[p], dest, priority) == Flow(queues[p], dest, priority) + Added(a, p, dest, priority)
  {
    hide Flow, Insert, Sorted;
    InsertFlow(queues[p], a.packet, dest, priority);
    assert Flow(queues[p], dest, priority) + [] == Flow(queues[p], dest, priority);
  }

  lemma FlowOut(arrivals: seq<Sent>, p: nat, dest: nat, priority: Priority)
    requires arrivals != []
    ensures Flow(Out(arrivals, p), dest, priority)
         == Added(arrivals[0], p, dest, priority) + Flow(Out(arrivals[1..], p), dest, priority)
  {
    var rest := Out(arrivals[1..], p);
    FlowConcat([arrivals[0].packet], rest, dest, priority);
    FlowOne(arrivals[0].packet, dest, priority);
    assert Out(arrivals, p) == (if arrivals[0].port == p then [arrivals[0].packet] else []) + rest;
    assert [] + rest == rest && [] + Flow(rest, dest, priority) == Flow(rest, dest, priority);
  }

  /** Order and conservation: at every port, what is sent followed by what stays queued is what was queued
      followed by what arrived, for each destination and priority.  So nothing is lost or duplicated and
      no packet overtakes an earlier one of its priority with the same source and destination. */
  lemma FlowsInOrder(s: State, arrivals: seq<Sent>, p: nat, dest: nat, priority: Priority)
    requires Valid(s) && p < |s.queues|
    ensures Flow(Out(CallRound(s, arrivals).sent, p), dest, priority) + Flow(Call(s, arrivals).queues[p], dest, priority)
         == Flow(s.queues[p], dest, priority) + Flow(Out(arrivals, p), dest, priority)
  {
    CallPort(s, arrivals, p);
    ArriveFlow(s.queues, arrivals, p, dest, priority);
    var q := Arrive(s.queues, arrivals);
    VisitFlow(q[p], ServedAt(q, s.top, s.clockwise, 0, {}, p), dest, priority);
  }

  // ---------------------------------------------------------------- bounded waiting

  /** Where the packet at position k of a queue is after a visit: further on, or sent (-1). */
  function After(q: seq<Packet>, served: set<nat>, k: nat): (r: int)
    requires k < |q|
  {
    var v := Visit(q, served);
    if |v.sent| == 0 then k
    else if |v.sent| == 2 then if k < 2 then -1 else k - 2
    else if v.sent[0] == q[0] && q[0].dest !in served then if k == 0 then -1 else k - 1
    else if k == 0 then 0 else if k == 1 then -1 else k - 1
  }

  /** The position says where the packet is; it never grows, and at the first port it falls. */
  lemma AfterIs(q: seq<Packet>, served: set<nat>, k: nat)
    requires k < |q|
    ensures var v, j := Visit(q, served), After(q, served, k);
      && (if j == -1 then q[k] in v.sent else 0 <= j <= k && j < |v.rest| && v.rest[j] == q[k])
      && (served == {} ==> j < k)
  {
  }

  /** Arrivals of the same or a lower priority leave a packet where it is. */
  lemma {:induction false} InsertKeeps(q: seq<Packet>, p: Packet, k: nat)
    requires Sorted(q) && k < |q| && Rank(q[k]) <= Rank(p)
    ensures Insert(q, p)[k] == q[k]
  {
    assert k > 0 ==> Rank(q[0]) <= Rank(q[k]);
    if k > 0 {
      assert q[1..][k - 1] == q[k];
      InsertKeeps(q[1..], p, k - 1);
    }
  }

  /** No packet of a higher priority than x arrives at port p. */
  predicate Undisturbed(arrivals: seq<Sent>, p: nat, x: Packet) {
    forall i :: 0 <= i < |arrivals| && arrivals[i].port == p ==> Rank(x) <= Rank(arrivals[i].packet)
  }

  lemma {:induction false} ArriveKeeps(queues: seq<seq<Packet>>, arrivals: seq<Sent>, p: nat, k: nat)
    requires p < |queues| && (forall i :: 0 <= i < |queues| ==> Sorted(queues[i]))
    requires k < |queues[p]| && Undisturbed(arrivals, p, queues[p][k])
    ensures k < |Arrive(queues, arrivals)[p]| && Arrive(queues, arrivals)[p][k] == queues[p][k]
    decreases |arrivals|
  {
    if arrivals != [] {
      ArriveOneSorted(queues, arrivals[0]);
      if arrivals[0].port == p { InsertKeeps(queues[p], arrivals[0].packet, k); }
      hide Sorted;
      ArriveKeeps(ArriveOne(queues, arrivals[0]), arrivals[1..], p, k);
    }
  }

  /** The number of calls before a call that visits port p first. */
  function Until(s: State, p: nat): (t: nat)
    requires s.top < |s.queues| && p < |s.queues|
    ensures t < 2 * |s.queues|
  {
    var d := if p >= s.top then p - s.top else p + |s.queues| - s.top;
    if d == 0 then 0 else if s.clockwise then 2 * d else 2 * d - 1
  }

  lemma UntilFalls(s: State, arrivals: seq<Sent>, p: nat)
    requires Valid(s) && p < |s.queues| && Until(s, p) > 0
    ensures Until(Call(s, arrivals), p) == Until(s, p) - 1
  {
  }

  /** The state before call k. */
  function StateAfter(s: State, calls: seq<seq<Sent>>, k: nat): (r: State)
    requires s.top < |s.queues| && k <= |calls|
    ensures |r.queues| == |s.queues| && r.top < |r.queues|
    decreases k
  {
    if k == 0 then s else StateAfter(Call(s, calls[0]), calls[1..], k - 1)
  }

  /** The packets that leave port p in call k. */
  function SentBy(s: State, calls: seq<seq<Sent>>, k: nat, p: nat): seq<Packet>
    requires s.top < |s.queues| && k < |calls|
  {
    Out(CallRound(StateAfter(s, calls, k), calls[k]).sent, p)
  }

  lemma SentLater(s: State, calls: seq<seq<Sent>>, k: nat, p: nat)
    requires s.top < |s.queues| && 0 < k < |calls|
    ensures SentBy(s, calls, k, p) == SentBy(Call(s, calls[0]), calls[1..], k - 1, p)
  {
    assert calls[1..][k - 1] == calls[k];
  }

  /** The position of the packet after a call, or -1 if it has been sent. */
  ghost function Position(s: State, p: nat, k: nat, arrivals: seq<Sent>): int
    requires Valid(s) && p < |s.queues| && k < |s.queues[p]| && Undisturbed(arrivals, p, s.queues[p][k])
  {
    ArriveKeeps(s.queues, arrivals, p, k);
    var q := Arrive(s.queues, arrivals);
    After(q[p], ServedAt(q, s.top, s.clockwise, 0, {}, p), k)
  }

  lemma NextPosition(s: State, p: nat, k: nat, arrivals: seq<Sent>)
    requires Valid(s) && p < |s.queues| && k < |s.queues[p]| && Undisturbed(arrivals, p, s.queues[p][k])
    ensures Valid(Call(s, arrivals))
    ensures var j, r := Position(s, p, k, arrivals), s.queues[p][k];
      if j == -1 then r in Out(CallRound(s, arrivals).sent, p)
      else 0 <= j <= k && j < |Call(s, arrivals).queues[p]| && Call(s, arrivals).queues[p][j] == r
    ensures Until(s, p) == 0 ==> Position(s, p, k, arrivals) < k
  {
    ArriveKeeps(s.queues, arrivals, p, k);
    CallPort(s, arrivals, p);
    CallValid(s, arrivals);
    var q := Arrive(s.queues, arrivals);
    AfterIs(q[p], ServedAt(q, s.top, s.clockwise, 0, {}, p), k);
    if Until(s, p) == 0 {
      assert Port(|q|, s.top, s.clockwise, 0) == p;
      assert ServedAt(q, s.top, s.clockwise, 0, {}, p) == {};
    }
  }

  predicate AllUndisturbed(calls: seq<seq<Sent>>, p: nat, x: Packet) {
    forall i :: 0 <= i < |calls| ==> Undisturbed(calls[i], p, x)
  }

  /** The call in which the packet at position k leaves. */
  lemma {:induction false} LeavesInTime(s: State, p: nat, k: nat, calls: seq<seq<Sent>>) returns (m: nat)
    requires Valid(s) && p < |s.queues| && k < |s.queues[p]| && AllUndisturbed(calls, p, s.queues[p][k])
    requires |calls| > 2 * |s.queues| * k + Until(s, p)
    ensures m < |calls| && m <= 2 * |s.queues| * k + Until(s, p) && s.queues[p][k] in SentBy(s, calls, m, p)
    decreases |calls|
  {
    var n := |s.queues|;
    var a, s' := calls[0], Call(s, calls[0]);
    var j := Position(s, p, k, a);
    NextPosition(s, p, k, a);
    if j == -1 {
      m := 0;
      Zero(n, k);
    } else {
      Enough(n, k, j, Until(s, p), Until(s', p)) by {
        if Until(s, p) > 0 { UntilFalls(s, a, p); }
      }
      m := LeavesInTime(s', p, j, calls[1..]);
      m := m + 1;
      SentLater(s, calls, m, p);
    }
  }

  lemma Zero(n: nat, k: nat)
    ensures 2 * n * k >= 0
  {
  }

  lemma Enough(n: nat, k: nat, j: nat, u: nat, u': nat)
    requires j <= k && u' < 2 * n && if u == 0 then j < k else u' == u - 1
    ensures 2 * n * k + u >= 2 * n * j + u' + 1
  {
    var m := 2 * n;
    MulLess(j, k, m);
    if u == 0 {
      MulLess(j + 1, k, m);
      assert (j + 1) * m == j * m + m;
    }
    assert 2 * n * k == k * m && 2 * n * j == j * m;
  }

  /** Bounded waiting: a packet with k packets ahead of it in its queue leaves the crossbar within
      2 * ports * (k + 1) calls, unless packets of higher priority arrive at its port.  For replies, which
      have the highest priority, that is whatever arrives. */
  lemma PacketsLeave(s: State, p: nat, k: nat, calls: seq<seq<Sent>>)
    requires Valid(s) && p < |s.queues| && k < |s.queues[p]|
    requires s.queues[p][k].priority == Reply || AllUndisturbed(calls, p, s.queues[p][k])
    requires |calls| >= 2 * |s.queues| * (k + 1)
    ensures exists m: nat :: m < 2 * |s.queues| * (k + 1) <= |calls| && s.queues[p][k] in SentBy(s, calls, m, p)
  {
    assert 2 * |s.queues| * (k + 1) == 2 * |s.queues| * k + 2 * |s.queues|;
    var m := LeavesInTime(s, p, k, calls);
  }

  // ---------------------------------------------------------------- overtaking

  /** Every b in the queue has an a before it. */
  ghost predicate Precedes(q: seq<Packet>, a: Packet, b: Packet) {
    forall j :: 0 <= j < |q| && q[j] == b ==> a in q[..j]
  }

  /** Insertion splits a sorted queue by priority. */
  lemma {:induction false} InsertSplits(q: seq<Packet>, p: Packet) returns (k: nat)
    requires Sorted(q)
    ensures k <= |q| && Insert(q, p) == q[..k] + [p] + q[k..]
    ensures (forall i :: 0 <= i < k ==> Rank(q[i]) <= Rank(p)) && (forall i :: k <= i < |q| ==> Rank(p) < Rank(q[i]))
  {
    if q != [] && Rank(q[0]) <= Rank(p) {
      k := InsertSplits(q[1..], p);
      k := k + 1;
      forall i | 0 <= i < |q| ensures if i < k then Rank(q[i]) <= Rank(p) else Rank(p) < Rank(q[i]) {
        assert i > 0 ==> q[1..][i - 1] == q[i];
      }
    } else {
      k := 0;
    }
  }

  lemma InsertPrecedes(q: seq<Packet>, p: Packet, a: Packet, b: Packet)
    requires Sorted(q) && a in q && Precedes(q, a, b) && Rank(a) <= Rank(b)
    ensures a in Insert(q, p) && Precedes(Insert(q, p), a, b)
  {
    var k := InsertSplits(q, p);
    var i :| 0 <= i < |q| && q[i] == a;
    hide Insert, Sorted;
    SplicePrecedes(q, p, k, a, b);
  }

  lemma SplicePrecedes(q: seq<Packet>, p: Packet, k: nat, a: Packet, b: Packet)
    requires k <= |q| && a in q && Precedes(q, a, b) && (p == b ==> a in q[..k])
    ensures var r := q[..k] + [p] + q[k..]; a in r && Precedes(r, a, b)
  {
    var r := q[..k] + [p] + q[k..];
    var i :| 0 <= i < |q| && q[i] == a;
    assert r[if i < k then i else i + 1] == a;
    forall j | 0 <= j < |r| && r[j] == b ensures a in r[..j] {
      if j <= k {
        assert r[..j] == q[..j];
      } else {
        assert q[j - 1] == b;
        var i0 :| 0 <= i0 < j - 1 && q[..j - 1][i0] == a;
        assert r[..j][if i0 < k then i0 else i0 + 1] == q[i0];
      }
    }
  }

  lemma {:induction false} ArrivePrecedes(queues: seq<seq<Packet>>, arrivals: seq<Sent>, p: nat, a: Packet, b: Packet)
    requires p < |queues| && (forall i :: 0 <= i < |queues| ==> Sorted(queues[i]))
    requires a in queues[p] && Precedes(queues[p], a, b) && Rank(a) <= Rank(b)
    ensures a in Arrive(queues, arrivals)[p] && Precedes(Arrive(queues, arrivals)[p], a, b)
    decreases |arrivals|
  {
    if arrivals != [] {
      ArriveOneSorted(queues, arrivals[0]);
      if arrivals[0].port == p { InsertPrecedes(queues[p], arrivals[0].packet, a, b); }
      hide Sorted, Precedes;
      ArrivePrecedes(ArriveOne(queues, arrivals[0]), arrivals[1..], p, a, b);
    }
  }

  /** A visit never sends the packet behind, and keeps it behind until the one before it is sent. */
  lemma VisitPrecedes(q: seq<Packet>, served: set<nat>, a: Packet, b: Packet)
    requires a in q && Precedes(q, a, b) && a.dest == b.dest && a != b
    ensures var v := Visit(q, served); b !in v.sent && (a in v.sent || (a in v.rest && Precedes(v.rest, a, b)))
  {
    var v := Visit(q, served);
    assert q[..0] == [];
    assert |q| > 1 ==> q[..1] == [q[0]];
    if a !in v.sent {
      var gone := |v.sent|;
      var first := q[0].dest in served && gone == 1;
      assert v.rest == if first then q[..1] + q[2..] else q[gone..];
      KeepsOrder(q, v.rest, first, gone, a, b);
    }
  }

  /** Taking away packets in front that are not a. */
  lemma KeepsOrder(q: seq<Packet>, r: seq<Packet>, first: bool, gone: nat, a: Packet, b: Packet)
    requires a in q && Precedes(q, a, b) && gone <= |q| && (first ==> |q| > 1 && q[1] != a)
    requires r == if first then q[..1] + q[2..] else q[gone..]
    requires !first ==> a !in q[..gone]
    ensures a in r && Precedes(r, a, b)
  {
    var i :| 0 <= i < |q| && q[i] == a;
    assert !first ==> q[i] !in q[..gone] && i >= gone;
    assert r[if first then if i == 0 then 0 else i - 1 else i - gone] == a;
    forall j | 0 <= j < |r| && r[j] == b ensures a in r[..j] {
      var j0 := if first then if j == 0 then 0 else j + 1 else j + gone;
      assert q[j0] == b;
      var i0 :| 0 <= i0 < j0 && q[i0] == a;
      assert !first ==> q[i0] !in q[..gone] && i0 >= gone;
      assert r[..j][if first then if i0 == 0 then 0 else i0 - 1 else i0 - gone] == a;
    }
  }

  lemma CallPrecedes(s: State, arrivals: seq<Sent>, p: nat, a: Packet, b: Packet)
    requires Valid(s) && p < |s.queues| && a in s.queues[p] && Precedes(s.queues[p], a, b)
    requires Rank(a) <= Rank(b) && a.dest == b.dest && a != b
    ensures Valid(Call(s, arrivals)) && b !in Out(CallRound(s, arrivals).sent, p)
    ensures var q := Call(s, arrivals).queues[p];
      a in Out(CallRound(s, arrivals).sent, p) || (a in q && Precedes(q, a, b))
  {
    ArrivePrecedes(s.queues, arrivals, p, a, b);
    CallPort(s, arrivals, p);
    CallValid(s, arrivals);
    var q := Arrive(s.queues, arrivals);
    hide Precedes;
    VisitPrecedes(q[p], ServedAt(q, s.top, s.clockwise, 0, {}, p), a, b);
  }

  /** A packet behind one of the same destination and at least its priority leaves in a later call. */
  lemma {:induction false} OrderKept(s: State, p: nat, a: Packet, b: Packet, calls: seq<seq<Sent>>, k: nat) returns (j: nat)
    requires Valid(s) && p < |s.queues| && a in s.queues[p] && Precedes(s.queues[p], a, b)
    requires Rank(a) <= Rank(b) && a.dest == b.dest && a != b
    requires k < |calls| && b in SentBy(s, calls, k, p)
    ensures j < k && a in SentBy(s, calls, j, p)
    decreases k
  {
    CallPrecedes(s, calls[0], p, a, b);
    if a in SentBy(s, calls, 0, p) {
      j := 0;
    } else {
      SentLater(s, calls, k, p);
      hide Precedes, SentBy;
      j := OrderKept(Call(s, calls[0]), p, a, b, calls[1..], k - 1);
      j := j + 1;
      SentLater(s, calls, j, p);
    }
  }

  /** Some b leaves in call k, while no a has left so far. */
  ghost predicate Overtakes(s: State, p: nat, a: Packet, b: Packet, calls: seq<seq<Sent>>, k: nat)
    requires s.top < |s.queues|
  {
    && k < |calls| && b in SentBy(s, calls, k, p)
    && forall j: nat :: j <= k ==> a !in SentBy(s, calls, j, p)
  }

  lemma {:induction false} FirstSent(s: State, p: nat, b: Packet, calls: seq<seq<Sent>>, k: nat) returns (m: nat)
    requires s.top < |s.queues| && k < |calls| && b in SentBy(s, calls, k, p)
    ensures m <= k && b in SentBy(s, calls, m, p) && forall j: nat :: j < m ==> b !in SentBy(s, calls, j, p)
    decreases k
  {
    if j: nat :| j < k && b in SentBy(s, calls, j, p) {
      m := FirstSent(s, p, b, calls, j);
    } else {
      m := k;
    }
  }

  /** A packet of higher priority that arrives is queued before a. */
  lemma InsertedBefore(q: seq<Packet>, a: Packet, b: Packet)
    requires Sorted(q) && a in q && Rank(b) < Rank(a)
    ensures b in Insert(q, b) && Precedes(Insert(q, b), b, a)
  {
    var k := InsertSplits(q, b);
    var r := Insert(q, b);
    assert r[k] == b;
    forall j | 0 <= j < |r| && r[j] == a ensures b in r[..j] {
      assert r[..j][k] == b;
    }
  }

  function Silence(n: nat): (r: seq<seq<Sent>>)
    ensures |r| == n && forall i :: 0 <= i < n ==> r[i] == []
  {
    seq(n, _ => [])
  }

  /** Arrivals may as well have been there before the call. */
  lemma ArrivedBefore(s: State, arrivals: seq<Sent>, n: nat, k: nat, p: nat)
    requires s.top < |s.queues| && k <= n
    ensures SentBy(s, [arrivals] + Silence(n), k, p) == SentBy(s.(queues := Arrive(s.queues, arrivals)), Silence(n + 1), k, p)
  {
    var s1 := s.(queues := Arrive(s.queues, arrivals));
    assert Arrive(s1.queues, []) == s1.queues;
    var calls := [arrivals] + Silence(n);
    if k > 0 {
      assert calls[1..] == Silence(n) == Silence(n + 1)[1..];
      assert Call(s, arrivals) == Call(s1, []);
      SentLater(s, calls, k, p);
      SentLater(s1, Silence(n + 1), k, p);
    }
  }

  /** A packet of higher priority overtakes from every state: it arrives, and nothing else does. */
  lemma CanOvertake(s: State, p: nat, a: Packet, b: Packet) returns (calls: seq<seq<Sent>>, k: nat)
    requires Valid(s) && p < |s.queues| && a in s.queues[p] && a.dest == b.dest && Rank(b) < Rank(a)
    ensures Overtakes(s, p, a, b, calls, k)
  {
    var arrivals := [Sent(p, b)];
    var s1 := s.(queues := Arrive(s.queues, arrivals));
    ArriveStep(s.queues, arrivals);
    assert arrivals[1..] == [];
    ArriveOneSorted(s.queues, arrivals[0]);
    InsertedBefore(s.queues[p], a, b);
    var q := s1.queues[p];
    var i :| 0 <= i < |q| && q[i] == b;
    var n := 2 * |s.queues| * i + 2 * |s.queues|;
    Zero(|s.queues|, i);
    var silence := Silence(n + 1);
    var m := LeavesInTime(s1, p, i, silence);
    k := FirstSent(s1, p, b, silence, m);
    calls := [arrivals] + Silence(n);
    hide Precedes, SentBy;
    ArrivedBefore(s, arrivals, n, k, p);
    forall j: nat | j <= k ensures a !in SentBy(s, calls, j, p) {
      ArrivedBefore(s, arrivals, n, j, p);
      if a in SentBy(s1, silence, j, p) {
        var j' := OrderKept(s1, p, b, a, silence, j);
      }
    }
  }

  /** Overtaking, exactly: from any state with a queued at port p, a later packet b of the same port and
      destination can leave before a if and only if b has the higher priority. */
  lemma OvertakingExact(s: State, p: nat, a: Packet, b: Packet)
    requires Valid(s) && p < |s.queues| && a in s.queues[p] && b !in s.queues[p] && a.dest == b.dest
    ensures (exists calls, k :: Overtakes(s, p, a, b, calls, k)) <==> Rank(b) < Rank(a)
  {
    if Rank(b) < Rank(a) {
      var calls, k := CanOvertake(s, p, a, b);
    } else {
      forall calls, k | Overtakes(s, p, a, b, calls, k) ensures false {
        assert Precedes(s.queues[p], a, b);
        var j := OrderKept(s, p, a, b, calls, k);
      }
    }
  }

  // ---------------------------------------------------------------- who can be held back

  function Stream(p: nat, b: Packet, n: nat): (r: seq<seq<Sent>>)
    ensures |r| == n && forall i :: 0 <= i < n ==> r[i] == [Sent(p, b)]
  {
    seq(n, _ => [Sent(p, b)])
  }

  lemma VisitLeaves(q: seq<Packet>, served: set<nat>, a: Packet)
    requires a in q && a !in Visit(q, served).sent
    ensures a in Visit(q, served).rest
  {
    var k :| 0 <= k < |q| && q[k] == a;
    AfterIs(q, served, k);
  }

  lemma HeldBackOnce(s: State, p: nat, a: Packet, b: Packet)
    requires Valid(s) && p < |s.queues| && a in s.queues[p] && a.dest == b.dest && Rank(b) < Rank(a)
    ensures var arrivals := [Sent(p, b)];
      && Valid(Call(s, arrivals)) && a !in Out(CallRound(s, arrivals).sent, p) && a in Call(s, arrivals).queues[p]
  {
    var arrivals := [Sent(p, b)];
    var q := Arrive(s.queues, arrivals);
    ArriveStep(s.queues, arrivals);
    assert arrivals[1..] == [];
    InsertedBefore(s.queues[p], a, b);
    InsertKeepsAll(s.queues[p], b, a);
    CallValid(s, arrivals);
    CallPort(s, arrivals, p);
    var served := ServedAt(q, s.top, s.clockwise, 0, {}, p);
    VisitPrecedes(q[p], served, b, a);
    VisitLeaves(q[p], served, a);
  }

  lemma InsertKeepsAll(q: seq<Packet>, b: Packet, a: Packet)
    requires Sorted(q) && a in q
    ensures a in Insert(q, b)
  {
    var k := InsertSplits(q, b);
    var i :| 0 <= i < |q| && q[i] == a;
    assert Insert(q, b)[if i < k then i else i + 1] == a;
  }

  /** A stream of packets of higher priority for the same destination holds a packet back. */
  lemma {:induction false} HeldBack(s: State, p: nat, a: Packet, b: Packet, n: nat, m: nat)
    requires Valid(s) && p < |s.queues| && a in s.queues[p] && a.dest == b.dest && Rank(b) < Rank(a) && m < n
    ensures a !in SentBy(s, Stream(p, b, n), m, p)
    decreases m
  {
    HeldBackOnce(s, p, a, b);
    if m > 0 {
      assert Stream(p, b, n)[1..] == Stream(p, b, n - 1);
      SentLater(s, Stream(p, b, n), m, p);
      HeldBack(Call(s, [Sent(p, b)]), p, a, b, n - 1, m - 1);
    }
  }

  /** The packet leaves within the bound, whatever arrives. */
  ghost predicate AlwaysLeaves(s: State, p: nat, a: Packet, bound: nat)
    requires s.top < |s.queues|
  {
    forall calls: seq<seq<Sent>> :: |calls| >= bound ==> exists m: nat :: m < bound && a in SentBy(s, calls, m, p)
  }

  /** Bounded waiting, exactly: replies always leave within the bound, and no other packet has any bound. */
  lemma WaitingExact(s: State, p: nat, k: nat)
    requires Valid(s) && p < |s.queues| && k < |s.queues[p]|
    ensures var a := s.queues[p][k];
      && (a.priority == Reply ==> AlwaysLeaves(s, p, a, 2 * |s.queues| * (k + 1)))
      && (a.priority != Reply ==> forall bound: nat :: !AlwaysLeaves(s, p, a, bound))
  {
    var a := s.queues[p][k];
    if a.priority == Reply {
      forall calls: seq<seq<Sent>> | |calls| >= 2 * |s.queues| * (k + 1)
        ensures exists m: nat :: m < 2 * |s.queues| * (k + 1) && a in SentBy(s, calls, m, p)
      {
        PacketsLeave(s, p, k, calls);
      }
    } else {
      var b := Packet(Reply, a.dest, 0);
      forall bound: nat ensures !AlwaysLeaves(s, p, a, bound) {
        if AlwaysLeaves(s, p, a, bound) {
          var calls := Stream(p, b, bound);
          assert |calls| >= bound;
          var m: nat :| m < bound && a in SentBy(s, calls, m, p);
          HeldBack(s, p, a, b, bound, m);
        }
      }
    }
  }
}
