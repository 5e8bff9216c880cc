/** The global queue and the event maps of one component together: the component's calls in the queue
    are exactly those that its messages ask for, so every message is taken at its time and every call
    finds one.  The directory and the second-level cache are such components. */
module EventDelivery {
  import EventQueue
  import opened Inbox

  datatype Msg<T> = Msg(time: int, reply: bool, body: T)

  /** The queue of the program, the waiting messages of component c, whether messages are left over from
      its last call, and the time of that call. */
  datatype World<T> = World(q: EventQueue.Queue, rep: map<int, seq<T>>, req: map<int, seq<T>>, left: bool, now: int)

  /** A call of another component, which sends messages to c, or a call of c, which may leave some over. */
  datatype Action<T> = Other(step: EventQueue.Step, msgs: seq<Msg<T>>) | Own(step: EventQueue.Step, left: bool)

  function DeliverOne<T>(w: World<T>, m: Msg<T>): World<T> {
    if m.reply then w.(rep := w.rep[m.time := At(w.rep, m.time) + [m.body]])
    else w.(req := w.req[m.time := At(w.req, m.time) + [m.body]])
  }

  function Deliver<T>(w: World<T>, msgs: seq<Msg<T>>): (r: World<T>)
    ensures r.q == w.q && r.left == w.left && r.now == w.now
    decreases |msgs|
  {
    if msgs == [] then w else Deliver(DeliverOne(w, msgs[0]), msgs[1..])
  }

  /** Some message is for time t. */
  predicate For<T>(msgs: seq<Msg<T>>, t: int) {
    exists i :: 0 <= i < |msgs| && msgs[i].time == t
  }

  /** Messages come with a call for their time, which is a later multiple of the interval; c asks for its
      next interval when messages are left over. */
  ghost predicate Enabled<T>(c: nat, interval: int, w: World<T>, a: Action<T>)
    requires interval > 0
  {
    && EventQueue.Legal(w.q, a.step)
    && match a
       case Other(s, msgs) =>
         && s.comp != c
         && (forall i :: 0 <= i < |msgs| ==> s.time < msgs[i].time && msgs[i].time % interval == 0)
         && (forall t :: EventQueue.Event(t, c) in s.es <==> For(msgs, t))
       case Own(s, left) =>
         && s.comp == c && !s.core
         && (forall t :: EventQueue.Event(t, c) in s.es <==> left && t == s.time + interval)
  }

  function Next<T>(w: World<T>, a: Action<T>): World<T> {
    var s := a.step;
    var q := EventQueue.Called(w.q, s.time, s.comp, s.core, s.es);
    match a
    case Other(s, msgs) => Deliver(w, msgs).(q := q)
    case Own(s, left) => World(q, w.rep - {s.time}, w.req - {s.time}, left, s.time)
  }

  ghost predicate Run<T>(c: nat, interval: int, w: World<T>, actions: seq<Action<T>>, w': World<T>)
    requires interval > 0
    decreases |actions|
  {
    if actions == [] then w' == w
    else Enabled(c, interval, w, actions[0]) && Run(c, interval, Next(w, actions[0]), actions[1..], w')
  }

  /** The times at which c is to be called. */
  function Calls(q: EventQueue.Queue, c: nat): set<int> {
    set t | t in q && c in q[t]
  }

  /** The queue calls c when, and only when, it has a message. */
  ghost predicate Linked<T>(c: nat, interval: int, w: World<T>) {
    && EventQueue.NoEmptyTimes(w.q)
    && Timely(w.rep, w.req, w.left, Calls(w.q, c), w.now, interval)
    && (forall t :: t in w.q ==> w.now <= t)
  }

  // ---------------------------------------------------------------- every step keeps the link

  lemma {:induction false} DeliverTimely<T>(w: World<T>, msgs: seq<Msg<T>>, scheduled: set<int>, interval: int)
    requires Timely(w.rep, w.req, w.left, scheduled, w.now, interval)
    requires forall i :: 0 <= i < |msgs| ==> w.now < msgs[i].time && msgs[i].time % interval == 0
    ensures var r := Deliver(w, msgs);
      Timely(r.rep, r.req, r.left, scheduled + set i | 0 <= i < |msgs| :: msgs[i].time, r.now, interval)
    decreases |msgs|
  {
    var all := set i | 0 <= i < |msgs| :: msgs[i].time;
    if msgs == [] {
      assert scheduled + all == scheduled;
    } else {
      var m, rest := msgs[0], msgs[1..];
      TimelyArrival(w.rep, w.req, w.left, scheduled, w.now, interval, m.time, m.body);
      var w1 := DeliverOne(w, m);
      var later := set i | 0 <= i < |rest| :: rest[i].time;
      assert scheduled + all == (scheduled + {m.time}) + later by {
        forall i | 0 <= i < |msgs| ensures msgs[i].time in {m.time} + later {
          if i > 0 { assert rest[i - 1] == msgs[i]; }
        }
        forall i | 0 <= i < |rest| ensures rest[i].time in all { assert rest[i] == msgs[i + 1]; }
      }
      hide Timely;
      DeliverTimely(w1, rest, scheduled + {m.time}, interval);
    }
  }

  /** A call leaves c's other calls in the queue and adds those it asks for. */
  lemma CallsAfter(q: EventQueue.Queue, s: EventQueue.Step, c: nat, t: int)
    requires EventQueue.NoEmptyTimes(q) && EventQueue.Legal(q, s)
    ensures var q' := EventQueue.Called(q, s.time, s.comp, s.core, s.es);
      && EventQueue.NoEmptyTimes(q')
      && (t in Calls(q', c) <==> (t in Calls(q, c) && !(t == s.time && s.comp == c)) || EventQueue.Event(t, c) in s.es)
  {
    EventQueue.CallKeeps(q, s.time, s.comp, s.core, s.es, t, c);
    var q' := EventQueue.Called(q, s.time, s.comp, s.core, s.es);
    assert t in Calls(q, c) <==> EventQueue.Asked(q, t, c);
    assert t in Calls(q', c) <==> EventQueue.Asked(q', t, c);
  }

  lemma StillLater(q: EventQueue.Queue, s: EventQueue.Step)
    requires EventQueue.NoEmptyTimes(q) && EventQueue.Legal(q, s)
    ensures forall u :: u in EventQueue.Called(q, s.time, s.comp, s.core, s.es) ==> s.time <= u
  {
    forall u | u in EventQueue.Called(q, s.time, s.comp, s.core, s.es) ensures s.time <= u { EventQueue.TimesStay(q, s, u); }
  }

  lemma OtherLinked<T>(c: nat, interval: int, w: World<T>, a: Action<T>)
    requires interval > 0 && Linked(c, interval, w) && Enabled(c, interval, w, a) && a.Other?
    ensures Linked(c, interval, Next(w, a))
  {
    var s, msgs, w' := a.step, a.msgs, Next(w, a);
    StillLater(w.q, s);
    DeliverTimely(w, msgs, Calls(w.q, c), interval);
    var times := set i | 0 <= i < |msgs| :: msgs[i].time;
    forall t ensures t in Calls(w'.q, c) <==> t in Calls(w.q, c) + times {
      CallsAfter(w.q, s, c, t);
      assert t in times <==> For(msgs, t);
    }
    CallsAfter(w.q, s, c, 0);
    hide Timely, Deliver, EventQueue.Called;
    assert Calls(w'.q, c) == Calls(w.q, c) + times;
  }

  lemma OwnLinked<T>(c: nat, interval: int, w: World<T>, a: Action<T>)
    requires interval > 0 && Linked(c, interval, w) && Enabled(c, interval, w, a) && a.Own?
    ensures Linked(c, interval, Next(w, a))
  {
    var s, w' := a.step, Next(w, a);
    StillLater(w.q, s);
    assert s.time in Calls(w.q, c) && forall e :: e in Calls(w.q, c) ==> s.time <= e;
    TimelyNext(w.rep, w.req, w.left, Calls(w.q, c), w.now, interval, s.time, a.left);
    var after := Calls(w.q, c) - {s.time} + if a.left then {s.time + interval} else {};
    forall t ensures t in Calls(w'.q, c) <==> t in after { CallsAfter(w.q, s, c, t); }
    CallsAfter(w.q, s, c, 0);
    hide Timely, EventQueue.Called;
    assert Calls(w'.q, c) == after;
  }

  lemma {:induction false} RunLinked<T>(c: nat, interval: int, w: World<T>, actions: seq<Action<T>>, w': World<T>)
    requires interval > 0 && Linked(c, interval, w) && Run(c, interval, w, actions, w')
    ensures Linked(c, interval, w')
    decreases |actions|
  {
    if actions != [] {
      hide Linked, Next, Enabled;
      if actions[0].Own? { OwnLinked(c, interval, w, actions[0]); } else { OtherLinked(c, interval, w, actions[0]); }
      RunLinked(c, interval, Next(w, actions[0]), actions[1..], w');
    }
  }

  // ---------------------------------------------------------------- what follows over every run

  /** Before c's first message: nothing waits and nobody has asked for its call. */
  ghost predicate Start<T>(c: nat, w: World<T>) {
    && EventQueue.NoEmptyTimes(w.q) && Calls(w.q, c) == {} && (forall t :: t in w.q ==> 0 <= t)
    && w.rep == map[] && w.req == map[] && !w.left && w.now == 0
  }

  /** Over every run of the queue, a call of c finds a message. */
  lemma CallsFindMessages<T>(c: nat, interval: int, w: World<T>, actions: seq<Action<T>>, w': World<T>, a: Action<T>)
    requires interval > 0 && Start(c, w) && Run(c, interval, w, actions, w') && Enabled(c, interval, w', a) && a.Own?
    ensures w'.left || At(w'.rep, a.step.time) != [] || At(w'.req, a.step.time) != []
  {
    RunLinked(c, interval, w, actions, w');
    assert a.step.time in Calls(w'.q, c);
    SomethingDue(w'.rep, w'.req, w'.left, Calls(w'.q, c), w'.now, interval, a.step.time);
  }

  ghost predicate Waits<T>(w: World<T>, t: int, x: T) {
    x in At(w.rep, t) || x in At(w.req, t)
  }

  lemma {:induction false} DeliverKeeps<T>(w: World<T>, msgs: seq<Msg<T>>, t: int, x: T)
    requires Waits(w, t, x)
    ensures Waits(Deliver(w, msgs), t, x)
    decreases |msgs|
  {
    if msgs != [] {
      DeliverKeeps(DeliverOne(w, msgs[0]), msgs[1..], t, x);
    }
  }

  ghost function After<T>(w: World<T>, actions: seq<Action<T>>, i: nat): World<T>
    requires i <= |actions|
    decreases i
  {
    if i == 0 then w else After(Next(w, actions[0]), actions[1..], i - 1)
  }

  /** Call i is c's call at time t, and x is there to be taken. */
  ghost predicate Takes<T>(w: World<T>, actions: seq<Action<T>>, i: nat, t: int, x: T) {
    i < |actions| && actions[i].Own? && actions[i].step.time == t && Waits(After(w, actions, i), t, x)
  }

  /** A message that waits for time t is there when c is called at t, and once time has passed t that call
      has been made. */
  lemma {:induction false} MessageTaken<T>(c: nat, interval: int, w: World<T>, actions: seq<Action<T>>, w': World<T>, t: int, x: T)
    requires interval > 0 && Linked(c, interval, w) && Run(c, interval, w, actions, w') && Waits(w, t, x)
    requires forall u :: u in w'.q ==> t < u
    ensures exists i: nat :: Takes(w, actions, i, t, x)
    decreases |actions|
  {
    assert t in Calls(w.q, c);
    if actions != [] {
      var a, w1 := actions[0], Next(w, actions[0]);
      if a.Own? && a.step.time == t {
        assert Takes(w, actions, 0, t, x);
      } else {
        if a.Own? { OwnLinked(c, interval, w, a); } else { OtherLinked(c, interval, w, a); DeliverKeeps(w, a.msgs, t, x); }
        assert Waits(w1, t, x);
        hide Linked, Waits, Next, Enabled;
        MessageTaken(c, interval, w1, actions[1..], w', t, x);
        var i: nat :| Takes(w1, actions[1..], i, t, x);
        assert Takes(w, actions, i + 1, t, x);
      }
    }
  }
}
