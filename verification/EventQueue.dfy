/** The global event queue: which components are called at which times.  Components are numbers; a core
    is taken off the queue before it is called, any other component after its call. */
module EventQueue {

  type Queue = map<int, set<nat>>

  function At(q: Queue, t: int): set<nat> {
    if t in q then q[t] else {}
  }

  /** Component c is to be called at time t. */
  predicate Asked(q: Queue, t: int, c: nat) {
    c in At(q, t)
  }

  function Add(q: Queue, t: int, c: nat): Queue {
    q[t := At(q, t) + {c}]
  }

  function Remove(q: Queue, t: int, c: nat): Queue {
    if At(q, t) - {c} == {} then q - {t} else q[t := At(q, t) - {c}]
  }

  /** What a component asks for while it is called. */
  datatype Event = Event(time: int, comp: nat)

  function AddAll(q: Queue, es: seq<Event>): Queue
    decreases |es|
  {
    if es == [] then q else AddAll(Add(q, es[0].time, es[0].comp), es[1..])
  }

  /** The queue after component c has been called at time t and asked for the events es. */
  function Called(q: Queue, t: int, c: nat, core: bool, es: seq<Event>): Queue {
    if core then AddAll(Remove(q, t, c), es) else Remove(AddAll(q, es), t, c)
  }

  predicate NoEmptyTimes(q: Queue) {
    forall t :: t in q ==> q[t] != {}
  }

  predicate First(q: Queue, t: int) {
    t in q && forall u :: u in q ==> t <= u
  }

  predicate NotBefore(es: seq<Event>, t: int) {
    forall i :: 0 <= i < |es| ==> t <= es[i].time
  }

  lemma {:induction false} AddAllAsked(q: Queue, es: seq<Event>, t: int, c: nat)
    ensures Asked(AddAll(q, es), t, c) <==> Asked(q, t, c) || Event(t, c) in es
    ensures NoEmptyTimes(q) ==> NoEmptyTimes(AddAll(q, es))
    decreases |es|
  {
    if es != [] {
      AddAllAsked(Add(q, es[0].time, es[0].comp), es[1..], t, c);
      assert es == [es[0]] + es[1..];
    }
  }

  /** Nothing but the call that was made disappears from the queue, and everything asked for is in it;
      only a component that is not a core loses a call it asks of itself for the present time. */
  lemma CallKeeps(q: Queue, t: int, c: nat, core: bool, es: seq<Event>, u: int, d: nat)
    requires NoEmptyTimes(q)
    ensures NoEmptyTimes(Called(q, t, c, core, es))
    ensures Asked(Called(q, t, c, core, es), u, d)
            <==> (Asked(q, u, d) && !(u == t && d == c)) || (Event(u, d) in es && (core || u != t || d != c))
  {
    AddAllAsked(q, es, u, d);
    AddAllAsked(Remove(q, t, c), es, u, d);
  }

  // ---------------------------------------------------------------- runs

  /** A call: its time, the component, whether that is a core, and what it asked for. */
  datatype Step = Step(time: int, comp: nat, core: bool, es: seq<Event>)

  /** The earliest time is served, nothing is asked for the past, and only cores call themselves again at
      once: the others have links that take time. */
  predicate Legal(q: Queue, s: Step) {
    && First(q, s.time) && s.comp in q[s.time] && NotBefore(s.es, s.time)
    && (s.core || Event(s.time, s.comp) !in s.es)
  }

  ghost predicate Run(q: Queue, steps: seq<Step>, q': Queue)
    decreases |steps|
  {
    if steps == [] then q' == q
    else
      var s := steps[0];
      Legal(q, s) && Run(Called(q, s.time, s.comp, s.core, s.es), steps[1..], q')
  }

  lemma TimesStay(q: Queue, s: Step, u: int)
    requires NoEmptyTimes(q) && Legal(q, s) && u in Called(q, s.time, s.comp, s.core, s.es)
    ensures s.time <= u
  {
    var q' := Called(q, s.time, s.comp, s.core, s.es);
    CallKeeps(q, s.time, s.comp, s.core, s.es, u, 0);
    assert q'[u] != {};
    var d :| d in q'[u];
    CallKeeps(q, s.time, s.comp, s.core, s.es, u, d);
    assert Asked(q', u, d);
  }

  /** Time never decreases from one call to the next. */
  lemma {:induction false} TimeNeverDecreases(q: Queue, steps: seq<Step>, q': Queue, i: nat)
    requires NoEmptyTimes(q) && Run(q, steps, q') && i + 1 < |steps|
    ensures steps[i].time <= steps[i + 1].time
    decreases i
  {
    var s := steps[0];
    CallKeeps(q, s.time, s.comp, s.core, s.es, 0, 0);
    var next := Called(q, s.time, s.comp, s.core, s.es);
    if i == 0 {
      assert steps[1..][0] == steps[1];
      TimesStay(q, s, steps[1].time);
    } else {
      TimeNeverDecreases(next, steps[1..], q', i - 1);
    }
  }

  /** No call is forgotten: what has been asked for is still in the queue or has been made at its time;
      so a component that holds a message for time t, and has asked for a call then, is called. */
  lemma {:induction false} NothingStranded(q: Queue, steps: seq<Step>, q': Queue, t: int, c: nat)
    requires NoEmptyTimes(q) && Run(q, steps, q') && Asked(q, t, c)
    ensures Asked(q', t, c) || exists i :: 0 <= i < |steps| && steps[i].time == t && steps[i].comp == c
    decreases |steps|
  {
    if steps != [] {
      var s := steps[0];
      CallKeeps(q, s.time, s.comp, s.core, s.es, t, c);
      if s.time != t || s.comp != c {
        NothingStranded(Called(q, s.time, s.comp, s.core, s.es), steps[1..], q', t, c);
        if i :| 0 <= i < |steps[1..]| && steps[1..][i].time == t && steps[1..][i].comp == c {
          assert steps[i + 1] == steps[1..][i];
        }
      }
    }
  }

  /** Once time has passed t, the call has been made. */
  lemma CalledByThen(q: Queue, steps: seq<Step>, q': Queue, t: int, c: nat)
    requires NoEmptyTimes(q) && Run(q, steps, q') && Asked(q, t, c) && forall u :: u in q' ==> t < u
    ensures exists i :: 0 <= i < |steps| && steps[i].time == t && steps[i].comp == c
  {
    NothingStranded(q, steps, q', t, c);
  }

  /** Why the others may not ask at once: their own call for the present time would be forgotten. */
  lemma SelfCallLost(q: Queue, t: int, c: nat)
    requires NoEmptyTimes(q) && Asked(q, t, c)
    ensures !Asked(Called(q, t, c, false, [Event(t, c)]), t, c)
    ensures Asked(Called(q, t, c, true, [Event(t, c)]), t, c)
  {
    CallKeeps(q, t, c, false, [Event(t, c)], t, c);
    CallKeeps(q, t, c, true, [Event(t, c)], t, c);
  }

  // ---------------------------------------------------------------- the queue

  class GlobalEventQueue {
    var eventQueue: Queue
    var currTime: int
    const cores: set<nat>

    ghost predicate Valid()
      reads this
    {
      NoEmptyTimes(eventQueue) && forall t :: t in eventQueue ==> currTime <= t
    }

    constructor (coreNumbers: set<nat>)
      ensures Valid() && eventQueue == map[] && cores == coreNumbers
    {
      eventQueue, currTime, cores := map[], 0, coreNumbers;
    }

    method AddEvent(time: int, target: nat)
      requires Valid() && currTime <= time
      modifies this`eventQueue
      ensures Valid() && eventQueue == Add(old(eventQueue), time, target)
    {
      eventQueue := eventQueue[time := At(eventQueue, time) + {target}];
    }

    /** Choose the next call: the earliest time and one of its components.  A core is taken off the queue
        before its call. */
    method BeginCall() returns (comp: nat)
      requires Valid() && exists t :: t in eventQueue
      modifies this
      ensures Valid() && old(currTime) <= currTime && First(old(eventQueue), currTime) && comp in old(eventQueue)[currTime]
      ensures eventQueue == if comp in cores then Remove(old(eventQueue), currTime, comp) else old(eventQueue)
    {
      Earliest(eventQueue.Keys);
      var t :| t in eventQueue && forall u :: u in eventQueue ==> t <= u;
      currTime := t;
      comp :| comp in eventQueue[t];
      if comp in cores { Erase(comp); }
    }

    method Erase(comp: nat)
      requires Valid() && currTime in eventQueue
      modifies this`eventQueue
      ensures Valid() && eventQueue == Remove(old(eventQueue), currTime, comp)
    {
      var left := eventQueue[currTime] - {comp};
      eventQueue := if left == {} then eventQueue - {currTime} else eventQueue[currTime := left];
    }

    /** The call of a component that is not a core is over. */
    method EndCall(comp: nat)
      requires Valid() && Asked(eventQueue, currTime, comp)
      modifies this`eventQueue
      ensures Valid() && eventQueue == if comp in cores then old(eventQueue) else Remove(old(eventQueue), currTime, comp)
    {
      if comp !in cores { Erase(comp); }
    }
  }

  lemma {:induction false} Earliest(ts: set<int>)
    requires exists t :: t in ts
    ensures exists t :: t in ts && forall u :: u in ts ==> t <= u
    decreases |ts|
  {
    var a :| a in ts;
    if forall x :: x in ts ==> x == a {
      assert a in ts && forall u :: u in ts ==> a <= u;
    } else {
      var c :| c in ts && c != a;
      assert c in ts - {a};
      Earliest(ts - {a});
      var b :| b in ts - {a} && forall u :: u in ts - {a} ==> b <= u;
      var t := if a <= b then a else b;
      forall u | u in ts ensures t <= u { assert u == a || u in ts - {a}; }
      assert t in ts;
    }
  }
}
