/** Calls and messages: the event maps of a component hold messages for later calls, and the global queue
    holds the calls.  What is stated here is kept by the directory and by the second-level cache. */
module Inbox {
  import opened Arithmetic

  function At<T>(events: map<int, seq<T>>, t: int): seq<T> {
    if t in events then events[t] else []
  }

  /** A call at time e has a reason: a message due then, or messages left over. */
  predicate Justified<T>(repEvent: map<int, seq<T>>, reqEvent: map<int, seq<T>>, e: int, leftOver: bool, next: int) {
    e in repEvent || e in reqEvent || (leftOver && e == next)
  }

  /** Every waiting message has its call and every call its message; `left` says that the queues are not
      empty, `now` is the time of the last call. */
  predicate Timely<T>(repEvent: map<int, seq<T>>, reqEvent: map<int, seq<T>>, left: bool, scheduled: set<int>,
                   now: int, interval: int) {
    && interval > 0 && now % interval == 0
    && (forall t :: t in repEvent ==> repEvent[t] != [] && t in scheduled)
    && (forall t :: t in reqEvent ==> reqEvent[t] != [] && t in scheduled)
    && (left ==> now + interval in scheduled)
    && (forall t :: t in scheduled ==> now < t && t % interval == 0 && Justified(repEvent, reqEvent, t, left, now + interval))
  }

  /** Two multiples of the interval are an interval apart. */
  lemma NextMultiple(a: int, b: int, interval: int)
    requires interval > 0 && a % interval == 0 && b % interval == 0 && a < b
    ensures a + interval <= b
  {
    var x, y := a / interval, b / interval;
    assert a == x * interval && b == y * interval;
    MulLess(x, y, interval);
    MulSub(y, x, interval);
    MulAtLeast(y - x, interval);
  }

  /** A call that was asked for finds a message. */
  lemma SomethingDue<T>(repEvent: map<int, seq<T>>, reqEvent: map<int, seq<T>>, left: bool, scheduled: set<int>,
                        now: int, interval: int, t: int)
    requires Timely(repEvent, reqEvent, left, scheduled, now, interval) && t in scheduled
    ensures left || At(repEvent, t) != [] || At(reqEvent, t) != []
  {
    assert Justified(repEvent, reqEvent, t, left, now + interval);
  }

  /** A message that arrives for a later time, with its call. */
  lemma TimelyArrival<T>(repEvent: map<int, seq<T>>, reqEvent: map<int, seq<T>>, left: bool, scheduled: set<int>,
                         now: int, interval: int, t: int, x: T)
    requires Timely(repEvent, reqEvent, left, scheduled, now, interval) && now < t && t % interval == 0
    ensures Timely(repEvent[t := At(repEvent, t) + [x]], reqEvent, left, scheduled + {t}, now, interval)
    ensures Timely(repEvent, reqEvent[t := At(reqEvent, t) + [x]], left, scheduled + {t}, now, interval)
  {
    forall e | e in scheduled && e != t
      ensures Justified(repEvent[t := At(repEvent, t) + [x]], reqEvent, e, left, now + interval)
      ensures Justified(repEvent, reqEvent[t := At(reqEvent, t) + [x]], e, left, now + interval)
    {
      assert Justified(repEvent, reqEvent, e, left, now + interval);
    }
  }

  /** What is due at t has been moved into the queues, and the next call is asked for if some is left. */
  lemma TimelyNext<T>(repEvent: map<int, seq<T>>, reqEvent: map<int, seq<T>>, left: bool, scheduled: set<int>,
                   now: int, interval: int, t: int, left': bool)
    requires Timely(repEvent, reqEvent, left, scheduled, now, interval)
    requires t in scheduled && forall e :: e in scheduled ==> t <= e
    ensures Timely(repEvent - {t}, reqEvent - {t}, left', scheduled - {t} + if left' then {t + interval} else {}, t, interval)
  {
    AddMod(t, interval);
    forall e | e in scheduled && e != t ensures Justified(repEvent - {t}, reqEvent - {t}, e, left', t + interval) {
      NextMultiple(now, t, interval);
      assert Justified(repEvent, reqEvent, e, left, now + interval);
    }
  }
}
