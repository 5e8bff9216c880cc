/** The translation look-aside buffer: two maps that are each other's inverse, proved to hold exactly the
    most recently used pages. */
module Tlb {

  // ---------------------------------------------------------------- specification

  function Without(q: seq<nat>, p: nat): (r: seq<nat>)
    ensures forall x :: x in r <==> x in q && x != p
  {
    if q == [] then [] else (if q[0] == p then [] else [q[0]]) + Without(q[1..], p)
  }

  /** The pages of a trace, each once, the most recently used first. */
  function Recent(trace: seq<nat>): (r: seq<nat>) {
    if trace == [] then []
    else [trace[|trace| - 1]] + Without(Recent(trace[..|trace| - 1]), trace[|trace| - 1])
  }

  function Take(q: seq<nat>, n: nat): (r: seq<nat>)
    ensures |r| <= n && r <= q
  {
    if |q| <= n then q else q[..n]
  }

  predicate Distinct(q: seq<nat>) {
    forall i, j :: 0 <= i < j < |q| ==> q[i] != q[j]
  }

  lemma {:induction false} WithoutDistinct(q: seq<nat>, p: nat)
    requires Distinct(q)
    ensures Distinct(Without(q, p)) && |Without(q, p)| == |q| - (if p in q then 1 else 0)
  {
    if q != [] {
      var rest := q[1..];
      WithoutDistinct(rest, p);
      assert q == [q[0]] + rest;
      assert forall i :: 0 <= i < |rest| ==> rest[i] == q[i + 1];
      assert q[0] !in rest;
    }
  }

  lemma {:induction false} RecentDistinct(trace: seq<nat>)
    ensures Distinct(Recent(trace))
  {
    if trace != [] {
      var before := trace[..|trace| - 1];
      RecentDistinct(before);
      WithoutDistinct(Recent(before), trace[|trace| - 1]);
    }
  }

  /** The first k of a list without p are its first k or, when p is among the first k, its first k + 1,
      without p. */
  lemma {:induction false} TakeWithout(q: seq<nat>, p: nat, k: nat)
    requires Distinct(q)
    ensures Take(Without(q, p), k) == Without(Take(q, if p in Take(q, k) then k + 1 else k), p)
    decreases |q|
  {
    if q != [] && k > 0 {
      var rest := q[1..];
      TailDistinct(q);
      assert q == [q[0]] + rest;
      if q[0] == p {
        TakeWithoutHere(rest, p, k);
      } else {
        TakeWithout(rest, p, k - 1);
        TakeWithoutThere(q[0], rest, p, k);
      }
    }
  }

  lemma TakeWithoutHere(rest: seq<nat>, p: nat, k: nat)
    requires p !in rest && k > 0
    ensures var q := [p] + rest; p in Take(q, k) && Take(Without(q, p), k) == Without(Take(q, k + 1), p)
  {
    TakeCons([p] + rest, k);
    TakeCons([p] + rest, k + 1);
    assert ([p] + rest)[1..] == rest;
    WithoutHead(p, rest, p);
    WithoutHead(p, Take(rest, k), p);
    WithoutNone(rest, p);
    WithoutNone(Take(rest, k), p);
  }

  lemma TakeWithoutThere(x: nat, rest: seq<nat>, p: nat, k: nat)
    requires x != p && k > 0
    requires Take(Without(rest, p), k - 1) == Without(Take(rest, if p in Take(rest, k - 1) then k else k - 1), p)
    ensures var q := [x] + rest; Take(Without(q, p), k) == Without(Take(q, if p in Take(q, k) then k + 1 else k), p)
  {
    TakeCons([x] + rest, k);
    TakeCons([x] + rest, k + 1);
    assert ([x] + rest)[1..] == rest && ([x] + Without(rest, p))[1..] == Without(rest, p);
    TakeCons([x] + Without(rest, p), k);
    WithoutHead(x, rest, p);
    WithoutHead(x, Take(rest, k), p);
    WithoutHead(x, Take(rest, k - 1), p);
    hide Take, Without;
  }

  lemma TailDistinct(q: seq<nat>)
    requires q != [] && Distinct(q)
    ensures Distinct(q[1..]) && q[0] !in q[1..]
  {
    assert forall i :: 0 <= i < |q| - 1 ==> q[1..][i] == q[i + 1];
  }

  lemma TakeCons(q: seq<nat>, k: nat)
    requires q != [] && k > 0
    ensures Take(q, k) == [q[0]] + Take(q[1..], k - 1)
  {
  }

  lemma WithoutHead(x: nat, q: seq<nat>, p: nat)
    ensures Without([x] + q, p) == if x == p then Without(q, p) else [x] + Without(q, p)
  {
    assert ([x] + q)[1..] == q;
  }

  lemma {:induction false} WithoutNone(q: seq<nat>, p: nat)
    requires p !in q
    ensures Without(q, p) == q
  {
    if q != [] {
      WithoutNone(q[1..], p);
      assert q == [q[0]] + q[1..];
    }
  }

  /** What is resident after a trace, the most recently used page first. */
  function Resident(trace: seq<nat>, n: nat): seq<nat> {
    if trace == [] then []
    else
      var p, q := trace[|trace| - 1], Resident(trace[..|trace| - 1], n);
      Used(q, p, n)
  }

  /** What stays of the list when page p is used: all but p, and not the last one if p needs its place. */
  function Kept(q: seq<nat>, p: nat, n: nat): seq<nat> {
    if p in q then Without(q, p) else if |q| < n || q == [] then q else q[..|q| - 1]
  }

  /** The list after page p has been used. */
  function Used(q: seq<nat>, p: nat, n: nat): seq<nat> {
    [p] + Kept(q, p, n)
  }

  lemma KeptTake(r: seq<nat>, p: nat, n: nat)
    requires Distinct(r) && n > 0
    ensures Kept(Take(r, n), p, n) == Take(Without(r, p), n - 1)
  {
    TakeWithout(r, p, n - 1);
    TakeStep(r, n);
    var few, q := Take(r, n - 1), Take(r, n);
    hide Take, Distinct;
    if p !in few {
      WithoutNone(few, p);
      if p in q {
        WithoutLast(q, p);
      }
    }
  }

  lemma UsedTake(r: seq<nat>, p: nat, n: nat)
    requires Distinct(r) && n > 0
    ensures Used(Take(r, n), p, n) == Take([p] + Without(r, p), n)
  {
    KeptTake(r, p, n);
    TakeCons([p] + Without(r, p), n);
    assert ([p] + Without(r, p))[1..] == Without(r, p);
  }

  /** One more is the same or has one more at the end. */
  lemma TakeStep(r: seq<nat>, n: nat)
    requires n > 0
    ensures var few, q := Take(r, n - 1), Take(r, n);
      if |q| < n then few == q else q != [] && few == q[..|q| - 1] && |q| == n
  {
  }

  /** Only the last element can be missing from the shorter list. */
  lemma WithoutLast(q: seq<nat>, p: nat)
    requires q != [] && p in q && p !in q[..|q| - 1]
    ensures Without(q, p) == q[..|q| - 1]
  {
    if |q| > 1 {
      assert q[..|q| - 1][0] == q[0];
      assert q == [q[0]] + q[1..];
      assert q[1..][..|q| - 2] == q[..|q| - 1][1..];
      assert p !in q[1..][..|q| - 2];
      WithoutLast(q[1..], p);
    }
  }

  /** A buffer with n entries holds exactly the n most recently used pages. */
  lemma {:induction false} ResidentIsRecent(trace: seq<nat>, n: nat)
    requires n > 0
    ensures Resident(trace, n) == Take(Recent(trace), n)
  {
    if trace != [] {
      var before, p := trace[..|trace| - 1], trace[|trace| - 1];
      ResidentIsRecent(before, n);
      RecentDistinct(before);
      UsedTake(Recent(before), p, n);
    }
  }

  function Misses(trace: seq<nat>, n: nat): nat {
    if trace == [] then 0
    else
      var before, p := trace[..|trace| - 1], trace[|trace| - 1];
      Misses(before, n) + if p in Resident(before, n) then 0 else 1
  }

  /** A larger buffer holds at least the same pages and never misses more on the same trace. */
  lemma {:induction false} LargerMissesLess(trace: seq<nat>, n: nat, m: nat)
    requires 0 < n <= m
    ensures Resident(trace, n) <= Resident(trace, m) && Misses(trace, m) <= Misses(trace, n)
  {
    ResidentIsRecent(trace, n);
    ResidentIsRecent(trace, m);
    if trace != [] {
      LargerMissesLess(trace[..|trace| - 1], n, m);
    }
  }

  // ---------------------------------------------------------------- the buffer

  /** The pages of the list have been used at times that go down. */
  predicate Ordered(entries: map<nat, int>, q: seq<nat>) {
    q == [] || (q[0] in entries && (forall x :: x in q[1..] ==> x in entries && entries[x] < entries[q[0]]) && Ordered(entries, q[1..]))
  }

  /** The maps hold the list q, the most recently used page first, and are each other's inverse. */
  ghost predicate Represents(entries: map<nat, int>, lru: map<int, nat>, q: seq<nat>, now: int) {
    && Ordered(entries, q)
    && (forall p :: p in entries <==> p in q)
    && (forall p :: p in entries ==> entries[p] <= now && entries[p] in lru && lru[entries[p]] == p)
    && (forall t :: t in lru ==> lru[t] in entries && entries[lru[t]] == t)
  }

  lemma {:induction false} OrderedWithout(entries: map<nat, int>, q: seq<nat>, p: nat)
    requires Ordered(entries, q) && p in q
    ensures Ordered(entries - {p}, Without(q, p)) && |Without(q, p)| == |q| - 1
    decreases |q|
  {
    var rest := q[1..];
    assert q == [q[0]] + rest;
    WithoutHead(q[0], rest, p);
    if q[0] == p {
      assert p !in rest;
      WithoutNone(rest, p);
      OrderedSame(entries, entries - {p}, rest);
    } else {
      OrderedWithout(entries, rest, p);
      OrderedCons(entries - {p}, q[0], Without(rest, p));
    }
  }

  lemma OrderedCons(entries: map<nat, int>, x: nat, q: seq<nat>)
    requires Ordered(entries, q) && x in entries && forall y :: y in q ==> y in entries && entries[y] < entries[x]
    ensures Ordered(entries, [x] + q)
  {
    assert ([x] + q)[1..] == q;
  }

  lemma {:induction false} OrderedSame(entries: map<nat, int>, entries': map<nat, int>, q: seq<nat>)
    requires Ordered(entries, q) && forall x :: x in q ==> x in entries' && (x in entries ==> entries'[x] == entries[x])
    ensures Ordered(entries', q)
  {
    if q != [] {
      OrderedSame(entries, entries', q[1..]);
      assert q[0] in q && forall x :: x in q[1..] ==> x in q;
    }
  }

  /** A page is taken out. */
  lemma TakenOut(entries: map<nat, int>, lru: map<int, nat>, q: seq<nat>, now: int, p: nat)
    requires Represents(entries, lru, q, now) && p in q
    ensures Represents(entries - {p}, lru - {entries[p]}, Without(q, p), now)
  {
    OrderedWithout(entries, q, p);
  }

  /** A page is put in front. */
  lemma PutInFront(entries: map<nat, int>, lru: map<int, nat>, q: seq<nat>, now: int, p: nat, t: int)
    requires Represents(entries, lru, q, now) && p !in q && now <= t && t !in lru
    ensures Represents(entries[p := t], lru[t := p], [p] + q, t)
  {
    assert forall x :: x in q ==> entries[x] < t;
    OrderedSame(entries, entries[p := t], q);
    assert ([p] + q)[1..] == q;
  }

  lemma {:induction false} OldestIsLast(entries: map<nat, int>, q: seq<nat>, x: nat)
    requires Ordered(entries, q) && x in q
    ensures var p := q[|q| - 1]; p in entries && x in entries && entries[p] <= entries[x] && p !in q[..|q| - 1]
  {
    assert q == [q[0]] + q[1..];
    if |q| > 1 {
      var rest := q[1..];
      OldestIsLast(entries, rest, if x in rest then x else rest[0]);
      assert rest[|rest| - 1] == q[|q| - 1] && q[|q| - 1] in rest;
      assert q[..|q| - 1] == [q[0]] + rest[..|rest| - 1];
    }
  }

  lemma {:induction false} SameSize(entries: map<nat, int>, lru: map<int, nat>, q: seq<nat>, now: int)
    requires Represents(entries, lru, q, now)
    ensures |lru| == |q|
    decreases |q|
  {
    if q != [] {
      var p := q[0];
      TakenOut(entries, lru, q, now, p);
      OrderedWithout(entries, q, p);
      SameSize(entries - {p}, lru - {entries[p]}, Without(q, p), now);
      assert lru.Keys == (lru - {entries[p]}).Keys + {entries[p]};
      assert |lru.Keys| == |(lru - {entries[p]}).Keys| + 1;
    } else {
      assert forall t :: t !in lru;
      assert lru.Keys == {};
    }
  }

  lemma MapsHold(entries: map<nat, int>, lru: map<int, nat>, q: seq<nat>, now: int)
    requires Represents(entries, lru, q, now)
    ensures forall p :: p in entries <==> p in q
    ensures forall p :: p in entries ==> entries[p] in lru && lru[entries[p]] == p
  {
  }

  lemma ResidentGrows(trace: seq<nat>, p: nat, n: nat)
    requires n > 0
    ensures Resident(trace + [p], n) == Used(Resident(trace, n), p, n) && |Resident(trace, n)| <= n
  {
    assert (trace + [p])[..|trace|] == trace;
    ResidentIsRecent(trace, n);
  }

  /** The least recently used page has the least time. */
  lemma OldestTime(entries: map<nat, int>, lru: map<int, nat>, q: seq<nat>, now: int)
    requires Represents(entries, lru, q, now) && q != []
    ensures var p := q[|q| - 1];
      && p in entries && entries[p] in lru && lru[entries[p]] == p && (forall u :: u in lru ==> entries[p] <= u)
      && Without(q, p) == q[..|q| - 1]
  {
    var p := q[|q| - 1];
    OldestIsLast(entries, q, p);
    forall u | u in lru ensures p in entries && entries[p] <= u { OldestIsLast(entries, q, lru[u]); }
    WithoutLast(q, p);
  }

  predicate IsOldest(lru: map<int, nat>, t: int) {
    t in lru && forall u :: u in lru ==> t <= u
  }

  /** What is known about a time that is not before any other: a page that has it is resident, and it is
      the oldest time only if it is the only one. */
  lemma SameTime(entries: map<nat, int>, lru: map<int, nat>, q: seq<nat>, now: int, t: int)
    requires Represents(entries, lru, q, now) && now <= t
    ensures forall p :: p in entries ==> (entries[p] == t <==> t in lru && lru[t] == p)
    ensures t in lru ==> lru[t] in entries
    ensures t in lru && IsOldest(lru, t) ==> |lru| == 1
    ensures t in lru && |lru| == 1 ==> forall u :: u in lru ==> u == t
  {
    if t in lru && IsOldest(lru, t) {
      assert forall u :: u in lru ==> u <= now;
      assert lru.Keys == {t};
    }
    if t in lru && |lru| == 1 {
      assert |lru.Keys - {t}| == 0;
      assert forall u :: u in lru ==> u !in lru.Keys - {t};
    }
  }

  /** A page whose time is taken by another one leaves the maps not inverse. */
  lemma TimeTaken(entries: map<nat, int>, lru: map<int, nat>, rest: seq<nat>, now: int, page: nat, t: int, q: seq<nat>)
    requires Represents(entries, lru, rest, now) && page !in rest && t in lru
    ensures !Represents(entries[page := t], lru, q, t)
  {
    assert lru[t] in rest;
    assert page in entries[page := t];
  }

  class Buffer {
    const numEntries: nat
    var entries: map<nat, int>
    var lru: map<int, nat>
    ghost var trace: seq<nat>
    ghost var now: int

    ghost predicate Valid()
      reads this
    {
      numEntries > 0 && Represents(entries, lru, Resident(trace, numEntries), now)
    }

    constructor (n: nat)
      requires n > 0
      ensures Valid() && trace == [] && numEntries == n
    {
      numEntries, entries, lru, trace, now := n, map[], map[], [], 0;
    }

    /** The time is already taken by another page, which keeps its place. */
    ghost predicate Collides(t: int, page: nat)
      reads this
    {
      t in lru && lru[t] != page && numEntries > 1
    }

    /** One access, no earlier than all before: a hit exactly when the page is one of the most recently
        used ones.  The buffer holds exactly those afterwards again if and only if the access does not
        collide with one of another page at the same time. */
    method Access(t: int, page: nat) returns (hit: bool)
      requires Valid() && now <= t
      modifies this
      ensures trace == old(trace) + [page] && now == t
      ensures hit == (page in Take(Recent(old(trace)), numEntries))
      ensures Valid() <==> !old(Collides(t, page))
      ensures Valid() ==> forall p :: p in entries <==> p in Take(Recent(trace), numEntries)
      ensures Valid() ==> forall p :: p in entries ==> entries[p] in lru && lru[entries[p]] == p
    {
      ghost var q := Resident(trace, numEntries);
      ResidentIsRecent(trace, numEntries);
      ResidentIsRecent(trace + [page], numEntries);
      ResidentGrows(trace, page, numEntries);
      hide Represents, Without, Take, Resident, Recent, Kept;
      ghost var rest;
      hit, rest := MakeRoom(t, page, q);
      if t !in lru { PutInFront(entries, lru, rest, now, page, t); } else { TimeTaken(entries, lru, rest, now, page, t, [page] + rest); }
      entries := entries[page := t];
      if t !in lru { lru := lru[t := page]; }
      trace := trace + [page];
      now := t;
      if Valid() { MapsHold(entries, lru, [page] + rest, t); }
    }

    /** Take the page out of the maps, or the oldest page if the buffer is full. */
    method MakeRoom(t: int, page: nat, ghost q: seq<nat>) returns (hit: bool, ghost rest: seq<nat>)
      requires Represents(entries, lru, q, now) && now <= t && |q| <= numEntries && numEntries > 0
      modifies this`entries, this`lru
      ensures hit == (page in q) && Represents(entries, lru, rest, now) && page !in rest
      ensures rest == Kept(q, page, numEntries)
      ensures t in lru <==> old(Collides(t, page))
    {
      MapsHold(entries, lru, q, now);
      SameSize(entries, lru, q, now);
      SameTime(entries, lru, q, now, t);
      hide Represents;
      rest := q;
      hit := page in entries;
      if !hit {
        if |lru| >= numEntries {
          EvictOldest(q);
          rest := q[..|q| - 1];
        }
      } else {
        TakenOut(entries, lru, q, now, page);
        lru := lru - {entries[page]};
        entries := entries - {page};
        rest := Without(q, page);
      }
    }

    /** Give up the page at the front of the map of times. */
    method EvictOldest(ghost q: seq<nat>)
      requires Represents(entries, lru, q, now) && q != []
      modifies this`entries, this`lru
      ensures Represents(entries, lru, q[..|q| - 1], now)
      ensures exists oldest :: IsOldest(old(lru), oldest) && lru == old(lru) - {oldest}
    {
      ghost var p := q[|q| - 1];
      OldestTime(entries, lru, q, now);
      var oldest :| oldest in lru && forall u :: u in lru ==> oldest <= u;
      hide Represents;
      TakenOut(entries, lru, q, now, p);
      entries := entries - {lru[oldest]};
      lru := lru - {oldest};
    }
  }
}
