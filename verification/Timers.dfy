/** The timer set of an event loop and the pass that fires what is due while the
    handlers add timers to the very set being walked. */
module Timers {
  /** A one-shot timer; times are in microseconds. */
  datatype Timer = Timer(id: nat, timeout: int)

  /** The set is ordered by deadline alone, and no two entries share one. */
  ghost predicate Sorted(s: seq<Timer>) {
    forall i, j :: 0 <= i < j < |s| ==> s[i].timeout < s[j].timeout
  }

  /** How many entries come before deadline `t`. */
  function Slot(s: seq<Timer>, t: int): (p: nat)
    ensures p <= |s|
    ensures forall i :: 0 <= i < p ==> s[i].timeout < t
    ensures p < |s| ==> s[p].timeout >= t
  {
    if s == [] || s[0].timeout >= t then 0
    else
      var p := Slot(s[1..], t) + 1;
      assert forall i :: 1 <= i < p ==> s[i] == s[1..][i - 1];
      p
  }

  predicate Taken(s: seq<Timer>, t: int) {
    Slot(s, t) < |s| && s[Slot(s, t)].timeout == t
  }

  /** `emplace`: an entry whose deadline is taken is dropped. */
  function Insert(s: seq<Timer>, x: Timer): seq<Timer> {
    var p := Slot(s, x.timeout);
    if Taken(s, x.timeout) then s else s[..p] + [x] + s[p..]
  }

  /** Where an iterator at index `it` points after the insertion: at the same entry. */
  function Moved(s: seq<Timer>, x: Timer, it: nat): nat {
    if !Taken(s, x.timeout) && Slot(s, x.timeout) <= it then it + 1 else it
  }

  /** How many entries are due at time `now`. */
  function Due(s: seq<Timer>, now: int): (d: nat)
    ensures d <= |s|
  {
    Slot(s, now + 1)
  }

  lemma SlotSplits(s: seq<Timer>, t: int)
    requires Sorted(s)
    ensures forall i :: 0 <= i < |s| ==> (s[i].timeout < t <==> i < Slot(s, t))
  {
    hide Slot;
    var p := Slot(s, t);
    assert forall i :: p < i < |s| ==> s[p].timeout < s[i].timeout;
  }

  lemma TakenExactly(s: seq<Timer>, t: int)
    requires Sorted(s)
    ensures Taken(s, t) <==> exists y :: y in s && y.timeout == t
  {
    hide Slot;
    SlotSplits(s, t);
    if Taken(s, t) {
      assert s[Slot(s, t)] in s;
    }
    if y :| y in s && y.timeout == t {
      var i :| 0 <= i < |s| && s[i] == y;
      assert Slot(s, t) <= i;
      assert s[Slot(s, t)].timeout <= s[i].timeout;
    }
  }

  lemma SortedJoin(a: seq<Timer>, x: Timer, b: seq<Timer>)
    requires Sorted(a) && Sorted(b)
    requires forall i :: 0 <= i < |a| ==> a[i].timeout < x.timeout
    requires forall i :: 0 <= i < |b| ==> x.timeout < b[i].timeout
    ensures Sorted(a + [x] + b)
  {
    var r := a + [x] + b;
    forall i, j | 0 <= i < j < |r|
      ensures r[i].timeout < r[j].timeout
    {
      if j < |a| {} else if i > |a| { assert r[i] == b[i - |a| - 1] && r[j] == b[j - |a| - 1]; }
      else if i < |a| && j > |a| { assert a[i].timeout < x.timeout < b[j - |a| - 1].timeout; }
    }
  }

  lemma InsertSorted(s: seq<Timer>, x: Timer)
    requires Sorted(s)
    ensures Sorted(Insert(s, x))
    ensures forall y :: y in s ==> y in Insert(s, x)
    ensures forall y :: y in Insert(s, x) ==> y in s || y == x
  {
    hide Slot;
    var p := Slot(s, x.timeout);
    if !Taken(s, x.timeout) {
      Beyond(s, x.timeout);
      SlotSorted(s, x.timeout);
      Spliced(s, p, x);
      hide Sorted, Taken;
      SortedJoin(s[..p], x, s[p..]);
    }
  }

  lemma Beyond(s: seq<Timer>, t: int)
    requires Sorted(s) && !Taken(s, t)
    ensures forall i :: Slot(s, t) <= i < |s| ==> s[i].timeout > t
  {
    hide Slot;
    var p := Slot(s, t);
    if p < |s| { assert forall i :: p < i < |s| ==> s[p].timeout < s[i].timeout; }
  }

  lemma Spliced(s: seq<Timer>, p: nat, x: Timer)
    requires p <= |s|
    ensures forall y :: y in s[..p] + [x] + s[p..] <==> y in s || y == x
  {
    var r := s[..p] + [x] + s[p..];
    assert s == s[..p] + s[p..];
    assert r[p] == x;
  }

  lemma SlotSorted(s: seq<Timer>, t: int)
    requires Sorted(s)
    ensures Sorted(s[..Slot(s, t)]) && Sorted(s[Slot(s, t)..])
  {
    hide Slot;
  }

  /** An added timer is in the set afterwards exactly when no other entry has its
      deadline: of two timers with equal deadlines the later one is lost. */
  lemma KeptExactly(s: seq<Timer>, x: Timer)
    requires Sorted(s) && x !in s
    ensures x in Insert(s, x) <==> forall y :: y in s ==> y.timeout != x.timeout
  {
    TakenExactly(s, x.timeout);
  }

  // ---------- the pass ----------

  /** The state of a pass at time `now` over a set that held `was` at its start:
      `fired` so far, the set now, and the iterator. Ahead of the iterator come
      first the timers of `was` that are due and not fired yet. */
  ghost predicate Midway(was: seq<Timer>, now: int, fired: seq<Timer>, s: seq<Timer>, it: nat) {
    var end := it + |Rest(was, now, fired)|;
    && Sorted(was) && Sorted(s) && FiredSoFar(was, now, fired)
    && end <= |s| && s[it..end] == Rest(was, now, fired)
    && (forall i :: 0 <= i < it ==> s[i].timeout >= now)
    && (forall i :: end <= i < |s| ==> s[i].timeout >= now)
    && (OneMore(was, now, fired) ==> forall i :: end <= i < |s| ==> s[i].timeout > now)
    && (forall x :: x in was[Due(was, now)..] ==> x in s)
  }

  /** The timers of `was` that are due and have not fired. */
  ghost function Rest(was: seq<Timer>, now: int, fired: seq<Timer>): seq<Timer> {
    if |fired| < Due(was, now) then was[|fired|..Due(was, now)] else []
  }

  /** No further timer due just now can still be met by the iterator. */
  ghost predicate OneMore(was: seq<Timer>, now: int, fired: seq<Timer>) {
    |fired| > Due(was, now) || Taken(was, now)
  }

  /** What has fired is the due part of `was`, in order, and possibly one more
      timer, due just now, when `was` had none with that deadline. */
  ghost predicate FiredSoFar(was: seq<Timer>, now: int, fired: seq<Timer>) {
    var due := Due(was, now);
    if |fired| <= due then fired == was[..|fired|]
    else |fired| == due + 1 && fired[..due] == was[..due] && fired[due].timeout == now && !Taken(was, now)
  }

  lemma DueSplits(s: seq<Timer>, now: int)
    requires Sorted(s)
    ensures forall i :: 0 <= i < |s| ==> (s[i].timeout <= now <==> i < Due(s, now))
    ensures Taken(s, now) ==> Due(s, now) > 0 && s[Due(s, now) - 1].timeout == now
    ensures !Taken(s, now) ==> forall i :: 0 <= i < Due(s, now) ==> s[i].timeout < now
  {
    hide Slot;
    SlotSplits(s, now + 1);
    SlotSplits(s, now);
  }

  lemma PassStarts(s: seq<Timer>, now: int)
    requires Sorted(s)
    ensures Midway(s, now, [], s, 0)
  {
    hide Slot;
    DueSplits(s, now);
    assert s[0..Due(s, now)] == s[..Due(s, now)];
  }

  /** Firing the timer at the iterator, which is then at its successor. */
  lemma PassFires(was: seq<Timer>, now: int, fired: seq<Timer>, s: seq<Timer>, it: nat)
    requires Midway(was, now, fired, s, it) && it < |s| && s[it].timeout <= now
    ensures Midway(was, now, fired + [s[it]], s[..it] + s[it + 1..], it)
    ensures |fired| <= Due(was, now)
  {
    hide Slot, Due, Taken, Midway;
    Removed(was, now, fired, s, it);
    if |fired| < Due(was, now) { FiresNext(was, now, fired, s, it); } else { FiresExtra(was, now, fired, s, it); }
  }

  /** Removing an entry that is due keeps the order and the entries not due. */
  lemma Removed(was: seq<Timer>, now: int, fired: seq<Timer>, s: seq<Timer>, it: nat)
    requires Midway(was, now, fired, s, it) && it < |s| && s[it].timeout <= now
    ensures var r := s[..it] + s[it + 1..];
      Sorted(r) && forall y :: y in was[Due(was, now)..] ==> y in r
  {
    hide Slot, FiredSoFar, Rest, OneMore;
    DueSplits(was, now);
    hide Due;
    var due, r := Due(was, now), s[..it] + s[it + 1..];
    assert forall i :: 0 <= i < |r| ==> r[i] == s[if i < it then i else i + 1];
    forall y | y in was[due..]
      ensures y in r
    {
      var k :| 0 <= k < |s| && s[k] == y;
      assert y.timeout > now;
      assert r[if k < it then k else k - 1] == y;
    }
  }

  lemma FiresNext(was: seq<Timer>, now: int, fired: seq<Timer>, s: seq<Timer>, it: nat)
    requires Midway(was, now, fired, s, it) && it < |s| && |fired| < Due(was, now)
    requires var r := s[..it] + s[it + 1..];
      Sorted(r) && forall y :: y in was[Due(was, now)..] ==> y in r
    ensures Midway(was, now, fired + [s[it]], s[..it] + s[it + 1..], it)
  {
    hide Slot, Due, Taken, Sorted, FiredSoFar, Rest, OneMore;
    var rest, r := Rest(was, now, fired), s[..it] + s[it + 1..];
    var end := it + |rest|;
    NextOf(was, now, fired);
    assert s[it] == s[it..end][0] == was[|fired|];
    Dropped(s, it, end);
    Shifted(s, it);
  }

  lemma Shifted(s: seq<Timer>, it: nat)
    requires it < |s|
    ensures var r := s[..it] + s[it + 1..];
      (forall i :: 0 <= i < it ==> r[i] == s[i]) && forall i :: it <= i < |r| ==> r[i] == s[i + 1]
  {
  }

  /** The next timer to fire is the first of those left. */
  lemma NextOf(was: seq<Timer>, now: int, fired: seq<Timer>)
    requires |fired| < Due(was, now) && FiredSoFar(was, now, fired)
    ensures var x, rest := was[|fired|], Rest(was, now, fired);
      && rest != [] && rest[0] == x
      && FiredSoFar(was, now, fired + [x]) && Rest(was, now, fired + [x]) == rest[1..]
      && (OneMore(was, now, fired + [x]) ==> OneMore(was, now, fired))
  {
    hide Slot, Due, Taken;
    assert was[..|fired| + 1] == was[..|fired|] + [was[|fired|]];
  }

  lemma Dropped(s: seq<Timer>, it: nat, end: nat)
    requires it < end <= |s|
    ensures (s[..it] + s[it + 1..])[it..end - 1] == s[it..end][1..]
  {
    var r := s[..it] + s[it + 1..];
    forall i | it <= i < end - 1
      ensures r[i] == s[it..end][1..][i - it]
    {
    }
  }

  lemma FiresExtra(was: seq<Timer>, now: int, fired: seq<Timer>, s: seq<Timer>, it: nat)
    requires Midway(was, now, fired, s, it) && it < |s| && s[it].timeout <= now && |fired| >= Due(was, now)
    requires var r := s[..it] + s[it + 1..];
      Sorted(r) && forall y :: y in was[Due(was, now)..] ==> y in r
    ensures Midway(was, now, fired + [s[it]], s[..it] + s[it + 1..], it) && |fired| == Due(was, now)
  {
    hide Slot, Due, Taken;
    var r := s[..it] + s[it + 1..];
    assert s[it].timeout == now && !OneMore(was, now, fired);
    assert (fired + [s[it]])[..|fired|] == fired;
    assert forall i :: it <= i < |r| ==> r[i] == s[i + 1] && s[it].timeout < s[i + 1].timeout;
    assert r[it..it] == [];
  }

  /** A handler adds a timer that is not overdue. */
  lemma PassAdds(was: seq<Timer>, now: int, fired: seq<Timer>, s: seq<Timer>, it: nat, x: Timer)
    requires Midway(was, now, fired, s, it) && x.timeout >= now
    ensures Midway(was, now, fired, Insert(s, x), Moved(s, x, it))
  {
    hide Slot, FiredSoFar, Due, Rest, OneMore, Sorted;
    if !Taken(s, x.timeout) {
      AddedBeyond(was, now, fired, s, it, x);
      InsertSorted(s, x);
      if Slot(s, x.timeout) <= it {
        AddsBehind(was, now, fired, s, it, x);
      } else {
        AddsAhead(was, now, fired, s, it, x);
      }
    }
  }

  lemma AddsBehind(was: seq<Timer>, now: int, fired: seq<Timer>, s: seq<Timer>, it: nat, x: Timer)
    requires Midway(was, now, fired, s, it) && x.timeout >= now && !Taken(s, x.timeout)
    requires Slot(s, x.timeout) <= it && Rest(was, now, fired) == [] && Sorted(Insert(s, x))
    requires forall y :: y in s ==> y in Insert(s, x)
    ensures Midway(was, now, fired, Insert(s, x), it + 1)
  {
    hide Slot, FiredSoFar, Due, Rest, OneMore, Sorted, Taken;
    var p, r := Slot(s, x.timeout), Insert(s, x);
    assert r == s[..p] + [x] + s[p..];
    assert forall i :: 0 <= i < |r| ==> r[i] == if i < p then s[i] else if i == p then x else s[i - 1];
    assert r[it + 1..it + 1] == [];
  }

  lemma SamePart(r: seq<Timer>, s: seq<Timer>, p: nat, from: nat, to: nat)
    requires from <= to <= p <= |s| && p <= |r| && r[..p] == s[..p]
    ensures r[from..to] == s[from..to]
  {
    forall i | from <= i < to
      ensures r[i] == s[i]
    {
      assert r[..p][i] == s[..p][i];
    }
  }

  lemma AddsAhead(was: seq<Timer>, now: int, fired: seq<Timer>, s: seq<Timer>, it: nat, x: Timer)
    requires Midway(was, now, fired, s, it) && x.timeout >= now && !Taken(s, x.timeout)
    requires it < Slot(s, x.timeout) && it + |Rest(was, now, fired)| <= Slot(s, x.timeout) && Sorted(Insert(s, x))
    requires OneMore(was, now, fired) ==> x.timeout > now
    requires forall y :: y in s ==> y in Insert(s, x)
    ensures Midway(was, now, fired, Insert(s, x), it)
  {
    hide Slot, FiredSoFar, Due, Rest, OneMore, Sorted, Taken;
    var p, r, end := Slot(s, x.timeout), Insert(s, x), it + |Rest(was, now, fired)|;
    assert r == s[..p] + [x] + s[p..];
    hide Insert;
    SamePart(r, s, p, it, end);
    forall i | end <= i < |r|
      ensures r[i].timeout >= now && (OneMore(was, now, fired) ==> r[i].timeout > now)
    {
      assert r[i] == if i < p then s[i] else if i == p then x else s[i - 1];
    }
    assert forall i :: 0 <= i < it ==> r[i] == s[i];
  }

  /** The added timer goes behind all that are due and still to fire; it can come
      after the iterator as one more due timer only while there is room for one. */
  lemma AddedBeyond(was: seq<Timer>, now: int, fired: seq<Timer>, s: seq<Timer>, it: nat, x: Timer)
    requires Midway(was, now, fired, s, it) && x.timeout >= now && !Taken(s, x.timeout)
    ensures var p, rest := Slot(s, x.timeout), Rest(was, now, fired);
      && (rest != [] ==> p >= it + |rest|)
      && (p > it && OneMore(was, now, fired) ==> x.timeout > now)
  {
    hide Slot, FiredSoFar;
    DueSplits(was, now);
    SlotSplits(s, x.timeout);
    TakenExactly(s, x.timeout);
    var p, rest := Slot(s, x.timeout), Rest(was, now, fired);
    if rest != [] {
      var last := it + |rest| - 1;
      assert s[last] == s[it..it + |rest|][|rest| - 1] == was[Due(was, now) - 1];
      assert s[last] in s && s[last].timeout <= now;
    }
    if p > it && OneMore(was, now, fired) && rest == [] {
      assert s[it].timeout > now;
    }
  }

  lemma RestHead(was: seq<Timer>, now: int, fired: seq<Timer>, s: seq<Timer>, it: nat)
    requires Midway(was, now, fired, s, it)
    ensures Rest(was, now, fired) != [] ==> it < |s| && s[it] == was[|fired|]
  {
    hide Slot, FiredSoFar, OneMore, Due;
    var rest := Rest(was, now, fired);
    if rest != [] {
      assert s[it] == s[it..it + |rest|][0];
    }
  }

  lemma PassEnds(was: seq<Timer>, now: int, fired: seq<Timer>, s: seq<Timer>, it: nat)
    requires Midway(was, now, fired, s, it) && (it < |s| ==> s[it].timeout > now)
    ensures |fired| >= Due(was, now) && FiredSoFar(was, now, fired) && Sorted(s)
    ensures forall x :: x in s ==> x.timeout >= now
    ensures forall x :: x in was && x.timeout > now ==> x in s
  {
    hide Slot, FiredSoFar, OneMore;
    DueSplits(was, now);
    var rest := Rest(was, now, fired);
    RestHead(was, now, fired, s, it);
    assert was == was[..Due(was, now)] + was[Due(was, now)..];
  }

  lemma AllDueFired(was: seq<Timer>, now: int, fired: seq<Timer>)
    requires Sorted(was) && FiredSoFar(was, now, fired) && |fired| >= Due(was, now)
    ensures forall x :: x in was && x.timeout <= now ==> x in fired
    ensures forall x :: x in fired ==> x.timeout <= now
  {
    hide Slot;
    DueSplits(was, now);
    hide Due, Taken;
    var due := Due(was, now);
    assert forall i :: 0 <= i < due ==> fired[i] == fired[..due][i] == was[i];
  }

  /** The firings of a pass are in strictly increasing order of deadline, each
      timer due, and at most one more than were due at the start. */
  lemma FiredInOrder(was: seq<Timer>, now: int, fired: seq<Timer>)
    requires Sorted(was) && FiredSoFar(was, now, fired)
    ensures Sorted(fired) && |fired| <= Due(was, now) + 1
    ensures forall x :: x in fired ==> x.timeout <= now
  {
    hide Slot;
    DueSplits(was, now);
    hide Due, Taken;
    var due := Due(was, now);
    assert forall i :: 0 <= i < |fired| && i < due ==> fired[i] == was[i];
  }

  // ---------- the pass as a function ----------

  /** The set, the iterator and what has fired. */
  datatype Pass = Pass(timers: seq<Timer>, it: nat, fired: seq<Timer>)

  /** The timer at the iterator is due. */
  predicate Goes(p: Pass, now: int) { p.it < |p.timers| && p.timers[p.it].timeout <= now }

  /** A handler adds `xs`, one after another; the iterator keeps its entry. */
  function AddAll(p: Pass, xs: seq<Timer>): Pass {
    if xs == [] then p
    else
      var q, x := AddAll(p, xs[..|xs| - 1]), xs[|xs| - 1];
      Pass(Insert(q.timers, x), Moved(q.timers, x, q.it), q.fired)
  }

  /** The timer at the iterator leaves the set, and its handler runs. */
  function Fire(p: Pass, react: nat -> seq<Timer>): Pass
    requires p.it < |p.timers|
  {
    var rest := Pass(p.timers[..p.it] + p.timers[p.it + 1..], p.it, p.fired + [p.timers[p.it]]);
    AddAll(rest, react(|p.fired|))
  }

  /** `n` rounds of the loop; once it has stopped nothing changes. */
  function Rounds(s: seq<Timer>, now: int, react: nat -> seq<Timer>, n: nat): Pass {
    if n == 0 then Pass(s, 0, [])
    else
      var p := Rounds(s, now, react, n - 1);
      if Goes(p, now) then Fire(p, react) else p
  }

  /** The whole pass: one firing more than timers due at entry is always enough. */
  function PassOver(s: seq<Timer>, now: int, react: nat -> seq<Timer>): Pass {
    Rounds(s, now, react, Due(s, now) + 1)
  }

  ghost predicate NotOverdue(react: nat -> seq<Timer>, now: int) {
    forall k: nat, x :: x in react(k) ==> x.timeout >= now
  }

  /** A timer with this deadline has fired or is in the set. */
  ghost predicate Covered(t: int, fired: seq<Timer>, s: seq<Timer>) {
    exists y :: (y in s || y in fired) && y.timeout == t
  }

  /** Everything in the set or fired was there at entry or was added meanwhile. */
  ghost predicate From(was: seq<Timer>, react: nat -> seq<Timer>, p: Pass) {
    forall x :: x in p.timers || x in p.fired ==> x in was || AddedBy(react, |p.fired|, x)
  }

  ghost predicate AddedBy(react: nat -> seq<Timer>, n: nat, x: Timer) { exists k: nat :: k < n && x in react(k) }

  /** What the `k`-th handler added fired after it or is in the set, or another timer
      with its deadline did or is. */
  ghost predicate Kept(react: nat -> seq<Timer>, p: Pass) {
    forall k: nat, x :: k < |p.fired| && x in react(k) ==> Covered(x.timeout, p.fired[k + 1..], p.timers)
  }

  lemma CoveredGrows(t: int, fired: seq<Timer>, s: seq<Timer>, fired': seq<Timer>, s': seq<Timer>)
    requires Covered(t, fired, s) && forall y :: y in s || y in fired ==> y in s' || y in fired'
    ensures Covered(t, fired', s')
  {
  }

  lemma CoveredAdds(s: seq<Timer>, x: Timer)
    requires Sorted(s)
    ensures Covered(x.timeout, [], Insert(s, x))
  {
    hide Slot;
    if Taken(s, x.timeout) {
      assert s[Slot(s, x.timeout)] in s;
    } else {
      assert Insert(s, x)[Slot(s, x.timeout)] == x;
    }
  }

  lemma {:induction false} HandlerAdds(was: seq<Timer>, now: int, p: Pass, xs: seq<Timer>)
    requires Midway(was, now, p.fired, p.timers, p.it) && forall x :: x in xs ==> x.timeout >= now
    ensures var q := AddAll(p, xs);
      && q.fired == p.fired && Midway(was, now, q.fired, q.timers, q.it)
      && (forall y :: y in p.timers ==> y in q.timers) && (forall y :: y in q.timers ==> y in p.timers || y in xs)
      && forall x :: x in xs ==> Covered(x.timeout, [], q.timers)
    decreases |xs|
  {
    hide Slot, Insert, Moved, Sorted, FiredSoFar, Due, Rest, OneMore, Taken, Covered;
    if xs != [] {
      var front, x := xs[..|xs| - 1], xs[|xs| - 1];
      assert xs == front + [x];
      HandlerAdds(was, now, p, front);
      var q := AddAll(p, front);
      PassAdds(was, now, q.fired, q.timers, q.it, x);
      InsertSorted(q.timers, x);
      CoveredAdds(q.timers, x);
      forall y | y in front
        ensures Covered(y.timeout, [], Insert(q.timers, x))
      {
        CoveredGrows(y.timeout, [], q.timers, [], Insert(q.timers, x));
      }
    }
  }

  /** One firing keeps what holds between rounds. */
  lemma FireHolds(was: seq<Timer>, now: int, react: nat -> seq<Timer>, p: Pass)
    requires Midway(was, now, p.fired, p.timers, p.it) && Goes(p, now) && NotOverdue(react, now)
    requires From(was, react, p) && Kept(react, p)
    ensures var q := Fire(p, react);
      && Midway(was, now, q.fired, q.timers, q.it) && From(was, react, q) && Kept(react, q)
      && |q.fired| == |p.fired| + 1 <= Due(was, now) + 1
  {
    hide Slot, Insert, Moved, Sorted, FiredSoFar, Due, Rest, OneMore, Taken, AddAll, Midway;
    var t, added := p.timers[p.it], react(|p.fired|);
    var r := Pass(p.timers[..p.it] + p.timers[p.it + 1..], p.it, p.fired + [t]);
    var q := AddAll(r, added);
    PassFires(was, now, p.fired, p.timers, p.it);
    HandlerAdds(was, now, r, added);
    Leaves(p.timers, p.it);
    FireFrom(was, react, p, r, q);
    FireKept(react, p, r, q);
  }

  lemma Leaves(s: seq<Timer>, it: nat)
    requires it < |s|
    ensures var r := s[..it] + s[it + 1..];
      (forall y :: y in s ==> y in r || y == s[it]) && forall y :: y in r ==> y in s
  {
    var r := s[..it] + s[it + 1..];
    forall y | y in s
      ensures y in r || y == s[it]
    {
      var k :| 0 <= k < |s| && s[k] == y;
      assert k != it ==> r[if k < it then k else k - 1] == y;
    }
  }

  lemma FireFrom(was: seq<Timer>, react: nat -> seq<Timer>, p: Pass, r: Pass, q: Pass)
    requires From(was, react, p) && p.it < |p.timers| && r.fired == q.fired == p.fired + [p.timers[p.it]]
    requires forall y :: y in r.timers ==> y in p.timers
    requires forall y :: y in q.timers ==> y in r.timers || y in react(|p.fired|)
    ensures From(was, react, q)
  {
    forall x | x in q.timers || x in q.fired
      ensures x in was || AddedBy(react, |q.fired|, x)
    {
      if x in p.timers || x in p.fired {
        assert x in was || AddedBy(react, |p.fired|, x);
      }
    }
  }

  lemma FireKept(react: nat -> seq<Timer>, p: Pass, r: Pass, q: Pass)
    requires Kept(react, p) && p.it < |p.timers| && r.fired == q.fired == p.fired + [p.timers[p.it]]
    requires forall y :: y in p.timers ==> y in r.timers || y == p.timers[p.it]
    requires forall y :: y in r.timers ==> y in q.timers
    requires forall x :: x in react(|p.fired|) ==> Covered(x.timeout, [], q.timers)
    ensures Kept(react, q)
  {
    forall k: nat, x | k < |q.fired| && x in react(k)
      ensures Covered(x.timeout, q.fired[k + 1..], q.timers)
    {
      if k < |p.fired| {
        assert q.fired[k + 1..] == p.fired[k + 1..] + [p.timers[p.it]];
        CoveredGrows(x.timeout, p.fired[k + 1..], p.timers, q.fired[k + 1..], q.timers);
      } else {
        CoveredGrows(x.timeout, [], q.timers, q.fired[k + 1..], q.timers);
      }
    }
  }

  lemma {:induction false} RoundsHold(s: seq<Timer>, now: int, react: nat -> seq<Timer>, n: nat)
    requires Sorted(s) && NotOverdue(react, now)
    ensures var p := Rounds(s, now, react, n);
      && Midway(s, now, p.fired, p.timers, p.it) && From(s, react, p) && Kept(react, p)
      && |p.fired| <= Due(s, now) + 1 && (|p.fired| == n || !Goes(p, now))
  {
    hide Midway, Due, Fire, Goes;
    if n == 0 {
      PassStarts(s, now);
    } else {
      RoundsHold(s, now, react, n - 1);
      var p := Rounds(s, now, react, n - 1);
      if Goes(p, now) {
        assert |p.fired| == n - 1;
        FireHolds(s, now, react, p);
      }
    }
  }

  lemma PassStops(s: seq<Timer>, now: int, react: nat -> seq<Timer>)
    requires Sorted(s) && NotOverdue(react, now)
    ensures var p := PassOver(s, now, react);
      && Midway(s, now, p.fired, p.timers, p.it) && From(s, react, p) && Kept(react, p)
      && |p.fired| <= Due(s, now) + 1 && !Goes(p, now)
  {
    RoundsHold(s, now, react, Due(s, now) + 1);
    hide Due, Rounds, Midway, Kept, From, NotOverdue, Sorted;
    var p := PassOver(s, now, react);
    if Goes(p, now) {
      PassFires(s, now, p.fired, p.timers, p.it);
    }
  }

  /** What a pass does. It fires all timers that were due at entry, in strictly
      increasing order of deadline, none early, and at most one more; none that is
      overdue stays; nothing comes from nowhere; and what a handler adds fires after
      it or stays, unless another timer with its deadline does. */
  lemma PassMeans(s: seq<Timer>, now: int, react: nat -> seq<Timer>)
    requires Sorted(s) && NotOverdue(react, now)
    ensures var p := PassOver(s, now, react);
      && Sorted(p.timers) && Sorted(p.fired) && !Goes(p, now)
      && FiredSoFar(s, now, p.fired) && Due(s, now) <= |p.fired| <= Due(s, now) + 1
      && (forall x :: x in p.fired ==> x.timeout <= now) && (forall x :: x in p.timers ==> x.timeout >= now)
      && (forall x :: x in s ==> if x.timeout <= now then x in p.fired else x in p.timers)
      && From(s, react, p) && Kept(react, p)
  {
    PassStops(s, now, react);
    hide Due, PassOver, Slot, Taken, Sorted, FiredSoFar, Midway, Kept, From, NotOverdue;
    var p := PassOver(s, now, react);
    PassEnds(s, now, p.fired, p.timers, p.it);
    AllDueFired(s, now, p.fired);
    FiredInOrder(s, now, p.fired);
  }

  // ---------- adding several timers ----------

  function InsertAll(s: seq<Timer>, xs: seq<Timer>): seq<Timer> {
    if xs == [] then s else Insert(InsertAll(s, xs[..|xs| - 1]), xs[|xs| - 1])
  }

  lemma {:induction false} InsertAllSorted(s: seq<Timer>, xs: seq<Timer>)
    requires Sorted(s)
    ensures Sorted(InsertAll(s, xs))
    ensures forall y :: y in s ==> y in InsertAll(s, xs)
    ensures forall y :: y in InsertAll(s, xs) ==> y in s || y in xs
    decreases |xs|
  {
    if xs != [] {
      var front := xs[..|xs| - 1];
      InsertAllSorted(s, front);
      InsertSorted(InsertAll(s, front), xs[|xs| - 1]);
    }
  }

  lemma {:induction false} InsertAllCovers(s: seq<Timer>, xs: seq<Timer>)
    requires Sorted(s)
    ensures forall x :: x in xs ==> Covered(x.timeout, [], InsertAll(s, xs))
    decreases |xs|
  {
    hide Insert, Sorted, Covered;
    if xs != [] {
      var front, last := xs[..|xs| - 1], xs[|xs| - 1];
      assert xs == front + [last];
      InsertAllSorted(s, front);
      InsertAllCovers(s, front);
      CoveredAdds(InsertAll(s, front), last);
      InsertSorted(InsertAll(s, front), last);
      forall x | x in front
        ensures Covered(x.timeout, [], InsertAll(s, xs))
      {
        CoveredGrows(x.timeout, [], InsertAll(s, front), [], InsertAll(s, xs));
      }
    }
  }

  /** Exactly which timers are there after several were added: those that were, and
      of those added the first of each deadline that nobody had. */
  lemma {:induction false} InsertAllExactly(s: seq<Timer>, xs: seq<Timer>, y: Timer)
    requires Sorted(s)
    ensures y in InsertAll(s, xs) <==> y in s || exists i :: FirstOf(s, xs, i, y)
    decreases |xs|
  {
    hide Insert, Sorted;
    if xs != [] {
      var front, last := xs[..|xs| - 1], xs[|xs| - 1];
      var f := InsertAll(s, front);
      assert xs == front + [last];
      InsertAllExactly(s, front, y);
      InsertAllSorted(s, front);
      InsertAllCovers(s, front);
      InsertedExactly(f, last, y);
      if i :| FirstOf(s, front, i, y) {
        assert FirstOf(s, xs, i, y);
      }
      if y == last && (forall z :: z in f ==> z.timeout != y.timeout) {
        assert forall j :: 0 <= j < |front| ==> Covered(front[j].timeout, [], f);
        assert FirstOf(s, xs, |front|, y);
      }
      forall i | FirstOf(s, xs, i, y)
        ensures y in InsertAll(s, xs)
      {
        if i < |front| {
          assert FirstOf(s, front, i, y);
        } else {
          forall z | z in f
            ensures z.timeout != y.timeout
          {
            if z !in s {
              var j :| 0 <= j < |front| && front[j] == z;
              assert xs[j] == z;
            }
          }
        }
      }
    }
  }

  /** The first of the timers added with a deadline that no timer in `s` has. */
  ghost predicate FirstOf(s: seq<Timer>, xs: seq<Timer>, i: int, y: Timer) {
    && 0 <= i < |xs| && xs[i] == y && (forall z :: z in s ==> z.timeout != y.timeout)
    && forall j :: 0 <= j < i ==> xs[j].timeout != y.timeout
  }

  lemma InsertedExactly(s: seq<Timer>, x: Timer, y: Timer)
    requires Sorted(s)
    ensures y in Insert(s, x) <==> y in s || (y == x && forall z :: z in s ==> z.timeout != y.timeout)
  {
    TakenExactly(s, x.timeout);
    Spliced(s, Slot(s, x.timeout), x);
    hide Slot, Taken;
  }

  /** A handler that adds several timers adds them in this sense. */
  lemma {:induction false} AddAllInserts(p: Pass, xs: seq<Timer>)
    ensures AddAll(p, xs).timers == InsertAll(p.timers, xs) && AddAll(p, xs).fired == p.fired
    decreases |xs|
  {
    hide Insert, Moved;
    if xs != [] { AddAllInserts(p, xs[..|xs| - 1]); }
  }

  // ---------- when the extra timer fires ----------

  /** The entry at `end`, behind those due that are still to fire, is due just now. */
  ghost predicate NowAt(s: seq<Timer>, end: nat, now: int) { end < |s| && s[end].timeout == now }

  /** Around the iterator: what comes before it and from `end` on is not overdue, and
      what lies between is due. */
  ghost predicate Parted(s: seq<Timer>, it: nat, end: nat, now: int) {
    && Sorted(s) && it <= end <= |s|
    && (forall i :: 0 <= i < it ==> s[i].timeout >= now) && (forall i :: end <= i < |s| ==> s[i].timeout >= now)
    && (forall i :: it <= i < end ==> s[i].timeout <= now)
  }

  /** An added timer is due next exactly when it is due just now, nothing in the set
      is, and something due is still to fire. */
  lemma NowAtAdds(s: seq<Timer>, it: nat, end: nat, now: int, x: Timer)
    requires Parted(s, it, end, now) && x.timeout >= now
    ensures NowAt(Insert(s, x), Moved(s, x, it) + (end - it), now)
      <==> NowAt(s, end, now) || (it < end && x.timeout == now && s[end - 1].timeout != now)
  {
    if Taken(s, x.timeout) {
      if it < end && x.timeout == now && s[end - 1].timeout != now {
        NowAtTaken(s, it, end, now);
      }
    } else {
      Beyond(s, x.timeout);
      hide Slot, Taken;
      var p, r := Slot(s, x.timeout), Insert(s, x);
      assert forall i :: 0 <= i < |r| ==> r[i] == if i < p then s[i] else if i == p then x else s[i - 1];
    }
  }

  lemma NowAtTaken(s: seq<Timer>, it: nat, end: nat, now: int)
    requires Parted(s, it, end, now) && it < end && s[end - 1].timeout != now && Taken(s, now)
    ensures NowAt(s, end, now)
  {
    hide Slot;
    var j := Slot(s, now);
  }

  /** One of the first `n` handlers, but not that of the last timer due at entry,
      added a timer due just now, and none was there with that deadline. */
  ghost predicate AddedEarly(was: seq<Timer>, now: int, react: nat -> seq<Timer>, n: nat) {
    !Taken(was, now) && exists k: nat, x :: k < n && k + 1 < Due(was, now) && x in react(k) && x.timeout == now
  }

  ghost function EndOf(was: seq<Timer>, now: int, p: Pass): nat { p.it + |Rest(was, now, p.fired)| }

  lemma PartedMidway(was: seq<Timer>, now: int, p: Pass)
    requires Midway(was, now, p.fired, p.timers, p.it)
    ensures var end := EndOf(was, now, p);
      && Parted(p.timers, p.it, end, now)
      && (p.it < end <==> |p.fired| < Due(was, now))
      && (p.it < end ==> (p.timers[end - 1].timeout == now <==> Taken(was, now)))
  {
    DueSplits(was, now);
    hide Slot, Taken, FiredSoFar, OneMore, Due;
    var rest, end := Rest(was, now, p.fired), EndOf(was, now, p);
    forall i | p.it <= i < end
      ensures p.timers[i] == was[|p.fired| + (i - p.it)]
    {
      assert p.timers[i] == p.timers[p.it..end][i - p.it] == rest[i - p.it];
    }
  }

  lemma {:induction false} HandlerNow(was: seq<Timer>, now: int, p: Pass, xs: seq<Timer>)
    requires Midway(was, now, p.fired, p.timers, p.it) && forall x :: x in xs ==> x.timeout >= now
    ensures var q := AddAll(p, xs);
      NowAt(q.timers, EndOf(was, now, q), now)
      <==> NowAt(p.timers, EndOf(was, now, p), now)
           || (|p.fired| < Due(was, now) && !Taken(was, now) && exists x :: x in xs && x.timeout == now)
    decreases |xs|
  {
    hide Slot, Insert, Moved, Sorted, FiredSoFar, Due, Rest, OneMore, Taken, NowAt, Parted, Midway;
    if xs != [] {
      var front, x := xs[..|xs| - 1], xs[|xs| - 1];
      assert xs == front + [x];
      HandlerAdds(was, now, p, front);
      HandlerNow(was, now, p, front);
      var q := AddAll(p, front);
      PartedMidway(was, now, q);
      NowAtAdds(q.timers, q.it, EndOf(was, now, q), now, x);
    }
  }

  lemma FireNow(was: seq<Timer>, now: int, react: nat -> seq<Timer>, p: Pass)
    requires Midway(was, now, p.fired, p.timers, p.it) && Goes(p, now) && NotOverdue(react, now)
    requires |p.fired| < Due(was, now) && EndOf(was, now, p) <= |p.timers|
    requires NowAt(p.timers, EndOf(was, now, p), now) <==> AddedEarly(was, now, react, |p.fired|)
    ensures var q := Fire(p, react);
      NowAt(q.timers, EndOf(was, now, q), now) <==> AddedEarly(was, now, react, |p.fired| + 1)
  {
    var r := Pass(p.timers[..p.it] + p.timers[p.it + 1..], p.it, p.fired + [p.timers[p.it]]);
    PassFires(was, now, p.fired, p.timers, p.it);
    RemovalNow(was, now, p);
    EarlyNext(was, now, react, |p.fired|);
    FireIs(p, react);
    HandlerNow(was, now, r, react(|p.fired|));
    hide *;
  }

  lemma FireIs(p: Pass, react: nat -> seq<Timer>)
    requires p.it < |p.timers|
    ensures var r := Pass(p.timers[..p.it] + p.timers[p.it + 1..], p.it, p.fired + [p.timers[p.it]]);
      Fire(p, react) == AddAll(r, react(|p.fired|)) && |r.fired| == |p.fired| + 1
  {
  }

  lemma EarlyNext(was: seq<Timer>, now: int, react: nat -> seq<Timer>, n: nat)
    ensures AddedEarly(was, now, react, n + 1)
      <==> AddedEarly(was, now, react, n)
           || (n + 1 < Due(was, now) && !Taken(was, now) && exists x :: x in react(n) && x.timeout == now)
  {
    hide Due, Taken;
  }

  lemma RemovalNow(was: seq<Timer>, now: int, p: Pass)
    requires |p.fired| < Due(was, now) && p.it < |p.timers| && EndOf(was, now, p) <= |p.timers|
    ensures var r := Pass(p.timers[..p.it] + p.timers[p.it + 1..], p.it, p.fired + [p.timers[p.it]]);
      NowAt(r.timers, EndOf(was, now, r), now) <==> NowAt(p.timers, EndOf(was, now, p), now)
  {
    RestShrinks(was, now, p.fired, p.timers[p.it]);
    Shifted(p.timers, p.it);
    hide Due, Rest;
  }

  lemma RestShrinks(was: seq<Timer>, now: int, fired: seq<Timer>, x: Timer)
    requires |fired| < Due(was, now)
    ensures |Rest(was, now, fired + [x])| == |Rest(was, now, fired)| - 1 >= 0
  {
    hide Due;
  }

  /** As long as no extra timer fired, one is next exactly when it was added early. */
  lemma {:induction false} RoundsNow(s: seq<Timer>, now: int, react: nat -> seq<Timer>, n: nat)
    requires Sorted(s) && NotOverdue(react, now) && n <= Due(s, now)
    ensures var p := Rounds(s, now, react, n);
      |p.fired| == n && (NowAt(p.timers, EndOf(s, now, p), now) <==> AddedEarly(s, now, react, n))
  {
    hide Rounds;
    if n == 0 {
      RoundsStart(s, now, react);
      StartNow(s, now, react);
    } else {
      RoundsHold(s, now, react, n - 1);
      RoundsNow(s, now, react, n - 1);
      var p := Rounds(s, now, react, n - 1);
      StillGoes(s, now, p);
      hide Slot, Taken, Midway, Due, Rest, NowAt, Goes, AddedEarly, EndOf, Sorted;
      RoundsFire(s, now, react, n - 1);
      FireNow(s, now, react, p);
      FireHolds(s, now, react, p);
      hide Fire, AddAll;
    }
  }

  lemma StartNow(s: seq<Timer>, now: int, react: nat -> seq<Timer>)
    requires Sorted(s)
    ensures !NowAt(s, EndOf(s, now, Pass(s, 0, [])), now) && !AddedEarly(s, now, react, 0)
  {
    DueSplits(s, now);
    hide Slot, Taken;
  }

  /** While a timer due at entry is left, the one at the iterator is due. */
  lemma StillGoes(was: seq<Timer>, now: int, p: Pass)
    requires Midway(was, now, p.fired, p.timers, p.it) && |p.fired| < Due(was, now)
    ensures Goes(p, now) && EndOf(was, now, p) <= |p.timers|
  {
    PartedMidway(was, now, p);
    hide Slot, Taken, Midway, Due, Rest;
  }

  /** Exactly when one timer more than were due at entry fires: a handler added one
      due just now while another due timer was still to fire, and none was there with
      that deadline. One added by the last handler waits for the next pass. */
  lemma ExtraExactly(s: seq<Timer>, now: int, react: nat -> seq<Timer>)
    requires Sorted(s) && NotOverdue(react, now)
    ensures |PassOver(s, now, react).fired| == Due(s, now) + 1 <==> AddedEarly(s, now, react, Due(s, now))
  {
    var due := Due(s, now);
    RoundsNow(s, now, react, due);
    RoundsHold(s, now, react, due);
    RoundsHold(s, now, react, due + 1);
    var p := Rounds(s, now, react, due);
    PartedMidway(s, now, p);
    assert Goes(p, now) <==> NowAt(p.timers, EndOf(s, now, p), now);
    if Goes(p, now) {
      FireHolds(s, now, react, p);
    }
    hide Slot, Taken, Midway, Due, Fire, Rest, NowAt, AddedEarly;
  }

  /** The loop may stop as soon as the timer at the iterator is not due. */
  lemma {:induction false} Stays(s: seq<Timer>, now: int, react: nat -> seq<Timer>, n: nat, m: nat)
    requires n <= m && !Goes(Rounds(s, now, react, n), now)
    ensures Rounds(s, now, react, m) == Rounds(s, now, react, n)
    decreases m
  {
    hide Goes, Fire;
    if n < m { Stays(s, now, react, n, m - 1); }
  }

  class TimerEventManager {
    var timerSet: seq<Timer>

    ghost predicate Valid()
      reads this
    {
      Sorted(timerSet)
    }

    constructor ()
      ensures Valid() && timerSet == []
    {
      timerSet := [];
    }

    method Add(x: Timer)
      requires Valid()
      modifies this
      ensures Valid() && timerSet == Insert(old(timerSet), x)
    {
      InsertSorted(timerSet, x);
      timerSet := Insert(timerSet, x);
    }

    /** The time until the first deadline, which may have passed. */
    method NextTriggerTime(now: int) returns (t: int)
      requires Valid()
      ensures timerSet == [] ==> t == 1000000
      ensures timerSet != [] ==> timerSet[0].timeout == now + t && forall x :: x in timerSet ==> x.timeout >= now + t
    {
      if timerSet == [] {
        return 1000000;
      }
      t := timerSet[0].timeout - now;
    }

    /** `process`: `react(k)` are the timers the handler of the k-th firing adds,
        none of them overdue. What the pass does is the subject of `PassMeans`. */
    method Process(now: int, react: nat -> seq<Timer>) returns (fired: seq<Timer>)
      requires Valid() && NotOverdue(react, now)
      modifies this
      ensures Valid() && timerSet == PassOver(old(timerSet), now, react).timers
      ensures fired == PassOver(old(timerSet), now, react).fired
    {
      hide Due, Midway, Rounds, Fire, Sorted, Kept, From;
      ghost var was := timerSet;
      var it: nat := 0;
      fired := [];
      RoundsStart(was, now, react);
      while it < |timerSet|
        invariant Pass(timerSet, it, fired) == Rounds(was, now, react, |fired|) && Valid()
        invariant |fired| <= Due(was, now) + 1
        decreases Due(was, now) + 1 - |fired|
      {
        if timerSet[it].timeout > now {
          break;
        }
        RoundsHold(was, now, react, |fired|);
        RoundsHold(was, now, react, |fired| + 1);
        RoundsFire(was, now, react, |fired|);
        it, fired := FireNext(it, fired, react);
      }
      Stays(was, now, react, |fired|, Due(was, now) + 1);
      RoundsHold(was, now, react, Due(was, now) + 1);
      PassMeans(was, now, react);
    }

    /** The timer at the iterator fires: it is erased, and its handler adds timers. */
    method FireNext(it: nat, fired: seq<Timer>, react: nat -> seq<Timer>) returns (it': nat, fired': seq<Timer>)
      requires Valid() && it < |timerSet|
      modifies this
      ensures Valid() && Pass(timerSet, it', fired') == Fire(Pass(old(timerSet), it, fired), react)
      ensures |fired'| == |fired| + 1
    {
      hide Slot, Insert, Moved;
      fired' := fired + [timerSet[it]];
      var added := react(|fired|);
      timerSet := timerSet[..it] + timerSet[it + 1..];
      assert forall i :: 0 <= i < |timerSet| ==> timerSet[i] == old(timerSet)[if i < it then i else i + 1];
      it' := it;
      ghost var rest := Pass(timerSet, it, fired');
      for i := 0 to |added|
        invariant Valid() && Pass(timerSet, it', fired') == AddAll(rest, added[..i])
      {
        assert added[..i + 1][..i] == added[..i];
        it' := Moved(timerSet, added[i], it');
        Add(added[i]);
      }
      assert added[..|added|] == added;
    }
  }

  lemma RoundsStart(s: seq<Timer>, now: int, react: nat -> seq<Timer>)
    ensures Rounds(s, now, react, 0) == Pass(s, 0, [])
  {
  }

  lemma RoundsFire(s: seq<Timer>, now: int, react: nat -> seq<Timer>, n: nat)
    requires Goes(Rounds(s, now, react, n), now)
    ensures Rounds(s, now, react, n + 1) == Fire(Rounds(s, now, react, n), react)
  {
    hide Fire, Goes;
  }

  // ---------- repeating timers ----------

  /** `RepeatTimerEventWatcher::handle` puts itself back under the deadline that
      has passed and only then changes it, in place. */
  function Requeued(s: seq<Timer>, x: Timer, next: int): seq<Timer> {
    if Taken(s, x.timeout) then s else Insert(s, x)[Slot(s, x.timeout) := Timer(x.id, next)]
  }

  /** If a handler has meanwhile taken the old deadline the repeating timer is lost.
      Otherwise the set keeps its order exactly when the new deadline lies between
      those of the entries around the old one. */
  lemma RequeueKeepsOrderExactly(s: seq<Timer>, x: Timer, next: int)
    requires Sorted(s)
    ensures var p := Slot(s, x.timeout);
      Sorted(Requeued(s, x, next)) <==>
        Taken(s, x.timeout) || ((p == 0 || s[p - 1].timeout < next) && (p == |s| || next < s[p].timeout))
    ensures Taken(s, x.timeout) ==> Requeued(s, x, next) == s
    ensures !Taken(s, x.timeout) ==>
      forall y :: y in Requeued(s, x, next) <==> y in s || y == Timer(x.id, next)
  {
    if !Taken(s, x.timeout) {
      RequeuedIs(s, x, next);
      hide Taken, Sorted, Requeued;
      SplicedAt(s, Slot(s, x.timeout), Timer(x.id, next));
      hide Slot;
    }
  }

  lemma RequeuedIs(s: seq<Timer>, x: Timer, next: int)
    requires !Taken(s, x.timeout)
    ensures var p := Slot(s, x.timeout); Requeued(s, x, next) == s[..p] + [Timer(x.id, next)] + s[p..]
  {
    hide Slot, Taken;
  }

  /** A timer that repeats after 5 is put back before one that is due at 3. */
  lemma RequeueExample()
    ensures Sorted([Timer(1, 3)]) && !Sorted(Requeued([Timer(1, 3)], Timer(0, 1), 6))
  {
    RequeueKeepsOrderExactly([Timer(1, 3)], Timer(0, 1), 6);
  }

  lemma SplicedAt(s: seq<Timer>, p: nat, y: Timer)
    requires Sorted(s) && p <= |s|
    ensures Sorted(s[..p] + [y] + s[p..])
      <==> (p == 0 || s[p - 1].timeout < y.timeout) && (p == |s| || y.timeout < s[p].timeout)
    ensures forall z :: z in s[..p] + [y] + s[p..] <==> z in s || z == y
  {
    SplicedExactly(s[..p], y, s[p..]);
    Spliced(s, p, y);
  }

  lemma SplicedExactly(a: seq<Timer>, y: Timer, b: seq<Timer>)
    requires Sorted(a) && Sorted(b)
    ensures Sorted(a + [y] + b)
      <==> (a == [] || a[|a| - 1].timeout < y.timeout) && (b == [] || y.timeout < b[0].timeout)
  {
    var r := a + [y] + b;
    if (a == [] || a[|a| - 1].timeout < y.timeout) && (b == [] || y.timeout < b[0].timeout) {
      SortedJoin(a, y, b);
    } else if a != [] && a[|a| - 1].timeout >= y.timeout {
      assert r[|a| - 1] == a[|a| - 1] && r[|a|] == y;
    } else {
      assert r[|a|] == y && r[|a| + 1] == b[0];
    }
  }
}
