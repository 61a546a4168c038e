/** Turns of the event loop in virtual time, which advances only inside the I/O
    wait: how long the loop may block, what fires, and how late. */
module EventLoop {
  import opened Timers

  // Microseconds.
  const MILLISECOND: int := 1000
  const MAX_BLOCK: int := 10000000

  /** A call of `runAfter` with a delay that is not negative. */
  datatype Request = Request(id: nat, delay: nat)

  function Asked(r: Request, now: int): Timer { Timer(r.id, now + r.delay) }

  function Requested(reqs: seq<Request>, now: int): (ts: seq<Timer>)
    ensures |ts| == |reqs| && forall x :: x in ts ==> x.timeout >= now
  {
    seq(|reqs|, i requires 0 <= i < |reqs| => Asked(reqs[i], now))
  }

  /** The timers each handler adds, when handlers run at time `now`. */
  function Reaction(onFire: nat -> seq<Request>, now: int): (react: nat -> seq<Timer>)
    ensures forall k: nat :: react(k) == Requested(onFire(k), now)
    ensures NotOverdue(react, now)
  {
    var react := (k: nat) => Requested(onFire(k), now);
    assert forall k: nat :: react(k) == Requested(onFire(k), now);
    react
  }

  // ---------- a turn as a function ----------

  /** Everything the outside does during one turn: how much of the wait passes,
      what the I/O callbacks and the timer handlers ask for, and what the queued
      tasks ask for when so many of them run. */
  datatype Turn = Turn(
    wait: nat -> nat,
    ioTimers: seq<Request>, ioTasks: nat,
    onFire: nat -> seq<Request>, fireTasks: nat,
    cycleTimers: nat -> seq<Request>, cycleTasks: nat -> nat)
  {
    ghost predicate Ok() {
      (forall b: nat :: wait(b) <= b) && cycleTimers(0) == [] && cycleTasks(0) == 0
    }

    /** How many tasks run in a turn that starts with `tasks` of them waiting. */
    function Load(tasks: nat): nat { tasks + ioTasks + fireTasks }
  }

  /** The loop between two turns. */
  datatype Loop = Loop(clock: int, tasks: nat, timers: seq<Timer>) {
    /** No timer is overdue. */
    ghost predicate Ok() { Sorted(timers) && forall x :: x in timers ==> x.timeout >= clock }
  }

  /** How long the loop may wait. */
  function Block(s: Loop): nat {
    if s.tasks != 0 then 0
    else if s.timers == [] then MAX_BLOCK
    else
      var next := s.timers[0].timeout - s.clock;
      if next < MILLISECOND then MILLISECOND else if MAX_BLOCK < next then MAX_BLOCK else next
  }

  /** When the wait of a turn ends, and the timers there are once the callbacks have run. */
  function End(s: Loop, turn: Turn): int { s.clock + turn.wait(Block(s)) }

  function Offered(s: Loop, turn: Turn): seq<Timer> {
    InsertAll(s.timers, Requested(turn.ioTimers, s.clock))
  }

  /** The pass over the timers, and the whole turn. */
  function PassIn(s: Loop, turn: Turn): Pass {
    PassOver(Offered(s, turn), End(s, turn), Reaction(turn.onFire, End(s, turn)))
  }

  function AfterTurn(s: Loop, turn: Turn): Loop {
    var load := turn.Load(s.tasks);
    Loop(End(s, turn), turn.cycleTasks(load),
         InsertAll(PassIn(s, turn).timers, Requested(turn.cycleTimers(load), End(s, turn))))
  }

  /** An I/O callback asked for the timer, and the wait before the callback was
      longer than the delay and a millisecond. */
  ghost predicate AskedLate(s: Loop, turn: Turn, x: Timer) {
    exists r :: r in turn.ioTimers && x == Asked(r, s.clock) && r.delay + MILLISECOND < End(s, turn) - s.clock
  }

  /** Someone asked for the timer in this turn: an I/O callback, the handler of a
      timer that fired, or a queued task. */
  ghost predicate AskedIn(s: Loop, turn: Turn, x: Timer) {
    || x in Requested(turn.ioTimers, s.clock)
    || AddedBy(Reaction(turn.onFire, End(s, turn)), |PassIn(s, turn).fired|, x)
    || x in Requested(turn.cycleTimers(turn.Load(s.tasks)), End(s, turn))
  }

  /** The wait: zero exactly when tasks are waiting, otherwise between one
      millisecond and ten seconds, and beyond no deadline by more than one. */
  lemma BlockMeans(s: Loop)
    requires s.Ok()
    ensures Block(s) == 0 <==> s.tasks > 0
    ensures s.tasks == 0 ==> MILLISECOND <= Block(s) <= MAX_BLOCK
    ensures s.tasks == 0 && s.timers == [] ==> Block(s) == MAX_BLOCK
    ensures forall x :: x in s.timers ==> s.clock + Block(s) <= x.timeout || Block(s) <= MILLISECOND
  {
  }

  /** It is the longest wait allowed: any wait within the limits that passes no
      deadline is at most as long. */
  lemma BlockLongest(s: Loop, d: int)
    requires s.Ok() && s.tasks == 0 && MILLISECOND <= d <= MAX_BLOCK
    requires forall x :: x in s.timers ==> s.clock + d <= x.timeout
    ensures d <= Block(s)
  {
  }

  /** What the time and the tasks come to in a turn: the clock advances by what
      passes of the wait; the tasks there were and those queued by callbacks and
      timer handlers all run, and those queued meanwhile are left. */
  lemma TurnAccounts(s: Loop, turn: Turn)
    ensures AfterTurn(s, turn).clock == s.clock + turn.wait(Block(s))
    ensures AfterTurn(s, turn).tasks == turn.cycleTasks(s.tasks + turn.ioTasks + turn.fireTasks)
  {
  }

  /** Who asked for what: callbacks count the delay from the time before the wait,
      timer handlers and tasks from the time after it. */
  lemma AskedInMeans(s: Loop, turn: Turn, x: Timer)
    ensures var fired, end := PassIn(s, turn).fired, AfterTurn(s, turn).clock;
      AskedIn(s, turn, x) <==>
        || (exists r :: r in turn.ioTimers && x == Timer(r.id, s.clock + r.delay))
        || (exists k: nat, r :: k < |fired| && r in turn.onFire(k) && x == Timer(r.id, end + r.delay))
        || (exists r ::
              r in turn.cycleTimers(s.tasks + turn.ioTasks + turn.fireTasks) && x == Timer(r.id, end + r.delay))
  {
    var end, load := End(s, turn), s.tasks + turn.ioTasks + turn.fireTasks;
    RequestedMeans(turn.ioTimers, s.clock);
    RequestedMeans(turn.cycleTimers(load), end);
    AddedByMeans(turn.onFire, end, |PassIn(s, turn).fired|, x);
    hide PassIn, Requested, AddedBy, Reaction, End;
  }

  lemma AddedByMeans(onFire: nat -> seq<Request>, now: int, n: nat, x: Timer)
    ensures AddedBy(Reaction(onFire, now), n, x)
      <==> exists k: nat, r :: k < n && r in onFire(k) && x == Timer(r.id, now + r.delay)
  {
    var react := Reaction(onFire, now);
    hide Reaction, Requested;
    if k: nat :| k < n && x in react(k) {
      RequestedMeans(onFire(k), now);
    }
    if k: nat, r :| k < n && r in onFire(k) && x == Timer(r.id, now + r.delay) {
      RequestedMeans(onFire(k), now);
      assert x in react(k);
    }
  }

  lemma RequestedMeans(reqs: seq<Request>, now: int)
    ensures forall x :: x in Requested(reqs, now) <==> exists r :: r in reqs && x == Asked(r, now)
  {
    RequestedFrom(reqs, now);
    forall r | r in reqs
      ensures Asked(r, now) in Requested(reqs, now)
    {
      var i :| 0 <= i < |reqs| && reqs[i] == r;
      assert Requested(reqs, now)[i] == Asked(r, now);
    }
  }

  /** A turn fires exactly the timers offered whose deadline its wait has reached,
      and at most one more; what fires or stays was there or was asked for. */
  lemma TurnMeans(s: Loop, turn: Turn)
    requires s.Ok() && turn.Ok()
    ensures var p, s' := PassIn(s, turn), AfterTurn(s, turn);
      && s'.Ok() && s.clock <= s'.clock == End(s, turn)
      && FiredSoFar(Offered(s, turn), s'.clock, p.fired) && Sorted(p.fired)
      && (forall x :: x in p.fired ==> x.timeout <= s'.clock)
      && (forall x :: x in Offered(s, turn) ==> if x.timeout <= s'.clock then x in p.fired else x in s'.timers)
      && (forall x :: x in s.timers ==> x in p.fired || x in s'.timers)
      && (forall x :: x in p.fired || x in s'.timers ==> x in s.timers || AskedIn(s, turn, x))
      && (forall x :: AskedIn(s, turn, x) ==> Covered(x.timeout, p.fired, s'.timers))
  {
    var p, s', end := PassIn(s, turn), AfterTurn(s, turn), End(s, turn);
    var io, asked := Requested(turn.ioTimers, s.clock), Requested(turn.cycleTimers(turn.Load(s.tasks)), end);
    var react := Reaction(turn.onFire, end);
    InsertAllSorted(s.timers, io);
    PassMeans(Offered(s, turn), end, react);
    InsertAllSorted(p.timers, asked);
    InsertAllCovers(s.timers, io);
    InsertAllCovers(p.timers, asked);
    hide PassOver, InsertAll, Requested, Covered, FiredSoFar, Due, Sorted;
    forall x | AskedIn(s, turn, x)
      ensures Covered(x.timeout, p.fired, s'.timers)
    {
      if x in io {
        CoveredGrows(x.timeout, [], Offered(s, turn), p.fired, s'.timers);
      } else if x in asked {
        CoveredGrows(x.timeout, [], s'.timers, p.fired, s'.timers);
      } else {
        var k: nat :| k < |p.fired| && x in react(k);
        CoveredGrows(x.timeout, p.fired[k + 1..], p.timers, p.fired, s'.timers);
      }
    }
  }

  lemma TurnOk(s: Loop, turn: Turn)
    requires s.Ok() && turn.Ok()
    ensures AfterTurn(s, turn).Ok()
  {
    TurnMeans(s, turn);
  }

  /** Lateness, exactly. A firing is more than a millisecond late if and only if an
      I/O callback of this very turn asked for it after a wait longer than its delay
      and a millisecond; and of the timers the callbacks asked for those that are
      kept fire late under just that condition. */
  lemma LateExactly(s: Loop, turn: Turn)
    requires s.Ok() && turn.Ok()
    ensures var fired, end := PassIn(s, turn).fired, End(s, turn);
      && (forall x :: x in fired ==> (end - x.timeout > MILLISECOND <==> AskedLate(s, turn, x)))
      && forall r :: r in turn.ioTimers && Asked(r, s.clock) in Offered(s, turn) ==>
           (Asked(r, s.clock) in fired && end - Asked(r, s.clock).timeout > MILLISECOND
            <==> r.delay + MILLISECOND < end - s.clock)
  {
    BlockMeans(s);
    PassInMeans(s, turn);
    RequestedFrom(turn.ioTimers, s.clock);
    hide PassIn, Offered, Requested, Block, Loop.Ok;
  }

  /** What fires was there, was asked for by a callback, or is not late at all. */
  lemma PassInMeans(s: Loop, turn: Turn)
    requires s.Ok() && turn.Ok()
    ensures var fired, end := PassIn(s, turn).fired, End(s, turn);
      && (forall x :: x in fired ==> x in s.timers || x in Requested(turn.ioTimers, s.clock) || x.timeout >= end)
      && (forall x :: x in Offered(s, turn) ==> (x in fired <==> x.timeout <= end))
      && (forall x :: x in s.timers ==> x.timeout >= s.clock)
  {
    var end := End(s, turn);
    InsertAllSorted(s.timers, Requested(turn.ioTimers, s.clock));
    PassMeans(Offered(s, turn), end, Reaction(turn.onFire, end));
    hide PassOver, InsertAll, FiredSoFar, Due, Sorted, Block, Requested, End;
  }

  lemma RequestedFrom(reqs: seq<Request>, now: int)
    ensures forall x :: x in Requested(reqs, now) ==> exists r :: r in reqs && x == Asked(r, now)
  {
    forall x | x in Requested(reqs, now)
      ensures exists r :: r in reqs && x == Asked(r, now)
    {
      var i :| 0 <= i < |Requested(reqs, now)| && Requested(reqs, now)[i] == x;
      assert reqs[i] in reqs;
    }
  }

  // ---------- runs ----------

  /** The loop after `n` turns. */
  function After(s: Loop, turns: seq<Turn>, n: nat): Loop
    requires n <= |turns|
  {
    if n == 0 then s else AfterTurn(After(s, turns, n - 1), turns[n - 1])
  }

  /** A timer, when it fired, and as which firing of which turn. */
  datatype Firing = Firing(timer: Timer, at: int, turn: nat, place: nat)

  function Entries(fired: seq<Timer>, at: int, turn: nat): (es: seq<Firing>)
    ensures |es| == |fired| && forall k :: 0 <= k < |es| ==> es[k] == Firing(fired[k], at, turn, k)
  {
    seq(|fired|, k requires 0 <= k < |fired| => Firing(fired[k], at, turn, k))
  }

  /** All firings of the first `n` turns, in order. */
  function Log(s: Loop, turns: seq<Turn>, n: nat): seq<Firing>
    requires n <= |turns|
  {
    if n == 0 then []
    else
      var l := After(s, turns, n - 1);
      Log(s, turns, n - 1) + Entries(PassIn(l, turns[n - 1]).fired, End(l, turns[n - 1]), n - 1)
  }

  ghost predicate AllOk(turns: seq<Turn>) { forall i :: 0 <= i < |turns| ==> turns[i].Ok() }

  ghost predicate Logged(log: seq<Firing>, x: Timer) { exists e :: e in log && e.timer == x }

  /** A timer with this deadline fired or is in the set. */
  ghost predicate Answered(t: int, log: seq<Firing>, s: seq<Timer>) {
    exists y :: (y in s || Logged(log, y)) && y.timeout == t
  }

  /** The timer was there at the start or someone asked for it in the first `n` turns. */
  ghost predicate Wanted(s: Loop, turns: seq<Turn>, n: nat, x: Timer)
    requires n <= |turns|
  {
    x in s.timers || exists i :: 0 <= i < n && AskedIn(After(s, turns, i), turns[i], x)
  }

  /** The firing is one of its turn, not early, and late exactly when its own turn
      makes it so. */
  ghost predicate Timely(s: Loop, turns: seq<Turn>, n: nat, e: Firing)
    requires n <= |turns|
  {
    && e.turn < n
    && var l, turn := After(s, turns, e.turn), turns[e.turn];
       && e.place < |PassIn(l, turn).fired| && e.timer == PassIn(l, turn).fired[e.place]
       && e.at == End(l, turn) && e.timer.timeout <= e.at
       && (e.at - e.timer.timeout > MILLISECOND <==> AskedLate(l, turn, e.timer))
  }

  lemma {:induction false} RunOk(s: Loop, turns: seq<Turn>, n: nat)
    requires s.Ok() && AllOk(turns) && n <= |turns|
    ensures After(s, turns, n).Ok() && s.clock <= After(s, turns, n).clock
  {
    hide Loop.Ok, AfterTurn, Turn.Ok;
    if n > 0 {
      RunOk(s, turns, n - 1);
      TurnMeans(After(s, turns, n - 1), turns[n - 1]);
    }
  }

  /** No timer fires early, and one is more than a millisecond late exactly under
      the condition of its own turn. */
  lemma {:induction false} RunTimely(s: Loop, turns: seq<Turn>, n: nat)
    requires s.Ok() && AllOk(turns) && n <= |turns|
    ensures forall e :: e in Log(s, turns, n) ==> Timely(s, turns, n, e)
  {
    hide Loop.Ok, AfterTurn, Turn.Ok, PassIn, End, AskedLate, After, Timely, Entries;
    if n > 0 {
      RunTimely(s, turns, n - 1);
      forall e | e in Log(s, turns, n - 1)
        ensures Timely(s, turns, n, e)
      {
        TimelyStays(s, turns, n, e);
      }
      EntriesTimely(s, turns, n);
    }
  }

  lemma TimelyStays(s: Loop, turns: seq<Turn>, n: nat, e: Firing)
    requires 0 < n <= |turns| && Timely(s, turns, n - 1, e)
    ensures Timely(s, turns, n, e)
  {
    hide After, PassIn, End, AskedLate;
  }

  lemma EntriesTimely(s: Loop, turns: seq<Turn>, n: nat)
    requires s.Ok() && AllOk(turns) && 0 < n <= |turns|
    ensures var l, turn := After(s, turns, n - 1), turns[n - 1];
      forall e :: e in Entries(PassIn(l, turn).fired, End(l, turn), n - 1) ==> Timely(s, turns, n, e)
  {
    hide Loop.Ok, AfterTurn, Turn.Ok, PassIn, End, AskedLate, After, Entries;
    RunOk(s, turns, n - 1);
    var l, turn := After(s, turns, n - 1), turns[n - 1];
    TurnMeans(l, turn);
    LateExactly(l, turn);
    var entries := Entries(PassIn(l, turn).fired, End(l, turn), n - 1);
    forall e | e in entries
      ensures Timely(s, turns, n, e)
    {
      var k :| 0 <= k < |entries| && entries[k] == e;
    }
  }

  /** What the time and the tasks come to over a run: each turn adds what passes of its
      own wait, and runs the tasks left by the one before with those queued in it. */
  lemma RunAccounts(s: Loop, turns: seq<Turn>, n: nat)
    requires n < |turns|
    ensures After(s, turns, 0) == s
    ensures var l, l', turn := After(s, turns, n), After(s, turns, n + 1), turns[n];
      && l'.clock == l.clock + turn.wait(Block(l))
      && l'.tasks == turn.cycleTasks(l.tasks + turn.ioTasks + turn.fireTasks)
  {
    hide *;
    AfterNext(s, turns, n);
    TurnAccounts(After(s, turns, n), turns[n]);
  }

  lemma AfterNext(s: Loop, turns: seq<Turn>, n: nat)
    requires n < |turns|
    ensures After(s, turns, 0) == s && After(s, turns, n + 1) == AfterTurn(After(s, turns, n), turns[n])
  {
    hide AfterTurn;
  }

  /** The log is complete and in order: every firing of every turn is in it, turn after
      turn and firing after firing, none twice. */
  lemma {:induction false} LogComplete(s: Loop, turns: seq<Turn>, n: nat)
    requires n <= |turns|
    ensures forall i, k :: 0 <= i < n && 0 <= k < |PassIn(After(s, turns, i), turns[i]).fired| ==>
      EntryAt(After(s, turns, i), turns[i], i, k) in Log(s, turns, n)
    ensures forall e :: e in Log(s, turns, n) ==> e.turn < n
    ensures forall a, b :: 0 <= a < b < |Log(s, turns, n)| ==> Before(Log(s, turns, n)[a], Log(s, turns, n)[b])
  {
    hide PassIn, End, After, Entries;
    if n > 0 {
      LogComplete(s, turns, n - 1);
      var l := After(s, turns, n - 1);
      var was, entries := Log(s, turns, n - 1), Entries(PassIn(l, turns[n - 1]).fired, End(l, turns[n - 1]), n - 1);
      var log := was + entries;
      forall i, k | 0 <= i < n && 0 <= k < |PassIn(After(s, turns, i), turns[i]).fired|
        ensures EntryAt(After(s, turns, i), turns[i], i, k) in log
      {
        if i == n - 1 { assert entries[k] in log; }
      }
      forall a, b | 0 <= a < b < |log|
        ensures Before(log[a], log[b])
      {
        if a < |was| { assert was[a] in was; }
      }
    }
  }

  function EntryAt(s: Loop, turn: Turn, i: nat, k: nat): Firing
    requires k < |PassIn(s, turn).fired|
  {
    Firing(PassIn(s, turn).fired[k], End(s, turn), i, k)
  }

  predicate Before(e: Firing, f: Firing) { e.turn < f.turn || (e.turn == f.turn && e.place < f.place) }

  lemma LoggedNext(log: seq<Firing>, fired: seq<Timer>, at: int, turn: nat)
    ensures forall x :: Logged(log + Entries(fired, at, turn), x) <==> Logged(log, x) || x in fired
  {
    var entries := Entries(fired, at, turn);
    hide Entries;
    forall x | Logged(log + entries, x)
      ensures Logged(log, x) || x in fired
    {
      var e :| e in log + entries && e.timer == x;
      if e in entries {
        var k :| 0 <= k < |entries| && entries[k] == e;
        assert x == fired[k];
      }
    }
    forall x | Logged(log, x) || x in fired
      ensures Logged(log + entries, x)
    {
      if x in fired {
        var k :| 0 <= k < |fired| && fired[k] == x;
        assert entries[k] in log + entries;
      } else {
        var e :| e in log && e.timer == x;
        assert e in log + entries;
      }
    }
  }

  lemma WantedNext(s: Loop, turns: seq<Turn>, n: nat)
    requires 0 < n <= |turns|
    ensures forall x ::
      Wanted(s, turns, n, x) <==> Wanted(s, turns, n - 1, x) || AskedIn(After(s, turns, n - 1), turns[n - 1], x)
  {
    hide AskedIn, After;
  }

  /** Nothing comes from nowhere: what fired or is in the set was there or was
      asked for. */
  lemma {:induction false} RunSources(s: Loop, turns: seq<Turn>, n: nat)
    requires s.Ok() && AllOk(turns) && n <= |turns|
    ensures forall x :: x in After(s, turns, n).timers || Logged(Log(s, turns, n), x) ==> Wanted(s, turns, n, x)
  {
    hide Loop.Ok, AfterTurn, Turn.Ok, PassIn, End, AskedIn, Logged, Entries;
    if n == 0 {
      NothingLogged();
    } else {
      RunSources(s, turns, n - 1);
      RunOk(s, turns, n - 1);
      var l, turn := After(s, turns, n - 1), turns[n - 1];
      TurnMeans(l, turn);
      LoggedNext(Log(s, turns, n - 1), PassIn(l, turn).fired, End(l, turn), n - 1);
      WantedNext(s, turns, n);
    }
  }

  lemma NothingLogged()
    ensures forall x :: !Logged([], x)
  {
  }

  lemma AnsweredMoves(log: seq<Firing>, before: seq<Timer>, log': seq<Firing>, fired: seq<Timer>, s: seq<Timer>)
    requires forall x :: x in before ==> x in fired || x in s
    requires forall x :: Logged(log', x) <==> Logged(log, x) || x in fired
    ensures forall t :: Answered(t, log, before) || Covered(t, fired, s) ==> Answered(t, log', s)
  {
    hide Logged;
    forall t | Answered(t, log, before) || Covered(t, fired, s)
      ensures Answered(t, log', s)
    {
      if y :| (y in s || y in fired) && y.timeout == t {
        assert y in s || Logged(log', y);
      } else {
        var y :| (y in before || Logged(log, y)) && y.timeout == t;
        assert y in s || Logged(log', y);
      }
    }
  }

  /** Nothing is lost: every timer that was there or was asked for has fired or is in
      the set, or another with its deadline has or is. */
  lemma {:induction false} RunAnswers(s: Loop, turns: seq<Turn>, n: nat)
    requires s.Ok() && AllOk(turns) && n <= |turns|
    ensures forall x :: x in s.timers ==> x in After(s, turns, n).timers || Logged(Log(s, turns, n), x)
    ensures forall x :: Wanted(s, turns, n, x) ==> Answered(x.timeout, Log(s, turns, n), After(s, turns, n).timers)
  {
    hide Loop.Ok, AfterTurn, Turn.Ok, PassIn, End, AskedIn, Logged, Entries;
    if n == 0 {
      assert forall x :: Wanted(s, turns, 0, x) ==> x in s.timers;
    } else {
      RunAnswers(s, turns, n - 1);
      RunOk(s, turns, n - 1);
      var l, turn := After(s, turns, n - 1), turns[n - 1];
      TurnMeans(l, turn);
      LoggedNext(Log(s, turns, n - 1), PassIn(l, turn).fired, End(l, turn), n - 1);
      AnsweredMoves(Log(s, turns, n - 1), l.timers, Log(s, turns, n), PassIn(l, turn).fired, After(s, turns, n).timers);
      WantedNext(s, turns, n);
      hide Answered, Covered, Wanted;
    }
  }

  /** A timer whose deadline is its own has itself fired or is itself in the set. */
  lemma OwnDeadline(s: Loop, turns: seq<Turn>, n: nat, x: Timer)
    requires s.Ok() && AllOk(turns) && n <= |turns| && Wanted(s, turns, n, x)
    requires forall y :: Wanted(s, turns, n, y) && y.timeout == x.timeout ==> y == x
    ensures Logged(Log(s, turns, n), x) || x in After(s, turns, n).timers
    ensures x.timeout < After(s, turns, n).clock ==> Logged(Log(s, turns, n), x)
  {
    RunAnswers(s, turns, n);
    RunSources(s, turns, n);
    RunOk(s, turns, n);
    hide Wanted, After, Log, Logged;
    var y :| (y in After(s, turns, n).timers || Logged(Log(s, turns, n), y)) && y.timeout == x.timeout;
    assert y == x;
  }

  // ---------- the loop itself ----------

  class EventLoop {
    var clock: int  // the system clock
    var currentTime: int
    const timers: TimerEventManager
    var tasks: nat

    ghost function State(): Loop
      reads this, timers
    {
      Loop(clock, tasks, timers.timerSet)
    }

    constructor (clock: int)
      ensures State() == Loop(clock, 0, []) && fresh(timers)
    {
      this.clock, currentTime, tasks := clock, clock, 0;
      timers := new TimerEventManager();
    }

    method UpdateTime()
      modifies this`currentTime
      ensures currentTime == clock
    {
      currentTime := clock;
    }

    method RunAfter(reqs: seq<Request>)
      requires timers.Valid()
      modifies timers
      ensures timers.Valid() && timers.timerSet == InsertAll(old(timers.timerSet), Requested(reqs, currentTime))
    {
      hide Insert, Sorted;
      ghost var ts := Requested(reqs, currentTime);
      for i := 0 to |reqs|
        invariant timers.Valid() && timers.timerSet == InsertAll(old(timers.timerSet), ts[..i])
      {
        timers.Add(Timer(reqs[i].id, currentTime + reqs[i].delay));
        assert ts[..i + 1][..i] == ts[..i] && ts[..i + 1][i] == ts[i];
      }
      assert ts[..|reqs|] == ts;
    }

    /** `calculationBlocktime`. Should a timer be overdue, the pass over the timers
        comes first. */
    method CalculationBlocktime(turn: Turn) returns (block: nat)
      requires timers.Valid() && currentTime == clock
      modifies timers, this`tasks, this`currentTime
      ensures timers.Valid() && currentTime == clock
      ensures var s := old(State());
        if s.timers != [] && s.timers[0].timeout < s.clock
        then State() == Loop(s.clock, s.tasks + turn.fireTasks,
                             PassOver(s.timers, s.clock, Reaction(turn.onFire, s.clock)).timers)
        else State() == s
      ensures block == Block(State())
    {
      hide Sorted, PassOver;
      if timers.timerSet == [] && tasks == 0 {
        return MAX_BLOCK;
      }
      var next := timers.NextTriggerTime(currentTime);
      if next < 0 {
        var fired := timers.Process(currentTime, Reaction(turn.onFire, currentTime));
        tasks := tasks + turn.fireTasks;
        UpdateTime();
        next := timers.NextTriggerTime(currentTime);
      }
      if tasks != 0 {
        return 0;
      }
      if timers.timerSet == [] {
        return MAX_BLOCK;
      }
      if next < MILLISECOND {
        next := MILLISECOND;
      }
      block := if MAX_BLOCK < next then MAX_BLOCK else next;
    }

    /** `runOnce`: one turn. What it does is the subject of `TurnMeans` and
        `LateExactly`. */
    method RunOnce(turn: Turn) returns (fired: seq<Timer>)
      requires State().Ok() && turn.Ok()
      modifies this`clock, this`currentTime, this`tasks, timers
      ensures State() == AfterTurn(old(State()), turn) && State().Ok()
      ensures fired == PassIn(old(State()), turn).fired
    {
      hide Insert, InsertAll, Sorted, Requested, PassOver, Block;
      ghost var s := State();
      UpdateTime();
      var block := CalculationBlocktime(turn);
      assert State() == s && block == Block(s);
      BlockMeans(s);
      ProcessIo(turn, block);
      if block > 500 {
        UpdateTime();
      }
      assert currentTime == End(s, turn);
      fired := ProcessTimers(turn);
      ProcessCycle(turn);
      TurnOk(s, turn);
    }

    /** `processIo`: part of the wait passes, and then callbacks run. */
    method ProcessIo(turn: Turn, block: nat)
      requires timers.Valid() && turn.Ok()
      modifies this`clock, this`tasks, timers
      ensures timers.Valid() && clock == old(clock) + turn.wait(block) && tasks == old(tasks) + turn.ioTasks
      ensures timers.timerSet == InsertAll(old(timers.timerSet), Requested(turn.ioTimers, currentTime))
    {
      clock := clock + turn.wait(block);
      tasks := tasks + turn.ioTasks;
      RunAfter(turn.ioTimers);
    }

    /** `processTimerAndTimeout`. */
    method ProcessTimers(turn: Turn) returns (fired: seq<Timer>)
      requires timers.Valid()
      modifies this`tasks, timers
      ensures timers.Valid() && tasks == old(tasks) + turn.fireTasks
      ensures var p := PassOver(old(timers.timerSet), currentTime, Reaction(turn.onFire, currentTime));
        timers.timerSet == p.timers && fired == p.fired
    {
      hide Sorted, PassOver;
      fired := timers.Process(currentTime, Reaction(turn.onFire, currentTime));
      tasks := tasks + turn.fireTasks;
    }

    /** `processIdle` or `processCycle`, as the loop is idle or not. */
    method ProcessCycle(turn: Turn)
      requires timers.Valid() && turn.Ok()
      modifies this`tasks, timers
      ensures timers.Valid() && tasks == turn.cycleTasks(old(tasks))
      ensures timers.timerSet == InsertAll(old(timers.timerSet), Requested(turn.cycleTimers(old(tasks)), currentTime))
    {
      hide Insert, Sorted;
      if !(timers.timerSet == [] && tasks == 0) {
        RunAfter(turn.cycleTimers(tasks));
        tasks := turn.cycleTasks(tasks);
      } else {
        assert Requested([], currentTime) == [];
      }
    }

    /** `run`, for as many turns as the outside provides. What a run does is the
        subject of `RunTimely`, `RunSources`, `RunAnswers` and `OwnDeadline`. */
    method Run(turns: seq<Turn>) returns (log: seq<Firing>)
      requires State().Ok() && AllOk(turns)
      modifies this`clock, this`currentTime, this`tasks, timers
      ensures State() == After(old(State()), turns, |turns|) && State().Ok()
      ensures log == Log(old(State()), turns, |turns|)
    {
      hide AfterTurn, PassIn, Loop.Ok, Turn.Ok;
      log := [];
      for n := 0 to |turns|
        invariant State() == After(old(State()), turns, n) && State().Ok()
        invariant log == Log(old(State()), turns, n)
      {
        var fired := RunOnce(turns[n]);
        EndIsClock(After(old(State()), turns, n), turns[n]);
        log := log + Entries(fired, clock, n);
      }
    }
  }

  lemma EndIsClock(s: Loop, turn: Turn)
    ensures AfterTurn(s, turn).clock == End(s, turn)
  {
  }

  /** A late turn exists: a timer with no delay, added by an I/O callback after an
      idle wait, fires ten seconds after its deadline. */
  method IoTimerFiresLate() returns (clock: int, fired: seq<Timer>)
    ensures Timer(0, 0) in fired && clock == MAX_BLOCK
  {
    var loop := new EventLoop(0);
    var turn := Turn(b => b, [Request(0, 0)], 0, _ => [], 0, _ => [], _ => 0);
    ghost var s, io := Loop(0, 0, []), Requested(turn.ioTimers, 0);
    assert io[0] == Timer(0, 0) && io[..0] == [];
    assert InsertAll([], io) == [Timer(0, 0)];
    TurnMeans(s, turn);
    hide PassIn;
    fired := loop.RunOnce(turn);
    clock := loop.clock;
  }
}
