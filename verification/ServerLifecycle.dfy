/** A server's connections across event loops: accepted on the base loop,
    registered and established on a worker loop, removed on the base loop and
    destroyed on the worker. A loop runs tasks from its queue, which keeps the order
    of each producer only; a task posted to the loop that is running is executed at
    once. */
module ServerLifecycle {
  import opened Options

  const BASE: nat := 0

  /** `Register` puts the channel into the loop's table, `Establish` is
      `connectEstablished`, `Remove` the erase on the base loop, `Destroy` is
      `connectDestroyed`. */
  datatype Task = Register(c: nat) | Establish(c: nat) | Remove(c: nat) | Destroy(c: nat)

  datatype ConnState = Connecting | Connected | Disconnected

  /** How far a connection has come; a history variable. */
  datatype Phase = Accepted | Registered | Established | Closing | Removed | Destroyed | Released {
    function Rank(): nat {
      match this
      case Accepted => 0 case Registered => 1 case Established => 2 case Closing => 3
      case Removed => 4 case Destroyed => 5 case Released => 6
    }

    predicate Closed() { Rank() >= Closing.Rank() }
  }

  datatype Conn = Conn(fd: nat, loop: nat, state: ConnState, phase: Phase, ups: nat, downs: nat)

  datatype Server = Server(
    queues: seq<seq<seq<Task>>>,      // the task queue of each loop, by the loop that posted
    conns: seq<Conn>,
    table: map<(nat, nat), nat>,      // (loop, fd) to the registered connection
    connMap: set<nat>,                // the server's map
    accepting: Option<nat>,           // a connection that `newConnection` has not seen yet
    failed: bool)                     // some assertion did not hold

  // ---------- what the tasks do ----------

  ghost predicate TypeOk(s: Server) {
    && BASE < |s.queues|
    && (forall l :: 0 <= l < |s.queues| ==> |s.queues[l]| == |s.queues|)
    && (forall c :: 0 <= c < |s.conns| ==> s.conns[c].loop < |s.queues|)
    && (forall l, p :: 0 <= l < |s.queues| && 0 <= p < |s.queues| ==> TasksKnown(s.queues[l][p], |s.conns|))
    && (s.accepting.Some? ==> s.accepting.value < |s.conns|)
  }

  ghost predicate TasksKnown(q: seq<Task>, n: nat) { forall i :: 0 <= i < |q| ==> q[i].c < n }

  /** Nobody moves to another loop or descriptor, and a failure stays. */
  ghost predicate Next(s: Server, s': Server) {
    && TypeOk(s') && |s'.queues| == |s.queues| && (s.failed ==> s'.failed) && |s.conns| <= |s'.conns|
    && forall c :: 0 <= c < |s.conns| ==> s'.conns[c].fd == s.conns[c].fd && s'.conns[c].loop == s.conns[c].loop
  }

  function SetConn(s: Server, c: nat, conn: Conn): Server
    requires c < |s.conns|
  {
    s.(conns := s.conns[c := conn])
  }

  function Assert(s: Server, condition: bool): Server {
    s.(failed := s.failed || !condition)
  }

  /** Two states differ in connection `c` at most: in its fields, its map entry, its
      slot and whether its accept is under way. */
  ghost predicate Only(s: Server, s': Server, c: nat) {
    && c < |s.conns| == |s'.conns|
    && s'.conns[c].fd == s.conns[c].fd && s'.conns[c].loop == s.conns[c].loop
    && (forall d :: 0 <= d < |s.conns| && d != c ==> s'.conns[d] == s.conns[d])
    && (forall d :: d != c ==>
          (d in s'.connMap <==> d in s.connMap) && (s'.accepting == Some(d) <==> s.accepting == Some(d)))
    && (forall k :: k != (s.conns[c].loop, s.conns[c].fd) ==>
          (k in s'.table <==> k in s.table) && (k in s.table ==> s'.table[k] == s.table[k]))
  }

  lemma NextOnly(s: Server, s1: Server, s2: Server, c: nat)
    requires Next(s, s1) && Only(s, s1, c) && Next(s1, s2) && Only(s1, s2, c)
    ensures Next(s, s2) && Only(s, s2, c)
  {
    hide TypeOk;
  }

  /** A connection's loop goes on to be one of the loops. */
  lemma NextLoop(s: Server, s1: Server, c: nat)
    requires TypeOk(s) && Next(s, s1) && c < |s.conns|
    ensures TypeOk(s1) && c < |s1.conns| && s1.conns[c].loop == s.conns[c].loop < |s1.queues| && BASE < |s1.queues|
  {
  }

  /** `FdEventManager::add`: the slot must be free. */
  ghost function DoRegister(s: Server, c: nat): (s': Server)
    requires TypeOk(s) && c < |s.conns|
    ensures Next(s, s') && Only(s, s', c) && s'.queues == s.queues && s'.accepting == s.accepting
  {
    var conn := s.conns[c];
    var s' := Assert(s, (conn.loop, conn.fd) !in s.table);
    SetConn(s'.(table := s.table[(conn.loop, conn.fd) := c]), c, conn.(phase := Registered))
  }

  /** `connectEstablished`: the state must be connecting, and changing the
      interest needs a registered channel. */
  ghost function DoEstablish(s: Server, c: nat): (s': Server)
    requires TypeOk(s) && c < |s.conns|
    ensures Next(s, s') && Only(s, s', c) && s'.queues == s.queues && s'.accepting == s.accepting
  {
    var conn := s.conns[c];
    var s' := Assert(s, conn.state == Connecting && Holds(s.table, conn.loop, conn.fd, c));
    SetConn(s', c, conn.(state := Connected, phase := Established, ups := conn.ups + 1))
  }

  predicate Holds(table: map<(nat, nat), nat>, loop: nat, fd: nat, c: nat) {
    (loop, fd) in table && table[(loop, fd)] == c
  }

  /** `removeConnection` on the base loop: the erase must remove one entry. */
  ghost function DoRemove(s: Server, c: nat): (s': Server)
    requires TypeOk(s) && c < |s.conns|
    ensures Next(s, s') && Only(s, s', c) && s'.queues == s.queues && s'.accepting == s.accepting
  {
    var s' := Assert(s, c in s.connMap);
    SetConn(s'.(connMap := s.connMap - {c}), c, s.conns[c].(phase := Removed))
  }

  /** `connectDestroyed`: the callback runs when the state was connected; the
      channel must be registered, and its slot becomes free. */
  ghost function DoDestroy(s: Server, c: nat): (s': Server)
    requires TypeOk(s) && c < |s.conns|
    ensures Next(s, s') && Only(s, s', c) && s'.queues == s.queues && s'.accepting == s.accepting
  {
    var conn := s.conns[c];
    var s' := Assert(s, Holds(s.table, conn.loop, conn.fd, c));
    var down := conn.state == Connected;
    SetConn(s'.(table := s.table - {(conn.loop, conn.fd)}), c,
            conn.(state := if down then Disconnected else conn.state, phase := Destroyed,
                  downs := conn.downs + if down then 1 else 0))
  }

  // ---------- the steps ----------

  datatype Action =
    | Accept(fd: nat, loop: nat)           // a new descriptor, given to a loop
    | NewConnection                        // the second half of an accept
    | RunTask(loop: nat, producer: nat)    // a loop runs the oldest task of one producer
    | Close(c: nat)                        // the connection's close callback, on its loop
    | Release(c: nat)                      // the last reference goes and closes the descriptor

  ghost predicate NoTasks(s: Server, c: nat)
    requires TypeOk(s)
  {
    forall l, p :: 0 <= l < |s.queues| && 0 <= p < |s.queues| ==> Tasks(s.queues[l][p], c) == []
  }

  /** What can happen at all. The system hands out only descriptors that are not
      open; a connection can be closed once it was established, and is released
      after its destruction, when no task refers to it. Each loop is one thread: in
      the middle of an accept the base loop does nothing else. */
  ghost predicate Enabled(s: Server, a: Action)
    requires TypeOk(s)
  {
    match a
    case Accept(fd, loop) =>
      loop < |s.queues| && s.accepting == None
      && forall c :: 0 <= c < |s.conns| && s.conns[c].fd == fd ==> s.conns[c].phase == Released
    case NewConnection => s.accepting.Some?
    case RunTask(loop, producer) =>
      loop < |s.queues| && producer < |s.queues| && s.queues[loop][producer] != []
      && (loop == BASE ==> s.accepting == None)
    case Close(c) =>
      c < |s.conns| && Established.Rank() <= s.conns[c].phase.Rank() < Released.Rank()
      && (s.conns[c].loop == BASE ==> s.accepting == None)
    case Release(c) => c < |s.conns| && s.conns[c].phase == Destroyed && NoTasks(s, c)
  }

  /** The close callback runs only for a connection that has not been closed. */
  ghost predicate FirstClose(s: Server, a: Action) {
    a.Close? ==> a.c < |s.conns| && s.conns[a.c].phase == Established
  }

  ghost function Enqueue(s: Server, loop: nat, producer: nat, t: Task): (s': Server)
    requires TypeOk(s) && loop < |s.queues| && producer < |s.queues| && t.c < |s.conns|
    ensures Next(s, s') && Only(s, s', t.c) && s' == s.(queues := s'.queues)
  {
    assert TasksKnown(s.queues[loop][producer], |s.conns|);
    s.(queues := s.queues[loop := s.queues[loop][producer := s.queues[loop][producer] + [t]]])
  }

  ghost function Dequeue(s: Server, loop: nat, producer: nat): (s': Server)
    requires TypeOk(s) && loop < |s.queues| && producer < |s.queues| && s.queues[loop][producer] != []
    ensures s' == s.(queues := s'.queues) && s.queues[loop][producer][0].c < |s.conns|
    ensures Next(s, s') && Only(s, s', s.queues[loop][producer][0].c)
  {
    assert TasksKnown(s.queues[loop][producer], |s.conns|);
    s.(queues := s.queues[loop := s.queues[loop][producer := s.queues[loop][producer][1..]]])
  }

  /** The new connection, before anything is posted for it. */
  ghost function Arrived(s: Server, fd: nat, loop: nat): (s': Server)
    requires TypeOk(s) && loop < |s.queues|
    ensures Next(s, s')
  {
    s.(conns := s.conns + [Conn(fd, loop, Connecting, Accepted, 0, 0)], accepting := Some(|s.conns|))
  }

  /** `acceptInLoop` up to the call of `newConnection`: registration on the loop chosen. */
  ghost function DoAccept(s: Server, fd: nat, loop: nat): (s': Server)
    requires TypeOk(s) && loop < |s.queues|
    ensures Next(s, s')
  {
    var c := |s.conns|;
    var s1 := Arrived(s, fd, loop);
    if loop == BASE then DoRegister(s1, c) else Enqueue(s1, loop, BASE, Register(c))
  }

  /** `newConnection`: the map entry, and then establishment on the connection's loop. */
  ghost function DoNewConnection(s: Server): (s': Server)
    requires TypeOk(s) && s.accepting.Some?
    ensures Next(s, s') && Only(s, s', s.accepting.value)
  {
    var c := s.accepting.value;
    var s1 := s.(connMap := s.connMap + {c}, accepting := None);
    if s.conns[c].loop == BASE then DoEstablish(s1, c) else Enqueue(s1, s.conns[c].loop, BASE, Establish(c))
  }

  /** The removal, and then `runInLoop` of the destruction on the worker. */
  ghost function RemoveThenDestroy(s: Server, c: nat): (s': Server)
    requires TypeOk(s) && c < |s.conns|
    ensures Next(s, s') && Only(s, s', c)
  {
    hide TypeOk, Next, Only, DoRemove, DoDestroy, Enqueue;
    var s1 := DoRemove(s, c);
    NextLoop(s, s1, c);
    var s' := if s.conns[c].loop == BASE then DoDestroy(s1, c) else Enqueue(s1, s.conns[c].loop, BASE, Destroy(c));
    NextOnly(s, s1, s', c);
    s'
  }

  ghost function DoTask(s: Server, loop: nat, producer: nat): (s': Server)
    requires TypeOk(s) && loop < |s.queues| && producer < |s.queues| && s.queues[loop][producer] != []
    ensures Next(s, s') && Only(s, s', s.queues[loop][producer][0].c)
  {
    hide TypeOk, Next, Only, DoRegister, DoEstablish, RemoveThenDestroy, DoDestroy, Dequeue;
    var s1, t := Dequeue(s, loop, producer), s.queues[loop][producer][0];
    var s' := match t
      case Register(c) => DoRegister(s1, c)
      case Establish(c) => DoEstablish(s1, c)
      case Remove(c) => RemoveThenDestroy(s1, c)
      case Destroy(c) => DoDestroy(s1, c);
    NextOnly(s, s1, s', t.c);
    s'
  }

  /** The close callback: `runInLoop` of the removal on the base loop. */
  ghost function DoClose(s: Server, c: nat): (s': Server)
    requires TypeOk(s) && c < |s.conns|
    ensures Next(s, s') && Only(s, s', c)
  {
    hide TypeOk, Next, Only, MarkClosing, RemoveThenDestroy, Enqueue;
    var s1, w := MarkClosing(s, c), s.conns[c].loop;
    NextLoop(s, s1, c);
    var s' := if w == BASE then RemoveThenDestroy(s1, c) else Enqueue(s1, BASE, w, Remove(c));
    NextOnly(s, s1, s', c);
    s'
  }

  ghost function MarkClosing(s: Server, c: nat): (s': Server)
    requires TypeOk(s) && c < |s.conns|
    ensures Next(s, s') && Only(s, s', c)
  {
    var conn := s.conns[c];
    SetConn(s, c, conn.(phase := if conn.phase == Established then Closing else conn.phase))
  }

  ghost function Do(s: Server, a: Action): (s': Server)
    requires TypeOk(s) && Enabled(s, a)
    ensures Next(s, s')
  {
    hide TypeOk, NoTasks, DoAccept, DoNewConnection, DoTask, DoClose;
    match a
    case Accept(fd, loop) => DoAccept(s, fd, loop)
    case NewConnection => DoNewConnection(s)
    case RunTask(loop, producer) => DoTask(s, loop, producer)
    case Close(c) => DoClose(s, c)
    case Release(c) => DoRelease(s, c)
  }

  ghost function DoRelease(s: Server, c: nat): (s': Server)
    requires TypeOk(s) && c < |s.conns|
    ensures Next(s, s') && Only(s, s', c)
  {
    SetConn(s, c, s.conns[c].(phase := Released))
  }

  // ---------- the invariant ----------

  /** The tasks of connection `c` in a queue, in order. */
  ghost function Tasks(q: seq<Task>, c: nat): seq<Task> {
    if q == [] then [] else (if q[0].c == c then [q[0]] else []) + Tasks(q[1..], c)
  }

  /** The tasks that must be waiting for a connection, on which loop and from whom. */
  ghost function Waiting(conn: Conn, c: nat, accepting: bool, loop: nat, producer: nat): seq<Task> {
    var onLoop := loop == conn.loop && producer == BASE;
    match conn.phase
    case Accepted => if !onLoop then [] else if accepting then [Register(c)] else [Register(c), Establish(c)]
    case Registered => if onLoop && !accepting then [Establish(c)] else []
    case Closing => if loop == BASE && producer == conn.loop then [Remove(c)] else []
    case Removed => if onLoop then [Destroy(c)] else []
    case _ => []
  }

  predicate InTable(p: Phase) { p == Registered || p == Established || p == Closing || p == Removed }

  predicate InMap(p: Phase) { p == Accepted || p == Registered || p == Established || p == Closing }

  ghost predicate TasksOk(s: Server, c: nat)
    requires TypeOk(s) && c < |s.conns|
  {
    forall l, p :: 0 <= l < |s.queues| && 0 <= p < |s.queues| ==>
      Tasks(s.queues[l][p], c) == Waiting(s.conns[c], c, s.accepting == Some(c), l, p)
  }

  /** Everything else about one connection follows from how far it has come, too. */
  ghost predicate ConnOk(s: Server, c: nat)
    requires c < |s.conns|
  {
    var conn, accepting := s.conns[c], s.accepting == Some(c);
    && (accepting ==> conn.phase == Registered || (conn.phase == Accepted && conn.loop != BASE))
    && (conn.loop == BASE && !accepting ==>
          conn.phase == Established || conn.phase == Destroyed || conn.phase == Released)
    && (c in s.connMap <==> InMap(conn.phase) && !accepting)
    && (InTable(conn.phase) ==> Holds(s.table, conn.loop, conn.fd, c))
    && conn.state == (match conn.phase
        case Accepted => Connecting case Registered => Connecting
        case Established => Connected case Closing => Connected case Removed => Connected
        case Destroyed => Disconnected case Released => Disconnected)
    && conn.ups == (if conn.state == Connecting then 0 else 1)
    && conn.downs == (if conn.state == Disconnected then 1 else 0)
  }

  /** A slot is occupied only by the registered connection with that descriptor. */
  ghost predicate TableOk(s: Server) {
    forall k :: k in s.table ==>
      s.table[k] < |s.conns| && InTable(s.conns[s.table[k]].phase)
      && k == (s.conns[s.table[k]].loop, s.conns[s.table[k]].fd)
  }

  ghost predicate MapOk(s: Server) { forall c :: c in s.connMap ==> c < |s.conns| }

  /** Two connections never hold the same open descriptor. */
  ghost predicate FdsOk(s: Server) {
    forall c, d :: 0 <= c < d < |s.conns| && s.conns[c].fd == s.conns[d].fd ==> s.conns[c].phase == Released
  }

  ghost predicate Inv(s: Server) {
    && TypeOk(s) && !s.failed && MapOk(s) && TableOk(s) && FdsOk(s)
    && forall c :: 0 <= c < |s.conns| ==> TasksOk(s, c) && ConnOk(s, c)
  }

  lemma {:induction false} TasksAppend(q: seq<Task>, t: Task, c: nat)
    ensures Tasks(q + [t], c) == Tasks(q, c) + (if t.c == c then [t] else [])
    decreases |q|
  {
    if q == [] {
      assert [t][1..] == [] && q + [t] == [t];
    } else {
      assert (q + [t])[1..] == q[1..] + [t] && (q + [t])[0] == q[0];
      TasksAppend(q[1..], t, c);
      var first, last := if q[0].c == c then [q[0]] else [], if t.c == c then [t] else [];
      assert first + (Tasks(q[1..], c) + last) == (first + Tasks(q[1..], c)) + last;
    }
  }

  lemma {:induction false} TasksNone(q: seq<Task>, c: nat)
    requires TasksKnown(q, c)
    ensures Tasks(q, c) == []
    decreases |q|
  {
    if q != [] { TasksNone(q[1..], c); }
  }

  // ---------- queues under a step ----------

  /** Where the queues of two states differ: the tasks of one connection only. */
  ghost predicate SameTasks(s: Server, s': Server, c: nat)
    requires TypeOk(s) && TypeOk(s') && |s'.queues| == |s.queues|
  {
    forall l, p, d :: 0 <= l < |s.queues| && 0 <= p < |s.queues| && d != c ==>
      Tasks(s'.queues[l][p], d) == Tasks(s.queues[l][p], d)
  }

  lemma EnqueueTasks(s: Server, loop: nat, producer: nat, t: Task)
    requires TypeOk(s) && loop < |s.queues| && producer < |s.queues| && t.c < |s.conns|
    ensures var s' := Enqueue(s, loop, producer, t);
      && TypeOk(s') && SameTasks(s, s', t.c)
      && forall l, p :: 0 <= l < |s.queues| && 0 <= p < |s.queues| ==>
           Tasks(s'.queues[l][p], t.c) == Tasks(s.queues[l][p], t.c) + if l == loop && p == producer then [t] else []
  {
    var q := s.queues[loop][producer];
    assert TasksKnown(q, |s.conns|);
    hide Tasks;
    forall d { TasksAppend(q, t, d); }
  }

  lemma DequeueTasks(s: Server, loop: nat, producer: nat)
    requires TypeOk(s) && loop < |s.queues| && producer < |s.queues| && s.queues[loop][producer] != []
    ensures var s', t := Dequeue(s, loop, producer), s.queues[loop][producer][0];
      && TypeOk(s') && t.c < |s.conns| && SameTasks(s, s', t.c)
      && Tasks(s.queues[loop][producer], t.c) == [t] + Tasks(s'.queues[loop][producer], t.c)
      && forall l, p :: 0 <= l < |s.queues| && 0 <= p < |s.queues| && (l != loop || p != producer) ==>
           s'.queues[l][p] == s.queues[l][p]
  {
  }

  /** A step that concerns one connection keeps the invariant when it keeps that
      connection in order and leaves the others' tasks, map entry and slot alone. */
  lemma OneConnection(s: Server, s': Server, c: nat)
    requires Inv(s) && TypeOk(s') && !s'.failed && |s'.queues| == |s.queues| && SameTasks(s, s', c) && Only(s, s', c)
    requires s.conns[c].phase != Released
    requires var k := (s.conns[c].loop, s.conns[c].fd);
      k in s'.table ==> s'.table[k] == c && InTable(s'.conns[c].phase)
    requires TasksOk(s', c) && ConnOk(s', c)
    ensures Inv(s')
  {
    hide Tasks;
    forall d | 0 <= d < |s.conns| && d != c
      ensures TasksOk(s', d) && ConnOk(s', d)
    {
      assert TasksOk(s, d) && ConnOk(s, d);
    }
    assert TableOk(s') by {
      forall k | k in s'.table && k != (s.conns[c].loop, s.conns[c].fd)
        ensures s'.table[k] < |s.conns| && s'.table[k] != c
      {
      }
    }
  }

  // ---------- every step keeps the invariant ----------

  /** The new connection as a state of its own, before anything is posted. */
  lemma Unknown(s: Server)
    requires TypeOk(s)
    ensures forall l, p :: 0 <= l < |s.queues| && 0 <= p < |s.queues| ==> Tasks(s.queues[l][p], |s.conns|) == []
  {
    forall l, p | 0 <= l < |s.queues| && 0 <= p < |s.queues|
      ensures Tasks(s.queues[l][p], |s.conns|) == []
    {
      TasksNone(s.queues[l][p], |s.conns|);
    }
  }

  lemma StepAccept(s: Server, fd: nat, loop: nat)
    requires Inv(s) && Enabled(s, Accept(fd, loop))
    ensures Inv(DoAccept(s, fd, loop))
  {
    hide Tasks;
    var c, s' := |s.conns|, DoAccept(s, fd, loop);
    AcceptTasks(s, fd, loop);
    AcceptConns(s, fd, loop);
    hide DoAccept, ConnOk, TypeOk;
    forall d | 0 <= d < c
      ensures TasksOk(s', d)
    {
      assert TasksOk(s, d) && s'.conns[d] == s.conns[d];
    }
    assert TasksOk(s', c);
  }

  /** Everything but the queues when a connection arrives. */
  lemma AcceptConns(s: Server, fd: nat, loop: nat)
    requires Inv(s) && Enabled(s, Accept(fd, loop))
    ensures var c, s' := |s.conns|, DoAccept(s, fd, loop);
      && |s'.conns| == c + 1 && s'.accepting == Some(c) && !s'.failed && MapOk(s') && TableOk(s') && FdsOk(s')
      && (forall d :: 0 <= d < c ==> s'.conns[d] == s.conns[d] && ConnOk(s', d))
      && ConnOk(s', c) && s'.conns[c].loop == loop
      && s'.conns[c].phase == if loop == BASE then Registered else Accepted
  {
    hide Tasks, Enqueue, TasksOk;
    var c, s' := |s.conns|, DoAccept(s, fd, loop);
    assert (loop, fd) !in s.table;
    forall d | 0 <= d < c
      ensures ConnOk(s', d)
    {
      assert ConnOk(s, d);
    }
  }

  lemma AcceptTasks(s: Server, fd: nat, loop: nat)
    requires TypeOk(s) && loop < |s.queues|
    ensures var c, s' := |s.conns|, DoAccept(s, fd, loop);
      && SameTasks(s, s', c)
      && forall l, p :: 0 <= l < |s.queues| && 0 <= p < |s.queues| ==>
           Tasks(s'.queues[l][p], c) == if loop != BASE && l == loop && p == BASE then [Register(c)] else []
  {
    hide Tasks;
    Unknown(s);
    if loop != BASE { EnqueueTasks(Arrived(s, fd, loop), loop, BASE, Register(|s.conns|)); }
  }

  lemma StepNewConnection(s: Server)
    requires Inv(s) && s.accepting.Some?
    ensures Inv(DoNewConnection(s))
  {
    hide Tasks;
    var c := s.accepting.value;
    var w := s.conns[c].loop;
    assert TasksOk(s, c) && ConnOk(s, c);
    if w != BASE {
      EnqueueTasks(s.(connMap := s.connMap + {c}, accepting := None), w, BASE, Establish(c));
    }
    hide Enqueue, TypeOk, FdsOk, MapOk, TableOk, Only;
    OneConnection(s, DoNewConnection(s), c);
  }

  /** The task at the front of a queue finds its connection in the phase it needs. */
  lemma FrontPhase(s: Server, l: nat, p: nat)
    requires Inv(s) && l < |s.queues| && p < |s.queues| && s.queues[l][p] != []
    ensures var t := s.queues[l][p][0];
      && t.c < |s.conns| && var conn := s.conns[t.c];
      match t
      case Register(c) => conn.phase == Accepted && l == conn.loop && p == BASE
      case Establish(c) => conn.phase == Registered && l == conn.loop && p == BASE && s.accepting != Some(c)
      case Remove(c) => conn.phase == Closing && l == BASE && p == conn.loop
      case Destroy(c) => conn.phase == Removed && l == conn.loop && p == BASE
  {
    DequeueTasks(s, l, p);
    hide Tasks;
    var t := s.queues[l][p][0];
    assert TasksOk(s, t.c);
    assert Waiting(s.conns[t.c], t.c, s.accepting == Some(t.c), l, p)[0] == t;
  }

  /** What the queues hold for the connection once its task has been taken off. */
  lemma FrontGone(s: Server, l: nat, p: nat)
    requires Inv(s) && l < |s.queues| && p < |s.queues| && s.queues[l][p] != []
    ensures var s', t := Dequeue(s, l, p), s.queues[l][p][0];
      && TypeOk(s') && t.c < |s.conns| && SameTasks(s, s', t.c)
      && forall i, j :: 0 <= i < |s.queues| && 0 <= j < |s.queues| ==>
           Tasks(s'.queues[i][j], t.c)
           == if i == l && j == p && t.Register? && s.accepting != Some(t.c) then [Establish(t.c)] else []
  {
    DequeueTasks(s, l, p);
    FrontPhase(s, l, p);
    hide Tasks;
    var s', t := Dequeue(s, l, p), s.queues[l][p][0];
    assert TasksOk(s, t.c) && ConnOk(s, t.c);
    var w := Waiting(s.conns[t.c], t.c, s.accepting == Some(t.c), l, p);
    assert w[1..] == Tasks(s'.queues[l][p], t.c);
  }

  lemma StepRegister(s: Server, l: nat, p: nat)
    requires Inv(s) && Enabled(s, RunTask(l, p)) && s.queues[l][p][0].Register?
    ensures Inv(DoTask(s, l, p))
  {
    FrontPhase(s, l, p);
    RegisterTasks(s, l, p);
    RegisterConn(s, l, p);
    var c := s.queues[l][p][0].c;
    hide *;
    OneConnection(s, DoTask(s, l, p), c);
  }

  lemma RegisterTasks(s: Server, l: nat, p: nat)
    requires Inv(s) && Enabled(s, RunTask(l, p)) && s.queues[l][p][0].Register?
    ensures var c, s' := s.queues[l][p][0].c, DoTask(s, l, p); c < |s.conns| && SameTasks(s, s', c) && TasksOk(s', c)
  {
    FrontPhase(s, l, p);
    FrontGone(s, l, p);
    hide Tasks, Dequeue, Inv, Enabled;
  }

  lemma RegisterConn(s: Server, l: nat, p: nat)
    requires Inv(s) && Enabled(s, RunTask(l, p)) && s.queues[l][p][0].Register?
    ensures var c, s' := s.queues[l][p][0].c, DoTask(s, l, p);
      && c < |s.conns| && s.conns[c].phase != Released && !s'.failed && ConnOk(s', c)
      && var k := (s.conns[c].loop, s.conns[c].fd); k in s'.table ==> s'.table[k] == c && InTable(s'.conns[c].phase)
  {
    FrontPhase(s, l, p);
    var c := s.queues[l][p][0].c;
    assert ConnOk(s, c) && (l, s.conns[c].fd) !in s.table;
    assert !s.failed;
    hide Tasks, TasksOk, Dequeue, Enqueue, SameTasks, TypeOk, FdsOk, MapOk, TableOk, Only, Next, Inv, Enabled;
  }

  lemma StepEstablish(s: Server, l: nat, p: nat)
    requires Inv(s) && Enabled(s, RunTask(l, p)) && s.queues[l][p][0].Establish?
    ensures Inv(DoTask(s, l, p))
  {
    FrontPhase(s, l, p);
    EstablishTasks(s, l, p);
    EstablishConn(s, l, p);
    var c := s.queues[l][p][0].c;
    hide *;
    OneConnection(s, DoTask(s, l, p), c);
  }

  lemma EstablishTasks(s: Server, l: nat, p: nat)
    requires Inv(s) && Enabled(s, RunTask(l, p)) && s.queues[l][p][0].Establish?
    ensures var c, s' := s.queues[l][p][0].c, DoTask(s, l, p); c < |s.conns| && SameTasks(s, s', c) && TasksOk(s', c)
  {
    FrontPhase(s, l, p);
    FrontGone(s, l, p);
    hide Tasks, Dequeue, Inv, Enabled;
  }

  lemma EstablishConn(s: Server, l: nat, p: nat)
    requires Inv(s) && Enabled(s, RunTask(l, p)) && s.queues[l][p][0].Establish?
    ensures var c, s' := s.queues[l][p][0].c, DoTask(s, l, p);
      && c < |s.conns| && s.conns[c].phase != Released && !s'.failed && ConnOk(s', c)
      && var k := (s.conns[c].loop, s.conns[c].fd); k in s'.table ==> s'.table[k] == c && InTable(s'.conns[c].phase)
  {
    FrontPhase(s, l, p);
    var c := s.queues[l][p][0].c;
    assert ConnOk(s, c);
    assert !s.failed;
    hide Tasks, TasksOk, Dequeue, Enqueue, SameTasks, TypeOk, FdsOk, MapOk, TableOk, Only, Next, Inv, Enabled;
  }

  lemma StepRemove(s: Server, l: nat, p: nat)
    requires Inv(s) && Enabled(s, RunTask(l, p)) && s.queues[l][p][0].Remove?
    ensures Inv(DoTask(s, l, p))
  {
    FrontPhase(s, l, p);
    RemoveTasks(s, l, p);
    RemoveConn(s, l, p);
    var c := s.queues[l][p][0].c;
    hide *;
    OneConnection(s, DoTask(s, l, p), c);
  }

  lemma RemoveTasks(s: Server, l: nat, p: nat)
    requires Inv(s) && Enabled(s, RunTask(l, p)) && s.queues[l][p][0].Remove?
    ensures var c, s' := s.queues[l][p][0].c, DoTask(s, l, p); c < |s.conns| && SameTasks(s, s', c) && TasksOk(s', c)
  {
    FrontPhase(s, l, p);
    FrontGone(s, l, p);
    var c, s1 := s.queues[l][p][0].c, Dequeue(s, l, p);
    assert ConnOk(s, c);
    hide Tasks, Dequeue, Inv, Enabled, TypeOk, Next, Only;
    RemoveGone(s1, c, s.conns[c].loop);
  }

  lemma RemoveGone(s: Server, c: nat, w: nat)
    requires TypeOk(s) && c < |s.conns| && s.conns[c].loop == w && w != BASE && s.accepting != Some(c)
    requires forall l, p :: 0 <= l < |s.queues| && 0 <= p < |s.queues| ==> Tasks(s.queues[l][p], c) == []
    ensures SameTasks(s, RemoveThenDestroy(s, c), c) && TasksOk(RemoveThenDestroy(s, c), c)
  {
    hide Tasks;
    EnqueueTasks(DoRemove(s, c), w, BASE, Destroy(c));
    hide Enqueue, TypeOk, Next, Only;
  }

  lemma RemoveConn(s: Server, l: nat, p: nat)
    requires Inv(s) && Enabled(s, RunTask(l, p)) && s.queues[l][p][0].Remove?
    ensures var c, s' := s.queues[l][p][0].c, DoTask(s, l, p);
      && c < |s.conns| && s.conns[c].phase != Released && !s'.failed && ConnOk(s', c)
      && var k := (s.conns[c].loop, s.conns[c].fd); k in s'.table ==> s'.table[k] == c && InTable(s'.conns[c].phase)
  {
    FrontPhase(s, l, p);
    var c := s.queues[l][p][0].c;
    assert ConnOk(s, c);
    assert !s.failed;
    hide Tasks, TasksOk, Dequeue, Enqueue, SameTasks, TypeOk, FdsOk, MapOk, TableOk, Only, Next, Inv, Enabled;
  }

  lemma StepDestroy(s: Server, l: nat, p: nat)
    requires Inv(s) && Enabled(s, RunTask(l, p)) && s.queues[l][p][0].Destroy?
    ensures Inv(DoTask(s, l, p))
  {
    FrontPhase(s, l, p);
    DestroyTasks(s, l, p);
    DestroyConn(s, l, p);
    var c := s.queues[l][p][0].c;
    hide *;
    OneConnection(s, DoTask(s, l, p), c);
  }

  lemma DestroyTasks(s: Server, l: nat, p: nat)
    requires Inv(s) && Enabled(s, RunTask(l, p)) && s.queues[l][p][0].Destroy?
    ensures var c, s' := s.queues[l][p][0].c, DoTask(s, l, p); c < |s.conns| && SameTasks(s, s', c) && TasksOk(s', c)
  {
    FrontPhase(s, l, p);
    FrontGone(s, l, p);
    hide Tasks, Dequeue, Inv, Enabled;
  }

  lemma DestroyConn(s: Server, l: nat, p: nat)
    requires Inv(s) && Enabled(s, RunTask(l, p)) && s.queues[l][p][0].Destroy?
    ensures var c, s' := s.queues[l][p][0].c, DoTask(s, l, p);
      && c < |s.conns| && s.conns[c].phase != Released && !s'.failed && ConnOk(s', c)
      && var k := (s.conns[c].loop, s.conns[c].fd); k in s'.table ==> s'.table[k] == c && InTable(s'.conns[c].phase)
  {
    FrontPhase(s, l, p);
    var c, s1 := s.queues[l][p][0].c, Dequeue(s, l, p);
    assert ConnOk(s, c) && !s.failed;
    assert ConnOk(s1, c) by { hide TypeOk, Inv, Dequeue, Next, Only, Enabled; }
    TaskIsDestroy(s, l, p);
    hide TypeOk, Inv, Dequeue, Next, Only, DoTask, DoDestroy, ConnOk, Enabled, TableOk, FdsOk, MapOk;
    DestroyedOk(s1, c);
  }

  lemma DestroyedOk(s: Server, c: nat)
    requires TypeOk(s) && c < |s.conns| && ConnOk(s, c) && s.conns[c].phase == Removed && !s.failed
    ensures var s' := DoDestroy(s, c);
      !s'.failed && ConnOk(s', c) && (s.conns[c].loop, s.conns[c].fd) !in s'.table
  {
    DestroyedIs(s, c);
    hide TypeOk, Next, Only, DoDestroy;
  }

  lemma TaskIsDestroy(s: Server, l: nat, p: nat)
    requires TypeOk(s) && l < |s.queues| && p < |s.queues| && s.queues[l][p] != [] && s.queues[l][p][0].Destroy?
    ensures DoTask(s, l, p) == DoDestroy(Dequeue(s, l, p), s.queues[l][p][0].c)
  {
    hide TypeOk, Next, Only, DoDestroy, Dequeue;
  }

  lemma DestroyedIs(s: Server, c: nat)
    requires TypeOk(s) && c < |s.conns|
    ensures var conn, s' := s.conns[c], DoDestroy(s, c);
      && s'.conns[c] == conn.(phase := Destroyed, state := if conn.state == Connected then Disconnected else conn.state,
                              downs := conn.downs + if conn.state == Connected then 1 else 0)
      && s'.connMap == s.connMap && s'.table == s.table - {(conn.loop, conn.fd)} && s'.accepting == s.accepting
      && s'.failed == (s.failed || !Holds(s.table, conn.loop, conn.fd, c))
  {
    hide TypeOk, Next, Only;
  }

  lemma StepClose(s: Server, c: nat)
    requires Inv(s) && Enabled(s, Close(c)) && FirstClose(s, Close(c))
    ensures Inv(DoClose(s, c))
  {
    hide Tasks;
    assert TasksOk(s, c) && ConnOk(s, c);
    if s.conns[c].loop != BASE {
      EnqueueTasks(MarkClosing(s, c), BASE, s.conns[c].loop, Remove(c));
      hide Enqueue, RemoveThenDestroy;
      OneConnection(s, DoClose(s, c), c);
    } else {
      CloseOnBase(s, c);
    }
  }

  /** On the base loop a close goes all the way at once. */
  lemma ClosedOnBase(s: Server, c: nat)
    requires TypeOk(s) && c < |s.conns| && s.conns[c].loop == BASE
    ensures var conn, s' := s.conns[c], DoClose(s, c);
      && s'.conns[c] == conn.(phase := Destroyed, state := if conn.state == Connected then Disconnected else conn.state,
                              downs := conn.downs + if conn.state == Connected then 1 else 0)
      && s'.connMap == s.connMap - {c} && s'.table == s.table - {(BASE, conn.fd)}
      && s'.accepting == s.accepting && s'.queues == s.queues
      && s'.failed == (s.failed || c !in s.connMap || !Holds(s.table, BASE, conn.fd, c))
  {
    hide TypeOk, Next, Only;
  }

  lemma CloseOnBase(s: Server, c: nat)
    requires Inv(s) && c < |s.conns| && s.conns[c].phase == Established && s.conns[c].loop == BASE
    ensures Inv(DoClose(s, c))
  {
    CloseOnBaseOk(s, c);
    hide *;
    OneConnection(s, DoClose(s, c), c);
  }

  lemma CloseOnBaseOk(s: Server, c: nat)
    requires Inv(s) && c < |s.conns| && s.conns[c].phase == Established && s.conns[c].loop == BASE
    ensures var s' := DoClose(s, c);
      !s'.failed && SameTasks(s, s', c) && TasksOk(s', c) && ConnOk(s', c) && (BASE, s.conns[c].fd) !in s'.table
  {
    assert TasksOk(s, c) && ConnOk(s, c);
    ClosedOnBase(s, c);
    hide DoClose, Tasks, TypeOk, Next, Only, TableOk, FdsOk, MapOk;
  }

  lemma StepRelease(s: Server, c: nat)
    requires Inv(s) && Enabled(s, Release(c))
    ensures Inv(DoRelease(s, c))
  {
    hide Tasks;
    assert TasksOk(s, c) && ConnOk(s, c);
    OneConnection(s, DoRelease(s, c), c);
  }

  lemma InvTypeOk(s: Server)
    requires Inv(s)
    ensures TypeOk(s)
  {
  }

  lemma StepInv(s: Server, a: Action)
    requires Inv(s) && Enabled(s, a) && FirstClose(s, a)
    ensures Inv(Do(s, a))
  {
    hide Inv, NoTasks, DoAccept, DoNewConnection, DoTask, DoClose, DoRelease;
    assert TypeOk(s) by { InvTypeOk(s); }
    match a
    case Accept(fd, loop) => StepAccept(s, fd, loop);
    case NewConnection => StepNewConnection(s);
    case RunTask(loop, producer) =>
      FrontPhase(s, loop, producer);
      match s.queues[loop][producer][0] {
        case Register(_) => StepRegister(s, loop, producer);
        case Establish(_) => StepEstablish(s, loop, producer);
        case Remove(_) => StepRemove(s, loop, producer);
        case Destroy(_) => StepDestroy(s, loop, producer);
      }
    case Close(c) => StepClose(s, c);
    case Release(c) => StepRelease(s, c);
  }

  lemma StepForward(s: Server, a: Action, c: nat)
    requires Inv(s) && Enabled(s, a) && FirstClose(s, a) && c < |s.conns|
    ensures s.conns[c].phase.Rank() <= Do(s, a).conns[c].phase.Rank()
    ensures Do(s, a).conns[c].phase.Closed() <==> s.conns[c].phase.Closed() || a == Close(c)
  {
    match a
    case RunTask(l, p) =>
      TaskForward(s, l, p, c);
      hide TypeOk, Inv, DoTask;
    case NewConnection =>
      assert ConnOk(s, s.accepting.value);
      hide TypeOk, Inv, ConnOk, Next, Only, Enqueue;
    case Accept(_, _) =>
      hide TypeOk, Inv, Next, Only, Enqueue;
    case Close(d) =>
      CloseForward(s, d);
      hide TypeOk, Inv, DoClose, MarkClosing;
    case Release(_) =>
      hide TypeOk, Inv;
  }

  lemma CloseForward(s: Server, c: nat)
    requires TypeOk(s) && c < |s.conns| && s.conns[c].phase == Established
    ensures DoClose(s, c).conns[c].phase.Closed()
  {
    hide TypeOk, Next, Only, Enqueue;
  }

  lemma TaskForward(s: Server, l: nat, p: nat, c: nat)
    requires Inv(s) && Enabled(s, RunTask(l, p)) && c < |s.conns|
    ensures s.conns[c].phase.Rank() <= DoTask(s, l, p).conns[c].phase.Rank()
    ensures DoTask(s, l, p).conns[c].phase.Closed() <==> s.conns[c].phase.Closed()
  {
    FrontPhase(s, l, p);
    hide TypeOk, Inv, Enqueue, Dequeue, Enabled, Next, Only;
  }

  // ---------- runs ----------

  ghost function Init(loops: nat): Server {
    Server(seq(loops, _ => seq(loops, _ => [])), [], map[], {}, None, false)
  }

  lemma InitInv(loops: nat)
    requires loops > BASE
    ensures Inv(Init(loops))
  {
  }

  ghost predicate Feasible(s: Server, acts: seq<Action>)
    requires TypeOk(s)
    decreases |acts|
  {
    acts == [] || (Enabled(s, acts[0]) && Feasible(Do(s, acts[0]), acts[1..]))
  }

  /** Any interleaving of the loops, the kernel and the users. */
  ghost function Run(s: Server, acts: seq<Action>): (s': Server)
    requires TypeOk(s) && Feasible(s, acts)
    ensures Next(s, s')
    decreases |acts|
  {
    if acts == [] then s else Run(Do(s, acts[0]), acts[1..])
  }

  /** How often a run closes connection `c`, and how often it still may. */
  function Closes(acts: seq<Action>, c: nat): nat {
    if acts == [] then 0 else (if acts[0] == Close(c) then 1 else 0) + Closes(acts[1..], c)
  }

  ghost function Allowance(s: Server, c: nat): nat {
    if c < |s.conns| && s.conns[c].phase.Closed() then 0 else 1
  }

  /** A first close uses the allowance up, and nothing else does. */
  lemma AllowanceStep(s: Server, a: Action, c: nat)
    requires Inv(s) && Enabled(s, a) && FirstClose(s, a)
    ensures Allowance(Do(s, a), c) == Allowance(s, c) - if a == Close(c) then 1 else 0
  {
    if c < |s.conns| { StepForward(s, a, c); }
  }

  lemma {:induction false} RunInv(s: Server, acts: seq<Action>)
    requires Inv(s) && Feasible(s, acts) && forall c :: Closes(acts, c) <= Allowance(s, c)
    ensures Inv(Run(s, acts))
    decreases |acts|
  {
    hide Enabled, Do;
    if acts != [] {
      var a := acts[0];
      CloseAllowed(s, acts);
      StepInv(s, a);
      forall c
        ensures Closes(acts[1..], c) <= Allowance(Do(s, a), c)
      {
        AllowanceStep(s, a, c);
        assert Closes(acts, c) <= Allowance(s, c);
      }
      RunInv(Do(s, a), acts[1..]);
    }
  }

  lemma CloseAllowed(s: Server, acts: seq<Action>)
    requires TypeOk(s) && acts != [] && Enabled(s, acts[0]) && forall c :: Closes(acts, c) <= Allowance(s, c)
    ensures FirstClose(s, acts[0])
  {
    if acts[0].Close? {
      var c := acts[0].c;
      assert 1 <= Closes(acts, c) <= Allowance(s, c);
    }
  }

  /** Over every run in which no connection is closed twice: no assertion fails
      (slots are free at registration, the channel is registered when it is
      established and when it is destroyed, the erase removes exactly one entry), and
      the connection callback has run once up from the establishment on and once down
      from the destruction on. */
  lemma Lifecycle(loops: nat, acts: seq<Action>)
    requires loops > BASE && Feasible(Init(loops), acts) && forall c :: Closes(acts, c) <= 1
    ensures var s := Run(Init(loops), acts);
      && Inv(s) && !s.failed
      && forall c :: 0 <= c < |s.conns| ==> var conn := s.conns[c];
           && conn.ups == (if conn.phase.Rank() >= Established.Rank() then 1 else 0)
           && conn.downs == (if conn.phase.Rank() >= Destroyed.Rank() then 1 else 0)
  {
    hide Enabled, Do;
    InitInv(loops);
    RunInv(Init(loops), acts);
    var s := Run(Init(loops), acts);
    forall c | 0 <= c < |s.conns|
      ensures var conn := s.conns[c];
        conn.ups == (if conn.phase.Rank() >= Established.Rank() then 1 else 0)
        && conn.downs == (if conn.phase.Rank() >= Destroyed.Rank() then 1 else 0)
    {
      assert ConnOk(s, c);
    }
  }

  /** When all queues have drained and no accept is under way, nothing is half done:
      every connection is up, mapped and registered, or gone from map and table. */
  lemma Drained(loops: nat, acts: seq<Action>, c: nat)
    requires loops > BASE && Feasible(Init(loops), acts) && forall d :: Closes(acts, d) <= 1
    requires var s := Run(Init(loops), acts);
      && c < |s.conns| && s.accepting == None
      && forall l, p :: 0 <= l < |s.queues| && 0 <= p < |s.queues| ==> s.queues[l][p] == []
    ensures var s := Run(Init(loops), acts);
      var conn := s.conns[c];
      if conn.ups == 1 && conn.downs == 0
      then c in s.connMap && Holds(s.table, conn.loop, conn.fd, c)
      else conn.ups == 1 && conn.downs == 1 && c !in s.connMap && !Holds(s.table, conn.loop, conn.fd, c)
  {
    hide Enabled, Do, Feasible;
    Lifecycle(loops, acts);
    var s := Run(Init(loops), acts);
    assert TasksOk(s, c) && ConnOk(s, c);
    var conn := s.conns[c];
    assert Tasks(s.queues[conn.loop][BASE], c) == Waiting(conn, c, false, conn.loop, BASE) == [];
    assert Tasks(s.queues[BASE][conn.loop], c) == Waiting(conn, c, false, BASE, conn.loop) == [];
  }

  /** A connection only moves forward. */
  lemma {:induction false} OnlyForward(s: Server, acts: seq<Action>, c: nat)
    requires Inv(s) && Feasible(s, acts) && c < |s.conns| && forall d :: Closes(acts, d) <= Allowance(s, d)
    ensures s.conns[c].phase.Rank() <= Run(s, acts).conns[c].phase.Rank()
    decreases |acts|
  {
    hide Enabled, Do;
    if acts != [] {
      var a := acts[0];
      CloseAllowed(s, acts);
      StepInv(s, a);
      StepForward(s, a, c);
      forall d
        ensures Closes(acts[1..], d) <= Allowance(Do(s, a), d)
      {
        AllowanceStep(s, a, d);
        assert Closes(acts, d) <= Allowance(s, d);
      }
      OnlyForward(Do(s, a), acts[1..], c);
    }
  }

  // ---------- every step does its work ----------

  /** A loop that runs a task takes it off its queue and does what it stands for. */
  lemma TaskWorks(s: Server, l: nat, p: nat)
    requires Inv(s) && Enabled(s, RunTask(l, p))
    ensures var t, s' := s.queues[l][p][0], Do(s, RunTask(l, p));
      && t.c < |s.conns| == |s'.conns| && s'.queues[l][p] == s.queues[l][p][1..]
      && var was, conn := s.conns[t.c], s'.conns[t.c];
         match t
         case Register(c) => conn == was.(phase := Registered) && Holds(s'.table, l, conn.fd, c)
         case Establish(_) => conn == was.(phase := Established, state := Connected, ups := 1)
         case Remove(c) =>
           conn == was.(phase := Removed) && c !in s'.connMap
           && s'.queues[conn.loop][BASE] == s.queues[conn.loop][BASE] + [Destroy(c)]
         case Destroy(c) =>
           conn == was.(phase := Destroyed, state := Disconnected, downs := 1) && (l, conn.fd) !in s'.table
  {
    FrontPhase(s, l, p);
    var t := s.queues[l][p][0];
    assert ConnOk(s, t.c);
    hide Inv, TypeOk, Tasks, TasksOk, Next, Only, NoTasks, Enabled;
    if t.Remove? {
      RemoveWorks(Dequeue(s, l, p), t.c);
    }
  }

  lemma RemoveWorks(s: Server, c: nat)
    requires TypeOk(s) && c < |s.conns| && s.conns[c].loop != BASE
    ensures var conn, s' := s.conns[c], RemoveThenDestroy(s, c);
      && s'.conns[c] == conn.(phase := Removed) && s'.connMap == s.connMap - {c}
      && conn.loop < |s.queues| == |s'.queues|
      && |s.queues[conn.loop]| == |s'.queues[conn.loop]| == |s.queues|
      && s'.queues[conn.loop][BASE] == s.queues[conn.loop][BASE] + [Destroy(c)]
      && s'.queues[BASE] == s.queues[BASE]
  {
    hide Next, Only;
  }

  /** The second half of an accept ends it: the map has an entry, and establishment
      is posted, or done at once on the base loop. */
  lemma NewConnectionWorks(s: Server)
    requires Inv(s) && s.accepting.Some?
    ensures var c, s' := s.accepting.value, Do(s, NewConnection);
      && c < |s.conns| == |s'.conns| && s'.accepting == None && c in s'.connMap
      && var was, conn := s.conns[c], s'.conns[c];
         if was.loop == BASE then conn == was.(phase := Established, state := Connected, ups := 1)
         else conn == was && s'.queues[was.loop][BASE] == s.queues[was.loop][BASE] + [Establish(c)]
  {
    assert ConnOk(s, s.accepting.value);
    hide Inv, Tasks, TasksOk, Next, Only, NoTasks;
  }

  /** An accept brings one connection more, with registration posted or done. */
  lemma AcceptWorks(s: Server, fd: nat, loop: nat)
    requires Inv(s) && Enabled(s, Accept(fd, loop))
    ensures var c, s' := |s.conns|, Do(s, Accept(fd, loop));
      && |s'.conns| == c + 1 && s'.accepting == Some(c) && (forall d :: 0 <= d < c ==> s'.conns[d] == s.conns[d])
      && var conn := s'.conns[c];
         conn == Conn(fd, loop, Connecting, if loop == BASE then Registered else Accepted, 0, 0)
         && if loop == BASE then Holds(s'.table, BASE, fd, c)
            else s'.queues[loop][BASE] == s.queues[loop][BASE] + [Register(c)]
  {
    assert TypeOk(s);
    assert |s.queues[loop]| == |s.queues|;
    hide Tasks, TasksOk, Next, Only, NoTasks, ConnOk, Inv;
  }

  /** A first close posts the removal; on the base loop the connection is gone at
      once. A release ends the connection. */
  lemma CloseWorks(s: Server, c: nat)
    requires Inv(s) && c < |s.conns|
    ensures s.conns[c].phase == Established && (s.conns[c].loop == BASE ==> s.accepting == None) ==>
      && Enabled(s, Close(c))
      && var was, s' := s.conns[c], Do(s, Close(c));
         if was.loop == BASE
         then s'.conns[c] == was.(phase := Destroyed, state := Disconnected, downs := 1) && c !in s'.connMap
         else s'.conns[c] == was.(phase := Closing)
              && s'.queues[BASE][was.loop] == s.queues[BASE][was.loop] + [Remove(c)]
    ensures s.conns[c].phase == Destroyed ==>
      Enabled(s, Release(c)) && Do(s, Release(c)) == s.(conns := s.conns[c := s.conns[c].(phase := Released)])
  {
    assert ConnOk(s, c) && TypeOk(s);
    if s.conns[c].phase == Destroyed {
      ReleaseEnabled(s, c);
      hide Inv, TypeOk, DoClose, Tasks, TasksOk, NoTasks, Next, Only, ConnOk;
    } else if s.conns[c].loop == BASE {
      ClosedOnBase(s, c);
      hide Inv, TypeOk, DoClose, DoRelease, Tasks, TasksOk, NoTasks, Next, Only;
    } else {
      ClosedOnWorker(s, c);
      hide Inv, TypeOk, DoClose, DoRelease, Tasks, TasksOk, NoTasks, Next, Only;
    }
  }

  lemma ReleaseEnabled(s: Server, c: nat)
    requires Inv(s) && c < |s.conns| && s.conns[c].phase == Destroyed
    ensures NoTasks(s, c)
  {
    assert TasksOk(s, c);
    hide Inv, Tasks;
  }

  lemma ClosedOnWorker(s: Server, c: nat)
    requires TypeOk(s) && c < |s.conns|
    ensures s.conns[c].loop != BASE && s.conns[c].phase == Established ==>
      var was, s' := s.conns[c], DoClose(s, c);
      && s'.conns[c] == was.(phase := Closing)
      && was.loop < |s.queues| == |s'.queues| && |s.queues[BASE]| == |s'.queues[BASE]| == |s.queues|
      && s'.queues[BASE][was.loop] == s.queues[BASE][was.loop] + [Remove(c)]
  {
    hide Next, Only, RemoveThenDestroy;
  }

  ghost function Left(conns: seq<Conn>): nat {
    if conns == [] then 0 else Released.Rank() - conns[0].phase.Rank() + Left(conns[1..])
  }

  lemma {:induction false} LeftUpdate(conns: seq<Conn>, c: nat, conn: Conn)
    requires c < |conns|
    ensures Left(conns[c := conn]) == Left(conns) + conns[c].phase.Rank() - conn.phase.Rank()
    decreases c
  {
    if c == 0 {
      assert conns[c := conn][1..] == conns[1..];
    } else {
      assert conns[c := conn][1..] == conns[1..][c - 1 := conn];
      LeftUpdate(conns[1..], c - 1, conn);
    }
  }

  /** How much work is waiting. */
  ghost function Work(s: Server): nat { Left(s.conns) + if s.accepting.Some? then 1 else 0 }

  ghost predicate Busy(s: Server, a: Action)
    requires TypeOk(s)
  {
    (a.RunTask? || a.NewConnection?) && Enabled(s, a)
  }

  lemma WorkShrinks(s: Server, a: Action)
    requires Inv(s) && Busy(s, a)
    ensures Work(Do(s, a)) < Work(s) && |Do(s, a).conns| == |s.conns|
  {
    if a.RunTask? {
      TaskShrinks(s, a.loop, a.producer);
    } else {
      AcceptShrinks(s);
    }
  }

  lemma TaskShrinks(s: Server, l: nat, p: nat)
    requires Inv(s) && Busy(s, RunTask(l, p))
    ensures Work(Do(s, RunTask(l, p))) < Work(s) && |Do(s, RunTask(l, p)).conns| == |s.conns|
  {
    FrontPhase(s, l, p);
    TaskWorks(s, l, p);
    OnlyWorks(s, RunTask(l, p), s.queues[l][p][0].c);
    hide Inv, Do, Enabled, TypeOk, Left;
    var c, s' := s.queues[l][p][0].c, Do(s, RunTask(l, p));
    LeftUpdate(s.conns, c, s'.conns[c]);
  }

  lemma AcceptShrinks(s: Server)
    requires Inv(s) && Busy(s, NewConnection)
    ensures Work(Do(s, NewConnection)) < Work(s) && |Do(s, NewConnection).conns| == |s.conns|
  {
    NewConnectionWorks(s);
    OnlyWorks(s, NewConnection, s.accepting.value);
    assert ConnOk(s, s.accepting.value);
    hide Inv, Do, Enabled, TypeOk, Left;
    var c, s' := s.accepting.value, Do(s, NewConnection);
    LeftUpdate(s.conns, c, s'.conns[c]);
  }

  lemma OnlyWorks(s: Server, a: Action, c: nat)
    requires TypeOk(s) && Busy(s, a)
    requires a.RunTask? ==> c == s.queues[a.loop][a.producer][0].c
    requires a.NewConnection? ==> c == s.accepting.value
    ensures c < |s.conns| && Do(s, a).conns == s.conns[c := Do(s, a).conns[c]]
    ensures a.RunTask? ==> Do(s, a).accepting == s.accepting
  {
    if a.RunTask? { TaskKeepsAccept(s, a.loop, a.producer); }
    hide TypeOk, Next, Tasks, NoTasks, DoNewConnection, DoTask;
    assert Only(s, Do(s, a), c);
  }

  lemma TaskKeepsAccept(s: Server, l: nat, p: nat)
    requires TypeOk(s) && Enabled(s, RunTask(l, p))
    ensures DoTask(s, l, p).accepting == s.accepting
  {
    hide TypeOk, Next, Only, Tasks, NoTasks;
  }

  /** Nothing waits: no accept is under way and all queues are empty. */
  ghost predicate Quiet(s: Server)
    requires TypeOk(s)
  {
    s.accepting == None && forall l, p :: 0 <= l < |s.queues| && 0 <= p < |s.queues| ==> s.queues[l][p] == []
  }

  /** Only the loops act; nobody closes, accepts or releases anything. */
  ghost predicate Draining(acts: seq<Action>) {
    forall i :: 0 <= i < |acts| ==> acts[i].RunTask? || acts[i].NewConnection?
  }

  /** From every state the loops can drain their queues, with nobody closing,
      accepting or releasing anything. */
  lemma {:induction false} DrainRun(s: Server) returns (acts: seq<Action>)
    requires Inv(s)
    ensures Feasible(s, acts) && Draining(acts)
    ensures var s' := Run(s, acts); Inv(s') && Quiet(s') && |s'.conns| == |s.conns|
    decreases Work(s)
  {
    if Quiet(s) {
      acts := [];
    } else {
      var a := BusyAction(s);
      StepInv(s, a);
      WorkShrinks(s, a);
      var rest := DrainRun(Do(s, a));
      hide Enabled, Do, Inv, Quiet, Work, TypeOk;
      RunCons(s, a, rest);
      acts := [a] + rest;
    }
  }

  lemma BusyAction(s: Server) returns (a: Action)
    requires Inv(s) && !Quiet(s)
    ensures Busy(s, a) && FirstClose(s, a)
  {
    if s.accepting.Some? {
      a := NewConnection;
    } else {
      var l, p :| 0 <= l < |s.queues| && 0 <= p < |s.queues| && s.queues[l][p] != [];
      a := RunTask(l, p);
    }
  }

  lemma RunCons(s: Server, a: Action, acts: seq<Action>)
    requires TypeOk(s) && Enabled(s, a) && Feasible(Do(s, a), acts)
    ensures Feasible(s, [a] + acts) && Run(s, [a] + acts) == Run(Do(s, a), acts)
  {
    hide Enabled, Do;
    assert ([a] + acts)[1..] == acts;
  }

  lemma {:induction false} ClosedStays(s: Server, acts: seq<Action>, c: nat)
    requires Inv(s) && Feasible(s, acts) && Draining(acts) && c < |s.conns|
    ensures var conn, conn' := s.conns[c], Run(s, acts).conns[c];
      (conn'.phase.Closed() <==> conn.phase.Closed()) && (conn'.phase == Released <==> conn.phase == Released)
    decreases |acts|
  {
    hide Enabled, Do;
    if acts != [] {
      assert !acts[0].Close?;
      StepInv(s, acts[0]);
      StepForward(s, acts[0], c);
      NotReleased(s, acts[0], c);
      ClosedStays(Do(s, acts[0]), acts[1..], c);
    }
  }

  lemma NotReleased(s: Server, a: Action, c: nat)
    requires Inv(s) && Busy(s, a) && c < |s.conns|
    ensures Do(s, a).conns[c].phase == Released <==> s.conns[c].phase == Released
  {
    if a.RunTask? {
      FrontPhase(s, a.loop, a.producer);
      TaskWorks(s, a.loop, a.producer);
      OnlyWorks(s, a, s.queues[a.loop][a.producer][0].c);
    } else {
      NewConnectionWorks(s);
      OnlyWorks(s, a, s.accepting.value);
      assert ConnOk(s, s.accepting.value);
    }
    hide Inv, Do, Enabled, TypeOk;
  }

  /** Every connection gets where it is going: from any state there is a run without
      a close after which all queues are empty, each connection that was not closed
      is up, mapped and registered, and each that was closed is down and gone. */
  lemma EverythingComesThrough(s: Server)
    requires Inv(s)
    ensures exists acts :: Feasible(s, acts) && Draining(acts) && ComesThrough(s, Run(s, acts))
  {
    var acts := DrainRun(s);
    var s' := Run(s, acts);
    forall c | 0 <= c < |s.conns|
      ensures Settled(s, s', c)
    {
      ClosedStays(s, acts, c);
      QuietConn(s', c);
    }
    hide Inv;
  }

  ghost predicate ComesThrough(s: Server, s': Server)
    requires TypeOk(s')
  {
    Quiet(s') && |s'.conns| == |s.conns| && forall c :: 0 <= c < |s.conns| ==> Settled(s, s', c)
  }

  ghost predicate Settled(s: Server, s': Server, c: nat)
    requires c < |s.conns| == |s'.conns|
  {
    var conn := s'.conns[c];
    conn.ups == 1
    && if s.conns[c].phase.Closed() then conn.downs == 1 && conn.state == Disconnected && c !in s'.connMap
       else conn.downs == 0 && conn.state == Connected && c in s'.connMap && Holds(s'.table, conn.loop, conn.fd, c)
  }

  lemma QuietConn(s: Server, c: nat)
    requires Inv(s) && Quiet(s) && c < |s.conns|
    ensures Settled(s, s, c)
  {
    assert TasksOk(s, c) && ConnOk(s, c);
    var conn := s.conns[c];
    assert Tasks(s.queues[conn.loop][BASE], c) == Waiting(conn, c, false, conn.loop, BASE) == [];
    assert Tasks(s.queues[BASE][conn.loop], c) == Waiting(conn, c, false, BASE, conn.loop) == [];
  }

  lemma {:induction false} RunAppend(s: Server, first: seq<Action>, second: seq<Action>)
    requires TypeOk(s) && Feasible(s, first) && Feasible(Run(s, first), second)
    ensures Feasible(s, first + second) && Run(s, first + second) == Run(Run(s, first), second)
    decreases |first|
  {
    hide Enabled, Do, TypeOk;
    if first == [] {
      assert first + second == second;
    } else {
      RunAppend(Do(s, first[0]), first[1..], second);
      assert (first + second)[1..] == first[1..] + second && (first + second)[0] == first[0];
    }
  }

  /** A step, after which the queues drain. */
  lemma StepAndDrain(s: Server, a: Action) returns (acts: seq<Action>)
    requires Inv(s) && Enabled(s, a) && FirstClose(s, a)
    ensures Feasible(s, acts)
    ensures var t, s' := Do(s, a), Run(s, acts);
      && Inv(s') && Quiet(s') && |s'.queues| == |s.queues| && |s'.conns| == |t.conns|
      && forall c :: 0 <= c < |t.conns| ==> Followed(t, s', c)
  {
    StepInv(s, a);
    var t := Do(s, a);
    var rest := DrainRun(t);
    var s' := Run(t, rest);
    forall c | 0 <= c < |t.conns|
      ensures Followed(t, s', c)
    {
      ClosedStays(t, rest, c);
      QuietConn(s', c);
    }
    hide Enabled, Do, Inv, Quiet, Followed;
    RunCons(s, a, rest);
    acts := [a] + rest;
  }

  ghost predicate Followed(s: Server, s': Server, c: nat)
    requires c < |s.conns| == |s'.conns|
  {
    var conn, conn' := s.conns[c], s'.conns[c];
    && Settled(s, s', c) && conn'.fd == conn.fd && conn'.loop == conn.loop
    && (conn'.phase.Closed() <==> conn.phase.Closed()) && (conn'.phase == Released <==> conn.phase == Released)
  }

  /** The whole life of a connection is possible, on any loop and from any state with
      nothing waiting: it comes up once, goes down once and is released, and no
      assertion fails. */
  lemma FullLife(s: Server, fd: nat, loop: nat)
    requires Inv(s) && Quiet(s) && loop < |s.queues|
    requires forall c :: 0 <= c < |s.conns| && s.conns[c].fd == fd ==> s.conns[c].phase == Released
    ensures exists acts :: Feasible(s, acts) && Lived(s, Run(s, acts), fd, loop)
  {
    var c := |s.conns|;
    var up := Up(s, fd, loop);
    var s1 := Run(s, up);
    var down := Down(s1, c);
    hide *;
    RunAppend(s, up, down);
    LivedIs(s, Run(s1, down), fd, loop);
    assert Lived(s, Run(s, up + down), fd, loop);
  }

  ghost predicate Lived(s: Server, s': Server, fd: nat, loop: nat) {
    Inv(s') && |s'.conns| == |s.conns| + 1 && s'.conns[|s.conns|] == Conn(fd, loop, Disconnected, Released, 1, 1)
  }

  lemma LivedIs(s: Server, s': Server, fd: nat, loop: nat)
    requires Inv(s') && |s'.conns| == |s.conns| + 1
    requires s'.conns[|s.conns|] == Conn(fd, loop, Disconnected, Released, 1, 1)
    ensures Lived(s, s', fd, loop)
  {
  }

  lemma Up(s: Server, fd: nat, loop: nat) returns (acts: seq<Action>)
    requires Inv(s) && Quiet(s) && loop < |s.queues|
    requires forall c :: 0 <= c < |s.conns| && s.conns[c].fd == fd ==> s.conns[c].phase == Released
    ensures Feasible(s, acts)
    ensures var s' := Run(s, acts);
      && Inv(s') && Quiet(s') && |s'.conns| == |s.conns| + 1
      && s'.conns[|s.conns|] == Conn(fd, loop, Connected, Established, 1, 0)
  {
    var c := |s.conns|;
    assert Enabled(s, Accept(fd, loop));
    AcceptWorks(s, fd, loop);
    acts := StepAndDrain(s, Accept(fd, loop));
    var s' := Run(s, acts);
    hide Do, Enabled, Feasible, Run, TypeOk, Quiet;
    assert Followed(Do(s, Accept(fd, loop)), s', c);
    assert ConnOk(s', c);
  }

  lemma Down(s: Server, c: nat) returns (acts: seq<Action>)
    requires Inv(s) && Quiet(s) && c < |s.conns| && s.conns[c].phase == Established
    ensures Feasible(s, acts)
    ensures var conn, s' := s.conns[c], Run(s, acts);
      Inv(s') && |s'.conns| == |s.conns| && s'.conns[c] == Conn(conn.fd, conn.loop, Disconnected, Released, 1, 1)
  {
    CloseWorks(s, c);
    var t := Do(s, Close(c));
    assert |t.conns| == |s.conns| && t.conns[c].phase.Closed() && t.conns[c].phase != Released by {
      OnlyClose(s, c);
    }
    var down := StepAndDrain(s, Close(c));
    var s' := Run(s, down);
    assert Followed(t, s', c);
    assert ConnOk(s', c);
    CloseWorks(s', c);
    var end := Do(s', Release(c));
    StepInv(s', Release(c));
    assert Feasible(end, []) && Run(end, []) == end;
    RunCons(s', Release(c), []);
    hide Do, Enabled, Feasible, Run, TypeOk, Quiet, Inv;
    RunAppend(s, down, [Release(c)] + []);
    acts := down + ([Release(c)] + []);
  }

  lemma OnlyClose(s: Server, c: nat)
    requires TypeOk(s) && c < |s.conns| && s.conns[c].phase == Established
    ensures |DoClose(s, c).conns| == |s.conns| && DoClose(s, c).conns[c].phase.Closed()
    ensures DoClose(s, c).conns[c].phase != Released
    ensures DoClose(s, c).conns[c].fd == s.conns[c].fd && DoClose(s, c).conns[c].loop == s.conns[c].loop
  {
    if s.conns[c].loop == BASE { ClosedOnBase(s, c); } else { ClosedOnWorker(s, c); }
    hide DoClose, TypeOk;
  }

  // ---------- closing twice ----------

  /** More removals of `c` are waiting than the map has entries for them, or it has
      come to the failing assertion already. */
  ghost predicate Doomed(s: Server, c: nat)
    requires TypeOk(s)
  {
    && c < |s.conns| && s.accepting != Some(c)
    && (s.failed || Removes(s, c) > (if c in s.connMap then 1 else 0))
  }

  ghost function Removes(s: Server, c: nat): nat
    requires TypeOk(s) && c < |s.conns|
  {
    multiset(s.queues[BASE][s.conns[c].loop])[Remove(c)]
  }

  /** A close of a connection that has been closed dooms the run, on every loop. */
  lemma SecondClose(s: Server, c: nat)
    requires Inv(s) && Enabled(s, Close(c)) && !FirstClose(s, Close(c))
    ensures Doomed(Do(s, Close(c)), c)
  {
    assert TasksOk(s, c) && ConnOk(s, c);
    if s.conns[c].loop == BASE {
      hide TypeOk, Inv, Tasks;
    } else {
      SecondCloseWorker(s, c);
    }
  }

  lemma SecondCloseWorker(s: Server, c: nat)
    requires Inv(s) && Enabled(s, Close(c)) && !FirstClose(s, Close(c)) && s.conns[c].loop != BASE
    ensures Doomed(DoClose(s, c), c)
  {
    ClosedBefore(s, c);
    OneMoreRemove(s, c);
    hide Inv, DoClose, Removes;
  }

  lemma ClosedBefore(s: Server, c: nat)
    requires Inv(s) && c < |s.conns| && s.conns[c].phase.Closed() && s.conns[c].phase != Released
      && s.conns[c].loop != BASE
    ensures s.accepting != Some(c) && Removes(s, c) >= if c in s.connMap then 1 else 0
  {
    assert TasksOk(s, c) && ConnOk(s, c);
    var w := s.conns[c].loop;
    if s.conns[c].phase == Closing {
      assert Tasks(s.queues[BASE][w], c) == [Remove(c)];
      hide Tasks, TasksOk, Inv;
      TaskIn(s.queues[BASE][w], c);
    }
  }

  lemma OneMoreRemove(s: Server, c: nat)
    requires TypeOk(s) && c < |s.conns| && s.conns[c].loop != BASE
    ensures var s' := DoClose(s, c);
      Removes(s', c) == Removes(s, c) + 1 && s'.connMap == s.connMap && s'.accepting == s.accepting
  {
    hide RemoveThenDestroy, Only;
    var s1, w := MarkClosing(s, c), s.conns[c].loop;
    assert Enqueue(s1, BASE, w, Remove(c)).queues[BASE][w] == s.queues[BASE][w] + [Remove(c)];
  }

  lemma {:induction false} TaskIn(q: seq<Task>, c: nat)
    requires Tasks(q, c) != []
    ensures Tasks(q, c)[0] in q
    decreases |q|
  {
    if q[0].c != c { TaskIn(q[1..], c); }
  }

  lemma RemovesEnqueue(s: Server, loop: nat, producer: nat, t: Task, c: nat)
    requires TypeOk(s) && loop < |s.queues| && producer < |s.queues| && t.c < |s.conns| && c < |s.conns|
    ensures Removes(Enqueue(s, loop, producer, t), c) >= Removes(s, c)
  {
  }

  lemma RemovesDequeue(s: Server, loop: nat, producer: nat, c: nat)
    requires TypeOk(s) && loop < |s.queues| && producer < |s.queues| && s.queues[loop][producer] != [] && c < |s.conns|
    ensures Removes(Dequeue(s, loop, producer), c)
         >= Removes(s, c) - if s.queues[loop][producer][0] == Remove(c) then 1 else 0
  {
    var q := s.queues[loop][producer];
    assert q == [q[0]] + q[1..];
  }

  /** Nothing that happens afterwards averts it. */
  lemma DoomedStep(s: Server, a: Action, c: nat)
    requires TypeOk(s) && Enabled(s, a) && Doomed(s, c)
    ensures Doomed(Do(s, a), c)
  {
    match a
    case Accept(fd, loop) =>
      if loop != BASE { RemovesEnqueue(Arrived(s, fd, loop), loop, BASE, Register(|s.conns|), c); }
    case NewConnection =>
      var d := s.accepting.value;
      var s1 := s.(connMap := s.connMap + {d}, accepting := None);
      if s.conns[d].loop != BASE { RemovesEnqueue(s1, s.conns[d].loop, BASE, Establish(d), c); }
    case RunTask(loop, producer) => DoomedTask(s, loop, producer, c);
    case Close(d) => DoomedClose(s, d, c);
    case Release(_) =>
  }

  lemma DoomedRemove(s: Server, d: nat, c: nat)
    requires TypeOk(s) && c < |s.conns| && d < |s.conns| && s.accepting != Some(c)
    requires s.failed || Removes(s, c) + (if d == c then 1 else 0) > if c in s.connMap then 1 else 0
    ensures Doomed(RemoveThenDestroy(s, d), c)
  {
    var s1 := DoRemove(s, d);
    if s.conns[d].loop != BASE { RemovesEnqueue(s1, s.conns[d].loop, BASE, Destroy(d), c); }
  }

  lemma DoomedTask(s: Server, loop: nat, producer: nat, c: nat)
    requires TypeOk(s) && Enabled(s, RunTask(loop, producer)) && Doomed(s, c)
    ensures Doomed(DoTask(s, loop, producer), c)
  {
    RemovesDequeue(s, loop, producer, c);
    hide TypeOk, Dequeue;
    var s1 := Dequeue(s, loop, producer);
    assert s1.conns[c].loop == s.conns[c].loop;
    match s.queues[loop][producer][0] {
      case Register(_) => case Establish(_) => case Destroy(_) =>
      case Remove(d) =>
        DoomedRemove(s1, d, c);
    }
  }

  lemma DoomedClose(s: Server, d: nat, c: nat)
    requires TypeOk(s) && d < |s.conns| && Doomed(s, c)
    ensures Doomed(DoClose(s, d), c)
  {
    var w, s1 := s.conns[d].loop, MarkClosing(s, d);
    if w == BASE { DoomedRemove(s1, d, c); } else { RemovesEnqueue(s1, BASE, w, Remove(d), c); }
  }

  lemma {:induction false} DoomedRun(s: Server, acts: seq<Action>, c: nat)
    requires TypeOk(s) && Feasible(s, acts) && Doomed(s, c)
    ensures Doomed(Run(s, acts), c)
    decreases |acts|
  {
    hide TypeOk, Enabled, Do, Doomed;
    if acts != [] {
      DoomedStep(s, acts[0], c);
      DoomedRun(Do(s, acts[0]), acts[1..], c);
    }
  }

  ghost predicate BaseDrained(s: Server)
    requires TypeOk(s)
  {
    forall p :: 0 <= p < |s.queues| ==> s.queues[BASE][p] == []
  }

  /** Whatever happens after a further close, by the time the base loop has run its
      tasks the erase has failed. */
  lemma SecondCloseFails(s: Server, c: nat, acts: seq<Action>)
    requires Inv(s) && Enabled(s, Close(c)) && !FirstClose(s, Close(c)) && Feasible(Do(s, Close(c)), acts)
    requires Removes(Run(Do(s, Close(c)), acts), c) == 0
    ensures Run(Do(s, Close(c)), acts).failed
  {
    hide Enabled, Do;
    SecondClose(s, c);
    DoomedRun(Do(s, Close(c)), acts, c);
  }

  lemma DrainedFails(s: Server, acts: seq<Action>)
    requires Inv(s) && acts != [] && Feasible(s, acts) && !FirstClose(s, acts[0]) && BaseDrained(Run(s, acts))
    ensures Run(s, acts).failed
  {
    hide Do;
    var c, e := acts[0].c, Run(s, acts);
    assert e == Run(Do(s, acts[0]), acts[1..]) && c < |Do(s, acts[0]).conns| <= |e.conns|;
    assert e.queues[BASE][e.conns[c].loop] == [];
    SecondCloseFails(s, c, acts[1..]);
  }

  lemma {:induction false} MustFail(s: Server, acts: seq<Action>, c: nat)
    requires Inv(s) && Feasible(s, acts) && Closes(acts, c) > Allowance(s, c) && BaseDrained(Run(s, acts))
    ensures Run(s, acts).failed
    decreases |acts|
  {
    hide Enabled, Do;
    var a := acts[0];
    if !FirstClose(s, a) {
      DrainedFails(s, acts);
    } else {
      StepInv(s, a);
      AllowanceStep(s, a, c);
      MustFail(Do(s, a), acts[1..], c);
    }
  }

  /** One loop, one connection, accepted and established. */
  lemma ExampleOpen()
    ensures TypeOk(Init(1)) && Enabled(Init(1), Accept(5, BASE))
    ensures var s := Do(Init(1), Accept(5, BASE));
      && Enabled(s, NewConnection)
      && var s' := Do(s, NewConnection);
         && |s'.conns| == 1 && s'.conns[0].loop == BASE && s'.conns[0].phase == Established
         && s'.accepting == None && 0 in s'.connMap && BaseDrained(s')
  {
    InitInv(1);
  }

  /** Closed twice. */
  lemma ExampleClosed(s: Server)
    requires TypeOk(s) && |s.conns| == 1 && s.conns[0].loop == BASE && s.conns[0].phase == Established
    requires s.accepting == None && BaseDrained(s)
    ensures Enabled(s, Close(0)) && Enabled(Do(s, Close(0)), Close(0))
    ensures var s' := Do(Do(s, Close(0)), Close(0)); s'.failed && BaseDrained(s')
  {
    ClosedOnBase(s, 0);
    ClosedOnBase(DoClose(s, 0), 0);
    hide DoClose, TypeOk;
  }

  /** Such a run on a single loop: accept, close, close. */
  lemma DoubleCloseExample()
    ensures var acts := [Accept(5, BASE)] + ([NewConnection] + ([Close(0)] + ([Close(0)] + [])));
      TypeOk(Init(1)) && Feasible(Init(1), acts) && BaseDrained(Run(Init(1), acts)) && Run(Init(1), acts).failed
  {
    ExampleOpen();
    var s := Do(Do(Init(1), Accept(5, BASE)), NewConnection);
    ExampleClosed(s);
    var s' := Do(Do(s, Close(0)), Close(0));
    assert Feasible(s', []) && Run(s', []) == s';
    hide Do, Enabled, TypeOk, BaseDrained, Feasible, Run, Init;
    RunCons(Do(s, Close(0)), Close(0), []);
    RunCons(s, Close(0), [Close(0)] + []);
    RunCons(Do(Init(1), Accept(5, BASE)), NewConnection, [Close(0)] + ([Close(0)] + []));
    RunCons(Init(1), Accept(5, BASE), [NewConnection] + ([Close(0)] + ([Close(0)] + [])));
  }

  /** Over every run at whose end the base loop has run its tasks: an assertion has
      failed if and only if some connection was closed more than once. */
  lemma FailsExactly(loops: nat, acts: seq<Action>)
    requires loops > BASE && Feasible(Init(loops), acts) && BaseDrained(Run(Init(loops), acts))
    ensures Run(Init(loops), acts).failed <==> exists c :: Closes(acts, c) > 1
  {
    InitInv(loops);
    if c :| Closes(acts, c) > 1 {
      MustFail(Init(loops), acts, c);
    } else {
      Lifecycle(loops, acts);
    }
  }
}
