/** The counted task queue of an event loop. Any number of producers enqueue a
    task and, in a separate step, increment the counter; the loop takes a snapshot
    of the counter and runs that many tasks. Steps interleave arbitrarily. The
    queue itself is only assumed to keep each producer's order. */
module CycleQueue {
  type Task = nat

  /** Producer 0 is the loop thread, which enqueues from inside a running task or
      between two calls of `process`, and finishes both steps before it goes on. */
  const LOOP: nat := 0

  /** Where the consumer is inside `process`; `left` rounds remain, this one included. */
  datatype Phase = Idle | Dequeue(left: nat) | Running(left: nat) | Decrement(left: nat) {
    function Left(): nat { if Idle? then 0 else left }
    function InHand(): nat { if Running? || Decrement? then 1 else 0 }
  }

  datatype State = State(
    queues: seq<seq<Task>>,     // the queue, split by producer
    announcing: seq<bool>,      // enqueued, counter not yet incremented
    size: int,                  // the atomic counter
    phase: Phase,
    submitted: seq<seq<Task>>,  // history: enqueued by each producer
    ran: seq<seq<Task>>,        // history: handed to `handle`, by producer
    snapshot: int,              // the counter at the start of this `process`
    done: nat,                  // rounds finished in this `process`
    base: nat)                  // tasks run before this `process`

  datatype Action =
    | Enqueue(p: nat, task: Task)
    | Increment(p: nat)
    | Start
    | TryDequeue(p: nat)  // the dequeue finds an element of producer `p`
    | Finish              // the task's handler returns
    | Count               // `--size`

  ghost predicate Enabled(s: State, a: Action) {
    match a
    case Enqueue(p, _) => p < |s.queues| && p < |s.announcing| && !s.announcing[p]
      && (p == LOOP ==> s.phase.Running? || s.phase.Idle?)
    case Increment(p) => p < |s.announcing| && s.announcing[p]
    case Start => s.phase.Idle? && LOOP < |s.announcing| && !s.announcing[LOOP]
    case TryDequeue(p) => s.phase.Dequeue? && p < |s.queues| && s.queues[p] != []
    case Finish => s.phase.Running? && LOOP < |s.announcing| && !s.announcing[LOOP]
    case Count => s.phase.Decrement?
  }

  ghost function Do(s: State, a: Action): State
    requires |s.queues| == |s.announcing| == |s.submitted| == |s.ran| && Enabled(s, a)
    requires a.Count? ==> s.phase.left > 0
  {
    match a
    case Enqueue(p, t) =>
      s.(queues := s.queues[p := s.queues[p] + [t]], announcing := s.announcing[p := true],
         submitted := s.submitted[p := s.submitted[p] + [t]])
    case Increment(p) => s.(size := s.size + 1, announcing := s.announcing[p := false])
    case Start =>
      s.(phase := if s.size <= 0 then Idle else Dequeue(s.size), snapshot := s.size, done := 0, base := Total(s.ran))
    case TryDequeue(p) =>
      s.(queues := s.queues[p := s.queues[p][1..]], phase := Running(s.phase.left),
         ran := s.ran[p := s.ran[p] + [s.queues[p][0]]])
    case Finish => s.(phase := Decrement(s.phase.left))
    case Count =>
      s.(size := s.size - 1, done := s.done + 1,
         phase := if s.phase.left == 1 then Idle else Dequeue(s.phase.left - 1))
  }

  ghost function Total(qs: seq<seq<Task>>): nat {
    if qs == [] then 0 else |qs[0]| + Total(qs[1..])
  }

  ghost function Announcing(bs: seq<bool>): nat {
    if bs == [] then 0 else (if bs[0] then 1 else 0) + Announcing(bs[1..])
  }

  lemma {:induction false} TotalUpdate(qs: seq<seq<Task>>, p: nat, q: seq<Task>)
    requires p < |qs|
    ensures Total(qs[p := q]) == Total(qs) - |qs[p]| + |q|
  {
    if p == 0 {
      assert qs[p := q][1..] == qs[1..];
    } else {
      assert qs[p := q][1..] == qs[1..][p - 1 := q];
      TotalUpdate(qs[1..], p - 1, q);
    }
  }

  lemma {:induction false} AnnouncingUpdate(bs: seq<bool>, p: nat, b: bool)
    requires p < |bs|
    ensures Announcing(bs[p := b]) == Announcing(bs) - (if bs[p] then 1 else 0) + (if b then 1 else 0)
  {
    if p == 0 {
      assert bs[p := b][1..] == bs[1..];
    } else {
      assert bs[p := b][1..] == bs[1..][p - 1 := b];
      AnnouncingUpdate(bs[1..], p - 1, b);
    }
  }

  lemma {:induction false} TotalZero(qs: seq<seq<Task>>)
    requires forall p :: 0 <= p < |qs| ==> qs[p] == []
    ensures Total(qs) == 0
  {
    if qs != [] { TotalZero(qs[1..]); }
  }

  ghost predicate Inv(s: State) {
    && |s.queues| == |s.announcing| == |s.submitted| == |s.ran| && LOOP < |s.queues|
    && s.size + Announcing(s.announcing) == Total(s.queues) + s.phase.InHand()
    && s.size >= s.phase.Left() && (!s.phase.Idle? ==> s.phase.left >= 1)
    && s.done + s.phase.Left() == (if s.snapshot < 0 then 0 else s.snapshot)
    && Total(s.ran) == s.base + s.done + s.phase.InHand()
    && forall p :: 0 <= p < |s.queues| ==> s.submitted[p] == s.ran[p] + s.queues[p]
  }

  ghost function Empty(producers: nat): State {
    var none := seq(producers, _ => []);
    State(none, seq(producers, _ => false), 0, Idle, none, none, 0, 0, 0)
  }

  lemma {:induction false} EmptyInv(producers: nat)
    requires LOOP < producers
    ensures Inv(Empty(producers))
  {
    TotalZero(Empty(producers).queues);
    NobodyAnnounces(Empty(producers).announcing);
  }

  lemma {:induction false} NobodyAnnounces(bs: seq<bool>)
    requires forall p :: 0 <= p < |bs| ==> !bs[p]
    ensures Announcing(bs) == 0
  {
    if bs != [] { NobodyAnnounces(bs[1..]); }
  }

  lemma StepInv(s: State, a: Action)
    requires Inv(s) && Enabled(s, a)
    ensures Inv(Do(s, a))
  {
    hide Total, Announcing;
    match a
    case Enqueue(p, t) => StepEnqueue(s, p, t);
    case Increment(p) => AnnouncingUpdate(s.announcing, p, false);
    case Start =>
    case TryDequeue(p) => StepDequeue(s, p);
    case Finish =>
    case Count =>
  }

  lemma StepEnqueue(s: State, p: nat, t: Task)
    requires Inv(s) && Enabled(s, Enqueue(p, t))
    ensures Inv(Do(s, Enqueue(p, t)))
  {
    TotalUpdate(s.queues, p, s.queues[p] + [t]);
    AnnouncingUpdate(s.announcing, p, true);
    hide Total, Announcing;
    assert s.submitted[p] + [t] == s.ran[p] + (s.queues[p] + [t]);
  }

  lemma StepDequeue(s: State, p: nat)
    requires Inv(s) && Enabled(s, TryDequeue(p))
    ensures Inv(Do(s, TryDequeue(p)))
  {
    var q := s.queues[p];
    TotalUpdate(s.queues, p, q[1..]);
    TotalUpdate(s.ran, p, s.ran[p] + [q[0]]);
    hide Total, Announcing;
    assert q == [q[0]] + q[1..];
    assert s.submitted[p] == (s.ran[p] + [q[0]]) + q[1..];
  }

  ghost predicate Feasible(s: State, acts: seq<Action>)
    requires Inv(s)
    decreases |acts|
  {
    acts == [] || (Enabled(s, acts[0]) && (StepInv(s, acts[0]); Feasible(Do(s, acts[0]), acts[1..])))
  }

  /** Any interleaving of producers and consumer. */
  ghost function Run(s: State, acts: seq<Action>): State
    requires Inv(s) && Feasible(s, acts)
    decreases |acts|
  {
    if acts == [] then s else StepInv(s, acts[0]); Run(Do(s, acts[0]), acts[1..])
  }

  lemma {:induction false} RunInv(s: State, acts: seq<Action>)
    requires Inv(s) && Feasible(s, acts)
    ensures Inv(Run(s, acts))
    decreases |acts|
  {
    if acts != [] {
      StepInv(s, acts[0]);
      RunInv(Do(s, acts[0]), acts[1..]);
    }
  }

  ghost predicate Reachable(producers: nat, acts: seq<Action>) {
    LOOP < producers && (EmptyInv(producers); Feasible(Empty(producers), acts))
  }

  ghost function After(producers: nat, acts: seq<Action>): State
    requires Reachable(producers, acts)
  {
    EmptyInv(producers); Run(Empty(producers), acts)
  }

  /** In every reachable state the counter is not negative, and a consumer that
      spins on the queue finds an element. */
  lemma CounterSafe(producers: nat, acts: seq<Action>)
    requires Reachable(producers, acts)
    ensures var s := After(producers, acts);
      s.size >= 0 && (s.phase.Dequeue? ==> exists p :: Enabled(s, TryDequeue(p)))
  {
    EmptyInv(producers);
    RunInv(Empty(producers), acts);
    var s := After(producers, acts);
    if s.phase.Dequeue? {
      if forall p :: 0 <= p < |s.queues| ==> s.queues[p] == [] {
        TotalZero(s.queues);
      }
      var p :| 0 <= p < |s.queues| && s.queues[p] != [];
      assert Enabled(s, TryDequeue(p));
    }
  }

  /** Each task runs exactly once and in its producer's order: what a producer
      submitted is what ran followed by what is still queued. */
  lemma ExactlyOnceInOrder(producers: nat, acts: seq<Action>, p: nat)
    requires Reachable(producers, acts) && p < producers
    ensures var s := After(producers, acts);
      p < |s.queues| == |s.submitted| == |s.ran| && s.submitted[p] == s.ran[p] + s.queues[p]
  {
    EmptyInv(producers);
    RunInv(Empty(producers), acts);
    SameProducers(Empty(producers), acts);
  }

  lemma {:induction false} SameProducers(s: State, acts: seq<Action>)
    requires Inv(s) && Feasible(s, acts)
    ensures |Run(s, acts).queues| == |s.queues|
    decreases |acts|
  {
    if acts != [] {
      StepInv(s, acts[0]);
      SameProducers(Do(s, acts[0]), acts[1..]);
    }
  }

  ghost predicate NoStart(acts: seq<Action>) { forall i :: 0 <= i < |acts| ==> !acts[i].Start? }

  /** One `process`, from its snapshot to its return, runs exactly as many tasks as
      the counter said at its start, whatever is queued meanwhile. */
  lemma ProcessRunsSnapshot(s: State, acts: seq<Action>)
    requires Inv(s) && Enabled(s, Start) && Inv(Do(s, Start)) && Feasible(Do(s, Start), acts) && NoStart(acts)
    requires Run(Do(s, Start), acts).phase.Idle?
    ensures Total(Run(Do(s, Start), acts).ran) == Total(s.ran) + s.size
  {
    RunInv(Do(s, Start), acts);
    SameProcess(Do(s, Start), acts);
  }

  lemma {:induction false} SameProcess(s: State, acts: seq<Action>)
    requires Inv(s) && Feasible(s, acts) && NoStart(acts)
    ensures var d := Run(s, acts); d.snapshot == s.snapshot && d.base == s.base
    decreases |acts|
  {
    if acts != [] {
      StepInv(s, acts[0]);
      SameProcess(Do(s, acts[0]), acts[1..]);
    }
  }

  /** `isIdle` can be trusted once no producer is between its two steps: then
      every task submitted has run. */
  lemma IdleMeansAllRan(producers: nat, acts: seq<Action>)
    requires Reachable(producers, acts)
    requires var s := After(producers, acts);
      s.phase.Idle? && s.size == 0 && forall p :: 0 <= p < |s.announcing| ==> !s.announcing[p]
    ensures After(producers, acts).submitted == After(producers, acts).ran
  {
    EmptyInv(producers);
    RunInv(Empty(producers), acts);
    var s := After(producers, acts);
    NobodyAnnounces(s.announcing);
    forall p | 0 <= p < |s.queues|
      ensures s.submitted[p] == s.ran[p]
    {
      TotalAtLeast(s.queues, p);
    }
  }

  lemma {:induction false} TotalAtLeast(qs: seq<seq<Task>>, p: nat)
    requires p < |qs|
    ensures Total(qs) >= |qs[p]|
    decreases p
  {
    if p > 0 { TotalAtLeast(qs[1..], p - 1); }
  }

  // ---------- the history is that of the actions ----------

  /** The tasks producer `p` enqueued, in the order in which it did. */
  function EnqueuedBy(acts: seq<Action>, p: nat): seq<Task> {
    if acts == [] then []
    else (if acts[0].Enqueue? && acts[0].p == p then [acts[0].task] else []) + EnqueuedBy(acts[1..], p)
  }

  /** How often the consumer took a task of producer `p`. */
  function TakenFrom(acts: seq<Action>, p: nat): nat {
    if acts == [] then 0
    else (if acts[0].TryDequeue? && acts[0].p == p then 1 else 0) + TakenFrom(acts[1..], p)
  }

  lemma {:induction false} RunHistory(s: State, acts: seq<Action>, p: nat)
    requires Inv(s) && Feasible(s, acts) && p < |s.queues|
    ensures var d := Run(s, acts);
      && |d.queues| == |d.submitted| == |d.ran| == |s.queues|
      && d.submitted[p] == s.submitted[p] + EnqueuedBy(acts, p) && |d.ran[p]| == |s.ran[p]| + TakenFrom(acts, p)
    decreases |acts|
  {
    hide Do, Total, Announcing;
    if acts == [] {
      assert s.submitted[p] + [] == s.submitted[p];
    } else {
      StepInv(s, acts[0]);
      StepHistory(s, acts[0], p);
      var s1 := Do(s, acts[0]);
      RunHistory(s1, acts[1..], p);
      var first := if acts[0].Enqueue? && acts[0].p == p then [acts[0].task] else [];
      assert s.submitted[p] + (first + EnqueuedBy(acts[1..], p)) == (s.submitted[p] + first) + EnqueuedBy(acts[1..], p);
    }
  }

  lemma StepHistory(s: State, a: Action, p: nat)
    requires Inv(s) && Enabled(s, a) && p < |s.queues|
    ensures var d := Do(s, a);
      && |d.queues| == |d.submitted| == |d.ran| == |s.queues|
      && d.submitted[p] == s.submitted[p] + (if a.Enqueue? && a.p == p then [a.task] else [])
      && |d.ran[p]| == |s.ran[p]| + (if a.TryDequeue? && a.p == p then 1 else 0)
  {
    hide Total, Announcing;
  }

  /** First in, first out, over the actions themselves: the tasks of a producer that
      have run are those it enqueued first, as many as the consumer took. */
  lemma FirstInFirstOut(producers: nat, acts: seq<Action>, p: nat)
    requires Reachable(producers, acts) && p < producers
    ensures TakenFrom(acts, p) <= |EnqueuedBy(acts, p)|
    ensures var s := After(producers, acts);
      && p < |s.ran| == |s.queues|
      && s.ran[p] == EnqueuedBy(acts, p)[..TakenFrom(acts, p)]
      && s.queues[p] == EnqueuedBy(acts, p)[TakenFrom(acts, p)..]
  {
    EmptyInv(producers);
    RunHistory(Empty(producers), acts, p);
    RunInv(Empty(producers), acts);
    hide Total, Announcing, Enabled;
    var s := After(producers, acts);
    assert Empty(producers).submitted[p] == [] && [] + EnqueuedBy(acts, p) == EnqueuedBy(acts, p);
    assert s.submitted[p] == s.ran[p] + s.queues[p];
  }

  /** The counter counts the steps that touch it. */
  lemma StepCounts(s: State, a: Action)
    requires Inv(s) && Enabled(s, a)
    ensures Do(s, a).size == s.size + (if a.Increment? then 1 else if a.Count? then -1 else 0)
    ensures a.Enqueue? ==> Do(s, a).announcing == s.announcing[a.p := true]
    ensures a.Increment? ==> Do(s, a).announcing == s.announcing[a.p := false]
    ensures !a.Enqueue? && !a.Increment? ==> Do(s, a).announcing == s.announcing
  {
  }

  // ---------- everything queued gets to run ----------

  /** How far the loop is from having run everything. */
  ghost function Work(s: State): nat
    requires Inv(s)
  {
    Announcing(s.announcing) + 5 * Total(s.queues)
    + match s.phase case Running(_) => 6 case Decrement(_) => 5 case Idle => 4 case Dequeue(_) => 3
  }

  /** Nothing is queued, announced or running. */
  ghost predicate Done(s: State) {
    s.phase.Idle? && s.size == 0 && forall p :: 0 <= p < |s.announcing| ==> !s.announcing[p]
  }

  /** A step of the loop, or of a producer that finishes what it began. */
  lemma NextStep(s: State) returns (a: Action)
    requires Inv(s) && !Done(s)
    ensures Enabled(s, a) && !a.Enqueue? && Inv(Do(s, a)) && Work(Do(s, a)) < Work(s)
  {
    match s.phase {
      case Running(_) => a := if s.announcing[LOOP] then Increment(LOOP) else Finish;
      case Decrement(_) => a := Count;
      case Dequeue(_) =>
        var p := SomeQueued(s);
        a := TryDequeue(p);
      case Idle =>
        if p :| 0 <= p < |s.announcing| && s.announcing[p] {
          a := Increment(p);
        } else {
          a := Start;
        }
    }
    StepInv(s, a);
    hide Total, Announcing, Done;
    WorkStep(s, a);
  }

  lemma SomeQueued(s: State) returns (p: nat)
    requires Inv(s) && s.phase.Dequeue?
    ensures p < |s.queues| && s.queues[p] != []
  {
    if forall p :: 0 <= p < |s.queues| ==> s.queues[p] == [] {
      TotalZero(s.queues);
    }
    p :| 0 <= p < |s.queues| && s.queues[p] != [];
  }

  lemma WorkStep(s: State, a: Action)
    requires Inv(s) && Enabled(s, a) && !a.Enqueue? && Inv(Do(s, a)) && (a.Start? ==> s.size > 0)
    ensures Work(Do(s, a)) < Work(s)
  {
    hide Total, Announcing;
    match a
    case Increment(p) => AnnouncingUpdate(s.announcing, p, false);
    case TryDequeue(p) => TotalUpdate(s.queues, p, s.queues[p][1..]);
    case _ =>
  }

  /** A producer between two posts can always post; the loop thread can while a task
      runs or between two calls of `process`. */
  lemma CanEnqueue(s: State, p: nat, t: Task)
    requires Inv(s) && p < |s.queues| && !s.announcing[p]
    ensures Enabled(s, Enqueue(p, t)) <==> p != LOOP || s.phase.Running? || s.phase.Idle?
  {
    hide Total, Announcing;
  }

  /** From every state, with nobody enqueuing anything more, the loop can run all
      that was submitted. */
  lemma {:induction false} EverythingRuns(s: State) returns (acts: seq<Action>)
    requires Inv(s)
    ensures Feasible(s, acts) && forall i :: 0 <= i < |acts| ==> !acts[i].Enqueue?
    ensures var d := Run(s, acts); Done(d) && d.ran == d.submitted == s.submitted
    decreases Work(s)
  {
    if Done(s) {
      acts := [];
      AllRan(s);
    } else {
      var a := NextStep(s);
      var rest := EverythingRuns(Do(s, a));
      acts := [a] + rest;
      assert acts[1..] == rest;
      SameSubmitted(s, a);
      hide Done, Do, Enabled;
    }
  }

  lemma SameSubmitted(s: State, a: Action)
    requires Inv(s) && Enabled(s, a) && !a.Enqueue?
    ensures Do(s, a).submitted == s.submitted
  {
  }

  lemma AllRan(s: State)
    requires Inv(s) && Done(s)
    ensures s.ran == s.submitted
  {
    NobodyAnnounces(s.announcing);
    forall p | 0 <= p < |s.queues|
      ensures s.submitted[p] == s.ran[p]
    {
      TotalAtLeast(s.queues, p);
      assert s.queues[p] == [] && s.ran[p] + [] == s.ran[p];
    }
  }
}
