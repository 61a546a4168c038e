/** Whole runs of a `BufferEndian`: an abstract machine over the layout and the
    view, the class as one implementation of it, and what holds of every run. */
module BufferRuns {
  import opened ByteBuffer

  datatype Op<T> =
    | Append(data: seq<T>)
    | Prepend(data: seq<T>)
    | Retrieve(n: nat)
    | Unwrite(n: nat)
    | HasWritten(data: seq<T>)
    | EnsureWritable(n: nat)
    | Shrink(n: nat)

  datatype State<T> = State(layout: Layout, view: seq<T>) {
    ghost predicate Inv() { layout.Ok() && |view| == layout.Readable() }
  }

  ghost predicate Enabled<T>(s: State<T>, op: Op<T>) {
    match op
    case Prepend(data) => |data| <= s.layout.reader
    case Retrieve(n) => n <= |s.view|
    case Unwrite(n) => n <= |s.view|
    case HasWritten(data) => |data| <= s.layout.Writable()
    case _ => true
  }

  /** What an operation means for a plain sequence of bytes. */
  function ViewStep<T>(view: seq<T>, op: Op<T>): seq<T>
    requires op.Retrieve? || op.Unwrite? ==> op.n <= |view|
  {
    match op
    case Append(data) => view + data
    case Prepend(data) => data + view
    case Retrieve(n) => view[n..]
    case Unwrite(n) => view[..|view| - n]
    case HasWritten(data) => view + data
    case EnsureWritable(_) => view
    case Shrink(_) => view
  }

  ghost function LayoutStep<T>(s: State<T>, op: Op<T>): Layout
    requires s.Inv() && Enabled(s, op)
  {
    match op
    case Append(data) => s.layout.Append(|data|)
    case Prepend(data) => s.layout.(reader := s.layout.reader - |data|)
    case Retrieve(n) => s.layout.Retrieve(n)
    case Unwrite(n) => s.layout.(writer := s.layout.writer - n)
    case HasWritten(data) => s.layout.(writer := s.layout.writer + |data|)
    case EnsureWritable(n) => s.layout.EnsureWritable(n)
    case Shrink(n) => s.layout.Shrink(n)
  }

  ghost function Step<T>(s: State<T>, op: Op<T>): (s': State<T>)
    requires s.Inv() && Enabled(s, op)
    ensures s'.Inv()
  {
    hide Layout.EnsureWritable, Layout.Append, Layout.Retrieve, Layout.Shrink;
    State(LayoutStep(s, op), ViewStep(s.view, op))
  }

  ghost predicate Feasible<T>(s: State<T>, ops: seq<Op<T>>)
    requires s.Inv()
    decreases |ops|
  {
    ops == [] || (Enabled(s, ops[0]) && Feasible(Step(s, ops[0]), ops[1..]))
  }

  ghost function Run<T>(s: State<T>, ops: seq<Op<T>>): (s': State<T>)
    requires s.Inv() && Feasible(s, ops)
    ensures s'.Inv()
    decreases |ops|
  {
    if ops == [] then s else Run(Step(s, ops[0]), ops[1..])
  }

  ghost function StateOf<T(0)>(b: BufferEndian<T>): State<T>
    requires b.Valid()
    reads b, b.buffer
  {
    State(b.Shape(), b.Contents())
  }

  /** Every operation of the class is the machine's step. `HasWritten` is the
      caller's write into the writable part followed by the call. */
  method Apply<T(0)>(b: BufferEndian<T>, op: Op<T>)
    requires b.Valid() && Enabled(StateOf(b), op)
    modifies b, b.buffer
    ensures b.Valid() && (b.buffer == old(b.buffer) || fresh(b.buffer))
    ensures StateOf(b) == Step(old(StateOf(b)), op)
  {
    hide BufferEndian.Contents, Layout.EnsureWritable, Layout.Append, Layout.Retrieve, Layout.Shrink;
    match op
    case Append(data) => b.Append(data);
    case Prepend(data) => b.Prepend(data);
    case Retrieve(n) => b.Retrieve(n);
    case Unwrite(n) => b.Unwrite(n);
    case HasWritten(data) =>
      b.Fill(data);
      b.HasWritten(|data|);
    case EnsureWritable(n) => b.EnsureWritableBytes(n);
    case Shrink(n) => b.Shrink(n);
  }

  /** The class refines the machine over every run, not only step by step. */
  method ApplyAll<T(0)>(b: BufferEndian<T>, ops: seq<Op<T>>)
    requires b.Valid() && Feasible(StateOf(b), ops)
    modifies b, b.buffer
    ensures b.Valid() && (b.buffer == old(b.buffer) || fresh(b.buffer))
    ensures StateOf(b) == Run(old(StateOf(b)), ops)
    decreases |ops|
  {
    hide Enabled, Step;
    if ops != [] {
      assert StateOf(b).Inv() && Enabled(StateOf(b), ops[0]);
      Apply(b, ops[0]);
      ApplyAll(b, ops[1..]);
    }
  }

  lemma RunOne<T>(s: State<T>, op: Op<T>)
    requires s.Inv() && Enabled(s, op)
    ensures Feasible(s, [op]) && Run(s, [op]) == Step(s, op)
  {
    hide Enabled, Step;
    assert [op][1..] == [];
  }

  /** Runs compose. */
  lemma {:induction false} RunAppends<T>(s: State<T>, first: seq<Op<T>>, second: seq<Op<T>>)
    requires s.Inv() && Feasible(s, first) && Feasible(Run(s, first), second)
    ensures Feasible(s, first + second) && Run(s, first + second) == Run(Run(s, first), second)
    decreases |first|
  {
    hide Enabled, Step;
    if first == [] {
      assert first + second == second;
    } else {
      RunAppends(Step(s, first[0]), first[1..], second);
      assert (first + second)[1..] == first[1..] + second && (first + second)[0] == first[0];
    }
  }

  /** What the operations do to the content, told by each other: taking back undoes
      appending, taking out undoes prepending, bytes written in place count as
      appended, and making room or shrinking changes nothing. */
  lemma ViewLaws<T>(s: State<T>, data: seq<T>, n: nat)
    requires s.Inv()
    ensures Step(s, Append(data)).view == s.view + data
    ensures Step(Step(s, Append(data)), Op<T>.Unwrite(|data|)).view == s.view
    ensures |data| <= s.layout.reader ==>
      Step(s, Prepend(data)).view == data + s.view
      && Step(Step(s, Prepend(data)), Op<T>.Retrieve(|data|)).view == s.view
    ensures |data| <= s.layout.Writable() ==> Step(s, HasWritten(data)).view == Step(s, Append(data)).view
    ensures Step(s, Op<T>.EnsureWritable(n)).view == s.view == Step(s, Op<T>.Shrink(n)).view
  {
    hide LayoutStep;
    assert (s.view + data)[..|s.view + data| - |data|] == s.view;
  }

  /** Appends, room and shrinking are always possible, taking out and taking back as
      far as there is content. */
  lemma AlwaysEnabled<T>(s: State<T>, data: seq<T>, n: nat)
    requires s.Inv()
    ensures Enabled(s, Append(data)) && Enabled(s, Op<T>.EnsureWritable(n)) && Enabled(s, Op<T>.Shrink(n))
    ensures Enabled(s, Op<T>.Retrieve(n)) <==> n <= |s.view|
    ensures Enabled(s, Op<T>.Unwrite(n)) <==> n <= |s.view|
  {
  }

  /** How much storage there is after a shrink: what a new buffer has, or the content
      with the reserve and the prepend area. */
  lemma ShrinkSize(l: Layout, reserve: nat)
    requires l.Ok()
    ensures l.Shrink(reserve).size
         == Max(CHEAP_PREPEND + INITIAL_SIZE, CHEAP_PREPEND + l.Readable() + reserve)
  {
  }

  /** Storage grows only when the room is not there even after moving the content to
      the front, and then by no more than is asked. */
  lemma GrowsExactly(l: Layout, len: nat)
    requires l.Ok()
    ensures l.EnsureWritable(len).size > l.size
      <==> l.Writable() < len && l.size - l.Readable() < len + CHEAP_PREPEND
    ensures l.EnsureWritable(len).size <= Max(l.size, l.writer + len)
  {
  }

  // ---------- streaming runs: only append and retrieve ----------

  ghost predicate Streaming<T>(ops: seq<Op<T>>) {
    forall i :: 0 <= i < |ops| ==> ops[i].Append? || ops[i].Retrieve?
  }

  /** No state of the run holds more than `m` readable bytes. */
  ghost predicate Within<T>(s: State<T>, ops: seq<Op<T>>, m: nat)
    requires s.Inv() && Feasible(s, ops)
    decreases |ops|
  {
    |s.view| <= m && (ops == [] || Within(Step(s, ops[0]), ops[1..], m))
  }

  lemma {:induction false} StorageStaysBounded<T>(s: State<T>, ops: seq<Op<T>>, m: nat, bound: nat)
    requires s.Inv() && Feasible(s, ops) && Streaming(ops) && Within(s, ops, m)
    requires s.layout.size <= bound && 2 * m + CHEAP_PREPEND - 1 <= bound
    ensures Run(s, ops).layout.size <= bound
    decreases |ops|
  {
    if ops != [] {
      StorageStaysBounded(Step(s, ops[0]), ops[1..], m, bound);
    }
  }

  /** A fresh buffer that never holds more than `m` bytes never needs storage
      beyond its first allocation or twice `m` plus seven. */
  lemma StorageBound<T>(initialSize: nat, ops: seq<Op<T>>, m: nat)
    requires Feasible(State(FreshLayout(initialSize), []), ops) && Streaming(ops)
    requires Within(State(FreshLayout(initialSize), []), ops, m)
    ensures Run(State(FreshLayout(initialSize), []), ops).layout.size
         <= Max(CHEAP_PREPEND + initialSize, 2 * m + 7)
  {
    StorageStaysBounded(State(FreshLayout(initialSize), []), ops, m, Max(CHEAP_PREPEND + initialSize, 2 * m + 7));
  }

  ghost function Appended<T>(ops: seq<Op<T>>): seq<T> {
    if ops == [] then [] else (if ops[0].Append? then ops[0].data else []) + Appended(ops[1..])
  }

  ghost function Retrieved<T>(s: State<T>, ops: seq<Op<T>>): seq<T>
    requires s.Inv() && Feasible(s, ops)
    decreases |ops|
  {
    if ops == [] then []
    else (if ops[0].Retrieve? then s.view[..ops[0].n] else []) + Retrieved(Step(s, ops[0]), ops[1..])
  }

  /** First in, first out, nothing lost: whatever the growth and compaction in
      between, the bytes taken out and those still readable are the bytes put in. */
  lemma {:induction false} StreamConserved<T>(s: State<T>, ops: seq<Op<T>>)
    requires s.Inv() && Feasible(s, ops) && Streaming(ops)
    ensures Retrieved(s, ops) + Run(s, ops).view == s.view + Appended(ops)
    decreases |ops|
  {
    if ops != [] {
      var s' := Step(s, ops[0]);
      StreamConserved(s', ops[1..]);
      var taken := if ops[0].Retrieve? then s.view[..ops[0].n] else [];
      var given := if ops[0].Append? then ops[0].data else [];
      assert taken + s'.view == s.view + given;
      Regroup(taken, Retrieved(s', ops[1..]), Run(s', ops[1..]).view, s'.view, Appended(ops[1..]), s.view, given);
    }
  }

  lemma Regroup<T>(taken: seq<T>, later: seq<T>, end: seq<T>, mid: seq<T>, rest: seq<T>, view: seq<T>, given: seq<T>)
    requires later + end == mid + rest && taken + mid == view + given
    ensures (taken + later) + end == view + (given + rest)
  {
    assert (taken + later) + end == taken + (later + end) == (taken + mid) + rest;
  }
}
