/** One outstanding write: `TCPConnection::send` together with the write side of
    `WSProactor`. The channel's pending list appears by its contents; its links
    are the subject of `CompletionList`. */
module WriteProtocol {
  import opened Options
  import opened ByteBuffer

  // ---------- the protocol on values ----------

  /** `outstanding` is the length of the write in flight; `sent` and `completed`
      record what was handed to `send` and what the kernel took, in order. */
  datatype Conn<T> = Conn(writing: bool, outstanding: Option<nat>, buf: seq<T>, sent: seq<T>, completed: seq<T>) {
    /** Holds in every state. A write in flight covers the front of the buffer. */
    ghost predicate Inv() {
      && sent == completed + buf
      && (outstanding.Some? ==> writing && 0 < outstanding.value <= |buf|)
      && (!writing ==> buf == [])
    }

    /** The flag tells the truth: a write is in flight exactly while it is set. */
    ghost predicate Healthy() { Inv() && (writing <==> outstanding.Some?) }
  }

  ghost function Fresh<T>(): Conn<T> { Conn(false, None, [], [], []) }

  /** `updatePost`: posts what is buffered unless that write is already there. */
  ghost function UpdatePosted<T>(c: Conn<T>): Conn<T> {
    if c.writing && c.buf != [] && c.outstanding.None? then c.(outstanding := Some(|c.buf|)) else c
  }

  ghost function Sent<T>(c: Conn<T>, data: seq<T>): Conn<T> {
    var c' := c.(buf := c.buf + data, sent := c.sent + data);
    if c.writing then c' else UpdatePosted(c'.(writing := true))
  }

  ghost function Completed<T>(c: Conn<T>): Conn<T>
    requires c.Inv() && c.outstanding.Some?
  {
    var n := c.outstanding.value;
    var c' := c.(outstanding := None, buf := c.buf[n..], completed := c.completed + c.buf[..n]);
    if c'.buf != [] then c'.(outstanding := Some(|c'.buf|)) else c'.(writing := false)
  }

  datatype Event<T> = Send(data: seq<T>) | Complete

  /** A completion needs a write in flight; without one nothing happens. */
  ghost function Step<T>(c: Conn<T>, e: Event<T>): (c': Conn<T>)
    requires c.Inv()
    ensures c'.Inv()
  {
    match e
    case Send(data) =>
      assert c.completed + (c.buf + data) == (c.completed + c.buf) + data;
      Sent(c, data)
    case Complete =>
      if c.outstanding.None? then c
      else
        assert c.completed + c.buf[..c.outstanding.value] + c.buf[c.outstanding.value..] == c.completed + c.buf;
        Completed(c)
  }

  ghost function Run<T>(c: Conn<T>, es: seq<Event<T>>): (c': Conn<T>)
    requires c.Inv()
    ensures c'.Inv()
    decreases |es|
  {
    if es == [] then c else Run(Step(c, es[0]), es[1..])
  }

  /** The condition under which a send leaves the flag telling the truth. */
  ghost predicate GoodEvent<T>(c: Conn<T>, e: Event<T>) { e.Send? ==> e.data != [] || c.writing }

  /** A step from a healthy state is healthy exactly when it is not an empty send
      on an idle connection. */
  lemma HealthyStep<T>(c: Conn<T>, e: Event<T>)
    requires c.Healthy()
    ensures Step(c, e).Healthy() <==> GoodEvent(c, e)
  {
  }

  /** With non-empty sends, in every state of every run: one write is in flight
      exactly while the flag is set, it is within the buffer, and what the kernel
      took followed by the buffer is what was sent, in order. */
  lemma {:induction false} ProtocolHolds<T>(c: Conn<T>, es: seq<Event<T>>)
    requires c.Healthy() && forall i :: 0 <= i < |es| && es[i].Send? ==> es[i].data != []
    ensures Run(c, es).Healthy()
    decreases |es|
  {
    if es != [] {
      HealthyStep(c, es[0]);
      ProtocolHolds(Step(c, es[0]), es[1..]);
    }
  }

  lemma RunOne<T>(c: Conn<T>, e: Event<T>)
    requires c.Inv()
    ensures Run(c, [e]) == Step(c, e)
  {
    hide Step;
    assert [e][1..] == [];
  }

  /** Runs compose. */
  lemma {:induction false} RunAppends<T>(c: Conn<T>, first: seq<Event<T>>, second: seq<Event<T>>)
    requires c.Inv()
    ensures Run(c, first + second) == Run(Run(c, first), second)
    decreases |first|
  {
    hide Step;
    if first == [] {
      assert first + second == second;
    } else {
      RunAppends(Step(c, first[0]), first[1..], second);
      assert (first + second)[1..] == first[1..] + second && (first + second)[0] == first[0];
    }
  }

  /** Everything handed to `send` in a run, in order. */
  ghost function AllSent<T>(es: seq<Event<T>>): seq<T> {
    if es == [] then [] else (if es[0].Send? then es[0].data else []) + AllSent(es[1..])
  }

  /** The history is that of the events: what was sent in a run is the data of its
      sends, and what the kernel took is the front of it. */
  lemma {:induction false} SentHistory<T>(c: Conn<T>, es: seq<Event<T>>)
    requires c.Inv()
    ensures Run(c, es).sent == c.sent + AllSent(es)
    ensures Run(c, es).completed + Run(c, es).buf == c.sent + AllSent(es)
    decreases |es|
  {
    if es == [] {
      assert c.sent + [] == c.sent;
    } else {
      SentHistory(Step(c, es[0]), es[1..]);
      var first := if es[0].Send? then es[0].data else [];
      assert Step(c, es[0]).sent == c.sent + first by { assert c.sent + [] == c.sent; }
      assert c.sent + (first + AllSent(es[1..])) == (c.sent + first) + AllSent(es[1..]);
    }
  }

  /** A completion brings out exactly what was posted, and everything that gathered
      meanwhile is posted at once; the first send posts all of its data. */
  lemma WholeWrites<T>(c: Conn<T>, data: seq<T>)
    requires c.Healthy()
    ensures c.outstanding.Some? ==>
      var d, n := Step(c, Complete), c.outstanding.value;
      d.completed == c.completed + c.buf[..n] && d.buf == c.buf[n..]
      && d.outstanding == if n < |c.buf| then Some(|c.buf| - n) else None
    ensures !c.writing && data != [] ==> Step(c, Send(data)).outstanding == Some(|data|)
  {
  }

  /** While a write is in flight, sends leave its bytes at the front of the buffer:
      what is taken off at its completion is what was posted. */
  lemma {:induction false} InFlightUntouched<T>(c: Conn<T>, es: seq<Event<T>>)
    requires c.Inv() && c.outstanding.Some? && forall i :: 0 <= i < |es| ==> es[i].Send?
    ensures var d, n := Run(c, es), c.outstanding.value;
      d.outstanding == c.outstanding && d.buf[..n] == c.buf[..n] && d.completed == c.completed
    decreases |es|
  {
    if es != [] {
      InFlightUntouched(Step(c, es[0]), es[1..]);
    }
  }

  /** Two completions with no send between them bring everything out. */
  lemma TwoCompletionsDrain<T>(c: Conn<T>)
    requires c.Healthy()
    ensures var d := Run(c, [Complete, Complete]);
      d.completed == c.sent && d.buf == [] && !d.writing && d.outstanding.None?
  {
    var c1 := Step(c, Complete);
    var c2 := Step(c1, Complete);
    assert [Event<T>.Complete, Complete][1..] == [Complete];
    assert Run(c1, [Complete]) == Run(c2, []) by { assert [Event<T>.Complete][1..] == []; }
    assert Run(c, [Complete, Complete]) == c2;
  }

  /** After an empty send on an idle connection nothing is ever written again,
      whatever is sent later. */
  lemma {:induction false} EmptySendStalls<T>(c: Conn<T>, es: seq<Event<T>>)
    requires c.Healthy() && !c.writing
    ensures var d := Run(Step(c, Send([])), es); d.completed == c.sent && d.outstanding.None?
  {
    assert c.sent + [] == c.sent && c.buf + [] == [];
    StalledForever(Step(c, Send([])), es);
  }

  lemma {:induction false} StalledForever<T>(c: Conn<T>, es: seq<Event<T>>)
    requires c.Inv() && c.writing && c.outstanding.None?
    ensures Run(c, es).completed == c.completed && Run(c, es).outstanding.None?
    decreases |es|
  {
    if es != [] {
      StalledForever(Step(c, es[0]), es[1..]);
    }
  }

  // ---------- the implementation ----------

  /** An entry of the channel's pending list; a write remembers the address and
      the length it was posted with. */
  datatype Over<T> = Read | Write(block: array<T>, at: nat, len: nat)

  /** The lengths of the writes among the entries. */
  ghost function Lens<T>(pending: seq<Over<T>>): seq<nat> {
    if pending == [] then []
    else (if pending[0].Write? then [pending[0].len] else []) + Lens(pending[1..])
  }

  lemma {:induction false} LensAppend<T>(a: seq<Over<T>>, b: seq<Over<T>>)
    ensures Lens(a + b) == Lens(a) + Lens(b)
    decreases |a|
  {
    if a == [] {
      assert a + b == b;
    } else {
      assert (a + b)[1..] == a[1..] + b && (a + b)[0] == a[0];
      LensAppend(a[1..], b);
      var first := if a[0].Write? then [a[0].len] else [];
      assert first + (Lens(a[1..]) + Lens(b)) == (first + Lens(a[1..])) + Lens(b);
    }
  }

  lemma {:induction false} NoLens<T>(pending: seq<Over<T>>)
    ensures Lens(pending) == [] <==> forall i :: 0 <= i < |pending| ==> pending[i].Read?
    decreases |pending|
  {
    if pending != [] {
      NoLens(pending[1..]);
      assert forall i :: 0 < i < |pending| ==> pending[i] == pending[1..][i - 1];
    }
  }

  lemma LensOne<T>(over: Over<T>)
    ensures Lens([over]) == if over.Write? then [over.len] else []
  {
    assert [over][1..] == [];
  }

  /** The writes before and after a write among the entries. */
  lemma LensAt<T>(pending: seq<Over<T>>, k: nat)
    requires k < |pending| && pending[k].Write?
    ensures Lens(pending) == Lens(pending[..k]) + [pending[k].len] + Lens(pending[k + 1..])
    ensures Lens(pending[..k] + pending[k + 1..]) == Lens(pending[..k]) + Lens(pending[k + 1..])
  {
    hide Lens;
    var a, x, b := pending[..k], pending[k], pending[k + 1..];
    assert pending == a + ([x] + b);
    LensAppend(a, [x] + b);
    LensAppend([x], b);
    LensOne(x);
    LensAppend(a, b);
    assert Lens(a) + ([x.len] + Lens(b)) == Lens(a) + [x.len] + Lens(b);
  }

  class WSConnection<T(0)> {
    const writeBuf: BufferEndian<T>
    var writing: bool
    var pending: seq<Over<T>>
    ghost var sent: seq<T>
    ghost var completed: seq<T>

    ghost function Abs(): Conn<T>
      requires writeBuf.Valid()
      reads this, writeBuf, writeBuf.buffer
    {
      var lens := Lens(pending);
      Conn(writing, if lens == [] then None else Some(lens[0]), writeBuf.Contents(), sent, completed)
    }

    ghost predicate Valid()
      reads this, writeBuf, writeBuf.buffer
    {
      writeBuf.Valid() && Abs().Inv() && |Lens(pending)| <= 1
    }

    constructor ()
      ensures Valid() && Abs() == Fresh() && fresh(writeBuf) && fresh(writeBuf.buffer)
    {
      writeBuf := new BufferEndian<T>(INITIAL_SIZE);
      writing, pending, sent, completed := false, [Read], [], [];
    }

    method Send(data: seq<T>)
      requires Valid()
      modifies this`writing, this`pending, this`sent, writeBuf, writeBuf.buffer
      ensures Valid() && Abs() == Sent(old(Abs()), data)
    {
      hide BufferEndian.Contents, BufferEndian.Valid, BufferEndian.Shape, Lens;
      ghost var before := writeBuf.Contents();
      writeBuf.Append(data);
      assert completed + (before + data) == (completed + before) + data;
      sent := sent + data;
      if !writing {
        NoLens(pending);
        writing := true;
        ghost var was := pending;
        UpdatePost();
        Posted(was);
      }
    }

    /** A pending write starts at the address where the buffered data is now. */
    ghost predicate PostedHere()
      reads this, writeBuf
    {
      exists i :: 0 <= i < |pending| && pending[i].Write?
        && pending[i].block == writeBuf.buffer && pending[i].at == writeBuf.readerIndex
    }

    /** Posts a write for all that is buffered exactly when the flag is set, there is
        something to write and no pending write starts at its address. */
    method UpdatePost()
      requires writeBuf.Valid()
      modifies this`pending
      ensures pending == old(pending) +
        if writing && writeBuf.Contents() != [] && !old(PostedHere())
        then [Write(writeBuf.buffer, writeBuf.readerIndex, |writeBuf.Contents()|)] else []
    {
      hide BufferEndian.Contents, BufferEndian.Valid;
      if writing {
        var n := writeBuf.ReadableBytes();
        if n == 0 {
          return;
        }
        var i := 0;
        while i < |pending|
          invariant 0 <= i <= |pending|
          invariant forall j :: 0 <= j < i && pending[j].Write? ==>
            pending[j].block != writeBuf.buffer || pending[j].at != writeBuf.readerIndex
        {
          if pending[i].Write? && pending[i].block == writeBuf.buffer && pending[i].at == writeBuf.readerIndex {
            return;
          }
          i := i + 1;
        }
        PostSend();
      }
    }

    /** Any other update of the channel between two steps: the one-write rule
        survives it exactly when the write in flight, if there is one, still starts
        where the buffered data is; after the storage moved a second one goes out. */
    method UpdateOutside()
      requires Valid()
      modifies this`pending
      ensures |Lens(pending)| <= 1 <==> !(Lens(old(pending)) != [] && !old(PostedHere()))
      ensures |Lens(pending)| <= 1 ==> Valid() && Abs() == UpdatePosted(old(Abs()))
    {
      hide BufferEndian.Contents, BufferEndian.Valid, Lens;
      ghost var was := pending;
      UpdatePost();
      if pending != was {
        LensAppend(was, [pending[|was|]]);
        LensOne(pending[|was|]);
      }
      NoLens(was);
    }

    /** The list grew by a first write for all that is buffered, or not at all. */
    lemma Posted(was: seq<Over<T>>)
      requires writeBuf.Valid() && Lens(was) == []
      requires pending == was
        || pending == was + [Write(writeBuf.buffer, writeBuf.readerIndex, |writeBuf.Contents()|)]
      ensures Lens(pending) == if pending == was then [] else [|writeBuf.Contents()|]
    {
      hide Lens;
      if pending != was {
        LensAppend(was, [pending[|was|]]);
        LensOne(pending[|was|]);
      }
    }

    method PostSend()
      requires writeBuf.Valid() && writeBuf.Contents() != []
      modifies this`pending
      ensures pending == old(pending) + [Write(writeBuf.buffer, writeBuf.readerIndex, |writeBuf.Contents()|)]
    {
      var n := writeBuf.ReadableBytes();
      pending := pending + [Write(writeBuf.buffer, writeBuf.readerIndex, n)];
    }

    /** The write at `k` completed in full: its bytes leave the buffer, and what
        has gathered meanwhile is posted. */
    method HandleWrite(k: nat)
      requires Valid() && k < |pending| && pending[k].Write?
      modifies this`writing, this`pending, this`completed, writeBuf`readerIndex, writeBuf`writerIndex
      ensures Valid() && Lens(old(pending)) != []
      ensures Abs() == Completed(old(Abs()))
    {
      hide BufferEndian.Contents, BufferEndian.Valid, Lens, PostedHere;
      var over := pending[k];
      LensAt(pending, k);
      pending := pending[..k] + pending[k + 1..];
      ghost var was := writeBuf.Contents();
      writeBuf.Retrieve(over.len);
      completed := completed + was[..over.len];
      assert completed + was[over.len..] == old(completed) + was;
      var n := writeBuf.ReadableBytes();
      if n > 0 {
        ghost var left := pending;
        PostSend();
        Posted(left);
      } else {
        writing := false;
        assert pending + [] == pending;
        UpdatePost();
      }
    }
  }
}
