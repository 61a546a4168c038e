/** One outstanding read: the read side of `WSProactor`. A posted read names the
    place in the receive buffer where the kernel will put the bytes, and the buffer
    is touched again only when it completes. */
module ReadProtocol {
  import opened Options
  import opened ByteBuffer

  const MIN_RECV: nat := 1024
  const EXTRA: nat := 65536

  /** The read without blocking that follows a read which filled its region. */
  datatype Extra = More(bytes: string) | WouldBlock | Failed

  /** An entry is put on the list before the system is asked, and is a read only
      once the system has accepted. */
  datatype Kind = NONE | READ

  datatype Exit = Posted | Refused | Closed | Broken

  class WSReader {
    const readBuf: BufferEndian<char>
    var posted: Option<(nat, nat)>  // index and length of the region handed to the kernel
    var over: Option<Kind>          // the entry on the channel's pending list
    ghost var received: string      // everything the kernel delivered
    ghost var consumed: string      // everything the user took out

    ghost predicate Conserved()
      reads this, readBuf, readBuf.buffer
    {
      readBuf.Valid() && consumed + readBuf.Contents() == received
    }

    /** A posted read covers exactly the writable part, and there is room. */
    ghost predicate Valid()
      reads this, readBuf, readBuf.buffer
    {
      && Conserved() && (posted.Some? <==> over == Some(READ))
      && (posted.Some? ==>
          && posted.value == (readBuf.writerIndex, readBuf.buffer.Length - readBuf.writerIndex)
          && posted.value.1 >= MIN_RECV)
    }

    constructor (accepted: bool)
      ensures Valid() && (posted.Some? <==> accepted) && received == [] && fresh(readBuf) && fresh(readBuf.buffer)
    {
      readBuf := new BufferEndian<char>(INITIAL_SIZE);
      received, consumed := [], [];
      posted, over := None, None;
      new;
      PostRecv(accepted);
    }

    /** `accepted` tells whether the system took the read; if not, the connection is
        closed, nothing is posted, and an entry without a kind stays on the list. */
    method PostRecv(accepted: bool)
      requires Conserved()
      modifies this`posted, this`over, readBuf, readBuf.buffer
      ensures over == Some(if accepted then READ else NONE)
      ensures Valid() && (posted.Some? <==> accepted)
        && (readBuf.buffer == old(readBuf.buffer) || fresh(readBuf.buffer))
      ensures readBuf.Contents() == old(readBuf.Contents())
    {
      over := Some(NONE);
      readBuf.EnsureWritableBytes(MIN_RECV);
      if accepted {
        over := Some(READ);
      }
      posted := if accepted then Some((readBuf.writerIndex, readBuf.buffer.Length - readBuf.writerIndex)) else None;
    }

    /** The kernel puts `bytes` where the read was posted, and the completion makes
        them readable. */
    method Arrive(bytes: string)
      requires Valid() && posted.Some? && |bytes| <= posted.value.1
      modifies this`posted, this`over, this`received, readBuf`writerIndex, readBuf.buffer
      ensures Conserved() && posted == None && over == None && received == old(received) + bytes
      ensures readBuf.Contents() == old(readBuf.Contents()) + bytes
    {
      ghost var was := readBuf.Contents();
      hide BufferEndian.Contents;
      assert posted.value.0 == readBuf.writerIndex;
      readBuf.Fill(bytes);
      readBuf.HasWritten(|bytes|);
      posted, over, received := None, None, received + bytes;
      assert consumed + (was + bytes) == (consumed + was) + bytes;
    }

    /** `handleRead`: `take` is how much the message callback takes out, `accepted`
        whether the system takes the next read. Until an end of stream or an error
        one read is always posted again. */
    method HandleRead(bytes: string, extra: Extra, take: nat, accepted: bool) returns (exit: Exit)
      requires Valid() && posted.Some? && |bytes| <= posted.value.1 && (extra.More? ==> |extra.bytes| <= EXTRA)
      requires take <= |readBuf.Contents()| + |bytes|
      modifies this, readBuf, readBuf.buffer
      ensures Valid() && (readBuf.buffer == old(readBuf.buffer) || fresh(readBuf.buffer))
      ensures (posted.Some? <==> exit == Posted) && (over == Some(NONE) <==> exit == Refused)
      ensures var full := |bytes| == old(posted).value.1;
        && exit == (if bytes == [] then Closed else if full && extra.Failed? then Broken
                    else if accepted then Posted else Refused)
        && received == old(received) + bytes + (if full && extra.More? then extra.bytes else [])
      ensures consumed ==
        if exit == Posted || exit == Refused then received[..|old(consumed)| + take] else old(consumed)
    {
      hide BufferEndian.Contents;
      ghost var was := readBuf.Contents();
      var writable := readBuf.buffer.Length - readBuf.writerIndex;
      Arrive(bytes);
      if bytes == [] {
        return Closed;
      }
      if |bytes| == writable {
        match extra
        case Failed => return Broken;
        case WouldBlock => readBuf.EnsureWritableBytes(MIN_RECV);
        case More(rest) =>
          readBuf.Append(rest);
          assert consumed + (was + bytes + rest) == (consumed + (was + bytes)) + rest;
          received := received + rest;
      }
      Consume(take);
      PostRecv(accepted);
      return if accepted then Posted else Refused;
    }

    /** The message callback takes bytes from the front. */
    method Consume(n: nat)
      requires Conserved() && n <= |readBuf.Contents()|
      modifies this`consumed, readBuf`readerIndex, readBuf`writerIndex
      ensures Conserved() && readBuf.Shape() == old(readBuf.Shape()).Retrieve(n)
      ensures readBuf.Contents() == old(readBuf.Contents())[n..]
      ensures consumed == received[..|old(consumed)| + n]
    {
      hide BufferEndian.Contents;
      ghost var was := readBuf.Contents();
      readBuf.Retrieve(n);
      consumed := consumed + was[..n];
      assert was == was[..n] + was[n..];
      assert received == old(consumed) + was;
    }

    /** Taking bytes out between two completions instead: the posted read stays
        where the buffer expects it exactly when something is left in the buffer or
        the buffer was at its start anyway. */
    method ConsumeOutside(n: nat)
      requires Valid() && posted.Some? && n <= |readBuf.Contents()|
      modifies this`consumed, readBuf`readerIndex, readBuf`writerIndex
      ensures Conserved() && posted == old(posted) && over == old(over)
      ensures Valid() <==> n < |old(readBuf.Contents())| || old(readBuf.writerIndex) == CHEAP_PREPEND
    {
      Consume(n);
    }
  }
}
