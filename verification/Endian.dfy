/** The integer codec of the buffer. An `intN_t` is its two's complement bit
    pattern, so negative values are included; the machine is little-endian. */
module Endian {
  import opened ByteBuffer

  datatype Order = Little | Big

  const NATIVE: Order := Little

  function Swap16(i: bv16): bv16 {
    ((i & 0x00FF) << 8) | ((i & 0xFF00) >> 8)
  }

  function Swap32(i: bv32): bv32 {
    ((i & 0x000000FF) << 24) | ((i & 0x0000FF00) << 8) | ((i & 0x00FF0000) >> 8) | ((i & 0xFF000000) >> 24)
  }

  function Swap64(i: bv64): bv64 {
    ((i & 0x00000000000000FF) << 56) | ((i & 0x000000000000FF00) << 40)
    | ((i & 0x0000000000FF0000) << 24) | ((i & 0x00000000FF000000) << 8)
    | ((i & 0x000000FF00000000) >> 8) | ((i & 0x0000FF0000000000) >> 24)
    | ((i & 0x00FF000000000000) >> 40) | ((i & 0xFF00000000000000) >> 56)
  }

  datatype Value = I8(b: bv8) | I16(w: bv16) | I32(d: bv32) | I64(q: bv64) {
    function Width(): nat {
      match this case I8(_) => 1 case I16(_) => 2 case I32(_) => 4 case I64(_) => 8
    }
  }

  /** `bit_endian<order>`: unchanged in the machine's own order. */
  function BitEndian(order: Order, v: Value): Value {
    if order == NATIVE then v else
    match v
    case I8(b) => v
    case I16(w) => I16(Swap16(w))
    case I32(d) => I32(Swap32(d))
    case I64(q) => I64(Swap64(q))
  }

  /** Byte `k` of an object in memory, counted from the lowest address. */
  function ByteAt(v: Value, k: nat): bv8
    requires k < v.Width()
  {
    match v
    case I8(b) => b
    case I16(w) => (if k == 0 then w & 0xFF else (w >> 8) & 0xFF) as bv8
    case I32(d) => Byte32(d, k)
    case I64(q) => if k < 4 then Byte32(Lo(q), k) else Byte32(Hi(q), k - 4)
  }

  function Lo(q: bv64): bv32 { (q & 0xFFFFFFFF) as bv32 }
  function Hi(q: bv64): bv32 { (q >> 32) as bv32 }

  function Byte32(d: bv32, k: nat): bv8
    requires k < 4
  {
    (if k == 0 then d & 0xFF else if k == 1 then (d >> 8) & 0xFF else if k == 2 then (d >> 16) & 0xFF
     else (d >> 24) & 0xFF) as bv8
  }

  /** The bytes of an object in memory, lowest address first. */
  function Image(v: Value): (m: seq<bv8>)
    ensures |m| == v.Width()
  {
    seq(v.Width(), k requires 0 <= k < v.Width() => ByteAt(v, k))
  }

  predicate IsWidth(w: nat) { w == 1 || w == 2 || w == 4 || w == 8 }

  function Join32(b0: bv8, b1: bv8, b2: bv8, b3: bv8): bv32 {
    (b0 as bv32) | ((b1 as bv32) << 8) | ((b2 as bv32) << 16) | ((b3 as bv32) << 24)
  }

  function Join64(lo: bv32, hi: bv32): bv64 { (lo as bv64) | ((hi as bv64) << 32) }

  /** The integer of the given width whose memory holds the bytes `m`. */
  function FromImage(width: nat, m: seq<bv8>): (v: Value)
    requires IsWidth(width) && |m| == width
    ensures v.Width() == width
  {
    if width == 1 then I8(m[0])
    else if width == 2 then I16((m[0] as bv16) | ((m[1] as bv16) << 8))
    else if width == 4 then I32(Join32(m[0], m[1], m[2], m[3]))
    else I64(Join64(Join32(m[0], m[1], m[2], m[3]), Join32(m[4], m[5], m[6], m[7])))
  }

  function Encode(order: Order, v: Value): (m: seq<bv8>)
    ensures |m| == v.Width()
  {
    Image(BitEndian(order, v))
  }

  function Decode(order: Order, width: nat, m: seq<bv8>): (v: Value)
    requires IsWidth(width) && |m| == width
    ensures v.Width() == width
  {
    BitEndian(order, FromImage(width, m))
  }

  lemma SwapInvolution(order: Order, v: Value)
    ensures BitEndian(order, BitEndian(order, v)) == v
  {
    match v case I8(_) => case I16(_) => case I32(_) => case I64(_) =>
  }

  /** In the machine's own order the bytes are those in memory, as in `Buffer`. */
  lemma NativeUnchanged(v: Value)
    ensures BitEndian(NATIVE, v) == v && Encode(NATIVE, v) == Image(v)
  {
  }

  /** `bit_endian` for the other order is byte reversal. */
  lemma SwapReversesBytes(v: Value)
    ensures forall k :: 0 <= k < v.Width() ==> Image(BitEndian(Big, v))[k] == Image(v)[v.Width() - 1 - k]
  {
    forall k | 0 <= k < v.Width()
      ensures ByteAt(BitEndian(Big, v), k) == ByteAt(v, v.Width() - 1 - k)
    {
      match v case I8(_) => case I16(_) => case I32(d) => Swap32Bytes(d, k); case I64(q) => Swap64Bytes(q, k);
    }
  }

  lemma Swap32Bytes(d: bv32, k: nat)
    requires k < 4
    ensures Byte32(Swap32(d), k) == Byte32(d, 3 - k)
  {
    if k == 0 {} else if k == 1 {} else if k == 2 {}
  }

  lemma Swap64Bytes(q: bv64, k: nat)
    requires k < 8
    ensures ByteAt(I64(Swap64(q)), k) == ByteAt(I64(q), 7 - k)
  {
    Swap64Halves(q);
    if k < 4 { Swap32Bytes(Hi(q), k); } else { Swap32Bytes(Lo(q), k - 4); }
  }

  lemma Swap64Halves(q: bv64)
    ensures Lo(Swap64(q)) == Swap32(Hi(q)) && Hi(Swap64(q)) == Swap32(Lo(q))
  {
  }

  lemma ImageFaithful(v: Value)
    ensures FromImage(v.Width(), Image(v)) == v
  {
    match v
    case I8(_) => case I16(_) =>
    case I32(d) => Join32Faithful(d);
    case I64(q) =>
      Join32Faithful(Lo(q));
      Join32Faithful(Hi(q));
      HalvesFaithful(q);
  }

  lemma HalvesFaithful(q: bv64)
    ensures Join64(Lo(q), Hi(q)) == q
  {
  }

  lemma Join32Faithful(d: bv32)
    ensures Join32(Byte32(d, 0), Byte32(d, 1), Byte32(d, 2), Byte32(d, 3)) == d
  {
  }

  lemma RoundTrip(order: Order, v: Value)
    ensures Decode(order, v.Width(), Encode(order, v)) == v
  {
    ImageFaithful(BitEndian(order, v));
    SwapInvolution(order, v);
  }

  // ---------- the integer methods of the buffer ----------

  method AppendInt(b: BufferEndian<bv8>, order: Order, v: Value)
    requires b.Valid()
    modifies b, b.buffer
    ensures b.Valid() && (b.buffer == old(b.buffer) || fresh(b.buffer))
    ensures b.Contents() == old(b.Contents()) + Encode(order, v)
  {
    b.Append(Encode(order, v));
  }

  /** Succeeds whenever the prepend area is large enough, and then a read gives
      the value back and leaves what was there before (`PrependThenRead`). */
  method PrependInt(b: BufferEndian<bv8>, order: Order, v: Value)
    requires b.Valid() && v.Width() <= b.readerIndex
    modifies b`readerIndex, b.buffer
    ensures b.Valid() && b.Contents() == Encode(order, v) + old(b.Contents())
  {
    b.Prepend(Encode(order, v));
  }

  method PeekInt(b: BufferEndian<bv8>, order: Order, width: nat) returns (v: Value)
    requires b.Valid() && IsWidth(width) && width <= |b.Contents()|
    ensures v.Width() == width && Encode(order, v) == b.Contents()[..width]
  {
    hide Encode, Decode, BufferEndian.Contents, BufferEndian.Valid;
    var m := b.View(0, width);
    v := Decode(order, width, m);
    DecodeFaithful(order, width, m);
  }

  method ReadInt(b: BufferEndian<bv8>, order: Order, width: nat) returns (v: Value)
    requires b.Valid() && IsWidth(width) && width <= |b.Contents()|
    modifies b`readerIndex, b`writerIndex
    ensures v.Width() == width && Encode(order, v) == old(b.Contents())[..width]
    ensures b.Valid() && b.Contents() == old(b.Contents())[width..]
  {
    v := PeekInt(b, order, width);
    b.Retrieve(width);
  }

  /** Decoding loses nothing either: the value read has exactly these bytes. */
  lemma DecodeFaithful(order: Order, width: nat, m: seq<bv8>)
    requires IsWidth(width) && |m| == width
    ensures Encode(order, Decode(order, width, m)) == m
  {
    var v := FromImage(width, m);
    SwapInvolution(order, v);
    forall k | 0 <= k < width
      ensures ByteAt(v, k) == m[k]
    {
      FromImageAt(width, m, k);
    }
    assert Image(v) == m;
  }

  lemma FromImageAt(width: nat, m: seq<bv8>, k: nat)
    requires IsWidth(width) && |m| == width && k < width
    ensures ByteAt(FromImage(width, m), k) == m[k]
  {
    if width == 4 {
      Join32At(m[0], m[1], m[2], m[3], k);
    } else if width == 8 {
      Join64Halves(Join32(m[0], m[1], m[2], m[3]), Join32(m[4], m[5], m[6], m[7]));
      if k < 4 { Join32At(m[0], m[1], m[2], m[3], k); } else { Join32At(m[4], m[5], m[6], m[7], k - 4); }
    }
  }

  lemma Join32At(b0: bv8, b1: bv8, b2: bv8, b3: bv8, k: nat)
    requires k < 4
    ensures Byte32(Join32(b0, b1, b2, b3), k) == if k == 0 then b0 else if k == 1 then b1 else if k == 2 then b2 else b3
  {
  }

  lemma Join64Halves(lo: bv32, hi: bv32)
    ensures Lo(Join64(lo, hi)) == lo && Hi(Join64(lo, hi)) == hi
  {
  }

  ghost function EncodeAll(order: Order, vs: seq<Value>): seq<bv8> {
    if vs == [] then [] else Encode(order, vs[0]) + EncodeAll(order, vs[1..])
  }

  /** What a sequence of reads of the given widths returns, and what it leaves. */
  ghost function ReadAll(order: Order, widths: seq<nat>, m: seq<bv8>): (seq<Value>, seq<bv8>) {
    if widths == [] || !IsWidth(widths[0]) || widths[0] > |m| then ([], m)
    else
      var (vs, rest) := ReadAll(order, widths[1..], m[widths[0]..]);
      ([Decode(order, widths[0], m[..widths[0]])] + vs, rest)
  }

  ghost function Widths(vs: seq<Value>): seq<nat> {
    if vs == [] then [] else [vs[0].Width()] + Widths(vs[1..])
  }

  /** Any mixture of integers appended is read back value for value. */
  lemma {:induction false} MixedRoundTrip(order: Order, vs: seq<Value>, rest: seq<bv8>)
    ensures ReadAll(order, Widths(vs), EncodeAll(order, vs) + rest) == (vs, rest)
  {
    hide Encode, Decode;
    var m := EncodeAll(order, vs) + rest;
    if vs == [] {
      assert m == rest;
    } else {
      var v, tail := vs[0], vs[1..];
      assert m[..v.Width()] == Encode(order, v);
      assert m[v.Width()..] == EncodeAll(order, tail) + rest;
      assert Widths(vs)[1..] == Widths(tail);
      RoundTrip(order, v);
      MixedRoundTrip(order, tail, rest);
      assert [v] + tail == vs;
    }
  }

  lemma PrependThenRead(order: Order, v: Value, view: seq<bv8>)
    ensures ReadAll(order, [v.Width()], Encode(order, v) + view) == ([v], view)
  {
    assert EncodeAll(order, [v]) + view == Encode(order, v) + view;
    assert Widths([v]) == [v.Width()];
    MixedRoundTrip(order, [v], view);
  }

  lemma {:induction false} EncodeAllAppend(order: Order, vs: seq<Value>, v: Value)
    ensures EncodeAll(order, vs + [v]) == EncodeAll(order, vs) + Encode(order, v)
    decreases |vs|
  {
    hide Encode;
    if vs == [] {
      assert [v][1..] == [] && vs + [v] == [v];
      assert Encode(order, v) + [] == [] + Encode(order, v);
    } else {
      assert (vs + [v])[1..] == vs[1..] + [v];
      EncodeAllAppend(order, vs[1..], v);
      assert Encode(order, vs[0]) + (EncodeAll(order, vs[1..]) + Encode(order, v))
          == (Encode(order, vs[0]) + EncodeAll(order, vs[1..])) + Encode(order, v);
    }
  }

  /** How many of `n` values have been read and how many written after these steps:
      a write needs a value left to write, a read one left to read. */
  function Counts(n: nat, writes: seq<bool>): (c: (nat, nat))
    ensures c.0 <= c.1 <= n
  {
    if writes == [] then (0, 0)
    else
      var c := Counts(n, writes[..|writes| - 1]);
      if writes[|writes| - 1] then (c.0, if c.1 < n then c.1 + 1 else c.1)
      else (if c.0 < c.1 then c.0 + 1 else c.0, c.1)
  }

  /** Writing and reading in any interleaving, across whatever growth and
      compaction it causes: the values come out as they went in. `writes[i]` says
      whether step `i` appends the next value or reads one, by the width of the
      oldest that has not been read. */
  method Exchange(b: BufferEndian<bv8>, order: Order, vs: seq<Value>, writes: seq<bool>)
    returns (got: seq<Value>, put: nat)
    requires b.Valid() && b.Contents() == []
    modifies b, b.buffer
    ensures b.Valid() && (|got|, put) == Counts(|vs|, writes) && got == vs[..|got|]
    ensures b.Contents() == EncodeAll(order, vs[|got|..put])
  {
    hide Encode, EncodeAll, Counts, BufferEndian.Contents, BufferEndian.Valid;
    ExchangeStart(order, vs, writes);
    got, put := [], 0;
    for i := 0 to |writes|
      invariant b.Valid() && (b.buffer == old(b.buffer) || fresh(b.buffer))
      invariant (|got|, put) == Counts(|vs|, writes[..i]) && got == vs[..|got|]
      invariant b.Contents() == EncodeAll(order, vs[|got|..put])
    {
      CountsNext(|vs|, writes, i);
      if writes[i] && put < |vs| {
        EncodeAllAppend(order, vs[|got|..put], vs[put]);
        assert vs[|got|..put] + [vs[put]] == vs[|got|..put + 1];
        AppendInt(b, order, vs[put]);
        put := put + 1;
      } else if !writes[i] && |got| < put {
        ghost var v, tail := vs[|got|], vs[|got| + 1..put];
        ghost var was := b.Contents();
        FrontValue(order, vs, |got|, put);
        var x := ReadInt(b, order, vs[|got|].Width());
        SameValue(order, v, x, was, EncodeAll(order, tail));
        got := got + [x];
      }
    }
    assert writes[..|writes|] == writes;
  }

  lemma ExchangeStart(order: Order, vs: seq<Value>, writes: seq<bool>)
    ensures Counts(|vs|, writes[..0]) == (0, 0) && EncodeAll(order, vs[0..0]) == []
  {
  }

  lemma FrontValue(order: Order, vs: seq<Value>, i: nat, j: nat)
    requires i < j <= |vs|
    ensures EncodeAll(order, vs[i..j]) == Encode(order, vs[i]) + EncodeAll(order, vs[i + 1..j])
  {
    assert vs[i..j][1..] == vs[i + 1..j] && vs[i..j][0] == vs[i];
  }

  lemma CountsNext(n: nat, writes: seq<bool>, i: nat)
    requires i < |writes|
    ensures var c := Counts(n, writes[..i]);
      Counts(n, writes[..i + 1]) == if writes[i] then (c.0, if c.1 < n then c.1 + 1 else c.1)
                                    else (if c.0 < c.1 then c.0 + 1 else c.0, c.1)
  {
    assert writes[..i + 1][..i] == writes[..i];
  }

  lemma SameValue(order: Order, v: Value, x: Value, was: seq<bv8>, rest: seq<bv8>)
    requires x.Width() == v.Width() && was == Encode(order, v) + rest && Encode(order, x) == was[..v.Width()]
    ensures x == v && was[v.Width()..] == rest
  {
    hide Decode;
    assert was[..v.Width()] == Encode(order, v);
    RoundTrip(order, v);
    RoundTrip(order, x);
  }
}
