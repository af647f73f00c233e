/** The payload region that follows a trace head (lktrace/src/payload.rs):
    records made of an 8-byte `PayloadHead { magic: u16, index: u16,
    size: u32 }` and exactly `size` data bytes, read until the region's
    declared size is used up. */
module Payload {
  import opened Fallible
  import opened Numbers
  import opened Trace
  import opened Stream

  // Panic messages.
  const SIZE_ASSERT: string := "assertion failed: size > PH_SIZE"

  /** `size_of::<PayloadHead>()`. */
  const PH_SIZE: nat := 8

  datatype PayloadHead = PayloadHead(magic: u16, index: u16, size: u32)

  /** `transmute::<[u8; PH_SIZE], PayloadHead>` on a little-endian host. */
  function DecodePayloadHead(b: seq<byte>): PayloadHead
    requires |b| == PH_SIZE
  {
    PayloadHead(b[0] as int + 0x100 * b[1] as int, b[2] as int + 0x100 * b[3] as int,
                b[4] as int + 0x100 * b[5] as int + 0x1_0000 * b[6] as int + 0x100_0000 * b[7] as int)
  }

  /** The eight bytes the emulator writes for a payload head. */
  function EncodePayloadHead(h: PayloadHead): (b: seq<byte>)
    ensures |b| == PH_SIZE
  {
    [h.magic % 0x100, h.magic / 0x100, h.index % 0x100, h.index / 0x100,
     h.size % 0x100, h.size / 0x100 % 0x100, h.size / 0x1_0000 % 0x100, h.size / 0x100_0000]
  }

  lemma DecodeEncodePayloadHead(h: PayloadHead)
    ensures DecodePayloadHead(EncodePayloadHead(h)) == h
  {
    var n := h.size;
    assert n == n % 0x100 + 0x100 * (n / 0x100);
    assert n / 0x100 == n / 0x100 % 0x100 + 0x100 * (n / 0x1_0000);
    assert n / 0x1_0000 == n / 0x1_0000 % 0x100 + 0x100 * (n / 0x100_0000);
  }

  /** One record on the wire: a head and its data. */
  function Frame(magic: u16, index: u16, data: seq<byte>): (b: seq<byte>)
    requires |data| < TWO_32
    ensures |b| == PH_SIZE + |data|
  {
    EncodePayloadHead(PayloadHead(magic, index, |data|)) + data
  }

  /** `parse_payload` on the bytes `s` still unread: the payload and the
      number of bytes it occupies, or end-of-file from either `read_exact`. */
  function PayloadAt(s: seq<byte>, inout: u64): (r: Result<(TracePayload, nat)>)
    ensures r.Err? ==> r.error == UnexpectedEof
    ensures r.Ok? ==> r.value.1 == PH_SIZE + |r.value.0.data| <= |s|
  {
    if |s| < PH_SIZE then Err(UnexpectedEof)
    else
      var head := DecodePayloadHead(s[..PH_SIZE]);
      if |s| < PH_SIZE + head.size then Err(UnexpectedEof)
      else Ok((TracePayload(inout, head.index, s[PH_SIZE..PH_SIZE + head.size]), PH_SIZE + head.size))
  }

  /** The `while size > 0` loop of `parse_payloads` from `size` remaining
      region bytes: the payloads in stream order and the bytes read, or the
      first failure (an end-of-file, or the overflow panic of
      `size -= PH_SIZE + payload.data.len()` when a record overruns). */
  function PayloadLoop(s: seq<byte>, inout: u64, size: nat): (r: Result<(seq<TracePayload>, nat)>)
    ensures r.Ok? ==> r.value.1 <= |s|
    decreases size
  {
    if size == 0 then Ok(([], 0))
    else
      match PayloadAt(s, inout)
      case Err(e) => Err(e)
      case Ok((p, used)) =>
        if used > size then Err(Panic(SUB_OVERFLOW))
        else Prepend(p, used, PayloadLoop(s[used..], inout, size - used))
  }

  /** The loop's outcome after a first payload `p` that took `used` bytes. */
  function Prepend(p: TracePayload, used: nat, rest: Result<(seq<TracePayload>, nat)>): Result<(seq<TracePayload>, nat)> {
    match rest
    case Err(e) => Err(e)
    case Ok((ps, n)) => Ok(([p] + ps, used + n))
  }

  /** `parse_payloads(reader, inout, size)` on the unread bytes `s`. */
  function ParsePayloadsSpec(s: seq<byte>, inout: u64, size: nat): Result<(seq<TracePayload>, nat)> {
    if size <= PH_SIZE then Err(Panic(SIZE_ASSERT))
    else PayloadLoop(s, inout, size)
  }

  /** `parse_payload`: read a head, then exactly `head.size` data bytes. */
  method ParsePayload(reader: Reader, inout: u64) returns (r: Result<TracePayload>)
    modifies reader
    ensures var spec := PayloadAt(old(reader.rest), inout);
            (r.Ok? <==> spec.Ok?)
            && (r.Ok? ==> r.value == spec.value.0 && reader.rest == old(reader.rest)[spec.value.1..])
            && (r.Err? ==> r.error == spec.error)
  {
    ghost var s := reader.rest;
    var buf :- reader.ReadExact(PH_SIZE);
    var head := DecodePayloadHead(buf);
    var data :- reader.ReadExact(head.size);
    assert s[PH_SIZE..][..head.size] == s[PH_SIZE..PH_SIZE + head.size];
    assert s[PH_SIZE..][head.size..] == s[PH_SIZE + head.size..];
    r := Ok(TracePayload(inout, head.index, data));
  }

  /** `parse_payloads`: the declared region must exceed one head; records
      are read and appended until the remaining size reaches zero. */
  method ParsePayloads(reader: Reader, inout: u64, size0: nat) returns (r: Result<seq<TracePayload>>)
    modifies reader
    ensures var spec := ParsePayloadsSpec(old(reader.rest), inout, size0);
            (r.Ok? <==> spec.Ok?)
            && (r.Ok? ==> r.value == spec.value.0 && reader.rest == old(reader.rest)[spec.value.1..])
            && (r.Err? ==> r.error == spec.error)
  {
    if size0 <= PH_SIZE {
      return Err(Panic(SIZE_ASSERT));
    }
    ghost var start := reader.rest;
    ghost var whole := PayloadLoop(start, inout, size0);
    ghost var read: nat := 0;
    var ret: seq<TracePayload> := [];
    var size: nat := size0;
    AppendNothing(whole);
    while size > 0
      invariant read <= |start| && reader.rest == start[read..]
      invariant whole == Append(ret, read, PayloadLoop(reader.rest, inout, size))
      decreases size
    {
      ghost var here := reader.rest;
      var next := ParsePayload(reader, inout);
      if next.Err? {
        StepErr(here, inout, size);
        return Err(next.error);
      }
      var payload := next.value;
      var used := PH_SIZE + |payload.data|;
      if used > size {
        StepOverrun(here, inout, size);
        return Err(Panic(SUB_OVERFLOW));
      }
      StepOk(here, inout, size, payload, used);
      AppendPrepend(ret, read, payload, used, PayloadLoop(reader.rest, inout, size - used));
      assert start[read..][used..] == start[read + used..];
      size := size - used;
      ret := ret + [payload];
      read := read + used;
    }
    AppendEnd(ret, read, PayloadLoop(reader.rest, inout, 0));
    r := Ok(ret);
  }

  lemma StepErr(s: seq<byte>, inout: u64, size: nat)
    requires size > 0 && PayloadAt(s, inout).Err?
    ensures PayloadLoop(s, inout, size) == Err(PayloadAt(s, inout).error)
  {
  }

  lemma StepOverrun(s: seq<byte>, inout: u64, size: nat)
    requires size > 0 && PayloadAt(s, inout).Ok? && PayloadAt(s, inout).value.1 > size
    ensures PayloadLoop(s, inout, size) == Err(Panic(SUB_OVERFLOW))
  {
  }

  lemma AppendEnd(ps: seq<TracePayload>, n: nat, rest: Result<(seq<TracePayload>, nat)>)
    requires rest == Ok(([], 0))
    ensures Append(ps, n, rest) == Ok((ps, n))
  {
    assert ps + [] == ps;
  }

  /** The loop's outcome after the payloads `ps`, which took `n` bytes. */
  function Append(ps: seq<TracePayload>, n: nat, rest: Result<(seq<TracePayload>, nat)>): Result<(seq<TracePayload>, nat)> {
    match rest
    case Err(e) => Err(e)
    case Ok((qs, m)) => Ok((ps + qs, n + m))
  }

  lemma AppendPrepend(ps: seq<TracePayload>, n: nat, p: TracePayload, used: nat, rest: Result<(seq<TracePayload>, nat)>)
    ensures Append(ps, n, Prepend(p, used, rest)) == Append(ps + [p], n + used, rest)
  {
    if rest.Ok? {
      assert ps + ([p] + rest.value.0) == (ps + [p]) + rest.value.0;
    }
  }

  /** The room a payload takes in the region: its head and its data. */
  function Footprint(ps: seq<TracePayload>): nat {
    if |ps| == 0 then 0 else PH_SIZE + |ps[0].data| + Footprint(ps[1..])
  }

  /** Conservation: a successful loop reads exactly the declared size, the
      records' heads and data fill it exactly, each payload carries the
      caller's direction, and a nonempty region yields a payload. */
  lemma {:induction false} PayloadLoopConserves(s: seq<byte>, inout: u64, size: nat)
    requires PayloadLoop(s, inout, size).Ok?
    ensures var (ps, n) := PayloadLoop(s, inout, size).value;
            n == size && Footprint(ps) == size && n <= |s|
            && (size > 0 ==> |ps| > 0)
            && forall k :: 0 <= k < |ps| ==> ps[k].inout == inout && ps[k].index < 0x1_0000
    decreases size
  {
    if size > 0 {
      var (p, used) := PayloadAt(s, inout).value;
      PayloadLoopConserves(s[used..], inout, size - used);
      var (qs, m) := PayloadLoop(s[used..], inout, size - used).value;
      assert ([p] + qs)[1..] == qs;
    }
  }

  /** `parse_payloads` succeeds only on a region larger than one head, and
      then with payloads that fill it exactly. */
  lemma ParsePayloadsConserves(s: seq<byte>, inout: u64, size: nat)
    requires ParsePayloadsSpec(s, inout, size).Ok?
    ensures size > PH_SIZE
    ensures Footprint(ParsePayloadsSpec(s, inout, size).value.0) == size
  {
    PayloadLoopConserves(s, inout, size);
  }

  /** A wire record: the magic the decoder ignores, the argument index and
      the data. */
  datatype WireRecord = WireRecord(magic: u16, index: u16, data: seq<byte>)

  predicate Encodable(rs: seq<WireRecord>) {
    forall k :: 0 <= k < |rs| ==> |rs[k].data| < TWO_32
  }

  /** The bytes the emulator writes for the records `rs`, in order. */
  function Frames(rs: seq<WireRecord>): (b: seq<byte>)
    requires Encodable(rs)
  {
    if |rs| == 0 then [] else Frame(rs[0].magic, rs[0].index, rs[0].data) + Frames(rs[1..])
  }

  /** What the decoder keeps of the records: index and data, with the
      caller's direction; the magic is dropped unchecked. */
  function Decoded(rs: seq<WireRecord>, inout: u64): (ps: seq<TracePayload>)
    ensures |ps| == |rs|
  {
    if |rs| == 0 then [] else [TracePayload(inout, rs[0].index, rs[0].data)] + Decoded(rs[1..], inout)
  }

  lemma PayloadAtFrame(magic: u16, index: u16, data: seq<byte>, tail: seq<byte>, inout: u64)
    requires |data| < TWO_32
    ensures PayloadAt(Frame(magic, index, data) + tail, inout)
            == Ok((TracePayload(inout, index, data), PH_SIZE + |data|))
  {
    var h := PayloadHead(magic, index, |data|);
    var s := Frame(magic, index, data) + tail;
    assert s[..PH_SIZE] == EncodePayloadHead(h);
    DecodeEncodePayloadHead(h);
    assert s[PH_SIZE..PH_SIZE + |data|] == data;
  }

  /** Round trip: the records the emulator writes, followed by anything,
      parse back to their indices and data in stream order, reading exactly
      the region, whatever the magics. */
  lemma {:induction false} PayloadLoopOfFrames(rs: seq<WireRecord>, tail: seq<byte>, inout: u64)
    requires Encodable(rs)
    ensures PayloadLoop(Frames(rs) + tail, inout, |Frames(rs)|) == Ok((Decoded(rs, inout), |Frames(rs)|))
    decreases |rs|
  {
    if |rs| == 0 {
      assert Frames(rs) + tail == tail;
      assert PayloadLoop(Frames(rs) + tail, inout, |Frames(rs)|) == Ok((Decoded(rs, inout), |Frames(rs)|));
    } else {
      LoopAfterFirst(rs, tail, inout);
      PayloadLoopOfFrames(rs[1..], tail, inout);
      PrependOk(TracePayload(inout, rs[0].index, rs[0].data), PH_SIZE + |rs[0].data|,
                PayloadLoop(Frames(rs[1..]) + tail, inout, |Frames(rs[1..])|), Decoded(rs[1..], inout), |Frames(rs[1..])|);
      assert PayloadLoop(Frames(rs) + tail, inout, |Frames(rs)|) == Ok((Decoded(rs, inout), |Frames(rs)|));
    }
  }

  /** The loop over a stream of records takes the first record, then
      continues over the rest. */
  lemma LoopAfterFirst(rs: seq<WireRecord>, tail: seq<byte>, inout: u64)
    requires Encodable(rs) && |rs| > 0
    ensures Encodable(rs[1..])
    ensures |Frames(rs)| == PH_SIZE + |rs[0].data| + |Frames(rs[1..])|
    ensures Decoded(rs, inout) == [TracePayload(inout, rs[0].index, rs[0].data)] + Decoded(rs[1..], inout)
    ensures PayloadLoop(Frames(rs) + tail, inout, |Frames(rs)|)
            == Prepend(TracePayload(inout, rs[0].index, rs[0].data), PH_SIZE + |rs[0].data|,
                       PayloadLoop(Frames(rs[1..]) + tail, inout, |Frames(rs[1..])|))
  {
    var r := rs[0];
    FramesCons(rs);
    BytesAssoc(Frame(r.magic, r.index, r.data), Frames(rs[1..]), tail);
    LoopAfterFrame(r.magic, r.index, r.data, Frames(rs[1..]) + tail, inout, |Frames(rs[1..])|);
  }

  lemma BytesAssoc(a: seq<byte>, b: seq<byte>, c: seq<byte>)
    ensures (a + b) + c == a + (b + c)
  {
  }

  lemma PrependOk(p: TracePayload, used: nat, rest: Result<(seq<TracePayload>, nat)>, ps: seq<TracePayload>, n: nat)
    requires rest == Ok((ps, n))
    ensures Prepend(p, used, rest) == Ok(([p] + ps, used + n))
  {
  }

  /** One unfolding of the loop over a stream that starts with a record. */
  lemma LoopAfterFrame(magic: u16, index: u16, data: seq<byte>, more: seq<byte>, inout: u64, n: nat)
    requires |data| < TWO_32
    ensures PayloadLoop(Frame(magic, index, data) + more, inout, PH_SIZE + |data| + n)
            == Prepend(TracePayload(inout, index, data), PH_SIZE + |data|, PayloadLoop(more, inout, n))
  {
    var s := Frame(magic, index, data) + more;
    PayloadAtFrame(magic, index, data, more, inout);
    assert s[PH_SIZE + |data|..] == more;
    StepOk(s, inout, PH_SIZE + |data| + n, TracePayload(inout, index, data), PH_SIZE + |data|);
  }

  lemma FramesCons(rs: seq<WireRecord>)
    requires Encodable(rs) && |rs| > 0
    ensures Encodable(rs[1..])
    ensures Frames(rs) == Frame(rs[0].magic, rs[0].index, rs[0].data) + Frames(rs[1..])
  {
    forall k | 0 <= k < |rs[1..]| ensures |rs[1..][k].data| < TWO_32 {
      assert rs[1..][k] == rs[k + 1];
    }
  }

  /** One unfolding of the loop after a payload that fits. */
  lemma StepOk(s: seq<byte>, inout: u64, size: nat, p: TracePayload, used: nat)
    requires 0 < used <= size && used <= |s| && PayloadAt(s, inout) == Ok((p, used))
    ensures PayloadLoop(s, inout, size) == Prepend(p, used, PayloadLoop(s[used..], inout, size - used))
  {
  }

  lemma AppendNothing(rest: Result<(seq<TracePayload>, nat)>)
    ensures Append([], 0, rest) == rest
  {
    if rest.Ok? {
      assert [] + rest.value.0 == rest.value.0;
    }
  }

  /** `parse_payloads` on a region of at least two records' worth, or of
      one record with data, returns exactly the written records. */
  lemma ParsePayloadsOfFrames(rs: seq<WireRecord>, tail: seq<byte>, inout: u64)
    requires Encodable(rs) && |Frames(rs)| > PH_SIZE
    ensures ParsePayloadsSpec(Frames(rs) + tail, inout, |Frames(rs)|) == Ok((Decoded(rs, inout), |Frames(rs)|))
  {
    PayloadLoopOfFrames(rs, tail, inout);
  }

  /** The magic field plays no part: two streams that differ only in a
      record's magic decode alike. */
  lemma MagicUnchecked(m1: u16, m2: u16, index: u16, data: seq<byte>, tail: seq<byte>, inout: u64)
    requires |data| < TWO_32
    ensures PayloadAt(Frame(m1, index, data) + tail, inout) == PayloadAt(Frame(m2, index, data) + tail, inout)
  {
    PayloadAtFrame(m1, index, data, tail, inout);
    PayloadAtFrame(m2, index, data, tail, inout);
  }

  /** A region too short for its first record's data is an overflow panic,
      not a truncated payload. */
  lemma PayloadLoopOverrun(magic: u16, index: u16, data: seq<byte>, tail: seq<byte>, inout: u64, size: nat)
    requires |data| < TWO_32 && 0 < size < PH_SIZE + |data|
    ensures PayloadLoop(Frame(magic, index, data) + tail, inout, size) == Err(Panic(SUB_OVERFLOW))
  {
    PayloadAtFrame(magic, index, data, tail, inout);
  }

  /** A declared region of at most one head's size is rejected outright. */
  lemma ParsePayloadsSmallRegion(s: seq<byte>, inout: u64, size: nat)
    requires size <= PH_SIZE
    ensures ParsePayloadsSpec(s, inout, size).Err? && ParsePayloadsSpec(s, inout, size).error.Panic?
  {
  }
}
