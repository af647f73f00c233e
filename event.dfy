/** Decoding one trace record and the helpers of lktrace/src/event.rs that
    are not per-syscall rendering: `parse_event`, `parse_sigaction`,
    `parse_usize`, and the thread-id masking map behind `mask_tid`. */
module Event {
  import opened Fallible
  import opened Numbers
  import opened Text
  import opened Trace
  import opened Stream
  import opened Payload
  import opened Signal

  // Panic messages.
  const CAUSE_ASSERT: string := "assertion `left == right` failed: cause"
  const SIGACTION_RANGE: string := "range end index 24 out of range"

  // ------------------------------------------------------------ parse_event

  /** `parse_event(reader, level)` on the unread bytes `s`: the event and the
      number of bytes it took. The head must record a user-mode environment
      call; payloads are read only when the record is larger than its head. */
  function ParseEventSpec(s: seq<byte>, level: nat): (r: Result<(TraceEvent, nat)>)
    ensures r.Ok? ==> TE_SIZE <= r.value.1 <= |s|
  {
    if |s| < TE_SIZE then Err(UnexpectedEof)
    else EventAfterHead(DecodeHead(s[..TE_SIZE]), s[TE_SIZE..], level)
  }

  /** The rest of `parse_event` once the head is decoded, on the bytes
      after it. */
  function EventAfterHead(head: TraceHead, s: seq<byte>, level: nat): (r: Result<(TraceEvent, nat)>)
    ensures r.Ok? ==> TE_SIZE <= r.value.1 <= TE_SIZE + |s|
  {
    if head.cause != USER_ECALL then Err(Panic(CAUSE_ASSERT))
    else if head.totalsize > head.headsize then
      match ParsePayloadsSpec(s, head.inout, head.totalsize - head.headsize)
      case Err(e) => Err(e)
      case Ok((ps, n)) => Ok((TraceEvent(head, 0, ps, Empty, false, level), TE_SIZE + n))
    else Ok((TraceEvent(head, 0, [], Empty, false, level), TE_SIZE))
  }

  method ParseEvent(reader: Reader, level: nat) returns (r: Result<TraceEvent>)
    modifies reader
    ensures var spec := ParseEventSpec(old(reader.rest), level);
            (r.Ok? <==> spec.Ok?)
            && (r.Ok? ==> r.value == spec.value.0 && spec.value.1 <= |old(reader.rest)|
                          && reader.rest == old(reader.rest)[spec.value.1..])
            && (r.Err? ==> r.error == spec.error)
  {
    ghost var s := reader.rest;
    var buf :- reader.ReadExact(TE_SIZE);
    var head := DecodeHead(buf);
    if head.cause != USER_ECALL {
      return Err(Panic(CAUSE_ASSERT));
    }
    var payloads := [];
    if head.totalsize > head.headsize {
      payloads :- ParsePayloads(reader, head.inout, head.totalsize - head.headsize);
      ghost var n := ParsePayloadsSpec(s[TE_SIZE..], head.inout, head.totalsize - head.headsize).value.1;
      assert s[TE_SIZE..][n..] == s[TE_SIZE + n..];
    }
    r := Ok(TraceEvent(head, 0, payloads, Empty, false, level));
  }

  /** The payload gate: a record no larger than its head carries no payload
      and takes exactly `TE_SIZE` bytes; a larger one takes its head plus
      exactly the declared excess, which its payloads fill and which must
      exceed one payload head. Every decoded event starts unpaired: result
      0, no signal stage, the caller's level. */
  lemma ParseEventGating(s: seq<byte>, level: nat)
    requires ParseEventSpec(s, level).Ok?
    ensures var (e, n) := ParseEventSpec(s, level).value;
            e.head == DecodeHead(s[..TE_SIZE]) && e.head.cause == USER_ECALL
            && e.result == 0 && e.signal == Empty && !e.rawFmt && e.level == level
            && (e.head.totalsize <= e.head.headsize ==> e.payloads == [] && n == TE_SIZE)
            && (e.head.totalsize > e.head.headsize ==>
                  e.head.totalsize - e.head.headsize > PH_SIZE
                  && n == TE_SIZE + (e.head.totalsize - e.head.headsize)
                  && Footprint(e.payloads) == e.head.totalsize - e.head.headsize)
  {
    var head := DecodeHead(s[..TE_SIZE]);
    if head.totalsize > head.headsize {
      PayloadLoopConserves(s[TE_SIZE..], head.inout, head.totalsize - head.headsize);
    }
  }

  /** A record whose declared excess is nonzero but no larger than one
      payload head is rejected by the assertion in `parse_payloads`. */
  lemma ParseEventShortRegion(s: seq<byte>, level: nat)
    requires |s| >= TE_SIZE
    requires DecodeHead(s[..TE_SIZE]).cause == USER_ECALL
    requires 0 < DecodeHead(s[..TE_SIZE]).totalsize - DecodeHead(s[..TE_SIZE]).headsize <= PH_SIZE
    ensures ParseEventSpec(s, level) == Err(Panic(SIZE_ASSERT))
  {
  }

  // -------------------------------------------------------- parse_sigaction

  /** `size_of::<SigAction>()`: three `usize` words. */
  const SIGACTION_SIZE: nat := 24

  /** `parse_sigaction`: the first payload's leading 24 bytes as a
      `SigAction`, with that payload's argument index; nothing without
      payloads, a slice panic when the payload is shorter. */
  function ParseSigaction(evt: TraceEvent): (r: Result<Option<(SigAction, nat)>>)
    ensures r.Ok? && r.value.Some? ==> |evt.payloads| > 0 && r.value.value.1 == evt.payloads[0].index
    ensures r.Ok? <==> |evt.payloads| == 0 || |evt.payloads[0].data| >= SIGACTION_SIZE
    ensures r.Ok? ==> (r.value.None? <==> |evt.payloads| == 0)
  {
    if |evt.payloads| == 0 then Ok(None)
    else
      var p := evt.payloads[0];
      if |p.data| < SIGACTION_SIZE then Err(Panic(SIGACTION_RANGE))
      else
        var flags: u64 := FieldLE(p.data, 8, 8);
        Ok(Some((SigAction(FieldLE(p.data, 0, 8), flags as bv64, FieldLE(p.data, 16, 8)), p.index)))
  }

  /** The 24 bytes of a `SigAction` as the kernel's structure lays them out. */
  function EncodeSigaction(handler: u64, flags: u64, mask: u64): (b: seq<byte>)
    ensures |b| == SIGACTION_SIZE
  {
    LeBytes(handler, 8) + LeBytes(flags, 8) + LeBytes(mask, 8)
  }

  /** Round trip: a payload that starts with an encoded `SigAction` yields
      it back, with the payload's index, whatever follows. */
  lemma ParseSigactionOfEncoded(evt: TraceEvent, handler: u64, flags: u64, mask: u64, tail: seq<byte>)
    requires |evt.payloads| > 0 && evt.payloads[0].data == EncodeSigaction(handler, flags, mask) + tail
    ensures ParseSigaction(evt) == Ok(Some((SigAction(handler, flags as bv64, mask), evt.payloads[0].index)))
  {
    var d := evt.payloads[0].data;
    assert d[0..8] == LeBytes(handler, 8);
    assert d[8..16] == LeBytes(flags, 8);
    assert d[16..24] == LeBytes(mask, 8);
  }

  // ------------------------------------------------------------- parse_usize

  /** `parse_usize`: trim, insist on a `0x` prefix, and read the rest as
      hexadecimal; every failure is a panic. */
  function ParseUsize(s: string): (r: Result<u64>)
    ensures r.Ok? ==> |Trim(s)| > 2 && Trim(s)[..2] == "0x"
    ensures r.Ok? ==> AllHexDigits(Digits(Trim(s)[2..])) && r.value == HexValue(Digits(Trim(s)[2..]))
  {
    var t := Trim(s);
    if !(|t| >= 2 && t[..2] == "0x") then Err(Panic("input: " + t))
    else FromStrRadix16(t[2..])
  }

  /** `parse_usize` reads back what `{:#x}` writes for any 64-bit value. */
  lemma ParseUsizeOfAltHex(x: u64)
    ensures ParseUsize(AltHex(x)) == Ok(x)
  {
    var s, h := AltHex(x), LowerHex(x);
    assert s == "0x" + h;
    assert IsLowerHexDigit(h[0]) && IsLowerHexDigit(h[|h| - 1]);
    assert s[|s| - 1] == h[|h| - 1];
    TrimNoEdgeSpace(s);
    assert s[2..] == h && Digits(h) == h;
    HexValueOfLowerHex(x);
    assert FromStrRadix16(h) == Ok(x);
  }

  // ---------------------------------------------------------------- mask_tid

  /** The name `mask_tid` gives the `k`-th distinct thread id it sees. */
  function TidName(k: nat): string {
    "tid_" + Decimal(k)
  }

  lemma TidNameInjective(a: nat, b: nat)
    ensures TidName(a) == TidName(b) <==> a == b
  {
    if TidName(a) == TidName(b) {
      assert Decimal(a) == TidName(a)[4..] && Decimal(b) == TidName(b)[4..];
      DecimalInjective(a, b);
    }
  }

  /** The names given out to the first `n` distinct ids. */
  ghost function Issued(n: nat): set<string> {
    set k: nat | k < n :: TidName(k)
  }

  /** The masking map's invariant: distinct ids have distinct names, all
      among those issued so far. */
  ghost predicate ValidTids(m: map<i64, string>) {
    (forall o :: o in m ==> m[o] in Issued(|m|))
    && (forall o1, o2 :: o1 in m && o2 in m && m[o1] == m[o2] ==> o1 == o2)
  }

  /** The name `mask_tid(oid)` returns given the map `m` it finds. */
  function MaskedName(m: map<i64, string>, oid: i64): string {
    if oid in m then m[oid] else TidName(|m|)
  }

  /** The map `mask_tid(oid)` leaves behind. */
  function Remember(m: map<i64, string>, oid: i64): (m': map<i64, string>)
    ensures oid in m'
  {
    if oid in m then m else m[oid := TidName(|m|)]
  }

  /** Stability: once an id is masked, masking it again gives the same
      name and changes nothing; the map only grows, keeping old names. */
  lemma MaskStable(m: map<i64, string>, oid: i64)
    ensures MaskedName(Remember(m, oid), oid) == MaskedName(m, oid)
    ensures Remember(Remember(m, oid), oid) == Remember(m, oid)
    ensures forall o :: o in m ==> o in Remember(m, oid) && Remember(m, oid)[o] == m[o]
    ensures |Remember(m, oid)| == if oid in m then |m| else |m| + 1
  {
  }

  /** Masking keeps distinct ids apart. */
  lemma RememberValid(m: map<i64, string>, oid: i64)
    requires ValidTids(m)
    ensures ValidTids(Remember(m, oid))
  {
    if oid !in m {
      var n := |m|;
      forall o | o in m ensures m[o] != TidName(n) && m[o] in Issued(n + 1) {
        var k: nat :| k < n && m[o] == TidName(k);
        TidNameInjective(k, n);
      }
      assert TidName(n) in Issued(n + 1);
    }
  }

  /** Two masked ids share a name only if they are the same id. */
  lemma MaskDistinct(m: map<i64, string>, a: i64, b: i64)
    requires ValidTids(m)
    ensures MaskedName(Remember(m, a), a) == MaskedName(Remember(Remember(m, a), b), b) <==> a == b
  {
    RememberValid(m, a);
    RememberValid(Remember(m, a), b);
    MaskStable(Remember(m, a), b);
    var m2 := Remember(Remember(m, a), b);
    assert a in m2 && b in m2;
  }

  /** `TID_MAP`: original thread id to its masked name. */
  class TidMap {
    var names: map<i64, string>

    ghost predicate Valid()
      reads this
    {
      ValidTids(names)
    }

    constructor ()
      ensures names == map[] && Valid()
    {
      names := map[];
    }

    /** `mask_tid(oid)`: the name already given, or `tid_<k>` for the `k`
        ids seen before, remembered. */
    method MaskTid(oid: i64) returns (tid: string)
      requires Valid()
      modifies this
      ensures Valid()
      ensures tid == MaskedName(old(names), oid) && names == Remember(old(names), oid)
    {
      RememberValid(names, oid);
      if oid in names {
        tid := names[oid];
      } else {
        tid := TidName(|names|);
        names := names[oid := tid];
      }
    }
  }
}
