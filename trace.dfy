/** The records of a trace as the decoder holds them (lktrace/src/event.rs):
    the fixed `TraceHead` the emulator writes for every system call entry
    (IN) and exit (OUT), the payloads that follow it, and the decoded
    `TraceEvent` and per-thread `TraceFlow`. */
module Trace {
  import opened Numbers

  /** Direction of a record: the call's entry or its return. */
  const IN: u64 := 1
  const OUT: u64 := 0

  const LK_MAGIC: u16 := 0xABCD
  /** `scause` of an environment call from user mode. */
  const USER_ECALL: u64 := 8
  /** `-100i64 as u64`. */
  const AT_FDCWD: u64 := 0xFFFF_FFFF_FFFF_FF9C

  /** `size_of::<TraceHead>()`: two u16, a u32 and 24 u64 fields, unpadded. */
  const TE_SIZE: nat := 200

  datatype TraceHead = TraceHead(
    magic: u16,
    headsize: u16,
    totalsize: u32,
    inout: u64,
    cause: u64,
    epc: u64,
    ax: Regs,
    usp: u64,
    stack: Regs,
    origA0: u64,
    satp: u64,
    tp: u64,
    sscratch: u64)

  datatype TracePayload = TracePayload(inout: u64, index: nat, data: seq<byte>)

  datatype SigStage = Empty | Enter(signo: u64) | Exit(signo: u64)

  datatype TraceEvent = TraceEvent(
    head: TraceHead,
    result: i64,
    payloads: seq<TracePayload>,
    signal: SigStage,
    rawFmt: bool,
    level: nat)

  /** The events of one thread, and the interrupted events its signal
      handlers will return to. */
  datatype TraceFlow = TraceFlow(events: seq<TraceEvent>, signalStack: seq<TraceEvent>)

  const ZERO_REGS: Regs := [0, 0, 0, 0, 0, 0, 0, 0]

  /** `TraceHead::default()`. */
  const DEFAULT_HEAD: TraceHead :=
    TraceHead(0, 0, 0, 0, 0, 0, ZERO_REGS, 0, ZERO_REGS, 0, 0, 0, 0)

  /** `TraceEvent::default()`. */
  const DEFAULT_EVENT: TraceEvent := TraceEvent(DEFAULT_HEAD, 0, [], Empty, false, 0)

  /** The eight u64 words stored little-endian from offset `at`. */
  function Words(b: seq<byte>, at: nat): (w: Regs)
    requires at + 64 <= |b|
  {
    seq(8, i requires 0 <= i < 8 => FieldLE(b, at + 8 * i, 8))
  }

  /** `transmute::<[u8; TE_SIZE], TraceHead>` on a little-endian host: the
      `repr(C)` fields at their natural offsets. */
  function DecodeHead(b: seq<byte>): TraceHead
    requires |b| == TE_SIZE
  {
    TraceHead(
      FieldLE(b, 0, 2), FieldLE(b, 2, 2), FieldLE(b, 4, 4),
      FieldLE(b, 8, 8), FieldLE(b, 16, 8), FieldLE(b, 24, 8),
      Words(b, 32), FieldLE(b, 96, 8), Words(b, 104),
      FieldLE(b, 168, 8), FieldLE(b, 176, 8), FieldLE(b, 184, 8), FieldLE(b, 192, 8))
  }
}
