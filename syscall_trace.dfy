/** The emulator-side emitter (target/riscv/syscall_trace.c): on a traced
    guest system call, `handle_payload` switches on the syscall number in
    register a7 and, for `openat`, copies a fixed 64-byte window of guest
    memory at the path pointer in a1 into the trace as the payload of
    argument 1. The memory reader and the trace writer are foreign calls;
    they appear here as the classes `GuestMemory` and `Sink`, and the
    `printf` diagnostic as `Console`. */
module SyscallTrace {
  import opened Numbers
  import Text

  // Syscall numbers of syscall_trace.h (the generic Linux table RISC-V uses).
  const NR_IOCTL: u64 := 29
  const NR_FACCESSAT: u64 := 48
  const NR_OPENAT: u64 := 56
  const NR_READ: u64 := 63
  const NR_WRITE: u64 := 64
  const NR_FSTATAT: u64 := 79
  const NR_SET_TID_ADDRESS: u64 := 96
  const NR_SET_ROBUST_LIST: u64 := 99
  const NR_UNAME: u64 := 160
  const NR_BRK: u64 := 214
  const NR_MMAP: u64 := 222
  const NR_MPROTECT: u64 := 226
  const NR_PRLIMIT64: u64 := 261
  const NR_GETRANDOM: u64 := 278

  /** `sizeof(data)` in `do_openat`. */
  const OPENAT_WINDOW: nat := 64

  /** `trace_event_t` as the emitter reads it: the argument registers a0..a7. */
  datatype TraceEvent = TraceEvent(ax: Regs)

  /** One call of `lk_trace_payload(index, evt, data, len, f)`. */
  datatype PayloadRecord = PayloadRecord(index: nat, evt: TraceEvent, data: seq<byte>)

  /** Guest address `base + offset`, wrapping like 64-bit address arithmetic. */
  function GuestAddress(base: u64, offset: nat): u64 {
    (base + offset) % TWO_64
  }

  /** The bytes a debug read at `addr` leaves in a buffer that held `before`:
      a mapped address yields the guest's byte, an unmapped one leaves the
      buffer's own byte (the read is best-effort and reports nothing). */
  function GuestBytes(mapped: map<u64, byte>, addr: u64, before: seq<byte>): (r: seq<byte>)
    ensures |r| == |before|
    ensures forall i :: 0 <= i < |r| && GuestAddress(addr, i) in mapped ==>
              r[i] == mapped[GuestAddress(addr, i)]
    ensures forall i :: 0 <= i < |r| && GuestAddress(addr, i) !in mapped ==> r[i] == before[i]
  {
    seq(|before|, i requires 0 <= i < |before| =>
      var a := GuestAddress(addr, i);
      if a in mapped then mapped[a] else before[i])
  }

  /** The guest's memory, behind `cpu_memory_rw_debug`; the emitter only reads it. */
  class GuestMemory {
    var mapped: map<u64, byte>

    constructor (mapped: map<u64, byte>)
      ensures this.mapped == mapped
    {
      this.mapped := mapped;
    }

    /** `cpu_memory_rw_debug(cs, addr, buf, buf.Length, 0)`: a read. */
    method ReadDebug(addr: u64, buf: array<byte>)
      modifies buf
      ensures buf[..] == GuestBytes(mapped, addr, old(buf[..]))
    {
      ghost var before := buf[..];
      for i := 0 to buf.Length
        invariant buf[i..] == before[i..]
        invariant buf[..i] == GuestBytes(mapped, addr, before)[..i]
      {
        var a := GuestAddress(addr, i);
        if a in mapped {
          buf[i] := mapped[a];
        }
      }
    }
  }

  /** The trace file `f`, to which `lk_trace_payload` appends records. */
  class Sink {
    var records: seq<PayloadRecord>

    constructor ()
      ensures records == []
    {
      records := [];
    }

    method Emit(index: nat, evt: TraceEvent, data: array<byte>, len: nat)
      requires len <= data.Length
      modifies this
      ensures records == old(records) + [PayloadRecord(index, evt, data[..len])]
    {
      records := records + [PayloadRecord(index, evt, data[..len])];
    }
  }

  /** Standard output, where `printf` writes. */
  class Console {
    var lines: seq<string>

    constructor ()
      ensures lines == []
    {
      lines := [];
    }

    method Printf(line: string)
      modifies this
      ensures lines == old(lines) + [line]
    {
      lines := lines + [line];
    }
  }

  /** The line `printf("unknown sysno: %lx\n", sysno)` writes. */
  function UnknownSysnoLine(sysno: u64): string {
    "unknown sysno: " + Text.LowerHex(sysno) + "\n"
  }

  /** The records one dispatch appends, given guest memory and the
      uninitialised contents `stale` of the 64-byte stack buffer. */
  function PayloadsFor(evt: TraceEvent, mapped: map<u64, byte>, stale: seq<byte>): seq<PayloadRecord>
    requires |stale| == OPENAT_WINDOW
  {
    if evt.ax[7] == NR_OPENAT
    then [PayloadRecord(1, evt, GuestBytes(mapped, evt.ax[1], stale))]
    else []
  }

  /** `do_openat`: fill the stack buffer from the guest path pointer, emit it whole. */
  method DoOpenat(mem: GuestMemory, evt: TraceEvent, sink: Sink, stale: seq<byte>)
    requires |stale| == OPENAT_WINDOW
    modifies sink
    ensures sink.records == old(sink.records) + [PayloadRecord(1, evt, GuestBytes(mem.mapped, evt.ax[1], stale))]
  {
    var data := new byte[OPENAT_WINDOW](i => if 0 <= i < |stale| then stale[i] else 0);
    assert data[..] == stale;
    mem.ReadDebug(evt.ax[1], data);
    assert data[..data.Length] == GuestBytes(mem.mapped, evt.ax[1], stale);
    sink.Emit(1, evt, data, data.Length);
  }

  /** `handle_payload`: the switch on a7. */
  method HandlePayload(mem: GuestMemory, evt: TraceEvent, sink: Sink, console: Console, stale: seq<byte>)
    requires |stale| == OPENAT_WINDOW
    modifies sink, console
    ensures sink.records == old(sink.records) + PayloadsFor(evt, mem.mapped, stale)
    ensures console.lines == old(console.lines) +
              (if evt.ax[7] == NR_OPENAT then [] else [UnknownSysnoLine(evt.ax[7])])
    ensures mem.mapped == old(mem.mapped)
  {
    if evt.ax[7] == NR_OPENAT {
      DoOpenat(mem, evt, sink, stale);
    } else {
      console.Printf(UnknownSysnoLine(evt.ax[7]));
    }
  }

  /** An `openat` yields exactly one record, for argument 1, of 64 bytes,
      read from the guest at a1 onward. */
  lemma OpenatEmitsPathWindow(evt: TraceEvent, mapped: map<u64, byte>, stale: seq<byte>)
    requires |stale| == OPENAT_WINDOW && evt.ax[7] == NR_OPENAT
    ensures var ps := PayloadsFor(evt, mapped, stale);
            |ps| == 1 && ps[0].index == 1 && ps[0].evt == evt && |ps[0].data| == OPENAT_WINDOW
            && forall i :: 0 <= i < OPENAT_WINDOW && GuestAddress(evt.ax[1], i) in mapped ==>
                 ps[0].data[i] == mapped[GuestAddress(evt.ax[1], i)]
  {
  }

  /** Any other syscall number yields no record. */
  lemma OtherSysnoEmitsNothing(evt: TraceEvent, mapped: map<u64, byte>, stale: seq<byte>)
    requires |stale| == OPENAT_WINDOW && evt.ax[7] != NR_OPENAT
    ensures PayloadsFor(evt, mapped, stale) == []
  {
  }

  /** Which records are emitted, for which argument and of which length,
      depends on a7 alone. */
  lemma DispatchOnSysnoOnly(e1: TraceEvent, e2: TraceEvent, m1: map<u64, byte>, m2: map<u64, byte>,
                            s1: seq<byte>, s2: seq<byte>)
    requires |s1| == OPENAT_WINDOW && |s2| == OPENAT_WINDOW && e1.ax[7] == e2.ax[7]
    ensures var p1, p2 := PayloadsFor(e1, m1, s1), PayloadsFor(e2, m2, s2);
            |p1| == |p2| && forall k :: 0 <= k < |p1| ==> p1[k].index == p2[k].index && |p1[k].data| == |p2[k].data|
  {
  }
}
