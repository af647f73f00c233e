# lktrace syscall trace decoder and emitter, modelled in Dafny

This project models the core of a RISC-V Linux system-call tracer, which has two halves.

The emitter side lives in the emulator (`target/riscv/syscall_trace.c`). For a traced call it copies guest memory
into a 64-byte stack buffer and appends it to the trace file as a payload record. The source does not say at which
point of the call this runs; the header's only live declaration, `handle_payload_out`, suggests the exit side. It does this only for
`openat`; for any other number it prints a diagnostic.

The decoder (`lktrace`) reads the trace file one record at a time:
- a fixed 200-byte `TraceHead`, then the payloads that fill the record's excess size (`parse_event`,
  `parse_payloads`, `parse_payload`);
- pairs each thread's IN (entry) and OUT (exit) records into events, hands a clone's request to the child thread,
  and tracks entries to and returns from signal handlers through known handler addresses (`analyse` in
  `level1.rs`);
- renders each event as `name(args) -> result, usp: …` (`handle_syscall`, the `do_*` helpers);
- names errors, signals, signal-action flags and mmap flags, and masks thread ids at the comparison level
  (`mask_tid`).

Modelling conventions:
- Every panic of the Rust code is an `Err(Panic(reason))`. These include `assert!`, `unwrap`, `expect`, slice and
  index bounds, and the debug-build overflow checks on `size -= …`, `filesize -= advance` and `-err`.
- An end of file hit by `read_exact` is `Err(UnexpectedEof)`.
- Layouts are decoded little-endian at their `repr(C)` offsets.
- Integers are unbounded; the `as i32`, `as i64` and `as isize` casts are written out as explicit conversions.

Modules:
- `fallible`: `Option`/`Result`.
- `numbers`: fixed widths, casts, little-endian fields.
- `text`: `{:#x}`, `{:#o}`, decimal, `join`, `trim`, `from_str_radix`.
- `cstr`: `CStr::from_bytes_until_nul`, UTF-8, `{:?}` escaping.
- `flags`: the push-if-set name lists.
- `mmap`, `signal`, `errno`, `sysno`: the naming functions and constants.
- `syscall_trace`: the emulator's emitter.
- `stream`: the reader.
- `trace`: the record types.
- `payload`: payload parsing.
- `event`: event decoding, `parse_usize`, `parse_sigaction` and thread-id masking.
- `syscall_table`: the table `handle_syscall` matches on a7.
- `handlers`: per-syscall rendering and `Display`.
- `level1`: the pairing state machine and the `analyse` loop.

Stateful code is modelled as methods on classes or arrays, each proved against a pure specification function:
- the emitter's buffer and sink;
- the reader;
- the `args` vector the handlers rewrite;
- the thread-id map;
- the analyser's maps and stacks.

## Model

| member | source | states |
|---|---|---|
| SyscallTrace.GuestMemory.ReadDebug | target/riscv/syscall_trace.c:10 | the buffer afterwards holds the guest byte at each mapped address and keeps its old byte elsewhere |
| SyscallTrace.Sink.Emit | target/riscv/syscall_trace.c:11 | the trace file gains exactly one payload record with the given index, event and the first `len` buffer bytes |
| SyscallTrace.DoOpenat | target/riscv/syscall_trace.c:7-12 | appends one record for argument 1 holding the 64-byte window read at a1 |
| SyscallTrace.HandlePayload | target/riscv/syscall_trace.c:14-24 | appends the records of the dispatch on a7 and prints "unknown sysno" exactly for other numbers; guest memory is unchanged |
| SyscallTrace.OpenatEmitsPathWindow | target/riscv/syscall_trace.c:16-20 | openat yields one record for argument 1, 64 bytes long, whose mapped bytes are the guest's bytes at a1 onward |
| SyscallTrace.OtherSysnoEmitsNothing | target/riscv/syscall_trace.c:21-23 | every other number yields no record |
| SyscallTrace.DispatchOnSysnoOnly | target/riscv/syscall_trace.c:14-24 | which records are emitted, with which index and length, depends on a7 alone |
| SysNo.EmitterAndDecoderAgree | target/riscv/syscall_trace.h:12-27 | every syscall number the emulator's header defines equals the decoder's constant of the same name |
| Payload.DecodeEncodePayloadHead | lktrace/src/payload.rs:8-15 | the 8-byte payload head decodes back to the magic, index and size written |
| Payload.PayloadAt | lktrace/src/payload.rs:32-47 | one payload takes its head plus `size` data bytes, never more than remain; the only failure is end of file |
| Payload.ParsePayload | lktrace/src/payload.rs:32-47 | reads exactly what `PayloadAt` describes and leaves the reader after it |
| Payload.ParsePayloads | lktrace/src/payload.rs:17-30 | the loop returns what `ParsePayloadsSpec` describes (payloads, errors, bytes consumed) and leaves the reader after the bytes consumed |
| Payload.PayloadLoopConserves | lktrace/src/payload.rs:24-28 | a completed loop consumes exactly `size` bytes; the payloads' frames sum to it; each payload keeps the record's direction and a 16-bit index |
| Payload.ParsePayloadsConserves | lktrace/src/payload.rs:22-29 | a successful parse had a region larger than one head, and the payloads' frames fill it exactly |
| Payload.PayloadLoopOfFrames | lktrace/src/payload.rs:17-47 | round trip: a region made of framed payloads decodes back to them, consuming all of it, whatever follows |
| Payload.ParsePayloadsOfFrames | lktrace/src/payload.rs:17-30 | the same round trip through the assertion of `parse_payloads` |
| Payload.MagicUnchecked | lktrace/src/payload.rs:35-46 | the payload head's magic is never checked: two frames that differ only in it decode alike |
| Payload.PayloadLoopOverrun | lktrace/src/payload.rs:26 | a payload larger than the size still to account for underflows `size` and panics |
| Payload.ParsePayloadsSmallRegion | lktrace/src/payload.rs:22 | a region no larger than one payload head panics |
| Stream.Reader.ReadExact | lktrace/src/payload.rs:34 | gives exactly the next `n` bytes and advances past them, or signals end of file |
| Event.ParseEvent | lktrace/src/event.rs:572-599 | returns what `ParseEventSpec` describes and leaves the reader after the bytes that description consumed |
| Event.ParseEventGating | lktrace/src/event.rs:576-596 | a decoded event has the decoded head, a user ecall cause, result 0, no signal stage and the caller's level; a record no larger than its head has no payloads and takes 200 bytes; a larger one takes its head plus the declared excess, which its payloads fill and which exceeds one payload head |
| Event.ParseEventShortRegion | lktrace/src/event.rs:579-584 | a nonzero excess of at most 8 bytes panics |
| Event.ParseSigaction | lktrace/src/event.rs:556-562 | no payload gives no action; otherwise the first payload must hold 24 bytes, and the action comes with that payload's index |
| Event.ParseSigactionOfEncoded | lktrace/src/event.rs:556-562 | round trip: an encoded handler, flags and mask at the start of the first payload decode back to themselves |
| Event.ParseUsize | lktrace/src/event.rs:601-605 | success only for a trimmed string with a `0x` prefix followed by hex digits, whose value it returns |
| Event.ParseUsizeOfAltHex | lktrace/src/event.rs:601-605 | `parse_usize` reads back every 64-bit value written with `{:#x}` |
| Event.TidNameInjective | lktrace/src/event.rs:238 | `tid_<k>` names are equal exactly when their numbers are |
| Event.MaskStable | lktrace/src/event.rs:233-242 | masking an id again gives the same name and leaves the map unchanged; old names are kept; the map grows by at most one |
| Event.RememberValid | lktrace/src/event.rs:233-242 | masking keeps the map's invariant: distinct ids have distinct names, all among the `tid_<k>` issued so far |
| Event.MaskDistinct | lktrace/src/event.rs:233-242 | two masked ids get the same name exactly when they are the same id |
| Event.TidMap.MaskTid | lktrace/src/event.rs:233-242 | returns the name already given, or `tid_<size>`, remembers it, and keeps the invariant |
| Handlers.DoCommonRendersResult | lktrace/src/event.rs:245-251 | a positive result is shown in hex and reads back exactly; any other result is the error name whose negated code its low 32 bits hold, "Unknown errno", or a panic for i32::MIN; the two renderings never look alike |
| Handlers.PathArg | lktrace/src/event.rs:253-264 | succeeds exactly when there is a first payload, for the expected argument, containing a NUL |
| Handlers.PathArgOfString | lktrace/src/event.rs:258-262 | a NUL-terminated UTF-8 path comes back quoted, whatever follows the NUL |
| Handlers.PathArgNotUtf8 | lktrace/src/event.rs:259-263 | bytes before the NUL that are not UTF-8 show as `[!parse_str_err!]` |
| Handlers.DoPath | lktrace/src/event.rs:253-266 | changes only `args[index]`, to the path argument, and fails exactly when that does |
| Handlers.AtPathCall | lktrace/src/event.rs:268-274 | (also the bodies at 286-302) names `AT_FDCWD`, writes the path into argument 1, then returns `do_common`; no other argument changes |
| Handlers.PathCall | lktrace/src/event.rs:276-284 | writes the path into argument 0, then returns `do_common`; no other argument changes |
| Handlers.StatArg | lktrace/src/event.rs:320-324 | a stat payload must be OUT, for argument 2, and hold a whole 120-byte `KStat` |
| Handlers.StatPassUntouched | lktrace/src/event.rs:311-315 | without a payload for argument 2 the stat argument is left as it was |
| Handlers.StatPassLast | lktrace/src/event.rs:311-315 | the last payload for argument 2 decides the stat argument |
| Handlers.StatPayloads | lktrace/src/event.rs:311-315 | the loop changes only `args[2]`, to the fold `StatPass`, and fails exactly when the fold does |
| Handlers.DoFstatat | lktrace/src/event.rs:304-318 | the stat buffer is rendered only for a zero result, which needs exactly two payloads; the path is as for openat; the result is `do_common`'s |
| Handlers.UnameFieldsStuck | lktrace/src/event.rs:367 | one field without a NUL makes the whole uname fail |
| Handlers.UnameMasksVersion | lktrace/src/event.rs:362-369 | at level 2 the version field is masked: buffers that differ only inside field 3 render alike |
| Handlers.DoUname | lktrace/src/event.rs:351-373 | needs exactly one OUT payload for argument 0 with a whole `utsname`; argument 0 becomes the six fields in braces; the result is in hex |
| Handlers.DoMmap | lktrace/src/event.rs:375-391 | unless raw output is asked for, names the null address, the protection and the flags, and shows an fd of u64::MAX as -1; a result of zero or less is MAP_FAILED |
| Handlers.DoMprotect | lktrace/src/event.rs:436-446 | names the null address and the protection; the result is rendered as `do_common` renders it |
| Handlers.DoRtSigaction | lktrace/src/event.rs:393-401 | names the signal in argument 0 and writes a decoded action into the slot of the payload that carried it; fails on a short action or an index beyond the seven slots |
| Handlers.DoRtSigprocmask | lktrace/src/event.rs:403-434 | succeeds exactly when `how` is known, one payload is consumed per non-null set pointer, every payload is consumed, and each holds 8 bytes; an unknown `how` is the "bad how" panic; the sets are shown in hex or as NULL |
| Handlers.BufferTextLossless | lktrace/src/event.rs:455-460 | the quoted `{:?}` form of a buffer reads back to the bytes before its NUL |
| Handlers.BufferCall | lktrace/src/event.rs:448-485 | (the bodies of do_write and do_read) the fd becomes a signed number; for a watched fd with exactly one payload, that payload must be OUT for argument 1 and becomes argument 1 |
| Handlers.TextsConcat | lktrace/src/event.rs:490-513 | gathering the payloads for one argument keeps stream order across concatenation |
| Handlers.TextsCount | lktrace/src/event.rs:498-512 | exactly the payloads for that argument contribute, one entry each |
| Handlers.DoExecve | lktrace/src/event.rs:487-517 | argument 0 is the last payload for argument 0; arguments 1 and 2 are the payloads for them, in stream order, in braces; other payloads are ignored |
| Handlers.MaskedResultCall | lktrace/src/event.rs:179-211 | (set_tid_address, getpid, getppid) at level 2 the result is the masked thread id and the map remembers it; otherwise it is hex and the map is unchanged |
| Handlers.DoClone | lktrace/src/event.rs:223-230 | the child's id is masked at level 2 except when the result is 0 |
| Handlers.DoKill | lktrace/src/event.rs:188-193 | at level 2 the target pid is read back from argument 0 and masked, and that read must succeed; otherwise nothing changes |
| Handlers.DoWait4 | lktrace/src/event.rs:213-221 | at level 2 the awaited pid is masked and then the reaped id, in that order; otherwise the result is hex and nothing changes |
| SyscallTable.SignatureOf | lktrace/src/event.rs:124-172 | the table shows at most seven arguments; a number without a name is exactly the unhandled one, shown with all seven |
| SyscallTable.SignatureRowsA | lktrace/src/event.rs:125-128 | each number from `ioctl` to `faccessat` reaches its own row, with that row's name, argument count and arm |
| SyscallTable.SignatureRowsB | lktrace/src/event.rs:129-132 | each number from `mkdirat` to `fchmodat` reaches its own row, with that row's name, argument count and arm |
| SyscallTable.SignatureRowsC | lktrace/src/event.rs:133-136 | each number from `fchownat` to `lseek` reaches its own row, with that row's name, argument count and arm |
| SyscallTable.SignatureRowsD | lktrace/src/event.rs:137-140 | each number from `sendfile` to `writev` reaches its own row, with that row's name, argument count and arm |
| SyscallTable.SignatureRowsE | lktrace/src/event.rs:141-144 | each number from `unlinkat` to `set_tid_address` reaches its own row, with that row's name, argument count and arm |
| SyscallTable.SignatureRowsF | lktrace/src/event.rs:145-148 | each number from `set_robust_list` to `brk` reaches its own row, with that row's name, argument count and arm |
| SyscallTable.SignatureRowsG | lktrace/src/event.rs:149-152 | each number from `mount` to `munmap` reaches its own row, with that row's name, argument count and arm |
| SyscallTable.SignatureRowsH | lktrace/src/event.rs:153-157 | each number from `mprotect` to `kill` reaches its own row, with that row's name, argument count and arm |
| SyscallTable.SignatureRowsI | lktrace/src/event.rs:158-161 | each number from `rt_sigaction` to `execve` reaches its own row, with that row's name, argument count and arm |
| SyscallTable.SignatureRowsJ | lktrace/src/event.rs:162-165 | each number from `gettid` to `getpid` reaches its own row, with that row's name, argument count and arm |
| SyscallTable.SignatureRowsK | lktrace/src/event.rs:166-169 | each number from `getppid` to `tgkill` reaches its own row, with that row's name, argument count and arm |
| SyscallTable.SignatureRowsL | lktrace/src/event.rs:170-172 | `wait4` and `getdents64` reach their own rows; `rt_sigreturn` has no row and falls through to the unhandled arm |
| Handlers.ArgumentArm | lktrace/src/event.rs:127-166 | each arm that only rewrites arguments runs its own handler: whether it fails, its outcome and every new argument are exactly as the handler's contract says (`ArgumentEffect`), e.g. `read` shows the buffer only for descriptor 0 and `write` only for 1 and 2 |
| Handlers.ThreadArm | lktrace/src/event.rs:144-170 | each thread-id arm runs its own handler: the outcome, the new arguments and the new id map are exactly as that handler's contract says (`ThreadEffect`); the map changes only at level 2 |
| Handlers.HandleSyscall | lktrace/src/event.rs:123-173 | the name and argument count are the table's; common calls are `do_common` with arguments and map untouched; brk and unknown numbers give the result in hex; every other number gets exactly the effect of the arm its row names (`SyscallEffect`); below level 2 the map never changes |
| Handlers.InitialArgs | lktrace/src/event.rs:534-537 | the seven arguments start as a0..a6 in hex |
| Handlers.DisplayName | lktrace/src/event.rs:540-544 | the shown name is never empty: it falls back to `sys_<a7>` |
| Handlers.RenderedShape | lktrace/src/event.rs:545-552 | a rendered call line shows exactly as many arguments as the table says |
| Handlers.RenderCall | lktrace/src/event.rs:533-552 | `handle_syscall` runs on a0..a6 in hex with the effect `SyscallEffect` states; its panic is the line's, and otherwise the line shows the table's number of the arguments it left, with its result; for common and unknown calls, the exact line |
| Handlers.Render | lktrace/src/event.rs:520-553 | a handler entry is one `Signal[..] enter..` line; any other event must be a user ecall, or the cause assertion panics; a user ecall renders as the exit notice (for a handler's return), the name, the table's number of the arguments `handle_syscall` leaves (as `SyscallEffect` states them) and its result, or fails exactly as `handle_syscall` does; for common and unknown calls, the exact line |
| Level1.SigEnter | lktrace/src/level1.rs:105-108 | the handler-entry event is OUT, marks entry into the signal, and carries it in a0 |
| Level1.Admit | lktrace/src/level1.rs:34-49 | after the lookup the record's thread always has a flow |
| Level1.AdmitNewThread | lktrace/src/level1.rs:34-46 | a new thread must start with IN or a clone's return; it is appended to the task sequence with a fresh flow, and nothing else changes; an OUT start needs a pending clone request, which it pops and which becomes the flow's only event |
| Level1.AdmitKnownThread | lktrace/src/level1.rs:34-35 | a thread with a live flow passes unchanged |
| Level1.AdmitIn | lktrace/src/level1.rs:34-42 | an IN record is always admitted, on the thread's live flow or a fresh empty one |
| Level1.InClone | lktrace/src/level1.rs:62-65 | an IN clone, on a known thread's flow or a new thread's fresh one, goes onto both the clone hand-off stack and its flow; a new thread's flow is then just that record |
| Level1.InSigreturn | lktrace/src/level1.rs:66-69 | an IN rt_sigreturn succeeds exactly when the admitted flow has a parked event, moves it from the signal stack back onto the flow, and drops the record itself; a new thread's first rt_sigreturn is the `unwrap` panic |
| Level1.InExitGroup | lktrace/src/level1.rs:70-74 | an IN exit_group appends itself, hands the flow to `print_events`, and removes the thread's flow; other flows are unchanged; the step never fails, unless printing panics (not modelled) |
| Level1.InOther | lktrace/src/level1.rs:75-77 | any other IN record is appended to the admitted flow; a new thread's flow is then just that record |
| Level1.AdmitOut | lktrace/src/level1.rs:34-46 | an accepted OUT record works on the thread's live flow, or for a clone child's first record on the newest clone request alone |
| Level1.OutMatchesRequest | lktrace/src/level1.rs:81-87 | an accepted OUT record answers the admitted flow's last request, the same syscall; for a clone child's first record that is the inherited clone request |
| Level1.OutCompletes | lktrace/src/level1.rs:110-116 | an ordinary OUT keeps the admitted flow's length and earlier events, and sets the last event's result from a0, appends the OUT payloads after the IN ones, and marks it OUT; the signal stack is unchanged; a clone child's first record leaves just the completed clone request |
| Level1.OutEntersHandler | lktrace/src/level1.rs:98-109 | an OUT to a known handler address is not execve; it tags the admitted flow's last event Exit(a0), parks it on the signal stack (one longer), and puts the handler-entry event in its place (same length); for a clone child's first record the parked event is the inherited clone request |
| Level1.HandlersGrow | lktrace/src/level1.rs:89-94 | the handler set only grows, and an rt_sigaction return with an action adds its handler |
| Level1.StepOutSighand | lktrace/src/level1.rs:89-94 | after an OUT step, the handler set is the one computed from that record |
| Level1.SighandGrows | lktrace/src/level1.rs:89-94 | across a whole step the handler set only grows, and gains every handler an rt_sigaction return installs |
| Level1.AdmitValid | lktrace/src/level1.rs:34-49 | the lookup keeps every flow registered in the task sequence and nonempty, except possibly the new IN one |
| Level1.StepInValid | lktrace/src/level1.rs:52-79 | an IN step leaves every live flow registered and nonempty |
| Level1.StepOutValid | lktrace/src/level1.rs:80-118 | an OUT step leaves every live flow registered and nonempty |
| Level1.NextValid | lktrace/src/level1.rs:20-123 | each iteration keeps the invariant, and the task sequence only grows |
| Level1.OutNeverEmpty | lktrace/src/level1.rs:82 | on a valid state the "No requests in event queue!" expect cannot fire |
| Level1.HeadCheck | lktrace/src/level1.rs:22-31 | a record passes only with the trace magic, a 200-byte head, a total size covering the head and a user ecall cause; a bad magic is reported first |
| Level1.AnalysisValid | lktrace/src/level1.rs:20-123 | whatever state the whole loop ends in satisfies the invariant, and the task sequence only grew |
| Level1.AnalysisShortFile | lktrace/src/level1.rs:20 | a file shorter than one head reads nothing and changes nothing |
| Level1.Analyser.AdmitRecord | lktrace/src/level1.rs:33-49 | updates the analyser's fields exactly as `Admit` describes, failing exactly when it does |
| Level1.Analyser.RecordIn | lktrace/src/level1.rs:52-79 | updates the fields exactly as `StepIn` describes |
| Level1.Analyser.RecordOut | lktrace/src/level1.rs:80-118 | updates the fields exactly as `StepOut` describes |
| Level1.Analyser.Step | lktrace/src/level1.rs:33-120 | one iteration updates the fields exactly as `Next` describes, with the same error |
| Level1.Analyse | lktrace/src/level1.rs:11-123 | the loop ends in the state `Analysis` describes, or with its first error, and that state satisfies the invariant |
| Mmap.ProtName | lktrace/src/mmap.rs:36-60 | "PROT_NONE" for zero, otherwise the names of the set protection bits in table order joined by '\|' |
| Mmap.MapName | lktrace/src/mmap.rs:62-93 | the sharing type, then the names of the set flags in table order, joined by '\|' |
| Mmap.ProtTextSplits | lktrace/src/mmap.rs:40-59 | a nonzero protection's text splits back into exactly its names |
| Mmap.ProtNameListedIffSet | lktrace/src/mmap.rs:40-59 | for nonzero protections, a name is listed exactly when its bit is set |
| Mmap.ProtIgnoresUnnamedBits | lktrace/src/mmap.rs:40-59 | bits without a name change nothing for nonzero protections |
| Mmap.ProtNamesOutsideMask | lktrace/src/mmap.rs:40-59 | a protection with no named bit gets no names |
| Mmap.ProtUnnamedBitIsNotNone | lktrace/src/mmap.rs:37-59 | zero is "PROT_NONE" but 0x10 is the empty string |
| Mmap.MapTextSplits | lktrace/src/mmap.rs:63-92 | a mapping's text splits into exactly one sharing name followed by its flag names |
| Mmap.MapFlagListedIffSet | lktrace/src/mmap.rs:71-92 | a flag's name is listed exactly when its bit is set |
| Mmap.MapIgnoresUnnamedBits | lktrace/src/mmap.rs:62-93 | bits outside the named masks do not change the text |
| Signal.SaFlagName | lktrace/src/signal.rs:50-63 | the set flags in order SA_RESTART, SA_RESTORER joined by '\|', or "0x0" |
| Signal.SaFlagTextCases | lktrace/src/signal.rs:50-63 | the four renderings of the two flags |
| Signal.SaFlagTextDeterminesBits | lktrace/src/signal.rs:50-63 | two flag words render alike exactly when they agree on the two named bits |
| Signal.SigActionTextInjective | lktrace/src/signal.rs:38-48 | equal renderings mean equal handler, equal mask and equal named flags |
| Signal.SigNameUnknown | lktrace/src/signal.rs:65-131 | "SIGUNKNOWN" exactly outside 1..31 and 34..64 |
| Signal.SigNameRealtime | lktrace/src/signal.rs:98-128 | SIGRTMIN, SIGRTMIN+(n-34), SIGRTMAX-(64-n) and SIGRTMAX on their ranges |
| Signal.SigNameInjective | lktrace/src/signal.rs:66-128 | different known numbers get different names |
| Errno.ErrnoName | lktrace/src/errno.rs:18-34 | fails exactly when the low 32 bits are i32::MIN, whose negation overflows |
| Errno.ErrnoNameMatchesCode | lktrace/src/errno.rs:19-28 | a known name is given exactly when the low 32 bits are its negated code |
| Errno.ErrnoNameKnownOrUnknown | lktrace/src/errno.rs:20-32 | every rendering is a known name standing for the negated low 32 bits, or "Unknown errno" |
| Errno.ErrnoNameUnknown | lktrace/src/errno.rs:29-32 | every value that is no negated known code gives "Unknown errno" |
| Errno.ErrnoNameTable | lktrace/src/errno.rs:4-28 | 0, -1, -2, -10, -20, -21, -22, -25 map to OK, EPERM, ENOENT, ECHILD, ENOTDIR, EISDIR, EINVAL, ENOTTY |
| Errno.ErrnoNameLow32 | lktrace/src/errno.rs:19 | only the low 32 bits of the input matter |
| Errno.ErrnoNamePositive | lktrace/src/errno.rs:29-32 | positive values below 2^31 are unknown |
| Errno.ErrnoNameTruncates | lktrace/src/errno.rs:19-22 | 0xffff_ffff is EPERM, and i32::MIN panics |
| CStr.UntilNul | lktrace/src/event.rs:258 | no result exactly when the data holds no NUL; otherwise the bytes before the first NUL |
| CStr.Utf8RoundTrip | lktrace/src/event.rs:259-262 | UTF-8 decoding reads back every string it encodes |
| CStr.UnescapeEscapeAscii | lktrace/src/event.rs:368 | the `{:?}` escape of a byte string reads back to the bytes |
| Text.HexValueOfLowerHex | lktrace/src/event.rs:604 | lower-case hex digits read back to the number written |
| Text.DecimalInjective | lktrace/src/event.rs:238 | decimal renderings are equal only for equal numbers |
| Text.SplitJoin | lktrace/src/mmap.rs:59 | joining names without the separator splits back into them |

## Left out

- Files, the command line and logging are not modelled: `main.rs`, `level0.rs`, opening the trace file, `f.metadata().len()` and `debug!`. The file is a byte sequence given to `Level1.Analyse`, and its length plays the role of the metadata size.
- `print_events`, the final loop that prints the remaining flows, the "Task sequence" dump and the "might be killed" `println!` are not modelled. The model keeps as state what would be printed: the flows handed over at `exit_group`, the remaining flows and the task sequence.
- A panic while printing is not modelled. `print_events` formats each event through `Display`, which runs `handle_syscall`, and several handlers panic on the payloads the emitter does not write: `do_uname` and `do_path` assert that a payload exists, and an unknown `how` is `bad how`. So a flow holding such an event aborts `analyse` at its thread's `exit_group` (level1.rs:72) or in the final loop (level1.rs:126), and so does the `debug!("replay: {}", …)` at level1.rs:116 when debug logging is on. In the model an Ok from `Level1.Next`, `Level1.Analysis` or `Level1.Analyse` means "Ok unless printing panics". Which events panic when rendered is stated by `Handlers.Render`.
- `Level1.InExitGroup` never fails in the model. In the source the step fails when `print_events` panics on one of the flow's events.
- `Level1.Analyse` can end Ok in the model where the source still panics in the final printing loop.
- The `println!` in the unknown branch of `errno_name` is not modelled.
- `TID_MAP` is a global behind a `Mutex` and `Lazy`. It is modelled as one `TidMap` object passed to the handlers, without locking.
- The emulator's buffer starts with unspecified stack contents, modelled as a parameter. Guest bytes the debug read cannot reach keep that content.
- `cpu_memory_rw_debug` and `lk_trace_payload` are foreign calls, modelled by their effect on memory and on the record sink. The header declares `handle_payload_out`, but the defined function is `handle_payload`; the model follows the definition.
- `read_exact` after an end-of-file error leaves the position unspecified. The model empties the reader, and nothing reads after such an error.
- `Handlers.StatText`: the `KStat` fields are decoded little-endian at their `repr(C)` offsets. The six time fields are never shown and are not decoded.
- `Handlers.HandleSyscall`: `args` is modelled with exactly the seven slots `Display` creates.
- `SyscallTable.SignatureOf`: each handler is handed its row's name and argument count, rather than repeating the literal from the source.
- `Level1.Analyse`: `parse_event` is called at level 1, as the loop does. So `mask_tid` never runs during `analyse`, and the comparison-level renderings are reachable only through the handlers themselves.
- A release build is not modelled. There `size -= …` in `parse_payloads` and `filesize -= advance` in `analyse` wrap instead of panicking, so the loops go on until a read hits end of file, and `-err` on i32::MIN in `errno_name` gives "Unknown errno". The model follows the overflow-checking debug build.
- `Mmap.ProtNameListedIffSet` is stated for nonzero protections only. The zero test looks at the whole word, so a word with only unnamed bits renders as the empty string rather than "PROT_NONE" (`Mmap.ProtUnnamedBitIsNotNone`).
- `Errno.ErrnoNamePositive` is stated for values below 2^31 only. Larger positive values are truncated to 32 bits and can name a known error (`Errno.ErrnoNameTruncates`).
