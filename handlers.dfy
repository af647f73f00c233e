/** The per-syscall rendering of lktrace/src/event.rs: `handle_syscall`
    picks, from the syscall number in a7, the name and argument count to
    show, rewrites some of the seven hexadecimal argument strings in
    `args`, and renders the result; `Display for TraceEvent` puts them
    together into one line. */
module Handlers {
  import opened Fallible
  import opened Numbers
  import opened Text
  import opened CStr
  import opened Trace
  import opened SysNo
  import opened Errno
  import Mmap
  import opened Signal
  import opened Event
  import opened SyscallTable

  // Panic messages.
  const PAYLOADS_ASSERT: string := "assertion failed: self.payloads.len() >= 1"
  const PAYLOAD_INDEX_ASSERT: string := "assertion `left == right` failed: payload.index"
  const PAYLOAD_INOUT_ASSERT: string := "assertion `left == right` failed: payload.inout"
  const NOT_CSTR: string := "called `Result::unwrap()` on an `Err` value: FromBytesUntilNulError"
  const KSTAT_RANGE: string := "range end index 120 out of range"
  const PAYLOAD_COUNT_ASSERT: string := "assertion `left == right` failed: payloads.len()"
  const PAYLOAD_ASSERT: string := "assertion `left == right` failed: payload"
  const UTSNAME_RANGE: string := "range end index 390 out of range"
  const BAD_HOW: string := "bad how"
  const SIGSET_RANGE: string := "range end index 8 out of range"
  const INDEX_ASSERT: string := "assertion `left == right` failed: index"

  const PARSE_STR_ERR: string := "[!parse_str_err!]"

  /** The triple `handle_syscall` returns: displayed name, how many
      arguments to show, and the rendered result. */
  datatype Outcome = Outcome(name: string, argc: nat, text: string)

  /** `format!("{:#x}", self.result)`. */
  function ResultHex(evt: TraceEvent): string {
    AltHexI64(evt.result)
  }

  // ---------------------------------------------------------------- do_common

  /** `do_common(name, argc)`: an error name for a result of zero or less,
      the result in hexadecimal otherwise. */
  function DoCommon(evt: TraceEvent, name: string, argc: nat): (r: Result<Outcome>)
    ensures r.Ok? ==> r.value.name == name && r.value.argc == argc
  {
    if evt.result <= 0 then
      match ErrnoName(evt.result)
      case Err(e) => Err(e)
      case Ok(n) => Ok(Outcome(name, argc, n))
    else Ok(Outcome(name, argc, ResultHex(evt)))
  }

  /** What `do_common` shows says which case it is in and loses nothing:
      a positive result reads back exactly with `parse_usize`; any other is
      either the name whose negated code the result's low 32 bits hold, or
      "Unknown errno"; the two renderings cannot be confused. */
  lemma DoCommonRendersResult(evt: TraceEvent, name: string, argc: nat)
    ensures evt.result > 0 ==> DoCommon(evt, name, argc).Ok?
                               && ParseUsize(DoCommon(evt, name, argc).value.text) == Ok(evt.result)
    ensures evt.result <= 0 ==> (DoCommon(evt, name, argc).Err? <==> AsI32(evt.result) == -TWO_31)
    ensures evt.result <= 0 && DoCommon(evt, name, argc).Ok? ==>
              var t := DoCommon(evt, name, argc).value.text;
              t == UNKNOWN_ERRNO || (CodeOf(t).Some? && AsI32(evt.result) == -CodeOf(t).value)
    ensures DoCommon(evt, name, argc).Ok? ==>
              var t := DoCommon(evt, name, argc).value.text;
              (evt.result > 0 <==> |t| > 2 && t[..2] == "0x")
  {
    if evt.result > 0 {
      ParseUsizeOfAltHex(evt.result);
    } else if DoCommon(evt, name, argc).Ok? {
      ErrnoNameKnownOrUnknown(evt.result);
    }
  }

  // ------------------------------------------------------------------ do_path

  /** The new argument `do_path(args, index)` writes: the first payload,
      which must exist and be for argument `index`, up to its NUL (which
      must be there), quoted if it is UTF-8 and replaced by a marker if not. */
  function PathArg(evt: TraceEvent, index: nat): (r: Result<string>)
    ensures r.Ok? <==> |evt.payloads| >= 1 && evt.payloads[0].index == index && 0 in evt.payloads[0].data
  {
    if |evt.payloads| < 1 then Err(Panic(PAYLOADS_ASSERT))
    else
      var p := evt.payloads[0];
      if p.index != index then Err(Panic(PAYLOAD_INDEX_ASSERT))
      else
        match UntilNul(p.data)
        case None => Err(Panic(NOT_CSTR))
        case Some(bs) =>
          match Utf8Decode(bs)
          case Some(s) => Ok("\"" + s + "\"")
          case None => Ok(PARSE_STR_ERR)
  }

  /** A path the guest passed as a NUL-terminated UTF-8 string comes back
      quoted, whatever follows the NUL in the window. */
  lemma PathArgOfString(evt: TraceEvent, index: nat, s: string, tail: seq<byte>)
    requires 0 as char !in s
    requires |evt.payloads| >= 1 && evt.payloads[0].index == index
    requires evt.payloads[0].data == Utf8Encode(s) + [0] + tail
    ensures PathArg(evt, index) == Ok("\"" + s + "\"")
  {
    UntilNulOfTerminated(Utf8Encode(s), tail);
    Utf8RoundTrip(s);
  }

  /** Bytes up to the NUL that are not UTF-8 show as the marker. */
  lemma PathArgNotUtf8(evt: TraceEvent, index: nat, bs: seq<byte>, tail: seq<byte>)
    requires 0 !in bs && Utf8Decode(bs).None?
    requires |evt.payloads| >= 1 && evt.payloads[0].index == index
    requires evt.payloads[0].data == bs + [0] + tail
    ensures PathArg(evt, index) == Ok(PARSE_STR_ERR)
  {
    UntilNulOfTerminated(bs, tail);
  }

  /** `do_path(args, index)`: only `args[index]` changes. */
  method DoPath(evt: TraceEvent, args: array<string>, index: nat) returns (r: Result<()>)
    requires index < args.Length
    modifies args
    ensures r.Ok? <==> PathArg(evt, index).Ok?
    ensures r.Ok? ==> args[..] == old(args[..])[index := PathArg(evt, index).value]
  {
    var fname :- PathArg(evt, index);
    args[index] := fname;
    r := Ok(());
  }

  /** `args[0]` of the `*at` calls: `AT_FDCWD` by name. */
  function DirfdArg(evt: TraceEvent, prev: string): string {
    if evt.head.ax[0] == AT_FDCWD then "AT_FDCWD" else prev
  }

  /** The shared body of `do_openat`, `do_faccessat` and `do_unlinkat`:
      name the directory descriptor, show the path in argument 1, then
      `do_common`. */
  method AtPathCall(evt: TraceEvent, args: array<string>, name: string, argc: nat) returns (r: Result<Outcome>)
    requires args.Length == ARG_SLOTS
    modifies args
    ensures r.Ok? <==> PathArg(evt, 1).Ok? && DoCommon(evt, name, argc).Ok?
    ensures r.Ok? ==> r == DoCommon(evt, name, argc)
    ensures r.Ok? ==> args[..] == old(args[..])[0 := DirfdArg(evt, old(args[0]))][1 := PathArg(evt, 1).value]
  {
    if evt.head.ax[0] == AT_FDCWD {
      args[0] := "AT_FDCWD";
    }
    var _ :- DoPath(evt, args, 1);
    r := DoCommon(evt, name, argc);
  }

  /** The shared body of `do_getcwd` and `do_chdir`: the path in argument
      0, then `do_common`. */
  method PathCall(evt: TraceEvent, args: array<string>, name: string, argc: nat) returns (r: Result<Outcome>)
    requires args.Length == ARG_SLOTS
    modifies args
    ensures r.Ok? <==> PathArg(evt, 0).Ok? && DoCommon(evt, name, argc).Ok?
    ensures r.Ok? ==> r == DoCommon(evt, name, argc)
    ensures r.Ok? ==> args[..] == old(args[..])[0 := PathArg(evt, 0).value]
  {
    var _ :- DoPath(evt, args, 0);
    r := DoCommon(evt, name, argc);
  }

  // --------------------------------------------------------------- do_fstatat

  /** `size_of::<KStat>()`: the riscv64 `struct stat` without its trailing
      reserved words. */
  const KSTAT_SIZE: nat := 120

  /** `handle_stat`'s line for a `KStat` laid out little-endian in `k`; the
      comparison level hides the device, inode and block size. */
  function StatText(k: seq<byte>, level: nat): string
    requires |k| == KSTAT_SIZE
  {
    var mode := AltOct(FieldLE(k, 16, 4));
    var nlink := Decimal(FieldLE(k, 20, 4));
    var rdev := Decimal(FieldLE(k, 32, 8));
    var size := Decimal(FieldLE(k, 48, 8));
    var blocks := Decimal(FieldLE(k, 64, 8));
    if level != 2 then
      "{dev=" + AltHex(FieldLE(k, 0, 8)) + ", ino=" + Decimal(FieldLE(k, 8, 8)) + ", mode=" + mode
      + ", nlink=" + nlink + ", rdev=" + rdev + ", size=" + size
      + ", blksize=" + Decimal(FieldLE(k, 56, 4)) + ", blocks=" + blocks + "}"
    else
      "{dev, ino, mode=" + mode + ", nlink=" + nlink + ", rdev=" + rdev + ", size=" + size
      + ", blksize, blocks=" + blocks + "}"
  }

  /** `handle_stat(payload)`: an OUT payload for argument 2 holding at
      least a whole `KStat`. */
  function StatArg(p: TracePayload, level: nat): (r: Result<string>)
    ensures r.Ok? <==> p.inout == OUT && p.index == 2 && |p.data| >= KSTAT_SIZE
  {
    if p.inout != OUT then Err(Panic(PAYLOAD_INOUT_ASSERT))
    else if p.index != 2 then Err(Panic(PAYLOAD_INDEX_ASSERT))
    else if |p.data| < KSTAT_SIZE then Err(Panic(KSTAT_RANGE))
    else Ok(StatText(p.data[..KSTAT_SIZE], level))
  }

  /** `args[2]` after the loop over `ps` that renders every payload for
      argument 2, starting from `cur`. */
  function StatPass(ps: seq<TracePayload>, level: nat, cur: string): Result<string> {
    if |ps| == 0 then Ok(cur)
    else
      match StatPass(ps[..|ps| - 1], level, cur)
      case Err(e) => Err(e)
      case Ok(c) => if ps[|ps| - 1].index == 2 then StatArg(ps[|ps| - 1], level) else Ok(c)
  }

  /** Without a payload for argument 2 the stat argument is left alone; a
      later payload for it wins over an earlier one. */
  lemma {:induction false} StatPassUntouched(ps: seq<TracePayload>, level: nat, cur: string)
    requires forall k :: 0 <= k < |ps| ==> ps[k].index != 2
    ensures StatPass(ps, level, cur) == Ok(cur)
  {
    if |ps| > 0 {
      StatPassUntouched(ps[..|ps| - 1], level, cur);
    }
  }

  lemma StatPassLast(ps: seq<TracePayload>, level: nat, cur: string)
    requires |ps| > 0 && ps[|ps| - 1].index == 2 && StatPass(ps, level, cur).Ok?
    ensures StatPass(ps, level, cur) == StatArg(ps[|ps| - 1], level)
  {
  }

  /** Once a stat payload fails to render, the whole pass fails. */
  lemma {:induction false} StatPassStuck(ps: seq<TracePayload>, level: nat, cur: string, i: nat)
    requires i <= |ps| && StatPass(ps[..i], level, cur).Err?
    ensures StatPass(ps, level, cur).Err?
    decreases |ps| - i
  {
    if i < |ps| {
      assert ps[..i + 1][..i] == ps[..i];
      StatPassStuck(ps, level, cur, i + 1);
    } else {
      assert ps[..i] == ps;
    }
  }

  /** The loop of `do_fstatat` over the payloads: each one for argument 2
      is rendered into `args[2]`. */
  method StatPayloads(ps: seq<TracePayload>, level: nat, args: array<string>) returns (r: Result<()>)
    requires args.Length == ARG_SLOTS
    modifies args
    ensures r.Ok? <==> StatPass(ps, level, old(args[2])).Ok?
    ensures r.Ok? ==> args[..] == old(args[..])[2 := StatPass(ps, level, old(args[2])).value]
  {
    ghost var before := args[..];
    for i := 0 to |ps|
      invariant StatPass(ps[..i], level, before[2]) == Ok(args[2])
      invariant args[..] == before[2 := args[2]]
    {
      var payload := ps[i];
      assert ps[..i + 1][..i] == ps[..i];
      if payload.index == 2 {
        var stat := StatArg(payload, level);
        if stat.Err? {
          StatPassStuck(ps, level, before[2], i + 1);
          return Err(stat.error);
        }
        args[2] := stat.value;
      }
    }
    assert ps[..|ps|] == ps;
    r := Ok(());
  }

  /** `do_fstatat`: the path as for `openat`; the stat buffer is decoded
      only for a zero result, and then there must be exactly two payloads. */
  method DoFstatat(evt: TraceEvent, args: array<string>, name: string, argc: nat) returns (r: Result<Outcome>)
    requires args.Length == ARG_SLOTS
    modifies args
    ensures r.Ok? <==> PathArg(evt, 1).Ok? && DoCommon(evt, name, argc).Ok?
                       && (evt.result == 0 ==> |evt.payloads| == 2 && StatPass(evt.payloads, evt.level, old(args[2])).Ok?)
    ensures r.Ok? ==> r == DoCommon(evt, name, argc)
    ensures r.Ok? && evt.result != 0 ==>
              args[..] == old(args[..])[0 := DirfdArg(evt, old(args[0]))][1 := PathArg(evt, 1).value]
    ensures r.Ok? && evt.result == 0 ==>
              args[..] == old(args[..])[0 := DirfdArg(evt, old(args[0]))][1 := PathArg(evt, 1).value]
                                       [2 := StatPass(evt.payloads, evt.level, old(args[2])).value]
  {
    if evt.head.ax[0] == AT_FDCWD {
      args[0] := "AT_FDCWD";
    }
    var _ :- DoPath(evt, args, 1);
    if evt.result == 0 {
      if |evt.payloads| != 2 {
        return Err(Panic(PAYLOAD_COUNT_ASSERT));
      }
      var _ :- StatPayloads(evt.payloads, evt.level, args);
    }
    r := DoCommon(evt, name, argc);
  }

  // ----------------------------------------------------------------- do_uname

  /** `UTS_LEN + 1`: each of the six `utsname` fields. */
  const UTS_FIELD: nat := 65
  const UTSNAME_SIZE: nat := 390

  /** Field `i` of a `utsname` in `data`: its bytes up to the NUL in
      `{:?}` form, or a placeholder for the version at the comparison
      level; nothing when the field has no NUL. */
  function UnameField(data: seq<byte>, level: nat, i: nat): Option<string>
    requires |data| >= UTSNAME_SIZE && i < 6
  {
    if level == 2 && i == 3 then Some("%timestamp%")
    else
      match UntilNul(data[UTS_FIELD * i..UTS_FIELD * i + UTS_FIELD])
      case None => None
      case Some(bs) => Some(CStrDebug(bs))
  }

  /** The first `k` fields, or nothing if one of them has no NUL. */
  function UnameFields(data: seq<byte>, level: nat, k: nat): (r: Option<seq<string>>)
    requires |data| >= UTSNAME_SIZE && k <= 6
    ensures r.Some? ==> |r.value| == k
  {
    if k == 0 then Some([])
    else
      match UnameFields(data, level, k - 1)
      case None => None
      case Some(fs) =>
        match UnameField(data, level, k - 1)
        case None => None
        case Some(f) => Some(fs + [f])
  }

  /** A field that has no NUL spoils every longer prefix of fields. */
  lemma {:induction false} UnameFieldsStuck(data: seq<byte>, level: nat, i: nat, k: nat)
    requires |data| >= UTSNAME_SIZE && i <= k <= 6 && UnameFields(data, level, i).None?
    ensures UnameFields(data, level, k).None?
    decreases k
  {
    if k > i {
      UnameFieldsStuck(data, level, i, k - 1);
    }
  }

  /** Agreement on a slice carries over to every slice inside it. */
  lemma SubSlice(a: seq<byte>, b: seq<byte>, from: nat, to: nat, lo: nat, hi: nat)
    requires from <= lo <= hi <= to <= |a| && to <= |b| && a[from..to] == b[from..to]
    ensures a[lo..hi] == b[lo..hi]
  {
    forall k | lo <= k < hi
      ensures a[k] == b[k]
    {
      assert a[k] == a[from..to][k - from] && b[k] == b[from..to][k - from];
    }
  }

  /** Outside the version, a field depends only on its own 65 bytes. */
  lemma UnameFieldMasked(d1: seq<byte>, d2: seq<byte>, i: nat)
    requires |d1| >= UTSNAME_SIZE && |d2| >= UTSNAME_SIZE && i < 6
    requires d1[..3 * UTS_FIELD] == d2[..3 * UTS_FIELD]
    requires d1[4 * UTS_FIELD..UTSNAME_SIZE] == d2[4 * UTS_FIELD..UTSNAME_SIZE]
    ensures UnameField(d1, 2, i) == UnameField(d2, 2, i)
  {
    assert d1[0..195] == d2[0..195] && d1[260..390] == d2[260..390];
    if i == 0 {
      SubSlice(d1, d2, 0, 195, 0, 65);
    } else if i == 1 {
      SubSlice(d1, d2, 0, 195, 65, 130);
    } else if i == 2 {
      SubSlice(d1, d2, 0, 195, 130, 195);
    } else if i == 4 {
      SubSlice(d1, d2, 260, 390, 260, 325);
    } else if i == 5 {
      SubSlice(d1, d2, 260, 390, 325, 390);
    }
  }

  /** At the comparison level the version field is masked: two buffers
      that differ only inside field 3 render alike. */
  lemma {:induction false} UnameMasksVersion(d1: seq<byte>, d2: seq<byte>, k: nat)
    requires |d1| >= UTSNAME_SIZE && |d2| >= UTSNAME_SIZE && k <= 6
    requires d1[..3 * UTS_FIELD] == d2[..3 * UTS_FIELD]
    requires d1[4 * UTS_FIELD..UTSNAME_SIZE] == d2[4 * UTS_FIELD..UTSNAME_SIZE]
    ensures UnameFields(d1, 2, k) == UnameFields(d2, 2, k)
  {
    if k > 0 {
      UnameMasksVersion(d1, d2, k - 1);
      UnameFieldMasked(d1, d2, k - 1);
    }
  }

  /** `do_uname`: exactly one OUT payload for argument 0 holding a whole
      `utsname`, shown as its six fields in braces. */
  method DoUname(evt: TraceEvent, args: array<string>, name: string, argc: nat) returns (r: Result<Outcome>)
    requires args.Length == ARG_SLOTS
    modifies args
    ensures r.Ok? <==> |evt.payloads| == 1 && evt.payloads[0].inout == OUT && evt.payloads[0].index == 0
                       && |evt.payloads[0].data| >= UTSNAME_SIZE
                       && UnameFields(evt.payloads[0].data, evt.level, 6).Some?
    ensures r.Ok? ==> r.value == Outcome(name, argc, ResultHex(evt))
                      && args[..] == old(args[..])[0 := "{" + Join(UnameFields(evt.payloads[0].data, evt.level, 6).value, ", ") + "}"]
  {
    if |evt.payloads| != 1 {
      return Err(Panic(PAYLOAD_COUNT_ASSERT));
    }
    var payload := evt.payloads[0];
    if payload.inout != OUT || payload.index != 0 {
      return Err(Panic(PAYLOAD_ASSERT));
    }
    if |payload.data| < UTSNAME_SIZE {
      return Err(Panic(UTSNAME_RANGE));
    }
    var names: seq<string> := [];
    for i := 0 to 6
      invariant UnameFields(payload.data, evt.level, i) == Some(names)
    {
      var field := UnameField(payload.data, evt.level, i);
      if field.None? {
        UnameFieldsStuck(payload.data, evt.level, i + 1, 6);
        return Err(Panic(NOT_CSTR));
      }
      names := names + [field.value];
    }
    args[0] := "{" + Join(names, ", ") + "}";
    r := Ok(Outcome(name, argc, ResultHex(evt)));
  }

  // ------------------------------------------------------ do_mmap, do_mprotect

  /** `args[0]` of `mmap` and `mprotect`: a null address by name. */
  function AddrArg(evt: TraceEvent, prev: string): string {
    if evt.head.ax[0] == 0 then "NULL" else prev
  }

  /** `do_mmap`: unless raw output is asked for, name the null address, the
      protection and the flags, and show an fd of `u64::MAX` as -1; any
      result of zero or less is `MAP_FAILED`. */
  method DoMmap(evt: TraceEvent, args: array<string>, name: string, argc: nat) returns (r: Result<Outcome>)
    requires args.Length == ARG_SLOTS
    modifies args
    ensures r == Ok(Outcome(name, argc, if evt.result <= 0 then "MAP_FAILED" else ResultHex(evt)))
    ensures evt.rawFmt ==> args[..] == old(args[..])
    ensures !evt.rawFmt ==>
              args[..] == old(args[..])[0 := AddrArg(evt, old(args[0]))]
                                       [2 := Mmap.ProtText(evt.head.ax[2] as bv64)]
                                       [3 := Mmap.MapText(evt.head.ax[3] as bv64)]
                                       [4 := if evt.head.ax[4] == U64_MAX then "-1" else old(args[4])]
  {
    if !evt.rawFmt {
      if evt.head.ax[0] == 0 {
        args[0] := "NULL";
      }
      var prot := Mmap.ProtName(evt.head.ax[2] as bv64);
      args[2] := prot;
      var flags := Mmap.MapName(evt.head.ax[3] as bv64);
      args[3] := flags;
      if evt.head.ax[4] == U64_MAX {
        args[4] := "-1";
      }
    }
    if evt.result <= 0 {
      r := Ok(Outcome(name, argc, "MAP_FAILED"));
    } else {
      r := Ok(Outcome(name, argc, ResultHex(evt)));
    }
  }

  /** `do_mprotect`: the null address and the protection by name; the
      result as `do_common` renders it. */
  method DoMprotect(evt: TraceEvent, args: array<string>, name: string, argc: nat) returns (r: Result<Outcome>)
    requires args.Length == ARG_SLOTS
    modifies args
    ensures r == DoCommon(evt, name, argc)
    ensures args[..] == old(args[..])[0 := AddrArg(evt, old(args[0]))][2 := Mmap.ProtText(evt.head.ax[2] as bv64)]
  {
    if evt.head.ax[0] == 0 {
      args[0] := "NULL";
    }
    var prot := Mmap.ProtName(evt.head.ax[2] as bv64);
    args[2] := prot;
    if evt.result <= 0 {
      var text :- ErrnoName(evt.result);
      r := Ok(Outcome(name, argc, text));
    } else {
      r := Ok(Outcome(name, argc, ResultHex(evt)));
    }
  }

  // ---------------------------------------------- do_rt_sigaction/sigprocmask

  /** `do_rt_sigaction`: the signal by name, and the new or old action, if
      a payload carries one, in the argument slot that payload is for. */
  method DoRtSigaction(evt: TraceEvent, args: array<string>, name: string, argc: nat) returns (r: Result<Outcome>)
    requires args.Length == ARG_SLOTS
    modifies args
    ensures r.Ok? <==> ParseSigaction(evt).Ok?
                       && (ParseSigaction(evt).value.Some? ==> ParseSigaction(evt).value.value.1 < ARG_SLOTS)
    ensures r.Ok? ==> r.value == Outcome(name, argc, ResultHex(evt))
    ensures r.Ok? && ParseSigaction(evt).value.None? ==> args[..] == old(args[..])[0 := SigName(evt.head.ax[0])]
    ensures r.Ok? && ParseSigaction(evt).value.Some? ==>
              var (sa, index) := ParseSigaction(evt).value.value;
              args[..] == old(args[..])[0 := SigName(evt.head.ax[0])][index := SigActionText(sa)]
  {
    args[0] := SigName(evt.head.ax[0]);
    var parsed :- ParseSigaction(evt);
    if parsed.Some? {
      var (sa, index) := parsed.value;
      if index >= args.Length {
        return Err(Panic(INDEX_OUT_OF_BOUNDS));
      }
      args[index] := SigActionText(sa);
    }
    r := Ok(Outcome(name, argc, ResultHex(evt)));
  }

  /** The name of `how` in `rt_sigprocmask`. */
  function HowName(how: u64): Option<string> {
    if how == SIG_BLOCK then Some("SIG_BLOCK")
    else if how == SIG_UNBLOCK then Some("SIG_UNBLOCK")
    else if how == SIG_SETMASK then Some("SIG_SETMASK")
    else None
  }

  /** A `sigset_t` payload: its first eight bytes, little-endian. */
  function SetWord(p: TracePayload): u64
    requires |p.data| >= 8
  {
    FieldLE(p.data, 0, 8)
  }

  /** How many payloads `rt_sigprocmask` consumes: one per non-null set
      pointer in a1 and a2. */
  function SetCount(evt: TraceEvent): nat {
    (if evt.head.ax[1] != 0 then 1 else 0) + (if evt.head.ax[2] != 0 then 1 else 0)
  }

  /** `do_rt_sigprocmask`: `how` must be one of the three operations; each
      non-null set pointer consumes the next payload, which must hold a
      full set, and every payload must be consumed. */
  method DoRtSigprocmask(evt: TraceEvent, args: array<string>, name: string, argc: nat) returns (r: Result<Outcome>)
    requires args.Length == ARG_SLOTS
    modifies args
    ensures r.Ok? <==> HowName(evt.head.ax[0]).Some? && |evt.payloads| == SetCount(evt)
                       && forall k :: 0 <= k < |evt.payloads| ==> |evt.payloads[k].data| >= 8
    ensures HowName(evt.head.ax[0]).None? ==> r == Err(Panic(BAD_HOW))
    ensures r.Ok? ==>
              var first := if evt.head.ax[1] != 0 then 1 else 0;
              r.value == Outcome(name, argc, ResultHex(evt))
              && args[..] == old(args[..])[0 := HowName(evt.head.ax[0]).value]
                   [1 := if evt.head.ax[1] != 0 then "nset: " + AltHex(SetWord(evt.payloads[0])) else "nset: NULL"]
                   [2 := if evt.head.ax[2] != 0 then "oset: " + AltHex(SetWord(evt.payloads[first])) else "oset: NULL"]
  {
    var how := HowName(evt.head.ax[0]);
    if how.None? {
      return Err(Panic(BAD_HOW));
    }
    args[0] := how.value;
    var index: nat := 0;
    if evt.head.ax[1] != 0 {
      if index >= |evt.payloads| {
        return Err(Panic(UNWRAP_NONE));
      }
      var payload := evt.payloads[index];
      index := index + 1;
      if |payload.data| < 8 {
        return Err(Panic(SIGSET_RANGE));
      }
      args[1] := "nset: " + AltHex(SetWord(payload));
    } else {
      args[1] := "nset: NULL";
    }
    if evt.head.ax[2] != 0 {
      if index >= |evt.payloads| {
        return Err(Panic(UNWRAP_NONE));
      }
      var payload := evt.payloads[index];
      index := index + 1;
      if |payload.data| < 8 {
        return Err(Panic(SIGSET_RANGE));
      }
      args[2] := "oset: " + AltHex(SetWord(payload));
    } else {
      args[2] := "oset: NULL";
    }
    if index != |evt.payloads| {
      return Err(Panic(INDEX_ASSERT));
    }
    r := Ok(Outcome(name, argc, ResultHex(evt)));
  }

  // -------------------------------------------------- do_read, do_write, execve

  /** A buffer payload in `{:?}` form up to its NUL, or a marker when it
      has none. */
  function BufferText(data: seq<byte>): string {
    match UntilNul(data)
    case None => PARSE_STR_ERR
    case Some(bs) => CStrDebug(bs)
  }

  /** Nothing up to the NUL is lost: the quoted escape reads back to the
      bytes before it. */
  lemma BufferTextLossless(bs: seq<byte>, tail: seq<byte>)
    requires 0 !in bs
    ensures var t := BufferText(bs + [0] + tail);
            t == CStrDebug(bs) && Unescape(t[1..|t| - 1]) == Some(bs)
  {
    UntilNulOfTerminated(bs, tail);
    var t := CStrDebug(bs);
    assert t[1..|t| - 1] == EscapeAscii(bs);
    UnescapeEscapeAscii(bs);
  }

  /** `args[0]` of `read` and `write`: the descriptor as a signed number. */
  function FdArg(evt: TraceEvent): string {
    SignedDecimal(AsI64(evt.head.ax[0]))
  }

  /** Whether `do_write`/`do_read` decode the buffer: a watched descriptor
      and exactly one payload. */
  predicate ShowsBuffer(evt: TraceEvent, fdWatched: bool) {
    fdWatched && |evt.payloads| == 1
  }

  /** The shared body of `do_write` (descriptors 1 and 2) and `do_read`
      (descriptor 0): the fd as a signed number, and for a watched fd with
      exactly one payload, which must be OUT and for argument 1, the buffer. */
  method BufferCall(evt: TraceEvent, args: array<string>, name: string, argc: nat, fdWatched: bool) returns (r: Result<Outcome>)
    requires args.Length == ARG_SLOTS
    modifies args
    ensures r.Ok? <==> !ShowsBuffer(evt, fdWatched) || (evt.payloads[0].inout == OUT && evt.payloads[0].index == 1)
    ensures r.Ok? ==> r.value == Outcome(name, argc, ResultHex(evt))
    ensures r.Ok? ==> args[..] == old(args[..])[0 := FdArg(evt)]
                        [1 := if ShowsBuffer(evt, fdWatched) then BufferText(evt.payloads[0].data) else old(args[1])]
  {
    args[0] := FdArg(evt);
    if fdWatched {
      if |evt.payloads| == 1 {
        var payload := evt.payloads[0];
        if payload.inout != OUT || payload.index != 1 {
          return Err(Panic(PAYLOAD_ASSERT));
        }
        args[1] := BufferText(payload.data);
      }
    }
    r := Ok(Outcome(name, argc, ResultHex(evt)));
  }

  /** The buffers of the payloads for argument `k`, in stream order. */
  function Texts(ps: seq<TracePayload>, k: nat): seq<string> {
    if |ps| == 0 then []
    else Texts(ps[..|ps| - 1], k) + (if ps[|ps| - 1].index == k then [BufferText(ps[|ps| - 1].data)] else [])
  }

  /** Grouping keeps stream order: the group of a concatenation is the
      concatenation of the groups. */
  lemma {:induction false} TextsConcat(ps: seq<TracePayload>, qs: seq<TracePayload>, k: nat)
    ensures Texts(ps + qs, k) == Texts(ps, k) + Texts(qs, k)
    decreases |qs|
  {
    if |qs| == 0 {
      assert ps + qs == ps;
    } else {
      var last := qs[|qs| - 1];
      assert (ps + qs)[..|ps + qs| - 1] == ps + qs[..|qs| - 1];
      TextsConcat(ps, qs[..|qs| - 1], k);
    }
  }

  /** Exactly the payloads for argument `k` contribute, one entry each. */
  lemma {:induction false} TextsCount(ps: seq<TracePayload>, k: nat)
    ensures |Texts(ps, k)| == |set j | 0 <= j < |ps| && ps[j].index == k|
  {
    if |ps| > 0 {
      var n := |ps| - 1;
      TextsCount(ps[..n], k);
      var before := set j | 0 <= j < n && ps[..n][j].index == k;
      var now := set j | 0 <= j < |ps| && ps[j].index == k;
      assert before == set j | 0 <= j < n && ps[j].index == k;
      if ps[n].index == k {
        assert now == before + {n};
      } else {
        assert now == before;
      }
    }
  }

  /** `args[0]` after the loop: the last payload for argument 0, if any. */
  function LastText(ps: seq<TracePayload>, prev: string): string {
    if |ps| == 0 then prev
    else if ps[|ps| - 1].index == 0 then BufferText(ps[|ps| - 1].data)
    else LastText(ps[..|ps| - 1], prev)
  }

  /** `do_execve`: the program from payloads for argument 0, and the
      payloads for arguments 1 and 2 gathered, in order, into the argv and
      envp lists; payloads for other arguments are ignored. */
  method DoExecve(evt: TraceEvent, args: array<string>, name: string, argc: nat) returns (r: Result<Outcome>)
    requires args.Length == ARG_SLOTS
    modifies args
    ensures r == Ok(Outcome(name, argc, ResultHex(evt)))
    ensures args[..] == old(args[..])[0 := LastText(evt.payloads, old(args[0]))]
                          [1 := "{" + Join(Texts(evt.payloads, 1), ", ") + "}"]
                          [2 := "{" + Join(Texts(evt.payloads, 2), ", ") + "}"]
  {
    ghost var before := args[..];
    var argv: seq<string> := [];
    var envp: seq<string> := [];
    for i := 0 to |evt.payloads|
      invariant argv == Texts(evt.payloads[..i], 1) && envp == Texts(evt.payloads[..i], 2)
      invariant args[..] == before[0 := LastText(evt.payloads[..i], before[0])]
    {
      var payload := evt.payloads[i];
      assert evt.payloads[..i + 1][..i] == evt.payloads[..i];
      if payload.index == 0 {
        args[0] := BufferText(payload.data);
      } else if payload.index == 1 {
        argv := argv + [BufferText(payload.data)];
      } else if payload.index == 2 {
        envp := envp + [BufferText(payload.data)];
      }
    }
    assert evt.payloads[..|evt.payloads|] == evt.payloads;
    args[1] := "{" + Join(argv, ", ") + "}";
    args[2] := "{" + Join(envp, ", ") + "}";
    r := Ok(Outcome(name, argc, ResultHex(evt)));
  }

  // ------------------------------------------------------- thread-id masking

  /** The shared body of `do_set_tid_address`, `do_getpid` and
      `do_getppid`: the result is a thread id, masked at the comparison
      level. */
  method MaskedResultCall(evt: TraceEvent, tids: TidMap, name: string, argc: nat) returns (r: Result<Outcome>)
    requires tids.Valid()
    modifies tids
    ensures tids.Valid()
    ensures evt.level != 2 ==> r == Ok(Outcome(name, argc, ResultHex(evt))) && tids.names == old(tids.names)
    ensures evt.level == 2 ==> r == Ok(Outcome(name, argc, MaskedName(old(tids.names), evt.result)))
                               && tids.names == Remember(old(tids.names), evt.result)
  {
    if evt.level == 2 {
      var tid := tids.MaskTid(evt.result);
      r := Ok(Outcome(name, argc, tid));
    } else {
      r := Ok(Outcome(name, argc, ResultHex(evt)));
    }
  }

  /** `do_clone`: the child's id is masked at the comparison level, except
      in the child, which sees 0. */
  method DoClone(evt: TraceEvent, tids: TidMap, name: string, argc: nat) returns (r: Result<Outcome>)
    requires tids.Valid()
    modifies tids
    ensures tids.Valid()
    ensures !(evt.result != 0 && evt.level == 2) ==> r == Ok(Outcome(name, argc, ResultHex(evt))) && tids.names == old(tids.names)
    ensures evt.result != 0 && evt.level == 2 ==> r == Ok(Outcome(name, argc, MaskedName(old(tids.names), evt.result)))
                                                   && tids.names == Remember(old(tids.names), evt.result)
  {
    if evt.result != 0 && evt.level == 2 {
      var tid := tids.MaskTid(evt.result);
      r := Ok(Outcome(name, argc, tid));
    } else {
      r := Ok(Outcome(name, argc, ResultHex(evt)));
    }
  }

  /** `do_kill`: at the comparison level the target pid in `args[0]` is
      read back from its hexadecimal form and masked. */
  method DoKill(evt: TraceEvent, args: array<string>, tids: TidMap, name: string, argc: nat) returns (r: Result<Outcome>)
    requires args.Length == ARG_SLOTS && tids.Valid()
    modifies args, tids
    ensures tids.Valid()
    ensures evt.level != 2 ==> r == Ok(Outcome(name, argc, ResultHex(evt)))
                               && args[..] == old(args[..]) && tids.names == old(tids.names)
    ensures evt.level == 2 ==> (r.Ok? <==> ParseUsize(old(args[0])).Ok?)
    ensures evt.level == 2 && r.Ok? ==>
              var pid := AsI64(ParseUsize(old(args[0])).value);
              r.value == Outcome(name, argc, ResultHex(evt))
              && args[..] == old(args[..])[0 := MaskedName(old(tids.names), pid)]
              && tids.names == Remember(old(tids.names), pid)
  {
    if evt.level == 2 {
      var pid :- ParseUsize(args[0]);
      var tid := tids.MaskTid(AsI64(pid));
      args[0] := tid;
    }
    r := Ok(Outcome(name, argc, ResultHex(evt)));
  }

  /** `do_wait4`: at the comparison level both the awaited pid in `args[0]`
      and the reaped id in the result are masked, in that order. */
  method DoWait4(evt: TraceEvent, args: array<string>, tids: TidMap, name: string, argc: nat) returns (r: Result<Outcome>)
    requires args.Length == ARG_SLOTS && tids.Valid()
    modifies args, tids
    ensures tids.Valid()
    ensures evt.level != 2 ==> r == Ok(Outcome(name, argc, ResultHex(evt)))
                               && args[..] == old(args[..]) && tids.names == old(tids.names)
    ensures evt.level == 2 ==> (r.Ok? <==> ParseUsize(old(args[0])).Ok?)
    ensures evt.level == 2 && r.Ok? ==>
              var pid := AsI64(ParseUsize(old(args[0])).value);
              var m1 := Remember(old(tids.names), pid);
              r.value == Outcome(name, argc, MaskedName(m1, evt.result))
              && args[..] == old(args[..])[0 := MaskedName(old(tids.names), pid)]
              && tids.names == Remember(m1, evt.result)
  {
    if evt.level == 2 {
      var pid :- ParseUsize(args[0]);
      var tid := tids.MaskTid(AsI64(pid));
      args[0] := tid;
      var reaped := tids.MaskTid(evt.result);
      r := Ok(Outcome(name, argc, reaped));
    } else {
      r := Ok(Outcome(name, argc, ResultHex(evt)));
    }
  }

  // ----------------------------------------------------------- handle_syscall

  /** What the argument-rewriting arm of `sig` promises, from the arguments
      `before` it runs on: whether it fails, its outcome, and the arguments
      `after` it. Each case is the contract of the handler that arm calls. */
  predicate ArgumentEffect(evt: TraceEvent, sig: Signature, before: seq<string>, after: seq<string>, r: Result<Outcome>)
    requires |before| == ARG_SLOTS
  {
    var (name, argc) := (sig.name, sig.argc);
    match sig.handler
    case AtPath => AtPathEffect(evt, name, argc, before, after, r)
    case CwdPath => CwdPathEffect(evt, name, argc, before, after, r)
    case Read => BufferEffect(evt, name, argc, evt.head.ax[0] == 0, before, after, r)
    case Write => BufferEffect(evt, name, argc, evt.head.ax[0] == 1 || evt.head.ax[0] == 2, before, after, r)
    case Fstatat => FstatatEffect(evt, name, argc, before, after, r)
    case Uname => UnameEffect(evt, name, argc, before, after, r)
    case Mmap => MmapEffect(evt, name, argc, before, after, r)
    case Mprotect => MprotectEffect(evt, name, argc, before, after, r)
    case RtSigaction => RtSigactionEffect(evt, name, argc, before, after, r)
    case RtSigprocmask => RtSigprocmaskEffect(evt, name, argc, before, after, r)
    case Execve => ExecveEffect(evt, name, argc, before, after, r)
    case _ => false
  }

  /** `do_openat`, `do_faccessat`, `do_unlinkat`: the contract of `AtPathCall`. */
  predicate AtPathEffect(evt: TraceEvent, name: string, argc: nat, before: seq<string>, after: seq<string>, r: Result<Outcome>)
    requires |before| == ARG_SLOTS
  {
    (r.Ok? <==> PathArg(evt, 1).Ok? && DoCommon(evt, name, argc).Ok?)
    && (r.Ok? ==> r == DoCommon(evt, name, argc)
                  && after == before[0 := DirfdArg(evt, before[0])][1 := PathArg(evt, 1).value])
  }

  /** `do_getcwd`, `do_chdir`: the contract of `PathCall`. */
  predicate CwdPathEffect(evt: TraceEvent, name: string, argc: nat, before: seq<string>, after: seq<string>, r: Result<Outcome>)
    requires |before| == ARG_SLOTS
  {
    (r.Ok? <==> PathArg(evt, 0).Ok? && DoCommon(evt, name, argc).Ok?)
    && (r.Ok? ==> r == DoCommon(evt, name, argc) && after == before[0 := PathArg(evt, 0).value])
  }

  /** `do_fstatat`: the contract of `DoFstatat`. */
  predicate FstatatEffect(evt: TraceEvent, name: string, argc: nat, before: seq<string>, after: seq<string>, r: Result<Outcome>)
    requires |before| == ARG_SLOTS
  {
    (r.Ok? <==> PathArg(evt, 1).Ok? && DoCommon(evt, name, argc).Ok?
                && (evt.result == 0 ==> |evt.payloads| == 2 && StatPass(evt.payloads, evt.level, before[2]).Ok?))
    && (r.Ok? ==> r == DoCommon(evt, name, argc))
    && (r.Ok? && evt.result != 0 ==> after == before[0 := DirfdArg(evt, before[0])][1 := PathArg(evt, 1).value])
    && (r.Ok? && evt.result == 0 ==>
          after == before[0 := DirfdArg(evt, before[0])][1 := PathArg(evt, 1).value]
                         [2 := StatPass(evt.payloads, evt.level, before[2]).value])
  }

  /** `do_uname`: the contract of `DoUname`. */
  predicate UnameEffect(evt: TraceEvent, name: string, argc: nat, before: seq<string>, after: seq<string>, r: Result<Outcome>)
    requires |before| == ARG_SLOTS
  {
    (r.Ok? <==> |evt.payloads| == 1 && evt.payloads[0].inout == OUT && evt.payloads[0].index == 0
                && |evt.payloads[0].data| >= UTSNAME_SIZE
                && UnameFields(evt.payloads[0].data, evt.level, 6).Some?)
    && (r.Ok? ==> r.value == Outcome(name, argc, ResultHex(evt))
                  && after == before[0 := "{" + Join(UnameFields(evt.payloads[0].data, evt.level, 6).value, ", ") + "}"])
  }

  /** `do_mmap`: the contract of `DoMmap`. */
  predicate MmapEffect(evt: TraceEvent, name: string, argc: nat, before: seq<string>, after: seq<string>, r: Result<Outcome>)
    requires |before| == ARG_SLOTS
  {
    r == Ok(Outcome(name, argc, if evt.result <= 0 then "MAP_FAILED" else ResultHex(evt)))
    && (evt.rawFmt ==> after == before)
    && (!evt.rawFmt ==>
          after == before[0 := AddrArg(evt, before[0])]
                         [2 := Mmap.ProtText(evt.head.ax[2] as bv64)]
                         [3 := Mmap.MapText(evt.head.ax[3] as bv64)]
                         [4 := if evt.head.ax[4] == U64_MAX then "-1" else before[4]])
  }

  /** `do_mprotect`: the contract of `DoMprotect`. */
  predicate MprotectEffect(evt: TraceEvent, name: string, argc: nat, before: seq<string>, after: seq<string>, r: Result<Outcome>)
    requires |before| == ARG_SLOTS
  {
    r == DoCommon(evt, name, argc)
    && after == before[0 := AddrArg(evt, before[0])][2 := Mmap.ProtText(evt.head.ax[2] as bv64)]
  }

  /** `do_rt_sigaction`: the contract of `DoRtSigaction`. */
  predicate RtSigactionEffect(evt: TraceEvent, name: string, argc: nat, before: seq<string>, after: seq<string>, r: Result<Outcome>)
    requires |before| == ARG_SLOTS
  {
    (r.Ok? <==> ParseSigaction(evt).Ok?
                && (ParseSigaction(evt).value.Some? ==> ParseSigaction(evt).value.value.1 < ARG_SLOTS))
    && (r.Ok? ==> r.value == Outcome(name, argc, ResultHex(evt)))
    && (r.Ok? && ParseSigaction(evt).value.None? ==> after == before[0 := SigName(evt.head.ax[0])])
    && (r.Ok? && ParseSigaction(evt).value.Some? ==>
          var (sa, index) := ParseSigaction(evt).value.value;
          after == before[0 := SigName(evt.head.ax[0])][index := SigActionText(sa)])
  }

  /** `do_rt_sigprocmask`: the contract of `DoRtSigprocmask`. */
  predicate RtSigprocmaskEffect(evt: TraceEvent, name: string, argc: nat, before: seq<string>, after: seq<string>, r: Result<Outcome>)
    requires |before| == ARG_SLOTS
  {
    (r.Ok? <==> HowName(evt.head.ax[0]).Some? && |evt.payloads| == SetCount(evt)
                && forall k :: 0 <= k < |evt.payloads| ==> |evt.payloads[k].data| >= 8)
    && (HowName(evt.head.ax[0]).None? ==> r == Err(Panic(BAD_HOW)))
    && (r.Ok? ==>
          var first := if evt.head.ax[1] != 0 then 1 else 0;
          r.value == Outcome(name, argc, ResultHex(evt))
          && after == before[0 := HowName(evt.head.ax[0]).value]
               [1 := if evt.head.ax[1] != 0 then "nset: " + AltHex(SetWord(evt.payloads[0])) else "nset: NULL"]
               [2 := if evt.head.ax[2] != 0 then "oset: " + AltHex(SetWord(evt.payloads[first])) else "oset: NULL"])
  }

  /** `do_execve`: the contract of `DoExecve`. */
  predicate ExecveEffect(evt: TraceEvent, name: string, argc: nat, before: seq<string>, after: seq<string>, r: Result<Outcome>)
    requires |before| == ARG_SLOTS
  {
    r == Ok(Outcome(name, argc, ResultHex(evt)))
    && after == before[0 := LastText(evt.payloads, before[0])]
                      [1 := "{" + Join(Texts(evt.payloads, 1), ", ") + "}"]
                      [2 := "{" + Join(Texts(evt.payloads, 2), ", ") + "}"]
  }

  /** The contract of `BufferCall`, shared by the `read` and `write` arms. */
  predicate BufferEffect(evt: TraceEvent, name: string, argc: nat, fdWatched: bool,
                         before: seq<string>, after: seq<string>, r: Result<Outcome>)
    requires |before| == ARG_SLOTS
  {
    (r.Ok? <==> !ShowsBuffer(evt, fdWatched) || (evt.payloads[0].inout == OUT && evt.payloads[0].index == 1))
    && (r.Ok? ==> r.value == Outcome(name, argc, ResultHex(evt))
                  && after == before[0 := FdArg(evt)]
                                    [1 := if ShowsBuffer(evt, fdWatched) then BufferText(evt.payloads[0].data) else before[1]])
  }

  /** What the thread-id arm of `sig` promises, from the arguments and the
      id map before it runs: its outcome, the arguments and the map after. */
  predicate ThreadEffect(evt: TraceEvent, sig: Signature, before: seq<string>, after: seq<string>,
                         names0: map<i64, string>, names1: map<i64, string>, r: Result<Outcome>)
    requires |before| == ARG_SLOTS
  {
    var (name, argc) := (sig.name, sig.argc);
    match sig.handler
    case SetTidAddress => MaskedResultEffect(evt, name, argc, before, after, names0, names1, r)
    case Getpid => MaskedResultEffect(evt, name, argc, before, after, names0, names1, r)
    case Getppid => MaskedResultEffect(evt, name, argc, before, after, names0, names1, r)
    case Clone =>
      after == before
      && (!(evt.result != 0 && evt.level == 2) ==> r == Ok(Outcome(name, argc, ResultHex(evt))) && names1 == names0)
      && (evt.result != 0 && evt.level == 2 ==> r == Ok(Outcome(name, argc, MaskedName(names0, evt.result)))
                                                && names1 == Remember(names0, evt.result))
    case Kill =>
      (evt.level != 2 ==> r == Ok(Outcome(name, argc, ResultHex(evt))) && after == before && names1 == names0)
      && (evt.level == 2 ==> (r.Ok? <==> ParseUsize(before[0]).Ok?))
      && (evt.level == 2 && r.Ok? ==>
            var pid := AsI64(ParseUsize(before[0]).value);
            r.value == Outcome(name, argc, ResultHex(evt))
            && after == before[0 := MaskedName(names0, pid)]
            && names1 == Remember(names0, pid))
    case Wait4 =>
      (evt.level != 2 ==> r == Ok(Outcome(name, argc, ResultHex(evt))) && after == before && names1 == names0)
      && (evt.level == 2 ==> (r.Ok? <==> ParseUsize(before[0]).Ok?))
      && (evt.level == 2 && r.Ok? ==>
            var pid := AsI64(ParseUsize(before[0]).value);
            var m1 := Remember(names0, pid);
            r.value == Outcome(name, argc, MaskedName(m1, evt.result))
            && after == before[0 := MaskedName(names0, pid)]
            && names1 == Remember(m1, evt.result))
    case _ => false
  }

  /** The contract of `MaskedResultCall`, shared by three arms, which leave
      the arguments alone. */
  predicate MaskedResultEffect(evt: TraceEvent, name: string, argc: nat, before: seq<string>, after: seq<string>,
                               names0: map<i64, string>, names1: map<i64, string>, r: Result<Outcome>)
  {
    after == before
    && (evt.level != 2 ==> r == Ok(Outcome(name, argc, ResultHex(evt))) && names1 == names0)
    && (evt.level == 2 ==> r == Ok(Outcome(name, argc, MaskedName(names0, evt.result)))
                           && names1 == Remember(names0, evt.result))
  }

  /** What `handle_syscall` promises for the arm the table names for `a7`. */
  predicate SyscallEffect(evt: TraceEvent, before: seq<string>, after: seq<string>,
                          names0: map<i64, string>, names1: map<i64, string>, r: Result<Outcome>)
    requires |before| == ARG_SLOTS
  {
    var sig := SignatureOf(evt.head.ax[7]);
    match sig.handler
    case Common => r == DoCommon(evt, sig.name, sig.argc) && after == before && names1 == names0
    case Brk => r == Ok(Outcome(sig.name, sig.argc, ResultHex(evt))) && after == before && names1 == names0
    case Unhandled => r == Ok(Outcome(sig.name, sig.argc, ResultHex(evt))) && after == before && names1 == names0
    case SetTidAddress => ThreadEffect(evt, sig, before, after, names0, names1, r)
    case Getpid => ThreadEffect(evt, sig, before, after, names0, names1, r)
    case Getppid => ThreadEffect(evt, sig, before, after, names0, names1, r)
    case Kill => ThreadEffect(evt, sig, before, after, names0, names1, r)
    case Wait4 => ThreadEffect(evt, sig, before, after, names0, names1, r)
    case Clone => ThreadEffect(evt, sig, before, after, names0, names1, r)
    case _ => ArgumentEffect(evt, sig, before, after, r) && names1 == names0
  }

  /** The arms of `handle_syscall` that rewrite arguments only. */
  method ArgumentArm(evt: TraceEvent, args: array<string>, sig: Signature) returns (r: Result<Outcome>)
    requires args.Length == ARG_SLOTS
    requires sig.handler in {AtPath, CwdPath, Read, Write, Fstatat, Uname, Mmap, Mprotect, RtSigaction, RtSigprocmask, Execve}
    modifies args
    ensures r.Ok? ==> r.value.name == sig.name && r.value.argc == sig.argc
    ensures ArgumentEffect(evt, sig, old(args[..]), args[..], r)
  {
    var (name, argc) := (sig.name, sig.argc);
    match sig.handler
    case AtPath => r := AtPathCall(evt, args, name, argc);
    case CwdPath => r := PathCall(evt, args, name, argc);
    case Read => r := BufferCall(evt, args, name, argc, evt.head.ax[0] == 0);
    case Write => r := BufferCall(evt, args, name, argc, evt.head.ax[0] == 1 || evt.head.ax[0] == 2);
    case Fstatat => r := DoFstatat(evt, args, name, argc);
    case Uname => r := DoUname(evt, args, name, argc);
    case Mmap => r := DoMmap(evt, args, name, argc);
    case Mprotect => r := DoMprotect(evt, args, name, argc);
    case RtSigaction => r := DoRtSigaction(evt, args, name, argc);
    case RtSigprocmask => r := DoRtSigprocmask(evt, args, name, argc);
    case Execve => r := DoExecve(evt, args, name, argc);
  }

  /** The arms of `handle_syscall` that mask thread ids. */
  method ThreadArm(evt: TraceEvent, args: array<string>, tids: TidMap, sig: Signature) returns (r: Result<Outcome>)
    requires args.Length == ARG_SLOTS && tids.Valid()
    requires sig.handler in {SetTidAddress, Getpid, Getppid, Kill, Wait4, Clone}
    modifies args, tids
    ensures tids.Valid()
    ensures r.Ok? ==> r.value.name == sig.name && r.value.argc == sig.argc
    ensures evt.level != 2 ==> tids.names == old(tids.names)
    ensures ThreadEffect(evt, sig, old(args[..]), args[..], old(tids.names), tids.names, r)
  {
    var (name, argc) := (sig.name, sig.argc);
    match sig.handler
    case SetTidAddress => r := MaskedResultCall(evt, tids, name, argc);
    case Getpid => r := MaskedResultCall(evt, tids, name, argc);
    case Getppid => r := MaskedResultCall(evt, tids, name, argc);
    case Kill => r := DoKill(evt, args, tids, name, argc);
    case Wait4 => r := DoWait4(evt, args, tids, name, argc);
    case Clone => r := DoClone(evt, tids, name, argc);
  }

  /** `handle_syscall(args)`: the arm the table names for `a7`. */
  method HandleSyscall(evt: TraceEvent, args: array<string>, tids: TidMap) returns (r: Result<Outcome>)
    requires args.Length == ARG_SLOTS && tids.Valid()
    modifies args, tids
    ensures tids.Valid()
    ensures var sig := SignatureOf(evt.head.ax[7]);
            r.Ok? ==> r.value.name == sig.name && r.value.argc == sig.argc
    ensures var sig := SignatureOf(evt.head.ax[7]);
            sig.handler == Common ==> r == DoCommon(evt, sig.name, sig.argc)
                                      && args[..] == old(args[..]) && tids.names == old(tids.names)
    ensures var sig := SignatureOf(evt.head.ax[7]);
            (sig.handler == Unhandled || sig.handler == Brk) ==>
              r == Ok(Outcome(sig.name, sig.argc, ResultHex(evt))) && args[..] == old(args[..]) && tids.names == old(tids.names)
    ensures evt.level != 2 ==> tids.names == old(tids.names)
    ensures SyscallEffect(evt, old(args[..]), args[..], old(tids.names), tids.names, r)
  {
    var sig := SignatureOf(evt.head.ax[7]);
    if sig.handler == Common {
      r := DoCommon(evt, sig.name, sig.argc);
    } else if sig.handler == Brk || sig.handler == Unhandled {
      r := Ok(Outcome(sig.name, sig.argc, ResultHex(evt)));
    } else if sig.handler in {SetTidAddress, Getpid, Getppid, Kill, Wait4, Clone} {
      r := ThreadArm(evt, args, tids, sig);
    } else {
      r := ArgumentArm(evt, args, sig);
    }
  }

  // ------------------------------------------------------ Display for TraceEvent

  /** The arguments before any handler rewrites them: `a0`..`a6` in `{:#x}`. */
  function InitialArgs(evt: TraceEvent): (a: seq<string>)
    ensures |a| == ARG_SLOTS
  {
    seq(ARG_SLOTS, i requires 0 <= i < ARG_SLOTS => AltHex(evt.head.ax[i]))
  }

  /** The name shown: the table's, or `sys_<a7>` for a number it lacks. */
  function DisplayName(evt: TraceEvent): (s: string)
    ensures |s| > 0
  {
    var sig := SignatureOf(evt.head.ax[7]);
    if |sig.name| > 0 then sig.name else "sys_" + Decimal(evt.head.ax[7])
  }

  /** The line announcing a signal handler's return, if the event is one. */
  function ExitPrefix(evt: TraceEvent): string {
    if evt.signal.Exit? then "Signal[" + SigName(evt.signal.signo) + "] exit..\n" else ""
  }

  /** The rendered call: prefix, name, the shown arguments, the result and
      the user stack pointer. */
  function CallLine(evt: TraceEvent, shown: seq<string>, text: string): string {
    ExitPrefix(evt) + DisplayName(evt) + "(" + Join(shown, ", ") + ") -> " + text + ", usp: " + AltHex(evt.head.usp)
  }

  /** The line `Display` writes once `handle_syscall` has left the
      arguments `after` and the outcome `res`: its error, or the call line
      with the table's number of arguments. */
  predicate RenderedFrom(evt: TraceEvent, after: seq<string>, res: Result<Outcome>, r: Result<string>)
    requires |after| == ARG_SLOTS
  {
    match res
    case Err(e) => r == Err(e)
    case Ok(o) => r == Ok(CallLine(evt, after[..SignatureOf(evt.head.ax[7]).argc], o.text))
  }

  /** A rendered call line shows as many arguments as the table says. */
  lemma RenderedShape(evt: TraceEvent, after: seq<string>, res: Result<Outcome>, r: Result<string>)
    requires |after| == ARG_SLOTS && RenderedFrom(evt, after, res, r)
    ensures r.Ok? ==>
              exists shown: seq<string>, text: string ::
                |shown| == SignatureOf(evt.head.ax[7]).argc && r.value == CallLine(evt, shown, text)
  {
  }

  /** The user environment call part of `<TraceEvent as Display>::fmt`:
      `handle_syscall` runs on `a0`..`a6` in hexadecimal, and the line
      shows as many of the arguments it leaves as the table says. */
  method RenderCall(evt: TraceEvent, tids: TidMap) returns (r: Result<string>)
    requires tids.Valid()
    modifies tids
    ensures tids.Valid()
    ensures SignatureOf(evt.head.ax[7]).handler == Common ==>
              var sig := SignatureOf(evt.head.ax[7]);
              (r.Ok? <==> DoCommon(evt, sig.name, sig.argc).Ok?)
              && (r.Ok? ==> r.value == CallLine(evt, InitialArgs(evt)[..sig.argc], DoCommon(evt, sig.name, sig.argc).value.text))
    ensures SignatureOf(evt.head.ax[7]).handler == Unhandled ==>
              r == Ok(CallLine(evt, InitialArgs(evt), ResultHex(evt)))
    ensures exists after: seq<string>, res: Result<Outcome> ::
              |after| == ARG_SLOTS && SyscallEffect(evt, InitialArgs(evt), after, old(tids.names), tids.names, res)
              && RenderedFrom(evt, after, res, r)
    ensures evt.level != 2 ==> tids.names == old(tids.names)
  {
    var args := new string[ARG_SLOTS](i requires 0 <= i < ARG_SLOTS => AltHex(evt.head.ax[i]));
    assert args[..] == InitialArgs(evt);
    ghost var names0 := tids.names;
    var res := HandleSyscall(evt, args, tids);
    ghost var after := args[..];
    assert SyscallEffect(evt, InitialArgs(evt), after, names0, tids.names, res);
    if res.Err? {
      r := Err(res.error);
      assert RenderedFrom(evt, after, res, r);
      return;
    }
    var o := res.value;
    assert args[..o.argc] == after[..o.argc];
    r := Ok(CallLine(evt, args[..o.argc], o.text));
    assert RenderedFrom(evt, after, res, r);
    if SignatureOf(evt.head.ax[7]).handler == Unhandled {
      assert args[..o.argc] == InitialArgs(evt);
    }
  }

  /** `<TraceEvent as Display>::fmt`: a signal handler's entry is one
      short line; anything else must be a user environment call and is
      rendered through `handle_syscall`, after the exit notice when the
      event is a handler's return. */
  method Render(evt: TraceEvent, tids: TidMap) returns (r: Result<string>)
    requires tids.Valid()
    modifies tids
    ensures tids.Valid()
    ensures evt.signal.Enter? ==> r == Ok("Signal[" + SigName(evt.signal.signo) + "] enter..")
                                  && tids.names == old(tids.names)
    ensures !evt.signal.Enter? && evt.head.cause != USER_ECALL ==> r == Err(Panic(CAUSE_ASSERT))
    ensures !evt.signal.Enter? && r.Ok? ==>
              exists shown: seq<string>, text: string ::
                |shown| == SignatureOf(evt.head.ax[7]).argc && r.value == CallLine(evt, shown, text)
    ensures !evt.signal.Enter? && evt.head.cause == USER_ECALL && SignatureOf(evt.head.ax[7]).handler == Common ==>
              var sig := SignatureOf(evt.head.ax[7]);
              (r.Ok? <==> DoCommon(evt, sig.name, sig.argc).Ok?)
              && (r.Ok? ==> r.value == CallLine(evt, InitialArgs(evt)[..sig.argc], DoCommon(evt, sig.name, sig.argc).value.text))
    ensures !evt.signal.Enter? && evt.head.cause == USER_ECALL && SignatureOf(evt.head.ax[7]).handler == Unhandled ==>
              r == Ok(CallLine(evt, InitialArgs(evt), ResultHex(evt)))
    ensures !evt.signal.Enter? && evt.head.cause == USER_ECALL ==>
              exists after: seq<string>, res: Result<Outcome> ::
                |after| == ARG_SLOTS && SyscallEffect(evt, InitialArgs(evt), after, old(tids.names), tids.names, res)
                && RenderedFrom(evt, after, res, r)
    ensures evt.level != 2 ==> tids.names == old(tids.names)
  {
    if evt.signal.Enter? {
      return Ok("Signal[" + SigName(evt.signal.signo) + "] enter..");
    }
    if evt.head.cause != USER_ECALL {
      return Err(Panic(CAUSE_ASSERT));
    }
    r := RenderCall(evt, tids);
    ghost var after: seq<string>, res: Result<Outcome> :|
      |after| == ARG_SLOTS && SyscallEffect(evt, InitialArgs(evt), after, old(tids.names), tids.names, res)
      && RenderedFrom(evt, after, res, r);
    RenderedShape(evt, after, res, r);
  }
}
