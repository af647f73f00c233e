/** Signal names and `rt_sigaction` arguments (lktrace/src/signal.rs). */
module Signal {
  import opened Numbers
  import opened Text
  import opened Flags

  const SIG_BLOCK: u64 := 0
  const SIG_UNBLOCK: u64 := 1
  const SIG_SETMASK: u64 := 2

  const SA_RESTORER: bv64 := 0x0400_0000
  const SA_RESTART: bv64 := 0x1000_0000
  const SA_MASK: bv64 := SA_RESTART | SA_RESTORER

  /** The action flags that have a name, in the order they are listed. */
  const SA_TABLE: Table := [(SA_RESTART, "SA_RESTART"), (SA_RESTORER, "SA_RESTORER")]

  /** `struct SigAction` as the guest's `rt_sigaction` passes it (riscv64
      has no restorer field). */
  datatype SigAction = SigAction(handler: u64, flags: bv64, mask: u64)

  /** What `sa_flag_name` promises: the set flags joined by '|', or "0x0"
      when none is set. */
  function SaFlagText(flags: bv64): string {
    var names := Names(SA_TABLE, flags);
    if |names| > 0 then Join(names, "|") else "0x0"
  }

  /** `sa_flag_name`: tests SA_RESTART, then SA_RESTORER. */
  method SaFlagName(flags: bv64) returns (s: string)
    ensures s == SaFlagText(flags)
  {
    var names: seq<string> := [];
    ghost var head := names;
    NamesUpToNext(head, SA_TABLE, flags, 0, names);
    names := PushIfSet(names, flags, SA_RESTART, "SA_RESTART");
    NamesUpToNext(head, SA_TABLE, flags, 1, names);
    names := PushIfSet(names, flags, SA_RESTORER, "SA_RESTORER");
    if |names| > 0 {
      s := Join(names, "|");
    } else {
      s := "0x0";
    }
  }

  /** The four renderings of the action flags. */
  lemma SaFlagTextCases(flags: bv64)
    ensures !IsSet(flags, SA_RESTART) && !IsSet(flags, SA_RESTORER) ==> SaFlagText(flags) == "0x0"
    ensures IsSet(flags, SA_RESTART) && !IsSet(flags, SA_RESTORER) ==> SaFlagText(flags) == "SA_RESTART"
    ensures !IsSet(flags, SA_RESTART) && IsSet(flags, SA_RESTORER) ==> SaFlagText(flags) == "SA_RESTORER"
    ensures IsSet(flags, SA_RESTART) && IsSet(flags, SA_RESTORER) ==> SaFlagText(flags) == "SA_RESTART|SA_RESTORER"
  {
    var a, b := NameIfSet(SA_TABLE[0], flags), NameIfSet(SA_TABLE[1], flags);
    assert Names(SA_TABLE, flags) == a + b by {
      assert NamesUpTo(SA_TABLE, flags, 1) == a;
    }
    if a != [] && b != [] {
      assert a + b == ["SA_RESTART", "SA_RESTORER"];
      assert Join(a + b, "|") == "SA_RESTART" + "|" + Join(["SA_RESTORER"], "|");
    }
  }

  lemma SaFlagTextFree(flags: bv64, c: char)
    requires c !in "SA_RESTART|SA_RESTORER0x"
    ensures c !in SaFlagText(flags)
  {
    SaFlagTextCases(flags);
  }

  /** The rendering tells which of the two flags are set, and nothing else. */
  lemma SaFlagTextDeterminesBits(f: bv64, g: bv64)
    ensures SaFlagText(f) == SaFlagText(g) <==> f & SA_MASK == g & SA_MASK
  {
    SaFlagTextCases(f);
    SaFlagTextCases(g);
  }

  /** `{ handler: {:#x}, flags: {}, mask: {:#x} }` */
  function SigActionText(a: SigAction): string {
    "{ handler: " + (AltHex(a.handler) + (", flags: " + (SaFlagText(a.flags)
    + (", mask: " + (AltHex(a.mask) + " }")))))
  }

  /** The display loses nothing the decoder cares about: handler, the two
      named flags and the mask can all be read back. */
  lemma SigActionTextInjective(a: SigAction, b: SigAction)
    requires SigActionText(a) == SigActionText(b)
    ensures a.handler == b.handler && a.mask == b.mask
    ensures (a.flags) & SA_MASK == (b.flags) & SA_MASK
  {
    var fa, fb := SaFlagText(a.flags), SaFlagText(b.flags);
    var ma, mb := ", mask: " + (AltHex(a.mask) + " }"), ", mask: " + (AltHex(b.mask) + " }");
    var ra, rb := ", flags: " + (fa + ma), ", flags: " + (fb + mb);
    StripPrefix("{ handler: ", AltHex(a.handler) + ra, AltHex(b.handler) + rb);
    AltHexFieldInjective(a.handler, ra, b.handler, rb, ',');
    StripPrefix(", flags: ", fa + ma, fb + mb);
    SaFlagTextFree(a.flags, ',');
    SaFlagTextFree(b.flags, ',');
    SplitAtFirst(fa, ma, fb, mb, ',');
    SaFlagTextDeterminesBits(a.flags, b.flags);
    StripPrefix(", mask: ", AltHex(a.mask) + " }", AltHex(b.mask) + " }");
    AltHexFieldInjective(a.mask, " }", b.mask, " }", ' ');
  }

  /** `sig_name`: the Linux name of a signal number. */
  function SigName(signum: u64): string {
    match signum
      case 1 => "SIGHUP"
      case 2 => "SIGINT"
      case 3 => "SIGQUIT"
      case 4 => "SIGILL"
      case 5 => "SIGTRAP"
      case 6 => "SIGABRT"
      case 7 => "SIGBUS"
      case 8 => "SIGFPE"
      case 9 => "SIGKILL"
      case 10 => "SIGUSR1"
      case 11 => "SIGSEGV"
      case 12 => "SIGUSR2"
      case 13 => "SIGPIPE"
      case 14 => "SIGALRM"
      case 15 => "SIGTERM"
      case 16 => "SIGSTKFLT"
      case 17 => "SIGCHLD"
      case 18 => "SIGCONT"
      case 19 => "SIGSTOP"
      case 20 => "SIGTSTP"
      case 21 => "SIGTTIN"
      case 22 => "SIGTTOU"
      case 23 => "SIGURG"
      case 24 => "SIGXCPU"
      case 25 => "SIGXFSZ"
      case 26 => "SIGVTALRM"
      case 27 => "SIGPROF"
      case 28 => "SIGWINCH"
      case 29 => "SIGIO"
      case 30 => "SIGPWR"
      case 31 => "SIGSYS"
      case 34 => "SIGRTMIN"
      case 35 => "SIGRTMIN+1"
      case 36 => "SIGRTMIN+2"
      case 37 => "SIGRTMIN+3"
      case 38 => "SIGRTMIN+4"
      case 39 => "SIGRTMIN+5"
      case 40 => "SIGRTMIN+6"
      case 41 => "SIGRTMIN+7"
      case 42 => "SIGRTMIN+8"
      case 43 => "SIGRTMIN+9"
      case 44 => "SIGRTMIN+10"
      case 45 => "SIGRTMIN+11"
      case 46 => "SIGRTMIN+12"
      case 47 => "SIGRTMIN+13"
      case 48 => "SIGRTMIN+14"
      case 49 => "SIGRTMIN+15"
      case 50 => "SIGRTMAX-14"
      case 51 => "SIGRTMAX-13"
      case 52 => "SIGRTMAX-12"
      case 53 => "SIGRTMAX-11"
      case 54 => "SIGRTMAX-10"
      case 55 => "SIGRTMAX-9"
      case 56 => "SIGRTMAX-8"
      case 57 => "SIGRTMAX-7"
      case 58 => "SIGRTMAX-6"
      case 59 => "SIGRTMAX-5"
      case 60 => "SIGRTMAX-4"
      case 61 => "SIGRTMAX-3"
      case 62 => "SIGRTMAX-2"
      case 63 => "SIGRTMAX-1"
      case 64 => "SIGRTMAX"
      case _ => "SIGUNKNOWN"
  }

  /** The numbers `sig_name` knows: 1..31 and the real-time range 34..64. */
  predicate KnownSignal(signum: u64) {
    1 <= signum <= 31 || 34 <= signum <= 64
  }

  /** Every other number, including 32 and 33, is "SIGUNKNOWN". */
  lemma SigNameUnknown(signum: u64)
    ensures SigName(signum) == "SIGUNKNOWN" <==> !KnownSignal(signum)
  {
  }

  /** The real-time signals are named relative to SIGRTMIN (34) and
      SIGRTMAX (64). */
  lemma SigNameRealtime(signum: u64)
    ensures signum == 34 ==> SigName(signum) == "SIGRTMIN"
    ensures 35 <= signum <= 49 ==> SigName(signum) == "SIGRTMIN+" + Decimal(signum - 34)
    ensures 50 <= signum <= 63 ==> SigName(signum) == "SIGRTMAX-" + Decimal(64 - signum)
    ensures signum == 64 ==> SigName(signum) == "SIGRTMAX"
  {
    if 35 <= signum <= 49 {
      SigNameRtMin(signum);
    } else if 50 <= signum <= 63 {
      SigNameRtMax(signum);
    }
  }

  lemma SigNameRtMin(signum: u64)
    requires 35 <= signum <= 49
    ensures SigName(signum) == "SIGRTMIN+" + Decimal(signum - 34)
  {
    if signum <= 43 {
      SigNameRtMinOneDigit(signum);
    } else {
      SigNameRtMinTwoDigits(signum);
    }
  }

  lemma SigNameRtMinOneDigit(signum: u64)
    requires 35 <= signum <= 43
    ensures SigName(signum) == "SIGRTMIN+" + [DEC_DIGITS[signum - 34]]
  {
  }

  lemma SigNameRtMinTwoDigits(signum: u64)
    requires 44 <= signum <= 49
    ensures SigName(signum) == "SIGRTMIN+" + ['1', DEC_DIGITS[signum - 44]]
  {
  }

  lemma SigNameRtMax(signum: u64)
    requires 50 <= signum <= 63
    ensures SigName(signum) == "SIGRTMAX-" + Decimal(64 - signum)
  {
    if signum >= 55 {
      SigNameRtMaxOneDigit(signum);
    } else {
      SigNameRtMaxTwoDigits(signum);
    }
  }

  lemma SigNameRtMaxOneDigit(signum: u64)
    requires 55 <= signum <= 63
    ensures SigName(signum) == "SIGRTMAX-" + [DEC_DIGITS[64 - signum]]
  {
  }

  lemma SigNameRtMaxTwoDigits(signum: u64)
    requires 50 <= signum <= 54
    ensures SigName(signum) == "SIGRTMAX-" + ['1', DEC_DIGITS[54 - signum]]
  {
  }

  /** Different known numbers get different names. */
  lemma SigNameInjective(a: u64, b: u64)
    requires KnownSignal(a) && KnownSignal(b)
    ensures SigName(a) == SigName(b) <==> a == b
  {
    if a <= 31 && b <= 31 {
      SigNameInjectiveClassic(a, b);
    } else if a >= 34 && b >= 34 {
      SigNameInjectiveRealtime(a, b);
    } else if a <= 31 {
      ClassicIsNotRealtime(a, b);
    } else {
      ClassicIsNotRealtime(b, a);
    }
  }

  lemma SigNameInjectiveClassic(a: u64, b: u64)
    requires 1 <= a <= 31 && 1 <= b <= 31
    ensures SigName(a) == SigName(b) <==> a == b
  {
  }

  lemma SigNameInjectiveRealtime(a: u64, b: u64)
    requires 34 <= a <= 64 && 34 <= b <= 64
    ensures SigName(a) == SigName(b) <==> a == b
  {
    if a <= 49 && b <= 49 {
      SigNameInjectiveLowRealtime(a, b);
    } else if a >= 50 && b >= 50 {
      SigNameInjectiveHighRealtime(a, b);
    } else if a <= 49 {
      RtMinIsNotRtMax(a, b);
    } else {
      RtMinIsNotRtMax(b, a);
    }
  }

  lemma SigNameInjectiveLowRealtime(a: u64, b: u64)
    requires 34 <= a <= 49 && 34 <= b <= 49
    ensures SigName(a) == SigName(b) <==> a == b
  {
  }

  lemma SigNameInjectiveHighRealtime(a: u64, b: u64)
    requires 50 <= a <= 64 && 50 <= b <= 64
    ensures SigName(a) == SigName(b) <==> a == b
  {
  }

  /** Names from SIGRTMIN up are spelled with "MIN", the others with "MAX". */
  lemma RtMinIsNotRtMax(a: u64, b: u64)
    requires 34 <= a <= 49 && 50 <= b <= 64
    ensures SigName(a) != SigName(b)
  {
    assert SigName(a)[6] == 'I';
    assert SigName(b)[6] == 'A';
  }

  /** No name below 32 starts with "SIGR"; every real-time name does. */
  lemma ClassicIsNotRealtime(a: u64, b: u64)
    requires 1 <= a <= 31 && 34 <= b <= 64
    ensures SigName(a) != SigName(b)
  {
    assert SigName(a)[3] != 'R';
    assert SigName(b)[3] == 'R';
  }
}
