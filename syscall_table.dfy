/** The table of lktrace/src/event.rs that `handle_syscall` matches on the
    syscall number in a7: for each number it knows, the name to show, how
    many of the seven arguments to show, and which arm renders it. */
module SyscallTable {
  import opened Numbers
  import opened SysNo

  /** `args` is built from `ax[..7]`. */
  const ARG_SLOTS: nat := 7

  /** Which arm of `handle_syscall` a syscall number takes. */
  datatype Handler =
    | Common | AtPath | CwdPath | Read | Write | Fstatat | Uname | Brk | Mmap | Mprotect
    | SetTidAddress | Getpid | Getppid | Kill | Wait4 | Clone | RtSigaction | RtSigprocmask
    | Execve | Unhandled

  /** The displayed name, the number of arguments shown, and the arm. */
  datatype Signature = Signature(name: string, argc: nat, handler: Handler)

  /** The table `handle_syscall` matches on `a7`. Each arm's handler is
      handed the name and argument count of its row. */
  function SignatureOf(sysno: u64): (sig: Signature)
    ensures sig.argc <= ARG_SLOTS
    ensures sig.name == "" <==> sig.handler == Unhandled
    ensures sig.handler == Unhandled ==> sig.argc == ARG_SLOTS
  {
    if sysno == SYS_IOCTL then Signature("ioctl", 3, Common)
    else if sysno == SYS_FCNTL then Signature("fcntl", 3, Common)
    else if sysno == SYS_DUP3 then Signature("dup3", 3, Common)
    else if sysno == SYS_FACCESSAT then Signature("faccessat", 3, AtPath)
    else if sysno == SYS_MKDIRAT then Signature("mkdirat", 3, Common)
    else if sysno == SYS_GETCWD then Signature("getcwd", 2, CwdPath)
    else if sysno == SYS_CHDIR then Signature("chdir", 1, CwdPath)
    else if sysno == SYS_FCHMODAT then Signature("fchmodat", 4, Common)
    else if sysno == SYS_FCHOWNAT then Signature("fchownat", 5, Common)
    else if sysno == SYS_OPENAT then Signature("openat", 4, AtPath)
    else if sysno == SYS_CLOSE then Signature("close", 1, Common)
    else if sysno == SYS_LSEEK then Signature("lseek", 3, Common)
    else if sysno == SYS_SENDFILE then Signature("sendfile", 4, Common)
    else if sysno == SYS_READ then Signature("read", 3, Read)
    else if sysno == SYS_WRITE then Signature("write", 3, Write)
    else if sysno == SYS_WRITEV then Signature("writev", 3, Common)
    else if sysno == SYS_UNLINKAT then Signature("unlinkat", 3, AtPath)
    else if sysno == SYS_FSTATAT then Signature("fstatat", 4, Fstatat)
    else if sysno == SYS_EXIT_GROUP then Signature("exit_group", 1, Common)
    else if sysno == SYS_SET_TID_ADDRESS then Signature("set_tid_address", 1, SetTidAddress)
    else if sysno == SYS_SET_ROBUST_LIST then Signature("set_robust_list", 2, Common)
    else if sysno == SYS_CLOCK_GETTIME then Signature("clock_gettime", 2, Common)
    else if sysno == SYS_UNAME then Signature("uname", 1, Uname)
    else if sysno == SYS_BRK then Signature("brk", 1, Brk)
    else if sysno == SYS_MOUNT then Signature("mount", 5, Common)
    else if sysno == SYS_MSYNC then Signature("msync", 3, Common)
    else if sysno == SYS_MMAP then Signature("mmap", 6, Mmap)
    else if sysno == SYS_MUNMAP then Signature("munmap", 2, Common)
    else if sysno == SYS_MPROTECT then Signature("mprotect", 3, Mprotect)
    else if sysno == SYS_PRLIMIT64 then Signature("prlimit64", 4, Common)
    else if sysno == SYS_GETRANDOM then Signature("getrandom", 3, Common)
    else if sysno == SYS_KILL then Signature("kill", 2, Kill)
    else if sysno == SYS_RT_SIGACTION then Signature("rt_sigaction", 3, RtSigaction)
    else if sysno == SYS_RT_SIGPROCMASK then Signature("rt_sigprocmask", 4, RtSigprocmask)
    else if sysno == SYS_CLONE then Signature("clone", 5, Clone)
    else if sysno == SYS_EXECVE then Signature("execve", 3, Execve)
    else if sysno == SYS_GETTID then Signature("gettid", 0, Common)
    else if sysno == SYS_GETGID then Signature("getgid", 0, Common)
    else if sysno == SYS_GETEGID then Signature("getegid", 0, Common)
    else if sysno == SYS_GETPID then Signature("getpid", 0, Getpid)
    else if sysno == SYS_GETPPID then Signature("getppid", 0, Getppid)
    else if sysno == SYS_GETUID then Signature("getuid", 0, Common)
    else if sysno == SYS_GETEUID then Signature("geteuid", 0, Common)
    else if sysno == SYS_TGKILL then Signature("tgkill", 3, Common)
    else if sysno == SYS_WAIT4 then Signature("wait4", 4, Wait4)
    else if sysno == SYS_GETDENTS64 then Signature("getdents64", 3, Common)
    else Signature("", ARG_SLOTS, Unhandled)
  }

  // Every row of the table is live: each of the 46 numbers reaches its own
  // row, and since the 46 names differ, no two rows share a number. The
  // lemmas below take the table four rows at a time, in its order.

  /** Rows `ioctl` to `faccessat`. */
  lemma SignatureRowsA()
    ensures SignatureOf(SYS_IOCTL) == Signature("ioctl", 3, Common)
    ensures SignatureOf(SYS_FCNTL) == Signature("fcntl", 3, Common)
    ensures SignatureOf(SYS_DUP3) == Signature("dup3", 3, Common)
    ensures SignatureOf(SYS_FACCESSAT) == Signature("faccessat", 3, AtPath)
  {
  }

  /** Rows `mkdirat` to `fchmodat`. */
  lemma SignatureRowsB()
    ensures SignatureOf(SYS_MKDIRAT) == Signature("mkdirat", 3, Common)
    ensures SignatureOf(SYS_GETCWD) == Signature("getcwd", 2, CwdPath)
    ensures SignatureOf(SYS_CHDIR) == Signature("chdir", 1, CwdPath)
    ensures SignatureOf(SYS_FCHMODAT) == Signature("fchmodat", 4, Common)
  {
  }

  /** Rows `fchownat` to `lseek`. */
  lemma SignatureRowsC()
    ensures SignatureOf(SYS_FCHOWNAT) == Signature("fchownat", 5, Common)
    ensures SignatureOf(SYS_OPENAT) == Signature("openat", 4, AtPath)
    ensures SignatureOf(SYS_CLOSE) == Signature("close", 1, Common)
    ensures SignatureOf(SYS_LSEEK) == Signature("lseek", 3, Common)
  {
  }

  /** Rows `sendfile` to `writev`. */
  lemma SignatureRowsD()
    ensures SignatureOf(SYS_SENDFILE) == Signature("sendfile", 4, Common)
    ensures SignatureOf(SYS_READ) == Signature("read", 3, Read)
    ensures SignatureOf(SYS_WRITE) == Signature("write", 3, Write)
    ensures SignatureOf(SYS_WRITEV) == Signature("writev", 3, Common)
  {
  }

  /** Rows `unlinkat` to `set_tid_address`. */
  lemma SignatureRowsE()
    ensures SignatureOf(SYS_UNLINKAT) == Signature("unlinkat", 3, AtPath)
    ensures SignatureOf(SYS_FSTATAT) == Signature("fstatat", 4, Fstatat)
    ensures SignatureOf(SYS_EXIT_GROUP) == Signature("exit_group", 1, Common)
    ensures SignatureOf(SYS_SET_TID_ADDRESS) == Signature("set_tid_address", 1, SetTidAddress)
  {
  }

  /** Rows `set_robust_list` to `brk`. */
  lemma SignatureRowsF()
    ensures SignatureOf(SYS_SET_ROBUST_LIST) == Signature("set_robust_list", 2, Common)
    ensures SignatureOf(SYS_CLOCK_GETTIME) == Signature("clock_gettime", 2, Common)
    ensures SignatureOf(SYS_UNAME) == Signature("uname", 1, Uname)
    ensures SignatureOf(SYS_BRK) == Signature("brk", 1, Brk)
  {
  }

  /** Rows `mount` to `munmap`. */
  lemma SignatureRowsG()
    ensures SignatureOf(SYS_MOUNT) == Signature("mount", 5, Common)
    ensures SignatureOf(SYS_MSYNC) == Signature("msync", 3, Common)
    ensures SignatureOf(SYS_MMAP) == Signature("mmap", 6, Mmap)
    ensures SignatureOf(SYS_MUNMAP) == Signature("munmap", 2, Common)
  {
  }

  /** Rows `mprotect` to `kill`. */
  lemma SignatureRowsH()
    ensures SignatureOf(SYS_MPROTECT) == Signature("mprotect", 3, Mprotect)
    ensures SignatureOf(SYS_PRLIMIT64) == Signature("prlimit64", 4, Common)
    ensures SignatureOf(SYS_GETRANDOM) == Signature("getrandom", 3, Common)
    ensures SignatureOf(SYS_KILL) == Signature("kill", 2, Kill)
  {
  }

  /** Rows `rt_sigaction` to `execve`. */
  lemma SignatureRowsI()
    ensures SignatureOf(SYS_RT_SIGACTION) == Signature("rt_sigaction", 3, RtSigaction)
    ensures SignatureOf(SYS_RT_SIGPROCMASK) == Signature("rt_sigprocmask", 4, RtSigprocmask)
    ensures SignatureOf(SYS_CLONE) == Signature("clone", 5, Clone)
    ensures SignatureOf(SYS_EXECVE) == Signature("execve", 3, Execve)
  {
  }

  /** Rows `gettid` to `getpid`. */
  lemma SignatureRowsJ()
    ensures SignatureOf(SYS_GETTID) == Signature("gettid", 0, Common)
    ensures SignatureOf(SYS_GETGID) == Signature("getgid", 0, Common)
    ensures SignatureOf(SYS_GETEGID) == Signature("getegid", 0, Common)
    ensures SignatureOf(SYS_GETPID) == Signature("getpid", 0, Getpid)
  {
  }

  /** Rows `getppid` to `tgkill`. */
  lemma SignatureRowsK()
    ensures SignatureOf(SYS_GETPPID) == Signature("getppid", 0, Getppid)
    ensures SignatureOf(SYS_GETUID) == Signature("getuid", 0, Common)
    ensures SignatureOf(SYS_GETEUID) == Signature("geteuid", 0, Common)
    ensures SignatureOf(SYS_TGKILL) == Signature("tgkill", 3, Common)
  {
  }

  /** Rows `wait4` and `getdents64`; `rt_sigreturn` has no row, so it is shown by number. */
  lemma SignatureRowsL()
    ensures SignatureOf(SYS_WAIT4) == Signature("wait4", 4, Wait4)
    ensures SignatureOf(SYS_GETDENTS64) == Signature("getdents64", 3, Common)
    ensures SignatureOf(SYS_RT_SIGRETURN).handler == Unhandled
  {
  }
}
