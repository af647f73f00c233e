/** Syscall numbers of the decoder (lktrace/src/sysno.rs), from the generic
    Linux table that RISC-V uses. */
module SysNo {
  import opened Numbers
  import SyscallTrace

  const SYS_GETCWD: u64 := 0x11
  const SYS_DUP3: u64 := 0x18
  const SYS_FCNTL: u64 := 0x19
  const SYS_IOCTL: u64 := 0x1d
  const SYS_MKDIRAT: u64 := 0x22
  const SYS_UNLINKAT: u64 := 0x23
  const SYS_MOUNT: u64 := 0x28
  const SYS_FACCESSAT: u64 := 0x30
  const SYS_CHDIR: u64 := 0x31
  const SYS_FCHMODAT: u64 := 0x35
  const SYS_FCHOWNAT: u64 := 0x36
  const SYS_OPENAT: u64 := 0x38
  const SYS_CLOSE: u64 := 0x39
  const SYS_GETDENTS64: u64 := 0x3d
  const SYS_LSEEK: u64 := 0x3e
  const SYS_READ: u64 := 0x3f
  const SYS_WRITE: u64 := 0x40
  const SYS_WRITEV: u64 := 0x42
  const SYS_SENDFILE: u64 := 0x47
  const SYS_FSTATAT: u64 := 0x4f
  const SYS_EXIT_GROUP: u64 := 0x5e
  const SYS_KILL: u64 := 0x81
  const SYS_TGKILL: u64 := 0x83
  const SYS_RT_SIGACTION: u64 := 0x86
  const SYS_RT_SIGPROCMASK: u64 := 0x87
  const SYS_RT_SIGRETURN: u64 := 0x8b
  const SYS_UNAME: u64 := 0xa0
  const SYS_GETPID: u64 := 0xac
  const SYS_GETPPID: u64 := 0xad
  const SYS_GETUID: u64 := 0xae
  const SYS_GETEUID: u64 := 0xaf
  const SYS_GETGID: u64 := 0xb0
  const SYS_GETEGID: u64 := 0xb1
  const SYS_GETTID: u64 := 0xb2
  const SYS_BRK: u64 := 0xd6
  const SYS_MUNMAP: u64 := 0xd7
  const SYS_CLONE: u64 := 0xdc
  const SYS_EXECVE: u64 := 0xdd
  const SYS_MMAP: u64 := 0xde
  const SYS_MPROTECT: u64 := 0xe2
  const SYS_MSYNC: u64 := 0xe3
  const SYS_WAIT4: u64 := 0x104
  const SYS_PRLIMIT64: u64 := 0x105
  const SYS_GETRANDOM: u64 := 0x116
  const SYS_SET_TID_ADDRESS: u64 := 0x60
  const SYS_SET_ROBUST_LIST: u64 := 0x63
  const SYS_CLOCK_GETTIME: u64 := 0x71

  const MAX_SYSCALL_NBR: u64 := 451

  /** The emulator's header and the decoder's table give every syscall
      they share the same number. */
  lemma EmitterAndDecoderAgree()
    ensures SyscallTrace.NR_IOCTL == SYS_IOCTL && SyscallTrace.NR_FACCESSAT == SYS_FACCESSAT
    ensures SyscallTrace.NR_OPENAT == SYS_OPENAT && SyscallTrace.NR_READ == SYS_READ
    ensures SyscallTrace.NR_WRITE == SYS_WRITE && SyscallTrace.NR_FSTATAT == SYS_FSTATAT
    ensures SyscallTrace.NR_SET_TID_ADDRESS == SYS_SET_TID_ADDRESS
    ensures SyscallTrace.NR_SET_ROBUST_LIST == SYS_SET_ROBUST_LIST
    ensures SyscallTrace.NR_UNAME == SYS_UNAME && SyscallTrace.NR_BRK == SYS_BRK
    ensures SyscallTrace.NR_MMAP == SYS_MMAP && SyscallTrace.NR_MPROTECT == SYS_MPROTECT
    ensures SyscallTrace.NR_PRLIMIT64 == SYS_PRLIMIT64 && SyscallTrace.NR_GETRANDOM == SYS_GETRANDOM
  {
  }
}
