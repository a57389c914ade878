/** The table from syscall names to numbers. */
module SyscallTable {
  import opened Prelude

  function SyscallNameToNR(name: string): Option<bv32> {
    match name
    case "read" => Some(0)
    case "write" => Some(1)
    case "open" => Some(2)
    case "close" => Some(3)
    case "stat" => Some(4)
    case "fstat" => Some(5)
    case "lstat" => Some(6)
    case "poll" => Some(7)
    case "lseek" => Some(8)
    case "mmap" => Some(9)
    case "mprotect" => Some(10)
    case "munmap" => Some(11)
    case "brk" => Some(12)
    case "rt_sigaction" => Some(13)
    case "rt_sigprocmask" => Some(14)
    case "rt_sigreturn" => Some(15)
    case "ioctl" => Some(16)
    case "access" => Some(21)
    case "pipe" => Some(22)
    case "select" => Some(23)
    case "sched_yield" => Some(24)
    case "mremap" => Some(25)
    case "dup" => Some(32)
    case "dup2" => Some(33)
    case "pause" => Some(34)
    case "nanosleep" => Some(35)
    case "getpid" => Some(39)
    case "socket" => Some(41)
    case "connect" => Some(42)
    case "accept" => Some(43)
    case "sendto" => Some(44)
    case "recvfrom" => Some(45)
    case "clone" => Some(56)
    case "fork" => Some(57)
    case "vfork" => Some(58)
    case "execve" => Some(59)
    case "exit" => Some(60)
    case "wait4" => Some(61)
    case "kill" => Some(62)
    case "uname" => Some(63)
    case "fcntl" => Some(72)
    case "fsync" => Some(74)
    case "getdents" => Some(78)
    case "getcwd" => Some(79)
    case "chdir" => Some(80)
    case "mkdir" => Some(83)
    case "rmdir" => Some(84)
    case "unlink" => Some(87)
    case "readlink" => Some(89)
    case "chmod" => Some(90)
    case "chown" => Some(92)
    case "umask" => Some(95)
    case "getuid" => Some(102)
    case "syslog" => Some(103)
    case "getgid" => Some(104)
    case "setuid" => Some(105)
    case "setgid" => Some(106)
    case "ptrace" => Some(101)
    case "prctl" => Some(157)
    case "pivot_root" => Some(155)
    case "mount" => Some(165)
    case "umount2" => Some(166)
    case "swapon" => Some(167)
    case "swapoff" => Some(168)
    case "reboot" => Some(169)
    case "sethostname" => Some(170)
    case "init_module" => Some(175)
    case "delete_module" => Some(176)
    case "futex" => Some(202)
    case "exit_group" => Some(231)
    case "epoll_wait" => Some(232)
    case "epoll_ctl" => Some(233)
    case "tgkill" => Some(234)
    case "kexec_load" => Some(246)
    case "openat" => Some(257)
    case "mkdirat" => Some(258)
    case "newfstatat" => Some(262)
    case "unlinkat" => Some(263)
    case "unshare" => Some(272)
    case "finit_module" => Some(313)
    case "seccomp" => Some(317)
    case "kexec_file_load" => Some(320)
    case "bpf" => Some(321)
    case "clone3" => Some(435)
    case "close_range" => Some(436)
    case _ => None
  }

  // The table against the x86-64 numbering, in groups.

  lemma Numbers1(name: string, nr: bv32)
    requires (name, nr) in {
               ("read", 0 as bv32), ("write", 1), ("open", 2), ("close", 3), ("stat", 4), ("fstat", 5),
               ("lstat", 6), ("poll", 7), ("lseek", 8), ("mmap", 9), ("mprotect", 10), ("munmap", 11),
               ("brk", 12), ("rt_sigaction", 13), ("rt_sigprocmask", 14), ("rt_sigreturn", 15), ("ioctl", 16),
               ("access", 21), ("pipe", 22), ("select", 23)
             }
    ensures SyscallNameToNR(name) == Some(nr)
  {
  }

  lemma Numbers2(name: string, nr: bv32)
    requires (name, nr) in {
               ("sched_yield", 24 as bv32), ("mremap", 25), ("dup", 32), ("dup2", 33), ("pause", 34),
               ("nanosleep", 35), ("getpid", 39), ("socket", 41), ("connect", 42), ("accept", 43), ("sendto", 44),
               ("recvfrom", 45), ("clone", 56), ("fork", 57), ("vfork", 58), ("execve", 59), ("exit", 60)
             }
    ensures SyscallNameToNR(name) == Some(nr)
  {
  }

  lemma Numbers3(name: string, nr: bv32)
    requires (name, nr) in {
               ("wait4", 61 as bv32), ("kill", 62), ("uname", 63), ("fcntl", 72), ("fsync", 74), ("getdents", 78),
               ("getcwd", 79), ("chdir", 80), ("mkdir", 83), ("rmdir", 84), ("unlink", 87), ("readlink", 89),
               ("chmod", 90), ("chown", 92)
             }
    ensures SyscallNameToNR(name) == Some(nr)
  {
  }

  lemma Numbers4(name: string, nr: bv32)
    requires (name, nr) in {
               ("umask", 95 as bv32), ("getuid", 102), ("syslog", 103), ("getgid", 104), ("setuid", 105),
               ("setgid", 106), ("ptrace", 101), ("prctl", 157), ("pivot_root", 155), ("mount", 165),
               ("umount2", 166)
             }
    ensures SyscallNameToNR(name) == Some(nr)
  {
  }

  lemma Numbers5(name: string, nr: bv32)
    requires (name, nr) in {
               ("swapon", 167 as bv32), ("swapoff", 168), ("reboot", 169), ("sethostname", 170),
               ("init_module", 175), ("delete_module", 176), ("futex", 202), ("exit_group", 231)
             }
    ensures SyscallNameToNR(name) == Some(nr)
  {
  }

  lemma Numbers6(name: string, nr: bv32)
    requires (name, nr) in {
               ("epoll_wait", 232 as bv32), ("epoll_ctl", 233), ("tgkill", 234), ("kexec_load", 246),
               ("openat", 257), ("mkdirat", 258), ("newfstatat", 262), ("unlinkat", 263)
             }
    ensures SyscallNameToNR(name) == Some(nr)
  {
  }

  lemma Numbers7(name: string, nr: bv32)
    requires (name, nr) in {
               ("unshare", 272 as bv32), ("finit_module", 313), ("seccomp", 317), ("kexec_file_load", 320),
               ("bpf", 321), ("clone3", 435), ("close_range", 436)
             }
    ensures SyscallNameToNR(name) == Some(nr)
  {
  }

  // The numbers of the names in the built-in profile.

  lemma TraceAndKexecNumbers()
    ensures SyscallNameToNR("ptrace") == Some(101)
    ensures SyscallNameToNR("bpf") == Some(321)
    ensures SyscallNameToNR("kexec_load") == Some(246)
    ensures SyscallNameToNR("kexec_file_load") == Some(320)
  {
  }

  lemma MountNumbers()
    ensures SyscallNameToNR("pivot_root") == Some(155)
    ensures SyscallNameToNR("mount") == Some(165)
    ensures SyscallNameToNR("umount2") == Some(166)
  {
  }

  lemma SwapAndRebootNumbers()
    ensures SyscallNameToNR("swapon") == Some(167)
    ensures SyscallNameToNR("swapoff") == Some(168)
    ensures SyscallNameToNR("reboot") == Some(169)
  {
  }

  lemma ModuleNumbers()
    ensures SyscallNameToNR("init_module") == Some(175)
    ensures SyscallNameToNR("finit_module") == Some(313)
    ensures SyscallNameToNR("delete_module") == Some(176)
  {
  }

  lemma SysfsHasNoNumber()
    ensures SyscallNameToNR("sysfs") == None
  {
  }

  /** Some name in the table carries number `nr`. */
  ghost predicate Tabled(nr: bv32) {
    exists name :: SyscallNameToNR(name) == Some(nr)
  }

  /** x86-64's number for `sysfs`, which no table entry carries. */
  const SYS_SYSFS: bv32 := 139

  lemma SysfsIsUntabled()
    ensures !Tabled(SYS_SYSFS)
  {
  }
}
