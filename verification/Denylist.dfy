/** The built-in denylist program: all checks jump to one shared return at the end. */
module Denylist {
  import opened CBpf
  import opened Prelude
  import GoSort
  import SF = SeccompFilter

  /** The forward distance from check `i` of `n` to the shared return, as the source's `uint8` holds it. */
  function Distance(n: nat, i: nat): uint8
    requires i < n
  {
    ((n - i) % 0x100) as uint8
  }

  function Program(blocked: seq<bv32>): seq<Instruction> {
    [SF.LoadField(NR_OFFSET)]
    + seq(|blocked|, i requires 0 <= i < |blocked| => SF.JumpIfEqual(Distance(|blocked|, i), 0, blocked[i]))
    + [SF.Return(RET_ALLOW), SF.Return(RET_ERRNO | (EPERM & 0x0000_ffff))]
  }

  const BLOCKED_SYSCALLS: seq<bv32> := [101, 321, 165, 166, 155, 169, 246, 103, 250, 248, 249, 167, 168, 161]

  method BuildDenylist(blocked: seq<bv32>) returns (filter: seq<Instruction>)
    ensures filter == Program(blocked)
  {
    filter := [SF.LoadField(NR_OFFSET)];
    var totalBlocked := |blocked|;
    for i := 0 to totalBlocked
      invariant |filter| == i + 1
      invariant filter[0] == SF.LoadField(NR_OFFSET)
      invariant forall j :: 0 <= j < i ==> filter[j + 1] == SF.JumpIfEqual(Distance(totalBlocked, j), 0, blocked[j])
    {
      var jumpTrue := ((totalBlocked - i) % 0x100) as uint8;
      filter := filter + [SF.JumpIfEqual(jumpTrue, 0, blocked[i])];
    }
    filter := filter + [SF.Return(RET_ALLOW)];
    filter := filter + [SF.Return(RET_ERRNO | (EPERM & 0x0000_ffff))];
    assert filter == Program(blocked);
  }

  /** The entries the program really enforces: an offset fits in 8 bits only for the last 255. */
  function Effective(blocked: seq<bv32>): seq<bv32> {
    if |blocked| <= 255 then blocked else blocked[|blocked| - 255..]
  }

  function Max(a: int, b: int): int { if a < b then b else a }

  function VerdictFor(denied: bool): bv32 { if denied then RET_ERRNO | EPERM else RET_ALLOW }

  /** What running `prog` from check `i` comes to: one step further, or one of the two returns at the end. */
  ghost predicate StepsLikeDenylist(prog: seq<Instruction>, blocked: seq<bv32>, d: SyscallData, i: nat)
    requires i <= |blocked|
  {
    && (i < |blocked| ==>
          Run(prog, d, i + 1, d.nr) ==
          Run(prog, d, i + 2 + (if d.nr == blocked[i] then Distance(|blocked|, i) as nat else 0), d.nr))
    && (i == |blocked| ==> Run(prog, d, i + 1, d.nr) == Verdict(VerdictFor(false)))
    && (i == |blocked| ==> Run(prog, d, i + 2, d.nr) == Verdict(VerdictFor(true)))
  }

  lemma Step(blocked: seq<bv32>, d: SyscallData, i: nat)
    requires i <= |blocked|
    ensures StepsLikeDenylist(Program(blocked), blocked, d, i)
  {
    assert EPERM & 0x0000_ffff == EPERM;
  }

  /** A distance that does not fit lands on a check no later than the last 255. */
  lemma WrappedLanding(n: nat, i: nat)
    requires i < n && n - i > 255
    ensures i < i + 1 + Distance(n, i) as nat <= n - 255
  {
  }

  predicate DeniedFrom(blocked: seq<bv32>, nr: bv32, i: nat)
    requires i <= |blocked|
  {
    nr in blocked[Max(i, |blocked| - 255)..]
  }

  /** Entering check `i` denies exactly the numbers in the enforceable part of the list from `i` on. */
  lemma {:induction false} RunFrom(prog: seq<Instruction>, blocked: seq<bv32>, d: SyscallData, i: nat)
    requires i <= |blocked| && forall k :: 0 <= k <= |blocked| ==> StepsLikeDenylist(prog, blocked, d, k)
    ensures Run(prog, d, i + 1, d.nr) == Verdict(VerdictFor(DeniedFrom(blocked, d.nr, i)))
    decreases |blocked| - i
  {
    var n := |blocked|;
    assert StepsLikeDenylist(prog, blocked, d, i);
    if i == n {
    } else if d.nr == blocked[i] && n - i <= 255 {
      assert StepsLikeDenylist(prog, blocked, d, n);
      assert blocked[i] in blocked[i..];
    } else {
      var next := i + 1 + if d.nr == blocked[i] then Distance(n, i) as nat else 0;
      SkippedChecks(blocked, d.nr, i, next);
      RunFrom(prog, blocked, d, next);
    }
  }

  /** A check that does not fire on its number, or lies before the last 255, decides nothing. */
  lemma SkippedChecks(blocked: seq<bv32>, nr: bv32, i: nat, next: nat)
    requires i < |blocked|
    requires (nr != blocked[i] && next == i + 1) || (|blocked| - i > 255 && next == i + 1 + Distance(|blocked|, i) as nat)
    ensures i < next <= |blocked|
    ensures DeniedFrom(blocked, nr, next) <==> DeniedFrom(blocked, nr, i)
  {
    if |blocked| - i > 255 {
      WrappedLanding(|blocked|, i);
    } else {
      assert blocked[i..] == [blocked[i]] + blocked[i + 1..];
    }
  }

  /** For a list of any length, the program fails exactly the members of `Effective` with EPERM and allows the rest. */
  lemma DenylistMeaning(blocked: seq<bv32>, d: SyscallData)
    ensures Execute(Program(blocked), d) == Verdict(VerdictFor(d.nr in Effective(blocked)))
  {
    assert Program(blocked)[0] == SF.LoadField(NR_OFFSET);
    forall k | 0 <= k <= |blocked| ensures StepsLikeDenylist(Program(blocked), blocked, d, k) {
      Step(blocked, d, k);
    }
    RunFrom(Program(blocked), blocked, d, 0);
  }

  /** The program denies every listed number exactly when the last 255 entries already contain them all. */
  lemma DenylistCompleteIff(blocked: seq<bv32>)
    ensures (forall d :: Execute(Program(blocked), d) == Verdict(VerdictFor(d.nr in blocked)))
            <==> forall nr :: nr in blocked ==> nr in Effective(blocked)
  {
    if forall nr :: nr in blocked ==> nr in Effective(blocked) {
      forall d ensures Execute(Program(blocked), d) == Verdict(VerdictFor(d.nr in blocked)) {
        DenylistMeaning(blocked, d);
      }
    }
    if forall d :: Execute(Program(blocked), d) == Verdict(VerdictFor(d.nr in blocked)) {
      forall nr | nr in blocked ensures nr in Effective(blocked) {
        var d := SyscallData(nr, 0, map[]);
        DenylistMeaning(blocked, d);
        assert RET_ERRNO | EPERM != RET_ALLOW;
      }
    }
  }

  ghost predicate NoRepeats(s: seq<bv32>) {
    forall i, j :: 0 <= i < j < |s| ==> s[i] != s[j]
  }

  /** Without repeated numbers, 255 entries is the exact bound at which the 8-bit offset still works. */
  lemma BoundIs255(blocked: seq<bv32>)
    requires NoRepeats(blocked)
    ensures (forall d :: Execute(Program(blocked), d) == Verdict(VerdictFor(d.nr in blocked))) <==> |blocked| <= 255
  {
    DenylistCompleteIff(blocked);
    if |blocked| > 255 {
      assert blocked[0] in blocked && blocked[0] !in Effective(blocked);
    }
  }

  /** The inline-return program for the same numbers, each with an EPERM verdict. */
  function InlineRules(blocked: seq<bv32>): seq<SF.CompiledRule> {
    seq(|blocked|, i requires 0 <= i < |blocked| => SF.CompiledRule(blocked[i], RET_ERRNO | EPERM))
  }

  /** Up to 255 entries the two layouts agree on a call exactly when it is an x86-64 call, whatever sorted
      permutation of the rules the inline-return program is made of: only that program checks the architecture. */
  lemma LayoutsAgreeIff(blocked: seq<bv32>, sorted: seq<SF.CompiledRule>, d: SyscallData)
    requires |blocked| <= 255 && GoSort.SortOf(SF.BY_NUMBER, sorted, InlineRules(blocked))
    ensures Execute(Program(blocked), d) == Execute(SF.Program(sorted, RET_ALLOW), d)
            <==> d.arch == AUDIT_ARCH_X86_64
  {
    DenylistMeaning(blocked, d);
    SF.RunProgram(sorted, RET_ALLOW, d);
    InlineMatch(blocked, sorted, d.nr);
    assert RET_ERRNO | EPERM != RET_KILL_THREAD;
  }

  lemma InlineMatch(blocked: seq<bv32>, sorted: seq<SF.CompiledRule>, nr: bv32)
    requires GoSort.SortOf(SF.BY_NUMBER, sorted, InlineRules(blocked))
    ensures SF.FirstMatch(sorted, 0, nr, RET_ALLOW) == VerdictFor(nr in blocked)
  {
    SF.FirstMatchIsAMatch(sorted, 0, nr, RET_ALLOW);
    assert sorted[0..] == sorted;
    forall c ensures c in sorted <==> c in InlineRules(blocked) {
      assert c in multiset(sorted) <==> c in multiset(InlineRules(blocked));
    }
    if nr in blocked {
      var i :| 0 <= i < |blocked| && blocked[i] == nr;
      assert InlineRules(blocked)[i] in sorted;
    }
  }

  /** What the shipped program does with every call, by number: ptrace, bpf, mount, umount2, pivot_root, reboot,
      kexec_load, syslog, keyctl, add_key, request_key, swapon, swapoff and chroot fail with EPERM. */
  lemma ShippedDenylist(d: SyscallData)
    ensures Execute(Program(BLOCKED_SYSCALLS), d) == Verdict(
              if d.nr in {101, 321, 165, 166, 155, 169, 246, 103, 250, 248, 249, 167, 168, 161} then 0x0005_0001
              else 0x7fff_0000)
  {
    DenylistMeaning(BLOCKED_SYSCALLS, d);
    assert RET_ERRNO | EPERM == 0x0005_0001;
  }

  /** The program in numbers, as the kernel gets it. */
  lemma ProgramInNumbers(blocked: seq<bv32>)
    ensures var prog, n := Program(blocked), |blocked|;
            && |prog| == n + 3 && prog[0] == Instruction(0x20, 0, 0, 0)
            && (forall i :: 0 <= i < n ==> prog[1 + i] == Instruction(0x15, ((n - i) % 256) as uint8, 0, blocked[i]))
            && prog[n + 1] == Instruction(0x06, 0, 0, 0x7fff_0000)
            && prog[n + 2] == Instruction(0x06, 0, 0, 0x0005_0001)
  {
    assert LD | W | ABS == 0x20 && JMP | JEQ | K == 0x15 && RET | K == 0x06;
    assert RET_ERRNO | (EPERM & 0xffff) == 0x0005_0001;
  }

  /** Every jump of the denylist program stays inside it, for every list. */
  lemma ProgramWellFormed(blocked: seq<bv32>)
    ensures WellFormed(Program(blocked)) && |Program(blocked)| == |blocked| + 3
  {
    var prog, n := Program(blocked), |blocked|;
    forall pc | 0 <= pc < |prog| ensures WellPlaced(prog, pc) {
      if 1 <= pc <= n {
        assert prog[pc] == SF.JumpIfEqual(Distance(n, pc - 1), 0, blocked[pc - 1]);
      }
    }
  }

  /** The 16-bit length handed to the kernel is the true one exactly up to 65532 entries. */
  lemma LengthFieldExact(blocked: seq<bv32>)
    ensures |Program(blocked)| % 0x1_0000 == |Program(blocked)| <==> |blocked| <= 65532
  {
    ProgramWellFormed(blocked);
  }

  /** What the kernel gets: as many instructions as the truncated length says. */
  function Installed(blocked: seq<bv32>): seq<Instruction> {
    Program(blocked)[..|Program(blocked)| % 0x1_0000]
  }

  /** What is handed over is a well-formed program if and only if the length fits, and then it enforces the
      last 255 entries; a cut program has no return at its end. */
  lemma InstalledMeaning(blocked: seq<bv32>, d: SyscallData)
    ensures WellFormed(Installed(blocked)) <==> |blocked| <= 65532
    ensures |blocked| <= 65532 ==> Execute(Installed(blocked), d) == Verdict(VerdictFor(d.nr in Effective(blocked)))
  {
    ProgramWellFormed(blocked);
    DenylistMeaning(blocked, d);
    var prog, cut := Program(blocked), |Program(blocked)| % 0x1_0000;
    if |blocked| <= 65532 {
      assert Installed(blocked) == prog;
    } else if cut > 0 {
      assert Installed(blocked)[cut - 1] == prog[cut - 1];
      assert !WellPlaced(Installed(blocked), cut - 1);
    }
  }
}
