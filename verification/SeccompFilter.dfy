/** The declarative seccomp profile and its compiler to classic BPF. */
module SeccompFilter {
  import opened CBpf
  import opened Prelude
  import opened SyscallTable
  import GoSort

  /** The action strings of a profile; `Unrecognized` is any other string. */
  datatype Action = Allow | Errno | Kill | Trap | Trace | Unrecognized(text: string)

  datatype SyscallRule = SyscallRule(name: string, action: Action, errno: bv32)

  datatype Profile = Profile(defaultAction: Action, syscalls: seq<SyscallRule>)

  datatype CompiledRule = CompiledRule(nr: bv32, value: bv32)

  function ActionToValue(action: Action, errno: bv32): bv32 {
    match action
    case Allow => RET_ALLOW
    case Errno => RET_ERRNO | ((if errno == 0 then EPERM else errno) & 0x0000_ffff)
    case Kill => RET_KILL_THREAD
    case Trap => RET_TRAP
    case Trace => RET_TRACE
    case Unrecognized(_) => RET_ERRNO | EPERM
  }

  // ---------------------------------------------------------------------------
  // What a verdict word means to the kernel
  // ---------------------------------------------------------------------------

  /** The kernel's reading of a verdict word: action in the upper half, data in the lower. `FailWith` is the
      error the process sees: the kernel caps a filter's errno at its largest error number. */
  datatype KernelAction = KillThread | TrapSignal | FailWith(errno: bv32) | NotifyTracer | Proceed | Other

  const MAX_ERRNO: bv32 := 4095

  function Capped(errno: bv32): bv32 { if errno > MAX_ERRNO then MAX_ERRNO else errno }

  function Decode(value: bv32): KernelAction {
    var action := value & 0xffff_0000;
    if action == RET_KILL_THREAD then KillThread
    else if action == RET_TRAP then TrapSignal
    else if action == RET_ERRNO then FailWith(Capped(value & 0x0000_ffff))
    else if action == RET_TRACE then NotifyTracer
    else if action == RET_ALLOW then Proceed
    else Other
  }

  /** The verdict words in numbers. */
  lemma VerdictWords(action: Action, errno: bv32)
    ensures ActionToValue(action, errno) ==
            match action
            case Allow => 0x7fff_0000
            case Errno => 0x0005_0000 | ((if errno == 0 then 1 else errno) & 0x0000_ffff)
            case Kill => 0
            case Trap => 0x0003_0000
            case Trace => 0x7ff0_0000
            case Unrecognized(_) => 0x0005_0001
  {
  }

  /** The upper half of an errno word is the action, the lower half the errno's low 16 bits. */
  lemma ErrnoWord(e: bv32)
    ensures (RET_ERRNO | (e & 0xffff)) & 0xffff_0000 == RET_ERRNO
    ensures (RET_ERRNO | (e & 0xffff)) & 0xffff == e & 0xffff
  {
  }

  lemma LowHalf(e: bv32)
    ensures e & 0xffff == e % 0x1_0000
  {
  }

  /** The errno an errno rule stands for: 0 means EPERM. */
  function Listed(errno: bv32): bv32 { if errno == 0 then EPERM else errno }

  /** The error a process sees under an errno rule: the listed errno modulo 2^16, capped. */
  function SeenErrno(errno: bv32): bv32 { Capped(Listed(errno) % 0x1_0000) }

  lemma ErrnoDecodes(errno: bv32)
    ensures Decode(ActionToValue(Errno, errno)) == FailWith(SeenErrno(errno))
  {
    ErrnoWord(Listed(errno));
    LowHalf(Listed(errno));
  }

  /** Verdict words decode back to the action, an errno word to the error that the process is to see. */
  lemma VerdictDecodes(action: Action, errno: bv32)
    ensures Decode(ActionToValue(action, errno)) ==
            match action
            case Allow => Proceed
            case Errno => FailWith(SeenErrno(errno))
            case Kill => KillThread
            case Trap => TrapSignal
            case Trace => NotifyTracer
            case Unrecognized(_) => FailWith(EPERM)
  {
    match action
    case Errno => ErrnoDecodes(errno);
    case Unrecognized(_) =>
      ErrnoWord(EPERM);
      assert EPERM & 0xffff == EPERM;
    case _ =>
  }

  lemma CapIsZeroIff(e: bv32)
    ensures Capped(e) == 0 <==> e == 0
  {
  }

  /** An errno rule makes the call fail with a non-zero error unless its errno is a non-zero multiple of 2^16. */
  lemma ErrnoSurvivesTruncation(errno: bv32)
    ensures SeenErrno(errno) != 0 <==> errno == 0 || errno % 0x1_0000 != 0
  {
    CapIsZeroIff(Listed(errno) % 0x1_0000);
  }

  lemma CappedLowHalf(e: bv32)
    ensures Capped(e & 0xffff) == e <==> e <= MAX_ERRNO
  {
  }

  /** The process sees exactly the errno its rule stands for if and only if that is a kernel error number. */
  lemma ErrnoDeliveredIff(errno: bv32)
    ensures SeenErrno(errno) == Listed(errno) <==> Listed(errno) <= MAX_ERRNO
  {
    LowHalf(Listed(errno));
    CappedLowHalf(Listed(errno));
  }

  // ---------------------------------------------------------------------------
  // The declarative meaning
  // ---------------------------------------------------------------------------

  /** `r` is a rule of `p` that the compiler can place on number `nr`. */
  predicate Names(p: Profile, r: SyscallRule, nr: bv32) {
    r in p.syscalls && SyscallNameToNR(r.name) == Some(nr)
  }

  function DefaultVerdict(p: Profile): bv32 {
    ActionToValue(p.defaultAction, EPERM)
  }

  /** `value` is a verdict the profile prescribes for number `nr`. */
  ghost predicate Prescribes(p: Profile, nr: bv32, value: bv32) {
    if exists r :: Names(p, r, nr)
    then exists r :: Names(p, r, nr) && value == ActionToValue(r.action, r.errno)
    else value == DefaultVerdict(p)
  }

  /** Running `prog` on call `d` kills foreign architectures and otherwise does what the profile prescribes. */
  ghost predicate Implements(prog: seq<Instruction>, p: Profile, d: SyscallData) {
    var outcome := Execute(prog, d);
    && (d.arch != AUDIT_ARCH_X86_64 ==> outcome == Verdict(RET_KILL_THREAD))
    && (d.arch == AUDIT_ARCH_X86_64 ==> outcome.Verdict? && Prescribes(p, d.nr, outcome.value))
  }

  // ---------------------------------------------------------------------------
  // The compiler
  // ---------------------------------------------------------------------------

  function CompileRule(r: SyscallRule): seq<CompiledRule> {
    match SyscallNameToNR(r.name)
    case None => []
    case Some(nr) => [CompiledRule(nr, ActionToValue(r.action, r.errno))]
  }

  /** The rules whose names the table knows, in profile order; the others vanish. */
  function Known(rules: seq<SyscallRule>): seq<CompiledRule> {
    Gather(CompileRule, rules)
  }

  const BY_NUMBER := (x: CompiledRule, y: CompiledRule) => x.nr as int < y.nr as int

  function LoadField(offset: bv32): Instruction { Instruction(LD | W | ABS, 0, 0, offset) }
  function JumpIfEqual(jt: uint8, jf: uint8, k: bv32): Instruction { Instruction(JMP | JEQ | K, jt, jf, k) }
  function Return(k: bv32): Instruction { Instruction(RET | K, 0, 0, k) }

  const PROLOGUE := [
    LoadField(ARCH_OFFSET), JumpIfEqual(1, 0, AUDIT_ARCH_X86_64), Return(RET_KILL_THREAD), LoadField(NR_OFFSET)
  ]

  function Checks(rules: seq<CompiledRule>): seq<Instruction> {
    seq(2 * |rules|, i requires 0 <= i < 2 * |rules| =>
      if i % 2 == 0 then JumpIfEqual(0, 1, rules[i / 2].nr) else Return(rules[i / 2].value))
  }

  /** The generated program: each rule carries its own return. */
  function Program(rules: seq<CompiledRule>, defaultRet: bv32): seq<Instruction> {
    PROLOGUE + Checks(rules) + [Return(defaultRet)]
  }

  lemma ByNumberIsStrictWeak()
    ensures GoSort.StrictWeakOrder(BY_NUMBER)
  {
  }

  /** The first loop: translate the rules whose names are known, skip the others. */
  method TranslateRules(syscalls: seq<SyscallRule>) returns (rules: seq<CompiledRule>)
    ensures rules == Known(syscalls)
  {
    rules := [];
    for i := 0 to |syscalls|
      invariant rules == Known(syscalls[..i])
    {
      assert syscalls[..i + 1][..i] == syscalls[..i];
      var nr := SyscallNameToNR(syscalls[i].name);
      if nr.None? {
        continue;
      }
      rules := rules + [CompiledRule(nr.value, ActionToValue(syscalls[i].action, syscalls[i].errno))];
    }
    assert syscalls[..|syscalls|] == syscalls;
  }

  /** The last loop: one check and one return per rule. */
  method EmitChecks(filter0: seq<Instruction>, rules: seq<CompiledRule>) returns (filter: seq<Instruction>)
    ensures filter == filter0 + Checks(rules)
  {
    filter := filter0;
    assert filter0 + Checks([]) == filter0;
    for i := 0 to |rules|
      invariant filter == filter0 + Checks(rules[..i])
    {
      filter := filter + [JumpIfEqual(0, 1, rules[i].nr), Return(rules[i].value)];
      ChecksGrow(rules, i);
    }
    assert rules[..|rules|] == rules;
  }

  lemma ChecksGrow(rules: seq<CompiledRule>, i: nat)
    requires i < |rules|
    ensures Checks(rules[..i + 1]) == Checks(rules[..i]) + [JumpIfEqual(0, 1, rules[i].nr), Return(rules[i].value)]
  {
  }

  // ---------------------------------------------------------------------------
  // Correctness
  // ---------------------------------------------------------------------------

  /** The first rule from index `i` on that carries `nr` wins. */
  function FirstMatch(rules: seq<CompiledRule>, i: nat, nr: bv32, defaultRet: bv32): bv32
    requires i <= |rules|
    decreases |rules| - i
  {
    if i == |rules| then defaultRet
    else if rules[i].nr == nr then rules[i].value
    else FirstMatch(rules, i + 1, nr, defaultRet)
  }

  /** A check with its return right behind it. */
  lemma CheckAndReturn(prog: seq<Instruction>, d: SyscallData, pc: nat, a: bv32, nr: bv32, value: bv32)
    requires pc + 1 < |prog| && prog[pc] == JumpIfEqual(0, 1, nr) && prog[pc + 1] == Return(value)
    ensures Run(prog, d, pc, a) == if a == nr then Verdict(value) else Run(prog, d, pc + 2, a)
  {
    assert a == nr ==> Run(prog, d, pc, a) == Run(prog, d, pc + 1, a);
  }

  lemma CheckPlaced(rules: seq<CompiledRule>, defaultRet: bv32, i: nat)
    requires i < |rules|
    ensures var prog := Program(rules, defaultRet);
            prog[4 + 2 * i] == JumpIfEqual(0, 1, rules[i].nr) && prog[4 + 2 * i + 1] == Return(rules[i].value)
  {
    var prog := Program(rules, defaultRet);
    assert (2 * i) / 2 == i && (2 * i + 1) / 2 == i;
    assert prog[4 + 2 * i] == Checks(rules)[2 * i];
    assert prog[4 + 2 * i + 1] == Checks(rules)[2 * i + 1];
  }

  /** Check `i` returns its rule's verdict on the rule's number and passes control on otherwise. */
  ghost predicate StepsLikeRules(prog: seq<Instruction>, rules: seq<CompiledRule>, defaultRet: bv32, d: SyscallData, i: nat)
    requires i <= |rules|
  {
    Run(prog, d, 4 + 2 * i, d.nr) ==
    if i == |rules| then Verdict(defaultRet)
    else if rules[i].nr == d.nr then Verdict(rules[i].value)
    else Run(prog, d, 4 + 2 * (i + 1), d.nr)
  }

  lemma Step(rules: seq<CompiledRule>, defaultRet: bv32, d: SyscallData, i: nat)
    requires i <= |rules|
    ensures StepsLikeRules(Program(rules, defaultRet), rules, defaultRet, d, i)
  {
    var prog := Program(rules, defaultRet);
    if i < |rules| {
      CheckPlaced(rules, defaultRet, i);
      CheckAndReturn(prog, d, 4 + 2 * i, d.nr, rules[i].nr, rules[i].value);
    } else {
      assert prog[4 + 2 * i] == Return(defaultRet);
    }
  }

  /** The pc/suffix invariant: entering check `i` decides among the rules from `i` on. */
  lemma {:induction false} RunChecks(prog: seq<Instruction>, rules: seq<CompiledRule>, defaultRet: bv32, d: SyscallData, i: nat)
    requires i <= |rules| && forall k :: 0 <= k <= |rules| ==> StepsLikeRules(prog, rules, defaultRet, d, k)
    ensures Run(prog, d, 4 + 2 * i, d.nr) == Verdict(FirstMatch(rules, i, d.nr, defaultRet))
    decreases |rules| - i
  {
    assert StepsLikeRules(prog, rules, defaultRet, d, i);
    if i < |rules| {
      RunChecks(prog, rules, defaultRet, d, i + 1);
    }
  }

  lemma RunProgram(rules: seq<CompiledRule>, defaultRet: bv32, d: SyscallData)
    ensures Execute(Program(rules, defaultRet), d) ==
            Verdict(if d.arch != AUDIT_ARCH_X86_64 then RET_KILL_THREAD else FirstMatch(rules, 0, d.nr, defaultRet))
  {
    var prog := Program(rules, defaultRet);
    assert prog[0] == LoadField(ARCH_OFFSET);
    assert prog[1] == JumpIfEqual(1, 0, AUDIT_ARCH_X86_64);
    assert prog[2] == Return(RET_KILL_THREAD);
    assert prog[3] == LoadField(NR_OFFSET);
    forall k | 0 <= k <= |rules| ensures StepsLikeRules(prog, rules, defaultRet, d, k) {
      Step(rules, defaultRet, d, k);
    }
    RunChecks(prog, rules, defaultRet, d, 0);
    assert Run(prog, d, 3, d.arch) == Run(prog, d, 4, d.nr);
    if d.arch == AUDIT_ARCH_X86_64 {
      assert Run(prog, d, 1, d.arch) == Run(prog, d, 3, d.arch);
    } else {
      assert Run(prog, d, 1, d.arch) == Run(prog, d, 2, d.arch);
    }
  }

  /** `c` is the table's number and the action's verdict for rule `r`. */
  predicate TranslatesTo(r: SyscallRule, c: CompiledRule) {
    SyscallNameToNR(r.name) == Some(c.nr) && c.value == ActionToValue(r.action, r.errno)
  }

  lemma CompiledIff(r: SyscallRule, c: CompiledRule)
    ensures c in CompileRule(r) <==> TranslatesTo(r, c)
    ensures |CompileRule(r)| == if SyscallNameToNR(r.name).Some? then 1 else 0
  {
  }

  /** `Known` keeps exactly the translations of table-known rules. */
  lemma KnownIffNamed(rules: seq<SyscallRule>, c: CompiledRule)
    ensures c in Known(rules) <==>
            exists r :: r in rules && TranslatesTo(r, c)
  {
    GatherIff(CompileRule, rules, c);
    forall r ensures c in CompileRule(r) <==> TranslatesTo(r, c) {
      CompiledIff(r, c);
    }
  }

  lemma {:induction false} FirstMatchIsAMatch(rules: seq<CompiledRule>, i: nat, nr: bv32, defaultRet: bv32)
    requires i <= |rules|
    ensures var v := FirstMatch(rules, i, nr, defaultRet);
            || (CompiledRule(nr, v) in rules[i..])
            || (v == defaultRet && forall c :: c in rules[i..] ==> c.nr != nr)
    decreases |rules| - i
  {
    if i < |rules| {
      FirstMatchIsAMatch(rules, i + 1, nr, defaultRet);
      assert rules[i..] == [rules[i]] + rules[i + 1..];
    }
  }

  /** Compilation preserves the profile's meaning, whichever sorted permutation the sort picks. */
  lemma CompilerCorrect(p: Profile, sorted: seq<CompiledRule>, d: SyscallData)
    requires GoSort.SortOf(BY_NUMBER, sorted, Known(p.syscalls))
    ensures Implements(Program(sorted, DefaultVerdict(p)), p, d)
  {
    var v := FirstMatch(sorted, 0, d.nr, DefaultVerdict(p));
    RunProgram(sorted, DefaultVerdict(p), d);
    FirstMatchIsAMatch(sorted, 0, d.nr, DefaultVerdict(p));
    assert sorted[0..] == sorted;
    forall c ensures c in sorted <==> c in Known(p.syscalls) {
      assert c in multiset(sorted) <==> c in multiset(Known(p.syscalls));
    }
    KnownIffNamed(p.syscalls, CompiledRule(d.nr, v));
    if r :| Names(p, r, d.nr) {
      var c := CompiledRule(d.nr, ActionToValue(r.action, r.errno));
      KnownIffNamed(p.syscalls, c);
      assert TranslatesTo(r, c);
      assert c in sorted;
      assert CompiledRule(d.nr, v) in sorted;
      var w :| w in p.syscalls && TranslatesTo(w, CompiledRule(d.nr, v));
      assert Names(p, w, d.nr);
    } else {
      if CompiledRule(d.nr, v) in sorted {
        var w :| w in p.syscalls && TranslatesTo(w, CompiledRule(d.nr, v));
        assert Names(p, w, d.nr);
      }
    }
  }

  /** A call that no rule names gets the verdict of the profile's default action. */
  lemma UnnamedCallGetsDefault(p: Profile, sorted: seq<CompiledRule>, d: SyscallData)
    requires GoSort.SortOf(BY_NUMBER, sorted, Known(p.syscalls)) && d.arch == 0xc000_003e
    requires forall r :: r in p.syscalls ==> SyscallNameToNR(r.name) != Some(d.nr)
    ensures Execute(Program(sorted, DefaultVerdict(p)), d) ==
            Verdict(
              match p.defaultAction
              case Allow => 0x7fff_0000
              case Errno => 0x0005_0001
              case Kill => 0
              case Trap => 0x0003_0000
              case Trace => 0x7ff0_0000
              case Unrecognized(_) => 0x0005_0001)
  {
    CompilerCorrect(p, sorted, d);
    assert !exists r :: Names(p, r, d.nr);
    VerdictWords(p.defaultAction, EPERM);
    assert 0x0005_0000 | (1 & 0xffff) == 0x0005_0001 as bv32;
  }

  /** What the kernel then does with the call. */
  lemma UnnamedCallIsDecided(p: Profile, sorted: seq<CompiledRule>, d: SyscallData)
    requires GoSort.SortOf(BY_NUMBER, sorted, Known(p.syscalls)) && d.arch == 0xc000_003e
    requires forall r :: r in p.syscalls ==> SyscallNameToNR(r.name) != Some(d.nr)
    ensures var outcome := Execute(Program(sorted, DefaultVerdict(p)), d);
            outcome.Verdict? && Decode(outcome.value) ==
            match p.defaultAction
            case Allow => Proceed
            case Errno => FailWith(1)
            case Kill => KillThread
            case Trap => TrapSignal
            case Trace => NotifyTracer
            case Unrecognized(_) => FailWith(1)
  {
    CompilerCorrect(p, sorted, d);
    assert !exists r :: Names(p, r, d.nr);
    VerdictDecodes(p.defaultAction, EPERM);
    ErrnoDeliveredIff(EPERM);
  }

  /** A call that rules name gets the verdict of one of them, by its action and errno. */
  lemma NamedCallGetsItsRule(p: Profile, sorted: seq<CompiledRule>, d: SyscallData) returns (r: SyscallRule)
    requires GoSort.SortOf(BY_NUMBER, sorted, Known(p.syscalls)) && d.arch == 0xc000_003e
    requires exists q :: q in p.syscalls && SyscallNameToNR(q.name) == Some(d.nr)
    ensures r in p.syscalls && SyscallNameToNR(r.name) == Some(d.nr)
    ensures Execute(Program(sorted, DefaultVerdict(p)), d) ==
            Verdict(
              match r.action
              case Allow => 0x7fff_0000
              case Errno => 0x0005_0000 | ((if r.errno == 0 then 1 else r.errno) & 0x0000_ffff)
              case Kill => 0
              case Trap => 0x0003_0000
              case Trace => 0x7ff0_0000
              case Unrecognized(_) => 0x0005_0001)
  {
    CompilerCorrect(p, sorted, d);
    var q :| q in p.syscalls && SyscallNameToNR(q.name) == Some(d.nr);
    assert Names(p, q, d.nr);
    var value := Execute(Program(sorted, DefaultVerdict(p)), d).value;
    r :| Names(p, r, d.nr) && value == ActionToValue(r.action, r.errno);
    VerdictWords(r.action, r.errno);
  }

  /** Translate the known names, sort them, then emit one check and one return per rule: whatever the sort
      does with ties, the program implements the profile on every call. */
  method CompileBPF(profile: Profile) returns (filter: seq<Instruction>)
    ensures forall d :: Implements(filter, profile, d)
    ensures forall d: SyscallData :: d.arch != 0xc000_003e ==> Execute(filter, d) == Verdict(0)
    ensures forall d: SyscallData ::
              d.arch == 0xc000_003e && (forall r :: r in profile.syscalls ==> SyscallNameToNR(r.name) != Some(d.nr)) ==>
                Execute(filter, d) == Verdict(
                  match profile.defaultAction
                  case Allow => 0x7fff_0000
                  case Errno => 0x0005_0001
                  case Kill => 0
                  case Trap => 0x0003_0000
                  case Trace => 0x7ff0_0000
                  case Unrecognized(_) => 0x0005_0001)
    ensures exists sorted ::
              GoSort.SortOf(BY_NUMBER, sorted, Known(profile.syscalls)) && filter == Program(sorted, DefaultVerdict(profile))
  {
    filter := [LoadField(ARCH_OFFSET), JumpIfEqual(1, 0, AUDIT_ARCH_X86_64), Return(RET_KILL_THREAD)];
    filter := filter + [LoadField(NR_OFFSET)];
    assert filter == PROLOGUE;
    var rules := TranslateRules(profile.syscalls);
    ByNumberIsStrictWeak();
    rules := GoSort.SortSlice(BY_NUMBER, rules);
    var defaultRet := ActionToValue(profile.defaultAction, EPERM);
    filter := EmitChecks(filter, rules);
    filter := filter + [Return(defaultRet)];
    OnEveryCall(profile, rules);
  }

  lemma OnEveryCall(p: Profile, sorted: seq<CompiledRule>)
    requires GoSort.SortOf(BY_NUMBER, sorted, Known(p.syscalls))
    ensures var prog := Program(sorted, DefaultVerdict(p));
            && (forall d :: Implements(prog, p, d))
            && (forall d: SyscallData :: d.arch != 0xc000_003e ==> Execute(prog, d) == Verdict(0))
            && (forall d: SyscallData ::
                  d.arch == 0xc000_003e && (forall r :: r in p.syscalls ==> SyscallNameToNR(r.name) != Some(d.nr)) ==>
                    Execute(prog, d) == Verdict(
                      match p.defaultAction
                      case Allow => 0x7fff_0000
                      case Errno => 0x0005_0001
                      case Kill => 0
                      case Trap => 0x0003_0000
                      case Trace => 0x7ff0_0000
                      case Unrecognized(_) => 0x0005_0001))
  {
    forall d: SyscallData ensures Implements(Program(sorted, DefaultVerdict(p)), p, d) {
      CompilerCorrect(p, sorted, d);
    }
    forall d: SyscallData | d.arch != 0xc000_003e ensures Execute(Program(sorted, DefaultVerdict(p)), d) == Verdict(0) {
      RunProgram(sorted, DefaultVerdict(p), d);
    }
    forall d: SyscallData
      | d.arch == 0xc000_003e && (forall r :: r in p.syscalls ==> SyscallNameToNR(r.name) != Some(d.nr))
      ensures Execute(Program(sorted, DefaultVerdict(p)), d) == Verdict(DefaultVerdict(p))
    {
      UnnamedCallGetsDefault(p, sorted, d);
    }
    VerdictWords(p.defaultAction, EPERM);
    assert 0x0005_0000 | (1 & 0xffff) == 0x0005_0001 as bv32;
  }

  /** Every rule on a number can be the winner: some sorted permutation puts it first. */
  lemma EveryDuplicateCanWin(p: Profile, r: SyscallRule, d: SyscallData)
    requires Names(p, r, d.nr) && d.arch == AUDIT_ARCH_X86_64
    ensures exists sorted ::
              && GoSort.SortOf(BY_NUMBER, sorted, Known(p.syscalls))
              && Execute(Program(sorted, DefaultVerdict(p)), d) == Verdict(ActionToValue(r.action, r.errno))
  {
    var known, c := Known(p.syscalls), CompiledRule(d.nr, ActionToValue(r.action, r.errno));
    KnownIffNamed(p.syscalls, c);
    assert TranslatesTo(r, c);
    var k :| 0 <= k < |known| && known[k] == c;
    var sorted := SortedWithFirst(known, k, DefaultVerdict(p));
    RunProgram(sorted, DefaultVerdict(p), d);
  }

  /** A sorted permutation in which rule `k` comes before every other rule on its number. */
  lemma SortedWithFirst(rules: seq<CompiledRule>, k: nat, defaultRet: bv32) returns (sorted: seq<CompiledRule>)
    requires k < |rules|
    ensures GoSort.SortOf(BY_NUMBER, sorted, rules)
    ensures FirstMatch(sorted, 0, rules[k].nr, defaultRet) == rules[k].value
  {
    var others := rules[..k] + rules[k + 1..];
    var front := [rules[k]] + others;
    assert rules == rules[..k] + [rules[k]] + rules[k + 1..];
    assert multiset(front) == multiset(rules);
    ByNumberIsStrictWeak();
    GoSort.InsertionSortSorts(BY_NUMBER, front);
    sorted := GoSort.InsertionSort(BY_NUMBER, front);
    assert front[1..] == others;
    assert sorted == GoSort.Insert(BY_NUMBER, rules[k], GoSort.InsertionSort(BY_NUMBER, others));
    InsertedFirst(GoSort.InsertionSort(BY_NUMBER, others), rules[k], defaultRet);
  }

  lemma {:induction false} InsertedFirst(rest: seq<CompiledRule>, c: CompiledRule, defaultRet: bv32)
    ensures FirstMatch(GoSort.Insert(BY_NUMBER, c, rest), 0, c.nr, defaultRet) == c.value
  {
    if rest != [] && BY_NUMBER(rest[0], c) {
      InsertedFirst(rest[1..], c, defaultRet);
      FirstMatchShift(rest[0], GoSort.Insert(BY_NUMBER, c, rest[1..]), 0, c.nr, defaultRet);
    }
  }

  lemma {:induction false} FirstMatchShift(x: CompiledRule, s: seq<CompiledRule>, i: nat, nr: bv32, defaultRet: bv32)
    requires i <= |s|
    ensures FirstMatch([x] + s, i + 1, nr, defaultRet) == FirstMatch(s, i, nr, defaultRet)
    decreases |s| - i
  {
    if i < |s| {
      FirstMatchShift(x, s, i + 1, nr, defaultRet);
    }
  }

  /** The verdict does not depend on the sort exactly when all rules on the number agree. */
  lemma VerdictIsDeterminedIffRulesAgree(p: Profile, d: SyscallData)
    requires d.arch == AUDIT_ARCH_X86_64
    ensures (exists v {:trigger Verdict(v)} :: forall sorted :: GoSort.SortOf(BY_NUMBER, sorted, Known(p.syscalls)) ==>
              Execute(Program(sorted, DefaultVerdict(p)), d) == Verdict(v))
            <==>
            (forall r, q :: Names(p, r, d.nr) && Names(p, q, d.nr) ==>
              ActionToValue(r.action, r.errno) == ActionToValue(q.action, q.errno))
  {
    if v: bv32 {:trigger Verdict(v)} :| forall sorted :: GoSort.SortOf(BY_NUMBER, sorted, Known(p.syscalls)) ==>
        Execute(Program(sorted, DefaultVerdict(p)), d) == Verdict(v) {
      forall r | Names(p, r, d.nr) ensures ActionToValue(r.action, r.errno) == v {
        EveryDuplicateCanWin(p, r, d);
      }
    }
    if forall r, q :: Names(p, r, d.nr) && Names(p, q, d.nr) ==>
        ActionToValue(r.action, r.errno) == ActionToValue(q.action, q.errno) {
      var v := if r :| Names(p, r, d.nr) then ActionToValue(r.action, r.errno) else DefaultVerdict(p);
      forall sorted | GoSort.SortOf(BY_NUMBER, sorted, Known(p.syscalls))
        ensures Execute(Program(sorted, DefaultVerdict(p)), d) == Verdict(v)
      {
        CompilerCorrect(p, sorted, d);
      }
      assert Verdict(v) == Verdict(v);
    }
  }

  /** A rule that alone names its number decides it. */
  lemma UniqueRuleDecides(p: Profile, sorted: seq<CompiledRule>, r: SyscallRule, d: SyscallData)
    requires GoSort.SortOf(BY_NUMBER, sorted, Known(p.syscalls))
    requires Names(p, r, d.nr) && forall q :: Names(p, q, d.nr) ==> q == r
    requires d.arch == AUDIT_ARCH_X86_64
    ensures Execute(Program(sorted, DefaultVerdict(p)), d) == Verdict(ActionToValue(r.action, r.errno))
  {
    CompilerCorrect(p, sorted, d);
  }

  /** A number the table does not carry always gets the default verdict, whatever the profile names. */
  lemma UntabledNumberGetsDefault(p: Profile, sorted: seq<CompiledRule>, d: SyscallData)
    requires GoSort.SortOf(BY_NUMBER, sorted, Known(p.syscalls))
    requires d.arch == AUDIT_ARCH_X86_64 && !Tabled(d.nr)
    ensures Execute(Program(sorted, DefaultVerdict(p)), d) == Verdict(DefaultVerdict(p))
  {
    CompilerCorrect(p, sorted, d);
  }

  /** All jumps stay inside, the last instruction returns, and the length is 5 + 2 per known rule. */
  lemma ProgramWellFormed(rules: seq<CompiledRule>, defaultRet: bv32)
    ensures var prog := Program(rules, defaultRet); WellFormed(prog) && |prog| == 5 + 2 * |rules|
  {
    var prog := Program(rules, defaultRet);
    forall pc | 0 <= pc < |prog| ensures WellPlaced(prog, pc) {
      if pc >= 4 && pc < |prog| - 1 {
        assert prog[pc] == Checks(rules)[pc - 4];
      }
    }
  }

  /** The program in numbers, as the kernel gets it. */
  lemma ProgramInNumbers(rules: seq<CompiledRule>, defaultRet: bv32)
    ensures var prog := Program(rules, defaultRet);
            && prog[..4] == [Instruction(0x20, 0, 0, 4), Instruction(0x15, 1, 0, 0xc000_003e),
                             Instruction(0x06, 0, 0, 0), Instruction(0x20, 0, 0, 0)]
            && (forall i :: 0 <= i < |rules| ==>
                  prog[4 + 2 * i..6 + 2 * i] == [Instruction(0x15, 0, 1, rules[i].nr), Instruction(0x06, 0, 0, rules[i].value)])
            && prog[4 + 2 * |rules|..] == [Instruction(0x06, 0, 0, defaultRet)]
  {
    assert LD | W | ABS == 0x20 && JMP | JEQ | K == 0x15 && RET | K == 0x06;
    forall i | 0 <= i < |rules|
      ensures Program(rules, defaultRet)[4 + 2 * i..6 + 2 * i] ==
              [Instruction(0x15, 0, 1, rules[i].nr), Instruction(0x06, 0, 0, rules[i].value)]
    {
      CheckPlaced(rules, defaultRet, i);
    }
  }

  /** The 16-bit length handed to the kernel is the true one exactly up to 32765 known rules. */
  lemma LengthFieldExact(rules: seq<CompiledRule>, defaultRet: bv32)
    ensures |Program(rules, defaultRet)| % 0x1_0000 == |Program(rules, defaultRet)| <==> |rules| <= 32765
  {
    ProgramWellFormed(rules, defaultRet);
  }

  /** A profile keeps at most one compiled rule per listed rule, and one for each known name. */
  lemma KnownLength(rules: seq<SyscallRule>)
    ensures |Known(rules)| <= |rules|
    ensures |Known(rules)| == |rules| <==> forall r :: r in rules ==> SyscallNameToNR(r.name).Some?
  {
    forall r ensures |CompileRule(r)| == if SyscallNameToNR(r.name).Some? then 1 else 0 {
      CompiledIff(r, CompiledRule(0, 0));
    }
    GatherLength(CompileRule, rules);
  }

  // ---------------------------------------------------------------------------
  // The built-in profile
  // ---------------------------------------------------------------------------

  function DefaultHardenedProfile(): Profile {
    Profile(Allow, [
      SyscallRule("ptrace", Errno, EPERM), SyscallRule("bpf", Errno, EPERM),
      SyscallRule("kexec_load", Kill, 0), SyscallRule("kexec_file_load", Kill, 0),
      SyscallRule("reboot", Kill, 0), SyscallRule("sysfs", Errno, EPERM),
      SyscallRule("pivot_root", Errno, EPERM), SyscallRule("mount", Errno, EPERM),
      SyscallRule("umount2", Errno, EPERM), SyscallRule("swapon", Errno, EPERM),
      SyscallRule("swapoff", Errno, EPERM), SyscallRule("init_module", Kill, 0),
      SyscallRule("finit_module", Kill, 0), SyscallRule("delete_module", Kill, 0)
    ])
  }

  /** The built-in profile lists `sysfs`, yet its program lets `sysfs` through. */
  lemma HardenedProfileAllowsSysfs(sorted: seq<CompiledRule>, d: SyscallData)
    requires GoSort.SortOf(BY_NUMBER, sorted, Known(DefaultHardenedProfile().syscalls))
    requires d.arch == AUDIT_ARCH_X86_64 && d.nr == SYS_SYSFS
    ensures DefaultHardenedProfile().syscalls[5] == SyscallRule("sysfs", Errno, EPERM)
    ensures Execute(Program(sorted, DefaultVerdict(DefaultHardenedProfile())), d) == Verdict(RET_ALLOW)
  {
    SysfsIsUntabled();
    UntabledNumberGetsDefault(DefaultHardenedProfile(), sorted, d);
  }

  /** The built-in profile's numbers: the rule behind each. */
  lemma HardenedRules(r: SyscallRule, nr: bv32)
    ensures r in DefaultHardenedProfile().syscalls && SyscallNameToNR(r.name) == Some(nr) ==>
            || (r.action == Errno && r.errno == 1 && nr in {101, 321, 155, 165, 166, 167, 168})
            || (r.action == Kill && nr in {246, 320, 169, 175, 313, 176})
  {
    TraceAndKexecNumbers();
    MountNumbers();
    SwapAndRebootNumbers();
    ModuleNumbers();
    SysfsHasNoNumber();
  }

  lemma DeniedNames(nr: bv32) returns (k: nat)
    requires nr in {101, 321, 155, 165, 166, 167, 168}
    ensures k < 14 && SyscallNameToNR(DefaultHardenedProfile().syscalls[k].name) == Some(nr)
  {
    TraceAndKexecNumbers();
    MountNumbers();
    SwapAndRebootNumbers();
    k := if nr == 101 then 0 else if nr == 321 then 1 else if nr == 155 then 6 else if nr == 165 then 7
         else if nr == 166 then 8 else if nr == 167 then 9 else 10;
  }

  lemma KilledNames(nr: bv32) returns (k: nat)
    requires nr in {246, 320, 169, 175, 313, 176}
    ensures k < 14 && SyscallNameToNR(DefaultHardenedProfile().syscalls[k].name) == Some(nr)
  {
    TraceAndKexecNumbers();
    SwapAndRebootNumbers();
    ModuleNumbers();
    k := if nr == 246 then 2 else if nr == 320 then 3 else if nr == 169 then 4 else if nr == 175 then 11
         else if nr == 313 then 12 else 13;
  }

  /** What the built-in program does with every x86-64 call, by number. */
  lemma HardenedVerdicts(sorted: seq<CompiledRule>, d: SyscallData)
    requires GoSort.SortOf(BY_NUMBER, sorted, Known(DefaultHardenedProfile().syscalls)) && d.arch == 0xc000_003e
    ensures Execute(Program(sorted, DefaultVerdict(DefaultHardenedProfile())), d) == Verdict(
              if d.nr in {101, 321, 155, 165, 166, 167, 168} then 0x0005_0001
              else if d.nr in {246, 320, 169, 175, 313, 176} then 0
              else 0x7fff_0000)
  {
    var p := DefaultHardenedProfile();
    if d.nr in {101, 321, 155, 165, 166, 167, 168, 246, 320, 169, 175, 313, 176} {
      var k: nat;
      if d.nr in {101, 321, 155, 165, 166, 167, 168} {
        k := DeniedNames(d.nr);
      } else {
        k := KilledNames(d.nr);
      }
      assert p.syscalls[k] in p.syscalls;
      var r := NamedCallGetsItsRule(p, sorted, d);
      HardenedRules(r, d.nr);
      assert 0x0005_0000 | (1 & 0xffff) == 0x0005_0001 as bv32;
    } else {
      forall r | r in p.syscalls ensures SyscallNameToNR(r.name) != Some(d.nr) {
        HardenedRules(r, d.nr);
      }
      UnnamedCallGetsDefault(p, sorted, d);
    }
  }
}
