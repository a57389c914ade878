/** The part of the classic BPF machine that seccomp programs here use: 32-bit
    absolute loads, "jump if equal" and "return constant". */
module CBpf {
  import opened Prelude

  /** One `sock_filter`: an opcode, two forward jump distances and an operand. */
  datatype Instruction = Instruction(code: bv16, jt: uint8, jf: uint8, k: bv32)

  /** `struct seccomp_data`: the number at offset 0, the architecture at 4, then the rest. */
  datatype SyscallData = SyscallData(nr: bv32, arch: bv32, rest: map<bv32, bv32>)

  datatype Outcome = Verdict(value: bv32) | Fault

  const LD: bv16 := 0x00
  const W: bv16 := 0x00
  const ABS: bv16 := 0x20
  const JMP: bv16 := 0x05
  const JEQ: bv16 := 0x10
  const K: bv16 := 0x00
  const RET: bv16 := 0x06

  const NR_OFFSET: bv32 := 0
  const ARCH_OFFSET: bv32 := 4
  const AUDIT_ARCH_X86_64: bv32 := 0xc000_003e

  const RET_KILL_THREAD: bv32 := 0x0000_0000
  const RET_TRAP: bv32 := 0x0003_0000
  const RET_ERRNO: bv32 := 0x0005_0000
  const RET_TRACE: bv32 := 0x7ff0_0000
  const RET_ALLOW: bv32 := 0x7fff_0000
  const EPERM: bv32 := 1

  predicate Readable(d: SyscallData, offset: bv32) {
    offset == NR_OFFSET || offset == ARCH_OFFSET || offset in d.rest
  }

  function Load(d: SyscallData, offset: bv32): bv32
    requires Readable(d, offset)
  {
    if offset == NR_OFFSET then d.nr else if offset == ARCH_OFFSET then d.arch else d.rest[offset]
  }

  /** Runs `prog` from `pc` with accumulator `a`. Jumps are forward, so `|prog| - pc` shrinks. */
  function Run(prog: seq<Instruction>, d: SyscallData, pc: nat, a: bv32): Outcome
    decreases |prog| - pc
  {
    if pc >= |prog| then Fault
    else
      var i := prog[pc];
      if i.code == LD | W | ABS then
        if Readable(d, i.k) then Run(prog, d, pc + 1, Load(d, i.k)) else Fault
      else if i.code == JMP | JEQ | K then
        Run(prog, d, pc + 1 + (if a == i.k then i.jt else i.jf) as nat, a)
      else if i.code == RET | K then Verdict(i.k)
      else Fault
  }

  function Execute(prog: seq<Instruction>, d: SyscallData): Outcome {
    Run(prog, d, 0, 0)
  }

  /** What the kernel demands of instruction `pc`: known opcode, known field, targets inside. */
  predicate WellPlaced(prog: seq<Instruction>, pc: nat)
    requires pc < |prog|
  {
    var i := prog[pc];
    || (i.code == LD | W | ABS && (i.k == NR_OFFSET || i.k == ARCH_OFFSET) && pc + 1 < |prog|)
    || (i.code == JMP | JEQ | K && pc + 1 + i.jt as nat < |prog| && pc + 1 + i.jf as nat < |prog|)
    || i.code == RET | K
  }

  ghost predicate WellFormed(prog: seq<Instruction>) {
    |prog| > 0 && forall pc :: 0 <= pc < |prog| ==> WellPlaced(prog, pc)
  }

  /** In a well-formed program every path from every instruction ends at a return. */
  lemma {:induction false} EveryPathReturns(prog: seq<Instruction>, d: SyscallData, pc: nat, a: bv32)
    requires WellFormed(prog) && pc < |prog|
    ensures exists end :: pc <= end < |prog| && prog[end].code == RET | K && Run(prog, d, pc, a) == Verdict(prog[end].k)
    decreases |prog| - pc
  {
    var i := prog[pc];
    assert WellPlaced(prog, pc);
    if i.code == LD | W | ABS {
      EveryPathReturns(prog, d, pc + 1, Load(d, i.k));
    } else if i.code == JMP | JEQ | K {
      EveryPathReturns(prog, d, pc + 1 + (if a == i.k then i.jt else i.jf) as nat, a);
    } else {
      assert Run(prog, d, pc, a) == Verdict(prog[pc].k);
    }
  }
}
