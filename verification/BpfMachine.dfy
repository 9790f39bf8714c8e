/** The instructions the loader generator emits, and what running them means (sections 4 and 5 of RFC 9669), on registers
    and a byte-addressed memory. Helper results are whatever an oracle says. */
module BpfMachine {
  import opened Common

  type Reg = x: nat | x <= 10

  datatype Helper = ProbeRead | SysClose | SysBpf | TracePrintk | FindByNameKind | KallsymsLookup | CopyFromUser

  datatype AluOp = Add | Rsh | And32

  datatype JmpOp = Ja | Jeq | Jne | Jsge | Jsle | Jslt

  /** One 8-byte slot. A 64-bit immediate load takes two, `LdLo` and `LdHi`; it loads the address of an
      offset into the data blob. */
  datatype Insn =
    | LdLo(dst: Reg, off: int)
    | LdHi
    | MovReg(dst: Reg, src: Reg)
    | MovImm(dst: Reg, imm: int)
    | Alu(aop: AluOp, dst: Reg, imm: int)
    | Ldx(size: nat, dst: Reg, src: Reg, off: int)
    | Stx(size: nat, dst: Reg, src: Reg, off: int)
    | St(size: nat, dst: Reg, off: int, imm: int)
    | Jmp(jop: JmpOp, dst: Reg, imm: int, off: int)
    | Call(func: Helper)
    | Exit

  type Code = seq<Insn>

  /** The bytes of the blob, the stack and the context, by address. */
  type Mem = int -> int

  function Pow256(n: nat): (r: nat)
    ensures r > 0
  {
    if n == 0 then 1 else 256 * Pow256(n - 1)
  }

  /** A little-endian value of `n` bytes. */
  function LoadMem(mem: Mem, a: int, n: nat): nat
    decreases n
  {
    if n == 0 then 0 else mem(a) % 256 + 256 * LoadMem(mem, a + 1, n - 1)
  }

  /** Byte `k` of a value, in two's complement. */
  function ByteAt(v: int, k: nat): int
    decreases k
  {
    if k == 0 then v % 256 else ByteAt(v / 256, k - 1)
  }

  function StoreMem(mem: Mem, a: int, n: nat, v: int): Mem {
    x => if a <= x < a + n then ByteAt(v, x - a) else mem(x)
  }

  /** `n` bytes from `a` on are replaced by those of `src` at `b`. */
  function CopyMem(mem: Mem, a: int, n: int, src: Mem, b: int): Mem {
    x => if a <= x < a + n then src(b + (x - a)) else mem(x)
  }

  function ZeroMem(mem: Mem, a: int, n: int): Mem {
    x => if a <= x < a + n then 0 else mem(x)
  }

  /** A 64-bit value as a signed number, and back. */
  function S64(v: int): int {
    if v % 0x1_0000_0000_0000_0000 < 0x8000_0000_0000_0000 then v % 0x1_0000_0000_0000_0000
    else v % 0x1_0000_0000_0000_0000 - 0x1_0000_0000_0000_0000
  }

  function U64(v: int): nat {
    v % 0x1_0000_0000_0000_0000
  }

  function And(a: nat, b: nat): nat {
    if a == 0 || b == 0 then 0 else a % 2 * (b % 2) + 2 * And(a / 2, b / 2)
  }

  /** What the outside world sees of a run: commands with the memory they were issued in, closed descriptors, and lookups. */
  datatype Event =
    | Bpf(cmd: int, attr: int, size: int, ret: int, mem: Mem)
    | Closed(fd: int)
    | Found(name: int, len: int, kind: int, ret: int)
    | Looked(name: int, len: int, res: int, ret: int)

  /** `cause` is the register value that the backward jumps taken so far tested first. */
  datatype Machine = Machine(pc: nat, r: seq<int>, mem: Mem, now: nat, trace: seq<Event>, cause: Option<int>)

  /** The address of the blob; the value a helper leaves in a register at a given time; the bytes a helper writes; and the
      memory of the user who runs the loader. */
  datatype Oracle = Oracle(blob: int, value: (nat, nat) -> int, bytes: nat -> Mem, user: Mem)

  datatype Outcome = Next(m: Machine) | Done(last: Machine, ret: int) | Fault

  predicate Taken(op: JmpOp, v: int, imm: int) {
    match op
    case Ja => true
    case Jeq => v == imm
    case Jne => v != imm
    case Jsge => v >= imm
    case Jsle => v <= imm
    case Jslt => v < imm
  }

  /** A helper returns in R0 and may destroy R1 to R5. */
  function AfterCall(r: seq<int>, o: Oracle, now: nat): (s: seq<int>)
    requires |r| == 11
    ensures |s| == 11 && forall i :: 6 <= i < 11 ==> s[i] == r[i]
  {
    seq(11, i requires 0 <= i < 11 => if i < 6 then o.value(now, i) else r[i])
  }

  function Observed(f: Helper, r: seq<int>, mem: Mem, ret: int): seq<Event>
    requires |r| == 11
  {
    match f
    case SysBpf => [Bpf(r[1], r[2], r[3], ret, mem)]
    case SysClose => [Closed(r[1])]
    case FindByNameKind => [Found(r[1], r[2], r[3], ret)]
    case KallsymsLookup => [Looked(r[1], r[2], r[4], ret)]
    case _ => []
  }

  /** What a helper does to memory: reading from the address 0 clears the destination; user memory is copied, or the
      destination is cleared; an address looked up is written; a command may write over its attributes. */
  function Effect(f: Helper, r: seq<int>, mem: Mem, o: Oracle, now: nat): Mem
    requires |r| == 11
  {
    match f
    case ProbeRead => if r[3] == 0 then ZeroMem(mem, r[1], r[2]) else CopyMem(mem, r[1], r[2], o.bytes(now), r[1])
    case CopyFromUser => if o.value(now, 0) == 0 then CopyMem(mem, r[1], r[2], o.user, r[3]) else ZeroMem(mem, r[1], r[2])
    case KallsymsLookup => CopyMem(mem, r[4], 8, o.bytes(now), r[4])
    case SysBpf => CopyMem(mem, r[2], r[3], o.bytes(now), r[2])
    case _ => mem
  }

  /** What an operation leaves in its register. */
  function Computed(op: AluOp, v: int, imm: int): int {
    match op
    case Add => v + imm
    case Rsh => if imm < 0 then v else U64(v) / Pow2(imm)
    case And32 => And(v % 0x1_0000_0000, imm % 0x1_0000_0000)
  }

  function Set(m: Machine, d: Reg, v: int, step: nat): Machine
    requires |m.r| == 11
  {
    m.(pc := m.pc + step, r := m.r[d := v], now := m.now + 1)
  }

  function Step(p: Code, o: Oracle, m: Machine): Outcome
    requires |m.r| == 11
  {
    if m.pc >= |p| then Fault
    else
      var skip := m.(pc := m.pc + 1, now := m.now + 1);
      match p[m.pc]
      case LdLo(d, off) =>
        if m.pc + 1 < |p| && p[m.pc + 1] == LdHi then Next(Set(m, d, o.blob + off, 2)) else Fault
      case LdHi => Fault
      case MovReg(d, s) => Next(Set(m, d, m.r[s], 1))
      case MovImm(d, imm) => Next(Set(m, d, imm, 1))
      case Alu(op, d, imm) => Next(Set(m, d, Computed(op, m.r[d], imm), 1))
      case Ldx(size, d, s, off) => Next(Set(m, d, S64(LoadMem(m.mem, m.r[s] + off, size)), 1))
      case Stx(size, d, s, off) => Next(skip.(mem := StoreMem(m.mem, m.r[d] + off, size, m.r[s])))
      case St(size, d, off, imm) => Next(skip.(mem := StoreMem(m.mem, m.r[d] + off, size, imm)))
      case Jmp(op, d, imm, off) =>
        if !Taken(op, m.r[d], imm) then Next(skip)
        else if m.pc + 1 + off < 0 then Fault
        else
          var cause := if off < 0 && m.cause == None then Some(m.r[d]) else m.cause;
          Next(m.(pc := m.pc + 1 + off, now := m.now + 1, cause := cause))
      case Call(f) =>
        var s := AfterCall(m.r, o, m.now);
        Next(m.(pc := m.pc + 1, r := s, mem := Effect(f, m.r, m.mem, o, m.now), now := m.now + 1,
                trace := m.trace + Observed(f, m.r, m.mem, s[0])))
      case Exit => Done(m, m.r[0])
  }

  /** At most `n` steps. */
  function Run(p: Code, o: Oracle, m: Machine, n: nat): Outcome
    requires |m.r| == 11
    decreases n
  {
    if n == 0 then Next(m)
    else
      match Step(p, o, m)
      case Next(m2) => Run(p, o, m2, n - 1)
      case other => other
  }
}
