/** A discipline on loader code, checked slot by slot, and the proof that code obeying it runs safely. */
module BpfFlow {
  import opened Common
  import opened BpfMachine

  /** What the slots just before a position establish when they are fallen through. */
  datatype Know =
    | Any
    | Wide                                      // inside a 64-bit load
    | WideAttr(cmd: int, attr: int)
    | Cmd(cmd: int)                             // R1 holds the command
    | CmdAttr(cmd: int, attr: int)              // and R2 the address of its attributes
    | CmdArgs(cmd: int, attr: int, size: int)   // and R3 their size
    | Positive                                  // R1 is above zero
    | Returned                                  // R0 holds the result of a command
    | ReturnR7 | ReturnZero                     // R0 is ready for exit

  /** `pend`: the positions from here on where an earlier forward jump lands.
      `due`: R7 holds the result of a command that has not been checked yet. */
  datatype Flow = Flow(pend: set<int>, know: Know, due: bool)

  function Learn(k: Know, x: Insn): Know {
    match x
    case LdLo(d, a) => if k.Cmd? && d == 2 then WideAttr(k.cmd, a) else Wide
    case LdHi => if k.WideAttr? then CmdAttr(k.cmd, k.attr) else Any
    case MovImm(d, i) =>
      if d == 1 then Cmd(i)
      else if d == 3 && k.CmdAttr? then CmdArgs(k.cmd, k.attr, i)
      else if d == 0 && i == 0 then ReturnZero
      else Any
    case MovReg(d, s) =>
      if d == 9 && s == 1 && k == Positive then Positive
      else if d == 0 && s == 7 then ReturnR7
      else Any
    case Jmp(op, d, i, _) => if op == Jsle && d == 1 && i == 0 then Positive else Any
    case Call(f) => if f == SysBpf then Returned else Any
    case _ => Any
  }

  predicate IsCheck(x: Insn) {
    x.Jmp? && x.off < 0
  }

  predicate WritesR7(x: Insn) {
    (x.LdLo? || x.MovReg? || x.MovImm? || x.Alu? || x.Ldx?) && x.dst == 7
  }

  function Then(f: Flow, pos: nat, x: Insn): Flow {
    Flow(f.pend - {pos} + (if x.Jmp? && x.off >= 0 then {pos + 1 + x.off} else {}),
         Learn(f.know, x),
         if IsCheck(x) then false else f.know == Returned || f.due)
  }

  /** Whether slot `x` may stand at `pos`. */
  predicate Accepts(f: Flow, pos: nat, x: Insn, home: nat) {
    && (pos in f.pend ==> f.know == Any)
    && (x == LdHi <==> f.know == Wide || f.know.WideAttr?)
    && (f.know == Returned ==> x == MovReg(7, 0))
    && (f.due ==> !WritesR7(x) && x != Exit)
    && (IsCheck(x) ==> x.jop == Jslt && x.dst == 7 && x.imm == 0 && pos + 1 + x.off == home && (f.due ==> f.pend <= {pos}))
    && (x == Call(SysClose) ==> f.know == Positive)
    && (x == Call(SysBpf) ==> f.know.CmdArgs? && !f.due && f.pend == {})
    && (x == Exit ==> f.know == ReturnR7 || f.know == ReturnZero)
  }

  /** The flow into position `i`. */
  function FlowAt(p: Code, i: nat): Flow
    requires i <= |p|
  {
    if i == 0 then Flow({}, Any, false) else Then(FlowAt(p, i - 1), i - 1, p[i - 1])
  }

  predicate OkAt(p: Code, home: nat, i: nat)
    requires i < |p|
  {
    Accepts(FlowAt(p, i), i, p[i], home)
  }

  ghost predicate Typed(p: Code, home: nat) {
    forall i {:trigger OkAt(p, home, i)} :: 0 <= i < |p| ==> OkAt(p, home, i)
  }

  /** The commands issued before position `i`, in order. */
  function CmdsAt(p: Code, i: nat): seq<(int, int, int)>
    requires i <= |p|
  {
    if i == 0 then [] else Issue(CmdsAt(p, i - 1), FlowAt(p, i - 1).know, p[i - 1])
  }

  function Issue(cs: seq<(int, int, int)>, k: Know, x: Insn): seq<(int, int, int)> {
    if x == Call(SysBpf) && k.CmdArgs? then cs + [(k.cmd, k.attr, k.size)] else cs
  }

  function FlowOf(p: Code): Flow {
    FlowAt(p, |p|)
  }

  function Cmds(p: Code): seq<(int, int, int)> {
    CmdsAt(p, |p|)
  }

  lemma {:induction false} SamePrefix(p: Code, q: Code, i: nat)
    requires i <= |p| && p <= q
    ensures FlowAt(q, i) == FlowAt(p, i) && CmdsAt(q, i) == CmdsAt(p, i)
  {
    if i > 0 { SamePrefix(p, q, i - 1); }
  }

  /** Emitting one more slot. */
  lemma {:induction false} Append(p: Code, x: Insn, home: nat)
    ensures FlowOf(p + [x]) == Then(FlowOf(p), |p|, x) && Cmds(p + [x]) == Issue(Cmds(p), FlowOf(p).know, x)
    ensures Typed(p, home) && Accepts(FlowOf(p), |p|, x, home) ==> Typed(p + [x], home)
  {
    var q := p + [x];
    SamePrefix(p, q, |p|);
    if Typed(p, home) && Accepts(FlowOf(p), |p|, x, home) {
      forall i | 0 <= i < |q| ensures OkAt(q, home, i) {
        if i < |p| {
          SamePrefix(p, q, i);
          assert OkAt(p, home, i);
        }
      }
    }
  }

  /** A pending landing place stays pending until it is reached; no command is issued or checked before. */
  lemma {:induction false} Skipped(p: Code, home: nat, i: nat, j: nat, t: nat)
    requires Typed(p, home) && i <= j <= t && j <= |p| && t in FlowAt(p, i).pend && FlowAt(p, i).know != Returned
    ensures t in FlowAt(p, j).pend
    ensures CmdsAt(p, j) == CmdsAt(p, i) && FlowAt(p, j).due == FlowAt(p, i).due && FlowAt(p, j).know != Returned
    decreases j - i
  {
    if i < j {
      assert OkAt(p, home, i);
      Skipped(p, home, i + 1, j, t);
    }
  }

  /** Where a forward jump lands in code whose jumps all land inside it. */
  lemma {:induction false} Lands(p: Code, home: nat, i: nat, t: nat)
    requires Typed(p, home) && FlowOf(p).pend == {}
    requires i < t && i < |p| && t in FlowAt(p, i + 1).pend && FlowAt(p, i + 1).know != Returned
    ensures t < |p| && FlowAt(p, t).know == Any && p[t] != LdHi
    ensures CmdsAt(p, t) == CmdsAt(p, i + 1) && FlowAt(p, t).due == FlowAt(p, i + 1).due
  {
    if t >= |p| {
      Skipped(p, home, i + 1, |p|, t);
    } else {
      Skipped(p, home, i + 1, t, t);
      assert OkAt(p, home, t);
    }
  }

  /** The shape of a loader program: a prologue that jumps over the cleanup code at `home`, which ends
      before `mid`, and a body; only the body checks results, and each part has one exit, at its end. */
  ghost predicate Loader(p: Code, home: nat, mid: nat) {
    && 0 < home && home + 2 <= mid && mid + 2 <= |p|
    && Typed(p, home) && FlowOf(p).pend == {} && FlowAt(p, home) == Flow({mid}, Any, false)
    && p[home - 1] == Jmp(Ja, 0, 0, mid - home)
    && p[mid - 2] == MovReg(0, 7) && p[mid - 1] == Exit
    && p[|p| - 2] == MovImm(0, 0) && p[|p| - 1] == Exit
    && (forall i :: 0 <= i < home ==> p[i] != Exit && !IsCheck(p[i]))
    && (forall i :: home <= i < mid ==> CleanupSlot(p[i], i, mid))
    && (forall i :: mid <= i < |p| - 1 ==> p[i] != Exit)
  }

  predicate CleanupSlot(x: Insn, i: nat, mid: nat) {
    && !WritesR7(x) && x != Call(SysBpf)
    && (x == Exit ==> i == mid - 1)
    && (x.Jmp? ==> x.off >= 0 && i + 1 + x.off <= mid - 2)
  }

  /** The commands a run has issued. */
  function Bpfs(t: seq<Event>): seq<Event> {
    if t == [] then []
    else if t[|t| - 1].Bpf? then Bpfs(t[..|t| - 1]) + [t[|t| - 1]]
    else Bpfs(t[..|t| - 1])
  }

  lemma {:induction false} BpfsAppend(t: seq<Event>, e: Event)
    ensures Bpfs(t + [e]) == if e.Bpf? then Bpfs(t) + [e] else Bpfs(t)
  {
    assert (t + [e])[..|t|] == t;
  }

  /** The commands issued are `cs`, with their attributes in the blob. */
  ghost predicate Issued(bs: seq<Event>, cs: seq<(int, int, int)>, blob: int) {
    |bs| == |cs| && forall i :: 0 <= i < |bs| ==> IssuedAt(bs[i], cs[i], blob)
  }

  predicate IssuedAt(e: Event, c: (int, int, int), blob: int) {
    e.Bpf? && e.cmd == c.0 && e.attr == blob + c.1 && e.size == c.2
  }

  ghost predicate Succeeded(bs: seq<Event>, n: int) {
    forall i :: 0 <= i < n && i < |bs| ==> bs[i].Bpf? && bs[i].ret >= 0
  }

  ghost predicate ClosesOnlyPositive(t: seq<Event>) {
    forall i :: 0 <= i < |t| && t[i].Closed? ==> t[i].fd > 0
  }

  /** What `Know` claims about the registers. */
  ghost predicate Holds(k: Know, m: Machine, blob: int)
    requires |m.r| == 11
  {
    match k
    case Cmd(c) => m.r[1] == c
    case CmdAttr(c, a) => m.r[1] == c && m.r[2] == blob + a
    case CmdArgs(c, a, s) => m.r[1] == c && m.r[2] == blob + a && m.r[3] == s
    case Positive => m.r[1] > 0
    case Returned => Bpfs(m.trace) != [] && LastRet(Bpfs(m.trace)) == m.r[0]
    case ReturnR7 => m.r[0] == m.r[7]
    case ReturnZero => m.r[0] == 0
    case _ => true
  }

  function LastRet(bs: seq<Event>): int
    requires bs != []
  {
    if bs[|bs| - 1].Bpf? then bs[|bs| - 1].ret else 0
  }

  /** Every command before the last one succeeded; the last one did too unless its result is still to be checked. */
  ghost predicate ResultsOk(f: Flow, bs: seq<Event>, r7: int) {
    && Succeeded(bs, if f.due || f.know == Returned then |bs| - 1 else |bs|)
    && (f.due ==> bs != [] && LastRet(bs) == r7)
  }

  /** What a position's flow and the commands before it say about the machine there. */
  ghost predicate Tracks(f: Flow, cs: seq<(int, int, int)>, m: Machine, blob: int)
    requires |m.r| == 11
  {
    && Holds(f.know, m, blob) && ResultsOk(f, Bpfs(m.trace), m.r[7]) && Issued(Bpfs(m.trace), cs, blob)
    && ClosesOnlyPositive(m.trace) && m.cause == None
  }

  /** Running the prologue or the body. */
  ghost predicate InMain(p: Code, home: nat, mid: nat, blob: int, m: Machine) {
    && |m.r| == 11 && m.pc < |p| && p[m.pc] != LdHi && (m.pc < home || mid <= m.pc)
    && Tracks(FlowAt(p, m.pc), CmdsAt(p, m.pc), m, blob)
  }

  /** A check failed: a prefix of the commands was issued, and none but the last can have failed. */
  ghost predicate Failed(p: Code, m: Machine, blob: int) {
    && |m.r| == 11 && m.r[7] < 0 && m.cause == Some(m.r[7])
    && var bs := Bpfs(m.trace);
       && |bs| <= |Cmds(p)| && Issued(bs, Cmds(p)[..|bs|], blob) && Succeeded(bs, |bs| - 1)
       && (bs != [] ==> LastRet(bs) >= 0 || LastRet(bs) == m.r[7])
  }

  ghost predicate InCleanup(p: Code, home: nat, mid: nat, blob: int, m: Machine) {
    && |m.r| == 11 && home <= m.pc < mid <= |p| && p[m.pc] != LdHi
    && Failed(p, m, blob) && ClosesOnlyPositive(m.trace) && Holds(FlowAt(p, m.pc).know, m, blob)
  }

  lemma {:induction false} CmdsPrefix(p: Code, i: nat, j: nat)
    requires i <= j <= |p|
    ensures CmdsAt(p, i) <= CmdsAt(p, j)
    decreases j - i
  {
    if i < j { CmdsPrefix(p, i, j - 1); }
  }
}
