/** The loader generator: emitting slots, and the pieces all commands are made of. */
module GenEmit {
  import opened Common
  import opened BpfMachine
  import opened BpfFlow

  const INT32_MAX := 0x7fff_ffff
  const ERANGE := -34
  const E2BIG := -7
  const STACK_SZ := 136
  const BTF_FD := -STACK_SZ
  const INNER_MAP_FD := -STACK_SZ + 4
  const PROG_FD := -STACK_SZ + 8

  /** Truncation to a signed 16-bit field. */
  function S16(v: int): int {
    if v % 0x1_0000 < 0x8000 then v % 0x1_0000 else v % 0x1_0000 - 0x1_0000
  }

  function RoundUp8(size: int): (r: int)
    ensures r % 8 == 0
  {
    (size + 7) % 0x1_0000_0000 / 8 * 8
  }

  function LdxMem(size: nat, d: Reg, s: Reg, off: int): Insn {
    Ldx(size, d, s, S16(off))
  }

  function StxMem(size: nat, d: Reg, s: Reg, off: int): Insn {
    Stx(size, d, s, S16(off))
  }

  /** How a program grows: the prologue and cleanup code, the body, the end; `Broken` claims nothing. */
  datatype Phase = Opening | Body | Finished | Broken

  /** The part of `Loader` that the slots so far can meet. */
  ghost predicate Begun(p: Code, home: nat, mid: nat) {
    && 0 < home && home + 2 <= mid <= |p|
    && FlowAt(p, home) == Flow({mid}, Any, false)
    && p[home - 1] == Jmp(Ja, 0, 0, mid - home)
    && p[mid - 2] == MovReg(0, 7) && p[mid - 1] == Exit
    && (forall i :: 0 <= i < home ==> p[i] != Exit && !IsCheck(p[i]))
    && (forall i :: home <= i < mid ==> CleanupSlot(p[i], i, mid))
    && (forall i :: mid <= i < |p| ==> p[i] != Exit)
  }

  /** The same while prologue and cleanup code are being emitted. */
  ghost predicate Opened(p: Code, home: nat, mid: nat) {
    && 0 < home && home + 2 <= mid && |p| <= mid
    && (|p| >= home ==> FlowAt(p, home) == Flow({mid}, Any, false) && p[home - 1] == Jmp(Ja, 0, 0, mid - home))
    && (forall i :: 0 <= i < home && i < |p| ==> p[i] != Exit && !IsCheck(p[i]))
    && (forall i :: home <= i < |p| ==> CleanupSlot(p[i], i, mid))
  }

  lemma {:induction false} BegunAppend(p: Code, x: Insn, home: nat, mid: nat)
    requires Begun(p, home, mid) && x != Exit
    ensures Begun(p + [x], home, mid)
  {
    SamePrefix(p, p + [x], home);
  }

  lemma {:induction false} EndAppend(p: Code, home: nat, mid: nat)
    requires Begun(p, home, mid) && |p| > mid && p[|p| - 1] == MovImm(0, 0)
    requires Typed(p + [Exit], home) && FlowOf(p + [Exit]).pend == {}
    ensures Loader(p + [Exit], home, mid)
  {
    hide Typed, FlowOf, FlowAt;
    SamePrefix(p, p + [Exit], home);
  }

  /** What may be emitted in the opening. */
  predicate OpeningSlot(n: nat, x: Insn, home: nat, mid: nat) {
    && n < mid
    && if n < home then x != Exit && !IsCheck(x) && (n == home - 1 ==> x == Jmp(Ja, 0, 0, mid - home))
       else CleanupSlot(x, n, mid)
  }

  lemma {:induction false} OpenedAppend(p: Code, x: Insn, home: nat, mid: nat)
    requires Opened(p, home, mid) && OpeningSlot(|p|, x, home, mid)
    requires |p| + 1 == home ==> Then(FlowOf(p), |p|, x) == Flow({mid}, Any, false)
    ensures Opened(p + [x], home, mid)
  {
    hide CmdsAt, Issue, Learn, CleanupSlot;
    var q := p + [x];
    SamePrefix(p, q, |p|);
    if |p| >= home { SamePrefix(p, q, home); }
  }

  /** A slot with nothing to track: no jump, no close or command, no write to R7. */
  predicate Plain(x: Insn) {
    match x
    case Ldx(_, d, _, _) => d != 7
    case Stx(_, _, _, _) => true
    case St(_, _, _, _) => true
    case Alu(_, d, _) => d != 7
    case MovReg(d, s) => d != 7 && !(d == 0 && s == 7)
    case MovImm(d, i) => d != 7 && d != 1 && !(d == 0 && i == 0)
    case Call(f) => f != SysClose && f != SysBpf
    case _ => false
  }

  const HOME := 7
  const FD_ARRAY_SZ := 4 * 320

  /** The slots of cleanup code, the distance the prologue has to jump. */
  function CleanupSize(nr_progs: nat, nr_maps: nat, log: bool): nat {
    (2 + nr_progs) * 3 + 2 + nr_maps * if log then 12 else 6
  }

  /** Slot `i` of the stack is closed at position `k`. */
  predicate ClosesStackAt(p: Code, k: nat, i: nat) {
    k + 3 <= |p| && p[k] == Ldx(4, 1, 10, S16(-STACK_SZ + 4 * i)) && p[k + 1] == Jmp(Jsle, 1, 0, 1) && p[k + 2] == Call(SysClose)
  }

  /** The descriptor at offset `off` of the blob is closed at position `k`. */
  predicate ClosesBlobAt(p: Code, k: nat, off: int) {
    k + 6 <= |p| && p[k] == LdLo(0, off) && p[k + 1] == LdHi && p[k + 2] == Ldx(4, 1, 0, 0)
    && p[k + 3].Jmp? && p[k + 3].jop == Jsle && p[k + 3].dst == 1 && p[k + 4] == MovReg(9, 1) && p[k + 5] == Call(SysClose)
  }

  /** The check of R7 at position `k`. */
  predicate CheckedAt(p: Code, k: int, home: nat) {
    0 <= k < |p| && p[k] == Jmp(Jslt, 7, 0, home - k - 1)
  }

  /** The check of R7, emitted after `p`. */
  function CheckCode(p: Code, home: int): (n: Code)
    ensures p <= n
  {
    p + [Jmp(Jslt, 7, 0, home - |p| - 1)]
  }

  /** What the pieces below add to a program `p`. */
  function RelStoreCode(p: Code, off: int, data: int): (n: Code)
    ensures p <= n
  {
    p + [LdLo(0, data), LdHi] + [LdLo(1, off), LdHi] + [Stx(8, 1, 0, 0)]
  }

  function Blob2BlobCode(p: Code, off: int, size: nat, blob_off: int): (n: Code)
    ensures p <= n
  {
    p + [LdLo(2, blob_off), LdHi] + [Ldx(size, 0, 2, 0)] + [LdLo(1, off), LdHi] + [Stx(size, 1, 0, 0)]
  }

  function Blob2CtxCode(p: Code, ctx_off: int, size: nat, blob_off: int): (n: Code)
    ensures p <= n
  {
    p + [LdLo(1, blob_off), LdHi] + [Ldx(size, 0, 1, 0)] + [Stx(size, 6, 0, S16(ctx_off))]
  }

  function Ctx2BlobCode(p: Code, off: int, size: nat, ctx_off: int, check_non_zero: bool): (n: Code)
    ensures p <= n
  {
    var q := p + [Ldx(size, 0, 6, S16(ctx_off))];
    (if check_non_zero then q + [Jmp(Jeq, 0, 0, 3)] else q) + [LdLo(1, off), LdHi] + [Stx(size, 1, 0, 0)]
  }

  function Stack2BlobCode(p: Code, off: int, size: nat, stack_off: int): (n: Code)
    ensures p <= n
  {
    p + [Ldx(size, 0, 10, S16(stack_off))] + [LdLo(1, off), LdHi] + [Stx(size, 1, 0, 0)]
  }

  function Stack2CtxCode(p: Code, ctx_off: int, size: nat, stack_off: int): (n: Code)
    ensures p <= n
  {
    p + [Ldx(size, 0, 10, S16(stack_off))] + [Stx(size, 6, 0, S16(ctx_off))]
  }

  function SysBpfCode(p: Code, cmd: int, attr: int, size: int): (n: Code)
    ensures p <= n
  {
    p + [MovImm(1, cmd)] + [LdLo(2, attr), LdHi] + [MovImm(3, size)] + [Call(SysBpf)] + [MovReg(7, 0)]
  }

  function FindCode(p: Code, name_off: int, len: int, kind: int): (n: Code)
    ensures p <= n
  {
    p + [LdLo(1, name_off), LdHi] + [MovImm(2, len)] + [MovImm(3, kind)] + [MovImm(4, 0)] + [Call(FindByNameKind)] + [MovReg(7, 0)]
  }

  function KallsymsArgsCode(p: Code, len: int, name_off: int, res_off: int): (n: Code)
    ensures p <= n
  {
    p + [LdLo(1, name_off), LdHi] + [MovImm(2, len)] + [MovImm(3, 0)] + [LdLo(4, res_off), LdHi]
  }

  function KallsymsCode(p: Code, len: int, data: int): (n: Code)
    ensures p <= n
  {
    KallsymsArgsCode(p, len, data, data + RoundUp8(len)) + [MovReg(7, 4)] + [Call(KallsymsLookup)] + [Ldx(8, 9, 7, 0)] + [MovReg(7, 0)]
  }

  function ClearCode(p: Code, size2: nat, skip: nat): (n: Code)
    ensures p <= n
  {
    p + [Jmp(Jsge, 7, 0, 3)] + [St(4, 8, 4, 0)] + [St(size2, 8, if size2 == 2 then 2 else 12, 0)] + [Jmp(Ja, 0, 0, skip)]
  }

  function ModuleFdCode(p: Code, slot_off: int, idx: int): (n: Code)
    ensures p <= n
  {
    p + [Jmp(Jne, 9, 0, 2)] + [St(2, 8, 2, 0)] + [Jmp(Ja, 0, 0, 4)] + [LdLo(0, slot_off), LdHi] + [Stx(4, 0, 9, 0)] + [St(2, 8, 2, idx)]
  }

  /** The three ways a kfunc lookup can come out. */
  function StoreKfuncCode(p: Code, slot_off: int, idx: int): (n: Code)
    ensures p <= n
  {
    ModuleFdCode(ClearCode(p, 2, 10) + [Stx(4, 8, 7, 4)] + [MovReg(9, 7)] + [Alu(Rsh, 9, 32)], slot_off, idx)
  }

  function ClearSrcCode(p: Code): (n: Code)
    ensures p <= n
  {
    p + [Ldx(1, 9, 8, 1)] + [Alu(And32, 9, 0x0f)] + [Stx(1, 8, 9, 1)]
  }

  function StoreKsymCode(p: Code): (n: Code)
    ensures p <= n
  {
    ClearSrcCode(ClearCode(p, 4, 4) + [Stx(4, 8, 7, 4)] + [Alu(Rsh, 7, 32)] + [Stx(4, 8, 7, 12)] + [Jmp(Jsge, 7, 0, 3)])
  }

  function CopyKsymCode(p: Code, insn: int, from: int): (n: Code)
    ensures p <= n
  {
    ClearSrcCode(Blob2BlobCode(Blob2BlobCode(p, insn + 4, 4, from + 4), insn + 12, 4, from + 12) + [Jmp(Jne, 0, 0, 3)])
  }

  function KsymAddrCode(p: Code, home: nat): (n: Code)
    ensures p <= n
  {
    p + [Jmp(Jeq, 7, -2, 1)] + [Jmp(Jslt, 7, 0, home - |p| - 2)] + [Stx(4, 8, 9, 4)] + [Alu(Rsh, 9, 32)] + [Stx(4, 8, 9, 12)]
  }

  lemma {:induction false} PrefixTrans(p: Code, q: Code, n: Code)
    requires p <= q <= n
    ensures p <= n
  {
  }

  function CopyImmsCode(p: Code, insn: int, from: int, off2: int, size2: nat): (n: Code)
    ensures p <= n
  {
    PrefixTrans(p, Blob2BlobCode(p, insn + 4, 4, from + 4), Blob2BlobCode(Blob2BlobCode(p, insn + 4, 4, from + 4), insn + off2, size2, from + off2));
    Blob2BlobCode(Blob2BlobCode(p, insn + 4, 4, from + 4), insn + off2, size2, from + off2)
  }

  lemma {:induction false} StackCloseStays(p: Code, q: Code, k: nat, i: nat)
    requires ClosesStackAt(p, k, i) && p <= q
    ensures ClosesStackAt(q, k, i)
  {
  }

  lemma {:induction false} BlobCloseStays(p: Code, q: Code, k: nat, off: int)
    requires ClosesBlobAt(p, k, off) && p <= q
    ensures ClosesBlobAt(q, k, off)
  {
  }

  /** The program begins as the generator makes it begin, with the jump over `dist` slots of cleanup code. */
  ghost predicate JumpsOver(p: Code, dist: nat) {
    |p| > HOME && p[..HOME] == PrologueCode([]) + [Jmp(Ja, 0, 0, S16(dist))]
  }

  function PrologueCode(p: Code): Code {
    p + [MovReg(6, 1)] + [MovReg(1, 10)] + [Alu(Add, 1, -STACK_SZ)] + [MovImm(2, STACK_SZ)] + [MovImm(3, 0)] + [Call(ProbeRead)]
  }

  lemma {:induction false} WithRoom(i: nat, n: nat, w: nat)
    requires i < n
    ensures i * w + w == (i + 1) * w <= n * w
  {
  }

  ghost predicate AtRest(f: Flow, n: nat, phase: Phase, home: nat, mid: nat) {
    && f.know == Any && (phase == Body ==> home + 2 <= mid <= n)
    && f.pend <= if phase == Opening && home <= n then {n, mid} else {n}
  }

  lemma {:induction false} StartKept(start: Code, p: Code, q: Code, n: Code, dist: nat)
    requires start == PrologueCode([]) + [Jmp(Ja, 0, 0, S16(dist))] && start <= p <= q <= n && |n| > HOME
    ensures JumpsOver(n, dist)
  {
    assert |start| == HOME && p[..HOME] == start && q[..HOME] == p[..HOME] && n[..HOME] == q[..HOME];
  }

  lemma {:induction false} CleanupKept(p: Code, q: Code, n: Code, fds: nat, nr_maps: nat, w: nat)
    requires p <= q <= n && |p| == HOME + 3 * fds && (w == 6 || w == 12)
    requires forall i :: 0 <= i < fds ==> ClosesStackAt(p, HOME + 3 * i, i)
    requires forall i :: 0 <= i < nr_maps ==> ClosesBlobAt(q, |p| + i * w, 4 * i)
    ensures forall i :: 0 <= i < fds ==> ClosesStackAt(n, HOME + 3 * i, i)
    ensures forall i :: 0 <= i < nr_maps ==> ClosesBlobAt(n, HOME + 3 * fds + i * w, 4 * i)
  {
    hide ClosesStackAt, ClosesBlobAt;
    assert p <= n;
    forall i | 0 <= i < fds ensures ClosesStackAt(n, HOME + 3 * i, i) { StackCloseStays(p, n, HOME + 3 * i, i); }
    forall i | 0 <= i < nr_maps ensures ClosesBlobAt(n, |p| + i * w, 4 * i) { BlobCloseStays(q, n, |p| + i * w, 4 * i); }
  }

  class Emitter {
    const log: bool
    /** The length, with its end, of the message formatted when so many slots are out; texts are not modelled. */
    const text_len: nat -> nat
    var insns: Code
    var data_len: nat
    var error: int
    /** `cleanup_label`, counted in slots. */
    var cleanup_label: nat
    ghost var phase: Phase
    ghost var home: nat
    ghost var mid: nat
    ghost var flow: Flow
    ghost var cmds: seq<(int, int, int)>
    /** The length of the cleanup code, once it is out. */
    ghost var begun: Option<nat>

    predicate Fine() reads this {
      error == 0
    }

    ghost predicate Live() reads this {
      error == 0 && phase != Broken
    }

    ghost predicate Valid() reads this {
      && data_len % 8 == 0 && (error == 0 && begun != None ==> JumpsOver(insns, begun.value))
      && (Live() ==>
        && Typed(insns, home) && flow == FlowOf(insns) && cmds == Cmds(insns)
        && (phase == Opening ==> Opened(insns, home, mid))
        && (phase == Body ==> Begun(insns, home, mid))
        && (phase == Finished ==> Loader(insns, home, mid)))
    }

    /** Between two pieces of code: every jump has landed, but the one over the cleanup code. */
    ghost predicate Rest() reads this {
      Valid() && (phase == Opening || phase == Broken || (phase == Body && cleanup_label == home)) && (Live() ==> AtRest(flow, |insns|, phase, home, mid))
    }

    /** Nothing but slots was added since. */
    ghost predicate Quiet(e: int, f: Flow, c: seq<(int, int, int)>) reads this {
      Live() ==> e == 0 && flow.due == f.due && cmds == c
    }

    /** `k` more slots still fit into the largest program. */
    ghost predicate Fits(k: nat) reads this {
      error == 0 && 8 * (|insns| + k) <= INT32_MAX
    }

    /** Cleanup code has room for `k` more slots. */
    ghost predicate Room(k: nat) reads this {
      phase == Opening && Live() ==> home <= |insns| && |insns| + k <= mid - 2
    }

    constructor (log_level: int, text_len: nat -> nat)
      ensures insns == [] && data_len == 0 && error == 0 && phase == Broken && cmds == [] && begun == None
      ensures log == (log_level != 0) && this.text_len == text_len
    {
      log, this.text_len := log_level != 0, text_len;
      insns, data_len, error, cleanup_label, phase := [], 0, 0, 0, Broken;
      home, mid, flow, cmds, begun := 0, 0, Flow({}, Any, false), [], None;
    }

    /** `emit`: once an error is set, nothing is emitted any more. */
    method Emit(x: Insn)
      requires Valid() && phase != Finished
      requires Live() ==> Accepts(flow, |insns|, x, home)
      requires Live() && phase == Opening ==>
                 OpeningSlot(|insns|, x, home, mid) && (|insns| + 1 == home ==> Then(flow, |insns|, x) == Flow({mid}, Any, false))
      requires Live() && phase == Body ==> x != Exit
      modifies `insns, `error, `flow, `cmds
      ensures Valid() && (old(error) != 0 ==> error == old(error)) && (error != 0 ==> insns == old(insns))
      ensures error == 0 ==> old(error) == 0 && insns == old(insns) + [x]
      ensures error == 0 ==> flow == Then(old(flow), |old(insns)|, x) && cmds == Issue(old(cmds), old(flow).know, x)
      ensures old(Fits(1)) ==> error == 0
    {
      hide FlowAt, CmdsAt, Accepts, Then, Learn, OpeningSlot, Begun, Opened, Typed, Loader;
      if error != 0 { return; }
      if |insns| * 8 + 8 > INT32_MAX {
        error := ERANGE;
        return;
      }
      Append(insns, x, home);
      if phase == Body { BegunAppend(insns, x, home, mid); }
      if phase == Opening { OpenedAppend(insns, x, home, mid); }
      flow, cmds := Then(flow, |insns|, x), Issue(cmds, flow.know, x);
      insns := insns + [x];
    }

    /** `emit` of a plain slot. */
    method EmitPlain(x: Insn)
      requires Valid() && phase != Finished && Plain(x) && (Live() ==> flow.know == Any)
      requires phase == Opening && Live() ==> if |insns| < home then |insns| + 1 < home < mid else |insns| + 1 <= mid - 2
      modifies `insns, `error, `flow, `cmds
      ensures Valid() && (old(error) != 0 ==> error == old(error))
      ensures error == 0 ==> old(error) == 0 && insns == old(insns) + [x]
      ensures Live() ==> flow == Flow(old(flow).pend - {|old(insns)|}, Any, old(flow).due) && cmds == old(cmds)
      ensures old(Fits(1)) ==> error == 0
    {
      hide Valid;
      Emit(x);
    }

    /** `gen->error = e`. */
    method Fail(e: int)
      requires Valid() && e != 0
      modifies `error
      ensures Valid() && error == e
    {
      error := e;
    }

    /** `add_data` for `size` bytes; contents are not modelled. */
    method AddData(size: int) returns (off: int)
      requires Valid() && 0 <= size < 0x1_0000_0000
      modifies `data_len, `error
      ensures Valid() && (old(error) != 0 ==> error == old(error))
      ensures error == 0 ==> old(error) == 0 && off == old(data_len) && data_len == old(data_len) + RoundUp8(size)
      ensures data_len >= old(data_len) && (error != 0 ==> off == 0)
      ensures old(error) == 0 && RoundUp8(size) <= INT32_MAX && old(data_len) + RoundUp8(size) <= INT32_MAX ==> error == 0
    {
      if error != 0 { return 0; }
      if RoundUp8(size) > INT32_MAX || data_len + RoundUp8(size) > INT32_MAX {
        error := ERANGE;
        return 0;
      }
      off := data_len;
      data_len := data_len + RoundUp8(size);
    }

    /** `emit2` of a 64-bit load of the address of `off` in the blob. */
    method EmitLoad(d: Reg, off: int)
      requires Valid() && phase != Finished
      requires Live() ==> !flow.know.Wide? && !flow.know.WideAttr? && flow.know != Returned
      requires Live() ==> (|insns| in flow.pend ==> flow.know == Any) && (flow.due ==> d != 7) && |insns| + 1 !in flow.pend
      requires Live() && phase == Opening ==> home <= |insns| && |insns| + 2 <= mid - 2 && d != 7
      modifies `insns, `error, `flow, `cmds
      ensures Valid() && (old(error) != 0 ==> error == old(error)) && Quiet(old(error), old(flow), old(cmds))
      ensures error == 0 ==> old(error) == 0
      ensures error == 0 ==> insns == old(insns) + [LdLo(d, off), LdHi]
      ensures Live() ==> flow.pend == old(flow).pend - {|old(insns)|}
      ensures Live() ==> flow.know == Learn(Learn(old(flow).know, LdLo(d, off)), LdHi)
      ensures Live() && old(flow).know == Any ==> flow.know == Any
    {
      hide Valid;
      Emit(LdLo(d, off));
      Emit(LdHi);
    }

    /** `emit_rel_store`: the address of `data` goes to `off` in the blob. */
    method RelStore(off: int, data: int)
      requires Rest() && phase != Opening
      modifies `insns, `error, `flow, `cmds
      ensures Rest() && (old(error) != 0 ==> error == old(error)) && Quiet(old(error), old(flow), old(cmds))
      ensures error == 0 ==> old(error) == 0
      ensures error == 0 ==> insns == RelStoreCode(old(insns), off, data)
    {
      hide Valid, Accepts, OpeningSlot, CleanupSlot, Learn;
      EmitLoad(0, data);
      EmitLoad(1, off);
      EmitPlain(StxMem(8, 1, 0, 0));
    }

    /** `move_blob2blob`. */
    method MoveBlob2Blob(off: int, size: nat, blob_off: int)
      requires Rest() && phase != Opening
      modifies `insns, `error, `flow, `cmds
      ensures Rest() && (old(error) != 0 ==> error == old(error)) && Quiet(old(error), old(flow), old(cmds))
      ensures error == 0 ==> old(error) == 0
      ensures error == 0 ==> insns == Blob2BlobCode(old(insns), off, size, blob_off)
    {
      hide Valid, Accepts, OpeningSlot, CleanupSlot, Learn;
      EmitLoad(2, blob_off);
      EmitPlain(LdxMem(size, 0, 2, 0));
      EmitLoad(1, off);
      EmitPlain(StxMem(size, 1, 0, 0));
    }

    /** `move_blob2ctx`. */
    method MoveBlob2Ctx(ctx_off: int, size: nat, blob_off: int)
      requires Rest() && phase != Opening
      modifies `insns, `error, `flow, `cmds
      ensures Rest() && (old(error) != 0 ==> error == old(error)) && Quiet(old(error), old(flow), old(cmds))
      ensures error == 0 ==> old(error) == 0
      ensures error == 0 ==> insns == Blob2CtxCode(old(insns), ctx_off, size, blob_off)
    {
      hide Valid, Accepts, OpeningSlot, CleanupSlot, Learn;
      EmitLoad(1, blob_off);
      EmitPlain(LdxMem(size, 0, 1, 0));
      EmitPlain(StxMem(size, 6, 0, ctx_off));
    }

    /** `move_ctx2blob`: with `check_non_zero`, a zero in the context leaves the blob as it is. */
    method MoveCtx2Blob(off: int, size: nat, ctx_off: int, check_non_zero: bool)
      requires Rest() && phase != Opening
      modifies `insns, `error, `flow, `cmds
      ensures Rest() && (old(error) != 0 ==> error == old(error)) && Quiet(old(error), old(flow), old(cmds))
      ensures error == 0 ==> old(error) == 0
      ensures error == 0 ==> insns == Ctx2BlobCode(old(insns), off, size, ctx_off, check_non_zero)
    {
      hide Valid, Accepts, OpeningSlot, CleanupSlot, Learn;
      EmitPlain(LdxMem(size, 0, 6, ctx_off));
      if check_non_zero { EmitJump(Jeq, 0, 0, 3); }
      EmitLoad(1, off);
      EmitPlain(StxMem(size, 1, 0, 0));
    }

    /** `move_stack2blob`. */
    method MoveStack2Blob(off: int, size: nat, stack_off: int)
      requires Rest() && phase != Opening
      modifies `insns, `error, `flow, `cmds
      ensures Rest() && (old(error) != 0 ==> error == old(error)) && Quiet(old(error), old(flow), old(cmds))
      ensures error == 0 ==> old(error) == 0
      ensures error == 0 ==> insns == Stack2BlobCode(old(insns), off, size, stack_off)
    {
      hide Valid, Accepts, OpeningSlot, CleanupSlot, Learn;
      EmitPlain(LdxMem(size, 0, 10, stack_off));
      EmitLoad(1, off);
      EmitPlain(StxMem(size, 1, 0, 0));
    }

    /** `move_stack2ctx`. */
    method MoveStack2Ctx(ctx_off: int, size: nat, stack_off: int)
      requires Rest() && phase != Opening
      modifies `insns, `error, `flow, `cmds
      ensures Rest() && (old(error) != 0 ==> error == old(error)) && Quiet(old(error), old(flow), old(cmds))
      ensures error == 0 ==> old(error) == 0
      ensures error == 0 ==> insns == Stack2CtxCode(old(insns), ctx_off, size, stack_off)
    {
      hide Valid, Accepts, OpeningSlot, CleanupSlot, Learn;
      EmitPlain(LdxMem(size, 0, 10, stack_off));
      EmitPlain(StxMem(size, 6, 0, ctx_off));
    }

    /** `emit_sys_bpf`: issues a command, whose result in R7 is then due to be checked. */
    method SysBpfCmd(cmd: int, attr: int, attr_size: int)
      requires Rest() && phase != Opening && (Live() ==> !flow.due)
      modifies `insns, `error, `flow, `cmds
      ensures Rest() && (old(error) != 0 ==> error == old(error))
      ensures Live() ==> old(error) == 0 && flow.due && cmds == old(cmds) + [(cmd, attr, attr_size)]
      ensures error == 0 ==> old(error) == 0
      ensures error == 0 ==> insns == SysBpfCode(old(insns), cmd, attr, attr_size)
    {
      hide Valid;
      Emit(MovImm(1, cmd));
      EmitLoad(2, attr);
      Emit(MovImm(3, attr_size));
      CallBpf();
    }

    method CallBpf()
      requires Valid() && phase != Finished && phase != Opening
      requires Live() ==> flow.know.CmdArgs? && !flow.due && flow.pend == {}
      modifies `insns, `error, `flow, `cmds
      ensures Valid() && (old(error) != 0 ==> error == old(error))
      ensures error == 0 ==> old(error) == 0 && insns == old(insns) + [Call(SysBpf)] + [MovReg(7, 0)]
      ensures Live() ==> flow == Flow({}, Any, true)
      ensures Live() ==> cmds == old(cmds) + [(old(flow).know.cmd, old(flow).know.attr, old(flow).know.size)]
    {
      hide Valid;
      Emit(Call(SysBpf));
      Emit(MovReg(7, 0));
    }

    /** `emit_check_err`: a negative R7 sends the loader to the cleanup code. */
    method CheckErr()
      requires Valid() && (phase == Broken || (phase == Body && cleanup_label == home))
      requires Live() ==> flow.know == Any && home + 2 <= |insns| && (flow.due ==> flow.pend <= {|insns|})
      modifies `insns, `error, `flow, `cmds
      ensures Valid() && (old(error) != 0 ==> error != 0)
      ensures Live() ==> flow == Flow(old(flow).pend - {|old(insns)|}, Any, false) && cmds == old(cmds)
      ensures error == 0 ==> old(error) == 0 && insns == old(insns) + [Jmp(Jslt, 7, 0, cleanup_label - |old(insns)| - 1)]
      ensures error == 0 ==> cleanup_label - |old(insns)| - 1 >= -0x8000
    {
      hide Valid;
      var off := cleanup_label - |insns| - 1;
      if S16(off) == off {
        Emit(Jmp(Jslt, 7, 0, off));
      } else {
        Fail(ERANGE);
        Emit(Jmp(Ja, 0, 0, -1));
      }
    }

    function MsgLen(n: nat): nat {
      text_len(n) % 1024 + 1
    }

    /** `emit_check_err` between two pieces of code. */
    method Check()
      requires Rest() && phase != Opening
      modifies `insns, `error, `flow, `cmds
      ensures Rest() && (old(error) != 0 ==> error != 0)
      ensures Live() ==> old(error) == 0 && !flow.due && cmds == old(cmds)
      ensures error == 0 ==> old(error) == 0 && CheckedAt(insns, |insns| - 1, cleanup_label)
      ensures error == 0 ==> insns == CheckCode(old(insns), cleanup_label) && |insns| == |old(insns)| + 1
    {
      hide Valid;
      CheckErr();
    }

    /** A register, not R7, gets the address of `off` in the blob. */
    method Load(d: Reg, off: int)
      requires Rest() && phase != Opening && d != 7
      modifies `insns, `error, `flow, `cmds
      ensures Rest() && (old(error) != 0 ==> error == old(error)) && Quiet(old(error), old(flow), old(cmds))
      ensures error == 0 ==> old(error) == 0 && insns == old(insns) + [LdLo(d, off), LdHi]
    {
      hide Valid;
      EmitLoad(d, off);
    }

    /** R7 is shifted down to its upper half. */
    method ShiftR7()
      requires Rest() && phase != Opening && (Live() ==> !flow.due)
      modifies `insns, `error, `flow, `cmds
      ensures Rest() && (old(error) != 0 ==> error == old(error)) && Quiet(old(error), old(flow), old(cmds))
      ensures error == 0 ==> old(error) == 0 && insns == old(insns) + [Alu(Rsh, 7, 32)]
    {
      hide Valid;
      EmitR7(Alu(Rsh, 7, 32));
    }

    /** `gen->error = e` between two pieces of code. */
    method Abort(e: int)
      requires Rest() && e != 0
      modifies `error
      ensures Rest() && error == e
    {
      hide Valid;
      Fail(e);
    }

    /** `add_data` between two pieces of code. */
    method Reserve(size: int) returns (off: int)
      requires Rest() && 0 <= size < 0x1_0000_0000
      modifies `data_len, `error
      ensures Rest() && (old(error) != 0 ==> error == old(error))
      ensures error == 0 ==> old(error) == 0 && off == old(data_len) && data_len == old(data_len) + RoundUp8(size)
      ensures data_len >= old(data_len)
    {
      hide Valid;
      off := AddData(size);
    }

    /** A single plain slot between two pieces of code. */
    method EmitStore(x: Insn)
      requires Rest() && phase != Opening && Plain(x)
      modifies `insns, `error, `flow, `cmds
      ensures Rest() && (old(error) != 0 ==> error == old(error)) && Quiet(old(error), old(flow), old(cmds))
      ensures error == 0 ==> old(error) == 0 && insns == old(insns) + [x]
    {
      hide Valid;
      EmitPlain(x);
    }

    /** What `emit_debug` of one register adds. */
    function DebugRegCode(p: Code, d: int, reg1: Reg): (q: Code)
      ensures p <= q
    {
      p + [LdLo(1, d), LdHi] + [MovImm(2, MsgLen(|p|))] + [MovReg(3, reg1)] + [Call(TracePrintk)]
    }

    /** What `emit_debug` of two registers adds to `p` when the blob is `d` bytes long. */
    function DebugCode(p: Code, d: int, reg1: Reg, reg2: Reg): (q: Code)
      ensures p <= q
    {
      p + [LdLo(1, d), LdHi] + [MovImm(2, MsgLen(|p|))] + [MovReg(3, reg1)] + [MovReg(4, reg2)] + [Call(TracePrintk)]
    }

    /** What logging one register adds, if there is a log. */
    function RegLog(p: Code, d: int, reg1: Reg): (q: Code)
      ensures p <= q
    {
      if log then DebugRegCode(p, d, reg1) else p
    }

    /** What logging a kfunc's relocation adds. */
    function KfuncLog(p: Code, d: int, d2: int, slot_off: int): (q: Code)
      ensures p <= q
    {
      if !log then p
      else
        var c := DebugCode(p + [Ldx(4, 7, 8, 4)] + [Ldx(2, 9, 8, 2)], d, 7, 9);
        DebugRegCode(c + [LdLo(0, slot_off), LdHi] + [Ldx(4, 9, 0, 0)], d2, 9)
    }

    /** What logging another symbol's relocation adds. */
    function KsymLog(p: Code, d: int, d2: int): (q: Code)
      ensures p <= q
    {
      if !log then p
      else
        var c := DebugCode(p + [Ldx(4, 7, 8, 4)] + [Ldx(2, 9, 8, 12)], d, 7, 9);
        DebugRegCode(c + [Ldx(1, 9, 8, 1)], d2, 9)
    }

    /** The message and its length go to R1 and R2. */
    method LoadMsg()
      requires Valid() && phase != Finished && Room(3)
      requires Live() ==> flow.know == Any && |insns| + 1 !in flow.pend && |insns| + 2 !in flow.pend
      modifies `insns, `error, `flow, `cmds, `data_len
      ensures Valid() && (old(error) != 0 ==> error == old(error)) && Quiet(old(error), old(flow), old(cmds))
      ensures error == 0 ==> old(error) == 0
      ensures error == 0 ==> insns == old(insns) + [LdLo(1, old(data_len)), LdHi] + [MovImm(2, MsgLen(|old(insns)|))]
      ensures Live() ==> flow.know == Any && flow.pend == old(flow).pend - {|old(insns)|}
      ensures data_len >= old(data_len)
    {
      hide Valid, Accepts, OpeningSlot, CleanupSlot, Learn;
      var len := MsgLen(|insns|);
      var addr := AddData(len);
      EmitLoad(1, addr);
      EmitPlain(MovImm(2, len));
    }

    /** `debug_regs` of two registers. No jump may land inside. */
    method DebugRegs(reg1: Reg, reg2: Reg)
      requires Valid() && phase != Finished && Room(if log then 6 else 0)
      requires Live() ==> flow.know == Any && forall t :: t in flow.pend ==> t == |insns| || t >= |insns| + if log then 6 else 0
      modifies `insns, `error, `flow, `cmds, `data_len
      ensures Valid() && (old(error) != 0 ==> error == old(error)) && Quiet(old(error), old(flow), old(cmds))
      ensures error == 0 ==> old(error) == 0
      ensures error == 0 ==> insns == if log then DebugCode(old(insns), old(data_len), reg1, reg2) else old(insns)
      ensures Live() ==> flow.know == Any && flow.pend == if log then old(flow).pend - {|old(insns)|} else old(flow).pend
      ensures data_len >= old(data_len)
      ensures old(Fits(0)) && !log ==> error == 0
    {
      hide Valid, Accepts, OpeningSlot, CleanupSlot, Learn;
      if !log { return; }
      LoadMsg();
      EmitPlain(MovReg(3, reg1));
      EmitPlain(MovReg(4, reg2));
      EmitPlain(Call(TracePrintk));
    }

    /** `debug_regs` of one register, and `debug_ret` of R7. */
    method DebugReg(reg1: Reg)
      requires Rest() && phase != Opening
      modifies `insns, `error, `flow, `cmds, `data_len
      ensures Rest() && (old(error) != 0 ==> error == old(error)) && Quiet(old(error), old(flow), old(cmds))
      ensures error == 0 ==> old(error) == 0
      ensures error == 0 ==> insns == RegLog(old(insns), old(data_len), reg1)
      ensures data_len >= old(data_len)
    {
      hide Valid, Accepts, OpeningSlot, CleanupSlot, Learn;
      if !log { return; }
      LoadMsg();
      EmitPlain(MovReg(3, reg1));
      EmitPlain(Call(TracePrintk));
    }

    /** What `__emit_sys_close` adds. */
    function CloseCode(p: Code, d: int): (q: Code)
      ensures p <= q
    {
      var q := p + [Jmp(Jsle, 1, 0, if log then 8 else 2)] + [MovReg(9, 1)] + [Call(SysClose)];
      if log then DebugCode(q, d, 9, 0) else q
    }

    /** The close, skipped with the `skip - 2` slots after it unless R1 is above zero. */
    method GuardedClose(skip: nat)
      requires Valid() && phase != Finished && Room(1 + skip) && skip >= 2
      requires Live() ==> flow.know == Any && forall t :: t in flow.pend ==> t == |insns| || t >= |insns| + 1 + skip
      modifies `insns, `error, `flow, `cmds
      ensures Valid() && (old(error) != 0 ==> error == old(error)) && Quiet(old(error), old(flow), old(cmds))
      ensures error == 0 ==> old(error) == 0 && insns == old(insns) + [Jmp(Jsle, 1, 0, skip)] + [MovReg(9, 1)] + [Call(SysClose)]
      ensures Live() ==> flow.know == Any && flow.pend == old(flow).pend - {|old(insns)|} + {|old(insns)| + 1 + skip}
      ensures old(Fits(3)) ==> error == 0
    {
      hide Valid;
      EmitGuard(skip);
      Emit(MovReg(9, 1));
      Emit(Call(SysClose));
    }

    /** The jump over a close, after which R1 is above zero. */
    method EmitGuard(skip: nat)
      requires Valid() && phase != Finished && Room(1 + skip) && skip >= 1 && (Live() ==> flow.know == Any)
      modifies `insns, `error, `flow, `cmds
      ensures Valid() && (old(error) != 0 ==> error == old(error))
      ensures error == 0 ==> old(error) == 0 && insns == old(insns) + [Jmp(Jsle, 1, 0, skip)]
      ensures Live() ==> flow == Flow(old(flow).pend - {|old(insns)|} + {|old(insns)| + 1 + skip}, Positive, old(flow).due) && cmds == old(cmds)
      ensures old(Fits(1)) ==> error == 0
    {
      hide Valid;
      Emit(Jmp(Jsle, 1, 0, skip));
    }

    /** `__emit_sys_close`: the descriptor in R1 is closed if it is above zero. */
    method SysCloseR1()
      requires Valid() && phase != Finished && Room(if log then 9 else 3)
      requires Live() ==> flow.know == Any && forall t :: t in flow.pend ==> t == |insns| || t >= |insns| + if log then 9 else 3
      modifies `insns, `error, `flow, `cmds, `data_len
      ensures Valid() && (old(error) != 0 ==> error == old(error)) && Quiet(old(error), old(flow), old(cmds))
      ensures error == 0 ==> old(error) == 0
      ensures error == 0 ==> insns == CloseCode(old(insns), old(data_len))
      ensures Live() ==> flow.know == Any && flow.pend <= old(flow).pend - {|old(insns)|} + {|insns|}
      ensures data_len >= old(data_len)
      ensures old(Fits(3)) && !log ==> error == 0
    {
      hide Valid, Accepts, OpeningSlot, CleanupSlot, Learn;
      GuardedClose(2 + if log then 6 else 0);
      DebugRegs(9, 0);
    }

    /** `emit_sys_close_stack`. */
    method SysCloseStack(stack_off: int)
      requires Rest() && phase != Opening
      modifies `insns, `error, `flow, `cmds, `data_len
      ensures Rest() && (old(error) != 0 ==> error == old(error)) && Quiet(old(error), old(flow), old(cmds))
      ensures error == 0 ==> old(error) == 0
      ensures error == 0 ==> insns == CloseCode(old(insns) + [Ldx(4, 1, 10, S16(stack_off))], old(data_len))
      ensures data_len >= old(data_len)
      ensures old(Fits(4)) && !log ==> error == 0
    {
      hide Valid, Accepts, OpeningSlot, CleanupSlot, Learn;
      EmitPlain(LdxMem(4, 1, 10, stack_off));
      SysCloseR1();
    }

    /** `emit_sys_close_blob`: 6 slots, and 6 more when logging. */
    method SysCloseBlob(blob_off: int)
      requires Rest() && Room(if log then 12 else 6)
      modifies `insns, `error, `flow, `cmds, `data_len
      ensures Rest() && (old(error) != 0 ==> error == old(error)) && Quiet(old(error), old(flow), old(cmds))
      ensures error == 0 ==> old(error) == 0
      ensures error == 0 ==> insns == CloseCode(old(insns) + [LdLo(0, blob_off), LdHi] + [Ldx(4, 1, 0, 0)], old(data_len))
      ensures error == 0 ==> |insns| == |old(insns)| + 6 + if log then 6 else 0
      ensures error == 0 ==> ClosesBlobAt(insns, |old(insns)|, blob_off) && old(insns) <= insns
      ensures data_len >= old(data_len)
    {
      hide Valid, Accepts, OpeningSlot, CleanupSlot, Learn, CloseCode, ClosesBlobAt;
      LoadBlobFd(blob_off);
      CloseCodeCloses(old(insns), old(data_len), blob_off);
      SysCloseR1();
    }

    /** The descriptor at an offset of the blob goes to R1. */
    method LoadBlobFd(blob_off: int)
      requires Rest() && Room(if log then 12 else 6)
      modifies `insns, `error, `flow, `cmds
      ensures Valid() && (old(error) != 0 ==> error == old(error)) && Quiet(old(error), old(flow), old(cmds))
      ensures error == 0 ==> old(error) == 0 && insns == old(insns) + [LdLo(0, blob_off), LdHi] + [Ldx(4, 1, 0, 0)]
      ensures Live() ==> flow.know == Any && flow.pend <= (if phase == Opening && home <= |old(insns)| then {mid} else {}) - {|old(insns)|}
    {
      hide Valid, Accepts, OpeningSlot, CleanupSlot, Learn;
      EmitLoad(0, blob_off);
      EmitPlain(LdxMem(4, 1, 0, 0));
    }

    lemma {:induction false} CloseCodeCloses(p: Code, d: int, blob_off: int)
      ensures var q := CloseCode(p + [LdLo(0, blob_off), LdHi] + [Ldx(4, 1, 0, 0)], d);
              && |q| == |p| + 6 + (if log then 6 else 0) && p <= q && ClosesBlobAt(q, |p|, blob_off)
    {
      hide MsgLen;
      var r := p + [LdLo(0, blob_off), LdHi] + [Ldx(4, 1, 0, 0)];
      var s := r + [Jmp(Jsle, 1, 0, if log then 8 else 2)] + [MovReg(9, 1)] + [Call(SysClose)];
      assert s <= CloseCode(r, d) && ClosesBlobAt(s, |p|, blob_off);
      BlobCloseStays(s, CloseCode(r, d), |p|, blob_off);
    }

    /** The slots before the jump over the cleanup code. */
    method Prologue()
      requires Rest() && (Live() ==> phase == Opening && insns == [] && flow == Flow({}, Any, false) && home == HOME < mid)
      modifies `insns, `error, `flow, `cmds
      ensures Valid() && (old(error) != 0 ==> error == old(error)) && Quiet(old(error), old(flow), old(cmds))
      ensures error == 0 ==> old(error) == 0 && insns == PrologueCode(old(insns))
      ensures Live() ==> flow == Flow({}, Any, false)
      ensures old(Fits(6)) ==> error == 0
    {
      hide Valid, Accepts, OpeningSlot, CleanupSlot, Learn;
      EmitPlain(MovReg(6, 1));
      EmitPlain(MovReg(1, 10));
      EmitPlain(Alu(Add, 1, -STACK_SZ));
      EmitPlain(MovImm(2, STACK_SZ));
      EmitPlain(MovImm(3, 0));
      EmitPlain(Call(ProbeRead));
    }

    /** One descriptor slot of the stack is closed by the cleanup code. */
    method CleanStack(i: nat)
      requires Rest() && Room(3)
      modifies `insns, `error, `flow, `cmds
      ensures Rest() && (old(error) != 0 ==> error == old(error)) && Quiet(old(error), old(flow), old(cmds))
      ensures error == 0 ==> old(error) == 0
      ensures error == 0 ==> insns == old(insns) + [Ldx(4, 1, 10, S16(-STACK_SZ + 4 * i))] + [Jmp(Jsle, 1, 0, 1)] + [Call(SysClose)]
      ensures old(Fits(3)) ==> error == 0
    {
      hide Valid;
      EmitPlain(LdxMem(4, 1, 10, -STACK_SZ + 4 * i));
      EmitGuard(1);
      Emit(Call(SysClose));
    }

    ghost method StartFlow(dist: nat)
      requires insns == [] && phase == Broken && dist >= 2 && begun == None && data_len == 0
      modifies `flow, `cmds, `phase, `home, `mid
      ensures Rest() && home == HOME && mid == HOME + dist && flow == Flow({}, Any, false) && cmds == []
      ensures phase == if dist < 0x8000 then Opening else Broken
    {
      home, mid, flow, cmds := HOME, HOME + dist, Flow({}, Any, false), [];
      phase := if dist < 0x8000 then Opening else Broken;
    }

    method EmitJumpOver(dist: nat)
      requires Valid() && phase != Finished && (phase == Opening ==> mid == home + dist && dist < 0x8000 && dist >= 2)
      requires Live() ==> flow == Flow({}, Any, false) && |insns| == home - 1 && phase == Opening
      modifies `insns, `error, `flow, `cmds
      ensures Valid() && (old(error) != 0 ==> error == old(error)) && Quiet(old(error), old(flow), old(cmds))
      ensures error == 0 ==> old(error) == 0 && insns == old(insns) + [Jmp(Ja, 0, 0, S16(dist))]
      ensures Live() ==> flow == Flow({mid}, Any, false)
      ensures old(Fits(1)) ==> error == 0
    {
      hide Valid;
      Emit(Jmp(Ja, 0, 0, S16(dist)));
    }

    /** The cleanup loop over the stack slots in use. */
    method CleanStackFds(n: nat)
      requires Rest() && (phase == Opening || phase == Broken) && (Live() ==> home == HOME && HOME + 3 * n <= mid - 2)
      requires error == 0 ==> |insns| == HOME
      modifies `insns, `error, `flow, `cmds
      ensures Rest() && (old(error) != 0 ==> error == old(error)) && Quiet(old(error), old(flow), old(cmds))
      ensures error == 0 ==> old(error) == 0 && old(insns) <= insns && |insns| == HOME + 3 * n
      ensures error == 0 ==> forall j :: 0 <= j < n ==> ClosesStackAt(insns, HOME + 3 * j, j)
      ensures old(Fits(3 * n)) ==> error == 0
    {
      hide Valid, AtRest;
      for i := 0 to n
        invariant Rest() && (old(error) != 0 ==> error == old(error)) && Quiet(old(error), old(flow), old(cmds))
        invariant error == 0 ==> old(error) == 0 && old(insns) <= insns && |insns| == HOME + 3 * i
        invariant error == 0 ==> forall j :: 0 <= j < i ==> ClosesStackAt(insns, HOME + 3 * j, j)
        invariant old(Fits(3 * n)) ==> error == 0 && |insns| == |old(insns)| + 3 * i
      {
        CleanStack(i);
      }
    }

    /** The cleanup loop over the map descriptors, `w` slots each. */
    method CleanMapFds(nr_maps: nat, ghost w: nat)
      requires Rest() && (phase == Opening || phase == Broken) && w == if log then 12 else 6
      requires Live() ==> home <= |insns| && |insns| + nr_maps * w <= mid - 2
      modifies `insns, `error, `flow, `cmds, `data_len
      ensures Rest() && (old(error) != 0 ==> error == old(error)) && Quiet(old(error), old(flow), old(cmds))
      ensures error == 0 ==> old(error) == 0 && old(insns) <= insns && |insns| == |old(insns)| + nr_maps * w
      ensures error == 0 ==> forall j :: 0 <= j < nr_maps ==> ClosesBlobAt(insns, |old(insns)| + j * w, 4 * j)
      ensures data_len >= old(data_len)
      ensures old(Fits(0)) && nr_maps == 0 ==> error == 0
    {
      hide Valid, AtRest, ClosesBlobAt, CloseCode;
      for i := 0 to nr_maps
        invariant Rest() && (old(error) != 0 ==> error == old(error)) && Quiet(old(error), old(flow), old(cmds))
        invariant error == 0 ==> old(error) == 0 && old(insns) <= insns && |insns| == |old(insns)| + i * w
        invariant error == 0 ==> forall j :: 0 <= j < i ==> ClosesBlobAt(insns, |old(insns)| + j * w, 4 * j)
        invariant i == 0 && old(Fits(0)) ==> error == 0
        invariant data_len >= old(data_len)
      {
        WithRoom(i, nr_maps, w);
        ghost var p := insns;
        SysCloseBlob(4 * i);
        if error == 0 {
          forall j | 0 <= j < i ensures ClosesBlobAt(insns, |old(insns)| + j * w, 4 * j) {
            BlobCloseStays(p, insns, |old(insns)| + j * w, 4 * j);
          }
        }
      }
    }

    /** `bpf_gen__init`. The jump over the cleanup code is stored in 16 bits: only if it fits does the
        program take the shape of a loader. */
    method Init(nr_progs: nat, nr_maps: nat) returns (fd_array: int)
      requires insns == [] && data_len == 0 && error == 0 && phase == Broken && cmds == [] && begun == None
      modifies `insns, `error, `flow, `cmds, `data_len, `cleanup_label, `phase, `home, `mid, `begun
      ensures Rest() && (phase == Body || phase == Broken) && (error == 0 && CleanupSize(nr_progs, nr_maps, log) < 0x8000 ==> phase == Body)
      ensures Live() ==> home == HOME && mid == |insns| == HOME + CleanupSize(nr_progs, nr_maps, log) && !flow.due && cmds == []
      ensures fd_array == 0 && (error == 0 ==> data_len >= FD_ARRAY_SZ && cleanup_label == HOME)
      ensures error == 0 ==> |insns| == HOME + CleanupSize(nr_progs, nr_maps, log)
      ensures begun == Some(CleanupSize(nr_progs, nr_maps, log)) && (error == 0 ==> JumpsOver(insns, CleanupSize(nr_progs, nr_maps, log)))
      ensures nr_maps == 0 && 8 * (HOME + CleanupSize(nr_progs, 0, log)) <= INT32_MAX ==> error == 0
      ensures error == 0 ==> forall i :: 0 <= i < 2 + nr_progs ==> ClosesStackAt(insns, HOME + 3 * i, i)
      ensures error == 0 ==> forall i :: 0 <= i < nr_maps ==>
                ClosesBlobAt(insns, HOME + 3 * (2 + nr_progs) + i * (if log then 12 else 6), 4 * i)
    {
      hide Valid, AtRest, ClosesStackAt, ClosesBlobAt, JumpsOver, PrologueCode;
      var w := if log then 12 else 6;
      fd_array := Open(CleanupSize(nr_progs, nr_maps, log));
      ghost var start := insns;
      CleanStackFds(2 + nr_progs);
      ghost var p := insns;
      CleanMapFds(nr_maps, w);
      ghost var q := insns;
      Close();
      if error == 0 {
        CleanupKept(p, q, insns, 2 + nr_progs, nr_maps, w);
        StartKept(start, p, q, insns, CleanupSize(nr_progs, nr_maps, log));
      }
      MarkBegun(CleanupSize(nr_progs, nr_maps, log));
    }

    lemma {:induction false} Aligned()
      requires Rest()
      ensures data_len % 8 == 0
    {
    }

    lemma {:induction false} HomeHolds()
      requires Rest() && phase == Body
      ensures cleanup_label == home
    {
    }

    lemma {:induction false} BegunHolds()
      requires Valid()
      ensures error == 0 && begun != None ==> JumpsOver(insns, begun.value)
    {
    }

    ghost method MarkBegun(dist: nat)
      requires Rest() && (error == 0 ==> JumpsOver(insns, dist))
      modifies `begun
      ensures Rest() && begun == Some(dist)
    {
      begun := Some(dist);
    }

    /** The data for descriptors, the prologue, the jump over `dist` slots of cleanup code, and the label. */
    method Open(dist: nat) returns (fd_array: int)
      requires insns == [] && data_len == 0 && error == 0 && phase == Broken && dist >= 2 && begun == None
      modifies `insns, `error, `flow, `cmds, `data_len, `cleanup_label, `phase, `home, `mid
      ensures Rest() && phase == (if dist < 0x8000 then Opening else Broken) && home == HOME && mid == HOME + dist
      ensures Live() ==> !flow.due && cmds == []
      ensures fd_array == 0 && (error == 0 ==> data_len >= FD_ARRAY_SZ && cleanup_label == |insns| == HOME)
      ensures error == 0 ==> insns == PrologueCode([]) + [Jmp(Ja, 0, 0, S16(dist))]
      ensures 8 * HOME <= INT32_MAX ==> error == 0
    {
      hide Valid, Accepts, OpeningSlot, CleanupSlot, Learn;
      StartFlow(dist);
      fd_array := AddData(FD_ARRAY_SZ);
      Prologue();
      EmitJumpOver(dist);
      SetLabel();
    }

    method SetLabel()
      requires Valid() && phase != Body
      modifies `cleanup_label
      ensures Valid() && cleanup_label == |insns|
    {
      cleanup_label := |insns|;
    }

    /** The end of the cleanup code: R7 is returned. */
    method Close()
      requires Rest() && (phase == Opening || phase == Broken) && (Live() ==> |insns| == mid - 2 && home <= |insns| && cleanup_label == home && !flow.due)
      modifies `insns, `error, `flow, `cmds, `phase
      ensures Rest() && (old(error) != 0 ==> error == old(error)) && Quiet(old(error), old(flow), old(cmds))
      ensures phase == (if error == 0 && old(phase) == Opening then Body else Broken)
      ensures error == 0 ==> old(error) == 0 && insns == old(insns) + [MovReg(0, 7)] + [Exit]
      ensures old(Fits(2)) ==> error == 0
    {
      hide Valid;
      Emit(MovReg(0, 7));
      Emit(Exit);
      StartBody();
    }

    ghost method StartBody()
      requires Valid() && (phase == Opening || phase == Broken)
      requires Live() ==> |insns| == mid && home + 2 <= mid && insns[mid - 2] == MovReg(0, 7) && insns[mid - 1] == Exit
      modifies `phase
      ensures Valid() && phase == (if error == 0 && old(phase) == Opening then Body else Broken)
    {
      hide Typed, Cmds, FlowAt;
      phase := if error == 0 && phase == Opening then Body else Broken;
    }

    /** A slot that puts something else in R7, when no result is due there. */
    method EmitR7(x: Insn)
      requires Valid() && phase != Finished && phase != Opening
      requires x.MovReg? || x.Ldx? || (x.Alu? && x.aop == Rsh)
      requires x.dst == 7 && (Live() ==> flow.know == Any && !flow.due)
      modifies `insns, `error, `flow, `cmds
      ensures Valid() && (old(error) != 0 ==> error == old(error))
      ensures error == 0 ==> old(error) == 0 && insns == old(insns) + [x]
      ensures Live() ==> flow == Flow(old(flow).pend - {|old(insns)|}, Any, false) && cmds == old(cmds)
    {
      hide Valid;
      Emit(x);
    }

    /** A forward jump other than the one that guards a close. */
    method EmitJump(op: JmpOp, d: Reg, imm: int, off: nat)
      requires Valid() && phase != Finished && phase != Opening && op != Jsle && (Live() ==> flow.know == Any)
      modifies `insns, `error, `flow, `cmds
      ensures Valid() && (old(error) != 0 ==> error == old(error))
      ensures error == 0 ==> old(error) == 0 && insns == old(insns) + [Jmp(op, d, imm, off)]
      ensures Live() ==> flow == Flow(old(flow).pend - {|old(insns)|} + {|old(insns)| + 1 + off}, Any, old(flow).due) && cmds == old(cmds)
    {
      hide Valid;
      Emit(Jmp(op, d, imm, off));
    }

    /** `emit_bpf_find_by_name_kind`, and the lookup of an attach target: BTF id and descriptor to R7. */
    method FindByName(len: int, kind: int)
      requires Rest() && phase != Opening && (Live() ==> !flow.due) && 0 <= len < 0x1_0000_0000
      modifies `insns, `error, `flow, `cmds, `data_len
      ensures Rest() && (old(error) != 0 ==> error == old(error)) && Quiet(old(error), old(flow), old(cmds))
      ensures error == 0 ==> old(error) == 0
      ensures error == 0 ==> insns == RegLog(FindCode(old(insns), old(data_len), len, kind), old(data_len) + RoundUp8(len), 7)
      ensures data_len >= old(data_len)
    {
      hide Valid, Accepts, OpeningSlot, CleanupSlot, Learn, FindCode;
      var name_off := AddData(len);
      CallFind(name_off, len, kind);
      DebugReg(7);
    }

    method CallFind(name_off: int, len: int, kind: int)
      requires Rest() && phase != Opening && (Live() ==> !flow.due)
      modifies `insns, `error, `flow, `cmds
      ensures Rest() && (old(error) != 0 ==> error == old(error)) && Quiet(old(error), old(flow), old(cmds))
      ensures error == 0 ==> old(error) == 0 && insns == FindCode(old(insns), name_off, len, kind)
    {
      hide Valid, Accepts, OpeningSlot, CleanupSlot, Learn;
      EmitLoad(1, name_off);
      EmitPlain(MovImm(2, len));
      EmitPlain(MovImm(3, kind));
      EmitPlain(MovImm(4, 0));
      EmitPlain(Call(FindByNameKind));
      EmitR7(MovReg(7, 0));
    }

    /** `emit_bpf_kallsyms_lookup_name`: the result to R7, the address to R9. */
    method KallsymsLookupName(len: int)
      requires Rest() && phase != Opening && (Live() ==> !flow.due) && 0 <= len < 0x1_0000_0000
      modifies `insns, `error, `flow, `cmds, `data_len
      ensures Rest() && (old(error) != 0 ==> error == old(error)) && Quiet(old(error), old(flow), old(cmds))
      ensures error == 0 ==> old(error) == 0
      ensures error == 0 ==> insns == RegLog(KallsymsCode(old(insns), len, old(data_len)), old(data_len) + RoundUp8(len) + 8, 7)
      ensures error == 0 ==> data_len >= old(data_len) + RoundUp8(len) + 8
      ensures data_len >= old(data_len)
    {
      hide Valid, Accepts, OpeningSlot, CleanupSlot, Learn, KallsymsCode;
      var name_off := AddData(len);
      var res_off := AddData(8);
      CallKallsyms(len, name_off, res_off);
      DebugReg(7);
    }

    method CallKallsyms(len: int, name_off: int, res_off: int)
      requires Rest() && phase != Opening && (Live() ==> !flow.due) && (error == 0 ==> res_off == name_off + RoundUp8(len))
      modifies `insns, `error, `flow, `cmds
      ensures Rest() && (old(error) != 0 ==> error == old(error)) && Quiet(old(error), old(flow), old(cmds))
      ensures error == 0 ==> old(error) == 0 && insns == KallsymsCode(old(insns), len, name_off)
    {
      hide Valid, Accepts, OpeningSlot, CleanupSlot, Learn, KallsymsArgsCode;
      KallsymsArgs(len, name_off, res_off);
      EmitR7(MovReg(7, 4));
      EmitPlain(Call(KallsymsLookup));
      EmitPlain(LdxMem(8, 9, 7, 0));
      EmitR7(MovReg(7, 0));
    }

    method KallsymsArgs(len: int, name_off: int, res_off: int)
      requires Rest() && phase != Opening
      modifies `insns, `error, `flow, `cmds
      ensures Rest() && (old(error) != 0 ==> error == old(error)) && Quiet(old(error), old(flow), old(cmds))
      ensures error == 0 ==> old(error) == 0 && insns == KallsymsArgsCode(old(insns), len, name_off, res_off)
    {
      hide Valid, Accepts, OpeningSlot, CleanupSlot, Learn;
      EmitLoad(1, name_off);
      EmitPlain(MovImm(2, len));
      EmitPlain(MovImm(3, 0));
      EmitLoad(4, res_off);
    }

    /** The end of `emit_relo_kfunc_btf` without the log: the three ways a lookup can come out. */
    method StoreKfunc(slot_off: int, idx: int)
      requires Rest() && phase != Opening
      modifies `insns, `error, `flow, `cmds
      ensures Rest() && (old(error) != 0 ==> error == old(error)) && Quiet(old(error), old(flow), old(cmds))
      ensures error == 0 ==> old(error) == 0 && insns == StoreKfuncCode(old(insns), slot_off, idx)
    {
      hide Valid, Accepts, OpeningSlot, CleanupSlot, Learn, ClearCode, ModuleFdCode;
      ClearOnError(2, 10);
      EmitPlain(StxMem(4, 8, 7, 4));
      EmitPlain(MovReg(9, 7));
      EmitPlain(Alu(Rsh, 9, 32));
      StoreModuleFd(slot_off, idx);
    }

    /** A negative R7 leads to zeroes in the instruction, and over the `skip` slots of the success case. */
    method ClearOnError(size2: nat, skip: nat)
      requires Rest() && phase != Opening && skip >= 1
      modifies `insns, `error, `flow, `cmds
      ensures Valid() && (old(error) != 0 ==> error == old(error)) && Quiet(old(error), old(flow), old(cmds))
      ensures error == 0 ==> old(error) == 0 && insns == ClearCode(old(insns), size2, skip)
      ensures Live() ==> flow.know == Any && flow.pend == {|insns|, |insns| + skip}
      ensures error == 0 ==> |insns| == |old(insns)| + 4
    {
      hide Valid, Accepts, OpeningSlot, CleanupSlot, Learn;
      EmitJump(Jsge, 7, 0, 3);
      EmitPlain(St(4, 8, 4, 0));
      EmitPlain(St(size2, 8, if size2 == 2 then 2 else 12, 0));
      EmitJump(Ja, 0, 0, skip);
    }

    /** The descriptor of a module BTF goes to its slot; the kernel's own has none. */
    method StoreModuleFd(slot_off: int, idx: int)
      requires Valid() && phase != Opening && phase != Finished
      requires Live() ==> flow.know == Any && flow.pend == {|insns| + 7}
      modifies `insns, `error, `flow, `cmds
      ensures Valid() && (old(error) != 0 ==> error == old(error)) && Quiet(old(error), old(flow), old(cmds))
      ensures error == 0 ==> old(error) == 0 && insns == ModuleFdCode(old(insns), slot_off, idx)
      ensures Live() ==> flow.know == Any && flow.pend == {|insns|}
      ensures error == 0 ==> |insns| == |old(insns)| + 7
    {
      hide Valid, Accepts, OpeningSlot, CleanupSlot, Learn;
      SkipFdStore();
      EmitLoad(0, slot_off);
      EmitPlain(StxMem(4, 0, 9, 0));
      EmitPlain(St(2, 8, 2, idx));
    }

    /** A BTF without a descriptor: the slots that store one are jumped over. */
    method SkipFdStore()
      requires Valid() && phase != Opening && phase != Finished
      requires Live() ==> flow.know == Any && flow.pend == {|insns| + 7}
      modifies `insns, `error, `flow, `cmds
      ensures Valid() && (old(error) != 0 ==> error == old(error)) && Quiet(old(error), old(flow), old(cmds))
      ensures error == 0 ==> old(error) == 0 && insns == old(insns) + [Jmp(Jne, 9, 0, 2)] + [St(2, 8, 2, 0)] + [Jmp(Ja, 0, 0, 4)]
      ensures Live() ==> flow.know == Any && flow.pend == {|insns|, |insns| + 4}
    {
      hide Valid, Accepts, OpeningSlot, CleanupSlot, Learn;
      EmitJump(Jne, 9, 0, 2);
      EmitPlain(St(2, 8, 2, 0));
      EmitJump(Ja, 0, 0, 4);
    }

    /** The end of `emit_relo_ksym_typeless` without the log: a symbol that is not there is not an error. */
    method StoreKsymAddr()
      requires Rest() && phase != Opening && (Live() ==> !flow.due)
      modifies `insns, `error, `flow, `cmds
      ensures Rest() && (old(error) != 0 ==> error != 0) && Quiet(old(error), old(flow), old(cmds))
      ensures error == 0 ==> old(error) == 0
      ensures error == 0 ==> insns == KsymAddrCode(old(insns), cleanup_label)
    {
      hide Valid, Accepts, OpeningSlot, CleanupSlot, Learn;
      EmitJump(Jeq, 7, -2, 1);
      CheckErr();
      EmitPlain(StxMem(4, 8, 9, 4));
      EmitPlain(Alu(Rsh, 9, 32));
      EmitPlain(StxMem(4, 8, 9, 12));
    }

    /** `clear_src_reg` of `emit_relo_ksym_btf`. */
    method ClearSrcReg()
      requires Valid() && phase != Finished && phase != Opening && (Live() ==> flow.know == Any)
      modifies `insns, `error, `flow, `cmds
      ensures Valid() && (old(error) != 0 ==> error == old(error)) && Quiet(old(error), old(flow), old(cmds))
      ensures error == 0 ==> old(error) == 0
      ensures error == 0 ==> insns == ClearSrcCode(old(insns))
      ensures Live() ==> flow.know == Any
      ensures Live() ==> flow.pend == old(flow).pend - {|old(insns)|, |old(insns)| + 1, |old(insns)| + 2}
      ensures error == 0 ==> |insns| == |old(insns)| + 3
    {
      hide Valid, Accepts, OpeningSlot, CleanupSlot, Learn;
      EmitPlain(LdxMem(1, 9, 8, 1));
      EmitPlain(Alu(And32, 9, 0x0f));
      EmitPlain(StxMem(1, 8, 9, 1));
    }

    /** `emit_relo_ksym_btf` after the lookup, without the log. */
    method StoreKsymBtf()
      requires Rest() && phase != Opening && (Live() ==> !flow.due)
      modifies `insns, `error, `flow, `cmds
      ensures Rest() && (old(error) != 0 ==> error == old(error)) && Quiet(old(error), old(flow), old(cmds))
      ensures error == 0 ==> old(error) == 0 && insns == StoreKsymCode(old(insns))
    {
      hide Valid, Accepts, OpeningSlot, CleanupSlot, Learn, ClearCode, ClearSrcCode;
      ClearOnError(4, 4);
      StoreBtfId();
      ClearSrcReg();
    }

    /** The halves of R7 go to the instruction, and the source register is left alone. */
    method StoreBtfId()
      requires Valid() && phase != Opening && phase != Finished
      requires Live() ==> flow.know == Any && !flow.due && flow.pend == {|insns|, |insns| + 4}
      modifies `insns, `error, `flow, `cmds
      ensures Valid() && (old(error) != 0 ==> error == old(error)) && Quiet(old(error), old(flow), old(cmds))
      ensures error == 0 ==>
                old(error) == 0 && insns == old(insns) + [Stx(4, 8, 7, 4)] + [Alu(Rsh, 7, 32)] + [Stx(4, 8, 7, 12)] + [Jmp(Jsge, 7, 0, 3)]
      ensures Live() ==> flow.know == Any && flow.pend == {|insns|, |insns| + 3}
    {
      hide Valid, Accepts, OpeningSlot, CleanupSlot, Learn;
      EmitPlain(StxMem(4, 8, 7, 4));
      EmitR7(Alu(Rsh, 7, 32));
      EmitPlain(StxMem(4, 8, 7, 12));
      EmitJump(Jsge, 7, 0, 3);
    }

    /** A ksym seen before: its slots are copied, and the source register is cleared unless the copy is non-zero. */
    method CopyKsymBtf(insn: int, from: int)
      requires Rest() && phase != Opening
      modifies `insns, `error, `flow, `cmds
      ensures Rest() && (old(error) != 0 ==> error == old(error)) && Quiet(old(error), old(flow), old(cmds))
      ensures error == 0 ==> old(error) == 0
      ensures error == 0 ==> insns == CopyKsymCode(old(insns), insn, from)
    {
      hide Valid, Accepts, OpeningSlot, CleanupSlot, Learn;
      MoveBlob2Blob(insn + 4, 4, from + 4);
      MoveBlob2Blob(insn + 12, 4, from + 12);
      EmitJump(Jne, 0, 0, 3);
      ClearSrcReg();
    }

    /** The log of a kfunc relocation. */
    method LogKfunc(slot_off: int) returns (ghost d2: int)
      requires Rest() && phase != Opening && (Live() ==> !flow.due)
      modifies `insns, `error, `flow, `cmds, `data_len
      ensures Rest() && (old(error) != 0 ==> error == old(error)) && Quiet(old(error), old(flow), old(cmds))
      ensures error == 0 ==> old(error) == 0
      ensures data_len >= old(data_len)
      ensures error == 0 ==> insns == KfuncLog(old(insns), old(data_len), d2, slot_off)
    {
      hide Valid, Accepts, OpeningSlot, CleanupSlot, Learn, DebugRegCode, DebugCode;
      d2 := data_len;
      if !log { return; }
      EmitR7(LdxMem(4, 7, 8, 4));
      EmitPlain(LdxMem(2, 9, 8, 2));
      DebugRegs(7, 9);
      d2 := data_len;
      EmitLoad(0, slot_off);
      EmitPlain(LdxMem(4, 9, 0, 0));
      DebugReg(9);
    }

    /** `emit_ksym_relo_log`. */
    method LogKsym() returns (ghost d2: int)
      requires Rest() && phase != Opening && (Live() ==> !flow.due)
      modifies `insns, `error, `flow, `cmds, `data_len
      ensures Rest() && (old(error) != 0 ==> error == old(error)) && Quiet(old(error), old(flow), old(cmds))
      ensures error == 0 ==> old(error) == 0
      ensures data_len >= old(data_len)
      ensures error == 0 ==> insns == KsymLog(old(insns), old(data_len), d2)
    {
      hide Valid, Accepts, OpeningSlot, CleanupSlot, Learn, DebugRegCode, DebugCode;
      d2 := data_len;
      if !log { return; }
      EmitR7(LdxMem(4, 7, 8, 4));
      EmitPlain(LdxMem(2, 9, 8, 12));
      DebugRegs(7, 9);
      d2 := data_len;
      EmitPlain(LdxMem(1, 9, 8, 1));
      DebugReg(9);
    }

    /** The end of the program: success is returned. */
    method EndBody()
      requires Rest() && (phase == Body || phase == Broken) && (Live() ==> !flow.due)
      modifies `insns, `error, `flow, `cmds, `phase
      ensures Valid() && (old(error) != 0 ==> error == old(error))
      ensures phase == if error == 0 && old(phase) == Body then Finished else Broken
      ensures Live() ==> Loader(insns, home, mid) && cmds == Cmds(insns) == old(cmds)
      ensures error == 0 ==> old(error) == 0 && insns == old(insns) + [MovImm(0, 0)] + [Exit]
      ensures old(Fits(2)) ==> error == 0
    {
      hide FlowAt, CmdsAt, OpeningSlot, Begun, Opened, Typed, Loader;
      Emit(MovImm(0, 0));
      ghost var p, ph := insns, phase;
      phase := Broken;
      Emit(Exit);
      if error == 0 && ph == Body {
        Append(p, Exit, home);
        EndAppend(p, home, mid);
        phase := Finished;
      }
    }
  }
}
