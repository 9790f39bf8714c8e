/** What the pieces of emitted code do when they run. */
module GenRuns {
  import opened Common
  import opened BpfMachine
  import opened BpfFlow
  import opened BpfRuns
  import opened GenEmit
  import opened GenMeaning

  lemma {:induction false} DoRelStore(n: Code, o: Oracle, m0: Machine, m: Machine, p: Code, off: int, data: int) returns (m2: Machine)
    requires Gets(n, o, m0, m) && m.pc == |p| && RelStoreCode(p, off, data) <= n
    ensures Gets(n, o, m0, m2) && m2.pc == |RelStoreCode(p, off, data)| && Kept(m, m2)
    ensures m2.mem == StoreMem(m.mem, o.blob + off, 8, o.blob + data)
  {
    hide Run, StoreMem;
    m2 := DoLoad(n, o, m0, m, 0, data);
    m2 := DoLoad(n, o, m0, m2, 1, off);
    m2 := DoStx(n, o, m0, m2, 8, 1, 0, 0);
  }

  lemma {:induction false} DoBlob2Blob(n: Code, o: Oracle, m0: Machine, m: Machine, p: Code, off: int, size: nat, from: int) returns (m2: Machine)
    requires Gets(n, o, m0, m) && m.pc == |p| && Blob2BlobCode(p, off, size, from) <= n
    ensures Gets(n, o, m0, m2) && m2.pc == |Blob2BlobCode(p, off, size, from)| && Kept(m, m2)
    ensures m2.r[0] == S64(LoadMem(m.mem, o.blob + from, size))
    ensures m2.mem == StoreMem(m.mem, o.blob + off, size, S64(LoadMem(m.mem, o.blob + from, size)))
  {
    hide Run, StoreMem, LoadMem, S64;
    m2 := DoLoad(n, o, m0, m, 2, from);
    m2 := DoLdx(n, o, m0, m2, size, 0, 2, 0);
    m2 := DoLoad(n, o, m0, m2, 1, off);
    m2 := DoStx(n, o, m0, m2, size, 1, 0, 0);
  }

  lemma {:induction false} DoBlob2Ctx(n: Code, o: Oracle, m0: Machine, m: Machine, p: Code, ctx_off: int, size: nat, from: int) returns (m2: Machine)
    requires Gets(n, o, m0, m) && m.pc == |p| && Blob2CtxCode(p, ctx_off, size, from) <= n && S16(ctx_off) == ctx_off
    ensures Gets(n, o, m0, m2) && m2.pc == |Blob2CtxCode(p, ctx_off, size, from)| && Kept(m, m2)
    ensures m2.mem == StoreMem(m.mem, m.r[6] + ctx_off, size, S64(LoadMem(m.mem, o.blob + from, size)))
  {
    hide Run, StoreMem, LoadMem, S64, S16;
    m2 := DoLoad(n, o, m0, m, 1, from);
    m2 := DoLdx(n, o, m0, m2, size, 0, 1, 0);
    m2 := DoStx(n, o, m0, m2, size, 6, 0, ctx_off);
  }

  /** A value of the context, unless it is zero and that is checked, goes to the blob. */
  lemma {:induction false} DoCtx2Blob(n: Code, o: Oracle, m0: Machine, m: Machine, p: Code, off: int, size: nat, ctx_off: int, check: bool)
    returns (m2: Machine)
    requires Gets(n, o, m0, m) && m.pc == |p| && Ctx2BlobCode(p, off, size, ctx_off, check) <= n && S16(ctx_off) == ctx_off
    ensures Gets(n, o, m0, m2) && m2.pc == |Ctx2BlobCode(p, off, size, ctx_off, check)| && Kept(m, m2)
    ensures var v := S64(LoadMem(m.mem, m.r[6] + ctx_off, size));
            m2.mem == if check && v == 0 then m.mem else StoreMem(m.mem, o.blob + off, size, v)
  {
    hide Run, StoreMem, LoadMem, S64, S16;
    m2 := DoLdx(n, o, m0, m, size, 0, 6, ctx_off);
    if check {
      var c := m2;
      m2 := DoJmp(n, o, m0, m2, Jeq, 0, 0, 3);
      if c.r[0] == 0 { return; }
    }
    m2 := DoLoad(n, o, m0, m2, 1, off);
    m2 := DoStx(n, o, m0, m2, size, 1, 0, 0);
  }

  lemma {:induction false} DoStack2Blob(n: Code, o: Oracle, m0: Machine, m: Machine, p: Code, off: int, size: nat, stack_off: int)
    returns (m2: Machine)
    requires Gets(n, o, m0, m) && m.pc == |p| && Stack2BlobCode(p, off, size, stack_off) <= n && S16(stack_off) == stack_off
    ensures Gets(n, o, m0, m2) && m2.pc == |Stack2BlobCode(p, off, size, stack_off)| && Kept(m, m2)
    ensures m2.mem == StoreMem(m.mem, o.blob + off, size, S64(LoadMem(m.mem, m.r[10] + stack_off, size)))
  {
    hide Run, StoreMem, LoadMem, S64, S16;
    m2 := DoLdx(n, o, m0, m, size, 0, 10, stack_off);
    m2 := DoLoad(n, o, m0, m2, 1, off);
    m2 := DoStx(n, o, m0, m2, size, 1, 0, 0);
  }

  lemma {:induction false} DoStack2Ctx(n: Code, o: Oracle, m0: Machine, m: Machine, p: Code, ctx_off: int, size: nat, stack_off: int)
    returns (m2: Machine)
    requires Gets(n, o, m0, m) && m.pc == |p| && Stack2CtxCode(p, ctx_off, size, stack_off) <= n
    requires S16(stack_off) == stack_off && S16(ctx_off) == ctx_off
    ensures Gets(n, o, m0, m2) && m2.pc == |Stack2CtxCode(p, ctx_off, size, stack_off)| && Kept(m, m2)
    ensures m2.mem == StoreMem(m.mem, m.r[6] + ctx_off, size, S64(LoadMem(m.mem, m.r[10] + stack_off, size)))
  {
    hide Run, StoreMem, LoadMem, S64, S16;
    m2 := DoLdx(n, o, m0, m, size, 0, 10, stack_off);
    m2 := DoStx(n, o, m0, m2, size, 6, 0, ctx_off);
  }

  /** The command is issued with the memory there is, its result goes to R7, and its attributes may be overwritten. */
  lemma {:induction false} DoSysBpf(n: Code, o: Oracle, m0: Machine, m: Machine, p: Code, cmd: int, attr: int, size: int) returns (m2: Machine)
    requires Gets(n, o, m0, m) && m.pc == |p| && SysBpfCode(p, cmd, attr, size) <= n
    ensures Gets(n, o, m0, m2) && m2.pc == |SysBpfCode(p, cmd, attr, size)| && |m2.r| == |m.r| == 11
    ensures m2.r[6] == m.r[6] && m2.r[8] == m.r[8] && m2.r[10] == m.r[10]
    ensures m2.trace == m.trace + [Bpf(cmd, o.blob + attr, size, m2.r[7], m.mem)]
    ensures forall x :: m2.mem(x) == m.mem(x) || o.blob + attr <= x < o.blob + attr + size
  {
    hide Run;
    m2 := DoMovImm(n, o, m0, m, 1, cmd);
    m2 := DoLoad(n, o, m0, m2, 2, attr);
    m2 := DoMovImm(n, o, m0, m2, 3, size);
    m2 := DoCall(n, o, m0, m2, SysBpf);
    m2 := DoMovReg(n, o, m0, m2, 7, 0);
  }

  /** A lookup leaves its result in R7, and nothing else. */
  lemma {:induction false} DoFind(n: Code, o: Oracle, m0: Machine, m: Machine, p: Code, name: int, len: int, kind: int) returns (m2: Machine)
    requires Gets(n, o, m0, m) && m.pc == |p| && FindCode(p, name, len, kind) <= n
    ensures Gets(n, o, m0, m2) && m2.pc == |FindCode(p, name, len, kind)| && |m2.r| == |m.r| == 11
    ensures m2.r[6] == m.r[6] && m2.r[8] == m.r[8] && m2.r[10] == m.r[10] && m2.mem == m.mem
    ensures m2.trace == m.trace + [Found(o.blob + name, len, kind, m2.r[7])]
  {
    hide Run;
    m2 := DoLoad(n, o, m0, m, 1, name);
    m2 := DoMovImm(n, o, m0, m2, 2, len);
    m2 := DoMovImm(n, o, m0, m2, 3, kind);
    m2 := DoMovImm(n, o, m0, m2, 4, 0);
    m2 := DoCall(n, o, m0, m2, FindByNameKind);
    m2 := DoMovReg(n, o, m0, m2, 7, 0);
  }

  /** A negative R7 clears two fields of the instruction at R8 and skips the slots of the success case. */
  lemma {:induction false} DoClear(n: Code, o: Oracle, m0: Machine, m: Machine, p: Code, size2: nat, skip: nat) returns (m2: Machine)
    requires Gets(n, o, m0, m) && m.pc == |p| && ClearCode(p, size2, skip) <= n
    ensures Gets(n, o, m0, m2) && Kept(m, m2)
    ensures m2.pc == |p| + 4 + if m.r[7] >= 0 then 0 else skip
    ensures m2.mem == if m.r[7] >= 0 then m.mem
                      else StoreMem(StoreMem(m.mem, m.r[8] + 4, 4, 0), m.r[8] + (if size2 == 2 then 2 else 12), size2, 0)
  {
    hide Run, StoreMem;
    m2 := DoJmp(n, o, m0, m, Jsge, 7, 0, 3);
    if m.r[7] < 0 {
      m2 := DoSt(n, o, m0, m2, 4, 8, 4, 0);
      m2 := DoSt(n, o, m0, m2, size2, 8, if size2 == 2 then 2 else 12, 0);
      m2 := DoJmp(n, o, m0, m2, Ja, 0, 0, skip);
    }
  }

  lemma {:induction false} HighIs(v: int)
    ensures Computed(Rsh, v, 32) == High(v)
  {
    Pow2Half();
  }

  /** A descriptor in R9 goes to its slot and the slot's index to the instruction; for none, both are as for the kernel's own BTF. */
  lemma {:induction false} DoModuleFd(n: Code, o: Oracle, m0: Machine, m: Machine, p: Code, slot: int, idx: int) returns (m2: Machine)
    requires Gets(n, o, m0, m) && m.pc == |p| && ModuleFdCode(p, slot, idx) <= n
    ensures Gets(n, o, m0, m2) && m2.pc == |ModuleFdCode(p, slot, idx)| && Kept(m, m2)
    ensures m2.mem == if m.r[9] == 0 then StoreMem(m.mem, m.r[8] + 2, 2, 0)
                      else StoreMem(StoreMem(m.mem, o.blob + slot, 4, m.r[9]), m.r[8] + 2, 2, idx)
  {
    hide Run, StoreMem;
    m2 := DoJmp(n, o, m0, m, Jne, 9, 0, 2);
    if m.r[9] == 0 {
      m2 := DoSt(n, o, m0, m2, 2, 8, 2, 0);
      m2 := DoJmp(n, o, m0, m2, Ja, 0, 0, 4);
    } else {
      m2 := DoLoad(n, o, m0, m2, 0, slot);
      m2 := DoStx(n, o, m0, m2, 4, 0, 9, 0);
      m2 := DoSt(n, o, m0, m2, 2, 8, 2, idx);
    }
  }

  /** What a kfunc lookup that returned `ret` leaves in memory: a failed one, zeroes in the instruction at `a`; a found one,
      the BTF id in its `imm`, and for a module the descriptor in the slot and the slot's index in its `off`. */
  function KfuncStored(mem: Mem, a: int, slot: int, idx: int, ret: int): Mem {
    if ret < 0 then StoreMem(StoreMem(mem, a + 4, 4, 0), a + 2, 2, 0)
    else if High(ret) == 0 then StoreMem(StoreMem(mem, a + 4, 4, ret), a + 2, 2, 0)
    else StoreMem(StoreMem(StoreMem(mem, a + 4, 4, ret), slot, 4, High(ret)), a + 2, 2, idx)
  }

  lemma {:induction false} KfuncLengths(p: Code, slot: int, idx: int)
    ensures |ClearCode(p, 2, 10)| == |p| + 4 && |ModuleFdCode(p, slot, idx)| == |p| + 7
  {
  }

  /** A BTF id goes to the instruction, and the upper half to R9. */
  lemma {:induction false} DoSplit(n: Code, o: Oracle, m0: Machine, m: Machine, p: Code) returns (m2: Machine)
    requires Gets(n, o, m0, m) && m.pc == |p| && p + [Stx(4, 8, 7, 4)] + [MovReg(9, 7)] + [Alu(Rsh, 9, 32)] <= n
    ensures Gets(n, o, m0, m2) && m2.pc == |p| + 3 && m2.trace == m.trace && m2.r[9] == High(m.r[7])
    ensures m2.r[6] == m.r[6] && m2.r[8] == m.r[8] && m2.r[10] == m.r[10] && m2.mem == StoreMem(m.mem, m.r[8] + 4, 4, m.r[7])
  {
    hide Run, StoreMem, High, Computed;
    m2 := DoStx(n, o, m0, m, 4, 8, 7, 4);
    m2 := DoMovReg(n, o, m0, m2, 9, 7);
    m2 := DoAlu(n, o, m0, m2, Rsh, 9, 32);
    HighIs(m.r[7]);
  }

  lemma {:induction false} DoStoreKfunc(n: Code, o: Oracle, m0: Machine, m: Machine, p: Code, slot: int, idx: int) returns (m2: Machine)
    requires Gets(n, o, m0, m) && m.pc == |p| && StoreKfuncCode(p, slot, idx) <= n
    ensures Gets(n, o, m0, m2) && m2.pc == |StoreKfuncCode(p, slot, idx)| && |m2.r| == |m.r| == 11
    ensures m2.r[6] == m.r[6] && m2.r[8] == m.r[8] && m2.r[10] == m.r[10] && m2.trace == m.trace
    ensures m2.mem == KfuncStored(m.mem, m.r[8], o.blob + slot, idx, m.r[7])
  {
    hide Run, StoreMem, High, ClearCode, ModuleFdCode;
    var c := ClearCode(p, 2, 10);
    var q := c + [Stx(4, 8, 7, 4)] + [MovReg(9, 7)] + [Alu(Rsh, 9, 32)];
    KfuncLengths(p, slot, idx);
    KfuncLengths(q, slot, idx);
    assert c <= q <= ModuleFdCode(q, slot, idx) <= n;
    m2 := DoClear(n, o, m0, m, p, 2, 10);
    if m.r[7] >= 0 {
      m2 := DoSplit(n, o, m0, m2, c);
      m2 := DoModuleFd(n, o, m0, m2, q, slot, idx);
    }
  }

  /** The upper half of a byte is cleared. */
  function NibbleCleared(mem: Mem, a: int): Mem {
    StoreMem(mem, a, 1, mem(a) % 16)
  }

  lemma {:induction false} DoClearSrc(n: Code, o: Oracle, m0: Machine, m: Machine, p: Code) returns (m2: Machine)
    requires Gets(n, o, m0, m) && m.pc == |p| && ClearSrcCode(p) <= n
    ensures Gets(n, o, m0, m2) && m2.pc == |ClearSrcCode(p)| && |m2.r| == |m.r| == 11
    ensures m2.r[6] == m.r[6] && m2.r[8] == m.r[8] && m2.r[10] == m.r[10] && m2.trace == m.trace
    ensures m2.mem == NibbleCleared(m.mem, m.r[8] + 1)
  {
    hide Run, StoreMem, LoadMem, S64, Computed;
    m2 := DoLdx(n, o, m0, m, 1, 9, 8, 1);
    OneByte(m.mem, m.r[8] + 1);
    m2 := DoAlu(n, o, m0, m2, And32, 9, 0x0f);
    LowNibble(m.mem(m.r[8] + 1));
    m2 := DoStx(n, o, m0, m2, 1, 8, 9, 1);
  }

  lemma {:induction false} Small(b: int)
    requires 0 <= b < 0x1_0000_0000
    ensures b % 0x1_0000_0000 == b
  {
  }

  lemma {:induction false} LowNibble(v: int)
    ensures Computed(And32, v % 256, 0x0f) == v % 16
  {
    hide And;
    var b := v % 256;
    Small(b);
    And15(b);
    QuotientIs(v, 16, 16 * (v / 256) + b / 16, b % 16);
  }

  lemma {:induction false} OneByte(mem: Mem, a: int)
    ensures S64(LoadMem(mem, a, 1)) == mem(a) % 256
  {
    assert LoadMem(mem, a + 1, 0) == 0;
  }

  /** What a typed ksym lookup leaves in the two slots of the load at `a`. */
  function KsymStored(mem: Mem, a: int, ret: int): Mem {
    if ret < 0 then NibbleCleared(StoreMem(StoreMem(mem, a + 4, 4, 0), a + 12, 4, 0), a + 1)
    else StoreMem(StoreMem(mem, a + 4, 4, ret), a + 12, 4, High(ret))
  }

  lemma {:induction false} DoStoreKsym(n: Code, o: Oracle, m0: Machine, m: Machine, p: Code) returns (m2: Machine)
    requires Gets(n, o, m0, m) && m.pc == |p| && StoreKsymCode(p) <= n
    ensures Gets(n, o, m0, m2) && m2.pc == |StoreKsymCode(p)| && |m2.r| == |m.r| == 11
    ensures m2.r[6] == m.r[6] && m2.r[8] == m.r[8] && m2.r[10] == m.r[10] && m2.trace == m.trace
    ensures m2.mem == KsymStored(m.mem, m.r[8], m.r[7])
  {
    hide Run, StoreMem, High, U64, NibbleCleared;
    var c := ClearCode(p, 4, 4);
    var q := c + [Stx(4, 8, 7, 4)] + [Alu(Rsh, 7, 32)] + [Stx(4, 8, 7, 12)] + [Jmp(Jsge, 7, 0, 3)];
    assert |c| == |p| + 4 && |ClearSrcCode(q)| == |p| + 11 && c <= q <= ClearSrcCode(q) <= n;
    m2 := DoClear(n, o, m0, m, p, 4, 4);
    if m.r[7] >= 0 {
      m2 := DoStx(n, o, m0, m2, 4, 8, 7, 4);
      m2 := DoAlu(n, o, m0, m2, Rsh, 7, 32);
      HighIs(m.r[7]);
      m2 := DoStx(n, o, m0, m2, 4, 8, 7, 12);
      m2 := DoJmp(n, o, m0, m2, Jsge, 7, 0, 3);
    } else {
      m2 := DoClearSrc(n, o, m0, m2, q);
    }
  }

  /** A symbol found at `addr`: its address, in halves, goes to the load at `a`. */
  function AddrStored(mem: Mem, a: int, addr: int): Mem {
    StoreMem(StoreMem(mem, a + 4, 4, addr), a + 12, 4, High(addr))
  }

  /** The address goes to the load; a lookup that failed leads to the cleanup code, unless there is no such symbol. */
  lemma {:induction false} DoKsymAddr(n: Code, o: Oracle, m0: Machine, m: Machine, p: Code, home: nat) returns (m2: Machine)
    requires Gets(n, o, m0, m) && m.pc == |p| && KsymAddrCode(p, home) <= n
    ensures Gets(n, o, m0, m2) && m2.r[6] == m.r[6] && m2.r[8] == m.r[8] && m2.r[10] == m.r[10] && m2.trace == m.trace
    ensures if m.r[7] < 0 && m.r[7] != -2 then m2.pc == home && m2.mem == m.mem
            else m2.pc == |KsymAddrCode(p, home)| && m2.mem == AddrStored(m.mem, m.r[8], m.r[9])
  {
    hide Run, StoreMem, High, U64;
    m2 := DoJmp(n, o, m0, m, Jeq, 7, -2, 1);
    if m.r[7] != -2 {
      m2 := DoJmp(n, o, m0, m2, Jslt, 7, 0, home - |p| - 2);
      if m.r[7] < 0 { return; }
    }
    m2 := DoStx(n, o, m0, m2, 4, 8, 9, 4);
    m2 := DoAlu(n, o, m0, m2, Rsh, 9, 32);
    HighIs(m.r[9]);
    m2 := DoStx(n, o, m0, m2, 4, 8, 9, 12);
  }

  /** The symbol's address is written at `res` in the blob, and read into R9; the result of the lookup goes to R7. */
  lemma {:induction false} DoKallsyms(n: Code, o: Oracle, m0: Machine, m: Machine, p: Code, len: int, data: int) returns (m2: Machine)
    requires Gets(n, o, m0, m) && m.pc == |p| && KallsymsCode(p, len, data) <= n
    ensures Gets(n, o, m0, m2) && m2.pc == |KallsymsCode(p, len, data)| && |m2.r| == |m.r| == 11
    ensures m2.r[6] == m.r[6] && m2.r[8] == m.r[8] && m2.r[10] == m.r[10]
    ensures m2.trace == m.trace + [Looked(o.blob + data, len, o.blob + data + RoundUp8(len), m2.r[7])]
    ensures m2.r[9] == S64(LoadMem(m2.mem, o.blob + data + RoundUp8(len), 8))
    ensures forall x :: m2.mem(x) == m.mem(x) || o.blob + data + RoundUp8(len) <= x < o.blob + data + RoundUp8(len) + 8
  {
    hide Run, LoadMem, S64, RoundUp8;
    var res := data + RoundUp8(len);
    var q := KallsymsArgsCode(p, len, data, res);
    assert q <= KallsymsCode(p, len, data) <= n && |q| == |p| + 6 && |KallsymsCode(p, len, data)| == |p| + 10;
    m2 := DoKallsymsArgs(n, o, m0, m, p, len, data, res);
    m2 := DoMovReg(n, o, m0, m2, 7, 4);
    m2 := DoCall(n, o, m0, m2, KallsymsLookup);
    m2 := DoLdx(n, o, m0, m2, 8, 9, 7, 0);
    m2 := DoMovReg(n, o, m0, m2, 7, 0);
  }

  lemma {:induction false} DoKallsymsArgs(n: Code, o: Oracle, m0: Machine, m: Machine, p: Code, len: int, data: int, res: int) returns (m2: Machine)
    requires Gets(n, o, m0, m) && m.pc == |p| && KallsymsArgsCode(p, len, data, res) <= n
    ensures Gets(n, o, m0, m2) && m2.pc == |KallsymsArgsCode(p, len, data, res)| && Kept(m, m2) && m2.mem == m.mem
    ensures m2.r[1] == o.blob + data && m2.r[2] == len && m2.r[4] == o.blob + res
  {
    hide Run;
    m2 := DoLoad(n, o, m0, m, 1, data);
    m2 := DoMovImm(n, o, m0, m2, 2, len);
    m2 := DoMovImm(n, o, m0, m2, 3, 0);
    m2 := DoLoad(n, o, m0, m2, 4, res);
  }

  /** Two fields of the instruction at `from` are copied to the one at `insn`. */
  function ImmsCopied(mem: Mem, a: int, from: int, off2: int, size2: nat): Mem {
    var mem1 := StoreMem(mem, a + 4, 4, S64(LoadMem(mem, from + 4, 4)));
    StoreMem(mem1, a + off2, size2, S64(LoadMem(mem1, from + off2, size2)))
  }

  lemma {:induction false} DoCopyImms(n: Code, o: Oracle, m0: Machine, m: Machine, p: Code, insn: int, from: int, off2: int, size2: nat)
    returns (m2: Machine)
    requires Gets(n, o, m0, m) && m.pc == |p| && CopyImmsCode(p, insn, from, off2, size2) <= n
    ensures Gets(n, o, m0, m2) && m2.pc == |CopyImmsCode(p, insn, from, off2, size2)| && Kept(m, m2)
    ensures m2.mem == ImmsCopied(m.mem, o.blob + insn, o.blob + from, off2, size2)
    ensures m2.r[0] == S64(LoadMem(StoreMem(m.mem, o.blob + insn + 4, 4, S64(LoadMem(m.mem, o.blob + from + 4, 4))), o.blob + from + off2, size2))
  {
    hide Run, LoadMem, S64, StoreMem, Blob2BlobCode;
    var q := Blob2BlobCode(p, insn + 4, 4, from + 4);
    m2 := DoBlob2Blob(n, o, m0, m, p, insn + 4, 4, from + 4);
    m2 := DoBlob2Blob(n, o, m0, m2, q, insn + off2, size2, from + off2);
  }

  /** A ksym seen before: both immediates are copied, and without the second the source register is cleared. */
  function KsymCopied(mem: Mem, a: int, from: int): Mem {
    var mem1 := StoreMem(mem, a + 4, 4, S64(LoadMem(mem, from + 4, 4)));
    var mem2 := ImmsCopied(mem, a, from, 12, 4);
    if S64(LoadMem(mem1, from + 12, 4)) != 0 then mem2 else NibbleCleared(mem2, a + 1)
  }

  lemma {:induction false} DoCopyKsym(n: Code, o: Oracle, m0: Machine, m: Machine, p: Code, insn: int, from: int) returns (m2: Machine)
    requires Gets(n, o, m0, m) && m.pc == |p| && CopyKsymCode(p, insn, from) <= n && m.r[8] == o.blob + insn
    ensures Gets(n, o, m0, m2) && m2.pc == |CopyKsymCode(p, insn, from)| && |m2.r| == |m.r| == 11
    ensures m2.r[6] == m.r[6] && m2.r[8] == m.r[8] && m2.r[10] == m.r[10] && m2.trace == m.trace
    ensures m2.mem == KsymCopied(m.mem, o.blob + insn, o.blob + from)
  {
    hide Run, LoadMem, S64, StoreMem, NibbleCleared, Blob2BlobCode, ImmsCopied;
    var q := CopyImmsCode(p, insn, from, 12, 4);
    var c := q + [Jmp(Jne, 0, 0, 3)];
    assert q <= c <= ClearSrcCode(c) <= n && |ClearSrcCode(c)| == |c| + 3;
    m2 := DoCopyImms(n, o, m0, m, p, insn, from, 12, 4);
    var z := m2;
    m2 := DoJmp(n, o, m0, m2, Jne, 0, 0, 3);
    if z.r[0] == 0 { m2 := DoClearSrc(n, o, m0, m2, c); }
  }

  /** A close is skipped or not, and logged or not. */
  lemma {:induction false} CloseIdles(e: Emitter, p: Code, d: int)
    ensures Idles(p, e.CloseCode(p, d), true, false)
  {
    hide Gets, Adds;
    forall n: Code, o: Oracle, m: Machine | e.CloseCode(p, d) <= n && |m.r| == 11 && m.pc == |p|
      ensures IdlesTo(n, o, m, e.CloseCode(p, d), true, false)
    {
      var m2 := DoClose(n, o, m, e, p, d);
      assert IdledBy(n, o, m, e.CloseCode(p, d), true, false, m2);
    }
  }

  lemma {:induction false} DoClose(n: Code, o: Oracle, m: Machine, e: Emitter, p: Code, d: int) returns (m2: Machine)
    requires |m.r| == 11 && m.pc == |p| && e.CloseCode(p, d) <= n
    ensures Gets(n, o, m, m2) && m2.pc == |e.CloseCode(p, d)| && m2.mem == m.mem && Adds(m.trace, m2.trace)
    ensures m2.r[6] == m.r[6] && m2.r[7] == m.r[7] && m2.r[8] == m.r[8] && m2.r[10] == m.r[10]
  {
    hide Run, Emitter.DebugCode;
    GetsSelf(n, o, m);
    var c := p + [Jmp(Jsle, 1, 0, if e.log then 8 else 2)] + [MovReg(9, 1)] + [Call(SysClose)];
    assert |c| == |p| + 3 && c <= e.CloseCode(p, d) <= n;
    LogLength(e, c, d);
    m2 := DoJmp(n, o, m, m, Jsle, 1, 0, if e.log then 8 else 2);
    if m.r[1] > 0 {
      m2 := DoMovReg(n, o, m, m2, 9, 1);
      m2 := DoCall(n, o, m, m2, SysClose);
      if e.log { m2 := DoDebug(n, o, m, m2, e, c, d, 9, 0); }
    }
  }

  lemma {:induction false} LogLength(e: Emitter, p: Code, d: int)
    ensures |e.DebugCode(p, d, 9, 0)| == |p| + 6
  {
  }

  lemma {:induction false} DoDebug(n: Code, o: Oracle, m0: Machine, m: Machine, e: Emitter, p: Code, d: int, reg1: Reg, reg2: Reg)
    returns (m2: Machine)
    requires Gets(n, o, m0, m) && m.pc == |p| && e.DebugCode(p, d, reg1, reg2) <= n
    ensures Gets(n, o, m0, m2) && m2.pc == |e.DebugCode(p, d, reg1, reg2)| && Kept(m, m2) && m2.mem == m.mem
  {
    hide Run, Emitter.MsgLen;
    m2 := DoLoad(n, o, m0, m, 1, d);
    m2 := DoMovImm(n, o, m0, m2, 2, e.MsgLen(|p|));
    m2 := DoMovReg(n, o, m0, m2, 3, reg1);
    m2 := DoMovReg(n, o, m0, m2, 4, reg2);
    m2 := DoCall(n, o, m0, m2, TracePrintk);
  }

  lemma {:induction false} DoDebugReg(n: Code, o: Oracle, m0: Machine, m: Machine, e: Emitter, p: Code, d: int, reg1: Reg) returns (m2: Machine)
    requires Gets(n, o, m0, m) && m.pc == |p| && e.DebugRegCode(p, d, reg1) <= n
    ensures Gets(n, o, m0, m2) && m2.pc == |e.DebugRegCode(p, d, reg1)| && Kept(m, m2) && m2.mem == m.mem
  {
    hide Run, Emitter.MsgLen;
    m2 := DoLoad(n, o, m0, m, 1, d);
    m2 := DoMovImm(n, o, m0, m2, 2, e.MsgLen(|p|));
    m2 := DoMovReg(n, o, m0, m2, 3, reg1);
    m2 := DoCall(n, o, m0, m2, TracePrintk);
  }

  lemma {:induction false} LogIdles(e: Emitter, p: Code, d: int, reg1: Reg)
    ensures Idles(p, e.RegLog(p, d, reg1), true, true)
  {
    hide Gets, Emitter.DebugRegCode, Kept;
    if !e.log {
      IdlesNot(p, true, true);
    } else {
      var q := e.DebugRegCode(p, d, reg1);
      forall n: Code, o: Oracle, m: Machine | q <= n && |m.r| == 11 && m.pc == |p| ensures IdlesTo(n, o, m, q, true, true) {
        GetsSelf(n, o, m);
        var m2 := DoDebugReg(n, o, m, m, e, p, d, reg1);
        KeptIdles(n, o, m, q, m2);
      }
    }
  }

  lemma {:induction false} KeptIdles(n: Code, o: Oracle, m: Machine, q: Code, m2: Machine)
    requires Gets(n, o, m, m2) && m2.pc == |q| && Kept(m, m2) && m2.mem == m.mem
    ensures IdlesTo(n, o, m, q, true, true)
  {
    assert IdledBy(n, o, m, q, true, true, m2);
  }

  /** A descriptor of the blob is closed, or skipped. */
  lemma {:induction false} BlobCloseIdles(e: Emitter, p: Code, d: int, off: int)
    ensures Idles(p, e.CloseCode(p + [LdLo(0, off), LdHi] + [Ldx(4, 1, 0, 0)], d), true, false)
  {
    hide Gets, Adds, Emitter.CloseCode;
    var c := p + [LdLo(0, off), LdHi] + [Ldx(4, 1, 0, 0)];
    CloseIdles(e, c, d);
    IdlesOn(p, c, e.CloseCode(c, d), true, false) by { FdIdles(p, off); }
  }

  lemma {:induction false} FdIdles(p: Code, off: int)
    ensures Idles(p, p + [LdLo(0, off), LdHi] + [Ldx(4, 1, 0, 0)], true, false)
  {
    hide Run, LoadMem, S64;
    var c := p + [LdLo(0, off), LdHi] + [Ldx(4, 1, 0, 0)];
    forall n: Code, o: Oracle, m: Machine | c <= n && |m.r| == 11 && m.pc == |p| ensures IdlesTo(n, o, m, c, true, false) {
      GetsSelf(n, o, m);
      var m2 := DoLoad(n, o, m, m, 0, off);
      m2 := DoLdx(n, o, m, m2, 4, 1, 0, 0);
      assert IdledBy(n, o, m, c, true, false, m2);
    }
  }

  /** The same of a descriptor on the stack. */
  lemma {:induction false} StackCloseIdles(e: Emitter, p: Code, d: int, off: int)
    ensures Idles(p, e.CloseCode(p + [Ldx(4, 1, 10, S16(off))], d), true, false)
  {
    hide Gets, Adds, Emitter.CloseCode;
    var c := p + [Ldx(4, 1, 10, S16(off))];
    CloseIdles(e, c, d);
    IdlesOn(p, c, e.CloseCode(c, d), true, false) by { StackFdIdles(p, off); }
  }

  lemma {:induction false} StackFdIdles(p: Code, off: int)
    ensures Idles(p, p + [Ldx(4, 1, 10, S16(off))], true, false)
  {
    hide Run, LoadMem, S64;
    var c := p + [Ldx(4, 1, 10, S16(off))];
    forall n: Code, o: Oracle, m: Machine | c <= n && |m.r| == 11 && m.pc == |p| ensures IdlesTo(n, o, m, c, true, false) {
      GetsSelf(n, o, m);
      var m2 := DoLdx(n, o, m, m, 4, 1, 10, S16(off));
      assert IdledBy(n, o, m, c, true, false, m2);
    }
  }
}
