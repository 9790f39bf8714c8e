/** Where the code of relocations writes to. */
module GenPatches {
  import opened Common
  import opened BpfMachine
  import opened BpfFlow
  import opened BpfRuns
  import opened GenEmit
  import opened GenRuns

  lemma {:induction false} StaysNot(p: Code, home: int, a: Area)
    ensures Stays(p, p, home, None, a)
  {
    forall n: Code, o: Oracle, m: Machine | p <= n && |m.r| == 11 && m.pc == |p| ensures StaysTo(n, o, m, p, home, a) {
      GetsSelf(n, o, m);
      assert StayedBy(n, o, m, p, home, a, m);
    }
  }

  lemma {:induction false} StaysWider(p: Code, q: Code, home: int, at: Option<int>, a: Area, b: Area)
    requires Stays(p, q, home, at, a) && forall y :: Inside(y, a) ==> Inside(y, b)
    ensures Stays(p, q, home, at, b)
  {
    hide Gets, Inside;
    forall n: Code, o: Oracle, m: Machine | q <= n && |m.r| == 11 && m.pc == |p| && (at == None || m.r[8] == o.blob + at.value)
      ensures StaysTo(n, o, m, q, home, b)
    {
      assert StaysTo(n, o, m, q, home, a);
      var m2: Machine :| StayedBy(n, o, m, q, home, a, m2);
      assert StayedBy(n, o, m, q, home, b, m2);
    }
  }

  /** And then a log. */
  lemma {:induction false} StaysIdle(p: Code, q: Code, r: Code, home: int, at: Option<int>, a: Area)
    requires Stays(p, q, home, at, a) && Idles(q, r, false, false)
    ensures Stays(p, r, home, at, a)
  {
    hide Gets, StayedBy, IdlesTo;
    forall n: Code, o: Oracle, m: Machine | r <= n && |m.r| == 11 && m.pc == |p| && (at == None || m.r[8] == o.blob + at.value)
      ensures StaysTo(n, o, m, r, home, a)
    {
      StayIdle(n, o, m, p, q, r, home, at, a);
    }
  }

  /** And then a log, which adds to the data. */
  lemma {:induction false} StaysLogged(p: Code, q: Code, r: Code, home: int, at: Option<int>, a: Area, to: int)
    requires Stays(p, q, home, at, a) && Idles(q, r, false, false) && a.to <= to
    ensures Stays(p, r, home, at, a.(to := to))
  {
    hide Stays, Idles;
    StaysIdle(p, q, r, home, at, a);
    StaysWider(p, r, home, at, a, a.(to := to));
  }

  lemma {:induction false} StayIdle(n: Code, o: Oracle, m: Machine, p: Code, q: Code, r: Code, home: int, at: Option<int>, a: Area)
    requires Stays(p, q, home, at, a) && Idles(q, r, false, false) && r <= n && |m.r| == 11 && m.pc == |p|
    requires at == None || m.r[8] == o.blob + at.value
    ensures StaysTo(n, o, m, r, home, a)
  {
    hide Run, StaysTo, IdlesTo, Inside;
    GetsSelf(n, o, m);
    assert q <= n;
    var m1 := DoStay(n, o, m, m, p, q, home, at, a);
    if m1.pc == |q| {
      var m2 := DoIdle(n, o, m, m1, q, r, false, false);
      Stayed(n, o, m, r, home, a, m2);
    } else {
      Stayed(n, o, m, r, home, a, m1);
    }
  }

  lemma {:induction false} Stayed(n: Code, o: Oracle, m: Machine, q: Code, home: int, a: Area, m2: Machine)
    requires StayedBy(n, o, m, q, home, a, m2)
    ensures StaysTo(n, o, m, q, home, a)
  {
  }

  /** R8 gets the address of the instruction first. */
  lemma {:induction false} StaysAt(p: Code, q: Code, home: int, insn: int, a: Area)
    requires Stays(p + [LdLo(8, insn), LdHi], q, home, Some(insn), a)
    ensures Stays(p, q, home, None, a)
  {
    hide Gets, StayedBy, StaysTo;
    var p1 := p + [LdLo(8, insn), LdHi];
    assert p <= p1 <= q;
    forall n: Code, o: Oracle, m: Machine | q <= n && |m.r| == 11 && m.pc == |p| ensures StaysTo(n, o, m, q, home, a) {
      StayAt(n, o, m, p, q, home, insn, a);
    }
  }

  lemma {:induction false} StayAt(n: Code, o: Oracle, m: Machine, p: Code, q: Code, home: int, insn: int, a: Area)
    requires Stays(p + [LdLo(8, insn), LdHi], q, home, Some(insn), a) && q <= n && |m.r| == 11 && m.pc == |p|
    ensures StaysTo(n, o, m, q, home, a)
  {
    hide Run, Inside, StaysTo;
    var p1 := p + [LdLo(8, insn), LdHi];
    assert p1 <= n;
    GetsSelf(n, o, m);
    assert n[|p|] == p1[|p|] && n[|p| + 1] == p1[|p| + 1];
    var m1 := DoLoad(n, o, m, m, 8, insn);
    var m2 := DoStay(n, o, m, m1, p1, q, home, Some(insn), a);
    Stayed(n, o, m, q, home, a, m2);
  }

  /** A lookup, its log, and unless the symbol is weak a check. */
  ghost predicate Finds(p: Code, f: Code, c: Code, name: int, len: int, kind: int, weak: bool, home: int) {
    Idles(FindCode(p, name, len, kind), f, true, true) && c == if weak then f else CheckCode(f, home)
  }

  lemma {:induction false} DoFinds(n: Code, o: Oracle, m: Machine, p: Code, f: Code, c: Code, name: int, len: int, kind: int, weak: bool, home: nat)
    returns (m2: Machine)
    requires |m.r| == 11 && m.pc == |p| && Finds(p, f, c, name, len, kind, weak, home) && c <= n
    ensures Gets(n, o, m, m2) && m2.mem == m.mem && Adds(m.trace, m2.trace)
    ensures m2.pc == (if !weak && m2.r[7] < 0 then home else |c|)
    ensures |m2.trace| > |m.trace| && m2.trace[|m.trace|] == Found(o.blob + name, len, kind, m2.r[7])
    ensures m2.r[6] == m.r[6] && m2.r[8] == m.r[8] && m2.r[10] == m.r[10]
  {
    hide Run, FindCode, IdlesTo;
    var q := FindCode(p, name, len, kind);
    assert q <= f <= c <= n;
    GetsSelf(n, o, m);
    m2 := DoFind(n, o, m, m, p, name, len, kind);
    var e := m2.trace[|m.trace|];
    m2 := DoIdle(n, o, m, m2, q, f, true, true);
    assert m2.trace[|m.trace|] == e;
    if !weak { m2 := DoJmp(n, o, m, m2, Jslt, 7, 0, home - |f| - 1); }
  }

  /** What is stored at the instruction and in the slot. */
  lemma {:induction false} KfuncWrites(mem: Mem, a: int, slot: int, idx: int, ret: int)
    ensures forall x :: KfuncStored(mem, a, slot, idx, ret)(x) == mem(x) || a <= x < a + 8 || slot <= x < slot + 4
  {
  }

  lemma {:induction false} KfuncStays(p: Code, f: Code, c: Code, name: int, len: int, kind: int, weak: bool, home: nat,
                                      slot: int, idx: int, insn: int, a: Area)
    requires Finds(p, f, c, name, len, kind, weak, home) && a.lo <= insn && insn + 8 <= a.hi
    requires (256 <= slot && slot + 4 <= 1280) || (a.from <= slot && slot + 4 <= a.to)
    ensures Stays(p, StoreKfuncCode(c, slot, idx), home, Some(insn), a)
  {
    hide Gets, StayedBy, StoreKfuncCode, FindCode, IdlesTo;
    var q := StoreKfuncCode(c, slot, idx);
    assert p <= FindCode(p, name, len, kind) <= f <= c <= q;
    forall n: Code, o: Oracle, m: Machine | q <= n && |m.r| == 11 && m.pc == |p| && m.r[8] == o.blob + insn ensures StaysTo(n, o, m, q, home, a) {
      KfuncStay(n, o, m, p, f, c, name, len, kind, weak, home, slot, idx, insn, a);
    }
  }

  lemma {:induction false} KfuncStay(n: Code, o: Oracle, m: Machine, p: Code, f: Code, c: Code, name: int, len: int, kind: int,
                                     weak: bool, home: nat, slot: int, idx: int, insn: int, a: Area)
    requires Finds(p, f, c, name, len, kind, weak, home) && a.lo <= insn && insn + 8 <= a.hi
    requires (256 <= slot && slot + 4 <= 1280) || (a.from <= slot && slot + 4 <= a.to)
    requires StoreKfuncCode(c, slot, idx) <= n && |m.r| == 11 && m.pc == |p| && m.r[8] == o.blob + insn
    ensures StaysTo(n, o, m, StoreKfuncCode(c, slot, idx), home, a)
  {
    hide Run, Finds, StoreKfuncCode, KfuncStored;
    assert c <= n;
    var m1 := DoFinds(n, o, m, p, f, c, name, len, kind, weak, home);
    if m1.pc != |c| {
      Stayed(n, o, m, StoreKfuncCode(c, slot, idx), home, a, m1);
    } else {
      var m2 := DoStoreKfunc(n, o, m, m1, c, slot, idx);
      KfuncWrites(m1.mem, m1.r[8], o.blob + slot, idx, m1.r[7]);
      Stayed(n, o, m, StoreKfuncCode(c, slot, idx), home, a, m2);
    }
  }

  lemma {:induction false} KsymWrites(mem: Mem, a: int, ret: int)
    ensures forall x :: KsymStored(mem, a, ret)(x) == mem(x) || a <= x < a + 16
  {
  }

  lemma {:induction false} KsymStays(p: Code, f: Code, c: Code, name: int, len: int, kind: int, weak: bool, home: nat, insn: int, a: Area)
    requires Finds(p, f, c, name, len, kind, weak, home) && a.lo <= insn && insn + 16 <= a.hi
    ensures Stays(p, StoreKsymCode(c), home, Some(insn), a)
  {
    hide Gets, StayedBy, StoreKsymCode, FindCode, IdlesTo;
    var q := StoreKsymCode(c);
    assert p <= FindCode(p, name, len, kind) <= f <= c <= q;
    forall n: Code, o: Oracle, m: Machine | q <= n && |m.r| == 11 && m.pc == |p| && m.r[8] == o.blob + insn ensures StaysTo(n, o, m, q, home, a) {
      KsymStay(n, o, m, p, f, c, name, len, kind, weak, home, insn, a);
    }
  }

  lemma {:induction false} KsymStay(n: Code, o: Oracle, m: Machine, p: Code, f: Code, c: Code, name: int, len: int, kind: int,
                                    weak: bool, home: nat, insn: int, a: Area)
    requires Finds(p, f, c, name, len, kind, weak, home) && a.lo <= insn && insn + 16 <= a.hi
    requires StoreKsymCode(c) <= n && |m.r| == 11 && m.pc == |p| && m.r[8] == o.blob + insn
    ensures StaysTo(n, o, m, StoreKsymCode(c), home, a)
  {
    hide Run, Finds, StoreKsymCode, KsymStored;
    assert c <= n;
    var m1 := DoFinds(n, o, m, p, f, c, name, len, kind, weak, home);
    if m1.pc != |c| {
      Stayed(n, o, m, StoreKsymCode(c), home, a, m1);
    } else {
      var m2 := DoStoreKsym(n, o, m, m1, c);
      KsymWrites(m1.mem, m1.r[8], m1.r[7]);
      Stayed(n, o, m, StoreKsymCode(c), home, a, m2);
    }
  }

  lemma {:induction false} AddrWrites(mem: Mem, a: int, addr: int)
    ensures forall x :: AddrStored(mem, a, addr)(x) == mem(x) || a <= x < a + 16
  {
  }

  lemma {:induction false} AddrStays(p: Code, f: Code, len: int, data: int, home: nat, insn: int, a: Area)
    requires Idles(KallsymsCode(p, len, data), f, true, true) && a.lo <= insn && insn + 16 <= a.hi
    requires a.from <= data + RoundUp8(len) && data + RoundUp8(len) + 8 <= a.to
    ensures Stays(p, KsymAddrCode(f, home), home, Some(insn), a)
  {
    hide Gets, StayedBy, KallsymsCode, KsymAddrCode, IdlesTo, RoundUp8;
    var q := KsymAddrCode(f, home);
    assert p <= KallsymsCode(p, len, data) <= f <= q;
    forall n: Code, o: Oracle, m: Machine | q <= n && |m.r| == 11 && m.pc == |p| && m.r[8] == o.blob + insn ensures StaysTo(n, o, m, q, home, a) {
      AddrStay(n, o, m, p, f, len, data, home, insn, a);
    }
  }

  lemma {:induction false} AddrStay(n: Code, o: Oracle, m: Machine, p: Code, f: Code, len: int, data: int, home: nat, insn: int, a: Area)
    requires Idles(KallsymsCode(p, len, data), f, true, true) && a.lo <= insn && insn + 16 <= a.hi
    requires a.from <= data + RoundUp8(len) && data + RoundUp8(len) + 8 <= a.to
    requires KsymAddrCode(f, home) <= n && |m.r| == 11 && m.pc == |p| && m.r[8] == o.blob + insn
    ensures StaysTo(n, o, m, KsymAddrCode(f, home), home, a)
  {
    hide Run, KallsymsCode, KsymAddrCode, AddrStored, RoundUp8, IdlesTo;
    GetsSelf(n, o, m);
    assert KallsymsCode(p, len, data) <= f <= n;
    var m1 := DoKallsyms(n, o, m, m, p, len, data);
    var m2 := DoIdle(n, o, m, m1, KallsymsCode(p, len, data), f, true, true);
    var m3 := DoKsymAddr(n, o, m, m2, f, home);
    AddrWrites(m2.mem, m2.r[8], m2.r[9]);
    Stayed(n, o, m, KsymAddrCode(f, home), home, a, m3);
  }

  lemma {:induction false} CopyWrites(mem: Mem, a: int, from: int, off2: int, size2: nat)
    requires 0 <= off2 && off2 + size2 <= 16
    ensures forall x :: ImmsCopied(mem, a, from, off2, size2)(x) == mem(x) || a + 4 <= x < a + 8 || a + off2 <= x < a + off2 + size2
    ensures forall x :: KsymCopied(mem, a, from)(x) == mem(x) || a <= x < a + 16
  {
    hide LoadMem, S64;
  }

  lemma {:induction false} CopyStays(p: Code, insn: int, from: int, off2: int, size2: nat, home: nat, a: Area)
    requires a.lo <= insn && insn + 8 <= a.hi && 0 <= off2 && insn + off2 + size2 <= a.hi && off2 + size2 <= 16
    ensures Stays(p, CopyImmsCode(p, insn, from, off2, size2), home, Some(insn), a)
  {
    hide Run, CopyImmsCode, ImmsCopied, StoreMem, S64, LoadMem;
    var q := CopyImmsCode(p, insn, from, off2, size2);
    forall n: Code, o: Oracle, m: Machine | q <= n && |m.r| == 11 && m.pc == |p| && m.r[8] == o.blob + insn ensures StaysTo(n, o, m, q, home, a) {
      GetsSelf(n, o, m);
      var m2 := DoCopyImms(n, o, m, m, p, insn, from, off2, size2);
      CopyWrites(m.mem, o.blob + insn, o.blob + from, off2, size2);
      Stayed(n, o, m, q, home, a, m2);
    }
  }

  lemma {:induction false} CopyKsymStays(p: Code, insn: int, from: int, home: nat, a: Area)
    requires a.lo <= insn && insn + 16 <= a.hi
    ensures Stays(p, CopyKsymCode(p, insn, from), home, Some(insn), a)
  {
    hide Run, CopyKsymCode, KsymCopied, S64, LoadMem, StoreMem;
    var q := CopyKsymCode(p, insn, from);
    forall n: Code, o: Oracle, m: Machine | q <= n && |m.r| == 11 && m.pc == |p| && m.r[8] == o.blob + insn ensures StaysTo(n, o, m, q, home, a) {
      GetsSelf(n, o, m);
      var m2 := DoCopyKsym(n, o, m, m, p, insn, from);
      CopyWrites(m.mem, o.blob + insn, o.blob + from, 12, 4);
      Stayed(n, o, m, q, home, a, m2);
    }
  }

  /** The logs of relocations. */
  lemma {:induction false} KfuncLogIdles(e: Emitter, p: Code, d: int, d2: int, slot: int)
    ensures Idles(p, e.KfuncLog(p, d, d2, slot), false, false)
  {
    hide Gets, Emitter.KfuncLog;
    if !e.log {
      IdlesNot(p, false, false);
      NoKfuncLog(e, p, d, d2, slot);
    } else {
      var q := e.KfuncLog(p, d, d2, slot);
      forall n: Code, o: Oracle, m: Machine | q <= n && |m.r| == 11 && m.pc == |p| ensures IdlesTo(n, o, m, q, false, false) {
        var m2 := DoKfuncLog(n, o, m, e, p, d, d2, slot);
        assert IdledBy(n, o, m, q, false, false, m2);
      }
    }
  }

  lemma {:induction false} NoKfuncLog(e: Emitter, p: Code, d: int, d2: int, slot: int)
    requires !e.log
    ensures e.KfuncLog(p, d, d2, slot) == p && e.KsymLog(p, d, d2) == p
  {
  }

  lemma {:induction false} DoLogFields(n: Code, o: Oracle, m: Machine, e: Emitter, p: Code, d: int, off: int) returns (m2: Machine)
    requires |m.r| == 11 && m.pc == |p| && e.DebugCode(p + [Ldx(4, 7, 8, 4)] + [Ldx(2, 9, 8, off)], d, 7, 9) <= n
    ensures Gets(n, o, m, m2) && m2.pc == |e.DebugCode(p + [Ldx(4, 7, 8, 4)] + [Ldx(2, 9, 8, off)], d, 7, 9)|
    ensures m2.mem == m.mem && m2.trace == m.trace
    ensures m2.r[6] == m.r[6] && m2.r[8] == m.r[8] && m2.r[10] == m.r[10]
  {
    hide Run, Emitter.DebugCode, LoadMem, S64;
    var c := p + [Ldx(4, 7, 8, 4)] + [Ldx(2, 9, 8, off)];
    assert c <= e.DebugCode(c, d, 7, 9) <= n;
    GetsSelf(n, o, m);
    m2 := DoLdx(n, o, m, m, 4, 7, 8, 4);
    m2 := DoLdx(n, o, m, m2, 2, 9, 8, off);
    m2 := DoDebug(n, o, m, m2, e, c, d, 7, 9);
  }

  lemma {:induction false} DoKfuncLog(n: Code, o: Oracle, m: Machine, e: Emitter, p: Code, d: int, d2: int, slot: int) returns (m2: Machine)
    requires |m.r| == 11 && m.pc == |p| && e.KfuncLog(p, d, d2, slot) <= n && e.log
    ensures Gets(n, o, m, m2) && m2.pc == |e.KfuncLog(p, d, d2, slot)| && m2.mem == m.mem && m2.trace == m.trace
    ensures m2.r[6] == m.r[6] && m2.r[8] == m.r[8] && m2.r[10] == m.r[10]
  {
    hide Run, Emitter.DebugCode, Emitter.DebugRegCode, LoadMem, S64;
    var b := e.DebugCode(p + [Ldx(4, 7, 8, 4)] + [Ldx(2, 9, 8, 2)], d, 7, 9);
    var c := b + [LdLo(0, slot), LdHi] + [Ldx(4, 9, 0, 0)];
    assert b <= c <= e.DebugRegCode(c, d2, 9) <= n;
    m2 := DoLogFields(n, o, m, e, p, d, 2);
    m2 := DoLoad(n, o, m, m2, 0, slot);
    m2 := DoLdx(n, o, m, m2, 4, 9, 0, 0);
    m2 := DoDebugReg(n, o, m, m2, e, c, d2, 9);
  }

  lemma {:induction false} KsymLogIdles(e: Emitter, p: Code, d: int, d2: int)
    ensures Idles(p, e.KsymLog(p, d, d2), false, false)
  {
    hide Gets, Emitter.KsymLog;
    if !e.log {
      IdlesNot(p, false, false);
      NoKfuncLog(e, p, d, d2, 0);
    } else {
      var q := e.KsymLog(p, d, d2);
      forall n: Code, o: Oracle, m: Machine | q <= n && |m.r| == 11 && m.pc == |p| ensures IdlesTo(n, o, m, q, false, false) {
        var m2 := DoKsymLog(n, o, m, e, p, d, d2);
        assert IdledBy(n, o, m, q, false, false, m2);
      }
    }
  }

  lemma {:induction false} DoKsymLog(n: Code, o: Oracle, m: Machine, e: Emitter, p: Code, d: int, d2: int) returns (m2: Machine)
    requires |m.r| == 11 && m.pc == |p| && e.KsymLog(p, d, d2) <= n && e.log
    ensures Gets(n, o, m, m2) && m2.pc == |e.KsymLog(p, d, d2)| && m2.mem == m.mem && m2.trace == m.trace
    ensures m2.r[6] == m.r[6] && m2.r[8] == m.r[8] && m2.r[10] == m.r[10]
  {
    hide Run, Emitter.DebugCode, Emitter.DebugRegCode, LoadMem, S64;
    var b := e.DebugCode(p + [Ldx(4, 7, 8, 4)] + [Ldx(2, 9, 8, 12)], d, 7, 9);
    var c := b + [Ldx(1, 9, 8, 1)];
    assert b <= c <= e.DebugRegCode(c, d2, 9) <= n;
    m2 := DoLogFields(n, o, m, e, p, d, 12);
    m2 := DoLdx(n, o, m, m2, 1, 9, 8, 1);
    m2 := DoDebugReg(n, o, m, m2, e, c, d2, 9);
  }
}
