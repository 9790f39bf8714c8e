/** The loader generator's public calls (gen_loader.c). */
module GenLoader {
  import opened Common
  import opened BpfMachine
  import opened BpfFlow
  import opened BpfSafety
  import opened GenEmit
  import opened BpfRuns
  import opened GenRuns
  import opened GenMeaning
  import opened GenTasks
  import opened GenCalls
  import opened GenLoads
  import opened GenPatches
  import opened GenReturns

  const ENOSPC := -28
  const EDOM := -33
  const EFAULT := -14
  const MAX_KFUNC_DESCS := 256
  const MAX_FD_ARRAY_SZ := MAX_USED_MAPS + MAX_KFUNC_DESCS

  const KIND_FUNC := 12
  const KIND_VAR := 14

  datatype Relo = Relo(name: string, kind: int, insn_idx: int, is_weak: bool, is_typeless: bool)

  /** `off` also holds the flag `typeless`, in its low byte. */
  datatype Ksym = Ksym(name: string, ref: nat, kind: int, off: int, insn: int)

  function SetTypeless(k: Ksym): Ksym {
    k.(off := k.off - k.off % 256 + 1)
  }

  predicate Typeless(k: Ksym) {
    k.off % 256 != 0
  }

  /** The kfuncs with a descriptor slot in the reserved array. */
  function Reserved(ks: seq<Ksym>): nat {
    if ks == [] then 0
    else Reserved(ks[..|ks| - 1]) + if ks[|ks| - 1].kind == KIND_FUNC && ks[|ks| - 1].off < MAX_FD_ARRAY_SZ then 1 else 0
  }

  /** A kfunc's descriptor slot is a reserved one after the maps', or lies in the data after the array. */
  predicate SlotOk(k: Ksym, nr: int, data_len: int) {
    k.kind == KIND_FUNC ==> MAX_USED_MAPS <= k.off < MAX_USED_MAPS + nr || (MAX_FD_ARRAY_SZ <= k.off && 4 * k.off + 4 <= data_len)
  }

  /** Descriptor slots are in bounds and never shared. */
  ghost predicate FdSlots(ks: seq<Ksym>, nr: int, data_len: int) {
    && nr == Reserved(ks) && nr <= MAX_KFUNC_DESCS && data_len >= 4 * MAX_FD_ARRAY_SZ
    && (forall i :: 0 <= i < |ks| ==> SlotOk(ks[i], nr, data_len) && ks[i].ref >= 1)
    && (forall i, j :: 0 <= i < j < |ks| && ks[i].kind == KIND_FUNC && ks[j].kind == KIND_FUNC ==> ks[i].off != ks[j].off)
    && (forall i, j :: 0 <= i < j < |ks| ==> ks[i].name != ks[j].name)
  }

  lemma {:induction false} ReservedAppend(ks: seq<Ksym>, k: Ksym)
    ensures Reserved(ks + [k]) == Reserved(ks) + if k.kind == KIND_FUNC && k.off < MAX_FD_ARRAY_SZ then 1 else 0
  {
    assert (ks + [k])[..|ks|] == ks;
  }

  lemma {:induction false} SlotsReserved(ks: seq<Ksym>, nr: int, data_len: int)
    requires FdSlots(ks, nr, data_len)
    ensures nr == Reserved(ks)
  {
  }

  lemma {:induction false} SlotsCount(ks: seq<Ksym>, nr: int, data_len: int)
    requires FdSlots(ks, nr, data_len)
    ensures nr >= 0
  {
  }

  lemma {:induction false} SlotsKeep(ks: seq<Ksym>, nr: int, data_len: int, more: int)
    requires FdSlots(ks, nr, data_len) && more >= data_len
    ensures FdSlots(ks, nr, more)
  {
    forall i | 0 <= i < |ks| ensures SlotOk(ks[i], nr, more) { assert SlotOk(ks[i], nr, data_len); }
  }

  /** A new symbol that is not a kfunc, or one with a slot of its own, keeps the slots apart. */
  lemma {:induction false} SlotsAppend(ks: seq<Ksym>, nr: int, data_len: int, k: Ksym, nr2: int, more: int)
    requires FdSlots(ks, nr, data_len) && more >= data_len && k.ref >= 1 && forall i :: 0 <= i < |ks| ==> ks[i].name != k.name
    requires k.kind == KIND_FUNC ==>
               || (nr < MAX_KFUNC_DESCS && k.off == MAX_USED_MAPS + nr && nr2 == nr + 1)
               || (nr2 == nr && 4 * k.off <= data_len < 4 * k.off + 4 && 4 * k.off + 4 <= more)
    requires k.kind != KIND_FUNC ==> nr2 == nr
    ensures FdSlots(ks + [k], nr2, more)
  {
    ReservedAppend(ks, k);
    var js := ks + [k];
    forall i | 0 <= i < |js| ensures SlotOk(js[i], nr2, more) && js[i].ref >= 1 { assert i < |ks| ==> SlotOk(ks[i], nr, data_len); }
    forall i, j | 0 <= i < j < |js| && js[i].kind == KIND_FUNC && js[j].kind == KIND_FUNC ensures js[i].off != js[j].off {
      assert SlotOk(ks[i], nr, data_len);
    }
  }

  lemma {:induction false} ReservedSame(ks: seq<Ksym>, js: seq<Ksym>)
    requires |ks| == |js| && forall i :: 0 <= i < |ks| ==> js[i].kind == ks[i].kind && (ks[i].kind == KIND_FUNC ==> js[i].off == ks[i].off)
    ensures Reserved(js) == Reserved(ks)
    decreases |ks|
  {
    if ks != [] { ReservedSame(ks[..|ks| - 1], js[..|ks| - 1]); }
  }

  /** Changing a symbol's references, or the offset of one that is not a kfunc, keeps the slots apart. */
  lemma {:induction false} SlotsUpdate(ks: seq<Ksym>, nr: int, data_len: int, i: nat, k: Ksym)
    requires FdSlots(ks, nr, data_len) && i < |ks| && k.ref >= 1 && k.name == ks[i].name && k.kind == ks[i].kind
    requires k.kind == KIND_FUNC ==> k.off == ks[i].off
    ensures FdSlots(ks[i := k], nr, data_len)
  {
    var js := ks[i := k];
    ReservedSame(ks, js);
    forall j | 0 <= j < |js| ensures SlotOk(js[j], nr, data_len) && js[j].ref >= 1 { assert SlotOk(ks[j], nr, data_len); }
  }

  ghost predicate RefsOk(ks: seq<Ksym>) {
    forall i :: 0 <= i < |ks| ==> ks[i].ref >= 1
  }

  function StrSize(s: string): int {
    (|s| + 1) % 0x1_0000_0000
  }

  lemma {:induction false} LinkedSlots(ks: seq<Ksym>, nr: int, d: int, data_len: int, k: Ksym, nr2: int, more: int)
    requires FdSlots(ks, nr, d) && d <= data_len <= more && k.ref >= 1 && forall i :: 0 <= i < |ks| ==> ks[i].name != k.name
    requires || (nr < MAX_KFUNC_DESCS && k.off == MAX_USED_MAPS + nr && nr2 == nr + 1)
             || (nr2 == nr && 4 * k.off <= data_len < 4 * k.off + 4 && 4 * k.off + 4 <= more)
    requires k.kind == KIND_FUNC
    ensures FdSlots(ks + [k], nr2, more)
  {
    SlotsKeep(ks, nr, d, data_len);
    SlotsAppend(ks, nr, data_len, k, nr2, more);
  }

  /** R7 is stored at offset `off` of the blob. */
  predicate StoresR7(p: Code, k: nat, off: int) {
    k + 3 <= |p| && p[k] == LdLo(1, off) && p[k + 1] == LdHi && p[k + 2] == Stx(4, 1, 7, 0)
  }

  /** A lookup by name, whose code ends at `q`; a weak symbol's is not checked. */
  ghost predicate LookedUp(p: Code, d: int, q: Code, r: Relo, home: int) {
    exists f :: Finds(p, f, q, d, StrSize(r.name), r.kind, r.is_weak, home)
  }

  /** The code of one relocation, from `p` on: the instruction at `insn` gets what an earlier relocation of the
      symbol `k` found, if it has been `seen`, or else what a lookup, whose code ends at `q`, finds. */
  ghost predicate Patches(p: Code, d: int, q: Code, n: Code, r: Relo, insn: int, k: Ksym, seen: bool, home: nat) {
    && p <= n && k.name == r.name
    && if r.kind == KIND_FUNC then
         if seen then CopyImmsCode(p, insn, k.insn, 2, 2) <= n
         else k.insn == insn && LookedUp(p, d, q, r, home) && StoreKfuncCode(q, 4 * k.off, k.off) <= n
       else if r.is_typeless then
         if seen then CopyImmsCode(p, insn, k.insn, 12, 4) <= n
         else k.insn == insn && Idles(KallsymsCode(p, StrSize(r.name), d), q, true, true) && KsymAddrCode(q, home) <= n
       else
         if seen then CopyKsymCode(p, insn, k.insn) <= n
         else k.insn == insn && LookedUp(p, d, q, r, home) && StoreKsymCode(q) <= n
  }

  /** More code after it. */
  lemma {:induction false} PatchesOn(p: Code, d: int, q: Code, n: Code, n2: Code, r: Relo, insn: int, k: Ksym, seen: bool, home: nat)
    requires Patches(p, d, q, n, r, insn, k, seen, home) && n <= n2
    ensures Patches(p, d, q, n2, r, insn, k, seen, home)
  {
    hide StoreKfuncCode, StoreKsymCode, KsymAddrCode, CopyKsymCode, CopyImmsCode, LookedUp;
  }

  /** What the relocation `r` has done to memory, with the instruction at `insn` in the blob: it was copied from an earlier
      relocation of the symbol if that was `seen`, or else stored from what a lookup, with the name at offset `d`, returned.
      `mid` is the memory after the lookup. */
  ghost predicate Relocated(o: Oracle, m: Machine, m2: Machine, d: int, r: Relo, insn: int, k: Ksym, seen: bool, ret: int, mid: Mem) {
    var a, from := o.blob + insn, o.blob + k.insn;
    var e := if |m2.trace| > |m.trace| then m2.trace[|m.trace|] else Closed(0);
    if seen then
      m2.mem == if r.kind == KIND_FUNC then ImmsCopied(m.mem, a, from, 2, 2)
                else if r.is_typeless then ImmsCopied(m.mem, a, from, 12, 4)
                else KsymCopied(m.mem, a, from)
    else if r.kind == KIND_VAR && r.is_typeless then
      var res := o.blob + d + RoundUp8(StrSize(r.name));
      && e == Looked(o.blob + d, StrSize(r.name), res, ret) && (ret >= 0 || ret == -2)
      && (forall x :: mid(x) == m.mem(x) || res <= x < res + 8)
      && m2.mem == AddrStored(mid, a, S64(LoadMem(mid, res, 8)))
    else
      && e == Found(o.blob + d, StrSize(r.name), r.kind, ret) && (r.is_weak || ret >= 0)
      && m2.mem == if r.kind == KIND_FUNC then KfuncStored(m.mem, a, o.blob + 4 * k.off, k.off, ret) else KsymStored(m.mem, a, ret)
  }

  /** Where the code of a relocation ends, but for its log. */
  function PatchEnd(p: Code, q: Code, r: Relo, insn: int, k: Ksym, seen: bool, home: nat): Code {
    if seen then
      if r.kind == KIND_FUNC then CopyImmsCode(p, insn, k.insn, 2, 2)
      else if r.is_typeless then CopyImmsCode(p, insn, k.insn, 12, 4)
      else CopyKsymCode(p, insn, k.insn)
    else if r.kind == KIND_FUNC then StoreKfuncCode(q, 4 * k.off, k.off)
    else if r.is_typeless then KsymAddrCode(q, home)
    else StoreKsymCode(q)
  }

  /** Every run of a relocation's code relocates the instruction, or goes to the cleanup code. */
  lemma {:induction false} PatchRuns(n: Code, o: Oracle, m: Machine, p: Code, d: int, q: Code, n1: Code, r: Relo, insn: int,
                                     k: Ksym, seen: bool, home: nat)
    returns (m2: Machine, ret: int, mid: Mem)
    requires Patches(p, d, q, n1, r, insn, k, seen, home) && n1 <= n && |m.r| == 11 && m.pc == |p| && m.r[8] == o.blob + insn
    requires r.kind == KIND_FUNC || r.kind == KIND_VAR
    ensures Gets(n, o, m, m2)
    ensures m2.pc == home || (m2.pc == |PatchEnd(p, q, r, insn, k, seen, home)| && Relocated(o, m, m2, d, r, insn, k, seen, ret, mid))
  {
    hide Run, Finds, IdlesTo, CopyImmsCode, CopyKsymCode, StoreKfuncCode, StoreKsymCode, KsymAddrCode;
    hide KfuncStored, KsymStored, AddrStored, ImmsCopied, KsymCopied, LoadMem, S64, RoundUp8;
    GetsSelf(n, o, m);
    ret, mid := 0, m.mem;
    if seen {
      m2 := CopyRuns(n, o, m, p, r, insn, k, home);
    } else if r.kind == KIND_VAR && r.is_typeless {
      m2, ret, mid := AddrRuns(n, o, m, p, d, q, r, insn, k, home);
    } else {
      var f :| Finds(p, f, q, d, StrSize(r.name), r.kind, r.is_weak, home);
      assert q <= PatchEnd(p, q, r, insn, k, seen, home) <= n;
      var m1 := DoFinds(n, o, m, p, f, q, d, StrSize(r.name), r.kind, r.is_weak, home);
      ret, m2 := m1.r[7], m1;
      if r.is_weak || ret >= 0 {
        if r.kind == KIND_FUNC { m2 := DoStoreKfunc(n, o, m, m1, q, 4 * k.off, k.off); } else { m2 := DoStoreKsym(n, o, m, m1, q); }
      }
    }
  }

  lemma {:induction false} CopyRuns(n: Code, o: Oracle, m: Machine, p: Code, r: Relo, insn: int, k: Ksym, home: nat) returns (m2: Machine)
    requires PatchEnd(p, [], r, insn, k, true, home) <= n && |m.r| == 11 && m.pc == |p| && m.r[8] == o.blob + insn
    ensures Gets(n, o, m, m2) && m2.pc == |PatchEnd(p, [], r, insn, k, true, home)| && Relocated(o, m, m2, 0, r, insn, k, true, 0, m.mem)
  {
    hide Run, CopyImmsCode, CopyKsymCode, ImmsCopied, KsymCopied, LoadMem, S64, StoreMem;
    GetsSelf(n, o, m);
    if r.kind == KIND_FUNC {
      m2 := DoCopyImms(n, o, m, m, p, insn, k.insn, 2, 2);
    } else if r.is_typeless {
      m2 := DoCopyImms(n, o, m, m, p, insn, k.insn, 12, 4);
    } else {
      m2 := DoCopyKsym(n, o, m, m, p, insn, k.insn);
    }
  }

  lemma {:induction false} AddrRuns(n: Code, o: Oracle, m: Machine, p: Code, d: int, q: Code, r: Relo, insn: int, k: Ksym, home: nat)
    returns (m2: Machine, ret: int, mid: Mem)
    requires Idles(KallsymsCode(p, StrSize(r.name), d), q, true, true) && KsymAddrCode(q, home) <= n && r.kind == KIND_VAR && r.is_typeless
    requires |m.r| == 11 && m.pc == |p| && m.r[8] == o.blob + insn
    ensures Gets(n, o, m, m2)
    ensures m2.pc == home || (m2.pc == |KsymAddrCode(q, home)| && Relocated(o, m, m2, d, r, insn, k, false, ret, mid))
  {
    hide Run, KallsymsCode, KsymAddrCode, AddrStored, IdlesTo, LoadMem, S64, RoundUp8;
    GetsSelf(n, o, m);
    assert KallsymsCode(p, StrSize(r.name), d) <= q <= KsymAddrCode(q, home) <= n;
    var m1 := DoKallsyms(n, o, m, m, p, StrSize(r.name), d);
    var e := m1.trace[|m.trace|];
    ret, mid := m1.r[7], m1.mem;
    m2 := DoIdle(n, o, m, m1, KallsymsCode(p, StrSize(r.name), d), q, true, true);
    assert m2.trace[|m.trace|] == e;
    m2 := DoKsymAddr(n, o, m, m2, q, home);
  }

  /** One relocation of a program: the code before and after it, the data so far, and the symbol. */
  datatype Patch = Patch(before: Code, d: int, found: Code, after: Code, k: Ksym, seen: bool)

  /** R8 gets the address of the instruction that is relocated, and the code that patches it follows. */
  ghost predicate PatchOk(s: Patch, r: Relo, insns_off: int, home: nat) {
    var insn := insns_off + 8 * r.insn_idx;
    Patches(s.before + [LdLo(8, insn), LdHi], s.d, s.found, s.after, r, insn, s.k, s.seen, home)
  }

  /** The relocations' codes follow each other, in order, from `p` to `n`. */
  ghost predicate InOrder(ps: seq<Patch>, relos: seq<Relo>, p: Code, n: Code, insns_off: int, home: nat) {
    && |ps| <= |relos|
    && (forall i {:trigger ps[i]} :: 0 <= i < |ps| ==> PatchOk(ps[i], relos[i], insns_off, home))
    && (forall i {:trigger ps[i]} :: 0 <= i < |ps| ==> ps[i].before == if i == 0 then p else ps[i - 1].after)
    && n == if ps == [] then p else ps[|ps| - 1].after
  }

  lemma {:induction false} InOrderNone(relos: seq<Relo>, p: Code, insns_off: int, home: nat)
    ensures InOrder([], relos, p, p, insns_off, home)
  {
  }

  lemma {:induction false} InOrderOn(ps: seq<Patch>, relos: seq<Relo>, p: Code, s: Patch, insns_off: int, home: nat)
    requires |ps| < |relos| && InOrder(ps, relos, p, s.before, insns_off, home) && PatchOk(s, relos[|ps|], insns_off, home)
    ensures InOrder(ps + [s], relos, p, s.after, insns_off, home)
  {
    hide PatchOk;
    var now := ps + [s];
    forall i | 0 <= i < |now| ensures PatchOk(now[i], relos[i], insns_off, home) { if i < |ps| { assert now[i] == ps[i]; } }
    forall i | 0 <= i < |now| ensures now[i].before == if i == 0 then p else now[i - 1].after { if i < |ps| { assert now[i] == ps[i]; } }
  }

  /** Where in the blob a symbol's relocations left a descriptor, if they did. */
  function FdOff(k: Ksym): Option<int> {
    if k.kind == KIND_VAR && !Typeless(k) then Some(k.insn + 12)
    else if k.kind == KIND_FUNC then Some(4 * k.off)
    else None
  }

  /** The descriptor that symbol `k` may have is closed at position `at`. */
  predicate FdClosed(p: Code, at: nat, k: Ksym) {
    FdOff(k) != None ==> ClosesBlobAt(p, at, FdOff(k).value)
  }

  lemma {:induction false} ClosedStays(p: Code, q: Code, at: nat, k: Ksym)
    requires FdClosed(p, at, k) && p <= q
    ensures FdClosed(q, at, k)
  {
  }

  lemma {:induction false} CodeStays(p: Code, q: Code, r: Code, k: nat, off: int, home: nat)
    requires p <= q <= r
    ensures CheckedAt(p, k - 1, home) ==> CheckedAt(r, k - 1, home)
    ensures StoresR7(q, k, off) ==> StoresR7(r, k, off)
  {
  }

  /** Maps of maps. */
  predicate OuterType(map_type: int) {
    map_type == ARRAY_OF_MAPS || map_type == HASH_OF_MAPS
  }

  /** A size whose rounding up to 8 bytes does not wrap around 32 bits. */
  predicate NoWrap(n: int) {
    0 <= n <= 0xffff_fff8
  }

  lemma {:induction false} Rounded(n: int)
    ensures n >= 0 ==> RoundUp8(n) >= 0
    ensures 0 <= n <= 0xffff_fff8 ==> RoundUp8(n) >= n
  {
  }

  /** Of a 32-bit size exactly the greatest seven wrap around, and then nothing is reserved for the data. */
  lemma {:induction false} WrapsExactly(n: int)
    requires 0 <= n < 0x1_0000_0000
    ensures RoundUp8(n) >= n <==> NoWrap(n)
    ensures !NoWrap(n) ==> RoundUp8(n) == 0
  {
    Rounded(n);
  }

  /** The program load that is wanted, when the blob is `d` bytes long. */
  function ProgWant(d: int, license_size: int, insns_size: int, func_size: int, line_size: int, cores: int, kind: int, len: int): (want: Want)
    ensures want.ProgNew?
  {
    var insns := d + RoundUp8(license_size);
    var func_info := insns + RoundUp8(insns_size);
    var line_info := func_info + RoundUp8(func_size);
    var relos := line_info + RoundUp8(line_size);
    var attr := relos + RoundUp8(16 * cores % 0x1_0000_0000);
    ProgNew(attr, d, insns, func_info, line_info, relos, if kind == 0 then None else Some(Target(attr + RoundUp8(PROG_ATTR_SIZE), len + 1, kind)))
  }

  lemma {:induction false} ProgWantIs(d: int, license: int, insns: int, func: int, line: int, cores: int, kind: int, len: int)
    ensures var want := ProgWant(d, license, insns, func, line, cores, kind, len);
            && want.license == d && want.insns == d + RoundUp8(license) && want.func_info == want.insns + RoundUp8(insns)
            && want.line_info == want.func_info + RoundUp8(func) && want.core_relos == want.line_info + RoundUp8(line)
            && want.attr == want.core_relos + RoundUp8(16 * cores % 0x1_0000_0000)
            && want.target == if kind == 0 then None else Some(Target(want.attr + RoundUp8(PROG_ATTR_SIZE), len + 1, kind))
  {
    hide RoundUp8;
  }

  /** The update of an element that is wanted, when the blob is `d` bytes long. */
  function ElemWant(d: int, map_idx: int, value_size: int): (want: Want)
    ensures want.Update?
  {
    Update(d + RoundUp8(value_size) + 8, map_idx, d + RoundUp8(value_size), d, value_size)
  }

  /** The slots of the instruction a relocation writes to. */
  function ReloSize(r: Relo): nat {
    if r.kind == KIND_FUNC then 8 else 16
  }

  /** The relocations' instructions lie inside the program. */
  ghost predicate RelosInside(relos: seq<Relo>, size: int) {
    forall i {:trigger relos[i]} :: 0 <= i < |relos| ==> 0 <= relos[i].insn_idx && 8 * relos[i].insn_idx + ReloSize(relos[i]) <= size
  }

  lemma {:induction false} RelosGo(p: Code, q: Code, n: Code, home: int, r: Relo, insns: int, size: int, d0: int, d1: int, d2: int)
    requires Stays(p, q, home, None, Area(insns, insns + size, d0, d1)) && d0 <= d1 <= d2
    requires Stays(q, n, home, None, Area(insns + 8 * r.insn_idx, insns + 8 * r.insn_idx + ReloSize(r), d1, d2))
    requires 0 <= r.insn_idx && 8 * r.insn_idx + ReloSize(r) <= size
    ensures Stays(p, n, home, None, Area(insns, insns + size, d0, d2))
  {
    hide Stays;
    StaysOn(p, q, n, home, Area(insns, insns + size, d0, d1), Area(insns + 8 * r.insn_idx, insns + 8 * r.insn_idx + ReloSize(r), d1, d2),
            Area(insns, insns + size, d0, d2));
  }

  class Gen {
    const code: Emitter
    var nr_progs: nat
    var nr_maps: nat
    var relos: seq<Relo>
    var core_relo_cnt: nat
    var attach_kind: int
    var attach_len: nat
    var ksyms: seq<Ksym>
    var fd_array: int
    var nr_fd_array: int

    /** Between two calls. */
    ghost predicate Ready()
      reads this, code
    {
      && code.Rest() && (code.phase == Body || code.phase == Broken) && (code.Live() ==> !code.flow.due)
      && nr_maps <= MAX_USED_MAPS && attach_len <= 127 && nr_fd_array <= MAX_KFUNC_DESCS && fd_array == 0 && ksyms == []
      && (code.error == 0 ==> nr_fd_array == 0 && code.data_len >= 4 * MAX_FD_ARRAY_SZ)
    }

    /** What the calls have recorded. */
    function Tracked(): Track
      reads this
    {
      Track(nr_maps, nr_progs, relos, core_relo_cnt, attach_kind, attach_len)
    }

    /** One command more in the log. */
    ghost predicate Issued1(cmds: seq<(int, int, int)>, c: (int, int, int))
      reads code
    {
      code.Live() ==> code.cmds == cmds + [c]
    }

    /** `bpf_gen__init`. */
    constructor (log_level: int, text_len: nat -> nat, nr_progs: nat, nr_maps: nat)
      ensures Ready() && fresh(code) && this.nr_progs == 0 && this.nr_maps == 0
      ensures code.error == 0 && CleanupSize(nr_progs, nr_maps, log_level != 0) < 0x8000 ==> code.phase == Body && code.cmds == []
      ensures code.error == 0 ==> |code.insns| == HOME + CleanupSize(nr_progs, nr_maps, log_level != 0)
      ensures code.Live() ==> code.cmds == []
      ensures code.error == 0 ==> code.cleanup_label == HOME
      ensures Tracked() == Track(0, 0, [], 0, 0, 0)
      ensures code.begun == Some(CleanupSize(nr_progs, nr_maps, log_level != 0)) && code.log == (log_level != 0)
      ensures nr_maps == 0 && 8 * (HOME + CleanupSize(nr_progs, 0, log_level != 0)) <= INT32_MAX ==> code.error == 0
    {
      this.nr_progs, this.nr_maps, relos, core_relo_cnt := 0, 0, [], 0;
      attach_kind, attach_len, ksyms, nr_fd_array := 0, 0, [], 0;
      code := new Emitter(log_level, text_len);
      new;
      fd_array := code.Init(nr_progs, nr_maps);
    }

    /** The log details the user provides in the context: level, size and buffer. */
    method PatchLog(level: int, size: int, buf: int)
      requires code.Rest() && code.phase != Opening
      modifies code`insns, code`error, code`flow, code`cmds
      ensures code.Rest() && (old(code.error) != 0 ==> code.error != 0) && (code.error == 0 ==> old(code.error) == 0)
      ensures code.Quiet(old(code.error), old(code.flow), old(code.cmds))
      ensures code.error == 0 ==> code.insns == LogCode(old(code.insns), level, size, buf)
    {
      hide Emitter.Valid, Emitter.Rest, Ctx2BlobCode;
      code.MoveCtx2Blob(level, 4, 8, false);
      code.MoveCtx2Blob(size, 4, 12, false);
      code.MoveCtx2Blob(buf, 8, 16, false);
    }

    /** `bpf_gen__load_btf`. */
    method LoadBtf(raw_size: nat)
      requires Ready() && raw_size < 0x1_0000_0000
      modifies code`insns, code`error, code`flow, code`cmds, code`data_len
      ensures Ready() && (old(code.error) != 0 ==> code.error != 0)
      ensures Issued1(old(code.cmds), (BTF_LOAD, old(code.data_len) + RoundUp8(raw_size), BTF_ATTR_SIZE))
      ensures code.error == 0 ==> |code.insns| >= 2 && CheckedAt(code.insns, |code.insns| - 2, code.cleanup_label)
      ensures code.error == 0 ==> code.insns[|code.insns| - 1] == Stx(4, 10, 7, BTF_FD)
      ensures code.error == 0 && NoWrap(raw_size) ==>
                Leads(old(code.insns), code.insns, code.cleanup_label, old(code.data_len), code.data_len,
                      BtfLoad(old(code.data_len) + RoundUp8(raw_size), old(code.data_len)), nr_maps, nr_progs)
    {
      hide Emitter.Valid, Emitter.Rest, RelStoreCode, Ctx2BlobCode, SysBpfCode, Emitter.DebugRegCode, Learn;
      hide RoundUp8, LogCode, CheckCode, Idles, Leads, Emitter.RegLog, CheckedAt;
      var btf_data := code.Reserve(raw_size);
      var attr := code.Reserve(BTF_ATTR_SIZE);
      PatchLog(attr + 24, attr + 20, attr + 8);
      code.RelStore(attr, btf_data);
      code.SysBpfCmd(BTF_LOAD, attr, BTF_ATTR_SIZE);
      ghost var p, d := code.insns, code.data_len;
      code.DebugReg(7);
      ghost var p4 := code.insns;
      code.Check();
      code.EmitStore(StxMem(4, 10, 7, BTF_FD));
      if code.error == 0 {
        LogIdles(code, p, d, 7);
        BtfGoes(old(code.insns), p4, BtfLoad(attr, btf_data), raw_size);
      }
    }

    lemma {:induction false} BtfGoes(p: Code, p4: Code, want: Want, raw_size: int)
      requires want.BtfLoad? && 1280 <= want.data && want.attr == want.data + RoundUp8(raw_size)
      requires code.data_len >= want.attr + RoundUp8(BTF_ATTR_SIZE)
      requires Idles(BtfCode(p, want.attr, want.data), p4, true, true) && code.insns == CheckCode(p4, code.cleanup_label) + [Stx(4, 10, 7, BTF_FD)]
      ensures NoWrap(raw_size) ==> Leads(p, code.insns, code.cleanup_label, want.data, code.data_len, want, nr_maps, nr_progs)
      ensures |code.insns| >= 2 && CheckedAt(code.insns, |code.insns| - 2, code.cleanup_label)
    {
      hide Leads, Idles, BtfCode;
      Rounded(raw_size);
      if NoWrap(raw_size) { LoadBtfLeads(p, p4, code.insns, code.cleanup_label, want.data, code.data_len, want, nr_maps, nr_progs); }
    }

    /** `add_map_fd`. */
    method AddMapFd() returns (idx: nat)
      requires code.Rest() && nr_maps <= MAX_USED_MAPS
      modifies this`nr_maps, code`error
      ensures code.Rest() && nr_maps <= MAX_USED_MAPS && (old(code.error) != 0 ==> code.error != 0)
      ensures code.error == 0 ==> old(code.error) == 0 && idx == old(nr_maps) && nr_maps == idx + 1
    {
      if nr_maps == MAX_USED_MAPS {
        code.Abort(E2BIG);
        return 0;
      }
      idx, nr_maps := nr_maps, nr_maps + 1;
    }

    /** The attributes of a map that are known only when the loader runs. */
    method PatchMapAttr(attr: int, map_type: int, has_value_btf: bool, map_idx: int)
      requires code.Rest() && code.phase != Opening
      modifies code`insns, code`error, code`flow, code`cmds
      ensures code.Rest() && (old(code.error) != 0 ==> code.error != 0)
      ensures code.Quiet(old(code.error), old(code.flow), old(code.cmds))
      ensures code.error == 0 ==> code.insns == MapFill(old(code.insns), attr, has_value_btf, OuterType(map_type), map_idx)
    {
      hide Emitter.Valid, Emitter.Rest, Ctx2BlobCode, Stack2BlobCode;
      if has_value_btf { code.MoveStack2Blob(attr + 48, 4, BTF_FD); }
      if OuterType(map_type) { code.MoveStack2Blob(attr + 20, 4, INNER_MAP_FD); }
      if map_idx >= 0 { code.MoveCtx2Blob(attr + 12, 4, CTX_SIZE + MAP_DESC_SIZE * map_idx + 8, true); }
    }

    /** R7 goes to slot `idx` of the descriptor array. */
    method StoreMapFd(idx: nat) returns (ghost at: nat)
      requires code.Rest() && code.phase != Opening
      modifies code`insns, code`error, code`flow, code`cmds
      ensures code.Rest() && (old(code.error) != 0 ==> code.error != 0)
      ensures code.Quiet(old(code.error), old(code.flow), old(code.cmds))
      ensures at == |old(code.insns)| && (code.error == 0 ==> StoresR7(code.insns, at, fd_array + 4 * idx))
      ensures code.error == 0 ==> old(code.insns) <= code.insns
      ensures code.error == 0 && fd_array == 0 ==> code.insns == MapStore(old(code.insns), idx)
    {
      hide Emitter.Valid;
      at := |code.insns|;
      code.EmitLoad(1, fd_array + 4 * idx);
      code.EmitPlain(StxMem(4, 1, 7, 0));
    }

    /** `bpf_gen__map_create`. A tracked map's descriptor goes to the next slot of the array, an inner map's
        to the stack, right after the check. */
    method MapCreate(map_type: int, has_value_btf: bool, map_idx: int) returns (ghost at: nat)
      requires Ready()
      modifies this`nr_maps, code`insns, code`error, code`flow, code`cmds, code`data_len
      ensures Ready() && (old(code.error) != 0 ==> code.error != 0)
      ensures Issued1(old(code.cmds), (MAP_CREATE, old(code.data_len), MAP_ATTR_SIZE))
      ensures code.error == 0 ==> nr_maps == old(nr_maps) + if map_idx >= 0 then 1 else 0
      ensures code.error == 0 && map_idx >= 0 ==> map_idx == old(nr_maps) < MAX_USED_MAPS
      ensures code.error == 0 && map_idx >= 0 ==> StoresR7(code.insns, at, fd_array + 4 * map_idx)
      ensures code.error == 0 ==> at > 0 && CheckedAt(code.insns, at - 1, code.cleanup_label)
      ensures code.error == 0 ==>
                Leads(old(code.insns), code.insns, code.cleanup_label, old(code.data_len), code.data_len,
                      MapNew(old(code.data_len), has_value_btf, OuterType(map_type), map_idx), old(nr_maps), nr_progs)
    {
      hide Emitter.Valid, Emitter.Rest, SysBpfCode, Emitter.DebugRegCode, Emitter.CloseCode, StoresR7, CheckedAt;
      hide MapFill, MapStore, CheckCode, Idles, Leads, Emitter.RegLog, OuterType;
      var attr := code.Reserve(MAP_ATTR_SIZE);
      PatchMapAttr(attr, map_type, has_value_btf, map_idx);
      code.SysBpfCmd(MAP_CREATE, attr, MAP_ATTR_SIZE);
      ghost var c, d := code.insns, code.data_len;
      code.DebugReg(7);
      ghost var p4 := code.insns;
      code.Check();
      ghost var p := code.insns;
      at := StoreNewMap(map_idx);
      ghost var q, d2 := code.insns, code.data_len;
      if OuterType(map_type) { code.SysCloseStack(INNER_MAP_FD); }
      if code.error == 0 {
        LogIdles(code, c, d, 7);
        IdlesNot(q, true, false);
        StackCloseIdles(code, q, d2, INNER_MAP_FD);
        MapLeads(old(code.insns), p4, q, MapNew(attr, has_value_btf, OuterType(map_type), map_idx), at, old(code.data_len), old(nr_maps));
      }
    }

    lemma {:induction false} MapLeads(p: Code, p4: Code, q: Code, want: Want, at: nat, d: int, maps: nat)
      requires code.error == 0 && want.MapNew? && Idles(MapCode(p, want), p4, true, true)
      requires q == MapStore(CheckCode(p4, code.cleanup_label), want.idx)
      requires Idles(q, code.insns, true, false) && 1280 <= d == want.attr && want.attr + MAP_ATTR_SIZE <= code.data_len
      requires want.idx < 0 || want.idx == maps < MAX_USED_MAPS
      requires at == |CheckCode(p4, code.cleanup_label)|
      ensures Leads(p, code.insns, code.cleanup_label, d, code.data_len, want, maps, nr_progs)
      ensures CheckedAt(code.insns, at - 1, code.cleanup_label) && (want.idx >= 0 ==> StoresR7(code.insns, at, 4 * want.idx))
    {
      hide Leads, IdlesTo, MapCode;
      MapCreateLeads(p, p4, code.insns, code.cleanup_label, d, code.data_len, want, maps, nr_progs);
      CodeStays(CheckCode(p4, code.cleanup_label), q, code.insns, at, 4 * want.idx, code.cleanup_label);
    }

    /** Where the descriptor of a new map goes. */
    method StoreNewMap(map_idx: int) returns (ghost at: nat)
      requires code.Rest() && code.phase != Opening && nr_maps <= MAX_USED_MAPS
      modifies this`nr_maps, code`insns, code`error, code`flow, code`cmds
      ensures code.Rest() && nr_maps <= MAX_USED_MAPS && (old(code.error) != 0 ==> code.error != 0)
      ensures code.Quiet(old(code.error), old(code.flow), old(code.cmds)) && at == |old(code.insns)|
      ensures code.error == 0 ==> nr_maps == old(nr_maps) + (if map_idx >= 0 then 1 else 0) && old(code.insns) <= code.insns
      ensures code.error == 0 && map_idx >= 0 ==> map_idx == old(nr_maps) < MAX_USED_MAPS
      ensures code.error == 0 && map_idx >= 0 ==> StoresR7(code.insns, at, fd_array + 4 * map_idx)
      ensures code.error == 0 && fd_array == 0 ==> code.insns == MapStore(old(code.insns), map_idx)
    {
      hide Emitter.Valid, Emitter.Rest, StoresR7;
      at := |code.insns|;
      if map_idx < 0 {
        code.EmitStore(StxMem(4, 10, 7, INNER_MAP_FD));
      } else if map_idx != nr_maps {
        code.Abort(EDOM);
      } else {
        var idx := AddMapFd();
        at := StoreMapFd(idx);
      }
    }

    /** Between two relocations of a program being loaded. */
    ghost predicate Relocating()
      reads this, code
    {
      && code.Rest() && (code.phase == Body || code.phase == Broken)
      && nr_fd_array <= MAX_KFUNC_DESCS && fd_array == 0 && RefsOk(ksyms)
      && (code.error == 0 ==> FdSlots(ksyms, nr_fd_array, code.data_len))
    }

    /** `bpf_gen__record_attach_target` of a name that formats to `len` characters. */
    method RecordAttachTarget(len: nat, kind: int)
      requires Ready()
      modifies this`attach_kind, this`attach_len, code`error
      ensures Ready() && attach_kind == kind && attach_len == (if len < 128 then len else 127)
      ensures code.error == if len == 128 then ENOSPC else old(code.error)
    {
      attach_kind, attach_len := kind, if len < 128 then len else 127;
      if len == 128 { code.Abort(ENOSPC); }
    }

    /** `bpf_gen__record_extern`. */
    method RecordExtern(r: Relo)
      requires Ready()
      modifies this`relos
      ensures Ready() && relos == old(relos) + [r]
    {
      relos := relos + [r];
    }

    /** `bpf_gen__record_relo_core`. */
    method RecordReloCore()
      requires Ready()
      modifies this`core_relo_cnt
      ensures Ready() && core_relo_cnt == old(core_relo_cnt) + 1
    {
      core_relo_cnt := core_relo_cnt + 1;
    }

    /** `get_ksym_desc`: the symbol of that name with one more reference, or a new one. */
    method GetKsymDesc(r: Relo) returns (i: nat)
      requires RefsOk(ksyms)
      modifies this`ksyms
      ensures RefsOk(ksyms)
      ensures i < |ksyms| && ksyms[i].name == r.name
      ensures ksyms[i].ref > 1 ==> i < |old(ksyms)| && ksyms == old(ksyms)[i := old(ksyms)[i].(ref := old(ksyms)[i].ref + 1)]
      ensures ksyms[i].ref <= 1 ==> i == |old(ksyms)| && ksyms == old(ksyms) + [Ksym(r.name, 1, r.kind, 0, 0)]
      ensures ksyms[i].ref <= 1 ==> forall j :: 0 <= j < i ==> ksyms[j].name != r.name
    {
      for k := 0 to |ksyms|
        invariant ksyms == old(ksyms) && forall j :: 0 <= j < k ==> ksyms[j].name != r.name
      {
        if ksyms[k].name == r.name {
          ksyms := ksyms[k := ksyms[k].(ref := ksyms[k].ref + 1)];
          return k;
        }
      }
      ksyms := ksyms + [Ksym(r.name, 1, r.kind, 0, 0)];
      i := |ksyms| - 1;
    }

    /** A number of bytes in 32-bit words, rounded to zero. */
    function Words32(n: int): (k: int)
      ensures n % 8 == 0 ==> 4 * k == n
    {
      if n >= 0 then n / 4 else -(-n / 4)
    }

    /** `add_kfunc_btf_fd`: a reserved slot while there is one, then one in fresh data. */
    method AddKfuncBtfFd() returns (idx: int)
      requires code.Rest() && nr_fd_array <= MAX_KFUNC_DESCS
      modifies this`nr_fd_array, code`data_len, code`error
      ensures code.Rest() && (old(code.error) != 0 ==> code.error != 0) && code.data_len >= old(code.data_len)
      ensures nr_fd_array <= MAX_KFUNC_DESCS && (code.error == 0 ==> old(code.error) == 0)
      ensures code.error == 0 && fd_array == 0 ==>
                || (old(nr_fd_array) < MAX_KFUNC_DESCS && idx == MAX_USED_MAPS + old(nr_fd_array) && nr_fd_array == old(nr_fd_array) + 1)
                || (nr_fd_array == old(nr_fd_array) && 4 * idx == old(code.data_len) && 4 * idx + 4 <= code.data_len)
    {
      hide Emitter.Valid, Emitter.Rest, RoundUp8, Words32;
      code.Aligned();
      Rounded(4);
      if nr_fd_array == MAX_KFUNC_DESCS {
        var cur := code.Reserve(4);
        idx := Words32(cur - fd_array);
        return;
      }
      idx, nr_fd_array := MAX_USED_MAPS + nr_fd_array, nr_fd_array + 1;
    }

    /** The first relocation against a kfunc: it is looked up and gets a descriptor slot. */
    method LinkKfunc(i: nat, r: Relo, insn: int) returns (ghost q: Code)
      requires code.Rest() && code.phase != Opening && (code.Live() ==> !code.flow.due) && fd_array == 0
      requires i == |ksyms| - 1 && ksyms[i].kind == r.kind == KIND_FUNC && ksyms[i].ref >= 1 && ksyms[i].name == r.name
      requires forall j :: 0 <= j < i ==> ksyms[j].name != ksyms[i].name
      requires code.error == 0 ==> FdSlots(ksyms[..i], nr_fd_array, code.data_len)
      requires nr_fd_array <= MAX_KFUNC_DESCS && RefsOk(ksyms)
      modifies this`ksyms, this`nr_fd_array, code`insns, code`error, code`flow, code`cmds, code`data_len
      ensures code.Rest() && (old(code.error) != 0 ==> code.error != 0) && |ksyms| == |old(ksyms)|
      ensures code.Quiet(old(code.error), old(code.flow), old(code.cmds))
      ensures nr_fd_array <= MAX_KFUNC_DESCS && RefsOk(ksyms) && (code.error == 0 ==> FdSlots(ksyms, nr_fd_array, code.data_len))
      ensures ksyms[i].name == r.name && ksyms[i].ref >= 1 && ksyms[..i] == old(ksyms)[..i]
      ensures code.data_len >= old(code.data_len)
      ensures code.error == 0 ==>
                Stays(old(code.insns), code.insns, code.cleanup_label, Some(insn), Area(insn, insn + 8, old(code.data_len), code.data_len))
      ensures code.error == 0 ==> Patches(old(code.insns), old(code.data_len), q, code.insns, r, insn, ksyms[i], false, code.cleanup_label)
    {
      hide Emitter.Valid, Emitter.Rest, FdSlots, StoreKfuncCode, FindCode, CheckedAt, CheckCode, Idles, Stays, Emitter.RegLog, RoundUp8, Patches;
      ghost var ks, nr := ksyms[..i], nr_fd_array;
      ksyms := ksyms[i := ksyms[i].(insn := insn)];
      code.FindByName(StrSize(r.name), r.kind);
      ghost var f := code.insns;
      if !r.is_weak { code.Check(); }
      q := code.insns;
      ghost var data_len := code.data_len;
      if code.error == 0 { SlotsCount(ks, nr, old(code.data_len)); }
      var idx := AddKfuncBtfFd();
      if idx > 0x7fff {
        code.Abort(E2BIG);
        return;
      }
      ksyms := ksyms[i := ksyms[i].(off := idx)];
      if code.error == 0 {
        LinkedSlots(ks, nr, old(code.data_len), data_len, ksyms[i], nr_fd_array, code.data_len);
        assert ksyms == ks + [ksyms[i]];
      }
      code.StoreKfunc(fd_array + 4 * idx, idx);
      if code.error == 0 { KfuncGoes(old(code.insns), f, q, old(code.data_len), r, insn, idx, ksyms[i]); }
    }

    /** `emit_relo_kfunc_btf`. */
    method EmitReloKfunc(r: Relo, insn: int) returns (ghost q: Code, ghost k: Ksym, ghost seen: bool)
      requires Relocating() && (code.Live() ==> !code.flow.due) && r.kind == KIND_FUNC
      modifies this`ksyms, this`nr_fd_array, code`insns, code`error, code`flow, code`cmds, code`data_len
      ensures Relocating() && (old(code.error) != 0 ==> code.error != 0)
      ensures code.Quiet(old(code.error), old(code.flow), old(code.cmds))
      ensures code.data_len >= old(code.data_len)
      ensures code.error == 0 ==>
                Stays(old(code.insns), code.insns, code.cleanup_label, Some(insn), Area(insn, insn + 8, old(code.data_len), code.data_len))
      ensures code.error == 0 ==> Patches(old(code.insns), old(code.data_len), q, code.insns, r, insn, k, seen, code.cleanup_label)
      ensures k in ksyms && (seen <==> exists j :: 0 <= j < |old(ksyms)| && old(ksyms)[j].name == r.name)
    {
      hide Emitter.Valid, Emitter.Rest, FdSlots, Blob2BlobCode, FindCode, StoreKfuncCode, LookedUp, Idles, Stays, CopyImmsCode, Emitter.KfuncLog;
      ghost var ks, d, p := ksyms, code.data_len, code.insns;
      var i := GetKsymDesc(r);
      q, seen := [], ksyms[i].ref > 1;
      if ksyms[i].ref > 1 {
        if code.error == 0 { SlotsUpdate(ks, nr_fd_array, d, i, ksyms[i]); }
        code.MoveBlob2Blob(insn + 4, 4, ksyms[i].insn + 4);
        code.MoveBlob2Blob(insn + 2, 2, ksyms[i].insn + 2);
        if code.error == 0 { CopyBoth(p, insn, ksyms[i].insn, 2, 2, 8, d); }
      } else {
        assert ksyms[..i] == ks;
        q := LinkKfunc(i, r, insn);
      }
      d, k := code.data_len, ksyms[i];
      ghost var s := code.insns;
      ghost var d2 := code.LogKfunc(fd_array + 4 * ksyms[i].off);
      if code.error == 0 {
        SlotsKeep(ksyms, nr_fd_array, d, code.data_len);
        KfuncLogIdles(code, s, d, d2, fd_array + 4 * k.off);
        StaysLogged(p, s, code.insns, code.cleanup_label, Some(insn), Area(insn, insn + 8, old(code.data_len), d), code.data_len);
      }
    }

    lemma {:induction false} KfuncGoes(p: Code, f: Code, c: Code, d: int, r: Relo, insn: int, idx: int, k: Ksym)
      requires f == code.RegLog(FindCode(p, d, StrSize(r.name), r.kind), d + RoundUp8(StrSize(r.name)), 7)
      requires c == (if r.is_weak then f else CheckCode(f, code.cleanup_label)) && code.insns == StoreKfuncCode(c, 4 * idx, idx)
      requires MAX_USED_MAPS <= idx < MAX_FD_ARRAY_SZ || (d <= 4 * idx && 4 * idx + 4 <= code.data_len)
      requires r.kind == KIND_FUNC && k.name == r.name && k.insn == insn && k.off == idx
      ensures Patches(p, d, c, code.insns, r, insn, k, false, code.cleanup_label)
      ensures Stays(p, code.insns, code.cleanup_label, Some(insn), Area(insn, insn + 8, d, code.data_len))
    {
      hide Stays, Idles, RoundUp8, Emitter.RegLog;
      LogIdles(code, FindCode(p, d, StrSize(r.name), r.kind), d + RoundUp8(StrSize(r.name)), 7);
      KfuncStays(p, f, c, d, StrSize(r.name), r.kind, r.is_weak, code.cleanup_label, 4 * idx, idx, insn, Area(insn, insn + 8, d, code.data_len));
    }

    lemma {:induction false} CopyBoth(p: Code, insn: int, from: int, off2: int, size2: nat, size: int, d: int)
      requires code.insns == Blob2BlobCode(Blob2BlobCode(p, insn + 4, 4, from + 4), insn + off2, size2, from + off2)
      requires 0 <= off2 && off2 + size2 <= size && 8 <= size <= 16
      ensures code.insns == CopyImmsCode(p, insn, from, off2, size2)
      ensures Stays(p, code.insns, code.cleanup_label, Some(insn), Area(insn, insn + size, d, d))
    {
      CopyStays(p, insn, from, off2, size2, code.cleanup_label, Area(insn, insn + size, d, d));
    }

    lemma {:induction false} AddrGoes(p: Code, f: Code, len: int, d: int, insn: int)
      requires code.insns == KsymAddrCode(f, code.cleanup_label) && code.data_len >= d + RoundUp8(len) + 8 && len >= 0
      requires f == code.RegLog(KallsymsCode(p, len, d), d + RoundUp8(len) + 8, 7)
      ensures Idles(KallsymsCode(p, len, d), f, true, true)
      ensures Stays(p, code.insns, code.cleanup_label, Some(insn), Area(insn, insn + 16, d, code.data_len))
    {
      hide Stays, RoundUp8, Emitter.RegLog;
      Rounded(len);
      LogIdles(code, KallsymsCode(p, len, d), d + RoundUp8(len) + 8, 7);
      AddrStays(p, f, len, d, code.cleanup_label, insn, Area(insn, insn + 16, d, code.data_len));
    }

    lemma {:induction false} KsymGoes(p: Code, f: Code, c: Code, d: int, r: Relo, insn: int, k: Ksym)
      requires f == code.RegLog(FindCode(p, d, StrSize(r.name), r.kind), d + RoundUp8(StrSize(r.name)), 7)
      requires c == (if r.is_weak then f else CheckCode(f, code.cleanup_label)) && code.insns == StoreKsymCode(c) && code.data_len >= d
      requires r.kind == KIND_VAR && !r.is_typeless && k.name == r.name && k.insn == insn
      ensures Patches(p, d, c, code.insns, r, insn, k, false, code.cleanup_label)
      ensures Stays(p, code.insns, code.cleanup_label, Some(insn), Area(insn, insn + 16, d, code.data_len))
    {
      hide Stays, Idles, RoundUp8, Emitter.RegLog;
      LogIdles(code, FindCode(p, d, StrSize(r.name), r.kind), d + RoundUp8(StrSize(r.name)), 7);
      KsymStays(p, f, c, d, StrSize(r.name), r.kind, r.is_weak, code.cleanup_label, insn, Area(insn, insn + 16, d, code.data_len));
    }

    lemma {:induction false} CopyGoes(p: Code, d: int, r: Relo, insn: int, k: Ksym)
      requires code.insns == CopyKsymCode(p, insn, k.insn) && r.kind == KIND_VAR && !r.is_typeless && k.name == r.name
      ensures Patches(p, d, [], code.insns, r, insn, k, true, code.cleanup_label)
      ensures Stays(p, code.insns, code.cleanup_label, Some(insn), Area(insn, insn + 16, d, d))
    {
      hide Stays;
      CopyKsymStays(p, insn, k.insn, code.cleanup_label, Area(insn, insn + 16, d, d));
    }

    /** The log of a ksym's relocation changes nothing of what the relocation does. */
    method LogSymbol(ghost p: Code, ghost insn: int, ghost d: int, ghost size: int)
      requires code.Rest() && code.phase != Opening && (code.Live() ==> !code.flow.due)
      requires code.error == 0 ==> Stays(p, code.insns, code.cleanup_label, Some(insn), Area(insn, insn + size, d, code.data_len))
      modifies code`insns, code`error, code`flow, code`cmds, code`data_len
      ensures code.Rest() && (old(code.error) != 0 ==> code.error == old(code.error)) && code.data_len >= old(code.data_len)
      ensures code.Quiet(old(code.error), old(code.flow), old(code.cmds)) && (code.error == 0 ==> old(code.error) == 0)
      ensures code.error == 0 ==> Stays(p, code.insns, code.cleanup_label, Some(insn), Area(insn, insn + size, d, code.data_len))
      ensures code.error == 0 ==> old(code.insns) <= code.insns
    {
      hide Emitter.Valid, Emitter.Rest, Stays, Idles, Emitter.KsymLog;
      ghost var s, d1 := code.insns, code.data_len;
      ghost var d2 := code.LogKsym();
      if code.error == 0 {
        KsymLogIdles(code, s, d1, d2);
        StaysLogged(p, s, code.insns, code.cleanup_label, Some(insn), Area(insn, insn + size, d, d1), code.data_len);
      }
    }

    /** `emit_relo_ksym_typeless`. */
    method EmitReloKsymTypeless(r: Relo, insn: int) returns (ghost q: Code, ghost k: Ksym, ghost seen: bool)
      requires Relocating() && (code.Live() ==> !code.flow.due) && r.kind == KIND_VAR && r.is_typeless
      modifies this`ksyms, code`insns, code`error, code`flow, code`cmds, code`data_len
      ensures Relocating() && (old(code.error) != 0 ==> code.error != 0)
      ensures code.Quiet(old(code.error), old(code.flow), old(code.cmds))
      ensures code.data_len >= old(code.data_len)
      ensures code.error == 0 ==>
                Stays(old(code.insns), code.insns, code.cleanup_label, Some(insn), Area(insn, insn + 16, old(code.data_len), code.data_len))
      ensures code.error == 0 ==> Patches(old(code.insns), old(code.data_len), q, code.insns, r, insn, k, seen, code.cleanup_label)
      ensures k in ksyms && (seen <==> exists j :: 0 <= j < |old(ksyms)| && old(ksyms)[j].name == r.name)
    {
      hide Emitter.Valid, Emitter.Rest, FdSlots, Blob2BlobCode, KallsymsCode, KsymAddrCode;
      hide Idles, Stays, CopyImmsCode, Emitter.KsymLog, Emitter.RegLog, RoundUp8;
      ghost var ks, d, p := ksyms, code.data_len, code.insns;
      var i := GetKsymDesc(r);
      q, seen := [], ksyms[i].ref > 1;
      if ksyms[i].ref > 1 {
        if code.error == 0 { SlotsUpdate(ks, nr_fd_array, d, i, ksyms[i]); }
        code.MoveBlob2Blob(insn + 4, 4, ksyms[i].insn + 4);
        code.MoveBlob2Blob(insn + 12, 4, ksyms[i].insn + 12);
        if code.error == 0 { CopyBoth(p, insn, ksyms[i].insn, 12, 4, 16, d); }
      } else {
        assert forall j :: 0 <= j < |ks| ==> ksyms[j] == ks[j];
        ksyms := ksyms[i := SetTypeless(ksyms[i]).(insn := insn)];
        if code.error == 0 {
          SlotsAppend(ks, nr_fd_array, d, ksyms[i], nr_fd_array, d);
          assert ksyms == ks + [ksyms[i]];
        }
        code.KallsymsLookupName(StrSize(r.name));
        q := code.insns;
        code.StoreKsymAddr();
        if code.error == 0 { AddrGoes(p, q, StrSize(r.name), d, insn); }
      }
      k := ksyms[i];
      LogSymbol(p, insn, d, 16);
      if code.error == 0 { SlotsKeep(ksyms, nr_fd_array, d, code.data_len); }
    }

    /** `emit_relo_ksym_btf`. */
    method EmitReloKsymBtf(r: Relo, insn: int) returns (ghost q: Code, ghost k: Ksym, ghost seen: bool)
      requires Relocating() && (code.Live() ==> !code.flow.due) && r.kind == KIND_VAR && !r.is_typeless
      modifies this`ksyms, code`insns, code`error, code`flow, code`cmds, code`data_len
      ensures Relocating() && (old(code.error) != 0 ==> code.error != 0)
      ensures code.Quiet(old(code.error), old(code.flow), old(code.cmds))
      ensures code.data_len >= old(code.data_len)
      ensures code.error == 0 ==>
                Stays(old(code.insns), code.insns, code.cleanup_label, Some(insn), Area(insn, insn + 16, old(code.data_len), code.data_len))
      ensures code.error == 0 ==> Patches(old(code.insns), old(code.data_len), q, code.insns, r, insn, k, seen, code.cleanup_label)
      ensures k in ksyms && (seen <==> exists j :: 0 <= j < |old(ksyms)| && old(ksyms)[j].name == r.name)
    {
      hide Emitter.Valid, Emitter.Rest, FdSlots, FindCode, StoreKsymCode, CheckedAt, CopyKsymCode;
      hide CheckCode, Idles, Stays, Emitter.KsymLog, Emitter.RegLog, RoundUp8, Patches;
      ghost var ks, d, p := ksyms, code.data_len, code.insns;
      var i := GetKsymDesc(r);
      q, seen := [], ksyms[i].ref > 1;
      if ksyms[i].ref > 1 {
        if code.error == 0 { SlotsUpdate(ks, nr_fd_array, d, i, ksyms[i]); }
        code.CopyKsymBtf(insn, ksyms[i].insn);
        if code.error == 0 { CopyGoes(p, d, r, insn, ksyms[i]); }
      } else {
        assert forall j :: 0 <= j < |ks| ==> ksyms[j] == ks[j];
        ksyms := ksyms[i := ksyms[i].(insn := insn)];
        if code.error == 0 {
          SlotsAppend(ks, nr_fd_array, d, ksyms[i], nr_fd_array, d);
          assert ksyms == ks + [ksyms[i]];
        }
        code.FindByName(StrSize(r.name), r.kind);
        ghost var f := code.insns;
        if !r.is_weak { code.Check(); }
        q := code.insns;
        code.StoreKsymBtf();
        if code.error == 0 { KsymGoes(p, f, q, d, r, insn, ksyms[i]); }
      }
      k := ksyms[i];
      ghost var n := code.insns;
      LogSymbol(p, insn, d, 16);
      if code.error == 0 {
        SlotsKeep(ksyms, nr_fd_array, d, code.data_len);
        PatchesOn(p, d, q, n, code.insns, r, insn, k, seen, code.cleanup_label);
      }
    }

    /** `emit_relo`. */
    method EmitRelo(r: Relo, insns_off: int) returns (ghost s: Patch)
      requires Relocating() && (code.Live() ==> !code.flow.due)
      modifies this`ksyms, this`nr_fd_array, code`insns, code`error, code`flow, code`cmds, code`data_len
      ensures Relocating() && (old(code.error) != 0 ==> code.error != 0)
      ensures code.Quiet(old(code.error), old(code.flow), old(code.cmds))
      ensures code.data_len >= old(code.data_len)
      ensures code.error == 0 ==>
                Stays(old(code.insns), code.insns, code.cleanup_label, None,
                      Area(insns_off + 8 * r.insn_idx, insns_off + 8 * r.insn_idx + ReloSize(r), old(code.data_len), code.data_len))
      ensures code.error == 0 ==> r.kind == KIND_VAR || r.kind == KIND_FUNC
      ensures code.error == 0 ==> PatchOk(s, r, insns_off, code.cleanup_label) && s.before == old(code.insns) && s.after == code.insns
      ensures code.error == 0 ==> s.k in ksyms && (s.seen <==> exists j :: 0 <= j < |old(ksyms)| && old(ksyms)[j].name == r.name)
    {
      hide Emitter.Valid, Emitter.Rest, FdSlots, Patches, Stays;
      var insn := insns_off + 8 * r.insn_idx;
      ghost var q: Code, k, seen := [], Ksym("", 0, 0, 0, 0), false;
      code.Load(8, insn);
      if r.kind == KIND_VAR {
        if r.is_typeless { q, k, seen := EmitReloKsymTypeless(r, insn); } else { q, k, seen := EmitReloKsymBtf(r, insn); }
      } else if r.kind == KIND_FUNC {
        q, k, seen := EmitReloKfunc(r, insn);
      } else {
        code.Abort(EDOM);
      }
      if code.error == 0 {
        StaysAt(old(code.insns), code.insns, code.cleanup_label, insn, Area(insn, insn + ReloSize(r), old(code.data_len), code.data_len));
      }
      s := Patch(old(code.insns), old(code.data_len), q, code.insns, k, seen);
    }

    /** `emit_relos`: the codes of all relocations, in order. */
    method EmitRelos(insns_off: int, ghost size: int) returns (ghost ps: seq<Patch>)
      requires Relocating() && (code.Live() ==> !code.flow.due)
      modifies this`ksyms, this`nr_fd_array, code`insns, code`error, code`flow, code`cmds, code`data_len
      ensures Relocating() && (old(code.error) != 0 ==> code.error != 0)
      ensures code.Quiet(old(code.error), old(code.flow), old(code.cmds))
      ensures code.data_len >= old(code.data_len)
      ensures code.error == 0 && RelosInside(relos, size) ==>
                Stays(old(code.insns), code.insns, code.cleanup_label, None, Area(insns_off, insns_off + size, old(code.data_len), code.data_len))
      ensures code.error == 0 ==> forall r :: r in relos ==> r.kind == KIND_VAR || r.kind == KIND_FUNC
      ensures code.error == 0 ==> |ps| == |relos| && InOrder(ps, relos, old(code.insns), code.insns, insns_off, code.cleanup_label)
    {
      hide Emitter.Valid, Emitter.Rest, FdSlots, PatchOk, InOrder, Stays;
      ps := [];
      InOrderNone(relos, code.insns, insns_off, code.cleanup_label);
      StaysNot(code.insns, code.cleanup_label, Area(insns_off, insns_off + size, code.data_len, code.data_len));
      for i := 0 to |relos|
        invariant Relocating() && (old(code.error) != 0 ==> code.error != 0)
        invariant code.Quiet(old(code.error), old(code.flow), old(code.cmds))
        invariant code.data_len >= old(code.data_len)
        invariant code.error == 0 && RelosInside(relos, size) ==>
                    Stays(old(code.insns), code.insns, code.cleanup_label, None, Area(insns_off, insns_off + size, old(code.data_len), code.data_len))
        invariant code.error == 0 ==> forall j :: 0 <= j < i ==> relos[j].kind == KIND_VAR || relos[j].kind == KIND_FUNC
        invariant code.error == 0 ==> |ps| == i && InOrder(ps, relos, old(code.insns), code.insns, insns_off, code.cleanup_label)
      {
        ghost var p, d := code.insns, code.data_len;
        ghost var s := EmitRelo(relos[i], insns_off);
        if code.error == 0 {
          InOrderOn(ps, relos, old(code.insns), s, insns_off, code.cleanup_label);
          if RelosInside(relos, size) {
            RelosGo(old(code.insns), p, code.insns, code.cleanup_label, relos[i], insns_off, size, old(code.data_len), d, code.data_len);
          }
        }
        ps := ps + [s];
      }
    }

    /** The code that closes what a symbol's relocations opened. */
    method CloseKsym(k: Ksym)
      requires code.Rest() && code.phase != Opening && nr_fd_array <= MAX_KFUNC_DESCS && fd_array == 0
      modifies this`nr_fd_array, code`insns, code`error, code`flow, code`cmds, code`data_len
      ensures code.Rest() && (old(code.error) != 0 ==> code.error != 0) && code.data_len >= old(code.data_len)
      ensures code.Quiet(old(code.error), old(code.flow), old(code.cmds))
      ensures nr_fd_array == old(nr_fd_array) - if k.kind == KIND_FUNC && k.off < MAX_FD_ARRAY_SZ then 1 else 0
      ensures code.error == 0 ==> old(code.insns) <= code.insns && FdClosed(code.insns, |old(code.insns)|, k)
      ensures code.error == 0 ==> Idles(old(code.insns), code.insns, true, false)
      ensures FdOff(k) == None ==> code.insns == old(code.insns)
    {
      hide Emitter.Valid, Emitter.Rest, ClosesBlobAt, Emitter.CloseCode, Idles;
      ghost var p, d := code.insns, code.data_len;
      if k.kind == KIND_VAR && !Typeless(k) {
        code.SysCloseBlob(k.insn + 12);
      } else if k.kind == KIND_FUNC {
        code.SysCloseBlob(fd_array + 4 * k.off);
        if k.off < MAX_FD_ARRAY_SZ { nr_fd_array := nr_fd_array - 1; }
      }
      if code.error == 0 {
        IdlesNot(p, true, false);
        if FdOff(k) != None { BlobCloseIdles(code, p, d, FdOff(k).value); }
      }
    }

    /** `cleanup_relos`: every descriptor is closed and every reserved slot is given back; `at` says where. */
    method CleanupRelos() returns (ghost at: seq<nat>)
      requires Relocating()
      modifies this`ksyms, this`relos, this`core_relo_cnt, this`nr_fd_array
      modifies code`insns, code`error, code`flow, code`cmds, code`data_len
      ensures code.Rest() && (old(code.error) != 0 ==> code.error != 0) && code.data_len >= old(code.data_len)
      ensures code.Quiet(old(code.error), old(code.flow), old(code.cmds))
      ensures ksyms == [] && relos == [] && core_relo_cnt == 0 && nr_fd_array <= MAX_KFUNC_DESCS
      ensures code.error == 0 ==> nr_fd_array == 0
      ensures code.error == 0 ==> Idles(old(code.insns), code.insns, true, false)
      ensures code.error == 0 ==> |at| == |old(ksyms)| && forall i :: 0 <= i < |at| ==> FdClosed(code.insns, at[i], old(ksyms)[i])
    {
      hide Emitter.Valid, Emitter.Rest, FdClosed, Idles, FdSlots, RefsOk;
      if code.error == 0 { SlotsReserved(ksyms, nr_fd_array, code.data_len); }
      IdlesNot(code.insns, true, false);
      at := [];
      assert ksyms[..|ksyms|] == ksyms;
      for i := 0 to |ksyms|
        invariant code.Rest() && (old(code.error) != 0 ==> code.error != 0) && code.data_len >= old(code.data_len)
        invariant code.Quiet(old(code.error), old(code.flow), old(code.cmds)) && ksyms == old(ksyms)
        invariant nr_fd_array <= MAX_KFUNC_DESCS && nr_fd_array == old(nr_fd_array) - Reserved(ksyms[..i])
        invariant code.error == 0 ==> Idles(old(code.insns), code.insns, true, false)
        invariant code.error == 0 ==> |at| == i && forall j :: 0 <= j < i ==> FdClosed(code.insns, at[j], ksyms[j])
      {
        ghost var p, before := code.insns, at;
        assert ksyms[..i + 1] == ksyms[..i] + [ksyms[i]];
        ReservedAppend(ksyms[..i], ksyms[i]);
        CloseKsym(ksyms[i]);
        at := at + [|p|];
        if code.error == 0 {
          IdlesOn(old(code.insns), p, code.insns, true, false);
          forall j | 0 <= j < i ensures FdClosed(code.insns, at[j], ksyms[j]) { ClosedStays(p, code.insns, before[j], ksyms[j]); }
        }
      }
      ksyms, relos, core_relo_cnt := [], [], 0;
    }

    /** Pointers into the blob, and what is known at run time, go to the attributes of a program. */
    method PatchProgAttr(attr: int, license: int, insns: int, func_info: int, line_info: int, core_relos: int)
      requires code.Rest() && code.phase != Opening
      modifies code`insns, code`error, code`flow, code`cmds
      ensures code.Rest() && (old(code.error) != 0 ==> code.error != 0)
      ensures code.Quiet(old(code.error), old(code.flow), old(code.cmds))
      ensures code.error == 0 ==> old(code.error) == 0
      ensures code.error == 0 && fd_array == 0 ==> forall want: Want ::
                want.ProgNew? && want.attr == attr && want.license == license && want.insns == insns && want.func_info == func_info
                && want.line_info == line_info && want.core_relos == core_relos
                ==> code.insns == ProgFill(old(code.insns), want)
    {
      hide Emitter.Valid, Emitter.Rest, RelStoreCode, Stack2BlobCode, LogCode;
      code.RelStore(attr + 16, license);
      code.RelStore(attr + 8, insns);
      code.RelStore(attr + 80, func_info);
      code.RelStore(attr + 96, line_info);
      code.RelStore(attr + 128, core_relos);
      code.RelStore(attr + 120, fd_array);
      PatchLog(attr + 24, attr + 28, attr + 32);
      code.MoveStack2Blob(attr + 72, 4, BTF_FD);
    }

    /** The attach target is looked up; its id and descriptor go to the attributes. */
    method PatchAttach(attr: int) returns (ghost f: Code)
      requires code.Rest() && code.phase != Opening && (code.Live() ==> !code.flow.due) && attach_len <= 127
      modifies code`insns, code`error, code`flow, code`cmds, code`data_len
      ensures code.Rest() && (old(code.error) != 0 ==> code.error != 0) && code.data_len >= old(code.data_len)
      ensures code.Quiet(old(code.error), old(code.flow), old(code.cmds))
      ensures code.error == 0 ==> code.insns == AttachStore(f, code.cleanup_label, attr)
      ensures code.error == 0 ==> Idles(FindCode(old(code.insns), old(code.data_len), attach_len + 1, attach_kind), f, true, true)
    {
      hide Emitter.Valid, Emitter.Rest, FindCode, CheckedAt, Idles, Emitter.RegLog, RoundUp8;
      code.FindByName(attach_len + 1, attach_kind);
      f := code.insns;
      code.Check();
      code.Load(0, attr);
      code.EmitStore(StxMem(4, 0, 7, 108));
      code.ShiftR7();
      code.EmitStore(StxMem(4, 0, 7, 112));
      LogIdles(code, FindCode(old(code.insns), old(code.data_len), attach_len + 1, attach_kind), old(code.data_len) + RoundUp8(attach_len + 1), 7);
    }

    /** The program's data: license, instructions, debug records, relocations, attributes. */
    method ReserveProg(license_size: nat, insns_size: nat, func_size: nat, line_size: nat)
      returns (license: int, insns: int, func_info: int, line_info: int, relos_off: int, attr: int)
      requires code.Rest() && license_size < 0x1_0000_0000 && insns_size < 0x1_0000_0000
      requires func_size < 0x1_0000_0000 && line_size < 0x1_0000_0000
      modifies code`data_len, code`error
      ensures code.Rest() && (old(code.error) != 0 ==> code.error != 0) && code.data_len >= old(code.data_len)
      ensures code.error == 0 ==> old(code.error) == 0
      ensures code.error == 0 ==>
                && license == old(code.data_len) && insns == license + RoundUp8(license_size) && func_info == insns + RoundUp8(insns_size)
                && line_info == func_info + RoundUp8(func_size) && relos_off == line_info + RoundUp8(line_size)
                && attr == relos_off + RoundUp8(16 * core_relo_cnt % 0x1_0000_0000) && code.data_len == attr + RoundUp8(PROG_ATTR_SIZE)
    {
      hide Emitter.Valid, Emitter.Rest, RoundUp8;
      license := code.Reserve(license_size);
      insns := code.Reserve(insns_size);
      func_info := code.Reserve(func_size);
      line_info := code.Reserve(line_size);
      relos_off := code.Reserve(16 * core_relo_cnt % 0x1_0000_0000);
      attr := code.Reserve(PROG_ATTR_SIZE);
    }

    /** Relocations, the command itself, and the closing of what the relocations opened. */
    method IssueProgLoad(insns: int, attr: int, ghost size: int, ghost want: Want) returns (ghost a: Code, ghost r: Code)
      requires Ready() && want.ProgNew?
      requires code.error == 0 ==> want.attr == attr && want.insns == insns && code.data_len >= attr + PROG_ATTR_SIZE
      requires code.error == 0 ==> want.target == if attach_kind == 0 then None else Some(Target(code.data_len, attach_len + 1, attach_kind))
      modifies this`ksyms, this`relos, this`core_relo_cnt, this`nr_fd_array, this`attach_kind
      modifies code`insns, code`error, code`flow, code`cmds, code`data_len
      ensures code.Rest() && (old(code.error) != 0 ==> code.error != 0) && (code.error == 0 ==> code.data_len >= 4 * MAX_FD_ARRAY_SZ)
      ensures Issued1(old(code.cmds), (PROG_LOAD, attr, PROG_ATTR_SIZE))
      ensures ksyms == [] && relos == [] && core_relo_cnt == 0 && attach_kind == 0 && nr_fd_array <= MAX_KFUNC_DESCS
      ensures code.error == 0 ==> nr_fd_array == 0 && code.data_len >= old(code.data_len)
      ensures code.error == 0 ==> Attaches(old(code.insns), a, want, code.cleanup_label)
      ensures code.error == 0 && old(RelosInside(relos, size)) ==> Stays(a, r, code.cleanup_label, None, ProgArea(want, size, code.data_len))
      ensures code.error == 0 ==> Idles(SysBpfCode(r, PROG_LOAD, attr, PROG_ATTR_SIZE), code.insns, true, false)
    {
      hide Emitter.Valid, Emitter.Rest, SysBpfCode, Emitter.DebugRegCode, Emitter.CloseCode, ClosesBlobAt;
      hide Idles, Stays, Attaches, Emitter.RegLog, AttachStore, InOrder, FdClosed, FindCode;
      a := Attach(attr, want);
      ghost var d1 := code.data_len;
      ghost var ps := EmitRelos(insns, size);
      r := code.insns;
      ghost var d2 := code.data_len;
      code.SysBpfCmd(PROG_LOAD, attr, PROG_ATTR_SIZE);
      ghost var c, d := code.insns, code.data_len;
      code.DebugReg(7);
      ghost var c2 := code.insns;
      if code.error == 0 {
        SlotsKeep(ksyms, nr_fd_array, d, code.data_len);
        LogIdles(code, c, d, 7);
      }
      ghost var at := CleanupRelos();
      ghost var c3 := code.insns;
      CloseTarget(attr);
      if code.error == 0 {
        IdlesThrice(c, c2, c3, code.insns);
        if old(RelosInside(relos, size)) {
          StaysWider(a, r, code.cleanup_label, None, Area(insns, insns + size, d1, d2), ProgArea(want, size, code.data_len));
        }
      }
    }

    /** The attach target, if there is one. */
    method Attach(attr: int, ghost want: Want) returns (ghost a: Code)
      requires code.Rest() && code.phase != Opening && (code.Live() ==> !code.flow.due) && attach_len <= 127 && want.ProgNew?
      requires code.error == 0 ==> want.attr == attr
      requires code.error == 0 ==> want.target == if attach_kind == 0 then None else Some(Target(code.data_len, attach_len + 1, attach_kind))
      modifies code`insns, code`error, code`flow, code`cmds, code`data_len
      ensures code.Rest() && (old(code.error) != 0 ==> code.error != 0) && code.data_len >= old(code.data_len)
      ensures code.Quiet(old(code.error), old(code.flow), old(code.cmds)) && (code.error == 0 ==> old(code.error) == 0)
      ensures a == code.insns && (code.error == 0 ==> Attaches(old(code.insns), a, want, code.cleanup_label))
    {
      hide Emitter.Valid, Emitter.Rest, FindCode, AttachStore, Idles;
      if attach_kind != 0 { ghost var f := PatchAttach(attr); }
      a := code.insns;
    }

    /** The descriptor of the attach target's BTF is closed. */
    method CloseTarget(attr: int)
      requires code.Rest() && code.phase != Opening
      modifies this`attach_kind, code`insns, code`error, code`flow, code`cmds, code`data_len
      ensures code.Rest() && (old(code.error) != 0 ==> code.error != 0) && code.data_len >= old(code.data_len) && attach_kind == 0
      ensures code.Quiet(old(code.error), old(code.flow), old(code.cmds)) && (code.error == 0 ==> old(code.error) == 0)
      ensures code.error == 0 ==> Idles(old(code.insns), code.insns, true, false)
    {
      hide Emitter.Valid, Emitter.Rest, Emitter.CloseCode, Idles, ClosesBlobAt;
      ghost var p, d := code.insns, code.data_len;
      IdlesNot(p, true, false);
      if attach_kind != 0 {
        code.SysCloseBlob(attr + 112);
        attach_kind := 0;
        BlobCloseIdles(code, p, d, attr + 112);
      }
    }

    lemma {:induction false} IdlesThrice(p: Code, q: Code, r: Code, n: Code)
      requires Idles(p, q, true, true) && Idles(q, r, true, false) && Idles(r, n, true, false)
      ensures Idles(p, n, true, false)
    {
      hide Idles;
      IdlesLess(p, q, true, true, true, false);
      IdlesOn(p, q, r, true, false);
      IdlesOn(p, r, n, true, false);
    }

    /** The program's data, and its attributes but for the attach target. */
    method StartProg(license_size: nat, insns_size: nat, func_size: nat, line_size: nat, ghost want: Want) returns (insns: int, attr: int)
      requires Ready() && license_size < 0x1_0000_0000 && insns_size < 0x1_0000_0000
      requires func_size < 0x1_0000_0000 && line_size < 0x1_0000_0000
      requires want == ProgWant(code.data_len, license_size, insns_size, func_size, line_size, core_relo_cnt, attach_kind, attach_len)
      modifies code`insns, code`error, code`flow, code`cmds, code`data_len
      ensures Ready() && (old(code.error) != 0 ==> code.error != 0) && code.Quiet(old(code.error), old(code.flow), old(code.cmds))
      ensures code.error == 0 ==>
                && old(code.error) == 0 && attr == want.attr && insns == want.insns
                && code.data_len == attr + RoundUp8(PROG_ATTR_SIZE) >= attr + PROG_ATTR_SIZE
      ensures code.error == 0 ==> code.insns == ProgFill(old(code.insns), want)
    {
      hide Emitter.Valid, Emitter.Rest, RoundUp8, ProgFill, ProgWant;
      Rounded(PROG_ATTR_SIZE);
      ProgWantIs(old(code.data_len), license_size, insns_size, func_size, line_size, core_relo_cnt, attach_kind, attach_len);
      var license, func_info, line_info, relos_off;
      license, insns, func_info, line_info, relos_off, attr := ReserveProg(license_size, insns_size, func_size, line_size);
      PatchProgAttr(attr, license, insns, func_info, line_info, relos_off);
    }

    /** `bpf_gen__prog_load`. The program's descriptor goes to its slot of the stack, right after the check. */
    method ProgLoad(license_size: nat, insns_size: nat, func_size: nat, line_size: nat)
      requires Ready() && license_size < 0x1_0000_0000 && insns_size < 0x1_0000_0000
      requires func_size < 0x1_0000_0000 && line_size < 0x1_0000_0000
      modifies this`ksyms, this`relos, this`core_relo_cnt, this`nr_fd_array, this`attach_kind, this`nr_progs
      modifies code`insns, code`error, code`flow, code`cmds, code`data_len
      ensures Ready() && (old(code.error) != 0 ==> code.error != 0) && nr_progs == old(nr_progs) + 1
      ensures Issued1(old(code.cmds), (PROG_LOAD, old(code.data_len) + RoundUp8(license_size) + RoundUp8(insns_size) + RoundUp8(func_size)
                                         + RoundUp8(line_size) + RoundUp8(16 * old(core_relo_cnt) % 0x1_0000_0000), PROG_ATTR_SIZE))
      ensures relos == [] && core_relo_cnt == 0 && attach_kind == 0
      ensures code.error == 0 ==> |code.insns| >= 2 && CheckedAt(code.insns, |code.insns| - 2, code.cleanup_label)
      ensures code.error == 0 ==> code.insns[|code.insns| - 1] == Stx(4, 10, 7, S16(PROG_FD + 4 * old(nr_progs)))
      ensures code.error == 0 && old(nr_progs) < MAX_USED_PROGS
              && NoWrap(license_size) && NoWrap(insns_size) && NoWrap(func_size) && NoWrap(line_size)
              && old(RelosInside(relos, insns_size)) ==>
                Leads(old(code.insns), code.insns, code.cleanup_label, old(code.data_len), code.data_len,
                      ProgWant(old(code.data_len), license_size, insns_size, func_size, line_size,
                               old(core_relo_cnt), old(attach_kind), old(attach_len)),
                      nr_maps, old(nr_progs))
    {
      hide Emitter.Valid, Emitter.Rest, RoundUp8, Attaches, Stays, Idles, ProgFill;
      hide ProgArea, SysBpfCode, CheckCode, Leads, CheckedAt, RelosInside, ProgWant, NoWrap;
      ghost var want := ProgWant(code.data_len, license_size, insns_size, func_size, line_size, core_relo_cnt, attach_kind, attach_len);
      ghost var inside := RelosInside(relos, insns_size);
      ProgWantIs(code.data_len, license_size, insns_size, func_size, line_size, core_relo_cnt, attach_kind, attach_len);
      var insns, attr := StartProg(license_size, insns_size, func_size, line_size, want);
      ghost var a, r := IssueProgLoad(insns, attr, insns_size, want);
      ghost var c := code.insns;
      code.Check();
      code.EmitStore(StxMem(4, 10, 7, PROG_FD + 4 * nr_progs));
      if code.error == 0 { ProgGoes(old(code.insns), a, r, c, want, license_size, insns_size, func_size, line_size, old(core_relo_cnt), inside); }
      nr_progs := nr_progs + 1;
    }

    lemma {:induction false} ProgGoes(p: Code, a: Code, r: Code, c: Code, want: Want, license: int, insns: int, func: int,
                                      line: int, cores: int, inside: bool)
      requires want.ProgNew? && 1280 <= want.license && want.insns == want.license + RoundUp8(license)
      requires want.func_info == want.insns + RoundUp8(insns)
      requires want.attr == want.func_info + RoundUp8(func) + RoundUp8(line) + RoundUp8(16 * cores % 0x1_0000_0000)
      requires license >= 0 && insns >= 0 && func >= 0 && line >= 0 && code.data_len >= want.attr + RoundUp8(PROG_ATTR_SIZE)
      requires Attaches(ProgFill(p, want), a, want, code.cleanup_label) && Idles(SysBpfCode(r, PROG_LOAD, want.attr, PROG_ATTR_SIZE), c, true, false)
      requires inside ==> Stays(a, r, code.cleanup_label, None, ProgArea(want, insns, code.data_len))
      requires code.insns == CheckCode(c, code.cleanup_label) + [Stx(4, 10, 7, S16(PROG_FD + 4 * nr_progs))]
      ensures |code.insns| >= 2 && CheckedAt(code.insns, |code.insns| - 2, code.cleanup_label)
      ensures code.insns[|code.insns| - 1] == Stx(4, 10, 7, S16(PROG_FD + 4 * nr_progs))
      ensures nr_progs < MAX_USED_PROGS && NoWrap(insns) && inside ==>
                Leads(p, code.insns, code.cleanup_label, want.license, code.data_len, want, nr_maps, nr_progs)
    {
      hide Leads, Idles, Attaches, Stays, ProgFill, SysBpfCode, RoundUp8;
      Rounded(license);
      Rounded(insns);
      Rounded(func);
      Rounded(line);
      Rounded(16 * cores % 0x1_0000_0000);
      Rounded(PROG_ATTR_SIZE);
      if nr_progs < MAX_USED_PROGS && NoWrap(insns) && inside {
        ProgLoadLeads(p, a, r, c, code.insns, code.cleanup_label, want.license, code.data_len, want, insns, nr_maps, nr_progs);
      }
    }

    /** An initial value the context provides is copied over the one in the blob. */
    method CopyInitialValue(map_idx: int, value: int, value_size: int)
      requires code.Rest() && code.phase != Opening
      modifies code`insns, code`error, code`flow, code`cmds
      ensures code.Rest() && (old(code.error) != 0 ==> code.error != 0) && (code.error == 0 ==> old(code.error) == 0)
      ensures code.Quiet(old(code.error), old(code.flow), old(code.cmds))
      ensures code.error == 0 ==> code.insns == InitCode(old(code.insns), map_idx, value, value_size)
    {
      hide Emitter.Valid, Accepts, OpeningSlot, CleanupSlot, Learn;
      TestInitialValue(map_idx);
      code.EmitLoad(1, value);
      code.EmitPlain(MovImm(2, value_size));
      code.EmitPlain(Call(CopyFromUser));
    }

    /** The initial value from the context goes to R3; if there is none, the four slots that follow are skipped. */
    method TestInitialValue(map_idx: int)
      requires code.Rest() && code.phase != Opening
      modifies code`insns, code`error, code`flow, code`cmds
      ensures code.Valid() && (old(code.error) != 0 ==> code.error != 0)
      ensures code.Quiet(old(code.error), old(code.flow), old(code.cmds))
      ensures code.error == 0 ==>
                old(code.error) == 0 && code.insns == old(code.insns) + [Ldx(8, 3, 6, S16(CTX_SIZE + MAP_DESC_SIZE * map_idx))] + [Jmp(Jeq, 3, 0, 4)]
      ensures code.Live() ==> code.flow.know == Any && code.flow.pend == {|code.insns| + 4}
    {
      hide Emitter.Valid, Accepts, OpeningSlot, CleanupSlot, Learn;
      code.EmitPlain(LdxMem(8, 3, 6, CTX_SIZE + MAP_DESC_SIZE * map_idx));
      code.EmitJump(Jeq, 3, 0, 4);
    }

    /** An element command on map `map_idx`, with its key and value in the blob. */
    method IssueUpdate(map_idx: int, attr: int, key: int, value: int) returns (ghost p4: Code)
      requires Ready()
      modifies code`insns, code`error, code`flow, code`cmds, code`data_len
      ensures Ready() && (old(code.error) != 0 ==> code.error != 0)
      ensures Issued1(old(code.cmds), (MAP_UPDATE_ELEM, attr, ELEM_ATTR_SIZE))
      ensures code.error == 0 ==> code.insns == CheckCode(p4, code.cleanup_label) && old(code.error) == 0 && code.data_len >= old(code.data_len)
      ensures code.error == 0 ==> Idles(ElemCode(old(code.insns), attr, map_idx, key, value), p4, true, true)
    {
      hide Emitter.Valid, Emitter.Rest, RelStoreCode, Blob2BlobCode, SysBpfCode, Emitter.DebugRegCode, Idles, Emitter.RegLog, CheckCode, CheckedAt;
      code.MoveBlob2Blob(attr, 4, fd_array + 4 * map_idx);
      code.RelStore(attr + 8, key);
      code.RelStore(attr + 16, value);
      code.SysBpfCmd(MAP_UPDATE_ELEM, attr, ELEM_ATTR_SIZE);
      ghost var c, d := code.insns, code.data_len;
      code.DebugReg(7);
      p4 := code.insns;
      code.Check();
      LogIdles(code, c, d, 7);
    }

    /** `bpf_gen__map_update_elem`. */
    method MapUpdateElem(map_idx: int, value_size: nat)
      requires Ready() && value_size < 0x1_0000_0000
      modifies code`insns, code`error, code`flow, code`cmds, code`data_len
      ensures Ready() && (old(code.error) != 0 ==> code.error != 0)
      ensures Issued1(old(code.cmds), (MAP_UPDATE_ELEM, old(code.data_len) + RoundUp8(value_size) + 8, ELEM_ATTR_SIZE))
      ensures code.error == 0 ==> CheckedAt(code.insns, |code.insns| - 1, code.cleanup_label)
      ensures code.error == 0 && 0 <= map_idx < nr_maps && NoWrap(value_size) ==>
                Leads(old(code.insns), code.insns, code.cleanup_label, old(code.data_len), code.data_len,
                      ElemWant(old(code.data_len), map_idx, value_size), nr_maps, nr_progs)
    {
      hide Emitter.Valid, Emitter.Rest, InitCode, ElemCode, Idles, Leads, CheckCode, CheckedAt;
      var value := code.Reserve(value_size);
      var key := code.Reserve(4);
      CopyInitialValue(map_idx, value, value_size);
      var attr := code.Reserve(ELEM_ATTR_SIZE);
      ghost var p4 := IssueUpdate(map_idx, attr, key, value);
      if code.error == 0 { UpdateGoes(old(code.insns), p4, ElemWant(value, map_idx, value_size)); }
    }

    lemma {:induction false} UpdateGoes(p: Code, p4: Code, want: Want)
      requires want.Update? && 1280 <= want.value && want.key == want.value + RoundUp8(want.value_size) && want.attr == want.key + 8
      requires code.data_len >= want.attr + RoundUp8(ELEM_ATTR_SIZE) && Idles(UpdateCode(p, want), p4, true, true)
      requires code.insns == CheckCode(p4, code.cleanup_label)
      ensures CheckedAt(code.insns, |code.insns| - 1, code.cleanup_label)
      ensures 0 <= want.map_idx < nr_maps && NoWrap(want.value_size) ==>
                Leads(p, code.insns, code.cleanup_label, want.value, code.data_len, want, nr_maps, nr_progs)
    {
      hide Leads, Idles, UpdateCode, RoundUp8;
      Rounded(want.value_size);
      Rounded(ELEM_ATTR_SIZE);
      if 0 <= want.map_idx < nr_maps && NoWrap(want.value_size) {
        UpdateLeads(p, p4, code.cleanup_label, want.value, code.data_len, want, nr_maps, nr_progs);
      }
    }

    /** `bpf_gen__populate_outer_map`. */
    method PopulateOuterMap(outer_map_idx: int, inner_map_idx: int)
      requires Ready()
      modifies code`insns, code`error, code`flow, code`cmds, code`data_len
      ensures Ready() && (old(code.error) != 0 ==> code.error != 0)
      ensures Issued1(old(code.cmds), (MAP_UPDATE_ELEM, old(code.data_len) + 8, ELEM_ATTR_SIZE))
      ensures code.error == 0 ==> CheckedAt(code.insns, |code.insns| - 1, code.cleanup_label)
      ensures code.error == 0 && 0 <= outer_map_idx < nr_maps && 0 <= inner_map_idx < nr_maps ==>
                Leads(old(code.insns), code.insns, code.cleanup_label, old(code.data_len), code.data_len,
                      Populate(old(code.data_len) + 8, outer_map_idx, old(code.data_len), inner_map_idx), nr_maps, nr_progs)
    {
      hide Emitter.Valid, Emitter.Rest, ElemCode, Idles, Leads;
      var key := code.Reserve(4);
      var attr := code.Reserve(ELEM_ATTR_SIZE);
      ghost var p4 := IssueUpdate(outer_map_idx, attr, key, fd_array + 4 * inner_map_idx);
      if code.error == 0 && 0 <= outer_map_idx < nr_maps && 0 <= inner_map_idx < nr_maps {
        ghost var want := Populate(attr, outer_map_idx, key, inner_map_idx);
        PopulateLeads(old(code.insns), p4, code.cleanup_label, key, code.data_len, want, nr_maps, nr_progs);
      }
    }

    /** `bpf_gen__map_freeze`. */
    method MapFreeze(map_idx: int)
      requires Ready()
      modifies code`insns, code`error, code`flow, code`cmds, code`data_len
      ensures Ready() && (old(code.error) != 0 ==> code.error != 0)
      ensures Issued1(old(code.cmds), (MAP_FREEZE, old(code.data_len), FREEZE_ATTR_SIZE))
      ensures code.error == 0 ==> CheckedAt(code.insns, |code.insns| - 1, code.cleanup_label)
      ensures code.error == 0 && 0 <= map_idx < nr_maps ==>
                Leads(old(code.insns), code.insns, code.cleanup_label, old(code.data_len), code.data_len,
                      Freeze(old(code.data_len), map_idx), nr_maps, nr_progs)
    {
      hide Emitter.Valid, Emitter.Rest, Blob2BlobCode, SysBpfCode, Emitter.DebugRegCode, Emitter.RegLog, Idles, Leads;
      var attr := code.Reserve(FREEZE_ATTR_SIZE);
      code.MoveBlob2Blob(attr, 4, fd_array + 4 * map_idx);
      code.SysBpfCmd(MAP_FREEZE, attr, FREEZE_ATTR_SIZE);
      ghost var c, d := code.insns, code.data_len;
      code.DebugReg(7);
      ghost var p4 := code.insns;
      code.Check();
      if code.error == 0 && 0 <= map_idx < nr_maps {
        LogIdles(code, c, d, 7);
        FreezeLeads(old(code.insns), p4, code.cleanup_label, attr, code.data_len, Freeze(attr, map_idx), nr_maps, nr_progs);
      }
    }

    /** The descriptors of programs and maps go to the loader's context. */
    method ReturnFds()
      requires Ready()
      modifies code`insns, code`error, code`flow, code`cmds, code`data_len
      ensures Ready() && (old(code.error) != 0 ==> code.error != 0)
      ensures code.Quiet(old(code.error), old(code.flow), old(code.cmds))
      ensures code.data_len >= old(code.data_len)
      ensures code.error == 0 ==>
                code.insns == ReturnCode(code.CloseCode(old(code.insns) + [Ldx(4, 1, 10, S16(BTF_FD))], old(code.data_len)), nr_maps, nr_progs)
      ensures old(code.Fits(6)) && !code.log && nr_progs == 0 && nr_maps == 0 ==> code.Fits(2)
    {
      hide Emitter.Valid, Emitter.Rest, Stack2CtxCode, Blob2CtxCode, Emitter.CloseCode;
      code.SysCloseStack(BTF_FD);
      CloseLength(old(code.insns) + [Ldx(4, 1, 10, S16(BTF_FD))], old(code.data_len));
      ghost var p := code.insns;
      for i := 0 to nr_progs
        invariant Ready() && (old(code.error) != 0 ==> code.error != 0) && (i == 0 && old(code.Fits(6)) && !code.log ==> code.Fits(2))
        invariant code.data_len >= old(code.data_len)
        invariant code.Quiet(old(code.error), old(code.flow), old(code.cmds))
        invariant code.error == 0 ==> p == code.CloseCode(old(code.insns) + [Ldx(4, 1, 10, S16(BTF_FD))], old(code.data_len))
        invariant code.error == 0 ==> code.insns == ProgFdsCode(p, nr_maps, i)
      {
        code.MoveStack2Ctx(CTX_SIZE + MAP_DESC_SIZE * nr_maps + 4 * i, 4, PROG_FD + 4 * i);
      }
      ghost var q := code.insns;
      for i := 0 to nr_maps
        invariant Ready() && (old(code.error) != 0 ==> code.error != 0)
        invariant nr_progs == 0 && i == 0 && old(code.Fits(6)) && !code.log ==> code.Fits(2)
        invariant code.data_len >= old(code.data_len)
        invariant code.Quiet(old(code.error), old(code.flow), old(code.cmds))
        invariant code.error == 0 ==> q == ProgFdsCode(p, nr_maps, nr_progs)
        invariant code.error == 0 ==> p == code.CloseCode(old(code.insns) + [Ldx(4, 1, 10, S16(BTF_FD))], old(code.data_len))
        invariant code.error == 0 ==> code.insns == MapFdsCode(q, i)
      {
        code.MoveBlob2Ctx(CTX_SIZE + MAP_DESC_SIZE * i, 4, fd_array + 4 * i);
      }
    }

    lemma {:induction false} CloseLength(p: Code, d: int)
      ensures !code.log ==> |code.CloseCode(p, d)| == |p| + 3
    {
    }

    lemma {:induction false} FinishesSo(p: Code, d: int)
      requires code.insns == ReturnCode(code.CloseCode(p + [Ldx(4, 1, 10, S16(BTF_FD))], d), nr_maps, nr_progs) + [MovImm(0, 0)] + [Exit]
      ensures Finishes(code.insns, p, code.CloseCode(p + [Ldx(4, 1, 10, S16(BTF_FD))], d), nr_maps, nr_progs)
    {
      hide Idles, Emitter.CloseCode, MapFdsCode, ProgFdsCode;
      StackCloseIdles(code, p, d, BTF_FD);
    }

    lemma {:induction false} ReadyRoom()
      requires Ready() && code.error == 0
      ensures code.data_len >= 1280
    {
    }

    /** `bpf_gen__finish`: without an error, and if the jump in the prologue fitted, the program is a loader
        whose commands are those of the calls. */
    method Finish(nr_progs: nat, nr_maps: nat) returns (err: int)
      requires Ready()
      modifies code`insns, code`error, code`flow, code`cmds, code`data_len, code`phase
      ensures err == code.error && (old(code.error) != 0 ==> err != 0)
      ensures nr_progs < this.nr_progs || nr_maps != this.nr_maps ==> err == EFAULT
      ensures err == 0 ==> code.phase == if old(code.phase) == Body then Finished else Broken
      ensures err == 0 && code.phase == Finished ==> Loader(code.insns, code.home, code.mid) && Cmds(code.insns) == old(code.cmds)
      ensures err == 0 && code.phase == Finished ==> code.home == code.cleanup_label
      ensures code.data_len >= old(code.data_len) && (err == 0 ==> nr_maps == this.nr_maps)
      ensures err == 0 ==>
                Finishes(code.insns, old(code.insns), code.CloseCode(old(code.insns) + [Ldx(4, 1, 10, S16(BTF_FD))], old(code.data_len)),
                         this.nr_maps, this.nr_progs)
      ensures err == 0 && code.begun != None ==> JumpsOver(code.insns, code.begun.value)
      ensures old(code.Fits(6)) && !code.log && this.nr_progs == 0 && this.nr_maps == 0 == nr_maps ==> err == 0
    {
      hide Emitter.Valid, Emitter.Rest, Finishes, ReturnCode, Emitter.CloseCode, Loader, JumpsOver, Cmds;
      if code.phase == Body { code.HomeHolds(); }
      if nr_progs < this.nr_progs || nr_maps != this.nr_maps {
        code.Abort(EFAULT);
        return EFAULT;
      }
      ReturnFds();
      code.EndBody();
      code.BegunHolds();
      err := code.error;
      if err == 0 { FinishesSo(old(code.insns), old(code.data_len)); }
    }
  }

  /** Any run of a finished program, whatever helpers return and memory holds, reaches an exit: it returns 0
      after all commands succeeded, or the negative R7 of the first check that failed. */
  method FinishedRuns(gen: Gen, nr_progs: nat, nr_maps: nat, ghost o: Oracle, ghost r: seq<int>, ghost mem: Mem) returns (err: int)
    requires gen.Ready() && gen.code.phase == Body && |r| == 11
    modifies gen.code
    ensures err == 0 ==> EndsWell(gen.code.insns, o.blob, Run(gen.code.insns, o, Machine(0, r, mem, 0, [], None), 2 * |gen.code.insns|))
    ensures err == 0 ==> Cmds(gen.code.insns) == old(gen.code.cmds)
  {
    err := gen.Finish(nr_progs, nr_maps);
    if err == 0 { LoaderEndsWell(gen.code.insns, gen.code.home, gen.code.mid, o, r, mem); }
  }

  /** The slots of the prologue run one after the other, whatever the helper returns. */
  lemma {:induction false} PrologueRuns(p: Code, o: Oracle, r: seq<int>, mem: Mem, dist: nat) returns (m: Machine)
    requires |r| == 11 && JumpsOver(p, dist)
    ensures |m.r| == 11 && m.pc == HOME - 1 && p[m.pc] == Jmp(Ja, 0, 0, S16(dist))
    ensures Run(p, o, Machine(0, r, mem, 0, [], None), HOME) == Run(p, o, m, 1)
  {
    assert forall i :: 0 <= i < HOME ==> p[i] == p[..HOME][i];
    var m0 := Machine(0, r, mem, 0, [], None);
    var m1 := Step(p, o, m0).m;
    var m2 := Step(p, o, m1).m;
    var m3 := Step(p, o, m2).m;
    var m4 := Step(p, o, m3).m;
    var m5 := Step(p, o, m4).m;
    m := Step(p, o, m5).m;
    assert Run(p, o, m5, 2) == Run(p, o, m, 1);
    assert Run(p, o, m3, 4) == Run(p, o, m, 1);
    assert Run(p, o, m1, 6) == Run(p, o, m, 1);
  }

  lemma {:induction false} RunOne(p: Code, o: Oracle, m: Machine)
    requires |m.r| == 11
    ensures Run(p, o, m, 1) == Step(p, o, m)
  {
    var s := Step(p, o, m);
  }

  lemma {:induction false} JaStep(p: Code, o: Oracle, m: Machine, off: int)
    requires |m.r| == 11 && m.pc < |p| && p[m.pc] == Jmp(Ja, 0, 0, off)
    ensures var s := Step(p, o, m);
            if m.pc + 1 + off < 0 then s == Fault else s.Next? && s.m.pc == m.pc + 1 + off
  {
  }

  /** In every run the jump over the cleanup code lands behind it exactly if that code is below 32768 slots. */
  lemma {:induction false} JumpOverLands(p: Code, o: Oracle, r: seq<int>, mem: Mem, dist: nat)
    requires |r| == 11 && JumpsOver(p, dist)
    ensures var s := Run(p, o, Machine(0, r, mem, 0, [], None), HOME);
            s.Next? && s.m.pc == HOME + dist <==> dist < 0x8000
  {
    hide Step, Run;
    var m := PrologueRuns(p, o, r, mem, dist);
    RunOne(p, o, m);
    JaStep(p, o, m, S16(dist));
  }

  /** With more cleanup code than that the loader runs off the start of the program. */
  lemma {:induction false} JumpOverTooFar(p: Code, o: Oracle, r: seq<int>, mem: Mem, dist: nat)
    requires |r| == 11 && JumpsOver(p, dist) && 0x8000 <= dist < 0x1_0000 - HOME
    ensures Run(p, o, Machine(0, r, mem, 0, [], None), HOME) == Fault
  {
    hide Step, Run;
    var m := PrologueRuns(p, o, r, mem, dist);
    RunOne(p, o, m);
    JaStep(p, o, m, S16(dist));
  }

  /** A call as a user of the generator makes it, between initialization and finish. */
  datatype Call =
    | LoadBtf(raw_size: nat)
    | MapCreate(map_type: int, has_value_btf: bool, map_idx: int)
    | RecordAttachTarget(len: nat, kind: int)
    | RecordExtern(relo: Relo)
    | RecordReloCore
    | ProgLoad(license_size: nat, insns_size: nat, func_size: nat, line_size: nat)
    | MapUpdateElem(upd_idx: int, value_size: nat)
    | PopulateOuterMap(outer_idx: int, inner_idx: int)
    | MapFreeze(freeze_idx: int)

  /** Sizes are 32 bits wide. */
  predicate CallOk(c: Call) {
    match c
    case LoadBtf(n) => n < 0x1_0000_0000
    case ProgLoad(a, b, c, d) => a < 0x1_0000_0000 && b < 0x1_0000_0000 && c < 0x1_0000_0000 && d < 0x1_0000_0000
    case MapUpdateElem(_, n) => n < 0x1_0000_0000
    case _ => true
  }

  /** What the calls so far have recorded. */
  datatype Track = Track(maps: nat, progs: nat, relos: seq<Relo>, cores: nat, kind: int, len: nat)

  function TrackOn(t: Track, c: Call): Track {
    match c
    case MapCreate(_, _, idx) => if idx >= 0 then t.(maps := t.maps + 1) else t
    case RecordAttachTarget(len, kind) => t.(kind := kind, len := if len < 128 then len else 127)
    case RecordExtern(r) => t.(relos := t.relos + [r])
    case RecordReloCore => t.(cores := t.cores + 1)
    case ProgLoad(_, _, _, _) => t.(progs := t.progs + 1, relos := [], cores := 0, kind := 0)
    case _ => t
  }

  function TrackOf(cs: seq<Call>): Track {
    if cs == [] then Track(0, 0, [], 0, 0, 0) else TrackOn(TrackOf(cs[..|cs| - 1]), cs[|cs| - 1])
  }

  /** A call on maps there are, for at most as many programs as the loader's stack has slots for, with relocations
      inside the program, and sizes that can be rounded up. */
  ghost predicate SaneCall(t: Track, c: Call) {
    match c
    case LoadBtf(n) => NoWrap(n)
    case ProgLoad(l, i, f, n) => NoWrap(l) && NoWrap(i) && NoWrap(f) && NoWrap(n) && t.progs < MAX_USED_PROGS && RelosInside(t.relos, i)
    case MapUpdateElem(idx, n) => 0 <= idx < t.maps && NoWrap(n)
    case PopulateOuterMap(outer, inner) => 0 <= outer < t.maps && 0 <= inner < t.maps
    case MapFreeze(idx) => 0 <= idx < t.maps
    case _ => true
  }

  ghost predicate Sane(cs: seq<Call>) {
    forall i {:trigger cs[i]} :: 0 <= i < |cs| ==> SaneCall(TrackOf(cs[..i]), cs[i])
  }

  /** The command a call wants, with its data and attributes placed one after the other in the blob. */
  predicate WantFor(t: Track, c: Call, want: Want) {
    match c
    case LoadBtf(n) => want.BtfLoad? && want.attr == want.data + RoundUp8(n)
    case MapCreate(map_type, with_btf, idx) => want.MapNew? && want == MapNew(want.attr, with_btf, OuterType(map_type), idx)
    case ProgLoad(l, i, f, n) => want.ProgNew? && want == ProgWant(want.license, l, i, f, n, t.cores, t.kind, t.len)
    case MapUpdateElem(idx, n) => want.Update? && want == ElemWant(want.value, idx, n)
    case PopulateOuterMap(outer, inner) => want.Populate? && want == Populate(want.key + 8, outer, want.key, inner)
    case MapFreeze(idx) => want.Freeze? && want.freeze_idx == idx
    case _ => false
  }

  /** The commands `ws` are those that the calls want, in order. */
  predicate WantsFor(cs: seq<Call>, ws: seq<Want>)
    decreases |cs|
  {
    if cs == [] then ws == []
    else
      var c, before := cs[|cs| - 1], cs[..|cs| - 1];
      if CommandOf(c) == [] then WantsFor(before, ws)
      else ws != [] && WantsFor(before, ws[..|ws| - 1]) && WantFor(TrackOf(before), c, ws[|ws| - 1])
  }

  lemma {:induction false} WantsOn(cs: seq<Call>, ws: seq<Want>, c: Call, want: Want)
    requires WantsFor(cs, ws)
    ensures TrackOf(cs + [c]) == TrackOn(TrackOf(cs), c)
    ensures CommandOf(c) == [] ==> WantsFor(cs + [c], ws)
    ensures CommandOf(c) != [] && WantFor(TrackOf(cs), c, want) ==> WantsFor(cs + [c], ws + [want])
  {
    hide TrackOn, WantFor;
    var cs2, ws2 := cs + [c], ws + [want];
    assert cs2[..|cs2| - 1] == cs && ws2[..|ws2| - 1] == ws;
  }

  lemma {:induction false} CountsOn(t: Track, c: Call, ws: seq<Want>, want: Want)
    requires WantFor(t, c, want)
    ensures Maps(ws + [want]) == Maps(ws) + TrackOn(t, c).maps - t.maps && Progs(ws + [want]) == Progs(ws) + TrackOn(t, c).progs - t.progs
  {
    hide RoundUp8;
    var ws2 := ws + [want];
    assert ws2[..|ws2| - 1] == ws;
  }

  /** The command a call issues, if any. */
  function CommandOf(c: Call): seq<int> {
    match c
    case LoadBtf(_) => [BTF_LOAD]
    case MapCreate(_, _, _) => [MAP_CREATE]
    case ProgLoad(_, _, _, _) => [PROG_LOAD]
    case MapUpdateElem(_, _) => [MAP_UPDATE_ELEM]
    case PopulateOuterMap(_, _) => [MAP_UPDATE_ELEM]
    case MapFreeze(_) => [MAP_FREEZE]
    case _ => []
  }

  function CommandsOf(cs: seq<Call>): seq<int> {
    if cs == [] then [] else CommandsOf(cs[..|cs| - 1]) + CommandOf(cs[|cs| - 1])
  }

  function Commands(cmds: seq<(int, int, int)>): seq<int> {
    seq(|cmds|, i requires 0 <= i < |cmds| => cmds[i].0)
  }

  lemma {:induction false} CommandsOn(cmds: seq<(int, int, int)>, c: (int, int, int))
    ensures Commands(cmds + [c]) == Commands(cmds) + [c.0]
  {
  }

  method MakeCall(gen: Gen, c: Call) returns (ghost want: Option<Want>)
    requires gen.Ready() && CallOk(c)
    modifies gen, gen.code`insns, gen.code`error, gen.code`flow, gen.code`cmds, gen.code`data_len
    ensures gen.Ready() && (old(gen.code.error) != 0 ==> gen.code.error != 0)
    ensures gen.code.Live() ==> Commands(gen.code.cmds) == Commands(old(gen.code.cmds)) + CommandOf(c)
    ensures gen.code.error == 0 ==> gen.Tracked() == TrackOn(old(gen.Tracked()), c)
    ensures CommandOf(c) == [] ==> gen.code.insns == old(gen.code.insns) && gen.code.data_len == old(gen.code.data_len)
    ensures gen.code.error == 0 && CommandOf(c) != [] && SaneCall(old(gen.Tracked()), c) ==>
              && want.Some? && WantFor(old(gen.Tracked()), c, want.value)
              && Leads(old(gen.code.insns), gen.code.insns, gen.code.cleanup_label, old(gen.code.data_len), gen.code.data_len, want.value,
                       old(gen.nr_maps), old(gen.nr_progs))
  {
    hide Emitter.Valid, Emitter.Rest, CheckedAt, StoresR7, RoundUp8, Commands, Leads, RelosInside, NoWrap;
    ghost var cmds, d, t := gen.code.cmds, gen.code.data_len, gen.Tracked();
    want := None;
    match c {
      case LoadBtf(n) =>
        gen.LoadBtf(n);
        want := Some(BtfLoad(d + RoundUp8(n), d));
      case MapCreate(mt, b, i) =>
        ghost var at := gen.MapCreate(mt, b, i);
        want := Some(MapNew(d, b, OuterType(mt), i));
      case RecordAttachTarget(n, k) => gen.RecordAttachTarget(n, k);
      case RecordExtern(r) => gen.RecordExtern(r);
      case RecordReloCore => gen.RecordReloCore();
      case ProgLoad(l, i, f, n) =>
        gen.ProgLoad(l, i, f, n);
        want := Some(ProgWant(d, l, i, f, n, t.cores, t.kind, t.len));
      case MapUpdateElem(i, n) =>
        gen.MapUpdateElem(i, n);
        want := Some(ElemWant(d, i, n));
      case PopulateOuterMap(o, i) =>
        gen.PopulateOuterMap(o, i);
        want := Some(Populate(d + 8, o, d, i));
      case MapFreeze(i) =>
        gen.MapFreeze(i);
        want := Some(Freeze(d, i));
    }
    if gen.code.Live() {
      if CommandOf(c) == [] {
        assert gen.code.cmds == cmds;
      } else {
        CommandsOn(cmds, gen.code.cmds[|cmds|]);
      }
    }
  }

  /** Where the calls `cs` have led: every run gets to the end of the code `p`, with the commands `ws`. */
  ghost predicate Led(cs: seq<Call>, ws: seq<Want>, t: Track, p: Code, home: int, dl: int) {
    WantsFor(cs, ws) && t == TrackOf(cs) && Maps(ws) == t.maps && Progs(ws) == t.progs && Arrives(p, home, dl, ws)
  }

  /** One call further. */
  lemma {:induction false} LedOn(cs: seq<Call>, ws: seq<Want>, t: Track, p: Code, home: int, dl: int, c: Call, want: Option<Want>, q: Code, dl2: int)
    requires Led(cs, ws, t, p, home, dl)
    requires CommandOf(c) == [] ==> q == p && dl2 == dl
    requires CommandOf(c) != [] ==> want.Some? && WantFor(t, c, want.value) && Leads(p, q, home, dl, dl2, want.value, t.maps, t.progs)
    ensures Led(cs + [c], if CommandOf(c) == [] then ws else ws + [want.value], TrackOn(t, c), q, home, dl2)
  {
    hide Arrives, Leads, WantFor, WantsFor, TrackOf, Maps, Progs, TrackOn, CommandOf;
    if CommandOf(c) == [] {
      WantsOn(cs, ws, c, Freeze(0, 0));
      SameCounts(t, c);
    } else {
      WantsOn(cs, ws, c, want.value);
      CountsOn(t, c, ws, want.value);
      ArrivesOn(p, q, home, dl, dl2, ws, want.value);
    }
  }

  lemma {:induction false} SameCounts(t: Track, c: Call)
    requires CommandOf(c) == []
    ensures TrackOn(t, c).maps == t.maps && TrackOn(t, c).progs == t.progs
  {
  }

  ghost predicate LedTo(gen: Gen, cs: seq<Call>, ws: seq<Want>)
    reads gen, gen.code
  {
    Led(cs, ws, gen.Tracked(), gen.code.insns, gen.code.cleanup_label, gen.code.data_len)
  }

  method MakeCalls(gen: Gen, calls: seq<Call>) returns (ghost wants: seq<Want>)
    requires gen.Ready() && forall c :: c in calls ==> CallOk(c)
    modifies gen, gen.code`insns, gen.code`error, gen.code`flow, gen.code`cmds, gen.code`data_len
    ensures gen.Ready() && (old(gen.code.error) != 0 ==> gen.code.error != 0)
    ensures gen.code.Live() ==> Commands(gen.code.cmds) == Commands(old(gen.code.cmds)) + CommandsOf(calls)
    ensures gen.code.error == 0 && Sane(calls) && old(LedTo(gen, [], [])) ==> LedTo(gen, calls, wants)
  {
    hide Gen.Ready, Commands, CommandOf, LedTo, SaneCall, TrackOf;
    assert calls[..|calls|] == calls;
    wants := [];
    for i := 0 to |calls|
      invariant gen.Ready() && (old(gen.code.error) != 0 ==> gen.code.error != 0)
      invariant gen.code.Live() ==> Commands(gen.code.cmds) == Commands(old(gen.code.cmds)) + CommandsOf(calls[..i])
      invariant gen.code.error == 0 && Sane(calls) && old(LedTo(gen, [], [])) ==> LedTo(gen, calls[..i], wants)
    {
      assert calls[..i + 1][..i] == calls[..i] && calls[..i + 1] == calls[..i] + [calls[i]];
      wants := MakeNext(gen, calls[..i], wants, calls[i]);
    }
  }

  /** A call that the ones before have led to. */
  method MakeNext(gen: Gen, ghost cs: seq<Call>, ghost ws: seq<Want>, c: Call) returns (ghost ws2: seq<Want>)
    requires gen.Ready() && CallOk(c)
    modifies gen, gen.code`insns, gen.code`error, gen.code`flow, gen.code`cmds, gen.code`data_len
    ensures gen.Ready() && (old(gen.code.error) != 0 ==> gen.code.error != 0)
    ensures gen.code.Live() ==> Commands(gen.code.cmds) == Commands(old(gen.code.cmds)) + CommandOf(c)
    ensures gen.code.error == 0 && old(LedTo(gen, cs, ws)) && SaneCall(TrackOf(cs), c) ==> LedTo(gen, cs + [c], ws2)
  {
    hide Gen.Ready, Commands, CommandOf, SaneCall, TrackOf, TrackOn, Leads, Arrives, WantFor, WantsFor;
    ghost var led := LedTo(gen, cs, ws) && SaneCall(TrackOf(cs), c);
    ghost var t, p, d := gen.Tracked(), gen.code.insns, gen.code.data_len;
    ghost var want := MakeCall(gen, c);
    ws2 := if CommandOf(c) == [] || want == None then ws else ws + [want.value];
    if gen.code.error == 0 && led { LedOn(cs, ws, t, p, gen.code.cleanup_label, d, c, want, gen.code.insns, gen.code.data_len); }
  }

  /** From initialization to finish, whatever the calls: without an error the program jumps over its cleanup code
      in every run exactly if that code is below 32768 slots; if it is, every run ends well, and the commands are
      those of the calls, each issued with the attributes it needs; just beyond, every run faults. */
  method Generate(log_level: int, text_len: nat -> nat, nr_progs: nat, nr_maps: nat, calls: seq<Call>, ghost o: Oracle,
                  ghost r: seq<int>, ghost mem: Mem)
    returns (gen: Gen, err: int, ghost wants: seq<Want>)
    requires |r| == 11 && forall c :: c in calls ==> CallOk(c)
    ensures var dist := CleanupSize(nr_progs, nr_maps, log_level != 0);
            var p, m := gen.code.insns, Machine(0, r, mem, 0, [], None);
            err == 0 ==>
              && (dist < 0x8000 ==> EndsWell(p, o.blob, Run(p, o, m, 2 * |p|)) && Commands(Cmds(p)) == CommandsOf(calls))
              && (Run(p, o, m, HOME).Next? && Run(p, o, m, HOME).m.pc == HOME + dist <==> dist < 0x8000)
              && (0x8000 <= dist < 0x1_0000 - HOME ==> Run(p, o, m, HOME) == Fault)
    ensures var dist := CleanupSize(nr_progs, nr_maps, log_level != 0);
            var p, m := gen.code.insns, Machine(0, r, mem, 0, [], None);
            var w := World(o, r[1], r[10], mem, gen.code.data_len);
            err == 0 && dist < 0x8000 && Sane(calls) ==>
              WantsFor(calls, wants) && (Apart(w) ==> EndsAsWanted(w, wants, Run(p, o, m, 2 * |p|)))
  {
    hide EndsWell, Run, JumpsOver, Loader, Cmds, Sane, WantsFor, Apart, EndsAsWanted, Wanted;
    ghost var dist := CleanupSize(nr_progs, nr_maps, log_level != 0);
    gen, err, wants := Build(log_level, text_len, nr_progs, nr_maps, calls);
    if err == 0 {
      ghost var p := gen.code.insns;
      if dist < 0x8000 {
        LoaderEndsWell(p, gen.code.home, gen.code.mid, o, r, mem);
        if Sane(calls) { EndsSo(p, gen.code.home, gen.code.mid, calls, wants, gen.code.data_len, o, r, mem); }
      }
      JumpOverLands(p, o, r, mem, dist);
      if 0x8000 <= dist < 0x1_0000 - HOME { JumpOverTooFar(p, o, r, mem, dist); }
    }
  }

  /** A finished loader to whose last part the calls have led. */
  ghost predicate Wanted(n: Code, home: int, calls: seq<Call>, wants: seq<Want>, top: int) {
    exists t, p, q, d {:trigger Led(calls, wants, t, p, home, d), Finishes(n, p, q, t.maps, t.progs)} ::
      Led(calls, wants, t, p, home, d) && Finishes(n, p, q, t.maps, t.progs) && 1280 <= d <= top
  }

  /** The calls of a user: initialization, the calls between, and finish. */
  method Build(log_level: int, text_len: nat -> nat, nr_progs: nat, nr_maps: nat, calls: seq<Call>)
    returns (gen: Gen, err: int, ghost wants: seq<Want>)
    requires forall c :: c in calls ==> CallOk(c)
    ensures var dist := CleanupSize(nr_progs, nr_maps, log_level != 0);
            err == 0 ==>
              && JumpsOver(gen.code.insns, dist)
              && (dist < 0x8000 ==> Loader(gen.code.insns, gen.code.home, gen.code.mid) && Commands(Cmds(gen.code.insns)) == CommandsOf(calls))
              && (dist < 0x8000 && Sane(calls) ==> Wanted(gen.code.insns, gen.code.home, calls, wants, gen.code.data_len))
  {
    hide Gen.Ready, CommandsOf, JumpsOver, Loader, Cmds, Sane, Finishes, Led, Emitter.CloseCode, Commands;
    gen := new Gen(log_level, text_len, nr_progs, nr_maps);
    assert gen.code.Live() ==> Commands(gen.code.cmds) == [] by { NoCommands(gen.code.cmds); }
    ghost var dist := CleanupSize(nr_progs, nr_maps, log_level != 0);
    StartLed(gen, dist);
    wants := MakeCalls(gen, calls);
    ghost var p, d, t := gen.code.insns, gen.code.data_len, gen.Tracked();
    if gen.code.error == 0 { gen.ReadyRoom(); }
    err := gen.Finish(nr_progs, nr_maps);
    if err == 0 && dist < 0x8000 && Sane(calls) {
      ghost var q := gen.code.CloseCode(p + [Ldx(4, 1, 10, S16(BTF_FD))], d);
      assert Led(calls, wants, t, p, gen.code.home, d) && Finishes(gen.code.insns, p, q, t.maps, t.progs);
    }
  }

  lemma {:induction false} NoCommands(cmds: seq<(int, int, int)>)
    ensures cmds == [] ==> Commands(cmds) == []
  {
  }

  /** Every run of the finished loader. */
  lemma {:induction false} EndsSo(n: Code, home: nat, mid: nat, calls: seq<Call>, wants: seq<Want>, top: int, o: Oracle, r: seq<int>, mem: Mem)
    requires |r| == 11 && Loader(n, home, mid) && Wanted(n, home, calls, wants, top)
    ensures WantsFor(calls, wants)
    ensures var w := World(o, r[1], r[10], mem, top);
            Apart(w) ==> EndsAsWanted(w, wants, Run(n, o, Machine(0, r, mem, 0, [], None), 2 * |n|))
  {
    hide Loader, Arrives, Finishes, EndsAsWanted, Run, Apart, WantsFor;
    var t, p, q, d :| Led(calls, wants, t, p, home, d) && Finishes(n, p, q, t.maps, t.progs) && 1280 <= d <= top;
    var w := World(o, r[1], r[10], mem, top);
    if Apart(w) { WholeRun(n, home, mid, w, wants, Machine(0, r, mem, 0, [], None), p, q, d); }
  }

  /** Every run gets past the prologue. */
  lemma {:induction false} StartLed(gen: Gen, dist: nat)
    requires gen.Ready() && gen.code.begun == Some(dist) && gen.Tracked() == Track(0, 0, [], 0, 0, 0)
    requires gen.code.error == 0 ==> |gen.code.insns| == HOME + dist && gen.code.cleanup_label == HOME
    ensures gen.code.error == 0 && dist < 0x8000 ==> LedTo(gen, [], [])
  {
    hide JumpsOver, Arrives, Typed, Loader;
    if gen.code.error == 0 && dist < 0x8000 { PrologueArrives(gen.code.insns, dist, gen.code.data_len); }
  }

  /** An object of 11000 programs: the generator reports no error, and the loader faults whatever helpers return. */
  method ManyPrograms(text_len: nat -> nat, ghost o: Oracle, ghost r: seq<int>, ghost mem: Mem) returns (gen: Gen, err: int)
    requires |r| == 11
    ensures err == 0 && Run(gen.code.insns, o, Machine(0, r, mem, 0, [], None), HOME) == Fault
  {
    hide Gen.Ready, Run, JumpsOver;
    gen := new Gen(0, text_len, 11000, 0);
    assert CleanupSize(11000, 0, false) == 33008;
    err := gen.Finish(11000, 0);
    JumpOverTooFar(gen.code.insns, o, r, mem, 33008);
  }
}
