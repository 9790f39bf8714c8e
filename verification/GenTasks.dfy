/** How the code of a command fills in its attributes, and what it leaves. */
module GenTasks {
  import opened Common
  import opened BpfMachine
  import opened BpfFlow
  import opened BpfRuns
  import opened GenEmit
  import opened GenRuns
  import opened GenMeaning

  /** One command's code on its way: it started at `m` with the descriptors `s` and data up to `dl`, has the attributes at
      `attr`, and may besides write to `area`. */
  datatype Task = Task(w: World, n: Code, m: Machine, s: Slots, dl: int, dl2: int, attr: int, size: int, area: Area)

  ghost predicate Proper(t: Task) {
    && |t.m.r| == 11 && t.m.r[6] == t.w.ctx && t.m.r[10] == t.w.sp && Apart(t.w) && Keeps(t.w, t.dl, t.s, t.m.mem)
    && 1280 <= t.dl <= t.attr && 0 <= t.size && t.attr + t.size <= t.dl2 <= t.w.top
    && t.dl <= t.area.lo && t.area.hi <= t.attr && t.attr + t.size <= t.area.from && t.area.to <= t.dl2
  }

  predicate Touched(t: Task, y: int) {
    t.attr <= y < t.attr + t.size || Inside(y, t.area)
  }

  /** The run so far: no command, and no write but to the attributes and the area. */
  ghost predicate Under(t: Task, m2: Machine) {
    && Gets(t.n, t.w.o, t.m, m2) && m2.r[6] == t.w.ctx && m2.r[10] == t.w.sp && Adds(t.m.trace, m2.trace)
    && (forall x :: m2.mem(x) == t.m.mem(x) || Touched(t, x - t.w.o.blob))
  }

  /** And these fields are filled in. */
  ghost predicate Doing(t: Task, m2: Machine, fs: seq<Field>) {
    Proper(t) && Under(t, m2) && Built(m2.mem, t.w.start, t.w.o.blob + t.attr, t.size, fs)
  }

  lemma {:induction false} Begin(t: Task)
    requires Proper(t)
    ensures Doing(t, t.m, [])
  {
    GetsSelf(t.n, t.w.o, t.m);
  }

  /** Memory that changed as far as allowed still holds the context and the descriptors. */
  lemma {:induction false} StillKeeps(t: Task, mem: Mem)
    requires Proper(t) && forall x :: mem(x) == t.m.mem(x) || Touched(t, x - t.w.o.blob)
    ensures Keeps(t.w, t.dl2, t.s, mem)
  {
    WordsSame(t.m.mem, mem, t.w.sp - STACK_SZ, t.s.stack);
    WordsSame(t.m.mem, mem, t.w.o.blob, t.s.maps);
  }

  lemma {:induction false} WordsSame(mem: Mem, mem2: Mem, base: int, vs: seq<int>)
    requires Words(mem, base, vs) && forall x :: base <= x < base + 4 * |vs| ==> mem2(x) == mem(x)
    ensures Words(mem2, base, vs)
  {
    forall i | 0 <= i < |vs| ensures LoadMem(mem2, base + 4 * i, 4) == U32(vs[i]) {
      assert LoadMem(mem, base + 4 * i, 4) == U32(vs[i]);
      LoadSame(mem, mem2, base + 4 * i, 4);
    }
  }

  /** A word more, or another one in its place. */
  lemma {:induction false} WordPut(mem: Mem, base: int, vs: seq<int>, i: nat, v: int)
    requires Words(mem, base, vs) && i <= |vs|
    ensures Words(StoreMem(mem, base + 4 * i, 4, v), base, Put(vs, i, v))
  {
    hide LoadMem, StoreMem;
    var mem2 := StoreMem(mem, base + 4 * i, 4, v);
    var vs2 := Put(vs, i, v);
    LoadStored(mem, base + 4 * i, 4, v);
    Powers();
    forall j | 0 <= j < |vs2| ensures LoadMem(mem2, base + 4 * j, 4) == U32(vs2[j]) {
      if j != i {
        assert LoadMem(mem, base + 4 * j, 4) == U32(vs[j]);
        LoadElsewhere(mem, base + 4 * i, 4, v, base + 4 * j, 4);
      }
    }
  }

  /** Filling in one more field. */
  lemma {:induction false} FieldPut(t: Task, m1: Machine, m2: Machine, fs: seq<Field>, f: Field)
    requires Doing(t, m1, fs) && Gets(t.n, t.w.o, t.m, m2) && Kept(m1, m2) && 0 <= f.off && f.off + f.size <= t.size
    requires m2.mem == StoreMem(m1.mem, t.w.o.blob + t.attr + f.off, f.size, f.value)
    ensures Doing(t, m2, fs + [f])
  {
    hide Gets, Inside;
    var fs2 := fs + [f];
    assert fs2[..|fs2| - 1] == fs;
  }

  lemma {:induction false} PutRel(t: Task, m1: Machine, fs: seq<Field>, p: Code, off: nat, data: int) returns (m2: Machine)
    requires Doing(t, m1, fs) && m1.pc == |p| && RelStoreCode(p, t.attr + off, data) <= t.n && off + 8 <= t.size
    ensures Doing(t, m2, fs + [Field(off, 8, t.w.o.blob + data)]) && m2.pc == |RelStoreCode(p, t.attr + off, data)|
  {
    hide Gets, Built, Adds, RelStoreCode, StoreMem;
    m2 := DoRelStore(t.n, t.w.o, t.m, m1, p, t.attr + off, data);
    FieldPut(t, m1, m2, fs, Field(off, 8, t.w.o.blob + data));
  }

  /** The context is as it was. */
  lemma {:induction false} CtxSame(t: Task, m1: Machine, off: nat, size: nat)
    requires Proper(t) && Under(t, m1) && off + size <= CTX_ROOM
    ensures S64(LoadMem(m1.mem, t.w.ctx + off, size)) == Ctx(t.w, off, size)
  {
    hide Gets, Words, Adds;
    StillKeeps(t, m1.mem);
    LoadSame(t.w.start, m1.mem, t.w.ctx + off, size);
  }

  lemma {:induction false} SmallIs(v: int)
    requires 0 <= v < 0x1_0000_0000
    ensures S64(v) == v
  {
  }

  lemma {:induction false} SlotSame(t: Task, m1: Machine)
    requires Proper(t) && Under(t, m1)
    ensures forall i :: 0 <= i < |t.s.stack| ==> S64(LoadMem(m1.mem, t.w.sp - STACK_SZ + 4 * i, 4)) == U32(At(t.s.stack, i))
    ensures forall i :: 0 <= i < |t.s.maps| ==> LoadMem(m1.mem, t.w.o.blob + 4 * i, 4) == U32(At(t.s.maps, i))
    ensures forall i :: 0 <= i < |t.s.maps| ==> S64(LoadMem(m1.mem, t.w.o.blob + 4 * i, 4)) == U32(At(t.s.maps, i))
  {
    hide Gets, Adds, LoadMem, S64;
    StillKeeps(t, m1.mem);
    forall i | 0 <= i < |t.s.stack| ensures S64(LoadMem(m1.mem, t.w.sp - STACK_SZ + 4 * i, 4)) == U32(At(t.s.stack, i)) {
      SmallIs(U32(t.s.stack[i]));
    }
    forall i | 0 <= i < |t.s.maps| ensures LoadMem(m1.mem, t.w.o.blob + 4 * i, 4) == U32(At(t.s.maps, i)) {
      assert t.s.maps[i] == At(t.s.maps, i);
    }
    forall i | 0 <= i < |t.s.maps| ensures S64(LoadMem(m1.mem, t.w.o.blob + 4 * i, 4)) == U32(At(t.s.maps, i)) {
      SmallIs(U32(t.s.maps[i]));
    }
  }

  lemma {:induction false} PutCtx(t: Task, m1: Machine, fs: seq<Field>, p: Code, off: nat, size: nat, ctx_off: nat, check: bool) returns (m2: Machine)
    requires Doing(t, m1, fs) && m1.pc == |p| && Ctx2BlobCode(p, t.attr + off, size, ctx_off, check) <= t.n && off + size <= t.size
    requires ctx_off + size <= CTX_ROOM
    ensures m2.pc == |Ctx2BlobCode(p, t.attr + off, size, ctx_off, check)|
    ensures Doing(t, m2, fs + if check && Ctx(t.w, ctx_off, size) == 0 then [] else [Field(off, size, Ctx(t.w, ctx_off, size))])
  {
    hide Built, Ctx2BlobCode, StoreMem, Ctx, S64, Touched, Proper;
    m2 := DoCtx2Blob(t.n, t.w.o, t.m, m1, p, t.attr + off, size, ctx_off, check);
    CtxSame(t, m1, off := ctx_off, size := size);
    if check && Ctx(t.w, ctx_off, size) == 0 {
      assert fs + [] == fs;
    } else {
      FieldPut(t, m1, m2, fs, Field(off, size, Ctx(t.w, ctx_off, size)));
    }
  }

  lemma {:induction false} PutStack(t: Task, m1: Machine, fs: seq<Field>, p: Code, off: nat, i: nat) returns (m2: Machine)
    requires Doing(t, m1, fs) && m1.pc == |p| && Stack2BlobCode(p, t.attr + off, 4, -STACK_SZ + 4 * i) <= t.n && off + 4 <= t.size
    requires i < |t.s.stack|
    ensures m2.pc == |Stack2BlobCode(p, t.attr + off, 4, -STACK_SZ + 4 * i)|
    ensures Doing(t, m2, fs + [Field(off, 4, U32(At(t.s.stack, i)))])
  {
    hide Built, Stack2BlobCode, StoreMem, S64, Touched, U32, Words;
    assert |t.s.stack| <= 34;
    m2 := DoStack2Blob(t.n, t.w.o, t.m, m1, p, t.attr + off, 4, -STACK_SZ + 4 * i);
    SlotSame(t, m1);
    FieldPut(t, m1, m2, fs, Field(off, 4, U32(At(t.s.stack, i))));
  }

  lemma {:induction false} PutMap(t: Task, m1: Machine, fs: seq<Field>, p: Code, off: nat, i: nat) returns (m2: Machine)
    requires Doing(t, m1, fs) && m1.pc == |p| && Blob2BlobCode(p, t.attr + off, 4, 4 * i) <= t.n && off + 4 <= t.size && i < |t.s.maps|
    ensures m2.pc == |Blob2BlobCode(p, t.attr + off, 4, 4 * i)|
    ensures Doing(t, m2, fs + [Field(off, 4, U32(At(t.s.maps, i)))])
  {
    hide Built, Blob2BlobCode, StoreMem, S64, Touched, U32, Words, Proper;
    m2 := DoBlob2Blob(t.n, t.w.o, t.m, m1, p, t.attr + off, 4, 4 * i);
    SlotSame(t, m1);
    FieldPut(t, m1, m2, fs, Field(off, 4, U32(At(t.s.maps, i))));
  }

  /** A piece that changes nothing but registers. */
  lemma {:induction false} StillDoing(t: Task, m1: Machine, m2: Machine, fs: seq<Field>)
    requires Doing(t, m1, fs) && Gets(t.n, t.w.o, t.m, m2) && m2.r[6] == m1.r[6] && m2.r[10] == m1.r[10] && Adds(m1.trace, m2.trace)
    requires forall x :: m2.mem(x) == m1.mem(x) || Inside(x - t.w.o.blob, t.area)
    ensures Doing(t, m2, fs)
  {
    hide Gets;
  }

  /** Data that nothing was allowed to touch. */
  lemma {:induction false} StillFresh(t: Task, m1: Machine, lo: int, hi: int)
    requires Proper(t) && Under(t, m1) && t.dl <= lo && hi <= t.dl2 && forall y :: lo <= y < hi ==> !Touched(t, y)
    ensures Fresh(t.w, m1.mem, lo, hi)
  {
    hide Gets, Words, Adds, Touched;
    forall x | t.w.o.blob + lo <= x < t.w.o.blob + hi ensures m1.mem(x) == t.w.start(x) {
      assert !Touched(t, x - t.w.o.blob);
    }
  }

  /** The commands before this one. */
  ghost predicate Follows(t: Task, ws: seq<Want>) {
    Good(t.w, ws, t.m.trace) && t.s == SlotsIn(ws, t.m.trace)
  }

  /** After the command and the check of its result: on success R7 holds what the command returned. */
  ghost predicate WasIssued(t: Task, ws: seq<Want>, want: Want, m2: Machine) {
    && Gets(t.n, t.w.o, t.m, m2) && m2.r[6] == t.w.ctx && m2.r[10] == t.w.sp
    && Good(t.w, ws + [want], m2.trace) && SlotsIn(ws + [want], m2.trace) == After(t.s, want, m2.r[7])
    && (forall x :: m2.mem(x) == t.m.mem(x) || Touched(t, x - t.w.o.blob))
  }

  lemma {:induction false} DoIssue(t: Task, ws: seq<Want>, want: Want, m1: Machine, p: Code) returns (m2: Machine)
    requires Proper(t) && Under(t, m1) && m1.pc == |p| && Follows(t, ws) && SysBpfCode(p, CmdOf(want), want.attr, SizeOf(want)) <= t.n
    requires t.attr == want.attr && t.size == SizeOf(want) && AttrHolds(t.w, t.s, want, m1.trace, m1.mem)
    ensures WasIssued(t, ws, want, m2) && m2.pc == |SysBpfCode(p, CmdOf(want), want.attr, SizeOf(want))|
  {
    hide Run, AttrHolds, SysBpfCode, Inside, Keeps, After;
    m2 := DoSysBpf(t.n, t.w.o, t.m, m1, p, CmdOf(want), want.attr, SizeOf(want));
    GoodAdds(t.w, ws, t.m.trace, m1.trace);
    GoodOn(t.w, ws, m1.trace, want, Bpf(CmdOf(want), t.w.o.blob + want.attr, SizeOf(want), m2.r[7], m1.mem));
  }

  /** Logs and closes do not matter. */
  lemma {:induction false} IssuedIdle(t: Task, ws: seq<Want>, want: Want, m1: Machine, p: Code, q: Code, nine: bool) returns (m2: Machine)
    requires WasIssued(t, ws, want, m1) && m1.pc == |p| && Idles(p, q, true, nine) && q <= t.n
    ensures WasIssued(t, ws, want, m2) && m2.pc == |q|
  {
    hide Run, Good, SlotsIn, After, Idles, Adds;
    m2 := DoIdle(t.n, t.w.o, t.m, m1, p, q, true, nine);
    GoodAdds(t.w, ws + [want], m1.trace, m2.trace);
  }

  lemma {:induction false} IssuedCheck(t: Task, ws: seq<Want>, want: Want, m1: Machine, p: Code, home: nat) returns (m2: Machine)
    requires WasIssued(t, ws, want, m1) && m1.pc == |p| && CheckCode(p, home) <= t.n
    ensures WasIssued(t, ws, want, m2) && (m2.pc == home || m2.pc == |CheckCode(p, home)|)
  {
    hide Run, Good, SlotsIn, After, Inside;
    m2 := DoJmp(t.n, t.w.o, t.m, m1, Jslt, 7, 0, home - |p| - 1);
  }

  /** The command, what is logged or closed after it, and the check of its result. */
  lemma {:induction false} DoCommand(t: Task, ws: seq<Want>, want: Want, m1: Machine, p: Code, q: Code, nine: bool, home: nat) returns (m2: Machine)
    requires Proper(t) && Under(t, m1) && m1.pc == |p| && Follows(t, ws) && t.attr == want.attr && t.size == SizeOf(want)
    requires AttrHolds(t.w, t.s, want, m1.trace, m1.mem)
    requires Idles(SysBpfCode(p, CmdOf(want), want.attr, SizeOf(want)), q, true, nine) && CheckCode(q, home) <= t.n
    ensures WasIssued(t, ws, want, m2) && (m2.pc == home || m2.pc == |CheckCode(q, home)|)
  {
    hide Proper, Under, Follows, AttrHolds, WasIssued, IdlesTo, CheckCode, SysBpfCode;
    var c := SysBpfCode(p, CmdOf(want), want.attr, SizeOf(want));
    assert c <= q <= t.n;
    m2 := DoIssue(t, ws, want, m1, p);
    m2 := IssuedIdle(t, ws, want, m2, c, q, nine);
    m2 := IssuedCheck(t, ws, want, m2, q, home);
  }

  lemma {:induction false} WentHome(t: Task, ws: seq<Want>, want: Want, m2: Machine, q: Code, home: nat)
    requires WasIssued(t, ws, want, m2) && m2.pc == home
    ensures LeadsTo(t.n, t.w, ws, want, t.m, q, home, t.dl2)
  {
    hide Good, SlotsIn, After, Gets;
    var ws2 := ws + [want];
    assert ws2[..|ws2|] == ws2;
    assert Partly(t.w, ws2, m2.trace);
    assert LedBy(t.n, t.w, ws, want, t.m, q, home, t.dl2, m2);
  }

  /** The command is over, and its descriptor, if it has one to keep, is kept. */
  lemma {:induction false} GotThere(t: Task, ws: seq<Want>, want: Want, m2: Machine, q: Code, home: nat)
    requires Gets(t.n, t.w.o, t.m, m2) && m2.r[6] == t.w.ctx && m2.r[10] == t.w.sp && m2.pc == |q|
    requires Good(t.w, ws + [want], m2.trace) && Keeps(t.w, t.dl2, SlotsIn(ws + [want], m2.trace), m2.mem)
    ensures LeadsTo(t.n, t.w, ws, want, t.m, q, home, t.dl2)
  {
    hide Good, SlotsIn, Keeps, Run;
    assert LedBy(t.n, t.w, ws, want, t.m, q, home, t.dl2, m2);
  }

  /** A command that returns no descriptor. */
  lemma {:induction false} NothingKept(t: Task, ws: seq<Want>, want: Want, m2: Machine, q: Code, home: nat)
    requires Proper(t) && WasIssued(t, ws, want, m2) && m2.pc == |q| && (want.Update? || want.Populate? || want.Freeze?)
    ensures LeadsTo(t.n, t.w, ws, want, t.m, q, home, t.dl2)
  {
    hide Good, SlotsIn, Keeps, Gets;
    StillKeeps(t, m2.mem);
    GotThere(t, ws, want, m2, q, home);
  }

  /** The descriptor in R7 goes to slot `i` of the stack. */
  lemma {:induction false} StackKept(t: Task, ws: seq<Want>, want: Want, m1: Machine, p: Code, i: nat) returns (m2: Machine)
    requires Proper(t) && WasIssued(t, ws, want, m1) && m1.pc == |p| && p + [Stx(4, 10, 7, -STACK_SZ + 4 * i)] <= t.n
    requires i <= |t.s.stack| && i < 2 + MAX_USED_PROGS && After(t.s, want, m1.r[7]) == t.s.(stack := Put(t.s.stack, i, m1.r[7]))
    ensures Gets(t.n, t.w.o, t.m, m2) && m2.r[6] == t.w.ctx && m2.r[10] == t.w.sp && m2.pc == |p| + 1 && m2.trace == m1.trace
    ensures Keeps(t.w, t.dl2, SlotsIn(ws + [want], m2.trace), m2.mem)
  {
    hide Run, Good, SlotsIn, After, Touched, Keeps, StoreMem, Apart;
    assert t.n[|p|] == (p + [Stx(4, 10, 7, -STACK_SZ + 4 * i)])[|p|];
    m2 := DoStx(t.n, t.w.o, t.m, m1, 4, 10, 7, -STACK_SZ + 4 * i);
    StillKeeps(t, m1.mem);
    StackPut(t.w, t.dl2, t.s, m1.mem, i, m1.r[7]);
  }

  lemma {:induction false} StackPut(w: World, dl: int, s: Slots, mem: Mem, i: nat, v: int)
    requires Apart(w) && Keeps(w, dl, s, mem) && i <= |s.stack| && i < 2 + MAX_USED_PROGS && 1280 <= dl <= w.top
    ensures Keeps(w, dl, s.(stack := Put(s.stack, i, v)), StoreMem(mem, w.sp - STACK_SZ + 4 * i, 4, v))
  {
    hide LoadMem;
    WordPut(mem, w.sp - STACK_SZ, s.stack, i, v);
    WordsSame(mem, StoreMem(mem, w.sp - STACK_SZ + 4 * i, 4, v), w.o.blob, s.maps);
  }

  lemma {:induction false} MapPut(w: World, dl: int, s: Slots, mem: Mem, v: int)
    requires Apart(w) && Keeps(w, dl, s, mem) && |s.maps| < MAX_USED_MAPS && 1280 <= dl <= w.top
    ensures Keeps(w, dl, s.(maps := s.maps + [v]), StoreMem(mem, w.o.blob + 4 * |s.maps|, 4, v))
  {
    hide LoadMem;
    WordPut(mem, w.o.blob, s.maps, |s.maps|, v);
    WordsSame(mem, StoreMem(mem, w.o.blob + 4 * |s.maps|, 4, v), w.sp - STACK_SZ, s.stack);
  }
}
