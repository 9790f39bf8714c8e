/** The same of the commands that create maps and load programs. */
module GenLoads {
  import opened Common
  import opened BpfMachine
  import opened BpfFlow
  import opened BpfRuns
  import opened GenEmit
  import opened GenRuns
  import opened GenMeaning
  import opened GenTasks
  import opened GenCalls

  /** What fills in the attributes of a new map. */
  function MapFill(p: Code, attr: int, with_btf: bool, outer: bool, idx: int): (n: Code)
    ensures p <= n
  {
    MapEntries(MapInner(MapBtf(p, attr, with_btf), attr, outer), attr, idx)
  }

  function MapBtf(p: Code, attr: int, with_btf: bool): (n: Code)
    ensures p <= n
  {
    if with_btf then Stack2BlobCode(p, attr + 48, 4, BTF_FD) else p
  }

  function MapInner(p: Code, attr: int, outer: bool): (n: Code)
    ensures p <= n
  {
    if outer then Stack2BlobCode(p, attr + 20, 4, INNER_MAP_FD) else p
  }

  function MapEntries(p: Code, attr: int, idx: int): (n: Code)
    ensures p <= n
  {
    if idx >= 0 then Ctx2BlobCode(p, attr + 12, 4, CTX_SIZE + MAP_DESC_SIZE * idx + 8, true) else p
  }

  function MapCode(p: Code, want: Want): (n: Code)
    requires want.MapNew?
    ensures p <= n
  {
    SysBpfCode(MapFill(p, want.attr, want.with_btf, want.outer, want.idx), MAP_CREATE, want.attr, MAP_ATTR_SIZE)
  }

  /** Where the descriptor of a new map goes. */
  function MapStore(p: Code, idx: int): (n: Code)
    ensures p <= n
  {
    if idx < 0 then p + [Stx(4, 10, 7, INNER_MAP_FD)] else p + [LdLo(1, 4 * idx), LdHi] + [Stx(4, 1, 7, 0)]
  }

  lemma {:induction false} FillMap(t: Task, want: Want, p: Code) returns (m2: Machine)
    requires Doing(t, t.m, []) && want.MapNew? && t.attr == want.attr && t.size == MAP_ATTR_SIZE
    requires t.m.pc == |p| && MapFill(p, want.attr, want.with_btf, want.outer, want.idx) <= t.n && want.idx < MAX_USED_MAPS
    ensures Proper(t) && Under(t, m2) && m2.pc == |MapFill(p, want.attr, want.with_btf, want.outer, want.idx)|
    ensures AttrHolds(t.w, t.s, want, m2.trace, m2.mem)
  {
    hide Run, Stack2BlobCode, Ctx2BlobCode, Keeps, Built, Under, Ctx;
    Two(t);
    var f1 := if want.with_btf then [Field(48, 4, U32(At(t.s.stack, 0)))] else [];
    var f2 := if want.outer then [Field(20, 4, U32(At(t.s.stack, 1)))] else [];
    var p1 := MapBtf(p, t.attr, want.with_btf);
    var p2 := MapInner(p1, t.attr, want.outer);
    m2 := t.m;
    if want.with_btf { m2 := PutStack(t, m2, [], p, 48, 0); }
    assert [] + f1 == f1;
    if want.outer { m2 := PutStack(t, m2, f1, p1, 20, 1); }
    assert f1 + [] == f1;
    if want.idx >= 0 { m2 := PutCtx(t, m2, f1 + f2, p2, 12, 4, CTX_SIZE + MAP_DESC_SIZE * want.idx + 8, true); }
    assert f1 + f2 + [] == f1 + f2;
  }

  /** The descriptor of a map that is tracked goes to its slot in the blob. */
  lemma {:induction false} MapKept(t: Task, ws: seq<Want>, want: Want, m1: Machine, p: Code, idx: nat) returns (m2: Machine)
    requires Proper(t) && WasIssued(t, ws, want, m1) && m1.pc == |p| && MapStore(p, idx) <= t.n
    requires idx == |t.s.maps| < MAX_USED_MAPS && After(t.s, want, m1.r[7]) == t.s.(maps := t.s.maps + [m1.r[7]])
    ensures Gets(t.n, t.w.o, t.m, m2) && m2.r[6] == t.w.ctx && m2.r[10] == t.w.sp && m2.pc == |MapStore(p, idx)| && m2.trace == m1.trace
    ensures Keeps(t.w, t.dl2, SlotsIn(ws + [want], m2.trace), m2.mem)
  {
    hide Run, Good, SlotsIn, After, Touched, Keeps, StoreMem, Apart;
    m2 := DoLoad(t.n, t.w.o, t.m, m1, 1, 4 * idx);
    m2 := DoStx(t.n, t.w.o, t.m, m2, 4, 1, 7, 0);
    StillKeeps(t, m1.mem);
    MapPut(t.w, t.dl2, t.s, m1.mem, m1.r[7]);
  }

  lemma {:induction false} StoreMap(t: Task, ws: seq<Want>, want: Want, m1: Machine, p: Code) returns (m2: Machine)
    requires want.MapNew? && Proper(t) && WasIssued(t, ws, want, m1) && m1.pc == |p| && MapStore(p, want.idx) <= t.n
    requires want.idx < 0 || want.idx == |t.s.maps| < MAX_USED_MAPS
    ensures Gets(t.n, t.w.o, t.m, m2) && m2.r[6] == t.w.ctx && m2.r[10] == t.w.sp && m2.pc == |MapStore(p, want.idx)| && m2.trace == m1.trace
    ensures Keeps(t.w, t.dl2, SlotsIn(ws + [want], m2.trace), m2.mem)
  {
    hide Run, Proper, WasIssued, Keeps, SlotsIn;
    Two(t);
    if want.idx < 0 { m2 := StackKept(t, ws, want, m1, p, 1); } else { m2 := MapKept(t, ws, want, m1, p, want.idx); }
  }

  /** Logs and closes after a descriptor is kept. */
  lemma {:induction false} GotThereIdle(t: Task, ws: seq<Want>, want: Want, m1: Machine, p: Code, q: Code, home: nat)
    requires Gets(t.n, t.w.o, t.m, m1) && m1.r[6] == t.w.ctx && m1.r[10] == t.w.sp && m1.pc == |p| && Idles(p, q, true, false) && q <= t.n
    requires Good(t.w, ws + [want], m1.trace) && Keeps(t.w, t.dl2, SlotsIn(ws + [want], m1.trace), m1.mem)
    ensures LeadsTo(t.n, t.w, ws, want, t.m, q, home, t.dl2)
  {
    hide Run, Good, SlotsIn, Keeps, Adds;
    var m2 := DoIdle(t.n, t.w.o, t.m, m1, p, q, true, false);
    GoodAdds(t.w, ws + [want], m1.trace, m2.trace);
    GotThere(t, ws, want, m2, q, home);
  }

  lemma {:induction false} RunMapCreate(t: Task, ws: seq<Want>, want: Want, p: Code, p4: Code, q: Code, home: nat)
    requires Doing(t, t.m, []) && Follows(t, ws) && want.MapNew? && t.attr == want.attr && t.size == MAP_ATTR_SIZE
    requires t.m.pc == |p| && Idles(MapCode(p, want), p4, true, true) && Idles(MapStore(CheckCode(p4, home), want.idx), q, true, false) && q <= t.n
    requires want.idx < 0 || want.idx == |t.s.maps| < MAX_USED_MAPS
    ensures LeadsTo(t.n, t.w, ws, want, t.m, q, home, t.dl2)
  {
    hide Run, Follows, WasIssued, MapFill, MapStore, SysBpfCode, IdlesTo, CheckCode, Good, Keeps, Built, AttrHolds, Under;
    var c := CheckCode(p4, home);
    var f := MapFill(p, want.attr, want.with_btf, want.outer, want.idx);
    assert f <= MapCode(p, want) <= p4 <= c <= MapStore(c, want.idx) <= q <= t.n;
    var m2 := FillMap(t, want, p);
    m2 := DoCommand(t, ws, want, m2, f, p4, true, home);
    if m2.pc == home {
      WentHome(t, ws, want, m2, q, home);
    } else {
      var m3 := StoreMap(t, ws, want, m2, c);
      KeptGood(t, ws, want, m2, m3);
      GotThereIdle(t, ws, want, m3, MapStore(c, want.idx), q, home);
    }
  }

  lemma {:induction false} MapCreateLeads(p: Code, p4: Code, q: Code, home: nat, dl: int, dl2: int, want: Want, maps: nat, progs: nat)
    requires want.MapNew? && Idles(MapCode(p, want), p4, true, true) && Idles(MapStore(CheckCode(p4, home), want.idx), q, true, false)
    requires 1280 <= dl <= want.attr && want.attr + MAP_ATTR_SIZE <= dl2
    requires want.idx < 0 || want.idx == maps < MAX_USED_MAPS
    ensures Leads(p, q, home, dl, dl2, want, maps, progs)
  {
    hide Sound, Apart, LeadsTo, MapCode, MapStore, IdlesTo, CheckCode, Doing, Proper, Follows;
    assert p <= MapCode(p, want) <= p4 <= CheckCode(p4, home) <= MapStore(CheckCode(p4, home), want.idx) <= q;
    forall n: Code, w: World, ws: seq<Want>, m: Machine | Leaving(n, w, ws, m, p, q, dl, dl2, maps, progs)
      ensures LeadsTo(n, w, ws, want, m, q, home, dl2)
    {
      var a := Area(dl, dl, dl2, dl2);
      Starting(n, w, ws, m, p, q, dl, dl2, maps, progs, want, a);
      RunMapCreate(TaskOf(n, w, ws, m, dl, dl2, want, a), ws, want, p, p4, q, home);
    }
  }

  /** What fills in the attributes of a program, but for its attach target. */
  function ProgRels(p: Code, want: Want): (n: Code)
    requires want.ProgNew?
    ensures p <= n
  {
    var a := want.attr;
    RelStoreCode(RelStoreCode(RelStoreCode(RelStoreCode(RelStoreCode(RelStoreCode(p, a + 16, want.license), a + 8, want.insns),
      a + 80, want.func_info), a + 96, want.line_info), a + 128, want.core_relos), a + 120, 0)
  }

  function ProgFill(p: Code, want: Want): (n: Code)
    requires want.ProgNew?
    ensures p <= n
  {
    Stack2BlobCode(LogCode(ProgRels(p, want), want.attr + 24, want.attr + 28, want.attr + 32), want.attr + 72, 4, BTF_FD)
  }

  function RelFields(w: World, want: Want): seq<Field>
    requires want.ProgNew?
  {
    [Field(16, 8, w.o.blob + want.license), Field(8, 8, w.o.blob + want.insns), Field(80, 8, w.o.blob + want.func_info),
     Field(96, 8, w.o.blob + want.line_info), Field(128, 8, w.o.blob + want.core_relos), Field(120, 8, w.o.blob)]
  }

  lemma {:induction false} FillRels(t: Task, want: Want, p: Code) returns (m2: Machine)
    requires Doing(t, t.m, []) && want.ProgNew? && t.attr == want.attr && t.size == PROG_ATTR_SIZE && t.m.pc == |p| && ProgRels(p, want) <= t.n
    ensures Doing(t, m2, RelFields(t.w, want)) && m2.pc == |ProgRels(p, want)|
  {
    hide Doing, RelStoreCode;
    var fs := RelFields(t.w, want);
    var p1 := RelStoreCode(p, t.attr + 16, want.license);
    var p2 := RelStoreCode(p1, t.attr + 8, want.insns);
    var p3 := RelStoreCode(p2, t.attr + 80, want.func_info);
    var p4 := RelStoreCode(p3, t.attr + 96, want.line_info);
    var p5 := RelStoreCode(p4, t.attr + 128, want.core_relos);
    assert p1 <= p2 <= p3 <= p4 <= p5 <= ProgRels(p, want);
    m2 := PutRel(t, t.m, [], p, 16, want.license);
    assert [] + [fs[0]] == fs[..1];
    m2 := PutRel(t, m2, fs[..1], p1, 8, want.insns);
    assert fs[..1] + [fs[1]] == fs[..2];
    m2 := PutRel(t, m2, fs[..2], p2, 80, want.func_info);
    assert fs[..2] + [fs[2]] == fs[..3];
    m2 := PutRel(t, m2, fs[..3], p3, 96, want.line_info);
    assert fs[..3] + [fs[3]] == fs[..4];
    m2 := PutRel(t, m2, fs[..4], p4, 128, want.core_relos);
    assert fs[..4] + [fs[4]] == fs[..5];
    m2 := PutRel(t, m2, fs[..5], p5, 120, 0);
    assert fs[..5] + [fs[5]] == fs;
  }

  lemma {:induction false} FillProg(t: Task, want: Want, p: Code) returns (m2: Machine)
    requires Doing(t, t.m, []) && want.ProgNew? && t.attr == want.attr && t.size == PROG_ATTR_SIZE && t.m.pc == |p| && ProgFill(p, want) <= t.n
    requires 0 < |t.s.stack|
    ensures Doing(t, m2, FieldsOf(t.w, t.s, want)) && m2.pc == |ProgFill(p, want)|
  {
    hide Doing, ProgRels, LogCode, Stack2BlobCode, Ctx;
    var p1 := ProgRels(p, want);
    var p2 := LogCode(p1, t.attr + 24, t.attr + 28, t.attr + 32);
    assert p1 <= p2 <= ProgFill(p, want);
    m2 := FillRels(t, want, p);
    m2 := PutLog(t, m2, RelFields(t.w, want), p1, 24, 28, 32);
    m2 := PutStack(t, m2, RelFields(t.w, want) + LogFields(t.w, 24, 28, 32), p2, 72, 0);
  }

  /** A lookup of an attach target, logged as `f`, whose result goes to the attributes. */
  function AttachStore(f: Code, home: int, attr: int): (n: Code)
    ensures f <= n
  {
    CheckCode(f, home) + [LdLo(0, attr), LdHi] + [Stx(4, 0, 7, 108)] + [Alu(Rsh, 7, 32)] + [Stx(4, 0, 7, 112)]
  }

  lemma {:induction false} DoAttachStore(t: Task, m1: Machine, fs: seq<Field>, f: Code, home: nat) returns (m2: Machine)
    requires Doing(t, m1, fs) && m1.pc == |f| && AttachStore(f, home, t.attr) <= t.n && t.size == PROG_ATTR_SIZE
    ensures Proper(t) && Under(t, m2) && (m2.pc == home || m2.pc == |AttachStore(f, home, t.attr)|)
    ensures m2.pc != home ==> m1.r[7] >= 0 && Doing(t, m2, fs + AttachFields(m1.r[7])) && m2.trace == m1.trace
  {
    hide Run, Proper, Built, StoreMem, Computed, High, Touched;
    m2 := DoJmp(t.n, t.w.o, t.m, m1, Jslt, 7, 0, home - |f| - 1);
    if m1.r[7] >= 0 {
      m2 := DoLoad(t.n, t.w.o, t.m, m2, 0, t.attr);
      m2 := DoStx(t.n, t.w.o, t.m, m2, 4, 0, 7, 108);
      FieldPut2(t, m1, m2, fs, Field(108, 4, m1.r[7]));
      var c := m2;
      m2 := DoAlu(t.n, t.w.o, t.m, m2, Rsh, 7, 32);
      HighIs(m1.r[7]);
      m2 := DoStx(t.n, t.w.o, t.m, m2, 4, 0, 7, 112);
      FieldPut2(t, c, m2, fs + [Field(108, 4, m1.r[7])], Field(112, 4, High(m1.r[7])));
      assert fs + [Field(108, 4, m1.r[7])] + [Field(112, 4, High(m1.r[7]))] == fs + AttachFields(m1.r[7]);
    }
  }

  /** Filling in a field, with other registers. */
  lemma {:induction false} FieldPut2(t: Task, m1: Machine, m2: Machine, fs: seq<Field>, f: Field)
    requires Doing(t, m1, fs) && Gets(t.n, t.w.o, t.m, m2) && m2.trace == m1.trace && m2.r[6] == m1.r[6] && m2.r[10] == m1.r[10]
    requires 0 <= f.off && f.off + f.size <= t.size && m2.mem == StoreMem(m1.mem, t.w.o.blob + t.attr + f.off, f.size, f.value)
    ensures Doing(t, m2, fs + [f])
  {
    hide Gets, Inside;
    var fs2 := fs + [f];
    assert fs2[..|fs2| - 1] == fs;
  }

  /** The code between the first fields and the relocations. */
  ghost predicate Attaches(p: Code, q: Code, want: Want, home: int) {
    want.ProgNew? &&
    match want.target
    case None => q == p
    case Some(g) => exists f :: Idles(FindCode(p, g.name, g.len, g.kind), f, true, true) && q == AttachStore(f, home, want.attr)
  }

  /** The fields once the attach target, if there is one, has been found. */
  ghost predicate Attached(t: Task, want: Want, m2: Machine) {
    want.ProgNew? &&
    match want.target
    case None => Doing(t, m2, FieldsOf(t.w, t.s, want))
    case Some(g) => exists ret {:trigger AttachFields(ret)} ::
      ret >= 0 && Found(t.w.o.blob + g.name, g.len, g.kind, ret) in m2.trace && Doing(t, m2, FieldsOf(t.w, t.s, want) + AttachFields(ret))
  }

  lemma {:induction false} DoAttach(t: Task, m1: Machine, want: Want, p: Code, q: Code, home: nat) returns (m2: Machine)
    requires want.ProgNew? && Doing(t, m1, FieldsOf(t.w, t.s, want)) && m1.pc == |p| && Attaches(p, q, want, home) && q <= t.n
    requires t.attr == want.attr && t.size == PROG_ATTR_SIZE
    ensures Proper(t) && Under(t, m2) && (m2.pc == home || (m2.pc == |q| && Attached(t, want, m2)))
  {
    hide Run, Proper, Under, Built, FieldsOf, FindCode, AttachStore, IdlesTo, AttachFields;
    m2 := m1;
    if want.target != None {
      var g := want.target.value;
      var f :| Idles(FindCode(p, g.name, g.len, g.kind), f, true, true) && q == AttachStore(f, home, want.attr);
      assert FindCode(p, g.name, g.len, g.kind) <= f <= q <= t.n;
      m2 := DoTarget(t, m1, FieldsOf(t.w, t.s, want), g, p, f);
      var ret := m2.r[7];
      m2 := DoAttachStore(t, m2, FieldsOf(t.w, t.s, want), f, home);
      if m2.pc != home { assert Doing(t, m2, FieldsOf(t.w, t.s, want) + AttachFields(ret)); }
    }
  }

  lemma {:induction false} DoTarget(t: Task, m1: Machine, fs: seq<Field>, g: Target, p: Code, f: Code) returns (m2: Machine)
    requires Doing(t, m1, fs) && m1.pc == |p| && Idles(FindCode(p, g.name, g.len, g.kind), f, true, true) && f <= t.n
    ensures Doing(t, m2, fs) && m2.pc == |f| && |m2.r| == 11 && Found(t.w.o.blob + g.name, g.len, g.kind, m2.r[7]) in m2.trace
  {
    hide Run, Built, FindCode, IdlesTo, Proper;
    var c := FindCode(p, g.name, g.len, g.kind);
    assert c <= f <= t.n && |m1.r| == 11;
    var m3 := DoFind(t.n, t.w.o, t.m, m1, p, g.name, g.len, g.kind);
    assert m3.trace[|m1.trace|] == Found(t.w.o.blob + g.name, g.len, g.kind, m3.r[7]);
    m2 := DoIdle(t.n, t.w.o, t.m, m3, c, f, true, true);
    StillDoing(t, m1, m2, fs);
    assert m2.trace[|m1.trace|] == m3.trace[|m1.trace|];
  }

  /** The relocations leave the attributes alone. */
  lemma {:induction false} AttachedStill(t: Task, want: Want, m1: Machine, m2: Machine, q: Code, home: int)
    requires want.ProgNew? && Attached(t, want, m1) && Gets(t.n, t.w.o, t.m, m2) && StayedBy(t.n, t.w.o, m1, q, home, t.area, m2)
    ensures Proper(t) && Under(t, m2) && Attached(t, want, m2)
  {
    hide Gets, Built, FieldsOf, Proper, AttachFields;
    if want.target == None {
      StillDoing(t, m1, m2, FieldsOf(t.w, t.s, want));
    } else {
      var g := want.target.value;
      var ret :| ret >= 0 && Found(t.w.o.blob + g.name, g.len, g.kind, ret) in m1.trace && Doing(t, m1, FieldsOf(t.w, t.s, want) + AttachFields(ret));
      StillDoing(t, m1, m2, FieldsOf(t.w, t.s, want) + AttachFields(ret));
    }
  }

  /** A run that goes to the cleanup code before the command is issued. */
  lemma {:induction false} WentEarly(t: Task, ws: seq<Want>, want: Want, m2: Machine, q: Code, home: nat)
    requires Proper(t) && Under(t, m2) && Follows(t, ws) && m2.pc == home
    ensures LeadsTo(t.n, t.w, ws, want, t.m, q, home, t.dl2)
  {
    hide Gets, Good, SlotsIn, Adds;
    GoodAdds(t.w, ws, t.m.trace, m2.trace);
    var ws2 := ws + [want];
    assert ws2[..|ws|] == ws;
    assert LedBy(t.n, t.w, ws, want, t.m, q, home, t.dl2, m2);
  }

  /** The data of a program. */
  predicate ProgData(want: Want, dl: int, dl2: int, size: int) {
    && want.ProgNew? && 1280 <= dl <= want.license <= want.insns && 0 <= size && want.insns + size <= want.func_info <= want.attr
    && want.attr + PROG_ATTR_SIZE <= dl2
  }

  function ProgArea(want: Want, size: int, dl2: int): Area
    requires want.ProgNew?
  {
    Area(want.insns, want.insns + size, want.attr + PROG_ATTR_SIZE, dl2)
  }

  lemma {:induction false} ProgAttrHolds(t: Task, want: Want, m2: Machine, size: int)
    requires ProgData(want, t.dl, t.dl2, size) && t.area == ProgArea(want, size, t.dl2) && t.attr == want.attr && t.size == PROG_ATTR_SIZE
    requires Attached(t, want, m2)
    ensures Proper(t) && Under(t, m2) && AttrHolds(t.w, t.s, want, m2.trace, m2.mem)
  {
    hide Built, FieldsOf, Gets, Keeps, Adds;
    StillFresh(t, m2, want.license, want.insns);
    StillFresh(t, m2, want.func_info, want.attr);
  }

  /** The code of a program load: the attach target up to `a`, the relocations up to `r`, the command, what is logged and closed up to `c`. */
  ghost predicate LoadsProg(p: Code, a: Code, r: Code, c: Code, q: Code, want: Want, size: int, dl2: int, home: nat, i: nat) {
    && want.ProgNew? && Attaches(ProgFill(p, want), a, want, home) && Stays(a, r, home, None, ProgArea(want, size, dl2))
    && Idles(SysBpfCode(r, PROG_LOAD, want.attr, PROG_ATTR_SIZE), c, true, false)
    && q == CheckCode(c, home) + [Stx(4, 10, 7, -STACK_SZ + 4 * i)]
  }

  lemma {:induction false} LoadsOrder(p: Code, a: Code, r: Code, c: Code, q: Code, want: Want, size: int, dl2: int, home: nat, i: nat)
    requires LoadsProg(p, a, r, c, q, want, size, dl2, home, i)
    ensures p <= ProgFill(p, want) <= a <= r <= c <= CheckCode(c, home) <= q
  {
    hide ProgFill, SysBpfCode, StaysTo, IdlesTo, AttachStore, FindCode;
    if want.target != None {
      var g := want.target.value;
      var f :| Idles(FindCode(ProgFill(p, want), g.name, g.len, g.kind), f, true, true) && a == AttachStore(f, home, want.attr);
      assert ProgFill(p, want) <= FindCode(ProgFill(p, want), g.name, g.len, g.kind) <= f <= a;
    }
    assert r <= SysBpfCode(r, PROG_LOAD, want.attr, PROG_ATTR_SIZE) <= c;
  }

  /** All up to the command: the attributes are as they must be, or the run is in the cleanup code. */
  lemma {:induction false} RunToLoad(t: Task, want: Want, p: Code, a: Code, r: Code, c: Code, q: Code, size: int, home: nat, i: nat)
    returns (m2: Machine)
    requires Doing(t, t.m, []) && t.m.pc == |p| && LoadsProg(p, a, r, c, q, want, size, t.dl2, home, i) && q <= t.n
    requires ProgData(want, t.dl, t.dl2, size) && t.area == ProgArea(want, size, t.dl2) && t.attr == want.attr && t.size == PROG_ATTR_SIZE
    requires 0 < |t.s.stack|
    ensures Proper(t) && Under(t, m2)
    ensures m2.pc == home || (m2.pc == |r| && AttrHolds(t.w, t.s, want, m2.trace, m2.mem))
  {
    hide Run, Proper, Under, AttrHolds, StaysTo, StayedBy, IdlesTo, Attaches, ProgFill, Attached;
    LoadsOrder(p, a, r, c, q, want, size, t.dl2, home, i);
    m2 := FillProg(t, want, p);
    m2 := DoAttach(t, m2, want, ProgFill(p, want), a, home);
    if m2.pc != home {
      UnderGets(t, m2);
      var m3 := DoStay(t.n, t.w.o, t.m, m2, a, r, home, None, t.area);
      StayedPc(t.n, t.w.o, m2, r, home, t.area, m3);
      AttachedStill(t, want, m2, m3, r, home);
      ProgAttrHolds(t, want, m3, size);
      m2 := m3;
    }
  }

  lemma {:induction false} UnderGets(t: Task, m2: Machine)
    requires Under(t, m2)
    ensures Gets(t.n, t.w.o, t.m, m2)
  {
  }

  lemma {:induction false} StayedPc(n: Code, o: Oracle, m: Machine, q: Code, home: int, a: Area, m2: Machine)
    requires StayedBy(n, o, m, q, home, a, m2)
    ensures m2.pc == |q| || m2.pc == home
  {
  }

  lemma {:induction false} RunProgLoad(t: Task, ws: seq<Want>, want: Want, p: Code, a: Code, r: Code, c: Code, q: Code, size: int, home: nat, i: nat)
    requires Doing(t, t.m, []) && t.m.pc == |p| && LoadsProg(p, a, r, c, q, want, size, t.dl2, home, i) && q <= t.n && Follows(t, ws)
    requires ProgData(want, t.dl, t.dl2, size) && t.area == ProgArea(want, size, t.dl2) && t.attr == want.attr && t.size == PROG_ATTR_SIZE
    requires 0 < i == |t.s.stack| < 2 + MAX_USED_PROGS
    ensures LeadsTo(t.n, t.w, ws, want, t.m, q, home, t.dl2)
  {
    hide Run, Proper, Under, AttrHolds, StaysTo, IdlesTo, Attaches, ProgFill, Doing;
    hide Follows, Stays, ProgData, Good, SlotsIn, Keeps, WasIssued, SysBpfCode, CheckCode;
    LoadsOrder(p, a, r, c, q, want, size, t.dl2, home, i);
    var m1 := RunToLoad(t, want, p, a, r, c, q, size, home, i);
    if m1.pc == home {
      WentEarly(t, ws, want, m1, q, home);
      return;
    }
    var m2 := DoCommand(t, ws, want, m1, r, c, false, home);
    if m2.pc == home {
      WentHome(t, ws, want, m2, q, home);
    } else {
      var m3 := StackKept(t, ws, want, m2, CheckCode(c, home), i);
      KeptGood(t, ws, want, m2, m3);
      GotThere(t, ws, want, m3, q, home);
    }
  }

  lemma {:induction false} ProgLoadLeads(p: Code, a: Code, r: Code, c: Code, q: Code, home: nat, dl: int, dl2: int, want: Want,
                                         size: int, maps: nat, progs: nat)
    requires LoadsProg(p, a, r, c, q, want, size, dl2, home, 2 + progs) && ProgData(want, dl, dl2, size) && progs < MAX_USED_PROGS
    ensures Leads(p, q, home, dl, dl2, want, maps, progs)
  {
    hide Sound, Apart, LeadsTo, LoadsProg, CheckCode, Doing, Proper, Follows, ProgFill;
    LoadsOrder(p, a, r, c, q, want, size, dl2, home, 2 + progs);
    forall n: Code, w: World, ws: seq<Want>, m: Machine | Leaving(n, w, ws, m, p, q, dl, dl2, maps, progs)
      ensures LeadsTo(n, w, ws, want, m, q, home, dl2)
    {
      var area := ProgArea(want, size, dl2);
      Starting(n, w, ws, m, p, q, dl, dl2, maps, progs, want, area);
      RunProgLoad(TaskOf(n, w, ws, m, dl, dl2, want, area), ws, want, p, a, r, c, q, size, home, 2 + progs);
    }
  }
}
