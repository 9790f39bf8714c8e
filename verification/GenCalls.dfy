/** Every run of a call's code issues the command that was wanted, with the attributes it needs. */
module GenCalls {
  import opened Common
  import opened BpfMachine
  import opened BpfFlow
  import opened BpfRuns
  import opened GenEmit
  import opened GenRuns
  import opened GenMeaning
  import opened GenTasks

  function TaskOf(n: Code, w: World, ws: seq<Want>, m: Machine, dl: int, dl2: int, want: Want, area: Area): Task {
    Task(w, n, m, SlotsIn(ws, m.trace), dl, dl2, want.attr, SizeOf(want), area)
  }

  /** The area a command's code may write to. */
  predicate AreaOk(a: Area, dl: int, dl2: int, want: Want) {
    dl <= a.lo && a.hi <= want.attr && want.attr + SizeOf(want) <= a.from && a.to <= dl2
  }

  lemma {:induction false} Starting(n: Code, w: World, ws: seq<Want>, m: Machine, p: Code, q: Code, dl: int, dl2: int,
                                    maps: nat, progs: nat, want: Want, area: Area)
    requires Leaving(n, w, ws, m, p, q, dl, dl2, maps, progs) && 1280 <= dl <= want.attr && want.attr + SizeOf(want) <= dl2
    requires AreaOk(area, dl, dl2, want)
    ensures var t := TaskOf(n, w, ws, m, dl, dl2, want, area);
            Doing(t, m, []) && Proper(t) && Follows(t, ws) && |t.s.maps| == maps && |t.s.stack| == 2 + progs
  {
    hide Good, SlotsIn, Keeps;
    SlotCounts(w, ws, m.trace);
    Begin(TaskOf(n, w, ws, m, dl, dl2, want, area));
  }

  /** The log details the user provides go to the attributes. */
  function LogCode(p: Code, level: int, size: int, buf: int): (n: Code)
    ensures p <= n
  {
    Ctx2BlobCode(Ctx2BlobCode(Ctx2BlobCode(p, level, 4, 8, false), size, 4, 12, false), buf, 8, 16, false)
  }

  lemma {:induction false} PutLog(t: Task, m1: Machine, fs: seq<Field>, p: Code, level: nat, size: nat, buf: nat) returns (m2: Machine)
    requires Doing(t, m1, fs) && m1.pc == |p| && LogCode(p, t.attr + level, t.attr + size, t.attr + buf) <= t.n
    requires level + 4 <= t.size && size + 4 <= t.size && buf + 8 <= t.size
    ensures Doing(t, m2, fs + LogFields(t.w, level, size, buf)) && m2.pc == |LogCode(p, t.attr + level, t.attr + size, t.attr + buf)|
  {
    hide Doing, Ctx2BlobCode, Ctx;
    var p1 := Ctx2BlobCode(p, t.attr + level, 4, 8, false);
    var p2 := Ctx2BlobCode(p1, t.attr + size, 4, 12, false);
    m2 := PutCtx(t, m1, fs, p, level, 4, 8, false);
    m2 := PutCtx(t, m2, fs + [Field(level, 4, Ctx(t.w, 8, 4))], p1, size, 4, 12, false);
    m2 := PutCtx(t, m2, fs + [Field(level, 4, Ctx(t.w, 8, 4))] + [Field(size, 4, Ctx(t.w, 12, 4))], p2, buf, 8, 16, false);
    assert fs + [Field(level, 4, Ctx(t.w, 8, 4))] + [Field(size, 4, Ctx(t.w, 12, 4))] + [Field(buf, 8, Ctx(t.w, 16, 8))]
           == fs + LogFields(t.w, level, size, buf);
  }

  /** What `bpf_gen__load_btf` emits up to the command. */
  function BtfCode(p: Code, attr: int, data: int): (n: Code)
    ensures p <= n
  {
    SysBpfCode(BtfFill(p, attr, data), BTF_LOAD, attr, BTF_ATTR_SIZE)
  }

  function BtfFill(p: Code, attr: int, data: int): (n: Code)
    ensures p <= n
  {
    RelStoreCode(LogCode(p, attr + 24, attr + 20, attr + 8), attr, data)
  }

  lemma {:induction false} FillBtf(t: Task, want: Want, p: Code) returns (m2: Machine)
    requires Doing(t, t.m, []) && want.BtfLoad? && t.attr == want.attr && t.size == BTF_ATTR_SIZE && t.area == Area(t.dl, t.dl, t.dl2, t.dl2)
    requires t.m.pc == |p| && BtfCode(p, want.attr, want.data) <= t.n && t.dl <= want.data
    ensures Proper(t) && Under(t, m2) && m2.pc == |BtfFill(p, want.attr, want.data)| && AttrHolds(t.w, t.s, want, m2.trace, m2.mem)
  {
    hide Run, RelStoreCode, LogCode, SysBpfCode, Keeps, Built;
    var p1 := LogCode(p, t.attr + 24, t.attr + 20, t.attr + 8);
    assert p1 <= BtfFill(p, t.attr, want.data) <= BtfCode(p, want.attr, want.data) <= t.n;
    m2 := PutLog(t, t.m, [], p, 24, 20, 8);
    assert [] + LogFields(t.w, 24, 20, 8) == LogFields(t.w, 24, 20, 8);
    m2 := PutRel(t, m2, LogFields(t.w, 24, 20, 8), p1, 0, want.data);
    StillFresh(t, m2, want.data, want.attr);
  }

  lemma {:induction false} RunLoadBtf(t: Task, ws: seq<Want>, want: Want, p: Code, p4: Code, q: Code, home: nat)
    requires Doing(t, t.m, []) && Follows(t, ws) && want.BtfLoad? && t.attr == want.attr && t.size == BTF_ATTR_SIZE
    requires t.area == Area(t.dl, t.dl, t.dl2, t.dl2)
    requires t.m.pc == |p| && Idles(BtfCode(p, want.attr, want.data), p4, true, true) && t.dl <= want.data
    requires q == CheckCode(p4, home) + [Stx(4, 10, 7, BTF_FD)] && q <= t.n
    ensures LeadsTo(t.n, t.w, ws, want, t.m, q, home, t.dl2)
  {
    hide Run, Follows, WasIssued, BtfFill, SysBpfCode, IdlesTo, CheckCode, Good, Keeps, Built, AttrHolds, Under;
    assert CheckCode(p4, home) <= t.n && p4 <= CheckCode(p4, home) && BtfCode(p, want.attr, want.data) <= t.n;
    var m2 := FillBtf(t, want, p);
    m2 := DoCommand(t, ws, want, m2, BtfFill(p, want.attr, want.data), p4, true, home);
    if m2.pc == home {
      WentHome(t, ws, want, m2, q, home);
    } else {
      Two(t);
      var m3 := StackKept(t, ws, want, m2, CheckCode(p4, home), 0);
      KeptGood(t, ws, want, m2, m3);
      GotThere(t, ws, want, m3, q, home);
    }
  }

  lemma {:induction false} Two(t: Task)
    requires Proper(t)
    ensures 2 <= |t.s.stack| <= 2 + MAX_USED_PROGS && |t.s.maps| <= MAX_USED_MAPS
  {
  }

  lemma {:induction false} KeptGood(t: Task, ws: seq<Want>, want: Want, m1: Machine, m2: Machine)
    requires WasIssued(t, ws, want, m1) && m2.trace == m1.trace
    ensures Good(t.w, ws + [want], m2.trace)
  {
  }

  lemma {:induction false} LoadBtfLeads(p: Code, p4: Code, q: Code, home: nat, dl: int, dl2: int, want: Want, maps: nat, progs: nat)
    requires want.BtfLoad? && Idles(BtfCode(p, want.attr, want.data), p4, true, true)
    requires 1280 <= dl <= want.data <= want.attr && want.attr + BTF_ATTR_SIZE <= dl2
    requires q == CheckCode(p4, home) + [Stx(4, 10, 7, BTF_FD)]
    ensures Leads(p, q, home, dl, dl2, want, maps, progs)
  {
    hide Sound, Apart, LeadsTo, BtfCode, IdlesTo, CheckCode;
    assert p <= BtfCode(p, want.attr, want.data) <= p4 <= CheckCode(p4, home) <= q;
    forall n: Code, w: World, ws: seq<Want>, m: Machine | Leaving(n, w, ws, m, p, q, dl, dl2, maps, progs)
      ensures LeadsTo(n, w, ws, want, m, q, home, dl2)
    {
      var a := Area(dl, dl, dl2, dl2);
      Starting(n, w, ws, m, p, q, dl, dl2, maps, progs, want, a);
      RunLoadBtf(TaskOf(n, w, ws, m, dl, dl2, want, a), ws, want, p, p4, q, home);
    }
  }

  /** What fills in the attributes of an element command. */
  function ElemFill(p: Code, attr: int, idx: int, key: int, value: int): (n: Code)
    ensures p <= n
  {
    RelStoreCode(RelStoreCode(Blob2BlobCode(p, attr, 4, 4 * idx), attr + 8, key), attr + 16, value)
  }

  function ElemCode(p: Code, attr: int, idx: int, key: int, value: int): (n: Code)
    ensures p <= n
  {
    SysBpfCode(ElemFill(p, attr, idx, key, value), MAP_UPDATE_ELEM, attr, ELEM_ATTR_SIZE)
  }

  lemma {:induction false} FillElem(t: Task, p: Code, idx: nat, key: int, value: int) returns (m2: Machine)
    requires Doing(t, t.m, []) && t.size == ELEM_ATTR_SIZE && t.m.pc == |p| && ElemFill(p, t.attr, idx, key, value) <= t.n && idx < |t.s.maps|
    ensures Doing(t, m2, [Field(0, 4, U32(At(t.s.maps, idx))), Field(8, 8, t.w.o.blob + key), Field(16, 8, t.w.o.blob + value)])
    ensures m2.pc == |ElemFill(p, t.attr, idx, key, value)|
  {
    hide Doing, RelStoreCode, Blob2BlobCode;
    var a := [Field(0, 4, U32(At(t.s.maps, idx)))];
    var b := a + [Field(8, 8, t.w.o.blob + key)];
    var p1 := Blob2BlobCode(p, t.attr, 4, 4 * idx);
    var p2 := RelStoreCode(p1, t.attr + 8, key);
    m2 := PutMap(t, t.m, [], p, 0, idx);
    assert [] + a == a;
    m2 := PutRel(t, m2, a, p1, 8, key);
    m2 := PutRel(t, m2, b, p2, 16, value);
    assert b + [Field(16, 8, t.w.o.blob + value)]
           == [Field(0, 4, U32(At(t.s.maps, idx))), Field(8, 8, t.w.o.blob + key), Field(16, 8, t.w.o.blob + value)];
  }

  /** An update at the address of data, which the copy of an initial value left as it must be. */
  lemma {:induction false} FillUpdate(t: Task, want: Want, p: Code) returns (m2: Machine)
    requires Doing(t, t.m, []) && want.Update? && t.attr == want.attr && t.size == ELEM_ATTR_SIZE && t.area == Area(t.dl, t.dl, t.dl2, t.dl2)
    requires t.m.pc == |p| && ElemFill(p, want.attr, want.map_idx, want.key, want.value) <= t.n && 0 <= want.map_idx < |t.s.maps|
    requires want.key == t.dl && 1280 <= want.value && want.value + want.value_size <= want.key
    requires ValueOk(t.w, t.m.mem, want.map_idx, want.value, want.value_size)
    ensures Proper(t) && Under(t, m2) && m2.pc == |ElemFill(p, want.attr, want.map_idx, want.key, want.value)|
    ensures AttrHolds(t.w, t.s, want, m2.trace, m2.mem)
  {
    hide Run, ElemFill, Keeps, Built;
    m2 := FillElem(t, p, want.map_idx, want.key, want.value);
    StillFresh(t, m2, want.key, want.attr);
    ValueStill(t, m2, want);
  }

  lemma {:induction false} ValueStill(t: Task, m2: Machine, want: Want)
    requires want.Update? && Proper(t) && Under(t, m2) && 1280 <= want.value && want.value + want.value_size <= t.dl
    requires t.area == Area(t.dl, t.dl, t.dl2, t.dl2) && ValueOk(t.w, t.m.mem, want.map_idx, want.value, want.value_size)
    ensures ValueOk(t.w, m2.mem, want.map_idx, want.value, want.value_size)
  {
    hide Gets, Adds, Keeps, InitialValue;
    var lo, hi := t.w.o.blob + want.value, t.w.o.blob + want.value + want.value_size;
    assert forall x :: lo <= x < hi ==> m2.mem(x) == t.m.mem(x);
  }

  lemma {:induction false} FillPopulate(t: Task, want: Want, p: Code) returns (m2: Machine)
    requires Doing(t, t.m, []) && want.Populate? && t.attr == want.attr && t.size == ELEM_ATTR_SIZE && t.area == Area(t.dl, t.dl, t.dl2, t.dl2)
    requires t.m.pc == |p| && ElemFill(p, want.attr, want.outer_idx, want.key, 4 * want.inner_idx) <= t.n
    requires 0 <= want.outer_idx < |t.s.maps| && 0 <= want.inner_idx < |t.s.maps| && t.dl <= want.key
    ensures Proper(t) && Under(t, m2) && m2.pc == |ElemFill(p, want.attr, want.outer_idx, want.key, 4 * want.inner_idx)|
    ensures AttrHolds(t.w, t.s, want, m2.trace, m2.mem)
  {
    hide Run, ElemFill, Keeps, Built;
    m2 := FillElem(t, p, want.outer_idx, want.key, 4 * want.inner_idx);
    StillFresh(t, m2, want.key, want.attr);
    SlotSame(t, m2);
    assert At(t.s.maps, want.inner_idx) == t.s.maps[want.inner_idx];
  }

  /** What a command that keeps no descriptor does once its attributes are filled in. */
  lemma {:induction false} RunNothingKept(t: Task, ws: seq<Want>, want: Want, m1: Machine, p: Code, p4: Code, home: nat)
    requires Proper(t) && Under(t, m1) && m1.pc == |p| && Follows(t, ws) && t.attr == want.attr && t.size == SizeOf(want)
    requires AttrHolds(t.w, t.s, want, m1.trace, m1.mem) && (want.Update? || want.Populate? || want.Freeze?)
    requires Idles(SysBpfCode(p, CmdOf(want), want.attr, SizeOf(want)), p4, true, true) && CheckCode(p4, home) <= t.n
    ensures LeadsTo(t.n, t.w, ws, want, t.m, CheckCode(p4, home), home, t.dl2)
  {
    hide Proper, Under, Follows, AttrHolds, WasIssued, Idles, CheckCode, SysBpfCode;
    var m2 := DoCommand(t, ws, want, m1, p, p4, true, home);
    if m2.pc == home { WentHome(t, ws, want, m2, CheckCode(p4, home), home); } else { NothingKept(t, ws, want, m2, CheckCode(p4, home), home); }
  }

  lemma {:induction false} PopulateLeads(p: Code, p4: Code, home: nat, dl: int, dl2: int, want: Want, maps: nat, progs: nat)
    requires want.Populate? && Idles(ElemCode(p, want.attr, want.outer_idx, want.key, 4 * want.inner_idx), p4, true, true)
    requires 1280 <= dl <= want.key <= want.attr && want.attr + ELEM_ATTR_SIZE <= dl2
    requires 0 <= want.outer_idx < maps && 0 <= want.inner_idx < maps
    ensures Leads(p, CheckCode(p4, home), home, dl, dl2, want, maps, progs)
  {
    hide Sound, Apart, LeadsTo, ElemFill, SysBpfCode, IdlesTo, CheckCode, AttrHolds, Under, Proper;
    var q := CheckCode(p4, home);
    var f := ElemFill(p, want.attr, want.outer_idx, want.key, 4 * want.inner_idx);
    assert p <= f <= ElemCode(p, want.attr, want.outer_idx, want.key, 4 * want.inner_idx) <= p4 <= q;
    forall n: Code, w: World, ws: seq<Want>, m: Machine | Leaving(n, w, ws, m, p, q, dl, dl2, maps, progs)
      ensures LeadsTo(n, w, ws, want, m, q, home, dl2)
    {
      assert f <= n;
      var a := Area(dl, dl, dl2, dl2);
      Starting(n, w, ws, m, p, q, dl, dl2, maps, progs, want, a);
      var t := TaskOf(n, w, ws, m, dl, dl2, want, a);
      var m1 := FillPopulate(t, want, p);
      RunNothingKept(t, ws, want, m1, f, p4, home);
    }
  }

  function FreezeCode(p: Code, attr: int, idx: int): (n: Code)
    ensures p <= n
  {
    SysBpfCode(Blob2BlobCode(p, attr, 4, 4 * idx), MAP_FREEZE, attr, FREEZE_ATTR_SIZE)
  }

  lemma {:induction false} FillFreeze(t: Task, want: Want, p: Code) returns (m2: Machine)
    requires Doing(t, t.m, []) && want.Freeze? && t.attr == want.attr && t.size == FREEZE_ATTR_SIZE
    requires t.m.pc == |p| && Blob2BlobCode(p, want.attr, 4, 4 * want.freeze_idx) <= t.n && 0 <= want.freeze_idx < |t.s.maps|
    ensures Proper(t) && Under(t, m2) && m2.pc == |Blob2BlobCode(p, want.attr, 4, 4 * want.freeze_idx)|
    ensures AttrHolds(t.w, t.s, want, m2.trace, m2.mem)
  {
    hide Run, Blob2BlobCode, Keeps, Built;
    m2 := PutMap(t, t.m, [], p, 0, want.freeze_idx);
    assert [] + FieldsOf(t.w, t.s, want) == FieldsOf(t.w, t.s, want);
  }

  lemma {:induction false} FreezeLeads(p: Code, p4: Code, home: nat, dl: int, dl2: int, want: Want, maps: nat, progs: nat)
    requires want.Freeze? && Idles(FreezeCode(p, want.attr, want.freeze_idx), p4, true, true)
    requires 1280 <= dl <= want.attr && want.attr + FREEZE_ATTR_SIZE <= dl2 && 0 <= want.freeze_idx < maps
    ensures Leads(p, CheckCode(p4, home), home, dl, dl2, want, maps, progs)
  {
    hide Sound, Apart, LeadsTo, Blob2BlobCode, SysBpfCode, IdlesTo, CheckCode, AttrHolds, Under, Proper;
    var q := CheckCode(p4, home);
    var f := Blob2BlobCode(p, want.attr, 4, 4 * want.freeze_idx);
    assert p <= f <= FreezeCode(p, want.attr, want.freeze_idx) <= p4 <= q;
    forall n: Code, w: World, ws: seq<Want>, m: Machine | Leaving(n, w, ws, m, p, q, dl, dl2, maps, progs)
      ensures LeadsTo(n, w, ws, want, m, q, home, dl2)
    {
      assert f <= n;
      var a := Area(dl, dl, dl2, dl2);
      Starting(n, w, ws, m, p, q, dl, dl2, maps, progs, want, a);
      var t := TaskOf(n, w, ws, m, dl, dl2, want, a);
      var m1 := FillFreeze(t, want, p);
      RunNothingKept(t, ws, want, m1, f, p4, home);
    }
  }

  /** The copy of an initial value that the context provides. */
  function InitCode(p: Code, idx: int, value: int, size: int): (n: Code)
    ensures p <= n
  {
    p + [Ldx(8, 3, 6, S16(CTX_SIZE + MAP_DESC_SIZE * idx))] + [Jmp(Jeq, 3, 0, 4)] + [LdLo(1, value), LdHi] + [MovImm(2, size)] + [Call(CopyFromUser)]
  }

  /** Its run, for a map there is. */
  lemma {:induction false} DoInit(n: Code, w: World, s: Slots, m: Machine, p: Code, idx: nat, value: int, size: nat, dl: int) returns (m2: Machine)
    requires |m.r| == 11 && m.pc == |p| && InitCode(p, idx, value, size) <= n && Apart(w) && Keeps(w, dl, s, m.mem) && m.r[6] == w.ctx
    requires idx < MAX_USED_MAPS && 1280 <= dl <= value && value + size <= w.top
    ensures Gets(n, w.o, m, m2) && m2.pc == |InitCode(p, idx, value, size)| && m2.r[6] == m.r[6] && m2.r[10] == m.r[10] && m2.trace == m.trace
    ensures ValueOk(w, m2.mem, idx, value, size)
    ensures forall x :: m2.mem(x) == m.mem(x) || w.o.blob + value <= x < w.o.blob + value + size
  {
    hide Run, S64, LoadMem, Words;
    var off := CTX_SIZE + MAP_DESC_SIZE * idx;
    GetsSelf(n, w.o, m);
    m2 := DoLdx(n, w.o, m, m, 8, 3, 6, off);
    LoadSame(w.start, m.mem, w.ctx + off, 8);
    m2 := DoJmp(n, w.o, m, m2, Jeq, 3, 0, 4);
    if InitialValue(w, idx) != 0 {
      m2 := DoLoad(n, w.o, m, m2, 1, value);
      m2 := DoMovImm(n, w.o, m, m2, 2, size);
      var c := m2;
      m2 := DoCall(n, w.o, m, m2, CopyFromUser);
      UserCopied(w, c, m2, idx, value, size);
    }
  }

  lemma {:induction false} UserCopied(w: World, m: Machine, m2: Machine, idx: nat, value: int, size: nat)
    requires |m.r| == 11 && m2.mem == Effect(CopyFromUser, m.r, m.mem, w.o, m.now)
    requires m.r[1] == w.o.blob + value && m.r[2] == size && m.r[3] == InitialValue(w, idx) && InitialValue(w, idx) != 0
    ensures ValueOk(w, m2.mem, idx, value, size)
    ensures forall x :: m2.mem(x) == m.mem(x) || w.o.blob + value <= x < w.o.blob + value + size
  {
    hide InitialValue;
    if w.o.value(m.now, 0) == 0 {
      forall x | w.o.blob + value <= x < w.o.blob + value + size
        ensures m2.mem(x) == w.o.user(InitialValue(w, idx) + x - w.o.blob - value)
      {
        assert InitialValue(w, idx) + (x - (w.o.blob + value)) == InitialValue(w, idx) + x - w.o.blob - value;
      }
    }
  }

  /** What a run leads to from a later point. */
  lemma {:induction false} LeadsEarlier(n: Code, w: World, ws: seq<Want>, want: Want, m: Machine, m1: Machine, q: Code, home: int, dl2: int)
    requires Gets(n, w.o, m, m1) && LeadsTo(n, w, ws, want, m1, q, home, dl2)
    ensures LeadsTo(n, w, ws, want, m, q, home, dl2)
  {
    hide Gets, Sound, Partly;
    var m2: Machine :| LedBy(n, w, ws, want, m1, q, home, dl2, m2);
    GetsTrans(n, w.o, m, m1, m2);
    assert LedBy(n, w, ws, want, m, q, home, dl2, m2);
  }

  lemma {:induction false} RunUpdate(n: Code, w: World, ws: seq<Want>, m: Machine, p: Code, p4: Code, home: nat, dl: int,
                                     dl2: int, want: Want, maps: nat, progs: nat)
    requires want.Update? && Idles(UpdateCode(p, want), p4, true, true) && Leaving(n, w, ws, m, p, CheckCode(p4, home), dl, dl2, maps, progs)
    requires 1280 <= dl <= want.value && 0 <= want.value_size && want.value + want.value_size <= want.key <= want.attr
    requires want.attr + ELEM_ATTR_SIZE <= dl2
    requires 0 <= want.map_idx < maps
    ensures LeadsTo(n, w, ws, want, m, CheckCode(p4, home), home, dl2)
  {
    hide Run, ElemFill, SysBpfCode, IdlesTo, CheckCode, AttrHolds, Under, InitCode, Keeps, Good, SlotsIn, ValueOk;
    var q := CheckCode(p4, home);
    var p1 := InitCode(p, want.map_idx, want.value, want.value_size);
    var f := ElemFill(p1, want.attr, want.map_idx, want.key, want.value);
    assert p1 <= f <= UpdateCode(p, want) <= p4 <= q <= n;
    SlotCounts(w, ws, m.trace);
    var s := SlotsIn(ws, m.trace);
    AtMost(w, dl, s, m.mem);
    var m1 := DoInit(n, w, s, m, p, want.map_idx, want.value, want.value_size, dl);
    var a := Area(want.key, want.key, dl2, dl2);
    var t := TaskOf(n, w, ws, m1, want.key, dl2, want, a);
    KeepsOnward(w, dl, want.key, s, m.mem, m1.mem);
    Begin(t);
    var m2 := FillUpdate(t, want, p1);
    RunNothingKept(t, ws, want, m2, f, p4, home);
    LeadsEarlier(n, w, ws, want, m, m1, q, home, dl2);
  }

  lemma {:induction false} AtMost(w: World, dl: int, s: Slots, mem: Mem)
    requires Keeps(w, dl, s, mem)
    ensures |s.maps| <= MAX_USED_MAPS
  {
  }

  lemma {:induction false} KeepsOnward(w: World, dl: int, dl2: int, s: Slots, mem: Mem, mem2: Mem)
    requires Apart(w) && Keeps(w, dl, s, mem) && 1280 <= dl <= dl2 <= w.top
    requires forall x :: mem2(x) == mem(x) || w.o.blob + dl <= x < w.o.blob + dl2
    ensures Keeps(w, dl2, s, mem2)
  {
    WordsSame(mem, mem2, w.sp - STACK_SZ, s.stack);
    WordsSame(mem, mem2, w.o.blob, s.maps);
  }

  function UpdateCode(p: Code, want: Want): (n: Code)
    requires want.Update?
    ensures p <= n
  {
    ElemCode(InitCode(p, want.map_idx, want.value, want.value_size), want.attr, want.map_idx, want.key, want.value)
  }

  lemma {:induction false} UpdateLeads(p: Code, p4: Code, home: nat, dl: int, dl2: int, want: Want, maps: nat, progs: nat)
    requires want.Update? && Idles(UpdateCode(p, want), p4, true, true)
    requires 1280 <= dl <= want.value && 0 <= want.value_size && want.value + want.value_size <= want.key <= want.attr
    requires want.attr + ELEM_ATTR_SIZE <= dl2
    requires 0 <= want.map_idx < maps
    ensures Leads(p, CheckCode(p4, home), home, dl, dl2, want, maps, progs)
  {
    hide Leaving, LeadsTo, UpdateCode, IdlesTo, CheckCode;
    var q := CheckCode(p4, home);
    assert p <= UpdateCode(p, want) <= p4 <= q;
    forall n: Code, w: World, ws: seq<Want>, m: Machine | Leaving(n, w, ws, m, p, q, dl, dl2, maps, progs)
      ensures LeadsTo(n, w, ws, want, m, q, home, dl2)
    {
      RunUpdate(n, w, ws, m, p, p4, home, dl, dl2, want, maps, progs);
    }
  }
}
