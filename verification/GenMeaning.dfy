/** What the commands a loader issues must say, and what holds of the machine between them. */
module GenMeaning {
  import opened Common
  import opened BpfMachine
  import opened BpfFlow
  import opened BpfRuns
  import opened GenEmit

  const MAP_CREATE := 0
  const MAP_UPDATE_ELEM := 2
  const PROG_LOAD := 5
  const BTF_LOAD := 18
  const MAP_FREEZE := 22
  const ARRAY_OF_MAPS := 12
  const HASH_OF_MAPS := 13

  /** The sizes of the part of `union bpf_attr` each command uses. */
  const MAP_ATTR_SIZE := 72
  const ELEM_ATTR_SIZE := 32
  const FREEZE_ATTR_SIZE := 4
  const PROG_ATTR_SIZE := 140
  const BTF_ATTR_SIZE := 28

  /** Sizes in the loader's context. */
  const CTX_SIZE := 24
  const MAP_DESC_SIZE := 16

  const MAX_USED_MAPS := 64
  const MAX_USED_PROGS := 32
  const CTX_ROOM := CTX_SIZE + MAP_DESC_SIZE * MAX_USED_MAPS + 4 * MAX_USED_PROGS

  /** What a loader is run in: the helpers, the addresses of its context and of the end of its stack, the memory it starts
      with, and the length of its blob. */
  datatype World = World(o: Oracle, ctx: int, sp: int, start: Mem, top: int)

  predicate Disjoint(a: int, n: int, b: int, k: int) {
    a + n <= b || b + k <= a
  }

  ghost predicate Apart(w: World) {
    && Disjoint(w.o.blob, w.top, w.sp - STACK_SZ, STACK_SZ) && Disjoint(w.o.blob, w.top, w.ctx, CTX_ROOM)
    && Disjoint(w.sp - STACK_SZ, STACK_SZ, w.ctx, CTX_ROOM)
  }

  function U32(v: int): nat {
    v % 0x1_0000_0000
  }

  /** The upper half of a value. */
  function High(v: int): nat {
    U64(v) / 0x1_0000_0000
  }

  /** A value the context has from the start. */
  function Ctx(w: World, off: int, n: nat): int {
    S64(LoadMem(w.start, w.ctx + off, n))
  }

  /** The descriptors kept so far: on the stack those of the BTF, the latest inner map and the programs; in the blob those of the maps. */
  datatype Slots = Slots(stack: seq<int>, maps: seq<int>)

  function At(vs: seq<int>, i: int): int {
    if 0 <= i < |vs| then vs[i] else 0
  }

  datatype Target = Target(name: int, len: int, kind: int)

  /** A command to issue. All but `idx`, `map_idx` and the like are offsets in the blob. */
  datatype Want =
    | BtfLoad(attr: int, data: int)
    | MapNew(attr: int, with_btf: bool, outer: bool, idx: int)
    | ProgNew(attr: int, license: int, insns: int, func_info: int, line_info: int, core_relos: int, target: Option<Target>)
    | Update(attr: int, map_idx: int, key: int, value: int, value_size: int)
    | Populate(attr: int, outer_idx: int, key: int, inner_idx: int)
    | Freeze(attr: int, freeze_idx: int)

  function CmdOf(want: Want): int {
    match want
    case BtfLoad(_, _) => BTF_LOAD
    case MapNew(_, _, _, _) => MAP_CREATE
    case ProgNew(_, _, _, _, _, _, _) => PROG_LOAD
    case Update(_, _, _, _, _) => MAP_UPDATE_ELEM
    case Populate(_, _, _, _) => MAP_UPDATE_ELEM
    case Freeze(_, _) => MAP_FREEZE
  }

  function SizeOf(want: Want): int {
    match want
    case BtfLoad(_, _) => BTF_ATTR_SIZE
    case MapNew(_, _, _, _) => MAP_ATTR_SIZE
    case ProgNew(_, _, _, _, _, _, _) => PROG_ATTR_SIZE
    case Update(_, _, _, _, _) => ELEM_ATTR_SIZE
    case Populate(_, _, _, _) => ELEM_ATTR_SIZE
    case Freeze(_, _) => FREEZE_ATTR_SIZE
  }

  /** A field of the attributes that is filled in when the loader runs. */
  datatype Field = Field(off: int, size: nat, value: int)

  /** The attributes at `base` with these fields filled in. */
  function Filled(mem: Mem, base: int, fs: seq<Field>): Mem {
    if fs == [] then mem
    else
      var last := fs[|fs| - 1];
      StoreMem(Filled(mem, base, fs[..|fs| - 1]), base + last.off, last.size, last.value)
  }

  /** The attributes at `base` are those of `start` but for these fields. */
  ghost predicate Built(mem: Mem, start: Mem, base: int, size: int, fs: seq<Field>) {
    forall x :: base <= x < base + size ==> mem(x) == Filled(start, base, fs)(x)
  }

  function LogFields(w: World, level: int, size: int, buf: int): seq<Field> {
    [Field(level, 4, Ctx(w, 8, 4)), Field(size, 4, Ctx(w, 12, 4)), Field(buf, 8, Ctx(w, 16, 8))]
  }

  /** The fields of `union bpf_attr` that each command needs, by offset. */
  function FieldsOf(w: World, s: Slots, want: Want): seq<Field> {
    match want
    case BtfLoad(_, data) => LogFields(w, 24, 20, 8) + [Field(0, 8, w.o.blob + data)]
    case MapNew(_, with_btf, outer, idx) =>
      (if with_btf then [Field(48, 4, U32(At(s.stack, 0)))] else [])
      + (if outer then [Field(20, 4, U32(At(s.stack, 1)))] else [])
      + (if idx >= 0 && MaxEntries(w, idx) != 0 then [Field(12, 4, MaxEntries(w, idx))] else [])
    case ProgNew(_, license, insns, func_info, line_info, core_relos, _) =>
      [Field(16, 8, w.o.blob + license), Field(8, 8, w.o.blob + insns), Field(80, 8, w.o.blob + func_info),
       Field(96, 8, w.o.blob + line_info), Field(128, 8, w.o.blob + core_relos), Field(120, 8, w.o.blob)]
      + LogFields(w, 24, 28, 32) + [Field(72, 4, U32(At(s.stack, 0)))]
    case Update(_, map_idx, key, value, _) =>
      [Field(0, 4, U32(At(s.maps, map_idx))), Field(8, 8, w.o.blob + key), Field(16, 8, w.o.blob + value)]
    case Populate(_, outer_idx, key, inner_idx) =>
      [Field(0, 4, U32(At(s.maps, outer_idx))), Field(8, 8, w.o.blob + key), Field(16, 8, w.o.blob + 4 * inner_idx)]
    case Freeze(_, idx) => [Field(0, 4, U32(At(s.maps, idx)))]
  }

  /** What the user of the loader asks for in map descriptor `idx` of the context. */
  function MaxEntries(w: World, idx: int): int {
    Ctx(w, CTX_SIZE + MAP_DESC_SIZE * idx + 8, 4)
  }

  function InitialValue(w: World, idx: int): int {
    Ctx(w, CTX_SIZE + MAP_DESC_SIZE * idx, 8)
  }

  /** What a found attach target adds: its BTF id, and the descriptor of its BTF. */
  function AttachFields(ret: int): seq<Field> {
    [Field(108, 4, ret), Field(112, 4, High(ret))]
  }

  /** Blob offsets `lo` up to `hi` are as they were at the start. */
  ghost predicate Fresh(w: World, mem: Mem, lo: int, hi: int) {
    forall x :: w.o.blob + lo <= x < w.o.blob + hi ==> mem(x) == w.start(x)
  }

  /** The value of an element: the one in the blob, or if the context has another, that of the user, as far as it could be read. */
  ghost predicate ValueOk(w: World, mem: Mem, idx: int, value: int, size: int) {
    if InitialValue(w, idx) == 0 then Fresh(w, mem, value, value + size)
    else
      || (forall x :: w.o.blob + value <= x < w.o.blob + value + size ==> mem(x) == w.o.user(InitialValue(w, idx) + x - w.o.blob - value))
      || (forall x :: w.o.blob + value <= x < w.o.blob + value + size ==> mem(x) == 0)
  }

  /** What must hold of memory when a command is issued, after the events `pre`, with these descriptors kept. */
  ghost predicate AttrHolds(w: World, s: Slots, want: Want, pre: seq<Event>, mem: Mem) {
    var base := w.o.blob + want.attr;
    match want
    case BtfLoad(attr, data) => Built(mem, w.start, base, SizeOf(want), FieldsOf(w, s, want)) && Fresh(w, mem, data, attr)
    case MapNew(attr, _, _, _) => Built(mem, w.start, base, SizeOf(want), FieldsOf(w, s, want))
    case ProgNew(attr, license, insns, func_info, _, _, target) =>
      && Fresh(w, mem, license, insns) && Fresh(w, mem, func_info, attr)
      && (target == None ==> Built(mem, w.start, base, SizeOf(want), FieldsOf(w, s, want)))
      && (target != None ==> exists ret {:trigger AttachFields(ret)} ::
            && ret >= 0 && Found(w.o.blob + target.value.name, target.value.len, target.value.kind, ret) in pre
            && Built(mem, w.start, base, SizeOf(want), FieldsOf(w, s, want) + AttachFields(ret)))
    case Update(attr, idx, key, value, size) =>
      && 0 <= idx < |s.maps| && Built(mem, w.start, base, SizeOf(want), FieldsOf(w, s, want))
      && Fresh(w, mem, key, attr) && ValueOk(w, mem, idx, value, size)
    case Populate(attr, outer, key, inner) =>
      && 0 <= outer < |s.maps| && 0 <= inner < |s.maps| && Built(mem, w.start, base, SizeOf(want), FieldsOf(w, s, want))
      && Fresh(w, mem, key, attr) && LoadMem(mem, w.o.blob + 4 * inner, 4) == U32(s.maps[inner])
    case Freeze(_, idx) => 0 <= idx < |s.maps| && Built(mem, w.start, base, SizeOf(want), FieldsOf(w, s, want))
  }

  /** The event `e`, after `pre`, is the command wanted, with the right attributes. */
  ghost predicate CmdOk(w: World, s: Slots, want: Want, pre: seq<Event>, e: Event) {
    && e.Bpf? && e.cmd == CmdOf(want) && e.attr == w.o.blob + want.attr && e.size == SizeOf(want)
    && AttrHolds(w, s, want, pre, e.mem)
  }

  function Put(vs: seq<int>, i: nat, v: int): seq<int> {
    if i < |vs| then vs[i := v] else vs + [v]
  }

  /** The descriptors kept once a command has returned `ret`. */
  function After(s: Slots, want: Want, ret: int): Slots {
    match want
    case BtfLoad(_, _) => s.(stack := Put(s.stack, 0, ret))
    case MapNew(_, _, _, idx) => if idx < 0 then s.(stack := Put(s.stack, 1, ret)) else s.(maps := s.maps + [ret])
    case ProgNew(_, _, _, _, _, _, _) => s.(stack := s.stack + [ret])
    case _ => s
  }

  /** The descriptors kept after the events `t`, in which the commands `ws` were issued. */
  function SlotsIn(ws: seq<Want>, t: seq<Event>): Slots
    decreases |t|
  {
    if t == [] || ws == [] then Slots([0, 0], [])
    else
      var e, pre := t[|t| - 1], t[..|t| - 1];
      if e.Bpf? then After(SlotsIn(ws[..|ws| - 1], pre), ws[|ws| - 1], e.ret) else SlotsIn(ws, pre)
  }

  /** The commands among the events `t` are `ws`, in order, and each had the right attributes when it was issued. */
  ghost predicate Good(w: World, ws: seq<Want>, t: seq<Event>)
    decreases |t|
  {
    if t == [] then ws == []
    else
      var e, pre := t[|t| - 1], t[..|t| - 1];
      if e.Bpf? then
        && ws != [] && Good(w, ws[..|ws| - 1], pre)
        && CmdOk(w, SlotsIn(ws[..|ws| - 1], pre), ws[|ws| - 1], pre, e)
      else Good(w, ws, pre)
  }

  /** The 32-bit words from `base` on. */
  ghost predicate Words(mem: Mem, base: int, vs: seq<int>) {
    forall i {:trigger vs[i]} :: 0 <= i < |vs| ==> LoadMem(mem, base + 4 * i, 4) == U32(vs[i])
  }

  /** Between two commands: the context and the blob from `dl` on are as at the start, and all descriptors are kept. */
  ghost predicate Keeps(w: World, dl: int, s: Slots, mem: Mem) {
    && (forall x :: w.ctx <= x < w.ctx + CTX_ROOM ==> mem(x) == w.start(x))
    && Fresh(w, mem, dl, w.top)
    && 2 <= |s.stack| <= 2 + MAX_USED_PROGS && |s.maps| <= MAX_USED_MAPS
    && Words(mem, w.sp - STACK_SZ, s.stack) && Words(mem, w.o.blob, s.maps)
  }

  ghost predicate Sound(w: World, dl: int, ws: seq<Want>, m: Machine) {
    && |m.r| == 11 && m.r[6] == w.ctx && m.r[10] == w.sp
    && Good(w, ws, m.trace) && Keeps(w, dl, SlotsIn(ws, m.trace), m.mem)
  }

  /** How many maps and programs the commands make. */
  function Maps(ws: seq<Want>): nat {
    if ws == [] then 0
    else
      var last := ws[|ws| - 1];
      Maps(ws[..|ws| - 1]) + if last.MapNew? && last.idx >= 0 then 1 else 0
  }

  function Progs(ws: seq<Want>): nat {
    if ws == [] then 0 else Progs(ws[..|ws| - 1]) + if ws[|ws| - 1].ProgNew? then 1 else 0
  }

  lemma {:induction false} SlotCounts(w: World, ws: seq<Want>, t: seq<Event>)
    requires Good(w, ws, t)
    ensures |SlotsIn(ws, t).maps| == Maps(ws) && |SlotsIn(ws, t).stack| == 2 + Progs(ws)
    decreases |t|
  {
    hide CmdOk;
    if t != [] {
      if t[|t| - 1].Bpf? {
        SlotCounts(w, ws[..|ws| - 1], t[..|t| - 1]);
      } else {
        SlotCounts(w, ws, t[..|t| - 1]);
      }
    }
  }

  /** Events that are not commands change nothing. */
  lemma {:induction false} GoodAdds(w: World, ws: seq<Want>, t: seq<Event>, t2: seq<Event>)
    requires Adds(t, t2)
    ensures Good(w, ws, t2) == Good(w, ws, t) && SlotsIn(ws, t2) == SlotsIn(ws, t)
    decreases |t2|
  {
    hide CmdOk;
    if |t2| > |t| {
      GoodAdds(w, ws, t, t2[..|t2| - 1]);
      if ws == [] { NoSlots(t); NoSlots(t2); }
    } else {
      assert t2 == t;
    }
  }

  lemma {:induction false} NoSlots(t: seq<Event>)
    ensures SlotsIn([], t) == Slots([0, 0], [])
  {
  }

  /** One more command. */
  lemma {:induction false} GoodOn(w: World, ws: seq<Want>, t: seq<Event>, want: Want, e: Event)
    requires Good(w, ws, t) && CmdOk(w, SlotsIn(ws, t), want, t, e)
    ensures Good(w, ws + [want], t + [e]) && SlotsIn(ws + [want], t + [e]) == After(SlotsIn(ws, t), want, e.ret)
  {
    hide AttrHolds, After;
    var ws2, t2 := ws + [want], t + [e];
    assert ws2[..|ws2| - 1] == ws && t2[..|t2| - 1] == t;
  }

  /** The run of a call's code from where one command was done to where the next one is, or to the cleanup code. */
  ghost predicate LedBy(n: Code, w: World, ws: seq<Want>, want: Want, m: Machine, q: Code, home: int, dl2: int, m2: Machine) {
    && Gets(n, w.o, m, m2)
    && ((m2.pc == |q| && Sound(w, dl2, ws + [want], m2)) || (m2.pc == home && Partly(w, ws + [want], m2.trace)))
  }

  /** A part of the commands was issued. */
  ghost predicate Partly(w: World, ws: seq<Want>, t: seq<Event>) {
    exists k: nat {:trigger ws[..k]} :: k <= |ws| && Good(w, ws[..k], t)
  }

  ghost predicate LeadsTo(n: Code, w: World, ws: seq<Want>, want: Want, m: Machine, q: Code, home: int, dl2: int) {
    exists m2: Machine :: LedBy(n, w, ws, want, m, q, home, dl2, m2)
  }

  /** Code that issues one more command, from the end of `p` to the end of `q`, with data from `dl` up to `dl2`. */
  ghost predicate Leads(p: Code, q: Code, home: int, dl: int, dl2: int, want: Want, maps: nat, progs: nat) {
    && p <= q && dl <= dl2
    && forall n: Code, w: World, ws: seq<Want>, m: Machine {:trigger LeadsTo(n, w, ws, want, m, q, home, dl2)} ::
         Leaving(n, w, ws, m, p, q, dl, dl2, maps, progs) ==> LeadsTo(n, w, ws, want, m, q, home, dl2)
  }

  ghost predicate Leaving(n: Code, w: World, ws: seq<Want>, m: Machine, p: Code, q: Code, dl: int, dl2: int, maps: nat, progs: nat) {
    && q <= n && Apart(w) && dl2 <= w.top && Maps(ws) == maps && Progs(ws) == progs && Sound(w, dl, ws, m) && m.pc == |p|
  }

  /** How a loader is entered: with its context in R1 and the end of its stack in R10. */
  ghost predicate Enters(w: World, m: Machine) {
    |m.r| == 11 && m.pc == 0 && m.r[1] == w.ctx && m.r[10] == w.sp && m.mem == w.start && m.trace == []
  }

  ghost predicate ArrivedBy(n: Code, w: World, ws: seq<Want>, m: Machine, p: Code, home: int, dl: int, m2: Machine) {
    && Gets(n, w.o, m, m2)
    && ((m2.pc == |p| && Sound(w, dl, ws, m2)) || (m2.pc == home && Partly(w, ws, m2.trace)))
  }

  ghost predicate ArrivesTo(n: Code, w: World, ws: seq<Want>, m: Machine, p: Code, home: int, dl: int) {
    exists m2: Machine :: ArrivedBy(n, w, ws, m, p, home, dl, m2)
  }

  /** Every run of a program that begins with `p` gets to its end, having issued the commands `ws`, or to the cleanup code. */
  ghost predicate Arrives(p: Code, home: int, dl: int, ws: seq<Want>) {
    forall n: Code, w: World, m: Machine {:trigger ArrivesTo(n, w, ws, m, p, home, dl)} ::
      p <= n && Apart(w) && dl <= w.top && Enters(w, m) ==> ArrivesTo(n, w, ws, m, p, home, dl)
  }

  lemma {:induction false} ArrivesOn(p: Code, q: Code, home: int, dl: int, dl2: int, ws: seq<Want>, want: Want)
    requires Arrives(p, home, dl, ws) && Leads(p, q, home, dl, dl2, want, Maps(ws), Progs(ws))
    ensures Arrives(q, home, dl2, ws + [want])
  {
    hide ArrivedBy, Sound, LedBy;
    forall n: Code, w: World, m: Machine | q <= n && Apart(w) && dl2 <= w.top && Enters(w, m)
      ensures ArrivesTo(n, w, ws + [want], m, q, home, dl2)
    {
      assert p <= n;
      assert ArrivesTo(n, w, ws, m, p, home, dl);
      var m1: Machine :| ArrivedBy(n, w, ws, m, p, home, dl, m1);
      ArriveOn(n, w, m, m1, p, q, home, dl, dl2, ws, want);
    }
  }

  lemma {:induction false} ArriveOn(n: Code, w: World, m: Machine, m1: Machine, p: Code, q: Code, home: int, dl: int, dl2: int,
                                    ws: seq<Want>, want: Want)
    requires ArrivedBy(n, w, ws, m, p, home, dl, m1) && Leads(p, q, home, dl, dl2, want, Maps(ws), Progs(ws))
    requires q <= n && Apart(w) && dl2 <= w.top
    ensures ArrivesTo(n, w, ws + [want], m, q, home, dl2)
  {
    hide Sound, Good, Gets;
    if m1.pc == |p| && Sound(w, dl, ws, m1) {
      assert LeadsTo(n, w, ws, want, m1, q, home, dl2);
      var m2: Machine :| LedBy(n, w, ws, want, m1, q, home, dl2, m2);
      GetsTrans(n, w.o, m, m1, m2);
      assert ArrivedBy(n, w, ws + [want], m, q, home, dl2, m2);
    } else {
      PartlyOn(w, ws, want, m1.trace);
      assert ArrivedBy(n, w, ws + [want], m, q, home, dl2, m1);
    }
  }

  lemma {:induction false} PartlyOn(w: World, ws: seq<Want>, want: Want, t: seq<Event>)
    requires Partly(w, ws, t)
    ensures Partly(w, ws + [want], t)
  {
    var k: nat :| k <= |ws| && Good(w, ws[..k], t);
    assert (ws + [want])[..k] == ws[..k];
  }

  lemma {:induction false} ArrivesLater(p: Code, home: int, dl: int, dl2: int, ws: seq<Want>)
    requires Arrives(p, home, dl, ws) && dl <= dl2
    ensures Arrives(p, home, dl2, ws)
  {
    hide Gets, Good, Words;
    forall n: Code, w: World, m: Machine | p <= n && Apart(w) && dl2 <= w.top && Enters(w, m) ensures ArrivesTo(n, w, ws, m, p, home, dl2) {
      assert ArrivesTo(n, w, ws, m, p, home, dl);
      var m1: Machine :| ArrivedBy(n, w, ws, m, p, home, dl, m1);
      assert ArrivedBy(n, w, ws, m, p, home, dl2, m1);
    }
  }

  /** A field that no later field overlaps is read back. */
  predicate FieldsApart(fs: seq<Field>) {
    forall i, j :: 0 <= i < j < |fs| ==> Disjoint(fs[i].off, fs[i].size, fs[j].off, fs[j].size)
  }

  lemma {:induction false} FilledField(mem: Mem, base: int, fs: seq<Field>, i: nat)
    requires FieldsApart(fs) && i < |fs|
    ensures LoadMem(Filled(mem, base, fs), base + fs[i].off, fs[i].size) == fs[i].value % Pow256(fs[i].size)
    decreases |fs|
  {
    hide LoadMem, StoreMem;
    var k := |fs| - 1;
    var before := Filled(mem, base, fs[..k]);
    if i == k {
      LoadStored(before, base + fs[k].off, fs[k].size, fs[k].value);
    } else {
      FilledField(mem, base, fs[..k], i);
      assert fs[..k][i] == fs[i];
      LoadElsewhere(before, base + fs[k].off, fs[k].size, fs[k].value, base + fs[i].off, fs[i].size);
    }
  }

  /** Attributes that were built so hold the fields, and outside them what they held from the start. */
  lemma {:induction false} FieldHolds(mem: Mem, start: Mem, base: int, size: int, fs: seq<Field>, i: nat)
    requires Built(mem, start, base, size, fs) && FieldsApart(fs) && i < |fs| && 0 <= fs[i].off && fs[i].off + fs[i].size <= size
    ensures LoadMem(mem, base + fs[i].off, fs[i].size) == fs[i].value % Pow256(fs[i].size)
  {
    FilledField(start, base, fs, i);
    LoadSame(Filled(start, base, fs), mem, base + fs[i].off, fs[i].size);
  }

  /** When an element is updated, the descriptor in the attributes is the one that creating the map returned, and its key
      and value are at the addresses given. */
  lemma {:induction false} UpdateHolds(w: World, s: Slots, want: Want, pre: seq<Event>, e: Event)
    requires want.Update? && CmdOk(w, s, want, pre, e)
    ensures 0 <= want.map_idx < |s.maps| && LoadMem(e.mem, e.attr, 4) == U32(s.maps[want.map_idx])
    ensures LoadMem(e.mem, e.attr + 8, 8) == U64(w.o.blob + want.key) && LoadMem(e.mem, e.attr + 16, 8) == U64(w.o.blob + want.value)
  {
    hide LoadMem, Filled;
    var fs := FieldsOf(w, s, want);
    FieldHolds(e.mem, w.start, e.attr, ELEM_ATTR_SIZE, fs, 0);
    FieldHolds(e.mem, w.start, e.attr, ELEM_ATTR_SIZE, fs, 1);
    FieldHolds(e.mem, w.start, e.attr, ELEM_ATTR_SIZE, fs, 2);
    Powers();
  }

  lemma {:induction false} ProgFieldsApart(w: World, s: Slots, want: Want, ret: int)
    requires want.ProgNew?
    ensures var fs := FieldsOf(w, s, want);
            && |fs| == 10 && FieldsApart(fs) && FieldsApart(fs + AttachFields(ret))
            && forall i :: 0 <= i < 10 ==> 0 <= fs[i].off && fs[i].off + fs[i].size <= PROG_ATTR_SIZE
  {
    hide Ctx, High, U32;
  }

  lemma {:induction false} ProgField(w: World, s: Slots, want: Want, pre: seq<Event>, e: Event, i: nat)
    requires want.ProgNew? && CmdOk(w, s, want, pre, e) && i < 10
    ensures |FieldsOf(w, s, want)| == 10
    ensures var f := FieldsOf(w, s, want)[i]; LoadMem(e.mem, e.attr + f.off, f.size) == f.value % Pow256(f.size)
  {
    hide LoadMem, Filled, FieldsOf, AttachFields, FieldsApart, Built;
    var fs := FieldsOf(w, s, want);
    ProgFieldsApart(w, s, want, 0);
    if want.target != None {
      var ret :| Built(e.mem, w.start, e.attr, SizeOf(want), fs + AttachFields(ret));
      ProgFieldsApart(w, s, want, ret);
      FieldHolds(e.mem, w.start, e.attr, PROG_ATTR_SIZE, fs + AttachFields(ret), i);
    } else {
      FieldHolds(e.mem, w.start, e.attr, PROG_ATTR_SIZE, fs, i);
    }
  }

  /** The same of a program: each pointer in its attributes is the address of its data, and its BTF is the one loaded. */
  lemma {:induction false} ProgHolds(w: World, s: Slots, want: Want, pre: seq<Event>, e: Event)
    requires want.ProgNew? && CmdOk(w, s, want, pre, e)
    ensures LoadMem(e.mem, e.attr + 8, 8) == U64(w.o.blob + want.insns) && LoadMem(e.mem, e.attr + 16, 8) == U64(w.o.blob + want.license)
    ensures LoadMem(e.mem, e.attr + 80, 8) == U64(w.o.blob + want.func_info) && LoadMem(e.mem, e.attr + 96, 8) == U64(w.o.blob + want.line_info)
    ensures LoadMem(e.mem, e.attr + 128, 8) == U64(w.o.blob + want.core_relos) && LoadMem(e.mem, e.attr + 120, 8) == U64(w.o.blob)
    ensures LoadMem(e.mem, e.attr + 24, 4) == U32(Ctx(w, 8, 4)) && LoadMem(e.mem, e.attr + 28, 4) == U32(Ctx(w, 12, 4))
    ensures LoadMem(e.mem, e.attr + 32, 8) == U64(Ctx(w, 16, 8)) && LoadMem(e.mem, e.attr + 72, 4) == U32(At(s.stack, 0))
  {
    hide LoadMem, CmdOk, Ctx;
    ProgField(w, s, want, pre, e, 0);
    ProgField(w, s, want, pre, e, 1);
    ProgField(w, s, want, pre, e, 2);
    ProgField(w, s, want, pre, e, 3);
    ProgField(w, s, want, pre, e, 4);
    ProgField(w, s, want, pre, e, 5);
    ProgField(w, s, want, pre, e, 6);
    ProgField(w, s, want, pre, e, 7);
    ProgField(w, s, want, pre, e, 8);
    ProgField(w, s, want, pre, e, 9);
    Powers();
  }

  lemma {:induction false} BtfHolds(w: World, s: Slots, want: Want, pre: seq<Event>, e: Event)
    requires want.BtfLoad? && CmdOk(w, s, want, pre, e)
    ensures LoadMem(e.mem, e.attr, 8) == U64(w.o.blob + want.data) && LoadMem(e.mem, e.attr + 8, 8) == U64(Ctx(w, 16, 8))
    ensures LoadMem(e.mem, e.attr + 20, 4) == U32(Ctx(w, 12, 4)) && LoadMem(e.mem, e.attr + 24, 4) == U32(Ctx(w, 8, 4))
  {
    hide LoadMem, Filled, Ctx;
    var fs := FieldsOf(w, s, want);
    assert |fs| == 4 && fs[0].off == 24 && fs[1].off == 20 && fs[2].off == 8 && fs[3].off == 0;
    FieldHolds(e.mem, w.start, e.attr, BTF_ATTR_SIZE, fs, 0);
    FieldHolds(e.mem, w.start, e.attr, BTF_ATTR_SIZE, fs, 1);
    FieldHolds(e.mem, w.start, e.attr, BTF_ATTR_SIZE, fs, 2);
    FieldHolds(e.mem, w.start, e.attr, BTF_ATTR_SIZE, fs, 3);
    Powers();
  }

  /** What no field overlaps is as it was. */
  lemma {:induction false} FieldsElsewhere(mem: Mem, start: Mem, base: int, size: int, fs: seq<Field>, off: int, n: nat)
    requires Built(mem, start, base, size, fs) && 0 <= off && off + n <= size
    requires forall i :: 0 <= i < |fs| ==> Disjoint(fs[i].off, fs[i].size, off, n)
    ensures LoadMem(mem, base + off, n) == LoadMem(start, base + off, n)
  {
    hide StoreMem;
    LoadSame(Filled(start, base, fs), mem, base + off, n);
    FilledElsewhere(start, base, fs, off, n);
  }

  lemma {:induction false} FilledElsewhere(start: Mem, base: int, fs: seq<Field>, off: int, n: nat)
    requires forall i :: 0 <= i < |fs| ==> Disjoint(fs[i].off, fs[i].size, off, n)
    ensures LoadMem(Filled(start, base, fs), base + off, n) == LoadMem(start, base + off, n)
    decreases |fs|
  {
    hide LoadMem, StoreMem;
    if fs != [] {
      var k := |fs| - 1;
      FilledElsewhere(start, base, fs[..k], off, n);
      LoadElsewhere(Filled(start, base, fs[..k]), base + fs[k].off, fs[k].size, fs[k].value, base + off, n);
    }
  }

  /** A new map: its BTF and inner map are the descriptors kept, and its size is the context's, or if that is 0 the static one. */
  lemma {:induction false} MapHolds(w: World, s: Slots, want: Want, pre: seq<Event>, e: Event)
    requires want.MapNew? && CmdOk(w, s, want, pre, e)
    ensures LoadMem(e.mem, e.attr + 48, 4) == if want.with_btf then U32(At(s.stack, 0)) else LoadMem(w.start, e.attr + 48, 4)
    ensures LoadMem(e.mem, e.attr + 20, 4) == if want.outer then U32(At(s.stack, 1)) else LoadMem(w.start, e.attr + 20, 4)
    ensures LoadMem(e.mem, e.attr + 12, 4)
            == if want.idx >= 0 && MaxEntries(w, want.idx) != 0 then U32(MaxEntries(w, want.idx)) else LoadMem(w.start, e.attr + 12, 4)
  {
    hide LoadMem, Filled, MaxEntries, Built;
    var a := want.with_btf;
    var b := want.outer;
    var c := want.idx >= 0 && MaxEntries(w, want.idx) != 0;
    var fs := FieldsOf(w, s, want);
    MapField(w, e, fs, if a then 0 else -1, 48);
    MapField(w, e, fs, if !b then -1 else if a then 1 else 0, 20);
    MapField(w, e, fs, if !c then -1 else |fs| - 1, 12);
    Powers();
  }

  lemma {:induction false} MapField(w: World, e: Event, fs: seq<Field>, i: int, off: int)
    requires e.Bpf? && Built(e.mem, w.start, e.attr, MAP_ATTR_SIZE, fs) && FieldsApart(fs) && i < |fs| && 0 <= off && off + 4 <= MAP_ATTR_SIZE
    requires if i >= 0 then fs[i].off == off && fs[i].size == 4 else forall j :: 0 <= j < |fs| ==> Disjoint(fs[j].off, fs[j].size, off, 4)
    ensures LoadMem(e.mem, e.attr + off, 4) == if i >= 0 then fs[i].value % Pow256(4) else LoadMem(w.start, e.attr + off, 4)
  {
    hide LoadMem, Filled;
    if i >= 0 {
      FieldHolds(e.mem, w.start, e.attr, MAP_ATTR_SIZE, fs, i);
    } else {
      FieldsElsewhere(e.mem, w.start, e.attr, MAP_ATTR_SIZE, fs, off, 4);
    }
  }

  lemma {:induction false} PopulateHolds(w: World, s: Slots, want: Want, pre: seq<Event>, e: Event)
    requires want.Populate? && CmdOk(w, s, want, pre, e)
    ensures 0 <= want.outer_idx < |s.maps| && LoadMem(e.mem, e.attr, 4) == U32(s.maps[want.outer_idx])
    ensures LoadMem(e.mem, e.attr + 8, 8) == U64(w.o.blob + want.key) && LoadMem(e.mem, e.attr + 16, 8) == U64(w.o.blob + 4 * want.inner_idx)
    ensures 0 <= want.inner_idx < |s.maps| && LoadMem(e.mem, w.o.blob + 4 * want.inner_idx, 4) == U32(s.maps[want.inner_idx])
  {
    hide LoadMem, Filled;
    var fs := FieldsOf(w, s, want);
    FieldHolds(e.mem, w.start, e.attr, ELEM_ATTR_SIZE, fs, 0);
    FieldHolds(e.mem, w.start, e.attr, ELEM_ATTR_SIZE, fs, 1);
    FieldHolds(e.mem, w.start, e.attr, ELEM_ATTR_SIZE, fs, 2);
    Powers();
  }

  lemma {:induction false} FreezeHolds(w: World, s: Slots, want: Want, pre: seq<Event>, e: Event)
    requires want.Freeze? && CmdOk(w, s, want, pre, e)
    ensures 0 <= want.freeze_idx < |s.maps| && LoadMem(e.mem, e.attr, 4) == U32(s.maps[want.freeze_idx])
  {
    hide LoadMem, Filled;
    FieldHolds(e.mem, w.start, e.attr, FREEZE_ATTR_SIZE, FieldsOf(w, s, want), 0);
    Powers();
  }

  /** An attach target: the attributes hold the BTF id and the descriptor, the halves of what a lookup of its name returned. */
  lemma {:induction false} AttachHolds(w: World, s: Slots, want: Want, pre: seq<Event>, e: Event) returns (ret: int)
    requires want.ProgNew? && want.target != None && CmdOk(w, s, want, pre, e)
    ensures ret >= 0 && Found(w.o.blob + want.target.value.name, want.target.value.len, want.target.value.kind, ret) in pre
    ensures LoadMem(e.mem, e.attr + 108, 4) == U32(ret) && LoadMem(e.mem, e.attr + 112, 4) == High(ret)
  {
    hide LoadMem, Filled, Ctx;
    var g := want.target.value;
    ret :| ret >= 0 && Found(w.o.blob + g.name, g.len, g.kind, ret) in pre
           && Built(e.mem, w.start, e.attr, SizeOf(want), FieldsOf(w, s, want) + AttachFields(ret));
    var fs := FieldsOf(w, s, want) + AttachFields(ret);
    assert |fs| == 12 && fs[10].off == 108 && fs[11].off == 112;
    FieldHolds(e.mem, w.start, e.attr, PROG_ATTR_SIZE, fs, 10);
    FieldHolds(e.mem, w.start, e.attr, PROG_ATTR_SIZE, fs, 11);
    Powers();
  }

  /** Where the descriptor that command `k` returned is kept: one place for each map and program, and for the BTF and the
      inner map that of the latest command. */
  ghost predicate KeptAt(s: Slots, ws: seq<Want>, k: nat, ret: int)
    requires k < |ws|
  {
    && (ws[k].MapNew? && ws[k].idx >= 0 ==> Maps(ws[..k]) < |s.maps| && s.maps[Maps(ws[..k])] == ret)
    && (ws[k].ProgNew? ==> 2 + Progs(ws[..k]) < |s.stack| && s.stack[2 + Progs(ws[..k])] == ret)
    && (ws[k].BtfLoad? && (forall j :: k < j < |ws| ==> !ws[j].BtfLoad?) ==> At(s.stack, 0) == ret)
    && (InnerMap(ws[k]) && (forall j :: k < j < |ws| ==> !InnerMap(ws[j])) ==> At(s.stack, 1) == ret)
  }

  predicate InnerMap(want: Want) {
    want.MapNew? && want.idx < 0
  }

  /** Each command that returns a descriptor has it kept. */
  lemma {:induction false} SlotReturned(w: World, ws: seq<Want>, t: seq<Event>, k: nat)
    requires Good(w, ws, t) && k < |ws|
    ensures |Bpfs(t)| == |ws| && Bpfs(t)[k].Bpf? && KeptAt(SlotsIn(ws, t), ws, k, Bpfs(t)[k].ret)
    decreases |t|
  {
    hide CmdOk, KeptAt, After;
    var e, pre := t[|t| - 1], t[..|t| - 1];
    if !e.Bpf? {
      SlotReturned(w, ws, pre, k);
    } else {
      var ws1 := ws[..|ws| - 1];
      SlotCounts(w, ws1, pre);
      assert ws1 + [ws[|ws| - 1]] == ws;
      BpfCount(w, ws1, pre);
      if k < |ws1| {
        SlotReturned(w, ws1, pre, k);
        KeptOn(SlotsIn(ws1, pre), ws1, ws[|ws| - 1], k, Bpfs(pre)[k].ret, e.ret);
      } else {
        KeptNow(SlotsIn(ws1, pre), ws1, ws[k], e.ret);
      }
    }
  }

  lemma {:induction false} BpfCount(w: World, ws: seq<Want>, t: seq<Event>)
    requires Good(w, ws, t)
    ensures |Bpfs(t)| == |ws|
    decreases |t|
  {
    hide CmdOk;
    if t != [] {
      if t[|t| - 1].Bpf? { BpfCount(w, ws[..|ws| - 1], t[..|t| - 1]); } else { BpfCount(w, ws, t[..|t| - 1]); }
    }
  }

  lemma {:induction false} KeptOn(s: Slots, ws: seq<Want>, want: Want, k: nat, ret: int, ret2: int)
    requires k < |ws| && KeptAt(s, ws, k, ret) && |s.stack| >= 2
    ensures KeptAt(After(s, want, ret2), ws + [want], k, ret)
  {
    hide Maps, Progs;
    var ws2 := ws + [want];
    assert ws2[..k] == ws[..k] && ws2[k] == ws[k] && ws2[|ws|] == want;
    if ws2[k].BtfLoad? && (forall j :: k < j < |ws2| ==> !ws2[j].BtfLoad?) {
      assert forall j :: k < j < |ws| ==> ws[j] == ws2[j];
    }
    if InnerMap(ws2[k]) && (forall j :: k < j < |ws2| ==> !InnerMap(ws2[j])) {
      assert forall j :: k < j < |ws| ==> ws[j] == ws2[j];
    }
  }

  lemma {:induction false} KeptNow(s: Slots, ws: seq<Want>, want: Want, ret: int)
    requires |s.maps| == Maps(ws) && |s.stack| == 2 + Progs(ws)
    ensures KeptAt(After(s, want, ret), ws + [want], |ws|, ret)
  {
    hide Maps, Progs;
    assert (ws + [want])[..|ws|] == ws;
  }
}
