/** Symbol resolution of the static linker (linker.c): one state machine over the symbols of all object files.
    Binding and visibility are those of the System V gABI, chapter 4, "Symbol Table". */
module LinkerSyms {
  import opened Common
  import LinkerLayout

  const ENOENT := 2
  const ENOTSUP := 95
  const SHN_UNDEF := 0
  const SHN_LORESERVE := 0xff00

  datatype Bind = Local | Global | Weak
  datatype SymType = NoType | Object | Func | Section | Other

  datatype Sym = Sym(name: string, typ: SymType, bind: Bind, vis: nat, shndx: nat, value: int, size: int)

  /** An output section, as far as symbols go: its ELF index (0 for an ephemeral one) and its section symbol (0 for none). */
  datatype SecSym = SecSym(sec_idx: nat, sec_sym_idx: nat)

  datatype GlobSym = GlobSym(sym_idx: nat, sec_id: nat, name: string, is_extern: bool, is_weak: bool)

  /** How a symbol's BTF compares with that of its name's entry. */
  datatype Info = Info(matches: bool, completes: bool)

  predicate IsExtern(s: Sym) { s.shndx == SHN_UNDEF }

  /** What `linker_sanity_check_elf_symtab` lets through, apart from symbol 0. */
  predicate SymOk(s: Sym, nr_secs: nat) {
    && (s.vis == 0 || s.vis == 2)
    && (IsExtern(s) ==> s.typ == NoType && s.bind != Local && s.value == 0 && s.size == 0)
    && (s.shndx < SHN_LORESERVE ==> s.shndx < nr_secs || IsExtern(s))
    && (s.typ == Section && !IsExtern(s) ==> s.value == 0)
  }

  /** One occurrence of a global name: as it was in its file, and what a definition contributes. */
  datatype Occ = Occ(is_extern: bool, bind: Bind, vis: nat, typ: SymType, shndx: nat, value: int, size: int)

  predicate StrongDef(o: Occ) { !o.is_extern && o.bind == Global }

  /** The definition a name keeps: the strong one, or else the first weak one. */
  ghost predicate Kept(hs: seq<Occ>, k: nat) {
    && k < |hs| && !hs[k].is_extern
    && (hs[k].bind != Global ==> forall i :: 0 <= i < |hs| ==> !StrongDef(hs[i]) && (i < k ==> hs[i].is_extern))
  }

  ghost predicate Defined(hs: seq<Occ>) { exists i :: 0 <= i < |hs| && !hs[i].is_extern }

  ghost predicate SomeGlobal(hs: seq<Occ>) { exists i :: 0 <= i < |hs| && hs[i].bind == Global }

  function MaxVis(hs: seq<Occ>): nat {
    if hs == [] then 0
    else
      var v, w := MaxVis(hs[..|hs| - 1]), hs[|hs| - 1].vis;
      if w > v then w else v
  }

  ghost predicate OneStrongDef(hs: seq<Occ>) {
    forall i, j :: 0 <= i < j < |hs| ==> !(StrongDef(hs[i]) && StrongDef(hs[j]))
  }

  predicate Shows(s: Sym, o: Occ) {
    s.typ == o.typ && s.shndx == o.shndx && s.value == o.value && s.size == o.size
  }

  /** What every global name stands for after the occurrences `hs`, all linked successfully. */
  ghost predicate Resolved(hs: seq<Occ>, g: GlobSym, s: Sym) {
    && hs != [] && OneStrongDef(hs) && s.name == g.name
    && (forall i :: 0 <= i < |hs| ==> hs[i].bind != Local)
    && s.bind == (if SomeGlobal(hs) then Global else Weak) && (g.is_weak <==> s.bind == Weak)
    && s.vis == MaxVis(hs)
    && (g.is_extern <==> !Defined(hs))
    && (!g.is_extern ==> exists k: nat :: Kept(hs, k) && Shows(s, hs[k]))
    && (g.is_extern ==> Shows(s, hs[0]))
  }

  /** The only conflict: a strong definition of a name that is defined and was global before. */
  ghost predicate Conflicts(hs: seq<Occ>, o: Occ) {
    StrongDef(o) && Defined(hs) && SomeGlobal(hs)
  }

  lemma {:induction false} Appended(hs: seq<Occ>, o: Occ)
    ensures Defined(hs + [o]) <==> Defined(hs) || !o.is_extern
    ensures SomeGlobal(hs + [o]) <==> SomeGlobal(hs) || o.bind == Global
    ensures MaxVis(hs + [o]) == if o.vis > MaxVis(hs) then o.vis else MaxVis(hs)
    ensures OneStrongDef(hs) && !(StrongDef(o) && Defined(hs) && SomeGlobal(hs)) ==> OneStrongDef(hs + [o])
  {
    var h2 := hs + [o];
    assert h2[..|hs|] == hs;
    assert forall i :: 0 <= i < |hs| ==> h2[i] == hs[i];
    assert h2[|hs|] == o;
  }

  /** A definition that is kept stays kept unless a strong definition comes. */
  lemma {:induction false} KeptOn(hs: seq<Occ>, o: Occ, k: nat)
    requires Kept(hs, k) && !(StrongDef(o) && SomeGlobal(hs))
    ensures StrongDef(o) ==> Kept(hs + [o], |hs|)
    ensures !StrongDef(o) ==> Kept(hs + [o], k)
  {
    var h2 := hs + [o];
    assert forall i :: 0 <= i < |hs| ==> h2[i] == hs[i];
  }

  lemma {:induction false} KeptFirst(hs: seq<Occ>, o: Occ)
    requires !Defined(hs) && !o.is_extern
    ensures Kept(hs + [o], |hs|)
  {
    var h2 := hs + [o];
    assert forall i :: 0 <= i < |hs| ==> h2[i] == hs[i];
  }

  /** The code's test for a conflict, on its flags, is the conflict of the history. */
  lemma {:induction false} ConflictTest(hs: seq<Occ>, o: Occ, g: GlobSym, s: Sym)
    requires Resolved(hs, g, s) && o.bind != Local
    ensures Conflicts(hs, o) <==> !o.is_extern && !g.is_extern && !g.is_weak && o.bind != Weak
    ensures g.is_extern <==> !Defined(hs)
  {
  }

  /** A symbol that loses, or is extern, tightens binding and visibility only. */
  lemma {:induction false} ResolveLoses(hs: seq<Occ>, o: Occ, g: GlobSym, s: Sym, g2: GlobSym, s2: Sym)
    requires Resolved(hs, g, s) && o.bind != Local && (o.is_extern || (!g.is_extern && o.bind == Weak))
    requires g2 == (if o.bind == Global then g.(is_weak := false) else g)
    requires s2 == s.(bind := if o.bind == Global then Global else s.bind, vis := if o.vis > s.vis then o.vis else s.vis)
    ensures Resolved(hs + [o], g2, s2)
  {
    Appended(hs, o);
    var h2 := hs + [o];
    assert h2[0] == hs[0];
    if !g.is_extern {
      var k: nat :| Kept(hs, k) && Shows(s, hs[k]);
      KeptOn(hs, o, k);
      assert h2[k] == hs[k];
    }
  }

  /** A symbol that wins contributes its definition. */
  lemma {:induction false} ResolveWins(hs: seq<Occ>, o: Occ, g: GlobSym, s: Sym, g2: GlobSym, s2: Sym)
    requires Resolved(hs, g, s) && o.bind != Local && !o.is_extern && (g.is_extern || o.bind == Global) && !Conflicts(hs, o)
    requires g2 == (if o.bind == Global then g.(is_weak := false) else g).(is_extern := false, sec_id := g2.sec_id)
    requires s2.bind == (if o.bind == Global then Global else s.bind) && s2.vis == (if o.vis > s.vis then o.vis else s.vis)
    requires Shows(s2, o) && s2.name == s.name
    ensures Resolved(hs + [o], g2, s2)
  {
    Appended(hs, o);
    var h2 := hs + [o];
    assert h2[|hs|] == o;
    if g.is_extern {
      KeptFirst(hs, o);
    } else {
      var k: nat :| Kept(hs, k) && Shows(s, hs[k]);
      KeptOn(hs, o, k);
    }
  }

  lemma {:induction false} ResolveNew(o: Occ, g: GlobSym, s: Sym)
    requires o.bind != Local && s.bind == o.bind && s.vis == o.vis && Shows(s, o) && s.name == g.name
    requires g.is_extern == o.is_extern && g.is_weak == (o.bind == Weak)
    ensures Resolved([o], g, s)
  {
    assert [o][0] == o && [o][..0] == [];
    if !o.is_extern { assert Kept([o], 0); }
  }

  datatype BtfKind = Decl(is_static: bool) | DataSec | OtherKind

  /** A BTF type as far as the search for a symbol looks at it: a VAR or FUNC, a DATASEC with the types it lists, or another. */
  datatype BtfItem = BtfItem(name: string, kind: BtfKind, vars: seq<nat>)

  /** The type found for a symbol, and the DATASEC that lists it (0 if none does). */
  datatype BtfHit = Hit(sec: nat, id: nat) | NoHit(err: int)

  predicate BtfOk(btf: seq<BtfItem>) {
    forall i, j :: 0 <= i < |btf| && 0 <= j < |btf[i].vars| ==> btf[i].vars[j] < |btf|
  }

  /** A DATASEC's entry is the symbol's. */
  predicate Lists(btf: seq<BtfItem>, x: nat, name: string) {
    x < |btf| && btf[x].name == name && btf[x].kind != Decl(true)
  }

  /** The first entry of DATASEC `i` that is the symbol's. */
  function EntryOf(btf: seq<BtfItem>, i: nat, name: string, from: nat): (j: nat)
    requires i < |btf| && from <= |btf[i].vars|
    ensures from <= j <= |btf[i].vars| && (j < |btf[i].vars| ==> Lists(btf, btf[i].vars[j], name))
    ensures forall k :: from <= k < j ==> !Lists(btf, btf[i].vars[k], name)
    decreases |btf[i].vars| - from
  {
    if from == |btf[i].vars| || Lists(btf, btf[i].vars[from], name) then from else EntryOf(btf, i, name, from + 1)
  }

  predicate ListedIn(btf: seq<BtfItem>, i: nat, name: string) {
    i < |btf| && btf[i].kind == DataSec && EntryOf(btf, i, name, 0) < |btf[i].vars|
  }

  /** The first DATASEC from `i` on that lists the symbol. */
  function DataSecOf(btf: seq<BtfItem>, name: string, i: nat): (d: nat)
    requires i <= |btf|
    ensures i <= d <= |btf| && (d < |btf| ==> ListedIn(btf, d, name)) && forall k :: i <= k < d ==> !ListedIn(btf, k, name)
    decreases |btf| - i
  {
    if i == |btf| || ListedIn(btf, i, name) then i else DataSecOf(btf, name, i + 1)
  }

  predicate Declares(btf: seq<BtfItem>, i: nat, name: string) {
    i < |btf| && btf[i].kind == Decl(false) && btf[i].name == name
  }

  /** The last VAR or FUNC of that name before type `d`, static ones left out. */
  function DeclOf(btf: seq<BtfItem>, name: string, d: nat): (l: nat)
    ensures l == 0 || (l < d && Declares(btf, l, name))
    ensures forall k :: l < k < d && 1 <= k ==> !Declares(btf, k, name)
  {
    if d <= 1 then 0 else if Declares(btf, d - 1, name) then d - 1 else DeclOf(btf, name, d - 1)
  }

  /** What a symbol's BTF is: the entry of the first DATASEC that lists it, which the last declaration before must
      agree with; if no DATASEC does, the last declaration of all. */
  function FindBtf(btf: seq<BtfItem>, name: string): (h: BtfHit)
    requires |btf| >= 1
    ensures h.NoHit? ==> h.err == -EINVAL || h.err == -ENOENT
  {
    var d := DataSecOf(btf, name, 1);
    var l := DeclOf(btf, name, d);
    if d < |btf| then
      var x := btf[d].vars[EntryOf(btf, d, name, 0)];
      if l != 0 && l != x then NoHit(-EINVAL) else Hit(d, x)
    else if l != 0 then Hit(0, l)
    else NoHit(-ENOENT)
  }

  /** `find_glob_sym_btf`. */
  method FindGlobSymBtf(btf: seq<BtfItem>, name: string) returns (h: BtfHit)
    requires |btf| >= 1 && BtfOk(btf)
    ensures h == FindBtf(btf, name)
  {
    var btf_id := 0;
    for i := 1 to |btf|
      invariant btf_id == DeclOf(btf, name, i) && DataSecOf(btf, name, 1) >= i
    {
      var t := btf[i];
      if t.kind == Decl(false) {
        if t.name == name { btf_id := i; }
      } else if t.kind == DataSec {
        for j := 0 to |t.vars|
          invariant EntryOf(btf, i, name, 0) >= j
        {
          var x := t.vars[j];
          if btf[x].name == name && btf[x].kind != Decl(true) {
            assert Lists(btf, x, name) && ListedIn(btf, i, name) && DataSecOf(btf, name, 1) == i;
            if btf_id != 0 && btf_id != x { return NoHit(-EINVAL); }
            return Hit(i, x);
          }
        }
      }
      assert !ListedIn(btf, i, name);
    }
    h := if btf_id != 0 then Hit(0, btf_id) else NoHit(-ENOENT);
  }

  /** An object file being linked, its sections already appended. */
  class SrcObj {
    const syms: seq<Sym>
    const secs: seq<LinkerLayout.SrcSec>
    const infos: seq<Info>
    const btf: Option<seq<BtfItem>>
    const sym_map: array<nat>

    constructor (syms: seq<Sym>, secs: seq<LinkerLayout.SrcSec>, infos: seq<Info>, btf: Option<seq<BtfItem>>)
      ensures this.syms == syms && this.secs == secs && this.infos == infos && this.btf == btf
      ensures fresh(sym_map) && sym_map.Length == |syms| + 1 && forall i :: 0 <= i <= |syms| ==> sym_map[i] == 0
    {
      this.syms, this.secs, this.infos, this.btf := syms, secs, infos, btf;
      sym_map := new nat[|syms| + 1](_ => 0);
    }
  }

  /** A source symbol's section, if it lies in one. */
  predicate InSection(s: Sym) {
    !IsExtern(s) && s.shndx < SHN_LORESERVE
  }

  /** The object file passed the sanity checks, and its sections have places among `n` output sections.
      A global definition or a section symbol outside any section would crash the linker. */
  ghost predicate SrcOk(o: SrcObj, n: nat) {
    && |o.infos| == |o.syms| && o.sym_map.Length == |o.syms| + 1
    && (forall i :: 0 <= i < |o.secs| ==> o.secs[i].dst_id < n)
    && (forall i :: 1 <= i < |o.syms| ==>
          && SymOk(o.syms[i], |o.secs|)
          && (!IsExtern(o.syms[i]) && (o.syms[i].bind != Local || o.syms[i].typ == Section) ==> InSection(o.syms[i])))
    && (o.btf != None ==> |o.btf.value| >= 1 && BtfOk(o.btf.value))
  }

  /** `find_src_sec_by_name`: the first section of that name. */
  function SecNamed(secs: seq<LinkerLayout.SrcSec>, name: string, from: nat): (k: nat)
    requires from <= |secs|
    ensures from <= k <= |secs| && (k < |secs| ==> secs[k].name == name) && forall j :: from <= j < k ==> secs[j].name != name
    decreases |secs| - from
  {
    if from == |secs| || secs[from].name == name then from else SecNamed(secs, name, from + 1)
  }

  method FindSrcSec(secs: seq<LinkerLayout.SrcSec>, name: string) returns (k: nat)
    requires |secs| >= 1
    ensures k == SecNamed(secs, name, 1)
  {
    k := 1;
    while k < |secs|
      invariant 1 <= k <= SecNamed(secs, name, 1)
    {
      if secs[k].name == name { return; }
      k := k + 1;
    }
  }

  /** A symbol's BTF. */
  function HitOf(obj: SrcObj, i: nat): BtfHit
    requires i < |obj.syms|
  {
    if obj.btf == None || obj.btf.value == [] then NoHit(-EINVAL) else FindBtf(obj.btf.value, obj.syms[i].name)
  }

  /** The DATASEC of an extern names a section, `.extern` being none. */
  predicate NamesSec(obj: SrcObj, i: nat)
    requires i < |obj.syms|
  {
    var h := HitOf(obj, i);
    && IsExtern(obj.syms[i]) && obj.syms[i].bind != Local && obj.btf != None && h.Hit?
    && 0 < h.sec < |obj.btf.value| && obj.btf.value[h.sec].name != ".extern"
  }

  /** That section, or the number of sections if the file has none of that name. */
  function NamedSec(obj: SrcObj, i: nat): (k: nat)
    requires i < |obj.syms| && NamesSec(obj, i)
    ensures k <= |obj.secs|
  {
    if obj.secs == [] then 0 else SecNamed(obj.secs, obj.btf.value[HitOf(obj, i).sec].name, 1)
  }

  /** The source section of a symbol: its own or, for an extern, the one its BTF DATASEC names. */
  function SrcSecOf(obj: SrcObj, i: nat): (k: Option<nat>)
    requires i < |obj.syms|
    ensures k != None ==> k.value < |obj.secs| || InSection(obj.syms[i])
  {
    var s := obj.syms[i];
    if InSection(s) then Some(s.shndx)
    else if NamesSec(obj, i) && NamedSec(obj, i) < |obj.secs| then Some(NamedSec(obj, i))
    else None
  }

  /** Symbol `i`, and the output section it goes to, exist. */
  predicate Placeable(obj: SrcObj, secs: seq<SecSym>, i: nat) {
    && i < |obj.syms| && i < |obj.infos|
    && (SrcSecOf(obj, i) != None ==>
          SrcSecOf(obj, i).value < |obj.secs| && obj.secs[SrcSecOf(obj, i).value].dst_id < |secs|)
  }

  function DstSecOf(obj: SrcObj, secs: seq<SecSym>, i: nat): (d: Option<nat>)
    requires Placeable(obj, secs, i)
    ensures d != None ==> d.value < |secs|
  {
    if SrcSecOf(obj, i) == None then None else Some(obj.secs[SrcSecOf(obj, i).value].dst_id)
  }

  /** Symbols the linker passes over: of skipped sections, and second symbols of a section. */
  predicate PassedOver(obj: SrcObj, secs: seq<SecSym>, i: nat)
    requires Placeable(obj, secs, i)
  {
    var s := obj.syms[i];
    InSection(s) && (obj.secs[s.shndx].skipped || (s.typ == Section && secs[obj.secs[s.shndx].dst_id].sec_sym_idx != 0))
  }

  /** What a source symbol contributes to the output: its place is its section's, if it has one. */
  function Image(obj: SrcObj, secs: seq<SecSym>, i: nat): Sym
    requires Placeable(obj, secs, i)
  {
    var s, src, dst := obj.syms[i], SrcSecOf(obj, i), DstSecOf(obj, secs, i);
    s.(shndx := if dst != None then secs[dst.value].sec_idx else s.shndx,
       value := (if src != None then obj.secs[src.value].dst_off else 0) + s.value)
  }

  /** As a symbol of its own; a section symbol has value 0. */
  function NewImage(obj: SrcObj, secs: seq<SecSym>, i: nat): Sym
    requires Placeable(obj, secs, i)
  {
    if obj.syms[i].typ == Section then Image(obj, secs, i).(value := 0) else Image(obj, secs, i)
  }

  /** What the linker knows while it takes in symbols: the occurrences of each name, the output sections, and how many
      symbols there are. */
  datatype Known = Known(hist: map<string, seq<Occ>>, secs: seq<SecSym>, nr_syms: nat)

  /** The occurrence a global symbol contributes. */
  function Contribution(obj: SrcObj, w: Known, i: nat): Occ
    requires Placeable(obj, w.secs, i)
  {
    OccOf(if obj.syms[i].name in w.hist then Image(obj, w.secs, i) else NewImage(obj, w.secs, i), IsExtern(obj.syms[i]))
  }

  /** A known name refuses a symbol. */
  ghost predicate Refused(obj: SrcObj, w: Known, i: nat)
    requires Placeable(obj, w.secs, i) && obj.syms[i].name in w.hist
  {
    var hs, o := w.hist[obj.syms[i].name], Contribution(obj, w, i);
    Conflicts(hs, o) || !obj.infos[i].matches || (Wins(hs, o) && !obj.infos[i].completes)
  }

  ghost function Verdict(obj: SrcObj, w: Known, i: nat): int
    requires Placeable(obj, w.secs, i)
  {
    var s := obj.syms[i];
    if IsExtern(s) && obj.btf == None then -ENOTSUP
    else if PassedOver(obj, w.secs, i) || s.bind == Local then 0
    else if HitOf(obj, i).NoHit? then HitOf(obj, i).err
    else if NamesSec(obj, i) && NamedSec(obj, i) == |obj.secs| then -ENOENT
    else if s.name in w.hist && Refused(obj, w, i) then -EINVAL
    else 0
  }

  /** The symbol contributes an occurrence of its name. */
  predicate Contributes(obj: SrcObj, w: Known, i: nat)
    requires Placeable(obj, w.secs, i)
  {
    !PassedOver(obj, w.secs, i) && obj.syms[i].bind != Local
  }

  function Occs(hist: map<string, seq<Occ>>, name: string): seq<Occ> {
    if name in hist then hist[name] else []
  }

  /** What is known after symbol `i` was taken in: a local symbol or a new name takes a place in the symbol table. */
  function Next(obj: SrcObj, w: Known, i: nat): (w2: Known)
    requires Placeable(obj, w.secs, i)
    ensures |w2.secs| == |w.secs|
  {
    var s, dst := obj.syms[i], DstSecOf(obj, w.secs, i);
    if PassedOver(obj, w.secs, i) then w
    else
      var hist := if Contributes(obj, w, i) then w.hist[s.name := Occs(w.hist, s.name) + [Contribution(obj, w, i)]] else w.hist;
      if s.bind != Local && s.name in w.hist then w.(hist := hist)
      else
        Known(hist, if s.typ == Section && dst != None then w.secs[dst.value := w.secs[dst.value].(sec_sym_idx := w.nr_syms)] else w.secs,
              w.nr_syms + 1)
  }

  /** The global entry of a name matches its symbol and its history. */
  ghost predicate GlobAt(symtab: seq<Sym>, gs: seq<GlobSym>, hist: map<string, seq<Occ>>, k: nat)
    requires k < |gs|
  {
    && gs[k].sym_idx < |symtab| && gs[k].name in hist
    && Resolved(hist[gs[k].name], gs[k], symtab[gs[k].sym_idx])
  }

  ghost predicate HasGlob(gs: seq<GlobSym>, name: string) {
    exists k :: 0 <= k < |gs| && gs[k].name == name
  }

  ghost predicate Tables(symtab: seq<Sym>, gs: seq<GlobSym>, hist: map<string, seq<Occ>>) {
    && |symtab| > 0
    && (forall k {:trigger GlobAt(symtab, gs, hist, k)} :: 0 <= k < |gs| ==> GlobAt(symtab, gs, hist, k))
    && (forall i, j :: 0 <= i < j < |gs| ==> gs[i].name != gs[j].name && gs[i].sym_idx != gs[j].sym_idx)
    && (forall name :: name in hist <==> HasGlob(gs, name))
  }

  /** Updating one global symbol and its entry touches no other. */
  lemma {:induction false} TablesUpdate(symtab: seq<Sym>, gs: seq<GlobSym>, hist: map<string, seq<Occ>>, k: nat, o: Occ,
                                        g2: GlobSym, s2: Sym)
    requires Tables(symtab, gs, hist) && k < |gs| && g2.name == gs[k].name && g2.sym_idx == gs[k].sym_idx
    requires gs[k].sym_idx < |symtab| && gs[k].name in hist
    requires Resolved(hist[gs[k].name] + [o], g2, s2)
    ensures Tables(symtab[gs[k].sym_idx := s2], gs[k := g2], hist[gs[k].name := hist[gs[k].name] + [o]])
  {
    var t2, gs2, h2 := symtab[gs[k].sym_idx := s2], gs[k := g2], hist[gs[k].name := hist[gs[k].name] + [o]];
    forall i | 0 <= i < |gs2| ensures GlobAt(t2, gs2, h2, i) { assert GlobAt(symtab, gs, hist, i); }
    forall name ensures HasGlob(gs2, name) <==> HasGlob(gs, name) {
      assert forall i :: 0 <= i < |gs| ==> gs2[i].name == gs[i].name;
    }
  }

  /** So does a new symbol, global or not. */
  lemma {:induction false} TablesAppend(symtab: seq<Sym>, gs: seq<GlobSym>, hist: map<string, seq<Occ>>, s: Sym)
    requires Tables(symtab, gs, hist)
    ensures Tables(symtab + [s], gs, hist)
  {
    var t2 := symtab + [s];
    forall i | 0 <= i < |gs| ensures GlobAt(t2, gs, hist, i) {
      assert GlobAt(symtab, gs, hist, i);
      assert t2[gs[i].sym_idx] == symtab[gs[i].sym_idx];
    }
  }

  lemma {:induction false} TablesNew(symtab: seq<Sym>, gs: seq<GlobSym>, hist: map<string, seq<Occ>>, s: Sym, g: GlobSym, o: Occ)
    requires Tables(symtab, gs, hist) && !HasGlob(gs, g.name) && g.sym_idx == |symtab| && Resolved([o], g, s)
    ensures Tables(symtab + [s], gs + [g], hist[g.name := [o]])
  {
    var t2, gs2, h2 := symtab + [s], gs + [g], hist[g.name := [o]];
    assert t2[|symtab|] == s && gs2[|gs|] == g;
    forall i | 0 <= i < |gs2| ensures GlobAt(t2, gs2, h2, i) {
      if i < |gs| {
        assert GlobAt(symtab, gs, hist, i);
        assert gs2[i] == gs[i] && t2[gs[i].sym_idx] == symtab[gs[i].sym_idx];
      }
    }
    forall i, j | 0 <= i < j < |gs2| ensures gs2[i].name != gs2[j].name && gs2[i].sym_idx != gs2[j].sym_idx {
      assert GlobAt(symtab, gs, hist, i);
    }
    forall name ensures HasGlob(gs2, name) <==> HasGlob(gs, name) || name == g.name {
      assert forall i :: 0 <= i < |gs| ==> gs2[i] == gs[i];
    }
  }

  /** Symbol `idx` of the output is the one of the name's global entry. */
  ghost predicate LinkedTo(symtab: seq<Sym>, gs: seq<GlobSym>, name: string, idx: nat) {
    idx < |symtab| && symtab[idx].name == name && exists k :: 0 <= k < |gs| && gs[k].name == name && gs[k].sym_idx == idx
  }

  ghost predicate IsGlobIdx(gs: seq<GlobSym>, x: nat) {
    exists k :: 0 <= k < |gs| && gs[k].sym_idx == x
  }

  /** Symbols and entries are only added; names and entries' places stay, and symbols without an entry stay as they are. */
  ghost predicate Extends(t: seq<Sym>, gs: seq<GlobSym>, t2: seq<Sym>, gs2: seq<GlobSym>) {
    && |t| <= |t2| && |gs| <= |gs2|
    && (forall k :: 0 <= k < |gs| ==> gs2[k].name == gs[k].name && gs2[k].sym_idx == gs[k].sym_idx)
    && (forall k :: |gs| <= k < |gs2| ==> gs2[k].sym_idx >= |t|)
    && (forall x :: 0 <= x < |t| ==> t2[x].name == t[x].name && (!IsGlobIdx(gs, x) ==> t2[x] == t[x]))
  }

  lemma {:induction false} LinksStay(t: seq<Sym>, gs: seq<GlobSym>, t2: seq<Sym>, gs2: seq<GlobSym>, name: string, x: nat)
    requires Extends(t, gs, t2, gs2)
    ensures LinkedTo(t, gs, name, x) ==> LinkedTo(t2, gs2, name, x)
    ensures x < |t| && !IsGlobIdx(gs, x) ==> t2[x] == t[x] && !IsGlobIdx(gs2, x)
  {
    if LinkedTo(t, gs, name, x) {
      var k :| 0 <= k < |gs| && gs[k].name == name && gs[k].sym_idx == x;
      assert gs2[k].name == name && gs2[k].sym_idx == x;
    }
    if x < |t| && !IsGlobIdx(gs, x) {
      forall k | 0 <= k < |gs2| ensures gs2[k].sym_idx != x { assert k < |gs| ==> gs[k].sym_idx != x; }
    }
  }

  lemma {:induction false} ExtendsTrans(t: seq<Sym>, gs: seq<GlobSym>, t1: seq<Sym>, gs1: seq<GlobSym>, t2: seq<Sym>, gs2: seq<GlobSym>)
    requires Extends(t, gs, t1, gs1) && Extends(t1, gs1, t2, gs2)
    ensures Extends(t, gs, t2, gs2)
  {
    forall k | |gs| <= k < |gs2| ensures gs2[k].sym_idx >= |t| {
      if k < |gs1| { assert gs2[k].sym_idx == gs1[k].sym_idx; }
    }
    forall x | 0 <= x < |t| ensures t2[x].name == t[x].name && (!IsGlobIdx(gs, x) ==> t2[x] == t[x]) {
      LinksStay(t, gs, t1, gs1, "", x);
    }
  }

  lemma {:induction false} UpdateExtends(t: seq<Sym>, gs: seq<GlobSym>, k: nat, g2: GlobSym, s2: Sym)
    requires k < |gs| && gs[k].sym_idx < |t| && g2.name == gs[k].name && g2.sym_idx == gs[k].sym_idx && s2.name == t[gs[k].sym_idx].name
    ensures Extends(t, gs, t[gs[k].sym_idx := s2], gs[k := g2])
  {
  }

  /** The symbol of a section, unless that is a global's. */
  ghost predicate SecSymAt(t: seq<Sym>, gs: seq<GlobSym>, x: nat, sec_idx: nat) {
    x < |t| && (IsGlobIdx(gs, x) || (t[x].typ == Section && t[x].bind == Local && t[x].shndx == sec_idx && t[x].value == 0))
  }

  ghost predicate SecSymsOk(t: seq<Sym>, gs: seq<GlobSym>, secs: seq<SecSym>) {
    forall d {:trigger secs[d]} :: 0 <= d < |secs| && secs[d].sec_sym_idx != 0 ==> SecSymAt(t, gs, secs[d].sec_sym_idx, secs[d].sec_idx)
  }

  lemma {:induction false} SecSymStays(t: seq<Sym>, gs: seq<GlobSym>, t2: seq<Sym>, gs2: seq<GlobSym>, x: nat, sec_idx: nat)
    requires SecSymAt(t, gs, x, sec_idx) && Extends(t, gs, t2, gs2)
    ensures SecSymAt(t2, gs2, x, sec_idx)
  {
    if IsGlobIdx(gs, x) {
      var k :| 0 <= k < |gs| && gs[k].sym_idx == x;
      assert gs2[k].sym_idx == x;
    } else {
      LinksStay(t, gs, t2, gs2, "", x);
    }
  }

  lemma {:induction false} SecSymsStay(t: seq<Sym>, gs: seq<GlobSym>, t2: seq<Sym>, gs2: seq<GlobSym>, secs: seq<SecSym>)
    requires SecSymsOk(t, gs, secs) && Extends(t, gs, t2, gs2)
    ensures SecSymsOk(t2, gs2, secs)
  {
    hide SecSymAt, Extends;
    forall d | 0 <= d < |secs| && secs[d].sec_sym_idx != 0 ensures SecSymAt(t2, gs2, secs[d].sec_sym_idx, secs[d].sec_idx) {
      SecSymStays(t, gs, t2, gs2, secs[d].sec_sym_idx, secs[d].sec_idx);
    }
  }

  /** Symbol `i` of a file lies in one of its sections, and not in a skipped one. */
  predicate Placed(obj: SrcObj, secs: seq<SecSym>, i: nat) {
    && i < |obj.syms| && InSection(obj.syms[i]) && obj.syms[i].shndx < |obj.secs| && !obj.secs[obj.syms[i].shndx].skipped
    && obj.secs[obj.syms[i].shndx].dst_id < |secs|
  }

  /** The section index and value that say where symbol `i` of a file went: its section's contents start `dst_off` bytes
      into output section `dst_id`. A symbol outside any section stays as it is. */
  predicate WentTo(obj: SrcObj, secs: seq<SecSym>, i: nat, shndx: nat, value: int) {
    && i < |obj.syms|
    && var s := obj.syms[i];
       if InSection(s) then
         Placed(obj, secs, i) && var sec := obj.secs[s.shndx]; shndx == secs[sec.dst_id].sec_idx && value == sec.dst_off + s.value
       else !IsExtern(s) ==> shndx == s.shndx && value == s.value
  }

  /** The occurrence of a global name comes from symbol `i` of the file. */
  predicate ComesFrom(o: Occ, obj: SrcObj, i: nat, secs: seq<SecSym>) {
    && i < |obj.syms|
    && var s := obj.syms[i];
       && o.bind == s.bind && o.vis == s.vis && o.typ == s.typ && o.size == s.size && (o.is_extern <==> s.shndx == SHN_UNDEF)
       && (!o.is_extern && s.typ != Section ==> WentTo(obj, secs, i, o.shndx, o.value))
  }

  /** The output has symbol `i` of the file, a local one, as `s`. */
  predicate LocalAs(s: Sym, obj: SrcObj, secs: seq<SecSym>, i: nat) {
    && i < |obj.syms| && s == obj.syms[i].(shndx := s.shndx, value := s.value) && WentTo(obj, secs, i, s.shndx, s.value)
  }

  class Linker {
    var symtab: seq<Sym>
    var glob_syms: seq<GlobSym>
    var secs: seq<SecSym>
    /** The occurrences of each global name so far. */
    ghost var hist: map<string, seq<Occ>>

    ghost predicate Valid()
      reads this
    {
      && Tables(symtab, glob_syms, hist)
      && SecSymsOk(symtab, glob_syms, secs)
    }

    /** What is known so far. */
    ghost function State(): Known
      reads this
    {
      Known(hist, secs, |symtab|)
    }

    /** `init_output_elf`: the all-zero symbol, and the sections of the string and symbol tables after the unused one. */
    constructor ()
      ensures Valid() && State() == Known(map[], [SecSym(0, 0), SecSym(1, 0), SecSym(2, 0)], 1)
    {
      symtab := [Sym("", NoType, Local, 0, SHN_UNDEF, 0, 0)];
      glob_syms, secs, hist := [], [SecSym(0, 0), SecSym(1, 0), SecSym(2, 0)], map[];
    }

    /** `find_glob_sym`. */
    method FindGlobSym(name: string) returns (k: nat)
      ensures k <= |glob_syms| && (k < |glob_syms| ==> glob_syms[k].name == name)
      ensures k == |glob_syms| <==> !HasGlob(glob_syms, name)
    {
      k := 0;
      while k < |glob_syms|
        invariant k <= |glob_syms| && forall j :: 0 <= j < k ==> glob_syms[j].name != name
      {
        if glob_syms[k].name == name { return; }
        k := k + 1;
      }
    }

    /** A name that is known: conflicts are refused, the rest tightens or replaces the symbol. */
    method ResolveKnown(k: nat, o: Occ, sec_id: nat, info: Info) returns (err: int)
      requires Valid() && k < |glob_syms| && o.bind != Local
      modifies this`symtab, this`glob_syms, this`hist
      ensures |symtab| == |old(symtab)| && |glob_syms| == |old(glob_syms)|
      ensures old(glob_syms[k].name in hist)
      ensures var hs := old(hist)[old(glob_syms[k].name)];
              err == if Conflicts(hs, o) || !info.matches || (Wins(hs, o) && !info.completes) then -EINVAL else 0
      ensures err == 0 ==> Valid()
      ensures err == 0 ==> hist == old(hist)[old(glob_syms[k].name) := old(hist)[old(glob_syms[k].name)] + [o]]
      ensures Extends(old(symtab), old(glob_syms), symtab, glob_syms)
    {
      hide Resolved, Conflicts, Shows, SecSymsOk;
      var g := glob_syms[k];
      assert GlobAt(symtab, glob_syms, hist, k);
      ghost var hs := hist[g.name];
      var s := symtab[g.sym_idx];
      ConflictTest(hs, o, g, s);
      if !o.is_extern && !g.is_extern && !g.is_weak && o.bind != Weak { return -EINVAL; }
      if !info.matches { return -EINVAL; }
      var g2, s2 := g, s;
      if o.bind == Global { g2, s2 := g2.(is_weak := false), s2.(bind := Global); }
      if o.vis > s.vis { s2 := s2.(vis := o.vis); }
      if o.is_extern || (!g.is_extern && o.bind == Weak) {
        ResolveLoses(hs, o, g, s, g2, s2);
      } else {
        s2 := s2.(typ := o.typ, shndx := o.shndx, value := o.value, size := o.size);
        g2 := g2.(sec_id := sec_id, is_extern := false);
        ResolveWins(hs, o, g, s, g2, s2);
      }
      TablesUpdate(symtab, glob_syms, hist, k, o, g2, s2);
      UpdateExtends(symtab, glob_syms, k, g2, s2);
      SecSymsStay(symtab, glob_syms, symtab[g.sym_idx := s2], glob_syms[k := g2], secs);
      symtab, glob_syms := symtab[g.sym_idx := s2], glob_syms[k := g2];
      hist := hist[g.name := hs + [o]];
      if !(o.is_extern || (!g.is_extern && o.bind == Weak)) && !info.completes { return -EINVAL; }
      err := 0;
    }

    /** The symbol is new: it goes to the end of the symbol table, and a section remembers its symbol. */
    method AddSym(s: Sym, ext: bool, dst: Option<nat>, sec_id: nat) returns (idx: nat)
      requires Valid() && (s.typ == Section ==> dst != None) && (dst != None ==> dst.value < |secs|)
      requires s.typ == Section ==> s.value == 0 && s.shndx == secs[dst.value].sec_idx
      requires s.bind != Local ==> !HasGlob(glob_syms, s.name)
      modifies this
      ensures Valid() && idx == |old(symtab)| && symtab == old(symtab) + [s] && |secs| == |old(secs)|
      ensures Extends(old(symtab), old(glob_syms), symtab, glob_syms)
      ensures secs == if s.typ == Section then old(secs)[dst.value := old(secs)[dst.value].(sec_sym_idx := idx)] else old(secs)
      ensures if s.bind == Local then glob_syms == old(glob_syms) && hist == old(hist)
              else glob_syms == old(glob_syms) + [GlobSym(idx, sec_id, s.name, ext, s.bind == Weak)]
                   && hist == old(hist)[s.name := [OccOf(s, ext)]]
    {
      hide Tables, Resolved, SecSymsOk;
      idx := |symtab|;
      NewExtends(symtab, glob_syms, hist, s, ext, sec_id);
      if s.bind == Local {
        TablesAppend(symtab, glob_syms, hist, s);
        symtab := symtab + [s];
      } else {
        var g := GlobSym(idx, sec_id, s.name, ext, s.bind == Weak);
        ResolveNew(OccOf(s, ext), g, s);
        TablesNew(symtab, glob_syms, hist, s, g, OccOf(s, ext));
        symtab, glob_syms, hist := symtab + [s], glob_syms + [g], hist[s.name := [OccOf(s, ext)]];
      }
      SecSymsStay(old(symtab), old(glob_syms), symtab, glob_syms, secs);
      if s.typ == Section {
        assert s.bind == Local || glob_syms[|glob_syms| - 1].sym_idx == idx;
        NewSecSym(symtab, glob_syms, secs, dst.value, idx);
        secs := secs[dst.value := secs[dst.value].(sec_sym_idx := idx)];
      }
    }

    /** `linker_append_elf_sym`: exactly when it fails, and what a success leaves. */
    method AppendSym(obj: SrcObj, i: nat) returns (err: int)
      requires Valid() && SrcOk(obj, |secs|) && 1 <= i < |obj.syms| && Placeable(obj, secs, i)
      modifies this, obj.sym_map
      ensures |secs| == |old(secs)| && (err == 0 ==> Valid())
      ensures forall x :: 0 <= x < obj.sym_map.Length && x != i ==> obj.sym_map[x] == old(obj.sym_map[x])
      ensures err == Verdict(obj, old(State()), i)
      ensures err == 0 ==> State() == Next(obj, old(State()), i)
      ensures err == 0 && !PassedOver(obj, old(secs), i) && obj.syms[i].bind != Local ==>
                LinkedTo(symtab, glob_syms, obj.syms[i].name, obj.sym_map[i])
      ensures err == 0 && obj.syms[i].bind == Local && !PassedOver(obj, old(secs), i) ==>
                obj.sym_map[i] == |old(symtab)| && symtab == old(symtab) + [NewImage(obj, old(secs), i)]
      ensures err == 0 && PassedOver(obj, old(secs), i) && !obj.secs[obj.syms[i].shndx].skipped ==>
                obj.sym_map[i] == old(secs)[obj.secs[obj.syms[i].shndx].dst_id].sec_sym_idx
      ensures err == 0 ==> LocalMaps(symtab, glob_syms, obj, secs, i, obj.sym_map[i])
      ensures Extends(old(symtab), old(glob_syms), symtab, glob_syms)
    {
      hide Tables, FindBtf, SecNamed, Extends;
      var s := obj.syms[i];
      var src: Option<nat>, dst: Option<nat> := None, None;
      SelfExtends(symtab, glob_syms);
      if IsExtern(s) {
        if obj.btf == None { return -ENOTSUP; }
      } else if s.shndx < SHN_LORESERVE {
        src := Some(s.shndx);
        if obj.secs[s.shndx].skipped { return 0; }
        dst := Some(obj.secs[s.shndx].dst_id);
        if s.typ == Section && secs[dst.value].sec_sym_idx != 0 {
          obj.sym_map[i] := secs[dst.value].sec_sym_idx;
          return 0;
        }
      }
      if s.bind != Local {
        err, dst := FindDst(obj, i, dst);
        if err != 0 { return; }
        err := AppendGlobal(obj, i, dst);
      } else {
        NotGlobYet(symtab, glob_syms, hist);
        obj.sym_map[i] := AddSym(NewImage(obj, secs, i), false, dst, 0);
        err := 0;
      }
    }

    /** The BTF of a global symbol, and the output section it points to. */
    method FindDst(obj: SrcObj, i: nat, own: Option<nat>) returns (err: int, dst: Option<nat>)
      requires SrcOk(obj, |secs|) && 1 <= i < |obj.syms| && Placeable(obj, secs, i) && obj.syms[i].bind != Local
      requires own == if InSection(obj.syms[i]) then Some(obj.secs[obj.syms[i].shndx].dst_id) else None
      ensures err == if HitOf(obj, i).NoHit? then HitOf(obj, i).err
                     else if NamesSec(obj, i) && NamedSec(obj, i) == |obj.secs| then -ENOENT else 0
      ensures err == 0 ==> dst == DstSecOf(obj, secs, i)
    {
      if obj.btf == None { return -EINVAL, own; }
      var btf := obj.btf.value;
      var h := FindGlobSymBtf(btf, obj.syms[i].name);
      if h.NoHit? { return h.err, own; }
      if IsExtern(obj.syms[i]) && h.sec != 0 {
        HitInside(btf, obj.syms[i].name);
        if btf[h.sec].name != ".extern" {
          if |obj.secs| == 0 { return -ENOENT, own; }
          var k := FindSrcSec(obj.secs, btf[h.sec].name);
          if k == |obj.secs| { return -ENOENT, own; }
          return 0, Some(obj.secs[k].dst_id);
        }
      }
      return 0, own;
    }

    /** A global symbol that is linked: into the entry of its name, or as a new one. */
    method AppendGlobal(obj: SrcObj, i: nat, dst: Option<nat>) returns (err: int)
      requires Valid() && SrcOk(obj, |secs|) && 1 <= i < |obj.syms| && obj.syms[i].bind != Local
      requires Placeable(obj, secs, i) && !PassedOver(obj, secs, i) && dst == DstSecOf(obj, secs, i)
      modifies this, obj.sym_map
      ensures |secs| == |old(secs)| && (err == 0 ==> Valid())
      ensures forall x :: 0 <= x < obj.sym_map.Length && x != i ==> obj.sym_map[x] == old(obj.sym_map[x])
      ensures err == if obj.syms[i].name in old(hist) && Refused(obj, old(State()), i) then -EINVAL else 0
      ensures err == 0 ==> State() == Next(obj, old(State()), i)
      ensures err == 0 ==> LinkedTo(symtab, glob_syms, obj.syms[i].name, obj.sym_map[i])
      ensures Extends(old(symtab), old(glob_syms), symtab, glob_syms)
    {
      hide Resolved, Conflicts, Extends, FindBtf, SecNamed, Tables;
      var k := FindGlobSym(obj.syms[i].name);
      KnownNames(symtab, glob_syms, hist, obj.syms[i].name);
      if k < |glob_syms| {
        err := AppendKnown(obj, i, k, if dst == None then 0 else dst.value);
      } else {
        AppendNew(obj, i, dst);
        err := 0;
      }
    }

    /** The name has an entry. */
    method AppendKnown(obj: SrcObj, i: nat, k: nat, sec_id: nat) returns (err: int)
      requires Valid() && SrcOk(obj, |secs|) && 1 <= i < |obj.syms| && obj.syms[i].bind != Local
      requires Placeable(obj, secs, i) && !PassedOver(obj, secs, i)
      requires k < |glob_syms| && glob_syms[k].name == obj.syms[i].name && obj.syms[i].name in hist
      modifies this, obj.sym_map
      ensures |secs| == |old(secs)| && (err == 0 ==> Valid())
      ensures forall x :: 0 <= x < obj.sym_map.Length && x != i ==> obj.sym_map[x] == old(obj.sym_map[x])
      ensures err == if Refused(obj, old(State()), i) then -EINVAL else 0
      ensures err == 0 ==> State() == Next(obj, old(State()), i)
      ensures err == 0 ==> LinkedTo(symtab, glob_syms, obj.syms[i].name, obj.sym_map[i])
      ensures Extends(old(symtab), old(glob_syms), symtab, glob_syms)
    {
      hide Resolved, Conflicts, FindBtf, SecNamed, Wins;
      assert GlobAt(symtab, glob_syms, hist, k);
      obj.sym_map[i] := glob_syms[k].sym_idx;
      err := ResolveKnown(k, OccOf(Image(obj, secs, i), IsExtern(obj.syms[i])), sec_id, obj.infos[i]);
      if err == 0 { GlobNamed(symtab, glob_syms, hist, k); }
    }

    /** The name has none. */
    method AppendNew(obj: SrcObj, i: nat, dst: Option<nat>)
      requires Valid() && SrcOk(obj, |secs|) && 1 <= i < |obj.syms| && obj.syms[i].bind != Local
      requires Placeable(obj, secs, i) && !PassedOver(obj, secs, i) && dst == DstSecOf(obj, secs, i)
      requires !HasGlob(glob_syms, obj.syms[i].name) && obj.syms[i].name !in hist
      modifies this, obj.sym_map
      ensures |secs| == |old(secs)| && Valid()
      ensures forall x :: 0 <= x < obj.sym_map.Length && x != i ==> obj.sym_map[x] == old(obj.sym_map[x])
      ensures State() == Next(obj, old(State()), i)
      ensures LinkedTo(symtab, glob_syms, obj.syms[i].name, obj.sym_map[i])
      ensures Extends(old(symtab), old(glob_syms), symtab, glob_syms)
    {
      hide Tables, Extends, FindBtf, SecNamed;
      var s, p := obj.syms[i], NewImage(obj, secs, i);
      obj.sym_map[i] := AddSym(p, IsExtern(s), dst, if dst == None then 0 else dst.value);
      assert glob_syms[|glob_syms| - 1].name == s.name;
      FromNothing([OccOf(p, IsExtern(s))]);
    }

    /** `linker_append_elf_syms`: afterwards every global symbol of the file maps to the one entry of its name. */
    method AppendSyms(obj: SrcObj) returns (err: int)
      requires Valid() && SrcOk(obj, |secs|)
      modifies this, obj.sym_map
      ensures |secs| == |old(secs)| && (err == 0 ==> Valid()) && Extends(old(symtab), old(glob_syms), symtab, glob_syms)
      ensures err == After(obj, old(State()), |obj.syms|).err
      ensures err == 0 ==> State() == After(obj, old(State()), |obj.syms|).w
      ensures err == 0 ==> MapsToGlobals(symtab, glob_syms, obj, |obj.syms|, obj.sym_map[..])
      ensures err == 0 ==> MapsToLocals(symtab, glob_syms, obj, secs, |obj.syms|, obj.sym_map[..]) && SameIdx(old(secs), secs)
    {
      hide Tables, Verdict, Next, Placeable, Extends, After, SecSymsOk, LocalMaps;
      err := 0;
      ghost var w := State();
      SelfExtends(symtab, glob_syms);
      AfterStart(obj, w);
      if |obj.syms| == 0 { return; }
      for i := 1 to |obj.syms|
        invariant Valid() && |secs| == |old(secs)| && SrcOk(obj, |secs|) && Extends(old(symtab), old(glob_syms), symtab, glob_syms)
        invariant After(obj, w, i) == Progress(State(), 0) && err == 0
        invariant MapsToGlobals(symtab, glob_syms, obj, i, obj.sym_map[..])
        invariant MapsToLocals(symtab, glob_syms, obj, secs, i, obj.sym_map[..]) && SameIdx(old(secs), secs)
      {
        AllPlaceable(obj, secs, i);
        AfterNext(obj, w, i);
        ghost var t, gs, m, was := symtab, glob_syms, obj.sym_map[..], State();
        err := AppendSym(obj, i);
        ExtendsTrans(old(symtab), old(glob_syms), t, gs, symtab, glob_syms);
        if err != 0 {
          AfterFails(obj, w, i + 1, |obj.syms|);
          return;
        }
        MapsStay(t, gs, symtab, glob_syms, obj, i, m, obj.sym_map[..]);
        NextSameIdx(obj, was, i);
        LocalsStay(t, gs, was.secs, symtab, glob_syms, secs, obj, i, m, obj.sym_map[..]);
      }
    }

    /** `add_dst_sec` for the sections a file needs that are new. */
    method AddSecs(new_secs: seq<nat>)
      requires Valid()
      modifies this
      ensures Valid() && State() == Opened(old(State()), new_secs) && symtab == old(symtab) && glob_syms == old(glob_syms)
      ensures SameIdx(old(secs), secs)
    {
      assert |symtab| > 0;
      hide Tables, SecSymAt;
      secs := secs + seq(|new_secs|, k requires 0 <= k < |new_secs| => SecSym(new_secs[k], 0));
    }

    /** `bpf_linker__add_file` for one file after the other, as far as symbols go. */
    method LinkAll(fs: seq<Input>) returns (err: int)
      requires Valid() && FilesOk(fs, |secs|)
      modifies this, set k | 0 <= k < |fs| :: fs[k].obj.sym_map
      ensures err == AfterFiles(fs, old(State()), |fs|).err
      ensures err == 0 ==> Valid() && State() == AfterFiles(fs, old(State()), |fs|).w
      ensures err == 0 ==> forall k :: 0 <= k < |fs| ==>
                MapsToGlobals(symtab, glob_syms, fs[k].obj, |fs[k].obj.syms|, fs[k].obj.sym_map[..])
      ensures err == 0 ==> forall k :: 0 <= k < |fs| ==>
                MapsToLocals(symtab, glob_syms, fs[k].obj, secs, |fs[k].obj.syms|, fs[k].obj.sym_map[..])
    {
      hide Tables, After, MapsToGlobals, MapsToLocals, SrcOk, Extends, SecSymsOk, SameIdx;
      err := 0;
      ghost var w := State();
      for k := 0 to |fs|
        invariant Valid() && err == 0 && AfterFiles(fs, w, k) == Progress(State(), 0)
        invariant forall j :: 0 <= j < k ==> MapsToGlobals(symtab, glob_syms, fs[j].obj, |fs[j].obj.syms|, fs[j].obj.sym_map[..])
        invariant forall j :: 0 <= j < k ==> MapsToLocals(symtab, glob_syms, fs[j].obj, secs, |fs[j].obj.syms|, fs[j].obj.sym_map[..])
      {
        ghost var t, gs, was := symtab, glob_syms, secs;
        label Before:
        assert SrcOk(fs[k].obj, NrSecs(fs, |w.secs|, k + 1));
        AddSecs(fs[k].new_secs);
        ghost var now := secs;
        err := AppendSyms(fs[k].obj);
        if err != 0 {
          FilesFail(fs, w, k + 1, |fs|);
          return;
        }
        forall j | 0 <= j < k ensures MapsToGlobals(symtab, glob_syms, fs[j].obj, |fs[j].obj.syms|, fs[j].obj.sym_map[..]) {
          MapsStay(t, gs, symtab, glob_syms, fs[j].obj, |fs[j].obj.syms|, old@Before(fs[j].obj.sym_map[..]), fs[j].obj.sym_map[..]);
        }
        SameIdxTrans(was, now, secs);
        forall j | 0 <= j < k ensures MapsToLocals(symtab, glob_syms, fs[j].obj, secs, |fs[j].obj.syms|, fs[j].obj.sym_map[..]) {
          StillOk(fs, |w.secs|, j, k);
          LocalsStay(t, gs, was, symtab, glob_syms, secs, fs[j].obj, |fs[j].obj.syms|, old@Before(fs[j].obj.sym_map[..]), fs[j].obj.sym_map[..]);
        }
      }
    }
  }

  lemma {:induction false} NewExtends(t: seq<Sym>, gs: seq<GlobSym>, hist: map<string, seq<Occ>>, s: Sym, ext: bool, sec_id: nat)
    requires Tables(t, gs, hist)
    ensures Extends(t, gs, t + [s], gs) && (s.bind != Local ==> Extends(t, gs, t + [s], gs + [GlobSym(|t|, sec_id, s.name, ext, s.bind == Weak)]))
  {
    hide Resolved;
  }

  lemma {:induction false} NotGlobYet(t: seq<Sym>, gs: seq<GlobSym>, hist: map<string, seq<Occ>>)
    requires Tables(t, gs, hist)
    ensures !IsGlobIdx(gs, |t|)
  {
    hide Resolved;
    forall k | 0 <= k < |gs| ensures gs[k].sym_idx != |t| { assert GlobAt(t, gs, hist, k); }
  }

  lemma {:induction false} NewSecSym(t: seq<Sym>, gs: seq<GlobSym>, secs: seq<SecSym>, d: nat, x: nat)
    requires SecSymsOk(t, gs, secs) && d < |secs| && x < |t| && t[x].typ == Section && t[x].shndx == secs[d].sec_idx && t[x].value == 0
    requires t[x].bind == Local || IsGlobIdx(gs, x)
    ensures SecSymsOk(t, gs, secs[d := secs[d].(sec_sym_idx := x)])
  {
  }

  lemma {:induction false} KnownNames(t: seq<Sym>, gs: seq<GlobSym>, hist: map<string, seq<Occ>>, name: string)
    requires Tables(t, gs, hist)
    ensures name in hist <==> HasGlob(gs, name)
  {
    hide Resolved;
  }

  lemma {:induction false} GlobNamed(t: seq<Sym>, gs: seq<GlobSym>, hist: map<string, seq<Occ>>, k: nat)
    requires Tables(t, gs, hist) && k < |gs|
    ensures LinkedTo(t, gs, gs[k].name, gs[k].sym_idx)
  {
    assert GlobAt(t, gs, hist, k);
  }

  lemma {:induction false} SelfExtends(t: seq<Sym>, gs: seq<GlobSym>)
    ensures Extends(t, gs, t, gs)
  {
  }

  lemma {:induction false} HitInside(btf: seq<BtfItem>, name: string)
    requires |btf| >= 1
    ensures FindBtf(btf, name).Hit? ==> FindBtf(btf, name).sec < |btf|
  {
  }

  lemma {:induction false} AllPlaceable(obj: SrcObj, secs: seq<SecSym>, i: nat)
    requires SrcOk(obj, |secs|) && 1 <= i < |obj.syms|
    ensures Placeable(obj, secs, i)
  {
    hide FindBtf, SecNamed;
    assert SymOk(obj.syms[i], |obj.secs|);
  }

  /** What is known after some symbols of a file, or the first error. */
  datatype Progress = Progress(w: Known, err: int)

  /** The symbols of a file before the `n`th, each taken in by `Next` unless its `Verdict` is an error. */
  ghost function After(obj: SrcObj, w: Known, n: nat): (a: Progress)
    requires SrcOk(obj, |w.secs|) && n <= |obj.syms|
    ensures |a.w.secs| == |w.secs|
  {
    if n <= 1 then Progress(w, 0)
    else
      var a := After(obj, w, n - 1);
      AllPlaceable(obj, a.w.secs, n - 1);
      if a.err != 0 then a
      else if Verdict(obj, a.w, n - 1) != 0 then Progress(a.w, Verdict(obj, a.w, n - 1))
      else Progress(Next(obj, a.w, n - 1), 0)
  }

  lemma {:induction false} AfterStart(obj: SrcObj, w: Known)
    requires SrcOk(obj, |w.secs|)
    ensures After(obj, w, 0) == Progress(w, 0) && (|obj.syms| > 0 ==> After(obj, w, 1) == Progress(w, 0))
  {
  }

  lemma {:induction false} AfterNext(obj: SrcObj, w: Known, i: nat)
    requires SrcOk(obj, |w.secs|) && 1 <= i < |obj.syms| && After(obj, w, i).err == 0
    ensures var a := After(obj, w, i);
            && Placeable(obj, a.w.secs, i)
            && var v := Verdict(obj, a.w, i);
               After(obj, w, i + 1) == if v != 0 then Progress(a.w, v) else Progress(Next(obj, a.w, i), 0)
  {
    hide Verdict, Next, SrcOk, Placeable;
    AllPlaceable(obj, After(obj, w, i).w.secs, i);
  }

  /** The first error is the file's. */
  lemma {:induction false} AfterFails(obj: SrcObj, w: Known, m: nat, n: nat)
    requires SrcOk(obj, |w.secs|) && m <= n <= |obj.syms| && After(obj, w, m).err != 0
    ensures After(obj, w, n) == After(obj, w, m)
    decreases n
  {
    hide Verdict, Next, SrcOk, Placeable;
    if m < n { AfterFails(obj, w, m, n - 1); }
  }

  /** Every global symbol of a file before the `n`th maps to the one entry of its name, if its section is not skipped. */
  ghost predicate MapsToGlobals(t: seq<Sym>, gs: seq<GlobSym>, obj: SrcObj, n: nat, sym_map: seq<nat>) {
    && n <= |obj.syms| < |sym_map|
    && forall i :: 1 <= i < n && obj.syms[i].bind != Local && !SecSkipped(obj, i) ==> LinkedTo(t, gs, obj.syms[i].name, sym_map[i])
  }

  /** Every local symbol of a file before the `n`th maps to a symbol of its own where it went; a section symbol maps to
      the symbol of the output section its section went to. */
  ghost predicate MapsToLocals(t: seq<Sym>, gs: seq<GlobSym>, obj: SrcObj, secs: seq<SecSym>, n: nat, sym_map: seq<nat>) {
    && n <= |obj.syms| < |sym_map|
    && forall i {:trigger obj.syms[i]} :: 1 <= i < n ==> LocalMaps(t, gs, obj, secs, i, sym_map[i])
  }

  ghost predicate LocalMaps(t: seq<Sym>, gs: seq<GlobSym>, obj: SrcObj, secs: seq<SecSym>, i: nat, x: nat)
    requires i < |obj.syms|
  {
    && (obj.syms[i].bind == Local && !SecSkipped(obj, i) ==> x < |t| && !IsGlobIdx(gs, x) && LocalAs(t[x], obj, secs, i))
    && (obj.syms[i].typ == Section && Placed(obj, secs, i) && obj.syms[i].bind == Local ==>
          SecSymAt(t, gs, x, secs[obj.secs[obj.syms[i].shndx].dst_id].sec_idx))
  }

  /** The ELF indexes of output sections stay. */
  predicate SameIdx(a: seq<SecSym>, b: seq<SecSym>) {
    |a| <= |b| && forall d {:trigger b[d]} :: 0 <= d < |a| ==> b[d].sec_idx == a[d].sec_idx
  }

  lemma {:induction false} LocalStays(t: seq<Sym>, gs: seq<GlobSym>, secs: seq<SecSym>, t2: seq<Sym>, gs2: seq<GlobSym>, secs2: seq<SecSym>,
                                      obj: SrcObj, i: nat, x: nat)
    requires i < |obj.syms| && LocalMaps(t, gs, obj, secs, i, x) && Extends(t, gs, t2, gs2) && SameIdx(secs, secs2)
    requires Placed(obj, secs2, i) ==> Placed(obj, secs, i)
    ensures LocalMaps(t2, gs2, obj, secs2, i, x)
  {
    LinksStay(t, gs, t2, gs2, "", x);
    if obj.syms[i].typ == Section && Placed(obj, secs2, i) && obj.syms[i].bind == Local {
      SecSymStays(t, gs, t2, gs2, x, secs[obj.secs[obj.syms[i].shndx].dst_id].sec_idx);
    }
  }

  lemma {:induction false} LocalsStay(t: seq<Sym>, gs: seq<GlobSym>, secs: seq<SecSym>, t2: seq<Sym>, gs2: seq<GlobSym>, secs2: seq<SecSym>,
                                      obj: SrcObj, n: nat, m: seq<nat>, m2: seq<nat>)
    requires MapsToLocals(t, gs, obj, secs, n, m) && Extends(t, gs, t2, gs2) && SameIdx(secs, secs2) && |m2| == |m| && m2[..n] == m[..n]
    requires SrcOk(obj, |secs|)
    ensures MapsToLocals(t2, gs2, obj, secs2, n, m2)
  {
    hide Extends, LocalMaps, SameIdx;
    forall i | 1 <= i < n ensures LocalMaps(t2, gs2, obj, secs2, i, m2[i]) {
      assert m2[i] == m2[..n][i] == m[..n][i] == m[i];
      assert obj.syms[i] == obj.syms[i];
      LocalStays(t, gs, secs, t2, gs2, secs2, obj, i, m[i]);
    }
  }

  lemma {:induction false} NextSameIdx(obj: SrcObj, w: Known, i: nat)
    requires Placeable(obj, w.secs, i)
    ensures SameIdx(w.secs, Next(obj, w, i).secs)
  {
  }

  /** The symbol lies in a skipped section, or is a second symbol of a section. */
  predicate SecSkipped(obj: SrcObj, i: nat)
    requires i < |obj.syms|
  {
    InSection(obj.syms[i]) && ((obj.syms[i].shndx < |obj.secs| && obj.secs[obj.syms[i].shndx].skipped) || obj.syms[i].typ == Section)
  }

  lemma {:induction false} MapsStay(t: seq<Sym>, gs: seq<GlobSym>, t2: seq<Sym>, gs2: seq<GlobSym>, obj: SrcObj, n: nat, m: seq<nat>, m2: seq<nat>)
    requires MapsToGlobals(t, gs, obj, n, m) && Extends(t, gs, t2, gs2) && |m2| == |m| && m2[..n] == m[..n]
    ensures MapsToGlobals(t2, gs2, obj, n, m2)
  {
    hide Extends, LinkedTo;
    forall i | 1 <= i < n && obj.syms[i].bind != Local && !SecSkipped(obj, i) ensures LinkedTo(t2, gs2, obj.syms[i].name, m2[i]) {
      assert m2[i] == m2[..n][i] == m[..n][i] == m[i];
      LinksStay(t, gs, t2, gs2, obj.syms[i].name, m[i]);
    }
  }

  /** The occurrences of a name a file contributes. */
  ghost function FileOccs(obj: SrcObj, w: Known, n: nat, name: string): seq<Occ>
    requires SrcOk(obj, |w.secs|) && n <= |obj.syms|
  {
    if n <= 1 then []
    else
      var a := After(obj, w, n - 1);
      AllPlaceable(obj, a.w.secs, n - 1);
      FileOccs(obj, w, n - 1, name) +
        if obj.syms[n - 1].name == name && Contributes(obj, a.w, n - 1) then [Contribution(obj, a.w, n - 1)] else []
  }

  /** They are appended to the earlier ones. */
  lemma {:induction false} FileOccurrences(obj: SrcObj, w: Known, n: nat, name: string)
    requires SrcOk(obj, |w.secs|) && n <= |obj.syms| && After(obj, w, n).err == 0
    ensures Occs(After(obj, w, n).w.hist, name) == Occs(w.hist, name) + FileOccs(obj, w, n, name)
    decreases n
  {
    hide Verdict, SrcOk, Placeable, Contribution;
    if n > 1 {
      var a := After(obj, w, n - 1);
      AllPlaceable(obj, a.w.secs, n - 1);
      assert a.err == 0;
      FileOccurrences(obj, w, n - 1, name);
      NextOccs(obj, a.w, n - 1, name);
    }
  }

  lemma {:induction false} NextOccs(obj: SrcObj, w: Known, i: nat, name: string)
    requires Placeable(obj, w.secs, i)
    ensures Occs(Next(obj, w, i).hist, name) ==
            Occs(w.hist, name) + if obj.syms[i].name == name && Contributes(obj, w, i) then [Contribution(obj, w, i)] else []
  {
    hide Contribution;
  }

  /** A file, and the ELF indexes of the output sections that were added for it. */
  datatype Input = Input(obj: SrcObj, new_secs: seq<nat>)

  function Opened(w: Known, new_secs: seq<nat>): (w2: Known)
    ensures |w2.secs| == |w.secs| + |new_secs|
  {
    w.(secs := w.secs + seq(|new_secs|, k requires 0 <= k < |new_secs| => SecSym(new_secs[k], 0)))
  }

  function NrSecs(fs: seq<Input>, n: nat, k: nat): nat
    requires k <= |fs|
  {
    if k == 0 then n else NrSecs(fs, n, k - 1) + |fs[k - 1].new_secs|
  }

  ghost predicate FilesOk(fs: seq<Input>, n: nat) {
    && (forall k {:trigger fs[k]} :: 0 <= k < |fs| ==> SrcOk(fs[k].obj, NrSecs(fs, n, k + 1)))
    && forall i, j :: 0 <= i < j < |fs| ==> fs[i].obj.sym_map != fs[j].obj.sym_map
  }

  ghost function AfterFiles(fs: seq<Input>, w: Known, k: nat): (a: Progress)
    requires FilesOk(fs, |w.secs|) && k <= |fs|
    ensures a.err == 0 ==> |a.w.secs| == NrSecs(fs, |w.secs|, k)
  {
    if k == 0 then Progress(w, 0)
    else
      var a := AfterFiles(fs, w, k - 1);
      if a.err != 0 then a
      else
        assert SrcOk(fs[k - 1].obj, NrSecs(fs, |w.secs|, k - 1 + 1));
        After(fs[k - 1].obj, Opened(a.w, fs[k - 1].new_secs), |fs[k - 1].obj.syms|)
  }

  lemma {:induction false} FilesFail(fs: seq<Input>, w: Known, m: nat, n: nat)
    requires FilesOk(fs, |w.secs|) && m <= n <= |fs| && AfterFiles(fs, w, m).err != 0
    ensures AfterFiles(fs, w, n) == AfterFiles(fs, w, m)
    decreases n
  {
    hide After, FilesOk;
    if m < n { FilesFail(fs, w, m, n - 1); }
  }

  /** The occurrences of a name in the files, one after the other. */
  ghost function FilesOccs(fs: seq<Input>, w: Known, k: nat, name: string): seq<Occ>
    requires FilesOk(fs, |w.secs|) && k <= |fs|
  {
    if k == 0 || AfterFiles(fs, w, k - 1).err != 0 then []
    else
      assert SrcOk(fs[k - 1].obj, NrSecs(fs, |w.secs|, k - 1 + 1));
      FilesOccs(fs, w, k - 1, name) +
        FileOccs(fs[k - 1].obj, Opened(AfterFiles(fs, w, k - 1).w, fs[k - 1].new_secs), |fs[k - 1].obj.syms|, name)
  }

  lemma {:induction false} FilesOccurrences(fs: seq<Input>, w: Known, k: nat, name: string)
    requires FilesOk(fs, |w.secs|) && k <= |fs| && AfterFiles(fs, w, k).err == 0
    ensures Occs(AfterFiles(fs, w, k).w.hist, name) == Occs(w.hist, name) + FilesOccs(fs, w, k, name)
    decreases k
  {
    hide After, FileOccs, SrcOk;
    if k > 0 {
      var a, f := AfterFiles(fs, w, k - 1), fs[k - 1];
      assert a.err == 0;
      FilesOccurrences(fs, w, k - 1, name);
      assert SrcOk(f.obj, NrSecs(fs, |w.secs|, k - 1 + 1));
      FileOccurrences(f.obj, Opened(a.w, f.new_secs), |f.obj.syms|, name);
    }
  }

  lemma {:induction false} SameIdxTrans(a: seq<SecSym>, b: seq<SecSym>, c: seq<SecSym>)
    requires SameIdx(a, b) && SameIdx(b, c)
    ensures SameIdx(a, c)
  {
    forall d | 0 <= d < |a| ensures c[d].sec_idx == a[d].sec_idx { assert b[d].sec_idx == a[d].sec_idx; }
  }

  /** A file that was linked is still in order, with more output sections. */
  lemma {:induction false} StillOk(fs: seq<Input>, n: nat, j: nat, k: nat)
    requires FilesOk(fs, n) && j < k <= |fs|
    ensures SrcOk(fs[j].obj, NrSecs(fs, n, k))
  {
    assert SrcOk(fs[j].obj, NrSecs(fs, n, j + 1));
    MoreSecs(fs, n, j + 1, k);
  }

  lemma {:induction false} MoreSecs(fs: seq<Input>, n: nat, j: nat, k: nat)
    requires j <= k <= |fs|
    ensures NrSecs(fs, n, j) <= NrSecs(fs, n, k)
    decreases k
  {
    if j < k { MoreSecs(fs, n, j, k - 1); }
  }

  lemma {:induction false} AfterSameIdx(obj: SrcObj, w: Known, n: nat)
    requires SrcOk(obj, |w.secs|) && n <= |obj.syms|
    ensures SameIdx(w.secs, After(obj, w, n).w.secs)
    decreases n
  {
    hide Verdict, Next, SrcOk, SameIdx;
    if n <= 1 { assert SameIdx(w.secs, w.secs) by { SameIdxSelf(w.secs); } }
    else {
      AfterSameIdx(obj, w, n - 1);
      var a := After(obj, w, n - 1);
      AllPlaceable(obj, a.w.secs, n - 1);
      NextSameIdx(obj, a.w, n - 1);
      SameIdxTrans(w.secs, a.w.secs, Next(obj, a.w, n - 1).secs);
    }
  }

  lemma {:induction false} SameIdxSelf(a: seq<SecSym>)
    ensures SameIdx(a, a)
  {
  }

  /** What a symbol contributes comes from it. */
  lemma {:induction false} ContributionComes(obj: SrcObj, w: Known, i: nat, secs: seq<SecSym>)
    requires SrcOk(obj, |w.secs|) && 1 <= i < |obj.syms| && Placeable(obj, w.secs, i) && Contributes(obj, w, i) && SameIdx(w.secs, secs)
    ensures ComesFrom(Contribution(obj, w, i), obj, i, secs)
  {
    hide FindBtf, SecNamed;
  }

  /** The occurrences `hs` come from the symbols `xs` of the file, before the `n`th, in order; all symbols that count are among them. */
  ghost predicate FileOrigins(obj: SrcObj, n: nat, name: string, hs: seq<Occ>, xs: seq<nat>, secs: seq<SecSym>) {
    && |xs| == |hs| && (forall x :: 0 <= x < |xs| ==> FileOrigin(obj, n, name, hs[x], xs[x], secs))
    && (forall x, y :: 0 <= x < y < |xs| ==> xs[x] < xs[y])
    && (forall i {:trigger Counted(obj, name, i)} :: 1 <= i < n && Counted(obj, name, i) ==> i in xs)
  }

  /** A global symbol of that name, if its section is not skipped. */
  predicate Counted(obj: SrcObj, name: string, i: nat) {
    1 <= i < |obj.syms| && obj.syms[i].name == name && obj.syms[i].bind != Local && !SecSkipped(obj, i)
  }

  predicate FileOrigin(obj: SrcObj, n: nat, name: string, o: Occ, i: nat, secs: seq<SecSym>) {
    1 <= i < n && i < |obj.syms| && obj.syms[i].name == name && obj.syms[i].bind != Local && ComesFrom(o, obj, i, secs)
  }

  lemma {:induction false} OriginsOfFile(obj: SrcObj, w: Known, n: nat, name: string, secs: seq<SecSym>) returns (xs: seq<nat>)
    requires SrcOk(obj, |w.secs|) && n <= |obj.syms| && After(obj, w, n).err == 0
    requires SameIdx(After(obj, w, n).w.secs, secs)
    ensures FileOrigins(obj, n, name, FileOccs(obj, w, n, name), xs, secs)
    decreases n
  {
    hide Verdict, ComesFrom, Contribution, SameIdx, Next, FileOrigins, SrcOk, Placeable;
    xs := [];
    if n <= 1 { NoOrigins(obj, n, name, secs); }
    else {
      var a := After(obj, w, n - 1);
      AllPlaceable(obj, a.w.secs, n - 1);
      assert a.err == 0;
      NextSameIdx(obj, a.w, n - 1);
      SameIdxTrans(a.w.secs, Next(obj, a.w, n - 1).secs, secs);
      xs := OriginsOfFile(obj, w, n - 1, name, secs);
      xs := OneMoreOrigin(obj, a.w, n - 1, name, FileOccs(obj, w, n - 1, name), xs, secs);
    }
  }

  lemma {:induction false} NoOrigins(obj: SrcObj, n: nat, name: string, secs: seq<SecSym>)
    requires n <= 1
    ensures FileOrigins(obj, n, name, [], [], secs)
  {
  }

  lemma {:induction false} OneMoreOrigin(obj: SrcObj, w: Known, n: nat, name: string, hs: seq<Occ>, xs: seq<nat>, secs: seq<SecSym>)
    returns (ys: seq<nat>)
    requires SrcOk(obj, |w.secs|) && 1 <= n < |obj.syms| && Placeable(obj, w.secs, n) && SameIdx(w.secs, secs)
    requires FileOrigins(obj, n, name, hs, xs, secs)
    ensures FileOrigins(obj, n + 1, name,
                        hs + if obj.syms[n].name == name && Contributes(obj, w, n) then [Contribution(obj, w, n)] else [], ys, secs)
  {
    hide ComesFrom, Contribution, SameIdx;
    ys := xs;
    if obj.syms[n].name == name && Contributes(obj, w, n) {
      ContributionComes(obj, w, n, secs);
      ys := xs + [n];
      assert ys[|xs|] == n;
      OriginAppended(obj, n, name, hs, Contribution(obj, w, n), xs, secs);
    } else {
      assert hs + [] == hs;
      assert !Counted(obj, name, n);
    }
  }

  lemma {:induction false} OriginAppended(obj: SrcObj, n: nat, name: string, hs: seq<Occ>, o: Occ, xs: seq<nat>, secs: seq<SecSym>)
    requires FileOrigins(obj, n, name, hs, xs, secs) && FileOrigin(obj, n + 1, name, o, n, secs)
    ensures FileOrigins(obj, n + 1, name, hs + [o], xs + [n], secs)
  {
    hide ComesFrom;
    var ys, os := xs + [n], hs + [o];
    forall x | 0 <= x < |ys| ensures FileOrigin(obj, n + 1, name, os[x], ys[x], secs) {
      if x < |xs| { assert FileOrigin(obj, n, name, hs[x], xs[x], secs); }
    }
    forall i | 1 <= i < n + 1 && Counted(obj, name, i) ensures i in ys {
      if i == n { assert ys[|xs|] == i; } else { assert i in xs; }
    }
  }

  /** The occurrences `hs` of a name come from the symbols `src` of the files, in the order of the files and their
      symbols; all global symbols of that name, but those of skipped sections, are among them. */
  ghost predicate Origins(fs: seq<Input>, k: nat, name: string, hs: seq<Occ>, src: seq<(nat, nat)>, secs: seq<SecSym>) {
    && |src| == |hs| && (forall x :: 0 <= x < |src| ==> Origin(fs, k, name, hs[x], src[x], secs))
    && (forall x, y :: 0 <= x < y < |src| ==> src[x].0 < src[y].0 || (src[x].0 == src[y].0 && src[x].1 < src[y].1))
    && (forall f, i {:trigger Counted(fs[f].obj, name, i)} :: 0 <= f < k && f < |fs| && 0 <= i && Counted(fs[f].obj, name, i) ==> (f, i) in src)
  }

  ghost predicate HasOrigins(fs: seq<Input>, name: string, hs: seq<Occ>, secs: seq<SecSym>) {
    exists src :: Origins(fs, |fs|, name, hs, src, secs)
  }

  predicate Origin(fs: seq<Input>, k: nat, name: string, o: Occ, x: (nat, nat), secs: seq<SecSym>) {
    x.0 < k && x.0 < |fs| && FileOrigin(fs[x.0].obj, |fs[x.0].obj.syms|, name, o, x.1, secs)
  }

  lemma {:induction false} OriginsOfFiles(fs: seq<Input>, w: Known, k: nat, name: string, secs: seq<SecSym>) returns (src: seq<(nat, nat)>)
    requires FilesOk(fs, |w.secs|) && k <= |fs| && AfterFiles(fs, w, k).err == 0 && SameIdx(AfterFiles(fs, w, k).w.secs, secs)
    ensures Origins(fs, k, name, FilesOccs(fs, w, k, name), src, secs)
    decreases k
  {
    hide After, FileOccs, SrcOk, SameIdx, FileOrigin, FileOrigins;
    src := [];
    if k > 0 {
      var a, f := AfterFiles(fs, w, k - 1), fs[k - 1];
      assert a.err == 0 && SrcOk(f.obj, NrSecs(fs, |w.secs|, k - 1 + 1));
      var w2 := Opened(a.w, f.new_secs);
      AfterSameIdx(f.obj, w2, |f.obj.syms|);
      OpenedSameIdx(a.w, f.new_secs);
      SameIdxTrans(a.w.secs, w2.secs, After(f.obj, w2, |f.obj.syms|).w.secs);
      SameIdxTrans(a.w.secs, After(f.obj, w2, |f.obj.syms|).w.secs, secs);
      var before := OriginsOfFiles(fs, w, k - 1, name, secs);
      var xs := OriginsOfFile(f.obj, w2, |f.obj.syms|, name, secs);
      src := before + seq(|xs|, x requires 0 <= x < |xs| => (k - 1, xs[x]));
      JoinOrigins(fs, k, name, FilesOccs(fs, w, k - 1, name), before, FileOccs(f.obj, w2, |f.obj.syms|, name), xs, secs);
    }
  }

  lemma {:induction false} OpenedSameIdx(w: Known, new_secs: seq<nat>)
    ensures SameIdx(w.secs, Opened(w, new_secs).secs)
  {
  }

  lemma {:induction false} JoinOrigins(fs: seq<Input>, k: nat, name: string, hs: seq<Occ>, before: seq<(nat, nat)>,
                                       os: seq<Occ>, xs: seq<nat>, secs: seq<SecSym>)
    requires 0 < k <= |fs| && Origins(fs, k - 1, name, hs, before, secs)
    requires FileOrigins(fs[k - 1].obj, |fs[k - 1].obj.syms|, name, os, xs, secs)
    ensures Origins(fs, k, name, hs + os, before + seq(|xs|, x requires 0 <= x < |xs| => (k - 1, xs[x])), secs)
  {
    hide FileOrigin;
    var ys := seq(|xs|, x requires 0 <= x < |xs| => (k - 1, xs[x]));
    var src, all := before + ys, hs + os;
    forall x | 0 <= x < |src| ensures Origin(fs, k, name, all[x], src[x], secs) {
      if x < |before| {
        assert Origin(fs, k - 1, name, hs[x], before[x], secs);
      } else {
        assert src[x] == ys[x - |before|] && all[x] == os[x - |hs|];
      }
    }
    forall x, y | 0 <= x < y < |src| ensures src[x].0 < src[y].0 || (src[x].0 == src[y].0 && src[x].1 < src[y].1) {
      if x < |before| { assert src[x] == before[x] && Origin(fs, k - 1, name, hs[x], before[x], secs); }
      if y >= |before| { assert src[y] == ys[y - |before|]; }
    }
    forall f, i | 0 <= f < k && 0 <= i && Counted(fs[f].obj, name, i) ensures (f, i) in src {
      if f < k - 1 {
        assert (f, i) in before;
      } else {
        assert i in xs;
        var x :| 0 <= x < |xs| && xs[x] == i;
        assert ys[x] == (f, i);
      }
    }
  }

  /** Symbol `s` of the output shows the definition that symbol `i` of file `f` gives: it is where that symbol's section
      went, and of its size and type. */
  predicate ShowsDef(s: Sym, fs: seq<Input>, secs: seq<SecSym>, f: nat, i: nat) {
    && f < |fs| && 1 <= i < |fs[f].obj.syms|
    && var d := fs[f].obj.syms[i];
       && d.name == s.name && d.bind != Local && d.shndx != SHN_UNDEF && s.typ == d.typ && s.size == d.size
       && (d.typ != Section ==> WentTo(fs[f].obj, secs, i, s.shndx, s.value))
  }

  lemma {:induction false} DefinitionShown(fs: seq<Input>, name: string, hs: seq<Occ>, src: seq<(nat, nat)>, secs: seq<SecSym>, g: GlobSym, s: Sym)
    returns (f: nat, i: nat)
    requires Origins(fs, |fs|, name, hs, src, secs) && Resolved(hs, g, s) && g.name == name && !g.is_extern
    ensures ShowsDef(s, fs, secs, f, i)
  {
    var k: nat :| Kept(hs, k) && Shows(s, hs[k]);
    assert Origin(fs, |fs|, name, hs[k], src[k], secs);
    f, i := src[k].0, src[k].1;
  }

  const START := Known(map[], [SecSym(0, 0), SecSym(1, 0), SecSym(2, 0)], 1)

  /** Files linked one after the other into an empty output. If that succeeds, each name stands for what its occurrences
      in all the files resolve to, and every global symbol of every file maps to the entry of its name. */
  method LinkFiles(fs: seq<Input>) returns (l: Linker, err: int)
    requires FilesOk(fs, |START.secs|)
    modifies set k | 0 <= k < |fs| :: fs[k].obj.sym_map
    ensures fresh(l) && err == AfterFiles(fs, START, |fs|).err
    ensures err == 0 ==> forall name :: HasGlob(l.glob_syms, name) <==> name in l.hist
    ensures err == 0 ==> forall name :: name in l.hist ==> l.hist[name] == FilesOccs(fs, START, |fs|, name)
    ensures err == 0 ==> forall k {:trigger l.glob_syms[k]} :: 0 <= k < |l.glob_syms| ==>
              && l.glob_syms[k].sym_idx < |l.symtab|
              && Resolved(FilesOccs(fs, START, |fs|, l.glob_syms[k].name), l.glob_syms[k], l.symtab[l.glob_syms[k].sym_idx])
    ensures err == 0 ==> forall k :: 0 <= k < |fs| ==>
              MapsToGlobals(l.symtab, l.glob_syms, fs[k].obj, |fs[k].obj.syms|, fs[k].obj.sym_map[..])
    ensures err == 0 ==> forall k :: 0 <= k < |fs| ==>
              MapsToLocals(l.symtab, l.glob_syms, fs[k].obj, l.secs, |fs[k].obj.syms|, fs[k].obj.sym_map[..])
    ensures err == 0 ==> forall name :: HasOrigins(fs, name, FilesOccs(fs, START, |fs|, name), l.secs)
    ensures err == 0 ==> forall k {:trigger l.glob_syms[k]} :: 0 <= k < |l.glob_syms| && !l.glob_syms[k].is_extern ==>
              exists f, i :: ShowsDef(l.symtab[l.glob_syms[k].sym_idx], fs, l.secs, f, i)
  {
    hide Resolved, AfterFiles, FilesOccs, MapsToGlobals, MapsToLocals, After, Origins, ShowsDef;
    l := new Linker();
    err := l.LinkAll(fs);
    if err == 0 {
      forall name | name in l.hist ensures l.hist[name] == FilesOccs(fs, START, |fs|, name) {
        FilesOccurrences(fs, START, |fs|, name);
        FromNothing(FilesOccs(fs, START, |fs|, name));
      }
      forall k | 0 <= k < |l.glob_syms| ensures
          && l.glob_syms[k].sym_idx < |l.symtab|
          && Resolved(FilesOccs(fs, START, |fs|, l.glob_syms[k].name), l.glob_syms[k], l.symtab[l.glob_syms[k].sym_idx]) {
        assert GlobAt(l.symtab, l.glob_syms, l.hist, k);
      }
      SameIdxSelf(l.secs);
      forall name ensures HasOrigins(fs, name, FilesOccs(fs, START, |fs|, name), l.secs) {
        var src := OriginsOfFiles(fs, START, |fs|, name, l.secs);
      }
      forall k | 0 <= k < |l.glob_syms| && !l.glob_syms[k].is_extern
        ensures exists f, i :: ShowsDef(l.symtab[l.glob_syms[k].sym_idx], fs, l.secs, f, i) {
        var name := l.glob_syms[k].name;
        var src := OriginsOfFiles(fs, START, |fs|, name, l.secs);
        var f, i := DefinitionShown(fs, name, FilesOccs(fs, START, |fs|, name), src, l.secs, l.glob_syms[k], l.symtab[l.glob_syms[k].sym_idx]);
      }
    }
  }

  lemma {:induction false} FromNothing<T>(a: seq<T>)
    ensures [] + a == a
  {
  }

  function OccOf(s: Sym, ext: bool): Occ {
    Occ(ext, s.bind, s.vis, s.typ, s.shndx, s.value, s.size)
  }

  /** Whether an occurrence replaces what a known name stands for. */
  ghost predicate Wins(hs: seq<Occ>, o: Occ) {
    !o.is_extern && (!Defined(hs) || o.bind == Global)
  }

  /** The shape of a successful history: at most one strong definition; and none after a definition
      of a name some occurrence of which was global. */
  lemma {:induction false} AtMostOneStrong(hs: seq<Occ>, g: GlobSym, s: Sym, i: nat, j: nat)
    requires Resolved(hs, g, s) && i < |hs| && j < |hs| && StrongDef(hs[i]) && StrongDef(hs[j])
    ensures i == j && !g.is_extern && !g.is_weak && Shows(s, hs[i])
  {
    var k: nat :| Kept(hs, k) && Shows(s, hs[k]);
  }

  /** "If both are definitions, at least one has to be weak" is not all: a weak definition hardened by a strong
      extern conflicts with a strong definition, though no other definition is strong. */
  lemma {:induction false} HardenedWeakConflicts(d: Occ, e: Occ, o: Occ)
    requires !d.is_extern && d.bind == Weak && e.is_extern && e.bind == Global && StrongDef(o)
    ensures Conflicts([d, e], o) && !StrongDef(d) && !StrongDef(e) && !Conflicts([d], o)
  {
    assert ![d][0].is_extern && ![d, e][0].is_extern && [d, e][1].bind == Global;
  }
}
