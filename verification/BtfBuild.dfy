/** Building BTF type by type, writing it out and reading it in (btf.c). The type section is kept as words
    of the host, which is little-endian; offsets into it are counted in words. */
module BtfBuild {
  import opened Common
  import opened Bytes
  import opened BtfTypes
  import opened TypeSection
  import opened BtfBlob

  const ENOMEM := 12
  const E2BIG := 7
  const UINT_MAX := 0xffff_ffff
  const MAX_VLEN := 0xffff

  /** `btf_type_info`. */
  function TypeInfo(kind: nat, vlen: nat, kflag: bool): u32
    requires kind < 32 && vlen <= 0x1_0000
  {
    (if kflag then 0x8000_0000 else 0) + kind * 0x100_0000 + vlen
  }

  lemma {:induction false} InfoRound(kind: nat, vlen: nat, kflag: bool)
    requires kind < 32 && vlen <= 0x1_0000
    ensures var i := TypeInfo(kind, vlen, kflag);
            InfoKind(i) == kind && InfoVlen(i) == vlen % 0x1_0000 && InfoKflag(i) == kflag
  {
  }

  /** A record with one more element, of the words `ws`, counted in its header. */
  function Grown(t: Rec, ws: seq<u32>, kflag: bool): Rec {
    Rec(t.name, TypeInfo(Kind(t), Vlen(t) + 1, kflag), t.szt, t.rest + ws)
  }

  /** The size of one element of a kind that has a variable number of them. */
  function ElemLen(k: nat): nat {
    if k == KIND_STRUCT || k == KIND_UNION || k == KIND_DATASEC then 3 else if k == KIND_ENUM || k == KIND_FUNC_PROTO then 2 else 0
  }

  /** Adding an element keeps the record well-formed exactly if the count stays within 16 bits. */
  lemma {:induction false} GrownFits(t: Rec, ws: seq<u32>, kflag: bool)
    requires WF(t) && ElemLen(Kind(t)) > 0 && |ws| == ElemLen(Kind(t))
    ensures Kind(Grown(t, ws, kflag)) == Kind(t)
    ensures WF(Grown(t, ws, kflag)) <==> Vlen(t) < MAX_VLEN
    ensures Vlen(Grown(t, ws, kflag)) == if Vlen(t) < MAX_VLEN then Vlen(t) + 1 else 0
  {
    InfoRound(Kind(t), Vlen(t) + 1, kflag);
  }

  /** Replacing the header word of the last record and adding words to it. */
  lemma {:induction false} LaidGrow(d: seq<u32>, ts: seq<Rec>, u: Rec, ws: seq<u32>)
    requires |ts| >= 2 && Laid(d, ts) && SecOff(ts, |ts|) == |d|
    requires var t := ts[|ts| - 1]; u == Rec(t.name, u.info, t.szt, t.rest + ws)
    ensures SecOff(ts, |ts| - 1) + 3 <= |d|
    ensures var e := d[SecOff(ts, |ts| - 1) + 1 := u.info] + ws;
            var us := ts[|ts| - 1 := u];
            Laid(e, us) && SecOff(us, |us|) == |e| && forall i :: 1 <= i < |ts| ==> SecOff(us, i) == SecOff(ts, i)
  {
    hide At;
    var n := |ts| - 1;
    LaidHere(d, ts, n);
    var off := SecOff(ts, n);
    assert off + Len(ts[n]) == |d|;
    var e, us := d[off + 1 := u.info] + ws, ts[n := u];
    forall i | 1 <= i <= n ensures SecOff(us, i) == SecOff(ts, i) { SecOffSame(ts, us, i); }
    forall i | 0 < i < |us| ensures RecAt(e, us, i) {
      LaidHere(d, ts, i);
      if i < n {
        SecOffMonotone(ts, i, n);
        AtBefore(d, e, SecOff(ts, i), ts[i], off);
      } else {
        AtGrown(d, off, ts[n], u, ws);
      }
    }
  }

  lemma {:induction false} AtBefore(d: seq<u32>, e: seq<u32>, off: nat, t: Rec, hi: nat)
    requires At(d, off, t) && off + Len(t) <= hi <= |d| && hi <= |e| && forall w :: 0 <= w < hi ==> e[w] == d[w]
    ensures At(e, off, t)
  {
  }

  lemma {:induction false} AtGrown(d: seq<u32>, off: nat, t: Rec, u: Rec, ws: seq<u32>)
    requires At(d, off, t) && off + Len(t) == |d| && u == Rec(t.name, u.info, t.szt, t.rest + ws)
    ensures At(d[off + 1 := u.info] + ws, off, u)
  {
    var e := d[off + 1 := u.info] + ws;
    forall w | off <= w < off + Len(u) ensures e[w] == Word(u, w - off) {
      if w < off + Len(t) { assert d[w] == Word(t, w - off); }
    }
  }

  lemma {:induction false} SecOffSame(ts: seq<Rec>, us: seq<Rec>, i: nat)
    requires i < |ts| == |us| && forall j :: 0 <= j < i ==> us[j] == ts[j]
    ensures SecOff(us, i) == SecOff(ts, i)
    decreases i
  {
    if i > 1 { SecOffSame(ts, us, i - 1); }
  }

  /** A new record at the end. */
  lemma {:induction false} LaidNew(d: seq<u32>, ts: seq<Rec>, t: Rec)
    requires |ts| >= 1 && Laid(d, ts) && SecOff(ts, |ts|) == |d|
    ensures var e := d + [t.name, t.info, t.szt] + t.rest;
            Laid(e, ts + [t]) && SecOff(ts + [t], |ts| + 1) == |e| && forall i :: 1 <= i <= |ts| ==> SecOff(ts + [t], i) == SecOff(ts, i)
  {
    var e := d + [t.name, t.info, t.szt] + t.rest;
    var pad := d + seq(Len(t), i requires 0 <= i < Len(t) => Word(t, i));
    assert e == pad;
    forall i | 1 <= i <= |ts| ensures SecOff(ts + [t], i) == SecOff(ts, i) { SecOffAppend(ts, t, i); }
    forall i | 0 < i < |ts| + 1 ensures RecAt(e, ts + [t], i) {
      if i < |ts| {
        LaidHere(d, ts, i);
        SecOffMonotone(ts, i, |ts|);
      }
    }
  }

  /** A string lies at `off` of the string section. */
  ghost predicate StrAt(strs: seq<byte>, off: int, s: seq<byte>) {
    0 <= off && off + |s| < |strs| && strs[off..off + |s|] == s && strs[off + |s|] == 0
  }

  ghost predicate NamesOk(strs: seq<byte>, names: map<seq<byte>, int>) {
    forall s :: s in names ==> StrAt(strs, names[s], s) && 0 < names[s] <= BTF_MAX_STR_OFFSET
  }

  lemma {:induction false} StrStays(strs: seq<byte>, more: seq<byte>, off: int, s: seq<byte>)
    requires StrAt(strs, off, s)
    ensures StrAt(strs + more, off, s)
  {
    assert (strs + more)[off..off + |s|] == strs[off..off + |s|];
  }

  lemma {:induction false} StrNew(strs: seq<byte>, s: seq<byte>)
    ensures StrAt(strs + (s + [0]), |strs|, s)
  {
    var all := strs + (s + [0]);
    assert all[|strs|..|strs| + |s|] == s;
  }

  class Btf {
    var hdr: Hdr
    var words: seq<u32>
    var type_offs: seq<nat>
    var strs: seq<byte>
    var names: map<seq<byte>, int>
    var swapped_endian: bool
    ghost var types: seq<Rec>

    /** The index and the records agree with the type section. */
    ghost predicate Indexed()
      reads this
    {
      && Tiles(words, types) && StrsOk(strs) && |type_offs| == |types| - 1
      && forall i :: 1 <= i < |types| ==> type_offs[i - 1] == SecOff(types, i)
    }

    /** Built from empty: types right after the header, strings right after them. */
    ghost predicate Valid()
      reads this
    {
      && Indexed() && HdrMatches(hdr, words, strs) && NamesOk(strs, names)
      && |types| - 1 <= BTF_MAX_NR_TYPES
    }

    /** `btf__new_empty`. */
    constructor ()
      ensures Valid() && types == [VOID] && !swapped_endian && strs == [0] && names == map[]
    {
      hdr := Hdr(BTF_MAGIC, 1, 0, HDR_LEN, 0, 0, 0, 1);
      words, type_offs, strs, names, swapped_endian, types := [], [], [0], map[], false, [VOID];
    }

    /** The state of a BTF object read from raw data; `btf_ensure_modifiable` would index its strings. */
    constructor Loaded(h: Hdr, words: seq<u32>, type_offs: seq<nat>, strs: seq<byte>, swapped: bool, ghost types: seq<Rec>)
      requires Tiles(words, types) && StrsOk(strs) && |type_offs| == |types| - 1
      requires forall i :: 1 <= i < |types| ==> type_offs[i - 1] == SecOff(types, i)
      ensures Indexed() && this.types == types && this.strs == strs && this.swapped_endian == swapped && this.hdr == h && this.words == words
    {
      hdr, names := h, map[];
      this.words, this.type_offs, this.strs, swapped_endian, this.types := words, type_offs, strs, swapped, types;
    }

    /** A name is none, is known, or fits into the string section. */
    predicate StrFits(s: seq<byte>)
      reads this
    {
      s == [] || s in names || |strs| + |s| + 1 <= BTF_MAX_STR_OFFSET
    }

    /** There is room for a type with `n` words after its base, and for its name. */
    predicate Room(n: nat, name: seq<byte>)
      reads this
    {
      Fits(3 + n) && StrFits(name) && |type_offs| < BTF_MAX_NR_TYPES
    }

    /** The last type has as many elements as its count can say. */
    predicate Full()
      requires Indexed()
      reads this
    {
      |type_offs| > 0 && InfoVlen(LastInfo()) == MAX_VLEN
    }

    /** `btf__add_str`: the offset of the string, new or known. The set of strings is kept as a map here. */
    method AddStr(s: seq<byte>) returns (off: int)
      requires Valid() && s != [] && forall i :: 0 <= i < |s| ==> s[i] != 0
      modifies this`strs, this`names, this`hdr
      ensures Valid() && old(strs) <= strs && hdr == old(hdr).(str_len := hdr.str_len)
      ensures if old(StrFits(s)) then 0 < off <= BTF_MAX_STR_OFFSET && StrAt(strs, off, s) else off == -ENOMEM
      ensures off == -ENOMEM || s in old(names) ==> strs == old(strs) && names == old(names)
      ensures s in old(names) ==> off == old(names)[s]
      ensures off > 0 ==> s in names && names[s] == off
    {
      if s in names { return names[s]; }
      if |strs| + |s| + 1 > BTF_MAX_STR_OFFSET { return -ENOMEM; }
      off := |strs|;
      StrNew(strs, s);
      forall n | n in names { StrStays(strs, s + [0], names[n], n); }
      strs := strs + (s + [0]);
      names := names[s := off];
      hdr := hdr.(str_len := |strs|);
    }

    /** `btf_add_type_mem`: whether `n` more words fit. */
    predicate Fits(n: nat)
      reads this
    {
      hdr.type_len + 4 * n <= UINT_MAX
    }

    /** `btf_commit_type`, with the words of the record. */
    method Commit(t: Rec) returns (id: int)
      requires Valid() && Fits(Len(t)) && WF(t) && KnownKind(Kind(t))
      modifies this`words, this`hdr, this`type_offs, this`types
      ensures Valid() && id == if |old(type_offs)| < BTF_MAX_NR_TYPES then |old(types)| else -ENOMEM
      ensures types == if id > 0 then old(types) + [t] else old(types)
    {
      if |type_offs| + 1 > BTF_MAX_NR_TYPES { return -ENOMEM; }
      LaidNew(words, types, t);
      type_offs := type_offs + [hdr.type_len / 4];
      words := words + [t.name, t.info, t.szt] + t.rest;
      hdr := hdr.(type_len := hdr.type_len + 4 * Len(t), str_off := hdr.str_off + 4 * Len(t));
      types := types + [t];
      id := |type_offs|;
    }

    /** What the `btf__add_*` functions share: memory, the name if there is one, and the record. */
    method NewType(name: seq<byte>, info: u32, szt: u32, rest: seq<u32>) returns (id: int)
      requires Valid() && WF(Rec(0, info, szt, rest)) && KnownKind(InfoKind(info)) && forall i :: 0 <= i < |name| ==> name[i] != 0
      modifies this
      ensures Valid() && old(strs) <= strs && swapped_endian == old(swapped_endian)
      ensures id == if old(Room(|rest|, name)) then |old(types)| else -ENOMEM
      ensures id <= 0 ==> types == old(types)
      ensures id > 0 ==> Added(old(types), id, name, info, szt, rest)
    {
      if !Fits(3 + |rest|) { return -ENOMEM; }
      var name_off := 0;
      if name != [] {
        name_off := AddStr(name);
        if name_off < 0 { return name_off; }
      }
      assert NamedBy(name, name_off);
      id := Commit(Rec(name_off, info, szt, rest));
    }

    /** The name word of a record: 0 for no name. */
    ghost predicate NamedBy(name: seq<byte>, name_off: u32)
      reads this
    {
      if name == [] then name_off == 0 else StrAt(strs, name_off, name)
    }

    /** `btf_last_type`. */
    function LastInfo(): u32
      requires Indexed() && |type_offs| > 0
      reads this
    {
      LaidHere(words, types, |types| - 1);
      words[type_offs[|type_offs| - 1] + 1]
    }

    /** The last record gets `ws` more words and a new header word; the words were asked for before. */
    method GrowLast(info: u32, ws: seq<u32>)
      requires Valid() && |type_offs| > 0 && hdr.type_len + 4 * |ws| <= UINT_MAX && KnownKind(InfoKind(info))
      modifies this`words, this`hdr, this`types
      ensures var t := old(types)[|old(types)| - 1];
              && types == old(types)[|old(types)| - 1 := Rec(t.name, info, t.szt, t.rest + ws)]
              && (Valid() <==> WF(types[|types| - 1]))
      ensures |words| == |old(words)| + |ws| && hdr.type_len == old(hdr.type_len) + 4 * |ws|
    {
      var off := type_offs[|type_offs| - 1];
      ghost var t := types[|types| - 1];
      ghost var u := Rec(t.name, info, t.szt, t.rest + ws);
      LaidGrow(words, types, u, ws);
      words := words[off + 1 := info] + ws;
      hdr := hdr.(type_len := hdr.type_len + 4 * |ws|, str_off := hdr.str_off + 4 * |ws|);
      types := types[|types| - 1 := u];
    }

    /** The last of the types `ts` has got one more element. */
    ghost predicate Elem(ts: seq<Rec>, ws: seq<u32>, kflag: bool)
      reads this
    {
      |ts| >= 2 && types == ts[|ts| - 1 := Grown(ts[|ts| - 1], ws, kflag)]
    }

    ghost predicate ElemNamed(ts: seq<Rec>, name: seq<byte>, ws: seq<u32>, kflag: bool)
      reads this
    {
      exists name_off: u32 :: NamedBy(name, name_off) && Elem(ts, [name_off] + ws, kflag)
    }

    /** A type was added: the id is its place. */
    ghost predicate Added(ts: seq<Rec>, id: int, name: seq<byte>, info: u32, szt: u32, rest: seq<u32>)
      reads this
    {
      id == |ts| && exists name_off: u32 :: NamedBy(name, name_off) && types == ts + [Rec(name_off, info, szt, rest)]
    }

    /** What `btf__add_field` and its like share: one more element of the last type, with a name word unless
        the kind has none. A 65536th element overflows the 16-bit count, and the object is no longer well-formed. */
    method AddElem(name: seq<byte>, has_name: bool, ws: seq<u32>, kflag: bool) returns (err: int)
      requires Valid() && |type_offs| > 0 && NoNul(name)
      requires 0 < ElemLen(InfoKind(LastInfo())) == |ws| + if has_name then 1 else 0
      requires has_name || name == []
      modifies this
      ensures old(strs) <= strs && swapped_endian == old(swapped_endian) && (Valid() <==> err != 0 || !old(Full()))
      ensures err == if old(Fits(ElemLen(InfoKind(LastInfo()))) && StrFits(name)) then 0 else -ENOMEM
      ensures err != 0 ==> types == old(types)
      ensures err == 0 ==> hdr.type_len == old(hdr.type_len + 4 * ElemLen(InfoKind(LastInfo())))
      ensures err == 0 ==> if has_name then ElemNamed(old(types), name, ws, kflag) else Elem(old(types), ws, kflag)
    {
      ghost var t := types[|types| - 1];
      LaidHere(words, types, |types| - 1);
      assert LastInfo() == Word(t, 1);
      var n := |ws| + if has_name then 1 else 0;
      if !Fits(n) { return -ENOMEM; }
      var name_off := 0;
      if name != [] {
        name_off := AddStr(name);
        if name_off < 0 { return name_off; }
      }
      assert NamedBy(name, name_off);
      CountElem(if has_name then [name_off] + ws else ws, kflag);
      err := 0;
    }

    /** The words of the element and the new count. */
    method CountElem(ws: seq<u32>, kflag: bool)
      requires Valid() && |type_offs| > 0 && Fits(|ws|) && 0 < ElemLen(InfoKind(LastInfo())) == |ws|
      modifies this`words, this`hdr, this`types
      ensures (Valid() <==> !old(Full())) && Elem(old(types), ws, kflag) && hdr.type_len == old(hdr.type_len) + 4 * |ws|
    {
      ghost var t := types[|types| - 1];
      LaidHere(words, types, |types| - 1);
      assert LastInfo() == Word(t, 1);
      GrownFits(t, ws, kflag);
      GrowLast(TypeInfo(InfoKind(LastInfo()), InfoVlen(LastInfo()) + 1, kflag), ws);
    }

    /** `validate_type_id`. */
    predicate IdOk(id: int) {
      0 <= id <= BTF_MAX_NR_TYPES
    }

    predicate NoNul(name: seq<byte>) {
      forall i :: 0 <= i < |name| ==> name[i] != 0
    }

    /** `btf__add_int`. */
    method AddInt(name: seq<byte>, byte_sz: nat, encoding: int) returns (id: int)
      requires Valid() && NoNul(name)
      modifies this
      ensures Valid() && swapped_endian == old(swapped_endian) && (id <= 0 ==> types == old(types))
      ensures id == -EINVAL || id == if old(Room(1, name)) then |old(types)| else -ENOMEM
      ensures name == [] || byte_sz !in {1, 2, 4, 8, 16} || !(0 <= encoding < 8) <==> id == -EINVAL
      ensures id > 0 ==> byte_sz <= 16 && 0 <= encoding < 8 &&
                         Added(old(types), id, name, TypeInfo(KIND_INT, 0, false), byte_sz, [encoding * 0x100_0000 + byte_sz * 8])
    {
      if name == [] { return -EINVAL; }
      if byte_sz !in {1, 2, 4, 8, 16} { return -EINVAL; }
      if !(0 <= encoding < 8) { return -EINVAL; }
      id := NewType(name, TypeInfo(KIND_INT, 0, false), byte_sz, [encoding * 0x100_0000 + byte_sz * 8]);
    }

    /** `btf__add_float`. */
    method AddFloat(name: seq<byte>, byte_sz: nat) returns (id: int)
      requires Valid() && NoNul(name)
      modifies this
      ensures Valid() && swapped_endian == old(swapped_endian) && (id <= 0 ==> types == old(types))
      ensures id == -EINVAL || id == if old(Room(0, name)) then |old(types)| else -ENOMEM
      ensures name == [] || byte_sz !in {2, 4, 8, 12, 16} <==> id == -EINVAL
      ensures id > 0 ==> byte_sz <= 16 && Added(old(types), id, name, TypeInfo(KIND_FLOAT, 0, false), byte_sz, [])
    {
      if name == [] || byte_sz !in {2, 4, 8, 12, 16} { return -EINVAL; }
      id := NewType(name, TypeInfo(KIND_FLOAT, 0, false), byte_sz, []);
    }

    /** `btf_add_ref_kind`. */
    method AddRefKind(kind: nat, name: seq<byte>, ref_type_id: int) returns (id: int)
      requires Valid() && NoNul(name) && (kind == KIND_FWD || SingleRefKind(kind))
      modifies this
      ensures Valid() && swapped_endian == old(swapped_endian) && (id <= 0 ==> types == old(types))
      ensures id == -EINVAL || id == if old(Room(0, name)) then |old(types)| else -ENOMEM
      ensures !IdOk(ref_type_id) <==> id == -EINVAL
      ensures id > 0 ==> IdOk(ref_type_id) && Added(old(types), id, name, TypeInfo(kind, 0, false), ref_type_id, [])
    {
      if !IdOk(ref_type_id) { return -EINVAL; }
      InfoRound(kind, 0, false);
      id := NewType(name, TypeInfo(kind, 0, false), ref_type_id, []);
    }

    /** `btf__add_ptr`, `btf__add_volatile`, `btf__add_const`, `btf__add_restrict`. */
    method AddUnnamedRef(kind: nat, ref_type_id: int) returns (id: int)
      requires Valid() && kind in {KIND_PTR, KIND_VOLATILE, KIND_CONST, KIND_RESTRICT}
      modifies this
      ensures Valid() && swapped_endian == old(swapped_endian) && (id <= 0 ==> types == old(types))
      ensures id == -EINVAL || id == if old(Room(0, [])) then |old(types)| else -ENOMEM
      ensures !IdOk(ref_type_id) <==> id == -EINVAL
      ensures id > 0 ==> IdOk(ref_type_id) && Added(old(types), id, [], TypeInfo(kind, 0, false), ref_type_id, [])
    {
      id := AddRefKind(kind, [], ref_type_id);
    }

    /** `btf__add_typedef` and `btf__add_type_tag`: only with a name. */
    method AddNamedRef(kind: nat, name: seq<byte>, ref_type_id: int) returns (id: int)
      requires Valid() && NoNul(name) && kind in {KIND_TYPEDEF, KIND_TYPE_TAG}
      modifies this
      ensures Valid() && swapped_endian == old(swapped_endian) && (id <= 0 ==> types == old(types))
      ensures id == -EINVAL || id == if old(Room(0, name)) then |old(types)| else -ENOMEM
      ensures name == [] || !IdOk(ref_type_id) <==> id == -EINVAL
      ensures id > 0 ==> IdOk(ref_type_id) && Added(old(types), id, name, TypeInfo(kind, 0, false), ref_type_id, [])
    {
      if name == [] { return -EINVAL; }
      id := AddRefKind(kind, name, ref_type_id);
    }

    /** `btf__add_func`: the linkage takes the place of the count. */
    method AddFunc(name: seq<byte>, linkage: int, proto_type_id: int) returns (id: int)
      requires Valid() && NoNul(name)
      modifies this
      ensures Valid() && swapped_endian == old(swapped_endian) && (id <= 0 ==> types == old(types))
      ensures id == -EINVAL || id == if old(Room(0, name)) then |old(types)| else -ENOMEM
      ensures name == [] || !(0 <= linkage <= 2) || !IdOk(proto_type_id) <==> id == -EINVAL
      ensures id > 0 ==> 0 <= linkage <= 2 && IdOk(proto_type_id) &&
                         Added(old(types), id, name, TypeInfo(KIND_FUNC, linkage, false), proto_type_id, [])
    {
      if name == [] || !(0 <= linkage <= 2) { return -EINVAL; }
      id := AddRefKind(KIND_FUNC, name, proto_type_id);
      if id > 0 { id := SetLastInfo(id, TypeInfo(KIND_FUNC, linkage, false), old(types), name); }
    }

    /** The header word of the type just added is overwritten. */
    method SetLastInfo(id: int, info: u32, ghost ts: seq<Rec>, ghost name: seq<byte>) returns (same: int)
      requires Valid() && (exists i, r {:trigger Added(ts, id, name, i, r, [])} :: Added(ts, id, name, i, r, [])) && |ts| >= 1
      requires RestLen(InfoKind(info), InfoVlen(info)) == 0 && KnownKind(InfoKind(info))
      modifies this`words, this`hdr, this`types
      ensures Valid() && same == id
      ensures forall i, r {:trigger old(Added(ts, id, name, i, r, []))} :: old(Added(ts, id, name, i, r, [])) ==> Added(ts, id, name, info, r, [])
    {
      ghost var t := types[|types| - 1];
      assert t.rest + [] == [];
      GrowLast(info, []);
      same := id;
    }

    /** `btf__add_fwd`, of a struct or a union; a forward enum is an enum without values. */
    method AddFwd(name: seq<byte>, fwd_kind: int) returns (id: int)
      requires Valid() && NoNul(name)
      modifies this
      ensures Valid() && swapped_endian == old(swapped_endian) && (id <= 0 ==> types == old(types))
      ensures id == -EINVAL || id == if old(Room(0, name)) then |old(types)| else -ENOMEM
      ensures name == [] || !(0 <= fwd_kind <= 2) <==> id == -EINVAL
      ensures id > 0 && fwd_kind <= 1 ==> Added(old(types), id, name, TypeInfo(KIND_FWD, 0, fwd_kind == 1), 0, [])
      ensures id > 0 && fwd_kind == 2 ==> Added(old(types), id, name, TypeInfo(KIND_ENUM, 0, false), 4, [])
    {
      if name == [] || !(0 <= fwd_kind <= 2) { return -EINVAL; }
      if fwd_kind == 2 {
        id := AddEnum(name, 4);
      } else {
        id := AddRefKind(KIND_FWD, name, 0);
        if id <= 0 { return; }
        InfoRound(KIND_FWD, 0, fwd_kind == 1);
        id := SetLastInfo(id, TypeInfo(KIND_FWD, 0, fwd_kind == 1), old(types), name);
      }
    }

    /** `btf__add_array`. */
    method AddArray(index_type_id: int, elem_type_id: int, nr_elems: u32) returns (id: int)
      requires Valid()
      modifies this
      ensures Valid() && swapped_endian == old(swapped_endian) && (id <= 0 ==> types == old(types))
      ensures id == -EINVAL || id == if old(Room(3, [])) then |old(types)| else -ENOMEM
      ensures !IdOk(index_type_id) || !IdOk(elem_type_id) <==> id == -EINVAL
      ensures id > 0 ==> IdOk(index_type_id) && IdOk(elem_type_id) &&
                         Added(old(types), id, [], TypeInfo(KIND_ARRAY, 0, false), 0, [elem_type_id, index_type_id, nr_elems])
    {
      if !IdOk(index_type_id) || !IdOk(elem_type_id) { return -EINVAL; }
      id := NewType([], TypeInfo(KIND_ARRAY, 0, false), 0, [elem_type_id, index_type_id, nr_elems]);
    }

    /** `btf__add_struct` and `btf__add_union`: without members at first. */
    method AddComposite(kind: nat, name: seq<byte>, bytes_sz: u32) returns (id: int)
      requires Valid() && NoNul(name) && kind in {KIND_STRUCT, KIND_UNION}
      modifies this
      ensures Valid() && swapped_endian == old(swapped_endian) && (id <= 0 ==> types == old(types))
      ensures id == if old(Room(0, name)) then |old(types)| else -ENOMEM
      ensures id > 0 ==> Added(old(types), id, name, TypeInfo(kind, 0, false), bytes_sz, [])
    {
      InfoRound(kind, 0, false);
      id := NewType(name, TypeInfo(kind, 0, false), bytes_sz, []);
    }

    /** `btf__add_enum`. */
    method AddEnum(name: seq<byte>, byte_sz: u32) returns (id: int)
      requires Valid() && NoNul(name)
      modifies this
      ensures Valid() && swapped_endian == old(swapped_endian) && (id <= 0 ==> types == old(types))
      ensures id == -EINVAL || id == if old(Room(0, name)) then |old(types)| else -ENOMEM
      ensures byte_sz !in {1, 2, 4, 8} <==> id == -EINVAL
      ensures id > 0 ==> Added(old(types), id, name, TypeInfo(KIND_ENUM, 0, false), byte_sz, [])
    {
      if byte_sz !in {1, 2, 4, 8} { return -EINVAL; }
      id := NewType(name, TypeInfo(KIND_ENUM, 0, false), byte_sz, []);
    }

    /** `btf__add_func_proto`. */
    method AddFuncProto(ret_type_id: int) returns (id: int)
      requires Valid()
      modifies this
      ensures Valid() && swapped_endian == old(swapped_endian) && (id <= 0 ==> types == old(types))
      ensures id == -EINVAL || id == if old(Room(0, [])) then |old(types)| else -ENOMEM
      ensures !IdOk(ret_type_id) <==> id == -EINVAL
      ensures id > 0 ==> IdOk(ret_type_id) && Added(old(types), id, [], TypeInfo(KIND_FUNC_PROTO, 0, false), ret_type_id, [])
    {
      if !IdOk(ret_type_id) { return -EINVAL; }
      id := NewType([], TypeInfo(KIND_FUNC_PROTO, 0, false), ret_type_id, []);
    }

    /** `btf__add_var`. */
    method AddVar(name: seq<byte>, linkage: int, type_id: int) returns (id: int)
      requires Valid() && NoNul(name)
      modifies this
      ensures Valid() && swapped_endian == old(swapped_endian) && (id <= 0 ==> types == old(types))
      ensures id == -EINVAL || id == if old(Room(1, name)) then |old(types)| else -ENOMEM
      ensures name == [] || !(0 <= linkage <= 2) || !IdOk(type_id) <==> id == -EINVAL
      ensures id > 0 ==> 0 <= linkage <= 2 && IdOk(type_id) && Added(old(types), id, name, TypeInfo(KIND_VAR, 0, false), type_id, [linkage])
    {
      if name == [] || !(0 <= linkage <= 2) || !IdOk(type_id) { return -EINVAL; }
      id := NewType(name, TypeInfo(KIND_VAR, 0, false), type_id, [linkage]);
    }

    /** `btf__add_datasec`. */
    method AddDatasec(name: seq<byte>, byte_sz: u32) returns (id: int)
      requires Valid() && NoNul(name)
      modifies this
      ensures Valid() && swapped_endian == old(swapped_endian) && (id <= 0 ==> types == old(types))
      ensures id == -EINVAL || id == if old(Room(0, name)) then |old(types)| else -ENOMEM
      ensures name == [] <==> id == -EINVAL
      ensures id > 0 ==> Added(old(types), id, name, TypeInfo(KIND_DATASEC, 0, false), byte_sz, [])
    {
      if name == [] { return -EINVAL; }
      id := NewType(name, TypeInfo(KIND_DATASEC, 0, false), byte_sz, []);
    }

    /** `btf__add_decl_tag`. */
    method AddDeclTag(value: seq<byte>, ref_type_id: int, component_idx: int) returns (id: int)
      requires Valid() && NoNul(value) && component_idx <= 0x7fff_ffff
      modifies this
      ensures Valid() && swapped_endian == old(swapped_endian) && (id <= 0 ==> types == old(types))
      ensures id == -EINVAL || id == if old(Room(1, value)) then |old(types)| else -ENOMEM
      ensures value == [] || component_idx < -1 || !IdOk(ref_type_id) <==> id == -EINVAL
      ensures id > 0 ==> IdOk(ref_type_id) &&
                         Added(old(types), id, value, TypeInfo(KIND_DECL_TAG, 0, false), ref_type_id, [component_idx % 0x1_0000_0000])
    {
      if value == [] || component_idx < -1 || !IdOk(ref_type_id) { return -EINVAL; }
      id := NewType(value, TypeInfo(KIND_DECL_TAG, 0, false), ref_type_id, [component_idx % 0x1_0000_0000]);
    }

    /** The kind of the last type, 0 when there is none. */
    function LastKind(): nat
      requires Indexed()
      reads this
    {
      if |type_offs| == 0 then 0 else InfoKind(LastInfo())
    }

    /** `btf__add_field`. */
    method AddField(name: seq<byte>, type_id: int, bit_offset: u32, bit_size: u32) returns (err: int)
      requires Valid() && NoNul(name)
      modifies this
      ensures (Valid() <==> err != 0 || !old(Full())) && swapped_endian == old(swapped_endian) && (err != 0 ==> types == old(types))
      ensures err == -EINVAL || err == if old(Fits(3) && StrFits(name)) then 0 else -ENOMEM
      ensures err == -EINVAL <==>
                old(LastKind()) !in {KIND_STRUCT, KIND_UNION} || !IdOk(type_id) || (old(LastKind()) == KIND_UNION && bit_offset != 0)
                || ((bit_size != 0 || bit_offset % 8 != 0) && (bit_size == 0 || bit_size > 255 || bit_offset > 0xff_ffff))
      ensures err == 0 ==> IdOk(type_id) && bit_size <= 255 && (bit_size != 0 ==> bit_offset <= 0xff_ffff) &&
                           ElemNamed(old(types), name, [type_id, bit_offset + bit_size * 0x100_0000],
                                     bit_size != 0 || bit_offset % 8 != 0 || InfoKflag(old(LastInfo())))
      ensures err == 0 ==> hdr.type_len == old(hdr.type_len) + 12
    {
      if LastKind() !in {KIND_STRUCT, KIND_UNION} { return -EINVAL; }
      if !IdOk(type_id) { return -EINVAL; }
      var is_bitfield := bit_size != 0 || bit_offset % 8 != 0;
      if is_bitfield && (bit_size == 0 || bit_size > 255 || bit_offset > 0xff_ffff) { return -EINVAL; }
      if LastKind() == KIND_UNION && bit_offset != 0 { return -EINVAL; }
      err := AddElem(name, true, [type_id, bit_offset + bit_size * 0x100_0000], is_bitfield || InfoKflag(LastInfo()));
    }

    /** `btf__add_enum_value`: values are 32 bits wide, signed or unsigned. */
    method AddEnumValue(name: seq<byte>, value: int) returns (err: int)
      requires Valid() && NoNul(name)
      modifies this
      ensures (Valid() <==> err != 0 || !old(Full())) && swapped_endian == old(swapped_endian) && (err != 0 ==> types == old(types))
      ensures err == (if old(LastKind()) != KIND_ENUM || name == [] then -EINVAL
                      else if !(-0x8000_0000 <= value <= UINT_MAX) then -E2BIG
                      else if old(Fits(2) && StrFits(name)) then 0 else -ENOMEM)
      ensures err == 0 ==> ElemNamed(old(types), name, [value % 0x1_0000_0000], InfoKflag(old(LastInfo())))
      ensures err == 0 ==> hdr.type_len == old(hdr.type_len) + 8
    {
      if LastKind() != KIND_ENUM || name == [] { return -EINVAL; }
      if !(-0x8000_0000 <= value <= UINT_MAX) { return -E2BIG; }
      err := AddElem(name, true, [value % 0x1_0000_0000], InfoKflag(LastInfo()));
    }

    /** `btf__add_func_param`. */
    method AddFuncParam(name: seq<byte>, type_id: int) returns (err: int)
      requires Valid() && NoNul(name)
      modifies this
      ensures (Valid() <==> err != 0 || !old(Full())) && swapped_endian == old(swapped_endian) && (err != 0 ==> types == old(types))
      ensures err == if old(LastKind()) != KIND_FUNC_PROTO || !IdOk(type_id) then -EINVAL else if old(Fits(2) && StrFits(name)) then 0 else -ENOMEM
      ensures err == 0 ==> IdOk(type_id) && ElemNamed(old(types), name, [type_id], InfoKflag(old(LastInfo())))
      ensures err == 0 ==> hdr.type_len == old(hdr.type_len) + 8
    {
      if !IdOk(type_id) || LastKind() != KIND_FUNC_PROTO { return -EINVAL; }
      err := AddElem(name, true, [type_id], InfoKflag(LastInfo()));
    }

    /** `btf__add_datasec_var_info`. */
    method AddDatasecVarInfo(var_type_id: int, offset: u32, byte_sz: u32) returns (err: int)
      requires Valid()
      modifies this
      ensures (Valid() <==> err != 0 || !old(Full())) && swapped_endian == old(swapped_endian) && (err != 0 ==> types == old(types))
      ensures err == if old(LastKind()) != KIND_DATASEC || !IdOk(var_type_id) then -EINVAL else if old(Fits(3) && StrFits([])) then 0 else -ENOMEM
      ensures err == 0 ==> IdOk(var_type_id) && Elem(old(types), [var_type_id, offset, byte_sz], InfoKflag(old(LastInfo())))
      ensures err == 0 ==> hdr.type_len == old(hdr.type_len) + 12
    {
      if LastKind() != KIND_DATASEC || !IdOk(var_type_id) { return -EINVAL; }
      err := AddElem([], false, [var_type_id, offset, byte_sz], InfoKflag(LastInfo()));
    }

    /** `btf_get_raw_data`, afresh: the type section is swapped record by record in the copy. */
    method RawData(swap: bool) returns (data: seq<byte>)
      requires Valid() && HDR_LEN + hdr.type_len + hdr.str_len < 0x1_0000_0000
      ensures data == Encode(hdr, words, strs, swap)
    {
      var p := new u32[|words|](i requires 0 <= i < |words| reads this => words[i]);
      hide Bswap32;
      if swap {
        for i := 0 to |type_offs|
          invariant forall w :: 0 <= w < |words| ==> p[w] == if w < SecOff(types, i + 1) then Bswap32(words[w]) else words[w]
        {
          LaidHere(words, types, i + 1);
          SwapType(p, type_offs[i], words, types[i + 1]);
        }
        assert p[..] == SwapAll(words);
        data := HdrBytes(SwapHdr(hdr)) + WordBytes(p[..]) + strs;
      } else {
        assert p[..] == words;
        data := HdrBytes(hdr) + WordBytes(p[..]) + strs;
      }
    }
  }

  /** A section of 65536 variables: every call succeeds, and after the last the type counts none of them. */
  method OverfullSection() returns (b: Btf)
    ensures fresh(b) && !b.Valid() && |b.types| == 2 && Kind(b.types[1]) == KIND_DATASEC
    ensures Vlen(b.types[1]) == 0 && |b.types[1].rest| == 3 * 0x1_0000
  {
    hide Btf.Elem;
    b := new Btf();
    var id := b.AddDatasec([1], 0);
    assert SecOff(b.types, 2) == SecOff(b.types, 1) + Len(b.types[1]) && Len(b.types[1]) == 3;
    InfoRound(KIND_DATASEC, 0, false);
    for i := 0 to MAX_VLEN
      invariant fresh(b) && b.Valid() && Counts(b, i)
    {
      AddOne(b, i);
    }
    AddOne(b, MAX_VLEN);
  }

  /** The object holds one DATASEC, with `n` entries. */
  ghost predicate Counts(b: Btf, n: nat)
    reads b
  {
    && |b.types| == 2 && b.hdr.type_len == 4 * (3 + 3 * n) && Kind(b.types[1]) == KIND_DATASEC
    && |b.types[1].rest| == 3 * n && Vlen(b.types[1]) == n % 0x1_0000
  }

  method AddOne(b: Btf, n: nat)
    requires b.Valid() && Counts(b, n) && n <= MAX_VLEN
    modifies b
    ensures Counts(b, n + 1) && (b.Valid() <==> n < MAX_VLEN)
  {
    ghost var t := b.types[1];
    LaidHere(b.words, b.types, 1);
    assert b.LastInfo() == Word(t, 1);
    var err := b.AddDatasecVarInfo(0, 0, 0);
    GrownFits(t, [0, 0, 0], InfoKflag(t.info));
  }

  /** The words from `lo` up to `hi` are byte-swapped, the others are as before. */
  ghost predicate SwappedIn(a: seq<u32>, b: seq<u32>, lo: nat, hi: nat) {
    |a| == |b| && forall w :: 0 <= w < |a| ==> b[w] == if lo <= w < hi then Bswap32(a[w]) else a[w]
  }

  /** `btf_bswap_type_rest` and then `btf_bswap_type_base`, on a record in native order. */
  method SwapType(p: array<u32>, off: nat, ghost ws: seq<u32>, ghost t: Rec)
    requires At(ws, off, t) && WF(t) && KnownKind(Kind(t)) && |ws| == p.Length
    requires forall w :: off <= w < |ws| ==> p[w] == ws[w]
    modifies p
    ensures SwappedIn(old(p[..]), p[..], off, off + Len(t))
  {
    hide Bswap32;
    assert ws[off + 1] == Word(t, 1) && p[off + 1] == ws[off + 1];
    var err := SwapRest(p, off);
    SwapBase(p, off);
  }

  /** `btf_bswap_type_base`. */
  method SwapBase(p: array<u32>, off: nat)
    requires off + 3 <= p.Length
    modifies p
    ensures SwappedIn(old(p[..]), p[..], off, off + 3)
  {
    hide Bswap32;
    p[off] := Bswap32(p[off]);
    p[off + 1] := Bswap32(p[off + 1]);
    p[off + 2] := Bswap32(p[off + 2]);
  }

  /** `btf_bswap_type_rest`: every word after the base, whatever the kind's records are made of. */
  method SwapRest(p: array<u32>, off: nat) returns (err: int)
    requires off + 3 <= p.Length
    requires off + 3 + RestLen(InfoKind(p[off + 1]), InfoVlen(p[off + 1])) <= p.Length
    modifies p
    ensures err == if KnownKind(InfoKind(old(p[off + 1]))) then 0 else -EINVAL
    ensures err == 0 ==> SwappedIn(old(p[..]), p[..], off + 3, off + 3 + RestLen(InfoKind(old(p[off + 1])), InfoVlen(old(p[off + 1]))))
    ensures err != 0 ==> p[..] == old(p[..])
  {
    hide Bswap32;
    var kind, vlen := InfoKind(p[off + 1]), InfoVlen(p[off + 1]);
    if !KnownKind(kind) { return -EINVAL; }
    var n := RestLen(kind, vlen);
    for j := 0 to n
      invariant SwappedIn(old(p[..]), p[..], off + 3, off + 3 + j)
    {
      p[off + 3 + j] := Bswap32(p[off + 3 + j]);
    }
    err := 0;
  }

  /** What walking from `off` adds to the records `ts` found so far. */
  function Continue(ts: seq<Rec>, rest: Option<seq<Rec>>): Option<seq<Rec>>
    requires |ts| >= 1
  {
    if rest == None then None else Some(ts[1..] + rest.value)
  }

  lemma {:induction false} ContinueStep(ts: seq<Rec>, t: Rec, rest: Option<seq<Rec>>)
    requires |ts| >= 1
    ensures Continue(ts, if rest == None then None else Some([t] + rest.value)) == Continue(ts + [t], rest)
  {
    assert (ts + [t])[1..] == ts[1..] + [t];
    if rest != None { AppendStep(ts[1..], t, rest.value); }
  }

  lemma {:induction false} ContinueFirst(rest: Option<seq<Rec>>)
    ensures Continue([VOID], rest) == rest
  {
    if rest != None { assert [VOID][1..] + rest.value == rest.value; }
  }

  /** The walk has come to `off`: the records before it, their offsets, and what the rest will add. */
  ghost predicate Walked(ws: seq<u32>, ts: seq<Rec>, offs: seq<nat>, off: nat) {
    && off <= |ws| && TiledTo(ws, ts, off)
    && |offs| == |ts| - 1 && (forall i :: 1 <= i < |ts| ==> offs[i - 1] == SecOff(ts, i))
    && ParseTypes(ws, 0) == Continue(ts, ParseTypes(ws, off))
  }

  lemma {:induction false} WalkedOn(ws: seq<u32>, ts: seq<Rec>, offs: seq<nat>, off: nat, t: Rec)
    requires Walked(ws, ts, offs, off) && At(ws, off, t) && WF(t) && KnownKind(Kind(t))
    ensures Walked(ws, ts + [t], offs + [off], off + Len(t))
  {
    ParseStep(ws, off, t);
    ContinueStep(ts, t, ParseTypes(ws, off + Len(t)));
    assert off + Len(t) <= |ws|;
    hide ParseTypes, At, Laid, Continue;
    TiledOn(ws, ts, off, t);
    forall i | 1 <= i <= |ts| ensures (offs + [off])[i - 1] == SecOff(ts + [t], i) { SecOffAppend(ts, t, i); }
    assert forall i :: 0 <= i < |ts| ==> (ts + [t])[i] == ts[i];
  }

  lemma {:induction false} WalkedStep(ws: seq<u32>, ts: seq<Rec>, offs: seq<nat>, off: nat, len: nat)
    requires Walked(ws, ts, offs, off) && off + 3 <= |ws| && KnownKind(InfoKind(ws[off + 1]))
    requires len == 3 + RestLen(InfoKind(ws[off + 1]), InfoVlen(ws[off + 1])) && off + len <= |ws|
    ensures Walked(ws, ts + [RecIn(ws, off, len)], offs + [off], off + len)
  {
    hide Walked;
    var t := RecIn(ws, off, len);
    assert At(ws, off, t) && WF(t) && KnownKind(Kind(t)) && Len(t) == len;
    WalkedOn(ws, ts, offs, off, t);
  }

  /** The walk ends well exactly at the end of the section. */
  lemma {:induction false} WalkedEnd(ws: seq<u32>, ts: seq<Rec>, offs: seq<nat>, off: nat)
    requires Walked(ws, ts, offs, off) && off + 3 > |ws|
    ensures off == |ws| ==> Tiles(ws, ts) && ParseTypes(ws, 0) == Some(ts[1..])
    ensures off != |ws| ==> ParseTypes(ws, 0) == None
  {
    if off == |ws| {
      ParseEnd(ws);
      assert ts[1..] + [] == ts[1..];
    }
  }

  lemma {:induction false} WalkedFails(ws: seq<u32>, ts: seq<Rec>, offs: seq<nat>, off: nat)
    requires Walked(ws, ts, offs, off) && off + 3 <= |ws|
    requires !KnownKind(InfoKind(ws[off + 1])) || off + 3 + RestLen(InfoKind(ws[off + 1]), InfoVlen(ws[off + 1])) > |ws|
    ensures ParseTypes(ws, 0) == None
  {
  }

  /** `btf_parse_type_sec`, in place on the words read, which are in the other byte order if `swapped`. */
  method ParseTypeSec(p: array<u32>, type_len: nat, swapped: bool) returns (err: int, offs: seq<nat>, ghost ts: seq<Rec>)
    requires p.Length == type_len / 4
    modifies p
    ensures var ws := if swapped then SwapAll(old(p[..])) else old(p[..]);
            var r := if type_len % 4 != 0 then None else ParseTypes(ws, 0);
            && err == (if r == None then -EINVAL else 0)
            && (err == 0 ==> p[..] == ws && Tiles(ws, ts) && r == Some(ts[1..]) && |offs| == |ts| - 1
                             && forall i :: 1 <= i < |ts| ==> offs[i - 1] == SecOff(ts, i))
  {
    hide Bswap32, ParseTypes, Tiles, Laid, RecIn, Continue;
    ghost var ws := if swapped then SwapAll(p[..]) else p[..];
    var off := 0;
    offs, ts := [], [VOID];
    assert Walked(ws, ts, offs, 0) by { ContinueFirst(ParseTypes(ws, 0)); NothingLaid(ws); }
    while off + 3 <= p.Length
      invariant Walked(ws, ts, offs, off)
      invariant forall w :: 0 <= w < p.Length ==> p[w] == if w < off then ws[w] else old(p[w])
      decreases p.Length - off
    {
      if swapped { SwapBase(p, off); }
      assert p[off + 1] == ws[off + 1];
      var kind, vlen := InfoKind(p[off + 1]), InfoVlen(p[off + 1]);
      var size := 3 + RestLen(kind, vlen);
      if !KnownKind(kind) || off + size > p.Length {
        WalkedFails(ws, ts, offs, off);
        return -EINVAL, offs, ts;
      }
      if swapped {
        var e := SwapRest(p, off);
      }
      WalkedStep(ws, ts, offs, off, size);
      offs, ts := offs + [off], ts + [RecIn(ws, off, size)];
      off := off + size;
    }
    WalkedEnd(ws, ts, offs, off);
    if 4 * off != type_len { return -EINVAL, offs, ts; }
    err := 0;
  }

  lemma {:induction false} NothingLaid(ws: seq<u32>)
    ensures Laid(ws, [VOID])
  {
  }

  /** `btf_new` on raw data, without a base. */
  method New(data: seq<byte>) returns (btf: Btf?, err: int)
    ensures match ParseBlob(data)
            case Ok(v) => err == 0 && btf != null && fresh(btf) && btf.Indexed()
                          && btf.types == v.types && btf.strs == v.strs && btf.swapped_endian == v.swapped
            case Err(e) => err == e && btf == null
  {
    hide Bswap32;
    btf := null;
    if |data| < HDR_LEN { return btf, -EINVAL; }
    var h := ReadHdr(data);
    var swapped := h.magic == Bswap16(BTF_MAGIC);
    if swapped {
      if Bswap32(h.hdr_len) != HDR_LEN { return btf, -ENOTSUP; }
      h := SwapHdr(h);
    } else if h.magic != BTF_MAGIC {
      return btf, -EINVAL;
    }
    if !HdrFits(h, |data|) { return btf, -EINVAL; }
    btf, err := LoadSections(h, data[h.hdr_len..], swapped);
  }

  lemma {:induction false} TilesVoid(ws: seq<u32>, ts: seq<Rec>)
    requires Tiles(ws, ts)
    ensures |ts| >= 1 && ts[0] == VOID
  {
  }

  method LoadSections(h: Hdr, body: seq<byte>, swapped: bool) returns (btf: Btf?, err: int)
    requires h.str_off + h.str_len <= |body| && h.type_off + h.type_len <= h.str_off
    ensures match ParseSections(h, body, swapped)
            case Ok(v) => err == 0 && btf != null && fresh(btf) && btf.Indexed()
                          && btf.types == v.types && btf.strs == v.strs && btf.swapped_endian == v.swapped
            case Err(e) => err == e && btf == null
  {
    hide Bswap32, ParseTypes, ReadWord, Tiles, StrsOk;
    var strs := body[h.str_off..h.str_off + h.str_len];
    if !StrsOk(strs) { return null, -EINVAL; }
    var raw := ReadWords(body[h.type_off..h.type_off + h.type_len]);
    var p := new u32[|raw|](i requires 0 <= i < |raw| => raw[i]);
    assert p[..] == raw;
    var e, offs, ts := ParseTypeSec(p, h.type_len, swapped);
    if e != 0 { return null, e; }
    assert ts[0] == VOID by { assert Tiles(p[..], ts); TilesVoid(p[..], ts); }
    DropStep(ts, 0);
    assert ts[0..] == ts;
    btf := new Btf.Loaded(h, p[..], offs, strs, swapped, ts);
    err := 0;
  }

  /** Whatever was built from empty, written in either byte order and read back, has the same types under the
      same ids and the same strings. */
  method WriteAndRead(built: Btf, swap: bool) returns (data: seq<byte>, btf: Btf?)
    requires built.Valid() && HDR_LEN + built.hdr.type_len + built.hdr.str_len < 0x1_0000_0000
    ensures btf != null && btf.Indexed() && btf.types == built.types && btf.strs == built.strs && btf.swapped_endian == swap
  {
    data := built.RawData(swap);
    BlobRound(built.hdr, built.words, built.types, built.strs, swap);
    var err;
    btf, err := New(data);
  }
}
