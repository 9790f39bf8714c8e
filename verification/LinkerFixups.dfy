/** Relocation adjustment of the static linker (linker.c). */
module LinkerFixups {
  import opened Common
  import opened Bytes
  import opened LinkerLayout
  import opened LinkerRelos

  const BPF_JMP_CALL := 0x85
  const W: int := 0x1_0000_0000

  /** The 32-bit immediate of the instruction at `o`, as stored and as a number. */
  function ImmAt(raw: seq<byte>, o: nat): (v: int)
    requires o + 8 <= |raw|
    ensures 0 <= v < W
  {
    FromBytes(raw[o + 4], raw[o + 5], raw[o + 6], raw[o + 7])
  }

  function S32(v: int): int {
    if v % W < 0x8000_0000 then v % W else v % W - W
  }

  function PutImm(raw: seq<byte>, o: nat, v: int): (q: seq<byte>)
    requires o + 8 <= |raw| && 0 <= v < W
    ensures |q| == |raw| && forall i :: 0 <= i < |raw| ==> q[i] == if o + 4 <= i < o + 8 then ByteOf(v, i - o - 4) else raw[i]
  {
    raw[o + 4 := ByteOf(v, 0)][o + 5 := ByteOf(v, 1)][o + 6 := ByteOf(v, 2)][o + 7 := ByteOf(v, 3)]
  }

  lemma {:induction false} PutImmFacts(raw: seq<byte>, o: nat, v: int)
    requires o + 8 <= |raw| && 0 <= v < W
    ensures ImmAt(PutImm(raw, o, v), o) == v
    ensures forall q: nat {:trigger ImmAt(raw, q)} :: q + 8 <= |raw| && q != o && q % 8 == 0 && o % 8 == 0 ==>
              ImmAt(PutImm(raw, o, v), q) == ImmAt(raw, q)
  {
    hide ByteOf, FromBytes;
    BytesRound(v);
  }

  /** What is added to the immediate: a call counts instructions, everything else bytes. */
  function Delta(code: byte, dst_off: nat): int {
    if code == BPF_JMP_CALL then dst_off / 8 else dst_off
  }

  function FixInsn(raw: seq<byte>, o: nat, dst_off: nat): seq<byte>
    requires o + 8 <= |raw|
  {
    PutImm(raw, o, (ImmAt(raw, o) + Delta(raw[o], dst_off)) % W)
  }

  /** The byte of its section that an instruction with a section symbol's relocation refers to: a call
      goes to the instruction after `imm` more, a load takes the address `imm` bytes in. */
  function Target(code: byte, imm: int): int {
    if code == BPF_JMP_CALL then (imm + 1) * 8 else imm
  }

  /** An adjusted instruction refers to the place its target went to, exactly if the sum fits the immediate and, for a
      call, the target's section moved by whole instructions. */
  lemma {:induction false} FixDenotes(code: byte, v: int, moved: nat)
    requires 0 <= v < W
    ensures Target(code, S32((v + Delta(code, moved)) % W)) == Target(code, S32(v)) + moved <==>
            S32(v) + Delta(code, moved) < 0x8000_0000 && (code == BPF_JMP_CALL ==> moved % 8 == 0)
  {
    hide S32;
    S32Add(v, Delta(code, moved));
    var imm, imm2 := S32(v), S32((v + Delta(code, moved)) % W);
    if code == BPF_JMP_CALL && moved % 8 != 0 {
      assert (imm2 + 1) * 8 % 8 == 0 && ((imm + 1) * 8 + moved) % 8 == moved % 8;
    }
  }

  lemma {:induction false} S32Add(a: int, d: int)
    requires 0 <= a < W && d >= 0
    ensures S32((a + d) % W) == S32(a) + d <==> S32(a) + d < 0x8000_0000
  {
  }

  datatype Rel = Rel(offset: nat, sym: nat, typ: nat)

  /** The symbols of a file as far as relocations look at them. */
  datatype RelSym = RelSym(is_section: bool, shndx: nat)

  /** Where a relocation's instruction is in its section, and how far its target moved. */
  datatype Fix = Fix(at: nat, moved: nat)

  /** The relocations against section symbols among the first `n`, as adjustments of the section's contents. */
  function Fixes(rels: seq<Rel>, syms: seq<RelSym>, secs: seq<SrcSec>, n: nat): seq<Fix>
    requires n <= |rels| && RelsOk(rels, syms, secs)
  {
    if n == 0 then []
    else
      var r := rels[n - 1];
      var s, before := syms[r.sym], Fixes(rels, syms, secs, n - 1);
      if s.is_section then before + [Fix(r.offset, secs[s.shndx].dst_off)] else before
  }

  predicate RelsOk(rels: seq<Rel>, syms: seq<RelSym>, secs: seq<SrcSec>) {
    && (forall j :: 0 <= j < |rels| ==> rels[j].sym < |syms|)
    && (forall i :: 0 <= i < |syms| && syms[i].is_section ==> syms[i].shndx < |secs|)
  }

  /** A relocation against a section symbol. */
  predicate SecRel(rels: seq<Rel>, syms: seq<RelSym>, j: nat) {
    j < |rels| && rels[j].sym < |syms| && syms[rels[j].sym].is_section
  }

  predicate FixesFit(fs: seq<Fix>, n: nat) {
    forall i :: 0 <= i < |fs| ==> fs[i].at + 8 <= n && fs[i].at % 8 == 0
  }

  /** The adjustments made one after the other. */
  function FixAll(raw: seq<byte>, fs: seq<Fix>): (q: seq<byte>)
    requires FixesFit(fs, |raw|)
    ensures |q| == |raw|
  {
    if fs == [] then raw else FixInsn(FixAll(raw, fs[..|fs| - 1]), fs[|fs| - 1].at, fs[|fs| - 1].moved)
  }

  lemma {:induction false} FixInsnFacts(raw: seq<byte>, o: nat, moved: nat, q: nat)
    requires o + 8 <= |raw| && o % 8 == 0 && q + 8 <= |raw| && q % 8 == 0
    ensures |FixInsn(raw, o, moved)| == |raw| && FixInsn(raw, o, moved)[q] == raw[q]
    ensures ImmAt(FixInsn(raw, o, moved), q) == if q == o then (ImmAt(raw, o) + Delta(raw[o], moved)) % W else ImmAt(raw, q)
  {
    hide ImmAt;
    PutImmFacts(raw, o, (ImmAt(raw, o) + Delta(raw[o], moved)) % W);
  }

  /** Bytes outside the immediates stay; an instruction without an adjustment keeps its immediate. */
  lemma {:induction false} FixAllKeeps(raw: seq<byte>, fs: seq<Fix>, o: nat)
    requires FixesFit(fs, |raw|) && o + 8 <= |raw| && o % 8 == 0
    ensures FixAll(raw, fs)[o] == raw[o]
    ensures (forall i :: 0 <= i < |fs| ==> fs[i].at != o) ==> ImmAt(FixAll(raw, fs), o) == ImmAt(raw, o)
    decreases |fs|
  {
    hide ImmAt, FixInsn;
    if fs != [] {
      var gs, f := fs[..|fs| - 1], fs[|fs| - 1];
      FixAllKeeps(raw, gs, o);
      FixInsnFacts(FixAll(raw, gs), f.at, f.moved, o);
    }
  }

  /** An instruction with one adjustment has its immediate adjusted by exactly that. */
  lemma {:induction false} FixAllAt(raw: seq<byte>, fs: seq<Fix>, i: nat)
    requires FixesFit(fs, |raw|) && i < |fs|
    requires forall k :: 0 <= k < |fs| && k != i ==> fs[k].at != fs[i].at
    ensures ImmAt(FixAll(raw, fs), fs[i].at) == (ImmAt(raw, fs[i].at) + Delta(raw[fs[i].at], fs[i].moved)) % W
    ensures FixAll(raw, fs)[fs[i].at] == raw[fs[i].at]
    decreases |fs|
  {
    hide ImmAt, FixInsn;
    var gs, f := fs[..|fs| - 1], fs[|fs| - 1];
    FixInsnFacts(FixAll(raw, gs), f.at, f.moved, fs[i].at);
    FixAllKeeps(raw, gs, f.at);
    if i < |gs| { FixAllAt(raw, gs, i); }
  }

  /** No other relocation against a section symbol is at the same instruction. */
  ghost predicate Alone(rels: seq<Rel>, syms: seq<RelSym>, j: nat)
    requires j < |rels|
  {
    forall k {:trigger SecRel(rels, syms, k)} :: 0 <= k < |rels| && k != j && SecRel(rels, syms, k) ==> rels[k].offset != rels[j].offset
  }

  /** Every adjustment comes from a relocation, the ones from `lo` on from relocations after the `m`th. */
  ghost predicate Stems(rels: seq<Rel>, syms: seq<RelSym>, fs: seq<Fix>, lo: nat, m: nat, n: nat) {
    forall i {:trigger StemsFrom(rels, syms, fs[i], m, n)} :: lo <= i < |fs| ==> StemsFrom(rels, syms, fs[i], m, n)
  }

  ghost predicate StemsFrom(rels: seq<Rel>, syms: seq<RelSym>, f: Fix, m: nat, n: nat) {
    exists k: nat {:trigger SecRel(rels, syms, k)} :: m <= k < n && SecRel(rels, syms, k) && f.at == rels[k].offset
  }

  lemma {:induction false} FixesStem(rels: seq<Rel>, syms: seq<RelSym>, secs: seq<SrcSec>, m: nat, n: nat)
    requires m <= n <= |rels| && RelsOk(rels, syms, secs)
    ensures Fixes(rels, syms, secs, m) <= Fixes(rels, syms, secs, n)
    ensures Stems(rels, syms, Fixes(rels, syms, secs, n), |Fixes(rels, syms, secs, m)|, m, n)
    decreases n
  {
    if m < n {
      FixesStem(rels, syms, secs, m, n - 1);
      var fs, gs := Fixes(rels, syms, secs, n), Fixes(rels, syms, secs, n - 1);
      forall i | |Fixes(rels, syms, secs, m)| <= i < |fs|
        ensures StemsFrom(rels, syms, fs[i], m, n) {
        if i < |gs| {
          assert fs[i] == gs[i] && StemsFrom(rels, syms, gs[i], m, n - 1);
        } else {
          assert SecRel(rels, syms, n - 1);
        }
      }
    }
  }

  /** The adjustment of a relocation, and that it is the only one of its instruction. */
  lemma {:induction false} FixOf(rels: seq<Rel>, syms: seq<RelSym>, secs: seq<SrcSec>, j: nat) returns (i: nat)
    requires RelsOk(rels, syms, secs) && SecRel(rels, syms, j) && Alone(rels, syms, j)
    ensures var fs := Fixes(rels, syms, secs, |rels|);
            && i < |fs| && fs[i] == Fix(rels[j].offset, secs[syms[rels[j].sym].shndx].dst_off)
            && forall k :: 0 <= k < |fs| && k != i ==> fs[k].at != fs[i].at
  {
    var fs, gs := Fixes(rels, syms, secs, |rels|), Fixes(rels, syms, secs, j + 1);
    i := |Fixes(rels, syms, secs, j)|;
    FixesStem(rels, syms, secs, 0, j);
    FixesStem(rels, syms, secs, j, |rels|);
    FixesStem(rels, syms, secs, j + 1, |rels|);
    assert gs[i] == Fix(rels[j].offset, secs[syms[rels[j].sym].shndx].dst_off);
    forall k | 0 <= k < |fs| && k != i ensures fs[k].at != fs[i].at {
      if k < i {
        assert Fixes(rels, syms, secs, j)[k] == fs[k] && StemsFrom(rels, syms, fs[k], 0, j);
      } else {
        assert StemsFrom(rels, syms, fs[k], j + 1, |rels|);
      }
    }
  }

  /** The reference of relocation `r`, in the contents `data` of a file's section, has become in `now` a reference to the
      image of its target, `moved` bytes on; exactly if the new immediate fits 32 bits, and for a call the target's
      section moved by whole instructions. */
  predicate Denotes(data: seq<byte>, now: seq<byte>, r: Rel, moved: nat) {
    && r.offset + 8 <= |data| == |now|
    && var code, imm, imm2 := data[r.offset], S32(ImmAt(data, r.offset)), S32(ImmAt(now, r.offset));
       && now[r.offset] == code
       && (Target(code, imm2) == Target(code, imm) + moved <==>
             imm + Delta(code, moved) < 0x8000_0000 && (code == BPF_JMP_CALL ==> moved % 8 == 0))
  }

  /** After all adjustments of a section, each reference through a section symbol denotes the image of what it denoted. */
  lemma {:induction false} RefDenotesImage(data: seq<byte>, rels: seq<Rel>, syms: seq<RelSym>, secs: seq<SrcSec>, j: nat)
    requires RelsOk(rels, syms, secs) && FixesFit(Fixes(rels, syms, secs, |rels|), |data|)
    requires SecRel(rels, syms, j) && Alone(rels, syms, j)
    ensures Denotes(data, FixAll(data, Fixes(rels, syms, secs, |rels|)), rels[j], secs[syms[rels[j].sym].shndx].dst_off)
  {
    hide ImmAt, S32, Fixes;
    var i := FixOf(rels, syms, secs, j);
    var fs := Fixes(rels, syms, secs, |rels|);
    FixAllAt(data, fs, i);
    FixDenotes(data[fs[i].at], ImmAt(data, fs[i].at), fs[i].moved);
  }

  /** In an executable section everything lies at a multiple of 8. */
  lemma {:induction false} BaseAligned(d: DstSec, ps: seq<Piece>, base: nat, size: nat, align: nat)
    requires SecOk(d, ps) && d.typ == SHT_PROGBITS && d.exec && Piece(base, size, align) in ps
    ensures base % 8 == 0
  {
    var i :| 0 <= i < |ps| && ps[i] == Piece(base, size, align);
    assert PieceAt(d, ps, i);
    var k: nat :| base == k * 8;
  }

  /** What the relocations of a section make of its contents. */
  function Relocated(s: SrcSec, rels: seq<Rel>, syms: seq<RelSym>, secs: seq<SrcSec>, n: nat): (q: seq<byte>)
    requires n <= |rels| && RelsOk(rels, syms, secs) && (s.exec ==> FixesFit(Fixes(rels, syms, secs, n), |s.data|))
    ensures |q| == |s.data|
  {
    if s.exec then FixAll(s.data, Fixes(rels, syms, secs, n)) else s.data
  }

  /** Only bytes of output section `d` from `lo` to `hi` have changed. */
  ghost predicate OnlyInside(secs: seq<DstSec>, secs2: seq<DstSec>, d: nat, lo: nat, hi: nat) {
    && d < |secs| == |secs2| && secs2 == secs[d := secs[d].(raw := secs2[d].raw)] && |secs2[d].raw| == |secs[d].raw|
    && forall b :: 0 <= b < |secs[d].raw| && !(lo <= b < hi) ==> secs2[d].raw[b] == secs[d].raw[b]
  }

  /** So whatever lies elsewhere stays in place. */
  lemma {:induction false} PlacedElsewhere(secs: seq<DstSec>, secs2: seq<DstSec>, pieces: seq<seq<Piece>>, s: SrcSec, t: SrcSec)
    requires OnlyInside(secs, secs2, s.dst_id, s.dst_off, s.dst_off + s.size) && PlacedAt(secs, pieces, t) && !s.ephemeral
    requires InOrder(s, t) || InOrder(t, s)
    ensures PlacedAt(secs2, pieces, t)
  {
    if !t.ephemeral && t.typ != SHT_NOBITS {
      var a, b := secs[t.dst_id].raw, secs2[t.dst_id].raw;
      assert b[t.dst_off..t.dst_off + t.size] == a[t.dst_off..t.dst_off + t.size];
    }
  }

  /** An adjustment inside a part of a section is one of that part. */
  lemma {:induction false} FixSlice(raw: seq<byte>, lo: nat, hi: nat, o: nat, moved: nat)
    requires lo <= hi <= |raw| && lo + o + 8 <= hi
    ensures FixInsn(raw, lo + o, moved)[lo..hi] == FixInsn(raw[lo..hi], o, moved)
    ensures |FixInsn(raw, lo + o, moved)| == |raw|
    ensures forall b :: 0 <= b < |raw| && !(lo <= b < hi) ==> FixInsn(raw, lo + o, moved)[b] == raw[b]
  {
    hide ByteOf, FromBytes;
    assert ImmAt(raw, lo + o) == ImmAt(raw[lo..hi], o);
  }

  lemma {:induction false} FixesNext(rels: seq<Rel>, syms: seq<RelSym>, secs: seq<SrcSec>, n: nat, size: nat)
    requires n < |rels| && RelsOk(rels, syms, secs)
    requires forall j: nat {:trigger SecRel(rels, syms, j)} :: SecRel(rels, syms, j) ==> rels[j].offset % 8 == 0 && rels[j].offset + 8 <= size
    requires FixesFit(Fixes(rels, syms, secs, n), size)
    ensures var r := rels[n];
            var s, before := syms[r.sym], Fixes(rels, syms, secs, n);
            Fixes(rels, syms, secs, n + 1) == if s.is_section then before + [Fix(r.offset, secs[s.shndx].dst_off)] else before
    ensures FixesFit(Fixes(rels, syms, secs, n + 1), size)
  {
    assert SecRel(rels, syms, n) || !SecRel(rels, syms, n);
  }

  lemma {:induction false} RelocatedNext(s: SrcSec, rels: seq<Rel>, syms: seq<RelSym>, secs: seq<SrcSec>, n: nat)
    requires n < |rels| && RelsOk(rels, syms, secs) && s.exec
    requires FixesFit(Fixes(rels, syms, secs, n), |s.data|) && FixesFit(Fixes(rels, syms, secs, n + 1), |s.data|)
    requires SecRel(rels, syms, n) ==> rels[n].offset + 8 <= |s.data|
    ensures Relocated(s, rels, syms, secs, n + 1) ==
            if SecRel(rels, syms, n) then FixInsn(Relocated(s, rels, syms, secs, n), rels[n].offset, secs[syms[rels[n].sym].shndx].dst_off)
            else Relocated(s, rels, syms, secs, n)
  {
    hide FixInsn;
    if SecRel(rels, syms, n) {
      var fs := Fixes(rels, syms, secs, n + 1);
      assert fs[..|fs| - 1] == Fixes(rels, syms, secs, n);
    }
  }

  /** What a section's relocations ask of it: instructions at multiples of 8, as the sanity checks establish, and bytes to
      adjust where a section symbol is referred to. */
  ghost predicate Relocatable(s: SrcSec, rels: seq<Rel>, syms: seq<RelSym>) {
    && !s.ephemeral
    && (s.exec ==> forall j: nat {:trigger SecRel(rels, syms, j)} :: SecRel(rels, syms, j) ==>
          s.typ == SHT_PROGBITS && rels[j].offset % 8 == 0 && rels[j].offset + 8 <= s.size == |s.data|)
  }

  /** The relocations of one section (the inner loop of `linker_append_elf_relos`), which lies at its place in the output. */
  method RelocateSec(out: Output, obj: ObjFile, linked: nat, rels: seq<Rel>, syms: seq<RelSym>, sym_map: seq<nat>)
    returns (err: int, dst_rels: seq<Rel>)
    requires out.Valid() && linked < |obj.secs| && RelsOk(rels, syms, obj.secs) && |sym_map| >= |syms|
    requires Relocatable(obj.secs[linked], rels, syms) && PlacedAt(out.secs, out.pieces, obj.secs[linked])
    modifies out`secs
    ensures err == if !obj.secs[linked].exec && exists j: nat {:trigger SecRel(rels, syms, j)} :: SecRel(rels, syms, j) then -EINVAL else 0
    ensures err == 0 ==> |dst_rels| == |rels| && forall j :: 0 <= j < |rels| ==>
              dst_rels[j] == Rel(obj.secs[linked].dst_off + rels[j].offset, sym_map[rels[j].sym], rels[j].typ)
    ensures err == 0 ==> out.Valid() && OnlyInside(old(out.secs), out.secs, obj.secs[linked].dst_id,
                                                   obj.secs[linked].dst_off, obj.secs[linked].dst_off + obj.secs[linked].size)
    ensures err == 0 && obj.secs[linked].exec ==> FixesFit(Fixes(rels, syms, obj.secs, |rels|), |obj.secs[linked].data|)
    ensures err == 0 ==> PlacedAt(out.secs, out.pieces,
                                  obj.secs[linked].(data := Relocated(obj.secs[linked], rels, syms, obj.secs, |rels|)))
  {
    var s := obj.secs[linked];
    hide FixInsn, SecOk, FixAll, FixesFit, Fixes, Relocated, PlacedAt, OnlyInside;
    ghost var secs0 := out.secs;
    NothingRelocated(out.secs, out.pieces, s, rels, syms, obj.secs);
    dst_rels, err := [], 0;
    for j := 0 to |rels|
      invariant |dst_rels| == j && err == 0 && out.Valid()
      invariant forall k :: 0 <= k < j ==> dst_rels[k] == Rel(s.dst_off + rels[k].offset, sym_map[rels[k].sym], rels[k].typ)
      invariant s.exec ==> FixesFit(Fixes(rels, syms, obj.secs, j), |s.data|)
      invariant OnlyInside(secs0, out.secs, s.dst_id, s.dst_off, s.dst_off + s.size)
      invariant PlacedAt(out.secs, out.pieces, s.(data := Relocated(s, rels, syms, obj.secs, j)))
      invariant !s.exec ==> forall k {:trigger SecRel(rels, syms, k)} :: 0 <= k < j ==> !SecRel(rels, syms, k)
    {
      var r := rels[j];
      dst_rels := dst_rels + [Rel(s.dst_off + r.offset, sym_map[r.sym], r.typ)];
      assert SecRel(rels, syms, j) <==> syms[r.sym].is_section;
      if s.exec { FixesNext(rels, syms, obj.secs, j, |s.data|); }
      if syms[r.sym].is_section {
        if !s.exec { return -EINVAL, dst_rels; }
        ghost var was := out.secs;
        FixOne(out, s, r.offset, obj.secs[syms[r.sym].shndx].dst_off, Relocated(s, rels, syms, obj.secs, j));
        OnlyInsideTrans(secs0, was, out.secs, s.dst_id, s.dst_off, s.dst_off + s.size);
      }
      if s.exec { RelocatedNext(s, rels, syms, obj.secs, j); } else { RelocatedData(s, rels, syms, obj.secs, j); }
    }
  }

  /** One instruction of a section at its place is adjusted; the layout stays. `q` is what the place holds. */
  method FixOne(out: Output, s: SrcSec, offset: nat, moved: nat, ghost q: seq<byte>)
    requires out.Valid() && PlacedAt(out.secs, out.pieces, s.(data := q)) && !s.ephemeral && s.typ == SHT_PROGBITS
    requires offset + 8 <= s.size == |q|
    modifies out`secs
    ensures out.Valid() && PlacedAt(out.secs, out.pieces, s.(data := FixInsn(q, offset, moved)))
    ensures OnlyInside(old(out.secs), out.secs, s.dst_id, s.dst_off, s.dst_off + s.size)
  {
    hide ImmAt, ByteOf, FixInsn;
    var d, base := s.dst_id, s.dst_off;
    var o := out.secs[d];
    assert SecOk(o, out.pieces[d]);
    FixSlice(o.raw, base, base + s.size, offset, moved);
    var n := o.(raw := FixInsn(o.raw, base + offset, moved));
    FixedLayout(o, out.pieces[d], n, s);
    out.secs := out.secs[d := n];
    forall e | 0 <= e < |out.secs| ensures SecOk(out.secs[e], out.pieces[e]) {
      if e != d { assert SecOk(old(out.secs)[e], out.pieces[e]); }
    }
  }

  /** Bytes of a piece may change. */
  lemma {:induction false} FixedLayout(o: DstSec, ps: seq<Piece>, n: DstSec, s: SrcSec)
    requires SecOk(o, ps) && Piece(s.dst_off, s.size, s.align) in ps && n == o.(raw := n.raw) && |n.raw| == |o.raw|
    requires forall b :: 0 <= b < |o.raw| && !(s.dst_off <= b < s.dst_off + s.size) ==> n.raw[b] == o.raw[b]
    ensures SecOk(n, ps)
  {
    forall k | 0 <= k < |ps| ensures PieceAt(n, ps, k) { assert PieceAt(o, ps, k); }
    var i :| 0 <= i < |ps| && ps[i] == Piece(s.dst_off, s.size, s.align);
    forall b | 0 <= b < |n.raw| && !Covered(ps, b) ensures n.raw[b] == 0 {
      assert !(ps[i].off <= b < ps[i].off + ps[i].size);
    }
  }

  lemma {:induction false} OnlyInsideTrans(a: seq<DstSec>, b: seq<DstSec>, c: seq<DstSec>, d: nat, lo: nat, hi: nat)
    requires OnlyInside(a, b, d, lo, hi) && OnlyInside(b, c, d, lo, hi)
    ensures OnlyInside(a, c, d, lo, hi)
  {
  }

  lemma {:induction false} RelocatedData(s: SrcSec, rels: seq<Rel>, syms: seq<RelSym>, secs: seq<SrcSec>, n: nat)
    requires n < |rels| && RelsOk(rels, syms, secs) && !s.exec
    ensures Relocated(s, rels, syms, secs, n + 1) == Relocated(s, rels, syms, secs, n)
  {
  }

  lemma {:induction false} NothingRelocated(out: seq<DstSec>, pieces: seq<seq<Piece>>, s: SrcSec, rels: seq<Rel>,
                                            syms: seq<RelSym>, secs: seq<SrcSec>)
    requires PlacedAt(out, pieces, s) && RelsOk(rels, syms, secs)
    ensures FixesFit(Fixes(rels, syms, secs, 0), |s.data|) && Relocated(s, rels, syms, secs, 0) == s.data
    ensures PlacedAt(out, pieces, s.(data := Relocated(s, rels, syms, secs, 0)))
    ensures OnlyInside(out, out, s.dst_id, s.dst_off, s.dst_off + s.size)
  {
  }
}
