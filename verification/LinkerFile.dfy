/** One object file in the output of the static linker (linker.c): its sections are laid out, then its relocations are
    adjusted, and the references in its code denote the images of what they denoted. */
module LinkerFile {
  import opened Common
  import opened Bytes
  import opened LinkerLayout
  import opened LinkerRelos
  import opened LinkerFixups

  const SHT_REL := 9

  /** A section of relocations: which it is, which section it is about, and its entries. */
  datatype RelSec = RelSec(idx: nat, linked: nat, rels: seq<Rel>)

  predicate IsRelSec(s: SrcSec) { s.typ == SHT_REL && !s.ephemeral }

  /** What the sanity checks of an object file establish, and what its relocations need. */
  ghost predicate RelSecOk(secs: seq<SrcSec>, syms: seq<RelSym>, r: RelSec) {
    && 1 <= r.idx < |secs| && IsRelSec(secs[r.idx]) && SrcSecOk(secs[r.idx])
    && 1 <= r.linked < |secs| && RelsOk(r.rels, syms, secs)
    && (secs[r.linked].skipped || (IsDataSec(secs[r.linked]) && Relocatable(secs[r.linked], r.rels, syms)))
  }

  ghost predicate RelSecsOk(secs: seq<SrcSec>, syms: seq<RelSym>, rs: seq<RelSec>) {
    && (forall k {:trigger rs[k]} :: 0 <= k < |rs| ==> RelSecOk(secs, syms, rs[k]))
    && forall k, l :: 0 <= k < l < |rs| ==> rs[k].linked != rs[l].linked
  }

  /** Section `i` of the file holds `contents[i]` at its place. */
  ghost predicate HoldsAt(out: seq<DstSec>, pieces: seq<seq<Piece>>, secs: seq<SrcSec>, contents: seq<seq<byte>>, i: nat)
    requires i < |secs| == |contents|
  {
    IsDataSec(secs[i]) ==> PlacedAt(out, pieces, secs[i].(data := contents[i]))
  }

  ghost predicate InPlace(out: seq<DstSec>, pieces: seq<seq<Piece>>, secs: seq<SrcSec>, contents: seq<seq<byte>>) {
    && |contents| == |secs| && Apart(secs, |secs|)
    && forall i {:trigger HoldsAt(out, pieces, secs, contents, i)} :: 1 <= i < |secs| ==> HoldsAt(out, pieces, secs, contents, i)
  }

  /** Sections of relocations learn where they went; the other sections stay as they are. */
  ghost predicate RelsMoved(secs: seq<SrcSec>, secs2: seq<SrcSec>) {
    && |secs2| == |secs|
    && forall i {:trigger secs2[i]} :: 0 <= i < |secs| ==>
         if IsRelSec(secs[i]) then secs2[i] == secs[i].(dst_id := secs2[i].dst_id, dst_off := secs2[i].dst_off) else secs2[i] == secs[i]
  }

  lemma {:induction false} GrownInPlace(out: seq<DstSec>, pieces: seq<seq<Piece>>, out2: seq<DstSec>, pieces2: seq<seq<Piece>>,
                                        secs: seq<SrcSec>, secs2: seq<SrcSec>, contents: seq<seq<byte>>)
    requires InPlace(out, pieces, secs, contents) && Grown(out, pieces, out2, pieces2) && RelsMoved(secs, secs2)
    ensures InPlace(out2, pieces2, secs2, contents)
  {
    hide PlacedAt, Grown;
    forall i | 1 <= i < |secs2| ensures HoldsAt(out2, pieces2, secs2, contents, i) {
      assert HoldsAt(out, pieces, secs, contents, i);
      if IsDataSec(secs2[i]) { PlacedStays(out, pieces, out2, pieces2, secs[i].(data := contents[i])); }
    }
    forall i, j | 1 <= i < j < |secs2| && IsDataSec(secs2[i]) && IsDataSec(secs2[j]) ensures InOrder(secs2[i], secs2[j]) {
      assert secs2[i] == secs[i] && secs2[j] == secs[j];
    }
  }

  lemma {:induction false} RelocatedInPlace(out: seq<DstSec>, pieces: seq<seq<Piece>>, out2: seq<DstSec>,
                                            secs: seq<SrcSec>, contents: seq<seq<byte>>, l: nat, q: seq<byte>)
    requires InPlace(out, pieces, secs, contents) && 1 <= l < |secs| && IsDataSec(secs[l]) && !secs[l].ephemeral
    requires OnlyInside(out, out2, secs[l].dst_id, secs[l].dst_off, secs[l].dst_off + secs[l].size)
    requires PlacedAt(out2, pieces, secs[l].(data := q))
    ensures InPlace(out2, pieces, secs, contents[l := q])
  {
    hide PlacedAt, OnlyInside;
    var c2 := contents[l := q];
    forall i | 1 <= i < |secs| ensures HoldsAt(out2, pieces, secs, c2, i) {
      assert HoldsAt(out, pieces, secs, contents, i);
      if i != l && IsDataSec(secs[i]) {
        assert if i < l then InOrder(secs[i], secs[l]) else InOrder(secs[l], secs[i]);
        PlacedElsewhere(out, out2, pieces, secs[l], secs[i].(data := contents[i]));
      }
    }
  }

  /** Relocation `j` of the section refers to a section symbol, alone at its instruction, of a data or code section. */
  predicate Checked(secs: seq<SrcSec>, syms: seq<RelSym>, r: RelSec, j: nat) {
    && SecRel(r.rels, syms, j) && 1 <= syms[r.rels[j].sym].shndx < |secs| && IsDataSec(secs[syms[r.rels[j].sym].shndx])
  }

  /** In the contents `now` of the section relocated, each such reference denotes the image of what it denoted. */
  ghost predicate AllDenote(secs: seq<SrcSec>, syms: seq<RelSym>, r: RelSec, now: seq<byte>)
    requires r.linked < |secs|
  {
    forall j: nat {:trigger Checked(secs, syms, r, j)} :: Checked(secs, syms, r, j) && Alone(r.rels, syms, j) && secs[r.linked].exec ==>
      Denotes(secs[r.linked].data, now, r.rels[j], secs[syms[r.rels[j].sym].shndx].dst_off)
  }

  lemma {:induction false} RelocatedDenote(secs: seq<SrcSec>, secs2: seq<SrcSec>, syms: seq<RelSym>, r: RelSec)
    requires r.linked < |secs| && RelsOk(r.rels, syms, secs) && RelsMoved(secs, secs2) && !IsRelSec(secs[r.linked])
    requires secs2[r.linked].exec ==> FixesFit(Fixes(r.rels, syms, secs2, |r.rels|), |secs2[r.linked].data|)
    ensures AllDenote(secs, syms, r, Relocated(secs2[r.linked], r.rels, syms, secs2, |r.rels|))
  {
    hide Denotes, FixAll, Fixes, FixesFit;
    var s := secs2[r.linked];
    forall j: nat | Checked(secs, syms, r, j) && Alone(r.rels, syms, j) && s.exec
      ensures Denotes(s.data, Relocated(s, r.rels, syms, secs2, |r.rels|), r.rels[j], secs[syms[r.rels[j].sym].shndx].dst_off) {
      RefDenotesImage(s.data, r.rels, syms, secs2, j);
      assert secs2[syms[r.rels[j].sym].shndx] == secs[syms[r.rels[j].sym].shndx];
    }
  }

  function DataOf(secs: seq<SrcSec>): (c: seq<seq<byte>>)
    ensures |c| == |secs| && forall i :: 0 <= i < |secs| ==> c[i] == secs[i].data
  {
    seq(|secs|, i requires 0 <= i < |secs| => secs[i].data)
  }

  /** The entries of a section of relocations, moved along with what they relocate. */
  predicate MovedRels(rels: seq<Rel>, dst_rels: seq<Rel>, base: nat, sym_map: seq<nat>) {
    |dst_rels| == |rels| && forall j :: 0 <= j < |rels| && rels[j].sym < |sym_map| ==>
      dst_rels[j] == Rel(base + rels[j].offset, sym_map[rels[j].sym], rels[j].typ)
  }

  lemma {:induction false} RelsMovedTrans(a: seq<SrcSec>, b: seq<SrcSec>, c: seq<SrcSec>)
    requires RelsMoved(a, b) && RelsMoved(b, c)
    ensures RelsMoved(a, c)
  {
    forall i | 0 <= i < |a|
      ensures if IsRelSec(a[i]) then c[i] == a[i].(dst_id := c[i].dst_id, dst_off := c[i].dst_off) else c[i] == a[i] {
      assert if IsRelSec(a[i]) then b[i] == a[i].(dst_id := b[i].dst_id, dst_off := b[i].dst_off) else b[i] == a[i];
    }
  }

  lemma {:induction false} HoldsData(out: seq<DstSec>, pieces: seq<seq<Piece>>, secs: seq<SrcSec>, contents: seq<seq<byte>>, l: nat)
    requires InPlace(out, pieces, secs, contents) && 1 <= l < |secs| && IsDataSec(secs[l])
    ensures PlacedAt(out, pieces, secs[l].(data := contents[l]))
  {
    assert HoldsAt(out, pieces, secs, contents, l);
  }

  /** A section of relocations gets its place in the output. */
  method PlaceRelSec(out: Output, obj: ObjFile, i: nat) returns (err: int)
    requires out.Valid() && i < |obj.secs| && IsRelSec(obj.secs[i]) && SrcSecOk(obj.secs[i])
    modifies out, obj
    ensures out.Valid() && Grown(old(out.secs), old(out.pieces), out.secs, out.pieces) && RelsMoved(old(obj.secs), obj.secs)
    ensures err == var d := DstNamed(old(out.secs), old(obj.secs[i]).name, 1);
                   if d < |old(out.secs)| && !SecsMatch(old(out.secs)[d], old(obj.secs[i])) then -1 else 0
  {
    hide SecOk, PlacedAt;
    var d, e, found := out.TargetSec(obj.secs[i]);
    if e != 0 { return e; }
    ghost var a, p := out.secs, out.pieces;
    obj.secs := obj.secs[i := obj.secs[i].(dst_id := d)];
    out.ExtendSec(d, obj, i);
    GrownTrans(old(out.secs), old(out.pieces), a, p, out.secs, out.pieces);
    err := 0;
  }

  /** One section of relocations: it gets its place, and the section it is about is adjusted, to hold `q`. */
  method AppendRelSec(out: Output, obj: ObjFile, r: RelSec, syms: seq<RelSym>, sym_map: seq<nat>, ghost secs0: seq<SrcSec>, ghost now: seq<seq<byte>>)
    returns (err: int, ds: seq<Rel>, ghost q: seq<byte>)
    requires out.Valid() && RelSecOk(obj.secs, syms, r) && !obj.secs[r.linked].skipped && |sym_map| >= |syms|
    requires RelsMoved(secs0, obj.secs) && InPlace(out.secs, out.pieces, obj.secs, now) && now[r.linked] == obj.secs[r.linked].data
    modifies out, obj
    ensures RelsMoved(old(obj.secs), obj.secs) && (err == 0 || err == -1 || err == -EINVAL)
    ensures err == 0 ==> out.Valid() && InPlace(out.secs, out.pieces, obj.secs, now[r.linked := q])
    ensures err == 0 ==> AllDenote(secs0, syms, r, q) && MovedRels(r.rels, ds, obj.secs[r.linked].dst_off, sym_map)
  {
    hide InPlace, AllDenote, PlacedAt, OnlyInside, Grown;
    ghost var was, pieces, secs := out.secs, out.pieces, obj.secs;
    ds, q := [], [];
    err := PlaceRelSec(out, obj, r.idx);
    RelsMovedTrans(secs0, secs, obj.secs);
    if err != 0 { return; }
    GrownInPlace(was, pieces, out.secs, out.pieces, secs, obj.secs, now);
    was := out.secs;
    HoldsData(out.secs, out.pieces, obj.secs, now, r.linked);
    err, ds := RelocateSec(out, obj, r.linked, r.rels, syms, sym_map);
    if err != 0 { return; }
    q := Relocated(obj.secs[r.linked], r.rels, syms, obj.secs, |r.rels|);
    RelocatedInPlace(was, out.pieces, out.secs, obj.secs, now, r.linked, q);
    RelocatedDenote(secs0, obj.secs, syms, r);
  }

  /** `linker_append_elf_relos`: the file's sections hold their data before, and `now` afterwards. */
  method AppendRelos(out: Output, obj: ObjFile, rs: seq<RelSec>, syms: seq<RelSym>, sym_map: seq<nat>)
    returns (err: int, dst_rels: seq<seq<Rel>>, ghost now: seq<seq<byte>>)
    requires out.Valid() && RelSecsOk(obj.secs, syms, rs) && |sym_map| >= |syms|
    requires InPlace(out.secs, out.pieces, obj.secs, DataOf(obj.secs))
    modifies out, obj
    ensures RelsMoved(old(obj.secs), obj.secs) && (err == 0 || err == -1 || err == -EINVAL)
    ensures err == 0 ==> out.Valid() && InPlace(out.secs, out.pieces, obj.secs, now) && |now| == |obj.secs|
    ensures err == 0 ==> forall k :: 0 <= k < |rs| && !obj.secs[rs[k].linked].skipped ==>
              AllDenote(old(obj.secs), syms, rs[k], now[rs[k].linked])
    ensures err == 0 ==> |dst_rels| == |rs| && forall k :: 0 <= k < |rs| && !obj.secs[rs[k].linked].skipped ==>
              MovedRels(rs[k].rels, dst_rels[k], obj.secs[rs[k].linked].dst_off, sym_map)
    ensures err == 0 ==> forall i :: 0 <= i < |now| && (forall k :: 0 <= k < |rs| ==> rs[k].linked != i) ==> now[i] == old(obj.secs)[i].data
  {
    hide InPlace, AllDenote, MovedRels;
    ghost var secs0 := obj.secs;
    err, dst_rels, now := 0, [], DataOf(obj.secs);
    for k := 0 to |rs|
      invariant out.Valid() && err == 0 && RelsMoved(secs0, obj.secs) && |now| == |secs0| && |dst_rels| == k
      invariant InPlace(out.secs, out.pieces, obj.secs, now)
      invariant forall m :: 0 <= m < k && !secs0[rs[m].linked].skipped ==> AllDenote(secs0, syms, rs[m], now[rs[m].linked])
      invariant forall m :: 0 <= m < k && !secs0[rs[m].linked].skipped ==>
                  MovedRels(rs[m].rels, dst_rels[m], secs0[rs[m].linked].dst_off, sym_map)
      invariant forall i :: 0 <= i < |now| && (forall m :: 0 <= m < k ==> rs[m].linked != i) ==> now[i] == secs0[i].data
    {
      var r := rs[k];
      assert RelSecOk(secs0, syms, r);
      if obj.secs[r.linked].skipped {
        dst_rels := dst_rels + [[]];
        continue;
      }
      ghost var secs := obj.secs;
      StillRelSecs(secs0, secs, syms, rs);
      var ds;
      ghost var q;
      err, ds, q := AppendRelSec(out, obj, r, syms, sym_map, secs0, now);
      RelsMovedTrans(secs0, secs, obj.secs);
      if err != 0 { return; }
      dst_rels := dst_rels + [ds];
      now := now[r.linked := q];
    }
  }

  lemma {:induction false} StillRelSecs(secs: seq<SrcSec>, secs2: seq<SrcSec>, syms: seq<RelSym>, rs: seq<RelSec>)
    requires RelSecsOk(secs, syms, rs) && |secs2| == |secs| && forall i :: 0 <= i < |secs| ==> OnlyMoved(secs[i], secs2[i])
    ensures RelSecsOk(secs2, syms, rs)
  {
    forall k | 0 <= k < |rs| ensures RelSecOk(secs2, syms, rs[k]) {
      assert RelSecOk(secs, syms, rs[k]);
      assert OnlyMoved(secs[rs[k].idx], secs2[rs[k].idx]) && OnlyMoved(secs[rs[k].linked], secs2[rs[k].linked]);
    }
  }

  lemma {:induction false} AllInPlace(out: seq<DstSec>, pieces: seq<seq<Piece>>, secs: seq<SrcSec>)
    requires Apart(secs, |secs|) && forall i :: 1 <= i < |secs| && IsDataSec(secs[i]) ==> PlacedAt(out, pieces, secs[i])
    ensures InPlace(out, pieces, secs, DataOf(secs))
  {
    hide PlacedAt;
    forall i | 1 <= i < |secs| ensures HoldsAt(out, pieces, secs, DataOf(secs), i) {
      assert secs[i].(data := DataOf(secs)[i]) == secs[i];
    }
  }

  /** Reference `j` of the file, as the output has it: it denotes the image of what it denoted in the file, exactly if the
      new immediate fits; the target's section has a place, at a multiple of 8 if it is code. */
  ghost predicate ReferenceRight(out: seq<DstSec>, pieces: seq<seq<Piece>>, data: seq<byte>, secs: seq<SrcSec>, syms: seq<RelSym>, r: RelSec, j: nat)
    requires r.linked < |secs| && Checked(secs, syms, r, j)
  {
    var l, t := secs[r.linked], secs[syms[r.rels[j].sym].shndx];
    && l.dst_id < |out| && l.dst_off + l.size <= |out[l.dst_id].raw|
    && Denotes(data, out[l.dst_id].raw[l.dst_off..l.dst_off + l.size], r.rels[j], t.dst_off)
    && (!t.ephemeral ==> t.dst_id < |out| == |pieces| && Piece(t.dst_off, t.size, t.align) in pieces[t.dst_id])
    && (!t.ephemeral && t.exec && t.typ == SHT_PROGBITS ==> t.dst_off % 8 == 0)
  }

  lemma {:induction false} FileRight(out: Output, secs: seq<SrcSec>, now: seq<seq<byte>>, syms: seq<RelSym>, r: RelSec, j: nat)
    requires out.Valid() && InPlace(out.secs, out.pieces, secs, now) && RelSecOk(secs, syms, r) && AllDenote(secs, syms, r, now[r.linked])
    requires !secs[r.linked].skipped && secs[r.linked].exec && Checked(secs, syms, r, j) && Alone(r.rels, syms, j)
    ensures ReferenceRight(out.secs, out.pieces, secs[r.linked].data, secs, syms, r, j)
  {
    hide Denotes, SecOk, InPlace;
    var l, x := secs[r.linked], syms[r.rels[j].sym].shndx;
    HoldsData(out.secs, out.pieces, secs, now, r.linked);
    assert l.typ == SHT_PROGBITS;
    HoldsData(out.secs, out.pieces, secs, now, x);
    var t := secs[x];
    if !t.ephemeral && t.exec && t.typ == SHT_PROGBITS {
      assert SecOk(out.secs[t.dst_id], out.pieces[t.dst_id]);
      BaseAligned(out.secs[t.dst_id], out.pieces[t.dst_id], t.dst_off, t.size, t.align);
    }
  }

  /** `bpf_linker__add_file`, as far as sections and relocations go: the file's sections have places of their own, and
      each reference from code through a section symbol denotes the image of what it denoted. */
  method AddFile(out: Output, obj: ObjFile, rs: seq<RelSec>, syms: seq<RelSym>, sym_map: seq<nat>) returns (err: int, dst_rels: seq<seq<Rel>>)
    requires out.Valid() && RelSecsOk(obj.secs, syms, rs) && |sym_map| >= |syms|
    requires forall i :: 1 <= i < |obj.secs| ==> SrcSecOk(obj.secs[i])
    modifies out, obj
    ensures |obj.secs| == |old(obj.secs)| && forall i :: 0 <= i < |obj.secs| ==> OnlyMoved(old(obj.secs)[i], obj.secs[i])
    ensures err == 0 || err == -1 || err == -EINVAL
    ensures err == 0 ==> out.Valid() && |dst_rels| == |rs| && forall k :: 0 <= k < |rs| && !obj.secs[rs[k].linked].skipped ==>
              MovedRels(rs[k].rels, dst_rels[k], obj.secs[rs[k].linked].dst_off, sym_map)
    ensures err == 0 ==> forall k, j: nat {:trigger Checked(obj.secs, syms, rs[k], j)} ::
              0 <= k < |rs| && !obj.secs[rs[k].linked].skipped && obj.secs[rs[k].linked].exec
              && Checked(obj.secs, syms, rs[k], j) && Alone(rs[k].rels, syms, j) ==>
                ReferenceRight(out.secs, out.pieces, old(obj.secs)[rs[k].linked].data, obj.secs, syms, rs[k], j)
  {
    hide PlacedAt, Grown, InPlace, AllDenote, ReferenceRight, Alone;
    ghost var secs0 := obj.secs;
    dst_rels := [];
    err := out.AppendSecData(obj);
    if err != 0 { return; }
    ghost var secs1 := obj.secs;
    StillRelSecs(secs0, secs1, syms, rs);
    AllInPlace(out.secs, out.pieces, secs1);
    ghost var now;
    err, dst_rels, now := AppendRelos(out, obj, rs, syms, sym_map);
    MovedTwice(secs0, secs1, obj.secs);
    if err == 0 {
      forall k, j: nat | 0 <= k < |rs| && !obj.secs[rs[k].linked].skipped && obj.secs[rs[k].linked].exec
                         && Checked(obj.secs, syms, rs[k], j) && Alone(rs[k].rels, syms, j)
        ensures ReferenceRight(out.secs, out.pieces, secs0[rs[k].linked].data, obj.secs, syms, rs[k], j) {
        StillRelSecs(secs1, obj.secs, syms, rs);
        StillDenote(secs1, obj.secs, syms, rs[k], now[rs[k].linked]);
        FileRight(out, obj.secs, now, syms, rs[k], j);
      }
    }
  }

  lemma {:induction false} MovedTwice(a: seq<SrcSec>, b: seq<SrcSec>, c: seq<SrcSec>)
    requires |a| == |b| && (forall i :: 0 <= i < |a| ==> OnlyMoved(a[i], b[i])) && RelsMoved(b, c)
    ensures |c| == |a| && forall i :: 0 <= i < |a| ==> OnlyMoved(a[i], c[i]) && OnlyMoved(b[i], c[i]) && c[i].skipped == b[i].skipped
  {
  }

  lemma {:induction false} StillDenote(secs: seq<SrcSec>, secs2: seq<SrcSec>, syms: seq<RelSym>, r: RelSec, now: seq<byte>)
    requires RelsMoved(secs, secs2) && RelSecOk(secs, syms, r) && !secs[r.linked].skipped && AllDenote(secs, syms, r, now)
    ensures r.linked < |secs2| && AllDenote(secs2, syms, r, now)
  {
    hide Denotes;
    assert secs2[r.linked] == secs[r.linked];
    forall j: nat | Checked(secs2, syms, r, j) && Alone(r.rels, syms, j) && secs2[r.linked].exec
      ensures Denotes(secs2[r.linked].data, now, r.rels[j], secs2[syms[r.rels[j].sym].shndx].dst_off) {
      var x := syms[r.rels[j].sym].shndx;
      assert secs2[x] == secs[x];
      assert Checked(secs, syms, r, j);
    }
  }
}
