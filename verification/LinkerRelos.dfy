/** Appending sections and relocations to the output (linker.c), in place on its sections. */
module LinkerRelos {
  import opened Common
  import opened Bytes
  import opened LinkerLayout


  /** `secs_match`. */
  predicate SecsMatch(d: DstSec, s: SrcSec) {
    d.ephemeral || s.ephemeral || (d.typ == s.typ && d.flags == s.flags && d.exec == s.exec && d.entsize == s.entsize)
  }

  /** A source section learns where it went, or that it is skipped; the rest stays. */
  predicate OnlyMoved(s: SrcSec, t: SrcSec) {
    t == s.(dst_id := t.dst_id, dst_off := t.dst_off, skipped := t.skipped) && (s.skipped ==> t.skipped)
  }

  predicate IsDataSec(s: SrcSec) {
    !s.skipped && (s.ephemeral || s.typ == SHT_PROGBITS || s.typ == SHT_NOBITS)
  }

  /** The source section's contents are where `dst_id` and `dst_off` say, in a piece of their own. */
  ghost predicate PlacedAt(secs: seq<DstSec>, pieces: seq<seq<Piece>>, s: SrcSec) {
    && s.dst_id < |secs| == |pieces| && secs[s.dst_id].name == s.name
    && (!s.ephemeral ==>
        && Piece(s.dst_off, s.size, s.align) in pieces[s.dst_id] && !secs[s.dst_id].ephemeral
        && secs[s.dst_id].typ == s.typ && secs[s.dst_id].exec == s.exec
        && (s.typ != SHT_NOBITS ==>
              s.dst_off + s.size <= |secs[s.dst_id].raw| && secs[s.dst_id].raw[s.dst_off..s.dst_off + s.size] == s.data))
  }

  /** Output sections only grow at their ends. */
  ghost predicate GrownAt(secs: seq<DstSec>, pieces: seq<seq<Piece>>, secs2: seq<DstSec>, pieces2: seq<seq<Piece>>, d: nat)
    requires d < |secs| == |pieces| && d < |secs2| == |pieces2|
  {
    && secs2[d].name == secs[d].name && pieces[d] <= pieces2[d] && secs[d].raw <= secs2[d].raw
    && (!secs[d].ephemeral ==> !secs2[d].ephemeral && secs2[d].typ == secs[d].typ && secs2[d].exec == secs[d].exec)
  }

  ghost predicate Grown(secs: seq<DstSec>, pieces: seq<seq<Piece>>, secs2: seq<DstSec>, pieces2: seq<seq<Piece>>) {
    && |secs| == |pieces| && |secs2| == |pieces2| && |secs| <= |secs2|
    && forall d {:trigger GrownAt(secs, pieces, secs2, pieces2, d)} :: 0 <= d < |secs| ==> GrownAt(secs, pieces, secs2, pieces2, d)
  }

  lemma {:induction false} PlacedStays(secs: seq<DstSec>, pieces: seq<seq<Piece>>, secs2: seq<DstSec>, pieces2: seq<seq<Piece>>, s: SrcSec)
    requires Grown(secs, pieces, secs2, pieces2) && PlacedAt(secs, pieces, s)
    ensures PlacedAt(secs2, pieces2, s)
  {
    assert GrownAt(secs, pieces, secs2, pieces2, s.dst_id);
    if !s.ephemeral && s.typ != SHT_NOBITS {
      var a, b := secs[s.dst_id].raw, secs2[s.dst_id].raw;
      assert b[s.dst_off..s.dst_off + s.size] == a[s.dst_off..s.dst_off + s.size];
    }
  }

  /** Where two source sections went to the same output section, the one lies before the other. */
  predicate InOrder(s: SrcSec, t: SrcSec) {
    s.ephemeral || t.ephemeral || s.dst_id != t.dst_id || s.dst_off + s.size <= t.dst_off
  }

  /** Data sections have places of their own, in the order of the file. */
  ghost predicate Apart(secs: seq<SrcSec>, n: nat) {
    forall i, j :: 1 <= i < j < n && j < |secs| && IsDataSec(secs[i]) && IsDataSec(secs[j]) ==> InOrder(secs[i], secs[j])
  }

  lemma {:induction false} PlacedWithin(secs: seq<DstSec>, pieces: seq<seq<Piece>>, s: SrcSec)
    requires PlacedAt(secs, pieces, s) && !s.ephemeral && SecOk(secs[s.dst_id], pieces[s.dst_id])
    ensures s.dst_off + s.size <= secs[s.dst_id].sz
  {
    var ps := pieces[s.dst_id];
    var i :| 0 <= i < |ps| && ps[i] == Piece(s.dst_off, s.size, s.align);
    assert PieceAt(secs[s.dst_id], ps, i);
  }

  lemma {:induction false} GrownTrans(a: seq<DstSec>, p: seq<seq<Piece>>, b: seq<DstSec>, q: seq<seq<Piece>>, c: seq<DstSec>, r: seq<seq<Piece>>)
    requires Grown(a, p, b, q) && Grown(b, q, c, r)
    ensures Grown(a, p, c, r)
  {
    forall d | 0 <= d < |a| ensures GrownAt(a, p, c, r, d) {
      assert GrownAt(a, p, b, q, d) && GrownAt(b, q, c, r, d);
    }
  }

  /** `extend_sec` on one section of many. */
  lemma {:induction false} ExtendedSecs(secs: seq<DstSec>, pieces: seq<seq<Piece>>, d: nat, s: SrcSec)
    requires |secs| == |pieces| && d < |secs| && s.dst_id == d && secs[d].name == s.name && NewOff(secs[d], s) >= secs[d].sz
    requires forall e {:trigger SecOk(secs[e], pieces[e])} :: 0 <= e < |secs| ==> SecOk(secs[e], pieces[e])
    requires !s.ephemeral && !secs[d].ephemeral && secs[d].typ == s.typ && secs[d].exec == s.exec && SrcSecOk(s)
    ensures var off: nat := NewOff(secs[d], s);
            var secs2, pieces2 := secs[d := Extended(secs[d], s)], pieces[d := pieces[d] + [Piece(off, s.size, s.align)]];
            && (forall e {:trigger SecOk(secs2[e], pieces2[e])} :: 0 <= e < |secs2| ==> SecOk(secs2[e], pieces2[e]))
            && Grown(secs, pieces, secs2, pieces2) && PlacedAt(secs2, pieces2, s.(dst_off := off))
  {
    var off: nat, e := NewOff(secs[d], s), Extended(secs[d], s);
    assert SecOk(secs[d], pieces[d]);
    ExtendKeeps(secs[d], pieces[d], s);
    var secs2, pieces2 := secs[d := e], pieces[d := pieces[d] + [Piece(off, s.size, s.align)]];
    assert pieces2[d][|pieces[d]|] == Piece(off, s.size, s.align);
    if s.typ != SHT_NOBITS {
      var tail := e.raw[off..];
      assert tail == s.data && e.raw[off..off + s.size] == tail[..s.size];
    }
    forall x | 0 <= x < |secs2| ensures SecOk(secs2[x], pieces2[x]) {
      if x != d { assert SecOk(secs[x], pieces[x]); }
    }
    forall x | 0 <= x < |secs| ensures GrownAt(secs, pieces, secs2, pieces2, x) {
      if x == d { PrefixAppend(pieces[d], [Piece(off, s.size, s.align)]); }
    }
  }

  lemma {:induction false} PrefixAppend<T>(a: seq<T>, b: seq<T>)
    ensures a <= a + b
  {
  }

  /** The first output section of that name, the unused section 0 left out. */
  function DstNamed(secs: seq<DstSec>, name: string, from: nat): (d: nat)
    requires from <= |secs|
    ensures from <= d <= |secs| && (d < |secs| ==> secs[d].name == name) && forall e :: from <= e < d ==> secs[e].name != name
    decreases |secs| - from
  {
    if from == |secs| || secs[from].name == name then from else DstNamed(secs, name, from + 1)
  }

  predicate Deduped(s: SrcSec) {
    s.name == "license" || s.name == "version"
  }

  /** Why a source section is refused: its output section is of another kind, or a license or version differs. */
  function Refusal(secs: seq<DstSec>, s: SrcSec): int
    requires |secs| >= 1
  {
    var d := DstNamed(secs, s.name, 1);
    if !IsDataSec(s) || d == |secs| then 0
    else if !SecsMatch(secs[d], s) then -1
    else if Deduped(s) && !(secs[d].sz == s.size && secs[d].raw == s.data) then -EINVAL
    else 0
  }

  class ObjFile {
    var secs: seq<SrcSec>
    constructor (secs: seq<SrcSec>) ensures this.secs == secs { this.secs := secs; }
  }

  class Output {
    var secs: seq<DstSec>
    ghost var pieces: seq<seq<Piece>>

    ghost predicate Valid()
      reads this
    {
      && |secs| == |pieces| && |secs| >= 1
      && forall d {:trigger SecOk(secs[d], pieces[d])} :: 0 <= d < |secs| ==> SecOk(secs[d], pieces[d])
    }

    /** Only the unused section 0. */
    constructor ()
      ensures Valid() && |secs| == 1
    {
      secs, pieces := [DstSec("", true, 0, false, 0, 0, 0, 0, [])], [[]];
    }

    /** `find_dst_sec_by_name`. */
    method FindDstSec(name: string) returns (d: nat)
      requires |secs| >= 1
      ensures d == DstNamed(secs, name, 1)
    {
      d := 1;
      while d < |secs|
        invariant 1 <= d <= DstNamed(secs, name, 1)
      {
        if secs[d].name == name { return; }
        d := d + 1;
      }
    }

    /** `init_sec`: an output section takes its kind from the first source section that has contents. */
    method InitSec(d: nat, s: SrcSec)
      requires Valid() && d < |secs| && pieces[d] == [] && secs[d].raw == [] && SrcSecOk(s)
      modifies this`secs
      ensures Valid() && secs == old(secs)[d := secs[d]] && secs[d].name == old(secs[d].name)
      ensures secs[d].ephemeral == s.ephemeral && secs[d].raw == [] && secs[d].sz == 0
      ensures !s.ephemeral ==> SecsMatch(secs[d], s) && secs[d].typ == s.typ && secs[d].exec == s.exec
    {
      var n := if s.ephemeral then secs[d].(sz := 0, ephemeral := true)
               else secs[d].(sz := 0, ephemeral := false, typ := s.typ, exec := s.exec, flags := s.flags, entsize := s.entsize, align := s.align);
      MultipleSelf(8);
      assert SecOk(secs[d], pieces[d]);
      secs := secs[d := n];
      forall e | 0 <= e < |secs| ensures SecOk(secs[e], pieces[e]) {
        if e != d { assert SecOk(old(secs)[e], pieces[e]); }
      }
    }

    /** `extend_sec`. */
    method ExtendSec(d: nat, obj: ObjFile, i: nat)
      requires Valid() && i < |obj.secs| && d < |secs| && SrcSecOk(obj.secs[i]) && SecsMatch(secs[d], obj.secs[i])
      requires obj.secs[i].dst_id == d && secs[d].name == obj.secs[i].name
      modifies this, obj
      ensures Valid() && Grown(old(secs), old(pieces), secs, pieces)
      ensures |secs| == |old(secs)| && |obj.secs| == |old(obj.secs)|
      ensures obj.secs == old(obj.secs)[i := old(obj.secs[i]).(dst_off := obj.secs[i].dst_off)]
      ensures PlacedAt(secs, pieces, obj.secs[i])
      ensures !obj.secs[i].ephemeral ==> obj.secs[i].dst_off >= old(secs[d].sz)
    {
      hide Extended, NewOff;
      var s := obj.secs[i];
      if s.ephemeral {
        assert forall e :: 0 <= e < |secs| ==> GrownAt(secs, pieces, secs, pieces, e);
        return;
      }
      assert SecOk(secs[d], pieces[d]);
      if secs[d].ephemeral { InitSec(d, s); }
      assert forall e :: 0 <= e < |secs| ==> GrownAt(old(secs), old(pieces), secs, pieces, e);
      ghost var a, p := secs, pieces;
      ghost var ps := pieces[d];
      assert SecOk(secs[d], ps);
      ExtendKeeps(secs[d], ps, s);
      ExtendedSecs(secs, pieces, d, s);
      obj.secs := obj.secs[i := s.(dst_off := NewOff(secs[d], s))];
      pieces := pieces[d := ps + [Piece(NewOff(secs[d], s), s.size, s.align)]];
      secs := secs[d := Extended(secs[d], s)];
      GrownTrans(old(secs), old(pieces), a, p, secs, pieces);
    }

    /** `add_dst_sec`, and `init_sec` on it. */
    method AddDstSec(s: SrcSec) returns (d: nat)
      requires Valid() && SrcSecOk(s)
      modifies this
      ensures Valid() && Grown(old(secs), old(pieces), secs, pieces)
      ensures d == |old(secs)| && |secs| == d + 1 && secs[d].name == s.name && SecsMatch(secs[d], s)
    {
      d := |secs|;
      var n := DstSec(s.name, true, 0, false, 0, 0, 0, 0, []);
      assert SecOk(n, []);
      secs, pieces := secs + [n], pieces + [[]];
      forall e | 0 <= e < |secs| ensures SecOk(secs[e], pieces[e]) {
        if e < d { assert SecOk(old(secs)[e], old(pieces)[e]); }
      }
      InitSec(d, s);
      assert forall e :: 0 <= e < d ==> GrownAt(old(secs), old(pieces), secs, pieces, e);
    }

    /** The output section of a data section: found or new; -1 if it is of another kind. */
    method TargetSec(s: SrcSec) returns (d: nat, err: int, found: bool)
      requires Valid() && SrcSecOk(s)
      modifies this
      ensures Valid() && Grown(old(secs), old(pieces), secs, pieces)
      ensures err == 0 ==> d < |secs| && secs[d].name == s.name && SecsMatch(secs[d], s)
      ensures d == DstNamed(old(secs), s.name, 1) && (found <==> d < |old(secs)|) && (found ==> secs == old(secs))
      ensures err == if found && !SecsMatch(secs[d], s) then -1 else 0
    {
      err, found := 0, false;
      d := FindDstSec(s.name);
      assert forall e :: 0 <= e < |secs| ==> GrownAt(secs, pieces, secs, pieces, e);
      if d == |secs| {
        d := AddDstSec(s);
      } else {
        found := true;
        if !SecsMatch(secs[d], s) { err := -1; }
      }
    }

    /** `linker_append_sec_data`: every data section of the file ends up in a place of its own. */
    method AppendSecData(obj: ObjFile) returns (err: int)
      requires Valid() && forall i :: 1 <= i < |obj.secs| ==> SrcSecOk(obj.secs[i])
      modifies this, obj
      ensures Valid() && Grown(old(secs), old(pieces), secs, pieces) && |obj.secs| == |old(obj.secs)|
      ensures err == 0 ==> forall i :: 1 <= i < |obj.secs| && IsDataSec(obj.secs[i]) ==> PlacedAt(secs, pieces, obj.secs[i])
      ensures err == 0 ==> Apart(obj.secs, |obj.secs|)
      ensures err == 0 || err == -1 || err == -EINVAL
      ensures forall i :: 0 <= i < |obj.secs| ==> OnlyMoved(old(obj.secs)[i], obj.secs[i])
    {
      assert forall e :: 0 <= e < |secs| ==> GrownAt(secs, pieces, secs, pieces, e);
      err := 0;
      if |obj.secs| == 0 { return; }
      for i := 1 to |obj.secs|
        invariant Valid() && Grown(old(secs), old(pieces), secs, pieces) && |obj.secs| == |old(obj.secs)|
        invariant forall j :: i <= j < |obj.secs| ==> obj.secs[j] == old(obj.secs)[j]
        invariant forall j :: 1 <= j < i && IsDataSec(obj.secs[j]) ==> PlacedAt(secs, pieces, obj.secs[j])
        invariant Apart(obj.secs, i)
        invariant forall j :: 0 <= j < |obj.secs| ==> OnlyMoved(old(obj.secs)[j], obj.secs[j])
      {
        ghost var a, p := secs, pieces;
        err := AppendSec(obj, i);
        GrownTrans(old(secs), old(pieces), a, p, secs, pieces);
        if err != 0 { return; }
        forall j | 1 <= j < i && IsDataSec(obj.secs[j])
          ensures PlacedAt(secs, pieces, obj.secs[j])
          ensures IsDataSec(obj.secs[i]) ==> InOrder(obj.secs[j], obj.secs[i]) {
          PlacedStays(a, p, secs, pieces, obj.secs[j]);
          if !obj.secs[j].ephemeral { PlacedWithin(a, p, obj.secs[j]); }
        }
      }
    }

    /** One round of the loop. */
    method AppendSec(obj: ObjFile, i: nat) returns (err: int)
      requires Valid() && i < |obj.secs| && SrcSecOk(obj.secs[i])
      modifies this, obj
      ensures Valid() && Grown(old(secs), old(pieces), secs, pieces) && |obj.secs| == |old(obj.secs)|
      ensures err == 0 && IsDataSec(obj.secs[i]) ==> PlacedAt(secs, pieces, obj.secs[i])
      ensures err == 0 && IsDataSec(obj.secs[i]) && !obj.secs[i].ephemeral && obj.secs[i].dst_id < |old(secs)| ==>
                obj.secs[i].dst_off >= old(secs)[obj.secs[i].dst_id].sz
      ensures err == Refusal(old(secs), old(obj.secs[i]))
      ensures obj.secs == old(obj.secs)[i := obj.secs[i]]
      ensures OnlyMoved(old(obj.secs)[i], obj.secs[i])
    {
      var s := obj.secs[i];
      assert forall e :: 0 <= e < |secs| ==> GrownAt(secs, pieces, secs, pieces, e);
      if !IsDataSec(s) { return 0; }
      var d, e, found := TargetSec(s);
      if e != 0 { return e; }
      if found && Deduped(s) {
        if !(secs[d].sz == s.size && secs[d].raw == s.data) { return -EINVAL; }
        obj.secs := obj.secs[i := s.(skipped := true, dst_id := d)];
        return 0;
      }
      obj.secs := obj.secs[i := s.(dst_id := d)];
      ghost var a, p := secs, pieces;
      ExtendSec(d, obj, i);
      GrownTrans(old(secs), old(pieces), a, p, secs, pieces);
      err := 0;
    }
  }
}
