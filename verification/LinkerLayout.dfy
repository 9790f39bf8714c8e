/** Section layout and relocation of the static linker (linker.c). */
module LinkerLayout {
  import opened Common
  import opened Bytes

  const SHT_PROGBITS := 1
  const SHT_NOBITS := 8

  /** `is_pow_of_2`. */
  predicate IsPow2(x: int) {
    x == 1 || (x > 1 && x % 2 == 0 && IsPow2(x / 2))
  }

  ghost predicate Multiple(x: int, a: int) {
    exists k: nat {:trigger k * a} :: x == k * a
  }

  /** The next multiple of `a`. */
  function AlignUp(sz: nat, a: nat): int
    requires a > 0
  {
    (sz + a - 1) / a * a
  }

  lemma {:induction false} DivUnique(x: int, a: int, k: int, r: int)
    requires a > 0 && 0 <= r < a && x == k * a + r
    ensures x / a == k
  {
    var q := x / a;
    assert x == q * a + x % a;
    assert (q - k) * a == r - x % a;
    MulSign(q - k, a);
  }

  lemma {:induction false} MulSign(m: int, a: int)
    requires a > 0
    ensures (m >= 1 ==> m * a >= a) && (m <= -1 ==> m * a <= -a)
  {
  }

  lemma {:induction false} AlignUpFacts(sz: nat, a: nat)
    requires a > 0
    ensures sz <= AlignUp(sz, a) < sz + a && Multiple(AlignUp(sz, a), a)
    ensures Multiple(sz, a) ==> AlignUp(sz, a) == sz
  {
    var q := (sz + a - 1) / a;
    assert sz + a - 1 == q * a + (sz + a - 1) % a;
    assert q >= 0;
    if Multiple(sz, a) {
      var k: nat :| sz == k * a;
      DivUnique(sz + a - 1, a, k, a - 1);
    }
  }

  lemma {:induction false} MultipleTrans(x: int, a: int, b: int)
    requires Multiple(x, a) && Multiple(a, b)
    ensures Multiple(x, b)
  {
    var k: nat :| x == k * a;
    var l: nat :| a == l * b;
    assert k * (l * b) == (k * l) * b;
    assert x == (k * l) * b && k * l >= 0;
  }

  lemma {:induction false} MultipleSum(x: int, y: int, a: int)
    requires Multiple(x, a) && Multiple(y, a)
    ensures Multiple(x + y, a)
  {
    var k: nat :| x == k * a;
    var l: nat :| y == l * a;
    assert (k + l) * a == x + y;
  }

  lemma {:induction false} MultipleSelf(a: int)
    ensures Multiple(a, a) && Multiple(0, a)
  {
    assert 1 * a == a && 0 * a == 0;
  }

  /** The greater of two powers of two is a multiple of the other. */
  lemma {:induction false} Pow2Multiple(a: int, b: int)
    requires IsPow2(a) && IsPow2(b) && a <= b
    ensures Multiple(b, a)
    decreases b
  {
    if a == b {
      MultipleSelf(a);
    } else {
      Pow2Half(a, b);
      Pow2Multiple(a, b / 2);
      var k: nat :| b / 2 == k * a;
      assert b == (2 * k) * a;
    }
  }

  lemma {:induction false} Pow2Half(a: int, b: int)
    requires IsPow2(a) && IsPow2(b) && a < b
    ensures a <= b / 2
    decreases b
  {
    if a > 1 { Pow2Half(a / 2, b / 2); }
  }

  /** A section of an object file; `dst_id` and `dst_off` say where it goes. */
  datatype SrcSec = SrcSec(name: string, ephemeral: bool, skipped: bool, typ: int, exec: bool, flags: int, entsize: int,
                           align: nat, size: nat, data: seq<byte>, dst_id: nat, dst_off: nat)

  datatype DstSec = DstSec(name: string, ephemeral: bool, typ: int, exec: bool, flags: int, entsize: int,
                           align: nat, sz: nat, raw: seq<byte>)

  /** Where a source section's contents lie in an output section, and its alignment. */
  datatype Piece = Piece(off: nat, size: nat, align: nat)

  /** What the sanity checks of an object file establish. */
  ghost predicate SrcSecOk(s: SrcSec) {
    s.ephemeral ||
    ( && (s.align == 0 || IsPow2(s.align))
      && (s.typ != SHT_NOBITS ==> |s.data| == s.size)
      && (s.typ == SHT_PROGBITS && s.exec ==> Multiple(s.size, 8)))
  }

  ghost predicate Covered(ps: seq<Piece>, b: int) {
    exists i :: 0 <= i < |ps| && ps[i].off <= b < ps[i].off + ps[i].size
  }

  lemma {:induction false} CoveredMore(ps: seq<Piece>, p: Piece, b: int)
    ensures Covered(ps, b) ==> Covered(ps + [p], b)
  {
    assert forall i :: 0 <= i < |ps| ==> (ps + [p])[i] == ps[i];
  }

  /** Piece `i` lies in the section after the earlier ones, aligned. */
  ghost predicate PieceAt(s: DstSec, ps: seq<Piece>, i: nat)
    requires i < |ps|
  {
    && ps[i].off + ps[i].size <= s.sz
    && (ps[i].align > 0 ==> Multiple(ps[i].off, ps[i].align))
    && (s.typ == SHT_PROGBITS && s.exec ==> Multiple(ps[i].off, 8))
    && forall j :: 0 <= j < i ==> ps[j].off + ps[j].size <= ps[i].off
  }

  /** The layout of an output section: disjoint aligned pieces, zeroes elsewhere. */
  ghost predicate SecOk(s: DstSec, ps: seq<Piece>) {
    && (s.ephemeral ==> s.sz == 0 && ps == [] && s.raw == [])
    && (s.align == 0 || IsPow2(s.align))
    && |s.raw| == (if s.typ == SHT_NOBITS || s.ephemeral then 0 else s.sz)
    && (s.typ == SHT_PROGBITS && s.exec ==> Multiple(s.sz, 8))
    && (forall i {:trigger PieceAt(s, ps, i)} :: 0 <= i < |ps| ==> PieceAt(s, ps, i))
    && (forall b :: 0 <= b < |s.raw| && !Covered(ps, b) ==> s.raw[b] == 0)
  }

  function Zeroes(n: nat): (z: seq<byte>)
    ensures |z| == n && forall i :: 0 <= i < n ==> z[i] == 0
  {
    seq(n, _ => 0)
  }

  /** Where `extend_sec` puts a section, and the alignment of the output section afterwards. */
  function NewAlign(d: DstSec, s: SrcSec): nat {
    Max(if d.align == 0 then 1 else d.align, s.align)
  }

  function NewOff(d: DstSec, s: SrcSec): int {
    AlignUp(d.sz, NewAlign(d, s))
  }

  /** `extend_sec` on an output section that is not ephemeral. */
  function Extended(d: DstSec, s: SrcSec): DstSec
    requires s.typ != SHT_NOBITS ==> NewOff(d, s) >= d.sz
  {
    d.(align := NewAlign(d, s), sz := Max(0, NewOff(d, s) + s.size),
       raw := if s.typ == SHT_NOBITS then d.raw else d.raw + Zeroes(NewOff(d, s) - d.sz) + s.data)
  }

  lemma {:induction false} NewOffFacts(d: DstSec, ps: seq<Piece>, s: SrcSec)
    requires SecOk(d, ps) && SrcSecOk(s) && !s.ephemeral && d.typ == s.typ && d.exec == s.exec
    ensures IsPow2(NewAlign(d, s)) && NewOff(d, s) >= d.sz
    ensures s.align > 0 ==> Multiple(NewOff(d, s), s.align)
    ensures s.typ == SHT_PROGBITS && s.exec ==> Multiple(NewOff(d, s), 8)
  {
    var a, off := NewAlign(d, s), NewOff(d, s);
    AlignUpFacts(d.sz, a);
    if s.align > 0 {
      Pow2Multiple(s.align, a);
      MultipleTrans(off, a, s.align);
    }
    if s.typ == SHT_PROGBITS && s.exec {
      assert IsPow2(2) && IsPow2(4) && IsPow2(8);
      if a >= 8 {
        Pow2Multiple(8, a);
        MultipleTrans(off, a, 8);
      } else {
        Pow2Multiple(a, 8);
        MultipleTrans(d.sz, 8, a);
      }
    }
  }

  /** Extending a section keeps its layout, and everything it held before. */
  lemma {:induction false} ExtendKeeps(d: DstSec, ps: seq<Piece>, s: SrcSec)
    requires SecOk(d, ps) && SrcSecOk(s) && !s.ephemeral && !d.ephemeral && d.typ == s.typ && d.exec == s.exec
    ensures NewOff(d, s) >= d.sz
    ensures SecOk(Extended(d, s), ps + [Piece(NewOff(d, s), s.size, s.align)])
    ensures s.typ != SHT_NOBITS ==> d.raw <= Extended(d, s).raw && Extended(d, s).raw[NewOff(d, s)..] == s.data
  {
    NewOffFacts(d, ps, s);
    var off: nat, e := NewOff(d, s), Extended(d, s);
    var qs := ps + [Piece(off, s.size, s.align)];
    forall i | 0 <= i < |qs| ensures PieceAt(e, qs, i) {
      if i < |ps| { assert PieceAt(d, ps, i); }
      forall j | 0 <= j < i ensures qs[j].off + qs[j].size <= qs[i].off { assert PieceAt(d, ps, j); }
    }
    if s.typ == SHT_PROGBITS && s.exec { MultipleSum(off, s.size, 8); }
    forall b | 0 <= b < |e.raw| && !Covered(qs, b) ensures e.raw[b] == 0 {
      CoveredMore(ps, Piece(off, s.size, s.align), b);
      assert qs[|ps|].off == off;
    }
  }
}
