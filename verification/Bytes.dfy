/** Bytes, little-endian words, and byte swapping. */
module Bytes {
  import opened Common

  type byte = x: int | 0 <= x < 256
  type u16 = x: int | 0 <= x < 0x1_0000

  function FromBytes(a: int, b: int, c: int, d: int): int {
    a + 0x100 * b + 0x1_0000 * c + 0x100_0000 * d
  }

  /** Byte `k` of a word. */
  function ByteOf(v: nat, k: nat): byte {
    if k == 0 then v % 0x100 else ByteOf(v / 0x100, k - 1)
  }

  lemma {:induction false} BytesRound(v: u32)
    ensures FromBytes(ByteOf(v, 0), ByteOf(v, 1), ByteOf(v, 2), ByteOf(v, 3)) == v
  {
    var v1 := v / 0x100;
    var v2 := v1 / 0x100;
    var v3 := v2 / 0x100;
    assert v == v % 0x100 + 0x100 * v1 && v1 == v1 % 0x100 + 0x100 * v2 && v2 == v2 % 0x100 + 0x100 * v3;
    assert v3 < 0x100;
    assert ByteOf(v, 1) == v1 % 0x100 && ByteOf(v1, 1) == v2 % 0x100 && ByteOf(v2, 1) == v3 % 0x100;
    assert ByteOf(v, 2) == ByteOf(v1, 1) && ByteOf(v, 3) == ByteOf(v1, 2) == ByteOf(v2, 1);
  }

  lemma {:induction false} ByteOfFrom(a: byte, b: byte, c: byte, d: byte)
    ensures 0 <= FromBytes(a, b, c, d) < 0x1_0000_0000
    ensures var v := FromBytes(a, b, c, d); ByteOf(v, 0) == a && ByteOf(v, 1) == b && ByteOf(v, 2) == c && ByteOf(v, 3) == d
  {
    var v1 := b + 0x100 * c + 0x1_0000 * d;
    var v2 := c + 0x100 * d;
    var v := a + 0x100 * v1;
    assert v == FromBytes(a, b, c, d) && v / 0x100 == v1 && v1 / 0x100 == v2 && v2 / 0x100 == d;
    assert ByteOf(v, 1) == ByteOf(v1, 0) && ByteOf(v, 2) == ByteOf(v1, 1) == ByteOf(v2, 0);
    assert ByteOf(v, 3) == ByteOf(v1, 2) == ByteOf(v2, 1) == ByteOf(d, 0);
  }

  /** `bswap_16`. */
  function Bswap16(v: u16): u16 { v % 0x100 * 0x100 + v / 0x100 }

  /** `bswap_32`. */
  function Bswap32(v: u32): (w: u32)
  {
    ByteOfFrom(ByteOf(v, 3), ByteOf(v, 2), ByteOf(v, 1), ByteOf(v, 0));
    FromBytes(ByteOf(v, 3), ByteOf(v, 2), ByteOf(v, 1), ByteOf(v, 0))
  }

  lemma {:induction false} Bswap32Twice(v: u32)
    ensures Bswap32(Bswap32(v)) == v
  {
    ByteOfFrom(ByteOf(v, 3), ByteOf(v, 2), ByteOf(v, 1), ByteOf(v, 0));
    BytesRound(v);
  }

  /** The words as bytes of a little-endian machine. */
  function WordBytes(ws: seq<u32>): (bs: seq<byte>)
    ensures |bs| == 4 * |ws|
  {
    seq(4 * |ws|, j requires 0 <= j < 4 * |ws| => ByteOf(ws[j / 4], j % 4))
  }

  /** The word at byte `o`. */
  function ReadWord(bs: seq<byte>, o: nat): u32
    requires o + 4 <= |bs|
  {
    ByteOfFrom(bs[o], bs[o + 1], bs[o + 2], bs[o + 3]);
    FromBytes(bs[o], bs[o + 1], bs[o + 2], bs[o + 3])
  }

  function ReadWords(bs: seq<byte>): (ws: seq<u32>)
    ensures |ws| == |bs| / 4
  {
    seq(|bs| / 4, i requires 0 <= i < |bs| / 4 => ReadWord(bs, 4 * i))
  }

  lemma {:induction false} ReadWordAt(ws: seq<u32>, bs: seq<byte>, o: nat, i: nat)
    requires i < |ws| && o + 4 <= |bs| && forall k :: 0 <= k < 4 ==> bs[o + k] == ByteOf(ws[i], k)
    ensures ReadWord(bs, o) == ws[i]
  {
    assert bs[o + 0] == ByteOf(ws[i], 0) && bs[o + 1] == ByteOf(ws[i], 1) && bs[o + 2] == ByteOf(ws[i], 2) && bs[o + 3] == ByteOf(ws[i], 3);
    BytesRound(ws[i]);
  }

  lemma {:induction false} WordsRound(ws: seq<u32>)
    ensures ReadWords(WordBytes(ws)) == ws
  {
    var bs := WordBytes(ws);
    forall i | 0 <= i < |ws| ensures ReadWords(bs)[i] == ws[i] {
      forall k | 0 <= k < 4 ensures bs[4 * i + k] == ByteOf(ws[i], k) {
        assert (4 * i + k) / 4 == i && (4 * i + k) % 4 == k;
      }
      ReadWordAt(ws, bs, 4 * i, i);
    }
  }

  function SwapAll(ws: seq<u32>): (vs: seq<u32>)
    ensures |vs| == |ws| && forall i :: 0 <= i < |ws| ==> vs[i] == Bswap32(ws[i])
  {
    seq(|ws|, i requires 0 <= i < |ws| => Bswap32(ws[i]))
  }

  lemma {:induction false} SwapAllTwice(ws: seq<u32>)
    ensures SwapAll(SwapAll(ws)) == ws
  {
    forall i | 0 <= i < |ws| ensures SwapAll(SwapAll(ws))[i] == ws[i] { Bswap32Twice(ws[i]); }
  }
}
