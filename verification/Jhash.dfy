/** Jenkins hashing of bytes and of words (jhash.h), on a little-endian machine. A word is a number below 2^32. */
module Jhash {
  import opened Common
  import opened Bytes

  const INITVAL := 0xdead_beef
  const W := 0x1_0000_0000

  /** Exclusive or of the low `n` bits. */
  function XorBits(x: nat, y: nat, n: nat): (r: nat)
    ensures r < Pow2(n)
  {
    if n == 0 then 0 else (x % 2 + y % 2) % 2 + 2 * XorBits(x / 2, y / 2, n - 1)
  }

  lemma {:induction false} Halves(low: nat, high: nat)
    requires low < 2
    ensures (low + 2 * high) % 2 == low && (low + 2 * high) / 2 == high
  {
  }

  lemma {:induction false} BitTwice(x: nat, y: nat)
    requires x < 2 && y < 2
    ensures ((x + y) % 2 + y) % 2 == x
  {
  }

  lemma {:induction false} XorTwiceBits(x: nat, y: nat, n: nat)
    requires x < Pow2(n)
    ensures XorBits(XorBits(x, y, n), y, n) == x
  {
    if n > 0 {
      var low, high := (x % 2 + y % 2) % 2, XorBits(x / 2, y / 2, n - 1);
      Halves(low, high);
      BitTwice(x % 2, y % 2);
      XorTwiceBits(x / 2, y / 2, n - 1);
      assert XorBits(x, y, n) == low + 2 * high;
    }
  }

  lemma {:induction false} Pow2Adds(a: nat, b: nat)
    ensures Pow2(a + b) == Pow2(a) * Pow2(b)
    decreases a
  {
    if a > 0 { Pow2Adds(a - 1, b); }
  }

  lemma {:induction false} Pow2Of32()
    ensures Pow2(32) == W
  {
    assert Pow2(4) == 16;
    Pow2Adds(4, 4);
    Pow2Adds(8, 8);
    Pow2Adds(16, 16);
  }

  function Xor(x: u32, y: u32): u32 {
    Pow2Of32(); XorBits(x, y, 32)
  }

  function Plus(x: int, y: int): u32 { (x + y) % W }

  function Minus(x: int, y: int): u32 { (x - y) % W }

  /** `rol32`: the bits shifted out on the left come in on the right. */
  function Rol32(w: u32, shift: nat): u32
    requires 0 < shift < 32
  {
    (w * Pow2(shift) + w / Pow2(32 - shift)) % W
  }

  datatype State = State(a: u32, b: u32, c: u32)

  /** One line of `__jhash_mix`, on its three variables in the order they are used. */
  function Line(p: u32, q: u32, r: u32, shift: nat): (u32, u32)
    requires 0 < shift < 32
  {
    (Xor(Minus(p, r), Rol32(r, shift)), Plus(r, q))
  }

  /** The line undone. */
  function UnLine(p: u32, q: u32, r: u32, shift: nat): (u32, u32)
    requires 0 < shift < 32
  {
    (Plus(Xor(p, Rol32(Minus(r, q), shift)), Minus(r, q)), Minus(r, q))
  }

  lemma {:induction false} XorTwice(x: u32, y: u32)
    ensures Xor(Xor(x, y), y) == x
  {
    Pow2Of32();
    XorTwiceBits(x, y, 32);
  }

  lemma {:induction false} AddBack(x: u32, y: u32)
    ensures Plus(Minus(x, y), y) == x && Minus(Plus(x, y), y) == x
  {
  }

  lemma {:induction false} LineUndone(p: u32, q: u32, r: u32, shift: nat)
    requires 0 < shift < 32
    ensures var l := Line(p, q, r, shift); UnLine(l.0, q, l.1, shift) == (p, r)
  {
    hide Rol32, Plus, Minus, Xor;
    AddBack(r, q);
    XorTwice(Minus(p, r), Rol32(r, shift));
    AddBack(p, r);
  }

  lemma {:induction false} LineRedone(p: u32, q: u32, r: u32, shift: nat)
    requires 0 < shift < 32
    ensures var u := UnLine(p, q, r, shift); Line(u.0, q, u.1, shift) == (p, r)
  {
    hide Rol32, Plus, Minus, Xor;
    var d := Minus(r, q);
    AddBack(Xor(p, Rol32(d, shift)), d);
    XorTwice(p, Rol32(d, shift));
    AddBack(r, q);
  }

  function LineA(s: State, shift: nat): State
    requires 0 < shift < 32
  {
    var l := Line(s.a, s.b, s.c, shift); State(l.0, s.b, l.1)
  }

  function LineB(s: State, shift: nat): State
    requires 0 < shift < 32
  {
    var l := Line(s.b, s.c, s.a, shift); State(l.1, l.0, s.c)
  }

  function LineC(s: State, shift: nat): State
    requires 0 < shift < 32
  {
    var l := Line(s.c, s.a, s.b, shift); State(s.a, l.1, l.0)
  }

  function UnLineA(s: State, shift: nat): State
    requires 0 < shift < 32
  {
    var l := UnLine(s.a, s.b, s.c, shift); State(l.0, s.b, l.1)
  }

  function UnLineB(s: State, shift: nat): State
    requires 0 < shift < 32
  {
    var l := UnLine(s.b, s.c, s.a, shift); State(l.1, l.0, s.c)
  }

  function UnLineC(s: State, shift: nat): State
    requires 0 < shift < 32
  {
    var l := UnLine(s.c, s.a, s.b, shift); State(s.a, l.1, l.0)
  }

  function Mix(s: State): State {
    LineC(LineB(LineA(LineC(LineB(LineA(s, 4), 6), 8), 16), 19), 4)
  }

  function UnMix(s: State): State {
    UnLineA(UnLineB(UnLineC(UnLineA(UnLineB(UnLineC(s, 4), 19), 16), 8), 6), 4)
  }

  lemma {:induction false} LinesInverse(s: State, shift: nat)
    requires 0 < shift < 32
    ensures UnLineA(LineA(s, shift), shift) == s && LineA(UnLineA(s, shift), shift) == s
    ensures UnLineB(LineB(s, shift), shift) == s && LineB(UnLineB(s, shift), shift) == s
    ensures UnLineC(LineC(s, shift), shift) == s && LineC(UnLineC(s, shift), shift) == s
  {
    hide Line, UnLine;
    LineUndone(s.a, s.b, s.c, shift);
    LineUndone(s.b, s.c, s.a, shift);
    LineUndone(s.c, s.a, s.b, shift);
    LineRedone(s.a, s.b, s.c, shift);
    LineRedone(s.b, s.c, s.a, shift);
    LineRedone(s.c, s.a, s.b, shift);
  }

  /** `__jhash_mix` is a bijection: `UnMix` undoes it, from either side. */
  lemma {:induction false} MixBijective(s: State)
    ensures UnMix(Mix(s)) == s && Mix(UnMix(s)) == s
  {
    hide LineA, LineB, LineC, UnLineA, UnLineB, UnLineC;
    var s1 := LineA(s, 4);
    var s2 := LineB(s1, 6);
    var s3 := LineC(s2, 8);
    var s4 := LineA(s3, 16);
    var s5 := LineB(s4, 19);
    LinesInverse(s, 4);
    LinesInverse(s1, 6);
    LinesInverse(s2, 8);
    LinesInverse(s3, 16);
    LinesInverse(s4, 19);
    LinesInverse(s5, 4);
    var u1 := UnLineC(s, 4);
    var u2 := UnLineB(u1, 19);
    var u3 := UnLineA(u2, 16);
    var u4 := UnLineC(u3, 8);
    var u5 := UnLineB(u4, 6);
    LinesInverse(u1, 19);
    LinesInverse(u2, 16);
    LinesInverse(u3, 8);
    LinesInverse(u4, 6);
    LinesInverse(u5, 4);
  }

  /** The macro, statement by statement. */
  method JhashMix(a0: u32, b0: u32, c0: u32) returns (a: u32, b: u32, c: u32)
    ensures State(a, b, c) == Mix(State(a0, b0, c0))
  {
    hide Plus, Minus, Xor, Rol32;
    a, b, c := a0, b0, c0;
    a := Minus(a, c); a := Xor(a, Rol32(c, 4)); c := Plus(c, b);
    b := Minus(b, a); b := Xor(b, Rol32(a, 6)); a := Plus(a, c);
    c := Minus(c, b); c := Xor(c, Rol32(b, 8)); b := Plus(b, a);
    a := Minus(a, c); a := Xor(a, Rol32(c, 16)); c := Plus(c, b);
    b := Minus(b, a); b := Xor(b, Rol32(a, 19)); a := Plus(a, c);
    c := Minus(c, b); c := Xor(c, Rol32(b, 4)); b := Plus(b, a);
  }

  /** One line of `__jhash_final`: a variable is mixed with the one used last. */
  function FinalLine(x: u32, y: u32, shift: nat): u32
    requires 0 < shift < 32
  {
    Minus(Xor(x, y), Rol32(y, shift))
  }

  function UnFinalLine(x: u32, y: u32, shift: nat): u32
    requires 0 < shift < 32
  {
    Xor(Plus(x, Rol32(y, shift)), y)
  }

  lemma {:induction false} FinalLineInverse(x: u32, y: u32, shift: nat)
    requires 0 < shift < 32
    ensures UnFinalLine(FinalLine(x, y, shift), y, shift) == x && FinalLine(UnFinalLine(x, y, shift), y, shift) == x
  {
    hide Rol32, Plus, Minus, Xor;
    AddBack(Xor(x, y), Rol32(y, shift));
    XorTwice(x, y);
    AddBack(x, Rol32(y, shift));
    XorTwice(Plus(x, Rol32(y, shift)), y);
  }

  /** `__jhash_final`. */
  function Finished(s: State): State {
    var c1 := FinalLine(s.c, s.b, 14);
    var a1 := FinalLine(s.a, c1, 11);
    var b1 := FinalLine(s.b, a1, 25);
    var c2 := FinalLine(c1, b1, 16);
    var a2 := FinalLine(a1, c2, 4);
    var b2 := FinalLine(b1, a2, 14);
    State(a2, b2, FinalLine(c2, b2, 24))
  }

  function UnFinish(s: State): State {
    var c2 := UnFinalLine(s.c, s.b, 24);
    var b1 := UnFinalLine(s.b, s.a, 14);
    var a1 := UnFinalLine(s.a, c2, 4);
    var c1 := UnFinalLine(c2, b1, 16);
    var b0 := UnFinalLine(b1, a1, 25);
    var a0 := UnFinalLine(a1, c1, 11);
    State(a0, b0, UnFinalLine(c1, b0, 14))
  }

  /** The final mixing loses nothing either: `UnFinish` undoes it, from either side. */
  lemma {:induction false} FinalBijective(s: State)
    ensures UnFinish(Finished(s)) == s && Finished(UnFinish(s)) == s
  {
    hide FinalLine, UnFinalLine;
    var f := Finished(s);
    var c1 := FinalLine(s.c, s.b, 14);
    var a1 := FinalLine(s.a, c1, 11);
    var b1 := FinalLine(s.b, a1, 25);
    var c2 := FinalLine(c1, b1, 16);
    FinalLineInverse(c2, f.b, 24);
    FinalLineInverse(b1, f.a, 14);
    FinalLineInverse(a1, c2, 4);
    FinalLineInverse(c1, b1, 16);
    FinalLineInverse(s.b, a1, 25);
    FinalLineInverse(s.a, c1, 11);
    FinalLineInverse(s.c, s.b, 14);
    FinishedAgain(s);
  }

  lemma {:induction false} FinishedAgain(s: State)
    ensures Finished(UnFinish(s)) == s
  {
    hide FinalLine, UnFinalLine;
    var u := UnFinish(s);
    var c2 := UnFinalLine(s.c, s.b, 24);
    var b1 := UnFinalLine(s.b, s.a, 14);
    var a1 := UnFinalLine(s.a, c2, 4);
    var c1 := UnFinalLine(c2, b1, 16);
    FinalLineInverse(c1, u.b, 14);
    FinalLineInverse(a1, c1, 11);
    FinalLineInverse(b1, a1, 25);
    FinalLineInverse(c2, b1, 16);
    FinalLineInverse(s.a, c2, 4);
    FinalLineInverse(s.b, s.a, 14);
    FinalLineInverse(s.c, s.b, 24);
  }

  /** Of the final state only `c` is used. */
  function Final(a0: u32, b0: u32, c0: u32): u32 {
    Finished(State(a0, b0, c0)).c
  }

  method JhashFinal(a0: u32, b0: u32, c0: u32) returns (c: u32)
    ensures c == Final(a0, b0, c0)
  {
    hide Plus, Minus, Xor, Rol32;
    var a, b := a0, b0;
    c := c0;
    c := Xor(c, b); c := Minus(c, Rol32(b, 14));
    a := Xor(a, c); a := Minus(a, Rol32(c, 11));
    b := Xor(b, a); b := Minus(b, Rol32(a, 25));
    c := Xor(c, b); c := Minus(c, Rol32(b, 16));
    a := Xor(a, c); a := Minus(a, Rol32(c, 4));
    b := Xor(b, a); b := Minus(b, Rol32(a, 14));
    c := Xor(c, b); c := Minus(c, Rol32(b, 24));
  }

  /** The initial value of all three variables, for a key of `len` bytes. */
  function Start(len: nat, initval: u32): u32 {
    (INITVAL + len + initval) % W
  }

  /** Taking in three words. */
  function Block(s: State, x: u32, y: u32, z: u32): State {
    Mix(State(Plus(s.a, x), Plus(s.b, y), Plus(s.c, z)))
  }

  /** All but the last block of a key of words. */
  function Absorb(s: State, k: seq<u32>): State
    decreases |k|
  {
    if |k| <= 3 then s else Absorb(Block(s, k[0], k[1], k[2]), k[3..])
  }

  /** The last block: one to three words. */
  function Last(s: State, k: seq<u32>): u32
    requires |k| <= 3
  {
    if |k| == 0 then s.c
    else Final(Plus(s.a, k[0]), if |k| >= 2 then Plus(s.b, k[1]) else s.b, if |k| == 3 then Plus(s.c, k[2]) else s.c)
  }

  /** The words of the last block. */
  function Tail(k: seq<u32>): (r: seq<u32>)
    ensures |r| <= 3
    decreases |k|
  {
    if |k| <= 3 then k else Tail(k[3..])
  }

  /** `jhash2` as a function. */
  function Hash2(k: seq<u32>, initval: u32): u32 {
    var v := Start(4 * |k| % W, initval);
    Last(Absorb(State(v, v, v), k), Tail(k))
  }

  /** `jhash2`. */
  method Jhash2(k: seq<u32>, initval: u32) returns (h: u32)
    requires |k| < W
    ensures h == Hash2(k, initval)
  {
    hide Mix, Final;
    var a := Start(4 * |k| % W, initval);
    var b, c := a, a;
    var i := 0;
    assert k[0..] == k;
    while |k| - i > 3
      invariant 0 <= i <= |k|
      invariant Absorb(State(a, b, c), k[i..]) == Absorb(State(Start(4 * |k| % W, initval), Start(4 * |k| % W, initval), Start(4 * |k| % W, initval)), k)
      invariant Tail(k[i..]) == Tail(k)
    {
      assert k[i..][3..] == k[i + 3..];
      a := Plus(a, k[i]);
      b := Plus(b, k[i + 1]);
      c := Plus(c, k[i + 2]);
      a, b, c := JhashMix(a, b, c);
      i := i + 3;
    }
    var n := |k| - i;
    if n >= 3 { c := Plus(c, k[i + 2]); }
    if n >= 2 { b := Plus(b, k[i + 1]); }
    if n >= 1 {
      a := Plus(a, k[i]);
      c := JhashFinal(a, b, c);
    }
    h := c;
  }

  /** `__jhash_nwords` and its callers. */
  method JhashNwords(a: u32, b: u32, c: u32, initval: u32) returns (h: u32)
    ensures h == Final(Plus(a, initval), Plus(b, initval), Plus(c, initval))
  {
    h := JhashFinal(Plus(a, initval), Plus(b, initval), Plus(c, initval));
  }

  method Jhash3Words(a: u32, b: u32, c: u32, initval: u32) returns (h: u32)
    ensures h == Hash2([a, b, c], initval)
  {
    hide Final, Absorb, Tail, Start;
    var v := Start(12, initval);
    AbsorbEnd(State(v, v, v), [a, b, c]);
    h := JhashNwords(a, b, c, v);
  }

  method Jhash2Words(a: u32, b: u32, initval: u32) returns (h: u32)
    ensures h == Hash2([a, b], initval)
  {
    hide Final;
    h := JhashNwords(a, b, 0, Start(8, initval));
  }

  method Jhash1Word(a: u32, initval: u32) returns (h: u32)
    ensures h == Hash2([a], initval)
  {
    hide Final;
    h := JhashNwords(a, 0, 0, Start(4, initval));
  }

  /** A key of bytes, filled up with zeroes to whole words. */
  function Pad(k: seq<byte>): (p: seq<byte>)
    ensures |p| % 4 == 0 && |k| <= |p| < |k| + 4
    ensures forall j :: 0 <= j < |p| ==> p[j] == if j < |k| then k[j] else 0
  {
    var n := (4 - |k| % 4) % 4;
    seq(|k| + n, j requires 0 <= j < |k| + n => if j < |k| then k[j] else 0)
  }

  /** `jhash` as a function: the words of the key, but the number of its bytes. */
  function HashBytes(k: seq<byte>, initval: u32): u32 {
    var v, ws := Start(|k|, initval), ReadWords(Pad(k));
    Last(Absorb(State(v, v, v), ws), Tail(ws))
  }

  /** `jhash` of the bytes of some words is `jhash2` of the words. */
  lemma {:induction false} BytesAsWords(ws: seq<u32>, initval: u32)
    requires 4 * |ws| < W
    ensures HashBytes(WordBytes(ws), initval) == Hash2(ws, initval)
  {
    hide Absorb, Last, Tail, WordBytes, ReadWords;
    WordsRound(ws);
    assert Pad(WordBytes(ws)) == WordBytes(ws);
  }

  lemma {:induction false} PadRest(k: seq<byte>, m: nat)
    requires 4 * m <= |k|
    ensures m <= |ReadWords(Pad(k))| && ReadWords(Pad(k[4 * m..])) == ReadWords(Pad(k))[m..]
  {
    hide ReadWord;
    var p, q, ws := Pad(k), Pad(k[4 * m..]), ReadWords(Pad(k));
    PadSize(k, m);
    var a, b := ReadWords(q), ws[m..];
    forall j | 0 <= j < |a| ensures a[j] == b[j] {
      PadByte(k, m, 4 * j);
      PadByte(k, m, 4 * j + 1);
      PadByte(k, m, 4 * j + 2);
      PadByte(k, m, 4 * j + 3);
      ReadSame(q, 4 * j, p, 4 * (m + j));
    }
  }

  lemma {:induction false} PadSize(k: seq<byte>, m: nat)
    requires 4 * m <= |k|
    ensures |Pad(k)| == |Pad(k[4 * m..])| + 4 * m && |Pad(k)| / 4 == |Pad(k[4 * m..])| / 4 + m
  {
  }

  lemma {:induction false} PadByte(k: seq<byte>, m: nat, j: nat)
    requires 4 * m <= |k| && j < |Pad(k[4 * m..])|
    ensures 4 * m + j < |Pad(k)| && Pad(k[4 * m..])[j] == Pad(k)[4 * m + j]
  {
    PadSize(k, m);
  }

  lemma {:induction false} ReadSame(q: seq<byte>, o: nat, p: seq<byte>, u: nat)
    requires o + 4 <= |q| && u + 4 <= |p|
    requires q[o] == p[u] && q[o + 1] == p[u + 1] && q[o + 2] == p[u + 2] && q[o + 3] == p[u + 3]
    ensures ReadWord(q, o) == ReadWord(p, u)
  {
  }

  /** One round of the loop of `jhash`. */
  method BlockOfBytes(a0: u32, b0: u32, c0: u32, k: seq<byte>, i: nat, ghost m: nat) returns (a: u32, b: u32, c: u32)
    requires i == 4 * m && i + 12 <= |k|
    ensures var ws := ReadWords(Pad(k));
            m + 3 <= |ws| && State(a, b, c) == Block(State(a0, b0, c0), ws[m], ws[m + 1], ws[m + 2])
  {
    hide Mix, ReadWord, Plus, ReadWords;
    WordInPad(k, m);
    WordInPad(k, m + 1);
    WordInPad(k, m + 2);
    a := Plus(a0, ReadWord(k, i));
    b := Plus(b0, ReadWord(k, i + 4));
    c := Plus(c0, ReadWord(k, i + 8));
    a, b, c := JhashMix(a, b, c);
  }

  /** `jhash`. */
  method Jhash(k: seq<byte>, initval: u32) returns (h: u32)
    requires |k| < W
    ensures h == HashBytes(k, initval)
  {
    hide Block, Last, ReadWord, ReadWords, Absorb, Tail;
    ghost var ws, m := ReadWords(Pad(k)), 0;
    var a := Start(|k|, initval);
    ghost var s0 := State(a, a, a);
    var b, c := a, a;
    var i := 0;
    assert ws[0..] == ws && |ws| == |Pad(k)| / 4;
    while |k| - i > 12
      invariant i == 4 * m <= |k| && m <= |ws|
      invariant Absorb(State(a, b, c), ws[m..]) == Absorb(s0, ws) && Tail(ws[m..]) == Tail(ws)
    {
      AbsorbStep(State(a, b, c), ws, m);
      a, b, c := BlockOfBytes(a, b, c, k, i, m);
      i, m := i + 12, m + 3;
    }
    PadRest(k, m);
    AbsorbEnd(State(a, b, c), ws[m..]);
    h := LastBytes(a, b, c, k[i..]);
  }

  lemma {:induction false} AbsorbEnd(s: State, k: seq<u32>)
    requires |k| <= 3
    ensures Absorb(s, k) == s && Tail(k) == k
  {
  }

  lemma {:induction false} AbsorbStep(s: State, ws: seq<u32>, j: nat)
    requires j + 3 < |ws|
    ensures Absorb(s, ws[j..]) == Absorb(Block(s, ws[j], ws[j + 1], ws[j + 2]), ws[j + 3..]) && Tail(ws[j..]) == Tail(ws[j + 3..])
  {
    assert ws[j..][3..] == ws[j + 3..];
  }

  lemma {:induction false} WordInPad(k: seq<byte>, j: nat)
    requires 4 * j + 4 <= |k|
    ensures j < |ReadWords(Pad(k))| && ReadWords(Pad(k))[j] == ReadWord(k, 4 * j)
  {
  }

  lemma {:induction false} AddBytes(c: u32, g: byte, f: byte, e: byte, d: byte)
    ensures 0 <= FromBytes(g, f, e, d) < W
    ensures Plus(Plus(Plus(Plus(c, (d as int) * 0x100_0000), (e as int) * 0x1_0000), (f as int) * 0x100), g) == Plus(c, FromBytes(g, f, e, d))
  {
    ByteOfFrom(g, f, e, d);
    PlusPlus(c, (d as int) * 0x100_0000, (e as int) * 0x1_0000);
    PlusPlus(c, (d as int) * 0x100_0000 + (e as int) * 0x1_0000, (f as int) * 0x100);
    PlusPlus(c, (d as int) * 0x100_0000 + (e as int) * 0x1_0000 + (f as int) * 0x100, g);
  }

  lemma {:induction false} PlusPlus(x: int, y: int, z: int)
    ensures Plus(Plus(x, y), z) == Plus(x, y + z)
  {
  }

  /** Byte `j` of the last block, 0 where there is none. */
  function At(k: seq<byte>, j: nat): byte {
    if j < |k| then k[j] else 0
  }

  /** What the switch makes of a variable: the bytes of its word, the highest first. */
  function Added(x: u32, k: seq<byte>, j: nat): u32 {
    Plus(Plus(Plus(Plus(x, (At(k, j + 3) as int) * 0x100_0000), (At(k, j + 2) as int) * 0x1_0000), (At(k, j + 1) as int) * 0x100), At(k, j))
  }

  /** Four cases of the switch, which fall through from the longest down: the bytes of one variable. */
  method AddFour(x: u32, k: seq<byte>, j: nat) returns (y: u32)
    ensures y == Added(x, k, j)
  {
    y := x;
    if |k| >= j + 4 { y := Plus(y, (k[j + 3] as int) * 0x100_0000); }
    if |k| >= j + 3 { y := Plus(y, (k[j + 2] as int) * 0x1_0000); }
    if |k| >= j + 2 { y := Plus(y, (k[j + 1] as int) * 0x100); }
    if |k| >= j + 1 { y := Plus(y, k[j]); }
  }

  /** The switch over what is left. */
  method LastBytes(a0: u32, b0: u32, c0: u32, k: seq<byte>) returns (h: u32)
    requires |k| <= 12
    ensures h == Last(State(a0, b0, c0), ReadWords(Pad(k)))
  {
    hide Final, Added;
    var c := AddFour(c0, k, 8);
    var b := AddFour(b0, k, 4);
    var a := AddFour(a0, k, 0);
    if |k| >= 1 {
      LastWords(a0, b0, c0, k);
      c := JhashFinal(a, b, c);
    } else {
      assert Added(c0, k, 8) == c0 by { AddedWord(c0, k, 8); }
    }
    h := c;
  }

  /** A variable gets the word of its four bytes, or stays if there are none. */
  lemma {:induction false} AddedWord(x: u32, k: seq<byte>, j: nat)
    requires j % 4 == 0
    ensures j / 4 < |ReadWords(Pad(k))| ==> Added(x, k, j) == Plus(x, ReadWords(Pad(k))[j / 4])
    ensures j / 4 >= |ReadWords(Pad(k))| ==> Added(x, k, j) == x
  {
    hide Added, ReadWord, Plus;
    AddedBytes(x, k, j);
    if j / 4 < |ReadWords(Pad(k))| {
      PadWord(k, j);
    } else {
      assert At(k, j) == 0 && At(k, j + 1) == 0 && At(k, j + 2) == 0 && At(k, j + 3) == 0;
      PlusZero(x);
    }
  }

  lemma {:induction false} PlusZero(x: u32)
    ensures Plus(x, 0) == x
  {
  }

  lemma {:induction false} AddedBytes(x: u32, k: seq<byte>, j: nat)
    ensures Added(x, k, j) == Plus(x, FromBytes(At(k, j), At(k, j + 1), At(k, j + 2), At(k, j + 3)))
  {
    hide Plus, FromBytes;
    AddBytes(x, At(k, j), At(k, j + 1), At(k, j + 2), At(k, j + 3));
  }

  lemma {:induction false} PadWord(k: seq<byte>, j: nat)
    requires j % 4 == 0 && j + 4 <= |Pad(k)|
    ensures ReadWord(Pad(k), j) == FromBytes(At(k, j), At(k, j + 1), At(k, j + 2), At(k, j + 3))
  {
    hide FromBytes;
    var p := Pad(k);
    assert p[j] == At(k, j) && p[j + 1] == At(k, j + 1) && p[j + 2] == At(k, j + 2) && p[j + 3] == At(k, j + 3);
  }

  lemma {:induction false} LastWords(a: u32, b: u32, c: u32, k: seq<byte>)
    requires 1 <= |k| <= 12
    ensures Last(State(a, b, c), ReadWords(Pad(k))) == Final(Added(a, k, 0), Added(b, k, 4), Added(c, k, 8))
  {
    hide Final, Added, Plus, ReadWord;
    AddedWord(a, k, 0);
    AddedWord(b, k, 4);
    AddedWord(c, k, 8);
  }

  /** `n` blocks of three words, as they are taken in one after the other. */
  function Blocks(s: State, k: seq<u32>, n: nat): State
    requires 3 * n <= |k|
  {
    if n == 0 then s else Block(Blocks(s, k, n - 1), k[3 * n - 3], k[3 * n - 2], k[3 * n - 1])
  }

  lemma {:induction false} BlockInjective(s: State, t: State, x: u32, y: u32, z: u32)
    requires Block(s, x, y, z) == Block(t, x, y, z)
    ensures s == t
  {
    hide Mix, UnMix, Plus, Minus;
    MixBijective(State(Plus(s.a, x), Plus(s.b, y), Plus(s.c, z)));
    MixBijective(State(Plus(t.a, x), Plus(t.b, y), Plus(t.c, z)));
    AddBack(s.a, x);
    AddBack(t.a, x);
    AddBack(s.b, y);
    AddBack(t.b, y);
    AddBack(s.c, z);
    AddBack(t.c, z);
  }

  lemma {:induction false} BlockSeesWords(s: State, x: u32, y: u32, z: u32, u: u32, v: u32, w: u32)
    requires Block(s, x, y, z) == Block(s, u, v, w)
    ensures x == u && y == v && z == w
  {
    hide Mix, UnMix;
    MixBijective(State(Plus(s.a, x), Plus(s.b, y), Plus(s.c, z)));
    MixBijective(State(Plus(s.a, u), Plus(s.b, v), Plus(s.c, w)));
  }

  /** Two keys of the same length that differ in exactly one full block leave different states. */
  lemma {:induction false} BlocksTellApart(s: State, k: seq<u32>, l: seq<u32>, n: nat, i: nat)
    requires |k| == |l| && 3 * n <= |k| && i < n
    requires forall j :: 0 <= j < 3 * n && !(3 * i <= j < 3 * i + 3) ==> k[j] == l[j]
    requires k[3 * i] != l[3 * i] || k[3 * i + 1] != l[3 * i + 1] || k[3 * i + 2] != l[3 * i + 2]
    ensures Blocks(s, k, n) != Blocks(s, l, n)
    decreases n
  {
    hide Block;
    var p, q := Blocks(s, k, n - 1), Blocks(s, l, n - 1);
    if i == n - 1 {
      BlocksSame(s, k, l, n - 1);
      if Blocks(s, k, n) == Blocks(s, l, n) {
        BlockSeesWords(p, k[3 * n - 3], k[3 * n - 2], k[3 * n - 1], l[3 * n - 3], l[3 * n - 2], l[3 * n - 1]);
      }
    } else {
      BlocksTellApart(s, k, l, n - 1, i);
      if Blocks(s, k, n) == Blocks(s, l, n) {
        BlockInjective(p, q, k[3 * n - 3], k[3 * n - 2], k[3 * n - 1]);
      }
    }
  }

  lemma {:induction false} BlocksSame(s: State, k: seq<u32>, l: seq<u32>, n: nat)
    requires |k| == |l| && 3 * n <= |k| && forall j :: 0 <= j < 3 * n ==> k[j] == l[j]
    ensures Blocks(s, k, n) == Blocks(s, l, n)
    decreases n
  {
    if n > 0 { BlocksSame(s, k, l, n - 1); }
  }

  /** The full blocks are what `Absorb` takes in. */
  lemma {:induction false} AbsorbIsBlocks(s: State, k: seq<u32>, n: nat)
    requires 3 * n < |k|
    ensures Absorb(s, k) == Absorb(Blocks(s, k, n), k[3 * n..])
  {
    hide Block;
    if n == 0 {
      assert k[0..] == k;
    } else {
      AbsorbIsBlocks(s, k, n - 1);
      AbsorbStep(Blocks(s, k, n - 1), k, 3 * n - 3);
    }
  }
}
