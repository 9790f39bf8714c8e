/** The BTF wire format: a header, the type section and the string section, in either byte order; and
    what reading back what was written yields. */
module BtfBlob {
  import opened Common
  import opened Bytes
  import opened BtfTypes
  import opened TypeSection

  const BTF_MAGIC := 0xeb9f
  const HDR_LEN := 24
  const ENOTSUP := 95
  const BTF_MAX_STR_OFFSET := 0x7fff_ffff

  datatype Hdr = Hdr(magic: u16, version: byte, flags: byte, hdr_len: u32, type_off: u32, type_len: u32, str_off: u32, str_len: u32)

  /** `btf_bswap_hdr`. */
  function SwapHdr(h: Hdr): Hdr {
    h.(magic := Bswap16(h.magic), hdr_len := Bswap32(h.hdr_len), type_off := Bswap32(h.type_off), type_len := Bswap32(h.type_len),
       str_off := Bswap32(h.str_off), str_len := Bswap32(h.str_len))
  }

  lemma {:induction false} SwapHdrTwice(h: Hdr)
    ensures SwapHdr(SwapHdr(h)) == h
  {
    hide Bswap32;
    Bswap32Twice(h.hdr_len);
    Bswap32Twice(h.type_off);
    Bswap32Twice(h.type_len);
    Bswap32Twice(h.str_off);
    Bswap32Twice(h.str_len);
  }

  function HdrBytes(h: Hdr): (bs: seq<byte>)
    ensures |bs| == HDR_LEN
  {
    [h.magic % 0x100, h.magic / 0x100, h.version, h.flags] + WordBytes([h.hdr_len, h.type_off, h.type_len, h.str_off, h.str_len])
  }

  function ReadHdr(bs: seq<byte>): Hdr
    requires |bs| >= HDR_LEN
  {
    Hdr(bs[0] + 0x100 * (bs[1] as int), bs[2], bs[3], ReadWord(bs, 4), ReadWord(bs, 8), ReadWord(bs, 12), ReadWord(bs, 16), ReadWord(bs, 20))
  }

  lemma {:induction false} HdrRound(h: Hdr, bs: seq<byte>)
    requires HdrBytes(h) <= bs
    ensures ReadHdr(bs) == h
  {
    var ws := [h.hdr_len, h.type_off, h.type_len, h.str_off, h.str_len];
    forall i, k | 0 <= i < 5 && 0 <= k < 4 ensures bs[4 + 4 * i + k] == ByteOf(ws[i], k) {
      assert (4 * i + k) / 4 == i && (4 * i + k) % 4 == k;
      assert bs[4 + 4 * i + k] == HdrBytes(h)[4 + 4 * i + k] == WordBytes(ws)[4 * i + k];
    }
    ReadWordAt(ws, bs, 4, 0);
    ReadWordAt(ws, bs, 8, 1);
    ReadWordAt(ws, bs, 12, 2);
    ReadWordAt(ws, bs, 16, 3);
    ReadWordAt(ws, bs, 20, 4);
    assert bs[0] == HdrBytes(h)[0] && bs[1] == HdrBytes(h)[1] && bs[2] == HdrBytes(h)[2] && bs[3] == HdrBytes(h)[3];
  }

  /** What walking the type section record by record finds (`btf_parse_type_sec`), from word `off` on. */
  function ParseTypes(ws: seq<u32>, off: nat): Option<seq<Rec>>
    requires off <= |ws|
    decreases |ws| - off
  {
    if |ws| - off < 3 then (if off == |ws| then Some([]) else None)
    else if !KnownKind(InfoKind(ws[off + 1])) then None
    else
      var len := 3 + RestLen(InfoKind(ws[off + 1]), InfoVlen(ws[off + 1]));
      if off + len > |ws| then None
      else
        var rest := ParseTypes(ws, off + len);
        if rest == None then None else Some([RecIn(ws, off, len)] + rest.value)
  }

  function RecIn(ws: seq<u32>, off: nat, len: nat): Rec
    requires 3 <= len && off + len <= |ws|
  {
    Rec(ws[off], ws[off + 1], ws[off + 2], ws[off + 3..off + len])
  }

  /** Records 1, 2, ... of `ts` fill the words exactly; 0 is void. */
  ghost predicate Tiles(ws: seq<u32>, ts: seq<Rec>) {
    && |ts| >= 1 && ts[0] == VOID && SecOff(ts, |ts|) == |ws| && Laid(ws, ts)
    && forall i :: 1 <= i < |ts| ==> WF(ts[i]) && KnownKind(Kind(ts[i]))
  }

  lemma {:induction false} RecInAt(ws: seq<u32>, off: nat, t: Rec)
    requires At(ws, off, t)
    ensures RecIn(ws, off, Len(t)) == t
  {
    assert ws[off + 0] == Word(t, 0) && ws[off + 1] == Word(t, 1) && ws[off + 2] == Word(t, 2);
    var rest := ws[off + 3..off + Len(t)];
    forall j | 0 <= j < |t.rest| ensures rest[j] == t.rest[j] { assert ws[off + (3 + j)] == Word(t, 3 + j); }
  }

  lemma {:induction false} ParseStep(ws: seq<u32>, off: nat, t: Rec)
    requires At(ws, off, t) && WF(t) && KnownKind(Kind(t))
    ensures var rest := ParseTypes(ws, off + Len(t));
            ParseTypes(ws, off) == if rest == None then None else Some([t] + rest.value)
  {
    RecInAt(ws, off, t);
    assert ws[off + 1] == Word(t, 1);
  }

  lemma {:induction false} ParseEnd(ws: seq<u32>)
    ensures ParseTypes(ws, |ws|) == Some([])
  {
  }

  lemma {:induction false} DropStep(ts: seq<Rec>, i: nat)
    requires i < |ts|
    ensures ts[i..] == [ts[i]] + ts[i + 1..]
  {
  }

  lemma {:induction false} AppendStep(ts: seq<Rec>, t: Rec, rest: seq<Rec>)
    ensures ts + ([t] + rest) == ts + [t] + rest
  {
  }

  /** Walking a tiled section finds its records. */
  lemma {:induction false} ParseLaid(ws: seq<u32>, ts: seq<Rec>, i: nat)
    requires Tiles(ws, ts) && 1 <= i <= |ts|
    ensures SecOff(ts, i) <= |ws| && ParseTypes(ws, SecOff(ts, i)) == Some(ts[i..])
    decreases |ts| - i
  {
    hide ParseTypes, At, Laid;
    if i == |ts| {
      ParseEnd(ws);
      assert ts[i..] == [];
    } else {
      SecOffMonotone(ts, i, |ts|);
      ParseLaid(ws, ts, i + 1);
      LaidHere(ws, ts, i);
      ParseStep(ws, SecOff(ts, i), ts[i]);
      assert SecOff(ts, i + 1) == SecOff(ts, i) + Len(ts[i]);
      DropStep(ts, i);
    }
  }

  /** Records 1, 2, ... of `ts` lie end to end up to `off`. */
  ghost predicate TiledTo(ws: seq<u32>, ts: seq<Rec>, off: nat) {
    && |ts| >= 1 && ts[0] == VOID && SecOff(ts, |ts|) == off && Laid(ws, ts)
    && forall i :: 1 <= i < |ts| ==> WF(ts[i]) && KnownKind(Kind(ts[i]))
  }

  lemma {:induction false} TiledOn(ws: seq<u32>, ts: seq<Rec>, off: nat, t: Rec)
    requires TiledTo(ws, ts, off) && At(ws, off, t) && WF(t) && KnownKind(Kind(t))
    ensures TiledTo(ws, ts + [t], off + Len(t))
  {
    assert off + Len(t) <= |ws|;
    hide At, RestLen, Laid;
    LaidAppend(ws, ws, ts, t, off);
    SecOffAppend(ts, t, |ts|);
    assert forall i :: 0 <= i < |ts| ==> (ts + [t])[i] == ts[i];
  }

  /** What a successful walk finds tiles the section. */
  lemma {:induction false} ParseTiles(ws: seq<u32>, ts: seq<Rec>, off: nat)
    requires off <= |ws| && ParseTypes(ws, off) != None && TiledTo(ws, ts, off)
    ensures Tiles(ws, ts + ParseTypes(ws, off).value)
    decreases |ws| - off
  {
    if |ws| - off < 3 {
      assert ts + [] == ts;
    } else {
      var t := FirstRec(ws, off);
      hide ParseTypes, TiledTo, Tiles;
      var rest := ParseTypes(ws, off + Len(t)).value;
      TiledOn(ws, ts, off, t);
      ParseTiles(ws, ts + [t], off + Len(t));
      AppendStep(ts, t, rest);
    }
  }

  lemma {:induction false} FirstRec(ws: seq<u32>, off: nat) returns (t: Rec)
    requires off + 3 <= |ws| && ParseTypes(ws, off) != None
    ensures At(ws, off, t) && WF(t) && KnownKind(Kind(t))
    ensures ParseTypes(ws, off + Len(t)) != None && ParseTypes(ws, off) == Some([t] + ParseTypes(ws, off + Len(t)).value)
  {
    t := RecIn(ws, off, 3 + RestLen(InfoKind(ws[off + 1]), InfoVlen(ws[off + 1])));
  }

  /** A BTF object as data: its types, its strings, and the byte order it was read in. */
  datatype Parsed = Parsed(types: seq<Rec>, strs: seq<byte>, swapped: bool)

  /** `btf_parse_str_sec`, without a base. */
  predicate StrsOk(strs: seq<byte>) {
    |strs| > 0 && |strs| - 1 <= BTF_MAX_STR_OFFSET && strs[|strs| - 1] == 0 && strs[0] == 0
  }

  /** The checks of `btf_parse_hdr` once the header is in native order. */
  predicate HdrFits(h: Hdr, size: int) {
    && size >= h.hdr_len && size - h.hdr_len >= h.str_off + h.str_len
    && h.type_off + h.type_len <= h.str_off && h.type_off % 4 == 0
  }

  function ReadTypes(raw: seq<byte>, swapped: bool): seq<u32> {
    if swapped then SwapAll(ReadWords(raw)) else ReadWords(raw)
  }

  /** `btf_new` on raw data: header, strings, types. */
  function ParseBlob(data: seq<byte>): Result<Parsed> {
    if |data| < HDR_LEN then Err(-EINVAL)
    else
      var h0 := ReadHdr(data);
      var swapped := h0.magic == Bswap16(BTF_MAGIC);
      if swapped && Bswap32(h0.hdr_len) != HDR_LEN then Err(-ENOTSUP)
      else if !swapped && h0.magic != BTF_MAGIC then Err(-EINVAL)
      else
        var h := if swapped then SwapHdr(h0) else h0;
        if !HdrFits(h, |data|) then Err(-EINVAL)
        else ParseSections(h, data[h.hdr_len..], swapped)
  }

  function ParseSections(h: Hdr, body: seq<byte>, swapped: bool): Result<Parsed>
    requires h.str_off + h.str_len <= |body| && h.type_off + h.type_len <= h.str_off
  {
    var strs := body[h.str_off..h.str_off + h.str_len];
    var raw := body[h.type_off..h.type_off + h.type_len];
    if !StrsOk(strs) || h.type_len % 4 != 0 then Err(-EINVAL)
    else
      var ts := ParseTypes(ReadTypes(raw, swapped), 0);
      if ts == None then Err(-EINVAL) else Ok(Parsed([VOID] + ts.value, strs, swapped))
  }

  /** `btf_get_raw_data`. */
  function Encode(h: Hdr, ws: seq<u32>, strs: seq<byte>, swap: bool): seq<byte> {
    if swap then HdrBytes(SwapHdr(h)) + WordBytes(SwapAll(ws)) + strs else HdrBytes(h) + WordBytes(ws) + strs
  }

  /** The four bytes at `o` are the word `v`, in this byte order. */
  predicate WordIs(bs: seq<byte>, o: nat, big: bool, v: int)
    requires o + 4 <= |bs|
  {
    v == if big then FromBytes(bs[o + 3], bs[o + 2], bs[o + 1], bs[o]) else FromBytes(bs[o], bs[o + 1], bs[o + 2], bs[o + 3])
  }

  lemma {:induction false} WordLaid(ws: seq<u32>, vs: seq<u32>, bs: seq<byte>, o: nat, big: bool, i: nat)
    requires |ws| == |vs| && vs == (if big then SwapAll(ws) else ws) && i < |ws|
    requires o + 4 * |ws| <= |bs| && forall j :: 0 <= j < 4 * |ws| ==> bs[o + j] == WordBytes(vs)[j]
    ensures WordIs(bs, o + 4 * i, big, ws[i])
  {
    forall k | 0 <= k < 4 ensures bs[o + 4 * i + k] == ByteOf(vs[i], k) {
      assert (4 * i + k) / 4 == i && (4 * i + k) % 4 == k;
      assert bs[o + (4 * i + k)] == WordBytes(vs)[4 * i + k];
    }
    assert bs[o + 4 * i + 0] == ByteOf(vs[i], 0) && bs[o + 4 * i + 1] == ByteOf(vs[i], 1)
           && bs[o + 4 * i + 2] == ByteOf(vs[i], 2) && bs[o + 4 * i + 3] == ByteOf(vs[i], 3);
    BytesRound(ws[i]);
    if big { ByteOfFrom(ByteOf(ws[i], 3), ByteOf(ws[i], 2), ByteOf(ws[i], 1), ByteOf(ws[i], 0)); }
  }

  /** Where the fields of the header are in the file. */
  ghost predicate HeadIs(bs: seq<byte>, big: bool, h: Hdr)
    requires |bs| >= HDR_LEN
  {
    && h.magic == (if big then bs[1] as int + 0x100 * (bs[0] as int) else bs[0] as int + 0x100 * (bs[1] as int))
    && bs[2] == h.version && bs[3] == h.flags
    && WordIs(bs, 4, big, h.hdr_len) && WordIs(bs, 8, big, h.type_off) && WordIs(bs, 12, big, h.type_len)
    && WordIs(bs, 16, big, h.str_off) && WordIs(bs, 20, big, h.str_len)
  }

  /** Where everything is in the file, byte by byte: the fields of the header, the words of the types, the strings. */
  lemma {:induction false} FileLayout(h: Hdr, ws: seq<u32>, strs: seq<byte>, big: bool)
    ensures var bs := Encode(h, ws, strs, big);
            && |bs| == HDR_LEN + 4 * |ws| + |strs| && HeadIs(bs, big, h) && bs[HDR_LEN + 4 * |ws|..] == strs
            && forall i :: 0 <= i < |ws| ==> WordIs(bs, HDR_LEN + 4 * i, big, ws[i])
  {
    hide WordIs, HdrBytes, WordBytes, SwapHdr, SwapAll, HeadIs;
    var bs := Encode(h, ws, strs, big);
    var g := if big then SwapHdr(h) else h;
    var vs := if big then SwapAll(ws) else ws;
    assert bs == HdrBytes(g) + WordBytes(vs) + strs;
    assert bs == HdrBytes(g) + (WordBytes(vs) + strs);
    HeadLayout(h, g, bs, WordBytes(vs) + strs, big);
    forall j | 0 <= j < 4 * |ws| ensures bs[HDR_LEN + j] == WordBytes(vs)[j] { assert bs[HDR_LEN + j] == (WordBytes(vs) + strs)[j]; }
    forall i | 0 <= i < |ws| ensures WordIs(bs, HDR_LEN + 4 * i, big, ws[i]) { WordLaid(ws, vs, bs, HDR_LEN, big, i); }
  }

  lemma {:induction false} HeadLayout(h: Hdr, g: Hdr, bs: seq<byte>, rest: seq<byte>, big: bool)
    requires g == (if big then SwapHdr(h) else h) && bs == HdrBytes(g) + rest
    ensures HeadIs(bs, big, h)
  {
    hide WordIs, Bswap32;
    var hs, gs := [h.hdr_len, h.type_off, h.type_len, h.str_off, h.str_len], [g.hdr_len, g.type_off, g.type_len, g.str_off, g.str_len];
    assert gs == if big then SwapAll(hs) else hs;
    HeadLaid(g, bs, rest);
    WordLaid(hs, gs, bs, 4, big, 0);
    WordLaid(hs, gs, bs, 4, big, 1);
    WordLaid(hs, gs, bs, 4, big, 2);
    WordLaid(hs, gs, bs, 4, big, 3);
    WordLaid(hs, gs, bs, 4, big, 4);
  }

  lemma {:induction false} HeadLaid(g: Hdr, bs: seq<byte>, rest: seq<byte>)
    requires bs == HdrBytes(g) + rest
    ensures bs[0] == g.magic % 0x100 && bs[1] == g.magic / 0x100 && bs[2] == g.version && bs[3] == g.flags
    ensures forall j :: 0 <= j < 20 ==> bs[4 + j] == WordBytes([g.hdr_len, g.type_off, g.type_len, g.str_off, g.str_len])[j]
  {
    var hs := [g.hdr_len, g.type_off, g.type_len, g.str_off, g.str_len];
    forall j | 0 <= j < 20 ensures bs[4 + j] == WordBytes(hs)[j] { assert bs[4 + j] == HdrBytes(g)[4 + j]; }
    assert bs[0] == HdrBytes(g)[0] && bs[1] == HdrBytes(g)[1] && bs[2] == HdrBytes(g)[2] && bs[3] == HdrBytes(g)[3];
  }

  /** The header the builder keeps: types right after the header, strings right after the types. */
  predicate HdrMatches(h: Hdr, ws: seq<u32>, strs: seq<byte>) {
    h.magic == BTF_MAGIC && h.hdr_len == HDR_LEN && h.type_off == 0 && h.type_len == h.str_off == 4 * |ws| && h.str_len == |strs|
  }

  lemma {:induction false} TypesRound(ws: seq<u32>, ts: seq<Rec>, swap: bool)
    requires Tiles(ws, ts)
    ensures ReadTypes(WordBytes(if swap then SwapAll(ws) else ws), swap) == ws
    ensures ParseTypes(ws, 0) == Some(ts[1..]) && [VOID] + ts[1..] == ts
  {
    WordsRound(if swap then SwapAll(ws) else ws);
    SwapAllTwice(ws);
    ParseLaid(ws, ts, 1);
    DropStep(ts, 0);
  }

  lemma {:induction false} Halves(a: seq<byte>, b: seq<byte>)
    ensures (a + b)[0..|a|] == a && (a + b)[|a|..|a| + |b|] == b
  {
  }

  lemma {:induction false} SectionsRound(h: Hdr, ws: seq<u32>, ts: seq<Rec>, strs: seq<byte>, swap: bool)
    requires HdrMatches(h, ws, strs) && Tiles(ws, ts) && StrsOk(strs)
    ensures ParseSections(h, WordBytes(if swap then SwapAll(ws) else ws) + strs, swap) == Ok(Parsed(ts, strs, swap))
  {
    TypesRound(ws, ts, swap);
    var raw := WordBytes(if swap then SwapAll(ws) else ws);
    assert |raw| == 4 * |ws|;
    hide ParseSections, Tiles, ParseTypes, ReadTypes, WordBytes, SwapAll, StrsOk;
    Halves(raw, strs);
    PartsParsed(h, raw + strs, swap, raw, strs, ts);
  }

  lemma {:induction false} PartsParsed(h: Hdr, body: seq<byte>, swap: bool, raw: seq<byte>, strs: seq<byte>, ts: seq<Rec>)
    requires h.type_off == 0 && h.type_len == h.str_off == |raw| && h.str_len == |strs| && |body| == |raw| + |strs| && |raw| % 4 == 0
    requires body[0..|raw|] == raw && body[|raw|..|raw| + |strs|] == strs && StrsOk(strs)
    requires |ts| >= 1 && ParseTypes(ReadTypes(raw, swap), 0) == Some(ts[1..]) && [VOID] + ts[1..] == ts
    ensures ParseSections(h, body, swap) == Ok(Parsed(ts, strs, swap))
  {
    hide ParseTypes, ReadTypes, StrsOk;
  }

  /** Reading back what was written, in either byte order, yields the same types under the same ids. */
  lemma {:induction false} BlobRound(h: Hdr, ws: seq<u32>, ts: seq<Rec>, strs: seq<byte>, swap: bool)
    requires HdrMatches(h, ws, strs) && Tiles(ws, ts) && StrsOk(strs)
    ensures ParseBlob(Encode(h, ws, strs, swap)) == Ok(Parsed(ts, strs, swap))
  {
    hide ParseSections, ReadHdr, HdrBytes, Bswap32, Tiles;
    var data := Encode(h, ws, strs, swap);
    var g, raw := if swap then SwapHdr(h) else h, WordBytes(if swap then SwapAll(ws) else ws);
    assert data == HdrBytes(g) + (raw + strs);
    assert HdrBytes(g) <= data && data[HDR_LEN..] == raw + strs;
    HdrRound(g, data);
    SwapHdrTwice(h);
    SectionsRound(h, ws, ts, strs, swap);
  }
}
