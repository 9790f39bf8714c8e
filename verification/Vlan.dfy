/** VLAN tags of an Ethernet frame (IEEE 802.1Q, clause 9): pushing, popping and parsing them. */
module Vlan {
  import opened Bytes

  const VLAN_MAX_DEPTH := 2
  const ETH_LEN := 14
  const TAG_LEN := 4

  /** A 16-bit field as the little-endian host reads it, and in host order (`bpf_ntohs`). */
  function Raw16(p: seq<byte>, o: nat): u16
    requires o + 2 <= |p|
  {
    p[o] + 0x100 * (p[o + 1] as int)
  }

  function Net16(p: seq<byte>, o: nat): u16
    requires o + 2 <= |p|
  {
    Bswap16(Raw16(p, o))
  }

  const ETH_P_8021Q: u16 := 0x8100
  const ETH_P_8021AD: u16 := 0x88a8

  /** `proto_is_vlan`, on a field as read. */
  predicate ProtoIsVlan(h_proto: u16) {
    h_proto == Bswap16(ETH_P_8021Q) || h_proto == Bswap16(ETH_P_8021AD)
  }

  /** The field is that of a tag, in network order, of 802.1Q or 802.1ad. */
  lemma {:induction false} VlanProtos(p: seq<byte>, i: nat)
    requires i + 1 < |p|
    ensures ProtoIsVlan(Raw16(p, i)) <==> (p[i] == 0x81 && p[i + 1] == 0x00) || (p[i] == 0x88 && p[i + 1] == 0xa8)
  {
  }

  /** The frame with a tag of the low 16 bits of `vlid` after the addresses. */
  function Pushed(p: seq<byte>, vlid: int): seq<byte>
    requires |p| >= ETH_LEN
  {
    p[..12] + [0x81, 0x00, vlid / 0x100 % 0x100, vlid % 0x100] + p[12..]
  }

  /** The frame without its outer tag. */
  function Popped(p: seq<byte>): seq<byte>
    requires |p| >= ETH_LEN + TAG_LEN
  {
    p[..12] + p[16..]
  }

  /** Popping what was pushed restores every byte and gives the pushed id back, modulo 2^16. */
  lemma {:induction false} PopPush(p: seq<byte>, vlid: int)
    requires |p| >= ETH_LEN
    ensures ProtoIsVlan(Raw16(Pushed(p, vlid), 12)) && Popped(Pushed(p, vlid)) == p
    ensures Net16(Pushed(p, vlid), 14) == vlid % 0x1_0000
  {
    var q := Pushed(p, vlid);
    assert q[..12] == p[..12] && q[16..] == p[12..];
    assert p == p[..12] + p[12..];
    assert q[12] == 0x81 && q[13] == 0x00 && q[14] == vlid / 0x100 % 0x100 && q[15] == vlid % 0x100;
  }

  /** Pushing the popped tag back restores the frame exactly if its tag protocol was 0x8100. */
  lemma {:induction false} PushPop(q: seq<byte>)
    requires |q| >= ETH_LEN + TAG_LEN && ProtoIsVlan(Raw16(q, 12))
    ensures Pushed(Popped(q), Net16(q, 14)) == q <==> Net16(q, 12) == ETH_P_8021Q
  {
    hide Bswap16;
    var p, v := Popped(q), Net16(q, 14);
    NetBytes(q[14], q[15]);
    NetBytes(q[12], q[13]);
    var r := Pushed(p, v);
    PushedBytes(p, v);
    assert p[..12] == q[..12] && p[12..] == q[16..];
    assert forall i :: 16 <= i < |q| ==> q[i] == q[16..][i - 16];
    assert forall i :: 0 <= i < 12 ==> q[i] == q[..12][i];
    if r[12] == q[12] && r[13] == q[13] {
      assert forall i :: 0 <= i < |q| ==> r[i] == q[i];
    }
  }

  lemma {:induction false} NetBytes(a: byte, b: byte)
    ensures var v := Bswap16(a + 0x100 * (b as int));
            v == (a as int) * 0x100 + b && v / 0x100 % 0x100 == a && v % 0x100 == b
    ensures Bswap16(a + 0x100 * (b as int)) == ETH_P_8021Q <==> a == 0x81 && b == 0x00
  {
    var v := a + 0x100 * (b as int);
    assert v % 0x100 == a && v / 0x100 == b;
    var w := (a as int) * 0x100 + b;
    assert w / 0x100 == a && w % 0x100 == b;
  }

  lemma {:induction false} PushedBytes(p: seq<byte>, vlid: int)
    requires |p| >= ETH_LEN
    ensures var r := Pushed(p, vlid);
            && |r| == |p| + TAG_LEN
            && r[12] == 0x81 && r[13] == 0x00 && r[14] == vlid / 0x100 % 0x100 && r[15] == vlid % 0x100
            && (forall i :: 0 <= i < 12 ==> r[i] == p[..12][i])
            && (forall i :: 16 <= i < |r| ==> r[i] == p[12..][i - 16])
  {
  }

  lemma {:induction false} IsPushed(p: seq<byte>, vlid: int, r: seq<byte>)
    requires |p| >= ETH_LEN && |r| == |p| + TAG_LEN
    requires r[12] == 0x81 && r[13] == 0x00 && r[14] == vlid / 0x100 % 0x100 && r[15] == vlid % 0x100
    requires r[16] == p[12] && r[17] == p[13]
    requires forall i :: 0 <= i < 12 ==> r[i] == p[i]
    requires forall i :: 18 <= i < |r| ==> r[i] == p[i - 4]
    ensures r == Pushed(p, vlid)
  {
    PushedBytes(p, vlid);
    var q := Pushed(p, vlid);
    assert forall i :: 18 <= i < |r| ==> q[i] == p[12..][i - 16] == p[i - 4];
  }

  lemma {:induction false} IsPopped(p: seq<byte>, r: seq<byte>)
    requires |p| >= ETH_LEN + TAG_LEN && |r| == |p| - TAG_LEN
    requires r[12] == p[16] && r[13] == p[17]
    requires forall i :: 0 <= i < 12 ==> r[i] == p[i]
    requires forall i :: 14 <= i < |r| ==> r[i] == p[i + 4]
    ensures r == Popped(p)
  {
    var q := Popped(p);
    forall i | 0 <= i < |r| ensures r[i] == q[i] {
      if i >= 12 { assert q[i] == p[16..][i - 12]; }
    }
  }

  /** An XDP buffer: the frame lies in `mem` from `data` up to `data_end`, with room in front of it. */
  class XdpMd {
    const mem: array<byte>
    var data: nat
    const data_end: nat

    ghost predicate Valid()
      reads this
    {
      data <= data_end <= mem.Length
    }

    ghost function Frame(): seq<byte>
      requires Valid()
      reads this, mem
    {
      mem[data..data_end]
    }

    constructor (mem: array<byte>, data: nat, data_end: nat)
      requires data <= data_end <= mem.Length
      ensures Valid() && this.mem == mem && this.data == data && this.data_end == data_end
    {
      this.mem, this.data, this.data_end := mem, data, data_end;
    }

    /** `bpf_xdp_adjust_head`; the kernel may refuse for reasons of its own. */
    method AdjustHead(delta: int, granted: bool) returns (err: int)
      requires Valid()
      modifies this`data
      ensures Valid()
      ensures err == if granted && 0 <= old(data) + delta <= data_end then 0 else -1
      ensures data == if err == 0 then old(data) + delta else old(data)
    {
      if !granted || data + delta < 0 || data + delta > data_end { return -1; }
      data := data + delta;
      err := 0;
    }

    /** Copying a saved Ethernet header to the front of the frame. */
    method PutEth(eth: seq<byte>)
      requires Valid() && |eth| == ETH_LEN && data + ETH_LEN <= data_end
      modifies mem
      ensures forall i :: 0 <= i < ETH_LEN ==> mem[data + i] == eth[i]
      ensures forall i :: 0 <= i < mem.Length && !(data <= i < data + ETH_LEN) ==> mem[i] == old(mem[i])
    {
      forall i | 0 <= i < ETH_LEN { mem[data + i] := eth[i]; }
    }

    /** The tag after the Ethernet header takes over its protocol. */
    method PutTag(vlid: int)
      requires Valid() && data + ETH_LEN + TAG_LEN <= data_end
      modifies mem
      ensures mem[data + 14] == vlid / 0x100 % 0x100 && mem[data + 15] == vlid % 0x100
      ensures mem[data + 16] == old(mem[data + 12]) && mem[data + 17] == old(mem[data + 13])
      ensures mem[data + 12] == 0x81 && mem[data + 13] == 0x00
      ensures forall i :: 0 <= i < mem.Length && !(data + 12 <= i < data + 18) ==> mem[i] == old(mem[i])
    {
      mem[data + 14], mem[data + 15] := vlid / 0x100 % 0x100, vlid % 0x100;
      mem[data + 16], mem[data + 17] := mem[data + 12], mem[data + 13];
      mem[data + 12], mem[data + 13] := 0x81, 0x00;
    }

    /** `vlan_tag_push`, called on a frame whose Ethernet header was found complete. */
    method Push(vlid: int, granted: bool) returns (err: int)
      requires Valid() && data_end - data >= ETH_LEN
      modifies this`data, mem
      ensures Valid() && err == if granted && old(data) >= TAG_LEN then 0 else -1
      ensures Frame() == if err == 0 then Pushed(old(Frame()), vlid) else old(Frame())
    {
      hide Bswap16;
      ghost var was := Frame();
      var eth_cpy := mem[data..data + ETH_LEN];
      assert forall i :: 0 <= i < ETH_LEN ==> eth_cpy[i] == was[i];
      var e := AdjustHead(-TAG_LEN, granted);
      if e != 0 { return -1; }
      if data + ETH_LEN > data_end { return -1; }
      PutEth(eth_cpy);
      if data + ETH_LEN + TAG_LEN > data_end { return -1; }
      PutTag(vlid);
      IsPushed(was, vlid, Frame());
      err := 0;
    }

    /** `vlan_tag_pop`: the id of the outer tag, or -1. */
    method Pop(granted: bool) returns (vlid: int)
      requires Valid() && data_end - data >= ETH_LEN
      modifies this`data, mem
      ensures Valid()
      ensures var p := old(Frame());
              vlid == if ProtoIsVlan(Raw16(p, 12)) && |p| >= ETH_LEN + TAG_LEN && granted then Net16(p, 14) else -1
      ensures Frame() == if vlid >= 0 then Popped(old(Frame())) else old(Frame())
    {
      hide Bswap16;
      ghost var was := Frame();
      if !ProtoIsVlan(Raw16(mem[data..data_end], 12)) { return -1; }
      if data + ETH_LEN + TAG_LEN > data_end { return -1; }
      vlid := Net16(mem[data..data_end], 14);
      var p0, p1 := mem[data + 16], mem[data + 17];
      var eth_cpy := mem[data..data + ETH_LEN];
      assert forall i :: 0 <= i < ETH_LEN ==> eth_cpy[i] == was[i];
      var e := AdjustHead(TAG_LEN, granted);
      if e != 0 { return -1; }
      PutEth(eth_cpy);
      mem[data + 12], mem[data + 13] := p0, p1;
      ghost var now := Frame();
      forall i | 14 <= i < |now| ensures now[i] == was[i + 4] {
        assert now[i] == mem[data + i];
      }
      IsPopped(was, now);
    }
  }

  /** A parse: the EtherType as read, the position of what follows the headers, the VLAN ids met. */
  datatype Parsed = Parsed(h_proto: u16, pos: nat, ids: seq<int>)

  /** At most `depth` complete tags from `pos` on. */
  function Tags(p: seq<byte>, h_proto: u16, pos: nat, depth: nat): Parsed
    decreases depth
  {
    if depth == 0 || !ProtoIsVlan(h_proto) || pos + TAG_LEN > |p| then Parsed(h_proto, pos, [])
    else
      var rest := Tags(p, Raw16(p, pos + 2), pos + TAG_LEN, depth - 1);
      rest.(ids := [Net16(p, pos) % 0x1000] + rest.ids)
  }

  /** `parse_ethhdr_vlan` on a whole frame. */
  function Parse(p: seq<byte>): Parsed
    requires |p| >= ETH_LEN
  {
    Tags(p, Raw16(p, 12), ETH_LEN, VLAN_MAX_DEPTH)
  }

  /** `parse_ethhdr_vlan` from position `pos`: -1 if the Ethernet header is not complete. */
  method ParseEthhdrVlan(p: seq<byte>, pos: nat, collect: bool) returns (ret: int, new_pos: nat, ids: seq<int>)
    requires pos <= |p|
    ensures |p| - pos < ETH_LEN ==> ret == -1 && new_pos == pos && ids == []
    ensures |p| - pos >= ETH_LEN ==>
              var r := Parse(p[pos..]);
              ret == r.h_proto && new_pos == pos + r.pos && ids == if collect then r.ids else []
  {
    hide Raw16, Bswap16, Net16, ProtoIsVlan;
    ids, new_pos := [], pos;
    if pos + ETH_LEN > |p| { return -1, pos, []; }
    ghost var q := p[pos..];
    var vlh := pos + ETH_LEN;
    var h_proto := Raw16(p, pos + 12);
    Raw16Slice(p, pos, 12);
    ghost var full: seq<int>, o: nat := [], ETH_LEN;
    FirstTags(Parse(q));
    var i := 0;
    while i < VLAN_MAX_DEPTH
      invariant 0 <= i <= VLAN_MAX_DEPTH && vlh == pos + o && |full| <= i && ids == (if collect then full else [])
      invariant Parse(q) == With(full, Tags(q, h_proto, o, VLAN_MAX_DEPTH - i))
    {
      if !ProtoIsVlan(h_proto) { break; }
      if vlh + TAG_LEN > |p| { break; }
      Raw16Slice(p, pos, o);
      Raw16Slice(p, pos, o + 2);
      var id := Net16(p, vlh) % 0x1000;
      WithStep(full, id, Tags(q, Raw16(p, vlh + 2), o + TAG_LEN, VLAN_MAX_DEPTH - i - 1));
      h_proto := Raw16(p, vlh + 2);
      if collect { ids := ids + [id]; }
      full, o := full + [id], o + TAG_LEN;
      vlh := vlh + TAG_LEN;
      i := i + 1;
    }
    assert full + [] == full;
    ret, new_pos := h_proto, vlh;
  }

  /** The ids `full` in front of those of a parse. */
  function With(full: seq<int>, r: Parsed): Parsed {
    r.(ids := full + r.ids)
  }

  lemma {:induction false} FirstTags(r: Parsed)
    ensures With([], r) == r
  {
    assert [] + r.ids == r.ids;
  }

  lemma {:induction false} WithStep(full: seq<int>, id: int, r: Parsed)
    ensures With(full, r.(ids := [id] + r.ids)) == With(full + [id], r)
  {
    assert full + ([id] + r.ids) == full + [id] + r.ids;
  }

  lemma {:induction false} Raw16Slice(p: seq<byte>, pos: nat, o: nat)
    requires pos + o + 2 <= |p|
    ensures Raw16(p[pos..], o) == Raw16(p, pos + o) && Net16(p[pos..], o) == Net16(p, pos + o)
  {
  }

  /** Parsing goes on in a frame with four more bytes in front just as in the frame. */
  lemma {:induction false} TagsShift(p: seq<byte>, q: seq<byte>, h_proto: u16, pos: nat, depth: nat)
    requires |q| == |p| + TAG_LEN && pos >= ETH_LEN && forall i :: 12 <= i < |p| ==> q[i + TAG_LEN] == p[i]
    ensures Tags(q, h_proto, pos + TAG_LEN, depth) == Tags(p, h_proto, pos, depth).(pos := Tags(p, h_proto, pos, depth).pos + TAG_LEN)
    decreases depth
  {
    if depth > 0 && ProtoIsVlan(h_proto) && pos + TAG_LEN <= |p| {
      assert q[pos + TAG_LEN] == p[pos] && q[pos + 1 + TAG_LEN] == p[pos + 1];
      assert q[pos + 2 + TAG_LEN] == p[pos + 2] && q[pos + 3 + TAG_LEN] == p[pos + 3];
      TagsShift(p, q, Raw16(p, pos + 2), pos + TAG_LEN, depth - 1);
    }
  }

  /** With fewer complete tags than the parser can take, one level less makes no difference. */
  lemma {:induction false} TagsFewer(p: seq<byte>, h_proto: u16, pos: nat, depth: nat)
    requires |Tags(p, h_proto, pos, depth + 1).ids| <= depth
    ensures Tags(p, h_proto, pos, depth) == Tags(p, h_proto, pos, depth + 1)
    decreases depth
  {
    if ProtoIsVlan(h_proto) && pos + TAG_LEN <= |p| && depth > 0 {
      TagsFewer(p, Raw16(p, pos + 2), pos + TAG_LEN, depth - 1);
    }
  }

  /** A pushed frame parses to the same EtherType and the same payload, four bytes on, with the new id first -
      as long as its own tags leave the parser room for one more. */
  lemma {:induction false} PushParse(p: seq<byte>, vlid: int)
    requires |p| >= ETH_LEN && |Parse(p).ids| < VLAN_MAX_DEPTH
    ensures Parse(Pushed(p, vlid)) == Parsed(Parse(p).h_proto, Parse(p).pos + TAG_LEN, [vlid % 0x1000] + Parse(p).ids)
  {
    hide Bswap16, Tags, Raw16, ProtoIsVlan, Pushed;
    var q := Pushed(p, vlid);
    PopPush(p, vlid);
    PushedShift(p, vlid);
    TagsFewer(p, Raw16(p, 12), ETH_LEN, VLAN_MAX_DEPTH - 1);
    TagsShift(p, q, Raw16(p, 12), ETH_LEN, VLAN_MAX_DEPTH - 1);
    TagsStep(q, Raw16(q, 12), ETH_LEN, VLAN_MAX_DEPTH);
    ModMod(vlid);
  }

  lemma {:induction false} ModMod(v: int)
    ensures v % 0x1_0000 % 0x1000 == v % 0x1000
  {
    assert v % 0x1_0000 == v - 0x1_0000 * (v / 0x1_0000);
  }

  lemma {:induction false} TagsStep(p: seq<byte>, h_proto: u16, pos: nat, depth: nat)
    requires depth > 0 && ProtoIsVlan(h_proto) && pos + TAG_LEN <= |p|
    ensures var rest := Tags(p, Raw16(p, pos + 2), pos + TAG_LEN, depth - 1);
            Tags(p, h_proto, pos, depth) == rest.(ids := [Net16(p, pos) % 0x1000] + rest.ids)
  {
  }

  lemma {:induction false} PushedShift(p: seq<byte>, vlid: int)
    requires |p| >= ETH_LEN
    ensures var q := Pushed(p, vlid); |q| == |p| + TAG_LEN && (forall i :: 12 <= i < |p| ==> q[i + TAG_LEN] == p[i]) && Raw16(q, 16) == Raw16(p, 12)
  {
    PushedBytes(p, vlid);
    var q := Pushed(p, vlid);
    forall i | 12 <= i < |p| ensures q[i + TAG_LEN] == p[i] { assert q[i + TAG_LEN] == p[12..][i - 12]; }
    assert q[12 + TAG_LEN] == p[12] && q[13 + TAG_LEN] == p[13];
  }
}
