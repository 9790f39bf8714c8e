/** BTF type records as the words libbpf keeps in the type section: three base words
    (`name_off`, `info`, and the `size`/`type` union) followed by kind-specific words.
    The accessors mirror the ones of `btf.h`; `Unfold` gives a type graph its meaning. */
module BtfTypes {
  import opened Common

  const BTF_MAX_NR_TYPES: u32 := 0x7fff_ffff

  /** Sentinels of the canonical and hypothetical maps. */
  const UNPROCESSED: u32 := 0xffff_ffff
  const IN_PROGRESS: u32 := 0xffff_fffe

  const KIND_UNKN := 0
  const KIND_INT := 1
  const KIND_PTR := 2
  const KIND_ARRAY := 3
  const KIND_STRUCT := 4
  const KIND_UNION := 5
  const KIND_ENUM := 6
  const KIND_FWD := 7
  const KIND_TYPEDEF := 8
  const KIND_VOLATILE := 9
  const KIND_CONST := 10
  const KIND_RESTRICT := 11
  const KIND_FUNC := 12
  const KIND_FUNC_PROTO := 13
  const KIND_VAR := 14
  const KIND_DATASEC := 15
  const KIND_FLOAT := 16
  const KIND_DECL_TAG := 17
  const KIND_TYPE_TAG := 18

  const ELOOP := 40

  datatype Rec = Rec(name: u32, info: u32, szt: u32, rest: seq<u32>)

  const VOID := Rec(0, 0, 0, [])

  function InfoKind(info: u32): nat { (info / 0x100_0000) % 32 }

  function InfoVlen(info: u32): nat { info % 0x1_0000 }

  function InfoKflag(info: u32): bool { info >= 0x8000_0000 }

  function Kind(t: Rec): nat { InfoKind(t.info) }

  function Vlen(t: Rec): nat { InfoVlen(t.info) }

  predicate KnownKind(k: nat) { 1 <= k <= 18 }

  predicate IsComposite(t: Rec) { Kind(t) == KIND_STRUCT || Kind(t) == KIND_UNION }

  predicate IsFwd(t: Rec) { Kind(t) == KIND_FWD }

  predicate IsEnumFwd(t: Rec) { Kind(t) == KIND_ENUM && Vlen(t) == 0 }

  /** Kinds whose one reference sits in the `type` word. */
  predicate SingleRefKind(k: nat) {
    k == KIND_CONST || k == KIND_VOLATILE || k == KIND_RESTRICT || k == KIND_PTR ||
    k == KIND_TYPEDEF || k == KIND_FUNC || k == KIND_TYPE_TAG
  }

  /** Number of words that follow the base record. */
  function RestLen(k: nat, vlen: nat): nat {
    if k == KIND_INT || k == KIND_VAR || k == KIND_DECL_TAG then 1
    else if k == KIND_ARRAY then 3
    else if k == KIND_STRUCT || k == KIND_UNION || k == KIND_DATASEC then 3 * vlen
    else if k == KIND_ENUM || k == KIND_FUNC_PROTO then 2 * vlen
    else 0
  }

  predicate WF(t: Rec) { |t.rest| == RestLen(Kind(t), Vlen(t)) }

  function Word(t: Rec, i: nat): u32
    requires i < 3 + |t.rest|
  {
    if i == 0 then t.name else if i == 1 then t.info else if i == 2 then t.szt else t.rest[i - 3]
  }

  function SetWord(t: Rec, i: nat, v: u32): Rec
    requires 2 <= i < 3 + |t.rest|
  {
    if i == 2 then t.(szt := v) else t.(rest := t.rest[i - 3 := v])
  }

  /** The type ids a record refers to, in the order `btf_type_visit_type_ids` visits them. */
  function RefCount(t: Rec): nat {
    var k := Kind(t);
    if SingleRefKind(k) || k == KIND_FWD || k == KIND_VAR || k == KIND_DECL_TAG then 1
    else if k == KIND_ARRAY then 2
    else if k == KIND_STRUCT || k == KIND_UNION || k == KIND_DATASEC then Vlen(t)
    else if k == KIND_FUNC_PROTO then 1 + Vlen(t)
    else 0
  }

  /** Word index of the i-th reference. */
  function RefSlot(t: Rec, i: nat): (w: nat)
    requires WF(t) && i < RefCount(t)
    ensures 2 <= w < 3 + |t.rest|
  {
    var k := Kind(t);
    if k == KIND_ARRAY then 3 + i
    else if k == KIND_STRUCT || k == KIND_UNION then 3 + 3 * i + 1
    else if k == KIND_DATASEC then 3 + 3 * i
    else if k == KIND_FUNC_PROTO && i > 0 then 3 + 2 * (i - 1) + 1
    else 2
  }

  function Ref(t: Rec, i: nat): u32
    requires WF(t) && i < RefCount(t)
  {
    Word(t, RefSlot(t, i))
  }

  function SetRef(t: Rec, i: nat, v: u32): (r: Rec)
    requires WF(t) && i < RefCount(t)
  {
    SetWord(t, RefSlot(t, i), v)
  }

  /** Whether word `w` of a record of kind `k` holds a reference. */
  predicate IsRefWord(k: nat, w: nat)
    requires w >= 2
  {
    if k == KIND_ARRAY then w == 3 || w == 4
    else if k == KIND_STRUCT || k == KIND_UNION then w >= 3 && (w - 3) % 3 == 1
    else if k == KIND_DATASEC then w >= 3 && (w - 3) % 3 == 0
    else if k == KIND_FUNC_PROTO then w == 2 || (w >= 3 && (w - 3) % 2 == 1)
    else w == 2 && (SingleRefKind(k) || k == KIND_FWD || k == KIND_VAR || k == KIND_DECL_TAG)
  }

  /** A record with its references blanked: its kind, names, sizes, offsets and values. */
  function Label(t: Rec): Rec {
    Rec(t.name, t.info, if IsRefWord(Kind(t), 2) then 0 else t.szt,
        seq(|t.rest|, j requires 0 <= j < |t.rest| => if IsRefWord(Kind(t), 3 + j) then 0 else t.rest[j]))
  }

  lemma {:induction false} SetRefFacts(t: Rec, i: nat, v: u32)
    requires WF(t) && i < RefCount(t)
    ensures var r := SetRef(t, i, v);
            && WF(r) && r.info == t.info && r.name == t.name && RefCount(r) == RefCount(t)
            && Label(r) == Label(t)
            && Ref(r, i) == v
            && forall j :: 0 <= j < RefCount(t) && j != i ==> Ref(r, j) == Ref(t, j)
  {
    var r := SetRef(t, i, v);
    var w := RefSlot(t, i);
    assert IsRefWord(Kind(t), w);
    assert Label(r).rest == Label(t).rest;
  }

  type Graph = seq<Rec>

  ghost predicate RefsInRange(t: Rec, n: nat)
    requires WF(t)
  {
    forall i :: 0 <= i < RefCount(t) ==> Ref(t, i) < n
  }

  /** A non-split type section: id 0 is void and every reference names an existing id. */
  ghost predicate WFGraph(g: Graph) {
    && 1 <= |g| <= BTF_MAX_NR_TYPES + 1
    && g[0] == VOID
    && forall i :: 0 <= i < |g| ==> WF(g[i]) && RefsInRange(g[i], |g|)
  }

  datatype Tree = Cut | Node(head: Rec, kids: seq<Tree>)

  /** The depth-`n` unfolding of a type: everything a reader of the type graph can see
      in `n` steps, with no trace of the numbering. */
  ghost function Unfold(g: Graph, x: nat, n: nat): Tree
    requires WFGraph(g) && x < |g|
    decreases n
  {
    if n == 0 then Cut
    else Node(Label(g[x]), seq(RefCount(g[x]), i requires 0 <= i < RefCount(g[x]) => Unfold(g, Ref(g[x], i), n - 1)))
  }

  /** Two types mean the same when all their unfoldings agree. */
  ghost predicate SameMeaning(g: Graph, x: nat, h: Graph, y: nat)
    requires WFGraph(g) && WFGraph(h) && x < |g| && y < |h|
  {
    forall n: nat :: Unfold(g, x, n) == Unfold(h, y, n)
  }

  lemma {:induction false} UnfoldStep(g: Graph, x: nat, h: Graph, y: nat, n: nat)
    requires WFGraph(g) && WFGraph(h) && x < |g| && y < |h|
    requires Label(g[x]) == Label(h[y])
    requires forall i :: 0 <= i < RefCount(g[x]) && i < RefCount(h[y]) ==>
                           Unfold(g, Ref(g[x], i), n) == Unfold(h, Ref(h[y], i), n)
    ensures Unfold(g, x, n + 1) == Unfold(h, y, n + 1)
  {
    assert g[x].info == h[y].info;
    assert Unfold(g, x, n + 1).kids == Unfold(h, y, n + 1).kids;
  }

  /** Record `h[y]` is record `g[y]` with references exchanged for ones of the same meaning in `g`. */
  ghost predicate SameUpToRefs(g: Graph, h: Graph, y: nat)
    requires WFGraph(g) && WFGraph(h) && |g| == |h| && y < |g|
  {
    && Label(g[y]) == Label(h[y])
    && RefCount(g[y]) == RefCount(h[y])
    && forall i :: 0 <= i < RefCount(g[y]) ==> SameMeaning(g, Ref(g[y], i), g, Ref(h[y], i))
  }

  /** Exchanging references for ones of the same meaning changes the meaning of no type. */
  lemma {:induction false} RedirectKeepsMeaning(g: Graph, h: Graph, x: nat, n: nat)
    requires WFGraph(g) && WFGraph(h) && |g| == |h| && x < |g|
    requires forall y :: 0 <= y < |g| ==> SameUpToRefs(g, h, y)
    ensures Unfold(g, x, n) == Unfold(h, x, n)
    decreases n
  {
    if n > 0 {
      assert SameUpToRefs(g, h, x);
      forall i | 0 <= i < RefCount(g[x])
        ensures Unfold(g, Ref(g[x], i), n - 1) == Unfold(h, Ref(h[x], i), n - 1)
      {
        RedirectKeepsMeaning(g, h, Ref(h[x], i), n - 1);
        assert SameMeaning(g, Ref(g[x], i), g, Ref(h[x], i));
      }
      UnfoldStep(g, x, h, x, n - 1);
    }
  }
}
