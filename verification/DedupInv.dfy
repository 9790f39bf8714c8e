/** What every step of BTF deduplication keeps about the type graph `g`, the canonical map `m`
    and the table of candidates `t`. */
module DedupInv {
  import opened Common
  import opened BtfTypes
  import opened BtfEqual
  import opened Forest
  import opened Bisim

  /** `dedup_table`: canonical candidates by signature hash. */
  type Table = map<nat, seq<nat>>

  function Cands(t: Table, h: nat): seq<nat> { if h in t then t[h] else [] }

  function Added(t: Table, h: nat, x: nat): Table { t[h := Cands(t, h) + [x]] }

  /** What a parent pointer may lead to: a type of the same name and kind or, from a forward declaration, the struct or
      union it stands for. */
  predicate EdgeOk(a: Rec, b: Rec) {
    && a.name == b.name
    && if IsFwd(a) && IsComposite(b) then Kind(b) == (if InfoKflag(a.info) then KIND_UNION else KIND_STRUCT)
       else Kind(a) == Kind(b) && (IsFwd(a) ==> InfoKflag(a.info) == InfoKflag(b.info))
  }

  ghost predicate KindAt(g: Graph, m: seq<u32>, x: nat)
    requires |m| == |g| && x < |g|
  {
    Mapped(m, x) ==> m[x] < |g| && EdgeOk(g[x], g[m[x]])
  }

  ghost predicate KindsOk(g: Graph, m: seq<u32>) {
    && WFMap(g, m)
    && forall x {:trigger KindAt(g, m, x)} :: 0 <= x < |g| ==> KindAt(g, m, x)
  }

  ghost predicate EntryOk(g: Graph, m: seq<u32>, h: nat, x: nat)
    requires WFMap(g, m)
  {
    && 1 <= x < |g| && Mapped(m, x)
    && Hash(g[x]) == h
    && (EqKind(Kind(g[x])) || IsComposite(g[x]))
    && (!IsFwd(g[x]) && !IsEnumFwd(g[x]) ==> m[x] == x)
  }

  /** Table entries are mapped and, unless forward declarations, still canonical. */
  ghost predicate TabOk(g: Graph, m: seq<u32>, t: Table) {
    && WFMap(g, m)
    && forall h, x {:trigger EntryOk(g, m, h, x)} :: x in Cands(t, h) ==> EntryOk(g, m, h, x)
  }

  /** A canonical type that is deduplicated by equality. */
  predicate EqCanonical(g: Graph, m: seq<u32>, x: nat)
    requires |m| == |g| && x < |g|
  {
    m[x] == x && EqKind(Kind(g[x]))
  }

  /** Every canonical type that is deduplicated by equality can be found. */
  ghost predicate TabFull(g: Graph, m: seq<u32>, t: Table) {
    && WFMap(g, m)
    && forall x {:trigger EqCanonical(g, m, x)} :: 1 <= x < |g| && EqCanonical(g, m, x) ==> x in Cands(t, Hash(g[x]))
  }

  /** No two canonical types deduplicated by equality are equal. */
  ghost predicate NoDups(g: Graph, m: seq<u32>) {
    && WFMap(g, m)
    && forall x, y {:trigger EqCanonical(g, m, x), EqCanonical(g, m, y)} ::
         1 <= x < y < |g| && EqCanonical(g, m, x) && EqCanonical(g, m, y) ==> g[x] != g[y]
  }

  ghost predicate Inv(g: Graph, m: seq<u32>, t: Table) {
    && KindsOk(g, m) && m[0] == 0
    && TabOk(g, m, t) && TabFull(g, m, t) && NoDups(g, m)
    && (NoForwards(g) ==> MapSound(g, m))
  }

  lemma {:induction false} InvInit(g: Graph, m: seq<u32>)
    requires WFGraph(g) && |m| == |g| && m[0] == 0
    requires forall x :: 1 <= x < |g| ==> m[x] == if FixedKind(Kind(g[x])) then x else UNPROCESSED
    ensures Inv(g, m, map[])
    ensures PrimStage(g, m, 1) && MapClosed(m)
  {
    var rank: seq<nat> := seq(|m|, i => 0);
    forall x | 0 <= x < |m| ensures RankAt(m, rank, x) {}
    assert Ranked(m, rank);
  }

  lemma {:induction false} CandidateInRange(g: Graph, m: seq<u32>, t: Table, h: nat, x: nat)
    requires Inv(g, m, t) && x in Cands(t, h)
    ensures 1 <= x < |g| && Mapped(m, x)
  {
    assert EntryOk(g, m, h, x);
  }

  ghost predicate Unlisted(t: Table, a: nat) { forall h :: a !in Cands(t, h) }

  lemma {:induction false} UnmappedUnlisted(g: Graph, m: seq<u32>, t: Table, a: nat)
    requires TabOk(g, m, t) && a < |g| && !Mapped(m, a)
    ensures Unlisted(t, a)
  {
    forall h ensures a !in Cands(t, h) { assert a in Cands(t, h) ==> EntryOk(g, m, h, a); }
  }

  /** Pointing a type that is not a candidate, or a forward declaration, at a type of the same meaning. */
  lemma {:induction false} InvLink(g: Graph, m: seq<u32>, t: Table, a: nat, b: u32)
    requires Inv(g, m, t) && 1 <= a < |g| && b < |g| && a != b && b <= BTF_MAX_NR_TYPES
    requires IsForest(m[a := b]) && EdgeOk(g[a], g[b])
    requires Unlisted(t, a) || IsFwd(g[a]) || IsEnumFwd(g[a])
    requires NoForwards(g) ==> SameMeaning(g, a, g, b)
    ensures Inv(g, m[a := b], t)
  {
    var n := m[a := b];
    forall x | 0 <= x < |g| ensures KindAt(g, n, x) && (NoForwards(g) ==> SoundAt(g, n, x)) {
      assert KindAt(g, m, x);
      assert NoForwards(g) ==> SoundAt(g, m, x);
    }
    forall h, x | x in Cands(t, h) ensures EntryOk(g, n, h, x) { assert EntryOk(g, m, h, x); }
    forall x | 1 <= x < |g| && EqCanonical(g, n, x) ensures EqCanonical(g, m, x) {}
  }

  /** Making a type that equals no candidate canonical and adding it to the table. */
  lemma {:induction false} InvSelf(g: Graph, m: seq<u32>, t: Table, a: u32)
    requires Inv(g, m, t) && 1 <= a < |g| && !Mapped(m, a)
    requires EqKind(Kind(g[a])) || IsComposite(g[a])
    requires EqKind(Kind(g[a])) ==> Searched(g, t, a, a)
    ensures Inv(g, m[a := a], Added(t, Hash(g[a]), a))
  {
    MakeRoot(m, a);
    var n, u := m[a := a], Added(t, Hash(g[a]), a);
    forall x | 0 <= x < |g| ensures KindAt(g, n, x) && (NoForwards(g) ==> SoundAt(g, n, x)) {
      assert KindAt(g, m, x);
      assert NoForwards(g) ==> SoundAt(g, m, x);
    }
    forall h, x | x in Cands(u, h) ensures EntryOk(g, n, h, x) {
      if x in Cands(t, h) { assert EntryOk(g, m, h, x); }
    }
    forall x | 1 <= x < |g| && EqCanonical(g, n, x)
      ensures x in Cands(u, Hash(g[x])) && (x != a ==> g[x] != g[a])
    {
      if x == a {
        assert Cands(u, Hash(g[x]))[|Cands(t, Hash(g[x]))|] == a;
      } else {
        assert EqCanonical(g, m, x);
        assert x in Cands(t, Hash(g[x]));
      }
    }
    forall x, y | 1 <= x < y < |g| && EqCanonical(g, n, x) && EqCanonical(g, n, y) ensures g[x] != g[y] {
      if x != a && y != a { assert EqCanonical(g, m, x) && EqCanonical(g, m, y); }
    }
  }

  /** Kinds the primitive pass deals with. */
  predicate PrimKind(k: nat) { k == KIND_INT || k == KIND_ENUM || k == KIND_FLOAT || k == KIND_FWD }

  /** VAR and DATASEC are canonical from the start. */
  predicate FixedKind(k: nat) { k == KIND_VAR || k == KIND_DATASEC }

  predicate PrimAt(g: Graph, m: seq<u32>, x: nat, i: nat)
    requires |m| == |g| && x < |g|
  {
    if PrimKind(Kind(g[x])) then (if x < i then Mapped(m, x) else m[x] == UNPROCESSED)
    else if FixedKind(Kind(g[x])) then m[x] == x
    else m[x] == UNPROCESSED && (x < i ==> KnownKind(Kind(g[x])))
  }

  /** The primitive pass has dealt with ids below `i`. */
  ghost predicate PrimStage(g: Graph, m: seq<u32>, i: nat) {
    && |m| == |g|
    && forall x {:trigger PrimAt(g, m, x, i)} :: 1 <= x < |g| ==> PrimAt(g, m, x, i)
  }

  predicate ClosedId(m: seq<u32>, x: nat)
    requires x < |m|
  {
    Mapped(m, x) ==> m[x] < |m| && Mapped(m, m[x])
  }

  /** Ids are mapped to mapped ids only. */
  ghost predicate MapClosed(m: seq<u32>) {
    forall x {:trigger ClosedId(m, x)} :: 0 <= x < |m| ==> ClosedId(m, x)
  }

  /** While an ENUM looks through its candidates, only canonical forward enums move, and to it. */
  ghost predicate EnumMoved(g: Graph, m0: seq<u32>, m: seq<u32>, id: u32) {
    && |m| == |m0| == |g| && id < |g| && m[id] == m0[id]
    && forall x :: 0 <= x < |g| && m[x] != m0[x] ==> m[x] == id && IsEnumFwd(g[x]) && Mapped(m0, x)
  }

  lemma {:induction false} EnumStep(g: Graph, m0: seq<u32>, m: seq<u32>, t: Table, id: u32, x: nat)
    requires Inv(g, m, t) && EnumMoved(g, m0, m, id) && 1 <= id < |g| && !Mapped(m, id)
    requires Kind(g[id]) == KIND_ENUM && x in Cands(t, Hash(g[id]))
    requires x < |g| && CompatEnum(g[id], g[x]) && !EqualEnum(g[id], g[x]) && !IsEnumFwd(g[id])
    ensures Inv(g, m[x := id], t) && EnumMoved(g, m0, m[x := id], id)
  {
    assert EntryOk(g, m, Hash(g[id]), x);
    CompatEnumSameHash(g[id], g[x]);
    LinkToRoot(m, x, id);
    InvLink(g, m, t, x, id);
  }

  /** The outcome of a candidate search: `r` is `id` itself when nothing in the table equals it. */
  ghost predicate Searched(g: Graph, t: Table, id: nat, r: nat)
    requires WFGraph(g) && id < |g|
  {
    if r == id then forall x :: x in Cands(t, Hash(g[id])) ==> x < |g| && g[x] != g[id]
    else r in Cands(t, Hash(g[id])) && r < |g|
  }

  lemma {:induction false} PrimSelf(g: Graph, m0: seq<u32>, m: seq<u32>, t: Table, id: u32)
    requires Inv(g, m, t) && EnumMoved(g, m0, m, id) && 1 <= id < |g|
    requires PrimStage(g, m0, id) && MapClosed(m0) && PrimKind(Kind(g[id])) && Searched(g, t, id, id)
    ensures Inv(g, m[id := id], Added(t, Hash(g[id]), id))
    ensures PrimStage(g, m[id := id], id + 1) && MapClosed(m[id := id])
  {
    assert PrimAt(g, m0, id, id);
    InvSelf(g, m, t, id);
    PrimStageStep(g, m0, m, id, id);
  }

  lemma {:induction false} PrimStageStep(g: Graph, m0: seq<u32>, m: seq<u32>, id: u32, r: u32)
    requires WFGraph(g) && EnumMoved(g, m0, m, id) && 1 <= id < |g|
    requires PrimStage(g, m0, id) && MapClosed(m0) && PrimKind(Kind(g[id]))
    requires r < |g| && r <= BTF_MAX_NR_TYPES && (r == id || Mapped(m, r))
    ensures PrimStage(g, m[id := r], id + 1) && MapClosed(m[id := r])
  {
    var n := m[id := r];
    var j: nat := id + 1;
    forall x | 1 <= x < |g| ensures PrimAt(g, n, x, j) {
      assert PrimAt(g, m0, x, id);
    }
    forall x | 0 <= x < |g| ensures ClosedId(n, x) {
      assert ClosedId(m0, x);
    }
  }

  lemma {:induction false} PrimLink(g: Graph, m0: seq<u32>, m: seq<u32>, t: Table, id: u32, r: u32)
    requires Inv(g, m, t) && EnumMoved(g, m0, m, id) && 1 <= id < |g| && r != id
    requires PrimStage(g, m0, id) && MapClosed(m0) && PrimKind(Kind(g[id])) && Searched(g, t, id, r)
    requires Kind(g[r]) == Kind(g[id]) && g[r].name == g[id].name
    requires if Kind(g[id]) == KIND_ENUM && IsEnumFwd(g[id]) then m == m0 else g[r] == g[id]
    requires Kind(g[id]) != KIND_ENUM ==> m == m0
    ensures Inv(g, m[id := r], t)
    ensures PrimStage(g, m[id := r], id + 1) && MapClosed(m[id := r])
  {
    assert PrimAt(g, m0, id, id);
    assert EntryOk(g, m, Hash(g[id]), r);
    if Kind(g[id]) == KIND_ENUM && !IsEnumFwd(g[id]) {
      LinkToRoot(m, id, r);
    } else {
      forall x | 0 <= x < |m| && x != id ensures m[x] != id { assert ClosedId(m0, x); }
      LinkFresh(m, id, r);
    }
    if g[r] == g[id] {
      forall n: nat ensures Unfold(g, id, n) == Unfold(g, r, n) { SameRecordSameMeaning(g, id, r, n); }
    }
    UnmappedUnlisted(g, m, t, id);
    InvLink(g, m, t, id, r);
    PrimStageStep(g, m0, m, id, r);
  }

  lemma {:induction false} PrimStageSkip(g: Graph, m: seq<u32>, id: nat)
    requires PrimStage(g, m, id) && 1 <= id < |g| && KnownKind(Kind(g[id])) && !PrimKind(Kind(g[id]))
    ensures PrimStage(g, m, id + 1)
  {
    var j := id + 1;
    forall x | 1 <= x < |g| ensures PrimAt(g, m, x, j) {
      assert PrimAt(g, m, x, id);
    }
  }

  /** What a search by the type's own equality test finds. */
  lemma {:induction false} SearchFacts(g: Graph, m: seq<u32>, t: Table, id: nat)
    requires Inv(g, m, t) && 1 <= id < |g| && EqKind(Kind(g[id])) && !Mapped(m, id)
    ensures forall x :: x in Cands(t, Hash(g[id])) ==>
                          x < |g| && x != id && (EqualByKind(g[id], g[x]) <==> g[x] == g[id])
  {
    forall x | x in Cands(t, Hash(g[id]))
      ensures x < |g| && x != id && (EqualByKind(g[id], g[x]) <==> g[x] == g[id])
    {
      assert EntryOk(g, m, Hash(g[id]), x);
      EqualMeansIdentical(g[id], g[x]);
    }
  }

  predicate StructAt(g: Graph, m: seq<u32>, x: nat, i: nat)
    requires |m| == |g| && x < |g|
  {
    && KnownKind(Kind(g[x]))
    && if RefKind(Kind(g[x])) then m[x] == UNPROCESSED
       else if IsComposite(g[x]) then Mapped(m, x) || (m[x] == UNPROCESSED && x >= i)
       else Mapped(m, x)
  }

  /** The struct pass has dealt with ids below `i`. */
  ghost predicate StructStage(g: Graph, m: seq<u32>, i: nat) {
    && |m| == |g|
    && forall x {:trigger StructAt(g, m, x, i)} :: 1 <= x < |g| ==> StructAt(g, m, x, i)
  }

  lemma {:induction false} PrimsDone(g: Graph, m: seq<u32>)
    requires WFGraph(g) && PrimStage(g, m, |g|)
    ensures StructStage(g, m, 1)
  {
    forall x | 1 <= x < |g| ensures StructAt(g, m, x, 1) { assert PrimAt(g, m, x, |g|); }
  }

  /** Once all structs are mapped, parent pointers stay among mapped types. */
  lemma {:induction false} StructsClose(g: Graph, m: seq<u32>)
    requires KindsOk(g, m) && StructStage(g, m, |g|) && m[0] == 0
    ensures MapClosed(m)
  {
    forall x | 0 <= x < |m| ensures ClosedId(m, x) {
      if x > 0 && Mapped(m, x) {
        assert KindAt(g, m, x) && StructAt(g, m, x, |g|);
        if m[x] > 0 { assert StructAt(g, m, m[x], |g|); }
      }
    }
  }

  lemma {:induction false} RootKind(g: Graph, m: seq<u32>, x: nat)
    requires KindsOk(g, m) && x < |g|
    ensures EdgeOk(g[x], g[Root(m, x)])
    decreases RankOf(m)[x]
  {
    if !IsRoot(m, x) {
      ForestAt(m, x);
      assert KindAt(g, m, x);
      RootKind(g, m, m[x]);
    }
  }

  /** What the pairs of a closed hypothetical map are good for. */
  ghost predicate GoodPair(g: Graph, a: nat, c: nat) {
    && WFGraph(g) && a < |g| && c < |g|
    && LocalMatch(g[a], g[c])
    && (NoForwards(g) ==> SameMeaning(g, a, g, c))
  }

  ghost predicate GoodPairs(g: Graph, h: seq<u32>, l: seq<nat>) {
    && |h| == |g|
    && (forall k :: 0 <= k < |l| ==> l[k] < |g|)
    && (forall k {:trigger l[k]} :: 0 <= k < |l| ==> GoodPair(g, h[l[k]], l[k]))
  }

  /** The map after `btf_dedup_merge_hypot_map` has dealt with the pair (a, c). */
  ghost function MergedPair(g: Graph, m: seq<u32>, a: nat, c: nat): seq<u32>
    requires WFMap(g, m) && a < |g| && c < |g|
  {
    var t, r: nat := Root(m, a), Root(m, c);
    if !IsFwd(g[t]) && IsFwd(g[r]) then m[r := t]
    else if IsFwd(g[t]) && !IsFwd(g[r]) then m[t := r]
    else if IsComposite(g[t]) && !IsFwd(g[r]) && Mapped(m, r) && !Mapped(m, t) then m[t := r]
    else m
  }

  /** `x` resolves to something other than a forward declaration. */
  ghost predicate Defined(g: Graph, m: seq<u32>, x: nat)
    requires WFMap(g, m) && x < |g|
  {
    !IsFwd(g[Root(m, x)])
  }

  /** A pair of a forward declaration and a definition: both resolve to a definition now. */
  ghost predicate FwdResolved(g: Graph, m: seq<u32>, a: nat, c: nat)
    requires WFMap(g, m) && a < |g| && c < |g|
  {
    IsFwd(g[a]) != IsFwd(g[c]) ==> Defined(g, m, a) && Defined(g, m, c)
  }

  ghost predicate KeepsDefined(g: Graph, m: seq<u32>, n: seq<u32>)
    requires WFMap(g, m) && WFMap(g, n)
  {
    forall x {:trigger Defined(g, n, x)} :: 0 <= x < |g| && Defined(g, m, x) ==> Defined(g, n, x)
  }

  /** The first `k` recorded pairs no longer join a forward declaration to a definition. */
  ghost predicate PairsResolved(g: Graph, m: seq<u32>, h: seq<u32>, l: seq<nat>, k: nat) {
    && WFMap(g, m) && GoodPairs(g, h, l)
    && forall j {:trigger l[j]} :: 0 <= j < k && j < |l| ==> h[l[j]] < |g| && FwdResolved(g, m, h[l[j]], l[j])
  }

  lemma {:induction false} PairsStep(g: Graph, m: seq<u32>, n: seq<u32>, h: seq<u32>, l: seq<nat>, k: nat)
    requires PairsResolved(g, m, h, l, k) && WFMap(g, n) && KeepsDefined(g, m, n) && k < |l|
    requires h[l[k]] < |g| && FwdResolved(g, n, h[l[k]], l[k])
    ensures PairsResolved(g, n, h, l, k + 1)
  {
    forall j | 0 <= j < k + 1 && j < |l| ensures h[l[j]] < |g| && FwdResolved(g, n, h[l[j]], l[j]) {
      assert GoodPair(g, h[l[j]], l[j]);
      if j < k { assert FwdResolved(g, m, h[l[j]], l[j]); }
    }
  }

  /** Merging a pair resolves a forward declaration in it, and undoes no earlier resolution. */
  lemma {:induction false} MergeResolves(g: Graph, m: seq<u32>, t: Table, a: nat, c: nat, x: nat)
    requires Inv(g, m, t) && GoodPair(g, a, c) && x < |g| && WFMap(g, MergedPair(g, m, a, c))
    requires Inv(g, MergedPair(g, m, a, c), t)
    ensures Defined(g, m, x) ==> Defined(g, MergedPair(g, m, a, c), x)
    ensures FwdResolved(g, MergedPair(g, m, a, c), a, c)
  {
    var ra, rc: nat := Root(m, a), Root(m, c);
    RootKind(g, m, a);
    RootKind(g, m, c);
    if !IsFwd(g[ra]) && IsFwd(g[rc]) {
      RootAfterLink(m, rc, ra, x);
      RootAfterLink(m, rc, ra, a);
      RootAfterLink(m, rc, ra, c);
    } else if MergedPair(g, m, a, c) != m {
      RootAfterLink(m, ra, rc, x);
      RootAfterLink(m, ra, rc, a);
      RootAfterLink(m, ra, rc, c);
    }
  }

  lemma {:induction false} StructLinkStage(g: Graph, m: seq<u32>, a: nat, b: u32, i: nat)
    requires StructStage(g, m, i) && 1 <= a < |g| && b <= BTF_MAX_NR_TYPES && !RefKind(Kind(g[a]))
    ensures StructStage(g, m[a := b], i)
  {
    var n := m[a := b];
    forall x | 1 <= x < |g| ensures StructAt(g, n, x, i) { assert StructAt(g, m, x, i); }
  }

  lemma {:induction false} MergePair(g: Graph, m: seq<u32>, t: Table, a: nat, c: nat, i: nat)
    requires Inv(g, m, t) && StructStage(g, m, i) && GoodPair(g, a, c)
    ensures Inv(g, MergedPair(g, m, a, c), t) && StructStage(g, MergedPair(g, m, a, c), i)
  {
    var ra, rc: nat := Root(m, a), Root(m, c);
    RootKind(g, m, a);
    RootKind(g, m, c);
    if !IsFwd(g[ra]) && IsFwd(g[rc]) {
      LinkToRoot(m, rc, ra);
      InvLink(g, m, t, rc, ra);
      StructLinkStage(g, m, rc, ra, i);
    } else if IsFwd(g[ra]) && !IsFwd(g[rc]) {
      LinkToRoot(m, ra, rc);
      InvLink(g, m, t, ra, rc);
      StructLinkStage(g, m, ra, rc, i);
    } else if IsComposite(g[ra]) && !IsFwd(g[rc]) && Mapped(m, rc) && !Mapped(m, ra) {
      if NoForwards(g) {
        RootSound(g, m, a);
        RootSound(g, m, c);
        forall n: nat ensures Unfold(g, ra, n) == Unfold(g, rc, n) {}
      }
      UnmappedUnlisted(g, m, t, ra);
      LinkToRoot(m, ra, rc);
      InvLink(g, m, t, ra, rc);
      StructLinkStage(g, m, ra, rc, i);
    }
  }

  /** A struct found equivalent to a candidate. */
  lemma {:induction false} StructLink(g: Graph, m: seq<u32>, t: Table, id: u32, c: u32, i: nat)
    requires Inv(g, m, t) && StructStage(g, m, i) && 1 <= id < |g| && IsComposite(g[id]) && Unlisted(t, id)
    requires c in Cands(t, Hash(g[id])) && c < |g| && SameShape(g[id], g[c])
    requires NoForwards(g) ==> SameMeaning(g, id, g, c)
    ensures Inv(g, m[id := c], t) && StructStage(g, m[id := c], i)
  {
    assert EntryOk(g, m, Hash(g[id]), c);
    LinkToRoot(m, id, c);
    InvLink(g, m, t, id, c);
    StructLinkStage(g, m, id, c, i);
  }

  lemma {:induction false} StructNext(g: Graph, m: seq<u32>, i: nat)
    requires StructStage(g, m, i) && (i < |g| && IsComposite(g[i]) ==> Mapped(m, i))
    ensures StructStage(g, m, i + 1)
  {
    var j := i + 1;
    forall x | 1 <= x < |g| ensures StructAt(g, m, x, j) { assert StructAt(g, m, x, i); }
  }

  /** Two types that some functional bisimulation pairs. */
  ghost predicate Bisimilar(g: Graph, m: seq<u32>, a: nat, c: nat)
    requires WFMap(g, m) && a < |g| && c < |g|
  {
    exists w: map<nat, nat> :: Functional(g, m, w) && Partners(g, m, w, a, c)
  }

  /** A positive answer of the equivalence search, put to use. */
  lemma {:induction false} EquivMeans(g: Graph, m: seq<u32>, t: Table, h: seq<u32>, l: seq<nat>, a: nat, c: nat)
    requires Inv(g, m, t) && HypotOk(g, h, l) && ClosedFrom(g, m, h, l, 0)
    requires a < |g| && c < |g| && Related(g, m, h, a, c)
    ensures GoodPairs(g, h, l)
    ensures NoForwards(g) ==> SameMeaning(g, a, g, c)
  {
    forall x | 0 <= x < |g| && h[x] <= BTF_MAX_NR_TYPES ensures ClosedAt(g, m, h, x) {
      var k :| 0 <= k < |l| && l[k] == x;
    }
    assert Closed(g, m, h);
    forall k | 0 <= k < |l| ensures GoodPair(g, h[l[k]], l[k]) {
      assert l[k] in l && h[l[k]] <= BTF_MAX_NR_TYPES;
      assert ClosedAt(g, m, h, l[k]);
      if NoForwards(g) { ClosedSameMeaning(g, m, h, l[k]); }
    }
    if NoForwards(g) {
      forall n: nat ensures Unfold(g, a, n) == Unfold(g, c, n) {
        ClosedUnfold(g, m, h, n);
        assert PairAlike(g, h, c, n);
        RelatedUnfold(g, m, h, a, c, n);
      }
    }
  }

  /** A struct of the same shape, met under the same hash, is canonical. */
  lemma {:induction false} CandidateRoot(g: Graph, m: seq<u32>, t: Table, id: nat, c: nat, h: nat)
    requires Inv(g, m, t) && id < |g| && !Mapped(m, id) && IsComposite(g[id])
    requires c in Cands(t, h) && c < |g| && ShallowEqualStruct(g[id], g[c])
    ensures IsComposite(g[c]) && m[c] == c && c != id && Root(m, c) == c && Root(m, id) == id
  {
    assert EntryOk(g, m, h, c);
  }

  predicate SameShape(a: Rec, b: Rec) { WF(a) && WF(b) && IsComposite(a) && ShallowEqualStruct(a, b) }

  /** The shape of a struct or union is all but its references. */
  lemma {:induction false} ShapeIsLabel(a: Rec, b: Rec)
    requires WF(a) && WF(b) && IsComposite(a)
    ensures SameShape(a, b) <==> Label(a) == Label(b)
  {
    if SameShape(a, b) { StructLabel(a, b); }
    if Label(a) == Label(b) {
      assert Label(a).info == a.info && Label(b).info == b.info && Label(a).name == a.name && Label(b).name == b.name;
      assert Label(a).szt == a.szt && Label(b).szt == b.szt;
      forall i | 0 <= i < Vlen(a) ensures a.rest[3 * i] == b.rest[3 * i] && a.rest[3 * i + 2] == b.rest[3 * i + 2] {
        assert !IsRefWord(Kind(a), 3 + 3 * i) by { assert 3 * i % 3 == 0; }
        assert !IsRefWord(Kind(a), 3 + (3 * i + 2)) by { assert (3 * i + 2) % 3 == 2; }
        assert Label(a).rest[3 * i] == a.rest[3 * i] && Label(b).rest[3 * i] == b.rest[3 * i];
        assert Label(a).rest[3 * i + 2] == a.rest[3 * i + 2] && Label(b).rest[3 * i + 2] == b.rest[3 * i + 2];
      }
    }
  }

  /** A canonical struct or union. */
  predicate CanonicalStruct(g: Graph, m: seq<u32>, x: nat)
    requires |m| == |g| && x < |g|
  {
    m[x] == x && IsComposite(g[x])
  }

  /** Every canonical struct or union can be found. */
  ghost predicate StructsListed(g: Graph, m: seq<u32>, t: Table) {
    && WFGraph(g) && |m| == |g|
    && forall x {:trigger CanonicalStruct(g, m, x)} :: 1 <= x < |g| && CanonicalStruct(g, m, x) ==> x in Cands(t, Hash(g[x]))
  }

  /** No canonical struct or union with all but its references equal is related to `id` by a functional bisimulation. */
  ghost predicate NoneBisimilar(g: Graph, m: seq<u32>, id: nat)
    requires WFMap(g, m) && id < |g|
  {
    forall c {:trigger Bisimilar(g, m, id, c)} ::
      1 <= c < |g| && IsComposite(g[c]) && m[c] == c && Label(g[c]) == Label(g[id]) ==> !Bisimilar(g, m, id, c)
  }

  /** No candidate of its hash and shape is related to `id` by a functional bisimulation. */
  ghost predicate NoCandidate(g: Graph, m: seq<u32>, t: Table, id: nat)
    requires WFMap(g, m) && id < |g|
  {
    forall c {:trigger Bisimilar(g, m, id, c)} ::
      c in Cands(t, Hash(g[id])) && c < |g| && SameShape(g[id], g[c]) ==> !Bisimilar(g, m, id, c)
  }

  /** That no candidate is suffices, because each such struct is one. */
  lemma {:induction false} NoneAmongCandidates(g: Graph, m: seq<u32>, t: Table, id: nat)
    requires WFMap(g, m) && id < |g| && IsComposite(g[id]) && StructsListed(g, m, t) && NoCandidate(g, m, t, id)
    ensures NoneBisimilar(g, m, id)
  {
    hide Bisimilar, Hash;
    forall c | 1 <= c < |g| && IsComposite(g[c]) && m[c] == c && Label(g[c]) == Label(g[id]) ensures !Bisimilar(g, m, id, c) {
      assert CanonicalStruct(g, m, c);
      ShapeIsLabel(g[id], g[c]);
      SameShapeSameHash(g[id], g[c]);
    }
  }

  /** How the map changes while structs are merged: only forward declarations and types not mapped so far move, and
      none becomes canonical. */
  ghost predicate MergedOn(g: Graph, m: seq<u32>, n: seq<u32>) {
    && |m| == |n| == |g|
    && forall x {:trigger n[x]} :: 0 <= x < |g| ==> (n[x] == x ==> m[x] == x) && (Mapped(m, x) ==> Mapped(n, x))
                                                    && (Mapped(m, x) && !IsFwd(g[x]) ==> n[x] == m[x])
  }

  lemma {:induction false} MergedOnTrans(g: Graph, m: seq<u32>, n: seq<u32>, o: seq<u32>)
    requires MergedOn(g, m, n) && MergedOn(g, n, o)
    ensures MergedOn(g, m, o)
  {
    forall x | 0 <= x < |g| ensures (o[x] == x ==> m[x] == x) && (Mapped(m, x) ==> Mapped(o, x)) && (Mapped(m, x) && !IsFwd(g[x]) ==> o[x] == m[x]) {
      assert n[x] == n[x];
    }
  }

  lemma {:induction false} MergedNone(g: Graph, m: seq<u32>)
    requires |m| == |g|
    ensures MergedOn(g, m, m)
  {
  }

  lemma {:induction false} PairMergedOn(g: Graph, m: seq<u32>, a: nat, c: nat)
    requires WFMap(g, m) && a < |g| && c < |g|
    requires forall x :: 0 <= x < |g| && Mapped(m, x) ==> m[x] < |g|
    ensures MergedOn(g, m, MergedPair(g, m, a, c))
  {
  }

  lemma {:induction false} PairMerged(g: Graph, m: seq<u32>, t: Table, a: nat, c: nat)
    requires Inv(g, m, t) && a < |g| && c < |g|
    ensures MergedOn(g, m, MergedPair(g, m, a, c))
  {
    hide MergedOn, MergedPair;
    forall x | 0 <= x < |g| && Mapped(m, x) ensures m[x] < |g| { assert KindAt(g, m, x); }
    PairMergedOn(g, m, a, c);
  }

  lemma {:induction false} StillListed(g: Graph, m: seq<u32>, n: seq<u32>, t: Table)
    requires StructsListed(g, m, t) && MergedOn(g, m, n)
    ensures StructsListed(g, n, t)
  {
    forall x | 1 <= x < |g| && CanonicalStruct(g, n, x) ensures x in Cands(t, Hash(g[x])) { assert CanonicalStruct(g, m, x); }
  }

  /** A new canonical struct is listed with the others. */
  lemma {:induction false} NewListed(g: Graph, m: seq<u32>, t: Table, id: u32)
    requires StructsListed(g, m, t) && 1 <= id < |g|
    ensures StructsListed(g, m[id := id], Added(t, Hash(g[id]), id))
  {
    hide Hash;
    var n, u := m[id := id], Added(t, Hash(g[id]), id);
    forall x | 1 <= x < |g| && CanonicalStruct(g, n, x) ensures x in Cands(u, Hash(g[x])) {
      if x == id {
        assert Cands(u, Hash(g[x]))[|Cands(t, Hash(g[x]))|] == x;
      } else {
        assert CanonicalStruct(g, m, x);
        assert x in Cands(t, Hash(g[x]));
      }
    }
  }

  /** `at[x]` is the map as it was before struct or union `x` was dealt with, for those before `n`: structs and unions
      from `x` on were not canonical then, and what was canonical then still is. */
  ghost predicate Before(g: Graph, at: seq<seq<u32>>, m: seq<u32>, n: nat) {
    && |at| == n <= |g| == |m|
    && (forall x {:trigger at[x]} :: 1 <= x < n ==> WFMap(g, at[x]) && StructStage(g, at[x], x))
    && (forall x, y {:trigger at[x][y]} :: 1 <= x < n && 0 <= y < |g| && y < |at[x]| && Mapped(at[x], y) && !IsFwd(g[y]) ==> m[y] == at[x][y])
    && (forall x, c {:trigger at[x][c]} :: 1 <= c < x < n && c < |at[x]| && IsComposite(g[c]) && m[c] == c ==> at[x][c] == c)
  }

  /** The same for one turn of the struct pass, in which `id` may become canonical. */
  ghost predicate MergedBut(g: Graph, m: seq<u32>, n: seq<u32>, id: nat) {
    && |m| == |n| == |g|
    && forall x {:trigger n[x]} :: 0 <= x < |g| ==> (n[x] == x && x != id ==> m[x] == x) && (Mapped(m, x) ==> Mapped(n, x))
                                                    && (Mapped(m, x) && !IsFwd(g[x]) ==> n[x] == m[x])
  }

  lemma {:induction false} MergedAndSet(g: Graph, m: seq<u32>, n: seq<u32>, id: nat, r: u32)
    requires MergedOn(g, m, n) && id < |g| && !Mapped(m, id) && r <= BTF_MAX_NR_TYPES
    ensures MergedBut(g, m, n[id := r], id)
  {
    var o := n[id := r];
    forall x | 0 <= x < |g| ensures (o[x] == x && x != id ==> m[x] == x) && (Mapped(m, x) ==> Mapped(o, x))
                                    && (Mapped(m, x) && !IsFwd(g[x]) ==> o[x] == m[x]) {
      assert n[x] == n[x];
    }
  }

  /** No struct or union from `n` on is canonical. */
  ghost predicate NoneCanonical(g: Graph, m: seq<u32>, n: nat) {
    |m| == |g| && forall x {:trigger m[x]} :: 1 <= x < |g| && n <= x && IsComposite(g[x]) ==> m[x] != x
  }

  lemma {:induction false} LinkListed(g: Graph, m: seq<u32>, t: Table, id: nat, r: u32)
    requires StructsListed(g, m, t) && id < |g| && r != id
    ensures StructsListed(g, m[id := r], t)
  {
    forall x | 1 <= x < |g| && CanonicalStruct(g, m[id := r], x) ensures x in Cands(t, Hash(g[x])) { assert CanonicalStruct(g, m, x); }
  }

  lemma {:induction false} StartHistory(g: Graph, m: seq<u32>, t: Table)
    requires WFMap(g, m) && NoneCanonical(g, m, 1)
    ensures Before(g, [m], m, 1) && NoTwins(g, [m], m, 1) && StructsListed(g, m, t)
  {
    forall x | 1 <= x < |g| ensures !CanonicalStruct(g, m, x) { assert IsComposite(g[x]) ==> m[x] != x; }
  }

  /** The history goes on by one turn of the struct pass. */
  lemma {:induction false} HistoryOn(g: Graph, at: seq<seq<u32>>, m: seq<u32>, m2: seq<u32>, id: nat)
    requires 1 <= id < |g| && Before(g, at, m, id) && NoTwins(g, at, m, id) && WFMap(g, m) && StructStage(g, m, id)
    requires NoneCanonical(g, m, id) && MergedBut(g, m, m2, id)
    requires m2[id] == id && IsComposite(g[id]) ==> NoneBisimilar(g, m, id)
    ensures Before(g, at + [m], m2, id + 1) && NoTwins(g, at + [m], m2, id + 1) && NoneCanonical(g, m2, id + 1)
  {
    hide StructStage, Bisimilar, WFMap;
    var as2 := at + [m];
    forall x | 1 <= x < id + 1 ensures WFMap(g, as2[x]) && StructStage(g, as2[x], x) { assert x < id ==> as2[x] == at[x]; }
    forall x, y | 1 <= x < id + 1 && 0 <= y < |g| && y < |as2[x]| && Mapped(as2[x], y) && !IsFwd(g[y]) ensures m2[y] == as2[x][y] {
      if x < id { assert as2[x] == at[x] && at[x][y] == at[x][y]; }
      assert m2[y] == m2[y];
    }
    forall x, c | 1 <= c < x < id + 1 && c < |as2[x]| && IsComposite(g[c]) && m2[c] == c ensures as2[x][c] == c {
      assert m[c] == c;
      if x < id { assert as2[x] == at[x] && at[x][c] == at[x][c]; }
    }
    forall c, x | 1 <= c < x < id + 1 && Twins(g, m2, c, x) ensures WFMap(g, as2[x]) && !Bisimilar(g, as2[x], x, c) {
      assert m[c] == c;
      if x < id {
        assert m[x] == x && Twins(g, m, c, x) && as2[x] == at[x];
      }
    }
  }

  /** A canonical forward enum beside a canonical full enum of the same name, size and signedness. */
  predicate Beside(g: Graph, m: seq<u32>, x: nat, y: nat)
    requires |m| == |g| && x < |g| && y < |g|
  {
    && m[x] == x && m[y] == y && Kind(g[x]) == KIND_ENUM && Kind(g[y]) == KIND_ENUM && Vlen(g[x]) == 0 && Vlen(g[y]) != 0
    && g[x].name == g[y].name && g[x].szt == g[y].szt && InfoKflag(g[x].info) == InfoKflag(g[y].info) && g[x].info / 0x1_0000 == g[y].info / 0x1_0000
  }

  /** Forward enums are resolved. */
  ghost predicate EnumsResolved(g: Graph, m: seq<u32>) {
    |m| == |g| && forall x, y {:trigger Beside(g, m, x, y)} :: 1 <= x < |g| && 1 <= y < |g| ==> !Beside(g, m, x, y)
  }

  lemma {:induction false} NoEnumsYet(g: Graph, m: seq<u32>)
    requires PrimStage(g, m, 1) && |g| <= BTF_MAX_NR_TYPES + 1
    ensures EnumsResolved(g, m)
  {
    forall x, y | 1 <= x < |g| && 1 <= y < |g| ensures !Beside(g, m, x, y) { assert PrimAt(g, m, x, 1); }
  }

  lemma {:induction false} NoStructsYet(g: Graph, m: seq<u32>)
    requires PrimStage(g, m, |g|) && |g| <= BTF_MAX_NR_TYPES + 1
    ensures NoneCanonical(g, m, 1)
  {
    forall x | 1 <= x < |g| && IsComposite(g[x]) ensures m[x] != x { assert PrimAt(g, m, x, |g|); }
  }

  /** No compatible candidate of an enum that becomes canonical is canonical any more. */
  ghost predicate EnumAlone(g: Graph, m: seq<u32>, t: Table, id: nat)
    requires WFGraph(g) && |m| == |g| && id < |g| && Kind(g[id]) == KIND_ENUM
  {
    forall x {:trigger x in Cands(t, Hash(g[id]))} :: x in Cands(t, Hash(g[id])) && x < |g| && CompatEnum(g[id], g[x]) ==> m[x] != x
  }

  lemma {:induction false} ResolvedStep(g: Graph, m0: seq<u32>, m: seq<u32>, t: Table, id: u32, r: u32)
    requires Inv(g, m0, t) && EnumMoved(g, m0, m, id) && 1 <= id < |g| && m0[id] != id && EnumsResolved(g, m0)
    requires r == id && Kind(g[id]) == KIND_ENUM ==> EnumAlone(g, m, t, id)
    ensures EnumsResolved(g, m[id := r])
  {
    hide Hash;
    var n := m[id := r];
    forall x, y | 1 <= x < |g| && 1 <= y < |g| ensures !Beside(g, n, x, y) {
      assert !Beside(g, m0, x, y);
      if Beside(g, n, x, y) && (x == id || y == id) {
        var z := if x == id then y else x;
        assert m0[z] == z && EqCanonical(g, m0, z);
        CompatEnumSameHash(g[id], g[z]);
      }
    }
  }

  lemma {:induction false} StillResolved(g: Graph, m: seq<u32>, n: seq<u32>, id: nat)
    requires EnumsResolved(g, m) && MergedBut(g, m, n, id) && id < |g| && Kind(g[id]) != KIND_ENUM
    ensures EnumsResolved(g, n)
  {
    forall x, y | 1 <= x < |g| && 1 <= y < |g| ensures !Beside(g, n, x, y) {
      assert !Beside(g, m, x, y);
    }
  }

  /** No two canonical structs or unions below `n` that differ in references only were bisimilar when the later one was
      dealt with. */
  ghost predicate NoTwins(g: Graph, at: seq<seq<u32>>, m: seq<u32>, n: nat) {
    && n <= |at| && n <= |g| == |m|
    && (forall x {:trigger at[x]} :: 1 <= x < n ==> WFMap(g, at[x]))
    && (forall c, x {:trigger Twins(g, m, c, x)} :: 1 <= c < x < n && Twins(g, m, c, x) ==> !Bisimilar(g, at[x], x, c))
  }

  /** Two canonical structs or unions that differ in references only. */
  predicate Twins(g: Graph, m: seq<u32>, c: nat, x: nat)
    requires |m| == |g| && c < |g| && x < |g|
  {
    IsComposite(g[c]) && IsComposite(g[x]) && m[c] == c && m[x] == x && Label(g[c]) == Label(g[x])
  }
}
