/** What a successful run of `btf_dedup_is_equiv` establishes: the hypothetical map is a closed
    bisimulation, and without forward declarations a bisimulation relates types of one meaning. */
module Bisim {
  import opened Common
  import opened BtfTypes
  import opened BtfEqual
  import opened Forest
  import Finite

  ghost predicate NoForwards(g: Graph) {
    forall x :: 0 <= x < |g| ==> !IsFwd(g[x]) && !IsEnumFwd(g[x])
  }

  ghost predicate WFMap(g: Graph, m: seq<u32>) {
    WFGraph(g) && |m| == |g| && IsForest(m)
  }

  /** `resolve_fwd_id`. */
  ghost function ResolveFwd(g: Graph, m: seq<u32>, x: nat): (r: nat)
    requires WFMap(g, m) && x < |g|
    ensures r < |g|
  {
    if !IsFwd(g[x]) then x
    else var r := Root(m, x); if IsFwd(g[r]) then x else r
  }

  /** How many references of a record `btf_dedup_is_equiv` follows. */
  function EquivKids(t: Rec): nat {
    var k := Kind(t);
    if SingleRefKind(k) || k == KIND_ARRAY || IsComposite(t) || k == KIND_FUNC_PROTO then RefCount(t) else 0
  }

  /** The local test of a candidate record against a canonical one, references aside. */
  predicate LocalMatch(a: Rec, c: Rec)
    requires WF(a) && WF(c)
  {
    && a.name == c.name
    && if (IsFwd(a) || IsFwd(c)) && Kind(a) != Kind(c) then
         (if IsFwd(a) then FwdKind(a) == Kind(c) else FwdKind(c) == Kind(a))
       else
         && Kind(a) == Kind(c)
         && var k := Kind(a);
            if k == KIND_INT then EqualIntTag(a, c)
            else if k == KIND_ENUM then CompatEnum(a, c)
            else if k == KIND_FWD || k == KIND_FLOAT then EqualCommon(a, c)
            else if SingleRefKind(k) then a.info == c.info
            else if k == KIND_ARRAY then CompatArray(a, c)
            else if IsComposite(a) then ShallowEqualStruct(a, c)
            else if k == KIND_FUNC_PROTO then CompatFnproto(a, c)
            else false
  }

  /** Kinds the search cannot compare. */
  predicate Unfollowed(k: nat) { k == KIND_VAR || k == KIND_DATASEC || k == KIND_DECL_TAG }

  ghost predicate AllKnown(g: Graph) { forall x {:trigger g[x]} :: 1 <= x < |g| ==> KnownKind(Kind(g[x])) }

  /** No reference the search follows from `x` leads to a VAR, DATASEC or DECL_TAG. */
  ghost predicate FollowedAt(g: Graph, x: nat)
    requires WFGraph(g) && x < |g|
  {
    forall k :: 0 <= k < EquivKids(g[x]) && k < RefCount(g[x]) ==> !Unfollowed(Kind(g[Ref(g[x], k)]))
  }

  /** All kinds are known, and VAR, DATASEC and DECL_TAG appear only where they make sense. */
  ghost predicate WellKinded(g: Graph) {
    && WFGraph(g) && AllKnown(g)
    && forall x {:trigger FollowedAt(g, x)} :: 0 <= x < |g| ==> FollowedAt(g, x)
  }

  /** The search cannot meet a kind it does not know from here. */
  ghost predicate Searchable(g: Graph, m: seq<u32>, a: nat)
    requires WFMap(g, m) && a < |g|
  {
    WellKinded(g) && m[0] == 0 && !Unfollowed(Kind(g[a]))
  }

  /** Two records of one kind unknown to the search never form a fresh pair. */
  lemma {:induction false} FreshPairKnown(g: Graph, m: seq<u32>, a: nat, c: nat)
    requires WFMap(g, m) && a < |g| && c < |g| && Searchable(g, m, a) && Root(m, a) != Root(m, c)
    requires Kind(g[a]) == Kind(g[ResolveFwd(g, m, c)])
    ensures KnownKind(Kind(g[a]))
  {
    assert Root(m, 0) == 0;
    if a == 0 { assert ResolveFwd(g, m, c) != 0; }
  }

  function PairKids(a: Rec, c: Rec): nat { if Kind(a) == Kind(c) then EquivKids(a) else 0 }

  lemma {:induction false} PairKidsInBoth(a: Rec, c: Rec)
    requires WF(a) && WF(c) && LocalMatch(a, c)
    ensures PairKids(a, c) <= RefCount(a) && PairKids(a, c) <= RefCount(c)
  {
  }

  /** `x` is recorded, with an id of the graph. */
  predicate Recorded(g: Graph, h: seq<u32>, x: nat)
    requires |h| == |g| && x < |g|
  {
    h[x] <= BTF_MAX_NR_TYPES && h[x] < |g|
  }

  /** The candidate `a` agrees with what is recorded for the canonical `c`. */
  ghost predicate AgreesWithRecord(g: Graph, h: seq<u32>, a: nat, c: nat)
    requires WFGraph(g) && |h| == |g| && a < |g| && c < |g|
  {
    && Recorded(g, h, c)
    && (h[c] == a || IdenticalArrays(g[h[c]], g[a]) || IdenticalStructs(g[h[c]], g[a]))
  }

  /** Candidate `a` and canonical `c` resolve to the same type or agree with the record. */
  ghost predicate Related(g: Graph, m: seq<u32>, h: seq<u32>, a: nat, c: nat)
    requires WFMap(g, m) && |h| == |g| && a < |g| && c < |g|
  {
    Root(m, a) == Root(m, c) || AgreesWithRecord(g, h, a, ResolveFwd(g, m, c))
  }

  /** The pair recorded for `c` matches locally and its references are related. */
  ghost predicate ClosedAt(g: Graph, m: seq<u32>, h: seq<u32>, c: nat)
    requires WFMap(g, m) && |h| == |g| && c < |g|
  {
    && Recorded(g, h, c)
    && LocalMatch(g[h[c]], g[c])
    && forall k :: 0 <= k < PairKids(g[h[c]], g[c]) && k < RefCount(g[h[c]]) && k < RefCount(g[c]) ==>
         Related(g, m, h, Ref(g[h[c]], k), Ref(g[c], k))
  }

  /** The hypothetical map is a bisimulation. */
  ghost predicate Closed(g: Graph, m: seq<u32>, h: seq<u32>) {
    && WFMap(g, m) && |h| == |g|
    && forall c :: 0 <= c < |g| && h[c] <= BTF_MAX_NR_TYPES ==> ClosedAt(g, m, h, c)
  }

  ghost predicate SoundAt(g: Graph, m: seq<u32>, x: nat)
    requires WFGraph(g) && |m| == |g| && x < |g|
  {
    Mapped(m, x) ==> m[x] < |g| && SameMeaning(g, x, g, m[x])
  }

  /** Every parent pointer joins types of the same meaning. */
  ghost predicate MapSound(g: Graph, m: seq<u32>) {
    && WFMap(g, m)
    && forall x {:trigger SoundAt(g, m, x)} :: 0 <= x < |g| ==> SoundAt(g, m, x)
  }

  lemma {:induction false} RootSound(g: Graph, m: seq<u32>, x: nat)
    requires MapSound(g, m) && x < |g|
    ensures SameMeaning(g, x, g, Root(m, x))
    decreases RankOf(m)[x]
  {
    if !IsRoot(m, x) {
      ForestAt(m, x);
      assert SoundAt(g, m, x);
      RootSound(g, m, m[x]);
    }
  }

  lemma {:induction false} StructLabel(a: Rec, c: Rec)
    requires WF(a) && WF(c) && IsComposite(a) && ShallowEqualStruct(a, c)
    ensures Label(a) == Label(c)
  {
    forall j | 0 <= j < |a.rest| ensures Label(a).rest[j] == Label(c).rest[j] {
      var i, r := j / 3, j % 3;
      assert j == 3 * i + r && IsRefWord(Kind(a), 3 + j) == (r == 1);
      assert a.rest[3 * i] == c.rest[3 * i] && a.rest[3 * i + 2] == c.rest[3 * i + 2];
      if r == 0 { assert a.rest[j] == c.rest[j]; } else if r == 2 { assert a.rest[j] == c.rest[j]; }
    }
    assert Label(a).rest == Label(c).rest;
  }

  lemma {:induction false} FnprotoLabel(a: Rec, c: Rec)
    requires WF(a) && WF(c) && Kind(a) == KIND_FUNC_PROTO && CompatFnproto(a, c)
    ensures Label(a) == Label(c)
  {
    forall j | 0 <= j < |a.rest| ensures Label(a).rest[j] == Label(c).rest[j] {
      var i, r := j / 2, j % 2;
      assert j == 2 * i + r && IsRefWord(Kind(a), 3 + j) == (r == 1);
      if r == 0 { assert a.rest[2 * i] == c.rest[2 * i]; }
    }
    assert Label(a).rest == Label(c).rest;
  }

  /** Without forward types a local match leaves nothing but references to differ. */
  lemma {:induction false} LocalMatchLabel(a: Rec, c: Rec)
    requires WF(a) && WF(c) && LocalMatch(a, c)
    requires !IsFwd(a) && !IsFwd(c) && !IsEnumFwd(a) && !IsEnumFwd(c)
    ensures a.info == c.info && Label(a) == Label(c) && PairKids(a, c) == RefCount(a) == RefCount(c)
  {
    var k := Kind(a);
    if k == KIND_INT || k == KIND_ENUM {
      EqualMeansIdentical(a, c);
    } else if IsComposite(a) {
      StructLabel(a, c);
    } else if k == KIND_FUNC_PROTO {
      FnprotoLabel(a, c);
    } else {
      forall j | 0 <= j < |a.rest| ensures Label(a).rest[j] == Label(c).rest[j] {
        assert k == KIND_ARRAY && IsRefWord(k, 3 + j) == (j < 2);
      }
      assert Label(a).rest == Label(c).rest;
    }
  }

  /** The kinds a local match is possible for. */
  predicate Matchable(k: nat) {
    || k == KIND_INT || k == KIND_FLOAT || k == KIND_ENUM || SingleRefKind(k) || k == KIND_ARRAY || k == KIND_STRUCT
    || k == KIND_UNION || k == KIND_FUNC_PROTO
  }

  lemma {:induction false} LabelWord(a: Rec, c: Rec, j: nat)
    requires WF(a) && WF(c) && Label(a) == Label(c) && j < |a.rest| && !IsRefWord(Kind(a), 3 + j)
    ensures |c.rest| == |a.rest| && a.rest[j] == c.rest[j]
  {
    assert Label(a).info == a.info && Label(c).info == c.info && |Label(a).rest| == |a.rest| && |Label(c).rest| == |c.rest|;
    assert Label(a).rest[j] == a.rest[j] && Label(c).rest[j] == c.rest[j];
  }

  /** What a local match is, forward types aside: two records of a kind that can be compared, equal but for references. */
  lemma {:induction false} LocalMatchExactly(a: Rec, c: Rec)
    requires WF(a) && WF(c) && !IsFwd(a) && !IsFwd(c) && !IsEnumFwd(a) && !IsEnumFwd(c)
    ensures LocalMatch(a, c) <==> Matchable(Kind(a)) && Label(a) == Label(c)
  {
    if LocalMatch(a, c) { LocalMatchLabel(a, c); }
    if Label(a) == Label(c) && Matchable(Kind(a)) {
      var k := Kind(a);
      assert Label(a).info == a.info && Label(c).info == c.info && Label(a).name == a.name && Label(c).name == c.name;
      assert !IsRefWord(k, 2) ==> Label(a).szt == a.szt && Label(c).szt == c.szt;
      forall j | 0 <= j < |a.rest| && !IsRefWord(k, 3 + j) ensures |c.rest| == |a.rest| && a.rest[j] == c.rest[j] { LabelWord(a, c, j); }
      if IsComposite(a) {
        forall i | 0 <= i < Vlen(a) ensures !IsRefWord(k, 3 + 3 * i) && !IsRefWord(k, 3 + (3 * i + 2)) {
          assert 3 * i % 3 == 0 && (3 * i + 2) % 3 == 2;
        }
      } else if k == KIND_FUNC_PROTO || k == KIND_ENUM {
        forall i | 0 <= i < Vlen(a) ensures !IsRefWord(k, 3 + 2 * i) { assert 2 * i % 2 == 0; }
      }
    }
  }

  /** A forward declaration matches the structs or unions of its name that it stands for. */
  lemma {:induction false} ForwardMatch(a: Rec, c: Rec)
    requires WF(a) && WF(c) && IsFwd(a) && !IsFwd(c)
    ensures LocalMatch(a, c) <==> a.name == c.name && Kind(c) == if InfoKflag(a.info) then KIND_UNION else KIND_STRUCT
    ensures LocalMatch(c, a) <==> LocalMatch(a, c)
  {
  }

  lemma {:induction false} SameRecordSameMeaning(g: Graph, x: nat, y: nat, n: nat)
    requires WFGraph(g) && x < |g| && y < |g| && g[x] == g[y]
    ensures Unfold(g, x, n) == Unfold(g, y, n)
  {
  }

  /** Related types unfold alike to depth `n` when all recorded pairs do. */
  lemma {:induction false} RelatedUnfold(g: Graph, m: seq<u32>, h: seq<u32>, a: nat, c: nat, n: nat)
    requires MapSound(g, m) && NoForwards(g) && |h| == |g| && a < |g| && c < |g|
    requires Related(g, m, h, a, c)
    requires Recorded(g, h, c) ==> Unfold(g, h[c], n) == Unfold(g, c, n)
    ensures Unfold(g, a, n) == Unfold(g, c, n)
  {
    if Root(m, a) == Root(m, c) {
      RootSound(g, m, a);
      RootSound(g, m, c);
    } else if h[c] != a {
      if IdenticalArrays(g[h[c]], g[a]) { IdenticalArraysSame(g[h[c]], g[a]); }
      else { IdenticalStructsSame(g[h[c]], g[a]); }
      SameRecordSameMeaning(g, h[c], a, n);
    }
  }

  ghost predicate PairAlike(g: Graph, h: seq<u32>, c: nat, n: nat)
    requires WFGraph(g) && |h| == |g| && c < |g|
  {
    Recorded(g, h, c) ==> Unfold(g, h[c], n) == Unfold(g, c, n)
  }

  ghost predicate PairsAlike(g: Graph, h: seq<u32>, n: nat)
    requires WFGraph(g) && |h| == |g|
  {
    forall c :: 0 <= c < |g| ==> PairAlike(g, h, c, n)
  }

  lemma {:induction false} ClosedStep(g: Graph, m: seq<u32>, h: seq<u32>, c: nat, n: nat)
    requires Closed(g, m, h) && MapSound(g, m) && NoForwards(g)
    requires c < |g| && PairsAlike(g, h, n)
    ensures PairAlike(g, h, c, n + 1)
  {
    if !Recorded(g, h, c) { return; }
    var a: nat := h[c];
    assert ClosedAt(g, m, h, c);
    LocalMatchLabel(g[a], g[c]);
    forall k | 0 <= k < RefCount(g[a])
      ensures Unfold(g, Ref(g[a], k), n) == Unfold(g, Ref(g[c], k), n)
    {
      assert PairAlike(g, h, Ref(g[c], k), n);
      RelatedUnfold(g, m, h, Ref(g[a], k), Ref(g[c], k), n);
    }
    UnfoldStep(g, a, g, c, n);
  }

  /** The pairs of a closed hypothetical map have the same unfoldings. */
  lemma {:induction false} ClosedUnfold(g: Graph, m: seq<u32>, h: seq<u32>, n: nat)
    requires Closed(g, m, h) && MapSound(g, m) && NoForwards(g)
    ensures PairsAlike(g, h, n)
    decreases n
  {
    if n > 0 {
      ClosedUnfold(g, m, h, n - 1);
      forall c | 0 <= c < |g| ensures PairAlike(g, h, c, n) {
        ClosedStep(g, m, h, c, n - 1);
      }
    }
  }

  /** Bisimulations preserve meaning: a recorded pair denotes one type. */
  lemma {:induction false} ClosedSameMeaning(g: Graph, m: seq<u32>, h: seq<u32>, c: nat)
    requires Closed(g, m, h) && MapSound(g, m) && NoForwards(g)
    requires c < |g| && Recorded(g, h, c)
    ensures SameMeaning(g, h[c], g, c)
  {
    forall n: nat ensures Unfold(g, h[c], n) == Unfold(g, c, n) {
      ClosedUnfold(g, m, h, n);
      assert PairAlike(g, h, c, n);
    }
  }

  /** A functional bisimulation: each canonical id has at most one candidate partner, partners match
      locally, and corresponding references resolve alike or are partners again. */
  ghost predicate Functional(g: Graph, m: seq<u32>, w: map<nat, nat>) {
    && WFMap(g, m)
    && forall c :: c in w ==> c < |g| && w[c] < |g| && PartnersMatch(g, m, w, c)
  }

  ghost predicate PartnersMatch(g: Graph, m: seq<u32>, w: map<nat, nat>, c: nat)
    requires WFMap(g, m) && c in w && c < |g| && w[c] < |g|
  {
    && LocalMatch(g[w[c]], g[c])
    && forall k :: 0 <= k < PairKids(g[w[c]], g[c]) && k < RefCount(g[w[c]]) && k < RefCount(g[c]) ==>
         Partners(g, m, w, Ref(g[w[c]], k), Ref(g[c], k))
  }

  ghost predicate Partners(g: Graph, m: seq<u32>, w: map<nat, nat>, a: nat, c: nat)
    requires WFMap(g, m) && a < |g| && c < |g|
  {
    Root(m, a) == Root(m, c) || (ResolveFwd(g, m, c) in w && w[ResolveFwd(g, m, c)] == a)
  }

  /** The hypothetical map is filled exactly at the listed ids, which are distinct. */
  ghost predicate HypotOk(g: Graph, h: seq<u32>, l: seq<nat>) {
    && |h| == |g| && |l| <= |g|
    && (forall i :: 0 <= i < |l| ==> l[i] < |g|)
    && (forall i, j :: 0 <= i < j < |l| ==> l[i] != l[j])
    && (forall x {:trigger h[x]} :: 0 <= x < |g| ==> (h[x] <= BTF_MAX_NR_TYPES <==> x in l))
    && (forall x {:trigger h[x]} :: 0 <= x < |g| && h[x] <= BTF_MAX_NR_TYPES ==> h[x] < |g|)
  }

  /** Recording only adds. */
  ghost predicate Grew(h0: seq<u32>, l0: seq<nat>, h1: seq<u32>, l1: seq<nat>) {
    && |h0| == |h1| && l0 <= l1
    && forall x {:trigger h1[x]} :: 0 <= x < |h0| && h0[x] <= BTF_MAX_NR_TYPES ==> h1[x] == h0[x]
  }

  /** Everything recorded since the list had `k` entries is closed. */
  ghost predicate ClosedFrom(g: Graph, m: seq<u32>, h: seq<u32>, l: seq<nat>, k: nat)
    requires WFMap(g, m) && |h| == |g|
  {
    forall i {:trigger l[i]} :: k <= i < |l| ==> l[i] < |g| && ClosedAt(g, m, h, l[i])
  }

  /** What is recorded are partners of the functional bisimulation `w`. */
  ghost predicate Follows(h: seq<u32>, w: map<nat, nat>) {
    forall x {:trigger h[x]} :: 0 <= x < |h| && h[x] <= BTF_MAX_NR_TYPES ==> x in w && w[x] == h[x]
  }

  /** The functional bisimulation `w`, which agrees with all that is recorded, pairs `a` with `c`. */
  ghost predicate Paired(g: Graph, m: seq<u32>, h: seq<u32>, w: map<nat, nat>, a: nat, c: nat) {
    Functional(g, m, w) && Follows(h, w) && a < |g| && c < |g| && Partners(g, m, w, a, c)
  }

  lemma {:induction false} GrewTrans(h0: seq<u32>, l0: seq<nat>, h1: seq<u32>, l1: seq<nat>, h2: seq<u32>, l2: seq<nat>)
    requires Grew(h0, l0, h1, l1) && Grew(h1, l1, h2, l2)
    ensures Grew(h0, l0, h2, l2)
  {
    forall x | 0 <= x < |h0| && h0[x] <= BTF_MAX_NR_TYPES ensures h2[x] == h0[x] { assert h1[x] == h0[x]; }
  }

  lemma {:induction false} RelatedGrows(g: Graph, m: seq<u32>, h0: seq<u32>, l0: seq<nat>,
                                        h1: seq<u32>, l1: seq<nat>, a: nat, c: nat)
    requires WFMap(g, m) && |h0| == |g| && Grew(h0, l0, h1, l1) && a < |g| && c < |g|
    requires Related(g, m, h0, a, c)
    ensures Related(g, m, h1, a, c)
  {
    var d := ResolveFwd(g, m, c);
    assert Root(m, a) != Root(m, c) ==> h1[d] == h0[d];
  }

  lemma {:induction false} ClosedAtGrows(g: Graph, m: seq<u32>, h0: seq<u32>, l0: seq<nat>,
                                         h1: seq<u32>, l1: seq<nat>, c: nat)
    requires WFMap(g, m) && |h0| == |g| && Grew(h0, l0, h1, l1) && c < |g|
    requires ClosedAt(g, m, h0, c)
    ensures ClosedAt(g, m, h1, c)
  {
    assert h1[c] == h0[c];
    var a, b := g[h0[c]], g[c];
    forall k | 0 <= k < PairKids(a, b) && k < RefCount(a) && k < RefCount(b)
      ensures Related(g, m, h1, Ref(a, k), Ref(b, k))
    {
      RelatedGrows(g, m, h0, l0, h1, l1, Ref(a, k), Ref(b, k));
    }
  }

  lemma {:induction false} ClosedFromGrows(g: Graph, m: seq<u32>, h0: seq<u32>, l0: seq<nat>,
                                           h1: seq<u32>, l1: seq<nat>, k: nat)
    requires WFMap(g, m) && |h0| == |g| && Grew(h0, l0, h1, l1)
    requires ClosedFrom(g, m, h0, l0, k) && ClosedFrom(g, m, h1, l1, |l0|)
    ensures ClosedFrom(g, m, h1, l1, k)
  {
    forall i | k <= i < |l1| ensures l1[i] < |g| && ClosedAt(g, m, h1, l1[i]) {
      if i < |l0| {
        assert l1[i] == l0[i];
        ClosedAtGrows(g, m, h0, l0, h1, l1, l0[i]);
      }
    }
  }

  /** Recording a fresh pair. */
  lemma {:induction false} RecordPair(g: Graph, m: seq<u32>, h: seq<u32>, l: seq<nat>, c: nat, a: u32, w: map<nat, nat>)
    requires WFMap(g, m) && HypotOk(g, h, l) && c < |g| && a < |g| && h[c] > BTF_MAX_NR_TYPES
    ensures HypotOk(g, h[c := a], l + [c]) && Grew(h, l, h[c := a], l + [c])
    ensures |l| < |g|
    ensures ClosedFrom(g, m, h[c := a], l + [c], |l| + 1)
    ensures Follows(h, w) && c in w && w[c] == a ==> Follows(h[c := a], w)
  {
    Finite.Pigeonhole(l, |g|, c);
  }

  /** An array's index type is compared before its element type. */
  function KidOrder(t: Rec, i: nat): nat { if Kind(t) == KIND_ARRAY && i < 2 then 1 - i else i }

  ghost predicate KidRelated(g: Graph, m: seq<u32>, h: seq<u32>, a: Rec, c: Rec, k: nat)
    requires WFMap(g, m) && |h| == |g| && WF(a) && WF(c) && k < RefCount(a) && k < RefCount(c)
  {
    Ref(a, k) < |g| && Ref(c, k) < |g| && Related(g, m, h, Ref(a, k), Ref(c, k))
  }

  /** The first `i` pairs of references, in the order they are followed, are related. */
  ghost predicate KidsDone(g: Graph, m: seq<u32>, h: seq<u32>, a: Rec, c: Rec, i: nat)
    requires WFMap(g, m) && |h| == |g| && WF(a) && WF(c) && LocalMatch(a, c) && i <= PairKids(a, c)
  {
    forall j {:trigger KidOrder(a, j)} :: 0 <= j < i ==>
      KidOrder(a, j) < RefCount(a) && KidOrder(a, j) < RefCount(c) && KidRelated(g, m, h, a, c, KidOrder(a, j))
  }

  /** Having followed the i-th pair of references, everything established before still holds. */
  lemma {:induction false} KidStep(g: Graph, m: seq<u32>, hb: seq<u32>, lb: seq<nat>, h1: seq<u32>, l1: seq<nat>,
                                   h2: seq<u32>, l2: seq<nat>, a: Rec, c: Rec, i: nat, k: nat)
    requires WFMap(g, m) && |hb| == |g| && Grew(hb, lb, h1, l1) && Grew(h1, l1, h2, l2)
    requires WF(a) && WF(c) && LocalMatch(a, c) && i < PairKids(a, c) && KidsDone(g, m, h1, a, c, i)
    requires KidOrder(a, i) < RefCount(a) && KidOrder(a, i) < RefCount(c)
    requires KidRelated(g, m, h2, a, c, KidOrder(a, i))
    requires ClosedFrom(g, m, h1, l1, k) && ClosedFrom(g, m, h2, l2, |l1|)
    ensures KidsDone(g, m, h2, a, c, i + 1) && ClosedFrom(g, m, h2, l2, k)
  {
    ClosedFromGrows(g, m, h1, l1, h2, l2, k);
    forall j | 0 <= j < i + 1
      ensures KidOrder(a, j) < RefCount(a) && KidOrder(a, j) < RefCount(c) && KidRelated(g, m, h2, a, c, KidOrder(a, j))
    {
      if j < i { RelatedGrows(g, m, h1, l1, h2, l2, Ref(a, KidOrder(a, j)), Ref(c, KidOrder(a, j))); }
    }
  }

  /** All references followed, the pair itself is closed. */
  lemma {:induction false} PairCloses(g: Graph, m: seq<u32>, h: seq<u32>, l: seq<nat>, a: nat, c: nat, k: nat)
    requires WFMap(g, m) && HypotOk(g, h, l) && a < |g| && c < |g| && k < |l| && l[k] == c && h[c] == a
    requires LocalMatch(g[a], g[c]) && h[c] <= BTF_MAX_NR_TYPES
    requires KidsDone(g, m, h, g[a], g[c], PairKids(g[a], g[c]))
    requires ClosedFrom(g, m, h, l, k + 1)
    ensures ClosedFrom(g, m, h, l, k)
  {
    PairKidsInBoth(g[a], g[c]);
    forall i | 0 <= i < PairKids(g[a], g[c])
      ensures Related(g, m, h, Ref(g[a], i), Ref(g[c], i))
    {
      assert KidOrder(g[a], KidOrder(g[a], i)) == i;
      assert KidOrder(g[a], i) < PairKids(g[a], g[c]);
    }
    assert ClosedAt(g, m, h, c);
  }

  /** A functional bisimulation pairs the references of its partners. */
  lemma {:induction false} PairedKids(g: Graph, m: seq<u32>, h0: seq<u32>, h1: seq<u32>, w: map<nat, nat>,
                                      a: nat, c: nat, k: nat)
    requires WFMap(g, m) && |h0| == |h1| == |g| && a < |g| && c < |g| && Paired(g, m, h0, w, a, c)
    requires Root(m, a) != Root(m, c) && Follows(h1, w)
    ensures var d := ResolveFwd(g, m, c);
            && d in w && w[d] == a && LocalMatch(g[a], g[d])
            && (k < PairKids(g[a], g[d]) ==>
                  k < RefCount(g[a]) && k < RefCount(g[d]) && Paired(g, m, h1, w, Ref(g[a], k), Ref(g[d], k)))
  {
    var d := ResolveFwd(g, m, c);
    assert PartnersMatch(g, m, w, d);
    PairKidsInBoth(g[a], g[d]);
  }
}
