/** BTF deduplication (`btf__dedup` after string deduplication), in place on a type section. */
module Dedup {
  import opened Common
  import opened BtfTypes
  import opened BtfEqual
  import opened Forest
  import opened Bisim
  import opened DedupInv
  import opened RefPass
  import opened DedupResult
  import opened TypeSection

  method InitMaps(s: Section, canon: array<u32>, hypot_map: array<u32>)
    requires s.Valid() && canon.Length == hypot_map.Length == |s.types| && canon != hypot_map
    requires canon != s.data && canon != s.type_offs && hypot_map != s.data && hypot_map != s.type_offs
    modifies canon, hypot_map
    ensures canon[0] == 0
    ensures forall x :: 1 <= x < |s.types| ==> canon[x] == if FixedKind(Kind(s.types[x])) then x else UNPROCESSED
    ensures forall x :: 0 <= x < |s.types| ==> hypot_map[x] == UNPROCESSED
  {
    canon[0] := 0;
    for i := 1 to canon.Length
      invariant canon[0] == 0
      invariant forall x :: 1 <= x < i ==> canon[x] == if FixedKind(Kind(s.types[x])) then x else UNPROCESSED
      modifies canon
    {
      var t := s.Get(i);
      canon[i] := if FixedKind(Kind(t)) then i else UNPROCESSED;
    }
    for i := 0 to hypot_map.Length
      invariant forall x :: 0 <= x < i ==> hypot_map[x] == UNPROCESSED
      modifies hypot_map
    {
      hypot_map[i] := UNPROCESSED;
    }
  }

  class Dedup {
    const sec: Section
    /** `d->map`. */
    const canon: array<u32>
    const hypot_map: array<u32>
    var hypot_list: seq<nat>
    var table: Table

    /** The buffers are in place and the section is well-formed. */
    ghost predicate Shape()
      reads this, sec, sec.data, sec.type_offs
    {
      && sec.Valid()
      && canon.Length == hypot_map.Length == |sec.types|
      && canon != hypot_map && canon != sec.data && canon != sec.type_offs
      && hypot_map != sec.data && hypot_map != sec.type_offs
    }

    /** Enough to resolve ids: the map is a forest over the types. */
    ghost predicate Resolvable()
      reads this, sec, sec.data, sec.type_offs, canon
    {
      Shape() && WFMap(sec.types, canon[..])
    }

    ghost predicate Ready()
      reads this, sec, sec.data, sec.type_offs, canon
    {
      Shape() && Inv(sec.types, canon[..], table)
    }

    /** `btf_dedup_new`: nothing is mapped but void and the never-deduplicated VAR and DATASEC. */
    constructor (s: Section)
      requires s.Valid() && WFGraph(s.types)
      ensures Ready() && sec == s && fresh(canon) && fresh(hypot_map)
      ensures PrimStage(sec.types, canon[..], 1) && MapClosed(canon[..])
      ensures HypotOk(sec.types, hypot_map[..], hypot_list)
    {
      sec := s;
      canon := new u32[s.nr_types + 1];
      hypot_map := new u32[s.nr_types + 1];
      hypot_list := [];
      table := map[];
      new;
      InitMaps(s, canon, hypot_map);
      InvInit(s.types, canon[..]);
    }

    /** `resolve_type_id`. */
    method Resolve(id: nat) returns (r: nat)
      requires IsForest(canon[..]) && id < canon.Length
      ensures r == Root(canon[..], id)
    {
      r := id;
      while canon[r] <= BTF_MAX_NR_TYPES && canon[r] != r
        invariant r < canon.Length && Root(canon[..], r) == Root(canon[..], id)
        decreases RankOf(canon[..])[r]
      {
        ForestAt(canon[..], r);
        r := canon[r];
      }
    }

    /** The candidates of a hash, in whatever order the table iterates over them. */
    method CandidatesOf(h: nat) returns (cs: seq<nat>)
      ensures forall x :: x in cs <==> x in Cands(table, h)
    {
      cs := if h in table then table[h] else [];
    }

    /** The search loop the primitive and reference passes share: the first equal candidate, or `id`. */
    method FindEqual(t: Rec, id: u32, h: nat) returns (new_id: u32)
      requires Shape() && WF(t)
      requires forall x :: x in Cands(table, h) ==> x < |sec.types|
      ensures new_id == id || (new_id in Cands(table, h) && EqualByKind(t, sec.types[new_id]))
      ensures new_id == id && id !in Cands(table, h) ==>
                forall x :: x in Cands(table, h) ==> !EqualByKind(t, sec.types[x])
    {
      var cs := CandidatesOf(h);
      forall j | 0 <= j < |cs| ensures cs[j] < |sec.types| { assert cs[j] in Cands(table, h); }
      for i := 0 to |cs|
        invariant forall j :: 0 <= j < i ==> !EqualByKind(t, sec.types[cs[j]])
      {
        assert cs[i] in Cands(table, h);
        var cand := sec.Get(cs[i]);
        if EqualByKind(t, cand) { return cs[i]; }
      }
      return id;
    }

    /** The candidate loop of an ENUM: an equal candidate or, for a forward enum, the first compatible
        one is taken; canonical forward enums met on the way are resolved to a full `t`. */
    method FindEnum(t: Rec, id: u32) returns (new_id: u32)
      requires Ready() && 1 <= id < |sec.types| && t == sec.types[id] && Kind(t) == KIND_ENUM
      requires !Mapped(canon[..], id)
      modifies canon
      ensures Ready() && EnumMoved(sec.types, old(canon[..]), canon[..], id)
      ensures Searched(sec.types, table, id, new_id)
      ensures Kind(sec.types[new_id]) == KIND_ENUM && sec.types[new_id].name == t.name
      ensures if IsEnumFwd(t) then canon[..] == old(canon[..]) else sec.types[new_id] == t
      ensures new_id == id ==> EnumAlone(sec.types, canon[..], table, id)
    {
      ghost var g, m0 := sec.types, canon[..];
      var cs := CandidatesOf(Hash(t));
      forall j | 0 <= j < |cs| ensures cs[j] < |g| && cs[j] != id {
        assert cs[j] in Cands(table, Hash(t));
        assert EntryOk(g, m0, Hash(t), cs[j]);
      }
      hide Inv, IsForest, Hash;
      for i := 0 to |cs|
        invariant Inv(g, canon[..], table) && EnumMoved(g, m0, canon[..], id)
        invariant forall j :: 0 <= j < i ==> g[cs[j]] != t
        invariant IsEnumFwd(t) ==> canon[..] == m0
        invariant forall j :: 0 <= j < i && CompatEnum(t, g[cs[j]]) ==> canon[cs[j]] != cs[j]
      {
        var cand := sec.Get(cs[i]);
        assert cs[i] in Cands(table, Hash(t));
        EqualMeansIdentical(t, cand);
        if EqualEnum(t, cand) { return cs[i]; }
        if CompatEnum(t, cand) {
          CompatEnumSameHash(t, cand);
          if IsEnumFwd(t) { return cs[i]; }
          ResolveEnum(cs[i], id, m0);
        }
      }
      return id;
    }

    /** A canonical forward enum is resolved to the full enum `id`. */
    method ResolveEnum(c: nat, id: u32, ghost m0: seq<u32>)
      requires Ready() && EnumMoved(sec.types, m0, canon[..], id) && 1 <= id < |sec.types| && !Mapped(canon[..], id)
      requires Kind(sec.types[id]) == KIND_ENUM && c in Cands(table, Hash(sec.types[id])) && c < |sec.types|
      requires CompatEnum(sec.types[id], sec.types[c]) && !EqualEnum(sec.types[id], sec.types[c]) && !IsEnumFwd(sec.types[id])
      modifies canon
      ensures Ready() && canon[..] == old(canon[..])[c := id] && EnumMoved(sec.types, m0, canon[..], id)
    {
      hide Inv, IsForest, Hash, CompatEnum, EqualEnum;
      EnumStep(sec.types, m0, canon[..], table, id, c);
      ghost var m := canon[..];
      canon[c] := id;
      assert canon[..] == m[c := id];
    }

    /** `btf_dedup_prim_type`. */
    method PrimType(id: u32) returns (err: int)
      requires Ready() && 1 <= id < |sec.types|
      requires PrimStage(sec.types, canon[..], id) && MapClosed(canon[..]) && EnumsResolved(sec.types, canon[..])
      modifies this`table, canon
      ensures err == if KnownKind(Kind(sec.types[id])) then 0 else -EINVAL
      ensures err == 0 ==> Ready() && PrimStage(sec.types, canon[..], id + 1) && MapClosed(canon[..]) && EnumsResolved(sec.types, canon[..])
    {
      var t := sec.Get(id);
      ghost var g, m0 := sec.types, canon[..];
      assert PrimAt(g, m0, id, id);
      if !KnownKind(Kind(t)) { return -EINVAL; }
      if !PrimKind(Kind(t)) {
        PrimStageSkip(g, m0, id);
        return 0;
      }
      var h := Hash(t);
      var new_id;
      if Kind(t) == KIND_ENUM {
        new_id := FindEnum(t, id);
      } else {
        SearchFacts(g, m0, table, id);
        new_id := FindEqual(t, id, h);
      }
      ghost var m := canon[..];
      ResolvedStep(g, m0, m, table, id, new_id);
      canon[id] := new_id;
      assert canon[..] == m[id := new_id];
      hide EnumsResolved, EnumAlone;
      if id == new_id {
        PrimSelf(g, m0, m, table, id);
        table := Added(table, h, id);
      } else {
        PrimLink(g, m0, m, table, id, new_id);
      }
      return 0;
    }

    /** `btf_dedup_prim_types`. */
    method PrimTypes() returns (err: int)
      requires Ready() && PrimStage(sec.types, canon[..], 1) && MapClosed(canon[..])
      modifies this`table, canon
      ensures err == if AllKnown(sec.types) then 0 else -EINVAL
      ensures err == 0 ==> Ready() && PrimStage(sec.types, canon[..], |sec.types|) && EnumsResolved(sec.types, canon[..])
    {
      NoEnumsYet(sec.types, canon[..]);
      for id := 1 to canon.Length
        invariant forall x :: 1 <= x < id ==> KnownKind(Kind(sec.types[x]))
        invariant Ready() && PrimStage(sec.types, canon[..], id) && MapClosed(canon[..]) && EnumsResolved(sec.types, canon[..])
      {
        err := PrimType(id);
        if err != 0 { return; }
      }
      return 0;
    }

    /** `resolve_fwd_id`. */
    method ResolveFwdId(id: u32) returns (r: u32)
      requires Resolvable() && id < |sec.types|
      ensures r == ResolveFwd(sec.types, canon[..], id)
    {
      var t := sec.Get(id);
      if !IsFwd(t) { return id; }
      r := Resolve(id);
      t := sec.Get(r);
      if IsFwd(t) { r := id; }
    }

    /** `btf_dedup_hypot_map_add`. */
    method HypotAdd(from_id: u32, to_id: u32, ghost g: Graph)
      requires Shape() && g == sec.types && WFGraph(g) && HypotOk(g, hypot_map[..], hypot_list)
      requires from_id < |g| && to_id < |g| && hypot_map[from_id] > BTF_MAX_NR_TYPES
      modifies hypot_map, this`hypot_list
      ensures hypot_map[..] == old(hypot_map[..])[from_id := to_id]
      ensures hypot_list == old(hypot_list) + [from_id]
    {
      hypot_list := hypot_list + [from_id];
      hypot_map[from_id] := to_id;
    }

    /** `btf_dedup_is_equiv`: the speculative graph-equivalence search. A positive answer leaves only
        closed pairs behind; and whenever some functional bisimulation `w` pairs the two types, the
        answer is positive. */
    method IsEquiv(cand_id: u32, canon_id: u32, ghost w: map<nat, nat>, ghost g: Graph, ghost m: seq<u32>)
      returns (eq: int)
      requires Resolvable() && g == sec.types && m == canon[..] && HypotOk(g, hypot_map[..], hypot_list)
      requires cand_id < |g| && canon_id < |g|
      modifies hypot_map, this`hypot_list
      ensures HypotOk(g, hypot_map[..], hypot_list)
      ensures Grew(old(hypot_map[..]), old(hypot_list), hypot_map[..], hypot_list)
      ensures eq == 1 || eq == 0 || eq == -EINVAL
      ensures Searchable(g, m, cand_id) ==> eq >= 0
      ensures eq == 1 ==> Related(g, m, hypot_map[..], cand_id, canon_id)
      ensures eq == 1 ==> ClosedFrom(g, m, hypot_map[..], hypot_list, |old(hypot_list)|)
      ensures Paired(g, m, old(hypot_map[..]), w, cand_id, canon_id) ==> eq == 1 && Follows(hypot_map[..], w)
      decreases |g| - |hypot_list|, 1
    {
      var r1 := Resolve(cand_id);
      var r2 := Resolve(canon_id);
      if r1 == r2 { return 1; }
      var c := ResolveFwdId(canon_id);
      var a_t := sec.Get(cand_id);
      var hyp := hypot_map[c];
      if hyp <= BTF_MAX_NR_TYPES {
        if hyp == cand_id { return 1; }
        var h_t := sec.Get(hyp);
        if IdenticalArrays(h_t, a_t) { return 1; }
        if IdenticalStructs(h_t, a_t) { return 1; }
        return 0;
      }
      eq := EquivFresh(cand_id, canon_id, c, a_t, w, g, m);
    }

    /** The part of `btf_dedup_is_equiv` for a canonical type met for the first time. */
    method EquivFresh(cand_id: u32, canon_id: u32, c: u32, a_t: Rec, ghost w: map<nat, nat>, ghost g: Graph, ghost m: seq<u32>)
      returns (eq: int)
      requires Resolvable() && g == sec.types && m == canon[..] && HypotOk(g, hypot_map[..], hypot_list)
      requires cand_id < |g| && canon_id < |g| && c == ResolveFwd(g, m, canon_id) && a_t == g[cand_id]
      requires Root(m, cand_id) != Root(m, canon_id) && hypot_map[c] > BTF_MAX_NR_TYPES
      modifies hypot_map, this`hypot_list
      ensures HypotOk(g, hypot_map[..], hypot_list)
      ensures Grew(old(hypot_map[..]), old(hypot_list), hypot_map[..], hypot_list)
      ensures eq == 1 || eq == 0 || eq == -EINVAL
      ensures Searchable(g, m, cand_id) ==> eq >= 0
      ensures eq == 1 ==> hypot_map[c] == cand_id
      ensures eq == 1 ==> ClosedFrom(g, m, hypot_map[..], hypot_list, |old(hypot_list)|)
      ensures Paired(g, m, old(hypot_map[..]), w, cand_id, canon_id) ==> eq == 1 && Follows(hypot_map[..], w)
      decreases |g| - |hypot_list|, 0
    {
      ghost var h0, l0 := hypot_map[..], hypot_list;
      RecordPair(g, m, h0, l0, c, cand_id, w);
      HypotAdd(c, cand_id, g);
      ghost var hb, lb := hypot_map[..], hypot_list;
      if Paired(g, m, h0, w, cand_id, canon_id) { PairedKids(g, m, h0, hb, w, cand_id, canon_id, 0); }
      var c_t := sec.Get(c);
      eq := MatchRecords(a_t, c_t);
      if eq != 1 {
        if Searchable(g, m, cand_id) && Kind(a_t) == Kind(c_t) { FreshPairKnown(g, m, cand_id, canon_id); }
        return;
      }
      eq := EquivKidsOf(cand_id, canon_id, c, a_t, c_t, w, g, m, h0);
      GrewTrans(h0, l0, hb, lb, hypot_map[..], hypot_list);
      if eq == 1 { PairCloses(g, m, hypot_map[..], hypot_list, cand_id, c, |l0|); }
    }

    /** The part of `btf_dedup_is_equiv` that follows the references of a freshly recorded pair. */
    method EquivKidsOf(cand_id: u32, canon_id: u32, c: u32, a_t: Rec, c_t: Rec, ghost w: map<nat, nat>,
                       ghost g: Graph, ghost m: seq<u32>, ghost h0: seq<u32>) returns (eq: int)
      requires Resolvable() && g == sec.types && m == canon[..] && HypotOk(g, hypot_map[..], hypot_list)
      requires cand_id < |g| && canon_id < |g| && c == ResolveFwd(g, m, canon_id)
      requires a_t == g[cand_id] && c_t == g[c] && LocalMatch(a_t, c_t) && |h0| == |g|
      requires Root(m, cand_id) != Root(m, canon_id)
      requires Paired(g, m, h0, w, cand_id, canon_id) ==> Follows(hypot_map[..], w)
      modifies hypot_map, this`hypot_list
      ensures HypotOk(g, hypot_map[..], hypot_list)
      ensures Grew(old(hypot_map[..]), old(hypot_list), hypot_map[..], hypot_list)
      ensures eq == 1 || eq == 0 || eq == -EINVAL
      ensures Searchable(g, m, cand_id) ==> eq >= 0
      ensures eq == 1 ==> KidsDone(g, m, hypot_map[..], a_t, c_t, PairKids(a_t, c_t))
      ensures eq == 1 ==> ClosedFrom(g, m, hypot_map[..], hypot_list, |old(hypot_list)|)
      ensures Paired(g, m, h0, w, cand_id, canon_id) ==> eq == 1 && Follows(hypot_map[..], w)
      decreases |g| - |hypot_list|, 2
    {
      ghost var hb, lb := hypot_map[..], hypot_list;
      PairKidsInBoth(a_t, c_t);
      assert Searchable(g, m, cand_id) ==> FollowedAt(g, cand_id);
      for i := 0 to PairKids(a_t, c_t)
        invariant HypotOk(g, hypot_map[..], hypot_list)
        invariant Grew(hb, lb, hypot_map[..], hypot_list)
        invariant KidsDone(g, m, hypot_map[..], a_t, c_t, i)
        invariant ClosedFrom(g, m, hypot_map[..], hypot_list, |lb|)
        invariant Paired(g, m, h0, w, cand_id, canon_id) ==> Follows(hypot_map[..], w)
      {
        var k := KidOrder(a_t, i);
        ghost var h1, l1 := hypot_map[..], hypot_list;
        if Paired(g, m, h0, w, cand_id, canon_id) { PairedKids(g, m, h0, h1, w, cand_id, canon_id, k); }
        eq := IsEquiv(Ref(a_t, k), Ref(c_t, k), w, g, m);
        GrewTrans(hb, lb, h1, l1, hypot_map[..], hypot_list);
        if eq != 1 { return; }
        KidStep(g, m, hb, lb, h1, l1, hypot_map[..], hypot_list, a_t, c_t, i, |lb|);
      }
      return 1;
    }

    /** `btf_dedup_clear_hypot_map`. */
    method ClearHypot()
      requires Shape() && HypotOk(sec.types, hypot_map[..], hypot_list)
      modifies hypot_map, this`hypot_list
      ensures hypot_list == [] && HypotOk(sec.types, hypot_map[..], hypot_list)
      ensures forall x :: 0 <= x < hypot_map.Length ==> hypot_map[x] > BTF_MAX_NR_TYPES
    {
      ghost var h0, l := hypot_map[..], hypot_list;
      for i := 0 to |hypot_list|
        invariant hypot_list == l
        invariant forall x :: 0 <= x < hypot_map.Length ==>
                    hypot_map[x] == if x in l[..i] then UNPROCESSED else h0[x]
        modifies hypot_map
      {
        hypot_map[hypot_list[i]] := UNPROCESSED;
      }
      assert l[..|l|] == l;
      hypot_list := [];
      forall x | 0 <= x < hypot_map.Length ensures hypot_map[x] > BTF_MAX_NR_TYPES {
        assert h0[x] <= BTF_MAX_NR_TYPES <==> x in l;
      }
    }

    /** One turn of the loop of `btf_dedup_merge_hypot_map`. */
    method MergeOne(a: u32, c: u32, ghost i: nat)
      requires Ready() && StructStage(sec.types, canon[..], i) && GoodPair(sec.types, a, c)
      modifies canon
      ensures Ready() && StructStage(sec.types, canon[..], i)
      ensures canon[..] == MergedPair(sec.types, old(canon[..]), a, c)
      ensures FwdResolved(sec.types, canon[..], a, c)
      ensures KeepsDefined(sec.types, old(canon[..]), canon[..]) && MergedOn(sec.types, old(canon[..]), canon[..])
    {
      ghost var m := canon[..];
      PairMerged(sec.types, m, table, a, c);
      var t_id: u32 := Resolve(a);
      var c_id: u32 := Resolve(c);
      var t := sec.Get(t_id);
      var r := sec.Get(c_id);
      MergePair(sec.types, m, table, a, c, i);
      hide Inv, StructStage, FwdResolved, MergedOn;
      if !IsFwd(t) && IsFwd(r) { canon[c_id] := t_id; }
      if IsFwd(t) && !IsFwd(r) { canon[t_id] := c_id; }
      if IsComposite(t) && !IsFwd(r) && canon[c_id] <= BTF_MAX_NR_TYPES && canon[t_id] > BTF_MAX_NR_TYPES {
        canon[t_id] := c_id;
      }
      assert canon[..] == MergedPair(sec.types, m, a, c);
      forall x | 0 <= x < |sec.types|
        ensures Defined(sec.types, m, x) ==> Defined(sec.types, canon[..], x)
        ensures FwdResolved(sec.types, canon[..], a, c)
      {
        MergeResolves(sec.types, m, table, a, c, x);
      }
    }

    /** `btf_dedup_merge_hypot_map`. */
    method MergeHypotMap(ghost i: nat)
      requires Ready() && StructStage(sec.types, canon[..], i)
      requires HypotOk(sec.types, hypot_map[..], hypot_list)
      requires GoodPairs(sec.types, hypot_map[..], hypot_list)
      modifies canon
      ensures Ready() && StructStage(sec.types, canon[..], i)
      ensures PairsResolved(sec.types, canon[..], hypot_map[..], hypot_list, |hypot_list|)
      ensures MergedOn(sec.types, old(canon[..]), canon[..])
    {
      ghost var g, h, l := sec.types, hypot_map[..], hypot_list;
      MergedNone(g, canon[..]);
      hide MergedOn;
      for k := 0 to |hypot_list|
        invariant MergedOn(g, old(canon[..]), canon[..])
        invariant Ready() && StructStage(g, canon[..], i)
        invariant PairsResolved(g, canon[..], h, l, k)
        modifies canon
      {
        var c := hypot_list[k];
        assert GoodPair(g, h[l[k]], l[k]);
        ghost var m := canon[..];
        MergeOne(hypot_map[c], c, i);
        PairsStep(g, m, canon[..], h, l, k);
        MergedOnTrans(g, old(canon[..]), m, canon[..]);
      }
    }

    /** A fresh equivalence search for struct `id` against candidate `c`. */
    method SearchEquiv(id: u32, c: u32) returns (eq: int)
      requires Ready() && HypotOk(sec.types, hypot_map[..], hypot_list)
      requires id < |sec.types| && c < |sec.types|
      modifies hypot_map, this`hypot_list
      ensures HypotOk(sec.types, hypot_map[..], hypot_list)
      ensures eq == 0 || eq == 1 || eq == -EINVAL
      ensures WellKinded(sec.types) && IsComposite(sec.types[id]) ==> eq >= 0
      ensures eq == 0 ==> !Bisimilar(sec.types, canon[..], id, c)
      ensures eq == 1 ==> GoodPairs(sec.types, hypot_map[..], hypot_list)
      ensures eq == 1 && NoForwards(sec.types) ==> SameMeaning(sec.types, id, sec.types, c)
    {
      ghost var g, m := sec.types, canon[..];
      ClearHypot();
      ghost var w: map<nat, nat> := map[];
      if Bisimilar(g, m, id, c) { w :| Functional(g, m, w) && Partners(g, m, w, id, c); }
      eq := IsEquiv(id, c, w, g, m);
      if eq == 1 { EquivMeans(g, m, table, hypot_map[..], hypot_list, id, c); }
    }

    /** One turn of the candidate loop of `btf_dedup_struct_type`. */
    method TryCandidate(id: u32, t: Rec, c: u32) returns (eq: int)
      requires Ready() && StructStage(sec.types, canon[..], id)
      requires HypotOk(sec.types, hypot_map[..], hypot_list)
      requires 1 <= id < |sec.types| && t == sec.types[id] && IsComposite(t) && c < |sec.types|
      modifies this`hypot_list, canon, hypot_map
      ensures HypotOk(sec.types, hypot_map[..], hypot_list)
      ensures eq == 0 || eq == 1 || eq == -EINVAL
      ensures WellKinded(sec.types) ==> eq >= 0
      ensures eq != 1 ==> canon[..] == old(canon[..])
      ensures eq == 0 && SameShape(t, sec.types[c]) ==> !Bisimilar(sec.types, old(canon[..]), id, c)
      ensures eq == 1 ==> Ready() && StructStage(sec.types, canon[..], id) && SameShape(t, sec.types[c])
      ensures eq == 1 ==> MergedOn(sec.types, old(canon[..]), canon[..])
      ensures eq == 1 && NoForwards(sec.types) ==> SameMeaning(sec.types, id, sec.types, c)
    {
      var cand := sec.Get(c);
      if !ShallowEqualStruct(t, cand) { return 0; }
      eq := SearchEquiv(id, c);
      if eq != 1 { return; }
      MergeHypotMap(id);
    }

    /** The candidate loop of `btf_dedup_struct_type`: the equivalent candidate, or `id`. */
    method FindStruct(id: u32, t: Rec) returns (err: int, new_id: u32)
      requires Ready() && StructStage(sec.types, canon[..], id)
      requires HypotOk(sec.types, hypot_map[..], hypot_list)
      requires 1 <= id < |sec.types| && t == sec.types[id] && IsComposite(t) && !Mapped(canon[..], id)
      modifies this`hypot_list, canon, hypot_map
      ensures err == 0 || (err == -EINVAL && !WellKinded(sec.types))
      ensures HypotOk(sec.types, hypot_map[..], hypot_list)
      ensures err == 0 ==> Ready() && StructStage(sec.types, canon[..], id)
      ensures err == 0 && new_id == id ==>
                canon[..] == old(canon[..]) && NoCandidate(sec.types, canon[..], table, id)
      ensures err == 0 ==> MergedOn(sec.types, old(canon[..]), canon[..])
      ensures err == 0 && new_id != id ==>
                && new_id in Cands(table, Hash(t)) && new_id < |sec.types| && SameShape(t, sec.types[new_id])
                && (NoForwards(sec.types) ==> SameMeaning(sec.types, id, sec.types, new_id))
    {
      hide TabOk, TabFull, NoDups, MapSound, KindAt, StructStage, SameMeaning, HypotOk, Hash, Bisimilar, MergedOn;
      ghost var g, m0 := sec.types, canon[..];
      MergedNone(g, m0);
      var cs := CandidatesOf(Hash(t));
      for k := 0 to |cs|
        invariant canon[..] == m0 && HypotOk(g, hypot_map[..], hypot_list)
        invariant forall j :: 0 <= j < k && cs[j] < |g| && SameShape(t, g[cs[j]]) ==> !Bisimilar(g, m0, id, cs[j])
      {
        assert cs[k] in Cands(table, Hash(t));
        CandidateInRange(g, m0, table, Hash(t), cs[k]);
        new_id := cs[k];
        var eq := TryCandidate(id, t, new_id);
        if eq < 0 { return eq, id; }
        if eq == 1 { return 0, new_id; }
      }
      return 0, id;
    }

    /** `btf_dedup_struct_type`. A struct becomes canonical only if no canonical struct that differs from it in
        references only is related to it by a functional bisimulation. */
    method StructType(id: u32) returns (err: int)
      requires Ready() && 1 <= id < |sec.types| && StructStage(sec.types, canon[..], id)
      requires IsComposite(sec.types[id]) ==> canon[id] != id
      requires HypotOk(sec.types, hypot_map[..], hypot_list) && StructsListed(sec.types, canon[..], table)
      modifies this`table, this`hypot_list, canon, hypot_map
      ensures err == 0 || (err == -EINVAL && !WellKinded(sec.types))
      ensures HypotOk(sec.types, hypot_map[..], hypot_list)
      ensures err == 0 ==> Ready() && StructStage(sec.types, canon[..], id + 1) && StructsListed(sec.types, canon[..], table)
      ensures err == 0 ==> MergedBut(sec.types, old(canon[..]), canon[..], id)
      ensures err == 0 && canon[id] == id && IsComposite(sec.types[id]) ==> NoneBisimilar(sec.types, old(canon[..]), id)
      ensures err == 0 && !IsComposite(sec.types[id]) ==> canon[..] == old(canon[..])
    {
      ghost var g, m0, t0 := sec.types, canon[..], table;
      var t := sec.Get(id);
      if canon[id] <= BTF_MAX_NR_TYPES || !IsComposite(t) {
        StructNext(g, m0, id);
        return 0;
      }
      UnmappedUnlisted(g, m0, t0, id);
      var new_id;
      err, new_id := FindStruct(id, t);
      if err != 0 { return; }
      SetStruct(id, t, new_id, m0, t0);
    }

    /** The end of `btf_dedup_struct_type`: the struct is mapped, and listed if it is canonical. */
    method SetStruct(id: u32, t: Rec, new_id: u32, ghost m0: seq<u32>, ghost t0: Table)
      requires Ready() && 1 <= id < |sec.types| && t == sec.types[id] && IsComposite(t) && StructStage(sec.types, canon[..], id)
      requires WFMap(sec.types, m0) && StructsListed(sec.types, m0, t0) && MergedOn(sec.types, m0, canon[..]) && table == t0
      requires Unlisted(table, id) && !Mapped(m0, id)
      requires new_id == id ==> canon[..] == m0 && NoCandidate(sec.types, canon[..], table, id)
      requires new_id != id ==>
                 && new_id in Cands(table, Hash(t)) && new_id < |sec.types| && SameShape(t, sec.types[new_id])
                 && (NoForwards(sec.types) ==> SameMeaning(sec.types, id, sec.types, new_id))
      modifies this`table, canon
      ensures Ready() && StructStage(sec.types, canon[..], id + 1) && StructsListed(sec.types, canon[..], table)
      ensures MergedBut(sec.types, m0, canon[..], id)
      ensures canon[id] == id ==> NoneBisimilar(sec.types, m0, id)
    {
      hide Hash, Bisimilar, Inv, SameMeaning;
      ghost var g, m := sec.types, canon[..];
      MergedAndSet(g, m0, m, id, new_id);
      canon[id] := new_id;
      assert canon[..] == m[id := new_id];
      if id == new_id {
        NoneAmongCandidates(g, m0, t0, id);
        InvSelf(g, m, t0, id);
        StructLinkStage(g, m, id, id, id);
        NewListed(g, m, t0, id);
        table := Added(table, Hash(t), id);
      } else {
        StillListed(g, m0, m, t0);
        LinkListed(g, m, t0, id, new_id);
        StructLink(g, m, t0, id, new_id, id);
      }
      StructNext(g, canon[..], id);
    }

    /** `btf_dedup_struct_types`; `at` is what the map was before each turn. */
    method StructTypes() returns (err: int, ghost at: seq<seq<u32>>)
      requires Ready() && StructStage(sec.types, canon[..], 1) && NoneCanonical(sec.types, canon[..], 1)
      requires HypotOk(sec.types, hypot_map[..], hypot_list) && EnumsResolved(sec.types, canon[..])
      modifies this`table, this`hypot_list, canon, hypot_map
      ensures err == 0 || (err == -EINVAL && !WellKinded(sec.types))
      ensures err == 0 ==> Ready() && StructStage(sec.types, canon[..], |sec.types|) && MapClosed(canon[..])
      ensures err == 0 ==> Before(sec.types, at, canon[..], |sec.types|) && NoTwins(sec.types, at, canon[..], |sec.types|)
      ensures err == 0 ==> EnumsResolved(sec.types, canon[..])
    {
      at := [canon[..]];
      StartHistory(sec.types, canon[..], table);
      hide Before, NoTwins, NoneBisimilar, StructsListed, MergedBut, EnumsResolved, HypotOk;
      for id := 1 to canon.Length
        invariant Ready() && StructStage(sec.types, canon[..], id)
        invariant HypotOk(sec.types, hypot_map[..], hypot_list) && StructsListed(sec.types, canon[..], table)
        invariant Before(sec.types, at, canon[..], id) && NoTwins(sec.types, at, canon[..], id)
        invariant NoneCanonical(sec.types, canon[..], id) && EnumsResolved(sec.types, canon[..])
      {
        ghost var m := canon[..];
        err := StructType(id);
        if err != 0 { return; }
        if IsComposite(sec.types[id]) { StillResolved(sec.types, m, canon[..], id); }
        HistoryOn(sec.types, at, m, canon[..], id);
        at := at + [m];
      }
      StructsClose(sec.types, canon[..]);
      return 0, at;
    }

    /** The state between two calls of the reference pass; `stack` holds the types in progress, `done`
        the finished ones in the order they finished. */
    ghost predicate RefReady(g1: Graph, m1: seq<u32>, stack: seq<nat>, done: seq<nat>)
      reads this, sec, sec.data, sec.type_offs, canon
    {
      Ready() && MapClosed(canon[..]) && RefStage(g1, m1, sec.types, canon[..], stack, done)
    }

    /** One turn of the loop of `btf_dedup_ref_type` over the references of a record. */
    method RefKid(id: u32, kid: u32, i: nat, ghost g1: Graph, ghost m1: seq<u32>, ghost stack: seq<nat>, ghost done: seq<nat>)
      returns (r: int, ghost done2: seq<nat>)
      requires RefReady(g1, m1, stack, done) && 1 <= id < |g1| && canon[id] == IN_PROGRESS
      requires |stack| > 0 && stack[|stack| - 1] == id && RefKind(Kind(g1[id]))
      requires KidsLeft(g1, sec.types, canon[..], id, i) && i < RefCount(g1[id]) && kid == Ref(g1[id], i)
      modifies sec.data, sec`types, canon, this`table
      ensures r >= 0 || (r == -ELOOP && RefCycle(g1))
      ensures r >= 0 ==> RefReady(g1, m1, stack, done2) && KidsLeft(g1, sec.types, canon[..], id, i + 1)
      ensures r >= 0 ==> done <= done2 && (RefKind(Kind(g1[kid])) ==> kid in done2)
      ensures r >= 0 ==> LaterBut(old(sec.types), old(canon[..]), sec.types, canon[..], id)
      decreases |Unprocessed(canon[..])|, 1
    {
      ghost var g0, m0 := sec.types, canon[..];
      r, done2 := RefType(kid, g1, m1, stack, done);
      if r < 0 { return; }
      ghost var g := sec.types;
      KidsLeftLater(g1, g0, m0, g, canon[..], id, i);
      RootMapped(canon[..], kid);
      RefPut(g1, m1, g, canon[..], table, stack, done2, id, i, r);
      sec.PutRef(id, i, r);
      LaterStep(g0, m0, g0, m0, g, canon[..], sec.types, id);
    }

    /** The loop of `btf_dedup_ref_type` over the references of a record. */
    method RefKids(id: u32, ghost g1: Graph, ghost m1: seq<u32>, ghost stack: seq<nat>, ghost done: seq<nat>)
      returns (r: int, ghost done2: seq<nat>)
      requires RefReady(g1, m1, stack, done) && 1 <= id < |g1| && canon[id] == IN_PROGRESS
      requires |stack| > 0 && stack[|stack| - 1] == id && sec.types[id] == g1[id] && RefKind(Kind(g1[id]))
      modifies sec.data, sec`types, canon, this`table
      ensures r >= 0 || (r == -ELOOP && RefCycle(g1))
      ensures r >= 0 ==> RefReady(g1, m1, stack, done2) && done <= done2 && KidsFinished(g1, id, done2, RefCount(g1[id]))
      ensures r >= 0 ==> RefsCanonical(sec.types[id], canon[..])
      ensures r >= 0 ==> LaterBut(old(sec.types), old(canon[..]), sec.types, canon[..], id)
      decreases |Unprocessed(canon[..])|, 2
    {
      ghost var g0, m0 := sec.types, canon[..];
      r, done2 := 0, done;
      var t := sec.Get(id);
      for i := 0 to RefCount(t)
        invariant RefReady(g1, m1, stack, done2) && r >= 0 && done <= done2
        invariant KidsLeft(g1, sec.types, canon[..], id, i)
        invariant KidsFinished(g1, id, done2, i)
        invariant LaterBut(g0, m0, sec.types, canon[..], id)
      {
        ghost var g2, m2, d2 := sec.types, canon[..], done2;
        LaterShrinks(m0, m2);
        r, done2 := RefKid(id, Ref(t, i), i, g1, m1, stack, done2);
        if r < 0 { return; }
        LaterButTrans(g0, m0, g2, m2, sec.types, canon[..], id);
        KidsFinishedStep(g1, id, d2, done2, i);
      }
      KidsLeftNone(g1, sec.types, canon[..], id);
    }

    /** The end of `btf_dedup_ref_type`: the record is stable now and looks for an equal candidate. */
    method RefFinish(id: u32, ghost g1: Graph, ghost m1: seq<u32>, ghost stack: seq<nat>, ghost done: seq<nat>)
      returns (new_id: u32)
      requires RefReady(g1, m1, stack + [id], done) && 1 <= id < |g1| && canon[id] == IN_PROGRESS && id !in stack
      requires KidsFinished(g1, id, done, RefCount(g1[id])) && RefsCanonical(sec.types[id], canon[..])
      modifies canon, this`table
      ensures RefReady(g1, m1, stack, done + [id]) && new_id < |g1| && new_id == Root(canon[..], id)
      ensures canon[..] == old(canon[..])[id := new_id] && new_id <= BTF_MAX_NR_TYPES
    {
      ghost var g, m := sec.types, canon[..];
      StageKind(g1, m1, g, m, stack, done, id);
      var t := sec.Get(id);
      SearchFacts(g, m, table, id);
      new_id := FindEqual(t, id, Hash(t));
      InvFinish(g, m, table, id, new_id);
      StageFinish(g1, m1, g, m, stack, done, id, new_id);
      canon[id] := new_id;
      assert canon[..] == m[id := new_id];
      if id == new_id { table := Added(table, Hash(t), id); }
    }

    /** `btf_dedup_ref_type`. The error is -ELOOP, and only when a chain of reference kinds is closed. */
    method RefType(id: u32, ghost g1: Graph, ghost m1: seq<u32>, ghost stack: seq<nat>, ghost done: seq<nat>)
      returns (r: int, ghost done2: seq<nat>)
      requires RefReady(g1, m1, stack, done) && id < |g1|
      requires |stack| > 0 ==> IsRefOf(g1, stack[|stack| - 1], id)
      modifies sec.data, sec`types, canon, this`table
      ensures 0 <= r < |g1| || (r == -ELOOP && RefCycle(g1))
      ensures r >= 0 ==> RefReady(g1, m1, stack, done2) && r == Root(canon[..], id) && Mapped(canon[..], id)
      ensures r >= 0 ==> done <= done2 && (RefKind(Kind(g1[id])) ==> id in done2)
      ensures r >= 0 ==> Later(old(sec.types), old(canon[..]), sec.types, canon[..])
      decreases |Unprocessed(canon[..])|, 0
    {
      ghost var g0, m0 := sec.types, canon[..];
      done2 := done;
      assert RefAt(g1, m1, g0, m0, stack, done, id);
      if canon[id] == IN_PROGRESS {
        StackClosesCycle(g1, stack, id);
        return -ELOOP, done;
      }
      if canon[id] <= BTF_MAX_NR_TYPES {
        r := Resolve(id);
        return;
      }
      StageMark(g1, m1, g0, m0, stack, done, id);
      InvMark(g0, m0, table, id);
      canon[id] := IN_PROGRESS;
      ghost var m := canon[..];
      assert m == m0[id := IN_PROGRESS];
      r, done2 := RefKids(id, g1, m1, stack + [id], done);
      if r < 0 { return; }
      ghost var g2, m2 := sec.types, canon[..];
      r := RefFinish(id, g1, m1, stack, done2);
      LaterFinish(g0, m0, g2, m2, id, r);
      done2 := done2 + [id];
    }

    /** `btf_dedup_ref_types`: fails exactly when some chain of reference kinds is closed. */
    method RefTypes() returns (err: int)
      requires Ready() && StructStage(sec.types, canon[..], |sec.types|) && MapClosed(canon[..])
      modifies sec.data, sec`types, canon, this`table
      ensures err == 0 || err == -ELOOP
      ensures err == -ELOOP <==> RefCycle(old(sec.types))
      ensures err == 0 ==> Ready() && Settled(sec.types, canon[..])
      ensures err == 0 && NoForwards(old(sec.types)) ==> SameAll(old(sec.types), sec.types) && NoForwards(sec.types)
      ensures err == 0 ==> OnlyRefs(old(sec.types), old(canon[..]), sec.types, canon[..])
    {
      ghost var g1, m1 := sec.types, canon[..];
      RefInit(g1, m1);
      ghost var done: seq<nat> := [];
      for id := 1 to canon.Length
        invariant RefReady(g1, m1, [], done)
        invariant forall x :: 0 <= x < id ==> Mapped(canon[..], x)
      {
        ghost var g2, m2 := sec.types, canon[..];
        var r;
        r, done := RefType(id, g1, m1, [], done);
        if r < 0 { return r; }
        forall x | 0 <= x < id ensures Mapped(canon[..], x) { assert Mapped(m2, x); }
      }
      RefDone(g1, m1, sec.types, canon[..], done);
      StageNoForwards(g1, m1, sec.types, canon[..], [], done);
      StageOnlyRefs(g1, m1, sec.types, canon[..], [], done);
      return 0;
    }

    /** `btf_dedup_remap_type_id`: never fails, since every resolved id has survived compaction. */
    method RemapId(type_id: u32) returns (err: int, new_id: u32)
      requires canon.Length == hypot_map.Length && IsForest(canon[..]) && type_id < canon.Length
      requires FinalId(canon[..], hypot_map[..], type_id) <= BTF_MAX_NR_TYPES
      ensures err == 0 && new_id == FinalId(canon[..], hypot_map[..], type_id)
    {
      var resolved := Resolve(type_id);
      new_id := hypot_map[resolved];
      if new_id > BTF_MAX_NR_TYPES { return -EINVAL, type_id; }
      return 0, new_id;
    }

    /** The buffers the renumbering reads, and that every reference has a final id. */
    ghost predicate Remappable(ts: Graph, m: seq<u32>, hm: seq<u32>)
      reads this, canon, hypot_map
    {
      && m == canon[..] && hm == hypot_map[..] && canon.Length == hypot_map.Length && IsForest(m)
      && canon != sec.data && hypot_map != sec.data && canon != sec.type_offs && hypot_map != sec.type_offs
      && (forall x :: 0 <= x < |ts| ==> WF(ts[x]))
      && forall x, k :: 0 <= x < |ts| && 0 <= k < RefCount(ts[x]) ==>
           Ref(ts[x], k) < |m| && FinalId(m, hm, Ref(ts[x], k)) <= BTF_MAX_NR_TYPES
    }

    /** One record of `btf_dedup_remap_types`. */
    method RemapType(id: nat, ghost ts: Graph, ghost m: seq<u32>, ghost hm: seq<u32>) returns (err: int)
      requires sec.Valid() && Remappable(ts, m, hm) && 1 <= id < |sec.types| && RemapStage(ts, sec.types, m, hm, id, 0)
      modifies sec.data, sec`types
      ensures err == 0 && sec.Valid() && RemapStage(ts, sec.types, m, hm, id, RefCount(ts[id]))
      ensures sec.types[0] == old(sec.types[0])
    {
      hide IsForest, Label, IsRemap;
      var t := sec.Get(id);
      for k := 0 to RefCount(t)
        invariant sec.Valid() && RemapStage(ts, sec.types, m, hm, id, k) && sec.types[0] == old(sec.types[0])
      {
        var e, v := RemapId(Ref(t, k));
        if e != 0 { return e; }
        PartRemapStep(ts[id], sec.types[id], m, hm, k);
        sec.PutRef(id, k, v);
      }
      return 0;
    }

    /** `btf_dedup_remap_types`, over the compacted records `ts`. */
    method RemapTypes(ghost ts: Graph) returns (err: int)
      requires sec.Valid() && ts == sec.types && Remappable(ts, canon[..], hypot_map[..])
      modifies sec.data, sec`types
      ensures err == 0 && sec.Valid()
      ensures RemapStage(ts, sec.types, canon[..], hypot_map[..], |ts|, 0) && sec.types[0] == VOID
    {
      ghost var m, hm := canon[..], hypot_map[..];
      hide IsForest, Label, IsRemap;
      for id := 1 to sec.nr_types + 1
        invariant sec.Valid() && RemapStage(ts, sec.types, m, hm, id, 0) && sec.types[0] == VOID
      {
        err := RemapType(id, ts, m, hm);
        RemapNext(ts, sec.types, m, hm, id);
      }
      return 0;
    }

    /** `btf__dedup` after string deduplication. On success the section holds the deduplicated types,
        and `hypot_map[resolve_type_id(id)]` is the new id of type `id`. A well-kinded section fails
        exactly when a chain of reference kinds is closed. `at` is what the map was before each turn of the struct pass. */
    method Run() returns (err: int, ghost at: seq<seq<u32>>)
      requires Ready() && PrimStage(sec.types, canon[..], 1) && MapClosed(canon[..])
      requires HypotOk(sec.types, hypot_map[..], hypot_list)
      modifies this`table, this`hypot_list, canon, hypot_map, sec, sec.data, sec.type_offs
      ensures err == 0 || err == -EINVAL || err == -ELOOP
      ensures err == -ELOOP ==> RefCycle(old(sec.types))
      ensures err == 0 ==> !RefCycle(old(sec.types))
      ensures !AllKnown(old(sec.types)) ==> err == -EINVAL
      ensures WellKinded(old(sec.types)) ==> err == if RefCycle(old(sec.types)) then -ELOOP else 0
      ensures err == 0 ==> sec.Valid() && Deduplicated(old(sec.types), canon[..], hypot_map[..], sec.types)
      ensures err == 0 ==> Before(old(sec.types), at, canon[..], |old(sec.types)|)
                           && NoTwins(old(sec.types), at, canon[..], |old(sec.types)|) && EnumsResolved(old(sec.types), canon[..])
    {
      ghost var g0 := sec.types;
      at := [];
      err := PrimTypes();
      if err != 0 { return; }
      PrimsDone(g0, canon[..]);
      NoStructsYet(g0, canon[..]);
      err, at := StructTypes();
      if err != 0 { return; }
      ghost var m1 := canon[..];
      err := RefTypes();
      if err != 0 { return; }
      HistoryKept(g0, at, m1, sec.types, canon[..]);
      CompactAndRemap(g0);
    }

    /** The last two passes, which cannot fail any more; `g0` is what the section held at first. */
    method CompactAndRemap(ghost g0: Graph)
      requires Ready() && Settled(sec.types, canon[..]) && WFGraph(g0) && |g0| == |sec.types|
      requires NoForwards(g0) ==> SameAll(g0, sec.types) && NoForwards(sec.types)
      requires forall x :: 0 <= x < |g0| ==> Label(sec.types[x]) == Label(g0[x])
      modifies hypot_map, sec, sec.data, sec.type_offs
      ensures sec.Valid() && Deduplicated(g0, canon[..], hypot_map[..], sec.types)
    {
      ghost var g, m := sec.types, canon[..];
      SettledKnown(g, m);
      var err := sec.Compact(canon, hypot_map);
      ghost var ts, hm := sec.types, hypot_map[..];
      RemapFits(g, m, hm, ts);
      err := RemapTypes(ts);
      hide Deduplicated, Inv, Settled, Renumbered, Remapped, RemapStage;
      CompactedRemapped(g, m, hm, ts, sec.types);
      RunResult(g0, g, m, hm, table, sec.types);
    }

    /** The record-by-record part of `btf_dedup_is_equiv`. */
    method MatchRecords(a: Rec, c: Rec) returns (eq: int)
      requires WF(a) && WF(c)
      ensures eq == 1 || eq == 0 || eq == -EINVAL
      ensures eq == 1 <==> LocalMatch(a, c)
      ensures eq == -EINVAL ==> Kind(a) == Kind(c) && (Unfollowed(Kind(a)) || !KnownKind(Kind(a)))
    {
      var k := Kind(a);
      if a.name != c.name { return 0; }
      if (k == KIND_FWD || Kind(c) == KIND_FWD) && k != Kind(c) {
        var ok := if k == KIND_FWD then FwdKind(a) == Kind(c) else FwdKind(c) == k;
        return if ok then 1 else 0;
      }
      if k != Kind(c) { return 0; }
      var ok;
      if k == KIND_INT { ok := EqualIntTag(a, c); }
      else if k == KIND_ENUM { ok := CompatEnum(a, c); }
      else if k == KIND_FWD || k == KIND_FLOAT { ok := EqualCommon(a, c); }
      else if SingleRefKind(k) { ok := a.info == c.info; }
      else if k == KIND_ARRAY { ok := CompatArray(a, c); }
      else if IsComposite(a) { ok := ShallowEqualStruct(a, c); }
      else if k == KIND_FUNC_PROTO { ok := CompatFnproto(a, c); }
      else { return -EINVAL; }
      return if ok then 1 else 0;
    }
  }
}
