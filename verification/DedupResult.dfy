/** The end of BTF deduplication: compaction and renumbering, and what the whole run achieves. */
module DedupResult {
  import opened Common
  import opened BtfTypes
  import opened BtfEqual
  import opened Forest
  import opened Bisim
  import opened DedupInv
  import opened RefPass
  import opened TypeSection

  ghost predicate SettledAt(g: Graph, m: seq<u32>, x: nat)
    requires |m| == |g| && x < |g|
  {
    && Mapped(m, x)
    && (x > 0 ==> KnownKind(Kind(g[x])))
    && (RefKind(Kind(g[x])) ==> RefsCanonical(g[x], m))
  }

  /** After the reference pass: every type is mapped, and reference types refer to canonical types. */
  ghost predicate Settled(g: Graph, m: seq<u32>) {
    && KindsOk(g, m) && m[0] == 0 && MapClosed(m)
    && forall x {:trigger SettledAt(g, m, x)} :: 0 <= x < |g| ==> SettledAt(g, m, x)
  }

  lemma {:induction false} RefInit(g: Graph, m: seq<u32>)
    requires KindsOk(g, m) && m[0] == 0 && StructStage(g, m, |g|)
    ensures RefStage(g, m, g, m, [], [])
  {
    forall x | 0 <= x < |g| ensures RefAt(g, m, g, m, [], [], x) {
      if x > 0 { assert StructAt(g, m, x, |g|); }
    }
  }

  /** When the reference pass succeeds there was no closed chain, and everything is settled. */
  lemma {:induction false} RefDone(g1: Graph, m1: seq<u32>, g: Graph, m: seq<u32>, done: seq<nat>)
    requires KindsOk(g1, m1) && StructStage(g1, m1, |g1|) && RefStage(g1, m1, g, m, [], done)
    requires KindsOk(g, m) && m[0] == 0 && MapClosed(m)
    requires forall x :: 0 <= x < |m| ==> Mapped(m, x)
    ensures !RefCycle(g1) && Settled(g, m)
  {
    forall x | 0 <= x < |g| ensures SettledAt(g, m, x) && (RefKind(Kind(g1[x])) ==> x in done) {
      assert RefAt(g1, m1, g, m, [], done, x);
      assert Label(g[x]).info == Label(g1[x]).info;
      if x > 0 { assert StructAt(g1, m1, x, |g1|); }
    }
    AllFinishedNoCycle(g1, done);
  }

  /** The id a type has in the end: `hypot_map[resolve_type_id(id)]`. */
  ghost function FinalId(m: seq<u32>, hm: seq<u32>, x: nat): u32
    requires IsForest(m) && |hm| == |m| && x < |m|
  {
    hm[Root(m, x)]
  }

  /** Record `u` is record `t` with every reference renumbered. */
  ghost predicate IsRemap(t: Rec, u: Rec, m: seq<u32>, hm: seq<u32>)
    requires IsForest(m) && |hm| == |m|
  {
    && WF(t) && WF(u) && Label(u) == Label(t) && RefCount(u) == RefCount(t)
    && forall k :: 0 <= k < RefCount(t) ==> Ref(t, k) < |m| && Ref(u, k) == FinalId(m, hm, Ref(t, k))
  }

  ghost predicate RemapAt(g: Graph, m: seq<u32>, hm: seq<u32>, h: Graph, c: nat)
    requires IsForest(m) && |hm| == |m| == |g| && c < |g|
  {
    m[c] == c ==> hm[c] < |h| && IsRemap(g[c], h[hm[c]], m, hm)
  }

  ghost predicate HasSource(m: seq<u32>, hm: seq<u32>, y: nat)
    requires |hm| == |m|
  {
    exists c :: 0 <= c < |m| && m[c] == c && hm[c] == y
  }

  /** The output graph holds exactly the canonical records, renumbered. */
  ghost predicate Remapped(g: Graph, m: seq<u32>, hm: seq<u32>, h: Graph) {
    && Settled(g, m) && |hm| == |g|
    && 1 <= |h| <= |g| && h[0] == VOID && hm[0] == 0
    && (forall c {:trigger RemapAt(g, m, hm, h, c)} :: 0 <= c < |g| ==> RemapAt(g, m, hm, h, c))
    && (forall y {:trigger HasSource(m, hm, y)} :: 0 <= y < |h| ==> HasSource(m, hm, y))
  }

  lemma {:induction false} RootCanonical(g: Graph, m: seq<u32>, x: nat)
    requires Settled(g, m) && x < |g|
    ensures m[Root(m, x)] == Root(m, x)
  {
    assert SettledAt(g, m, x);
    RootMapped(m, x);
  }

  lemma {:induction false} FinalIdInRange(g: Graph, m: seq<u32>, hm: seq<u32>, h: Graph, x: nat)
    requires Remapped(g, m, hm, h) && x < |g|
    ensures FinalId(m, hm, x) < |h|
  {
    RootCanonical(g, m, x);
    assert RemapAt(g, m, hm, h, Root(m, x));
  }

  lemma {:induction false} OutputWF(g: Graph, m: seq<u32>, hm: seq<u32>, h: Graph)
    requires Remapped(g, m, hm, h)
    ensures WFGraph(h)
  {
    forall y | 0 <= y < |h| ensures WF(h[y]) && RefsInRange(h[y], |h|) {
      assert HasSource(m, hm, y);
      var c :| 0 <= c < |m| && m[c] == c && hm[c] == y;
      assert RemapAt(g, m, hm, h, c);
      forall k | 0 <= k < RefCount(h[y]) ensures Ref(h[y], k) < |h| {
        FinalIdInRange(g, m, hm, h, Ref(g[c], k));
      }
    }
  }

  /** Renumbering preserves meaning: to every depth, a canonical type and its new id unfold alike. */
  lemma {:induction false} OutputUnfold(g: Graph, m: seq<u32>, hm: seq<u32>, h: Graph, x: nat, n: nat)
    requires Remapped(g, m, hm, h) && WFGraph(h) && MapSound(g, m) && x < |g| && FinalId(m, hm, x) < |h|
    ensures Unfold(h, FinalId(m, hm, x), n) == Unfold(g, x, n)
    decreases n
  {
    var c: nat := Root(m, x);
    RootCanonical(g, m, x);
    RootSound(g, m, x);
    if n > 0 {
      assert RemapAt(g, m, hm, h, c);
      var u := h[hm[c]];
      forall k | 0 <= k < RefCount(u)
        ensures Unfold(h, Ref(u, k), n - 1) == Unfold(g, Ref(g[c], k), n - 1)
      {
        FinalIdInRange(g, m, hm, h, Ref(g[c], k));
        OutputUnfold(g, m, hm, h, Ref(g[c], k), n - 1);
      }
      UnfoldStep(h, hm[c], g, c, n - 1);
    }
  }

  /** Types that carry no reference besides the one of a forward declaration, or only canonical ones. */
  predicate Comparable(t: Rec) { EqKind(Kind(t)) && (IsFwd(t) ==> t.szt == 0) }

  /** No two types of the output that are deduplicated by equality are equal. */
  ghost predicate OutputDistinct(h: Graph) {
    forall x, y :: 1 <= x < y < |h| && Comparable(h[x]) ==> h[x] != h[y]
  }

  /** A record is determined by its label and its references. */
  lemma {:induction false} LabelAndRefs(a: Rec, b: Rec)
    requires WF(a) && WF(b) && Label(a) == Label(b)
    requires forall k :: 0 <= k < RefCount(a) && k < RefCount(b) ==> Ref(a, k) == Ref(b, k)
    requires RefKind(Kind(a)) || RefCount(a) == 0 || IsFwd(a)
    ensures a == b
  {
    assert a.info == b.info;
    var k := Kind(a);
    forall j | 0 <= j < |a.rest| ensures a.rest[j] == b.rest[j] {
      assert Label(a).rest[j] == Label(b).rest[j];
      if k == KIND_ARRAY {
        assert IsRefWord(k, 3 + j) == (j < 2);
        if j < 2 { assert Ref(a, j) == Ref(b, j); }
      } else if k == KIND_FUNC_PROTO && j % 2 == 1 {
        var i := j / 2 + 1;
        assert j == 2 * (i - 1) + 1;
        assert Ref(a, i) == Ref(b, i);
      } else {
        assert !IsRefWord(k, 3 + j) && !IsRefWord(Kind(b), 3 + j);
      }
    }
    assert a.rest == b.rest;
    if RefCount(a) > 0 && k != KIND_ARRAY { assert Ref(a, 0) == Ref(b, 0); }
  }

  /** Distinct canonical types get distinct new ids. */
  ghost predicate NewIdsDistinct(m: seq<u32>, hm: seq<u32>)
    requires |hm| == |m|
  {
    forall c, d :: 0 <= c < |m| && 0 <= d < |m| && m[c] == c && m[d] == d && hm[c] == hm[d] ==> c == d
  }

  lemma {:induction false} SameImage(g: Graph, m: seq<u32>, hm: seq<u32>, h: Graph, c: nat, d: nat)
    requires Remapped(g, m, hm, h) && NewIdsDistinct(m, hm)
    requires 1 <= c < |g| && 1 <= d < |g| && m[c] == c && m[d] == d
    requires RefKind(Kind(g[c])) || RefCount(g[c]) == 0
    requires hm[c] < |h| && hm[d] < |h| && h[hm[c]] == h[hm[d]]
    ensures g[c] == g[d]
  {
    assert RemapAt(g, m, hm, h, c) && RemapAt(g, m, hm, h, d);
    assert SettledAt(g, m, c) && SettledAt(g, m, d);
    assert g[c].info == Label(g[c]).info == Label(g[d]).info == g[d].info;
    forall k | 0 <= k < RefCount(g[c]) ensures Ref(g[c], k) == Ref(g[d], k) {
      var x, y: nat := Ref(g[c], k), Ref(g[d], k);
      assert m[x] == x && m[y] == y;
      assert Root(m, x) == x && Root(m, y) == y;
      assert Ref(h[hm[c]], k) == hm[x] && Ref(h[hm[d]], k) == hm[y];
    }
    LabelAndRefs(g[c], g[d]);
  }

  lemma {:induction false} OnlyVoidIsVoid(g: Graph, m: seq<u32>, x: nat)
    requires Settled(g, m) && WFGraph(g) && x < |g| && Root(m, x) == 0
    ensures x == 0
  {
    RootKind(g, m, x);
    assert SettledAt(g, m, x);
  }

  lemma {:induction false} SameFwdImage(g: Graph, m: seq<u32>, hm: seq<u32>, h: Graph, c: nat, d: nat)
    requires Remapped(g, m, hm, h) && NewIdsDistinct(m, hm) && WFGraph(g)
    requires 1 <= c < |g| && 1 <= d < |g| && m[c] == c && m[d] == d && IsFwd(g[c])
    requires hm[c] < |h| && hm[d] < |h| && h[hm[c]] == h[hm[d]] && h[hm[c]].szt == 0
    ensures g[c] == g[d]
  {
    assert RemapAt(g, m, hm, h, c) && RemapAt(g, m, hm, h, d);
    assert g[c].info == Label(g[c]).info == Label(g[d]).info == g[d].info;
    forall e | e == c || e == d ensures Ref(g[e], 0) == 0 {
      var y: nat := Ref(g[e], 0);
      assert Ref(h[hm[e]], 0) == 0;
      RootCanonical(g, m, y);
      OnlyVoidIsVoid(g, m, y);
    }
    LabelAndRefs(g[c], g[d]);
  }

  /** The output holds no two equal types among those that are deduplicated by equality. */
  lemma {:induction false} OutputHasNoDups(g: Graph, m: seq<u32>, hm: seq<u32>, h: Graph)
    requires Remapped(g, m, hm, h) && NewIdsDistinct(m, hm) && WFGraph(g) && NoDups(g, m)
    ensures OutputDistinct(h)
  {
    forall x, y | 1 <= x < y < |h| && Comparable(h[x]) ensures h[x] != h[y] {
      assert HasSource(m, hm, x) && HasSource(m, hm, y);
      var c :| 0 <= c < |m| && m[c] == c && hm[c] == x;
      var d :| 0 <= d < |m| && m[d] == d && hm[d] == y;
      if h[x] == h[y] {
        assert RemapAt(g, m, hm, h, c) && RemapAt(g, m, hm, h, d);
        assert g[c].info == Label(g[c]).info == h[x].info;
        if IsFwd(g[c]) { SameFwdImage(g, m, hm, h, c, d); } else { SameImage(g, m, hm, h, c, d); }
        assert EqCanonical(g, m, c) && EqCanonical(g, m, d);
        assert false;
      }
    }
  }

  /** A canonical type's new id is one more than its place among the survivors. */
  lemma {:induction false} NewIdOf(m: seq<u32>, hm: seq<u32>, c: nat)
    requires |m| == |hm| && 1 <= c < |m| && m[c] == c && Renumbered(m, |m|, hm)
    ensures var s := Survivors(m, |m|); 1 <= hm[c] <= |s| && s[hm[c] - 1] == c
  {
    var s := Survivors(m, |m|);
    SurvivorsSorted(m, |m|);
    var i :| 0 <= i < |s| && s[i] == c;
    assert hm[s[i]] == i + 1;
  }

  /** In an increasing sequence the smaller element comes first. */
  lemma {:induction false} SortedAt(s: seq<nat>, i: nat, j: nat)
    requires i < |s| && j < |s| && s[i] < s[j]
    requires forall a, b :: 0 <= a < b < |s| ==> s[a] < s[b]
    ensures i < j
  {
  }

  /** Compaction hands out ids of the output to exactly the canonical types, injectively and in order. */
  lemma {:induction false} NewIds(m: seq<u32>, hm: seq<u32>, n: nat)
    requires 1 <= |m| == |hm| && Renumbered(m, |m|, hm) && m[0] == 0 && n == |Survivors(m, |m|)| + 1
    requires n <= BTF_MAX_NR_TYPES + 1
    ensures forall c :: 0 <= c < |m| && m[c] == c ==> hm[c] < n
    ensures forall c, d :: 0 <= c < d < |m| && m[c] == c && m[d] == d ==> hm[c] < hm[d]
    ensures NewIdsDistinct(m, hm)
    ensures forall y {:trigger HasSource(m, hm, y)} :: 0 <= y < n ==> HasSource(m, hm, y)
  {
    var s := Survivors(m, |m|);
    SurvivorsSorted(m, |m|);
    forall c, d | 0 <= c < d < |m| && m[c] == c && m[d] == d ensures hm[c] < hm[d] {
      NewIdOf(m, hm, d);
      if c > 0 {
        NewIdOf(m, hm, c);
        SortedAt(s, hm[c] - 1, hm[d] - 1);
      }
    }
    forall c | 0 <= c < |m| && m[c] == c ensures hm[c] < n { if c > 0 { NewIdOf(m, hm, c); } }
    forall y | 0 <= y < n ensures HasSource(m, hm, y) {
      if y > 0 {
        var c := s[y - 1];
        assert m[c] == c && hm[c] == y;
      }
    }
  }

  /** The renumbering loop: records below `id` are done, and the first `k` references of record `id`. */
  ghost predicate RemapStage(ts: Graph, us: Graph, m: seq<u32>, hm: seq<u32>, id: nat, k: nat)
    requires IsForest(m) && |hm| == |m|
  {
    && |us| == |ts|
    && (forall x {:trigger us[x]} :: 0 < x < id && x < |ts| ==> IsRemap(ts[x], us[x], m, hm))
    && (forall x {:trigger us[x]} :: id < x < |ts| ==> us[x] == ts[x])
    && (id < |ts| ==> PartRemap(ts[id], us[id], m, hm, k))
  }

  ghost predicate PartRemap(t: Rec, u: Rec, m: seq<u32>, hm: seq<u32>, k: nat)
    requires IsForest(m) && |hm| == |m|
  {
    && WF(t) && WF(u) && Label(u) == Label(t) && RefCount(u) == RefCount(t)
    && (forall j :: 0 <= j < k && j < RefCount(t) ==> Ref(t, j) < |m| && Ref(u, j) == FinalId(m, hm, Ref(t, j)))
    && (forall j :: k <= j < RefCount(t) ==> Ref(u, j) == Ref(t, j))
  }

  lemma {:induction false} PartRemapStep(t: Rec, u: Rec, m: seq<u32>, hm: seq<u32>, k: nat)
    requires IsForest(m) && |hm| == |m| && PartRemap(t, u, m, hm, k) && k < RefCount(t) && Ref(t, k) < |m|
    ensures PartRemap(t, SetRef(u, k, FinalId(m, hm, Ref(t, k))), m, hm, k + 1)
  {
    SetRefFacts(u, k, FinalId(m, hm, Ref(t, k)));
  }

  lemma {:induction false} RemapNext(ts: Graph, us: Graph, m: seq<u32>, hm: seq<u32>, id: nat)
    requires IsForest(m) && |hm| == |m| && 0 < id < |ts| && RemapStage(ts, us, m, hm, id, RefCount(ts[id]))
    requires forall x :: 0 <= x < |ts| ==> WF(ts[x])
    ensures RemapStage(ts, us, m, hm, id + 1, 0)
  {
    forall x | 0 < x < id + 1 && x < |ts| ensures IsRemap(ts[x], us[x], m, hm) {}
  }

  /** Where compaction puts a canonical type. */
  lemma {:induction false} CompactedAt(g: Graph, m: seq<u32>, hm: seq<u32>, c: nat)
    requires 1 <= |g| == |m| == |hm| && Renumbered(m, |m|, hm) && 1 <= c < |m| && m[c] == c
    ensures var ts := Compacted(g, m, |m|); 1 <= hm[c] < |ts| && ts[hm[c]] == g[c]
  {
    NewIdOf(m, hm, c);
  }

  /** What compaction and renumbering make of a settled graph. */
  lemma {:induction false} CompactedRemapped(g: Graph, m: seq<u32>, hm: seq<u32>, ts: Graph, us: Graph)
    requires Settled(g, m) && WFGraph(g) && |hm| == |m| && Renumbered(m, |m|, hm)
    requires ts == Compacted(g, m, |m|)
    requires RemapStage(ts, us, m, hm, |ts|, 0) && us[0] == VOID
    ensures Remapped(g, m, hm, us) && NewIdsDistinct(m, hm)
  {
    NewIds(m, hm, |ts|);
    forall c | 0 <= c < |g| ensures RemapAt(g, m, hm, us, c) {
      if m[c] == c && c > 0 {
        CompactedAt(g, m, hm, c);
        assert IsRemap(ts[hm[c]], us[hm[c]], m, hm);
      } else if c == 0 {
        assert IsRemap(VOID, VOID, m, hm);
      }
    }
  }

  /** Two copies of `struct S { struct S *s; }`, with ids 1 and 3 and pointers 2 and 4: while neither pointer is mapped, a
      functional bisimulation joins the structs, whatever their names, sizes and offsets. So they are not both kept. */
  lemma {:induction false} CopiesBisimilar(g: Graph, m: seq<u32>, name: u32, info: u32, size: u32, member: u32, off: u32, ptr: u32)
    requires WFMap(g, m) && |g| == 5 && InfoKind(info) == KIND_STRUCT && InfoVlen(info) == 1 && InfoKind(ptr) == KIND_PTR
    requires g[1] == Rec(name, info, size, [member, 2, off]) && g[2] == Rec(0, ptr, 1, [])
    requires g[3] == Rec(name, info, size, [member, 4, off]) && g[4] == Rec(0, ptr, 3, [])
    ensures Bisimilar(g, m, 3, 1) && Label(g[1]) == Label(g[3])
  {
    var w: map<nat, nat> := map[1 := 3, 2 := 4];
    assert ShallowEqualStruct(g[3], g[1]);
    ShapeIsLabel(g[3], g[1]);
    assert Ref(g[1], 0) == 2 && Ref(g[3], 0) == 4 && Ref(g[2], 0) == 1 && Ref(g[4], 0) == 3;
    assert PartnersMatch(g, m, w, 1) && PartnersMatch(g, m, w, 2);
    assert Functional(g, m, w) && Partners(g, m, w, 3, 1);
  }

  lemma {:induction false} HistoryKept(g0: Graph, at: seq<seq<u32>>, m1: seq<u32>, g: Graph, m: seq<u32>)
    requires Before(g0, at, m1, |g0|) && NoTwins(g0, at, m1, |g0|) && EnumsResolved(g0, m1) && OnlyRefs(g0, m1, g, m)
    ensures Before(g0, at, m, |g0|) && NoTwins(g0, at, m, |g0|) && EnumsResolved(g0, m)
  {
    hide Bisimilar;
    forall x, y | 1 <= x < |g0| && 0 <= y < |g0| && y < |at[x]| && Mapped(at[x], y) && !IsFwd(g0[y]) ensures m[y] == at[x][y] {
      assert StructStage(g0, at[x], x);
      if y > 0 { assert StructAt(g0, at[x], y, x); }
      assert m[y] == m[y] && at[x][y] == at[x][y];
    }
    forall c, x | 1 <= c < x < |g0| && Twins(g0, m, c, x) ensures !Bisimilar(g0, at[x], x, c) {
      assert m[c] == m1[c] && m[x] == m1[x];
      assert Twins(g0, m1, c, x);
    }
    forall x, y | 1 <= x < |g0| && 1 <= y < |g0| ensures !Beside(g0, m, x, y) {
      assert !Beside(g0, m1, x, y);
      assert Kind(g0[x]) == KIND_ENUM ==> m[x] == m1[x];
    }
  }

  /** The name and kind of a type outlive deduplication; a forward declaration may become what it stands for. */
  predicate NamedAlike(t: Rec, u: Rec) {
    && u.name == t.name
    && if IsFwd(t) && IsComposite(u) then Kind(u) == (if InfoKflag(t.info) then KIND_UNION else KIND_STRUCT)
       else Kind(u) == Kind(t) && (IsFwd(t) ==> InfoKflag(u.info) == InfoKflag(t.info))
  }

  lemma {:induction false} FinalNamed(g0: Graph, g: Graph, m: seq<u32>, hm: seq<u32>, h: Graph, x: nat)
    requires Remapped(g, m, hm, h) && x < |g| == |g0| && Label(g[x]) == Label(g0[x])
    ensures FinalId(m, hm, x) < |h| && NamedAlike(g0[x], h[FinalId(m, hm, x)])
  {
    var r := Root(m, x);
    RootCanonical(g, m, x);
    RootKind(g, m, x);
    assert RemapAt(g, m, hm, h, r);
    assert Label(g[x]).info == g[x].info && Label(g[x]).name == g[x].name && Label(g0[x]).info == g0[x].info && Label(g0[x]).name == g0[x].name;
    var u := h[hm[r]];
    assert Label(u).info == u.info && Label(u).name == u.name && Label(g[r]).info == g[r].info && Label(g[r]).name == g[r].name;
  }

  /** The whole run: the output `h` under the final ids means what the input `g0` meant. */
  ghost predicate Deduplicated(g0: Graph, m: seq<u32>, hm: seq<u32>, h: Graph) {
    && WFGraph(g0) && WFGraph(h) && |g0| == |m| == |hm| && IsForest(m) && |h| <= |g0|
    && (forall x {:trigger FinalId(m, hm, x)} :: 0 <= x < |g0| ==> m[Root(m, x)] == Root(m, x) && FinalId(m, hm, x) < |h|)
    && (forall x {:trigger FinalId(m, hm, x)} :: 0 <= x < |g0| ==> FinalId(m, hm, x) < |h| && NamedAlike(g0[x], h[FinalId(m, hm, x)]))
    && (forall y {:trigger HasSource(m, hm, y)} :: 0 <= y < |h| ==> HasSource(m, hm, y))
    && (forall c, d :: 0 <= c < d < |m| && m[c] == c && m[d] == d ==> hm[c] < hm[d])
    && OutputDistinct(h)
    && (NoForwards(g0) ==>
          forall x {:trigger FinalId(m, hm, x)} :: 0 <= x < |g0| ==> SameMeaning(h, FinalId(m, hm, x), g0, x))
  }

  lemma {:induction false} RunResult(g0: Graph, g: Graph, m: seq<u32>, hm: seq<u32>, t: Table, h: Graph)
    requires WFGraph(g0) && |g0| == |g| && Inv(g, m, t) && Remapped(g, m, hm, h) && NewIdsDistinct(m, hm)
    requires Renumbered(m, |m|, hm) && |h| == |Survivors(m, |m|)| + 1
    requires NoForwards(g0) ==> SameAll(g0, g) && NoForwards(g)
    requires forall x :: 0 <= x < |g0| ==> Label(g[x]) == Label(g0[x])
    ensures Deduplicated(g0, m, hm, h)
  {
    OutputWF(g, m, hm, h);
    NewIds(m, hm, |h|);
    OutputHasNoDups(g, m, hm, h);
    forall x | 0 <= x < |g0|
      ensures m[Root(m, x)] == Root(m, x) && FinalId(m, hm, x) < |h|
      ensures NoForwards(g0) ==> SameMeaning(h, FinalId(m, hm, x), g0, x)
      ensures NamedAlike(g0[x], h[FinalId(m, hm, x)])
    {
      FinalNamed(g0, g, m, hm, h, x);
      RootCanonical(g, m, x);
      FinalIdInRange(g, m, hm, h, x);
      if NoForwards(g0) {
        assert SameMeaning(g0, x, g, x);
        forall n: nat ensures Unfold(h, FinalId(m, hm, x), n) == Unfold(g0, x, n) { OutputUnfold(g, m, hm, h, x, n); }
      }
    }
  }

  lemma {:induction false} SettledKnown(g: Graph, m: seq<u32>)
    requires Settled(g, m)
    ensures forall x :: 1 <= x < |m| && m[x] == x ==> KnownKind(Kind(g[x]))
  {
    forall x | 1 <= x < |m| && m[x] == x ensures KnownKind(Kind(g[x])) { assert SettledAt(g, m, x); }
  }

  /** Every reference in a compacted record has a new id. */
  lemma {:induction false} RemapFits(g: Graph, m: seq<u32>, hm: seq<u32>, ts: Graph)
    requires Settled(g, m) && WFGraph(g) && |hm| == |m| && Renumbered(m, |m|, hm)
    requires ts == Compacted(g, m, |m|)
    ensures forall x :: 0 <= x < |ts| ==> WF(ts[x])
    ensures forall x, k :: 0 <= x < |ts| && 0 <= k < RefCount(ts[x]) ==>
              Ref(ts[x], k) < |m| && FinalId(m, hm, Ref(ts[x], k)) <= BTF_MAX_NR_TYPES
  {
    NewIds(m, hm, |ts|);
    SurvivorsSorted(m, |m|);
    forall x, k | 0 <= x < |ts| && 0 <= k < RefCount(ts[x])
      ensures Ref(ts[x], k) < |m| && FinalId(m, hm, Ref(ts[x], k)) <= BTF_MAX_NR_TYPES
    {
      RootCanonical(g, m, Ref(ts[x], k));
    }
  }
}
