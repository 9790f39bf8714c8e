/** The parent-pointer map `d->map` of BTF deduplication: an id is unmapped (a sentinel above
    BTF_MAX_NR_TYPES), its own representative, or points towards one. */
module Forest {
  import opened Common
  import opened BtfTypes

  predicate Mapped(m: seq<u32>, x: nat)
    requires x < |m|
  {
    m[x] <= BTF_MAX_NR_TYPES
  }

  predicate IsRoot(m: seq<u32>, x: nat)
    requires x < |m|
  {
    !Mapped(m, x) || m[x] == x
  }

  ghost predicate RankAt(m: seq<u32>, rank: seq<nat>, x: nat)
    requires x < |m| == |rank|
  {
    Mapped(m, x) ==> m[x] < |m| && (m[x] != x ==> rank[m[x]] < rank[x])
  }

  ghost predicate Ranked(m: seq<u32>, rank: seq<nat>) {
    && |rank| == |m|
    && forall x {:trigger RankAt(m, rank, x)} :: 0 <= x < |m| ==> RankAt(m, rank, x)
  }

  /** No chain of parent pointers leaves the map or runs in a circle. */
  ghost predicate IsForest(m: seq<u32>) {
    exists rank: seq<nat> :: Ranked(m, rank)
  }

  ghost function RankOf(m: seq<u32>): (rank: seq<nat>)
    requires IsForest(m)
    ensures Ranked(m, rank)
  {
    var rank: seq<nat> :| Ranked(m, rank);
    rank
  }

  lemma {:induction false} ForestAt(m: seq<u32>, x: nat)
    requires IsForest(m) && x < |m| && Mapped(m, x)
    ensures m[x] < |m| && (m[x] != x ==> RankOf(m)[m[x]] < RankOf(m)[x])
  {
    assert RankAt(m, RankOf(m), x);
  }

  /** The end of the chain that starts at `x`. */
  ghost function Root(m: seq<u32>, x: nat): (r: nat)
    requires IsForest(m) && x < |m|
    ensures r < |m| && IsRoot(m, r)
    decreases RankOf(m)[x]
  {
    if IsRoot(m, x) then x else ForestAt(m, x); Root(m, m[x])
  }

  /** Pointing any id at another root keeps the map a forest. */
  lemma {:induction false} LinkToRoot(m: seq<u32>, a: nat, b: u32)
    requires IsForest(m) && a < |m| && b < |m| && b <= BTF_MAX_NR_TYPES
    requires IsRoot(m, b) && a != b
    ensures IsForest(m[a := b])
  {
    var rank, n := RankOf(m), m[a := b];
    var r2: seq<nat> := seq(|m|, i requires 0 <= i < |m| => if i == b then 0 else rank[i] + 1);
    forall x | 0 <= x < |m| ensures RankAt(n, r2, x) {
      assert RankAt(m, rank, x);
    }
    assert Ranked(n, r2);
  }

  /** Making an id its own representative keeps the map a forest. */
  lemma {:induction false} MakeRoot(m: seq<u32>, a: u32)
    requires IsForest(m) && a < |m|
    ensures IsForest(m[a := a])
  {
    var n := m[a := a];
    forall x | 0 <= x < |m| ensures RankAt(n, RankOf(m), x) {
      assert RankAt(m, RankOf(m), x);
    }
    assert Ranked(n, RankOf(m));
  }

  /** Marking an id as unmapped keeps the map a forest. */
  lemma {:induction false} Unmap(m: seq<u32>, a: nat, v: u32)
    requires IsForest(m) && a < |m| && v > BTF_MAX_NR_TYPES
    ensures IsForest(m[a := v])
  {
    var n := m[a := v];
    forall x | 0 <= x < |m| ensures RankAt(n, RankOf(m), x) {
      assert RankAt(m, RankOf(m), x);
    }
    assert Ranked(n, RankOf(m));
  }

  /** Pointing an id nobody points at anywhere keeps the map a forest. */
  lemma {:induction false} LinkFresh(m: seq<u32>, a: nat, b: u32)
    requires IsForest(m) && a < |m| && b < |m| && b <= BTF_MAX_NR_TYPES && a != b
    requires forall x :: 0 <= x < |m| && x != a ==> m[x] != a
    ensures IsForest(m[a := b])
  {
    var rank, n := RankOf(m), m[a := b];
    var r2 := rank[a := rank[b] + 1];
    forall x | 0 <= x < |m| ensures RankAt(n, r2, x) {
      assert RankAt(m, rank, x);
    }
    assert Ranked(n, r2);
  }

  /** Linking one root to another moves exactly its tree. */
  lemma {:induction false} RootAfterLink(m: seq<u32>, a: nat, b: u32, x: nat)
    requires IsForest(m) && a < |m| && b < |m| && b <= BTF_MAX_NR_TYPES && x < |m|
    requires IsRoot(m, a) && IsRoot(m, b) && a != b && IsForest(m[a := b])
    ensures Root(m[a := b], x) == if Root(m, x) == a then b else Root(m, x)
    decreases RankOf(m)[x]
  {
    var n := m[a := b];
    if x == a {
      assert Root(n, b) == b;
    } else if !IsRoot(m, x) {
      ForestAt(m, x);
      RootAfterLink(m, a, b, m[x]);
    }
  }
}
