/** When the dumper's ordering comes to an end: every cycle of references passes through a struct or union. */
module DumpRank {
  import opened BtfTypes
  import opened DumpGraph
  import opened DumpSpec
  import opened Finite

  /** `p` goes from type to type without meeting a struct or union. */
  ghost predicate PlainPath(g: Graph, p: seq<nat>)
    requires WFGraph(g)
  {
    && p != [] && (forall i :: 0 <= i < |p| ==> p[i] < |g| && !IsComposite(g[p[i]]))
    && forall i {:trigger PlainStep(g, p, i)} :: 0 <= i < |p| - 1 ==> PlainStep(g, p, i)
  }

  ghost predicate PlainStep(g: Graph, p: seq<nat>, i: nat)
    requires WFGraph(g) && i + 1 < |p|
  {
    p[i] < |g| && p[i + 1] in OrderKids(g[p[i]])
  }

  ghost predicate PlainCycle(g: Graph, p: seq<nat>)
    requires WFGraph(g)
  {
    PlainPath(g, p) && |p| > 1 && p[0] == p[|p| - 1]
  }

  ghost predicate PlainTo(g: Graph, x: nat, y: nat)
    requires WFGraph(g)
  {
    exists p: seq<nat> {:trigger PlainPath(g, p)} :: PlainPath(g, p) && |p| > 1 && p[0] == x && p[|p| - 1] == y
  }

  ghost function PlainReach(g: Graph, x: nat): set<nat>
    requires WFGraph(g)
  {
    set y | 0 <= y < |g| && PlainTo(g, x, y)
  }

  lemma {:induction false} PlainKid(g: Graph, x: nat, k: nat)
    requires WFGraph(g) && x < |g| && k < |g| && !IsComposite(g[x]) && !IsComposite(g[k]) && k in OrderKids(g[x])
    ensures PlainTo(g, x, k) && forall y :: PlainTo(g, k, y) ==> PlainTo(g, x, y)
  {
    var e := [x, k];
    assert PlainStep(g, e, 0) && PlainPath(g, e);
    forall y: nat | PlainTo(g, k, y) ensures PlainTo(g, x, y) {
      var p: seq<nat> :| PlainPath(g, p) && |p| > 1 && p[0] == k && p[|p| - 1] == y;
      var q := [x] + p;
      forall i | 0 <= i < |q| - 1 ensures PlainStep(g, q, i) {
        if i > 0 { assert PlainStep(g, p, i - 1); }
      }
      assert PlainPath(g, q);
    }
  }

  lemma {:induction false} RankFrom(g: Graph)
    requires WFGraph(g) && forall p: seq<nat> {:trigger PlainCycle(g, p)} :: !PlainCycle(g, p)
    ensures exists rank: seq<nat> :: RankOk(g, rank)
  {
    hide PlainTo;
    var rank := seq(|g|, x requires 0 <= x < |g| => |PlainReach(g, x)|);
    forall x | 0 <= x < |g| ensures RankAt(g, rank, x) {
      NotToItself(g, x);
      SubsetSize(PlainReach(g, x) + {x}, Below(|g|));
      if !IsComposite(g[x]) {
        forall k | k in OrderKids(g[x]) && k < |g| && !IsComposite(g[k]) ensures rank[k] < rank[x] {
          PlainKid(g, x, k);
          NotToItself(g, k);
          assert PlainReach(g, k) + {k} <= PlainReach(g, x) && k !in PlainReach(g, k);
          SubsetSize(PlainReach(g, k) + {k}, PlainReach(g, x));
        }
      }
    }
    assert RankOk(g, rank);
  }

  lemma {:induction false} NotToItself(g: Graph, x: nat)
    requires WFGraph(g) && forall p: seq<nat> {:trigger PlainCycle(g, p)} :: !PlainCycle(g, p)
    ensures !PlainTo(g, x, x)
  {
    if PlainTo(g, x, x) {
      var p: seq<nat> :| PlainPath(g, p) && |p| > 1 && p[0] == x && p[|p| - 1] == x;
      assert PlainCycle(g, p);
    }
  }

  lemma {:induction false} RankAlong(g: Graph, rank: seq<nat>, p: seq<nat>, n: nat)
    requires WFGraph(g) && RankOk(g, rank) && PlainPath(g, p) && 0 < n < |p|
    ensures rank[p[n]] < rank[p[0]]
    decreases n
  {
    assert PlainStep(g, p, n - 1) && RankAt(g, rank, p[n - 1]);
    if n > 1 { RankAlong(g, rank, p, n - 1); }
  }

  /** The graphs with a rank, on which alone the recursion is known to end, are those where every cycle of references
      passes through a struct or union. */
  lemma {:induction false} RankedExactly(g: Graph)
    requires WFGraph(g)
    ensures (exists rank: seq<nat> :: RankOk(g, rank)) <==> forall p: seq<nat> {:trigger PlainCycle(g, p)} :: !PlainCycle(g, p)
  {
    if forall p: seq<nat> {:trigger PlainCycle(g, p)} :: !PlainCycle(g, p) {
      RankFrom(g);
    } else if rank: seq<nat> :| RankOk(g, rank) {
      var p: seq<nat> :| PlainCycle(g, p);
      RankAlong(g, rank, p, |p| - 1);
    }
  }
}
