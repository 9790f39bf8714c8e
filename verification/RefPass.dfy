/** The reference pass of BTF deduplication, seen from the graph `g1` and map `m1` it starts with:
    a depth-first search over reference kinds that rewrites records as it returns from them. */
module RefPass {
  import opened Common
  import opened BtfTypes
  import opened BtfEqual
  import opened Forest
  import opened Bisim
  import opened DedupInv
  import Finite

  ghost predicate IsRefOf(g: Graph, x: nat, y: nat)
    requires WFGraph(g) && x < |g|
  {
    exists k :: 0 <= k < RefCount(g[x]) && Ref(g[x], k) == y
  }

  /** A chain of reference kinds, each referring to the next. */
  ghost predicate IsRefPath(g: Graph, p: seq<nat>)
    requires WFGraph(g)
  {
    && (forall i {:trigger p[i]} :: 0 <= i < |p| ==> p[i] < |g| && RefKind(Kind(g[p[i]])))
    && (forall i :: 0 <= i < |p| - 1 ==> IsRefOf(g, p[i], p[i + 1]))
  }

  /** Some chain of reference kinds closes on itself. */
  ghost predicate RefCycle(g: Graph)
    requires WFGraph(g)
  {
    exists p: seq<nat> :: |p| >= 2 && IsRefPath(g, p) && p[0] == p[|p| - 1]
  }

  /** The i-th finished type refers, among reference kinds, to types finished before it only. */
  ghost predicate FinishedAt(g: Graph, done: seq<nat>, i: nat)
    requires WFGraph(g) && i < |done|
  {
    && done[i] < |g| && RefKind(Kind(g[done[i]]))
    && forall y: nat :: y < |g| && IsRefOf(g, done[i], y) && RefKind(Kind(g[y])) ==> y in done[..i]
  }

  ghost predicate Finished(g: Graph, done: seq<nat>)
    requires WFGraph(g)
  {
    forall i {:trigger FinishedAt(g, done, i)} :: 0 <= i < |done| ==> FinishedAt(g, done, i)
  }

  /** On a path of finished types, positions in the finishing order strictly decrease. */
  lemma {:induction false} PathDescends(g: Graph, done: seq<nat>, p: seq<nat>, i: nat, j: nat) returns (k: nat)
    requires WFGraph(g) && Finished(g, done) && IsRefPath(g, p)
    requires forall q {:trigger p[q]} :: 0 <= q < |p| ==> p[q] in done
    requires 0 < i < |p| && j < |done| && done[j] == p[0]
    ensures k < j && done[k] == p[i]
    decreases i
  {
    var j' := j;
    if i > 1 { j' := PathDescends(g, done, p, i - 1, j); }
    assert FinishedAt(g, done, j') && IsRefOf(g, p[i - 1], p[i - 1 + 1]);
    assert p[i] in done[..j'];
    k :| 0 <= k < j' && done[k] == p[i];
  }

  ghost predicate IsFirst(done: seq<nat>, x: nat, j: nat) {
    j < |done| && done[j] == x && forall k :: 0 <= k < j ==> done[k] != x
  }

  lemma {:induction false} FirstOf(done: seq<nat>, x: nat, n: nat) returns (j: nat)
    requires n < |done| && done[n] == x
    ensures IsFirst(done, x, j)
    decreases n
  {
    if k :| 0 <= k < n && done[k] == x { j := FirstOf(done, x, k); } else { j := n; }
  }

  /** When every reference kind has finished, no chain of them is closed. */
  lemma {:induction false} AllFinishedNoCycle(g: Graph, done: seq<nat>)
    requires WFGraph(g) && Finished(g, done)
    requires forall x :: 0 <= x < |g| && RefKind(Kind(g[x])) ==> x in done
    ensures !RefCycle(g)
  {
    if RefCycle(g) {
      var p: seq<nat> :| |p| >= 2 && IsRefPath(g, p) && p[0] == p[|p| - 1];
      var n :| 0 <= n < |done| && done[n] == p[0];
      var j := FirstOf(done, p[0], n);
      var k := PathDescends(g, done, p, |p| - 1, j);
      assert false;
    }
  }

  /** Meeting a type that is still being processed closes a chain. */
  lemma {:induction false} StackClosesCycle(g: Graph, stack: seq<nat>, x: nat)
    requires WFGraph(g) && IsRefPath(g, stack) && x in stack && IsRefOf(g, stack[|stack| - 1], x)
    ensures RefCycle(g)
  {
    var i :| 0 <= i < |stack| && stack[i] == x;
    var p := stack[i..] + [x];
    forall q | 0 <= q < |p| - 1 ensures IsRefOf(g, p[q], p[q + 1]) {
      if q + 1 < |p| - 1 { assert IsRefOf(g, stack[i + q], stack[i + q + 1]); }
    }
    assert IsRefPath(g, p);
  }

  ghost predicate SameAll(g: Graph, h: Graph) {
    && WFGraph(g) && WFGraph(h) && |g| == |h|
    && forall x {:trigger SameMeaning(g, x, h, x)} :: 0 <= x < |g| ==> SameMeaning(g, x, h, x)
  }

  /** All references of a record lead to canonical types. */
  ghost predicate RefsCanonical(t: Rec, m: seq<u32>) {
    WF(t) && forall k :: 0 <= k < RefCount(t) ==> Ref(t, k) < |m| && m[Ref(t, k)] == Ref(t, k)
  }

  /** How far the pass has got with id `x`. */
  ghost predicate RefAt(g1: Graph, m1: seq<u32>, g: Graph, m: seq<u32>, stack: seq<nat>, done: seq<nat>, x: nat)
    requires |g1| == |m1| == |g| == |m| && x < |g|
  {
    && Label(g[x]) == Label(g1[x])
    && if !RefKind(Kind(g1[x])) then
         g[x] == g1[x] && m[x] == m1[x] && Mapped(m, x) && x !in stack && x !in done
       else
         || (m[x] == UNPROCESSED && x !in stack && x !in done && g[x] == g1[x])
         || (m[x] == IN_PROGRESS && x in stack && x !in done)
         || (Mapped(m, x) && x !in stack && x in done && RefsCanonical(g[x], m))
  }

  ghost predicate RefStage(g1: Graph, m1: seq<u32>, g: Graph, m: seq<u32>, stack: seq<nat>, done: seq<nat>) {
    && WFGraph(g1) && |g1| == |m1| == |g| == |m|
    && IsRefPath(g1, stack) && Finished(g1, done)
    && (forall x {:trigger RefAt(g1, m1, g, m, stack, done, x)} :: 0 <= x < |g| ==> RefAt(g1, m1, g, m, stack, done, x))
    && (NoForwards(g1) ==> SameAll(g1, g))
  }

  /** The reference pass changes nothing of a record but its references, and maps reference types only. */
  ghost predicate OnlyRefs(g1: Graph, m1: seq<u32>, g: Graph, m: seq<u32>) {
    && |g1| == |m1| == |g| == |m|
    && forall x {:trigger g[x]} {:trigger m[x]} :: 0 <= x < |g| ==> Label(g[x]) == Label(g1[x]) && (!RefKind(Kind(g1[x])) ==> m[x] == m1[x])
  }

  lemma {:induction false} StageOnlyRefs(g1: Graph, m1: seq<u32>, g: Graph, m: seq<u32>, stack: seq<nat>, done: seq<nat>)
    requires RefStage(g1, m1, g, m, stack, done)
    ensures OnlyRefs(g1, m1, g, m)
  {
    forall x | 0 <= x < |g| ensures Label(g[x]) == Label(g1[x]) && (!RefKind(Kind(g1[x])) ==> m[x] == m1[x]) {
      assert RefAt(g1, m1, g, m, stack, done, x);
    }
  }

  /** Types already dealt with, or being dealt with, are left alone. */
  ghost predicate Later(g: Graph, m: seq<u32>, g2: Graph, m2: seq<u32>) {
    && |g| == |m| == |g2| == |m2|
    && forall x {:trigger m2[x]} {:trigger g2[x]} :: 0 <= x < |g| && m[x] != UNPROCESSED ==> m2[x] == m[x] && g2[x] == g[x]
  }

  ghost function Unprocessed(m: seq<u32>): set<nat> { set x: nat | x < |m| && m[x] == UNPROCESSED }

  /** As `Later`, but the record of `a`, which is in progress, may have been rewritten. */
  ghost predicate LaterBut(g: Graph, m: seq<u32>, g2: Graph, m2: seq<u32>, a: nat) {
    && |g| == |m| == |g2| == |m2|
    && forall x {:trigger m2[x]} {:trigger g2[x]} :: 0 <= x < |g| && m[x] != UNPROCESSED ==>
         m2[x] == m[x] && (x != a ==> g2[x] == g[x])
  }

  lemma {:induction false} LaterStep(g0: Graph, m0: seq<u32>, g1: Graph, m1: seq<u32>, g2: Graph, m2: seq<u32>,
                                     g3: Graph, a: nat)
    requires LaterBut(g0, m0, g1, m1, a) && Later(g1, m1, g2, m2) && a < |g0| && |g3| == |g2|
    requires forall x :: 0 <= x < |g3| && x != a ==> g3[x] == g2[x]
    ensures LaterBut(g0, m0, g3, m2, a)
  {
    forall x | 0 <= x < |g0| && m0[x] != UNPROCESSED ensures m2[x] == m0[x] && (x != a ==> g3[x] == g0[x]) {
      assert m1[x] == m0[x];
    }
  }

  /** The first `i` references of `a` are canonical, the others still the original ones. */
  ghost predicate KidsLeft(g1: Graph, g: Graph, m: seq<u32>, a: nat, i: nat)
    requires WFGraph(g1) && WFGraph(g) && |m| == |g| == |g1| && a < |g|
  {
    && g[a].info == g1[a].info
    && (forall j :: 0 <= j < i && j < RefCount(g[a]) ==> m[Ref(g[a], j)] == Ref(g[a], j))
    && (forall j :: i <= j < RefCount(g1[a]) ==> Ref(g[a], j) == Ref(g1[a], j))
  }

  lemma {:induction false} KidsLeftLater(g1: Graph, g: Graph, m: seq<u32>, g2: Graph, m2: seq<u32>, a: nat, i: nat)
    requires WFGraph(g1) && WFGraph(g) && WFGraph(g2) && |m| == |g| == |g1| == |g2| && a < |g|
    requires KidsLeft(g1, g, m, a, i) && Later(g, m, g2, m2) && m[a] != UNPROCESSED
    ensures g2[a] == g[a] && KidsLeft(g1, g2, m2, a, i)
  {
    forall j | 0 <= j < i && j < RefCount(g[a]) ensures m2[Ref(g[a], j)] == Ref(g[a], j) {
      assert m[Ref(g[a], j)] == Ref(g[a], j);
    }
  }

  lemma {:induction false} RootMapped(m: seq<u32>, x: nat)
    requires IsForest(m) && x < |m| && Mapped(m, x) && MapClosed(m)
    ensures Mapped(m, Root(m, x)) && m[Root(m, x)] == Root(m, x)
    decreases RankOf(m)[x]
  {
    assert ClosedId(m, x);
    if !IsRoot(m, x) {
      ForestAt(m, x);
      RootMapped(m, m[x]);
    }
  }

  lemma {:induction false} LaterShrinks(m: seq<u32>, m2: seq<u32>)
    requires |m| == |m2|
    requires forall x :: 0 <= x < |m| && m[x] != UNPROCESSED ==> m2[x] == m[x]
    ensures Unprocessed(m2) <= Unprocessed(m) && |Unprocessed(m2)| <= |Unprocessed(m)|
  {
    Finite.SubsetSize(Unprocessed(m2), Unprocessed(m));
  }

  /** Marking a type as in progress. */
  lemma {:induction false} InvMark(g: Graph, m: seq<u32>, t: Table, a: nat)
    requires Inv(g, m, t) && 1 <= a < |g| && m[a] == UNPROCESSED && MapClosed(m)
    ensures Inv(g, m[a := IN_PROGRESS], t) && MapClosed(m[a := IN_PROGRESS])
  {
    var n := m[a := IN_PROGRESS];
    Unmap(m, a, IN_PROGRESS);
    forall x | 0 <= x < |g| ensures KindAt(g, n, x) && ClosedId(n, x) && (NoForwards(g) ==> SoundAt(g, n, x)) {
      assert KindAt(g, m, x) && ClosedId(m, x);
      assert NoForwards(g) ==> SoundAt(g, m, x);
    }
    forall h, x | x in Cands(t, h) ensures EntryOk(g, n, h, x) { assert EntryOk(g, m, h, x); }
    forall x | 1 <= x < |g| && EqCanonical(g, n, x) ensures EqCanonical(g, m, x) {}
  }

  lemma {:induction false} StageMark(g1: Graph, m1: seq<u32>, g: Graph, m: seq<u32>, stack: seq<nat>, done: seq<nat>, a: nat)
    requires RefStage(g1, m1, g, m, stack, done) && a < |g| && m[a] == UNPROCESSED
    requires |stack| > 0 ==> IsRefOf(g1, stack[|stack| - 1], a)
    ensures RefKind(Kind(g1[a])) && g[a] == g1[a]
    ensures RefStage(g1, m1, g, m[a := IN_PROGRESS], stack + [a], done)
    ensures |Unprocessed(m[a := IN_PROGRESS])| < |Unprocessed(m)|
  {
    var n, s2 := m[a := IN_PROGRESS], stack + [a];
    assert RefAt(g1, m1, g, m, stack, done, a);
    forall x | 0 <= x < |g| ensures RefAt(g1, m1, g, n, s2, done, x) {
      assert RefAt(g1, m1, g, m, stack, done, x);
    }
    assert a in Unprocessed(m);
    Finite.SubsetSize(Unprocessed(n), Unprocessed(m) - {a});
  }

  /** Overwriting a reference with one of the same meaning. */
  lemma {:induction false} PutSameMeaning(g: Graph, a: nat, i: nat, v: u32)
    requires WFGraph(g) && a < |g| && i < RefCount(g[a]) && v < |g|
    requires SameMeaning(g, Ref(g[a], i), g, v)
    ensures WFGraph(g[a := SetRef(g[a], i, v)])
    ensures SameAll(g, g[a := SetRef(g[a], i, v)])
  {
    var h := g[a := SetRef(g[a], i, v)];
    PutWF(g, a, i, v);
    forall y | 0 <= y < |g| ensures SameUpToRefs(g, h, y) {
      if y == a { SetRefFacts(g[a], i, v); }
    }
    forall x | 0 <= x < |g| ensures SameMeaning(g, x, h, x) {
      forall n: nat ensures Unfold(g, x, n) == Unfold(h, x, n) { RedirectKeepsMeaning(g, h, x, n); }
    }
  }

  lemma {:induction false} PutWF(g: Graph, a: nat, i: nat, v: u32)
    requires WFGraph(g) && a < |g| && i < RefCount(g[a]) && v < |g|
    ensures var h := g[a := SetRef(g[a], i, v)];
            && WFGraph(h) && Kind(h[a]) == Kind(g[a]) && Vlen(h[a]) == Vlen(g[a]) && Label(h[a]) == Label(g[a])
  {
    SetRefFacts(g[a], i, v);
    var h := g[a := SetRef(g[a], i, v)];
    forall x | 0 <= x < |h| ensures WF(h[x]) && RefsInRange(h[x], |h|) {
      if x == a {
        forall j | 0 <= j < RefCount(h[a]) ensures Ref(h[a], j) < |h| { if j != i { assert Ref(h[a], j) == Ref(g[a], j); } }
      }
    }
  }

  lemma {:induction false} SameAllTrans(g: Graph, h: Graph, k: Graph)
    requires SameAll(g, h) && SameAll(h, k)
    ensures SameAll(g, k)
  {
    forall x | 0 <= x < |g| ensures SameMeaning(g, x, k, x) {
      assert SameMeaning(g, x, h, x) && SameMeaning(h, x, k, x);
    }
  }

  /** Rewriting a reference of a type in progress keeps the invariant. */
  lemma {:induction false} InvPut(g: Graph, m: seq<u32>, t: Table, a: nat, i: nat, v: u32)
    requires Inv(g, m, t) && 1 <= a < |g| && !Mapped(m, a) && i < RefCount(g[a]) && v < |g|
    requires NoForwards(g) ==> SameMeaning(g, Ref(g[a], i), g, v)
    ensures Inv(g[a := SetRef(g[a], i, v)], m, t)
    ensures NoForwards(g) <==> NoForwards(g[a := SetRef(g[a], i, v)])
  {
    var h := g[a := SetRef(g[a], i, v)];
    PutWF(g, a, i, v);
    assert NoForwards(g) <==> NoForwards(h) by {
      if NoForwards(g) { forall x | 0 <= x < |h| ensures !IsFwd(h[x]) && !IsEnumFwd(h[x]) { assert !IsFwd(g[x]); } }
      if NoForwards(h) { forall x | 0 <= x < |g| ensures !IsFwd(g[x]) && !IsEnumFwd(g[x]) { assert !IsFwd(h[x]); } }
    }
    if NoForwards(g) { PutSameMeaning(g, a, i, v); }
    forall x | 0 <= x < |g| ensures KindAt(h, m, x) && (NoForwards(h) ==> SoundAt(h, m, x)) {
      assert KindAt(g, m, x);
      if NoForwards(g) && Mapped(m, x) {
        assert SoundAt(g, m, x);
        assert SameMeaning(g, x, h, x) && SameMeaning(g, m[x], h, m[x]);
        forall n: nat ensures Unfold(h, x, n) == Unfold(h, m[x], n) {}
      }
    }
    UnmappedUnlisted(g, m, t, a);
    forall k, x | x in Cands(t, k) ensures EntryOk(h, m, k, x) { assert EntryOk(g, m, k, x); }
    forall x | 1 <= x < |g| && EqCanonical(h, m, x) ensures EqCanonical(g, m, x) && h[x] == g[x] {}
  }

  lemma {:induction false} StagePut(g1: Graph, m1: seq<u32>, g: Graph, m: seq<u32>, stack: seq<nat>, done: seq<nat>,
                                    a: nat, i: nat, v: u32)
    requires RefStage(g1, m1, g, m, stack, done) && WFGraph(g) && a < |g| && m[a] == IN_PROGRESS
    requires i < RefCount(g[a]) && v < |g| && (NoForwards(g1) ==> SameMeaning(g, Ref(g[a], i), g, v))
    ensures RefStage(g1, m1, g[a := SetRef(g[a], i, v)], m, stack, done)
  {
    var h := g[a := SetRef(g[a], i, v)];
    PutWF(g, a, i, v);
    forall x | 0 <= x < |g| ensures RefAt(g1, m1, h, m, stack, done, x) {
      assert RefAt(g1, m1, g, m, stack, done, x);
    }
    if NoForwards(g1) {
      PutSameMeaning(g, a, i, v);
      SameAllTrans(g1, g, h);
    }
  }

  /** All references of the type on top of the stack have been dealt with: it is finished. */
  lemma {:induction false} StageFinish(g1: Graph, m1: seq<u32>, g: Graph, m: seq<u32>, stack: seq<nat>, done: seq<nat>,
                                       a: nat, v: u32)
    requires RefStage(g1, m1, g, m, stack + [a], done) && a < |g| && m[a] == IN_PROGRESS && a !in stack
    requires v <= BTF_MAX_NR_TYPES && KidsFinished(g1, a, done, RefCount(g1[a])) && RefsCanonical(g[a], m)
    ensures RefStage(g1, m1, g, m[a := v], stack, done + [a])
  {
    var n, d2 := m[a := v], done + [a];
    assert (stack + [a])[|stack|] == a;
    forall x | 0 <= x < |g| ensures RefAt(g1, m1, g, n, stack, d2, x) {
      assert RefAt(g1, m1, g, m, stack + [a], done, x);
    }
    assert IsRefPath(g1, stack) by {
      forall i | 0 <= i < |stack| ensures stack[i] < |g1| && RefKind(Kind(g1[stack[i]])) { assert (stack + [a])[i] == stack[i]; }
      forall i | 0 <= i < |stack| - 1 ensures IsRefOf(g1, stack[i], stack[i + 1]) {
        assert IsRefOf(g1, (stack + [a])[i], (stack + [a])[i + 1]);
      }
    }
    forall i | 0 <= i < |d2| ensures FinishedAt(g1, d2, i) {
      if i < |done| {
        assert FinishedAt(g1, done, i);
        assert d2[..i] == done[..i];
      } else {
        assert d2[..i] == done;
      }
    }
  }

  /** A finished reference type that equals a candidate, or none. */
  lemma {:induction false} InvFinish(g: Graph, m: seq<u32>, t: Table, a: u32, r: u32)
    requires Inv(g, m, t) && MapClosed(m) && 1 <= a < |g| && !Mapped(m, a) && RefKind(Kind(g[a]))
    requires Searched(g, t, a, r) && r < |g| && (r != a ==> g[r] == g[a])
    ensures if r == a then Inv(g, m[a := a], Added(t, Hash(g[a]), a)) else Inv(g, m[a := r], t)
    ensures MapClosed(m[a := r]) && Root(m[a := r], a) == r
  {
    var n := m[a := r];
    if r == a {
      InvSelf(g, m, t, a);
    } else {
      assert EntryOk(g, m, Hash(g[a]), r);
      LinkToRoot(m, a, r);
      UnmappedUnlisted(g, m, t, a);
      forall k: nat ensures Unfold(g, a, k) == Unfold(g, r, k) { SameRecordSameMeaning(g, a, r, k); }
      InvLink(g, m, t, a, r);
      assert Root(n, r) == r;
    }
    forall x | 0 <= x < |m| ensures ClosedId(n, x) { assert ClosedId(m, x); }
  }

  /** Writing the result of a recursive call back into the record in progress. */
  lemma {:induction false} RefPut(g1: Graph, m1: seq<u32>, g: Graph, m: seq<u32>, t: Table, stack: seq<nat>, done: seq<nat>,
                                  a: nat, i: nat, v: u32)
    requires Inv(g, m, t) && RefStage(g1, m1, g, m, stack, done) && 1 <= a < |g| && m[a] == IN_PROGRESS
    requires i < RefCount(g[a]) && Root(m, Ref(g[a], i)) == v && v < |g| && m[v] == v
    requires KidsLeft(g1, g, m, a, i)
    ensures var h := g[a := SetRef(g[a], i, v)];
            Inv(h, m, t) && RefStage(g1, m1, h, m, stack, done) && KidsLeft(g1, h, m, a, i + 1)
  {
    PutWF(g, a, i, v);
    SetRefFacts(g[a], i, v);
    StageNoForwards(g1, m1, g, m, stack, done);
    if NoForwards(g) { RootSound(g, m, Ref(g[a], i)); }
    InvPut(g, m, t, a, i, v);
    StagePut(g1, m1, g, m, stack, done, a, i, v);
  }

  /** The first `i` references of `a` are finished, if they are reference kinds. */
  ghost predicate KidsFinished(g1: Graph, a: nat, done: seq<nat>, i: nat)
    requires WFGraph(g1) && a < |g1|
  {
    forall j {:trigger Ref(g1[a], j)} :: 0 <= j < i && j < RefCount(g1[a]) && RefKind(Kind(g1[Ref(g1[a], j)])) ==>
                                           Ref(g1[a], j) in done
  }

  lemma {:induction false} KidsFinishedStep(g1: Graph, a: nat, done: seq<nat>, done2: seq<nat>, i: nat)
    requires WFGraph(g1) && a < |g1| && i < RefCount(g1[a]) && KidsFinished(g1, a, done, i) && done <= done2
    requires RefKind(Kind(g1[Ref(g1[a], i)])) ==> Ref(g1[a], i) in done2
    ensures KidsFinished(g1, a, done2, i + 1)
  {
    forall j | 0 <= j < i + 1 && j < RefCount(g1[a]) && RefKind(Kind(g1[Ref(g1[a], j)])) ensures Ref(g1[a], j) in done2 {
      if j < i { assert Ref(g1[a], j) in done; }
    }
  }

  lemma {:induction false} KidsLeftNone(g1: Graph, g: Graph, m: seq<u32>, a: nat)
    requires WFGraph(g1) && WFGraph(g) && |m| == |g| == |g1| && a < |g|
    requires KidsLeft(g1, g, m, a, RefCount(g1[a]))
    ensures RefsCanonical(g[a], m)
  {
  }

  lemma {:induction false} LaterButTrans(g0: Graph, m0: seq<u32>, g1: Graph, m1: seq<u32>, g2: Graph, m2: seq<u32>, a: nat)
    requires LaterBut(g0, m0, g1, m1, a) && LaterBut(g1, m1, g2, m2, a)
    ensures LaterBut(g0, m0, g2, m2, a)
  {
    forall x | 0 <= x < |g0| && m0[x] != UNPROCESSED ensures m2[x] == m0[x] && (x != a ==> g2[x] == g0[x]) {
      assert m1[x] == m0[x];
    }
  }

  lemma {:induction false} LaterFinish(g0: Graph, m0: seq<u32>, g: Graph, m: seq<u32>, a: nat, v: u32)
    requires a < |m0| && m0[a] == UNPROCESSED && LaterBut(g0, m0[a := IN_PROGRESS], g, m, a) && |m0| == |g0|
    ensures Later(g0, m0, g, m[a := v])
  {
    forall x | 0 <= x < |g0| && m0[x] != UNPROCESSED ensures m[a := v][x] == m0[x] && g[x] == g0[x] {
      assert m0[a := IN_PROGRESS][x] == m0[x];
    }
  }

  lemma {:induction false} StageKind(g1: Graph, m1: seq<u32>, g: Graph, m: seq<u32>, stack: seq<nat>, done: seq<nat>, a: nat)
    requires RefStage(g1, m1, g, m, stack + [a], done) && a < |g| && m[a] == IN_PROGRESS
    ensures RefKind(Kind(g[a])) && RefKind(Kind(g1[a]))
  {
    assert RefAt(g1, m1, g, m, stack + [a], done, a);
    assert Label(g[a]).info == Label(g1[a]).info;
  }

  lemma {:induction false} StageNoForwards(g1: Graph, m1: seq<u32>, g: Graph, m: seq<u32>, stack: seq<nat>, done: seq<nat>)
    requires RefStage(g1, m1, g, m, stack, done)
    ensures NoForwards(g1) ==> NoForwards(g)
  {
    forall x | 0 <= x < |g| ensures g[x].info == g1[x].info {
      assert RefAt(g1, m1, g, m, stack, done, x);
      assert Label(g[x]).info == Label(g1[x]).info;
    }
    if NoForwards(g1) {
      forall x | 0 <= x < |g| ensures !IsFwd(g[x]) && !IsEnumFwd(g[x]) { assert !IsFwd(g1[x]); }
    }
  }
}
