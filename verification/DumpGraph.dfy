/** What the C dumper's topological ordering is about: which types a type needs by value, what the order of
    emission promises, and why the promise outlives every step. */
module DumpGraph {
  import opened BtfTypes

  datatype OState = NotOrdered | Ordering | Ordered

  predicate IsModifier(k: nat) {
    k == KIND_VOLATILE || k == KIND_CONST || k == KIND_RESTRICT || k == KIND_TYPE_TAG
  }

  function Refs(t: Rec): seq<nat>
    requires WF(t)
  {
    seq(RefCount(t), i requires 0 <= i < RefCount(t) => Ref(t, i))
  }

  /** The types `btf_dump_order_type` goes on to. An array's index type is not among them. */
  function OrderKids(t: Rec): seq<nat>
    requires WF(t)
  {
    var k := Kind(t);
    if k == KIND_ARRAY then [Ref(t, 0)]
    else if k == KIND_PTR || k == KIND_TYPEDEF || IsModifier(k) || IsComposite(t) || k == KIND_FUNC_PROTO then Refs(t)
    else []
  }

  /** The types that have to be complete where `t` is defined. */
  function ValueKids(t: Rec): seq<nat>
    requires WF(t)
  {
    if Kind(t) == KIND_PTR || Kind(t) == KIND_FUNC_PROTO then [] else OrderKids(t)
  }

  /** Whether ordering a type puts it on the queue. */
  predicate MustQueue(t: Rec, referenced: bool) {
    || (IsComposite(t) && t.name != 0)
    || ((Kind(t) == KIND_ENUM || Kind(t) == KIND_FWD) && (t.name != 0 || !referenced))
    || Kind(t) == KIND_TYPEDEF
  }

  /** The kinds whose order state is ever set. */
  predicate Tracked(t: Rec) {
    Kind(t) != KIND_ARRAY && !IsModifier(Kind(t)) && Kind(t) != KIND_FUNC_PROTO
  }

  /** The history of a dumper: the types whose by-value needs are all met, in the order that happened; how
      long the queue was then; and everything ever queued. */
  datatype History = History(fin: seq<nat>, mark: seq<nat>, queue: seq<nat>)

  ghost predicate Among(s: seq<nat>, n: int, x: nat) {
    exists j :: 0 <= j < n && j < |s| && s[j] == x
  }

  /** Entry `i` of the history needed nothing that is not earlier in it. */
  ghost predicate FinAt(g: Graph, h: History, i: nat)
    requires WFGraph(g) && i < |h.fin|
  {
    h.fin[i] < |g| && !Among(h.fin, i, h.fin[i]) && forall k :: k in ValueKids(g[h.fin[i]]) ==> Among(h.fin, i, k)
  }

  /** If it is to be queued, entry `i` was by then; a named composite was just then, after what came earlier. */
  ghost predicate MarkAt(g: Graph, referenced: seq<bool>, h: History, i: nat)
    requires i < |h.fin| == |h.mark| && h.fin[i] < |g| == |referenced|
  {
    var t := g[h.fin[i]];
    && h.mark[i] <= |h.queue|
    && (MustQueue(t, referenced[h.fin[i]]) ==> Among(h.queue, h.mark[i], h.fin[i]))
    && (forall j :: 0 <= j < i ==> h.mark[j] <= h.mark[i])
    && (IsComposite(t) && t.name != 0 ==>
          h.mark[i] > 0 && h.queue[h.mark[i] - 1] == h.fin[i] && forall j :: 0 <= j < i ==> h.mark[j] < h.mark[i])
  }

  /** Queue entry `q` is in the history, and is the only one of its type unless that is a typedef. */
  ghost predicate QueueAt(g: Graph, h: History, q: nat)
    requires q < |h.queue|
  {
    && h.queue[q] < |g| && Among(h.fin, |h.fin|, h.queue[q])
    && (Kind(g[h.queue[q]]) != KIND_TYPEDEF ==> !Among(h.queue, q, h.queue[q]))
  }

  ghost predicate StateAt(g: Graph, st: seq<OState>, h: History, x: nat)
    requires x < |g| == |st|
  {
    && (st[x] == Ordered ==> Among(h.fin, |h.fin|, x))
    && (Tracked(g[x]) && Among(h.fin, |h.fin|, x) ==> st[x] == Ordered)
    && (st[x] == Ordering ==> IsComposite(g[x]))
  }

  ghost predicate Inv(g: Graph, referenced: seq<bool>, st: seq<OState>, h: History)
    requires WFGraph(g)
  {
    && |referenced| == |st| == |g| && |h.mark| == |h.fin|
    && (forall i {:trigger FinAt(g, h, i)} :: 0 <= i < |h.fin| ==> FinAt(g, h, i))
    && (forall i {:trigger MarkAt(g, referenced, h, i)} :: 0 <= i < |h.fin| ==> FinAt(g, h, i) && MarkAt(g, referenced, h, i))
    && (forall q {:trigger QueueAt(g, h, q)} :: 0 <= q < |h.queue| ==> QueueAt(g, h, q))
    && (forall x {:trigger StateAt(g, st, h, x)} :: 0 <= x < |g| ==> StateAt(g, st, h, x))
  }

  predicate Settled(h: History, x: nat) {
    x in h.fin
  }

  lemma {:induction false} SettledAmong(h: History, x: nat)
    ensures Settled(h, x) <==> Among(h.fin, |h.fin|, x)
  {
  }

  /** The next history: `x` is settled, and queued if `q`. */
  function Settle(h: History, x: nat, q: bool): History {
    var queue := if q then h.queue + [x] else h.queue;
    History(h.fin + [x], h.mark + [|queue|], queue)
  }

  lemma {:induction false} AmongAppend(s: seq<nat>, y: nat, n: int, x: nat)
    requires n <= |s|
    ensures Among(s + [y], n, x) <==> Among(s, n, x)
    ensures Among(s + [y], |s| + 1, x) <==> Among(s, |s|, x) || x == y
  {
    assert forall j :: 0 <= j < |s| ==> (s + [y])[j] == s[j];
    if x == y { assert (s + [y])[|s|] == y; }
  }

  lemma {:induction false} AmongMore(s: seq<nat>, n: int, m: int, x: nat)
    requires n <= m && Among(s, n, x)
    ensures Among(s, m, x)
  {
  }

  lemma {:induction false} SettleFin(g: Graph, referenced: seq<bool>, st: seq<OState>, h: History, x: nat, q: bool, i: nat)
    requires WFGraph(g) && Inv(g, referenced, st, h) && x < |g| && !Settled(h, x) && i <= |h.fin|
    requires forall k :: k in ValueKids(g[x]) ==> Settled(h, k)
    ensures FinAt(g, Settle(h, x, q), i)
  {
    var h2 := Settle(h, x, q);
    AmongAppend(h.fin, x, i, h2.fin[i]);
    if i < |h.fin| {
      assert FinAt(g, h, i);
      forall k | k in ValueKids(g[h.fin[i]]) ensures Among(h2.fin, i, k) { AmongAppend(h.fin, x, i, k); }
    } else {
      SettledAmong(h, x);
      forall k | k in ValueKids(g[x]) ensures Among(h2.fin, i, k) { AmongAppend(h.fin, x, i, k); SettledAmong(h, k); }
    }
  }

  lemma {:induction false} SettleMark(g: Graph, referenced: seq<bool>, st: seq<OState>, h: History, x: nat, q: bool, i: nat)
    requires WFGraph(g) && Inv(g, referenced, st, h) && x < |g| && i <= |h.fin| && (MustQueue(g[x], referenced[x]) ==> q)
    requires i < |h.fin| ==> FinAt(g, h, i)
    ensures MarkAt(g, referenced, Settle(h, x, q), i)
  {
    var h2 := Settle(h, x, q);
    if i < |h.fin| {
      assert MarkAt(g, referenced, h, i);
      if q { AmongAppend(h.queue, x, h.mark[i], h.fin[i]); }
    } else {
      if q { AmongAppend(h.queue, x, |h.queue|, x); }
      forall j | 0 <= j < i ensures h2.mark[j] <= |h.queue| { assert FinAt(g, h, j) && MarkAt(g, referenced, h, j); }
    }
  }

  lemma {:induction false} SettleQueue(g: Graph, referenced: seq<bool>, st: seq<OState>, h: History, x: nat, q: bool, p: nat)
    requires WFGraph(g) && Inv(g, referenced, st, h) && x < |g| && !Settled(h, x) && p < |Settle(h, x, q).queue|
    ensures QueueAt(g, Settle(h, x, q), p)
  {
    var h2 := Settle(h, x, q);
    AmongAppend(h.fin, x, |h.fin|, h2.queue[p]);
    if p < |h.queue| {
      assert QueueAt(g, h, p);
      if q { AmongAppend(h.queue, x, p, h.queue[p]); }
    } else {
      AmongAppend(h.queue, x, p, x);
      if Among(h.queue, p, x) {
        var j :| 0 <= j < p && h.queue[j] == x;
        assert QueueAt(g, h, j);
        SettledAmong(h, x);
      }
    }
  }

  /** Settling a type whose by-value needs are settled keeps the promise. */
  lemma {:induction false} InvSettle(g: Graph, referenced: seq<bool>, st: seq<OState>, st2: seq<OState>, h: History, x: nat, q: bool)
    requires WFGraph(g) && Inv(g, referenced, st, h) && x < |g| && !Settled(h, x) && (MustQueue(g[x], referenced[x]) ==> q)
    requires forall k :: k in ValueKids(g[x]) ==> Settled(h, k)
    requires st2 == st[x := Ordered] || (!Tracked(g[x]) && st2 == st)
    ensures Inv(g, referenced, st2, Settle(h, x, q)) && Settled(Settle(h, x, q), x) && h.fin <= Settle(h, x, q).fin
  {
    var h2 := Settle(h, x, q);
    forall i | 0 <= i < |h2.fin| ensures FinAt(g, h2, i) { SettleFin(g, referenced, st, h, x, q, i); }
    forall i | 0 <= i < |h2.fin| ensures FinAt(g, h2, i) && MarkAt(g, referenced, h2, i) {
      if i < |h.fin| { assert FinAt(g, h, i); }
      SettleFin(g, referenced, st, h, x, q, i);
      SettleMark(g, referenced, st, h, x, q, i);
    }
    forall p | 0 <= p < |h2.queue| ensures QueueAt(g, h2, p) { SettleQueue(g, referenced, st, h, x, q, p); }
    forall y | 0 <= y < |g| ensures StateAt(g, st2, h2, y) {
      assert StateAt(g, st, h, y);
      AmongAppend(h.fin, x, |h.fin|, y);
    }
  }

  /** A typedef that is settled already may be queued again. */
  lemma {:induction false} InvRequeue(g: Graph, referenced: seq<bool>, st: seq<OState>, h: History, x: nat)
    requires WFGraph(g) && Inv(g, referenced, st, h) && x < |g| && Settled(h, x) && Kind(g[x]) == KIND_TYPEDEF
    ensures Inv(g, referenced, st[x := Ordered], h.(queue := h.queue + [x]))
  {
    var h2 := h.(queue := h.queue + [x]);
    forall i | 0 <= i < |h.fin| ensures FinAt(g, h2, i) { assert FinAt(g, h, i); }
    forall i | 0 <= i < |h.fin| ensures FinAt(g, h2, i) && MarkAt(g, referenced, h2, i) {
      assert FinAt(g, h, i) && MarkAt(g, referenced, h, i);
      AmongAppend(h.queue, x, h.mark[i], h.fin[i]);
    }
    forall p | 0 <= p < |h2.queue| ensures QueueAt(g, h2, p) {
      SettledAmong(h, x);
      if p < |h.queue| {
        assert QueueAt(g, h, p);
        AmongAppend(h.queue, x, p, h.queue[p]);
      }
    }
    var st2 := st[x := Ordered];
    forall y | 0 <= y < |g| ensures StateAt(g, st2, h2, y) {
      assert StateAt(g, st, h, y);
      SettledAmong(h, x);
    }
  }

  /** Marking a settled type, or starting on a composite, changes nothing else. */
  lemma {:induction false} InvMark(g: Graph, referenced: seq<bool>, st: seq<OState>, h: History, x: nat, s: OState)
    requires WFGraph(g) && Inv(g, referenced, st, h) && x < |g|
    requires (s == Ordered && Settled(h, x)) || (s == Ordering && IsComposite(g[x]) && st[x] == NotOrdered)
    ensures Inv(g, referenced, st[x := s], h)
  {
    var st2 := st[x := s];
    forall y | 0 <= y < |g| ensures StateAt(g, st2, h, y) {
      assert StateAt(g, st, h, y);
      SettledAmong(h, x);
    }
  }

  /** `p` walks from type to type by value. */
  ghost predicate ValuePath(g: Graph, p: seq<nat>)
    requires WFGraph(g)
  {
    && p != [] && (forall i :: 0 <= i < |p| ==> p[i] < |g|)
    && forall i :: 0 <= i < |p| - 1 ==> p[i + 1] in ValueKids(g[p[i]])
  }

  /** Along a by-value path the history only goes back. */
  lemma {:induction false} PathBack(g: Graph, referenced: seq<bool>, st: seq<OState>, h: History, p: seq<nat>, i: nat) returns (j: nat)
    requires WFGraph(g) && Inv(g, referenced, st, h) && ValuePath(g, p) && i < |h.fin| && h.fin[i] == p[0]
    ensures j < |h.fin| && h.fin[j] == p[|p| - 1] && (if |p| == 1 then j == i else j < i)
    decreases |p|
  {
    j := i;
    if |p| > 1 {
      assert FinAt(g, h, i);
      assert p[0 + 1] in ValueKids(g[p[0]]);
      var k :| 0 <= k < i && k < |h.fin| && h.fin[k] == p[1];
      forall m | 0 <= m < |p[1..]| - 1 ensures p[1..][m + 1] in ValueKids(g[p[1..][m]]) {
        assert p[m + 1 + 1] in ValueKids(g[p[m + 1]]);
      }
      j := PathBack(g, referenced, st, h, p[1..], k);
    }
  }

  /** No type that was ordered contains itself by value, directly or not. */
  lemma {:induction false} NoValueCycle(g: Graph, referenced: seq<bool>, st: seq<OState>, h: History, p: seq<nat>)
    requires WFGraph(g) && Inv(g, referenced, st, h) && ValuePath(g, p) && |p| > 1 && Settled(h, p[0])
    ensures p[|p| - 1] != p[0]
  {
    var i :| 0 <= i < |h.fin| && h.fin[i] == p[0];
    var j := PathBack(g, referenced, st, h, p, i);
    assert FinAt(g, h, i);
    assert !Among(h.fin, i, p[0]);
  }

  /** Whatever a queued named struct or union contains by value, through arrays, modifiers, typedefs and
      anonymous composites too, and that is to be queued at all, was queued before it. */
  lemma {:induction false} NeedsQueuedFirst(g: Graph, referenced: seq<bool>, st: seq<OState>, h: History, p: seq<nat>, q: nat) returns (e: nat)
    requires WFGraph(g) && Inv(g, referenced, st, h) && ValuePath(g, p) && |p| > 1
    requires q < |h.queue| && h.queue[q] == p[0] && IsComposite(g[p[0]]) && g[p[0]].name != 0
    requires MustQueue(g[p[|p| - 1]], referenced[p[|p| - 1]])
    ensures e < q && h.queue[e] == p[|p| - 1]
  {
    assert QueueAt(g, h, q);
    var i :| 0 <= i < |h.fin| && h.fin[i] == p[0];
    var j := PathBack(g, referenced, st, h, p, i);
    assert MarkAt(g, referenced, h, i) && MarkAt(g, referenced, h, j);
    e :| 0 <= e < h.mark[j] && e < |h.queue| && h.queue[e] == h.fin[j];
    SameSlot(g, h, q, h.mark[i] - 1);
  }

  lemma {:induction false} SameSlot(g: Graph, h: History, p: nat, q: nat)
    requires p < |h.queue| && q < |h.queue| && QueueAt(g, h, p) && QueueAt(g, h, q)
    requires h.queue[p] == h.queue[q] && Kind(g[h.queue[p]]) != KIND_TYPEDEF
    ensures p == q
  {
    var x := h.queue[p];
    assert !Among(h.queue, q, x) && !Among(h.queue, p, x);
  }

  /** No struct, union, enum or forward declaration is ever queued twice. */
  lemma {:induction false} QueuedOnce(g: Graph, referenced: seq<bool>, st: seq<OState>, h: History, p: nat, q: nat)
    requires WFGraph(g) && Inv(g, referenced, st, h) && p < |h.queue| && q < |h.queue|
    requires h.queue[p] == h.queue[q] && (h.queue[p] < |g| ==> Kind(g[h.queue[p]]) != KIND_TYPEDEF)
    ensures p == q
  {
    assert QueueAt(g, h, p) && QueueAt(g, h, q);
    SameSlot(g, h, p, q);
  }
}
