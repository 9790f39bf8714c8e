/** What an ordering reaches and what it leaves behind: which types one call queues, and when a type is queued twice. */
module DumpWalks {
  import opened Common
  import opened BtfTypes
  import opened DumpGraph
  import opened DumpSpec

  /** States only move on, and the queue only grows. */
  ghost predicate Moved(s: S, s2: S) {
    && |s.st| == |s2.st| && s.q <= s2.q
    && forall x {:trigger s2.st[x]} :: 0 <= x < |s.st| && s.st[x] != NotOrdered ==> s2.st[x] == s.st[x]
  }

  ghost predicate NoneBegun(s: S, s2: S) {
    |s.st| == |s2.st| && forall x {:trigger s2.st[x]} :: 0 <= x < |s.st| && s2.st[x] == Ordering ==> s.st[x] == Ordering
  }

  lemma {:induction false} MovedTrans(s: S, s1: S, s2: S)
    requires Moved(s, s1) && Moved(s1, s2)
    ensures Moved(s, s2)
  {
  }

  lemma {:induction false} NoneBegunTrans(s: S, s1: S, s2: S)
    requires NoneBegun(s, s1) && NoneBegun(s1, s2)
    ensures NoneBegun(s, s2)
  {
  }

  lemma {:induction false} DoneMoves(s: S, id: nat, q: bool)
    requires id < |s.st| && s.st[id] != Ordering
    ensures Moved(s, Done(s, id, q)) && NoneBegun(s, Done(s, id, q))
  {
  }

  lemma {:induction false} CompositeMoves(s: S, b: S, id: nat, q: bool)
    requires id < |s.st| && s.st[id] == NotOrdered && Moved(Mark(s, id, Ordering), b)
    ensures Moved(s, b) && Moved(s, Done(b, id, q))
    ensures NoneBegun(Mark(s, id, Ordering), b) ==> NoneBegun(s, Done(b, id, q))
  {
    var s0 := Mark(s, id, Ordering);
    forall x | 0 <= x < |s.st| && s.st[x] != NotOrdered ensures b.st[x] == s.st[x] { assert s0.st[x] == s.st[x]; }
    if NoneBegun(s0, b) {
      forall x | 0 <= x < |s.st| && x != id && b.st[x] == Ordering ensures s.st[x] == Ordering { assert s0.st[x] == Ordering; }
    }
  }

  lemma {:induction false} NotOrdering(s: S, s1: S, id: nat)
    requires Moved(s, s1) && NoneBegun(s, s1) && id < |s.st| && s.st[id] != Ordering
    ensures id < |s1.st| && s1.st[id] != Ordering
  {
  }

  lemma {:induction false} MovedSelf(s: S)
    ensures Moved(s, s) && NoneBegun(s, s)
  {
  }

  lemma {:induction false} OrderMoves(c: Ctx, s: S, id: nat, through: bool)
    requires Sound(c, s) && id < |c.g|
    ensures var a := Order(c, s, id, through); Moved(s, a.s) && (a.r >= 0 ==> NoneBegun(s, a.s))
    ensures var a := Order(c, s, id, through); a.r == 0 || a.r == 1 || a.r == -ELOOP || a.r == -EINVAL
    decreases Todo(c, s), Height(c, id), 1, 0
  {
    hide NoneBegun;
    var t := c.g[id];
    MovedSelf(s);
    if s.st[id] == NotOrdered && Entered(t, through) {
      if SingleKid(t) {
        SingleMoves(c, s, id, through);
      } else if ManyKids(t) {
        assert IsComposite(t) ==> id in Todo(c, s) && id !in Todo(c, Begun(t, id, s));
        OrderUpToMoves(c, Begun(t, id, s), id, through, RefCount(t));
        if IsComposite(t) { CompositeMoves(s, OrderUpTo(c, Begun(t, id, s), id, through, RefCount(t)).s, id, t.name != 0); }
      } else {
        DoneMoves(s, id, (Kind(t) == KIND_ENUM || Kind(t) == KIND_FWD) && (t.name != 0 || !c.referenced[id]));
      }
    }
  }

  lemma {:induction false} SingleMoves(c: Ctx, s: S, id: nat, through: bool)
    requires Sound(c, s) && id < |c.g| && s.st[id] == NotOrdered && SingleKid(c.g[id])
    ensures var a := Order(c, s, id, through); Moved(s, a.s) && (a.r >= 0 ==> NoneBegun(s, a.s))
    ensures var a := Order(c, s, id, through); a.r == 0 || a.r == 1 || a.r == -ELOOP || a.r == -EINVAL
    decreases Todo(c, s), Height(c, id), 0, 0
  {
    hide NoneBegun;
    var t := c.g[id];
    FirstKid(t);
    KidLower(c, s, id, Ref(t, 0));
    OrderMoves(c, s, Ref(t, 0), KidsThrough(t, through));
    var b := Order(c, s, Ref(t, 0), KidsThrough(t, through));
    if b.r >= 0 {
      NotOrdering(s, b.s, id);
      DoneMoves(b.s, id, Kind(t) != KIND_PTR);
      NoneBegunTrans(s, b.s, Done(b.s, id, Kind(t) != KIND_PTR));
    }
  }

  lemma {:induction false} OrderUpToMoves(c: Ctx, s: S, id: nat, through: bool, n: nat)
    requires Sound(c, s) && id < |c.g| && ManyKids(c.g[id]) && n <= RefCount(c.g[id])
    ensures var a := OrderUpTo(c, s, id, through, n); Moved(s, a.s) && (a.r >= 0 ==> NoneBegun(s, a.s))
    ensures var a := OrderUpTo(c, s, id, through, n); a.r == 0 || a.r == 1 || a.r == -ELOOP || a.r == -EINVAL
    decreases Todo(c, s), Top(c, id), 0, n
  {
    hide NoneBegun, Moved;
    MovedSelf(s);
    if n > 0 {
      OrderUpToMoves(c, s, id, through, n - 1);
      var a := OrderUpTo(c, s, id, through, n - 1);
      if a.r >= 0 {
        assert Refs(c.g[id])[n - 1] == Ref(c.g[id], n - 1);
        KidLower(c, s, id, Ref(c.g[id], n - 1));
        OrderMoves(c, a.s, Ref(c.g[id], n - 1), KidsThrough(c.g[id], through));
        var b := Order(c, a.s, Ref(c.g[id], n - 1), KidsThrough(c.g[id], through));
        MovedTrans(s, a.s, b.s);
        if b.r >= 0 { NoneBegunTrans(s, a.s, b.s); }
      }
    }
  }

  /** `y` is at the end of a chain of strong links that goes on from `w`, and would be entered there. */
  ghost predicate Reached(g: Graph, w: Walk, y: nat)
    requires WFGraph(g)
  {
    exists v: Walk {:trigger ReachedBy(g, w, v, y)} :: ReachedBy(g, w, v, y)
  }

  ghost predicate ReachedBy(g: Graph, w: Walk, v: Walk, y: nat)
    requires WFGraph(g)
  {
    w <= v && StrongWalk(g, v) && v[|v| - 1].0 == y && Entered(g[y], v[|v| - 1].1)
  }

  lemma {:induction false} ReachedOn(g: Graph, w: Walk, e: (nat, bool), y: nat)
    requires WFGraph(g) && Reached(g, w + [e], y)
    ensures Reached(g, w, y)
  {
    var v: Walk :| ReachedBy(g, w + [e], v, y);
    assert w <= w + [e] <= v;
    assert ReachedBy(g, w, v, y);
  }

  /** `y` has changed its state or was queued. */
  ghost predicate Touched(s: S, s2: S, y: nat) {
    (y < |s.st| && y < |s2.st| && s2.st[y] != s.st[y]) || Queued(s, s2, y)
  }

  ghost predicate Queued(s: S, s2: S, y: nat) {
    exists i :: |s.q| <= i < |s2.q| && s2.q[i] == y
  }

  ghost predicate TouchesReached(g: Graph, s: S, s2: S, w: Walk)
    requires WFGraph(g)
  {
    forall y: nat {:trigger Touched(s, s2, y)} :: Touched(s, s2, y) ==> y < |g| && Reached(g, w, y)
  }

  /** The queue has only grown. */
  predicate Longer(s: S, s2: S) { |s.st| == |s2.st| && s.q <= s2.q }

  lemma {:induction false} SelfReached(g: Graph, w: Walk)
    requires WFGraph(g) && StrongWalk(g, w) && Entered(g[w[|w| - 1].0], w[|w| - 1].1)
    ensures Reached(g, w, w[|w| - 1].0)
  {
    assert ReachedBy(g, w, w, w[|w| - 1].0);
  }

  lemma {:induction false} ReachesTrans(g: Graph, s: S, s1: S, s2: S, w: Walk)
    requires WFGraph(g) && TouchesReached(g, s, s1, w) && TouchesReached(g, s1, s2, w) && Longer(s, s1) && Longer(s1, s2)
    ensures TouchesReached(g, s, s2, w) && Longer(s, s2)
  {
    forall y: nat | Touched(s, s2, y) ensures y < |g| && Reached(g, w, y) {
      if Queued(s, s2, y) {
        var i :| |s.q| <= i < |s2.q| && s2.q[i] == y;
        assert i < |s1.q| ==> s1.q[i] == y;
        assert Queued(s, s1, y) || Queued(s1, s2, y);
      }
      assert Touched(s, s1, y) || Touched(s1, s2, y);
    }
  }

  lemma {:induction false} ReachesWider(g: Graph, s: S, s2: S, w: Walk, e: (nat, bool))
    requires WFGraph(g) && TouchesReached(g, s, s2, w + [e])
    ensures TouchesReached(g, s, s2, w)
  {
    forall y: nat | Touched(s, s2, y) ensures y < |g| && Reached(g, w, y) { ReachedOn(g, w, e, y); }
  }

  lemma {:induction false} DoneReaches(g: Graph, s: S, id: nat, q: bool, w: Walk)
    requires WFGraph(g) && id < |s.st| && id < |g| && Reached(g, w, id)
    ensures TouchesReached(g, s, Done(s, id, q), w) && Longer(s, Done(s, id, q))
    ensures TouchesReached(g, s, Mark(s, id, Ordering), w) && TouchesReached(g, s, s, w)
  {
  }

  /** One call touches nothing but what strong links lead to. */
  lemma {:induction false} OrderReaches(c: Ctx, s: S, id: nat, through: bool, w: Walk)
    requires Sound(c, s) && id < |c.g| && StrongWalk(c.g, w) && w[|w| - 1] == (id, through)
    ensures TouchesReached(c.g, s, Order(c, s, id, through).s, w) && Longer(s, Order(c, s, id, through).s)
    decreases Todo(c, s), Height(c, id), 1, 0
  {
    hide TouchesReached, Reached;
    var t := c.g[id];
    if s.st[id] == NotOrdered && Entered(t, through) {
      SelfReached(c.g, w);
      if SingleKid(t) {
        FirstKid(t);
        KidLower(c, s, id, Ref(t, 0));
        var e := (Ref(t, 0), KidsThrough(t, through));
        WalkOn(c.g, w, e.0);
        var b := Order(c, s, e.0, e.1);
        OrderReaches(c, s, e.0, e.1, w + [e]);
        ReachesWider(c.g, s, b.s, w, e);
        DoneReaches(c.g, b.s, id, Kind(t) != KIND_PTR, w);
        ReachesTrans(c.g, s, b.s, AfterKid(t, id, through, b).s, w);
      } else if ManyKids(t) {
        assert IsComposite(t) ==> id in Todo(c, s) && id !in Todo(c, Begun(t, id, s));
        var s0, b := Begun(t, id, s), OrderUpTo(c, Begun(t, id, s), id, through, RefCount(t));
        DoneReaches(c.g, s, id, false, w);
        OrderUpToReaches(c, s0, id, through, RefCount(t), w);
        ReachesTrans(c.g, s, s0, b.s, w);
        DoneReaches(c.g, b.s, id, t.name != 0, w);
        ReachesTrans(c.g, s, b.s, AfterKids(t, id, b).s, w);
      } else {
        DoneReaches(c.g, s, id, (Kind(t) == KIND_ENUM || Kind(t) == KIND_FWD) && (t.name != 0 || !c.referenced[id]), w);
      }
    } else {
      UntouchedReaches(c.g, s, w);
    }
  }

  lemma {:induction false} UntouchedReaches(g: Graph, s: S, w: Walk)
    requires WFGraph(g)
    ensures TouchesReached(g, s, s, w)
  {
  }

  lemma {:induction false} OrderUpToReaches(c: Ctx, s: S, id: nat, through: bool, n: nat, w: Walk)
    requires Sound(c, s) && id < |c.g| && ManyKids(c.g[id]) && n <= RefCount(c.g[id])
    requires StrongWalk(c.g, w) && w[|w| - 1] == (id, through) && Entered(c.g[id], through)
    ensures TouchesReached(c.g, s, OrderUpTo(c, s, id, through, n).s, w) && Longer(s, OrderUpTo(c, s, id, through, n).s)
    decreases Todo(c, s), Top(c, id), 0, n
  {
    hide TouchesReached, Reached, StrongWalk;
    if n == 0 { UntouchedReaches(c.g, s, w); }
    else {
      OrderUpToReaches(c, s, id, through, n - 1, w);
      var a := OrderUpTo(c, s, id, through, n - 1);
      if a.r >= 0 {
        assert Refs(c.g[id])[n - 1] == Ref(c.g[id], n - 1);
        KidLower(c, s, id, Ref(c.g[id], n - 1));
        var e := (Ref(c.g[id], n - 1), KidsThrough(c.g[id], through));
        WalkOn(c.g, w, e.0);
        OrderReaches(c, a.s, e.0, e.1, w + [e]);
        ReachesWider(c.g, a.s, Order(c, a.s, e.0, e.1).s, w, e);
        ReachesTrans(c.g, s, a.s, Order(c, a.s, e.0, e.1).s, w);
      }
    }
  }

  /** So whatever it queues is reached from its type. */
  lemma {:induction false} CallReaches(c: Ctx, s: S, id: nat)
    requires Sound(c, s) && id < |c.g|
    ensures forall y: nat {:trigger Queued(s, Order(c, s, id, false).s, y)} :: Queued(s, Order(c, s, id, false).s, y) ==> Reached(c.g, [(id, false)], y)
  {
    hide Order, Reached;
    var s2 := Order(c, s, id, false).s;
    OrderReaches(c, s, id, false, [(id, false)]);
    forall y: nat | Queued(s, s2, y) ensures Reached(c.g, [(id, false)], y) { assert Touched(s, s2, y); }
  }

  /** All that `x` needs, reached through a pointer if `b`, has been ordered; a prototype's needs are those it has
      behind a pointer. */
  ghost predicate Met(c: Ctx, s: S, x: nat, b: bool)
    requires Sound(c, s) && x < |c.g|
    decreases Height(c, x)
  {
    var t := c.g[x];
    if s.st[x] == Ordered then true
    else if IsComposite(t) then !Entered(t, b)
    else if !Tracked(t) || (Kind(t) == KIND_TYPEDEF && b) then
      forall k :: k in OrderKids(t) && k < |c.g| && Height(c, k) < Height(c, x) ==>
        Met(c, s, k, if Kind(t) == KIND_FUNC_PROTO then true else KidsThrough(t, b))
    else false
  }

  /** Whoever is ordered has its needs met. */
  ghost predicate ClosedAt(c: Ctx, s: S, x: nat)
    requires Sound(c, s) && x < |c.g|
  {
    s.st[x] == Ordered ==> Tracked(c.g[x]) && KidsMet(c, s, x)
  }

  ghost predicate KidsMet(c: Ctx, s: S, x: nat)
    requires Sound(c, s) && x < |c.g|
  {
    forall k :: k in OrderKids(c.g[x]) && k < |c.g| ==> Met(c, s, k, Kind(c.g[x]) == KIND_PTR)
  }

  ghost predicate Closed(c: Ctx, s: S) {
    Sound(c, s) && forall x {:trigger ClosedAt(c, s, x)} :: 0 <= x < |c.g| ==> ClosedAt(c, s, x)
  }

  ghost predicate Onward(s: S, s2: S) {
    |s.st| == |s2.st| && forall x {:trigger s2.st[x]} :: 0 <= x < |s.st| && s.st[x] == Ordered ==> s2.st[x] == Ordered
  }

  lemma {:induction false} MetLater(c: Ctx, s: S, s2: S, x: nat, b: bool)
    requires Sound(c, s) && Sound(c, s2) && x < |c.g| && Onward(s, s2) && Met(c, s, x, b)
    ensures Met(c, s2, x, b)
    decreases Height(c, x)
  {
    var t := c.g[x];
    if s2.st[x] != Ordered && !IsComposite(t) {
      var d := if Kind(t) == KIND_FUNC_PROTO then true else KidsThrough(t, b);
      forall k | k in OrderKids(t) && k < |c.g| && Height(c, k) < Height(c, x) ensures Met(c, s2, k, d) {
        MetLater(c, s, s2, k, d);
      }
    }
  }

  /** What is met without a pointer is met behind one. */
  lemma {:induction false} MetBehind(c: Ctx, s: S, x: nat)
    requires Sound(c, s) && x < |c.g| && Met(c, s, x, false)
    ensures Met(c, s, x, true)
    decreases Height(c, x)
  {
    var t := c.g[x];
    if s.st[x] != Ordered && !IsComposite(t) {
      forall k | k in OrderKids(t) && k < |c.g| && Height(c, k) < Height(c, x)
        ensures Met(c, s, k, if Kind(t) == KIND_FUNC_PROTO then true else KidsThrough(t, true)) {
        if IsModifier(Kind(t)) { MetBehind(c, s, k); }
      }
    }
  }

  lemma {:induction false} KidsMetLater(c: Ctx, s: S, s2: S, x: nat)
    requires Sound(c, s) && Sound(c, s2) && x < |c.g| && Onward(s, s2) && KidsMet(c, s, x)
    ensures KidsMet(c, s2, x)
  {
    forall k | k in OrderKids(c.g[x]) && k < |c.g| ensures Met(c, s2, k, Kind(c.g[x]) == KIND_PTR) {
      MetLater(c, s, s2, k, Kind(c.g[x]) == KIND_PTR);
    }
  }

  /** Ordering a type whose needs are met leaves everything closed. */
  lemma {:induction false} CloseDone(c: Ctx, s: S, id: nat, q: bool)
    requires Closed(c, s) && id < |c.g| && Tracked(c.g[id]) && KidsMet(c, s, id)
    ensures Closed(c, Done(s, id, q)) && Onward(s, Done(s, id, q))
  {
    hide Met, KidsMet;
    var s2 := Done(s, id, q);
    forall x | 0 <= x < |c.g| ensures ClosedAt(c, s2, x) {
      assert ClosedAt(c, s, x);
      if s2.st[x] == Ordered { KidsMetLater(c, s, s2, x); }
    }
  }

  lemma {:induction false} CloseBegun(c: Ctx, s: S, id: nat)
    requires Closed(c, s) && id < |c.g| && s.st[id] == NotOrdered
    ensures Closed(c, Mark(s, id, Ordering))
  {
    hide Met, KidsMet;
    var s2 := Mark(s, id, Ordering);
    forall x | 0 <= x < |c.g| ensures ClosedAt(c, s2, x) {
      assert ClosedAt(c, s, x);
      if s2.st[x] == Ordered { KidsMetLater(c, s, s2, x); }
    }
  }

  /** What a successful call leaves: its type's needs are met, even without a pointer if the link is strong. */
  lemma {:induction false} OrderMeets(c: Ctx, s: S, id: nat, through: bool)
    requires Sound(c, s) && Closed(c, s) && id < |c.g|
    ensures var a := Order(c, s, id, through);
            a.r >= 0 ==> Closed(c, a.s) && Met(c, a.s, id, through) && (a.r == 1 ==> Met(c, a.s, id, false))
    decreases Todo(c, s), Height(c, id), 1, 0
  {
    hide Closed;
    var t, a := c.g[id], Order(c, s, id, through);
    if s.st[id] == NotOrdered && Entered(t, through) {
      if SingleKid(t) {
        FirstKid(t);
        KidLower(c, s, id, Ref(t, 0));
        OrderMeets(c, s, Ref(t, 0), KidsThrough(t, through));
        OrderMoves(c, s, Ref(t, 0), KidsThrough(t, through));
        var b := Order(c, s, Ref(t, 0), KidsThrough(t, through));
        if b.r >= 0 && (Kind(t) == KIND_PTR || a.r == 1) && Tracked(t) { CloseDone(c, b.s, id, Kind(t) != KIND_PTR); }
      } else if ManyKids(t) {
        assert IsComposite(t) ==> id in Todo(c, s) && id !in Todo(c, Begun(t, id, s));
        if IsComposite(t) { CloseBegun(c, s, id); }
        OrderUpToMeets(c, Begun(t, id, s), id, through, RefCount(t));
        var b := OrderUpTo(c, Begun(t, id, s), id, through, RefCount(t));
        if b.r >= 0 { ManyMet(c, b.s, id, through); }
        if b.r >= 0 && IsComposite(t) { CloseDone(c, b.s, id, t.name != 0); }
      } else if a.r >= 0 {
        assert OrderKids(t) == [];
        CloseDone(c, s, id, (Kind(t) == KIND_ENUM || Kind(t) == KIND_FWD) && (t.name != 0 || !c.referenced[id]));
      }
    }
  }

  /** The first `n` kids' needs are met. */
  ghost predicate MetUpTo(c: Ctx, s: S, id: nat, through: bool, n: nat)
    requires Sound(c, s) && id < |c.g| && n <= RefCount(c.g[id])
  {
    forall i {:trigger Ref(c.g[id], i)} :: 0 <= i < n && Ref(c.g[id], i) < |c.g| ==> Met(c, s, Ref(c.g[id], i), KidsThrough(c.g[id], through))
  }

  lemma {:induction false} ManyMet(c: Ctx, s: S, id: nat, through: bool)
    requires Sound(c, s) && id < |c.g| && ManyKids(c.g[id]) && MetUpTo(c, s, id, through, RefCount(c.g[id]))
    ensures IsComposite(c.g[id]) ==> KidsMet(c, s, id)
    ensures !IsComposite(c.g[id]) ==> Met(c, s, id, true) && Met(c, s, id, false)
  {
    var t := c.g[id];
    forall k | k in OrderKids(t) && k < |c.g| ensures Met(c, s, k, KidsThrough(t, through)) && (!IsComposite(t) ==> Met(c, s, k, true)) {
      var i :| 0 <= i < RefCount(t) && Refs(t)[i] == k;
      assert Ref(t, i) == k;
      if !IsComposite(t) && !through { MetBehind(c, s, k); }
    }
  }

  lemma {:induction false} OrderUpToMeets(c: Ctx, s: S, id: nat, through: bool, n: nat)
    requires Sound(c, s) && Closed(c, s) && id < |c.g| && ManyKids(c.g[id]) && n <= RefCount(c.g[id])
    ensures var a := OrderUpTo(c, s, id, through, n); a.r >= 0 ==> Closed(c, a.s) && MetUpTo(c, a.s, id, through, n)
    decreases Todo(c, s), Top(c, id), 0, n
  {
    hide Closed, Met;
    if n > 0 {
      OrderUpToMeets(c, s, id, through, n - 1);
      var a := OrderUpTo(c, s, id, through, n - 1);
      if a.r >= 0 {
        var k, kt := Ref(c.g[id], n - 1), KidsThrough(c.g[id], through);
        assert Refs(c.g[id])[n - 1] == k;
        KidLower(c, s, id, k);
        OrderMeets(c, a.s, k, kt);
        OrderMoves(c, a.s, k, kt);
        var b := Order(c, a.s, k, kt);
        forall i | 0 <= i < n && Ref(c.g[id], i) < |c.g| ensures b.r >= 0 ==> Met(c, b.s, Ref(c.g[id], i), kt) {
          if i < n - 1 { MetLater(c, a.s, b.s, Ref(c.g[id], i), kt); }
        }
      }
    }
  }

  /** A prototype that is used by value: the walk goes on from it with no pointer on the way. */
  ghost predicate Bare(g: Graph, w: Walk, i: nat)
    requires i < |w|
  {
    w[i].0 < |g| && Kind(g[w[i].0]) == KIND_FUNC_PROTO && !w[i].1
  }

  ghost predicate BareFree(g: Graph, w: Walk, lo: nat, hi: nat) {
    forall i {:trigger Bare(g, w, i)} :: lo <= i < hi && i < |w| ==> !Bare(g, w, i)
  }

  /** One step of a strong walk leads to a type whose needs are met too. */
  lemma {:induction false} MetStep(c: Ctx, s: S, x: nat, b: bool, k: nat)
    requires Sound(c, s) && Closed(c, s) && x < |c.g| && k < |c.g| && Met(c, s, x, b) && Entered(c.g[x], b) && k in OrderKids(c.g[x])
    requires !(Kind(c.g[x]) == KIND_FUNC_PROTO && !b)
    ensures Met(c, s, k, KidsThrough(c.g[x], b))
  {
    assert ClosedAt(c, s, x);
    if s.st[x] == Ordered {
      if Kind(c.g[x]) != KIND_PTR && KidsThrough(c.g[x], b) { MetBehind(c, s, k); }
    } else {
      KidLower(c, s, x, k);
    }
  }

  lemma {:induction false} MetAlong(c: Ctx, s: S, w: Walk, lo: nat, hi: nat)
    requires Sound(c, s) && Closed(c, s) && StrongWalk(c.g, w) && lo <= hi < |w| && BareFree(c.g, w, lo, hi)
    requires w[lo].0 < |c.g| && Met(c, s, w[lo].0, w[lo].1)
    ensures w[hi].0 < |c.g| && Met(c, s, w[hi].0, w[hi].1)
    decreases hi
  {
    if lo < hi {
      MetAlong(c, s, w, lo, hi - 1);
      assert StepAt(c.g, w, hi - 1) && !Bare(c.g, w, hi - 1);
      KidsInRange(c.g, w[hi - 1].0);
      MetStep(c, s, w[hi - 1].0, w[hi - 1].1, w[hi].0);
    }
  }

  /** Some chain of strong links leads from `y` back to it, past a prototype used by value. */
  ghost predicate Looped(g: Graph, y: nat)
    requires WFGraph(g)
  {
    exists w: Walk {:trigger LoopedBy(g, w, y)} :: LoopedBy(g, w, y)
  }

  ghost predicate LoopedBy(g: Graph, w: Walk, y: nat)
    requires WFGraph(g)
  {
    StrongWalk(g, w) && |w| > 1 && w[0].0 == y == w[|w| - 1].0 && !BareFree(g, w, 0, |w| - 1)
  }

  /** `x` comes among the first `n` types of the walk. */
  ghost predicate OnWalk(w: Walk, n: int, x: nat) {
    exists i :: 0 <= i < n && i < |w| && w[i].0 == x
  }

  /** The structs and unions on the walk, but for its last type, are being ordered. */
  ghost predicate Stacked(c: Ctx, s: S, w: Walk)
    requires Sound(c, s)
  {
    forall i {:trigger w[i]} :: 0 <= i < |w| - 1 && w[i].0 < |c.g| && IsComposite(c.g[w[i].0]) ==> s.st[w[i].0] == Ordering
  }

  /** A walk that passes no struct or union between its ends falls in rank. */
  lemma {:induction false} RankFalls(c: Ctx, s: S, w: Walk, n: nat)
    requires Sound(c, s) && StrongWalk(c.g, w) && 0 < n < |w|
    requires forall i {:trigger w[i]} :: 0 <= i <= n && w[i].0 < |c.g| ==> !IsComposite(c.g[w[i].0])
    ensures w[0].0 < |c.g| && w[n].0 < |c.g| && c.rank[w[n].0] < c.rank[w[0].0]
    decreases n
  {
    assert StepAt(c.g, w, n - 1);
    KidsInRange(c.g, w[n - 1].0);
    assert RankAt(c.g, c.rank, w[n - 1].0);
    assert !IsComposite(c.g[w[n].0]);
    if n > 1 { RankFalls(c, s, w, n - 1); }
  }

  lemma {:induction false} SubWalk(g: Graph, w: Walk, i: nat)
    requires WFGraph(g) && StrongWalk(g, w) && i < |w|
    ensures StrongWalk(g, w[i..])
  {
    var v := w[i..];
    forall j | 0 <= j < |v| - 1 ensures StepAt(g, v, j) { assert StepAt(g, w, i + j); }
  }

  /** A typedef whose needs are met while the walk since an earlier visit of it is still under way has a loop. */
  lemma {:induction false} MetInside(c: Ctx, s: S, w: Walk, id: nat, i: nat)
    requires Sound(c, s) && Closed(c, s) && id < |c.g| && Kind(c.g[id]) == KIND_TYPEDEF && Ref(c.g[id], 0) < |c.g|
    requires Met(c, s, Ref(c.g[id], 0), false)
    requires StrongWalk(c.g, w) && Stacked(c, s, w) && i < |w| - 1 && w[i].0 == id == w[|w| - 1].0
    ensures Looped(c.g, id)
  {
    var v := w[i..];
    SubWalk(c.g, w, i);
    if BareFree(c.g, v, 0, |v| - 1) {
      FirstKid(c.g[id]);
      assert StepAt(c.g, v, 0);
      if v[1].1 { MetBehind(c, s, v[1].0); }
      if forall m {:trigger v[m]} :: 0 <= m <= |v| - 1 && v[m].0 < |c.g| ==> !IsComposite(c.g[v[m].0]) {
        RankFalls(c, s, v, |v| - 1);
      } else {
        var m :| 0 <= m <= |v| - 1 && v[m].0 < |c.g| && IsComposite(c.g[v[m].0]);
        assert StepAt(c.g, v, m) && w[i + m] == v[m];
        MetAlong(c, s, v, 1, m);
      }
    } else {
      assert LoopedBy(c.g, v, id);
    }
  }

  ghost predicate Twice(q: seq<nat>, y: nat) {
    exists i, j :: 0 <= i < j < |q| && q[i] == y && q[j] == y
  }

  lemma {:induction false} TwiceOn(q: seq<nat>, x: nat, y: nat)
    ensures Twice(q + [x], y) ==> Twice(q, y) || (x == y && y in q)
  {
    var q2 := q + [x];
    if Twice(q2, y) {
      var i, j :| 0 <= i < j < |q2| && q2[i] == y && q2[j] == y;
      assert q[i] == y;
      if j < |q| { assert q[j] == y; }
    }
  }

  /** A typedef without a loop is queued once at most, and then ordered. */
  ghost predicate OnceAt(c: Ctx, s: S, y: nat)
    requires Sound(c, s) && y < |c.g|
  {
    Kind(c.g[y]) == KIND_TYPEDEF && !Looped(c.g, y) && y in s.q ==> s.st[y] == Ordered && !Twice(s.q, y)
  }

  ghost predicate Once(c: Ctx, s: S) {
    Sound(c, s) && forall y {:trigger OnceAt(c, s, y)} :: 0 <= y < |c.g| ==> OnceAt(c, s, y)
  }

  ghost predicate NewAt(c: Ctx, s: S, s2: S, y: nat)
    requires Sound(c, s) && Sound(c, s2)
  {
    y < |c.g| && Kind(c.g[y]) == KIND_TYPEDEF && s.st[y] != Ordered && s2.st[y] == Ordered
  }

  /** The typedefs on the walk that have become ordered have loops. */
  ghost predicate NewLooped(c: Ctx, s: S, s2: S, w: Walk)
    requires Sound(c, s) && Sound(c, s2)
  {
    forall y: nat {:trigger NewAt(c, s, s2, y)} :: NewAt(c, s, s2, y) && OnWalk(w, |w| - 1, y) ==> Looped(c.g, y)
  }

  lemma {:induction false} NewTrans(c: Ctx, s: S, s1: S, s2: S, w: Walk)
    requires Sound(c, s) && Sound(c, s1) && Sound(c, s2) && NewLooped(c, s, s1, w) && NewLooped(c, s1, s2, w)
    ensures NewLooped(c, s, s2, w)
  {
    hide Looped;
    forall y: nat | NewAt(c, s, s2, y) && OnWalk(w, |w| - 1, y) ensures Looped(c.g, y) {
      assert NewAt(c, s, s1, y) || NewAt(c, s1, s2, y);
    }
  }

  lemma {:induction false} NewWider(c: Ctx, s: S, s2: S, w: Walk, e: (nat, bool))
    requires Sound(c, s) && Sound(c, s2) && w != [] && NewLooped(c, s, s2, w + [e])
    ensures NewLooped(c, s, s2, w)
    ensures NewAt(c, s, s2, w[|w| - 1].0) ==> Looped(c.g, w[|w| - 1].0)
  {
    hide Looped;
    var v := w + [e];
    forall y: nat | NewAt(c, s, s2, y) && OnWalk(w, |w| - 1, y) ensures Looped(c.g, y) {
      var i :| 0 <= i < |w| - 1 && w[i].0 == y;
      assert v[i].0 == y;
    }
    assert v[|w| - 1] == w[|w| - 1];
  }

  lemma {:induction false} StackedOn(c: Ctx, s: S, s2: S, w: Walk, e: (nat, bool))
    requires Sound(c, s) && Sound(c, s2) && w != [] && Stacked(c, s, w) && Moved(s, s2)
    requires w[|w| - 1].0 < |c.g| && (IsComposite(c.g[w[|w| - 1].0]) ==> s2.st[w[|w| - 1].0] == Ordering)
    ensures Stacked(c, s2, w) && Stacked(c, s2, w + [e])
  {
    var v := w + [e];
    forall i | 0 <= i < |w| - 1 && w[i].0 < |c.g| && IsComposite(c.g[w[i].0]) ensures s2.st[w[i].0] == Ordering {
      assert s.st[w[i].0] == Ordering;
    }
    assert forall i :: 0 <= i < |w| ==> v[i] == w[i];
  }

  lemma {:induction false} OnceDone(c: Ctx, s: S, id: nat, q: bool)
    requires Once(c, s) && id < |c.g|
    requires q && Kind(c.g[id]) == KIND_TYPEDEF && !Looped(c.g, id) ==> s.st[id] != Ordered
    ensures Once(c, Done(s, id, q))
  {
    hide Looped;
    var s2 := Done(s, id, q);
    forall y | 0 <= y < |c.g| ensures OnceAt(c, s2, y) {
      assert OnceAt(c, s, y);
      TwiceOn(s.q, id, y);
    }
  }

  lemma {:induction false} OnceBegun(c: Ctx, s: S, id: nat)
    requires Once(c, s) && id < |c.g| && IsComposite(c.g[id])
    ensures Once(c, Mark(s, id, Ordering))
  {
    hide Looped;
    forall y | 0 <= y < |c.g| ensures OnceAt(c, Mark(s, id, Ordering), y) { assert OnceAt(c, s, y); }
  }

  lemma {:induction false} NothingNew(c: Ctx, s: S, id: nat, q: bool, w: Walk)
    requires Sound(c, s) && id < |c.g|
    ensures NewLooped(c, s, s, w)
    ensures Kind(c.g[id]) != KIND_TYPEDEF || (OnWalk(w, |w| - 1, id) && s.st[id] != Ordered ==> Looped(c.g, id)) ==> NewLooped(c, s, Done(s, id, q), w)
    ensures NewLooped(c, s, Mark(s, id, Ordering), w)
  {
    hide Looped;
  }

  /** A typedef without a loop is queued by its first visit only. */
  lemma {:induction false} OrderOnce(c: Ctx, s: S, id: nat, through: bool, w: Walk)
    requires Sound(c, s) && Closed(c, s) && Once(c, s) && id < |c.g|
    requires StrongWalk(c.g, w) && w[|w| - 1] == (id, through) && Stacked(c, s, w)
    ensures var a := Order(c, s, id, through); a.r >= 0 ==> Once(c, a.s) && NewLooped(c, s, a.s, w)
    decreases Todo(c, s), Height(c, id), 1, 0
  {
    hide Closed, Once, NewLooped, Looped, Stacked;
    var t, a := c.g[id], Order(c, s, id, through);
    NothingNew(c, s, id, false, w);
    if s.st[id] == NotOrdered && Entered(t, through) {
      if SingleKid(t) {
        FirstKid(t);
        KidLower(c, s, id, Ref(t, 0));
        var e := (Ref(t, 0), KidsThrough(t, through));
        var b := Order(c, s, e.0, e.1);
        WalkOn(c.g, w, e.0);
        MovedSelf(s);
        StackedOn(c, s, s, w, e);
        OrderOnce(c, s, e.0, e.1, w + [e]);
        OrderMoves(c, s, e.0, e.1);
        if b.r >= 0 {
          NewWider(c, s, b.s, w, e);
          if Kind(t) == KIND_PTR {
            OnceDone(c, b.s, id, false);
            NothingNew(c, b.s, id, false, w);
            NewTrans(c, s, b.s, a.s, w);
          } else if Kind(t) == KIND_TYPEDEF && a.r == 1 {
            TypedefOnce(c, s, b, id, through, w);
          }
        }
      } else if ManyKids(t) {
        assert IsComposite(t) ==> id in Todo(c, s) && id !in Todo(c, Begun(t, id, s));
        var s0 := Begun(t, id, s);
        if IsComposite(t) {
          CloseBegun(c, s, id);
          OnceBegun(c, s, id);
        }
        StackedBegun(c, s, id, w);
        OrderUpToOnce(c, s0, id, through, RefCount(t), w);
        var b := OrderUpTo(c, s0, id, through, RefCount(t));
        if b.r >= 0 {
          NewTrans(c, s, s0, b.s, w);
          if IsComposite(t) {
            OnceDone(c, b.s, id, t.name != 0);
            NothingNew(c, b.s, id, t.name != 0, w);
            NewTrans(c, s, b.s, a.s, w);
          }
        }
      } else if a.r >= 0 {
        var q := (Kind(t) == KIND_ENUM || Kind(t) == KIND_FWD) && (t.name != 0 || !c.referenced[id]);
        OnceDone(c, s, id, q);
        NothingNew(c, s, id, q, w);
      }
    }
  }

  lemma {:induction false} StaysOrdering(s: S, s2: S, id: nat)
    requires Moved(s, s2) && id < |s.st| && s.st[id] == Ordering
    ensures s2.st[id] == Ordering
  {
  }

  lemma {:induction false} StackedBegun(c: Ctx, s: S, id: nat, w: Walk)
    requires Sound(c, s) && id < |c.g| && s.st[id] == NotOrdered && Stacked(c, s, w)
    ensures Stacked(c, Begun(c.g[id], id, s), w)
  {
  }

  /** The end of a typedef's visit. */
  lemma {:induction false} TypedefOnce(c: Ctx, s: S, b: Res, id: nat, through: bool, w: Walk)
    requires Sound(c, s) && Closed(c, s) && id < |c.g| && Kind(c.g[id]) == KIND_TYPEDEF && s.st[id] == NotOrdered
    requires b == Order(c, s, Ref(c.g[id], 0), through) && b.r >= 0 && (through ==> b.r == 1)
    requires Once(c, b.s) && NewLooped(c, s, b.s, w) && (NewAt(c, s, b.s, id) ==> Looped(c.g, id))
    requires StrongWalk(c.g, w) && w[|w| - 1] == (id, through) && Stacked(c, s, w)
    ensures Once(c, Done(b.s, id, true)) && NewLooped(c, s, Done(b.s, id, true), w)
  {
    hide Closed, Once, NewLooped, Looped, Met;
    var k := Ref(c.g[id], 0);
    OrderMeets(c, s, k, through);
    OrderMoves(c, s, k, through);
    StackedOn(c, s, b.s, w, (k, through));
    if OnWalk(w, |w| - 1, id) {
      var i :| 0 <= i < |w| - 1 && w[i].0 == id;
      MetInside(c, b.s, w, id, i);
    }
    OnceDone(c, b.s, id, true);
    NothingNew(c, b.s, id, true, w);
    NewTrans(c, s, b.s, Done(b.s, id, true), w);
  }

  lemma {:induction false} OrderUpToOnce(c: Ctx, s: S, id: nat, through: bool, n: nat, w: Walk)
    requires Sound(c, s) && Closed(c, s) && Once(c, s) && id < |c.g| && ManyKids(c.g[id]) && n <= RefCount(c.g[id])
    requires StrongWalk(c.g, w) && w[|w| - 1] == (id, through) && Stacked(c, s, w) && Entered(c.g[id], through)
    requires IsComposite(c.g[id]) ==> s.st[id] == Ordering
    ensures var a := OrderUpTo(c, s, id, through, n); a.r >= 0 ==> Once(c, a.s) && NewLooped(c, s, a.s, w)
    decreases Todo(c, s), Top(c, id), 0, n
  {
    hide Closed, Once, NewLooped, Looped, Stacked, MetUpTo, Moved;
    if n == 0 { NothingNew(c, s, id, false, w); }
    else {
      OrderUpToOnce(c, s, id, through, n - 1, w);
      var a := OrderUpTo(c, s, id, through, n - 1);
      OrderUpToMoves(c, s, id, through, n - 1);
      OrderUpToMeets(c, s, id, through, n - 1);
      if a.r >= 0 {
        assert Refs(c.g[id])[n - 1] == Ref(c.g[id], n - 1);
        KidLower(c, s, id, Ref(c.g[id], n - 1));
        var e := (Ref(c.g[id], n - 1), KidsThrough(c.g[id], through));
        WalkOn(c.g, w, e.0);
        if IsComposite(c.g[id]) { StaysOrdering(s, a.s, id); }
        StackedOn(c, s, a.s, w, e);
        OrderOnce(c, a.s, e.0, e.1, w + [e]);
        var b := Order(c, a.s, e.0, e.1);
        if b.r >= 0 {
          NewWider(c, a.s, b.s, w, e);
          NewTrans(c, s, a.s, b.s, w);
        }
      }
    }
  }

  /** A named struct or union. */
  predicate Named(c: Ctx, y: nat) {
    y < |c.g| && IsComposite(c.g[y]) && c.g[y].name != 0
  }

  /** A named struct behind a pointer is a weak link and stays as it is, whether it is being ordered or not. */
  lemma {:induction false} BehindWeak(c: Ctx, s: S, id: nat)
    requires Sound(c, s) && Named(c, id) && s.st[id] != Ordered
    ensures Order(c, s, id, true) == Res(s, 0)
  {
  }

  /** Among named structs and unions, a call queues exactly those it orders. */
  ghost predicate QueuesNamed(c: Ctx, s: S, s2: S)
    requires Sound(c, s) && Sound(c, s2)
  {
    forall y: nat {:trigger Queued(s, s2, y)} :: Named(c, y) ==> (Queued(s, s2, y) <==> s.st[y] == NotOrdered && s2.st[y] == Ordered)
  }

  lemma {:induction false} QueuedTrans(c: Ctx, s: S, s1: S, s2: S)
    requires Sound(c, s) && Sound(c, s1) && Sound(c, s2) && Moved(s, s1) && Moved(s1, s2) && QueuesNamed(c, s, s1) && QueuesNamed(c, s1, s2)
    requires NoneBegun(s, s1)
    ensures QueuesNamed(c, s, s2)
  {
    forall y: nat | Named(c, y) ensures Queued(s, s2, y) <==> s.st[y] == NotOrdered && s2.st[y] == Ordered {
      QueuedEither(s, s1, s2, y);
    }
  }

  lemma {:induction false} QueuedEither(s: S, s1: S, s2: S, y: nat)
    requires s.q <= s1.q <= s2.q
    ensures Queued(s, s2, y) <==> Queued(s, s1, y) || Queued(s1, s2, y)
  {
    assert forall i :: 0 <= i < |s1.q| ==> s1.q[i] == s2.q[i];
    if Queued(s, s1, y) {
      var i :| |s.q| <= i < |s1.q| && s1.q[i] == y;
      assert s2.q[i] == y;
    }
  }

  lemma {:induction false} QueuedDone(c: Ctx, s: S, id: nat, q: bool)
    requires Sound(c, s) && id < |c.g|
    ensures Named(c, id) || !q || Queued(s, Done(s, id, q), id)
    ensures !IsComposite(c.g[id]) ==> QueuesNamed(c, s, Done(s, id, q))
    ensures QueuesNamed(c, s, s)
  {
    if q { assert Done(s, id, q).q[|s.q|] == id; }
  }

  lemma {:induction false} OrderQueues(c: Ctx, s: S, id: nat, through: bool)
    requires Sound(c, s) && id < |c.g|
    ensures var a := Order(c, s, id, through); a.r >= 0 ==> QueuesNamed(c, s, a.s)
    decreases Todo(c, s), Height(c, id), 1, 0
  {
    hide QueuesNamed;
    var t, a := c.g[id], Order(c, s, id, through);
    QueuedDone(c, s, id, false);
    if s.st[id] == NotOrdered && Entered(t, through) {
      if SingleKid(t) {
        FirstKid(t);
        KidLower(c, s, id, Ref(t, 0));
        OrderQueues(c, s, Ref(t, 0), KidsThrough(t, through));
        OrderMoves(c, s, Ref(t, 0), KidsThrough(t, through));
        var b := Order(c, s, Ref(t, 0), KidsThrough(t, through));
        if b.r >= 0 && a.s != b.s {
          QueuedDone(c, b.s, id, Kind(t) != KIND_PTR);
          OrderMoves(c, s, id, through);
          NotBegun(c, s, b.s, id);
          QueuedTrans(c, s, b.s, a.s);
        }
      } else if ManyKids(t) {
        assert IsComposite(t) ==> id in Todo(c, s) && id !in Todo(c, Begun(t, id, s));
        var s0 := Begun(t, id, s);
        OrderUpToQueues(c, s0, id, through, RefCount(t));
        OrderUpToMoves(c, s0, id, through, RefCount(t));
        var b := OrderUpTo(c, s0, id, through, RefCount(t));
        if b.r >= 0 && IsComposite(t) { CompositeQueues(c, s, b.s, id); }
      } else if a.r >= 0 {
        QueuedDone(c, s, id, (Kind(t) == KIND_ENUM || Kind(t) == KIND_FWD) && (t.name != 0 || !c.referenced[id]));
      }
    }
  }

  lemma {:induction false} NotBegun(c: Ctx, s: S, s1: S, id: nat)
    requires Sound(c, s) && Sound(c, s1) && id < |c.g| && NoneBegun(s, s1) && s.st[id] == NotOrdered
    ensures Moved(s1, Done(s1, id, true)) && Moved(s1, Done(s1, id, false))
  {
  }

  lemma {:induction false} CompositeQueues(c: Ctx, s: S, b: S, id: nat)
    requires Sound(c, s) && Sound(c, b) && id < |c.g| && IsComposite(c.g[id]) && s.st[id] == NotOrdered
    requires Moved(Mark(s, id, Ordering), b) && QueuesNamed(c, Mark(s, id, Ordering), b)
    ensures QueuesNamed(c, s, Done(b, id, c.g[id].name != 0))
  {
    var s0, s2 := Mark(s, id, Ordering), Done(b, id, c.g[id].name != 0);
    forall y: nat | Named(c, y) ensures Queued(s, s2, y) <==> s.st[y] == NotOrdered && s2.st[y] == Ordered {
      assert b.st[id] == Ordering;
      QueuedEither(s0, b, s2, y);
      assert Queued(s, s2, y) <==> Queued(s0, s2, y);
      if y == id { assert s2.q[|b.q|] == id; }
    }
  }

  lemma {:induction false} OrderUpToQueues(c: Ctx, s: S, id: nat, through: bool, n: nat)
    requires Sound(c, s) && id < |c.g| && ManyKids(c.g[id]) && n <= RefCount(c.g[id])
    ensures var a := OrderUpTo(c, s, id, through, n); a.r >= 0 ==> QueuesNamed(c, s, a.s)
    decreases Todo(c, s), Top(c, id), 0, n
  {
    hide QueuesNamed;
    if n == 0 { QueuedDone(c, s, id, false); }
    else {
      OrderUpToQueues(c, s, id, through, n - 1);
      OrderUpToMoves(c, s, id, through, n - 1);
      var a := OrderUpTo(c, s, id, through, n - 1);
      if a.r >= 0 {
        assert Refs(c.g[id])[n - 1] == Ref(c.g[id], n - 1);
        KidLower(c, s, id, Ref(c.g[id], n - 1));
        OrderQueues(c, a.s, Ref(c.g[id], n - 1), KidsThrough(c.g[id], through));
        OrderMoves(c, a.s, Ref(c.g[id], n - 1), KidsThrough(c.g[id], through));
        var b := Order(c, a.s, Ref(c.g[id], n - 1), KidsThrough(c.g[id], through));
        if b.r >= 0 { QueuedTrans(c, s, a.s, b.s); }
      }
    }
  }

  /** What was queued has to be, and what was newly ordered and has to be queued was. */
  ghost predicate QueuesNeeded(c: Ctx, s: S, s2: S)
    requires Sound(c, s) && Sound(c, s2)
  {
    && (forall y: nat {:trigger Queued(s, s2, y)} :: Queued(s, s2, y) ==> y < |c.g| && s2.st[y] == Ordered && MustQueue(c.g[y], c.referenced[y]))
    && (forall y: nat {:trigger s2.st[y]} :: y < |c.g| && s.st[y] != Ordered && s2.st[y] == Ordered && MustQueue(c.g[y], c.referenced[y]) ==>
          Queued(s, s2, y))
  }

  lemma {:induction false} NeededTrans(c: Ctx, s: S, s1: S, s2: S)
    requires Sound(c, s) && Sound(c, s1) && Sound(c, s2) && s.q <= s1.q <= s2.q && Onward(s1, s2)
    requires QueuesNeeded(c, s, s1) && QueuesNeeded(c, s1, s2)
    ensures QueuesNeeded(c, s, s2)
  {
    hide MustQueue;
    forall y: nat | Queued(s, s2, y) ensures y < |c.g| && s2.st[y] == Ordered && MustQueue(c.g[y], c.referenced[y]) {
      QueuedEither(s, s1, s2, y);
    }
    forall y: nat | y < |c.g| && s.st[y] != Ordered && s2.st[y] == Ordered && MustQueue(c.g[y], c.referenced[y]) ensures Queued(s, s2, y) {
      QueuedEither(s, s1, s2, y);
      assert s1.st[y] == Ordered || s1.st[y] != Ordered;
    }
  }

  lemma {:induction false} NeededMoved(c: Ctx, s: S, s1: S, s2: S)
    requires Sound(c, s) && Sound(c, s1) && Sound(c, s2) && Moved(s, s1) && Moved(s1, s2)
    requires QueuesNeeded(c, s, s1) && QueuesNeeded(c, s1, s2)
    ensures QueuesNeeded(c, s, s2)
  {
    hide QueuesNeeded;
    NeededTrans(c, s, s1, s2);
  }

  lemma {:induction false} NeededDone(c: Ctx, s: S, id: nat, q: bool)
    requires Sound(c, s) && id < |c.g| && (q <==> MustQueue(c.g[id], c.referenced[id]))
    ensures QueuesNeeded(c, s, Done(s, id, q))
  {
    hide MustQueue;
    var s2 := Done(s, id, q);
    if q { assert s2.q[|s.q|] == id; }
  }

  lemma {:induction false} NeededSame(c: Ctx, s: S, id: nat)
    requires Sound(c, s) && id < |c.g|
    ensures QueuesNeeded(c, s, s) && QueuesNeeded(c, s, Mark(s, id, Ordering))
  {
  }

  /** A call queues exactly what it orders and what has to be queued. */
  lemma {:induction false} OrderNeeds(c: Ctx, s: S, id: nat, through: bool)
    requires Sound(c, s) && id < |c.g|
    ensures QueuesNeeded(c, s, Order(c, s, id, through).s)
    decreases Todo(c, s), Height(c, id), 2, 0
  {
    hide QueuesNeeded, OrderUpTo;
    var t := c.g[id];
    NeededSame(c, s, id);
    if s.st[id] == NotOrdered && Entered(t, through) {
      if SingleKid(t) {
        SingleNeeds(c, s, id, through);
      } else if ManyKids(t) {
        ManyNeeds(c, s, id, through);
      } else if Order(c, s, id, through).s != s {
        NeededDone(c, s, id, (Kind(t) == KIND_ENUM || Kind(t) == KIND_FWD) && (t.name != 0 || !c.referenced[id]));
      }
    }
  }

  lemma {:induction false} SingleNeeds(c: Ctx, s: S, id: nat, through: bool)
    requires Sound(c, s) && id < |c.g| && s.st[id] == NotOrdered && SingleKid(c.g[id])
    ensures QueuesNeeded(c, s, Order(c, s, id, through).s)
    decreases Todo(c, s), Height(c, id), 1, 0
  {
    hide QueuesNeeded, Order, Moved, NoneBegun, Queued;
    var t := c.g[id];
    FirstKid(t);
    KidLower(c, s, id, Ref(t, 0));
    OrderSingle(c, s, id, through);
    OrderNeeds(c, s, Ref(t, 0), KidsThrough(t, through));
    OrderMoves(c, s, Ref(t, 0), KidsThrough(t, through));
    var b := Order(c, s, Ref(t, 0), KidsThrough(t, through));
    if AfterKid(t, id, through, b).s != b.s {
      NeededDone(c, b.s, id, Kind(t) == KIND_TYPEDEF);
      DoneOnward(s, b.s, id, Kind(t) == KIND_TYPEDEF);
      NeededTrans(c, s, b.s, Done(b.s, id, Kind(t) == KIND_TYPEDEF));
    }
  }

  lemma {:induction false} DoneOnward(s: S, b: S, id: nat, q: bool)
    requires Moved(s, b) && id < |s.st|
    ensures id < |b.st| && s.q <= b.q <= Done(b, id, q).q && Onward(b, Done(b, id, q))
  {
  }

  lemma {:induction false} ManyNeeds(c: Ctx, s: S, id: nat, through: bool)
    requires Sound(c, s) && id < |c.g| && s.st[id] == NotOrdered && ManyKids(c.g[id]) && Entered(c.g[id], through)
    ensures QueuesNeeded(c, s, Order(c, s, id, through).s)
    decreases Todo(c, s), Height(c, id), 1, 0
  {
    hide QueuesNeeded, Order, OrderUpTo, Moved, NoneBegun, Queued;
    var t := c.g[id];
    assert IsComposite(t) ==> id in Todo(c, s) && id !in Todo(c, Begun(t, id, s));
    var s0 := Begun(t, id, s);
    OrderMany(c, s, id, through);
    NeededSame(c, s, id);
    OrderUpToNeeds(c, s0, id, through, RefCount(t));
    OrderUpToMoves(c, s0, id, through, RefCount(t));
    var b := OrderUpTo(c, s0, id, through, RefCount(t));
    DoneOnward(s0, b.s, id, t.name != 0);
    MovedOnward(s0, b.s);
    NeededTrans(c, s, s0, b.s);
    if AfterKids(t, id, b).s != b.s {
      NeededDone(c, b.s, id, t.name != 0);
      NeededTrans(c, s, b.s, Done(b.s, id, t.name != 0));
    }
  }

  lemma {:induction false} MovedOnward(s: S, s2: S)
    requires Moved(s, s2)
    ensures Onward(s, s2)
  {
  }

  lemma {:induction false} OrderUpToNeeds(c: Ctx, s: S, id: nat, through: bool, n: nat)
    requires Sound(c, s) && id < |c.g| && ManyKids(c.g[id]) && n <= RefCount(c.g[id])
    ensures QueuesNeeded(c, s, OrderUpTo(c, s, id, through, n).s)
    decreases Todo(c, s), Top(c, id), 0, n
  {
    hide QueuesNeeded, Moved, NoneBegun, Todo, Queued, MustQueue;
    if n == 0 { NeededSame(c, s, id); }
    else {
      OrderUpToNeeds(c, s, id, through, n - 1);
      OrderUpToMoves(c, s, id, through, n - 1);
      var a := OrderUpTo(c, s, id, through, n - 1);
      if a.r >= 0 {
        assert Refs(c.g[id])[n - 1] == Ref(c.g[id], n - 1);
        KidLower(c, s, id, Ref(c.g[id], n - 1));
        OrderNeeds(c, a.s, Ref(c.g[id], n - 1), KidsThrough(c.g[id], through));
        OrderMoves(c, a.s, Ref(c.g[id], n - 1), KidsThrough(c.g[id], through));
        NeededMoved(c, s, a.s, Order(c, a.s, Ref(c.g[id], n - 1), KidsThrough(c.g[id], through)).s);
      }
    }
  }

  /** `y` is at the end of a chain of strong links from `id`, would be entered there, and no prototype is used by
      value on the way. */
  ghost predicate ReachedClean(g: Graph, w: Walk, y: nat)
    requires WFGraph(g)
  {
    exists v: Walk {:trigger ReachedBy(g, w, v, y)} :: ReachedBy(g, w, v, y) && BareFree(g, v, 0, |v| - 1)
  }

  ghost predicate NoneOrdering(s: S) {
    forall x {:trigger s.st[x]} :: 0 <= x < |s.st| ==> s.st[x] != Ordering
  }

  /** Which structs and unions one successful call queues: only such as strong links lead to from its type and were
      not ordered before, and all such if no prototype is used by value on the way. */
  lemma {:induction false} CallQueues(c: Ctx, s: S, id: nat, y: nat)
    requires Sound(c, s) && Closed(c, s) && NoneOrdering(s) && id < |c.g| && Order(c, s, id, false).r >= 0 && Named(c, y)
    ensures var a, w: Walk := Order(c, s, id, false), [(id, false)];
            && (Queued(s, a.s, y) ==> s.st[y] == NotOrdered && a.s.st[y] == Ordered && Reached(c.g, w, y))
            && (s.st[y] == NotOrdered && ReachedClean(c.g, w, y) ==> Queued(s, a.s, y))
  {
    var a, w: Walk := Order(c, s, id, false), [(id, false)];
    OrderQueues(c, s, id, false);
    OrderReaches(c, s, id, false, w);
    OrderMeets(c, s, id, false);
    OrderMoves(c, s, id, false);
    if Queued(s, a.s, y) { assert Touched(s, a.s, y); }
    if s.st[y] == NotOrdered && ReachedClean(c.g, w, y) {
      var v: Walk :| ReachedBy(c.g, w, v, y) && BareFree(c.g, v, 0, |v| - 1);
      assert v[0] == w[0];
      MetAlong(c, a.s, v, 0, |v| - 1);
    }
  }

  /** So where no prototype can be met by value, a call queues exactly the structs and unions that strong links lead to. */
  lemma {:induction false} CallQueuesExactly(c: Ctx, s: S, id: nat, y: nat)
    requires Sound(c, s) && Closed(c, s) && NoneOrdering(s) && id < |c.g| && Order(c, s, id, false).r >= 0 && Named(c, y)
    requires forall v: Walk {:trigger StrongWalk(c.g, v)} :: StrongWalk(c.g, v) && v[0] == (id, false) ==> BareFree(c.g, v, 0, |v| - 1)
    ensures Queued(s, Order(c, s, id, false).s, y) <==> s.st[y] == NotOrdered && Reached(c.g, [(id, false)], y)
  {
    CallQueues(c, s, id, y);
    var w: Walk := [(id, false)];
    if Reached(c.g, w, y) {
      var v: Walk :| ReachedBy(c.g, w, v, y);
      assert v[0] == w[0];
    }
  }
}
