/** The C dumper's topological ordering of type definitions (btf_dump.c), in place on the order states. */
module DumpOrder {
  import opened Common
  import opened BtfTypes
  import opened DumpGraph
  import opened DumpSpec
  import opened DumpWalks

  /** The references that make a type `referenced`; a function prototype's return type is not among them. */
  function MarkedRefs(t: Rec): seq<nat>
    requires WF(t)
  {
    if Kind(t) == KIND_FWD then [] else if Kind(t) == KIND_FUNC_PROTO then Refs(t)[1..] else Refs(t)
  }

  /** A struct or union that cannot be defined without itself. */
  ghost predicate StrongCycle(g: Graph, w: Walk)
    requires WFGraph(g)
  {
    && StrongWalk(g, w) && |w| > 1 && w[0].0 == w[|w| - 1].0
    && IsComposite(g[w[0].0]) && Entered(g[w[0].0], w[0].1) && Entered(g[w[0].0], w[|w| - 1].1)
  }

  /** The walk from an earlier visit of the type it ends at is a cycle. */
  lemma {:induction false} CycleFrom(g: Graph, w: Walk, i: nat)
    requires WFGraph(g) && StrongWalk(g, w) && i < |w| - 1 && w[i].0 == w[|w| - 1].0
    requires IsComposite(g[w[|w| - 1].0]) && Entered(g[w[|w| - 1].0], w[|w| - 1].1)
    ensures StrongCycle(g, w[i..])
  {
    var v := w[i..];
    forall j | 0 <= j < |v| - 1 ensures StepAt(g, v, j) { assert StepAt(g, w, i + j); }
    assert StepAt(g, w, i);
  }

  /** Every struct or union being ordered was entered on the walk. */
  ghost predicate Entering(st: seq<OState>, w: Walk) {
    forall x {:trigger st[x]} :: 0 <= x < |st| && st[x] == Ordering ==> OnWalk(w, |w| - 1, x)
  }

  lemma {:induction false} OnLonger(w: Walk, y: (nat, bool), n: int, x: nat)
    requires OnWalk(w, n, x) && n <= |w|
    ensures OnWalk(w + [y], |w|, x)
  {
    var i :| 0 <= i < n && i < |w| && w[i].0 == x;
    assert (w + [y])[i].0 == x;
  }

  lemma {:induction false} EnteringOn(st: seq<OState>, w: Walk, y: (nat, bool))
    requires w != [] && Entering(st, w)
    ensures Entering(st, w + [y])
  {
    forall x | 0 <= x < |st| && st[x] == Ordering ensures OnWalk(w + [y], |w|, x) { OnLonger(w, y, |w| - 1, x); }
  }

  lemma {:induction false} StateFacts(g: Graph, referenced: seq<bool>, st: seq<OState>, h: History, x: nat)
    requires WFGraph(g) && Inv(g, referenced, st, h) && x < |g|
    ensures st[x] == Ordered ==> Settled(h, x)
    ensures Tracked(g[x]) && Settled(h, x) ==> st[x] == Ordered
    ensures st[x] == Ordering ==> IsComposite(g[x])
  {
    assert StateAt(g, st, h, x);
    SettledAmong(h, x);
  }

  /** Like `Entering`, when the last type of the walk is being ordered too. */
  ghost predicate EnteringAlso(st: seq<OState>, w: Walk) {
    forall x {:trigger st[x]} :: 0 <= x < |st| && st[x] == Ordering ==> OnWalk(w, |w|, x)
  }

  lemma {:induction false} EnteringStill(s: S, s2: S, w: Walk)
    requires EnteringAlso(s.st, w) && NoneBegun(s, s2)
    ensures EnteringAlso(s2.st, w)
  {
  }

  lemma {:induction false} EnteringAlsoOn(st: seq<OState>, w: Walk, y: (nat, bool))
    requires w != [] && EnteringAlso(st, w)
    ensures Entering(st, w + [y])
  {
    forall x | 0 <= x < |st| && st[x] == Ordering ensures OnWalk(w + [y], |w|, x) { OnLonger(w, y, |w|, x); }
  }

  lemma {:induction false} EnteringBegun(st: seq<OState>, w: Walk, id: nat, through: bool)
    requires w != [] && Entering(st, w) && id < |st| && w[|w| - 1] == (id, through)
    ensures EnteringAlso(st[id := Ordering], w)
  {
    var st2 := st[id := Ordering];
    forall x | 0 <= x < |st2| && st2[x] == Ordering ensures OnWalk(w, |w|, x) {
      if x == id { assert w[|w| - 1].0 == x; } else { assert st[x] == Ordering && OnWalk(w, |w| - 1, x); }
    }
  }

  class Dumper {
    const types: Graph
    ghost const rank: seq<nat>
    const order_state: array<OState>
    const referenced: array<bool>
    var emit_queue: seq<nat>
    ghost var h: History
    /** How much was queued in earlier calls. */
    ghost var base: nat

    ghost predicate Ready()
      reads this, order_state, referenced
    {
      && WFGraph(types) && RankOk(types, rank) && Inv(types, referenced[..], order_state[..], h)
      && referenced.Length == order_state.Length == |types|
      && base <= |h.queue| && emit_queue == h.queue[base..]
    }

    /** The graph, and where the ordering stands. */
    ghost function C(): Ctx
      reads this, referenced
    {
      Ctx(types, referenced[..], rank)
    }

    ghost function Snap(): S
      reads this, order_state
    {
      S(order_state[..], h.queue)
    }

    /** No ordering is going on. */
    ghost predicate Idle()
      reads this, order_state, referenced
    {
      Ready() && NoneOrdering(Snap()) && Closed(C(), Snap()) && Once(C(), Snap())
    }

    lemma {:induction false} ReadyOk()
      requires Ready()
      ensures Sound(C(), Snap())
    {
      hide Inv;
    }

    /** The tail of an ordering: the type is queued if `q`, and marked. */
    method Finish(id: nat, q: bool)
      requires Ready() && id < |types|
      requires forall k :: k in ValueKids(types[id]) ==> Settled(h, k)
      requires MustQueue(types[id], referenced[id]) ==> q
      requires Settled(h, id) ==> if q then Kind(types[id]) == KIND_TYPEDEF else true
      modifies order_state, `emit_queue, `h
      ensures Ready() && Settled(h, id) && Snap() == Done(old(Snap()), id, q)
      ensures emit_queue == (if q then old(emit_queue) + [id] else old(emit_queue))
      ensures old(h).fin <= h.fin
    {
      if q { emit_queue := emit_queue + [id]; }
      order_state[id] := Ordered;
      if !Settled(h, id) {
        InvSettle(types, referenced[..], old(order_state[..]), order_state[..], h, id, q);
        h := Settle(h, id, q);
      } else if q {
        InvRequeue(types, referenced[..], old(order_state[..]), h, id);
        h := h.(queue := h.queue + [id]);
      } else {
        InvMark(types, referenced[..], old(order_state[..]), h, id, Ordered);
      }
    }

    /** Arrays, modifiers and prototypes carry no state; their needs are met all the same. */
    ghost method Note(id: nat)
      requires Ready() && id < |types| && !Tracked(types[id])
      requires forall k :: k in ValueKids(types[id]) ==> Settled(h, k)
      modifies `h
      ensures Ready() && Settled(h, id) && old(h).fin <= h.fin && h.queue == old(h).queue
    {
      if !Settled(h, id) {
        InvSettle(types, referenced[..], order_state[..], order_state[..], h, id, false);
        h := Settle(h, id, false);
      }
    }

    /** What a finished call leaves, whatever its result. */
    ghost predicate Grew(s: S, fin: seq<nat>, r: int, cyc: Walk)
      requires WFGraph(types)
      reads this, order_state
    {
      && Moved(s, Snap()) && fin <= h.fin && (r >= 0 ==> NoneBegun(s, Snap()))
      && (r == 0 || r == 1 || r == -ELOOP || r == -EINVAL) && (r == -ELOOP ==> StrongCycle(types, cyc))
      && (r == -EINVAL ==> exists x {:trigger UnknownAt(x)} :: UnknownAt(x))
    }

    ghost predicate UnknownAt(x: nat) {
      x < |types| && !KnownKind(Kind(types[x]))
    }

    /** What a call may assume: `w` is the chain of links that leads to it. */
    ghost predicate Arriving(id: nat, through: bool, w: Walk)
      reads this, order_state, referenced
    {
      && Ready() && StrongWalk(types, w) && w[|w| - 1] == (id, through) && Entering(order_state[..], w)
    }

    /** `btf_dump_order_type`: 1 for a strong link, 0 for a weak one. A type reached without a pointer, or by a
        strong link, has its by-value needs met afterwards; `-ELOOP` means a cycle of strong links. */
    method OrderType(id: nat, through: bool, ghost w: Walk) returns (r: int, ghost cyc: Walk)
      requires Arriving(id, through, w)
      modifies order_state, `emit_queue, `h
      ensures Ready() && Grew(old(Snap()), old(h.fin), r, cyc)
      ensures Res(Snap(), r) == Order(old(C()), old(Snap()), id, through)
      ensures r >= 0 && (!through || r == 1) ==> Settled(h, id)
      decreases Todo(C(), Snap()), Height(C(), id), 5
    {
      hide Inv, OrderUpTo;
      var t := types[id];
      StateFacts(types, referenced[..], order_state[..], h, id);
      if order_state[id] == Ordered { return 1, w; }
      if order_state[id] == Ordering {
        if IsComposite(t) && through && t.name != 0 { return 0, w; }
        assert OnWalk(w, |w| - 1, id);
        ghost var i :| 0 <= i < |w| - 1 && w[i].0 == id;
        CycleFrom(types, w, i);
        return -ELOOP, w[i..];
      }
      r, cyc := OrderNew(id, through, w);
    }

    /** The switch over the kinds, for a type that is not ordered yet. */
    method OrderNew(id: nat, through: bool, ghost w: Walk) returns (r: int, ghost cyc: Walk)
      requires Arriving(id, through, w) && order_state[id] == NotOrdered
      modifies order_state, `emit_queue, `h
      ensures Ready() && Grew(old(Snap()), old(h.fin), r, cyc)
      ensures Res(Snap(), r) == Order(old(C()), old(Snap()), id, through)
      ensures r >= 0 && (!through || r == 1) ==> Settled(h, id)
      decreases Todo(C(), Snap()), Height(C(), id), 4
    {
      assert id < |types|;
      hide Inv, Order, OrderUpTo, Moved, NoneBegun, StrongWalk, StrongCycle, RankOk;
      var t := types[id];
      cyc := w;
      MovedSelf(Snap());
      StateFacts(types, referenced[..], order_state[..], h, id);
      if Kind(t) == KIND_INT || Kind(t) == KIND_FLOAT {
        FinishLeaf(id, through, false, w);
        r := 0;
      } else if Kind(t) == KIND_PTR {
        r, cyc := OrderPtr(id, through, w);
      } else if Kind(t) == KIND_ARRAY || IsModifier(Kind(t)) {
        r, cyc := OrderLink(id, through, w);
      } else if IsComposite(t) {
        if through && t.name != 0 {
          BehindWeak(C(), Snap(), id);
          return 0, w;
        }
        r, cyc := OrderComposite(id, through, w);
      } else if Kind(t) == KIND_ENUM || Kind(t) == KIND_FWD {
        FinishLeaf(id, through, t.name != 0 || !referenced[id], w);
        r := 1;
      } else if Kind(t) == KIND_TYPEDEF {
        r, cyc := OrderTypedef(id, through, w);
      } else if Kind(t) == KIND_FUNC_PROTO {
        r, cyc := OrderProto(id, through, w);
      } else if Kind(t) == KIND_FUNC || Kind(t) == KIND_VAR || Kind(t) == KIND_DATASEC || Kind(t) == KIND_DECL_TAG {
        FinishLeaf(id, through, false, w);
        r := 0;
      } else {
        assert UnknownAt(id);
        OrderLeaf(C(), Snap(), id, through);
        r := -EINVAL;
      }
    }

    /** A type that goes on to no other. */
    method FinishLeaf(id: nat, ghost through: bool, q: bool, ghost w: Walk)
      requires Ready() && id < |types| && order_state[id] == NotOrdered && !SingleKid(types[id]) && !ManyKids(types[id])
      requires Leaf(types[id], id, referenced[id], Snap()).s == Done(Snap(), id, q) && Leaf(types[id], id, referenced[id], Snap()).r >= 0
      modifies order_state, `emit_queue, `h
      ensures Ready() && Settled(h, id)
      ensures Res(Snap(), Leaf(types[id], id, referenced[id], old(Snap())).r) == Order(old(C()), old(Snap()), id, through)
      ensures forall r {:trigger Grew(old(Snap()), old(h.fin), r, w)} :: r == 0 || r == 1 ==> Grew(old(Snap()), old(h.fin), r, w)
    {
      hide Inv, Order, OrderUpTo, Moved, NoneBegun;
      StateFacts(types, referenced[..], order_state[..], h, id);
      OrderLeaf(C(), Snap(), id, through);
      DoneMoves(Snap(), id, q);
      Finish(id, q);
    }

    /** A reference of a type that is not a struct or union. */
    method OrderKid(id: nat, through: bool, kid: nat, ghost w: Walk) returns (r: int, ghost cyc: Walk)
      requires Arriving(id, through, w) && !IsComposite(types[id]) && kid in OrderKids(types[id])
      modifies order_state, `emit_queue, `h
      ensures Ready() && Grew(old(Snap()), old(h.fin), r, cyc)
      ensures Res(Snap(), r) == Order(old(C()), old(Snap()), kid, KidsThrough(types[id], through))
      ensures r >= 0 && (!KidsThrough(types[id], through) || r == 1) ==> Settled(h, kid)
      decreases Todo(C(), Snap()), Height(C(), id), 1
    {
      hide Inv, Order, OrderUpTo;
      KidsInRange(types, id);
      assert RankAt(types, rank, id);
      WalkOn(types, w, kid);
      EnteringOn(order_state[..], w, (kid, KidsThrough(types[id], through)));
      r, cyc := OrderType(kid, KidsThrough(types[id], through), w + [(kid, KidsThrough(types[id], through))]);
    }

    /** A pointer is marked even when its target fails. */
    method OrderPtr(id: nat, through: bool, ghost w: Walk) returns (r: int, ghost cyc: Walk)
      requires Arriving(id, through, w) && Kind(types[id]) == KIND_PTR && order_state[id] == NotOrdered
      modifies order_state, `emit_queue, `h
      ensures Ready() && Grew(old(Snap()), old(h.fin), r, cyc)
      ensures Res(Snap(), r) == Order(old(C()), old(Snap()), id, through) && Settled(h, id)
      decreases Todo(C(), Snap()), Height(C(), id), 2
    {
      hide Inv, Order, OrderUpTo;
      FirstKid(types[id]);
      OrderSingle(C(), Snap(), id, through);
      r, cyc := OrderKid(id, through, Ref(types[id], 0), w);
      Finish(id, false);
    }

    method OrderLink(id: nat, through: bool, ghost w: Walk) returns (r: int, ghost cyc: Walk)
      requires Arriving(id, through, w) && (Kind(types[id]) == KIND_ARRAY || IsModifier(Kind(types[id]))) && order_state[id] == NotOrdered
      modifies order_state, `emit_queue, `h
      ensures Ready() && Grew(old(Snap()), old(h.fin), r, cyc)
      ensures Res(Snap(), r) == Order(old(C()), old(Snap()), id, through)
      ensures r >= 0 && (!through || r == 1) ==> Settled(h, id)
      decreases Todo(C(), Snap()), Height(C(), id), 2
    {
      hide Inv, Order, OrderUpTo;
      FirstKid(types[id]);
      OrderSingle(C(), Snap(), id, through);
      r, cyc := OrderKid(id, through, Ref(types[id], 0), w);
      if r >= 0 && Settled(h, Ref(types[id], 0)) { Note(id); }
    }

    method OrderTypedef(id: nat, through: bool, ghost w: Walk) returns (r: int, ghost cyc: Walk)
      requires Arriving(id, through, w) && Kind(types[id]) == KIND_TYPEDEF && order_state[id] == NotOrdered
      modifies order_state, `emit_queue, `h
      ensures Ready() && Grew(old(Snap()), old(h.fin), r, cyc)
      ensures Res(Snap(), r) == Order(old(C()), old(Snap()), id, through)
      ensures r >= 0 && (!through || r == 1) ==> Settled(h, id)
      decreases Todo(C(), Snap()), Height(C(), id), 2
    {
      hide Inv, Order, OrderUpTo, StrongCycle, Moved, NoneBegun;
      FirstKid(types[id]);
      OrderSingle(C(), Snap(), id, through);
      r, cyc := OrderKid(id, through, Ref(types[id], 0), w);
      if r < 0 { return; }
      if through && r == 0 { return; }
      ghost var s1 := Snap();
      NotOrdering(old(Snap()), s1, id);
      DoneMoves(s1, id, true);
      MovedTrans(old(Snap()), s1, Done(s1, id, true));
      NoneBegunTrans(old(Snap()), s1, Done(s1, id, true));
      Finish(id, true);
      r := 1;
    }

    method OrderComposite(id: nat, ghost through: bool, ghost w: Walk) returns (r: int, ghost cyc: Walk)
      requires Arriving(id, through, w)
      requires IsComposite(types[id]) && Entered(types[id], through) && order_state[id] == NotOrdered
      modifies order_state, `emit_queue, `h
      ensures Ready() && Grew(old(Snap()), old(h.fin), r, cyc)
      ensures Res(Snap(), r) == Order(old(C()), old(Snap()), id, through)
      ensures r >= 0 ==> r == 1 && Settled(h, id)
      decreases Todo(C(), Snap()), Height(C(), id), 2
    {
      hide Inv, Order, OrderUpTo, Moved, NoneBegun, Dumper.InMembers;
      StateFacts(types, referenced[..], order_state[..], h, id);
      OrderMany(C(), Snap(), id, through);
      Begin(id);
      EnteringBegun(old(order_state[..]), w, id, through);
      assert id in old(Todo(C(), Snap())) && id !in Todo(C(), Snap()) && Todo(C(), Snap()) <= old(Todo(C(), Snap()));
      MembersBegin(id, through, w);
      r, cyc := OrderMembers(id, through, w);
      if r < 0 {
        CompositeMoves(old(Snap()), Snap(), id, false);
        return;
      }
      MembersEnd(id, through, Mark(old(Snap()), id, Ordering), old(h.fin), w);
      StaysOrdering(Mark(old(Snap()), id, Ordering), Snap(), id);
      CompositeMoves(old(Snap()), Snap(), id, types[id].name != 0);
      StateFacts(types, referenced[..], order_state[..], h, id);
      Finish(id, types[id].name != 0);
      r := 1;
    }

    method Begin(id: nat)
      requires Ready() && id < |types| && IsComposite(types[id]) && order_state[id] == NotOrdered
      modifies order_state
      ensures Ready() && Snap() == Mark(old(Snap()), id, Ordering)
    {
      hide Inv, Order, OrderUpTo;
      order_state[id] := Ordering;
      InvMark(types, referenced[..], old(order_state[..]), h, id, Ordering);
    }

    /** The first `i` members are ordered; `s` and `fin` are how things stood before. */
    ghost predicate InMembers(id: nat, through: bool, i: nat, s: S, fin: seq<nat>, w: Walk)
      reads this, order_state, referenced
    {
      && Ready() && StrongWalk(types, w) && w[|w| - 1] == (id, through) && EnteringAlso(order_state[..], w)
      && IsComposite(types[id]) && Entered(types[id], through) && i <= RefCount(types[id])
      && Moved(s, Snap()) && NoneBegun(s, Snap()) && fin <= h.fin && Taken(C(), s, id, through, i, Snap(), 0)
      && forall j {:trigger Ref(types[id], j)} :: 0 <= j < i ==> Settled(h, Ref(types[id], j))
    }

    lemma {:induction false} MembersBegin(id: nat, through: bool, w: Walk)
      requires Ready() && StrongWalk(types, w) && w[|w| - 1] == (id, through)
      requires IsComposite(types[id]) && Entered(types[id], through) && EnteringAlso(order_state[..], w)
      ensures InMembers(id, through, 0, Snap(), h.fin, w)
    {
      hide Inv, Order, OrderUpTo, Taken, Moved, NoneBegun;
      TakenNone(C(), Snap(), id, through);
      MovedSelf(Snap());
    }

    lemma {:induction false} MembersEnd(id: nat, through: bool, s: S, fin: seq<nat>, w: Walk)
      requires id < |types| && WF(types[id]) && InMembers(id, through, RefCount(types[id]), s, fin, w)
      ensures Ready() && Moved(s, Snap()) && NoneBegun(s, Snap()) && fin <= h.fin
      ensures Taken(C(), s, id, through, RefCount(types[id]), Snap(), 0)
      ensures forall k :: k in ValueKids(types[id]) ==> Settled(h, k)
    {
      hide Inv, Taken, Moved, NoneBegun;
      forall k | k in ValueKids(types[id]) ensures Settled(h, k) {
        var i :| 0 <= i < RefCount(types[id]) && Refs(types[id])[i] == k;
        assert Ref(types[id], i) == k;
      }
    }

    /** Member `i`. */
    method OrderMember(id: nat, ghost through: bool, i: nat, ghost s: S, ghost fin: seq<nat>, ghost w: Walk) returns (r: int, ghost cyc: Walk)
      requires InMembers(id, through, i, s, fin, w) && i < RefCount(types[id])
      modifies order_state, `emit_queue, `h
      ensures r >= 0 ==> InMembers(id, through, i + 1, s, fin, w)
      ensures r < 0 ==> Ready() && Grew(s, fin, r, cyc) && Taken(C(), s, id, through, RefCount(types[id]), Snap(), r)
      ensures Todo(C(), Snap()) <= old(Todo(C(), Snap()))
      decreases Todo(C(), Snap()), |types| + 1, 0
    {
      hide Inv, Order, OrderUpTo, Moved, NoneBegun;
      var kid := Ref(types[id], i);
      assert Refs(types[id])[i] == kid;
      KidsInRange(types, id);
      WalkOn(types, w, kid);
      EnteringAlsoOn(order_state[..], w, (kid, false));
      assert RankAt(types, rank, kid) && !KidsThrough(types[id], through);
      UpToNext(C(), s, id, through, i);
      ghost var s1 := Snap();
      r, cyc := OrderType(kid, false, w + [(kid, false)]);
      MovedTrans(s, s1, Snap());
      if r < 0 {
        TakenFails(C(), s, id, through, i + 1, RefCount(types[id]), Snap(), r);
      } else {
        NoneBegunTrans(s, s1, Snap());
        EnteringStill(s1, Snap(), w);
      }
    }

    /** The members in turn. */
    method OrderMembers(id: nat, ghost through: bool, ghost w: Walk) returns (r: int, ghost cyc: Walk)
      requires InMembers(id, through, 0, Snap(), h.fin, w)
      modifies order_state, `emit_queue, `h
      ensures r >= 0 ==> InMembers(id, through, RefCount(types[id]), old(Snap()), old(h.fin), w)
      ensures r < 0 ==> Ready() && Grew(old(Snap()), old(h.fin), r, cyc)
      ensures r < 0 ==> Taken(C(), old(Snap()), id, through, RefCount(types[id]), Snap(), r)
      decreases Todo(C(), Snap()), |types| + 2, 0
    {
      assert id < |types| && WF(types[id]) && RefCount(types[id]) == Vlen(types[id]);
      hide Dumper.InMembers, Dumper.Ready, Dumper.Grew, Dumper.Snap, Taken, Todo, Moved;
      r, cyc := 0, w;
      for i := 0 to Vlen(types[id])
        invariant InMembers(id, through, i, old(Snap()), old(h.fin), w) && r >= 0
        invariant Todo(C(), Snap()) <= old(Todo(C(), Snap()))
      {
        r, cyc := OrderMember(id, through, i, old(Snap()), old(h.fin), w);
        if r < 0 { return; }
      }
      r := 0;
    }

    /** The return type and the parameters; the prototype is as strong as the strongest of them. */
    method OrderProto(id: nat, through: bool, ghost w: Walk) returns (r: int, ghost cyc: Walk)
      requires Arriving(id, through, w) && Kind(types[id]) == KIND_FUNC_PROTO && order_state[id] == NotOrdered
      modifies order_state, `emit_queue, `h
      ensures Ready() && Grew(old(Snap()), old(h.fin), r, cyc)
      ensures Res(Snap(), r) == Order(old(C()), old(Snap()), id, through)
      ensures r >= 0 ==> Settled(h, id)
      decreases Todo(C(), Snap()), Height(C(), id), 3
    {
      hide Inv, Order, OrderUpTo;
      var t := types[id];
      assert Refs(t)[0] == Ref(t, 0);
      OrderMany(C(), Snap(), id, through);
      UpToNext(C(), Snap(), id, through, 0);
      r, cyc := OrderKid(id, through, Ref(t, 0), w);
      if r < 0 {
        UpToFails(old(C()), old(Snap()), id, through, 1, RefCount(t));
        return;
      }
      ghost var s := old(Snap());
      r, cyc := OrderParams(id, through, s, r, w);
      if r >= 0 { Note(id); }
    }

    /** The parameters, once the return type's link is as strong as `ret`; `s` is how things stood before that. */
    method OrderParams(id: nat, through: bool, ghost s: S, ret: int, ghost w: Walk) returns (r: int, ghost cyc: Walk)
      requires Arriving(id, through, w) && Kind(types[id]) == KIND_FUNC_PROTO
      requires Sound(C(), s) && (ret == 0 || ret == 1) && Res(Snap(), ret) == OrderUpTo(C(), s, id, through, 1)
      modifies order_state, `emit_queue, `h
      ensures Ready() && Grew(old(Snap()), old(h.fin), r, cyc)
      ensures Res(Snap(), r) == OrderUpTo(old(C()), s, id, through, RefCount(types[id]))
      decreases Todo(C(), Snap()), Height(C(), id), 2
    {
      hide Inv, Order, OrderUpTo;
      var t := types[id];
      var is_strong := ret > 0;
      r, cyc := 0, w;
      for i := 0 to Vlen(t)
        invariant Ready() && Grew(old(Snap()), old(h.fin), 0, cyc)
        invariant Todo(C(), Snap()) <= old(Todo(C(), Snap())) && Entering(order_state[..], w)
        invariant Res(Snap(), if is_strong then 1 else 0) == OrderUpTo(old(C()), s, id, through, i + 1)
      {
        assert Refs(t)[i + 1] == Ref(t, i + 1);
        UpToNext(old(C()), s, id, through, i + 1);
        r, cyc := OrderKid(id, through, Ref(t, i + 1), w);
        if r < 0 {
          UpToFails(old(C()), s, id, through, i + 2, RefCount(t));
          return;
        }
        if r > 0 { is_strong := true; }
      }
      r := if is_strong then 1 else 0;
    }

    /** The ordering half of `btf_dump__dump_type`: `emit_queue` holds what is to be emitted for this call. */
    method DumpType(id: nat) returns (err: int, ghost cyc: Walk)
      requires Idle()
      modifies order_state, `emit_queue, `h, `base
      ensures id >= |types| ==> err == -EINVAL
      ensures Ready() && Moved(old(Snap()), Snap()) && old(h).fin <= h.fin
      ensures id < |types| ==> h.queue == old(h).queue + emit_queue
      ensures id < |types| ==> var a := Order(old(C()), old(Snap()), id, false); Snap() == a.s && err == if a.r > 0 then 0 else a.r
      ensures err >= 0 ==> err == 0 && Idle() && Settled(h, id)
      ensures err == 0 ==> forall y: nat {:trigger y in emit_queue} :: Named(C(), y) ==>
          && (y in emit_queue ==> old(order_state[..])[y] == NotOrdered && order_state[y] == Ordered && Reached(types, [(id, false)], y))
          && (old(order_state[..])[y] == NotOrdered && ReachedClean(types, [(id, false)], y) ==> y in emit_queue)
      ensures err == 0 ==> forall y: nat {:trigger y in emit_queue} :: y in emit_queue ==>
          && y < |types| && order_state[y] == Ordered && Reached(types, [(id, false)], y)
          && var t := types[y];
             || (IsComposite(t) && t.name != 0) || Kind(t) == KIND_TYPEDEF
             || ((Kind(t) == KIND_ENUM || Kind(t) == KIND_FWD) && (t.name != 0 || !referenced[y]))
      ensures err == 0 ==> forall y: nat {:trigger y in emit_queue} :: y < |types| && old(order_state[..])[y] != Ordered && order_state[y] == Ordered ==>
          var t := types[y];
          var needed := (IsComposite(t) && t.name != 0) || Kind(t) == KIND_TYPEDEF
                        || ((Kind(t) == KIND_ENUM || Kind(t) == KIND_FWD) && (t.name != 0 || !referenced[y]));
          needed ==> y in emit_queue
      ensures err == 0 ==> forall y: nat {:trigger Looped(types, y)} :: y < |types| && Kind(types[y]) == KIND_TYPEDEF && !Looped(types, y) ==>
          !Twice(h.queue, y)
      ensures err == -ELOOP ==> StrongCycle(types, cyc)
      ensures err < 0 ==> err == -ELOOP || err == -EINVAL
    {
      hide Inv, Order, OrderUpTo, Looped, Reached, ReachedClean;
      cyc := [];
      if id >= |types| { return -EINVAL, []; }
      emit_queue, base := [], |h.queue|;
      err, cyc := OrderFrom(id);
      if err > 0 { err := 0; }
      if err == 0 {
        DumpedOnce();
        forall y: nat | Named(C(), y) ensures
          && (y in emit_queue ==> old(order_state[..])[y] == NotOrdered && order_state[y] == Ordered && Reached(types, [(id, false)], y))
          && (old(order_state[..])[y] == NotOrdered && ReachedClean(types, [(id, false)], y) ==> y in emit_queue) {
          QueuedSuffix(old(Snap()), Snap(), emit_queue, y);
          CallQueues(old(C()), old(Snap()), id, y);
        }
        hide Sound;
        OrderNeeds(old(C()), old(Snap()), id, false);
        CallReaches(old(C()), old(Snap()), id);
        forall y: nat ensures y in emit_queue <==> Queued(old(Snap()), Snap(), y) { QueuedSuffix(old(Snap()), Snap(), emit_queue, y); }
      }
    }

    lemma {:induction false} DumpedOnce()
      requires Once(C(), Snap()) && Ready()
      ensures forall y: nat {:trigger Looped(types, y)} :: y < |types| && Kind(types[y]) == KIND_TYPEDEF && !Looped(types, y) ==> !Twice(h.queue, y)
    {
      hide Inv, Looped;
      forall y: nat | y < |types| && Kind(types[y]) == KIND_TYPEDEF && !Looped(types, y) ensures !Twice(h.queue, y) {
        assert OnceAt(C(), Snap(), y);
      }
    }

    /** The ordering of one type, and what it leaves. */
    method OrderFrom(id: nat) returns (r: int, ghost cyc: Walk)
      requires Idle() && id < |types|
      modifies order_state, `emit_queue, `h
      ensures Ready() && Grew(old(Snap()), old(h.fin), r, cyc)
      ensures Res(Snap(), r) == Order(old(C()), old(Snap()), id, false)
      ensures r >= 0 ==> Idle() && Settled(h, id)
    {
      hide Inv, Order, OrderUpTo;
      ghost var w := [(id, false)];
      r, cyc := OrderType(id, false, w);
      if r >= 0 {
        OrderMeets(old(C()), old(Snap()), id, false);
        OrderOnce(old(C()), old(Snap()), id, false, w);
      }
    }

    /** No order was started, and only void is ordered. */
    constructor (types: Graph, referenced: array<bool>, ghost rank: seq<nat>)
      requires WFGraph(types) && RankOk(types, rank) && referenced.Length == |types|
      ensures Idle() && this.types == types && this.referenced == referenced && this.rank == rank && fresh(order_state) && h.queue == []
      ensures forall x :: 0 <= x < |types| ==> order_state[x] == if x == 0 then Ordered else NotOrdered
    {
      this.types, this.referenced, this.rank := types, referenced, rank;
      emit_queue, h, base := [], History([0], [0], []), 0;
      order_state := new OState[|types|](i => if i == 0 then Ordered else NotOrdered);
      new;
      InvInit(types, referenced[..], order_state[..]);
    }
  }

  lemma {:induction false} QueuedSuffix(s: S, s2: S, e: seq<nat>, y: nat)
    requires s2.q == s.q + e
    ensures Queued(s, s2, y) <==> y in e
  {
    forall i | 0 <= i < |e| ensures s2.q[|s.q| + i] == e[i] {}
    if Queued(s, s2, y) {
      var i :| |s.q| <= i < |s2.q| && s2.q[i] == y;
      assert e[i - |s.q|] == y;
    }
  }

  lemma {:induction false} InvInit(g: Graph, referenced: seq<bool>, st: seq<OState>)
    requires WFGraph(g) && |referenced| == |st| == |g| && st[0] == Ordered && forall x :: 1 <= x < |st| ==> st[x] == NotOrdered
    ensures Inv(g, referenced, st, History([0], [0], []))
  {
    var h := History([0], [0], []);
    assert h.fin[0] == 0 && Kind(VOID) == 0;
    assert FinAt(g, h, 0);
    forall x | 0 <= x < |g| ensures StateAt(g, st, h, x) {
      assert x == 0 ==> Among(h.fin, 1, x);
    }
  }

  ghost predicate MarkedBy(types: Graph, n: nat, x: nat)
    requires WFGraph(types)
  {
    exists i :: 1 <= i < n && i < |types| && x in MarkedRefs(types[i])
  }

  lemma {:induction false} NoneMarked(types: Graph)
    requires WFGraph(types)
    ensures forall x :: !MarkedBy(types, 1, x)
  {
  }

  lemma {:induction false} MarkedStep(types: Graph, i: nat, x: nat)
    requires WFGraph(types) && 1 <= i < |types|
    ensures MarkedBy(types, i + 1, x) <==> MarkedBy(types, i, x) || x in MarkedRefs(types[i])
  {
    hide MarkedRefs;
  }

  method MarkAll(ks: seq<nat>, referenced: array<bool>)
    requires forall k :: k in ks ==> k < referenced.Length
    modifies referenced
    ensures forall x :: 0 <= x < referenced.Length ==> (referenced[x] <==> old(referenced[x]) || x in ks)
  {
    for j := 0 to |ks|
      invariant forall x :: 0 <= x < referenced.Length ==> (referenced[x] <==> old(referenced[x]) || x in ks[..j])
    {
      assert ks[j] in ks;
      referenced[ks[j]] := true;
      assert ks[..j + 1] == ks[..j] + [ks[j]];
    }
  }

  /** `btf_dump_mark_referenced`. */
  method MarkReferenced(types: Graph, referenced: array<bool>) returns (err: int)
    requires WFGraph(types) && referenced.Length == |types| && forall x :: 0 <= x < |types| ==> !referenced[x]
    modifies referenced
    ensures err == if forall i :: 1 <= i < |types| ==> KnownKind(Kind(types[i])) then 0 else -EINVAL
    ensures err == 0 ==> forall x :: 0 <= x < |types| ==> (referenced[x] <==> MarkedBy(types, |types|, x))
  {
    hide MarkedBy, MarkedRefs;
    assert forall x :: 0 <= x < |types| ==> !MarkedBy(types, 1, x) by { NoneMarked(types); }
    for i := 1 to |types|
      invariant forall j :: 1 <= j < i ==> KnownKind(Kind(types[j]))
      invariant forall x :: 0 <= x < |types| ==> (referenced[x] <==> MarkedBy(types, i, x))
    {
      var t := types[i];
      if !KnownKind(Kind(t)) { return -EINVAL; }
      var ks := MarkedRefs(t);
      ghost var was := referenced[..];
      MarkedInRange(types, i);
      MarkAll(ks, referenced);
      forall x | 0 <= x < |types| ensures referenced[x] <==> MarkedBy(types, i + 1, x) {
        assert was[x] <==> MarkedBy(types, i, x);
        MarkedStep(types, i, x);
      }
    }
    err := 0;
  }

  lemma {:induction false} MarkedInRange(g: Graph, i: nat)
    requires WFGraph(g) && i < |g|
    ensures forall k :: k in MarkedRefs(g[i]) ==> k < |g|
  {
    assert forall j :: 0 <= j < RefCount(g[i]) ==> Refs(g[i])[j] < |g| by { assert RefsInRange(g[i], |g|); }
  }

  /** `btf_dump__new`: unknown kinds are refused. */
  method New(types: Graph, ghost rank: seq<nat>) returns (d: Dumper?, err: int)
    requires WFGraph(types) && RankOk(types, rank)
    ensures err == if forall i :: 1 <= i < |types| ==> KnownKind(Kind(types[i])) then 0 else -EINVAL
    ensures err == 0 ==> d != null && d.Idle() && d.types == types && d.h.queue == [] && fresh(d) && fresh(d.order_state)
    ensures err == 0 ==> d.rank == rank && forall x :: 0 <= x < |types| ==> d.order_state[x] == if x == 0 then Ordered else NotOrdered
    ensures err == 0 ==> forall x :: 0 <= x < |types| ==> (d.referenced[x] <==> MarkedBy(types, |types|, x))
  {
    var referenced := new bool[|types|](_ => false);
    err := MarkReferenced(types, referenced);
    if err < 0 { return null, err; }
    d := new Dumper(types, referenced, rank);
  }
}
