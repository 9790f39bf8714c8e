/** What `btf_dump_order_type` does to the order states and the emission queue, as a function, and the walks it takes
    through the type graph. */
module DumpSpec {
  import opened Common
  import opened BtfTypes
  import opened DumpGraph

  /** Whether the kids of a type are reached through a pointer. */
  predicate KidsThrough(t: Rec, through: bool) {
    Kind(t) == KIND_PTR || (through && Kind(t) != KIND_ARRAY && !IsComposite(t))
  }

  /** A named struct or union behind a pointer needs no definition, so its members are not looked at. */
  predicate Entered(t: Rec, through: bool) {
    !(IsComposite(t) && t.name != 0 && through)
  }

  type Walk = seq<(nat, bool)>

  ghost predicate StepAt(g: Graph, w: Walk, i: nat)
    requires WFGraph(g) && i + 1 < |w|
  {
    && w[i].0 < |g| && w[i + 1].0 in OrderKids(g[w[i].0])
    && w[i + 1].1 == KidsThrough(g[w[i].0], w[i].1) && Entered(g[w[i].0], w[i].1)
  }

  /** A chain of strong links: the pairs are types and whether a pointer precedes them. */
  ghost predicate StrongWalk(g: Graph, w: Walk)
    requires WFGraph(g)
  {
    w != [] && w[|w| - 1].0 < |g| && forall i {:trigger StepAt(g, w, i)} :: 0 <= i < |w| - 1 ==> StepAt(g, w, i)
  }

  lemma {:induction false} WalkOn(g: Graph, w: Walk, k: nat)
    requires WFGraph(g) && StrongWalk(g, w) && k < |g|
    requires k in OrderKids(g[w[|w| - 1].0]) && Entered(g[w[|w| - 1].0], w[|w| - 1].1)
    ensures StrongWalk(g, w + [(k, KidsThrough(g[w[|w| - 1].0], w[|w| - 1].1))])
  {
    var v := w + [(k, KidsThrough(g[w[|w| - 1].0], w[|w| - 1].1))];
    forall i | 0 <= i < |v| - 1 ensures StepAt(g, v, i) {
      if i < |w| - 1 { assert StepAt(g, w, i); }
    }
  }

  /** `rank` falls along every step that does not arrive at a struct or union: all cycles pass through one. */
  ghost predicate RankOk(g: Graph, rank: seq<nat>)
    requires WFGraph(g)
  {
    && |rank| == |g|
    && forall x {:trigger RankAt(g, rank, x)} :: 0 <= x < |g| ==> RankAt(g, rank, x)
  }

  ghost predicate RankAt(g: Graph, rank: seq<nat>, x: nat)
    requires WFGraph(g) && x < |g| == |rank|
  {
    rank[x] < |g| &&
    (!IsComposite(g[x]) ==> forall k :: k in OrderKids(g[x]) && k < |g| && !IsComposite(g[k]) ==> rank[k] < rank[x])
  }

  lemma {:induction false} KidsInRange(g: Graph, x: nat)
    requires WFGraph(g) && x < |g|
    ensures forall k :: k in OrderKids(g[x]) ==> k < |g|
  {
    forall i | 0 <= i < RefCount(g[x]) ensures Refs(g[x])[i] < |g| { assert RefsInRange(g[x], |g|); }
  }

  /** The kinds with one kid. */
  predicate SingleKid(t: Rec) {
    Kind(t) == KIND_PTR || Kind(t) == KIND_ARRAY || Kind(t) == KIND_TYPEDEF || IsModifier(Kind(t))
  }

  /** The kinds with any number of kids. */
  predicate ManyKids(t: Rec) {
    IsComposite(t) || Kind(t) == KIND_FUNC_PROTO
  }

  lemma {:induction false} FirstKid(t: Rec)
    requires WF(t) && SingleKid(t)
    ensures OrderKids(t) == [Ref(t, 0)]
  {
  }

  /** The type graph as the dumper sees it. */
  datatype Ctx = Ctx(g: Graph, referenced: seq<bool>, rank: seq<nat>)

  /** The order states, and everything ever queued. */
  datatype S = S(st: seq<OState>, q: seq<nat>)

  /** A result of the ordering: 1 for a strong link, 0 for a weak one, or an error. */
  datatype Res = Res(s: S, r: int)

  ghost predicate Sound(c: Ctx, s: S) {
    WFGraph(c.g) && |c.referenced| == |c.g| == |s.st| && RankOk(c.g, c.rank)
  }

  ghost function Todo(c: Ctx, s: S): set<nat> {
    set x | 0 <= x < |c.g| && x < |s.st| && IsComposite(c.g[x]) && s.st[x] == NotOrdered
  }

  ghost function Height(c: Ctx, x: nat): (n: nat)
    requires x < |c.g|
  {
    if IsComposite(c.g[x]) || x >= |c.rank| then 0 else 1 + c.rank[x]
  }

  ghost function Top(c: Ctx, x: nat): nat
    requires x < |c.g|
  {
    if IsComposite(c.g[x]) then |c.g| + 1 else Height(c, x)
  }

  lemma {:induction false} KidLower(c: Ctx, s: S, x: nat, k: nat)
    requires Sound(c, s) && x < |c.g| && k in OrderKids(c.g[x])
    ensures k < |c.g| && Height(c, k) < Top(c, x)
  {
    KidsInRange(c.g, x);
    assert RankAt(c.g, c.rank, x) && RankAt(c.g, c.rank, k);
  }

  function Mark(s: S, id: nat, o: OState): S
    requires id < |s.st|
  {
    s.(st := s.st[id := o])
  }

  /** The type is queued if `q`, and ordered. */
  function Done(s: S, id: nat, q: bool): S
    requires id < |s.st|
  {
    S(s.st[id := Ordered], if q then s.q + [id] else s.q)
  }

  /** What a type with one kid makes of the kid's result. */
  function AfterKid(t: Rec, id: nat, through: bool, a: Res): Res
    requires id < |a.s.st|
  {
    if Kind(t) == KIND_PTR then Res(Done(a.s, id, false), a.r)
    else if Kind(t) != KIND_TYPEDEF || a.r < 0 || (through && a.r == 0) then a
    else Res(Done(a.s, id, true), 1)
  }

  /** What a type with many kids makes of their results. */
  function AfterKids(t: Rec, id: nat, a: Res): Res
    requires id < |a.s.st|
  {
    if IsComposite(t) && a.r >= 0 then Res(Done(a.s, id, t.name != 0), 1) else a
  }

  /** What a type without kids is answered with. */
  function Leaf(t: Rec, id: nat, referenced: bool, s: S): Res
    requires id < |s.st|
  {
    var k := Kind(t);
    if k == KIND_INT || k == KIND_FLOAT || k == KIND_FUNC || k == KIND_VAR || k == KIND_DATASEC || k == KIND_DECL_TAG then
      Res(Done(s, id, false), 0)
    else if k == KIND_ENUM || k == KIND_FWD then Res(Done(s, id, t.name != 0 || !referenced), 1)
    else Res(s, -EINVAL)
  }

  /** A struct or union is being ordered while its members are. */
  function Begun(t: Rec, id: nat, s: S): S
    requires id < |s.st|
  {
    if IsComposite(t) then Mark(s, id, Ordering) else s
  }

  /** `btf_dump_order_type`. */
  ghost function Order(c: Ctx, s: S, id: nat, through: bool): (a: Res)
    requires Sound(c, s) && id < |c.g|
    ensures Sound(c, a.s) && Todo(c, a.s) <= Todo(c, s)
    decreases Todo(c, s), Height(c, id), 1, 0
  {
    var t := c.g[id];
    if s.st[id] == Ordered then Res(s, 1)
    else if s.st[id] == Ordering then Res(s, if Entered(t, through) then -ELOOP else 0)
    else if !Entered(t, through) then Res(s, 0)
    else if SingleKid(t) then
      FirstKid(t); KidLower(c, s, id, Ref(t, 0));
      AfterKid(t, id, through, Order(c, s, Ref(t, 0), KidsThrough(t, through)))
    else if ManyKids(t) then
      assert IsComposite(t) ==> id in Todo(c, s) && id !in Todo(c, Begun(t, id, s));
      AfterKids(t, id, OrderUpTo(c, Begun(t, id, s), id, through, RefCount(t)))
    else Leaf(t, id, c.referenced[id], s)
  }

  /** The first `n` kids in turn; the result is as strong as the strongest. */
  ghost function OrderUpTo(c: Ctx, s: S, id: nat, through: bool, n: nat): (a: Res)
    requires Sound(c, s) && id < |c.g| && ManyKids(c.g[id]) && n <= RefCount(c.g[id])
    ensures Sound(c, a.s) && Todo(c, a.s) <= Todo(c, s)
    decreases Todo(c, s), Top(c, id), 0, n
  {
    if n == 0 then Res(s, 0)
    else
      var a := OrderUpTo(c, s, id, through, n - 1);
      if a.r < 0 then a
      else
        assert Refs(c.g[id])[n - 1] == Ref(c.g[id], n - 1);
        KidLower(c, s, id, Ref(c.g[id], n - 1));
        var b := Order(c, a.s, Ref(c.g[id], n - 1), KidsThrough(c.g[id], through));
        if b.r < 0 then b else Res(b.s, if a.r > 0 || b.r > 0 then 1 else 0)
  }

  /** A single-kid type goes by its kid. */
  lemma {:induction false} OrderSingle(c: Ctx, s: S, id: nat, through: bool)
    requires Sound(c, s) && id < |c.g| && s.st[id] == NotOrdered && SingleKid(c.g[id])
    ensures Ref(c.g[id], 0) < |c.g|
    ensures Order(c, s, id, through) == AfterKid(c.g[id], id, through, Order(c, s, Ref(c.g[id], 0), KidsThrough(c.g[id], through)))
  {
    FirstKid(c.g[id]);
    KidLower(c, s, id, Ref(c.g[id], 0));
  }

  /** A type with many kids takes them in turn. */
  lemma {:induction false} OrderMany(c: Ctx, s: S, id: nat, through: bool)
    requires Sound(c, s) && id < |c.g| && s.st[id] == NotOrdered && ManyKids(c.g[id]) && Entered(c.g[id], through)
    ensures Order(c, s, id, through) == AfterKids(c.g[id], id, OrderUpTo(c, Begun(c.g[id], id, s), id, through, RefCount(c.g[id])))
    ensures OrderUpTo(c, Begun(c.g[id], id, s), id, through, 0) == Res(Begun(c.g[id], id, s), 0)
  {
  }

  lemma {:induction false} UpToNone(c: Ctx, s: S, id: nat, through: bool)
    requires Sound(c, s) && id < |c.g| && ManyKids(c.g[id])
    ensures OrderUpTo(c, s, id, through, 0) == Res(s, 0)
  {
  }

  lemma {:induction false} UpToNext(c: Ctx, s: S, id: nat, through: bool, n: nat)
    requires Sound(c, s) && id < |c.g| && ManyKids(c.g[id]) && n < RefCount(c.g[id]) && OrderUpTo(c, s, id, through, n).r >= 0
    ensures Ref(c.g[id], n) < |c.g|
    ensures var a := OrderUpTo(c, s, id, through, n);
            var b := Order(c, a.s, Ref(c.g[id], n), KidsThrough(c.g[id], through));
            OrderUpTo(c, s, id, through, n + 1) == if b.r < 0 then b else Res(b.s, if a.r > 0 || b.r > 0 then 1 else 0)
  {
    assert Refs(c.g[id])[n] == Ref(c.g[id], n);
    KidLower(c, s, id, Ref(c.g[id], n));
  }

  lemma {:induction false} OrderLeaf(c: Ctx, s: S, id: nat, through: bool)
    requires Sound(c, s) && id < |c.g| && s.st[id] == NotOrdered && !SingleKid(c.g[id]) && !ManyKids(c.g[id])
    ensures Order(c, s, id, through) == Leaf(c.g[id], id, c.referenced[id], s)
  {
  }

  lemma {:induction false} OrderedStrong(c: Ctx, s: S, id: nat, through: bool)
    requires Sound(c, s) && id < |c.g| && s.st[id] == Ordered
    ensures Order(c, s, id, through) == Res(s, 1)
  {
  }

  /** An error is the last thing that happens. */
  lemma {:induction false} UpToFails(c: Ctx, s: S, id: nat, through: bool, m: nat, n: nat)
    requires Sound(c, s) && id < |c.g| && ManyKids(c.g[id]) && m <= n <= RefCount(c.g[id]) && OrderUpTo(c, s, id, through, m).r < 0
    ensures OrderUpTo(c, s, id, through, n) == OrderUpTo(c, s, id, through, m)
    decreases n
  {
    if m < n { UpToFails(c, s, id, through, m, n - 1); }
  }

  /** The first `n` kids were taken in turn from `s` and left `s2`, or the error `r`. */
  ghost predicate Taken(c: Ctx, s: S, id: nat, through: bool, n: nat, s2: S, r: int) {
    && Sound(c, s) && id < |c.g| && ManyKids(c.g[id]) && n <= RefCount(c.g[id])
    && var a := OrderUpTo(c, s, id, through, n);
       a.s == s2 && if r < 0 then a.r == r else a.r >= 0
  }

  lemma {:induction false} TakenNone(c: Ctx, s: S, id: nat, through: bool)
    requires Sound(c, s) && id < |c.g| && ManyKids(c.g[id])
    ensures Taken(c, s, id, through, 0, s, 0)
  {
  }

  lemma {:induction false} TakenTodo(c: Ctx, s: S, id: nat, through: bool, n: nat, s2: S, r: int)
    requires Taken(c, s, id, through, n, s2, r)
    ensures Todo(c, s2) <= Todo(c, s) && Sound(c, s2)
  {
    hide OrderUpTo;
  }

  lemma {:induction false} TakenFails(c: Ctx, s: S, id: nat, through: bool, m: nat, n: nat, s2: S, r: int)
    requires Taken(c, s, id, through, m, s2, r) && r < 0 && m <= n <= RefCount(c.g[id])
    ensures Taken(c, s, id, through, n, s2, r)
  {
    hide OrderUpTo;
    UpToFails(c, s, id, through, m, n);
  }

  /** Kid `i` is a strong link when its turn comes. */
  ghost predicate StrongKid(c: Ctx, s: S, id: nat, through: bool, i: nat)
    requires Sound(c, s) && id < |c.g| && ManyKids(c.g[id]) && i < RefCount(c.g[id])
  {
    && Ref(c.g[id], i) < |c.g|
    && Order(c, OrderUpTo(c, s, id, through, i).s, Ref(c.g[id], i), KidsThrough(c.g[id], through)).r > 0
  }

  /** Many kids are as strong together as the strongest of them. */
  lemma {:induction false} AsStrongAsStrongest(c: Ctx, s: S, id: nat, through: bool, n: nat)
    requires Sound(c, s) && id < |c.g| && ManyKids(c.g[id]) && n <= RefCount(c.g[id]) && OrderUpTo(c, s, id, through, n).r >= 0
    ensures OrderUpTo(c, s, id, through, n).r == if exists i :: 0 <= i < n && StrongKid(c, s, id, through, i) then 1 else 0
    decreases n
  {
    hide Order;
    if n > 0 {
      assert OrderUpTo(c, s, id, through, n - 1).r >= 0;
      UpToNext(c, s, id, through, n - 1);
      AsStrongAsStrongest(c, s, id, through, n - 1);
      assert StrongKid(c, s, id, through, n - 1) || !StrongKid(c, s, id, through, n - 1);
    }
  }
}
