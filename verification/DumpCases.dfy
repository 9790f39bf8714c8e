/** The dumper's ordering at work on small graphs: where typedefs are queued twice, and which structs are not queued. */
module DumpCases {
  import opened Common
  import opened BtfTypes
  import opened DumpGraph
  import opened DumpSpec
  import opened DumpWalks
  import opened DumpOrder

  function KindInfo(kind: nat, vlen: nat): u32
    requires kind < 32 && vlen < 0x1_0000
  {
    kind * 0x100_0000 + vlen
  }

  /** `typedef void F(struct S); struct S { F *f; };` with the prototype as 1, F as 2, S as 3 and the pointer as 4. */
  function Callback(): Graph {
    [VOID,
     Rec(0, KindInfo(KIND_FUNC_PROTO, 1), 0, [0, 3]),
     Rec(1, KindInfo(KIND_TYPEDEF, 0), 1, []),
     Rec(2, KindInfo(KIND_STRUCT, 1), 8, [3, 4, 0]),
     Rec(0, KindInfo(KIND_PTR, 0), 2, [])]
  }

  /** `typedef struct S F(void); struct S { F *f; };`, numbered alike. */
  function Maker(): Graph {
    [VOID,
     Rec(0, KindInfo(KIND_FUNC_PROTO, 0), 3, []),
     Rec(1, KindInfo(KIND_TYPEDEF, 0), 1, []),
     Rec(2, KindInfo(KIND_STRUCT, 1), 8, [3, 4, 0]),
     Rec(0, KindInfo(KIND_PTR, 0), 2, [])]
  }

  function Case(g: Graph): Ctx { Ctx(g, [false, true, true, true, true], [0, 1, 2, 0, 3]) }

  const FRESH := S([Ordered, NotOrdered, NotOrdered, NotOrdered, NotOrdered], [])

  /** The ranks of the two graphs. */
  lemma {:induction false} SmallOk(g: Graph)
    requires |g| == 5 && g[0] == VOID && (forall x | 0 <= x < 5 :: WF(g[x]))
    requires Kind(g[1]) == KIND_FUNC_PROTO && Kind(g[2]) == KIND_TYPEDEF && Kind(g[3]) == KIND_STRUCT && Kind(g[4]) == KIND_PTR
    requires (Refs(g[1]) == [0, 3] || Refs(g[1]) == [3]) && Refs(g[2]) == [1] && Refs(g[3]) == [4] && Refs(g[4]) == [2] && Refs(g[0]) == []
    ensures Sound(Case(g), FRESH)
  {
    forall x | 0 <= x < 5 ensures RefsInRange(g[x], 5) && WF(g[x]) {
      assert x == 0 || x == 1 || x == 2 || x == 3 || x == 4;
      forall i | 0 <= i < RefCount(g[x]) ensures Ref(g[x], i) < 5 { assert Refs(g[x])[i] == Ref(g[x], i); }
    }
    assert WFGraph(g);
    forall x | 0 <= x < 5 ensures RankAt(g, [0, 1, 2, 0, 3], x) {
      assert x == 0 || x == 1 || x == 2 || x == 3 || x == 4;
    }
  }

  lemma {:induction false} CallbackKinds()
    ensures var g := Callback();
            && (forall x | 0 <= x < 5 :: WF(g[x]))
            && Kind(g[1]) == KIND_FUNC_PROTO && Kind(g[2]) == KIND_TYPEDEF && Kind(g[3]) == KIND_STRUCT && Kind(g[4]) == KIND_PTR
            && Refs(g[1]) == [0, 3] && Refs(g[2]) == [1] && Refs(g[3]) == [4] && Refs(g[4]) == [2] && Refs(g[0]) == []
  {
  }

  lemma {:induction false} CallbackOk()
    ensures Sound(Case(Callback()), FRESH)
  {
    hide Refs, Kind, WF, RefCount;
    CallbackKinds();
    SmallOk(Callback());
  }

  lemma {:induction false} MakerKinds()
    ensures var g := Maker();
            && (forall x | 0 <= x < 5 :: WF(g[x]))
            && Kind(g[1]) == KIND_FUNC_PROTO && Kind(g[2]) == KIND_TYPEDEF && Kind(g[3]) == KIND_STRUCT && Kind(g[4]) == KIND_PTR
            && Refs(g[1]) == [3] && Refs(g[2]) == [1] && Refs(g[3]) == [4] && Refs(g[4]) == [2] && Refs(g[0]) == []
  {
  }

  lemma {:induction false} MakerOk()
    ensures Sound(Case(Maker()), FRESH)
  {
    hide Refs, Kind, WF, RefCount;
    MakerKinds();
    SmallOk(Maker());
  }

  lemma {:induction false} RefsAt(t: Rec, i: nat)
    requires WF(t) && i < RefCount(t)
    ensures Refs(t)[i] == Ref(t, i)
  {
  }

  /** Inside the struct of the callback: behind the pointer the prototype's void makes the link strong. */
  lemma {:induction false} CallbackInside(st: seq<OState>)
    requires |st| == 5 && st[0] == Ordered && st[1] == st[2] == st[4] == NotOrdered && st[3] != Ordered
    ensures Sound(Case(Callback()), S(st, []))
    ensures Order(Case(Callback()), S(st, []), 4, false) == Res(S(st[2 := Ordered][4 := Ordered], [2]), 1)
  {
    hide Order, OrderUpTo;
    CallbackOk();
    CallbackKinds();
    var g, c, s := Callback(), Case(Callback()), S(st, []);
    RefsAt(g[1], 0);
    RefsAt(g[1], 1);
    RefsAt(g[2], 0);
    RefsAt(g[4], 0);
    OrderSingle(c, s, 4, false);
    OrderSingle(c, s, 2, true);
    OrderMany(c, s, 1, true);
    UpToNext(c, s, 1, true, 0);
    OrderedStrong(c, s, 0, true);
    UpToNext(c, s, 1, true, 1);
    BehindWeak(c, s, 3);
  }

  /** The callback's struct: its member is a pointer to the typedef, whose visit is under way. */
  lemma {:induction false} CallbackStruct()
    ensures var c := Case(Callback());
            Sound(c, FRESH) && Order(c, FRESH, 3, false) == Res(S([Ordered, NotOrdered, Ordered, Ordered, Ordered], [2, 3]), 1)
  {
    hide Order, OrderUpTo;
    CallbackOk();
    CallbackKinds();
    var g, c, s1 := Callback(), Case(Callback()), S([Ordered, NotOrdered, NotOrdered, Ordering, NotOrdered], []);
    RefsAt(g[3], 0);
    OrderMany(c, FRESH, 3, false);
    assert Begun(g[3], 3, FRESH) == s1;
    UpToNext(c, s1, 3, false, 0);
    CallbackInside(s1.st);
  }

  /** A call on the callback's typedef queues it twice: first from inside its struct, then when its own visit ends. */
  lemma {:induction false} QueuedTwice()
    ensures var c := Case(Callback());
            Sound(c, FRESH) && Order(c, FRESH, 2, false).r == 1 && Order(c, FRESH, 2, false).s.q == [2, 3, 2]
  {
    hide Order, OrderUpTo;
    CallbackOk();
    CallbackKinds();
    var g, c := Callback(), Case(Callback());
    RefsAt(g[1], 0);
    RefsAt(g[1], 1);
    RefsAt(g[2], 0);
    OrderSingle(c, FRESH, 2, false);
    OrderMany(c, FRESH, 1, false);
    UpToNext(c, FRESH, 1, false, 0);
    OrderedStrong(c, FRESH, 0, false);
    UpToNext(c, FRESH, 1, false, 1);
    CallbackStruct();
  }

  /** Each type but void is referenced. */
  lemma {:induction false} CallbackMarks()
    ensures WFGraph(Callback()) && forall x :: 0 <= x < 5 ==> (MarkedBy(Callback(), 5, x) <==> x != 0)
  {
    hide Refs, Kind, WF, RefCount;
    CallbackOk();
    CallbackKinds();
    SmallMarks(Callback());
  }

  lemma {:induction false} SmallMarks(g: Graph)
    requires WFGraph(g) && |g| == 5
    requires Kind(g[1]) == KIND_FUNC_PROTO && Kind(g[2]) == KIND_TYPEDEF && Kind(g[3]) == KIND_STRUCT && Kind(g[4]) == KIND_PTR
    requires Refs(g[1]) == [0, 3] && Refs(g[2]) == [1] && Refs(g[3]) == [4] && Refs(g[4]) == [2]
    ensures forall x :: 0 <= x < 5 ==> (MarkedBy(g, 5, x) <==> x != 0)
  {
    hide Refs, Kind, WF, RefCount;
    assert MarkedRefs(g[1]) == [3] && MarkedRefs(g[2]) == [1] && MarkedRefs(g[3]) == [4] && MarkedRefs(g[4]) == [2];
    assert 3 in MarkedRefs(g[1]) && 1 in MarkedRefs(g[2]) && 4 in MarkedRefs(g[3]) && 2 in MarkedRefs(g[4]);
    forall i | 1 <= i < 5 ensures 0 !in MarkedRefs(g[i]) { assert i == 1 || i == 2 || i == 3 || i == 4; }
    assert MarkedBy(g, 5, 3) && MarkedBy(g, 5, 1) && MarkedBy(g, 5, 4) && MarkedBy(g, 5, 2);
  }

  /** The dumper itself, asked for the callback's typedef. */
  method DumpCallback() returns (queue: seq<nat>)
    ensures queue == [2, 3, 2]
  {
    hide Order, OrderUpTo, Inv, MarkedBy, Closed, Once, Looped, Reached, ReachedClean;
    CallbackOk();
    CallbackKinds();
    CallbackMarks();
    var d, err := New(Callback(), [0, 1, 2, 0, 3]);
    assert err == 0;
    assert |d.types| == 5 && d.referenced.Length == 5 && d.order_state.Length == 5;
    forall x | 0 <= x < 5 ensures d.referenced[x] == (x != 0) {}
    assert d.C() == Case(Callback());
    assert d.Snap() == FRESH;
    QueuedTwice();
    var r, _ := d.DumpType(2);
    queue := d.emit_queue;
  }

  /** After a call on the pointer the callback's typedef is ordered and its struct is not, and a call on the typedef
      itself, whose prototype takes the struct by value, leaves it so. */
  lemma {:induction false} NotQueued()
    ensures var c := Case(Callback());
            && Sound(c, FRESH) && Order(c, FRESH, 4, false).r == 1
            && var s := Order(c, FRESH, 4, false).s;
               s.st[3] == NotOrdered && Order(c, s, 2, false) == Res(s, 1) && Reached(c.g, [(2, false)], 3)
  {
    hide Order, OrderUpTo;
    CallbackOk();
    CallbackKinds();
    CallbackInside(FRESH.st);
    hide Reached;
    CallbackReached();
    var c := Case(Callback());
    OrderedStrong(c, Order(c, FRESH, 4, false).s, 2, false);
  }

  /** The typedef leads to the struct, by value all the way. */
  lemma {:induction false} CallbackReached()
    ensures WFGraph(Callback()) && Reached(Callback(), [(2, false)], 3)
  {
    CallbackOk();
    CallbackKinds();
    var g, v: Walk := Callback(), [(2, false), (1, false), (3, false)];
    assert StepAt(g, v, 0) && StepAt(g, v, 1);
    assert ReachedBy(g, [(2, false)], v, 3);
  }

  /** Inside the struct of the maker: behind the pointer nothing makes the link strong. */
  lemma {:induction false} MakerInside(st: seq<OState>)
    requires |st| == 5 && st[1] == st[2] == st[4] == NotOrdered && st[3] != Ordered
    ensures Sound(Case(Maker()), S(st, []))
    ensures Order(Case(Maker()), S(st, []), 4, false) == Res(S(st[4 := Ordered], []), 0)
  {
    hide Order, OrderUpTo;
    MakerOk();
    MakerKinds();
    var g, c, s := Maker(), Case(Maker()), S(st, []);
    RefsAt(g[1], 0);
    RefsAt(g[2], 0);
    RefsAt(g[4], 0);
    OrderSingle(c, s, 4, false);
    OrderSingle(c, s, 2, true);
    OrderMany(c, s, 1, true);
    UpToNext(c, s, 1, true, 0);
    BehindWeak(c, s, 3);
  }

  lemma {:induction false} MakerLooped()
    ensures Sound(Case(Maker()), FRESH) && Looped(Maker(), 2)
  {
    MakerOk();
    MakerKinds();
    var g := Maker();
    var w: Walk := [(2, false), (1, false), (3, false), (4, false), (2, true)];
    assert StepAt(g, w, 0) && StepAt(g, w, 1) && StepAt(g, w, 2) && StepAt(g, w, 3);
    assert Bare(g, w, 1);
    assert LoopedBy(g, w, 2);
  }

  /** The condition for being queued twice is necessary, not sufficient: the maker's typedef has a loop and is
      queued once, because behind the pointer nothing makes the link strong. */
  lemma {:induction false} LoopedOnce()
    ensures var c := Case(Maker());
            Sound(c, FRESH) && Looped(c.g, 2) && Order(c, FRESH, 2, false).r == 1 && Order(c, FRESH, 2, false).s.q == [3, 2]
  {
    hide Order, OrderUpTo;
    MakerLooped();
    MakerKinds();
    var g, c, s1 := Maker(), Case(Maker()), S([Ordered, NotOrdered, NotOrdered, Ordering, NotOrdered], []);
    RefsAt(g[1], 0);
    RefsAt(g[2], 0);
    RefsAt(g[3], 0);
    OrderSingle(c, FRESH, 2, false);
    OrderMany(c, FRESH, 1, false);
    UpToNext(c, FRESH, 1, false, 0);
    OrderMany(c, FRESH, 3, false);
    assert Begun(g[3], 3, FRESH) == s1;
    UpToNext(c, s1, 3, false, 0);
    MakerInside(s1.st);
  }

  /** A call on a pointer to a named struct or union queues nothing: the definition a comment promises is not there. */
  lemma {:induction false} PointerOnly(c: Ctx, s: S, id: nat)
    requires Sound(c, s) && id < |c.g| && Kind(c.g[id]) == KIND_PTR && s.st[id] == NotOrdered
    requires Named(c, Ref(c.g[id], 0)) && s.st[Ref(c.g[id], 0)] != Ordered
    ensures Order(c, s, id, false) == Res(S(s.st[id := Ordered], s.q), 0)
  {
    OrderSingle(c, s, id, false);
    BehindWeak(c, s, Ref(c.g[id], 0));
  }

  /** A struct or union that is the element of an array behind a pointer must be complete all the same. */
  lemma {:induction false} ArrayBehind(c: Ctx, s: S, id: nat, a: nat, x: nat)
    requires Sound(c, s) && Closed(c, s) && id < |c.g| && a < |c.g| && x < |c.g| && Order(c, s, id, false).r >= 0
    requires Kind(c.g[id]) == KIND_PTR && Ref(c.g[id], 0) == a && Kind(c.g[a]) == KIND_ARRAY && Ref(c.g[a], 0) == x && IsComposite(c.g[x])
    ensures Order(c, s, id, false).s.st[x] == Ordered
  {
    hide Order, Closed;
    OrderMeets(c, s, id, false);
    var s2 := Order(c, s, id, false).s;
    FirstKid(c.g[id]);
    FirstKid(c.g[a]);
    MetStep(c, s2, id, false, a);
    MetStep(c, s2, a, true, x);
  }

  /** What an anonymous struct or union behind a pointer holds by value must be complete too. */
  lemma {:induction false} AnonymousBehind(c: Ctx, s: S, id: nat, u: nat, i: nat, x: nat)
    requires Sound(c, s) && Closed(c, s) && id < |c.g| && u < |c.g| && x < |c.g| && Order(c, s, id, false).r >= 0
    requires Kind(c.g[id]) == KIND_PTR && Ref(c.g[id], 0) == u && IsComposite(c.g[u]) && c.g[u].name == 0
    requires i < RefCount(c.g[u]) && Ref(c.g[u], i) == x && IsComposite(c.g[x])
    ensures Order(c, s, id, false).s.st[x] == Ordered
  {
    hide Order, Closed;
    OrderMeets(c, s, id, false);
    var s2 := Order(c, s, id, false).s;
    FirstKid(c.g[id]);
    assert Refs(c.g[u])[i] == x;
    MetStep(c, s2, id, false, u);
    MetStep(c, s2, u, true, x);
  }
}
