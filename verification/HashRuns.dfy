/** What runs of hash map operations mean: the table as an abstract map, and as a multimap. */
module HashRuns {
  import opened Common
  import opened HashView
  import opened HashTable

  /** One completed call, with what its contract in `HashTable` reports about it. */
  datatype Event<K, V> =
    | Inserted(key: K, value: V, s: Strategy, found: bool, grew: bool, linked: bool)
    | Deleted(key: K)

  /** The entries of every key before and after a call. */
  ghost predicate Stepped<K(!new), V>(f: K -> Chain<K, V>, eq: (K, K) -> bool, e: Event<K, V>, g: K -> Chain<K, V>) {
    match e
    case Inserted(key, value, s, found, grew, linked) =>
      && (found <==> s != Append && f(key) != [])
      && (linked || grew ==> !found && s != Update)
      && forall k :: g(k) == AfterInsert(f(k), eq(key, k), s, found, grew, linked, (key, value))
    case Deleted(key) =>
      forall k :: g(k) == AfterDelete(f(k), eq(key, k))
  }

  /** From an empty table, the calls `es` went through the states `fs`. */
  ghost predicate Run<K(!new), V>(fs: seq<K -> Chain<K, V>>, es: seq<Event<K, V>>, eq: (K, K) -> bool) {
    && |fs| == |es| + 1
    && if es == [] then forall k :: fs[0](k) == []
       else Run(fs[..|es|], es[..|es| - 1], eq) && Stepped(fs[|es| - 1], eq, es[|es| - 1], fs[|es|])
  }

  /** A call as a client makes it; whether allocations succeed is not up to the client. */
  datatype Op<K, V> =
    | Insert(key: K, value: V, s: Strategy, grow_ok: bool, entry_ok: bool)
    | Delete(key: K)

  /** The event reports the call `o`. */
  predicate Reports<K(==), V(==)>(e: Event<K, V>, o: Op<K, V>) {
    match o
    case Insert(key, value, s, _, _) => e.Inserted? && e.key == key && e.value == value && e.s == s
    case Delete(key) => e.Deleted? && e.key == key
  }

  /** The entries of every key now, whatever happens to the table later. */
  ghost function Snapshot<K(!new), V(!new)>(m: HashMap<K, V>): (f: K -> Chain<K, V>)
    reads m
    ensures forall k :: f(k) == m.Entries(k)
  {
    var v, n, hash, eq := m.view, m.cap_bits, m.hash, m.eq;
    k => ForKey(v, hash, eq, n, k)
  }

  lemma {:induction false} RunOn<K(!new), V>(fs: seq<K -> Chain<K, V>>, es: seq<Event<K, V>>, eq: (K, K) -> bool,
                                             e: Event<K, V>, g: K -> Chain<K, V>)
    requires Run(fs, es, eq) && Stepped(fs[|es|], eq, e, g)
    ensures Run(fs + [g], es + [e], eq)
  {
    assert (fs + [g])[..|es| + 1] == fs && (es + [e])[..|es|] == es;
  }

  /** One call of the class does what a step of a run says. */
  method DoOp<K(!new, ==), V(!new, ==)>(m: HashMap<K, V>, o: Op<K, V>) returns (ghost e: Event<K, V>)
    requires m.Valid()
    modifies m, m.buckets, NodeSet(m.nodes)
    ensures m.Valid() && fresh(NodeSet(m.nodes) - old(NodeSet(m.nodes))) && (m.buckets == old(m.buckets) || fresh(m.buckets))
    ensures Reports(e, o) && Stepped(old(Snapshot(m)), m.eq, e, Snapshot(m))
  {
    match o
    case Insert(key, value, s, grow_ok, entry_ok) =>
      ghost var found := s != Append && m.Entries(key) != [];
      ghost var grew := !found && s != Update && m.NeedsToGrow() && !Full(m.NeedsToGrow(), grow_ok, m.cap_bits);
      var err, _ := m.Insert(key, value, s, grow_ok, entry_ok);
      e := Inserted(key, value, s, found, grew, !found && err == 0);
    case Delete(key) =>
      var _ := m.Delete(key);
      e := Deleted(key);
  }

  /** Any calls on an empty table form a run. */
  method DoOps<K(!new, ==), V(!new, ==)>(m: HashMap<K, V>, ops: seq<Op<K, V>>)
    returns (ghost fs: seq<K -> Chain<K, V>>, ghost es: seq<Event<K, V>>)
    requires m.Valid() && forall k :: m.Entries(k) == []
    modifies m, m.buckets, NodeSet(m.nodes)
    ensures m.Valid() && Run(fs, es, m.eq) && forall k :: m.Entries(k) == fs[|es|](k)
    ensures |es| == |ops| && forall i :: 0 <= i < |ops| ==> Reports(es[i], ops[i])
  {
    fs, es := [Snapshot(m)], [];
    for i := 0 to |ops|
      invariant m.Valid() && fresh(NodeSet(m.nodes) - old(NodeSet(m.nodes))) && (m.buckets == old(m.buckets) || fresh(m.buckets))
      invariant |es| == i && Run(fs, es, m.eq) && fs[i] == Snapshot(m)
      invariant forall j :: 0 <= j < i ==> Reports(es[j], ops[j])
    {
      ghost var e := DoOp(m, ops[i]);
      RunOn(fs, es, m.eq, e, Snapshot(m));
      fs, es := fs + [Snapshot(m)], es + [e];
    }
  }

  /** The call wrote `e.value` for the keys equal to `k`. */
  predicate Writes<K, V>(e: Event<K, V>, eq: (K, K) -> bool, k: K) {
    e.Inserted? && eq(e.key, k) && (e.linked || (e.found && e.s != Add))
  }

  /** The abstract map: the latest write or deletion of an equal key decides. */
  function Lookup<K, V>(es: seq<Event<K, V>>, eq: (K, K) -> bool, k: K): Option<(K, V)> {
    if es == [] then None
    else
      var e, rest := es[|es| - 1], es[..|es| - 1];
      if Writes(e, eq, k) then Some((e.key, e.value))
      else if e.Deleted? && eq(e.key, k) then None
      else Lookup(rest, eq, k)
  }

  function Content<K, V>(o: Option<(K, V)>): Chain<K, V> {
    if o == None then [] else [o.value]
  }

  /** Used without appending, the table is a map: every key has at most one entry, and it is what the
      latest call for an equal key left, across all growths and failed allocations. */
  lemma {:induction false} RunIsMap<K(!new), V>(fs: seq<K -> Chain<K, V>>, es: seq<Event<K, V>>, hash: K -> u64,
                                                eq: (K, K) -> bool, k: K)
    requires Lawful(hash, eq) && Run(fs, es, eq)
    requires forall e :: e in es && e.Inserted? ==> e.s != Append
    ensures fs[|es|](k) == Content(Lookup(es, eq, k))
    decreases |es|
  {
    if es != [] {
      var n := |es| - 1;
      RunIsMap(fs[..|es|], es[..n], hash, eq, k);
      var e := es[n];
      assert fs[..|es|][n] == fs[n];
      if eq(e.key, k) {
        RunIsMap(fs[..|es|], es[..n], hash, eq, e.key);
        LookupSame(es[..n], hash, eq, e.key, k);
      }
      ReverseShort(fs[n](k));
    }
  }

  lemma {:induction false} ReverseShort<T>(s: seq<T>)
    requires |s| <= 1
    ensures Reverse(s) == s
  {
    if s != [] { assert Reverse(s[1..]) == []; }
  }

  lemma {:induction false} LookupSame<K(!new), V>(es: seq<Event<K, V>>, hash: K -> u64, eq: (K, K) -> bool, k: K, l: K)
    requires Lawful(hash, eq) && eq(k, l)
    ensures Lookup(es, eq, k) == Lookup(es, eq, l)
    decreases |es|
  {
    if es != [] { LookupSame(es[..|es| - 1], hash, eq, k, l); }
  }

  /** Everything ever appended for keys equal to `k`. */
  ghost function Appended<K, V>(es: seq<Event<K, V>>, eq: (K, K) -> bool, k: K): multiset<(K, V)> {
    if es == [] then multiset{}
    else
      var e, rest := es[|es| - 1], Appended(es[..|es| - 1], eq, k);
      if Writes(e, eq, k) then rest + multiset{(e.key, e.value)} else rest
  }

  lemma {:induction false} ReverseMultiset<T>(s: seq<T>)
    ensures multiset(Reverse(s)) == multiset(s)
    decreases |s|
  {
    if s != [] {
      ReverseMultiset(s[1..]);
      assert s == [s[0]] + s[1..];
    }
  }

  /** Used with appends only, the table is a multimap: iterating over a key yields everything appended for
      it, as often as it was appended, across all growths. */
  lemma {:induction false} RunIsMultimap<K(!new), V>(fs: seq<K -> Chain<K, V>>, es: seq<Event<K, V>>, eq: (K, K) -> bool, k: K)
    requires Run(fs, es, eq) && forall e :: e in es ==> e.Inserted? && e.s == Append
    ensures multiset(fs[|es|](k)) == Appended(es, eq, k)
    decreases |es|
  {
    if es != [] {
      RunIsMultimap(fs[..|es|], es[..|es| - 1], eq, k);
      ReverseMultiset(fs[|es| - 1](k));
    }
  }

  /** The values appended for keys equal to `k`, by the calls that succeeded. */
  function AppendedFor<K, V>(kvs: seq<(K, V)>, errs: seq<int>, eq: (K, K) -> bool, k: K): multiset<V>
    requires |kvs| == |errs|
  {
    if kvs == [] then multiset{}
    else
      var n := |kvs| - 1;
      var rest := AppendedFor(kvs[..n], errs[..n], eq, k);
      if errs[n] == 0 && eq(kvs[n].0, k) then rest + multiset{kvs[n].1} else rest
  }

  lemma {:induction false} AppendedOn<K, V>(kvs: seq<(K, V)>, errs: seq<int>, eq: (K, K) -> bool, k: K, n: nat, err: int)
    requires n < |kvs| && |errs| == n
    ensures AppendedFor(kvs[..n + 1], errs + [err], eq, k) ==
            AppendedFor(kvs[..n], errs, eq, k) + if err == 0 && eq(kvs[n].0, k) then multiset{kvs[n].1} else multiset{}
  {
    assert kvs[..n + 1][..n] == kvs[..n] && (errs + [err])[..n] == errs;
  }

  lemma {:induction false} ValuesAfter<K, V>(was: Chain<K, V>, mine: bool, grew: bool, linked: bool, kv: (K, V))
    ensures multiset(Values(AfterInsert(was, mine, Append, false, grew, linked, kv))) ==
            multiset(Values(was)) + if linked && mine then multiset{kv.1} else multiset{}
  {
    ReverseValues(was);
    ReverseMultiset(Values(was));
    var kept := if grew then Reverse(was) else was;
    assert ([kv] + kept)[1..] == kept;
  }

  /** One append, and what it adds for the keys equal to `k`. */
  method AppendKv<K(!new, ==), V(!new, ==)>(m: HashMap<K, V>, kv: (K, V), grow_ok: bool, entry_ok: bool, ghost k: K) returns (err: int)
    requires m.Valid()
    modifies m, m.buckets, NodeSet(m.nodes)
    ensures m.Valid()
    ensures fresh(NodeSet(m.nodes) - old(NodeSet(m.nodes))) && (m.buckets == old(m.buckets) || fresh(m.buckets))
    ensures multiset(Values(m.Entries(k))) ==
            multiset(Values(old(m.Entries(k)))) + if err == 0 && m.eq(kv.0, k) then multiset{kv.1} else multiset{}
  {
    hide HashMap.Valid, HashMap.Entries, AfterInsert, Lawful;
    ghost var was, grew := m.Entries(k), m.NeedsToGrow() && !Full(m.NeedsToGrow(), grow_ok, m.cap_bits);
    var old_kv;
    err, old_kv := m.Insert(kv.0, kv.1, Append, grow_ok, entry_ok);
    ValuesAfter(was, m.eq(kv.0, k), grew, err == 0, kv);
  }

  /** Appends to an empty table, whether allocations succeed or not, and an iteration over `k`: it meets every value
      appended for an equal key, as often as it was appended. */
  method IterateAppended<K(!new, ==), V(!new, ==)>(hash: K -> u64, eq: (K, K) -> bool, kvs: seq<(K, V)>, oks: seq<(bool, bool)>, k: K)
    returns (errs: seq<int>, found: seq<V>)
    requires Lawful(hash, eq) && |oks| == |kvs|
    ensures |errs| == |kvs| && multiset(found) == AppendedFor(kvs, errs, eq, k)
  {
    hide HashMap.Valid, HashMap.Entries, AfterInsert, Lawful;
    var m := new HashMap<K, V>(hash, eq);
    errs := [];
    for i := 0 to |kvs|
      invariant m.Valid() && fresh(m) && fresh(m.buckets) && fresh(NodeSet(m.nodes)) && m.eq == eq
      invariant |errs| == i && multiset(Values(m.Entries(k))) == AppendedFor(kvs[..i], errs, eq, k)
    {
      var err := AppendKv(m, kvs[i], oks[i].0, oks[i].1, k);
      AppendedOn(kvs, errs, eq, k, i, err);
      errs := errs + [err];
    }
    assert kvs[..|kvs|] == kvs;
    found := m.EachKeyEntry(k);
    assert found == Values(m.Entries(k));
  }

  lemma {:induction false} ReverseValues<K, V>(c: Chain<K, V>)
    ensures Values(Reverse(c)) == Reverse(Values(c))
    decreases |c|
  {
    if c != [] {
      ReverseValues(c[1..]);
      ValuesEnd(Reverse(c[1..]), c[0]);
    }
  }

  lemma {:induction false} ValuesEnd<K, V>(c: Chain<K, V>, e: (K, V))
    ensures Values(c + [e]) == Values(c) + [e.1]
  {
  }

  /** How often the table grew in the calls from `m` on. */
  function Growths<K, V>(es: seq<Event<K, V>>, m: nat): nat {
    if |es| <= m then 0 else Growths(es[..|es| - 1], m) + if es[|es| - 1].Inserted? && es[|es| - 1].grew then 1 else 0
  }

  lemma {:induction false} ReverseTwice<T>(s: seq<T>)
    ensures Reverse(Reverse(s)) == s
    decreases |s|
  {
    if s != [] {
      ReverseTwice(s[1..]);
      ReverseAppend(Reverse(s[1..]), s[0]);
    }
  }

  /** While no entry of a key is written, growths are all that happens to its chain: its order flips with each. */
  lemma {:induction false} OrderFlips<K(!new), V>(fs: seq<K -> Chain<K, V>>, es: seq<Event<K, V>>, eq: (K, K) -> bool, k: K, m: nat)
    requires Run(fs, es, eq) && m <= |es|
    requires forall e :: e in es ==> e.Inserted? && e.s == Append
    requires forall i :: m <= i < |es| ==> !Writes(es[i], eq, k)
    ensures fs[|es|](k) == if Growths(es, m) % 2 == 0 then fs[m](k) else Reverse(fs[m](k))
    decreases |es|
  {
    if m < |es| {
      var n := |es| - 1;
      var gs, ds := fs[..|es|], es[..n];
      assert forall i :: m <= i < n ==> ds[i] == es[i];
      OrderFlips(gs, ds, eq, k, m);
      assert gs[n] == fs[n] && gs[m] == fs[m];
      assert es[n] in es && !Writes(es[n], eq, k);
      ReverseTwice(fs[m](k));
    }
  }

  lemma {:induction false} ReverseFirst<T>(s: seq<T>)
    requires s != []
    ensures Reverse(s)[0] == s[|s| - 1]
    decreases |s|
  {
    if |s| > 1 { ReverseFirst(s[1..]); }
  }

  lemma {:induction false} RunStep<K(!new), V>(fs: seq<K -> Chain<K, V>>, es: seq<Event<K, V>>, eq: (K, K) -> bool, m: nat)
    requires Run(fs, es, eq) && m < |es|
    ensures Stepped(fs[m], eq, es[m], fs[m + 1])
    decreases |es|
  {
    if m < |es| - 1 { RunStep(fs[..|es|], es[..|es| - 1], eq, m); }
  }

  /** `hashmap__find` returns the entry appended last (event `m`) exactly if the table has grown an even number
      of times since, or that entry equals the one at the far end of its chain. */
  lemma {:induction false} FindsLastAppended<K(!new), V>(fs: seq<K -> Chain<K, V>>, es: seq<Event<K, V>>, eq: (K, K) -> bool, k: K, m: nat)
    requires Run(fs, es, eq) && m < |es|
    requires forall e :: e in es ==> e.Inserted? && e.s == Append
    requires Writes(es[m], eq, k) && forall i :: m < i < |es| ==> !Writes(es[i], eq, k)
    ensures fs[|es|](k) != [] && fs[m + 1](k) != []
    ensures fs[|es|](k)[0] == (es[m].key, es[m].value) <==>
              || Growths(es, m + 1) % 2 == 0
              || fs[m + 1](k)[|fs[m + 1](k)| - 1] == (es[m].key, es[m].value)
  {
    RunStep(fs, es, eq, m);
    OrderFlips(fs, es, eq, k, m + 1);
    ReverseFirst(fs[m + 1](k));
  }

  /** An append that succeeds, to a table whose keys are equal only to themselves. */
  method AppendOne<V(!new, ==)>(m: HashMap<int, V>, k: int, v: V)
    requires m.Valid() && m.cap_bits < 4 && forall a, b :: m.eq(a, b) <==> a == b
    modifies m, m.buckets, NodeSet(m.nodes)
    ensures m.Valid() && m.sz == old(m.sz) + 1
    ensures fresh(NodeSet(m.nodes) - old(NodeSet(m.nodes))) && (m.buckets == old(m.buckets) || fresh(m.buckets))
    ensures m.cap_bits == if old(m.NeedsToGrow()) then Max(old(m.cap_bits) + 1, 2) else old(m.cap_bits)
    ensures forall x :: m.Entries(x) ==
              (if x == k then [(k, v)] else []) + if old(m.NeedsToGrow()) then Reverse(old(m.Entries(x))) else old(m.Entries(x))
  {
    hide HashMap.Valid, Reverse;
    var _, _ := m.Insert(k, v, Append, true, true);
  }

  lemma {:induction false} CapOf<V(!new)>(m: HashMap<int, V>)
    requires m.Valid()
    ensures m.cap == if m.cap_bits == 0 then 0 else Pow2(m.cap_bits)
    ensures Pow2(2) == 4
  {
    hide Chains, Placed, Lawful;
    assert Pow2(2) == 2 * Pow2(1) && Pow2(1) == 2 * Pow2(0);
  }

  /** Where the promise fails: the fourth append to an empty table makes it grow, and the lookup finds the entry
      of `k` that was appended first, whatever the keys hash to. */
  method FirstAppendedFound<V(!new, ==)>(hash: int -> u64, k: int, j: int, v1: V, v2: V, w1: V, w2: V) returns (r: Option<V>)
    requires k != j
    ensures r == Some(v1)
  {
    var m := ThreeAppended(hash, k, j, v1, v2, w1);
    hide HashMap.Valid;
    CapOf(m);
    AppendOne(m, j, w2);
    assert Reverse([(k, v2), (k, v1)]) == [(k, v1), (k, v2)];
    r := m.Find(k);
  }

  /** Three appends to an empty table, the first two with the same key. */
  method ThreeAppended<V(!new, ==)>(hash: int -> u64, k: int, j: int, v1: V, v2: V, w1: V) returns (m: HashMap<int, V>)
    requires k != j
    ensures m.Valid() && fresh(m) && fresh(m.buckets) && fresh(NodeSet(m.nodes)) && m.cap_bits == 2 && m.sz == 3
    ensures (forall a, b :: m.eq(a, b) <==> a == b) && m.Entries(k) == [(k, v2), (k, v1)]
  {
    m := new HashMap<int, V>(hash, (a, b) => a == b);
    hide HashMap.Valid, HashMap.Entries, Reverse;
    CapOf(m);
    AppendOne(m, k, v1);
    CapOf(m);
    AppendOne(m, k, v2);
    CapOf(m);
    AppendOne(m, j, w1);
  }
}
