/** The linked entries of the hash map and the operations that relink them. */
module HashTable {
  import opened Common
  import opened HashView

  const EEXIST := -17
  const ENOENT := -2
  const ENOMEM := -12
  const MIN_CAP_BITS := 2

  class Entry<K, V> {
    var key: K
    var value: V
    var next: Entry?<K, V>
    /** The table generation and bucket that own the entry, and a number that falls along its chain. */
    ghost var gen: nat
    ghost var bkt: nat
    ghost var stamp: nat

    constructor (k: K, v: V, ghost g: nat)
      ensures key == k && value == v && gen == g
    {
      key, value, gen := k, v, g;
    }
  }

  type Nodes<K, V> = seq<Entry<K, V>>

  /** Whether the allocation for growing is needed and fails; 2^61 pointers are more than can be asked for. */
  predicate Full(needed: bool, grow_ok: bool, cap_bits: bits) {
    needed && !(grow_ok && cap_bits < 60)
  }

  ghost predicate NodeOk<K, V>(c: Nodes<K, V>, i: nat, gen: nat, b: nat)
    requires i < |c|
    reads c
  {
    && c[i].gen == gen && c[i].bkt == b
    && c[i].next == (if i + 1 < |c| then c[i + 1] else null)
    && forall j :: i < j < |c| ==> c[j].stamp < c[i].stamp
  }

  /** From `head`, the next pointers run through `c` and end. */
  ghost predicate IsChain<K, V>(head: Entry?<K, V>, c: Nodes<K, V>, gen: nat, b: nat)
    reads c
  {
    && head == (if c == [] then null else c[0])
    && forall i :: 0 <= i < |c| ==> NodeOk(c, i, gen, b)
  }

  ghost predicate Holds<K(!new), V(!new)>(c: Nodes<K, V>, kv: Chain<K, V>)
    reads c
  {
    |c| == |kv| && forall i :: 0 <= i < |c| ==> (c[i].key, c[i].value) == kv[i]
  }

  ghost function NodeSet<K, V>(ch: seq<Nodes<K, V>>): set<Entry<K, V>> {
    set b, i | 0 <= b < |ch| && 0 <= i < |ch[b]| :: ch[b][i]
  }

  /** Bucket `b` heads a chain of its own holding the values of `v[b]`. */
  ghost predicate BucketOk<K(!new), V(!new)>(heads: seq<Entry?<K, V>>, ch: seq<Nodes<K, V>>, v: View<K, V>, gen: nat, b: nat)
    requires b < |heads| == |ch| == |v|
    reads ch[b]
  {
    IsChain(heads[b], ch[b], gen, b) && Holds(ch[b], v[b])
  }

  ghost predicate Chains<K(!new), V(!new)>(heads: seq<Entry?<K, V>>, ch: seq<Nodes<K, V>>, v: View<K, V>, gen: nat)
    reads NodeSet(ch)
  {
    |heads| == |ch| == |v| && forall b :: 0 <= b < |ch| ==> BucketOk(heads, ch, v, gen, b)
  }

  method PushChain<K(!new), V(!new)>(heads: array<Entry?<K, V>>, h: nat, e: Entry<K, V>, ghost c: Nodes<K, V>, ghost gen: nat)
    requires h < heads.Length && IsChain(heads[h], c, gen, h) && e !in c
    modifies heads, e`next, e`gen, e`bkt, e`stamp
    ensures IsChain(heads[h], [e] + c, gen, h) && heads[..] == old(heads[..])[h := e]
  {
    e.next := heads[h];
    e.gen, e.bkt := gen, h;
    e.stamp := if c == [] then 0 else c[0].stamp + 1;
    heads[h] := e;
    forall i | 0 <= i < |c| + 1 ensures NodeOk([e] + c, i, gen, h) {
      if i == 0 {
        assert |c| > 0 ==> old(NodeOk(c, 0, gen, h));
      } else {
        assert old(NodeOk(c, i - 1, gen, h));
      }
    }
  }

  /** `hashmap_add_entry` on a bucket. */
  method AddEntry<K(!new), V(!new)>(heads: array<Entry?<K, V>>, h: nat, e: Entry<K, V>, ghost ch: seq<Nodes<K, V>>,
                                    ghost v: View<K, V>, ghost gen: nat)
    requires Chains(heads[..], ch, v, gen) && h < heads.Length && e !in NodeSet(ch)
    modifies heads, e
    ensures Chains(heads[..], ch[h := [e] + ch[h]], v[h := [(e.key, e.value)] + v[h]], gen)
    ensures e.key == old(e.key) && e.value == old(e.value)
  {
    assert BucketOk(heads[..], ch, v, gen, h);
    assert forall b, i :: 0 <= b < |ch| && 0 <= i < |ch[b]| ==> ch[b][i] in NodeSet(ch);
    PushChain(heads, h, e, ch[h], gen);
    ghost var ch2, v2 := ch[h := [e] + ch[h]], v[h := [(e.key, e.value)] + v[h]];
    forall b | 0 <= b < |ch| && b != h ensures BucketOk(heads[..], ch2, v2, gen, b) {
      assert old(BucketOk(heads[..], ch, v, gen, b));
      forall i | 0 <= i < |ch[b]| ensures NodeOk(ch[b], i, gen, b) {
        assert old(NodeOk(ch[b], i, gen, b));
      }
    }
    assert Holds(ch2[h], v2[h]);
  }

  /** The suffix of a chain is a chain. */
  lemma {:induction false} ChainTail<K(!new), V(!new)>(head: Entry<K, V>, c: Nodes<K, V>, kv: Chain<K, V>, gen: nat, b: nat)
    requires IsChain(head, c, gen, b) && Holds(c, kv)
    ensures c != [] && head == c[0] && IsChain(head.next, c[1..], gen, b) && Holds(c[1..], kv[1..])
    ensures head !in c[1..]
  {
    assert NodeOk(c, 0, gen, b);
    forall i | 0 <= i < |c| - 1 ensures NodeOk(c[1..], i, gen, b) {
      assert NodeOk(c, i + 1, gen, b);
    }
  }

  /** Different buckets share no entry. */
  lemma {:induction false} BucketsApart<K(!new), V(!new)>(heads: seq<Entry?<K, V>>, ch: seq<Nodes<K, V>>, v: View<K, V>,
                                                          gen: nat, b: nat, c: nat)
    requires b < |ch| && c < |ch| && b != c && |heads| == |ch| == |v|
    requires BucketOk(heads, ch, v, gen, b) && BucketOk(heads, ch, v, gen, c)
    ensures forall i :: 0 <= i < |ch[b]| ==> ch[b][i] !in ch[c]
  {
    forall i | 0 <= i < |ch[b]| ensures ch[b][i] !in ch[c] {
      assert NodeOk(ch[b], i, gen, b);
      assert forall j :: 0 <= j < |ch[c]| && ch[c][j] == ch[b][i] ==> NodeOk(ch[c], j, gen, c);
    }
  }

  /** No entry is twice in the table. */
  lemma {:induction false} OnceOnly<K(!new), V(!new)>(heads: seq<Entry?<K, V>>, ch: seq<Nodes<K, V>>, v: View<K, V>,
                                                      gen: nat, h: nat, i: nat)
    requires Chains(heads, ch, v, gen) && h < |ch| && i < |ch[h]|
    ensures forall b, j :: 0 <= b < |ch| && 0 <= j < |ch[b]| && ch[b][j] == ch[h][i] ==> b == h && j == i
  {
    assert BucketOk(heads, ch, v, gen, h) && NodeOk(ch[h], i, gen, h);
    forall b, j | 0 <= b < |ch| && 0 <= j < |ch[b]| && ch[b][j] == ch[h][i] ensures b == h && j == i {
      assert BucketOk(heads, ch, v, gen, b) && NodeOk(ch[b], j, gen, b);
    }
  }

  lemma {:induction false} NodesHaveGen<K(!new), V(!new)>(heads: seq<Entry?<K, V>>, ch: seq<Nodes<K, V>>, v: View<K, V>, gen: nat)
    requires Chains(heads, ch, v, gen)
    ensures forall e :: e in NodeSet(ch) ==> e.gen == gen
  {
    forall b, i | 0 <= b < |ch| && 0 <= i < |ch[b]| ensures ch[b][i].gen == gen {
      assert BucketOk(heads, ch, v, gen, b) && NodeOk(ch[b], i, gen, b);
    }
  }

  method SetPair<K(!new), V(!new)>(e: Entry<K, V>, key: K, value: V, ghost heads: seq<Entry?<K, V>>, ghost ch: seq<Nodes<K, V>>,
                                   ghost v: View<K, V>, ghost gen: nat, ghost h: nat, ghost i: nat)
    requires Chains(heads, ch, v, gen) && h < |ch| && i < |ch[h]| == |v[h]| && e == ch[h][i]
    modifies e
    ensures Chains(heads, ch, v[h := v[h][i := (key, value)]], gen)
  {
    OnceOnly(heads, ch, v, gen, h, i);
    e.key, e.value := key, value;
    ghost var v2 := v[h := v[h][i := (key, value)]];
    forall b | 0 <= b < |ch| ensures BucketOk(heads, ch, v2, gen, b) {
      assert old(BucketOk(heads, ch, v, gen, b));
      forall j | 0 <= j < |ch[b]| ensures NodeOk(ch[b], j, gen, b) {
        assert old(NodeOk(ch[b], j, gen, b));
      }
    }
  }

  /** A chain is linked around its entry `i`. */
  ghost predicate Skips<K, V>(c: Nodes<K, V>, i: nat, gen: nat, b: nat)
    requires i < |c|
    reads c
  {
    && (forall k :: 0 <= k < |c| && k != i && k != i - 1 ==> NodeOk(c, k, gen, b))
    && (i > 0 ==> && c[i - 1].gen == gen && c[i - 1].bkt == b && c[i - 1].next == (if i + 1 < |c| then c[i + 1] else null)
                  && forall k :: i - 1 < k < |c| && k != i ==> c[k].stamp < c[i - 1].stamp)
  }

  lemma {:induction false} SkipNode<K, V>(head: Entry?<K, V>, c: Nodes<K, V>, d: Nodes<K, V>, i: nat, gen: nat, b: nat)
    requires i < |c| && Skips(c, i, gen, b) && d == c[..i] + c[i + 1..]
    requires head == if i > 0 then c[0] else if |c| > 1 then c[1] else null
    ensures IsChain(head, d, gen, b)
  {
    assert forall k :: 0 <= k < |d| ==> d[k] == if k < i then c[k] else c[k + 1];
    forall j | 0 <= j < |d| ensures NodeOk(d, j, gen, b) {
      if j != i - 1 { assert NodeOk(c, if j < i then j else j + 1, gen, b); }
    }
  }

  method UnlinkChain<K(!new), V(!new)>(heads: array<Entry?<K, V>>, prev: Entry?<K, V>, e: Entry<K, V>, h: nat,
                                       ghost c: Nodes<K, V>, ghost gen: nat, ghost i: nat)
    requires h < heads.Length && IsChain(heads[h], c, gen, h) && i < |c| && e == c[i]
    requires prev == if i == 0 then null else c[i - 1]
    modifies heads, prev, e
    ensures heads[..] == old(heads[..])[h := heads[h]] && IsChain(heads[h], c[..i] + c[i + 1..], gen, h)
    ensures forall k :: 0 <= k < |c| ==> c[k].key == old(c[k].key) && c[k].value == old(c[k].value)
  {
    assert NodeOk(c, i, gen, h) && (i > 0 ==> NodeOk(c, i - 1, gen, h));
    forall k | 0 <= k < |c| && k != i && k != i - 1 ensures c[k] != e && c[k] != prev { assert NodeOk(c, k, gen, h); }
    if prev == null {
      heads[h] := e.next;
    } else {
      prev.next := e.next;
    }
    e.next := null;
    forall k | 0 <= k < |c| && k != i && k != i - 1 ensures NodeOk(c, k, gen, h) {
      assert old(NodeOk(c, k, gen, h));
    }
    SkipNode(heads[h], c, c[..i] + c[i + 1..], i, gen, h);
  }

  method Unlink<K(!new), V(!new)>(heads: array<Entry?<K, V>>, prev: Entry?<K, V>, e: Entry<K, V>, h: nat,
                                  ghost ch: seq<Nodes<K, V>>, ghost v: View<K, V>, ghost gen: nat, ghost i: nat)
    requires Chains(heads[..], ch, v, gen) && h < heads.Length == |ch| == |v| && i < |ch[h]| == |v[h]| && e == ch[h][i]
    requires prev == if i == 0 then null else ch[h][i - 1]
    modifies heads, prev, e
    ensures Chains(heads[..], ch[h := ch[h][..i] + ch[h][i + 1..]], v[h := v[h][..i] + v[h][i + 1..]], gen)
  {
    OnceOnly(heads[..], ch, v, gen, h, i);
    if i > 0 { OnceOnly(heads[..], ch, v, gen, h, i - 1); }
    assert BucketOk(heads[..], ch, v, gen, h);
    UnlinkChain(heads, prev, e, h, ch[h], gen, i);
    ghost var ch2, v2 := ch[h := ch[h][..i] + ch[h][i + 1..]], v[h := v[h][..i] + v[h][i + 1..]];
    forall b | 0 <= b < |ch| && b != h ensures BucketOk(heads[..], ch2, v2, gen, b) {
      assert old(BucketOk(heads[..], ch, v, gen, b));
      forall j | 0 <= j < |ch[b]| ensures NodeOk(ch[b], j, gen, b) {
        assert old(NodeOk(ch[b], j, gen, b));
      }
    }
    assert Holds(ch[h], v[h]);
    assert Holds(ch2[h], v2[h]);
  }

  class HashMap<K(!new), V(!new)> {
    const hash: K -> u64
    const eq: (K, K) -> bool
    var buckets: array<Entry?<K, V>>
    var cap: nat
    var cap_bits: bits
    var sz: nat
    ghost var nodes: seq<Nodes<K, V>>
    ghost var view: View<K, V>
    ghost var gen: nat

    ghost predicate Valid()
      reads this, buckets, NodeSet(nodes)
    {
      && Lawful(hash, eq)
      && buckets.Length == cap == |view|
      && (cap == 0 ==> cap_bits == 0) && (cap != 0 ==> cap_bits >= 2 && cap == Pow2(cap_bits))
      && Chains(buckets[..], nodes, view, gen)
      && Placed(view, hash, cap_bits)
      && sz == Count(view) && 4 * sz <= 3 * cap
    }

    /** The entries of `k`, as `hashmap__for_each_key_entry` meets them. */
    ghost function Entries(k: K): Chain<K, V>
      reads this
    {
      ForKey(view, hash, eq, cap_bits, k)
    }

    constructor (hash: K -> u64, eq: (K, K) -> bool)
      requires Lawful(hash, eq)
      ensures Valid() && fresh(buckets) && this.hash == hash && this.eq == eq
      ensures cap == 0 && sz == 0 && NodeSet(nodes) == {} && forall k :: Entries(k) == []
    {
      this.hash, this.eq := hash, eq;
      buckets, cap, cap_bits, sz := new Entry?<K, V>[0], 0, 0, 0;
      nodes, view, gen := [], [], 0;
    }

    /** One entry moves to the head its hash selects among the new ones. */
    method MoveEntry(cur: Entry<K, V>, heads: array<Entry?<K, V>>, n: bits, ghost g: nat, ghost bkt: nat,
                     ghost c: Nodes<K, V>, ghost kv: Chain<K, V>, ghost done: Chain<K, V>,
                     ghost ch: seq<Nodes<K, V>>, ghost v: View<K, V>)
      returns (tmp: Entry?<K, V>, ghost ch2: seq<Nodes<K, V>>, ghost v2: View<K, V>)
      requires IsChain(cur, c, g, bkt) && Holds(c, kv)
      requires Chains(heads[..], ch, v, g + 1) && v == Rehashed(done, hash, n)
      modifies heads, cur
      ensures kv != [] && IsChain(tmp, c[1..], g, bkt) && Holds(c[1..], kv[1..])
      ensures Chains(heads[..], ch2, v2, g + 1) && v2 == Rehashed(done + [kv[0]], hash, n)
      ensures NodeSet(ch2) <= NodeSet(ch) + {cur}
    {
      ChainTail(cur, c, kv, g, bkt);
      tmp := cur.next;
      HashBitsBelow(hash(cur.key), n);
      var h := HashBits(hash(cur.key), n);
      NodesHaveGen(heads[..], ch, v, g + 1);
      assert NodeOk(c, 0, g, bkt);
      AddEntry(heads, h, cur, ch, v, g + 1);
      ch2, v2 := ch[h := [cur] + ch[h]], v[h := [(cur.key, cur.value)] + v[h]];
      assert (done + [kv[0]])[..|done|] == done;
    }

    /** The inner loop of `hashmap_grow`: the chain of one old bucket moves to the new heads. */
    method MoveBucket(head: Entry?<K, V>, heads: array<Entry?<K, V>>, n: bits, ghost g: nat, ghost bkt: nat,
                      ghost c: Nodes<K, V>, ghost kv: Chain<K, V>, ghost done: Chain<K, V>,
                      ghost ch: seq<Nodes<K, V>>, ghost v: View<K, V>)
      returns (ghost ch2: seq<Nodes<K, V>>, ghost v2: View<K, V>)
      requires IsChain(head, c, g, bkt) && Holds(c, kv)
      requires Chains(heads[..], ch, v, g + 1) && v == Rehashed(done, hash, n)
      modifies heads, c
      ensures Chains(heads[..], ch2, v2, g + 1) && v2 == Rehashed(done + kv, hash, n)
      ensures NodeSet(ch2) <= NodeSet(ch) + (set e | e in c)
    {
      var cur := head;
      ghost var rest, left, moved := c, kv, done;
      ch2, v2 := ch, v;
      while cur != null
        invariant IsChain(cur, rest, g, bkt) && Holds(rest, left)
        invariant Chains(heads[..], ch2, v2, g + 1) && v2 == Rehashed(moved, hash, n)
        invariant moved + left == done + kv
        invariant forall e :: e in rest ==> e in c
        invariant NodeSet(ch2) <= NodeSet(ch) + (set e | e in c)
        decreases |rest|
      {
        assert rest[0] in rest;
        cur, ch2, v2 := MoveEntry(cur, heads, n, g, bkt, rest, left, moved, ch2, v2);
        moved, rest, left := moved + [left[0]], rest[1..], left[1..];
      }
      assert left == [] && moved == done + kv;
    }

    /** One turn of the outer loop of `hashmap_grow`: the buckets after `bkt` are left as they were. */
    method MoveNext(bkt: nat, heads: array<Entry?<K, V>>, n: bits, ghost hs: seq<Entry?<K, V>>,
                    ghost ch: seq<Nodes<K, V>>, ghost v: View<K, V>)
      returns (ghost ch2: seq<Nodes<K, V>>, ghost v2: View<K, V>)
      requires bkt < |hs| == |nodes| == |view| && buckets[..] == hs && heads != buckets
      requires forall b :: bkt <= b < |nodes| ==> BucketOk(hs, nodes, view, gen, b)
      requires Chains(heads[..], ch, v, gen + 1) && v == Rehashed(Flat(view[..bkt]), hash, n)
      modifies heads, nodes[bkt]
      ensures forall b :: bkt < b < |nodes| ==> BucketOk(hs, nodes, view, gen, b)
      ensures Chains(heads[..], ch2, v2, gen + 1) && v2 == Rehashed(Flat(view[..bkt + 1]), hash, n)
      ensures NodeSet(ch2) <= NodeSet(ch) + NodeSet(nodes)
    {
      assert BucketOk(hs, nodes, view, gen, bkt);
      assert view[..bkt + 1][..bkt] == view[..bkt];
      forall b | bkt < b < |nodes| ensures forall i :: 0 <= i < |nodes[b]| ==> nodes[b][i] !in nodes[bkt] {
        BucketsApart(hs, nodes, view, gen, b, bkt);
      }
      ch2, v2 := MoveBucket(buckets[bkt], heads, n, gen, bkt, nodes[bkt], view[bkt], Flat(view[..bkt]), ch, v);
      forall b | bkt < b < |nodes| ensures BucketOk(hs, nodes, view, gen, b) {
        assert old(BucketOk(hs, nodes, view, gen, b));
        assert forall i :: 0 <= i < |nodes[b]| ==> nodes[b][i] !in nodes[bkt];
        forall i | 0 <= i < |nodes[b]| ensures NodeOk(nodes[b], i, gen, b) {
          assert old(NodeOk(nodes[b], i, gen, b));
        }
      }
    }

    method MoveAll(heads: array<Entry?<K, V>>, n: bits) returns (ghost ch: seq<Nodes<K, V>>)
      requires |buckets[..]| == cap == |view| && Chains(buckets[..], nodes, view, gen)
      requires heads != buckets && heads.Length == Pow2(n) && forall b :: 0 <= b < heads.Length ==> heads[b] == null
      modifies heads, NodeSet(nodes)
      ensures Chains(heads[..], ch, Rehashed(Flat(view), hash, n), gen + 1) && NodeSet(ch) <= NodeSet(nodes)
    {
      ghost var v: View<K, V> := seq(heads.Length, _ => []);
      ch := seq(heads.Length, _ => []);
      assert v == Rehashed(Flat(view[..0]), hash, n);
      ghost var hs := buckets[..];
      for bkt := 0 to cap
        invariant buckets[..] == hs && forall b :: bkt <= b < cap ==> BucketOk(hs, nodes, view, gen, b)
        invariant Chains(heads[..], ch, v, gen + 1) && v == Rehashed(Flat(view[..bkt]), hash, n)
        invariant NodeSet(ch) <= NodeSet(nodes)
      {
        ch, v := MoveNext(bkt, heads, n, hs, ch, v);
      }
      assert view[..cap] == view;
    }

    method Adopt(heads: array<Entry?<K, V>>, n: bits, ghost ch: seq<Nodes<K, V>>, ghost w: View<K, V>)
      requires Lawful(hash, eq) && n >= 2 && heads.Length == Pow2(n) == |w|
      requires Chains(heads[..], ch, w, gen + 1) && Placed(w, hash, n) && sz == Count(w) && 4 * sz <= 3 * Pow2(n)
      modifies this
      ensures Valid() && buckets == heads && cap_bits == n && view == w && nodes == ch && sz == old(sz)
    {
      cap, cap_bits, buckets := heads.Length, n, heads;
      nodes, view, gen := ch, w, gen + 1;
    }

    /** `hashmap_grow`. Every chain is rehashed into twice as many buckets, at least four; a request for
        2^61 pointers overflows and fails like any other failed allocation. */
    method Grow(ok: bool) returns (err: int)
      requires Valid()
      modifies this, buckets, NodeSet(nodes)
      ensures Valid() && NodeSet(nodes) <= old(NodeSet(nodes)) && sz == old(sz)
      ensures err == if ok && Max(old(cap_bits) + 1, MIN_CAP_BITS) < 61 then 0 else ENOMEM
      ensures err != 0 ==> view == old(view) && buckets == old(buckets) && cap_bits == old(cap_bits) && cap == old(cap)
      ensures err == 0 ==> fresh(buckets) && cap_bits == Max(old(cap_bits) + 1, MIN_CAP_BITS)
      ensures err == 0 ==> view == Rehashed(Flat(old(view)), hash, cap_bits)
      ensures err == 0 ==> forall k :: Entries(k) == Reverse(old(Entries(k)))
    {
      var new_cap_bits := Max(cap_bits + 1, MIN_CAP_BITS);
      if !ok || new_cap_bits >= 61 { return ENOMEM; }
      var new_buckets := new Entry?<K, V>[Pow2(new_cap_bits)](_ => null);
      ghost var ch := MoveAll(new_buckets, new_cap_bits);
      GrowReverses(view, hash, eq, cap_bits, new_cap_bits);
      Adopt(new_buckets, new_cap_bits, ch, Rehashed(Flat(view), hash, new_cap_bits));
      err := 0;
    }

    /** `hashmap_find_entry`: the first entry of an equal key, and the entry that points to it, if any. */
    method FindEntry(key: K, h: nat) returns (prev: Entry?<K, V>, entry: Entry?<K, V>, ghost i: nat)
      requires Valid() && h == HashBits(hash(key), cap_bits)
      ensures entry == null <==> Entries(key) == []
      ensures entry != null ==>
                && h < cap == |nodes| == |view| && FirstAt(view[h], i, eq, key) && i < |nodes[h]| == |view[h]| && entry == nodes[h][i]
                && (entry.key, entry.value) == view[h][i] == Entries(key)[0]
                && prev == if i == 0 then null else nodes[h][i - 1]
    {
      prev, entry, i := null, null, 0;
      if cap == 0 { return; }
      HashBitsBelow(hash(key), cap_bits);
      assert BucketOk(buckets[..], nodes, view, gen, h);
      ghost var c, kv := nodes[h], view[h];
      entry := buckets[h];
      while entry != null
        invariant i <= |c| && entry == (if i < |c| then c[i] else null)
        invariant prev == if i == 0 then null else c[i - 1]
        invariant forall j :: 0 <= j < i ==> !eq(kv[j].0, key)
        decreases |c| - i
      {
        assert NodeOk(c, i, gen, h);
        if eq(entry.key, key) {
          FirstMatch(kv, i, hash, eq, key, key);
          return;
        }
        prev, entry, i := entry, entry.next, i + 1;
      }
      MatchesNone(kv, eq, key);
    }

    /** The size field follows a change of the chains. */
    method Resize(n: nat, ghost ch: seq<Nodes<K, V>>, ghost w: View<K, V>)
      requires Lawful(hash, eq) && buckets.Length == cap == |w| && cap_bits >= 2 && cap == Pow2(cap_bits)
      requires Chains(buckets[..], ch, w, gen) && Placed(w, hash, cap_bits) && n == Count(w) && 4 * n <= 3 * cap
      modifies this`sz, this`nodes, this`view
      ensures Valid() && nodes == ch && view == w && sz == n
    {
      sz, nodes, view := n, ch, w;
    }

    /** The key and value of a found entry are replaced. */
    method SetEntry(e: Entry<K, V>, key: K, value: V, ghost h: nat, ghost i: nat)
      requires Valid() && h == HashBits(hash(key), cap_bits) < |nodes| == |view|
      requires FirstAt(view[h], i, eq, key) && i < |nodes[h]| && e == nodes[h][i]
      modifies this`sz, this`nodes, this`view, e
      ensures Valid() && sz == old(sz) && nodes == old(nodes)
      ensures forall k :: Entries(k) == AfterInsert(old(Entries(k)), eq(key, k), Set, true, false, false, (key, value))
    {
      assert BucketOk(buckets[..], nodes, view, gen, h);
      SetPair(e, key, value, buckets[..], nodes, view, gen, h, i);
      CountUpdate(view, h, view[h][i := (key, value)]);
      forall k { SetForKey(view, hash, eq, cap_bits, h, i, (key, value), k); }
      Resize(sz, nodes, view[h := view[h][i := (key, value)]]);
    }

    /** A new entry goes to the front of its bucket's chain. */
    method LinkEntry(h: nat, key: K, value: V)
      requires Valid() && h == HashBits(hash(key), cap_bits) < cap && 4 * (sz + 1) <= 3 * cap
      modifies this, buckets
      ensures Valid() && sz == old(sz) + 1 && view == old(view)[h := [(key, value)] + old(view)[h]]
      ensures cap_bits == old(cap_bits) && cap == old(cap) && buckets == old(buckets)
      ensures fresh(NodeSet(nodes) - old(NodeSet(nodes)))
    {
      var e := new Entry<K, V>(key, value, gen);
      AddEntry(buckets, h, e, nodes, view, gen);
      CountUpdate(view, h, [(key, value)] + view[h]);
      Resize(sz + 1, nodes[h := [e] + nodes[h]], view[h := [(key, value)] + view[h]]);
    }

    /** `hashmap_del_entry`: the pointer to the entry, in its predecessor or its bucket, skips it. */
    method UnlinkEntry(prev: Entry?<K, V>, e: Entry<K, V>, h: nat, ghost i: nat)
      requires Valid() && h < cap == |nodes| == |view| && i < |nodes[h]| == |view[h]| && e == nodes[h][i]
      requires prev == if i == 0 then null else nodes[h][i - 1]
      modifies this, buckets, prev, e
      ensures Valid() && sz == old(sz) - 1 && view == old(view)[h := old(view)[h][..i] + old(view)[h][i + 1..]]
      ensures cap_bits == old(cap_bits) && cap == old(cap) && buckets == old(buckets)
      ensures NodeSet(nodes) <= old(NodeSet(nodes))
    {
      assert BucketOk(buckets[..], nodes, view, gen, h);
      hide Lawful, HashBits, BucketOk, Pow2;
      Unlink(buckets, prev, e, h, nodes, view, gen, i);
      CountUpdate(view, h, view[h][..i] + view[h][i + 1..]);
      Resize(sz - 1, nodes[h := nodes[h][..i] + nodes[h][i + 1..]], view[h := view[h][..i] + view[h][i + 1..]]);
    }

    predicate NeedsToGrow() reads this {
      cap == 0 || (sz + 1) * 4 / 3 > cap
    }

    /** The table has room for one more entry, growing first when it is empty or too full. */
    method MakeRoom(grow_ok: bool) returns (err: int)
      requires Valid()
      modifies this, buckets, NodeSet(nodes)
      ensures Valid() && NodeSet(nodes) <= old(NodeSet(nodes)) && sz == old(sz)
      ensures err == if Full(old(NeedsToGrow()), grow_ok, old(cap_bits)) then ENOMEM else 0
      ensures err == 0 ==> cap > 0 && 4 * (sz + 1) <= 3 * cap
      ensures buckets == old(buckets) || fresh(buckets)
      ensures cap_bits == if err == 0 && old(NeedsToGrow()) then Max(old(cap_bits) + 1, MIN_CAP_BITS) else old(cap_bits)
      ensures var grew := err == 0 && old(NeedsToGrow());
              forall k :: Entries(k) == if grew then Reverse(old(Entries(k))) else old(Entries(k))
    {
      err := 0;
      if NeedsToGrow() {
        err := Grow(grow_ok);
      } else {
        assert cap > 0 && Pow2(cap_bits) == 2 * Pow2(cap_bits - 1) && Pow2(cap_bits - 1) == 2 * Pow2(cap_bits - 2);
      }
    }

    /** The part of `hashmap__insert` that links a new entry. */
    method InsertNew(key: K, value: V, grow_ok: bool, entry_ok: bool) returns (err: int)
      requires Valid()
      modifies this, buckets, NodeSet(nodes)
      ensures Valid() && err == (if Full(old(NeedsToGrow()), grow_ok, old(cap_bits)) || !entry_ok then ENOMEM else 0)
      ensures fresh(NodeSet(nodes) - old(NodeSet(nodes))) && (buckets == old(buckets) || fresh(buckets))
      ensures sz == old(sz) + if err == 0 then 1 else 0
      ensures var grew := old(NeedsToGrow()) && !Full(old(NeedsToGrow()), grow_ok, old(cap_bits));
              && cap_bits == (if grew then Max(old(cap_bits) + 1, MIN_CAP_BITS) else old(cap_bits))
              && forall k :: Entries(k) == AfterInsert(old(Entries(k)), eq(key, k), Append, false, grew, err == 0, (key, value))
    {
      err := MakeRoom(grow_ok);
      if err != 0 { return; }
      var h := HashBits(hash(key), cap_bits);
      HashBitsBelow(hash(key), cap_bits);
      if !entry_ok { return ENOMEM; }
      forall k { PushForKey(view, hash, eq, cap_bits, (key, value), k); }
      LinkEntry(h, key, value);
    }

    /** `hashmap__insert`. `old_kv` is what `old_key` and `old_value` report; `grow_ok` and `entry_ok` say
        whether the two allocations succeed. */
    method Insert(key: K, value: V, s: Strategy, grow_ok: bool, entry_ok: bool) returns (err: int, old_kv: Option<(K, V)>)
      requires Valid()
      modifies this, buckets, NodeSet(nodes)
      ensures Valid()
      ensures fresh(NodeSet(nodes) - old(NodeSet(nodes))) && (buckets == old(buckets) || fresh(buckets))
      ensures var found := s != Append && old(Entries(key)) != [];
              var full := Full(old(NeedsToGrow()), grow_ok, old(cap_bits));
              var grew := !found && s != Update && old(NeedsToGrow()) && !full;
              && err == (if found then (if s == Add then EEXIST else 0)
                         else if s == Update then ENOENT
                         else if full || !entry_ok then ENOMEM else 0)
              && old_kv == (if found then Some(old(Entries(key))[0]) else None)
              && sz == old(sz) + (if !found && err == 0 then 1 else 0)
              && cap_bits == (if grew then Max(old(cap_bits) + 1, MIN_CAP_BITS) else old(cap_bits))
              && forall k :: Entries(k) == AfterInsert(old(Entries(k)), eq(key, k), s, found, grew, err == 0, (key, value))
    {
      hide Valid, Lawful, HashBits, ForKey, Reverse, FirstAt;
      if s != Append {
        var h := HashBits(hash(key), cap_bits);
        var _, entry, i := FindEntry(key, h);
        if entry != null {
          old_kv := Some((entry.key, entry.value));
          if s == Set || s == Update {
            SetEntry(entry, key, value, h, i);
            return 0, old_kv;
          }
          return EEXIST, old_kv;
        }
      }
      old_kv := None;
      if s == Update { return ENOENT, old_kv; }
      err := InsertNew(key, value, grow_ok, entry_ok);
    }

    /** `hashmap__find`. */
    method Find(key: K) returns (r: Option<V>)
      requires Valid()
      ensures r == if Entries(key) == [] then None else Some(Entries(key)[0].1)
    {
      var _, entry, _ := FindEntry(key, HashBits(hash(key), cap_bits));
      r := if entry == null then None else Some(entry.value);
    }

    /** `hashmap__delete`. */
    method Delete(key: K) returns (old_kv: Option<(K, V)>)
      requires Valid()
      modifies this, buckets, NodeSet(nodes)
      ensures Valid() && NodeSet(nodes) <= old(NodeSet(nodes)) && buckets == old(buckets)
      ensures old_kv == if old(Entries(key)) == [] then None else Some(old(Entries(key))[0])
      ensures sz == old(sz) - if old_kv == None then 0 else 1
      ensures forall k :: Entries(k) == AfterDelete(old(Entries(k)), eq(key, k))
    {
      var h := HashBits(hash(key), cap_bits);
      var prev, entry, i := FindEntry(key, h);
      if entry == null {
        forall k | eq(key, k) { SameForKey(view, hash, eq, cap_bits, key, k); }
        return None;
      }
      old_kv := Some((entry.key, entry.value));
      AllRemoved(view, hash, eq, cap_bits, h, i, view[h][..i] + view[h][i + 1..], key);
      UnlinkEntry(prev, entry, h, i);
    }

    /** `hashmap__for_each_key_entry`: every entry of the key, and no other, in chain order. */
    method EachKeyEntry(key: K) returns (found: seq<V>)
      requires Valid()
      ensures |found| == |Entries(key)| && forall i :: 0 <= i < |found| ==> found[i] == Entries(key)[i].1
    {
      found := [];
      if cap == 0 { return; }
      var h := HashBits(hash(key), cap_bits);
      HashBitsBelow(hash(key), cap_bits);
      assert BucketOk(buckets[..], nodes, view, gen, h);
      ghost var c, kv, i := nodes[h], view[h], 0;
      var cur := buckets[h];
      assert kv[0..] == kv && Entries(key) == Matches(kv, eq, key);
      hide Valid, Entries, Lawful, HashBits, Pow2, BucketOk;
      while cur != null
        invariant i <= |c| && cur == (if i < |c| then c[i] else null)
        invariant found + Values(Matches(kv[i..], eq, key)) == Values(Matches(kv, eq, key))
        decreases |c| - i
      {
        assert NodeOk(c, i, gen, h) && kv[i..][1..] == kv[i + 1..];
        if eq(cur.key, key) { found := found + [cur.value]; }
        cur, i := cur.next, i + 1;
      }
    }
  }
}
