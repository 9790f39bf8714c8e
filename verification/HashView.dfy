/** libbpf's generic hash map: an array of bucket chains that doubles as it fills. `HashView` has the
    contents of the chains as values, and the laws of a map and of a multimap over them; `HashTable`
    has the linked entries. */
module HashView {
  import opened Common

  /** `size_t` on a 64-bit machine. */
  type u64 = x: int | 0 <= x < Pow2(64)

  /** A number of hash bits. */
  type bits = x: nat | x <= 64

  /** The product modulo the word size that `hash_bits` takes its bits from. */
  function Shuffle(h: u64): u64 {
    (h * 11400714819323198485) % Pow2(64)
  }

  function Shr(x: nat, n: nat): nat {
    if n == 0 then x else Shr(x / 2, n - 1)
  }

  /** The upper `n` bits of the shuffled hash. */
  function HashBits(h: u64, n: bits): nat {
    if n == 0 then 0 else Shr(Shuffle(h), 64 - n)
  }

  /** A right shift of an `n + k`-bit word leaves `k` bits. */
  lemma {:induction false} ShrBelow(x: nat, n: nat, k: nat)
    requires x < Pow2(n + k)
    ensures Shr(x, n) < Pow2(k)
    decreases n
  {
    if n > 0 { ShrBelow(x / 2, n - 1, k); }
  }

  /** A bucket index is below the capacity that goes with its number of bits. */
  lemma {:induction false} HashBitsBelow(h: u64, n: bits)
    ensures HashBits(h, n) < Pow2(n)
  {
    if n > 0 { ShrBelow(Shuffle(h), 64 - n, n); }
  }

  /** An equality that is an equivalence and never joins keys of different hashes. */
  ghost predicate Lawful<K(!new)>(hash: K -> u64, eq: (K, K) -> bool) {
    && (forall k :: eq(k, k))
    && (forall k, l :: eq(k, l) ==> eq(l, k))
    && (forall k, l, n :: eq(k, l) && eq(l, n) ==> eq(k, n))
    && (forall k, l :: eq(k, l) ==> hash(k) == hash(l))
  }

  type Chain<K, V> = seq<(K, V)>
  type View<K, V> = seq<seq<(K, V)>>

  /** The entries of a chain that belong to a key, in chain order. */
  function Matches<K, V>(c: Chain<K, V>, eq: (K, K) -> bool, k: K): Chain<K, V> {
    if c == [] then []
    else if eq(c[0].0, k) then [c[0]] + Matches(c[1..], eq, k)
    else Matches(c[1..], eq, k)
  }

  /** What iterating over a key's entries yields. */
  function ForKey<K, V>(v: View<K, V>, hash: K -> u64, eq: (K, K) -> bool, n: bits, k: K): Chain<K, V>
  {
    var b := HashBits(hash(k), n);
    if b < |v| then Matches(v[b], eq, k) else []
  }

  /** Every entry sits in the bucket its hash selects. */
  ghost predicate Placed<K, V>(v: View<K, V>, hash: K -> u64, n: bits)
  {
    forall b, i :: 0 <= b < |v| && 0 <= i < |v[b]| ==> HashBits(hash(v[b][i].0), n) == b
  }

  function Count<K, V>(v: View<K, V>): nat {
    if v == [] then 0 else |v[0]| + Count(v[1..])
  }

  lemma {:induction false} MatchesConcat<K(!new), V>(c: Chain<K, V>, d: Chain<K, V>, eq: (K, K) -> bool, k: K)
    ensures Matches(c + d, eq, k) == Matches(c, eq, k) + Matches(d, eq, k)
    decreases |c|
  {
    if c == [] {
      assert c + d == d;
    } else {
      assert (c + d)[0] == c[0] && (c + d)[1..] == c[1..] + d;
      MatchesConcat(c[1..], d, eq, k);
    }
  }

  lemma {:induction false} MatchesNone<K(!new), V>(c: Chain<K, V>, eq: (K, K) -> bool, k: K)
    requires forall i :: 0 <= i < |c| ==> !eq(c[i].0, k)
    ensures Matches(c, eq, k) == []
    decreases |c|
  {
    if c != [] { MatchesNone(c[1..], eq, k); }
  }

  lemma {:induction false} MatchesSplit<K(!new), V>(c: Chain<K, V>, i: nat, eq: (K, K) -> bool, k: K)
    requires i < |c|
    ensures Matches(c, eq, k) ==
              Matches(c[..i], eq, k) + if eq(c[i].0, k) then [c[i]] + Matches(c[i + 1..], eq, k) else Matches(c[i + 1..], eq, k)
  {
    assert c == c[..i] + c[i..] && c[i..][0] == c[i] && c[i..][1..] == c[i + 1..];
    MatchesConcat(c[..i], c[i..], eq, k);
  }

  /** `i` is where `hashmap_find_entry` stops. */
  ghost predicate FirstAt<K(!new), V>(c: Chain<K, V>, i: nat, eq: (K, K) -> bool, l: K) {
    i < |c| && eq(c[i].0, l) && forall j :: 0 <= j < i ==> !eq(c[j].0, l)
  }

  lemma {:induction false} FirstMatch<K(!new), V>(c: Chain<K, V>, i: nat, hash: K -> u64, eq: (K, K) -> bool, l: K, k: K)
    requires Lawful(hash, eq) && FirstAt(c, i, eq, l) && eq(l, k)
    ensures Matches(c, eq, k) == [c[i]] + Matches(c[i + 1..], eq, k)
    ensures Matches(c[..i], eq, k) == []
  {
    MatchesSplit(c, i, eq, k);
    forall j | 0 <= j < i ensures !eq(c[..i][j].0, k) { assert !eq(c[j].0, l); }
    MatchesNone(c[..i], eq, k);
  }

  /** Pushing an entry in front of its chain adds it in front of its key's entries, and of no other's. */
  lemma {:induction false} PushForKey<K(!new), V>(v: View<K, V>, hash: K -> u64, eq: (K, K) -> bool, n: bits, e: (K, V), k: K)
    requires Lawful(hash, eq) && HashBits(hash(e.0), n) < |v|
    ensures var b := HashBits(hash(e.0), n);
            ForKey(v[b := [e] + v[b]], hash, eq, n, k) ==
              (if eq(e.0, k) then [e] + ForKey(v, hash, eq, n, k) else ForKey(v, hash, eq, n, k))
  {
    var b := HashBits(hash(e.0), n);
    assert ([e] + v[b])[1..] == v[b];
  }

  /** Replacing the first entry of a key by an equal key changes that key's first entry only. */
  lemma {:induction false} SetForKey<K(!new), V>(v: View<K, V>, hash: K -> u64, eq: (K, K) -> bool, n: bits,
                                                 b: nat, i: nat, e: (K, V), k: K)
    requires Lawful(hash, eq) && b < |v| && b == HashBits(hash(e.0), n) && FirstAt(v[b], i, eq, e.0)
    ensures var was, now := ForKey(v, hash, eq, n, k), ForKey(v[b := v[b][i := e]], hash, eq, n, k);
            if eq(e.0, k) then was != [] && was[0] == v[b][i] && now == [e] + was[1..] else now == was
  {
    var c, d := v[b], v[b][i := e];
    if eq(e.0, k) {
      FirstMatch(c, i, hash, eq, e.0, k);
      FirstMatch(d, i, hash, eq, e.0, k);
    } else {
      MatchesSplit(c, i, eq, k);
      MatchesSplit(d, i, eq, k);
    }
    assert d[..i] == c[..i] && d[i + 1..] == c[i + 1..];
  }

  lemma {:induction false} RemoveMatches<K(!new), V>(c: Chain<K, V>, i: nat, hash: K -> u64, eq: (K, K) -> bool, l: K, k: K)
    requires Lawful(hash, eq) && FirstAt(c, i, eq, l)
    ensures Matches(c, eq, k) ==
              if eq(l, k) then [c[i]] + Matches(c[..i] + c[i + 1..], eq, k) else Matches(c[..i] + c[i + 1..], eq, k)
  {
    MatchesConcat(c[..i], c[i + 1..], eq, k);
    if eq(l, k) { FirstMatch(c, i, hash, eq, l, k); } else { MatchesSplit(c, i, eq, k); }
  }

  /** Removing the first entry of a key removes that key's first entry only. */
  lemma {:induction false} RemoveForKey<K(!new), V>(v: View<K, V>, hash: K -> u64, eq: (K, K) -> bool, n: bits,
                                                    b: nat, i: nat, d: Chain<K, V>, l: K, k: K)
    requires Lawful(hash, eq) && b < |v| && b == HashBits(hash(l), n) && FirstAt(v[b], i, eq, l)
    requires d == v[b][..i] + v[b][i + 1..]
    ensures var was, now := ForKey(v, hash, eq, n, k), ForKey(v[b := d], hash, eq, n, k);
            if eq(l, k) then was == [v[b][i]] + now else now == was
  {
    RemoveMatches(v[b], i, hash, eq, l, k);
  }

  /** Equal keys have the same entries. */
  lemma {:induction false} SameForKey<K(!new), V>(v: View<K, V>, hash: K -> u64, eq: (K, K) -> bool, n: bits, k: K, l: K)
    requires Lawful(hash, eq) && eq(k, l)
    ensures ForKey(v, hash, eq, n, k) == ForKey(v, hash, eq, n, l)
  {
    var b := HashBits(hash(k), n);
    if b < |v| { SameMatches(v[b], hash, eq, k, l); }
  }

  lemma {:induction false} SameMatches<K(!new), V>(c: Chain<K, V>, hash: K -> u64, eq: (K, K) -> bool, k: K, l: K)
    requires Lawful(hash, eq) && eq(k, l)
    ensures Matches(c, eq, k) == Matches(c, eq, l)
    decreases |c|
  {
    if c != [] { SameMatches(c[1..], hash, eq, k, l); }
  }

  function Reverse<T>(s: seq<T>): (r: seq<T>)
    ensures |r| == |s|
  {
    if s == [] then [] else Reverse(s[1..]) + [s[0]]
  }

  /** The chains after growing: entries are pushed, in the order of the old traversal, onto new chains. */
  function Regrown<K, V>(flat: Chain<K, V>, hash: K -> u64, n: bits, b: nat): Chain<K, V>
  {
    if flat == [] then []
    else
      var e, rest := flat[|flat| - 1], Regrown(flat[..|flat| - 1], hash, n, b);
      if HashBits(hash(e.0), n) == b then [e] + rest else rest
  }

  function Flat<K, V>(v: View<K, V>): Chain<K, V> {
    if v == [] then [] else Flat(v[..|v| - 1]) + v[|v| - 1]
  }

  lemma {:induction false} ReverseAppend<T>(s: seq<T>, x: T)
    ensures Reverse(s + [x]) == [x] + Reverse(s)
    decreases |s|
  {
    if s == [] {
      assert s + [x] == [x];
    } else {
      assert (s + [x])[1..] == s[1..] + [x];
      ReverseAppend(s[1..], x);
    }
  }

  /** A key's entries on a regrown chain are its old entries in reverse. */
  lemma {:induction false} RegrownMatches<K(!new), V>(flat: Chain<K, V>, hash: K -> u64, eq: (K, K) -> bool, n: bits, k: K)
    requires Lawful(hash, eq)
    ensures Matches(Regrown(flat, hash, n, HashBits(hash(k), n)), eq, k) == Reverse(Matches(flat, eq, k))
    decreases |flat|
  {
    if flat != [] {
      var e, f, b := flat[|flat| - 1], flat[..|flat| - 1], HashBits(hash(k), n);
      RegrownMatches(f, hash, eq, n, k);
      assert flat == f + [e];
      MatchesConcat(f, [e], eq, k);
      assert Matches([e], eq, k) == if eq(e.0, k) then [e] else [] by { assert [e][1..] == []; }
      ReverseAppend(Matches(f, eq, k), e);
      var rest := Regrown(f, hash, n, b);
      assert ([e] + rest)[1..] == rest;
      if !eq(e.0, k) { assert Matches(f, eq, k) + [] == Matches(f, eq, k); }
    }
  }

  /** All entries of a key, over all chains, are those of its own chain. */
  lemma {:induction false} FlatMatches<K(!new), V>(v: View<K, V>, m: nat, hash: K -> u64, eq: (K, K) -> bool, n: bits, k: K)
    requires Lawful(hash, eq) && Placed(v, hash, n) && m <= |v|
    ensures Matches(Flat(v[..m]), eq, k) ==
              if HashBits(hash(k), n) < m then Matches(v[HashBits(hash(k), n)], eq, k) else []
    decreases m
  {
    if m > 0 {
      var u, c := v[..m - 1], v[m - 1];
      assert v[..m][..m - 1] == u && v[..m][m - 1] == c;
      FlatMatches(v, m - 1, hash, eq, n, k);
      MatchesConcat(Flat(u), c, eq, k);
      if HashBits(hash(k), n) != m - 1 {
        forall i | 0 <= i < |c| ensures !eq(c[i].0, k) { assert HashBits(hash(v[m - 1][i].0), n) == m - 1; }
        MatchesNone(c, eq, k);
        assert Matches(Flat(u), eq, k) + [] == Matches(Flat(u), eq, k);
      } else {
        assert [] + Matches(c, eq, k) == Matches(c, eq, k);
      }
    }
  }

  lemma {:induction false} RegrownPlaced<K(!new), V>(flat: Chain<K, V>, hash: K -> u64, n: bits, b: nat)
    ensures forall i :: 0 <= i < |Regrown(flat, hash, n, b)| ==> HashBits(hash(Regrown(flat, hash, n, b)[i].0), n) == b
    decreases |flat|
  {
    if flat != [] { RegrownPlaced(flat[..|flat| - 1], hash, n, b); }
  }

  lemma {:induction false} CountUpdate<K, V>(v: View<K, V>, b: nat, c: Chain<K, V>)
    requires b < |v|
    ensures Count(v[b := c]) == Count(v) - |v[b]| + |c|
    decreases b
  {
    if b == 0 {
      assert v[b := c][1..] == v[1..];
    } else {
      assert v[b := c][1..] == v[1..][b - 1 := c];
      CountUpdate(v[1..], b - 1, c);
    }
  }

  lemma {:induction false} CountEmpty<K, V>(v: View<K, V>)
    requires forall b :: 0 <= b < |v| ==> v[b] == []
    ensures Count(v) == 0
    decreases |v|
  {
    if v != [] { CountEmpty(v[1..]); }
  }

  /** The chains `Regrown` over all the buckets of `n` bits. */
  function Rehashed<K, V>(flat: Chain<K, V>, hash: K -> u64, n: bits): (w: View<K, V>)
    ensures |w| == Pow2(n) && forall b :: 0 <= b < |w| ==> w[b] == Regrown(flat, hash, n, b)
  {
    seq(Pow2(n), b requires 0 <= b => Regrown(flat, hash, n, b))
  }

  /** Rehashing neither loses nor invents an entry. */
  lemma {:induction false} CountRehashed<K(!new), V>(flat: Chain<K, V>, hash: K -> u64, n: bits)
    ensures Count(Rehashed(flat, hash, n)) == |flat|
    decreases |flat|
  {
    if flat == [] {
      CountEmpty(Rehashed(flat, hash, n));
    } else {
      var e, f := flat[|flat| - 1], flat[..|flat| - 1];
      var w, b := Rehashed(f, hash, n), HashBits(hash(e.0), n);
      CountRehashed(f, hash, n);
      HashBitsBelow(hash(e.0), n);
      CountUpdate(w, b, [e] + w[b]);
      assert Rehashed(flat, hash, n) == w[b := [e] + w[b]];
    }
  }

  lemma {:induction false} FlatCount<K, V>(v: View<K, V>, m: nat)
    requires m <= |v|
    ensures |Flat(v[..m])| + Count(v[m..]) == Count(v)
    decreases m
  {
    if m == 0 {
      assert v[0..] == v;
    } else {
      FlatCount(v, m - 1);
      assert v[..m][..m - 1] == v[..m - 1] && v[m - 1..][1..] == v[m..];
    }
  }

  /** Growing keeps every key's entries but reverses their order: what `hashmap__find` returned first
      before a growth comes last after it. */
  lemma {:induction false} GrowReverses<K(!new), V>(v: View<K, V>, hash: K -> u64, eq: (K, K) -> bool, n: bits, n2: bits)
    requires Lawful(hash, eq) && Placed(v, hash, n) && (v == [] || |v| == Pow2(n))
    ensures var w: View<K, V> := Rehashed(Flat(v), hash, n2);
            && Placed(w, hash, n2) && Count(w) == Count(v)
            && forall k :: ForKey(w, hash, eq, n2, k) == Reverse(ForKey(v, hash, eq, n, k))
  {
    var w: View<K, V> := Rehashed(Flat(v), hash, n2);
    assert v[..|v|] == v;
    forall b | 0 <= b < |w| ensures forall i :: 0 <= i < |w[b]| ==> HashBits(hash(w[b][i].0), n2) == b {
      RegrownPlaced(Flat(v), hash, n2, b);
    }
    FlatCount(v, |v|);
    CountRehashed(Flat(v), hash, n2);
    forall k ensures ForKey(w, hash, eq, n2, k) == Reverse(ForKey(v, hash, eq, n, k)) {
      HashBitsBelow(hash(k), n);
      HashBitsBelow(hash(k), n2);
      FlatMatches(v, |v|, hash, eq, n, k);
      RegrownMatches(Flat(v), hash, eq, n2, k);
    }
  }

  datatype Strategy = Add | Set | Update | Append

  /** What an insertion of `kv` does to the entries `was` of a key; `mine` says whether it is an equal key,
      `found` whether the insertion met an entry to act on, `grew` whether the table grew first and
      `linked` whether a new entry was linked in. */
  function AfterInsert<K, V>(was: Chain<K, V>, mine: bool, s: Strategy, found: bool, grew: bool, linked: bool, kv: (K, V)): Chain<K, V>
  {
    if found then
      if mine && s != Add && was != [] then [kv] + was[1..] else was
    else
      var kept := if grew then Reverse(was) else was;
      if linked && mine then [kv] + kept else kept
  }

  /** What a deletion does to the entries of a key. */
  function AfterDelete<K, V>(was: Chain<K, V>, mine: bool): Chain<K, V> {
    if mine && was != [] then was[1..] else was
  }

  lemma {:induction false} AllRemoved<K(!new), V>(v: View<K, V>, hash: K -> u64, eq: (K, K) -> bool, n: bits,
                                                  b: nat, i: nat, d: Chain<K, V>, l: K)
    requires Lawful(hash, eq) && b < |v| && b == HashBits(hash(l), n) && FirstAt(v[b], i, eq, l)
    requires d == v[b][..i] + v[b][i + 1..]
    ensures forall k :: ForKey(v[b := d], hash, eq, n, k) == AfterDelete(ForKey(v, hash, eq, n, k), eq(l, k))
  {
    forall k ensures ForKey(v[b := d], hash, eq, n, k) == AfterDelete(ForKey(v, hash, eq, n, k), eq(l, k)) {
      RemoveForKey(v, hash, eq, n, b, i, d, l, k);
    }
  }

  function Values<K, V>(c: Chain<K, V>): (s: seq<V>)
    ensures |s| == |c| && forall i :: 0 <= i < |c| ==> s[i] == c[i].1
  {
    if c == [] then [] else [c[0].1] + Values(c[1..])
  }
}