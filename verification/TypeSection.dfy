/** The type section of a `struct btf`: one buffer of words, an index of record offsets
    (`type_offs`, counted here in words of four bytes), and the operations that change the
    buffer in place: overwriting one reference, and the compaction of BTF deduplication. */
module TypeSection {
  import opened Common
  import opened BtfTypes

  function Len(t: Rec): nat { 3 + |t.rest| }

  /** Record `t` lies in the buffer from offset `off` on. */
  ghost predicate At(d: seq<u32>, off: nat, t: Rec) {
    off + Len(t) <= |d| && forall i :: off <= i < off + Len(t) ==> d[i] == Word(t, i - off)
  }

  /** Where record `i` starts when records 1, 2, ... lie end to end; at `|ts|`, where they end. */
  ghost function SecOff(ts: seq<Rec>, i: nat): nat
    requires i <= |ts|
  {
    if i <= 1 then 0 else SecOff(ts, i - 1) + Len(ts[i - 1])
  }

  lemma {:induction false} SecOffMonotone(ts: seq<Rec>, i: nat, j: nat)
    requires 0 < i < j <= |ts|
    ensures SecOff(ts, i) + Len(ts[i]) <= SecOff(ts, j)
    decreases j
  {
    if i + 1 < j { SecOffMonotone(ts, i, j - 1); }
  }

  /** The self-mapped ids among 1, ..., k - 1, in increasing order. */
  ghost function Survivors(m: seq<u32>, k: nat): seq<nat>
    requires k <= |m|
  {
    if k <= 1 then []
    else if m[k - 1] == k - 1 then Survivors(m, k - 1) + [k - 1]
    else Survivors(m, k - 1)
  }

  /** New ids number the survivors densely from 1 and keep their order. */
  lemma {:induction false} SurvivorsSorted(m: seq<u32>, k: nat)
    requires k <= |m|
    ensures var s := Survivors(m, k);
            && (k > 0 ==> |s| < k)
            && (forall i :: 0 <= i < |s| ==> 1 <= s[i] < k && m[s[i]] == s[i])
            && (forall i, j :: 0 <= i < j < |s| ==> s[i] < s[j])
            && (forall x :: 1 <= x < k && m[x] == x ==> x in s)
    decreases k
  {
    if k > 1 {
      SurvivorsSorted(m, k - 1);
      assert k - 1 in [k - 1];
    }
  }

  lemma {:induction false} SurvivorsPrefix(m: seq<u32>, j: nat, k: nat)
    requires j <= k <= |m|
    ensures Survivors(m, j) <= Survivors(m, k)
    decreases k
  {
    if j < k { SurvivorsPrefix(m, j, k - 1); }
  }

  /** The records that stay, without gaps, void still at 0. */
  ghost function Compacted(ts: seq<Rec>, m: seq<u32>, k: nat): (us: seq<Rec>)
    requires 1 <= k <= |m| == |ts|
    ensures |us| == |Survivors(m, k)| + 1 <= k
  {
    SurvivorsSorted(m, k);
    var s := Survivors(m, k);
    seq(|s| + 1, i requires 0 <= i <= |s| => if i == 0 then VOID else ts[s[i - 1]])
  }

  /** Record `i` of `ts` lies where records 1, ..., i - 1 end. */
  ghost predicate RecAt(d: seq<u32>, ts: seq<Rec>, i: nat)
    requires i < |ts|
  {
    At(d, SecOff(ts, i), ts[i])
  }

  /** Records 1, 2, ... of `ts` lie end to end from the start of `d`. */
  ghost predicate Laid(d: seq<u32>, ts: seq<Rec>) {
    forall i :: 0 < i < |ts| ==> RecAt(d, ts, i)
  }

  lemma {:induction false} LaidHere(d: seq<u32>, ts: seq<Rec>, i: nat)
    requires Laid(d, ts) && 0 < i < |ts|
    ensures At(d, SecOff(ts, i), ts[i])
  {
    assert RecAt(d, ts, i);
  }

  /** The records of `ts` are well-formed, fill the front of `d` end to end, and end below 4 GiB. */
  ghost predicate Packed(d: seq<u32>, ts: seq<Rec>) {
    && |ts| >= 1 && ts[0] == VOID
    && (forall i :: 0 <= i < |ts| ==> WF(ts[i]))
    && SecOff(ts, |ts|) <= |d| && SecOff(ts, |ts|) < 0x1_0000_0000
    && Laid(d, ts)
  }

  lemma {:induction false} SecOffUpdate(ts: seq<Rec>, id: nat, u: Rec, j: nat)
    requires j <= |ts| && id < |ts| && |u.rest| == |ts[id].rest|
    ensures SecOff(ts[id := u], j) == SecOff(ts, j)
    decreases j
  {
    if j > 1 { SecOffUpdate(ts, id, u, j - 1); }
  }

  /** A word of record `id` is no word of record `j`. */
  lemma {:induction false} WordsApart(ts: seq<Rec>, id: nat, w: nat, j: nat)
    requires 0 < id < |ts| && w < Len(ts[id]) && 0 < j < |ts| && j != id
    ensures var q, p := SecOff(ts, id) + w, SecOff(ts, j);
            q < p || p + Len(ts[j]) <= q
  {
    if j < id { SecOffMonotone(ts, j, id); } else { SecOffMonotone(ts, id, j); }
  }

  lemma {:induction false} RecAtPut(d: seq<u32>, ts: seq<Rec>, id: nat, w: nat, v: u32, j: nat, q: nat, e: seq<u32>)
    requires 0 < id < |ts| && 2 <= w < Len(ts[id]) && 0 < j < |ts| && RecAt(d, ts, j)
    requires q == SecOff(ts, id) + w && q < |d| && e == d[q := v]
    ensures RecAt(e, ts[id := SetWord(ts[id], w, v)], j)
  {
    var u := SetWord(ts[id], w, v);
    SecOffUpdate(ts, id, u, j);
    if j != id { WordsApart(ts, id, w, j); }
  }

  /** Overwriting a word inside record `id` leaves every other record where and as it is. */
  lemma {:induction false} LaidPut(d: seq<u32>, ts: seq<Rec>, id: nat, w: nat, v: u32, q: nat)
    requires Laid(d, ts) && 0 < id < |ts| && 2 <= w < Len(ts[id])
    requires q == SecOff(ts, id) + w
    ensures q < |d| && Laid(d[q := v], ts[id := SetWord(ts[id], w, v)])
  {
    assert RecAt(d, ts, id);
    var e, us := d[q := v], ts[id := SetWord(ts[id], w, v)];
    forall j | 0 < j < |us| ensures RecAt(e, us, j) {
      assert RecAt(d, ts, j);
      RecAtPut(d, ts, id, w, v, j, q, e);
    }
  }

  lemma {:induction false} SecOffAppend(us: seq<Rec>, t: Rec, j: nat)
    requires j <= |us|
    ensures SecOff(us + [t], j) == SecOff(us, j)
    decreases j
  {
    if j > 1 { SecOffAppend(us, t, j - 1); }
  }

  lemma {:induction false} RecAtAppend(d: seq<u32>, e: seq<u32>, us: seq<Rec>, t: Rec, j: nat, q: nat)
    requires 0 < j < |us| && RecAt(d, us, j) && q == SecOff(us, |us|)
    requires q <= |d| == |e| && forall w :: 0 <= w < q ==> e[w] == d[w]
    ensures RecAt(e, us + [t], j)
  {
    SecOffAppend(us, t, j);
    SecOffMonotone(us, j, |us|);
  }

  /** Laying one more record down right after the last one. */
  lemma {:induction false} LaidAppend(d: seq<u32>, e: seq<u32>, us: seq<Rec>, t: Rec, q: nat)
    requires |us| >= 1 && Laid(d, us) && q == SecOff(us, |us|)
    requires At(e, q, t) && q <= |d| == |e| && forall w :: 0 <= w < q ==> e[w] == d[w]
    ensures Laid(e, us + [t])
  {
    SecOffAppend(us, t, |us|);
    forall j | 0 < j < |us| + 1 ensures RecAt(e, us + [t], j) {
      if j < |us| {
        assert RecAt(d, us, j);
        RecAtAppend(d, e, us, t, j, q);
      }
    }
  }

  /** The state of the compaction before record `id` is looked at: the survivors found so far lie
      compacted in front, and the records and offsets from `id` on have not been touched. */
  ghost predicate Slid(ts: seq<Rec>, d0: seq<u32>, m: seq<u32>, id: nat, d: seq<u32>, offs: seq<u32>, p: nat)
    requires 1 <= id <= |ts| == |m|
  {
    var us := Compacted(ts, m, id);
    && |ts| - 1 <= |offs| && |d| == |d0|
    && p == SecOff(us, |us|) <= SecOff(ts, id) <= |d|
    && Laid(d, us)
    && (forall i :: 1 <= i < |us| ==> offs[i - 1] == SecOff(us, i))
    && (forall i :: id <= i < |ts| ==> offs[i - 1] == SecOff(ts, i))
    && (forall w :: SecOff(ts, id) <= w < |d| ==> d[w] == d0[w])
  }

  lemma {:induction false} SlidStart(ts: seq<Rec>, m: seq<u32>, d: seq<u32>, offs: seq<u32>)
    requires |ts| == |m| && Packed(d, ts) && |ts| - 1 <= |offs| && forall i :: 1 <= i < |ts| ==> offs[i - 1] == SecOff(ts, i)
    ensures Slid(ts, d, m, 1, d, offs, 0)
  {
  }

  lemma {:induction false} SlidSkip(ts: seq<Rec>, d0: seq<u32>, m: seq<u32>, id: nat,
                                    d: seq<u32>, offs: seq<u32>, p: nat)
    requires 1 <= id < |ts| == |m| && Slid(ts, d0, m, id, d, offs, p) && Packed(d0, ts) && m[id] != id
    ensures Slid(ts, d0, m, id + 1, d, offs, p)
  {
    SecOffMonotone(ts, id, |ts|);
    assert Compacted(ts, m, id + 1) == Compacted(ts, m, id);
  }

  /** The index after one more record has been laid down. */
  lemma {:induction false} OffsAppend(us: seq<Rec>, vs: seq<Rec>, t: Rec, offs: seq<u32>, f: seq<u32>, p: u32)
    requires |us| >= 1 && vs == us + [t] && |us| - 1 < |offs| && p == SecOff(us, |us|) && f == offs[|us| - 1 := p]
    requires forall i :: 1 <= i < |us| ==> offs[i - 1] == SecOff(us, i)
    ensures forall i :: 1 <= i < |vs| ==> f[i - 1] == SecOff(vs, i)
    ensures SecOff(vs, |vs|) == p + Len(t)
  {
    forall i | 1 <= i < |vs| ensures f[i - 1] == SecOff(vs, i) {
      SecOffAppend(us, t, i);
      if i < |us| { assert offs[i - 1] == SecOff(us, i); }
    }
    SecOffAppend(us, t, |us|);
  }

  lemma {:induction false} CompactedStep(ts: seq<Rec>, m: seq<u32>, id: nat)
    requires 1 <= id < |ts| == |m| && m[id] == id
    ensures Compacted(ts, m, id + 1) == Compacted(ts, m, id) + [ts[id]]
  {
    assert Compacted(ts, m, id + 1) == Compacted(ts, m, id) + [ts[id]];
  }

  lemma {:induction false} AtMove(d: seq<u32>, e: seq<u32>, o: nat, p: nat, t: Rec)
    requires At(d, o, t) && p + Len(t) <= |e| && forall w :: p <= w < p + Len(t) ==> e[w] == d[w - p + o]
    ensures At(e, p, t)
  {
  }

  lemma {:induction false} SlidMove(ts: seq<Rec>, d0: seq<u32>, m: seq<u32>, id: nat, d: seq<u32>, offs: seq<u32>,
                                    p: u32, e: seq<u32>, f: seq<u32>, o: nat, len: nat)
    requires 1 <= id < |ts| == |m| && Slid(ts, d0, m, id, d, offs, p) && m[id] == id && Packed(d0, ts) && |e| == |d|
    requires o == SecOff(ts, id) && len == Len(ts[id]) && o + len <= |d|
    requires forall w :: p <= w < p + len ==> e[w] == d[w - p + o]
    requires forall w :: 0 <= w < |d| && !(p <= w < p + len) ==> e[w] == d[w]
    requires var n := |Survivors(m, id)|; n < id && n < |offs| && f == offs[n := p]
    ensures Slid(ts, d0, m, id + 1, e, f, p + len)
  {
    hide Compacted, Laid, At;
    var t, us, vs := ts[id], Compacted(ts, m, id), Compacted(ts, m, id + 1);
    CompactedStep(ts, m, id);
    assert Laid(e, vs) by {
      LaidHere(d0, ts, id);
      AtMove(d0, e, o, p, t);
      LaidAppend(d, e, us, t, p);
    }
    OffsAppend(us, vs, t, offs, f, p);
  }

  lemma {:induction false} SlidDone(ts: seq<Rec>, d0: seq<u32>, m: seq<u32>, d: seq<u32>, offs: seq<u32>, p: u32)
    requires |ts| == |m| && Packed(d0, ts) && Slid(ts, d0, m, |ts|, d, offs, p)
    ensures var us := Compacted(ts, m, |ts|);
            && Packed(d, us) && p == SecOff(us, |us|)
            && forall i :: 0 < i < |us| ==> offs[i - 1] == SecOff(us, i)
  {
    SurvivorsSorted(m, |ts|);
  }

  /** `new_id` numbers the survivors below `id` and marks all other ids. */
  ghost predicate Renumbered(m: seq<u32>, id: nat, new_id: seq<u32>)
    requires 1 <= id <= |m| == |new_id|
  {
    var s := Survivors(m, id);
    && new_id[0] == 0
    && (forall i :: 0 <= i < |s| ==> 1 <= s[i] < id && new_id[s[i]] == i + 1)
    && (forall x :: 1 <= x < |m| && (x >= id || m[x] != x) ==> new_id[x] == UNPROCESSED)
  }

  lemma {:induction false} RenumberedStart(m: seq<u32>, new_id: seq<u32>)
    requires |m| == |new_id| >= 1 && new_id[0] == 0 && forall x :: 1 <= x < |m| ==> new_id[x] == UNPROCESSED
    ensures Renumbered(m, 1, new_id)
  {
  }

  lemma {:induction false} RenumberedStep(m: seq<u32>, id: nat, a: seq<u32>, b: seq<u32>)
    requires 1 <= id < |m| == |a| && |m| <= BTF_MAX_NR_TYPES + 1 && Renumbered(m, id, a)
    requires |Survivors(m, id)| < id
    requires b == if m[id] == id then a[id := |Survivors(m, id)| + 1] else a
    ensures Renumbered(m, id + 1, b)
  {
  }

  method ClearIds(new_id: array<u32>)
    requires new_id.Length > 0
    modifies new_id
    ensures new_id[0] == 0 && forall x :: 1 <= x < new_id.Length ==> new_id[x] == UNPROCESSED
  {
    new_id[0] := 0;
    for k := 1 to new_id.Length
      invariant new_id[0] == 0
      invariant forall x :: 1 <= x < k ==> new_id[x] == UNPROCESSED
    {
      new_id[k] := UNPROCESSED;
    }
  }

  class Section {
    const data: array<u32>
    const type_offs: array<u32>
    var nr_types: nat
    var type_len: nat
    /** Where the header says the strings start, counted like `type_len`. */
    var str_off: nat
    /** The records by id, with void at 0. */
    ghost var types: seq<Rec>

    ghost predicate Valid()
      reads this, data, type_offs
    {
      && data != type_offs
      && |types| == nr_types + 1
      && nr_types <= type_offs.Length
      && nr_types <= BTF_MAX_NR_TYPES
      && Packed(data[..], types)
      && type_len == SecOff(types, nr_types + 1)
      && (forall i :: 0 < i <= nr_types ==> type_offs[i - 1] == SecOff(types, i))
    }

    /** `btf_type_by_id` followed by reading the record there. */
    method Get(id: nat) returns (t: Rec)
      requires Valid() && id < |types|
      ensures t == types[id]
    {
      if id == 0 { return VOID; }
      var o: nat := type_offs[id - 1];
      ghost var r := types[id];
      assert RecAt(data[..], types, id);
      assert data[o] == Word(r, 0) && data[o + 1] == Word(r, 1) && data[o + 2] == Word(r, 2);
      var n := RestLen(InfoKind(data[o + 1]), InfoVlen(data[o + 1]));
      t := Rec(data[o], data[o + 1], data[o + 2], data[o + 3..o + 3 + n]);
      assert t.rest == r.rest;
    }

    /** Overwrites the i-th reference of record `id`, as `*type_id = ...` does through a pointer
        into the buffer. */
    method PutRef(id: nat, i: nat, v: u32)
      requires Valid() && 0 < id < |types| && i < RefCount(types[id])
      modifies data, this`types
      ensures Valid()
      ensures types == old(types)[id := SetRef(old(types)[id], i, v)]
    {
      var t := Get(id);
      var o: nat := type_offs[id - 1];
      var w := RefSlot(t, i);
      ghost var ts, d0 := types, data[..];
      ghost var u := SetRef(t, i, v);
      SetRefFacts(t, i, v);
      LaidPut(d0, ts, id, w, v, o + w);
      forall j | 0 <= j <= nr_types + 1 ensures SecOff(ts[id := u], j) == SecOff(ts, j) {
        SecOffUpdate(ts, id, u, j);
      }
      data[o + w] := v;
      types := types[id := u];
      assert data[..] == d0[o + w := v];
      forall j | 0 < j <= nr_types ensures type_offs[j - 1] == SecOff(types, j) {
        assert type_offs[j - 1] == SecOff(ts, j);
      }
    }

    /** One turn of the compaction loop for a record that stays: the `memmove` and the index entry. */
    method SlideDown(id: nat, p: u32, slot: nat, ghost ts: seq<Rec>, ghost d0: seq<u32>, ghost m: seq<u32>)
      returns (err: int, q: u32)
      requires data != type_offs && Packed(d0, ts) && 1 <= id < |ts| == |m| && m[id] == id
      requires slot == |Survivors(m, id)|
      requires Slid(ts, d0, m, id, data[..], type_offs[..], p)
      modifies data, type_offs
      ensures err == if KnownKind(Kind(ts[id])) then 0 else -EINVAL
      ensures err == 0 ==> Slid(ts, d0, m, id + 1, data[..], type_offs[..], q)
    {
      SecOffMonotone(ts, id, |ts|);
      SurvivorsSorted(m, id);
      ghost var d, offs, t := data[..], type_offs[..], ts[id];
      var o: nat := type_offs[id - 1];
      assert RecAt(d0, ts, id);
      assert data[o + 1] == Word(t, 1);
      if !KnownKind(InfoKind(data[o + 1])) { return -EINVAL, p; }
      var len := 3 + RestLen(InfoKind(data[o + 1]), InfoVlen(data[o + 1]));
      forall j | 0 <= j < len { data[p + j] := data[o + j]; }
      type_offs[slot] := p;
      SlidMove(ts, d0, m, id, d, offs, p, data[..], type_offs[..], o, len);
      return 0, p + len;
    }

    /** The loop of `btf_dedup_compact_types` over all type ids. */
    method SlideAll(m: array<u32>, new_id: array<u32>, ghost ts: seq<Rec>, ghost d0: seq<u32>, ghost mm: seq<u32>)
      returns (err: int, p: u32, next_type_id: nat)
      requires Valid() && ts == types && d0 == data[..] && mm == m[..]
      requires m.Length == new_id.Length == nr_types + 1
      requires m != new_id && m != data && m != type_offs && new_id != data && new_id != type_offs
      modifies data, type_offs, new_id
      ensures err == 0 || (err == -EINVAL && exists x :: 1 <= x < |mm| && mm[x] == x && !KnownKind(Kind(ts[x])))
      ensures err == 0 ==> next_type_id == |Survivors(mm, |ts|)| + 1
      ensures err == 0 ==> Renumbered(mm, |ts|, new_id[..])
      ensures err == 0 ==> Slid(ts, d0, mm, |ts|, data[..], type_offs[..], p)
    {
      hide Slid, Renumbered, Packed, Compacted;
      SlidStart(ts, mm, data[..], type_offs[..]);
      ClearIds(new_id);
      RenumberedStart(mm, new_id[..]);
      p, next_type_id := 0, 1;
      for id := 1 to nr_types + 1
        invariant mm == m[..]
        invariant next_type_id == |Survivors(mm, id)| + 1 <= id
        invariant Slid(ts, d0, mm, id, data[..], type_offs[..], p)
        invariant Renumbered(mm, id, new_id[..])
        modifies data, type_offs, new_id
      {
        ghost var a := new_id[..];
        if m[id] != id {
          SlidSkip(ts, d0, mm, id, data[..], type_offs[..], p);
        } else {
          err, p := SlideDown(id, p, next_type_id - 1, ts, d0, mm);
          if err != 0 { return; }
          new_id[id] := next_type_id;
          next_type_id := next_type_id + 1;
        }
        RenumberedStep(mm, id, a, new_id[..]);
      }
      err := 0;
    }

    /** `btf_dedup_compact_types`: slides the self-mapped records down over the others, in place,
        renumbers them densely and records the new ids in `new_id`. */
    method Compact(m: array<u32>, new_id: array<u32>) returns (err: int)
      requires Valid()
      requires m.Length == new_id.Length == nr_types + 1
      requires m != new_id && m != data && m != type_offs && new_id != data && new_id != type_offs
      modifies this, data, type_offs, new_id
      ensures err == 0 || err == -EINVAL
      ensures (forall x :: 1 <= x < m.Length && m[x] == x ==> KnownKind(Kind(old(types)[x]))) ==> err == 0
      ensures err == 0 ==> Valid() && types == Compacted(old(types), m[..], m.Length) && str_off == type_len
      ensures err == 0 ==> Renumbered(m[..], m.Length, new_id[..])
    {
      ghost var ts, d0 := types, data[..];
      var p, next_type_id;
      err, p, next_type_id := SlideAll(m, new_id, ts, d0, m[..]);
      if err != 0 { return; }
      SlidDone(ts, d0, m[..], data[..], type_offs[..], p);
      nr_types := next_type_id - 1;
      type_len, str_off := p, p;
      types := Compacted(ts, m[..], m.Length);
    }
  }
}
