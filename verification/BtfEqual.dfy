/** Equality, compatibility and signature hashes of BTF records, as deduplication uses them. */
module BtfEqual {
  import opened Common
  import opened BtfTypes

  predicate EqualCommon(a: Rec, b: Rec) { a.name == b.name && a.info == b.info && a.szt == b.szt }

  predicate EqualIntTag(a: Rec, b: Rec)
    requires WF(a) && WF(b) && (Kind(a) == KIND_INT || Kind(a) == KIND_DECL_TAG)
  {
    EqualCommon(a, b) && a.rest[0] == b.rest[0]
  }

  predicate EqualEnum(a: Rec, b: Rec)
    requires WF(a) && WF(b) && Kind(a) == KIND_ENUM
  {
    && EqualCommon(a, b)
    && forall i :: 0 <= i < Vlen(a) ==> a.rest[2 * i] == b.rest[2 * i] && a.rest[2 * i + 1] == b.rest[2 * i + 1]
  }

  predicate CompatEnum(a: Rec, b: Rec)
    requires WF(a) && WF(b) && Kind(a) == KIND_ENUM
  {
    if !IsEnumFwd(a) && !IsEnumFwd(b) then EqualEnum(a, b)
    else a.name == b.name && a.info / 0x1_0000 == b.info / 0x1_0000 && a.szt == b.szt
  }

  predicate ShallowEqualStruct(a: Rec, b: Rec)
    requires WF(a) && WF(b) && IsComposite(a)
  {
    && EqualCommon(a, b)
    && forall i :: 0 <= i < Vlen(a) ==> a.rest[3 * i] == b.rest[3 * i] && a.rest[3 * i + 2] == b.rest[3 * i + 2]
  }

  predicate EqualArray(a: Rec, b: Rec)
    requires WF(a) && WF(b) && Kind(a) == KIND_ARRAY
  {
    EqualCommon(a, b) && a.rest[0] == b.rest[0] && a.rest[1] == b.rest[1] && a.rest[2] == b.rest[2]
  }

  predicate CompatArray(a: Rec, b: Rec)
    requires WF(a) && WF(b) && Kind(a) == KIND_ARRAY
  {
    EqualCommon(a, b) && a.rest[2] == b.rest[2]
  }

  predicate EqualFnproto(a: Rec, b: Rec)
    requires WF(a) && WF(b) && Kind(a) == KIND_FUNC_PROTO
  {
    && EqualCommon(a, b)
    && forall i :: 0 <= i < Vlen(a) ==> a.rest[2 * i] == b.rest[2 * i] && a.rest[2 * i + 1] == b.rest[2 * i + 1]
  }

  predicate CompatFnproto(a: Rec, b: Rec)
    requires WF(a) && WF(b) && Kind(a) == KIND_FUNC_PROTO
  {
    && a.name == b.name && a.info == b.info
    && forall i :: 0 <= i < Vlen(a) ==> a.rest[2 * i] == b.rest[2 * i]
  }

  predicate IdenticalArrays(a: Rec, b: Rec)
    requires WF(a) && WF(b)
  {
    Kind(a) == KIND_ARRAY && Kind(b) == KIND_ARRAY && EqualArray(a, b)
  }

  predicate IdenticalStructs(a: Rec, b: Rec)
    requires WF(a) && WF(b)
  {
    && IsComposite(a) && Kind(a) == Kind(b)
    && ShallowEqualStruct(a, b)
    && forall i :: 0 <= i < Vlen(a) ==> a.rest[3 * i + 1] == b.rest[3 * i + 1]
  }

  /** The struct or union kind a forward declaration stands for. */
  function FwdKind(t: Rec): nat { if InfoKflag(t.info) then KIND_UNION else KIND_STRUCT }

  /** The equality test each kind is deduplicated with (structs and unions have none). */
  predicate EqualByKind(a: Rec, b: Rec)
    requires WF(a) && WF(b)
  {
    var k := Kind(a);
    if k == KIND_INT || k == KIND_DECL_TAG then EqualIntTag(a, b)
    else if k == KIND_ENUM then EqualEnum(a, b)
    else if k == KIND_ARRAY then EqualArray(a, b)
    else if k == KIND_FUNC_PROTO then EqualFnproto(a, b)
    else EqualCommon(a, b)
  }

  /** Kinds that are deduplicated by `EqualByKind`. */
  predicate EqKind(k: nat) {
    k == KIND_INT || k == KIND_ENUM || k == KIND_FLOAT || k == KIND_FWD || RefKind(k)
  }

  /** Kinds left to the reference pass. */
  predicate RefKind(k: nat) {
    SingleRefKind(k) || k == KIND_ARRAY || k == KIND_FUNC_PROTO || k == KIND_DECL_TAG
  }

  /** Words at positions 0, 1, ..., n * d - 1 agree if they agree position by position within each group. */
  lemma {:induction false} GroupsAgree(a: seq<u32>, b: seq<u32>, n: nat, d: nat)
    requires d == 2 || d == 3
    requires |a| == |b| == d * n
    requires forall i :: 0 <= i < n ==> a[d * i] == b[d * i] && a[d * i + 1] == b[d * i + 1]
    requires d == 3 ==> forall i :: 0 <= i < n ==> a[3 * i + 2] == b[3 * i + 2]
    ensures a == b
  {
    forall j | 0 <= j < |a| ensures a[j] == b[j] {
      if d == 2 {
        assert a[2 * (j / 2)] == b[2 * (j / 2)] && a[2 * (j / 2) + 1] == b[2 * (j / 2) + 1];
      } else {
        assert a[3 * (j / 3)] == b[3 * (j / 3)] && a[3 * (j / 3) + 1] == b[3 * (j / 3) + 1];
        assert a[3 * (j / 3) + 2] == b[3 * (j / 3) + 2];
      }
    }
  }

  /** Every `btf_equal_*` test accepts exactly identical records of its kind. */
  lemma {:induction false} EqualMeansIdentical(a: Rec, b: Rec)
    requires WF(a) && WF(b) && EqKind(Kind(a))
    ensures EqualByKind(a, b) <==> a == b
  {
    if EqualByKind(a, b) {
      var k := Kind(a);
      if k == KIND_ENUM || k == KIND_FUNC_PROTO { GroupsAgree(a.rest, b.rest, Vlen(a), 2); }
      assert a.rest == b.rest;
    }
  }

  lemma {:induction false} IdenticalStructsSame(a: Rec, b: Rec)
    requires WF(a) && WF(b) && IdenticalStructs(a, b)
    ensures a == b
  {
    forall i | 0 <= i < Vlen(a) ensures a.rest[3 * i] == b.rest[3 * i] && a.rest[3 * i + 1] == b.rest[3 * i + 1] {}
    GroupsAgree(a.rest, b.rest, Vlen(a), 3);
  }

  lemma {:induction false} IdenticalArraysSame(a: Rec, b: Rec)
    requires WF(a) && WF(b) && IdenticalArrays(a, b)
    ensures a == b
  {
    assert a.rest == b.rest;
  }

  const MOD64 := 0x1_0000_0000_0000_0000

  function HashCombine(h: nat, v: nat): nat { (h * 31 + v) % MOD64 }

  function HashCommon(t: Rec): nat { HashCombine(HashCombine(HashCombine(0, t.name), t.info), t.szt) }

  function HashWords(h: nat, ws: seq<u32>): nat {
    if ws == [] then h else HashCombine(HashWords(h, ws[..|ws| - 1]), ws[|ws| - 1])
  }

  /** The members' names and offsets, but not their types. */
  function HashMembers(h: nat, rest: seq<u32>, n: nat): nat
    requires 3 * n <= |rest|
  {
    if n == 0 then h
    else HashCombine(HashCombine(HashMembers(h, rest, n - 1), rest[3 * (n - 1)]), rest[3 * (n - 1) + 2])
  }

  /** The signature hash that selects the candidates of a record. */
  function Hash(t: Rec): nat
    requires WF(t)
  {
    var k := Kind(t);
    if k == KIND_INT || k == KIND_DECL_TAG then HashCombine(HashCommon(t), t.rest[0])
    else if k == KIND_ENUM then HashCombine(HashCombine(HashCombine(0, t.name), t.info / 0x1_0000 * 0x1_0000), t.szt)
    else if IsComposite(t) then HashMembers(HashCommon(t), t.rest, Vlen(t))
    else if k == KIND_ARRAY || k == KIND_FUNC_PROTO then HashWords(HashCommon(t), t.rest)
    else HashCommon(t)
  }

  /** Compatible enums share a hash, so a forward enum meets every full one it stands for. */
  lemma {:induction false} CompatEnumSameHash(a: Rec, b: Rec)
    requires WF(a) && WF(b) && Kind(a) == KIND_ENUM && CompatEnum(a, b)
    ensures Kind(b) == KIND_ENUM && Hash(a) == Hash(b)
  {
    if EqualEnum(a, b) {} else {
      assert InfoKind(a.info) == (a.info / 0x1_0000 / 0x100) % 32;
      assert InfoKind(b.info) == (b.info / 0x1_0000 / 0x100) % 32;
    }
  }

  lemma {:induction false} ShallowEqualSameHash(a: Rec, b: Rec, n: nat)
    requires WF(a) && WF(b) && IsComposite(a) && ShallowEqualStruct(a, b) && n <= Vlen(a)
    ensures HashMembers(HashCommon(a), a.rest, n) == HashMembers(HashCommon(b), b.rest, n)
    decreases n
  {
    if n > 0 { ShallowEqualSameHash(a, b, n - 1); }
  }

  /** So structs that are equal but for their members' types are each other's candidates. */
  lemma {:induction false} SameShapeSameHash(a: Rec, b: Rec)
    requires WF(a) && WF(b) && IsComposite(a) && ShallowEqualStruct(a, b)
    ensures Hash(a) == Hash(b)
  {
    ShallowEqualSameHash(a, b, Vlen(a));
  }
}
