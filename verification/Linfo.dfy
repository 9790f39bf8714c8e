/** The index of jited line records by function, and lookups in it (bpf_prog_linfo.c). Records are counted,
    their sizes in memory play no part. */
module Linfo {
  import opened Common

  const U64 := 0x1_0000_0000_0000_0000

  type u64 = x: int | 0 <= x < U64

  /** Function `f`'s records start at its address and, up to the first one at the next function's address, addresses
      rise and stay within the function's length. */
  ghost predicate RunAt(jited: seq<u64>, ksym_func: seq<u64>, ksym_len: seq<nat>, idx: seq<nat>, per: seq<nat>, f: nat)
    requires f + 1 < |idx| && f < |per| && f + 1 < |ksym_func| && f < |ksym_len|
  {
    && idx[f] < idx[f + 1] <= |jited| && per[f] == idx[f + 1] - idx[f] && jited[idx[f]] == ksym_func[f]
    && (forall i, j :: idx[f] <= i < j < idx[f + 1] ==> jited[i] < jited[j])
    && (forall i :: idx[f] < i < idx[f + 1] ==> jited[i] != ksym_func[f + 1])
    && (jited[idx[f + 1] - 1] - ksym_func[f] + 1) % U64 <= ksym_len[f]
  }

  /** The functions partition the records into consecutive runs; the last run is not checked for order. */
  ghost predicate Dissected(jited: seq<u64>, ksym_func: seq<u64>, ksym_len: seq<nat>, idx: seq<nat>, per: seq<nat>) {
    var n := |ksym_func|;
    && n >= 1 && |idx| == |per| == |ksym_len| == n && idx[0] == 0
    && (forall f :: 0 <= f < n - 1 ==> RunAt(jited, ksym_func, ksym_len, idx, per, f))
    && idx[n - 1] < |jited| && per[n - 1] == |jited| - idx[n - 1] && jited[idx[n - 1]] == ksym_func[n - 1]
  }

  /** The runs follow each other. */
  lemma {:induction false} RunsInOrder(jited: seq<u64>, ksym_func: seq<u64>, ksym_len: seq<nat>, idx: seq<nat>, per: seq<nat>, f: nat, g: nat)
    requires Dissected(jited, ksym_func, ksym_len, idx, per) && f < g < |ksym_func|
    ensures idx[f] + per[f] <= idx[g] && per[f] > 0
    decreases g - f
  {
    assert RunAt(jited, ksym_func, ksym_len, idx, per, f);
    if f + 1 < g { RunsInOrder(jited, ksym_func, ksym_len, idx, per, f + 1, g); }
  }

  /** Every record lies in the run of exactly one function. */
  lemma {:induction false} RunOf(jited: seq<u64>, ksym_func: seq<u64>, ksym_len: seq<nat>, idx: seq<nat>, per: seq<nat>, i: nat) returns (f: nat)
    requires Dissected(jited, ksym_func, ksym_len, idx, per) && i < |jited|
    ensures f < |ksym_func| && idx[f] <= i < idx[f] + per[f]
    ensures forall g :: 0 <= g < |ksym_func| && g != f ==> !(idx[g] <= i < idx[g] + per[g])
  {
    f := |ksym_func| - 1;
    while idx[f] > i
      invariant f < |ksym_func| && (f == |ksym_func| - 1 || idx[f + 1] > i)
      decreases f
    {
      f := f - 1;
    }
    if f < |ksym_func| - 1 { assert RunAt(jited, ksym_func, ksym_len, idx, per, f); }
    forall g | 0 <= g < |ksym_func| && g != f ensures !(idx[g] <= i < idx[g] + per[g]) {
      if g < f { RunsInOrder(jited, ksym_func, ksym_len, idx, per, g, f); } else { RunsInOrder(jited, ksym_func, ksym_len, idx, per, f, g); }
    }
  }

  /** A partition passes record `i` on its way to function `f`'s start: that is where it is if the address says so,
      and otherwise addresses go on rising. */
  lemma {:induction false} NextStart(jited: seq<u64>, ksym_func: seq<u64>, ksym_len: seq<nat>, idx: seq<nat>, per: seq<nat>, f: nat, i: nat)
    requires Dissected(jited, ksym_func, ksym_len, idx, per) && 1 <= f < |ksym_func| == |idx| == |ksym_len|
    requires idx[f - 1] < i <= idx[f] && i < |jited|
    ensures jited[i] == ksym_func[f] <==> i == idx[f]
    ensures i == idx[f] ==> (jited[i - 1] - ksym_func[f - 1] + 1) % U64 <= ksym_len[f - 1]
    ensures i == idx[f] && f + 1 < |ksym_func| ==> i < idx[f + 1] < |jited|
    ensures i != idx[f] ==> jited[i - 1] < jited[i]
  {
    assert RunAt(jited, ksym_func, ksym_len, idx, per, f - 1);
    if f + 1 < |ksym_func| { assert RunAt(jited, ksym_func, ksym_len, idx, per, f); }
    if f + 2 < |ksym_func| { assert RunAt(jited, ksym_func, ksym_len, idx, per, f + 1); }
  }

  lemma {:induction false} FirstStart(jited: seq<u64>, ksym_func: seq<u64>, ksym_len: seq<nat>, idx: seq<nat>, per: seq<nat>)
    requires Dissected(jited, ksym_func, ksym_len, idx, per)
    ensures jited != [] && jited[0] == ksym_func[0] && |idx| == |ksym_func| && idx[0] == 0
    ensures |ksym_func| > 1 ==> 1 <= idx[1] < |jited|
  {
    if |ksym_func| > 1 {
      assert RunAt(jited, ksym_func, ksym_len, idx, per, 0);
      if |ksym_func| > 2 { assert RunAt(jited, ksym_func, ksym_len, idx, per, 1); }
    }
  }

  /** Function `f - 1` has been found, the runs before it are complete, and up to record `i` no other starts. */
  ghost predicate Scanned(jited: seq<u64>, ksym_func: seq<u64>, ksym_len: seq<nat>, idx: seq<nat>, per: seq<nat>, f: nat, i: nat) {
    && |idx| == |per| == |ksym_len| == |ksym_func| && 1 <= f <= |ksym_func| && idx[0] == 0
    && idx[f - 1] < i <= |jited| && jited[idx[f - 1]] == ksym_func[f - 1]
    && (f < |ksym_func| ==>
        && (forall a, b :: idx[f - 1] <= a < b < i ==> jited[a] < jited[b])
        && (forall a :: idx[f - 1] < a < i ==> jited[a] != ksym_func[f]))
    && (forall g :: 0 <= g < f - 1 ==> RunAt(jited, ksym_func, ksym_len, idx, per, g))
  }

  lemma {:induction false} ScanBegins(jited: seq<u64>, ksym_func: seq<u64>, ksym_len: seq<nat>, idx: seq<nat>, per: seq<nat>)
    requires |idx| == |per| == |ksym_len| == |ksym_func| >= 1 && jited != [] && idx[0] == 0 && jited[0] == ksym_func[0]
    ensures Scanned(jited, ksym_func, ksym_len, idx, per, 1, 1)
  {
  }

  /** Record `i` belongs to the run being scanned. */
  lemma {:induction false} ScanOn(jited: seq<u64>, ksym_func: seq<u64>, ksym_len: seq<nat>, idx: seq<nat>, per: seq<nat>, f: nat, i: nat)
    requires Scanned(jited, ksym_func, ksym_len, idx, per, f, i) && f < |ksym_func| && 1 <= i < |jited|
    requires jited[i] != ksym_func[f] && jited[i - 1] < jited[i]
    ensures Scanned(jited, ksym_func, ksym_len, idx, per, f, i + 1)
  {
    forall a, b | idx[f - 1] <= a < b < i + 1 ensures jited[a] < jited[b] {
      if b == i && a < i - 1 { assert jited[a] < jited[i - 1]; }
    }
  }

  /** Record `i` starts the run of function `f`. */
  lemma {:induction false} ScanNext(jited: seq<u64>, ksym_func: seq<u64>, ksym_len: seq<nat>, idx: seq<nat>, per: seq<nat>, f: nat, i: nat)
    requires Scanned(jited, ksym_func, ksym_len, idx, per, f, i) && f < |ksym_func| && 1 <= i < |jited|
    requires jited[i] == ksym_func[f] && (jited[i - 1] - ksym_func[f - 1] + 1) % U64 <= ksym_len[f - 1] && idx[f - 1] < i
    ensures Scanned(jited, ksym_func, ksym_len, idx[f := i], per[f - 1 := i - idx[f - 1]], f + 1, i + 1)
  {
    var idx2, per2 := idx[f := i], per[f - 1 := i - idx[f - 1]];
    forall g | 0 <= g < f ensures RunAt(jited, ksym_func, ksym_len, idx2, per2, g) {
      if g < f - 1 { assert RunAt(jited, ksym_func, ksym_len, idx, per, g); }
    }
  }

  lemma {:induction false} ScanEnds(jited: seq<u64>, ksym_func: seq<u64>, ksym_len: seq<nat>, idx: seq<nat>, per: seq<nat>, i: nat)
    requires Scanned(jited, ksym_func, ksym_len, idx, per, |ksym_func|, i)
    ensures idx[|ksym_func| - 1] <= |jited|
    ensures Dissected(jited, ksym_func, ksym_len, idx, per[|ksym_func| - 1 := |jited| - idx[|ksym_func| - 1]])
  {
    var n := |ksym_func|;
    var per2 := per[n - 1 := |jited| - idx[n - 1]];
    forall g | 0 <= g < n - 1 ensures RunAt(jited, ksym_func, ksym_len, idx, per2, g) {
      assert RunAt(jited, ksym_func, ksym_len, idx, per, g);
    }
  }

  class ProgLinfo {
    /** The addresses of `raw_jited_linfo`, the instruction offsets of `raw_linfo`. */
    const jited: seq<u64>
    const insn_offs: seq<nat>
    const nr_jited_linfo_per_func: array<nat>
    const jited_linfo_func_idx: array<nat>

    constructor (jited: seq<u64>, insn_offs: seq<nat>, nr_jited_func: nat)
      ensures this.jited == jited && this.insn_offs == insn_offs
      ensures fresh(nr_jited_linfo_per_func) && fresh(jited_linfo_func_idx) && nr_jited_linfo_per_func != jited_linfo_func_idx
      ensures nr_jited_linfo_per_func.Length == jited_linfo_func_idx.Length == nr_jited_func
    {
      this.jited, this.insn_offs := jited, insn_offs;
      nr_jited_linfo_per_func := new nat[nr_jited_func];
      jited_linfo_func_idx := new nat[nr_jited_func];
    }

    ghost predicate Sized(ksym_func: seq<u64>, ksym_len: seq<nat>) {
      && |jited| >= 1 && |ksym_func| >= 1 && nr_jited_linfo_per_func != jited_linfo_func_idx
      && nr_jited_linfo_per_func.Length == jited_linfo_func_idx.Length == |ksym_func| == |ksym_len|
    }

    /** Some partition of the records fits the functions. */
    ghost predicate Dissectable(ksym_func: seq<u64>, ksym_len: seq<nat>) {
      exists idx, per :: Dissected(jited, ksym_func, ksym_len, idx, per)
    }

    /** `dissect_jited_func`: it finds the partition exactly if there is one. */
    method Dissect(ksym_func: seq<u64>, ksym_len: seq<nat>) returns (err: int)
      requires Sized(ksym_func, ksym_len)
      modifies nr_jited_linfo_per_func, jited_linfo_func_idx
      ensures err == if Dissectable(ksym_func, ksym_len) then 0 else -EINVAL
      ensures err == 0 ==> Dissected(jited, ksym_func, ksym_len, jited_linfo_func_idx[..], nr_jited_linfo_per_func[..])
    {
      hide Dissected, RunAt, Scanned;
      var idx, per := jited_linfo_func_idx, nr_jited_linfo_per_func;
      ghost var good, wi: seq<nat>, wp: seq<nat> := Dissectable(ksym_func, ksym_len), [], [];
      if good {
        wi, wp :| Dissected(jited, ksym_func, ksym_len, wi, wp);
        FirstStart(jited, ksym_func, ksym_len, wi, wp);
      }
      if ksym_func[0] != jited[0] { return -EINVAL; }
      idx[0] := 0;
      ScanBegins(jited, ksym_func, ksym_len, idx[..], per[..]);
      var prev_i, i, f := 0, 1, 1;
      while i < |jited| && f < |ksym_func|
        invariant 1 <= i <= |jited| && 1 <= f <= |ksym_func| && prev_i < i && idx[f - 1] == prev_i
        invariant Scanned(jited, ksym_func, ksym_len, idx[..], per[..], f, i)
        invariant good ==> |wi| == |ksym_func| && wi[f - 1] == prev_i && (f < |ksym_func| ==> i <= wi[f] < |jited|)
      {
        var last := jited[i - 1];
        if good { NextStart(jited, ksym_func, ksym_len, wi, wp, f, i); }
        ghost var idx0, per0 := idx[..], per[..];
        if ksym_func[f] == jited[i] {
          idx[f] := i;
          if (last - ksym_func[f - 1] + 1) % U64 > ksym_len[f - 1] { return -EINVAL; }
          per[f - 1] := i - prev_i;
          ScanNext(jited, ksym_func, ksym_len, idx0, per0, f, i);
          prev_i := i;
          f := f + 1;
        } else if jited[i] <= last {
          return -EINVAL;
        } else {
          ScanOn(jited, ksym_func, ksym_len, idx0, per0, f, i);
        }
        i := i + 1;
      }
      if f != |ksym_func| { return -EINVAL; }
      ScanEnds(jited, ksym_func, ksym_len, idx[..], per[..], i);
      per[f - 1] := |jited| - prev_i;
      err := 0;
    }

    /** `bpf_prog_linfo__lfind_addr_func`: from the `nr_skip`-th record of the function on, the last one before
        the first that lies above the address. */
    method LfindAddrFunc(addr: u64, func_idx: nat, nr_skip: nat, ghost ksym_func: seq<u64>, ghost ksym_len: seq<nat>) returns (r: Option<nat>)
      requires Sized(ksym_func, ksym_len) && Dissected(jited, ksym_func, ksym_len, jited_linfo_func_idx[..], nr_jited_linfo_per_func[..])
      ensures r == None <==> func_idx >= |ksym_func| || nr_skip >= nr_jited_linfo_per_func[func_idx] || addr < FirstAddr(func_idx, nr_skip)
      ensures r != None ==> func_idx < |ksym_func|
      ensures func_idx < |ksym_func| && nr_skip < nr_jited_linfo_per_func[func_idx] ==>
                var start, stop := jited_linfo_func_idx[func_idx] + nr_skip, jited_linfo_func_idx[func_idx] + nr_jited_linfo_per_func[func_idx];
                stop <= |jited| && Answer(jited, addr, start, stop, r)
    {
      if func_idx >= jited_linfo_func_idx.Length { return None; }
      var nr_linfo := nr_jited_linfo_per_func[func_idx];
      if nr_skip >= nr_linfo { return None; }
      var start := jited_linfo_func_idx[func_idx] + nr_skip;
      RunEnds(jited, ksym_func, ksym_len, jited_linfo_func_idx[..], nr_jited_linfo_per_func[..], func_idx);
      if addr < jited[start] { return None; }
      nr_linfo := nr_linfo - nr_skip;
      var i := 0;
      while i < nr_linfo
        invariant 0 <= i <= nr_linfo && forall j :: start <= j < start + i ==> jited[j] <= addr
      {
        if addr < jited[start + i] { break; }
        i := i + 1;
      }
      r := Some(start + i - 1);
    }

    /** The address of a function's record, 0 where there is none. */
    function FirstAddr(func_idx: nat, nr_skip: nat): u64
      reads jited_linfo_func_idx
    {
      if func_idx < jited_linfo_func_idx.Length && jited_linfo_func_idx[func_idx] + nr_skip < |jited|
      then jited[jited_linfo_func_idx[func_idx] + nr_skip] else 0
    }

    /** `bpf_prog_linfo__lfind`, by instruction offset. */
    method Lfind(insn_off: nat, nr_skip: nat) returns (r: Option<nat>)
      ensures r == None <==> nr_skip >= |insn_offs| || insn_off < insn_offs[nr_skip]
      ensures r != None ==> LastBefore(insn_offs, insn_off, nr_skip, |insn_offs|, r.value)
    {
      var nr_linfo := |insn_offs|;
      if nr_skip >= nr_linfo { return None; }
      if insn_off < insn_offs[nr_skip] { return None; }
      nr_linfo := nr_linfo - nr_skip;
      var i := 0;
      while i < nr_linfo
        invariant 0 <= i <= nr_linfo && forall j :: nr_skip <= j < nr_skip + i ==> insn_offs[j] <= insn_off
      {
        if insn_off < insn_offs[nr_skip + i] { break; }
        i := i + 1;
      }
      r := Some(nr_skip + i - 1);
    }
  }

  /** `r` is the last of the positions from `start` on before the first one, below `stop`, that exceeds `x`. */
  ghost predicate LastBefore(s: seq<int>, x: int, start: nat, stop: nat, r: nat) {
    && start <= r < stop <= |s|
    && (forall i :: start <= i <= r ==> s[i] <= x)
    && (r + 1 < stop ==> x < s[r + 1])
  }

  lemma {:induction false} RunEnds(jited: seq<u64>, ksym_func: seq<u64>, ksym_len: seq<nat>, idx: seq<nat>, per: seq<nat>, f: nat)
    requires Dissected(jited, ksym_func, ksym_len, idx, per) && f < |ksym_func|
    ensures idx[f] + per[f] <= |jited| && per[f] > 0
  {
    if f < |ksym_func| - 1 { assert RunAt(jited, ksym_func, ksym_len, idx, per, f); }
  }

  /** In every function but the last, what the lookup returns is the greatest address not above the query. */
  lemma {:induction false} FindsGreatest(jited: seq<u64>, ksym_func: seq<u64>, ksym_len: seq<nat>, idx: seq<nat>, per: seq<nat>,
                                         addr: u64, f: nat, skip: nat, r: nat)
    requires Dissected(jited, ksym_func, ksym_len, idx, per) && f < |ksym_func| - 1
    requires LastBefore(jited, addr, idx[f] + skip, idx[f] + per[f], r)
    ensures forall i :: idx[f] <= i < idx[f] + per[f] ==> (jited[i] <= addr <==> i <= r) && (jited[i] <= addr ==> jited[i] <= jited[r])
  {
    assert RunAt(jited, ksym_func, ksym_len, idx, per, f);
    forall i | idx[f] <= i < idx[f] + per[f] ensures (jited[i] <= addr <==> i <= r) && (jited[i] <= addr ==> jited[i] <= jited[r]) {
      if i < r {
        assert jited[i] < jited[r];
      } else if i > r + 1 {
        assert jited[r + 1] < jited[i];
      }
    }
  }

  /** What the lookup answers for the records from `start` up to `stop`. */
  ghost predicate Answer(s: seq<u64>, x: u64, start: nat, stop: nat, r: Option<nat>)
    requires start < stop <= |s|
  {
    && (r == None <==> x < s[start])
    && (r != None ==> LastBefore(s, x, start, stop, r.value))
  }

  /** The answer is a record with the greatest address not above the query; none if there is none. */
  ghost predicate Right(s: seq<u64>, x: u64, start: nat, stop: nat, r: Option<nat>)
    requires start < stop <= |s|
  {
    if r == None then forall i :: start <= i < stop ==> x < s[i]
    else start <= r.value < stop && s[r.value] <= x && forall i :: start <= i < stop && s[i] <= x ==> s[i] <= s[r.value]
  }

  ghost predicate AlwaysRight(s: seq<u64>, start: nat, stop: nat)
    requires start < stop <= |s|
  {
    forall x: u64, r: Option<nat> {:trigger Answer(s, x, start, stop, r)} :: Answer(s, x, start, stop, r) ==> Right(s, x, start, stop, r)
  }

  ghost predicate Rising(s: seq<u64>, start: nat, stop: nat)
    requires start < stop <= |s|
  {
    forall i, j :: start <= i < j < stop ==> s[i] <= s[j]
  }

  ghost predicate Distinct(s: seq<u64>, start: nat, stop: nat)
    requires start < stop <= |s|
  {
    forall i, j :: start <= i < j < stop ==> s[i] != s[j]
  }

  /** Record `r` is the last one, or the next one exceeds everything so far. */
  ghost predicate Peak(s: seq<u64>, start: nat, stop: nat, r: nat)
    requires start < stop <= |s|
  {
    start <= r < stop && (r + 1 == stop || forall i :: start <= i <= r ==> s[i] < s[r + 1])
  }

  /** At a peak no earlier record is greater, and no later one falls between it and the next. */
  ghost predicate CleanAt(s: seq<u64>, start: nat, stop: nat, r: nat)
    requires start < stop <= |s| && Peak(s, start, stop, r)
  {
    && (forall i :: start <= i <= r ==> s[i] <= s[r])
    && (forall i :: r + 1 < i < stop ==> s[i] <= s[r] || s[r + 1] <= s[i])
  }

  /** Addresses may fall back, but only to addresses met before, and not at a peak or below the first. */
  ghost predicate Stepped(s: seq<u64>, start: nat, stop: nat)
    requires start < stop <= |s|
  {
    && (forall i :: start <= i < stop ==> s[start] <= s[i])
    && (forall r {:trigger Peak(s, start, stop, r)} :: Peak(s, start, stop, r) ==> CleanAt(s, start, stop, r))
  }

  lemma {:induction false} SteppedRight(s: seq<u64>, start: nat, stop: nat, x: u64, r: Option<nat>)
    requires start < stop <= |s| && Stepped(s, start, stop) && Answer(s, x, start, stop, r)
    ensures Right(s, x, start, stop, r)
  {
    if r != None {
      assert Peak(s, start, stop, r.value);
      assert CleanAt(s, start, stop, r.value);
    }
  }

  /** The greatest of the records up to `r`. */
  lemma {:induction false} MaxUpTo(s: seq<u64>, start: nat, r: nat) returns (m: nat)
    requires start <= r < |s|
    ensures start <= m <= r && forall i :: start <= i <= r ==> s[i] <= s[m]
    decreases r
  {
    if r == start { m := start; }
    else {
      m := MaxUpTo(s, start, r - 1);
      if s[m] < s[r] { m := r; }
    }
  }

  lemma {:induction false} RightAt(s: seq<u64>, start: nat, stop: nat, r: nat, x: u64)
    requires start < stop <= |s| && AlwaysRight(s, start, stop) && start <= r < stop
    ensures (forall i :: start <= i <= r ==> s[i] <= x) && (r + 1 < stop ==> x < s[r + 1]) ==>
              forall i :: start <= i < stop && s[i] <= x ==> s[i] <= s[r]
  {
    assert Answer(s, x, start, stop, Some(r)) ==> Right(s, x, start, stop, Some(r));
  }

  lemma {:induction false} RightClean(s: seq<u64>, start: nat, stop: nat, r: nat)
    requires start < stop <= |s| && AlwaysRight(s, start, stop) && Peak(s, start, stop, r)
    ensures CleanAt(s, start, stop, r)
  {
    var m := MaxUpTo(s, start, r);
    RightAt(s, start, stop, r, s[m]);
    forall i | r + 1 < i < stop ensures s[i] <= s[r] || s[r + 1] <= s[i] { RightAt(s, start, stop, r, s[i]); }
  }

  lemma {:induction false} RightFirst(s: seq<u64>, start: nat, stop: nat, i: nat)
    requires start < stop <= |s| && AlwaysRight(s, start, stop) && start <= i < stop
    ensures s[start] <= s[i]
  {
    assert Answer(s, s[i], start, stop, None) ==> Right(s, s[i], start, stop, None);
  }

  /** The exact condition, for every function's run: all answers are right exactly if the run is stepped. */
  lemma {:induction false} RightExactlyIfStepped(s: seq<u64>, start: nat, stop: nat)
    requires start < stop <= |s|
    ensures AlwaysRight(s, start, stop) <==> Stepped(s, start, stop)
  {
    if Stepped(s, start, stop) {
      forall x: u64, r: Option<nat> | Answer(s, x, start, stop, r) ensures Right(s, x, start, stop, r) {
        SteppedRight(s, start, stop, x, r);
      }
    }
    if AlwaysRight(s, start, stop) {
      forall r | Peak(s, start, stop, r) ensures CleanAt(s, start, stop, r) { RightClean(s, start, stop, r); }
      forall i | start <= i < stop ensures s[start] <= s[i] { RightFirst(s, start, stop, i); }
    }
  }

  /** Rising runs are stepped, and where no address occurs twice only they are. */
  lemma {:induction false} SteppedRising(s: seq<u64>, start: nat, stop: nat)
    requires start < stop <= |s|
    ensures Rising(s, start, stop) ==> Stepped(s, start, stop)
    ensures Stepped(s, start, stop) && Distinct(s, start, stop) ==> Rising(s, start, stop)
  {
    if Stepped(s, start, stop) && Distinct(s, start, stop) { PeaksAll(s, start, stop, start); }
  }

  /** In a stepped run of distinct addresses every record is a peak. */
  lemma {:induction false} PeaksAll(s: seq<u64>, start: nat, stop: nat, k: nat)
    requires start <= k < stop <= |s| && Stepped(s, start, stop) && Distinct(s, start, stop)
    requires forall i :: start <= i < k ==> s[i] < s[k]
    requires forall i, j :: start <= i < j <= k ==> s[i] <= s[j]
    ensures Rising(s, start, stop)
    decreases stop - k
  {
    if k + 1 < stop {
      NoFall(s, start, stop, k);
      PeaksAll(s, start, stop, k + 1);
    } else {
      assert Rising(s, start, stop);
    }
  }

  /** After a fall the next peak lies below what came before. */
  lemma {:induction false} NextPeak(s: seq<u64>, start: nat, stop: nat, k: nat) returns (r: nat)
    requires start <= k && k + 1 < stop <= |s| && s[k + 1] < s[k] && Distinct(s, start, stop)
    requires forall i :: start <= i < k ==> s[i] < s[k]
    ensures k < r && Peak(s, start, stop, r) && s[r] < s[k]
  {
    r := k + 1;
    while r + 1 < stop && s[r + 1] < s[k]
      invariant k + 1 <= r < stop && forall i :: k < i <= r ==> s[i] < s[k]
    {
      r := r + 1;
    }
  }

  lemma {:induction false} NoFall(s: seq<u64>, start: nat, stop: nat, k: nat)
    requires start <= k && k + 1 < stop <= |s| && Distinct(s, start, stop)
    requires forall i :: start <= i < k ==> s[i] < s[k]
    ensures Stepped(s, start, stop) ==> s[k] < s[k + 1]
  {
    if s[k + 1] < s[k] {
      var r := NextPeak(s, start, stop, k);
      assert !CleanAt(s, start, stop, r);
    }
  }

  /** Every function's lookups are right if its addresses rise: in all but the last a dissected index has seen
      to that, and in the last it is all that is missing, if addresses are distinct. */
  lemma {:induction false} LookupsRight(jited: seq<u64>, ksym_func: seq<u64>, ksym_len: seq<nat>, idx: seq<nat>, per: seq<nat>, f: nat)
    requires Dissected(jited, ksym_func, ksym_len, idx, per) && f < |ksym_func|
    ensures 0 < per[f] && idx[f] + per[f] <= |jited|
    ensures f < |ksym_func| - 1 ==> Rising(jited, idx[f], idx[f] + per[f])
    ensures Rising(jited, idx[f], idx[f] + per[f]) ==> AlwaysRight(jited, idx[f], idx[f] + per[f])
    ensures Distinct(jited, idx[f], idx[f] + per[f]) ==>
              (AlwaysRight(jited, idx[f], idx[f] + per[f]) <==> Rising(jited, idx[f], idx[f] + per[f]))
  {
    RunEnds(jited, ksym_func, ksym_len, idx, per, f);
    if f < |ksym_func| - 1 { assert RunAt(jited, ksym_func, ksym_len, idx, per, f); }
    RightExactlyIfStepped(jited, idx[f], idx[f] + per[f]);
    SteppedRising(jited, idx[f], idx[f] + per[f]);
  }

  /** In the last function addresses may fall again: a greater address that fits can come later. */
  lemma {:induction false} LastFunctionUnchecked()
    ensures Dissected([10, 30, 20], [10], [100], [0], [3]) && Answer([10, 30, 20], 25, 0, 3, Some(0)) && !Right([10, 30, 20], 25, 0, 3, Some(0))
  {
    assert [10, 30, 20][0 + 1] == 30;
    assert [10, 30, 20][2] == 20;
  }

  /** Falling back is harmless where every address it falls to was met before, so rising is not necessary. */
  lemma {:induction false} FallingBackHarmless()
    ensures var s: seq<u64> := [20, 30, 20, 30];
            Dissected(s, [20], [100], [0], [4]) && !Rising(s, 0, 4) && AlwaysRight(s, 0, 4)
  {
    var s: seq<u64> := [20, 30, 20, 30];
    assert s[0] == 20 && s[1] == 30 && s[2] == 20 && s[3] == 30;
    assert !Peak(s, 0, 4, 1) && !Peak(s, 0, 4, 2) by { assert s[1 + 1] == 20 && s[2 + 1] == 30; }
    assert Stepped(s, 0, 4);
    RightExactlyIfStepped(s, 0, 4);
  }
}
