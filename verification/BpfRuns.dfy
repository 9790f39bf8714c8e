/** Steps of emitted code one after the other, and what they do to memory. */
module BpfRuns {
  import opened Common
  import opened BpfMachine
  import opened BpfFlow

  /** The run from `m` gets to `m2`. */
  ghost predicate Gets(n: Code, o: Oracle, m: Machine, m2: Machine) {
    |m.r| == 11 && |m2.r| == 11 && exists k: nat {:trigger Run(n, o, m, k)} :: Run(n, o, m, k) == Next(m2)
  }

  lemma {:induction false} StepRegs(n: Code, o: Oracle, m: Machine)
    requires |m.r| == 11 && Step(n, o, m).Next?
    ensures |Step(n, o, m).m.r| == 11
  {
  }

  lemma {:induction false} RunAdd(n: Code, o: Oracle, m: Machine, j: nat, m1: Machine, k: nat)
    requires |m.r| == 11 && |m1.r| == 11 && Run(n, o, m, j) == Next(m1)
    ensures Run(n, o, m, j + k) == Run(n, o, m1, k)
    decreases j
  {
    hide Step;
    if j > 0 {
      var s := Step(n, o, m);
      assert s.Next?;
      StepRegs(n, o, m);
      RunAdd(n, o, s.m, j - 1, m1, k);
    }
  }

  lemma {:induction false} GetsSelf(n: Code, o: Oracle, m: Machine)
    requires |m.r| == 11
    ensures Gets(n, o, m, m)
  {
    assert Run(n, o, m, 0) == Next(m);
  }

  lemma {:induction false} GetsTrans(n: Code, o: Oracle, m: Machine, m1: Machine, m2: Machine)
    requires Gets(n, o, m, m1) && Gets(n, o, m1, m2)
    ensures Gets(n, o, m, m2)
  {
    hide Run;
    var j: nat :| Run(n, o, m, j) == Next(m1);
    var k: nat :| Run(n, o, m1, k) == Next(m2);
    RunAdd(n, o, m, j, m1, k);
  }

  lemma {:induction false} GetsStep(n: Code, o: Oracle, m0: Machine, m: Machine, m2: Machine)
    requires Gets(n, o, m0, m) && |m2.r| == 11 && Step(n, o, m) == Next(m2)
    ensures Gets(n, o, m0, m2)
  {
    hide Step;
    assert Run(n, o, m2, 0) == Next(m2);
    assert Run(n, o, m, 1) == Next(m2);
    GetsTrans(n, o, m0, m, m2);
  }

  lemma {:induction false} DoLoad(n: Code, o: Oracle, m0: Machine, m: Machine, d: Reg, off: int) returns (m2: Machine)
    requires Gets(n, o, m0, m) && m.pc + 1 < |n| && n[m.pc] == LdLo(d, off) && n[m.pc + 1] == LdHi
    ensures Gets(n, o, m0, m2) && m2 == Set(m, d, o.blob + off, 2)
  {
    m2 := Set(m, d, o.blob + off, 2);
    GetsStep(n, o, m0, m, m2);
  }

  lemma {:induction false} DoLdx(n: Code, o: Oracle, m0: Machine, m: Machine, size: nat, d: Reg, s: Reg, off: int) returns (m2: Machine)
    requires Gets(n, o, m0, m) && m.pc < |n| && n[m.pc] == Ldx(size, d, s, off)
    ensures Gets(n, o, m0, m2) && m2 == Set(m, d, S64(LoadMem(m.mem, m.r[s] + off, size)), 1)
  {
    m2 := Set(m, d, S64(LoadMem(m.mem, m.r[s] + off, size)), 1);
    hide S64, LoadMem;
    GetsStep(n, o, m0, m, m2);
  }

  lemma {:induction false} DoStx(n: Code, o: Oracle, m0: Machine, m: Machine, size: nat, d: Reg, s: Reg, off: int) returns (m2: Machine)
    requires Gets(n, o, m0, m) && m.pc < |n| && n[m.pc] == Stx(size, d, s, off)
    ensures Gets(n, o, m0, m2) && m2 == m.(pc := m.pc + 1, now := m.now + 1, mem := StoreMem(m.mem, m.r[d] + off, size, m.r[s]))
  {
    m2 := m.(pc := m.pc + 1, now := m.now + 1, mem := StoreMem(m.mem, m.r[d] + off, size, m.r[s]));
    hide StoreMem;
    GetsStep(n, o, m0, m, m2);
  }

  lemma {:induction false} DoSt(n: Code, o: Oracle, m0: Machine, m: Machine, size: nat, d: Reg, off: int, imm: int) returns (m2: Machine)
    requires Gets(n, o, m0, m) && m.pc < |n| && n[m.pc] == St(size, d, off, imm)
    ensures Gets(n, o, m0, m2) && m2 == m.(pc := m.pc + 1, now := m.now + 1, mem := StoreMem(m.mem, m.r[d] + off, size, imm))
  {
    m2 := m.(pc := m.pc + 1, now := m.now + 1, mem := StoreMem(m.mem, m.r[d] + off, size, imm));
    hide StoreMem;
    GetsStep(n, o, m0, m, m2);
  }

  lemma {:induction false} DoMovReg(n: Code, o: Oracle, m0: Machine, m: Machine, d: Reg, s: Reg) returns (m2: Machine)
    requires Gets(n, o, m0, m) && m.pc < |n| && n[m.pc] == MovReg(d, s)
    ensures Gets(n, o, m0, m2) && m2 == Set(m, d, m.r[s], 1)
  {
    m2 := Set(m, d, m.r[s], 1);
    GetsStep(n, o, m0, m, m2);
  }

  lemma {:induction false} DoMovImm(n: Code, o: Oracle, m0: Machine, m: Machine, d: Reg, imm: int) returns (m2: Machine)
    requires Gets(n, o, m0, m) && m.pc < |n| && n[m.pc] == MovImm(d, imm)
    ensures Gets(n, o, m0, m2) && m2 == Set(m, d, imm, 1)
  {
    m2 := Set(m, d, imm, 1);
    GetsStep(n, o, m0, m, m2);
  }

  lemma {:induction false} DoAlu(n: Code, o: Oracle, m0: Machine, m: Machine, op: AluOp, d: Reg, imm: int) returns (m2: Machine)
    requires Gets(n, o, m0, m) && m.pc < |n| && n[m.pc] == Alu(op, d, imm)
    ensures Gets(n, o, m0, m2) && m2 == Set(m, d, Computed(op, m.r[d], imm), 1)
  {
    m2 := Set(m, d, Computed(op, m.r[d], imm), 1);
    hide Computed;
    GetsStep(n, o, m0, m, m2);
  }

  /** A jump forward, or one back from an unbroken run. */
  lemma {:induction false} DoJmp(n: Code, o: Oracle, m0: Machine, m: Machine, op: JmpOp, d: Reg, imm: int, off: int) returns (m2: Machine)
    requires Gets(n, o, m0, m) && m.pc < |n| && n[m.pc] == Jmp(op, d, imm, off) && m.pc + 1 + off >= 0
    ensures Gets(n, o, m0, m2) && m2 == m.(pc := m2.pc, now := m.now + 1, cause := m2.cause)
    ensures m2.pc == if Taken(op, m.r[d], imm) then m.pc + 1 + off else m.pc + 1
    ensures off >= 0 || !Taken(op, m.r[d], imm) ==> m2.cause == m.cause
  {
    m2 := Step(n, o, m).m;
    GetsStep(n, o, m0, m, m2);
  }

  lemma {:induction false} DoCall(n: Code, o: Oracle, m0: Machine, m: Machine, f: Helper) returns (m2: Machine)
    requires Gets(n, o, m0, m) && m.pc < |n| && n[m.pc] == Call(f)
    ensures Gets(n, o, m0, m2) && |m2.r| == 11 && (forall i :: 6 <= i < 11 ==> m2.r[i] == m.r[i]) && m2.r[0] == o.value(m.now, 0)
    ensures m2 == m.(pc := m.pc + 1, r := m2.r, mem := Effect(f, m.r, m.mem, o, m.now), now := m.now + 1,
                     trace := m.trace + Observed(f, m.r, m.mem, m2.r[0]))
  {
    m2 := Step(n, o, m).m;
    hide Effect, Observed;
    GetsStep(n, o, m0, m, m2);
  }

  /** Nothing but memory and registers below R6 has changed. */
  ghost predicate Kept(m: Machine, m2: Machine) {
    && |m.r| == 11 && |m2.r| == 11 && m2.r[6] == m.r[6] && m2.r[7] == m.r[7] && m2.r[8] == m.r[8] && m2.r[9] == m.r[9] && m2.r[10] == m.r[10]
    && m2.trace == m.trace && m2.cause == m.cause
  }

  lemma {:induction false} KeptTrans(m: Machine, m1: Machine, m2: Machine)
    requires Kept(m, m1) && Kept(m1, m2)
    ensures Kept(m, m2)
  {
  }

  /** Memory that agrees on the bytes holds the same value. */
  lemma {:induction false} LoadSame(mem: Mem, mem2: Mem, a: int, n: nat)
    requires forall x :: a <= x < a + n ==> mem2(x) == mem(x)
    ensures LoadMem(mem2, a, n) == LoadMem(mem, a, n)
    decreases n
  {
    if n > 0 { LoadSame(mem, mem2, a + 1, n - 1); }
  }

  lemma {:induction false} LoadElsewhere(mem: Mem, b: int, k: nat, v: int, a: int, n: nat)
    requires a + n <= b || b + k <= a
    ensures LoadMem(StoreMem(mem, b, k, v), a, n) == LoadMem(mem, a, n)
  {
    LoadSame(mem, StoreMem(mem, b, k, v), a, n);
  }

  lemma {:induction false} AtLeast(d: int, k: int)
    requires d > 0 && k >= 1
    ensures d * k >= d
    decreases k
  {
    if k > 1 {
      AtLeast(d, k - 1);
      assert d * k == d * (k - 1) + d;
    }
  }

  lemma {:induction false} QuotientIs(v: int, d: nat, q: int, r: int)
    requires d > 0 && 0 <= r < d && v == d * q + r
    ensures v % d == r
  {
    var x, y := v / d, v % d;
    assert d * (x - q) == r - y by { assert v == d * x + y; }
    assert d * (q - x) == -(d * (x - q));
    if x > q { AtLeast(d, x - q); }
    if x < q { AtLeast(d, q - x); }
    assert d * 0 == 0;
  }

  lemma {:induction false} LowDigits(v: int, p: nat)
    requires p > 0
    ensures v % (256 * p) == v % 256 + 256 * (v / 256 % p)
  {
    var q, r := v / 256 / p, v / 256 % p;
    assert v / 256 == p * q + r;
    assert v == 256 * (p * q + r) + v % 256;
    assert 256 * (p * q) == (256 * p) * q;
    QuotientIs(v, 256 * p, q, 256 * r + v % 256);
  }

  /** Bytes make up the value they are the bytes of. */
  lemma {:induction false} LoadBytes(mem: Mem, a: int, n: nat, v: int)
    requires forall k: nat :: k < n ==> mem(a + k) == ByteAt(v, k)
    ensures LoadMem(mem, a, n) == v % Pow256(n)
    decreases n
  {
    if n > 0 {
      forall k: nat | k < n - 1 ensures mem(a + 1 + k) == ByteAt(v / 256, k) { assert mem(a + (k + 1)) == ByteAt(v, k + 1); }
      LoadBytes(mem, a + 1, n - 1, v / 256);
      assert mem(a + 0) == ByteAt(v, 0);
      LowDigits(v, Pow256(n - 1));
    }
  }

  /** What was stored is read back, as far as it fitted. */
  lemma {:induction false} LoadStored(mem: Mem, a: int, n: nat, v: int)
    ensures LoadMem(StoreMem(mem, a, n, v), a, n) == v % Pow256(n)
  {
    LoadBytes(StoreMem(mem, a, n, v), a, n, v);
  }

  lemma {:induction false} LoadBound(mem: Mem, a: int, n: nat)
    ensures LoadMem(mem, a, n) < Pow256(n)
    decreases n
  {
    if n > 0 { LoadBound(mem, a + 1, n - 1); }
  }

  lemma {:induction false} Powers()
    ensures Pow256(0) == 1 && Pow256(1) == 0x100 && Pow256(2) == 0x1_0000 && Pow256(4) == 0x1_0000_0000
    ensures Pow256(8) == 0x1_0000_0000_0000_0000
  {
    assert Pow256(3) == 256 * Pow256(2);
    assert Pow256(5) == 256 * Pow256(4);
    assert Pow256(6) == 256 * Pow256(5);
    assert Pow256(7) == 256 * Pow256(6);
  }

  lemma {:induction false} Pow2Half()
    ensures Pow2(32) == 0x1_0000_0000
  {
    assert Pow2(8) == 0x100;
    assert Pow2(16) == 0x1_0000;
    assert Pow2(24) == 0x100_0000;
  }

  /** The low four bits. */
  lemma {:induction false} And15(a: nat)
    ensures And(a, 15) == a % 16
  {
    assert And(a / 16, 0) == 0;
    assert And(a / 8, 1) == a / 8 % 2;
    assert And(a / 4, 3) == a / 4 % 2 + 2 * And(a / 8, 1);
    assert And(a / 2, 7) == a / 2 % 2 + 2 * And(a / 4, 3);
  }

  /** No command was issued since. */
  ghost predicate Adds(t: seq<Event>, t2: seq<Event>) {
    t <= t2 && forall i :: |t| <= i < |t2| ==> !t2[i].Bpf?
  }

  /** Code from the end of `p` to the end of `q` that leaves memory alone, and R6, R8, R10, and if so said R7 and R9. */
  ghost predicate Idles(p: Code, q: Code, seven: bool, nine: bool) {
    p <= q && forall n: Code, o: Oracle, m: Machine {:trigger IdlesTo(n, o, m, q, seven, nine)} ::
      q <= n && |m.r| == 11 && m.pc == |p| ==> IdlesTo(n, o, m, q, seven, nine)
  }

  ghost predicate IdlesTo(n: Code, o: Oracle, m: Machine, q: Code, seven: bool, nine: bool) {
    exists m2: Machine :: IdledBy(n, o, m, q, seven, nine, m2)
  }

  ghost predicate IdledBy(n: Code, o: Oracle, m: Machine, q: Code, seven: bool, nine: bool, m2: Machine) {
    && Gets(n, o, m, m2) && m2.pc == |q| && m2.mem == m.mem && Adds(m.trace, m2.trace)
    && m2.r[6] == m.r[6] && m2.r[8] == m.r[8] && m2.r[10] == m.r[10]
    && (seven ==> m2.r[7] == m.r[7]) && (nine ==> m2.r[9] == m.r[9])
  }

  lemma {:induction false} IdlesNot(p: Code, seven: bool, nine: bool)
    ensures Idles(p, p, seven, nine)
  {
    forall n: Code, o: Oracle, m: Machine | p <= n && |m.r| == 11 && m.pc == |p| ensures IdlesTo(n, o, m, p, seven, nine) {
      GetsSelf(n, o, m);
      assert IdledBy(n, o, m, p, seven, nine, m);
    }
  }

  lemma {:induction false} DoIdle(n: Code, o: Oracle, m0: Machine, m: Machine, p: Code, q: Code, seven: bool, nine: bool) returns (m2: Machine)
    requires Gets(n, o, m0, m) && m.pc == |p| && q <= n && Idles(p, q, seven, nine)
    ensures Gets(n, o, m0, m2) && IdledBy(n, o, m, q, seven, nine, m2)
  {
    hide Run;
    assert IdlesTo(n, o, m, q, seven, nine);
    m2 :| IdledBy(n, o, m, q, seven, nine, m2);
    GetsTrans(n, o, m0, m, m2);
  }

  lemma {:induction false} IdlesOn(p: Code, q: Code, r: Code, seven: bool, nine: bool)
    requires Idles(p, q, seven, nine) && Idles(q, r, seven, nine)
    ensures Idles(p, r, seven, nine)
  {
    hide Gets;
    assert p <= r;
    forall n: Code, o: Oracle, m: Machine | r <= n && |m.r| == 11 && m.pc == |p| ensures IdlesTo(n, o, m, r, seven, nine) {
      assert q <= n;
      IdleTwice(n, o, m, p, q, r, seven, nine);
    }
  }

  lemma {:induction false} IdleTwice(n: Code, o: Oracle, m: Machine, p: Code, q: Code, r: Code, seven: bool, nine: bool)
    requires Idles(p, q, seven, nine) && Idles(q, r, seven, nine) && q <= n && r <= n && |m.r| == 11 && m.pc == |p|
    ensures IdlesTo(n, o, m, r, seven, nine)
  {
    hide Run, Idles;
    GetsSelf(n, o, m);
    var m1 := DoIdle(n, o, m, m, p, q, seven, nine);
    var m2 := DoIdle(n, o, m, m1, q, r, seven, nine);
    assert IdledBy(n, o, m, r, seven, nine, m2);
  }

  /** Less is kept. */
  lemma {:induction false} IdlesLess(p: Code, q: Code, seven: bool, nine: bool, seven2: bool, nine2: bool)
    requires Idles(p, q, seven, nine) && (seven2 ==> seven) && (nine2 ==> nine)
    ensures Idles(p, q, seven2, nine2)
  {
    hide Run, Gets;
    forall n: Code, o: Oracle, m: Machine | q <= n && |m.r| == 11 && m.pc == |p| ensures IdlesTo(n, o, m, q, seven2, nine2) {
      assert IdlesTo(n, o, m, q, seven, nine);
      var m2: Machine :| IdledBy(n, o, m, q, seven, nine, m2);
      assert IdledBy(n, o, m, q, seven2, nine2, m2);
    }
  }

  /** Offsets of the blob that code may write to: the relocated program, the descriptor slots of kfuncs, and fresh data. */
  datatype Area = Area(lo: int, hi: int, from: int, to: int)

  predicate Inside(y: int, a: Area) {
    a.lo <= y < a.hi || 256 <= y < 1280 || a.from <= y < a.to
  }

  /** Code that issues no command and writes nowhere but there; it may give up and go to the cleanup code.
      With `at`, it starts with the address of that offset in R8. */
  ghost predicate Stays(p: Code, q: Code, home: int, at: Option<int>, a: Area) {
    p <= q && forall n: Code, o: Oracle, m: Machine {:trigger StaysTo(n, o, m, q, home, a)} ::
      q <= n && |m.r| == 11 && m.pc == |p| && (at == None || m.r[8] == o.blob + at.value) ==> StaysTo(n, o, m, q, home, a)
  }

  ghost predicate StaysTo(n: Code, o: Oracle, m: Machine, q: Code, home: int, a: Area) {
    exists m2: Machine :: StayedBy(n, o, m, q, home, a, m2)
  }

  ghost predicate StayedBy(n: Code, o: Oracle, m: Machine, q: Code, home: int, a: Area, m2: Machine) {
    && Gets(n, o, m, m2) && (m2.pc == |q| || m2.pc == home) && Adds(m.trace, m2.trace)
    && m2.r[6] == m.r[6] && m2.r[10] == m.r[10]
    && (forall x :: m2.mem(x) == m.mem(x) || Inside(x - o.blob, a))
  }

  lemma {:induction false} DoStay(n: Code, o: Oracle, m0: Machine, m: Machine, p: Code, q: Code, home: int, at: Option<int>, a: Area)
    returns (m2: Machine)
    requires Gets(n, o, m0, m) && m.pc == |p| && q <= n && Stays(p, q, home, at, a) && (at == None || m.r[8] == o.blob + at.value)
    ensures Gets(n, o, m0, m2) && StayedBy(n, o, m, q, home, a, m2)
  {
    hide Run, StayedBy;
    assert StaysTo(n, o, m, q, home, a);
    m2 :| StayedBy(n, o, m, q, home, a, m2);
    StayedGets(n, o, m, q, home, a, m2);
    GetsTrans(n, o, m0, m, m2);
  }

  lemma {:induction false} StayedGets(n: Code, o: Oracle, m: Machine, q: Code, home: int, a: Area, m2: Machine)
    requires StayedBy(n, o, m, q, home, a, m2)
    ensures Gets(n, o, m, m2)
  {
  }

  /** Two pieces one after the other. */
  lemma {:induction false} StaysOn(p: Code, q: Code, r: Code, home: int, a: Area, b: Area, c: Area)
    requires Stays(p, q, home, None, a) && Stays(q, r, home, None, b)
    requires forall y :: Inside(y, a) || Inside(y, b) ==> Inside(y, c)
    ensures Stays(p, r, home, None, c)
  {
    hide Gets, StayedBy, Inside;
    assert p <= r;
    forall n: Code, o: Oracle, m: Machine | r <= n && |m.r| == 11 && m.pc == |p| ensures StaysTo(n, o, m, r, home, c) {
      assert q <= n;
      StayTwice(n, o, m, p, q, r, home, a, b, c);
    }
  }

  lemma {:induction false} StayTwice(n: Code, o: Oracle, m: Machine, p: Code, q: Code, r: Code, home: int, a: Area, b: Area, c: Area)
    requires Stays(p, q, home, None, a) && Stays(q, r, home, None, b) && q <= n && r <= n && |m.r| == 11 && m.pc == |p|
    requires forall y :: Inside(y, a) || Inside(y, b) ==> Inside(y, c)
    ensures StaysTo(n, o, m, r, home, c)
  {
    hide Run, Stays, Inside;
    GetsSelf(n, o, m);
    var m1 := DoStay(n, o, m, m, p, q, home, None, a);
    if m1.pc == |q| {
      var m2 := DoStay(n, o, m, m1, q, r, home, None, b);
      assert StayedBy(n, o, m, r, home, c, m2);
    } else {
      assert StayedBy(n, o, m, r, home, c, m1);
    }
  }
}
