/** The ends of a loader's runs: what a successful one leaves in the context, and that the cleanup code issues nothing. */
module GenReturns {
  import opened Common
  import opened BpfMachine
  import opened BpfFlow
  import opened BpfSafety
  import opened BpfRuns
  import opened GenEmit
  import opened GenRuns
  import opened GenMeaning
  import opened GenTasks

  /** The prologue keeps the context's address, clears the stack, and jumps to the body. */
  lemma {:induction false} DoPrologue(n: Code, o: Oracle, m: Machine, dist: nat) returns (m2: Machine)
    requires |m.r| == 11 && m.pc == 0 && PrologueCode([]) + [Jmp(Ja, 0, 0, dist)] <= n
    ensures Gets(n, o, m, m2) && m2.pc == HOME + dist && m2.r[6] == m.r[1] && m2.r[10] == m.r[10] && m2.trace == m.trace
    ensures m2.mem == ZeroMem(m.mem, m.r[10] - STACK_SZ, STACK_SZ)
  {
    hide Run;
    GetsSelf(n, o, m);
    m2 := DoMovReg(n, o, m, m, 6, 1);
    m2 := DoMovReg(n, o, m, m2, 1, 10);
    m2 := DoAlu(n, o, m, m2, Add, 1, -STACK_SZ);
    m2 := DoMovImm(n, o, m, m2, 2, STACK_SZ);
    m2 := DoMovImm(n, o, m, m2, 3, 0);
    m2 := DoCall(n, o, m, m2, ProbeRead);
    m2 := DoJmp(n, o, m, m2, Ja, 0, 0, dist);
  }

  lemma {:induction false} ZeroWord(mem: Mem, a: int, n: nat)
    requires forall x :: a <= x < a + n ==> mem(x) == 0
    ensures LoadMem(mem, a, n) == 0
    decreases n
  {
    if n > 0 { ZeroWord(mem, a + 1, n - 1); }
  }

  lemma {:induction false} StartSound(w: World, dl: int, m: Machine, m2: Machine)
    requires Enters(w, m) && Apart(w) && 0 <= dl <= w.top && |m2.r| == 11 && m2.r[6] == m.r[1] && m2.r[10] == m.r[10] && m2.trace == []
    requires m2.mem == ZeroMem(m.mem, m.r[10] - STACK_SZ, STACK_SZ)
    ensures Sound(w, dl, [], m2)
  {
    hide LoadMem;
    ZeroWord(m2.mem, w.sp - STACK_SZ, 4);
    ZeroWord(m2.mem, w.sp - STACK_SZ + 4, 4);
  }

  /** Every run passes the prologue and the jump over the cleanup code. */
  lemma {:induction false} PrologueArrives(p: Code, dist: nat, dl: nat)
    requires JumpsOver(p, dist) && |p| == HOME + dist && dist < 0x8000
    ensures Arrives(p, HOME, dl, [])
  {
    hide Run, PrologueCode, Sound, ZeroMem;
    assert PrologueCode([]) + [Jmp(Ja, 0, 0, dist)] == p[..HOME] <= p;
    forall n: Code, w: World, m: Machine | p <= n && Apart(w) && dl <= w.top && Enters(w, m) ensures ArrivesTo(n, w, [], m, p, HOME, dl) {
      var m2 := DoPrologue(n, w.o, m, dist);
      StartSound(w, dl, m, m2);
      assert ArrivedBy(n, w, [], m, p, HOME, dl, m2);
    }
  }

  /** The descriptors of the first `n` programs go from the stack to their places in the context, after the maps'. */
  function ProgFdsCode(p: Code, nr_maps: nat, n: nat): (q: Code)
    ensures p <= q
  {
    if n == 0 then p
    else Stack2CtxCode(ProgFdsCode(p, nr_maps, n - 1), CTX_SIZE + MAP_DESC_SIZE * nr_maps + 4 * (n - 1), 4, PROG_FD + 4 * (n - 1))
  }

  /** The descriptors of the first `n` maps go from the blob to their places in the context. */
  function MapFdsCode(p: Code, n: nat): (q: Code)
    ensures p <= q
  {
    if n == 0 then p else Blob2CtxCode(MapFdsCode(p, n - 1), CTX_SIZE + MAP_DESC_SIZE * (n - 1), 4, 4 * (n - 1))
  }

  /** The descriptors of maps, 16 bytes apart. */
  ghost predicate MapFds(mem: Mem, base: int, vs: seq<int>) {
    forall i {:trigger vs[i]} :: 0 <= i < |vs| ==> LoadMem(mem, base + MAP_DESC_SIZE * i, 4) == U32(vs[i])
  }

  /** What a loader that succeeded returns in its context: the descriptors of all maps, and then of all programs. */
  ghost predicate Returned(w: World, s: Slots, mem: Mem) {
    && |s.stack| >= 2 && MapFds(mem, w.ctx + CTX_SIZE, s.maps)
    && Words(mem, w.ctx + CTX_SIZE + MAP_DESC_SIZE * |s.maps|, s.stack[2..])
  }

  /** The run from `m` to `m2` changed nothing but so much of the context. */
  ghost predicate Returning(n: Code, w: World, m: Machine, m2: Machine, lo: int, hi: int) {
    && Gets(n, w.o, m, m2) && Kept(m, m2) && (forall x :: m2.mem(x) == m.mem(x) || w.ctx + lo <= x < w.ctx + hi)
  }

  lemma {:induction false} DoProgFds(n: Code, w: World, s: Slots, dl: int, m: Machine, p: Code, k: nat) returns (m2: Machine)
    requires |m.r| == 11 && m.r[6] == w.ctx && m.r[10] == w.sp && Apart(w) && Keeps(w, dl, s, m.mem) && m.pc == |p|
    requires ProgFdsCode(p, |s.maps|, k) <= n && 2 + k <= |s.stack|
    ensures var off := CTX_SIZE + MAP_DESC_SIZE * |s.maps|;
            Returning(n, w, m, m2, off, off + 4 * k) && m2.pc == |ProgFdsCode(p, |s.maps|, k)| && Words(m2.mem, w.ctx + off, s.stack[2..2 + k])
    decreases k
  {
    hide Run, Stack2CtxCode, LoadMem, StoreMem, S64, Apart, Keeps;
    FewSlots(w, dl, s, m.mem);
    if k == 0 {
      GetsSelf(n, w.o, m);
      m2 := m;
    } else {
      var off := CTX_SIZE + MAP_DESC_SIZE * |s.maps|;
      var q := ProgFdsCode(p, |s.maps|, k - 1);
      var m1 := DoProgFds(n, w, s, dl, m, p, k - 1);
      m2 := DoStack2Ctx(n, w.o, m, m1, q, off + 4 * (k - 1), 4, PROG_FD + 4 * (k - 1));
      StackSame(w, s, dl, m.mem, m1.mem, k + 1);
      WordPut(m1.mem, w.ctx + off, s.stack[2..1 + k], k - 1, U32(s.stack[k + 1]));
      SameWords(m2.mem, w.ctx + off, Put(s.stack[2..1 + k], k - 1, U32(s.stack[k + 1])), s.stack[2..2 + k]);
      StoreWithin(m1.mem, w.ctx + off + 4 * (k - 1), U32(s.stack[k + 1]));
    }
  }

  lemma {:induction false} FewSlots(w: World, dl: int, s: Slots, mem: Mem)
    requires Keeps(w, dl, s, mem)
    ensures |s.stack| <= 2 + MAX_USED_PROGS && |s.maps| <= MAX_USED_MAPS
  {
  }

  lemma {:induction false} StoreWithin(mem: Mem, a: int, v: int)
    ensures forall x :: StoreMem(mem, a, 4, v)(x) == mem(x) || a <= x < a + 4
  {
  }

  /** A write to the context does not change a descriptor on the stack. */
  lemma {:induction false} StackSame(w: World, s: Slots, dl: int, mem: Mem, mem2: Mem, i: nat)
    requires Apart(w) && Keeps(w, dl, s, mem) && i < |s.stack|
    requires forall x :: mem2(x) == mem(x) || w.ctx <= x < w.ctx + CTX_ROOM
    ensures S64(LoadMem(mem2, w.sp - STACK_SZ + 4 * i, 4)) == U32(s.stack[i])
  {
    hide S64;
    LoadSame(mem, mem2, w.sp - STACK_SZ + 4 * i, 4);
    SmallIs(U32(s.stack[i]));
  }

  lemma {:induction false} SlotStays(w: World, s: Slots, dl: int, mem: Mem, mem2: Mem, i: nat)
    requires Apart(w) && Keeps(w, dl, s, mem) && i < |s.maps| && 1280 <= dl <= w.top
    requires forall x :: mem2(x) == mem(x) || w.ctx <= x < w.ctx + CTX_ROOM
    ensures S64(LoadMem(mem2, w.o.blob + 4 * i, 4)) == U32(s.maps[i])
  {
    hide S64;
    LoadSame(mem, mem2, w.o.blob + 4 * i, 4);
    SmallIs(U32(s.maps[i]));
  }

  /** Words that are the same in 32 bits. */
  lemma {:induction false} SameWords(mem: Mem, base: int, vs: seq<int>, vs2: seq<int>)
    requires Words(mem, base, vs) && |vs| == |vs2| && forall i :: 0 <= i < |vs| ==> U32(vs[i]) == U32(vs2[i])
    ensures Words(mem, base, vs2)
  {
    hide LoadMem;
    forall i | 0 <= i < |vs2| ensures LoadMem(mem, base + 4 * i, 4) == U32(vs2[i]) { assert U32(vs[i]) == U32(vs2[i]); }
  }

  lemma {:induction false} DoMapFds(n: Code, w: World, s: Slots, dl: int, m0: Mem, m: Machine, p: Code, k: nat) returns (m2: Machine)
    requires |m.r| == 11 && m.r[6] == w.ctx && m.r[10] == w.sp && Apart(w) && Keeps(w, dl, s, m0) && m.pc == |p| && 1280 <= dl <= w.top
    requires forall x :: m.mem(x) == m0(x) || w.ctx <= x < w.ctx + CTX_ROOM
    requires MapFdsCode(p, k) <= n && k <= |s.maps|
    ensures Returning(n, w, m, m2, CTX_SIZE, CTX_SIZE + MAP_DESC_SIZE * k) && m2.pc == |MapFdsCode(p, k)|
    ensures MapFds(m2.mem, w.ctx + CTX_SIZE, s.maps[..k])
    decreases k
  {
    hide Run, Blob2CtxCode, LoadMem, StoreMem, S64, Apart, Words;
    if k == 0 {
      GetsSelf(n, w.o, m);
      m2 := m;
    } else {
      var off := CTX_SIZE + MAP_DESC_SIZE * (k - 1);
      var q := MapFdsCode(p, k - 1);
      var m1 := DoMapFds(n, w, s, dl, m0, m, p, k - 1);
      m2 := DoBlob2Ctx(n, w.o, m, m1, q, off, 4, 4 * (k - 1));
      SlotStays(w, s, dl, m0, m1.mem, k - 1);
      MapFdPut(m1.mem, w.ctx + CTX_SIZE, s.maps, k - 1);
      StoreWithin(m1.mem, w.ctx + off, U32(s.maps[k - 1]));
    }
  }

  lemma {:induction false} MapFdPut(mem: Mem, base: int, vs: seq<int>, k: nat)
    requires k < |vs| && MapFds(mem, base, vs[..k])
    ensures MapFds(StoreMem(mem, base + MAP_DESC_SIZE * k, 4, U32(vs[k])), base, vs[..k + 1])
  {
    hide LoadMem, StoreMem;
    var a := base + MAP_DESC_SIZE * k;
    var mem2 := StoreMem(mem, a, 4, U32(vs[k]));
    var vs2 := vs[..k + 1];
    forall i | 0 <= i < |vs2| ensures LoadMem(mem2, base + MAP_DESC_SIZE * i, 4) == U32(vs2[i]) {
      if i < k {
        assert vs[..k][i] == vs2[i];
        LoadElsewhere(mem, a, 4, U32(vs[k]), base + MAP_DESC_SIZE * i, 4);
      } else {
        LoadStored(mem, a, 4, U32(vs[k]));
        Powers();
      }
    }
  }

  /** The code that returns the descriptors, after the loader's own BTF is closed up to `q`. */
  lemma {:induction false} DoReturn(n: Code, w: World, s: Slots, dl: int, m: Machine, p: Code, q: Code) returns (m2: Machine)
    requires |m.r| == 11 && m.r[6] == w.ctx && m.r[10] == w.sp && Apart(w) && Keeps(w, dl, s, m.mem) && m.pc == |p| && 1280 <= dl <= w.top
    requires Idles(p, q, true, false) && MapFdsCode(ProgFdsCode(q, |s.maps|, |s.stack| - 2), |s.maps|) <= n
    ensures Gets(n, w.o, m, m2) && Adds(m.trace, m2.trace) && Returned(w, s, m2.mem)
    ensures m2.pc == |MapFdsCode(ProgFdsCode(q, |s.maps|, |s.stack| - 2), |s.maps|)|
  {
    hide Run, MapFdsCode, ProgFdsCode, LoadMem, Apart, Words, MapFds, IdlesTo;
    var c := ProgFdsCode(q, |s.maps|, |s.stack| - 2);
    assert q <= c <= MapFdsCode(c, |s.maps|) <= n;
    GetsSelf(n, w.o, m);
    var m1 := DoIdle(n, w.o, m, m, p, q, true, false);
    var m3 := DoProgFds(n, w, s, dl, m1, q, |s.stack| - 2);
    assert s.stack[2..2 + (|s.stack| - 2)] == s.stack[2..];
    m2 := DoMapFds(n, w, s, dl, m.mem, m3, c, |s.maps|);
    assert s.maps[..|s.maps|] == s.maps;
    WordsSame(m3.mem, m2.mem, w.ctx + CTX_SIZE + MAP_DESC_SIZE * |s.maps|, s.stack[2..]);
    GetsTrans(n, w.o, m, m1, m3);
    GetsTrans(n, w.o, m, m3, m2);
  }

  /** All that is reached from the prologue or the body is there, or in the cleanup code. */
  lemma {:induction false} StaysInside(p: Code, home: nat, mid: nat, o: Oracle, m: Machine, k: nat, m2: Machine)
    requires Loader(p, home, mid) && InMain(p, home, mid, o.blob, m) && |m.r| == 11 && Run(p, o, m, k) == Next(m2)
    ensures InMain(p, home, mid, o.blob, m2) || InCleanup(p, home, mid, o.blob, m2)
    decreases k
  {
    hide Loader, InMain, InCleanup, Step;
    if k > 0 {
      MainStep(p, home, mid, o, m);
      var s := Step(p, o, m);
      StepRegs(p, o, m);
      if InMain(p, home, mid, o.blob, s.m) {
        StaysInside(p, home, mid, o, s.m, k - 1, m2);
      } else {
        StaysInCleanup(p, home, mid, o, s.m, k - 1, m2);
      }
    }
  }

  lemma {:induction false} CleanupIs(p: Code, home: nat, mid: nat, blob: int, m: Machine)
    requires InCleanup(p, home, mid, blob, m)
    ensures |m.r| == 11 && home <= m.pc < mid <= |p| && m.r[7] < 0
  {
  }

  lemma {:induction false} StaysInCleanup(p: Code, home: nat, mid: nat, o: Oracle, m: Machine, k: nat, m2: Machine)
    requires Loader(p, home, mid) && InCleanup(p, home, mid, o.blob, m) && |m.r| == 11 && Run(p, o, m, k) == Next(m2)
    ensures InCleanup(p, home, mid, o.blob, m2)
    decreases k
  {
    hide Loader, InCleanup, Step;
    if k > 0 {
      CleanupIs(p, home, mid, o.blob, m);
      CleanupStep(p, home, mid, o, m);
      StepRegs(p, o, m);
      StaysInCleanup(p, home, mid, o, Step(p, o, m).m, k - 1, m2);
    }
  }

  /** The cleanup code returns the negative R7, and issues no command. */
  lemma {:induction false} CleanupReturns(p: Code, home: nat, mid: nat, o: Oracle, m: Machine, k: nat)
    requires Loader(p, home, mid) && InCleanup(p, home, mid, o.blob, m) && |m.r| == 11 && k >= mid - m.pc
    ensures var s := Run(p, o, m, k); s.Done? && s.ret < 0 && Adds(m.trace, s.last.trace)
    decreases k
  {
    hide Loader, InCleanup, Step;
    CleanupIs(p, home, mid, o.blob, m);
    CleanupStep(p, home, mid, o, m);
    if m.pc != mid - 1 {
      StepRegs(p, o, m);
      NoCommand(p, home, mid, o, m);
      CleanupReturns(p, home, mid, o, Step(p, o, m).m, k - 1);
    }
  }

  lemma {:induction false} NoCommand(p: Code, home: nat, mid: nat, o: Oracle, m: Machine)
    requires Loader(p, home, mid) && |m.r| == 11 && home <= m.pc < mid && Step(p, o, m).Next?
    ensures Adds(m.trace, Step(p, o, m).m.trace)
  {
    hide Typed, FlowOf, FlowAt;
    assert CleanupSlot(p[m.pc], m.pc, mid);
  }

  lemma {:induction false} RunLonger(p: Code, o: Oracle, m: Machine, j: nat, k: nat)
    requires |m.r| == 11 && Run(p, o, m, j).Done? && j <= k
    ensures Run(p, o, m, k) == Run(p, o, m, j)
    decreases j
  {
    hide Step;
    if j > 0 && Step(p, o, m).Next? {
      StepRegs(p, o, m);
      RunLonger(p, o, Step(p, o, m).m, j - 1, k - 1);
    }
  }

  /** Two runs from one state that both end, one by way of `m1`, end alike. */
  lemma {:induction false} SameEnd(p: Code, o: Oracle, m: Machine, m1: Machine, j: nat, k: nat)
    requires Gets(p, o, m, m1) && Run(p, o, m1, j).Done? && Run(p, o, m, k).Done?
    ensures Run(p, o, m, k) == Run(p, o, m1, j)
  {
    hide Run;
    var i: nat :| Run(p, o, m, i) == Next(m1);
    RunAdd(p, o, m, i, m1, j);
    if i + j <= k { RunLonger(p, o, m, i + j, k); } else { RunLonger(p, o, m, k, i + j); }
  }

  /** The last two slots return 0. */
  lemma {:induction false} ReturnsZero(p: Code, o: Oracle, m: Machine)
    requires |m.r| == 11 && m.pc + 2 == |p| && p[m.pc] == MovImm(0, 0) && p[m.pc + 1] == Exit
    ensures var s := Run(p, o, m, 2); s.Done? && s.ret == 0 && s.last.trace == m.trace && s.last.mem == m.mem
  {
    var m1 := Set(m, 0, 0, 1);
    assert Step(p, o, m) == Next(m1);
    assert Step(p, o, m1) == Done(m1, 0);
    assert Run(p, o, m1, 1) == Done(m1, 0);
  }

  function ReturnCode(q: Code, maps: nat, progs: nat): (n: Code)
    ensures q <= n
  {
    MapFdsCode(ProgFdsCode(q, maps, progs), maps)
  }

  /** A finished loader: its body up to `p`, the loader's BTF closed up to `q`, the descriptors returned. */
  ghost predicate Finishes(n: Code, p: Code, q: Code, maps: nat, progs: nat) {
    Idles(p, q, true, false) && n == ReturnCode(q, maps, progs) + [MovImm(0, 0)] + [Exit]
  }

  /** How a run of a loader must end: the commands it issued are those wanted, or a part of them if it failed, each with
      the right attributes; and if it succeeded it returns all descriptors. */
  ghost predicate EndsAsWanted(w: World, ws: seq<Want>, s: Outcome) {
    && s.Done? && s.ret <= 0 && Partly(w, ws, s.last.trace)
    && (s.ret == 0 ==> Good(w, ws, s.last.trace) && Returned(w, SlotsIn(ws, s.last.trace), s.last.mem))
  }

  lemma {:induction false} EndsAtBody(n: Code, w: World, ws: seq<Want>, m: Machine, p: Code, q: Code, dl: int) returns (m2: Machine)
    requires Sound(w, dl, ws, m) && m.pc == |p| && Apart(w) && 1280 <= dl <= w.top && Finishes(n, p, q, Maps(ws), Progs(ws))
    ensures Gets(n, w.o, m, m2) && EndsAsWanted(w, ws, Run(n, w.o, m2, 2))
  {
    hide Run, Good, SlotsIn, Keeps, Apart, Returned, MapFdsCode, ProgFdsCode, Idles;
    var s := SlotsIn(ws, m.trace);
    SlotCounts(w, ws, m.trace);
    assert MapFdsCode(ProgFdsCode(q, |s.maps|, |s.stack| - 2), |s.maps|) <= n;
    m2 := DoReturn(n, w, s, dl, m, p, q);
    GoodAdds(w, ws, m.trace, m2.trace);
    ReturnsZero(n, w.o, m2);
    assert ws[..|ws|] == ws;
  }

  lemma {:induction false} EndsAtHome(n: Code, home: nat, mid: nat, w: World, ws: seq<Want>, m: Machine)
    requires Loader(n, home, mid) && InCleanup(n, home, mid, w.o.blob, m) && |m.r| == 11 && Partly(w, ws, m.trace)
    ensures EndsAsWanted(w, ws, Run(n, w.o, m, mid))
  {
    hide Run, Good, InCleanup, Loader, Adds;
    CleanupReturns(n, home, mid, w.o, m, mid);
    var k: nat :| k <= |ws| && Good(w, ws[..k], m.trace);
    GoodAdds(w, ws[..k], m.trace, Run(n, w.o, m, mid).last.trace);
  }

  /** Every run of a finished loader ends as wanted. */
  lemma {:induction false} WholeRun(n: Code, home: nat, mid: nat, w: World, ws: seq<Want>, m: Machine, p: Code, q: Code, dl: int)
    requires Loader(n, home, mid) && Arrives(p, home, dl, ws) && Finishes(n, p, q, Maps(ws), Progs(ws))
    requires Apart(w) && 1280 <= dl <= w.top && Enters(w, m) && m.cause == None
    ensures EndsAsWanted(w, ws, Run(n, w.o, m, 2 * |n|))
  {
    hide Run, Good, EndsAsWanted, Sound, Apart, Partly;
    FinishesOn(n, p, q, Maps(ws), Progs(ws));
    assert ArrivesTo(n, w, ws, m, p, home, dl);
    var m1: Machine :| ArrivedBy(n, w, ws, m, p, home, dl, m1);
    EndDone(n, home, mid, w, m);
    if m1.pc == |p| && Sound(w, dl, ws, m1) {
      var m2 := EndsAtBody(n, w, ws, m1, p, q, dl);
      GetsTrans(n, w.o, m, m1, m2);
      WantedDone(w, ws, Run(n, w.o, m2, 2));
      SameEnd(n, w.o, m, m2, 2, 2 * |n|);
    } else {
      ReachesHome(n, home, mid, w, m, m1);
      EndsAtHome(n, home, mid, w, ws, m1);
      WantedDone(w, ws, Run(n, w.o, m1, mid));
      SameEnd(n, w.o, m, m1, mid, 2 * |n|);
    }
  }

  lemma {:induction false} WantedDone(w: World, ws: seq<Want>, s: Outcome)
    requires EndsAsWanted(w, ws, s)
    ensures s.Done?
  {
  }

  lemma {:induction false} FinishesOn(n: Code, p: Code, q: Code, maps: nat, progs: nat)
    requires Finishes(n, p, q, maps, progs)
    ensures p <= n
  {
    assert p <= q <= ProgFdsCode(q, maps, progs) <= MapFdsCode(ProgFdsCode(q, maps, progs), maps) <= n;
  }

  lemma {:induction false} EndDone(n: Code, home: nat, mid: nat, w: World, m: Machine)
    requires Loader(n, home, mid) && Enters(w, m) && m.cause == None
    ensures Run(n, w.o, m, 2 * |n|).Done? && InMain(n, home, mid, w.o.blob, m)
  {
    hide Run;
    assert OkAt(n, home, 0);
    MainEnds(n, home, mid, w.o, m, 2 * |n|);
  }

  lemma {:induction false} ReachesHome(n: Code, home: nat, mid: nat, w: World, m: Machine, m1: Machine)
    requires Loader(n, home, mid) && InMain(n, home, mid, w.o.blob, m) && Gets(n, w.o, m, m1) && m1.pc == home
    ensures InCleanup(n, home, mid, w.o.blob, m1)
  {
    hide Run, Loader, Tracks, InCleanup;
    var k: nat :| Run(n, w.o, m, k) == Next(m1);
    StaysInside(n, home, mid, w.o, m, k, m1);
    LoaderMid(n, home, mid);
  }

  lemma {:induction false} LoaderMid(n: Code, home: nat, mid: nat)
    requires Loader(n, home, mid)
    ensures home < mid
  {
  }
}
