/** Every run of a loader program reaches an exit, and what its return value means. */
module BpfSafety {
  import opened Common
  import opened BpfMachine
  import opened BpfFlow

  predicate Sequential(x: Insn) {
    x.MovReg? || x.MovImm? || x.Alu? || x.Ldx? || x.Stx? || x.St?
  }

  /** One step that changes at most one register and falls through keeps what is known. */
  lemma {:induction false} SequentialHolds(p: Code, o: Oracle, k: Know, m: Machine)
    requires |m.r| == 11 && m.pc < |p| && Sequential(p[m.pc]) && Holds(k, m, o.blob) && (k == Returned ==> p[m.pc] == MovReg(7, 0))
    ensures var s := Step(p, o, m);
            && s.Next? && |s.m.r| == 11 && s.m.pc == m.pc + 1 && s.m.trace == m.trace && s.m.cause == m.cause
            && Holds(Learn(k, p[m.pc]), s.m, o.blob)
            && (k == Returned ==> Bpfs(m.trace) != [] && s.m.r[7] == LastRet(Bpfs(m.trace)))
            && (k != Returned && !WritesR7(p[m.pc]) ==> s.m.r[7] == m.r[7])
  {
  }

  /** A 64-bit load takes two slots. */
  lemma {:induction false} LoadHolds(p: Code, o: Oracle, k: Know, m: Machine)
    requires |m.r| == 11 && m.pc + 1 < |p| && p[m.pc].LdLo? && p[m.pc + 1] == LdHi && Holds(k, m, o.blob)
    ensures var s := Step(p, o, m);
            && s.Next? && |s.m.r| == 11 && s.m.pc == m.pc + 2 && s.m.trace == m.trace && s.m.cause == m.cause
            && Holds(Learn(Learn(k, p[m.pc]), LdHi), s.m, o.blob)
            && (!WritesR7(p[m.pc]) ==> s.m.r[7] == m.r[7])
  {
  }

  /** What one more event adds to a trace. */
  lemma {:induction false} TraceOn(t: seq<Event>, e: Event)
    requires ClosesOnlyPositive(t) && (e.Closed? ==> e.fd > 0)
    ensures ClosesOnlyPositive(t + [e]) && Bpfs(t + [e]) == if e.Bpf? then Bpfs(t) + [e] else Bpfs(t)
  {
    BpfsAppend(t, e);
  }

  /** What a call adds to the trace. */
  lemma {:induction false} CallTrace(p: Code, o: Oracle, k: Know, m: Machine)
    requires |m.r| == 11 && m.pc < |p| && p[m.pc].Call? && ClosesOnlyPositive(m.trace) && Holds(k, m, o.blob)
    requires p[m.pc] == Call(SysClose) ==> k == Positive
    requires p[m.pc] == Call(SysBpf) ==> k.CmdArgs?
    ensures var ret := AfterCall(m.r, o, m.now)[0];
            var t := m.trace + Observed(p[m.pc].func, m.r, m.mem, ret);
            && ClosesOnlyPositive(t)
            && Bpfs(t) == if p[m.pc] == Call(SysBpf)
                          then Bpfs(m.trace) + [Bpf(k.cmd, o.blob + k.attr, k.size, ret, m.mem)] else Bpfs(m.trace)
  {
    var ret := AfterCall(m.r, o, m.now)[0];
    var es := Observed(p[m.pc].func, m.r, m.mem, ret);
    hide Bpfs, ClosesOnlyPositive, AfterCall;
    if |es| == 1 {
      TraceOn(m.trace, es[0]);
    } else {
      assert m.trace + [] == m.trace;
    }
  }

  lemma {:induction false} CallHolds(p: Code, o: Oracle, k: Know, m: Machine)
    requires |m.r| == 11 && m.pc < |p| && p[m.pc].Call? && ClosesOnlyPositive(m.trace) && Holds(k, m, o.blob)
    requires p[m.pc] == Call(SysClose) ==> k == Positive
    requires p[m.pc] == Call(SysBpf) ==> k.CmdArgs?
    ensures var s := Step(p, o, m);
            && s.Next? && |s.m.r| == 11 && s.m.pc == m.pc + 1 && s.m.r[7] == m.r[7] && s.m.cause == m.cause
            && ClosesOnlyPositive(s.m.trace) && Holds(Learn(k, p[m.pc]), s.m, o.blob)
            && Bpfs(s.m.trace) == if p[m.pc] == Call(SysBpf)
                                  then Bpfs(m.trace) + [Bpf(k.cmd, o.blob + k.attr, k.size, s.m.r[0], m.mem)] else Bpfs(m.trace)
  {
    hide Observed, Bpfs, ClosesOnlyPositive;
    CallTrace(p, o, k, m);
  }

  /** A command's result becomes due. */
  lemma {:induction false} TracksCall(p: Code, home: nat, o: Oracle, m: Machine, f: Flow, cs: seq<(int, int, int)>)
    requires |m.r| == 11 && m.pc < |p| && Tracks(f, cs, m, o.blob) && Accepts(f, m.pc, p[m.pc], home) && p[m.pc].Call?
    ensures var s := Step(p, o, m);
            && s.Next? && |s.m.r| == 11 && s.m.pc == m.pc + 1
            && Tracks(Then(f, m.pc, p[m.pc]), Issue(cs, f.know, p[m.pc]), s.m, o.blob)
  {
    CallHolds(p, o, f.know, m);
  }

  lemma {:induction false} TracksSequential(p: Code, home: nat, o: Oracle, m: Machine, f: Flow, cs: seq<(int, int, int)>)
    requires |m.r| == 11 && m.pc < |p| && Tracks(f, cs, m, o.blob) && Accepts(f, m.pc, p[m.pc], home) && Sequential(p[m.pc])
    ensures var s := Step(p, o, m);
            && s.Next? && |s.m.r| == 11 && s.m.pc == m.pc + 1
            && Tracks(Then(f, m.pc, p[m.pc]), cs, s.m, o.blob)
  {
    SequentialHolds(p, o, f.know, m);
    var g := Then(f, m.pc, p[m.pc]);
    assert g.know != Returned && g.due == (f.know == Returned || f.due);
  }

  lemma {:induction false} TracksNoJump(p: Code, home: nat, o: Oracle, m: Machine, f: Flow, cs: seq<(int, int, int)>)
    requires |m.r| == 11 && m.pc < |p| && Tracks(f, cs, m, o.blob) && Accepts(f, m.pc, p[m.pc], home)
    requires p[m.pc].Jmp? && !Taken(p[m.pc].jop, m.r[p[m.pc].dst], p[m.pc].imm)
    ensures var s := Step(p, o, m);
            && s.Next? && |s.m.r| == 11 && s.m.pc == m.pc + 1
            && Tracks(Then(f, m.pc, p[m.pc]), cs, s.m, o.blob)
  {
  }

  lemma {:induction false} TracksLoad(p: Code, home: nat, o: Oracle, m: Machine, f: Flow, cs: seq<(int, int, int)>)
    requires |m.r| == 11 && m.pc + 1 < |p| && Tracks(f, cs, m, o.blob)
    requires Accepts(f, m.pc, p[m.pc], home) && p[m.pc].LdLo? && p[m.pc + 1] == LdHi
    ensures var s := Step(p, o, m);
            && s.Next? && |s.m.r| == 11 && s.m.pc == m.pc + 2
            && Tracks(Then(Then(f, m.pc, p[m.pc]), m.pc + 1, LdHi), cs, s.m, o.blob)
  {
    LoadHolds(p, o, f.know, m);
  }

  lemma {:induction false} AfterSlot(p: Code, home: nat, i: nat)
    requires Typed(p, home) && i + 1 < |p| && !p[i].LdLo? && p[i] != LdHi
    ensures Accepts(FlowAt(p, i), i, p[i], home) && p[i + 1] != LdHi
    ensures FlowAt(p, i + 1) == Then(FlowAt(p, i), i, p[i])
    ensures CmdsAt(p, i + 1) == Issue(CmdsAt(p, i), FlowAt(p, i).know, p[i])
  {
    assert OkAt(p, home, i) && OkAt(p, home, i + 1);
  }

  lemma {:induction false} MainFallsThrough(p: Code, home: nat, mid: nat, o: Oracle, m: Machine)
    requires Loader(p, home, mid) && InMain(p, home, mid, o.blob, m)
    requires p[m.pc] != Exit && !p[m.pc].LdLo?
    requires p[m.pc].Jmp? ==> !Taken(p[m.pc].jop, m.r[p[m.pc].dst], p[m.pc].imm)
    ensures var s := Step(p, o, m); s.Next? && s.m.pc == m.pc + 1 && InMain(p, home, mid, o.blob, s.m)
  {
    hide Tracks, Holds, FlowAt, CmdsAt, Learn, Typed, Accepts, Then, Step, FlowOf;
    var f, cs := FlowAt(p, m.pc), CmdsAt(p, m.pc);
    assert m.pc + 1 != home && m.pc + 1 < |p|;
    AfterSlot(p, home, m.pc);
    if p[m.pc].Call? {
      TracksCall(p, home, o, m, f, cs);
    } else if p[m.pc].Jmp? {
      TracksNoJump(p, home, o, m, f, cs);
    } else {
      TracksSequential(p, home, o, m, f, cs);
    }
  }

  /** A 64-bit load of the prologue or the body is followed by its second slot, and by another one there. */
  lemma {:induction false} LoadPair(p: Code, home: nat, mid: nat, i: nat)
    requires Loader(p, home, mid) && i < |p| && p[i].LdLo? && (i < home || mid <= i)
    ensures i + 2 < |p| && p[i + 1] == LdHi && p[i + 2] != LdHi && (i + 2 < home || mid <= i + 2) && Accepts(FlowAt(p, i), i, p[i], home)
    ensures FlowAt(p, i + 2) == Then(Then(FlowAt(p, i), i, p[i]), i + 1, LdHi) && CmdsAt(p, i + 2) == CmdsAt(p, i)
  {
    hide CleanupSlot;
    assert i + 1 < |p| && i + 1 != home;
    assert OkAt(p, home, i) && OkAt(p, home, i + 1);
    assert p[i + 1] == LdHi && i + 2 < |p| && i + 2 != home + 1;
    assert OkAt(p, home, i + 2);
    assert FlowAt(p, i + 2) == Then(FlowAt(p, i + 1), i + 1, LdHi) && CmdsAt(p, i + 2) == CmdsAt(p, i + 1);
  }

  lemma {:induction false} MainLoads(p: Code, home: nat, mid: nat, o: Oracle, m: Machine)
    requires Loader(p, home, mid) && InMain(p, home, mid, o.blob, m) && p[m.pc].LdLo?
    ensures var s := Step(p, o, m); s.Next? && s.m.pc == m.pc + 2 && InMain(p, home, mid, o.blob, s.m)
  {
    hide Step, Loader, Tracks, Accepts, Then, FlowAt, CmdsAt;
    LoadPair(p, home, mid, m.pc);
    TracksLoad(p, home, o, m, FlowAt(p, m.pc), CmdsAt(p, m.pc));
  }

  lemma {:induction false} JumpStep(p: Code, o: Oracle, m: Machine)
    requires |m.r| == 11 && m.pc < |p| && p[m.pc].Jmp? && p[m.pc].off >= 0 && Taken(p[m.pc].jop, m.r[p[m.pc].dst], p[m.pc].imm)
    ensures Step(p, o, m) == Next(m.(pc := m.pc + 1 + p[m.pc].off, now := m.now + 1))
  {
  }

  /** A forward jump keeps track of flow and commands, and stays on its side of the cleanup code. */
  lemma {:induction false} JumpLands(p: Code, home: nat, i: nat)
    requires Typed(p, home) && FlowOf(p).pend == {} && i < |p| && p[i].Jmp? && p[i].off >= 0
    ensures var t := i + 1 + p[i].off;
            && t < |p| && FlowAt(p, t).know == Any && p[t] != LdHi
            && CmdsAt(p, t) == CmdsAt(p, i) && FlowAt(p, t).due == FlowAt(p, i).due && FlowAt(p, i).know != Returned
            && forall j :: i < j <= t ==> t in FlowAt(p, j).pend
  {
    var t := i + 1 + p[i].off;
    assert OkAt(p, home, i);
    Lands(p, home, i, t);
    forall j | i < j <= t ensures t in FlowAt(p, j).pend { Skipped(p, home, i + 1, j, t); }
  }

  lemma {:induction false} MainJumps(p: Code, home: nat, mid: nat, o: Oracle, m: Machine)
    requires Loader(p, home, mid) && InMain(p, home, mid, o.blob, m)
    requires p[m.pc].Jmp? && p[m.pc].off >= 0 && Taken(p[m.pc].jop, m.r[p[m.pc].dst], p[m.pc].imm)
    ensures var s := Step(p, o, m); s.Next? && s.m.pc > m.pc && InMain(p, home, mid, o.blob, s.m)
  {
    hide Step, FlowAt, CmdsAt, Typed, FlowOf;
    JumpStep(p, o, m);
    JumpLands(p, home, m.pc);
  }

  lemma {:induction false} CheckStep(p: Code, o: Oracle, m: Machine, home: nat)
    requires |m.r| == 11 && m.pc < |p| && IsCheck(p[m.pc]) && Taken(p[m.pc].jop, m.r[p[m.pc].dst], p[m.pc].imm)
    requires m.cause == None && m.pc + 1 + p[m.pc].off == home
    ensures Step(p, o, m) == Next(m.(pc := home, now := m.now + 1, cause := Some(m.r[p[m.pc].dst])))
  {
  }

  lemma {:induction false} MainChecks(p: Code, home: nat, mid: nat, o: Oracle, m: Machine)
    requires Loader(p, home, mid) && InMain(p, home, mid, o.blob, m)
    requires IsCheck(p[m.pc]) && Taken(p[m.pc].jop, m.r[p[m.pc].dst], p[m.pc].imm)
    ensures var s := Step(p, o, m); s.Next? && s.m.pc == home && InCleanup(p, home, mid, o.blob, s.m)
  {
    hide Step, Learn, Bpfs, Typed, FlowOf, Then, CleanupSlot;
    MainCheck(p, home, m.pc);
    CheckStep(p, o, m, home);
    CmdsPrefix(p, m.pc, |p|);
    CheckFails(FlowAt(p, m.pc), CmdsAt(p, m.pc), p, m, o.blob);
  }

  /** What the slots around a check are. */
  lemma {:induction false} MainCheck(p: Code, home: nat, i: nat)
    requires Typed(p, home) && i < |p| && home < |p| && IsCheck(p[i]) && FlowAt(p, home).know == Any
    ensures p[i].jop == Jslt && p[i].dst == 7 && p[i].imm == 0 && i + 1 + p[i].off == home && p[home] != LdHi
    ensures FlowAt(p, i).know != Returned
  {
    assert OkAt(p, home, i) && OkAt(p, home, home);
  }

  /** A negative R7 at a check: the commands before it are a prefix, of which the last alone can have failed. */
  lemma {:induction false} CheckFails(f: Flow, cs: seq<(int, int, int)>, p: Code, m: Machine, blob: int)
    requires |m.r| == 11 && Tracks(f, cs, m, blob) && cs <= Cmds(p) && m.r[7] < 0 && f.know != Returned
    ensures forall n: Machine {:trigger Failed(p, n, blob)} :: n.r == m.r && n.trace == m.trace && n.cause == Some(m.r[7]) ==> Failed(p, n, blob)
  {
    hide Bpfs, Holds, ClosesOnlyPositive;
  }

  /** The slot after one of the cleanup code that is neither a jump nor a 64-bit load. */
  lemma {:induction false} CleanupNext(p: Code, home: nat, mid: nat, i: nat)
    requires Loader(p, home, mid) && home <= i < mid - 1 && !p[i].Jmp? && !p[i].LdLo? && p[i] != LdHi
    ensures mid <= |p| && p[i + 1] != LdHi && Accepts(FlowAt(p, i), i, p[i], home) && CleanupSlot(p[i], i, mid)
    ensures FlowAt(p, i + 1) == Then(FlowAt(p, i), i, p[i])
  {
    hide CmdsAt;
    assert OkAt(p, home, i) && OkAt(p, home, i + 1);
  }

  lemma {:induction false} CleanupOnward(p: Code, home: nat, mid: nat, o: Oracle, m: Machine)
    requires Loader(p, home, mid) && InCleanup(p, home, mid, o.blob, m) && m.pc < mid - 1 && !p[m.pc].Jmp? && !p[m.pc].LdLo?
    ensures var s := Step(p, o, m); s.Next? && s.m.pc > m.pc && InCleanup(p, home, mid, o.blob, s.m)
  {
    hide Step, Issue, CmdsAt, Bpfs, Loader, FlowAt, Learn, Issued, Succeeded;
    var i := m.pc;
    CleanupNext(p, home, mid, i);
    if p[i].Call? { CallHolds(p, o, FlowAt(p, i).know, m); } else { SequentialHolds(p, o, FlowAt(p, i).know, m); }
  }

  lemma {:induction false} CleanupLoads(p: Code, home: nat, mid: nat, o: Oracle, m: Machine)
    requires Loader(p, home, mid) && InCleanup(p, home, mid, o.blob, m) && p[m.pc].LdLo?
    ensures var s := Step(p, o, m); s.Next? && s.m.pc > m.pc && InCleanup(p, home, mid, o.blob, s.m)
  {
    var i := m.pc;
    assert OkAt(p, home, i) && CleanupSlot(p[i], i, mid) && OkAt(p, home, i + 1) && i + 2 < mid && OkAt(p, home, i + 2);
    LoadHolds(p, o, FlowAt(p, i).know, m);
  }

  lemma {:induction false} CleanupJumps(p: Code, home: nat, mid: nat, o: Oracle, m: Machine)
    requires Loader(p, home, mid) && InCleanup(p, home, mid, o.blob, m)
    requires p[m.pc].Jmp? && Taken(p[m.pc].jop, m.r[p[m.pc].dst], p[m.pc].imm)
    ensures var s := Step(p, o, m); s.Next? && s.m.pc > m.pc && InCleanup(p, home, mid, o.blob, s.m)
  {
    hide Step, FlowAt, CmdsAt, Typed, FlowOf;
    assert CleanupSlot(p[m.pc], m.pc, mid);
    JumpStep(p, o, m);
    JumpLands(p, home, m.pc);
  }

  lemma {:induction false} CleanupNoJump(p: Code, home: nat, mid: nat, o: Oracle, m: Machine)
    requires Loader(p, home, mid) && InCleanup(p, home, mid, o.blob, m) && m.pc < mid - 1
    requires p[m.pc].Jmp? && !Taken(p[m.pc].jop, m.r[p[m.pc].dst], p[m.pc].imm)
    ensures var s := Step(p, o, m); s.Next? && s.m.pc > m.pc && InCleanup(p, home, mid, o.blob, s.m)
  {
    assert OkAt(p, home, m.pc) && OkAt(p, home, m.pc + 1);
  }

  lemma {:induction false} CleanupExits(p: Code, home: nat, mid: nat, o: Oracle, m: Machine)
    requires Loader(p, home, mid) && InCleanup(p, home, mid, o.blob, m) && m.pc == mid - 1
    ensures Step(p, o, m) == Done(m, m.r[7])
  {
    hide Typed, Failed, ClosesOnlyPositive, CleanupSlot, FlowOf;
    assert FlowAt(p, mid - 1).know == Learn(FlowAt(p, mid - 2).know, p[mid - 2]);
  }

  /** The cleanup code goes forward, keeping R7 and the commands, to its exit. */
  lemma {:induction false} CleanupStep(p: Code, home: nat, mid: nat, o: Oracle, m: Machine)
    requires Loader(p, home, mid) && InCleanup(p, home, mid, o.blob, m) && |m.r| == 11 && m.pc < mid <= |p|
    ensures var s := Step(p, o, m);
            if m.pc == mid - 1 then s == Done(m, m.r[7])
            else s.Next? && s.m.pc > m.pc && InCleanup(p, home, mid, o.blob, s.m)
  {
    hide Step, InCleanup, Typed, FlowAt;
    if m.pc == mid - 1 {
      CleanupExits(p, home, mid, o, m);
    } else if p[m.pc].LdLo? {
      CleanupLoads(p, home, mid, o, m);
    } else if p[m.pc].Jmp? {
      if Taken(p[m.pc].jop, m.r[p[m.pc].dst], p[m.pc].imm) {
        CleanupJumps(p, home, mid, o, m);
      } else {
        CleanupNoJump(p, home, mid, o, m);
      }
    } else {
      CleanupOnward(p, home, mid, o, m);
    }
  }

  /** Every command was issued, and none failed. */
  ghost predicate Completed(p: Code, m: Machine, blob: int) {
    && m.cause == None && Issued(Bpfs(m.trace), Cmds(p), blob) && Succeeded(Bpfs(m.trace), |Bpfs(m.trace)|)
  }

  /** How a run of a loader may end: it returns 0 after issuing all commands successfully, or the negative R7
      that the first failing check saw, after a prefix of them. Either way it closed only descriptors above 0. */
  ghost predicate EndsWell(p: Code, blob: int, s: Outcome) {
    && s.Done? && ClosesOnlyPositive(s.last.trace)
    && (s.ret == 0 || s.ret < 0)
    && (s.ret == 0 ==> Completed(p, s.last, blob))
    && (s.ret < 0 ==> Failed(p, s.last, blob) && s.last.cause == Some(s.ret))
  }

  lemma {:induction false} CleanupEnds(p: Code, home: nat, mid: nat, o: Oracle, m: Machine, n: nat)
    requires Loader(p, home, mid) && InCleanup(p, home, mid, o.blob, m) && n >= mid - m.pc
    ensures EndsWell(p, o.blob, Run(p, o, m, n))
    decreases n
  {
    hide Step, Loader;
    CleanupStep(p, home, mid, o, m);
    if m.pc < mid - 1 { CleanupEnds(p, home, mid, o, Step(p, o, m).m, n - 1); }
  }

  /** The final exit. */
  lemma {:induction false} MainExits(p: Code, home: nat, mid: nat, o: Oracle, m: Machine)
    requires Loader(p, home, mid) && InMain(p, home, mid, o.blob, m) && p[m.pc] == Exit
    ensures Step(p, o, m) == Done(m, 0) && Completed(p, m, o.blob)
  {
    assert OkAt(p, home, m.pc) && m.pc == |p| - 1;
  }

  lemma {:induction false} MainStep(p: Code, home: nat, mid: nat, o: Oracle, m: Machine)
    requires Loader(p, home, mid) && InMain(p, home, mid, o.blob, m)
    ensures var s := Step(p, o, m);
            || (s == Done(m, 0) && Completed(p, m, o.blob))
            || (s.Next? && s.m.pc > m.pc && InMain(p, home, mid, o.blob, s.m))
            || (s.Next? && s.m.pc == home && InCleanup(p, home, mid, o.blob, s.m))
  {
    var x := p[m.pc];
    if x == Exit {
      MainExits(p, home, mid, o, m);
    } else if x.LdLo? {
      MainLoads(p, home, mid, o, m);
    } else if !x.Jmp? || !Taken(x.jop, m.r[x.dst], x.imm) {
      MainFallsThrough(p, home, mid, o, m);
    } else if x.off >= 0 {
      MainJumps(p, home, mid, o, m);
    } else {
      MainChecks(p, home, mid, o, m);
    }
  }

  lemma {:induction false} RunStep(p: Code, o: Oracle, m: Machine, n: nat)
    requires |m.r| == 11 && n > 0
    ensures var s := Step(p, o, m); Run(p, o, m, n) == if s.Next? then Run(p, o, s.m, n - 1) else s
  {
    hide Step;
  }

  lemma {:induction false} MainEnds(p: Code, home: nat, mid: nat, o: Oracle, m: Machine, n: nat)
    requires Loader(p, home, mid) && InMain(p, home, mid, o.blob, m) && n >= |p| - m.pc + mid
    ensures EndsWell(p, o.blob, Run(p, o, m, n))
    decreases n
  {
    hide Step, Loader, Holds, Completed, Failed, Run, FlowAt, CmdsAt;
    RunStep(p, o, m, n);
    MainStep(p, home, mid, o, m);
    var s := Step(p, o, m);
    if s.Next? {
      if InMain(p, home, mid, o.blob, s.m) && s.m.pc > m.pc {
        MainEnds(p, home, mid, o, s.m, n - 1);
      } else {
        CleanupEnds(p, home, mid, o, s.m, n - 1);
      }
    }
  }

  /** For all helper results and loaded values, a loader program run from its first slot ends well, within
      twice as many steps as it has slots. */
  lemma {:induction false} LoaderEndsWell(p: Code, home: nat, mid: nat, o: Oracle, r: seq<int>, mem: Mem)
    requires Loader(p, home, mid) && |r| == 11
    ensures EndsWell(p, o.blob, Run(p, o, Machine(0, r, mem, 0, [], None), 2 * |p|))
  {
    assert OkAt(p, home, 0);
    MainEnds(p, home, mid, o, Machine(0, r, mem, 0, [], None), 2 * |p|);
  }
}
