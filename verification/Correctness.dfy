/** Whole programs: the bytes the compiler produces, run from offset 0, return what the program means, and nothing else. */
module Correctness {
  import opened Words
  import opened Instructions
  import opened Machine
  import opened Syntax
  import opened Meaning
  import opened Emitted
  import opened CodeGen
  import opened Simulation
  import opened Faithful
  import opened Encodings

  function ProgramBytes(p: Stmts, vs: Table): seq<byte> {
    EncodeAll(CompileProgram(p, vs))
  }

  /** What the compiler guarantees of an accepted program: literals, offsets and frame fit their encodings. */
  predicate Representable(p: Stmts, vs: Table) {
    Words64Stmts(p) && SmallOffsets(vs) && 0 <= FrameSize(vs) < TWO_31 && Size(CompileProgram(p, vs)) < TWO_31
  }

  /** The caller has pushed a return address; registers hold words. */
  ghost predicate Called(m: Cpu) {
    m.rip == 0 && IsWord(m.rax) && IsWord(m.rbp)
  }

  /** rbp inside the program: one slot below the return address, where the caller's rbp is saved. */
  function BaseOf(m: Cpu): int {
    m.rsp - 8
  }

  /** The frame as the program finds it: whatever bytes were there. */
  ghost function InitialFrame(m: Cpu, vs: Table): (mem: Memory)
    requires FrameSize(vs) >= 0
    ensures forall a :: a in mem <==> BaseOf(m) - FrameSize(vs) <= a < BaseOf(m)
  {
    var outer := Push(m, m.rbp).mem;
    map a | BaseOf(m) - FrameSize(vs) <= a < BaseOf(m) :: Peek(outer, a)
  }

  /** The meaning of the call m makes: the program run in the frame below it. */
  ghost function Meant(p: Stmts, vs: Table, m: Cpu, fuel: nat): Result
    requires FrameSize(vs) >= 0
  {
    RunProgram(p, vs, BaseOf(m), fuel, InitialFrame(m, vs))
  }

  /** The call returned v to its caller with rbp, rsp, the return address and the caller's memory intact. */
  ghost predicate ReturnsTo(m: Cpu, o: Machine.Outcome, v: int) {
    o.Returned? && o.cpu.rax % TWO_32 == v % TWO_32 && o.cpu.rsp == m.rsp + 8 && o.cpu.rbp == m.rbp &&
    o.cpu.rip == LoadExt(m.mem, m.rsp, W64, true) &&
    forall a :: a >= m.rsp ==> Peek(o.cpu.mem, a) == Peek(m.mem, a)
  }

  function ContextOf(p: Stmts, vs: Table, m: Cpu): Context {
    Context(ProgramBytes(p, vs), vs, BaseOf(m), FrameSize(vs), Push(m, m.rbp).mem)
  }

  function Prologue(vs: Table): Code {
    [PushRbp, MovRbpRsp, SubRsp(FrameSize(vs))]
  }

  lemma CodeInPlace(p: Stmts, vs: Table)
    requires Representable(p, vs)
    ensures var code := ProgramBytes(p, vs);
            var q := Size(Prologue(vs));
            CodeAt(code, 0, Prologue(vs)) && CodeAt(code, q, CompileStmts(p, vs)) &&
            CodeAt(code, q + Size(CompileStmts(p, vs)), [MovRaxImm(0)] + Epilogue)
  {
    hide Encode, Encodable, CodeAt, Size, Epilogue, CompileStmts;
    ProgramEncodable(p, vs);
    var code := ProgramBytes(p, vs);
    assert Holds(code, 0, EncodeAll(CompileProgram(p, vs)));
    EncodedIsFetched(code, 0, CompileProgram(p, vs));
    Split3(code, 0, Prologue(vs), CompileStmts(p, vs), [MovRaxImm(0)] + Epilogue);
  }

  /** push rbp; mov rbp, rsp; sub rsp, frame establishes the simulation relation with an empty operand stack. */
  lemma PrologueRuns(p: Stmts, vs: Table, m: Cpu) returns (m': Cpu)
    requires Called(m) && FrameSize(vs) >= 0 && CodeAt(ProgramBytes(p, vs), 0, Prologue(vs))
    ensures Run(ProgramBytes(p, vs), m, 3) == Running(m') && m'.rip == Size(Prologue(vs))
    ensures Rel(ContextOf(p, vs, m), m', State(InitialFrame(m, vs), []))
  {
    hide Run, CodeAt, Size, Straight, LoadExt, Load, Store, FrameSize, ProgramBytes, Encode, Decode;
    StraightRuns(ProgramBytes(p, vs), m, Prologue(vs));
    Straight3(PushRbp, MovRbpRsp, SubRsp(FrameSize(vs)), m);
    m' := Run(ProgramBytes(p, vs), m, 3).cpu;
  }

  /** What the caller gets back through Exits is what it had at the call. */
  lemma CallerIntact(p: Stmts, vs: Table, m: Cpu, m': Cpu, v: int)
    requires Called(m) && Exits(ContextOf(p, vs, m), m', v)
    ensures ReturnsTo(m, Returned(m'), v)
  {
    hide Store, Load, Pow256, ProgramBytes, FrameSize, Extend;
    var a := m.rsp - 8;
    LoadExtStore(m.mem, a, W64, true, m.rbp);
    TruncateWord(m.rbp, true);
    LoadStoreDisjoint(m.mem, a, 8, m.rbp, m.rsp, 8);
    forall b | b >= m.rsp ensures Peek(Push(m, m.rbp).mem, b) == Peek(m.mem, b) {
      StoreElsewhere(m.mem, a, 8, m.rbp, b);
    }
  }

  /**
   * Forward simulation for whole programs: returned values come back in eax with the caller's state intact, division
   * faults fault, and a run that outlasts its fuel has taken at least that many steps.
   */
  lemma {:induction false} ProgramRuns(p: Stmts, vs: Table, m: Cpu, fuel: nat) returns (n: nat)
    requires SoundStmts(p, vs) && Representable(p, vs) && Called(m)
    ensures var o := Run(ProgramBytes(p, vs), m, n);
            match Meant(p, vs, m, fuel)
            case Returns(v, _) => ReturnsTo(m, o, v)
            case Traps => o.DivideFault?
            case Timeout => o.Running? && n >= fuel
            case _ => true
  {
    hide Run, CodeAt, Size, Rel, Exits, ProgramBytes, Representable, RunStmts, StmtsE, FrameSize, ReturnsTo, Epilogue;
    hide CompileStmts, SoundStmts;
    assert FrameSize(vs) >= 0 by { FrameFits(p, vs); }
    var c := ContextOf(p, vs, m);
    CodeInPlace(p, vs);
    var m1 := PrologueRuns(p, vs, m);
    var s := State(InitialFrame(m, vs), []);
    StmtsFaithful(p, vs, c.base, fuel, s);
    var k := StmtsRuns(c, m1, s, p, fuel);
    var o := StmtsE(p, vs, c.base, fuel, s);
    Continued(c, m, 3, o, Size(CompileStmts(p, vs)), fuel, k);
    n := 3 + k;
    if o.Falls? {
      var m2 := Run(c.code, m, n).cpu;
      Split2(c.code, m2.rip, [MovRaxImm(0)], Epilogue);
      ConstantRuns(c, m2, o.s, MovRaxImm(0));
      EpilogueRuns(c, Run(c.code, m2, 1).cpu, o.s, fuel);
      Continued(c, m2, 1, Leaves(0, o.s), 0, fuel, 3);
      Continued(c, m, n, Leaves(0, o.s), Size([MovRaxImm(0)]), fuel, 4);
      n := n + 4;
      CallerIntact(p, vs, m, Run(c.code, m, n).cpu, 0);
    } else if o.Leaves? {
      CallerIntact(p, vs, m, Run(c.code, m, n).cpu, o.v);
    }
  }

  /** At the end of its statements a program has left eight bytes of stack for each short-circuit jump it took. */
  lemma {:induction false} StackDeepens(p: Stmts, vs: Table, m: Cpu, fuel: nat) returns (n: nat)
    requires SoundStmts(p, vs) && Representable(p, vs) && Called(m) && FrameSize(vs) >= 0
    requires RunStmts(p, vs, BaseOf(m), fuel, InitialFrame(m, vs)).Next?
    ensures var o := Run(ProgramBytes(p, vs), m, n);
            o.Running? && o.cpu.rip == Size(Prologue(vs)) + Size(CompileStmts(p, vs)) && o.cpu.rbp == BaseOf(m) &&
            o.cpu.rsp == BaseOf(m) - FrameSize(vs) - 8 * SkipsStmts(p, vs, BaseOf(m), fuel, InitialFrame(m, vs))
  {
    hide Run, CodeAt, Size, ProgramBytes, Representable, RunStmts, StmtsE, FrameSize, CompileStmts, SoundStmts, SkipsStmts, StackHolds, FrameHolds;
    var c := ContextOf(p, vs, m);
    CodeInPlace(p, vs);
    var m1 := PrologueRuns(p, vs, m);
    var s := State(InitialFrame(m, vs), []);
    StmtsFaithful(p, vs, c.base, fuel, s);
    var k := StmtsRuns(c, m1, s, p, fuel);
    Continued(c, m, 3, StmtsE(p, vs, c.base, fuel, s), Size(CompileStmts(p, vs)), fuel, k);
    n := 3 + k;
  }

  lemma FrameFits(p: Stmts, vs: Table)
    requires Representable(p, vs)
    ensures FrameSize(vs) >= 0
  {
  }

  /** Some run of the code from m ends by returning r in eax. */
  ghost predicate ReturnsValue(code: seq<byte>, m: Cpu, r: int) {
    exists n: nat :: Run(code, m, n).Returned? && Run(code, m, n).cpu.rax % TWO_32 == r
  }

  /** With enough fuel the program returns r, in 32 bits. */
  ghost predicate MeansValue(p: Stmts, vs: Table, m: Cpu, r: int)
    requires FrameSize(vs) >= 0
  {
    exists fuel: nat :: Meant(p, vs, m, fuel).Returns? && Meant(p, vs, m, fuel).v % TWO_32 == r
  }

  /**
   * And nothing else: if no fuel makes the program stray outside its frame, the code returns to its caller exactly when
   * the program returns, with the same 32-bit result; a diverging program's code never stops.
   */
  lemma ProgramRunsExactly(p: Stmts, vs: Table, m: Cpu, r: int)
    requires SoundStmts(p, vs) && Representable(p, vs) && Called(m)
    requires forall fuel: nat :: !Meant(p, vs, m, fuel).Wilds?
    ensures ReturnsValue(ProgramBytes(p, vs), m, r) <==> MeansValue(p, vs, m, r)
  {
    hide Run, ProgramBytes, Representable, SoundStmts, Meant;
    var code := ProgramBytes(p, vs);
    FrameFits(p, vs);
    if n: nat :| Run(code, m, n).Returned? && Run(code, m, n).cpu.rax % TWO_32 == r {
      var k := ProgramRuns(p, vs, m, n + 1);
      NeverNext(p, vs, m, n + 1);
      EndsOnce(code, m, n, k);
      assert Meant(p, vs, m, n + 1).Returns?;
    }
    if fuel: nat :| Meant(p, vs, m, fuel).Returns? && Meant(p, vs, m, fuel).v % TWO_32 == r {
      var k := ProgramRuns(p, vs, m, fuel);
      assert Run(code, m, k).Returned?;
    }
  }

  lemma NeverNext(p: Stmts, vs: Table, m: Cpu, fuel: nat)
    requires FrameSize(vs) >= 0
    ensures !Meant(p, vs, m, fuel).Next?
  {
  }

  /** A run that has ended within n steps is not running later, and ends only one way. */
  lemma EndsOnce(code: seq<byte>, m: Cpu, n: nat, k: nat)
    requires !Run(code, m, n).Running?
    ensures k >= n ==> Run(code, m, k) == Run(code, m, n)
    ensures !Run(code, m, k).Running? ==> Run(code, m, k) == Run(code, m, n)
  {
    hide Run;
    if k >= n { RunEnded(code, m, n, k - n); } else if !Run(code, m, k).Running? { RunEnded(code, m, k, n - k); }
  }
}
