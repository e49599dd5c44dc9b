/** Programs the parser accepts: their tokens, their frame, their bytes, and what running the bytes does. */
module Accepted {
  import opened Words
  import opened Instructions
  import opened Machine
  import opened Syntax
  import opened CodeGen
  import opened Emitter
  import opened CodeSize
  import opened Backpatch
  import opened Grammar
  import opened Encodings
  import opened ParseExpr
  import opened ParseStmt
  import opened ParseControl
  import opened Frame
  import opened Correctness
  import opened Faithful
  import opened Meaning

  const NoVars := Env([], {})

  /** The text is p, p passes the checks with the variables of env, which fit the table, and the code is p's. */
  ghost predicate Compiled(ts: seq<Token>, p: Stmts, env: Env, code: seq<byte>) {
    |env.vars| <= MAX_VARS &&
    Sees(ts, 0, PrintStmts(p)) && KindAt(ts, |PrintStmts(p)|) == TEof && ShapedStmts(p, TEof) && Words64Stmts(p) &&
    CheckStmts(p, NoVars) == Some(env) && code == ProgramBytes(p, env.vars)
  }

  /** The text is the correct program h. */
  ghost predicate ProgramDue(ts: seq<Token>, h: Stmts) {
    Sees(ts, 0, PrintStmts(h)) && KindAt(ts, |PrintStmts(h)|) == TEof && ShapedStmts(h, TEof) && CheckStmts(h, NoVars).Some?
  }

  // ----- assembling the program -----

  /** The frame size is written over the blank operand of sub rsp at byte 7. */
  ghost predicate FramePatched(b: seq<byte>, b': seq<byte>, frame: int) {
    |b'| == |b| && (11 <= |b| ==> b' == b[..7] + I32(frame) + b[11..])
  }

  lemma ProgramAppends(m: seq<byte>, s: seq<byte>, b: seq<byte>, b': seq<byte>, p: Stmts, vs: Table)
    requires Appends([], m, [PushRbp, MovRbpRsp, SubRsp(0)]) && Appends(m, s, CompileStmts(p, vs))
    requires Appends(s, b, [MovRaxImm(0)] + Epilogue) && FramePatched(b, b', FrameSize(vs))
    requires Size(CompileProgram(p, vs)) <= CAPACITY
    ensures b' == ProgramBytes(p, vs)
  {
    hide CompileStmts, FrameSize, Epilogue, Size, EncodeAll, FramePatched;
    var blank, front, body, tail := [PushRbp, MovRbpRsp, SubRsp(0)], Prologue(vs), CompileStmts(p, vs), [MovRaxImm(0)] + Epilogue;
    PrologueSize(0);
    PrologueSize(FrameSize(vs));
    SizeConcat(blank, body);
    SizeConcat(blank + body, tail);
    SizeConcat(front, body);
    SizeConcat(front + body, tail);
    AppendsMore([], m, s, blank, body);
    AppendsMore([], s, b, blank + body, tail);
    assert blank + body + tail == blank + (body + tail) && CompileProgram(p, vs) == front + (body + tail);
    EncodeConcat(blank, body + tail);
    EncodeConcat(front, body + tail);
    SizeEncoded(blank + body + tail);
    PrologueSwap(b, b', FrameSize(vs), EncodeAll(body + tail));
  }

  lemma PrologueSize(frame: int)
    ensures Size([PushRbp, MovRbpRsp, SubRsp(frame)]) == 11
    ensures EncodeAll([PushRbp, MovRbpRsp, SubRsp(frame)]) == [0x55, 0x48, 0x89, 0xE5, 0x48, 0x81, 0xEC] + I32(frame)
  {
    hide LittleEndian, Decode;
    var c := [PushRbp, MovRbpRsp, SubRsp(frame)];
    assert c == [PushRbp] + ([MovRbpRsp] + [SubRsp(frame)]);
    SingleCode(PushRbp);
    SingleCode(MovRbpRsp);
    SingleCode(SubRsp(frame));
    EncodeConcat([MovRbpRsp], [SubRsp(frame)]);
    EncodeConcat([PushRbp], [MovRbpRsp] + [SubRsp(frame)]);
    SizeEncoded(c);
    assert EncodeAll(c) == [0x55] + ([0x48, 0x89, 0xE5] + ([0x48, 0x81, 0xEC] + I32(frame)));
  }

  lemma PrologueSwap(b: seq<byte>, b': seq<byte>, frame: int, rest: seq<byte>)
    requires b == EncodeAll([PushRbp, MovRbpRsp, SubRsp(0)]) + rest && FramePatched(b, b', frame)
    ensures b' == EncodeAll([PushRbp, MovRbpRsp, SubRsp(frame)]) + rest
  {
    hide LittleEndian, EncodeAll;
    PrologueSize(0);
    PrologueSize(frame);
    assert |b| >= 11;
    assert b[..7] == [0x55, 0x48, 0x89, 0xE5, 0x48, 0x81, 0xEC];
    assert b[11..] == rest;
  }

  /** The whole parse: prologue, statements, return 0, frame size. */
  lemma ProgramStep(ts: seq<Token>, m: Snap, s: Snap, b: Snap, b': Snap, h: Stmts, p: Stmts)
    requires |ts| <= MAX_TOKENS + 1 && m.curr == 0 && m.env == NoVars && m.errors == 0 && Appends([], m.bytes, [PushRbp, MovRbpRsp, SubRsp(0)])
    requires StmtsStep(ts, m, s, h, false, p) && KindAt(ts, s.curr) == TEof
    requires Emits(s, b, [MovRaxImm(0)] + Epilogue) && b' == b.(bytes := b'.bytes) && FramePatched(b.bytes, b'.bytes, FrameSize(s.env.vars))
    ensures b'.errors == 0 && |b'.env.vars| <= MAX_VARS ==> Compiled(ts, p, b'.env, b'.bytes)
    ensures ProgramDue(ts, h) ==> b'.errors == 0 && p == h && CheckStmts(h, NoVars) == Some(b'.env)
  {
    hide Appends, Sees, CompileProgram, CompileStmts, PrintStmts, CheckStmts, ShapedStmts, Words64Stmts, FrameSize, Size, ProgramBytes, FramePatched, Epilogue;
    if b'.errors == 0 {
      ProgramSeen(ts, p);
      ProgramFits(p, s.env.vars);
      ProgramAppends(m.bytes, s.bytes, b.bytes, b'.bytes, p, s.env.vars);
    }
  }

  lemma ProgramSeen(ts: seq<Token>, p: Stmts)
    requires Sees(ts, 0, PrintStmts(p))
    ensures |PrintStmts(p)| <= |ts|
  {
  }

  // ----- statements that are accepted and dropped -----

  /** The tokens of an expression hold no end of a statement. */
  lemma {:induction false} ExprTokens(e: Expr)
    ensures TSemi !in PrintExpr(e) && TEof !in PrintExpr(e)
    decreases e
  {
    match e
    case Index(x, i) => ExprTokens(i);
    case Cast(t, e1) => ExprTokens(e1);
    case Not(e1) => ExprTokens(e1);
    case Neg(e1) => ExprTokens(e1);
    case Deref(e1) => ExprTokens(e1);
    case Paren(e1) => ExprTokens(e1);
    case Bin(op, l, r) => ExprTokens(l); ExprTokens(r);
    case And(l, r) => ExprTokens(l); ExprTokens(r);
    case Or(l, r) => ExprTokens(l); ExprTokens(r);
    case _ =>
  }

  /**
   * An expression statement that begins with a name passes every check, compiles to nothing and does nothing when what
   * follows the name starts no statement: that is what it should do exactly if the expression changes nothing.
   */
  lemma SkippedExact(e: Expr, env: Env, vs: Table, base: int, fuel: nat, mem: Memory)
    requires var ks := PrintExpr(e); ks[0].TIdent? && (|ks| > 1 ==> !StartsAfterName(ks[1]))
    ensures var ks := PrintExpr(e);
            var s := Skipped(ks[0].name, ks[1..], true);
            ShapedStmt(s) && PrintStmt(s) == ks + [TSemi] && CheckStmt(s, env) == Some(env) && CompileStmt(s, vs) == [] &&
            (RunStmt(s, vs, base, fuel, mem) == Meaning.After(Eval(e, vs, base, mem)) <==>
             Eval(e, vs, base, mem).Val? && Eval(e, vs, base, mem).mem == mem)
  {
    hide PrintExpr, Eval, StartsAfterName;
    var ks := PrintExpr(e);
    ExprTokens(e);
    assert ks == [ks[0]] + ks[1..];
  }

  /** The n bytes below address 0, all 0. */
  function Zeros(n: nat): (m: Memory)
    ensures forall a :: a in m <==> 0 - n <= a < 0
    ensures forall a :: a in m ==> m[a] == 0
  {
    if n == 0 then map[] else Zeros(n - 1)[0 - n := 0]
  }

  /** x + y++; leaves y as it is. */
  lemma SkippedLost(fuel: nat)
    ensures var e, vs := Bin(Add, Name("x"), Bump("y", true, true)), [VarInfo("x", 8, TInt, 0), VarInfo("y", 16, TInt, 0)];
            PrintExpr(e) == [TIdent("x"), TPlus, TIdent("y"), TPlusPlus] && Eval(e, vs, 0, Zeros(16)).Val? &&
            Peek(Eval(e, vs, 0, Zeros(16)).mem, -16) == 1 &&
            RunStmt(Skipped("x", PrintExpr(e)[1..], true), vs, 0, fuel, Zeros(16)) == Next(Zeros(16))
  {
    hide Zeros, Store, Load, BumpVar, InFrame, PrintExpr, RunStmt;
    SumPrinted();
    SkippedRuns(PrintExpr(Bin(Add, Name("x"), Bump("y", true, true)))[1..], [VarInfo("x", 8, TInt, 0), VarInfo("y", 16, TInt, 0)], fuel, Zeros(16));
    var mem, vs := Zeros(16), [VarInfo("x", 8, TInt, 0), VarInfo("y", 16, TInt, 0)];
    assert vs[1..][0] == vs[1] && Find(vs, "y") == Some(vs[1]) && Find(vs, "x") == Some(vs[0]);
    LoadZero(mem, -8, 4);
    FrameOf(mem, -8, 4);
    assert forall k :: -16 <= k < -12 ==> k in mem && Peek(mem, k) == 0;
    assert vs[1].offset == 16 && vs[1].ty == TInt;
    BumpZero(mem, vs[1]);
  }

  lemma SumPrinted()
    ensures PrintExpr(Bin(Add, Name("x"), Bump("y", true, true))) == [TIdent("x"), TPlus, TIdent("y"), TPlusPlus]
  {
  }

  lemma SkippedRuns(ks: seq<Tok>, vs: Table, fuel: nat, mem: Memory)
    ensures RunStmt(Skipped("x", ks, true), vs, 0, fuel, mem) == Next(mem)
  {
    hide Eval;
  }

  lemma FrameOf(mem: Memory, a: int, n: nat)
    requires forall k :: a <= k < a + n ==> k in mem
    ensures InFrame(mem, a, n)
  {
  }

  lemma BumpZero(mem: Memory, v: VarInfo)
    requires v.ty == TInt && forall k :: -v.offset <= k < 4 - v.offset ==> k in mem && Peek(mem, k) == 0
    ensures var r := BumpVar(mem, 0, v, true, true); r.Val? && r.v == 0 && Peek(r.mem, -v.offset) == 1
  {
    hide Store, Load;
    LoadZero(mem, -v.offset, 4);
    StoreOne(mem, -v.offset);
  }

  lemma StoreOne(mem: Memory, a: int)
    ensures Peek(Store(mem, a, 4, 1), a) == 1
  {
    assert Store(mem, a, 4, 1) == Store(mem[a := 1], a + 1, 3, 0);
    StoreElsewhere(mem[a := 1], a + 1, 3, 0, a);
  }

  lemma {:induction false} LoadZero(m: Memory, a: int, n: nat)
    requires forall k :: a <= k < a + n ==> Peek(m, k) == 0
    ensures Load(m, a, n) == 0
    decreases n
  {
    if n > 0 { LoadZero(m, a + 1, n - 1); }
  }

  // ----- the frame of an accepted program -----

  lemma DeclLaid(t: Type, x: string, size: Option<int>, init: Option<Expr>, env: Env)
    requires WellLaid(env.vars) && CheckDecl(t, x, size, init, env).Some?
    ensures WellLaid(CheckDecl(t, x, size, init, env).value.vars)
  {
    hide WellLaid, NewVar, Truncate, CheckExpr;
    AllocationStacks(env.vars, x, t, ArrayLength(size));
  }

  /** Checking keeps the variable table well laid: names distinct, regions stacked. */
  lemma {:induction false} StmtLaid(s: Stmt, env: Env)
    requires WellLaid(env.vars) && CheckStmt(s, env).Some?
    ensures WellLaid(CheckStmt(s, env).value.vars)
    decreases s
  {
    hide WellLaid, CheckDecl, CheckExpr;
    match s
    case Decl(t, x, size, init) => DeclLaid(t, x, size, init, env);
    case If(c, thn, els) =>
      var env1 := CheckIn(c, env).value;
      BlockLaid(thn, env1);
      if els.Some? { BlockLaid(els.value, CheckBlock(thn, env1).value); }
    case While(c, body) => BlockLaid(body, CheckIn(c, env).value);
    case DoWhile(body, c) => BlockLaid(body, env);
    case For(first, cond, step, body) =>
      if first.InitDecl? { DeclLaid(first.ty, first.x, first.size, first.init, env); }
      var env1 := CheckFirst(first, env).value;
      var env2 := CheckOpt(cond, env1).value;
      PostStable(step, env2, env2.vars);
      BlockLaid(body, CheckPost(step, env2).value);
    case _ =>
  }

  lemma {:induction false} BlockLaid(b: Block, env: Env)
    requires WellLaid(env.vars) && CheckBlock(b, env).Some?
    ensures WellLaid(CheckBlock(b, env).value.vars)
    decreases b
  {
    hide WellLaid;
    match b case Braces(ss) => StmtsLaid(ss, env); case One(s) => StmtLaid(s, env);
  }

  lemma {:induction false} StmtsLaid(ss: Stmts, env: Env)
    requires WellLaid(env.vars) && CheckStmts(ss, env).Some?
    ensures WellLaid(CheckStmts(ss, env).value.vars)
    decreases ss
  {
    hide WellLaid;
    if ss.Cons? {
      StmtLaid(ss.head, env);
      StmtsLaid(ss.tail, CheckStmt(ss.head, env).value);
    }
  }

  /** The variables of a checked program lie in disjoint parts of its frame. */
  lemma CheckedLaid(p: Stmts)
    requires CheckStmts(p, NoVars).Some?
    ensures var vs := CheckStmts(p, NoVars).value.vars; WellLaid(vs) && FrameUsed(vs) >= 0 && FrameSize(vs) >= 16
  {
    hide WellLaid, CheckStmts;
    var vs := CheckStmts(p, NoVars).value.vars;
    assert WellLaid([]) by { EmptyLaid(); }
    StmtsLaid(p, NoVars);
    if vs != [] { OffsetsStack(vs, |vs| - 1); }
  }

  lemma EmptyLaid()
    ensures WellLaid([])
  {
  }

  lemma LaidSmall(vs: Table)
    requires WellLaid(vs) && FrameUsed(vs) < TWO_31
    ensures SmallOffsets(vs)
  {
    hide WellLaid, StorageSize;
    forall k | 0 <= k < |vs| ensures IsI32(-vs[k].offset) {
      OffsetsStack(vs, k);
      if k < |vs| - 1 { OffsetsGrow(vs, k, |vs| - 1); }
    }
  }

  /** An accepted program whose frame is below 2 GB meets the encodings' limits. */
  lemma CompiledRepresentable(ts: seq<Token>, p: Stmts, env: Env, code: seq<byte>)
    requires |ts| <= MAX_TOKENS + 1 && Compiled(ts, p, env, code) && FrameSize(env.vars) < TWO_31
    ensures Representable(p, env.vars) && code == ProgramBytes(p, env.vars)
  {
    hide WellLaid, CompileProgram, Size, CheckStmts, PrintStmts, Words64Stmts, ShapedStmts, Sees;
    CheckedLaid(p);
    LaidSmall(env.vars);
    ProgramSeen(ts, p);
    ProgramFits(p, env.vars);
  }

  /**
   * An accepted program, run: for a program in the fragment whose short-circuit jumps are harmless, the bytes the
   * parser left in the buffer return what the program means, fault where it divides by zero, and run on while it does.
   */
  lemma CompiledRuns(ts: seq<Token>, p: Stmts, env: Env, code: seq<byte>, m: Cpu, fuel: nat) returns (n: nat)
    requires |ts| <= MAX_TOKENS + 1 && Compiled(ts, p, env, code) && FrameSize(env.vars) < TWO_31
    requires SoundStmts(p, env.vars) && Called(m)
    ensures FrameSize(env.vars) >= 0
    ensures match Meant(p, env.vars, m, fuel)
            case Returns(v, _) => ReturnsTo(m, Run(code, m, n), v)
            case Traps => Run(code, m, n).DivideFault?
            case Timeout => Run(code, m, n).Running? && n >= fuel
            case _ => true
  {
    hide CompileProgram, Size, SoundStmts, Representable, Run, Meant, ReturnsTo, CheckStmts, PrintStmts, Words64Stmts, ShapedStmts, Sees;
    CheckedLaid(p);
    CompiledRepresentable(ts, p, env, code);
    n := ProgramRuns(p, env.vars, m, fuel);
  }
}
