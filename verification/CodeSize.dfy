/** How long the code of a program can get: at most PER_TOKEN bytes for each of its tokens, so it fits the buffer. */
module CodeSize {
  import opened Words
  import opened Instructions
  import opened Machine
  import opened Syntax
  import opened CodeGen
  import opened Grammar
  import opened Emitter
  import opened Backpatch

  const PER_TOKEN: nat := 60

  /** Instructions without an operand. */
  predicate Bare(i: Instr) {
    i.PushRax? || i.PopRcx? || i.AddRaxRcx? || i.SubRcxRax? || i.MovRaxRcx? || i.SubRaxRcx? || i.ImulRaxRcx? || i.XchgRaxRcx? ||
    i.Cqo? || i.IdivRcx? || i.MovRaxRdx? || i.MovEaxEax? || i.XorRaxOne? || i.NegRax? || i.CmpRcxRax? || i.TestRaxRax? ||
    i.SetAl? || i.MovzxRaxAl? || i.AndRaxRcx? || i.OrRaxRcx? || i.PushRbp? || i.MovRbpRsp? || i.MovRspRbp? || i.PopRbp? || i.Ret? ||
    i.StoreAt? || i.LoadAt?
  }

  lemma {:induction false} InstrLength(i: Instr)
    ensures |Encode(i)| <= if Bare(i) then 4 else if i.MovRaxImm? then 10 else 8
  {
    hide LittleEndian;
  }

  lemma {:induction false} ListLength(c: Code, n: nat)
    requires forall k :: 0 <= k < |c| ==> !c[k].MovRaxImm? && (n == 8 || (n == 4 && Bare(c[k])))
    ensures Size(c) <= n * |c|
    decreases |c|
  {
    hide Encode, Bare;
    if c != [] {
      InstrLength(c[0]);
      ListLength(c[1..], n);
    }
  }

  lemma {:induction false} LiteralLength(v: int)
    ensures Size([MovRaxImm(v)]) <= 10
  {
    hide Encode;
    SingleCode(MovRaxImm(v));
    InstrLength(MovRaxImm(v));
  }

  lemma {:induction false} OpLength(op: BinOp, tl: Type, tr: Type)
    ensures Size([PopRcx] + OpCode(op, tl, tr)) <= 48
  {
    ListLength([PopRcx] + OpCode(op, tl, tr), 8);
  }

  lemma {:induction false} NormalizeLength()
    ensures Size(Normalize) <= 12 && Size(Normalize + [PushRax, TestRaxRax]) <= 20 && Size(Normalize + [XorRaxOne]) <= 16
  {
    hide Size;
    SizeConcat(Normalize, [PushRax, TestRaxRax]);
    SizeConcat(Normalize, [XorRaxOne]);
    ListLength(Normalize, 4);
    ListLength([PushRax, TestRaxRax], 4);
    ListLength([XorRaxOne], 4);
  }

  /** Everything && and || add to the code of their operands. */
  lemma {:induction false} LogicLength(l: Code, r: Code, op: Instr, jump: Instr)
    requires (op.AndRaxRcx? || op.OrRaxRcx?) && (jump.Jz? || jump.Jnz?)
    ensures Size(l + (Normalize + [PushRax, TestRaxRax]) + [jump] + (r + Normalize + [PopRcx, op])) <= Size(l) + Size(r) + PER_TOKEN
  {
    hide Size, Encode;
    NormalizeLength();
    ListLength([jump], 8);
    ListLength([PopRcx, op], 4);
    SizeConcat(r, Normalize);
    SizeConcat(r + Normalize, [PopRcx, op]);
    SizeConcat(l, Normalize + [PushRax, TestRaxRax]);
    SizeConcat(l + (Normalize + [PushRax, TestRaxRax]), [jump]);
    SizeConcat(l + (Normalize + [PushRax, TestRaxRax]) + [jump], r + Normalize + [PopRcx, op]);
  }

  /** a before and b after the code c. */
  lemma {:induction false} Around(a: Code, c: Code, b: Code)
    ensures Size(a + c + b) == Size(a) + Size(c) + Size(b) && Size([]) == 0
  {
    SizeConcat(a, c);
    SizeConcat(a + c, b);
  }

  lemma {:induction false} ExprLength(e: Expr, vs: Table)
    ensures Size(CompileExpr(e, vs)) <= PER_TOKEN * |PrintExpr(e)|
    decreases e
  {
    hide Size, Encode, OpCode, Normalize, Bare, Find, BumpOf, CastCode;
    match e
    case Num(v) => LiteralLength(v);
    case Name(x) => if Find(vs, x).Some? { ListLength([DesignatedOf(Find(vs, x).value)], 8); } else { Around([], [], []); }
    case Index(x, i) =>
      ExprLength(i, vs);
      if Find(vs, x).Some? {
        var v := Find(vs, x).value;
        ListLength([DesignatedOf(v), PushRax], 8);
        ListLength(IndexTail(v) + [LoadThrough(v.ty.base)], 8);
        Around([DesignatedOf(v), PushRax], CompileExpr(i, vs), IndexTail(v) + [LoadThrough(v.ty.base)]);
        assert [DesignatedOf(v), PushRax] + CompileExpr(i, vs) + (IndexTail(v) + [LoadThrough(v.ty.base)]) == CompileExpr(e, vs);
      } else { Around([], [], []); }
    case Bump(x, up, post) => BumpLength(x, up, post, vs);
    case Cast(t, e1) =>
      ExprLength(e1, vs);
      SizeConcat(CompileExpr(e1, vs), CastCode(t));
      CastLength(t);
    case Not(e1) =>
      ExprLength(e1, vs);
      SizeConcat(CompileExpr(e1, vs), Normalize + [XorRaxOne]);
      NormalizeLength();
    case Neg(e1) =>
      ExprLength(e1, vs);
      SizeConcat(CompileExpr(e1, vs), [NegRax]);
      ListLength([NegRax], 8);
    case Deref(e1) =>
      ExprLength(e1, vs);
      SizeConcat(CompileExpr(e1, vs), [LoadThrough(TypeOf(e1, vs).base)]);
      ListLength([LoadThrough(TypeOf(e1, vs).base)], 8);
    case AddrOf(x) => if Find(vs, x).Some? { ListLength([LeaRax(-Find(vs, x).value.offset)], 8); } else { Around([], [], []); }
    case Paren(e1) => ExprLength(e1, vs);
    case Bin(op, l, r) =>
      ExprLength(l, vs);
      ExprLength(r, vs);
      OpLength(op, TypeOf(l, vs), TypeOf(r, vs));
      ListLength([PushRax], 8);
      SizeConcat(CompileExpr(l, vs), [PushRax]);
      Around(CompileExpr(l, vs) + [PushRax], CompileExpr(r, vs), [PopRcx] + OpCode(op, TypeOf(l, vs), TypeOf(r, vs)));
    case And(l, r) =>
      ExprLength(l, vs);
      ExprLength(r, vs);
      LogicLength(CompileExpr(l, vs), CompileExpr(r, vs), AndRaxRcx, Jz(Size(AndTail(CompileExpr(r, vs)))));
    case Or(l, r) =>
      ExprLength(l, vs);
      ExprLength(r, vs);
      LogicLength(CompileExpr(l, vs), CompileExpr(r, vs), OrRaxRcx, Jnz(Size(OrTail(CompileExpr(r, vs)))));
  }

  lemma {:induction false} BumpLength(x: string, up: bool, post: bool, vs: Table)
    ensures Size(CompileExpr(Bump(x, up, post), vs)) <= 16
  {
    hide Encode, Find;
    if Find(vs, x).Some? { ListLength(BumpCode(Find(vs, x).value, up, post), 8); }
  }

  lemma {:induction false} CastLength(t: Type)
    ensures Size(CastCode(t)) <= 8
  {
    hide Encode;
    ListLength(CastCode(t), 8);
  }

  // ----- statements -----

  lemma {:induction false} AssignLength(x: string, op: AssignOp, e: Expr, vs: Table)
    ensures Size(AssignCode(x, op, e, vs)) <= PER_TOKEN * (1 + |PrintExpr(e)|)
  {
    hide Size, Encode, CompileExpr, Find, AssignTail;
    ExprLength(e, vs);
    Around([], [], []);
    if Find(vs, x).Some? {
      var v := Find(vs, x).value;
      SizeConcat(CompileExpr(e, vs), AssignTail(v, op));
      TailLength(v, op);
    }
  }

  lemma {:induction false} TailLength(v: VarInfo, op: AssignOp)
    ensures Size(AssignTail(v, op)) <= PER_TOKEN
  {
    ListLength(AssignTail(v, op), 8);
  }

  lemma {:induction false} StepLength(x: string, up: bool, vs: Table)
    ensures Size(BumpStmtCode(x, up, vs)) <= 8
  {
    hide Encode, Find;
    if Find(vs, x).Some? { ListLength([BumpOf(Find(vs, x).value, up)], 8); }
  }

  lemma {:induction false} InitLength(first: ForInit, vs: Table)
    ensures Size(InitCode(first, vs)) <= PER_TOKEN * |PrintFirst(first)|
  {
    hide Size, Encode, CompileExpr, AssignCode;
    Around([], [], []);
    match first
    case InitDecl(_, x, _, init) => if init.Some? { AssignLength(x, Set, init.value, vs); }
    case InitAssign(x, op, e) => AssignLength(x, op, e, vs);
    case InitExpr(e) => ExprLength(e, vs);
    case _ =>
  }

  lemma {:induction false} PostLength(step: ForPost, vs: Table)
    ensures Size(PostCode(step, vs)) <= PER_TOKEN * |PrintPost(step)|
  {
    hide Size, Encode, CompileExpr, AssignCode, BumpStmtCode;
    Around([], [], []);
    match step
    case PostBump(x, up, _) => StepLength(x, up, vs);
    case PostAssign(x, op, e) => AssignLength(x, op, e, vs);
    case PostExpr(e) => ExprLength(e, vs);
    case _ =>
  }

  lemma {:induction false} CondLength(cond: Option<Expr>, exit: int, vs: Table)
    ensures Size(CondCode(cond, exit, vs)) <= PER_TOKEN * |PrintOpt(cond)| + TestJumpSize
  {
    hide Size, Encode, CompileExpr;
    Around([], [], []);
    if cond.Some? {
      ExprLength(cond.value, vs);
      SizeConcat(CompileExpr(cond.value, vs), JumpIfZero(exit));
      JumpSizes(exit);
    }
  }

  lemma {:induction false} ForLength(cond: Option<Expr>, post: Code, body: Code, vs: Table)
    ensures Size(ForCode(cond, post, body, vs)) <= PER_TOKEN * |PrintOpt(cond)| + Size(post) + Size(body) + TestJumpSize + 3 * JmpSize
  {
    hide Size, Encode, CondCode, CondSize, PrintOpt;
    var p, b := Size(post), Size(body);
    var exit, back, again, on := JmpSize + p + JmpSize + b + JmpSize, -(p + JmpSize + JmpSize + CondSize(cond, vs)), -(p + JmpSize + b + JmpSize), p + JmpSize;
    CondLength(cond, exit, vs);
    JumpSizes(on);
    JumpSizes(back);
    JumpSizes(again);
    SizeConcat([Jmp(on)], post);
    SizeConcat([Jmp(on)] + post, [Jmp(back)]);
    Around([Jmp(on)] + post + [Jmp(back)], body, [Jmp(again)]);
    SizeConcat(CondCode(cond, exit, vs), [Jmp(on)] + post + [Jmp(back)] + body + [Jmp(again)]);
  }

  lemma {:induction false} BranchLength(cond: Code, thn: Code, els: Option<Code>)
    ensures Size(IfCode(cond, thn, els)) <= Size(cond) + Size(thn) + (if els.Some? then Size(els.value) else 0) + TestJumpSize + JmpSize
  {
    hide Size, Encode, JumpIfZero;
    if els.None? {
      JumpSizes(Size(thn));
      Around(cond, JumpIfZero(Size(thn)), thn);
    } else {
      JumpSizes(Size(thn) + JmpSize);
      JumpSizes(Size(els.value));
      Around(cond, JumpIfZero(Size(thn) + JmpSize), thn);
      Around(cond + JumpIfZero(Size(thn) + JmpSize) + thn, [Jmp(Size(els.value))], els.value);
    }
  }

  lemma {:induction false} LoopLength(cond: Code, body: Code)
    ensures Size(WhileCode(cond, body)) == Size(cond) + Size(body) + TestJumpSize + JmpSize
    ensures Size(DoWhileCode(body, cond)) == Size(cond) + Size(body) + TestJumpSize
  {
    hide Size, Encode, JumpIfZero;
    var back, again := -(Size(cond) + TestJumpSize + Size(body) + JmpSize), -(Size(body) + Size(cond) + TestJumpSize);
    JumpSizes(Size(body) + JmpSize);
    JumpSizes(back);
    JumpSizes(again);
    Around(cond, JumpIfZero(Size(body) + JmpSize), body);
    SizeConcat(cond + JumpIfZero(Size(body) + JmpSize) + body, [Jmp(back)]);
    SizeConcat(body, cond);
    Around(body + cond, [TestRaxRax], [Jnz(again)]);
  }

  lemma {:induction false} ReturnLength(e: Option<Expr>, vs: Table)
    ensures Size(CompileStmt(Return(e), vs)) <= PER_TOKEN * (2 + |PrintOpt(e)|)
  {
    hide Size, Encode, CompileExpr;
    ListLength(Epilogue, 4);
    if e.Some? {
      ExprLength(e.value, vs);
      SizeConcat(CompileExpr(e.value, vs), Epilogue);
    } else {
      LiteralLength(0);
      SizeConcat([MovRaxImm(0)], Epilogue);
    }
  }

  lemma {:induction false} StoreLength(s: Stmt, vs: Table)
    requires s.StoreIndex? || s.StoreThrough?
    ensures Size(CompileStmt(s, vs)) <= PER_TOKEN * |PrintStmt(s)|
  {
    hide Size, Encode, CompileExpr, Find;
    Around([], [], []);
    ExprLength(s.e, vs);
    if s.StoreIndex? { ExprLength(s.i, vs); }
    if Find(vs, s.x).Some? {
      var v, right := Find(vs, s.x).value, CompileExpr(s.e, vs);
      if s.StoreIndex? {
        var mid, end := IndexTail(v) + [PushRax], [PopRcx, XchgRaxRcx, StoreAt(v.ty.base.Width())];
        ListLength([DesignatedOf(v), PushRax], 8);
        ListLength(mid, 8);
        ListLength(end, 8);
        Around([DesignatedOf(v), PushRax], CompileExpr(s.i, vs), mid);
        Around([DesignatedOf(v), PushRax] + CompileExpr(s.i, vs) + mid, right, end);
        assert [DesignatedOf(v), PushRax] + CompileExpr(s.i, vs) + mid + right + end == CompileStmt(s, vs);
      } else {
        var end := [PushRax] + [LoadOf(v)] + [PopRcx, StoreAt(v.ty.base.Width())];
        ListLength(end, 8);
        SizeConcat(right, end);
        assert right + end == CompileStmt(s, vs);
      }
    }
  }

  lemma {:induction false} StmtLength(s: Stmt, vs: Table)
    ensures Size(CompileStmt(s, vs)) <= PER_TOKEN * |PrintStmt(s)|
    decreases s
  {
    hide Size, Encode, CompileExpr, PrintExpr, AssignCode, BumpStmtCode, InitCode, PostCode, PrintFirst, PrintPost, PrintOpt, ForCode, IfCode, WhileCode, DoWhileCode;
    match s
    case Decl(_, x, _, init) => if init.Some? { AssignLength(x, Set, init.value, vs); } else { Around([], [], []); }
    case Assign(x, op, e) => AssignLength(x, op, e, vs);
    case StoreIndex(_, _, _) => StoreLength(s, vs);
    case StoreThrough(_, _) => StoreLength(s, vs);
    case BumpStmt(x, up, _) => StepLength(x, up, vs);
    case Skipped(_, _, _) => Around([], [], []);
    case Return(e) => ReturnLength(e, vs);
    case If(c, thn, els) =>
      ExprLength(c, vs);
      BlockLength(thn, vs);
      if els.Some? { BlockLength(els.value, vs); }
      BranchLength(CompileExpr(c, vs), CompileBlock(thn, vs), match els case None => None case Some(b) => Some(CompileBlock(b, vs)));
    case While(c, body) =>
      ExprLength(c, vs);
      BlockLength(body, vs);
      LoopLength(CompileExpr(c, vs), CompileBlock(body, vs));
    case DoWhile(body, c) =>
      ExprLength(c, vs);
      BlockLength(body, vs);
      LoopLength(CompileExpr(c, vs), CompileBlock(body, vs));
    case For(first, cond, step, body) =>
      InitLength(first, vs);
      PostLength(step, vs);
      BlockLength(body, vs);
      ForLength(cond, PostCode(step, vs), CompileBlock(body, vs), vs);
      SizeConcat(InitCode(first, vs), ForCode(cond, PostCode(step, vs), CompileBlock(body, vs), vs));
  }

  lemma {:induction false} BlockLength(b: Block, vs: Table)
    ensures Size(CompileBlock(b, vs)) <= PER_TOKEN * |PrintBlock(b)|
    decreases b
  {
    hide Size;
    match b case Braces(ss) => StmtsLength(ss, vs); case One(s) => StmtLength(s, vs);
  }

  lemma {:induction false} StmtsLength(ss: Stmts, vs: Table)
    ensures Size(CompileStmts(ss, vs)) <= PER_TOKEN * |PrintStmts(ss)|
    decreases ss
  {
    hide Size, CompileStmt, PrintStmt;
    Around([], [], []);
    if ss.Cons? {
      StmtLength(ss.head, vs);
      StmtsLength(ss.tail, vs);
      SizeConcat(CompileStmt(ss.head, vs), CompileStmts(ss.tail, vs));
    }
  }

  /** The code of every program that the token table can hold fits the buffer. */
  lemma {:induction false} ProgramFits(p: Stmts, vs: Table)
    requires |PrintStmts(p)| <= MAX_TOKENS + 1
    ensures Size(CompileProgram(p, vs)) <= CAPACITY
  {
    hide Size, Encode, CompileStmts, PrintStmts, FrameSize;
    StmtsLength(p, vs);
    ListLength([PushRbp, MovRbpRsp, SubRsp(FrameSize(vs))], 8);
    LiteralLength(0);
    ListLength(Epilogue, 4);
    SizeConcat([MovRaxImm(0)], Epilogue);
    Around([PushRbp, MovRbpRsp, SubRsp(FrameSize(vs))], CompileStmts(p, vs), [MovRaxImm(0)] + Epilogue);
  }
}
