/** Everything the compiler emits has an encoding: literals are 64-bit, frame offsets and jump distances 32-bit. */
module Encodings {
  import opened Words
  import opened Instructions
  import opened Machine
  import opened Syntax
  import opened CodeGen
  import Simulation

  /** Literals are 64-bit. */
  predicate Words64(e: Expr) {
    match e
    case Num(v) => IsWord(v)
    case Index(_, i) => Words64(i)
    case Cast(_, e1) => Words64(e1)
    case Not(e1) => Words64(e1)
    case Neg(e1) => Words64(e1)
    case Deref(e1) => Words64(e1)
    case Paren(e1) => Words64(e1)
    case Bin(_, l, r) => Words64(l) && Words64(r)
    case And(l, r) => Words64(l) && Words64(r)
    case Or(l, r) => Words64(l) && Words64(r)
    case _ => true
  }

  predicate Words64Opt(e: Option<Expr>) {
    match e case None => true case Some(x) => Words64(x)
  }

  predicate Words64Stmt(s: Stmt) {
    match s
    case Decl(_, _, _, init) => Words64Opt(init)
    case Assign(_, _, e) => Words64(e)
    case StoreIndex(_, i, e) => Words64(i) && Words64(e)
    case StoreThrough(_, e) => Words64(e)
    case BumpStmt(_, _, _) => true
    case Skipped(_, _, _) => true
    case Return(e) => Words64Opt(e)
    case If(c, thn, els) => Words64(c) && Words64Block(thn) && (match els case None => true case Some(b) => Words64Block(b))
    case While(c, body) => Words64(c) && Words64Block(body)
    case DoWhile(body, c) => Words64(c) && Words64Block(body)
    case For(first, cond, step, body) =>
      (match first case InitDecl(_, _, _, init) => Words64Opt(init) case InitAssign(_, _, e) => Words64(e)
                   case InitExpr(e) => Words64(e) case NoInit => true) &&
      Words64Opt(cond) &&
      (match step case PostAssign(_, _, e) => Words64(e) case PostExpr(e) => Words64(e) case _ => true) &&
      Words64Block(body)
  }

  predicate Words64Block(b: Block) {
    match b case Braces(ss) => Words64Stmts(ss) case One(s) => Words64Stmt(s)
  }

  predicate Words64Stmts(ss: Stmts) {
    match ss case Nil => true case Cons(s, rest) => Words64Stmt(s) && Words64Stmts(rest)
  }

  predicate SmallOffsets(vs: Table) {
    forall k :: 0 <= k < |vs| ==> IsI32(-vs[k].offset)
  }

  predicate AllEncodable(c: Code) {
    forall i :: i in c ==> Encodable(i)
  }

  lemma FoundOffset(vs: Table, x: string)
    requires SmallOffsets(vs) && Find(vs, x).Some?
    ensures IsI32(-Find(vs, x).value.offset)
  {
    assert vs[IndexOf(vs, x)] == Find(vs, x).value;
  }

  /** Size and encodability of a concatenation, part by part. */
  lemma Cut(a: Code, b: Code)
    ensures Size(a + b) == Size(a) + Size(b)
    ensures AllEncodable(a + b) <==> AllEncodable(a) && AllEncodable(b)
  {
    hide Encodable, Encode, Size;
    SizeConcat(a, b);
    assert forall i :: i in a + b <==> i in a || i in b;
  }

  lemma Cut4(a: Code, b: Code, c: Code, d: Code)
    ensures Size(a + b + c + d) == Size(a) + Size(b) + Size(c) + Size(d)
    ensures AllEncodable(a + b + c + d) <==> AllEncodable(a) && AllEncodable(b) && AllEncodable(c) && AllEncodable(d)
  {
    hide AllEncodable, Size;
    Cut(a + b + c, d);
    Cut(a + b, c);
    Cut(a, b);
  }

  lemma One(i: Instr)
    ensures AllEncodable([i]) <==> Encodable(i)
  {
    hide Encodable;
    assert i in [i];
  }

  lemma SingleEncodable()
    ensures AllEncodable([PopRcx]) && AllEncodable([PushRax]) && AllEncodable([NegRax]) && AllEncodable([TestRaxRax])
    ensures AllEncodable([XorRaxOne]) && AllEncodable([MovRaxImm(0)]) && AllEncodable([XchgRaxRcx])
    ensures AllEncodable([MovRaxRdx]) && AllEncodable([AddRaxRcx]) && AllEncodable([])
  {
  }

  lemma ListEncodable()
    ensures AllEncodable(Normalize) && AllEncodable(Epilogue) && AllEncodable(Divide) && AllEncodable([PushRax, TestRaxRax])
    ensures AllEncodable([PopRcx, AndRaxRcx]) && AllEncodable([PopRcx, OrRaxRcx]) && AllEncodable([PopRcx, AddRaxRcx])
  {
  }

  lemma WidthEncodable(b: BaseType)
    ensures AllEncodable([LoadThrough(b)])
    ensures AllEncodable([PopRcx, XchgRaxRcx, StoreAt(b.Width())]) && AllEncodable([PopRcx, StoreAt(b.Width())])
    ensures AllEncodable([MovRcxImm(b.Bytes())]) && AllEncodable([ImulRcxImm(b.Bytes())])
  {
  }

  lemma ScaleEncodable(t: Type, op: BinOp)
    ensures AllEncodable(ScaleRax(t)) && AllEncodable(CastCode(t)) && AllEncodable(PlainCode(op))
  {
  }

  lemma SumEncodable(op: BinOp, tl: Type, tr: Type)
    ensures AllEncodable(SumCode(op, tl, tr))
  {
    hide AllEncodable, ScaleRax, PlainCode, Divide;
    SingleEncodable();
    ListEncodable();
    WidthEncodable(tl.base);
    WidthEncodable(tr.base);
    ScaleEncodable(tl, op);
    ScaleEncodable(tl, Sub);
    var scale := if tr.base.Bytes() > 1 then [ImulRcxImm(tr.base.Bytes())] else [];
    var divide := if tl.base.Bytes() > 1 then [MovRcxImm(tl.base.Bytes())] + Divide else [];
    Cut(ScaleRax(tl), PlainCode(op));
    Cut([XchgRaxRcx] + scale, [AddRaxRcx]);
    Cut([XchgRaxRcx], scale);
    Cut(PlainCode(Sub), divide);
    Cut([MovRcxImm(tl.base.Bytes())], Divide);
  }

  lemma CompareEncodable(c: Cond)
    ensures AllEncodable(Compare(c)) && AllEncodable([ImulRaxRcx])
  {
  }

  lemma OpEncodable(op: BinOp, tl: Type, tr: Type)
    ensures AllEncodable([PopRcx] + OpCode(op, tl, tr))
  {
    hide AllEncodable, Divide, SumCode, Compare;
    SingleEncodable();
    ListEncodable();
    SumEncodable(op, tl, tr);
    Cut([XchgRaxRcx], Divide);
    Cut([XchgRaxRcx], Divide + [MovRaxRdx]);
    Cut(Divide, [MovRaxRdx]);
    CompareEncodable(match op case Lt => CLt case Gt => CGt case Le => CLe case Ge => CGe case Eq => CEq case _ => CNe);
    Cut([PopRcx], OpCode(op, tl, tr));
  }

  lemma UpdateEncodable(op: AssignOp)
    ensures AllEncodable(UpdateCode(op))
  {
  }

  lemma TailsEncodable(t: Type, op: AssignOp)
    ensures AllEncodable(CastCode(t)) && AllEncodable(ScaleRax(t) + [PopRcx, AddRaxRcx]) && AllEncodable([PopRcx] + UpdateCode(op))
    ensures AllEncodable(Normalize) && AllEncodable(Normalize + [XorRaxOne]) && AllEncodable(Normalize + [PushRax, TestRaxRax])
    ensures AllEncodable(Epilogue) && AllEncodable([NegRax]) && AllEncodable([PushRax]) && AllEncodable([MovRaxImm(0)] + Epilogue)
    ensures AllEncodable([PopRcx, AndRaxRcx]) && AllEncodable([PopRcx, OrRaxRcx])
    ensures AllEncodable([LoadThrough(t.base)]) && AllEncodable([TestRaxRax])
    ensures AllEncodable([PopRcx, XchgRaxRcx, StoreAt(t.base.Width())]) && AllEncodable([PopRcx, StoreAt(t.base.Width())])
  {
    hide AllEncodable, ScaleRax, CastCode, UpdateCode, Normalize, Epilogue;
    SingleEncodable();
    ListEncodable();
    WidthEncodable(t.base);
    ScaleEncodable(t, Add);
    UpdateEncodable(op);
    Cut(ScaleRax(t), [PopRcx, AddRaxRcx]);
    Cut([PopRcx], UpdateCode(op));
    Cut(Normalize, [XorRaxOne]);
    Cut(Normalize, [PushRax, TestRaxRax]);
    Cut([MovRaxImm(0)], Epilogue);
  }

  lemma VarEncodable(vs: Table, x: string)
    requires SmallOffsets(vs) && Find(vs, x).Some?
    ensures var v := Find(vs, x).value;
            AllEncodable([DesignatedOf(v)]) && AllEncodable([LeaRax(-v.offset)]) && AllEncodable([LoadOf(v)]) &&
            AllEncodable([StoreOf(v)]) && (forall up :: AllEncodable([BumpOf(v, up)])) &&
            (forall up, post :: AllEncodable(BumpCode(v, up, post))) && AllEncodable([DesignatedOf(v), PushRax])
  {
    FoundOffset(vs, x);
  }

  lemma {:induction false} ExprEncodable(e: Expr, vs: Table)
    requires Words64(e) && SmallOffsets(vs) && Size(CompileExpr(e, vs)) < TWO_31
    ensures AllEncodable(CompileExpr(e, vs))
    decreases e, 1
  {
    hide AllEncodable, Size, Normalize, ScaleRax, CastCode, OpCode, LoadThrough, BumpCode, DesignatedOf, SmallOffsets;
    TailsEncodable(TInt, Set);
    match e
    case Num(v) => One(MovRaxImm(v));
    case Name(x) => if Find(vs, x).Some? { VarEncodable(vs, x); } else { Nothing(); }
    case Bump(x, _, _) => if Find(vs, x).Some? { VarEncodable(vs, x); } else { Nothing(); }
    case AddrOf(x) => if Find(vs, x).Some? { VarEncodable(vs, x); } else { Nothing(); }
    case Index(x, i) =>
      if Find(vs, x).Some? {
        VarEncodable(vs, x);
        var v := Find(vs, x).value;
        TailsEncodable(v.ty, Set);
        Cut4([DesignatedOf(v), PushRax], CompileExpr(i, vs), IndexTail(v), [LoadThrough(v.ty.base)]);
        ExprEncodable(i, vs);
      } else { Nothing(); }
    case Cast(t, e1) => TailsEncodable(t, Set); Cut(CompileExpr(e1, vs), CastCode(t)); ExprEncodable(e1, vs);
    case Not(e1) => Cut(CompileExpr(e1, vs), Normalize + [XorRaxOne]); ExprEncodable(e1, vs);
    case Neg(e1) => Cut(CompileExpr(e1, vs), [NegRax]); ExprEncodable(e1, vs);
    case Deref(e1) =>
      TailsEncodable(TypeOf(e1, vs), Set);
      Cut(CompileExpr(e1, vs), [LoadThrough(TypeOf(e1, vs).base)]);
      ExprEncodable(e1, vs);
    case Paren(e1) => ExprEncodable(e1, vs);
    case Bin(op, l, r) =>
      OpEncodable(op, TypeOf(l, vs), TypeOf(r, vs));
      Cut4(CompileExpr(l, vs), [PushRax], CompileExpr(r, vs), [PopRcx] + OpCode(op, TypeOf(l, vs), TypeOf(r, vs)));
      ExprEncodable(l, vs);
      ExprEncodable(r, vs);
    case And(_, _) => LogicEncodable(e, vs);
    case Or(_, _) => LogicEncodable(e, vs);
  }

  lemma Nothing()
    ensures AllEncodable([]) && Size([]) == 0
  {
  }

  lemma {:induction false} LogicEncodable(e: Expr, vs: Table)
    requires (e.And? || e.Or?) && Words64(e) && SmallOffsets(vs) && Size(CompileExpr(e, vs)) < TWO_31
    ensures AllEncodable(CompileExpr(e, vs))
    decreases e, 0
  {
    hide AllEncodable, Size, Normalize, SmallOffsets;
    TailsEncodable(TInt, Set);
    var r, bits := CompileExpr(e.r, vs), [PopRcx, if e.And? then AndRaxRcx else OrRaxRcx];
    var tail := r + Normalize + bits;
    var jump := if e.And? then Jz(Size(tail)) else Jnz(Size(tail));
    Cut(r + Normalize, bits);
    Cut(r, Normalize);
    Cut4(CompileExpr(e.l, vs), Normalize + [PushRax, TestRaxRax], [jump], tail);
    One(jump);
    ExprEncodable(e.l, vs);
    ExprEncodable(e.r, vs);
  }

  lemma AssignEncodable(x: string, op: AssignOp, e: Expr, vs: Table)
    requires Words64(e) && SmallOffsets(vs) && Size(AssignCode(x, op, e, vs)) < TWO_31
    ensures AllEncodable(AssignCode(x, op, e, vs))
  {
    hide AllEncodable, Size, CompileExpr, UpdateCode, SmallOffsets, LoadOf, StoreOf;
    if Find(vs, x).Some? {
      var v := Find(vs, x).value;
      VarEncodable(vs, x);
      TailsEncodable(TInt, op);
      Cut(CompileExpr(e, vs), AssignTail(v, op));
      ExprEncodable(e, vs);
      if op != Set { Cut4([PushRax], [LoadOf(v)], [PopRcx] + UpdateCode(op), [StoreOf(v)]); }
    } else { Nothing(); }
  }

  lemma StoreEncodable(s: Stmt, vs: Table)
    requires s.StoreIndex? || s.StoreThrough?
    requires Words64Stmt(s) && SmallOffsets(vs) && Size(CompileStmt(s, vs)) < TWO_31
    ensures AllEncodable(CompileStmt(s, vs))
  {
    hide AllEncodable, Size, CompileExpr, ScaleRax, SmallOffsets, LoadOf, DesignatedOf;
    if Find(vs, s.x).Some? {
      var v, e := Find(vs, s.x).value, CompileExpr(s.e, vs);
      VarEncodable(vs, s.x);
      TailsEncodable(v.ty, Set);
      if s.StoreIndex? {
        var i := CompileExpr(s.i, vs);
        var address := [DesignatedOf(v), PushRax] + i + IndexTail(v);
        Cut4(address, [PushRax], e, [PopRcx, XchgRaxRcx, StoreAt(v.ty.base.Width())]);
        Cut([DesignatedOf(v), PushRax] + i, IndexTail(v));
        Cut([DesignatedOf(v), PushRax], i);
        ExprEncodable(s.i, vs);
      } else {
        Cut4(e, [PushRax], [LoadOf(v)], [PopRcx, StoreAt(v.ty.base.Width())]);
      }
      ExprEncodable(s.e, vs);
    } else { Nothing(); }
  }

  /** test and conditional jump, or a jump, over a distance that fits. */
  lemma JumpEncodable(d: int)
    requires IsI32(d)
    ensures AllEncodable([Jmp(d)]) && AllEncodable([Jnz(d)]) && AllEncodable(JumpIfZero(d))
    ensures Size([Jmp(d)]) == JmpSize && Size(JumpIfZero(d)) == TestJumpSize && Size([TestRaxRax]) + Size([Jnz(d)]) == TestJumpSize
  {
    hide Size;
    JumpSizes(d);
  }

  lemma {:induction false} ForEncodable(s: Stmt, vs: Table)
    requires s.For? && Words64Stmt(s) && SmallOffsets(vs) && Size(CompileStmt(s, vs)) < TWO_31
    ensures AllEncodable(CompileStmt(s, vs))
    decreases s, 0
  {
    hide AllEncodable, Size, CompileExpr, InitCode, PostCode, SmallOffsets, JumpIfZero;
    var For(first, cond, step, body) := s;
    var init, post, b := InitCode(first, vs), PostCode(step, vs), CompileBlock(body, vs);
    var p, q := Size(post), Size(b);
    var exit := JmpSize + p + JmpSize + q + JmpSize;
    var guard, size := CondCode(cond, exit, vs), CondSize(cond, vs);
    var over, back, again := p + JmpSize, -(p + JmpSize + JmpSize + size), -(p + JmpSize + q + JmpSize);
    var rest := [Jmp(over)] + post + [Jmp(back)] + b;
    assert CompileStmt(s, vs) == init + (guard + (rest + [Jmp(again)]));
    Cut(init, guard + (rest + [Jmp(again)]));
    Cut(guard, rest + [Jmp(again)]);
    Cut(rest, [Jmp(again)]);
    Cut4([Jmp(over)], post, [Jmp(back)], b);
    Nothing();
    if cond.Some? { Cut(CompileExpr(cond.value, vs), JumpIfZero(exit)); }
    JumpSizes(over);
    JumpSizes(back);
    JumpSizes(again);
    JumpSizes(exit);
    JumpEncodable(over);
    JumpEncodable(back);
    JumpEncodable(again);
    JumpEncodable(exit);
    if cond.Some? { ExprEncodable(cond.value, vs); }
    InitEncodable(first, vs);
    PostEncodable(step, vs);
    BlockEncodable(body, vs);
  }

  lemma InitEncodable(first: ForInit, vs: Table)
    requires match first case InitDecl(_, _, _, init) => Words64Opt(init) case InitAssign(_, _, e) => Words64(e)
                         case InitExpr(e) => Words64(e) case NoInit => true
    requires SmallOffsets(vs) && Size(InitCode(first, vs)) < TWO_31
    ensures AllEncodable(InitCode(first, vs))
  {
    hide Encode, Size, CompileExpr, AssignCode;
    match first
    case NoInit =>
    case InitDecl(_, x, _, init) => if init.Some? { AssignEncodable(x, Set, init.value, vs); }
    case InitAssign(x, op, e) => AssignEncodable(x, op, e, vs);
    case InitExpr(e) => ExprEncodable(e, vs);
  }

  lemma PostEncodable(step: ForPost, vs: Table)
    requires match step case PostAssign(_, _, e) => Words64(e) case PostExpr(e) => Words64(e) case _ => true
    requires SmallOffsets(vs) && Size(PostCode(step, vs)) < TWO_31
    ensures AllEncodable(PostCode(step, vs))
  {
    hide AllEncodable, Size, CompileExpr, AssignCode, SmallOffsets, BumpOf;
    Nothing();
    match step
    case PostBump(x, _, _) => if Find(vs, x).Some? { VarEncodable(vs, x); }
    case PostAssign(x, op, e) => AssignEncodable(x, op, e, vs);
    case PostExpr(e) => ExprEncodable(e, vs);
    case _ =>
  }

  lemma {:induction false} LoopEncodable(s: Stmt, vs: Table)
    requires (s.While? || s.DoWhile?) && Words64Stmt(s) && SmallOffsets(vs) && Size(CompileStmt(s, vs)) < TWO_31
    ensures AllEncodable(CompileStmt(s, vs))
    decreases s, 0
  {
    hide AllEncodable, Size, CompileExpr, JumpIfZero, SmallOffsets;
    TailsEncodable(TInt, Set);
    var c, b := CompileExpr(s.c, vs), CompileBlock(s.body, vs);
    var skip, back := Size(b) + JmpSize, -(Size(c) + TestJumpSize + Size(b) + JmpSize);
    var again := -(Size(b) + Size(c) + TestJumpSize);
    JumpSizes(skip);
    JumpSizes(back);
    JumpSizes(again);
    if s.While? { Cut4(c, JumpIfZero(skip), b, [Jmp(back)]); } else { Cut4(b, c, [TestRaxRax], [Jnz(again)]); }
    if s.While? { JumpEncodable(skip); JumpEncodable(back); } else { JumpEncodable(again); }
    ExprEncodable(s.c, vs);
    BlockEncodable(s.body, vs);
  }

  lemma {:induction false} IfEncodable(s: Stmt, vs: Table)
    requires s.If? && Words64Stmt(s) && SmallOffsets(vs) && Size(CompileStmt(s, vs)) < TWO_31
    ensures AllEncodable(CompileStmt(s, vs))
    decreases s, 0
  {
    hide AllEncodable, Size, CompileExpr, JumpIfZero, SmallOffsets;
    var c, t := CompileExpr(s.c, vs), CompileBlock(s.thn, vs);
    var els := match s.els case None => [] case Some(b) => CompileBlock(b, vs);
    var over := if s.els.Some? then [Jmp(Size(els))] else [];
    var skip := Size(t) + if s.els.Some? then JmpSize else 0;
    assert CompileStmt(s, vs) == c + JumpIfZero(skip) + t + (over + els);
    Cut4(c, JumpIfZero(skip), t, over + els);
    Cut(over, els);
    Nothing();
    JumpSizes(skip);
    JumpSizes(Size(els));
    JumpEncodable(skip);
    JumpEncodable(Size(els));
    ExprEncodable(s.c, vs);
    BlockEncodable(s.thn, vs);
    if s.els.Some? { BlockEncodable(s.els.value, vs); }
  }

  lemma {:induction false} StmtEncodable(s: Stmt, vs: Table)
    requires Words64Stmt(s) && SmallOffsets(vs) && Size(CompileStmt(s, vs)) < TWO_31
    ensures AllEncodable(CompileStmt(s, vs))
    decreases s, 1
  {
    hide AllEncodable, Size, CompileExpr, AssignCode, SmallOffsets, Epilogue, BumpOf;
    TailsEncodable(TInt, Set);
    Nothing();
    match s
    case Decl(_, x, _, init) => if init.Some? { AssignEncodable(x, Set, init.value, vs); }
    case Assign(x, op, e) => AssignEncodable(x, op, e, vs);
    case StoreIndex(_, _, _) => StoreEncodable(s, vs);
    case StoreThrough(_, _) => StoreEncodable(s, vs);
    case BumpStmt(x, _, _) => if Find(vs, x).Some? { VarEncodable(vs, x); }
    case Return(e) =>
      if e.Some? {
        Cut(CompileExpr(e.value, vs), Epilogue);
        ExprEncodable(e.value, vs);
      }
    case If(_, _, _) => IfEncodable(s, vs);
    case While(_, _) => LoopEncodable(s, vs);
    case DoWhile(_, _) => LoopEncodable(s, vs);
    case For(_, _, _, _) => ForEncodable(s, vs);
    case Skipped(_, _, _) =>
  }

  lemma {:induction false} BlockEncodable(b: Block, vs: Table)
    requires Words64Block(b) && SmallOffsets(vs) && Size(CompileBlock(b, vs)) < TWO_31
    ensures AllEncodable(CompileBlock(b, vs))
    decreases b, 1
  {
    hide AllEncodable, Size, CompileStmt;
    match b case Braces(ss) => StmtsEncodable(ss, vs); case One(s) => StmtEncodable(s, vs);
  }

  lemma {:induction false} StmtsEncodable(ss: Stmts, vs: Table)
    requires Words64Stmts(ss) && SmallOffsets(vs) && Size(CompileStmts(ss, vs)) < TWO_31
    ensures AllEncodable(CompileStmts(ss, vs))
    decreases ss, 1
  {
    hide AllEncodable, Size, CompileStmt;
    if ss.Cons? {
      Cut(CompileStmt(ss.head, vs), CompileStmts(ss.tail, vs));
      StmtEncodable(ss.head, vs);
      StmtsEncodable(ss.tail, vs);
    } else { Nothing(); }
  }

  /** A program whose code fits in 2 GB (the buffer holds 64 KB) is encodable as a whole. */
  lemma ProgramEncodable(p: Stmts, vs: Table)
    requires Words64Stmts(p) && SmallOffsets(vs) && IsI32(FrameSize(vs)) && Size(CompileProgram(p, vs)) < TWO_31
    ensures AllEncodable(CompileProgram(p, vs))
  {
    hide AllEncodable, Size, CompileStmts, SmallOffsets, FrameSize, Epilogue;
    var prologue, epilogue := [PushRbp, MovRbpRsp, SubRsp(FrameSize(vs))], [MovRaxImm(0)] + Epilogue;
    assert AllEncodable(prologue) by { PrologueEncodable(FrameSize(vs)); }
    TailsEncodable(TInt, Set);
    Cut(prologue + CompileStmts(p, vs), epilogue);
    Cut(prologue, CompileStmts(p, vs));
    StmtsEncodable(p, vs);
  }

  lemma PrologueEncodable(n: int)
    requires IsI32(n)
    ensures AllEncodable([PushRbp, MovRbpRsp, SubRsp(n)])
  {
  }
}
