/** Compilation of syntax to instruction lists. Jumps are relative, so the code of a phrase does not depend on its place. */
module CodeGen {
  import opened Words
  import opened Instructions
  import opened Machine
  import opened Syntax

  type Code = seq<Instr>

  function LoadForm(w: Width, signed: bool): bool {
    signed || w == W64
  }

  function LoadOf(v: VarInfo): Instr {
    LoadVar(v.ty.Width(), LoadForm(v.ty.Width(), v.ty.base.Signed()), -v.offset)
  }

  function StoreOf(v: VarInfo): Instr {
    StoreVar(v.ty.Width(), -v.offset)
  }

  function BumpOf(v: VarInfo, up: bool): Instr {
    if up then IncVar(v.ty.Width(), -v.offset) else DecVar(v.ty.Width(), -v.offset)
  }

  function LoadThrough(b: BaseType): Instr {
    LoadAt(b.Width(), LoadForm(b.Width(), b.Signed()))
  }

  /** The array's address or the scalar's value. */
  function DesignatedOf(v: VarInfo): Instr {
    if v.IsArray() then LeaRax(-v.offset) else LoadOf(v)
  }

  const Normalize: Code := [TestRaxRax, SetAl(CNe), MovzxRaxAl]
  const Divide: Code := [Cqo, IdivRcx]
  const Epilogue: Code := [MovRspRbp, PopRbp, Ret]

  function ScaleRax(t: Type): Code {
    if t.base.Bytes() > 1 then [ImulRaxImm(t.base.Bytes())] else []
  }

  function CastCode(t: Type): Code {
    if t.isPtr then []
    else match t.base.Width()
      case W8 => [AndRaxImm(0xFF)]
      case W16 => [AndRaxImm(0xFFFF)]
      case W32 => [MovEaxEax]
      case W64 => []
  }

  /** Left operand in rcx, right operand in rax. */
  function PlainCode(op: BinOp): Code {
    if op == Add then [AddRaxRcx] else [SubRcxRax, MovRaxRcx]
  }

  function SumCode(op: BinOp, tl: Type, tr: Type): Code {
    if tl.isPtr && !tr.isPtr then ScaleRax(tl) + PlainCode(op)
    else if !tl.isPtr && tr.isPtr && op == Add then
      [XchgRaxRcx] + (if tr.base.Bytes() > 1 then [ImulRcxImm(tr.base.Bytes())] else []) + [AddRaxRcx]
    else if tl.isPtr && tr.isPtr && op == Sub then
      PlainCode(Sub) + if tl.base.Bytes() > 1 then [MovRcxImm(tl.base.Bytes())] + Divide else []
    else PlainCode(op)
  }

  function Compare(c: Cond): Code {
    [CmpRcxRax, SetAl(c), MovzxRaxAl]
  }

  function OpCode(op: BinOp, tl: Type, tr: Type): Code {
    match op
    case Mul => [ImulRaxRcx]
    case Div => [XchgRaxRcx] + Divide
    case Mod => [XchgRaxRcx] + (Divide + [MovRaxRdx])
    case Lt => Compare(CLt)
    case Gt => Compare(CGt)
    case Le => Compare(CLe)
    case Ge => Compare(CGe)
    case Eq => Compare(CEq)
    case Ne => Compare(CNe)
    case _ => SumCode(op, tl, tr)
  }

  function BumpCode(v: VarInfo, up: bool, post: bool): Code {
    if post then [LoadOf(v), BumpOf(v, up)] else [BumpOf(v, up), LoadOf(v)]
  }

  function IndexTail(v: VarInfo): Code {
    ScaleRax(v.ty) + [PopRcx, AddRaxRcx]
  }

  function AndTail(right: Code): Code {
    right + Normalize + [PopRcx, AndRaxRcx]
  }

  function OrTail(right: Code): Code {
    right + Normalize + [PopRcx, OrRaxRcx]
  }

  function CompileExpr(e: Expr, vs: Table): Code {
    match e
    case Num(v) => [MovRaxImm(v)]
    case Name(x) => (match Find(vs, x) case None => [] case Some(v) => [DesignatedOf(v)])
    case Index(x, i) =>
      (match Find(vs, x)
       case None => []
       case Some(v) => [DesignatedOf(v), PushRax] + CompileExpr(i, vs) + IndexTail(v) + [LoadThrough(v.ty.base)])
    case Bump(x, up, post) => (match Find(vs, x) case None => [] case Some(v) => BumpCode(v, up, post))
    case Cast(t, e1) => CompileExpr(e1, vs) + CastCode(t)
    case Not(e1) => CompileExpr(e1, vs) + (Normalize + [XorRaxOne])
    case Neg(e1) => CompileExpr(e1, vs) + [NegRax]
    case Deref(e1) => CompileExpr(e1, vs) + [LoadThrough(TypeOf(e1, vs).base)]
    case AddrOf(x) => (match Find(vs, x) case None => [] case Some(v) => [LeaRax(-v.offset)])
    case Paren(e1) => CompileExpr(e1, vs)
    case Bin(op, l, r) =>
      CompileExpr(l, vs) + [PushRax] + CompileExpr(r, vs) + ([PopRcx] + OpCode(op, TypeOf(l, vs), TypeOf(r, vs)))
    case And(l, r) =>
      var tail := AndTail(CompileExpr(r, vs));
      CompileExpr(l, vs) + (Normalize + [PushRax, TestRaxRax]) + [Jz(Size(tail))] + tail
    case Or(l, r) =>
      var tail := OrTail(CompileExpr(r, vs));
      CompileExpr(l, vs) + (Normalize + [PushRax, TestRaxRax]) + [Jnz(Size(tail))] + tail
  }

  // ----- statements -----

  /** Old value in rax, right side in rcx. */
  function UpdateCode(op: AssignOp): Code {
    match op
    case Set => []
    case AddTo => [AddRaxRcx]
    case SubFrom => [SubRaxRcx]
    case MulBy => [ImulRaxRcx]
    case DivBy => Divide
    case ModBy => Divide + [MovRaxRdx]
  }

  function AssignTail(v: VarInfo, op: AssignOp): Code {
    if op == Set then [StoreOf(v)] else [PushRax] + [LoadOf(v)] + ([PopRcx] + UpdateCode(op)) + [StoreOf(v)]
  }

  function AssignCode(x: string, op: AssignOp, e: Expr, vs: Table): Code {
    match Find(vs, x) case None => [] case Some(v) => CompileExpr(e, vs) + AssignTail(v, op)
  }

  function BumpStmtCode(x: string, up: bool, vs: Table): Code {
    match Find(vs, x) case None => [] case Some(v) => [BumpOf(v, up)]
  }

  function InitCode(first: ForInit, vs: Table): Code {
    match first
    case NoInit => []
    case InitDecl(_, x, _, init) => (match init case None => [] case Some(e) => AssignCode(x, Set, e, vs))
    case InitAssign(x, op, e) => AssignCode(x, op, e, vs)
    case InitExpr(e) => CompileExpr(e, vs)
  }

  function PostCode(step: ForPost, vs: Table): Code {
    match step
    case NoPost => []
    case PostBare(_) => []
    case PostIgnored(_, _, _) => []
    case PostBump(x, up, _) => BumpStmtCode(x, up, vs)
    case PostAssign(x, op, e) => AssignCode(x, op, e, vs)
    case PostExpr(e) => CompileExpr(e, vs)
  }

  const JmpSize: int := 5
  const TestJumpSize: int := 9   // test rax, rax; jz/jnz rel32

  /** test rax, rax; jz over `skip` bytes. */
  function JumpIfZero(skip: int): Code {
    [TestRaxRax] + [Jz(skip)]
  }

  lemma JumpSizes(r: int)
    ensures Size([Jmp(r)]) == JmpSize && Size([TestRaxRax]) + Size([Jnz(r)]) == TestJumpSize
    ensures Size(JumpIfZero(r)) == TestJumpSize
  {
    hide Decode;
    assert |Encode(Jmp(r))| == 5 && |Encode(Jnz(r))| == 6 && |Encode(Jz(r))| == 6 && |Encode(TestRaxRax)| == 3;
    assert [Jmp(r)][1..] == [] && [Jnz(r)][1..] == [] && [TestRaxRax][1..] == [];
    assert ([TestRaxRax] + [Jz(r)])[1..] == [Jz(r)] && [Jz(r)][1..] == [];
  }

  function CondCode(cond: Option<Expr>, exit: int, vs: Table): Code {
    match cond case None => [] case Some(c) => CompileExpr(c, vs) + JumpIfZero(exit)
  }

  function CondSize(cond: Option<Expr>, vs: Table): (n: int)
    ensures n >= 0
  {
    match cond case None => 0 case Some(c) => Size(CompileExpr(c, vs)) + TestJumpSize
  }

  /** cond; jz exit; jmp body; post; jmp cond; body; jmp post. */
  function ForCode(cond: Option<Expr>, post: Code, body: Code, vs: Table): Code {
    var p, b := Size(post), Size(body);
    CondCode(cond, JmpSize + p + JmpSize + b + JmpSize, vs) + ([Jmp(p + JmpSize)] + post +
    [Jmp(-(p + JmpSize + JmpSize + CondSize(cond, vs)))] + body + [Jmp(-(p + JmpSize + b + JmpSize))])
  }

  function WhileCode(cond: Code, body: Code): Code {
    cond + JumpIfZero(Size(body) + JmpSize) + body + [Jmp(-(Size(cond) + TestJumpSize + Size(body) + JmpSize))]
  }

  function DoWhileCode(body: Code, cond: Code): Code {
    body + cond + [TestRaxRax] + [Jnz(-(Size(body) + Size(cond) + TestJumpSize))]
  }

  function IfCode(cond: Code, thn: Code, els: Option<Code>): Code {
    match els
    case None => cond + JumpIfZero(Size(thn)) + thn
    case Some(other) => cond + JumpIfZero(Size(thn) + JmpSize) + thn + [Jmp(Size(other))] + other
  }

  function CompileStmt(s: Stmt, vs: Table): Code {
    match s
    case Decl(_, x, _, init) => (match init case None => [] case Some(e) => AssignCode(x, Set, e, vs))
    case Assign(x, op, e) => AssignCode(x, op, e, vs)
    case StoreIndex(x, i, e) =>
      (match Find(vs, x)
       case None => []
       case Some(v) =>
         [DesignatedOf(v), PushRax] + CompileExpr(i, vs) + IndexTail(v) + [PushRax] + CompileExpr(e, vs)
         + [PopRcx, XchgRaxRcx, StoreAt(v.ty.base.Width())])
    case StoreThrough(x, e) =>
      (match Find(vs, x)
       case None => []
       case Some(v) => CompileExpr(e, vs) + [PushRax] + [LoadOf(v)] + [PopRcx, StoreAt(v.ty.base.Width())])
    case BumpStmt(x, up, _) => BumpStmtCode(x, up, vs)
    case Skipped(_, _, _) => []
    case Return(None) => [MovRaxImm(0)] + Epilogue
    case Return(Some(e)) => CompileExpr(e, vs) + Epilogue
    case If(c, thn, els) =>
      IfCode(CompileExpr(c, vs), CompileBlock(thn, vs), match els case None => None case Some(b) => Some(CompileBlock(b, vs)))
    case While(c, body) => WhileCode(CompileExpr(c, vs), CompileBlock(body, vs))
    case DoWhile(body, c) => DoWhileCode(CompileBlock(body, vs), CompileExpr(c, vs))
    case For(first, cond, step, body) =>
      InitCode(first, vs) + ForCode(cond, PostCode(step, vs), CompileBlock(body, vs), vs)
  }

  function CompileBlock(b: Block, vs: Table): Code {
    match b case Braces(ss) => CompileStmts(ss, vs) case One(s) => CompileStmt(s, vs)
  }

  function CompileStmts(ss: Stmts, vs: Table): Code {
    match ss case Nil => [] case Cons(s, rest) => CompileStmt(s, vs) + CompileStmts(rest, vs)
  }

  function CompileProgram(p: Stmts, vs: Table): Code {
    [PushRbp, MovRbpRsp, SubRsp(FrameSize(vs))] + CompileStmts(p, vs) + ([MovRaxImm(0)] + Epilogue)
  }
}
