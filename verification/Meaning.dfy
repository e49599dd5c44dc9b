/**
 * What a program means, without a machine: 64-bit wrapping arithmetic, truncating division, signed comparison,
 * zero-extending casts, short-circuit && and ||, pointers that move by elements. Variables live in a byte frame below `base`, so that pointers,
 * arrays and sized variables have their flat-memory meaning; an access outside the frame is Wild (no meaning).
 */
module Meaning {
  import opened Words
  import opened Syntax

  datatype Value = Val(v: int, mem: Memory) | Trap | Wild

  predicate InFrame(mem: Memory, a: int, n: nat) {
    forall k :: a <= k < a + n ==> k in mem
  }

  function ReadAt(mem: Memory, a: int, w: Width, signed: bool): Value {
    if InFrame(mem, a, w.Bytes()) then Val(LoadExt(mem, a, w, signed), mem) else Wild
  }

  /** The value of a write is the value written. */
  function WriteAt(mem: Memory, a: int, w: Width, v: int): Value {
    if InFrame(mem, a, w.Bytes()) then Val(v, Store(mem, a, w.Bytes(), v)) else Wild
  }

  function ReadVar(mem: Memory, base: int, x: VarInfo): Value {
    ReadAt(mem, base - x.offset, x.ty.Width(), x.ty.base.Signed())
  }

  function WriteVar(mem: Memory, base: int, x: VarInfo, v: int): Value {
    WriteAt(mem, base - x.offset, x.ty.Width(), v)
  }

  /** ++ moves a pointer by the size of what it points to, and anything else by one. */
  function StepOf(x: VarInfo): (n: nat)
    ensures n >= 1
  {
    if x.ty.isPtr then x.ty.base.Bytes() else 1
  }

  function Stride(x: VarInfo, up: bool): int {
    var n: int := StepOf(x);
    if up then n else -n
  }

  /** ++x, --x, x++, x--. The value is the new or the old one. */
  function BumpVar(mem: Memory, base: int, x: VarInfo, up: bool, post: bool): Value {
    match ReadVar(mem, base, x)
    case Val(old_, _) =>
      (match WriteVar(mem, base, x, old_ + Stride(x, up))
       case Val(_, mem') => if post then Val(old_, mem') else ReadVar(mem', base, x)
       case other => other)
    case other => other
  }

  /** What a name denotes: the address of an array, the value of a scalar. */
  function Designated(mem: Memory, base: int, x: VarInfo): Value {
    if x.IsArray() then Val(Wrap(base - x.offset), mem) else ReadVar(mem, base, x)
  }

  function CastTo(t: Type, v: int): int {
    if t.isPtr then v
    else match t.base.Width()
      case W8 => v % 0x100
      case W16 => v % 0x1_0000
      case W32 => v % TWO_32
      case W64 => v
  }

  function Scale(v: int, t: Type): int {
    Wrap(v * t.base.Bytes())
  }

  function Plain(op: BinOp, x: int, y: int): int {
    if op == Add then Wrap(x + y) else Wrap(x - y)
  }

  /** + and - with pointer arithmetic. */
  function Sum(op: BinOp, tl: Type, tr: Type, x: int, y: int): int {
    if tl.isPtr && !tr.isPtr then Plain(op, x, Scale(y, tl))
    else if !tl.isPtr && tr.isPtr && op == Add then Wrap(Scale(x, tr) + y)
    else if tl.isPtr && tr.isPtr && op == Sub then TruncDiv(Wrap(x - y), tl.base.Bytes())
    else Plain(op, x, y)
  }

  /** Division traps on a zero divisor and when the quotient is not a word. */
  predicate DivTraps(x: int, y: int) {
    y == 0 || !IsWord(TruncDiv(x, y))
  }

  function Truth(b: bool): (r: int)
    ensures r in {0, 1}
  {
    if b then 1 else 0
  }

  function Binary(op: BinOp, tl: Type, tr: Type, x: int, y: int): Option<int> {
    match op
    case Mul => Some(Wrap(x * y))
    case Div => if DivTraps(x, y) then None else Some(TruncDiv(x, y))
    case Mod => if DivTraps(x, y) then None else Some(TruncMod(x, y))
    case Lt => Some(Truth(x < y))
    case Gt => Some(Truth(x > y))
    case Le => Some(Truth(x <= y))
    case Ge => Some(Truth(x >= y))
    case Eq => Some(Truth(x == y))
    case Ne => Some(Truth(x != y))
    case _ => Some(Sum(op, tl, tr, x, y))
  }

  /** Address of element i of the array or pointer v. */
  function ElementAddress(v: VarInfo, i: Expr, vs: Table, base: int, mem: Memory): Value
    decreases i, 1
  {
    match Designated(mem, base, v)
    case Val(a, _) => (match Eval(i, vs, base, mem) case Val(k, m) => Val(Wrap(a + Scale(k, v.ty)), m) case other => other)
    case other => other
  }

  function Eval(e: Expr, vs: Table, base: int, mem: Memory): Value
    decreases e, 0
  {
    match e
    case Num(v) => Val(Wrap(v), mem)
    case Name(x) => (match Find(vs, x) case None => Wild case Some(v) => Designated(mem, base, v))
    case Index(x, i) =>
      (match Find(vs, x)
       case None => Wild
       case Some(v) => match ElementAddress(v, i, vs, base, mem)
         case Val(a, m) => ReadAt(m, a, v.ty.base.Width(), v.ty.base.Signed())
         case other => other)
    case Bump(x, up, post) => (match Find(vs, x) case None => Wild case Some(v) => BumpVar(mem, base, v, up, post))
    case Cast(t, e1) => (match Eval(e1, vs, base, mem) case Val(v, m) => Val(CastTo(t, v), m) case other => other)
    case Not(e1) => (match Eval(e1, vs, base, mem) case Val(v, m) => Val(Truth(v == 0), m) case other => other)
    case Neg(e1) => (match Eval(e1, vs, base, mem) case Val(v, m) => Val(Wrap(-v), m) case other => other)
    case Deref(e1) =>
      (match Eval(e1, vs, base, mem)
       case Val(a, m) =>
         var t := TypeOf(e1, vs).base;
         ReadAt(m, a, t.Width(), t.Signed())
       case other => other)
    case AddrOf(x) => (match Find(vs, x) case None => Wild case Some(v) => Val(Wrap(base - v.offset), mem))
    case Paren(e1) => Eval(e1, vs, base, mem)
    case Bin(op, l, r) =>
      (match Eval(l, vs, base, mem)
       case Val(x, m1) => (match Eval(r, vs, base, m1)
         case Val(y, m2) => (match Binary(op, TypeOf(l, vs), TypeOf(r, vs), x, y)
           case None => Trap
           case Some(z) => Val(z, m2))
         case other => other)
       case other => other)
    case And(l, r) =>
      (match Eval(l, vs, base, mem)
       case Val(x, m1) =>
         if x == 0 then Val(0, m1)
         else (match Eval(r, vs, base, m1) case Val(y, m2) => Val(Truth(y != 0), m2) case other => other)
       case other => other)
    case Or(l, r) =>
      (match Eval(l, vs, base, mem)
       case Val(x, m1) =>
         if x != 0 then Val(1, m1)
         else (match Eval(r, vs, base, m1) case Val(y, m2) => Val(Truth(y != 0), m2) case other => other)
       case other => other)
  }

  // ----- statements -----

  /** Timeout means the fuel, one unit per loop iteration, did not suffice. */
  datatype Result = Next(mem: Memory) | Returns(v: int, mem: Memory) | Traps | Wilds | Timeout

  function After(v: Value): Result {
    match v case Val(_, m) => Next(m) case Trap => Traps case Wild => Wilds
  }

  /** x op= y. */
  function Update(op: AssignOp, x: int, y: int): Option<int> {
    match op
    case Set => Some(y)
    case AddTo => Some(Wrap(x + y))
    case SubFrom => Some(Wrap(x - y))
    case MulBy => Some(Wrap(x * y))
    case DivBy => if DivTraps(x, y) then None else Some(TruncDiv(x, y))
    case ModBy => if DivTraps(x, y) then None else Some(TruncMod(x, y))
  }

  /** What x op= y combines with x: a pointer moves by y elements. */
  function Moved(x: VarInfo, op: AssignOp, y: int): int {
    if x.ty.isPtr && (op == AddTo || op == SubFrom) then Scale(y, x.ty) else y
  }

  /** The right side is evaluated first, then the variable is read. */
  function AssignVar(vs: Table, base: int, mem: Memory, x: string, op: AssignOp, e: Expr): Result {
    match Find(vs, x)
    case None => Wilds
    case Some(v) => match Eval(e, vs, base, mem)
      case Val(y, m1) => (match if op == Set then Val(0, m1) else ReadVar(m1, base, v)
        case Val(old_, _) => (match Update(op, old_, Moved(v, op, y))
          case None => Traps
          case Some(z) => After(WriteVar(m1, base, v, z)))
        case other => After(other))
      case other => After(other)
  }

  function BumpStatement(vs: Table, base: int, mem: Memory, x: string, up: bool): Result {
    match Find(vs, x)
    case None => Wilds
    case Some(v) => match ReadVar(mem, base, v)
      case Val(old_, _) => After(WriteVar(mem, base, v, old_ + Stride(v, up)))
      case other => After(other)
  }

  function StoreElement(vs: Table, base: int, mem: Memory, x: string, i: Expr, e: Expr): Result {
    match Find(vs, x)
    case None => Wilds
    case Some(v) => match ElementAddress(v, i, vs, base, mem)
      case Val(a, m1) => (match Eval(e, vs, base, m1)
        case Val(y, m2) => After(WriteAt(m2, a, v.ty.base.Width(), y))
        case other => After(other))
      case other => After(other)
  }

  function StorePointed(vs: Table, base: int, mem: Memory, x: string, e: Expr): Result {
    match Find(vs, x)
    case None => Wilds
    case Some(v) => match Eval(e, vs, base, mem)
      case Val(y, m1) => (match ReadVar(m1, base, v)
        case Val(a, _) => After(WriteAt(m1, a, v.ty.base.Width(), y))
        case other => After(other))
      case other => After(other)
  }

  function RunInit(first: ForInit, vs: Table, base: int, mem: Memory): Result {
    match first
    case NoInit => Next(mem)
    case InitDecl(_, x, _, init) => (match init case None => Next(mem) case Some(e) => AssignVar(vs, base, mem, x, Set, e))
    case InitAssign(x, op, e) => AssignVar(vs, base, mem, x, op, e)
    case InitExpr(e) => After(Eval(e, vs, base, mem))
  }

  function RunPost(step: ForPost, vs: Table, base: int, mem: Memory): Result {
    match step
    case NoPost => Next(mem)
    case PostBare(_) => Next(mem)
    case PostIgnored(_, _, _) => Next(mem)
    case PostBump(x, up, _) => BumpStatement(vs, base, mem, x, up)
    case PostAssign(x, op, e) => AssignVar(vs, base, mem, x, op, e)
    case PostExpr(e) => After(Eval(e, vs, base, mem))
  }

  function EvalCond(cond: Option<Expr>, vs: Table, base: int, mem: Memory): Value {
    match cond case None => Val(1, mem) case Some(c) => Eval(c, vs, base, mem)
  }

  function RunStmt(s: Stmt, vs: Table, base: int, fuel: nat, mem: Memory): Result
    decreases fuel, s, 0
  {
    match s
    case Decl(_, x, _, init) => (match init case None => Next(mem) case Some(e) => AssignVar(vs, base, mem, x, Set, e))
    case Assign(x, op, e) => AssignVar(vs, base, mem, x, op, e)
    case StoreIndex(x, i, e) => StoreElement(vs, base, mem, x, i, e)
    case StoreThrough(x, e) => StorePointed(vs, base, mem, x, e)
    case BumpStmt(x, up, _) => BumpStatement(vs, base, mem, x, up)
    case Skipped(_, _, _) => Next(mem)
    case Return(None) => Returns(0, mem)
    case Return(Some(e)) => (match Eval(e, vs, base, mem) case Val(v, m) => Returns(v, m) case other => After(other))
    case If(c, thn, els) =>
      (match Eval(c, vs, base, mem)
       case Val(v, m) =>
         if v != 0 then RunBlock(thn, vs, base, fuel, m)
         else (match els case None => Next(m) case Some(b) => RunBlock(b, vs, base, fuel, m))
       case other => After(other))
    case While(c, body) =>
      if fuel == 0 then Timeout
      else (match Eval(c, vs, base, mem)
        case Val(v, m) =>
          if v == 0 then Next(m)
          else (match RunBlock(body, vs, base, fuel, m)
            case Next(m1) => RunStmt(s, vs, base, fuel - 1, m1)
            case other => other)
        case other => After(other))
    case DoWhile(body, c) =>
      if fuel == 0 then Timeout
      else (match RunBlock(body, vs, base, fuel, mem)
        case Next(m) => (match Eval(c, vs, base, m)
          case Val(v, m1) => if v == 0 then Next(m1) else RunStmt(s, vs, base, fuel - 1, m1)
          case other => After(other))
        case other => other)
    case For(first, cond, step, body) =>
      (match RunInit(first, vs, base, mem)
       case Next(m) => RunFor(cond, step, body, vs, base, fuel, m)
       case other => other)
  }

  function RunFor(cond: Option<Expr>, step: ForPost, body: Block, vs: Table, base: int, fuel: nat, mem: Memory): Result
    decreases fuel, body, 1
  {
    if fuel == 0 then Timeout
    else match EvalCond(cond, vs, base, mem)
      case Val(v, m) =>
        if v == 0 then Next(m)
        else (match RunBlock(body, vs, base, fuel, m)
          case Next(m1) => (match RunPost(step, vs, base, m1)
            case Next(m2) => RunFor(cond, step, body, vs, base, fuel - 1, m2)
            case other => other)
          case other => other)
      case other => After(other)
  }

  function RunBlock(b: Block, vs: Table, base: int, fuel: nat, mem: Memory): Result
    decreases fuel, b, 0
  {
    match b case Braces(ss) => RunStmts(ss, vs, base, fuel, mem) case One(s) => RunStmt(s, vs, base, fuel, mem)
  }

  function RunStmts(ss: Stmts, vs: Table, base: int, fuel: nat, mem: Memory): Result
    decreases fuel, ss, 0
  {
    match ss
    case Nil => Next(mem)
    case Cons(s, rest) =>
      match RunStmt(s, vs, base, fuel, mem)
      case Next(m) => RunStmts(rest, vs, base, fuel, m)
      case other => other
  }

  /** A program that runs off its end returns 0. */
  function RunProgram(p: Stmts, vs: Table, base: int, fuel: nat, mem: Memory): Result {
    match RunStmts(p, vs, base, fuel, mem) case Next(m) => Returns(0, m) case other => other
  }
}
