/**
 * What the emitted code does, for every program: the same traversal as Meaning, but left operands wait on an explicit
 * operand stack. A taken short-circuit jump skips the `pop rcx`, so its word stays there, and a later pop takes it in
 * place of the operand that was meant. An int + pointer sum scales the pointer, and ++, --, += and -= move a pointer by
 * bytes, not by elements.
 */
module Emitted {
  import opened Words
  import opened Syntax
  import opened Meaning

  /** The stack grows at its end. */
  datatype State = State(mem: Memory, stack: seq<int>)

  datatype Effect = Gives(v: int, s: State) | Faults | Strays

  function Pushed(s: State, v: int): State {
    s.(stack := s.stack + [v])
  }

  function TopOf(s: State): int {
    if s.stack == [] then 0 else s.stack[|s.stack| - 1]
  }

  function Popped(s: State): State {
    if s.stack == [] then s else s.(stack := s.stack[..|s.stack| - 1])
  }

  /** A memory access keeps the stack. */
  function Lift(v: Value, s: State): Effect {
    match v case Val(x, m) => Gives(x, s.(mem := m)) case Trap => Faults case Wild => Strays
  }

  /** inc or dec on the variable, whatever its type. */
  function Bumped(mem: Memory, base: int, x: VarInfo, up: bool, post: bool): Value {
    match ReadVar(mem, base, x)
    case Val(old_, _) =>
      (match WriteVar(mem, base, x, old_ + if up then 1 else -1)
       case Val(_, mem') => if post then Val(old_, mem') else ReadVar(mem', base, x)
       case other => other)
    case other => other
  }

  function EmittedSum(op: BinOp, tl: Type, tr: Type, x: int, y: int): int {
    if !tl.isPtr && tr.isPtr && op == Add then Wrap(x + Scale(y, tr)) else Sum(op, tl, tr, x, y)
  }

  function EmittedBinary(op: BinOp, tl: Type, tr: Type, x: int, y: int): Option<int> {
    if op == Add || op == Sub then Some(EmittedSum(op, tl, tr, x, y)) else Binary(op, tl, tr, x, y)
  }

  /** The array's or pointer's address waits on the stack while the index runs. */
  function ElementE(v: VarInfo, i: Expr, vs: Table, base: int, s: State): (r: Effect)
    ensures r.Gives? ==> s.stack <= r.s.stack
    decreases i, 1
  {
    match Designated(s.mem, base, v)
    case Val(a, _) =>
      (match EvalE(i, vs, base, Pushed(s, a))
       case Gives(k, s1) => Gives(Wrap(TopOf(s1) + Scale(k, v.ty)), Popped(s1))
       case other => other)
    case other => Lift(other, s)
  }

  /** Values pushed by the caller are a prefix of the stack afterwards. */
  function EvalE(e: Expr, vs: Table, base: int, s: State): (r: Effect)
    ensures r.Gives? ==> s.stack <= r.s.stack
    decreases e, 0
  {
    match e
    case Num(v) => Gives(Wrap(v), s)
    case Name(x) => (match Find(vs, x) case None => Strays case Some(v) => Lift(Designated(s.mem, base, v), s))
    case Index(x, i) =>
      (match Find(vs, x)
       case None => Strays
       case Some(v) => match ElementE(v, i, vs, base, s)
         case Gives(a, s1) => Lift(ReadAt(s1.mem, a, v.ty.base.Width(), v.ty.base.Signed()), s1)
         case other => other)
    case Bump(x, up, post) => (match Find(vs, x) case None => Strays case Some(v) => Lift(Bumped(s.mem, base, v, up, post), s))
    case Cast(t, e1) => (match EvalE(e1, vs, base, s) case Gives(v, s1) => Gives(CastTo(t, v), s1) case other => other)
    case Not(e1) => (match EvalE(e1, vs, base, s) case Gives(v, s1) => Gives(Truth(v == 0), s1) case other => other)
    case Neg(e1) => (match EvalE(e1, vs, base, s) case Gives(v, s1) => Gives(Wrap(-v), s1) case other => other)
    case Deref(e1) =>
      (match EvalE(e1, vs, base, s)
       case Gives(a, s1) =>
         var t := TypeOf(e1, vs).base;
         Lift(ReadAt(s1.mem, a, t.Width(), t.Signed()), s1)
       case other => other)
    case AddrOf(x) => (match Find(vs, x) case None => Strays case Some(v) => Gives(Wrap(base - v.offset), s))
    case Paren(e1) => EvalE(e1, vs, base, s)
    case Bin(op, l, r) =>
      (match EvalE(l, vs, base, s)
       case Gives(x, s1) =>
         (match EvalE(r, vs, base, Pushed(s1, x))
          case Gives(y, s2) =>
            (match EmittedBinary(op, TypeOf(l, vs), TypeOf(r, vs), TopOf(s2), y)
             case None => Faults
             case Some(z) => Gives(z, Popped(s2)))
          case other => other)
       case other => other)
    case And(l, r) =>
      (match EvalE(l, vs, base, s)
       case Gives(x, s1) =>
         var s1' := Pushed(s1, Truth(x != 0));
         if x == 0 then Gives(0, s1')
         else (match EvalE(r, vs, base, s1')
           case Gives(y, s2) => Gives(BitAnd(Truth(y != 0), TopOf(s2)), Popped(s2))
           case other => other)
       case other => other)
    case Or(l, r) =>
      (match EvalE(l, vs, base, s)
       case Gives(x, s1) =>
         var s1' := Pushed(s1, Truth(x != 0));
         if x != 0 then Gives(1, s1')
         else (match EvalE(r, vs, base, s1')
           case Gives(y, s2) => Gives(BitOr(Truth(y != 0), TopOf(s2)), Popped(s2))
           case other => other)
       case other => other)
  }

  // ----- statements -----

  datatype Outcome = Falls(s: State) | Leaves(v: int, s: State) | Fault | Stray | OutOfFuel

  function AfterE(e: Effect): Outcome {
    match e case Gives(_, s) => Falls(s) case Faults => Fault case Strays => Stray
  }

  /** The right side y is in rax: read the old value if the operator needs it, combine, store. */
  function FinishAssign(base: int, s: State, v: VarInfo, op: AssignOp, y: int): Outcome {
    if op == Set then AfterE(Lift(WriteVar(s.mem, base, v, y), s))
    else match ReadVar(s.mem, base, v)
      case Val(old_, _) => (match Update(op, old_, y)
        case None => Fault
        case Some(z) => AfterE(Lift(WriteVar(s.mem, base, v, z), s)))
      case other => AfterE(Lift(other, s))
  }

  function AssignE(vs: Table, base: int, s: State, x: string, op: AssignOp, e: Expr): Outcome {
    match Find(vs, x)
    case None => Stray
    case Some(v) => match EvalE(e, vs, base, s)
      case Gives(y, s1) => FinishAssign(base, s1, v, op, y)
      case other => AfterE(other)
  }

  function BumpE(vs: Table, base: int, s: State, x: string, up: bool): Outcome {
    match Find(vs, x)
    case None => Stray
    case Some(v) => match ReadVar(s.mem, base, v)
      case Val(old_, _) => AfterE(Lift(WriteVar(s.mem, base, v, old_ + if up then 1 else -1), s))
      case other => AfterE(Lift(other, s))
  }

  /** The element's address waits on the stack while the right side runs. */
  function StoreElementE(vs: Table, base: int, s: State, x: string, i: Expr, e: Expr): Outcome {
    match Find(vs, x)
    case None => Stray
    case Some(v) => match ElementE(v, i, vs, base, s)
      case Gives(a, s1) =>
        (match EvalE(e, vs, base, Pushed(s1, a))
         case Gives(y, s2) => AfterE(Lift(WriteAt(s2.mem, TopOf(s2), v.ty.base.Width(), y), Popped(s2)))
         case other => AfterE(other))
      case other => AfterE(other)
  }

  function StorePointedE(vs: Table, base: int, s: State, x: string, e: Expr): Outcome {
    match Find(vs, x)
    case None => Stray
    case Some(v) => match EvalE(e, vs, base, s)
      case Gives(y, s1) => (match ReadVar(s1.mem, base, v)
        case Val(a, _) => AfterE(Lift(WriteAt(s1.mem, a, v.ty.base.Width(), y), s1))
        case other => AfterE(Lift(other, s1)))
      case other => AfterE(other)
  }

  function InitE(first: ForInit, vs: Table, base: int, s: State): Outcome {
    match first
    case NoInit => Falls(s)
    case InitDecl(_, x, _, init) => (match init case None => Falls(s) case Some(e) => AssignE(vs, base, s, x, Set, e))
    case InitAssign(x, op, e) => AssignE(vs, base, s, x, op, e)
    case InitExpr(e) => AfterE(EvalE(e, vs, base, s))
  }

  function PostE(step: ForPost, vs: Table, base: int, s: State): Outcome {
    match step
    case NoPost => Falls(s)
    case PostBare(_) => Falls(s)
    case PostIgnored(_, _, _) => Falls(s)
    case PostBump(x, up, _) => BumpE(vs, base, s, x, up)
    case PostAssign(x, op, e) => AssignE(vs, base, s, x, op, e)
    case PostExpr(e) => AfterE(EvalE(e, vs, base, s))
  }

  function CondE(cond: Option<Expr>, vs: Table, base: int, s: State): Effect {
    match cond case None => Gives(1, s) case Some(c) => EvalE(c, vs, base, s)
  }

  function StmtE(st: Stmt, vs: Table, base: int, fuel: nat, s: State): Outcome
    decreases fuel, st, 0
  {
    match st
    case Decl(_, x, _, init) => (match init case None => Falls(s) case Some(e) => AssignE(vs, base, s, x, Set, e))
    case Assign(x, op, e) => AssignE(vs, base, s, x, op, e)
    case StoreIndex(x, i, e) => StoreElementE(vs, base, s, x, i, e)
    case StoreThrough(x, e) => StorePointedE(vs, base, s, x, e)
    case BumpStmt(x, up, _) => BumpE(vs, base, s, x, up)
    case Skipped(_, _, _) => Falls(s)
    case Return(None) => Leaves(0, s)
    case Return(Some(e)) => (match EvalE(e, vs, base, s) case Gives(v, s1) => Leaves(v, s1) case other => AfterE(other))
    case If(c, thn, els) =>
      (match EvalE(c, vs, base, s)
       case Gives(v, s1) =>
         if v != 0 then BlockE(thn, vs, base, fuel, s1)
         else (match els case None => Falls(s1) case Some(b) => BlockE(b, vs, base, fuel, s1))
       case other => AfterE(other))
    case While(c, body) =>
      if fuel == 0 then OutOfFuel
      else (match EvalE(c, vs, base, s)
        case Gives(v, s1) =>
          if v == 0 then Falls(s1)
          else (match BlockE(body, vs, base, fuel, s1)
            case Falls(s2) => StmtE(st, vs, base, fuel - 1, s2)
            case other => other)
        case other => AfterE(other))
    case DoWhile(body, c) =>
      if fuel == 0 then OutOfFuel
      else (match BlockE(body, vs, base, fuel, s)
        case Falls(s1) => (match EvalE(c, vs, base, s1)
          case Gives(v, s2) => if v == 0 then Falls(s2) else StmtE(st, vs, base, fuel - 1, s2)
          case other => AfterE(other))
        case other => other)
    case For(first, cond, step, body) =>
      (match InitE(first, vs, base, s)
       case Falls(s1) => ForE(cond, step, body, vs, base, fuel, s1)
       case other => other)
  }

  function ForE(cond: Option<Expr>, step: ForPost, body: Block, vs: Table, base: int, fuel: nat, s: State): Outcome
    decreases fuel, body, 1
  {
    if fuel == 0 then OutOfFuel
    else match CondE(cond, vs, base, s)
      case Gives(v, s1) =>
        if v == 0 then Falls(s1)
        else (match BlockE(body, vs, base, fuel, s1)
          case Falls(s2) => (match PostE(step, vs, base, s2)
            case Falls(s3) => ForE(cond, step, body, vs, base, fuel - 1, s3)
            case other => other)
          case other => other)
      case other => AfterE(other)
  }

  function BlockE(b: Block, vs: Table, base: int, fuel: nat, s: State): Outcome
    decreases fuel, b, 0
  {
    match b case Braces(ss) => StmtsE(ss, vs, base, fuel, s) case One(st) => StmtE(st, vs, base, fuel, s)
  }

  function StmtsE(ss: Stmts, vs: Table, base: int, fuel: nat, s: State): Outcome
    decreases fuel, ss, 0
  {
    match ss
    case Nil => Falls(s)
    case Cons(st, rest) =>
      match StmtE(st, vs, base, fuel, s)
      case Falls(s1) => StmtsE(rest, vs, base, fuel, s1)
      case other => other
  }
}
