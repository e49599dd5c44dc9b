/** Tokens, the token sequence of each phrase, operator levels, and the declaration checks of the one-pass parser. */
module Grammar {
  import opened Words
  import opened Syntax

  // ----- printing -----

  function BinTok(op: BinOp): Tok {
    match op
    case Mul => TStar case Div => TSlash case Mod => TPercent case Add => TPlus case Sub => TMinus
    case Lt => TLt case Gt => TGt case Le => TLeq case Ge => TGeq case Eq => TEq case Ne => TNeq
  }

  function AssignTok(op: AssignOp): Tok {
    match op
    case Set => TAssign case AddTo => TPlusEq case SubFrom => TMinusEq
    case MulBy => TStarEq case DivBy => TSlashEq case ModBy => TPercentEq
  }

  function BumpTok(up: bool): Tok {
    if up then TPlusPlus else TMinusMinus
  }

  function PrintType(t: Type): seq<Tok> {
    [TType(t.base)] + if t.isPtr then [TStar] else []
  }

  function PrintExpr(e: Expr): (ks: seq<Tok>)
    ensures |ks| > 0
  {
    match e
    case Num(v) => [TNumber(v)]
    case Name(x) => [TIdent(x)]
    case Index(x, i) => [TIdent(x), TLBracket] + PrintExpr(i) + [TRBracket]
    case Bump(x, up, post) => if post then [TIdent(x), BumpTok(up)] else [BumpTok(up), TIdent(x)]
    case Cast(t, e1) => [TLParen] + PrintType(t) + [TRParen] + PrintExpr(e1)
    case Not(e1) => [TNot] + PrintExpr(e1)
    case Neg(e1) => [TMinus] + PrintExpr(e1)
    case Deref(e1) => [TStar] + PrintExpr(e1)
    case AddrOf(x) => [TAmp, TIdent(x)]
    case Paren(e1) => [TLParen] + PrintExpr(e1) + [TRParen]
    case Bin(op, l, r) => PrintExpr(l) + [BinTok(op)] + PrintExpr(r)
    case And(l, r) => PrintExpr(l) + [TAnd] + PrintExpr(r)
    case Or(l, r) => PrintExpr(l) + [TOr] + PrintExpr(r)
  }

  function PrintSize(size: Option<int>): seq<Tok> {
    match size case None => [] case Some(n) => [TLBracket, TNumber(n), TRBracket]
  }

  function PrintInit(init: Option<Expr>): seq<Tok> {
    match init case None => [] case Some(e) => [TAssign] + PrintExpr(e)
  }

  function PrintOpt(e: Option<Expr>): seq<Tok> {
    match e case None => [] case Some(x) => PrintExpr(x)
  }

  function PrintDecl(t: Type, x: string, size: Option<int>, init: Option<Expr>): seq<Tok> {
    PrintType(t) + [TIdent(x)] + PrintSize(size) + PrintInit(init)
  }

  function PrintBump(x: string, up: bool, post: bool): seq<Tok> {
    if post then [TIdent(x), BumpTok(up)] else [BumpTok(up), TIdent(x)]
  }

  function PrintFirst(first: ForInit): seq<Tok> {
    match first
    case NoInit => []
    case InitDecl(t, x, size, init) => PrintDecl(t, x, size, init)
    case InitAssign(x, op, e) => [TIdent(x), AssignTok(op)] + PrintExpr(e)
    case InitExpr(e) => PrintExpr(e)
  }

  function PrintPost(step: ForPost): seq<Tok> {
    match step
    case NoPost => []
    case PostBump(x, up, post) => PrintBump(x, up, post)
    case PostBare(up) => [BumpTok(up)]
    case PostIgnored(x, up, post) => PrintBump(x, up, post)
    case PostAssign(x, op, e) => [TIdent(x), AssignTok(op)] + PrintExpr(e)
    case PostExpr(e) => PrintExpr(e)
  }

  function PrintStmt(s: Stmt): (ks: seq<Tok>)
    ensures |ks| > 0
  {
    match s
    case Decl(t, x, size, init) => PrintDecl(t, x, size, init) + [TSemi]
    case Assign(x, op, e) => [TIdent(x), AssignTok(op)] + PrintExpr(e) + [TSemi]
    case StoreIndex(x, i, e) => [TIdent(x), TLBracket] + PrintExpr(i) + [TRBracket, TAssign] + PrintExpr(e) + [TSemi]
    case StoreThrough(x, e) => [TStar, TIdent(x), TAssign] + PrintExpr(e) + [TSemi]
    case BumpStmt(x, up, post) => PrintBump(x, up, post) + [TSemi]
    case Skipped(x, ks, closed) => [TIdent(x)] + ks + if closed then [TSemi] else []
    case Return(e) => [TReturn] + PrintOpt(e) + [TSemi]
    case If(c, thn, els) =>
      [TIf, TLParen] + PrintExpr(c) + [TRParen] + PrintBlock(thn) +
      (match els case None => [] case Some(b) => [TElse] + PrintBlock(b))
    case While(c, body) => [TWhile, TLParen] + PrintExpr(c) + [TRParen] + PrintBlock(body)
    case DoWhile(body, c) => [TDo] + PrintBlock(body) + [TWhile, TLParen] + PrintExpr(c) + [TRParen, TSemi]
    case For(first, cond, step, body) =>
      [TFor, TLParen] + PrintFirst(first) + [TSemi] + PrintOpt(cond) + [TSemi] + PrintPost(step) + [TRParen] + PrintBlock(body)
  }

  function PrintBlock(b: Block): (ks: seq<Tok>)
    ensures |ks| > 0
  {
    match b case Braces(ss) => [TLBrace] + PrintStmts(ss) + [TRBrace] case One(s) => PrintStmt(s)
  }

  function PrintStmts(ss: Stmts): seq<Tok> {
    match ss case Nil => [] case Cons(s, rest) => PrintStmt(s) + PrintStmts(rest)
  }

  // ----- levels: || 0, && 1, == != 2, < > <= >= 3, + - 4, * / % 5, unary minus 6, primary 7 -----

  function OpLevel(op: BinOp): nat {
    match op
    case Mul => 5 case Div => 5 case Mod => 5
    case Add => 4 case Sub => 4
    case Eq => 2 case Ne => 2
    case _ => 3
  }

  function Level(e: Expr): nat {
    match e case Or(_, _) => 0 case And(_, _) => 1 case Bin(op, _, _) => OpLevel(op) case Neg(_) => 6 case _ => 7
  }

  /** Operands stand at the levels the grammar allows: + - * / % && || associate left, comparisons do not associate. */
  predicate Shaped(e: Expr) {
    match e
    case Index(_, i) => Shaped(i)
    case Cast(_, e1) => Shaped(e1) && Level(e1) == 7
    case Not(e1) => Shaped(e1) && Level(e1) == 7
    case Neg(e1) => Shaped(e1) && Level(e1) == 7
    case Deref(e1) => Shaped(e1) && Level(e1) == 7
    case Paren(e1) => Shaped(e1)
    case Bin(op, l, r) =>
      Shaped(l) && Shaped(r) && Level(r) > OpLevel(op) &&
      (if OpLevel(op) >= 4 then Level(l) >= OpLevel(op) else Level(l) > OpLevel(op))
    case And(l, r) => Shaped(l) && Shaped(r) && Level(l) >= 1 && Level(r) >= 2
    case Or(l, r) => Shaped(l) && Shaped(r) && Level(r) >= 1
    case _ => true
  }

  /** The level at which a token continues the expression before it; -1 for tokens that end it. */
  function ContinuesAt(k: Tok): int {
    match k
    case TLBracket => 7 case TPlusPlus => 7 case TMinusMinus => 7
    case TStar => 5 case TSlash => 5 case TPercent => 5
    case TPlus => 4 case TMinus => 4
    case TLt => 3 case TGt => 3 case TLeq => 3 case TGeq => 3
    case TEq => 2 case TNeq => 2
    case TAnd => 1 case TOr => 0 case TAssign => 0
    case _ => -1
  }

  // ----- the token stream -----

  function KindAt(ts: seq<Token>, p: nat): Tok {
    if p < |ts| then ts[p].kind else TEof
  }

  /** From p on the stream shows the tokens ks. */
  ghost predicate Sees(ts: seq<Token>, p: nat, ks: seq<Tok>) {
    |ks| == 0 || (p + |ks| <= |ts| && forall k :: 0 <= k < |ks| ==> ts[p + k].kind == ks[k])
  }

  lemma SeesSplit(ts: seq<Token>, p: nat, a: seq<Tok>, b: seq<Tok>)
    ensures Sees(ts, p, a + b) <==> Sees(ts, p, a) && Sees(ts, p + |a|, b)
  {
    if Sees(ts, p, a + b) {
      forall k | 0 <= k < |a| ensures p + |a| <= |ts| && ts[p + k].kind == a[k] { assert (a + b)[k] == a[k]; }
      forall k | 0 <= k < |b| ensures p + |a + b| <= |ts| && ts[p + |a| + k].kind == b[k] { assert (a + b)[|a| + k] == b[k]; }
    }
    if Sees(ts, p, a) && Sees(ts, p + |a|, b) {
      forall k | 0 <= k < |a + b| ensures p + |a + b| <= |ts| && ts[p + k].kind == (a + b)[k] {
        if k >= |a| { assert ts[p + |a| + (k - |a|)].kind == b[k - |a|]; }
      }
    }
  }

  // ----- checks -----

  /** Names initialised so far, in textual order; None if the parser reports an error. Arrays count as initialised. */
  function CheckExpr(e: Expr, vs: Table, inits: set<string>): Option<set<string>> {
    match e
    case Num(_) => Some(inits)
    case Name(x) => (match Find(vs, x) case None => None case Some(v) => if x in inits || v.IsArray() then Some(inits) else None)
    case Index(x, i) =>
      (match Find(vs, x)
       case None => None
       case Some(v) =>
         if (x in inits || v.IsArray()) && (v.ty.isPtr || v.IsArray()) then CheckExpr(i, vs, inits) else None)
    case Bump(x, _, post) =>
      (match Find(vs, x)
       case None => None
       case Some(v) => if v.IsArray() || (post && x !in inits) then None else Some(inits + {x}))
    case Cast(_, e1) => CheckExpr(e1, vs, inits)
    case Not(e1) => CheckExpr(e1, vs, inits)
    case Neg(e1) => CheckExpr(e1, vs, inits)
    case Deref(e1) => if TypeOf(e1, vs).isPtr then CheckExpr(e1, vs, inits) else None
    case AddrOf(x) => if Find(vs, x).Some? then Some(inits) else None
    case Paren(e1) => CheckExpr(e1, vs, inits)
    case Bin(op, l, r) => 
      if (op == Div || op == Mod) && r == Num(0) then None
      else (match CheckExpr(l, vs, inits) case None => None case Some(i1) => CheckExpr(r, vs, i1))
    case And(l, r) => (match CheckExpr(l, vs, inits) case None => None case Some(i1) => CheckExpr(r, vs, i1))
    case Or(l, r) => (match CheckExpr(l, vs, inits) case None => None case Some(i1) => CheckExpr(r, vs, i1))
  }

  datatype Env = Env(vars: Table, inits: set<string>)

  function CheckIn(e: Expr, env: Env): Option<Env> {
    match CheckExpr(e, env.vars, env.inits) case None => None case Some(i) => Some(env.(inits := i))
  }

  function CheckOpt(e: Option<Expr>, env: Env): Option<Env> {
    match e case None => Some(env) case Some(x) => CheckIn(x, env)
  }

  function Initialised(env: Env, x: string): Env {
    env.(inits := env.inits + {x})
  }

  /** Redeclaration is an error; array lengths must be positive; an array has no initialiser. */
  function CheckDecl(t: Type, x: string, size: Option<int>, init: Option<Expr>, env: Env): Option<Env> {
    var len := ArrayLength(size);
    if Find(env.vars, x).Some? || (size.Some? && (len <= 0 || init.Some?)) then None
    else
      var env1 := env.(vars := env.vars + [NewVar(env.vars, x, t, len)]);
      if size.Some? then Some(Initialised(env1, x))
      else match init
        case None => Some(env1)
        case Some(e) => (match CheckIn(e, env1) case None => None case Some(env2) => Some(Initialised(env2, x)))
  }

  /** mustInit: compound assignments need an initialised variable, except in a for header. */
  function CheckAssign(x: string, op: AssignOp, e: Expr, mustInit: bool, env: Env): Option<Env> {
    match Find(env.vars, x)
    case None => None
    case Some(v) =>
      if v.IsArray() || (mustInit && op != Set && x !in env.inits) then None
      else match CheckIn(e, env)
        case None => None
        case Some(env1) => Some(if op == Set then Initialised(env1, x) else env1)
  }

  function CheckBump(x: string, env: Env): Option<Env> {
    match Find(env.vars, x) case None => None case Some(v) => if v.IsArray() then None else Some(env)
  }

  function CheckFirst(first: ForInit, env: Env): Option<Env> {
    match first
    case NoInit => Some(env)
    case InitDecl(t, x, size, init) => CheckDecl(t, x, size, init, env)
    case InitAssign(x, op, e) => CheckAssign(x, op, e, false, env)
    case InitExpr(e) => CheckIn(e, env)
  }

  /** Expressions that the third part of a for does not read as expressions. */
  predicate StartsBump(ks: seq<Tok>) {
    (|ks| > 0 && (ks[0] == TPlusPlus || ks[0] == TMinusMinus)) ||
    (|ks| > 1 && ks[0].TIdent? && (ks[1] == TPlusPlus || ks[1] == TMinusMinus))
  }

  function CheckPost(step: ForPost, env: Env): Option<Env> {
    match step
    case PostAssign(x, op, e) => CheckAssign(x, op, e, false, env)
    case PostExpr(e) => if StartsBump(PrintExpr(e)) then None else CheckIn(e, env)
    case PostBump(x, _, _) => CheckBump(x, env)
    case PostIgnored(x, _, _) => if CheckBump(x, env).None? then Some(env) else None
    case _ => Some(env)
  }

  /** Variables have one flat scope, in textual order. */
  function CheckStmt(s: Stmt, env: Env): Option<Env> {
    match s
    case Decl(t, x, size, init) => CheckDecl(t, x, size, init, env)
    case Assign(x, op, e) => CheckAssign(x, op, e, true, env)
    case StoreIndex(x, i, e) =>
      (match Find(env.vars, x)
       case None => None
       case Some(v) =>
         if !v.ty.isPtr && !v.IsArray() then None
         else match CheckIn(i, env) case None => None case Some(env1) => CheckIn(e, env1))
    case StoreThrough(x, e) =>
      (match Find(env.vars, x)
       case None => None
       case Some(v) => if !v.ty.isPtr || (x !in env.inits && !v.IsArray()) then None else CheckIn(e, env))
    case BumpStmt(x, _, _) => CheckBump(x, env)
    case Skipped(_, _, _) => Some(env)
    case Return(e) => CheckOpt(e, env)
    case If(c, thn, els) =>
      (match CheckIn(c, env)
       case None => None
       case Some(env1) => match CheckBlock(thn, env1)
         case None => None
         case Some(env2) => match els case None => Some(env2) case Some(b) => CheckBlock(b, env2))
    case While(c, body) => (match CheckIn(c, env) case None => None case Some(env1) => CheckBlock(body, env1))
    case DoWhile(body, c) => (match CheckBlock(body, env) case None => None case Some(env1) => CheckIn(c, env1))
    case For(first, cond, step, body) =>
      (match CheckFirst(first, env)
       case None => None
       case Some(env1) => match CheckOpt(cond, env1)
         case None => None
         case Some(env2) => match CheckPost(step, env2)
           case None => None
           case Some(env3) => CheckBlock(body, env3))
  }

  function CheckBlock(b: Block, env: Env): Option<Env> {
    match b case Braces(ss) => CheckStmts(ss, env) case One(s) => CheckStmt(s, env)
  }

  function CheckStmts(ss: Stmts, env: Env): Option<Env> {
    match ss
    case Nil => Some(env)
    case Cons(s, rest) => match CheckStmt(s, env) case None => None case Some(env1) => CheckStmts(rest, env1)
  }

  // ----- shape of statements -----

  predicate ShapedOpt(e: Option<Expr>) {
    match e case None => true case Some(x) => Shaped(x)
  }

  /** The statement may stand before the token k: an open if not before else, skipped tokens without a semicolon only at the end. */
  predicate Precedes(s: Stmt, k: Tok) {
    match s
    case If(_, thn, None) => k != TElse && BlockPrecedes(thn, k)
    case If(_, _, Some(b)) => BlockPrecedes(b, k)
    case While(_, body) => BlockPrecedes(body, k)
    case For(_, _, _, body) => BlockPrecedes(body, k)
    case Skipped(_, _, closed) => closed || k == TEof
    case _ => true
  }

  predicate BlockPrecedes(b: Block, k: Tok) {
    match b case Braces(_) => true case One(s) => Precedes(s, k)
  }

  predicate IsAssignTok(k: Tok) {
    k in {TAssign, TPlusEq, TMinusEq, TStarEq, TSlashEq, TPercentEq}
  }

  predicate IsBumpTok(k: Tok) {
    k == TPlusPlus || k == TMinusMinus
  }

  /** What may follow a name for a statement to start with it. */
  predicate StartsAfterName(k: Tok) {
    k == TLBracket || IsAssignTok(k) || IsBumpTok(k)
  }

  /** What follows a name that starts no statement, before the next semicolon. */
  predicate SkippedTokens(ks: seq<Tok>) {
    (ks != [] ==> !StartsAfterName(ks[0])) && forall i :: 0 <= i < |ks| ==> ks[i] != TSemi && ks[i] != TEof
  }

  predicate ShapedStmt(s: Stmt) {
    match s
    case Decl(_, _, _, init) => ShapedOpt(init)
    case Assign(_, _, e) => Shaped(e)
    case StoreIndex(_, i, e) => Shaped(i) && Shaped(e)
    case StoreThrough(_, e) => Shaped(e)
    case BumpStmt(_, _, _) => true
    case Skipped(_, ks, _) => SkippedTokens(ks)
    case Return(e) => ShapedOpt(e)
    case If(c, thn, els) =>
      Shaped(c) && ShapedBlock(thn) && (match els case None => true case Some(b) => BlockPrecedes(thn, TElse) && ShapedBlock(b))
    case While(c, body) => Shaped(c) && ShapedBlock(body)
    case DoWhile(body, c) => ShapedBlock(body) && BlockPrecedes(body, TWhile) && Shaped(c)
    case For(first, cond, step, body) =>
      (match first case InitDecl(_, _, _, init) => ShapedOpt(init) case InitAssign(_, _, e) => Shaped(e)
                   case InitExpr(e) => Shaped(e) case NoInit => true) &&
      ShapedOpt(cond) &&
      (match step case PostAssign(_, _, e) => Shaped(e) case PostExpr(e) => Shaped(e) case _ => true) &&
      ShapedBlock(body)
  }

  predicate ShapedBlock(b: Block) {
    match b case Braces(ss) => ShapedStmts(ss, TRBrace) case One(s) => ShapedStmt(s)
  }

  /** The first token of a list that the token `end` follows. */
  function FirstOf(ss: Stmts, end: Tok): Tok {
    match ss case Nil => end case Cons(s, _) => PrintStmt(s)[0]
  }

  predicate ShapedStmts(ss: Stmts, end: Tok) {
    match ss case Nil => true case Cons(s, rest) => ShapedStmt(s) && Precedes(s, FirstOf(rest, end)) && ShapedStmts(rest, end)
  }
}
