/** Specification of statement parsing over snapshots of the parser state, and the step lemmas its methods use. */
module ParseStmt {
  import opened Words
  import opened Instructions
  import opened Machine
  import opened Syntax
  import opened CodeGen
  import opened Emitter
  import opened Backpatch
  import opened Grammar
  import opened Encodings
  import opened ParseExpr

  // ----- growing tables -----

  lemma FindExtends(vs: Table, vs': Table, x: string)
    requires vs <= vs' && Find(vs, x).Some?
    ensures Find(vs', x) == Find(vs, x)
  {
    var i, j := IndexOf(vs, x), IndexOf(vs', x);
    assert vs'[i] == vs[i];
  }

  lemma FindNew(vs: Table, v: VarInfo)
    requires Find(vs, v.name).None?
    ensures Find(vs + [v], v.name) == Some(v)
  {
    var j := IndexOf(vs + [v], v.name);
    assert (vs + [v])[|vs|] == v;
  }

  lemma {:induction false} TypeStable(e: Expr, vs: Table, vs': Table, inits: set<string>)
    requires CheckExpr(e, vs, inits).Some? && vs <= vs'
    ensures TypeOf(e, vs') == TypeOf(e, vs)
  {
    match e
    case Name(x) => FindExtends(vs, vs', x);
    case Index(x, _) => FindExtends(vs, vs', x);
    case Bump(x, _, _) => FindExtends(vs, vs', x);
    case AddrOf(x) => FindExtends(vs, vs', x);
    case Deref(e1) => TypeStable(e1, vs, vs', inits);
    case Paren(e1) => TypeStable(e1, vs, vs', inits);
    case Bin(_, l, r) =>
      TypeStable(l, vs, vs', inits);
      TypeStable(r, vs, vs', CheckExpr(l, vs, inits).value);
    case _ =>
  }

  /** Code of a checked expression does not change when more variables are declared. */
  lemma {:induction false} ExprStable(e: Expr, vs: Table, vs': Table, inits: set<string>)
    requires CheckExpr(e, vs, inits).Some? && vs <= vs'
    ensures CompileExpr(e, vs') == CompileExpr(e, vs)
  {
    match e
    case Num(_) =>
    case Name(x) => FindExtends(vs, vs', x);
    case Index(x, i) => FindExtends(vs, vs', x); ExprStable(i, vs, vs', inits);
    case Bump(x, _, _) => FindExtends(vs, vs', x);
    case AddrOf(x) => FindExtends(vs, vs', x);
    case Cast(_, e1) => ExprStable(e1, vs, vs', inits);
    case Not(e1) => ExprStable(e1, vs, vs', inits);
    case Neg(e1) => ExprStable(e1, vs, vs', inits);
    case Paren(e1) => ExprStable(e1, vs, vs', inits);
    case Deref(e1) => ExprStable(e1, vs, vs', inits); TypeStable(e1, vs, vs', inits);
    case Bin(_, l, r) =>
      var i1 := CheckExpr(l, vs, inits).value;
      ExprStable(l, vs, vs', inits); TypeStable(l, vs, vs', inits);
      ExprStable(r, vs, vs', i1); TypeStable(r, vs, vs', i1);
    case And(l, r) => ExprStable(l, vs, vs', inits); ExprStable(r, vs, vs', CheckExpr(l, vs, inits).value);
    case Or(l, r) => ExprStable(l, vs, vs', inits); ExprStable(r, vs, vs', CheckExpr(l, vs, inits).value);
  }

  lemma AssignStable(x: string, op: AssignOp, e: Expr, env: Env, vs': Table)
    requires Find(env.vars, x).Some? && CheckIn(e, env).Some? && env.vars <= vs'
    ensures AssignCode(x, op, e, vs') == AssignCode(x, op, e, env.vars)
  {
    FindExtends(env.vars, vs', x);
    ExprStable(e, env.vars, vs', env.inits);
  }

  /** The variable a checked declaration adds, and its initialiser, compiled in any larger table. */
  lemma DeclStable(t: Type, x: string, size: Option<int>, init: Option<Expr>, env: Env, vs': Table)
    requires CheckDecl(t, x, size, init, env).Some? && CheckDecl(t, x, size, init, env).value.vars <= vs'
    ensures env.vars <= CheckDecl(t, x, size, init, env).value.vars
    ensures init.Some? ==>
              AssignCode(x, Set, init.value, vs') == AssignCode(x, Set, init.value, CheckDecl(t, x, size, init, env).value.vars)
  {
    if init.Some? {
      var v := NewVar(env.vars, x, t, ArrayLength(size));
      FindNew(env.vars, v);
      AssignStable(x, Set, init.value, env.(vars := env.vars + [v]), vs');
    }
  }

  /** Code of a checked statement does not change when more variables are declared after it; checking only adds variables. */
  lemma {:induction false} StmtStable(s: Stmt, env: Env, vs': Table)
    requires CheckStmt(s, env).Some? && CheckStmt(s, env).value.vars <= vs'
    ensures env.vars <= CheckStmt(s, env).value.vars
    ensures CompileStmt(s, vs') == CompileStmt(s, CheckStmt(s, env).value.vars)
    decreases s
  {
    hide AssignCode, IfCode, WhileCode, DoWhileCode, ForCode;
    var vs1 := CheckStmt(s, env).value.vars;
    match s
    case Decl(t, x, size, init) => DeclStable(t, x, size, init, env, vs');
    case Assign(x, op, e) => AssignStable(x, op, e, env, vs');
    case StoreIndex(x, i, e) =>
      FindExtends(env.vars, vs', x);
      ExprStable(i, env.vars, vs', env.inits);
      ExprStable(e, env.vars, vs', CheckIn(i, env).value.inits);
    case StoreThrough(x, e) =>
      FindExtends(env.vars, vs', x);
      ExprStable(e, env.vars, vs', env.inits);
    case BumpStmt(x, _, _) => FindExtends(env.vars, vs', x);
    case Skipped(_, _, _) =>
    case Return(e) => if e.Some? { ExprStable(e.value, env.vars, vs', env.inits); }
    case If(c, thn, els) =>
      var env1 := CheckIn(c, env).value;
      var env2 := CheckBlock(thn, env1).value;
      if els.Some? {
        BlockStable(els.value, env2, vs');
        BlockStable(thn, env1, vs1);
      }
      BlockStable(thn, env1, vs');
      ExprStable(c, env.vars, vs', env.inits);
      ExprStable(c, env.vars, vs1, env.inits);
    case While(c, body) =>
      BlockStable(body, CheckIn(c, env).value, vs');
      ExprStable(c, env.vars, vs', env.inits);
      ExprStable(c, env.vars, vs1, env.inits);
    case DoWhile(body, c) =>
      var env1 := CheckBlock(body, env).value;
      BlockStable(body, env, vs');
      ExprStable(c, env1.vars, vs', env1.inits);
    case For(first, cond, step, body) => ForStable(s, env, vs');
  }

  lemma {:induction false} ForStable(s: Stmt, env: Env, vs': Table)
    requires s.For? && CheckStmt(s, env).Some? && CheckStmt(s, env).value.vars <= vs'
    ensures env.vars <= CheckStmt(s, env).value.vars
    ensures CompileStmt(s, vs') == CompileStmt(s, CheckStmt(s, env).value.vars)
    decreases s, 0
  {
    hide AssignCode, CheckDecl, CheckFirst, CheckOpt, CheckPost, CheckBlock, InitCode, PostCode, CompileExpr, CompileBlock, ForCode;
    var vs1 := CheckStmt(s, env).value.vars;
    var env1 := CheckFirst(s.first, env).value;
    var env2 := CheckOpt(s.cond, env1).value;
    var env3 := CheckPost(s.step, env2).value;
    BlockStable(s.body, env3, vs');
    PostStable(s.step, env2, env2.vars);
    PostStable(s.step, env2, vs1);
    PostStable(s.step, env2, vs');
    OptKeeps(s.cond, env1);
    FirstStable(s.first, env, vs1);
    FirstStable(s.first, env, vs');
    ForCodeStable(s.cond, PostCode(s.step, vs1), CompileBlock(s.body, vs1), env1, vs1);
    ForCodeStable(s.cond, PostCode(s.step, vs1), CompileBlock(s.body, vs1), env1, vs');
  }

  lemma OptKeeps(e: Option<Expr>, env: Env)
    requires CheckOpt(e, env).Some?
    ensures CheckOpt(e, env).value.vars == env.vars
  {
  }

  lemma ForCodeStable(cond: Option<Expr>, post: Code, body: Code, env: Env, vs': Table)
    requires CheckOpt(cond, env).Some? && env.vars <= vs'
    ensures ForCode(cond, post, body, vs') == ForCode(cond, post, body, env.vars)
  {
    hide CompileExpr, Size;
    if cond.Some? { ExprStable(cond.value, env.vars, vs', env.inits); }
  }

  lemma FirstStable(first: ForInit, env: Env, vs': Table)
    requires CheckFirst(first, env).Some? && CheckFirst(first, env).value.vars <= vs'
    ensures env.vars <= CheckFirst(first, env).value.vars
    ensures InitCode(first, vs') == InitCode(first, CheckFirst(first, env).value.vars)
  {
    hide AssignCode, CheckDecl;
    match first
    case NoInit =>
    case InitDecl(t, x, size, init) => DeclStable(t, x, size, init, env, vs');
    case InitAssign(x, op, e) => AssignStable(x, op, e, env, vs');
    case InitExpr(e) => ExprStable(e, env.vars, vs', env.inits);
  }

  lemma PostStable(step: ForPost, env: Env, vs': Table)
    requires CheckPost(step, env).Some? && env.vars <= vs'
    ensures CheckPost(step, env).value.vars == env.vars && PostCode(step, vs') == PostCode(step, env.vars)
  {
    hide AssignCode;
    match step
    case PostBump(x, _, _) => FindExtends(env.vars, vs', x);
    case PostAssign(x, op, e) => AssignStable(x, op, e, env, vs');
    case PostExpr(e) => ExprStable(e, env.vars, vs', env.inits);
    case _ =>
  }

  lemma {:induction false} BlockStable(b: Block, env: Env, vs': Table)
    requires CheckBlock(b, env).Some? && CheckBlock(b, env).value.vars <= vs'
    ensures env.vars <= CheckBlock(b, env).value.vars
    ensures CompileBlock(b, vs') == CompileBlock(b, CheckBlock(b, env).value.vars)
    decreases b
  {
    match b case Braces(ss) => StmtsStable(ss, env, vs'); case One(s) => StmtStable(s, env, vs');
  }

  lemma {:induction false} StmtsStable(ss: Stmts, env: Env, vs': Table)
    requires CheckStmts(ss, env).Some? && CheckStmts(ss, env).value.vars <= vs'
    ensures env.vars <= CheckStmts(ss, env).value.vars
    ensures CompileStmts(ss, vs') == CompileStmts(ss, CheckStmts(ss, env).value.vars)
    decreases ss
  {
    match ss
    case Nil =>
    case Cons(s, rest) =>
      var env1 := CheckStmt(s, env).value;
      StmtsStable(rest, env1, vs');
      StmtStable(s, env, vs');
      StmtStable(s, env, CheckStmts(ss, env).value.vars);
  }

  // ----- what a stretch of parsing did -----

  /** Errors, variables and code only grow; tokens are not read twice. */
  ghost predicate Grew(a: Snap, b: Snap) {
    a.curr <= b.curr && a.errors <= b.errors && a.env.vars <= b.env.vars && |a.bytes| <= |b.bytes|
  }

  /** Without errors: the tokens ks were read and the checks gave chk. */
  ghost predicate Reads(ts: seq<Token>, a: Snap, b: Snap, ks: seq<Tok>, chk: Option<Env>) {
    Grew(a, b) && (b.errors == 0 ==> Sees(ts, a.curr, ks) && b.curr == a.curr + |ks| && chk == Some(b.env))
  }

  /** ... and the code c was appended. */
  ghost predicate Read(ts: seq<Token>, a: Snap, b: Snap, ks: seq<Tok>, chk: Option<Env>, c: Code) {
    Reads(ts, a, b, ks, chk) && (b.errors == 0 ==> Appends(a.bytes, b.bytes, c))
  }

  lemma ReadsThen(ts: seq<Token>, a: Snap, b: Snap, d: Snap, ks: seq<Tok>, ks': seq<Tok>, chk: Option<Env>, chk': Option<Env>)
    requires Reads(ts, a, b, ks, chk) && Reads(ts, b, d, ks', chk')
    ensures Reads(ts, a, d, ks + ks', chk')
  {
    hide Sees;
    if d.errors == 0 { SeesSplit(ts, a.curr, ks, ks'); }
  }

  lemma ReadsToken(ts: seq<Token>, a: Snap, b: Snap, d: Snap, ks: seq<Tok>, chk: Option<Env>, k: Tok)
    requires Reads(ts, a, b, ks, chk) && Expects(ts, b, d, k) && k != TEof
    ensures Reads(ts, a, d, ks + [k], chk)
  {
    hide Sees;
    OneToken(ts, b.curr, k);
    SeesSplit(ts, a.curr, ks, [k]);
  }

  /** Emitting and patching change code only. */
  lemma ReadsOn(ts: seq<Token>, a: Snap, m: Snap, b: Snap, ks: seq<Tok>, chk: Option<Env>)
    requires Reads(ts, a, m, ks, chk) && b == m.(bytes := b.bytes) && |m.bytes| <= |b.bytes|
    ensures Reads(ts, a, b, ks, chk)
  {
    hide Sees;
  }

  lemma ReadsChecked(ts: seq<Token>, a: Snap, b: Snap, ks: seq<Tok>, chk: Option<Env>)
    requires Reads(ts, a, b, ks, chk)
    ensures Grew(a, b) && (b.errors == 0 ==> chk == Some(b.env) && a.errors == 0 && b.curr == a.curr + |ks| && a.env.vars <= b.env.vars)
  {
    hide Sees;
  }

  lemma ReadsFails(ts: seq<Token>, a: Snap, b: Snap, ks: seq<Tok>, chk: Option<Env>, chk': Option<Env>)
    requires Reads(ts, a, b, ks, chk) && b.errors > 0
    ensures Reads(ts, a, b, ks, chk')
  {
  }

  lemma ReadThen(ts: seq<Token>, a: Snap, b: Snap, d: Snap, ks: seq<Tok>, ks': seq<Tok>, chk: Option<Env>, chk': Option<Env>,
                 c: Code, c': Code)
    requires Read(ts, a, b, ks, chk, c) && Read(ts, b, d, ks', chk', c')
    ensures Read(ts, a, d, ks + ks', chk', c + c')
  {
    hide Sees, Appends;
    if d.errors == 0 {
      SeesSplit(ts, a.curr, ks, ks');
      AppendsMore(a.bytes, b.bytes, d.bytes, c, c');
    }
  }

  lemma TokenRead(ts: seq<Token>, a: Snap, b: Snap, k: Tok)
    requires Expects(ts, a, b, k) && k != TEof
    ensures Read(ts, a, b, [k], Some(a.env), [])
  {
    hide Appends;
    AppendsNothing(a.bytes);
    OneToken(ts, a.curr, k);
  }

  lemma EmitRead(ts: seq<Token>, a: Snap, b: Snap, c: Code)
    requires Emits(a, b, c)
    ensures Read(ts, a, b, [], Some(a.env), c)
  {
    Grows(a.bytes, b.bytes, c);
  }

  /** No tokens, no code: names marked as initialised. */
  lemma MarkRead(ts: seq<Token>, a: Snap, b: Snap)
    requires b == a.(env := b.env) && a.env.vars <= b.env.vars
    ensures Read(ts, a, b, [], Some(b.env), [])
  {
    AppendsNothing(a.bytes);
  }

  lemma ExprRead(ts: seq<Token>, a: Snap, b: Snap, h: Expr, e: Expr, t: Type)
    requires ExprStep(ts, a, b, 0, h, e, t)
    ensures Read(ts, a, b, PrintExpr(e), CheckIn(e, a.env), CompileExpr(e, a.env.vars))
    ensures Moves(a, b) && (b.errors == 0 ==> Shaped(e) && Words64(e))
  {
    hide Sees, Appends;
  }

  // ----- extending a stretch -----

  lemma ReadToken(ts: seq<Token>, a: Snap, b: Snap, d: Snap, ks: seq<Tok>, chk: Option<Env>, c: Code, k: Tok)
    requires Read(ts, a, b, ks, chk, c) && Expects(ts, b, d, k) && k != TEof
    ensures Read(ts, a, d, ks + [k], chk, c)
  {
    hide Sees, Appends, Read;
    TokenRead(ts, b, d, k);
    ReadThen(ts, a, b, d, ks, [k], chk, Some(b.env), c, []);
    assert c + [] == c;
    if d.errors == 0 { ReadChecked(ts, a, b, ks, chk, c); } else { ReadFails(ts, a, d, ks + [k], Some(b.env), chk, c); }
  }

  lemma ReadEmit(ts: seq<Token>, a: Snap, b: Snap, d: Snap, ks: seq<Tok>, chk: Option<Env>, c: Code, c': Code)
    requires Read(ts, a, b, ks, chk, c) && Emits(b, d, c')
    ensures Read(ts, a, d, ks, chk, c + c')
  {
    hide Sees, Appends, Read;
    EmitRead(ts, b, d, c');
    ReadThen(ts, a, b, d, ks, [], chk, Some(b.env), c, c');
    assert ks + [] == ks;
    if d.errors == 0 { ReadChecked(ts, a, b, ks, chk, c); } else { ReadFails(ts, a, d, ks, Some(b.env), chk, c + c'); }
  }

  lemma ReadMark(ts: seq<Token>, a: Snap, b: Snap, d: Snap, ks: seq<Tok>, chk: Option<Env>, c: Code)
    requires Read(ts, a, b, ks, chk, c) && d == b.(env := d.env) && b.env.vars <= d.env.vars
    ensures Read(ts, a, d, ks, Some(d.env), c)
  {
    hide Sees, Appends, Read;
    MarkRead(ts, b, d);
    ReadThen(ts, a, b, d, ks, [], chk, Some(d.env), c, []);
    assert ks + [] == ks && c + [] == c;
  }

  lemma ReadChecked(ts: seq<Token>, a: Snap, b: Snap, ks: seq<Tok>, chk: Option<Env>, c: Code)
    requires Read(ts, a, b, ks, chk, c) && b.errors == 0
    ensures chk == Some(b.env) && a.errors == 0 && b.curr == a.curr + |ks| && a.env.vars <= b.env.vars
  {
  }

  lemma ReadFails(ts: seq<Token>, a: Snap, b: Snap, ks: seq<Tok>, chk: Option<Env>, chk': Option<Env>, c: Code)
    requires Read(ts, a, b, ks, chk, c) && b.errors > 0
    ensures Read(ts, a, b, ks, chk', c)
  {
  }

  /** After an error anything more can only add errors. */
  lemma FailedRead(ts: seq<Token>, a: Snap, b: Snap, ks: seq<Tok>, chk: Option<Env>, c: Code)
    requires Grew(a, b) && b.errors > 0
    ensures Read(ts, a, b, ks, chk, c)
  {
  }

  // ----- the token after a phrase, and phrases that are due -----

  predicate Closes(k: Tok) {
    k == TSemi || k == TRParen || k == TRBracket
  }

  /** e is due here: its tokens follow, closed by a semicolon or a bracket, and it is correct. */
  ghost predicate ExprDue(ts: seq<Token>, a: Snap, e: Expr) {
    a.errors == 0 && Ahead(ts, a, e) && Closes(KindAt(ts, a.curr + |PrintExpr(e)|))
  }

  lemma DueExpected(ts: seq<Token>, a: Snap, e: Expr)
    requires ExprDue(ts, a, e)
    ensures Expected(ts, a, 0, e)
  {
  }

  /** Assignment operators stand in no expression. */
  lemma {:induction false} NoAssignInside(e: Expr)
    ensures forall k :: 0 <= k < |PrintExpr(e)| ==> !IsAssignTok(PrintExpr(e)[k])
  {
    match e
    case Index(_, i) => NoAssignInside(i);
    case Cast(_, e1) => NoAssignInside(e1);
    case Not(e1) => NoAssignInside(e1);
    case Neg(e1) => NoAssignInside(e1);
    case Deref(e1) => NoAssignInside(e1);
    case Paren(e1) => NoAssignInside(e1);
    case Bin(_, l, r) => NoAssignInside(l); NoAssignInside(r);
    case And(l, r) => NoAssignInside(l); NoAssignInside(r);
    case Or(l, r) => NoAssignInside(l); NoAssignInside(r);
    case _ =>
  }

  // ----- declarations -----

  predicate ShapedFirst(f: ForInit) {
    match f case InitDecl(_, _, _, init) => ShapedOpt(init) case InitAssign(_, _, e) => Shaped(e)
            case InitExpr(e) => Shaped(e) case NoInit => true
  }

  predicate Words64First(f: ForInit) {
    match f case InitDecl(_, _, _, init) => Words64Opt(init) case InitAssign(_, _, e) => Words64(e)
            case InitExpr(e) => Words64(e) case NoInit => true
  }

  /** The first part of a for header; a declaration statement is one of these and a semicolon. */
  ghost predicate FirstBuilt(ts: seq<Token>, a: Snap, b: Snap, f: ForInit) {
    Read(ts, a, b, PrintFirst(f), CheckFirst(f, a.env), InitCode(f, b.env.vars)) &&
    (b.errors == 0 ==> ShapedFirst(f) && Words64First(f))
  }

  ghost predicate FirstDue(ts: seq<Token>, a: Snap, h: ForInit) {
    a.errors == 0 && ShapedFirst(h) && Sees(ts, a.curr, PrintFirst(h)) && CheckFirst(h, a.env).Some? &&
    KindAt(ts, a.curr + |PrintFirst(h)|) == TSemi
  }

  ghost predicate FirstStep(ts: seq<Token>, a: Snap, b: Snap, h: ForInit, f: ForInit) {
    FirstBuilt(ts, a, b, f) && (FirstDue(ts, a, h) ==> b.errors == 0 && f == h)
  }

  /** The array suffix at p is that of size. */
  predicate SizeAt(ts: seq<Token>, p: nat, size: Option<int>) {
    match size
    case None => KindAt(ts, p) != TLBracket
    case Some(n) =>
      KindAt(ts, p) == TLBracket && KindAt(ts, p + 1) == TNumber(n) && KindAt(ts, p + 2) == TRBracket && ArrayLength(size) > 0
  }

  /** Where the parts of an expected declaration stand. */
  predicate DeclAt(ts: seq<Token>, p: nat, h: ForInit)
    requires h.InitDecl?
  {
    var q := p + if h.ty.isPtr then 2 else 1;
    var r := q + 1 + |PrintSize(h.size)|;
    KindAt(ts, p) == TType(h.ty.base) && TypeAt(ts, p) == h.ty && KindAt(ts, q) == TIdent(h.x) &&
    SizeAt(ts, q + 1, h.size) && (KindAt(ts, r) == TAssign <==> h.init.Some?)
  }

  lemma TypeTokens(ts: seq<Token>, p: nat, t: Type)
    requires KindAt(ts, p).TType? && t == TypeAt(ts, p)
    ensures Sees(ts, p, PrintType(t))
  {
    if t.isPtr { TwoTokens(ts, p, TType(t.base), TStar); } else { OneToken(ts, p, TType(t.base)); }
  }

  lemma SizeTokens(ts: seq<Token>, p: nat, size: Option<int>)
    requires Sees(ts, p, PrintSize(size)) && ArrayLength(size) > 0 && size.Some?
    ensures SizeAt(ts, p, size)
  {
    var ks := PrintSize(size);
    assert ts[p + 0].kind == ks[0] && ts[p + 1].kind == ks[1] && ts[p + 2].kind == ks[2];
  }

  /** Type and name take as many tokens as the type says. */
  lemma DeclHead(ts: seq<Token>, p: nat, ty: Type, x: string)
    requires Sees(ts, p, PrintType(ty) + [TIdent(x)])
    ensures KindAt(ts, p) == TType(ty.base) && TypeAt(ts, p) == ty
    ensures |PrintType(ty)| == (if ty.isPtr then 2 else 1) && KindAt(ts, p + |PrintType(ty)|) == TIdent(x)
  {
    hide Sees;
    assert PrintType(ty) == if ty.isPtr then [TType(ty.base), TStar] else [TType(ty.base)];
    SeesSplit(ts, p, PrintType(ty), [TIdent(x)]);
    OneToken(ts, p + |PrintType(ty)|, TIdent(x));
    if ty.isPtr { TwoTokens(ts, p, TType(ty.base), TStar); } else { OneToken(ts, p, TType(ty.base)); }
  }

  lemma DeclTokens(ts: seq<Token>, a: Snap, h: ForInit)
    requires FirstDue(ts, a, h) && h.InitDecl?
    ensures DeclAt(ts, a.curr, h)
    ensures h.init.Some? ==> Sees(ts, a.curr + |PrintType(h.ty)| + 2 + |PrintSize(h.size)|, PrintExpr(h.init.value))
  {
    hide Sees, CheckIn, ArrayLength, Find, DeclAt;
    DeclParts(ts, a.curr, h);
  }

  lemma DeclParts(ts: seq<Token>, p: nat, h: ForInit)
    requires h.InitDecl? && Sees(ts, p, PrintFirst(h)) && KindAt(ts, p + |PrintFirst(h)|) == TSemi
    requires h.size.Some? ==> ArrayLength(h.size) > 0
    ensures DeclAt(ts, p, h)
    ensures h.init.Some? ==> Sees(ts, p + |PrintType(h.ty)| + 2 + |PrintSize(h.size)|, PrintExpr(h.init.value))
  {
    hide Sees, ArrayLength, PrintExpr, PrintType, PrintSize, TypeAt;
    var ty, size, init := PrintType(h.ty), PrintSize(h.size), PrintInit(h.init);
    var head := ty + [TIdent(h.x)];
    assert PrintFirst(h) == head + size + init;
    SeesSplit(ts, p, head + size, init);
    SeesSplit(ts, p, head, size);
    DeclHead(ts, p, h.ty, h.x);
    var r := p + |head| + |size|;
    if h.init.Some? {
      SeesSplit(ts, r, [TAssign], PrintExpr(h.init.value));
      OneToken(ts, r, TAssign);
    }
    if h.size.Some? { SizeTokens(ts, p + |head|, h.size); } else { assert PrintSize(h.size) == [] by { NoSize(); } }
  }

  /** [ number ] */
  lemma SuffixRead(ts: seq<Token>, a: Snap, m: Snap, b: Snap, n: int)
    requires KindAt(ts, a.curr) == TLBracket && KindAt(ts, a.curr + 1) == TNumber(n)
    requires m == a.(curr := a.curr + 2, errors := m.errors) && m.errors >= a.errors && Expects(ts, m, b, TRBracket)
    ensures Read(ts, a, b, PrintSize(Some(n)), Some(a.env), [])
  {
    hide Sees, Appends;
    TwoTokens(ts, a.curr, TLBracket, TNumber(n));
    OneToken(ts, m.curr, TRBracket);
    SeesSplit(ts, a.curr, [TLBracket, TNumber(n)], [TRBracket]);
    assert [TLBracket, TNumber(n)] + [TRBracket] == PrintSize(Some(n));
    AppendsNothing(a.bytes);
  }

  lemma NoSize()
    ensures PrintSize(None) == []
  {
  }

  /** The table after allocating x. Arrays count as initialised from the start. */
  function Allocated(env: Env, t: Type, x: string, len: nat): Env {
    Env(env.vars + [NewVar(env.vars, x, t, len)], if len > 0 then env.inits + {x} else env.inits)
  }

  /** From a to b the head of a declaration was read and the variable allocated. */
  ghost predicate Declared(ts: seq<Token>, a: Snap, b: Snap, t: Type, x: string, size: Option<int>, len: nat) {
    a.curr < b.curr && Find(a.env.vars, x).None? && b.env == Allocated(a.env, t, x, len) &&
    Read(ts, a, b, PrintType(t) + [TIdent(x)] + PrintSize(size), Some(b.env), []) &&
    (b.errors == 0 ==> len == ArrayLength(size) && (size.Some? ==> len > 0))
  }

  lemma HeadDeclared(ts: seq<Token>, a: Snap, s1: Snap, s2: Snap, b: Snap, t: Type, x: string, size: Option<int>, len: nat)
    requires KindAt(ts, a.curr).TType? && t == TypeAt(ts, a.curr) && Find(a.env.vars, x).None?
    requires var q := a.curr + if t.isPtr then 2 else 1; KindAt(ts, q) == TIdent(x) && s1 == a.(curr := q + 1)
    requires Read(ts, s1, s2, PrintSize(size), Some(s1.env), []) && s2 == s1.(curr := s2.curr, errors := s2.errors)
    requires s2.errors == 0 ==> len == ArrayLength(size) && (size.Some? ==> len > 0)
    requires b == s2.(env := Allocated(a.env, t, x, len))
    ensures Declared(ts, a, b, t, x, size, len)
  {
    hide Appends, Sees, PrintSize, ArrayLength, Allocated, Find, Read;
    var m := a.(curr := s1.curr - 1);
    var head := PrintType(t) + [TIdent(x)];
    assert Read(ts, a, m, PrintType(t), Some(a.env), []) by { TypeRead(ts, a, m, t); }
    ReadToken(ts, a, m, s1, PrintType(t), Some(a.env), [], TIdent(x));
    ReadThen(ts, a, s1, s2, head, PrintSize(size), Some(a.env), Some(a.env), [], []);
    AllocatedGrows(a.env, t, x, len);
    var none: Code := [];
    assert none + none == none;
    ReadMark(ts, a, s2, b, head + PrintSize(size), Some(a.env), none);
    ReadCurr(ts, s1, s2, PrintSize(size), Some(s1.env), []);
  }

  lemma ReadCurr(ts: seq<Token>, a: Snap, b: Snap, ks: seq<Tok>, chk: Option<Env>, c: Code)
    requires Read(ts, a, b, ks, chk, c)
    ensures a.curr <= b.curr
  {
  }

  lemma TypeRead(ts: seq<Token>, a: Snap, b: Snap, t: Type)
    requires KindAt(ts, a.curr).TType? && t == TypeAt(ts, a.curr) && b == a.(curr := a.curr + if t.isPtr then 2 else 1)
    ensures Read(ts, a, b, PrintType(t), Some(a.env), [])
  {
    TypeTokens(ts, a.curr, t);
    AppendsNothing(a.bytes);
  }

  lemma AllocatedGrows(env: Env, t: Type, x: string, len: nat)
    ensures env.vars <= Allocated(env, t, x, len).vars
  {
  }

  /** A declaration without initialiser. */
  lemma DeclPlain(ts: seq<Token>, a: Snap, b: Snap, h: ForInit, t: Type, x: string, size: Option<int>, len: nat)
    requires Declared(ts, a, b, t, x, size, len) && KindAt(ts, b.curr) != TAssign
    requires FirstDue(ts, a, h) ==> h.InitDecl? && h.ty == t && h.x == x && h.size == size && b.errors == 0
    ensures FirstStep(ts, a, b, h, InitDecl(t, x, size, None))
  {
    hide Appends, Sees, FirstDue, PrintFirst, CheckFirst, InitCode;
    if b.errors == 0 { PlainBuilt(ts, a, b, t, x, size, len); }
    if FirstDue(ts, a, h) { PlainDue(ts, a, b, h, len); }
  }

  lemma PlainBuilt(ts: seq<Token>, a: Snap, b: Snap, t: Type, x: string, size: Option<int>, len: nat)
    requires Declared(ts, a, b, t, x, size, len) && b.errors == 0
    ensures var f := InitDecl(t, x, size, None);
            Read(ts, a, b, PrintFirst(f), CheckFirst(f, a.env), InitCode(f, b.env.vars))
  {
    hide Appends, Sees, Truncate, Find, PrintSize, PrintType, NewVar;
    var head := PrintType(t) + [TIdent(x)] + PrintSize(size);
    assert PrintFirst(InitDecl(t, x, size, None)) == head + [] == head;
  }

  lemma PlainDue(ts: seq<Token>, a: Snap, b: Snap, h: ForInit, len: nat)
    requires FirstDue(ts, a, h) && h.InitDecl? && Declared(ts, a, b, h.ty, h.x, h.size, len) && b.errors == 0
    requires KindAt(ts, b.curr) != TAssign
    ensures h.init.None?
  {
    hide Appends, Sees, Find, PrintSize, PrintType, PrintExpr, CheckFirst, ShapedFirst, FirstDue, Allocated, ArrayLength;
    DeclTokens(ts, a, h);
    TypeLength(h.ty);
  }

  lemma TypeLength(t: Type)
    ensures |PrintType(t)| == if t.isPtr then 2 else 1
  {
  }

  /** The initialiser of an expected declaration is expected after the '='. */
  lemma InitDue(ts: seq<Token>, a: Snap, s3: Snap, s4: Snap, h: ForInit)
    requires FirstDue(ts, a, h) && h.InitDecl? && Declared(ts, a, s3, h.ty, h.x, h.size, 0) && s3.errors == 0
    requires KindAt(ts, s3.curr) == TAssign && s4 == s3.(curr := s3.curr + 1)
    ensures h.init.Some? && h.size.None? && Expected(ts, s4, 0, h.init.value)
  {
    hide Appends, Sees, Truncate, Find, PrintSize, PrintType, PrintExpr, CheckExpr, Shaped, Expected, DeclAt;
    TypeLength(h.ty);
    DeclTokens(ts, a, h);
    assert h.init.Some?;
    NoSize();
    assert ExprDue(ts, s4, h.init.value);
    DueExpected(ts, s4, h.init.value);
  }

  lemma InitBuilt(ts: seq<Token>, a: Snap, s3: Snap, s4: Snap, s5: Snap, s6: Snap, b: Snap, t: Type, x: string, e: Expr)
    requires Declared(ts, a, s3, t, x, None, 0) && KindAt(ts, s3.curr) == TAssign && s4 == s3.(curr := s3.curr + 1)
    requires Read(ts, s4, s5, PrintExpr(e), CheckIn(e, s4.env), CompileExpr(e, s4.env.vars)) && s5.env.vars == s4.env.vars
    requires Emits(s5, s6, [StoreOf(NewVar(a.env.vars, x, t, 0))]) && b == s6.(env := Initialised(s6.env, x)) && b.errors == 0
    ensures var f := InitDecl(t, x, None, Some(e));
            Read(ts, a, b, PrintFirst(f), CheckFirst(f, a.env), InitCode(f, b.env.vars))
  {
    hide Appends, Sees, Find, PrintType, PrintSize, CompileExpr, CheckExpr, PrintExpr, Read, NewVar, StoreOf;
    var head, v := PrintType(t) + [TIdent(x)] + PrintSize(None), NewVar(a.env.vars, x, t, 0);
    var c, chk := CompileExpr(e, s4.env.vars), CheckIn(e, s4.env);
    ReadToken(ts, a, s3, s4, head, Some(s3.env), [], TAssign);
    ReadThen(ts, a, s4, s5, head + [TAssign], PrintExpr(e), Some(s3.env), chk, [], c);
    ReadEmit(ts, a, s5, s6, head + [TAssign] + PrintExpr(e), chk, [] + c, [StoreOf(v)]);
    ReadMark(ts, a, s6, b, head + [TAssign] + PrintExpr(e), chk, [] + c + [StoreOf(v)]);
    ReadChecked(ts, s4, s5, PrintExpr(e), chk, c);
    assert head + [TAssign] + PrintExpr(e) == head + ([TAssign] + PrintExpr(e));
    assert [] + c + [StoreOf(v)] == c + [StoreOf(v)];
    FindNew(a.env.vars, v) by { NewVarName(a.env.vars, x, t); }
    NewVarName(a.env.vars, x, t);
  }

  lemma NewVarName(vs: Table, x: string, t: Type)
    ensures NewVar(vs, x, t, 0).name == x
  {
  }

  /** A declaration with initialiser: '=', the expression, the store. */
  lemma DeclInit(ts: seq<Token>, a: Snap, s3: Snap, s4: Snap, s5: Snap, s6: Snap, b: Snap, h: ForInit, he: Expr,
                 t: Type, x: string, size: Option<int>, e: Expr, te: Type)
    requires Declared(ts, a, s3, t, x, size, 0) && KindAt(ts, s3.curr) == TAssign && s4 == s3.(curr := s3.curr + 1)
    requires ExprStep(ts, s4, s5, 0, he, e, te) && Emits(s5, s6, [StoreOf(NewVar(a.env.vars, x, t, 0))])
    requires b == s6.(env := Initialised(s6.env, x))
    requires FirstDue(ts, a, h) ==> h.InitDecl? && h.ty == t && h.x == x && h.size == size && s3.errors == 0
    requires FirstDue(ts, a, h) && h.init.Some? ==> he == h.init.value
    ensures FirstStep(ts, a, b, h, InitDecl(t, x, size, Some(e)))
  {
    hide Appends, Sees, Find, PrintFirst, ExprStep, CompileExpr, CheckFirst, PrintExpr, Expected, Shaped, Words64, FirstDue, InitCode;
    ExprRead(ts, s4, s5, he, e, te);
    if FirstDue(ts, a, h) {
      InitDue(ts, a, s3, s4, h);
      StepExpected(ts, s4, s5, 0, he, e, te);
    }
    Grows(s5.bytes, s6.bytes, [StoreOf(NewVar(a.env.vars, x, t, 0))]);
    if b.errors == 0 { InitBuilt(ts, a, s3, s4, s5, s6, b, t, x, e); }
  }

  lemma StepExpected(ts: seq<Token>, a: Snap, b: Snap, lv: nat, h: Expr, e: Expr, t: Type)
    requires ExprStep(ts, a, b, lv, h, e, t) && Expected(ts, a, lv, h)
    ensures b.errors == 0 && e == h
  {
  }

  /** Where an expected declaration fails the parser, it is not expected. */
  lemma DeclHint(ts: seq<Token>, a: Snap, h: ForInit)
    requires FirstDue(ts, a, h) && KindAt(ts, a.curr).TType?
    ensures h.InitDecl? && DeclAt(ts, a.curr, h) && Find(a.env.vars, h.x).None? && (h.size.Some? ==> h.init.None?)
  {
    hide Sees, CheckIn, ArrayLength, Find, DeclAt, CheckExpr, PrintExpr, Shaped, Ahead;
    if h.InitDecl? {
      DeclTokens(ts, a, h);
    } else {
      FirstStarts(ts, a, h);
    }
  }

  /** Only declarations start with a type. */
  lemma FirstStarts(ts: seq<Token>, a: Snap, h: ForInit)
    requires FirstDue(ts, a, h) && !h.InitDecl?
    ensures !KindAt(ts, a.curr).TType?
  {
    hide CheckFirst;
    match h
    case InitExpr(e) =>
      StartsExpr(e);
      SeesAt(ts, a.curr, PrintExpr(e), 0);
    case InitAssign(x, op, e) => SeesAt(ts, a.curr, PrintFirst(h), 0);
    case NoInit =>
  }

  lemma SeesAt(ts: seq<Token>, p: nat, ks: seq<Tok>, k: nat)
    requires Sees(ts, p, ks) && k < |ks|
    ensures KindAt(ts, p + k) == ks[k]
  {
  }

  /** An expected declaration with '=' is not that of an array. */
  lemma InitForScalar(ts: seq<Token>, a: Snap, s3: Snap, h: ForInit, len: nat)
    requires FirstDue(ts, a, h) && h.InitDecl? && Declared(ts, a, s3, h.ty, h.x, h.size, len) && s3.errors == 0
    requires KindAt(ts, s3.curr) == TAssign
    ensures len == 0
  {
    hide Appends, Sees, Find, PrintSize, PrintType, PrintExpr, CheckIn, ShapedFirst, Allocated, Truncate, DeclAt;
    DeclTokens(ts, a, h);
    TypeLength(h.ty);
  }

  lemma FirstErrorFree(ts: seq<Token>, a: Snap, h: ForInit)
    requires FirstDue(ts, a, h)
    ensures a.errors == 0
  {
  }

  lemma FirstWrong(ts: seq<Token>, a: Snap, b: Snap, h: ForInit, f: ForInit)
    requires Grew(a, b) && b.errors > 0 && !FirstDue(ts, a, h)
    ensures FirstStep(ts, a, b, h, f)
  {
  }

  // ----- assignments: x = e, x op= e -----

  function AssignTokens(x: string, op: AssignOp, e: Expr): seq<Tok> {
    [TIdent(x), AssignTok(op)] + PrintExpr(e)
  }

  ghost predicate AssignBuilt(ts: seq<Token>, a: Snap, b: Snap, mustInit: bool, x: string, op: AssignOp, e: Expr) {
    a.curr < b.curr && Read(ts, a, b, AssignTokens(x, op, e), CheckAssign(x, op, e, mustInit, a.env), AssignCode(x, op, e, b.env.vars)) &&
    (b.errors == 0 ==> Shaped(e) && Words64(e))
  }

  ghost predicate AssignDue(ts: seq<Token>, a: Snap, mustInit: bool, x: string, op: AssignOp, h: Expr) {
    a.errors == 0 && Shaped(h) && Sees(ts, a.curr, AssignTokens(x, op, h)) && CheckAssign(x, op, h, mustInit, a.env).Some? &&
    Closes(KindAt(ts, a.curr + 2 + |PrintExpr(h)|))
  }

  ghost predicate AssignStep(ts: seq<Token>, a: Snap, b: Snap, mustInit: bool, x: string, op: AssignOp, h: Expr, e: Expr) {
    AssignBuilt(ts, a, b, mustInit, x, op, e) && (AssignDue(ts, a, mustInit, x, op, h) ==> b.errors == 0 && e == h)
  }

  /** The variable may be assigned. */
  predicate Assignable(env: Env, x: string, op: AssignOp, mustInit: bool) {
    match Find(env.vars, x) case None => false case Some(v) => !v.IsArray() && (mustInit && op != Set ==> x in env.inits)
  }

  function AfterAssign(env: Env, x: string, op: AssignOp): Env {
    if op == Set then Initialised(env, x) else env
  }

  lemma AssignStepped(ts: seq<Token>, a: Snap, s1: Snap, s2: Snap, s3: Snap, b: Snap, mustInit: bool, x: string, op: AssignOp,
                      h: Expr, e: Expr, t: Type)
    requires KindAt(ts, a.curr) == TIdent(x) && KindAt(ts, a.curr + 1) == AssignTok(op) && s1 == a.(curr := a.curr + 2)
    requires Assignable(a.env, x, op, mustInit) && ExprStep(ts, s1, s2, 0, h, e, t)
    requires Emits(s2, s3, AssignTail(Find(a.env.vars, x).value, op)) && b == s3.(env := AfterAssign(s3.env, x, op))
    ensures AssignStep(ts, a, b, mustInit, x, op, h, e)
  {
    hide ExprStep, AssignBuilt, AssignDue, Emits, AssignTail, AfterAssign, Find;
    AssignBuilds(ts, a, s1, s2, s3, b, mustInit, x, op, h, e, t);
    if AssignDue(ts, a, mustInit, x, op, h) {
      AssignFound(ts, a, s1, s2, mustInit, x, op, h, e, t);
      EmitsOnly(s2, s3, AssignTail(Find(a.env.vars, x).value, op));
    }
  }

  lemma EmitsOnly(a: Snap, b: Snap, c: Code)
    requires Emits(a, b, c)
    ensures b == a.(bytes := b.bytes) && |a.bytes| <= |b.bytes|
  {
  }

  lemma AssignBuilds(ts: seq<Token>, a: Snap, s1: Snap, s2: Snap, s3: Snap, b: Snap, mustInit: bool, x: string, op: AssignOp,
                     h: Expr, e: Expr, t: Type)
    requires KindAt(ts, a.curr) == TIdent(x) && KindAt(ts, a.curr + 1) == AssignTok(op) && s1 == a.(curr := a.curr + 2)
    requires Assignable(a.env, x, op, mustInit) && ExprStep(ts, s1, s2, 0, h, e, t)
    requires Emits(s2, s3, AssignTail(Find(a.env.vars, x).value, op)) && b == s3.(env := AfterAssign(s3.env, x, op))
    ensures AssignBuilt(ts, a, b, mustInit, x, op, e)
  {
    hide Sees, Appends, ExprStep, CheckAssign, AssignTokens, AssignCode, Shaped, Words64, AssignTail, Read, Find, CheckIn, PrintExpr;
    ExprRead(ts, s1, s2, h, e, t);
    AssignReads(ts, a, s1, s2, s3, b, mustInit, x, op, e);
  }

  lemma AssignFound(ts: seq<Token>, a: Snap, s1: Snap, s2: Snap, mustInit: bool, x: string, op: AssignOp, h: Expr, e: Expr, t: Type)
    requires AssignDue(ts, a, mustInit, x, op, h) && s1 == a.(curr := a.curr + 2) && ExprStep(ts, s1, s2, 0, h, e, t)
    ensures s2.errors == 0 && e == h
  {
    hide ExprStep, Expected, AssignDue;
    AssignParts(ts, a, s1, mustInit, x, op, h);
    StepExpected(ts, s1, s2, 0, h, e, t);
  }

  lemma AssignReads(ts: seq<Token>, a: Snap, s1: Snap, s2: Snap, s3: Snap, b: Snap, mustInit: bool, x: string, op: AssignOp, e: Expr)
    requires KindAt(ts, a.curr) == TIdent(x) && KindAt(ts, a.curr + 1) == AssignTok(op) && s1 == a.(curr := a.curr + 2)
    requires Assignable(a.env, x, op, mustInit) && s2.env.vars == s1.env.vars
    requires Read(ts, s1, s2, PrintExpr(e), CheckIn(e, a.env), CompileExpr(e, a.env.vars))
    requires Emits(s2, s3, AssignTail(Find(a.env.vars, x).value, op)) && b == s3.(env := AfterAssign(s3.env, x, op))
    ensures Read(ts, a, b, AssignTokens(x, op, e), CheckAssign(x, op, e, mustInit, a.env), AssignCode(x, op, e, b.env.vars))
  {
    hide Sees, Appends, CompileExpr, CheckExpr, PrintExpr, AssignTail, Read, Find;
    var v, c, chk, head := Find(a.env.vars, x).value, CompileExpr(e, a.env.vars), CheckIn(e, a.env), [TIdent(x), AssignTok(op)];
    HeadRead(ts, a, s1, TIdent(x), AssignTok(op));
    ReadThen(ts, a, s1, s2, head, PrintExpr(e), Some(a.env), chk, [], c);
    ReadEmit(ts, a, s2, s3, head + PrintExpr(e), chk, [] + c, AssignTail(v, op));
    ReadMark(ts, a, s3, b, head + PrintExpr(e), chk, [] + c + AssignTail(v, op));
    assert [] + c + AssignTail(v, op) == c + AssignTail(v, op);
    if b.errors == 0 { ReadChecked(ts, s1, s2, PrintExpr(e), chk, c); }
    else { ReadFails(ts, a, b, head + PrintExpr(e), Some(b.env), CheckAssign(x, op, e, mustInit, a.env), c + AssignTail(v, op)); }
  }

  lemma AssignParts(ts: seq<Token>, a: Snap, s1: Snap, mustInit: bool, x: string, op: AssignOp, h: Expr)
    requires AssignDue(ts, a, mustInit, x, op, h) && s1 == a.(curr := a.curr + 2)
    ensures Expected(ts, s1, 0, h)
  {
    hide Sees;
    SeesSplit(ts, a.curr, [TIdent(x), AssignTok(op)], PrintExpr(h));
    DueExpected(ts, s1, h);
  }

  lemma HeadRead(ts: seq<Token>, a: Snap, b: Snap, k: Tok, k2: Tok)
    requires KindAt(ts, a.curr) == k && KindAt(ts, a.curr + 1) == k2 && k != TEof && k2 != TEof && b == a.(curr := a.curr + 2)
    ensures Read(ts, a, b, [k, k2], Some(a.env), [])
  {
    hide Sees, Appends;
    TwoTokens(ts, a.curr, k, k2);
    AppendsNothing(a.bytes);
  }

  /** An assignment to a variable that does not allow it is not expected. */
  lemma AssignWrong(ts: seq<Token>, a: Snap, b: Snap, mustInit: bool, x: string, op: AssignOp, h: Expr, e: Expr)
    requires !Assignable(a.env, x, op, mustInit) && Grew(a, b) && a.curr < b.curr && b.errors > 0
    ensures AssignStep(ts, a, b, mustInit, x, op, h, e)
  {
    hide Sees, Appends, PrintExpr, Shaped, CheckIn;
  }

  // ----- ++ and -- as statements -----

  ghost predicate BumpBuilt(ts: seq<Token>, a: Snap, b: Snap, x: string, up: bool, post: bool) {
    a.curr < b.curr && Read(ts, a, b, PrintBump(x, up, post), CheckBump(x, a.env), BumpStmtCode(x, up, b.env.vars))
  }

  /** Where x++ or ++x stands. */
  predicate BumpAt(ts: seq<Token>, p: nat, x: string, up: bool, post: bool) {
    if post then KindAt(ts, p) == TIdent(x) && KindAt(ts, p + 1) == BumpTok(up)
    else KindAt(ts, p) == BumpTok(up) && KindAt(ts, p + 1) == TIdent(x)
  }

  lemma BumpTokens(ts: seq<Token>, p: nat, x: string, up: bool, post: bool)
    ensures BumpAt(ts, p, x, up, post) <==> Sees(ts, p, PrintBump(x, up, post))
  {
    hide Sees;
    if post { TwoTokens(ts, p, TIdent(x), BumpTok(up)); } else { TwoTokens(ts, p, BumpTok(up), TIdent(x)); }
  }

  lemma BumpStepped(ts: seq<Token>, a: Snap, s1: Snap, b: Snap, x: string, up: bool, post: bool)
    requires BumpAt(ts, a.curr, x, up, post) && s1 == a.(curr := a.curr + 2) && CheckBump(x, a.env).Some?
    requires Emits(s1, b, [BumpOf(Find(a.env.vars, x).value, up)])
    ensures BumpBuilt(ts, a, b, x, up, post) && b.errors == a.errors
  {
    hide Sees, Appends, Find, Read;
    if post { HeadRead(ts, a, s1, TIdent(x), BumpTok(up)); } else { HeadRead(ts, a, s1, BumpTok(up), TIdent(x)); }
    var code := [BumpOf(Find(a.env.vars, x).value, up)];
    ReadEmit(ts, a, s1, b, PrintBump(x, up, post), Some(a.env), [], code);
    assert [] + code == code;
  }

  // ----- statements -----

  /** Without errors s was read and compiled, and it may stand before the next token. */
  ghost predicate StmtBuilt(ts: seq<Token>, a: Snap, b: Snap, s: Stmt) {
    a.curr < b.curr && Read(ts, a, b, PrintStmt(s), CheckStmt(s, a.env), CompileStmt(s, b.env.vars)) &&
    (b.errors == 0 ==> ShapedStmt(s) && Words64Stmt(s) && Precedes(s, KindAt(ts, b.curr)))
  }

  ghost predicate StmtDue(ts: seq<Token>, a: Snap, h: Stmt) {
    a.errors == 0 && ShapedStmt(h) && Sees(ts, a.curr, PrintStmt(h)) && CheckStmt(h, a.env).Some? &&
    Precedes(h, KindAt(ts, a.curr + |PrintStmt(h)|))
  }

  /** Soundness and completeness of statement parsing. */
  ghost predicate StmtStep(ts: seq<Token>, a: Snap, b: Snap, h: Stmt, s: Stmt) {
    StmtBuilt(ts, a, b, s) && (StmtDue(ts, a, h) ==> b.errors == 0 && s == h)
  }

  lemma StmtFailed(ts: seq<Token>, a: Snap, b: Snap, s: Stmt)
    requires Grew(a, b) && a.curr < b.curr && b.errors > 0
    ensures StmtBuilt(ts, a, b, s)
  {
  }

  lemma StmtWrong(ts: seq<Token>, a: Snap, b: Snap, h: Stmt, s: Stmt)
    requires Grew(a, b) && a.curr < b.curr && b.errors > 0 && !StmtDue(ts, a, h)
    ensures StmtStep(ts, a, b, h, s)
  {
    hide StmtDue;
  }

  /** The first two tokens tell which statement is expected. */
  predicate StmtHeadAt(ts: seq<Token>, p: nat, h: Stmt) {
    var k, k2 := KindAt(ts, p), KindAt(ts, p + 1);
    match h
    case Decl(t, _, _, _) => k == TType(t.base)
    case Assign(x, op, _) => k == TIdent(x) && k2 == AssignTok(op)
    case StoreIndex(x, _, _) => k == TIdent(x) && k2 == TLBracket
    case StoreThrough(x, _) => k == TStar && k2 == TIdent(x)
    case BumpStmt(x, up, post) => BumpAt(ts, p, x, up, post)
    case Skipped(x, _, _) => k == TIdent(x) && !StartsAfterName(k2)
    case Return(_) => k == TReturn
    case If(_, _, _) => k == TIf
    case While(_, _) => k == TWhile
    case DoWhile(_, _) => k == TDo
    case For(_, _, _, _) => k == TFor
  }

  lemma StmtHead(ts: seq<Token>, p: nat, h: Stmt)
    requires Sees(ts, p, PrintStmt(h)) && ShapedStmt(h) && Precedes(h, KindAt(ts, p + |PrintStmt(h)|))
    ensures StmtHeadAt(ts, p, h)
  {
    hide Sees, PrintExpr, PrintBlock, Shaped, ShapedBlock, BlockPrecedes;
    var ks := PrintStmt(h);
    SeesAt(ts, p, ks, 0);
    if |ks| > 1 { SeesAt(ts, p, ks, 1); }
  }

  /** Statements never start with else, a brace or the end of the text. */
  lemma StmtStarts(ts: seq<Token>, p: nat, h: Stmt)
    requires Sees(ts, p, PrintStmt(h))
    ensures KindAt(ts, p) == PrintStmt(h)[0] && KindAt(ts, p) !in {TElse, TLBrace, TRBrace, TEof}
  {
    hide Sees, PrintExpr, PrintBlock;
    SeesAt(ts, p, PrintStmt(h), 0);
  }

  /** Tokens that start no statement whatever follows. */
  predicate Headless(ts: seq<Token>, p: nat) {
    match KindAt(ts, p)
    case TType(_) => false case TReturn => false case TIf => false case TWhile => false case TDo => false case TFor => false
    case TIdent(_) => false case TPlusPlus => false case TMinusMinus => false
    case TStar => !KindAt(ts, p + 1).TIdent?
    case _ => true
  }

  /** A stretch closed by a semicolon is a statement. */
  lemma SemiBuilds(ts: seq<Token>, a: Snap, m: Snap, b: Snap, s: Stmt, ks: seq<Tok>)
    requires a.curr < m.curr && Read(ts, a, m, ks, CheckStmt(s, a.env), CompileStmt(s, m.env.vars))
    requires PrintStmt(s) == ks + [TSemi] && Expects(ts, m, b, TSemi) && Precedes(s, KindAt(ts, b.curr))
    requires m.errors == 0 ==> ShapedStmt(s) && Words64Stmt(s)
    ensures StmtBuilt(ts, a, b, s)
  {
    hide Read, CheckStmt, CompileStmt, PrintStmt, ShapedStmt, Words64Stmt, Precedes;
    ReadToken(ts, a, m, b, ks, CheckStmt(s, a.env), CompileStmt(s, m.env.vars), TSemi);
  }

  lemma DeclBuilds(ts: seq<Token>, a: Snap, m: Snap, b: Snap, f: ForInit, s: Stmt)
    requires f.InitDecl? && s == Decl(f.ty, f.x, f.size, f.init)
    requires a.curr < m.curr && FirstBuilt(ts, a, m, f) && Expects(ts, m, b, TSemi)
    ensures StmtBuilt(ts, a, b, s)
  {
    hide Read, Expects, AssignCode, CheckDecl, PrintDecl;
    SemiBuilds(ts, a, m, b, s, PrintFirst(f));
  }

  lemma DeclStmtStep(ts: seq<Token>, a: Snap, m: Snap, b: Snap, h: Stmt, f: ForInit, ok: bool)
    requires KindAt(ts, a.curr).TType? && f.InitDecl? && a.curr < m.curr
    requires FirstStep(ts, a, m, if h.Decl? then InitDecl(h.ty, h.x, h.size, h.init) else NoInit, f)
    requires b == m.(curr := b.curr, errors := b.errors) && b.curr >= m.curr && b.errors >= m.errors
    requires if ok then Expects(ts, m, b, TSemi) else m.errors > 0
    ensures StmtStep(ts, a, b, h, Decl(f.ty, f.x, f.size, f.init))
  {
    hide Reads, Appends, PrintFirst, CheckFirst, FirstDue, StmtDue, StmtBuilt, ShapedFirst, Words64First, InitCode;
    if ok { DeclBuilds(ts, a, m, b, f, Decl(f.ty, f.x, f.size, f.init)); } else {
      GrewMore(ts, a, m, b, PrintFirst(f), CheckFirst(f, a.env));
      StmtFailed(ts, a, b, Decl(f.ty, f.x, f.size, f.init));
    }
    if StmtDue(ts, a, h) {
      DeclFound(ts, a, h);
      FirstEnds(ts, a, f);
      ReadsChecked(ts, a, m, PrintFirst(f), CheckFirst(f, a.env));
    }
  }

  lemma FirstEnds(ts: seq<Token>, a: Snap, h: ForInit)
    requires FirstDue(ts, a, h)
    ensures KindAt(ts, a.curr + |PrintFirst(h)|) == TSemi
  {
    hide Sees, CheckFirst, PrintFirst;
  }

  lemma DeclFound(ts: seq<Token>, a: Snap, h: Stmt)
    requires StmtDue(ts, a, h) && KindAt(ts, a.curr).TType?
    ensures h.Decl? && FirstDue(ts, a, InitDecl(h.ty, h.x, h.size, h.init))
  {
    hide Sees, CheckDecl, PrintDecl;
    StmtStarts(ts, a.curr, h);
    StmtHead(ts, a.curr, h);
    SemiSplit(ts, a.curr, PrintDecl(h.ty, h.x, h.size, h.init));
  }

  lemma SemiSplit(ts: seq<Token>, p: nat, ks: seq<Tok>)
    requires Sees(ts, p, ks + [TSemi])
    ensures Sees(ts, p, ks) && KindAt(ts, p + |ks|) == TSemi
  {
    hide Sees;
    SeesSplit(ts, p, ks, [TSemi]);
    OneToken(ts, p + |ks|, TSemi);
  }

  lemma AssignStmtBuilds(ts: seq<Token>, a: Snap, m: Snap, b: Snap, x: string, op: AssignOp, e: Expr)
    requires AssignBuilt(ts, a, m, true, x, op, e) && Expects(ts, m, b, TSemi)
    ensures StmtBuilt(ts, a, b, Assign(x, op, e))
  {
    hide Read, Expects, AssignCode, CheckAssign, PrintExpr;
    SemiBuilds(ts, a, m, b, Assign(x, op, e), AssignTokens(x, op, e));
  }

  lemma AssignStmtFound(ts: seq<Token>, a: Snap, h: Stmt)
    requires StmtDue(ts, a, h) && h.Assign?
    ensures AssignDue(ts, a, true, h.x, h.op, h.e)
    ensures KindAt(ts, a.curr + |AssignTokens(h.x, h.op, h.e)|) == TSemi
  {
    hide Sees, CheckAssign, PrintExpr;
    SemiSplit(ts, a.curr, AssignTokens(h.x, h.op, h.e));
  }

  lemma AssignStmtStep(ts: seq<Token>, a: Snap, m: Snap, b: Snap, h: Stmt, x: string, op: AssignOp, e: Expr, ok: bool)
    requires KindAt(ts, a.curr) == TIdent(x) && KindAt(ts, a.curr + 1) == AssignTok(op)
    requires AssignStep(ts, a, m, true, x, op, if h.Assign? then h.e else Num(0), e)
    requires b == m.(curr := b.curr, errors := b.errors) && b.curr >= m.curr && b.errors >= m.errors
    requires if ok then Expects(ts, m, b, TSemi) else m.errors > 0
    ensures StmtStep(ts, a, b, h, Assign(x, op, e))
  {
    hide Reads, AssignCode, AssignTokens, CheckAssign, AssignDue, StmtDue, StmtBuilt, PrintExpr;
    if ok {
      AssignStmtBuilds(ts, a, m, b, x, op, e);
    } else {
      GrewMore(ts, a, m, b, AssignTokens(x, op, e), CheckAssign(x, op, e, true, a.env));
      StmtFailed(ts, a, b, Assign(x, op, e));
    }
    if StmtDue(ts, a, h) {
      AssignStmtDue(ts, a, h, x, op);
      ReadsChecked(ts, a, m, AssignTokens(x, op, e), CheckAssign(x, op, e, true, a.env));
    }
  }

  lemma AssignStmtDue(ts: seq<Token>, a: Snap, h: Stmt, x: string, op: AssignOp)
    requires StmtDue(ts, a, h) && KindAt(ts, a.curr) == TIdent(x) && KindAt(ts, a.curr + 1) == AssignTok(op)
    ensures h.Assign? && h.x == x && h.op == op && AssignDue(ts, a, true, x, op, h.e) && a.errors == 0
    ensures KindAt(ts, a.curr + |AssignTokens(x, op, h.e)|) == TSemi
  {
    hide StmtDue, AssignDue, AssignTokens;
    DueHead(ts, a, h);
    AssignStmtFound(ts, a, h);
  }

  lemma DueHead(ts: seq<Token>, a: Snap, h: Stmt)
    requires StmtDue(ts, a, h)
    ensures StmtHeadAt(ts, a.curr, h) && a.errors == 0
  {
    hide Sees, PrintStmt, CheckStmt, ShapedStmt;
    StmtHead(ts, a.curr, h);
  }

  /** Growth goes on through reads and later errors. */
  lemma GrewMore(ts: seq<Token>, a: Snap, m: Snap, b: Snap, ks: seq<Tok>, chk: Option<Env>)
    requires Reads(ts, a, m, ks, chk) && Grew(m, b)
    ensures Grew(a, b)
  {
    hide Sees;
  }

  lemma BumpStmtBuilds(ts: seq<Token>, a: Snap, m: Snap, b: Snap, x: string, up: bool, post: bool)
    requires BumpBuilt(ts, a, m, x, up, post) && Expects(ts, m, b, TSemi)
    ensures StmtBuilt(ts, a, b, BumpStmt(x, up, post))
  {
    hide Read, Expects;
    SemiBuilds(ts, a, m, b, BumpStmt(x, up, post), PrintBump(x, up, post));
  }

  lemma BumpStmtFound(ts: seq<Token>, a: Snap, h: Stmt)
    requires StmtDue(ts, a, h) && h.BumpStmt?
    ensures KindAt(ts, a.curr + 2) == TSemi && CheckBump(h.x, a.env).Some?
  {
    hide Sees;
    SemiSplit(ts, a.curr, PrintBump(h.x, h.up, h.post));
  }

  // ----- *x = e; -----

  function ThroughTail(v: VarInfo): Code {
    [PushRax] + [LoadOf(v)] + [PopRcx, StoreAt(v.ty.base.Width())]
  }

  predicate Storable(env: Env, x: string) {
    match Find(env.vars, x) case None => false case Some(v) => v.ty.isPtr && (x in env.inits || v.IsArray())
  }

  lemma ThroughBuilds(ts: seq<Token>, a: Snap, s1: Snap, s2: Snap, s3: Snap, b: Snap, x: string, e: Expr)
    requires KindAt(ts, a.curr) == TStar && KindAt(ts, a.curr + 1) == TIdent(x) && KindAt(ts, a.curr + 2) == TAssign
    requires s1 == a.(curr := a.curr + 3) && Storable(a.env, x)
    requires Read(ts, s1, s2, PrintExpr(e), CheckIn(e, a.env), CompileExpr(e, a.env.vars)) && Moves(s1, s2)
    requires s2.errors == 0 ==> Shaped(e) && Words64(e)
    requires Emits(s2, s3, ThroughTail(Find(a.env.vars, x).value)) && Expects(ts, s3, b, TSemi)
    ensures StmtBuilt(ts, a, b, StoreThrough(x, e))
  {
    hide Read, Find, PrintExpr, CompileExpr, Appends, CheckExpr, LoadOf, Shaped, Words64;
    var v, c, chk, s, m := Find(a.env.vars, x).value, CompileExpr(e, a.env.vars), CheckIn(e, a.env), StoreThrough(x, e), a.(curr := a.curr + 2);
    HeadRead(ts, a, m, TStar, TIdent(x));
    ReadToken(ts, a, m, s1, [TStar, TIdent(x)], Some(a.env), [], TAssign);
    assert [TStar, TIdent(x)] + [TAssign] == [TStar, TIdent(x), TAssign];
    ReadThen(ts, a, s1, s2, [TStar, TIdent(x), TAssign], PrintExpr(e), Some(a.env), chk, [], c);
    ReadEmit(ts, a, s2, s3, [TStar, TIdent(x), TAssign] + PrintExpr(e), chk, [] + c, ThroughTail(v));
    assert [] + c + ThroughTail(v) == c + [PushRax] + [LoadOf(v)] + [PopRcx, StoreAt(v.ty.base.Width())];
    SemiBuilds(ts, a, s3, b, s, [TStar, TIdent(x), TAssign] + PrintExpr(e));
  }

  lemma ThroughFound(ts: seq<Token>, a: Snap, h: Stmt)
    requires StmtDue(ts, a, h) && h.StoreThrough?
    ensures KindAt(ts, a.curr + 2) == TAssign && Storable(a.env, h.x) && ExprDue(ts, a.(curr := a.curr + 3), h.e)
    ensures KindAt(ts, a.curr + 3 + |PrintExpr(h.e)|) == TSemi
  {
    hide Sees, PrintExpr, CheckExpr, Shaped, Find;
    var head := [TStar, TIdent(h.x), TAssign];
    SemiSplit(ts, a.curr, head + PrintExpr(h.e));
    SeesSplit(ts, a.curr, head, PrintExpr(h.e));
    SeesAt(ts, a.curr, head, 2);
  }

  // ----- x[i] = e; -----

  predicate Indexable(env: Env, x: string) {
    match Find(env.vars, x) case None => false case Some(v) => v.ty.isPtr || v.IsArray()
  }

  function TargetTokens(x: string, i: Expr): seq<Tok> {
    [TIdent(x), TLBracket] + PrintExpr(i) + [TRBracket]
  }

  function TargetCode(v: VarInfo, i: Expr, vs: Table): Code {
    [DesignatedOf(v), PushRax] + CompileExpr(i, vs) + IndexTail(v)
  }

  /** The address of x[i] is computed; the closing bracket has been read. */
  ghost predicate TargetBuilt(ts: seq<Token>, a: Snap, b: Snap, x: string, i: Expr) {
    a.curr < b.curr && b.env.vars == a.env.vars && Indexable(a.env, x) &&
    Read(ts, a, b, TargetTokens(x, i), CheckIn(i, a.env), TargetCode(Find(a.env.vars, x).value, i, a.env.vars)) &&
    (b.errors == 0 ==> Shaped(i) && Words64(i))
  }

  lemma TargetBuilds(ts: seq<Token>, a: Snap, s0: Snap, s1: Snap, s2: Snap, b: Snap, x: string, i: Expr)
    requires KindAt(ts, a.curr) == TIdent(x) && KindAt(ts, a.curr + 1) == TLBracket && Indexable(a.env, x)
    requires s0 == a.(curr := a.curr + 2, bytes := s0.bytes) && Appends(a.bytes, s0.bytes, [DesignatedOf(Find(a.env.vars, x).value), PushRax])
    requires Read(ts, s0, s1, PrintExpr(i), CheckIn(i, a.env), CompileExpr(i, a.env.vars)) && Moves(s0, s1)
    requires s1.errors == 0 ==> Shaped(i) && Words64(i)
    requires Emits(s1, s2, IndexTail(Find(a.env.vars, x).value)) && Expects(ts, s2, b, TRBracket)
    ensures TargetBuilt(ts, a, b, x, i)
  {
    hide Read, Find, PrintExpr, CompileExpr, Appends, CheckExpr, DesignatedOf, IndexTail, Shaped, Words64;
    var v, c, chk, head := Find(a.env.vars, x).value, CompileExpr(i, a.env.vars), CheckIn(i, a.env), [TIdent(x), TLBracket];
    BaseRead(ts, a, s0, x, v);
    ReadThen(ts, a, s0, s1, head, PrintExpr(i), Some(a.env), chk, [DesignatedOf(v), PushRax], c);
    ReadEmit(ts, a, s1, s2, head + PrintExpr(i), chk, [DesignatedOf(v), PushRax] + c, IndexTail(v));
    ReadToken(ts, a, s2, b, head + PrintExpr(i), chk, [DesignatedOf(v), PushRax] + c + IndexTail(v), TRBracket);
  }

  lemma BaseRead(ts: seq<Token>, a: Snap, b: Snap, x: string, v: VarInfo)
    requires KindAt(ts, a.curr) == TIdent(x) && KindAt(ts, a.curr + 1) == TLBracket
    requires b == a.(curr := a.curr + 2, bytes := b.bytes) && Appends(a.bytes, b.bytes, [DesignatedOf(v), PushRax])
    ensures Read(ts, a, b, [TIdent(x), TLBracket], Some(a.env), [DesignatedOf(v), PushRax])
  {
    hide Sees;
    TwoTokens(ts, a.curr, TIdent(x), TLBracket);
    Grows(a.bytes, b.bytes, [DesignatedOf(v), PushRax]);
  }

  function ElementTail(v: VarInfo): Code {
    [PopRcx, XchgRaxRcx, StoreAt(v.ty.base.Width())]
  }

  lemma ElementBuilds(ts: seq<Token>, a: Snap, m: Snap, s4: Snap, s5: Snap, s6: Snap, s7: Snap, b: Snap, x: string, i: Expr, e: Expr)
    requires TargetBuilt(ts, a, m, x, i) && KindAt(ts, m.curr) == TAssign && s4 == m.(curr := m.curr + 1) && Emits(s4, s5, [PushRax])
    requires Read(ts, s5, s6, PrintExpr(e), CheckIn(e, m.env), CompileExpr(e, m.env.vars)) && Moves(s5, s6)
    requires s6.errors == 0 ==> Shaped(e) && Words64(e)
    requires Emits(s6, s7, ElementTail(Find(a.env.vars, x).value)) && Expects(ts, s7, b, TSemi)
    ensures StmtBuilt(ts, a, b, StoreIndex(x, i, e))
  {
    hide Read, Find, PrintExpr, CompileExpr, Appends, CheckExpr, TargetTokens, TargetCode, Shaped, Words64, CheckStmt, CompileStmt, PrintStmt;
    var v, c, chk, head := Find(a.env.vars, x).value, CompileExpr(e, a.env.vars), CheckIn(e, m.env), TargetTokens(x, i);
    var target, chki := TargetCode(v, i, a.env.vars), CheckIn(i, a.env);
    ReadToken(ts, a, m, s4, head, chki, target, TAssign);
    ReadEmit(ts, a, s4, s5, head + [TAssign], chki, target, [PushRax]);
    ReadThen(ts, a, s5, s6, head + [TAssign], PrintExpr(e), chki, chk, target + [PushRax], c);
    ReadEmit(ts, a, s6, s7, head + [TAssign] + PrintExpr(e), chk, target + [PushRax] + c, ElementTail(v));
    if s7.errors == 0 { ReadChecked(ts, a, m, head, chki, target); }
    else { ReadFails(ts, a, s7, head + [TAssign] + PrintExpr(e), chk, CheckStmt(StoreIndex(x, i, e), a.env), target + [PushRax] + c + ElementTail(v)); }
    ElementParts(x, i, e, a.env, v);
    SemiBuilds(ts, a, s7, b, StoreIndex(x, i, e), head + [TAssign] + PrintExpr(e));
  }

  lemma ElementParts(x: string, i: Expr, e: Expr, env: Env, v: VarInfo)
    requires Find(env.vars, x) == Some(v) && Indexable(env, x)
    ensures CompileStmt(StoreIndex(x, i, e), env.vars) ==
            TargetCode(v, i, env.vars) + [PushRax] + CompileExpr(e, env.vars) + ElementTail(v)
    ensures PrintStmt(StoreIndex(x, i, e)) == TargetTokens(x, i) + [TAssign] + PrintExpr(e) + [TSemi]
    ensures CheckIn(i, env).Some? ==> CheckStmt(StoreIndex(x, i, e), env) == CheckIn(e, CheckIn(i, env).value)
  {
    hide CompileExpr, CheckExpr, PrintExpr;
  }

  lemma ElementFound(ts: seq<Token>, a: Snap, h: Stmt)
    requires StmtDue(ts, a, h) && h.StoreIndex?
    ensures Indexable(a.env, h.x) && Sees(ts, a.curr + 2, PrintExpr(h.i)) && Shaped(h.i) && CheckIn(h.i, a.env).Some?
    ensures KindAt(ts, a.curr + 2 + |PrintExpr(h.i)|) == TRBracket && KindAt(ts, a.curr + 3 + |PrintExpr(h.i)|) == TAssign
  {
    hide Sees, PrintExpr, CheckExpr, Shaped, Find;
    var head, i, e := [TIdent(h.x), TLBracket], PrintExpr(h.i), PrintExpr(h.e);
    SemiSplit(ts, a.curr, head + i + [TRBracket, TAssign] + e);
    SeesSplit(ts, a.curr, head + i + [TRBracket, TAssign], e);
    SeesSplit(ts, a.curr, head + i, [TRBracket, TAssign]);
    SeesSplit(ts, a.curr, head, i);
    TwoTokens(ts, a.curr + 2 + |i|, TRBracket, TAssign);
  }

  lemma ElementValueFound(ts: seq<Token>, a: Snap, m: Snap, h: Stmt)
    requires StmtDue(ts, a, h) && h.StoreIndex? && m.errors == 0
    requires m.curr == a.curr + 4 + |PrintExpr(h.i)| && Some(m.env) == CheckIn(h.i, a.env)
    ensures ExprDue(ts, m, h.e) && KindAt(ts, m.curr + |PrintExpr(h.e)|) == TSemi
  {
    hide Sees, PrintExpr, CheckExpr, Shaped, Find;
    var head, i, e := [TIdent(h.x), TLBracket], PrintExpr(h.i), PrintExpr(h.e);
    SemiSplit(ts, a.curr, head + i + [TRBracket, TAssign] + e);
    SeesSplit(ts, a.curr, head + i + [TRBracket, TAssign], e);
  }

  // ----- return -----

  lemma ReturnBuilds(ts: seq<Token>, a: Snap, s1: Snap, s2: Snap, s3: Snap, b: Snap, e: Option<Expr>)
    requires KindAt(ts, a.curr) == TReturn && s1 == a.(curr := a.curr + 1)
    requires Read(ts, s1, s2, PrintOpt(e), CheckOpt(e, a.env), ResultCode(e, a.env.vars)) && s2.env.vars == a.env.vars
    requires s2.errors == 0 ==> ShapedOpt(e) && Words64Opt(e)
    requires Emits(s2, s3, Epilogue) && Expects(ts, s3, b, TSemi)
    ensures StmtBuilt(ts, a, b, Return(e))
  {
    hide Read, PrintOpt, ResultCode, Appends, CheckOpt, ShapedOpt, Words64Opt, Epilogue, CompileExpr;
    var c, chk := ResultCode(e, a.env.vars), CheckOpt(e, a.env);
    TokenRead(ts, a, s1, TReturn);
    ReadThen(ts, a, s1, s2, [TReturn], PrintOpt(e), Some(a.env), chk, [], c);
    ReadEmit(ts, a, s2, s3, [TReturn] + PrintOpt(e), chk, [] + c, Epilogue);
    assert [] + c + Epilogue == c + Epilogue;
    ReturnParts(e, a.env.vars);
    ReadCurr(ts, s1, s2, PrintOpt(e), chk, c);
    SemiBuilds(ts, a, s3, b, Return(e), [TReturn] + PrintOpt(e));
  }

  function ResultCode(e: Option<Expr>, vs: Table): Code {
    match e case None => [MovRaxImm(0)] case Some(x) => CompileExpr(x, vs)
  }

  lemma ReturnParts(e: Option<Expr>, vs: Table)
    ensures CompileStmt(Return(e), vs) == ResultCode(e, vs) + Epilogue
  {
  }

  lemma ReturnFound(ts: seq<Token>, a: Snap, h: Stmt)
    requires StmtDue(ts, a, h) && h.Return?
    ensures KindAt(ts, a.curr + 1) == TSemi <==> h.result.None?
    ensures h.result.Some? ==> ExprDue(ts, a.(curr := a.curr + 1), h.result.value)
    ensures KindAt(ts, a.curr + 1 + |PrintOpt(h.result)|) == TSemi
  {
    hide Sees, PrintExpr, CheckExpr;
    SemiSplit(ts, a.curr, [TReturn] + PrintOpt(h.result));
    SeesSplit(ts, a.curr, [TReturn], PrintOpt(h.result));
    if h.result.Some? { ExprStarts(ts, a.curr + 1, h.result.value); }
  }

  /** The first token of an expression. */
  lemma ExprStarts(ts: seq<Token>, p: nat, e: Expr)
    requires Shaped(e) && Sees(ts, p, PrintExpr(e))
    ensures PrimaryStart(KindAt(ts, p)) || KindAt(ts, p) == TMinus
  {
    StartsExpr(e);
    SeesAt(ts, p, PrintExpr(e), 0);
  }

  // ----- whole steps of simple statements -----

  lemma BumpDue(ts: seq<Token>, a: Snap, h: Stmt, x: string, up: bool, post: bool)
    requires StmtDue(ts, a, h) && BumpAt(ts, a.curr, x, up, post)
    ensures h == BumpStmt(x, up, post) && CheckBump(x, a.env).Some? && KindAt(ts, a.curr + 2) == TSemi && a.errors == 0
  {
    hide StmtDue, CheckBump;
    DueHead(ts, a, h);
    BumpStmtFound(ts, a, h);
  }

  lemma BumpStmtStep(ts: seq<Token>, a: Snap, s1: Snap, m: Snap, b: Snap, h: Stmt, x: string, up: bool, post: bool)
    requires BumpAt(ts, a.curr, x, up, post) && s1 == a.(curr := a.curr + 2) && CheckBump(x, a.env).Some?
    requires Emits(s1, m, [BumpOf(Find(a.env.vars, x).value, up)]) && Expects(ts, m, b, TSemi)
    ensures StmtStep(ts, a, b, h, BumpStmt(x, up, post))
  {
    hide Sees, Appends, Find, StmtDue, StmtBuilt, BumpBuilt;
    BumpStepped(ts, a, s1, m, x, up, post);
    BumpStmtBuilds(ts, a, m, b, x, up, post);
    if StmtDue(ts, a, h) { BumpDue(ts, a, h, x, up, post); }
  }

  lemma ThroughDue(ts: seq<Token>, a: Snap, h: Stmt, x: string)
    requires StmtDue(ts, a, h) && KindAt(ts, a.curr) == TStar && KindAt(ts, a.curr + 1) == TIdent(x)
    ensures h.StoreThrough? && h.x == x && Storable(a.env, x) && ExprDue(ts, a.(curr := a.curr + 3), h.e)
    ensures KindAt(ts, a.curr + 2) == TAssign && KindAt(ts, a.curr + 3 + |PrintExpr(h.e)|) == TSemi
  {
    hide StmtDue, PrintExpr, ExprDue, Storable;
    DueHead(ts, a, h);
    ThroughFound(ts, a, h);
  }

  lemma ThroughStep(ts: seq<Token>, a: Snap, s1: Snap, s2: Snap, s3: Snap, b: Snap, h: Stmt, x: string, he: Expr, e: Expr, t: Type)
    requires KindAt(ts, a.curr) == TStar && KindAt(ts, a.curr + 1) == TIdent(x) && KindAt(ts, a.curr + 2) == TAssign
    requires s1 == a.(curr := a.curr + 3) && Storable(a.env, x) && ExprStep(ts, s1, s2, 0, he, e, t)
    requires he == (if h.StoreThrough? then h.e else Num(0))
    requires Emits(s2, s3, ThroughTail(Find(a.env.vars, x).value)) && Expects(ts, s3, b, TSemi)
    ensures StmtStep(ts, a, b, h, StoreThrough(x, e))
  {
    hide Reads, Appends, ExprStep, CompileExpr, CheckIn, PrintExpr, Shaped, Words64, StmtDue, StmtBuilt, ThroughTail, Find;
    ExprRead(ts, s1, s2, he, e, t);
    ThroughBuilds(ts, a, s1, s2, s3, b, x, e);
    if StmtDue(ts, a, h) {
      ThroughDue(ts, a, h, x);
      DueFound(ts, s1, s2, he, e, t);
    }
  }

  /** A due expression is found, and the parser stops right after it. */
  lemma DueFound(ts: seq<Token>, a: Snap, b: Snap, h: Expr, e: Expr, t: Type)
    requires ExprDue(ts, a, h) && ExprStep(ts, a, b, 0, h, e, t)
    ensures b.errors == 0 && e == h && b.curr == a.curr + |PrintExpr(h)| && CheckIn(h, a.env) == Some(b.env)
  {
    hide Sees, Appends, CheckExpr, Shaped;
    DueExpected(ts, a, h);
  }

  lemma ReturnStep(ts: seq<Token>, a: Snap, s1: Snap, s2: Snap, s3: Snap, b: Snap, h: Stmt, he: Expr, e: Option<Expr>, t: Type)
    requires KindAt(ts, a.curr) == TReturn && s1 == a.(curr := a.curr + 1) && (e.None? <==> KindAt(ts, s1.curr) == TSemi)
    requires match e case None => Emits(s1, s2, [MovRaxImm(0)]) case Some(x) => ExprStep(ts, s1, s2, 0, he, x, t)
    requires h.Return? && h.result.Some? ==> he == h.result.value
    requires Emits(s2, s3, Epilogue) && Expects(ts, s3, b, TSemi)
    ensures StmtStep(ts, a, b, h, Return(e))
  {
    hide Reads, Appends, ExprStep, CompileExpr, CheckIn, PrintExpr, Shaped, Words64, StmtDue, StmtBuilt, Epilogue;
    match e {
      case None => EmitRead(ts, s1, s2, [MovRaxImm(0)]);
      case Some(x) => ExprRead(ts, s1, s2, he, x, t);
    }
    ReturnBuilds(ts, a, s1, s2, s3, b, e);
    if StmtDue(ts, a, h) {
      DueHead(ts, a, h);
      ReturnFound(ts, a, h);
      if e.Some? { DueFound(ts, s1, s2, he, e.value, t); }
    }
  }

  ghost predicate TargetDue(ts: seq<Token>, a: Snap, i: Expr) {
    ExprDue(ts, a.(curr := a.curr + 2), i) && KindAt(ts, a.curr + 2 + |PrintExpr(i)|) == TRBracket
  }

  lemma TargetStep(ts: seq<Token>, a: Snap, s0: Snap, s1: Snap, s2: Snap, b: Snap, x: string, h: Expr, i: Expr, t: Type)
    requires KindAt(ts, a.curr) == TIdent(x) && KindAt(ts, a.curr + 1) == TLBracket && Indexable(a.env, x)
    requires s0 == a.(curr := a.curr + 2, bytes := s0.bytes) && Appends(a.bytes, s0.bytes, [DesignatedOf(Find(a.env.vars, x).value), PushRax])
    requires ExprStep(ts, s0, s1, 0, h, i, t)
    requires Emits(s1, s2, IndexTail(Find(a.env.vars, x).value)) && Expects(ts, s2, b, TRBracket)
    ensures TargetBuilt(ts, a, b, x, i) && a.curr < b.curr
    ensures TargetDue(ts, a, h) ==> b.errors == 0 && i == h && b.curr == a.curr + 3 + |PrintExpr(h)| && CheckIn(h, a.env) == Some(b.env)
  {
    hide Reads, Appends, ExprStep, CompileExpr, CheckIn, PrintExpr, Shaped, Words64, Find, TargetBuilt, IndexTail, DesignatedOf, TargetDue, Emits;
    assert TargetBuilt(ts, a, b, x, i) by {
      ExprRead(ts, s0, s1, h, i, t);
      TargetBuilds(ts, a, s0, s1, s2, b, x, i);
    }
    TargetGrows(ts, a, b, x, i);
    if TargetDue(ts, a, h) {
      TargetFound(ts, a, s0, s1, h, i, t);
      EmitsOnly(s1, s2, IndexTail(Find(a.env.vars, x).value));
    }
  }

  lemma TargetFound(ts: seq<Token>, a: Snap, s0: Snap, s1: Snap, h: Expr, i: Expr, t: Type)
    requires TargetDue(ts, a, h) && s0 == a.(curr := a.curr + 2, bytes := s0.bytes) && ExprStep(ts, s0, s1, 0, h, i, t)
    ensures s1.errors == 0 && i == h && s1.curr == a.curr + 2 + |PrintExpr(h)| && KindAt(ts, s1.curr) == TRBracket
    ensures CheckIn(h, a.env) == Some(s1.env)
  {
    hide ExprStep, ExprDue, PrintExpr, CheckExpr;
    SameDue(ts, a.(curr := a.curr + 2), s0, h);
    DueFound(ts, s0, s1, h, i, t);
  }

  /** Whether an expression is due does not depend on the code so far. */
  lemma SameDue(ts: seq<Token>, a: Snap, b: Snap, h: Expr)
    requires ExprDue(ts, a, h) && b == a.(bytes := b.bytes)
    ensures ExprDue(ts, b, h)
  {
  }

  lemma TargetGrows(ts: seq<Token>, a: Snap, b: Snap, x: string, i: Expr)
    requires TargetBuilt(ts, a, b, x, i)
    ensures Grew(a, b) && a.curr < b.curr
  {
  }

  lemma ElementDue(ts: seq<Token>, a: Snap, h: Stmt, x: string)
    requires StmtDue(ts, a, h) && KindAt(ts, a.curr) == TIdent(x) && KindAt(ts, a.curr + 1) == TLBracket
    ensures h.StoreIndex? && h.x == x && Indexable(a.env, x) && TargetDue(ts, a, h.i)
    ensures KindAt(ts, a.curr + 3 + |PrintExpr(h.i)|) == TAssign
  {
    hide StmtDue, PrintExpr, CheckExpr, Shaped, Find, Sees;
    DueHead(ts, a, h);
    ElementFound(ts, a, h);
  }

  /** The address of the element of an expected h has been read. */
  predicate ValueDue(a: Snap, m: Snap, h: Stmt, x: string, i: Expr) {
    h.StoreIndex? && h.x == x && h.i == i && m.errors == 0 && m.curr == a.curr + 3 + |PrintExpr(i)| && CheckIn(i, a.env) == Some(m.env)
  }

  lemma ElementStep(ts: seq<Token>, a: Snap, m: Snap, s4: Snap, s5: Snap, s6: Snap, s7: Snap, b: Snap, h: Stmt,
                    x: string, i: Expr, he: Expr, e: Expr, t: Type)
    requires KindAt(ts, m.curr) == TAssign && TargetBuilt(ts, a, m, x, i)
    requires s4 == m.(curr := m.curr + 1) && Emits(s4, s5, [PushRax]) && ExprStep(ts, s5, s6, 0, he, e, t)
    requires Emits(s6, s7, ElementTail(Find(a.env.vars, x).value)) && Expects(ts, s7, b, TSemi)
    requires StmtDue(ts, a, h) ==> ValueDue(a, m, h, x, i) && he == h.e
    ensures StmtStep(ts, a, b, h, StoreIndex(x, i, e))
  {
    hide Reads, Appends, ExprStep, CompileExpr, CheckIn, PrintExpr, Shaped, Words64, StmtDue, StmtBuilt, TargetBuilt, Find, ElementTail;
    ExprRead(ts, s5, s6, he, e, t);
    assert m.env.vars == a.env.vars && Indexable(a.env, x) by { TargetKeeps(ts, a, m, x, i); }
    ElementBuilds(ts, a, m, s4, s5, s6, s7, b, x, i, e);
    if StmtDue(ts, a, h) {
      ElementValueFound(ts, a, s5, h);
      DueFound(ts, s5, s6, he, e, t);
    }
  }

  lemma TargetKeeps(ts: seq<Token>, a: Snap, b: Snap, x: string, i: Expr)
    requires TargetBuilt(ts, a, b, x, i)
    ensures b.env.vars == a.env.vars && Indexable(a.env, x)
  {
  }

  // ----- names that start no statement -----

  /** From p the parser skips to stop, the next semicolon or the end, and goes on at q. */
  ghost predicate SkipsTo(ts: seq<Token>, p: nat, stop: nat, q: nat) {
    p <= stop && (forall i :: p <= i < stop ==> KindAt(ts, i) != TSemi && KindAt(ts, i) != TEof) &&
    if KindAt(ts, stop) == TSemi then q == stop + 1 else KindAt(ts, stop) == TEof && q == stop
  }

  function SkippedAt(ts: seq<Token>, p: nat, stop: nat): Stmt
    requires KindAt(ts, p).TIdent? && p < stop
  {
    Skipped(KindAt(ts, p).name, seq(stop - p - 1, i requires 0 <= i < stop - p - 1 => KindAt(ts, p + 1 + i)), KindAt(ts, stop) == TSemi)
  }

  lemma SkippedStep(ts: seq<Token>, a: Snap, b: Snap, h: Stmt, stop: nat)
    requires KindAt(ts, a.curr).TIdent? && !StartsAfterName(KindAt(ts, a.curr + 1))
    requires SkipsTo(ts, a.curr, stop, b.curr) && b == a.(curr := b.curr) && a.curr < stop
    ensures StmtStep(ts, a, b, h, SkippedAt(ts, a.curr, stop))
  {
    hide Appends, Sees, StmtDue, KindAt;
    var s := SkippedAt(ts, a.curr, stop);
    AppendsNothing(a.bytes);
    SkippedSeen(ts, a.curr, b.curr, stop);
    if StmtDue(ts, a, h) { SkippedFound(ts, a, h, stop, b.curr); }
  }

  lemma SkippedPrints(x: string, ks: seq<Tok>, closed: bool)
    ensures var s := Skipped(x, ks, closed);
            PrintStmt(s) == [TIdent(x)] + (ks + if closed then [TSemi] else []) && (ShapedStmt(s) <==> SkippedTokens(ks))
  {
  }

  lemma SkippedSeen(ts: seq<Token>, p: nat, q: nat, stop: nat)
    requires KindAt(ts, p).TIdent? && p < stop && SkipsTo(ts, p, stop, q) && !StartsAfterName(KindAt(ts, p + 1))
    ensures var s := SkippedAt(ts, p, stop); Sees(ts, p, PrintStmt(s)) && ShapedStmt(s) && q == p + |PrintStmt(s)|
  {
    hide Sees, PrintStmt, ShapedStmt, StartsAfterName;
    var s := SkippedAt(ts, p, stop);
    SkippedPrints(s.x, s.ks, s.closed);
    OneToken(ts, p, TIdent(s.x));
    StretchSeen(ts, p + 1, stop, s.ks);
    if s.closed { OneToken(ts, stop, TSemi); } else { SeesNothing(ts, stop); }
    SeesSplit(ts, p + 1, s.ks, if s.closed then [TSemi] else []);
    SeesSplit(ts, p, [TIdent(s.x)], s.ks + if s.closed then [TSemi] else []);
  }

  lemma SeesNothing(ts: seq<Token>, p: nat)
    ensures Sees(ts, p, [])
  {
  }

  lemma StretchSeen(ts: seq<Token>, p: nat, stop: nat, ks: seq<Tok>)
    requires p + |ks| == stop && forall i :: 0 <= i < |ks| ==> ks[i] == KindAt(ts, p + i)
    requires forall i :: p <= i < stop ==> KindAt(ts, i) != TSemi && KindAt(ts, i) != TEof
    requires !StartsAfterName(KindAt(ts, p))
    ensures Sees(ts, p, ks) && SkippedTokens(ks)
  {
    if ks != [] {
      assert KindAt(ts, stop - 1) != TEof;
      forall k | 0 <= k < |ks| ensures p + |ks| <= |ts| && ts[p + k].kind == ks[k] { assert ks[k] == KindAt(ts, p + k); }
    }
  }

  /** Both stop at the first semicolon or the end. */
  lemma SkippedFound(ts: seq<Token>, a: Snap, h: Stmt, stop: nat, q: nat)
    requires StmtDue(ts, a, h) && KindAt(ts, a.curr).TIdent? && !StartsAfterName(KindAt(ts, a.curr + 1))
    requires SkipsTo(ts, a.curr, stop, q) && a.curr < stop
    ensures a.errors == 0 && h == SkippedAt(ts, a.curr, stop)
  {
    hide StmtDue, SkipsTo, Sees;
    DueHead(ts, a, h);
    SkippedDue(ts, a, h);
    StretchEnds(ts, a.curr, h, stop, q);
  }

  lemma SkippedDue(ts: seq<Token>, a: Snap, h: Stmt)
    requires StmtDue(ts, a, h) && h.Skipped?
    ensures Sees(ts, a.curr, PrintStmt(h)) && SkippedTokens(h.ks) && (h.closed || KindAt(ts, a.curr + 1 + |h.ks|) == TEof)
  {
    hide Sees;
    SkippedPrints(h.x, h.ks, h.closed);
  }

  lemma StretchEnds(ts: seq<Token>, p: nat, h: Stmt, stop: nat, q: nat)
    requires h.Skipped? && Sees(ts, p, PrintStmt(h)) && SkippedTokens(h.ks) && (h.closed || KindAt(ts, p + 1 + |h.ks|) == TEof)
    requires KindAt(ts, p) == TIdent(h.x) && SkipsTo(ts, p, stop, q) && p < stop
    ensures h == SkippedAt(ts, p, stop)
  {
    hide Sees, PrintStmt;
    SkippedPrints(h.x, h.ks, h.closed);
    var n, tail := p + 1 + |h.ks|, if h.closed then [TSemi] else [];
    SeesSplit(ts, p, [TIdent(h.x)], h.ks + tail);
    SeesSplit(ts, p + 1, h.ks, tail);
    if h.closed { OneToken(ts, n, TSemi); }
    forall i | p < i < n ensures KindAt(ts, i) == h.ks[i - p - 1] { SeesAt(ts, p + 1, h.ks, i - p - 1); }
    assert n == stop;
  }
}
