/** Step lemmas for blocks, statement lists and the statements with jumps. */
module ParseControl {
  import opened Words
  import opened Instructions
  import opened Machine
  import opened Syntax
  import opened CodeGen
  import opened Emitter
  import opened Backpatch
  import opened Grammar
  import opened Encodings
  import opened ParseExpr
  import opened ParseStmt

  // ----- blocks and lists -----

  ghost predicate BlockBuilt(ts: seq<Token>, a: Snap, b: Snap, k: Block) {
    a.curr < b.curr && Read(ts, a, b, PrintBlock(k), CheckBlock(k, a.env), CompileBlock(k, b.env.vars)) &&
    (b.errors == 0 ==> ShapedBlock(k) && Words64Block(k) && BlockPrecedes(k, KindAt(ts, b.curr)))
  }

  ghost predicate BlockDue(ts: seq<Token>, a: Snap, h: Block) {
    a.errors == 0 && ShapedBlock(h) && Sees(ts, a.curr, PrintBlock(h)) && CheckBlock(h, a.env).Some? &&
    BlockPrecedes(h, KindAt(ts, a.curr + |PrintBlock(h)|))
  }

  ghost predicate BlockStep(ts: seq<Token>, a: Snap, b: Snap, h: Block, k: Block) {
    BlockBuilt(ts, a, b, k) && (BlockDue(ts, a, h) ==> b.errors == 0 && k == h)
  }

  ghost predicate StmtsBuilt(ts: seq<Token>, a: Snap, b: Snap, ss: Stmts) {
    Read(ts, a, b, PrintStmts(ss), CheckStmts(ss, a.env), CompileStmts(ss, b.env.vars)) &&
    (b.errors == 0 ==> ShapedStmts(ss, KindAt(ts, b.curr)) && Words64Stmts(ss))
  }

  /** What ends a list: the end of the text, or inside a block its brace. */
  predicate EndsList(k: Tok, inner: bool) {
    k == TEof || (inner && k == TRBrace)
  }

  ghost predicate StmtsDue(ts: seq<Token>, a: Snap, h: Stmts, inner: bool) {
    var end := KindAt(ts, a.curr + |PrintStmts(h)|);
    a.errors == 0 && ShapedStmts(h, end) && Sees(ts, a.curr, PrintStmts(h)) && CheckStmts(h, a.env).Some? && EndsList(end, inner)
  }

  ghost predicate StmtsStep(ts: seq<Token>, a: Snap, b: Snap, h: Stmts, inner: bool, ss: Stmts) {
    StmtsBuilt(ts, a, b, ss) && (StmtsDue(ts, a, h, inner) ==> b.errors == 0 && ss == h)
  }

  lemma OneBuilt(ts: seq<Token>, a: Snap, b: Snap, h: Block, s: Stmt)
    requires StmtStep(ts, a, b, (if h.One? then h.s else Return(None)), s) && KindAt(ts, a.curr) != TLBrace
    ensures BlockStep(ts, a, b, h, One(s))
  {
    hide Sees, Appends, PrintStmt, CheckStmt, CompileStmt, ShapedStmt, Words64Stmt, Precedes, PrintStmts, CheckStmts, ShapedStmts;
    if BlockDue(ts, a, h) && h.Braces? {
      SeesSplit(ts, a.curr, [TLBrace] + PrintStmts(h.ss), [TRBrace]);
      SeesSplit(ts, a.curr, [TLBrace], PrintStmts(h.ss));
      OneToken(ts, a.curr, TLBrace);
    }
  }

  lemma BracesBuilt(ts: seq<Token>, a: Snap, s1: Snap, s2: Snap, b: Snap, ss: Stmts)
    requires KindAt(ts, a.curr) == TLBrace && s1 == a.(curr := a.curr + 1)
    requires StmtsBuilt(ts, s1, s2, ss) && Expects(ts, s2, b, TRBrace)
    ensures BlockBuilt(ts, a, b, Braces(ss))
  {
    hide Sees, Appends, PrintStmts, CheckStmts, CompileStmts, ShapedStmts, Words64Stmts, Read;
    var c, chk := CompileStmts(ss, s2.env.vars), CheckStmts(ss, a.env);
    TokenRead(ts, a, s1, TLBrace);
    ReadThen(ts, a, s1, s2, [TLBrace], PrintStmts(ss), Some(a.env), chk, [], c);
    ReadToken(ts, a, s2, b, [TLBrace] + PrintStmts(ss), chk, [] + c, TRBrace);
    assert [] + c == c;
    ReadCurr(ts, s1, s2, PrintStmts(ss), chk, c);
  }

  lemma BracesFound(ts: seq<Token>, a: Snap, h: Block)
    requires BlockDue(ts, a, h) && KindAt(ts, a.curr) == TLBrace
    ensures h.Braces? && StmtsDue(ts, a.(curr := a.curr + 1), h.ss, true)
    ensures KindAt(ts, a.curr + 1 + |PrintStmts(h.ss)|) == TRBrace
  {
    hide Sees, PrintStmts, CheckStmts, ShapedStmts, PrintStmt;
    match h
    case One(s) => StmtStarts(ts, a.curr, s);
    case Braces(ss) =>
      SeesSplit(ts, a.curr, [TLBrace] + PrintStmts(ss), [TRBrace]);
      SeesSplit(ts, a.curr, [TLBrace], PrintStmts(ss));
      OneToken(ts, a.curr + 1 + |PrintStmts(ss)|, TRBrace);
  }

  // ----- the statement loop -----

  function Snoc(ss: Stmts, s: Stmt): Stmts {
    match ss case Nil => Cons(s, Nil) case Cons(t, rest) => Cons(t, Snoc(rest, s))
  }

  function Join(ss: Stmts, rest: Stmts): Stmts {
    match ss case Nil => rest case Cons(t, tail) => Cons(t, Join(tail, rest))
  }

  lemma {:induction false} JoinSnoc(ss: Stmts, s: Stmt, rest: Stmts)
    ensures Join(Snoc(ss, s), rest) == Join(ss, Cons(s, rest))
  {
    if ss.Cons? { JoinSnoc(ss.tail, s, rest); }
  }

  lemma {:induction false} JoinNil(ss: Stmts)
    ensures Join(ss, Nil) == ss
  {
    if ss.Cons? { JoinNil(ss.tail); }
  }

  lemma {:induction false} SnocPrints(ss: Stmts, s: Stmt)
    ensures PrintStmts(Snoc(ss, s)) == PrintStmts(ss) + PrintStmt(s)
    ensures Words64Stmts(Snoc(ss, s)) <==> Words64Stmts(ss) && Words64Stmt(s)
  {
    hide PrintStmt, Words64Stmt;
    match ss
    case Nil => assert PrintStmt(s) + [] == PrintStmt(s);
    case Cons(t, rest) =>
      SnocPrints(rest, s);
      assert PrintStmt(t) + (PrintStmts(rest) + PrintStmt(s)) == PrintStmt(t) + PrintStmts(rest) + PrintStmt(s);
  }

  lemma {:induction false} SnocShaped(ss: Stmts, s: Stmt, end: Tok)
    ensures ShapedStmts(Snoc(ss, s), end) <==> ShapedStmts(ss, PrintStmt(s)[0]) && ShapedStmt(s) && Precedes(s, end)
  {
    hide PrintStmt, ShapedStmt, Precedes;
    if ss.Cons? { SnocShaped(ss.tail, s, end); }
  }

  lemma {:induction false} SnocChecks(ss: Stmts, s: Stmt, env: Env)
    ensures CheckStmts(Snoc(ss, s), env) ==
            match CheckStmts(ss, env) case None => None case Some(env1) => CheckStmt(s, env1)
  {
    hide CheckStmt;
    if ss.Cons? && CheckStmt(ss.head, env).Some? { SnocChecks(ss.tail, s, CheckStmt(ss.head, env).value); }
  }

  lemma {:induction false} SnocCompiles(ss: Stmts, s: Stmt, vs: Table)
    ensures CompileStmts(Snoc(ss, s), vs) == CompileStmts(ss, vs) + CompileStmt(s, vs)
  {
    hide CompileStmt;
    match ss
    case Nil => assert CompileStmt(s, vs) + [] == CompileStmt(s, vs);
    case Cons(t, rest) =>
      SnocCompiles(rest, s, vs);
      assert CompileStmt(t, vs) + (CompileStmts(rest, vs) + CompileStmt(s, vs)) == CompileStmt(t, vs) + CompileStmts(rest, vs) + CompileStmt(s, vs);
  }

  lemma NothingBuilt(ts: seq<Token>, a: Snap)
    ensures StmtsBuilt(ts, a, a, Nil)
  {
    AppendsNothing(a.bytes);
  }

  /** One more statement at the end of the list. */
  lemma SnocBuilt(ts: seq<Token>, a: Snap, m: Snap, b: Snap, ss: Stmts, s: Stmt)
    requires StmtsBuilt(ts, a, m, ss) && StmtBuilt(ts, m, b, s)
    ensures StmtsBuilt(ts, a, b, Snoc(ss, s))
  {
    hide Sees, Appends, PrintStmts, CheckStmts, CompileStmts, ShapedStmts, Words64Stmts, Read;
    hide PrintStmt, CheckStmt, CompileStmt, ShapedStmt, Words64Stmt, Precedes, Snoc;
    var vs := b.env.vars;
    SnocPrints(ss, s);
    SnocShaped(ss, s, KindAt(ts, b.curr));
    SnocChecks(ss, s, a.env);
    SnocCompiles(ss, s, vs);
    ReadThen(ts, a, m, b, PrintStmts(ss), PrintStmt(s), CheckStmts(ss, a.env), CheckStmt(s, m.env), CompileStmts(ss, m.env.vars), CompileStmt(s, vs));
    if b.errors == 0 {
      ReadStarts(ts, m, b, s);
      ReadChecked(ts, m, b, PrintStmt(s), CheckStmt(s, m.env), CompileStmt(s, vs));
      ReadChecked(ts, a, m, PrintStmts(ss), CheckStmts(ss, a.env), CompileStmts(ss, m.env.vars));
      StmtsStable(ss, a.env, vs);
    } else {
      ReadGrew(ts, a, b, PrintStmts(ss) + PrintStmt(s), CheckStmt(s, m.env), CompileStmts(ss, m.env.vars) + CompileStmt(s, vs));
      FailedRead(ts, a, b, PrintStmts(Snoc(ss, s)), CheckStmts(Snoc(ss, s), a.env), CompileStmts(Snoc(ss, s), vs));
    }
  }

  lemma ReadStarts(ts: seq<Token>, a: Snap, b: Snap, s: Stmt)
    requires StmtBuilt(ts, a, b, s) && b.errors == 0
    ensures KindAt(ts, a.curr) == PrintStmt(s)[0]
  {
    hide Sees, PrintStmt, CheckStmt, CompileStmt, ShapedStmt, Words64Stmt, Precedes, Appends;
    StmtStarts(ts, a.curr, s);
  }

  lemma ReadGrew(ts: seq<Token>, a: Snap, b: Snap, ks: seq<Tok>, chk: Option<Env>, c: Code)
    requires Read(ts, a, b, ks, chk, c)
    ensures Grew(a, b)
  {
  }

  /** A list that is due and has not ended starts with a statement that is due. */
  lemma HeadDue(ts: seq<Token>, a: Snap, h: Stmts, inner: bool)
    requires StmtsDue(ts, a, h, inner) && !EndsList(KindAt(ts, a.curr), inner)
    ensures h.Cons? && StmtDue(ts, a, h.head)
  {
    hide Sees, PrintStmt, CheckStmt, ShapedStmt;
    assert h.Cons?;
    SeesSplit(ts, a.curr, PrintStmt(h.head), PrintStmts(h.tail));
    if h.tail.Cons? {
      SeesSplit(ts, a.curr + |PrintStmt(h.head)|, PrintStmt(h.tail.head), PrintStmts(h.tail.tail));
      StmtStarts(ts, a.curr + |PrintStmt(h.head)|, h.tail.head);
    }
  }

  /** ... and after it the rest is due. */
  lemma TailDue(ts: seq<Token>, a: Snap, b: Snap, h: Stmts, inner: bool)
    requires StmtsDue(ts, a, h, inner) && h.Cons? && StmtBuilt(ts, a, b, h.head) && b.errors == 0
    ensures StmtsDue(ts, b, h.tail, inner)
  {
    hide Sees, PrintStmt, CheckStmt, ShapedStmt, CompileStmt, Precedes, Words64Stmt, Appends;
    SeesSplit(ts, a.curr, PrintStmt(h.head), PrintStmts(h.tail));
  }

  /** An ended list has no statements left. */
  lemma EndDue(ts: seq<Token>, a: Snap, h: Stmts, inner: bool)
    requires StmtsDue(ts, a, h, inner) && EndsList(KindAt(ts, a.curr), inner)
    ensures h == Nil
  {
    hide Sees, PrintStmt, CheckStmt, ShapedStmt;
    if h.Cons? {
      SeesSplit(ts, a.curr, PrintStmt(h.head), PrintStmts(h.tail));
      StmtStarts(ts, a.curr, h.head);
    }
  }

  lemma StmtGrows(ts: seq<Token>, a: Snap, b: Snap, h: Stmt, s: Stmt)
    requires StmtStep(ts, a, b, h, s)
    ensures a.curr < b.curr && Grew(a, b)
  {
  }

  lemma StmtStepBuilt(ts: seq<Token>, a: Snap, b: Snap, h: Stmt, s: Stmt)
    requires StmtStep(ts, a, b, h, s)
    ensures StmtBuilt(ts, a, b, s)
  {
  }

  lemma StmtsErrorFree(ts: seq<Token>, a: Snap, h: Stmts, inner: bool)
    requires StmtsDue(ts, a, h, inner)
    ensures a.errors == 0
  {
  }

  /** One turn of the statement loop on an expected list. */
  lemma HeadFound(ts: seq<Token>, a: Snap, b: Snap, rest: Stmts, inner: bool, s: Stmt)
    requires StmtsDue(ts, a, rest, inner) && !EndsList(KindAt(ts, a.curr), inner)
    requires StmtStep(ts, a, b, if rest.Cons? then rest.head else Return(None), s)
    ensures rest.Cons? && s == rest.head && StmtsDue(ts, b, rest.tail, inner)
  {
    hide StmtsDue, StmtBuilt, StmtDue;
    HeadDue(ts, a, rest, inner);
    TailDue(ts, a, b, rest, inner);
  }

  lemma BracesStep(ts: seq<Token>, a: Snap, s1: Snap, s2: Snap, b: Snap, h: Block, hs: Stmts, ss: Stmts)
    requires KindAt(ts, a.curr) == TLBrace && s1 == a.(curr := a.curr + 1)
    requires StmtsStep(ts, s1, s2, hs, true, ss) && Expects(ts, s2, b, TRBrace) && (h.Braces? ==> hs == h.ss)
    ensures BlockStep(ts, a, b, h, Braces(ss))
  {
    hide StmtsBuilt, StmtsDue, BlockBuilt, BlockDue, CheckStmts, PrintStmts, ShapedStmts;
    BracesBuilt(ts, a, s1, s2, b, ss);
    if BlockDue(ts, a, h) {
      BracesFound(ts, a, h);
      StmtsEnd(ts, s1, s2, ss);
    }
  }

  lemma StmtsEnd(ts: seq<Token>, a: Snap, b: Snap, ss: Stmts)
    requires StmtsBuilt(ts, a, b, ss) && b.errors == 0
    ensures b.curr == a.curr + |PrintStmts(ss)| && CheckStmts(ss, a.env) == Some(b.env)
  {
    hide Sees, Appends;
  }

  // ----- if and while: keyword ( condition ) test jz -----

  /** s3 follows the closing parenthesis, s4 the test; b follows the blank jz. */
  ghost predicate GuardBuilt(ts: seq<Token>, a: Snap, s3: Snap, s4: Snap, b: Snap, k: Tok, e: Expr) {
    a.curr < b.curr && s3.env.vars == a.env.vars &&
    Read(ts, a, s3, [k, TLParen] + PrintExpr(e) + [TRParen], CheckIn(e, a.env), CompileExpr(e, a.env.vars)) &&
    (s3.errors == 0 ==> Shaped(e) && Words64(e)) && Emits(s3, s4, [TestRaxRax]) && Emits(s4, b, [Jz(0)])
  }

  ghost predicate GuardDue(ts: seq<Token>, a: Snap, h: Expr) {
    KindAt(ts, a.curr + 1) == TLParen && ExprDue(ts, a.(curr := a.curr + 2), h) &&
    KindAt(ts, a.curr + 2 + |PrintExpr(h)|) == TRParen
  }

  lemma GuardBuilds(ts: seq<Token>, a: Snap, s1: Snap, s2: Snap, s3: Snap, s4: Snap, b: Snap, k: Tok, e: Expr)
    requires KindAt(ts, a.curr) == k && k != TEof && Expects(ts, a.(curr := a.curr + 1), s1, TLParen)
    requires Read(ts, s1, s2, PrintExpr(e), CheckIn(e, a.env), CompileExpr(e, a.env.vars)) && Moves(s1, s2)
    requires s2.errors == 0 ==> Shaped(e) && Words64(e)
    requires Expects(ts, s2, s3, TRParen) && Emits(s3, s4, [TestRaxRax]) && Emits(s4, b, [Jz(0)])
    ensures GuardBuilt(ts, a, s3, s4, b, k, e)
  {
    hide Read, PrintExpr, CompileExpr, Appends, CheckExpr, Shaped, Words64;
    var c, chk, m := CompileExpr(e, a.env.vars), CheckIn(e, a.env), a.(curr := a.curr + 1);
    TokenRead(ts, a, m, k);
    ReadToken(ts, a, m, s1, [k], Some(a.env), [], TLParen);
    assert [k] + [TLParen] == [k, TLParen];
    ReadThen(ts, a, s1, s2, [k, TLParen], PrintExpr(e), Some(a.env), chk, [], c);
    assert [] + c == c;
    ReadToken(ts, a, s2, s3, [k, TLParen] + PrintExpr(e), chk, c, TRParen);
  }

  lemma GuardTokens(ts: seq<Token>, a: Snap, k: Tok, e: Expr, rest: seq<Tok>)
    requires Sees(ts, a.curr, [k, TLParen] + PrintExpr(e) + [TRParen] + rest) && k != TEof
    requires a.errors == 0 && Shaped(e) && CheckIn(e, a.env).Some?
    ensures GuardDue(ts, a, e) && Sees(ts, a.curr + 3 + |PrintExpr(e)|, rest) && KindAt(ts, a.curr) == k
  {
    hide Sees, PrintExpr, CheckExpr, Shaped;
    SeesSplit(ts, a.curr, [k, TLParen] + PrintExpr(e) + [TRParen], rest);
    SeesSplit(ts, a.curr, [k, TLParen] + PrintExpr(e), [TRParen]);
    SeesSplit(ts, a.curr, [k, TLParen], PrintExpr(e));
    TwoTokens(ts, a.curr, k, TLParen);
    OneToken(ts, a.curr + 2 + |PrintExpr(e)|, TRParen);
  }

  /** An expected guard was read without errors. */
  predicate GuardMet(a: Snap, b: Snap, h: Expr, e: Expr) {
    b.errors == 0 && e == h && b.curr == a.curr + 3 + |PrintExpr(h)| && CheckIn(h, a.env) == Some(b.env)
  }

  lemma GuardNotEmpty(ts: seq<Token>, a: Snap, s1: Snap, h: Expr)
    requires GuardDue(ts, a, h) && Expects(ts, a.(curr := a.curr + 1), s1, TLParen)
    ensures KindAt(ts, s1.curr) != TRParen && a.errors == 0
  {
    hide CheckExpr, Sees;
    ExprStarts(ts, a.curr + 2, h);
  }

  lemma GuardStep(ts: seq<Token>, a: Snap, s1: Snap, s2: Snap, s3: Snap, s4: Snap, b: Snap, k: Tok, h: Expr, e: Expr, t: Type)
    requires KindAt(ts, a.curr) == k && k != TEof && Expects(ts, a.(curr := a.curr + 1), s1, TLParen)
    requires ExprStep(ts, s1, s2, 0, h, e, t)
    requires Expects(ts, s2, s3, TRParen) && Emits(s3, s4, [TestRaxRax]) && Emits(s4, b, [Jz(0)])
    ensures GuardBuilt(ts, a, s3, s4, b, k, e) && a.curr < b.curr
    ensures GuardDue(ts, a, h) ==> GuardMet(a, b, h, e)
  {
    hide Reads, Appends, ExprStep, CompileExpr, CheckExpr, PrintExpr, Shaped, Words64, ExprDue;
    assert GuardBuilt(ts, a, s3, s4, b, k, e) by {
      ExprRead(ts, s1, s2, h, e, t);
      GuardBuilds(ts, a, s1, s2, s3, s4, b, k, e);
    }
    EmitsOnly(s3, s4, [TestRaxRax]);
    EmitsOnly(s4, b, [Jz(0)]);
    if GuardDue(ts, a, h) { DueFound(ts, s1, s2, h, e, t); }
  }

  /** Patching bytes already emitted. */
  ghost predicate Patched(s: Snap, a: Snap, b: Snap, op: nat) {
    b == a.(bytes := b.bytes) && Patches(s.bytes, a.bytes, b.bytes, op)
  }

  // ----- while -----

  /** Guard and block together. */
  lemma GuardThen(ts: seq<Token>, a: Snap, s3: Snap, s4: Snap, s5: Snap, s6: Snap, k: Tok, e: Expr, body: Block)
    requires GuardBuilt(ts, a, s3, s4, s5, k, e) && BlockBuilt(ts, s5, s6, body)
    ensures Reads(ts, a, s6, [k, TLParen] + PrintExpr(e) + [TRParen] + PrintBlock(body), CheckBlock(body, s5.env))
  {
    hide Reads, PrintExpr, CompileExpr, Appends, CheckExpr, CheckBlock, PrintBlock, CompileBlock, Shaped, Words64, ShapedBlock, Words64Block;
    var head, chk := [k, TLParen] + PrintExpr(e) + [TRParen], CheckIn(e, a.env);
    EmitsOnly(s3, s4, [TestRaxRax]);
    EmitsOnly(s4, s5, [Jz(0)]);
    ReadsOn(ts, a, s3, s5, head, chk);
    ReadsThen(ts, a, s5, s6, head, PrintBlock(body), chk, CheckBlock(body, s5.env));
  }

  lemma GuardChecked(ts: seq<Token>, a: Snap, s3: Snap, s4: Snap, s5: Snap, s6: Snap, k: Tok, e: Expr, body: Block)
    requires GuardBuilt(ts, a, s3, s4, s5, k, e) && BlockBuilt(ts, s5, s6, body) && s6.errors == 0
    ensures CheckIn(e, a.env) == Some(s5.env) && a.errors == 0 && CheckBlock(body, s5.env) == Some(s6.env)
    ensures Shaped(e) && Words64(e)
    ensures a.env.vars == s5.env.vars <= s6.env.vars && CompileExpr(e, s6.env.vars) == CompileExpr(e, a.env.vars)
    ensures Appends(a.bytes, s3.bytes, CompileExpr(e, s6.env.vars)) && Appends(s3.bytes, s4.bytes, [TestRaxRax])
    ensures Appends(s4.bytes, s5.bytes, [Jz(0)]) && Appends(s5.bytes, s6.bytes, CompileBlock(body, s6.env.vars))
  {
    hide PrintExpr, CompileExpr, Appends, CheckExpr, CheckBlock, PrintBlock, CompileBlock, Sees, Shaped, Words64, ShapedBlock, Words64Block;
    ExprStable(e, a.env.vars, s6.env.vars, a.env.inits);
  }

  lemma WhileBuilds(ts: seq<Token>, a: Snap, s3: Snap, s4: Snap, s5: Snap, s6: Snap, s7: Snap, b: Snap, e: Expr, body: Block)
    requires GuardBuilt(ts, a, s3, s4, s5, TWhile, e) && BlockBuilt(ts, s5, s6, body)
    requires Emits(s6, s7, [Jmp(|a.bytes| - (|s6.bytes| + JmpSize))]) && Patched(s4, s7, b, 2)
    ensures StmtBuilt(ts, a, b, While(e, body))
  {
    hide Reads, PrintExpr, CompileExpr, Appends, CheckExpr, CheckBlock, PrintBlock, CompileBlock, Sees, Patches, WhileCode;
    hide Shaped, Words64, ShapedBlock, Words64Block;
    var s, chk := While(e, body), CheckBlock(body, s5.env);
    var back := [Jmp(|a.bytes| - (|s6.bytes| + JmpSize))];
    GuardThen(ts, a, s3, s4, s5, s6, TWhile, e, body);
    EmitsOnly(s6, s7, back);
    PatchKeepsLength(s4.bytes, s7.bytes, b.bytes, 2);
    ReadsOn(ts, a, s6, b, PrintStmt(s), chk);
    if b.errors == 0 {
      GuardChecked(ts, a, s3, s4, s5, s6, TWhile, e, body);
      WhileAppends(a.bytes, s3.bytes, s4.bytes, s5.bytes, s6.bytes, s7.bytes, b.bytes, CompileExpr(e, s6.env.vars), CompileBlock(body, s6.env.vars));
    } else {
      ReadsFails(ts, a, b, PrintStmt(s), chk, CheckStmt(s, a.env));
    }
  }

  lemma WhileFound(ts: seq<Token>, a: Snap, h: Stmt)
    requires StmtDue(ts, a, h) && h.While?
    ensures GuardDue(ts, a, h.c)
  {
    hide Sees, PrintExpr, PrintBlock, CheckExpr, Shaped, CheckBlock, ShapedBlock, GuardDue;
    GuardTokens(ts, a, TWhile, h.c, PrintBlock(h.body));
  }

  lemma WhileBodyFound(ts: seq<Token>, a: Snap, m: Snap, h: Stmt)
    requires StmtDue(ts, a, h) && h.While? && m.errors == 0
    requires m.curr == a.curr + 3 + |PrintExpr(h.c)| && CheckIn(h.c, a.env) == Some(m.env)
    ensures BlockDue(ts, m, h.body)
  {
    hide Sees, PrintExpr, PrintBlock, CheckExpr, Shaped, CheckBlock, ShapedBlock;
    GuardTokens(ts, a, TWhile, h.c, PrintBlock(h.body));
  }

  // ----- if -----

  lemma IfBuilds(ts: seq<Token>, a: Snap, s3: Snap, s4: Snap, s5: Snap, s6: Snap, b: Snap, e: Expr, thn: Block)
    requires GuardBuilt(ts, a, s3, s4, s5, TIf, e) && BlockBuilt(ts, s5, s6, thn) && KindAt(ts, s6.curr) != TElse
    requires Patched(s4, s6, b, 2)
    ensures StmtBuilt(ts, a, b, If(e, thn, None))
  {
    hide Reads, PrintExpr, CompileExpr, Appends, CheckExpr, CheckBlock, PrintBlock, CompileBlock, Sees, Patches, IfCode;
    hide Shaped, Words64, ShapedBlock, Words64Block;
    var s, chk := If(e, thn, None), CheckBlock(thn, s5.env);
    GuardThen(ts, a, s3, s4, s5, s6, TIf, e, thn);
    var head := [TIf, TLParen] + PrintExpr(e) + [TRParen] + PrintBlock(thn);
    assert PrintStmt(s) == head + [] == head;
    PatchKeepsLength(s4.bytes, s6.bytes, b.bytes, 2);
    ReadsOn(ts, a, s6, b, head, chk);
    if b.errors == 0 {
      GuardChecked(ts, a, s3, s4, s5, s6, TIf, e, thn);
      IfAppends(a.bytes, s3.bytes, s4.bytes, s5.bytes, s6.bytes, b.bytes, CompileExpr(e, s6.env.vars), CompileBlock(thn, s6.env.vars));
    } else {
      ReadsFails(ts, a, b, head, chk, CheckStmt(s, a.env));
    }
  }

  /** The jump over the else part is emitted and the first jump patched before the else part is read. */
  lemma IfElseBuilds(ts: seq<Token>, a: Snap, s3: Snap, s4: Snap, s5: Snap, s6: Snap, m: Snap, s7: Snap, s8: Snap, s9: Snap, b: Snap,
                     e: Expr, thn: Block, els: Block)
    requires GuardBuilt(ts, a, s3, s4, s5, TIf, e) && BlockBuilt(ts, s5, s6, thn) && KindAt(ts, s6.curr) == TElse
    requires m == s6.(curr := s6.curr + 1) && Emits(m, s7, [Jmp(0)]) && Patched(s4, s7, s8, 2)
    requires BlockBuilt(ts, s8, s9, els) && Patched(m, s9, b, 1)
    ensures StmtBuilt(ts, a, b, If(e, thn, Some(els)))
  {
    hide Reads, PrintExpr, CompileExpr, Appends, CheckExpr, CheckBlock, PrintBlock, CompileBlock, Sees, Patches, IfCode;
    hide Shaped, Words64, ShapedBlock, Words64Block;
    var s, chk := If(e, thn, Some(els)), CheckBlock(els, s8.env);
    IfElseReads(ts, a, s3, s4, s5, s6, m, s7, s8, s9, e, thn, els);
    PatchKeepsLength(m.bytes, s9.bytes, b.bytes, 1);
    ReadsOn(ts, a, s9, b, PrintStmt(s), chk);
    if b.errors == 0 {
      IfElseChecked(ts, a, s3, s4, s5, s6, m, s7, s8, s9, e, thn, els);
      var vs := b.env.vars;
      IfElseAppends(a.bytes, s3.bytes, s4.bytes, s5.bytes, s6.bytes, s7.bytes, s8.bytes, s9.bytes, b.bytes,
                    CompileExpr(e, vs), CompileBlock(thn, vs), CompileBlock(els, vs));
    } else {
      ReadsFails(ts, a, b, PrintStmt(s), chk, CheckStmt(s, a.env));
    }
  }

  lemma IfElseReads(ts: seq<Token>, a: Snap, s3: Snap, s4: Snap, s5: Snap, s6: Snap, m: Snap, s7: Snap, s8: Snap, s9: Snap,
                    e: Expr, thn: Block, els: Block)
    requires GuardBuilt(ts, a, s3, s4, s5, TIf, e) && BlockBuilt(ts, s5, s6, thn) && KindAt(ts, s6.curr) == TElse
    requires m == s6.(curr := s6.curr + 1) && Emits(m, s7, [Jmp(0)]) && Patched(s4, s7, s8, 2) && BlockBuilt(ts, s8, s9, els)
    ensures Reads(ts, a, s9, PrintStmt(If(e, thn, Some(els))), CheckBlock(els, s8.env))
  {
    hide Reads, PrintExpr, CompileExpr, Appends, CheckExpr, CheckBlock, PrintBlock, CompileBlock, Sees, Patches;
    hide Shaped, Words64, ShapedBlock, Words64Block;
    var head, chk := [TIf, TLParen] + PrintExpr(e) + [TRParen] + PrintBlock(thn), CheckBlock(thn, s5.env);
    GuardThen(ts, a, s3, s4, s5, s6, TIf, e, thn);
    ReadsToken(ts, a, s6, m, head, chk, TElse);
    EmitsOnly(m, s7, [Jmp(0)]);
    PatchKeepsLength(s4.bytes, s7.bytes, s8.bytes, 2);
    ReadsOn(ts, a, m, s8, head + [TElse], chk);
    ReadsThen(ts, a, s8, s9, head + [TElse], PrintBlock(els), chk, CheckBlock(els, s8.env));
    assert head + [TElse] + PrintBlock(els) == head + ([TElse] + PrintBlock(els));
  }

  lemma IfElseChecked(ts: seq<Token>, a: Snap, s3: Snap, s4: Snap, s5: Snap, s6: Snap, m: Snap, s7: Snap, s8: Snap, s9: Snap,
                      e: Expr, thn: Block, els: Block)
    requires GuardBuilt(ts, a, s3, s4, s5, TIf, e) && BlockBuilt(ts, s5, s6, thn) && m == s6.(curr := s6.curr + 1)
    requires Emits(m, s7, [Jmp(0)]) && Patched(s4, s7, s8, 2) && BlockBuilt(ts, s8, s9, els) && s9.errors == 0
    ensures var vs := s9.env.vars;
            Shaped(e) && Words64(e) && CheckIn(e, a.env) == Some(s5.env) && CheckBlock(thn, s5.env) == Some(s8.env) &&
            CheckBlock(els, s8.env) == Some(s9.env) &&
            Appends(a.bytes, s3.bytes, CompileExpr(e, vs)) && Appends(s3.bytes, s4.bytes, [TestRaxRax]) &&
            Appends(s4.bytes, s5.bytes, [Jz(0)]) && Appends(s5.bytes, s6.bytes, CompileBlock(thn, vs)) &&
            Appends(s6.bytes, s7.bytes, [Jmp(0)]) && Appends(s8.bytes, s9.bytes, CompileBlock(els, vs)) && s6.errors == 0 && s8.errors == 0
  {
    hide PrintExpr, CompileExpr, Appends, CheckExpr, CheckBlock, PrintBlock, CompileBlock, Sees, Shaped, Words64, ShapedBlock, Words64Block, Patches;
    assert s6.errors == 0 && s8.errors == 0;
    GuardChecked(ts, a, s3, s4, s5, s6, TIf, e, thn);
    BlockStable(thn, s5.env, s9.env.vars);
    ExprStable(e, a.env.vars, s9.env.vars, a.env.inits);
  }

  lemma IfFound(ts: seq<Token>, a: Snap, h: Stmt)
    requires StmtDue(ts, a, h) && h.If?
    ensures GuardDue(ts, a, h.c)
  {
    hide Sees, PrintExpr, PrintBlock, CheckExpr, Shaped, CheckBlock, ShapedBlock, GuardDue;
    var els := match h.els case None => [] case Some(b) => [TElse] + PrintBlock(b);
    IfTokens(ts, a.curr, h, els);
    GuardTokens(ts, a, TIf, h.c, PrintBlock(h.thn) + els);
  }

  lemma IfTokens(ts: seq<Token>, p: nat, h: Stmt, els: seq<Tok>)
    requires h.If? && Sees(ts, p, PrintStmt(h)) && els == match h.els case None => [] case Some(b) => [TElse] + PrintBlock(b)
    ensures Sees(ts, p, [TIf, TLParen] + PrintExpr(h.c) + [TRParen] + (PrintBlock(h.thn) + els))
    ensures |PrintStmt(h)| == 3 + |PrintExpr(h.c)| + |PrintBlock(h.thn)| + |els|
  {
    hide Sees, PrintExpr, PrintBlock;
    var g := [TIf, TLParen] + PrintExpr(h.c) + [TRParen];
    assert PrintStmt(h) == g + PrintBlock(h.thn) + els == g + (PrintBlock(h.thn) + els);
  }

  /** Where the blocks of an if stand. */
  lemma IfBlocks(ts: seq<Token>, p: nat, h: Stmt)
    requires h.If? && Sees(ts, p, PrintStmt(h))
    ensures var q := p + 3 + |PrintExpr(h.c)|;
            Sees(ts, q, PrintBlock(h.thn)) &&
            match h.els
            case None => p + |PrintStmt(h)| == q + |PrintBlock(h.thn)|
            case Some(b) =>
              var r := q + |PrintBlock(h.thn)|;
              KindAt(ts, r) == TElse && Sees(ts, r + 1, PrintBlock(b)) && p + |PrintStmt(h)| == r + 1 + |PrintBlock(b)|
  {
    hide Sees, PrintExpr, PrintBlock;
    var els := match h.els case None => [] case Some(b) => [TElse] + PrintBlock(b);
    var g, q := [TIf, TLParen] + PrintExpr(h.c) + [TRParen], p + 3 + |PrintExpr(h.c)|;
    IfTokens(ts, p, h, els);
    SeesSplit(ts, p, g, PrintBlock(h.thn) + els);
    SeesSplit(ts, q, PrintBlock(h.thn), els);
    if h.els.Some? {
      SeesSplit(ts, q + |PrintBlock(h.thn)|, [TElse], PrintBlock(h.els.value));
      OneToken(ts, q + |PrintBlock(h.thn)|, TElse);
    }
  }

  lemma ThenFound(ts: seq<Token>, a: Snap, m: Snap, h: Stmt)
    requires StmtDue(ts, a, h) && h.If? && m.errors == 0
    requires m.curr == a.curr + 3 + |PrintExpr(h.c)| && CheckIn(h.c, a.env) == Some(m.env)
    ensures BlockDue(ts, m, h.thn) && (KindAt(ts, m.curr + |PrintBlock(h.thn)|) == TElse <==> h.els.Some?)
  {
    hide Sees, PrintExpr, PrintBlock, PrintStmt, CheckExpr, Shaped, CheckBlock, ShapedBlock, BlockPrecedes;
    IfBlocks(ts, a.curr, h);
  }

  lemma ElseFound(ts: seq<Token>, a: Snap, m: Snap, s8: Snap, h: Stmt)
    requires StmtDue(ts, a, h) && h.If? && h.els.Some? && m.errors == 0 && s8.errors == 0
    requires CheckIn(h.c, a.env) == Some(m.env) && CheckBlock(h.thn, m.env) == Some(s8.env)
    requires s8.curr == a.curr + 4 + |PrintExpr(h.c)| + |PrintBlock(h.thn)|
    ensures BlockDue(ts, s8, h.els.value)
  {
    hide Sees, PrintExpr, PrintBlock, PrintStmt, CheckExpr, Shaped, CheckBlock, ShapedBlock, BlockPrecedes;
    IfBlocks(ts, a.curr, h);
  }

  // ----- do while -----

  /** The operand at pp now leads back to start. */
  ghost predicate PatchedBack(a: Snap, b: Snap, pp: nat, start: nat) {
    b == a.(bytes := b.bytes) && |b.bytes| == |a.bytes| &&
    (pp + 4 <= |a.bytes| ==> b.bytes == a.bytes[..pp] + I32(start - (pp + 4)) + a.bytes[pp + 4..])
  }

  lemma DoWhileBuilds(ts: seq<Token>, a: Snap, s1: Snap, s2: Snap, s3: Snap, s4: Snap, s5: Snap, s6: Snap, s7: Snap, s8: Snap, s9: Snap,
                      b: Snap, body: Block, e: Expr)
    requires KindAt(ts, a.curr) == TDo && s1 == a.(curr := a.curr + 1) && BlockBuilt(ts, s1, s2, body)
    requires Expects(ts, s2, s3, TWhile) && Expects(ts, s3, s4, TLParen)
    requires Read(ts, s4, s5, PrintExpr(e), CheckIn(e, s4.env), CompileExpr(e, s4.env.vars)) && Moves(s4, s5)
    requires s5.errors == 0 ==> Shaped(e) && Words64(e)
    requires Expects(ts, s5, s6, TRParen) && Expects(ts, s6, s7, TSemi)
    requires Emits(s7, s8, [TestRaxRax]) && Emits(s8, s9, [Jnz(0)]) && PatchedBack(s9, b, |s8.bytes| + 2, |a.bytes|)
    ensures StmtBuilt(ts, a, b, DoWhile(body, e))
  {
    hide Reads, PrintExpr, CompileExpr, Appends, CheckExpr, CheckBlock, PrintBlock, CompileBlock, Sees, DoWhileCode, I32;
    hide Shaped, Words64, ShapedBlock, Words64Block;
    var s, chk := DoWhile(body, e), CheckIn(e, s4.env);
    DoWhileReads(ts, a, s1, s2, s3, s4, s5, s6, s7, body, e);
    EmitsOnly(s7, s8, [TestRaxRax]);
    EmitsOnly(s8, s9, [Jnz(0)]);
    ReadsOn(ts, a, s7, b, PrintStmt(s), chk);
    if b.errors == 0 {
      DoWhileChecked(ts, a, s1, s2, s3, s4, s5, body, e);
      DoWhileAppends(a.bytes, s2.bytes, s5.bytes, s8.bytes, s9.bytes, b.bytes, CompileBlock(body, b.env.vars), CompileExpr(e, b.env.vars));
    } else {
      ReadsFails(ts, a, b, PrintStmt(s), chk, CheckStmt(s, a.env));
    }
  }

  lemma DoWhileReads(ts: seq<Token>, a: Snap, s1: Snap, s2: Snap, s3: Snap, s4: Snap, s5: Snap, s6: Snap, s7: Snap, body: Block, e: Expr)
    requires KindAt(ts, a.curr) == TDo && s1 == a.(curr := a.curr + 1) && BlockBuilt(ts, s1, s2, body)
    requires Expects(ts, s2, s3, TWhile) && Expects(ts, s3, s4, TLParen) && Reads(ts, s4, s5, PrintExpr(e), CheckIn(e, s4.env))
    requires Expects(ts, s5, s6, TRParen) && Expects(ts, s6, s7, TSemi)
    ensures Reads(ts, a, s7, PrintStmt(DoWhile(body, e)), CheckIn(e, s4.env))
  {
    hide Reads, PrintExpr, CompileExpr, Appends, CheckExpr, CheckBlock, PrintBlock, CompileBlock, Sees, BlockBuilt;
    var chkb, chk, head := CheckBlock(body, a.env), CheckIn(e, s4.env), [TDo] + PrintBlock(body) + [TWhile, TLParen];
    DoHeadReads(ts, a, s1, s2, s3, s4, body);
    ReadsThen(ts, a, s4, s5, head, PrintExpr(e), chkb, chk);
    ReadsToken(ts, a, s5, s6, head + PrintExpr(e), chk, TRParen);
    ReadsToken(ts, a, s6, s7, head + PrintExpr(e) + [TRParen], chk, TSemi);
    assert head + PrintExpr(e) + [TRParen] + [TSemi] == head + PrintExpr(e) + [TRParen, TSemi];
  }

  lemma DoHeadReads(ts: seq<Token>, a: Snap, s1: Snap, s2: Snap, s3: Snap, s4: Snap, body: Block)
    requires KindAt(ts, a.curr) == TDo && s1 == a.(curr := a.curr + 1) && BlockBuilt(ts, s1, s2, body)
    requires Expects(ts, s2, s3, TWhile) && Expects(ts, s3, s4, TLParen)
    ensures Reads(ts, a, s4, [TDo] + PrintBlock(body) + [TWhile, TLParen], CheckBlock(body, a.env))
  {
    hide Reads, Appends, CheckBlock, PrintBlock, CompileBlock, Sees, ShapedBlock, Words64Block, BlockPrecedes;
    var chk, head := CheckBlock(body, a.env), [TDo] + PrintBlock(body);
    TokenRead(ts, a, s1, TDo);
    ReadsThen(ts, a, s1, s2, [TDo], PrintBlock(body), Some(a.env), chk);
    ReadsToken(ts, a, s2, s3, head, chk, TWhile);
    ReadsToken(ts, a, s3, s4, head + [TWhile], chk, TLParen);
    assert head + [TWhile] + [TLParen] == head + [TWhile, TLParen];
  }

  lemma DoWhileChecked(ts: seq<Token>, a: Snap, s1: Snap, s2: Snap, s3: Snap, s4: Snap, s5: Snap, body: Block, e: Expr)
    requires s1 == a.(curr := a.curr + 1) && BlockBuilt(ts, s1, s2, body) && Expects(ts, s2, s3, TWhile) && Expects(ts, s3, s4, TLParen)
    requires Read(ts, s4, s5, PrintExpr(e), CheckIn(e, s4.env), CompileExpr(e, s4.env.vars)) && Moves(s4, s5) && s5.errors == 0
    ensures CheckBlock(body, a.env) == Some(s4.env) && ShapedBlock(body) && Words64Block(body)
    ensures Appends(a.bytes, s2.bytes, CompileBlock(body, s5.env.vars)) && Appends(s2.bytes, s5.bytes, CompileExpr(e, s5.env.vars))
    ensures CheckIn(e, s4.env) == Some(s5.env)
  {
    hide PrintExpr, CompileExpr, Appends, CheckExpr, CheckBlock, PrintBlock, CompileBlock, Sees, ShapedBlock, Words64Block;
  }

  /** Where the parts of an expected do-while stand. */
  lemma DoWhileFound(ts: seq<Token>, a: Snap, h: Stmt)
    requires StmtDue(ts, a, h) && h.DoWhile?
    ensures BlockDue(ts, a.(curr := a.curr + 1), h.body)
    ensures var p := a.curr + 1 + |PrintBlock(h.body)|;
            KindAt(ts, p) == TWhile && KindAt(ts, p + 1) == TLParen && Sees(ts, p + 2, PrintExpr(h.c)) &&
            KindAt(ts, p + 2 + |PrintExpr(h.c)|) == TRParen && KindAt(ts, p + 3 + |PrintExpr(h.c)|) == TSemi
  {
    hide Sees, PrintExpr, PrintBlock, CheckExpr, Shaped, CheckBlock, ShapedBlock;
    var e, k, p := PrintExpr(h.c), PrintBlock(h.body), a.curr + 1 + |PrintBlock(h.body)|;
    SeesSplit(ts, a.curr, [TDo] + k + [TWhile, TLParen] + e, [TRParen, TSemi]);
    SeesSplit(ts, a.curr, [TDo] + k + [TWhile, TLParen], e);
    SeesSplit(ts, a.curr, [TDo] + k, [TWhile, TLParen]);
    SeesSplit(ts, a.curr, [TDo], k);
    TwoTokens(ts, p, TWhile, TLParen);
    TwoTokens(ts, p + 2 + |e|, TRParen, TSemi);
  }

  lemma DoWhileCondFound(ts: seq<Token>, a: Snap, s4: Snap, h: Stmt)
    requires StmtDue(ts, a, h) && h.DoWhile? && s4.errors == 0
    requires s4.curr == a.curr + 3 + |PrintBlock(h.body)| && CheckBlock(h.body, a.env) == Some(s4.env)
    ensures ExprDue(ts, s4, h.c)
  {
    hide Sees, PrintExpr, PrintBlock, CheckExpr, CheckBlock, BlockDue;
    DoWhileFound(ts, a, h);
  }

  // ----- for: header parts -----

  predicate ShapedPost(p: ForPost) {
    match p case PostAssign(_, _, e) => Shaped(e) case PostExpr(e) => Shaped(e) case _ => true
  }

  predicate Words64Post(p: ForPost) {
    match p case PostAssign(_, _, e) => Words64(e) case PostExpr(e) => Words64(e) case _ => true
  }

  ghost predicate PostBuilt(ts: seq<Token>, a: Snap, b: Snap, p: ForPost) {
    Read(ts, a, b, PrintPost(p), CheckPost(p, a.env), PostCode(p, b.env.vars)) && b.env.vars == a.env.vars &&
    (b.errors == 0 ==> ShapedPost(p) && Words64Post(p))
  }

  ghost predicate PostDue(ts: seq<Token>, a: Snap, h: ForPost) {
    a.errors == 0 && ShapedPost(h) && Sees(ts, a.curr, PrintPost(h)) && CheckPost(h, a.env).Some? &&
    KindAt(ts, a.curr + |PrintPost(h)|) == TRParen
  }

  ghost predicate PostStep(ts: seq<Token>, a: Snap, b: Snap, h: ForPost, p: ForPost) {
    PostBuilt(ts, a, b, p) && (PostDue(ts, a, h) ==> b.errors == 0 && p == h)
  }

  /** The first two tokens tell which third part is expected. */
  predicate PostHeadAt(ts: seq<Token>, p: nat, h: ForPost) {
    var k, k2 := KindAt(ts, p), KindAt(ts, p + 1);
    match h
    case NoPost => k == TRParen
    case PostBump(x, up, post) => BumpAt(ts, p, x, up, post)
    case PostIgnored(x, up, post) => BumpAt(ts, p, x, up, post)
    case PostBare(up) => k == BumpTok(up) && k2 == TRParen
    case PostAssign(x, op, _) => k == TIdent(x) && k2 == AssignTok(op)
    case PostExpr(_) => k != TRParen && !IsBumpTok(k) && (k.TIdent? ==> !IsBumpTok(k2) && !IsAssignTok(k2))
  }

  lemma PostHead(ts: seq<Token>, a: Snap, h: ForPost)
    requires PostDue(ts, a, h)
    ensures PostHeadAt(ts, a.curr, h)
  {
    hide Sees, PrintExpr;
    match h
    case NoPost =>
    case PostBump(x, up, post) => BumpTokens(ts, a.curr, x, up, post);
    case PostIgnored(x, up, post) => BumpTokens(ts, a.curr, x, up, post);
    case PostBare(up) => OneToken(ts, a.curr, BumpTok(up));
    case PostAssign(x, op, e) => SeesSplit(ts, a.curr, [TIdent(x), AssignTok(op)], PrintExpr(e)); TwoTokens(ts, a.curr, TIdent(x), AssignTok(op));
    case PostExpr(e) => PlainExprHead(ts, a.curr, e);
  }

  /** An expression that starts no bump, followed by a parenthesis or a semicolon, looks like neither bump nor assignment. */
  lemma PlainExprHead(ts: seq<Token>, p: nat, e: Expr)
    requires Shaped(e) && Sees(ts, p, PrintExpr(e)) && Closes(KindAt(ts, p + |PrintExpr(e)|))
    ensures var k, k2 := KindAt(ts, p), KindAt(ts, p + 1);
            !k.TType? && !Closes(k) && (k.TIdent? ==> !IsAssignTok(k2)) &&
            (!StartsBump(PrintExpr(e)) ==> !IsBumpTok(k) && (k.TIdent? ==> !IsBumpTok(k2)))
  {
    hide Sees, PrintExpr;
    var ks := PrintExpr(e);
    ExprStarts(ts, p, e);
    NoAssignInside(e);
    SeesAt(ts, p, ks, 0);
    if |ks| > 1 { SeesAt(ts, p, ks, 1); }
  }

  lemma FirstHead(ts: seq<Token>, a: Snap, h: ForInit)
    requires FirstDue(ts, a, h)
    ensures var k, k2 := KindAt(ts, a.curr), KindAt(ts, a.curr + 1);
            match h
            case NoInit => k == TSemi
            case InitDecl(_, _, _, _) => k.TType?
            case InitAssign(x, op, _) => k == TIdent(x) && k2 == AssignTok(op)
            case InitExpr(_) => k != TSemi && !k.TType? && (k.TIdent? ==> !IsAssignTok(k2))
  {
    hide Sees, PrintExpr, CheckIn, CheckDecl, CheckAssign, PrintSize, PrintInit;
    match h
    case NoInit =>
    case InitDecl(t, x, size, init) => SeesAt(ts, a.curr, PrintFirst(h), 0);
    case InitAssign(x, op, e) =>
      SeesSplit(ts, a.curr, [TIdent(x), AssignTok(op)], PrintExpr(e));
      TwoTokens(ts, a.curr, TIdent(x), AssignTok(op));
    case InitExpr(e) => PlainExprHead(ts, a.curr, e);
  }

  // ----- for -----

  /** The condition with its test and blank exit jump, or nothing. m1 follows the expression, m2 the test. */
  ghost predicate CondBuilt(ts: seq<Token>, a: Snap, m1: Snap, m2: Snap, b: Snap, cond: Option<Expr>) {
    match cond
    case None => m1 == a && m2 == a && b == a
    case Some(e) =>
      Read(ts, a, m1, PrintExpr(e), CheckIn(e, a.env), CompileExpr(e, a.env.vars)) && Moves(a, m1) &&
      (m1.errors == 0 ==> Shaped(e) && Words64(e)) && Emits(m1, m2, [TestRaxRax]) && Emits(m2, b, [Jz(0)])
  }

  lemma CondReads(ts: seq<Token>, a: Snap, m1: Snap, m2: Snap, b: Snap, cond: Option<Expr>)
    requires CondBuilt(ts, a, m1, m2, b, cond)
    ensures Reads(ts, a, b, PrintOpt(cond), CheckOpt(cond, a.env)) && b.env.vars == a.env.vars && |a.bytes| <= |b.bytes|
    ensures b.errors == 0 ==> ShapedOpt(cond) && Words64Opt(cond)
  {
    hide Appends, Sees, PrintExpr, CheckExpr, Shaped, Words64, CompileExpr;
    if cond.Some? {
      EmitsOnly(m1, m2, [TestRaxRax]);
      EmitsOnly(m2, b, [Jz(0)]);
    } else {
      MarkRead(ts, a, a);
    }
  }

  function AfterPost(step: ForPost, body: Block, env: Env): Option<Env> {
    match CheckPost(step, env) case None => None case Some(env1) => CheckBlock(body, env1)
  }

  /** Everything fits, counting `guard` bytes of condition from start on. */
  predicate LoopFits(start: nat, guard: nat, loop: Code) {
    start + guard + Size(loop) <= CAPACITY
  }

  /** From the second semicolon to the end: the post part, the body and their jumps. start is where the condition begins. */
  ghost predicate LoopBuilt(ts: seq<Token>, a: Snap, b: Snap, start: nat, guard: nat, step: ForPost, body: Block) {
    var loop := LoopCode(guard, PostCode(step, b.env.vars), CompileBlock(body, b.env.vars));
    a.curr < b.curr && Reads(ts, a, b, PrintPost(step) + [TRParen] + PrintBlock(body), AfterPost(step, body, a.env)) &&
    (b.errors == 0 ==>
      ShapedPost(step) && Words64Post(step) && ShapedBlock(body) && Words64Block(body) &&
      BlockPrecedes(body, KindAt(ts, b.curr)) &&
      ((LoopFits(start, guard, loop) ==> |a.bytes| == start + guard) ==>
        LoopFits(start, guard, loop) ==> Appends(a.bytes, b.bytes, loop)))
  }

  lemma LoopBuilds(ts: seq<Token>, a: Snap, s6: Snap, s7: Snap, s8: Snap, s9: Snap, s10: Snap, s11: Snap, b: Snap,
                   start: nat, guard: nat, step: ForPost, body: Block)
    requires Emits(a, s6, [Jmp(0)]) && PostBuilt(ts, s6, s7, step) && Expects(ts, s7, s8, TRParen)
    requires Emits(s8, s9, [Jmp(start - (|s8.bytes| + JmpSize))]) && Patched(a, s9, s10, 1)
    requires BlockBuilt(ts, s10, s11, body) && Emits(s11, b, [Jmp(|s6.bytes| - (|s11.bytes| + JmpSize))])
    ensures LoopBuilt(ts, a, b, start, guard, step, body)
  {
    hide Reads, Appends, CheckBlock, PrintBlock, CompileBlock, CheckPost, PrintPost, PostCode, Sees, ShapedBlock, Words64Block, ShapedPost, Words64Post;
    hide LoopCode, LoopFits, Patches, BlockPrecedes;
    var chk, chkb := CheckPost(step, a.env), CheckBlock(body, s10.env);
    LoopReads(ts, a, s6, s7, s8, s9, s10, s11, b, start, step, body);
    if b.errors == 0 {
      LoopChecked(ts, a, s6, s7, s8, s9, s10, s11, b, start, step, body);
      LoopAppended(a.bytes, s6.bytes, s7.bytes, s9.bytes, s10.bytes, s11.bytes, b.bytes, start, guard, PostCode(step, b.env.vars), CompileBlock(body, b.env.vars));
    } else {
      ReadsFails(ts, a, b, PrintPost(step) + [TRParen] + PrintBlock(body), chkb, AfterPost(step, body, a.env));
    }
  }

  lemma LoopAppended(m: seq<byte>, c1: seq<byte>, c2: seq<byte>, c3: seq<byte>, c4: seq<byte>, c5: seq<byte>, b: seq<byte>,
                     start: nat, guard: nat, post: Code, body: Code)
    requires Appends(m, c1, [Jmp(0)]) && Appends(c1, c2, post) && Appends(c2, c3, [Jmp(start - (|c2| + JmpSize))])
    requires Patches(m, c3, c4, 1) && Appends(c4, c5, body) && Appends(c5, b, [Jmp(|c1| - (|c5| + JmpSize))])
    ensures var loop := LoopCode(guard, post, body);
            (LoopFits(start, guard, loop) ==> |m| == start + guard) ==> LoopFits(start, guard, loop) ==> Appends(m, b, loop)
  {
    hide Appends, LoopCode, Patches, Size;
    var loop := LoopCode(guard, post, body);
    if LoopFits(start, guard, loop) ==> |m| == start + guard { LoopAppends(start, m, c1, c2, c3, c4, c5, b, guard, post, body); }
  }

  lemma LoopReads(ts: seq<Token>, a: Snap, s6: Snap, s7: Snap, s8: Snap, s9: Snap, s10: Snap, s11: Snap, b: Snap,
                  start: nat, step: ForPost, body: Block)
    requires Emits(a, s6, [Jmp(0)]) && PostBuilt(ts, s6, s7, step) && Expects(ts, s7, s8, TRParen)
    requires Emits(s8, s9, [Jmp(start - (|s8.bytes| + JmpSize))]) && Patched(a, s9, s10, 1)
    requires BlockBuilt(ts, s10, s11, body) && Emits(s11, b, [Jmp(|s6.bytes| - (|s11.bytes| + JmpSize))])
    ensures a.curr < b.curr && Reads(ts, a, b, PrintPost(step) + [TRParen] + PrintBlock(body), CheckBlock(body, s10.env))
  {
    hide Reads, Appends, CheckBlock, PrintBlock, CompileBlock, CheckPost, PrintPost, PostCode, Sees, ShapedBlock, Words64Block, ShapedPost, Words64Post, Patches;
    var chk := CheckPost(step, a.env);
    EmitRead(ts, a, s6, [Jmp(0)]);
    ReadsThen(ts, a, s6, s7, [], PrintPost(step), Some(a.env), chk);
    assert [] + PrintPost(step) == PrintPost(step);
    ReadsToken(ts, a, s7, s8, PrintPost(step), chk, TRParen);
    EmitsOnly(s8, s9, [Jmp(start - (|s8.bytes| + JmpSize))]);
    PatchKeepsLength(a.bytes, s9.bytes, s10.bytes, 1);
    ReadsOn(ts, a, s8, s10, PrintPost(step) + [TRParen], chk);
    ReadsThen(ts, a, s10, s11, PrintPost(step) + [TRParen], PrintBlock(body), chk, CheckBlock(body, s10.env));
    EmitsOnly(s11, b, [Jmp(|s6.bytes| - (|s11.bytes| + JmpSize))]);
    ReadsOn(ts, a, s11, b, PrintPost(step) + [TRParen] + PrintBlock(body), CheckBlock(body, s10.env));
    ReadsChecked(ts, s6, s7, PrintPost(step), chk);
  }

  lemma LoopChecked(ts: seq<Token>, a: Snap, s6: Snap, s7: Snap, s8: Snap, s9: Snap, s10: Snap, s11: Snap, b: Snap,
                    start: nat, step: ForPost, body: Block)
    requires Emits(a, s6, [Jmp(0)]) && PostBuilt(ts, s6, s7, step) && Expects(ts, s7, s8, TRParen)
    requires Emits(s8, s9, [Jmp(start - (|s8.bytes| + JmpSize))]) && Patched(a, s9, s10, 1)
    requires BlockBuilt(ts, s10, s11, body) && Emits(s11, b, [Jmp(|s6.bytes| - (|s11.bytes| + JmpSize))]) && b.errors == 0
    ensures CheckPost(step, a.env) == Some(s10.env) && CheckBlock(body, s10.env) == Some(b.env)
    ensures ShapedPost(step) && Words64Post(step) && ShapedBlock(body) && Words64Block(body)
    ensures Appends(a.bytes, s6.bytes, [Jmp(0)]) && Appends(s6.bytes, s7.bytes, PostCode(step, b.env.vars)) && s8.bytes == s7.bytes
    ensures Appends(s10.bytes, s11.bytes, CompileBlock(body, b.env.vars)) && s11.curr == b.curr
  {
    hide Appends, CheckBlock, PrintBlock, CompileBlock, CheckPost, PrintPost, PostCode, Sees, ShapedBlock, Words64Block, ShapedPost, Words64Post, Patches;
    PostStable(step, a.env, b.env.vars);
  }

  /** The states a for statement passes through: after each of its header parts, and after its loop. */
  datatype ForTrace = ForTrace(s1: Snap, s2: Snap, s3: Snap, m1: Snap, m2: Snap, s4: Snap, s5: Snap, s6: Snap,
                               first: ForInit, cond: Option<Expr>, step: ForPost, body: Block)
  {
    function Guard(): nat { CondSize(cond, s3.env.vars) }
  }

  ghost predicate ForTraced(ts: seq<Token>, a: Snap, r: ForTrace) {
    KindAt(ts, a.curr) == TFor && Expects(ts, a.(curr := a.curr + 1), r.s1, TLParen) && FirstBuilt(ts, r.s1, r.s2, r.first) &&
    Expects(ts, r.s2, r.s3, TSemi) && CondBuilt(ts, r.s3, r.m1, r.m2, r.s4, r.cond) && Expects(ts, r.s4, r.s5, TSemi) &&
    LoopBuilt(ts, r.s5, r.s6, |r.s3.bytes|, r.Guard(), r.step, r.body)
  }

  lemma ForBuilds(ts: seq<Token>, a: Snap, r: ForTrace, b: Snap)
    requires ForTraced(ts, a, r) && if r.cond.None? then b == r.s6 else Patched(r.m2, r.s6, b, 2)
    ensures StmtBuilt(ts, a, b, For(r.first, r.cond, r.step, r.body))
  {
    hide Reads, Appends, ForTraced, PrintFirst, PrintOpt, PrintPost, PrintBlock, CheckFirst, CheckOpt, CheckPost, CheckBlock, CompileStmt;
    hide Sees, Patches, ShapedOpt, ShapedBlock, Words64Opt, Words64Block;
    var s := For(r.first, r.cond, r.step, r.body);
    ForReads(ts, a, r);
    if r.cond.Some? { PatchKeepsLength(r.m2.bytes, r.s6.bytes, b.bytes, 2); }
    ReadsOn(ts, a, r.s6, b, PrintStmt(s), AfterPost(r.step, r.body, r.s5.env));
    if b.errors == 0 {
      ForChecked(ts, a, r);
      ForAppends(ts, a, r, b);
    } else {
      ReadsFails(ts, a, b, PrintStmt(s), AfterPost(r.step, r.body, r.s5.env), CheckStmt(s, a.env));
    }
  }

  lemma ForReads(ts: seq<Token>, a: Snap, r: ForTrace)
    requires ForTraced(ts, a, r)
    ensures a.curr < r.s6.curr && Reads(ts, a, r.s6, PrintStmt(For(r.first, r.cond, r.step, r.body)), AfterPost(r.step, r.body, r.s5.env))
  {
    hide Reads, CondBuilt, Appends, PrintFirst, PrintOpt, PrintPost, PrintBlock, CheckFirst, CheckOpt, CheckPost, CheckBlock, InitCode, Sees;
    hide ShapedFirst, ShapedPost, ShapedBlock, Words64First, Words64Post, Words64Block, AfterPost, LoopCode, CondSize, PostCode, CompileBlock;
    var head, tail := [TFor, TLParen] + PrintFirst(r.first) + [TSemi], PrintPost(r.step) + [TRParen] + PrintBlock(r.body);
    var chk, after := CheckOpt(r.cond, r.s3.env), AfterPost(r.step, r.body, r.s5.env);
    ForHeadReads(ts, a, r);
    CondReads(ts, r.s3, r.m1, r.m2, r.s4, r.cond);
    ReadsThen(ts, a, r.s3, r.s4, head, PrintOpt(r.cond), CheckFirst(r.first, a.env), chk);
    ReadsToken(ts, a, r.s4, r.s5, head + PrintOpt(r.cond), chk, TSemi);
    ReadsThen(ts, a, r.s5, r.s6, head + PrintOpt(r.cond) + [TSemi], tail, chk, after);
    assert head + PrintOpt(r.cond) + [TSemi] + tail == head + PrintOpt(r.cond) + [TSemi] + PrintPost(r.step) + [TRParen] + PrintBlock(r.body);
    ReadsChecked(ts, a, r.s5, head + PrintOpt(r.cond) + [TSemi], chk);
  }

  lemma ForHeadReads(ts: seq<Token>, a: Snap, r: ForTrace)
    requires ForTraced(ts, a, r)
    ensures Reads(ts, a, r.s3, [TFor, TLParen] + PrintFirst(r.first) + [TSemi], CheckFirst(r.first, a.env))
  {
    hide Reads, Appends, PrintFirst, CheckFirst, InitCode, Sees, ShapedFirst, Words64First, CondBuilt, LoopBuilt;
    var m := a.(curr := a.curr + 1);
    TokenRead(ts, a, m, TFor);
    ReadsToken(ts, a, m, r.s1, [TFor], Some(a.env), TLParen);
    assert [TFor] + [TLParen] == [TFor, TLParen];
    ReadsThen(ts, a, r.s1, r.s2, [TFor, TLParen], PrintFirst(r.first), Some(a.env), CheckFirst(r.first, a.env));
    ReadsToken(ts, a, r.s2, r.s3, [TFor, TLParen] + PrintFirst(r.first), CheckFirst(r.first, a.env), TSemi);
  }

  lemma ForChecked(ts: seq<Token>, a: Snap, r: ForTrace)
    requires ForTraced(ts, a, r) && r.s6.errors == 0
    ensures CheckFirst(r.first, a.env) == Some(r.s3.env) && CheckOpt(r.cond, r.s3.env) == Some(r.s5.env)
    ensures AfterPost(r.step, r.body, r.s5.env) == Some(r.s6.env)
    ensures ShapedFirst(r.first) && Words64First(r.first) && ShapedOpt(r.cond) && Words64Opt(r.cond)
    ensures ShapedPost(r.step) && Words64Post(r.step) && ShapedBlock(r.body) && Words64Block(r.body)
    ensures BlockPrecedes(r.body, KindAt(ts, r.s6.curr))
    ensures r.s3.env.vars == r.s5.env.vars <= r.s6.env.vars && r.s5.errors == 0 && r.s4.errors == 0
    ensures r.s3.bytes == r.s2.bytes && r.s4.bytes == r.s5.bytes && Appends(a.bytes, r.s2.bytes, InitCode(r.first, r.s3.env.vars))
  {
    hide Appends, PrintFirst, PrintOpt, PrintPost, PrintBlock, CheckFirst, CheckOpt, CheckPost, CheckBlock, InitCode, Sees, LoopCode, AfterPost, CondBuilt;
    hide ShapedFirst, ShapedOpt, ShapedPost, ShapedBlock, Words64First, Words64Opt, Words64Post, Words64Block, PostCode, CompileBlock;
    CondReads(ts, r.s3, r.m1, r.m2, r.s4, r.cond);
  }

  lemma ForAppends(ts: seq<Token>, a: Snap, r: ForTrace, b: Snap)
    requires ForTraced(ts, a, r) && b.errors == 0
    requires if r.cond.None? then b == r.s6 else Patched(r.m2, r.s6, b, 2)
    ensures Appends(a.bytes, b.bytes, CompileStmt(For(r.first, r.cond, r.step, r.body), b.env.vars))
  {
    hide Appends, ForTraced, Sees, InitCode, ForCode, PostCode, CompileBlock, CheckFirst, CheckOpt, AfterPost;
    var vs := b.env.vars;
    var init, post, body := InitCode(r.first, vs), PostCode(r.step, vs), CompileBlock(r.body, vs);
    ForChecked(ts, a, r);
    FirstStable(r.first, a.env, vs);
    assert Appends(r.s3.bytes, b.bytes, ForCode(r.cond, post, body, vs)) by {
      if r.cond.None? { EndlessBuilt(ts, a, r); } else { GuardedBuilt(ts, a, r, b); }
    }
    AppendsMore(a.bytes, r.s3.bytes, b.bytes, init, ForCode(r.cond, post, body, vs));
  }

  lemma EndlessBuilt(ts: seq<Token>, a: Snap, r: ForTrace)
    requires ForTraced(ts, a, r) && r.cond.None? && r.s6.errors == 0
    ensures Appends(r.s3.bytes, r.s6.bytes, ForCode(None, PostCode(r.step, r.s6.env.vars), CompileBlock(r.body, r.s6.env.vars), r.s6.env.vars))
  {
    hide Appends, FirstBuilt, Sees, ForCode, PostCode, CompileBlock, LoopCode, Size, AfterPost;
    var post, body := PostCode(r.step, r.s6.env.vars), CompileBlock(r.body, r.s6.env.vars);
    if !LoopFits(|r.s3.bytes|, 0, LoopCode(0, post, body)) { Overflows(r.s3.bytes, r.s6.bytes, LoopCode(0, post, body)); }
    EndlessAppends(r.s3.bytes, r.s6.bytes, post, body, r.s6.env.vars);
  }

  lemma GuardedBuilt(ts: seq<Token>, a: Snap, r: ForTrace, b: Snap)
    requires ForTraced(ts, a, r) && r.cond.Some? && b.errors == 0 && Patched(r.m2, r.s6, b, 2)
    ensures Appends(r.s3.bytes, b.bytes, ForCode(r.cond, PostCode(r.step, b.env.vars), CompileBlock(r.body, b.env.vars), b.env.vars))
  {
    hide Appends, FirstBuilt, Sees, ForCode, PostCode, CompileBlock, LoopCode, Size, CompileExpr, CheckExpr, AfterPost, Patches, PrintExpr, Shaped, Words64;
    var vs, e := b.env.vars, r.cond.value;
    var post, body := PostCode(r.step, vs), CompileBlock(r.body, vs);
    ForChecked(ts, a, r);
    ExprStable(e, r.s3.env.vars, vs, r.s3.env.inits);
    if r.Guard() + |r.s3.bytes| <= CAPACITY { GuardEnds(r.s3.bytes, r.m1.bytes, r.m2.bytes, r.s4.bytes, e, vs); }
    GuardedAppends(r.s3.bytes, r.m1.bytes, r.m2.bytes, r.s4.bytes, r.s6.bytes, b.bytes, e, post, body, vs);
  }

  // ----- for: what is expected -----

  /** Positions of the header parts of an expected for. */
  function CondPos(p: nat, h: Stmt): nat requires h.For? { p + 2 + |PrintFirst(h.first)| + 1 }
  function PostPos(p: nat, h: Stmt): nat requires h.For? { CondPos(p, h) + |PrintOpt(h.cond)| + 1 }
  function BodyPos(p: nat, h: Stmt): nat requires h.For? { PostPos(p, h) + |PrintPost(h.step)| + 1 }

  lemma ForTokens(ts: seq<Token>, p: nat, h: Stmt)
    requires h.For? && Sees(ts, p, PrintStmt(h))
    ensures KindAt(ts, p + 1) == TLParen && Sees(ts, p + 2, PrintFirst(h.first)) && KindAt(ts, p + 2 + |PrintFirst(h.first)|) == TSemi
    ensures Sees(ts, CondPos(p, h), PrintOpt(h.cond)) && KindAt(ts, CondPos(p, h) + |PrintOpt(h.cond)|) == TSemi
    ensures Sees(ts, PostPos(p, h), PrintPost(h.step)) && KindAt(ts, PostPos(p, h) + |PrintPost(h.step)|) == TRParen
    ensures Sees(ts, BodyPos(p, h), PrintBlock(h.body)) && p + |PrintStmt(h)| == BodyPos(p, h) + |PrintBlock(h.body)|
  {
    hide Sees, PrintFirst, PrintOpt, PrintPost, PrintBlock;
    var f, c, s, k := PrintFirst(h.first), PrintOpt(h.cond), PrintPost(h.step), PrintBlock(h.body);
    var front := [TFor, TLParen] + f + [TSemi] + c + [TSemi];
    SeesSplit(ts, p, front + s + [TRParen], k);
    SeesSplit(ts, p, front + s, [TRParen]);
    SeesSplit(ts, p, front, s);
    OneToken(ts, PostPos(p, h) + |s|, TRParen);
    ForFrontTokens(ts, p, f, c);
  }

  lemma ForFrontTokens(ts: seq<Token>, p: nat, f: seq<Tok>, c: seq<Tok>)
    requires Sees(ts, p, [TFor, TLParen] + f + [TSemi] + c + [TSemi])
    ensures KindAt(ts, p + 1) == TLParen && Sees(ts, p + 2, f) && KindAt(ts, p + 2 + |f|) == TSemi
    ensures Sees(ts, p + 3 + |f|, c) && KindAt(ts, p + 3 + |f| + |c|) == TSemi
  {
    hide Sees;
    var head := [TFor, TLParen];
    SeesSplit(ts, p, head + f + [TSemi] + c, [TSemi]);
    SeesSplit(ts, p, head + f + [TSemi], c);
    SeesSplit(ts, p, head + f, [TSemi]);
    SeesSplit(ts, p, head, f);
    TwoTokens(ts, p, TFor, TLParen);
    OneToken(ts, p + 2 + |f|, TSemi);
    OneToken(ts, p + 3 + |f| + |c|, TSemi);
  }

  lemma ForFirstFound(ts: seq<Token>, a: Snap, h: Stmt)
    requires StmtDue(ts, a, h) && h.For?
    ensures KindAt(ts, a.curr + 1) == TLParen && FirstDue(ts, a.(curr := a.curr + 2), h.first)
    ensures KindAt(ts, a.curr + 2 + |PrintFirst(h.first)|) == TSemi
  {
    hide Sees, PrintFirst, PrintOpt, PrintPost, PrintBlock, CheckFirst, CheckOpt, CheckPost, CheckBlock, ShapedBlock, ShapedOpt;
    ForTokens(ts, a.curr, h);
  }

  lemma ForCondFound(ts: seq<Token>, a: Snap, s3: Snap, h: Stmt)
    requires StmtDue(ts, a, h) && h.For? && s3.errors == 0 && s3.curr == CondPos(a.curr, h) && CheckFirst(h.first, a.env) == Some(s3.env)
    ensures KindAt(ts, s3.curr + |PrintOpt(h.cond)|) == TSemi && (KindAt(ts, s3.curr) == TSemi <==> h.cond.None?)
    ensures h.cond.Some? ==> ExprDue(ts, s3, h.cond.value)
  {
    hide Sees, PrintFirst, PrintExpr, PrintPost, PrintBlock, CheckFirst, CheckPost, CheckBlock, ShapedBlock, CheckExpr, CondPos;
    ForTokens(ts, a.curr, h);
    if h.cond.Some? { ExprStarts(ts, s3.curr, h.cond.value); }
  }

  lemma ForPostFound(ts: seq<Token>, a: Snap, s3: Snap, s5: Snap, h: Stmt)
    requires StmtDue(ts, a, h) && h.For? && s5.errors == 0 && s5.curr == PostPos(a.curr, h)
    requires CheckFirst(h.first, a.env) == Some(s3.env) && CheckOpt(h.cond, s3.env) == Some(s5.env)
    ensures PostDue(ts, s5, h.step)
  {
    hide Sees, PrintFirst, PrintOpt, PrintPost, PrintBlock, CheckFirst, CheckOpt, CheckPost, CheckBlock, ShapedBlock, ShapedOpt, PostPos;
    ForTokens(ts, a.curr, h);
  }

  lemma ForBodyFound(ts: seq<Token>, a: Snap, s3: Snap, s5: Snap, s10: Snap, h: Stmt)
    requires StmtDue(ts, a, h) && h.For? && s10.errors == 0 && s10.curr == BodyPos(a.curr, h)
    requires CheckFirst(h.first, a.env) == Some(s3.env) && CheckOpt(h.cond, s3.env) == Some(s5.env) && CheckPost(h.step, s5.env) == Some(s10.env)
    ensures BlockDue(ts, s10, h.body)
  {
    hide Sees, PrintFirst, PrintOpt, PrintPost, PrintBlock, CheckFirst, CheckOpt, CheckPost, CheckBlock, ShapedBlock, ShapedOpt, BodyPos;
    ForTokens(ts, a.curr, h);
  }

  // ----- for: steps of the third part -----

  lemma NoPostStep(ts: seq<Token>, a: Snap, h: ForPost)
    requires KindAt(ts, a.curr) == TRParen
    ensures PostStep(ts, a, a, h, NoPost)
  {
    hide Sees, Appends, PostDue;
    MarkRead(ts, a, a);
    if PostDue(ts, a, h) { PostHead(ts, a, h); PostDecided(ts, a, h); }
  }

  /** x++, ++x and their decrements compile only if x is a declared scalar, and are accepted in any case. */
  lemma PostBumpStep(ts: seq<Token>, a: Snap, s1: Snap, b: Snap, h: ForPost, x: string, up: bool, post: bool)
    requires BumpAt(ts, a.curr, x, up, post) && s1 == a.(curr := a.curr + 2)
    requires if CheckBump(x, a.env).Some? then Emits(s1, b, [BumpOf(Find(a.env.vars, x).value, up)]) else b == s1
    ensures PostStep(ts, a, b, h, if CheckBump(x, a.env).Some? then PostBump(x, up, post) else PostIgnored(x, up, post))
  {
    hide Sees, Appends, Find, PostDue;
    if CheckBump(x, a.env).Some? {
      BumpStepped(ts, a, s1, b, x, up, post);
      EmitsOnly(s1, b, [BumpOf(Find(a.env.vars, x).value, up)]);
    } else {
      BumpTokens(ts, a.curr, x, up, post);
      AppendsNothing(a.bytes);
    }
    if PostDue(ts, a, h) { PostHead(ts, a, h); PostDecided(ts, a, h); }
  }

  lemma PostDecided(ts: seq<Token>, a: Snap, h: ForPost)
    requires PostDue(ts, a, h)
    ensures h.PostBump? ==> CheckBump(h.x, a.env).Some?
    ensures h.PostIgnored? ==> CheckBump(h.x, a.env).None?
    ensures a.errors == 0
  {
    hide Sees, CheckBump;
  }

  lemma PostBareStep(ts: seq<Token>, a: Snap, b: Snap, h: ForPost, up: bool)
    requires KindAt(ts, a.curr) == BumpTok(up) && !KindAt(ts, a.curr + 1).TIdent? && b == a.(curr := a.curr + 1)
    ensures PostStep(ts, a, b, h, PostBare(up))
  {
    hide Sees, Appends, PostDue;
    TokenRead(ts, a, b, BumpTok(up));
    if PostDue(ts, a, h) { PostHead(ts, a, h); PostDecided(ts, a, h); }
  }

  /** The hint for an assignment in a header. */
  function AssignHint(h: ForPost): Expr {
    if h.PostAssign? then h.e else Num(0)
  }

  lemma PostAssignStep(ts: seq<Token>, a: Snap, b: Snap, h: ForPost, x: string, op: AssignOp, e: Expr)
    requires KindAt(ts, a.curr) == TIdent(x) && KindAt(ts, a.curr + 1) == AssignTok(op)
    requires AssignStep(ts, a, b, false, x, op, AssignHint(h), e) && b.env.vars == a.env.vars
    ensures PostStep(ts, a, b, h, PostAssign(x, op, e))
  {
    hide Reads, Appends, CheckAssign, PrintExpr, Shaped, Words64, AssignCode, PostDue;
    if PostDue(ts, a, h) { PostAssignFound(ts, a, h, x, op); }
  }

  lemma PostAssignFound(ts: seq<Token>, a: Snap, h: ForPost, x: string, op: AssignOp)
    requires PostDue(ts, a, h) && KindAt(ts, a.curr) == TIdent(x) && KindAt(ts, a.curr + 1) == AssignTok(op)
    ensures h.PostAssign? && h.x == x && h.op == op && AssignDue(ts, a, false, x, op, h.e)
  {
    hide Sees, PrintExpr, CheckAssign, Shaped;
    PostHead(ts, a, h);
  }

  lemma PostExprStep(ts: seq<Token>, a: Snap, b: Snap, h: ForPost, e: Expr, t: Type)
    requires ExprStep(ts, a, b, 0, if h.PostExpr? then h.e else Num(0), e, t)
    requires KindAt(ts, a.curr) != TRParen && !IsBumpTok(KindAt(ts, a.curr))
    requires KindAt(ts, a.curr).TIdent? ==> !IsBumpTok(KindAt(ts, a.curr + 1)) && !IsAssignTok(KindAt(ts, a.curr + 1))
    ensures PostStep(ts, a, b, h, PostExpr(e))
  {
    hide Sees, Appends, PrintExpr, CheckExpr, Shaped, Words64, CompileExpr, PostDue, ExprStep;
    ExprRead(ts, a, b, if h.PostExpr? then h.e else Num(0), e, t);
    if b.errors == 0 { BumpFree(ts, a.curr, e); }
    if PostDue(ts, a, h) {
      PostExprFound(ts, a, h);
      StepExpected(ts, a, b, 0, h.e, e, t);
    }
  }

  lemma BumpFree(ts: seq<Token>, p: nat, e: Expr)
    requires Sees(ts, p, PrintExpr(e)) && !IsBumpTok(KindAt(ts, p)) && (KindAt(ts, p).TIdent? ==> !IsBumpTok(KindAt(ts, p + 1)))
    ensures !StartsBump(PrintExpr(e))
  {
    hide Sees, PrintExpr;
    SeesAt(ts, p, PrintExpr(e), 0);
    if |PrintExpr(e)| > 1 { SeesAt(ts, p, PrintExpr(e), 1); }
  }

  lemma PostExprFound(ts: seq<Token>, a: Snap, h: ForPost)
    requires PostDue(ts, a, h) && KindAt(ts, a.curr) != TRParen && !IsBumpTok(KindAt(ts, a.curr))
    requires KindAt(ts, a.curr).TIdent? ==> !IsBumpTok(KindAt(ts, a.curr + 1)) && !IsAssignTok(KindAt(ts, a.curr + 1))
    ensures h.PostExpr? && Expected(ts, a, 0, h.e)
  {
    hide Sees, PrintExpr, CheckExpr, Shaped, Expected;
    PostHead(ts, a, h);
    DueExpected(ts, a, h.e);
  }

  // ----- for: steps of the first part -----

  lemma NoInitStep(ts: seq<Token>, a: Snap, h: ForInit)
    requires KindAt(ts, a.curr) == TSemi
    ensures FirstStep(ts, a, a, h, NoInit)
  {
    hide Sees, Appends, FirstDue;
    MarkRead(ts, a, a);
    if FirstDue(ts, a, h) { FirstHead(ts, a, h); FirstErrorFree(ts, a, h); }
  }

  lemma FirstAssignStep(ts: seq<Token>, a: Snap, b: Snap, h: ForInit, x: string, op: AssignOp, e: Expr)
    requires KindAt(ts, a.curr) == TIdent(x) && KindAt(ts, a.curr + 1) == AssignTok(op)
    requires AssignStep(ts, a, b, false, x, op, if h.InitAssign? then h.e else Num(0), e)
    ensures FirstStep(ts, a, b, h, InitAssign(x, op, e))
  {
    hide Reads, Appends, CheckAssign, PrintExpr, Shaped, Words64, AssignCode, FirstDue;
    if FirstDue(ts, a, h) { FirstAssignFound(ts, a, h, x, op); }
  }

  lemma FirstAssignFound(ts: seq<Token>, a: Snap, h: ForInit, x: string, op: AssignOp)
    requires FirstDue(ts, a, h) && KindAt(ts, a.curr) == TIdent(x) && KindAt(ts, a.curr + 1) == AssignTok(op)
    ensures h.InitAssign? && h.x == x && h.op == op && AssignDue(ts, a, false, x, op, h.e)
  {
    hide Sees, PrintExpr, CheckAssign, Shaped, CheckDecl, CheckIn;
    FirstHead(ts, a, h);
  }

  lemma FirstExprStep(ts: seq<Token>, a: Snap, b: Snap, h: ForInit, e: Expr, t: Type)
    requires ExprStep(ts, a, b, 0, if h.InitExpr? then h.e else Num(0), e, t)
    requires KindAt(ts, a.curr) != TSemi && !KindAt(ts, a.curr).TType?
    requires KindAt(ts, a.curr).TIdent? ==> !IsAssignTok(KindAt(ts, a.curr + 1))
    ensures FirstStep(ts, a, b, h, InitExpr(e))
  {
    hide Reads, Appends, PrintExpr, CheckExpr, Shaped, Words64, CompileExpr, FirstDue, ExprStep;
    ExprRead(ts, a, b, if h.InitExpr? then h.e else Num(0), e, t);
    if FirstDue(ts, a, h) {
      FirstExprFound(ts, a, h);
      StepExpected(ts, a, b, 0, h.e, e, t);
    }
  }

  lemma FirstExprFound(ts: seq<Token>, a: Snap, h: ForInit)
    requires FirstDue(ts, a, h) && KindAt(ts, a.curr) != TSemi && !KindAt(ts, a.curr).TType?
    requires KindAt(ts, a.curr).TIdent? ==> !IsAssignTok(KindAt(ts, a.curr + 1))
    ensures h.InitExpr? && Expected(ts, a, 0, h.e)
  {
    hide Sees, PrintExpr, CheckExpr, Shaped, Expected, CheckDecl, CheckAssign;
    FirstHead(ts, a, h);
    DueExpected(ts, a, h.e);
  }

  // ----- what keywords announce -----

  lemma WhileDue(ts: seq<Token>, a: Snap, h: Stmt)
    requires StmtDue(ts, a, h) && KindAt(ts, a.curr) == TWhile
    ensures h.While? && GuardDue(ts, a, h.c)
  {
    hide StmtDue, GuardDue;
    DueHead(ts, a, h);
    WhileFound(ts, a, h);
  }

  lemma IfDue(ts: seq<Token>, a: Snap, h: Stmt)
    requires StmtDue(ts, a, h) && KindAt(ts, a.curr) == TIf
    ensures h.If? && GuardDue(ts, a, h.c)
  {
    hide StmtDue, GuardDue;
    DueHead(ts, a, h);
    IfFound(ts, a, h);
  }

  lemma DoDue(ts: seq<Token>, a: Snap, h: Stmt)
    requires StmtDue(ts, a, h) && KindAt(ts, a.curr) == TDo
    ensures h.DoWhile?
  {
    hide StmtDue;
    DueHead(ts, a, h);
  }

  lemma ForDue(ts: seq<Token>, a: Snap, h: Stmt)
    requires StmtDue(ts, a, h) && KindAt(ts, a.curr) == TFor
    ensures h.For? && KindAt(ts, a.curr + 1) == TLParen && FirstDue(ts, a.(curr := a.curr + 2), h.first)
    ensures KindAt(ts, a.curr + 2 + |PrintFirst(h.first)|) == TSemi
  {
    hide StmtDue, FirstDue, PrintFirst;
    DueHead(ts, a, h);
    ForFirstFound(ts, a, h);
  }

  lemma ElseUndue(ts: seq<Token>, a: Snap, h: Stmt)
    requires KindAt(ts, a.curr) == TElse
    ensures !StmtDue(ts, a, h)
  {
    hide StmtDue;
    if StmtDue(ts, a, h) { DueHead(ts, a, h); }
  }

  // ----- whole steps of statements with jumps -----

  lemma BlockGrows(ts: seq<Token>, a: Snap, b: Snap, h: Block, k: Block)
    requires BlockStep(ts, a, b, h, k)
    ensures a.curr < b.curr && Grew(a, b) && BlockBuilt(ts, a, b, k)
  {
  }

  /** A due block is found, and the parser stops right after it. */
  lemma BlockFound(ts: seq<Token>, a: Snap, b: Snap, h: Block, k: Block)
    requires BlockDue(ts, a, h) && BlockStep(ts, a, b, h, k)
    ensures b.errors == 0 && k == h && b.curr == a.curr + |PrintBlock(h)| && CheckBlock(h, a.env) == Some(b.env)
  {
    hide Sees, Appends;
  }

  lemma WhileStep(ts: seq<Token>, a: Snap, s3: Snap, s4: Snap, s5: Snap, s6: Snap, s7: Snap, b: Snap, h: Stmt, e: Expr, hb: Block, body: Block)
    requires GuardBuilt(ts, a, s3, s4, s5, TWhile, e) && BlockStep(ts, s5, s6, hb, body)
    requires Emits(s6, s7, [Jmp(|a.bytes| - (|s6.bytes| + JmpSize))]) && Patched(s4, s7, b, 2)
    requires StmtDue(ts, a, h) ==> h.While? && hb == h.body && GuardMet(a, s5, h.c, e)
    ensures StmtStep(ts, a, b, h, While(e, body))
  {
    hide GuardBuilt, BlockStep, StmtDue, StmtBuilt, Appends, Patches;
    BlockGrows(ts, s5, s6, hb, body);
    WhileBuilds(ts, a, s3, s4, s5, s6, s7, b, e, body);
    if StmtDue(ts, a, h) {
      WhileBodyFound(ts, a, s5, h);
      BlockFound(ts, s5, s6, hb, body);
    }
  }

  lemma IfStep(ts: seq<Token>, a: Snap, s3: Snap, s4: Snap, s5: Snap, s6: Snap, b: Snap, h: Stmt, e: Expr, ht: Block, thn: Block)
    requires GuardBuilt(ts, a, s3, s4, s5, TIf, e) && BlockStep(ts, s5, s6, ht, thn) && KindAt(ts, s6.curr) != TElse
    requires Patched(s4, s6, b, 2)
    requires StmtDue(ts, a, h) ==> h.If? && ht == h.thn && GuardMet(a, s5, h.c, e)
    ensures StmtStep(ts, a, b, h, If(e, thn, None))
  {
    hide GuardBuilt, BlockStep, StmtDue, StmtBuilt, Appends, Patches;
    BlockGrows(ts, s5, s6, ht, thn);
    IfBuilds(ts, a, s3, s4, s5, s6, b, e, thn);
    if StmtDue(ts, a, h) {
      ThenFound(ts, a, s5, h);
      BlockFound(ts, s5, s6, ht, thn);
    }
  }

  lemma IfElseStep(ts: seq<Token>, a: Snap, s3: Snap, s4: Snap, s5: Snap, s6: Snap, m: Snap, s7: Snap, s8: Snap, s9: Snap, b: Snap, h: Stmt,
                   e: Expr, ht: Block, thn: Block, he: Block, els: Block)
    requires GuardBuilt(ts, a, s3, s4, s5, TIf, e) && BlockStep(ts, s5, s6, ht, thn) && KindAt(ts, s6.curr) == TElse
    requires m == s6.(curr := s6.curr + 1) && Emits(m, s7, [Jmp(0)]) && Patched(s4, s7, s8, 2)
    requires BlockStep(ts, s8, s9, he, els) && Patched(m, s9, b, 1)
    requires StmtDue(ts, a, h) ==> h.If? && ht == h.thn && GuardMet(a, s5, h.c, e)
    requires StmtDue(ts, a, h) && h.els.Some? ==> he == h.els.value
    ensures StmtStep(ts, a, b, h, If(e, thn, Some(els)))
  {
    hide GuardBuilt, BlockStep, StmtDue, StmtBuilt, Appends, Patches;
    BlockGrows(ts, s5, s6, ht, thn);
    BlockGrows(ts, s8, s9, he, els);
    IfElseBuilds(ts, a, s3, s4, s5, s6, m, s7, s8, s9, b, e, thn, els);
    if StmtDue(ts, a, h) {
      ThenFound(ts, a, s5, h);
      BlockFound(ts, s5, s6, ht, thn);
      ElseFound(ts, a, s5, s8, h);
      BlockFound(ts, s8, s9, he, els);
    }
  }

  /** After the body of an expected do-while, 'while (' and the condition are read as expected. */
  lemma DoCondDue(ts: seq<Token>, a: Snap, s1: Snap, s2: Snap, s3: Snap, s4: Snap, h: Stmt, body: Block)
    requires StmtDue(ts, a, h) && h.DoWhile? && s1 == a.(curr := a.curr + 1) && BlockStep(ts, s1, s2, h.body, body)
    requires Expects(ts, s2, s3, TWhile) && Expects(ts, s3, s4, TLParen)
    ensures body == h.body && ExprDue(ts, s4, h.c) && KindAt(ts, s4.curr) != TRParen
    ensures KindAt(ts, s4.curr + |PrintExpr(h.c)|) == TRParen && KindAt(ts, s4.curr + |PrintExpr(h.c)| + 1) == TSemi
  {
    hide StmtDue, BlockStep, BlockDue, ExprDue, PrintExpr, PrintBlock, Sees, Shaped, CheckIn, CheckBlock;
    DoWhileFound(ts, a, h);
    BlockFound(ts, s1, s2, h.body, body);
    DoWhileCondFound(ts, a, s4, h);
    DueStarts(ts, s4, h.c);
  }

  lemma DoNotEmpty(ts: seq<Token>, a: Snap, s1: Snap, s2: Snap, s3: Snap, s4: Snap, h: Stmt, body: Block)
    requires StmtDue(ts, a, h) && h.DoWhile? && s1 == a.(curr := a.curr + 1) && BlockStep(ts, s1, s2, h.body, body)
    requires Expects(ts, s2, s3, TWhile) && Expects(ts, s3, s4, TLParen)
    ensures KindAt(ts, s4.curr) != TRParen
  {
    hide StmtDue, BlockStep, ExprDue, Expects;
    DoCondDue(ts, a, s1, s2, s3, s4, h, body);
  }

  lemma DoGrows(ts: seq<Token>, a: Snap, s1: Snap, s2: Snap, s3: Snap, s4: Snap, hb: Block, body: Block)
    requires s1 == a.(curr := a.curr + 1) && BlockStep(ts, s1, s2, hb, body)
    requires Expects(ts, s2, s3, TWhile) && Expects(ts, s3, s4, TLParen)
    ensures Grew(a, s4) && a.curr < s4.curr
  {
    hide BlockStep, BlockBuilt;
    BlockGrows(ts, s1, s2, hb, body);
  }

  lemma DueStarts(ts: seq<Token>, a: Snap, e: Expr)
    requires ExprDue(ts, a, e)
    ensures !Closes(KindAt(ts, a.curr)) && a.errors == 0
  {
    hide Sees, CheckExpr;
    ExprStarts(ts, a.curr, e);
  }

  lemma DoStep(ts: seq<Token>, a: Snap, s1: Snap, s2: Snap, s3: Snap, s4: Snap, s5: Snap, s6: Snap, s7: Snap, s8: Snap, s9: Snap, b: Snap,
               h: Stmt, hb: Block, body: Block, hc: Expr, e: Expr, t: Type)
    requires KindAt(ts, a.curr) == TDo && s1 == a.(curr := a.curr + 1) && BlockStep(ts, s1, s2, hb, body)
    requires Expects(ts, s2, s3, TWhile) && Expects(ts, s3, s4, TLParen) && ExprStep(ts, s4, s5, 0, hc, e, t)
    requires Expects(ts, s5, s6, TRParen) && Expects(ts, s6, s7, TSemi)
    requires Emits(s7, s8, [TestRaxRax]) && Emits(s8, s9, [Jnz(0)]) && PatchedBack(s9, b, |s8.bytes| + 2, |a.bytes|)
    requires StmtDue(ts, a, h) ==> h.DoWhile? && hb == h.body && hc == h.c
    ensures StmtStep(ts, a, b, h, DoWhile(body, e))
  {
    hide BlockStep, StmtDue, StmtBuilt, Appends, ExprStep, I32, Sees, PrintExpr, CompileExpr, CheckIn, BlockBuilt, Reads, Shaped, Words64, CheckBlock;
    BlockGrows(ts, s1, s2, hb, body);
    ExprRead(ts, s4, s5, hc, e, t);
    DoWhileBuilds(ts, a, s1, s2, s3, s4, s5, s6, s7, s8, s9, b, body, e);
    if StmtDue(ts, a, h) {
      DoCondDue(ts, a, s1, s2, s3, s4, h, body);
      DueFound(ts, s4, s5, hc, e, t);
    }
  }

  function AssignOpOf(k: Tok): (op: AssignOp)
    requires IsAssignTok(k)
    ensures AssignTok(op) == k
  {
    match k case TAssign => Set case TPlusEq => AddTo case TMinusEq => SubFrom case TStarEq => MulBy case TSlashEq => DivBy case _ => ModBy
  }

  ghost predicate CondDue(ts: seq<Token>, a: Snap, h: Option<Expr>) {
    a.errors == 0 && (KindAt(ts, a.curr) == TSemi <==> h.None?) && (h.Some? ==> ExprDue(ts, a, h.value))
  }

  predicate CondMet(a: Snap, b: Snap, h: Option<Expr>) {
    b.errors == 0 && b.curr == a.curr + |PrintOpt(h)| && CheckOpt(h, a.env) == Some(b.env)
  }

  lemma NoCondStep(ts: seq<Token>, a: Snap, h: Option<Expr>)
    requires KindAt(ts, a.curr) == TSemi
    ensures CondBuilt(ts, a, a, a, a, None)
    ensures CondDue(ts, a, h) ==> None == h && CondMet(a, a, h)
  {
    hide ExprDue;
  }

  lemma CondStep(ts: seq<Token>, a: Snap, m1: Snap, m2: Snap, b: Snap, h: Option<Expr>, he: Expr, e: Expr, t: Type)
    requires KindAt(ts, a.curr) != TSemi && ExprStep(ts, a, m1, 0, he, e, t) && (h.Some? ==> he == h.value)
    requires Emits(m1, m2, [TestRaxRax]) && Emits(m2, b, [Jz(0)])
    ensures CondBuilt(ts, a, m1, m2, b, Some(e)) && a.curr < b.curr
    ensures CondDue(ts, a, h) ==> Some(e) == h && CondMet(a, b, h)
  {
    hide Reads, Appends, ExprStep, CompileExpr, CheckExpr, PrintExpr, Shaped, Words64, ExprDue;
    ExprRead(ts, a, m1, he, e, t);
    if CondDue(ts, a, h) { DueFound(ts, a, m1, he, e, t); }
  }

  ghost predicate LoopDue(ts: seq<Token>, a: Snap, hp: ForPost, hb: Block) {
    PostDue(ts, a, hp) &&
    forall s10: Snap :: s10.errors == 0 && s10.curr == a.curr + |PrintPost(hp)| + 1 && CheckPost(hp, a.env) == Some(s10.env) ==> BlockDue(ts, s10, hb)
  }

  lemma PostGrows(ts: seq<Token>, a: Snap, m: Snap, b: Snap, h: ForPost, p: ForPost)
    requires PostStep(ts, a, m, h, p) && Expects(ts, m, b, TRParen)
    ensures a.curr <= b.curr
  {
  }

  lemma LoopStep(ts: seq<Token>, a: Snap, s6: Snap, s7: Snap, s8: Snap, s9: Snap, s10: Snap, s11: Snap, b: Snap,
                 start: nat, guard: nat, hp: ForPost, step: ForPost, hb: Block, body: Block)
    requires Emits(a, s6, [Jmp(0)]) && PostStep(ts, s6, s7, hp, step) && Expects(ts, s7, s8, TRParen)
    requires Emits(s8, s9, [Jmp(start - (|s8.bytes| + JmpSize))]) && Patched(a, s9, s10, 1)
    requires BlockStep(ts, s10, s11, hb, body) && Emits(s11, b, [Jmp(|s6.bytes| - (|s11.bytes| + JmpSize))])
    ensures LoopBuilt(ts, a, b, start, guard, step, body)
    ensures LoopDue(ts, a, hp, hb) ==> b.errors == 0 && step == hp && body == hb
  {
    hide PostBuilt, BlockStep, BlockBuilt, LoopBuilt, LoopDue, PostDue, Patches, Appends;
    BlockGrows(ts, s10, s11, hb, body);
    LoopBuilds(ts, a, s6, s7, s8, s9, s10, s11, b, start, guard, step, body);
    if LoopDue(ts, a, hp, hb) {
      PostFound(ts, a, s6, s7, hp, hb, step);
      BlockFound(ts, s10, s11, hb, body);
    }
  }

  /** The third part of an expected loop is found, and its body is expected after the parenthesis. */
  lemma PostFound(ts: seq<Token>, a: Snap, s6: Snap, s7: Snap, hp: ForPost, hb: Block, step: ForPost)
    requires LoopDue(ts, a, hp, hb) && s6 == a.(bytes := s6.bytes) && PostStep(ts, s6, s7, hp, step)
    ensures s7.errors == 0 && step == hp && KindAt(ts, s7.curr) == TRParen
    ensures forall s10: Snap :: s10 == s7.(curr := s7.curr + 1, bytes := s10.bytes) ==> BlockDue(ts, s10, hb)
  {
    hide Sees, Appends, BlockDue, PrintPost, CheckPost, ShapedPost;
    assert PostDue(ts, s6, hp);
  }

  /** The first part of an expected for was read without errors. */
  predicate FirstMet(a: Snap, s3: Snap, h: Stmt, first: ForInit)
    requires h.For?
  {
    s3.errors == 0 && first == h.first && s3.curr == CondPos(a.curr, h) && CheckFirst(first, a.env) == Some(s3.env)
  }

  lemma ForFirstGrows(ts: seq<Token>, a: Snap, s1: Snap, s2: Snap, s3: Snap, first: ForInit, h: Stmt)
    requires Expects(ts, a.(curr := a.curr + 1), s1, TLParen) && Expects(ts, s2, s3, TSemi) && KindAt(ts, a.curr) == TFor
    requires FirstStep(ts, s1, s2, if h.For? then h.first else NoInit, first)
    ensures FirstBuilt(ts, s1, s2, first) && a.curr < s3.curr
    ensures StmtDue(ts, a, h) ==> h.For? && FirstMet(a, s3, h, first)
  {
    hide Sees, Appends, StmtDue, CheckFirst, PrintFirst, FirstDue, ShapedFirst, Words64First, InitCode;
    if StmtDue(ts, a, h) {
      ForDue(ts, a, h);
    }
  }

  lemma CondIsDue(ts: seq<Token>, a: Snap, s3: Snap, h: Stmt, first: ForInit)
    requires StmtDue(ts, a, h) && h.For? && FirstMet(a, s3, h, first)
    ensures CondDue(ts, s3, h.cond)
  {
    hide StmtDue, ExprDue;
    ForCondFound(ts, a, s3, h);
  }

  lemma LoopIsDue(ts: seq<Token>, a: Snap, s3: Snap, s4: Snap, s5: Snap, h: Stmt, first: ForInit)
    requires StmtDue(ts, a, h) && h.For? && FirstMet(a, s3, h, first) && CondMet(s3, s4, h.cond) && Expects(ts, s4, s5, TSemi)
    ensures LoopDue(ts, s5, h.step, h.body)
  {
    hide StmtDue, ExprDue, PostDue, BlockDue, PrintFirst, PrintOpt, PrintPost, CheckFirst, CheckOpt, CheckPost;
    ForCondFound(ts, a, s3, h);
    ForPostFound(ts, a, s3, s5, h);
    forall s10: Snap | s10.errors == 0 && s10.curr == s5.curr + |PrintPost(h.step)| + 1 && CheckPost(h.step, s5.env) == Some(s10.env)
      ensures BlockDue(ts, s10, h.body)
    {
      ForBodyFound(ts, a, s3, s5, s10, h);
    }
  }

  lemma ForStep(ts: seq<Token>, a: Snap, r: ForTrace, b: Snap, h: Stmt)
    requires ForTraced(ts, a, r) && if r.cond.None? then b == r.s6 else Patched(r.m2, r.s6, b, 2)
    requires StmtDue(ts, a, h) ==> r.s6.errors == 0 && h == For(r.first, r.cond, r.step, r.body)
    ensures StmtStep(ts, a, b, h, For(r.first, r.cond, r.step, r.body))
  {
    hide ForTraced, StmtDue, StmtBuilt, Patches;
    ForBuilds(ts, a, r, b);
  }
}
