/**
 * When the emitted code means what it should. `Sound` is a syntactic condition on where && and || may stand; under it
 * Emitted and Meaning agree on every run, and the words left on the stack are exactly the short-circuit jumps taken.
 */
module Faithful {
  import opened Words
  import opened Syntax
  import opened Meaning
  import opened Emitted

  /** Which words (0 or 1) an expression may leave on the stack when its own value is false (F) or true (T). */
  datatype Leak = Leak(zeroF: bool, zeroT: bool, oneF: bool, oneT: bool) {
    predicate Any() {
      zeroF || zeroT || oneF || oneT
    }

    function AnyTruth(): Leak {
      Leak(zeroF || zeroT, zeroF || zeroT, oneF || oneT, oneF || oneT)
    }
  }

  const NoLeak := Leak(false, false, false, false)

  /** A false left operand leaves its 0; a right operand that leaks has its word popped and the left operand's 1 stays. */
  function LeakOfAnd(l: Leak, r: Leak): Leak {
    Leak(true, l.zeroT || r.zeroT, l.oneF || l.oneT || r.oneF || r.zeroF, l.oneT || r.oneT || r.zeroT)
  }

  function LeakOfOr(l: Leak, r: Leak): Leak {
    Leak(l.zeroF || r.zeroF || r.oneF, l.zeroF || l.zeroT || r.zeroT || r.oneT, l.oneF || r.oneF, true)
  }

  function LeakOf(e: Expr): Leak {
    match e
    case Cast(_, e1) => LeakOf(e1).AnyTruth()
    case Neg(e1) => LeakOf(e1).AnyTruth()
    case Deref(e1) => LeakOf(e1).AnyTruth()
    case Not(e1) =>
      var k := LeakOf(e1);
      Leak(k.zeroT, k.zeroF, k.oneT, k.oneF)
    case Paren(e1) => LeakOf(e1)
    case Bin(_, l, _) => LeakOf(l).AnyTruth()
    case And(l, r) => LeakOfAnd(LeakOf(l), LeakOf(r))
    case Or(l, r) => LeakOfOr(LeakOf(l), LeakOf(r))
    case _ => NoLeak
  }

  /** The sum that the compiler scales on the wrong side, unless the pointed-to type has one byte. */
  predicate ScalesWrongSide(op: BinOp, tl: Type, tr: Type) {
    op == Add && !tl.isPtr && tr.isPtr && tr.base.Bytes() > 1
  }

  /** A name that moves by one byte when it moves by one element. */
  predicate StepsWell(vs: Table, x: string) {
    match Find(vs, x) case None => true case Some(v) => StepOf(v) == 1
  }

  predicate Sound(e: Expr, vs: Table) {
    match e
    case Index(_, i) => Sound(i, vs) && !LeakOf(i).Any()
    case Bump(x, _, _) => StepsWell(vs, x)
    case Cast(_, e1) => Sound(e1, vs)
    case Not(e1) => Sound(e1, vs)
    case Neg(e1) => Sound(e1, vs)
    case Deref(e1) => Sound(e1, vs)
    case Paren(e1) => Sound(e1, vs)
    case Bin(op, l, r) =>
      Sound(l, vs) && Sound(r, vs) && !LeakOf(r).Any() && !ScalesWrongSide(op, TypeOf(l, vs), TypeOf(r, vs))
    case And(l, r) => Sound(l, vs) && Sound(r, vs) && !LeakOf(r).zeroT
    case Or(l, r) => Sound(l, vs) && Sound(r, vs) && !LeakOf(r).oneF
    case _ => true
  }

  /** Short-circuit jumps taken by an evaluation. */
  function Skips(e: Expr, vs: Table, base: int, mem: Memory): nat
    decreases e, 0
  {
    match e
    case Index(_, i) => Skips(i, vs, base, mem)
    case Cast(_, e1) => Skips(e1, vs, base, mem)
    case Not(e1) => Skips(e1, vs, base, mem)
    case Neg(e1) => Skips(e1, vs, base, mem)
    case Deref(e1) => Skips(e1, vs, base, mem)
    case Paren(e1) => Skips(e1, vs, base, mem)
    case Bin(_, l, r) => Skips(l, vs, base, mem) + SkipsAfter(Eval(l, vs, base, mem), r, vs, base)
    case And(l, r) =>
      var x := Eval(l, vs, base, mem);
      Skips(l, vs, base, mem) + if x.Val? && x.v == 0 then 1 else SkipsAfter(x, r, vs, base)
    case Or(l, r) =>
      var x := Eval(l, vs, base, mem);
      Skips(l, vs, base, mem) + if x.Val? && x.v != 0 then 1 else SkipsAfter(x, r, vs, base)
    case _ => 0
  }

  function SkipsAfter(x: Value, r: Expr, vs: Table, base: int): nat
    decreases r, 1
  {
    match x case Val(_, m) => Skips(r, vs, base, m) case _ => 0
  }

  /** The words left when the right operand has run over a pushed word b and one word is popped. */
  function Kept(b: int, us: seq<int>): seq<int> {
    ([b] + us)[..|us|]
  }

  function Taken(b: int, us: seq<int>): int {
    ([b] + us)[|us|]
  }

  /**
   * The words a sound expression leaves, oldest first, read off the source: 0 for an && decided by its left operand,
   * 1 for an ||. Where a right operand has left words of its own, the pop takes the last of them.
   */
  function Trail(e: Expr, vs: Table, base: int, mem: Memory): seq<int>
    decreases e, 0
  {
    match e
    case Cast(_, e1) => Trail(e1, vs, base, mem)
    case Not(e1) => Trail(e1, vs, base, mem)
    case Neg(e1) => Trail(e1, vs, base, mem)
    case Deref(e1) => Trail(e1, vs, base, mem)
    case Paren(e1) => Trail(e1, vs, base, mem)
    case Bin(_, l, _) => Trail(l, vs, base, mem)
    case And(l, r) =>
      var x := Eval(l, vs, base, mem);
      Trail(l, vs, base, mem) + if x.Val? && x.v == 0 then [0] else Kept(1, TrailAfter(x, r, vs, base))
    case Or(l, r) =>
      var x := Eval(l, vs, base, mem);
      Trail(l, vs, base, mem) + if x.Val? && x.v != 0 then [1] else Kept(0, TrailAfter(x, r, vs, base))
    case _ => []
  }

  function TrailAfter(x: Value, r: Expr, vs: Table, base: int): seq<int>
    decreases r, 1
  {
    match x case Val(_, m) => Trail(r, vs, base, m) case _ => []
  }

  /** The leaked words ws are among those k permits for a value of this truth. */
  ghost predicate Permits(k: Leak, ws: seq<int>, truth: bool) {
    forall i :: 0 <= i < |ws| ==> Permitted(k, ws[i], truth)
  }

  predicate Permitted(k: Leak, w: int, truth: bool) {
    if w == 0 then (if truth then k.zeroT else k.zeroF) else w == 1 && (if truth then k.oneT else k.oneF)
  }

  /** The emitted effect is the meant one, with ws left on the stack. */
  ghost predicate Same(x: Value, eff: Effect, k: Leak, stack: seq<int>, ws: seq<int>) {
    match x
    case Val(v, m) => eff == Gives(v, State(m, stack + ws)) && Permits(k, ws, v != 0)
    case Trap => eff == Faults
    case Wild => eff == Strays
  }

  lemma PopRestores(m: Memory, stack: seq<int>, x: int)
    ensures Popped(State(m, stack + [x])) == State(m, stack) && TopOf(State(m, stack + [x])) == x
  {
    assert (stack + [x])[..|stack|] == stack;
  }

  lemma AccessSame(x: Value, s: State)
    ensures Same(x, Lift(x, s), NoLeak, s.stack, [])
  {
    assert s.stack + [] == s.stack;
  }

  lemma BinarySame(op: BinOp, tl: Type, tr: Type, x: int, y: int)
    requires !ScalesWrongSide(op, tl, tr)
    ensures EmittedBinary(op, tl, tr, x, y) == Binary(op, tl, tr, x, y)
  {
    hide TruncDiv, TruncMod, Wrap;
    if op == Add && !tl.isPtr && tr.isPtr {
      assert x * 1 == x && y * 1 == y;
      WrapSum(x, y);
      WrapSum(y, x);
      assert x + y == y + x && Wrap(x) + y == y + Wrap(x);
    }
  }

  lemma BumpSame(mem: Memory, base: int, v: VarInfo, up: bool, post: bool)
    requires StepOf(v) == 1
    ensures Bumped(mem, base, v, up, post) == BumpVar(mem, base, v, up, post)
  {
    hide ReadVar, WriteVar;
  }

  lemma UpdateSame(v: VarInfo, op: AssignOp, x: int, y: int)
    requires op == AddTo || op == SubFrom ==> StepOf(v) == 1
    ensures Update(op, x, Moved(v, op, y)) == Update(op, x, y) && Update(Set, x, y) == Some(y)
  {
    hide Wrap, TruncDiv, TruncMod;
    if v.ty.isPtr && (op == AddTo || op == SubFrom) {
      assert y * 1 == y;
      if op == AddTo { WrapSum(x, y); } else { WrapDifference(x, y); }
    }
  }

  lemma WrapDifference(x: int, y: int)
    ensures Wrap(x - Wrap(y)) == Wrap(x - y)
  {
    var k := (y + TWO_63) / TWO_64;
    assert Wrap(y) == y - TWO_64 * k;
    assert (x - y + TWO_63 + TWO_64 * k) % TWO_64 == (x - y + TWO_63) % TWO_64;
  }

  // Leaked words, operator by operator.

  lemma NothingLeaked(k: Leak, ws: seq<int>, truth: bool)
    requires Permits(k, ws, truth) && !k.Any()
    ensures ws == []
  {
    assert |ws| > 0 ==> Permitted(k, ws[0], truth);
  }

  lemma Widen(k: Leak, ws: seq<int>, truth: bool, truth': bool)
    requires Permits(k, ws, truth)
    ensures Permits(k.AnyTruth(), ws, truth')
  {
  }

  lemma PopLast(stack: seq<int>, ws: seq<int>, b: int, us: seq<int>, m: Memory)
    ensures var s := State(m, stack + ws + [b] + us);
            Popped(s) == State(m, stack + (ws + Kept(b, us))) && TopOf(s) == Taken(b, us)
  {
    var all := stack + ws + [b] + us;
    assert all[..|all| - 1] == stack + (ws + Kept(b, us));
  }

  lemma AndLeaks(l: Leak, r: Leak, ws: seq<int>, us: seq<int>, truth: bool)
    requires Permits(l, ws, true) && Permits(r, us, truth) && !r.zeroT
    ensures Permits(LeakOfAnd(l, r), ws + Kept(1, us), truth)
    ensures BitAnd(Truth(truth), Taken(1, us)) == Truth(truth)
  {
    hide BitAnd;
    BitOpsOnBooleans(Truth(truth), if truth then Taken(1, us) else 0, Taken(1, us));
  }

  lemma AndSkipLeaks(l: Leak, r: Leak, ws: seq<int>)
    requires Permits(l, ws, false)
    ensures Permits(LeakOfAnd(l, r), ws + [0], false)
  {
  }

  lemma OrLeaks(l: Leak, r: Leak, ws: seq<int>, us: seq<int>, truth: bool)
    requires Permits(l, ws, false) && Permits(r, us, truth) && !r.oneF
    ensures Permits(LeakOfOr(l, r), ws + Kept(0, us), truth)
    ensures BitOr(Truth(truth), Taken(0, us)) == Truth(truth)
  {
    hide BitOr;
    BitOpsOnBooleans(Truth(truth), Taken(0, us), 0);
  }

  lemma OrSkipLeaks(l: Leak, r: Leak, ws: seq<int>)
    requires Permits(l, ws, true)
    ensures Permits(LeakOfOr(l, r), ws + [1], true)
  {
  }

  /** Under Sound, what is emitted does what is meant; one word is left per short-circuit jump taken. */
  lemma {:induction false} ExprFaithful(e: Expr, vs: Table, base: int, s: State) returns (ws: seq<int>)
    requires Sound(e, vs)
    ensures Same(Eval(e, vs, base, s.mem), EvalE(e, vs, base, s), LeakOf(e), s.stack, ws)
    ensures Eval(e, vs, base, s.mem).Val? ==> |ws| == Skips(e, vs, base, s.mem) && ws == Trail(e, vs, base, s.mem)
    decreases e, 1
  {
    hide ReadAt, BumpVar, Bumped, Designated, Wrap, CastTo, Permits, LeakOfAnd, LeakOfOr, Binary, EmittedBinary;
    ws := [];
    NonePermitted();
    assert s.stack + [] == s.stack;
    match e
    case Num(_) =>
    case AddrOf(_) =>
    case Index(_, _) => IndexFaithful(e, vs, base, s);
    case Name(x) => if Find(vs, x).Some? { AccessSame(Designated(s.mem, base, Find(vs, x).value), s); }
    case Bump(x, up, post) =>
      if Find(vs, x).Some? {
        BumpSame(s.mem, base, Find(vs, x).value, up, post);
        AccessSame(BumpVar(s.mem, base, Find(vs, x).value, up, post), s);
      }
    case Cast(_, _) => ws := UnaryFaithful(e, vs, base, s);
    case Not(_) => ws := UnaryFaithful(e, vs, base, s);
    case Neg(_) => ws := UnaryFaithful(e, vs, base, s);
    case Deref(_) => ws := UnaryFaithful(e, vs, base, s);
    case Paren(e1) => ws := ExprFaithful(e1, vs, base, s);
    case Bin(_, _, _) => ws := BinFaithful(e, vs, base, s);
    case And(_, _) => ws := AndFaithful(e, vs, base, s);
    case Or(_, _) => ws := OrFaithful(e, vs, base, s);
  }

  lemma NonePermitted()
    ensures forall k: Leak, truth: bool :: Permits(k, [], truth)
  {
  }

  lemma UnaryFaithful(e: Expr, vs: Table, base: int, s: State) returns (ws: seq<int>)
    requires (e.Cast? || e.Not? || e.Neg? || e.Deref?) && Sound(e, vs)
    ensures Same(Eval(e, vs, base, s.mem), EvalE(e, vs, base, s), LeakOf(e), s.stack, ws)
    ensures Eval(e, vs, base, s.mem).Val? ==> |ws| == Skips(e, vs, base, s.mem) && ws == Trail(e, vs, base, s.mem)
    decreases e, 0
  {
    hide LoadExt, Wrap, CastTo, Permits;
    ws := ExprFaithful(e.e, vs, base, s);
    var x := Eval(e.e, vs, base, s.mem);
    if x.Val? {
      Widen(LeakOf(e.e), ws, x.v != 0, true);
      Widen(LeakOf(e.e), ws, x.v != 0, false);
      if e.Not? { Flip(LeakOf(e.e), ws, x.v != 0); }
    }
  }

  lemma Flip(k: Leak, ws: seq<int>, truth: bool)
    requires Permits(k, ws, truth)
    ensures Permits(Leak(k.zeroT, k.zeroF, k.oneT, k.oneF), ws, !truth)
  {
  }

  /** An element's address: the index must leave nothing on top of the array's address. */
  lemma ElementAddressFaithful(v: VarInfo, i: Expr, vs: Table, base: int, s: State)
    requires Sound(i, vs) && !LeakOf(i).Any()
    ensures Same(ElementAddress(v, i, vs, base, s.mem), ElementE(v, i, vs, base, s), NoLeak, s.stack, [])
    ensures ElementAddress(v, i, vs, base, s.mem).Val? ==> Skips(i, vs, base, s.mem) == 0
    decreases i, 2
  {
    hide Wrap, Scale, Permits, Designated, Eval, EvalE, Sound, LeakOf, Popped, TopOf;
    NonePermitted();
    assert s.stack + [] == s.stack;
    var d := Designated(s.mem, base, v);
    DesignatedKeeps(s.mem, base, v);
    if d.Val? {
      var s1 := Pushed(s, d.v);
      var ws := ExprFaithful(i, vs, base, s1);
      var k := Eval(i, vs, base, s.mem);
      if k.Val? {
        NothingLeaked(LeakOf(i), ws, k.v != 0);
        PopRestores(k.mem, s.stack, d.v);
        assert s1.stack + [] == s1.stack;
      }
    }
  }

  lemma IndexFaithful(e: Expr, vs: Table, base: int, s: State)
    requires e.Index? && Sound(e, vs)
    ensures Same(Eval(e, vs, base, s.mem), EvalE(e, vs, base, s), NoLeak, s.stack, [])
    ensures Eval(e, vs, base, s.mem).Val? ==> Skips(e, vs, base, s.mem) == 0 && Trail(e, vs, base, s.mem) == []
    decreases e, 0
  {
    hide ReadAt, Permits, ElementAddress, ElementE;
    if Find(vs, e.x).Some? {
      var v := Find(vs, e.x).value;
      ElementAddressFaithful(v, e.i, vs, base, s);
      var a := ElementAddress(v, e.i, vs, base, s.mem);
      if a.Val? {
        assert s.stack + [] == s.stack;
        AccessSame(ReadAt(a.mem, a.v, v.ty.base.Width(), v.ty.base.Signed()), State(a.mem, s.stack));
      }
    }
  }

  lemma DesignatedKeeps(mem: Memory, base: int, v: VarInfo)
    ensures Designated(mem, base, v).Val? ==> Designated(mem, base, v).mem == mem
  {
  }

  lemma {:induction false} BinFaithful(e: Expr, vs: Table, base: int, s: State) returns (ws: seq<int>)
    requires e.Bin? && Sound(e, vs)
    ensures Same(Eval(e, vs, base, s.mem), EvalE(e, vs, base, s), LeakOf(e), s.stack, ws)
    ensures Eval(e, vs, base, s.mem).Val? ==> |ws| == Skips(e, vs, base, s.mem) && ws == Trail(e, vs, base, s.mem)
    decreases e, 0
  {
    hide Binary, EmittedBinary, Permits;
    ws := ExprFaithful(e.l, vs, base, s);
    var x := Eval(e.l, vs, base, s.mem);
    if x.Val? {
      Widen(LeakOf(e.l), ws, x.v != 0, true);
      Widen(LeakOf(e.l), ws, x.v != 0, false);
      var s1 := State(x.mem, s.stack + ws);
      var us := ExprFaithful(e.r, vs, base, Pushed(s1, x.v));
      var y := Eval(e.r, vs, base, x.mem);
      if y.Val? {
        NothingLeaked(LeakOf(e.r), us, y.v != 0);
        assert Pushed(s1, x.v).stack + [] == s1.stack + [x.v];
        PopRestores(y.mem, s1.stack, x.v);
        BinarySame(e.op, TypeOf(e.l, vs), TypeOf(e.r, vs), x.v, y.v);
      }
    }
  }

  lemma {:induction false} AndFaithful(e: Expr, vs: Table, base: int, s: State) returns (ws: seq<int>)
    requires e.And? && Sound(e, vs)
    ensures Same(Eval(e, vs, base, s.mem), EvalE(e, vs, base, s), LeakOf(e), s.stack, ws)
    ensures Eval(e, vs, base, s.mem).Val? ==> |ws| == Skips(e, vs, base, s.mem) && ws == Trail(e, vs, base, s.mem)
    decreases e, 0
  {
    hide BitAnd, Permits, LeakOfAnd, Popped, TopOf;
    ws := ExprFaithful(e.l, vs, base, s);
    var x := Eval(e.l, vs, base, s.mem);
    if x.Val? {
      var s1 := State(x.mem, s.stack + ws + [Truth(x.v != 0)]);
      if x.v == 0 {
        AndSkipLeaks(LeakOf(e.l), LeakOf(e.r), ws);
        assert s1.stack == s.stack + (ws + [0]);
        ws := ws + [0];
      } else {
        var us := ExprFaithful(e.r, vs, base, s1);
        var y := Eval(e.r, vs, base, x.mem);
        if y.Val? {
          PopLast(s.stack, ws, 1, us, y.mem);
          AndLeaks(LeakOf(e.l), LeakOf(e.r), ws, us, y.v != 0);
          ws := ws + Kept(1, us);
        }
      }
    }
  }

  lemma {:induction false} OrFaithful(e: Expr, vs: Table, base: int, s: State) returns (ws: seq<int>)
    requires e.Or? && Sound(e, vs)
    ensures Same(Eval(e, vs, base, s.mem), EvalE(e, vs, base, s), LeakOf(e), s.stack, ws)
    ensures Eval(e, vs, base, s.mem).Val? ==> |ws| == Skips(e, vs, base, s.mem) && ws == Trail(e, vs, base, s.mem)
    decreases e, 0
  {
    hide BitOr, Permits, LeakOfOr, Popped, TopOf;
    ws := ExprFaithful(e.l, vs, base, s);
    var x := Eval(e.l, vs, base, s.mem);
    if x.Val? {
      var s1 := State(x.mem, s.stack + ws + [Truth(x.v != 0)]);
      if x.v != 0 {
        OrSkipLeaks(LeakOf(e.l), LeakOf(e.r), ws);
        assert s1.stack == s.stack + (ws + [1]);
        ws := ws + [1];
      } else {
        var us := ExprFaithful(e.r, vs, base, s1);
        var y := Eval(e.r, vs, base, x.mem);
        if y.Val? {
          PopLast(s.stack, ws, 0, us, y.mem);
          OrLeaks(LeakOf(e.l), LeakOf(e.r), ws, us, y.v != 0);
          ws := ws + Kept(0, us);
        }
      }
    }
  }

  // ----- statements -----

  predicate SoundAssign(x: string, op: AssignOp, e: Expr, vs: Table) {
    Sound(e, vs) && (op == AddTo || op == SubFrom ==> StepsWell(vs, x))
  }

  /** Leaked words are harmless between statements: a store through a computed address is the only extra constraint. */
  predicate SoundInit(first: ForInit, vs: Table) {
    match first
    case NoInit => true
    case InitDecl(_, _, _, init) => (match init case None => true case Some(e) => Sound(e, vs))
    case InitAssign(x, op, e) => SoundAssign(x, op, e, vs)
    case InitExpr(e) => Sound(e, vs)
  }

  predicate SoundPost(step: ForPost, vs: Table) {
    match step
    case PostBump(x, _, _) => StepsWell(vs, x)
    case PostAssign(x, op, e) => SoundAssign(x, op, e, vs)
    case PostExpr(e) => Sound(e, vs)
    case _ => true
  }

  predicate SoundOpt(e: Option<Expr>, vs: Table) {
    match e case None => true case Some(x) => Sound(x, vs)
  }

  predicate SoundStmt(s: Stmt, vs: Table) {
    match s
    case Decl(_, _, _, init) => SoundOpt(init, vs)
    case Assign(x, op, e) => SoundAssign(x, op, e, vs)
    case StoreIndex(_, i, e) => Sound(i, vs) && Sound(e, vs) && !LeakOf(i).Any() && !LeakOf(e).Any()
    case StoreThrough(_, e) => Sound(e, vs)
    case BumpStmt(x, _, _) => StepsWell(vs, x)
    case Skipped(_, _, _) => true
    case Return(e) => SoundOpt(e, vs)
    case If(c, thn, els) => Sound(c, vs) && SoundBlock(thn, vs) && (match els case None => true case Some(b) => SoundBlock(b, vs))
    case While(c, body) => Sound(c, vs) && SoundBlock(body, vs)
    case DoWhile(body, c) => Sound(c, vs) && SoundBlock(body, vs)
    case For(first, cond, step, body) => SoundInit(first, vs) && SoundOpt(cond, vs) && SoundPost(step, vs) && SoundBlock(body, vs)
  }

  predicate SoundBlock(b: Block, vs: Table) {
    match b case Braces(ss) => SoundStmts(ss, vs) case One(s) => SoundStmt(s, vs)
  }

  predicate SoundStmts(ss: Stmts, vs: Table) {
    match ss case Nil => true case Cons(s, rest) => SoundStmt(s, vs) && SoundStmts(rest, vs)
  }

  // Short-circuit jumps taken by statements.

  function SkipsOpt(e: Option<Expr>, vs: Table, base: int, mem: Memory): nat {
    match e case None => 0 case Some(x) => Skips(x, vs, base, mem)
  }

  function SkipsAssign(vs: Table, base: int, mem: Memory, x: string, e: Expr): nat {
    if Find(vs, x).None? then 0 else Skips(e, vs, base, mem)
  }

  function SkipsInit(first: ForInit, vs: Table, base: int, mem: Memory): nat {
    match first
    case InitDecl(_, x, _, Some(e)) => SkipsAssign(vs, base, mem, x, e)
    case InitAssign(x, _, e) => SkipsAssign(vs, base, mem, x, e)
    case InitExpr(e) => Skips(e, vs, base, mem)
    case _ => 0
  }

  function SkipsPost(step: ForPost, vs: Table, base: int, mem: Memory): nat {
    match step
    case PostAssign(x, _, e) => SkipsAssign(vs, base, mem, x, e)
    case PostExpr(e) => Skips(e, vs, base, mem)
    case _ => 0
  }

  function SkipsStmt(s: Stmt, vs: Table, base: int, fuel: nat, mem: Memory): nat
    decreases fuel, s, 0
  {
    match s
    case Decl(_, x, _, Some(e)) => SkipsAssign(vs, base, mem, x, e)
    case Assign(x, _, e) => SkipsAssign(vs, base, mem, x, e)
    case StoreThrough(x, e) => SkipsAssign(vs, base, mem, x, e)
    case Return(e) => SkipsOpt(e, vs, base, mem)
    case If(c, thn, els) =>
      Skips(c, vs, base, mem) +
      (match Eval(c, vs, base, mem)
       case Val(v, m) =>
         if v != 0 then SkipsBlock(thn, vs, base, fuel, m)
         else (match els case None => 0 case Some(b) => SkipsBlock(b, vs, base, fuel, m))
       case _ => 0)
    case While(c, body) =>
      if fuel == 0 then 0
      else (match Eval(c, vs, base, mem)
        case Val(v, m) =>
          if v == 0 then Skips(c, vs, base, mem)
          else Skips(c, vs, base, mem) + SkipsBlock(body, vs, base, fuel, m) +
               (match RunBlock(body, vs, base, fuel, m) case Next(m1) => SkipsStmt(s, vs, base, fuel - 1, m1) case _ => 0)
        case _ => 0)
    case DoWhile(body, c) =>
      if fuel == 0 then 0
      else (match RunBlock(body, vs, base, fuel, mem)
        case Next(m) =>
          SkipsBlock(body, vs, base, fuel, mem) + Skips(c, vs, base, m) +
          (match Eval(c, vs, base, m) case Val(v, m1) => if v == 0 then 0 else SkipsStmt(s, vs, base, fuel - 1, m1) case _ => 0)
        case _ => SkipsBlock(body, vs, base, fuel, mem))
    case For(first, cond, step, body) =>
      SkipsInit(first, vs, base, mem) +
      (match RunInit(first, vs, base, mem) case Next(m) => SkipsFor(cond, step, body, vs, base, fuel, m) case _ => 0)
    case _ => 0
  }

  function SkipsFor(cond: Option<Expr>, step: ForPost, body: Block, vs: Table, base: int, fuel: nat, mem: Memory): nat
    decreases fuel, body, 1
  {
    if fuel == 0 then 0
    else match EvalCond(cond, vs, base, mem)
      case Val(v, m) =>
        if v == 0 then SkipsOpt(cond, vs, base, mem)
        else SkipsOpt(cond, vs, base, mem) + SkipsBlock(body, vs, base, fuel, m) + SkipsNext(cond, step, body, vs, base, fuel, m)
      case _ => 0
  }

  /** What follows the body of a for loop. */
  function SkipsNext(cond: Option<Expr>, step: ForPost, body: Block, vs: Table, base: int, fuel: nat, m: Memory): nat
    requires fuel > 0
    decreases fuel, body, 0
  {
    match RunBlock(body, vs, base, fuel, m)
    case Next(m1) => SkipsPost(step, vs, base, m1) +
      (match RunPost(step, vs, base, m1) case Next(m2) => SkipsFor(cond, step, body, vs, base, fuel - 1, m2) case _ => 0)
    case _ => 0
  }

  function SkipsBlock(b: Block, vs: Table, base: int, fuel: nat, mem: Memory): nat
    decreases fuel, b, 0
  {
    match b case Braces(ss) => SkipsStmts(ss, vs, base, fuel, mem) case One(s) => SkipsStmt(s, vs, base, fuel, mem)
  }

  function SkipsStmts(ss: Stmts, vs: Table, base: int, fuel: nat, mem: Memory): nat
    decreases fuel, ss, 0
  {
    match ss
    case Nil => 0
    case Cons(s, rest) =>
      SkipsStmt(s, vs, base, fuel, mem) +
      (match RunStmt(s, vs, base, fuel, mem) case Next(m) => SkipsStmts(rest, vs, base, fuel, m) case _ => 0)
  }

  /** Same memory, same result, same end, with the operand stack at the given depth. */
  predicate Agrees(r: Result, o: Emitted.Outcome, depth: nat) {
    match r
    case Next(m) => o.Falls? && o.s.mem == m && |o.s.stack| == depth
    case Returns(v, m) => o.Leaves? && o.v == v && o.s.mem == m && |o.s.stack| == depth
    case Traps => o.Fault?
    case Wilds => o.Stray?
    case Timeout => o.OutOfFuel?
  }

  predicate AgreesValue(x: Value, eff: Effect) {
    match x case Val(v, m) => eff.Gives? && eff.v == v && eff.s.mem == m case Trap => eff == Faults case Wild => eff == Strays
  }

  lemma ValueFaithful(e: Expr, vs: Table, base: int, s: State)
    requires Sound(e, vs)
    ensures AgreesValue(Eval(e, vs, base, s.mem), EvalE(e, vs, base, s))
    ensures Eval(e, vs, base, s.mem).Val? ==> |EvalE(e, vs, base, s).s.stack| == |s.stack| + Skips(e, vs, base, s.mem)
  {
    hide Eval, EvalE, Permits, Sound, Skips;
    var ws := ExprFaithful(e, vs, base, s);
  }

  lemma AssignFaithful(vs: Table, base: int, s: State, x: string, op: AssignOp, e: Expr)
    requires SoundAssign(x, op, e, vs)
    ensures Agrees(AssignVar(vs, base, s.mem, x, op, e), AssignE(vs, base, s, x, op, e), |s.stack| + SkipsAssign(vs, base, s.mem, x, e))
  {
    hide Eval, EvalE, Sound, ReadVar, WriteVar, Update, Moved, StepOf, Skips;
    ValueFaithful(e, vs, base, s);
    var y := Eval(e, vs, base, s.mem);
    if Find(vs, x).Some? && y.Val? {
      var v := Find(vs, x).value;
      var old_ := if op == Set then Val(0, y.mem) else ReadVar(y.mem, base, v);
      if old_.Val? { UpdateSame(v, op, old_.v, y.v); }
    }
  }

  /** An expression that leaks nothing leaves the stack as it was. */
  lemma CleanFaithful(e: Expr, vs: Table, base: int, s: State)
    requires Sound(e, vs) && !LeakOf(e).Any()
    ensures AgreesValue(Eval(e, vs, base, s.mem), EvalE(e, vs, base, s))
    ensures EvalE(e, vs, base, s).Gives? ==> EvalE(e, vs, base, s).s.stack == s.stack
  {
    hide Eval, EvalE, Permits, Sound, LeakOf;
    var ws := ExprFaithful(e, vs, base, s);
    var x := Eval(e, vs, base, s.mem);
    if x.Val? { NothingLeaked(LeakOf(e), ws, x.v != 0); }
  }

  lemma ElementFaithful(vs: Table, base: int, s: State, x: string, i: Expr, e: Expr)
    requires Sound(i, vs) && Sound(e, vs) && !LeakOf(i).Any() && !LeakOf(e).Any()
    ensures Agrees(StoreElement(vs, base, s.mem, x, i, e), StoreElementE(vs, base, s, x, i, e), |s.stack|)
  {
    hide Eval, EvalE, Sound, WriteAt, LeakOf, ElementAddress, ElementE, Permits, Skips, TopOf, Popped, Find;
    if Find(vs, x).Some? {
      var v := Find(vs, x).value;
      ElementAddressFaithful(v, i, vs, base, s);
      var a := ElementAddress(v, i, vs, base, s.mem);
      if a.Val? {
        assert s.stack + [] == s.stack;
        CleanFaithful(e, vs, base, State(a.mem, s.stack + [a.v]));
        var y := Eval(e, vs, base, a.mem);
        if y.Val? { PopRestores(y.mem, s.stack, a.v); }
      }
    }
  }

  lemma PointedFaithful(vs: Table, base: int, s: State, x: string, e: Expr)
    requires Sound(e, vs)
    ensures Agrees(StorePointed(vs, base, s.mem, x, e), StorePointedE(vs, base, s, x, e), |s.stack| + SkipsAssign(vs, base, s.mem, x, e))
  {
    hide Eval, EvalE, Sound, LoadExt, Store, Skips;
    ValueFaithful(e, vs, base, s);
  }

  lemma BumpFaithful(vs: Table, base: int, s: State, x: string, up: bool)
    requires StepsWell(vs, x)
    ensures Agrees(BumpStatement(vs, base, s.mem, x, up), BumpE(vs, base, s, x, up), |s.stack|)
  {
    hide LoadExt, Store;
  }

  lemma InitFaithful(first: ForInit, vs: Table, base: int, s: State)
    requires SoundInit(first, vs)
    ensures Agrees(RunInit(first, vs, base, s.mem), InitE(first, vs, base, s), |s.stack| + SkipsInit(first, vs, base, s.mem))
  {
    hide Eval, EvalE, Sound, AssignVar, AssignE, SkipsAssign, Skips;
    match first
    case NoInit =>
    case InitDecl(_, x, _, init) => if init.Some? { AssignFaithful(vs, base, s, x, Set, init.value); }
    case InitAssign(x, op, e) => AssignFaithful(vs, base, s, x, op, e);
    case InitExpr(e) => ValueFaithful(e, vs, base, s);
  }

  lemma PostFaithful(step: ForPost, vs: Table, base: int, s: State)
    requires SoundPost(step, vs)
    ensures Agrees(RunPost(step, vs, base, s.mem), PostE(step, vs, base, s), |s.stack| + SkipsPost(step, vs, base, s.mem))
  {
    hide Eval, EvalE, Sound, AssignVar, AssignE, BumpStatement, BumpE, SkipsAssign, Skips;
    match step
    case NoPost =>
    case PostBare(_) =>
    case PostIgnored(_, _, _) =>
    case PostBump(x, up, _) => BumpFaithful(vs, base, s, x, up);
    case PostAssign(x, op, e) => AssignFaithful(vs, base, s, x, op, e);
    case PostExpr(e) => ValueFaithful(e, vs, base, s);
  }

  lemma CondFaithful(cond: Option<Expr>, vs: Table, base: int, s: State)
    requires SoundOpt(cond, vs)
    ensures AgreesValue(EvalCond(cond, vs, base, s.mem), CondE(cond, vs, base, s))
    ensures EvalCond(cond, vs, base, s.mem).Val? ==> |CondE(cond, vs, base, s).s.stack| == |s.stack| + SkipsOpt(cond, vs, base, s.mem)
  {
    hide Eval, EvalE, Sound, Skips;
    if cond.Some? { ValueFaithful(cond.value, vs, base, s); }
  }

  lemma {:induction false} ForFaithful(cond: Option<Expr>, step: ForPost, body: Block, vs: Table, base: int, fuel: nat, s: State)
    requires SoundOpt(cond, vs) && SoundPost(step, vs) && SoundBlock(body, vs)
    ensures Agrees(RunFor(cond, step, body, vs, base, fuel, s.mem), ForE(cond, step, body, vs, base, fuel, s),
                   |s.stack| + SkipsFor(cond, step, body, vs, base, fuel, s.mem))
    decreases fuel, body, 2
  {
    hide EvalCond, CondE, SkipsOpt, SoundOpt, RunPost, PostE, SoundPost, SoundBlock, RunBlock, BlockE, SkipsPost, SkipsBlock;
    if fuel > 0 {
      CondFaithful(cond, vs, base, s);
      var eff := CondE(cond, vs, base, s);
      if eff.Gives? && eff.v != 0 {
        BlockFaithful(body, vs, base, fuel, eff.s);
        var o := BlockE(body, vs, base, fuel, eff.s);
        if o.Falls? {
          PostFaithful(step, vs, base, o.s);
          var o2 := PostE(step, vs, base, o.s);
          if o2.Falls? { ForFaithful(cond, step, body, vs, base, fuel - 1, o2.s); }
        }
      }
    }
  }

  lemma {:induction false} LoopFaithful(st: Stmt, vs: Table, base: int, fuel: nat, s: State)
    requires (st.While? || st.DoWhile? || st.If?) && SoundStmt(st, vs)
    ensures Agrees(RunStmt(st, vs, base, fuel, s.mem), StmtE(st, vs, base, fuel, s), |s.stack| + SkipsStmt(st, vs, base, fuel, s.mem))
    decreases fuel, st, 0
  {
    hide Eval, EvalE, Sound, RunBlock, BlockE, Skips, SkipsBlock;
    if st.If? {
      ValueFaithful(st.c, vs, base, s);
      var eff := EvalE(st.c, vs, base, s);
      if eff.Gives? {
        BlockFaithful(st.thn, vs, base, fuel, eff.s);
        if st.els.Some? { BlockFaithful(st.els.value, vs, base, fuel, eff.s); }
      }
    } else if st.While? && fuel > 0 {
      ValueFaithful(st.c, vs, base, s);
      var eff := EvalE(st.c, vs, base, s);
      if eff.Gives? {
        BlockFaithful(st.body, vs, base, fuel, eff.s);
        var o := BlockE(st.body, vs, base, fuel, eff.s);
        if o.Falls? { LoopFaithful(st, vs, base, fuel - 1, o.s); }
      }
    } else if fuel > 0 {
      BlockFaithful(st.body, vs, base, fuel, s);
      var o := BlockE(st.body, vs, base, fuel, s);
      if o.Falls? {
        ValueFaithful(st.c, vs, base, o.s);
        var eff := EvalE(st.c, vs, base, o.s);
        if eff.Gives? { LoopFaithful(st, vs, base, fuel - 1, eff.s); }
      }
    }
  }

  lemma {:induction false} BlockFaithful(b: Block, vs: Table, base: int, fuel: nat, s: State)
    requires SoundBlock(b, vs)
    ensures Agrees(RunBlock(b, vs, base, fuel, s.mem), BlockE(b, vs, base, fuel, s), |s.stack| + SkipsBlock(b, vs, base, fuel, s.mem))
    decreases fuel, b, 1
  {
    match b case Braces(ss) => StmtsFaithful(ss, vs, base, fuel, s); case One(st) => StmtFaithful(st, vs, base, fuel, s);
  }

  lemma {:induction false} StmtsFaithful(ss: Stmts, vs: Table, base: int, fuel: nat, s: State)
    requires SoundStmts(ss, vs)
    ensures Agrees(RunStmts(ss, vs, base, fuel, s.mem), StmtsE(ss, vs, base, fuel, s), |s.stack| + SkipsStmts(ss, vs, base, fuel, s.mem))
    decreases fuel, ss, 1
  {
    hide StmtE, RunStmt, SkipsStmt;
    if ss.Cons? {
      StmtFaithful(ss.head, vs, base, fuel, s);
      var o := StmtE(ss.head, vs, base, fuel, s);
      if o.Falls? { StmtsFaithful(ss.tail, vs, base, fuel, o.s); }
    }
  }

  /** Every sound statement: memory, returned value, faults, strays and timeouts are the meant ones. */
  lemma {:induction false} StmtFaithful(st: Stmt, vs: Table, base: int, fuel: nat, s: State)
    requires SoundStmt(st, vs)
    ensures Agrees(RunStmt(st, vs, base, fuel, s.mem), StmtE(st, vs, base, fuel, s), |s.stack| + SkipsStmt(st, vs, base, fuel, s.mem))
    decreases fuel, st, 1
  {
    hide Eval, EvalE, Sound, AssignVar, AssignE, BumpStatement, BumpE, StoreElement, StoreElementE, StorePointed, StorePointedE;
    hide Skips, SkipsAssign, SkipsInit, SkipsFor;
    match st
    case Decl(_, x, _, init) => if init.Some? { AssignFaithful(vs, base, s, x, Set, init.value); }
    case Assign(x, op, e) => AssignFaithful(vs, base, s, x, op, e);
    case StoreIndex(x, i, e) => ElementFaithful(vs, base, s, x, i, e);
    case StoreThrough(x, e) => PointedFaithful(vs, base, s, x, e);
    case BumpStmt(x, up, _) => BumpFaithful(vs, base, s, x, up);
    case Skipped(_, _, _) =>
    case Return(e) => if e.Some? { ValueFaithful(e.value, vs, base, s); }
    case If(_, _, _) => LoopFaithful(st, vs, base, fuel, s);
    case While(_, _) => LoopFaithful(st, vs, base, fuel, s);
    case DoWhile(_, _) => LoopFaithful(st, vs, base, fuel, s);
    case For(first, cond, step, body) =>
      InitFaithful(first, vs, base, s);
      var o := InitE(first, vs, base, s);
      if o.Falls? { ForFaithful(cond, step, body, vs, base, fuel, o.s); }
  }
}
