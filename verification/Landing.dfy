/** Every jump of a compiled program goes to the start of one of its instructions. */
module Landing {
  import opened Words
  import opened Instructions
  import opened Machine
  import opened Syntax
  import opened CodeGen
  import opened Encodings
  import opened Correctness
  import opened Backpatch

  predicate HasTarget(i: Instr) {
    i.Jmp? || i.Jz? || i.Jnz?
  }

  /** The jump k of the code goes to the boundary before instruction j. */
  predicate Lands(c: Code, k: nat, j: nat)
    requires k < |c| && HasTarget(c[k]) && j <= |c|
  {
    Size(c[..k + 1]) + c[k].rel == Size(c[..j])
  }

  ghost predicate LandsAt(c: Code, k: nat) {
    k < |c| && HasTarget(c[k]) ==> exists j: nat :: j <= |c| && Lands(c, k, j)
  }

  ghost predicate AllLand(c: Code) {
    forall k: nat :: LandsAt(c, k)
  }

  /** A piece of code whose jumps stay inside it, inside other code. */
  lemma {:induction false} PieceLands(all: Code, lo: nat, piece: Code)
    requires lo + |piece| <= |all| && all[lo..lo + |piece|] == piece && AllLand(piece)
    ensures forall k: nat :: lo <= k < lo + |piece| ==> LandsAt(all, k)
  {
    hide Size;
    forall k: nat | lo <= k < lo + |piece| ensures LandsAt(all, k) {
      if HasTarget(all[k]) {
        assert all[k] == piece[k - lo] && LandsAt(piece, k - lo);
        var j: nat :| j <= |piece| && Lands(piece, k - lo, j);
        SizeConcat(all[..lo], piece[..k - lo + 1]);
        SizeConcat(all[..lo], piece[..j]);
        assert all[..k + 1] == all[..lo] + piece[..k - lo + 1] && all[..lo + j] == all[..lo] + piece[..j];
        assert Lands(all, k, lo + j);
      }
    }
  }

  lemma {:induction false} NoneLeaves(c: Code)
    requires forall k :: 0 <= k < |c| ==> !HasTarget(c[k])
    ensures AllLand(c)
  {
  }

  lemma {:induction false} Joined(a: Code, b: Code)
    requires AllLand(a) && AllLand(b)
    ensures AllLand(a + b)
  {
    hide LandsAt;
    PieceLands(a + b, 0, a);
    PieceLands(a + b, |a|, b);
    forall k: nat ensures LandsAt(a + b, k) { if k >= |a| + |b| { BehindEnd(a + b, k); } }
  }

  lemma {:induction false} BehindEnd(c: Code, k: nat)
    requires k >= |c|
    ensures LandsAt(c, k)
  {
  }

  /** A jump between two pieces, to a boundary of the whole. */
  lemma {:induction false} JumpBetween(a: Code, i: Instr, b: Code, j: nat)
    requires AllLand(a) && AllLand(b) && HasTarget(i) && j <= |a + [i] + b|
    requires Size(a) + Size([i]) + i.rel == Size((a + [i] + b)[..j])
    ensures AllLand(a + [i] + b)
  {
    hide LandsAt, Size;
    var c := a + [i] + b;
    PieceLands(c, 0, a);
    PieceLands(c, |a| + 1, b);
    assert c[..|a| + 1] == a + [i];
    SizeConcat(a, [i]);
    LandsThere(c, |a|, j);
    forall k: nat ensures LandsAt(c, k) { if k >= |c| { BehindEnd(c, k); } }
  }

  lemma {:induction false} LandsThere(c: Code, k: nat, j: nat)
    requires k < |c| && HasTarget(c[k]) && j <= |c| && Lands(c, k, j)
    ensures LandsAt(c, k)
  {
  }

  /** A jump over the piece behind it. */
  lemma {:induction false} JumpOver(a: Code, i: Instr, b: Code)
    requires AllLand(a) && AllLand(b) && HasTarget(i) && i.rel == Size(b)
    ensures AllLand(a + [i] + b)
  {
    hide AllLand, Size;
    var c := a + [i] + b;
    SizeConcat(a, [i]);
    SizeConcat(a + [i], b);
    assert c[..|c|] == c;
    JumpBetween(a, i, b, |c|);
  }

  lemma {:induction false} ExprLands(e: Expr, vs: Table)
    ensures AllLand(CompileExpr(e, vs))
    decreases e
  {
    hide AllLand, Size, OpCode, CastCode, IndexTail, Normalize, Find, BumpCode, DesignatedOf, LoadThrough, LandsAt;
    match e
    case Index(x, i) =>
      ExprLands(i, vs);
      if Find(vs, x).Some? {
        var v := Find(vs, x).value;
        StraightParts(v, TInt, TInt, TInt, Add);
        Joined([DesignatedOf(v), PushRax], CompileExpr(i, vs));
        Joined([DesignatedOf(v), PushRax] + CompileExpr(i, vs), IndexTail(v));
        Joined([DesignatedOf(v), PushRax] + CompileExpr(i, vs) + IndexTail(v), [LoadThrough(v.ty.base)]);
      } else { NoneLeaves([]); }
    case Cast(t, e1) =>
      ExprLands(e1, vs);
      StraightParts(VarInfo("", 0, t, 0), t, TInt, TInt, Add);
      Joined(CompileExpr(e1, vs), CastCode(t));
    case Not(e1) =>
      ExprLands(e1, vs);
      NormalLands();
      Joined(CompileExpr(e1, vs), Normalize + [XorRaxOne]);
    case Neg(e1) =>
      ExprLands(e1, vs);
      NoneLeaves([NegRax]);
      Joined(CompileExpr(e1, vs), [NegRax]);
    case Deref(e1) =>
      ExprLands(e1, vs);
      StraightParts(VarInfo("", 0, TypeOf(e1, vs), 0), TInt, TInt, TInt, Add);
      Joined(CompileExpr(e1, vs), [LoadThrough(TypeOf(e1, vs).base)]);
    case Paren(e1) => ExprLands(e1, vs);
    case Bin(op, l, r) =>
      ExprLands(l, vs);
      ExprLands(r, vs);
      StraightParts(VarInfo("", 0, TInt, 0), TInt, TypeOf(l, vs), TypeOf(r, vs), op);
      NoneLeaves([PushRax]);
      Joined(CompileExpr(l, vs), [PushRax]);
      Joined(CompileExpr(l, vs) + [PushRax], CompileExpr(r, vs));
      Joined(CompileExpr(l, vs) + [PushRax] + CompileExpr(r, vs), [PopRcx] + OpCode(op, TypeOf(l, vs), TypeOf(r, vs)));
    case And(l, r) =>
      ExprLands(l, vs);
      ExprLands(r, vs);
      LogicLands(CompileExpr(l, vs), CompileExpr(r, vs), AndRaxRcx, Jz(Size(AndTail(CompileExpr(r, vs)))));
    case Or(l, r) =>
      ExprLands(l, vs);
      ExprLands(r, vs);
      LogicLands(CompileExpr(l, vs), CompileExpr(r, vs), OrRaxRcx, Jnz(Size(OrTail(CompileExpr(r, vs)))));
    case _ => LeafLands(e, vs);
  }

  lemma {:induction false} LeafLands(e: Expr, vs: Table)
    requires e.Num? || e.Name? || e.Bump? || e.AddrOf?
    ensures AllLand(CompileExpr(e, vs))
  {
    hide AllLand, Find;
    NoneLeaves(CompileExpr(e, vs));
  }

  lemma {:induction false} StraightParts(v: VarInfo, t: Type, tl: Type, tr: Type, op: BinOp)
    ensures AllLand([DesignatedOf(v), PushRax]) && AllLand(IndexTail(v)) && AllLand([LoadThrough(v.ty.base)]) && AllLand(CastCode(t))
    ensures AllLand([PopRcx] + OpCode(op, tl, tr))
  {
    hide AllLand;
    NoneLeaves([DesignatedOf(v), PushRax]);
    NoneLeaves(IndexTail(v));
    NoneLeaves([LoadThrough(v.ty.base)]);
    NoneLeaves(CastCode(t));
    NoneLeaves([PopRcx] + OpCode(op, tl, tr));
  }

  lemma {:induction false} NormalLands()
    ensures AllLand(Normalize) && AllLand(Normalize + [XorRaxOne]) && AllLand(Normalize + [PushRax, TestRaxRax])
  {
    hide AllLand;
    NoneLeaves(Normalize);
    NoneLeaves(Normalize + [XorRaxOne]);
    NoneLeaves(Normalize + [PushRax, TestRaxRax]);
  }

  lemma {:induction false} LogicLands(l: Code, r: Code, op: Instr, jump: Instr)
    requires AllLand(l) && AllLand(r) && !HasTarget(op) && HasTarget(jump) && jump.rel == Size(r + Normalize + [PopRcx, op])
    ensures AllLand(l + (Normalize + [PushRax, TestRaxRax]) + [jump] + (r + Normalize + [PopRcx, op]))
  {
    hide AllLand, Size, Normalize;
    NormalLands();
    NoneLeaves([PopRcx, op]);
    Joined(r, Normalize);
    Joined(r + Normalize, [PopRcx, op]);
    Joined(l, Normalize + [PushRax, TestRaxRax]);
    JumpOver(l + (Normalize + [PushRax, TestRaxRax]), jump, r + Normalize + [PopRcx, op]);
  }

  // ----- statements -----

  lemma {:induction false} AssignLands(x: string, op: AssignOp, e: Expr, vs: Table)
    ensures AllLand(AssignCode(x, op, e, vs))
  {
    hide AllLand, CompileExpr, Find;
    NoneLeaves([]);
    if Find(vs, x).Some? {
      var v := Find(vs, x).value;
      ExprLands(e, vs);
      NoneLeaves(AssignTail(v, op));
      Joined(CompileExpr(e, vs), AssignTail(v, op));
    }
  }

  lemma {:induction false} HeadLands(first: ForInit, step: ForPost, vs: Table)
    ensures AllLand(InitCode(first, vs)) && AllLand(PostCode(step, vs))
  {
    hide AllLand, CompileExpr, AssignCode, Find;
    NoneLeaves([]);
    match first {
      case InitDecl(_, x, _, init) => if init.Some? { AssignLands(x, Set, init.value, vs); }
      case InitAssign(x, op, e) => AssignLands(x, op, e, vs);
      case InitExpr(e) => ExprLands(e, vs);
      case _ =>
    }
    match step {
      case PostBump(x, up, _) => NoneLeaves(BumpStmtCode(x, up, vs));
      case PostAssign(x, op, e) => AssignLands(x, op, e, vs);
      case PostExpr(e) => ExprLands(e, vs);
      case _ =>
    }
  }

  lemma {:induction false} TestLands(cond: Code)
    requires AllLand(cond)
    ensures AllLand(cond + [TestRaxRax])
  {
    hide AllLand;
    NoneLeaves([TestRaxRax]);
    Joined(cond, [TestRaxRax]);
  }

  lemma {:induction false} IfLands(cond: Code, thn: Code, els: Option<Code>)
    requires AllLand(cond) && AllLand(thn) && (els.Some? ==> AllLand(els.value))
    ensures AllLand(IfCode(cond, thn, els))
  {
    hide AllLand, Size;
    TestLands(cond);
    var a := cond + [TestRaxRax];
    if els.None? {
      JumpOver(a, Jz(Size(thn)), thn);
      assert a + [Jz(Size(thn))] + thn == IfCode(cond, thn, els);
    } else {
      var exit, on := Jz(Size(thn) + JmpSize), Jmp(Size(els.value));
      var b := thn + [on] + els.value;
      JumpOver(thn, on, els.value);
      JumpSizes(on.rel);
      SizeConcat(a, [exit]);
      SizeConcat(a + [exit], thn);
      SizeConcat(a + [exit] + thn, [on]);
      assert (a + [exit] + b)[..|a| + 1 + |thn| + 1] == a + [exit] + thn + [on];
      JumpBetween(a, exit, b, |a| + 1 + |thn| + 1);
      assert a + [exit] + b == IfCode(cond, thn, els);
    }
  }

  lemma {:induction false} DoWhileLands(body: Code, cond: Code)
    requires AllLand(cond) && AllLand(body)
    ensures AllLand(DoWhileCode(body, cond))
  {
    hide AllLand, Size;
    Joined(body, cond);
    TestLands(body + cond);
    NoneLeaves([]);
    var a, back := body + cond + [TestRaxRax], Jnz(-(Size(body) + Size(cond) + TestJumpSize));
    SizeConcat(body, cond);
    SizeConcat(body + cond, [TestRaxRax]);
    JumpSizes(back.rel);
    NoSize();
    assert (a + [back] + [])[..0] == [];
    JumpBetween(a, back, [], 0);
    assert a + [back] + [] == DoWhileCode(body, cond);
  }

  lemma {:induction false} NoSize()
    ensures Size([]) == 0
  {
  }

  /** Two pieces behind a jump to the end and before a jump back to the start. */
  lemma {:induction false} WhileLands(cond: Code, body: Code)
    requires AllLand(cond) && AllLand(body)
    ensures AllLand(WhileCode(cond, body))
  {
    hide AllLand, Size, LandsAt;
    var a, exit, back := cond + [TestRaxRax], Jz(Size(body) + JmpSize), Jmp(-(Size(cond) + TestJumpSize + Size(body) + JmpSize));
    TestLands(cond);
    GuardSize(cond, exit);
    WhileSize(a + [exit], body, back);
    LoopLands(a, exit, body, a + [exit] + body, back);
    assert a + [exit] + body + [back] == WhileCode(cond, body);
  }

  lemma {:induction false} LoopLands(a: Code, exit: Instr, body: Code, c: Code, back: Instr)
    requires AllLand(a) && AllLand(body) && c == a + [exit] + body
    requires HasTarget(exit) && HasTarget(back) && Size(a + [exit]) + exit.rel == Size(c + [back]) && Size(c + [back]) + back.rel == 0
    ensures AllLand(c + [back])
  {
    hide AllLand, Size, LandsAt;
    PieceLands(c + [back], 0, a);
    PieceLands(c + [back], |a| + 1, body);
    OnLands(a, exit, body + [back], c + [back], [], c + [back]);
    AgainLands(c, back, [], c + [back]);
    ByPlace(c + [back], |a|, |c|);
  }

  /** All places but two are known to land, and these two as well. */
  lemma {:induction false} ByPlace(c: Code, x: nat, y: nat)
    requires forall k: nat :: k < |c| && k != x && k != y ==> LandsAt(c, k)
    requires LandsAt(c, x) && LandsAt(c, y)
    ensures AllLand(c)
  {
    hide LandsAt;
    forall k: nat ensures LandsAt(c, k) { if k >= |c| { BehindEnd(c, k); } }
  }

  lemma {:induction false} WhileSize(head: Code, body: Code, back: Instr)
    requires back.Jmp?
    ensures Size(head + body + [back]) == Size(head) + Size(body) + JmpSize
  {
    hide Size;
    JumpSizes(back.rel);
    SizeConcat(head, body);
    SizeConcat(head + body, [back]);
  }

  lemma {:induction false} GuardSize(cond: Code, exit: Instr)
    requires exit.Jz?
    ensures Size(cond + [TestRaxRax] + [exit]) == Size(cond) + TestJumpSize
  {
    hide Size;
    JumpSizes(exit.rel);
    SizeConcat(cond, [TestRaxRax]);
    SizeConcat(cond + [TestRaxRax], [exit]);
    SizeConcat([TestRaxRax], [exit]);
  }

  lemma {:induction false} ToEnd(a: Code, i: Instr, b: Code)
    requires HasTarget(i) && Size(a + [i]) + i.rel == Size(a + [i] + b)
    ensures LandsAt(a + [i] + b, |a|)
  {
    hide Size, LandsAt;
    var c := a + [i] + b;
    assert c[..|a| + 1] == a + [i] && c[..|c|] == c;
    LandsThere(c, |a|, |c|);
  }

  // ----- for -----

  /** The loop of a for behind its guard g: step, jump back to the condition, body, jump to the step. */
  lemma {:induction false} ForLands(cond: Option<Expr>, post: Code, body: Code, vs: Table)
    requires AllLand(post) && AllLand(body)
    ensures AllLand(ForCode(cond, post, body, vs))
  {
    hide AllLand, Size, LandsAt, CondCode, CondSize;
    var p, b := Size(post), Size(body);
    var g := CondCode(cond, JmpSize + p + JmpSize + b + JmpSize, vs);
    var on, again, next := Jmp(p + JmpSize), Jmp(-(p + JmpSize + JmpSize + CondSize(cond, vs))), Jmp(-(p + JmpSize + b + JmpSize));
    var c := g + ([on] + post + [again] + body + [next]);
    assert c == ForCode(cond, post, body, vs);
    assert c == g + [on] + post + [again] + body + [next];
    GuardIs(cond, JmpSize + p + JmpSize + b + JmpSize, vs);
    SizeConcat(g, [on] + post + [again] + body + [next]);
    ForJumps(g, post, body, on, again, next);
    PieceLands(c, |g| + 1, post);
    PieceLands(c, |g| + 1 + |post| + 1, body);
    GuardLands(cond, g, [on] + post + [again] + body + [next], vs);
    forall k: nat ensures LandsAt(c, k) { if k >= |c| { BehindEnd(c, k); } }
    EachLands(c);
  }

  lemma {:induction false} EachLands(c: Code)
    requires forall k: nat :: LandsAt(c, k)
    ensures AllLand(c)
  {
  }

  lemma {:induction false} GuardIs(cond: Option<Expr>, exit: int, vs: Table)
    ensures Size(CondCode(cond, exit, vs)) == CondSize(cond, vs)
  {
    hide Size, CompileExpr;
    NoSize();
    if cond.Some? {
      JumpSizes(exit);
      SizeConcat(CompileExpr(cond.value, vs), JumpIfZero(exit));
    }
  }

  /** The guard's jump leaves the loop. */
  lemma {:induction false} GuardLands(cond: Option<Expr>, g: Code, loop: Code, vs: Table)
    requires g == CondCode(cond, Size(loop), vs)
    ensures forall k: nat :: k < |g| ==> LandsAt(g + loop, k)
  {
    hide AllLand, Size, LandsAt, CompileExpr;
    if cond.Some? {
      var a, exit := CompileExpr(cond.value, vs) + [TestRaxRax], Jz(Size(loop));
      ExprLands(cond.value, vs);
      TestLands(CompileExpr(cond.value, vs));
      assert g == a + [exit];
      SizeConcat(a + [exit], loop);
      ToEnd(a, exit, loop);
      PieceLands(g + loop, 0, a);
    }
  }

  lemma {:induction false} ForJumps(g: Code, post: Code, body: Code, on: Instr, again: Instr, next: Instr)
    requires var p, b := Size(post), Size(body);
             on == Jmp(p + JmpSize) && again == Jmp(-(p + JmpSize + JmpSize + Size(g))) && next == Jmp(-(p + JmpSize + b + JmpSize))
    ensures var c := g + [on] + post + [again] + body + [next];
            LandsAt(c, |g|) && LandsAt(c, |g| + 1 + |post|) && LandsAt(c, |g| + 1 + |post| + 1 + |body|) &&
            Size(c) == Size(g) + JmpSize + Size(post) + JmpSize + Size(body) + JmpSize
  {
    hide Size, LandsAt;
    var c1 := g + [on];
    var c2 := c1 + post;
    JumpSizes(on.rel);
    SizeConcat(g, [on]);
    ForPlaces(g, on, c1, post, c2, again, c2 + [again], body, c2 + [again] + body, next);
  }

  lemma {:induction false} ForPlaces(g: Code, on: Instr, c1: Code, post: Code, c2: Code, again: Instr, c3: Code, body: Code, c4: Code, next: Instr)
    requires c1 == g + [on] && c2 == c1 + post && c3 == c2 + [again] && c4 == c3 + body
    requires on == Jmp(Size(post) + JmpSize) && Size(c1) == Size(g) + JmpSize
    requires again == Jmp(-(Size(c1) + Size(post) + JmpSize)) && next == Jmp(-(Size(post) + JmpSize + Size(body) + JmpSize))
    ensures var c := c4 + [next];
            LandsAt(c, |g|) && LandsAt(c, |c2|) && LandsAt(c, |c4|) && Size(c) == Size(c1) + Size(post) + JmpSize + Size(body) + JmpSize
  {
    hide Size, LandsAt;
    WhileSize(c1, post, again);
    WhileSize(c3, body, next);
    OnLands(g, on, post + [again], c3, body + [next], c4 + [next]);
    AgainLands(c2, again, body + [next], c4 + [next]);
    NextLands(c1, post + [again] + body, c4, next);
  }

  lemma {:induction false} OnLands(a: Code, i: Instr, over: Code, there: Code, b: Code, c: Code)
    requires there == a + [i] + over && c == there + b
    requires HasTarget(i) && Size(a + [i]) + i.rel == Size(there)
    ensures LandsAt(c, |a|)
  {
    hide Size, LandsAt;
    Forward(a, i, over, b);
  }

  lemma {:induction false} AgainLands(a: Code, i: Instr, b: Code, c: Code)
    requires c == a + [i] + b && HasTarget(i) && Size(a + [i]) + i.rel == 0
    ensures LandsAt(c, |a|)
  {
    hide Size, LandsAt;
    NoSize();
    assert c[..|a| + 1] == a + [i] && c[..0] == [];
    LandsThere(c, |a|, 0);
  }

  lemma {:induction false} NextLands(a: Code, over: Code, all: Code, i: Instr)
    requires all == a + over && HasTarget(i) && Size(all + [i]) + i.rel == Size(a)
    ensures LandsAt(all + [i], |all|)
  {
    hide Size, LandsAt;
    Back(a, over, i, []);
    assert all + [i] + [] == all + [i];
  }

  lemma {:induction false} Forward(a: Code, i: Instr, over: Code, b: Code)
    requires HasTarget(i) && Size(a + [i]) + i.rel == Size(a + [i] + over)
    ensures LandsAt(a + [i] + over + b, |a|)
  {
    hide Size, LandsAt;
    var c := a + [i] + over + b;
    assert c[..|a| + 1] == a + [i] && c[..|a| + 1 + |over|] == a + [i] + over;
    LandsThere(c, |a|, |a| + 1 + |over|);
  }

  lemma {:induction false} Back(a: Code, over: Code, i: Instr, b: Code)
    requires HasTarget(i) && Size(a + over + [i]) + i.rel == Size(a)
    ensures LandsAt(a + over + [i] + b, |a| + |over|)
  {
    hide Size, LandsAt;
    var c := a + over + [i] + b;
    assert c[..|a|] == a && c[..|a| + |over| + 1] == a + over + [i];
    LandsThere(c, |a| + |over|, |a|);
  }

  // ----- programs -----

  lemma {:induction false} StmtLands(s: Stmt, vs: Table)
    ensures AllLand(CompileStmt(s, vs))
    decreases s
  {
    hide AllLand, Size, CompileExpr, AssignCode, InitCode, PostCode, ForCode, IfCode, WhileCode, DoWhileCode, Find, DesignatedOf;
    match s
    case Decl(_, x, _, init) => if init.Some? { AssignLands(x, Set, init.value, vs); } else { NoneLeaves([]); }
    case Assign(x, op, e) => AssignLands(x, op, e, vs);
    case StoreIndex(x, i, e) => StoreLands(s, vs);
    case StoreThrough(x, e) => StoreLands(s, vs);
    case BumpStmt(x, up, _) => NoneLeaves(CompileStmt(s, vs));
    case Skipped(_, _, _) => NoneLeaves([]);
    case Return(e) =>
      NoneLeaves([MovRaxImm(0)] + Epilogue);
      NoneLeaves(Epilogue);
      if e.Some? {
        ExprLands(e.value, vs);
        Joined(CompileExpr(e.value, vs), Epilogue);
      }
    case If(c, thn, els) =>
      ExprLands(c, vs);
      BlockLands(thn, vs);
      if els.Some? { BlockLands(els.value, vs); }
      IfLands(CompileExpr(c, vs), CompileBlock(thn, vs), match els case None => None case Some(b) => Some(CompileBlock(b, vs)));
    case While(c, body) =>
      ExprLands(c, vs);
      BlockLands(body, vs);
      WhileLands(CompileExpr(c, vs), CompileBlock(body, vs));
    case DoWhile(body, c) =>
      ExprLands(c, vs);
      BlockLands(body, vs);
      DoWhileLands(CompileBlock(body, vs), CompileExpr(c, vs));
    case For(first, cond, step, body) =>
      HeadLands(first, step, vs);
      BlockLands(body, vs);
      ForLands(cond, PostCode(step, vs), CompileBlock(body, vs), vs);
      Joined(InitCode(first, vs), ForCode(cond, PostCode(step, vs), CompileBlock(body, vs), vs));
  }

  lemma {:induction false} StoreLands(s: Stmt, vs: Table)
    requires s.StoreIndex? || s.StoreThrough?
    ensures AllLand(CompileStmt(s, vs))
  {
    hide AllLand, CompileExpr, Find, DesignatedOf;
    NoneLeaves([]);
    ExprLands(s.e, vs);
    if s.StoreIndex? { ExprLands(s.i, vs); }
    if Find(vs, s.x).Some? {
      var v, right := Find(vs, s.x).value, CompileExpr(s.e, vs);
      if s.StoreIndex? {
        var mid, end := IndexTail(v) + [PushRax], [PopRcx, XchgRaxRcx, StoreAt(v.ty.base.Width())];
        var head := [DesignatedOf(v), PushRax];
        StraightParts(v, TInt, TInt, TInt, Add);
        NoneLeaves(mid);
        NoneLeaves(end);
        Joined(head, CompileExpr(s.i, vs));
        Joined(head + CompileExpr(s.i, vs), mid);
        Joined(head + CompileExpr(s.i, vs) + mid, right);
        Joined(head + CompileExpr(s.i, vs) + mid + right, end);
        assert head + CompileExpr(s.i, vs) + mid + right + end == CompileStmt(s, vs);
      } else {
        var end := [PushRax] + [LoadOf(v)] + [PopRcx, StoreAt(v.ty.base.Width())];
        NoneLeaves(end);
        Joined(right, end);
        assert right + end == CompileStmt(s, vs);
      }
    }
  }

  lemma {:induction false} BlockLands(b: Block, vs: Table)
    ensures AllLand(CompileBlock(b, vs))
    decreases b
  {
    hide AllLand;
    match b case Braces(ss) => StmtsLand(ss, vs); case One(s) => StmtLands(s, vs);
  }

  lemma {:induction false} StmtsLand(ss: Stmts, vs: Table)
    ensures AllLand(CompileStmts(ss, vs))
    decreases ss
  {
    hide AllLand, CompileStmt;
    NoneLeaves([]);
    if ss.Cons? {
      StmtLands(ss.head, vs);
      StmtsLand(ss.tail, vs);
      Joined(CompileStmt(ss.head, vs), CompileStmts(ss.tail, vs));
    }
  }

  lemma {:induction false} ProgramLands(p: Stmts, vs: Table)
    ensures AllLand(Prologue(vs) + CompileStmts(p, vs))
  {
    hide AllLand, CompileStmts, FrameSize;
    NoneLeaves(Prologue(vs));
    StmtsLand(p, vs);
    Joined(Prologue(vs), CompileStmts(p, vs));
  }

  /** Instruction k of the code is what the processor fetches at its offset. */
  lemma {:induction false} FetchedAt(code: seq<byte>, c: Code, k: nat)
    requires CodeAt(code, 0, c) && k < |c|
    ensures Decode(code, Size(c[..k])) == Fetched(c[k], |Encode(c[k])|)
    ensures Size(c[..k + 1]) == Size(c[..k]) + |Encode(c[k])| && Size(c[..k]) < Size(c)
  {
    hide Decode, Encode, Size;
    assert c == c[..k] + c[k..] && c[..k + 1] == c[..k] + [c[k]];
    CodeAtConcat(code, 0, c[..k], c[k..]);
    SizeConcat(c[..k], c[k..]);
    SizeConcat(c[..k], [c[k]]);
    SingleCode(c[k]);
    OneMore(c[k..]);
  }

  lemma {:induction false} OneMore(c: Code)
    requires c != []
    ensures Size(c) > 0
  {
    hide Encode;
  }

  /**
   * Every jump in the bytes of a program: whatever instruction k is, if it is a jump then there is an instruction j that
   * the processor fetches at the offset it jumps to.
   */
  lemma {:induction false} JumpsLand(p: Stmts, vs: Table, k: nat) returns (j: nat)
    requires Representable(p, vs) && k < |CompileProgram(p, vs)| && HasTarget(CompileProgram(p, vs)[k])
    ensures var c, code := CompileProgram(p, vs), ProgramBytes(p, vs);
            j < |c| && Decode(code, Size(c[..k])) == Fetched(c[k], |Encode(c[k])|) &&
            Size(c[..k]) + |Encode(c[k])| + c[k].rel == Size(c[..j]) &&
            Decode(code, Size(c[..j])) == Fetched(c[j], |Encode(c[j])|)
  {
    hide Decode, Encode, Size, AllLand, CompileStmts, FrameSize, Representable, CodeAt, EncodeAll;
    var c, front, tail := CompileProgram(p, vs), Prologue(vs) + CompileStmts(p, vs), [MovRaxImm(0)] + Epilogue;
    assert c == front + tail;
    InPlace(p, vs);
    FetchedAt(ProgramBytes(p, vs), c, k);
    ProgramLands(p, vs);
    j := FrontLands(front, k);
    assert c[..k + 1] == front[..k + 1] && c[..j] == front[..j] && c[k] == front[k];
    FetchedAt(ProgramBytes(p, vs), c, j);
  }

  lemma {:induction false} FrontLands(front: Code, k: nat) returns (j: nat)
    requires AllLand(front) && k < |front| && HasTarget(front[k])
    ensures j <= |front| && Size(front[..k + 1]) + front[k].rel == Size(front[..j])
  {
    hide Size;
    assert LandsAt(front, k);
    j :| j <= |front| && Lands(front, k, j);
  }

  lemma {:induction false} InPlace(p: Stmts, vs: Table)
    requires Representable(p, vs)
    ensures CodeAt(ProgramBytes(p, vs), 0, CompileProgram(p, vs))
  {
    hide Encode, Encodable, CodeAt, Size, CompileProgram;
    ProgramEncodable(p, vs);
    EncodedIsFetched(ProgramBytes(p, vs), 0, CompileProgram(p, vs));
  }
}
