/** The one-pass compiler: a recursive-descent parser that checks, emits and patches as it reads. */
module Parser {
  import opened Words
  import opened Instructions
  import opened Machine
  import opened Syntax
  import opened CodeGen
  import opened Emitter
  import opened Backpatch
  import opened Grammar
  import opened ParseExpr
  import opened ParseStmt
  import opened ParseControl
  import opened Accepted

  const MAX_ERRORS: nat := 64

  class Compiler {
    const tokens: seq<Token>
    const buf: CodeBuffer
    var curr: nat
    var vars: Table
    var inits: set<string>
    var stackSize: int
    var errors: nat
    var overrun: bool                 // a row was written behind the 64 of the variable table

    ghost predicate Valid()
      reads this, buf
    {
      buf.Valid() && stackSize == FrameUsed(vars) && NumbersFit(tokens) && overrun == (|vars| > MAX_VARS)
    }

    ghost function S(): Snap
      requires Valid()
      reads this, buf, buf.data
    {
      Snap(curr, buf.Bytes(), Env(vars, inits), errors)
    }

    /** Tokens left to read: the termination measure. */
    ghost function Left(): nat
      reads this
    {
      if curr < |tokens| then |tokens| - curr else 0
    }

    constructor (tokens: seq<Token>)
      requires NumbersFit(tokens)
      ensures Valid() && this.tokens == tokens && fresh(buf) && fresh(buf.data)
      ensures S() == Snap(0, [], Env([], {}), 0)
    {
      this.tokens := tokens;
      buf := new CodeBuffer();
      curr, vars, inits, stackSize, errors, overrun := 0, [], {}, 0, 0, false;
    }

    function Peek(): Tok
      reads this
    {
      KindAt(tokens, curr)
    }

    method Consume() returns (k: Tok)
      requires Valid()
      modifies this`curr
      ensures Valid() && S() == old(S()).(curr := old(curr) + 1) && k == KindAt(tokens, old(curr))
    {
      k := Peek();
      curr := curr + 1;
    }

    /** The error list holds 64 entries; later errors are not counted. */
    method AddError()
      requires Valid()
      modifies this`errors
      ensures Valid() && errors > 0 && errors >= old(errors) && S() == old(S()).(errors := errors)
    {
      if errors < MAX_ERRORS { errors := errors + 1; }
    }

    method Expect(k: Tok)
      requires Valid()
      modifies this`curr, this`errors
      ensures Valid() && Expects(tokens, old(S()), S(), k)
    {
      if Peek() == k { var _ := Consume(); } else { AddError(); }
    }

    method Emit(i: Instr)
      requires Valid()
      modifies buf, buf.data
      ensures Valid() && Emits(old(S()), S(), [i])
    {
      buf.Emit(i);
    }

    method EmitAll(c: Code)
      requires Valid()
      modifies buf, buf.data
      ensures Valid() && Emits(old(S()), S(), c)
    {
      hide Appends;
      ghost var a := S();
      AppendsNothing(a.bytes);
      assert c[..0] == [];
      for k := 0 to |c|
        invariant Valid() && Emits(a, S(), c[..k])
      {
        ghost var b := S();
        Emit(c[k]);
        EmitsMore(a, b, S(), c[..k], [c[k]]);
        assert c[..k] + [c[k]] == c[..k + 1];
      }
      assert c[..|c|] == c;
    }

    method ParseType() returns (t: Type)
      requires Valid() && Peek().TType?
      modifies this`curr
      ensures Valid() && t == TypeAt(tokens, old(curr))
      ensures S() == old(S()).(curr := old(curr) + if t.isPtr then 2 else 1)
    {
      var k := Consume();
      var ptr := Peek() == TStar;
      if ptr { var _ := Consume(); }
      t := Type(k.b, ptr);
    }

    // ----- primaries -----

    method Cast(ghost h: Expr) returns (t: Type, ghost e: Expr)
      requires Valid() && CastAt(tokens, curr)
      modifies this, buf, buf.data
      ensures Valid() && ExprStep(tokens, old(S()), S(), 7, h, e, t)
      decreases Left(), 1
    {
      hide ExprStep, Expected, Appends, CastCode, CodeBuffer.Bytes, FrameUsed, NumbersFit;
      ghost var a := S();
      var _ := Consume();
      t := ParseType();
      var _ := Consume();
      ghost var s1, h1 := S(), if h.Cast? then h.e else h;
      var t1, e1 := Primary(h1);
      ghost var s2 := S();
      EmitAll(CastCode(t));
      e := Expr.Cast(t, e1);
      CastStep(tokens, a, s1, s2, S(), h, h1, e1, t1);
    }

    /** !e and *e. */
    method Prefix(ghost h: Expr) returns (t: Type, ghost e: Expr)
      requires Valid() && (Peek() == TNot || Peek() == TStar) && !CastAt(tokens, curr)
      modifies this, buf, buf.data
      ensures Valid() && ExprStep(tokens, old(S()), S(), 7, h, e, t)
      decreases Left(), 1
    {
      hide ExprStep, Expected, Appends, Normalize, CodeBuffer.Bytes, FrameUsed, NumbersFit;
      ghost var a := S();
      var op := Consume();
      ghost var s1, h1 := S(), if h.Not? || h.Deref? then h.e else h;
      if Expected(tokens, a, 7, h) {
        PrimaryDecided(tokens, a, h);
        PrefixExpected(tokens, a, s1, 7, h, [op]);
      }
      OneToken(tokens, a.curr, op);
      var t1, e1 := Primary(h1);
      ghost var s2 := S();
      if op == TNot {
        EmitAll(Normalize + [XorRaxOne]);
        t, e := TInt, Not(e1);
        PrefixStep(tokens, a, s1, s2, S(), 7, h, h1, e, e1, t1, [op], Normalize + [XorRaxOne]);
      } else {
        t, e := TInt, Deref(e1);
        if t1.isPtr {
          EmitAll([LoadThrough(t1.base)]);
          t := Type(t1.base, false);
        } else {
          AddError();
        }
        DerefStep(tokens, a, s1, s2, S(), h, h1, e1, t1);
      }
    }

    method Bump(ghost h: Expr) returns (t: Type, ghost e: Expr)
      requires Valid() && (Peek() == TPlusPlus || Peek() == TMinusMinus)
      modifies this, buf, buf.data
      ensures Valid() && ExprStep(tokens, old(S()), S(), 7, h, e, t)
    {
      hide ExprStep, Appends, BumpCode, CodeBuffer.Bytes, FrameUsed, NumbersFit, CodeBuffer.Valid;
      ghost var a := S();
      var op := Consume();
      t, e := TInt, Num(0);
      if !Peek().TIdent? {
        AddError();
        HopelessStep(tokens, a, S(), h, t);
        return;
      }
      var k := Consume();
      var found := Find(vars, k.name);
      if found.None? || found.value.IsArray() {
        AddError();
        HopelessStep(tokens, a, S(), h, t);
        return;
      }
      EmitAll(BumpCode(found.value, op == TPlusPlus, false));
      inits := inits + {k.name};
      t, e := found.value.ty, Expr.Bump(k.name, op == TPlusPlus, false);
      BumpStep(tokens, a, S(), h, k.name, op == TPlusPlus, false);
    }

    method Number(ghost h: Expr) returns (t: Type, ghost e: Expr)
      requires Valid() && Peek().TNumber?
      modifies this, buf, buf.data
      ensures Valid() && ExprStep(tokens, old(S()), S(), 7, h, e, t)
    {
      hide ExprStep, Appends, CodeBuffer.Bytes, FrameUsed;
      ghost var a := S();
      var k := Consume();
      Emit(MovRaxImm(k.v));
      t, e := TInt, Num(k.v);
      NumberStep(tokens, a, S(), h);
    }

    method Address(ghost h: Expr) returns (t: Type, ghost e: Expr)
      requires Valid() && Peek() == TAmp
      modifies this, buf, buf.data
      ensures Valid() && ExprStep(tokens, old(S()), S(), 7, h, e, t)
    {
      hide ExprStep, Appends, CodeBuffer.Bytes, FrameUsed, NumbersFit;
      ghost var a := S();
      var _ := Consume();
      t, e := TInt, Num(0);
      var k := Peek();
      if k.TIdent? { k := Consume(); }
      if !k.TIdent? || Find(vars, k.name).None? {
        AddError();
        HopelessStep(tokens, a, S(), h, t);
        return;
      }
      var v := Find(vars, k.name).value;
      Emit(LeaRax(-v.offset));
      t, e := Type(v.ty.base, true), AddrOf(k.name);
      AddressStep(tokens, a, S(), h, k.name);
    }

    method Parens(ghost h: Expr) returns (t: Type, ghost e: Expr)
      requires Valid() && Peek() == TLParen && !CastAt(tokens, curr)
      modifies this, buf, buf.data
      ensures Valid() && ExprStep(tokens, old(S()), S(), 7, h, e, t)
      decreases Left(), 1
    {
      hide ExprStep, Expected, CodeBuffer.Bytes, FrameUsed, NumbersFit;
      ghost var a, h1 := S(), if h.Paren? then h.e else h;
      if Expected(tokens, a, 7, h) { PrimaryDecided(tokens, a, h); }
      var _ := Consume();
      ghost var s1 := S();
      var t1, e1 := ParseExpr(h1);
      ghost var s2 := S();
      Expect(TRParen);
      t, e := t1, Paren(e1);
      ParenStep(tokens, a, s1, s2, S(), h, h1, e1, t1);
    }

    /** x [ i ], with the name read already checked. */
    method Element(k: Tok, v: VarInfo, ghost a: Snap, ghost h: Expr) returns (t: Type, ghost e: Expr)
      requires Valid() && Peek() == TLBracket && k.TIdent? && KindAt(tokens, a.curr) == k
      requires S() == a.(curr := a.curr + 1) && Find(vars, k.name) == Some(v)
      requires (k.name in inits || v.IsArray()) && (v.ty.isPtr || v.IsArray())
      modifies this, buf, buf.data
      ensures Valid() && ExprStep(tokens, a, S(), 7, h, e, t)
      decreases Left(), 11
    {
      hide ExprStep, Expected, Appends, IndexTail, DesignatedOf, LoadThrough, CodeBuffer.Bytes, FrameUsed, NumbersFit, Expects;
      if Expected(tokens, a, 7, h) { ElementHint(tokens, a, h, k.name); }
      ElementBase(v);
      ghost var s1, h1 := S(), if h.Index? then h.i else h;
      var ti, i := ParseExpr(h1);
      ghost var s2 := S();
      EmitAll(IndexTail(v));
      ghost var s3 := S();
      Expect(TRBracket);
      Emit(LoadThrough(v.ty.base));
      t, e := Type(v.ty.base, false), Index(k.name, i);
      TwoTokens(tokens, a.curr, k, TLBracket);
      IndexStep(tokens, a, s1, s2, s3, S(), h, h1, v, e, ti);
    }

    /** Address of the array or value of the pointer, pushed; the bracket is consumed in between. */
    method ElementBase(v: VarInfo)
      requires Valid()
      modifies this`curr, buf, buf.data
      ensures Valid() && S() == old(S()).(curr := old(curr) + 1, bytes := S().bytes)
      ensures Appends(old(S()).bytes, S().bytes, [DesignatedOf(v), PushRax])
    {
      hide Appends, DesignatedOf, CodeBuffer.Bytes, FrameUsed, NumbersFit;
      ghost var a := S();
      Emit(DesignatedOf(v));
      ghost var d := S();
      var _ := Consume();
      Emit(PushRax);
      AppendsMore(a.bytes, d.bytes, S().bytes, [DesignatedOf(v)], [PushRax]);
      assert [DesignatedOf(v)] + [PushRax] == [DesignatedOf(v), PushRax];
    }

    /** x++ and x-- once the value of x has been loaded. */
    method NameBump(k: Tok, v: VarInfo, ghost a: Snap, ghost h: Expr) returns (ghost e: Expr)
      requires Valid() && (Peek() == TPlusPlus || Peek() == TMinusMinus) && k.TIdent? && KindAt(tokens, a.curr) == k
      requires S() == a.(curr := a.curr + 1, bytes := S().bytes) && Appends(a.bytes, S().bytes, [LoadOf(v)])
      requires Find(vars, k.name) == Some(v) && !v.IsArray() && k.name in inits
      modifies this, buf, buf.data
      ensures Valid() && ExprStep(tokens, a, S(), 7, h, e, v.ty)
    {
      hide ExprStep, Appends, LoadOf, BumpOf, CodeBuffer.Bytes, FrameUsed, NumbersFit;
      ghost var d := S();
      var up := Peek() == TPlusPlus;
      var _ := Consume();
      Emit(BumpOf(v, up));
      AppendsMore(a.bytes, d.bytes, S().bytes, [LoadOf(v)], [BumpOf(v, up)]);
      assert [LoadOf(v)] + [BumpOf(v, up)] == BumpCode(v, up, true);
      e := Expr.Bump(k.name, up, true);
      assert inits + {k.name} == inits;
      BumpStep(tokens, a, S(), h, k.name, up, true);
    }

    /** A name: element access, array address, scalar value, x++ or x--. */
    method Ident(ghost h: Expr) returns (t: Type, ghost e: Expr)
      requires Valid() && Peek().TIdent?
      modifies this, buf, buf.data
      ensures Valid() && ExprStep(tokens, old(S()), S(), 7, h, e, t)
      decreases Left(), 1
    {
      hide ExprStep, Appends, LoadOf, BumpOf, CodeBuffer.Bytes, FrameUsed, NumbersFit;
      ghost var a := S();
      var k := Consume();
      var found := Find(vars, k.name);
      if found.None? || (k.name !in inits && !found.value.IsArray())
         || (Peek() == TLBracket && !found.value.ty.isPtr && !found.value.IsArray()) {
        AddError();
        Emit(MovRaxImm(0));
        Grows(a.bytes, S().bytes, [MovRaxImm(0)]);
        t, e := TInt, Num(0);
        HopelessStep(tokens, a, S(), h, t);
        return;
      }
      var v := found.value;
      if Peek() == TLBracket {
        t, e := Element(k, v, a, h);
        return;
      }
      Emit(DesignatedOf(v));
      t, e := TypeOfVar(v), Name(k.name);
      if !v.IsArray() && (Peek() == TPlusPlus || Peek() == TMinusMinus) {
        e := NameBump(k, v, a, h);
      } else {
        NameStep(tokens, a, S(), h, k.name);
      }
    }

    method Primary(ghost h: Expr) returns (t: Type, ghost e: Expr)
      requires Valid()
      modifies this, buf, buf.data
      ensures Valid() && ExprStep(tokens, old(S()), S(), 7, h, e, t)
      decreases Left(), 2
    {
      hide ExprStep, Expected, CodeBuffer.Bytes, FrameUsed, NumbersFit;
      if CastAt(tokens, curr) {
        t, e := Cast(h);
      } else {
        match Peek()
        case TNot => t, e := Prefix(h);
        case TPlusPlus => t, e := Bump(h);
        case TMinusMinus => t, e := Bump(h);
        case TNumber(_) => t, e := Number(h);
        case TIdent(_) => t, e := Ident(h);
        case TStar => t, e := Prefix(h);
        case TAmp => t, e := Address(h);
        case TLParen => t, e := Parens(h);
        case _ => t, e := NotPrimary(h);
      }
    }

    /** Keywords and other tokens that start no expression. */
    method NotPrimary(ghost h: Expr) returns (t: Type, ghost e: Expr)
      requires Valid() && !CastAt(tokens, curr) && !PrimaryStart(Peek())
      modifies this, buf, buf.data
      ensures Valid() && ExprStep(tokens, old(S()), S(), 7, h, e, t)
    {
      hide ExprStep, CodeBuffer.Bytes, FrameUsed, NumbersFit;
      ghost var a := S();
      AddError();
      var _ := Consume();
      t, e := TInt, Num(0);
      HopelessStep(tokens, a, S(), h, t);
    }

    // ----- operators -----

    method Unary(ghost h: Expr) returns (t: Type, ghost e: Expr)
      requires Valid()
      modifies this, buf, buf.data
      ensures Valid() && ExprStep(tokens, old(S()), S(), 6, h, e, t)
      decreases Left(), 3
    {
      hide ExprStep, Expected, Appends, CodeBuffer.Bytes, FrameUsed, NumbersFit;
      ghost var a := S();
      if Expected(tokens, a, 6, h) { UnaryDecided(tokens, a, h); }
      if Peek() == TMinus {
        var op := Consume();
        ghost var s1, h1 := S(), if h.Neg? then h.e else h;
        if Expected(tokens, a, 6, h) { PrefixExpected(tokens, a, s1, 6, h, [op]); }
        OneToken(tokens, a.curr, op);
        var t1, e1 := Primary(h1);
        ghost var s2 := S();
        Emit(NegRax);
        t, e := TInt, Neg(e1);
        PrefixStep(tokens, a, s1, s2, S(), 6, h, h1, e, e1, t1, [op], [NegRax]);
      } else {
        t, e := Primary(h);
        UnaryStep(tokens, a, S(), h, e, t);
      }
    }

    /** Operator, pushed left operand, right operand one level up, pop and operate: the body of every binary level. */
    method Operate(op: BinOp, tl: Type, ghost a: Snap, ghost h: Expr, ghost l: Expr) returns (t: Type, ghost e: Expr)
      requires Valid() && Peek() == BinTok(op)
      requires op == Div || op == Mod ==> KindAt(tokens, curr + 1) != TNumber(0)
      requires Built(tokens, a, S(), LeftLevel(OpLevel(op)), l, tl) && OnSpine(tokens, a, S(), OpLevel(op), h, l)
      modifies this, buf, buf.data
      ensures Valid() && curr > old(curr) && a.curr < curr
      ensures IsNode(e, OpLevel(op)) && Built(tokens, a, S(), OpLevel(op), e, t) && OnSpine(tokens, a, S(), OpLevel(op), h, e)
      decreases Left(), 0
    {
      hide ExprStep, Expected, Built, OnSpine, Appends, OpCode, RightHint, TypeOfSum, CodeBuffer.Bytes, FrameUsed, NumbersFit, Compiler.Valid;
      ghost var m, lv := S(), OpLevel(op);
      var _ := Consume();
      Emit(PushRax);
      ghost var s1, hr := S(), RightHint(l, h, lv);
      var tr, r := Operand(op, hr);
      ghost var s2 := S();
      StepBuilt(tokens, s1, s2, lv + 1, hr, r, tr);
      EmitAll([PopRcx] + OpCode(op, tl, tr));
      BinStep(tokens, a, m, s1, s2, S(), lv, h, l, r, tl, tr, op);
      t, e := SumOrInt(op, tl, tr), Bin(op, l, r);
      BuiltMoves(tokens, a, S(), lv, e, t);
    }

    /** The right operand of an operator stands one level above it. */
    method Operand(op: BinOp, ghost h: Expr) returns (t: Type, ghost e: Expr)
      requires Valid()
      modifies this, buf, buf.data
      ensures Valid() && ExprStep(tokens, old(S()), S(), OpLevel(op) + 1, h, e, t)
      decreases Left(), 12
    {
      hide ExprStep, CodeBuffer.Bytes, FrameUsed, NumbersFit;
      match op
      case Mul => t, e := Unary(h);
      case Div => t, e := Unary(h);
      case Mod => t, e := Unary(h);
      case Add => t, e := Term(h);
      case Sub => t, e := Term(h);
      case Eq => t, e := RelExpr(h);
      case Ne => t, e := RelExpr(h);
      case _ => t, e := AddExpr(h);
    }

    /** * / %; a divisor that is a literal 0 is an error */
    method Term(ghost h: Expr) returns (t: Type, ghost e: Expr)
      requires Valid()
      modifies this, buf, buf.data
      ensures Valid() && ExprStep(tokens, old(S()), S(), 5, h, e, t)
      decreases Left(), 4
    {
      hide ExprStep, Expected, Built, OnSpine, Leftmost, CodeBuffer.Bytes, FrameUsed, NumbersFit, Moves, Compiler.Valid;
      ghost var a := S();
      t, e := Unary(Leftmost(h, 5));
      SpineStarts(tokens, a, S(), 5, h, e, t);
      BuiltMoves(tokens, a, S(), 5, e, t);
      while Peek() == TStar || Peek() == TSlash || Peek() == TPercent
        invariant Valid() && Built(tokens, a, S(), 5, e, t) && OnSpine(tokens, a, S(), 5, h, e) && a.curr < curr
        decreases Left()
      {
        var op := match Peek() case TStar => Mul case TSlash => Div case _ => Mod;
        if op != Mul && KindAt(tokens, curr + 1) == TNumber(0) {
          ZeroDivisorUnexpected(tokens, a, S(), S().(curr := curr + 1), h, e, t);
          BuiltMoves(tokens, a, S(), 5, e, t);
          var _ := Consume();
          AddError();
          var _ := Consume();
          Failed(tokens, a, S(), 5, h, e, t);
          return;
        }
        t, e := Operate(op, t, a, h, e);
      }
      SpineEnds(tokens, a, S(), 5, h, e, t, 5);
    }

    method AddExpr(ghost h: Expr) returns (t: Type, ghost e: Expr)
      requires Valid()
      modifies this, buf, buf.data
      ensures Valid() && ExprStep(tokens, old(S()), S(), 4, h, e, t)
      decreases Left(), 5
    {
      hide ExprStep, Expected, Built, OnSpine, Leftmost, CodeBuffer.Bytes, FrameUsed, NumbersFit, CodeBuffer.Valid;
      ghost var a := S();
      t, e := Term(Leftmost(h, 4));
      SpineStarts(tokens, a, S(), 4, h, e, t);
      BuiltMoves(tokens, a, S(), 4, e, t);
      while Peek() == TPlus || Peek() == TMinus
        invariant Valid() && Built(tokens, a, S(), 4, e, t) && OnSpine(tokens, a, S(), 4, h, e) && a.curr < curr
        decreases Left()
      {
        t, e := Operate(if Peek() == TPlus then Add else Sub, t, a, h, e);
      }
      SpineEnds(tokens, a, S(), 4, h, e, t, 4);
    }

    /** One comparison at most. */
    method RelExpr(ghost h: Expr) returns (t: Type, ghost e: Expr)
      requires Valid()
      modifies this, buf, buf.data
      ensures Valid() && ExprStep(tokens, old(S()), S(), 3, h, e, t)
      decreases Left(), 6
    {
      hide ExprStep, Expected, Built, OnSpine, Leftmost, CodeBuffer.Bytes, FrameUsed, NumbersFit;
      ghost var a := S();
      t, e := AddExpr(Leftmost(h, 3));
      SpineStarts(tokens, a, S(), 3, h, e, t);
      BuiltMoves(tokens, a, S(), 4, e, t);
      if Peek() == TLt || Peek() == TGt || Peek() == TLeq || Peek() == TGeq {
        t, e := Operate(match Peek() case TLt => Lt case TGt => Gt case TLeq => Le case _ => Ge, t, a, h, e);
        SpineEnds(tokens, a, S(), 3, h, e, t, 3);
      } else {
        SpineEnds(tokens, a, S(), 3, h, e, t, 4);
      }
    }

    /** One equality at most. */
    method EqExpr(ghost h: Expr) returns (t: Type, ghost e: Expr)
      requires Valid()
      modifies this, buf, buf.data
      ensures Valid() && ExprStep(tokens, old(S()), S(), 2, h, e, t)
      decreases Left(), 7
    {
      hide ExprStep, Expected, Built, OnSpine, Leftmost, CodeBuffer.Bytes, FrameUsed, NumbersFit;
      ghost var a := S();
      t, e := RelExpr(Leftmost(h, 2));
      SpineStarts(tokens, a, S(), 2, h, e, t);
      BuiltMoves(tokens, a, S(), 3, e, t);
      if Peek() == TEq || Peek() == TNeq {
        t, e := Operate(if Peek() == TEq then Eq else Ne, t, a, h, e);
        SpineEnds(tokens, a, S(), 2, h, e, t, 2);
      } else {
        SpineEnds(tokens, a, S(), 2, h, e, t, 3);
      }
    }

    /** The blank jump over a right operand; pp is where its distance goes. */
    method EmitBlank(jump: Instr) returns (pp: nat)
      requires Valid() && (jump == Jz(0) || jump == Jnz(0) || jump == Jmp(0))
      modifies buf, buf.data
      ensures Valid() && Emits(old(S()), S(), [jump])
      ensures pp == |old(S()).bytes| + if jump == Jmp(0) then 1 else 2
    {
      pp := buf.size + if jump == Jmp(0) then 1 else 2;
      Emit(jump);
    }

    method Patch(pp: nat, ghost start: Snap, ghost op: nat)
      requires Valid() && pp == |start.bytes| + op
      modifies buf.data
      ensures Valid() && S() == old(S()).(bytes := S().bytes) && Patches(start.bytes, old(S()).bytes, S().bytes, op)
    {
      hide CodeBuffer.Valid;
      buf.PatchJump(pp);
    }

    /** && or ||: normalized left operand pushed and tested, jump over the right operand, combine, patch. */
    method ShortCircuit(conj: bool, ghost a: Snap, ghost h: Expr, ghost l: Expr, ghost tl: Type) returns (ghost e: Expr)
      requires Valid() && Peek() == (if conj then TAnd else TOr)
      requires Built(tokens, a, S(), if conj then 1 else 0, l, tl) && OnSpine(tokens, a, S(), if conj then 1 else 0, h, l)
      modifies this, buf, buf.data
      ensures Valid() && curr > old(curr) && a.curr < curr
      ensures Built(tokens, a, S(), if conj then 1 else 0, e, TInt) && OnSpine(tokens, a, S(), if conj then 1 else 0, h, e)
      decreases Left(), 0
    {
      hide ExprStep, Expected, Built, OnSpine, Appends, Normalize, Patches, RightHint, CodeBuffer.Bytes, FrameUsed, NumbersFit;
      ghost var m, lv := S(), if conj then 1 else 0;
      var _ := Consume();
      EmitAll(Normalize + [PushRax, TestRaxRax]);
      ghost var s0 := S();
      var pp := EmitBlank(if conj then Jz(0) else Jnz(0));
      ghost var s1, hr := S(), RightHint(l, h, lv);
      ghost var tr, r := Right(conj, hr);
      ghost var s2 := S();
      StepBuilt(tokens, s1, s2, lv + 1, hr, r, tr);
      EmitAll(Normalize + [PopRcx, if conj then AndRaxRcx else OrRaxRcx]);
      ghost var s3 := S();
      Patch(pp, s0, 2);
      e := if conj then And(l, r) else Or(l, r);
      LogicStep(tokens, a, m, s0, s1, s2, s3, S(), lv, h, e, tl, tr);
      BuiltMoves(tokens, a, S(), lv, e, TInt);
    }

    method Right(conj: bool, ghost h: Expr) returns (ghost t: Type, ghost e: Expr)
      requires Valid()
      modifies this, buf, buf.data
      ensures Valid() && ExprStep(tokens, old(S()), S(), if conj then 2 else 1, h, e, t)
      decreases Left(), 12
    {
      hide ExprStep, CodeBuffer.Bytes, FrameUsed, NumbersFit;
      if conj {
        var t1, e1 := EqExpr(h);
        t, e := t1, e1;
      } else {
        var t1, e1 := AndExpr(h);
        t, e := t1, e1;
      }
    }

    method AndExpr(ghost h: Expr) returns (t: Type, ghost e: Expr)
      requires Valid()
      modifies this, buf, buf.data
      ensures Valid() && ExprStep(tokens, old(S()), S(), 1, h, e, t)
      decreases Left(), 8
    {
      hide ExprStep, Expected, Built, OnSpine, Leftmost, CodeBuffer.Bytes, FrameUsed, NumbersFit;
      ghost var a := S();
      t, e := EqExpr(Leftmost(h, 1));
      SpineStarts(tokens, a, S(), 1, h, e, t);
      BuiltMoves(tokens, a, S(), 1, e, t);
      while Peek() == TAnd
        invariant Valid() && Built(tokens, a, S(), 1, e, t) && OnSpine(tokens, a, S(), 1, h, e) && a.curr < curr
        decreases Left()
      {
        e := ShortCircuit(true, a, h, e, t);
        t := TInt;
      }
      SpineEnds(tokens, a, S(), 1, h, e, t, 1);
    }

    method OrExpr(ghost h: Expr) returns (t: Type, ghost e: Expr)
      requires Valid()
      modifies this, buf, buf.data
      ensures Valid() && Built(tokens, old(S()), S(), 0, e, t) && OnSpine(tokens, old(S()), S(), 0, h, e) && Peek() != TOr
      decreases Left(), 9
    {
      hide ExprStep, Expected, Built, OnSpine, Leftmost, CodeBuffer.Bytes, FrameUsed, NumbersFit;
      ghost var a := S();
      t, e := AndExpr(Leftmost(h, 0));
      SpineStarts(tokens, a, S(), 0, h, e, t);
      BuiltMoves(tokens, a, S(), 0, e, t);
      while Peek() == TOr
        invariant Valid() && Built(tokens, a, S(), 0, e, t) && OnSpine(tokens, a, S(), 0, h, e) && a.curr < curr
        decreases Left()
      {
        e := ShortCircuit(false, a, h, e, t);
        t := TInt;
      }
    }

    /** A full expression; a following '=' is an error. */
    method ParseExpr(ghost h: Expr) returns (t: Type, ghost e: Expr)
      requires Valid()
      modifies this, buf, buf.data
      ensures Valid() && ExprStep(tokens, old(S()), S(), 0, h, e, t)
      decreases Left(), 10
    {
      hide ExprStep, Expected, Built, OnSpine, Appends, CodeBuffer.Bytes, FrameUsed, NumbersFit;
      ghost var a := S();
      t, e := OrExpr(h);
      BuiltMoves(tokens, a, S(), 0, e, t);
      if Peek() == TAssign {
        AssignUnexpected(tokens, a, S(), h, e, t);
        AddError();
        var _ := Consume();
        ghost var s1 := S();
        var t2, e2 := OrExpr(Num(0));
        BuiltMoves(tokens, s1, S(), 0, e2, t2);
        Failed(tokens, a, S(), 0, h, e, t);
      } else {
        SpineEnds(tokens, a, S(), 0, h, e, t, 0);
      }
    }

    // ----- declarations and assignments -----

    /** Skip to the next semicolon and past it; stop is where it stands, or the end of the text. */
    method SkipToSemi() returns (ghost stop: nat)
      requires Valid()
      modifies this`curr
      ensures Valid() && S() == old(S()).(curr := curr) && SkipsTo(tokens, old(curr), stop, curr)
      ensures KindAt(tokens, old(curr)) != TEof ==> curr > old(curr)
    {
      hide CodeBuffer.Valid;
      while Peek() != TSemi && Peek() != TEof
        invariant Valid() && S() == old(S()).(curr := curr) && curr >= old(curr)
        invariant forall i :: old(curr) <= i < curr ==> KindAt(tokens, i) != TSemi && KindAt(tokens, i) != TEof
        decreases Left()
      {
        var _ := Consume();
      }
      stop := curr;
      if Peek() == TSemi { var _ := Consume(); }
    }

    /** [ number ]; -1 for anything else in the brackets. */
    method ArraySuffix(ghost h: Option<int>) returns (len: int, ghost size: Option<int>)
      requires Valid()
      modifies this`curr, this`errors
      ensures Valid() && S() == old(S()).(curr := curr, errors := errors) && old(curr) <= curr && old(errors) <= errors
      ensures Read(tokens, old(S()), S(), PrintSize(size), Some(old(S()).env), [])
      ensures errors == 0 ==> len == ArrayLength(size) && (size.Some? ==> len > 0)
      ensures len < 0 ==> errors > 0
      ensures SizeAt(tokens, old(curr), h) ==> errors == old(errors) && size == h && len >= 0
    {
      hide Sees, Appends, CodeBuffer.Bytes, FrameUsed, NumbersFit, Read, Truncate, Expects, Compiler.Left;
      ghost var a := S();
      len, size := 0, None;
      if Peek() != TLBracket {
        MarkRead(tokens, a, a);
        return;
      }
      var _ := Consume();
      if !Peek().TNumber? {
        AddError();
        Expect(TRBracket);
        len := -1;
        FailedRead(tokens, a, S(), PrintSize(size), Some(a.env), []);
        return;
      }
      var k := Consume();
      len, size := Truncate(k.v, W32, true), Some(k.v);
      if len <= 0 { AddError(); }
      ghost var m := S();
      Expect(TRBracket);
      SuffixRead(tokens, a, m, S(), k.v);
    }

    /** The next row of the table, inside it exactly up to the 64th declaration. */
    method VarAlloc(x: string, t: Type, len: nat) returns (v: VarInfo)
      requires Valid()
      modifies this`vars, this`stackSize, this`overrun
      ensures Valid() && overrun == (old(|vars|) >= MAX_VARS) && v == NewVar(old(vars), x, t, len) && S() == old(S()).(env := Env(old(vars) + [v], inits))
    {
      stackSize := stackSize + StorageSize(t, len);
      v := VarInfo(x, stackSize, t, len);
      if |vars| >= MAX_VARS { overrun := true; }
      vars := vars + [v];
    }

    /** Type and name. */
    method TypeAndName() returns (found: bool, t: Type, x: string)
      requires Valid() && Peek().TType?
      modifies this`curr, this`errors
      ensures Valid() && t == TypeAt(tokens, old(curr))
      ensures var q := old(curr) + if t.isPtr then 2 else 1;
              if found then KindAt(tokens, q) == TIdent(x) && S() == old(S()).(curr := q + 1)
              else !KindAt(tokens, q).TIdent? && S() == old(S()).(curr := q, errors := errors) && errors > 0 && errors >= old(errors)
    {
      t := ParseType();
      found, x := Peek().TIdent?, "";
      if found {
        var k := Consume();
        x := k.name;
      } else {
        AddError();
      }
    }

    /** The array suffix after type and name, and the allocation. */
    method DeclAllocate(x: string, t: Type, ghost a: Snap, ghost h: Option<int>) returns (ok: bool, v: VarInfo, ghost size: Option<int>)
      requires Valid() && KindAt(tokens, a.curr).TType? && t == TypeAt(tokens, a.curr) && Find(a.env.vars, x).None?
      requires var q := a.curr + if t.isPtr then 2 else 1; KindAt(tokens, q) == TIdent(x) && S() == a.(curr := q + 1)
      modifies this
      ensures Valid() && a.curr < curr && a.errors <= errors && a.env.vars <= vars && S().bytes == a.bytes
      ensures ok ==> v == NewVar(a.env.vars, x, t, v.elems) && Declared(tokens, a, S(), t, x, size, v.elems)
      ensures !ok ==> errors > 0
      ensures SizeAt(tokens, old(curr), h) ==> ok && size == h && errors == a.errors
    {
      hide Sees, Appends, CodeBuffer.Bytes, FrameUsed, NumbersFit, Read, Declared, StorageSize, TypeAt, Find, Truncate;
      ghost var s1 := S();
      var len;
      ok, v := false, VarInfo("", 0, TInt, 0);
      len, size := ArraySuffix(h);
      if len >= 0 {
        ghost var s2 := S();
        v := VarAlloc(x, t, len);
        if len > 0 { inits := inits + {x}; }
        ok := true;
        HeadDeclared(tokens, a, s1, s2, S(), t, x, size, len);
      }
    }

    /** Type, name and array suffix; the variable is allocated. */
    method DeclHead(ghost h: ForInit) returns (ok: bool, v: VarInfo, ghost t: Type, ghost size: Option<int>)
      requires Valid() && Peek().TType?
      modifies this
      ensures Valid() && S().bytes == old(S()).bytes && curr > old(curr) && errors >= old(errors) && old(vars) <= vars
      ensures ok ==> v == NewVar(old(vars), v.name, t, v.elems) && Declared(tokens, old(S()), S(), t, v.name, size, v.elems)
      ensures !ok ==> errors > 0
      ensures FirstDue(tokens, old(S()), h) ==> ok && h.InitDecl? && h.ty == t && h.x == v.name && h.size == size && errors == 0
    {
      hide CodeBuffer.Bytes, FrameUsed, NumbersFit, FirstDue, SizeAt, Declared, TypeAt, Find;
      ghost var a := S();
      if FirstDue(tokens, a, h) { DeclHint(tokens, a, h); FirstErrorFree(tokens, a, h); }
      ok, v, size := false, VarInfo("", 0, TInt, 0), None;
      var found, ty, x := TypeAndName();
      t := ty;
      if !found { return; }
      if Find(vars, x).Some? {
        AddError();
        return;
      }
      ok, v, size := DeclAllocate(x, ty, a, if h.InitDecl? then h.size else None);
    }

    /** A declaration without its semicolon; an array takes no initialiser. */
    method Declaration(ghost h: ForInit) returns (ok: bool, ghost f: ForInit)
      requires Valid() && Peek().TType?
      modifies this, buf, buf.data
      ensures Valid() && FirstStep(tokens, old(S()), S(), h, f) && f.InitDecl? && curr > old(curr) && (!ok ==> errors > 0)
      decreases Left(), 20
    {
      hide CodeBuffer.Bytes, FrameUsed, NumbersFit, FirstDue, Declared, FirstStep, NewVar;
      ghost var a := S();
      ghost var t, size;
      var v;
      ok, v, t, size := DeclHead(h);
      f := InitDecl(t, v.name, size, None);
      ghost var s3 := S();
      if !ok {
        FirstWrong(tokens, a, s3, h, f);
      } else if Peek() != TAssign {
        DeclPlain(tokens, a, s3, h, t, v.name, size, v.elems);
      } else if v.elems > 0 {
        if FirstDue(tokens, a, h) { InitForScalar(tokens, a, s3, h, v.elems); }
        AddError();
        ok := false;
        FirstWrong(tokens, a, S(), h, f);
      } else {
        f := Initialiser(v, a, t, size, h);
      }
    }

    /** = e, stored in the new variable. */
    method Initialiser(v: VarInfo, ghost a: Snap, ghost t: Type, ghost size: Option<int>, ghost h: ForInit) returns (ghost f: ForInit)
      requires Valid() && Peek() == TAssign && v.elems == 0 && v == NewVar(a.env.vars, v.name, t, 0)
      requires Declared(tokens, a, S(), t, v.name, size, 0)
      requires FirstDue(tokens, a, h) ==> h.InitDecl? && h.ty == t && h.x == v.name && h.size == size && errors == 0
      modifies this, buf, buf.data
      ensures Valid() && FirstStep(tokens, a, S(), h, f) && f.InitDecl? && curr > old(curr)
      decreases Left(), 15
    {
      hide CodeBuffer.Bytes, FrameUsed, NumbersFit, FirstDue, Declared, FirstStep, NewVar, StoreOf, ExprStep, Appends;
      ghost var s3, he := S(), if h.InitDecl? && h.init.Some? then h.init.value else Num(0);
      var _ := Consume();
      ghost var s4 := S();
      var te, e := ParseExpr(he);
      ghost var s5 := S();
      StepBuilt(tokens, s4, s5, 0, he, e, te);
      Emit(StoreOf(v));
      ghost var s6 := S();
      inits := inits + {v.name};
      f := InitDecl(t, v.name, size, Some(e));
      DeclInit(tokens, a, s3, s4, s5, s6, S(), h, he, t, v.name, size, e, te);
    }

    /** x = e and x op= e, the name and the operator ahead. */
    method AssignTo(x: string, op: AssignOp, mustInit: bool, ghost h: Expr) returns (ok: bool, ghost e: Expr)
      requires Valid() && Peek() == TIdent(x) && KindAt(tokens, curr + 1) == AssignTok(op)
      modifies this, buf, buf.data
      ensures Valid() && AssignStep(tokens, old(S()), S(), mustInit, x, op, h, e) && vars == old(vars) && curr > old(curr)
      ensures !ok ==> errors > 0
      decreases Left(), 20
    {
      hide Sees, Appends, CodeBuffer.Bytes, FrameUsed, NumbersFit, Read, ExprStep, AssignBuilt, AssignDue, AssignTail, Find, Compiler.Left;
      ghost var a := S();
      ok, e := false, Num(0);
      var _ := Consume();
      var _ := Consume();
      ghost var s1 := S();
      var found := Find(vars, x);
      if found.None? || found.value.IsArray() || (mustInit && op != Set && x !in inits) {
        AddError();
        AssignWrong(tokens, a, S(), mustInit, x, op, h, e);
        return;
      }
      var t;
      t, e := ParseExpr(h);
      ghost var s2 := S();
      StepBuilt(tokens, s1, s2, 0, h, e, t);
      EmitAll(AssignTail(found.value, op));
      ghost var s3 := S();
      if op == Set { inits := inits + {x}; }
      ok := true;
      AssignStepped(tokens, a, s1, s2, s3, S(), mustInit, x, op, h, e, t);
    }

    /** The end of a simple statement: a semicolon, or recovery. */
    method EndSimple(ok: bool)
      requires Valid() && (!ok ==> errors > 0)
      modifies this`curr, this`errors
      ensures Valid() && S() == old(S()).(curr := curr, errors := errors) && old(curr) <= curr && old(errors) <= errors
      ensures ok ==> Expects(tokens, old(S()), S(), TSemi)
    {
      if ok { Expect(TSemi); } else { ghost var _ := SkipToSemi(); }
    }

    // ----- statements -----

    method DeclStatement(ghost h: Stmt) returns (ghost s: Stmt)
      requires Valid() && Peek().TType?
      modifies this, buf, buf.data
      ensures Valid() && StmtStep(tokens, old(S()), S(), h, s)
      decreases Left(), 30
    {
      hide Sees, Appends, CodeBuffer.Bytes, FrameUsed, NumbersFit, Read, FirstBuilt, FirstDue, StmtBuilt, StmtDue, CheckDecl, Expects;
      ghost var a := S();
      ghost var hf := if h.Decl? then InitDecl(h.ty, h.x, h.size, h.init) else NoInit;
      if StmtDue(tokens, a, h) { DeclFound(tokens, a, h); }
      var ok, f := Declaration(hf);
      ghost var m := S();
      s := Decl(f.ty, f.x, f.size, f.init);
      EndSimple(ok);
      DeclStmtStep(tokens, a, m, S(), h, f, ok);
    }

    method AssignStatement(op: AssignOp, ghost h: Stmt) returns (ghost s: Stmt)
      requires Valid() && Peek().TIdent? && KindAt(tokens, curr + 1) == AssignTok(op)
      modifies this, buf, buf.data
      ensures Valid() && StmtStep(tokens, old(S()), S(), h, s)
      decreases Left(), 30
    {
      hide Sees, Appends, CodeBuffer.Bytes, FrameUsed, NumbersFit, Read, AssignStep, StmtStep, Expects;
      ghost var a := S();
      var x := Peek().name;
      var ok, e := AssignTo(x, op, true, if h.Assign? then h.e else Num(0));
      ghost var m := S();
      s := Assign(x, op, e);
      EndSimple(ok);
      AssignStmtStep(tokens, a, m, S(), h, x, op, e, ok);
    }

    /** A statement given up: the error is reported and the rest skipped. */
    method Reject(ghost a: Snap, ghost h: Stmt) returns (ghost s: Stmt)
      requires Valid() && Grew(a, S()) && (a.curr < curr || Peek() != TEof) && !StmtDue(tokens, a, h)
      modifies this`curr, this`errors
      ensures Valid() && StmtStep(tokens, a, S(), h, s) && curr >= old(curr)
    {
      hide StmtStep, StmtDue, CodeBuffer.Bytes, FrameUsed, NumbersFit;
      AddError();
      ghost var _ := SkipToSemi();
      s := Return(None);
      StmtWrong(tokens, a, S(), h, s);
    }

    /** x++; x--; ++x; --x; once both tokens have been read. */
    method BumpStatement(x: string, up: bool, post: bool, ghost a: Snap, ghost h: Stmt) returns (ghost s: Stmt)
      requires Valid() && BumpAt(tokens, a.curr, x, up, post) && S() == a.(curr := a.curr + 2)
      modifies this, buf, buf.data
      ensures Valid() && StmtStep(tokens, a, S(), h, s)
    {
      hide Sees, Appends, CodeBuffer.Bytes, FrameUsed, NumbersFit, StmtStep, StmtDue, Expects, Find;
      s := BumpStmt(x, up, post);
      if StmtDue(tokens, a, h) { BumpDue(tokens, a, h, x, up, post); }
      ghost var s1 := S();
      var found := Find(vars, x);
      if found.None? || found.value.IsArray() {
        s := Reject(a, h);
        return;
      }
      Emit(BumpOf(found.value, up));
      ghost var m := S();
      Expect(TSemi);
      BumpStmtStep(tokens, a, s1, m, S(), h, x, up, post);
    }

    /** ++x; or --x; */
    method PreBumpStatement(ghost h: Stmt) returns (ghost s: Stmt)
      requires Valid() && IsBumpTok(Peek())
      modifies this, buf, buf.data
      ensures Valid() && StmtStep(tokens, old(S()), S(), h, s)
    {
      hide Sees, Appends, CodeBuffer.Bytes, FrameUsed, NumbersFit, StmtStep, StmtDue;
      ghost var a := S();
      var op := Consume();
      if !Peek().TIdent? {
        if StmtDue(tokens, a, h) { DueHead(tokens, a, h); }
        s := Reject(a, h);
        return;
      }
      var k := Consume();
      s := BumpStatement(k.name, op == TPlusPlus, false, a, h);
    }

    /** *x =, with x an initialised pointer. */
    method ThroughTarget(ghost h: Stmt) returns (target: Option<VarInfo>, x: string)
      requires Valid() && Peek() == TStar && KindAt(tokens, curr + 1).TIdent?
      modifies this`curr
      ensures Valid() && S() == old(S()).(curr := curr) && curr > old(curr) && x == KindAt(tokens, old(curr) + 1).name
      ensures target.Some? ==> KindAt(tokens, old(curr) + 2) == TAssign && curr == old(curr) + 3
      ensures target.Some? ==> Storable(old(S()).env, x) && Find(vars, x) == target
      ensures target.None? ==> !StmtDue(tokens, old(S()), h)
    {
      hide StmtDue, CodeBuffer.Bytes, FrameUsed, NumbersFit, Find, Compiler.Valid;
      ghost var a := S();
      if StmtDue(tokens, a, h) { ThroughDue(tokens, a, h, KindAt(tokens, curr + 1).name); }
      var _ := Consume();
      var k := Consume();
      x, target := k.name, None;
      if Peek() == TAssign {
        var _ := Consume();
        var found := Find(vars, x);
        if found.Some? && found.value.ty.isPtr && (x in inits || found.value.IsArray()) { target := found; }
      }
    }

    /** *x = e; */
    method ThroughStatement(ghost h: Stmt) returns (ghost s: Stmt)
      requires Valid() && Peek() == TStar && KindAt(tokens, curr + 1).TIdent?
      modifies this, buf, buf.data
      ensures Valid() && StmtStep(tokens, old(S()), S(), h, s)
      decreases Left(), 30
    {
      hide Appends, CodeBuffer.Bytes, FrameUsed, NumbersFit, StmtStep, StmtDue, Expects, ExprStep, Expected, Find, ThroughTail, Storable;
      ghost var a := S();
      var target, x := ThroughTarget(h);
      if target.None? {
        s := Reject(a, h);
        return;
      }
      ghost var s1, he := S(), if h.StoreThrough? then h.e else Num(0);
      var t, e := ParseExpr(he);
      ghost var s2 := S();
      EmitAll(ThroughTail(target.value));
      ghost var s3 := S();
      Expect(TSemi);
      s := StoreThrough(x, e);
      ThroughStep(tokens, a, s1, s2, s3, S(), h, x, he, e, t);
    }

    /** x[i], the address in rax. */
    method ElementTarget(x: string, v: VarInfo, ghost h: Expr) returns (ghost i: Expr)
      requires Valid() && Peek() == TIdent(x) && KindAt(tokens, curr + 1) == TLBracket
      requires Find(vars, x) == Some(v) && Indexable(S().env, x)
      modifies this, buf, buf.data
      ensures Valid() && TargetBuilt(tokens, old(S()), S(), x, i) && curr > old(curr)
      ensures TargetDue(tokens, old(S()), h) ==>
                errors == 0 && i == h && curr == old(curr) + 3 + |PrintExpr(h)| && CheckIn(h, old(S()).env) == Some(S().env)
      decreases Left(), 25
    {
      hide Appends, CodeBuffer.Bytes, FrameUsed, NumbersFit, ExprStep, Expected, TargetBuilt, TargetDue, Find, Expects, IndexTail, DesignatedOf;
      ghost var a := S();
      var _ := Consume();
      ElementBase(v);
      ghost var s0 := S();
      var t, e := ParseExpr(h);
      i := e;
      ghost var s1 := S();
      EmitAll(IndexTail(v));
      ghost var s2 := S();
      Expect(TRBracket);
      TargetStep(tokens, a, s0, s1, s2, S(), x, h, i, t);
    }

    /** x[i] = e; */
    method ElementStatement(ghost h: Stmt) returns (ghost s: Stmt)
      requires Valid() && Peek().TIdent? && KindAt(tokens, curr + 1) == TLBracket
      modifies this, buf, buf.data
      ensures Valid() && StmtStep(tokens, old(S()), S(), h, s)
      decreases Left(), 30
    {
      hide Appends, CodeBuffer.Bytes, FrameUsed, NumbersFit, StmtStep, StmtDue, Find, TargetBuilt, TargetDue, CheckIn;
      ghost var a := S();
      ghost var hi := if h.StoreIndex? then h.i else Num(0);
      var x := Peek().name;
      if StmtDue(tokens, a, h) { ElementDue(tokens, a, h, x); }
      var found := Find(vars, x);
      if found.None? || (!found.value.ty.isPtr && !found.value.IsArray()) {
        s := Reject(a, h);
        return;
      }
      ghost var i := ElementTarget(x, found.value, hi);
      ghost var m := S();
      if Peek() != TAssign {
        TargetGrows(tokens, a, m, x, i);
        s := Reject(a, h);
        return;
      }
      s := ElementValue(x, found.value, a, h, i);
    }

    /** = e; after the address of the element. */
    method ElementValue(x: string, v: VarInfo, ghost a: Snap, ghost h: Stmt, ghost i: Expr) returns (ghost s: Stmt)
      requires Valid() && Peek() == TAssign && TargetBuilt(tokens, a, S(), x, i) && Find(a.env.vars, x) == Some(v)
      requires KindAt(tokens, a.curr) == TIdent(x) && KindAt(tokens, a.curr + 1) == TLBracket
      requires StmtDue(tokens, a, h) ==> ValueDue(a, S(), h, x, i)
      modifies this, buf, buf.data
      ensures Valid() && StmtStep(tokens, a, S(), h, s)
      decreases Left(), 25
    {
      hide Appends, CodeBuffer.Bytes, FrameUsed, NumbersFit, StmtStep, StmtDue, ExprStep, Expected, TargetBuilt, Find, Expects, ElementTail, CheckIn;
      ghost var m := S();
      var _ := Consume();
      ghost var s4, he := S(), if h.StoreIndex? then h.e else Num(0);
      Emit(PushRax);
      ghost var s5 := S();
      var t, e := ParseExpr(he);
      ghost var s6 := S();
      EmitAll(ElementTail(v));
      ghost var s7 := S();
      Expect(TSemi);
      s := StoreIndex(x, i, e);
      ElementStep(tokens, a, m, s4, s5, s6, s7, S(), h, x, i, he, e, t);
    }

    /** return; or return e; */
    method ReturnStatement(ghost h: Stmt) returns (ghost s: Stmt)
      requires Valid() && Peek() == TReturn
      modifies this, buf, buf.data
      ensures Valid() && StmtStep(tokens, old(S()), S(), h, s)
      decreases Left(), 30
    {
      hide Sees, Appends, CodeBuffer.Bytes, FrameUsed, NumbersFit, StmtStep, StmtDue, Expects, ExprStep, Expected, Epilogue;
      ghost var a := S();
      var _ := Consume();
      ghost var s1 := S();
      ghost var he := if h.Return? && h.result.Some? then h.result.value else Num(0);
      ghost var e: Option<Expr>, t := None, TInt;
      if Peek() == TSemi {
        Emit(MovRaxImm(0));
      } else {
        var t1, e1 := ParseExpr(he);
        t, e := t1, Some(e1);
      }
      ghost var s2 := S();
      EmitAll(Epilogue);
      ghost var s3 := S();
      Expect(TSemi);
      s := Return(e);
      ReturnStep(tokens, a, s1, s2, s3, S(), h, he, e, t);
    }

    // ----- blocks -----

    /** Statements up to the end of the text, or inside a block up to its brace. */
    method Statements(inner: bool, ghost h: Stmts) returns (ghost ss: Stmts)
      requires Valid()
      modifies this, buf, buf.data
      ensures Valid() && StmtsStep(tokens, old(S()), S(), h, inner, ss) && EndsList(Peek(), inner) && curr >= old(curr)
      decreases Left(), 45
    {
      hide CodeBuffer.Bytes, FrameUsed, NumbersFit, StmtsBuilt, StmtsDue, StmtStep;
      ghost var a := S();
      ghost var rest := h;
      ss := Nil;
      NothingBuilt(tokens, a);
      while !(Peek() == TEof || (inner && Peek() == TRBrace))
        invariant Valid() && StmtsBuilt(tokens, a, S(), ss) && curr >= a.curr
        invariant StmtsDue(tokens, a, h, inner) ==> StmtsDue(tokens, S(), rest, inner) && h == Join(ss, rest)
        decreases Left()
      {
        ghost var m, hs := S(), if rest.Cons? then rest.head else Return(None);
        ghost var s := Statement(hs);
        StmtGrows(tokens, m, S(), hs, s);
        if StmtsDue(tokens, a, h, inner) {
          HeadFound(tokens, m, S(), rest, inner, s);
          JoinSnoc(ss, s, rest.tail);
          rest := rest.tail;
        }
        SnocBuilt(tokens, a, m, S(), ss, s) by { StmtStepBuilt(tokens, m, S(), hs, s); }
        ss := Snoc(ss, s);
      }
      if StmtsDue(tokens, a, h, inner) {
        EndDue(tokens, S(), rest, inner);
        JoinNil(ss);
        StmtsErrorFree(tokens, S(), rest, inner);
      }
    }

    /** { statements } or one statement. */
    method ParseBlock(ghost h: Block) returns (ghost k: Block)
      requires Valid()
      modifies this, buf, buf.data
      ensures Valid() && BlockStep(tokens, old(S()), S(), h, k)
      decreases Left(), 46
    {
      hide CodeBuffer.Bytes, FrameUsed, NumbersFit, StmtsStep, StmtStep, BlockStep;
      ghost var a := S();
      if Peek() == TLBrace {
        var _ := Consume();
        ghost var s1, hs := S(), if h.Braces? then h.ss else Nil;
        ghost var ss := Statements(true, hs);
        ghost var s2 := S();
        Expect(TRBrace);
        k := Braces(ss);
        BracesStep(tokens, a, s1, s2, S(), h, hs, ss);
      } else {
        ghost var s := Statement(if h.One? then h.s else Return(None));
        k := One(s);
        OneBuilt(tokens, a, S(), h, s);
      }
    }

    // ----- statements with jumps -----

    /** jmp back to the code at start. */
    method JumpBack(start: nat)
      requires Valid()
      modifies buf, buf.data
      ensures Valid() && Emits(old(S()), S(), [Jmp(start - (|old(S()).bytes| + JmpSize))])
    {
      Emit(Jmp(start - (buf.size + JmpSize)));
    }

    /** keyword ( condition ) test jz, for if and while. */
    method ParseGuard(ghost h: Expr) returns (ok: bool, pp: nat, ghost e: Expr, ghost s3: Snap, ghost s4: Snap)
      requires Valid() && (Peek() == TIf || Peek() == TWhile)
      modifies this, buf, buf.data
      ensures Valid() && curr > old(curr)
      ensures ok ==> GuardBuilt(tokens, old(S()), s3, s4, S(), KindAt(tokens, old(curr)), e) && pp == |s4.bytes| + 2
      ensures !ok ==> errors > 0 && Grew(old(S()), S())
      ensures GuardDue(tokens, old(S()), h) ==> ok && GuardMet(old(S()), S(), h, e)
      decreases Left(), 30
    {
      hide Appends, CodeBuffer.Bytes, FrameUsed, NumbersFit, ExprStep, Expected, GuardBuilt, GuardDue, GuardMet, Expects;
      ghost var a := S();
      ok, pp, e, s3, s4 := false, 2, Num(0), a, a;
      var k := Consume();
      Expect(TLParen);
      ghost var s1 := S();
      if Peek() == TRParen {
        if GuardDue(tokens, a, h) { GuardNotEmpty(tokens, a, s1, h); }
        AddError();
        var _ := Consume();
        return;
      }
      var t;
      t, e := ParseExpr(h);
      ghost var s2 := S();
      Expect(TRParen);
      s3 := S();
      Emit(TestRaxRax);
      s4 := S();
      pp := EmitBlank(Jz(0));
      ok := true;
      GuardStep(tokens, a, s1, s2, s3, s4, S(), k, h, e, t);
    }

    method WhileStatement(ghost h: Stmt) returns (ghost s: Stmt)
      requires Valid() && Peek() == TWhile
      modifies this, buf, buf.data
      ensures Valid() && StmtStep(tokens, old(S()), S(), h, s)
      decreases Left(), 40
    {
      hide Appends, CodeBuffer.Bytes, FrameUsed, NumbersFit, StmtStep, StmtDue, BlockStep, GuardBuilt, GuardDue, GuardMet, Patches, Emits;
      ghost var a, hb := S(), if h.While? then h.body else Braces(Nil);
      if StmtDue(tokens, a, h) { WhileDue(tokens, a, h); }
      var start := buf.size;
      ghost var e, s3, s4;
      var ok, pp;
      ok, pp, e, s3, s4 := ParseGuard(if h.While? then h.c else Num(0));
      ghost var s5 := S();
      ghost var body := ParseBlock(hb);
      ghost var s6 := S();
      BlockGrows(tokens, s5, s6, hb, body);
      s := While(e, body);
      if !ok {
        StmtWrong(tokens, a, s6, h, s);
        return;
      }
      JumpBack(start);
      ghost var s7 := S();
      Patch(pp, s4, 2);
      WhileStep(tokens, a, s3, s4, s5, s6, s7, S(), h, e, hb, body);
    }

    method IfStatement(ghost h: Stmt) returns (ghost s: Stmt)
      requires Valid() && Peek() == TIf
      modifies this, buf, buf.data
      ensures Valid() && StmtStep(tokens, old(S()), S(), h, s)
      decreases Left(), 40
    {
      hide Appends, CodeBuffer.Bytes, FrameUsed, NumbersFit, StmtStep, StmtDue, BlockStep, GuardBuilt, GuardDue, GuardMet, Patches;
      ghost var a, ht := S(), if h.If? then h.thn else Braces(Nil);
      if StmtDue(tokens, a, h) { IfDue(tokens, a, h); }
      ghost var e, s3, s4;
      var ok, pp;
      ok, pp, e, s3, s4 := ParseGuard(if h.If? then h.c else Num(0));
      ghost var s5 := S();
      ghost var thn := ParseBlock(ht);
      ghost var s6 := S();
      BlockGrows(tokens, s5, s6, ht, thn);
      s := If(e, thn, None);
      if !ok {
        EmptyIf();
        StmtWrong(tokens, a, S(), h, s);
      } else if Peek() == TElse {
        s := ElsePart(pp, a, s3, s4, s5, h, e, ht, thn);
      } else {
        Patch(pp, s4, 2);
        IfStep(tokens, a, s3, s4, s5, s6, S(), h, e, ht, thn);
      }
    }

    /** After an if without a condition an else part is still read. */
    method EmptyIf()
      requires Valid() && errors > 0
      modifies this, buf, buf.data
      ensures Valid() && Grew(old(S()), S()) && errors > 0
      decreases Left(), 47
    {
      hide Appends, CodeBuffer.Bytes, FrameUsed, NumbersFit, BlockStep;
      if Peek() == TElse {
        var _ := Consume();
        ghost var m := S();
        ghost var k := ParseBlock(Braces(Nil));
        BlockGrows(tokens, m, S(), Braces(Nil), k);
      }
    }

    /** else: the jump over it is emitted, the jump to it patched, and after the block the jump over it. */
    method ElsePart(pp: nat, ghost a: Snap, ghost s3: Snap, ghost s4: Snap, ghost s5: Snap, ghost h: Stmt, ghost e: Expr, ghost ht: Block, ghost thn: Block)
      returns (ghost s: Stmt)
      requires Valid() && Peek() == TElse && pp == |s4.bytes| + 2
      requires GuardBuilt(tokens, a, s3, s4, s5, TIf, e) && BlockStep(tokens, s5, S(), ht, thn)
      requires StmtDue(tokens, a, h) ==> h.If? && ht == h.thn && GuardMet(a, s5, h.c, e)
      modifies this, buf, buf.data
      ensures Valid() && StmtStep(tokens, a, S(), h, s)
      decreases Left(), 0
    {
      hide Appends, CodeBuffer.Bytes, FrameUsed, NumbersFit, StmtStep, StmtDue, BlockStep, GuardBuilt, GuardMet, Patches;
      ghost var s6, he := S(), if h.If? && h.els.Some? then h.els.value else Braces(Nil);
      var _ := Consume();
      ghost var m := S();
      var over := EmitBlank(Jmp(0));
      ghost var s7 := S();
      Patch(pp, s4, 2);
      ghost var s8 := S();
      ghost var els := ParseBlock(he);
      ghost var s9 := S();
      Patch(over, m, 1);
      s := If(e, thn, Some(els));
      IfElseStep(tokens, a, s3, s4, s5, s6, m, s7, s8, s9, S(), h, e, ht, thn, he, els);
    }

    method DoStatement(ghost h: Stmt) returns (ghost s: Stmt)
      requires Valid() && Peek() == TDo
      modifies this, buf, buf.data
      ensures Valid() && StmtStep(tokens, old(S()), S(), h, s)
      decreases Left(), 40
    {
      hide Appends, CodeBuffer.Bytes, FrameUsed, NumbersFit, StmtStep, StmtDue, BlockStep, Expects, BlockDue;
      ghost var a, hb := S(), if h.DoWhile? then h.body else Braces(Nil);
      if StmtDue(tokens, a, h) { DoDue(tokens, a, h); }
      var _ := Consume();
      var start := buf.size;
      ghost var s1 := S();
      ghost var body := ParseBlock(hb);
      ghost var s2 := S();
      Expect(TWhile);
      ghost var s3 := S();
      Expect(TLParen);
      BlockGrows(tokens, s1, s2, hb, body);
      s := DoCondition(start, a, s1, s2, s3, h, hb, body);
    }

    /** condition ) ; and the jump back to the body. */
    method DoCondition(start: nat, ghost a: Snap, ghost s1: Snap, ghost s2: Snap, ghost s3: Snap, ghost h: Stmt, ghost hb: Block, ghost body: Block)
      returns (ghost s: Stmt)
      requires Valid() && start == |a.bytes| && KindAt(tokens, a.curr) == TDo && s1 == a.(curr := a.curr + 1)
      requires BlockStep(tokens, s1, s2, hb, body) && Expects(tokens, s2, s3, TWhile) && Expects(tokens, s3, S(), TLParen)
      requires StmtDue(tokens, a, h) ==> h.DoWhile? && hb == h.body
      modifies this, buf, buf.data
      ensures Valid() && StmtStep(tokens, a, S(), h, s)
      decreases Left(), 30
    {
      hide Appends, CodeBuffer.Bytes, FrameUsed, NumbersFit, StmtStep, StmtDue, BlockStep, Expects;
      ghost var s4 := S();
      if StmtDue(tokens, a, h) { DoNotEmpty(tokens, a, s1, s2, s3, s4, h, body); }
      if Peek() == TRParen {
        DoGrows(tokens, a, s1, s2, s3, s4, hb, body);
        EmptyDo();
        s := Return(None);
        StmtWrong(tokens, a, S(), h, s);
        return;
      }
      s := DoTail(start, a, s1, s2, s3, h, hb, body);
    }

    method EmptyDo()
      requires Valid()
      modifies this`curr, this`errors
      ensures Valid() && Grew(old(S()), S()) && errors > 0
    {
      AddError();
      var _ := Consume();
      Expect(TSemi);
    }

    method DoTail(start: nat, ghost a: Snap, ghost s1: Snap, ghost s2: Snap, ghost s3: Snap, ghost h: Stmt, ghost hb: Block, ghost body: Block)
      returns (ghost s: Stmt)
      requires Valid() && start == |a.bytes| && KindAt(tokens, a.curr) == TDo && s1 == a.(curr := a.curr + 1)
      requires BlockStep(tokens, s1, s2, hb, body) && Expects(tokens, s2, s3, TWhile) && Expects(tokens, s3, S(), TLParen)
      requires StmtDue(tokens, a, h) ==> h.DoWhile? && hb == h.body
      modifies this, buf, buf.data
      ensures Valid() && StmtStep(tokens, a, S(), h, s)
      decreases Left(), 29
    {
      hide Appends, CodeBuffer.Bytes, FrameUsed, NumbersFit, StmtStep, StmtDue, BlockStep, ExprStep, Expected, Expects;
      ghost var s4, hc := S(), if h.DoWhile? then h.c else Num(0);
      var t, e := ParseExpr(hc);
      ghost var s5 := S();
      Expect(TRParen);
      ghost var s6 := S();
      Expect(TSemi);
      ghost var s7 := S();
      Emit(TestRaxRax);
      ghost var s8 := S();
      var pp := EmitBlank(Jnz(0));
      ghost var s9 := S();
      PatchBack(pp, start);
      s := DoWhile(body, e);
      DoStep(tokens, a, s1, s2, s3, s4, s5, s6, s7, s8, s9, S(), h, hb, body, hc, e, t);
    }

    /** The operand at pp, just emitted, becomes the distance back to start. */
    method PatchBack(pp: nat, start: nat)
      requires Valid()
      modifies buf.data
      ensures Valid() && PatchedBack(old(S()), S(), pp, start)
    {
      hide I32;
      buf.WriteI32(pp, start - (pp + 4));
    }

    // ----- for -----

    /** First part: nothing, a declaration, an assignment or an expression. */
    method ForFirst(ghost h: ForInit) returns (ghost f: ForInit)
      requires Valid()
      modifies this, buf, buf.data
      ensures Valid() && FirstStep(tokens, old(S()), S(), h, f)
      decreases Left(), 30
    {
      hide Appends, CodeBuffer.Bytes, FrameUsed, NumbersFit, FirstStep, AssignStep, ExprStep;
      ghost var a := S();
      if Peek() == TSemi {
        f := NoInit;
        NoInitStep(tokens, a, h);
      } else if Peek().TType? {
        f := DeclarationOnly(h);
      } else if Peek().TIdent? && IsAssignTok(KindAt(tokens, curr + 1)) {
        var x, op := Peek().name, AssignOpOf(KindAt(tokens, curr + 1));
        var _, e := AssignTo(x, op, false, if h.InitAssign? then h.e else Num(0));
        f := InitAssign(x, op, e);
        FirstAssignStep(tokens, a, S(), h, x, op, e);
      } else {
        var t, e := ParseExpr(if h.InitExpr? then h.e else Num(0));
        f := InitExpr(e);
        FirstExprStep(tokens, a, S(), h, e, t);
      }
    }

    method DeclarationOnly(ghost h: ForInit) returns (ghost f: ForInit)
      requires Valid() && Peek().TType?
      modifies this, buf, buf.data
      ensures Valid() && FirstStep(tokens, old(S()), S(), h, f)
      decreases Left(), 25
    {
      hide CodeBuffer.Bytes, FrameUsed, NumbersFit, FirstStep;
      var _, g := Declaration(h);
      f := g;
    }

    /** Third part: nothing, ++ or --, an assignment or an expression. */
    method ForThird(ghost h: ForPost) returns (ghost p: ForPost)
      requires Valid()
      modifies this, buf, buf.data
      ensures Valid() && PostStep(tokens, old(S()), S(), h, p)
      decreases Left(), 30
    {
      hide Appends, CodeBuffer.Bytes, FrameUsed, NumbersFit, PostStep, AssignStep, ExprStep;
      ghost var a := S();
      var k, next := Peek(), KindAt(tokens, curr + 1);
      if k == TRParen {
        p := NoPost;
        NoPostStep(tokens, a, h);
      } else if k.TIdent? && IsBumpTok(next) {
        var _ := Consume();
        var _ := Consume();
        p := PostBumpPart(k.name, next == TPlusPlus, true, a, h);
      } else if k.TIdent? && IsAssignTok(next) {
        var op := AssignOpOf(next);
        var _, e := AssignTo(k.name, op, false, AssignHint(h));
        p := PostAssign(k.name, op, e);
        PostAssignStep(tokens, a, S(), h, k.name, op, e);
      } else if IsBumpTok(k) {
        p := PreBumpPart(h);
      } else {
        var t, e := ParseExpr(if h.PostExpr? then h.e else Num(0));
        p := PostExpr(e);
        PostExprStep(tokens, a, S(), h, e, t);
      }
    }

    method PreBumpPart(ghost h: ForPost) returns (ghost p: ForPost)
      requires Valid() && IsBumpTok(Peek())
      modifies this, buf, buf.data
      ensures Valid() && PostStep(tokens, old(S()), S(), h, p)
    {
      hide Appends, CodeBuffer.Bytes, FrameUsed, NumbersFit, PostStep;
      ghost var a := S();
      var op := Consume();
      if Peek().TIdent? {
        var k := Consume();
        p := PostBumpPart(k.name, op == TPlusPlus, false, a, h);
      } else {
        p := PostBare(op == TPlusPlus);
        PostBareStep(tokens, a, S(), h, op == TPlusPlus);
      }
    }

    /** A ++ or -- whose name is not a declared scalar is dropped without an error. */
    method PostBumpPart(x: string, up: bool, post: bool, ghost a: Snap, ghost h: ForPost) returns (ghost p: ForPost)
      requires Valid() && BumpAt(tokens, a.curr, x, up, post) && S() == a.(curr := a.curr + 2)
      modifies this, buf, buf.data
      ensures Valid() && PostStep(tokens, a, S(), h, p)
    {
      hide Appends, CodeBuffer.Bytes, FrameUsed, NumbersFit, PostStep, Find;
      ghost var s1 := S();
      var found := Find(vars, x);
      if found.Some? && !found.value.IsArray() { Emit(BumpOf(found.value, up)); }
      p := if CheckBump(x, a.env).Some? then PostBump(x, up, post) else PostIgnored(x, up, post);
      PostBumpStep(tokens, a, s1, S(), h, x, up, post);
    }

    /** Second part: the condition with its exit jump, or nothing; pp is -1 then. */
    method ForSecond(ghost h: Option<Expr>) returns (pp: int, ghost cond: Option<Expr>, ghost m1: Snap, ghost m2: Snap)
      requires Valid()
      modifies this, buf, buf.data
      ensures Valid() && CondBuilt(tokens, old(S()), m1, m2, S(), cond) && curr >= old(curr)
      ensures if cond.None? then pp == -1 else pp == |m2.bytes| + 2
      ensures CondDue(tokens, old(S()), h) ==> cond == h && CondMet(old(S()), S(), h)
      decreases Left(), 30
    {
      hide Appends, CodeBuffer.Bytes, FrameUsed, NumbersFit, CondBuilt, CondDue, CondMet, ExprStep;
      ghost var a := S();
      pp, cond, m1, m2 := -1, None, a, a;
      if Peek() == TSemi {
        NoCondStep(tokens, a, h);
      } else {
        ghost var he := if h.Some? then h.value else Num(0);
        var t, e := ParseExpr(he);
        m1 := S();
        Emit(TestRaxRax);
        m2 := S();
        pp := EmitBlank(Jz(0));
        cond := Some(e);
        CondStep(tokens, a, m1, m2, S(), h, he, e, t);
      }
    }

    /** jmp body; third part; ) jmp condition; body; jmp third part. */
    method ForLoop(start: nat, ghost guard: nat, ghost hp: ForPost, ghost hb: Block) returns (ghost step: ForPost, ghost body: Block)
      requires Valid()
      modifies this, buf, buf.data
      ensures Valid() && LoopBuilt(tokens, old(S()), S(), start, guard, step, body)
      ensures LoopDue(tokens, old(S()), hp, hb) ==> errors == 0 && step == hp && body == hb
      decreases Left(), 47
    {
      hide Appends, CodeBuffer.Bytes, FrameUsed, NumbersFit, LoopBuilt, LoopDue, PostStep, BlockStep, Patches, Expects;
      ghost var a := S();
      var over := EmitBlank(Jmp(0));
      var again := buf.size;
      ghost var s6 := S();
      step := ForThird(hp);
      ghost var s7 := S();
      Expect(TRParen);
      ghost var s8 := S();
      JumpBack(start);
      ghost var s9 := S();
      Patch(over, a, 1);
      ghost var s10 := S();
      PostGrows(tokens, s6, s7, s8, hp, step);
      body := ParseBlock(hb);
      ghost var s11 := S();
      JumpBack(again);
      LoopStep(tokens, a, s6, s7, s8, s9, s10, s11, S(), start, guard, hp, step, hb, body);
    }

    method ForStatement(ghost h: Stmt) returns (ghost s: Stmt)
      requires Valid() && Peek() == TFor
      modifies this, buf, buf.data
      ensures Valid() && StmtStep(tokens, old(S()), S(), h, s)
      decreases Left(), 40
    {
      hide Appends, CodeBuffer.Bytes, FrameUsed, NumbersFit, StmtStep, StmtDue, FirstBuilt, Expects, FirstMet;
      ghost var a := S();
      ghost var s1, s2, first := ForHead(a, h);
      s := ForRest(a, s1, s2, first, h);
    }

    /** for, the parenthesis, the first part and its semicolon. */
    method ForHead(ghost a: Snap, ghost h: Stmt) returns (ghost s1: Snap, ghost s2: Snap, ghost first: ForInit)
      requires Valid() && S() == a && Peek() == TFor
      modifies this, buf, buf.data
      ensures Valid() && Expects(tokens, a.(curr := a.curr + 1), s1, TLParen) && FirstBuilt(tokens, s1, s2, first)
      ensures Expects(tokens, s2, S(), TSemi) && a.curr < curr
      ensures StmtDue(tokens, a, h) ==> h.For? && FirstMet(a, S(), h, first)
      decreases Left(), 35
    {
      hide Appends, CodeBuffer.Bytes, FrameUsed, NumbersFit, StmtDue, FirstStep, FirstBuilt, Expects, FirstMet;
      if StmtDue(tokens, a, h) { ForDue(tokens, a, h); }
      var _ := Consume();
      Expect(TLParen);
      s1 := S();
      first := ForFirst(if h.For? then h.first else NoInit);
      s2 := S();
      Expect(TSemi);
      ForFirstGrows(tokens, a, s1, s2, S(), first, h);
    }

    /** A for once its first semicolon has been read. */
    method ForRest(ghost a: Snap, ghost s1: Snap, ghost s2: Snap, ghost first: ForInit, ghost h: Stmt) returns (ghost s: Stmt)
      requires Valid() && KindAt(tokens, a.curr) == TFor && Expects(tokens, a.(curr := a.curr + 1), s1, TLParen)
      requires FirstBuilt(tokens, s1, s2, first) && Expects(tokens, s2, S(), TSemi) && a.curr < curr
      requires StmtDue(tokens, a, h) ==> h.For? && FirstMet(a, S(), h, first)
      modifies this, buf, buf.data
      ensures Valid() && StmtStep(tokens, a, S(), h, s)
      decreases Left(), 48
    {
      hide Appends, CodeBuffer.Bytes, FrameUsed, NumbersFit, StmtStep, StmtDue, FirstBuilt, CondBuilt, LoopBuilt, CondDue, LoopDue, CheckFirst, CondPos, CondMet, Expects, Patches, CondSize;
      ghost var s3, hc := S(), if h.For? then h.cond else None;
      if StmtDue(tokens, a, h) { CondIsDue(tokens, a, s3, h, first); }
      var start := buf.size;
      var pp;
      ghost var cond, m1, m2;
      pp, cond, m1, m2 := ForSecond(hc);
      ghost var s4 := S();
      Expect(TSemi);
      ghost var s5 := S();
      if StmtDue(tokens, a, h) { LoopIsDue(tokens, a, s3, s4, s5, h, first); }
      ghost var step, body := ForLoop(start, CondSize(cond, s3.env.vars), if h.For? then h.step else NoPost, if h.For? then h.body else Braces(Nil));
      ghost var s6 := S();
      if pp >= 0 { Patch(pp, m2, 2); }
      s := For(first, cond, step, body);
      ForStep(tokens, a, ForTrace(s1, s2, s3, m1, m2, s4, s5, s6, first, cond, step, body), S(), h);
    }

    // ----- any statement -----

    /** x++; or x--; */
    method PostBumpStatement(ghost h: Stmt) returns (ghost s: Stmt)
      requires Valid() && Peek().TIdent? && IsBumpTok(KindAt(tokens, curr + 1))
      modifies this, buf, buf.data
      ensures Valid() && StmtStep(tokens, old(S()), S(), h, s)
    {
      hide CodeBuffer.Bytes, FrameUsed, NumbersFit, StmtStep;
      ghost var a := S();
      var k := Consume();
      var op := Consume();
      s := BumpStatement(k.name, op == TPlusPlus, true, a, h);
    }

    /** A name that starts no statement is skipped up to the next semicolon, without an error and without code. */
    method SkipName(ghost h: Stmt) returns (ghost s: Stmt)
      requires Valid() && Peek().TIdent? && !StartsAfterName(KindAt(tokens, curr + 1))
      modifies this`curr
      ensures Valid() && StmtStep(tokens, old(S()), S(), h, s)
    {
      hide CodeBuffer.Bytes, FrameUsed, NumbersFit, StmtStep;
      ghost var a := S();
      ghost var stop := SkipToSemi();
      s := SkippedAt(tokens, a.curr, stop);
      SkippedStep(tokens, a, S(), h, stop);
    }

    /** else without if: an error, and its block is read. */
    method StrayElse(ghost h: Stmt) returns (ghost s: Stmt)
      requires Valid() && Peek() == TElse
      modifies this, buf, buf.data
      ensures Valid() && StmtStep(tokens, old(S()), S(), h, s)
      decreases Left(), 40
    {
      hide CodeBuffer.Bytes, FrameUsed, NumbersFit, StmtStep, BlockStep, StmtDue, Appends;
      ghost var a := S();
      ElseUndue(tokens, a, h);
      AddError();
      var _ := Consume();
      ghost var m := S();
      ghost var k := ParseBlock(Braces(Nil));
      BlockGrows(tokens, m, S(), Braces(Nil), k);
      s := Return(None);
      StmtWrong(tokens, a, S(), h, s);
    }

    /** A number before '='. */
    method LiteralStatement(ghost h: Stmt) returns (ghost s: Stmt)
      requires Valid() && Peek().TNumber?
      modifies this`curr, this`errors
      ensures Valid() && StmtStep(tokens, old(S()), S(), h, s)
    {
      hide CodeBuffer.Bytes, FrameUsed, NumbersFit, StmtStep, StmtDue;
      ghost var a := S();
      if StmtDue(tokens, a, h) { DueHead(tokens, a, h); }
      s := Reject(a, h);
    }

    /** Anything else: one token is dropped. */
    method NoStatement(ghost h: Stmt) returns (ghost s: Stmt)
      requires Valid() && Headless(tokens, curr)
      modifies this`curr, this`errors
      ensures Valid() && StmtStep(tokens, old(S()), S(), h, s)
    {
      hide CodeBuffer.Bytes, FrameUsed, NumbersFit, StmtStep, StmtDue;
      ghost var a := S();
      if StmtDue(tokens, a, h) { DueHead(tokens, a, h); }
      AddError();
      var _ := Consume();
      s := Return(None);
      StmtWrong(tokens, a, S(), h, s);
    }

    method Statement(ghost h: Stmt) returns (ghost s: Stmt)
      requires Valid()
      modifies this, buf, buf.data
      ensures Valid() && StmtStep(tokens, old(S()), S(), h, s)
      decreases Left(), 41
    {
      hide CodeBuffer.Bytes, FrameUsed, NumbersFit, StmtStep;
      var next := KindAt(tokens, curr + 1);
      match Peek()
      case TType(_) => s := DeclStatement(h);
      case TStar => if next.TIdent? { s := ThroughStatement(h); } else { s := NoStatement(h); }
      case TIdent(_) =>
        if next == TLBracket { s := ElementStatement(h); }
        else if IsAssignTok(next) { s := AssignStatement(AssignOpOf(next), h); }
        else if IsBumpTok(next) { s := PostBumpStatement(h); }
        else { s := SkipName(h); }
      case TPlusPlus => s := PreBumpStatement(h);
      case TMinusMinus => s := PreBumpStatement(h);
      case TReturn => s := ReturnStatement(h);
      case TWhile => s := WhileStatement(h);
      case TDo => s := DoStatement(h);
      case TFor => s := ForStatement(h);
      case TIf => s := IfStatement(h);
      case TElse => s := StrayElse(h);
      case TNumber(_) => if next == TAssign { s := LiteralStatement(h); } else { s := NoStatement(h); }
      case _ => s := NoStatement(h);
    }

    // ----- the whole program -----

    /** The code emitted so far. */
    method Code() returns (code: seq<byte>)
      requires Valid()
      ensures code == buf.Bytes()
    {
      code := buf.data[..buf.size];
    }

    /**
     * Prologue with a blank frame size, the statements, return 0, and the frame size in its place. Once a row has been
     * written behind the variable table, nothing is promised.
     */
    method ParseAndCompile(ghost h: Stmts) returns (ghost p: Stmts)
      requires Valid() && |tokens| <= 1024
      modifies this, buf, buf.data
      ensures Valid()
      ensures errors == 0 && !overrun ==> Compiled(tokens, p, Env(vars, inits), buf.Bytes())
      ensures ProgramDue(tokens, h) ==> errors == 0 && p == h && (overrun <==> |CheckStmts(h, NoVars).value.vars| > 64)
    {
      hide Appends, CodeBuffer.Bytes, FrameUsed, NumbersFit, StmtsStep, Compiled, ProgramDue, Epilogue, FrameSize, FramePatched;
      Prologue();
      ghost var m := S();
      p := Statements(false, h);
      ghost var s := S();
      EmitAll([MovRaxImm(0)] + Epilogue);
      ghost var b := S();
      PatchFrame();
      ProgramStep(tokens, m, s, b, S(), h, p);
    }

    method Prologue()
      requires Valid()
      modifies this, buf, buf.data
      ensures Valid() && curr == 0 && S().env == NoVars && errors == 0
      ensures Appends([], S().bytes, [PushRbp, MovRbpRsp, SubRsp(0)])
    {
      hide Appends, CodeBuffer.Bytes, NumbersFit;
      curr, vars, inits, stackSize, errors, overrun := 0, [], {}, 0, 0, false;
      buf.Reset();
      EmitAll([PushRbp, MovRbpRsp, SubRsp(0)]);
    }

    /** The frame takes the variables, rounded up to 16 bytes, and is never empty. */
    method PatchFrame()
      requires Valid()
      modifies buf.data
      ensures Valid() && S() == old(S()).(bytes := S().bytes) && FramePatched(old(S()).bytes, S().bytes, FrameSize(vars))
    {
      hide I32;
      var frame := stackSize;
      if frame % 16 != 0 { frame := frame + (16 - frame % 16); }
      if frame == 0 { frame := 16; }
      buf.WriteI32(7, frame);
    }
  }
}
