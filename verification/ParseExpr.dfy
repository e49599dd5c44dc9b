/** Specification of expression parsing over snapshots of the parser state, and the step lemmas its methods use. */
module ParseExpr {
  import opened Words
  import opened Instructions
  import opened Machine
  import opened Syntax
  import opened CodeGen
  import opened Emitter
  import opened Backpatch
  import opened Grammar
  import opened Encodings

  datatype Snap = Snap(curr: nat, bytes: seq<byte>, env: Env, errors: nat)

  /** Progress of any parse: tokens are consumed, errors and code only grow, expressions declare nothing. */
  ghost predicate Moves(a: Snap, b: Snap) {
    a.curr < b.curr && a.errors <= b.errors && b.env.vars == a.env.vars && |a.bytes| <= |b.bytes|
  }

  /** From a to b the tokens of e were read, e passed the checks, and its code was appended. */
  ghost predicate ParsedAs(ts: seq<Token>, a: Snap, b: Snap, lv: nat, e: Expr, t: Type) {
    Level(e) >= lv && Shaped(e) && Words64(e) &&
    Sees(ts, a.curr, PrintExpr(e)) && b.curr == a.curr + |PrintExpr(e)| &&
    CheckExpr(e, a.env.vars, a.env.inits) == Some(b.env.inits) && t == TypeOf(e, a.env.vars) &&
    Appends(a.bytes, b.bytes, CompileExpr(e, a.env.vars))
  }

  /** Soundness: without errors the phrase read is an expression and its code was emitted. */
  ghost predicate Built(ts: seq<Token>, a: Snap, b: Snap, lv: nat, e: Expr, t: Type) {
    Moves(a, b) && (b.errors == 0 ==> ParsedAs(ts, a, b, lv, e, t))
  }

  /** The tokens ahead are those of h, h is correct, and the token after h does not continue it at level lv. */
  ghost predicate Expected(ts: seq<Token>, a: Snap, lv: nat, h: Expr) {
    a.errors == 0 && Level(h) >= lv && Ahead(ts, a, h) && ContinuesAt(KindAt(ts, a.curr + |PrintExpr(h)|)) < lv
  }

  ghost predicate Ahead(ts: seq<Token>, a: Snap, h: Expr) {
    Shaped(h) && Sees(ts, a.curr, PrintExpr(h)) && CheckExpr(h, a.env.vars, a.env.inits).Some?
  }

  /** Soundness and completeness of one parsing method: an expected h is what it finds, without errors. */
  ghost predicate ExprStep(ts: seq<Token>, a: Snap, b: Snap, lv: nat, h: Expr, e: Expr, t: Type) {
    Built(ts, a, b, lv, e, t) && (Expected(ts, a, lv, h) ==> b.errors == 0 && e == h)
  }

  /** Only code was emitted between a and b. */
  ghost predicate Emits(a: Snap, b: Snap, c: Code) {
    b == a.(bytes := b.bytes) && Appends(a.bytes, b.bytes, c)
  }

  lemma EmitsMore(a: Snap, b: Snap, d: Snap, c: Code, c': Code)
    requires Emits(a, b, c) && Emits(b, d, c')
    ensures Emits(a, d, c + c')
  {
    hide Appends;
    AppendsMore(a.bytes, b.bytes, d.bytes, c, c');
  }

  /** Reading one expected token. */
  ghost predicate Expects(ts: seq<Token>, a: Snap, b: Snap, k: Tok) {
    if KindAt(ts, a.curr) == k then b == a.(curr := a.curr + 1)
    else b == a.(errors := b.errors) && b.errors > 0 && b.errors >= a.errors
  }

  /** An error was reported where no correct expression stood. */
  lemma Failed(ts: seq<Token>, a: Snap, b: Snap, lv: nat, h: Expr, e: Expr, t: Type)
    requires Moves(a, b) && b.errors > 0 && !Expected(ts, a, lv, h)
    ensures ExprStep(ts, a, b, lv, h, e, t)
  {
  }

  // ----- primaries -----

  predicate PrimaryStart(k: Tok) {
    k.TNumber? || k.TIdent? || k in {TPlusPlus, TMinusMinus, TLParen, TNot, TStar, TAmp}
  }

  /** The first token of a primary, and the second where the first does not decide. */
  lemma PrimaryHead(ts: seq<Token>, a: Snap, h: Expr)
    requires Level(h) >= 6 && Ahead(ts, a, h)
    ensures var k, k2 := KindAt(ts, a.curr), KindAt(ts, a.curr + 1);
            match h
            case Num(v) => k == TNumber(v)
            case Name(x) => k == TIdent(x)
            case Index(x, _) => k == TIdent(x) && k2 == TLBracket
            case Bump(x, up, post) => if post then k == TIdent(x) && k2 == BumpTok(up) else k == BumpTok(up) && k2 == TIdent(x)
            case Cast(t, _) => k == TLParen && k2 == TType(t.base)
            case Not(_) => k == TNot
            case Neg(_) => k == TMinus
            case Deref(_) => k == TStar
            case AddrOf(x) => k == TAmp && k2 == TIdent(x)
            case Paren(e1) => k == TLParen && k2 == PrintExpr(e1)[0]
            case _ => false
  {
    hide CheckExpr, Shaped;
    var ks := PrintExpr(h);
    assert ts[a.curr].kind == ks[0];
    if |ks| > 1 { assert ts[a.curr + 1].kind == ks[1]; }
    if h.Cast? { assert PrintType(h.ty)[0] == TType(h.ty.base); }
  }

  /** The type a cast names at p, and whether a cast stands at p: ( type [*] ). */
  function TypeAt(ts: seq<Token>, p: nat): Type {
    Type(if KindAt(ts, p).TType? then KindAt(ts, p).b else BInt, KindAt(ts, p + 1) == TStar)
  }

  predicate CastAt(ts: seq<Token>, p: nat) {
    KindAt(ts, p) == TLParen && KindAt(ts, p + 1).TType? &&
    KindAt(ts, p + if TypeAt(ts, p + 1).isPtr then 3 else 2) == TRParen
  }

  /** No expression starts with a type name. */
  lemma {:induction false} StartsExpr(e: Expr)
    requires Shaped(e)
    ensures PrimaryStart(PrintExpr(e)[0]) || PrintExpr(e)[0] == TMinus
    ensures Level(e) == 7 ==> PrimaryStart(PrintExpr(e)[0])
  {
    if e.Bin? || e.And? || e.Or? {
      StartsExpr(e.l);
      assert PrintExpr(e)[0] == PrintExpr(e.l)[0];
    }
  }

  /** One or two tokens of lookahead decide which primary is expected. */
  predicate Decided(ts: seq<Token>, p: nat, h: Expr) {
    var k2 := KindAt(ts, p + 1);
    if CastAt(ts, p) then h.Cast? && h.ty == TypeAt(ts, p + 1)
    else match KindAt(ts, p)
      case TNot => h.Not?
      case TPlusPlus => h.Bump? && h.up && !h.post && k2 == TIdent(h.x)
      case TMinusMinus => h.Bump? && !h.up && !h.post && k2 == TIdent(h.x)
      case TNumber(v) => h == Num(v)
      case TIdent(x) =>
        if k2 == TLBracket then h.Index? && h.x == x
        else if k2 == TPlusPlus then h == Bump(x, true, true)
        else if k2 == TMinusMinus then h == Bump(x, false, true)
        else h == Name(x)
      case TStar => h.Deref?
      case TAmp => h.AddrOf? && k2 == TIdent(h.x)
      case TLParen => h.Paren?
      case _ => false
  }

  lemma PrimaryDecided(ts: seq<Token>, a: Snap, h: Expr)
    requires Expected(ts, a, 7, h)
    ensures Decided(ts, a.curr, h)
  {
    hide CheckExpr, Sees, PrintExpr, ContinuesAt;
    PrimaryHead(ts, a, h);
    match h {
      case Cast(t, e1) => CastTokens(ts, a.curr, t, e1);
      case Paren(e1) => ParenStarts(e1);
      case Name(x) => NameEnds(ts, a, x);
      case _ =>
    }
  }

  lemma ParenStarts(e: Expr)
    requires Shaped(e)
    ensures !PrintExpr(e)[0].TType?
  {
    StartsExpr(e);
  }

  /** After a name that is expected no token continues it. */
  lemma NameEnds(ts: seq<Token>, a: Snap, x: string)
    requires Expected(ts, a, 7, Name(x))
    ensures KindAt(ts, a.curr + 1) !in {TLBracket, TPlusPlus, TMinusMinus}
  {
    hide CheckExpr, Sees;
    assert |PrintExpr(Name(x))| == 1;
  }

  lemma CastTokens(ts: seq<Token>, p: nat, t: Type, e1: Expr)
    requires Sees(ts, p, PrintExpr(Cast(t, e1)))
    ensures CastAt(ts, p) && TypeAt(ts, p + 1) == t
  {
    var ks := PrintExpr(Cast(t, e1));
    assert ts[p + 0].kind == ks[0] && ts[p + 1].kind == ks[1] && ts[p + 2].kind == ks[2];
    if t.isPtr { assert ts[p + 3].kind == ks[3]; }
  }

  lemma CastPrefix(ts: seq<Token>, p: nat)
    requires CastAt(ts, p)
    ensures var t := TypeAt(ts, p + 1); Sees(ts, p, [TLParen] + PrintType(t) + [TRParen])
  {
    var t := TypeAt(ts, p + 1);
    var ks := [TLParen] + PrintType(t) + [TRParen];
    assert |ks| == if t.isPtr then 4 else 3;
    assert KindAt(ts, p + 1) == TType(t.base);
    forall k | 0 <= k < |ks| ensures p + k < |ts| && ts[p + k].kind == ks[k] {
      assert KindAt(ts, p + k) == ks[k];
    }
  }

  /** Single-token and two-token primaries that only emit code. */
  lemma SimpleStep(ts: seq<Token>, a: Snap, b: Snap, h: Expr, e: Expr, c: Code)
    requires e.Num? || e.Name? || e.AddrOf? || e.Bump?
    requires Sees(ts, a.curr, PrintExpr(e)) && Words64(e) && CompileExpr(e, a.env.vars) == c
    requires b.curr == a.curr + |PrintExpr(e)| && b.errors == a.errors && Appends(a.bytes, b.bytes, c)
    requires CheckExpr(e, a.env.vars, a.env.inits) == Some(b.env.inits) && b.env.vars == a.env.vars
    requires Expected(ts, a, 7, h) ==> h == e
    ensures ExprStep(ts, a, b, 7, h, e, TypeOf(e, a.env.vars))
  {
  }

  /** Casts, !, unary minus and dereference: a prefix, a primary, and some code after it. */
  lemma PrefixStep(ts: seq<Token>, a: Snap, s1: Snap, s2: Snap, b: Snap, lv: nat, h: Expr, h1: Expr,
                   e: Expr, e1: Expr, t1: Type, pre: seq<Tok>, tail: Code)
    requires (e.Cast? || e.Not? || e.Neg? || e.Deref?) && e.e == e1 && lv == Level(e)
    requires PrintExpr(e) == pre + PrintExpr(e1) && CompileExpr(e, a.env.vars) == CompileExpr(e1, a.env.vars) + tail
    requires |pre| > 0 && Sees(ts, a.curr, pre) && s1 == a.(curr := a.curr + |pre|)
    requires ExprStep(ts, s1, s2, 7, h1, e1, t1) && Emits(s2, b, tail)
    requires s2.errors == 0 && e.Deref? ==> t1.isPtr
    requires Expected(ts, a, lv, h) ==> Expected(ts, s1, 7, h1) && (e1 == h1 ==> e == h)
    ensures ExprStep(ts, a, b, lv, h, e, TypeOf(e, a.env.vars))
  {
    hide Appends, CompileExpr, Sees;
    Grows(s2.bytes, b.bytes, tail);
    if b.errors == 0 {
      SeesSplit(ts, a.curr, pre, PrintExpr(e1));
      AppendsMore(a.bytes, s2.bytes, b.bytes, CompileExpr(e1, a.env.vars), tail);
    }
  }

  /** What is expected after the prefix of a prefix operator. */
  lemma PrefixExpected(ts: seq<Token>, a: Snap, s1: Snap, lv: nat, h: Expr, pre: seq<Tok>)
    requires h.Cast? || h.Not? || h.Neg? || h.Deref?
    requires Expected(ts, a, lv, h) && PrintExpr(h) == pre + PrintExpr(h.e) && s1 == a.(curr := a.curr + |pre|)
    ensures Expected(ts, s1, 7, h.e)
  {
    hide Sees;
    SeesSplit(ts, a.curr, pre, PrintExpr(h.e));
  }

  /** ( e ): what is expected between the parentheses, and that they close. */
  lemma ParenExpected(ts: seq<Token>, a: Snap, s1: Snap, h: Expr)
    requires Expected(ts, a, 7, h) && h.Paren? && s1 == a.(curr := a.curr + 1)
    ensures Expected(ts, s1, 0, h.e) && KindAt(ts, s1.curr + |PrintExpr(h.e)|) == TRParen
  {
    hide Sees;
    assert PrintExpr(h) == [TLParen] + (PrintExpr(h.e) + [TRParen]);
    SeesSplit(ts, a.curr, [TLParen], PrintExpr(h.e) + [TRParen]);
    SeesSplit(ts, s1.curr, PrintExpr(h.e), [TRParen]);
    OneToken(ts, s1.curr + |PrintExpr(h.e)|, TRParen);
  }

  lemma ParenStep(ts: seq<Token>, a: Snap, s1: Snap, s2: Snap, b: Snap, h: Expr, h1: Expr, e1: Expr, t1: Type)
    requires KindAt(ts, a.curr) == TLParen && s1 == a.(curr := a.curr + 1)
    requires ExprStep(ts, s1, s2, 0, h1, e1, t1) && Expects(ts, s2, b, TRParen)
    requires Expected(ts, a, 7, h) ==> h.Paren? && h1 == h.e
    ensures ExprStep(ts, a, b, 7, h, Paren(e1), t1)
  {
    hide Built, Expected;
    ParenBuilt(ts, a, s1, s2, b, e1, t1);
    if Expected(ts, a, 7, h) {
      ParenExpected(ts, a, s1, h);
      BuiltEnds(ts, s1, s2, 0, e1, t1);
    }
  }

  lemma BuiltEnds(ts: seq<Token>, a: Snap, b: Snap, lv: nat, e: Expr, t: Type)
    requires Built(ts, a, b, lv, e, t) && b.errors == 0
    ensures b.curr == a.curr + |PrintExpr(e)|
  {
  }

  lemma ParenBuilt(ts: seq<Token>, a: Snap, s1: Snap, s2: Snap, b: Snap, e1: Expr, t1: Type)
    requires KindAt(ts, a.curr) == TLParen && s1 == a.(curr := a.curr + 1)
    requires Built(ts, s1, s2, 0, e1, t1) && Expects(ts, s2, b, TRParen)
    ensures Built(ts, a, b, 7, Paren(e1), t1)
  {
    hide Appends, CompileExpr, Sees;
    assert PrintExpr(Paren(e1)) == [TLParen] + (PrintExpr(e1) + [TRParen]);
    SeesSplit(ts, a.curr, [TLParen], PrintExpr(e1) + [TRParen]);
    SeesSplit(ts, s1.curr, PrintExpr(e1), [TRParen]);
    OneToken(ts, a.curr, TLParen);
    OneToken(ts, s2.curr, TRParen);
    ParenCompiles(e1, a.env.vars);
  }

  lemma ParenCompiles(e1: Expr, vs: Table)
    ensures CompileExpr(Paren(e1), vs) == CompileExpr(e1, vs)
  {
  }

  lemma OneToken(ts: seq<Token>, p: nat, k: Tok)
    requires k != TEof
    ensures Sees(ts, p, [k]) <==> KindAt(ts, p) == k
  {
    if Sees(ts, p, [k]) { assert ts[p + 0].kind == [k][0]; }
  }

  lemma TwoTokens(ts: seq<Token>, p: nat, k: Tok, k2: Tok)
    requires k != TEof && k2 != TEof
    ensures Sees(ts, p, [k, k2]) <==> KindAt(ts, p) == k && KindAt(ts, p + 1) == k2
  {
    if KindAt(ts, p) == k && KindAt(ts, p + 1) == k2 {
      assert ts[p + 0].kind == [k, k2][0];
      assert ts[p + 1].kind == [k, k2][1];
    }
    if Sees(ts, p, [k, k2]) {
      assert ts[p + 0].kind == [k, k2][0];
      assert ts[p + 1].kind == [k, k2][1];
    }
  }

  /** x [ i ] : what is expected as the index, and that the bracket closes. */
  lemma IndexExpected(ts: seq<Token>, a: Snap, s1: Snap, h: Expr)
    requires Expected(ts, a, 7, h) && h.Index? && s1.curr == a.curr + 2 && s1.env == a.env && s1.errors == a.errors
    ensures Expected(ts, s1, 0, h.i) && KindAt(ts, s1.curr + |PrintExpr(h.i)|) == TRBracket
  {
    hide Sees;
    var head := [TIdent(h.x), TLBracket];
    assert PrintExpr(h) == head + (PrintExpr(h.i) + [TRBracket]);
    SeesSplit(ts, a.curr, head, PrintExpr(h.i) + [TRBracket]);
    SeesSplit(ts, s1.curr, PrintExpr(h.i), [TRBracket]);
    OneToken(ts, s1.curr + |PrintExpr(h.i)|, TRBracket);
  }

  /** The address code, the index, its scaling, the load. */
  lemma IndexStep(ts: seq<Token>, a: Snap, s1: Snap, s2: Snap, s3: Snap, b: Snap, h: Expr, h1: Expr,
                  v: VarInfo, e: Expr, ti: Type)
    requires e.Index? && Sees(ts, a.curr, [TIdent(e.x), TLBracket]) && Find(a.env.vars, e.x) == Some(v)
    requires (e.x in a.env.inits || v.IsArray()) && (v.ty.isPtr || v.IsArray())
    requires s1.curr == a.curr + 2 && s1.env == a.env && s1.errors == a.errors && Appends(a.bytes, s1.bytes, [DesignatedOf(v), PushRax])
    requires ExprStep(ts, s1, s2, 0, h1, e.i, ti) && Emits(s2, s3, IndexTail(v))
    requires b.env == s3.env && Appends(s3.bytes, b.bytes, [LoadThrough(v.ty.base)])
    requires if KindAt(ts, s3.curr) == TRBracket then b.curr == s3.curr + 1 && b.errors == s3.errors
             else b.curr == s3.curr && b.errors > 0 && b.errors >= s3.errors
    requires Expected(ts, a, 7, h) ==> h.Index? && h.x == e.x && h1 == h.i
    ensures ExprStep(ts, a, b, 7, h, e, Type(v.ty.base, false))
  {
    hide Appends, Sees, CompileExpr;
    if Expected(ts, a, 7, h) { IndexExpected(ts, a, s1, h); }
    assert Moves(a, b) by { Grows(a.bytes, s1.bytes, [DesignatedOf(v), PushRax]); Grows(s2.bytes, s3.bytes, IndexTail(v)); Grows(s3.bytes, b.bytes, [LoadThrough(v.ty.base)]); }
    if b.errors == 0 {
      IndexSees(ts, a, s2, e);
      IndexAppends(a.bytes, s1.bytes, s2.bytes, s3.bytes, b.bytes, v, e, a.env.vars);
      assert TypeOf(e, a.env.vars) == Type(v.ty.base, false) by { ElementType(e, v, a.env.vars); }
    }
  }

  lemma Grows(a: seq<byte>, b: seq<byte>, c: Code)
    requires Appends(a, b, c)
    ensures |a| <= |b|
  {
  }

  lemma ElementType(e: Expr, v: VarInfo, vs: Table)
    requires e.Index? && Find(vs, e.x) == Some(v)
    ensures TypeOf(e, vs) == Type(v.ty.base, false)
  {
  }

  lemma IndexSees(ts: seq<Token>, a: Snap, s2: Snap, e: Expr)
    requires e.Index? && Sees(ts, a.curr, [TIdent(e.x), TLBracket]) && Sees(ts, a.curr + 2, PrintExpr(e.i))
    requires s2.curr == a.curr + 2 + |PrintExpr(e.i)| && KindAt(ts, s2.curr) == TRBracket
    ensures Sees(ts, a.curr, PrintExpr(e)) && a.curr + |PrintExpr(e)| == s2.curr + 1
  {
    hide Sees;
    var head := [TIdent(e.x), TLBracket];
    assert PrintExpr(e) == head + (PrintExpr(e.i) + [TRBracket]);
    SeesSplit(ts, a.curr, head, PrintExpr(e.i) + [TRBracket]);
    SeesSplit(ts, a.curr + 2, PrintExpr(e.i), [TRBracket]);
    OneToken(ts, s2.curr, TRBracket);
  }

  lemma IndexAppends(a: seq<byte>, s1: seq<byte>, s2: seq<byte>, s3: seq<byte>, b: seq<byte>, v: VarInfo, e: Expr, vs: Table)
    requires e.Index? && Find(vs, e.x) == Some(v)
    requires Appends(a, s1, [DesignatedOf(v), PushRax]) && Appends(s1, s2, CompileExpr(e.i, vs))
    requires Appends(s2, s3, IndexTail(v)) && Appends(s3, b, [LoadThrough(v.ty.base)])
    ensures Appends(a, b, CompileExpr(e, vs))
  {
    hide Appends, IndexTail, DesignatedOf;
    var head, c := [DesignatedOf(v), PushRax], CompileExpr(e.i, vs);
    AppendsMore(a, s1, s2, head, c);
    AppendsMore(a, s2, s3, head + c, IndexTail(v));
    AppendsMore(a, s3, b, head + c + IndexTail(v), [LoadThrough(v.ty.base)]);
  }

  // ----- binary operators, level by level -----

  predicate IsNode(e: Expr, lv: nat) {
    (e.Bin? || e.And? || e.Or?) && Level(e) == lv
  }

  function NodeTok(e: Expr): Tok
    requires e.Bin? || e.And? || e.Or?
  {
    match e case Bin(op, _, _) => BinTok(op) case And(_, _) => TAnd case Or(_, _) => TOr
  }

  /** The level below which the left operand of an operator of level lv may not fall. */
  function LeftLevel(lv: nat): nat {
    if lv == 2 || lv == 3 then lv + 1 else lv
  }

  lemma NodeBuilt(ts: seq<Token>, a: Snap, m: Snap, s1: Snap, s2: Snap, b: Snap, lv: nat, e: Expr, tl: Type, tr: Type)
    requires IsNode(e, lv) && Built(ts, a, m, LeftLevel(lv), e.l, tl) && Built(ts, s1, s2, lv + 1, e.r, tr)
    requires KindAt(ts, m.curr) == NodeTok(e)
    requires b.errors == 0 ==> !(e.Bin? && (e.op == Div || e.op == Mod) && e.r == Num(0))
    requires s1.curr == m.curr + 1 && s1.env == m.env && s1.errors == m.errors && |m.bytes| <= |s1.bytes|
    requires b.curr == s2.curr && b.env == s2.env && b.errors == s2.errors && |s2.bytes| <= |b.bytes|
    requires b.errors == 0 ==> Appends(a.bytes, b.bytes, CompileExpr(e, a.env.vars))
    ensures Built(ts, a, b, lv, e, TypeOf(e, a.env.vars))
  {
    hide Appends, Sees, CompileExpr, PrintExpr, NodeTok;
    if b.errors == 0 { NodeSeen(ts, a.curr, e); }
  }

  lemma NodeSeen(ts: seq<Token>, k: nat, e: Expr)
    requires e.Bin? || e.And? || e.Or?
    requires var m := k + |PrintExpr(e.l)|; Sees(ts, k, PrintExpr(e.l)) && KindAt(ts, m) == NodeTok(e) && Sees(ts, m + 1, PrintExpr(e.r))
    ensures Sees(ts, k, PrintExpr(e)) && |PrintExpr(e)| == |PrintExpr(e.l)| + 1 + |PrintExpr(e.r)|
  {
    hide Sees, PrintExpr, NodeTok;
    var m := k + |PrintExpr(e.l)|;
    NodePrint(e);
    assert PrintExpr(e) == PrintExpr(e.l) + ([NodeTok(e)] + PrintExpr(e.r));
    SeesSplit(ts, k, PrintExpr(e.l), [NodeTok(e)] + PrintExpr(e.r));
    SeesSplit(ts, m, [NodeTok(e)], PrintExpr(e.r));
    OneToken(ts, m, NodeTok(e));
  }

  /** e is h or the left operand of ... the left operand of h, all at level lv. */
  predicate Spine(e: Expr, h: Expr, lv: nat) {
    e == h || (IsNode(h, lv) && Spine(e, h.l, lv))
  }

  function Leftmost(h: Expr, lv: nat): Expr {
    if IsNode(h, lv) then Leftmost(h.l, lv) else h
  }

  /** The node on the spine whose left operand is e. */
  function Parent(e: Expr, h: Expr, lv: nat): (n: Expr)
    requires Spine(e, h, lv) && e != h
    ensures IsNode(n, lv) && n.l == e && Spine(n, h, lv)
  {
    if h.l == e then h else Parent(e, h.l, lv)
  }

  /** The tokens ahead are those of h; the token after it may continue it at level lv but not above. */
  ghost predicate Weakly(ts: seq<Token>, a: Snap, lv: nat, h: Expr) {
    a.errors == 0 && Ahead(ts, a, h) && ContinuesAt(KindAt(ts, a.curr + |PrintExpr(h)|)) <= lv
  }

  lemma NodePrint(h: Expr)
    requires h.Bin? || h.And? || h.Or?
    ensures PrintExpr(h) == PrintExpr(h.l) + [NodeTok(h)] + PrintExpr(h.r)
    ensures ContinuesAt(NodeTok(h)) == Level(h)
  {
  }

  lemma LeftWeakly(ts: seq<Token>, a: Snap, lv: nat, h: Expr)
    requires Weakly(ts, a, lv, h) && IsNode(h, lv)
    ensures Weakly(ts, a, lv, h.l) && KindAt(ts, a.curr + |PrintExpr(h.l)|) == NodeTok(h)
  {
    hide Sees, PrintExpr;
    NodePrint(h);
    SeesSplit(ts, a.curr, PrintExpr(h.l) + [NodeTok(h)], PrintExpr(h.r));
    SeesSplit(ts, a.curr, PrintExpr(h.l), [NodeTok(h)]);
    OneToken(ts, a.curr + |PrintExpr(h.l)|, NodeTok(h));
  }

  lemma {:induction false} LeftmostExpected(ts: seq<Token>, a: Snap, lv: nat, h: Expr)
    requires Weakly(ts, a, lv, h) && Level(h) >= lv && lv <= 5
    ensures Expected(ts, a, lv + 1, Leftmost(h, lv)) && Spine(Leftmost(h, lv), h, lv)
  {
    if IsNode(h, lv) {
      LeftWeakly(ts, a, lv, h);
      LeftmostExpected(ts, a, lv, h.l);
    }
  }

  /** On a spine that is not finished, the next token is the parent's operator. */
  lemma {:induction false} ParentNext(ts: seq<Token>, a: Snap, lv: nat, h: Expr, e: Expr)
    requires Weakly(ts, a, lv, h) && Spine(e, h, lv) && e != h
    ensures var n := Parent(e, h, lv); Weakly(ts, a, lv, n) && KindAt(ts, a.curr + |PrintExpr(e)|) == NodeTok(n)
  {
    LeftWeakly(ts, a, lv, h);
    if h.l != e { ParentNext(ts, a, lv, h.l, e); }
  }

  /** ... and the right operand is expected after it. */
  lemma RightExpected(ts: seq<Token>, a: Snap, m: Snap, s1: Snap, lv: nat, n: Expr)
    requires Weakly(ts, a, lv, n) && IsNode(n, lv) && lv <= 5
    requires m.errors == 0 && m.curr == a.curr + |PrintExpr(n.l)| && m.env.vars == a.env.vars
    requires CheckExpr(n.l, a.env.vars, a.env.inits) == Some(m.env.inits)
    requires s1.curr == m.curr + 1 && s1.env == m.env && s1.errors == m.errors
    ensures Expected(ts, s1, lv + 1, n.r)
  {
    hide Sees;
    NodePrint(n);
    SeesSplit(ts, a.curr, PrintExpr(n.l) + [NodeTok(n)], PrintExpr(n.r));
  }

  /** Comparisons do not chain, so a spine of comparisons has one node. */
  lemma ComparisonAlone(h: Expr, n: Expr, lv: nat)
    requires Shaped(h) && (lv == 2 || lv == 3) && IsNode(n, lv) && Spine(n, h, lv)
    ensures n == h
  {
    if n != h { SpineLevel(n, h.l, lv); }
  }

  lemma SpineLevel(n: Expr, h: Expr, lv: nat)
    requires Spine(n, h, lv) && IsNode(n, lv)
    ensures Level(h) == lv
  {
  }

  /** Completeness half of a loop over operators of level lv: what is built so far lies on the spine of h. */
  ghost predicate OnSpine(ts: seq<Token>, a: Snap, b: Snap, lv: nat, h: Expr, e: Expr) {
    Expected(ts, a, lv, h) ==> b.errors == 0 && Spine(e, h, lv)
  }

  /** The hint for the first operand and for the operand after an operator. */
  ghost function RightHint(e: Expr, h: Expr, lv: nat): Expr {
    if Spine(e, h, lv) && e != h then Parent(e, h, lv).r else Num(0)
  }

  lemma SpineStarts(ts: seq<Token>, a: Snap, b: Snap, lv: nat, h: Expr, e: Expr, t: Type)
    requires lv <= 5 && ExprStep(ts, a, b, lv + 1, Leftmost(h, lv), e, t)
    ensures Built(ts, a, b, LeftLevel(lv), e, t) && OnSpine(ts, a, b, lv, h, e)
  {
    hide Sees, Appends, Spine, Leftmost;
    if Expected(ts, a, lv, h) { LeftmostExpected(ts, a, lv, h); }
  }

  /** At an operator of level lv, the right operand hint is expected. */
  lemma SpineRight(ts: seq<Token>, a: Snap, m: Snap, s1: Snap, lv: nat, h: Expr, e: Expr, t: Type, ll: nat)
    requires lv <= 5 && Built(ts, a, m, ll, e, t) && OnSpine(ts, a, m, lv, h, e)
    requires ContinuesAt(KindAt(ts, m.curr)) == lv
    requires s1.curr == m.curr + 1 && s1.env == m.env && s1.errors == m.errors
    ensures Expected(ts, a, lv, h) ==>
              e != h && Expected(ts, s1, lv + 1, RightHint(e, h, lv)) && NodeTok(Parent(e, h, lv)) == KindAt(ts, m.curr) &&
              CheckExpr(Parent(e, h, lv), a.env.vars, a.env.inits).Some?
  {
    hide Sees, Appends, PrintExpr, CheckExpr, CompileExpr, Words64, TypeOf, Shaped;
    if Expected(ts, a, lv, h) {
      ParentNext'(ts, a, lv, h, e);
      RightExpected(ts, a, m, s1, lv, Parent(e, h, lv));
    }
  }

  lemma ParentNext'(ts: seq<Token>, a: Snap, lv: nat, h: Expr, e: Expr)
    requires Expected(ts, a, lv, h) && Spine(e, h, lv) && e != h
    ensures var n := Parent(e, h, lv); Weakly(ts, a, lv, n) && KindAt(ts, a.curr + |PrintExpr(e)|) == NodeTok(n)
  {
    ParentNext(ts, a, lv, h, e);
  }

  /** After the right operand the larger expression lies on the spine. */
  lemma SpineGrows(ts: seq<Token>, a: Snap, m: Snap, s1: Snap, s2: Snap, b: Snap, lv: nat, h: Expr, e: Expr, n: Expr, tr: Type)
    requires lv <= 5 && OnSpine(ts, a, m, lv, h, e) && IsNode(n, lv) && n.l == e
    requires Expected(ts, a, lv, h) ==>
               e != h && Expected(ts, s1, lv + 1, RightHint(e, h, lv)) && NodeTok(Parent(e, h, lv)) == NodeTok(n)
    requires ExprStep(ts, s1, s2, lv + 1, RightHint(e, h, lv), n.r, tr) && b.errors == s2.errors
    ensures OnSpine(ts, a, b, lv, h, n)
  {
    hide Sees, Appends, Built, Ahead;
    if Expected(ts, a, lv, h) {
      var p := Parent(e, h, lv);
      assert n == p by { SameNode(n, p); }
    }
  }

  lemma SameNode(n: Expr, p: Expr)
    requires (n.Bin? || n.And? || n.Or?) && (p.Bin? || p.And? || p.Or?)
    requires NodeTok(n) == NodeTok(p) && n.l == p.l && n.r == p.r
    ensures n == p
  {
  }

  /** The loop ends when no operator of its level follows. */
  lemma SpineEnds(ts: seq<Token>, a: Snap, b: Snap, lv: nat, h: Expr, e: Expr, t: Type, ll: nat)
    requires ll >= lv && Built(ts, a, b, ll, e, t) && OnSpine(ts, a, b, lv, h, e)
    requires ContinuesAt(KindAt(ts, b.curr)) != lv || (IsNode(e, lv) && (lv == 2 || lv == 3))
    ensures ExprStep(ts, a, b, lv, h, e, t)
  {
    hide Sees, Appends, CompileExpr, PrintExpr, CheckExpr, Words64, TypeOf;
    if Expected(ts, a, lv, h) && e != h {
      ParentNext'(ts, a, lv, h, e);
      NodePrint(Parent(e, h, lv));
      if IsNode(e, lv) && (lv == 2 || lv == 3) { ComparisonAlone(h, e, lv); }
    }
  }

  // ----- code of binary operators -----

  lemma BinAppends(a: seq<byte>, m: seq<byte>, s1: seq<byte>, s2: seq<byte>, b: seq<byte>, e: Expr, vs: Table)
    requires e.Bin?
    requires Appends(a, m, CompileExpr(e.l, vs)) && Appends(m, s1, [PushRax]) && Appends(s1, s2, CompileExpr(e.r, vs))
    requires Appends(s2, b, [PopRcx] + OpCode(e.op, TypeOf(e.l, vs), TypeOf(e.r, vs)))
    ensures Appends(a, b, CompileExpr(e, vs))
  {
    hide Appends, OpCode;
    var l, r := CompileExpr(e.l, vs), CompileExpr(e.r, vs);
    AppendsMore(a, m, s1, l, [PushRax]);
    AppendsMore(a, s1, s2, l + [PushRax], r);
    AppendsMore(a, s2, b, l + [PushRax] + r, [PopRcx] + OpCode(e.op, TypeOf(e.l, vs), TypeOf(e.r, vs)));
  }

  lemma LogicAppends(a: seq<byte>, m: seq<byte>, s0: seq<byte>, s1: seq<byte>, s2: seq<byte>, s3: seq<byte>, b: seq<byte>, e: Expr, vs: Table)
    requires e.And? || e.Or?
    requires Appends(a, m, CompileExpr(e.l, vs)) && Appends(m, s0, Normalize + [PushRax, TestRaxRax])
    requires Appends(s0, s1, [if e.And? then Jz(0) else Jnz(0)]) && Appends(s1, s2, CompileExpr(e.r, vs))
    requires Appends(s2, s3, Normalize + [PopRcx, if e.And? then AndRaxRcx else OrRaxRcx]) && Patches(s0, s3, b, 2)
    ensures Appends(a, b, CompileExpr(e, vs))
  {
    hide Appends, Patches, Size, Normalize;
    var l, r := CompileExpr(e.l, vs), CompileExpr(e.r, vs);
    var test, bits := Normalize + [PushRax, TestRaxRax], [PopRcx, if e.And? then AndRaxRcx else OrRaxRcx];
    var tail := r + Normalize + bits;
    assert tail == r + (Normalize + bits);
    var blank, jump := if e.And? then Jz(0) else Jnz(0), if e.And? then Jz(Size(tail)) else Jnz(Size(tail));
    AppendsMore(s1, s2, s3, r, Normalize + bits);
    AppendsMore(s0, s1, s3, [blank], tail);
    PatchAppends(s0, s3, b, blank, jump, tail);
    AppendsMore(a, m, s0, l, test);
    AppendsMore(a, s0, b, l + test, [jump] + tail);
    assert l + test + ([jump] + tail) == l + test + [jump] + tail;
  }

  // ----- whole steps of the operator loops -----

  /** Without errors a built expression has been checked and typed. */
  lemma ExpectedChecks(ts: seq<Token>, a: Snap, lv: nat, h: Expr)
    requires Expected(ts, a, lv, h)
    ensures CheckExpr(h, a.env.vars, a.env.inits).Some? && a.errors == 0
  {
  }

  lemma BuiltMoves(ts: seq<Token>, a: Snap, b: Snap, lv: nat, e: Expr, t: Type)
    requires Built(ts, a, b, lv, e, t)
    ensures Moves(a, b)
  {
  }

  lemma StepBuilt(ts: seq<Token>, a: Snap, b: Snap, lv: nat, h: Expr, e: Expr, t: Type)
    requires ExprStep(ts, a, b, lv, h, e, t)
    ensures Built(ts, a, b, lv, e, t) && Moves(a, b)
  {
  }

  function SumOrInt(op: BinOp, tl: Type, tr: Type): Type {
    if op == Add || op == Sub then TypeOfSum(op, tl, tr) else TInt
  }

  /** One turn of a loop over * / %, + -, or one comparison: push, right operand, pop and operate. */
  lemma BinStep(ts: seq<Token>, a: Snap, m: Snap, s1: Snap, s2: Snap, b: Snap, lv: nat, h: Expr, e: Expr, r: Expr,
                tl: Type, tr: Type, op: BinOp)
    requires OpLevel(op) == lv && 2 <= lv <= 5 && KindAt(ts, m.curr) == BinTok(op)
    requires Built(ts, a, m, LeftLevel(lv), e, tl) && OnSpine(ts, a, m, lv, h, e)
    requires s1 == m.(curr := m.curr + 1, bytes := s1.bytes) && Appends(m.bytes, s1.bytes, [PushRax])
    requires ExprStep(ts, s1, s2, lv + 1, RightHint(e, h, lv), r, tr) && Emits(s2, b, [PopRcx] + OpCode(op, tl, tr))
    requires op == Div || op == Mod ==> KindAt(ts, s1.curr) != TNumber(0)
    ensures Built(ts, a, b, lv, Bin(op, e, r), SumOrInt(op, tl, tr)) && OnSpine(ts, a, b, lv, h, Bin(op, e, r))
  {
    hide OnSpine, Built, Appends, RightHint, Expected, OpCode, CompileExpr, Sees, PrintExpr, Words64, Shaped, Spine, CheckExpr, KindAt;
    var n := Bin(op, e, r);
    StepBuilt(ts, s1, s2, lv + 1, RightHint(e, h, lv), r, tr);
    Grows(m.bytes, s1.bytes, [PushRax]);
    Grows(s2.bytes, b.bytes, [PopRcx] + OpCode(op, tl, tr));
    if b.errors == 0 { BinReady(ts, a, m, s1, s2, b, lv, n, tl, tr); }
    NodeBuilt(ts, a, m, s1, b.(bytes := s2.bytes), b, lv, n, tl, tr);
    if b.errors > 0 { BuiltAnyType(ts, a, b, lv, n, TypeOf(n, a.env.vars), SumOrInt(op, tl, tr)); }
    assert ContinuesAt(BinTok(op)) == lv;
    SpineRight(ts, a, m, s1, lv, h, e, tl, LeftLevel(lv));
    SpineGrows(ts, a, m, s1, s2, b, lv, h, e, n, tr);
  }

  lemma BuiltAnyType(ts: seq<Token>, a: Snap, b: Snap, lv: nat, e: Expr, t: Type, t': Type)
    requires Built(ts, a, b, lv, e, t) && b.errors > 0
    ensures Built(ts, a, b, lv, e, t')
  {
  }

  /** The error-free case: types are the real ones, code is complete, the divisor is not a literal zero. */
  lemma BinReady(ts: seq<Token>, a: Snap, m: Snap, s1: Snap, s2: Snap, b: Snap, lv: nat, n: Expr, tl: Type, tr: Type)
    requires n.Bin? && b.errors == 0 && s2.errors == 0 && s1.errors == m.errors && s1.env == m.env
    requires Built(ts, a, m, LeftLevel(lv), n.l, tl) && Built(ts, s1, s2, lv + 1, n.r, tr)
    requires Appends(m.bytes, s1.bytes, [PushRax]) && Appends(s2.bytes, b.bytes, [PopRcx] + OpCode(n.op, tl, tr))
    requires n.op == Div || n.op == Mod ==> KindAt(ts, s1.curr) != TNumber(0)
    ensures Appends(a.bytes, b.bytes, CompileExpr(n, a.env.vars)) && SumOrInt(n.op, tl, tr) == TypeOf(n, a.env.vars)
    ensures !((n.op == Div || n.op == Mod) && n.r == Num(0))
  {
    hide Appends, OpCode, CompileExpr;
    assert m.errors == 0 && tl == TypeOf(n.l, a.env.vars) && tr == TypeOf(n.r, a.env.vars);
    BinAppends(a.bytes, m.bytes, s1.bytes, s2.bytes, b.bytes, n, a.env.vars);
    if n.r == Num(0) { OneToken(ts, s1.curr, TNumber(0)); }
  }

  /** A literal zero divisor is never expected. */
  lemma ZeroDivisorUnexpected(ts: seq<Token>, a: Snap, m: Snap, s1: Snap, h: Expr, e: Expr, t: Type)
    requires Built(ts, a, m, 5, e, t) && OnSpine(ts, a, m, 5, h, e)
    requires (KindAt(ts, m.curr) == TSlash || KindAt(ts, m.curr) == TPercent) && s1 == m.(curr := m.curr + 1)
    requires KindAt(ts, s1.curr) == TNumber(0)
    ensures !Expected(ts, a, 5, h)
  {
    hide Built, Sees, CompileExpr;
    if Expected(ts, a, 5, h) {
      SpineRight(ts, a, m, s1, 5, h, e, t, 5);
      PrimaryHead(ts, s1, RightHint(e, h, 5));
    }
  }

  /** One turn of the && or || loop, with the jump over the right operand patched. */
  lemma LogicStep(ts: seq<Token>, a: Snap, m: Snap, s0: Snap, s1: Snap, s2: Snap, s3: Snap, b: Snap, lv: nat, h: Expr, n: Expr,
                  tl: Type, tr: Type)
    requires (n.And? && lv == 1) || (n.Or? && lv == 0)
    requires KindAt(ts, m.curr) == NodeTok(n) && Built(ts, a, m, lv, n.l, tl) && OnSpine(ts, a, m, lv, h, n.l)
    requires s0 == m.(curr := m.curr + 1, bytes := s0.bytes) && Appends(m.bytes, s0.bytes, Normalize + [PushRax, TestRaxRax])
    requires Emits(s0, s1, [if n.And? then Jz(0) else Jnz(0)])
    requires ExprStep(ts, s1, s2, lv + 1, RightHint(n.l, h, lv), n.r, tr)
    requires Emits(s2, s3, Normalize + [PopRcx, if n.And? then AndRaxRcx else OrRaxRcx])
    requires b == s3.(bytes := b.bytes) && Patches(s0.bytes, s3.bytes, b.bytes, 2)
    ensures Built(ts, a, b, lv, n, TInt) && OnSpine(ts, a, b, lv, h, n)
  {
    hide OnSpine, Built, Appends, RightHint, Expected, Normalize, CompileExpr, Sees, PrintExpr, Words64, Shaped, Spine, CheckExpr;
    var h1 := RightHint(n.l, h, lv);
    StepBuilt(ts, s1, s2, lv + 1, h1, n.r, tr);
    Grows(m.bytes, s0.bytes, Normalize + [PushRax, TestRaxRax]);
    Grows(s0.bytes, s1.bytes, [if n.And? then Jz(0) else Jnz(0)]);
    Grows(s2.bytes, s3.bytes, Normalize + [PopRcx, if n.And? then AndRaxRcx else OrRaxRcx]);
    assert |b.bytes| == |s3.bytes|;
    if b.errors == 0 { LogicReady(ts, a, m, s0, s1, s2, s3, b, lv, n, tl, tr); }
    NodeBuilt(ts, a, m, s1, s2, b, lv, n, tl, tr);
    SpineRight(ts, a, m, s1, lv, h, n.l, tl, lv);
    SpineGrows(ts, a, m, s1, s2, b, lv, h, n.l, n, tr);
  }

  lemma LogicReady(ts: seq<Token>, a: Snap, m: Snap, s0: Snap, s1: Snap, s2: Snap, s3: Snap, b: Snap, lv: nat, n: Expr, tl: Type, tr: Type)
    requires (n.And? || n.Or?) && m.errors == 0 && s2.errors == 0 && s1.env == m.env
    requires Built(ts, a, m, lv, n.l, tl) && Built(ts, s1, s2, lv + 1, n.r, tr)
    requires Appends(m.bytes, s0.bytes, Normalize + [PushRax, TestRaxRax]) && Appends(s0.bytes, s1.bytes, [if n.And? then Jz(0) else Jnz(0)])
    requires Appends(s2.bytes, s3.bytes, Normalize + [PopRcx, if n.And? then AndRaxRcx else OrRaxRcx])
    requires Patches(s0.bytes, s3.bytes, b.bytes, 2)
    ensures Appends(a.bytes, b.bytes, CompileExpr(n, a.env.vars))
  {
    hide Appends, CompileExpr, Patches, Normalize;
    LogicAppends(a.bytes, m.bytes, s0.bytes, s1.bytes, s2.bytes, s3.bytes, b.bytes, n, a.env.vars);
  }

  // ----- steps of single productions -----

  /** When a primary that starts with these tokens cannot be expected. */
  predicate Hopeless(ts: seq<Token>, a: Snap) {
    var k, k2 := KindAt(ts, a.curr), KindAt(ts, a.curr + 1);
    if CastAt(ts, a.curr) then false
    else match k
      case TPlusPlus => !k2.TIdent? || !Scalar(a, k2.name)
      case TMinusMinus => !k2.TIdent? || !Scalar(a, k2.name)
      case TAmp => !k2.TIdent? || Find(a.env.vars, k2.name).None?
      case TIdent(x) =>
        (match Find(a.env.vars, x)
         case None => true
         case Some(v) => (x !in a.env.inits && !v.IsArray()) || (k2 == TLBracket && !v.ty.isPtr && !v.IsArray()))
      case _ => !PrimaryStart(k)
  }

  predicate Scalar(a: Snap, x: string) {
    match Find(a.env.vars, x) case None => false case Some(v) => !v.IsArray()
  }

  lemma HopelessStep(ts: seq<Token>, a: Snap, b: Snap, h: Expr, t: Type)
    requires Hopeless(ts, a) && Moves(a, b) && b.errors > 0
    ensures ExprStep(ts, a, b, 7, h, Num(0), t)
  {
    hide Built, Expected, Hopeless;
    HopelessUnexpected(ts, a, h);
    Failed(ts, a, b, 7, h, Num(0), t);
  }

  lemma HopelessUnexpected(ts: seq<Token>, a: Snap, h: Expr)
    requires Hopeless(ts, a)
    ensures !Expected(ts, a, 7, h)
  {
    hide Expected;
    if Expected(ts, a, 7, h) {
      PrimaryDecided(ts, a, h);
      ExpectedChecks(ts, a, 7, h);
    }
  }

  /** The tokens of a primary that is a number, an address, or ++ or -- on a name. */
  predicate SimpleAt(ts: seq<Token>, p: nat, e: Expr) {
    match e
    case Num(v) => KindAt(ts, p) == TNumber(v)
    case AddrOf(x) => KindAt(ts, p) == TAmp && KindAt(ts, p + 1) == TIdent(x)
    case Bump(x, up, post) =>
      if post then KindAt(ts, p) == TIdent(x) && KindAt(ts, p + 1) == BumpTok(up)
      else KindAt(ts, p) == BumpTok(up) && KindAt(ts, p + 1) == TIdent(x)
    case _ => false
  }

  /** They leave no choice. */
  lemma SimpleExpected(ts: seq<Token>, a: Snap, h: Expr, e: Expr)
    requires Expected(ts, a, 7, h) && SimpleAt(ts, a.curr, e)
    ensures h == e
  {
    hide Expected;
    PrimaryDecided(ts, a, h);
  }

  lemma SimpleSeen(ts: seq<Token>, p: nat, e: Expr)
    requires SimpleAt(ts, p, e)
    ensures Sees(ts, p, PrintExpr(e))
  {
    hide Sees;
    match e
    case Num(v) => OneToken(ts, p, TNumber(v));
    case AddrOf(x) => TwoTokens(ts, p, TAmp, TIdent(x));
    case Bump(x, up, post) => if post { TwoTokens(ts, p, TIdent(x), BumpTok(up)); } else { TwoTokens(ts, p, BumpTok(up), TIdent(x)); }
    case _ =>
  }

  lemma NumberStep(ts: seq<Token>, a: Snap, b: Snap, h: Expr)
    requires KindAt(ts, a.curr).TNumber? && IsWord(KindAt(ts, a.curr).v)
    requires Emits(a.(curr := a.curr + 1), b, [MovRaxImm(KindAt(ts, a.curr).v)])
    ensures ExprStep(ts, a, b, 7, h, Num(KindAt(ts, a.curr).v), TInt)
  {
    hide Appends, Expected, ExprStep, Sees;
    var e := Num(KindAt(ts, a.curr).v);
    if Expected(ts, a, 7, h) { SimpleExpected(ts, a, h, e); }
    SimpleSeen(ts, a.curr, e);
    SimpleStep(ts, a, b, h, Num(KindAt(ts, a.curr).v), [MovRaxImm(KindAt(ts, a.curr).v)]);
  }

  lemma AddressStep(ts: seq<Token>, a: Snap, b: Snap, h: Expr, x: string)
    requires KindAt(ts, a.curr) == TAmp && KindAt(ts, a.curr + 1) == TIdent(x) && Find(a.env.vars, x).Some?
    requires Emits(a.(curr := a.curr + 2), b, [LeaRax(-Find(a.env.vars, x).value.offset)])
    ensures ExprStep(ts, a, b, 7, h, AddrOf(x), Type(Find(a.env.vars, x).value.ty.base, true))
  {
    hide Appends, Expected, ExprStep, Sees;
    if Expected(ts, a, 7, h) { SimpleExpected(ts, a, h, AddrOf(x)); }
    SimpleSeen(ts, a.curr, AddrOf(x));
    SimpleStep(ts, a, b, h, AddrOf(x), [LeaRax(-Find(a.env.vars, x).value.offset)]);
  }

  /** ++x, --x, x++ and x--. */
  lemma BumpStep(ts: seq<Token>, a: Snap, b: Snap, h: Expr, x: string, up: bool, post: bool)
    requires if post then KindAt(ts, a.curr) == TIdent(x) && KindAt(ts, a.curr + 1) == BumpTok(up) && x in a.env.inits
             else KindAt(ts, a.curr) == BumpTok(up) && KindAt(ts, a.curr + 1) == TIdent(x)
    requires Scalar(a, x) && b.curr == a.curr + 2 && b.errors == a.errors && b.env == Initialised(a.env, x)
    requires Appends(a.bytes, b.bytes, BumpCode(Find(a.env.vars, x).value, up, post))
    ensures ExprStep(ts, a, b, 7, h, Bump(x, up, post), Find(a.env.vars, x).value.ty)
  {
    hide Appends, Expected, ExprStep, Sees, BumpCode, Find;
    if Expected(ts, a, 7, h) { SimpleExpected(ts, a, h, Bump(x, up, post)); }
    SimpleSeen(ts, a.curr, Bump(x, up, post));
    SimpleStep(ts, a, b, h, Bump(x, up, post), BumpCode(Find(a.env.vars, x).value, up, post));
  }

  lemma NameExpected(ts: seq<Token>, a: Snap, h: Expr, x: string)
    requires Expected(ts, a, 7, h) && KindAt(ts, a.curr) == TIdent(x) && KindAt(ts, a.curr + 1) != TLBracket
    requires Scalar(a, x) ==> KindAt(ts, a.curr + 1) != TPlusPlus && KindAt(ts, a.curr + 1) != TMinusMinus
    ensures h == Name(x)
  {
    hide Expected;
    PrimaryDecided(ts, a, h);
    ExpectedChecks(ts, a, 7, h);
  }

  /** A name that is neither indexed nor bumped. */
  lemma NameStep(ts: seq<Token>, a: Snap, b: Snap, h: Expr, x: string)
    requires KindAt(ts, a.curr) == TIdent(x) && Find(a.env.vars, x).Some?
    requires x in a.env.inits || Find(a.env.vars, x).value.IsArray()
    requires KindAt(ts, a.curr + 1) != TLBracket
    requires Scalar(a, x) ==> KindAt(ts, a.curr + 1) != TPlusPlus && KindAt(ts, a.curr + 1) != TMinusMinus
    requires Emits(a.(curr := a.curr + 1), b, [DesignatedOf(Find(a.env.vars, x).value)])
    ensures ExprStep(ts, a, b, 7, h, Name(x), TypeOfVar(Find(a.env.vars, x).value))
  {
    hide Appends, Expected, ExprStep, Sees, DesignatedOf, Find;
    if Expected(ts, a, 7, h) { NameExpected(ts, a, h, x); }
    OneToken(ts, a.curr, TIdent(x));
    SimpleStep(ts, a, b, h, Name(x), [DesignatedOf(Find(a.env.vars, x).value)]);
  }

  lemma ElementHint(ts: seq<Token>, a: Snap, h: Expr, x: string)
    requires Expected(ts, a, 7, h) && KindAt(ts, a.curr) == TIdent(x) && KindAt(ts, a.curr + 1) == TLBracket
    ensures h.Index? && h.x == x
  {
    PrimaryDecided(ts, a, h);
  }

  lemma CastStep(ts: seq<Token>, a: Snap, s1: Snap, s2: Snap, b: Snap, h: Expr, h1: Expr, e1: Expr, t1: Type)
    requires CastAt(ts, a.curr) && h1 == (if h.Cast? then h.e else h)
    requires var t := TypeAt(ts, a.curr + 1);
             s1 == a.(curr := a.curr + if t.isPtr then 4 else 3) && ExprStep(ts, s1, s2, 7, h1, e1, t1) && Emits(s2, b, CastCode(t))
    ensures ExprStep(ts, a, b, 7, h, Cast(TypeAt(ts, a.curr + 1), e1), TypeAt(ts, a.curr + 1))
  {
    hide ExprStep, Expected, Appends, CastCode, Sees;
    var t := TypeAt(ts, a.curr + 1);
    var pre := [TLParen] + PrintType(t) + [TRParen];
    CastPrefix(ts, a.curr);
    if Expected(ts, a, 7, h) {
      PrimaryDecided(ts, a, h);
      PrefixExpected(ts, a, s1, 7, h, pre);
    }
    PrefixStep(ts, a, s1, s2, b, 7, h, h1, Cast(t, e1), e1, t1, pre, CastCode(t));
  }

  lemma DerefStep(ts: seq<Token>, a: Snap, s1: Snap, s2: Snap, b: Snap, h: Expr, h1: Expr, e1: Expr, t1: Type)
    requires KindAt(ts, a.curr) == TStar && s1 == a.(curr := a.curr + 1)
    requires ExprStep(ts, s1, s2, 7, h1, e1, t1)
    requires Expected(ts, a, 7, h) ==> h.Deref? && h1 == h.e && Expected(ts, s1, 7, h1)
    requires if t1.isPtr then Emits(s2, b, [LoadThrough(t1.base)]) else b == s2.(errors := b.errors) && b.errors > 0 && b.errors >= s2.errors
    ensures ExprStep(ts, a, b, 7, h, Deref(e1), Type(t1.base, false))
    ensures !t1.isPtr ==> ExprStep(ts, a, b, 7, h, Deref(e1), TInt)
  {
    hide Appends, CompileExpr, Sees;
    if t1.isPtr && s2.errors == 0 {
      OneToken(ts, a.curr, TStar);
      PrefixStep(ts, a, s1, s2, b, 7, h, h1, Deref(e1), e1, t1, [TStar], [LoadThrough(t1.base)]) by { DerefCompiles(e1, a.env.vars); }
    } else if t1.isPtr {
      Grows(s2.bytes, b.bytes, [LoadThrough(t1.base)]);
    }
  }

  lemma DerefCompiles(e1: Expr, vs: Table)
    ensures CompileExpr(Deref(e1), vs) == CompileExpr(e1, vs) + [LoadThrough(TypeOf(e1, vs).base)]
  {
  }

  /** At the level of unary minus the first token decides. */
  lemma UnaryDecided(ts: seq<Token>, a: Snap, h: Expr)
    requires Expected(ts, a, 6, h)
    ensures h.Neg? <==> KindAt(ts, a.curr) == TMinus
  {
    hide CheckExpr, Sees;
    PrimaryHead(ts, a, h);
  }

  lemma UnaryStep(ts: seq<Token>, a: Snap, b: Snap, h: Expr, e: Expr, t: Type)
    requires ExprStep(ts, a, b, 7, h, e, t) && KindAt(ts, a.curr) != TMinus
    ensures ExprStep(ts, a, b, 6, h, e, t)
  {
    hide CheckExpr, Sees, Appends;
    if Expected(ts, a, 6, h) { UnaryDecided(ts, a, h); }
  }

  /** After an expected full expression there is no '='. */
  lemma AssignUnexpected(ts: seq<Token>, a: Snap, b: Snap, h: Expr, e: Expr, t: Type)
    requires Built(ts, a, b, 0, e, t) && OnSpine(ts, a, b, 0, h, e) && KindAt(ts, b.curr) == TAssign
    ensures !Expected(ts, a, 0, h)
  {
    hide Sees, Appends, CompileExpr, PrintExpr, CheckExpr;
    if Expected(ts, a, 0, h) && e != h {
      ParentNext'(ts, a, 0, h, e);
    }
  }
}
