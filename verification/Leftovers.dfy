/**
 * The missing pop, exactly: in each place where an operand waits on the stack, the emitted code is right precisely when
 * the operand evaluated meanwhile takes no short-circuit jump, or the word it leaves happens to do no harm.
 */
module Leftovers {
  import opened Words
  import opened Syntax
  import opened Meaning
  import opened Emitted
  import opened Faithful

  // ----- what a sound operand leaves -----

  /** e in state s gives the meant value and leaves its trail. */
  lemma TrailLeft(e: Expr, vs: Table, base: int, s: State)
    requires Sound(e, vs) && Eval(e, vs, base, s.mem).Val?
    ensures var x, us := Eval(e, vs, base, s.mem), Trail(e, vs, base, s.mem);
            EvalE(e, vs, base, s) == Gives(x.v, State(x.mem, s.stack + us)) && |us| == Skips(e, vs, base, s.mem) && Bits(us)
  {
    hide Eval, EvalE, Sound, Trail, Skips;
    var ws := ExprFaithful(e, vs, base, s);
    var x := Eval(e, vs, base, s.mem);
    forall i | 0 <= i < |ws| ensures ws[i] == 0 || ws[i] == 1 { assert Permitted(LeakOf(e), ws[i], x.v != 0); }
  }

  /** The trail has one word for each short-circuit jump. */
  predicate SkipsCounted(e: Expr, vs: Table, base: int, mem: Memory) {
    |Trail(e, vs, base, mem)| == Skips(e, vs, base, mem)
  }

  predicate Bits(us: seq<int>) {
    forall i :: 0 <= i < |us| ==> us[i] == 0 || us[i] == 1
  }

  /** The word b pushed before e and popped after it: what is popped is b only if e leaves nothing. */
  lemma WaitsUnder(e: Expr, vs: Table, base: int, s: State, b: int)
    requires Sound(e, vs) && Eval(e, vs, base, s.mem).Val?
    ensures var x, us := Eval(e, vs, base, s.mem), Trail(e, vs, base, s.mem);
            var eff := EvalE(e, vs, base, Pushed(s, b));
            eff.Gives? && eff.v == x.v && eff.s.mem == x.mem && TopOf(eff.s) == Taken(b, us) &&
            Popped(eff.s) == State(x.mem, s.stack + Kept(b, us)) &&
            |us| == Skips(e, vs, base, s.mem) && Bits(us)
  {
    hide Eval, EvalE, Sound, Trail, Skips, Popped, TopOf, Kept, Taken;
    var x, us := Eval(e, vs, base, s.mem), Trail(e, vs, base, s.mem);
    TrailLeft(e, vs, base, Pushed(s, b));
    PopLast(s.stack, [], b, us, x.mem);
    assert s.stack + [] + [b] == s.stack + [b] && s.stack + ([] + Kept(b, us)) == s.stack + Kept(b, us);
  }

  /** Every value is a word. */
  lemma {:induction false} ValueWord(e: Expr, vs: Table, base: int, mem: Memory)
    ensures Eval(e, vs, base, mem).Val? ==> IsWord(Eval(e, vs, base, mem).v)
    decreases e
  {
    hide WriteVar, TruncDiv, TruncMod, Wrap, ElementAddress, LoadExt, Find, InFrame, StepOf;
    match e
    case Cast(_, e1) => ValueWord(e1, vs, base, mem);
    case Paren(e1) => ValueWord(e1, vs, base, mem);
    case Bin(op, l, r) =>
      var x := Eval(l, vs, base, mem);
      if x.Val? {
        ValueWord(l, vs, base, mem);
        var y := Eval(r, vs, base, x.mem);
        if y.Val? && Binary(op, TypeOf(l, vs), TypeOf(r, vs), x.v, y.v).Some? {
          BinaryIsWord(op, TypeOf(l, vs), TypeOf(r, vs), x.v, y.v);
        }
      }
    case _ =>
  }

  lemma BinaryIsWord(op: BinOp, tl: Type, tr: Type, x: int, y: int)
    requires IsWord(x) && Binary(op, tl, tr, x, y).Some?
    ensures IsWord(Binary(op, tl, tr, x, y).value)
  {
    hide TruncDiv, TruncMod, Wrap;
    if op == Mod { TruncModOfWord(x, y); }
    if op == Sub && tl.isPtr && tr.isPtr { TruncDivSmall(Wrap(x - y), tl.base.Bytes()); }
  }

  // ----- strict operators -----

  lemma BinUnfolds(e: Expr, vs: Table, base: int, s: State)
    requires e.Bin? && EvalE(e.l, vs, base, s).Gives?
    requires EvalE(e.r, vs, base, Pushed(EvalE(e.l, vs, base, s).s, EvalE(e.l, vs, base, s).v)).Gives?
    ensures var x := EvalE(e.l, vs, base, s);
            var y := EvalE(e.r, vs, base, Pushed(x.s, x.v));
            EvalE(e, vs, base, s) == match EmittedBinary(e.op, TypeOf(e.l, vs), TypeOf(e.r, vs), TopOf(y.s), y.v)
                                     case None => Faults
                                     case Some(z) => Gives(z, Popped(y.s))
  {
    hide EmittedBinary, TopOf, Popped, TypeOf;
  }

  lemma BinMeans(e: Expr, vs: Table, base: int, mem: Memory)
    requires e.Bin? && Eval(e.l, vs, base, mem).Val? && Eval(e.r, vs, base, Eval(e.l, vs, base, mem).mem).Val?
    ensures var x := Eval(e.l, vs, base, mem);
            var y := Eval(e.r, vs, base, x.mem);
            Eval(e, vs, base, mem) == match Binary(e.op, TypeOf(e.l, vs), TypeOf(e.r, vs), x.v, y.v)
                                      case None => Trap
                                      case Some(z) => Val(z, y.mem)
  {
    hide Binary, TypeOf;
  }

  /** Both operands sound, x and y their values: the code computes with the word it pops in place of x. */
  lemma {:induction false} OperandExact(op: BinOp, l: Expr, r: Expr, vs: Table, base: int, s: State)
    requires Sound(l, vs) && Sound(r, vs) && !ScalesWrongSide(op, TypeOf(l, vs), TypeOf(r, vs))
    requires Eval(l, vs, base, s.mem).Val? && Eval(r, vs, base, Eval(l, vs, base, s.mem).mem).Val?
    ensures var x := Eval(l, vs, base, s.mem);
            var y, us := Eval(r, vs, base, x.mem), Trail(r, vs, base, x.mem);
            var tl, tr := TypeOf(l, vs), TypeOf(r, vs);
            AgreesValue(Eval(Bin(op, l, r), vs, base, s.mem), EvalE(Bin(op, l, r), vs, base, s))
            <==> us == [] || Binary(op, tl, tr, us[|us| - 1], y.v) == Binary(op, tl, tr, x.v, y.v)
  {
    hide Eval, EvalE, Binary, EmittedBinary, Popped, TopOf, Trail, Skips, Bits, Sound, TypeOf, Kept;
    var x := Eval(l, vs, base, s.mem);
    var y, us := Eval(r, vs, base, x.mem), Trail(r, vs, base, x.mem);
    TrailLeft(l, vs, base, s);
    var s1 := State(x.mem, s.stack + Trail(l, vs, base, s.mem));
    WaitsUnder(r, vs, base, s1, x.v);
    BinUnfolds(Bin(op, l, r), vs, base, s);
    BinMeans(Bin(op, l, r), vs, base, s.mem);
    BinarySame(op, TypeOf(l, vs), TypeOf(r, vs), Taken(x.v, us), y.v);
  }

  /** Right operands for which op does not look at its left operand. */
  predicate Indifferent(op: BinOp, y: int) {
    match op
    case Mul => y == 0
    case Div => y == 0
    case Mod => y == 0 || y == 1
    case Lt => y == -TWO_63
    case Ge => y == -TWO_63
    case Gt => y == TWO_63 - 1
    case Le => y == TWO_63 - 1
    case _ => false
  }

  /** A left operand for which op gives something else than for the leftover word w. */
  function Telling(op: BinOp, w: int, y: int): int {
    match op
    case Div => if y == 1 || y == -1 then 1 - w else y
    case Mod => if y == -1 then -TWO_63 else 1 - w
    case Lt => if w < y then y else -TWO_63
    case Ge => if w < y then y else -TWO_63
    case Gt => if w > y then y else TWO_63 - 1
    case Le => if w > y then y else TWO_63 - 1
    case Eq => if w == y then 1 - w else y
    case Ne => if w == y then 1 - w else y
    case _ => 1 - w
  }

  lemma TellingDiffers(op: BinOp, tr: Type, w: int, y: int)
    requires IsWord(y) && (w == 0 || w == 1) && !Indifferent(op, y) && (op == Add ==> !tr.isPtr)
    ensures var n := Telling(op, w, y); IsWord(n) && Binary(op, TInt, tr, n, y) != Binary(op, TInt, tr, w, y)
  {
    if op == Div || op == Mod {
      DividesApart(w, y);
    } else {
      hide TruncDiv, TruncMod;
    }
  }

  /** 0 and 1 divided by a word of at least two, and its division by itself. */
  lemma DividesApart(w: int, y: int)
    requires IsWord(y) && (w == 0 || w == 1) && y != 0
    ensures y != 1 && y != -1 ==> TruncDiv(w, y) == 0 && TruncDiv(y, y) == 1 && TruncMod(w, y) == w && TruncMod(1 - w, y) == 1 - w
    ensures y == 1 || y == -1 ==> TruncDiv(w, y) == w * y && TruncDiv(1 - w, y) == (1 - w) * y && TruncMod(w, y) == 0
  {
    var p := if y > 0 then y else -y;
    DivModUnique(p, p, 1, 0);
    if p > 1 {
      DivModUnique(w, p, 0, w);
      DivModUnique(1 - w, p, 0, 1 - w);
    }
  }

  lemma IndifferentSame(op: BinOp, tr: Type, n: int, w: int, y: int)
    requires IsWord(n) && IsWord(w) && Indifferent(op, y)
    ensures Binary(op, TInt, tr, n, y) == Binary(op, TInt, tr, w, y)
  {
    if op == Mod && y == 1 {
      TruncDivByOne(n);
      TruncDivByOne(w);
    }
  }

  /**
   * n op r is right for every n exactly when r takes no short-circuit jump, or op is indifferent to its left operand:
   * r is the literal 0 of a product, say.
   */
  lemma {:induction false} StrictOperandExact(op: BinOp, r: Expr, vs: Table, base: int, s: State)
    requires Sound(r, vs) && Eval(r, vs, base, s.mem).Val? && (op == Add ==> !TypeOf(r, vs).isPtr)
    ensures (forall n: int | IsWord(n) ::
              AgreesValue(Eval(Bin(op, Num(n), r), vs, base, s.mem), EvalE(Bin(op, Num(n), r), vs, base, s)))
            <==> Skips(r, vs, base, s.mem) == 0 || Indifferent(op, Eval(r, vs, base, s.mem).v)
  {
    hide Binary, Eval, EvalE, Sound, Trail, Skips, Indifferent, AgreesValue;
    var y, us, tr := Eval(r, vs, base, s.mem), Trail(r, vs, base, s.mem), TypeOf(r, vs);
    ValueWord(r, vs, base, s.mem);
    TrailLeft(r, vs, base, s);
    forall n: int | IsWord(n)
      ensures AgreesValue(Eval(Bin(op, Num(n), r), vs, base, s.mem), EvalE(Bin(op, Num(n), r), vs, base, s)) ==
              (us == [] || Binary(op, TInt, tr, us[|us| - 1], y.v) == Binary(op, TInt, tr, n, y.v))
    {
      Literal(n, vs, base, s.mem);
      OperandExact(op, Num(n), r, vs, base, s);
      if us != [] && Indifferent(op, y.v) { IndifferentSame(op, tr, n, us[|us| - 1], y.v); }
    }
    if us != [] {
      var w := us[|us| - 1];
      if Indifferent(op, y.v) {
        forall n: int | IsWord(n) ensures Binary(op, TInt, tr, w, y.v) == Binary(op, TInt, tr, n, y.v) { IndifferentSame(op, tr, n, w, y.v); }
      } else {
        TellingDiffers(op, tr, w, y.v);
        assert IsWord(Telling(op, w, y.v));
      }
    }
  }

  lemma Literal(n: int, vs: Table, base: int, mem: Memory)
    requires IsWord(n)
    ensures Eval(Num(n), vs, base, mem) == Val(n, mem) && Sound(Num(n), vs) && TypeOf(Num(n), vs) == TInt
  {
  }

  // ----- && and || -----

  lemma AndUnfolds(e: Expr, vs: Table, base: int, s: State)
    requires e.And? && EvalE(e.l, vs, base, s).Gives? && EvalE(e.l, vs, base, s).v != 0
    requires EvalE(e.r, vs, base, Pushed(EvalE(e.l, vs, base, s).s, 1)).Gives?
    ensures var y := EvalE(e.r, vs, base, Pushed(EvalE(e.l, vs, base, s).s, 1));
            EvalE(e, vs, base, s) == Gives(BitAnd(Truth(y.v != 0), TopOf(y.s)), Popped(y.s))
  {
    hide BitAnd, TopOf, Popped;
  }

  lemma AndMeans(e: Expr, vs: Table, base: int, mem: Memory)
    requires e.And? && Eval(e.l, vs, base, mem).Val? && Eval(e.l, vs, base, mem).v != 0
    requires Eval(e.r, vs, base, Eval(e.l, vs, base, mem).mem).Val?
    ensures var y := Eval(e.r, vs, base, Eval(e.l, vs, base, mem).mem); Eval(e, vs, base, mem) == Val(Truth(y.v != 0), y.mem)
  {
  }

  /** Undecided by its left operand, && combines the truth of r with the word it pops. */
  lemma AndRuns(l: Expr, r: Expr, vs: Table, base: int, s: State)
    requires Sound(l, vs) && Sound(r, vs) && Eval(l, vs, base, s.mem).Val? && Eval(l, vs, base, s.mem).v != 0
    requires Eval(r, vs, base, Eval(l, vs, base, s.mem).mem).Val?
    ensures var x := Eval(l, vs, base, s.mem);
            var y, us := Eval(r, vs, base, x.mem), Trail(r, vs, base, x.mem);
            var eff := EvalE(And(l, r), vs, base, s);
            Eval(And(l, r), vs, base, s.mem) == Val(Truth(y.v != 0), y.mem) && eff.Gives? &&
            eff.v == BitAnd(Truth(y.v != 0), Taken(1, us)) && eff.s.mem == y.mem && Bits(us) && SkipsCounted(r, vs, base, x.mem)
  {
    hide Eval, EvalE, BitAnd, Popped, TopOf, Trail, Skips, Sound, Taken, Kept, Bits;
    var x := Eval(l, vs, base, s.mem);
    TrailLeft(l, vs, base, s);
    var s1 := State(x.mem, s.stack + Trail(l, vs, base, s.mem));
    WaitsUnder(r, vs, base, s1, 1);
    AndUnfolds(And(l, r), vs, base, s);
    AndMeans(And(l, r), vs, base, s.mem);
  }

  /** l && r with l true: right exactly when r is false, takes no jump, or last took one with a true left operand. */
  lemma AndOperandExact(l: Expr, r: Expr, vs: Table, base: int, s: State)
    requires Sound(l, vs) && Sound(r, vs) && Eval(l, vs, base, s.mem).Val? && Eval(l, vs, base, s.mem).v != 0
    requires Eval(r, vs, base, Eval(l, vs, base, s.mem).mem).Val?
    ensures var x := Eval(l, vs, base, s.mem);
            var y, us := Eval(r, vs, base, x.mem), Trail(r, vs, base, x.mem);
            AgreesValue(Eval(And(l, r), vs, base, s.mem), EvalE(And(l, r), vs, base, s))
            <==> y.v == 0 || us == [] || us[|us| - 1] == 1
    ensures SkipsCounted(r, vs, base, Eval(l, vs, base, s.mem).mem)
  {
    hide BitAnd, Trail, Skips, Sound, Eval, EvalE;
    AndRuns(l, r, vs, base, s);
    var x := Eval(l, vs, base, s.mem);
    BitOpsOnBooleans(Truth(Eval(r, vs, base, x.mem).v != 0), Taken(1, Trail(r, vs, base, x.mem)), 0);
  }

  lemma OrUnfolds(e: Expr, vs: Table, base: int, s: State)
    requires e.Or? && EvalE(e.l, vs, base, s).Gives? && EvalE(e.l, vs, base, s).v == 0
    requires EvalE(e.r, vs, base, Pushed(EvalE(e.l, vs, base, s).s, 0)).Gives?
    ensures var y := EvalE(e.r, vs, base, Pushed(EvalE(e.l, vs, base, s).s, 0));
            EvalE(e, vs, base, s) == Gives(BitOr(Truth(y.v != 0), TopOf(y.s)), Popped(y.s))
  {
    hide BitOr, TopOf, Popped;
  }

  lemma OrMeans(e: Expr, vs: Table, base: int, mem: Memory)
    requires e.Or? && Eval(e.l, vs, base, mem).Val? && Eval(e.l, vs, base, mem).v == 0
    requires Eval(e.r, vs, base, Eval(e.l, vs, base, mem).mem).Val?
    ensures var y := Eval(e.r, vs, base, Eval(e.l, vs, base, mem).mem); Eval(e, vs, base, mem) == Val(Truth(y.v != 0), y.mem)
  {
  }

  /** Undecided by its left operand, || combines the truth of r with the word it pops. */
  lemma OrRuns(l: Expr, r: Expr, vs: Table, base: int, s: State)
    requires Sound(l, vs) && Sound(r, vs) && Eval(l, vs, base, s.mem).Val? && Eval(l, vs, base, s.mem).v == 0
    requires Eval(r, vs, base, Eval(l, vs, base, s.mem).mem).Val?
    ensures var x := Eval(l, vs, base, s.mem);
            var y, us := Eval(r, vs, base, x.mem), Trail(r, vs, base, x.mem);
            var eff := EvalE(Or(l, r), vs, base, s);
            Eval(Or(l, r), vs, base, s.mem) == Val(Truth(y.v != 0), y.mem) && eff.Gives? &&
            eff.v == BitOr(Truth(y.v != 0), Taken(0, us)) && eff.s.mem == y.mem && Bits(us) && SkipsCounted(r, vs, base, x.mem)
  {
    hide Eval, EvalE, BitOr, Popped, TopOf, Trail, Skips, Sound, Taken, Kept, Bits;
    var x := Eval(l, vs, base, s.mem);
    TrailLeft(l, vs, base, s);
    var s1 := State(x.mem, s.stack + Trail(l, vs, base, s.mem));
    WaitsUnder(r, vs, base, s1, 0);
    OrUnfolds(Or(l, r), vs, base, s);
    OrMeans(Or(l, r), vs, base, s.mem);
  }

  /** l || r with l false: right exactly when r is true, takes no jump, or last took one with a false left operand. */
  lemma OrOperandExact(l: Expr, r: Expr, vs: Table, base: int, s: State)
    requires Sound(l, vs) && Sound(r, vs) && Eval(l, vs, base, s.mem).Val? && Eval(l, vs, base, s.mem).v == 0
    requires Eval(r, vs, base, Eval(l, vs, base, s.mem).mem).Val?
    ensures var x := Eval(l, vs, base, s.mem);
            var y, us := Eval(r, vs, base, x.mem), Trail(r, vs, base, x.mem);
            AgreesValue(Eval(Or(l, r), vs, base, s.mem), EvalE(Or(l, r), vs, base, s))
            <==> y.v != 0 || us == [] || us[|us| - 1] == 0
    ensures SkipsCounted(r, vs, base, Eval(l, vs, base, s.mem).mem)
  {
    hide BitOr, Trail, Skips, Sound, Eval, EvalE;
    OrRuns(l, r, vs, base, s);
    var x := Eval(l, vs, base, s.mem);
    BitOpsOnBooleans(Truth(Eval(r, vs, base, x.mem).v != 0), Taken(0, Trail(r, vs, base, x.mem)), 0);
  }

  // ----- elements -----

  lemma WrapApart(a: int, b: int, k: int)
    requires IsWord(a) && IsWord(b)
    ensures Wrap(a + k) == Wrap(b + k) <==> a == b
  {
  }

  /** The address computed starts from the word popped in place of the one pushed. */
  lemma ElementLeft(v: VarInfo, i: Expr, vs: Table, base: int, s: State)
    requires Sound(i, vs) && Designated(s.mem, base, v).Val? && Eval(i, vs, base, s.mem).Val?
    ensures var a, k, us := Designated(s.mem, base, v).v, Eval(i, vs, base, s.mem), Trail(i, vs, base, s.mem);
            ElementAddress(v, i, vs, base, s.mem) == Val(Wrap(a + Scale(k.v, v.ty)), k.mem) &&
            ElementE(v, i, vs, base, s) == Gives(Wrap(Taken(a, us) + Scale(k.v, v.ty)), State(k.mem, s.stack + Kept(a, us))) &&
            SkipsCounted(i, vs, base, s.mem) && Bits(us)
  {
    hide Popped, TopOf, Trail, Skips, Sound, Scale, Wrap, Designated, Taken, Kept, Eval, EvalE;
    WaitsUnder(i, vs, base, s, Designated(s.mem, base, v).v);
  }

  /** x[i] addresses the meant element exactly when i takes no jump, or x stands for the very word i leaves last. */
  lemma IndexExact(v: VarInfo, i: Expr, vs: Table, base: int, s: State)
    requires Sound(i, vs) && Designated(s.mem, base, v).Val? && Eval(i, vs, base, s.mem).Val?
    ensures var a, us := Designated(s.mem, base, v).v, Trail(i, vs, base, s.mem);
            ElementE(v, i, vs, base, s).Gives? &&
            (ElementE(v, i, vs, base, s).v == ElementAddress(v, i, vs, base, s.mem).v <==> us == [] || us[|us| - 1] == a)
    ensures SkipsCounted(i, vs, base, s.mem) && Bits(Trail(i, vs, base, s.mem))
  {
    hide Trail, Skips, Sound, Scale, Wrap, Designated, Eval, ElementE, ElementAddress;
    var a, us, k := Designated(s.mem, base, v).v, Trail(i, vs, base, s.mem), Eval(i, vs, base, s.mem);
    DesignatedWord(s.mem, base, v);
    ElementLeft(v, i, vs, base, s);
    WrapApart(Taken(a, us), a, Scale(k.v, v.ty));
  }

  lemma DesignatedWord(mem: Memory, base: int, v: VarInfo)
    ensures Designated(mem, base, v).Val? ==> IsWord(Designated(mem, base, v).v)
  {
    hide Wrap, LoadExt;
  }

  /**
   * Reading x[i] for an array x, i in bounds, and a frame that does not reach down to addresses as small as the array
   * is long: right exactly when i takes no jump.
   */
  lemma IndexReadExact(x: string, i: Expr, vs: Table, base: int, s: State)
    requires Sound(i, vs) && Find(vs, x).Some? && Find(vs, x).value.IsArray() && Eval(i, vs, base, s.mem).Val?
    requires var v, k := Find(vs, x).value, Eval(i, vs, base, s.mem);
             0 <= k.v < v.elems && (forall a :: a in k.mem ==> a > v.elems * v.ty.base.Bytes()) &&
             InFrame(k.mem, ElementAddress(v, i, vs, base, s.mem).v, v.ty.base.Bytes())
    ensures AgreesValue(Eval(Index(x, i), vs, base, s.mem), EvalE(Index(x, i), vs, base, s)) <==> Skips(i, vs, base, s.mem) == 0
  {
    hide Trail, Skips, Sound, Wrap, Eval, EvalE, ElementE, ElementAddress, LoadExt, Kept;
    var v, k, us := Find(vs, x).value, Eval(i, vs, base, s.mem), Trail(i, vs, base, s.mem);
    var a, n := Designated(s.mem, base, v).v, v.ty.base.Bytes();
    ElementLeft(v, i, vs, base, s);
    IndexMeans(Index(x, i), vs, base, s);
    var right := Wrap(a + Scale(k.v, v.ty));
    assert right in k.mem;
    if us != [] {
      var w := us[|us| - 1];
      Products(k.v, v.elems, n);
      assert IsWord(k.v * n) && IsWord(w + k.v * n);
      assert Wrap(Taken(a, us) + Scale(k.v, v.ty)) == w + k.v * n;
      assert w + k.v * n !in k.mem;
    }
  }

  lemma Products(k: nat, elems: nat, n: nat)
    requires k < elems && n >= 1
    ensures 0 <= k * n <= elems * n - 1
  {
    assert elems * n == k * n + (elems - k) * n && (elems - k) * n >= 1;
  }

  lemma IndexMeans(e: Expr, vs: Table, base: int, s: State)
    requires e.Index? && Find(vs, e.x).Some?
    requires ElementAddress(Find(vs, e.x).value, e.i, vs, base, s.mem).Val? && ElementE(Find(vs, e.x).value, e.i, vs, base, s).Gives?
    ensures var v := Find(vs, e.x).value;
            var a, b := ElementAddress(v, e.i, vs, base, s.mem), ElementE(v, e.i, vs, base, s);
            Eval(e, vs, base, s.mem) == ReadAt(a.mem, a.v, v.ty.base.Width(), v.ty.base.Signed()) &&
            EvalE(e, vs, base, s) == Lift(ReadAt(b.s.mem, b.v, v.ty.base.Width(), v.ty.base.Signed()), b.s)
  {
  }

  /** x[i] = e, with x[i] in the frame and nothing of the frame at addresses 0 and 1: right exactly when e takes no jump. */
  lemma {:induction false} StoreExact(x: string, i: Expr, e: Expr, vs: Table, base: int, s: State)
    requires Sound(i, vs) && Sound(e, vs) && Find(vs, x).Some? && Skips(i, vs, base, s.mem) == 0
    requires var v := Find(vs, x).value;
             var a := ElementAddress(v, i, vs, base, s.mem);
             a.Val? && Eval(e, vs, base, a.mem).Val? &&
             var m := Eval(e, vs, base, a.mem).mem;
             InFrame(m, a.v, v.ty.base.Bytes()) && 0 !in m && 1 !in m
    ensures var a := ElementAddress(Find(vs, x).value, i, vs, base, s.mem);
            Agrees(StoreElement(vs, base, s.mem, x, i, e), StoreElementE(vs, base, s, x, i, e), |s.stack|)
            <==> Skips(e, vs, base, a.mem) == 0
  {
    hide Popped, TopOf, Trail, Skips, Sound, Wrap, Scale, Store, ReadVar, Eval, EvalE;
    var v := Find(vs, x).value;
    var a := ElementAddress(v, i, vs, base, s.mem);
    DesignatedKeeps(s.mem, base, v);
    ElementLeft(v, i, vs, base, s);
    var s1 := ElementE(v, i, vs, base, s).s;
    WaitsUnder(e, vs, base, s1, a.v);
    var us, m := Trail(e, vs, base, a.mem), Eval(e, vs, base, a.mem).mem;
    var t := Taken(a.v, us);
    assert us != [] ==> t == us[|us| - 1] && !InFrame(m, t, v.ty.base.Bytes());
    assert us == [] ==> t == a.v;
  }

  // ----- inputs that show it -----

  /** 0 && 1, and its negation. */
  const False := Paren(And(Num(0), Num(1)))

  const True := Not(Paren(And(Num(0), Num(1))))

  lemma FalseLeaves(vs: Table, base: int, mem: Memory)
    ensures Sound(False, vs) && Eval(False, vs, base, mem) == Val(0, mem) && Trail(False, vs, base, mem) == [0] && LeakOf(False).zeroF
    ensures Sound(True, vs) && Eval(True, vs, base, mem) == Val(1, mem) && Trail(True, vs, base, mem) == [0] && LeakOf(True).zeroT
  {
    var c := And(Num(0), Num(1));
    assert Sound(c.l, vs) && Sound(c.r, vs) && LeakOf(c.r) == NoLeak && LeakOf(c.l) == NoLeak;
    assert Eval(c.l, vs, base, mem) == Val(0, mem) && Trail(c.l, vs, base, mem) == [];
    assert Eval(c, vs, base, mem) == Val(0, mem) && Trail(c, vs, base, mem) == [0] && Sound(c, vs) && LeakOf(c).zeroF;
    assert True.e == False && False.e == c;
  }

  /** 1 + (0 && 1) and 1 && !(0 && 1) come out wrong. */
  lemma OperandsLost(vs: Table, base: int, s: State)
    ensures var e := Bin(Add, Num(1), False); !AgreesValue(Eval(e, vs, base, s.mem), EvalE(e, vs, base, s)) && !Sound(e, vs)
    ensures var e := And(Num(1), True); !AgreesValue(Eval(e, vs, base, s.mem), EvalE(e, vs, base, s)) && !Sound(e, vs)
  {
    hide Eval, EvalE, AgreesValue, Trail, Skips;
    FalseLeaves(vs, base, s.mem);
    Literal(1, vs, base, s.mem);
    OperandExact(Add, Num(1), False, vs, base, s);
    AndOperandExact(Num(1), True, vs, base, s);
    assert TypeOf(False, vs) == TInt && !Sound(Bin(Add, Num(1), False), vs) && !Sound(And(Num(1), True), vs);
  }

  /** 0 || !(1 || 0) comes out wrong. */
  lemma OrOperandLost(vs: Table, base: int, s: State)
    ensures var e := Or(Num(0), Not(Paren(Or(Num(1), Num(0)))));
            !AgreesValue(Eval(e, vs, base, s.mem), EvalE(e, vs, base, s)) && !Sound(e, vs)
  {
    var c := Or(Num(1), Num(0));
    var r := Not(Paren(c));
    OrLeaves(c, vs, base, s.mem);
    hide Eval, EvalE, AgreesValue, Trail, Skips;
    Literal(0, vs, base, s.mem);
    OrOperandExact(Num(0), r, vs, base, s);
    assert LeakOf(r).oneF && !Sound(Or(Num(0), r), vs);
  }

  lemma OrLeaves(c: Expr, vs: Table, base: int, mem: Memory)
    requires c == Or(Num(1), Num(0))
    ensures var r := Not(Paren(c)); Sound(r, vs) && Eval(r, vs, base, mem) == Val(0, mem) && Trail(r, vs, base, mem) == [1] && LeakOf(r).oneF
  {
    assert Sound(c.l, vs) && Sound(c.r, vs) && LeakOf(c.r) == NoLeak && LeakOf(c.l) == NoLeak;
    assert Eval(c.l, vs, base, mem) == Val(1, mem) && Trail(c.l, vs, base, mem) == [];
    assert Eval(c, vs, base, mem) == Val(1, mem) && Trail(c, vs, base, mem) == [1] && Sound(c, vs) && LeakOf(c).oneT;
    var p := Paren(c);
    assert Eval(p, vs, base, mem) == Val(1, mem) && LeakOf(p) == LeakOf(c);
  }
}
