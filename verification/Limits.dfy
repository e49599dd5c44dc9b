/** Where the emitted code departs from the meaning, and exactly when it does not. */
module Limits {
  import opened Words
  import opened Syntax
  import opened Meaning
  import opened Emitted
  import opened Faithful

  // ----- the operand stack is a frame: an expression's effect does not depend on what lies below -----

  ghost predicate Shifted(eff: Effect, eff0: Effect, stack: seq<int>) {
    match eff0
    case Gives(v, s) => eff == Gives(v, State(s.mem, stack + s.stack))
    case other => eff == other
  }

  lemma PopShift(m: Memory, stack: seq<int>, us: seq<int>)
    requires us != []
    ensures TopOf(State(m, stack + us)) == TopOf(State(m, us))
    ensures Popped(State(m, stack + us)) == State(m, stack + Popped(State(m, us)).stack) && Popped(State(m, us)).mem == m
  {
    assert (stack + us)[..|stack + us| - 1] == stack + us[..|us| - 1];
  }

  /** Running e over `stack` does what running it over the empty stack does, above `stack`. */
  lemma StackIndependent(e: Expr, vs: Table, base: int, mem: Memory, stack: seq<int>)
    ensures Shifted(EvalE(e, vs, base, State(mem, stack)), EvalE(e, vs, base, State(mem, [])), stack)
    decreases e, 1
  {
    hide ReadAt, Bumped, Designated, Wrap, CastTo, EmittedBinary, TopOf, Popped, ElementE;
    assert stack + [] == stack;
    match e
    case Index(x, i) => if Find(vs, x).Some? { ElementIndependent(Find(vs, x).value, i, vs, base, mem, stack); }
    case Cast(_, e1) => StackIndependent(e1, vs, base, mem, stack);
    case Not(e1) => StackIndependent(e1, vs, base, mem, stack);
    case Neg(e1) => StackIndependent(e1, vs, base, mem, stack);
    case Deref(e1) => StackIndependent(e1, vs, base, mem, stack);
    case Paren(e1) => StackIndependent(e1, vs, base, mem, stack);
    case Bin(_, _, _) => OperandIndependent(e, vs, base, mem, stack);
    case And(_, _) => OperandIndependent(e, vs, base, mem, stack);
    case Or(_, _) => OperandIndependent(e, vs, base, mem, stack);
    case _ =>
  }

  /** The right operand over the left operand's leavings and the pushed word b. */
  lemma RightIndependent(r: Expr, vs: Table, base: int, m: Memory, stack: seq<int>, ws: seq<int>, b: int)
    ensures var eff, eff0 := EvalE(r, vs, base, State(m, stack + ws + [b])), EvalE(r, vs, base, State(m, ws + [b]));
            Shifted(eff, eff0, stack) &&
            (eff0.Gives? ==> TopOf(eff.s) == TopOf(eff0.s) && Popped(eff.s) == State(Popped(eff0.s).mem, stack + Popped(eff0.s).stack))
    decreases r, 2
  {
    hide EvalE, TopOf, Popped;
    StackIndependent(r, vs, base, m, ws + [b]);
    StackIndependent(r, vs, base, m, stack + ws + [b]);
    var eff := EvalE(r, vs, base, State(m, []));
    if eff.Gives? {
      var us := ws + [b] + eff.s.stack;
      assert stack + ws + [b] + eff.s.stack == stack + us;
      PopShift(eff.s.mem, stack, us);
    }
  }

  lemma OperandIndependent(e: Expr, vs: Table, base: int, mem: Memory, stack: seq<int>)
    requires e.Bin? || e.And? || e.Or?
    ensures Shifted(EvalE(e, vs, base, State(mem, stack)), EvalE(e, vs, base, State(mem, [])), stack)
    decreases e, 0
  {
    hide EmittedBinary, TopOf, Popped, BitAnd, BitOr;
    StackIndependent(e.l, vs, base, mem, stack);
    var x := EvalE(e.l, vs, base, State(mem, []));
    if x.Gives? {
      var ws, b := x.s.stack, if e.Bin? then x.v else Truth(x.v != 0);
      assert Pushed(x.s, b) == State(x.s.mem, ws + [b]);
      assert EvalE(e.l, vs, base, State(mem, stack)).s == State(x.s.mem, stack + ws);
      assert stack + (ws + [b]) == stack + ws + [b];
      RightIndependent(e.r, vs, base, x.s.mem, stack, ws, b);
      assert Pushed(State(x.s.mem, stack + ws), b) == State(x.s.mem, stack + ws + [b]);
      assert x.s == State(x.s.mem, ws);
    }
  }

  lemma ElementIndependent(v: VarInfo, i: Expr, vs: Table, base: int, mem: Memory, stack: seq<int>)
    ensures Shifted(ElementE(v, i, vs, base, State(mem, stack)), ElementE(v, i, vs, base, State(mem, [])), stack)
    decreases i, 3
  {
    hide Designated, Wrap, Scale, TopOf, Popped, EvalE;
    var d := Designated(mem, base, v);
    assert stack + [] == stack && [] + [0] == [0];
    DesignatedKeeps(mem, base, v);
    if d.Val? {
      assert stack + [] + [d.v] == stack + [d.v] && [] + [d.v] == [d.v];
      RightIndependent(i, vs, base, mem, stack, [], d.v);
    }
  }

  // ----- unparenthesised chains are sound -----

  predicate LogicFree(e: Expr) {
    match e
    case Index(_, i) => LogicFree(i)
    case Cast(_, e1) => LogicFree(e1)
    case Not(e1) => LogicFree(e1)
    case Neg(e1) => LogicFree(e1)
    case Deref(e1) => LogicFree(e1)
    case Paren(e1) => LogicFree(e1)
    case Bin(_, l, r) => LogicFree(l) && LogicFree(r)
    case And(_, _) => false
    case Or(_, _) => false
    case _ => true
  }

  predicate AndChain(e: Expr) {
    LogicFree(e) || (e.And? && AndChain(e.l) && LogicFree(e.r))
  }

  predicate OrChain(e: Expr) {
    AndChain(e) || (e.Or? && OrChain(e.l) && AndChain(e.r))
  }

  /** No sum in e scales the wrong operand, and no ++ or -- moves a pointer by less than an element. */
  predicate PointersWell(e: Expr, vs: Table) {
    match e
    case Bump(x, _, _) => StepsWell(vs, x)
    case Index(_, i) => PointersWell(i, vs)
    case Cast(_, e1) => PointersWell(e1, vs)
    case Not(e1) => PointersWell(e1, vs)
    case Neg(e1) => PointersWell(e1, vs)
    case Deref(e1) => PointersWell(e1, vs)
    case Paren(e1) => PointersWell(e1, vs)
    case Bin(op, l, r) => PointersWell(l, vs) && PointersWell(r, vs) && !ScalesWrongSide(op, TypeOf(l, vs), TypeOf(r, vs))
    case And(l, r) => PointersWell(l, vs) && PointersWell(r, vs)
    case Or(l, r) => PointersWell(l, vs) && PointersWell(r, vs)
    case _ => true
  }

  lemma {:induction false} LogicFreeSound(e: Expr, vs: Table)
    requires LogicFree(e) && PointersWell(e, vs)
    ensures Sound(e, vs) && LeakOf(e) == NoLeak
  {
    match e
    case Index(_, i) => LogicFreeSound(i, vs);
    case Cast(_, e1) => LogicFreeSound(e1, vs);
    case Not(e1) => LogicFreeSound(e1, vs);
    case Neg(e1) => LogicFreeSound(e1, vs);
    case Deref(e1) => LogicFreeSound(e1, vs);
    case Paren(e1) => LogicFreeSound(e1, vs);
    case Bin(_, l, r) => LogicFreeSound(l, vs); LogicFreeSound(r, vs);
    case _ =>
  }

  lemma {:induction false} AndChainSound(e: Expr, vs: Table)
    requires AndChain(e) && PointersWell(e, vs)
    ensures Sound(e, vs) && (LeakOf(e) == NoLeak || LeakOf(e) == Leak(true, false, false, false))
  {
    if LogicFree(e) {
      LogicFreeSound(e, vs);
    } else {
      AndChainSound(e.l, vs);
      LogicFreeSound(e.r, vs);
    }
  }

  /** What C programmers write without parentheses, `||` chains of `&&` chains over logic-free operands, is always sound. */
  lemma {:induction false} ChainsSound(e: Expr, vs: Table)
    requires OrChain(e) && PointersWell(e, vs)
    ensures Sound(e, vs)
  {
    if AndChain(e) {
      AndChainSound(e, vs);
    } else {
      ChainsSound(e.l, vs);
      AndChainSound(e.r, vs);
    }
  }

  // ----- pointer sums and casts -----

  /** int + pointer is the meant sum for all operands exactly when the pointed-to type has one byte. */
  lemma ReversedSumExact(tl: Type, tr: Type)
    requires !tl.isPtr && tr.isPtr
    ensures (forall x, y | IsWord(x) && IsWord(y) :: EmittedSum(Add, tl, tr, x, y) == Sum(Add, tl, tr, x, y))
            <==> tr.base.Bytes() == 1
  {
    if tr.base.Bytes() == 1 {
      forall x, y | IsWord(x) && IsWord(y) ensures EmittedSum(Add, tl, tr, x, y) == Sum(Add, tl, tr, x, y) {
        BinarySame(Add, tl, tr, x, y);
      }
    } else {
      assert EmittedSum(Add, tl, tr, 1, 0) == 1 && Sum(Add, tl, tr, 1, 0) == tr.base.Bytes();
    }
  }

  /** ++ and -- on a pointer that can be read are as meant exactly when the pointed-to type has one byte. */
  lemma BumpExact(v: VarInfo, up: bool, post: bool, base: int, mem: Memory)
    requires v.ty.isPtr && ReadVar(mem, base, v).Val?
    ensures Bumped(mem, base, v, up, post) == BumpVar(mem, base, v, up, post) <==> v.ty.base.Bytes() == 1
  {
    hide Store, LoadExt, InFrame;
    if v.ty.base.Bytes() == 1 {
      BumpSame(mem, base, v, up, post);
    } else {
      var x, a, signed := ReadVar(mem, base, v).v, base - v.offset, v.ty.base.Signed();
      StoresApart(mem, a, signed, x + if up then 1 else -1, x + Stride(v, up));
      StillInFrame(mem, a, x + if up then 1 else -1);
      StillInFrame(mem, a, x + Stride(v, up));
    }
  }

  lemma StillInFrame(mem: Memory, a: int, v: int)
    requires InFrame(mem, a, 8)
    ensures InFrame(Store(mem, a, 8, v), a, 8)
  {
    hide Store;
    StoreKeys(mem, a, 8, v);
  }

  lemma StoresApart(mem: Memory, a: int, signed: bool, v: int, v': int)
    requires -9 < v - v' < 9 && v != v'
    ensures Store(mem, a, 8, v) != Store(mem, a, 8, v')
  {
    hide Store, LoadExt;
    LoadExtStore(mem, a, W64, signed, v);
    LoadExtStore(mem, a, W64, signed, v');
    Pow256Values();
  }

  /** p += y and p -= y are as meant for all y exactly when the pointed-to type has one byte. */
  lemma MoveExact(v: VarInfo, op: AssignOp, x: int)
    requires v.ty.isPtr && (op == AddTo || op == SubFrom) && IsWord(x)
    ensures (forall y | IsWord(y) :: Update(op, x, Moved(v, op, y)) == Update(op, x, y)) <==> v.ty.base.Bytes() == 1
  {
    if v.ty.base.Bytes() == 1 {
      forall y | IsWord(y) ensures Update(op, x, Moved(v, op, y)) == Update(op, x, y) { UpdateSame(v, op, x, y); }
    } else {
      assert IsWord(1) && Moved(v, op, 1) == v.ty.base.Bytes();
      assert Update(op, x, Moved(v, op, 1)) != Update(op, x, 1);
    }
  }

  /** Casts zero-extend: they are C's conversion exactly for unsigned or 64-bit types, or when the sign bit is clear. */
  lemma CastExact(b: BaseType, v: int)
    requires IsWord(v)
    ensures CastTo(Type(b, false), v) == Truncate(v, b.Width(), b.Signed())
            <==> !b.Signed() || b.Width() == W64 || 2 * (v % Pow256(b.Bytes())) < Pow256(b.Bytes())
  {
    Pow256Values();
    if b.Width() == W64 { TruncateWord(v, b.Signed()); }
  }

  // ----- what pointer arithmetic means -----

  /**
   * For pointers p and q to the same type of size bytes, holding the addresses a and b: q + n and n + q move by n
   * elements, q - p counts elements, and that count is a number: (q - p) + n adds n to it.
   */
  lemma PointerSums(vs: Table, base: int, mem: Memory, p: string, q: string, n: int, t: BaseType, a: int, b: int)
    requires Find(vs, p).Some? && Find(vs, q).Some? && IsWord(n)
    requires Find(vs, p).value.ty == Find(vs, q).value.ty == Type(t, true) && Find(vs, p).value.elems == Find(vs, q).value.elems == 0
    requires ReadVar(mem, base, Find(vs, p).value) == Val(a, mem) && ReadVar(mem, base, Find(vs, q).value) == Val(b, mem)
    ensures var size, move := t.Bytes(), n * t.Bytes();
            Eval(Bin(Add, Name(q), Num(n)), vs, base, mem) == Val(Wrap(b + move), mem) &&
            Eval(Bin(Add, Num(n), Name(q)), vs, base, mem) == Val(Wrap(b + move), mem) &&
            Eval(Bin(Sub, Name(q), Num(n)), vs, base, mem) == Val(Wrap(b - move), mem)
    ensures var count := TruncDiv(Wrap(b - a), t.Bytes());
            Eval(Bin(Sub, Name(q), Name(p)), vs, base, mem) == Val(count, mem) &&
            Eval(Bin(Add, Paren(Bin(Sub, Name(q), Name(p))), Num(n)), vs, base, mem) == Val(Wrap(count + n), mem)
    ensures TypeOf(Bin(Add, Name(q), Num(n)), vs) == TypeOf(Bin(Add, Num(n), Name(q)), vs) == TypeOf(Bin(Sub, Name(q), Num(n)), vs) == Type(t, true)
    ensures TypeOf(Bin(Sub, Name(q), Name(p)), vs) == TypeOf(Bin(Sub, Num(n), Name(q)), vs) == TypeOf(Bin(Add, Name(q), Name(p)), vs) == Type(BInt, false)
  {
    hide ReadVar, TruncDiv, Wrap;
    WrapSum(b, n * t.Bytes());
    WrapLess(b, n * t.Bytes());
    assert Wrap(n) == n by { WordWraps(n); }
    assert Designated(mem, base, Find(vs, p).value) == Val(a, mem) && Designated(mem, base, Find(vs, q).value) == Val(b, mem);
    assert Eval(Name(p), vs, base, mem) == Val(a, mem) && Eval(Name(q), vs, base, mem) == Val(b, mem);
    assert Eval(Num(n), vs, base, mem) == Val(n, mem);
    assert Eval(Paren(Bin(Sub, Name(q), Name(p))), vs, base, mem) == Eval(Bin(Sub, Name(q), Name(p)), vs, base, mem);
    assert Wrap(n * t.Bytes()) + b == b + Wrap(n * t.Bytes());
    assert TypeOf(Name(p), vs) == Type(t, true) && TypeOf(Name(q), vs) == Type(t, true) && TypeOf(Num(n), vs) == TInt;
    assert TypeOf(Bin(Sub, Name(q), Name(p)), vs) == TInt && TypeOf(Paren(Bin(Sub, Name(q), Name(p))), vs) == TInt;
  }

  lemma WordWraps(n: int)
    requires IsWord(n)
    ensures Wrap(n) == n
  {
  }

  lemma WrapLess(x: int, y: int)
    ensures Wrap(x - Wrap(y)) == Wrap(x - y)
  {
    var k := (y + TWO_63) / TWO_64;
    assert Wrap(y) == y - TWO_64 * k;
    assert (x - y + TWO_63 + TWO_64 * k) % TWO_64 == (x - y + TWO_63) % TWO_64;
  }

  // ----- inputs that show it -----

  /** 1 + p for an int pointer p of value 8, ++p for such a pointer's step, and (char)200 and (char)-1. */
  lemma PointersAndCastsLost()
    ensures EmittedSum(Add, TInt, Type(BInt, true), 1, 8) == 33 && Sum(Add, TInt, Type(BInt, true), 1, 8) == 12
    ensures StepOf(VarInfo("p", 8, Type(BInt, true), 0)) == 4
    ensures CastTo(Type(BChar, false), -1) == 255 && Truncate(-1, W8, true) == -1
  {
    Pow256Values();
  }
}
