/** The processor, fetching the compiled bytes, does what Emitted says, for every expression and statement. */
module Simulation {
  import opened Words
  import opened Instructions
  import opened Machine
  import opened Syntax
  import opened Meaning
  import opened Emitted
  import opened CodeGen

  /** outer is the memory at entry: bytes at and above `base` must survive. The frame is the `frame` bytes below base. */
  datatype Context = Context(code: seq<byte>, vs: Table, base: int, frame: int, outer: Memory)

  ghost predicate StackHolds(c: Context, mem: Memory, stack: seq<int>) {
    forall i :: 0 <= i < |stack| ==> LoadExt(mem, c.base - c.frame - 8 * (i + 1), W64, true) == stack[i]
  }

  ghost predicate FrameHolds(c: Context, mem: Memory, frame: Memory) {
    (forall a :: a in frame ==> c.base - c.frame <= a < c.base && Peek(mem, a) == frame[a]) &&
    (forall a :: a >= c.base ==> Peek(mem, a) == Peek(c.outer, a))
  }

  ghost predicate Rel(c: Context, m: Cpu, s: State) {
    c.frame >= 0 && m.rbp == c.base && m.rsp == c.base - c.frame - 8 * |s.stack| && IsWord(m.rax) &&
    StackHolds(c, m.mem, s.stack) && FrameHolds(c, m.mem, s.mem)
  }

  // ----- memory -----

  lemma PushHolds(c: Context, m: Cpu, s: State)
    requires Rel(c, m, s)
    ensures Rel(c, Push(m, m.rax), Pushed(s, m.rax))
  {
    hide Store, Load, Pow256;
    var a := m.rsp - 8;
    var mem' := Store(m.mem, a, 8, m.rax);
    LoadExtStore(m.mem, a, W64, true, m.rax);
    TruncateWord(m.rax, true);
    forall i | 0 <= i < |s.stack|
      ensures LoadExt(mem', c.base - c.frame - 8 * (i + 1), W64, true) == s.stack[i]
    {
      LoadStoreDisjoint(m.mem, a, 8, m.rax, c.base - c.frame - 8 * (i + 1), 8);
    }
    forall b | b > a + 7 ensures Peek(mem', b) == Peek(m.mem, b) { StoreElsewhere(m.mem, a, 8, m.rax, b); }
  }

  lemma PopHolds(c: Context, m: Cpu, s: State)
    requires Rel(c, m, s) && |s.stack| > 0
    ensures Top(m) == TopOf(s)
    ensures Rel(c, m.(rsp := m.rsp + 8), Popped(s))
  {
    hide Store, Load, Pow256;
  }

  lemma ReadHolds(c: Context, m: Cpu, s: State, a: int, w: Width, signed: bool)
    requires Rel(c, m, s) && ReadAt(s.mem, a, w, signed).Val?
    ensures LoadExt(m.mem, a, w, signed) == ReadAt(s.mem, a, w, signed).v
    ensures Load(m.mem, a, w.Bytes()) == Load(s.mem, a, w.Bytes())
  {
    hide Store, Load, Pow256;
    LoadSame(m.mem, s.mem, a, w.Bytes());
  }

  lemma WriteHolds(c: Context, m: Cpu, s: State, a: int, w: Width, v: int)
    requires Rel(c, m, s) && WriteAt(s.mem, a, w, v).Val?
    ensures Rel(c, m.(mem := Store(m.mem, a, w.Bytes(), v)), s.(mem := WriteAt(s.mem, a, w, v).mem))
  {
    hide Store, Load, Pow256;
    var n := w.Bytes();
    var mem', frame' := Store(m.mem, a, n, v), Store(s.mem, a, n, v);
    StoreKeys(s.mem, a, n, v);
    assert forall k :: a <= k < a + n ==> k in s.mem;
    forall b | b in frame' ensures Peek(mem', b) == frame'[b] {
      StoreSame(m.mem, s.mem, a, n, v, b);
    }
    assert c.base - c.frame <= a && a + n <= c.base by {
      assert a in s.mem && a + n - 1 in s.mem;
    }
    forall b | b >= c.base ensures Peek(mem', b) == Peek(c.outer, b) { StoreElsewhere(m.mem, a, n, v, b); }
    forall i | 0 <= i < |s.stack|
      ensures LoadExt(mem', c.base - c.frame - 8 * (i + 1), W64, true) == s.stack[i]
    {
      LoadStoreDisjoint(m.mem, a, n, v, c.base - c.frame - 8 * (i + 1), 8);
    }
  }

  // ----- straight-line fragments -----

  /** m' is m after a fragment of `size` bytes that only computes: the result is in rax, stack and memory are untouched. */
  predicate Computes(m: Cpu, m': Cpu, v: int, size: int) {
    OnlyRax(m, m', v) && m'.rip == m.rip + size
  }

  predicate OnlyRax(m: Cpu, m': Cpu, v: int) {
    m'.rax == v && m'.rsp == m.rsp && m'.rbp == m.rbp && m'.mem == m.mem
  }

  lemma NormalizeRuns(code: seq<byte>, m: Cpu)
    requires CodeAt(code, m.rip, Normalize)
    ensures Run(code, m, 3).Running? && Computes(m, Run(code, m, 3).cpu, Truth(m.rax != 0), Size(Normalize))
  {
    hide Run, CodeAt, Wrap, BitAnd, BitOr, LoadExt, Store, Load, Straight, Encode, Decode, Size;
    StraightRuns(code, m, Normalize);
    Straight3(TestRaxRax, SetAl(CNe), MovzxRaxAl, m);
  }

  lemma CompareRuns(code: seq<byte>, m: Cpu, c: Cond)
    requires CodeAt(code, m.rip, Compare(c))
    ensures Run(code, m, 3).Running?
    ensures Computes(m, Run(code, m, 3).cpu, Truth(Test(c, m.rcx, m.rax)), Size(Compare(c)))
  {
    hide Run, CodeAt, Wrap, BitAnd, BitOr, LoadExt, Store, Load, Straight, Encode, Decode, Size;
    StraightRuns(code, m, Compare(c));
    Straight3(CmpRcxRax, SetAl(c), MovzxRaxAl, m);
  }

  /** cqo; idiv rcx. */
  lemma DivideRuns(m: Cpu)
    requires IsWord(m.rax)
    ensures DivTraps(m.rax, m.rcx) ==> Straight(Divide, m).DivideFault?
    ensures !DivTraps(m.rax, m.rcx) ==>
              var o := Straight(Divide, m);
              o.Running? && OnlyRax(m, o.cpu, TruncDiv(m.rax, m.rcx)) && o.cpu.rdx == TruncMod(m.rax, m.rcx)
  {
    hide Wrap, LoadExt, Store, Load, BitAnd, BitOr, Straight, TruncDiv;
    SignExtendedDividend(m.rax);
    Straight2(Cqo, IdivRcx, m);
  }

  lemma RemainderRuns(m: Cpu)
    requires IsWord(m.rax)
    ensures DivTraps(m.rax, m.rcx) ==> Straight(Divide + [MovRaxRdx], m).DivideFault?
    ensures !DivTraps(m.rax, m.rcx) ==>
              var o := Straight(Divide + [MovRaxRdx], m);
              o.Running? && OnlyRax(m, o.cpu, TruncMod(m.rax, m.rcx))
  {
    hide Wrap, LoadExt, Store, Load, BitAnd, BitOr, Straight, TruncDiv, TruncMod;
    DivideRuns(m);
    StraightAppend(Divide, MovRaxRdx, m);
  }

  lemma QuotientRuns(code: seq<byte>, m: Cpu, op: BinOp, tl: Type, tr: Type)
    requires op == Div || op == Mod
    requires IsWord(m.rcx) && CodeAt(code, m.rip, OpCode(op, tl, tr))
    ensures OpDone(code, m, op, tl, tr)
  {
    hide Run, CodeAt, LoadExt, Store, Load, Straight, Size, TruncDiv, TruncMod, SumCode, EmittedSum;
    var m1 := m.(rax := m.rcx, rcx := m.rax);
    StraightRuns(code, m, OpCode(op, tl, tr));
    Straight1(XchgRaxRcx, m);
    if op == Div {
      StraightConcat([XchgRaxRcx], Divide, m);
      DivideRuns(m1);
    } else {
      StraightConcat([XchgRaxRcx], Divide + [MovRaxRdx], m);
      RemainderRuns(m1);
    }
  }

  ghost predicate OpDone(code: seq<byte>, m: Cpu, op: BinOp, tl: Type, tr: Type) {
    var o := Run(code, m, |OpCode(op, tl, tr)|);
    match EmittedBinary(op, tl, tr, m.rcx, m.rax)
    case None => o.DivideFault?
    case Some(z) => o.Running? && Computes(m, o.cpu, z, Size(OpCode(op, tl, tr)))
  }

  lemma PlainRuns(m: Cpu, op: BinOp)
    requires op == Add || op == Sub
    ensures Straight(PlainCode(op), m).Running?
    ensures OnlyRax(m, Straight(PlainCode(op), m).cpu, Plain(op, m.rcx, m.rax))
  {
    hide Straight, Encode, Wrap, LoadExt, Store, Load, Idiv, Branch, Push, BitAnd, BitOr;
    if op == Add { Straight1(AddRaxRcx, m); } else { Straight2(SubRcxRax, MovRaxRcx, m); }
  }

  lemma ScaleRuns(m: Cpu, t: Type)
    requires IsWord(m.rax)
    ensures Straight(ScaleRax(t), m).Running?
    ensures OnlyRax(m, Straight(ScaleRax(t), m).cpu, Scale(m.rax, t)) && Straight(ScaleRax(t), m).cpu.rcx == m.rcx
  {
    hide Wrap, LoadExt, Store, Load, BitAnd, BitOr, Straight;
    if t.base.Bytes() > 1 {
      Straight1(ImulRaxImm(t.base.Bytes()), m);
    } else {
      assert m.rax * 1 == m.rax;
      StraightNil(m);
    }
  }

  lemma OffsetRuns(code: seq<byte>, m: Cpu, op: BinOp, tl: Type, tr: Type)
    requires (op == Add || op == Sub) && tl.isPtr && !tr.isPtr
    requires IsWord(m.rax) && CodeAt(code, m.rip, SumCode(op, tl, tr))
    ensures OpDone(code, m, op, tl, tr)
  {
    hide Run, CodeAt, Straight, Size, Exec, ScaleRax, PlainCode, Scale, Plain;
    StraightConcat(ScaleRax(tl), PlainCode(op), m);
    ScaleRuns(m, tl);
    PlainRuns(Straight(ScaleRax(tl), m).cpu, op);
    SumHasNoJumps(op, tl, tr);
    StraightRuns(code, m, SumCode(op, tl, tr));
  }

  lemma SumHasNoJumps(op: BinOp, tl: Type, tr: Type)
    ensures forall i :: i in SumCode(op, tl, tr) ==> !IsJump(i)
  {
  }

  lemma ReversedOffsetRuns(code: seq<byte>, m: Cpu, tl: Type, tr: Type)
    requires !tl.isPtr && tr.isPtr
    requires IsWord(m.rax) && IsWord(m.rcx) && CodeAt(code, m.rip, SumCode(Add, tl, tr))
    ensures OpDone(code, m, Add, tl, tr)
  {
    hide Run, CodeAt, LoadExt, Store, Load, Straight, Encode, Decode, Size, TruncDiv, Wrap;
    var code1, n := SumCode(Add, tl, tr), tr.base.Bytes();
    StraightRuns(code, m, code1);
    if n == 1 {
      assert m.rax * 1 == m.rax && code1 == [XchgRaxRcx, AddRaxRcx];
      Straight2(XchgRaxRcx, AddRaxRcx, m);
    } else {
      assert code1 == [XchgRaxRcx, ImulRcxImm(n), AddRaxRcx];
      Straight3(XchgRaxRcx, ImulRcxImm(n), AddRaxRcx, m);
    }
  }

  lemma DifferenceRuns(code: seq<byte>, m: Cpu, tl: Type, tr: Type)
    requires tl.isPtr && tr.isPtr
    requires CodeAt(code, m.rip, SumCode(Sub, tl, tr))
    ensures OpDone(code, m, Sub, tl, tr)
  {
    hide Run, CodeAt, LoadExt, Store, Load, Straight, Size, TruncDiv, TruncMod, Wrap, PlainCode;
    var n, d := tl.base.Bytes(), Wrap(m.rcx - m.rax);
    SumHasNoJumps(Sub, tl, tr);
    StraightRuns(code, m, SumCode(Sub, tl, tr));
    PlainRuns(m, Sub);
    var m1 := Straight(PlainCode(Sub), m).cpu;
    if n == 1 {
      TruncDivByOne(d);
      assert PlainCode(Sub) + [] == PlainCode(Sub);
    } else {
      StraightConcat(PlainCode(Sub), [MovRcxImm(n)] + Divide, m);
      StraightConcat([MovRcxImm(n)], Divide, m1);
      Straight1(MovRcxImm(n), m1);
      DivideRuns(m1.(rcx := n));
      TruncDivSmall(d, n);
    }
  }

  lemma SumRuns(code: seq<byte>, m: Cpu, op: BinOp, tl: Type, tr: Type)
    requires op == Add || op == Sub
    requires IsWord(m.rax) && IsWord(m.rcx) && CodeAt(code, m.rip, SumCode(op, tl, tr))
    ensures OpDone(code, m, op, tl, tr)
  {
    hide Run, CodeAt, Straight, Size, Exec;
    if tl.isPtr && !tr.isPtr {
      OffsetRuns(code, m, op, tl, tr);
    } else if !tl.isPtr && tr.isPtr && op == Add {
      ReversedOffsetRuns(code, m, tl, tr);
    } else if tl.isPtr && tr.isPtr && op == Sub {
      DifferenceRuns(code, m, tl, tr);
    } else {
      StraightRuns(code, m, PlainCode(op));
      PlainRuns(m, op);
    }
  }

  /** Left operand in rcx, right operand in rax: the emitted operator code computes the emitted operator. */
  lemma OpRuns(code: seq<byte>, m: Cpu, op: BinOp, tl: Type, tr: Type)
    requires IsWord(m.rax) && IsWord(m.rcx) && CodeAt(code, m.rip, OpCode(op, tl, tr))
    ensures OpDone(code, m, op, tl, tr)
  {
    hide Run, CodeAt, BitAnd, BitOr, LoadExt, Store, Load, Straight, Encode, Decode, Size, TruncDiv, SumCode, EmittedSum, Wrap;
    match op
    case Mul => StraightRuns(code, m, [ImulRaxRcx]); Straight1(ImulRaxRcx, m);
    case Div => QuotientRuns(code, m, op, tl, tr);
    case Mod => QuotientRuns(code, m, op, tl, tr);
    case Lt => CompareRuns(code, m, CLt);
    case Gt => CompareRuns(code, m, CGt);
    case Le => CompareRuns(code, m, CLe);
    case Ge => CompareRuns(code, m, CGe);
    case Eq => CompareRuns(code, m, CEq);
    case Ne => CompareRuns(code, m, CNe);
    case Add => SumRuns(code, m, op, tl, tr);
    case Sub => SumRuns(code, m, op, tl, tr);
  }

  lemma CastRuns(code: seq<byte>, m: Cpu, t: Type)
    requires IsWord(m.rax) && CodeAt(code, m.rip, CastCode(t))
    ensures Run(code, m, |CastCode(t)|).Running?
    ensures Computes(m, Run(code, m, |CastCode(t)|).cpu, CastTo(t, m.rax), Size(CastCode(t)))
  {
    hide Run, CodeAt, BitAnd, BitOr, LoadExt, Store, Load, Straight, Encode, Decode, Size, Wrap;
    StraightRuns(code, m, CastCode(t));
    MaskByte(m.rax);
    if CastCode(t) == [] { StraightNil(m); } else { Straight1(CastCode(t)[0], m); }
  }

  // ----- expressions -----

  /** n steps from m realise the effect: the value in rax, the state related, control after `size` bytes; or the fault. */
  ghost predicate Realizes(c: Context, m: Cpu, eff: Effect, size: int, n: nat) {
    var o := Run(c.code, m, n);
    match eff
    case Gives(v, s) => o.Running? && Rel(c, o.cpu, s) && o.cpu.rax == v && o.cpu.rip == m.rip + size
    case Faults => o.DivideFault?
    case Strays => true
  }

  lemma Joined(c: Context, m: Cpu, n: nat, eff: Effect, size: int, k: nat)
    requires Run(c.code, m, n).Running?
    requires Realizes(c, Run(c.code, m, n).cpu, eff, size, k)
    ensures Realizes(c, m, eff, Run(c.code, m, n).cpu.rip - m.rip + size, n + k)
  {
    hide Run, Rel;
    RunFrom(c.code, m, n, Run(c.code, m, n).cpu, k);
  }

  lemma Split2(code: seq<byte>, p: int, a: Code, b: Code)
    requires CodeAt(code, p, a + b)
    ensures CodeAt(code, p, a) && CodeAt(code, p + Size(a), b) && Size(a + b) == Size(a) + Size(b)
  {
    hide CodeAt, Size;
    CodeAtConcat(code, p, a, b);
    SizeConcat(a, b);
  }

  lemma Split3(code: seq<byte>, p: int, a: Code, b: Code, c: Code)
    requires CodeAt(code, p, a + b + c)
    ensures CodeAt(code, p, a) && CodeAt(code, p + Size(a), b) && CodeAt(code, p + Size(a) + Size(b), c)
    ensures Size(a + b + c) == Size(a) + Size(b) + Size(c)
  {
    hide CodeAt, Size;
    Split2(code, p, a + b, c);
    Split2(code, p, a, b);
  }

  lemma Split4(code: seq<byte>, p: int, a: Code, b: Code, c: Code, d: Code)
    requires CodeAt(code, p, a + b + c + d)
    ensures CodeAt(code, p, a) && CodeAt(code, p + Size(a), b) && CodeAt(code, p + Size(a) + Size(b), c)
    ensures CodeAt(code, p + Size(a) + Size(b) + Size(c), d)
    ensures Size(a + b + c + d) == Size(a) + Size(b) + Size(c) + Size(d)
  {
    hide CodeAt, Size;
    Split2(code, p, a + b + c, d);
    Split3(code, p, a, b, c);
  }

  /** A single jump-free instruction. */
  lemma OneRuns(code: seq<byte>, m: Cpu, i: Instr)
    requires CodeAt(code, m.rip, [i]) && !IsJump(i)
    ensures Run(code, m, 1) == AtRip(Exec(i, m), m.rip + Size([i]))
    ensures Size([i]) == |Encode(i)|
  {
    hide Run, CodeAt, Exec, Encode, Straight;
    StraightRuns(code, m, [i]);
    Straight1(i, m);
    assert [i][1..] == [];
  }

  lemma PushRuns(c: Context, m: Cpu, s: State) returns (m': Cpu)
    requires Rel(c, m, s) && CodeAt(c.code, m.rip, [PushRax])
    ensures Run(c.code, m, 1) == Running(m') && Rel(c, m', Pushed(s, m.rax))
    ensures m'.rip == m.rip + Size([PushRax]) && m'.rax == m.rax
  {
    hide Run, CodeAt, Store, Load, Encode;
    OneRuns(c.code, m, PushRax);
    PushHolds(c, m, s);
    m' := Push(m, m.rax).(rip := m.rip + Size([PushRax]));
  }

  lemma PopRuns(c: Context, m: Cpu, s: State) returns (m': Cpu)
    requires Rel(c, m, s) && |s.stack| > 0 && CodeAt(c.code, m.rip, [PopRcx])
    ensures Run(c.code, m, 1) == Running(m') && Rel(c, m', Popped(s))
    ensures m'.rip == m.rip + Size([PopRcx]) && m'.rax == m.rax && m'.rcx == TopOf(s) && IsWord(m'.rcx)
  {
    hide Run, CodeAt, Store, Load, Encode;
    OneRuns(c.code, m, PopRcx);
    PopHolds(c, m, s);
    m' := m.(rsp := m.rsp + 8, rcx := Top(m), rip := m.rip + Size([PopRcx]));
  }

  /** A fragment that only computes keeps the relation. */
  lemma ComputedHolds(c: Context, m: Cpu, m': Cpu, s: State, v: int, size: int)
    requires Rel(c, m, s) && Computes(m, m', v, size) && IsWord(v)
    ensures Rel(c, m', s)
  {
  }

  lemma BinaryWord(op: BinOp, tl: Type, tr: Type, x: int, y: int)
    requires IsWord(x) && EmittedBinary(op, tl, tr, x, y).Some?
    ensures IsWord(EmittedBinary(op, tl, tr, x, y).value)
  {
    hide TruncDiv, TruncMod, Wrap;
    if op == Mod { TruncModOfWord(x, y); }
    if op == Sub && tl.isPtr && tr.isPtr { TruncDivSmall(Wrap(x - y), tl.base.Bytes()); }
  }

  /** pop rcx and the operator code. */
  lemma OperatorRuns(c: Context, m: Cpu, s: State, op: BinOp, tl: Type, tr: Type) returns (n: nat)
    requires Rel(c, m, s) && |s.stack| > 0 && CodeAt(c.code, m.rip, [PopRcx] + OpCode(op, tl, tr))
    ensures Realizes(c, m,
              match EmittedBinary(op, tl, tr, TopOf(s), m.rax) case None => Faults case Some(z) => Gives(z, Popped(s)),
              Size([PopRcx] + OpCode(op, tl, tr)), n)
  {
    hide Run, CodeAt, Size, OpCode, EmittedBinary, LoadExt;
    Split2(c.code, m.rip, [PopRcx], OpCode(op, tl, tr));
    var m1 := PopRuns(c, m, s);
    OpRuns(c.code, m1, op, tl, tr);
    var k := |OpCode(op, tl, tr)|;
    RunFrom(c.code, m, 1, m1, k);
    n := 1 + k;
    if EmittedBinary(op, tl, tr, TopOf(s), m.rax).Some? {
      BinaryWord(op, tl, tr, m1.rcx, m1.rax);
      ComputedHolds(c, m1, Run(c.code, m1, k).cpu, Popped(s), EmittedBinary(op, tl, tr, TopOf(s), m.rax).value, Size(OpCode(op, tl, tr)));
    }
  }

  // A single load or store of a variable, or through rax.

  lemma LoadVarRuns(c: Context, m: Cpu, s: State, v: VarInfo)
    requires Rel(c, m, s) && CodeAt(c.code, m.rip, [LoadOf(v)])
    ensures Realizes(c, m, Lift(ReadVar(s.mem, c.base, v), s), Size([LoadOf(v)]), 1)
  {
    hide Run, CodeAt, Load, Store, Size, Extend, Pow256;
    OneRuns(c.code, m, LoadOf(v));
    if ReadVar(s.mem, c.base, v).Val? {
      ReadHolds(c, m, s, c.base - v.offset, v.ty.Width(), v.ty.base.Signed());
      FormIrrelevant(m.mem, c.base - v.offset, v.ty.Width(), v.ty.base.Signed());
    }
  }

  /** A 64-bit load ignores signedness. */
  lemma FormIrrelevant(mem: Memory, a: int, w: Width, signed: bool)
    ensures LoadExt(mem, a, w, LoadForm(w, signed)) == LoadExt(mem, a, w, signed)
  {
    hide Load;
  }

  lemma DesignatedRuns(c: Context, m: Cpu, s: State, v: VarInfo)
    requires Rel(c, m, s) && CodeAt(c.code, m.rip, [DesignatedOf(v)])
    ensures Realizes(c, m, Lift(Designated(s.mem, c.base, v), s), Size([DesignatedOf(v)]), 1)
  {
    hide Run, CodeAt, Load, Store, Size, LoadExt, Wrap;
    if v.IsArray() { OneRuns(c.code, m, LeaRax(-v.offset)); } else { LoadVarRuns(c, m, s, v); }
  }

  lemma LoadThroughRuns(c: Context, m: Cpu, s: State, b: BaseType)
    requires Rel(c, m, s) && CodeAt(c.code, m.rip, [LoadThrough(b)])
    ensures Realizes(c, m, Lift(ReadAt(s.mem, m.rax, b.Width(), b.Signed()), s), Size([LoadThrough(b)]), 1)
  {
    hide Run, CodeAt, Load, Store, Size, Extend, Pow256;
    OneRuns(c.code, m, LoadThrough(b));
    if ReadAt(s.mem, m.rax, b.Width(), b.Signed()).Val? {
      ReadHolds(c, m, s, m.rax, b.Width(), b.Signed());
      FormIrrelevant(m.mem, m.rax, b.Width(), b.Signed());
    }
  }

  lemma StoreVarRuns(c: Context, m: Cpu, s: State, v: VarInfo)
    requires Rel(c, m, s) && CodeAt(c.code, m.rip, [StoreOf(v)])
    ensures Realizes(c, m, Lift(WriteVar(s.mem, c.base, v, m.rax), s), Size([StoreOf(v)]), 1)
  {
    hide Run, CodeAt, Load, Store, Size, LoadExt;
    OneRuns(c.code, m, StoreOf(v));
    if WriteVar(s.mem, c.base, v, m.rax).Val? {
      WriteHolds(c, m, s, c.base - v.offset, v.ty.Width(), m.rax);
    }
  }

  /** inc and dec on memory store the variable's value plus or minus one. */
  lemma BumpRuns(c: Context, m: Cpu, s: State, v: VarInfo, up: bool)
    requires Rel(c, m, s) && CodeAt(c.code, m.rip, [BumpOf(v, up)])
    requires ReadVar(s.mem, c.base, v).Val?
    ensures var old_ := ReadVar(s.mem, c.base, v).v;
            var w := WriteVar(s.mem, c.base, v, old_ + if up then 1 else -1);
            w.Val? && Realizes(c, m, Gives(m.rax, s.(mem := w.mem)), Size([BumpOf(v, up)]), 1)
  {
    hide Run, CodeAt, Load, Store, Size, Extend, Pow256;
    OneRuns(c.code, m, BumpOf(v, up));
    var a, w, d := c.base - v.offset, v.ty.Width(), if up then 1 else -1;
    ReadHolds(c, m, s, a, w, v.ty.base.Signed());
    WriteHolds(c, m, s, a, w, Load(m.mem, a, w.Bytes()) + d);
    StoreExtended(s.mem, a, w, v.ty.base.Signed(), Load(s.mem, a, w.Bytes()), d);
  }

  /** Only the low bytes of a value are stored, so adding to the extended or to the raw value is the same. */
  lemma StoreExtended(mem: Memory, a: int, w: Width, signed: bool, u: int, d: int)
    ensures Store(mem, a, w.Bytes(), Extend(u, w, signed) + d) == Store(mem, a, w.Bytes(), u + d)
  {
    hide Store;
    Pow256Values();
    var p := Pow256(w.Bytes());
    StoreLowBytes(mem, a, w.Bytes(), Extend(u, w, signed) + d, u + d);
  }

  lemma {:induction false} StoreLowBytes(mem: Memory, a: int, n: nat, v: int, v': int)
    requires (v - v') % Pow256(n) == 0
    ensures Store(mem, a, n, v) == Store(mem, a, n, v')
    decreases n
  {
    if n > 0 {
      var p := Pow256(n - 1);
      var k := (v - v') / (0x100 * p);
      assert v - v' == 0x100 * p * k;
      assert 0x100 * p * k == 0x100 * (p * k);
      assert v / 0x100 == v' / 0x100 + p * k && v % 0x100 == v' % 0x100;
      DivModUnique(p * k, p, k, 0);
      StoreLowBytes(mem[a := v % 0x100], a + 1, n - 1, v / 0x100, v' / 0x100);
    }
  }

  // Composite cases. In each, `e` is the expression of that form.

  lemma {:induction false} BinRuns(c: Context, m: Cpu, s: State, e: Expr) returns (n: nat)
    requires e.Bin? && Rel(c, m, s) && CodeAt(c.code, m.rip, CompileExpr(e, c.vs))
    ensures Realizes(c, m, EvalE(e, c.vs, c.base, s), Size(CompileExpr(e, c.vs)), n)
    decreases e, 0
  {
    hide Run, CodeAt, Size, Rel, OpCode, EmittedBinary;
    var Bin(op, l, r) := e;
    var tl, tr := TypeOf(l, c.vs), TypeOf(r, c.vs);
    var tail := [PopRcx] + OpCode(op, tl, tr);
    Split4(c.code, m.rip, CompileExpr(l, c.vs), [PushRax], CompileExpr(r, c.vs), tail);
    n := ExprRuns(c, m, s, l);
    if EvalE(l, c.vs, c.base, s).Gives? {
      var Gives(x, s1) := EvalE(l, c.vs, c.base, s);
      var m1 := Run(c.code, m, n).cpu;
      var m2 := PushRuns(c, m1, s1);
      RunFrom(c.code, m, n, m1, 1);
      var k := ExprRuns(c, m2, Pushed(s1, x), r);
      Joined(c, m, n + 1, EvalE(r, c.vs, c.base, Pushed(s1, x)), Size(CompileExpr(r, c.vs)), k);
      n := n + 1 + k;
      if EvalE(r, c.vs, c.base, Pushed(s1, x)).Gives? {
        var m3 := Run(c.code, m, n).cpu;
        var s2 := EvalE(r, c.vs, c.base, Pushed(s1, x)).s;
        var j := OperatorRuns(c, m3, s2, op, tl, tr);
        var eff := match EmittedBinary(op, tl, tr, TopOf(s2), m3.rax) case None => Faults case Some(z) => Gives(z, Popped(s2));
        Joined(c, m, n, eff, Size(tail), j);
        n := n + j;
      }
    }
  }

  /** The left operand's truth value, normalized, pushed and tested. */
  lemma TestedLeft(c: Context, m: Cpu, s: State) returns (m': Cpu)
    requires Rel(c, m, s) && CodeAt(c.code, m.rip, Normalize + [PushRax, TestRaxRax])
    ensures Run(c.code, m, 5) == Running(m') && Rel(c, m', Pushed(s, Truth(m.rax != 0)))
    ensures m'.rax == Truth(m.rax != 0) && m'.flags == Compared(m'.rax, 0)
    ensures m'.rip == m.rip + Size(Normalize + [PushRax, TestRaxRax])
  {
    hide Run, CodeAt, Size, Load, Store;
    Split2(c.code, m.rip, Normalize, [PushRax, TestRaxRax]);
    assert [PushRax, TestRaxRax] == [PushRax] + [TestRaxRax];
    Split2(c.code, m.rip + Size(Normalize), [PushRax], [TestRaxRax]);
    NormalizeRuns(c.code, m);
    var m1 := Run(c.code, m, 3).cpu;
    ComputedHolds(c, m, m1, s, m1.rax, Size(Normalize));
    var m2 := PushRuns(c, m1, s);
    RunFrom(c.code, m, 3, m1, 1);
    OneRuns(c.code, m2, TestRaxRax);
    RunFrom(c.code, m, 4, m2, 1);
    m' := m2.(flags := Compared(m2.rax, 0), rip := m2.rip + Size([TestRaxRax]));
  }

  /** The conditional jump after a test. */
  lemma JumpRuns(code: seq<byte>, m: Cpu, i: Instr)
    requires i.Jz? || i.Jnz?
    requires CodeAt(code, m.rip, [i]) && m.flags == Compared(m.rax, 0)
    ensures Run(code, m, 1).Running?
    ensures Run(code, m, 1).cpu ==
            m.(rip := m.rip + Size([i]) + if (m.rax == 0) == i.Jz? then i.rel else 0)
  {
    hide Decode, Encode, LoadExt, Store, Load;
    assert [i][1..] == [];
    assert Step(code, m) == Exec(i, m.(rip := m.rip + |Encode(i)|));
  }

  /** Normalized right operand, popped word, and the bitwise operator. */
  lemma BitTailRuns(c: Context, m: Cpu, s: State, conj: bool) returns (n: nat)
    requires Rel(c, m, s) && |s.stack| > 0
    requires CodeAt(c.code, m.rip, Normalize + [PopRcx, if conj then AndRaxRcx else OrRaxRcx])
    ensures var b := Truth(m.rax != 0);
            Realizes(c, m, Gives(if conj then BitAnd(b, TopOf(s)) else BitOr(b, TopOf(s)), Popped(s)),
              Size(Normalize + [PopRcx, if conj then AndRaxRcx else OrRaxRcx]), n)
  {
    hide Run, CodeAt, Size, Load, Store, LoadExt, AndBits, OrBits;
    var op := if conj then AndRaxRcx else OrRaxRcx;
    Split2(c.code, m.rip, Normalize, [PopRcx, op]);
    assert [PopRcx, op] == [PopRcx] + [op];
    Split2(c.code, m.rip + Size(Normalize), [PopRcx], [op]);
    NormalizeRuns(c.code, m);
    var m1 := Run(c.code, m, 3).cpu;
    ComputedHolds(c, m, m1, s, m1.rax, Size(Normalize));
    var m2 := PopRuns(c, m1, s);
    RunFrom(c.code, m, 3, m1, 1);
    OneRuns(c.code, m2, op);
    RunFrom(c.code, m, 4, m2, 1);
    n := 5;
  }

  lemma {:induction false} ShortCircuitRuns(c: Context, m: Cpu, s: State, e: Expr) returns (n: nat)
    requires (e.And? || e.Or?) && Rel(c, m, s) && CodeAt(c.code, m.rip, CompileExpr(e, c.vs))
    ensures Realizes(c, m, EvalE(e, c.vs, c.base, s), Size(CompileExpr(e, c.vs)), n)
    decreases e, 0
  {
    hide Run, CodeAt, Size, Rel, BitAnd, BitOr, TopOf, Popped;
    var right := CompileExpr(e.r, c.vs);
    var bits := [PopRcx, if e.And? then AndRaxRcx else OrRaxRcx];
    var tail := right + Normalize + bits;
    assert tail == right + (Normalize + bits);
    var jump := if e.And? then Jz(Size(tail)) else Jnz(Size(tail));
    Split4(c.code, m.rip, CompileExpr(e.l, c.vs), Normalize + [PushRax, TestRaxRax], [jump], tail);
    n := ExprRuns(c, m, s, e.l);
    if EvalE(e.l, c.vs, c.base, s).Gives? {
      var Gives(x, s1) := EvalE(e.l, c.vs, c.base, s);
      var m1 := Run(c.code, m, n).cpu;
      var m2 := TestedLeft(c, m1, s1);
      RunFrom(c.code, m, n, m1, 5);
      JumpRuns(c.code, m2, jump);
      RunFrom(c.code, m, n + 5, m2, 1);
      n := n + 6;
      var s2 := Pushed(s1, Truth(x != 0));
      var m3 := Run(c.code, m, n).cpu;
      RelIgnoresRip(c, m2, s2, m3.rip);
      if (x == 0) != e.And? {
        Split2(c.code, m3.rip, right, Normalize + bits);
        var k := ExprRuns(c, m3, s2, e.r);
        Joined(c, m, n, EvalE(e.r, c.vs, c.base, s2), Size(right), k);
        n := n + k;
        if EvalE(e.r, c.vs, c.base, s2).Gives? {
          var Gives(y, s3) := EvalE(e.r, c.vs, c.base, s2);
          var m4 := Run(c.code, m, n).cpu;
          var j := BitTailRuns(c, m4, s3, e.And?);
          var b := Truth(y != 0);
          Joined(c, m, n, Gives(if e.And? then BitAnd(b, TopOf(s3)) else BitOr(b, TopOf(s3)), Popped(s3)), Size(Normalize + bits), j);
          n := n + j;
        }
      }
    }
  }

  lemma RelIgnoresRip(c: Context, m: Cpu, s: State, rip: int)
    requires Rel(c, m, s)
    ensures Rel(c, m.(rip := rip), s)
  {
  }

  /** Scaled index in rax plus the word popped: the element's address. */
  lemma IndexTailRuns(c: Context, m: Cpu, s: State, v: VarInfo) returns (n: nat)
    requires Rel(c, m, s) && |s.stack| > 0 && CodeAt(c.code, m.rip, IndexTail(v))
    ensures Realizes(c, m, Gives(Wrap(TopOf(s) + Scale(m.rax, v.ty)), Popped(s)), Size(IndexTail(v)), n)
  {
    hide Run, CodeAt, Size, Load, Store, LoadExt, ScaleRax, Wrap, Straight, Encode;
    assert [PopRcx, AddRaxRcx] == [PopRcx] + [AddRaxRcx];
    assert IndexTail(v) == ScaleRax(v.ty) + [PopRcx] + [AddRaxRcx];
    Split3(c.code, m.rip, ScaleRax(v.ty), [PopRcx], [AddRaxRcx]);
    ScaleRuns(m, v.ty);
    ScaleHasNoJumps(v.ty);
    StraightRuns(c.code, m, ScaleRax(v.ty));
    n := |ScaleRax(v.ty)|;
    var m1 := Run(c.code, m, n).cpu;
    ComputedHolds(c, m, m1, s, m1.rax, Size(ScaleRax(v.ty)));
    var m2 := PopRuns(c, m1, s);
    RunFrom(c.code, m, n, m1, 1);
    OneRuns(c.code, m2, AddRaxRcx);
    RunFrom(c.code, m, n + 1, m2, 1);
    n := n + 2;
    assert m2.rax + m2.rcx == TopOf(s) + Scale(m.rax, v.ty);
  }

  lemma ScaleHasNoJumps(t: Type)
    ensures forall i :: i in ScaleRax(t) ==> !IsJump(i)
  {
  }

  /** x[i]: base address pushed, index evaluated, element address in rax. Shared by reads and writes of elements. */
  lemma ElementAddress(c: Context, m: Cpu, s: State, v: VarInfo, i: Expr) returns (n: nat)
    requires Rel(c, m, s) && CodeAt(c.code, m.rip, [DesignatedOf(v), PushRax] + CompileExpr(i, c.vs) + IndexTail(v))
    ensures Realizes(c, m, ElementE(v, i, c.vs, c.base, s), Size([DesignatedOf(v), PushRax] + CompileExpr(i, c.vs) + IndexTail(v)), n)
    decreases i, 2
  {
    hide Run, CodeAt, Size, Rel, IndexTail, Designated, DesignatedOf, Wrap, Scale, EvalE, CompileExpr, TopOf, Popped;
    assert [DesignatedOf(v), PushRax] == [DesignatedOf(v)] + [PushRax];
    Split4(c.code, m.rip, [DesignatedOf(v)], [PushRax], CompileExpr(i, c.vs), IndexTail(v));
    DesignatedRuns(c, m, s, v);
    n := 1;
    if Designated(s.mem, c.base, v).Val? {
      DesignatedKeepsMemory(s.mem, c.base, v);
      var a := Designated(s.mem, c.base, v).v;
      var m1 := Run(c.code, m, 1).cpu;
      var m2 := PushRuns(c, m1, s);
      RunFrom(c.code, m, 1, m1, 1);
      var k := ExprRuns(c, m2, Pushed(s, a), i);
      Joined(c, m, 2, EvalE(i, c.vs, c.base, Pushed(s, a)), Size(CompileExpr(i, c.vs)), k);
      n := 2 + k;
      if EvalE(i, c.vs, c.base, Pushed(s, a)).Gives? {
        var Gives(x, s1) := EvalE(i, c.vs, c.base, Pushed(s, a));
        var m3 := Run(c.code, m, n).cpu;
        var j := IndexTailRuns(c, m3, s1, v);
        Joined(c, m, n, Gives(Wrap(TopOf(s1) + Scale(x, v.ty)), Popped(s1)), Size(IndexTail(v)), j);
        n := n + j;
      }
    }
  }

  lemma DesignatedKeepsMemory(mem: Memory, base: int, v: VarInfo)
    requires Designated(mem, base, v).Val?
    ensures Designated(mem, base, v).mem == mem
  {
  }

  lemma {:induction false} IndexRuns(c: Context, m: Cpu, s: State, e: Expr) returns (n: nat)
    requires e.Index? && Rel(c, m, s) && CodeAt(c.code, m.rip, CompileExpr(e, c.vs))
    ensures Realizes(c, m, EvalE(e, c.vs, c.base, s), Size(CompileExpr(e, c.vs)), n)
    decreases e, 0
  {
    hide Run, CodeAt, Size, Rel, IndexTail, Designated, DesignatedOf, Wrap, Scale, ReadAt;
    n := 0;
    if Find(c.vs, e.x).Some? {
      var v := Find(c.vs, e.x).value;
      var address := [DesignatedOf(v), PushRax] + CompileExpr(e.i, c.vs) + IndexTail(v);
      Split2(c.code, m.rip, address, [LoadThrough(v.ty.base)]);
      n := ElementAddress(c, m, s, v, e.i);
      if ElementE(v, e.i, c.vs, c.base, s).Gives? {
        var Gives(p, s1) := ElementE(v, e.i, c.vs, c.base, s);
        var m1 := Run(c.code, m, n).cpu;
        LoadThroughRuns(c, m1, s1, v.ty.base);
        var b := v.ty.base;
        Joined(c, m, n, Lift(ReadAt(s1.mem, p, b.Width(), b.Signed()), s1), Size([LoadThrough(b)]), 1);
        n := n + 1;
      }
    }
  }

  lemma BumpExprRuns(c: Context, m: Cpu, s: State, v: VarInfo, up: bool, post: bool)
    requires Rel(c, m, s) && CodeAt(c.code, m.rip, BumpCode(v, up, post))
    ensures Realizes(c, m, Lift(Bumped(s.mem, c.base, v, up, post), s), Size(BumpCode(v, up, post)), 2)
  {
    hide Run, CodeAt, Size, Rel, ReadVar, WriteVar, LoadOf, BumpOf;
    var ld, inc := [LoadOf(v)], [BumpOf(v, up)];
    ReadKeepsMemory(s.mem, c.base, v);
    if post {
      assert BumpCode(v, up, post) == ld + inc;
      Split2(c.code, m.rip, ld, inc);
      LoadVarRuns(c, m, s, v);
      if ReadVar(s.mem, c.base, v).Val? {
        var m1 := Run(c.code, m, 1).cpu;
        BumpRuns(c, m1, s, v, up);
        var w := WriteVar(s.mem, c.base, v, m1.rax + if up then 1 else -1);
        Joined(c, m, 1, Gives(m1.rax, s.(mem := w.mem)), Size(inc), 1);
      }
    } else {
      assert BumpCode(v, up, post) == inc + ld;
      Split2(c.code, m.rip, inc, ld);
      if ReadVar(s.mem, c.base, v).Val? {
        BumpRuns(c, m, s, v, up);
        var w := WriteVar(s.mem, c.base, v, ReadVar(s.mem, c.base, v).v + if up then 1 else -1);
        var s1 := s.(mem := w.mem);
        var m1 := Run(c.code, m, 1).cpu;
        LoadVarRuns(c, m1, s1, v);
        ReadKeepsMemory(s1.mem, c.base, v);
        Joined(c, m, 1, Lift(ReadVar(s1.mem, c.base, v), s1), Size(ld), 1);
      }
    }
  }

  lemma ReadKeepsMemory(mem: Memory, base: int, v: VarInfo)
    ensures ReadVar(mem, base, v).Val? ==> ReadVar(mem, base, v).mem == mem
    ensures !ReadVar(mem, base, v).Trap?
  {
  }

  /** Operators on rax alone: casts, ! and unary minus. */
  lemma UnaryRuns(c: Context, m: Cpu, s: State, e: Expr) returns (n: nat)
    requires (e.Cast? || e.Not? || e.Neg?) && Rel(c, m, s) && CodeAt(c.code, m.rip, CompileExpr(e, c.vs))
    ensures Realizes(c, m, EvalE(e, c.vs, c.base, s), Size(CompileExpr(e, c.vs)), n)
    decreases e, 0
  {
    hide Run, CodeAt, Size, Rel, CastCode, CastTo, Wrap;
    var tail := if e.Cast? then CastCode(e.ty) else if e.Not? then Normalize + [XorRaxOne] else [NegRax];
    Split2(c.code, m.rip, CompileExpr(e.e, c.vs), tail);
    n := ExprRuns(c, m, s, e.e);
    if EvalE(e.e, c.vs, c.base, s).Gives? {
      var Gives(v, s1) := EvalE(e.e, c.vs, c.base, s);
      var m1 := Run(c.code, m, n).cpu;
      RaxIsWord(c, m1, s1);
      var k := UnaryTailRuns(c.code, m1, e);
      var m2 := Run(c.code, m1, k).cpu;
      CastWord(v);
      ComputedHolds(c, m1, m2, s1, m2.rax, Size(tail));
      Joined(c, m, n, Gives(m2.rax, s1), Size(tail), k);
      n := n + k;
    }
  }

  lemma RaxIsWord(c: Context, m: Cpu, s: State)
    requires Rel(c, m, s)
    ensures IsWord(m.rax)
  {
  }

  lemma CastWord(v: int)
    requires IsWord(v)
    ensures forall t: Type :: IsWord(CastTo(t, v))
  {
  }

  lemma UnaryTailRuns(code: seq<byte>, m: Cpu, e: Expr) returns (n: nat)
    requires (e.Cast? || e.Not? || e.Neg?) && IsWord(m.rax)
    requires CodeAt(code, m.rip, if e.Cast? then CastCode(e.ty) else if e.Not? then Normalize + [XorRaxOne] else [NegRax])
    ensures Run(code, m, n).Running?
    ensures Computes(m, Run(code, m, n).cpu,
              if e.Cast? then CastTo(e.ty, m.rax) else if e.Not? then Truth(m.rax == 0) else Wrap(-m.rax),
              Size(if e.Cast? then CastCode(e.ty) else if e.Not? then Normalize + [XorRaxOne] else [NegRax]))
  {
    hide Run, CodeAt, Size, CastCode, CastTo, Wrap, LoadExt, Store;
    if e.Cast? {
      CastRuns(code, m, e.ty);
      n := |CastCode(e.ty)|;
    } else if e.Not? {
      Split2(code, m.rip, Normalize, [XorRaxOne]);
      NormalizeRuns(code, m);
      var m1 := Run(code, m, 3).cpu;
      OneRuns(code, m1, XorRaxOne);
      RunFrom(code, m, 3, m1, 1);
      n := 4;
    } else {
      OneRuns(code, m, NegRax);
      n := 1;
    }
  }

  lemma DerefRuns(c: Context, m: Cpu, s: State, e: Expr) returns (n: nat)
    requires e.Deref? && Rel(c, m, s) && CodeAt(c.code, m.rip, CompileExpr(e, c.vs))
    ensures Realizes(c, m, EvalE(e, c.vs, c.base, s), Size(CompileExpr(e, c.vs)), n)
    decreases e, 0
  {
    hide Run, CodeAt, Size, Rel, ReadAt;
    var b := TypeOf(e.e, c.vs).base;
    Split2(c.code, m.rip, CompileExpr(e.e, c.vs), [LoadThrough(b)]);
    n := ExprRuns(c, m, s, e.e);
    if EvalE(e.e, c.vs, c.base, s).Gives? {
      var Gives(a, s1) := EvalE(e.e, c.vs, c.base, s);
      var m1 := Run(c.code, m, n).cpu;
      LoadThroughRuns(c, m1, s1, b);
      Joined(c, m, n, Lift(ReadAt(s1.mem, a, b.Width(), b.Signed()), s1), Size([LoadThrough(b)]), 1);
      n := n + 1;
    }
  }

  lemma ConstantRuns(c: Context, m: Cpu, s: State, i: Instr)
    requires i.MovRaxImm? || i.LeaRax?
    requires Rel(c, m, s) && CodeAt(c.code, m.rip, [i])
    ensures Realizes(c, m, Gives(Wrap(if i.MovRaxImm? then i.v else c.base + i.disp), s), Size([i]), 1)
  {
    hide Run, CodeAt, Size, Load, Store, LoadExt, Wrap;
    OneRuns(c.code, m, i);
  }

  /** Expression code generation is correct: value, side effects, operand stack and faults are those of EvalE. */
  lemma {:induction false} ExprRuns(c: Context, m: Cpu, s: State, e: Expr) returns (n: nat)
    requires Rel(c, m, s) && CodeAt(c.code, m.rip, CompileExpr(e, c.vs))
    ensures Realizes(c, m, EvalE(e, c.vs, c.base, s), Size(CompileExpr(e, c.vs)), n)
    decreases e, 1
  {
    hide Run, CodeAt, Size, Rel, BumpCode, Bumped, Designated, DesignatedOf, Wrap;
    match e
    case Num(v) => ConstantRuns(c, m, s, MovRaxImm(v)); n := 1;
    case Name(x) =>
      n := 1;
      if Find(c.vs, x).Some? { DesignatedRuns(c, m, s, Find(c.vs, x).value); }
    case Index(_, _) => n := IndexRuns(c, m, s, e);
    case Bump(x, up, post) =>
      n := 2;
      if Find(c.vs, x).Some? { BumpExprRuns(c, m, s, Find(c.vs, x).value, up, post); }
    case Cast(_, _) => n := UnaryRuns(c, m, s, e);
    case Not(_) => n := UnaryRuns(c, m, s, e);
    case Neg(_) => n := UnaryRuns(c, m, s, e);
    case Deref(_) => n := DerefRuns(c, m, s, e);
    case AddrOf(x) =>
      n := 1;
      if Find(c.vs, x).Some? { ConstantRuns(c, m, s, LeaRax(-Find(c.vs, x).value.offset)); }
    case Paren(e1) => n := ExprRuns(c, m, s, e1);
    case Bin(_, _, _) => n := BinRuns(c, m, s, e);
    case And(_, _) => n := ShortCircuitRuns(c, m, s, e);
    case Or(_, _) => n := ShortCircuitRuns(c, m, s, e);
  }

  // ----- statements -----

  /** State after `ret`: result in rax, the caller's rbp, the stack pointer past the return address, the caller's memory. */
  ghost predicate Exits(c: Context, m: Cpu, v: int) {
    m.rax == v && m.rsp == c.base + 16 &&
    m.rbp == LoadExt(c.outer, c.base, W64, true) && m.rip == LoadExt(c.outer, c.base + 8, W64, true) &&
    forall a :: a >= c.base ==> Peek(m.mem, a) == Peek(c.outer, a)
  }

  /** n steps from m realise the outcome of a statement of `size` bytes; when fuel runs out at least `fuel` steps were taken. */
  ghost predicate Performs(c: Context, m: Cpu, o: Emitted.Outcome, size: int, fuel: nat, n: nat) {
    var r := Run(c.code, m, n);
    match o
    case Falls(s) => r.Running? && Rel(c, r.cpu, s) && r.cpu.rip == m.rip + size
    case Leaves(v, _) => r.Returned? && Exits(c, r.cpu, v)
    case Fault => r.DivideFault?
    case Stray => true
    case OutOfFuel => r.Running? && n >= fuel
  }

  lemma Performed(c: Context, m: Cpu, eff: Effect, size: int, fuel: nat, n: nat)
    requires Realizes(c, m, eff, size, n)
    ensures Performs(c, m, AfterE(eff), size, fuel, n)
  {
    hide Run, Rel;
  }

  lemma Continued(c: Context, m: Cpu, n: nat, o: Emitted.Outcome, size: int, fuel: nat, k: nat)
    requires Run(c.code, m, n).Running?
    requires Performs(c, Run(c.code, m, n).cpu, o, size, fuel, k)
    ensures Performs(c, m, o, Run(c.code, m, n).cpu.rip - m.rip + size, fuel, n + k)
  {
    hide Run, Rel, Exits;
    RunFrom(c.code, m, n, Run(c.code, m, n).cpu, k);
  }

  lemma JmpRuns(c: Context, m: Cpu, s: State, rel: int)
    requires Rel(c, m, s) && CodeAt(c.code, m.rip, [Jmp(rel)])
    ensures Realizes(c, m, Gives(m.rax, s), JmpSize + rel, 1)
  {
    hide Decode, Encode, LoadExt, Store, Load;
    JumpSizes(rel);
    assert [Jmp(rel)][1..] == [];
    assert Step(c.code, m) == Exec(Jmp(rel), m.(rip := m.rip + |Encode(Jmp(rel))|));
  }

  /** test rax, rax and a conditional jump. */
  lemma TestJumpRuns(c: Context, m: Cpu, s: State, jump: Instr)
    requires jump.Jz? || jump.Jnz?
    requires Rel(c, m, s) && CodeAt(c.code, m.rip, [TestRaxRax] + [jump])
    ensures Realizes(c, m, Gives(m.rax, s), TestJumpSize + (if (m.rax == 0) == jump.Jz? then jump.rel else 0), 2)
  {
    hide Run, CodeAt, Size, Load, Store, LoadExt;
    Split2(c.code, m.rip, [TestRaxRax], [jump]);
    OneRuns(c.code, m, TestRaxRax);
    var m1 := m.(flags := Compared(m.rax, 0), rip := m.rip + Size([TestRaxRax]));
    JumpRuns(c.code, m1, jump);
    RunFrom(c.code, m, 1, m1, 1);
    JumpSizes(jump.rel);
    assert JumpIfZero(jump.rel) == [TestRaxRax] + [Jz(jump.rel)];
    SizeConcat([TestRaxRax], [Jz(jump.rel)]);
  }

  lemma UpdateRuns(m: Cpu, op: AssignOp)
    requires IsWord(m.rax) && op != Set
    ensures match Update(op, m.rax, m.rcx)
            case None => Straight(UpdateCode(op), m).DivideFault?
            case Some(z) =>
              Straight(UpdateCode(op), m).Running? && OnlyRax(m, Straight(UpdateCode(op), m).cpu, z)
    ensures forall i :: i in UpdateCode(op) ==> !IsJump(i)
  {
    hide Straight, LoadExt, Store, Load, BitAnd, BitOr, Wrap, TruncDiv, TruncMod;
    match op
    case AddTo => Straight1(AddRaxRcx, m); assert m.rax + m.rcx == m.rcx + m.rax;
    case SubFrom => Straight1(SubRaxRcx, m);
    case MulBy => Straight1(ImulRaxRcx, m);
    case DivBy => DivideRuns(m);
    case ModBy => RemainderRuns(m);
  }

  lemma UpdateWord(op: AssignOp, x: int, y: int)
    requires IsWord(x) && IsWord(y) && Update(op, x, y).Some?
    ensures IsWord(Update(op, x, y).value)
  {
    hide TruncDiv, TruncMod, Wrap;
    if op == ModBy { TruncModOfWord(x, y); }
  }

  /** pop rcx and the operation of a compound assignment: old value in rax, right side on the stack. */
  lemma CombineRuns(c: Context, m: Cpu, s: State, op: AssignOp) returns (n: nat)
    requires op != Set && Rel(c, m, s) && |s.stack| > 0 && CodeAt(c.code, m.rip, [PopRcx] + UpdateCode(op))
    ensures Realizes(c, m,
              match Update(op, m.rax, TopOf(s)) case None => Faults case Some(z) => Gives(z, Popped(s)),
              Size([PopRcx] + UpdateCode(op)), n)
  {
    hide Run, CodeAt, Size, UpdateCode, Update, LoadExt;
    Split2(c.code, m.rip, [PopRcx], UpdateCode(op));
    var m1 := PopRuns(c, m, s);
    UpdateRuns(m1, op);
    StraightRuns(c.code, m1, UpdateCode(op));
    var k := |UpdateCode(op)|;
    RunFrom(c.code, m, 1, m1, k);
    n := 1 + k;
    if Update(op, m.rax, TopOf(s)).Some? {
      UpdateWord(op, m.rax, TopOf(s));
      ComputedHolds(c, m1, Run(c.code, m1, k).cpu, Popped(s), Update(op, m.rax, TopOf(s)).value, Size(UpdateCode(op)));
    }
  }

  lemma AssignTailRuns(c: Context, m: Cpu, s: State, v: VarInfo, op: AssignOp, fuel: nat) returns (n: nat)
    requires Rel(c, m, s) && CodeAt(c.code, m.rip, AssignTail(v, op))
    ensures Performs(c, m, FinishAssign(c.base, s, v, op, m.rax), Size(AssignTail(v, op)), fuel, n)
  {
    hide Run, CodeAt, Size, Rel, UpdateCode, Update, ReadVar, WriteVar, LoadOf, StoreOf;
    if op == Set {
      StoreVarRuns(c, m, s, v);
      n := 1;
      Performed(c, m, Lift(WriteVar(s.mem, c.base, v, m.rax), s), Size([StoreOf(v)]), fuel, n);
    } else {
      Split4(c.code, m.rip, [PushRax], [LoadOf(v)], [PopRcx] + UpdateCode(op), [StoreOf(v)]);
      var y := m.rax;
      var s1 := Pushed(s, y);
      var m1 := PushRuns(c, m, s);
      LoadVarRuns(c, m1, s1, v);
      ReadKeepsMemory(s.mem, c.base, v);
      Joined(c, m, 1, Lift(ReadVar(s.mem, c.base, v), s1), Size([LoadOf(v)]), 1);
      n := 2;
      if ReadVar(s.mem, c.base, v).Val? {
        var m2 := Run(c.code, m, n).cpu;
        assert Popped(s1) == s;
        var k := CombineRuns(c, m2, s1, op);
        var eff := match Update(op, m2.rax, y) case None => Faults case Some(z) => Gives(z, s);
        Joined(c, m, n, eff, Size([PopRcx] + UpdateCode(op)), k);
        n := n + k;
        if Update(op, m2.rax, y).Some? {
          var m3 := Run(c.code, m, n).cpu;
          StoreVarRuns(c, m3, s, v);
          Joined(c, m, n, Lift(WriteVar(s.mem, c.base, v, m3.rax), s), Size([StoreOf(v)]), 1);
          n := n + 1;
          Performed(c, m, Lift(WriteVar(s.mem, c.base, v, m3.rax), s), Size(AssignTail(v, op)), fuel, n);
        }
      }
    }
  }

  lemma AssignRuns(c: Context, m: Cpu, s: State, x: string, op: AssignOp, e: Expr, fuel: nat) returns (n: nat)
    requires Rel(c, m, s) && CodeAt(c.code, m.rip, AssignCode(x, op, e, c.vs))
    ensures Performs(c, m, AssignE(c.vs, c.base, s, x, op, e), Size(AssignCode(x, op, e, c.vs)), fuel, n)
  {
    hide Run, CodeAt, Size, Rel, AssignTail, FinishAssign, EvalE, CompileExpr, Exits, Find;
    n := 0;
    if Find(c.vs, x).Some? {
      var v := Find(c.vs, x).value;
      Split2(c.code, m.rip, CompileExpr(e, c.vs), AssignTail(v, op));
      n := ExprRuns(c, m, s, e);
      if EvalE(e, c.vs, c.base, s).Gives? {
        var Gives(y, s1) := EvalE(e, c.vs, c.base, s);
        var m1 := Run(c.code, m, n).cpu;
        var k := AssignTailRuns(c, m1, s1, v, op, fuel);
        Continued(c, m, n, FinishAssign(c.base, s1, v, op, y), Size(AssignTail(v, op)), fuel, k);
        n := n + k;
      }
    }
  }

  lemma BumpStmtRuns(c: Context, m: Cpu, s: State, x: string, up: bool, fuel: nat) returns (n: nat)
    requires Rel(c, m, s) && CodeAt(c.code, m.rip, BumpStmtCode(x, up, c.vs))
    ensures Performs(c, m, BumpE(c.vs, c.base, s, x, up), Size(BumpStmtCode(x, up, c.vs)), fuel, n)
  {
    hide Run, CodeAt, Size, Rel, ReadVar, WriteVar, BumpOf;
    n := 1;
    if Find(c.vs, x).Some? {
      var v := Find(c.vs, x).value;
      ReadKeepsMemory(s.mem, c.base, v);
      if ReadVar(s.mem, c.base, v).Val? { BumpRuns(c, m, s, v, up); }
    }
  }

  lemma StoreAtRuns(c: Context, m: Cpu, s: State, b: BaseType)
    requires Rel(c, m, s) && CodeAt(c.code, m.rip, [StoreAt(b.Width())])
    ensures Realizes(c, m, match WriteAt(s.mem, m.rax, b.Width(), m.rcx)
                           case Val(_, mem') => Gives(m.rax, s.(mem := mem')) case other => Lift(other, s),
                     Size([StoreAt(b.Width())]), 1)
  {
    hide Run, CodeAt, Load, Store, Size, LoadExt;
    OneRuns(c.code, m, StoreAt(b.Width()));
    if WriteAt(s.mem, m.rax, b.Width(), m.rcx).Val? { WriteHolds(c, m, s, m.rax, b.Width(), m.rcx); }
  }

  /** Value in rax, address on the stack. */
  lemma StoreTailRuns(c: Context, m: Cpu, s: State, b: BaseType, fuel: nat) returns (n: nat)
    requires Rel(c, m, s) && |s.stack| > 0 && CodeAt(c.code, m.rip, [PopRcx, XchgRaxRcx, StoreAt(b.Width())])
    ensures Performs(c, m, AfterE(Lift(WriteAt(s.mem, TopOf(s), b.Width(), m.rax), Popped(s))),
              Size([PopRcx, XchgRaxRcx, StoreAt(b.Width())]), fuel, n)
  {
    hide Run, CodeAt, Size, WriteAt, Load, Store, LoadExt;
    assert [PopRcx, XchgRaxRcx, StoreAt(b.Width())] == [PopRcx] + [XchgRaxRcx] + [StoreAt(b.Width())];
    Split3(c.code, m.rip, [PopRcx], [XchgRaxRcx], [StoreAt(b.Width())]);
    var m1 := PopRuns(c, m, s);
    OneRuns(c.code, m1, XchgRaxRcx);
    RunFrom(c.code, m, 1, m1, 1);
    var m2 := m1.(rax := m1.rcx, rcx := m1.rax, rip := m1.rip + Size([XchgRaxRcx]));
    StoreAtRuns(c, m2, Popped(s), b);
    RunFrom(c.code, m, 2, m2, 1);
    n := 3;
  }

  /** Element address in rax: push it, evaluate the right side, store. */
  lemma StoreElementRuns(c: Context, m: Cpu, s: State, b: BaseType, e: Expr, fuel: nat) returns (n: nat)
    requires Rel(c, m, s)
    requires CodeAt(c.code, m.rip, [PushRax] + CompileExpr(e, c.vs) + [PopRcx, XchgRaxRcx, StoreAt(b.Width())])
    ensures Performs(c, m,
              match EvalE(e, c.vs, c.base, Pushed(s, m.rax))
              case Gives(y, s2) => AfterE(Lift(WriteAt(s2.mem, TopOf(s2), b.Width(), y), Popped(s2)))
              case other => AfterE(other),
              Size([PushRax] + CompileExpr(e, c.vs) + [PopRcx, XchgRaxRcx, StoreAt(b.Width())]), fuel, n)
  {
    hide Run, CodeAt, Size, Rel, WriteAt;
    var tail := [PopRcx, XchgRaxRcx, StoreAt(b.Width())];
    Split3(c.code, m.rip, [PushRax], CompileExpr(e, c.vs), tail);
    var s1 := Pushed(s, m.rax);
    var m1 := PushRuns(c, m, s);
    var k := ExprRuns(c, m1, s1, e);
    Joined(c, m, 1, EvalE(e, c.vs, c.base, s1), Size(CompileExpr(e, c.vs)), k);
    n := 1 + k;
    if EvalE(e, c.vs, c.base, s1).Gives? {
      var Gives(y, s2) := EvalE(e, c.vs, c.base, s1);
      var m2 := Run(c.code, m, n).cpu;
      var j := StoreTailRuns(c, m2, s2, b, fuel);
      Continued(c, m, n, AfterE(Lift(WriteAt(s2.mem, TopOf(s2), b.Width(), y), Popped(s2))), Size(tail), fuel, j);
      n := n + j;
    }
  }

  lemma StoreIndexRuns(c: Context, m: Cpu, s: State, st: Stmt, fuel: nat) returns (n: nat)
    requires st.StoreIndex? && Rel(c, m, s) && CodeAt(c.code, m.rip, CompileStmt(st, c.vs))
    ensures Performs(c, m, StoreElementE(c.vs, c.base, s, st.x, st.i, st.e), Size(CompileStmt(st, c.vs)), fuel, n)
  {
    hide Run, CodeAt, Size, Rel, IndexTail, Designated, DesignatedOf, Wrap, Scale, WriteAt;
    n := 0;
    var StoreIndex(x, i, e) := st;
    if Find(c.vs, x).Some? {
      var v := Find(c.vs, x).value;
      var address := [DesignatedOf(v), PushRax] + CompileExpr(i, c.vs) + IndexTail(v);
      var rest := [PushRax] + CompileExpr(e, c.vs) + [PopRcx, XchgRaxRcx, StoreAt(v.ty.base.Width())];
      assert CompileStmt(st, c.vs) == address + rest;
      Split2(c.code, m.rip, address, rest);
      n := ElementAddress(c, m, s, v, i);
      if ElementE(v, i, c.vs, c.base, s).Gives? {
        var m1 := Run(c.code, m, n).cpu;
        var s1 := ElementE(v, i, c.vs, c.base, s).s;
        var k := StoreElementRuns(c, m1, s1, v.ty.base, e, fuel);
        Continued(c, m, n, StoreElementE(c.vs, c.base, s, x, i, e), Size(rest), fuel, k);
        n := n + k;
      } else {
        Performed(c, m, ElementE(v, i, c.vs, c.base, s), Size(CompileStmt(st, c.vs)), fuel, n);
      }
    }
  }

  lemma StoreThroughRuns(c: Context, m: Cpu, s: State, st: Stmt, fuel: nat) returns (n: nat)
    requires st.StoreThrough? && Rel(c, m, s) && CodeAt(c.code, m.rip, CompileStmt(st, c.vs))
    ensures Performs(c, m, StorePointedE(c.vs, c.base, s, st.x, st.e), Size(CompileStmt(st, c.vs)), fuel, n)
  {
    hide Run, CodeAt, Size, Rel, ReadVar, WriteAt, LoadOf;
    n := 0;
    var StoreThrough(x, e) := st;
    if Find(c.vs, x).Some? {
      var v := Find(c.vs, x).value;
      var b := v.ty.base;
      var tail := [PopRcx, StoreAt(b.Width())];
      Split4(c.code, m.rip, CompileExpr(e, c.vs), [PushRax], [LoadOf(v)], tail);
      n := ExprRuns(c, m, s, e);
      if EvalE(e, c.vs, c.base, s).Gives? {
        var Gives(y, s1) := EvalE(e, c.vs, c.base, s);
        var m1 := Run(c.code, m, n).cpu;
        var m2 := PushRuns(c, m1, s1);
        RunFrom(c.code, m, n, m1, 1);
        var s2 := Pushed(s1, y);
        LoadVarRuns(c, m2, s2, v);
        ReadKeepsMemory(s1.mem, c.base, v);
        Joined(c, m, n + 1, Lift(ReadVar(s1.mem, c.base, v), s2), Size([LoadOf(v)]), 1);
        n := n + 2;
        if ReadVar(s1.mem, c.base, v).Val? {
          var m3 := Run(c.code, m, n).cpu;
          assert tail == [PopRcx] + [StoreAt(b.Width())];
          Split2(c.code, m3.rip, [PopRcx], [StoreAt(b.Width())]);
          var m4 := PopRuns(c, m3, s2);
          RunFrom(c.code, m, n, m3, 1);
          assert Popped(s2) == s1;
          StoreAtRuns(c, m4, s1, b);
          RunFrom(c.code, m, n + 1, m4, 1);
          n := n + 2;
        }
      }
    }
  }

  /** mov rsp, rbp; pop rbp; ret: the epilogue restores the caller's frame whatever is left on the operand stack. */
  lemma EpilogueRuns(c: Context, m: Cpu, s: State, fuel: nat)
    requires Rel(c, m, s) && CodeAt(c.code, m.rip, Epilogue)
    ensures Performs(c, m, Leaves(m.rax, s), 0, fuel, 3)
  {
    hide Run, CodeAt, Size, Load, Store, Extend, Pow256, Encode, Decode;
    assert Epilogue == [MovRspRbp] + [PopRbp] + [Ret];
    Split3(c.code, m.rip, [MovRspRbp], [PopRbp], [Ret]);
    OneRuns(c.code, m, MovRspRbp);
    var m1 := m.(rsp := m.rbp, rip := m.rip + Size([MovRspRbp]));
    OneRuns(c.code, m1, PopRbp);
    RunFrom(c.code, m, 1, m1, 1);
    var m2 := m1.(rbp := Top(m1), rsp := m1.rsp + 8, rip := m1.rip + Size([PopRbp]));
    RetRuns(c.code, m2);
    RunFrom(c.code, m, 2, m2, 1);
    LoadSame(m.mem, c.outer, c.base, 8);
    LoadSame(m.mem, c.outer, c.base + 8, 8);
  }

  lemma RetRuns(code: seq<byte>, m: Cpu)
    requires CodeAt(code, m.rip, [Ret])
    ensures Run(code, m, 1) == Returned(m.(rip := Top(m), rsp := m.rsp + 8))
  {
    hide Decode, Encode, LoadExt, Store, Load;
    assert Step(code, m) == Exec(Ret, m.(rip := m.rip + |Encode(Ret)|));
  }

  // ----- control flow -----

  /** A condition followed by a test and a conditional jump; at least two steps. */
  lemma GuardRuns(c: Context, m: Cpu, s: State, e: Expr, jump: Instr) returns (n: nat)
    requires jump.Jz? || jump.Jnz?
    requires Rel(c, m, s) && CodeAt(c.code, m.rip, CompileExpr(e, c.vs) + ([TestRaxRax] + [jump]))
    ensures Realizes(c, m, EvalE(e, c.vs, c.base, s), GuardSize(c, s, e, jump), n)
    ensures EvalE(e, c.vs, c.base, s).Gives? ==> n >= 1
  {
    hide Run, CodeAt, Size, Rel, EvalE, CompileExpr, Exits;
    var test := [TestRaxRax] + [jump];
    Split2(c.code, m.rip, CompileExpr(e, c.vs), test);
    n := ExprRuns(c, m, s, e);
    if EvalE(e, c.vs, c.base, s).Gives? {
      var Gives(v, s1) := EvalE(e, c.vs, c.base, s);
      var m1 := Run(c.code, m, n).cpu;
      TestJumpRuns(c, m1, s1, jump);
      Joined(c, m, n, Gives(v, s1), TestJumpSize + (if (v == 0) == jump.Jz? then jump.rel else 0), 2);
      n := n + 2;
    }
  }

  /** How far control has moved after a guard. */
  function GuardSize(c: Context, s: State, e: Expr, jump: Instr): int
    requires jump.Jz? || jump.Jnz?
  {
    Size(CompileExpr(e, c.vs)) + TestJumpSize +
    match EvalE(e, c.vs, c.base, s) case Gives(v, _) => (if (v == 0) == jump.Jz? then jump.rel else 0) case _ => 0
  }

  lemma {:induction false} IfRuns(c: Context, m: Cpu, s: State, st: Stmt, fuel: nat) returns (n: nat)
    requires st.If? && Rel(c, m, s) && CodeAt(c.code, m.rip, CompileStmt(st, c.vs))
    ensures Performs(c, m, StmtE(st, c.vs, c.base, fuel, s), Size(CompileStmt(st, c.vs)), fuel, n)
    decreases fuel, st, 0
  {
    hide Run, CodeAt, Size, Rel, Exits;
    var If(e, thn, els) := st;
    var cond, t := CompileExpr(e, c.vs), CompileBlock(thn, c.vs);
    var rest := match els case None => [] case Some(b) => [Jmp(Size(CompileBlock(b, c.vs)))] + CompileBlock(b, c.vs);
    var skip := Size(t) + if els.Some? then JmpSize else 0;
    assert CompileStmt(st, c.vs) == cond + JumpIfZero(skip) + t + rest;
    Split4(c.code, m.rip, cond, JumpIfZero(skip), t, rest);
    CodeAtConcat(c.code, m.rip, cond, JumpIfZero(skip));
    JumpSizes(skip);
    SizeNil();
    n := GuardRuns(c, m, s, e, Jz(skip));
    match EvalE(e, c.vs, c.base, s)
    case Gives(v, s1) =>
      var m1 := Run(c.code, m, n).cpu;
      if v != 0 {
        var k := BlockRuns(c, m1, s1, thn, fuel);
        var o := BlockE(thn, c.vs, c.base, fuel, s1);
        Continued(c, m, n, o, Size(t), fuel, k);
        n := n + k;
        if els.Some? {
          var b := CompileBlock(els.value, c.vs);
          Split2(c.code, m.rip + Size(cond) + TestJumpSize + Size(t), [Jmp(Size(b))], b);
          JumpSizes(Size(b));
          if o.Falls? {
            JmpRuns(c, Run(c.code, m, n).cpu, o.s, Size(b));
            Joined(c, m, n, Gives(Run(c.code, m, n).cpu.rax, o.s), JmpSize + Size(b), 1);
            n := n + 1;
          }
        }
      } else if els.Some? {
        var b := CompileBlock(els.value, c.vs);
        Split2(c.code, m.rip + Size(cond) + TestJumpSize + Size(t), [Jmp(Size(b))], b);
        JumpSizes(Size(b));
        var k := BlockRuns(c, m1, s1, els.value, fuel);
        Continued(c, m, n, BlockE(els.value, c.vs, c.base, fuel, s1), Size(b), fuel, k);
        n := n + k;
      }
    case other => Performed(c, m, other, GuardSize(c, s, e, Jz(skip)), fuel, n);
  }

  lemma {:induction false} WhileRuns(c: Context, m: Cpu, s: State, st: Stmt, fuel: nat) returns (n: nat)
    requires st.While? && Rel(c, m, s) && CodeAt(c.code, m.rip, CompileStmt(st, c.vs))
    ensures Performs(c, m, StmtE(st, c.vs, c.base, fuel, s), Size(CompileStmt(st, c.vs)), fuel, n)
    decreases fuel, st, 0
  {
    hide Run, CodeAt, Size, Rel, Exits;
    var While(e, body) := st;
    var cond, b := CompileExpr(e, c.vs), CompileBlock(body, c.vs);
    var skip := Size(b) + JmpSize;
    var back := -(Size(cond) + TestJumpSize + Size(b) + JmpSize);
    Split4(c.code, m.rip, cond, JumpIfZero(skip), b, [Jmp(back)]);
    CodeAtConcat(c.code, m.rip, cond, JumpIfZero(skip));
    JumpSizes(skip);
    JumpSizes(back);
    n := 0;
    if fuel == 0 {
      RunNothing(c.code, m);
      return;
    }
    n := GuardRuns(c, m, s, e, Jz(skip));
    match EvalE(e, c.vs, c.base, s)
    case Gives(v, s1) =>
      if v != 0 {
        var m1 := Run(c.code, m, n).cpu;
        var k := BlockRuns(c, m1, s1, body, fuel);
        var o := BlockE(body, c.vs, c.base, fuel, s1);
        Continued(c, m, n, o, Size(b), fuel, k);
        n := n + k;
        if o.Falls? {
          JmpRuns(c, Run(c.code, m, n).cpu, o.s, back);
          Joined(c, m, n, Gives(Run(c.code, m, n).cpu.rax, o.s), JmpSize + back, 1);
          n := n + 1;
          var j := WhileRuns(c, Run(c.code, m, n).cpu, o.s, st, fuel - 1);
          Again(c, m, n, StmtE(st, c.vs, c.base, fuel - 1, o.s), Size(CompileStmt(st, c.vs)), fuel, j);
          n := n + j;
        }
      }
    case other => Performed(c, m, other, GuardSize(c, s, e, Jz(skip)), fuel, n);
  }

  lemma SizeNil()
    ensures Size([]) == 0
  {
  }

  lemma RunNothing(code: seq<byte>, m: Cpu)
    ensures Run(code, m, 0) == Running(m)
  {
  }

  /** An iteration of at least one step followed by the rest of the loop on one unit of fuel less. */
  lemma Again(c: Context, m: Cpu, n: nat, o: Emitted.Outcome, size: int, fuel: nat, k: nat)
    requires Run(c.code, m, n).Running? && n >= 1 && fuel >= 1
    requires Performs(c, Run(c.code, m, n).cpu, o, size, fuel - 1, k)
    ensures Performs(c, m, o, Run(c.code, m, n).cpu.rip - m.rip + size, fuel, n + k)
  {
    hide Run, Rel, Exits;
    RunFrom(c.code, m, n, Run(c.code, m, n).cpu, k);
  }

  lemma {:induction false} DoWhileRuns(c: Context, m: Cpu, s: State, st: Stmt, fuel: nat) returns (n: nat)
    requires st.DoWhile? && Rel(c, m, s) && CodeAt(c.code, m.rip, CompileStmt(st, c.vs))
    ensures Performs(c, m, StmtE(st, c.vs, c.base, fuel, s), Size(CompileStmt(st, c.vs)), fuel, n)
    decreases fuel, st, 0
  {
    hide Run, CodeAt, Size, Rel, Exits;
    var DoWhile(body, e) := st;
    var b, cond := CompileBlock(body, c.vs), CompileExpr(e, c.vs);
    var jump := Jnz(-(Size(b) + Size(cond) + TestJumpSize));
    assert CompileStmt(st, c.vs) == b + (cond + ([TestRaxRax] + [jump]));
    Split2(c.code, m.rip, b, cond + ([TestRaxRax] + [jump]));
    SizeConcat(cond, [TestRaxRax] + [jump]);
    SizeConcat([TestRaxRax], [jump]);
    JumpSizes(jump.rel);
    n := 0;
    if fuel == 0 {
      RunNothing(c.code, m);
      return;
    }
    n := BlockRuns(c, m, s, body, fuel);
    var o := BlockE(body, c.vs, c.base, fuel, s);
    if o.Falls? {
      var m1 := Run(c.code, m, n).cpu;
      var k := GuardRuns(c, m1, o.s, e, jump);
      var eff := EvalE(e, c.vs, c.base, o.s);
      Joined(c, m, n, eff, GuardSize(c, o.s, e, jump), k);
      n := n + k;
      Performed(c, m, eff, Size(b) + GuardSize(c, o.s, e, jump), fuel, n);
      if eff.Gives? && eff.v != 0 {
        var j := DoWhileRuns(c, Run(c.code, m, n).cpu, eff.s, st, fuel - 1);
        Again(c, m, n, StmtE(st, c.vs, c.base, fuel - 1, eff.s), Size(CompileStmt(st, c.vs)), fuel, j);
        n := n + j;
      }
    }
  }

  lemma InitRuns(c: Context, m: Cpu, s: State, first: ForInit, fuel: nat) returns (n: nat)
    requires Rel(c, m, s) && CodeAt(c.code, m.rip, InitCode(first, c.vs))
    ensures Performs(c, m, InitE(first, c.vs, c.base, s), Size(InitCode(first, c.vs)), fuel, n)
  {
    hide Run, CodeAt, Size, Rel, Exits, AssignE, EvalE;
    n := 0;
    RunNothing(c.code, m);
    SizeNil();
    match first
    case NoInit =>
    case InitDecl(_, x, _, init) => if init.Some? { n := AssignRuns(c, m, s, x, Set, init.value, fuel); }
    case InitAssign(x, op, e) => n := AssignRuns(c, m, s, x, op, e, fuel);
    case InitExpr(e) => n := ExprRuns(c, m, s, e);
  }

  lemma PostRuns(c: Context, m: Cpu, s: State, step: ForPost, fuel: nat) returns (n: nat)
    requires Rel(c, m, s) && CodeAt(c.code, m.rip, PostCode(step, c.vs))
    ensures Performs(c, m, PostE(step, c.vs, c.base, s), Size(PostCode(step, c.vs)), fuel, n)
  {
    hide Run, CodeAt, Size, Rel, Exits, AssignE, BumpE, EvalE, BumpOf;
    n := 0;
    RunNothing(c.code, m);
    SizeNil();
    match step
    case NoPost =>
    case PostBare(_) =>
    case PostIgnored(_, _, _) =>
    case PostBump(x, up, _) => n := BumpStmtRuns(c, m, s, x, up, fuel);
    case PostAssign(x, op, e) => n := AssignRuns(c, m, s, x, op, e, fuel);
    case PostExpr(e) => n := ExprRuns(c, m, s, e);
  }

  /** The parts of a for statement and their distances from its condition. */
  datatype ForParts = ForParts(cond: Code, over: Code, post: Code, toCond: Code, body: Code, toPost: Code)

  function PartsOf(c: Context, cond: Option<Expr>, step: ForPost, body: Block): ForParts {
    var post, b := PostCode(step, c.vs), CompileBlock(body, c.vs);
    var p, q := Size(post), Size(b);
    ForParts(CondCode(cond, JmpSize + p + JmpSize + q + JmpSize, c.vs), [Jmp(p + JmpSize)], post,
             [Jmp(-(p + JmpSize + JmpSize + CondSize(cond, c.vs)))], b, [Jmp(-(p + JmpSize + q + JmpSize))])
  }

  ghost predicate ForAt(c: Context, p: int, f: ForParts) {
    var q := p + Size(f.cond);
    CodeAt(c.code, p, f.cond) && CodeAt(c.code, q, f.over) && CodeAt(c.code, q + JmpSize, f.post) &&
    CodeAt(c.code, q + JmpSize + Size(f.post), f.toCond) && CodeAt(c.code, q + 2 * JmpSize + Size(f.post), f.body) &&
    CodeAt(c.code, q + 2 * JmpSize + Size(f.post) + Size(f.body), f.toPost)
  }

  lemma ForLayout(c: Context, p: int, cond: Option<Expr>, step: ForPost, body: Block)
    requires CodeAt(c.code, p, ForCode(cond, PostCode(step, c.vs), CompileBlock(body, c.vs), c.vs))
    ensures var f := PartsOf(c, cond, step, body);
            ForAt(c, p, f) && Size(f.cond) == CondSize(cond, c.vs) &&
            Size(ForCode(cond, PostCode(step, c.vs), CompileBlock(body, c.vs), c.vs))
            == Size(f.cond) + 3 * JmpSize + Size(f.post) + Size(f.body)
  {
    hide CodeAt, Size, CompileBlock, PostCode, CompileExpr, Encode, JumpIfZero;
    var f := PartsOf(c, cond, step, body);
    var all := ForCode(cond, PostCode(step, c.vs), CompileBlock(body, c.vs), c.vs);
    var tail := f.over + f.post + f.toCond + f.body;
    assert all == f.cond + (tail + f.toPost);
    Split2(c.code, p, f.cond, tail + f.toPost);
    Split2(c.code, p + Size(f.cond), tail, f.toPost);
    Split4(c.code, p + Size(f.cond), f.over, f.post, f.toCond, f.body);
    JumpSizes(f.over[0].rel);
    JumpSizes(f.toCond[0].rel);
    JumpSizes(f.toPost[0].rel);
    if cond.Some? {
      var exit := JmpSize + Size(f.post) + JmpSize + Size(f.body) + JmpSize;
      SizeConcat(CompileExpr(cond.value, c.vs), JumpIfZero(exit));
      JumpSizes(exit);
    } else {
      SizeNil();
    }
  }

  /** The condition of a for: on a true condition control is at the body, otherwise past the loop. */
  lemma ForGuardRuns(c: Context, m: Cpu, s: State, cond: Option<Expr>, step: ForPost, body: Block, fuel: nat) returns (n: nat)
    requires Rel(c, m, s) && ForAt(c, m.rip, PartsOf(c, cond, step, body))
    requires Size(PartsOf(c, cond, step, body).cond) == CondSize(cond, c.vs)
    ensures var f := PartsOf(c, cond, step, body);
            var eff := CondE(cond, c.vs, c.base, s);
            Performs(c, m, AfterE(eff), Size(f.cond) + 2 * JmpSize + Size(f.post) +
              (if eff.Gives? && eff.v == 0 then Size(f.body) + JmpSize else 0), fuel, n)
    ensures CondE(cond, c.vs, c.base, s).Gives? ==> n >= 1
  {
    hide Run, CodeAt, Size, Rel, Exits;
    var f := PartsOf(c, cond, step, body);
    var over := f.over[0].rel;
    if cond.Some? {
      var exit := JmpSize + Size(f.post) + JmpSize + Size(f.body) + JmpSize;
      n := GuardRuns(c, m, s, cond.value, Jz(exit));
      var eff := EvalE(cond.value, c.vs, c.base, s);
      Performed(c, m, eff, GuardSize(c, s, cond.value, Jz(exit)), fuel, n);
      if eff.Gives? && eff.v != 0 {
        JmpRuns(c, Run(c.code, m, n).cpu, eff.s, over);
        Joined(c, m, n, Gives(eff.v, eff.s), JmpSize + over, 1);
        n := n + 1;
      }
    } else {
      JmpRuns(c, m, s, over);
      n := 1;
    }
  }

  /** After the body: jump to the third part, run it, jump to the condition. */
  lemma ForBackRuns(c: Context, m: Cpu, s: State, p: int, cond: Option<Expr>, step: ForPost, body: Block, fuel: nat)
    returns (n: nat)
    requires Rel(c, m, s) && ForAt(c, p, PartsOf(c, cond, step, body))
    requires var f := PartsOf(c, cond, step, body);
             Size(f.cond) == CondSize(cond, c.vs) &&
             m.rip == p + Size(f.cond) + 2 * JmpSize + Size(f.post) + Size(f.body)
    ensures Performs(c, m, PostE(step, c.vs, c.base, s), p - m.rip, fuel, n)
  {
    hide Run, CodeAt, Size, Rel, Exits, PostCode, BumpE, AssignE, EvalE, PostE;
    var f := PartsOf(c, cond, step, body);
    JmpRuns(c, m, s, f.toPost[0].rel);
    var m1 := Run(c.code, m, 1).cpu;
    var k := PostRuns(c, m1, s, step, fuel);
    var o := PostE(step, c.vs, c.base, s);
    Continued(c, m, 1, o, Size(f.post), fuel, k);
    n := 1 + k;
    if o.Falls? {
      JmpRuns(c, Run(c.code, m, n).cpu, o.s, f.toCond[0].rel);
      Joined(c, m, n, Gives(Run(c.code, m, n).cpu.rax, o.s), JmpSize + f.toCond[0].rel, 1);
      n := n + 1;
    } else {
      PostEnds(step, c.vs, c.base, s);
    }
  }

  lemma PostEnds(step: ForPost, vs: Table, base: int, s: State)
    ensures !PostE(step, vs, base, s).OutOfFuel? && !PostE(step, vs, base, s).Leaves?
  {
    hide EvalE, ReadVar, WriteVar;
  }

  lemma {:induction false} ForLoopRuns(c: Context, m: Cpu, s: State, cond: Option<Expr>, step: ForPost, body: Block, fuel: nat) returns (n: nat)
    requires Rel(c, m, s) && ForAt(c, m.rip, PartsOf(c, cond, step, body))
    requires Size(PartsOf(c, cond, step, body).cond) == CondSize(cond, c.vs)
    ensures var f := PartsOf(c, cond, step, body);
            Performs(c, m, ForE(cond, step, body, c.vs, c.base, fuel, s),
              Size(f.cond) + 3 * JmpSize + Size(f.post) + Size(f.body), fuel, n)
    decreases fuel, body, 2
  {
    hide Run, CodeAt, Size, Rel, Exits, PostCode, PostE, CondE, ForAt, CompileBlock, CondCode, BlockE;
    var f := PartsOf(c, cond, step, body);
    n := 0;
    if fuel == 0 {
      RunNothing(c.code, m);
      return;
    }
    n := ForGuardRuns(c, m, s, cond, step, body, fuel);
    var eff := CondE(cond, c.vs, c.base, s);
    if eff.Gives? && eff.v != 0 {
      var m1 := Run(c.code, m, n).cpu;
      ForBodyAt(c, m.rip, f);
      var k := BlockRuns(c, m1, eff.s, body, fuel);
      var o := BlockE(body, c.vs, c.base, fuel, eff.s);
      Continued(c, m, n, o, Size(f.body), fuel, k);
      n := n + k;
      if o.Falls? {
        var m2 := Run(c.code, m, n).cpu;
        var j := ForBackRuns(c, m2, o.s, m.rip, cond, step, body, fuel);
        var o2 := PostE(step, c.vs, c.base, o.s);
        Continued(c, m, n, o2, m.rip - m2.rip, fuel, j);
        n := n + j;
        if o2.Falls? {
          var i := ForLoopRuns(c, Run(c.code, m, n).cpu, o2.s, cond, step, body, fuel - 1);
          Again(c, m, n, ForE(cond, step, body, c.vs, c.base, fuel - 1, o2.s),
                Size(f.cond) + 3 * JmpSize + Size(f.post) + Size(f.body), fuel, i);
          n := n + i;
        }
      }
    }
  }

  lemma ForBodyAt(c: Context, p: int, f: ForParts)
    requires ForAt(c, p, f)
    ensures CodeAt(c.code, p + Size(f.cond) + 2 * JmpSize + Size(f.post), f.body)
  {
    hide CodeAt, Size;
  }

  lemma {:induction false} ForRuns(c: Context, m: Cpu, s: State, st: Stmt, fuel: nat) returns (n: nat)
    requires st.For? && Rel(c, m, s) && CodeAt(c.code, m.rip, CompileStmt(st, c.vs))
    ensures Performs(c, m, StmtE(st, c.vs, c.base, fuel, s), Size(CompileStmt(st, c.vs)), fuel, n)
    decreases fuel, st, 0
  {
    hide Run, CodeAt, Size, Rel, Exits, InitCode, InitE, PartsOf, ForAt, ForCode;
    var For(first, cond, step, body) := st;
    var loop := ForCode(cond, PostCode(step, c.vs), CompileBlock(body, c.vs), c.vs);
    Split2(c.code, m.rip, InitCode(first, c.vs), loop);
    n := InitRuns(c, m, s, first, fuel);
    var o := InitE(first, c.vs, c.base, s);
    if o.Falls? {
      var m1 := Run(c.code, m, n).cpu;
      ForLayout(c, m1.rip, cond, step, body);
      var k := ForLoopRuns(c, m1, o.s, cond, step, body, fuel);
      Continued(c, m, n, ForE(cond, step, body, c.vs, c.base, fuel, o.s), Size(loop), fuel, k);
      n := n + k;
    }
  }

  lemma ReturnRuns(c: Context, m: Cpu, s: State, st: Stmt, fuel: nat) returns (n: nat)
    requires st.Return? && Rel(c, m, s) && CodeAt(c.code, m.rip, CompileStmt(st, c.vs))
    ensures Performs(c, m, StmtE(st, c.vs, c.base, fuel, s), Size(CompileStmt(st, c.vs)), fuel, n)
  {
    hide Run, CodeAt, Size, Rel, Exits, Epilogue;
    var first := match st.result case None => [MovRaxImm(0)] case Some(e) => CompileExpr(e, c.vs);
    var eff := match st.result case None => Gives(0, s) case Some(e) => EvalE(e, c.vs, c.base, s);
    Split2(c.code, m.rip, first, Epilogue);
    if st.result.None? {
      ConstantRuns(c, m, s, MovRaxImm(0));
      n := 1;
    } else {
      n := ExprRuns(c, m, s, st.result.value);
    }
    if eff.Gives? {
      EpilogueRuns(c, Run(c.code, m, n).cpu, eff.s, fuel);
      Continued(c, m, n, Leaves(eff.v, eff.s), 0, fuel, 3);
      n := n + 3;
    }
  }

  lemma {:induction false} BlockRuns(c: Context, m: Cpu, s: State, b: Block, fuel: nat) returns (n: nat)
    requires Rel(c, m, s) && CodeAt(c.code, m.rip, CompileBlock(b, c.vs))
    ensures Performs(c, m, BlockE(b, c.vs, c.base, fuel, s), Size(CompileBlock(b, c.vs)), fuel, n)
    decreases fuel, b, 1
  {
    hide Run, CodeAt, Size, Rel, Exits, StmtE, StmtsE;
    match b
    case Braces(ss) => n := StmtsRuns(c, m, s, ss, fuel);
    case One(st) => n := StmtRuns(c, m, s, st, fuel);
  }

  lemma {:induction false} StmtsRuns(c: Context, m: Cpu, s: State, ss: Stmts, fuel: nat) returns (n: nat)
    requires Rel(c, m, s) && CodeAt(c.code, m.rip, CompileStmts(ss, c.vs))
    ensures Performs(c, m, StmtsE(ss, c.vs, c.base, fuel, s), Size(CompileStmts(ss, c.vs)), fuel, n)
    decreases fuel, ss, 1
  {
    hide Run, CodeAt, Size, Rel, Exits, StmtE, CompileStmt;
    n := 0;
    RunNothing(c.code, m);
    SizeNil();
    match ss
    case Nil =>
    case Cons(st, rest) =>
      Split2(c.code, m.rip, CompileStmt(st, c.vs), CompileStmts(rest, c.vs));
      n := StmtRuns(c, m, s, st, fuel);
      var o := StmtE(st, c.vs, c.base, fuel, s);
      if o.Falls? {
        var k := StmtsRuns(c, Run(c.code, m, n).cpu, o.s, rest, fuel);
        Continued(c, m, n, StmtsE(rest, c.vs, c.base, fuel, o.s), Size(CompileStmts(rest, c.vs)), fuel, k);
        n := n + k;
      }
  }

  /** Statement code generation is correct, loops included. */
  lemma {:induction false} StmtRuns(c: Context, m: Cpu, s: State, st: Stmt, fuel: nat) returns (n: nat)
    requires Rel(c, m, s) && CodeAt(c.code, m.rip, CompileStmt(st, c.vs))
    ensures Performs(c, m, StmtE(st, c.vs, c.base, fuel, s), Size(CompileStmt(st, c.vs)), fuel, n)
    decreases fuel, st, 1
  {
    hide Run, CodeAt, Size, Rel, Exits, AssignE, BumpE, StoreElementE, StorePointedE;
    RunNothing(c.code, m);
    SizeNil();
    match st
    case Decl(_, x, _, init) =>
      n := 0;
      if init.Some? { n := AssignRuns(c, m, s, x, Set, init.value, fuel); }
    case Assign(x, op, e) => n := AssignRuns(c, m, s, x, op, e, fuel);
    case StoreIndex(_, _, _) => n := StoreIndexRuns(c, m, s, st, fuel);
    case StoreThrough(_, _) => n := StoreThroughRuns(c, m, s, st, fuel);
    case BumpStmt(x, up, _) => n := BumpStmtRuns(c, m, s, x, up, fuel);
    case Skipped(_, _, _) => n := 0;
    case Return(_) => n := ReturnRuns(c, m, s, st, fuel);
    case If(_, _, _) => n := IfRuns(c, m, s, st, fuel);
    case While(_, _) => n := WhileRuns(c, m, s, st, fuel);
    case DoWhile(_, _) => n := DoWhileRuns(c, m, s, st, fuel);
    case For(_, _, _, _) => n := ForRuns(c, m, s, st, fuel);
  }
}
