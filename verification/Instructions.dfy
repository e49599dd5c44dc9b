/** The x86-64 instructions that compiler.cpp emits, their bytes, and a decoder for those bytes. */
module Instructions {
  import opened Words

  datatype Cond = CEq | CNe | CLt | CGt | CLe | CGe

  /** "Var" operands are [rbp + disp32]; "At" operands are [rax]. A 64-bit load has one form only, marked signed. */
  datatype Instr =
    | PushRbp | MovRbpRsp | MovRspRbp | PopRbp | Ret | SubRsp(n: int)
    | MovRaxImm(v: int) | MovRcxImm(n: int)
    | StoreVar(w: Width, disp: int) | LoadVar(w: Width, signed: bool, disp: int) | LeaRax(disp: int)
    | IncVar(w: Width, disp: int) | DecVar(w: Width, disp: int)
    | StoreAt(w: Width) | LoadAt(w: Width, signed: bool)
    | PushRax | PopRcx
    | AddRaxRcx | SubRcxRax | MovRaxRcx | SubRaxRcx | ImulRaxRcx | XchgRaxRcx | Cqo | IdivRcx | MovRaxRdx
    | ImulRaxImm(n: int) | ImulRcxImm(n: int) | AndRaxImm(n: int) | MovEaxEax | XorRaxOne | NegRax
    | CmpRcxRax | TestRaxRax | SetAl(c: Cond) | MovzxRaxAl | AndRaxRcx | OrRaxRcx
    | Jmp(rel: int) | Jz(rel: int) | Jnz(rel: int)

  /** Operands that the encodings can hold. */
  predicate Encodable(i: Instr) {
    match i
    case SubRsp(n) => IsI32(n)
    case MovRaxImm(v) => IsWord(v)
    case MovRcxImm(n) => IsI32(n)
    case StoreVar(_, d) => IsI32(d)
    case LoadVar(w, s, d) => IsI32(d) && (w == W64 ==> s)
    case LoadAt(w, s) => w == W64 ==> s
    case LeaRax(d) => IsI32(d)
    case IncVar(_, d) => IsI32(d)
    case DecVar(_, d) => IsI32(d)
    case ImulRaxImm(n) => IsI32(n)
    case ImulRcxImm(n) => IsI32(n)
    case AndRaxImm(n) => IsI32(n)
    case Jmp(r) => IsI32(r)
    case Jz(r) => IsI32(r)
    case Jnz(r) => IsI32(r)
    case _ => true
  }

  function CondByte(c: Cond): byte {
    match c
    case CEq => 0x94 case CNe => 0x95 case CLt => 0x9C case CGt => 0x9F case CLe => 0x9E case CGe => 0x9D
  }

  function I32(v: int): (bs: seq<byte>)
    ensures |bs| == 4
  {
    LittleEndian(v, 4)
  }

  function Encode(i: Instr): (bs: seq<byte>)
    ensures |bs| >= 1
  {
    match i
    case PushRbp => [0x55]
    case MovRbpRsp => [0x48, 0x89, 0xE5]
    case MovRspRbp => [0x48, 0x89, 0xEC]
    case PopRbp => [0x5D]
    case Ret => [0xC3]
    case SubRsp(n) => [0x48, 0x81, 0xEC] + I32(n)
    case MovRaxImm(v) => if IsI32(v) then [0x48, 0xC7, 0xC0] + I32(v) else [0x48, 0xB8] + LittleEndian(v, 8)
    case MovRcxImm(n) => [0x48, 0xC7, 0xC1] + I32(n)
    case StoreVar(w, d) => StoreOpcode(w) + [0x85] + I32(d)
    case LoadVar(w, s, d) => LoadOpcode(w, s) + [0x85] + I32(d)
    case LeaRax(d) => [0x48, 0x8D, 0x85] + I32(d)
    case IncVar(w, d) => IncDecOpcode(w) + [0x85] + I32(d)
    case DecVar(w, d) => IncDecOpcode(w) + [0x8D] + I32(d)
    case StoreAt(w) => StoreOpcode(w) + [0x08]
    case LoadAt(w, s) => LoadOpcode(w, s) + [0x00]
    case PushRax => [0x50]
    case PopRcx => [0x59]
    case AddRaxRcx => [0x48, 0x01, 0xC8]
    case SubRcxRax => [0x48, 0x29, 0xC1]
    case MovRaxRcx => [0x48, 0x89, 0xC8]
    case SubRaxRcx => [0x48, 0x29, 0xC8]
    case ImulRaxRcx => [0x48, 0x0F, 0xAF, 0xC1]
    case XchgRaxRcx => [0x48, 0x91]
    case Cqo => [0x48, 0x99]
    case IdivRcx => [0x48, 0xF7, 0xF9]
    case MovRaxRdx => [0x48, 0x89, 0xD0]
    case ImulRaxImm(n) => [0x48, 0x69, 0xC0] + I32(n)
    case ImulRcxImm(n) => [0x48, 0x69, 0xC9] + I32(n)
    case AndRaxImm(n) => [0x48, 0x25] + I32(n)
    case MovEaxEax => [0x89, 0xC0]
    case XorRaxOne => [0x48, 0x83, 0xF0, 0x01]
    case NegRax => [0x48, 0xF7, 0xD8]
    case CmpRcxRax => [0x48, 0x39, 0xC1]
    case TestRaxRax => [0x48, 0x85, 0xC0]
    case SetAl(c) => [0x0F, CondByte(c), 0xC0]
    case MovzxRaxAl => [0x48, 0x0F, 0xB6, 0xC0]
    case AndRaxRcx => [0x48, 0x21, 0xC8]
    case OrRaxRcx => [0x48, 0x09, 0xC8]
    case Jmp(r) => [0xE9] + I32(r)
    case Jz(r) => [0x0F, 0x84] + I32(r)
    case Jnz(r) => [0x0F, 0x85] + I32(r)
  }

  /** mov rax takes the short form, with a 32-bit operand, exactly for signed 32-bit values. */
  lemma ShortImmediate(v: int)
    ensures |Encode(MovRaxImm(v))| == if -2147483648 <= v <= 2147483647 then 7 else 10
  {
    hide LittleEndian;
  }

  function StoreOpcode(w: Width): (bs: seq<byte>) {
    match w case W8 => [0x88] case W16 => [0x66, 0x89] case W32 => [0x89] case W64 => [0x48, 0x89]
  }

  function LoadOpcode(w: Width, signed: bool): (bs: seq<byte>) {
    match w
    case W8 => [0x48, 0x0F, if signed then 0xBE else 0xB6]
    case W16 => [0x48, 0x0F, if signed then 0xBF else 0xB7]
    case W32 => if signed then [0x48, 0x63] else [0x8B]
    case W64 => [0x48, 0x8B]
  }

  function IncDecOpcode(w: Width): (bs: seq<byte>) {
    match w case W8 => [0xFE] case W16 => [0x66, 0xFF] case W32 => [0xFF] case W64 => [0x48, 0xFF]
  }

  // ----- decoding -----

  datatype Fetched = Bad | Fetched(i: Instr, len: nat)

  /** Byte p of the code, or -1 outside it. */
  function At(code: seq<byte>, p: int): int {
    if 0 <= p < |code| then code[p] else -1
  }

  /** The signed 32-bit operand at p (meaningless past the end of the code). */
  function I32At(code: seq<byte>, p: int): int {
    if 0 <= p <= p + 4 <= |code| then Extend(FromLittleEndian(code[p..p + 4]), W32, true) else 0
  }

  function I64At(code: seq<byte>, p: int): int {
    if 0 <= p <= p + 8 <= |code| then Extend(FromLittleEndian(code[p..p + 8]), W64, true) else 0
  }

  /** Decoding dispatches on the first byte, then on REX.W (0x48) and the two escape bytes. */
  function Decode(code: seq<byte>, p: int): Fetched {
    var b := At(code, p);
    if b == 0x48 then DecodeRex(code, p)
    else if b == 0x0F then DecodeEscape(code, p)
    else if b == 0x55 then Fetched(PushRbp, 1)
    else if b == 0x5D then Fetched(PopRbp, 1)
    else if b == 0xC3 then Fetched(Ret, 1)
    else if b == 0x50 then Fetched(PushRax, 1)
    else if b == 0x59 then Fetched(PopRcx, 1)
    else if b == 0xE9 then Fetched(Jmp(I32At(code, p + 1)), 5)
    else if b == 0x66 then DecodeWord(code, p)
    else DecodeNarrow(code, p, b, At(code, p + 1))
  }

  /** Byte and doubleword operations without a prefix. */
  function DecodeNarrow(code: seq<byte>, p: int, b: int, m: int): Fetched {
    if b == 0x88 && m == 0x85 then Fetched(StoreVar(W8, I32At(code, p + 2)), 6)
    else if b == 0x88 && m == 0x08 then Fetched(StoreAt(W8), 2)
    else if b == 0x89 && m == 0x85 then Fetched(StoreVar(W32, I32At(code, p + 2)), 6)
    else if b == 0x89 && m == 0x08 then Fetched(StoreAt(W32), 2)
    else if b == 0x89 && m == 0xC0 then Fetched(MovEaxEax, 2)
    else if b == 0x8B && m == 0x85 then Fetched(LoadVar(W32, false, I32At(code, p + 2)), 6)
    else if b == 0x8B && m == 0x00 then Fetched(LoadAt(W32, false), 2)
    else if b == 0xFE && m == 0x85 then Fetched(IncVar(W8, I32At(code, p + 2)), 6)
    else if b == 0xFE && m == 0x8D then Fetched(DecVar(W8, I32At(code, p + 2)), 6)
    else if b == 0xFF && m == 0x85 then Fetched(IncVar(W32, I32At(code, p + 2)), 6)
    else if b == 0xFF && m == 0x8D then Fetched(DecVar(W32, I32At(code, p + 2)), 6)
    else Bad
  }

  /** Operand-size prefix 0x66. */
  function DecodeWord(code: seq<byte>, p: int): Fetched {
    var b, m := At(code, p + 1), At(code, p + 2);
    if b == 0x89 && m == 0x85 then Fetched(StoreVar(W16, I32At(code, p + 3)), 7)
    else if b == 0x89 && m == 0x08 then Fetched(StoreAt(W16), 3)
    else if b == 0xFF && m == 0x85 then Fetched(IncVar(W16, I32At(code, p + 3)), 7)
    else if b == 0xFF && m == 0x8D then Fetched(DecVar(W16, I32At(code, p + 3)), 7)
    else Bad
  }

  function DecodeEscape(code: seq<byte>, p: int): Fetched {
    var b, m := At(code, p + 1), At(code, p + 2);
    if b == 0x84 then Fetched(Jz(I32At(code, p + 2)), 6)
    else if b == 0x85 then Fetched(Jnz(I32At(code, p + 2)), 6)
    else if m != 0xC0 then Bad
    else if b == 0x94 then Fetched(SetAl(CEq), 3)
    else if b == 0x95 then Fetched(SetAl(CNe), 3)
    else if b == 0x9C then Fetched(SetAl(CLt), 3)
    else if b == 0x9F then Fetched(SetAl(CGt), 3)
    else if b == 0x9E then Fetched(SetAl(CLe), 3)
    else if b == 0x9D then Fetched(SetAl(CGe), 3)
    else Bad
  }

  function DecodeRex(code: seq<byte>, p: int): Fetched {
    var b, m := At(code, p + 1), At(code, p + 2);
    if b == 0x0F then DecodeRexEscape(code, p)
    else if b == 0x91 then Fetched(XchgRaxRcx, 2)
    else if b == 0x99 then Fetched(Cqo, 2)
    else if b == 0xB8 then Fetched(MovRaxImm(I64At(code, p + 2)), 10)
    else if b == 0x25 then Fetched(AndRaxImm(I32At(code, p + 2)), 6)
    else if b == 0x83 && m == 0xF0 && At(code, p + 3) == 0x01 then Fetched(XorRaxOne, 4)
    else if m == 0x85 then DecodeRexVar(b, I32At(code, p + 3))
    else if b == 0xFF && m == 0x8D then Fetched(DecVar(W64, I32At(code, p + 3)), 7)
    else if b == 0x81 && m == 0xEC then Fetched(SubRsp(I32At(code, p + 3)), 7)
    else if b == 0xC7 && m == 0xC0 then Fetched(MovRaxImm(I32At(code, p + 3)), 7)
    else if b == 0xC7 && m == 0xC1 then Fetched(MovRcxImm(I32At(code, p + 3)), 7)
    else if b == 0x69 && m == 0xC0 then Fetched(ImulRaxImm(I32At(code, p + 3)), 7)
    else if b == 0x69 && m == 0xC9 then Fetched(ImulRcxImm(I32At(code, p + 3)), 7)
    else DecodeRexReg(b, m)
  }

  /** 64-bit operations on [rbp + disp32]. */
  function DecodeRexVar(b: int, d: int): Fetched {
    if b == 0x89 then Fetched(StoreVar(W64, d), 7)
    else if b == 0x8B then Fetched(LoadVar(W64, true, d), 7)
    else if b == 0x63 then Fetched(LoadVar(W32, true, d), 7)
    else if b == 0x8D then Fetched(LeaRax(d), 7)
    else if b == 0xFF then Fetched(IncVar(W64, d), 7)
    else Bad
  }

  /** 64-bit operations on registers and on [rax]. */
  function DecodeRexReg(b: int, m: int): Fetched {
    if b == 0x89 && m == 0xE5 then Fetched(MovRbpRsp, 3)
    else if b == 0x89 && m == 0xEC then Fetched(MovRspRbp, 3)
    else if b == 0x89 && m == 0xC8 then Fetched(MovRaxRcx, 3)
    else if b == 0x89 && m == 0xD0 then Fetched(MovRaxRdx, 3)
    else if b == 0x89 && m == 0x08 then Fetched(StoreAt(W64), 3)
    else if b == 0x8B && m == 0x00 then Fetched(LoadAt(W64, true), 3)
    else if b == 0x63 && m == 0x00 then Fetched(LoadAt(W32, true), 3)
    else if b == 0x01 && m == 0xC8 then Fetched(AddRaxRcx, 3)
    else if b == 0x29 && m == 0xC1 then Fetched(SubRcxRax, 3)
    else if b == 0x29 && m == 0xC8 then Fetched(SubRaxRcx, 3)
    else if b == 0x21 && m == 0xC8 then Fetched(AndRaxRcx, 3)
    else if b == 0x09 && m == 0xC8 then Fetched(OrRaxRcx, 3)
    else if b == 0xF7 && m == 0xF9 then Fetched(IdivRcx, 3)
    else if b == 0xF7 && m == 0xD8 then Fetched(NegRax, 3)
    else if b == 0x39 && m == 0xC1 then Fetched(CmpRcxRax, 3)
    else if b == 0x85 && m == 0xC0 then Fetched(TestRaxRax, 3)
    else Bad
  }

  function DecodeRexEscape(code: seq<byte>, p: int): Fetched {
    var b, m := At(code, p + 2), At(code, p + 3);
    if b == 0xAF && m == 0xC1 then Fetched(ImulRaxRcx, 4)
    else if b == 0xB6 && m == 0xC0 then Fetched(MovzxRaxAl, 4)
    else if m != 0x85 && m != 0x00 then Bad
    else if b !in {0xBE, 0xB6, 0xBF, 0xB7} then Bad
    else
      var w := if b == 0xBE || b == 0xB6 then W8 else W16;
      var signed := b == 0xBE || b == 0xBF;
      if m == 0x85 then Fetched(LoadVar(w, signed, I32At(code, p + 4)), 8) else Fetched(LoadAt(w, signed), 4)
  }

  // ----- every emitted encoding decodes to the intended instruction -----

  predicate Holds(code: seq<byte>, p: int, bs: seq<byte>) {
    0 <= p && p + |bs| <= |code| && code[p..p + |bs|] == bs
  }

  lemma HoldsSplit(code: seq<byte>, p: int, a: seq<byte>, b: seq<byte>)
    ensures Holds(code, p, a + b) <==> Holds(code, p, a) && Holds(code, p + |a|, b)
  {
    if 0 <= p && p + |a + b| <= |code| {
      var s := code[p..p + |a + b|];
      assert s[..|a|] == code[p..p + |a|] && s[|a|..] == code[p + |a|..p + |a| + |b|];
      assert (a + b)[..|a|] == a && (a + b)[|a|..] == b;
      assert s == s[..|a|] + s[|a|..];
    }
  }

  lemma OperandI32(code: seq<byte>, p: int, v: int)
    requires IsI32(v) && Holds(code, p, I32(v))
    ensures I32At(code, p) == v
  {
    hide LittleEndian, FromLittleEndian, Pow256;
    LittleEndianRoundTrip(v, 4);
    Pow256Values();
  }

  lemma OperandI64(code: seq<byte>, p: int, v: int)
    requires IsWord(v) && Holds(code, p, LittleEndian(v, 8))
    ensures I64At(code, p) == v
  {
    hide LittleEndian, FromLittleEndian, Pow256;
    LittleEndianRoundTrip(v, 8);
    Pow256Values();
  }

  lemma HeadBytes(code: seq<byte>, p: int, bs: seq<byte>)
    requires Holds(code, p, bs)
    ensures forall k :: 0 <= k < |bs| ==> At(code, p + k) == bs[k]
  {
    forall k | 0 <= k < |bs| ensures At(code, p + k) == bs[k] {
      assert code[p..p + |bs|][k] == code[p + k];
    }
  }

  /** The opcode bytes that precede a 32-bit operand, and that operand. */
  function Opcode(i: Instr): seq<byte> {
    match i
    case SubRsp(_) => [0x48, 0x81, 0xEC]
    case MovRaxImm(_) => [0x48, 0xC7, 0xC0]
    case MovRcxImm(_) => [0x48, 0xC7, 0xC1]
    case StoreVar(w, _) => StoreOpcode(w) + [0x85]
    case LoadVar(w, s, _) => LoadOpcode(w, s) + [0x85]
    case LeaRax(_) => [0x48, 0x8D, 0x85]
    case IncVar(w, _) => IncDecOpcode(w) + [0x85]
    case DecVar(w, _) => IncDecOpcode(w) + [0x8D]
    case ImulRaxImm(_) => [0x48, 0x69, 0xC0]
    case ImulRcxImm(_) => [0x48, 0x69, 0xC9]
    case AndRaxImm(_) => [0x48, 0x25]
    case Jmp(_) => [0xE9]
    case Jz(_) => [0x0F, 0x84]
    case Jnz(_) => [0x0F, 0x85]
    case _ => Encode(i)
  }

  function Operand(i: Instr): Operand32 {
    match i
    case SubRsp(n) => Imm(n)
    case MovRaxImm(v) => Imm(v)
    case MovRcxImm(n) => Imm(n)
    case StoreVar(_, d) => Imm(d)
    case LoadVar(_, _, d) => Imm(d)
    case LeaRax(d) => Imm(d)
    case IncVar(_, d) => Imm(d)
    case DecVar(_, d) => Imm(d)
    case ImulRaxImm(n) => Imm(n)
    case ImulRcxImm(n) => Imm(n)
    case AndRaxImm(n) => Imm(n)
    case Jmp(r) => Imm(r)
    case Jz(r) => Imm(r)
    case Jnz(r) => Imm(r)
    case _ => NoImm
  }

  datatype Operand32 = NoImm | Imm(n: int)

  lemma EncodeParts(i: Instr)
    requires i.MovRaxImm? ==> IsI32(i.v)
    ensures Encode(i) == Opcode(i) + match Operand(i) case NoImm => [] case Imm(n) => I32(n)
    ensures Encodable(i) && Operand(i).Imm? ==> IsI32(Operand(i).n)
  {
    hide Encode, Opcode, I32;
    if Operand(i).Imm? { PartsWithOperand(i); } else { PartsAlone(i); }
  }

  lemma PartsWithOperand(i: Instr)
    requires Operand(i).Imm? && (i.MovRaxImm? ==> IsI32(i.v))
    ensures Encode(i) == Opcode(i) + I32(Operand(i).n)
  {
    hide I32;
  }

  lemma PartsAlone(i: Instr)
    requires Operand(i).NoImm? && !i.MovRaxImm?
    ensures Encode(i) == Opcode(i) + []
  {
    hide I32;
    assert Opcode(i) + [] == Opcode(i);
    match i case StoreAt(w) => case LoadAt(w, s) => case _ =>
  }

  /** Decoding is the left inverse of encoding, wherever the encoding stands in the code. */
  lemma DecodeEncode(code: seq<byte>, p: int, i: Instr)
    requires Encodable(i) && Holds(code, p, Encode(i))
    ensures Decode(code, p) == Fetched(i, |Encode(i)|)
  {
    if i.MovRaxImm? && !IsI32(i.v) {
      DecodeImm64(code, p, i.v);
    } else {
      DecodeShort(code, p, i, Opcode(i));
    }
  }

  lemma DecodeImm64(code: seq<byte>, p: int, v: int)
    requires IsWord(v) && !IsI32(v) && Holds(code, p, Encode(MovRaxImm(v)))
    ensures Decode(code, p) == Fetched(MovRaxImm(v), 10)
  {
    hide LittleEndian, FromLittleEndian;
    var h: seq<byte> := [0x48, 0xB8];
    HoldsSplit(code, p, h, LittleEndian(v, 8));
    HeadBytes(code, p, h);
    assert At(code, p + 0) == h[0] && At(code, p + 1) == h[1];
    OperandI64(code, p + 2, v);
  }

  lemma DecodeShort(code: seq<byte>, p: int, i: Instr, op: seq<byte>)
    requires Encodable(i) && (i.MovRaxImm? ==> IsI32(i.v)) && op == Opcode(i)
    requires Holds(code, p, Encode(i))
    ensures Decode(code, p) == Fetched(i, |Encode(i)|)
  {
    hide I32;
    EncodeParts(i);
    if Operand(i).Imm? {
      var n := Operand(i).n;
      assert Encode(i) == op + I32(n);
      HoldsSplit(code, p, op, I32(n));
      OperandI32(code, p + |op|, n);
    } else {
      assert Encode(i) == op;
    }
    HeadBytes(code, p, op);
    DecodeCase(code, p, i);
  }

  predicate UsesMemory(i: Instr) {
    i.StoreVar? || i.LoadVar? || i.IncVar? || i.DecVar? || i.StoreAt? || i.LoadAt?
  }

  lemma DecodeCase(code: seq<byte>, p: int, i: Instr)
    requires Encodable(i) && (i.MovRaxImm? ==> IsI32(i.v))
    requires forall k :: 0 <= k < |Opcode(i)| ==> At(code, p + k) == Opcode(i)[k]
    requires Operand(i).Imm? ==> I32At(code, p + |Opcode(i)|) == Operand(i).n
    ensures Decode(code, p) == Fetched(i, |Opcode(i)| + if Operand(i).Imm? then 4 else 0)
  {
    hide Decode;
    var op := Opcode(i);
    assert At(code, p) == op[0];
    assert |op| > 1 ==> At(code, p + 1) == op[1];
    assert |op| > 2 ==> At(code, p + 2) == op[2];
    assert |op| > 3 ==> At(code, p + 3) == op[3];
    if UsesMemory(i) { DecodeMemory(code, p, i); } else { DecodeRegister(code, p, i); }
  }

  predicate OpcodeBytes(code: seq<byte>, p: int, op: seq<byte>) {
    |op| > 0 && At(code, p) == op[0] && (|op| > 1 ==> At(code, p + 1) == op[1]) &&
    (|op| > 2 ==> At(code, p + 2) == op[2]) && (|op| > 3 ==> At(code, p + 3) == op[3])
  }

  lemma DecodeMemory(code: seq<byte>, p: int, i: Instr)
    requires Encodable(i) && UsesMemory(i) && OpcodeBytes(code, p, Opcode(i))
    requires Operand(i).Imm? ==> I32At(code, p + |Opcode(i)|) == Operand(i).n
    ensures Decode(code, p) == Fetched(i, |Opcode(i)| + if Operand(i).Imm? then 4 else 0)
  {
    hide I32At, I64At, At;
    match i
    case StoreVar(w, _) => match w { case W8 => case W16 => case W32 => case W64 => }
    case LoadVar(w, s, _) => match w { case W8 => case W16 => case W32 => case W64 => }
    case IncVar(w, _) => match w { case W8 => case W16 => case W32 => case W64 => }
    case DecVar(w, _) => match w { case W8 => case W16 => case W32 => case W64 => }
    case StoreAt(w) => match w { case W8 => case W16 => case W32 => case W64 => }
    case LoadAt(w, s) => match w { case W8 => case W16 => case W32 => case W64 => }
  }

  lemma DecodeRegister(code: seq<byte>, p: int, i: Instr)
    requires Encodable(i) && (i.MovRaxImm? ==> IsI32(i.v)) && !UsesMemory(i) && OpcodeBytes(code, p, Opcode(i))
    requires Operand(i).Imm? ==> I32At(code, p + |Opcode(i)|) == Operand(i).n
    ensures Decode(code, p) == Fetched(i, |Opcode(i)| + if Operand(i).Imm? then 4 else 0)
  {
    hide Decode, Opcode;
    if Operand(i).Imm? { DecodeImmediate(code, p, i); } else { DecodePlain(code, p, i); }
  }

  lemma DecodeImmediate(code: seq<byte>, p: int, i: Instr)
    requires Encodable(i) && (i.MovRaxImm? ==> IsI32(i.v)) && !UsesMemory(i) && OpcodeBytes(code, p, Opcode(i))
    requires Operand(i).Imm? && I32At(code, p + |Opcode(i)|) == Operand(i).n
    ensures Decode(code, p) == Fetched(i, |Opcode(i)| + 4)
  {
    hide I32At, I64At, At;
  }

  lemma DecodePlain(code: seq<byte>, p: int, i: Instr)
    requires !UsesMemory(i) && OpcodeBytes(code, p, Opcode(i)) && Operand(i).NoImm? && !i.MovRaxImm?
    ensures Decode(code, p) == Fetched(i, |Opcode(i)|)
  {
    hide Decode, Opcode;
    if |Opcode(i)| == 3 { DecodeThree(code, p, i); } else { DecodeOther(code, p, i); }
  }

  lemma DecodeThree(code: seq<byte>, p: int, i: Instr)
    requires !UsesMemory(i) && OpcodeBytes(code, p, Opcode(i)) && Operand(i).NoImm? && !i.MovRaxImm? && |Opcode(i)| == 3
    ensures Decode(code, p) == Fetched(i, 3)
  {
    hide I32At, I64At, At;
    match i case SetAl(c) => case _ =>
  }

  lemma DecodeOther(code: seq<byte>, p: int, i: Instr)
    requires !UsesMemory(i) && OpcodeBytes(code, p, Opcode(i)) && Operand(i).NoImm? && !i.MovRaxImm? && |Opcode(i)| != 3
    ensures Decode(code, p) == Fetched(i, |Opcode(i)|)
  {
    hide I32At, I64At, At;
  }
}
