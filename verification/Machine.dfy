/** The part of an x86-64 processor that compiled code uses, executing raw bytes. */
module Machine {
  import opened Words
  import opened Instructions

  /** The flags hold the last comparison; arithmetic leaves them unknown and a jump on unknown flags is illegal. */
  datatype Flags = Unknown | Compared(a: int, b: int)

  /** rip is an offset into the code. rsp is a mathematical integer: the stack never runs out. */
  datatype Cpu = Cpu(rax: int, rcx: int, rdx: int, rsp: int, rbp: int, flags: Flags, mem: Memory, rip: int)

  datatype Outcome = Running(cpu: Cpu) | Returned(cpu: Cpu) | DivideFault | Illegal

  function Push(m: Cpu, v: int): Cpu {
    m.(rsp := m.rsp - 8, mem := Store(m.mem, m.rsp - 8, 8, v))
  }

  function Top(m: Cpu): (v: int)
    ensures IsWord(v)
  {
    LoadExt(m.mem, m.rsp, W64, true)
  }

  function Test(c: Cond, a: int, b: int): bool {
    match c
    case CEq => a == b case CNe => a != b case CLt => a < b case CGt => a > b case CLe => a <= b case CGe => a >= b
  }

  function Bit(b: bool): (r: int)
    ensures r in {0, 1}
  {
    if b then 1 else 0
  }

  /** `idiv rcx` divides the 128-bit rdx:rax and faults on zero or when the quotient does not fit. */
  function Idiv(m: Cpu): Outcome {
    var dividend := m.rdx * TWO_64 + m.rax % TWO_64;
    if m.rcx == 0 || !IsWord(TruncDiv(dividend, m.rcx)) then DivideFault
    else Running(m.(rax := TruncDiv(dividend, m.rcx), rdx := TruncMod(dividend, m.rcx), flags := Unknown))
  }

  function Branch(m: Cpu, rel: int, onZero: bool): Outcome {
    if m.flags == Unknown then Illegal
    else if (m.flags.a == m.flags.b) == onZero then Running(m.(rip := m.rip + rel))
    else Running(m)
  }

  /** One instruction; m.rip already points past it. */
  function Exec(i: Instr, m: Cpu): Outcome {
    match i
    case PushRbp => Running(Push(m, m.rbp))
    case MovRbpRsp => Running(m.(rbp := m.rsp))
    case MovRspRbp => Running(m.(rsp := m.rbp))
    case PopRbp => Running(m.(rbp := Top(m), rsp := m.rsp + 8))
    case Ret => Returned(m.(rip := Top(m), rsp := m.rsp + 8))
    case SubRsp(n) => Running(m.(rsp := m.rsp - n, flags := Unknown))
    case MovRaxImm(v) => Running(m.(rax := Wrap(v)))
    case MovRcxImm(n) => Running(m.(rcx := n))
    case StoreVar(w, d) => Running(m.(mem := Store(m.mem, m.rbp + d, w.Bytes(), m.rax)))
    case LoadVar(w, s, d) => Running(m.(rax := LoadExt(m.mem, m.rbp + d, w, s)))
    case LeaRax(d) => Running(m.(rax := Wrap(m.rbp + d)))
    case IncVar(w, d) =>
      Running(m.(mem := Store(m.mem, m.rbp + d, w.Bytes(), Load(m.mem, m.rbp + d, w.Bytes()) + 1), flags := Unknown))
    case DecVar(w, d) =>
      Running(m.(mem := Store(m.mem, m.rbp + d, w.Bytes(), Load(m.mem, m.rbp + d, w.Bytes()) - 1), flags := Unknown))
    case StoreAt(w) => Running(m.(mem := Store(m.mem, m.rax, w.Bytes(), m.rcx)))
    case LoadAt(w, s) => Running(m.(rax := LoadExt(m.mem, m.rax, w, s)))
    case PushRax => Running(Push(m, m.rax))
    case PopRcx => Running(m.(rcx := Top(m), rsp := m.rsp + 8))
    case AddRaxRcx => Running(m.(rax := Wrap(m.rax + m.rcx), flags := Unknown))
    case SubRcxRax => Running(m.(rcx := Wrap(m.rcx - m.rax), flags := Unknown))
    case MovRaxRcx => Running(m.(rax := m.rcx))
    case SubRaxRcx => Running(m.(rax := Wrap(m.rax - m.rcx), flags := Unknown))
    case ImulRaxRcx => Running(m.(rax := Wrap(m.rax * m.rcx), flags := Unknown))
    case XchgRaxRcx => Running(m.(rax := m.rcx, rcx := m.rax))
    case Cqo => Running(m.(rdx := if m.rax < 0 then -1 else 0))
    case IdivRcx => Idiv(m)
    case MovRaxRdx => Running(m.(rax := m.rdx))
    case ImulRaxImm(n) => Running(m.(rax := Wrap(m.rax * n), flags := Unknown))
    case ImulRcxImm(n) => Running(m.(rcx := Wrap(m.rcx * n), flags := Unknown))
    case AndRaxImm(n) => Running(m.(rax := BitAnd(m.rax, n), flags := Unknown))
    case MovEaxEax => Running(m.(rax := m.rax % TWO_32))
    case XorRaxOne => Running(m.(rax := if m.rax % 2 == 0 then m.rax + 1 else m.rax - 1, flags := Unknown))
    case NegRax => Running(m.(rax := Wrap(-m.rax), flags := Unknown))
    case CmpRcxRax => Running(m.(flags := Compared(m.rcx, m.rax)))
    case TestRaxRax => Running(m.(flags := Compared(m.rax, 0)))
    case SetAl(c) =>
      if m.flags == Unknown then Illegal
      else Running(m.(rax := m.rax - m.rax % 0x100 + Bit(Test(c, m.flags.a, m.flags.b))))
    case MovzxRaxAl => Running(m.(rax := m.rax % 0x100))
    case AndRaxRcx => Running(m.(rax := BitAnd(m.rax, m.rcx), flags := Unknown))
    case OrRaxRcx => Running(m.(rax := BitOr(m.rax, m.rcx), flags := Unknown))
    case Jmp(rel) => Running(m.(rip := m.rip + rel))
    case Jz(rel) => Branch(m, rel, true)
    case Jnz(rel) => Branch(m, rel, false)
  }

  function Step(code: seq<byte>, m: Cpu): Outcome {
    match Decode(code, m.rip)
    case Bad => Illegal
    case Fetched(i, len) => Exec(i, m.(rip := m.rip + len))
  }

  /** At most n steps; a run that has ended stays as it ended. */
  function Run(code: seq<byte>, m: Cpu, n: nat): Outcome
    decreases n
  {
    if n == 0 then Running(m)
    else match Step(code, m) case Running(m') => Run(code, m', n - 1) case ended => ended
  }

  lemma {:induction false} RunFrom(code: seq<byte>, m: Cpu, n: nat, m': Cpu, k: nat)
    requires Run(code, m, n) == Running(m')
    ensures Run(code, m, n + k) == Run(code, m', k)
    decreases n
  {
    hide Step, Decode;
    if n > 0 { RunFrom(code, Step(code, m).cpu, n - 1, m', k); }
  }

  lemma {:induction false} RunEnded(code: seq<byte>, m: Cpu, n: nat, k: nat)
    requires !Run(code, m, n).Running?
    ensures Run(code, m, n + k) == Run(code, m, n)
    decreases n
  {
    hide Step, Decode;
    if Step(code, m).Running? { RunEnded(code, Step(code, m).cpu, n - 1, k); }
  }

  // ----- instruction lists laid out in the code -----

  function Size(ins: seq<Instr>): (n: nat) {
    if ins == [] then 0 else |Encode(ins[0])| + Size(ins[1..])
  }

  function EncodeAll(ins: seq<Instr>): (bs: seq<byte>)
    ensures |bs| == Size(ins)
  {
    if ins == [] then [] else Encode(ins[0]) + EncodeAll(ins[1..])
  }

  /** The instructions `ins` are what the processor fetches from p on. */
  predicate CodeAt(code: seq<byte>, p: int, ins: seq<Instr>)
    decreases |ins|
  {
    ins == [] ||
    (Decode(code, p) == Fetched(ins[0], |Encode(ins[0])|) && CodeAt(code, p + |Encode(ins[0])|, ins[1..]))
  }

  lemma {:induction false} SizeConcat(a: seq<Instr>, b: seq<Instr>)
    ensures Size(a + b) == Size(a) + Size(b)
  {
    if a == [] {
      assert a + b == b;
    } else {
      assert (a + b)[1..] == a[1..] + b;
      SizeConcat(a[1..], b);
    }
  }

  lemma {:induction false} EncodeConcat(a: seq<Instr>, b: seq<Instr>)
    ensures EncodeAll(a + b) == EncodeAll(a) + EncodeAll(b)
  {
    if a == [] {
      assert a + b == b;
    } else {
      assert (a + b)[1..] == a[1..] + b;
      EncodeConcat(a[1..], b);
    }
  }

  lemma {:induction false} CodeAtConcat(code: seq<byte>, p: int, a: seq<Instr>, b: seq<Instr>)
    ensures CodeAt(code, p, a + b) <==> CodeAt(code, p, a) && CodeAt(code, p + Size(a), b)
    decreases |a|
  {
    hide Decode, Encode;
    if a == [] {
      assert a + b == b;
    } else {
      assert (a + b)[1..] == a[1..] + b;
      CodeAtConcat(code, p + |Encode(a[0])|, a[1..], b);
    }
  }

  /** Encoded bytes are fetched as the instructions they encode. */
  lemma {:induction false} EncodedIsFetched(code: seq<byte>, p: int, ins: seq<Instr>)
    requires forall i :: i in ins ==> Encodable(i)
    requires Holds(code, p, EncodeAll(ins))
    ensures CodeAt(code, p, ins)
    decreases |ins|
  {
    hide Decode, Encode;
    if ins != [] {
      HoldsSplit(code, p, Encode(ins[0]), EncodeAll(ins[1..]));
      DecodeEncode(code, p, ins[0]);
      EncodedIsFetched(code, p + |Encode(ins[0])|, ins[1..]);
    }
  }

  // ----- straight-line execution -----

  predicate IsJump(i: Instr) {
    i.Jmp? || i.Jz? || i.Jnz? || i.Ret?
  }

  /** The effect of a jump-free list on everything but rip. */
  function Straight(ins: seq<Instr>, m: Cpu): Outcome
    decreases |ins|
  {
    if ins == [] then Running(m)
    else match Exec(ins[0], m) case Running(m') => Straight(ins[1..], m') case ended => ended
  }

  function AtRip(o: Outcome, rip: int): Outcome {
    match o case Running(m) => Running(m.(rip := rip)) case ended => ended
  }

  /** Instructions other than jumps neither read nor write rip. */
  lemma ExecIgnoresRip(i: Instr, m: Cpu, rip: int)
    requires !IsJump(i)
    ensures Exec(i, m.(rip := rip)) == AtRip(Exec(i, m), rip)
  {
    hide Exec;
    if UsesMemory(i) { MemoryIgnoresRip(i, m, rip); } else { RegistersIgnoreRip(i, m, rip); }
  }

  lemma MemoryIgnoresRip(i: Instr, m: Cpu, rip: int)
    requires UsesMemory(i)
    ensures Exec(i, m.(rip := rip)) == AtRip(Exec(i, m), rip)
  {
    hide Wrap, LoadExt, Store, Load;
  }

  lemma RegistersIgnoreRip(i: Instr, m: Cpu, rip: int)
    requires !IsJump(i) && !UsesMemory(i)
    ensures Exec(i, m.(rip := rip)) == AtRip(Exec(i, m), rip)
  {
    hide Wrap, LoadExt, Store, Load, BitAnd, BitOr, TruncDiv, TruncMod;
  }

  lemma {:induction false} StraightIgnoresRip(ins: seq<Instr>, m: Cpu, rip: int)
    requires forall i :: i in ins ==> !IsJump(i)
    ensures AtRip(Straight(ins, m.(rip := rip)), m.rip) == AtRip(Straight(ins, m), m.rip)
    decreases |ins|
  {
    hide Exec, IsJump;
    if ins != [] {
      assert ins[0] in ins;
      ExecIgnoresRip(ins[0], m, rip);
      ExecIgnoresRip(ins[0], m, m.rip);
      var o := Exec(ins[0], m);
      if o.Running? {
        assert o.cpu.rip == m.rip;
        StraightIgnoresRip(ins[1..], o.cpu, rip);
      }
    }
  }

  lemma {:induction false} StraightRuns(code: seq<byte>, m: Cpu, ins: seq<Instr>)
    requires CodeAt(code, m.rip, ins)
    requires forall i :: i in ins ==> !IsJump(i)
    ensures Run(code, m, |ins|) == AtRip(Straight(ins, m), m.rip + Size(ins))
    decreases |ins|
  {
    hide Decode, Exec, Encode, IsJump;
    if ins != [] {
      assert ins[0] in ins;
      var rip := m.rip + |Encode(ins[0])|;
      ExecIgnoresRip(ins[0], m, rip);
      ExecIgnoresRip(ins[0], m, m.rip);
      var o := Exec(ins[0], m);
      if o.Running? {
        StraightRuns(code, o.cpu.(rip := rip), ins[1..]);
        StraightIgnoresRip(ins[1..], o.cpu, rip);
      }
    }
  }

  function Then(o: Outcome, i: Instr): Outcome {
    match o case Running(m) => Exec(i, m) case ended => ended
  }

  /** Straight-line execution of a list given by its elements, as a composition of single instructions. */
  lemma StraightAppend(ins: seq<Instr>, i: Instr, m: Cpu)
    ensures Straight(ins + [i], m) == Then(Straight(ins, m), i)
    decreases |ins|
  {
    hide Exec;
    if ins == [] {
      assert ins + [i] == [i];
      assert [i][1..] == [];
    } else {
      assert (ins + [i])[1..] == ins[1..] + [i];
      var o := Exec(ins[0], m);
      if o.Running? { StraightAppend(ins[1..], i, o.cpu); }
    }
  }

  lemma StraightNil(m: Cpu)
    ensures Straight([], m) == Running(m)
  {
  }

  lemma Straight1(a: Instr, m: Cpu)
    ensures Straight([a], m) == Then(Running(m), a)
  {
    hide Exec, Encode;
    assert [a] == [] + [a];
    StraightAppend([], a, m);
  }

  lemma Straight2(a: Instr, b: Instr, m: Cpu)
    ensures Straight([a, b], m) == Then(Then(Running(m), a), b)
  {
    hide Exec, Encode, Straight;
    assert [a, b] == [a] + [b];
    StraightAppend([a], b, m);
    Straight1(a, m);
  }

  lemma Straight3(a: Instr, b: Instr, c: Instr, m: Cpu)
    ensures Straight([a, b, c], m) == Then(Then(Then(Running(m), a), b), c)
  {
    hide Exec, Encode, Straight;
    assert [a, b, c] == [a, b] + [c];
    StraightAppend([a, b], c, m);
    Straight2(a, b, m);
  }

  lemma {:induction false} StraightConcat(a: seq<Instr>, b: seq<Instr>, m: Cpu)
    ensures Straight(a + b, m) == match Straight(a, m) case Running(m1) => Straight(b, m1) case ended => ended
    decreases |a|
  {
    hide Exec;
    if a == [] {
      assert a + b == b;
    } else {
      assert (a + b)[1..] == a[1..] + b;
      if Exec(a[0], m).Running? { StraightConcat(a[1..], b, Exec(a[0], m).cpu); }
    }
  }
}
