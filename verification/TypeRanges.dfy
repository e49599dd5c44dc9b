/** What the type words of the language promise: how many bytes a variable takes and which values it can hold. */
module TypeRanges {
  import opened Words
  import opened Syntax
  import opened Meaning
  import opened Frame
  import opened Lexer

  /** A type word with the bytes of a value and the least and the greatest one. The widest types hold signed words. */
  datatype TypeWord = TypeWord(word: string, bytes: nat, least: int, greatest: int)

  const TYPE_WORDS: seq<TypeWord> := [
    TypeWord("char", 1, -128, 127),
    TypeWord("int8_t", 1, -128, 127),
    TypeWord("uint8_t", 1, 0, 255),
    TypeWord("int16_t", 2, -32768, 32767),
    TypeWord("uint16_t", 2, 0, 65535),
    TypeWord("int", 4, -2147483648, 2147483647),
    TypeWord("int32_t", 4, -2147483648, 2147483647),
    TypeWord("uint32_t", 4, 0, 4294967295),
    TypeWord("int64_t", 8, -9223372036854775808, 9223372036854775807),
    TypeWord("uint64_t", 8, -9223372036854775808, 9223372036854775807),
    TypeWord("intptr_t", 8, -9223372036854775808, 9223372036854775807),
    TypeWord("uintptr_t", 8, -9223372036854775808, 9223372036854775807)]

  /** r is v reduced to the values from least to greatest. */
  predicate Reduces(r: int, v: int, least: int, greatest: int)
    requires least <= greatest
  {
    least <= r <= greatest && (r - v) % (greatest - least + 1) == 0
  }

  /** The base type that a type word names. */
  function BaseOf(i: nat): (b: BaseType)
    requires i < |TYPE_WORDS|
    ensures WordKind(TYPE_WORDS[i].word) == TType(b) && TYPE_WORDS[i].least <= TYPE_WORDS[i].greatest
    ensures b.Bytes() == TYPE_WORDS[i].bytes
  {
    if i < 4 then NarrowWords(i); WordKind(TYPE_WORDS[i].word).b
    else if i < 8 then MiddleWords(i); WordKind(TYPE_WORDS[i].word).b
    else WideWords(i); WordKind(TYPE_WORDS[i].word).b
  }

  lemma NarrowWords(i: nat)
    requires i < 4
    ensures var t := TYPE_WORDS[i]; WordKind(t.word).TType? && WordKind(t.word).b.Bytes() == t.bytes && t.least <= t.greatest
    ensures WordKind(TYPE_WORDS[i].word).b.Signed() == (i != 2)
  {
  }

  lemma MiddleWords(i: nat)
    requires 4 <= i < 8
    ensures var t := TYPE_WORDS[i]; WordKind(t.word).TType? && WordKind(t.word).b.Bytes() == t.bytes && t.least <= t.greatest
    ensures WordKind(TYPE_WORDS[i].word).b.Signed() == (i != 4 && i != 7)
  {
  }

  lemma WideWords(i: nat)
    requires 8 <= i < 12
    ensures var t := TYPE_WORDS[i]; WordKind(t.word).TType? && WordKind(t.word).b.Bytes() == t.bytes && t.least <= t.greatest
  {
  }

  /** A value converted to the type of a word and back is that value reduced to the word's range. */
  lemma TruncateReduces(i: nat, v: int)
    requires i < |TYPE_WORDS|
    ensures var t, b := TYPE_WORDS[i], BaseOf(i); Reduces(Truncate(v, b.Width(), b.Signed()), v, t.least, t.greatest)
  {
    hide WordKind;
    Pow256Values();
    if i < 4 { NarrowWords(i); } else if i < 8 { MiddleWords(i); } else { WideWords(i); }
    var t := TYPE_WORDS[i];
    var p := t.greatest - t.least + 1;
    assert p == Pow256(t.bytes);
    var r := Truncate(v, BaseOf(i).Width(), BaseOf(i).Signed());
    assert r == v % p || r == v % p - p;
    Congruent(v, p, r);
  }

  lemma Congruent(v: int, p: int, r: int)
    requires p > 0 && (r == v % p || r == v % p - p)
    ensures (r - v) % p == 0
  {
    var k := if r == v % p then -(v / p) else -(v / p) - 1;
    assert v == p * (v / p) + v % p;
    assert p * (-(v / p)) == -(p * (v / p)) && p * (-(v / p) - 1) == -(p * (v / p)) - p;
    DivModUnique(r - v, p, k, 0);
  }

  /**
   * A variable declared with a type word holds what is written to it, reduced to the word's range: an int16_t the value
   * congruent modulo 65536 from -32768 to 32767, a uint16_t the one from 0 to 65535, and so on. A pointer holds a word.
   */
  lemma VariableHolds(i: nat, vs: Table, base: int, mem: Memory, j: nat, v: int)
    requires i < |TYPE_WORDS| && WellLaid(vs) && j < |vs| && FrameMemory(mem, vs, base) && vs[j].ty.base == BaseOf(i)
    ensures var w := WriteVar(mem, base, vs[j], v);
            var t := if vs[j].ty.isPtr then TYPE_WORDS[8] else TYPE_WORDS[i];
            w.Val? && ReadVar(w.mem, base, vs[j]).Val? && Reduces(ReadVar(w.mem, base, vs[j]).v, v, t.least, t.greatest)
  {
    hide WordKind, Truncate, WriteVar, ReadVar, FrameMemory, WellLaid, Reduces;
    WriteThenRead(vs, base, mem, j, j, v);
    TruncateReduces(i, v);
    TruncateReduces(8, v);
    WideSame(v, vs[j].ty.base.Signed());
  }

  lemma WideSame(v: int, signed: bool)
    ensures Truncate(v, W64, signed) == Truncate(v, BaseOf(8).Width(), BaseOf(8).Signed())
  {
    WideWords(8);
  }

  /** Neighbouring elements of an array of a type word, or behind a pointer to it, lie one value's bytes apart. */
  lemma ElementsSpaced(i: nat, v: VarInfo, base: int, k: int)
    requires i < |TYPE_WORDS| && v.ty.base == BaseOf(i)
    ensures ElementLow(v, base, k + 1) - ElementLow(v, base, k) == TYPE_WORDS[i].bytes
    ensures IsWord(k * TYPE_WORDS[i].bytes) ==> Scale(k, v.ty) == k * TYPE_WORDS[i].bytes
  {
    var n := v.ty.base.Bytes();
    assert (k + 1) * n == k * n + n;
  }

  /** A variable takes the least multiple of 8 bytes that holds its elements. */
  lemma {:induction false} StorageTight(i: nat, pointer: bool, elems: nat)
    requires i < |TYPE_WORDS|
    ensures var n, total := StorageSize(Type(BaseOf(i), pointer), elems), TYPE_WORDS[i].bytes * if elems == 0 then 1 else elems;
            n % 8 == 0 && total <= n < total + 8
  {
    hide WordKind;
    EightAligned(TYPE_WORDS[i].bytes * if elems == 0 then 1 else elems);
  }

  lemma EightAligned(total: int)
    requires total > 0
    ensures var n := AlignUp(if total < 8 then 8 else total, 8); n % 8 == 0 && total <= n < total + 8
  {
  }

  /** A frame takes the least positive multiple of 16 bytes that holds its variables. */
  lemma {:induction false} FrameTight(vs: Table)
    requires FrameUsed(vs) >= 0
    ensures FrameSize(vs) % 16 == 0 && FrameSize(vs) >= 16 && FrameUsed(vs) <= FrameSize(vs)
    ensures FrameSize(vs) < if FrameUsed(vs) == 0 then 17 else FrameUsed(vs) + 16
  {
  }

  /** The program T x = n; return x; for a type word T. */
  function DeclareAndReturn(b: BaseType, n: int): Stmts {
    Cons(Decl(Type(b, false), "x", None, Some(Num(n))), Cons(Return(Some(Name("x"))), Nil))
  }

  /** It returns n reduced to the range of T: int16_t x = 40000; return x; returns -25536. */
  lemma DeclaredReturns(i: nat, n: int, base: int, fuel: nat, mem: Memory)
    requires i < |TYPE_WORDS| && IsWord(n) && FrameMemory(mem, [NewVar([], "x", Type(BaseOf(i), false), 0)], base)
    ensures var r := RunStmts(DeclareAndReturn(BaseOf(i), n), [NewVar([], "x", Type(BaseOf(i), false), 0)], base, fuel, mem);
            r.Returns? && Reduces(r.v, n, TYPE_WORDS[i].least, TYPE_WORDS[i].greatest)
  {
    hide WordKind, WriteVar, ReadVar, FrameMemory, Reduces;
    var v := NewVar([], "x", Type(BaseOf(i), false), 0);
    var vs := [v];
    assert WellLaid(vs) by { AllocationStacks([], "x", v.ty, 0); assert [] + [v] == vs; }
    VariableHolds(i, vs, base, mem, 0, n);
    assert Find(vs, "x") == Some(v);
    var s := Decl(v.ty, "x", None, Some(Num(n)));
    assert AssignVar(vs, base, mem, "x", Set, Num(n)) == Next(WriteVar(mem, base, v, n).mem);
    assert RunStmt(s, vs, base, fuel, mem) == Next(WriteVar(mem, base, v, n).mem);
    var m1 := WriteVar(mem, base, v, n).mem;
    assert Eval(Name("x"), vs, base, m1) == ReadVar(m1, base, v);
    var tail := Cons(Return(Some(Name("x"))), Nil);
    var x := ReadVar(m1, base, v);
    assert RunStmt(Return(Some(Name("x"))), vs, base, fuel, m1) == Returns(x.v, x.mem);
    assert RunStmts(tail, vs, base, fuel, m1) == Returns(x.v, x.mem);
  }
}
