/** Jumps whose distance is written after the code they pass: the layouts of if, while, do-while and for. */
module Backpatch {
  import opened Words
  import opened Instructions
  import opened Machine
  import opened Syntax
  import opened CodeGen
  import opened Emitter

  /** Patching the operand of a jump of `op` opcode bytes emitted just after a, over the code that followed. */
  ghost predicate Patches(a: seq<byte>, b: seq<byte>, b': seq<byte>, op: nat) {
    |b'| == |b| &&
    (|a| + op + 4 <= |b| ==> b' == b[..|a| + op] + I32(|b| - (|a| + op + 4)) + b[|a| + op + 4..])
  }

  lemma {:induction false} PatchAppends(a: seq<byte>, b: seq<byte>, b': seq<byte>, blank: Instr, jump: Instr, tail: Code)
    requires (blank.Jz? && jump == Jz(Size(tail))) || (blank.Jnz? && jump == Jnz(Size(tail))) || (blank.Jmp? && jump == Jmp(Size(tail)))
    requires Appends(a, b, [blank] + tail) && Patches(a, b, b', if blank.Jmp? then 1 else 2)
    ensures Appends(a, b', [jump] + tail)
  {
    hide EncodeAll, Size, LittleEndian, Encode, I32;
    var op := if blank.Jmp? then 1 else 2;
    SizeConcat([blank], tail);
    SizeConcat([jump], tail);
    EncodeConcat([blank], tail);
    EncodeConcat([jump], tail);
    SingleCode(blank);
    SingleCode(jump);
    JumpBytes(blank, op);
    JumpBytes(jump, op);
    if |a| + Size([jump] + tail) <= CAPACITY {
      Rewritten(a, Encode(blank), Encode(jump), op, EncodeAll(tail), b, b');
    }
  }

  /** A jump is its opcode bytes and its distance. */
  lemma JumpBytes(i: Instr, op: nat)
    requires (i.Jz? || i.Jnz? || i.Jmp?) && op == if i.Jmp? then 1 else 2
    ensures |Encode(i)| == op + 4 && Encode(i)[op..] == I32(i.rel)
    ensures Encode(i)[..op] == if i.Jmp? then [0xE9] else if i.Jz? then [0x0F, 0x84] else [0x0F, 0x85]
  {
    hide LittleEndian;
  }

  /** The operand y[op..] written over that of x. */
  lemma Rewritten(a: seq<byte>, x: seq<byte>, y: seq<byte>, op: nat, code: seq<byte>, b: seq<byte>, b': seq<byte>)
    requires |x| == |y| == op + 4 && x[..op] == y[..op] && b == a + (x + code)
    requires b' == b[..|a| + op] + y[op..] + b[|a| + op + 4..]
    ensures b' == a + (y + code)
  {
    assert b[..|a| + op] == a + y[..op];
    assert b[|a| + op + 4..] == code;
    assert y == y[..op] + y[op..];
  }

  lemma SingleCode(i: Instr)
    ensures EncodeAll([i]) == Encode(i) && Size([i]) == |Encode(i)|
  {
    hide Encode;
    assert [i][1..] == [];
    assert EncodeAll([i]) == Encode(i) + [];
  }

  /** The same in the middle of a stretch, where the blank jump stands after `pre`. */
  lemma PatchInside(a: seq<byte>, s: seq<byte>, b: seq<byte>, b': seq<byte>, blank: Instr, jump: Instr, pre: Code, tail: Code)
    requires (blank.Jz? && jump == Jz(Size(tail))) || (blank.Jnz? && jump == Jnz(Size(tail))) || (blank.Jmp? && jump == Jmp(Size(tail)))
    requires Appends(a, b, pre + ([blank] + tail)) && Patches(s, b, b', if blank.Jmp? then 1 else 2)
    requires |a| + Size(pre + ([blank] + tail)) <= CAPACITY ==> |s| == |a| + Size(pre)
    ensures Appends(a, b', pre + ([jump] + tail))
  {
    hide EncodeAll, Size, Appends, Patches;
    SizeConcat(pre, [blank] + tail);
    SizeConcat(pre, [jump] + tail);
    SizeConcat([blank], tail);
    SizeConcat([jump], tail);
    JumpWidth(blank, jump);
    if |a| + Size(pre + ([blank] + tail)) <= CAPACITY {
      var m := AppendsCut(a, b, pre, [blank] + tail);
      PatchesAt(s, m, b, b', if blank.Jmp? then 1 else 2);
      PatchAppends(m, b, b', blank, jump, tail);
      AppendsMore(a, m, b', pre, [jump] + tail);
    } else {
      Longer(a, b, pre + ([blank] + tail));
      PatchKeepsLength(s, b, b', if blank.Jmp? then 1 else 2);
      Overflows(a, b', pre + ([jump] + tail));
    }
  }

  lemma JumpWidth(i: Instr, j: Instr)
    requires (i.Jz? && j.Jz?) || (i.Jnz? && j.Jnz?) || (i.Jmp? && j.Jmp?)
    ensures Size([i]) == Size([j])
  {
    hide LittleEndian, Decode, Size;
    SingleCode(i);
    SingleCode(j);
  }

  /** Where the first part of an appended stretch ended. */
  lemma AppendsCut(a: seq<byte>, b: seq<byte>, c: Code, d: Code) returns (m: seq<byte>)
    requires Appends(a, b, c + d) && |a| + Size(c + d) <= CAPACITY
    ensures Appends(a, m, c) && Appends(m, b, d) && |m| == |a| + Size(c)
  {
    hide EncodeAll, Size;
    m := a + EncodeAll(c);
    EncodeConcat(c, d);
    SizeEncoded(c);
    SizeEncoded(d);
    assert a + (EncodeAll(c) + EncodeAll(d)) == m + EncodeAll(d);
  }

  lemma PatchesAt(s: seq<byte>, m: seq<byte>, b: seq<byte>, b': seq<byte>, op: nat)
    requires Patches(s, b, b', op) && |m| == |s|
    ensures Patches(m, b, b', op)
  {
  }

  lemma {:induction false} SizeEncoded(c: Code)
    ensures |EncodeAll(c)| == Size(c)
  {
    hide Encode;
    if c != [] { SizeEncoded(c[1..]); }
  }

  /** Appending code that fits adds its size. */
  lemma AppendsSize(a: seq<byte>, b: seq<byte>, c: Code)
    requires Appends(a, b, c) && |a| + Size(c) <= CAPACITY
    ensures |b| == |a| + Size(c)
  {
    hide Size;
    SizeEncoded(c);
  }

  /** cond; test; jz exit; body; jmp cond. */
  lemma {:induction false} WhileAppends(a: seq<byte>, c1: seq<byte>, c2: seq<byte>, c3: seq<byte>, c4: seq<byte>, c5: seq<byte>, b: seq<byte>, cond: Code, body: Code)
    requires Appends(a, c1, cond) && Appends(c1, c2, [TestRaxRax]) && Appends(c2, c3, [Jz(0)]) && Appends(c3, c4, body)
    requires Appends(c4, c5, [Jmp(|a| - (|c4| + JmpSize))]) && Patches(c2, c5, b, 2)
    ensures Appends(a, b, WhileCode(cond, body))
  {
    hide Size, Appends, Patches;
    var skip, back := Size(body) + JmpSize, -(Size(cond) + TestJumpSize + Size(body) + JmpSize);
    var loop := body + [Jmp(back)];
    WhileSizes(cond, body);
    assert WhileCode(cond, body) == cond + [TestRaxRax] + ([Jz(skip)] + loop);
    if |a| + Size(WhileCode(cond, body)) <= CAPACITY {
      AppendsSize(a, c1, cond);
      AppendsSize(c1, c2, [TestRaxRax]);
      AppendsSize(c2, c3, [Jz(0)]);
      AppendsSize(c3, c4, body);
      AppendsMore(c3, c4, c5, body, [Jmp(back)]);
      AppendsMore(c2, c3, c5, [Jz(0)], loop);
      PatchAppends(c2, c5, b, Jz(0), Jz(skip), loop);
      AppendsMore(a, c1, c2, cond, [TestRaxRax]);
      AppendsMore(a, c2, b, cond + [TestRaxRax], [Jz(skip)] + loop);
    } else {
      assert |a| <= |b| by { Longer(a, c1, cond); Longer(c1, c2, [TestRaxRax]); Longer(c2, c3, [Jz(0)]); Longer(c3, c4, body);
                             Longer(c4, c5, [Jmp(|a| - (|c4| + JmpSize))]); PatchKeepsLength(c2, c5, b, 2); }
      Overflows(a, b, WhileCode(cond, body));
    }
  }

  lemma WhileSizes(cond: Code, body: Code)
    ensures var back := -(Size(cond) + TestJumpSize + Size(body) + JmpSize);
            Size(body + [Jmp(back)]) == Size(body) + JmpSize && Size([TestRaxRax]) == 3 && Size([Jz(0)]) == 6 &&
            Size(WhileCode(cond, body)) == Size(cond) + TestJumpSize + Size(body) + JmpSize
  {
    hide Size;
    var skip, back := Size(body) + JmpSize, -(Size(cond) + TestJumpSize + Size(body) + JmpSize);
    JumpSizes(back);
    JumpSizes(skip);
    JzSize();
    SizeConcat(body, [Jmp(back)]);
    SizeConcat(cond + JumpIfZero(skip) + body, [Jmp(back)]);
    SizeConcat(cond + JumpIfZero(skip), body);
    SizeConcat(cond, JumpIfZero(skip));
  }

  lemma JzSize()
    ensures Size([TestRaxRax]) == 3 && Size([Jz(0)]) == 6 && Size([Jnz(0)]) == 6 && Size([Jmp(0)]) == 5
  {
    hide LittleEndian, Decode, Size;
    SingleCode(TestRaxRax);
    SingleCode(Jz(0));
    SingleCode(Jnz(0));
    SingleCode(Jmp(0));
  }

  lemma Longer(a: seq<byte>, b: seq<byte>, c: Code)
    requires Appends(a, b, c)
    ensures |a| <= |b|
  {
  }

  lemma PatchKeepsLength(a: seq<byte>, b: seq<byte>, b': seq<byte>, op: nat)
    requires Patches(a, b, b', op)
    ensures |b'| == |b|
  {
  }

  /** Code that does not fit: nothing is claimed about the bytes. */
  lemma Overflows(a: seq<byte>, b: seq<byte>, c: Code)
    requires |a| <= |b| && |a| + Size(c) > CAPACITY
    ensures Appends(a, b, c)
  {
  }

  /** body; cond; test; jnz back to the body. */
  lemma DoWhileAppends(a: seq<byte>, c1: seq<byte>, c2: seq<byte>, c3: seq<byte>, c4: seq<byte>, b: seq<byte>, body: Code, cond: Code)
    requires Appends(a, c1, body) && Appends(c1, c2, cond) && Appends(c2, c3, [TestRaxRax]) && Appends(c3, c4, [Jnz(0)])
    requires |b| == |c4|
    requires |c3| + 6 <= |c4| ==> b == c4[..|c3| + 2] + I32(|a| - (|c3| + 6)) + c4[|c3| + 6..]
    ensures Appends(a, b, DoWhileCode(body, cond))
  {
    hide Size, Appends, I32;
    var back := -(Size(body) + Size(cond) + TestJumpSize);
    DoWhileSizes(body, cond);
    if |a| + Size(DoWhileCode(body, cond)) <= CAPACITY {
      AppendsSize(a, c1, body);
      AppendsSize(c1, c2, cond);
      AppendsSize(c2, c3, [TestRaxRax]);
      AppendsSize(c3, c4, [Jnz(0)]);
      BackJump(c3, c4, b, back);
      AppendsMore(a, c1, c2, body, cond);
      AppendsMore(a, c2, c3, body + cond, [TestRaxRax]);
      AppendsMore(a, c3, b, body + cond + [TestRaxRax], [Jnz(back)]);
    } else {
      Longer(a, c1, body);
      Longer(c1, c2, cond);
      Longer(c2, c3, [TestRaxRax]);
      Longer(c3, c4, [Jnz(0)]);
      Overflows(a, b, DoWhileCode(body, cond));
    }
  }

  lemma DoWhileSizes(body: Code, cond: Code)
    ensures Size([TestRaxRax]) == 3 && Size([Jnz(0)]) == 6 && Size(DoWhileCode(body, cond)) == Size(body) + Size(cond) + TestJumpSize
  {
    hide Size;
    var back := -(Size(body) + Size(cond) + TestJumpSize);
    JumpSizes(back);
    JzSize();
    SizeConcat(body + cond + [TestRaxRax], [Jnz(back)]);
    SizeConcat(body + cond, [TestRaxRax]);
    SizeConcat(body, cond);
  }

  /** The operand of the jnz just emitted, overwritten. */
  lemma BackJump(a: seq<byte>, b: seq<byte>, b': seq<byte>, rel: int)
    requires Appends(a, b, [Jnz(0)]) && |a| + 6 <= CAPACITY && |b| == |a| + 6
    requires b' == b[..|a| + 2] + I32(rel) + b[|a| + 6..]
    ensures Appends(a, b', [Jnz(rel)])
  {
    hide LittleEndian, Size, EncodeAll;
    JzSize();
    SingleCode(Jnz(0));
    SingleCode(Jnz(rel));
    assert b == a + Encode(Jnz(0));
    assert b[..|a| + 2] == a + [0x0F, 0x85];
    assert b[|a| + 6..] == [];
  }

  /** cond; test; jz over; then. */
  lemma IfAppends(a: seq<byte>, c1: seq<byte>, c2: seq<byte>, c3: seq<byte>, c4: seq<byte>, b: seq<byte>, cond: Code, thn: Code)
    requires Appends(a, c1, cond) && Appends(c1, c2, [TestRaxRax]) && Appends(c2, c3, [Jz(0)]) && Appends(c3, c4, thn)
    requires Patches(c2, c4, b, 2)
    ensures Appends(a, b, IfCode(cond, thn, None))
  {
    hide Size, Appends, Patches;
    var skip := Size(thn);
    assert IfCode(cond, thn, None) == cond + [TestRaxRax] + ([Jz(skip)] + thn);
    AppendsMore(c2, c3, c4, [Jz(0)], thn);
    PatchAppends(c2, c4, b, Jz(0), Jz(skip), thn);
    AppendsMore(a, c1, c2, cond, [TestRaxRax]);
    AppendsMore(a, c2, b, cond + [TestRaxRax], [Jz(skip)] + thn);
  }

  /** cond; test; jz else; then; jmp end; else. The first jump is patched before the else part is emitted. */
  lemma {:induction false} IfElseAppends(a: seq<byte>, c1: seq<byte>, c2: seq<byte>, c3: seq<byte>, c4: seq<byte>, c5: seq<byte>, c6: seq<byte>, c7: seq<byte>,
                      b: seq<byte>, cond: Code, thn: Code, els: Code)
    requires Appends(a, c1, cond) && Appends(c1, c2, [TestRaxRax]) && Appends(c2, c3, [Jz(0)]) && Appends(c3, c4, thn)
    requires Appends(c4, c5, [Jmp(0)]) && Patches(c2, c5, c6, 2) && Appends(c6, c7, els) && Patches(c4, c7, b, 1)
    ensures Appends(a, b, IfCode(cond, thn, Some(els)))
  {
    hide Size, Appends, Patches;
    var skip, over := Size(thn) + JmpSize, Size(els);
    var first := [Jz(skip)] + thn;
    JumpSizes(over);
    JumpWidth(Jmp(0), Jmp(over));
    SizeConcat(thn, [Jmp(0)]);
    AppendsMore(c3, c4, c5, thn, [Jmp(0)]);
    AppendsMore(c2, c3, c5, [Jz(0)], thn + [Jmp(0)]);
    PatchAppends(c2, c5, c6, Jz(0), Jz(skip), thn + [Jmp(0)]);
    AppendsMore(c2, c6, c7, [Jz(skip)] + (thn + [Jmp(0)]), els);
    assert [Jz(skip)] + (thn + [Jmp(0)]) + els == first + ([Jmp(0)] + els);
    ThenEnds(c2, c3, c4, thn, [Jmp(0)] + els, skip);
    PatchInside(c2, c4, c7, b, Jmp(0), Jmp(over), first, els);
    AppendsMore(a, c1, c2, cond, [TestRaxRax]);
    AppendsMore(a, c2, b, cond + [TestRaxRax], first + ([Jmp(over)] + els));
    assert IfCode(cond, thn, Some(els)) == cond + [TestRaxRax] + (first + ([Jmp(over)] + els));
  }

  lemma ThenEnds(c2: seq<byte>, c3: seq<byte>, c4: seq<byte>, thn: Code, rest: Code, skip: int)
    requires Appends(c2, c3, [Jz(0)]) && Appends(c3, c4, thn)
    ensures |c2| + Size([Jz(skip)] + thn + rest) <= CAPACITY ==> |c4| == |c2| + Size([Jz(skip)] + thn)
  {
    hide Size, Appends;
    SizeConcat([Jz(skip)] + thn, rest);
    SizeConcat([Jz(skip)], thn);
    JumpWidth(Jz(0), Jz(skip));
    if |c2| + Size([Jz(skip)] + thn + rest) <= CAPACITY {
      AppendsSize(c2, c3, [Jz(0)]);
      AppendsSize(c3, c4, thn);
    }
  }

  /** jmp body; post; jmp cond; body; jmp post, after a condition of `guard` bytes. */
  function LoopCode(guard: int, post: Code, body: Code): Code {
    [Jmp(Size(post) + JmpSize)] + post + [Jmp(-(Size(post) + JmpSize + JmpSize + guard))] + body
    + [Jmp(-(Size(post) + JmpSize + Size(body) + JmpSize))]
  }

  lemma LoopSizes(guard: int, post: Code, body: Code)
    ensures Size(LoopCode(guard, post, body)) == 3 * JmpSize + Size(post) + Size(body)
  {
    hide Size;
    var p, q := Size(post), Size(body);
    var over, back, again := [Jmp(p + JmpSize)], [Jmp(-(p + JmpSize + JmpSize + guard))], [Jmp(-(p + JmpSize + q + JmpSize))];
    JumpSizes(p + JmpSize);
    JumpSizes(-(p + JmpSize + JmpSize + guard));
    JumpSizes(-(p + JmpSize + q + JmpSize));
    SizeConcat(over + post + back + body, again);
    SizeConcat(over + post + back, body);
    SizeConcat(over + post, back);
    SizeConcat(over, post);
  }

  /** The loop of a for, entered at m; start is where the condition begins. */
  lemma {:induction false} LoopAppends(start: nat, m: seq<byte>, c1: seq<byte>, c2: seq<byte>, c3: seq<byte>, c4: seq<byte>, c5: seq<byte>, b: seq<byte>,
                    guard: nat, post: Code, body: Code)
    requires Appends(m, c1, [Jmp(0)]) && Appends(c1, c2, post) && Appends(c2, c3, [Jmp(start - (|c2| + JmpSize))])
    requires Patches(m, c3, c4, 1) && Appends(c4, c5, body) && Appends(c5, b, [Jmp(|c1| - (|c5| + JmpSize))])
    requires start + guard + Size(LoopCode(guard, post, body)) <= CAPACITY ==> |m| == start + guard
    ensures |m| <= |b|
    ensures start + guard + Size(LoopCode(guard, post, body)) <= CAPACITY ==> Appends(m, b, LoopCode(guard, post, body))
  {
    hide Size, Appends, Patches, LoopCode;
    var p, q := Size(post), Size(body);
    var over, back, again := Jmp(p + JmpSize), Jmp(-(p + JmpSize + JmpSize + guard)), Jmp(-(p + JmpSize + q + JmpSize));
    LoopSizes(guard, post, body);
    Longer(m, c1, [Jmp(0)]);
    Longer(c1, c2, post);
    Longer(c2, c3, [Jmp(start - (|c2| + JmpSize))]);
    PatchKeepsLength(m, c3, c4, 1);
    Longer(c4, c5, body);
    Longer(c5, b, [Jmp(|c1| - (|c5| + JmpSize))]);
    if start + guard + Size(LoopCode(guard, post, body)) <= CAPACITY {
      JzSize();
      AppendsSize(m, c1, [Jmp(0)]);
      AppendsSize(c1, c2, post);
      JumpSizes(back.rel);
      AppendsSize(c2, c3, [back]);
      SizeConcat(post, [back]);
      AppendsMore(c1, c2, c3, post, [back]);
      AppendsMore(m, c1, c3, [Jmp(0)], post + [back]);
      PatchAppends(m, c3, c4, Jmp(0), over, post + [back]);
      AppendsSize(c4, c5, body);
      AppendsMore(m, c4, c5, [over] + (post + [back]), body);
      AppendsMore(m, c5, b, [over] + (post + [back]) + body, [again]);
      assert LoopCode(guard, post, body) == [over] + (post + [back]) + body + [again] by { LoopParts(guard, post, body); }
    }
  }

  lemma LoopParts(guard: int, post: Code, body: Code)
    ensures var p, q := Size(post), Size(body);
            LoopCode(guard, post, body) ==
            [Jmp(p + JmpSize)] + (post + [Jmp(-(p + JmpSize + JmpSize + guard))]) + body + [Jmp(-(p + JmpSize + q + JmpSize))]
  {
    hide Size;
  }

  lemma ForCodeIsLoop(cond: Option<Expr>, post: Code, body: Code, vs: Table)
    ensures ForCode(cond, post, body, vs) ==
            CondCode(cond, Size(LoopCode(CondSize(cond, vs), post, body)), vs) + LoopCode(CondSize(cond, vs), post, body)
  {
    hide Size, CondCode;
    LoopSizes(CondSize(cond, vs), post, body);
  }

  /** A for without a condition. */
  lemma EndlessAppends(a: seq<byte>, b: seq<byte>, post: Code, body: Code, vs: Table)
    requires Appends(a, b, LoopCode(0, post, body))
    ensures Appends(a, b, ForCode(None, post, body, vs))
  {
    hide Size, Appends, LoopCode, ForCode;
    ForCodeIsLoop(None, post, body, vs);
    assert [] + LoopCode(0, post, body) == LoopCode(0, post, body);
  }

  lemma CondSizes(cond: Expr, exit: int, vs: Table)
    ensures CondCode(Some(cond), exit, vs) == CompileExpr(cond, vs) + [TestRaxRax] + [Jz(exit)]
    ensures Size(CondCode(Some(cond), exit, vs)) == CondSize(Some(cond), vs) == Size(CompileExpr(cond, vs)) + 3 + 6
    ensures Size([TestRaxRax]) == 3 && Size([Jz(0)]) == 6
  {
    hide Size, CompileExpr;
    JzSize();
    JumpSizes(exit);
    SizeConcat(CompileExpr(cond, vs), JumpIfZero(exit));
  }

  /** cond; test; jz exit; then the loop; the exit is patched last. */
  lemma {:induction false} GuardedAppends(a: seq<byte>, c1: seq<byte>, c2: seq<byte>, m: seq<byte>, c6: seq<byte>, b: seq<byte>,
                       cond: Expr, post: Code, body: Code, vs: Table)
    requires Appends(a, c1, CompileExpr(cond, vs)) && Appends(c1, c2, [TestRaxRax]) && Appends(c2, m, [Jz(0)]) && |m| <= |c6|
    requires var loop := LoopCode(CondSize(Some(cond), vs), post, body);
             |a| + CondSize(Some(cond), vs) + Size(loop) <= CAPACITY ==> Appends(m, c6, loop)
    requires Patches(c2, c6, b, 2)
    ensures Appends(a, b, ForCode(Some(cond), post, body, vs))
  {
    hide Size, Appends, LoopCode, ForCode, CompileExpr, Patches, CondSize, CondCode;
    var c, loop := CompileExpr(cond, vs), LoopCode(CondSize(Some(cond), vs), post, body);
    var exit := Size(loop);
    ForCodeIsLoop(Some(cond), post, body, vs);
    CondSizes(cond, exit, vs);
    SizeConcat(CondCode(Some(cond), exit, vs), loop);
    if |a| + CondSize(Some(cond), vs) + Size(loop) <= CAPACITY {
      AppendsMore(c2, m, c6, [Jz(0)], loop);
      PatchAppends(c2, c6, b, Jz(0), Jz(exit), loop);
      AppendsMore(a, c1, c2, c, [TestRaxRax]);
      AppendsMore(a, c2, b, c + [TestRaxRax], [Jz(exit)] + loop);
      assert c + [TestRaxRax] + [Jz(exit)] + loop == c + [TestRaxRax] + ([Jz(exit)] + loop);
    } else {
      Longer(a, c1, c);
      Longer(c1, c2, [TestRaxRax]);
      Longer(c2, m, [Jz(0)]);
      PatchKeepsLength(c2, c6, b, 2);
      Overflows(a, b, ForCode(Some(cond), post, body, vs));
    }
  }

  /** Where the loop starts when everything fits. */
  lemma GuardEnds(a: seq<byte>, c1: seq<byte>, c2: seq<byte>, m: seq<byte>, cond: Expr, vs: Table)
    requires Appends(a, c1, CompileExpr(cond, vs)) && Appends(c1, c2, [TestRaxRax]) && Appends(c2, m, [Jz(0)])
    requires |a| + CondSize(Some(cond), vs) <= CAPACITY
    ensures |m| == |a| + CondSize(Some(cond), vs)
  {
    hide Size, Appends, CompileExpr;
    CondSizes(cond, 0, vs);
    AppendsSize(a, c1, CompileExpr(cond, vs));
    AppendsSize(c1, c2, [TestRaxRax]);
    AppendsSize(c2, m, [Jz(0)]);
  }
}
