/** From text to running code: lexer, parser and processor together. */
module Pipeline {
  import opened Words
  import opened Machine
  import opened Syntax
  import opened Meaning
  import opened CodeGen
  import opened Emitter
  import opened Grammar
  import opened Faithful
  import opened Correctness
  import opened Lexer
  import opened Layout
  import opened Accepted
  import opened Parser

  /** src is the program h, laid out as items and a last gap, and h passes the parser's checks. */
  ghost predicate Written(src: string, items: seq<Item>, last: string, h: Stmts) {
    IsLayout(items, last) && |items| <= 1023 && src == Flatten(items, last) &&
    KindsOf(items) == PrintStmts(h) && ShapedStmts(h, TEof) && CheckStmts(h, NoVars).Some?
  }

  /** The variables of a written program. */
  function VarsOf(h: Stmts): Table
    requires CheckStmts(h, NoVars).Some?
  {
    CheckStmts(h, NoVars).value.vars
  }

  /** Every written program is due for the parser once it has been read. */
  lemma WrittenDue(src: string, items: seq<Item>, last: string, h: Stmts)
    requires Written(src, items, last, h)
    ensures Scan(src, 1, 1023).Some? && ProgramDue(Scan(src, 1, 1023).value, h)
  {
    hide Scan, IsLayout, PrintStmts, CheckStmts, ShapedStmts;
    LayoutScans(items, last, 1, 1023);
    LayoutSeen(items, last, 1);
  }

  lemma LayoutSeen(items: seq<Item>, last: string, line: nat)
    ensures Sees(TokensOf(items, last, line), 0, KindsOf(items)) && KindAt(TokensOf(items, last, line), |KindsOf(items)|) == TEof
  {
    hide TokensOf, KindsOf;
    var ts, ks := TokensOf(items, last, line), KindsOf(items);
    TokensKinds(items, last, line);
    forall k | 0 <= k < |ks| ensures ts[0 + k].kind == ks[k] { assert ts[k].kind == KindsOf(items)[k]; }
  }

  /** Text compiled: tokens, then code. Errors of the lexer are forgotten when the parser starts. */
  method CompileText(src: string, ghost items: seq<Item>, ghost last: string, ghost h: Stmts)
    returns (c: Compiler, ghost p: Stmts)
    requires '\0' !in src
    ensures c.Valid()
    ensures Scan(src, 1, 1023).Some? && c.errors == 0 && !c.overrun ==>
              Compiled(Scan(src, 1, 1023).value, p, Env(c.vars, c.inits), c.buf.Bytes())
    ensures Written(src, items, last, h) ==>
              Scan(src, 1, 1023).Some? && c.errors == 0 && p == h && (c.overrun <==> |VarsOf(h)| > 64)
  {
    hide Written, Scan, ProgramDue, Compiled, NumbersFit;
    var lexer := new Scanner(src);
    lexer.Lex();
    c := new Compiler(lexer.tokens);
    p := c.ParseAndCompile(h);
    if Written(src, items, last, h) { WrittenDue(src, items, last, h); }
  }

  /** After n steps from m the code has done what the program means: it has returned the value, faulted on a division, or runs on. */
  ghost predicate DoesAs(code: seq<byte>, p: Stmts, vs: Table, m: Cpu, fuel: nat, n: nat)
    requires FrameSize(vs) >= 0
  {
    var o := Run(code, m, n);
    match Meant(p, vs, m, fuel)
    case Returns(v, _) => ReturnsTo(m, o, v)
    case Traps => o.DivideFault?
    case Timeout => o.Running? && n >= fuel
    case _ => true
  }

  ghost predicate RunsAs(code: seq<byte>, p: Stmts, vs: Table, m: Cpu, fuel: nat)
    requires FrameSize(vs) >= 0
  {
    exists n: nat :: DoesAs(code, p, vs, m, fuel, n)
  }

  /** What a compiled text owes its caller, in every machine state and for every length of run. */
  lemma CompiledRunsAs(ts: seq<Token>, p: Stmts, env: Env, code: seq<byte>, m: Cpu, fuel: nat)
    requires |ts| <= 1024 && Compiled(ts, p, env, code) && FrameSize(env.vars) < TWO_31
    requires SoundStmts(p, env.vars) && Called(m)
    ensures FrameSize(env.vars) >= 0 && RunsAs(code, p, env.vars, m, fuel)
  {
    hide Compiled, CompileProgram, Size, SoundStmts, Run, Meant, ReturnsTo, FrameSize;
    var n := CompiledRuns(ts, p, env, code, m, fuel);
    assert DoesAs(code, p, env.vars, m, fuel, n);
  }

  /** The other direction: the code returns to its caller only when, and only what, the program returns. */
  ghost predicate ReturnsExactly(code: seq<byte>, p: Stmts, vs: Table, m: Cpu)
    requires FrameSize(vs) >= 0
  {
    (forall fuel: nat :: !Meant(p, vs, m, fuel).Wilds?) ==>
      forall r: int :: ReturnsValue(code, m, r) <==> MeansValue(p, vs, m, r)
  }

  lemma CompiledReturnsExactly(ts: seq<Token>, p: Stmts, env: Env, code: seq<byte>, m: Cpu)
    requires |ts| <= 1024 && Compiled(ts, p, env, code) && FrameSize(env.vars) < TWO_31
    requires SoundStmts(p, env.vars) && Called(m)
    ensures FrameSize(env.vars) >= 0 && ReturnsExactly(code, p, env.vars, m)
  {
    hide CompileProgram, Size, SoundStmts, Meant, FrameSize, Representable, ProgramBytes, ReturnsValue, MeansValue, CheckStmts, PrintStmts, ShapedStmts, Sees;
    CheckedLaid(p);
    CompiledRepresentable(ts, p, env, code);
    if forall fuel: nat :: !Meant(p, env.vars, m, fuel).Wilds? {
      forall r: int ensures ReturnsValue(code, m, r) <==> MeansValue(p, env.vars, m, r) { ProgramRunsExactly(p, env.vars, m, r); }
    }
  }

  /**
   * End to end: a program written as text, whatever its layout, is compiled to bytes that do what it means and return only
   * what it returns, if it has at most 64 variables, its short-circuit jumps and pointer steps are harmless and its frame
   * is below 2 GB.
   */
  method CompileWritten(src: string, ghost items: seq<Item>, ghost last: string, ghost h: Stmts) returns (code: seq<byte>)
    requires '\0' !in src && Written(src, items, last, h)
    ensures var vs := VarsOf(h);
            FrameSize(vs) >= 0 &&
            (|vs| <= 64 && SoundStmts(h, vs) && FrameSize(vs) < TWO_31 ==>
              forall m: Cpu :: Called(m) ==> ReturnsExactly(code, h, vs, m) && forall fuel: nat :: RunsAs(code, h, vs, m, fuel))
  {
    hide SoundStmts, CompileProgram, Size, RunsAs, ReturnsExactly, Scan, CheckStmts, CodeBuffer.Bytes, IsLayout, PrintStmts, ShapedStmts;
    var c;
    ghost var p;
    c, p := CompileText(src, items, last, h);
    code := c.Code();
    ghost var ts, env := Scan(src, 1, 1023).value, Env(c.vars, c.inits);
    CheckedLaid(h);
    if |VarsOf(h)| <= 64 && SoundStmts(h, env.vars) && FrameSize(env.vars) < TWO_31 {
      forall m: Cpu | Called(m) ensures ReturnsExactly(code, h, env.vars, m) && forall fuel: nat :: RunsAs(code, h, env.vars, m, fuel) {
        CompiledReturnsExactly(ts, h, env, code, m);
        forall fuel: nat ensures RunsAs(code, h, env.vars, m, fuel) { CompiledRunsAs(ts, h, env, code, m, fuel); }
      }
    }
  }

  /** Every program whose names and numbers can be written, in at most 1023 tokens, has a text. */
  lemma ProgramText(h: Stmts) returns (src: string)
    requires var ks := PrintStmts(h); |ks| <= 1023 && forall i :: 0 <= i < |ks| ==> Writable(ks[i])
    requires ShapedStmts(h, TEof) && CheckStmts(h, NoVars).Some?
    ensures Written(src, Spaced(PrintStmts(h)), "", h)
  {
    hide ShapedStmts, CheckStmts, PrintStmts, IsLayout, Writable;
    src := Flatten(Spaced(PrintStmts(h)), "");
    SpacedLaid(PrintStmts(h));
  }

  // ----- more variables than the table has rows -----

  /** vaa, vab, ..., vzz. */
  function ManyName(i: nat): string
    requires i < 676
  {
    ['v', 'a' + (i / 26) as char, 'a' + (i % 26) as char]
  }

  /** The declarations of the variables i to n - 1. */
  function Many(i: nat, n: nat): Stmts
    requires n <= 676
    decreases n - i
  {
    if i >= n then Nil else Cons(Decl(TInt, ManyName(i), None, None), Many(i + 1, n))
  }

  lemma ManyNames(i: nat, j: nat)
    requires i < 676 && j < 676 && ManyName(i) == ManyName(j)
    ensures i == j
  {
    assert ManyName(i)[1] == ManyName(j)[1] && ManyName(i)[2] == ManyName(j)[2];
  }

  lemma {:induction false} ManyChecked(i: nat, n: nat, env: Env)
    requires i <= n <= 676 && |env.vars| == i && forall k :: 0 <= k < i ==> env.vars[k].name == ManyName(k)
    ensures var r := CheckStmts(Many(i, n), env); r.Some? && |r.value.vars| == n
    ensures ShapedStmts(Many(i, n), TEof) && |PrintStmts(Many(i, n))| == 3 * (n - i)
    ensures forall k :: 0 <= k < |PrintStmts(Many(i, n))| ==> Writable(PrintStmts(Many(i, n))[k])
    decreases n - i
  {
    hide ManyName, IsName, StorageSize;
    if i < n {
      var x := ManyName(i);
      var d := Decl(TInt, x, None, None);
      assert PrintStmt(d) == [TType(BInt), TIdent(x), TSemi];
      if Find(env.vars, x).Some? { ManyNames(i, IndexOf(env.vars, x)); }
      ManyChecked(i + 1, n, CheckStmt(d, env).value);
      ManyWritable(i);
    }
  }

  lemma ManyWritable(i: nat)
    requires i < 676
    ensures Writable(TIdent(ManyName(i))) && Writable(TType(BInt)) && Writable(TSemi)
  {
  }

  /**
   * So for every n up to 341 there is a text with n variables that is compiled without an error, behind the table's end
   * if n > 64: for n == 65 it has 195 tokens.
   */
  lemma ManyVariables(n: nat) returns (src: string)
    requires n <= 341
    ensures Written(src, Spaced(PrintStmts(Many(0, n))), "", Many(0, n)) && |VarsOf(Many(0, n))| == n
    ensures |PrintStmts(Many(0, n))| == 3 * n
  {
    hide PrintStmts, CheckStmts, ShapedStmts, Written, Writable;
    ManyChecked(0, n, NoVars);
    src := ProgramText(Many(0, n));
  }
}
