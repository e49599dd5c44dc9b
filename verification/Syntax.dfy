/** Types, variables and abstract syntax of the C dialect, one constructor per production of the parser. */
module Syntax {
  import opened Words

  datatype Option<+T> = None | Some(value: T)

  datatype BaseType =
    | BChar | BInt | BInt8 | BInt16 | BInt32 | BInt64
    | BUInt8 | BUInt16 | BUInt32 | BUInt64 | BUIntPtr | BIntPtr
  {
    function Width(): Width {
      match this
      case BChar => W8 case BInt8 => W8 case BUInt8 => W8
      case BInt16 => W16 case BUInt16 => W16
      case BInt => W32 case BInt32 => W32 case BUInt32 => W32
      case _ => W64
    }

    predicate Signed() {
      BChar? || BInt? || BInt8? || BInt16? || BInt32? || BInt64? || BIntPtr?
    }

    function Bytes(): (n: nat)
      ensures 1 <= n <= 8
    {
      Width().Bytes()
    }
  }

  datatype Type = Type(base: BaseType, isPtr: bool) {
    /** Width of a value of the type: pointers take 8 bytes. */
    function Width(): Width {
      if isPtr then W64 else base.Width()
    }
  }

  const TInt := Type(BInt, false)

  /** A row of the variable table. elems is 0 for scalars; offset is the distance of the variable below rbp. */
  datatype VarInfo = VarInfo(name: string, offset: int, ty: Type, elems: nat) {
    predicate IsArray() {
      elems > 0
    }
  }

  type Table = seq<VarInfo>

  /** The variable table has 64 rows. Nothing stops the compiler from filling a 65th. */
  const MAX_VARS: nat := 64

  /** The token table has one row more, for the end. */
  const MAX_TOKENS: nat := 1023

  function IndexOf(vs: Table, x: string): (i: int)
    ensures -1 <= i < |vs|
    ensures i >= 0 ==> vs[i].name == x && forall j :: 0 <= j < i ==> vs[j].name != x
    ensures i == -1 ==> forall j :: 0 <= j < |vs| ==> vs[j].name != x
  {
    if vs == [] then -1
    else if vs[0].name == x then 0
    else
      var i := IndexOf(vs[1..], x);
      if i < 0 then -1
      else
        assert forall j :: 0 < j <= i ==> vs[j] == vs[1..][j - 1];
        i + 1
  }

  function Find(vs: Table, x: string): Option<VarInfo> {
    var i := IndexOf(vs, x);
    if i < 0 then None else Some(vs[i])
  }

  datatype Tok =
    | TType(b: BaseType)
    | TReturn | TIf | TElse | TWhile | TDo | TFor
    | TIdent(name: string) | TNumber(v: int)
    | TAssign | TPlusEq | TMinusEq | TStarEq | TSlashEq | TPercentEq
    | TEq | TNeq | TLt | TGt | TLeq | TGeq
    | TPlus | TMinus | TStar | TSlash | TPercent
    | TAmp | TAnd | TPipe | TOr | TNot | TPlusPlus | TMinusMinus
    | TSemi | TLParen | TRParen | TLBracket | TRBracket | TLBrace | TRBrace
    | TEof | TUnknown

  datatype Token = Token(kind: Tok, line: int)

  /** The values of number tokens are 64-bit. */
  predicate NumbersFit(ts: seq<Token>) {
    forall i :: 0 <= i < |ts| ==> NumberFits(ts[i].kind)
  }

  predicate NumberFits(k: Tok) {
    k.TNumber? ==> IsWord(k.v)
  }

  datatype BinOp = Mul | Div | Mod | Add | Sub | Lt | Gt | Le | Ge | Eq | Ne

  datatype Expr =
    | Num(v: int)
    | Name(x: string)
    | Index(x: string, i: Expr)
    | Bump(x: string, up: bool, post: bool)          // ++x, --x, x++, x--
    | Cast(ty: Type, e: Expr)
    | Not(e: Expr)
    | Neg(e: Expr)
    | Deref(e: Expr)
    | AddrOf(x: string)
    | Paren(e: Expr)
    | Bin(op: BinOp, l: Expr, r: Expr)
    | And(l: Expr, r: Expr)
    | Or(l: Expr, r: Expr)

  datatype AssignOp = Set | AddTo | SubFrom | MulBy | DivBy | ModBy

  datatype Stmt =
    | Decl(ty: Type, x: string, size: Option<int>, init: Option<Expr>)
    | Assign(x: string, op: AssignOp, e: Expr)        // x = e; x op= e;
    | StoreIndex(x: string, i: Expr, e: Expr)         // x[i] = e;
    | StoreThrough(x: string, e: Expr)                // *x = e;
    | BumpStmt(x: string, up: bool, post: bool)
    | Return(result: Option<Expr>)
    | If(c: Expr, thn: Block, els: Option<Block>)
    | While(c: Expr, body: Block)
    | DoWhile(body: Block, c: Expr)
    | For(first: ForInit, cond: Option<Expr>, step: ForPost, body: Block)
    | Skipped(x: string, ks: seq<Tok>, closed: bool)    // x starts no statement: everything up to the next semicolon

  datatype Block = Braces(ss: Stmts) | One(s: Stmt)

  datatype Stmts = Nil | Cons(head: Stmt, tail: Stmts)

  datatype ForInit =
    | NoInit
    | InitDecl(ty: Type, x: string, size: Option<int>, init: Option<Expr>)
    | InitAssign(x: string, op: AssignOp, e: Expr)
    | InitExpr(e: Expr)

  /** The parser accepts, and compiles to nothing, a lone ++ (PostBare) and ++ on a name that is not a declared scalar (PostIgnored). */
  datatype ForPost =
    | NoPost
    | PostBump(x: string, up: bool, post: bool)
    | PostBare(up: bool)
    | PostIgnored(x: string, up: bool, post: bool)
    | PostAssign(x: string, op: AssignOp, e: Expr)
    | PostExpr(e: Expr)

  // ----- static types of expressions -----

  function TypeOfVar(v: VarInfo): Type {
    if v.IsArray() then Type(v.ty.base, true) else v.ty
  }

  function TypeOfName(vs: Table, x: string): Type {
    match Find(vs, x) case None => TInt case Some(v) => TypeOfVar(v)
  }

  function TypeOfSum(op: BinOp, tl: Type, tr: Type): Type {
    if tl.isPtr && !tr.isPtr then tl
    else if !tl.isPtr && tr.isPtr && op == Add then tr
    else TInt
  }

  function TypeOf(e: Expr, vs: Table): Type {
    match e
    case Name(x) => TypeOfName(vs, x)
    case Index(x, _) => Type(TypeOfName(vs, x).base, false)
    case Bump(x, _, _) => TypeOfName(vs, x)
    case Cast(t, _) => t
    case Deref(e1) => Type(TypeOf(e1, vs).base, false)
    case AddrOf(x) => Type(TypeOfName(vs, x).base, true)
    case Paren(e1) => TypeOf(e1, vs)
    case Bin(op, l, r) =>
      if op == Add || op == Sub then TypeOfSum(op, TypeOf(l, vs), TypeOf(r, vs)) else TInt
    case _ => TInt
  }

  // ----- frame layout -----

  function AlignUp(n: int, k: int): int
    requires k > 0
  {
    (n + k - 1) / k * k
  }

  function StorageSize(t: Type, elems: nat): (n: int)
    ensures n >= 8 && n % 8 == 0
    ensures n >= t.base.Bytes() * (if elems > 0 then elems else 1)
  {
    var total := t.base.Bytes() * (if elems > 0 then elems else 1);
    AlignUp(if total < 8 then 8 else total, 8)
  }

  /** Bytes of the frame taken by the variables of the table. */
  function FrameUsed(vs: Table): (n: int) {
    if vs == [] then 0 else vs[|vs| - 1].offset
  }

  /** The frame is rounded up to 16 bytes and never empty. */
  function FrameSize(vs: Table): (n: int)
    ensures n >= FrameUsed(vs)
    ensures FrameUsed(vs) >= 0 ==> n >= 16 && n % 16 == 0
  {
    var used := FrameUsed(vs);
    var up := if used % 16 != 0 then used + (16 - used % 16) else used;
    if up == 0 then 16 else up
  }

  function NewVar(vs: Table, x: string, t: Type, elems: nat): VarInfo {
    VarInfo(x, FrameUsed(vs) + StorageSize(t, elems), t, elems)
  }

  /** The array length a literal denotes: the source truncates it to a 32-bit int. */
  function ArrayLength(size: Option<int>): int {
    match size case None => 0 case Some(n) => Truncate(n, W32, true)
  }

  /** Tables built by allocation: names distinct, offsets stacked one after the other. */
  predicate WellLaid(vs: Table) {
    forall k :: 0 <= k < |vs| ==>
      vs[k].offset == FrameUsed(vs[..k]) + StorageSize(vs[k].ty, vs[k].elems) && IndexOf(vs[..k], vs[k].name) < 0
  }
}
