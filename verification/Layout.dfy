/** Texts as tokens laid out with gaps between them: the lexer reads back exactly such texts. */
module Layout {
  import opened Words
  import opened Syntax
  import opened Lexer

  // ----- how each token is spelled -----

  predicate IsKeyword(k: Tok) {
    k.TType? || k in {TReturn, TIf, TElse, TWhile, TDo, TFor}
  }

  function KeywordText(k: Tok): string
    requires IsKeyword(k)
  {
    match k
    case TReturn => "return" case TIf => "if" case TElse => "else" case TWhile => "while" case TDo => "do" case TFor => "for"
    case TType(b) =>
      match b
      case BChar => "char" case BInt => "int"
      case BInt8 => "int8_t" case BInt16 => "int16_t" case BInt32 => "int32_t" case BInt64 => "int64_t"
      case BUInt8 => "uint8_t" case BUInt16 => "uint16_t" case BUInt32 => "uint32_t" case BUInt64 => "uint64_t"
      case BUIntPtr => "uintptr_t" case BIntPtr => "intptr_t"
  }

  function SymbolText(k: Tok): string {
    match k
    case TAssign => "=" case TPlusEq => "+=" case TMinusEq => "-=" case TStarEq => "*=" case TSlashEq => "/=" case TPercentEq => "%="
    case TEq => "==" case TNeq => "!=" case TLt => "<" case TGt => ">" case TLeq => "<=" case TGeq => ">="
    case TPlus => "+" case TMinus => "-" case TStar => "*" case TSlash => "/" case TPercent => "%"
    case TAmp => "&" case TAnd => "&&" case TPipe => "|" case TOr => "||" case TNot => "!" case TPlusPlus => "++" case TMinusMinus => "--"
    case TSemi => ";" case TLParen => "(" case TRParen => ")" case TLBracket => "[" case TRBracket => "]"
    case TLBrace => "{" case TRBrace => "}"
    case _ => ""
  }

  predicate IsSymbol(k: Tok) {
    SymbolText(k) != ""
  }

  /** A letter and then letters and digits, 31 at most. */
  predicate IsWordText(w: string) {
    0 < |w| <= MAX_NAME && IsAlpha(w[0]) && forall i :: 0 <= i < |w| ==> IsAlnum(w[i])
  }

  ghost predicate IsName(w: string) {
    IsWordText(w) && forall k: Tok :: IsKeyword(k) ==> KeywordText(k) != w
  }

  /** Decimal, hexadecimal, 'c' or '\c'. */
  predicate SpellsNumber(w: string, v: int) {
    (w != "" && (forall i :: 0 <= i < |w| ==> IsDigit(w[i])) && v == Numeral(w, 10, 0)) ||
    (|w| >= 2 && w[0] == '0' && IsHexMark(w[1]) && (forall i :: 2 <= i < |w| ==> IsHexDigit(w[i])) && v == Numeral(w[2..], 16, 0)) ||
    (|w| == 3 && w[0] == '\'' && w[1] != '\\' && w[2] == '\'' && v == w[1] as int % 0x100) ||
    (|w| == 4 && w[0] == '\'' && w[1] == '\\' && w[3] == '\'' && v == Escape(w[2]))
  }

  ghost predicate Spells(w: string, k: Tok) {
    match k
    case TIdent(x) => w == x && IsName(w)
    case TNumber(v) => SpellsNumber(w, v)
    case _ => if IsKeyword(k) then w == KeywordText(k) else IsSymbol(k) && w == SymbolText(k)
  }

  /** c after the text does not lengthen or change the token. */
  predicate Ends(w: string, k: Tok, c: char) {
    match k
    case TIdent(_) => !IsAlnum(c) || |w| == MAX_NAME
    case TNumber(_) =>
      w != "" && (w[0] == '\'' || (if |w| >= 2 && IsHexMark(w[1]) then !IsHexDigit(c) else !IsDigit(c) && (w == "0" ==> !IsHexMark(c))))
    case TPlus => c != '+' && c != '='
    case TMinus => c != '-' && c != '='
    case TStar => c != '=' case TPercent => c != '=' case TAssign => c != '=' case TNot => c != '=' case TLt => c != '=' case TGt => c != '='
    case TSlash => c != '=' && c != '/'
    case TAmp => c != '&'
    case TPipe => c != '|'
    case _ => IsKeyword(k) ==> !IsAlnum(c)
  }

  // ----- gaps and layouts -----

  /** Blanks and comments up to the end of their lines; only the last gap may end inside a comment. */
  predicate IsGap(g: string, last: bool)
    decreases |g|
  {
    if g == "" then true
    else if IsBlank(g[0]) then IsGap(g[1..], last)
    else StartsComment(g) && (last || LineEnd(g) < |g|) && IsGap(g[LineEnd(g)..], last)
  }

  /** A token with the gap before it. */
  datatype Item = Item(gap: string, text: string, kind: Tok)

  function Flatten(items: seq<Item>, last: string): string {
    if items == [] then last else items[0].gap + (items[0].text + Flatten(items[1..], last))
  }

  ghost predicate IsLayout(items: seq<Item>, last: string) {
    if items == [] then IsGap(last, true)
    else
      IsGap(items[0].gap, false) && Spells(items[0].text, items[0].kind) &&
      Ends(items[0].text, items[0].kind, At(Flatten(items[1..], last), 0)) && IsLayout(items[1..], last)
  }

  function Newlines(s: string): nat {
    if s == "" then 0 else (if s[0] == '\n' then 1 else 0) + Newlines(s[1..])
  }

  /** Each token on the line it stands on, and the end on the last line. A line break inside a literal does not count. */
  function TokensOf(items: seq<Item>, last: string, line: nat): seq<Token> {
    if items == [] then [Token(TEof, line + Newlines(last))]
    else
      var l := line + Newlines(items[0].gap);
      [Token(items[0].kind, l)] + TokensOf(items[1..], last, l)
  }

  // ----- keywords -----

  lemma KeywordKind(k: Tok)
    requires IsKeyword(k)
    ensures WordKind(KeywordText(k)) == k
  {
    hide WordKind, KeywordText;
    if !k.TType? {
      StatementKind(k);
    } else if k.b in {BChar, BInt, BInt8, BInt16, BInt32, BInt64} {
      SignedKind(k.b);
    } else if k.b in {BUInt8, BUInt16, BUInt32} {
      UnsignedKind(k.b);
    } else {
      WideKind(k.b);
    }
  }

  lemma StatementKind(k: Tok)
    requires k in {TReturn, TIf, TElse, TWhile, TDo, TFor}
    ensures WordKind(KeywordText(k)) == k
  {
  }

  lemma SignedKind(b: BaseType)
    requires b in {BChar, BInt, BInt8, BInt16, BInt32, BInt64}
    ensures WordKind(KeywordText(TType(b))) == TType(b)
  {
  }

  lemma UnsignedKind(b: BaseType)
    requires b in {BUInt8, BUInt16, BUInt32}
    ensures WordKind(KeywordText(TType(b))) == TType(b)
  {
  }

  lemma WideKind(b: BaseType)
    requires b !in {BChar, BInt, BInt8, BInt16, BInt32, BInt64} && b !in {BUInt8, BUInt16, BUInt32}
    ensures WordKind(KeywordText(TType(b))) == TType(b)
  {
  }

  lemma WordKindText(w: string)
    ensures WordKind(w) == TIdent(w) || (IsKeyword(WordKind(w)) && KeywordText(WordKind(w)) == w)
  {
    hide WordKind, KeywordText;
    var k := WordKind(w);
    if !k.TType? { StatementText(w); }
    else if k.b in {BChar, BInt, BInt8, BInt16, BInt32, BInt64} { SignedText(w); }
    else { UnsignedText(w); }
  }

  lemma StatementText(w: string)
    requires !WordKind(w).TType?
    ensures WordKind(w) == TIdent(w) || (IsKeyword(WordKind(w)) && KeywordText(WordKind(w)) == w)
  {
  }

  lemma SignedText(w: string)
    requires WordKind(w).TType? && WordKind(w).b in {BChar, BInt, BInt8, BInt16, BInt32, BInt64}
    ensures KeywordText(WordKind(w)) == w
  {
  }

  lemma UnsignedText(w: string)
    requires WordKind(w).TType? && WordKind(w).b !in {BChar, BInt, BInt8, BInt16, BInt32, BInt64}
    ensures KeywordText(WordKind(w)) == w
  {
  }

  lemma NameKind(w: string)
    requires IsName(w)
    ensures WordKind(w) == TIdent(w)
  {
    hide WordKind, KeywordText;
    WordKindText(w);
  }

  // ----- runs of letters and digits -----

  lemma {:induction false} WordRun(w: string, rest: string, limit: nat)
    requires |w| <= limit && (forall i :: 0 <= i < |w| ==> IsAlnum(w[i])) && (|w| == limit || !IsAlnum(At(rest, 0)))
    ensures WordLength(w + rest, limit) == |w|
  {
    if w == "" {
      assert w + rest == rest;
    } else {
      assert (w + rest)[1..] == w[1..] + rest;
      WordRun(w[1..], rest, limit - 1);
    }
  }

  lemma {:induction false} WordRunBack(s: string, limit: nat)
    ensures var n := WordLength(s, limit);
            (forall i :: 0 <= i < n ==> IsAlnum(s[i])) && (n == limit || !IsAlnum(At(s, n)))
  {
    if limit > 0 && s != "" && IsAlnum(s[0]) {
      WordRunBack(s[1..], limit - 1);
      var n := WordLength(s[1..], limit - 1);
      forall i | 0 <= i < n + 1 ensures IsAlnum(s[i]) { if i > 0 { assert s[i] == s[1..][i - 1]; } }
    }
  }

  lemma {:induction false} DigitRun(w: string, rest: string)
    requires (forall i :: 0 <= i < |w| ==> IsDigit(w[i])) && !IsDigit(At(rest, 0))
    ensures DigitsLength(w + rest) == |w|
  {
    if w == "" {
      assert w + rest == rest;
    } else {
      assert (w + rest)[1..] == w[1..] + rest;
      DigitRun(w[1..], rest);
    }
  }

  lemma {:induction false} DigitRunBack(s: string)
    ensures var n := DigitsLength(s); (forall i :: 0 <= i < n ==> IsDigit(s[i])) && !IsDigit(At(s, n))
  {
    if s != "" && IsDigit(s[0]) {
      DigitRunBack(s[1..]);
      var n := DigitsLength(s[1..]);
      forall i | 0 <= i < n + 1 ensures IsDigit(s[i]) { if i > 0 { assert s[i] == s[1..][i - 1]; } }
    }
  }

  lemma {:induction false} HexRun(w: string, rest: string)
    requires (forall i :: 0 <= i < |w| ==> IsHexDigit(w[i])) && !IsHexDigit(At(rest, 0))
    ensures HexLength(w + rest) == |w|
  {
    if w == "" {
      assert w + rest == rest;
    } else {
      assert (w + rest)[1..] == w[1..] + rest;
      HexRun(w[1..], rest);
    }
  }

  lemma {:induction false} HexRunBack(s: string)
    ensures var n := HexLength(s); (forall i :: 0 <= i < n ==> IsHexDigit(s[i])) && !IsHexDigit(At(s, n))
  {
    if s != "" && IsHexDigit(s[0]) {
      HexRunBack(s[1..]);
      var n := HexLength(s[1..]);
      forall i | 0 <= i < n + 1 ensures IsHexDigit(s[i]) { if i > 0 { assert s[i] == s[1..][i - 1]; } }
    }
  }

  // ----- one token -----

  /** A spelled token that the text after it leaves alone is what the lexer reads. */
  predicate ReadsAs(w: string, k: Tok, rest: string) {
    w != "" && !IsBlank(w[0]) && !StartsComment(w + rest) && LexemeAt(w + rest) == Some((k, |w|))
  }

  lemma WordReads(w: string, rest: string)
    requires IsWordText(w) && (|w| == MAX_NAME || !IsAlnum(At(rest, 0)))
    ensures ReadsAs(w, WordKind(w), rest)
  {
    hide WordKind, WordLength;
    WordRun(w, rest, MAX_NAME);
    assert (w + rest)[..|w|] == w;
  }

  lemma KeywordReads(k: Tok, rest: string)
    requires IsKeyword(k) && !IsAlnum(At(rest, 0))
    ensures ReadsAs(KeywordText(k), k, rest)
  {
    hide ReadsAs, WordKind;
    KeywordKind(k);
    WordReads(KeywordText(k), rest);
  }

  lemma NumberReads(w: string, v: int, rest: string)
    requires SpellsNumber(w, v) && Ends(w, TNumber(v), At(rest, 0))
    ensures ReadsAs(w, TNumber(v), rest)
  {
    hide Numeral, Escape, HexLength, DigitsLength;
    var s := w + rest;
    if w[0] == '\'' {
    } else if |w| >= 2 && w[0] == '0' && IsHexMark(w[1]) {
      assert s[2..] == w[2..] + rest;
      HexRun(w[2..], rest);
      assert s[2..|w|] == w[2..];
    } else {
      DigitRun(w, rest);
      assert s[..|w|] == w;
      if |w| == 1 { assert At(s, 1) == At(rest, 0); } else { assert At(s, 1) == w[1]; }
    }
  }

  lemma SymbolReads(k: Tok, rest: string)
    requires !k.TIdent? && !k.TNumber? && !IsKeyword(k) && IsSymbol(k) && Ends(SymbolText(k), k, At(rest, 0))
    ensures ReadsAs(SymbolText(k), k, rest)
  {
    var w := SymbolText(k);
    var s := w + rest;
    assert s[0] == w[0] && At(s, 1) == if |w| == 2 then w[1] else At(rest, 0);
  }

  lemma LexemeReads(w: string, k: Tok, rest: string)
    requires Spells(w, k) && Ends(w, k, At(rest, 0))
    ensures ReadsAs(w, k, rest)
  {
    hide ReadsAs, SpellsNumber, KeywordText, SymbolText, WordKind;
    match k {
      case TIdent(x) => NameKind(w); WordReads(w, rest);
      case TNumber(v) => NumberReads(w, v, rest);
      case _ => if IsKeyword(k) { KeywordReads(k, rest); } else { SymbolReads(k, rest); }
    }
  }

  // ----- and back -----

  lemma WordSpelled(s: string)
    requires s != "" && IsAlpha(s[0])
    ensures var n := WordLength(s, MAX_NAME);
            Spells(s[..n], WordKind(s[..n])) && Ends(s[..n], WordKind(s[..n]), At(s[n..], 0))
  {
    hide WordKind, KeywordText;
    var n := WordLength(s, MAX_NAME);
    var w := s[..n];
    WordRunBack(s, MAX_NAME);
    assert At(s[n..], 0) == At(s, n);
    WordKindText(w);
    if WordKind(w) == TIdent(w) { NotKeyword(w); } else { KeywordShort(WordKind(w)); }
  }

  lemma NotKeyword(w: string)
    requires WordKind(w) == TIdent(w)
    ensures forall k: Tok :: IsKeyword(k) ==> KeywordText(k) != w
  {
    hide WordKind, KeywordText;
    forall k: Tok | IsKeyword(k) ensures KeywordText(k) != w { KeywordKind(k); }
  }

  lemma KeywordShort(k: Tok)
    requires IsKeyword(k)
    ensures |KeywordText(k)| < MAX_NAME
  {
  }

  lemma NumberSpelled(s: string)
    requires s != "" && IsDigit(s[0])
    ensures var (k, n) := NumberAt(s); Spells(s[..n], k) && Ends(s[..n], k, At(s[n..], 0))
  {
    hide Numeral, Escape, HexLength, DigitsLength;
    var (k, n) := NumberAt(s);
    var w := s[..n];
    assert At(s[n..], 0) == At(s, n);
    if s[0] == '0' && IsHexMark(At(s, 1)) {
      HexRunBack(s[2..]);
      assert At(s[2..], n - 2) == At(s, n);
      forall i | 2 <= i < n ensures IsHexDigit(w[i]) { assert w[i] == s[2..][i - 2]; }
      assert w[2..] == s[2..n];
    } else {
      DigitRunBack(s);
      DigitsFirst(s);
      if n > 1 { assert w[1] == s[1]; }
    }
  }

  lemma DigitsFirst(s: string)
    requires s != "" && IsDigit(s[0])
    ensures DigitsLength(s) >= 1
  {
  }

  lemma SymbolSpelled(s: string)
    requires s != "" && !StartsComment(s) && SymbolAt(s).Some?
    ensures var (k, n) := SymbolAt(s).value; Spells(s[..n], k) && Ends(s[..n], k, At(s[n..], 0))
  {
    hide SymbolAt, SymbolText, Ends;
    var (k, n) := SymbolAt(s).value;
    SymbolWritten(s);
    SymbolEnds(s);
    assert At(s[n..], 0) == At(s, n);
  }

  lemma SymbolWritten(s: string)
    requires s != "" && SymbolAt(s).Some?
    ensures var (k, n) := SymbolAt(s).value; SymbolText(k) == s[..n] && !IsKeyword(k) && !k.TIdent? && !k.TNumber?
  {
    hide SymbolAt, SymbolText;
    if SymbolAt(s).value.1 == 2 { LongSymbol(s); } else { ShortSymbol(s); }
  }

  lemma LongSymbol(s: string)
    requires s != "" && SymbolAt(s).Some? && SymbolAt(s).value.1 == 2
    ensures var (k, n) := SymbolAt(s).value; SymbolText(k) == s[..n] && !IsKeyword(k) && !k.TIdent? && !k.TNumber?
  {
    assert s[..2] == [s[0], s[1]];
  }

  lemma ShortSymbol(s: string)
    requires s != "" && SymbolAt(s).Some? && SymbolAt(s).value.1 != 2
    ensures var (k, n) := SymbolAt(s).value; SymbolText(k) == s[..n] && !IsKeyword(k) && !k.TIdent? && !k.TNumber?
  {
    assert s[..1] == [s[0]];
  }

  lemma SymbolEnds(s: string)
    requires s != "" && !StartsComment(s) && SymbolAt(s).Some?
    ensures var (k, n) := SymbolAt(s).value; Ends(s[..n], k, At(s, n))
  {
    assert StartsComment(s) <==> s[0] == '/' && At(s, 1) == '/';
  }

  lemma LexemeSpelled(s: string)
    requires s != "" && !StartsComment(s) && LexemeAt(s).Some?
    ensures var (k, n) := LexemeAt(s).value; Spells(s[..n], k) && Ends(s[..n], k, At(s[n..], 0))
  {
    hide WordKind, KeywordText, WordLength, NumberAt, Spells, Ends, SymbolAt;
    if IsAlpha(s[0]) { WordSpelled(s); }
    else if IsDigit(s[0]) { NumberSpelled(s); }
    else if s[0] == '\'' { CharSpelled(s); }
    else { SymbolSpelled(s); }
  }

  lemma CharSpelled(s: string)
    requires s != "" && s[0] == '\'' && CharAt(s).Some?
    ensures var (k, n) := CharAt(s).value; Spells(s[..n], k) && Ends(s[..n], k, At(s[n..], 0))
  {
    hide Numeral, Escape;
  }

  // ----- gaps -----

  lemma {:induction false} GapScans(g: string, rest: string, line: nat, room: nat)
    requires IsGap(g, false)
    ensures Scan(g + rest, line, room) == Scan(rest, line + Newlines(g), room)
    decreases |g|
  {
    hide Scan, IsBlank;
    if g == "" {
      assert g + rest == rest;
    } else if IsBlank(g[0]) {
      BlankScans(g, rest, line, room);
      GapScans(g[1..], rest, if g[0] == '\n' then line + 1 else line, room);
    } else {
      CommentScans(g, rest, line, room);
      NewlinesSplit(g, LineEnd(g));
      GapScans(g[LineEnd(g)..], rest, line, room);
    }
  }

  lemma BlankScans(g: string, rest: string, line: nat, room: nat)
    requires g != "" && IsBlank(g[0])
    ensures Scan(g + rest, line, room) == Scan(g[1..] + rest, if g[0] == '\n' then line + 1 else line, room)
  {
    hide LexemeAt;
    assert (g + rest)[1..] == g[1..] + rest;
  }

  lemma CommentScans(g: string, rest: string, line: nat, room: nat)
    requires g != "" && !IsBlank(g[0]) && StartsComment(g) && LineEnd(g) < |g|
    ensures Scan(g + rest, line, room) == Scan(g[LineEnd(g)..] + rest, line, room)
  {
    hide LexemeAt, IsBlank;
    LineEndIn(g, rest);
    assert (g + rest)[LineEnd(g)..] == g[LineEnd(g)..] + rest;
  }

  lemma {:induction false} LineEndIn(g: string, rest: string)
    requires LineEnd(g) < |g|
    ensures LineEnd(g + rest) == LineEnd(g)
  {
    if g[0] != '\n' {
      assert (g + rest)[1..] == g[1..] + rest;
      LineEndIn(g[1..], rest);
    }
  }

  /** No line break before position n. */
  lemma {:induction false} NewlinesSplit(g: string, n: nat)
    requires n <= |g| && '\n' !in g[..n]
    ensures Newlines(g) == Newlines(g[n..])
  {
    if n > 0 {
      assert g[0] in g[..n];
      assert g[1..][n - 1..] == g[n..];
      assert forall c :: c in g[1..][..n - 1] ==> c in g[..n];
      NewlinesSplit(g[1..], n - 1);
    }
  }

  lemma {:induction false} LastGapScans(g: string, line: nat, room: nat)
    requires IsGap(g, true)
    ensures Scan(g, line, room) == Some([Token(TEof, line + Newlines(g))])
    decreases |g|
  {
    if g != "" {
      if IsBlank(g[0]) {
        LastGapScans(g[1..], if g[0] == '\n' then line + 1 else line, room);
      } else {
        NewlinesSplit(g, LineEnd(g));
        LastGapScans(g[LineEnd(g)..], line, room);
      }
    }
  }

  // ----- whole texts -----

  /** Round trip: every layout of at most room tokens is read back as its tokens, each on its line, and the end. */
  lemma {:induction false} LayoutScans(items: seq<Item>, last: string, line: nat, room: nat)
    requires IsLayout(items, last) && |items| <= room
    ensures Scan(Flatten(items, last), line, room) == Some(TokensOf(items, last, line))
    decreases |items|
  {
    hide LexemeAt, Spells, Ends, StartsComment;
    if items == [] {
      LastGapScans(last, line, room);
    } else {
      var i, rest := items[0], Flatten(items[1..], last);
      var l := line + Newlines(i.gap);
      GapScans(i.gap, i.text + rest, line, room);
      LexemeReads(i.text, i.kind, rest);
      assert (i.text + rest)[|i.text|..] == rest;
      LayoutScans(items[1..], last, l, room - 1);
    }
  }

  /** A blank, or a comment up to the end of its line. */
  predicate IsGapPiece(pre: string, next: string) {
    (|pre| == 1 && IsBlank(pre[0])) || (StartsComment(pre) && '\n' !in pre && (next != "" ==> next[0] == '\n'))
  }

  lemma {:induction false} LineEndAfter(pre: string, g: string)
    requires '\n' !in pre && (g != "" ==> g[0] == '\n')
    ensures LineEnd(pre + g) == |pre|
  {
    if pre == "" {
      assert pre + g == g;
    } else {
      assert (pre + g)[1..] == pre[1..] + g;
      LineEndAfter(pre[1..], g);
    }
  }

  lemma PieceInFront(pre: string, g: string, last: bool)
    requires IsGap(g, last) && IsGapPiece(pre, g) && (StartsComment(pre) && g == "" ==> last)
    ensures IsGap(pre + g, last)
  {
    if IsBlank(pre[0]) {
      assert (pre + g)[1..] == g;
    } else {
      LineEndAfter(pre, g);
      assert (pre + g)[|pre|..] == g;
    }
  }

  lemma {:induction false} NewlinesAdd(a: string, b: string)
    ensures Newlines(a + b) == Newlines(a) + Newlines(b)
  {
    if a == "" {
      assert a + b == b;
    } else {
      assert (a + b)[1..] == a[1..] + b;
      NewlinesAdd(a[1..], b);
    }
  }

  /** A blank or a comment in front of a layout becomes part of its first gap. */
  lemma GapLonger(pre: string, items: seq<Item>, last: string, line: nat) returns (items': seq<Item>, last': string)
    requires IsLayout(items, last) && IsGapPiece(pre, Flatten(items, last))
    ensures IsLayout(items', last') && |items'| == |items| && Flatten(items', last') == pre + Flatten(items, last)
    ensures TokensOf(items', last', line) == TokensOf(items, last, line + Newlines(pre))
  {
    hide IsLayout, IsGapPiece, Flatten, TokensOf, Newlines;
    if items == [] {
      items', last' := [], pre + last;
      LastLonger(pre, last, line);
    } else {
      items', last' := [items[0].(gap := pre + items[0].gap)] + items[1..], last;
      FirstLonger(pre, items, last, line);
    }
  }

  lemma LastLonger(pre: string, last: string, line: nat)
    requires IsLayout([], last) && IsGapPiece(pre, Flatten([], last))
    ensures IsLayout([], pre + last) && Flatten([], pre + last) == pre + Flatten([], last)
    ensures TokensOf([], pre + last, line) == TokensOf([], last, line + Newlines(pre))
  {
    hide IsGap, IsGapPiece;
    PieceInFront(pre, last, true);
    NewlinesAdd(pre, last);
  }

  lemma FirstLonger(pre: string, items: seq<Item>, last: string, line: nat)
    requires items != [] && IsLayout(items, last) && IsGapPiece(pre, Flatten(items, last))
    ensures var items' := [items[0].(gap := pre + items[0].gap)] + items[1..];
            IsLayout(items', last) && |items'| == |items| && Flatten(items', last) == pre + Flatten(items, last) &&
            TokensOf(items', last, line) == TokensOf(items, last, line + Newlines(pre))
  {
    hide LexemeAt, Spells, Ends, IsGap, IsGapPiece, Newlines;
    var i, rest := items[0], Flatten(items[1..], last);
    var items' := [i.(gap := pre + i.gap)] + items[1..];
    GapInFront(pre, i, rest);
    NewlinesAdd(pre, i.gap);
    assert items'[1..] == items[1..];
    assert pre + i.gap + (i.text + rest) == pre + (i.gap + (i.text + rest));
  }

  lemma GapInFront(pre: string, i: Item, rest: string)
    requires IsGap(i.gap, false) && Spells(i.text, i.kind) && Ends(i.text, i.kind, At(rest, 0))
    requires IsGapPiece(pre, i.gap + (i.text + rest))
    ensures IsGap(pre + i.gap, false)
  {
    hide LexemeAt, Spells, Ends, IsGap;
    LexemeReads(i.text, i.kind, rest);
    assert (i.text + rest)[0] == i.text[0];
    assert i.gap != "" ==> (i.gap + (i.text + rest))[0] == i.gap[0];
    assert i.gap == "" ==> (i.gap + (i.text + rest))[0] == i.text[0];
    PieceInFront(pre, i.gap, false);
  }


  /** And back: every text the lexer reads without error is a layout of the tokens it returns. */
  lemma {:induction false} ScanLaysOut(s: string, line: nat, room: nat) returns (items: seq<Item>, last: string)
    requires Scan(s, line, room).Some?
    ensures IsLayout(items, last) && |items| <= room && Flatten(items, last) == s
    ensures Scan(s, line, room) == Some(TokensOf(items, last, line))
    decreases |s|
  {
    hide LexemeAt, Spells, Ends, IsLayout, IsGap;
    if s == "" {
      items, last := [], "";
      assert IsLayout([], "") by { EmptyLayout(); }
    } else if IsBlank(s[0]) || StartsComment(s) {
      items, last := AfterPiece(s, line, room);
    } else {
      items, last := AfterToken(s, line, room);
    }
  }

  lemma EmptyLayout()
    ensures IsLayout([], "")
  {
  }

  lemma {:induction false} AfterPiece(s: string, line: nat, room: nat) returns (items: seq<Item>, last: string)
    requires s != "" && (IsBlank(s[0]) || StartsComment(s)) && Scan(s, line, room).Some?
    ensures IsLayout(items, last) && |items| <= room && Flatten(items, last) == s
    ensures Scan(s, line, room) == Some(TokensOf(items, last, line))
    decreases |s|, 0
  {
    hide LexemeAt, IsLayout, TokensOf;
    var n := if IsBlank(s[0]) then 1 else LineEnd(s);
    var pre := s[..n];
    assert pre + s[n..] == s;
    PieceLines(s, n);
    items, last := ScanLaysOut(s[n..], line + Newlines(pre), room);
    items, last := GapLonger(pre, items, last, line);
  }

  lemma PieceLines(s: string, n: nat)
    requires s != "" && if IsBlank(s[0]) then n == 1 else StartsComment(s) && n == LineEnd(s)
    ensures n <= |s| && Newlines(s[..n]) == (if s[0] == '\n' then 1 else 0) && IsGapPiece(s[..n], s[n..])
  {
    if IsBlank(s[0]) {
      assert s[..1][1..] == "";
    } else {
      CommentLong(s);
      NewlinesSplit(s[..n], n);
      assert s[..n][..n] == s[..n];
    }
  }

  lemma CommentLong(s: string)
    requires StartsComment(s)
    ensures LineEnd(s) >= 2
  {
    assert s[1..][0] == '/';
  }

  lemma {:induction false} AfterToken(s: string, line: nat, room: nat) returns (items: seq<Item>, last: string)
    requires s != "" && !IsBlank(s[0]) && !StartsComment(s) && Scan(s, line, room).Some?
    ensures IsLayout(items, last) && |items| <= room && Flatten(items, last) == s
    ensures Scan(s, line, room) == Some(TokensOf(items, last, line))
    decreases |s|, 0
  {
    hide LexemeAt, Spells, Ends, StartsComment;
    var (k, n) := LexemeAt(s).value;
    LexemeSpelled(s);
    var more;
    more, last := ScanLaysOut(s[n..], line, room - 1);
    items := [Item("", s[..n], k)] + more;
    assert items[1..] == more;
    assert s == "" + (s[..n] + s[n..]);
  }

  // ----- every token list as a text -----

  function DecimalText(v: nat): (w: string)
    ensures w != ""
    ensures forall i :: 0 <= i < |w| ==> IsDigit(w[i])
  {
    var d := ('0' as int + v % 10) as char;
    if v < 10 then [d] else DecimalText(v / 10) + [d]
  }

  lemma {:induction false} NumeralAdd(a: string, b: string, base: int, acc: int)
    ensures Numeral(a + b, base, acc) == Numeral(b, base, Numeral(a, base, acc))
  {
    if a == "" {
      assert a + b == b;
    } else {
      assert (a + b)[1..] == a[1..] + b;
      NumeralAdd(a[1..], b, base, Wrap(acc * base + HexValue(a[0])));
    }
  }

  lemma {:induction false} DecimalValue(v: nat)
    requires v < TWO_63
    ensures Numeral(DecimalText(v), 10, 0) == v
  {
    var d := ('0' as int + v % 10) as char;
    assert HexValue(d) == v % 10;
    if v >= 10 {
      DecimalValue(v / 10);
      NumeralAdd(DecimalText(v / 10), [d], 10, 0);
    }
    DigitValue(d, v / 10);
  }

  lemma DigitValue(d: char, acc: nat)
    requires IsDigit(d) && acc * 10 + HexValue(d) < TWO_63
    ensures Numeral([d], 10, acc) == acc * 10 + HexValue(d)
  {
    assert [d][1..] == "";
  }

  // ----- what a numeral is worth -----

  const DECIMAL := "0123456789"
  const SMALL_HEX := "0123456789abcdef"
  const LARGE_HEX := "0123456789ABCDEF"

  /** v written with the given digits, each at the place of its value. */
  function DigitsText(v: nat, digits: string): (w: string)
    requires |digits| >= 2
    ensures w != "" && forall i :: 0 <= i < |w| ==> w[i] in digits
  {
    (if v < |digits| then "" else DigitsText(v / |digits|, digits)) + [digits[v % |digits|]]
  }

  lemma DigitAt(digits: string, k: nat)
    requires k < |digits| && (digits == DECIMAL || digits == SMALL_HEX || digits == LARGE_HEX)
    ensures HexValue(digits[k]) == k && IsHexDigit(digits[k]) && (digits == DECIMAL ==> IsDigit(digits[k]))
  {
  }

  /** A numeral in base 10 or 16 is worth its value, as a 64-bit word. */
  lemma {:induction false} DigitsValue(v: nat, digits: string)
    requires digits == DECIMAL || digits == SMALL_HEX || digits == LARGE_HEX
    ensures Numeral(DigitsText(v, digits), |digits|, 0) == Wrap(v)
  {
    hide HexValue, Numeral, Wrap, DigitsText;
    var b, d := |digits|, digits[v % |digits|];
    DigitsSplit(v, digits);
    DigitAt(digits, v % b);
    Split(v, b);
    WrapDigit(v / b, b, v % b);
    if v < b {
      NumeralLast("", d, b);
      assert "" + [d] == [d];
    } else {
      DigitsValue(v / b, digits);
      NumeralLast(DigitsText(v / b, digits), d, b);
    }
  }

  lemma DigitsSplit(v: nat, digits: string)
    requires |digits| >= 2
    ensures 0 <= v % |digits| < |digits| && 0 <= v / |digits| && (v >= |digits| ==> v / |digits| < v)
    ensures DigitsText(v, digits) == (if v < |digits| then "" else DigitsText(v / |digits|, digits)) + [digits[v % |digits|]]
  {
  }

  lemma Split(v: nat, b: nat)
    requires b > 0
    ensures v == b * (v / b) + v % b && (v < b ==> v / b == 0 && v % b == v)
  {
    if v < b { DivModUnique(v, b, 0, v); }
  }

  lemma NumeralLast(w: string, d: char, base: int)
    ensures Numeral(w + [d], base, 0) == Wrap(Numeral(w, base, 0) * base + HexValue(d)) && Numeral("", base, 0) == 0
  {
    hide HexValue, Wrap;
    NumeralAdd(w, [d], base, 0);
    assert [d][1..] == "";
  }

  lemma WrapDigit(a: int, b: int, d: int)
    ensures Wrap(Wrap(a) * b + d) == Wrap(b * a + d)
  {
    var k := (a + TWO_63) / TWO_64;
    assert Wrap(a) == a - TWO_64 * k;
    assert (a - TWO_64 * k) * b == b * a - TWO_64 * (k * b);
    WrapMultiple(b * a + d, -(k * b));
    assert b * a + d + TWO_64 * -(k * b) == Wrap(a) * b + d;
  }

  lemma WrapMultiple(x: int, k: int)
    ensures Wrap(x + TWO_64 * k) == Wrap(x)
  {
    var q, r := (x + TWO_63) / TWO_64, (x + TWO_63) % TWO_64;
    DivModUnique(x + TWO_64 * k + TWO_63, TWO_64, q + k, r);
  }

  /** 0x or 0X and base-16 digits, small or large, and plain base-10 digits are each read as one number of that value. */
  lemma NumeralScans(v: nat, digits: string, mark: char)
    requires digits == DECIMAL || digits == SMALL_HEX || digits == LARGE_HEX
    requires mark == 'x' || mark == 'X'
    ensures var w := (if digits == DECIMAL then "" else "0" + [mark]) + DigitsText(v, digits);
            Scan(w, 1, 1) == Some([Token(TNumber(Wrap(v)), 1), Token(TEof, 1)])
  {
    hide Numeral, HexValue, DigitsText, ReadsAs, SpellsNumber, Ends;
    var t := DigitsText(v, digits);
    var w := (if digits == DECIMAL then "" else "0" + [mark]) + t;
    assert digits == DECIMAL ==> "" + t == t;
    NumeralSpells(v, digits, mark);
    NumberReads(w, Wrap(v), "");
    assert w + "" == w;
    ScansAlone(w, TNumber(Wrap(v)));
  }

  lemma ScansAlone(w: string, k: Tok)
    requires ReadsAs(w, k, "") && w + "" == w
    ensures Scan(w, 1, 1) == Some([Token(k, 1), Token(TEof, 1)])
  {
    hide LexemeAt, StartsComment;
    assert LexemeAt(w) == Some((k, |w|)) && !StartsComment(w);
    assert w[|w|..] == "" && Scan("", 1, 0) == Some([Token(TEof, 1)]);
    ScanStep(w, 1, 1);
    assert [Token(k, 1)] + [Token(TEof, 1)] == [Token(k, 1), Token(TEof, 1)];
  }

  lemma ScanStep(s: string, line: nat, room: nat)
    requires s != "" && !IsBlank(s[0]) && !StartsComment(s) && room > 0 && LexemeAt(s).Some?
    ensures var (k, n) := LexemeAt(s).value;
            Scan(s, line, room) == After([Token(k, line)], Scan(s[n..], line, room - 1))
  {
    hide LexemeAt, StartsComment;
  }

  lemma NumeralSpells(v: nat, digits: string, mark: char)
    requires digits == DECIMAL || digits == SMALL_HEX || digits == LARGE_HEX
    requires mark == 'x' || mark == 'X'
    ensures var w := (if digits == DECIMAL then "" else "0" + [mark]) + DigitsText(v, digits);
            SpellsNumber(w, Wrap(v)) && Ends(w, TNumber(Wrap(v)), At("", 0))
  {
    hide Numeral, HexValue, DigitsText;
    var t := DigitsText(v, digits);
    DigitsValue(v, digits);
    forall i | 0 <= i < |t| ensures IsHexDigit(t[i]) && (digits == DECIMAL ==> IsDigit(t[i])) {
      var k :| 0 <= k < |digits| && digits[k] == t[i];
      DigitAt(digits, k);
    }
    if digits == DECIMAL {
      assert "" + t == t;
    } else {
      assert ("0" + [mark] + t)[2..] == t;
    }
  }

  // ----- names and gaps -----

  const SMALL_LETTERS := "abcdefghijklmnopqrstuvwxyz"
  const LARGE_LETTERS := "ABCDEFGHIJKLMNOPQRSTUVWXYZ"
  const LETTERS := SMALL_LETTERS + LARGE_LETTERS + "_"
  const KEYWORDS := ["return", "if", "else", "while", "do", "for", "char", "int", "int8_t", "int16_t", "int32_t", "int64_t",
                     "uint8_t", "uint16_t", "uint32_t", "uint64_t", "uintptr_t", "intptr_t"]

  predicate Reserved(w: string) {
    w in KEYWORDS
  }

  predicate InAlphabet(w: string) {
    w != "" && w[0] in LETTERS && forall i :: 0 <= i < |w| ==> w[i] in LETTERS || w[i] in DECIMAL
  }

  /** A letter and up to 30 letters and digits that spell no keyword are read as one name. */
  lemma NameScans(w: string)
    requires InAlphabet(w) && |w| <= 31 && !Reserved(w)
    ensures Scan(w, 1, 1) == Some([Token(TIdent(w), 1), Token(TEof, 1)])
  {
    hide WordKind, ReadsAs, InAlphabet, Reserved, Scan;
    AlphabetWord(w);
    NoKeyword(w);
    WordReads(w, "");
    assert w + "" == w;
    ScansAlone(w, TIdent(w));
  }

  lemma AlphabetWord(w: string)
    requires InAlphabet(w) && |w| <= 31
    ensures IsWordText(w)
  {
    LetterIs(w[0]);
    forall i | 0 <= i < |w| ensures IsAlnum(w[i]) { if w[i] in LETTERS { LetterIs(w[i]); } else { DigitIs(w[i]); } }
  }

  lemma LetterIs(c: char)
    requires c in LETTERS
    ensures IsAlpha(c)
  {
    LettersAre();
    if c in SMALL_LETTERS { var i :| 0 <= i < 26 && SMALL_LETTERS[i] == c; }
    else if c in LARGE_LETTERS { var i :| 0 <= i < 26 && LARGE_LETTERS[i] == c; }
  }

  lemma LettersAre()
    ensures |SMALL_LETTERS| == |LARGE_LETTERS| == 26
    ensures forall i :: 0 <= i < 26 ==> SMALL_LETTERS[i] as int == 97 + i && LARGE_LETTERS[i] as int == 65 + i
  {
  }

  lemma DigitIs(c: char)
    requires c in DECIMAL
    ensures IsDigit(c)
  {
    var i :| 0 <= i < |DECIMAL| && DECIMAL[i] == c;
  }

  lemma NoKeyword(w: string)
    requires !Reserved(w)
    ensures WordKind(w) == TIdent(w)
  {
    hide WordKind, KeywordText;
    WordKindText(w);
    if WordKind(w) != TIdent(w) { KeywordListed(WordKind(w)); }
  }

  lemma KeywordListed(k: Tok)
    requires IsKeyword(k)
    ensures KeywordText(k) in KEYWORDS
  {
    match k
    case TReturn => assert KEYWORDS[0] == "return";
    case TIf => assert KEYWORDS[1] == "if";
    case TElse => assert KEYWORDS[2] == "else";
    case TWhile => assert KEYWORDS[3] == "while";
    case TDo => assert KEYWORDS[4] == "do";
    case TFor => assert KEYWORDS[5] == "for";
    case TType(b) =>
      match b
      case BChar => assert KEYWORDS[6] == "char";
      case BInt => assert KEYWORDS[7] == "int";
      case BInt8 => assert KEYWORDS[8] == "int8_t";
      case BInt16 => assert KEYWORDS[9] == "int16_t";
      case BInt32 => assert KEYWORDS[10] == "int32_t";
      case BInt64 => assert KEYWORDS[11] == "int64_t";
      case BUInt8 => assert KEYWORDS[12] == "uint8_t";
      case BUInt16 => assert KEYWORDS[13] == "uint16_t";
      case BUInt32 => assert KEYWORDS[14] == "uint32_t";
      case BUInt64 => assert KEYWORDS[15] == "uint64_t";
      case BUIntPtr => assert KEYWORDS[16] == "uintptr_t";
      case BIntPtr => assert KEYWORDS[17] == "intptr_t";
  }

  /** A longer one is split behind its 31st character. */
  lemma LongNameSplits(w: string, rest: string, line: nat, room: nat)
    requires InAlphabet(w) && |w| == 31 && rest != "" && rest[0] in LETTERS + DECIMAL && !Reserved(w) && room > 0
    ensures Scan(w + rest, line, room) == After([Token(TIdent(w), line)], Scan(rest, line, room - 1))
  {
    hide WordKind, InAlphabet, LexemeAt, StartsComment, Reserved;
    AlphabetWord(w);
    NoKeyword(w);
    WordReads(w, rest);
    assert (w + rest)[0] == w[0];
    ScanStep(w + rest, line, room);
    assert (w + rest)[|w|..] == rest;
  }

  /** Blanks, tabs and carriage returns are skipped, a line break begins a new line, and so does a comment with it. */
  lemma GapSkipped(t: string, line: nat, room: nat)
    ensures Scan(" " + t, line, room) == Scan(t, line, room) && Scan("\t" + t, line, room) == Scan(t, line, room)
    ensures Scan("\r" + t, line, room) == Scan(t, line, room) && Scan("\n" + t, line, room) == Scan(t, line + 1, room)
  {
    hide LexemeAt, StartsComment;
    assert (" " + t)[1..] == t && ("\t" + t)[1..] == t && ("\r" + t)[1..] == t && ("\n" + t)[1..] == t;
  }

  lemma CommentSkipped(c: string, t: string, line: nat, room: nat)
    requires '\n' !in c
    ensures Scan("//" + c + "\n" + t, line, room) == Scan(t, line + 1, room) && Scan("//" + c, line, room) == Some([Token(TEof, line)])
  {
    hide LexemeAt;
    var s := "//" + c + "\n" + t;
    EndOfLine("//" + c, "\n" + t);
    assert "//" + c + ("\n" + t) == s && s[|"//" + c|..] == "\n" + t;
    GapSkipped(t, line, room);
    assert StartsComment(s) && !IsBlank(s[0]);
    EndOfLine("//" + c, "");
    assert "//" + c + "" == "//" + c && ("//" + c)[|"//" + c|..] == "";
    assert Scan("", line, room) == Some([Token(TEof, line)]);
  }

  lemma {:induction false} EndOfLine(c: string, rest: string)
    requires '\n' !in c && (rest == "" || rest[0] == '\n')
    ensures LineEnd(c + rest) == |c|
  {
    if c == "" {
      assert c + rest == rest;
    } else {
      assert (c + rest)[1..] == c[1..] + rest;
      EndOfLine(c[1..], rest);
    }
  }

  /** A character between quotes is its code, and the escapes are those of C. */
  lemma CharacterScans()
    ensures CharNumber("'A'", 65) && CharNumber("' '", 32) && CharNumber("'0'", 48) && CharNumber("'\"'", 34)
    ensures CharNumber("'\\n'", 10) && CharNumber("'\\r'", 13) && CharNumber("'\\t'", 9)
    ensures CharNumber("'\\\\'", 92) && CharNumber("'\\\''", 39) && CharNumber("'\\0'", 0)
  {
    hide ReadsAs, CharNumber, Scan;
    OneCharacter('A');
    OneCharacter(' ');
    OneCharacter('0');
    OneCharacter('"');
    OneEscape('n');
    OneEscape('r');
    OneEscape('t');
    OneEscape('\\');
    OneEscape('\'');
    OneEscape('0');
  }

  ghost predicate CharNumber(w: string, v: int) {
    Scan(w, 1, 1) == Some([Token(TNumber(v), 1), Token(TEof, 1)])
  }

  /** Any character but the backslash, below 256, is its code. */
  lemma OneCharacter(c: char)
    requires c != '\\' && c as int < 256
    ensures CharNumber(['\'', c, '\''], c as int)
  {
    hide ReadsAs, Escape;
    var w := ['\'', c, '\''];
    NumberReads(w, c as int, "");
    assert w + "" == w;
    ScansAlone(w, TNumber(c as int));
  }

  lemma OneEscape(c: char)
    ensures CharNumber(['\'', '\\', c, '\''], Escape(c))
  {
    hide ReadsAs, Escape;
    var w := ['\'', '\\', c, '\''];
    NumberReads(w, Escape(c), "");
    assert w + "" == w;
    ScansAlone(w, TNumber(Escape(c)));
  }

  /** Tokens a text can hold: proper names, numbers below 2^63, no end marker. */
  ghost predicate Writable(k: Tok) {
    (k.TIdent? && IsName(k.name)) || (k.TNumber? && 0 <= k.v < TWO_63) || IsKeyword(k) || IsSymbol(k)
  }

  function TextOf(k: Tok): string {
    match k
    case TIdent(x) => x
    case TNumber(v) => if v >= 0 then DecimalText(v) else ""
    case _ => if IsKeyword(k) then KeywordText(k) else SymbolText(k)
  }

  /** One blank before every token. */
  function Spaced(ks: seq<Tok>): seq<Item> {
    if ks == [] then [] else [Item(" ", TextOf(ks[0]), ks[0])] + Spaced(ks[1..])
  }

  function KindsOf(items: seq<Item>): seq<Tok> {
    if items == [] then [] else [items[0].kind] + KindsOf(items[1..])
  }

  lemma TextSpells(k: Tok, c: char)
    requires Writable(k) && (c == ' ' || c == '\0')
    ensures Spells(TextOf(k), k) && Ends(TextOf(k), k, c)
  {
    hide Spells, Ends, DecimalText, KeywordText, SymbolText, IsName;
    SymbolsApart(k);
    if k.TIdent? { NameSpells(k.name, c); }
    else if k.TNumber? { NumberSpells(k.v, c); }
    else if IsKeyword(k) { KeywordSpells(k, c); }
    else { SymbolSpells(k, c); }
  }

  lemma NameSpells(x: string, c: char)
    requires IsName(x) && !IsAlnum(c)
    ensures Spells(x, TIdent(x)) && Ends(x, TIdent(x), c)
  {
  }

  lemma NumberSpells(v: int, c: char)
    requires 0 <= v < TWO_63 && (c == ' ' || c == '\0')
    ensures Spells(DecimalText(v), TNumber(v)) && Ends(DecimalText(v), TNumber(v), c)
  {
    hide DecimalText, SpellsNumber;
    DecimalSpells(v, c);
  }

  lemma KeywordSpells(k: Tok, c: char)
    requires IsKeyword(k) && !IsAlnum(c)
    ensures Spells(KeywordText(k), k) && Ends(KeywordText(k), k, c)
  {
    hide KeywordText;
  }

  lemma SymbolSpells(k: Tok, c: char)
    requires IsSymbol(k) && (c == ' ' || c == '\0')
    ensures Spells(SymbolText(k), k) && Ends(SymbolText(k), k, c)
  {
    hide SymbolText;
    SymbolsApart(k);
  }

  lemma SymbolsApart(k: Tok)
    ensures IsSymbol(k) ==> !k.TIdent? && !k.TNumber? && !IsKeyword(k)
  {
  }

  lemma DecimalSpells(v: int, c: char)
    requires 0 <= v < TWO_63 && (c == ' ' || c == '\0')
    ensures SpellsNumber(DecimalText(v), v) && Ends(DecimalText(v), TNumber(v), c)
  {
    hide DecimalText, Numeral;
    DecimalValue(v);
    assert IsDigit(DecimalText(v)[0]);
    if |DecimalText(v)| >= 2 { assert IsDigit(DecimalText(v)[1]); }
  }

  /** Every list of writable tokens is the content of some text. */
  lemma {:induction false} SpacedLaid(ks: seq<Tok>)
    requires forall i :: 0 <= i < |ks| ==> Writable(ks[i])
    ensures IsLayout(Spaced(ks), "") && KindsOf(Spaced(ks)) == ks && |Spaced(ks)| == |ks|
  {
    hide Spells, Ends, TextOf, Writable;
    if ks != [] {
      SpacedLaid(ks[1..]);
      var items := Spaced(ks);
      assert items[1..] == Spaced(ks[1..]);
      var rest := Flatten(items[1..], "");
      SpacedStarts(ks[1..]);
      TextSpells(ks[0], At(rest, 0));
      assert IsGap(" ", false) by { BlankGap(); }
    }
  }

  lemma BlankGap()
    ensures IsGap(" ", false)
  {
    assert " "[1..] == "";
  }

  lemma SpacedStarts(ks: seq<Tok>)
    ensures At(Flatten(Spaced(ks), ""), 0) == if ks == [] then '\0' else ' '
  {
    hide TextOf;
  }

  /** The kinds and the count of the tokens of a layout. */
  lemma {:induction false} TokensKinds(items: seq<Item>, last: string, line: nat)
    ensures var ts := TokensOf(items, last, line);
            |ts| == |items| + 1 && |KindsOf(items)| == |items| && ts[|items|].kind == TEof &&
            forall i :: 0 <= i < |items| ==> ts[i].kind == KindsOf(items)[i]
  {
    if items != [] { TokensKinds(items[1..], last, line + Newlines(items[0].gap)); }
  }

  /** The line of a token: one more than the line breaks in the gaps before it. */
  function GapLines(items: seq<Item>, n: nat): (l: nat)
    requires n <= |items|
  {
    if n == 0 then 0 else Newlines(items[0].gap) + GapLines(items[1..], n - 1)
  }

  lemma {:induction false} TokenLines(items: seq<Item>, last: string, line: nat, n: nat)
    requires n < |items|
    ensures n < |TokensOf(items, last, line)|
    ensures TokensOf(items, last, line)[n].line == line + GapLines(items, n + 1)
  {
    TokensKinds(items, last, line);
    if n > 0 {
      TokensKinds(items[1..], last, line + Newlines(items[0].gap));
      TokenLines(items[1..], last, line + Newlines(items[0].gap), n - 1);
    }
  }
}
