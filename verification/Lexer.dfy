/** The lexer: what it accepts, as a function of the text, and the loop that computes it. */
module Lexer {
  import opened Words
  import opened Syntax

  const MAX_NAME: nat := 31

  predicate IsDigit(c: char) { '0' <= c <= '9' }

  predicate IsAlpha(c: char) { 'a' <= c <= 'z' || 'A' <= c <= 'Z' || c == '_' }

  predicate IsAlnum(c: char) { IsAlpha(c) || IsDigit(c) }

  predicate IsHexDigit(c: char) { IsDigit(c) || 'a' <= c <= 'f' || 'A' <= c <= 'F' }

  predicate IsHexMark(c: char) { c == 'x' || c == 'X' }

  /** The text is followed by its terminator. */
  function At(s: string, i: nat): char {
    if i < |s| then s[i] else '\0'
  }

  // ----- words -----

  function WordLength(s: string, limit: nat): (n: nat)
    ensures n <= limit && n <= |s|
  {
    if limit == 0 || s == "" || !IsAlnum(s[0]) then 0 else 1 + WordLength(s[1..], limit - 1)
  }

  function WordKind(w: string): Tok {
    if w == "return" then TReturn
    else if w == "if" then TIf
    else if w == "else" then TElse
    else if w == "while" then TWhile
    else if w == "do" then TDo
    else if w == "for" then TFor
    else if w == "char" then TType(BChar)
    else if w == "int" then TType(BInt)
    else if w == "int8_t" then TType(BInt8)
    else if w == "int16_t" then TType(BInt16)
    else if w == "int32_t" then TType(BInt32)
    else if w == "int64_t" then TType(BInt64)
    else if w == "uint8_t" then TType(BUInt8)
    else if w == "uint16_t" then TType(BUInt16)
    else if w == "uint32_t" then TType(BUInt32)
    else if w == "uint64_t" then TType(BUInt64)
    else if w == "uintptr_t" then TType(BUIntPtr)
    else if w == "intptr_t" then TType(BIntPtr)
    else TIdent(w)
  }

  // ----- numbers: 64-bit, wrapping -----

  function DigitsLength(s: string): (n: nat)
    ensures n <= |s|
  {
    if s == "" || !IsDigit(s[0]) then 0 else 1 + DigitsLength(s[1..])
  }

  function HexLength(s: string): (n: nat)
    ensures n <= |s|
  {
    if s == "" || !IsHexDigit(s[0]) then 0 else 1 + HexLength(s[1..])
  }

  function HexValue(c: char): int {
    if IsDigit(c) then c as int - '0' as int
    else if 'a' <= c <= 'f' then c as int - 'a' as int + 10
    else c as int - 'A' as int + 10
  }

  /** acc followed by the digits of s in the given base. */
  function Numeral(s: string, base: int, acc: int): int {
    if s == "" then acc else Numeral(s[1..], base, Wrap(acc * base + HexValue(s[0])))
  }

  function NumberAt(s: string): (r: (Tok, nat))
    requires s != "" && IsDigit(s[0])
    ensures 0 < r.1 <= |s| && r.0.TNumber?
  {
    if s[0] == '0' && IsHexMark(At(s, 1)) then
      var n := HexLength(s[2..]);
      (TNumber(Numeral(s[2..2 + n], 16, 0)), 2 + n)
    else
      var n := DigitsLength(s);
      (TNumber(Numeral(s[..n], 10, 0)), n)
  }

  // ----- character literals -----

  function Escape(c: char): int {
    match c
    case 'n' => 10 case 'r' => 13 case 't' => 9 case '\\' => 92 case '\'' => 39 case '0' => 0
    case _ => Truncate(c as int, W8, true)
  }

  /** None where the source reports an error. */
  function CharAt(s: string): (r: Option<(Tok, nat)>)
    requires s != ""
    ensures r.Some? ==> 0 < r.value.1 <= |s|
  {
    if |s| == 1 then None
    else if s[1] == '\\' then
      if |s| > 2 && At(s, 3) == '\'' then Some((TNumber(Escape(s[2])), 4)) else None
    else if At(s, 2) == '\'' then Some((TNumber(s[1] as int % 0x100), 3)) else None
  }

  // ----- operators and punctuation -----

  function SymbolAt(s: string): (r: Option<(Tok, nat)>)
    requires s != ""
    ensures r.Some? ==> 0 < r.value.1 <= |s|
  {
    var c := At(s, 1);
    match s[0]
    case '+' => Some(if c == '+' then (TPlusPlus, 2) else if c == '=' then (TPlusEq, 2) else (TPlus, 1))
    case '-' => Some(if c == '-' then (TMinusMinus, 2) else if c == '=' then (TMinusEq, 2) else (TMinus, 1))
    case '*' => Some(if c == '=' then (TStarEq, 2) else (TStar, 1))
    case '/' => Some(if c == '=' then (TSlashEq, 2) else (TSlash, 1))
    case '%' => Some(if c == '=' then (TPercentEq, 2) else (TPercent, 1))
    case '=' => Some(if c == '=' then (TEq, 2) else (TAssign, 1))
    case '!' => Some(if c == '=' then (TNeq, 2) else (TNot, 1))
    case '<' => Some(if c == '=' then (TLeq, 2) else (TLt, 1))
    case '>' => Some(if c == '=' then (TGeq, 2) else (TGt, 1))
    case '&' => Some(if c == '&' then (TAnd, 2) else (TAmp, 1))
    case '|' => Some(if c == '|' then (TOr, 2) else (TPipe, 1))
    case ';' => Some((TSemi, 1))
    case '(' => Some((TLParen, 1))
    case ')' => Some((TRParen, 1))
    case '[' => Some((TLBracket, 1))
    case ']' => Some((TRBracket, 1))
    case '{' => Some((TLBrace, 1))
    case '}' => Some((TRBrace, 1))
    case _ => None
  }

  function LexemeAt(s: string): (r: Option<(Tok, nat)>)
    requires s != ""
    ensures r.Some? ==> 0 < r.value.1 <= |s|
  {
    if IsAlpha(s[0]) then
      var n := WordLength(s, MAX_NAME);
      Some((WordKind(s[..n]), n))
    else if IsDigit(s[0]) then Some(NumberAt(s))
    else if s[0] == '\'' then CharAt(s)
    else SymbolAt(s)
  }

  // ----- the whole text -----

  predicate IsBlank(c: char) { c <= ' ' }

  predicate StartsComment(s: string) { |s| >= 2 && s[0] == '/' && s[1] == '/' }

  /** Where the line ends. */
  function LineEnd(s: string): (n: nat)
    ensures n <= |s| && '\n' !in s[..n] && (n < |s| ==> s[n] == '\n')
    ensures s != "" && s[0] != '\n' ==> n > 0
  {
    if s == "" || s[0] == '\n' then 0
    else
      var n := LineEnd(s[1..]);
      assert s[..n + 1] == [s[0]] + s[1..][..n];
      n + 1
  }

  /** The tokens of the text from here on, at most room of them, and the end; None if there is an error. */
  function Scan(s: string, line: nat, room: nat): (r: Option<seq<Token>>)
    ensures r.Some? ==> |r.value| <= room + 1
    decreases |s|
  {
    if s == "" then Some([Token(TEof, line)])
    else if s[0] == '\n' then Scan(s[1..], line + 1, room)
    else if IsBlank(s[0]) then Scan(s[1..], line, room)
    else if StartsComment(s) then Scan(s[LineEnd(s)..], line, room)
    else if room == 0 then None
    else match LexemeAt(s)
      case None => None
      case Some((k, n)) => match Scan(s[n..], line, room - 1) case None => None case Some(ts) => Some([Token(k, line)] + ts)
  }

  function After(ts: seq<Token>, rest: Option<seq<Token>>): Option<seq<Token>> {
    match rest case None => None case Some(r) => Some(ts + r)
  }

  class Scanner {
    const src: string
    var pos: nat
    var line: nat
    var tokens: seq<Token>
    var errors: nat

    /** src is a C string without its terminator. */
    constructor (src: string)
      requires '\0' !in src
      ensures this.src == src
    {
      this.src := src;
      pos, line, tokens, errors := 0, 1, [], 0;
    }

    /** The character n places ahead, or the terminator. */
    function Ahead(n: nat): char
      reads this
    {
      At(src, pos + n)
    }

    ghost predicate Inside()
      reads this
    {
      pos <= |src| && line >= 1
    }

    /** What is left to read. */
    ghost function Rest(): string
      requires Inside()
      reads this
    {
      src[pos..]
    }

    /** So far the tokens are right; or an error was found and there is one. */
    ghost predicate OnTrack()
      reads this
    {
      Inside() && |tokens| <= MAX_TOKENS && NumbersFit(tokens) &&
      (errors == 0 ==> Scan(src, 1, MAX_TOKENS) == After(tokens, Scan(Rest(), line, MAX_TOKENS - |tokens|))) &&
      (errors > 0 ==> Scan(src, 1, MAX_TOKENS) == None)
    }

    /** Letters and digits, at most 31 of them. */
    method Word() returns (k: Tok)
      requires Inside() && pos < |src| && IsAlpha(src[pos])
      modifies this`pos
      ensures Inside() && LexemeAt(old(Rest())) == Some((k, pos - old(pos))) && pos > old(pos) && NumberFits(k)
    {
      ghost var s := Rest();
      var n := 0;
      while IsAlnum(Ahead(n)) && n < MAX_NAME
        invariant n <= |s| && n <= MAX_NAME && n + WordLength(s[n..], MAX_NAME - n) == WordLength(s, MAX_NAME)
        decreases |s| - n
      {
        assert s[n..][1..] == s[n + 1..];
        n := n + 1;
      }
      assert src[pos..pos + n] == s[..n];
      k := WordKind(src[pos..pos + n]);
      pos := pos + n;
    }

    method HexNumber() returns (val: int)
      requires Inside() && pos < |src| && src[pos] == '0' && IsHexMark(Ahead(1))
      modifies this`pos
      ensures Inside() && pos > old(pos) && NumberAt(old(Rest())) == (TNumber(val), pos - old(pos)) && IsWord(val)
    {
      ghost var s := Rest();
      ghost var end := 2 + HexLength(s[2..]);
      val := 0;
      var n := 2;
      while IsHexDigit(Ahead(n))
        invariant 2 <= n <= |s| && n + HexLength(s[n..]) == end && IsWord(val)
        invariant Numeral(s[2..end], 16, 0) == Numeral(s[n..end], 16, val)
        decreases |s| - n
      {
        assert s[n..][1..] == s[n + 1..];
        assert s[n..end][1..] == s[n + 1..end];
        val := Wrap(val * 16 + HexValue(Ahead(n)));
        n := n + 1;
      }
      pos := pos + n;
    }

    method DecimalNumber() returns (val: int)
      requires Inside() && pos < |src| && IsDigit(src[pos]) && !(src[pos] == '0' && IsHexMark(Ahead(1)))
      modifies this`pos
      ensures Inside() && pos > old(pos) && NumberAt(old(Rest())) == (TNumber(val), pos - old(pos)) && IsWord(val)
    {
      ghost var s := Rest();
      ghost var end := DigitsLength(s);
      val := 0;
      var n := 0;
      while IsDigit(Ahead(n))
        invariant n <= |s| && n + DigitsLength(s[n..]) == end && IsWord(val)
        invariant Numeral(s[..end], 10, 0) == Numeral(s[n..end], 10, val)
        decreases |s| - n
      {
        assert s[n..][1..] == s[n + 1..];
        assert s[n..end][1..] == s[n + 1..end];
        val := Wrap(val * 10 + HexValue(Ahead(n)));
        n := n + 1;
      }
      pos := pos + n;
    }

    method Number() returns (k: Tok)
      requires Inside() && pos < |src| && IsDigit(src[pos])
      modifies this`pos
      ensures Inside() && LexemeAt(old(Rest())) == Some((k, pos - old(pos))) && pos > old(pos) && NumberFits(k)
    {
      hide NumberAt;
      var val;
      if src[pos] == '0' && IsHexMark(Ahead(1)) { val := HexNumber(); } else { val := DecimalNumber(); }
      k := TNumber(val);
    }

    /** 'c' and '\\c'. stop: the text ended inside the literal. A literal that is too long is skipped, with an error. */
    method CharLiteral() returns (k: Tok, stop: bool)
      requires Inside() && pos < |src| && src[pos] == '\''
      modifies this`pos, this`errors
      ensures Inside() && pos > old(pos) && errors >= old(errors) && NumberFits(k)
      ensures errors == old(errors) ==> !stop && CharAt(old(Rest())) == Some((k, pos - old(pos)))
      ensures errors > old(errors) ==> CharAt(old(Rest())) == None
    {
      k, stop := TNumber(0), false;
      ghost var start := pos;
      pos := pos + 1;
      if pos == |src| {
        errors := errors + 1;
        stop := true;
        return;
      }
      var value;
      if src[pos] == '\\' {
        pos := pos + 1;
        if pos == |src| {
          errors := errors + 1;
          stop := true;
          return;
        }
        value := Escape(src[pos]);
      } else {
        value := src[pos] as int % 0x100;
      }
      pos := pos + 1;
      k := TNumber(value);
      if Ahead(0) == '\'' {
        pos := pos + 1;
      } else {
        errors := errors + 1;
        SkipLiteral();
      }
    }

    method SkipLiteral()
      requires Inside()
      modifies this`pos
      ensures Inside() && pos >= old(pos)
    {
      while pos < |src| && src[pos] != '\'' && src[pos] != '\n'
        invariant Inside() && pos >= old(pos)
      {
        pos := pos + 1;
      }
      if Ahead(0) == '\'' { pos := pos + 1; }
    }

    /** An operator or a punctuation mark; any other character is an error and an unknown token. */
    method Symbol() returns (k: Tok)
      requires Inside() && pos < |src|
      modifies this`pos, this`errors
      ensures Inside() && pos > old(pos) && errors >= old(errors) && NumberFits(k)
      ensures errors == old(errors) ==> SymbolAt(old(Rest())) == Some((k, pos - old(pos)))
      ensures errors > old(errors) ==> SymbolAt(old(Rest())) == None
    {
      ghost var s := Rest();
      assert Ahead(1) == At(s, 1);
      var c := Ahead(1);
      var two := false;
      match src[pos] {
      case '+' => two := c == '+' || c == '='; k := if c == '+' then TPlusPlus else if c == '=' then TPlusEq else TPlus;
      case '-' => two := c == '-' || c == '='; k := if c == '-' then TMinusMinus else if c == '=' then TMinusEq else TMinus;
      case '*' => two := c == '='; k := if two then TStarEq else TStar;
      case '/' => two := c == '='; k := if two then TSlashEq else TSlash;
      case '%' => two := c == '='; k := if two then TPercentEq else TPercent;
      case '=' => two := c == '='; k := if two then TEq else TAssign;
      case '!' => two := c == '='; k := if two then TNeq else TNot;
      case '<' => two := c == '='; k := if two then TLeq else TLt;
      case '>' => two := c == '='; k := if two then TGeq else TGt;
      case '&' => two := c == '&'; k := if two then TAnd else TAmp;
      case '|' => two := c == '|'; k := if two then TOr else TPipe;
      case ';' => k := TSemi;
      case '(' => k := TLParen;
      case ')' => k := TRParen;
      case '[' => k := TLBracket;
      case ']' => k := TRBracket;
      case '{' => k := TLBrace;
      case '}' => k := TRBrace;
      case _ => errors := errors + 1; k := TUnknown;
      }
      assert two ==> c != '\0';
      pos := pos + if two then 2 else 1;
    }

    /** One token, with the dispatch on its first character. */
    method Lexeme() returns (k: Tok, stop: bool)
      requires Inside() && pos < |src|
      modifies this`pos, this`errors
      ensures Inside() && pos > old(pos) && errors >= old(errors) && NumberFits(k)
      ensures errors == old(errors) ==> !stop && LexemeAt(old(Rest())) == Some((k, pos - old(pos)))
      ensures errors > old(errors) ==> LexemeAt(old(Rest())) == None
    {
      hide CharAt, SymbolAt, NumberAt, WordKind;
      stop := false;
      if IsAlpha(src[pos]) {
        k := Word();
      } else if IsDigit(src[pos]) {
        k := Number();
      } else if src[pos] == '\'' {
        k, stop := CharLiteral();
      } else {
        k := Symbol();
      }
    }

    method SkipComment()
      requires Inside() && StartsComment(Rest())
      modifies this`pos
      ensures Inside() && pos == old(pos) + LineEnd(old(Rest())) && pos > old(pos)
    {
      ghost var s := Rest();
      var n := 0;
      while pos < |src| && src[pos] != '\n'
        invariant Inside() && pos == old(pos) + n && n <= |s| && n + LineEnd(s[n..]) == LineEnd(s)
      {
        assert s[n..][1..] == s[n + 1..];
        pos, n := pos + 1, n + 1;
      }
    }

    /** All tokens of the text and the end, or an error. The list holds 1023 tokens and the end. */
    method Lex()
      modifies this
      ensures NumbersFit(tokens) && |tokens| <= 1024
      ensures errors == 0 ==> Scan(src, 1, 1023) == Some(tokens)
      ensures errors > 0 ==> Scan(src, 1, 1023) == None
    {
      hide LexemeAt, LineEnd;
      pos, line, tokens, errors := 0, 1, [], 0;
      assert src[0..] == src;
      NoTokensYet(Scan(src, 1, MAX_TOKENS));
      var stop := false;
      while pos < |src| && !stop
        invariant OnTrack() && (stop ==> errors > 0)
        decreases |src| - pos, if stop then 0 else 1
      {
        ghost var s := Rest();
        if src[pos] == '\n' {
          assert src[pos + 1..] == s[1..];
          line, pos := line + 1, pos + 1;
        } else if IsBlank(src[pos]) {
          assert src[pos + 1..] == s[1..];
          pos := pos + 1;
        } else if src[pos] == '/' && Ahead(1) == '/' {
          SkipComment();
          assert Rest() == s[LineEnd(s)..];
        } else if |tokens| >= MAX_TOKENS {
          errors := errors + 1;
          stop := true;
        } else {
          stop := Token();
        }
      }
      tokens := tokens + [Syntax.Token(TEof, line)];
    }

    method Token() returns (stop: bool)
      requires OnTrack() && pos < |src| && |tokens| < MAX_TOKENS && !IsBlank(src[pos]) && !StartsComment(Rest())
      modifies this`pos, this`errors, this`tokens
      ensures OnTrack() && pos > old(pos) && (stop ==> errors > 0)
    {
      hide LexemeAt, Scan, After;
      ghost var s, n, room := Rest(), pos, MAX_TOKENS - |tokens|;
      var k;
      k, stop := Lexeme();
      assert Rest() == s[pos - n..];
      TokenScans(tokens, s, line, room);
      tokens := if stop then tokens else tokens + [Syntax.Token(k, line)];
    }
  }

  lemma NoTokensYet(rest: Option<seq<Token>>)
    ensures After([], rest) == rest
  {
    if rest.Some? { assert [] + rest.value == rest.value; }
  }

  /** One token read in front of the rest. */
  lemma TokenScans(ts: seq<Token>, s: string, line: nat, room: nat)
    requires s != "" && !IsBlank(s[0]) && !StartsComment(s) && room > 0
    ensures match LexemeAt(s)
            case None => After(ts, Scan(s, line, room)) == None
            case Some((k, n)) => After(ts, Scan(s, line, room)) == After(ts + [Token(k, line)], Scan(s[n..], line, room - 1))
  {
    hide LexemeAt;
    if LexemeAt(s).Some? {
      var (k, n) := LexemeAt(s).value;
      var rest := Scan(s[n..], line, room - 1);
      if rest.Some? { assert ts + ([Token(k, line)] + rest.value) == ts + [Token(k, line)] + rest.value; }
    }
  }
}
