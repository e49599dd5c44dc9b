/** The shell's input line as UTF-8 (RFC 3629, section 3): its encoder, and the two decoders that read the line back. */
module Utf8 {
  type Bytes = seq<int>

  const LINE: nat := 256
  const SHELL_BAD: int := 63         // '?'
  const FONT_BAD: int := 0xFFFD

  /** Code points of up to 21 bits, all that the decoders can give, without the terminator. */
  predicate Plain(c: int) {
    0 < c < 0x20_0000
  }

  predicate AllPlain(cs: seq<int>) {
    forall i :: 0 <= i < |cs| ==> Plain(cs[i])
  }

  // ----- encoding -----

  function Encode(c: int): (bs: Bytes)
    requires Plain(c)
    ensures 1 <= |bs| <= 4
  {
    if c <= 0x7F then [c]
    else if c <= 0x7FF then [0xC0 + c / 0x40, 0x80 + c % 0x40]
    else if c <= 0xFFFF then [0xE0 + c / 0x1000, 0x80 + c / 0x40 % 0x40, 0x80 + c % 0x40]
    else [0xF0 + c / 0x4_0000, 0x80 + c / 0x1000 % 0x40, 0x80 + c / 0x40 % 0x40, 0x80 + c % 0x40]
  }

  function EncodeAll(cs: seq<int>): Bytes
    requires AllPlain(cs)
  {
    if cs == [] then [] else Encode(cs[0]) + EncodeAll(cs[1..])
  }

  // ----- decoding -----

  /** Behind the text stands the terminator. */
  function At(s: Bytes, i: nat): int {
    if i < |s| then s[i] else 0
  }

  predicate Continues(b: int) {
    b / 0x40 == 2
  }

  /** How many continuation bytes the first byte announces; -1 for a byte that cannot come first. */
  function Announced(b: int): int {
    if b < 0x80 then 0 else if b / 0x20 == 6 then 1 else if b / 0x10 == 0xE then 2 else if b / 8 == 0x1E then 3 else -1
  }

  predicate Complete(s: Bytes, n: int) {
    0 <= n <= 3 && (n >= 1 ==> Continues(At(s, 1))) && (n >= 2 ==> Continues(At(s, 2))) && (n >= 3 ==> Continues(At(s, 3)))
  }

  function Value(s: Bytes, n: int): int {
    match n
    case 0 => At(s, 0)
    case 1 => At(s, 0) % 0x20 * 0x40 + At(s, 1) % 0x40
    case 2 => At(s, 0) % 0x10 * 0x1000 + At(s, 1) % 0x40 * 0x40 + At(s, 2) % 0x40
    case _ => At(s, 0) % 8 * 0x4_0000 + At(s, 1) % 0x40 * 0x1000 + At(s, 2) % 0x40 * 0x40 + At(s, 3) % 0x40
  }

  /** The code points of a text, with bad in place of every byte that starts none. */
  function Codes(s: Bytes, bad: int): (cs: seq<int>)
    decreases |s|
  {
    if s == [] then []
    else
      var n := Announced(s[0]);
      if Complete(s, n) && n < |s| then [Value(s, n)] + Codes(s[n + 1..], bad) else [bad] + Codes(s[1..], bad)
  }

  lemma CompleteWithin(s: Bytes, n: int)
    requires s != []
    ensures Complete(s, n) ==> 0 <= n < |s|
  {
  }

  /** The shell's decoder: the code point at i and the bytes it takes. */
  method ShellChar(s: Bytes, i: nat) returns (used: nat, c: int)
    requires i < |s|
    ensures var t := s[i..];
            var n := Announced(t[0]);
            if Complete(t, n) then used == n + 1 && c == Value(t, n) else used == 1 && c == SHELL_BAD
  {
    ghost var t := s[i..];
    assert forall k: nat :: k < 4 ==> At(t, k) == At(s, i + k);
    var b0 := s[i];
    if b0 < 0x80 { return 1, b0; }
    if b0 / 0x20 == 6 {
      var b1 := At(s, i + 1);
      if b1 / 0x40 != 2 { return 1, SHELL_BAD; }
      return 2, b0 % 0x20 * 0x40 + b1 % 0x40;
    }
    if b0 / 0x10 == 0xE {
      var b1, b2 := At(s, i + 1), At(s, i + 2);
      if b1 / 0x40 != 2 || b2 / 0x40 != 2 { return 1, SHELL_BAD; }
      return 3, b0 % 0x10 * 0x1000 + b1 % 0x40 * 0x40 + b2 % 0x40;
    }
    if b0 / 8 == 0x1E {
      var b1, b2, b3 := At(s, i + 1), At(s, i + 2), At(s, i + 3);
      if b1 / 0x40 != 2 || b2 / 0x40 != 2 || b3 / 0x40 != 2 { return 1, SHELL_BAD; }
      return 4, b0 % 8 * 0x4_0000 + b1 % 0x40 * 0x1000 + b2 % 0x40 * 0x40 + b3 % 0x40;
    }
    return 1, SHELL_BAD;
  }

  /** A continuation byte's six bits, or -1. */
  function Cont(b: int): int {
    if b == 0 || b / 0x40 != 2 then -1 else b % 0x40
  }

  /** The font engine's decoder: the code point at i, and the index of its last byte. */
  method FontChar(s: Bytes, i: nat) returns (c: int, last: nat)
    requires i < |s|
    ensures var t := s[i..];
            var n := Announced(t[0]);
            if Complete(t, n) then last == i + n && c == Value(t, n) else last == i && c == FONT_BAD
  {
    ghost var t := s[i..];
    assert forall k: nat :: k < 4 ==> At(t, k) == At(s, i + k);
    var b0 := s[i];
    if b0 < 0x80 { return b0, i; }
    if b0 / 0x20 == 6 {
      var b1 := Cont(At(s, i + 1));
      if b1 < 0 { return FONT_BAD, i; }
      return b0 % 0x20 * 0x40 + b1, i + 1;
    }
    if b0 / 0x10 == 0xE {
      var b1, b2 := Cont(At(s, i + 1)), Cont(At(s, i + 2));
      if b1 < 0 || b2 < 0 { return FONT_BAD, i; }
      return b0 % 0x10 * 0x1000 + b1 * 0x40 + b2, i + 2;
    }
    if b0 / 8 == 0x1E {
      var b1, b2, b3 := Cont(At(s, i + 1)), Cont(At(s, i + 2)), Cont(At(s, i + 3));
      if b1 < 0 || b2 < 0 || b3 < 0 { return FONT_BAD, i; }
      return b0 % 8 * 0x4_0000 + b1 * 0x1000 + b2 * 0x40 + b3, i + 3;
    }
    return FONT_BAD, i;
  }

  /** The shell's loop over a text. */
  method ShellText(s: Bytes) returns (cs: seq<int>)
    ensures cs == Codes(s, '?' as int)
  {
    hide Value, Complete, Announced;
    cs := [];
    var i := 0;
    assert s[0..] == s;
    while i < |s|
      invariant i <= |s| && Codes(s, SHELL_BAD) == cs + Codes(s[i..], SHELL_BAD)
    {
      CodesNext(s, i, SHELL_BAD);
      var used, c := ShellChar(s, i);
      cs := cs + [c];
      i := i + used;
    }
  }

  /** The font engine's loop over a text. */
  method FontText(s: Bytes) returns (cs: seq<int>)
    ensures cs == Codes(s, 0xFFFD)
  {
    hide Value, Complete, Announced;
    cs := [];
    var i := 0;
    assert s[0..] == s;
    while i < |s|
      invariant i <= |s| && Codes(s, FONT_BAD) == cs + Codes(s[i..], FONT_BAD)
    {
      CodesNext(s, i, FONT_BAD);
      var c, last := FontChar(s, i);
      cs := cs + [c];
      i := last + 1;
    }
  }

  lemma CodesNext(s: Bytes, i: nat, bad: int)
    requires i < |s|
    ensures var t := s[i..];
            var n := Announced(t[0]);
            if Complete(t, n) then 0 <= n && i + n < |s| && Codes(t, bad) == [Value(t, n)] + Codes(s[i + n + 1..], bad)
            else Codes(t, bad) == [bad] + Codes(s[i + 1..], bad)
  {
    var t := s[i..];
    var n := Announced(t[0]);
    if Complete(t, n) {
      CompleteWithin(t, n);
      assert t[n + 1..] == s[i + n + 1..];
    } else {
      assert t[1..] == s[i + 1..];
    }
  }

  // ----- the line -----

  /** One byte, unless the buffer is full. */
  method AppendByte(buf: array<int>, pos: nat, b: int) returns (pos': nat)
    requires buf.Length == LINE && pos < LINE && buf[pos] == 0
    modifies buf
    ensures pos' < LINE && buf[pos'] == 0 && buf[..pos'] == Cut(old(buf[..pos]) + [b])
  {
    if pos + 1 >= LINE {
      assert Cut(buf[..pos] + [b]) == buf[..pos];
      return pos;
    }
    buf[pos] := b;
    buf[pos + 1] := 0;
    return pos + 1;
  }

  function Cut(bs: Bytes): Bytes {
    if |bs| < LINE then bs else bs[..LINE - 1]
  }

  lemma CutAppends(a: Bytes, b: Bytes, c: Bytes)
    ensures Cut(Cut(a + b) + c) == Cut(a + (b + c))
  {
    assert a + (b + c) == a + b + c;
  }

  method AppendCode(buf: array<int>, pos: nat, c: int) returns (pos': nat)
    requires buf.Length == LINE && pos < LINE && buf[pos] == 0 && Plain(c)
    modifies buf
    ensures pos' < LINE && buf[pos'] == 0 && buf[..pos'] == Cut(old(buf[..pos]) + Encode(c))
  {
    hide Cut;
    ghost var a := buf[..pos];
    if c <= 0x7F {
      pos' := AppendByte(buf, pos, c);
    } else if c <= 0x7FF {
      pos' := AppendByte(buf, pos, 0xC0 + c / 0x40);
      pos' := AppendByte(buf, pos', 0x80 + c % 0x40);
      TwoAppends(a, 0xC0 + c / 0x40, 0x80 + c % 0x40);
    } else if c <= 0xFFFF {
      pos' := AppendByte(buf, pos, 0xE0 + c / 0x1000);
      pos' := AppendByte(buf, pos', 0x80 + c / 0x40 % 0x40);
      pos' := AppendByte(buf, pos', 0x80 + c % 0x40);
      ThreeAppends(a, 0xE0 + c / 0x1000, 0x80 + c / 0x40 % 0x40, 0x80 + c % 0x40);
    } else {
      pos' := AppendByte(buf, pos, 0xF0 + c / 0x4_0000);
      pos' := AppendByte(buf, pos', 0x80 + c / 0x1000 % 0x40);
      pos' := AppendByte(buf, pos', 0x80 + c / 0x40 % 0x40);
      pos' := AppendByte(buf, pos', 0x80 + c % 0x40);
      ThreeAppends(a, 0xF0 + c / 0x4_0000, 0x80 + c / 0x1000 % 0x40, 0x80 + c / 0x40 % 0x40);
      CutAppends(a, [0xF0 + c / 0x4_0000, 0x80 + c / 0x1000 % 0x40, 0x80 + c / 0x40 % 0x40], [0x80 + c % 0x40]);
      assert [0xF0 + c / 0x4_0000, 0x80 + c / 0x1000 % 0x40, 0x80 + c / 0x40 % 0x40] + [0x80 + c % 0x40] == Encode(c);
    }
  }

  lemma TwoAppends(a: Bytes, x: int, y: int)
    ensures Cut(Cut(a + [x]) + [y]) == Cut(a + [x, y])
  {
    hide Cut;
    CutAppends(a, [x], [y]);
    assert [x] + [y] == [x, y];
  }

  lemma ThreeAppends(a: Bytes, x: int, y: int, z: int)
    ensures Cut(Cut(Cut(a + [x]) + [y]) + [z]) == Cut(a + [x, y, z])
  {
    hide Cut;
    TwoAppends(a, x, y);
    CutAppends(a, [x, y], [z]);
    assert [x, y] + [z] == [x, y, z];
  }

  /** The line buffer is filled from the code points; bytes that do not fit are dropped. */
  method SyncLine(buf: array<int>, cs: seq<int>) returns (pos: nat)
    requires buf.Length == 256 && AllPlain(cs)
    modifies buf
    ensures pos < 256 && buf[pos] == 0 && buf[..pos] == Cut(EncodeAll(cs))
  {
    hide Cut, Encode;
    pos := 0;
    buf[0] := 0;
    assert cs[..0] == [] && buf[..0] == [];
    CutNothing();
    for i := 0 to |cs|
      invariant pos < LINE && buf[pos] == 0 && buf[..pos] == Cut(EncodeAll(cs[..i]))
    {
      EncodeMore(cs[..i], cs[i]);
      assert cs[..i] + [cs[i]] == cs[..i + 1];
      CutAppends([], EncodeAll(cs[..i]), Encode(cs[i]));
      assert [] + EncodeAll(cs[..i]) == EncodeAll(cs[..i]) && [] + (EncodeAll(cs[..i]) + Encode(cs[i])) == EncodeAll(cs[..i + 1]);
      pos := AppendCode(buf, pos, cs[i]);
    }
    assert cs[..|cs|] == cs;
  }

  lemma CutNothing()
    ensures Cut([]) == []
  {
  }

  lemma {:induction false} EncodeMore(cs: seq<int>, c: int)
    requires AllPlain(cs) && Plain(c)
    ensures AllPlain(cs + [c]) && EncodeAll(cs + [c]) == EncodeAll(cs) + Encode(c)
  {
    hide Encode;
    if cs == [] {
      assert EncodeAll([c]) == Encode(c) + EncodeAll([]);
    } else {
      EncodeMore(cs[1..], c);
      assert (cs + [c])[1..] == cs[1..] + [c];
    }
  }

  // ----- reading back -----

  lemma EncodeReads(c: int, rest: Bytes)
    requires Plain(c)
    ensures var s := Encode(c) + rest;
            var n := Announced(s[0]);
            n == |Encode(c)| - 1 && Complete(s, n) && Value(s, n) == c && s[n + 1..] == rest
  {
    var s := Encode(c) + rest;
    assert s[|Encode(c)|..] == rest;
    FirstByte(c);
    forall k: nat | k < |Encode(c)| ensures At(s, k) == Encode(c)[k] { }
    assert At(s, 0) == Encode(c)[0];
    if c > 0x7F { assert At(s, 1) == Encode(c)[1]; }
    if c > 0x7FF { assert At(s, 2) == Encode(c)[2]; }
    if c > 0xFFFF { assert At(s, 3) == Encode(c)[3]; }
    hide At;
    ValueBack(c);
  }

  lemma FirstByte(c: int)
    requires Plain(c)
    ensures Announced(Encode(c)[0]) == |Encode(c)| - 1
  {
  }

  /** The six-bit groups put together again. */
  lemma ValueBack(c: int)
    requires Plain(c)
    ensures c / 0x40 / 0x40 == c / 0x1000 && c / 0x1000 / 0x40 == c / 0x4_0000
    ensures c == c / 0x40 * 0x40 + c % 0x40 && c / 0x40 == c / 0x1000 * 0x40 + c / 0x40 % 0x40
    ensures c / 0x1000 == c / 0x4_0000 * 0x40 + c / 0x1000 % 0x40
  {
  }

  /** A code point takes one byte below 128, two below 2048, three below 65536, and four above. */
  lemma EncodedLength(c: int)
    requires Plain(c)
    ensures |Encode(c)| == if c < 128 then 1 else if c < 2048 then 2 else if c < 65536 then 3 else 4
  {
  }

  /** No shorter bytes are read as the code point, but where it is the mark for an error. */
  lemma ShortestForm(c: int, s: Bytes, bad: int)
    requires Plain(c) && c != bad && (forall i :: 0 <= i < |s| ==> 0 <= s[i] < 256) && Codes(s, bad) == [c]
    ensures |s| >= |Encode(c)|
  {
    hide Encode;
    EncodedLength(c);
    var n := Announced(s[0]);
    if Complete(s, n) {
      CompleteWithin(s, n);
      ValueBound(s, n);
      assert Codes(s, bad)[0] == Value(s, n);
    } else {
      assert Codes(s, bad)[0] == bad;
    }
  }

  lemma ValueBound(s: Bytes, n: int)
    requires s != [] && n == Announced(s[0]) && Complete(s, n) && n < |s| && forall i :: 0 <= i < |s| ==> 0 <= s[i] < 256
    ensures n == 0 ==> Value(s, n) < 128
    ensures n == 1 ==> Value(s, n) < 2048
    ensures n == 2 ==> Value(s, n) < 65536
  {
  }

  /** Cut inside its encoding, a code point is no longer there: every byte of it that is left is an error. */
  lemma {:induction false} CutEncoding(c: int, n: nat, bad: int)
    requires Plain(c) && 0 < n < |Encode(c)|
    ensures c >= 0x80 && Codes(Encode(c)[..n], bad) == Marks(n, bad)
  {
    var s := Encode(c)[..n];
    assert !Complete(s, Announced(s[0])) && |s| == n;
    assert n > 1 ==> Announced(s[1]) == -1;
    assert n > 2 ==> Announced(s[2]) == -1;
    LoneTail(s[1..], bad);
  }

  /** Continuation bytes with no first byte before them. */
  lemma {:induction false} LoneTail(s: Bytes, bad: int)
    requires forall i :: 0 <= i < |s| ==> Announced(s[i]) == -1
    ensures Codes(s, bad) == Marks(|s|, bad)
    decreases |s|
  {
    hide Value, Announced;
    if s != [] { LoneTail(s[1..], bad); }
  }

  function Marks(n: nat, bad: int): (cs: seq<int>)
    ensures |cs| == n && forall i :: 0 <= i < n ==> cs[i] == bad
  {
    if n == 0 then [] else [bad] + Marks(n - 1, bad)
  }

  /** Every line is read back as it was, by either decoder. */
  lemma {:induction false} RoundTrip(cs: seq<int>, bad: int)
    requires AllPlain(cs)
    ensures Codes(EncodeAll(cs), bad) == cs
  {
    hide Encode, Value, Announced, Complete;
    if cs != [] {
      EncodeReads(cs[0], EncodeAll(cs[1..]));
      RoundTrip(cs[1..], bad);
    }
  }

  /** The last j code points are the font engine's mark for an error. */
  predicate EndsMarked(cs: seq<int>, j: nat) {
    j <= |cs| && forall i :: |cs| - j <= i < |cs| ==> cs[i] == FONT_BAD
  }

  /** n bytes are left and the font engine's marks for the bytes cut off stand where the line had that code point itself. */
  predicate Masked(cs: seq<int>, n: nat, bad: int)
    requires AllPlain(cs)
  {
    bad == FONT_BAD &&
    ((EndsMarked(cs, 1) && n + 2 == |EncodeAll(cs)|) || (EndsMarked(cs, 2) && n + 4 == |EncodeAll(cs)|))
  }

  lemma MarkedSize(cs: seq<int>, j: nat)
    requires AllPlain(cs) && j <= 2 && EndsMarked(cs, j)
    ensures |EncodeAll(cs)| >= 3 * j
  {
    if j > 0 {
      var front := cs[..|cs| - 1];
      assert cs == front + [FONT_BAD];
      EncodeMore(front, FONT_BAD);
      if j == 2 {
        assert front == front[..|front| - 1] + [FONT_BAD];
        EncodeMore(front[..|front| - 1], FONT_BAD);
      }
    }
  }

  /** Cut to n bytes, a line is read back as it was exactly if nothing was cut or the marks for an error hide the cut. */
  lemma {:induction false} CutRoundTrip(cs: seq<int>, n: nat, bad: int)
    requires AllPlain(cs) && n <= |EncodeAll(cs)| && (bad == SHELL_BAD || bad == FONT_BAD)
    ensures Codes(EncodeAll(cs)[..n], bad) == cs <==> n == |EncodeAll(cs)| || Masked(cs, n, bad)
  {
    hide Encode, Value, Announced, Complete;
    if cs == [] {
    } else if n >= |Encode(cs[0])| {
      CutLater(cs, n, bad);
      CutRoundTrip(cs[1..], n - |Encode(cs[0])|, bad);
    } else {
      CutFirst(cs, n, bad);
    }
  }

  lemma CutLater(cs: seq<int>, n: nat, bad: int)
    requires AllPlain(cs) && cs != [] && |Encode(cs[0])| <= n <= |EncodeAll(cs)|
    ensures var k := |Encode(cs[0])|;
            (Codes(EncodeAll(cs)[..n], bad) == cs <==> Codes(EncodeAll(cs[1..])[..n - k], bad) == cs[1..]) &&
            (Masked(cs, n, bad) <==> Masked(cs[1..], n - k, bad)) && |EncodeAll(cs)| == k + |EncodeAll(cs[1..])|
  {
    hide Encode, Value, Announced, Complete, Codes;
    var rest, k := cs[1..], |Encode(cs[0])|;
    var t := EncodeAll(rest)[..n - k];
    assert EncodeAll(cs)[..n] == Encode(cs[0]) + t;
    CodesFirst(cs[0], t, bad);
    assert cs == [cs[0]] + rest && ([cs[0]] + Codes(t, bad))[1..] == Codes(t, bad);
    forall j: nat | 0 < j <= 2 ensures j <= |rest| ==> (EndsMarked(cs, j) <==> EndsMarked(rest, j)) {
      if j <= |rest| && EndsMarked(rest, j) { forall i | |cs| - j <= i < |cs| ensures cs[i] == FONT_BAD { assert cs[i] == rest[i - 1]; } }
    }
    if |rest| < 2 && EndsMarked(cs, 2) { MarkedSize(cs, 2); MarkedFirst(cs); }
  }

  lemma MarkedFirst(cs: seq<int>)
    requires |cs| > 0 && cs[0] == FONT_BAD
    ensures |Encode(cs[0])| == 3
  {
  }

  lemma CodesFirst(c: int, t: Bytes, bad: int)
    requires Plain(c)
    ensures Codes(Encode(c) + t, bad) == [c] + Codes(t, bad)
  {
    hide Encode, Value, Announced, Complete;
    EncodeReads(c, t);
  }

  lemma CutFirst(cs: seq<int>, n: nat, bad: int)
    requires AllPlain(cs) && cs != [] && n < |Encode(cs[0])| && (bad == SHELL_BAD || bad == FONT_BAD)
    ensures Codes(EncodeAll(cs)[..n], bad) == cs <==> Masked(cs, n, bad)
  {
    hide Encode, Value, Announced, Complete, Codes;
    var rest, k := cs[1..], |Encode(cs[0])|;
    assert EncodeAll(cs)[..n] == Encode(cs[0])[..n];
    if EndsMarked(cs, 1) { MarkedSize(cs, 1); if |cs| > 1 { assert EndsMarked(rest, 1); MarkedSize(rest, 1); } }
    if EndsMarked(cs, 2) { MarkedSize(cs, 2); if |cs| > 2 { assert EndsMarked(rest, 2); MarkedSize(rest, 2); } }
    MarkSizes();
    assert rest == [] ==> |EncodeAll(cs)| == k;
    assert |rest| == 1 ==> rest == [rest[0]] && |EncodeAll(rest)| == |Encode(rest[0])| by { if |rest| == 1 { assert EncodeAll(rest[1..]) == []; } }
    if n > 0 {
      CutEncoding(cs[0], n, bad);
      if Codes(EncodeAll(cs)[..n], bad) == cs {
        assert cs[0] == bad;
        assert EndsMarked(cs, n);
      }
      if Masked(cs, n, bad) { assert cs == Marks(n, bad); }
    } else {
      assert Encode(cs[0])[..0] == [];
      NoCodes(bad);
    }
  }

  lemma MarkSizes()
    ensures |Encode(FONT_BAD)| == 3 && |Encode(SHELL_BAD)| == 1
  {
  }

  lemma NoCodes(bad: int)
    ensures Codes([], bad) == []
  {
  }

  /** What the line buffer holds is what was typed exactly if it fits into 255 bytes or the cut is hidden. */
  lemma LineReadBack(cs: seq<int>, bad: int)
    requires AllPlain(cs) && (bad == '?' as int || bad == 0xFFFD)
    ensures Codes(Cut(EncodeAll(cs)), bad) == cs <==> |EncodeAll(cs)| <= 255 || Masked(cs, 255, bad)
  {
    var bs := EncodeAll(cs);
    CutRoundTrip(cs, if |bs| < LINE then |bs| else LINE - 1, bad);
    assert bs[..|bs|] == bs;
  }

  /** On every text the decoders take the same steps and differ only in the mark for an error. */
  lemma {:induction false} DecodersAgree(s: Bytes)
    ensures var a, b := Codes(s, SHELL_BAD), Codes(s, FONT_BAD);
            |a| == |b| && forall i :: 0 <= i < |a| ==> a[i] == b[i] || (a[i] == SHELL_BAD && b[i] == FONT_BAD)
    decreases |s|
  {
    hide Value, Announced, Complete;
    if s != [] {
      var n := Announced(s[0]);
      CompleteWithin(s, n);
      DecodersAgree(if Complete(s, n) && n < |s| then s[n + 1..] else s[1..]);
    }
  }
}
