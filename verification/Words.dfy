/** 64-bit machine words, C-style division, little-endian bytes and byte-addressed memory. */
module Words {

  type byte = x: int | 0 <= x < 0x100

  const TWO_63: int := 0x8000_0000_0000_0000
  const TWO_64: int := 0x1_0000_0000_0000_0000
  const TWO_31: int := 0x8000_0000
  const TWO_32: int := 0x1_0000_0000

  /** A word is kept in its signed reading: every comparison the compiler emits is signed. */
  predicate IsWord(x: int) {
    -TWO_63 <= x < TWO_63
  }

  function Wrap(x: int): (w: int)
    ensures IsWord(w)
    ensures IsWord(x) ==> w == x
  {
    (x + TWO_63) % TWO_64 - TWO_63
  }

  predicate IsI32(x: int) {
    -TWO_31 <= x < TWO_31
  }

  function Min(a: nat, b: nat): nat {
    if a <= b then a else b
  }

  /** Division of C and of `idiv`: truncation toward zero. */
  function TruncDiv(a: int, b: int): (q: int)
    requires b != 0
  {
    if a >= 0 then (if b > 0 then a / b else -(a / -b))
    else (if b > 0 then -(-a / b) else -a / -b)
  }

  function TruncMod(a: int, b: int): int
    requires b != 0
  {
    a - TruncDiv(a, b) * b
  }

  /** cqo leaves the sign of rax in rdx, so the dividend of idiv is rax itself. */
  lemma SignExtendedDividend(x: int)
    requires IsWord(x)
    ensures (if x < 0 then -1 else 0) * TWO_64 + x % TWO_64 == x
  {
  }

  lemma Remainder(a: int, b: int)
    requires a >= 0 && b > 0
    ensures 0 <= a - a / b * b <= a
  {
    assert a - a / b * b == a % b;
    if a < b { DivModUnique(a, b, 0, a); }
  }

  /** The quotient and remainder of C: the remainder is smaller than the divisor and has the sign of the dividend. */
  lemma TruncatesTowardZero(a: int, b: int)
    requires b != 0
    ensures a == TruncDiv(a, b) * b + TruncMod(a, b) && -Abs(b) < TruncMod(a, b) < Abs(b)
    ensures (a >= 0 ==> TruncMod(a, b) >= 0) && (a <= 0 ==> TruncMod(a, b) <= 0)
  {
    var q, r := Abs(a) / Abs(b), Abs(a) % Abs(b);
    assert Abs(a) == Abs(b) * q + r;
    SignedProduct(q, b);
    assert Abs(b) * q == q * Abs(b);
    assert TruncDiv(a, b) * b == if a >= 0 then q * Abs(b) else -(q * Abs(b));
  }

  function Abs(x: int): (r: int)
    ensures r >= 0
  {
    if x >= 0 then x else -x
  }

  /** Wrapping keeps a value modulo 2^64. */
  lemma WrapCongruent(x: int)
    ensures -9223372036854775808 <= Wrap(x) <= 9223372036854775807 && (Wrap(x) - x) % 18446744073709551616 == 0
  {
    var k := (x + TWO_63) / TWO_64;
    assert Wrap(x) - x == TWO_64 * -k;
    DivModUnique(Wrap(x) - x, TWO_64, -k, 0);
  }

  lemma TruncModOfWord(x: int, y: int)
    requires IsWord(x) && y != 0
    ensures IsWord(TruncMod(x, y))
  {
    Remainder(if x >= 0 then x else -x, if y > 0 then y else -y);
    var q := (if x >= 0 then x else -x) / (if y > 0 then y else -y);
    assert TruncDiv(x, y) * y == if x >= 0 then q * (if y > 0 then y else -y) else -(q * (if y > 0 then y else -y)) by {
      SignedProduct(q, y);
    }
  }

  lemma SignedProduct(q: int, y: int)
    ensures -q * y == -(q * y) && q * -y == -(q * y) && -q * -y == q * y
  {
  }

  lemma TruncDivSmall(x: int, n: int)
    requires IsWord(x) && n >= 1
    ensures IsWord(TruncDiv(x, n))
  {
  }

  lemma TruncDivByOne(x: int)
    ensures TruncDiv(x, 1) == x
  {
  }

  /** Wrapping a summand first does not change a wrapped sum. */
  lemma WrapSum(x: int, y: int)
    ensures Wrap(x + Wrap(y)) == Wrap(x + y)
  {
    var k := (y + TWO_63) / TWO_64;
    assert Wrap(y) == y - TWO_64 * k;
    assert (x + y + TWO_63 - TWO_64 * k) % TWO_64 == (x + y + TWO_63) % TWO_64;
  }

  // ----- powers of 256 and little-endian byte strings -----

  function Pow256(n: nat): (p: int)
    ensures p >= 1
  {
    if n == 0 then 1 else 0x100 * Pow256(n - 1)
  }

  lemma Pow256Values()
    ensures Pow256(1) == 0x100 && Pow256(2) == 0x1_0000
    ensures Pow256(4) == TWO_32 && Pow256(8) == TWO_64
  {
    assert Pow256(3) == 0x100_0000 && Pow256(4) == TWO_32;
    assert Pow256(5) == 0x100_0000_0000 && Pow256(6) == 0x1_0000_0000_0000;
    assert Pow256(7) == 0x100_0000_0000_0000;
  }

  /** The low n bytes of v in two's complement, least significant first. */
  function LittleEndian(v: int, n: nat): (bs: seq<byte>)
    ensures |bs| == n
    decreases n
  {
    if n == 0 then [] else [v % 0x100] + LittleEndian(v / 0x100, n - 1)
  }

  function FromLittleEndian(bs: seq<byte>): int {
    if bs == [] then 0 else bs[0] + 0x100 * FromLittleEndian(bs[1..])
  }

  lemma ModStep(v: int, p: int)
    requires p >= 1
    ensures v % 0x100 + 0x100 * ((v / 0x100) % p) == v % (0x100 * p)
  {
    var q, r := (v / 0x100) / p, (v / 0x100) % p;
    assert v == (0x100 * p) * q + (v % 0x100 + 0x100 * r) by {
      assert v / 0x100 == p * q + r;
      assert 0x100 * (p * q) == (0x100 * p) * q;
    }
    DivModUnique(v, 0x100 * p, q, v % 0x100 + 0x100 * r);
  }

  lemma DivModUnique(x: int, d: int, q: int, r: int)
    requires d > 0 && x == d * q + r && 0 <= r < d
    ensures x / d == q && x % d == r
  {
    var k := x / d - q;
    assert d * (x / d) + x % d == x;
    assert d * k == d * (x / d) - d * q;
    SmallMultiple(d, k);
  }

  lemma SmallMultiple(d: int, k: int)
    requires d > 0 && -d < d * k < d
    ensures k == 0
  {
  }

  lemma {:induction false} LittleEndianRoundTrip(v: int, n: nat)
    ensures FromLittleEndian(LittleEndian(v, n)) == v % Pow256(n)
    decreases n
  {
    if n == 0 {
    } else {
      LittleEndianRoundTrip(v / 0x100, n - 1);
      var bs := LittleEndian(v, n);
      assert bs[1..] == LittleEndian(v / 0x100, n - 1);
      ModStep(v, Pow256(n - 1));
    }
  }

  // ----- memory -----

  /** Bytes at signed 64-bit addresses; an address never written reads as 0. */
  type Memory = map<int, byte>

  function Peek(m: Memory, a: int): byte {
    if a in m then m[a] else 0
  }

  /** n bytes read as an unsigned number. */
  function Load(m: Memory, a: int, n: nat): int
    decreases n
  {
    if n == 0 then 0 else Peek(m, a) + 0x100 * Load(m, a + 1, n - 1)
  }

  /** The low n bytes of v written at a. */
  function Store(m: Memory, a: int, n: nat, v: int): Memory
    decreases n
  {
    if n == 0 then m else Store(m[a := v % 0x100], a + 1, n - 1, v / 0x100)
  }

  lemma {:induction false} StoreElsewhere(m: Memory, a: int, n: nat, v: int, b: int)
    requires b < a || a + n <= b
    ensures Peek(Store(m, a, n, v), b) == Peek(m, b)
    ensures b in Store(m, a, n, v) <==> b in m
    decreases n
  {
    if n > 0 { StoreElsewhere(m[a := v % 0x100], a + 1, n - 1, v / 0x100, b); }
  }

  /** Storing the same value in two memories keeps them equal wherever they were equal. */
  lemma {:induction false} StoreSame(m: Memory, m': Memory, a: int, n: nat, v: int, b: int)
    requires Peek(m, b) == Peek(m', b) || a <= b < a + n
    ensures Peek(Store(m, a, n, v), b) == Peek(Store(m', a, n, v), b)
    decreases n
  {
    if n > 0 {
      var m1, m1' := m[a := v % 0x100], m'[a := v % 0x100];
      StoreSame(m1, m1', a + 1, n - 1, v / 0x100, b);
    }
  }

  lemma {:induction false} StoreKeys(m: Memory, a: int, n: nat, v: int)
    requires forall k :: a <= k < a + n ==> k in m
    ensures Store(m, a, n, v).Keys == m.Keys
    decreases n
  {
    if n > 0 {
      var m1 := m[a := v % 0x100];
      assert m1.Keys == m.Keys;
      StoreKeys(m1, a + 1, n - 1, v / 0x100);
    }
  }

  lemma {:induction false} LoadSame(m: Memory, m': Memory, a: int, n: nat)
    requires forall k :: a <= k < a + n ==> Peek(m, k) == Peek(m', k)
    ensures Load(m, a, n) == Load(m', a, n)
    decreases n
  {
    if n > 0 { LoadSame(m, m', a + 1, n - 1); }
  }

  /** Reading back what was stored gives the value reduced to its low n bytes. */
  lemma {:induction false} LoadStore(m: Memory, a: int, n: nat, v: int)
    ensures Load(Store(m, a, n, v), a, n) == v % Pow256(n)
    decreases n
  {
    if n > 0 {
      var m1 := m[a := v % 0x100];
      LoadStore(m1, a + 1, n - 1, v / 0x100);
      StoreElsewhere(m1, a + 1, n - 1, v / 0x100, a);
      ModStep(v, Pow256(n - 1));
    }
  }

  /** A store does not change what is read from a disjoint region. */
  lemma LoadStoreDisjoint(m: Memory, a: int, n: nat, v: int, b: int, k: nat)
    requires b + k <= a || a + n <= b
    ensures Load(Store(m, a, n, v), b, k) == Load(m, b, k)
  {
    forall j | b <= j < b + k
      ensures Peek(Store(m, a, n, v), j) == Peek(m, j)
    {
      StoreElsewhere(m, a, n, v, j);
    }
    LoadSame(Store(m, a, n, v), m, b, k);
  }

  lemma {:induction false} LoadRange(m: Memory, a: int, n: nat)
    ensures 0 <= Load(m, a, n) < Pow256(n)
    decreases n
  {
    if n > 0 { LoadRange(m, a + 1, n - 1); }
  }

  // ----- operand widths -----

  datatype Width = W8 | W16 | W32 | W64 {
    function Bytes(): (n: nat)
      ensures n == 1 || n == 2 || n == 4 || n == 8
    {
      match this case W8 => 1 case W16 => 2 case W32 => 4 case W64 => 8
    }
  }

  /** The value a load of width w puts in a 64-bit register: sign- or zero-extended. */
  function Extend(u: int, w: Width, signed: bool): int {
    match w
    case W8 => if signed && u >= 0x80 then u - 0x100 else u
    case W16 => if signed && u >= 0x8000 then u - 0x1_0000 else u
    case W32 => if signed && u >= TWO_31 then u - TWO_32 else u
    case W64 => if u >= TWO_63 then u - TWO_64 else u
  }

  function LoadExt(m: Memory, a: int, w: Width, signed: bool): (v: int)
    ensures IsWord(v)
  {
    LoadRange(m, a, w.Bytes());
    Pow256Values();
    Extend(Load(m, a, w.Bytes()), w, signed)
  }

  /** The value of v after a conversion to width w and back. */
  function Truncate(v: int, w: Width, signed: bool): int {
    Extend(v % Pow256(w.Bytes()), w, signed)
  }

  lemma LoadExtStore(m: Memory, a: int, w: Width, signed: bool, v: int)
    ensures LoadExt(Store(m, a, w.Bytes(), v), a, w, signed) == Truncate(v, w, signed)
  {
    LoadStore(m, a, w.Bytes(), v);
  }

  /** A full-width store is lossless on words. */
  lemma TruncateWord(v: int, signed: bool)
    requires IsWord(v)
    ensures Truncate(v, W64, signed) == v
  {
    Pow256Values();
  }

  // ----- bitwise operations, bit by bit -----

  function AndBits(a: int, b: int, n: nat): int
    decreases n
  {
    if n == 0 then 0 else a % 2 * (b % 2) + 2 * AndBits(a / 2, b / 2, n - 1)
  }

  function OrBits(a: int, b: int, n: nat): int
    decreases n
  {
    if n == 0 then 0
    else (if a % 2 == 1 || b % 2 == 1 then 1 else 0) + 2 * OrBits(a / 2, b / 2, n - 1)
  }

  function BitAnd(a: int, b: int): int {
    Wrap(AndBits(a, b, 64))
  }

  function BitOr(a: int, b: int): int {
    Wrap(OrBits(a, b, 64))
  }

  lemma {:induction false} AndBitsZero(b: int, n: nat)
    ensures AndBits(0, b, n) == 0
    decreases n
  {
    if n > 0 { AndBitsZero(b / 2, n - 1); }
  }

  lemma {:induction false} OrBitsZero(n: nat)
    ensures OrBits(0, 0, n) == 0
  {
    if n > 0 { OrBitsZero(n - 1); }
  }

  lemma BooleanBits(a: int, b: int, n: nat)
    requires a in {0, 1} && b in {0, 1} && n > 0
    ensures AndBits(a, b, n) == a * b
    ensures OrBits(a, b, n) == if a == 1 || b == 1 then 1 else 0
  {
    assert a / 2 == 0 && b / 2 == 0;
    AndBitsZero(0, n - 1);
    OrBitsZero(n - 1);
  }

  /** `and` and `or` on 0/1 values; `and` with 0 whatever the other word is. */
  lemma BitOpsOnBooleans(a: int, b: int, x: int)
    requires a in {0, 1} && b in {0, 1}
    ensures BitAnd(a, b) == a * b
    ensures BitOr(a, b) == if a == 1 || b == 1 then 1 else 0
    ensures BitAnd(0, x) == 0
  {
    BooleanBits(a, b, 64);
    AndBitsZero(x, 64);
  }

  function Pow2(n: nat): (p: int)
    ensures p >= 1
  {
    if n == 0 then 1 else 2 * Pow2(n - 1)
  }

  /** Masking with 2^k - 1 keeps the low k bits. */
  lemma {:induction false} AndBitsMask(a: int, k: nat, n: nat)
    requires k <= n
    ensures AndBits(a, Pow2(k) - 1, n) == a % Pow2(k)
    decreases n
  {
    if k == 0 {
      AndBitsSymmetric(a, 0, n);
      AndBitsZero(a, n);
    } else {
      var p := Pow2(k - 1);
      AndBitsMask(a / 2, k - 1, n - 1);
      assert (2 * p - 1) / 2 == p - 1 && (2 * p - 1) % 2 == 1;
      var q, r := (a / 2) / p, (a / 2) % p;
      assert a == (2 * p) * q + (a % 2 + 2 * r) by {
        assert a / 2 == p * q + r;
        assert 2 * (p * q) == (2 * p) * q;
      }
      DivModUnique(a, 2 * p, q, a % 2 + 2 * r);
    }
  }

  lemma {:induction false} AndBitsSymmetric(a: int, b: int, n: nat)
    ensures AndBits(a, b, n) == AndBits(b, a, n)
    decreases n
  {
    if n > 0 { AndBitsSymmetric(a / 2, b / 2, n - 1); }
  }

  lemma MaskByte(a: int)
    ensures BitAnd(a, 0xFF) == a % 0x100 && BitAnd(a, 0xFFFF) == a % 0x1_0000
  {
    assert Pow2(8) == 0x100 by { assert Pow2(4) == 16; assert Pow2(6) == 64; }
    assert Pow2(16) == 0x1_0000 by {
      assert Pow2(10) == 0x400; assert Pow2(12) == 0x1000; assert Pow2(14) == 0x4000;
    }
    AndBitsMask(a, 8, 64);
    AndBitsMask(a, 16, 64);
  }
}
