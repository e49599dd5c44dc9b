/** Directories of a FAT32 volume: long and short names, searching and listing. */
module FatDirectory {
  import opened Syntax
  import opened FatVolume
  import opened PathWords
  import Words

  const NAME_BUFFER: nat := 256
  const COMPONENT: nat := 63         // a component or a listed name is cut to 63 bytes

  // ----- C strings -----

  /** The bytes before the first zero. */
  function CStr(b: seq<int>): (r: Bytes)
    ensures |r| <= |b| && (0 in b ==> |r| < |b| && b[|r|] == 0) && b[..|r|] == r && 0 !in r
  {
    if b == [] || b[0] == 0 then [] else [b[0]] + CStr(b[1..])
  }

  lemma {:induction false} CStrIs(b: seq<int>, r: Bytes)
    requires |r| < |b| && b[..|r|] == r && b[|r|] == 0 && 0 !in r
    ensures CStr(b) == r
  {
    if r != [] {
      assert b[0] == r[0] && b[1..][..|r| - 1] == r[1..];
      CStrIs(b[1..], r[1..]);
      assert r == [r[0]] + r[1..];
    }
  }

  function Upper(c: int): int {
    if 97 <= c <= 122 then c - 32 else c
  }

  predicate EqualFold(a: Bytes, b: Bytes) {
    |a| == |b| && forall i :: 0 <= i < |a| ==> Upper(a[i]) == Upper(b[i])
  }

  method StrEqual(a: Bytes, b: Bytes) returns (same: bool)
    ensures same == EqualFold(a, b)
  {
    var i := 0;
    while i < |a| && i < |b|
      invariant i <= |a| && i <= |b| && forall j :: 0 <= j < i ==> Upper(a[j]) == Upper(b[j])
    {
      if Upper(a[i]) != Upper(b[i]) { return false; }
      i := i + 1;
    }
    same := i == |a| && i == |b|;
  }

  // ----- names -----

  function Trim(s: Bytes): Bytes {
    if s != [] && s[|s| - 1] == 32 then Trim(s[..|s| - 1]) else s
  }

  type Raw = e: seq<int> | |e| == 32 && forall i :: 0 <= i < |e| ==> 0 <= e[i] < 256 witness seq(32, _ => 0)

  /** The 8.3 name: base and extension without trailing spaces, and a dot if there is an extension. */
  function ShortName(e: Raw): Bytes {
    var ext := Trim(CStr(e[8..11]));
    Trim(CStr(e[..8])) + if ext == [] then [] else [46] + ext
  }

  function Units(e: Raw, off: nat, n: nat): (r: seq<int>)
    requires off + 2 * n <= 32
    ensures |r| == n && forall i :: 0 <= i < n ==> r[i] >= 0
  {
    seq(n, i requires 0 <= i < n => e[off + 2 * i] + 0x100 * e[off + 2 * i + 1])
  }

  /** Where a long-name entry's characters go. An order of 0 gives a place far beyond the buffer. */
  function Base(e: Raw): (b: nat)
    ensures b <= 390 || b == 0xFFFF_FFF3
  {
    var order := e[0] % 32;
    if order == 0 then 0xFFFF_FFF3 else (order - 1) * 13
  }

  predicate Ends(u: int) {
    u == 0 || u == 0xFFFF
  }

  /** The characters put at base: up to an end mark or the end of the buffer. */
  function Part(us: seq<int>, base: nat): (r: Bytes)
    ensures |r| <= |us|
  {
    if us == [] || Ends(us[0]) || base + 1 >= NAME_BUFFER then []
    else [if us[0] <= 0xFF then us[0] else 63] + Part(us[1..], base + 1)
  }

  /** Characters put at base extend or overwrite the name; beyond its end they have no effect. */
  function Put(name: Bytes, base: nat, cs: Bytes): Bytes {
    if cs == [] || base > |name| then name else name[..base] + cs
  }

  function PutUnits(name: Bytes, base: nat, us: seq<int>): Bytes {
    Put(name, base, Part(us, base))
  }

  function Decoded(name: Bytes, e: Raw): Bytes {
    var n1 := PutUnits(name, Base(e), Units(e, 1, 5));
    var n2 := PutUnits(n1, Base(e) + 5, Units(e, 14, 6));
    PutUnits(n2, Base(e) + 11, Units(e, 28, 2))
  }

  lemma PutChar(b: seq<int>, k: nat, v: int)
    requires k + 1 < |b| && v != 0 && 0 in b
    ensures 0 in b[k := v][k + 1 := 0] && CStr(b[k := v][k + 1 := 0]) == Put(CStr(b), k, [v])
  {
    var name, b' := CStr(b), b[k := v][k + 1 := 0];
    assert b'[k + 1] == 0;
    if k > |name| {
      assert b'[..|name|] == b[..|name|];
      CStrIs(b', name);
    } else {
      assert b'[..k + 1] == name[..k] + [v];
      CStrIs(b', name[..k] + [v]);
    }
  }

  lemma PutMore(name: Bytes, base: nat, cs: Bytes, v: int)
    ensures Put(Put(name, base, cs), base + |cs|, [v]) == Put(name, base, cs + [v])
  {
    if cs == [] {
      assert cs + [v] == [v];
    } else if base <= |name| {
      assert (name[..base] + cs)[..base + |cs|] + [v] == name[..base] + (cs + [v]);
    }
  }

  lemma {:induction false} PartMore(us: seq<int>, base: nat, i: nat)
    requires i <= |Part(us, base)|
    ensures Part(us, base)[i..] == Part(us[i..], base + i)
  {
    if i == 0 {
      assert us[0..] == us;
    } else {
      PartMore(us[1..], base + 1, i - 1);
      assert us[1..][i - 1..] == us[i..];
    }
  }

  /** The characters of one field, one by one, each followed by a new end of the string. */
  method AppendUnits(out: array<int>, base: nat, us: seq<int>)
    requires out.Length == 256 && 0 in out[..]
    requires forall i :: 0 <= i < |us| ==> us[i] >= 0
    modifies out
    ensures 0 in out[..] && CStr(out[..]) == PutUnits(old(CStr(out[..])), base, us)
  {
    hide CStr, Put;
    ghost var name, part := CStr(out[..]), Part(us, base);
    var i := 0;
    PutNothing(name, base);
    assert part[..0] == [];
    while i < |us|
      invariant i <= |part| <= |us| && 0 in out[..] && CStr(out[..]) == Put(name, base, part[..i])
    {
      PartMore(us, base, i);
      if Ends(us[i]) || base + i + 1 >= NAME_BUFFER {
        assert part[i..] == [] && part[..i] == part;
        return;
      }
      ghost var before := out[..];
      var v := if us[i] <= 0xFF then us[i] else 63;
      assert part[i..][0] == v;
      out[base + i] := v;
      out[base + i + 1] := 0;
      assert out[..] == before[base + i := v][base + i + 1 := 0];
      PutChar(before, base + i, v);
      PutMore(name, base, part[..i], v);
      assert part[..i + 1] == part[..i] + [v];
      i := i + 1;
    }
    assert part[..i] == part;
  }

  lemma PutNothing(name: Bytes, base: nat)
    ensures Put(name, base, []) == name
  {
  }

  // ----- entries -----

  function Attr(e: Raw): int {
    e[11]
  }

  predicate IsLong(e: Raw) {
    Attr(e) == 0x0F
  }

  predicate IsDir(e: Raw) {
    Attr(e) / 0x10 % 2 == 1
  }

  function Size(e: Raw): nat {
    e[28] + 0x100 * e[29] + 0x1_0000 * e[30] + 0x100_0000 * e[31]
  }

  function ClusterOf(e: Raw): nat {
    e[26] + 0x100 * e[27] + 0x1_0000 * e[20] + 0x100_0000 * e[21]
  }

  /** Deleted entries, parts of long names, volume labels. */
  predicate Hidden(e: Raw) {
    e[0] == 0xE5 || IsLong(e) || Attr(e) / 8 % 2 == 1
  }

  /** The long name collected so far after a hidden entry. */
  function NameAfter(name: Bytes, e: Raw): Bytes {
    if e[0] != 0xE5 && IsLong(e) then Decoded(name, e) else []
  }

  function NameOf(name: Bytes, e: Raw): Bytes {
    if name != [] then name else ShortName(e)
  }

  // ----- an entry as it is written -----

  function Padded(w: Bytes, n: nat): (r: Bytes)
    requires |w| <= n
    ensures |r| == n && r[..|w|] == w && forall i :: |w| <= i < n ==> r[i] == 32
  {
    w + seq(n - |w|, _ => 32)
  }

  /** A name or extension without zeros that does not end in a space. */
  predicate NamePart(w: Bytes, n: nat) {
    |w| <= n && (forall i :: 0 <= i < |w| ==> 0 < w[i] < 256) && (w != [] ==> w[|w| - 1] != 32)
  }

  function NameBytes(w: Bytes, n: nat): (r: seq<Words.byte>)
    requires NamePart(w, n)
    ensures r == Padded(w, n)
  {
    Padded(w, n)
  }

  /** The 32 bytes of a short entry: name, extension, attributes, and the cluster in two halves before the size. */
  function Written(base: Bytes, ext: Bytes, attr: int, cluster: nat, size: nat): (e: Raw)
    requires NamePart(base, 8) && NamePart(ext, 3) && 0 <= attr < 256 && cluster < 0x1_0000_0000 && size < 0x1_0000_0000
  {
    var bytes: seq<Words.byte> := NameBytes(base, 8) + NameBytes(ext, 3) + [attr] + [0, 0, 0, 0, 0, 0, 0, 0] +
      Words.LittleEndian(cluster / 0x1_0000, 2) + [0, 0, 0, 0] + Words.LittleEndian(cluster % 0x1_0000, 2) + Words.LittleEndian(size, 4);
    bytes
  }

  /** An entry is read as it was written: the name with a dot before an extension, the cluster, the size, the directory bit. */
  lemma WrittenReads(base: Bytes, ext: Bytes, attr: int, cluster: nat, size: nat)
    requires NamePart(base, 8) && NamePart(ext, 3) && 0 <= attr < 256 && cluster < 0x1_0000_0000 && size < 0x1_0000_0000
    ensures var e := Written(base, ext, attr, cluster, size);
            ShortName(e) == base + (if ext == [] then [] else [46] + ext) && ClusterOf(e) == cluster && Size(e) == size &&
            Attr(e) == attr && e[0] == if base == [] then 32 else base[0]
  {
    hide CStr, Trim, Words.LittleEndian;
    var e := Written(base, ext, attr, cluster, size);
    assert e[..8] == Padded(base, 8) && e[8..11] == Padded(ext, 3) && e[0] == Padded(base, 8)[0];
    PaddedReads(base, 8);
    PaddedReads(ext, 3);
    TwoBytes(cluster / 0x1_0000);
    TwoBytes(cluster % 0x1_0000);
    FourBytes(size);
    var h, l, z := Words.LittleEndian(cluster / 0x1_0000, 2), Words.LittleEndian(cluster % 0x1_0000, 2), Words.LittleEndian(size, 4);
    assert e[20] == h[0] && e[21] == h[1] && e[26] == l[0] && e[27] == l[1];
    assert e[28] == z[0] && e[29] == z[1] && e[30] == z[2] && e[31] == z[3];
  }

  lemma TwoBytes(x: nat)
    requires x < 0x1_0000
    ensures var l: seq<int> := Words.LittleEndian(x, 2); l[0] + 0x100 * l[1] == x
  {
    assert Words.LittleEndian(x, 2) == [x % 0x100] + Words.LittleEndian(x / 0x100, 1);
  }

  lemma PaddedReads(w: Bytes, n: nat)
    requires NamePart(w, n)
    ensures Trim(CStr(Padded(w, n))) == w
  {
    var p := Padded(w, n);
    WholeCStr(p);
    TrimPadded(w, p);
  }

  lemma {:induction false} WholeCStr(b: seq<int>)
    requires 0 !in b
    ensures CStr(b) == b
  {
    if b != [] { WholeCStr(b[1..]); }
  }

  lemma {:induction false} TrimPadded(w: Bytes, p: Bytes)
    requires |w| <= |p| && p[..|w|] == w && (w != [] ==> w[|w| - 1] != 32) && forall i :: |w| <= i < |p| ==> p[i] == 32
    ensures Trim(p) == w
    decreases |p|
  {
    if |p| > |w| {
      assert p[..|p| - 1][..|w|] == w;
      TrimPadded(w, p[..|p| - 1]);
    } else if w != [] {
      assert p == w;
    }
  }

  /** In the attribute byte, the bit of value 16 marks a directory, the one of value 8 a label, and 15 a part of a long name. */
  lemma AttrBits(e: Raw, high: int, low: int)
    requires e[11] == 16 * high + low && 0 <= low < 16
    ensures IsDir(e) <==> high in {1, 3, 5, 7, 9, 11, 13, 15}
    ensures Hidden(e) <==> e[0] == 229 || (high, low) == (0, 15) || low in {8, 9, 10, 11, 12, 13, 14, 15}
  {
    assert e[11] / 16 == high && e[11] / 8 == 2 * high + low / 8;
  }

  const SMALL := "abcdefghijklmnopqrstuvwxyz"
  const CAPITAL := "ABCDEFGHIJKLMNOPQRSTUVWXYZ"

  /** The same letter, one small and one capital. */
  predicate OtherCase(x: int, y: int) {
    exists k :: 0 <= k < 26 && ((x == SMALL[k] as int && y == CAPITAL[k] as int) || (x == CAPITAL[k] as int && y == SMALL[k] as int))
  }

  /** Two names are the same to a search if and only if they differ in the case of letters only. */
  lemma FoldsCase(a: Bytes, b: Bytes)
    ensures EqualFold(a, b) <==> |a| == |b| && forall i :: 0 <= i < |a| ==> a[i] == b[i] || OtherCase(a[i], b[i])
  {
    hide OtherCase, Upper;
    forall i | 0 <= i < |a| && i < |b| ensures Upper(a[i]) == Upper(b[i]) <==> a[i] == b[i] || OtherCase(a[i], b[i]) {
      UpperIs(a[i], b[i]);
    }
  }

  lemma UpperIs(x: int, y: int)
    ensures Upper(x) == Upper(y) <==> x == y || OtherCase(x, y)
  {
    Letters();
    if Upper(x) == Upper(y) && x != y {
      var k := if 97 <= x <= 122 then x - 97 else y - 97;
      assert 0 <= k < 26 && SMALL[k] as int == 97 + k && CAPITAL[k] as int == 65 + k;
    }
  }

  lemma Letters()
    ensures |SMALL| == |CAPITAL| == 26 && forall k :: 0 <= k < 26 ==> SMALL[k] as int == 97 + k && CAPITAL[k] as int == 65 + k
  {
  }

  // ----- what a directory is -----

  datatype Piece = Entry(raw: Raw) | Unreadable

  function SectorPieces(b: Sector, i: nat): (ps: seq<Piece>)
    decreases 16 - i
  {
    if i >= 16 then [] else [Entry(b[32 * i..32 * i + 32])] + SectorPieces(b, i + 1)
  }

  /** Entry i of a sector, and the pieces that follow it. */
  lemma NextPiece(b: Sector, i: nat, rest: seq<Piece>)
    ensures i < 16 ==> var ps := SectorPieces(b, i) + rest;
                       ps != [] && ps[0] == Entry(b[32 * i..32 * i + 32]) && ps[1..] == SectorPieces(b, i + 1) + rest
    ensures i >= 16 ==> SectorPieces(b, i) + rest == rest
  {
  }

  function ClusterPieces(m: Mount, c: nat, s: nat): seq<Piece>
    decreases m.perCluster - s
  {
    if s >= m.perCluster then [] else
      match m.disk(SectorOf(m, c, s))
      case None => [Unreadable]
      case Some(b) => SectorPieces(b, 0) + ClusterPieces(m, c, s + 1)
  }

  /** What there is to read in the first n clusters of the directory that starts at cluster c. */
  function PiecesUpTo(m: Mount, c: nat, n: nat): seq<Piece>
    decreases n
  {
    if !InChain(c) || n == 0 then []
    else ClusterPieces(m, c, 0) + if FatEntry(m, c).None? then [Unreadable] else PiecesUpTo(m, FatEntry(m, c).value, n - 1)
  }

  /** The chain from c reaches its end mark within n clusters. */
  predicate ChainEnds(m: Mount, c: nat, n: nat)
    decreases n
  {
    InChain(c) ==> n > 0 && FatEntry(m, c).Some? && ChainEnds(m, FatEntry(m, c).value, n - 1)
  }

  /** A scan stops at a piece that cannot be read and at the end mark. */
  predicate Halts(p: Piece) {
    p.Unreadable? || p.raw[0] == 0
  }

  ghost predicate NoneHalts(ps: seq<Piece>) {
    forall i :: 0 <= i < |ps| ==> !Halts(ps[i])
  }

  datatype Listed = Listed(name: Bytes, raw: Raw)

  /** The entries with their names, up to the end mark or the first piece that cannot be read. */
  function Listing(ps: seq<Piece>, name: Bytes): seq<Listed> {
    if ps == [] || Halts(ps[0]) then []
    else if Hidden(ps[0].raw) then Listing(ps[1..], NameAfter(name, ps[0].raw))
    else [Listed(NameOf(name, ps[0].raw), ps[0].raw)] + Listing(ps[1..], [])
  }

  predicate Readable(ps: seq<Piece>) {
    ps == [] || if Halts(ps[0]) then ps[0].Entry? else Readable(ps[1..])
  }

  // ----- searching -----

  /** A search has found its entry, has stopped without it, or goes on with the name collected so far. */
  datatype Outcome = Found(raw: Raw) | Stopped | Going(name: Bytes)

  function Hit(o: Outcome): Option<Raw> {
    if o.Found? then Some(o.raw) else None
  }

  function Scan(ps: seq<Piece>, name: Bytes, component: Bytes): Outcome {
    if ps == [] then Going(name)
    else if Halts(ps[0]) then Stopped
    else if Hidden(ps[0].raw) then Scan(ps[1..], NameAfter(name, ps[0].raw), component)
    else if EqualFold(NameOf(name, ps[0].raw), component) then Found(ps[0].raw)
    else Scan(ps[1..], [], component)
  }

  /** The search over the first n clusters of the chain from c, one after the other. */
  function Walk(m: Mount, c: nat, name: Bytes, component: Bytes, n: nat): Outcome
    decreases n
  {
    if !InChain(c) then Stopped
    else if n == 0 then Going(name)
    else
      var o := Scan(ClusterPieces(m, c, 0), name, component);
      if !o.Going? then o
      else if FatEntry(m, c).None? then Stopped
      else Walk(m, FatEntry(m, c).value, o.name, component, n - 1)
  }

  lemma {:induction false} ScanAppends(a: seq<Piece>, b: seq<Piece>, name: Bytes, component: Bytes)
    ensures var o := Scan(a, name, component); Scan(a + b, name, component) == if o.Going? then Scan(b, o.name, component) else o
  {
    hide EqualFold, NameAfter, NameOf, Hidden;
    if a == [] {
      assert a + b == b;
    } else {
      assert (a + b)[0] == a[0] && (a + b)[1..] == a[1..] + b;
      if a[0].Entry? { ScanAppends(a[1..], b, if Hidden(a[0].raw) then NameAfter(name, a[0].raw) else [], component); }
    }
  }

  lemma {:induction false} WalkScans(m: Mount, c: nat, name: Bytes, component: Bytes, n: nat)
    ensures var o := Scan(PiecesUpTo(m, c, n), name, component);
            Walk(m, c, name, component, n) == if o.Going? && ChainEnds(m, c, n) then Stopped else o
    decreases n
  {
    hide Scan, FatEntry, ClusterPieces;
    ScanEnds(name, component);
    if InChain(c) && n > 0 {
      var a, o := ClusterPieces(m, c, 0), Scan(ClusterPieces(m, c, 0), name, component);
      ScanAppends(a, if FatEntry(m, c).None? then [Unreadable] else PiecesUpTo(m, FatEntry(m, c).value, n - 1), name, component);
      if o.Going? {
        ScanEnds(o.name, component);
        if FatEntry(m, c).Some? { WalkScans(m, FatEntry(m, c).value, o.name, component, n - 1); }
      }
    }
  }

  lemma ScanEnds(name: Bytes, component: Bytes)
    ensures Scan([], name, component) == Going(name) && Scan([Unreadable], name, component) == Stopped
  {
  }

  /** With more clusters to look at, a search that has ended ends the same. */
  lemma {:induction false} WalkStable(m: Mount, c: nat, name: Bytes, component: Bytes, n: nat, n': nat)
    requires !Walk(m, c, name, component, n).Going? && n <= n'
    ensures Walk(m, c, name, component, n') == Walk(m, c, name, component, n)
    decreases n
  {
    hide Scan, FatEntry, ClusterPieces;
    if InChain(c) {
      var o := Scan(ClusterPieces(m, c, 0), name, component);
      if o.Going? && FatEntry(m, c).Some? { WalkStable(m, FatEntry(m, c).value, o.name, component, n - 1, n' - 1); }
    }
  }

  lemma WalkUnique(m: Mount, c: nat, name: Bytes, component: Bytes, n: nat, n': nat)
    requires !Walk(m, c, name, component, n).Going? && !Walk(m, c, name, component, n').Going?
    ensures Walk(m, c, name, component, n') == Walk(m, c, name, component, n)
  {
    if n <= n' { WalkStable(m, c, name, component, n, n'); } else { WalkStable(m, c, name, component, n', n); }
  }

  /** Entry k is the first one in the listing with that name. */
  ghost predicate FirstNamed(l: seq<Listed>, component: Bytes, k: nat) {
    k < |l| && EqualFold(l[k].name, component) && forall j :: 0 <= j < k ==> !EqualFold(l[j].name, component)
  }

  ghost predicate NoneNamed(l: seq<Listed>, component: Bytes) {
    forall k :: 0 <= k < |l| ==> !EqualFold(l[k].name, component)
  }

  function FirstMatch(l: seq<Listed>, component: Bytes): Option<Raw> {
    if l == [] then None else if EqualFold(l[0].name, component) then Some(l[0].raw) else FirstMatch(l[1..], component)
  }

  lemma {:induction false} MatchIsFirst(l: seq<Listed>, component: Bytes)
    ensures var r := FirstMatch(l, component);
            (r.Some? ==> exists k: nat :: FirstNamed(l, component, k) && l[k].raw == r.value) && (r.None? ==> NoneNamed(l, component))
  {
    hide EqualFold;
    if l != [] {
      if EqualFold(l[0].name, component) {
        assert FirstNamed(l, component, 0);
      } else {
        MatchIsFirst(l[1..], component);
        if FirstMatch(l, component).Some? {
          var k: nat :| FirstNamed(l[1..], component, k) && l[1..][k].raw == FirstMatch(l, component).value;
          forall j | 0 <= j < k + 1 ensures !EqualFold(l[j].name, component) { if j > 0 { assert l[j] == l[1..][j - 1]; } }
          assert FirstNamed(l, component, k + 1);
        } else {
          forall k | 0 <= k < |l| ensures !EqualFold(l[k].name, component) { if k > 0 { assert l[k] == l[1..][k - 1]; } }
        }
      }
    }
  }

  lemma {:induction false} ScanIsMatch(ps: seq<Piece>, name: Bytes, component: Bytes)
    ensures Hit(Scan(ps, name, component)) == FirstMatch(Listing(ps, name), component)
    ensures Scan(ps, name, component).Going? <==> NoneHalts(ps) && FirstMatch(Listing(ps, name), component).None?
  {
    hide EqualFold, NameAfter, NameOf, Hidden;
    if ps != [] && !Halts(ps[0]) {
      var e := ps[0].raw;
      ScanIsMatch(ps[1..], if Hidden(e) then NameAfter(name, e) else [], component);
      assert ([Listed(NameOf(name, e), e)] + Listing(ps[1..], []))[1..] == Listing(ps[1..], []);
      assert NoneHalts(ps) <==> NoneHalts(ps[1..]) by {
        if NoneHalts(ps[1..]) { forall i | 0 <= i < |ps| ensures !Halts(ps[i]) { if i > 0 { assert ps[i] == ps[1..][i - 1]; } } }
      }
    }
  }

  /**
   * Within n clusters a search ends exactly if the chain ends there or a piece that halts it or an entry of that name
   * lies there. It finds the first listed entry of that name, and nothing exactly if none is listed.
   */
  lemma {:induction false} WalkExact(m: Mount, c: nat, component: Bytes, n: nat)
    ensures var o, ps := Walk(m, c, [], component, n), PiecesUpTo(m, c, n);
            var l := Listing(ps, []);
            (!o.Going? <==> ChainEnds(m, c, n) || !NoneHalts(ps) || !NoneNamed(l, component)) &&
            (o.Found? ==> exists k: nat :: FirstNamed(l, component, k) && l[k].raw == o.raw) &&
            (!o.Found? ==> NoneNamed(l, component))
  {
    hide Walk, ChainEnds, Scan, FatEntry, Listing, EqualFold;
    var ps := PiecesUpTo(m, c, n);
    WalkScans(m, c, [], component, n);
    ScanIsMatch(ps, [], component);
    MatchIsFirst(Listing(ps, []), component);
  }

  /** A visible short entry at the start of a directory is found by its name. */
  lemma FirstEntry(m: Mount, c: nat, b: Sector, e: Raw, component: Bytes)
    requires Usable(m) && InChain(c) && m.disk(SectorOf(m, c, 0)) == Some(b) && b[..32] == e
    requires e[0] != 0 && !Hidden(e) && EqualFold(ShortName(e), component)
    ensures Walk(m, c, [], component, 1) == Found(e)
  {
    hide ShortName, EqualFold, SectorOf, FatEntry, SectorPieces, Hidden;
    var rest := ClusterPieces(m, c, 1);
    NextPiece(b, 0, rest);
    assert b[32 * 0..32 * 0 + 32] == b[..32];
    assert ClusterPieces(m, c, 0) == SectorPieces(b, 0) + rest;
  }

  // ----- a directory on which the search never ends -----

  const TABLE: Sector := seq(SECTOR, i => if i == 8 then 2 else 0)
  const DELETED: Sector := seq(SECTOR, _ => 0xE5)

  /** Cluster 2 follows on itself, and every entry in it is deleted. */
  const LOOP := Mount(x => if x == 0 then Some(TABLE) else if x == 1 then Some(DELETED) else None, 1, 0, 1, 2)

  lemma LoopEntry()
    ensures FatEntry(LOOP, 2) == Some(2) && SectorOf(LOOP, 2, 0) == 1
  {
    assert TABLE[8] == 2 && TABLE[9] == TABLE[10] == TABLE[11] == 0;
  }

  lemma {:induction false} LoopPieces(i: nat, name: Bytes, component: Bytes, acc: seq<Listed>, max: nat)
    requires i <= 16
    ensures Scan(SectorPieces(DELETED, i), name, component) == Going(if i < 16 then [] else name)
    ensures ListScan(SectorPieces(DELETED, i), name, acc, max) == Open(if i < 16 then [] else name, acc)
    decreases 16 - i
  {
    if i < 16 { LoopPieces(i + 1, [], component, acc, max); }
  }

  /** Whatever is looked for, and however long: neither the search nor the listing ends. */
  lemma {:induction false} LoopNeverEnds(component: Bytes, max: nat, n: nat)
    ensures Walk(LOOP, LOOP.root, [], component, n) == Going([])
    ensures ListWalk(LOOP, LOOP.root, [], [], max, n) == Open([], [])
  {
    hide Scan, ListScan, SectorPieces, FatEntry, SectorOf;
    if n > 0 {
      LoopEntry();
      LoopPieces(0, [], component, [], max);
      assert ClusterPieces(LOOP, 2, 0) == SectorPieces(DELETED, 0) + [] == SectorPieces(DELETED, 0);
      LoopNeverEnds(component, max, n - 1);
    }
  }

  // ----- the scanning loops -----

  /** A hidden entry changes the collected name, any other leaves it. */
  method Skip(e: Raw, name: array<int>) returns (skipped: bool)
    requires name.Length == NAME_BUFFER && 0 in name[..]
    modifies name
    ensures 0 in name[..] && skipped == Hidden(e)
    ensures CStr(name[..]) == if skipped then NameAfter(old(CStr(name[..])), e) else old(CStr(name[..]))
  {
    hide CStr, PutUnits, Units;
    if e[0] == 0xE5 {
      Clear(name);
      return true;
    }
    if IsLong(e) {
      AppendUnits(name, Base(e), Units(e, 1, 5));
      AppendUnits(name, Base(e) + 5, Units(e, 14, 6));
      AppendUnits(name, Base(e) + 11, Units(e, 28, 2));
      return true;
    }
    if Attr(e) / 8 % 2 == 1 {
      Clear(name);
      return true;
    }
    return false;
  }

  method Clear(name: array<int>)
    requires name.Length == NAME_BUFFER
    modifies name
    ensures 0 in name[..] && CStr(name[..]) == []
  {
    name[0] := 0;
    assert name[..][0] == 0;
  }

  /** One sector: the search ends here, or goes on with what follows. */
  method SearchSector(b: Sector, component: Bytes, name: array<int>, ghost rest: seq<Piece>) returns (done: bool, r: Option<Raw>)
    requires name.Length == NAME_BUFFER && 0 in name[..]
    modifies name
    ensures 0 in name[..]
    ensures var o := Scan(SectorPieces(b, 0) + rest, old(CStr(name[..])), component);
            if done then !o.Going? && r == Hit(o) else o == Scan(rest, CStr(name[..]), component)
  {
    hide CStr, Hidden, NameAfter, NameOf, EqualFold, SectorPieces;
    ghost var o := Scan(SectorPieces(b, 0) + rest, CStr(name[..]), component);
    for i := 0 to 16
      invariant 0 in name[..] && o == Scan(SectorPieces(b, i) + rest, CStr(name[..]), component)
    {
      var e: Raw := b[32 * i..32 * i + 32];
      ghost var ps := SectorPieces(b, i) + rest;
      NextPiece(b, i, rest);
      if e[0] == 0 { return true, None; }
      var skipped := Skip(e, name);
      if !skipped {
        var long := ReadName(name);
        var same := StrEqual(NameOf(long, e), component);
        if same { return true, Some(e); }
        Clear(name);
      }
    }
    NextPiece(b, 16, rest);
    done, r := false, None;
  }

  method ReadName(name: array<int>) returns (r: Bytes)
    requires 0 in name[..]
    ensures r == CStr(name[..])
  {
    var n := 0;
    while name[n] != 0
      invariant n < name.Length && 0 !in name[..n]
      decreases name.Length - n
    {
      assert name[..n + 1] == name[..n] + [name[n]];
      n := n + 1;
    }
    r := name[..n];
    CStrIs(name[..], r);
  }

  /** The search of a directory, whenever it ends; n clusters are enough. */
  method FindInDirectory(m: Mount, start: nat, component: Bytes, ghost n: nat) returns (r: Option<Raw>)
    requires !Walk(m, start, [], component, n).Going?
    ensures r == Hit(Walk(m, start, [], component, n))
  {
    hide CStr, Scan, SectorOf, FatEntry, SectorPieces;
    var name := new int[NAME_BUFFER];
    Clear(name);
    var c := start;
    ghost var o, k := Walk(m, start, [], component, n), n;
    while InChain(c)
      invariant 0 in name[..] && o == Walk(m, c, CStr(name[..]), component, k) && !o.Going?
      decreases k
    {
      var s := 0;
      ghost var cluster := Scan(ClusterPieces(m, c, 0), CStr(name[..]), component);
      while s < m.perCluster
        invariant 0 in name[..] && cluster == Scan(ClusterPieces(m, c, s), CStr(name[..]), component)
        decreases m.perCluster - s
      {
        var read := m.disk(SectorOf(m, c, s));
        ScanEnds(CStr(name[..]), component);
        if read.None? { return None; }
        var done: bool;
        done, r := SearchSector(read.value, component, name, ClusterPieces(m, c, s + 1));
        if done { return; }
        s := s + 1;
      }
      ScanEnds(CStr(name[..]), component);
      var next := FatEntry(m, c);
      if next.None? { return None; }
      c, k := next.value, k - 1;
    }
    r := None;
  }

  // ----- listing -----

  datatype Item = Item(name: Bytes, isDir: bool, size: nat)

  function Shown(l: seq<Listed>): (r: seq<Item>)
    ensures |r| == |l|
  {
    seq(|l|, i requires 0 <= i < |l| => Item(Cut(l[i].name, COMPONENT), IsDir(l[i].raw), Size(l[i].raw)))
  }

  /** An entry can be found under the name it is shown with exactly if that name is not cut. */
  lemma ShownFindable(l: seq<Listed>, k: nat)
    requires k < |l|
    ensures EqualFold(l[k].name, Shown(l)[k].name) <==> |l[k].name| <= 63
  {
  }

  /** A listing has finished, well or not, or goes on with the name collected so far. */
  datatype Lister = Finished(ok: bool, l: seq<Listed>) | Open(name: Bytes, l: seq<Listed>)

  /** An entry behind the first max finishes the listing. */
  function ListScan(ps: seq<Piece>, name: Bytes, acc: seq<Listed>, max: nat): Lister {
    if ps == [] then Open(name, acc)
    else if Halts(ps[0]) then Finished(ps[0].Entry?, acc)
    else if Hidden(ps[0].raw) then ListScan(ps[1..], NameAfter(name, ps[0].raw), acc, max)
    else if |acc| >= max then Finished(true, acc)
    else ListScan(ps[1..], [], acc + [Listed(NameOf(name, ps[0].raw), ps[0].raw)], max)
  }

  /** The listing of the first n clusters of the chain from c, one after the other. */
  function ListWalk(m: Mount, c: nat, name: Bytes, acc: seq<Listed>, max: nat, n: nat): Lister
    decreases n
  {
    if !InChain(c) then Finished(true, acc)
    else if n == 0 then Open(name, acc)
    else
      var o := ListScan(ClusterPieces(m, c, 0), name, acc, max);
      if o.Finished? then o
      else if FatEntry(m, c).None? then Finished(false, o.l)
      else ListWalk(m, FatEntry(m, c).value, o.name, o.l, max, n - 1)
  }

  lemma {:induction false} ListScanAppends(a: seq<Piece>, b: seq<Piece>, name: Bytes, acc: seq<Listed>, max: nat)
    ensures var o := ListScan(a, name, acc, max); ListScan(a + b, name, acc, max) == if o.Open? then ListScan(b, o.name, o.l, max) else o
    decreases |a|
  {
    hide NameAfter, NameOf, Hidden;
    if a == [] {
      assert a + b == b;
    } else {
      assert (a + b)[0] == a[0] && (a + b)[1..] == a[1..] + b;
      if a[0].Entry? {
        var e := a[0].raw;
        if Hidden(e) { ListScanAppends(a[1..], b, NameAfter(name, e), acc, max); }
        else { ListScanAppends(a[1..], b, [], acc + [Listed(NameOf(name, e), e)], max); }
      }
    }
  }

  lemma {:induction false} ListWalkScans(m: Mount, c: nat, name: Bytes, acc: seq<Listed>, max: nat, n: nat)
    ensures var o := ListScan(PiecesUpTo(m, c, n), name, acc, max);
            ListWalk(m, c, name, acc, max, n) == if o.Open? && ChainEnds(m, c, n) then Finished(true, o.l) else o
    decreases n
  {
    hide ListScan, FatEntry, ClusterPieces;
    ListScanEnds(name, acc, max);
    if InChain(c) && n > 0 {
      var a, o := ClusterPieces(m, c, 0), ListScan(ClusterPieces(m, c, 0), name, acc, max);
      ListScanAppends(a, if FatEntry(m, c).None? then [Unreadable] else PiecesUpTo(m, FatEntry(m, c).value, n - 1), name, acc, max);
      if o.Open? {
        ListScanEnds(o.name, o.l, max);
        if FatEntry(m, c).Some? { ListWalkScans(m, FatEntry(m, c).value, o.name, o.l, max, n - 1); }
      }
    }
  }

  lemma ListScanEnds(name: Bytes, acc: seq<Listed>, max: nat)
    ensures ListScan([], name, acc, max) == Open(name, acc) && ListScan([Unreadable], name, acc, max) == Finished(false, acc)
  {
  }

  /** The loop's listing is the listing, up to max entries. */
  lemma {:induction false} ListScanIs(ps: seq<Piece>, name: Bytes, acc: seq<Listed>, max: nat)
    requires |acc| <= max
    ensures var all, o := acc + Listing(ps, name), ListScan(ps, name, acc, max);
            (o.Finished? <==> !NoneHalts(ps) || |all| > max) && o.l == all[..Words.Min(max, |all|)] &&
            (o.Finished? ==> o.ok == (Readable(ps) || |all| > max))
    decreases |ps|
  {
    hide NameAfter, NameOf, Hidden;
    if ps == [] {
      assert acc + Listing(ps, name) == acc && acc[..|acc|] == acc;
    } else if Halts(ps[0]) {
      assert acc + [] == acc && acc[..|acc|] == acc;
    } else {
      var e := ps[0].raw;
      assert NoneHalts(ps) <==> NoneHalts(ps[1..]) by {
        if NoneHalts(ps[1..]) { forall i | 0 <= i < |ps| ensures !Halts(ps[i]) { if i > 0 { assert ps[i] == ps[1..][i - 1]; } } }
      }
      if Hidden(e) {
        ListScanIs(ps[1..], NameAfter(name, e), acc, max);
      } else {
        var x := Listed(NameOf(name, e), e);
        assert acc + ([x] + Listing(ps[1..], [])) == acc + [x] + Listing(ps[1..], []);
        if |acc| < max { ListScanIs(ps[1..], [], acc + [x], max); }
        else { assert (acc + [x] + Listing(ps[1..], []))[..max] == acc; }
      }
    }
  }

  /**
   * Within n clusters a listing ends exactly if the chain ends there, a piece that halts it lies there, or more than max
   * entries are listed there. It gives the first max entries, and fails exactly if no more are listed and the piece that
   * halts it cannot be read.
   */
  lemma {:induction false} ListWalkExact(m: Mount, c: nat, max: nat, n: nat)
    ensures var o, ps := ListWalk(m, c, [], [], max, n), PiecesUpTo(m, c, n);
            var all := Listing(ps, []);
            (o.Finished? <==> ChainEnds(m, c, n) || !NoneHalts(ps) || |all| > max) && o.l == all[..Words.Min(max, |all|)] &&
            (o.Finished? ==> o.ok == (Readable(ps) || |all| > max))
  {
    hide ListWalk, ChainEnds, ListScan, FatEntry, Listing, Halts;
    var ps := PiecesUpTo(m, c, n);
    ListWalkScans(m, c, [], [], max, n);
    ListScanIs(ps, [], [], max);
    assert [] + Listing(ps, []) == Listing(ps, []);
    if NoneHalts(ps) { NoneHaltsReadable(ps); }
  }

  lemma {:induction false} NoneHaltsReadable(ps: seq<Piece>)
    requires NoneHalts(ps)
    ensures Readable(ps)
  {
    if ps != [] {
      assert forall i :: 0 <= i < |ps[1..]| ==> ps[1..][i] == ps[i + 1];
      NoneHaltsReadable(ps[1..]);
    }
  }

  lemma {:induction false} ListWalkStable(m: Mount, c: nat, name: Bytes, acc: seq<Listed>, max: nat, n: nat, n': nat)
    requires ListWalk(m, c, name, acc, max, n).Finished? && n <= n'
    ensures ListWalk(m, c, name, acc, max, n') == ListWalk(m, c, name, acc, max, n)
    decreases n
  {
    hide ListScan, FatEntry, ClusterPieces;
    if InChain(c) {
      var o := ListScan(ClusterPieces(m, c, 0), name, acc, max);
      if o.Open? && FatEntry(m, c).Some? { ListWalkStable(m, FatEntry(m, c).value, o.name, o.l, max, n - 1, n' - 1); }
    }
  }

  lemma ShownMore(l: seq<Listed>, x: Listed)
    ensures Shown(l + [x]) == Shown(l) + [Item(Cut(x.name, COMPONENT), IsDir(x.raw), Size(x.raw))]
  {
  }

  method ListSector(b: Sector, max: nat, name: array<int>, items: seq<Item>, ghost acc: seq<Listed>, ghost rest: seq<Piece>)
    returns (done: bool, items': seq<Item>, ghost acc': seq<Listed>)
    requires name.Length == NAME_BUFFER && 0 in name[..] && items == Shown(acc)
    modifies name
    ensures 0 in name[..] && items' == Shown(acc')
    ensures ListScan(SectorPieces(b, 0) + rest, old(CStr(name[..])), acc, max) ==
            if done then Finished(true, acc') else ListScan(rest, CStr(name[..]), acc', max)
  {
    hide CStr, Shown, ListScan, SectorPieces;
    items', acc' := items, acc;
    ghost var o := ListScan(SectorPieces(b, 0) + rest, CStr(name[..]), acc, max);
    for i := 0 to 16
      invariant 0 in name[..] && items' == Shown(acc') && o == ListScan(SectorPieces(b, i) + rest, CStr(name[..]), acc', max)
    {
      var e: Raw := b[32 * i..32 * i + 32];
      NextPiece(b, i, rest);
      done, items', acc' := ListEntry(e, max, name, items', acc', SectorPieces(b, i) + rest);
      if done { return; }
    }
    NextPiece(b, 16, rest);
    done := false;
  }

  method ListEntry(e: Raw, max: nat, name: array<int>, items: seq<Item>, ghost acc: seq<Listed>, ghost ps: seq<Piece>)
    returns (done: bool, items': seq<Item>, ghost acc': seq<Listed>)
    requires name.Length == NAME_BUFFER && 0 in name[..] && items == Shown(acc) && ps != [] && ps[0] == Entry(e)
    modifies name
    ensures 0 in name[..] && items' == Shown(acc')
    ensures ListScan(ps, old(CStr(name[..])), acc, max) ==
            if done then Finished(true, acc') else ListScan(ps[1..], CStr(name[..]), acc', max)
  {
    hide CStr, Hidden, NameAfter, NameOf, Cut, Shown, IsDir, Size;
    items', acc' := items, acc;
    if e[0] == 0 { return true, items', acc'; }
    var skipped := Skip(e, name);
    if !skipped {
      if |items'| >= max { return true, items', acc'; }
      var long := ReadName(name);
      ghost var l := Listed(NameOf(long, e), e);
      ShownMore(acc', l);
      items', acc' := items' + [Item(Cut(NameOf(long, e), COMPONENT), IsDir(e), Size(e))], acc' + [l];
      Clear(name);
    }
    done := false;
  }

  /** The first max entries of a directory, whenever the listing ends; n clusters are enough. */
  method ListDirectory(m: Mount, start: nat, max: nat, ghost n: nat) returns (ok: bool, items: seq<Item>)
    requires ListWalk(m, start, [], [], max, n).Finished?
    ensures var o := ListWalk(m, start, [], [], max, n); ok == o.ok && (ok ==> items == Shown(o.l))
  {
    hide CStr, ListScan, SectorOf, FatEntry, SectorPieces, Shown;
    var name := new int[NAME_BUFFER];
    Clear(name);
    var c := start;
    ghost var o, k, acc := ListWalk(m, start, [], [], max, n), n, [];
    items := [];
    assert items == Shown(acc) by { ShownNone(acc); }
    while InChain(c)
      invariant 0 in name[..] && items == Shown(acc) && o == ListWalk(m, c, CStr(name[..]), acc, max, k) && o.Finished?
      decreases k
    {
      var s := 0;
      ghost var cluster := ListScan(ClusterPieces(m, c, 0), CStr(name[..]), acc, max);
      while s < m.perCluster
        invariant 0 in name[..] && items == Shown(acc) && cluster == ListScan(ClusterPieces(m, c, s), CStr(name[..]), acc, max)
        decreases m.perCluster - s
      {
        var read := m.disk(SectorOf(m, c, s));
        ListScanEnds(CStr(name[..]), acc, max);
        if read.None? { return false, []; }
        var done: bool;
        done, items, acc := ListSector(read.value, max, name, items, acc, ClusterPieces(m, c, s + 1));
        if done { return true, items; }
        s := s + 1;
      }
      ListScanEnds(CStr(name[..]), acc, max);
      var next := FatEntry(m, c);
      if next.None? { return false, []; }
      c, k := next.value, k - 1;
    }
    ok := true;
  }

  lemma ShownNone(l: seq<Listed>)
    requires l == []
    ensures Shown(l) == []
  {
  }

  // ----- long names -----

  function AllUnits(e: Raw): seq<int> {
    Units(e, 1, 5) + Units(e, 14, 6) + Units(e, 28, 2)
  }

  function Order(e: Raw): int {
    e[0] % 32
  }

  /** The parts of a long name as they lie on disk: the last 13 characters first, the first 13 last. */
  ghost predicate Spells(es: seq<Raw>, full: Bytes) {
    13 * (|es| - 1) < |full| <= 13 * |es| &&
    forall i :: 0 <= i < |es| ==>
      Order(es[i]) == |es| - i && Part(AllUnits(es[i]), 0) == full[13 * (|es| - 1 - i)..Words.Min(13 * (|es| - i), |full|)]
  }

  function DecodedAll(name: Bytes, es: seq<Raw>): Bytes
    decreases |es|
  {
    if es == [] then name else DecodedAll(Decoded(name, es[0]), es[1..])
  }

  lemma {:induction false} PartOfSum(a: seq<int>, b: seq<int>, base: nat)
    ensures Part(a + b, base) == Part(a, base) + if |Part(a, base)| == |a| then Part(b, base + |a|) else []
  {
    hide Part;
    if a == [] {
      PartNext(a, base);
      assert a + b == b;
    } else {
      PartNext(a, base);
      PartNext(a + b, base);
      PartOfSum(a[1..], b, base + 1);
      assert (a + b)[1..] == a[1..] + b;
    }
  }

  lemma PartNext(us: seq<int>, base: nat)
    ensures Part(us, base) == if us == [] || Ends(us[0]) || base + 1 >= NAME_BUFFER then []
                              else [if us[0] <= 0xFF then us[0] else 63] + Part(us[1..], base + 1)
  {
  }

  /** The entry with the first 13 characters replaces whatever was collected. */
  lemma DecodedFirst(name: Bytes, e: Raw)
    requires Order(e) == 1 && Part(AllUnits(e), 0) != []
    ensures Decoded(name, e) == Part(AllUnits(e), 0)
  {
    hide Part, Units, Put;
    var u1, u2, u3 := Units(e, 1, 5), Units(e, 14, 6), Units(e, 28, 2);
    PartOfSum(u1 + u2, u3, 0);
    PartOfSum(u1, u2, 0);
    PutThree(name, Part(u1, 0), Part(u2, 5), Part(u3, 11));
  }

  lemma PutThree(name: Bytes, p1: Bytes, p2: Bytes, p3: Bytes)
    requires 0 < |p1| <= 5 && |p2| <= 6
    ensures Put(Put(Put(name, 0, p1), 5, p2), 11, p3) ==
            if |p1| < 5 then p1 else if |p2| < 6 then p1 + p2 else p1 + p2 + p3
  {
    assert name[..0] + p1 == p1;
    if |p1| == 5 { assert p1[..5] == p1 && p1 + [] == p1; }
    if |p1 + p2| == 11 { assert (p1 + p2)[..11] == p1 + p2 && p1 + p2 + [] == p1 + p2; }
  }

  /** A later part has no effect while nothing of the first is there. */
  lemma DecodedLater(e: Raw)
    requires Order(e) != 1
    ensures Decoded([], e) == []
  {
  }

  /** A long name is collected up to its 13th character, so it is complete exactly if it is no longer. */
  lemma {:induction false} LongNameCut(es: seq<Raw>, full: Bytes)
    requires es != [] && Spells(es, full)
    ensures DecodedAll([], es) == full[..Words.Min(13, |full|)] && (DecodedAll([], es) == full <==> |full| <= 13)
  {
    hide Part, AllUnits, Decoded;
    OnlyLastCounts(es, full, 0);
    assert es[0..] == es;
    assert |full| <= 13 ==> full[..|full|] == full;
  }

  lemma {:induction false} OnlyLastCounts(es: seq<Raw>, full: Bytes, i: nat)
    requires i < |es| && Spells(es, full)
    ensures DecodedAll([], es[i..]) == full[..Words.Min(13, |full|)]
    decreases |es| - i
  {
    hide Part, AllUnits, Decoded;
    assert es[i..][1..] == es[i + 1..];
    if i + 1 < |es| {
      DecodedLater(es[i]);
      OnlyLastCounts(es, full, i + 1);
    } else {
      assert es[i + 1..] == [] && full[0..Words.Min(13, |full|)] == full[..Words.Min(13, |full|)];
      DecodedFirst([], es[i]);
    }
  }

  function EntriesOf(es: seq<Raw>): (ps: seq<Piece>)
    ensures |ps| == |es| && forall i :: 0 <= i < |es| ==> ps[i] == Entry(es[i])
  {
    seq(|es|, i requires 0 <= i < |es| => Entry(es[i]))
  }

  /** An entry behind the parts of a long name is found by that name up to its 13th character, and by nothing else. */
  lemma {:induction false} LongFound(es: seq<Raw>, e: Raw, rest: seq<Piece>, full: Bytes, component: Bytes)
    requires es != [] && Spells(es, full) && full != [] && (forall i :: 0 <= i < |es| ==> IsLong(es[i]) && es[i][0] != 0 && es[i][0] != 0xE5)
    requires e[0] != 0 && !Hidden(e)
    ensures Scan(EntriesOf(es) + [Entry(e)] + rest, [], component) ==
            if EqualFold(if |full| <= 13 then full else full[..13], component) then Found(e) else Scan(rest, [], component)
  {
    hide Spells, EqualFold, Hidden, Scan, DecodedAll;
    LongNameCut(es, full);
    LongScanned(es, [], component);
    assert full[..Words.Min(13, |full|)] == if |full| <= 13 then full else full[..13];
    assert EntriesOf(es) + [Entry(e)] + rest == EntriesOf(es) + ([Entry(e)] + rest);
    ScanAppends(EntriesOf(es), [Entry(e)] + rest, [], component);
    NamedNext(e, rest, DecodedAll([], es), component);
  }

  lemma NamedNext(e: Raw, rest: seq<Piece>, name: Bytes, component: Bytes)
    requires e[0] != 0 && !Hidden(e) && name != []
    ensures Scan([Entry(e)] + rest, name, component) == if EqualFold(name, component) then Found(e) else Scan(rest, [], component)
  {
    hide EqualFold, Hidden;
    assert ([Entry(e)] + rest)[1..] == rest;
  }

  lemma {:induction false} LongScanned(es: seq<Raw>, name: Bytes, component: Bytes)
    requires forall i :: 0 <= i < |es| ==> IsLong(es[i]) && es[i][0] != 0 && es[i][0] != 0xE5
    ensures Scan(EntriesOf(es), name, component) == Going(DecodedAll(name, es))
    decreases |es|
  {
    hide Decoded;
    if es != [] {
      assert EntriesOf(es)[1..] == EntriesOf(es[1..]);
      LongScanned(es[1..], Decoded(name, es[0]), component);
    }
  }

  /** A part of a long name ends at a unit 0 or 65535, and no other unit ends it; those above 255 are shown as question marks. */
  lemma {:induction false} PartEnds(w: seq<int>, mark: int, rest: seq<int>, base: nat)
    requires (forall i :: 0 <= i < |w| ==> 0 < w[i] < 65535) && base + |w| < 255 && (mark == 0 || mark == 65535)
    ensures |Part(w + [mark] + rest, base)| == |w|
    ensures forall i :: 0 <= i < |w| ==> Part(w + [mark] + rest, base)[i] == if w[i] <= 255 then w[i] else '?' as int
    decreases |w|
  {
    var all := w + [mark] + rest;
    if w == [] {
      assert all[0] == mark;
    } else {
      assert all[0] == w[0] && all[1..] == w[1..] + [mark] + rest;
      PartEnds(w[1..], mark, rest, base + 1);
    }
  }

  // ----- a name that is cut -----

  function UnitBytes(us: seq<int>): seq<int> {
    seq(2 * |us|, i requires 0 <= i < 2 * |us| => if i % 2 == 0 then us[i / 2] % 0x100 else us[i / 2] / 0x100 % 0x100)
  }

  /** A long-name entry as it lies on disk. */
  function LongEntry(order: int, us: seq<int>): Raw
    requires 0 <= order < 256 && |us| == 13
  {
    [order] + UnitBytes(us[..5]) + [0x0F, 0, 0] + UnitBytes(us[5..11]) + [0, 0] + UnitBytes(us[11..])
  }

  lemma LongEntryUnits(order: int, us: seq<int>)
    requires 0 <= order < 256 && |us| == 13 && forall i :: 0 <= i < 13 ==> 0 <= us[i] < 0x1_0000
    ensures AllUnits(LongEntry(order, us)) == us && Order(LongEntry(order, us)) == order % 32
  {
    hide UnitBytes;
    var e := LongEntry(order, us);
    UnitBytesSizes(us);
    forall i | 0 <= i < 13 ensures AllUnits(e)[i] == us[i] {
      if i < 5 { UnitBytesAt(us[..5], i); }
      else if i < 11 { UnitBytesAt(us[5..11], i - 5); }
      else { UnitBytesAt(us[11..], i - 11); }
    }
  }

  lemma UnitBytesSizes(us: seq<int>)
    requires |us| == 13
    ensures |UnitBytes(us[..5])| == 10 && |UnitBytes(us[5..11])| == 12 && |UnitBytes(us[11..])| == 4
  {
  }

  lemma UnitBytesAt(us: seq<int>, i: nat)
    requires i < |us| && 0 <= us[i] < 0x1_0000
    ensures |UnitBytes(us)| == 2 * |us| && UnitBytes(us)[2 * i] + 0x100 * UnitBytes(us)[2 * i + 1] == us[i]
  {
  }

  /** The name abcdefghijklmn, and its two entries: the one with the 14th character first. */
  const FOURTEEN: Bytes := seq(14, i => 97 + i)
  const TWO_PARTS: seq<Raw> :=
    [LongEntry(0x42, [110, 0] + seq(11, _ => 0xFFFF)), LongEntry(0x01, seq(13, i => 97 + i))]

  /** It is collected without its last character. */
  lemma FourteenCut()
    ensures Spells(TWO_PARTS, FOURTEEN) && DecodedAll([], TWO_PARTS) == FOURTEEN[..13]
  {
    hide LongEntry, AllUnits;
    var last, first := [110, 0] + seq(11, _ => 0xFFFF), seq(13, i => 97 + i);
    LongEntryUnits(0x42, last);
    LongEntryUnits(0x01, first);
    assert Part(last, 0) == [110] by { assert last[1..][0] == 0; }
    assert FOURTEEN[13..14] == [110] && FOURTEEN[0..13] == first;
    WholePart(first, 0);
    assert Spells(TWO_PARTS, FOURTEEN) by {
      forall i | 0 <= i < 2
        ensures Order(TWO_PARTS[i]) == 2 - i && Part(AllUnits(TWO_PARTS[i]), 0) == FOURTEEN[13 * (1 - i)..Words.Min(13 * (2 - i), 14)]
      {
      }
    }
    LongNameCut(TWO_PARTS, FOURTEEN);
  }

  lemma {:induction false} WholePart(us: seq<int>, base: nat)
    requires base + |us| < NAME_BUFFER && forall i :: 0 <= i < |us| ==> 0 < us[i] <= 0xFF
    ensures Part(us, base) == us
    decreases |us|
  {
    if us != [] { WholePart(us[1..], base + 1); }
  }
}
