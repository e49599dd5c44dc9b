/** The glyph cache of the font engine: an open-addressing table that overwrites when it is full. */
module Glyphs {
  import opened Syntax
  import Words

  const CAPACITY: nat := 512
  const STRIDE: nat := 48
  const BITMAP_BYTES: nat := 2304
  const MAX_FONTS: nat := 32

  datatype Key = Key(codepoint: int, size: int, font: int)

  datatype Box = Box(x0: int, y0: int, x1: int, y1: int)

  datatype Slot = Slot(occupied: bool, key: Key, bitmap: seq<int>, w: int, h: int, xoff: int, yoff: int, advance: int)

  /** The TrueType library: which fonts open, and the box, pixels and rounded advance of every glyph. */
  datatype Library = Library(opens: int -> bool, box: Key -> Box, shade: (Key, int, int) -> int, advance: Key -> int)

  function Width(lib: Library, k: Key): int {
    lib.box(k).x1 - lib.box(k).x0
  }

  function Height(lib: Library, k: Key): int {
    lib.box(k).y1 - lib.box(k).y0
  }

  /** Visible, and small enough for a slot. */
  predicate Cacheable(lib: Library, k: Key) {
    0 < lib.box(k).x1 - lib.box(k).x0 <= 48 && 0 < lib.box(k).y1 - lib.box(k).y0 <= 48
  }

  /** The slot holds what the library rasterises for k. Bytes outside the glyph's box are left from earlier glyphs. */
  ghost predicate Shows(lib: Library, s: Slot, k: Key) {
    s.key == k && s.w == lib.box(k).x1 - lib.box(k).x0 && s.h == lib.box(k).y1 - lib.box(k).y0 && (s.xoff, s.yoff) == (lib.box(k).x0, lib.box(k).y0) &&
    s.advance == lib.advance(k) && |s.bitmap| == BITMAP_BYTES &&
    forall x, y {:trigger lib.shade(k, x, y)} :: 0 <= x < s.w <= 48 && 0 <= y < s.h <= 48 ==> s.bitmap[y * 48 + x] == lib.shade(k, x, y)
  }

  /** The library writes w by h pixels into a buffer of rows of 48 bytes. */
  function Painted(lib: Library, bitmap: seq<int>, k: Key): (r: seq<int>)
    requires |bitmap| == BITMAP_BYTES
    ensures |r| == BITMAP_BYTES
  {
    seq(BITMAP_BYTES, i requires 0 <= i < BITMAP_BYTES =>
      if i % STRIDE < Width(lib, k) && i / STRIDE < Height(lib, k) then lib.shade(k, i % STRIDE, i / STRIDE) else bitmap[i])
  }

  lemma PaintedShows(lib: Library, bitmap: seq<int>, k: Key)
    requires |bitmap| == BITMAP_BYTES && Cacheable(lib, k)
    ensures Shows(lib, Slot(true, k, Painted(lib, bitmap, k), Width(lib, k), Height(lib, k), lib.box(k).x0, lib.box(k).y0, lib.advance(k)), k)
  {
    forall x, y | 0 <= x < Width(lib, k) && 0 <= y < Height(lib, k)
      ensures Painted(lib, bitmap, k)[y * STRIDE + x] == lib.shade(k, x, y)
    {
      assert (y * STRIDE + x) % STRIDE == x && (y * STRIDE + x) / STRIDE == y;
    }
  }

  function Word32(x: int): bv32 {
    (x % 0x1_0000_0000) as bv32
  }

  /** Knuth's multiplicative hash of the three fields, mixed, modulo the capacity. */
  function Hash(k: Key): (i: nat)
    ensures i < CAPACITY
  {
    var h := (Word32(k.codepoint) * 2654435761) ^ (Word32(k.size) * 40503) ^ (Word32(k.font) * 2246822519);
    ((h ^ (h >> 16)) as int) % CAPACITY
  }

  /** The p-th slot probed for k. */
  function Probed(k: Key, p: nat): (i: nat)
    ensures i < CAPACITY
  {
    (Hash(k) + p) % CAPACITY
  }

  lemma ProbedFirst(k: Key)
    ensures Probed(k, 0) == Hash(k)
  {
    hide Hash;
  }

  /** After how many probes slot i is reached. */
  function Distance(k: Key, i: nat): (p: nat)
    requires i < CAPACITY
    ensures p < CAPACITY && Probed(k, p) == i
    ensures forall q: nat {:trigger Probed(k, q)} :: q < CAPACITY && Probed(k, q) == i ==> q == p
  {
    hide Hash;
    (i - Hash(k)) % CAPACITY
  }

  predicate Holds(t: seq<Slot>, i: nat, k: Key) {
    i < |t| && t[i].occupied && t[i].key == k
  }

  /** All slots probed before slot i are taken. */
  ghost predicate Reached(t: seq<Slot>, i: nat)
    requires |t| == CAPACITY && i < CAPACITY
  {
    forall p: nat {:trigger Probed(t[i].key, p)} :: p < Distance(t[i].key, i) ==> t[Probed(t[i].key, p)].occupied
  }

  /** Every stored key is reached by its probes, and stored once. */
  ghost predicate Findable(t: seq<Slot>)
    requires |t| == CAPACITY
  {
    (forall i: nat :: i < CAPACITY && t[i].occupied ==> Reached(t, i)) &&
    (forall i: nat, j: nat :: i < CAPACITY && j < CAPACITY && i != j && t[i].occupied && t[j].occupied ==> t[i].key != t[j].key)
  }

  lemma NothingStored(t: seq<Slot>)
    requires |t| == CAPACITY && forall i: nat :: i < CAPACITY ==> !t[i].occupied
    ensures Findable(t)
  {
  }

  /** A taken slot that is overwritten, or the first free one, leaves every key findable. */
  lemma StoreKeeps(t: seq<Slot>, s: Slot, p: nat)
    requires |t| == CAPACITY && Findable(t) && s.occupied && p < CAPACITY
    requires forall i: nat :: !Holds(t, i, s.key)
    requires forall q: nat :: q < p ==> t[Probed(s.key, q)].occupied
    ensures Findable(t[Probed(s.key, p) := s])
  {
    hide Probed, Distance;
    var at := Probed(s.key, p);
    var t' := t[at := s];
    forall i: nat | i < CAPACITY && t'[i].occupied ensures Reached(t', i) {
      if i == at { assert Distance(s.key, at) == p; } else { assert Reached(t, i); }
    }
    forall i: nat, j: nat | i < CAPACITY && j < CAPACITY && i != j && t'[i].occupied && t'[j].occupied ensures t'[i].key != t'[j].key {
      assert !Holds(t, i, s.key) && !Holds(t, j, s.key);
    }
  }

  /** A key not met before the first free slot, or in a whole round, is not stored. */
  lemma NotStored(t: seq<Slot>, k: Key, p: nat)
    requires |t| == CAPACITY && Findable(t) && p <= CAPACITY
    requires p < CAPACITY ==> !t[Probed(k, p)].occupied
    requires forall q: nat :: q < p ==> !Holds(t, Probed(k, q), k)
    ensures forall i: nat :: !Holds(t, i, k)
  {
    hide Probed, Distance;
    forall i: nat ensures !Holds(t, i, k) {
      if i < CAPACITY && t[i].occupied {
        assert Reached(t, i);
        assert Probed(k, Distance(k, i)) == i;
      }
    }
  }

  class FontEngine {
    const lib: Library
    const fonts: nat
    const cache: array<Slot>
    const ready: array<bool>
    var active: int

    ghost predicate Valid()
      reads this, cache, ready
    {
      cache.Length == CAPACITY && ready.Length == MAX_FONTS &&
      (forall i :: 0 <= i < MAX_FONTS && ready[i] ==> lib.opens(i)) &&
      (forall i :: 0 <= i < CAPACITY ==> |cache[i].bitmap| == BITMAP_BYTES) &&
      (forall i :: 0 <= i < CAPACITY && cache[i].occupied ==>
        Cacheable(lib, cache[i].key) && cache[i].key.font == active && Shows(lib, cache[i], cache[i].key)) &&
      Findable(cache[..])
    }

    ghost predicate Usable()
      reads this
    {
      0 <= active < fonts && active < 32 && lib.opens(active)
    }

    constructor (lib: Library, fonts: nat)
      ensures Valid() && cache.Length == 512 && ready.Length == 32 && forall i :: 0 <= i < 512 ==> |cache[i].bitmap| == 48 * 48
      ensures fresh(cache) && fresh(ready) && this.lib == lib && this.fonts == fonts && active == 0
    {
      this.lib, this.fonts := lib, fonts;
      active := 0;
      cache := new Slot[CAPACITY](_ => Slot(false, Key(0, 0, 0), seq(BITMAP_BYTES, _ => 0), 0, 0, 0, 0, 0));
      ready := new bool[MAX_FONTS](_ => false);
      new;
      hide Findable;
      NothingStored(cache[..]);
    }

    method GetReadyFont() returns (ok: bool)
      requires Valid()
      modifies ready
      ensures Valid() && ok == Usable()
    {
      if active < 0 || active >= fonts || active >= MAX_FONTS { return false; }
      if !ready[active] { ready[active] := lib.opens(active); }
      ok := ready[active];
    }

    method Lookup(k: Key) returns (r: Option<nat>)
      requires Valid()
      ensures r.Some? ==> Holds(cache[..], r.value, k)
      ensures r.None? ==> forall i: nat :: !Holds(cache[..], i, k)
    {
      hide Hash, Distance, Shows;
      for p := 0 to CAPACITY
        invariant forall q: nat :: q < p ==> !Holds(cache[..], Probed(k, q), k)
      {
        var i := Probed(k, p);
        if !cache[i].occupied {
          NotStored(cache[..], k, p);
          return None;
        }
        if cache[i].key == k { return Some(i); }
      }
      NotStored(cache[..], k, CAPACITY);
      return None;
    }

    method FindSlot(k: Key) returns (i: nat, ghost p: nat)
      requires Valid()
      ensures p < CAPACITY && i == Probed(k, p) && forall q: nat :: q < p ==> cache[Probed(k, q)].occupied
    {
      hide Distance, Shows, Findable, Probed, Cacheable;
      for n := 0 to CAPACITY
        invariant forall q: nat :: q < n ==> cache[Probed(k, q)].occupied
      {
        if !cache[Probed(k, n)].occupied { return Probed(k, n), n; }
      }
      ProbedFirst(k);
      return Hash(k), 0;
    }

    method Rasterize(codepoint: int, size: int) returns (r: Option<nat>)
      requires Valid() && Usable() && forall i: nat :: !Holds(cache[..], i, Key(codepoint, size, active))
      modifies cache
      ensures Valid() && r.Some? == Cacheable(lib, Key(codepoint, size, active))
      ensures r.Some? ==> Holds(cache[..], r.value, Key(codepoint, size, active))
    {
      hide Findable, Shows, Painted, Hash, Probed;
      var k := Key(codepoint, size, active);
      var box, w, h := lib.box(k), Width(lib, k), Height(lib, k);
      if w <= 0 || h <= 0 { return None; }
      if w > STRIDE || h > STRIDE { return None; }
      var i, p := FindSlot(k);
      PaintedShows(lib, cache[i].bitmap, k);
      Store(Slot(true, k, Painted(lib, cache[i].bitmap, k), w, h, box.x0, box.y0, lib.advance(k)), i, p);
      return Some(i);
    }

    method Store(s: Slot, i: nat, ghost p: nat)
      requires Valid() && p < CAPACITY && i == Probed(s.key, p) && s.occupied && s.key.font == active
      requires Cacheable(lib, s.key) && Shows(lib, s, s.key)
      requires forall j: nat :: !Holds(cache[..], j, s.key)
      requires forall q: nat :: q < p ==> cache[Probed(s.key, q)].occupied
      modifies cache
      ensures Valid() && Holds(cache[..], i, s.key)
    {
      assert |s.bitmap| == BITMAP_BYTES;
      hide Findable, Probed, Shows, Cacheable;
      StoreKeeps(cache[..], s, p);
      ghost var t := cache[..];
      cache[i] := s;
      assert cache[..] == t[i := s];
    }

    /** The glyph as rasterised directly, whatever the cache held; none if the font does not open, nothing is visible or it is too big. */
    method GetGlyph(codepoint: int, size: int) returns (r: Option<nat>)
      requires Valid()
      modifies cache, ready
      ensures Valid() && r.Some? == (Usable() && Cacheable(lib, Key(codepoint, size, active)))
      ensures r.Some? ==> r.value < CAPACITY && Shows(lib, cache[r.value], Key(codepoint, size, active))
    {
      hide Findable, Shows, Cacheable;
      var ok := GetReadyFont();
      if !ok { return None; }
      r := Lookup(Key(codepoint, size, active));
      if r.None? { r := Rasterize(codepoint, size); }
    }

    /** The advance as computed directly; half the size if the font does not open. */
    method GetAdvance(codepoint: int, size: int) returns (a: int)
      requires Valid()
      modifies cache, ready
      ensures Valid() && a == if Usable() then lib.advance(Key(codepoint, size, active)) else Words.TruncDiv(size, 2)
    {
      hide Findable, Cacheable;
      var ok := GetReadyFont();
      if !ok { return Words.TruncDiv(size, 2); }
      var k := Key(codepoint, size, active);
      var g := Lookup(k);
      if g.Some? { return cache[g.value].advance; }
      g := Rasterize(codepoint, size);
      if g.Some? { return cache[g.value].advance; }
      return lib.advance(k);
    }

    /** Another font empties the cache. */
    method SetActiveFont(index: int)
      requires Valid()
      modifies this`active, cache
      ensures Valid() && active == if 0 <= index < fonts then index else old(active)
    {
      if index >= 0 && index < fonts && index != active {
        active := index;
        Invalidate();
      }
    }

    method Invalidate()
      requires cache.Length == CAPACITY && ready.Length == MAX_FONTS
      requires forall i :: 0 <= i < MAX_FONTS && ready[i] ==> lib.opens(i)
      requires forall i :: 0 <= i < CAPACITY ==> |cache[i].bitmap| == BITMAP_BYTES
      modifies cache
      ensures Valid() && forall i :: 0 <= i < CAPACITY ==> !cache[i].occupied
    {
      for i := 0 to CAPACITY
        invariant forall j :: 0 <= j < CAPACITY ==> |cache[j].bitmap| == BITMAP_BYTES && (j < i ==> !cache[j].occupied)
      {
        cache[i] := cache[i].(occupied := false);
      }
    }
  }
}
