/** Variables occupy disjoint parts of the frame: the flat memory of Meaning behaves as one cell per variable. */
module Frame {
  import opened Words
  import opened Syntax
  import opened Meaning

  /** Exactly the bytes of the frame are mapped. */
  ghost predicate FrameMemory(mem: Memory, vs: Table, base: int) {
    forall a :: a in mem <==> base - FrameSize(vs) <= a < base
  }

  function Low(v: VarInfo, base: int): int {
    base - v.offset
  }

  function High(v: VarInfo, base: int): int {
    base - v.offset + StorageSize(v.ty, v.elems)
  }

  /** Each region starts where the previous variable's ends. */
  lemma {:induction false} OffsetsStack(vs: Table, k: nat)
    requires WellLaid(vs) && k < |vs|
    ensures vs[k].offset - StorageSize(vs[k].ty, vs[k].elems) == (if k == 0 then 0 else vs[k - 1].offset)
    ensures vs[k].offset >= 8 && vs[k].offset % 8 == 0
    decreases k
  {
    hide StorageSize, IndexOf, WellLaid;
    LaidAt(vs, k);
    if k > 0 { OffsetsStack(vs, k - 1); }
  }

  lemma LaidAt(vs: Table, k: nat)
    requires WellLaid(vs) && k < |vs|
    ensures vs[k].offset == (if k == 0 then 0 else vs[k - 1].offset) + StorageSize(vs[k].ty, vs[k].elems)
  {
    hide StorageSize, IndexOf;
    assert vs[k].offset == FrameUsed(vs[..k]) + StorageSize(vs[k].ty, vs[k].elems);
    if k > 0 { assert vs[..k][|vs[..k]| - 1] == vs[k - 1]; }
  }

  lemma {:induction false} OffsetsGrow(vs: Table, j: nat, k: nat)
    requires WellLaid(vs) && j < k < |vs|
    ensures vs[j].offset <= vs[k].offset - StorageSize(vs[k].ty, vs[k].elems)
    decreases k
  {
    hide StorageSize, IndexOf, WellLaid;
    OffsetsStack(vs, k);
    if j < k - 1 { OffsetsGrow(vs, j, k - 1); }
  }

  /** Regions are 8-aligned below base, inside the frame, and pairwise disjoint. */
  lemma RegionsDisjoint(vs: Table, base: int, j: nat, k: nat)
    requires WellLaid(vs) && j < |vs| && k < |vs|
    ensures base - FrameSize(vs) <= Low(vs[j], base) < High(vs[j], base) <= base
    ensures (base - Low(vs[j], base)) % 8 == 0 && FrameSize(vs) % 16 == 0
    ensures j != k ==> High(vs[j], base) <= Low(vs[k], base) || High(vs[k], base) <= Low(vs[j], base)
  {
    hide StorageSize, IndexOf, WellLaid, FrameSize;
    OffsetsStack(vs, j);
    if j > 0 { OffsetsStack(vs, j - 1); }
    if j < |vs| - 1 { OffsetsGrow(vs, j, |vs| - 1); }
    if j < k { OffsetsGrow(vs, j, k); }
    if k < j { OffsetsGrow(vs, k, j); }
  }

  /** Allocating a fresh name keeps the table well laid and moves nobody. */
  lemma {:induction false} AllocationStacks(vs: Table, x: string, t: Type, elems: nat)
    requires WellLaid(vs) && IndexOf(vs, x) < 0
    ensures WellLaid(vs + [NewVar(vs, x, t, elems)])
  {
    var vs' := vs + [NewVar(vs, x, t, elems)];
    forall k | 0 <= k < |vs'|
      ensures vs'[k].offset == FrameUsed(vs'[..k]) + StorageSize(vs'[k].ty, vs'[k].elems)
      ensures IndexOf(vs'[..k], vs'[k].name) < 0
    {
      assert vs'[..k] == vs[..k];
      if k == |vs| { assert vs[..k] == vs; }
    }
  }

  lemma FitsInRegion(vs: Table, k: nat, base: int, mem: Memory)
    requires WellLaid(vs) && k < |vs| && FrameMemory(mem, vs, base)
    ensures InFrame(mem, Low(vs[k], base), vs[k].ty.Width().Bytes())
    ensures Low(vs[k], base) + vs[k].ty.Width().Bytes() <= High(vs[k], base)
  {
    hide StorageSize, IndexOf, WellLaid, FrameSize;
    RegionsDisjoint(vs, base, k, k);
    var bytes := vs[k].ty.base.Bytes();
    assert vs[k].elems > 0 ==> bytes * vs[k].elems >= bytes;
  }

  /** No byte differs but the n from a on. */
  ghost predicate SameOutside(mem: Memory, mem': Memory, a: int, n: nat) {
    forall b :: b < a || a + n <= b ==> Peek(mem', b) == Peek(mem, b)
  }

  lemma StoreOutside(mem: Memory, a: int, n: nat, v: int)
    ensures SameOutside(mem, Store(mem, a, n, v), a, n)
  {
    hide Store;
    forall b | b < a || a + n <= b ensures Peek(Store(mem, a, n, v), b) == Peek(mem, b) { StoreElsewhere(mem, a, n, v, b); }
  }

  /**
   * Scalars: a write always succeeds, keeps the frame mapped, is read back wrapped to the variable's width and sign,
   * and changes no byte but the variable's own: every other scalar and every element of every array stays.
   */
  lemma {:induction false} WriteThenRead(vs: Table, base: int, mem: Memory, j: nat, k: nat, v: int)
    requires WellLaid(vs) && j < |vs| && k < |vs| && FrameMemory(mem, vs, base)
    ensures var w := WriteVar(mem, base, vs[j], v);
            w.Val? && FrameMemory(w.mem, vs, base) && ReadVar(mem, base, vs[k]).Val? &&
            ReadVar(w.mem, base, vs[k]) ==
            Val(if j == k then Truncate(v, vs[j].ty.Width(), vs[j].ty.base.Signed()) else ReadVar(mem, base, vs[k]).v, w.mem)
    ensures SameOutside(mem, WriteVar(mem, base, vs[j], v).mem, Low(vs[j], base), vs[j].ty.Width().Bytes())
    ensures Low(vs[j], base) + vs[j].ty.Width().Bytes() <= High(vs[j], base)
  {
    hide Store, Load, Pow256, Extend, StorageSize, IndexOf, WellLaid, FrameSize;
    var a, n := Low(vs[j], base), vs[j].ty.Width().Bytes();
    FitsInRegion(vs, j, base, mem);
    FitsInRegion(vs, k, base, mem);
    RegionsDisjoint(vs, base, j, k);
    StoreKeys(mem, a, n, v);
    StoreOutside(mem, a, n, v);
    if j == k {
      LoadExtStore(mem, a, vs[j].ty.Width(), vs[j].ty.base.Signed(), v);
    } else {
      LoadStoreDisjoint(mem, a, n, v, Low(vs[k], base), vs[k].ty.Width().Bytes());
    }
  }

  /** Address of element i. */
  function ElementLow(v: VarInfo, base: int, i: int): int {
    Low(v, base) + i * v.ty.base.Bytes()
  }

  function ReadElement(mem: Memory, v: VarInfo, base: int, i: int): int {
    LoadExt(mem, ElementLow(v, base, i), v.ty.base.Width(), v.ty.base.Signed())
  }

  lemma ElementInRegion(v: VarInfo, base: int, i: int)
    requires 0 <= i < v.elems
    ensures Low(v, base) <= ElementLow(v, base, i)
    ensures ElementLow(v, base, i) + v.ty.base.Bytes() <= High(v, base)
  {
    hide StorageSize;
    var n := v.ty.base.Bytes();
    assert i * n + n == (i + 1) * n && (i + 1) * n <= v.elems * n;
    assert n * v.elems == v.elems * n;
  }

  lemma ElementsApart(v: VarInfo, base: int, i: int, j: int)
    requires i != j
    ensures var n := v.ty.base.Bytes();
            ElementLow(v, base, i) + n <= ElementLow(v, base, j) || ElementLow(v, base, j) + n <= ElementLow(v, base, i)
  {
    var n := v.ty.base.Bytes();
    if i < j { assert j * n == i * n + (j - i) * n && (j - i) * n >= n; }
    if j < i { assert i * n == j * n + (i - j) * n && (i - j) * n >= n; }
  }

  /** In-bounds element writes change the bytes of that element and no other byte of the frame. */
  lemma {:induction false} ElementWriteThenRead(vs: Table, base: int, mem: Memory, j: nat, i: int, k: nat, i': int, v: int)
    requires WellLaid(vs) && j < |vs| && k < |vs| && FrameMemory(mem, vs, base)
    requires 0 <= i < vs[j].elems && 0 <= i' < vs[j].elems
    ensures var b, a := vs[j].ty.base, ElementLow(vs[j], base, i);
            var w := WriteAt(mem, a, b.Width(), v);
            w.Val? && FrameMemory(w.mem, vs, base) && SameOutside(mem, w.mem, a, b.Bytes()) &&
            ReadAt(w.mem, a, b.Width(), b.Signed()) == Val(Truncate(v, b.Width(), b.Signed()), w.mem) &&
            (i' != i ==> ReadElement(w.mem, vs[j], base, i') == ReadElement(mem, vs[j], base, i')) &&
            (k != j ==> ReadVar(w.mem, base, vs[k]).Val? && ReadVar(mem, base, vs[k]).Val? && ReadVar(w.mem, base, vs[k]).v == ReadVar(mem, base, vs[k]).v)
    ensures Low(vs[j], base) <= ElementLow(vs[j], base, i) <= High(vs[j], base) - vs[j].ty.base.Bytes()
  {
    hide Store, Load, Pow256, Extend, StorageSize, IndexOf, WellLaid, FrameSize;
    var b, a := vs[j].ty.base, ElementLow(vs[j], base, i);
    RegionsDisjoint(vs, base, j, k);
    ElementInRegion(vs[j], base, i);
    StoreKeys(mem, a, b.Bytes(), v);
    LoadExtStore(mem, a, b.Width(), b.Signed(), v);
    StoreOutside(mem, a, b.Bytes(), v);
    if i' != i {
      ElementsApart(vs[j], base, i, i');
      LoadStoreDisjoint(mem, a, b.Bytes(), v, ElementLow(vs[j], base, i'), b.Bytes());
    }
    if k != j {
      FitsInRegion(vs, k, base, mem);
      LoadStoreDisjoint(mem, a, b.Bytes(), v, Low(vs[k], base), vs[k].ty.Width().Bytes());
    }
  }

  /** x[i] in a program addresses that element, for an array inside the address space and an in-bounds index. */
  lemma ElementAddressed(vs: Table, base: int, mem: Memory, k: nat, i: int)
    requires WellLaid(vs) && k < |vs| && IsWord(base) && IsWord(base - FrameSize(vs)) && 0 <= i < vs[k].elems
    ensures var v := vs[k];
            Wrap(Designated(mem, base, v).v + Scale(i, v.ty)) == ElementLow(v, base, i)
  {
    hide StorageSize, IndexOf, WellLaid, FrameSize;
    RegionsDisjoint(vs, base, k, k);
    ElementInRegion(vs[k], base, i);
    assert 0 <= i * vs[k].ty.base.Bytes();
    WrapSum(Low(vs[k], base), i * vs[k].ty.base.Bytes());
  }
}
