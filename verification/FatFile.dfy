/** Paths on a FAT32 volume: components, resolution, and the listing and reading entry points. */
module FatFile {
  import opened Syntax
  import opened PathWords
  import opened FatVolume
  import opened FatDirectory
  import Words

  // ----- components -----

  /** The words of a path, each cut to 63 bytes. */
  function Components(p: Bytes): seq<Bytes> {
    CutAll(WordsOf(p), COMPONENT)
  }

  /** A separator splits the components. */
  lemma ComponentsSplit(a: Bytes, c: int, b: Bytes)
    requires IsSeparator(c)
    ensures Components(a + [c] + b) == Components(a) + Components(b)
  {
    hide WordsOf;
    WordsSplit(a, c, b);
    CutConcat(WordsOf(a), WordsOf(b), COMPONENT);
  }

  /** A component by itself is kept up to its 63rd byte. */
  lemma ComponentAlone(w: Bytes)
    requires w != [] && forall i :: 0 <= i < |w| ==> w[i] != 92 && w[i] != 47
    ensures Components(w) == [if |w| <= 63 then w else w[..63]]
  {
    hide WordsOf;
    WordAlone(w);
    assert w[..|w|] == w;
  }

  /** The next component from the cursor on, which then stands behind the separators that follow. */
  method NextComponent(path: Bytes, cursor: nat) returns (next: nat, component: Option<Bytes>)
    requires cursor <= |path|
    ensures cursor <= next <= |path|
    ensures component.None? ==> Components(path[cursor..]) == []
    ensures component.Some? ==> cursor < next && Components(path[cursor..]) == [component.value] + Components(path[next..])
  {
    hide WordsOf, Word, Cut;
    next := SkipSeparators(path, cursor);
    WordsBehind(path[cursor..]);
    if next == |path| {
      WordsBehind(path[next..]);
      return next, None;
    }
    ghost var at := next;
    var out: Bytes;
    next, out := ReadWord(path, next, COMPONENT);
    ghost var end := next;
    next := SkipSeparators(path, next);
    NextWord(path, at, end, next);
    CutConcat([path[at..end]], WordsOf(path[next..]), COMPONENT);
    return next, Some(out);
  }

  // ----- resolution -----

  /** The search for a component in the directory at cluster c ends somewhere. */
  ghost predicate SearchEnds(m: Mount, c: nat, component: Bytes) {
    exists n: nat :: !Walk(m, c, [], component, n).Going?
  }

  ghost function SearchBound(m: Mount, c: nat, component: Bytes): (n: nat)
    requires SearchEnds(m, c, component)
    ensures !Walk(m, c, [], component, n).Going?
  {
    var n: nat :| !Walk(m, c, [], component, n).Going?;
    n
  }

  ghost function Lookup(m: Mount, c: nat, component: Bytes): (r: Option<Raw>)
    requires SearchEnds(m, c, component)
    ensures forall n: nat :: !Walk(m, c, [], component, n).Going? ==> r == Hit(Walk(m, c, [], component, n))
  {
    var k := SearchBound(m, c, component);
    assert forall n: nat :: !Walk(m, c, [], component, n).Going? ==> Walk(m, c, [], component, n) == Walk(m, c, [], component, k) by {
      forall n: nat | !Walk(m, c, [], component, n).Going? ensures Walk(m, c, [], component, n) == Walk(m, c, [], component, k) {
        WalkUnique(m, c, [], component, n, k);
      }
    }
    Hit(Walk(m, c, [], component, k))
  }

  /** Every search for the components, one after the other, ends. */
  ghost predicate Walkable(m: Mount, c: nat, components: seq<Bytes>)
    decreases |components|
  {
    if components == [] then true
    else if !SearchEnds(m, c, components[0]) then false
    else
      var r := Lookup(m, c, components[0]);
      if r.None? then true else Walkable(m, ClusterOf(r.value), components[1..])
  }

  /** On the looping volume no path but the root's can be resolved, and the root cannot be listed. */
  lemma LoopNotWalkable(components: seq<Bytes>, max: nat)
    requires components != []
    ensures !Walkable(LOOP, LOOP.root, components) && !ListEnds(LOOP, LOOP.root, max)
  {
    hide Walk, ListWalk;
    forall n: nat ensures Walk(LOOP, LOOP.root, [], components[0], n).Going? && !ListWalk(LOOP, LOOP.root, [], [], max, n).Finished? {
      LoopNeverEnds(components[0], max, n);
    }
  }

  /** One component after the other, from cluster c. */
  ghost function Resolved(m: Mount, c: nat, components: seq<Bytes>): Option<Raw>
    requires Walkable(m, c, components) && components != []
    decreases |components|
  {
    var r := Lookup(m, c, components[0]);
    if r.None? || |components| == 1 then r else Resolved(m, ClusterOf(r.value), components[1..])
  }

  /** The entry a path names; the root has none. */
  method ResolvePath(m: Mount, path: Bytes) returns (found: bool, isRoot: bool, entry: Raw)
    requires Walkable(m, m.root, Components(path))
    ensures isRoot == (Components(path) == []) && (isRoot ==> found)
    ensures !isRoot ==> Resolved(m, m.root, Components(path)) == if found then Some(entry) else None
  {
    hide Components, SearchEnds, Walk;
    ghost var all := Components(path);
    var cursor, current, have := 0, m.root, false;
    entry := seq(32, _ => 0);
    assert path[0..] == path;
    var component: Option<Bytes>;
    cursor, component := NextComponent(path, cursor);
    if component.None? { return true, true, entry; }
    ghost var left := all;
    while component.Some?
      invariant cursor <= |path| && Walkable(m, current, left)
      invariant left == if component.None? then [] else [component.value] + Components(path[cursor..])
      invariant have == (left != all) && (!have ==> current == m.root) && all != []
      invariant left != [] ==> Resolved(m, m.root, all) == Resolved(m, current, left)
      invariant left == [] ==> Resolved(m, m.root, all) == Some(entry)
      invariant |left| <= |all|
      decreases |left|
    {
      have := true;
      assert left[1..] == Components(path[cursor..]);
      var r := FindInDirectory(m, current, component.value, SearchBound(m, current, component.value));
      if r.None? { return false, false, entry; }
      entry := r.value;
      current := ClusterOf(entry);
      left := left[1..];
      cursor, component := NextComponent(path, cursor);
    }
    return true, !have, entry;
  }

  /**
   * A file or directory stored as the first entry of a directory is resolved there by its short name in any case: the
   * entry's bytes are at the start of the first sector of the directory's first cluster c.
   */
  lemma StoredFound(m: Mount, c: nat, b: Sector, base: Bytes, ext: Bytes, attr: int, cluster: nat, size: nat, typed: Bytes)
    requires NamePart(base, 8) && NamePart(ext, 3) && base != [] && base[0] != 229 && cluster < 0x1_0000_0000 && size < 0x1_0000_0000
    requires attr == 16 || attr == 32
    requires Usable(m) && InChain(c) && Below(m, c) && m.disk(m.dataStart + (c - 2) * m.perCluster) == Some(b)
    requires b[..32] == Written(base, ext, attr, cluster, size)
    requires EqualFold(base + (if ext == [] then [] else [46] + ext), typed)
    ensures Walkable(m, c, [typed]) && Resolved(m, c, [typed]) == Some(Written(base, ext, attr, cluster, size))
  {
    hide Written, ShortName, EqualFold, SectorOf, Hidden, IsDir, Walk;
    var e := Written(base, ext, attr, cluster, size);
    WrittenReads(base, ext, attr, cluster, size);
    AttrBits(e, attr / 16, attr % 16);
    SectorPlace(m, c, 0);
    FirstEntry(m, c, b, e, typed);
    assert [typed][1..] == [];
  }

  // ----- entry points -----

  /** The whole file in the buffer, exactly if the path names a file that fits and can be read. */
  method ReadFile(m: Mount, path: Bytes, out: array<int>) returns (ok: bool, size: nat)
    requires Usable(m) && Walkable(m, m.root, Components(path))
    modifies out
    ensures ok ==> Components(path) != []
    ensures Components(path) != [] ==>
      var e := Resolved(m, m.root, Components(path));
      (ok == (e.Some? && !IsDir(e.value) && Size(e.value) <= out.Length && FileBytes(m, ClusterOf(e.value), Size(e.value)).Some?)) &&
      (ok ==> size == Size(e.value) && Some(out[..size]) == FileBytes(m, ClusterOf(e.value), size) && out[size..] == old(out[size..]))
  {
    hide FileBytes, Size, ClusterOf, IsDir, Components;
    var found, isRoot, e := ResolvePath(m, path);
    if !found { return false, 0; }
    if isRoot || IsDir(e) { return false, 0; }
    if Size(e) > out.Length { return false, 0; }
    ok, size := ReadChain(m, ClusterOf(e), Size(e), out);
  }

  /** Where a listing starts: at the root or at the directory the path names. */
  ghost function DirectoryAt(m: Mount, path: Bytes): Option<nat>
    requires Walkable(m, m.root, Components(path))
  {
    if Components(path) == [] then Some(m.root)
    else
      var e := Resolved(m, m.root, Components(path));
      if e.Some? && IsDir(e.value) then Some(ClusterOf(e.value)) else None
  }

  /** The listing of the directory at cluster c ends somewhere. */
  ghost predicate ListEnds(m: Mount, c: nat, max: nat) {
    exists n: nat :: ListWalk(m, c, [], [], max, n).Finished?
  }

  /** How a listing that ends finishes. */
  ghost function ListingOf(m: Mount, c: nat, max: nat): (o: Lister)
    requires ListEnds(m, c, max)
    ensures forall n: nat :: ListWalk(m, c, [], [], max, n).Finished? ==> o == ListWalk(m, c, [], [], max, n)
  {
    var k: nat :| ListWalk(m, c, [], [], max, k).Finished?;
    assert forall n: nat :: ListWalk(m, c, [], [], max, n).Finished? ==> ListWalk(m, c, [], [], max, n) == ListWalk(m, c, [], [], max, k) by {
      forall n: nat | ListWalk(m, c, [], [], max, n).Finished?
        ensures ListWalk(m, c, [], [], max, n) == ListWalk(m, c, [], [], max, k)
      {
        if n <= k { ListWalkStable(m, c, [], [], max, n, k); } else { ListWalkStable(m, c, [], [], max, k, n); }
      }
    }
    ListWalk(m, c, [], [], max, k)
  }

  /** The first max entries of the directory a path names. */
  method ListDir(m: Mount, path: Bytes, max: nat) returns (ok: bool, items: seq<Item>)
    requires max > 0 ==> Walkable(m, m.root, Components(path))
    requires max > 0 && DirectoryAt(m, path).Some? ==> ListEnds(m, DirectoryAt(m, path).value, max)
    ensures max == 0 || DirectoryAt(m, path).None? ==> !ok
    ensures max > 0 && DirectoryAt(m, path).Some? ==>
              var o := ListingOf(m, DirectoryAt(m, path).value, max); ok == o.ok && (ok ==> items == Shown(o.l))
  {
    hide Components, ListWalk, Resolved, Walkable, ClusterOf, IsDir;
    if max == 0 { return false, []; }
    var found, isRoot, e := ResolvePath(m, path);
    if !found { return false, []; }
    if !isRoot && !IsDir(e) { return false, []; }
    var c := if isRoot then m.root else ClusterOf(e);
    ghost var n: nat :| ListWalk(m, c, [], [], max, n).Finished?;
    ok, items := ListDirectory(m, c, max, n);
  }
}
