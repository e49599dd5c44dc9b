/** Cluster chains of a FAT32 volume, and reading a file along its chain. */
module FatVolume {
  import opened Syntax
  import Words

  const SECTOR: nat := 512
  const END_OF_CHAIN: nat := 0x0FFF_FFF8

  type Sector = s: seq<int> | |s| == SECTOR && forall i :: 0 <= i < |s| ==> 0 <= s[i] < 256 witness seq(SECTOR, _ => 0)

  /** disk gives the sectors that can be read. Mounting refuses a volume without sectors per cluster. */
  datatype Mount = Mount(disk: int -> Option<Sector>, perCluster: nat, fatStart: nat, dataStart: nat, root: nat)

  predicate Usable(m: Mount) {
    m.perCluster > 0
  }

  predicate InChain(c: nat) {
    2 <= c < END_OF_CHAIN
  }

  /** Sector s of cluster c, in 32 bits. */
  function SectorOf(m: Mount, c: nat, s: nat): int {
    ((m.dataStart + (c - 2) * m.perCluster) % 0x1_0000_0000 + s) % 0x1_0000_0000
  }

  function FatEntry(m: Mount, c: nat): (r: Option<nat>) {
    match m.disk(m.fatStart + c * 4 / SECTOR)
    case None => None
    case Some(b) =>
      var o := c * 4 % SECTOR;
      Some((b[o] + 0x100 * b[o + 1] + 0x1_0000 * b[o + 2] + 0x100_0000 * b[o + 3]) % 0x1000_0000)
  }

  // ----- where clusters and table entries lie -----

  /** The clusters up to c lie below sector 2^32. */
  predicate Below(m: Mount, c: nat) {
    c >= 2 && m.dataStart + (c - 1) * m.perCluster <= 0x1_0000_0000
  }

  /**
   * Cluster 2 begins at the first data sector, the sectors of a cluster follow one another, and the next cluster begins
   * directly behind the last one.
   */
  lemma ClustersFollow(m: Mount, c: nat, s: nat)
    requires Usable(m) && Below(m, c + 1) && c >= 2 && s < m.perCluster
    ensures SectorOf(m, 2, 0) == m.dataStart && SectorOf(m, c, s) == SectorOf(m, c, 0) + s
    ensures SectorOf(m, c + 1, 0) == SectorOf(m, c, m.perCluster - 1) + 1
  {
    SectorPlace(m, 2, 0);
    SectorPlace(m, c, 0);
    SectorPlace(m, c, s);
    SectorPlace(m, c, m.perCluster - 1);
    SectorPlace(m, c + 1, 0);
    assert (c - 1) * m.perCluster == (c - 2) * m.perCluster + m.perCluster;
  }

  lemma SectorPlace(m: Mount, c: nat, s: nat)
    requires Usable(m) && s < m.perCluster && Below(m, c)
    ensures SectorOf(m, c, s) == m.dataStart + (c - 2) * m.perCluster + s
  {
    var p, k := m.perCluster, c - 2;
    assert (c - 1) * p == k * p + p && k * p >= 0;
  }

  lemma PlaceUnique(p: nat, k: nat, s: nat, k': nat, s': nat)
    requires s < p && s' < p && k * p + s == k' * p + s'
    ensures k == k' && s == s'
  {
    assert p * k == k * p && p * k' == k' * p;
    Words.DivModUnique(k * p + s, p, k, s);
    Words.DivModUnique(k * p + s, p, k', s');
  }

  /** Different sectors of the volume's clusters are different sectors of the disk. */
  lemma SectorsApart(m: Mount, c: nat, s: nat, c': nat, s': nat)
    requires Usable(m) && Below(m, c) && Below(m, c') && s < m.perCluster && s' < m.perCluster
    ensures SectorOf(m, c, s) == SectorOf(m, c', s') ==> c == c' && s == s'
  {
    hide SectorOf;
    var p := m.perCluster;
    SectorPlace(m, c, s);
    SectorPlace(m, c', s');
    if SectorOf(m, c, s) == SectorOf(m, c', s') { PlaceUnique(p, c - 2, s, c' - 2, s'); }
  }

  /** The table holds 128 entries a sector, four bytes each, lowest first; the top four bits do not count. */
  lemma EntryStored(m: Mount, c: nat, b: Sector, e: nat)
    requires e < 0x1_0000_0000 && m.disk(m.fatStart + c / 128) == Some(b)
    requires b[4 * (c % 128)..4 * (c % 128) + 4] == Words.LittleEndian(e, 4)
    ensures FatEntry(m, c) == Some(e % 0x1000_0000)
  {
    assert c * 4 / SECTOR == c / 128 && c * 4 % SECTOR == 4 * (c % 128);
    var o := 4 * (c % 128);
    var four := b[o..o + 4];
    assert four[0] == b[o] && four[1] == b[o + 1] && four[2] == b[o + 2] && four[3] == b[o + 3];
    FourBytes(e);
  }

  lemma FourBytes(e: nat)
    requires e < 0x1_0000_0000
    ensures var l: seq<int> := Words.LittleEndian(e, 4); l[0] + 0x100 * l[1] + 0x1_0000 * l[2] + 0x100_0000 * l[3] == e
  {
    assert Words.LittleEndian(e, 4) == [e % 0x100] + Words.LittleEndian(e / 0x100, 3);
    assert Words.LittleEndian(e / 0x100, 3) == [e / 0x100 % 0x100] + Words.LittleEndian(e / 0x100 / 0x100, 2);
    assert Words.LittleEndian(e / 0x100 / 0x100, 2) == [e / 0x100 / 0x100 % 0x100] + Words.LittleEndian(e / 0x100 / 0x100 / 0x100, 1);
  }

  // ----- what a file is -----

  function Sectors(size: nat): nat {
    (size + 511) / SECTOR
  }

  /** How many clusters n sectors take. */
  function Clusters(m: Mount, n: nat): nat
    requires Usable(m)
  {
    (n + m.perCluster - 1) / m.perCluster
  }

  /** cs is a chain from c whose every FAT entry, the last one's too, can be read. */
  ghost predicate Chained(m: Mount, c: nat, cs: seq<nat>) {
    (cs != [] ==> cs[0] == c && FatEntry(m, cs[|cs| - 1]).Some?) &&
    (forall i :: 0 <= i < |cs| ==> InChain(cs[i])) &&
    forall i :: 0 <= i < |cs| - 1 ==> FatEntry(m, cs[i]) == Some(cs[i + 1])
  }

  /** The byte at offset o of sector q of the clusters cs. */
  ghost predicate ByteIs(m: Mount, cs: seq<nat>, q: nat, o: nat, v: int)
    requires Usable(m) && o < SECTOR
  {
    q / m.perCluster < |cs| &&
    var b := m.disk(SectorOf(m, cs[q / m.perCluster], q % m.perCluster));
    b.Some? && b.value[o] == v
  }

  ghost predicate BytesAre(m: Mount, cs: seq<nat>, s: nat, data: seq<int>)
    requires Usable(m)
  {
    forall j :: 0 <= j < |data| ==> ByteIs(m, cs, s + j / SECTOR, j % SECTOR, data[j])
  }

  /** From sector s of its first cluster c, a file of size bytes is exactly data. */
  ghost predicate IsFile(m: Mount, c: nat, cs: seq<nat>, s: nat, size: nat, data: seq<int>)
    requires Usable(m)
  {
    Chained(m, c, cs) && |cs| == Clusters(m, s + Sectors(size)) && |data| == size && BytesAre(m, cs, s, data)
  }

  // ----- reading it -----

  function Prepend(a: seq<int>, r: Option<seq<int>>): Option<seq<int>> {
    if r.None? then None else Some(a + r.value)
  }

  lemma PrependAll(a: seq<int>, b: seq<int>, r: Option<seq<int>>)
    ensures Prepend(a, None) == None && Prepend([], r) == r && Prepend(a, Prepend(b, r)) == Prepend(a + b, r)
  {
    if r.Some? { assert [] + r.value == r.value && a + (b + r.value) == a + b + r.value; }
  }

  lemma PrependNothing(a: seq<int>)
    ensures Prepend(a, Some([])) == Some(a)
  {
    assert a + [] == a;
  }

  /** The bytes still to come before cluster c. */
  function FileBytes(m: Mount, c: nat, left: nat): (r: Option<seq<int>>)
    requires Usable(m)
    ensures r.Some? ==> |r.value| == left
    decreases left, 1
  {
    if left == 0 then Some([]) else if !InChain(c) then None else BytesFrom(m, c, 0, left)
  }

  /** The bytes still to come before sector s of cluster c. */
  function BytesFrom(m: Mount, c: nat, s: nat, left: nat): (r: Option<seq<int>>)
    requires Usable(m) && InChain(c) && s <= m.perCluster && (s > 0 || left > 0)
    ensures r.Some? ==> |r.value| == left
    decreases left, if s == 0 then 0 else 2
  {
    if s < m.perCluster && left > 0 then
      match m.disk(SectorOf(m, c, s))
      case None => None
      case Some(b) => Prepend(b[..Words.Min(left, SECTOR)], BytesFrom(m, c, s + 1, left - Words.Min(left, SECTOR)))
    else
      match FatEntry(m, c)
      case None => None
      case Some(next) => FileBytes(m, next, left)
  }

  lemma ClustersAdd(m: Mount, n: nat)
    requires Usable(m)
    ensures Clusters(m, 0) == 0 && Clusters(m, m.perCluster + n) == 1 + Clusters(m, n)
    ensures 0 < n <= m.perCluster ==> Clusters(m, n) == 1
    ensures n > 0 ==> Clusters(m, n) > 0
  {
    var p := m.perCluster;
    var x := n + p - 1;
    assert x == p * (x / p) + x % p;
    assert p * (x / p + 1) == p * (x / p) + p;
    Words.DivModUnique(x + p, p, x / p + 1, x % p);
    Words.DivModUnique(p - 1, p, 0, p - 1);
    if 0 < n <= p { Words.DivModUnique(x, p, 1, n - 1); }
    if n > p { ClustersMore(x, p); }
  }

  lemma ClustersMore(x: nat, p: nat)
    requires p > 0 && x >= p
    ensures x / p > 0
  {
    var k := x / p;
    assert x == p * k + x % p;
    assert k <= 0 ==> p * k <= 0;
  }

  lemma SectorAdd(m: Mount, q: nat)
    requires Usable(m)
    ensures (m.perCluster + q) / m.perCluster == 1 + q / m.perCluster && (m.perCluster + q) % m.perCluster == q % m.perCluster
  {
    var p := m.perCluster;
    assert q == p * (q / p) + q % p;
    assert p * (q / p + 1) == p * (q / p) + p;
    Words.DivModUnique(q + p, p, q / p + 1, q % p);
  }

  /** A byte of a later cluster, seen from the next cluster on. */
  lemma ByteLater(m: Mount, c: nat, cs: seq<nat>, q: nat, o: nat, v: int)
    requires Usable(m) && o < SECTOR
    ensures ByteIs(m, [c] + cs, m.perCluster + q, o, v) == ByteIs(m, cs, q, o, v)
  {
    hide SectorOf;
    SectorAdd(m, q);
    if q / m.perCluster < |cs| { assert ([c] + cs)[1 + q / m.perCluster] == cs[q / m.perCluster]; }
  }

  lemma ChainedOn(m: Mount, c: nat, cs: seq<nat>)
    requires InChain(c) && FatEntry(m, c).Some?
    ensures Chained(m, c, [c] + cs) == Chained(m, FatEntry(m, c).value, cs)
  {
    hide FatEntry;
    var all := [c] + cs;
    assert forall i :: 0 <= i < |cs| ==> all[i + 1] == cs[i];
    if Chained(m, c, all) {
      forall i | 0 <= i < |cs| ensures InChain(cs[i]) { assert all[i + 1] == cs[i]; }
      forall i | 0 <= i < |cs| - 1 ensures FatEntry(m, cs[i]) == Some(cs[i + 1]) { assert FatEntry(m, all[i + 1]) == Some(all[i + 2]); }
      if cs != [] { assert FatEntry(m, all[0]) == Some(all[1]); }
    }
  }

  /** The next cluster of a file. */
  lemma IsFileOn(m: Mount, c: nat, cs: seq<nat>, s: nat, size: nat, data: seq<int>)
    requires Usable(m) && InChain(c) && FatEntry(m, c).Some? && 0 < s <= m.perCluster && (s == m.perCluster || size == 0)
    ensures IsFile(m, c, [c] + cs, s, size, data) == IsFile(m, FatEntry(m, c).value, cs, 0, size, data)
  {
    hide FatEntry, Chained, ByteIs;
    ChainedOn(m, c, cs);
    if size == 0 { ClustersAdd(m, s); } else { ClustersAdd(m, Sectors(size)); }
    forall j | 0 <= j < size && |data| == size
      ensures ByteIs(m, [c] + cs, m.perCluster + j / SECTOR, j % SECTOR, data[j]) == ByteIs(m, cs, j / SECTOR, j % SECTOR, data[j])
    {
      ByteLater(m, c, cs, j / SECTOR, j % SECTOR, data[j]);
    }
  }

  /** The first sector's bytes, and those from the next on. */
  lemma BytesSplit(m: Mount, cs: seq<nat>, s: nat, b: Sector, data: seq<int>)
    requires Usable(m) && cs != [] && s < m.perCluster
    requires m.disk(SectorOf(m, cs[0], s)) == Some(b)
    ensures var n := Words.Min(|data|, SECTOR);
            BytesAre(m, cs, s, data) == (data[..n] == b[..n] && BytesAre(m, cs, s + 1, data[n..]))
  {
    hide ByteIs, SectorOf;
    var n := Words.Min(|data|, SECTOR);
    forall j | 0 <= j < n ensures ByteIs(m, cs, s + j / SECTOR, j % SECTOR, data[j]) == (data[..n][j] == b[..n][j]) {
      ByteFirst(m, cs, s, b, j, data[j]);
    }
    forall j | 0 <= j < |data| - n
      ensures ByteIs(m, cs, s + 1 + j / SECTOR, j % SECTOR, data[n..][j]) == ByteIs(m, cs, s + (j + n) / SECTOR, (j + n) % SECTOR, data[j + n])
    {
      Shifted(j);
    }
    if data[..n] == b[..n] && BytesAre(m, cs, s + 1, data[n..]) {
      forall j | 0 <= j < |data| ensures ByteIs(m, cs, s + j / SECTOR, j % SECTOR, data[j]) {
        if j >= n { assert j == (j - n) + n; }
      }
    }
  }

  lemma ByteFirst(m: Mount, cs: seq<nat>, s: nat, b: Sector, j: nat, v: int)
    requires Usable(m) && cs != [] && s < m.perCluster && j < SECTOR && m.disk(SectorOf(m, cs[0], s)) == Some(b)
    ensures ByteIs(m, cs, s + j / SECTOR, j % SECTOR, v) == (v == b[j])
  {
    hide SectorOf;
    Words.DivModUnique(s, m.perCluster, 0, s);
  }

  lemma Shifted(j: nat)
    ensures (j + SECTOR) / SECTOR == 1 + j / SECTOR && (j + SECTOR) % SECTOR == j % SECTOR
  {
  }

  /** The next sector of a file. */
  lemma IsFileNext(m: Mount, c: nat, cs: seq<nat>, s: nat, size: nat, b: Sector, data: seq<int>)
    requires Usable(m) && InChain(c) && s < m.perCluster && size > 0 && m.disk(SectorOf(m, c, s)) == Some(b) && |data| == size
    ensures IsFile(m, c, cs, s, size, data) ==
            (data[..Words.Min(size, SECTOR)] == b[..Words.Min(size, SECTOR)] && IsFile(m, c, cs, s + 1, size - Words.Min(size, SECTOR), data[Words.Min(size, SECTOR)..]))
  {
    hide SectorOf, FatEntry, BytesAre, Clusters;
    var n := Words.Min(size, SECTOR);
    assert Sectors(size) == 1 + Sectors(size - n);
    ClustersAdd(m, s + Sectors(size));
    if Chained(m, c, cs) && |cs| == Clusters(m, s + Sectors(size)) { BytesSplit(m, cs, s, b, data); }
  }

  /** What FileBytes gives is the file, and whatever is the file it gives. */
  lemma {:induction false} FileSound(m: Mount, c: nat, left: nat) returns (cs: seq<nat>)
    requires Usable(m) && FileBytes(m, c, left).Some?
    ensures IsFile(m, c, cs, 0, left, FileBytes(m, c, left).value)
    decreases left, 1
  {
    hide IsFile, BytesFrom;
    if left == 0 {
      cs := [];
      NoFile(m, c);
    } else {
      cs := FromSound(m, c, 0, left);
    }
  }

  lemma NoFile(m: Mount, c: nat)
    requires Usable(m)
    ensures IsFile(m, c, [], 0, 0, [])
  {
    ClustersAdd(m, 0);
  }

  lemma {:induction false} FromSound(m: Mount, c: nat, s: nat, left: nat) returns (cs: seq<nat>)
    requires Usable(m) && InChain(c) && s <= m.perCluster && (s > 0 || left > 0) && BytesFrom(m, c, s, left).Some?
    ensures IsFile(m, c, cs, s, left, BytesFrom(m, c, s, left).value)
    decreases left, if s == 0 then 0 else 2
  {
    hide IsFile, FatEntry, SectorOf;
    var data := BytesFrom(m, c, s, left).value;
    if s < m.perCluster && left > 0 {
      var n, b := Words.Min(left, SECTOR), m.disk(SectorOf(m, c, s)).value;
      cs := FromSound(m, c, s + 1, left - n);
      assert data[..n] == b[..n] && data[n..] == BytesFrom(m, c, s + 1, left - n).value;
      IsFileNext(m, c, cs, s, left, b, data);
    } else {
      var rest := FileSound(m, FatEntry(m, c).value, left);
      cs := [c] + rest;
      IsFileOn(m, c, rest, s, left, data);
    }
  }

  lemma {:induction false} FileComplete(m: Mount, c: nat, cs: seq<nat>, left: nat, data: seq<int>)
    requires Usable(m) && IsFile(m, c, cs, 0, left, data)
    ensures FileBytes(m, c, left) == Some(data)
    decreases left, 1
  {
    hide BytesFrom, FatEntry;
    if left > 0 {
      ClustersAdd(m, Sectors(left));
      assert InChain(cs[0]);
      FromComplete(m, c, cs, 0, left, data);
    }
  }

  lemma {:induction false} FromComplete(m: Mount, c: nat, cs: seq<nat>, s: nat, left: nat, data: seq<int>)
    requires Usable(m) && InChain(c) && s <= m.perCluster && (s > 0 || left > 0) && IsFile(m, c, cs, s, left, data)
    ensures BytesFrom(m, c, s, left) == Some(data)
    decreases left, if s == 0 then 0 else 2
  {
    hide FatEntry, SectorOf, Clusters, IsFile, FileBytes;
    if s < m.perCluster && left > 0 {
      ReadableFirst(m, c, cs, s, left, data);
      var n, b := Words.Min(left, SECTOR), m.disk(SectorOf(m, c, s)).value;
      IsFileNext(m, c, cs, s, left, b, data);
      FromComplete(m, c, cs, s + 1, left - n, data[n..]);
      assert data == data[..n] + data[n..];
    } else {
      FirstCluster(m, c, cs, s, left, data);
      IsFileOn(m, c, cs[1..], s, left, data);
      FileComplete(m, FatEntry(m, c).value, cs[1..], left, data);
    }
  }

  lemma FirstCluster(m: Mount, c: nat, cs: seq<nat>, s: nat, size: nat, data: seq<int>)
    requires Usable(m) && s + size > 0 && IsFile(m, c, cs, s, size, data)
    ensures cs != [] && cs == [c] + cs[1..] && FatEntry(m, c).Some? && |data| == size
  {
    hide FatEntry;
    ClustersAdd(m, s + Sectors(size));
    if |cs| > 1 { assert FatEntry(m, cs[0]) == Some(cs[1]); }
  }

  lemma ReadableFirst(m: Mount, c: nat, cs: seq<nat>, s: nat, size: nat, data: seq<int>)
    requires Usable(m) && InChain(c) && s < m.perCluster && size > 0 && IsFile(m, c, cs, s, size, data)
    ensures m.disk(SectorOf(m, c, s)).Some? && |data| == size
  {
    hide FatEntry, SectorOf;
    FirstCluster(m, c, cs, s, size, data);
    Words.DivModUnique(s, m.perCluster, 0, s);
    assert ByteIs(m, cs, s + 0 / SECTOR, 0 % SECTOR, data[0]);
  }

  /** Reading succeeds exactly if a chain with every needed sector and FAT entry exists, and gives its bytes. */
  lemma FileExact(m: Mount, c: nat, size: nat, data: seq<int>)
    requires Usable(m)
    ensures FileBytes(m, c, size) == Some(data) <==> exists cs :: IsFile(m, c, cs, 0, size, data)
  {
    hide IsFile, FileBytes;
    if FileBytes(m, c, size) == Some(data) { var cs := FileSound(m, c, size); }
    if cs :| IsFile(m, c, cs, 0, size, data) { FileComplete(m, c, cs, size, data); }
  }

  /** The chain of a file that lies on n clusters in a row. */
  ghost predicate InARow(m: Mount, c: nat, n: nat) {
    forall d: nat :: c <= d < c + n - 1 ==> FatEntry(m, d) == Some(d + 1)
  }

  lemma {:induction false} RowIs(m: Mount, c: nat, cs: seq<nat>, i: nat)
    requires Chained(m, c, cs) && InARow(m, c, |cs|) && i < |cs|
    ensures cs[i] == c + i
  {
    hide FatEntry;
    if i > 0 {
      RowIs(m, c, cs, i - 1);
      assert FatEntry(m, cs[i - 1]) == Some(cs[i]);
    }
  }

  /** Read from clusters in a row, a file is the bytes of the disk's sectors in a row: byte j is byte j % 512 of the (j / 512)-th. */
  lemma RowRead(m: Mount, c: nat, size: nat, data: seq<int>, j: nat)
    requires Usable(m) && FileBytes(m, c, size) == Some(data) && j < size
    requires c >= 2 && InARow(m, c, Clusters(m, Sectors(size))) && Below(m, c + Clusters(m, Sectors(size)))
    ensures var b := m.disk(m.dataStart + (c - 2) * m.perCluster + j / 512); b.Some? && j < |data| && data[j] == b.value[j % 512]
  {
    hide FatEntry, FileBytes, SectorOf, Chained, Clusters, Below;
    var cs := FileSound(m, c, size);
    var q := j / SECTOR;
    assert ByteIs(m, cs, 0 + j / SECTOR, j % SECTOR, data[j]);
    RowIs(m, c, cs, q / m.perCluster);
    RowPlace(m, c, |cs|, q);
  }

  lemma RowPlace(m: Mount, c: nat, n: nat, q: nat)
    requires Usable(m) && c >= 2 && q / m.perCluster < n && Below(m, c + n)
    ensures SectorOf(m, c + q / m.perCluster, q % m.perCluster) == m.dataStart + (c - 2) * m.perCluster + q
  {
    hide SectorOf;
    var p, k := m.perCluster, q / m.perCluster;
    assert q == p * k + q % p;
    BelowMore(p, c + k, c + n);
    SectorPlace(m, c + k, q % p);
    assert (c + k - 2) * p == (c - 2) * p + p * k;
  }

  lemma BelowMore(p: nat, c: nat, d: nat)
    requires 1 <= c <= d
    ensures (c - 1) * p <= (d - 1) * p
  {
    assert (d - 1) * p == (c - 1) * p + (d - c) * p;
  }

  /** A file of up to 512 bytes is the start of its cluster's first sector; clusters 0 and 1 and those from 268435448 on end a chain. */
  lemma FirstSector(m: Mount, c: nat, left: nat, b: Sector)
    requires Usable(m) && 0 < left <= 512 && m.disk(SectorOf(m, c, 0)) == Some(b) && FatEntry(m, c).Some?
    ensures FileBytes(m, c, left) == if 2 <= c < 268435448 then Some(b[..left]) else None
  {
    hide SectorOf, FatEntry;
    if InChain(c) {
      assert BytesFrom(m, c, 1, 0) == Some([]) by { NothingLeft(m, c); }
      assert BytesFrom(m, c, 0, left) == Prepend(b[..left], BytesFrom(m, c, 1, 0));
      PrependNothing(b[..left]);
    }
  }

  lemma NothingLeft(m: Mount, c: nat)
    requires Usable(m) && InChain(c) && FatEntry(m, c).Some?
    ensures BytesFrom(m, c, 1, 0) == Some([])
  {
    hide FatEntry;
    assert FileBytes(m, FatEntry(m, c).value, 0) == Some([]);
  }

  // ----- the loops -----

  /** The bytes still to come after cluster c. */
  function BytesOn(m: Mount, c: nat, left: nat): Option<seq<int>>
    requires Usable(m)
  {
    if FatEntry(m, c).None? then None else FileBytes(m, FatEntry(m, c).value, left)
  }

  /** The sectors of one cluster, as far as the file goes; then it is at the cluster's end or its own. */
  method ReadCluster(m: Mount, c: nat, size: nat, out: array<int>, start: nat) returns (ok: bool, written: nat)
    requires Usable(m) && InChain(c) && start < size <= out.Length
    modifies out
    ensures start <= written <= size && out[..start] == old(out[..start]) && out[size..] == old(out[size..])
    ensures !ok ==> BytesFrom(m, c, 0, size - start).None?
    ensures ok ==> start < written
    ensures ok ==> BytesFrom(m, c, 0, size - start) == Prepend(out[start..written], BytesOn(m, c, size - written))
  {
    hide SectorOf, FatEntry, FileBytes, Prepend;
    written := start;
    var s := 0;
    assert out[start..written] == [];
    PrependAll([], [], BytesFrom(m, c, 0, size - start));
    while s < m.perCluster && written < size
      invariant s <= m.perCluster && start <= written <= size && if s == 0 then written == start else written > start
      invariant out[..start] == old(out[..start]) && out[size..] == old(out[size..])
      invariant BytesFrom(m, c, 0, size - start) == Prepend(out[start..written], BytesFrom(m, c, s, size - written))
    {
      var read := m.disk(SectorOf(m, c, s));
      PrependAll(out[start..written], [], None);
      if read.None? { return false, written; }
      var n := Words.Min(size - written, SECTOR);
      ghost var before := out[..];
      PrependAll(out[start..written], read.value[..n], BytesFrom(m, c, s + 1, size - written - n));
      CopySector(read.value, n, out, written);
      assert out[..] == before[..written] + read.value[..n] + before[written + n..];
      assert out[start..written + n] == before[start..written] + read.value[..n];
      written := written + n;
      s := s + 1;
    }
    ok := true;
  }

  lemma CopiedIs(before: seq<int>, now: seq<int>, bytes: seq<int>, at: nat)
    requires |now| == |before| && at + |bytes| <= |now| && forall k :: 0 <= k < |bytes| ==> now[at + k] == bytes[k]
    requires forall k :: 0 <= k < at || at + |bytes| <= k < |now| ==> now[k] == before[k]
    ensures now == before[..at] + bytes + before[at + |bytes|..]
  {
    assert now[at..at + |bytes|] == bytes;
    assert now[..at] == before[..at] && now[at + |bytes|..] == before[at + |bytes|..];
    assert now == now[..at] + now[at..at + |bytes|] + now[at + |bytes|..];
  }

  method CopySector(b: Sector, n: nat, out: array<int>, at: nat)
    requires n <= SECTOR && at + n <= out.Length
    modifies out
    ensures out[..] == old(out[..at]) + b[..n] + old(out[at + n..])
  {
    for i := 0 to n
      invariant forall k :: 0 <= k < i ==> out[at + k] == b[k]
      invariant forall k :: 0 <= k < at || at + i <= k < out.Length ==> out[k] == old(out[k])
    {
      out[at + i] := b[i];
    }
    CopiedIs(old(out[..]), out[..], b[..n], at);
  }

  /** The whole file, or nothing said about the buffer but that it is not exceeded. */
  method ReadChain(m: Mount, start: nat, size: nat, out: array<int>) returns (ok: bool, written: nat)
    requires Usable(m) && size <= out.Length
    modifies out
    ensures ok == FileBytes(m, start, size).Some? && out[size..] == old(out[size..])
    ensures ok ==> written == size && Some(out[..size]) == FileBytes(m, start, size)
  {
    hide SectorOf, FatEntry, BytesFrom, Prepend;
    written := 0;
    var c := start;
    PrependAll([], [], FileBytes(m, start, size));
    assert out[..0] == [];
    while InChain(c) && written < size
      invariant written <= size && out[size..] == old(out[size..])
      invariant FileBytes(m, start, size) == Prepend(out[..written], FileBytes(m, c, size - written))
      decreases size - written
    {
      ghost var before, had := out[..], written;
      ok, written := ReadCluster(m, c, size, out, written);
      PrependAll(before[..had], out[had..written], BytesOn(m, c, size - written));
      PrependAll(before[..had], [], None);
      if !ok { return false, 0; }
      assert out[..written] == before[..had] + out[had..written];
      var next := FatEntry(m, c);
      PrependAll(out[had..written], [], None);
      if next.None? { return false, 0; }
      c := next.value;
    }
    ok := written == size;
    if ok { PrependNothing(out[..written]); } else { PrependAll(out[..written], [], None); }
  }
}
