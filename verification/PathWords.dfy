/** Paths as words between separators, shared by the shell and the file system. */
module PathWords {
  import Words

  type Bytes = seq<int>

  const BACKSLASH: int := 92

  predicate IsSeparator(c: int) {
    c == BACKSLASH || c == 47
  }

  function AfterSeparators(p: Bytes): (q: Bytes)
    ensures |q| <= |p| && (q != [] ==> !IsSeparator(q[0]))
  {
    if p != [] && IsSeparator(p[0]) then AfterSeparators(p[1..]) else p
  }

  function Word(p: Bytes): (w: Bytes)
    ensures |w| <= |p| && w == p[..|w|] && (p != [] && !IsSeparator(p[0]) ==> w != [])
    ensures forall i :: 0 <= i < |w| ==> !IsSeparator(w[i])
  {
    if p == [] || IsSeparator(p[0]) then [] else [p[0]] + Word(p[1..])
  }

  /** The words between separators. */
  function WordsOf(p: Bytes): (ws: seq<Bytes>)
    ensures forall i :: 0 <= i < |ws| ==> ws[i] != [] && forall j :: 0 <= j < |ws[i]| ==> !IsSeparator(ws[i][j])
    decreases |p|
  {
    var q := AfterSeparators(p);
    if q == [] then [] else [Word(q)] + WordsOf(q[|Word(q)|..])
  }

  /** A separator splits the words. */
  lemma {:induction false} WordsSplit(a: Bytes, c: int, b: Bytes)
    requires IsSeparator(c)
    ensures WordsOf(a + [c] + b) == WordsOf(a) + WordsOf(b)
    decreases |a|
  {
    hide Word, AfterSeparators, WordsOf;
    var q := AfterSeparators(a);
    SkipsInto(a, c, b);
    WordsAre(a);
    WordsAre(a + [c] + b);
    if q == [] {
      WordsAre(b);
    } else {
      var w := Word(q);
      WordWithin(q, c, b);
      assert (q + [c] + b)[|w|..] == q[|w|..] + [c] + b;
      WordsSplit(q[|w|..], c, b);
    }
  }

  lemma WordsAre(p: Bytes)
    ensures var q := AfterSeparators(p); WordsOf(p) == if q == [] then [] else [Word(q)] + WordsOf(q[|Word(q)|..])
  {
  }

  lemma OneMore(c: int, b: Bytes)
    requires IsSeparator(c)
    ensures AfterSeparators([c] + b) == AfterSeparators(b) && WordsOf([c] + b) == WordsOf(b)
  {
    assert ([c] + b)[1..] == b;
  }

  lemma {:induction false} SkipsInto(a: Bytes, c: int, b: Bytes)
    requires IsSeparator(c)
    ensures var q := AfterSeparators(a); AfterSeparators(a + [c] + b) == if q == [] then AfterSeparators(b) else q + [c] + b
  {
    if a == [] {
      assert a + [c] + b == [c] + b;
      OneMore(c, b);
    } else if IsSeparator(a[0]) {
      assert (a + [c] + b)[1..] == a[1..] + [c] + b;
      SkipsInto(a[1..], c, b);
    }
  }

  lemma {:induction false} WordWithin(q: Bytes, c: int, b: Bytes)
    requires IsSeparator(c)
    ensures Word(q + [c] + b) == Word(q)
  {
    if q == [] {
      assert q + [c] + b == [c] + b;
    } else {
      assert (q + [c] + b)[1..] == q[1..] + [c] + b;
      WordWithin(q[1..], c, b);
    }
  }

  /** A word on its own. */
  lemma {:induction false} WordAlone(w: Bytes)
    requires forall i :: 0 <= i < |w| ==> !IsSeparator(w[i])
    ensures Word(w) == w && WordsOf(w) == if w == [] then [] else [w]
  {
    if w != [] { WordAlone(w[1..]); }
  }

  /** A word appended after a separator. */
  lemma WordsAppend(p: Bytes, w: Bytes)
    requires w != [] && p != [] && IsSeparator(p[|p| - 1]) && forall i :: 0 <= i < |w| ==> !IsSeparator(w[i])
    ensures WordsOf(p + w) == WordsOf(p) + [w]
  {
    hide WordsOf, Word;
    var n := |p| - 1;
    WordsAre([]);
    assert p[..n] + [p[n]] + w == p + w && p[..n] + [p[n]] + [] == p;
    WordsSplit(p[..n], p[n], w);
    WordsSplit(p[..n], p[n], []);
    WordAlone(w);
  }

  lemma WordsThenSeparator(p: Bytes, c: int)
    requires IsSeparator(c)
    ensures WordsOf(p + [c]) == WordsOf(p)
  {
    hide WordsOf;
    WordsAre([]);
    WordsSplit(p, c, []);
    assert p + [c] + [] == p + [c];
  }

  method SkipSeparators(path: Bytes, from: nat) returns (i: nat)
    requires from <= |path|
    ensures from <= i <= |path| && path[i..] == AfterSeparators(path[from..])
  {
    i := from;
    while i < |path| && IsSeparator(path[i])
      invariant from <= i <= |path| && AfterSeparators(path[i..]) == AfterSeparators(path[from..])
    {
      assert path[i..][1..] == path[i + 1..];
      i := i + 1;
    }
  }

  function Cut(w: Bytes, max: nat): Bytes {
    w[..Words.Min(|w|, max)]
  }

  lemma CutMore(w: Bytes, c: int, max: nat)
    ensures Cut(w + [c], max) == if |Cut(w, max)| < max then Cut(w, max) + [c] else Cut(w, max)
  {
  }

  /** The word at from has been read up to i. */
  ghost predicate WordRead(path: Bytes, from: nat, i: nat, max: nat, out: Bytes)
    requires from <= i <= |path|
  {
    Word(path[from..]) == path[from..i] + Word(path[i..]) && out == Cut(path[from..i], max)
  }

  lemma WordReadOn(path: Bytes, from: nat, i: nat, max: nat, out: Bytes)
    requires from <= i <= |path| && WordRead(path, from, i, max, out)
    ensures i < |path| && !IsSeparator(path[i]) ==> WordRead(path, from, i + 1, max, if |out| < max then out + [path[i]] else out)
    ensures i == |path| || IsSeparator(path[i]) ==> Word(path[from..]) == path[from..i] && out == Cut(path[from..i], max)
  {
    hide Word, Cut;
    WordNext(path, i);
    if i < |path| && !IsSeparator(path[i]) {
      assert path[from..i + 1] == path[from..i] + [path[i]];
      assert path[from..i] + ([path[i]] + Word(path[i + 1..])) == path[from..i + 1] + Word(path[i + 1..]);
      CutMore(path[from..i], path[i], max);
    }
  }

  lemma WordReadFirst(path: Bytes, from: nat, max: nat)
    requires from <= |path|
    ensures WordRead(path, from, from, max, [])
  {
    hide Word;
    assert path[from..from] == [] && [] + Word(path[from..]) == Word(path[from..]);
  }

  /** The word at from, of which at most max bytes are kept. */
  method ReadWord(path: Bytes, from: nat, max: nat) returns (i: nat, out: Bytes)
    requires from <= |path|
    ensures from <= i <= |path| && Word(path[from..]) == path[from..i] && out == Cut(path[from..i], max)
  {
    hide Cut, Word, WordRead;
    i, out := from, [];
    WordReadFirst(path, from, max);
    while i < |path| && !IsSeparator(path[i])
      invariant from <= i <= |path| && WordRead(path, from, i, max, out)
    {
      WordReadOn(path, from, i, max, out);
      if |out| + 1 < max + 1 { out := out + [path[i]]; }
      i := i + 1;
    }
    WordReadOn(path, from, i, max, out);
  }

  lemma WordNext(path: Bytes, i: nat)
    requires i <= |path|
    ensures Word(path[i..]) == if i == |path| || IsSeparator(path[i]) then [] else [path[i]] + Word(path[i + 1..])
  {
    if i < |path| { assert path[i..][1..] == path[i + 1..]; }
  }

  lemma CutWhole(w: Bytes, max: nat)
    ensures |w| <= max ==> Cut(w, max) == w
  {
  }

  function CutAll(ws: seq<Bytes>, max: nat): (r: seq<Bytes>)
    ensures |r| == |ws|
  {
    seq(|ws|, i requires 0 <= i < |ws| => Cut(ws[i], max))
  }

  lemma WordsBehind(p: Bytes)
    ensures WordsOf(AfterSeparators(p)) == WordsOf(p) && (p == [] ==> WordsOf(p) == [])
  {
  }

  lemma {:induction false} WordStops(p: Bytes)
    ensures |Word(p)| < |p| ==> IsSeparator(p[|Word(p)|])
  {
    if p != [] && !IsSeparator(p[0]) { WordStops(p[1..]); }
  }

  lemma WordsNext(q: Bytes)
    requires q != [] && !IsSeparator(q[0])
    ensures WordsOf(q) == [Word(q)] + WordsOf(q[|Word(q)|..])
  {
  }

  /** The word from at to end, when the next one starts at p. */
  lemma NextWord(full: Bytes, at: nat, end: nat, p: nat)
    requires at < |full| && !IsSeparator(full[at]) && at <= end <= p <= |full|
    requires Word(full[at..]) == full[at..end] && full[p..] == AfterSeparators(full[end..])
    ensures at < end && (end < p || p == |full|) && WordsOf(full[at..]) == [full[at..end]] + WordsOf(full[p..])
  {
    hide WordsOf, Word, AfterSeparators;
    WordNext(full, at);
    WordStops(full[at..]);
    WordsNext(full[at..]);
    assert |full[at..end]| == end - at && full[at..][end - at..] == full[end..];
    WordsBehind(full[end..]);
    if end < |full| { assert full[at..][end - at] == full[end] == full[end..][0]; }
  }

  lemma CutConcat(a: seq<Bytes>, b: seq<Bytes>, max: nat)
    ensures CutAll(a + b, max) == CutAll(a, max) + CutAll(b, max)
  {
  }
}
