/** The shell's resolution of a typed path to an absolute one without dots. */
module ShellPaths {
  import opened Syntax
  import opened PathWords

  const SPACE: int := 32
  const DOT: int := 46
  const COLON: int := 58

  const COMPONENT: nat := 79

  function DropLast(ws: seq<Bytes>): seq<Bytes> {
    if ws == [] then [] else ws[..|ws| - 1]
  }

  /** Components on a stack: one dot is skipped, two dots pop, and the root stays. */
  function Folded(stack: seq<Bytes>, ws: seq<Bytes>): seq<Bytes>
    decreases |ws|
  {
    if ws == [] then stack
    else if ws[0] == [DOT] then Folded(stack, ws[1..])
    else if ws[0] == [DOT, DOT] then Folded(DropLast(stack), ws[1..])
    else Folded(stack + [ws[0]], ws[1..])
  }

  /** One dot stays, two dots go up and stay at the root, and any other word goes down. */
  lemma FoldedSteps(stack: seq<Bytes>, w: Bytes, ws: seq<Bytes>)
    ensures Folded(stack, [[46]] + ws) == Folded(stack, ws)
    ensures Folded(stack + [w], [[46, 46]] + ws) == Folded(stack, ws) && Folded([], [[46, 46]] + ws) == Folded([], ws)
    ensures w != [46] && w != [46, 46] ==> Folded(stack, [w] + ws) == Folded(stack + [w], ws)
  {
    assert ([[46]] + ws)[1..] == ws && ([[46, 46]] + ws)[1..] == ws && ([w] + ws)[1..] == ws;
    assert (stack + [w])[..|stack|] == stack;
  }

  predicate Plain(ws: seq<Bytes>) {
    forall i :: 0 <= i < |ws| ==> ws[i] != [DOT] && ws[i] != [DOT, DOT] && |ws[i]| <= COMPONENT
  }

  lemma FoldedNone(stack: seq<Bytes>)
    ensures Folded(stack, []) == stack
  {
  }

  lemma {:induction false} FoldedPlain(stack: seq<Bytes>, ws: seq<Bytes>)
    requires Plain(stack) && forall i :: 0 <= i < |ws| ==> |ws[i]| <= COMPONENT
    ensures Plain(Folded(stack, ws))
    decreases |ws|
  {
    if ws != [] {
      if ws[0] == [DOT] { FoldedPlain(stack, ws[1..]); }
      else if ws[0] == [DOT, DOT] { FoldedPlain(DropLast(stack), ws[1..]); }
      else { FoldedPlain(stack + [ws[0]], ws[1..]); }
    }
  }

  lemma {:induction false} PlainFolds(stack: seq<Bytes>, ws: seq<Bytes>)
    requires Plain(ws)
    ensures Folded(stack, ws) == stack + ws && CutAll(ws, COMPONENT) == ws
    decreases |ws|
  {
    if ws == [] {
      assert stack + ws == stack;
    } else {
      PlainFolds(stack + [ws[0]], ws[1..]);
      assert stack + [ws[0]] + ws[1..] == stack + ws;
    }
    forall i | 0 <= i < |ws| ensures CutAll(ws, COMPONENT)[i] == ws[i] { }
  }

  function AfterSpaces(raw: Bytes): (r: Bytes)
    ensures r != [] ==> r[0] != SPACE
  {
    if raw != [] && raw[0] == SPACE then AfterSpaces(raw[1..]) else raw
  }

  /** A path with a drive as it is, a rooted one with the current drive, any other below the current path. */
  function Joined(raw: Bytes, current: Bytes): Bytes
    requires raw != [] && current != []
  {
    if |raw| > 1 && raw[1] == COLON then raw
    else if IsSeparator(raw[0]) then [current[0], COLON] + raw
    else if IsSeparator(current[|current| - 1]) then current + raw
    else current + [BACKSLASH] + raw
  }

  datatype Target = NoDrive | At(drive: int, components: seq<Bytes>)

  /** The drive and components a joined path stands for. */
  function TargetOf(full: Bytes): Target {
    if |full| < 2 || full[1] != COLON then NoDrive else At(full[0], Folded([], CutAll(WordsOf(full[2..]), COMPONENT)))
  }

  /** A path in normal form: drive, colon, backslashes only. */
  ghost predicate Normal(path: Bytes, drive: int, components: seq<Bytes>) {
    |path| >= 3 && path[..3] == [drive, COLON, BACKSLASH] && WordsOf(path[2..]) == components &&
    forall i :: 2 <= i < |path| ==> path[i] != 47
  }

  /** What a path stands for has no dots, and resolving it again changes nothing, wherever the shell is. */
  lemma NormalStays(full: Bytes, path: Bytes, current: Bytes)
    requires TargetOf(full).At? && Normal(path, TargetOf(full).drive, TargetOf(full).components) && current != []
    ensures Plain(TargetOf(full).components) && TargetOf(Joined(path, current)) == TargetOf(full)
  {
    var ws := TargetOf(full).components;
    FoldedPlain([], CutAll(WordsOf(full[2..]), COMPONENT));
    PlainFolds([], ws);
    assert [] + ws == ws;
    assert path[0] == path[..3][0] && path[1] == path[..3][1];
  }

  /** The path without the separators at its end, but for the root's. */
  method Trimmed(path: Bytes, ghost drive: int) returns (r: Bytes)
    requires |path| >= 3
    ensures 3 <= |r| <= |path| && r == path[..|r|] && (|r| > 3 ==> !IsSeparator(r[|r| - 1]))
    ensures Normal(path, drive, WordsOf(path[2..])) ==> Normal(r, drive, WordsOf(path[2..]))
  {
    hide WordsOf;
    r := path;
    while |r| > 3 && IsSeparator(r[|r| - 1])
      invariant 3 <= |r| <= |path| && r == path[..|r|] && WordsOf(r[2..]) == WordsOf(path[2..])
    {
      WordsThenSeparator(r[2..|r| - 1], r[|r| - 1]);
      assert r[2..|r| - 1] + [r[|r| - 1]] == r[2..] && r[2..|r| - 1] == r[..|r| - 1][2..];
      r := r[..|r| - 1];
    }
  }

  /** Bytes that the last component and its separator take. */
  function Behind(ws: seq<Bytes>): nat {
    if ws == [] then 0 else |ws[|ws| - 1]| + 1
  }

  /** Length of the path with a separator at its end. */
  function Closed(path: Bytes): nat {
    |path| + if path != [] && path[|path| - 1] == BACKSLASH then 0 else 1
  }

  /** The path one directory up. It may keep a separator at its end. */
  method Parent(path: Bytes, ghost drive: int) returns (r: Bytes)
    requires |path| >= 3
    ensures 3 <= |r| <= |path|
    ensures Normal(path, drive, WordsOf(path[2..])) ==>
              Normal(r, drive, DropLast(WordsOf(path[2..]))) && r[|r| - 1] == BACKSLASH &&
              |r| + Behind(WordsOf(path[2..])) <= Closed(path)
  {
    hide WordsOf, Normal;
    r := Trimmed(path, drive);
    ghost var trimmed := r;
    while |r| > 3 && !IsSeparator(r[|r| - 1])
      invariant 3 <= |r| <= |trimmed| && r == trimmed[..|r|]
      invariant forall i :: |r| <= i < |trimmed| ==> !IsSeparator(trimmed[i])
    {
      r := r[..|r| - 1];
    }
    if Normal(path, drive, WordsOf(path[2..])) { ParentDrops(trimmed, |r|, drive, WordsOf(path[2..])); }
  }

  /** Behind the last separator lies the last word. */
  lemma ParentDrops(path: Bytes, n: nat, drive: int, ws: seq<Bytes>)
    requires 3 <= n <= |path| && Normal(path, drive, ws) && (|path| > 3 ==> !IsSeparator(path[|path| - 1]))
    requires (n == 3 || IsSeparator(path[n - 1])) && forall i :: n <= i < |path| ==> !IsSeparator(path[i])
    ensures Normal(path[..n], drive, DropLast(ws)) && path[n - 1] == BACKSLASH
    ensures n + Behind(ws) <= |path| + if |path| > 3 then 1 else 0
  {
    hide WordsOf;
    var base, w := path[..n], path[n..];
    assert path[2] == path[..3][2];
    assert path[2..] == base[2..] + w && base[2..][|base[2..]| - 1] == path[n - 1];
    if w == [] {
      assert base == path && n == 3 && base[2..] == [] + [BACKSLASH];
      WordsThenSeparator([], BACKSLASH);
      WordsBehind([]);
    } else {
      assert path[|path| - 1] == w[|w| - 1];
      WordsAppend(base[2..], w);
      assert (WordsOf(base[2..]) + [w])[..|ws| - 1] == WordsOf(base[2..]);
    }
    assert base[..3] == path[..3];
  }

  /** Another component, behind a separator, as far as there is room. */
  method Append(path: Bytes, component: Bytes, cap: nat, ghost drive: int) returns (r: Bytes)
    requires |path| >= 3 && component != [] && forall i :: 0 <= i < |component| ==> !IsSeparator(component[i])
    ensures |r| >= 3
    ensures Normal(path, drive, WordsOf(path[2..])) && Closed(path) + |component| < cap ==>
              |r| == Closed(path) + |component| && r[|r| - 1] != BACKSLASH && Normal(r, drive, WordsOf(path[2..]) + [component])
  {
    hide WordsOf, Normal;
    r := path;
    if |r| > 3 && r[|r| - 1] != BACKSLASH { r := r + [BACKSLASH]; }
    ghost var base := r;
    var i := 0;
    assert component[..0] == [];
    while i < |component| && |r| + 1 < cap
      invariant i <= |component| && r == base + component[..i]
    {
      assert component[..i + 1] == component[..i] + [component[i]];
      r := r + [component[i]];
      i := i + 1;
    }
    if Normal(path, drive, WordsOf(path[2..])) && Closed(path) + |component| < cap {
      assert component[..i] == component && r == base + component by { NormalEnds(path, drive); }
      AppendAdds(path, base, component, drive);
    }
  }

  lemma NormalEnds(path: Bytes, drive: int)
    requires |path| >= 3 && Normal(path, drive, WordsOf(path[2..]))
    ensures |path| == 3 ==> path[2] == BACKSLASH
  {
    assert path[..3][2] == path[2];
  }

  lemma AppendAdds(path: Bytes, base: Bytes, component: Bytes, drive: int)
    requires |path| >= 3 && Normal(path, drive, WordsOf(path[2..]))
    requires component != [] && forall i :: 0 <= i < |component| ==> !IsSeparator(component[i])
    requires base == if |path| > 3 && path[|path| - 1] != BACKSLASH then path + [BACKSLASH] else path
    ensures var r := base + component;
            |r| == Closed(path) + |component| && r[|r| - 1] != BACKSLASH && Normal(r, drive, WordsOf(path[2..]) + [component])
  {
    hide WordsOf;
    NormalEnds(path, drive);
    if base != path {
      WordsThenSeparator(path[2..], BACKSLASH);
      assert base[2..] == path[2..] + [BACKSLASH];
    }
    var r := base + component;
    assert r[2..] == base[2..] + component && base[2..][|base| - 3] == base[|base| - 1];
    WordsAppend(base[2..], component);
    assert r[|r| - 1] == component[|component| - 1] && r[..3] == path[..3];
  }

  /** Folding in the word from at to end, when the next one starts at p. */
  lemma FoldNext(full: Bytes, at: nat, end: nat, p: nat, stack: seq<Bytes>)
    requires at < |full| && !IsSeparator(full[at]) && at <= end <= p <= |full|
    requires Word(full[at..]) == full[at..end] && full[p..] == AfterSeparators(full[end..])
    ensures var c := Cut(full[at..end], COMPONENT);
            at < end && (end < p || p == |full|) && c != [] && |c| <= end - at && (forall i :: 0 <= i < |c| ==> !IsSeparator(c[i])) &&
            Folded(stack, CutAll(WordsOf(full[at..]), COMPONENT)) ==
            Folded(if c == [DOT] then stack else if c == [DOT, DOT] then DropLast(stack) else stack + [c], CutAll(WordsOf(full[p..]), COMPONENT))
  {
    hide WordsOf, Word, AfterSeparators;
    var w, c := full[at..end], Cut(full[at..end], COMPONENT);
    NextWord(full, at, end, p);
    assert CutAll([w] + WordsOf(full[p..]), COMPONENT) == [c] + CutAll(WordsOf(full[p..]), COMPONENT);
    assert forall i :: 0 <= i < |c| ==> c[i] == w[i];
  }

  /** Length of the path of these components with a separator at its end. */
  function Length(ws: seq<Bytes>): (n: nat)
    ensures n >= 3
  {
    if ws == [] then 3 else Length(ws[..|ws| - 1]) + Behind(ws)
  }

  /** No component has to be cut to fit, one after the other onto the stack. */
  predicate Room(stack: seq<Bytes>, ws: seq<Bytes>, cap: nat)
    decreases |ws|
  {
    if ws == [] then true
    else if ws[0] == [DOT] then Room(stack, ws[1..], cap)
    else if ws[0] == [DOT, DOT] then Room(DropLast(stack), ws[1..], cap)
    else Length(stack) + |ws[0]| < cap && Room(stack + [ws[0]], ws[1..], cap)
  }

  function Total(ws: seq<Bytes>): nat {
    if ws == [] then 0 else |ws[0]| + 1 + Total(ws[1..])
  }

  /** There is room wherever the components alone fit. */
  lemma {:induction false} TotalRoom(stack: seq<Bytes>, ws: seq<Bytes>, cap: nat)
    requires ws != [] ==> Length(stack) + Total(ws) <= cap
    ensures Room(stack, ws, cap)
    decreases |ws|
  {
    hide Length;
    if ws != [] {
      LengthSteps(stack, ws[0]);
      if ws[0] == [DOT] { TotalRoom(stack, ws[1..], cap); }
      else if ws[0] == [DOT, DOT] { TotalRoom(DropLast(stack), ws[1..], cap); }
      else { TotalRoom(stack + [ws[0]], ws[1..], cap); }
    }
  }

  lemma LengthSteps(stack: seq<Bytes>, w: Bytes)
    ensures Length(DropLast(stack)) <= Length(stack) && Length(stack + [w]) == Length(stack) + |w| + 1
    ensures Length(DropLast(stack)) + Behind(stack) == Length(stack)
  {
    assert (stack + [w])[..|stack|] == stack;
  }

  lemma {:induction false} WordsTotal(p: Bytes)
    ensures Total(CutAll(WordsOf(p), COMPONENT)) <= |p| + if p != [] && IsSeparator(p[0]) then 0 else 1
    decreases |p|
  {
    hide Word, AfterSeparators, WordsOf;
    var q := AfterSeparators(p);
    WordsAre(p);
    if q == [] {
      assert CutAll([], COMPONENT) == [];
    } else {
      var w := Word(q);
      var rest := q[|w|..];
      WordStops(q);
      WordsTotal(rest);
      CutConcat([w], WordsOf(rest), COMPONENT);
      assert CutAll([w] + WordsOf(rest), COMPONENT)[1..] == CutAll(WordsOf(rest), COMPONENT);
      SkipsFirst(p);
    }
  }

  lemma SkipsFirst(p: Bytes)
    ensures p != [] && IsSeparator(p[0]) ==> |AfterSeparators(p)| < |p|
  {
  }

  /** A joined path without a separator behind the drive gets one. */
  predicate Fits(full: Bytes, cap: nat) {
    |full| + (if |full| > 2 && IsSeparator(full[2]) then 1 else 2) <= cap
  }

  /** So every path that fits has room: a rooted one of up to cap - 1 bytes, any other of up to cap - 2. */
  lemma FitsRoom(full: Bytes, cap: nat)
    requires |full| >= 2 && Fits(full, cap)
    ensures Room([], CutAll(WordsOf(full[2..]), COMPONENT), cap)
  {
    hide WordsOf;
    WordsTotal(full[2..]);
    TotalRoom([], CutAll(WordsOf(full[2..]), COMPONENT), cap);
  }

  /** The components one by one, on a path that stays in normal form as long as all of it fits. */
  method Normalize(full: Bytes, cap: nat) returns (r: Option<Bytes>)
    requires 4 <= cap <= 260
    ensures r.None? == TargetOf(full).NoDrive?
    ensures r.Some? ==> |r.value| < cap
    ensures r.Some? && Room([], CutAll(WordsOf(full[2..]), COMPONENT), cap) ==>
              Normal(r.value, TargetOf(full).drive, TargetOf(full).components)
  {
    hide WordsOf, Folded, Cut, Word, AfterSeparators, Normal, DropLast, Room, Length, Behind, Closed;
    if |full| < 2 || full[1] != COLON { return None; }
    var path := [full[0], COLON, BACKSLASH];
    RootNormal(full[0]);
    var p := SkipSeparators(full, 2);
    WordsBehind(full[2..]);
    ghost var room := Room([], CutAll(WordsOf(full[2..]), COMPONENT), cap);
    while p < |full|
      invariant 2 <= p <= |full| && |path| >= 3 && (p < |full| ==> !IsSeparator(full[p]))
      invariant room ==> Reached(full, p, path, cap)
      decreases |full| - p
    {
      ghost var before, at := path, p;
      var component: Bytes;
      p, component := ReadWord(full, p, COMPONENT);
      ghost var end := p;
      p := SkipSeparators(full, p);
      FoldNext(full, at, end, p, WordsOf(path[2..]));
      RoomNext(full, at, end, p, WordsOf(path[2..]), cap);
      LengthSteps(WordsOf(path[2..]), component);
      if component == [] || component == [DOT] { continue; }
      if component == [DOT, DOT] {
        path := Parent(path, full[0]);
      } else {
        path := Append(path, component, cap, full[0]);
      }
      if room {
        NormalWords(before, path, full[0], component);
        ClosedIs(path);
      }
    }
    WordsBehind(full[p..]);
    assert CutAll([], COMPONENT) == [];
    FoldedNone(WordsOf(path[2..]));
    CutWhole(path, cap - 1);
    CutShort(path, cap - 1);
    r := Some(Cut(path, cap - 1));
  }

  lemma CutShort(w: Bytes, max: nat)
    ensures |Cut(w, max)| <= max
  {
  }

  lemma ClosedIs(path: Bytes)
    requires path != []
    ensures Closed(path) == |path| + if path[|path| - 1] == BACKSLASH then 0 else 1
  {
  }

  lemma RoomNext(full: Bytes, at: nat, end: nat, p: nat, stack: seq<Bytes>, cap: nat)
    requires at < |full| && !IsSeparator(full[at]) && at <= end <= p <= |full|
    requires Word(full[at..]) == full[at..end] && full[p..] == AfterSeparators(full[end..])
    ensures var c, rest := Cut(full[at..end], COMPONENT), CutAll(WordsOf(full[p..]), COMPONENT);
            Room(stack, CutAll(WordsOf(full[at..]), COMPONENT), cap) <==>
            if c == [DOT] then Room(stack, rest, cap) else if c == [DOT, DOT] then Room(DropLast(stack), rest, cap)
            else Length(stack) + |c| < cap && Room(stack + [c], rest, cap)
  {
    hide WordsOf, Word, AfterSeparators, Length;
    var w := full[at..end];
    NextWord(full, at, end, p);
    CutConcat([w], WordsOf(full[p..]), COMPONENT);
    var all := CutAll([w] + WordsOf(full[p..]), COMPONENT);
    assert all[0] == Cut(w, COMPONENT) && all[1..] == CutAll(WordsOf(full[p..]), COMPONENT);
  }

  lemma NormalWords(before: Bytes, path: Bytes, drive: int, component: Bytes)
    requires |before| >= 3 && |path| >= 3
    ensures Normal(path, drive, DropLast(WordsOf(before[2..]))) ==> WordsOf(path[2..]) == DropLast(WordsOf(before[2..]))
    ensures Normal(path, drive, WordsOf(before[2..]) + [component]) ==> WordsOf(path[2..]) == WordsOf(before[2..]) + [component]
  {
  }

  lemma RootNormal(drive: int)
    ensures var root := [drive, COLON, BACKSLASH]; WordsOf(root[2..]) == [] && Normal(root, drive, []) && Closed(root) == 3
  {
    hide WordsOf;
    assert [drive, COLON, BACKSLASH][2..] == [] + [BACKSLASH];
    WordsThenSeparator([], BACKSLASH);
    WordsBehind([]);
  }

  /** The path stands for everything before p, fits, and leaves room for the rest. */
  ghost predicate Reached(full: Bytes, p: nat, path: Bytes, cap: nat)
    requires 2 <= p <= |full| && |path| >= 3 && full[1] == COLON
  {
    Normal(path, full[0], WordsOf(path[2..])) &&
    TargetOf(full).components == Folded(WordsOf(path[2..]), CutAll(WordsOf(full[p..]), COMPONENT)) &&
    Room(WordsOf(path[2..]), CutAll(WordsOf(full[p..]), COMPONENT), cap) &&
    |path| < cap && Closed(path) <= Length(WordsOf(path[2..]))
  }

  /** Blanks in front are skipped, and only those. */
  lemma {:induction false} SpacesSkipped(n: nat, t: Bytes)
    requires t == [] || t[0] != 32
    ensures AfterSpaces(seq(n, _ => 32) + t) == t
  {
    if n == 0 {
      assert seq(n, _ => 32) + t == t;
    } else {
      SpacesSkipped(n - 1, t);
      assert (seq(n, _ => 32) + t)[1..] == seq(n - 1, _ => 32) + t;
    }
  }

  // ----- what a typed path stands for -----

  /** It names a drive itself; it starts at the root; or it is relative to the current path. */
  predicate OwnDrive(t: Bytes) {
    |t| > 1 && t[1] == 58
  }

  predicate Rooted(t: Bytes) {
    !OwnDrive(t) && t != [] && (t[0] == 92 || t[0] == 47)
  }

  predicate Relative(t: Bytes) {
    !OwnDrive(t) && t != [] && t[0] != 92 && t[0] != 47
  }

  /** The words of a typed path, each cut to 79 bytes. */
  function Typed(t: Bytes): seq<Bytes> {
    CutAll(WordsOf(t), 79)
  }

  /**
   * From a current path in normal form on drive d with components ws: a path with its own drive stands for that drive and
   * its own words, a rooted one for d and its own words, and a relative one for d and its words folded onto ws.
   */
  lemma JoinedMeans(t: Bytes, current: Bytes, d: int, ws: seq<Bytes>)
    requires t != [] && Normal(current, d, ws) && Plain(ws)
    ensures OwnDrive(t) ==> TargetOf(Joined(t, current)) == At(t[0], Folded([], Typed(t[2..]))) && |Joined(t, current)| == |t|
    ensures Rooted(t) ==> TargetOf(Joined(t, current)) == At(d, Folded([], Typed(t))) && |Joined(t, current)| == |t| + 2
    ensures Relative(t) ==> TargetOf(Joined(t, current)) == At(d, Folded(ws, Typed(t))) && |Joined(t, current)| <= |current| + 1 + |t|
    ensures Relative(t) ==> IsSeparator(Joined(t, current)[2])
  {
    hide WordsOf, Folded;
    assert current[0] == current[..3][0] && current[1] == current[..3][1] && current[2] == current[..3][2];
    if Rooted(t) {
      assert ([current[0], COLON] + t)[2..] == t;
    } else if Relative(t) {
      RelativeWords(t, current, ws);
      PlainOnto(ws, Typed(t));
    }
  }

  lemma RelativeWords(t: Bytes, current: Bytes, ws: seq<Bytes>)
    requires t != [] && |current| >= 3 && IsSeparator(current[2]) && WordsOf(current[2..]) == ws && Plain(ws)
    requires |t| > 1 ==> t[1] != COLON
    requires !IsSeparator(t[0])
    ensures CutAll(WordsOf(Joined(t, current)[2..]), COMPONENT) == ws + Typed(t)
  {
    hide WordsOf;
    var p, n := current[2..], |current| - 1;
    if IsSeparator(current[n]) {
      var front := p[..|p| - 1];
      assert p == front + [current[n]];
      WordsThenSeparator(front, current[n]);
      WordsSplit(front, current[n], t);
      assert Joined(t, current)[2..] == front + [current[n]] + t;
    } else {
      WordsSplit(p, BACKSLASH, t);
      assert Joined(t, current)[2..] == p + [BACKSLASH] + t;
    }
    CutConcat(ws, WordsOf(t), COMPONENT);
    PlainFolds([], ws);
  }

  /** Words onto words without dots. */
  lemma {:induction false} PlainOnto(ws: seq<Bytes>, more: seq<Bytes>)
    requires Plain(ws)
    ensures Folded([], ws + more) == Folded(ws, more)
  {
    OntoStack([], ws, more);
    assert [] + ws == ws;
  }

  lemma {:induction false} OntoStack(stack: seq<Bytes>, ws: seq<Bytes>, more: seq<Bytes>)
    requires Plain(ws)
    ensures Folded(stack, ws + more) == Folded(stack + ws, more)
    decreases |ws|
  {
    if ws == [] {
      assert ws + more == more && stack + ws == stack;
    } else {
      assert (ws + more)[1..] == ws[1..] + more && stack + [ws[0]] + ws[1..] == stack + ws;
      OntoStack(stack + [ws[0]], ws[1..], more);
    }
  }

  method SkipSpaces(raw: Bytes) returns (r: Bytes)
    ensures r == AfterSpaces(raw)
  {
    var i := 0;
    while i < |raw| && raw[i] == SPACE
      invariant i <= |raw| && AfterSpaces(raw) == AfterSpaces(raw[i..])
    {
      assert raw[i..][1..] == raw[i + 1..];
      i := i + 1;
    }
    r := raw[i..];
  }

  /** The result r is the path of the drive and components in normal form, and fits. */
  ghost predicate Stands(r: Option<Bytes>, cap: nat, drive: int, components: seq<Bytes>) {
    r.Some? && |r.value| < cap && Normal(r.value, drive, components)
  }

  /**
   * A typed path made absolute, from a current path in normal form: with its own drive it stands for that drive and its
   * own words, rooted for the current drive and its own words, relative for its words folded onto the current components;
   * blanks stand for the current path as it is.
   */
  method Resolve(typed: Bytes, current: Bytes, cap: nat) returns (r: Option<Bytes>)
    requires current != [] && cap <= 260
    ensures cap < 4 ==> r == None
    ensures cap >= 4 && AfterSpaces(typed) == [] ==> r == Some(Cut(current, cap - 1))
    ensures cap >= 4 && AfterSpaces(typed) != [] && Fits(Joined(AfterSpaces(typed), current), cap) ==>
              var t := TargetOf(Joined(AfterSpaces(typed), current));
              r.None? == t.NoDrive? && (r.Some? ==> |r.value| < cap && Normal(r.value, t.drive, t.components))
    ensures var t := AfterSpaces(typed);
            forall d, ws :: cap >= 4 && t != [] && Normal(current, d, ws) && Plain(ws) ==>
              (OwnDrive(t) && |t| + 2 <= cap ==> Stands(r, cap, t[0], Folded([], Typed(t[2..])))) &&
              (Rooted(t) && |t| + 3 <= cap ==> Stands(r, cap, d, Folded([], Typed(t)))) &&
              (Relative(t) && |current| + |t| + 2 <= cap ==> Stands(r, cap, d, Folded(ws, Typed(t))))
  {
    hide AfterSpaces, TargetOf, Normal;
    if cap < 4 { return None; }
    var raw := SkipSpaces(typed);
    if raw == [] { return Some(Cut(current, cap - 1)); }
    var full;
    if |raw| > 1 && raw[1] == COLON {
      full := Cut(raw, cap - 1);
    } else if IsSeparator(raw[0]) {
      full := Cut([current[0], COLON] + raw, cap - 1);
    } else {
      full := Cut(current, cap - 1);
      if !IsSeparator(full[|full| - 1]) {
        if |full| + 1 >= cap { return None; }
        full := full + [BACKSLASH];
      }
      full := Cut(full + raw, cap - 1);
    }
    CutWhole(Joined(raw, current), cap - 1);
    CutWhole(current, cap - 1);
    assert Fits(Joined(raw, current), cap) ==> full == Joined(raw, current);
    if |full| >= 2 && Fits(full, cap) { FitsRoom(full, cap); }
    r := Normalize(full, cap);
    forall d, ws | Normal(current, d, ws) && Plain(ws)
      ensures OwnDrive(raw) && |raw| + 2 <= cap ==> Stands(r, cap, raw[0], Folded([], Typed(raw[2..])))
      ensures Rooted(raw) && |raw| + 3 <= cap ==> Stands(r, cap, d, Folded([], Typed(raw)))
      ensures Relative(raw) && |current| + |raw| + 2 <= cap ==> Stands(r, cap, d, Folded(ws, Typed(raw)))
    {
      JoinedMeans(raw, current, d, ws);
    }
  }
}
