/**
 * Consumer queues with a phase bit: the event ring of the USB driver (xHCI specification, section 4.9.4) and the NVMe
 * completion queues (NVMe 1.4, section 4.6). The device posts entries, payload first and phase bit last; the driver
 * takes an entry when its phase bit is the expected one, and turns the expectation at every wrap.
 */
module PhaseQueue {
  import Words

  /** An entry as it lies in memory. */
  datatype Entry<P> = Entry(payload: P, phase: bool)

  /** posting: a payload is stored whose phase bit is still the old one. */
  datatype Queue<P> = Queue(mem: seq<Entry<P>>, head: nat, phase: bool, tail: nat, lap: bool, posting: bool, posted: seq<P>, taken: seq<P>)

  /** Cleared memory, and phase 1 expected first. */
  function Cleared<P>(depth: nat, blank: P): Queue<P> {
    Queue(seq(depth, _ => Entry(blank, false)), 0, true, 0, true, false, [], [])
  }

  datatype Event<P> = StorePayload(p: P) | StorePhase | Poll

  predicate WellFormed<P>(q: Queue<P>) {
    q.head < |q.mem| && q.tail < |q.mem|
  }

  predicate Ready<P>(q: Queue<P>)
    requires WellFormed(q)
  {
    q.mem[q.head].phase == q.phase
  }

  function NextIndex(i: nat, depth: nat): (j: nat)
    requires i < depth
    ensures j < depth
  {
    if i + 1 == depth then 0 else i + 1
  }

  /** Where a driver stands: the index of the next entry and the phase bit expected there. */
  datatype Place = Place(index: nat, phase: bool)

  function Onwards(p: Place, depth: nat): (r: Place)
    requires p.index < depth
    ensures r.index < depth
  {
    var next := NextIndex(p.index, depth);
    Place(next, if next == 0 then !p.phase else p.phase)
  }

  /** Taking the entry at the head. */
  function Take<P>(q: Queue<P>): (r: Queue<P>)
    requires WellFormed(q)
    ensures WellFormed(r)
  {
    var next := Onwards(Place(q.head, q.phase), |q.mem|);
    q.(head := next.index, phase := next.phase, taken := q.taken + [q.mem[q.head].payload])
  }

  /** A device never has more than depth entries outstanding. */
  ghost predicate Next<P(!new)>(q: Queue<P>, e: Event<P>, r: Queue<P>) {
    WellFormed(q) &&
    match e
    case StorePayload(p) =>
      |q.posted| < |q.taken| + |q.mem| &&
      r == q.(mem := q.mem[q.tail := Entry(p, q.mem[q.tail].phase)], posting := true)
    case StorePhase =>
      q.posting &&
      var next := NextIndex(q.tail, |q.mem|);
      r == q.(mem := q.mem[q.tail := Entry(q.mem[q.tail].payload, q.lap)], tail := next,
              lap := if next == 0 then !q.lap else q.lap, posting := false, posted := q.posted + [q.mem[q.tail].payload])
    case Poll => r == if Ready(q) then Take(q) else q
  }

  // ----- positions -----

  function Slot(k: nat, depth: nat): (i: nat)
    requires depth > 0
    ensures i < depth
  {
    if k == 0 then 0 else NextIndex(Slot(k - 1, depth), depth)
  }

  /** The phase bit of the k-th entry: 1 on the first lap, and the other on each next lap. */
  predicate PhaseOf(k: nat, depth: nat)
    requires depth > 0
  {
    if k == 0 then true else if Slot(k, depth) == 0 then !PhaseOf(k - 1, depth) else PhaseOf(k - 1, depth)
  }

  /** Where a driver stands after k entries. */
  function PlaceAt(k: nat, depth: nat): (p: Place)
    requires depth > 0
    ensures p.index < depth
  {
    Place(Slot(k, depth), PhaseOf(k, depth))
  }

  /** In numbers: index k mod depth, phase 1 on even laps k div depth. */
  lemma {:induction false} PositionIs(k: nat, depth: nat)
    requires depth > 0
    ensures Slot(k, depth) == k % depth && PhaseOf(k, depth) == (k / depth % 2 == 0)
    decreases k
  {
    if k == 0 {
      Words.DivModUnique(0, depth, 0, 0);
    } else {
      PositionIs(k - 1, depth);
      var q, i := (k - 1) / depth, (k - 1) % depth;
      assert k - 1 == q * depth + i;
      if i + 1 == depth {
        assert k == (q + 1) * depth + 0 by { Distribute(q, depth); }
        Words.DivModUnique(k, depth, q + 1, 0);
      } else {
        Words.DivModUnique(k, depth, q, i + 1);
      }
    }
  }

  lemma Distribute(q: nat, depth: nat)
    ensures (q + 1) * depth == q * depth + depth
  {
  }

  /** A lap later the slot is the same and the phase bit the other one. */
  lemma {:induction false} LapLater(k: nat, depth: nat)
    requires depth > 0
    ensures Slot(k + depth, depth) == Slot(k, depth) && PhaseOf(k + depth, depth) == !PhaseOf(k, depth)
    decreases k
  {
    if k == 0 { FirstLap(depth, depth); } else { LapLater(k - 1, depth); }
  }

  lemma {:induction false} FirstLap(k: nat, depth: nat)
    requires depth > 0 && k <= depth
    ensures Slot(k, depth) == (if k == depth then 0 else k) && PhaseOf(k, depth) == (k < depth)
    decreases k
  {
    if k > 0 { FirstLap(k - 1, depth); }
  }

  /** Different positions less than a lap apart use different slots. */
  lemma {:induction false} SlotsApart(k: nat, n: nat, depth: nat)
    requires depth > 0 && k < n < k + depth
    ensures Slot(k, depth) != Slot(n, depth)
    decreases k
  {
    if k == 0 { FirstLap(n, depth); } else { SlotsApart(k - 1, n - 1, depth); }
  }

  // ----- the invariant -----

  ghost predicate Inv<P(!new)>(q: Queue<P>, depth: nat) {
    var n, c := |q.posted|, |q.taken|;
    depth > 0 && |q.mem| == depth && c <= n <= c + depth && q.taken == q.posted[..c] && (q.posting ==> n < c + depth) &&
    q.head == Slot(c, depth) && q.phase == PhaseOf(c, depth) && q.tail == Slot(n, depth) && q.lap == PhaseOf(n, depth) &&
    (forall k :: c <= k < n ==> q.mem[Slot(k, depth)] == Entry(q.posted[k], PhaseOf(k, depth))) &&
    (forall k :: n <= k < c + depth ==> q.mem[Slot(k, depth)].phase != PhaseOf(k, depth))
  }

  lemma ClearedInv<P(!new)>(depth: nat, blank: P)
    requires depth > 0
    ensures Inv(Cleared(depth, blank), depth)
  {
    forall k: nat | k < depth ensures PhaseOf(k, depth) { FirstLap(k, depth); }
  }

  lemma PayloadInv<P(!new)>(q: Queue<P>, p: P, r: Queue<P>, depth: nat)
    requires Inv(q, depth) && Next(q, StorePayload(p), r)
    ensures Inv(r, depth)
  {
    hide Slot, PhaseOf;
    var n, c := |q.posted|, |q.taken|;
    forall k | c <= k < n ensures r.mem[Slot(k, depth)] == Entry(q.posted[k], PhaseOf(k, depth)) { SlotsApart(k, n, depth); }
  }

  lemma PhaseInv<P(!new)>(q: Queue<P>, r: Queue<P>, depth: nat)
    requires Inv(q, depth) && Next(q, StorePhase, r)
    ensures Inv(r, depth)
  {
    hide Slot, PhaseOf;
    var n, c := |q.posted|, |q.taken|;
    Onward(n, depth);
    forall k | c <= k < n ensures r.mem[Slot(k, depth)] == Entry(q.posted[k], PhaseOf(k, depth)) { SlotsApart(k, n, depth); }
    forall k | n + 1 <= k < c + depth ensures r.mem[Slot(k, depth)].phase != PhaseOf(k, depth) { SlotsApart(n, k, depth); }
  }

  lemma Onward(k: nat, depth: nat)
    requires depth > 0
    ensures Slot(k + 1, depth) == NextIndex(Slot(k, depth), depth)
    ensures PhaseOf(k + 1, depth) == if Slot(k + 1, depth) == 0 then !PhaseOf(k, depth) else PhaseOf(k, depth)
    ensures PlaceAt(k + 1, depth) == Onwards(PlaceAt(k, depth), depth)
  {
  }

  lemma PollInv<P(!new)>(q: Queue<P>, r: Queue<P>, depth: nat)
    requires Inv(q, depth) && Next(q, Poll, r)
    ensures Inv(r, depth)
    ensures Ready(q) <==> |q.taken| < |q.posted|
    ensures r.taken == if |q.taken| < |q.posted| then q.taken + [q.posted[|q.taken|]] else q.taken
  {
    hide Slot, PhaseOf;
    var n, c := |q.posted|, |q.taken|;
    Onward(c, depth);
    LapLater(c, depth);
    if c == n {
      assert q.mem[Slot(c, depth)].phase != PhaseOf(c, depth);
    } else {
      assert q.mem[Slot(c, depth)] == Entry(q.posted[c], PhaseOf(c, depth));
      assert q.posted[..c] + [q.posted[c]] == q.posted[..c + 1];
    }
  }

  // ----- every run -----

  ghost predicate IsRun<P(!new)>(depth: nat, blank: P, es: seq<Event<P>>, qs: seq<Queue<P>>) {
    |qs| == |es| + 1 && qs[0] == Cleared(depth, blank) && forall i :: 0 <= i < |es| ==> Next(qs[i], es[i], qs[i + 1])
  }

  lemma {:induction false} RunInv<P(!new)>(depth: nat, blank: P, es: seq<Event<P>>, qs: seq<Queue<P>>, i: nat)
    requires depth > 0 && IsRun(depth, blank, es, qs) && i < |qs|
    ensures Inv(qs[i], depth)
    decreases i
  {
    hide Inv, Next, Cleared;
    if i == 0 {
      ClearedInv(depth, blank);
    } else {
      RunInv(depth, blank, es, qs, i - 1);
      assert Next(qs[i - 1], es[i - 1], qs[i]);
      match es[i - 1]
      case StorePayload(p) => PayloadInv(qs[i - 1], p, qs[i], depth);
      case StorePhase => PhaseInv(qs[i - 1], qs[i], depth);
      case Poll => PollInv(qs[i - 1], qs[i], depth);
    }
  }

  /**
   * Every entry once and in order: what was taken is a prefix of what was posted; after n entries the index is n modulo
   * the depth and the expected phase has turned once per lap; a poll takes an entry exactly when one is waiting.
   */
  lemma QueueDelivers<P(!new)>(depth: nat, blank: P, es: seq<Event<P>>, qs: seq<Queue<P>>, i: nat)
    requires depth > 0 && IsRun(depth, blank, es, qs) && i < |qs|
    ensures var q := qs[i];
            q.taken <= q.posted && q.head == |q.taken| % depth && q.phase == (|q.taken| / depth % 2 == 0) &&
            WellFormed(q) && (Ready(q) <==> |q.taken| < |q.posted|)
  {
    hide Slot, PhaseOf;
    RunInv(depth, blank, es, qs, i);
    PositionIs(|qs[i].taken|, depth);
    PollInv(qs[i], if Ready(qs[i]) then Take(qs[i]) else qs[i], depth);
  }

  // ----- what the driver sees -----

  predicate ShowsNew<P>(mem: seq<Entry<P>>, p: Place) {
    p.index < |mem| && mem[p.index].phase == p.phase
  }

  /** The entries a driver takes from place p on when its looks show views[0], views[1], ... in turn. */
  function TakenFrom<P>(views: seq<seq<Entry<P>>>, p: Place, depth: nat): seq<P>
    requires p.index < depth
    decreases |views|
  {
    if views == [] then []
    else if ShowsNew(views[0], p) then [views[0][p.index].payload] + TakenFrom(views[1..], Onwards(p, depth), depth)
    else TakenFrom(views[1..], p, depth)
  }

  /** What the memory holds at each poll of a run. */
  function PollViews<P>(es: seq<Event<P>>, qs: seq<Queue<P>>): seq<seq<Entry<P>>>
    requires |qs| == |es| + 1
  {
    if es == [] then [] else (if es[0].Poll? then [qs[0].mem] else []) + PollViews(es[1..], qs[1..])
  }

  /** Whatever the device stores between the polls, the looks at those memories take what the run takes. */
  lemma {:induction false} LooksTake<P(!new)>(depth: nat, es: seq<Event<P>>, qs: seq<Queue<P>>)
    requires |qs| == |es| + 1 && (forall i :: 0 <= i < |es| ==> Next(qs[i], es[i], qs[i + 1]))
    requires |qs[0].mem| == depth && WellFormed(qs[0])
    ensures qs[|es|].taken == qs[0].taken + TakenFrom(PollViews(es, qs), Place(qs[0].head, qs[0].phase), depth)
    decreases |es|
  {
    hide Next, TakenFrom;
    if es == [] {
      assert PollViews(es, qs) == [];
      NoLooks<P>(Place(qs[0].head, qs[0].phase), depth);
    } else {
      assert Next(qs[0], es[0], qs[1]);
      OneEvent(depth, qs[0], es[0], qs[1], PollViews(es[1..], qs[1..]));
      forall i | 0 <= i < |es[1..]| ensures Next(qs[1..][i], es[1..][i], qs[1..][i + 1]) {
        assert Next(qs[i + 1], es[i + 1], qs[i + 2]);
      }
      LooksTake(depth, es[1..], qs[1..]);
      assert qs[1..][|es| - 1] == qs[|es|];
    }
  }

  lemma NoLooks<P>(p: Place, depth: nat)
    requires p.index < depth
    ensures TakenFrom<P>([], p, depth) == []
  {
  }

  /** One step of a run: a poll that finds an entry takes it, and nothing else takes any. */
  lemma OneEvent<P(!new)>(depth: nat, q: Queue<P>, e: Event<P>, r: Queue<P>, rest: seq<seq<Entry<P>>>)
    requires |q.mem| == depth && Next(q, e, r)
    ensures |r.mem| == depth && WellFormed(q) && WellFormed(r)
    ensures r.taken + TakenFrom(rest, Place(r.head, r.phase), depth) ==
            q.taken + TakenFrom((if e.Poll? then [q.mem] else []) + rest, Place(q.head, q.phase), depth)
  {
    if e.Poll? {
      assert ([q.mem] + rest)[1..] == rest;
    } else {
      assert [] + rest == rest;
    }
  }

  /** From reset: the looks of any run take a prefix of what the device posted, each entry once and whole. */
  lemma {:induction false} LooksTakePosted<P(!new)>(depth: nat, blank: P, es: seq<Event<P>>, qs: seq<Queue<P>>)
    requires depth > 0 && IsRun(depth, blank, es, qs)
    ensures TakenFrom(PollViews(es, qs), Place(0, true), depth) == qs[|es|].taken <= qs[|es|].posted
  {
    hide Next, TakenFrom, PollViews;
    QueueDelivers(depth, blank, es, qs, |es|);
    LooksTake(depth, es, qs);
  }
}
