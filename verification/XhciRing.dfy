/**
 * The producer rings that the USB driver fills with its enqueue functions for commands and control transfers (xHCI
 * specification, sections 4.9.2 and 4.9.3): 63 slots and a Link TRB, filled one store at a time with the control word
 * last, while the controller follows the cycle bit. The two bulk functions clear the slot first; the last section says
 * exactly when that breaks the order.
 */
module XhciRing {
  const MAX_TRBS: nat := 64
  const LINK: nat := 63          // slot of the Link TRB, and number of usable slots
  const LINK_TYPE: int := 6

  datatype Trb = Trb(lo: int, hi: int, status: int, control: int)

  const Zero := Trb(0, 0, 0, 0)

  predicate CycleBit(control: int) {
    control % 2 == 1
  }

  function WithCycle(control: int, cycle: bool): (c: int)
    ensures CycleBit(c) == cycle && c / 2 == control / 2 && IsLink(c) == IsLink(control)
  {
    control - control % 2 + if cycle then 1 else 0
  }

  predicate Toggles(control: int) {
    control / 2 % 2 == 1
  }

  predicate IsLink(control: int) {
    control / 1024 % 64 == LINK_TYPE
  }

  /** Type 6, toggle, and the cycle bit the driver has just finished with. */
  function LinkControl(cycle: bool): (c: int)
    ensures IsLink(c) && CycleBit(c) == cycle && Toggles(c)
  {
    LINK_TYPE * 1024 + 2 + if cycle then 1 else 0
  }

  /** The bits of a control word: cycle 0, toggle 1, type 10 to 15; the Link TRB is type 6 with toggle. */
  lemma ControlBits(control: int, high: int, kind: int, middle: int, toggle: int, cycle: int)
    requires control == 65536 * high + 1024 * kind + 4 * middle + 2 * toggle + cycle
    requires 0 <= kind < 64 && 0 <= middle < 256 && 0 <= toggle < 2 && 0 <= cycle < 2
    ensures CycleBit(control) == (cycle == 1) && Toggles(control) == (toggle == 1) && IsLink(control) == (kind == 6)
    ensures LinkControl(false) == 6 * 1024 + 2 && LinkControl(true) == 6 * 1024 + 3
  {
    assert control / 1024 == 64 * high + kind && control / 2 == 32768 * high + 512 * kind + 2 * middle + toggle;
  }

  // ----- the two parties, store by store and read by read -----

  /** What the driver does next: nothing, the k-th store of a TRB, or the k-th store of the Link TRB. */
  datatype Driver = Idle | Body(trb: Trb, k: nat) | Link(k: nat)

  /** The controller looks at the cycle bit of its slot, then reads the other fields one by one. */
  datatype Controller = Looking | Reading(k: nat, part: Trb)

  /** base is the ring's address as the Link TRB holds it; sent and got are what was enqueued and what was read, for the record. */
  datatype Ring = Ring(base: (int, int), mem: seq<Trb>, enqueue: nat, cycle: bool, driver: Driver,
                       dequeue: nat, ccs: bool, controller: Controller, sent: seq<Trb>, got: seq<Trb>)

  /** Reset ring: empty slots, a Link TRB that already carries cycle 1, and both cycle states 1. */
  function Fresh(base: (int, int)): Ring {
    Ring(base, seq(63, _ => Trb(0, 0, 0, 0)) + [Trb(base.0, base.1, 0, LinkControl(true))], 0, true, Idle, 0, true, Looking, [], [])
  }

  function SetField(t: Trb, k: nat, v: Trb): Trb {
    match k case 0 => t.(lo := v.lo) case 1 => t.(hi := v.hi) case 2 => t.(status := v.status) case _ => t.(control := v.control)
  }

  predicate WellFormed(s: Ring) {
    |s.mem| == MAX_TRBS && s.enqueue <= LINK && s.dequeue <= LINK && (!s.driver.Link? ==> s.enqueue < LINK)
  }

  /** The TRB as it stands in the ring: its cycle bit is the driver's. */
  function Stamped(t: Trb, cycle: bool): Trb {
    t.(control := WithCycle(t.control, cycle))
  }

  /** The next store of the driver; the store of the control word comes last and commits. */
  function DriverStep(s: Ring): (r: Ring)
    requires WellFormed(s) && !s.driver.Idle?
    ensures WellFormed(r)
  {
    match s.driver
    case Body(t, k) =>
      var v := Stamped(t, s.cycle);
      var mem := s.mem[s.enqueue := SetField(s.mem[s.enqueue], k, v)];
      if k < 3 then s.(mem := mem, driver := Body(t, k + 1))
      else
        var next := s.enqueue + 1;
        s.(mem := mem, enqueue := next, driver := if next >= LINK then Link(0) else Idle, sent := s.sent + [v])
    case Link(k) =>
      var v := Trb(s.base.0, s.base.1, 0, LinkControl(s.cycle));
      var mem := s.mem[LINK := SetField(s.mem[LINK], k, v)];
      if k < 3 then s.(mem := mem, driver := Link(k + 1))
      else s.(mem := mem, enqueue := 0, cycle := !s.cycle, driver := Idle)
  }

  /** One read of the controller. A slot whose cycle bit is not its own is empty; a Link TRB sends it to the start of the ring. */
  function ControllerStep(s: Ring): (r: Ring)
    requires WellFormed(s)
    ensures WellFormed(r)
  {
    var t := s.mem[s.dequeue];
    match s.controller
    case Looking => if CycleBit(t.control) == s.ccs then s.(controller := Reading(0, Zero.(control := t.control))) else s
    case Reading(k, part) =>
      if k < 3 then s.(controller := Reading(k + 1, SetField(part, k, t)))
      else if IsLink(part.control) then
        s.(controller := Looking, dequeue := if (part.lo, part.hi) == s.base then 0 else s.dequeue,
           ccs := if Toggles(part.control) then !s.ccs else s.ccs)
      else if s.dequeue < LINK then s.(controller := Looking, dequeue := s.dequeue + 1, got := s.got + [part])
      else s
  }

  /** The driver begins to enqueue t; never a Link TRB, and only while fewer than `limit` are unread. */
  predicate MayBegin(s: Ring, t: Trb, limit: nat) {
    s.driver.Idle? && !IsLink(t.control) && |s.sent| < |s.got| + limit
  }

  datatype Event = Begin(trb: Trb) | Store | Read

  ghost predicate Next(s: Ring, e: Event, r: Ring, limit: nat) {
    WellFormed(s) &&
    match e
    case Begin(t) => MayBegin(s, t, limit) && r == s.(driver := Body(t, 0))
    case Store => !s.driver.Idle? && r == DriverStep(s)
    case Read => r == ControllerStep(s)
  }

  // ----- positions: the k-th TRB ever enqueued stands in slot k mod 63, written on lap k div 63 -----

  function Slot(k: nat): (i: nat)
    ensures i < LINK
  {
    k % LINK
  }

  function LapOf(k: nat): nat {
    k / LINK
  }

  /** The cycle bit of lap l: 1 on even laps. */
  predicate Bit(l: nat) {
    l % 2 == 0
  }

  lemma SlotNext(k: nat)
    ensures if Slot(k) == LINK - 1 then Slot(k + 1) == 0 && LapOf(k + 1) == LapOf(k) + 1
            else Slot(k + 1) == Slot(k) + 1 && LapOf(k + 1) == LapOf(k)
    ensures Bit(LapOf(k) + 1) != Bit(LapOf(k))
  {
  }

  lemma SlotAhead(k: nat)
    ensures Slot(k + LINK) == Slot(k) && LapOf(k + LINK) == LapOf(k) + 1 && Bit(LapOf(k) + 1) != Bit(LapOf(k))
  {
  }

  /** Different positions less than a lap apart use different slots. */
  lemma SlotsApart(k: nat, n: nat)
    requires k < n < k + LINK
    ensures Slot(k) != Slot(n)
  {
  }

  lemma FirstLap(k: nat)
    requires k < LINK
    ensures Slot(k) == k && LapOf(k) == 0 && Bit(0)
  {
  }

  // ----- the invariant -----

  /** Laps whose Link TRB the driver has written. */
  function Wraps(s: Ring): int {
    LapOf(|s.sent|) - if s.driver.Link? then 1 else 0
  }

  /** The cycle bit of the Link TRB: that of the last lap that was closed; 1 at first. */
  predicate LinkBit(wraps: int) {
    wraps <= 0 || Bit(wraps - 1)
  }

  ghost predicate DriverInv(s: Ring, limit: nat)
    requires WellFormed(s)
  {
    var n := |s.sent|;
    match s.driver
    case Idle => s.enqueue == Slot(n) && s.cycle == Bit(LapOf(n))
    case Body(t, k) =>
      s.enqueue == Slot(n) && s.cycle == Bit(LapOf(n)) && !IsLink(t.control) && k <= 3 && n < |s.got| + limit &&
      (k > 0 ==> s.mem[s.enqueue].lo == t.lo) && (k > 1 ==> s.mem[s.enqueue].hi == t.hi) && (k > 2 ==> s.mem[s.enqueue].status == t.status)
    case Link(k) => s.enqueue == LINK && n > 0 && Slot(n) == 0 && LapOf(n) > 0 && s.cycle == Bit(LapOf(n) - 1) && k <= 3
  }

  ghost predicate ControllerInv(s: Ring) {
    var c := |s.got|;
    (if s.dequeue == LINK then Slot(c) == 0 && LapOf(c) > 0 && s.ccs == Bit(LapOf(c) - 1)
     else s.dequeue == Slot(c) && s.ccs == Bit(LapOf(c))) &&
    match s.controller
    case Looking => true
    case Reading(k, part) =>
      k <= 3 && (s.dequeue < LINK ==> c < |s.sent|) && (s.dequeue < LINK || s.dequeue == LINK) &&
      var t := if s.dequeue == LINK then Trb(s.base.0, s.base.1, 0, LinkControl(s.ccs)) else s.sent[c];
      part.control == t.control && (k > 0 ==> part.lo == t.lo) && (k > 1 ==> part.hi == t.hi) && (k > 2 ==> part.status == t.status)
  }

  /** Unread TRBs stand in their slots; free slots carry the cycle bit of the lap before. */
  ghost predicate MemoryInv(s: Ring)
    requires WellFormed(s)
  {
    var n, c := |s.sent|, |s.got|;
    (forall k :: c <= k < n ==> s.mem[Slot(k)] == s.sent[k]) &&
    (forall k :: n <= k < c + LINK ==> CycleBit(s.mem[Slot(k)].control) != Bit(LapOf(k))) &&
    (forall k :: 0 <= k < n ==> CycleBit(s.sent[k].control) == Bit(LapOf(k)) && !IsLink(s.sent[k].control)) &&
    s.mem[LINK] == Trb(s.base.0, s.base.1, 0, LinkControl(LinkBit(Wraps(s))))
  }

  ghost predicate Inv(s: Ring, limit: nat) {
    WellFormed(s) && |s.got| <= |s.sent| <= |s.got| + limit && s.got == s.sent[..|s.got|] &&
    DriverInv(s, limit) && ControllerInv(s) && MemoryInv(s)
  }

  lemma FreshInv(base: (int, int), limit: nat)
    ensures Inv(Fresh(base), limit)
  {
    hide CycleBit, IsLink, LinkControl;
    assert !CycleBit(Zero.control) by { NoCycle(); }
    forall k: nat | k < LINK ensures Slot(k) == k && LapOf(k) == 0 { FirstLap(k); }
    FirstLap(0);
  }

  lemma NoCycle()
    ensures !CycleBit(0)
  {
  }

  lemma BeginInv(s: Ring, t: Trb, r: Ring, limit: nat)
    requires Inv(s, limit) && Next(s, Begin(t), r, limit)
    ensures Inv(r, limit)
  {
    hide CycleBit, IsLink, LinkControl, Slot, LapOf, Bit, WithCycle;
  }

  lemma StoreInv(s: Ring, r: Ring, limit: nat)
    requires Inv(s, limit) && limit <= LINK && Next(s, Store, r, limit)
    ensures Inv(r, limit)
  {
    hide Inv, CycleBit, IsLink, LinkControl, Slot, LapOf, Bit, WithCycle;
    match s.driver
    case Body(t, k) => if k < 3 { FieldInv(s, r, limit); } else { CommitInv(s, r, limit); }
    case Link(k) => LinkInv(s, r, limit);
  }

  lemma FieldInv(s: Ring, r: Ring, limit: nat)
    requires Inv(s, limit) && limit <= LINK && s.driver.Body? && s.driver.k < 3 && r == DriverStep(s)
    ensures Inv(r, limit)
  {
    hide CycleBit, IsLink, LinkControl, Slot, LapOf, Bit, WithCycle, LinkBit;
    var n, c := |s.sent|, |s.got|;
    forall k | c <= k < n ensures r.mem[Slot(k)] == s.sent[k] { SlotsApart(k, n); }
  }

  lemma CommitInv(s: Ring, r: Ring, limit: nat)
    requires Inv(s, limit) && limit <= LINK && s.driver.Body? && s.driver.k >= 3 && r == DriverStep(s)
    ensures Inv(r, limit)
  {
    hide CycleBit, IsLink, LinkControl, Slot, LapOf, Bit, WithCycle, LinkBit;
    var n, c := |s.sent|, |s.got|;
    SlotNext(n);
    forall k | c <= k < n ensures r.mem[Slot(k)] == s.sent[k] { SlotsApart(k, n); }
    forall k | n + 1 <= k < c + LINK ensures CycleBit(r.mem[Slot(k)].control) != Bit(LapOf(k)) { SlotsApart(n, k); }
    assert r.mem[Slot(n)] == r.sent[n];
  }

  lemma LinkInv(s: Ring, r: Ring, limit: nat)
    requires Inv(s, limit) && limit <= LINK && s.driver.Link? && r == DriverStep(s)
    ensures Inv(r, limit)
  {
    hide Inv, DriverStep;
    Shape(s, limit);
    if s.driver.k < 3 { LinkFieldInv(s, r, limit); } else { LinkCommitInv(s, r, limit); }
  }

  lemma LinkFieldInv(s: Ring, r: Ring, limit: nat)
    requires Inv(s, limit) && limit <= LINK && s.driver.Link? && s.driver.k < 3 && r == DriverStep(s)
    ensures Inv(r, limit)
  {
    hide CycleBit, IsLink, LinkControl, Slot, LapOf, Bit, WithCycle, Toggles, LinkBit, Stamped;
  }

  lemma LinkCommitInv(s: Ring, r: Ring, limit: nat)
    requires Inv(s, limit) && limit <= LINK && s.driver.Link? && s.driver.k >= 3 && r == DriverStep(s)
    ensures Inv(r, limit)
  {
    hide CycleBit, IsLink, LinkControl, Slot, LapOf, Bit, WithCycle, Toggles, Stamped;
    SlotNext(|s.sent| - 1);
  }

  lemma ReadInv(s: Ring, r: Ring, limit: nat)
    requires Inv(s, limit) && limit <= LINK && Next(s, Read, r, limit)
    ensures Inv(r, limit)
  {
    hide Inv, CycleBit, IsLink, LinkControl, Slot, LapOf, Bit, WithCycle;
    match s.controller
    case Looking => LookInv(s, r, limit);
    case Reading(k, part) => if k < 3 { PartInv(s, r, limit); } else { TakeInv(s, r, limit); }
  }

  lemma LookInv(s: Ring, r: Ring, limit: nat)
    requires Inv(s, limit) && limit <= LINK && s.controller.Looking? && r == ControllerStep(s)
    ensures Inv(r, limit)
  {
    hide CycleBit, IsLink, LinkControl, Slot, LapOf, Bit, WithCycle, LinkBit;
    var n, c := |s.sent|, |s.got|;
    if s.dequeue < LINK && n == c { assert CycleBit(s.mem[Slot(c)].control) != Bit(LapOf(c)); }
  }

  lemma PartInv(s: Ring, r: Ring, limit: nat)
    requires Inv(s, limit) && limit <= LINK && s.controller.Reading? && s.controller.k < 3 && r == ControllerStep(s)
    ensures Inv(r, limit)
  {
    hide CycleBit, IsLink, LinkControl, Slot, LapOf, Bit, WithCycle, LinkBit;
  }

  lemma TakeInv(s: Ring, r: Ring, limit: nat)
    requires Inv(s, limit) && limit <= LINK && s.controller.Reading? && s.controller.k >= 3 && r == ControllerStep(s)
    ensures Inv(r, limit)
  {
    hide CycleBit, IsLink, LinkControl, Slot, LapOf, Bit, WithCycle, LinkBit;
    var n, c := |s.sent|, |s.got|;
    if s.dequeue < LINK {
      SlotNext(c);
      SlotAhead(c);
      assert s.controller.part == s.sent[c];
      assert s.sent[..c] + [s.sent[c]] == s.sent[..c + 1];
    } else {
      FirstLap(0);
      SlotNext(c - 1);
    }
  }

  // ----- every run -----

  /** rs are the states of a run: it starts reset, and each state follows from the one before by some event. */
  ghost predicate IsRun(base: (int, int), es: seq<Event>, rs: seq<Ring>, limit: nat) {
    |rs| == |es| + 1 && rs[0] == Fresh(base) && forall i :: 0 <= i < |es| ==> Next(rs[i], es[i], rs[i + 1], limit)
  }

  lemma {:induction false} RunInv(base: (int, int), es: seq<Event>, rs: seq<Ring>, limit: nat, i: nat)
    requires IsRun(base, es, rs, limit) && limit <= LINK && i < |rs|
    ensures Inv(rs[i], limit)
    decreases i
  {
    hide Inv, Next, Fresh;
    if i == 0 {
      FreshInv(base, limit);
    } else {
      RunInv(base, es, rs, limit, i - 1);
      assert Next(rs[i - 1], es[i - 1], rs[i], limit);
      match es[i - 1]
      case Begin(t) => BeginInv(rs[i - 1], t, rs[i], limit);
      case Store => StoreInv(rs[i - 1], rs[i], limit);
      case Read => ReadInv(rs[i - 1], rs[i], limit);
    }
  }

  /**
   * The ring is a queue under every interleaving of single stores and single reads, over any number of laps: what the
   * controller has read is a prefix of what was enqueued, every TRB whole. Up to 63 TRBs may be unread.
   */
  lemma RingIsFifo(base: (int, int), es: seq<Event>, rs: seq<Ring>, limit: nat, i: nat)
    requires IsRun(base, es, rs, limit) && limit <= LINK && i < |rs|
    ensures rs[i].got <= rs[i].sent && |rs[i].sent| <= |rs[i].got| + limit
  {
    RunInv(base, es, rs, limit, i);
  }

  // ----- progress -----

  function Reads(s: Ring, n: nat): (r: Ring)
    requires WellFormed(s)
    ensures WellFormed(r)
    decreases n
  {
    if n == 0 then s else Reads(ControllerStep(s), n - 1)
  }

  lemma {:induction false} ReadsAdd(s: Ring, n: nat, m: nat)
    requires WellFormed(s)
    ensures Reads(s, n + m) == Reads(Reads(s, n), m)
    decreases n
  {
    if n > 0 { ReadsAdd(ControllerStep(s), n - 1, m); }
  }

  /** Reads of a controller that has seen its cycle bit take it to the end of the TRB. */
  lemma {:induction false} Finishes(s: Ring, limit: nat) returns (n: nat)
    requires Inv(s, limit) && limit <= LINK && s.controller.Reading?
    ensures n <= 4 - s.controller.k && Inv(Reads(s, n), limit) && Reads(s, n).sent == s.sent && Reads(s, n).controller == Looking
    ensures if s.dequeue == LINK then Reads(s, n).got == s.got && Reads(s, n).dequeue == 0
            else |Reads(s, n).got| == |s.got| + 1 && Reads(s, n).dequeue == s.dequeue + 1
    decreases 4 - s.controller.k
  {
    hide Inv, Reads;
    Shape(s, limit);
    var r := ControllerStep(s);
    ReadInv(s, r, limit);
    OneRead(s);
    if s.controller.k < 3 {
      n := Finishes(r, limit);
      ReadsAdd(s, 1, n);
      n := n + 1;
    } else {
      n := 1;
      LinkFollowed(s, limit);
    }
  }

  lemma NoReads(s: Ring)
    requires WellFormed(s)
    ensures Reads(s, 0) == s
  {
  }

  lemma OneRead(s: Ring)
    requires WellFormed(s)
    ensures Reads(s, 1) == ControllerStep(s)
  {
    assert Reads(ControllerStep(s), 0) == ControllerStep(s);
  }

  lemma Shape(s: Ring, limit: nat)
    requires Inv(s, limit)
    ensures WellFormed(s) && (s.controller.Reading? ==> s.controller.k <= 3)
  {
  }

  /** The last read of a TRB takes it; the last read of the Link TRB follows it. */
  lemma LinkFollowed(s: Ring, limit: nat)
    requires Inv(s, limit) && limit <= LINK && s.controller.Reading? && s.controller.k == 3
    ensures var r := ControllerStep(s);
            r.controller == Looking && r.sent == s.sent &&
            if s.dequeue == LINK then r.got == s.got && r.dequeue == 0 else |r.got| == |s.got| + 1 && r.dequeue == s.dequeue + 1
  {
    hide CycleBit, LinkControl, Slot, LapOf, Bit, Toggles, MemoryInv, IsLink, LinkBit;
    if s.dequeue < LINK { SentPlain(s, limit, |s.got|); }
  }

  lemma SentPlain(s: Ring, limit: nat, k: nat)
    requires Inv(s, limit) && k < |s.sent|
    ensures !IsLink(s.sent[k].control)
  {
    hide IsLink, CycleBit, Slot, LapOf, Bit, LinkControl;
  }

  /** With at most 62 unread, a controller that looks at its slot sees the cycle bit of the TRB or link that is due. */
  lemma Sees(s: Ring, limit: nat)
    requires Inv(s, limit) && limit < LINK && s.controller.Looking? && |s.got| < |s.sent|
    requires s.dequeue == LINK ==> !s.driver.Link? || LapOf(|s.got|) < LapOf(|s.sent|)
    ensures CycleBit(s.mem[s.dequeue].control) == s.ccs
  {
    hide CycleBit, IsLink, LinkControl, Toggles;
    var n, c := |s.sent|, |s.got|;
    if s.dequeue < LINK {
      assert s.mem[Slot(c)] == s.sent[c];
    } else {
      assert LapOf(n) == LapOf(c);
    }
  }

  /**
   * Nothing is left unread: with at most 62 unread TRBs, ten reads of the controller alone deliver the next one,
   * whatever the driver was doing.
   */
  lemma RingDelivers(s: Ring, limit: nat) returns (n: nat)
    requires Inv(s, limit) && limit < LINK && |s.got| < |s.sent|
    ensures n <= 10 && |Reads(s, n).got| == |s.got| + 1 && Reads(s, n).sent == s.sent && Inv(Reads(s, n), limit)
    ensures Reads(s, n).dequeue > 0 && Reads(s, n).controller == Looking && Reads(s, n).driver == s.driver
  {
    hide Inv, Reads, CycleBit;
    Shape(s, limit);
    var s1, n1 := s, 0;
    NoReads(s);
    if s.controller.Looking? {
      s1, n1 := Starts(s, limit);
    }
    var n2 := Finishes(s1, limit);
    ReadsAdd(s, n1, n2);
    n := n1 + n2;
    ReadsKeepDriver(s, n);
    if s1.dequeue == LINK {
      var s2 := Reads(s, n);
      var s3, n3 := Starts(s2, limit);
      var n4 := Finishes(s3, limit);
      ReadsAdd(s2, n3, n4);
      ReadsAdd(s, n, n3 + n4);
      n := n + n3 + n4;
      ReadsKeepDriver(s, n);
    }
  }

  lemma Starts(s: Ring, limit: nat) returns (r: Ring, n: nat)
    requires Inv(s, limit) && limit < LINK && s.controller.Looking? && |s.got| < |s.sent|
    ensures n == 1 && r == Reads(s, 1) && r == ControllerStep(s) && Inv(r, limit) && r.controller == Reading(0, r.controller.part)
    ensures r.sent == s.sent && r.got == s.got && r.dequeue == s.dequeue
  {
    hide Inv, Reads, CycleBit;
    Shape(s, limit);
    n := 1;
    r := ControllerStep(s);
    OneRead(s);
    ReadInv(s, r, limit);
    LinkClosed(s, limit);
    Sees(s, limit);
  }

  /** A controller waiting at the Link TRB with TRBs behind it: the driver has closed that lap. */
  lemma LinkClosed(s: Ring, limit: nat)
    requires Inv(s, limit) && limit < LINK && s.controller.Looking? && |s.got| < |s.sent|
    ensures s.dequeue == LINK ==> !s.driver.Link? || LapOf(|s.got|) < LapOf(|s.sent|)
  {
    hide CycleBit, IsLink, LinkControl, Toggles, MemoryInv;
  }

  lemma {:induction false} ReadsKeepDriver(s: Ring, n: nat)
    requires WellFormed(s)
    ensures Reads(s, n).driver == s.driver
    decreases n
  {
    if n > 0 { ReadsKeepDriver(ControllerStep(s), n - 1); }
  }

  // ----- why not 63 -----

  datatype Trace = Trace(es: seq<Event>, rs: seq<Ring>) {
    function Last(): Ring
      requires |rs| > 0
    {
      rs[|rs| - 1]
    }
  }

  ghost predicate Valid(base: (int, int), t: Trace) {
    |t.rs| > 0 && IsRun(base, t.es, t.rs, LINK)
  }

  lemma Extended(base: (int, int), t: Trace, e: Event, r: Ring) returns (u: Trace)
    requires Valid(base, t) && Next(t.Last(), e, r, LINK)
    ensures Valid(base, u) && u.Last() == r
  {
    hide Next, Fresh;
    u := Trace(t.es + [e], t.rs + [r]);
    forall i | 0 <= i < |u.es| ensures Next(u.rs[i], u.es[i], u.rs[i + 1], LINK) {
      if i < |t.es| { assert Next(t.rs[i], t.es[i], t.rs[i + 1], LINK); }
    }
  }

  /** The driver stores on until it is idle; the controller does nothing meanwhile. */
  lemma {:induction false} Stores(base: (int, int), t: Trace) returns (u: Trace)
    requires Valid(base, t) && Inv(t.Last(), LINK)
    ensures Valid(base, u) && u.Last().driver.Idle? && Inv(u.Last(), LINK)
    ensures var s, r := t.Last(), u.Last();
            r.got == s.got && r.dequeue == s.dequeue && r.ccs == s.ccs && r.controller == s.controller &&
            |r.sent| == |s.sent| + if s.driver.Body? then 1 else 0
    decreases match t.Last().driver case Idle => 0 case Body(_, k) => 10 - k case Link(k) => 5 - k
  {
    hide Inv, Fresh, IsRun;
    var s := t.Last();
    Bounds(s);
    if s.driver.Idle? {
      u := t;
    } else {
      var r := DriverStep(s);
      StoreInv(s, r, LINK);
      u := Extended(base, t, Store, r);
      u := Stores(base, u);
    }
  }

  lemma Bounds(s: Ring)
    requires Inv(s, LINK)
    ensures WellFormed(s)
    ensures match s.driver case Idle => true case Body(_, k) => k <= 3 case Link(k) => k <= 3
  {
  }

  lemma Enqueued(base: (int, int), t: Trace) returns (u: Trace)
    requires Valid(base, t) && Inv(t.Last(), LINK) && t.Last().driver.Idle? && |t.Last().sent| < |t.Last().got| + LINK
    ensures Valid(base, u) && Inv(u.Last(), LINK) && u.Last().driver.Idle?
    ensures var s, r := t.Last(), u.Last();
            r.got == s.got && r.dequeue == s.dequeue && r.ccs == s.ccs && r.controller == s.controller && |r.sent| == |s.sent| + 1
  {
    hide Inv, Fresh, IsRun, IsLink;
    assert !IsLink(0) by { NoLink(); }
    var s := t.Last();
    Bounds(s);
    var r := s.(driver := Body(Zero, 0));
    BeginInv(s, Zero, r, LINK);
    u := Extended(base, t, Begin(Zero), r);
    u := Stores(base, u);
  }

  lemma NoLink()
    ensures !IsLink(0)
  {
  }

  lemma {:induction false} ManyEnqueued(base: (int, int), t: Trace, k: nat) returns (u: Trace)
    requires Valid(base, t) && Inv(t.Last(), LINK) && t.Last().driver.Idle? && |t.Last().sent| + k <= |t.Last().got| + LINK
    ensures Valid(base, u) && Inv(u.Last(), LINK) && u.Last().driver.Idle?
    ensures var s, r := t.Last(), u.Last();
            r.got == s.got && r.dequeue == s.dequeue && r.ccs == s.ccs && r.controller == s.controller && |r.sent| == |s.sent| + k
    decreases k
  {
    hide Inv, Fresh, IsRun;
    u := t;
    if k > 0 {
      u := Enqueued(base, t);
      u := ManyEnqueued(base, u, k - 1);
    }
  }

  lemma {:induction false} ManyRead(base: (int, int), t: Trace, n: nat) returns (u: Trace)
    requires Valid(base, t) && WellFormed(t.Last())
    ensures Valid(base, u) && u.Last() == Reads(t.Last(), n)
    decreases n
  {
    hide Fresh, IsRun;
    u := t;
    if n > 0 {
      u := Extended(base, t, Read, ControllerStep(t.Last()));
      u := ManyRead(base, u, n - 1);
    }
  }

  /** k TRBs enqueued and read one at a time from reset. */
  lemma {:induction false} OneByOne(base: (int, int), k: nat) returns (u: Trace)
    ensures Valid(base, u) && Inv(u.Last(), LINK) && u.Last().driver.Idle? && u.Last().controller == Looking
    ensures |u.Last().sent| == |u.Last().got| == k && (k > 0 ==> u.Last().dequeue > 0)
    decreases k
  {
    hide Inv, IsRun, Reads;
    if k == 0 {
      u := Trace([], [Fresh(base)]);
      FreshInv(base, LINK);
      assert IsRun(base, [], [Fresh(base)], LINK) by { NoEvents(base); }
    } else {
      u := OneByOne(base, k - 1);
      u := Enqueued(base, u);
      var s := u.Last();
      Narrower(s);
      var n := RingDelivers(s, 1);
      Wider(Reads(s, n));
      u := ManyRead(base, u, n);
    }
  }

  lemma NoEvents(base: (int, int))
    ensures IsRun(base, [], [Fresh(base)], LINK)
  {
  }

  lemma Narrower(s: Ring)
    requires Inv(s, LINK) && s.driver.Idle? && |s.sent| <= |s.got| + 1
    ensures Inv(s, 1) && WellFormed(s)
  {
  }

  lemma Wider(s: Ring)
    requires Inv(s, 1)
    ensures Inv(s, LINK)
  {
  }

  /** A full ring with the controller still before the Link TRB of the lap it has read: the link has been closed again. */
  lemma FullRingStrands(s: Ring)
    requires Inv(s, LINK) && s.driver.Idle? && s.controller.Looking? && s.dequeue == LINK && |s.sent| == |s.got| + LINK
    ensures ControllerStep(s) == s
  {
    hide CycleBit, IsLink, LinkControl, Slot, LapOf, Toggles;
    SlotAhead(|s.got|);
    SlotNext(|s.got| + LINK - 1);
  }

  /**
   * The bound is exact: with 63 TRBs unread the queue is still in order, but there is a run after which the controller
   * never reads again although the driver has finished and TRBs are waiting.
   */
  lemma SixtyThreeStrand(base: (int, int)) returns (t: Trace)
    ensures Valid(base, t) && WellFormed(t.Last()) && t.Last().driver.Idle? && |t.Last().got| < |t.Last().sent|
    ensures forall n: nat :: Reads(t.Last(), n) == t.Last()
  {
    hide Inv, IsRun, Fresh;
    t := OneByOne(base, LINK);
    AtLink(t.Last());
    t := ManyEnqueued(base, t, LINK);
    var s := t.Last();
    Bounds(s);
    FullRingStrands(s);
    forall n: nat ensures Reads(s, n) == s { StuckReads(s, n); }
  }

  lemma AtLink(s: Ring)
    requires Inv(s, LINK) && |s.got| == LINK && s.dequeue > 0
    ensures s.dequeue == LINK
  {
    hide CycleBit, IsLink, LinkControl, Toggles;
  }

  lemma {:induction false} StuckReads(s: Ring, n: nat)
    requires WellFormed(s) && ControllerStep(s) == s
    ensures Reads(s, n) == s
    decreases n
  {
    if n > 0 { StuckReads(s, n - 1); }
  }

  // ----- clearing the slot first -----

  /** The slot the driver is about to fill, cleared by four zero stores. */
  function Cleared(s: Ring): (r: Ring)
    requires WellFormed(s) && s.driver.Idle?
    ensures WellFormed(r)
  {
    s.(mem := s.mem[s.enqueue := Trb(0, 0, 0, 0)])
  }

  /** On even laps a free slot has cycle bit 0 already: clearing it keeps the invariant. */
  lemma ClearedInv(s: Ring, limit: nat)
    requires Inv(s, limit) && limit < LINK && s.driver.Idle? && LapOf(|s.sent|) % 2 == 0
    ensures Inv(Cleared(s), limit)
  {
    hide IsLink, LinkControl, Slot, LapOf, WithCycle, Toggles, LinkBit;
    var r, n, c := Cleared(s), |s.sent|, |s.got|;
    NoCycle();
    forall k | c <= k < n ensures r.mem[Slot(k)] == s.sent[k] { SlotsApart(k, n); }
    forall k | n <= k < c + LINK ensures CycleBit(r.mem[Slot(k)].control) != Bit(LapOf(k)) {
      if k > n { SlotsApart(n, k); }
    }
  }

  lemma {:induction false} ReadsInv(s: Ring, limit: nat, n: nat)
    requires Inv(s, limit) && limit <= LINK && WellFormed(s)
    ensures Inv(Reads(s, n), limit) && Reads(s, n).sent == s.sent
    decreases n
  {
    hide Inv, ControllerStep;
    if n > 0 {
      ReadInv(s, ControllerStep(s), limit);
      ReadKeeps(s);
      ReadsInv(ControllerStep(s), limit, n - 1);
    }
  }

  lemma ReadKeeps(s: Ring)
    requires WellFormed(s)
    ensures var r := ControllerStep(s); r.sent == s.sent && r.driver == s.driver && r.enqueue == s.enqueue && r.mem == s.mem
  {
  }

  /** A controller that looks elsewhere does not see the clearing. */
  lemma StepElsewhere(s: Ring)
    requires WellFormed(s) && s.driver.Idle? && s.dequeue != s.enqueue
    ensures ControllerStep(s).driver.Idle? && ControllerStep(Cleared(s)) == Cleared(ControllerStep(s))
  {
    hide CycleBit, IsLink, Toggles;
  }

  /** With the driver idle and something unread or the Link TRB to follow, the controller sees its cycle bit, and not in the driver's slot. */
  lemma Continues(s: Ring, limit: nat)
    requires Inv(s, limit) && limit < LINK && s.driver.Idle? && (|s.got| < |s.sent| || s.dequeue == LINK)
    ensures s.dequeue != s.enqueue && (s.controller.Looking? ==> CycleBit(s.mem[s.dequeue].control) == s.ccs)
  {
    hide CycleBit, IsLink, LinkControl, Toggles, Slot, LapOf, Bit;
    var n, c := |s.sent|, |s.got|;
    if c < n {
      SlotsApart(c, n);
      if s.controller.Looking? { Sees(s, limit); }
    }
  }

  lemma CaughtUp(s: Ring, limit: nat)
    requires Inv(s, limit) && s.driver.Idle? && |s.got| == |s.sent| && s.dequeue != LINK
    ensures s.got == s.sent && s.controller.Looking? && s.dequeue < LINK && s.dequeue == s.enqueue && s.ccs == Bit(LapOf(|s.sent|))
  {
    hide CycleBit, IsLink, LinkControl, Toggles, Slot, LapOf, Bit, MemoryInv;
  }

  /** The controller reads everything that is unread, follows the link if it stands there, and stands at the cleared slot. */
  lemma {:induction false} Drains(s: Ring, limit: nat) returns (n: nat)
    requires Inv(s, limit) && limit < LINK && s.driver.Idle? && WellFormed(s)
    ensures var r := Reads(s, n);
            r.driver.Idle? && Reads(Cleared(s), n) == Cleared(r) && r.got == r.sent == s.sent && r.enqueue == s.enqueue &&
            r.controller.Looking? && r.dequeue < LINK && r.dequeue == r.enqueue && r.ccs == Bit(LapOf(|s.sent|))
    decreases |s.sent| - |s.got|, if s.dequeue == LINK then 1 else 0, match s.controller case Looking => 5 case Reading(k, _) => 4 - k
  {
    hide Inv, Cleared, CycleBit, Bit, LapOf, Reads;
    Behind(s, limit);
    if |s.got| == |s.sent| && s.dequeue != LINK {
      n := 0;
      CaughtUp(s, limit);
      NoReads(s);
      NoReads(Cleared(s));
    } else {
      Continues(s, limit);
      var r := ControllerStep(s);
      ReadInv(s, r, limit);
      ReadKeeps(s);
      StepElsewhere(s);
      StepCounts(s, limit);
      n := Drains(r, limit);
      OneRead(s);
      OneRead(Cleared(s));
      ReadsAdd(s, 1, n);
      ReadsAdd(Cleared(s), 1, n);
      n := n + 1;
    }
  }

  lemma Behind(s: Ring, limit: nat)
    requires Inv(s, limit)
    ensures |s.got| <= |s.sent| && (s.controller.Reading? ==> s.controller.k <= 3)
  {
  }

  /** Every read brings the controller closer to the end. */
  lemma StepCounts(s: Ring, limit: nat)
    requires Inv(s, limit) && limit < LINK && WellFormed(s) && (s.controller.Looking? ==> CycleBit(s.mem[s.dequeue].control) == s.ccs)
    ensures var r := ControllerStep(s);
            if s.controller.Looking? then r.controller.Reading? && r.controller.k == 0 && r.got == s.got && r.dequeue == s.dequeue
            else if s.controller.k < 3 then r.controller.Reading? && r.controller.k == s.controller.k + 1 && r.got == s.got && r.dequeue == s.dequeue
            else r.controller.Looking? && if s.dequeue == LINK then |r.got| == |s.got| && r.dequeue == 0 else |r.got| == |s.got| + 1
  {
    hide Inv, CycleBit, IsLink, Toggles;
    Shape(s, limit);
    if s.controller.Reading? && s.controller.k == 3 { LinkFollowed(s, limit); }
  }

  /**
   * The driver clears the next slot while anything up to 62 TRBs is unread and the controller is anywhere. On even laps
   * that keeps the invariant, so nothing but what was enqueued is ever read. On odd laps, where the cycle bit is 0, it
   * hands the slot over: left alone, the controller reads a TRB that was never enqueued.
   */
  lemma ClearingExact(s: Ring, limit: nat)
    requires Inv(s, limit) && limit < LINK && s.driver.Idle? && WellFormed(s)
    ensures (exists n: nat :: |Reads(Cleared(s), n).got| > |s.sent|) <==> LapOf(|s.sent|) % 2 == 1
    ensures LapOf(|s.sent|) % 2 == 1 ==> exists n: nat :: Reads(Cleared(s), n).got == s.sent + [Trb(0, 0, 0, 0)]
    ensures LapOf(|s.sent|) % 2 == 0 ==> Inv(Cleared(s), limit)
  {
    hide Inv, Reads, LapOf;
    if LapOf(|s.sent|) % 2 == 0 {
      ClearedInv(s, limit);
      forall n: nat ensures |Reads(Cleared(s), n).got| <= |s.sent| {
        ReadsInv(Cleared(s), limit, n);
        Behind(Reads(Cleared(s), n), limit);
      }
    } else {
      var n := Drains(s, limit);
      var r := Reads(s, n);
      NoLink();
      NoCycle();
      ReadsWhole(Cleared(r));
      ReadsAdd(Cleared(s), n, 5);
      assert |Reads(Cleared(s), n + 5).got| > |s.sent|;
    }
  }

  /** After 64 TRBs enqueued and read the second lap has begun, and a bulk transfer's clearing is read as a TRB. */
  lemma ClearingRead(base: (int, int)) returns (t: Trace)
    ensures Valid(base, t) && WellFormed(t.Last()) && t.Last().driver.Idle? && t.Last().got == t.Last().sent
    ensures exists n: nat :: Reads(Cleared(t.Last()), n).got == t.Last().sent + [Trb(0, 0, 0, 0)]
  {
    hide Inv, IsRun, Reads;
    t := OneByOne(base, LINK + 1);
    var s := t.Last();
    SecondLap(s);
    Narrower(s);
    ClearingExact(s, 1);
  }

  lemma SecondLap(s: Ring)
    requires Inv(s, LINK) && |s.got| == |s.sent| == LINK + 1
    ensures WellFormed(s) && s.got == s.sent && s.dequeue < LINK && LapOf(|s.sent|) % 2 == 1
  {
    hide CycleBit, IsLink, LinkControl, Toggles, MemoryInv;
  }

  /** Five reads of a controller that finds its cycle bit: the TRB in its slot. */
  lemma ReadsWhole(s: Ring)
    requires WellFormed(s) && s.controller.Looking? && s.dequeue < LINK
    requires CycleBit(s.mem[s.dequeue].control) == s.ccs && !IsLink(s.mem[s.dequeue].control)
    ensures Reads(s, 5).got == s.got + [s.mem[s.dequeue]]
  {
    hide Reads, CycleBit, IsLink, Toggles;
    var s1 := ControllerStep(s);
    var s2 := ControllerStep(s1);
    var s3 := ControllerStep(s2);
    var s4 := ControllerStep(s3);
    OneRead(s);
    OneRead(s1);
    OneRead(s2);
    OneRead(s3);
    OneRead(s4);
    ReadsAdd(s, 1, 4);
    ReadsAdd(s1, 1, 3);
    ReadsAdd(s2, 1, 2);
    ReadsAdd(s3, 1, 1);
  }
}
