/** The driver's side of a producer ring: enqueueing in place, store by store. */
module XhciDriver {
  import opened XhciRing

  /** The driver runs on until it is idle. */
  function Drive(s: Ring): (r: Ring)
    requires WellFormed(s) && Bounded(s)
    ensures WellFormed(r) && r.driver.Idle?
    decreases match s.driver case Idle => 0 case Body(_, k) => 10 - k case Link(k) => 5 - k
  {
    if s.driver.Idle? then s else Drive(DriverStep(s))
  }

  predicate Bounded(s: Ring) {
    match s.driver case Idle => true case Body(_, k) => k <= 3 case Link(k) => k <= 3
  }

  class ProducerRing {
    const base: (int, int)
    const ring: array<Trb>
    var enqueue: nat
    var cycle: bool

    ghost predicate Valid()
      reads this
    {
      ring.Length == MAX_TRBS && enqueue < LINK
    }

    /** Memory and driver variables are those of s. */
    ghost predicate Shows(s: Ring)
      reads this, ring
    {
      WellFormed(s) && ring.Length == MAX_TRBS && ring[..] == s.mem && enqueue == s.enqueue && cycle == s.cycle && base == s.base
    }

    /** The reset ring. */
    constructor (base: (int, int))
      ensures Valid() && this.base == base && fresh(ring) && Shows(Fresh(base))
    {
      this.base := base;
      var a := new Trb[MAX_TRBS](i => if i == LINK then Trb(base.0, base.1, 0, LinkControl(true)) else Zero);
      ring := a;
      enqueue, cycle := 0, true;
      new;
      assert ring[..] == Fresh(base).mem;
    }

    /** parameter, status, then the control word with the cycle bit; then the next slot, or the Link TRB and slot 0. */
    method Enqueue(src: Trb, ghost s: Ring) returns (slot: nat)
      requires Valid() && Shows(s) && s.driver.Idle?
      modifies this, ring
      ensures Valid() && slot == old(enqueue) && Shows(Drive(s.(driver := Body(src, 0))))
    {
      hide WithCycle, LinkControl, CycleBit;
      slot := enqueue;
      ghost var g := s.(driver := Body(src, 0));
      ring[slot] := ring[slot].(lo := src.lo);
      g := Stored(g);
      ring[slot] := ring[slot].(hi := src.hi);
      g := Stored(g);
      ring[slot] := ring[slot].(status := src.status);
      g := Stored(g);
      ring[slot] := ring[slot].(control := WithCycle(src.control, cycle));
      g := Stored(g);
      Advance(g);
    }

    /** The index moves on; at the end of the ring the Link TRB is written, control word last, and the cycle turns. */
    method Advance(ghost s: Ring)
      requires Valid() && WellFormed(s) && Bounded(s) && s.driver == (if enqueue + 1 >= LINK then Link(0) else Idle)
      requires ring[..] == s.mem && s.enqueue == enqueue + 1 && cycle == s.cycle && base == s.base
      modifies this, ring
      ensures Valid() && Shows(Drive(s))
    {
      hide LinkControl, CycleBit;
      enqueue := enqueue + 1;
      ghost var g := s;
      if enqueue >= LINK {
        ring[LINK] := ring[LINK].(lo := base.0);
        g := Stored(g);
        ring[LINK] := ring[LINK].(hi := base.1);
        g := Stored(g);
        ring[LINK] := ring[LINK].(status := 0);
        g := Stored(g);
        ring[LINK] := ring[LINK].(control := LinkControl(cycle));
        g := Stored(g);
        enqueue := 0;
        cycle := !cycle;
      }
    }
  }

  /** One store leaves the end of the run the same. */
  ghost function Stored(s: Ring): (r: Ring)
    requires WellFormed(s) && Bounded(s) && !s.driver.Idle?
    ensures r == DriverStep(s) && WellFormed(r) && Bounded(r) && Drive(r) == Drive(s)
  {
    DriverStep(s)
  }

  /** An uninterrupted enqueue keeps the invariant of all runs and adds exactly its TRB, stamped with the cycle bit. */
  lemma DriveSends(s: Ring, t: Trb, limit: nat)
    requires Inv(s, limit) && limit <= LINK && MayBegin(s, t, limit)
    ensures var r := Drive(s.(driver := Body(t, 0)));
            Inv(r, limit) && r.driver.Idle? && r.sent == s.sent + [Stamped(t, s.cycle)] && r.got == s.got
  {
    hide Inv, Stamped;
    Shape(s, limit);
    var b := s.(driver := Body(t, 0));
    BeginInv(s, t, b, limit);
    DriveInv(b, limit);
  }

  /** So does a bulk enqueue, which clears the slot first, on even laps. */
  lemma BulkSends(s: Ring, t: Trb, limit: nat)
    requires Inv(s, limit) && limit < LINK && WellFormed(s) && MayBegin(s, t, limit) && LapOf(|s.sent|) % 2 == 0
    ensures var r := Drive(Cleared(s).(driver := Body(t, 0)));
            Inv(r, limit) && r.driver.Idle? && r.sent == s.sent + [Stamped(t, s.cycle)] && r.got == s.got
  {
    hide Inv, Stamped, LapOf;
    ClearingExact(s, limit);
    DriveSends(Cleared(s), t, limit);
  }

  lemma {:induction false} DriveInv(s: Ring, limit: nat)
    requires Inv(s, limit) && limit <= LINK && WellFormed(s) && Bounded(s)
    ensures Inv(Drive(s), limit) && Drive(s).got == s.got
    ensures Drive(s).sent == s.sent + match s.driver case Body(t, _) => [Stamped(t, s.cycle)] case _ => []
    decreases match s.driver case Idle => 0 case Body(_, k) => 10 - k case Link(k) => 5 - k
  {
    hide Inv, Stamped;
    if !s.driver.Idle? {
      var r := DriverStep(s);
      StoreInv(s, r, limit);
      DriveInv(r, limit);
    }
  }
}
