/** Waiting for completions: the polling loops of the USB and NVMe drivers over what the device shows in memory. */
module Completion {
  import opened Syntax
  import opened XhciRing
  import opened PhaseQueue
  import Words

  const TRANSFER_EVENT: int := 32

  // ----- USB events -----

  predicate Succeeded(e: Trb) {
    var code := e.status / 0x100_0000 % 0x100;
    code == 1 || code == 13
  }

  /** A transfer event for the TRB at this address. */
  predicate Names(e: Trb, target: (int, int)) {
    e.control / 1024 % 64 == TRANSFER_EVENT && (e.lo, e.hi) == target
  }

  /** Success is the number 1 or 13 in the top byte of the status; a transfer event is type 32 in bits 10 to 15 of the control word. */
  lemma EventBits(e: Trb, code: int, rest: int, high: int, kind: int, low: int)
    requires e.status == 16777216 * code + rest && 0 <= code < 256 && 0 <= rest < 16777216
    requires e.control == 65536 * high + 1024 * kind + low && 0 <= kind < 64 && 0 <= low < 1024
    ensures Succeeded(e) <==> code == 1 || code == 13
    ensures Names(e, (e.lo, e.hi)) <==> kind == 32
  {
    assert e.status / 0x100_0000 == code;
    assert e.control / 1024 == 64 * high + kind;
  }

  /** An event without its cycle bit. */
  function Plain(e: Trb): Trb {
    e.(control := WithCycle(e.control, false))
  }

  /** The ring's memory as a queue with phase bits: the cycle bit apart from the rest of the event. */
  function EventView(mem: seq<Trb>): (v: seq<Entry<Trb>>)
    ensures |v| == |mem|
  {
    seq(|mem|, i requires 0 <= i < |mem| => Entry(Plain(mem[i]), CycleBit(mem[i].control)))
  }

  function EventViews(mems: seq<seq<Trb>>): (vs: seq<seq<Entry<Trb>>>)
    ensures |vs| == |mems|
  {
    seq(|mems|, i requires 0 <= i < |mems| => EventView(mems[i]))
  }

  /** The events that polling sees when the ring shows mems[0], mems[1], ... in turn. */
  function Seen(mems: seq<seq<Trb>>, p: Place): seq<Trb>
    requires p.index < MAX_TRBS
  {
    TakenFrom(EventViews(mems), p, MAX_TRBS)
  }

  lemma SeenNext(mems: seq<seq<Trb>>, p: Place)
    requires p.index < MAX_TRBS && mems != [] && |mems[0]| == MAX_TRBS
    ensures Seen(mems, p) == if ShowsNew(EventView(mems[0]), p) then [Plain(mems[0][p.index])] + Seen(mems[1..], Onwards(p, MAX_TRBS))
                             else Seen(mems[1..], p)
    ensures ShowsNew(EventView(mems[0]), p) == (CycleBit(mems[0][p.index].control) == p.phase)
  {
    hide CycleBit, Plain, Onwards;
    assert EventViews(mems)[0] == EventView(mems[0]);
    assert EventViews(mems)[1..] == EventViews(mems[1..]);
  }

  /** The cycle bit plays no part in what an event says. */
  lemma PlainSays(e: Trb, target: (int, int))
    ensures Names(Plain(e), target) == Names(e, target) && Succeeded(Plain(e)) == Succeeded(e)
  {
  }

  /** The first event for the target decides. */
  ghost predicate Decides(es: seq<Trb>, target: (int, int), i: nat) {
    i < |es| && Names(es[i], target) && forall j :: 0 <= j < i ==> !Names(es[j], target)
  }

  class EventRing {
    var dequeue: nat
    var cycle: bool

    constructor ()
      ensures Here() == Place(0, true)
    {
      dequeue, cycle := 0, true;
    }

    function Here(): Place
      reads this
    {
      Place(dequeue, cycle)
    }

    /** One look at the ring; an event is there when its cycle bit is the expected one. */
    method Poll(mem: seq<Trb>) returns (e: Option<Trb>)
      requires |mem| == MAX_TRBS && dequeue < MAX_TRBS
      modifies this
      ensures dequeue < MAX_TRBS
      ensures if CycleBit(mem[old(dequeue)].control) == old(cycle)
              then e == Some(mem[old(dequeue)]) && Here() == Onwards(old(Here()), MAX_TRBS)
              else e == None && Here() == old(Here())
    {
      hide CycleBit;
      if CycleBit(mem[dequeue].control) != cycle { return None; }
      e := Some(mem[dequeue]);
      dequeue := dequeue + 1;
      if dequeue >= MAX_TRBS {
        dequeue := 0;
        cycle := !cycle;
      }
    }

    /** Polls until an event names the target, once for each memory the ring shows; other events are dropped. */
    method WaitTransfer(mems: seq<seq<Trb>>, target: (int, int)) returns (ok: bool)
      requires dequeue < MAX_TRBS && forall i :: 0 <= i < |mems| ==> |mems[i]| == MAX_TRBS
      modifies this
      ensures dequeue < MAX_TRBS
      ensures ok <==> exists i: nat :: Decides(Seen(mems, old(Here())), target, i) && Succeeded(Seen(mems, old(Here()))[i])
    {
      hide Names, Succeeded, CycleBit, Seen, EventView, Onwards, Plain, ShowsNew;
      ghost var all, past := Seen(mems, Here()), 0;
      for spin := 0 to |mems|
        invariant dequeue < MAX_TRBS && past <= |all|
        invariant all[past..] == Seen(mems[spin..], Here())
        invariant forall j :: 0 <= j < past ==> !Names(all[j], target)
      {
        assert mems[spin..][0] == mems[spin] && mems[spin..][1..] == mems[spin + 1..];
        SeenNext(mems[spin..], Here());
        var e := Poll(mems[spin]);
        if e.Some? {
          PlainSays(e.value, target);
          assert all[past] == all[past..][0] == Plain(e.value);
          if Names(e.value, target) {
            assert Decides(all, target, past) && all[past] == Plain(e.value);
            forall i: nat | Decides(all, target, i) ensures i == past { DecidesOnce(all, target, i, past); }
            return Succeeded(e.value);
          }
          assert all[past + 1..] == all[past..][1..];
          past := past + 1;
        }
      }
      NothingSeen(mems[|mems|..], Here());
      assert |all| == past;
      return false;
    }
  }

  lemma NothingSeen(mems: seq<seq<Trb>>, p: Place)
    requires mems == [] && p.index < MAX_TRBS
    ensures Seen(mems, p) == []
  {
  }

  lemma DecidesOnce(es: seq<Trb>, target: (int, int), i: nat, j: nat)
    requires Decides(es, target, i) && Decides(es, target, j)
    ensures i == j
  {
  }

  /**
   * From reset, under every interleaving with the device's stores: when the ring shows at each look what the queue of the
   * run holds there, the events that polling sees are a prefix of those posted, each once and whole.
   */
  lemma {:induction false} WaitsSeePosted(blank: Trb, es: seq<PhaseQueue.Event<Trb>>, qs: seq<Queue<Trb>>, mems: seq<seq<Trb>>)
    requires PhaseQueue.IsRun(MAX_TRBS, blank, es, qs) && EventViews(mems) == PollViews(es, qs)
    ensures Seen(mems, Place(0, true)) <= qs[|es|].posted
  {
    LooksTakePosted(MAX_TRBS, blank, es, qs);
  }

  // ----- NVMe -----

  /** status: bit 0 is the phase, bits 1 to 11 the status code. */
  datatype Completion = Completion(id: int, status: int)

  predicate PhaseBit(c: Completion) {
    c.status % 2 == 1
  }

  function Code(c: Completion): int {
    c.status / 2 % 0x800
  }

  /** An answer is good if the eleven bits above the phase bit are zero, whatever stands above them. */
  lemma AnswerBits(c: Completion, high: int, code: int, phase: int)
    requires c.status == 4096 * high + 2 * code + phase && 0 <= code < 2048 && 0 <= phase < 2
    ensures Code(c) == code && (Answers(Some(c), c.id) <==> code == 0) && PhaseBit(c) == (phase == 1)
  {
    assert c.status / 2 == 2048 * high + code;
  }

  /** An answer without its phase bit. */
  function Bare(c: Completion): Completion {
    c.(status := c.status - c.status % 2)
  }

  /** The first memory that shows a new entry at the head. */
  function Arrived(mems: seq<seq<Completion>>, h: Place): Option<Completion> {
    if mems == [] then None
    else if h.index < |mems[0]| && PhaseBit(mems[0][h.index]) == h.phase then Some(mems[0][h.index])
    else Arrived(mems[1..], h)
  }

  predicate Answers(c: Option<Completion>, id: int) {
    c.Some? && c.value.id == id && Code(c.value) == 0
  }

  /** A command and its wait: whether it succeeded, and where the driver then stands. */
  function Waited(mems: seq<seq<Completion>>, h: Place, id: int, depth: nat): (r: (bool, Place))
    requires h.index < depth
    ensures r.1.index < depth
  {
    if Answers(Arrived(mems, h), id) then (true, Onwards(h, depth)) else (false, h)
  }

  class NvmeQueue {
    const depth: nat
    var sqTail: nat
    var cqHead: nat
    var cqPhase: bool

    constructor (depth: nat)
      requires depth > 0
      ensures this.depth == depth && sqTail == 0 && Here() == Place(0, true)
    {
      this.depth := depth;
      sqTail, cqHead, cqPhase := 0, 0, true;
    }

    function Here(): Place
      reads this
    {
      Place(cqHead, cqPhase)
    }

    /** The command goes to slot; then the completion queue is polled. Only a good answer moves the head. */
    method SubmitAndWait(id: int, mems: seq<seq<Completion>>) returns (ok: bool, slot: nat)
      requires sqTail < depth && cqHead < depth && forall i :: 0 <= i < |mems| ==> |mems[i]| == depth
      modifies this
      ensures sqTail < depth && cqHead < depth && slot == old(sqTail) && sqTail == NextIndex(old(sqTail), depth)
      ensures (ok, Here()) == Waited(mems, old(Here()), id, depth)
    {
      hide PhaseBit, Code;
      slot := sqTail;
      Turn(sqTail, depth);
      sqTail := (sqTail + 1) % depth;
      for spin := 0 to |mems|
        invariant cqHead < depth && sqTail == NextIndex(old(sqTail), depth) && Here() == old(Here())
        invariant Arrived(mems[spin..], Here()) == Arrived(mems, Here())
      {
        assert mems[spin..][0] == mems[spin] && mems[spin..][1..] == mems[spin + 1..];
        var entry := mems[spin][cqHead];
        if PhaseBit(entry) == cqPhase {
          if entry.id != id || Code(entry) != 0 { return false, slot; }
          Turn(cqHead, depth);
          cqHead := (cqHead + 1) % depth;
          if cqHead == 0 { cqPhase := !cqPhase; }
          return true, slot;
        }
      }
      return false, slot;
    }
  }

  lemma Turn(i: nat, depth: nat)
    requires i < depth
    ensures (i + 1) % depth == NextIndex(i, depth)
  {
    if i + 1 == depth { Words.DivModUnique(i + 1, depth, 1, 0); } else { Words.DivModUnique(i + 1, depth, 0, i + 1); }
  }

  // ----- many commands -----

  /** A command and what the completion queue shows at each look of its wait. */
  datatype Command = Command(id: int, looks: seq<seq<Completion>>)

  /** The wait ends at the first new entry, and that is a good answer. */
  predicate Succeeds(c: Command, h: Place) {
    c.looks != [] && Arrived(c.looks[..|c.looks| - 1], h) == None && Answers(Arrived(c.looks, h), c.id)
  }

  /** The answer such a wait takes. */
  function Taken(c: Command, h: Place): (a: Completion)
    requires Succeeds(c, h)
    ensures a.id == c.id && Code(a) == 0
  {
    Bare(Arrived(c.looks, h).value)
  }

  predicate AllSucceed(cs: seq<Command>, h: Place, depth: nat)
    requires h.index < depth
    decreases |cs|
  {
    cs == [] || (Succeeds(cs[0], h) && AllSucceed(cs[1..], Waited(cs[0].looks, h, cs[0].id, depth).1, depth))
  }

  /** Where the driver stands after the commands, one wait after the other. */
  function StandsAfter(cs: seq<Command>, h: Place, depth: nat): (r: Place)
    requires h.index < depth
    ensures r.index < depth
    decreases |cs|
  {
    if cs == [] then h else StandsAfter(cs[1..], Waited(cs[0].looks, h, cs[0].id, depth).1, depth)
  }

  function AnswerViews(mems: seq<seq<Completion>>): (vs: seq<seq<Entry<Completion>>>)
    ensures |vs| == |mems|
  {
    seq(|mems|, i requires 0 <= i < |mems| => AnswerView(mems[i]))
  }

  /** The completion queue's memory with the phase bit apart. */
  function AnswerView(mem: seq<Completion>): (v: seq<Entry<Completion>>)
    ensures |v| == |mem|
  {
    seq(|mem|, i requires 0 <= i < |mem| => Entry(Bare(mem[i]), PhaseBit(mem[i])))
  }

  function Looks(cs: seq<Command>): seq<seq<Completion>>
    decreases |cs|
  {
    if cs == [] then [] else cs[0].looks + Looks(cs[1..])
  }

  /** A wait that ends at its first new entry takes that entry and leaves the driver one place further. */
  lemma {:induction false} WaitTakes(looks: seq<seq<Completion>>, h: Place, depth: nat, rest: seq<seq<Completion>>)
    requires h.index < depth && looks != [] && Arrived(looks[..|looks| - 1], h) == None && Arrived(looks, h).Some?
    ensures TakenFrom(AnswerViews(looks + rest), h, depth) == [Bare(Arrived(looks, h).value)] + TakenFrom(AnswerViews(rest), Onwards(h, depth), depth)
    decreases |looks|
  {
    hide Bare, PhaseBit, Onwards;
    var all := looks + rest;
    assert all[0] == looks[0] && all[1..] == looks[1..] + rest;
    assert AnswerViews(all)[0] == AnswerView(all[0]) && AnswerViews(all)[1..] == AnswerViews(all[1..]);
    if |looks| == 1 {
      assert looks[1..] == [] && [] + rest == rest;
    } else {
      assert looks[..|looks| - 1][0] == looks[0] && looks[..|looks| - 1][1..] == looks[1..][..|looks[1..]| - 1];
      WaitTakes(looks[1..], h, depth, rest);
    }
  }

  /** Waits that all succeed take one entry each, the answers to the commands in order. */
  lemma {:induction false} CommandsTake(cs: seq<Command>, n: nat, depth: nat)
    requires depth > 0 && AllSucceed(cs, PlaceAt(n, depth), depth)
    ensures StandsAfter(cs, PlaceAt(n, depth), depth) == PlaceAt(n + |cs|, depth)
    ensures var t := TakenFrom(AnswerViews(Looks(cs)), PlaceAt(n, depth), depth);
            |t| == |cs| && forall k: nat :: k < |cs| ==>
              Succeeds(cs[k], PlaceAt(n + k, depth)) && t[k] == Taken(cs[k], PlaceAt(n + k, depth))
    decreases |cs|
  {
    hide Bare, Taken, PhaseQueue.Slot, PhaseOf, Succeeds;
    var h := PlaceAt(n, depth);
    if cs == [] {
      assert AnswerViews(Looks(cs)) == [];
    } else {
      Onward(n, depth);
      SucceedsWaits(cs[0], h, depth);
      WaitTakes(cs[0].looks, h, depth, Looks(cs[1..]));
      CommandsTake(cs[1..], n + 1, depth);
      forall k: nat | k < |cs|
        ensures Succeeds(cs[k], PlaceAt(n + k, depth)) &&
                TakenFrom(AnswerViews(Looks(cs)), h, depth)[k] == Taken(cs[k], PlaceAt(n + k, depth))
      {
        if k > 0 { assert cs[k] == cs[1..][k - 1] && PlaceAt(n + 1 + (k - 1), depth) == PlaceAt(n + k, depth); }
      }
    }
  }

  lemma SucceedsWaits(c: Command, h: Place, depth: nat)
    requires h.index < depth && Succeeds(c, h)
    ensures Waited(c.looks, h, c.id, depth) == (true, Onwards(h, depth))
    ensures c.looks != [] && Arrived(c.looks[..|c.looks| - 1], h) == None && Arrived(c.looks, h).Some?
    ensures Taken(c, h) == Bare(Arrived(c.looks, h).value)
  {
  }

  /**
   * n commands whose waits all succeed, over any run in which the device posts into a queue of that depth: the driver
   * stands at index n mod depth expecting the phase of lap n div depth, and the k-th success consumed the k-th answer
   * posted, which names the k-th command and reports no error.
   */
  lemma {:induction false} CommandsConsume(depth: nat, blank: Completion, es: seq<PhaseQueue.Event<Completion>>, qs: seq<Queue<Completion>>, cs: seq<Command>)
    requires depth > 0 && PhaseQueue.IsRun(depth, blank, es, qs)
    requires AnswerViews(Looks(cs)) == PollViews(es, qs) && AllSucceed(cs, Place(0, true), depth)
    ensures StandsAfter(cs, Place(0, true), depth) == Place(|cs| % depth, |cs| / depth % 2 == 0)
    ensures var posted := qs[|es|].posted;
            |cs| <= |posted| && forall k: nat :: k < |cs| ==> posted[k].id == cs[k].id && Code(posted[k]) == 0
  {
    hide PhaseQueue.Slot, PhaseOf, Succeeds, PollViews, Taken, AnswerViews, AllSucceed, Code;
    StartsAt(depth);
    LooksTakePosted(depth, blank, es, qs);
    CommandsTake(cs, 0, depth);
    PositionIs(|cs|, depth);
    var posted := qs[|es|].posted;
    forall k: nat | k < |cs| ensures posted[k].id == cs[k].id && Code(posted[k]) == 0 {
      assert posted[k] == Taken(cs[k], PlaceAt(0 + k, depth));
    }
  }

  lemma StartsAt(depth: nat)
    requires depth > 0
    ensures PlaceAt(0, depth) == Place(0, true)
  {
  }

  /**
   * Two commands in a row, the second answered well behind the first one's answer: it succeeds exactly when the first
   * did, or when it happens to be what the first one's answer names. So an answer with an error code, or for another
   * command, stays at the head and fails every later command but the one it names.
   */
  lemma SecondCommand(h: Place, depth: nat, mems: seq<seq<Completion>>, id: int, mems': seq<seq<Completion>>, id': int)
    requires h.index < depth && depth >= 2 && mems' != [] && |mems'[0]| == depth
    requires Arrived(mems, h).Some? && mems'[0][h.index] == Arrived(mems, h).value
    requires var next := Onwards(h, depth);
             PhaseBit(mems'[0][next.index]) == next.phase && Answers(Some(mems'[0][next.index]), id')
    ensures Waited(mems', Waited(mems, h, id, depth).1, id', depth).0
            <==> Waited(mems, h, id, depth).0 || Answers(Arrived(mems, h), id')
  {
    hide PhaseBit, Code;
    ArrivedPhase(mems, h);
  }

  lemma {:induction false} ArrivedPhase(mems: seq<seq<Completion>>, h: Place)
    ensures Arrived(mems, h).Some? ==> PhaseBit(Arrived(mems, h).value) == h.phase
  {
    hide PhaseBit;
    if mems != [] { ArrivedPhase(mems[1..], h); }
  }

  /** The first command of a fresh queue is answered with error code 1. */
  const REFUSED := Completion(1, 3)

  /** Then every later command for another id fails, whatever the device posts behind that answer, and the head stays. */
  lemma {:induction false} BadAnswerBlocks(id: int, mems: seq<seq<Completion>>, depth: nat)
    requires depth > 0 && id != REFUSED.id && forall i :: 0 <= i < |mems| ==> |mems[i]| == depth && mems[i][0] == REFUSED
    ensures Waited([[REFUSED] + seq(depth - 1, _ => Completion(0, 0))], Place(0, true), REFUSED.id, depth) == (false, Place(0, true))
    ensures Waited(mems, Place(0, true), id, depth) == (false, Place(0, true))
  {
    if mems != [] { assert Arrived(mems, Place(0, true)) == Some(REFUSED); }
  }
}
