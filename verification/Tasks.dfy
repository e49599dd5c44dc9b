/** Preemptive switching: the timer interrupt, the context switch on the tasks' own stacks, and the circular task list. */
module Tasks {
  import opened Syntax
  import Words

  const REGS: nat := 15
  const FRAME: nat := 20              // registers and interrupt frame, in words
  const STACK_SIZE: int := 65536

  /** The registers in the order they are popped: r15, r14, ..., rax. */
  datatype Context = Context(regs: seq<int>, rip: int, cs: int, rflags: int, rsp: int, ss: int) {
    ghost predicate Valid() {
      |regs| == REGS
    }

    /** The words of a suspended context, from the saved stack pointer upwards. */
    function Words(): (ws: seq<int>)
      requires |regs| == REGS
      ensures |ws| == FRAME
    {
      regs + [rip, cs, rflags, rsp, ss]
    }
  }

  const RAX: nat := 14
  const RBX: nat := 13

  type Memory = map<int, int>

  function Peek(mem: Memory, a: int): int {
    if a in mem then mem[a] else 0
  }

  function AlignDown(a: int): (r: int)
    ensures r <= a < r + 16 && r % 16 == 0
  {
    a - a % 16
  }

  /** The words ws lie at sp and upwards. */
  ghost predicate FrameAt(mem: Memory, sp: int, ws: seq<int>) {
    forall i :: 0 <= i < |ws| ==> Peek(mem, sp + 8 * i) == ws[i]
  }

  /** The n words at sp. */
  function WordsAt(mem: Memory, sp: int, n: nat): seq<int> {
    seq(n, i requires 0 <= i < n => Peek(mem, sp + 8 * i))
  }

  /** mem and mem' agree from lo to hi. */
  ghost predicate Same(mem: Memory, mem': Memory, lo: int, hi: int) {
    forall a :: lo <= a < hi ==> Peek(mem, a) == Peek(mem', a)
  }

  lemma FrameStays(mem: Memory, mem': Memory, sp: int, ws: seq<int>, lo: int, hi: int)
    requires FrameAt(mem, sp, ws) && Same(mem, mem', lo, hi) && lo <= sp && sp + 8 * |ws| <= hi
    ensures FrameAt(mem', sp, ws)
  {
    forall i | 0 <= i < |ws| ensures Peek(mem', sp + 8 * i) == ws[i] { assert Peek(mem, sp + 8 * i) == ws[i]; }
  }

  class Task {
    var rsp: int
    var next: Task?
    const id: nat
    const low: int                    // its stack: from low to top
    const top: int

    constructor (id: nat, low: int, top: int)
      ensures this.id == id && this.low == low && this.top == top && next == null
    {
      this.id, this.low, this.top := id, low, top;
      rsp, next := 0, null;
    }
  }

  /** One word below sp changes. */
  function Pushed(mem: Memory, sp: int, v: int): Memory {
    mem[sp - 8 := v]
  }

  /** The words of a frame pushed from the last to the first. */
  function PushAll(mem: Memory, sp: int, ws: seq<int>): Memory
    decreases |ws|
  {
    if ws == [] then mem else PushAll(Pushed(mem, sp, ws[|ws| - 1]), sp - 8, ws[..|ws| - 1])
  }

  lemma {:induction false} PushAllFrame(mem: Memory, sp: int, ws: seq<int>)
    ensures var m := PushAll(mem, sp, ws);
            FrameAt(m, sp - 8 * |ws|, ws) && forall a :: a < sp - 8 * |ws| || a >= sp ==> Peek(m, a) == Peek(mem, a)
    decreases |ws|
  {
    if ws != [] {
      var n := |ws| - 1;
      var m1 := Pushed(mem, sp, ws[n]);
      PushAllFrame(m1, sp - 8, ws[..n]);
      var m := PushAll(mem, sp, ws);
      forall i | 0 <= i <= n ensures Peek(m, sp - 8 * |ws| + 8 * i) == ws[i] {
        if i < n { assert ws[..n][i] == ws[i]; } else { assert sp - 8 * |ws| + 8 * i == sp - 8; }
      }
    }
  }

  lemma {:induction false} PushAllSplit(mem: Memory, sp: int, a: seq<int>, b: seq<int>)
    ensures PushAll(mem, sp, a + b) == PushAll(PushAll(mem, sp, b), sp - 8 * |b|, a)
    decreases |b|
  {
    if b == [] {
      assert a + b == a;
    } else {
      var n := |b| - 1;
      assert (a + b)[..|a + b| - 1] == a + b[..n] && (a + b)[|a + b| - 1] == b[n];
      PushAllSplit(Pushed(mem, sp, b[n]), sp - 8, a, b[..n]);
    }
  }

  lemma PushAllFive(mem: Memory, sp: int, a: int, b: int, c: int, d: int, e: int)
    ensures PushAll(mem, sp, [a, b, c, d, e]) ==
            Pushed(Pushed(Pushed(Pushed(Pushed(mem, sp, e), sp - 8, d), sp - 16, c), sp - 24, b), sp - 32, a)
  {
    hide PushAll, Pushed;
    var m4 := Pushed(mem, sp, e);
    var m3 := Pushed(m4, sp - 8, d);
    var m2 := Pushed(m3, sp - 16, c);
    PushAllLast(mem, sp, [a, b, c, d], e);
    PushAllLast(m4, sp - 8, [a, b, c], d);
    PushAllLast(m3, sp - 16, [a, b], c);
    PushAllLast(m2, sp - 24, [a], b);
    PushAllLast(Pushed(m2, sp - 24, b), sp - 32, [], a);
    PushAllNone(Pushed(Pushed(m2, sp - 24, b), sp - 32, a), sp - 40);
    assert [a, b, c, d] + [e] == [a, b, c, d, e] && [a, b, c] + [d] == [a, b, c, d] && [a, b] + [c] == [a, b, c] && [a] + [b] == [a, b];
    assert [] + [a] == [a];
  }

  lemma PushAllNone(mem: Memory, sp: int)
    ensures PushAll(mem, sp, []) == mem
  {
  }

  lemma PushAllLast(mem: Memory, sp: int, ws: seq<int>, v: int)
    ensures PushAll(mem, sp, ws + [v]) == PushAll(Pushed(mem, sp, v), sp - 8, ws)
  {
    assert (ws + [v])[..|ws + [v]| - 1] == ws;
  }

  /** What a new task resumes as: entry, interrupts enabled, all registers zero, the whole stack free. */
  function Initial(entry: int, top: int): Context {
    Context(seq(REGS, _ => 0), entry, 0x08, 0x202, top, 0x10)
  }

  /** At entry in the kernel's segments, interrupts enabled, registers zero, the stack free from its top. */
  predicate Begins(c: Context, entry: int, top: int) {
    c.rip == entry && c.rsp == top && c.regs == seq(15, _ => 0) && c.rflags / 512 % 2 == 1 && (c.cs, c.ss) == (8, 16)
  }

  lemma InitialBegins(entry: int, top: int)
    ensures Begins(Initial(entry, top), entry, top)
  {
  }

  function NextOf(i: nat, n: nat): nat {
    if i + 1 >= n then 0 else i + 1
  }

  /** What a tick with no task resumes: r15 ends in r11, ..., rdi in rax, rsi in rip, ..., rax in ss. */
  function Misread(c: Context): Context
    requires |c.regs| == REGS
  {
    var r := c.regs;
    Context(r[..4] + r[..4] + [r[8]] + r[4..10], r[10], r[11], r[12], r[13], r[14])
  }

  /** The interrupted code survives a tick with no task only by coincidence. */
  lemma MisreadExact(c: Context)
    requires c.Valid()
    ensures Misread(c) == c <==>
            c.regs[4..8] == c.regs[..4] && c.regs[9..15] == c.regs[4..10] &&
            [c.rip, c.cs, c.rflags, c.rsp, c.ss] == c.regs[10..15]
  {
    var r, m := c.regs, Misread(c).regs;
    assert m[..4] == r[..4] && m[4..8] == r[..4] && m[8] == r[8] && m[9..15] == r[4..10];
    assert r == r[..4] + r[4..8] + [r[8]] + r[9..15];
    var f := [c.rip, c.cs, c.rflags, c.rsp, c.ss];
    assert f == r[10..15] <==> c.rip == r[10] && c.cs == r[11] && c.rflags == r[12] && c.rsp == r[13] && c.ss == r[14] by {
      if f == r[10..15] { assert f[0] == r[10..15][0] && f[1] == r[10..15][1] && f[2] == r[10..15][2] && f[3] == r[10..15][3] && f[4] == r[10..15][4]; }
    }
  }

  /** Code at address 1 with all registers 0 goes on at address 0. */
  lemma MisreadLost()
    ensures var c := Context(seq(REGS, _ => 0), 1, 0x08, 0x202, 0x1000, 0x10); c.Valid() && Misread(c).rip == 0 && Misread(c) != c
  {
  }

  lemma MisreadWords(mem: Memory, sp: int, c: Context)
    requires c.Valid() && FrameAt(mem, sp, c.Words())
    ensures WordsAt(mem, sp, 4) == c.regs[..4] && WordsAt(mem, sp + 32, 6) == c.regs[4..10]
    ensures forall i {:trigger c.regs[i]} :: 0 <= i < REGS ==> Peek(mem, sp + 8 * i) == c.regs[i]
  {
    forall i {:trigger c.regs[i]} | 0 <= i < REGS ensures Peek(mem, sp + 8 * i) == c.regs[i] {
      assert c.Words()[i] == c.regs[i];
    }
  }

  // ----- many ticks -----

  datatype Schedule = Schedule(saved: seq<Context>, cur: nat, started: bool) {
    function Running(): Context
      requires cur < |saved|
    {
      saved[cur]
    }
  }

  /** A tick that interrupts context c. */
  function Ticked(s: Schedule, c: Context): (r: Schedule)
    requires s.cur < |s.saved|
    ensures r.cur < |r.saved| == |s.saved|
  {
    Schedule(if s.started then s.saved[s.cur := c] else s.saved, NextOf(s.cur, |s.saved|), true)
  }

  /** Ticks that interrupt the contexts cs, in order. */
  function After(s: Schedule, cs: seq<Context>): (r: Schedule)
    requires s.cur < |s.saved|
    ensures r.cur < |r.saved| == |s.saved|
  {
    if cs == [] then s else Ticked(After(s, cs[..|cs| - 1]), cs[|cs| - 1])
  }

  lemma NextModulo(k: nat, n: nat)
    requires n > 0
    ensures k % n < n && NextOf(k % n, n) == (k + 1) % n
  {
    var q, i := k / n, k % n;
    if i + 1 == n {
      assert (q + 1) * n == q * n + n;
      Words.DivModUnique(k + 1, n, q + 1, 0);
    } else {
      Words.DivModUnique(k + 1, n, q, i + 1);
    }
  }

  /** Tick t interrupts task t % n, and until it is resumed at tick t + n its context is kept; before that, the initial one. */
  lemma {:induction false} KeepsContexts(s: Schedule, cs: seq<Context>, t: nat)
    requires s.saved != [] && s.cur == 0 && !s.started && |cs| <= t < |cs| + |s.saved|
    ensures After(s, cs).cur == |cs| % |s.saved| && After(s, cs).started == (cs != [])
    ensures After(s, cs).saved[t % |s.saved|] == Kept(s, cs, t)
    decreases |cs|
  {
    var n, k := |s.saved|, |cs|;
    if k == 0 {
      Words.DivModUnique(0, n, 0, 0);
    } else {
      var before := cs[..k - 1];
      NextModulo(k - 1, n);
      if t < k + n - 1 {
        KeepsContexts(s, before, t);
        DifferentTasks(k - 1, t, n);
      } else {
        KeepsContexts(s, before, k - 1);
        SameTask(k - 1, n);
      }
    }
  }

  function Kept(s: Schedule, cs: seq<Context>, t: nat): Context
    requires s.saved != [] && t < |cs| + |s.saved|
  {
    var n := |s.saved|;
    if t > n then cs[t - n] else s.saved[t % n]
  }

  lemma SameTask(k: nat, n: nat)
    requires n > 0
    ensures (k + n) % n == k % n
  {
    Words.DivModUnique(k + n, n, k / n + 1, k % n);
  }

  lemma DifferentTasks(k: nat, t: nat, n: nat)
    requires k < t < k + n
    ensures k % n != t % n
  {
    var q := t / n - k / n;
    assert t - k == q * n + (t % n - k % n);
    assert q >= 1 ==> q * n >= n;
    assert q <= 0 ==> q * n <= 0;
  }

  /** Round robin: tick t resumes task (t + 1) % n, as it was when tick t + 1 - n interrupted it, or, the first time, as created. */
  lemma RoundRobin(s: Schedule, cs: seq<Context>)
    requires s.saved != [] && s.cur == 0 && !s.started && cs != []
    ensures var r, n, k := After(s, cs), |s.saved|, |cs|;
            r.cur == k % n && r.Running() == if k > n then cs[k - n] else s.saved[k % n]
  {
    KeepsContexts(s, cs, |cs|);
  }

  /** Code that runs between two ticks: from registers and memory to registers and memory. */
  type Code = (Context, Memory) -> (Context, Memory)

  /** Who runs after k ticks. */
  function Turn(cur: nat, k: nat, n: nat): nat {
    if k == 0 then cur else NextOf(Turn(cur, k - 1, n), n)
  }

  /** Code that keeps off every stack but the running task's, and leaves 22 words of that stack free; None runs before the first tick. */
  ghost predicate Behaves(code: Code, order: seq<Task>, running: Option<nat>) {
    forall c: Context, m: Memory :: c.Valid() ==> Behaved(order, running, m, code(c, m).0, code(c, m).1)
  }

  ghost predicate Behaved(order: seq<Task>, running: Option<nat>, m: Memory, c': Context, m': Memory) {
    var sp := AlignDown(c'.rsp);
    c'.Valid() &&
    (forall i :: 0 <= i < |order| && running != Some(i) ==> Same(m, m', order[i].low, order[i].top)) &&
    match running
    case Some(t) => t < |order| ==> order[t].low <= sp - 176 && sp <= order[t].top
    case None => forall i :: 0 <= i < |order| ==> sp <= order[i].low || order[i].top <= sp - 176
  }

  class Kernel {
    var mem: Memory
    var cpu: Context
    var current: Task?
    var list: Task?
    var started: bool
    var nextId: nat
    var ticks: nat
    ghost var order: seq<Task>        // the circle, in order of creation
    ghost var cur: nat                // where current stands in it
    ghost var saved: seq<Context>     // what each suspended task will resume as

    /** The list is a circle through all tasks, and current stands in it. */
    ghost predicate Linked()
      reads `order, `saved, `list, `current, `cur, order`next
      ensures Linked() ==> |saved| == |order|
    {
      |saved| == |order| &&
      (if order == [] then list == null && current == null else list == order[0] && cur < |order| && current == order[cur]) &&
      (forall i, j :: 0 <= i < j < |order| ==> order[i] != order[j]) &&
      forall i :: 0 <= i < |order| ==> order[i].next == order[NextOf(i, |order|)]
    }

    /** No two stacks overlap. */
    ghost predicate Apart()
      reads this
    {
      forall i, j :: 0 <= i < |order| && 0 <= j < |order| && i != j ==> order[i].top <= order[j].low || order[j].top <= order[i].low
    }

    ghost predicate Suspended(i: int)
      reads this
    {
      0 <= i < |order| && (i != cur || !started)
    }

    /** Every suspended task's context lies on its own stack. */
    ghost predicate Frames()
      requires |saved| == |order|
      reads this, order
    {
      forall i :: Suspended(i) ==>
        saved[i].Valid() && FrameAt(mem, order[i].rsp, saved[i].Words()) &&
        order[i].low <= order[i].rsp && order[i].rsp + 8 * FRAME <= order[i].top
    }

    ghost predicate Valid()
      reads this, order
    {
      cpu.Valid() && Linked() && Apart() && Frames()
    }

    /** The 22 words an interrupt pushes fit on the running stack, which before the first tick is no task's. */
    ghost predicate Room()
      reads this
    {
      var sp := AlignDown(cpu.rsp);
      if started && order != [] then cur < |order| && order[cur].low <= sp - 176 && sp <= order[cur].top
      else forall i :: 0 <= i < |order| ==> sp <= order[i].low || order[i].top <= sp - 176
    }

    constructor (cpu: Context, mem: Memory)
      requires cpu.Valid()
      ensures Valid() && order == [] && !started && this.cpu == cpu && this.mem == mem
    {
      this.cpu, this.mem := cpu, mem;
      current, list, started, nextId, ticks := null, null, false, 0, 0;
      order, cur, saved := [], 0, [];
    }

    method Push(v: int)
      modifies this`cpu, this`mem
      ensures cpu == old(cpu).(rsp := old(cpu.rsp) - 8) && mem == Pushed(old(mem), old(cpu.rsp), v)
    {
      cpu := cpu.(rsp := cpu.rsp - 8);
      mem := mem[cpu.rsp := v];
    }

    method Pop() returns (v: int)
      modifies this`cpu
      ensures v == Peek(mem, old(cpu.rsp)) && cpu == old(cpu).(rsp := old(cpu.rsp) + 8)
    {
      v := Peek(mem, cpu.rsp);
      cpu := cpu.(rsp := cpu.rsp + 8);
    }

    /** The processor aligns the stack and pushes ss, rsp, rflags, cs and rip. */
    method Interrupt()
      modifies this`cpu, this`mem
      ensures var c := old(cpu);
              cpu == c.(rsp := AlignDown(c.rsp) - 40) && mem == PushAll(old(mem), AlignDown(c.rsp), [c.rip, c.cs, c.rflags, c.rsp, c.ss])
    {
      var c := cpu;
      cpu := cpu.(rsp := AlignDown(cpu.rsp));
      Push(c.ss);
      Push(c.rsp);
      Push(c.rflags);
      Push(c.cs);
      Push(c.rip);
      PushAllFive(old(mem), AlignDown(c.rsp), c.rip, c.cs, c.rflags, c.rsp, c.ss);
    }

    /** The handler keeps rax and rbx on the stack while it acknowledges the interrupt and counts. */
    method Acknowledge()
      requires cpu.Valid()
      modifies this`cpu, this`mem, this`ticks
      ensures cpu == old(cpu) && forall a :: a < cpu.rsp - 16 || a >= cpu.rsp ==> Peek(mem, a) == Peek(old(mem), a)
      ensures ticks == old(ticks) + 1
    {
      var c := cpu;
      Push(cpu.regs[RAX]);
      Push(cpu.regs[RBX]);
      cpu := cpu.(regs := cpu.regs[RBX := 0][RAX := 0x20]);
      ticks := ticks + 1;
      var rbx := Pop();
      var rax := Pop();
      cpu := cpu.(regs := cpu.regs[RBX := rbx][RAX := rax]);
      assert cpu.regs == c.regs;
    }

    /** push rax ... push r15 */
    method SaveRegs()
      requires cpu.Valid()
      modifies this`cpu, this`mem
      ensures cpu == old(cpu).(rsp := old(cpu.rsp) - 8 * REGS) && mem == PushAll(old(mem), old(cpu.rsp), old(cpu.regs))
    {
      var n := REGS;
      ghost var c := cpu;
      assert c.regs[..REGS] == c.regs;
      while n > 0
        invariant 0 <= n <= REGS && cpu == c.(rsp := c.rsp - 8 * (REGS - n))
        invariant PushAll(mem, cpu.rsp, c.regs[..n]) == PushAll(old(mem), c.rsp, c.regs)
      {
        assert c.regs[..n][..n - 1] == c.regs[..n - 1];
        Push(cpu.regs[n - 1]);
        n := n - 1;
      }
    }

    /** Pops rip, cs, rflags, rsp and ss. */
    method Iretq()
      modifies this`cpu
      ensures cpu == (var m, c, sp := mem, old(cpu), old(cpu.rsp);
                      Context(c.regs, Peek(m, sp), Peek(m, sp + 8), Peek(m, sp + 16), Peek(m, sp + 24), Peek(m, sp + 32)))
    {
      var rip := Pop();
      var cs := Pop();
      var rflags := Pop();
      var rsp := Pop();
      var ss := Pop();
      cpu := Context(cpu.regs, rip, cs, rflags, rsp, ss);
    }

    /** pop r15 ... pop rax; iretq */
    method Resume(ghost c: Context)
      requires cpu.Valid() && c.Valid() && FrameAt(mem, cpu.rsp, c.Words())
      modifies this`cpu
      ensures cpu == c
    {
      ghost var sp := cpu.rsp;
      for i := 0 to REGS
        invariant |cpu.regs| == REGS && cpu.rsp == sp + 8 * i && cpu.regs[..i] == c.regs[..i]
      {
        assert Peek(mem, sp + 8 * i) == c.Words()[i];
        var v := Pop();
        cpu := cpu.(regs := cpu.regs[i := v]);
      }
      assert Peek(mem, sp + 8 * 15) == c.Words()[15] && Peek(mem, sp + 8 * 16) == c.Words()[16] && Peek(mem, sp + 8 * 17) == c.Words()[17];
      assert Peek(mem, sp + 8 * 18) == c.Words()[18] && Peek(mem, sp + 8 * 19) == c.Words()[19];
      Iretq();
      assert c.regs == c.regs[..REGS] && cpu.regs == cpu.regs[..REGS];
    }

    /** Everything pushed: the whole context lies below the aligned stack pointer, and nothing else has changed. */
    method Enter()
      requires cpu.Valid()
      modifies this`cpu, this`mem, this`ticks
      ensures cpu == old(cpu).(rsp := AlignDown(old(cpu.rsp)) - 8 * FRAME) && FrameAt(mem, cpu.rsp, old(cpu).Words())
      ensures ticks == old(ticks) + 1
      ensures forall a :: a < AlignDown(old(cpu.rsp)) - 176 || a >= AlignDown(old(cpu.rsp)) ==> Peek(mem, a) == Peek(old(mem), a)
    {
      hide PushAll, FrameAt;
      ghost var c, sp := cpu, AlignDown(cpu.rsp);
      ghost var tail := [c.rip, c.cs, c.rflags, c.rsp, c.ss];
      Interrupt();
      ghost var m1 := mem;
      PushAllFrame(old(mem), sp, tail);
      Acknowledge();
      ghost var m2 := mem;
      SaveRegs();
      PushAllFrame(m2, sp - 40, c.regs);
      WholeFrame(m1, m2, mem, sp, c.regs, tail);
    }

    /** Task i can be resumed: its context lies on its stack. */
    ghost predicate Resting(i: int)
      requires 0 <= i < |order| == |saved|
      reads this, order[i]
    {
      saved[i].Valid() && FrameAt(mem, order[i].rsp, saved[i].Words()) &&
      order[i].low <= order[i].rsp && order[i].rsp + 8 * FRAME <= order[i].top
    }

    /** Entering disturbs no suspended task: the pushes stay on the running stack. */
    method EnterApart()
      requires Valid() && order != [] && Room()
      modifies this`cpu, this`mem, this`ticks
      ensures cpu.Valid() && cpu.rsp == AlignDown(old(cpu.rsp)) - 8 * FRAME && FrameAt(mem, cpu.rsp, old(cpu).Words())
      ensures ticks == old(ticks) + 1
      ensures forall i :: Suspended(i) ==> Resting(i)
    {
      hide FrameAt, AlignDown;
      ghost var mem0, sp := mem, AlignDown(cpu.rsp);
      assert forall i :: Suspended(i) ==> Resting(i);
      label before:
      Enter();
      forall i | Suspended(i) ensures Resting(i) {
        assert old@before(Suspended(i) && Resting(i));
        assert order[i].top <= sp - 176 || sp <= order[i].low;
        FrameStays(mem0, mem, order[i].rsp, saved[i].Words(), order[i].low, order[i].top);
      }
    }

    /** The tick up to the point where the stack pointer is stored: all tasks rest. */
    method Save()
      requires Valid() && order != [] && Room()
      modifies this`cpu, this`mem, this`ticks, this`started, this`saved, order
      ensures cpu.Valid() && Linked() && Apart() && started && ticks == old(ticks) + 1
      ensures saved == if old(started) then old(saved)[old(cur) := old(cpu)] else old(saved)
      ensures forall i :: 0 <= i < |order| ==> Resting(i)
    {
      hide FrameAt, AlignDown;
      ghost var c := cpu;
      EnterApart();
      if !started {
        label before:
        started := true;
        forall i | 0 <= i < |order| ensures Resting(i) { assert old@before(Suspended(i) && Resting(i)); }
      } else {
        assert forall i :: 0 <= i < |order| && i != cur ==> Suspended(i);
        StoreRsp(c);
      }
    }

    /** task->rsp = rsp, for the running task. */
    method StoreRsp(ghost c: Context)
      requires cpu.Valid() && c.Valid() && Linked() && Apart() && started && order != []
      requires forall i :: 0 <= i < |order| && i != cur ==> Resting(i)
      requires FrameAt(mem, cpu.rsp, c.Words()) && order[cur].low <= cpu.rsp && cpu.rsp + 8 * FRAME <= order[cur].top
      modifies this`saved, current`rsp
      ensures Linked() && Apart() && saved == old(saved)[cur := c]
      ensures forall i :: 0 <= i < |order| ==> Resting(i)
    {
      hide FrameAt;
      label before:
      current.rsp := cpu.rsp;
      saved := saved[cur := c];
      forall i | 0 <= i < |order| ensures Resting(i) {
        if i != cur { assert old@before(Resting(i)) && order[i] != current; }
      }
    }

    /** current = current->next, and its stack. */
    method Advance()
      requires cpu.Valid() && Linked() && started && order != [] && forall i :: 0 <= i < |order| ==> Resting(i)
      modifies this`cpu, this`current, this`cur
      ensures Linked() && cur == NextOf(old(cur), |order|) && cpu.Valid() && cpu.rsp == order[cur].rsp
      ensures forall i :: 0 <= i < |order| ==> Resting(i)
    {
      hide FrameAt;
      label before:
      current := current.next;
      cur := NextOf(cur, |order|);
      cpu := cpu.(rsp := current.rsp);
      forall i | 0 <= i < |order| ensures Resting(i) { assert old@before(Resting(i)); }
    }

    /** The next task's stack, registers, iretq. */
    method Load()
      requires cpu.Valid() && Linked() && Apart() && started && order != []
      requires forall i :: 0 <= i < |order| ==> Resting(i)
      modifies this`cpu, this`current, this`cur
      ensures Valid() && cur == NextOf(old(cur), |order|) && cpu == saved[cur]
    {
      hide FrameAt;
      Advance();
      assert Resting(cur);
      label loaded:
      Resume(saved[cur]);
      forall i | Suspended(i) ensures Resting(i) { assert old@loaded(Resting(i)); }
    }

    /** Who is running and what the others will resume as. */
    ghost function Now(): Schedule
      reads this
    {
      Schedule(saved, cur, started)
    }

    /** A timer tick: save the running task, unless none runs yet, and resume the next in the circle. */
    method Tick()
      requires Valid() && Room()
      modifies this`cpu, this`mem, this`ticks, this`started, this`saved, this`current, this`cur, order
      ensures Valid() && started
      ensures order != [] ==> Now() == Ticked(old(Now()), old(cpu)) && cpu == Now().Running()
      ensures order == [] ==> cpu == Misread(old(cpu))
      ensures ticks == old(ticks) + 1
    {
      hide Room, Resting, Misread, NextOf;
      if current == null {
        Unscheduled();
      } else {
        Save();
        Load();
      }
    }

    /** Without a task only ten of the fifteen pushed registers are popped, and the rest is taken for the interrupt frame. */
    method Unscheduled()
      requires Valid() && order == []
      modifies this`cpu, this`mem, this`ticks, this`started
      ensures Valid() && started && cpu == Misread(old(cpu)) && ticks == old(ticks) + 1
    {
      hide FrameAt, AlignDown, Linked, WordsAt, Peek, Context.Words;
      ghost var c := cpu;
      Enter();
      started := true;
      MisreadWords(mem, cpu.rsp, c);
      PopTen();
      Iretq();
    }

    /** pop r11 ... pop r8, pop rdi ... pop rax */
    method PopTen()
      requires cpu.Valid()
      modifies this`cpu
      ensures var c, sp := old(cpu), old(cpu.rsp);
              cpu == c.(rsp := sp + 80, regs := c.regs[..4] + WordsAt(mem, sp, 4) + [c.regs[8]] + WordsAt(mem, sp + 32, 6))
    {
      hide Peek;
      var r11 := Pop();
      var r10 := Pop();
      var r9 := Pop();
      var r8 := Pop();
      var rdi := Pop();
      var rsi := Pop();
      var rdx := Pop();
      var rcx := Pop();
      var rbx := Pop();
      var rax := Pop();
      cpu := cpu.(regs := cpu.regs[..4] + [r11, r10, r9, r8, cpu.regs[8], rdi, rsi, rdx, rcx, rbx, rax]);
    }

    // ----- creating tasks -----

    /** The frame of a new task at the top of its stack, and nothing else. */
    method BuildFrame(entry: int, top: int) returns (sp: int)
      modifies this`mem
      ensures sp == top - 8 * FRAME && FrameAt(mem, sp, Initial(entry, top).Words())
      ensures forall a :: a < sp || a >= top ==> Peek(mem, a) == Peek(old(mem), a)
    {
      hide PushAll, FrameAt;
      ghost var m, ws := mem, Initial(entry, top).Words();
      mem := mem[top - 8 := 0x10][top - 16 := top][top - 24 := 0x202][top - 32 := 0x08][top - 40 := entry];
      sp := top - 40;
      PushAllFive(m, top, entry, 0x08, 0x202, top, 0x10);
      ghost var zeros := Initial(entry, top).regs;
      assert ws == zeros + [entry, 0x08, 0x202, top, 0x10];
      PushAllSplit(m, top, zeros, [entry, 0x08, 0x202, top, 0x10]);
      var n := REGS;
      assert zeros[..REGS] == zeros;
      while n > 0
        invariant 0 <= n <= REGS && sp == top - 40 - 8 * (REGS - n)
        invariant PushAll(mem, sp, zeros[..n]) == PushAll(m, top, ws)
      {
        assert zeros[..n] == zeros[..n - 1] + [0];
        PushAllLast(mem, sp, zeros[..n - 1], 0);
        sp := sp - 8;
        mem := mem[sp := 0];
        n := n - 1;
      }
      PushAllNone(mem, sp);
      PushAllFrame(m, top, ws);
    }

    /** The last task of the circle. */
    method LastTask() returns (t: Task)
      requires Linked() && order != []
      ensures t == order[|order| - 1]
    {
      t := list;
      ghost var i := 0;
      while t.next != list
        invariant i < |order| && t == order[i]
        decreases |order| - i
      {
        t := t.next;
        i := i + 1;
      }
    }

    /** The end of the circle: the new task points to the head, and the last one, or itself, to the new task. */
    method Link(t: Task, ghost c: Context)
      requires Linked() && t !in order
      modifies this`current, this`list, this`order, this`saved, this`cur, order`next, t`next
      ensures Linked() && order == old(order) + [t] && saved == old(saved) + [c]
      ensures cur == if old(order) == [] then 0 else old(cur)
    {
      if list == null {
        list := t;
        t.next := t;
        current := t;
        cur := 0;
      } else {
        var last := LastTask();
        last.next := t;
        t.next := list;
      }
      order := order + [t];
      saved := saved + [c];
    }

    /** The new task rests on its own stack. */
    method Join(t: Task, ghost c: Context)
      requires Valid() && t !in order && c.Valid()
      requires forall i :: 0 <= i < |order| ==> t.top <= order[i].low || order[i].top <= t.low
      requires FrameAt(mem, t.rsp, c.Words()) && t.low <= t.rsp && t.rsp + 8 * FRAME <= t.top
      modifies this`current, this`list, this`order, this`saved, this`cur, order`next, t`next
      ensures Valid() && order == old(order) + [t] && saved == old(saved) + [c]
      ensures cur == if old(order) == [] then 0 else old(cur)
    {
      hide FrameAt, Linked, Context.Words, NextOf;
      label before:
      Link(t, c);
      forall i | Suspended(i) ensures Resting(i) {
        if i < |order| - 1 { assert old@before(Suspended(i) && Resting(i)); }
      }
    }

    /** A task on freshly allocated memory joins the end of the circle; without memory there is none. */
    method Create(entry: int, raw: Option<int>) returns (t: Task?)
      requires Valid()
      requires raw.Some? ==> forall i :: 0 <= i < |order| ==> raw.value + STACK_SIZE + 32 <= order[i].low || order[i].top <= raw.value
      modifies this`mem, this`nextId, this`current, this`list, this`order, this`saved, this`cur, order`next
      ensures Valid() && cpu == old(cpu)
      ensures raw.None? ==> t == null && order == old(order) && saved == old(saved)
      ensures raw.Some? ==> t != null && fresh(t) && order == old(order) + [t] && saved == old(saved) + [Initial(entry, t.top)]
      ensures raw.Some? ==> (cur == if old(order) == [] then 0 else old(cur)) && t.id == old(nextId) && nextId == old(nextId) + 1
      ensures raw.Some? ==> t.low == raw.value && raw.value + 65536 - 16 < t.top <= raw.value + 65536 && t.top % 16 == 0
      ensures raw.Some? ==> Begins(saved[|order| - 1], entry, t.top)
      ensures raw.None? ==> nextId == old(nextId)
      ensures forall a :: raw.None? || a < raw.value || a >= raw.value + 65536 ==> Peek(mem, a) == Peek(old(mem), a)
    {
      hide FrameAt, AlignDown, Linked, Context.Words, Initial, Begins, Peek;
      if raw.None? { return null; }
      var top := AlignDown(raw.value + STACK_SIZE);
      InitialBegins(entry, top);
      t := Place(nextId, entry, raw.value, top);
      nextId := nextId + 1;
    }

    /** The new task on its stack from low to top, at the end of the circle. */
    method Place(id: nat, entry: int, low: int, top: int) returns (t: Task)
      requires Valid() && forall i :: 0 <= i < |order| ==> top <= order[i].low || order[i].top <= low
      requires low <= top - 8 * FRAME
      modifies this`mem, this`current, this`list, this`order, this`saved, this`cur, order`next
      ensures Valid() && fresh(t) && order == old(order) + [t] && saved == old(saved) + [Initial(entry, top)]
      ensures cur == (if old(order) == [] then 0 else old(cur)) && t.id == id && t.low == low && t.top == top
      ensures forall a :: a < low || a >= top ==> Peek(mem, a) == Peek(old(mem), a)
    {
      hide FrameAt, AlignDown, Linked, Context.Words, Peek;
      t := new Task(id, low, top);
      t.rsp := Prepare(entry, low, top);
      Join(t, Initial(entry, top));
    }

    /** The frame of a new task, on memory no task uses. */
    method Prepare(entry: int, low: int, top: int) returns (sp: int)
      requires Valid() && forall i :: 0 <= i < |order| ==> top <= order[i].low || order[i].top <= low
      requires low <= top - 8 * FRAME
      modifies this`mem
      ensures Valid() && sp == top - 8 * FRAME && FrameAt(mem, sp, Initial(entry, top).Words())
      ensures forall a :: a < low || a >= top ==> Peek(mem, a) == Peek(old(mem), a)
    {
      hide FrameAt, Initial, Linked;
      ghost var m := mem;
      label before:
      sp := BuildFrame(entry, top);
      forall i | Suspended(i) ensures Resting(i) {
        assert old@before(Resting(i));
        FrameStays(m, mem, order[i].rsp, saved[i].Words(), order[i].low, order[i].top);
      }
    }

    // ----- running -----

    /** Between ticks the running code may change its registers and any memory but the stacks of the others. */
    method Run(c: Context, m: Memory)
      requires Valid() && c.Valid() && forall i :: Suspended(i) ==> Same(mem, m, order[i].low, order[i].top)
      modifies this`cpu, this`mem
      ensures Valid() && cpu == c && mem == m
    {
      hide FrameAt, Same;
      forall i | Suspended(i) ensures FrameAt(m, order[i].rsp, saved[i].Words()) {
        FrameStays(mem, m, order[i].rsp, saved[i].Words(), order[i].low, order[i].top);
      }
      cpu, mem := c, m;
    }

    /** Who runs now: a task, or code that is none. */
    ghost function Running(): Option<nat>
      reads this
    {
      if started then Some(cur) else None
    }

    /** One piece of code up to its tick. */
    method RunTick(code: Code) returns (ghost c: Context, ghost m: Memory)
      requires Valid() && order != [] && Behaves(code, order, Running())
      modifies this`cpu, this`mem, this`ticks, this`started, this`saved, this`current, this`cur, order
      ensures Valid() && started && ticks == old(ticks) + 1 && m == old(mem) && c == code(old(cpu), m).0
      ensures Now() == Ticked(old(Now()), c) && cpu == Now().Running()
    {
      hide Same, AlignDown, Frames, Apart, Ticked;
      m := mem;
      var next := code(cpu, mem);
      c := next.0;
      assert Behaved(order, Running(), mem, next.0, next.1);
      Run(next.0, next.1);
      assert Room();
      Tick();
    }

    /**
     * Many ticks: whatever the pieces of code between them do, as long as each keeps off the other stacks, the kernel goes
     * through exactly the schedule of the contexts it interrupts, and each piece starts from the context that schedule
     * resumes. From a fresh circle of n tasks that is round robin: after k ticks task k % n goes on where its last piece of
     * code, the n-th last, was interrupted.
     */
    method RunTicks(codes: seq<Code>) returns (ghost cs: seq<Context>, ghost ms: seq<Memory>)
      requires Valid() && order != []
      requires forall i: nat :: i < |codes| ==>
                 Behaves(codes[i], order, if started || i > 0 then Some(Turn(cur, i, |order|)) else None)
      modifies this`cpu, this`mem, this`ticks, this`started, this`saved, this`current, this`cur, order
      ensures Valid() && |cs| == |codes| && Now() == After(old(Now()), cs) && ticks == old(ticks) + |codes|
      ensures Ran(old(Now()), old(cpu), codes, cs, ms)
      ensures codes != [] ==> cpu == Now().Running()
      ensures var n, k := |order|, |codes|;
              codes != [] && old(cur) == 0 && !old(started) ==> cpu == if k > n then cs[k - n] else old(saved)[k % n]
    {
      hide Behaves, Apart, Frames, Ticked, Ran, After, NextOf;
      cs, ms := [], [];
      ghost var s, c0 := Now(), cpu;
      NoneRan(s, c0, codes);
      for i := 0 to |codes|
        invariant Valid() && order == old(order) && |saved| == |order| && s.cur < |s.saved|
        invariant |cs| == i && ticks == old(ticks) + i && Now() == After(s, cs) && Ran(s, c0, codes, cs, ms)
        invariant started == (s.started || i > 0) && cur == Turn(s.cur, i, |order|)
        invariant cpu == Start(s, c0, cs)
      {
        ghost var c, m := RunTick(codes[i]);
        RanMore(s, c0, codes, cs, ms, c, m);
        cs, ms := cs + [c], ms + [m];
      }
      if codes != [] && old(cur) == 0 && !old(started) { RoundRobin(s, cs); }
    }
  }

  /** The context in which the code after the ticks that interrupted cs begins. */
  function Start(s: Schedule, c0: Context, cs: seq<Context>): Context
    requires s.cur < |s.saved|
  {
    if cs == [] then c0 else After(s, cs).Running()
  }

  /** Each piece of code began where the schedule resumed it, on some memory, and was interrupted where it ended. */
  ghost predicate Ran(s: Schedule, c0: Context, codes: seq<Code>, cs: seq<Context>, ms: seq<Memory>)
    requires s.cur < |s.saved|
  {
    |cs| == |ms| <= |codes| && forall i: nat {:trigger cs[i]} :: i < |cs| ==> cs[i] == codes[i](Start(s, c0, cs[..i]), ms[i]).0
  }

  lemma NoneRan(s: Schedule, c0: Context, codes: seq<Code>)
    requires s.cur < |s.saved|
    ensures Ran(s, c0, codes, [], []) && After(s, []) == s && Start(s, c0, []) == c0
  {
  }

  lemma RanMore(s: Schedule, c0: Context, codes: seq<Code>, cs: seq<Context>, ms: seq<Memory>, c: Context, m: Memory)
    requires s.cur < |s.saved| && Ran(s, c0, codes, cs, ms) && |cs| < |codes| && c == codes[|cs|](Start(s, c0, cs), m).0
    ensures Ran(s, c0, codes, cs + [c], ms + [m]) && After(s, cs + [c]) == Ticked(After(s, cs), c)
    ensures Start(s, c0, cs + [c]) == After(s, cs + [c]).Running() && After(s, cs + [c]).started
    ensures After(s, cs + [c]).cur == NextOf(After(s, cs).cur, |s.saved|)
  {
    hide Start, NextOf;
    var cs', ms' := cs + [c], ms + [m];
    assert cs'[..|cs'| - 1] == cs;
    forall i: nat {:trigger cs'[i]} | i < |cs'| ensures cs'[i] == codes[i](Start(s, c0, cs'[..i]), ms'[i]).0 { assert cs'[..i] == cs[..i]; if i == |cs| { assert cs[..i] == cs; } }
    StartsNext(s, c0, cs');
  }

  lemma StartsNext(s: Schedule, c0: Context, cs: seq<Context>)
    requires s.cur < |s.saved| && cs != []
    ensures Start(s, c0, cs) == After(s, cs).Running()
  {
  }

  /** The registers below the interrupt frame make the whole frame. */
  lemma WholeFrame(m1: Memory, m2: Memory, m3: Memory, sp: int, regs: seq<int>, tail: seq<int>)
    requires |regs| == REGS && |tail| == 5 && FrameAt(m1, sp - 40, tail) && FrameAt(m3, sp - 160, regs)
    requires forall a :: a < sp - 56 || a >= sp - 40 ==> Peek(m2, a) == Peek(m1, a)
    requires forall a :: a < sp - 160 || a >= sp - 40 ==> Peek(m3, a) == Peek(m2, a)
    ensures FrameAt(m3, sp - 160, regs + tail)
  {
    forall i | 0 <= i < FRAME ensures Peek(m3, sp - 160 + 8 * i) == (regs + tail)[i] {
      if i < REGS { assert Peek(m3, sp - 160 + 8 * i) == regs[i]; }
      else { assert Peek(m1, sp - 40 + 8 * (i - REGS)) == tail[i - REGS]; }
    }
  }
}
