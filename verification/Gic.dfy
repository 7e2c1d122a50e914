/** Shared interrupts and list registers (src/ohv_gic.cpp:372-473).

  Raising or lowering an SPI records the level in the distributor and, on the
  first vCPU, queues it in or takes it out of a list register.  The hardware
  side is any step that retires or advances live entries.
*/
module Gic {
  import opened Words
  import Slot

  const SPI_BASE: nat := 32
  const SPI_END: nat := 1020
  const LIST_REGISTERS: nat := 8
  const CPUS: nat := 64
  const MODELLED_CPUS: nat := 16

  // Word indices of the distributor's bitmaps and priorities (offset / 4).
  const ISENABLER0: nat := 0x40
  const ISPENDR0: nat := 0x80
  const IPRIORITYR0: nat := 0x100
  const DIST_SLOTS: nat := 0x4000

  type Intid = i: nat | SPI_BASE <= i < SPI_END witness SPI_BASE
  type Byte = b: nat | b < 256

  // -------------------------------------------------------- list registers

  const LR_DIRTY: u64 := 0x1_0000_0000

  function LrState(lr: u64): nat { lr / 0x4000_0000_0000_0000 }

  function LrIntid(lr: u64): nat { lr % 0x1_0000_0000 }

  function LrPriority(lr: u64): nat { lr / 0x1_0000_0000_0000 % 256 }

  predicate Live(lr: u64) { LrState(lr) != 0 }

  predicate PendingOnly(lr: u64) { LrState(lr) == 1 }

  predicate IsDirty(lr: u64) { lr / 0x1_0000_0000 % 2 == 1 }

  /** Pending, group 1, and marked as changed for the kernel. */
  function Queued(intid: Intid, priority: nat): u64
    requires priority < 256
  {
    0x4000_0000_0000_0000 + 0x1000_0000_0000_0000 + priority * 0x1_0000_0000_0000 + intid + LR_DIRTY
  }

  /** The packed word has the fields it was packed from. */
  lemma {:induction false} QueuedFields(intid: Intid, priority: nat)
    requires priority < 256
    ensures var lr := Queued(intid, priority);
            && PendingOnly(lr) && LrIntid(lr) == intid && LrPriority(lr) == priority && IsDirty(lr)
            && lr / 0x1000_0000_0000_0000 % 2 == 1
  {
  }

  // ----------------------------------------------------------- the state

  datatype Cpu = Cpu(used: bool, lr: seq<u64>, dirty: u64)

  datatype State = State(dist: seq<u64>, cpus: seq<Cpu>)

  ghost predicate Shaped(g: State) {
    && |g.dist| == DIST_SLOTS && |g.cpus| == CPUS
    && forall c :: 0 <= c < CPUS ==> |g.cpus[c].lr| == LIST_REGISTERS
  }

  predicate Pending(g: State, intid: Intid)
    requires |g.dist| == DIST_SLOTS
  {
    Bit(g.dist[ISPENDR0 + intid / 32], intid % 32)
  }

  predicate Enabled(g: State, intid: Intid)
    requires |g.dist| == DIST_SLOTS
  {
    Bit(g.dist[ISENABLER0 + intid / 32], intid % 32)
  }

  /** One byte of GICD_IPRIORITYR. */
  function Priority(g: State, intid: Intid): Byte
    requires |g.dist| == DIST_SLOTS
  {
    var p := Low(Shr(g.dist[IPRIORITYR0 + intid / 4], 8 * (intid % 4)), 8);
    LowBelow(Shr(g.dist[IPRIORITYR0 + intid / 4], 8 * (intid % 4)), 8);
    assert Pow2(8) == 256;
    p
  }

  /** The first vCPU in use, or CPUS. */
  function Target(cpus: seq<Cpu>): (t: nat)
    ensures t <= |cpus|
    ensures t < |cpus| ==> cpus[t].used
    ensures forall c :: 0 <= c < t ==> !cpus[c].used
  {
    if cpus == [] || cpus[0].used then 0
    else
      var t := Target(cpus[1..]);
      assert forall c :: 0 < c < t + 1 ==> cpus[c] == cpus[1..][c - 1];
      t + 1
  }

  /** The first list register with nothing live in it, or the length. */
  function FirstFree(lr: seq<u64>): (i: nat)
    ensures i <= |lr|
    ensures i < |lr| ==> !Live(lr[i])
    ensures forall j :: 0 <= j < i ==> Live(lr[j])
  {
    if lr == [] || !Live(lr[0]) then 0
    else
      var i := FirstFree(lr[1..]);
      assert forall j :: 0 < j < i + 1 ==> lr[j] == lr[1..][j - 1];
      i + 1
  }

  predicate LiveAt(lr: seq<u64>, i: nat, intid: nat)
    requires i < |lr|
  {
    Live(lr[i]) && LrIntid(lr[i]) == intid
  }

  predicate HasLive(lr: seq<u64>, intid: nat) {
    exists i :: 0 <= i < |lr| && LiveAt(lr, i, intid)
  }

  function Enqueue(lr: seq<u64>, intid: Intid, priority: nat): (r: seq<u64>)
    requires priority < 256
    ensures |r| == |lr|
  {
    if HasLive(lr, intid) || FirstFree(lr) == |lr| then lr
    else lr[FirstFree(lr) := Queued(intid, priority)]
  }

  function Retract(lr: seq<u64>, intid: Intid): (r: seq<u64>)
    ensures |r| == |lr|
  {
    seq(|lr|, i requires 0 <= i < |lr| =>
      if PendingOnly(lr[i]) && LrIntid(lr[i]) == intid then LR_DIRTY else lr[i])
  }

  function MarkGic(dirty: u64): u64 {
    With(With(dirty, Slot.D_GIC), Slot.D_CONTROLS)
  }

  /** The pending bit follows the level. */
  function Recorded(g: State, intid: Intid, level: bool): (g': State)
    requires Shaped(g)
    ensures Shaped(g')
  {
    var word := ISPENDR0 + intid / 32;
    g.(dist := g.dist[word := if level then With(g.dist[word], intid % 32) else Without(g.dist[word], intid % 32)])
  }

  /** The list registers of the vCPU it goes to follow the level, and a change
      is marked. */
  function Deliver(c: Cpu, intid: Intid, level: bool, priority: Byte): (c': Cpu)
    ensures |c'.lr| == |c.lr|
  {
    var lr := if level then Enqueue(c.lr, intid, priority) else Retract(c.lr, intid);
    Cpu(c.used, lr, if lr == c.lr then c.dirty else MarkGic(c.dirty))
  }

  /** That is the first vCPU in use, and a raise goes there only if the
      interrupt is enabled. */
  function Delivered(g: State, intid: Intid, level: bool): (g': State)
    requires Shaped(g)
    ensures Shaped(g')
  {
    var t := Target(g.cpus);
    if t >= MODELLED_CPUS || (level && !Enabled(g, intid)) then g
    else g.(cpus := g.cpus[t := Deliver(g.cpus[t], intid, level, Priority(g, intid))])
  }

  /** hv_gic_set_spi for an interrupt in range. */
  function SetSpi(g: State, intid: Intid, level: bool): (g': State)
    requires Shaped(g)
    ensures Shaped(g')
  {
    Delivered(Recorded(g, intid, level), intid, level)
  }

  // ----------------------------------------------------------- uniqueness

  ghost predicate Unique(lr: seq<u64>) {
    forall i, j, intid :: 0 <= i < |lr| && 0 <= j < |lr| && LiveAt(lr, i, intid) && LiveAt(lr, j, intid) ==> i == j
  }

  ghost predicate AllUnique(g: State)
    requires Shaped(g)
  {
    forall c :: 0 <= c < CPUS ==> Unique(g.cpus[c].lr)
  }

  /** Hardware and kernel between two calls: an entry may advance from pending
      to active, retire, or have its dirty bit cleared. */
  ghost predicate HardwareStep(lr: seq<u64>, lr': seq<u64>) {
    && |lr'| == |lr|
    && forall i :: 0 <= i < |lr| && Live(lr'[i]) ==> Live(lr[i]) && LrIntid(lr'[i]) == LrIntid(lr[i])
  }

  lemma {:induction false} EnqueueUnique(lr: seq<u64>, intid: Intid, priority: nat)
    requires Unique(lr) && priority < 256
    ensures Unique(Enqueue(lr, intid, priority))
  {
    QueuedFields(intid, priority);
    var lr', free := Enqueue(lr, intid, priority), FirstFree(lr);
    if lr' != lr {
      assert forall n, k :: 0 <= n < |lr| && n != free ==> LiveAt(lr', n, k) == LiveAt(lr, n, k);
      assert forall n :: 0 <= n < |lr| ==> !LiveAt(lr, n, intid);
      assert forall k :: LiveAt(lr', free, k) ==> k == intid;
    }
  }

  lemma {:induction false} StepUnique(lr: seq<u64>, lr': seq<u64>)
    requires Unique(lr) && HardwareStep(lr, lr')
    ensures Unique(lr')
  {
    forall i, j, k | 0 <= i < |lr'| && 0 <= j < |lr'| && LiveAt(lr', i, k) && LiveAt(lr', j, k)
      ensures i == j
    {
      assert LiveAt(lr, i, k) && LiveAt(lr, j, k);
    }
  }

  /** The registers change, and the change is marked, exactly when there is
      something to queue and room for it, or something to take out. */
  lemma {:induction false} DeliverMoves(c: Cpu, intid: Intid, level: bool, priority: Byte)
    ensures var c' := Deliver(c, intid, level, priority);
            && (c'.lr != c.lr <==>
                  if level then !HasLive(c.lr, intid) && exists i :: 0 <= i < |c.lr| && !Live(c.lr[i])
                  else exists i :: 0 <= i < |c.lr| && PendingOnly(c.lr[i]) && LrIntid(c.lr[i]) == intid)
            && c'.dirty == if c'.lr != c.lr then MarkGic(c.dirty) else c.dirty
  {
    var lr := Deliver(c, intid, level, priority).lr;
    if level {
      QueuedFields(intid, priority);
      var free := FirstFree(c.lr);
      if !HasLive(c.lr, intid) && free < |c.lr| {
        assert Live(lr[free]) && !Live(c.lr[free]);
      }
    } else if i: nat :| i < |c.lr| && PendingOnly(c.lr[i]) && LrIntid(c.lr[i]) == intid {
      assert lr[i] == LR_DIRTY && !PendingOnly(lr[i]);
    }
  }

  /** Taking entries out is a step the hardware could have made. */
  lemma {:induction false} RetractIsStep(lr: seq<u64>, intid: Intid)
    ensures HardwareStep(lr, Retract(lr, intid))
  {
  }

  // ------------------------------------------------------ what one call does

  /** After an enabled raise there is a live entry exactly when there was one
      or a register was free; nothing queues it later otherwise.  A new entry
      is pending, in group 1, and carries the distributor's priority. */
  lemma {:induction false} RaiseQueues(g: State, intid: Intid)
    requires Shaped(g) && AllUnique(g) && Target(g.cpus) < MODELLED_CPUS && Enabled(g, intid)
    ensures var t := Target(g.cpus);
            var lr, lr' := g.cpus[t].lr, SetSpi(g, intid, true).cpus[t].lr;
            && (HasLive(lr', intid) <==> HasLive(lr, intid) || FirstFree(lr) < |lr|)
            && (HasLive(lr, intid) ==> lr' == lr)
            && (!HasLive(lr, intid) && FirstFree(lr) < |lr| ==>
                  lr' == lr[FirstFree(lr) := Queued(intid, Priority(g, intid))])
            && Unique(lr')
  {
    var t := Target(g.cpus);
    var lr, lr' := g.cpus[t].lr, SetSpi(g, intid, true).cpus[t].lr;
    EnqueueUnique(lr, intid, Priority(g, intid));
    QueuedFields(intid, Priority(g, intid));
    if !HasLive(lr, intid) && FirstFree(lr) < |lr| {
      assert LiveAt(lr', FirstFree(lr), intid);
    }
  }

  /** Where the distributor's registers are: GICD_ISENABLER at 0x100 and
      GICD_ISPENDR at 0x200, one bit an interrupt, in words of four bytes. */
  lemma {:induction false} DistributorBits(g: State, n: nat, j: nat)
    requires Shaped(g) && 1 <= n < 32 && j < 32 && 32 * n + j < SPI_END
    ensures Enabled(g, 32 * n + j) <==> Bit(g.dist[0x100 / 4 + n], j)
    ensures Pending(g, 32 * n + j) <==> Bit(g.dist[0x200 / 4 + n], j)
  {
    Quotient(32, n, j);
  }

  /** Four bytes of a word, from the lowest up. */
  lemma {:induction false} ByteAt(b0: Byte, b1: Byte, b2: Byte, b3: Byte, j: nat)
    requires j < 4
    ensures Low(Shr(b0 + 0x100 * b1 + 0x1_0000 * b2 + 0x100_0000 * b3, 8 * j), 8)
            == if j == 0 then b0 else if j == 1 then b1 else if j == 2 then b2 else b3
  {
    var w := b0 + 0x100 * b1 + 0x1_0000 * b2 + 0x100_0000 * b3;
    BytePowers();
    ShiftIsDivision(w, 8 * j);
    ShiftIsDivision(Shr(w, 8 * j), 8);
    Quotient(0x100, b1 + 0x100 * b2 + 0x1_0000 * b3, b0);
    Quotient(0x1_0000, b2 + 0x100 * b3, b0 + 0x100 * b1);
    Quotient(0x100_0000, b3, b0 + 0x100 * b1 + 0x1_0000 * b2);
    Quotient(0x100, b2 + 0x100 * b3, b1);
    Quotient(0x100, b3, b2);
    Quotient(0x100, 0, b3);
  }

  lemma {:induction false} BytePowers()
    ensures Pow2(0) == 1 && Pow2(8) == 0x100 && Pow2(16) == 0x1_0000 && Pow2(24) == 0x100_0000
  {
    assert Pow2(2) == 4 && Pow2(4) == 16 && Pow2(6) == 64 && Pow2(8) == 256;
    Pow2Add(8, 8);
    Pow2Add(16, 8);
  }

  /** GICD_IPRIORITYR is at 0x400 and has a byte an interrupt, the lowest byte
      of a word first: that byte is the priority a raise queues. */
  lemma {:induction false} RaisedPriority(g: State, n: nat, j: nat, b0: Byte, b1: Byte, b2: Byte, b3: Byte)
    requires Shaped(g) && AllUnique(g) && j < 4 && SPI_BASE <= 4 * n + j < SPI_END
    requires g.dist[0x400 / 4 + n] == b0 + 0x100 * b1 + 0x1_0000 * b2 + 0x100_0000 * b3
    requires Target(g.cpus) < MODELLED_CPUS && Enabled(g, 4 * n + j)
    ensures var t := Target(g.cpus);
            var lr, lr' := g.cpus[t].lr, SetSpi(g, 4 * n + j, true).cpus[t].lr;
            var free := FirstFree(lr);
            !HasLive(lr, 4 * n + j) && free < |lr| ==>
              && PendingOnly(lr'[free]) && LrIntid(lr'[free]) == 4 * n + j
              && LrPriority(lr'[free]) == if j == 0 then b0 else if j == 1 then b1 else if j == 2 then b2 else b3
  {
    var intid: Intid := 4 * n + j;
    Quotient(4, n, j);
    ByteAt(b0, b1, b2, b3, j);
    PriorityAt(g, n, j);
    RaiseQueues(g, intid);
    QueuedFields(intid, Priority(g, intid));
  }

  lemma {:induction false} PriorityAt(g: State, n: nat, j: nat)
    requires Shaped(g) && j < 4 && SPI_BASE <= 4 * n + j < SPI_END
    ensures Priority(g, 4 * n + j) == Low(Shr(g.dist[0x400 / 4 + n], 8 * j), 8)
  {
    Quotient(4, n, j);
  }

  /** A raise of a disabled interrupt reaches no list register. */
  lemma {:induction false} DisabledRaise(g: State, intid: Intid)
    requires Shaped(g) && !Enabled(g, intid)
    ensures SetSpi(g, intid, true).cpus == g.cpus
  {
  }

  /** After a lower no pending-only entry for the interrupt is left, and one
      the guest has already taken stays. */
  lemma {:induction false} LowerRetracts(g: State, intid: Intid)
    requires Shaped(g) && Target(g.cpus) < MODELLED_CPUS
    ensures var t := Target(g.cpus);
            var lr, lr' := g.cpus[t].lr, SetSpi(g, intid, false).cpus[t].lr;
            forall i :: 0 <= i < LIST_REGISTERS ==>
              if PendingOnly(lr[i]) && LrIntid(lr[i]) == intid
              then !Live(lr'[i]) && IsDirty(lr'[i]) else lr'[i] == lr[i]
  {
  }

  /** Any other interrupt keeps its entries, in place, and its pending bit;
      enables, priorities and the other vCPUs are untouched. */
  lemma {:induction false} OthersUntouched(g: State, intid: Intid, level: bool, other: Intid)
    requires Shaped(g) && other != intid
    ensures var g' := SetSpi(g, intid, level);
            && Pending(g', other) == Pending(g, other)
            && (forall i :: 0 <= i < DIST_SLOTS && i != ISPENDR0 + intid / 32 ==> g'.dist[i] == g.dist[i])
            && (forall c :: 0 <= c < CPUS && c != Target(g.cpus) ==> g'.cpus[c] == g.cpus[c])
            && (forall c, i :: 0 <= c < CPUS && 0 <= i < LIST_REGISTERS ==>
                  (LiveAt(g.cpus[c].lr, i, other) || LiveAt(g'.cpus[c].lr, i, other)
                   ==> g'.cpus[c].lr[i] == g.cpus[c].lr[i]))
  {
    var word := g.dist[ISPENDR0 + intid / 32];
    WithBits(word, intid % 32);
    WithoutBits(word, intid % 32);
    QueuedFields(intid, Priority(SetSpi(g, intid, level), intid));
  }

  lemma {:induction false} PendingIsLevel(g: State, intid: Intid, level: bool)
    requires Shaped(g)
    ensures Pending(SetSpi(g, intid, level), intid) == level
  {
    var word := g.dist[ISPENDR0 + intid / 32];
    WithBits(word, intid % 32);
    WithoutBits(word, intid % 32);
  }

  /** The kernel hears of every change: a list register differs only on a
      vCPU whose GIC and CONTROLS state is then marked dirty. */
  lemma {:induction false} ChangesAreMarked(g: State, intid: Intid, level: bool, c: nat)
    requires Shaped(g) && c < CPUS
    ensures var g' := SetSpi(g, intid, level);
            g'.cpus[c].lr != g.cpus[c].lr ==>
              Bit(g'.cpus[c].dirty, Slot.D_GIC) && Bit(g'.cpus[c].dirty, Slot.D_CONTROLS)
  {
    WithBits(g.cpus[c].dirty, Slot.D_GIC);
    WithBits(With(g.cpus[c].dirty, Slot.D_GIC), Slot.D_CONTROLS);
  }

  // ------------------------------------------------------------- whole runs

  datatype Event =
    | Spi(intid: nat, level: bool)
    | Hardware(cpu: nat, lr: seq<u64>, dirty: u64)
    | Create(cpu: nat)
    | Destroy(cpu: nat)

  ghost predicate Possible(g: State, e: Event)
    requires Shaped(g)
  {
    match e
    case Spi(_, _) => true
    case Hardware(c, lr, _) => c < CPUS && HardwareStep(g.cpus[c].lr, lr)
    case Create(c) => c < CPUS && !g.cpus[c].used
    case Destroy(c) => c < CPUS
  }

  function Fresh(used: bool): (c: Cpu)
    ensures |c.lr| == LIST_REGISTERS && forall i :: 0 <= i < LIST_REGISTERS ==> !Live(c.lr[i])
  {
    Cpu(used, seq(LIST_REGISTERS, _ => 0), 0)
  }

  ghost function Step(g: State, e: Event): (g': State)
    requires Shaped(g) && Possible(g, e)
    ensures Shaped(g')
  {
    match e
    case Spi(intid, level) => if SPI_BASE <= intid < SPI_END then SetSpi(g, intid, level) else g
    case Hardware(c, lr, dirty) => g.(cpus := g.cpus[c := Cpu(g.cpus[c].used, lr, dirty)])
    case Create(c) => g.(cpus := g.cpus[c := Fresh(true)])
    case Destroy(c) => g.(cpus := g.cpus[c := Fresh(false)])
  }

  /** g' is reached from g by the events in order. */
  ghost predicate Reaches(g: State, es: seq<Event>, g': State)
    requires Shaped(g)
    decreases |es|
  {
    if es == [] then g' == g
    else exists m :: Shaped(m) && Reaches(g, es[..|es| - 1], m) && Possible(m, es[|es| - 1]) && g' == Step(m, es[|es| - 1])
  }

  /** No interrupt ever occupies two live list registers of one vCPU. */
  lemma {:induction false} NeverTwice(g: State, es: seq<Event>, g': State)
    requires Shaped(g) && AllUnique(g) && Reaches(g, es, g')
    ensures Shaped(g') && AllUnique(g')
    decreases |es|
  {
    if es != [] {
      var m :| Shaped(m) && Reaches(g, es[..|es| - 1], m) && Possible(m, es[|es| - 1]) && g' == Step(m, es[|es| - 1]);
      NeverTwice(g, es[..|es| - 1], m);
      StepKeepsUnique(m, es[|es| - 1]);
    }
  }

  lemma {:induction false} StepKeepsUnique(g: State, e: Event)
    requires Shaped(g) && AllUnique(g) && Possible(g, e)
    ensures AllUnique(Step(g, e))
  {
    match e
    case Spi(intid, level) =>
      if SPI_BASE <= intid < SPI_END && Target(g.cpus) < MODELLED_CPUS {
        var lr := g.cpus[Target(g.cpus)].lr;
        EnqueueUnique(lr, intid, Priority(SetSpi(g, intid, level), intid));
        RetractIsStep(lr, intid);
        StepUnique(lr, Retract(lr, intid));
      }
    case Hardware(c, lr, _) => StepUnique(g.cpus[c].lr, lr);
    case Create(_) =>
    case Destroy(_) =>
  }

  /** The level last given for an interrupt, or what it was to begin with. */
  function LastLevel(es: seq<Event>, intid: nat, initial: bool): bool {
    if es == [] then initial
    else
      var e := es[|es| - 1];
      if e.Spi? && e.intid == intid then e.level else LastLevel(es[..|es| - 1], intid, initial)
  }

  /** The pending bitmap is the last level of every interrupt. */
  lemma {:induction false} PendingIsLastLevel(g: State, es: seq<Event>, g': State, intid: Intid)
    requires Shaped(g) && Reaches(g, es, g')
    ensures Shaped(g') && Pending(g', intid) == LastLevel(es, intid, Pending(g, intid))
    decreases |es|
  {
    if es != [] {
      var e := es[|es| - 1];
      var m :| Shaped(m) && Reaches(g, es[..|es| - 1], m) && Possible(m, e) && g' == Step(m, e);
      PendingIsLastLevel(g, es[..|es| - 1], m, intid);
      if e.Spi? && SPI_BASE <= e.intid < SPI_END {
        if e.intid == intid {
          PendingIsLevel(m, intid, e.level);
        } else {
          OthersUntouched(m, e.intid, e.level, intid);
        }
      }
    }
  }

  // -------------------------------------------------- what is never delivered

  predicate IsRaise(e: Event, intid: nat) {
    e.Spi? && e.intid == intid && e.level
  }

  ghost predicate NoRaise(es: seq<Event>, intid: nat) {
    es == [] || (NoRaise(es[..|es| - 1], intid) && !IsRaise(es[|es| - 1], intid))
  }

  /** An interrupt in no list register of a vCPU gets into none by anything but
      a raise of it: not when registers come free, not when others are raised,
      though its pending bit stands the whole time. */
  lemma {:induction false} NoneComesLater(g: State, es: seq<Event>, g': State, intid: Intid, c: nat)
    requires Shaped(g) && Reaches(g, es, g') && c < CPUS
    requires NoRaise(es, intid) && !HasLive(g.cpus[c].lr, intid)
    ensures Shaped(g') && !HasLive(g'.cpus[c].lr, intid)
    decreases |es|
  {
    if es != [] {
      var e := es[|es| - 1];
      var m :| Shaped(m) && Reaches(g, es[..|es| - 1], m) && Possible(m, e) && g' == Step(m, e);
      NoneComesLater(g, es[..|es| - 1], m, intid, c);
      StepBringsNone(m, e, intid, c);
    }
  }

  lemma {:induction false} StepBringsNone(g: State, e: Event, intid: Intid, c: nat)
    requires Shaped(g) && Possible(g, e) && c < CPUS && !IsRaise(e, intid) && !HasLive(g.cpus[c].lr, intid)
    ensures !HasLive(Step(g, e).cpus[c].lr, intid)
  {
    var lr, lr' := g.cpus[c].lr, Step(g, e).cpus[c].lr;
    if e.Spi? && SPI_BASE <= e.intid < SPI_END {
      if e.intid == intid {
        RetractIsStep(lr, intid);
      } else {
        OthersUntouched(g, e.intid, e.level, intid);
      }
    }
    forall i | 0 <= i < |lr'| ensures !LiveAt(lr', i, intid) {
      assert !LiveAt(lr, i, intid);
    }
  }

  /** The raises of a list of interrupts, one after the other. */
  function RaiseAll(g: State, ids: seq<Intid>): (g': State)
    requires Shaped(g)
    ensures Shaped(g')
  {
    if ids == [] then g else SetSpi(RaiseAll(g, ids[..|ids| - 1]), ids[|ids| - 1], true)
  }

  ghost predicate Distinct(ids: seq<Intid>) {
    forall i, j :: 0 <= i < j < |ids| ==> ids[i] != ids[j]
  }

  /** A vCPU on which nothing is queued, and interrupts that may be. */
  ghost predicate Idle(g: State, ids: seq<Intid>)
    requires Shaped(g)
  {
    && Target(g.cpus) == 0 && (forall i :: 0 <= i < LIST_REGISTERS ==> !Live(g.cpus[0].lr[i]))
    && forall i :: 0 <= i < |ids| ==> Enabled(g, ids[i])
  }

  /** Raised on an idle vCPU, the first eight fill the registers in order. */
  lemma {:induction false} RaisesFill(g: State, ids: seq<Intid>, more: seq<Intid>)
    requires Shaped(g) && ids <= more && Idle(g, more) && Distinct(more) && |ids| <= LIST_REGISTERS
    ensures var g' := RaiseAll(g, ids);
            && g'.cpus[0].used && Target(g'.cpus) == 0
            && (forall i :: 0 <= i < LIST_REGISTERS ==>
                  if i < |ids| then LiveAt(g'.cpus[0].lr, i, ids[i]) else !Live(g'.cpus[0].lr[i]))
            && forall i :: 0 <= i < |more| ==> Enabled(g', more[i])
  {
    if ids != [] {
      var n := |ids| - 1;
      RaisesFill(g, ids[..n], more);
      var before := RaiseAll(g, ids[..n]);
      assert ids[n] == more[n];
      RaiseFillsNext(before, ids[n], n);
      var g' := RaiseAll(g, ids);
      OthersUntouchedWords(before, ids[n]);
      forall i | 0 <= i < |more| ensures Enabled(g', more[i]) {
        assert Enabled(before, more[i]);
      }
    }
  }

  lemma {:induction false} OthersUntouchedWords(g: State, intid: Intid)
    requires Shaped(g)
    ensures forall i :: 0 <= i < DIST_SLOTS && i != ISPENDR0 + intid / 32 ==> SetSpi(g, intid, true).dist[i] == g.dist[i]
  {
    OthersUntouched(g, intid, true, if intid == SPI_BASE then SPI_BASE + 1 else SPI_BASE);
  }

  lemma {:induction false} FreeAt(lr: seq<u64>, n: nat)
    requires n < |lr| && !Live(lr[n]) && forall i :: 0 <= i < n ==> Live(lr[i])
    ensures FirstFree(lr) == n
  {
  }

  lemma {:induction false} RaiseFillsNext(g: State, intid: Intid, n: nat)
    requires Shaped(g) && Target(g.cpus) == 0 && g.cpus[0].used && Enabled(g, intid) && n < LIST_REGISTERS
    requires forall i :: 0 <= i < LIST_REGISTERS ==>
               if i < n then Live(g.cpus[0].lr[i]) && LrIntid(g.cpus[0].lr[i]) != intid else !Live(g.cpus[0].lr[i])
    ensures var g' := SetSpi(g, intid, true);
            && g'.cpus[0].used && Target(g'.cpus) == 0
            && LiveAt(g'.cpus[0].lr, n, intid)
            && forall i :: 0 <= i < LIST_REGISTERS && i != n ==> g'.cpus[0].lr[i] == g.cpus[0].lr[i]
  {
    var r := Recorded(g, intid, true);
    assert r.cpus == g.cpus;
    assert Enabled(r, intid);
    var lr := g.cpus[0].lr;
    assert |lr| == LIST_REGISTERS && !Live(lr[n]);
    forall i | 0 <= i < |lr| ensures !LiveAt(lr, i, intid) {
      assert i < n ==> LrIntid(g.cpus[0].lr[i]) != intid;
    }
    FreeAt(lr, n);
    QueuedFields(intid, Priority(r, intid));
  }

  /** The ninth of nine distinct interrupts raised on an idle vCPU is pending
      and in no list register, and nothing but another raise of it ever changes
      that: the registers may all come free, it is not queued. */
  lemma {:induction false} NinthIsLost(g: State, ids: seq<Intid>, es: seq<Event>, g': State)
    requires Shaped(g) && |ids| == LIST_REGISTERS + 1 && Distinct(ids) && Idle(g, ids)
    requires Reaches(RaiseAll(g, ids), es, g') && NoRaise(es, ids[8])
    ensures Pending(RaiseAll(g, ids), ids[8])
    ensures Shaped(g') && !HasLive(g'.cpus[0].lr, ids[8])
  {
    var eight := ids[..8];
    RaisesFill(g, eight, ids);
    var full := RaiseAll(g, eight);
    var lr := full.cpus[0].lr;
    assert forall i :: 0 <= i < LIST_REGISTERS ==> LiveAt(lr, i, ids[i]);
    forall i | 0 <= i < |lr| ensures Live(lr[i]) && !LiveAt(lr, i, ids[8]) {
      assert LiveAt(lr, i, ids[i]) && ids[i] != ids[8];
    }
    assert FirstFree(lr) == |lr|;
    PendingIsLevel(full, ids[8], true);
    var nine := RaiseAll(g, ids);
    assert nine == SetSpi(full, ids[8], true);
    assert Recorded(full, ids[8], true).cpus == full.cpus;
    assert nine.cpus[0].lr == lr;
    NoneComesLater(nine, es, g', ids[8], 0);
  }

  function Ones(n: nat): nat {
    if n == 0 then 0 else 2 * Ones(n - 1) + 1
  }

  lemma {:induction false} HalfOnes(n: nat)
    requires n > 0
    ensures Ones(n) / 2 == Ones(n - 1) && Ones(n) % 2 == 1
  {
    Quotient(2, Ones(n - 1), 1);
  }

  lemma {:induction false} OnesBits(n: nat, k: nat)
    ensures Bit(Ones(n), k) <==> k < n
    decreases k
  {
    if n == 0 {
      NoBits(k);
    } else {
      HalfOnes(n);
      if k > 0 {
        OnesBits(n - 1, k - 1);
      }
    }
  }

  /** Interrupts 32 to 40, all enabled, and one new vCPU. */
  function NineEnabled(): (g: State)
    ensures Shaped(g)
  {
    var cpus := seq(CPUS, i => Fresh(i == 0));
    assert forall c :: 0 <= c < CPUS ==> cpus[c] == Fresh(c == 0);
    State(seq(DIST_SLOTS, i => 511), cpus)
  }

  /** There is such a vCPU and such nine interrupts: 40 is never delivered. */
  lemma {:induction false} FortyIsLost()
    ensures var ids: seq<Intid> := [32, 33, 34, 35, 36, 37, 38, 39, 40];
            var g := RaiseAll(NineEnabled(), ids);
            Pending(g, 40) && !HasLive(g.cpus[0].lr, 40)
  {
    var ids: seq<Intid> := [32, 33, 34, 35, 36, 37, 38, 39, 40];
    var g := NineEnabled();
    assert Ones(3) == 7 && Ones(6) == 63;
    assert Ones(9) == 511;
    forall i | 0 <= i < |ids| ensures Enabled(g, ids[i]) {
      OnesBits(9, i);
      assert ids[i] == 32 + i;
    }
    assert g.cpus[0] == Fresh(true);
    NinthIsLost(g, ids, [], RaiseAll(g, ids));
  }

  // ------------------------------------------------------ the code, in place

  class GicModel {
    const dist: array<u64>
    const used: array<bool>
    const lr: array2<u64>
    const dirty: array<u64>

    ghost predicate Valid() {
      && dist.Length == DIST_SLOTS && used.Length == CPUS && dirty.Length == CPUS
      && lr.Length0 == CPUS && lr.Length1 == LIST_REGISTERS
      && dist != dirty
    }

    ghost function Lrs(c: nat): (r: seq<u64>)
      reads lr
      requires Valid() && c < CPUS
      ensures |r| == LIST_REGISTERS && forall i :: 0 <= i < LIST_REGISTERS ==> r[i] == lr[c, i]
    {
      seq(LIST_REGISTERS, i requires 0 <= i < LIST_REGISTERS reads lr => lr[c, i])
    }

    ghost function CpuAt(c: nat): (r: Cpu)
      reads used, lr, dirty
      requires Valid() && c < CPUS
      ensures |r.lr| == LIST_REGISTERS
    {
      Cpu(used[c], Lrs(c), dirty[c])
    }

    ghost function View(): (g: State)
      reads dist, used, lr, dirty
      requires Valid()
      ensures Shaped(g)
    {
      var cpus := seq(CPUS, c requires 0 <= c < CPUS reads used, lr, dirty => CpuAt(c));
      assert forall c :: 0 <= c < CPUS ==> cpus[c] == CpuAt(c);
      State(dist[..], cpus)
    }

    method FirstUsed() returns (t: nat)
      requires Valid()
      ensures t == Target(View().cpus)
    {
      t := 0;
      while t < CPUS && !used[t]
        invariant t <= CPUS
        invariant forall c :: 0 <= c < t ==> !View().cpus[c].used
      {
        assert View().cpus[t] == CpuAt(t);
        t := t + 1;
      }
      assert t < CPUS ==> View().cpus[t] == CpuAt(t);
    }

    /** Queue the interrupt on vCPU `t`, unless it is already there. */
    method Inject(t: nat, intid: Intid, priority: nat)
      requires Valid() && t < CPUS && priority < 256
      modifies lr, dirty
      ensures Lrs(t) == Enqueue(old(Lrs(t)), intid, priority)
      ensures dirty[t] == if Lrs(t) == old(Lrs(t)) then old(dirty[t]) else MarkGic(old(dirty[t]))
      ensures forall c :: 0 <= c < CPUS && c != t ==> CpuAt(c) == old(CpuAt(c))
    {
      ghost var was := Lrs(t);
      var i := 0;
      while i < LIST_REGISTERS
        invariant i <= LIST_REGISTERS
        invariant forall j :: 0 <= j < i ==> !LiveAt(was, j, intid)
      {
        if LrState(lr[t, i]) != 0 && LrIntid(lr[t, i]) == intid {
          assert LiveAt(was, i, intid);
          return;
        }
        i := i + 1;
      }
      i := 0;
      while i < LIST_REGISTERS && LrState(lr[t, i]) != 0
        invariant i <= LIST_REGISTERS
        invariant forall j :: 0 <= j < i ==> Live(was[j])
      {
        i := i + 1;
      }
      if i < LIST_REGISTERS {
        lr[t, i] := Queued(intid, priority);
        dirty[t] := MarkGic(dirty[t]);
        QueuedFields(intid, priority);
        assert Lrs(t) == was[i := Queued(intid, priority)];
        assert Lrs(t)[i] != was[i];
        assert forall c :: 0 <= c < CPUS && c != t ==> Lrs(c) == old(Lrs(c));
      }
    }

    /** Take the interrupt out of every register where it is only pending. */
    method Withdraw(t: nat, intid: Intid)
      requires Valid() && t < CPUS
      modifies lr, dirty
      ensures Lrs(t) == Retract(old(Lrs(t)), intid)
      ensures dirty[t] == if Lrs(t) == old(Lrs(t)) then old(dirty[t]) else MarkGic(old(dirty[t]))
      ensures forall c :: 0 <= c < CPUS && c != t ==> CpuAt(c) == old(CpuAt(c))
    {
      ghost var was, to := Lrs(t), Retract(Lrs(t), intid);
      var i := 0;
      while i < LIST_REGISTERS
        invariant i <= LIST_REGISTERS
        invariant forall j :: 0 <= j < LIST_REGISTERS ==> lr[t, j] == if j < i then to[j] else was[j]
        invariant forall c, j :: 0 <= c < CPUS && 0 <= j < LIST_REGISTERS && c != t ==> lr[c, j] == old(lr[c, j])
        invariant forall c :: 0 <= c < CPUS && c != t ==> dirty[c] == old(dirty[c])
        invariant dirty[t] == if to[..i] == was[..i] then old(dirty[t]) else MarkGic(old(dirty[t]))
      {
        assert to[..i + 1] == to[..i] + [to[i]] && was[..i + 1] == was[..i] + [was[i]];
        if LrState(lr[t, i]) == 1 && LrIntid(lr[t, i]) == intid {
          lr[t, i] := LR_DIRTY;
          dirty[t] := MarkGic(dirty[t]);
          MarkTwice(old(dirty[t]));
          assert to[i] != was[i];
        }
        i := i + 1;
      }
      assert to[..8] == to && was[..8] == was;
      assert Lrs(t) == to;
      assert forall c :: 0 <= c < CPUS && c != t ==> Lrs(c) == old(Lrs(c));
    }

    /** The distributor's half: the pending bit follows the level. */
    method Record(intid: Intid, level: bool)
      requires Valid()
      modifies dist
      ensures View() == Recorded(old(View()), intid, level)
    {
      var word := ISPENDR0 + intid / 32;
      dist[word] := if level then With(dist[word], intid % 32) else Without(dist[word], intid % 32);
      assert View().dist == Recorded(old(View()), intid, level).dist;
      assert View().cpus == old(View()).cpus;
    }

    /** The hardware's half. */
    method Deliver(intid: Intid, level: bool)
      requires Valid()
      modifies lr, dirty
      ensures View() == Delivered(old(View()), intid, level)
    {
      ghost var g := View();
      var t := FirstUsed();
      if t >= MODELLED_CPUS {
        return;
      }
      if level {
        if !Bit(dist[ISENABLER0 + intid / 32], intid % 32) {
          return;
        }
        var priority := PriorityOf(intid);
        Inject(t, intid, priority);
      } else {
        Withdraw(t, intid);
      }
      assert View().cpus == g.cpus[t := CpuAt(t)];
    }

    method PriorityOf(intid: Intid) returns (p: nat)
      requires Valid()
      ensures p < 256 && p == Priority(View(), intid)
    {
      LowBelow(Shr(dist[IPRIORITYR0 + intid / 4], 8 * (intid % 4)), 8);
      assert Pow2(8) == 256;
      p := Low(Shr(dist[IPRIORITYR0 + intid / 4], 8 * (intid % 4)), 8);
    }

    /** hv_gic_set_spi. */
    method SetSpiLevel(intid: nat, level: bool) returns (ok: bool)
      requires Valid()
      modifies dist, lr, dirty
      ensures ok <==> SPI_BASE <= intid < SPI_END
      ensures View() == if ok then SetSpi(old(View()), intid, level) else old(View())
    {
      if intid < SPI_BASE || intid >= SPI_END {
        return false;
      }
      ok := true;
      Record(intid, level);
      Deliver(intid, level);
    }
  }

  lemma {:induction false} MarkTwice(dirty: u64)
    ensures MarkGic(MarkGic(dirty)) == MarkGic(dirty)
  {
    var d := MarkGic(dirty);
    WithBits(dirty, Slot.D_GIC);
    WithBits(With(dirty, Slot.D_GIC), Slot.D_CONTROLS);
    WriteSame(d, Slot.D_GIC);
    WriteSame(d, Slot.D_CONTROLS);
  }
}
