/** The interrupt-level gate: HCR_EL2.VF and VI, recomputed before every guest
  entry (src/ohv_vcpu.cpp:2754-2817, 2956-3266, 3281-3418).

  The functions say what each library call does to the vCPU, branch by branch;
  `FiqLevel` and `IrqLevel` say what the two levels should be, from nothing
  but the lines, the PC and PSTATE, and the lemmas tie the two together.
*/
module Gate {
  import opened Words
  import opened Slot
  import opened Timers
  import Band

  const MONITOR_SIZE := 0x2000_0000

  const PSTATE_F: nat := 6
  const PSTATE_I: nat := 7

  // ------------------------------------------------------------ the monitor

  predicate InMonitor(base: u64, pc: u64) {
    base != 0 && base <= pc < Add(base, MONITOR_SIZE)
  }

  /** The window as intended, without the wrap at 2^64. */
  predicate InWindow(base: u64, pc: u64) {
    base != 0 && base <= pc < base + MONITOR_SIZE
  }

  /** The test sees the whole window exactly for bands that end at or below
      2^64 - 1; a higher one wraps, and then no PC is in the monitor. */
  lemma {:induction false} WindowExactly(base: u64)
    ensures (forall pc: u64 :: InMonitor(base, pc) <==> InWindow(base, pc))
            <==> base + MONITOR_SIZE < TWO64
    ensures base + MONITOR_SIZE >= TWO64 ==> forall pc: u64 :: !InMonitor(base, pc)
  {
    WrapOnce(base, MONITOR_SIZE);
    if base + MONITOR_SIZE >= TWO64 {
      assert InWindow(base, base) && !InMonitor(base, base);
    }
  }

  // ---------------------------------------------------------- the predicates

  predicate FiqTakeable(s: Slot) {
    s.lines.parked || (!InMonitor(s.lines.base, s.page[PC]) && !Bit(s.cpsr, PSTATE_F))
  }

  predicate IrqTakeable(s: Slot) {
    s.lines.parked || (!InMonitor(s.lines.base, s.page[PC]) && !Bit(s.cpsr, PSTATE_I))
  }

  /** ohv_timer_fiq_wanted in its default mode. */
  predicate TimerWanted(s: Slot) {
    if !(s.lines.firedV || s.lines.firedP) then false
    else if s.lines.base == 0 then true
    else FiqTakeable(s)
  }

  /** `asIrq` is the set of vCPUs whose timer is delivered as an IRQ. */
  predicate TimerAsIrq(asIrq: u64, id: nat) {
    id < 64 && Bit(asIrq, id)
  }

  /** The mask has a bit a vCPU. */
  lemma {:induction false} AsIrqNames(asIrq: u64, n: nat, id: nat)
    requires n < 64
    ensures TimerAsIrq(With(asIrq, n), id) <==> id == n || TimerAsIrq(asIrq, id)
    ensures !TimerAsIrq(0, id)
  {
    SetBitAt(asIrq, n, id);
    NoBits(id);
  }

  // ------------------------------------------------------- the library calls

  function SetLevel(s: Slot, bit: nat, want: bool): Slot
    requires bit < 64
  {
    if Bit(s.page[HCR], bit) == want then s
    else Mark(Put(s, HCR, WriteBit(s.page[HCR], bit, want)), D_CONTROLS)
  }

  function SetFiqLevel(s: Slot, asIrq: u64): Slot {
    var s1 := s.(lines := s.lines.(timerFiq := TimerWanted(s) && !TimerAsIrq(asIrq, s.id)));
    var vmm := s.lines.vmmFiq && (s.lines.base == 0 || FiqTakeable(s));
    SetLevel(s1, VF, vmm || s1.lines.timerFiq)
  }

  function SetIrqLevel(s: Slot, asIrq: u64): Slot {
    var timer := TimerAsIrq(asIrq, s.id) && TimerWanted(s);
    SetLevel(s, VI, (s.lines.vmmIrq || timer) && (s.lines.base == 0 || IrqTakeable(s)))
  }

  function SetPending(s: Slot, fiq: bool, pending: bool, asIrq: u64): Slot {
    if fiq then SetFiqLevel(s.(lines := s.lines.(vmmFiq := pending)), asIrq)
    else SetIrqLevel(s.(lines := s.lines.(vmmIrq := pending)), asIrq)
  }

  function SetParked(s: Slot, parked: bool, asIrq: u64): Slot {
    if s.lines.parked == parked then s
    else SetIrqLevel(SetFiqLevel(s.(lines := s.lines.(parked := parked)), asIrq), asIrq)
  }

  /** ohv_note_image_band, for this vCPU; `shared` is the band the load of the
      global word returned. */
  function NotedBase(base: u64, shared: u64, pc: u64): u64 {
    var b := if base == 0 then shared else base;
    if pc < Band.KERNEL_VA then b
    else if b == 0 || Band.BandOf(pc) < b then Band.BandOf(pc) else b
  }

  /** What the loop on the shared word leaves there, alone with it. */
  function Published(shared: u64, band: u64): u64 {
    if shared != 0 && shared <= band then shared else band
  }

  /** The shared word after one vCPU has noted where it is. */
  function SharedAfter(base: u64, shared: u64, pc: u64): u64 {
    var b := if base == 0 then shared else base;
    if pc >= Band.KERNEL_VA && (b == 0 || Band.BandOf(pc) < b) then Published(shared, Band.BandOf(pc)) else shared
  }

  /** Both are what the shared protocol's steps come to when no other thread is
      between them: enter, load, and exchange unless the word is low enough. */
  lemma {:induction false} NotedInProtocol(base: u64, shared: u64, pc: u64)
    ensures var t := Band.Do(shared, Band.Thread(base, Band.Ready), Band.Note(pc));
            && t.base == NotedBase(base, shared, pc)
            && if t.place.Ready? then SharedAfter(base, shared, pc) == shared
               else
                 var t' := Band.Do(shared, t, Band.Load);
                 if t'.place.Ready? then SharedAfter(base, shared, pc) == shared
                 else && Band.CanDo(shared, t', Band.Exchange) && Band.Do(shared, t', Band.Exchange).place.Ready?
                      && SharedAfter(base, shared, pc) == t'.place.band
  {
  }

  /** A vCPU in the kernel's half knows a base, and it is not above where it
      is; in the other half it knows one if any vCPU does. */
  lemma {:induction false} NotedBelow(base: u64, shared: u64, pc: u64)
    ensures pc >= Band.KERNEL_VA ==> 0 < NotedBase(base, shared, pc) <= pc
    ensures pc < Band.KERNEL_VA ==> NotedBase(base, shared, pc) == if base != 0 then base else shared
    ensures base != 0 ==> NotedBase(base, shared, pc) <= base
  {
    Band.BandIsFloor(pc, Band.BandOf(pc));
  }

  function NoteBand(s: Slot, shared: u64): Slot {
    s.(lines := s.lines.(base := NotedBase(s.lines.base, shared, s.page[PC])))
  }

  /** One timer's turn in the sweep. */
  function SweepVirtual(s: Slot, now: u64): Slot {
    var ctl, cval := s.page[CNTV_CTL], s.page[CNTV_CVAL];
    var s1 := if Rewritten(ctl, cval, now) then Mark(Put(s, CNTV_CTL, Swept(ctl, cval, now)), D_SYSREGS) else s;
    s1.(lines := s1.lines.(firedV := Fired(ctl, cval, now)))
  }

  function SweepPhysical(s: Slot, now: u64): Slot {
    var ctl, cval := s.shadow[SHADOW_CNTP_CTL], s.page[CNTP_CVAL];
    var s1 := if Rewritten(ctl, cval, now)
              then Mark(s.(shadow := s.shadow[SHADOW_CNTP_CTL := Swept(ctl, cval, now)]), D_SYSREGS) else s;
    s1.(lines := s1.lines.(firedP := Fired(ctl, cval, now)))
  }

  /** What every turn of the run loop does before the guest is entered. */
  function ExpireTimers(s: Slot, now: u64, shared: u64, asIrq: u64): Slot {
    var s1 := NoteBand(s, shared);
    var s2 := SweepPhysical(SweepVirtual(s1, now), now);
    SetIrqLevel(SetFiqLevel(s2, asIrq), asIrq)
  }

  // ------------------------------------------------- what the levels should be

  /** What the two levels depend on. */
  datatype View = View(vmmFiq: bool, vmmIrq: bool, due: bool, base: u64, parked: bool, pc: u64, pstate: u32,
                       asIrq: bool)
  {
    /** The guest may be handed a level that its mask bit `m` gates. */
    predicate Gate(m: nat) {
      base == 0 || parked || (!InMonitor(base, pc) && !Bit(pstate, m))
    }

    predicate FiqLevel() {
      Gate(PSTATE_F) && (vmmFiq || (due && !asIrq))
    }

    /** A timer delivered as an IRQ passes both gates. */
    predicate IrqLevel() {
      Gate(PSTATE_I) && (vmmIrq || (due && asIrq && Gate(PSTATE_F)))
    }
  }

  function ViewOf(s: Slot, asIrq: u64): View {
    View(s.lines.vmmFiq, s.lines.vmmIrq, s.lines.firedV || s.lines.firedP, s.lines.base, s.lines.parked,
         s.page[PC], s.cpsr, TimerAsIrq(asIrq, s.id))
  }

  // ---------------------------------------------------------- refinement

  /** `s'` is `s` but for two words of the page, HCR_EL2 and the dirty mask,
      and for the timer half of the FIQ line; a new HCR_EL2 is marked. */
  ghost predicate LevelsOnly(s: Slot, s': Slot) {
    && s'.page == s.page[HCR := s'.page[HCR]][DIRTY := s'.page[DIRTY]]
    && s' == s.(page := s'.page, lines := s.lines.(timerFiq := s'.lines.timerFiq))
    && s'.page[DIRTY] == (if s'.page[HCR] == s.page[HCR] then s.page[DIRTY] else With(s.page[DIRTY], D_CONTROLS))
  }

  /** A level set only when it differs is a level set, and touches no other
      bit. */
  lemma {:induction false} SetLevelWrites(s: Slot, bit: nat, want: bool)
    requires bit < 64
    ensures SetLevel(s, bit, want).page[HCR] == WriteBit(s.page[HCR], bit, want)
    ensures LevelsOnly(s, SetLevel(s, bit, want))
  {
    WriteBitLazily(s.page[HCR], bit, want);
    WriteBitAt(s.page[HCR], bit, want, bit);
    assert s.page[HCR := s.page[HCR]][DIRTY := s.page[DIRTY]] == s.page;
  }

  lemma {:induction false} FiqIsLevel(s: Slot, asIrq: u64)
    ensures var s' := SetFiqLevel(s, asIrq);
            && s'.page[HCR] == WriteBit(s.page[HCR], VF, ViewOf(s, asIrq).FiqLevel())
            && LevelsOnly(s, s') && ViewOf(s', asIrq) == ViewOf(s, asIrq)
  {
    var s1 := s.(lines := s.lines.(timerFiq := TimerWanted(s) && !TimerAsIrq(asIrq, s.id)));
    SetLevelWrites(s1, VF, ViewOf(s, asIrq).FiqLevel());
  }

  lemma {:induction false} IrqIsLevel(s: Slot, asIrq: u64)
    ensures var s' := SetIrqLevel(s, asIrq);
            && s'.page[HCR] == WriteBit(s.page[HCR], VI, ViewOf(s, asIrq).IrqLevel())
            && LevelsOnly(s, s') && ViewOf(s', asIrq) == ViewOf(s, asIrq)
  {
    SetLevelWrites(s, VI, ViewOf(s, asIrq).IrqLevel());
  }

  lemma {:induction false} BothLevels(s: Slot, asIrq: u64, k: nat)
    ensures var s' := SetIrqLevel(SetFiqLevel(s, asIrq), asIrq);
            var v := ViewOf(s, asIrq);
            && ViewOf(s', asIrq) == v
            && (Bit(s'.page[HCR], k)
                <==> if k == VF then v.FiqLevel() else if k == VI then v.IrqLevel() else Bit(s.page[HCR], k))
  {
    var v := ViewOf(s, asIrq);
    FiqIsLevel(s, asIrq);
    var s1 := SetFiqLevel(s, asIrq);
    IrqIsLevel(s1, asIrq);
    WriteBitAt(s.page[HCR], VF, v.FiqLevel(), k);
    WriteBitAt(s1.page[HCR], VI, v.IrqLevel(), k);
  }

  /** Whether some unmasked timer has come due, from the registers alone. */
  predicate TimersDue(s: Slot, now: u64) {
    || Fired(s.page[CNTV_CTL], s.page[CNTV_CVAL], now)
    || Fired(s.shadow[SHADOW_CNTP_CTL], s.page[CNTP_CVAL], now)
  }

  /** What a guest entry at `now` should see. */
  function ViewAt(s: Slot, now: u64, shared: u64, asIrq: u64): View {
    View(s.lines.vmmFiq, s.lines.vmmIrq, TimersDue(s, now), NotedBase(s.lines.base, shared, s.page[PC]),
         s.lines.parked, s.page[PC], s.cpsr, TimerAsIrq(asIrq, s.id))
  }

  lemma {:induction false} VirtualSwept(s: Slot, now: u64)
    ensures var s' := SweepVirtual(s, now);
            && s'.lines == s.lines.(firedV := Fired(s.page[CNTV_CTL], s.page[CNTV_CVAL], now))
            && s'.shadow == s.shadow && s'.cpsr == s.cpsr && s'.id == s.id
            && s'.page[HCR] == s.page[HCR] && s'.page[PC] == s.page[PC] && s'.page[CNTP_CVAL] == s.page[CNTP_CVAL]
  {
  }

  lemma {:induction false} PhysicalSwept(s: Slot, now: u64)
    ensures var s' := SweepPhysical(s, now);
            && s'.lines == s.lines.(firedP := Fired(s.shadow[SHADOW_CNTP_CTL], s.page[CNTP_CVAL], now))
            && s'.cpsr == s.cpsr && s'.id == s.id
            && s'.page[HCR] == s.page[HCR] && s'.page[PC] == s.page[PC]
  {
  }

  lemma {:induction false} SweepView(s: Slot, now: u64, shared: u64, asIrq: u64)
    ensures var s' := SweepPhysical(SweepVirtual(NoteBand(s, shared), now), now);
            ViewOf(s', asIrq) == ViewAt(s, now, shared, asIrq) && s'.page[HCR] == s.page[HCR]
  {
    var s1 := NoteBand(s, shared);
    VirtualSwept(s1, now);
    PhysicalSwept(SweepVirtual(s1, now), now);
  }

  /** At every guest entry, VF and VI are the levels of the state as it is
      then, whatever HCR_EL2 held before and whatever the lines did in
      between; the other 62 bits of HCR_EL2 are untouched. */
  lemma {:induction false} EntryLevels(s: Slot, now: u64, shared: u64, asIrq: u64, k: nat)
    ensures var s' := ExpireTimers(s, now, shared, asIrq);
            var v := ViewAt(s, now, shared, asIrq);
            && ViewOf(s', asIrq) == v
            && (Bit(s'.page[HCR], k)
                <==> if k == VF then v.FiqLevel() else if k == VI then v.IrqLevel() else Bit(s.page[HCR], k))
  {
    SweepView(s, now, shared, asIrq);
    BothLevels(SweepPhysical(SweepVirtual(NoteBand(s, shared), now), now), asIrq, k);
  }

  /** Outside HCR_EL2, the dirty mask, the two control words' ISTATUS and the
      lines, a guest entry changes nothing; a changed HCR_EL2 is marked. */
  lemma {:induction false} EntryFrame(s: Slot, now: u64, shared: u64, asIrq: u64)
    ensures var s' := ExpireTimers(s, now, shared, asIrq);
            && s'.page == s.page[CNTV_CTL := Swept(s.page[CNTV_CTL], s.page[CNTV_CVAL], now)]
                                [HCR := s'.page[HCR]][DIRTY := s'.page[DIRTY]]
            && s'.shadow == s.shadow[SHADOW_CNTP_CTL := Swept(s.shadow[SHADOW_CNTP_CTL], s.page[CNTP_CVAL], now)]
            && s' == s.(page := s'.page, shadow := s'.shadow, lines := s'.lines)
            && (Bit(s.page[DIRTY], D_CONTROLS) || s'.page[HCR] != s.page[HCR] ==> Bit(s'.page[DIRTY], D_CONTROLS))
  {
    var s1 := NoteBand(s, shared);
    SweepFrame(s1, now);
    LevelsFrame(SweepPhysical(SweepVirtual(s1, now), now), asIrq);
  }

  lemma {:induction false} LevelsFrame(s: Slot, asIrq: u64)
    ensures var s' := SetIrqLevel(SetFiqLevel(s, asIrq), asIrq);
            && s'.page == s.page[HCR := s'.page[HCR]][DIRTY := s'.page[DIRTY]]
            && s' == s.(page := s'.page, lines := s'.lines)
            && (Bit(s.page[DIRTY], D_CONTROLS) || s'.page[HCR] != s.page[HCR] ==> Bit(s'.page[DIRTY], D_CONTROLS))
  {
    FiqIsLevel(s, asIrq);
    var s1 := SetFiqLevel(s, asIrq);
    IrqIsLevel(s1, asIrq);
    SetBitAt(s.page[DIRTY], D_CONTROLS, D_CONTROLS);
    SetBitAt(s1.page[DIRTY], D_CONTROLS, D_CONTROLS);
  }

  lemma {:induction false} SweepFrame(s: Slot, now: u64)
    ensures var s' := SweepPhysical(SweepVirtual(s, now), now);
            && s'.page == s.page[CNTV_CTL := Swept(s.page[CNTV_CTL], s.page[CNTV_CVAL], now)]
                                [DIRTY := s'.page[DIRTY]]
            && s'.shadow == s.shadow[SHADOW_CNTP_CTL := Swept(s.shadow[SHADOW_CNTP_CTL], s.page[CNTP_CVAL], now)]
            && s' == s.(page := s'.page, shadow := s'.shadow, lines := s'.lines)
            && (Bit(s'.page[DIRTY], D_CONTROLS) <==> Bit(s.page[DIRTY], D_CONTROLS))
  {
    var ctl, cval := s.page[CNTV_CTL], s.page[CNTV_CVAL];
    SweptBits(ctl, cval, now, ISTATUS);
    SweptBits(s.shadow[SHADOW_CNTP_CTL], s.page[CNTP_CVAL], now, ISTATUS);
    SetBitAt(s.page[DIRTY], D_SYSREGS, D_CONTROLS);
    SetBitAt(SweepVirtual(s, now).page[DIRTY], D_SYSREGS, D_CONTROLS);
    assert s.page[CNTV_CTL := ctl][DIRTY := s.page[DIRTY]] == s.page;
    assert s.shadow[SHADOW_CNTP_CTL := s.shadow[SHADOW_CNTP_CTL]] == s.shadow;
  }

  // ------------------------------------------------------------ gate safety

  /** With the monitor known, a level stands at an entry only if the guest is
      parked or would take it at once: outside the monitor, unmasked. */
  lemma {:induction false} GateSafety(s: Slot, now: u64, shared: u64, asIrq: u64)
    ensures var s' := ExpireTimers(s, now, shared, asIrq);
            s'.lines.base != 0 && !s'.lines.parked ==>
              && (Bit(s'.page[HCR], VF) ==> !InMonitor(s'.lines.base, s'.page[PC]) && !Bit(s'.cpsr, PSTATE_F))
              && (Bit(s'.page[HCR], VI) ==> !InMonitor(s'.lines.base, s'.page[PC]) && !Bit(s'.cpsr, PSTATE_I))
  {
    EntryLevels(s, now, shared, asIrq, VF);
    EntryLevels(s, now, shared, asIrq, VI);
  }

  /** A due timer reaches one of the two lines and not the other, and neither
      the VMM's half nor the timer's can take the other's level down. */
  lemma {:induction false} TimerPicksOneLine(v: View)
    ensures !v.vmmFiq && !v.vmmIrq ==> !(v.FiqLevel() && v.IrqLevel())
    ensures v.due && v.Gate(PSTATE_F) && v.Gate(PSTATE_I) ==> (if v.asIrq then v.IrqLevel() else v.FiqLevel())
    ensures v.vmmFiq && v.Gate(PSTATE_F) ==> v.FiqLevel()
    ensures v.vmmIrq && v.Gate(PSTATE_I) ==> v.IrqLevel()
    ensures !v.vmmFiq && !v.due ==> !v.FiqLevel()
    ensures !v.vmmIrq && !v.due ==> !v.IrqLevel()
  {
  }

  /** The two levels in plain numbers.  A guest may be handed a level when the
      monitor is not known, when it is parked, and otherwise outside the 512 MiB
      from the monitor's base -- none at all when they wrap -- with the level's
      own mask, bit 6 or 7 of PSTATE, down; and a timer that is an IRQ has both
      masks to pass. */
  lemma {:induction false} LevelsInNumbers(v: View)
    ensures var inside := v.base <= v.pc < v.base + 0x2000_0000 && v.base + 0x2000_0000 < TWO64;
            var f := v.base == 0 || v.parked || (!inside && !Bit(v.pstate, 6));
            var i := v.base == 0 || v.parked || (!inside && !Bit(v.pstate, 7));
            && (v.FiqLevel() <==> f && (v.vmmFiq || (v.due && !v.asIrq)))
            && (v.IrqLevel() <==> i && (v.vmmIrq || (v.due && v.asIrq && f)))
  {
    WrapOnce(v.base, MONITOR_SIZE);
  }

  /** The VMM's call leaves the level of the line it sets what it should be
      then and there, and the other line alone. */
  lemma {:induction false} PendingSetsLevel(s: Slot, fiq: bool, level: bool, asIrq: u64)
    ensures var s' := SetPending(s, fiq, level, asIrq);
            var v := ViewOf(s', asIrq);
            && v == (if fiq then ViewOf(s, asIrq).(vmmFiq := level) else ViewOf(s, asIrq).(vmmIrq := level))
            && s'.page[HCR] == WriteBit(s.page[HCR], if fiq then VF else VI, if fiq then v.FiqLevel() else v.IrqLevel())
  {
    if fiq {
      FiqIsLevel(s.(lines := s.lines.(vmmFiq := level)), asIrq);
    } else {
      IrqIsLevel(s.(lines := s.lines.(vmmIrq := level)), asIrq);
    }
  }

  /** Parking a guest, or unparking it, sets both levels again. */
  lemma {:induction false} ParkingSetsLevels(s: Slot, parked: bool, asIrq: u64, k: nat)
    requires s.lines.parked != parked
    ensures var s' := SetParked(s, parked, asIrq);
            var v := ViewOf(s, asIrq).(parked := parked);
            && ViewOf(s', asIrq) == v
            && (Bit(s'.page[HCR], k)
                <==> if k == VF then v.FiqLevel() else if k == VI then v.IrqLevel() else Bit(s.page[HCR], k))
  {
    BothLevels(s.(lines := s.lines.(parked := parked)), asIrq, k);
  }
}
