/** The virtual timer's mask (src/ohv_vcpu.cpp:1839-1847, 2861-2867): it goes up
  in the page, unmarked, when the timer's interrupt is reported, and the
  hardware has it at the next entry only if something marks the controls first.
*/
module TimerMask {
  import opened Words
  import opened Slot
  import opened Timers
  import opened Gate
  import opened Emulator
  import opened EmulatorLaws
  import opened Exits
  import opened ExitLaws
  import opened Machine
  import Band
  import Calls
  import Sysregs

  // ------------------------------------------------------------- who marks

  /** A level that is not what the line should be now. */
  predicate Moves(hcr: u64, v: View) {
    Bit(hcr, VF) != v.FiqLevel() || Bit(hcr, VI) != v.IrqLevel()
  }

  predicate PendingMoves(s: Slot, fiq: bool, level: bool, asIrq: u64) {
    if fiq then Bit(s.page[HCR], VF) != ViewOf(s, asIrq).(vmmFiq := level).FiqLevel()
    else Bit(s.page[HCR], VI) != ViewOf(s, asIrq).(vmmIrq := level).IrqLevel()
  }

  /** The calls that mark the controls. */
  ghost predicate Marks(s: Slot, e: Event, asIrq: u64) {
    match e
    case Pending(fiq, level) => PendingMoves(s, fiq, level, asIrq)
    case Park(parked) => s.lines.parked != parked && Moves(s.page[HCR], ViewOf(s, asIrq).(parked := parked))
    case Control(field, _) => ControlWord(field).Some? && field != APSTS_FIELD
    case TimerMask(_) => true
    case TimerOffset(_) => true
    case SysReg(enc, _) =>
      var l := Sysregs.Lookup(enc);
      l.Some? && l.value.Page? && l.value.mark == Some(D_CONTROLS)
    case Other(c) => Calls.Marks(s, c)
    case _ => false
  }

  /** The exits that mark the controls before the interrupt is looked at: NV
      goes back up. */
  predicate Rearms(s: Slot, x: Exit) {
    || (s.nvOff && Ec(x.esr) == EC_GEXIT)
    || (s.page[PC] >= Band.KERNEL_VA && !Bit(s.page[HCR], NV))
  }

  /** An entry marks the controls when a level changes. */
  predicate EntryMoves(s: Slot, now: u64, shared: u64, asIrq: u64) {
    Moves(s.page[HCR], ViewAt(s, now, shared, asIrq))
  }

  predicate IsMarked(s: Slot) {
    Bit(s.page[DIRTY], D_CONTROLS)
  }

  lemma {:induction false} LevelMarks(s: Slot, bit: nat, want: bool)
    requires bit < 64
    ensures IsMarked(SetLevel(s, bit, want)) <==> IsMarked(s) || Bit(s.page[HCR], bit) != want
    ensures SetLevel(s, bit, want).page[TIMER] == s.page[TIMER]
  {
    SetBitAt(s.page[DIRTY], D_CONTROLS, D_CONTROLS);
  }

  lemma {:induction false} FiqMarks(s: Slot, asIrq: u64)
    ensures var s' := SetFiqLevel(s, asIrq);
            && (IsMarked(s') <==> IsMarked(s) || Bit(s.page[HCR], VF) != ViewOf(s, asIrq).FiqLevel())
            && s'.page[TIMER] == s.page[TIMER]
            && ViewOf(s', asIrq) == ViewOf(s, asIrq) && (Bit(s'.page[HCR], VI) <==> Bit(s.page[HCR], VI))
  {
    var s1 := s.(lines := s.lines.(timerFiq := TimerWanted(s) && !TimerAsIrq(asIrq, s.id)));
    LevelMarks(s1, VF, ViewOf(s, asIrq).FiqLevel());
    FiqIsLevel(s, asIrq);
    WriteBitAt(s.page[HCR], VF, ViewOf(s, asIrq).FiqLevel(), VI);
  }

  lemma {:induction false} IrqMarks(s: Slot, asIrq: u64)
    ensures var s' := SetIrqLevel(s, asIrq);
            && (IsMarked(s') <==> IsMarked(s) || Bit(s.page[HCR], VI) != ViewOf(s, asIrq).IrqLevel())
            && s'.page[TIMER] == s.page[TIMER]
  {
    LevelMarks(s, VI, ViewOf(s, asIrq).IrqLevel());
  }

  lemma {:induction false} BothMark(s: Slot, asIrq: u64)
    ensures var s' := SetIrqLevel(SetFiqLevel(s, asIrq), asIrq);
            && (IsMarked(s') <==> IsMarked(s) || Moves(s.page[HCR], ViewOf(s, asIrq)))
            && s'.page[TIMER] == s.page[TIMER]
  {
    FiqMarks(s, asIrq);
    IrqMarks(SetFiqLevel(s, asIrq), asIrq);
  }

  lemma {:induction false} SysRegMarks(s: Slot, enc: nat, v: u64, host: Bank20)
    ensures var s' := Sysregs.SetSysReg(s, enc, v, host).1;
            && (IsMarked(s') <==> IsMarked(s) || Marks(s, SysReg(enc, v), 0)) && s'.page[TIMER] == s.page[TIMER]
  {
    Sysregs.LookupPlaced(enc);
    var l := Sysregs.Lookup(enc);
    if l.Some? && l.value.Page? && l.value.mark.Some? {
      SetBitAt(s.page[DIRTY], l.value.mark.value, D_CONTROLS);
    }
  }

  lemma {:induction false} PendingMarks(s: Slot, fiq: bool, level: bool, asIrq: u64)
    ensures var s' := SetPending(s, fiq, level, asIrq);
            && (IsMarked(s') <==> IsMarked(s) || PendingMoves(s, fiq, level, asIrq))
            && s'.page[TIMER] == s.page[TIMER]
  {
    var s1 := s.(lines := if fiq then s.lines.(vmmFiq := level) else s.lines.(vmmIrq := level));
    PendingView(s, fiq, level, asIrq);
    if fiq {
      FiqMarks(s1, asIrq);
    } else {
      IrqMarks(s1, asIrq);
    }
  }

  lemma {:induction false} PendingView(s: Slot, fiq: bool, level: bool, asIrq: u64)
    ensures var v := ViewOf(s.(lines := if fiq then s.lines.(vmmFiq := level) else s.lines.(vmmIrq := level)), asIrq);
            && (fiq ==> v.FiqLevel() == ViewOf(s, asIrq).(vmmFiq := level).FiqLevel())
            && (!fiq ==> v.IrqLevel() == ViewOf(s, asIrq).(vmmIrq := level).IrqLevel())
  {
  }

  lemma {:induction false} CallMarks(s: Slot, e: Event, asIrq: u64, host: Bank20)
    requires IsCall(e)
    ensures var s' := Call(s, e, asIrq, host);
            && (IsMarked(s') <==> IsMarked(s) || Marks(s, e, asIrq))
            && (e.TimerMask? || s'.page[TIMER] == s.page[TIMER])
  {
    match e
    case Pending(fiq, level) => PendingMarks(s, fiq, level, asIrq);
    case Park(parked) => BothMark(s.(lines := s.lines.(parked := parked)), asIrq);
    case _ => WriteMarks(s, e, asIrq, host);
  }

  lemma {:induction false} WriteMarks(s: Slot, e: Event, asIrq: u64, host: Bank20)
    requires IsCall(e) && !e.Pending? && !e.Park?
    ensures var s' := Call(s, e, asIrq, host);
            && (IsMarked(s') <==> IsMarked(s) || Marks(s, e, asIrq))
            && (e.TimerMask? || s'.page[TIMER] == s.page[TIMER])
  {
    SetBitAt(s.page[DIRTY], D_CONTROLS, D_CONTROLS);
    match e
    case SysReg(enc, v) => SysRegMarks(s, enc, v, host);
    case Other(c) => Calls.ApplyElsewhere(s, c);
    case _ =>
  }

  lemma {:induction false} EntryMarks(s: Slot, now: u64, shared: u64, asIrq: u64)
    ensures var s' := ExpireTimers(s, now, shared, asIrq);
            && (IsMarked(s') <==> IsMarked(s) || EntryMoves(s, now, shared, asIrq))
            && s'.page[TIMER] == s.page[TIMER]
  {
    SweepView(s, now, shared, asIrq);
    SweepFrame(NoteBand(s, shared), now);
    BothMark(SweepPhysical(SweepVirtual(NoteBand(s, shared), now), now), asIrq);
  }

  // --------------------------------------------------------------- the exit

  lemma {:induction false} RestoreMarks(s: Slot, x: Exit)
    ensures IsMarked(RestoreNv(s, x)) <==> IsMarked(s) || Rearms(s, x)
    ensures RestoreNv(s, x).page[TIMER] == s.page[TIMER]
  {
    RestoreKeeps(s, x, 0);
    ArmKeeps(s, 0);
    var s1 := if s.nvOff && Ec(x.esr) == EC_GEXIT then ArmNv(s).(nvOff := false) else s;
    ArmKeeps(s1, 0);
  }

  lemma {:induction false} SynchronousTimer(s: Slot, x: Exit)
    ensures Synchronous(s, x).0.page[TIMER] == s.page[TIMER] && Synchronous(s, x).1 != Activated(x)
  {
  }

  /** What the VMM is told when the virtual timer's interrupt is reported. */
  function Activated(x: Exit): Action {
    Report(x, VtimerActivated, x.esr)
  }

  lemma {:induction false} TrappedTimer(s: Slot, x: Exit, e: Env)
    ensures Trapped(s, x, e).0.page[TIMER] == s.page[TIMER] && Trapped(s, x, e).1 != Activated(x)
  {
    if Ec(x.esr) == EC_SYSREG {
      var a := Decode(x.esr);
      ServeKeeps(s, a, e);
      assert Serve(s, a, e).slot.page[TIMER] == s.page[TIMER];
      SynchronousTimer(Service(s, a, e).1, x);
    } else {
      SynchronousTimer(s, x);
    }
  }

  /** Only that report writes the timer word: it was unmasked, and is masked. */
  lemma {:induction false} HandleTimer(s: Slot, x: Exit, e: Env)
    ensures var (s', act) := Handle(s, x, e);
            if act == Activated(x)
            then && !Bit(s.page[TIMER], 0) && Bit(s'.page[TIMER], 0)
                 && (IsMarked(s') <==> IsMarked(s) || Rearms(s, x))
            else s'.page[TIMER] == s.page[TIMER]
  {
    RestoreMarks(s, x);
    var s1 := RestoreNv(s, x);
    if x.reason == MSR_TRAP {
      TrappedTimer(s1, x, e);
    } else if x.reason == SYNC {
      SynchronousTimer(s1, x);
    } else {
      SetBitAt(s1.page[TIMER], 0, 0);
    }
  }

  // -------------------------------------------------------------- whole runs

  /** The hardware is behind the page only when the page is masked. */
  predicate Behind(m: Machine) {
    m.hwTimer != m.slot.page[TIMER] && !IsMarked(m.slot) ==> Bit(m.slot.page[TIMER], 0)
  }

  lemma {:induction false} TrapTimer(m: Machine, now: u64, shared: u64, asIrq: u64, g: Guest)
    requires Behind(m)
    ensures var m1 := AtEntry(m, now, shared, asIrq);
            && Behind(m1) && Behind(RunTrap(m1, g)) && RunTrap(m1, g).slot.page[DIRTY] == 0
  {
    EntryMarks(m.slot, now, shared, asIrq);
    NoBits(D_CONTROLS);
  }

  lemma {:induction false} StepBehind(m: Machine, e: Event, asIrq: u64, host: Bank20)
    requires Behind(m)
    ensures Behind(Step(m, e, asIrq, host))
  {
    if e.Turn? {
      TurnBehind(m, e, asIrq, host);
    } else if e.Cut? {
      CutBehind(m, e, asIrq, host);
    } else {
      CallBehind(m, e, asIrq, host);
    }
  }

  lemma {:induction false} TurnBehind(m: Machine, e: Event, asIrq: u64, host: Bank20)
    requires Behind(m) && e.Turn?
    ensures Behind(Step(m, e, asIrq, host))
  {
    TrapTimer(m, e.now, e.shared, asIrq, e.guest);
    ExitBehind(RunTrap(AtEntry(m, e.now, e.shared, asIrq), e.guest), e.exit, e.env);
  }

  lemma {:induction false} CutBehind(m: Machine, e: Event, asIrq: u64, host: Bank20)
    requires Behind(m) && e.Cut?
    ensures Behind(Step(m, e, asIrq, host))
  {
    EntryBehind(m, e.now, e.shared, asIrq);
    if e.ran.Some? {
      TrapTimer(m, e.now, e.shared, asIrq, e.ran.value);
    }
  }

  lemma {:induction false} EntryBehind(m: Machine, now: u64, shared: u64, asIrq: u64)
    requires Behind(m)
    ensures Behind(AtEntry(m, now, shared, asIrq))
  {
    EntryMarks(m.slot, now, shared, asIrq);
  }

  lemma {:induction false} CallBehind(m: Machine, e: Event, asIrq: u64, host: Bank20)
    requires Behind(m) && IsCall(e)
    ensures Behind(Step(m, e, asIrq, host))
  {
    CallMarks(m.slot, e, asIrq, host);
  }

  lemma {:induction false} ExitBehind(m: Machine, x: Exit, e: Env)
    requires Behind(m)
    ensures Behind(m.(slot := Handle(m.slot, x, e).0))
  {
    HandleTimer(m.slot, x, e);
    HandleKeeps(m.slot, x, e, 0);
  }

  /** ... over any run. */
  lemma {:induction false} RunBehind(m: Machine, es: seq<Event>, asIrq: u64, host: Bank20)
    requires Behind(m)
    ensures Behind(Run(m, es, asIrq, host))
  {
    if es != [] {
      RunBehind(m, es[..|es| - 1], asIrq, host);
      StepBehind(Run(m, es[..|es| - 1], asIrq, host), es[|es| - 1], asIrq, host);
    }
  }

  predicate AllCalls(es: seq<Event>) {
    es == [] || (AllCalls(es[..|es| - 1]) && IsCall(es[|es| - 1]))
  }

  /** One of the calls marks the controls, at the state it finds. */
  ghost predicate SomeMarks(m: Machine, es: seq<Event>, asIrq: u64, host: Bank20) {
    es != [] &&
    (|| SomeMarks(m, es[..|es| - 1], asIrq, host)
     || Marks(Run(m, es[..|es| - 1], asIrq, host).slot, es[|es| - 1], asIrq))
  }

  lemma {:induction false} CallsMark(m: Machine, es: seq<Event>, asIrq: u64, host: Bank20)
    requires AllCalls(es)
    ensures var m' := Run(m, es, asIrq, host);
            && m'.hwTimer == m.hwTimer
            && (IsMarked(m'.slot) <==> IsMarked(m.slot) || SomeMarks(m, es, asIrq, host))
            && (m'.slot.page[TIMER] == m.slot.page[TIMER] || IsMarked(m'.slot))
  {
    if es != [] {
      var n := |es| - 1;
      CallsMark(m, es[..n], asIrq, host);
      CallMarks(Run(m, es[..n], asIrq, host).slot, es[n], asIrq, host);
    }
  }

  /** Anywhere in any run: after a turn that reports the virtual timer, and
      whatever calls the VMM makes before it runs the vCPU again, the hardware
      has the page's timer word at the next entry exactly if NV went back up at
      that exit, or one of the calls marked the controls, or the entry changes
      a level. */
  lemma {:induction false} MaskReaches(m: Machine, t: Event, es: seq<Event>, now: u64, shared: u64,
                                       asIrq: u64, host: Bank20)
    requires Behind(m) && t.Turn? && AllCalls(es)
    ensures var m1 := RunTrap(AtEntry(m, t.now, t.shared, asIrq), t.guest);
            var m2 := Step(m, t, asIrq, host);
            var m3 := Run(m2, es, asIrq, host);
            var m4 := AtEntry(m3, now, shared, asIrq);
            Handle(m1.slot, t.exit, t.env).1 == Activated(t.exit) ==>
            (HardwareTimer(m4) == m4.slot.page[TIMER]
             <==> || Rearms(m1.slot, t.exit)
                  || SomeMarks(m2, es, asIrq, host)
                  || EntryMoves(m3.slot, now, shared, asIrq))
  {
    TrapTimer(m, t.now, t.shared, asIrq, t.guest);
    var m1 := RunTrap(AtEntry(m, t.now, t.shared, asIrq), t.guest);
    NoBits(D_CONTROLS);
    HandleTimer(m1.slot, t.exit, t.env);
    var m2 := Step(m, t, asIrq, host);
    if Handle(m1.slot, t.exit, t.env).1 == Activated(t.exit) {
      assert m2.hwTimer == m1.hwTimer == m1.slot.page[TIMER];
      CallsMark(m2, es, asIrq, host);
      EntryMarks(Run(m2, es, asIrq, host).slot, now, shared, asIrq);
    }
  }

  // -------------------------------------------------------------- an example

  function Quiet(): Page {
    seq(2048, i => 0)
  }

  /** The guest leaves with its virtual timer enabled and fired. */
  function Ringing(): Page {
    Quiet()[CNTV_CTL := 5]
  }

  /** A vCPU at EL1 with interrupts masked. */
  function Waiting(base: u64): Slot {
    Slot(Quiet(), ENTRY_PSTATE, 0, 0, seq(32, i => 0), Lines(false, false, false, false, false, base, false),
         Stores(seq(8, i => 0), [], [0, 0, 0], [], [], false, 0, 3), seq(20, i => 0), false, false, false, 0)
  }

  /** It runs, and its virtual timer's interrupt stops it. */
  function Interrupted(env: Env): Event {
    Turn(0, 0, Guest(Ringing(), ENTRY_PSTATE, 0, 0), Exit(3, 0, 0, 0, None, 0, 0), env)
  }

  lemma {:induction false} QuietBits()
    ensures !Bit(0, VF) && !Bit(0, VI) && !Bit(0, 0) && !Bit(0, ENABLE) && !Bit(0, D_CONTROLS)
    ensures Bit(5, ENABLE) && !Bit(5, IMASK) && Bit(ENTRY_PSTATE, PSTATE_F) && Bit(ENTRY_PSTATE, PSTATE_I)
    ensures forall id: nat :: !TimerAsIrq(0, id)
  {
    forall k: nat ensures !Bit(0, k) {
      NoBits(k);
    }
    var p := ENTRY_PSTATE;
    assert Bit(5, 1) == Bit(2, 0);
    assert p / 2 == 0x1e2 && p / 2 / 2 == 0xf1 && p / 2 / 2 / 2 == 0x78;
    assert Bit(p, 6) == Bit(0x1e2, 5) && Bit(0x1e2, 5) == Bit(0xf1, 4) && Bit(0xf1, 4) == Bit(0x78, 3);
    assert Bit(0x78, 3) == Bit(0x3c, 2) && Bit(0x3c, 2) == Bit(0x1e, 1) && Bit(0x1e, 1) == Bit(0xf, 0);
    assert Bit(p, 7) == Bit(0x1e2, 6) && Bit(0x1e2, 6) == Bit(0xf1, 5) && Bit(0xf1, 5) == Bit(0x78, 4);
    assert Bit(0x78, 4) == Bit(0x3c, 3) && Bit(0x3c, 3) == Bit(0x1e, 2) && Bit(0x1e, 2) == Bit(0xf, 1);
    assert Bit(0xf, 1) == Bit(7, 0);
  }

  /** Before the first entry nothing is due and no level moves. */
  lemma {:induction false} FirstEntry(base: u64, env: Env)
    ensures var m := Machine(Waiting(base), 0, 0);
            var s := RunTrap(AtEntry(m, 0, 0, 0), Guest(Ringing(), ENTRY_PSTATE, 0, 0)).slot;
            && Behind(m) && !Bit(s.page[HCR], VF) && !Bit(s.page[HCR], VI)
            && s.lines.base == base && !s.lines.vmmFiq && !s.lines.vmmIrq && !s.lines.parked
            && s.page[TIMER] == 0 && s.page[CNTV_CTL] == 5 && s.page[CNTV_CVAL] == 0 && s.page[PC] == 0
            && s.cpsr == ENTRY_PSTATE && !s.nvOff && s.page[DIRTY] == 0
  {
    var w := Waiting(base);
    QuietBits();
    assert !TimersDue(w, 0);
    EntryLevels(w, 0, 0, 0, VF);
    EntryLevels(w, 0, 0, 0, VI);
    EntryFrame(w, 0, 0, 0);
    EntryMarks(w, 0, 0, 0);
    var s1 := ExpireTimers(w, 0, 0, 0);
    assert ViewOf(s1, 0) == ViewAt(w, 0, 0, 0);
    assert s1.nvOff == w.nvOff;
  }

  /** With the monitor known the gate holds the timer back, the next entry
      moves no level and the hardware runs the guest with the mask down; with
      it unknown the same entry raises VF and loads the mask along with it. */
  lemma {:induction false} MaskLost(base: u64, env: Env)
    ensures var m := Machine(Waiting(base), 0, 0);
            var t := Interrupted(env);
            var m4 := AtEntry(Step(m, t, 0, env.instr + env.data + [0, 0, 0, 0]), 0, 0, 0);
            && Handle(RunTrap(AtEntry(m, 0, 0, 0), t.guest).slot, t.exit, env).1 == Activated(t.exit)
            && Bit(m4.slot.page[TIMER], 0)
            && (Bit(HardwareTimer(m4), 0) <==> base == 0)
  {
    var m, t := Machine(Waiting(base), 0, 0), Interrupted(env);
    var host: Bank20 := env.instr + env.data + [0, 0, 0, 0];
    FirstEntry(base, env);
    QuietBits();
    var s := RunTrap(AtEntry(m, 0, 0, 0), t.guest).slot;
    assert RestoreNv(s, t.exit) == s;
    HandleTimer(s, t.exit, env);
    HandleKeeps(s, t.exit, env, VF);
    HandleKeeps(s, t.exit, env, VI);
    MaskReaches(m, t, [], 0, 0, 0, host);
    var s2 := Step(m, t, 0, host).slot;
    assert Run(Step(m, t, 0, host), [], 0, host) == Step(m, t, 0, host);
    assert TimersDue(s2, 0);
    EntryMarks(s2, 0, 0, 0);
    TrapTimer(m, 0, 0, 0, t.guest);
  }
}
