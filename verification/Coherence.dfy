/** The emulated registers against the parts of the library that use them: the
  timers against the expiry sweep, the EL2 registers against exception entry
  and return and against the address translation
  (src/ohv_vcpu.cpp:688-797, 860-869, 1189-1199, 1319-1348, 1994-2065, 3302-3343).
*/
module Coherence {
  import opened Words
  import opened Slot
  import opened Timers
  import opened Gate
  import opened Emulator
  import opened EmulatorLaws
  import opened Dispatch
  import opened Exits
  import opened ExitLaws
  import Stage1
  import Sysregs

  // ---------------------------------------------------------------- timers

  /** An access that moves the compare value: a write of TVAL or CVAL. */
  predicate MovesCval(a: Op, physical: bool) {
    !a.read && (a.Enc() == TvalName(physical) || a.Enc() == CvalName(physical))
  }

  lemma {:induction false} TimerKeepsCval(s: Slot, a: Op, r: Reg, now: u64, physical: bool)
    requires a.Valid() && (r.TimerValue? || r.CompareValue? || r.TimerControl? || r.NoTimer?)
    requires a.read || (r != TimerValue(physical) && r != CompareValue(physical))
    ensures ServeTimer(s, a, r, now).slot.page[CvalWord(physical)] == s.page[CvalWord(physical)]
  {
  }

  lemma {:induction false} CvalKept(s: Slot, a: Op, e: Env, physical: bool)
    requires a.Valid() && !MovesCval(a, physical)
    ensures var s' := Service(s, a, e).1;
            s'.page[CvalWord(physical)] == s.page[CvalWord(physical)] && s'.page[OFFSET] == s.page[OFFSET]
  {
    ServeKeeps(s, a, e);
    var r := Serve(s, a, e);
    assert r.slot.page[OFFSET] == s.page[OFFSET];
    ServeKeepsCval(s, a, e, physical);
    FinishWords(r.slot, a, r.value, CvalWord(physical));
    FinishWords(r.slot, a, r.value, OFFSET);
  }

  lemma {:induction false} FinishWords(s: Slot, a: Op, v: u64, i: nat)
    requires a.Valid() && 34 <= i < 2048
    ensures Finish(s, a, v).page[i] == s.page[i]
  {
  }

  lemma {:induction false} ServeKeepsCval(s: Slot, a: Op, e: Env, physical: bool)
    requires a.Valid() && !MovesCval(a, physical)
    ensures Serve(s, a, e).slot.page[CvalWord(physical)] == s.page[CvalWord(physical)]
  {
    PickValid(a);
    TimerExactly(a, physical);
    match Pick(a)
    case Cell(p, mark) => CellKeepsCval(s, a, p, mark, physical);
    case TimerValue(_) => TimerKeepsCval(s, a, Pick(a), e.now, physical);
    case TimerControl(_) => TimerKeepsCval(s, a, Pick(a), e.now, physical);
    case CompareValue(_) => TimerKeepsCval(s, a, Pick(a), e.now, physical);
    case NoTimer(_) => TimerKeepsCval(s, a, Pick(a), e.now, physical);
    case _ =>
  }

  lemma {:induction false} CellKeepsCval(s: Slot, a: Op, p: Place, mark: Option<nat>, physical: bool)
    requires a.Valid() && Sound(Cell(p, mark))
    ensures ServeCell(s, a, p, mark).slot.page[CvalWord(physical)] == s.page[CvalWord(physical)]
  {
    CellSides(s, a, p, mark, CvalWord(physical));
  }

  /** None of a run of accesses moves the compare value. */
  predicate LeavesCval(run: seq<(Op, Env)>, physical: bool) {
    run == [] || (LeavesCval(run[..|run| - 1], physical) && !MovesCval(run[|run| - 1].0, physical))
  }

  lemma {:induction false} RunKeepsCval(s: Slot, run: seq<(Op, Env)>, physical: bool)
    requires AllValid(run) && LeavesCval(run, physical)
    ensures var s' := After(s, run);
            s'.page[CvalWord(physical)] == s.page[CvalWord(physical)] && s'.page[OFFSET] == s.page[OFFSET]
  {
    if run != [] {
      RunKeepsCval(s, run[..|run| - 1], physical);
      CvalKept(After(s, run[..|run| - 1]), run[|run| - 1].0, run[|run| - 1].1, physical);
    }
  }

  lemma {:induction false} CvalStored(s: Slot, w: Op, e: Env, physical: bool)
    requires w.Valid() && !w.read && w.Enc() == CvalName(physical)
    ensures var s' := Service(s, w, e).1;
            && s'.page[CvalWord(physical)] == CvalWritten(Operand(s, w.rt), s.page[OFFSET])
            && s'.page[OFFSET] == s.page[OFFSET]
  {
    TimerExactly(w, physical);
  }

  /** CVAL reads back what the guest wrote, after any other trapped accesses in
      between -- the physical and the virtual timer alike. */
  lemma {:induction false} CvalReadsBack(s: Slot, w: Op, e: Env, run: seq<(Op, Env)>, r: Op, e': Env, physical: bool)
    requires w.Valid() && !w.read && w.Enc() == CvalName(physical)
    requires r.Valid() && r.read && r.Enc() == CvalName(physical) && r.rt != 31
    requires AllValid(run) && LeavesCval(run, physical)
    ensures Service(After(Service(s, w, e).1, run), r, e').1.page[X(r.rt)] == Operand(s, w.rt)
  {
    var s1 := Service(s, w, e).1;
    var s2 := After(s1, run);
    CvalStored(s, w, e, physical);
    RunKeepsCval(s1, run, physical);
    CvalRoundTrip(Operand(s, w.rt), s.page[OFFSET]);
    TimerExactly(r, physical);
    ReadAnswers(s2, r, e');
  }

  /** TVAL, read after TVAL was written and any other trapped accesses, is the
      signed value written less the ticks gone by, modulo 2^64. */
  lemma {:induction false} TvalReadsDown(s: Slot, w: Op, e: Env, run: seq<(Op, Env)>, r: Op, e': Env, elapsed: u64,
                                         physical: bool)
    requires w.Valid() && !w.read && w.Enc() == TvalName(physical)
    requires r.Valid() && r.read && r.Enc() == TvalName(physical) && r.rt != 31 && e'.now == Add(e.now, elapsed)
    requires AllValid(run) && LeavesCval(run, physical)
    ensures Service(After(Service(s, w, e).1, run), r, e').1.page[X(r.rt)]
            == (Signed32(Operand(s, w.rt)) - elapsed) % TWO64
  {
    var s1 := Service(s, w, e).1;
    var s2 := After(s1, run);
    TvalStored(s, w, e, physical);
    RunKeepsCval(s1, run, physical);
    TvalCountsDown(Operand(s, w.rt), e.now, elapsed);
    TimerExactly(r, physical);
    ReadAnswers(s2, r, e');
    SignedLess(Operand(s, w.rt), elapsed);
  }

  lemma {:induction false} SignedLess(v: u64, elapsed: u64)
    ensures Sub(SignExtend32(v), elapsed) == (Signed32(v) - elapsed) % TWO64
  {
    WrapOnce(SignExtend32(v), elapsed);
  }

  /** An access that moves the control word: a write of CTL. */
  predicate MovesCtl(a: Op, physical: bool) {
    !a.read && a.Enc() == CtlName(physical)
  }

  predicate LeavesCtl(run: seq<(Op, Env)>, physical: bool) {
    run == [] || (LeavesCtl(run[..|run| - 1], physical) && !MovesCtl(run[|run| - 1].0, physical))
  }

  lemma {:induction false} CtlKept(s: Slot, a: Op, e: Env, physical: bool)
    requires a.Valid() && !MovesCtl(a, physical)
    ensures Control(Service(s, a, e).1, physical) == Control(s, physical)
  {
    PickValid(a);
    TimerExactly(a, physical);
    TimerExactly(a, !physical);
    FinishWords(Serve(s, a, e).slot, a, Serve(s, a, e).value, CNTV_CTL);
    match Pick(a)
    case Cell(p, mark) =>
      CellSides(s, a, p, mark, CNTV_CTL);
      CellKeepsShadow(s, a, p, mark);
    case _ => OtherKeepsCtl(s, a, e, physical);
  }

  lemma {:induction false} CellKeepsShadow(s: Slot, a: Op, p: Place, mark: Option<nat>)
    requires a.Valid() && Sound(Cell(p, mark))
    ensures ServeCell(s, a, p, mark).slot.shadow == s.shadow
  {
  }

  lemma {:induction false} OtherKeepsCtl(s: Slot, a: Op, e: Env, physical: bool)
    requires a.Valid() && !Pick(a).Cell? && (a.read || Pick(a) != TimerControl(physical))
    ensures Control(Serve(s, a, e).slot, physical) == Control(s, physical)
  {
    match Pick(a)
    case TimerValue(_) => TimerKeepsCtl(s, a, Pick(a), e.now, physical);
    case TimerControl(_) => TimerKeepsCtl(s, a, Pick(a), e.now, physical);
    case CompareValue(_) => TimerKeepsCtl(s, a, Pick(a), e.now, physical);
    case NoTimer(_) => TimerKeepsCtl(s, a, Pick(a), e.now, physical);
    case _ =>
  }

  lemma {:induction false} TimerKeepsCtl(s: Slot, a: Op, r: Reg, now: u64, physical: bool)
    requires a.Valid() && (r.TimerValue? || r.CompareValue? || r.TimerControl? || r.NoTimer?)
    requires a.read || r != TimerControl(physical)
    ensures Control(ServeTimer(s, a, r, now).slot, physical) == Control(s, physical)
  {
  }

  lemma {:induction false} RunKeepsCtl(s: Slot, run: seq<(Op, Env)>, physical: bool)
    requires AllValid(run) && LeavesCtl(run, physical)
    ensures Control(After(s, run), physical) == Control(s, physical)
  {
    if run != [] {
      RunKeepsCtl(s, run[..|run| - 1], physical);
      CtlKept(After(s, run[..|run| - 1]), run[|run| - 1].0, run[|run| - 1].1, physical);
    }
  }

  /** CTL holds what the guest wrote, over any other trapped accesses, and a
      read returns it. */
  lemma {:induction false} CtlReadsBack(s: Slot, w: Op, e: Env, run: seq<(Op, Env)>, r: Op, e': Env, physical: bool)
    requires w.Valid() && !w.read && w.Enc() == CtlName(physical)
    requires r.Valid() && r.read && r.Enc() == CtlName(physical) && r.rt != 31
    requires AllValid(run) && LeavesCtl(run, physical)
    ensures var t := After(Service(s, w, e).1, run);
            && Control(t, physical) == Operand(s, w.rt)
            && Service(t, r, e').1.page[X(r.rt)] == Operand(s, w.rt)
  {
    var s1 := Service(s, w, e).1;
    CtlStored(s, w, e, physical);
    RunKeepsCtl(s1, run, physical);
    TimerExactly(r, physical);
    ReadAnswers(After(s1, run), r, e');
  }

  lemma {:induction false} CtlStored(s: Slot, w: Op, e: Env, physical: bool)
    requires w.Valid() && !w.read && w.Enc() == CtlName(physical)
    ensures Control(Service(s, w, e).1, physical) == Operand(s, w.rt)
  {
    TimerExactly(w, physical);
  }

  /** The timer's control word, wherever it is kept. */
  function Control(s: Slot, physical: bool): u64 {
    Get(s, CtlPlace(physical))
  }

  /** The sweep's verdict on one timer. */
  predicate FiredBy(s: Slot, physical: bool) {
    if physical then s.lines.firedP else s.lines.firedV
  }

  /** What the sweep decides for each timer, and what it leaves in the word. */
  lemma {:induction false} SweepDecides(s: Slot, now: u64, shared: u64, asIrq: u64, physical: bool, k: nat)
    ensures var s' := ExpireTimers(s, now, shared, asIrq);
            && FiredBy(s', physical) == Fired(Control(s, physical), s.page[CvalWord(physical)], now)
            && Bit(Control(s', physical), k)
               == if k == ISTATUS && Bit(Control(s, physical), ENABLE) then Due(s.page[CvalWord(physical)], now)
                  else Bit(Control(s, physical), k)
  {
    EntryFrame(s, now, shared, asIrq);
    SweptBits(Control(s, physical), s.page[CvalWord(physical)], now, k);
    SweepFires(s, now, shared, asIrq, physical);
  }

  lemma {:induction false} SweepFires(s: Slot, now: u64, shared: u64, asIrq: u64, physical: bool)
    ensures FiredBy(ExpireTimers(s, now, shared, asIrq), physical)
            == Fired(Control(s, physical), s.page[CvalWord(physical)], now)
  {
    var s1 := NoteBand(s, shared);
    VirtualSwept(s1, now);
    PhysicalSwept(SweepVirtual(s1, now), now);
    var s2 := SweepPhysical(SweepVirtual(s1, now), now);
    FiqIsLevel(s2, asIrq);
    IrqIsLevel(SetFiqLevel(s2, asIrq), asIrq);
  }

  lemma {:induction false} TvalStored(s: Slot, w: Op, e: Env, physical: bool)
    requires w.Valid() && !w.read && w.Enc() == TvalName(physical)
    ensures var s' := Service(s, w, e).1;
            && s'.page[CvalWord(physical)] == TvalWritten(Operand(s, w.rt), e.now)
            && Control(s', physical) == Control(s, physical) && s'.page[OFFSET] == s.page[OFFSET]
  {
    TimerExactly(w, physical);
  }

  /** The timer is enabled and not masked. */
  predicate Armed(s: Slot, physical: bool) {
    Bit(Control(s, physical), ENABLE) && !Bit(Control(s, physical), IMASK)
  }

  /** After the guest writes TVAL, and whatever other registers it accesses
      next -- the timer's own control among them -- a sweep fires the timer
      exactly if it is then armed and that many ticks have gone by, up to where
      the signed comparison wraps; ISTATUS says so for an enabled timer. */
  lemma {:induction false} TvalFiresOnTime(s: Slot, w: Op, e: Env, run: seq<(Op, Env)>, elapsed: u64,
                                           shared: u64, asIrq: u64, physical: bool)
    requires w.Valid() && !w.read && w.Enc() == TvalName(physical)
    requires AllValid(run) && LeavesCval(run, physical)
    ensures var t := After(Service(s, w, e).1, run);
            var s' := ExpireTimers(t, Add(e.now, elapsed), shared, asIrq);
            var d := Signed32(Operand(s, w.rt));
            var passed := d <= elapsed < d + TWO63 || elapsed >= d + TWO64;
            && (FiredBy(s', physical) <==> Armed(t, physical) && passed)
            && (Bit(Control(t, physical), ENABLE) ==> (Bit(Control(s', physical), ISTATUS) <==> passed))
  {
    var s1 := Service(s, w, e).1;
    TvalStored(s, w, e, physical);
    RunKeepsCval(s1, run, physical);
    SweepDecides(After(s1, run), Add(e.now, elapsed), shared, asIrq, physical, ISTATUS);
    TvalDue(Operand(s, w.rt), e.now, elapsed);
  }

  /** After the guest writes CVAL, likewise, the timer fires exactly if it is
      then armed and the guest's own count has reached the guest's value. */
  lemma {:induction false} CvalFiresOnGuestTime(s: Slot, w: Op, e: Env, run: seq<(Op, Env)>, now: u64,
                                                shared: u64, asIrq: u64, physical: bool)
    requires w.Valid() && !w.read && w.Enc() == CvalName(physical)
    requires AllValid(run) && LeavesCval(run, physical)
    ensures var t := After(Service(s, w, e).1, run);
            var s' := ExpireTimers(t, now, shared, asIrq);
            var passed := Due(Operand(s, w.rt), GuestCount(now, s.page[OFFSET]));
            && (FiredBy(s', physical) <==> Armed(t, physical) && passed)
            && (Bit(Control(t, physical), ENABLE) ==> (Bit(Control(s', physical), ISTATUS) <==> passed))
  {
    var s1 := Service(s, w, e).1;
    var t := After(s1, run);
    CvalStored(s, w, e, physical);
    RunKeepsCval(s1, run, physical);
    SweepDecides(t, now, shared, asIrq, physical, ISTATUS);
    DueInGuestTime(t.page[CvalWord(physical)], now, s.page[OFFSET]);
    CvalRoundTrip(Operand(s, w.rt), s.page[OFFSET]);
  }

  // --------------------------------------------------------- EL2 registers

  const ELR_EL2: nat := 0xe201
  const SPSR_EL2: nat := 0xe200
  const VBAR: nat := 0xe600

  /** The EL2 names the guest hypervisor uses reach the words the library acts
      on: its ELR, SPSR, TTBR0, TTBR1, TCR and SCTLR are the EL1 registers. */
  lemma {:induction false} El2Names(a: Op)
    requires a.Valid() && a.op0 == 3 && a.op1 == 4 && a.crm != 10 && a.crn != 15 && !IsGicInterface(a)
    ensures El2Word(a.Enc()).Some? ==>
              Pick(a) == Cell(Word(El2Word(a.Enc()).value.0), if El2Word(a.Enc()).value.1 then Some(D_SYSREGS) else None)
    ensures a.Enc() == SPSR_EL2 ==> El2Word(a.Enc()).value.0 == SPSR
    ensures a.Enc() == ELR_EL2 ==> El2Word(a.Enc()).value.0 == ELR
    ensures a.Enc() == VBAR ==> El2Word(a.Enc()).value.0 == VBAR_EL2
  {
  }

  /** An ERET returns to the last ELR_EL2 and SPSR_EL2 written, however many
      accesses ago. */
  lemma {:induction false} EretUsesLastPair(s: Slot, run: seq<(Op, Env)>, x: Exit, e: Env)
    requires AllValid(run) && ListsOk(s) && IsPlainEret(x) && After(s, run).atEl2
    ensures Lands(LastWritten(s, run, Word(ELR)), LastWritten(s, run, Word(SPSR)), Handle(After(s, run), x, e).0)
  {
    RegistersHold(s, run, Word(ELR));
    RegistersHold(s, run, Word(SPSR));
    var t := After(s, run);
    EretReturns(t, x, e);
    assert Lands(t.page[ELR], t.page[SPSR], Handle(t, x, e).0);
  }

  /** An HVC from the hosted guest lands in the vector table last written to
      VBAR_EL2. */
  lemma {:induction false} HvcUsesLastVector(s: Slot, run: seq<(Op, Env)>, x: Exit, e: Env)
    requires AllValid(run) && ListsOk(s) && IsHvc(x) && !After(s, run).atEl2
    ensures Handle(After(s, run), x, e).0.page[PC] == Add(LastWritten(s, run, Word(VBAR_EL2)), LOWER64_SYNC)
  {
    RegistersHold(s, run, Word(VBAR_EL2));
    HvcEnters(After(s, run), x, e);
  }

  /** An address translation answers with the walk of the tables last written
      to TTBR0_EL2, TTBR1_EL2, TCR_EL2 and SCTLR_EL2, in PAR_EL1. */
  lemma {:induction false} TranslateUsesLastRegime(s: Slot, run: seq<(Op, Env)>, a: Op, e: Env)
    requires AllValid(run) && ListsOk(s) && a.Valid() && TranslateName(a.Enc())
    ensures var t := After(s, run);
            var (ok, s') := Service(t, a, e);
            && ok
            && s'.page[PAR] == Stage1.Translate(
                 Stage1.Regime(LastWritten(s, run, Word(TTBR0)), LastWritten(s, run, Word(TTBR1)),
                               LastWritten(s, run, Word(TCR)), LastWritten(s, run, Word(SCTLR))),
                 e.memory, Operand(t, a.rt))
  {
    RegistersHold(s, run, Word(TTBR0));
    RegistersHold(s, run, Word(TTBR1));
    RegistersHold(s, run, Word(TCR));
    RegistersHold(s, run, Word(SCTLR));
    InstructionExactly(a);
  }

  // ------------------------------------------------------- guest against VMM

  lemma {:induction false} El2Encodings(enc: nat)
    ensures El2Word(enc).Some? ==> 0xe000 <= enc <= 0xe708 && enc != 0xe208
  {
  }

  lemma {:induction false} HandKept(enc: nat)
    requires 0xe000 <= enc <= 0xe708 && enc != 0xe208
    ensures Sysregs.Lookup(enc) == Sysregs.Or(Sysregs.Controls(enc), Sysregs.Shadowed(enc))
  {
    Sysregs.El1Encodings(enc);
    NotElsewhere(enc);
  }

  lemma {:induction false} NotElsewhere(enc: nat)
    requires 0xe000 <= enc <= 0xe708
    ensures Sysregs.Guarded(enc).None? && Sysregs.Identity(enc).None? && Sysregs.Keys(enc).None?
  {
  }

  predicate OneWord(enc: nat) {
    enc == 0xe088 || enc == 0xe108 || enc == 0xe10a || enc == 0xe703 || enc == 0xe682
  }

  lemma {:induction false} ControlWords(enc: nat)
    requires El2Word(enc).Some?
    ensures Sysregs.Controls(enc).Some? ==>
              && Sysregs.Controls(enc).value.Page?
              && (Sysregs.Controls(enc).value.word == El2Word(enc).value.0 <==> OneWord(enc))
    ensures OneWord(enc) ==> Sysregs.Controls(enc).Some?
  {
  }

  lemma {:induction false} ShadowedSlots(enc: nat)
    ensures Sysregs.Shadowed(enc).Some? ==> Sysregs.Shadowed(enc).value.ShadowSlot?
  {
  }

  /** Of the EL2 registers that both the guest and the VMM can name, the two
      names reach one word for just these five; for the others the VMM's name
      is a shadow, or a control, that the guest's never touches. */
  lemma {:induction false} OneWordTwoNames(enc: nat)
    requires El2Word(enc).Some? && Sysregs.Lookup(enc).Some?
    ensures (Sysregs.Lookup(enc).value.Page? && Sysregs.Lookup(enc).value.word == El2Word(enc).value.0)
            <==> OneWord(enc)
  {
    El2Encodings(enc);
    HandKept(enc);
    ControlWords(enc);
    ShadowedSlots(enc);
  }

  /** Through its EL1 name, though, the VMM reads what the guest hypervisor
      wrote to its EL2 exception return pair. */
  lemma {:induction false} VmmReadsGuestPair(s: Slot, run: seq<(Op, Env)>, host: Bank20)
    requires AllValid(run) && ListsOk(s)
    ensures Sysregs.GetSysReg(After(s, run), 0xc201, host).1 == LastWritten(s, run, Word(ELR))
    ensures Sysregs.GetSysReg(After(s, run), 0xc200, host).1 == LastWritten(s, run, Word(SPSR))
  {
    RegistersHold(s, run, Word(ELR));
    RegistersHold(s, run, Word(SPSR));
    Sysregs.El1Names();
  }
}
