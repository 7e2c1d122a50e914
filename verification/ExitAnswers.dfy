/** What one exit comes to: the answer the VMM is given or not given, the level
  and the traps the guest goes on with, everything else left alone, and no
  change unmarked (src/ohv_vcpu.cpp:249-302, 1319-1348, 1432-1441, 1557-1566,
  1774-2105).
*/
module ExitAnswers {
  import opened Words
  import opened Slot
  import opened Timers
  import opened Emulator
  import opened EmulatorLaws
  import opened Dispatch
  import opened Exits
  import opened ExitLaws
  import opened AccessAnswers
  import opened Gate

  // -------------------------------------------------------------- the kinds

  /** A trapped register access that the library looks at. */
  predicate IsAccess(x: Exit) {
    x.reason == 8 && x.esr / 0x400_0000 % 64 == 0x18
  }

  /** A synchronous exit as far as the guest hypervisor's own traps go. */
  predicate IsTrap(x: Exit) {
    x.reason == 1 || (x.reason == 8 && !IsAccess(x))
  }

  /** An HVC, when it is the guest's own hypervisor's to service. */
  predicate EntersEl2(s: Slot, x: Exit) {
    IsTrap(x) && x.esr / 0x400_0000 % 64 == 0x16 && !s.atEl2
  }

  /** A trapped ERET. */
  predicate Returns(x: Exit) {
    IsTrap(x) && x.esr / 0x400_0000 % 64 == 0x1a && x.esr % 2 == 0
  }

  /** ... with a guarded return pending that the hardware can carry out. */
  predicate ReturnsGuarded(x: Exit) {
    Returns(x) && x.spsrGl1 != 0 && LegalAtEl1(x.spsrGl1)
  }

  /** The monitor's handoff. */
  predicate HandsOff(x: Exit) {
    IsAccess(x) && Decode(x.esr).Enc() == HANDOFF && !Decode(x.esr).read
  }

  // --------------------------------------------------------------- the answer

  /** The guest goes straight back in for the kernel's own work, for what is
      answered here, for an HVC its own hypervisor takes, and for a return that
      is the hardware's or its own EL2's; the VMM is told of everything else. */
  lemma {:induction false} KeepsRunning(s: Slot, x: Exit, e: Env)
    ensures Handle(s, x, e).1.KeepRunning?
            <==> || x.reason == 2 || x.reason == 7 || x.reason == 11 || x.reason == 12
                 || (IsAccess(x) && Service(RestoreNv(s, x), Decode(x.esr), e).0)
                 || EntersEl2(s, x) || ReturnsGuarded(x) || (Returns(x) && s.atEl2)
  {
    GuardedIsLegal(x.spsrGl1);
    RestoreKeeps(s, x, 0);
    var s1 := RestoreNv(s, x);
    if IsAccess(x) {
      RefusedIsReported(Service(s1, Decode(x.esr), e).1, x);
    }
  }

  lemma {:induction false} RefusedIsReported(s: Slot, x: Exit)
    requires Ec(x.esr) == EC_SYSREG
    ensures Synchronous(s, x) == (s, Report(x, Exception, Syndrome(x)))
  {
  }

  /** The reasons: nothing to report, the virtual timer's interrupt, a guest
      exception, or not classified. */
  lemma {:induction false} ReportedReason(s: Slot, x: Exit, e: Env)
    requires Handle(s, x, e).1.ToVmm?
    ensures Handle(s, x, e).1.reason
            == if x.reason == 0 then Canceled
               else if x.reason == 1 || x.reason == 6 || x.reason == 8 then Exception
               else if (x.reason == 3 || x.reason == 4) && s.page[TIMER] % 2 == 0 && s.page[CNTV_CTL] == 5
               then VtimerActivated
               else Unknown
  {
    RestoreKeeps(s, x, 0);
    if IsAccess(x) {
      RefusedIsReported(Service(RestoreNv(s, x), Decode(x.esr), e).1, x);
    }
  }

  /** The fault's two addresses: the page of the physical one is the kernel's,
      its offset is the virtual one's. */
  lemma {:induction false} ReportedAddresses(s: Slot, x: Exit, e: Env)
    requires Handle(s, x, e).1.ToVmm?
    ensures var act := Handle(s, x, e).1;
            && act.va == x.far
            && act.pa / 0x1000 == x.hpfar / 0x1000 && act.pa % 0x1000 == x.far % 0x1000
  {
    PageAndOffset(x);
    if IsAccess(x) {
      RefusedIsReported(Service(RestoreNv(s, x), Decode(x.esr), e).1, x);
    }
  }

  lemma {:induction false} PageAndOffset(x: Exit)
    ensures var pa := x.hpfar - x.hpfar % 0x1000 + x.far % 0x1000;
            pa / 0x1000 == x.hpfar / 0x1000 && pa % 0x1000 == x.far % 0x1000
  {
    Quotient(0x1000, x.hpfar / 0x1000, x.far % 0x1000);
  }

  /** The instruction is an MSR or MRS of a register: bits 31:22 and 20. */
  lemma {:induction false} MsrExactly(insn: u32)
    ensures IsMsr(insn) <==> insn / 0x10_0000 == 0xd51 || insn / 0x10_0000 == 0xd53
  {
  }

  /** The syndrome is the kernel's; only where it left none is one made, from
      the instruction: the access of an MSR or MRS, or a guarded exit. */
  lemma {:induction false} ReportedSyndrome(s: Slot, x: Exit, e: Env)
    requires Handle(s, x, e).1.ToVmm?
    ensures var syn := Handle(s, x, e).1.syndrome;
            if x.esr == 0 && x.reason == 8 && x.insn.Some?
               && (x.insn.value / 0x10_0000 == 0xd51 || x.insn.value / 0x10_0000 == 0xd53)
            then syn / 0x200_0000 == 0x31 && Decode(syn) == OpOf(x.insn.value)
            else if x.esr == 0 && x.reason == 1 && x.insn == Some(0x0020_1400) then syn == 0xfe00_0022
            else syn == x.esr
  {
    if x.insn.Some? {
      MsrExactly(x.insn.value);
      SyndromeNamesAccess(x.insn.value);
      MadeSyndrome(x.insn.value);
    }
    if IsAccess(x) {
      RefusedIsReported(Service(RestoreNv(s, x), Decode(x.esr), e).1, x);
    }
  }

  lemma {:induction false} MadeSyndrome(insn: u32)
    ensures MsrSyndrome(insn) / 0x200_0000 == 0x31
  {
  }

  /** The access in a syndrome, field by field: the direction, CRm, Rt, CRn,
      Op1, Op2 and Op0 from bit 0 up, whatever is above. */
  lemma {:induction false} SyndromeFields(a: Op, top: nat)
    requires a.Valid() && top < 64
    ensures Decode((if a.read then 1 else 0) + 2 * a.crm + 0x20 * a.rt + 0x400 * a.crn + 0x4000 * a.op1
                   + 0x2_0000 * a.op2 + 0x10_0000 * a.op0 + 0x200_0000 * top) == a
  {
    IssDecodes(a, top);
  }

  // -------------------------------------------------------- the level it leaves

  /** NV stood, or comes back: in the kernel's half of the address space, and
      at the exit from the guarded state. */
  predicate Rearmed(s: Slot, x: Exit) {
    Bit(s.page[HCR], NV) || s.page[PC] >= 0xffff_fff0_0000_0000 || (s.nvOff && x.esr / 0x400_0000 % 64 == 0x3f)
  }

  /** The virtual level, NV and the guarded-return flag after any exit. */
  lemma {:induction false} LevelAfter(s: Slot, x: Exit, e: Env)
    ensures var s' := Handle(s, x, e).0;
            var toEl1 := Returns(x) && !ReturnsGuarded(x) && s.atEl2
                         && (s.page[SPSR] % 16 == 4 || s.page[SPSR] % 16 == 5);
            && (s'.atEl2 <==> EntersEl2(s, x) || HandsOff(x) || (s.atEl2 && !toEl1))
            && (s'.nvOff <==> ReturnsGuarded(x) || (s.nvOff && x.esr / 0x400_0000 % 64 != 0x3f))
            && (Bit(s'.page[HCR], NV) <==>
                  EntersEl2(s, x) || HandsOff(x) || (Rearmed(s, x) && !toEl1 && !ReturnsGuarded(x)))
  {
    RestoreLevel(s, x);
    var s1 := RestoreNv(s, x);
    if IsAccess(x) {
      AccessLevel(s1, x, e);
    } else if IsTrap(x) {
      TrapLevel(s1, x);
    } else {
      OtherLevel(s, x, e);
    }
  }

  lemma {:induction false} RestoreLevel(s: Slot, x: Exit)
    ensures var s1 := RestoreNv(s, x);
            && s1.atEl2 == s.atEl2 && s1.page[SPSR] == s.page[SPSR]
            && (s1.nvOff <==> s.nvOff && x.esr / 0x400_0000 % 64 != 0x3f)
            && (Bit(s1.page[HCR], NV) <==> Rearmed(s, x))
  {
    RestoreKeeps(s, x, 0);
    SetBitAt(s.page[HCR], NV, NV);
    var s1 := if s.nvOff && Ec(x.esr) == EC_GEXIT then ArmNv(s).(nvOff := false) else s;
    SetBitAt(s1.page[HCR], NV, NV);
  }

  lemma {:induction false} AccessLevel(s: Slot, x: Exit, e: Env)
    requires IsAccess(x)
    ensures var s' := Trapped(s, x, e).0;
            && (s'.atEl2 <==> s.atEl2 || HandsOff(x)) && s'.nvOff == s.nvOff
            && (Bit(s'.page[HCR], NV) <==> Bit(s.page[HCR], NV) || HandsOff(x))
  {
    var a := Decode(x.esr);
    HiddenExactly(a);
    ServeKeeps(s, a, e);
    SetBitAt(s.page[HCR], NV, NV);
    FinishLeaves(Serve(s, a, e).slot, a, Serve(s, a, e).value);
    RefusedIsReported(Service(s, a, e).1, x);
  }

  lemma {:induction false} TrapLevel(s: Slot, x: Exit)
    requires IsTrap(x)
    ensures var s' := Synchronous(s, x).0;
            var toEl1 := Returns(x) && !ReturnsGuarded(x) && s.atEl2
                         && (s.page[SPSR] % 16 == 4 || s.page[SPSR] % 16 == 5);
            && (s'.atEl2 <==> EntersEl2(s, x) || (s.atEl2 && !toEl1))
            && (s'.nvOff <==> ReturnsGuarded(x) || s.nvOff)
            && (Bit(s'.page[HCR], NV) <==>
                  EntersEl2(s, x) || (Bit(s.page[HCR], NV) && !toEl1 && !ReturnsGuarded(x)))
  {
    GuardedIsLegal(x.spsrGl1);
    EntryKeeps(s, x.esr, Add(s.page[PC], 4), 0);
    var s1 := Sync(s, x);
    LeaveNv(s1);
    EretNv(s1);
  }

  lemma {:induction false} LeaveNv(s: Slot)
    ensures var s' := LeaveToHardware(s);
            !Bit(s'.page[HCR], NV) && s'.nvOff && s'.atEl2 == s.atEl2
  {
    ClearBitAt(s.page[HCR], NV, NV);
  }

  lemma {:induction false} EretNv(s: Slot)
    ensures var s' := EmulateEret(s);
            var toEl1 := s.page[SPSR] % 16 == 4 || s.page[SPSR] % 16 == 5;
            && s'.nvOff == s.nvOff && (s'.atEl2 <==> s.atEl2 && !toEl1)
            && (Bit(s'.page[HCR], NV) <==> Bit(s.page[HCR], NV) && !toEl1)
  {
    ClearBitAt(s.page[HCR], NV, NV);
  }

  lemma {:induction false} OtherLevel(s: Slot, x: Exit, e: Env)
    requires !IsAccess(x) && !IsTrap(x)
    ensures var s1, s' := RestoreNv(s, x), Handle(s, x, e).0;
            s'.atEl2 == s1.atEl2 && s'.nvOff == s1.nvOff && s'.page[HCR] == s1.page[HCR]
  {
  }

  /** In the kernel's half, and wherever the guarded state is left, the guest's
      returns trap again: NV is up after every exit but a trapped return, and
      the guarded return is no longer out. */
  lemma {:induction false} ReturnsTrapAgain(s: Slot, x: Exit, e: Env)
    requires !Returns(x)
    ensures var s' := Handle(s, x, e).0;
            && (s.page[PC] >= 0xffff_fff0_0000_0000 ==> Bit(s'.page[HCR], NV))
            && (s.nvOff && x.esr / 0x400_0000 % 64 == 0x3f ==> Bit(s'.page[HCR], NV) && !s'.nvOff)
  {
    LevelAfter(s, x, e);
  }

  /** A guarded return is left to the hardware: the pair the sync brought in is
      where a hardware ERET looks for it, and the guest is otherwise where it
      was, with its traps down until it leaves the guarded state. */
  lemma {:induction false} GuardedLeft(s: Slot, x: Exit, e: Env)
    requires ReturnsGuarded(x)
    ensures var s' := Handle(s, x, e).0;
            && s'.page[ELR] == x.elrGl1 && s'.page[SPSR] == x.spsrGl1
            && s'.page[PC] == s.page[PC] && s'.cpsr == s.cpsr && s'.atEl2 == s.atEl2
            && s'.nvOff && !Bit(s'.page[HCR], NV)
  {
    GuardedIsLegal(x.spsrGl1);
    LevelAfter(s, x, e);
    RestoreKeeps(s, x, 0);
    var s1 := Sync(RestoreNv(s, x), x);
    LeaveKeeps(s1, 0);
  }

  // ------------------------------------------------------- what is left alone

  /** The words an exit may write, when it is not a register access. */
  predicate ExitWord(k: nat) {
    k == PC || k == ELR || k == ESR || k == SPSR || k == HCR || k == DIRTY || k == TIMER || k == ELR_GL1 || k == SPSR_GL1
  }

  ghost predicate Alone(s: Slot, s': Slot) {
    && (forall k :: 0 <= k < 2048 && !ExitWord(k) ==> s'.page[k] == s.page[k])
    && s' == s.(page := s'.page, cpsr := s'.cpsr, atEl2 := s'.atEl2, nvOff := s'.nvOff)
  }

  /** Every other exit leaves the general registers, the guest's registers but
      the ones exception entry and return use, the lines, and all that is kept
      beside the page alone. */
  lemma {:induction false} ExitFrame(s: Slot, x: Exit, e: Env)
    requires !IsAccess(x)
    ensures Alone(s, Handle(s, x, e).0)
  {
    RestoreAlone(s, x);
    var s1 := RestoreNv(s, x);
    SynchronousAlone(s1, x);
    InterruptAlone(s1, x);
    AfterRestore(s, x, e);
    AloneTwice(s, s1, Handle(s, x, e).0);
  }

  /** Past the restoring of NV such an exit does one of two things, or none. */
  lemma {:induction false} AfterRestore(s: Slot, x: Exit, e: Env)
    requires !IsAccess(x)
    ensures var s1, s' := RestoreNv(s, x), Handle(s, x, e).0;
            s' == s1 || s' == PhysicalInterrupt(s1, x).0 || s' == Synchronous(s1, x).0
  {
  }

  lemma {:induction false} InterruptAlone(s: Slot, x: Exit)
    ensures Alone(s, PhysicalInterrupt(s, x).0)
  {
  }

  lemma {:induction false} AloneTwice(a: Slot, b: Slot, c: Slot)
    requires Alone(a, b) && Alone(b, c)
    ensures Alone(a, c)
  {
    forall k | 0 <= k < 2048 && !ExitWord(k) ensures c.page[k] == a.page[k] {
      assert c.page[k] == b.page[k] && b.page[k] == a.page[k];
    }
  }

  lemma {:induction false} RestoreAlone(s: Slot, x: Exit)
    ensures Alone(s, RestoreNv(s, x))
  {
  }

  lemma {:induction false} SynchronousAlone(s: Slot, x: Exit)
    ensures Alone(s, Synchronous(s, x).0)
  {
    var s1 := Sync(s, x);
    assert Alone(s, EnterGuestEl2(s, x.esr, Add(s.page[PC], 4)));
    assert Alone(s, s1);
    LeaveAlone(s1);
    AloneTwice(s, s1, LeaveToHardware(s1));
    EretAlone(s1);
    AloneTwice(s, s1, EmulateEret(s1));
  }

  lemma {:induction false} LeaveAlone(s: Slot)
    ensures Alone(s, LeaveToHardware(s))
  {
  }

  lemma {:induction false} EretAlone(s: Slot)
    ensures Alone(s, EmulateEret(s))
  {
  }

  /** An exit that is no access, no exception entry and no return stops the
      guest or lets it go on exactly where it was. */
  lemma {:induction false} QuietExit(s: Slot, x: Exit, e: Env)
    requires !IsAccess(x) && !EntersEl2(s, x) && !Returns(x)
    ensures var s' := Handle(s, x, e).0;
            && (forall k :: 0 <= k < 2048 && k != HCR && k != DIRTY && k != TIMER ==> s'.page[k] == s.page[k])
            && s'.cpsr == s.cpsr && s'.atEl2 == s.atEl2
  {
    RestoreKeeps(s, x, 0);
    var s1 := RestoreNv(s, x);
    QuietTrap(s1, x, e);
    if x.reason == 1 || x.reason == 8 {
      assert Synchronous(s1, x).0 == s1;
    }
  }

  /** A return leaves the registers it was made from as they are: the pair and
      the syndrome of a plain one, the syndrome of a guarded one. */
  lemma {:induction false} ReturnFrame(s: Slot, x: Exit, e: Env)
    requires Returns(x)
    ensures var p := Handle(s, x, e).0.page;
            && p[ESR] == s.page[ESR] && p[TIMER] == s.page[TIMER]
            && (!ReturnsGuarded(x) ==> p[ELR] == s.page[ELR] && p[SPSR] == s.page[SPSR])
            && p[ELR_GL1] == x.elrGl1 && p[SPSR_GL1] == x.spsrGl1
  {
    RestoreKeeps(s, x, 0);
    ReturnState(s, x, e);
    ReturnWords(Sync(RestoreNv(s, x), x));
  }

  lemma {:induction false} ReturnState(s: Slot, x: Exit, e: Env)
    requires Returns(x)
    ensures var s1 := Sync(RestoreNv(s, x), x);
            Handle(s, x, e).0 == if ReturnsGuarded(x) then LeaveToHardware(s1) else if s.atEl2 then EmulateEret(s1) else s1
  {
    GuardedIsLegal(x.spsrGl1);
    RestoreKeeps(s, x, 0);
    QuietTrap(RestoreNv(s, x), x, e);
  }

  lemma {:induction false} ReturnWords(s: Slot)
    ensures forall k :: 0 <= k < 2048 && k != PC && k != HCR && k != DIRTY ==> EmulateEret(s).page[k] == s.page[k]
    ensures forall k :: 0 <= k < 2048 && k != ELR && k != SPSR && k != HCR && k != DIRTY ==>
              LeaveToHardware(s).page[k] == s.page[k]
  {
  }

  // --------------------------------------------------------------- the marks

  lemma {:induction false} ArmMarked(s: Slot)
    ensures AllMarked(s, ArmNv(s)) && AllMarked(s, DropNv(s))
  {
    PutMarked(s, HCR, With(s.page[HCR], NV), D_CONTROLS);
    PutMarked(s, HCR, Without(s.page[HCR], NV), D_CONTROLS);
  }

  lemma {:induction false} RestoreMarked(s: Slot, x: Exit)
    ensures AllMarked(s, RestoreNv(s, x))
  {
    ArmMarked(s);
    var s1 := if s.nvOff && Ec(x.esr) == EC_GEXIT then ArmNv(s).(nvOff := false) else s;
    assert AllMarked(s, s1);
    ArmMarked(s1);
    MarkedTwice(s, s1, RestoreNv(s, x));
  }

  lemma {:induction false} EntryMarked(s: Slot, esr: u64, returnPc: u64)
    ensures AllMarked(s, EnterGuestEl2(s, esr, returnPc))
  {
    var s1 := Mark(Put(Put(Put(s, ELR, returnPc), ESR, esr), SPSR, s.cpsr), D_SYSREGS);
    SetBitAt(s.page[DIRTY], D_SYSREGS, D_SYSREGS);
    ThreeMarked(s, returnPc, esr, s.cpsr);
    var s3 := Put(s1, PC, Add(s.page[VBAR_EL2], LOWER64_SYNC)).(cpsr := ENTRY_PSTATE);
    FreePut(s1, PC, Add(s.page[VBAR_EL2], LOWER64_SYNC));
    assert AllMarked(s1, s3);
    MarkedTwice(s, s1, s3);
    ArmMarked(s3);
    MarkedTwice(s, s3, ArmNv(s3));
  }

  lemma {:induction false} ThreeMarked(s: Slot, elr: u64, esr: u64, spsr: u64)
    ensures AllMarked(s, Mark(Put(Put(Put(s, ELR, elr), ESR, esr), SPSR, spsr), D_SYSREGS))
  {
    SetBitAt(s.page[DIRTY], D_SYSREGS, D_SYSREGS);
    forall k: nat | Bit(s.page[DIRTY], k) ensures Bit(With(s.page[DIRTY], D_SYSREGS), k) {
      SetBitAt(s.page[DIRTY], D_SYSREGS, k);
    }
  }

  lemma {:induction false} LeaveMarked(s: Slot)
    ensures AllMarked(s, LeaveToHardware(s))
  {
    var s1 := Mark(Put(Put(s, ELR, s.page[ELR_GL1]), SPSR, s.page[SPSR_GL1]), D_SYSREGS);
    PairMarked(s, s.page[ELR_GL1], s.page[SPSR_GL1]);
    ArmMarked(s1);
    MarkedTwice(s, s1, DropNv(s1));
  }

  lemma {:induction false} PairMarked(s: Slot, elr: u64, spsr: u64)
    ensures AllMarked(s, Mark(Put(Put(s, ELR, elr), SPSR, spsr), D_SYSREGS))
  {
    SetBitAt(s.page[DIRTY], D_SYSREGS, D_SYSREGS);
    forall k: nat | Bit(s.page[DIRTY], k) ensures Bit(With(s.page[DIRTY], D_SYSREGS), k) {
      SetBitAt(s.page[DIRTY], D_SYSREGS, k);
    }
  }

  lemma {:induction false} EretMarked(s: Slot)
    ensures AllMarked(s, EmulateEret(s))
  {
    var s1 := Put(s, PC, s.page[ELR]).(cpsr := s.page[SPSR] % 0x1_0000_0000);
    FreePut(s, PC, s.page[ELR]);
    assert AllMarked(s, s1);
    ArmMarked(s1.(atEl2 := false));
    MarkedTwice(s, s1.(atEl2 := false), DropNv(s1.(atEl2 := false)));
  }

  lemma {:induction false} SynchronousMarked(s: Slot, x: Exit)
    ensures AllMarked(s, Synchronous(s, x).0)
  {
    EntryMarked(s, x.esr, Add(s.page[PC], 4));
    var s1 := Sync(s, x);
    assert AllMarked(s, s1);
    LeaveMarked(s1);
    MarkedTwice(s, s1, LeaveToHardware(s1));
    EretMarked(s1);
    MarkedTwice(s, s1, EmulateEret(s1));
  }

  lemma {:induction false} TrappedMarked(s: Slot, x: Exit, e: Env)
    ensures AllMarked(s, Trapped(s, x, e).0)
  {
    if Ec(x.esr) == EC_SYSREG {
      WritesAreMarked(s, Decode(x.esr), e);
      RefusedIsReported(Service(s, Decode(x.esr), e).1, x);
    } else {
      SynchronousMarked(s, x);
    }
  }

  /** Before every entry too: a swept control word is marked, and a new level. */
  lemma {:induction false} EntryIsMarked(s: Slot, now: u64, shared: u64, asIrq: u64)
    ensures AllMarked(s, ExpireTimers(s, now, shared, asIrq))
  {
    var s1 := NoteBand(s, shared);
    assert AllMarked(s, s1);
    SweepMarked(s1, now);
    var s2 := SweepPhysical(SweepVirtual(s1, now), now);
    MarkedTwice(s, s1, s2);
    LevelsMarked(s2, asIrq);
    MarkedTwice(s, s2, SetIrqLevel(SetFiqLevel(s2, asIrq), asIrq));
  }

  lemma {:induction false} SweepMarked(s: Slot, now: u64)
    ensures AllMarked(s, SweepPhysical(SweepVirtual(s, now), now))
  {
    PutMarked(s, CNTV_CTL, Swept(s.page[CNTV_CTL], s.page[CNTV_CVAL], now), D_SYSREGS);
    var s1 := SweepVirtual(s, now);
    assert AllMarked(s, s1);
    MarkOnly(s1, D_SYSREGS);
    assert AllMarked(s1, SweepPhysical(s1, now));
    MarkedTwice(s, s1, SweepPhysical(s1, now));
  }

  lemma {:induction false} LevelMarked(s: Slot, bit: nat, want: bool)
    requires bit < 64
    ensures AllMarked(s, SetLevel(s, bit, want))
  {
    PutMarked(s, HCR, WriteBit(s.page[HCR], bit, want), D_CONTROLS);
  }

  lemma {:induction false} FiqMarked(s: Slot, asIrq: u64)
    ensures AllMarked(s, SetFiqLevel(s, asIrq))
  {
    var s1 := s.(lines := s.lines.(timerFiq := TimerWanted(s) && !TimerAsIrq(asIrq, s.id)));
    var want := (s.lines.vmmFiq && (s.lines.base == 0 || FiqTakeable(s))) || s1.lines.timerFiq;
    LevelMarked(s1, VF, want);
  }

  lemma {:induction false} IrqMarked(s: Slot, asIrq: u64)
    ensures AllMarked(s, SetIrqLevel(s, asIrq))
  {
    var timer := TimerAsIrq(asIrq, s.id) && TimerWanted(s);
    LevelMarked(s, VI, (s.lines.vmmIrq || timer) && (s.lines.base == 0 || IrqTakeable(s)));
  }

  lemma {:induction false} LevelsMarked(s: Slot, asIrq: u64)
    ensures AllMarked(s, SetIrqLevel(SetFiqLevel(s, asIrq), asIrq))
  {
    var s1 := SetFiqLevel(s, asIrq);
    FiqMarked(s, asIrq);
    IrqMarked(s1, asIrq);
    MarkedTwice(s, s1, SetIrqLevel(s1, asIrq));
  }

  /** After any exit, every word of the page that it changed is marked for the
      kernel in its part of the state, but for the timer mask. */
  lemma {:induction false} ChangesAreMarked(s: Slot, x: Exit, e: Env)
    ensures AllMarked(s, Handle(s, x, e).0)
  {
    RestoreMarked(s, x);
    var s1 := RestoreNv(s, x);
    TrappedMarked(s1, x, e);
    SynchronousMarked(s1, x);
    assert AllMarked(s1, PhysicalInterrupt(s1, x).0);
    MarkedTwice(s, s1, Handle(s, x, e).0);
  }
}
