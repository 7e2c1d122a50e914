/** What every exit keeps, and exception entry against exception return
  (src/ohv_vcpu.cpp:1231-1348, 1432-1441, 1557-1566, 1883-1892, 1959-2065).
*/
module ExitLaws {
  import opened Words
  import opened Slot
  import opened Emulator
  import opened EmulatorLaws
  import opened Exits
  import Timers

  // ---------------------------------------------------- what every exit keeps

  /** The interrupt lines, the timer offset, and bit `k` of HCR_EL2 are as they
      were; a new HCR_EL2 is marked for the kernel and no mark is taken back;
      the physical timer's hardware word is kept or zeroed. */
  ghost predicate Kept(s: Slot, s': Slot, k: nat) {
    && s'.lines == s.lines && s'.id == s.id
    && (Bit(s'.page[HCR], k) <==> Bit(s.page[HCR], k))
    && (s'.page[HCR] != s.page[HCR] || Bit(s.page[DIRTY], D_CONTROLS) ==> Bit(s'.page[DIRTY], D_CONTROLS))
    && s'.page[OFFSET] == s.page[OFFSET]
    && (s'.page[CNTP_CTL] == s.page[CNTP_CTL] || s'.page[CNTP_CTL] == 0)
  }

  /** While the guest believes it is at EL2 its traps are armed, unless a
      guarded return has been left to the hardware. */
  predicate NvInvariant(s: Slot) {
    s.atEl2 && !s.nvOff ==> Bit(s.page[HCR], NV)
  }

  /** All that an exit keeps: the invariant and the level PSTATE names too. */
  ghost predicate Safe(s: Slot, s': Slot, k: nat) {
    Kept(s, s', k) && (NvInvariant(s) ==> NvInvariant(s')) && (!NamesEl2(s.cpsr) ==> !NamesEl2(s'.cpsr))
  }

  lemma {:induction false} SafeTwice(a: Slot, b: Slot, c: Slot, k: nat)
    requires Safe(a, b, k) && Safe(b, c, k)
    ensures Safe(a, c, k)
  {
  }

  lemma {:induction false} ArmKeeps(s: Slot, k: nat)
    requires k != NV
    ensures Kept(s, ArmNv(s), k) && Bit(ArmNv(s).page[HCR], NV) && Bit(ArmNv(s).page[DIRTY], D_CONTROLS)
  {
    SetBitAt(s.page[HCR], NV, k);
    SetBitAt(s.page[HCR], NV, NV);
    SetBitAt(s.page[DIRTY], D_CONTROLS, D_CONTROLS);
  }

  lemma {:induction false} DropKeeps(s: Slot, k: nat)
    requires k != NV
    ensures Kept(s, DropNv(s), k) && !Bit(DropNv(s).page[HCR], NV)
  {
    ClearBitAt(s.page[HCR], NV, k);
    ClearBitAt(s.page[HCR], NV, NV);
    SetBitAt(s.page[DIRTY], D_CONTROLS, D_CONTROLS);
  }

  lemma {:induction false} MarkSysregs(s: Slot, k: nat)
    ensures Kept(s, Mark(s, D_SYSREGS), k)
  {
    SetBitAt(s.page[DIRTY], D_SYSREGS, D_CONTROLS);
  }

  lemma {:induction false} RestoreKeeps(s: Slot, x: Exit, k: nat)
    requires k != NV
    ensures Safe(s, RestoreNv(s, x), k)
    ensures RestoreNv(s, x).cpsr == s.cpsr && RestoreNv(s, x).atEl2 == s.atEl2
    ensures forall i :: 0 <= i < 2048 && i != HCR && i != DIRTY ==> RestoreNv(s, x).page[i] == s.page[i]
  {
    ArmKeeps(s, k);
    var s1 := if s.nvOff && Ec(x.esr) == EC_GEXIT then ArmNv(s).(nvOff := false) else s;
    ArmKeeps(s1, k);
  }

  lemma {:induction false} EntryKeeps(s: Slot, esr: u64, returnPc: u64, k: nat)
    requires k != NV
    ensures var s' := EnterGuestEl2(s, esr, returnPc);
            && Kept(s, s', k) && Bit(s'.page[HCR], NV) && s'.atEl2 && s'.cpsr == ENTRY_PSTATE && s'.nvOff == s.nvOff
            && s'.page[ELR] == returnPc && s'.page[SPSR] == s.cpsr && s'.page[ESR] == esr
            && s'.page[PC] == Add(s.page[VBAR_EL2], LOWER64_SYNC)
  {
    var s1 := Put(Put(Put(s, ELR, returnPc), ESR, esr), SPSR, s.cpsr);
    MarkSysregs(s1, k);
    var s3 := Put(Mark(s1, D_SYSREGS), PC, Add(s.page[VBAR_EL2], LOWER64_SYNC)).(cpsr := ENTRY_PSTATE);
    ArmKeeps(s3, k);
  }

  lemma {:induction false} LeaveKeeps(s: Slot, k: nat)
    requires k != NV
    ensures Kept(s, LeaveToHardware(s), k) && NvInvariant(LeaveToHardware(s)) && LeaveToHardware(s).cpsr == s.cpsr
    ensures LeaveToHardware(s).page[ELR] == s.page[ELR_GL1] && LeaveToHardware(s).page[SPSR] == s.page[SPSR_GL1]
  {
    var s1 := Put(Put(s, ELR, s.page[ELR_GL1]), SPSR, s.page[SPSR_GL1]);
    MarkSysregs(s1, k);
    DropKeeps(Mark(s1, D_SYSREGS), k);
  }

  lemma {:induction false} EretKeeps(s: Slot, k: nat)
    requires k != NV
    ensures Kept(s, EmulateEret(s), k) && (NvInvariant(s) ==> NvInvariant(EmulateEret(s)))
    ensures !NamesEl2(EmulateEret(s).cpsr)
  {
    var s1 := Put(s, PC, s.page[ELR]).(cpsr := s.page[SPSR] % 0x1_0000_0000);
    assert Kept(s, s1, k);
    DropKeeps(s1.(atEl2 := false), k);
    EretPstate(s.page[SPSR]);
  }

  lemma {:induction false} EretPstate(spsr: u64)
    ensures Mode(spsr % 0x1_0000_0000) == Mode(spsr)
    ensures NamesEl2(spsr) ==>
              var p := (spsr - Mode(spsr) + (Mode(spsr) - 4)) % 0x1_0000_0000;
              Mode(p) == Mode(spsr) - 4 && p - Mode(p) == (spsr - Mode(spsr)) % 0x1_0000_0000
  {
    assert spsr % 0x1_0000_0000 % 16 == spsr % 16;
  }

  lemma {:induction false} SynchronousKeeps(s: Slot, x: Exit, k: nat)
    requires k != NV
    ensures Safe(s, Synchronous(s, x).0, k)
  {
    if IsEret(x) {
      ReturnKeeps(s, x, k);
    } else {
      EntryKeeps(s, x.esr, Add(s.page[PC], 4), k);
    }
  }

  lemma {:induction false} ReturnKeeps(s: Slot, x: Exit, k: nat)
    requires k != NV && IsEret(x)
    ensures Safe(s, Synchronous(s, x).0, k)
  {
    var s1 := Sync(s, x);
    assert Kept(s, s1, k);
    LeaveKeeps(s1, k);
    EretKeeps(s1, k);
  }

  lemma {:induction false} ServiceKeeps(s: Slot, a: Op, e: Env, k: nat)
    requires a.Valid() && k != NV
    ensures Safe(s, Service(s, a, e).1, k)
  {
    ServeKeeps(s, a, e);
    PhysicalStaysDisarmed(s, a, e);
    FinishLeaves(Serve(s, a, e).slot, a, Serve(s, a, e).value);
    SetBitAt(s.page[HCR], NV, k);
    SetBitAt(s.page[HCR], NV, NV);
  }

  /** The step over the instruction writes a general register and the PC. */
  lemma {:induction false} FinishLeaves(s: Slot, a: Op, v: u64)
    requires a.Valid()
    ensures var s' := Finish(s, a, v);
            && s' == s.(page := s'.page) && s'.page[HCR] == s.page[HCR] && s'.page[DIRTY] == s.page[DIRTY]
            && s'.page[OFFSET] == s.page[OFFSET] && s'.page[TIMER] == s.page[TIMER]
            && s'.page[CNTP_CTL] == s.page[CNTP_CTL]
  {
  }

  lemma {:induction false} TrappedKeeps(s: Slot, x: Exit, e: Env, k: nat)
    requires k != NV
    ensures Safe(s, Trapped(s, x, e).0, k)
  {
    if Ec(x.esr) == EC_SYSREG {
      var s1 := Service(s, Decode(x.esr), e).1;
      ServiceKeeps(s, Decode(x.esr), e, k);
      SynchronousKeeps(s1, x, k);
      SafeTwice(s, s1, Synchronous(s1, x).0, k);
    } else {
      SynchronousKeeps(s, x, k);
    }
  }

  lemma {:induction false} InterruptKeeps(s: Slot, x: Exit, k: nat)
    ensures Safe(s, PhysicalInterrupt(s, x).0, k)
  {
  }

  /** Whatever the exit -- any reason, any syndrome, any access, any return --
      it keeps all of that, the virtual-EL2 invariant, and a PSTATE that does
      not name EL2. */
  lemma {:induction false} HandleKeeps(s: Slot, x: Exit, e: Env, k: nat)
    requires k != NV
    ensures Safe(s, Handle(s, x, e).0, k)
  {
    var s1 := RestoreNv(s, x);
    RestoreKeeps(s, x, k);
    if x.reason == 3 || x.reason == 4 {
      InterruptKeeps(s1, x, k);
    } else if x.reason == MSR_TRAP {
      TrappedKeeps(s1, x, e, k);
    } else if x.reason == SYNC {
      SynchronousKeeps(s1, x, k);
    }
    SafeTwice(s, s1, Handle(s, x, e).0, k);
  }

  lemma {:induction false} SynchronousStores(s: Slot, x: Exit)
    ensures Synchronous(s, x).0.stores == s.stores
  {
  }

  lemma {:induction false} TrappedKeepsLists(s: Slot, x: Exit, e: Env)
    requires ListsOk(s)
    ensures ListsOk(Trapped(s, x, e).0)
  {
    if Ec(x.esr) == EC_SYSREG {
      ServiceKeepsLists(s, Decode(x.esr), e);
      SynchronousStores(Service(s, Decode(x.esr), e).1, x);
    } else {
      SynchronousStores(s, x);
    }
  }

  lemma {:induction false} SameLists(s: Slot, s': Slot)
    requires s'.stores == s.stores
    ensures ListsOk(s') <==> ListsOk(s)
  {
  }

  lemma {:induction false} RestoreStores(s: Slot, x: Exit)
    ensures var s1 := RestoreNv(s, x);
            s1.stores == s.stores && forall n :: 0 <= n < 31 ==> s1.page[X(n)] == s.page[X(n)]
  {
  }

  lemma {:induction false} QuietTrap(s: Slot, x: Exit, e: Env)
    requires Ec(x.esr) != EC_SYSREG || x.reason != MSR_TRAP
    ensures x.reason == MSR_TRAP ==> Trapped(s, x, e) == Synchronous(s, x)
  {
  }

  /** Exits other than a trapped access leave the library's registers alone. */
  lemma {:induction false} HandleStores(s: Slot, x: Exit, e: Env)
    requires x.reason != MSR_TRAP || Ec(x.esr) != EC_SYSREG
    ensures Handle(s, x, e).0.stores == s.stores
  {
    RestoreStores(s, x);
    SynchronousStores(RestoreNv(s, x), x);
    QuietTrap(RestoreNv(s, x), x, e);
  }

  lemma {:induction false} HandleKeepsLists(s: Slot, x: Exit, e: Env)
    requires ListsOk(s)
    ensures ListsOk(Handle(s, x, e).0)
  {
    var s1 := RestoreNv(s, x);
    SameLists(s, s1);
    if x.reason == MSR_TRAP {
      TrappedKeepsLists(s1, x, e);
    } else {
      HandleStores(s, x, e);
      SameLists(s, Handle(s, x, e).0);
    }
  }

  // ----------------------------------------------------- the guarded return

  /** The architecture's rule for an exception return executed at EL1: AArch64,
      to EL0t, EL1t or EL1h. */
  predicate LegalAtEl1(spsr: u64) {
    spsr % 32 == 0 || spsr % 32 == 4 || spsr % 32 == 5
  }

  /** The return left to the hardware is one the hardware will carry out: the
      test lets through just the non-zero pairs legal at EL1, so the report of
      an illegal return never fires there. */
  lemma {:induction false} GuardedIsLegal(spsr: u64)
    ensures Guarded(spsr) <==> spsr != 0 && LegalAtEl1(spsr)
    ensures Guarded(spsr) ==> !Reported(spsr, true)
  {
    assert spsr % 32 == spsr / 16 % 2 * 16 + spsr % 16;
  }

  // -------------------------------------------------- entry against return

  /** An HVC out of the guest the guest hypervisor hosts, as the exit that
      carries it. */
  predicate IsHvc(x: Exit) {
    (x.reason == SYNC || x.reason == MSR_TRAP) && Ec(x.esr) == EC_HVC
  }

  /** An ERET trapped with no guarded return pending. */
  predicate IsPlainEret(x: Exit) {
    (x.reason == SYNC || x.reason == MSR_TRAP) && IsEret(x) && !Guarded(x.spsrGl1)
  }

  /** An HVC from EL1 is taken to the guest hypervisor's own vector: the return
      state is in the registers it reads as ELR_EL2, SPSR_EL2 and ESR_EL2. */
  lemma {:induction false} HvcEnters(s: Slot, x: Exit, e: Env)
    requires IsHvc(x) && !s.atEl2
    ensures var (s', act) := Handle(s, x, e);
            && act == KeepRunning && s'.atEl2 && Bit(s'.page[HCR], NV)
            && s'.page[ELR] == Add(s.page[PC], 4) && s'.page[SPSR] == s.cpsr && s'.page[ESR] == x.esr
            && s'.page[PC] == Add(s.page[VBAR_EL2], LOWER64_SYNC) && s'.cpsr == ENTRY_PSTATE
  {
    RestoreKeeps(s, x, 0);
    var s1 := RestoreNv(s, x);
    EntryKeeps(s1, x.esr, Add(s1.page[PC], 4), 0);
  }

  /** PC and PSTATE are the pair's, with EL2 rewritten to EL1. */
  ghost predicate Lands(elr: u64, spsr: u64, s': Slot) {
    && s'.page[PC] == elr
    && s'.cpsr == (if NamesEl2(spsr) then (spsr - 4) % 0x1_0000_0000 else spsr % 0x1_0000_0000)
  }

  /** The state a return from `s` leaves: the guest leaves its EL2 on a return
      to EL1. */
  ghost predicate Returned(s: Slot, s': Slot) {
    var spsr := s.page[SPSR];
    && Lands(s.page[ELR], spsr, s')
    && (s'.atEl2 <==> s.atEl2 && !(Mode(spsr) == 4 || Mode(spsr) == 5))
    && (s.atEl2 && !s'.atEl2 ==> !Bit(s'.page[HCR], NV))
  }

  lemma {:induction false} EmulationReturns(s: Slot)
    ensures Returned(s, EmulateEret(s))
  {
    var s1 := Put(s, PC, s.page[ELR]).(cpsr := s.page[SPSR] % 0x1_0000_0000);
    DropKeeps(s1.(atEl2 := false), 0);
  }

  /** What the trapped ERET leaves. */
  lemma {:induction false} EretReturns(s: Slot, x: Exit, e: Env)
    requires IsPlainEret(x) && s.atEl2
    ensures Handle(s, x, e).1 == KeepRunning && Returned(s, Handle(s, x, e).0)
  {
    RestoreKeeps(s, x, 0);
    EmulationReturns(Sync(RestoreNv(s, x), x));
  }

  /** Entry and return are inverse: whatever the guest hypervisor does in
      between, if it leaves ELR_EL2 and SPSR_EL2 alone its ERET resumes the
      guest after the HVC, with the whole PSTATE and the level it had. */
  lemma {:induction false} ReturnUndoesEntry(s: Slot, hvc: Exit, e: Env, t: Slot, eret: Exit, e': Env)
    requires IsHvc(hvc) && !s.atEl2 && IsPlainEret(eret)
    requires var s1 := Handle(s, hvc, e).0;
             t.page[ELR] == s1.page[ELR] && t.page[SPSR] == s1.page[SPSR] && t.atEl2 == s1.atEl2
    ensures Resumed(s, Handle(t, eret, e').0)
  {
    HvcEnters(s, hvc, e);
    EretReturns(t, eret, e');
    assert t.page[ELR] == Add(s.page[PC], 4) && t.page[SPSR] == s.cpsr && t.atEl2;
    Resumes(s, t, Handle(t, eret, e').0);
  }

  /** `s'` is where the HVC was made from `s`, one instruction on. */
  ghost predicate Resumed(s: Slot, s': Slot) {
    && s'.page[PC] == Add(s.page[PC], 4)
    && (s'.cpsr == s.cpsr <==> !NamesEl2(s.cpsr))
    && (s'.atEl2 == s.atEl2 <==> Mode(s.cpsr) == 4 || Mode(s.cpsr) == 5)
  }

  lemma {:induction false} Resumes(s: Slot, t: Slot, s': Slot)
    requires !s.atEl2 && t.page[ELR] == Add(s.page[PC], 4) && t.page[SPSR] == s.cpsr && t.atEl2 && Returned(t, s')
    ensures Resumed(s, s')
  {
  }

  // ----------------------------------------------------------- what VMMs see

  /** The registers a VMM reads after an exit. */
  ghost predicate SameRegisters(s: Slot, s': Slot) {
    s'.cpsr == s.cpsr && forall i :: 0 <= i < 34 ==> s'.page[i] == s.page[i]
  }

  lemma {:induction false} RefusedService(s: Slot, a: Op, e: Env)
    requires a.Valid() && !Service(s, a, e).0
    ensures SameRegisters(s, Service(s, a, e).1)
  {
    ServeKeeps(s, a, e);
  }

  lemma {:induction false} ReportedSynchronous(s: Slot, x: Exit)
    requires Synchronous(s, x).1.ToVmm?
    ensures SameRegisters(s, Synchronous(s, x).0)
  {
  }

  /** An exit handed to the VMM shows it the guest as it stopped: the PC, the
      general registers and PSTATE are what the guest left, whatever was tried
      on the way. */
  lemma {:induction false} VmmSeesTheGuest(s: Slot, x: Exit, e: Env)
    requires Handle(s, x, e).1.ToVmm?
    ensures SameRegisters(s, Handle(s, x, e).0)
  {
    RestoreKeeps(s, x, 0);
    var s1 := RestoreNv(s, x);
    assert SameRegisters(s, s1);
    if x.reason == MSR_TRAP {
      ReportedTrap(s1, x, e);
    } else if x.reason == SYNC {
      ReportedSynchronous(s1, x);
    }
  }

  lemma {:induction false} ReportedTrap(s: Slot, x: Exit, e: Env)
    requires Trapped(s, x, e).1.ToVmm?
    ensures SameRegisters(s, Trapped(s, x, e).0)
  {
    if Ec(x.esr) == EC_SYSREG {
      RefusedService(s, Decode(x.esr), e);
      ReportedSynchronous(Service(s, Decode(x.esr), e).1, x);
    } else {
      ReportedSynchronous(s, x);
    }
  }

  /** A physical interrupt is the virtual timer's exactly when that timer is
      enabled, unmasked and has fired, and the VMM has not been told yet. */
  lemma {:induction false} ActivatedExactly(s: Slot, x: Exit)
    ensures PhysicalInterrupt(s, x).1.reason == VtimerActivated
            <==> var ctl := s.page[CNTV_CTL];
                 && !Bit(s.page[TIMER], 0)
                 && Bit(ctl, Timers.ENABLE) && !Bit(ctl, Timers.IMASK) && Bit(ctl, Timers.ISTATUS) && ctl < 8
  {
    var ctl := s.page[CNTV_CTL];
    assert Bit(ctl, 1) == (ctl / 2 % 2 == 1);
    assert Bit(ctl, 2) == Bit(ctl / 2, 1) && Bit(ctl / 2, 1) == Bit(ctl / 2 / 2, 0);
  }

  /** The syndrome built from an instruction names that instruction's access. */
  lemma {:induction false} SyndromeNamesAccess(insn: u32)
    ensures Ec(MsrSyndrome(insn)) == EC_SYSREG
    ensures Decode(MsrSyndrome(insn)) == OpOf(insn)
  {
    IssDecodes(OpOf(insn), 0x31);
  }

  lemma {:induction false} IssDecodes(a: Op, top: nat)
    requires a.Valid() && top < 64
    ensures Decode(Iss(a) + top * 0x200_0000) == a
  {
    var read := if a.read then 1 else 0;
    var x17 := a.op2 + 8 * (a.op0 + 32 * top);
    var x14 := a.op1 + 8 * x17;
    var x10 := a.crn + 16 * x14;
    var x5 := a.rt + 32 * x10;
    var x1 := a.crm + 16 * x5;
    Quotient(2, x1, read);
    Quotient(0x20, x5, 2 * a.crm + read);
    Quotient(0x400, x10, 0x20 * a.rt + 2 * a.crm + read);
    Quotient(0x4000, x14, 0x400 * a.crn + 0x20 * a.rt + 2 * a.crm + read);
    Quotient(0x2_0000, x17, 0x4000 * a.op1 + 0x400 * a.crn + 0x20 * a.rt + 2 * a.crm + read);
    Quotient(0x10_0000, a.op0 + 32 * top,
             0x2_0000 * a.op2 + 0x4000 * a.op1 + 0x400 * a.crn + 0x20 * a.rt + 2 * a.crm + read);
    Remainders(a, top, x1, x5, x10, x14, x17);
  }

  lemma {:induction false} Remainders(a: Op, top: nat, x1: nat, x5: nat, x10: nat, x14: nat, x17: nat)
    requires a.Valid()
    requires x17 == a.op2 + 8 * (a.op0 + 32 * top) && x14 == a.op1 + 8 * x17 && x10 == a.crn + 16 * x14
    requires x5 == a.rt + 32 * x10 && x1 == a.crm + 16 * x5
    ensures x1 % 16 == a.crm && x5 % 32 == a.rt && x10 % 16 == a.crn && x14 % 8 == a.op1 && x17 % 8 == a.op2
    ensures (a.op0 + 32 * top) % 4 == a.op0
  {
    Quotient(16, x5, a.crm);
    Quotient(32, x10, a.rt);
    Quotient(16, x14, a.crn);
    Quotient(8, x17, a.op1);
    Quotient(8, a.op0 + 32 * top, a.op2);
    Quotient(4, 8 * top, a.op0);
  }
}
