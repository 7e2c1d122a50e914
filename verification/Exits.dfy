/** What one exit does to the vCPU: the guest hypervisor's virtual EL2, its
  exception entry and return, and what the VMM is told
  (src/ohv_vcpu.cpp:250-302, 1204-1348, 1350-2105).
*/
module Exits {
  import opened Words
  import opened Slot
  import opened Emulator
  import Band

  /** The exit record the kernel leaves, and what the library finds when it
      looks further: the instruction word mapped at the PC, and the guarded
      return pair a register sync brings in. */
  datatype Exit = Exit(reason: u32, esr: u64, far: u64, hpfar: u64, insn: Option<u32>, elrGl1: u64, spsrGl1: u64)

  datatype Reason = Canceled | Exception | VtimerActivated | Unknown

  datatype Action = KeepRunning | ToVmm(reason: Reason, syndrome: u64, va: u64, pa: u64)

  const SYNC: u32 := 1
  const MSR_TRAP: u32 := 8

  const EC_HVC: nat := 0x16
  const EC_SYSREG: nat := 0x18
  const EC_ERET: nat := 0x1a
  const EC_GEXIT: nat := 0x3f

  function Ec(esr: u64): nat {
    esr / 0x400_0000 % 64
  }

  // ------------------------------------------------------------- the levels

  function ArmNv(s: Slot): Slot {
    Mark(Put(s, HCR, With(s.page[HCR], NV)), D_CONTROLS)
  }

  function DropNv(s: Slot): Slot {
    Mark(Put(s, HCR, Without(s.page[HCR], NV)), D_CONTROLS)
  }

  /** The `0x400` entry is the one for a synchronous exception from a lower
      AArch64 level; `0x3c5` is EL1h with DAIF masked. */
  const LOWER64_SYNC := 0x400
  const ENTRY_PSTATE: u32 := 0x3c5

  /** enter_guest_el2. */
  function EnterGuestEl2(s: Slot, esr: u64, returnPc: u64): Slot {
    var s1 := Put(Put(Put(s, ELR, returnPc), ESR, esr), SPSR, s.cpsr);
    var s2 := Mark(s1, D_SYSREGS);
    var s3 := Put(s2, PC, Add(s.page[VBAR_EL2], LOWER64_SYNC)).(cpsr := ENTRY_PSTATE);
    ArmNv(s3).(atEl2 := true)
  }

  /** spsr_illegal_reason says nothing. */
  predicate Legal(spsr: u64) {
    spsr / 16 % 2 == 0 && (Mode(spsr) == 0 || Mode(spsr) == 4 || Mode(spsr) == 5 || NamesEl2(spsr))
  }

  /** report_illegal_eret prints. */
  predicate Reported(spsr: u64, fromEl1: bool) {
    !Legal(spsr) || (fromEl1 && NamesEl2(spsr))
  }

  /** The register sync: the guarded pair comes in from the hardware. */
  function Sync(s: Slot, x: Exit): Slot {
    Put(Put(s, ELR_GL1, x.elrGl1), SPSR_GL1, x.spsrGl1)
  }

  /** eret_is_guarded, after the sync. */
  predicate Guarded(spsr: u64) {
    spsr != 0 && Legal(spsr) && !NamesEl2(spsr)
  }

  /** A guarded return, left to the hardware with NV off. */
  function LeaveToHardware(s: Slot): Slot {
    var s1 := Put(Put(s, ELR, s.page[ELR_GL1]), SPSR, s.page[SPSR_GL1]);
    DropNv(Mark(s1, D_SYSREGS)).(nvOff := true)
  }

  /** A guest hypervisor's return into the guest it hosts. */
  function EmulateEret(s: Slot): Slot {
    var elr, spsr := s.page[ELR], s.page[SPSR];
    var s1 := Put(s, PC, elr).(cpsr := spsr % 0x1_0000_0000);
    if Mode(spsr) == 4 || Mode(spsr) == 5 then DropNv(s1.(atEl2 := false))
    else if NamesEl2(spsr) then s1.(cpsr := (spsr - Mode(spsr) + (Mode(spsr) - 4)) % 0x1_0000_0000)
    else s1
  }

  predicate IsEret(x: Exit) {
    Ec(x.esr) == EC_ERET && x.esr % 2 == 0
  }

  // --------------------------------------------------------- the classification

  /** NV back on when the guest leaves the guarded state a hardware return
      carried it into, and whenever it is seen in the kernel's half. */
  function RestoreNv(s: Slot, x: Exit): Slot {
    var s1 := if s.nvOff && Ec(x.esr) == EC_GEXIT then ArmNv(s).(nvOff := false) else s;
    if s1.page[PC] >= Band.KERNEL_VA && !Bit(s1.page[HCR], NV) then ArmNv(s1) else s1
  }

  /** A system register access as the exception syndrome describes it, out of
      the instruction. */
  function MsrSyndrome(insn: u32): u64 {
    Iss(OpOf(insn)) + 0x18 * 0x400_0000 + 0x200_0000
  }

  function Iss(a: Op): (iss: nat)
    requires a.Valid()
    ensures iss < 0x40_0000
  {
    a.op0 * 0x10_0000 + a.op2 * 0x2_0000 + a.op1 * 0x4000 + a.crn * 0x400 + a.rt * 0x20 + a.crm * 2
    + if a.read then 1 else 0
  }

  /** The access an MSR or MRS instruction makes. */
  function OpOf(insn: u32): (a: Op)
    ensures a.Valid()
  {
    Op(2 + insn / 0x8_0000 % 2, insn / 0x1_0000 % 8, insn / 0x1000 % 16, insn / 0x100 % 16, insn / 0x20 % 8,
       insn % 32, insn / 0x20_0000 % 2 == 1)
  }

  /** `(insn & 0xffd00000) == 0xd5100000`: MSR or MRS of a register. */
  predicate IsMsr(insn: u32) {
    insn / 0x40_0000 == 0x354 && insn / 0x10_0000 % 2 == 1
  }

  function Syndrome(x: Exit): u64 {
    if x.esr != 0 || x.insn.None? then x.esr
    else if x.reason == MSR_TRAP && IsMsr(x.insn.value) then MsrSyndrome(x.insn.value)
    else if x.reason == SYNC && x.insn.value == 0x0020_1400 then 0x3f * 0x400_0000 + 0x200_0000 + 0x22
    else x.esr
  }

  function Report(x: Exit, reason: Reason, syndrome: u64): Action {
    ToVmm(reason, syndrome, x.far, x.hpfar - x.hpfar % 0x1000 + x.far % 0x1000)
  }

  /** A physical interrupt: the virtual timer's when the guest's own timer says
      so and the mask is not up. */
  function PhysicalInterrupt(s: Slot, x: Exit): (Slot, Action) {
    if !Bit(s.page[TIMER], 0) && s.page[CNTV_CTL] == 5
    then (Put(s, TIMER, With(s.page[TIMER], 0)), Report(x, VtimerActivated, x.esr))
    else (s, Report(x, Unknown, x.esr))
  }

  /** From the guest hypervisor's own traps down to the VMM's. */
  function Synchronous(s: Slot, x: Exit): (Slot, Action) {
    if Ec(x.esr) == EC_HVC && !s.atEl2 then (EnterGuestEl2(s, x.esr, Add(s.page[PC], 4)), KeepRunning)
    else if IsEret(x) then
      var s1 := Sync(s, x);
      if Guarded(x.spsrGl1) then (LeaveToHardware(s1), KeepRunning)
      else if s1.atEl2 then (EmulateEret(s1), KeepRunning)
      else (s1, Report(x, Exception, Syndrome(x)))
    else (s, Report(x, Exception, Syndrome(x)))
  }

  /** A trapped register access: answered here, or passed on. */
  function Trapped(s: Slot, x: Exit, e: Env): (Slot, Action) {
    if Ec(x.esr) == EC_SYSREG then
      var (served, s1) := Service(s, Decode(x.esr), e);
      if served then (s1, KeepRunning) else Synchronous(s1, x)
    else Synchronous(s, x)
  }

  /** exit_from_ro. */
  function Handle(s: Slot, x: Exit, e: Env): (Slot, Action) {
    var s1 := RestoreNv(s, x);
    if x.reason == 0 then (s1, Report(x, Canceled, x.esr))
    else if x.reason == 2 || x.reason == 7 || x.reason == 11 || x.reason == 12 then (s1, KeepRunning)
    else if x.reason == 3 || x.reason == 4 then PhysicalInterrupt(s1, x)
    else if x.reason == MSR_TRAP then Trapped(s1, x, e)
    else if x.reason == SYNC then Synchronous(s1, x)
    else if x.reason == 6 then (s1, Report(x, Exception, Syndrome(x)))
    else (s1, Report(x, Unknown, x.esr))
  }
}
