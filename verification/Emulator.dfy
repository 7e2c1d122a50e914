/** Trapped system register accesses answered inside the run loop
  (src/ohv_vcpu.cpp:332-427, 530-1202).

  An access is decoded from the syndrome, `Pick` names the register in the
  order the code's branches test for it, and `Serve` carries the access out.
*/
module Emulator {
  import opened Words
  import opened AssocList
  import opened Slot
  import opened Timers
  import Stage1

  // ------------------------------------------------------------- the access

  datatype Op = Op(op0: nat, op1: nat, crn: nat, crm: nat, op2: nat, rt: nat, read: bool)
  {
    predicate Valid() {
      op0 < 4 && op1 < 8 && crn < 16 && crm < 16 && op2 < 8 && rt < 32
    }

    function Enc(): nat {
      op0 * 0x4000 + op1 * 0x800 + crn * 0x80 + crm * 8 + op2
    }
  }

  /** The ISS of a trapped MSR or MRS. */
  function Decode(esr: u64): (a: Op)
    ensures a.Valid()
  {
    Op(esr / 0x10_0000 % 4, esr / 0x4000 % 8, esr / 0x400 % 16, esr / 2 % 16, esr / 0x2_0000 % 8,
       esr / 0x20 % 32, esr % 2 == 1)
  }

  // ------------------------------------------------------------- the places

  /** Where an emulated register's value is kept. */
  datatype Place =
    | Word(i: nat)
    | ShadowCtl
    | Gl2(i: nat)
    | TimerEnable
    | Pstate
    | Trace(i: nat)
    | Ctrr(key: nat)
    | Gic(key: nat)
    | Apple(key: nat)
  {
    predicate Valid() {
      match this
      case Word(i) => i < 2048 && i != DIRTY
      case Gl2(i) => i < 8
      case Trace(i) => i < 3
      case Ctrr(k) => 2 <= k <= 5
      case _ => true
    }
  }

  function Get(s: Slot, p: Place): u64
    requires p.Valid()
  {
    match p
    case Word(i) => s.page[i]
    case ShadowCtl => s.shadow[SHADOW_CNTP_CTL]
    case Gl2(i) => s.stores.gl2[i]
    case TimerEnable => s.stores.tmrEna
    case Pstate => s.stores.held
    case Trace(i) => s.stores.trace[i]
    case Ctrr(k) => ValueOf(s.stores.ctrr, k)
    case Gic(k) => ValueOf(GicReady(s.stores.gicIf, s.stores.gicReady), k)
    case Apple(k) => ValueOf(s.stores.apple, k)
  }

  /** Read (`write` is None) or write a place; a list that is full refuses an
      encoding it does not have. */
  function Use(s: Slot, p: Place, write: Option<u64>): Option<Slot>
    requires p.Valid()
  {
    match p
    case Ctrr(k) =>
      (match AssocList.Access(s.stores.ctrr, CTRR_CAP, k, write)
       case None => None
       case Some(r) => Some(s.(stores := s.stores.(ctrr := r.0))))
    case Gic(k) =>
      (match AssocList.Access(GicReady(s.stores.gicIf, s.stores.gicReady), GIC_CAP, k, write)
       case None => None
       case Some(r) => Some(s.(stores := s.stores.(gicIf := r.0, gicReady := true))))
    case Apple(k) =>
      (match AssocList.Access(s.stores.apple, APPLE_CAP, k, write)
       case None => None
       case Some(r) => Some(s.(stores := s.stores.(apple := r.0))))
    case _ =>
      if write.None? then Some(s) else Some(Store(s, p, write.value))
  }

  /** A write to a place that is not in a list. */
  function Store(s: Slot, p: Place, v: u64): Slot
    requires p.Valid()
  {
    match p
    case Word(i) => Put(s, i, v)
    case ShadowCtl => s.(shadow := s.shadow[SHADOW_CNTP_CTL := v])
    case Gl2(i) => s.(stores := s.stores.(gl2 := s.stores.gl2[i := v]))
    case TimerEnable => s.(stores := s.stores.(tmrEna := v))
    case Pstate => s.(stores := s.stores.(held := v))
    case Trace(i) => s.(stores := s.stores.(trace := s.stores.trace[i := v]))
    case _ => s
  }

  // ------------------------------------------------------------ the registers

  /** What the dispatcher takes an access for. */
  datatype Reg =
    | AmxVersion
    | Handoff
    | Cell(place: Place, mark: Option<nat>)
    | CacheLevels
    | CacheSize
    | Counter(writable: bool)
    | Frequency
    | TimerValue(physical: bool)
    | CompareValue(physical: bool)
    | TimerControl(physical: bool)
    | NoTimer(physical: bool)
    | TranslateAddress
    | Maintenance
    | NotOurs

  predicate IsGxf(a: Op) {
    a.op0 == 3 && a.op1 == 6 && a.crn == 15 && ((a.crm == 1 && a.op2 == 2) || (a.crm == 8 && (a.op2 == 1 || a.op2 == 2)))
  }

  predicate IsCache(a: Op) {
    a.op0 == 3 && a.crn == 0 && a.crm == 0 && ((a.op1 == 1 && (a.op2 == 0 || a.op2 == 1)) || (a.op1 == 2 && a.op2 == 0))
  }

  predicate IsGicInterface(a: Op) {
    a.op0 == 3 && ((a.crn == 12 && (a.op1 == 0 || a.op1 == 4) && 8 <= a.crm <= 12)
                   || (a.crn == 4 && a.op1 == 0 && a.crm == 6 && a.op2 == 0))
  }

  /** The page word of a guest hypervisor's EL2 register, and whether it is an
      EL1 register underneath. */
  function El2Word(enc: nat): Option<(nat, bool)> {
    match enc
    case 0xe080 => Some((Banked(12), true))  // SCTLR_EL2
    case 0xe08a => Some((Banked(13), true))  // CPTR_EL2
    case 0xe100 => Some((Banked(0), true))   // TTBR0_EL2
    case 0xe101 => Some((Banked(1), true))   // TTBR1_EL2
    case 0xe102 => Some((Banked(2), true))   // TCR_EL2
    case 0xe510 => Some((Banked(6), true))   // MAIR_EL2
    case 0xe518 => Some((Banked(7), true))   // AMAIR_EL2
    case 0xe681 => Some((Banked(17), true))  // CONTEXTIDR_EL2
    case 0xe200 => Some((Banked(14), true))  // SPSR_EL2
    case 0xe201 => Some((Banked(3), true))   // ELR_EL2
    case 0xe300 => Some((Banked(4), true))   // FAR_EL2
    case 0xe290 => Some((Banked(5), true))   // ESR_EL2
    case 0xe000 => Some((Vncr(0x088), false)) // VPIDR_EL2
    case 0xe005 => Some((Vncr(0x050), false)) // VMPIDR_EL2
    case 0xe088 => Some((Vncr(0x078), false)) // HCR_EL2
    case 0xe089 => Some((Vncr(0x130), false)) // MDCR_EL2
    case 0xe08b => Some((Vncr(0x080), false)) // HSTR_EL2
    case 0xe108 => Some((Vncr(0x020), false)) // VTTBR_EL2
    case 0xe10a => Some((Vncr(0x040), false)) // VTCR_EL2
    case 0xe304 => Some((Vncr(0x1f8), false)) // HPFAR_EL2
    case 0xe682 => Some((Vncr(0x090), false)) // TPIDR_EL2
    case 0xe703 => Some((Vncr(0x060), false)) // CNTVOFF_EL2
    case 0xe708 => Some((Vncr(0x0e0), false)) // CNTHCTL_EL2
    case 0xe600 => Some((Vncr(0x250), false)) // VBAR_EL2
    case _ => None
  }

  function Pick(a: Op): Reg {
    if a.op0 == 3 && a.op1 == 6 && a.crn == 15 && a.crm == 2 && a.op2 == 7 && a.read then AmxVersion
    else if a.op0 == 3 && a.op1 == 6 && a.crn == 15 && a.crm == 15 && a.op2 == 7 && !a.read then Handoff
    else if IsGxf(a) then Cell(Word(if a.crm == 1 then GXF_CONFIG else GXF_CONFIG + a.op2), Some(D_GXF))
    else if IsCache(a) then
      if a.op1 == 2 then Cell(Word(CSSELR), Some(D_SYSREGS)) else if a.op2 == 1 then CacheLevels else CacheSize
    else if a.op0 == 3 && a.op1 == 3 && a.crn == 14 && a.crm == 0 && a.read then
      if a.op2 == 1 || a.op2 == 2 then Counter(false) else if a.op2 == 0 then Frequency else NotOurs
    else if a.op0 == 3 && a.op1 == 3 && a.crn == 14 && (a.crm == 2 || a.crm == 3) then PickTimer(a.crm == 2, a.op2)
    else if IsGicInterface(a) then Cell(Gic(a.Enc()), None)
    else if a.op0 == 1 && (a.op1 == 4 || a.op1 == 0) && a.crn == 7 && (a.crm == 8 || a.crm == 9) then TranslateAddress
    else if a.op0 == 1 && a.op1 == 4 then Maintenance
    else PickOther(a)
  }

  function PickTimer(physical: bool, op2: nat): Reg {
    if op2 == 0 then TimerValue(physical)
    else if op2 == 1 then TimerControl(physical)
    else if op2 == 2 then CompareValue(physical)
    else NoTimer(physical)
  }

  function PickOther(a: Op): Reg {
    if a.op0 == 3 && a.op1 == 3 && a.crn == 4 && a.crm == 2 && a.op2 == 6 then Cell(Pstate, None)
    else if a.op0 == 3 && a.op1 == 6 && a.crn == 15 && a.crm == 11 && a.op2 < 8 then Cell(Gl2(a.op2), None)
    else if a.op0 == 3 && a.op1 == 5 && a.crn == 15 && a.crm == 1 && a.op2 == 3 then Cell(TimerEnable, None)
    else if a.op0 == 3 && a.op1 == 4 && a.crn == 15 && IsCtrr(a.crm, a.op2) then Cell(Ctrr(CtrrSlot(a.crm, a.op2)), None)
    else if a.op0 == 3 && a.op1 == 5 && a.crn == 15 && ((a.crm == 1 && a.op2 == 4) || (a.crm == 10 && a.op2 == 1))
    then Cell(Trace(if a.crm == 1 then 0 else 1), None)
    else if a.op0 == 3 && (a.op1 == 0 || (a.op1 == 4 && a.crm == 10)) then
      if a.op1 == 4 && a.crm == 10 && (a.op2 == 5 || a.op2 == 6) then Counter(true)
      else if a.crn != 15 then NotOurs
      else Cell(Apple(a.Enc()), None)
    else if a.op0 == 3 && a.op1 == 4 then
      match El2Word(a.Enc())
      case None => NotOurs
      case Some(w) => Cell(Word(w.0), if w.1 then Some(D_SYSREGS) else None)
    else NotOurs
  }

  /** The page words the dispatcher's registers live in: none of them a
      general register, the PC, a control, a timer's or the dirty mask. */
  predicate RegisterWord(i: nat) {
    || i == CSSELR || GXF_CONFIG <= i <= GXF_CONFIG + 2
    || (119 <= i <= 136 && i != CNTV_CVAL && i != CNTP_CVAL) || 512 <= i < 1024
  }

  ghost predicate Sound(r: Reg) {
    r.Cell? ==> && r.place.Valid() && (r.mark.Some? ==> r.mark.value < 64 && r.mark.value != D_CONTROLS)
                && r.place != ShadowCtl && (r.place.Word? ==> RegisterWord(r.place.i))
  }

  lemma {:induction false} El2Valid(enc: nat)
    ensures El2Word(enc).Some? ==> RegisterWord(El2Word(enc).value.0)
  {
  }

  lemma {:induction false} OtherValid(a: Op)
    ensures Sound(PickOther(a))
  {
    El2Valid(a.Enc());
  }

  lemma {:induction false} PickValid(a: Op)
    ensures Sound(Pick(a))
  {
    OtherValid(a);
  }

  // -------------------------------------------------------------- the answers

  /** What an answer depends on outside the vCPU: the host's counter and its
      frequency, guest memory, and the capabilities' cache descriptions. */
  datatype Env = Env(now: u64, freq: u64, memory: Stage1.Memory, clidr: u64, instr: Bank8, data: Bank8)

  /** Whether the access was answered, the vCPU after it but for the register
      operand and the PC, and the value a read returns. */
  datatype Served = Served(claimed: bool, slot: Slot, value: u64)

  function MarkIf(s: Slot, mark: Option<nat>): Slot
    requires mark.Some? ==> mark.value < 64
  {
    if mark.Some? then Mark(s, mark.value) else s
  }

  function RegimeOf(s: Slot): Stage1.Regime {
    Stage1.Regime(s.page[TTBR0], s.page[TTBR1], s.page[TCR], s.page[SCTLR])
  }

  function ServeCell(s: Slot, a: Op, p: Place, mark: Option<nat>): Served
    requires a.Valid() && p.Valid() && (mark.Some? ==> mark.value < 64)
  {
    match Use(s, p, if a.read then None else Some(Operand(s, a.rt)))
    case None => Served(false, s, 0)
    case Some(s') => if a.read then Served(true, s', Get(s, p)) else Served(true, MarkIf(s', mark), 0)
  }

  /** The physical timer's banked word is what the hardware would load; it is
      kept disabled. */
  function Disarm(s: Slot, physical: bool): Slot {
    if physical then Put(s, CNTP_CTL, 0) else s
  }

  function CvalWord(physical: bool): nat {
    if physical then CNTP_CVAL else CNTV_CVAL
  }

  function CtlPlace(physical: bool): Place {
    if physical then ShadowCtl else Word(CNTV_CTL)
  }

  function ServeTimer(s: Slot, a: Op, r: Reg, now: u64): Served
    requires a.Valid() && (r.TimerValue? || r.CompareValue? || r.TimerControl? || r.NoTimer?)
  {
    var s1 := Disarm(s, r.physical);
    var cval := CvalWord(r.physical);
    var v := Operand(s, a.rt);
    match r
    case TimerValue(_) =>
      if a.read then Served(true, s1, TvalRead(s.page[cval], now))
      else Served(true, Mark(Put(s1, cval, TvalWritten(v, now)), D_SYSREGS), 0)
    case TimerControl(_) =>
      if a.read then Served(true, s1, Get(s, CtlPlace(r.physical)))
      else Served(true, Mark(Store(s1, CtlPlace(r.physical), v), D_SYSREGS), 0)
    case CompareValue(_) =>
      if a.read then Served(true, s1, CvalRead(s.page[cval], s.page[OFFSET]))
      else Served(true, Mark(Put(s1, cval, CvalWritten(v, s.page[OFFSET])), D_SYSREGS), 0)
    case NoTimer(_) => Served(false, s1, 0)
  }

  function Serve(s: Slot, a: Op, e: Env): Served
    requires a.Valid()
  {
    PickValid(a);
    match Pick(a)
    case AmxVersion => Served(true, s, 1)
    case Handoff => Served(true, Mark(Put(s, HCR, With(s.page[HCR], NV)), D_CONTROLS).(atEl2 := true), 0)
    case Cell(p, mark) => ServeCell(s, a, p, mark)
    case CacheLevels => Served(a.read, s, e.clidr)
    case CacheSize =>
      var level := s.page[CSSELR] / 2 % 8;
      Served(a.read, s, if s.page[CSSELR] % 2 == 1 then e.instr[level] else e.data[level])
    case Counter(_) => Served(true, s, GuestCount(e.now, s.page[OFFSET]))
    case Frequency => Served(true, s, e.freq)
    case TranslateAddress =>
      Stage1.TranslateFits(RegimeOf(s), e.memory, Operand(s, a.rt));
      Served(true, Mark(Put(s, PAR, Stage1.Translate(RegimeOf(s), e.memory, Operand(s, a.rt))), D_SYSREGS), 0)
    case Maintenance => Served(true, s, 0)
    case NotOurs => Served(false, s, 0)
    case _ => ServeTimer(s, a, Pick(a), e.now)
  }

  /** Registers whose trap a read answers into Rt: all but the address
      translation and maintenance instructions. */
  predicate Answers(a: Op) {
    a.read && !Pick(a).TranslateAddress? && !Pick(a).Maintenance?
  }

  /** The operand of a read, then the step over the instruction. */
  function Finish(s: Slot, a: Op, v: u64): Slot
    requires a.Valid()
  {
    var s1 := if Answers(a) && a.rt != 31 then Put(s, X(a.rt), v) else s;
    Put(s1, PC, Add(s1.page[PC], 4))
  }

  /** service_nv2_access. */
  function Service(s: Slot, a: Op, e: Env): (bool, Slot)
    requires a.Valid()
  {
    var r := Serve(s, a, e);
    (r.claimed, if r.claimed then Finish(r.slot, a, r.value) else r.slot)
  }
}
