/** Whole runs: any history of VMM calls and guest entries and exits of one
  vCPU (src/ohv_vcpu.cpp:2137-2342, 2411-2878, 3281-3293, 3421-3517, 3551-3606,
  src/ohv_gic.cpp:112-146, 205-214, 260-358, 392-519).

  The kernel is modelled by what it does with the controls: at a run it loads
  HCR_EL2 from the page only if the CONTROLS mark is up, and it takes the mark
  down.  The guest may leave anything in the rest of the page.
*/
module Machine {
  import opened Words
  import opened Slot
  import opened Gate
  import opened Emulator
  import opened EmulatorLaws
  import opened Exits
  import opened ExitLaws
  import AssocList
  import Calls
  import Sysregs

  // ----------------------------------------------------------------- control

  /** The word a control field names; fields 4 and 10 and those from 18 up name
      none. */
  function ControlWord(field: nat): (w: Option<nat>)
    ensures w.Some? ==> HCR <= w.value < DIRTY && w.value != OFFSET && w.value != TIMER
    ensures w == Some(HCR) <==> field == 0
  {
    match field
    case 0 => Some(HCR)
    case 1 => Some(HCR + 2)
    case 2 => Some(HCR + 3)
    case 3 => Some(HCR + 4)
    case 5 => Some(HCR + 5)
    case 6 => Some(HACR)
    case 7 => Some(HCR + 14)
    case 8 => Some(HCR + 15)
    case 9 => Some(HCR + 16)
    case 11 => Some(HCR + 7)
    case 12 => Some(HCR + 8)
    case 13 => Some(HCR + 9)
    case 14 => Some(HCR + 10)
    case 15 => Some(HCR + 11)
    case 16 => Some(HCR + 12)
    case 17 => Some(HCR + 26)
    case _ => None
  }

  const APSTS_FIELD: nat := 9

  /** Two fields never name one word. */
  lemma {:induction false} FieldsApart(a: nat, b: nat)
    requires ControlWord(a).Some? && ControlWord(a) == ControlWord(b)
    ensures a == b
  {
  }

  /** The field of each word of the controls block, in the block's order; the
      offset, the timer word, ICH_HCR_EL2 and the list registers have none. */
  function FieldOf(w: nat): Option<nat> {
    match w
    case 292 => Some(0)   // HCR_EL2, 0x920
    case 293 => Some(6)   // HACR_EL2
    case 294 => Some(1)   // CPTR_EL2
    case 295 => Some(2)   // MDCR_EL2
    case 296 => Some(3)   // VMPIDR_EL2
    case 297 => Some(5)   // VPIDR_EL2
    case 299 => Some(11)  // HFGRTR_EL2
    case 300 => Some(12)  // HFGWTR_EL2
    case 301 => Some(13)  // HFGITR_EL2
    case 302 => Some(14)  // HDFGRTR_EL2
    case 303 => Some(15)  // HDFGWTR_EL2
    case 304 => Some(16)  // CNTHCTL_EL2
    case 306 => Some(7)   // VMKEYHI_EL2
    case 307 => Some(8)   // VMKEYLO_EL2
    case 308 => Some(9)   // APSTS_EL1
    case 318 => Some(17)  // HCRX_EL2
    case _ => None
  }

  /** Each field is the word of its register, and each such word is a field;
      4, 10 and those from 18 up name nothing. */
  lemma {:induction false} FieldsPlaced(field: nat, w: nat)
    ensures ControlWord(field) == Some(w) <==> FieldOf(w) == Some(field)
    ensures ControlWord(field).None? <==> field == 4 || field == 10 || field >= 18
  {
  }

  /** control_field_access, reading. */
  function GetControl(s: Slot, field: nat): (Sysregs.Status, u64) {
    match ControlWord(field)
    case None => (Sysregs.BadArgument, 0)
    case Some(w) => (Sysregs.Success, s.page[w])
  }

  /** A field reads back what was last written to it, but for the guarded level,
      which no write moves; and a write of one field moves no other. */
  lemma {:induction false} ControlReadsBack(s: Slot, field: nat, v: u64, other: nat)
    ensures var (status, s') := SetControl(s, field, v);
            && (status == Sysregs.Success <==> field < 18 && field != 4 && field != 10)
            && (status != Sysregs.Success ==> s' == s)
            && GetControl(s', other) ==
                 if other == field && field != 9 && status == Sysregs.Success then (Sysregs.Success, v)
                 else GetControl(s, other)
  {
    FieldsPlaced(field, 0);
    if ControlWord(field).Some? && ControlWord(other) == ControlWord(field) {
      FieldsApart(field, other);
    }
  }

  /** control_field_access, writing: the guarded level is not the VMM's to
      raise, and that write is dropped. */
  function SetControl(s: Slot, field: nat, v: u64): (Sysregs.Status, Slot) {
    match ControlWord(field)
    case None => (Sysregs.BadArgument, s)
    case Some(w) => (Sysregs.Success, if field == APSTS_FIELD then s else Mark(Put(s, w, v), D_CONTROLS))
  }

  // ------------------------------------------------------------------ events

  /** What the guest leaves behind: everything but the controls. */
  datatype Guest = Guest(page: Page, cpsr: u32, fpcr: u32, fpsr: u32)

  datatype Event =
    | Pending(fiq: bool, level: bool)
    | Park(parked: bool)
    | Control(field: nat, value: u64)
    | TimerMask(masked: bool)
    | TimerOffset(offset: u64)
    | Reg(n: nat, value: u64)
    | SysReg(enc: nat, value: u64)
    | ReadSysReg(enc: nat)
    | Other(call: Calls.Call)
    | Turn(now: u64, shared: u64, guest: Guest, exit: Exit, env: Env)
    | Cut(now: u64, shared: u64, ran: Option<Guest>)

  /** The VMM's own calls, between two runs.  The others are turns of the run
      loop: whole ones, and those that return to the VMM before the exit is
      classified, because the trap failed (the guest did not run) or because a
      cancel was latched. */
  predicate IsCall(e: Event) {
    !e.Turn? && !e.Cut?
  }

  /** A vCPU, with HCR_EL2 and the timer word as the hardware has them. */
  datatype Machine = Machine(slot: Slot, hw: u64, hwTimer: u64)

  /** The guest runs at EL0 or EL1 as far as the hardware is concerned. */
  predicate Plausible(e: Event) {
    (e.Turn? ==> !NamesEl2(e.guest.cpsr)) && (e.Cut? && e.ran.Some? ==> !NamesEl2(e.ran.value.cpsr))
  }

  predicate IsControlWord(i: nat) {
    HCR <= i < DIRTY
  }

  function Merge(before: Page, after: Page): Page {
    seq(2048, i requires 0 <= i < 2048 =>
      if IsControlWord(i) then before[i] else if i == DIRTY then 0 else after[i])
  }

  /** The run trap: the controls go in if marked, the guest runs, the kernel
      comes back with the mark down. */
  function RunTrap(m: Machine, g: Guest): Machine {
    var s := m.slot;
    Machine(s.(page := Merge(s.page, g.page), cpsr := g.cpsr, fpcr := g.fpcr, fpsr := g.fpsr),
            HardwareHcr(m), HardwareTimer(m))
  }

  /** The HCR_EL2 the hardware runs the guest under if it is entered now. */
  function HardwareHcr(m: Machine): u64 {
    if Bit(m.slot.page[DIRTY], D_CONTROLS) then m.slot.page[HCR] else m.hw
  }

  function HardwareTimer(m: Machine): u64 {
    if Bit(m.slot.page[DIRTY], D_CONTROLS) then m.slot.page[TIMER] else m.hwTimer
  }

  /** The vCPU as it is about to be entered. */
  function AtEntry(m: Machine, now: u64, shared: u64, asIrq: u64): Machine {
    m.(slot := ExpireTimers(m.slot, now, shared, asIrq))
  }

  /** One call of the VMM. */
  function Call(s: Slot, e: Event, asIrq: u64, host: Bank20): Slot
    requires IsCall(e)
  {
    match e
    case Pending(fiq, level) => SetPending(s, fiq, level, asIrq)
    case Park(parked) => SetParked(s, parked, asIrq)
    case Control(field, v) => SetControl(s, field, v).1
    case TimerMask(masked) => Mark(Put(s, TIMER, WriteBit(s.page[TIMER], 0, masked)), D_CONTROLS)
    case TimerOffset(v) => Mark(Put(s, OFFSET, v), D_CONTROLS)
    case Reg(n, v) => Sysregs.SetReg(s, n, v, true).1
    case SysReg(enc, v) => Sysregs.SetSysReg(s, enc, v, host).1
    case ReadSysReg(enc) => Sysregs.GetSysReg(s, enc, host).2
    case Other(c) => Calls.Apply(s, c)
  }

  /** One event.  `asIrq` names the vCPUs whose timer is an IRQ, `host` the
      host's ID registers. */
  function Step(m: Machine, e: Event, asIrq: u64, host: Bank20): Machine {
    match e
    case Turn(now, shared, guest, exit, env) =>
      var m1 := RunTrap(AtEntry(m, now, shared, asIrq), guest);
      m1.(slot := Handle(m1.slot, exit, env).0)
    case Cut(now, shared, ran) =>
      var m1 := AtEntry(m, now, shared, asIrq);
      if ran.Some? then RunTrap(m1, ran.value) else m1
    case _ => m.(slot := Call(m.slot, e, asIrq, host))
  }

  function Run(m: Machine, es: seq<Event>, asIrq: u64, host: Bank20): Machine {
    if es == [] then m else Step(Run(m, es[..|es| - 1], asIrq, host), es[|es| - 1], asIrq, host)
  }

  // -------------------------------------------------------- the history's say

  function LevelAfter(e: Event, fiq: bool, before: bool): bool {
    if e.Pending? && e.fiq == fiq then e.level else before
  }

  function ParkedAfter(e: Event, before: bool): bool {
    if e.Park? then e.parked else before
  }

  function HcrAfter(e: Event, before: u64): u64 {
    if e.Control? && e.field == 0 then e.value else before
  }

  /** The level the VMM last asked for on a line. */
  function LastLevel(es: seq<Event>, fiq: bool, first: bool): bool {
    if es == [] then first else LevelAfter(es[|es| - 1], fiq, LastLevel(es[..|es| - 1], fiq, first))
  }

  function LastParked(es: seq<Event>, first: bool): bool {
    if es == [] then first else ParkedAfter(es[|es| - 1], LastParked(es[..|es| - 1], first))
  }

  /** The value last written to HCR_EL2's control field. */
  function LastHcr(es: seq<Event>, first: u64): u64 {
    if es == [] then first else HcrAfter(es[|es| - 1], LastHcr(es[..|es| - 1], first))
  }

  /** A write to HCR_EL2's field, if it is one, leaves NV up or finds the guest
      with no need of it. */
  predicate Harmless(s: Slot, e: Event) {
    e.Control? && e.field == 0 && s.atEl2 && !s.nvOff ==> Bit(e.value, NV)
  }

  predicate AllHarmless(m: Machine, es: seq<Event>, asIrq: u64, host: Bank20) {
    es == []
    || (AllHarmless(m, es[..|es| - 1], asIrq, host) && Harmless(Run(m, es[..|es| - 1], asIrq, host).slot, es[|es| - 1]))
  }

  predicate AllPlausible(es: seq<Event>) {
    es == [] || (AllPlausible(es[..|es| - 1]) && Plausible(es[|es| - 1]))
  }

  /** hv_vcpu_set_vtimer_mask and _offset: the mask is bit 0 of the timer word,
      whose other bits stay, and the offset is all of its own. */
  lemma {:induction false} TimerCallsHold(s: Slot, masked: bool, offset: u64, asIrq: u64, host: Bank20, k: nat)
    ensures Bit(Call(s, TimerMask(masked), asIrq, host).page[TIMER], k) <==> if k == 0 then masked else Bit(s.page[TIMER], k)
    ensures Call(s, TimerOffset(offset), asIrq, host).page[OFFSET] == offset
    ensures forall w :: 0 <= w < 2048 && w != TIMER && w != DIRTY ==>
              Call(s, TimerMask(masked), asIrq, host).page[w] == s.page[w]
    ensures forall w :: 0 <= w < 2048 && w != OFFSET && w != DIRTY ==>
              Call(s, TimerOffset(offset), asIrq, host).page[w] == s.page[w]
  {
    WriteBitAt(s.page[TIMER], 0, masked, k);
  }

  // ------------------------------------------------------ what each event keeps

  /** Hardware HCR_EL2 is the page's, or the page's is marked to be loaded. */
  predicate Lazy(m: Machine) {
    m.hw == m.slot.page[HCR] || Bit(m.slot.page[DIRTY], D_CONTROLS)
  }

  /** A new HCR_EL2 is marked, and no mark is lost. */
  ghost predicate Marked(s: Slot, s': Slot) {
    s'.page[HCR] != s.page[HCR] || Bit(s.page[DIRTY], D_CONTROLS) ==> Bit(s'.page[DIRTY], D_CONTROLS)
  }

  /** What an event says about the lines, and what it keeps of HCR_EL2: a bit
      that no level and not NV owns changes only by a write to the field. */
  ghost predicate Follows(s: Slot, s': Slot, e: Event, k: nat) {
    && s'.lines.vmmFiq == LevelAfter(e, true, s.lines.vmmFiq)
    && s'.lines.vmmIrq == LevelAfter(e, false, s.lines.vmmIrq)
    && s'.lines.parked == ParkedAfter(e, s.lines.parked)
    && (Bit(s'.page[HCR], k) <==> Bit(HcrAfter(e, s.page[HCR]), k))
  }

  /** The virtual level stands as it did. */
  ghost predicate Level(s: Slot, s': Slot, e: Event) {
    && (Harmless(s, e) && NvInvariant(s) ==> NvInvariant(s'))
    && (!NamesEl2(s.cpsr) ==> !NamesEl2(s'.cpsr))
  }

  lemma {:induction false} VmmCalls(s: Slot, e: Event, asIrq: u64, host: Bank20, k: nat)
    requires IsCall(e) && k != VF && k != VI
    ensures var s' := Call(s, e, asIrq, host);
            Follows(s, s', e, k) && Marked(s, s') && Level(s, s', e)
  {
    match e
    case Pending(fiq, level) => PendingKeeps(s, fiq, level, asIrq, k);
    case Park(parked) => ParkKeeps(s, parked, asIrq, k);
    case _ => VmmWrites(s, e, asIrq, host, k);
  }

  /** The VMM's writes: only the field itself moves HCR_EL2. */
  lemma {:induction false} VmmWrites(s: Slot, e: Event, asIrq: u64, host: Bank20, k: nat)
    requires IsCall(e) && !e.Pending? && !e.Park?
    ensures var s' := Call(s, e, asIrq, host);
            Follows(s, s', e, k) && Marked(s, s') && Level(s, s', e)
  {
    match e
    case Control(field, v) => ControlKeeps(s, field, v);
    case TimerMask(masked) => WordKeeps(s, TIMER, WriteBit(s.page[TIMER], 0, masked));
    case TimerOffset(v) => WordKeeps(s, OFFSET, v);
    case Reg(n, v) => RegKeeps(s, n, v);
    case SysReg(enc, v) => SysRegKeeps(s, enc, v, host);
    case ReadSysReg(_) =>
    case Other(c) => Calls.ApplyElsewhere(s, c);
  }

  /** Neither the level nor PSTATE, and HCR_EL2 no more than said. */
  ghost predicate Aside(s: Slot, s': Slot, hcr: u64) {
    && s'.page[HCR] == hcr && Marked(s, s') && s'.lines == s.lines
    && s'.atEl2 == s.atEl2 && s'.nvOff == s.nvOff && (!NamesEl2(s.cpsr) ==> !NamesEl2(s'.cpsr))
  }

  lemma {:induction false} ControlKeeps(s: Slot, field: nat, v: u64)
    ensures Aside(s, SetControl(s, field, v).1, if field == 0 then v else s.page[HCR])
  {
    SetBitAt(s.page[DIRTY], D_CONTROLS, D_CONTROLS);
  }

  lemma {:induction false} WordKeeps(s: Slot, w: nat, v: u64)
    requires w == TIMER || w == OFFSET
    ensures Aside(s, Mark(Put(s, w, v), D_CONTROLS), s.page[HCR])
  {
    SetBitAt(s.page[DIRTY], D_CONTROLS, D_CONTROLS);
  }

  lemma {:induction false} RegKeeps(s: Slot, n: nat, v: u64)
    ensures Aside(s, Sysregs.SetReg(s, n, v, true).1, s.page[HCR])
  {
  }

  lemma {:induction false} SysRegKeeps(s: Slot, enc: nat, v: u64, host: Bank20)
    ensures Aside(s, Sysregs.SetSysReg(s, enc, v, host).1, s.page[HCR])
  {
    Sysregs.LookupPlaced(enc);
    var l := Sysregs.Lookup(enc);
    if l.Some? && l.value.Page? && l.value.mark.Some? {
      SetBitAt(s.page[DIRTY], l.value.mark.value, D_CONTROLS);
    }
  }

  /** The control block's timer word and the timers' own are not a level's to
      write. */
  predicate OnlyHcr(p: Page, p': Page) {
    p'[TIMER] == p[TIMER] && p'[CNTP_CTL] == p[CNTP_CTL]
  }

  lemma {:induction false} FiqKeeps(s: Slot, asIrq: u64, k: nat)
    requires k != VF
    ensures var s' := SetFiqLevel(s, asIrq);
            && (Bit(s'.page[HCR], k) <==> Bit(s.page[HCR], k)) && Marked(s, s')
            && s' == s.(page := s'.page, lines := s.lines.(timerFiq := s'.lines.timerFiq))
            && OnlyHcr(s.page, s'.page)
  {
    FiqIsLevel(s, asIrq);
    WriteBitAt(s.page[HCR], VF, ViewOf(s, asIrq).FiqLevel(), k);
    SetBitAt(s.page[DIRTY], D_CONTROLS, D_CONTROLS);
  }

  lemma {:induction false} IrqKeeps(s: Slot, asIrq: u64, k: nat)
    requires k != VI
    ensures var s' := SetIrqLevel(s, asIrq);
            && (Bit(s'.page[HCR], k) <==> Bit(s.page[HCR], k)) && Marked(s, s')
            && s' == s.(page := s'.page) && OnlyHcr(s.page, s'.page)
  {
    IrqIsLevel(s, asIrq);
    WriteBitAt(s.page[HCR], VI, ViewOf(s, asIrq).IrqLevel(), k);
    SetBitAt(s.page[DIRTY], D_CONTROLS, D_CONTROLS);
  }

  lemma {:induction false} PendingKeeps(s: Slot, fiq: bool, level: bool, asIrq: u64, k: nat)
    requires k != VF && k != VI
    ensures var s' := SetPending(s, fiq, level, asIrq);
            && (Bit(s'.page[HCR], k) <==> Bit(s.page[HCR], k)) && (Bit(s'.page[HCR], NV) <==> Bit(s.page[HCR], NV))
            && Marked(s, s') && s' == s.(page := s'.page, lines := s'.lines) && OnlyHcr(s.page, s'.page)
            && s'.lines.vmmFiq == (if fiq then level else s.lines.vmmFiq)
            && s'.lines.vmmIrq == (if fiq then s.lines.vmmIrq else level)
            && s'.lines.parked == s.lines.parked
  {
    if fiq {
      FiqKeeps(s.(lines := s.lines.(vmmFiq := level)), asIrq, k);
      FiqKeeps(s.(lines := s.lines.(vmmFiq := level)), asIrq, NV);
    } else {
      IrqKeeps(s.(lines := s.lines.(vmmIrq := level)), asIrq, k);
      IrqKeeps(s.(lines := s.lines.(vmmIrq := level)), asIrq, NV);
    }
  }

  lemma {:induction false} ParkKeeps(s: Slot, parked: bool, asIrq: u64, k: nat)
    requires k != VF && k != VI
    ensures var s' := SetParked(s, parked, asIrq);
            && (Bit(s'.page[HCR], k) <==> Bit(s.page[HCR], k)) && (Bit(s'.page[HCR], NV) <==> Bit(s.page[HCR], NV))
            && Marked(s, s') && s' == s.(page := s'.page, lines := s'.lines) && OnlyHcr(s.page, s'.page)
            && s'.lines.vmmFiq == s.lines.vmmFiq && s'.lines.vmmIrq == s.lines.vmmIrq
            && s'.lines.parked == parked
  {
    var s1 := s.(lines := s.lines.(parked := parked));
    FiqKeeps(s1, asIrq, k);
    FiqKeeps(s1, asIrq, NV);
    IrqKeeps(SetFiqLevel(s1, asIrq), asIrq, k);
    IrqKeeps(SetFiqLevel(s1, asIrq), asIrq, NV);
  }

  // ------------------------------------------------------------------- a turn

  lemma {:induction false} EntryKeeps(s: Slot, now: u64, shared: u64, asIrq: u64, k: nat)
    requires k != VF && k != VI
    ensures var s' := ExpireTimers(s, now, shared, asIrq);
            && (Bit(s'.page[HCR], k) <==> Bit(s.page[HCR], k)) && (Bit(s'.page[HCR], NV) <==> Bit(s.page[HCR], NV))
            && Marked(s, s') && s'.atEl2 == s.atEl2 && s'.nvOff == s.nvOff && s'.cpsr == s.cpsr && s'.id == s.id
            && s'.lines.vmmFiq == s.lines.vmmFiq && s'.lines.vmmIrq == s.lines.vmmIrq
            && s'.lines.parked == s.lines.parked
  {
    EntryLevels(s, now, shared, asIrq, k);
    EntryLevels(s, now, shared, asIrq, NV);
    EntryFrame(s, now, shared, asIrq);
    assert ViewOf(ExpireTimers(s, now, shared, asIrq), asIrq) == ViewAt(s, now, shared, asIrq);
  }

  /** The trap hands the hardware the page's HCR_EL2, marked or not. */
  lemma {:induction false} TrapLoads(m: Machine, g: Guest)
    requires Lazy(m)
    ensures var m' := RunTrap(m, g);
            && m'.hw == m.slot.page[HCR] == m'.slot.page[HCR] && m'.slot.page[DIRTY] == 0
            && m'.slot.lines == m.slot.lines && m'.slot.atEl2 == m.slot.atEl2 && m'.slot.nvOff == m.slot.nvOff
            && m'.slot.cpsr == g.cpsr
  {
  }

  /** The lines, the level and bit `k` are as they were. */
  ghost predicate Passes(s: Slot, s': Slot, k: nat) {
    && s'.lines.vmmFiq == s.lines.vmmFiq && s'.lines.vmmIrq == s.lines.vmmIrq && s'.lines.parked == s.lines.parked
    && (Bit(s'.page[HCR], k) <==> Bit(s.page[HCR], k)) && (Bit(s'.page[HCR], NV) <==> Bit(s.page[HCR], NV))
    && s'.atEl2 == s.atEl2 && s'.nvOff == s.nvOff
  }

  lemma {:induction false} EntryPasses(m: Machine, now: u64, shared: u64, asIrq: u64, k: nat)
    requires Lazy(m) && k != VF && k != VI
    ensures var m' := AtEntry(m, now, shared, asIrq);
            Passes(m.slot, m'.slot, k) && Lazy(m') && m'.slot.cpsr == m.slot.cpsr
  {
    EntryKeeps(m.slot, now, shared, asIrq, k);
  }

  lemma {:induction false} TrapPasses(m: Machine, now: u64, shared: u64, asIrq: u64, g: Guest, k: nat)
    requires Lazy(m) && k != VF && k != VI
    ensures var m' := RunTrap(AtEntry(m, now, shared, asIrq), g);
            Passes(m.slot, m'.slot, k) && m'.hw == m'.slot.page[HCR] && m'.slot.cpsr == g.cpsr
  {
    EntryPasses(m, now, shared, asIrq, k);
    TrapLoads(AtEntry(m, now, shared, asIrq), g);
  }

  lemma {:induction false} TurnKeeps(m: Machine, e: Event, asIrq: u64, host: Bank20, k: nat)
    requires e.Turn? && Plausible(e) && Lazy(m) && k != VF && k != VI && k != NV
    ensures var m' := Step(m, e, asIrq, host);
            Follows(m.slot, m'.slot, e, k) && Lazy(m') && Level(m.slot, m'.slot, e) && !NamesEl2(m'.slot.cpsr)
  {
    TrapPasses(m, e.now, e.shared, asIrq, e.guest, k);
    HandleKeeps(RunTrap(AtEntry(m, e.now, e.shared, asIrq), e.guest).slot, e.exit, e.env, k);
  }

  lemma {:induction false} CutKeeps(m: Machine, e: Event, asIrq: u64, host: Bank20, k: nat)
    requires e.Cut? && Plausible(e) && Lazy(m) && k != VF && k != VI
    ensures var m' := Step(m, e, asIrq, host);
            Follows(m.slot, m'.slot, e, k) && Lazy(m') && Level(m.slot, m'.slot, e)
  {
    if e.ran.Some? {
      TrapPasses(m, e.now, e.shared, asIrq, e.ran.value, k);
    } else {
      EntryPasses(m, e.now, e.shared, asIrq, k);
    }
  }

  lemma {:induction false} StepKeeps(m: Machine, e: Event, asIrq: u64, host: Bank20, k: nat)
    requires Plausible(e) && Lazy(m) && k != VF && k != VI && k != NV
    ensures var m' := Step(m, e, asIrq, host);
            Follows(m.slot, m'.slot, e, k) && Lazy(m') && Level(m.slot, m'.slot, e)
  {
    if e.Turn? {
      TurnKeeps(m, e, asIrq, host, k);
    } else if e.Cut? {
      CutKeeps(m, e, asIrq, host, k);
    } else {
      VmmCalls(m.slot, e, asIrq, host, k);
    }
  }

  // -------------------------------------------------------------- whole runs

  /** Over any run: the lines are what the VMM last said, HCR_EL2 reaches the
      hardware, its other bits are the ones last written, the virtual-EL2
      invariant stands as long as the VMM's writes to that field are harmless,
      and PSTATE never names EL2. */
  lemma {:induction false} RunKeeps(m: Machine, es: seq<Event>, asIrq: u64, host: Bank20, k: nat)
    requires AllPlausible(es) && Lazy(m) && k != VF && k != VI && k != NV
    ensures var m' := Run(m, es, asIrq, host);
            && m'.slot.lines.vmmFiq == LastLevel(es, true, m.slot.lines.vmmFiq)
            && m'.slot.lines.vmmIrq == LastLevel(es, false, m.slot.lines.vmmIrq)
            && m'.slot.lines.parked == LastParked(es, m.slot.lines.parked)
            && (Bit(m'.slot.page[HCR], k) <==> Bit(LastHcr(es, m.slot.page[HCR]), k))
            && Lazy(m')
            && (AllHarmless(m, es, asIrq, host) && NvInvariant(m.slot) ==> NvInvariant(m'.slot))
            && (!NamesEl2(m.slot.cpsr) ==> !NamesEl2(m'.slot.cpsr))
  {
    if es != [] {
      var n := |es| - 1;
      RunKeeps(m, es[..n], asIrq, host, k);
      StepKeeps(Run(m, es[..n], asIrq, host), es[n], asIrq, host, k);
    }
  }

  lemma {:induction false} EntryStores(s: Slot, now: u64, shared: u64, asIrq: u64)
    ensures ExpireTimers(s, now, shared, asIrq).stores == s.stores
  {
    EntryFrame(s, now, shared, asIrq);
  }

  lemma {:induction false} CallStores(s: Slot, e: Event, asIrq: u64, host: Bank20)
    requires IsCall(e)
    ensures Call(s, e, asIrq, host).stores == s.stores
  {
    match e
    case Pending(fiq, level) => PendingKeeps(s, fiq, level, asIrq, 0);
    case Park(parked) => ParkKeeps(s, parked, asIrq, 0);
    case SysReg(enc, v) => Sysregs.SetLeaves(s, enc, v, host);
    case Other(c) => Calls.ApplyElsewhere(s, c);
    case _ =>
  }

  /** The three register lists stay maps over any run, so what is proved of
      runs of accesses holds wherever in a run they start. */
  lemma {:induction false} ListsAlwaysOk(m: Machine, es: seq<Event>, asIrq: u64, host: Bank20)
    requires ListsOk(m.slot)
    ensures ListsOk(Run(m, es, asIrq, host).slot)
  {
    if es != [] {
      var n := |es| - 1;
      ListsAlwaysOk(m, es[..n], asIrq, host);
      StepLists(Run(m, es[..n], asIrq, host), es[n], asIrq, host);
    }
  }

  lemma {:induction false} StepLists(m: Machine, e: Event, asIrq: u64, host: Bank20)
    requires ListsOk(m.slot)
    ensures ListsOk(Step(m, e, asIrq, host).slot)
  {
    if e.Turn? {
      EntryStores(m.slot, e.now, e.shared, asIrq);
      var s := RunTrap(AtEntry(m, e.now, e.shared, asIrq), e.guest).slot;
      SameLists(m.slot, s);
      HandleKeepsLists(s, e.exit, e.env);
    } else {
      QuietStores(m, e, asIrq, host);
      SameLists(m.slot, Step(m, e, asIrq, host).slot);
    }
  }

  /** Nothing but an exit changes the registers the library keeps. */
  lemma {:induction false} QuietStores(m: Machine, e: Event, asIrq: u64, host: Bank20)
    requires !e.Turn?
    ensures Step(m, e, asIrq, host).slot.stores == m.slot.stores
  {
    if e.Cut? {
      EntryStores(m.slot, e.now, e.shared, asIrq);
    } else {
      CallStores(m.slot, e, asIrq, host);
    }
  }

  /** What the history, the registers and the clock say an entry should see. */
  function Expected(m: Machine, es: seq<Event>, now: u64, shared: u64, asIrq: u64, host: Bank20): View {
    var s := Run(m, es, asIrq, host).slot;
    View(LastLevel(es, true, m.slot.lines.vmmFiq), LastLevel(es, false, m.slot.lines.vmmIrq), TimersDue(s, now),
         NotedBase(s.lines.base, shared, s.page[PC]), LastParked(es, m.slot.lines.parked), s.page[PC], s.cpsr,
         TimerAsIrq(asIrq, s.id))
  }

  /** At every guest entry of every run the hardware's VF and VI are the levels
      the history calls for -- deferred, never lost, whatever the VMM wrote
      over HCR_EL2 meanwhile -- and every other bit but NV is as last written. */
  lemma {:induction false} HardwareFollowsHistory(m: Machine, es: seq<Event>, now: u64, shared: u64, asIrq: u64,
                                                  host: Bank20, k: nat)
    requires AllPlausible(es) && Lazy(m) && k != NV
    ensures var hw := HardwareHcr(AtEntry(Run(m, es, asIrq, host), now, shared, asIrq));
            var v := Expected(m, es, now, shared, asIrq, host);
            Bit(hw, k) <==> if k == VF then v.FiqLevel() else if k == VI then v.IrqLevel()
                            else Bit(LastHcr(es, m.slot.page[HCR]), k)
  {
    RunKeeps(m, es, asIrq, host, if k == VF || k == VI then 0 else k);
    var m1 := Run(m, es, asIrq, host);
    EntryLevels(m1.slot, now, shared, asIrq, k);
    EntryKeeps(m1.slot, now, shared, asIrq, 0);
  }

  /** Gate safety over whole runs: with the monitor known, the hardware enters
      the guest with a level up only if the VMM last said it was parked, or the
      guest is outside the monitor's window with that interrupt unmasked. */
  lemma {:induction false} GateSafeAlways(m: Machine, es: seq<Event>, now: u64, shared: u64, asIrq: u64, host: Bank20)
    requires AllPlausible(es) && Lazy(m)
    ensures var m1 := AtEntry(Run(m, es, asIrq, host), now, shared, asIrq);
            var hw := HardwareHcr(m1);
            var free := !InMonitor(m1.slot.lines.base, m1.slot.page[PC]);
            m1.slot.lines.base != 0 && !LastParked(es, m.slot.lines.parked) ==>
              && (Bit(hw, VF) ==> free && !Bit(m1.slot.cpsr, PSTATE_F))
              && (Bit(hw, VI) ==> free && !Bit(m1.slot.cpsr, PSTATE_I))
  {
    RunKeeps(m, es, asIrq, host, 0);
    var m1 := Run(m, es, asIrq, host);
    EntryKeeps(m1.slot, now, shared, asIrq, 0);
    GateSafety(m1.slot, now, shared, asIrq);
  }

  /** At every entry of every run in which the VMM's writes to HCR_EL2's field
      are harmless, a guest at its own EL2 runs with NV up in the hardware,
      unless a guarded return was left to it; and at no entry does PSTATE name
      EL2. */
  lemma {:induction false} VirtualEl2Holds(m: Machine, es: seq<Event>, now: u64, shared: u64, asIrq: u64, host: Bank20)
    requires AllPlausible(es) && Lazy(m) && NvInvariant(m.slot) && !NamesEl2(m.slot.cpsr)
    requires AllHarmless(m, es, asIrq, host)
    ensures var m1 := AtEntry(Run(m, es, asIrq, host), now, shared, asIrq);
            && (m1.slot.atEl2 && !m1.slot.nvOff ==> Bit(HardwareHcr(m1), NV))
            && !NamesEl2(m1.slot.cpsr)
  {
    RunKeeps(m, es, asIrq, host, 0);
    EntryKeeps(Run(m, es, asIrq, host).slot, now, shared, asIrq, 0);
  }

  /** A write to the field keeps the invariant exactly if it is harmless. */
  lemma {:induction false} HcrWriteExactly(s: Slot, v: u64)
    ensures NvInvariant(SetControl(s, 0, v).1) <==> Harmless(s, Control(0, v))
  {
  }

  /** The invariant at every point of a run. */
  ghost predicate NvThroughout(m: Machine, es: seq<Event>, asIrq: u64, host: Bank20) {
    NvInvariant(Run(m, es, asIrq, host).slot) && (es == [] || NvThroughout(m, es[..|es| - 1], asIrq, host))
  }

  /** It stands at every point of a run exactly if every write of the VMM to
      HCR_EL2's field is harmless where it lands. */
  lemma {:induction false} NvExactly(m: Machine, es: seq<Event>, asIrq: u64, host: Bank20)
    requires AllPlausible(es) && Lazy(m) && NvInvariant(m.slot)
    ensures NvThroughout(m, es, asIrq, host) <==> AllHarmless(m, es, asIrq, host)
  {
    if es != [] {
      var n := |es| - 1;
      NvExactly(m, es[..n], asIrq, host);
      RunKeeps(m, es[..n], asIrq, host, 0);
      HarmlessExactly(Run(m, es[..n], asIrq, host), es[n], asIrq, host);
    }
  }

  /** One event, where the invariant stood before it. */
  lemma {:induction false} HarmlessExactly(m: Machine, e: Event, asIrq: u64, host: Bank20)
    requires Plausible(e) && Lazy(m)
    ensures NvInvariant(m.slot) ==> (NvInvariant(Step(m, e, asIrq, host).slot) <==> Harmless(m.slot, e))
  {
    if e.Control? && e.field == 0 {
      HcrWriteExactly(m.slot, e.value);
    } else {
      StepKeeps(m, e, asIrq, host, 0);
    }
  }

  /** A write of zero while the guest is at its own EL2 breaks it. */
  lemma {:induction false} HcrWriteBreaksNv(s: Slot)
    requires s.atEl2 && !s.nvOff
    ensures !NvInvariant(SetControl(s, 0, 0).1)
  {
    HcrWriteExactly(s, 0);
    NoBits(NV);
  }

  /** Loading HCR_EL2 only when it is marked is loading it always: at every
      entry of every run the hardware has the page's word, all 64 bits of it. */
  lemma {:induction false} HardwareIsPage(m: Machine, es: seq<Event>, now: u64, shared: u64, asIrq: u64, host: Bank20)
    requires AllPlausible(es) && Lazy(m)
    ensures var m1 := AtEntry(Run(m, es, asIrq, host), now, shared, asIrq);
            HardwareHcr(m1) == m1.slot.page[HCR]
  {
    RunKeeps(m, es, asIrq, host, 0);
    EntryKeeps(Run(m, es, asIrq, host).slot, now, shared, asIrq, 0);
  }

  // --------------------------------------------------- the physical timer

  /** What the library does in one event, set apart from what the guest does:
      the calls, the preparation of an entry, the handling of an exit. */
  ghost predicate StoresNone(s: Slot, s': Slot) {
    s'.page[CNTP_CTL] == s.page[CNTP_CTL] || s'.page[CNTP_CTL] == 0
  }

  /** Nothing the library does stores a non-zero word where the hardware would
      load the physical timer's control from. */
  lemma {:induction false} NeverArmed(m: Machine, e: Event, asIrq: u64, host: Bank20)
    ensures IsCall(e) ==> StoresNone(m.slot, Call(m.slot, e, asIrq, host))
    ensures e.Turn? || e.Cut? ==> StoresNone(m.slot, AtEntry(m, e.now, e.shared, asIrq).slot)
    ensures e.Turn? ==>
              StoresNone(RunTrap(AtEntry(m, e.now, e.shared, asIrq), e.guest).slot, Step(m, e, asIrq, host).slot)
  {
    if IsCall(e) {
      CallNeverArms(m.slot, e, asIrq, host);
    } else {
      EntryNeverArms(m.slot, e.now, e.shared, asIrq);
      if e.Turn? {
        ExitNeverArms(RunTrap(AtEntry(m, e.now, e.shared, asIrq), e.guest).slot, e.exit, e.env);
      }
    }
  }

  lemma {:induction false} EntryNeverArms(s: Slot, now: u64, shared: u64, asIrq: u64)
    ensures StoresNone(s, ExpireTimers(s, now, shared, asIrq))
  {
    EntryFrame(s, now, shared, asIrq);
  }

  lemma {:induction false} ExitNeverArms(s: Slot, x: Exit, e: Env)
    ensures StoresNone(s, Handle(s, x, e).0)
  {
    HandleKeeps(s, x, e, 0);
  }

  lemma {:induction false} CallNeverArms(s: Slot, e: Event, asIrq: u64, host: Bank20)
    requires IsCall(e)
    ensures StoresNone(s, Call(s, e, asIrq, host))
  {
    match e
    case Pending(fiq, level) => PendingKeeps(s, fiq, level, asIrq, 0);
    case Park(parked) => ParkKeeps(s, parked, asIrq, 0);
    case SysReg(enc, v) => Sysregs.SetLeaves(s, enc, v, host);
    case Other(c) => Calls.ApplyElsewhere(s, c);
    case _ =>
  }

  // ---------------------------------------------------------------- creation

  const NV2: nat := 45
  const E2H: nat := 34

  /** The bits creation puts in HCR_EL2 on top of the kernel's: NV and NV2, the
      TID3, TSC and TWE traps, and the routing of physical exceptions. */
  const CREATED: seq<nat> := [NV, NV2, 18, 19, 5, 4, 3, 14]

  function WithAll(w: u64, bits: seq<nat>): u64
    requires forall i :: 0 <= i < |bits| ==> bits[i] < 64
  {
    if bits == [] then w else With(WithAll(w, bits[..|bits| - 1]), bits[|bits| - 1])
  }

  function WithoutAll(w: u64, bits: seq<nat>): u64
    requires forall i :: 0 <= i < |bits| ==> bits[i] < 64
  {
    if bits == [] then w else Without(WithoutAll(w, bits[..|bits| - 1]), bits[|bits| - 1])
  }

  const HFGRTR: nat := 299
  const HFGWTR: nat := 300
  const HFGITR: nat := 301
  const CNTHCTL: nat := 304

  /** The fine-grained traps creation adds: `0x2600`, `0x2000`, `0x3f000`. */
  const READ_TRAPS: seq<nat> := [9, 10, 13]
  const WRITE_TRAPS: seq<nat> := [13]
  const INSN_TRAPS: seq<nat> := [12, 13, 14, 15, 16, 17]

  /** The counter traps it clears, `0x1fc00`, and of those sets, `0x1e000`. */
  const COUNTER_OFF: seq<nat> := [10, 11, 12, 13, 14, 15, 16]
  const COUNTER_ON: seq<nat> := [13, 14, 15, 16]

  /** hv_vcpu_create for a VM with EL2, on the page the kernel hands out; `vhe`
      is whether the guest sees the host extensions, `gic` whether the machine
      has an interrupt controller. */
  function Create(s: Slot, vhe: bool, gic: bool): Slot {
    var hcr := WriteBit(WithAll(s.page[HCR], CREATED), E2H, vhe);
    var s1 := Put(Put(s, HCR, hcr), HACR, 0x0100_0000_0000_0000);
    var s2 := Put(Put(s1, HFGRTR, WithAll(s.page[HFGRTR], READ_TRAPS)), HFGWTR, WithAll(s.page[HFGWTR], WRITE_TRAPS));
    var s3 := Put(s2, HFGITR, WithAll(s.page[HFGITR], INSN_TRAPS));
    var s4 := Put(s3, CNTHCTL, WithAll(WithoutAll(s.page[CNTHCTL], COUNTER_OFF), COUNTER_ON));
    var s5 := Put(Mark(s4, D_CONTROLS), NESTED_HCR, 0x8000_0000).(atEl2 := true);
    if gic then Mark(Mark(Put(s5, Calls.ICH_HCR, With(s.page[Calls.ICH_HCR], 0)), D_GIC), D_CONTROLS) else s5
  }

  lemma {:induction false} WithAllBits(w: u64, bits: seq<nat>, k: nat)
    requires forall i :: 0 <= i < |bits| ==> bits[i] < 64
    ensures Bit(WithAll(w, bits), k) <==> k in bits || Bit(w, k)
  {
    if bits != [] {
      var n := |bits| - 1;
      WithAllBits(w, bits[..n], k);
      SetBitAt(WithAll(w, bits[..n]), bits[n], k);
      assert k in bits <==> k in bits[..n] || k == bits[n];
    }
  }

  lemma {:induction false} WithoutAllBits(w: u64, bits: seq<nat>, k: nat)
    requires forall i :: 0 <= i < |bits| ==> bits[i] < 64
    ensures Bit(WithoutAll(w, bits), k) <==> k !in bits && Bit(w, k)
  {
    if bits != [] {
      var n := |bits| - 1;
      WithoutAllBits(w, bits[..n], k);
      ClearBitAt(WithoutAll(w, bits[..n]), bits[n], k);
      assert k in bits <==> k in bits[..n] || k == bits[n];
    }
  }

  /** A new vCPU believes it is at EL2 with its traps armed and its HCR_EL2
      marked to be loaded, so every run starts where the theorems above do. */
  lemma {:induction false} CreationStarts(s: Slot, vhe: bool, gic: bool, hw: u64, hwTimer: u64, k: nat)
    ensures var s' := Create(s, vhe, gic);
            && NvInvariant(s') && s'.atEl2 && Lazy(Machine(s', hw, hwTimer))
            && (s.stores.apple == [] && s.stores.ctrr == [] && !s.stores.gicReady ==> ListsOk(s'))
            && (Bit(s'.page[HCR], k) <==> if k == E2H then vhe else k in CREATED || Bit(s.page[HCR], k))
            && (gic ==> Bit(s'.page[DIRTY], D_GIC))
  {
    var hcr := WithAll(s.page[HCR], CREATED);
    WithAllBits(s.page[HCR], CREATED, k);
    WithAllBits(s.page[HCR], CREATED, NV);
    WriteBitAt(hcr, E2H, vhe, k);
    WriteBitAt(hcr, E2H, vhe, NV);
    assert CREATED[0] == NV;
    AssocList.GicDefaults(s.stores.gicIf, 0);
    var dirty := With(s.page[DIRTY], D_CONTROLS);
    SetBitAt(s.page[DIRTY], D_CONTROLS, D_CONTROLS);
    SetBitAt(dirty, D_GIC, D_GIC);
    SetBitAt(With(dirty, D_GIC), D_CONTROLS, D_CONTROLS);
    SetBitAt(With(dirty, D_GIC), D_CONTROLS, D_GIC);
  }

  /** The words creation writes. */
  predicate CreatedWord(k: nat) {
    k == HCR || k == HACR || HFGRTR <= k <= HFGITR || k == CNTHCTL || k == Calls.ICH_HCR || k == DIRTY || k == NESTED_HCR
  }

  /** What else a new vCPU's page has of creation: HACR_EL2 and the guest's own
      HCR_EL2, and nothing in any other word but the traps. */
  lemma {:induction false} CreationRest(s: Slot, vhe: bool, gic: bool, k: nat)
    requires k < 2048
    ensures var p := Create(s, vhe, gic).page;
            && p[HACR] == 0x0100_0000_0000_0000 && p[NESTED_HCR] == 0x8000_0000
            && (!CreatedWord(k) ==> p[k] == s.page[k])
    ensures Create(s, vhe, gic) == s.(page := Create(s, vhe, gic).page, atEl2 := true)
  {
  }

  lemma {:induction false} TrapBits(k: nat)
    ensures k in READ_TRAPS <==> k == 9 || k == 10 || k == 13
    ensures k in WRITE_TRAPS <==> k == 13
    ensures k in INSN_TRAPS <==> 12 <= k <= 17
    ensures k in COUNTER_OFF <==> 10 <= k <= 16
    ensures k in COUNTER_ON <==> 13 <= k <= 16
  {
  }

  lemma {:induction false} CreatedWords(s: Slot, vhe: bool, gic: bool)
    ensures var p := Create(s, vhe, gic).page;
            && p[HFGRTR] == WithAll(s.page[HFGRTR], READ_TRAPS) && p[HFGWTR] == WithAll(s.page[HFGWTR], WRITE_TRAPS)
            && p[HFGITR] == WithAll(s.page[HFGITR], INSN_TRAPS)
            && p[CNTHCTL] == WithAll(WithoutAll(s.page[CNTHCTL], COUNTER_OFF), COUNTER_ON)
            && p[Calls.ICH_HCR] == if gic then With(s.page[Calls.ICH_HCR], 0) else s.page[Calls.ICH_HCR]
  {
  }

  lemma {:induction false} TrapWord(w: u64, off: seq<nat>, on: seq<nat>, k: nat)
    requires (forall i :: 0 <= i < |off| ==> off[i] < 64) && forall i :: 0 <= i < |on| ==> on[i] < 64
    ensures Bit(WithAll(w, on), k) <==> k in on || Bit(w, k)
    ensures Bit(WithAll(WithoutAll(w, off), on), k) <==> k in on || (k !in off && Bit(w, k))
  {
    WithAllBits(w, on, k);
    WithoutAllBits(w, off, k);
    WithAllBits(WithoutAll(w, off), on, k);
  }

  /** The trap words: the fine-grained traps and the counter's are those asked
      for, the kernel's other bits stay, and with an interrupt controller the
      virtual CPU interface is enabled. */
  lemma {:induction false} CreationTraps(s: Slot, vhe: bool, gic: bool, k: nat)
    ensures var p := Create(s, vhe, gic).page;
            && (Bit(p[HFGRTR], k) <==> k == 9 || k == 10 || k == 13 || Bit(s.page[HFGRTR], k))
            && (Bit(p[HFGWTR], k) <==> k == 13 || Bit(s.page[HFGWTR], k))
            && (Bit(p[HFGITR], k) <==> 12 <= k <= 17 || Bit(s.page[HFGITR], k))
            && (Bit(p[CNTHCTL], k) <==> 13 <= k <= 16 || (!(10 <= k <= 12) && Bit(s.page[CNTHCTL], k)))
            && (Bit(p[Calls.ICH_HCR], k) <==> (gic && k == 0) || Bit(s.page[Calls.ICH_HCR], k))
  {
    CreatedWords(s, vhe, gic);
    var p := Create(s, vhe, gic).page;
    TrapBits(k);
    TrapWord(s.page[HFGRTR], [], READ_TRAPS, k);
    TrapWord(s.page[HFGWTR], [], WRITE_TRAPS, k);
    TrapWord(s.page[HFGITR], [], INSN_TRAPS, k);
    TrapWord(s.page[CNTHCTL], COUNTER_OFF, COUNTER_ON, k);
    SetBitAt(s.page[Calls.ICH_HCR], 0, k);
  }
}
