/** The VMM's calls that reach a vCPU's page past its registers and control
  fields: the debug traps, the virtual CPU interface, shared interrupts, the
  SIMD registers, and the calls that only mark a part of the state
  (src/ohv_vcpu.cpp:2484-2489, 2824-2843, src/ohv_gic.cpp:136-143, 205-214,
  260-358, 392-519, src/ohv_misc.cpp:239-280).
*/
module Calls {
  import opened Words
  import opened Slot
  import Gic

  // Words of the page.
  const Q0: nat := 40         // 0x140
  const ICH_VMCR: nat := 140  // banked 21
  const ICH_AP0R0: nat := 211 // 0x698
  const ICH_AP1R0: nat := 212
  const MDCR: nat := 295
  const ICH_HCR: nat := 309
  const ICH_LR: nat := 310

  const D_SME: nat := 4

  /** Each call writes no word that the run loop lives by, and marks the
      controls or leaves their mark alone. */
  ghost predicate Elsewhere(s: Slot, s': Slot, marks: bool) {
    && s' == s.(page := s'.page)
    && s'.page[HCR] == s.page[HCR] && s'.page[OFFSET] == s.page[OFFSET] && s'.page[TIMER] == s.page[TIMER]
    && s'.page[CNTP_CTL] == s.page[CNTP_CTL] && s'.page[PC] == s.page[PC]
    && (Bit(s'.page[DIRTY], D_CONTROLS) <==> Bit(s.page[DIRTY], D_CONTROLS) || marks)
  }

  // --------------------------------------------------------- the debug traps

  /** hv_vcpu_set_trap_debug_exceptions and _reg_accesses: TDE, or TDA, TDOSA
      and TDRA. */
  function SetTrapDebug(s: Slot, accesses: bool, on: bool): Slot {
    var w := s.page[MDCR];
    var w' := if accesses then WriteBit(WriteBit(WriteBit(w, 9, on), 10, on), 12, on) else WriteBit(w, 14, on);
    Mark(Put(s, MDCR, w'), D_CONTROLS)
  }

  lemma {:induction false} TrapDebugElsewhere(s: Slot, accesses: bool, on: bool)
    ensures Elsewhere(s, SetTrapDebug(s, accesses, on), true)
  {
    SetBitAt(s.page[DIRTY], D_CONTROLS, D_CONTROLS);
  }

  /** MDCR_EL2 after them, bit by bit. */
  lemma {:induction false} TrapDebugBits(s: Slot, accesses: bool, on: bool, k: nat)
    ensures Bit(SetTrapDebug(s, accesses, on).page[0x938 / 8], k)
            <==> if (accesses && (k == 9 || k == 10 || k == 12)) || (!accesses && k == 14) then on
                 else Bit(s.page[0x938 / 8], k)
  {
    var w := s.page[MDCR];
    WriteBitAt(w, 14, on, k);
    WriteBitAt(w, 9, on, k);
    WriteBitAt(WriteBit(w, 9, on), 10, on, k);
    WriteBitAt(WriteBit(WriteBit(w, 9, on), 10, on), 12, on, k);
  }

  // ------------------------------------------------ the virtual CPU interface

  /** GIC state is marked together with the controls. */
  function MarkGic(s: Slot): Slot {
    Mark(Mark(s, D_GIC), D_CONTROLS)
  }

  lemma {:induction false} MarkGicElsewhere(s: Slot)
    ensures Elsewhere(s, MarkGic(s), true)
  {
    var dirty := With(s.page[DIRTY], D_GIC);
    SetBitAt(dirty, D_CONTROLS, D_CONTROLS);
  }

  /** The word an ICH register is written to; the ones the kernel reports, and
      the encodings that name none, have no place. */
  function IchWord(enc: nat): (w: Option<nat>)
    ensures w.Some? ==> w.value == ICH_VMCR || ICH_AP0R0 <= w.value <= ICH_AP1R0 || ICH_HCR <= w.value < ICH_LR + 8
  {
    match enc
    case 0xe640 => Some(ICH_AP0R0)
    case 0xe648 => Some(ICH_AP1R0)
    case 0xe658 => Some(ICH_HCR)
    case 0xe65f => Some(ICH_VMCR)
    case _ => if 0xe660 <= enc < 0xe668 then Some(ICH_LR + enc - 0xe660) else None
  }

  /** hv_gic_set_ich_reg: a list register is written marked as changed. */
  function SetIch(s: Slot, enc: nat, v: u64): Slot {
    match IchWord(enc)
    case None => s
    case Some(w) => MarkGic(Put(s, w, if w >= ICH_LR then With(v, 32) else v))
  }

  /** hv_gic_get_ich_reg, of those with a place: a list register reads without
      the mark. */
  function GetIch(s: Slot, enc: nat): Option<u64> {
    match IchWord(enc)
    case None => None
    case Some(w) => Some(if w >= ICH_LR then Without(s.page[w], 32) else s.page[w])
  }

  /** Each ICH register has its own place, by its encoding, and reads back what
      was written, a list register without bit 32; no other moves. */
  lemma {:induction false} IchReadsBack(s: Slot, enc: nat, v: u64, other: nat)
    ensures GetIch(SetIch(s, enc, v), other) ==
            if other == enc && IchWord(enc).Some? then Some(if enc >= 0xe660 then Without(v, 32) else v)
            else GetIch(s, other)
    ensures IchWord(enc).Some? <==> enc == 0xe640 || enc == 0xe648 || enc == 0xe658 || enc == 0xe65f || 0xe660 <= enc < 0xe668
    ensures IchWord(0xe640) == Some(0x698 / 8) && IchWord(0xe648) == Some(0x6a0 / 8)
    ensures IchWord(0xe658) == Some(0x9a8 / 8) && IchWord(0xe65f) == Some(0x460 / 8)
    ensures 0xe660 <= enc < 0xe668 ==> IchWord(enc) == Some(0x9b0 / 8 + enc - 0xe660)
  {
    SetThenClear(v, 32);
  }

  lemma {:induction false} SetThenClear(v: u64, k: nat)
    requires k < 64
    ensures Without(With(v, k), k) == Without(v, k)
  {
    forall j: nat | j < 64 ensures Bit(Without(With(v, k), k), j) == Bit(Without(v, k), j) {
      SetBitAt(v, k, j);
      ClearBitAt(With(v, k), k, j);
      ClearBitAt(v, k, j);
    }
    Powers();
    SameBits(Without(With(v, k), k), Without(v, k), 64);
  }

  lemma {:induction false} IchElsewhere(s: Slot, enc: nat, v: u64)
    ensures Elsewhere(s, SetIch(s, enc, v), IchWord(enc).Some?)
  {
    if IchWord(enc).Some? {
      var w := IchWord(enc).value;
      MarkGicElsewhere(Put(s, w, if w >= ICH_LR then With(v, 32) else v));
    }
  }

  /** hv_gic_create turns the interface of every vCPU on. */
  function EnableGic(s: Slot): Slot {
    MarkGic(Put(s, ICH_HCR, With(s.page[ICH_HCR], 0)))
  }

  lemma {:induction false} EnableElsewhere(s: Slot)
    ensures Elsewhere(s, EnableGic(s), true)
  {
    MarkGicElsewhere(Put(s, ICH_HCR, With(s.page[ICH_HCR], 0)));
  }

  // ------------------------------------------------------- shared interrupts

  function ListsOf(s: Slot): (lr: seq<u64>)
    ensures |lr| == Gic.LIST_REGISTERS && forall i :: 0 <= i < Gic.LIST_REGISTERS ==> lr[i] == s.page[ICH_LR + i]
  {
    s.page[ICH_LR..ICH_LR + 8]
  }

  function WithLists(p: Page, lr: seq<u64>): Page
    requires |lr| == Gic.LIST_REGISTERS
  {
    seq(2048, i requires 0 <= i < 2048 => if ICH_LR <= i < ICH_LR + 8 then lr[i - ICH_LR] else p[i])
  }

  /** The vCPU as the interrupt controller sees it. */
  function CpuOf(s: Slot): Gic.Cpu {
    Gic.Cpu(true, ListsOf(s), s.page[DIRTY])
  }

  /** hv_gic_set_spi on the vCPU it goes to; the distributor's enable bit and
      priority for the interrupt are given. */
  function SetSpi(s: Slot, intid: Gic.Intid, level: bool, enabled: bool, priority: Gic.Byte): Slot {
    if level && !enabled then s
    else
      var c := Gic.Deliver(CpuOf(s), intid, level, priority);
      Put(s.(page := WithLists(s.page, c.lr)), DIRTY, c.dirty)
  }

  /** A raise that finds a free register, or a lower that finds something to
      take out. */
  ghost predicate SpiMoves(s: Slot, intid: Gic.Intid, level: bool, enabled: bool) {
    var lr := ListsOf(s);
    if level then enabled && !Gic.HasLive(lr, intid) && exists i :: 0 <= i < |lr| && !Gic.Live(lr[i])
    else exists i :: 0 <= i < |lr| && Gic.PendingOnly(lr[i]) && Gic.LrIntid(lr[i]) == intid
  }

  lemma {:induction false} SpiElsewhere(s: Slot, intid: Gic.Intid, level: bool, enabled: bool, priority: Gic.Byte)
    ensures Elsewhere(s, SetSpi(s, intid, level, enabled, priority), SpiMoves(s, intid, level, enabled))
  {
    if !level || enabled {
      var lr := ListsOf(s);
      Gic.DeliverMoves(CpuOf(s), intid, level, priority);
      SetBitAt(s.page[DIRTY], D_GIC, D_CONTROLS);
      SetBitAt(With(s.page[DIRTY], D_GIC), D_CONTROLS, D_CONTROLS);
    }
  }

  /** It is the controller's own call: on the vCPU that takes the interrupts
      the page's list registers and marks go where the controller's go. */
  lemma {:induction false} SpiIsGic(g: Gic.State, s: Slot, intid: Gic.Intid, level: bool)
    requires Gic.Shaped(g)
    requires var t := Gic.Target(g.cpus); t < Gic.MODELLED_CPUS && g.cpus[t] == CpuOf(s)
    ensures CpuOf(SetSpi(s, intid, level, Gic.Enabled(g, intid), Gic.Priority(g, intid)))
            == Gic.SetSpi(g, intid, level).cpus[Gic.Target(g.cpus)]
  {
    var r := Gic.Recorded(g, intid, level);
    assert r.cpus == g.cpus && Gic.Enabled(r, intid) == Gic.Enabled(g, intid);
    assert Gic.Priority(r, intid) == Gic.Priority(g, intid);
    var s' := SetSpi(s, intid, level, Gic.Enabled(g, intid), Gic.Priority(g, intid));
    if !level || Gic.Enabled(g, intid) {
      var c := Gic.Deliver(CpuOf(s), intid, level, Gic.Priority(g, intid));
      assert ListsOf(s') == c.lr;
    }
  }

  // ------------------------------------------------------------- other state

  /** hv_vcpu_set_simd_fp_reg: two words of the page, and no mark. */
  function SetSimd(s: Slot, q: nat, low: u64, high: u64): Slot {
    if q < 32 then Put(Put(s, Q0 + 2 * q, low), Q0 + 2 * q + 1, high) else s
  }

  /** hv_vcpu_get_simd_fp_reg. */
  function GetSimd(s: Slot, q: nat): Option<(u64, u64)> {
    if q < 32 then Some((s.page[Q0 + 2 * q], s.page[Q0 + 2 * q + 1])) else None
  }

  /** Q0 to Q31 are apart, from offset 0x140 up, and read back. */
  lemma {:induction false} SimdReadsBack(s: Slot, q: nat, low: u64, high: u64, other: nat)
    ensures GetSimd(SetSimd(s, q, low, high), other) ==
            if other == q && q < 32 then Some((low, high)) else GetSimd(s, other)
    ensures q < 32 ==> SetSimd(s, q, low, high).page[0x140 / 8 + 2 * q] == low
  {
  }

  lemma {:induction false} SimdElsewhere(s: Slot, q: nat, low: u64, high: u64)
    ensures Elsewhere(s, SetSimd(s, q, low, high), false)
  {
  }

  /** The other interrupt controller state and the SME registers are outside
      the page: those calls leave a mark there and nothing else. */
  function MarkOther(s: Slot, sme: bool): Slot {
    Mark(s, if sme then D_SME else D_GIC)
  }

  lemma {:induction false} OtherElsewhere(s: Slot, sme: bool)
    ensures Elsewhere(s, MarkOther(s, sme), false)
  {
    SetBitAt(s.page[DIRTY], if sme then D_SME else D_GIC, D_CONTROLS);
  }

  // --------------------------------------------------------------- the calls

  datatype Call =
    | Simd(q: nat, low: u64, high: u64)
    | TrapDebug(accesses: bool, on: bool)
    | Enable
    | Ich(enc: nat, value: u64)
    | Spi(intid: Gic.Intid, level: bool, enabled: bool, priority: Gic.Byte)
    | OtherState(sme: bool)

  function Apply(s: Slot, c: Call): Slot {
    match c
    case Simd(q, low, high) => SetSimd(s, q, low, high)
    case TrapDebug(accesses, on) => SetTrapDebug(s, accesses, on)
    case Enable => EnableGic(s)
    case Ich(enc, v) => SetIch(s, enc, v)
    case Spi(intid, level, enabled, priority) => SetSpi(s, intid, level, enabled, priority)
    case OtherState(sme) => MarkOther(s, sme)
  }

  /** Which of them mark the controls. */
  ghost predicate Marks(s: Slot, c: Call) {
    match c
    case Simd(_, _, _) => false
    case TrapDebug(_, _) => true
    case Enable => true
    case Ich(enc, _) => IchWord(enc).Some?
    case Spi(intid, level, enabled, _) => SpiMoves(s, intid, level, enabled)
    case OtherState(_) => false
  }

  /** Which mark the interrupt controller's state. */
  ghost predicate GicMarks(s: Slot, c: Call) {
    match c
    case Enable => true
    case Ich(enc, _) => IchWord(enc).Some?
    case Spi(intid, level, enabled, _) => SpiMoves(s, intid, level, enabled)
    case OtherState(sme) => !sme
    case _ => false
  }

  /** The marks a call leaves, bit by bit: the controls, the interrupt
      controller's state, and the SME state, each exactly then. */
  lemma {:induction false} ApplyMarks(s: Slot, c: Call, b: nat)
    ensures Bit(Apply(s, c).page[DIRTY], b)
            <==> Bit(s.page[DIRTY], b) || (b == 2 && Marks(s, c)) || (b == 3 && GicMarks(s, c))
                 || (b == 4 && c == OtherState(true))
  {
    var dirty := s.page[DIRTY];
    SetBitAt(dirty, D_CONTROLS, b);
    SetBitAt(dirty, D_GIC, b);
    SetBitAt(dirty, D_SME, b);
    SetBitAt(With(dirty, D_GIC), D_CONTROLS, b);
    match c
    case Spi(intid, level, enabled, priority) =>
      if !level || enabled {
        Gic.DeliverMoves(CpuOf(s), intid, level, priority);
      }
    case _ =>
  }

  /** Whatever the call, no word the run loop lives by, and the mark exactly
      then. */
  lemma {:induction false} ApplyElsewhere(s: Slot, c: Call)
    ensures Elsewhere(s, Apply(s, c), Marks(s, c))
  {
    match c
    case Simd(q, low, high) => SimdElsewhere(s, q, low, high);
    case TrapDebug(accesses, on) => TrapDebugElsewhere(s, accesses, on);
    case Enable => EnableElsewhere(s);
    case Ich(enc, v) => IchElsewhere(s, enc, v);
    case Spi(intid, level, enabled, priority) => SpiElsewhere(s, intid, level, enabled, priority);
    case OtherState(sme) => OtherElsewhere(s, sme);
  }
}
