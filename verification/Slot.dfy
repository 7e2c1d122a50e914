/** What the library keeps for one vCPU: the context page it shares with the
  kernel and the fields of VcpuSlot (include/openhyp/ohv_context.h:221-281,
  src/ohv_internal.h:33-169).

  A word of the page is named by its byte offset divided by eight.  PSTATE,
  FPCR and FPSR are 32 bits wide and kept beside the page.
*/
module Slot {
  import opened Words
  import opened AssocList

  type Page = p: seq<u64> | |p| == 2048 witness seq(2048, i => 0)
  type Bank3 = b: seq<u64> | |b| == 3 witness [0, 0, 0]
  type Bank8 = b: seq<u64> | |b| == 8 witness seq(8, i => 0)
  type Bank20 = b: seq<u64> | |b| == 20 witness seq(20, i => 0)
  type Bank32 = b: seq<u64> | |b| == 32 witness seq(32, i => 0)

  // --------------------------------------------------- words of the page

  const PC: nat := 33         // 0x108
  const PAR: nat := 112       // shared 6
  const CSSELR: nat := 113    // shared 7
  const TTBR0: nat := 119     // banked 0
  const TTBR1: nat := 120
  const TCR: nat := 121
  const ELR: nat := 122       // banked 3
  const ESR: nat := 124       // banked 5
  const CNTV_CVAL: nat := 128 // banked 9
  const CNTP_CVAL: nat := 129
  const SCTLR: nat := 131     // banked 12
  const SPSR: nat := 133      // banked 14
  const CNTV_CTL: nat := 137  // banked 18
  const CNTP_CTL: nat := 138  // banked 19
  const HCR: nat := 292       // 0x920
  const HACR: nat := 293
  const OFFSET: nat := 298    // virtual_timer_offset, 0x950
  const TIMER: nat := 305     // 0x988
  const DIRTY: nat := 320     // 0xa00
  const GXF_CONFIG: nat := 364 // extended 42
  const ELR_GL1: nat := 373   // extended 51
  const SPSR_GL1: nat := 374  // extended 52
  const VBAR_EL2: nat := 586  // 0x1250
  const NESTED_HCR: nat := 527 // 0x1078

  const SHADOW_CNTP_CTL: nat := 30

  /** X0 to X30; the frame pointer and the link register are the last two. */
  function X(n: nat): nat {
    1 + n
  }

  function Shared(i: nat): nat {
    106 + i
  }

  function Banked(i: nat): nat {
    119 + i
  }

  function Debug(i: nat): nat {
    143 + i
  }

  function Ext(i: nat): nat {
    322 + i
  }

  function Vncr(offset: nat): nat {
    512 + offset / 8
  }

  // ------------------------------------------------------------- bit names

  const NV: nat := 42
  const VF: nat := 6
  const VI: nat := 7

  const D_SYSREGS: nat := 0
  const D_DEBUG: nat := 1
  const D_CONTROLS: nat := 2
  const D_GIC: nat := 3
  const D_GXF: nat := 58

  // ------------------------------------------------------------ the record

  /** The interrupt lines' state: what the VMM last asked for, what the timers
      did at the last sweep, where the monitor is, and whether the guest is
      parked on a WFx. */
  datatype Lines = Lines(vmmFiq: bool, vmmIrq: bool, timerFiq: bool, firedV: bool, firedP: bool,
                         base: u64, parked: bool)

  /** Registers answered here that have no place in the page. */
  datatype Stores = Stores(gl2: Bank8, ctrr: List, trace: Bank3, apple: List, gicIf: List, gicReady: bool,
                           held: u64, tmrEna: u64)

  datatype Slot = Slot(page: Page, cpsr: u32, fpcr: u32, fpsr: u32, shadow: Bank32, lines: Lines,
                       stores: Stores, ids: Bank20, idsLoaded: bool, atEl2: bool, nvOff: bool, id: nat)

  function Put(s: Slot, i: nat, v: u64): Slot
    requires i < 2048
  {
    s.(page := s.page[i := v])
  }

  /** mark_dirty. */
  function Mark(s: Slot, bit: nat): Slot
    requires bit < 64
  {
    Put(s, DIRTY, With(s.page[DIRTY], bit))
  }

  /** `(w & ~(1 << k)) | (b << k)`. */
  function WriteBit(w: u64, k: nat, b: bool): u64
    requires k < 64
  {
    if b then With(Without(w, k), k) else Without(w, k)
  }

  /** The value of a general register operand; register 31 reads as zero. */
  function Operand(s: Slot, rt: nat): u64
    requires rt < 32
  {
    if rt == 31 then 0 else s.page[X(rt)]
  }

  /** `Level` bits of PSTATE. */
  function Mode(pstate: nat): nat {
    pstate % 16
  }

  predicate NamesEl2(pstate: nat) {
    Mode(pstate) == 8 || Mode(pstate) == 9
  }

  lemma {:induction false} WriteBitAt(w: u64, k: nat, b: bool, j: nat)
    requires k < 64
    ensures Bit(WriteBit(w, k, b), j) == if j == k then b else Bit(w, j)
  {
    ClearBitAt(w, k, j);
    SetBitAt(Without(w, k), k, j);
  }

  /** Writing a bit only when it differs is writing it. */
  lemma {:induction false} WriteBitLazily(w: u64, k: nat, b: bool)
    requires k < 64
    ensures Bit(w, k) == b ==> WriteBit(w, k, b) == w
  {
    WriteSame(w, k);
    WriteTwice(w, k);
  }
}
