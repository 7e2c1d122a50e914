/** The VMM's register file: general registers, system registers by encoding,
  and the snapshot of both (src/ohv_vcpu.cpp:2411-2476, 2492-2672;
  src/ohv_sysreg_apple.cpp:17-164; src/ohv_sysreg_table.cpp:4-250;
  src/ohv_misc.cpp:15-28, 117-124; include/openhyp/openhyp.hpp:98-140).

  The register sync before some accesses is taken to succeed and to leave the
  page as it is.
*/
module Sysregs {
  import opened Words
  import opened Slot

  const D_JITBOX: nat := 56
  const D_SPRR: nat := 59
  const D_APPLE_KEYS: nat := 60
  const D_KEYS: nat := 61

  // ------------------------------------------------------------- the tables

  /** Where an encoding's value is: a word of the page, with the mark a write
      leaves; a shadow word; an ID register; or nowhere, for the breakpoint
      and watchpoint registers, which read as zero and drop what is written. */
  datatype Loc = Page(word: nat, mark: Option<nat>) | ShadowSlot(i: nat) | IdSlot(i: nat) | Nowhere

  /** SPRR, GXF, the GL1 bank, the Apple pointer authentication keys and the
      JITBox bank. */
  function Guarded(enc: nat): Option<Loc> {
    match enc
    case 0xf788 => Some(Page(Ext(55), Some(D_SPRR))) // SPRR_CONFIG_EL1
    case 0xf78d => Some(Page(Ext(58), Some(D_SPRR))) // SPRR_UPERM_EL0
    case 0xf78e => Some(Page(Ext(57), Some(D_SPRR))) // SPRR_PPERM_EL1
    case 0xf78a => Some(Page(Ext(42), Some(D_GXF))) // GXF_CONFIG_EL1
    case 0xf7c1 => Some(Page(Ext(43), Some(D_GXF))) // GXF_ENTRY_EL1
    case 0xf7c2 => Some(Page(Ext(44), Some(D_GXF))) // GXF_ABORT_EL1
    case 0xf7d0 => Some(Page(Ext(45), Some(D_GXF))) // SP_GL1
    case 0xf7d1 => Some(Page(Ext(46), Some(D_GXF))) // TPIDR_GL1
    case 0xf7d2 => Some(Page(Ext(48), Some(D_GXF))) // VBAR_GL1
    case 0xf7d3 => Some(Page(Ext(52), Some(D_GXF))) // SPSR_GL1
    case 0xf7d4 => Some(Page(Ext(47), Some(D_GXF))) // ASPSR_GL1
    case 0xf7d5 => Some(Page(Ext(50), Some(D_GXF))) // ESR_GL1
    case 0xf7d6 => Some(Page(Ext(51), Some(D_GXF))) // ELR_GL1
    case 0xf7d7 => Some(Page(Ext(49), Some(D_GXF))) // FAR_GL1
    case 0xe784 => Some(Page(Ext(29), Some(D_APPLE_KEYS))) // APCTL_EL1
    case 0xe789 => Some(Page(Ext(40), Some(D_APPLE_KEYS))) // KERNKEYHI_EL1
    case 0xe788 => Some(Page(Ext(41), Some(D_APPLE_KEYS))) // KERNKEYLO_EL1
    case 0xf7c7 => Some(Page(Ext(53), Some(D_GXF))) // PMCR1_GL1
    case 0xf781 => Some(Page(Ext(54), Some(D_GXF))) // AFSR1_GL1
    case 0xf78b => Some(Page(Ext(56), Some(D_SPRR))) // SPRR_AMRANGE_EL1
    case 0xf799 => Some(Page(Ext(59), Some(D_SPRR))) // SPRR_PMPRR_EL1
    case 0xe7f9 => Some(Page(Ext(76), Some(D_JITBOX))) // JRANGE_EL1
    case 0xe7fc => Some(Page(Ext(77), Some(D_JITBOX))) // JCTL_EL1
    case 0xe7ed => Some(Page(Ext(78), Some(D_JITBOX))) // JAPIAKEYHI_EL1
    case 0xe7ec => Some(Page(Ext(79), Some(D_JITBOX))) // JAPIAKEYLO_EL1
    case 0xe7ef => Some(Page(Ext(80), Some(D_JITBOX))) // JAPIBKEYHI_EL1
    case 0xe7ee => Some(Page(Ext(81), Some(D_JITBOX))) // JAPIBKEYLO_EL1
    case _ => None
  }

  /** EL2 registers named by their offset in the page. */
  function Controls(enc: nat): Option<Loc> {
    match enc
    case 0xe000 => Some(Page(297, Some(D_CONTROLS))) // VPIDR_EL2 (0x948)
    case 0xe005 => Some(Page(296, Some(D_CONTROLS))) // VMPIDR_EL2 (0x940)
    case 0xe08a => Some(Page(294, Some(D_CONTROLS))) // CPTR_EL2 (0x930)
    case 0xe089 => Some(Page(295, Some(D_CONTROLS))) // MDCR_EL2 (0x938)
    case 0xe088 => Some(Page(527, Some(D_CONTROLS))) // HCR_EL2 (0x1078)
    case 0xe108 => Some(Page(516, Some(D_CONTROLS))) // VTTBR_EL2 (0x1020)
    case 0xe10a => Some(Page(520, Some(D_CONTROLS))) // VTCR_EL2 (0x1040)
    case 0xe703 => Some(Page(524, Some(D_CONTROLS))) // CNTVOFF_EL2 (0x1060)
    case 0xe682 => Some(Page(530, Some(D_CONTROLS))) // TPIDR_EL2 (0x1090)
    case _ => None
  }

  /** Registers with no place in the page: the VMM's EL2 names, and the
      physical timer's control word. */
  function Shadowed(enc: nat): Option<Loc> {
    match enc
    case 0xe080 => Some(ShadowSlot(0)) // SCTLR_EL2
    case 0xe100 => Some(ShadowSlot(2)) // TTBR0_EL2
    case 0xe101 => Some(ShadowSlot(3)) // TTBR1_EL2
    case 0xe102 => Some(ShadowSlot(4)) // TCR_EL2
    case 0xe200 => Some(ShadowSlot(5)) // SPSR_EL2
    case 0xe201 => Some(ShadowSlot(6)) // ELR_EL2
    case 0xe290 => Some(ShadowSlot(7)) // ESR_EL2
    case 0xe300 => Some(ShadowSlot(8)) // FAR_EL2
    case 0xe304 => Some(ShadowSlot(9)) // HPFAR_EL2
    case 0xe510 => Some(ShadowSlot(10)) // MAIR_EL2
    case 0xe600 => Some(ShadowSlot(11)) // VBAR_EL2
    case 0xe708 => Some(ShadowSlot(12)) // CNTHCTL_EL2
    case 0xf208 => Some(ShadowSlot(13)) // s3_6_c4_c1_0
    case 0xdf11 => Some(ShadowSlot(30)) // CNTP_CTL_EL0
    case _ => None
  }

  function Identity(enc: nat): Option<Loc> {
    match enc
    case 0xc000 => Some(IdSlot(18)) // MIDR_EL1
    case 0xc005 => Some(IdSlot(19)) // MPIDR_EL1
    case 0xc020 => Some(IdSlot(7)) // ID_AA64PFR0_EL1
    case 0xc021 => Some(IdSlot(8)) // ID_AA64PFR1_EL1
    case 0xc028 => Some(IdSlot(0)) // ID_AA64DFR0_EL1
    case 0xc029 => Some(IdSlot(1)) // ID_AA64DFR1_EL1
    case 0xc030 => Some(IdSlot(2)) // ID_AA64ISAR0_EL1
    case 0xc031 => Some(IdSlot(3)) // ID_AA64ISAR1_EL1
    case 0xc038 => Some(IdSlot(4)) // ID_AA64MMFR0_EL1
    case 0xc039 => Some(IdSlot(5)) // ID_AA64MMFR1_EL1
    case 0xc03a => Some(IdSlot(6)) // ID_AA64MMFR2_EL1
    case _ => None
  }

  function Keys(enc: nat): Option<Loc> {
    match enc
    case 0xc108 => Some(Page(Ext(33), Some(D_KEYS))) // APIAKEYLO_EL1
    case 0xc109 => Some(Page(Ext(32), Some(D_KEYS))) // APIAKEYHI_EL1
    case 0xc10a => Some(Page(Ext(35), Some(D_KEYS))) // APIBKEYLO_EL1
    case 0xc10b => Some(Page(Ext(34), Some(D_KEYS))) // APIBKEYHI_EL1
    case 0xc110 => Some(Page(Ext(37), Some(D_KEYS))) // APDAKEYLO_EL1
    case 0xc111 => Some(Page(Ext(36), Some(D_KEYS))) // APDAKEYHI_EL1
    case 0xc112 => Some(Page(Ext(39), Some(D_KEYS))) // APDBKEYLO_EL1
    case 0xc113 => Some(Page(Ext(38), Some(D_KEYS))) // APDBKEYHI_EL1
    case 0xc118 => Some(Page(Ext(31), Some(D_KEYS))) // APGAKEYLO_EL1
    case 0xc119 => Some(Page(Ext(30), Some(D_KEYS))) // APGAKEYHI_EL1
    case _ => None
  }

  function El1(enc: nat): Option<Loc> {
    match enc
    case 0x8010 => Some(Page(Debug(64), Some(D_DEBUG))) // MDCCINT_EL1
    case 0x8012 => Some(Page(Shared(0), None)) // MDSCR_EL1
    case 0xc080 => Some(Page(Banked(12), Some(D_SYSREGS))) // SCTLR_EL1
    case 0xc082 => Some(Page(Banked(13), Some(D_SYSREGS))) // CPACR_EL1
    case 0xc100 => Some(Page(Banked(0), Some(D_SYSREGS))) // TTBR0_EL1
    case 0xc101 => Some(Page(Banked(1), Some(D_SYSREGS))) // TTBR1_EL1
    case 0xc102 => Some(Page(Banked(2), Some(D_SYSREGS))) // TCR_EL1
    case 0xc200 => Some(Page(Banked(14), Some(D_SYSREGS))) // SPSR_EL1
    case 0xc201 => Some(Page(Banked(3), Some(D_SYSREGS))) // ELR_EL1
    case 0xc208 => Some(Page(Shared(4), None)) // SP_EL0
    case 0xc288 => Some(Page(Banked(15), Some(D_SYSREGS))) // AFSR0_EL1
    case 0xc289 => Some(Page(Banked(16), Some(D_SYSREGS))) // AFSR1_EL1
    case 0xc290 => Some(Page(Banked(5), Some(D_SYSREGS))) // ESR_EL1
    case 0xc300 => Some(Page(Banked(4), Some(D_SYSREGS))) // FAR_EL1
    case 0xc3a0 => Some(Page(Shared(6), None)) // PAR_EL1
    case 0xc510 => Some(Page(Banked(6), Some(D_SYSREGS))) // MAIR_EL1
    case 0xc518 => Some(Page(Banked(7), Some(D_SYSREGS))) // AMAIR_EL1
    case 0xc600 => Some(Page(Banked(8), Some(D_SYSREGS))) // VBAR_EL1
    case 0xc681 => Some(Page(Banked(17), Some(D_SYSREGS))) // CONTEXTIDR_EL1
    case 0xc684 => Some(Page(Shared(1), None)) // TPIDR_EL1
    case 0xc708 => Some(Page(Banked(20), Some(D_SYSREGS))) // CNTKCTL_EL1
    case 0xd000 => Some(Page(Shared(7), None)) // CSSELR_EL1
    case 0xde82 => Some(Page(Shared(2), None)) // TPIDR_EL0
    case 0xde83 => Some(Page(Shared(3), None)) // TPIDRRO_EL0
    case 0xdf19 => Some(Page(Banked(18), Some(D_SYSREGS))) // CNTV_CTL_EL0
    case 0xdf1a => Some(Page(Banked(9), Some(D_SYSREGS))) // CNTV_CVAL_EL0
    case 0xe208 => Some(Page(Shared(5), None)) // SP_EL1
    case 0xdf12 => Some(Page(Banked(10), Some(D_SYSREGS))) // CNTP_CVAL_EL0
    case _ => None
  }

  /** DBGBVRn, DBGBCRn, DBGWVRn and DBGWCRn. */
  predicate IsBreakpoint(enc: nat) {
    0x8004 <= enc <= 0x807f && enc % 8 >= 4
  }

  function Or(a: Option<Loc>, b: Option<Loc>): Option<Loc> {
    if a.Some? then a else b
  }

  /** sysreg_lookup: the hand-kept tables first, then the generated one. */
  function Lookup(enc: nat): Option<Loc> {
    Or(Guarded(enc), Or(Controls(enc), Or(Shadowed(enc), Or(Identity(enc), Or(Keys(enc), Or(El1(enc),
       if IsBreakpoint(enc) then Some(Nowhere) else None))))))
  }

  // ------------------------------------------------- the layout, from its side

  /** The encoding whose register a place is, read off the context layout. */
  function Owner(loc: Loc): nat {
    match loc
    case Page(w, _) => if w < 200 then LowOwner(w) else if w < 364 then MiddleOwner(w) else HighOwner(w)
    case ShadowSlot(i) => ShadowOwner(i)
    case IdSlot(i) => IdOwner(i)
    case Nowhere => 0
  }

  function LowOwner(w: nat): nat {
    match w
    case 106 => 0x8012
    case 107 => 0xc684
    case 108 => 0xde82
    case 109 => 0xde83
    case 110 => 0xc208
    case 111 => 0xe208
    case 112 => 0xc3a0
    case 113 => 0xd000
    case 119 => 0xc100
    case 120 => 0xc101
    case 121 => 0xc102
    case 122 => 0xc201
    case 123 => 0xc300
    case 124 => 0xc290
    case 125 => 0xc510
    case 126 => 0xc518
    case 127 => 0xc600
    case 128 => 0xdf1a
    case 129 => 0xdf12
    case 131 => 0xc080
    case 132 => 0xc082
    case 133 => 0xc200
    case 134 => 0xc288
    case 135 => 0xc289
    case 136 => 0xc681
    case 137 => 0xdf19
    case 139 => 0xc708
    case _ => 0
  }

  function MiddleOwner(w: nat): nat {
    match w
    case 207 => 0x8010
    case 294 => 0xe08a
    case 295 => 0xe089
    case 296 => 0xe005
    case 297 => 0xe000
    case 351 => 0xe784
    case 352 => 0xc119
    case 353 => 0xc118
    case 354 => 0xc109
    case 355 => 0xc108
    case 356 => 0xc10b
    case 357 => 0xc10a
    case 358 => 0xc111
    case 359 => 0xc110
    case 360 => 0xc113
    case 361 => 0xc112
    case 362 => 0xe789
    case 363 => 0xe788
    case _ => 0
  }

  function HighOwner(w: nat): nat {
    match w
    case 364 => 0xf78a
    case 365 => 0xf7c1
    case 366 => 0xf7c2
    case 367 => 0xf7d0
    case 368 => 0xf7d1
    case 369 => 0xf7d4
    case 370 => 0xf7d2
    case 371 => 0xf7d7
    case 372 => 0xf7d5
    case 373 => 0xf7d6
    case 374 => 0xf7d3
    case 375 => 0xf7c7
    case 376 => 0xf781
    case 377 => 0xf788
    case 378 => 0xf78b
    case 379 => 0xf78e
    case 380 => 0xf78d
    case 381 => 0xf799
    case 398 => 0xe7f9
    case 399 => 0xe7fc
    case 400 => 0xe7ed
    case 401 => 0xe7ec
    case 402 => 0xe7ef
    case 403 => 0xe7ee
    case 516 => 0xe108
    case 520 => 0xe10a
    case 524 => 0xe703
    case 527 => 0xe088
    case 530 => 0xe682
    case _ => 0
  }

  function ShadowOwner(i: nat): nat {
    match i
    case 0 => 0xe080
    case 2 => 0xe100
    case 3 => 0xe101
    case 4 => 0xe102
    case 5 => 0xe200
    case 6 => 0xe201
    case 7 => 0xe290
    case 8 => 0xe300
    case 9 => 0xe304
    case 10 => 0xe510
    case 11 => 0xe600
    case 12 => 0xe708
    case 13 => 0xf208
    case 30 => 0xdf11
    case _ => 0
  }

  function IdOwner(i: nat): nat {
    match i
    case 0 => 0xc028
    case 1 => 0xc029
    case 2 => 0xc030
    case 3 => 0xc031
    case 4 => 0xc038
    case 5 => 0xc039
    case 6 => 0xc03a
    case 7 => 0xc020
    case 8 => 0xc021
    case 18 => 0xc000
    case 19 => 0xc005
    case _ => 0
  }

  /** A place the table can name: in range, not a general register, the PC,
      HCR_EL2, the timer word, the offset or the dirty mask, and never the word
      the hardware loads the physical timer's control from. */
  predicate InRange(loc: Loc) {
    match loc
    case Page(w, mark) =>
      && 34 <= w < 2048 && w != CNTP_CTL && w != HCR && w != OFFSET && w != TIMER && w != DIRTY
      && (mark.Some? ==> mark.value < 64)
    case ShadowSlot(i) => i < 32
    case IdSlot(i) => i < 20
    case Nowhere => true
  }

  ghost predicate Placed(enc: nat, l: Option<Loc>) {
    l.Some? && l.value != Nowhere ==> InRange(l.value) && Owner(l.value) == enc
  }

  lemma {:induction false} GuardedPlaced(enc: nat)
    ensures Placed(enc, Guarded(enc))
  {
  }

  lemma {:induction false} ControlsPlaced(enc: nat)
    ensures Placed(enc, Controls(enc))
  {
  }

  lemma {:induction false} ShadowedPlaced(enc: nat)
    ensures Placed(enc, Shadowed(enc))
  {
  }

  lemma {:induction false} IdentityPlaced(enc: nat)
    ensures Placed(enc, Identity(enc))
  {
  }

  lemma {:induction false} KeysPlaced(enc: nat)
    ensures Placed(enc, Keys(enc))
  {
  }

  lemma {:induction false} El1Placed(enc: nat)
    ensures Placed(enc, El1(enc))
  {
  }

  lemma {:induction false} LookupPlaced(enc: nat)
    ensures Placed(enc, Lookup(enc))
  {
    GuardedPlaced(enc);
    ControlsPlaced(enc);
    ShadowedPlaced(enc);
    IdentityPlaced(enc);
    KeysPlaced(enc);
    El1Placed(enc);
  }

  /** The same word, shadow or ID register. */
  predicate SamePlace(a: Loc, b: Loc) {
    if a.Page? && b.Page? then a.word == b.word else a == b
  }

  /** No two backed encodings share a place. */
  lemma {:induction false} NoAliases(a: nat, b: nat)
    requires Lookup(a).Some? && Lookup(b).Some? && Lookup(a).value != Nowhere
    ensures SamePlace(Lookup(a).value, Lookup(b).value) <==> a == b
  {
    LookupPlaced(a);
    LookupPlaced(b);
  }

  // ------------------------------------------------------- system registers

  datatype Status = Success | BadArgument | Unsupported | SyncFailed

  /** The ID registers are the host's until the VMM sets one. */
  function LoadIds(s: Slot, host: Bank20): Slot {
    if s.idsLoaded then s else s.(ids := host, idsLoaded := true)
  }

  /** CPTR_EL2 keeps two bits the kernel put there. */
  const CPTR_EL2: nat := 0xe08a

  function Stored(enc: nat, v: u64): u64 {
    if enc == CPTR_EL2 then With(With(v, 20), 21) else v
  }

  function ReadAt(s: Slot, loc: Loc, host: Bank20): u64
    requires InRange(loc)
  {
    match loc
    case Page(w, _) => s.page[w]
    case ShadowSlot(i) => s.shadow[i]
    case IdSlot(i) => if s.idsLoaded then s.ids[i] else host[i]
    case Nowhere => 0
  }

  function WriteAt(s: Slot, loc: Loc, v: u64, host: Bank20): Slot
    requires InRange(loc)
  {
    match loc
    case Page(w, mark) => if mark.Some? then Mark(Put(s, w, v), mark.value) else Put(s, w, v)
    case ShadowSlot(i) => s.(shadow := s.shadow[i := v])
    case IdSlot(i) => var s1 := LoadIds(s, host); s1.(ids := s1.ids[i := v])
    case Nowhere => s
  }

  /** What hv_vcpu_get_sys_reg answers, and what it leaves behind: an ID
      register read brings the host's in. */
  function GetSysReg(s: Slot, enc: nat, host: Bank20): (Status, u64, Slot) {
    match Lookup(enc)
    case None => (Unsupported, 0, s)
    case Some(loc) =>
      LookupPlaced(enc);
      (Success, ReadAt(s, loc, host), if loc.IdSlot? then LoadIds(s, host) else s)
  }

  function SetSysReg(s: Slot, enc: nat, v: u64, host: Bank20): (Status, Slot) {
    match Lookup(enc)
    case None => (Unsupported, s)
    case Some(loc) =>
      LookupPlaced(enc);
      (Success, WriteAt(s, loc, Stored(enc, v), host))
  }

  /** What the kernel says of the page, its mask of current parts, and whether
      it answers a request to bring the rest up to date. */
  datatype Kernel = Kernel(valid: u64, synced: bool)

  /** Which accesses ask for that first: always those of the parts the hardware
      fills, the shared registers and the controls only when not current. */
  predicate AsksSync(loc: Loc, k: Kernel) {
    match loc
    case Page(_, None) => !Bit(k.valid, D_SYSREGS)
    case Page(_, Some(mark)) => mark != D_CONTROLS || !Bit(k.valid, D_CONTROLS)
    case _ => false
  }

  /** sysreg_access gives up, with nothing done, when that is refused. */
  predicate Refused(enc: nat, k: Kernel) {
    Lookup(enc).Some? && AsksSync(Lookup(enc).value, k) && !k.synced
  }

  /** An access that does not succeed: no such register, or no sync. */
  predicate Fails(enc: nat, k: Kernel) {
    Lookup(enc).None? || Refused(enc, k)
  }

  predicate Backed(enc: nat) {
    Lookup(enc).Some? && Lookup(enc).value != Nowhere
  }

  /** Get after set returns the value -- CPTR_EL2 with its two bits -- and the
      set of one register is the set of no other. */
  lemma {:induction false} GetAfterSet(s: Slot, enc: nat, v: u64, host: Bank20, other: nat)
    requires Backed(enc)
    ensures SetSysReg(s, enc, v, host).0 == Success
    ensures GetSysReg(SetSysReg(s, enc, v, host).1, other, host).1
            == if other == enc then Stored(enc, v) else GetSysReg(s, other, host).1
  {
    LookupPlaced(enc);
    LookupPlaced(other);
    if Lookup(other).Some? {
      NoAliases(enc, other);
      WriteApart(s, Lookup(enc).value, Stored(enc, v), host, Lookup(other).value);
    }
  }

  lemma {:induction false} WriteLeaves(s: Slot, loc: Loc, v: u64, host: Bank20)
    requires InRange(loc)
    ensures var s' := WriteAt(s, loc, v, host);
            && s'.stores == s.stores && s'.page[CNTP_CTL] == s.page[CNTP_CTL] && s'.page[TIMER] == s.page[TIMER]
            && s'.page[HCR] == s.page[HCR]
  {
  }

  /** No system register is one of the run loop's own words or lists. */
  lemma {:induction false} SetLeaves(s: Slot, enc: nat, v: u64, host: Bank20)
    ensures var s' := SetSysReg(s, enc, v, host).1;
            && s'.stores == s.stores && s'.page[CNTP_CTL] == s.page[CNTP_CTL] && s'.page[TIMER] == s.page[TIMER]
            && s'.page[HCR] == s.page[HCR]
  {
    LookupPlaced(enc);
    if Lookup(enc).Some? {
      WriteLeaves(s, Lookup(enc).value, Stored(enc, v), host);
    }
  }

  lemma {:induction false} WriteApart(s: Slot, a: Loc, v: u64, host: Bank20, b: Loc)
    requires InRange(a) && InRange(b) && a != Nowhere
    ensures ReadAt(WriteAt(s, a, v, host), b, host) == if SamePlace(a, b) then v else ReadAt(s, b, host)
  {
  }

  /** A read changes no register's value. */
  lemma {:induction false} ReadsAreQuiet(s: Slot, enc: nat, host: Bank20, other: nat)
    ensures GetSysReg(GetSysReg(s, enc, host).2, other, host).1 == GetSysReg(s, other, host).1
  {
    LookupPlaced(other);
  }

  // ------------------------------------------------------- every row is there

  /** The part of the state a word belongs to; the shared registers are in none,
      the kernel takes them at every entry. */
  function PartOf(w: nat): Option<nat> {
    if w < 119 then None
    else if w < 143 then Some(D_SYSREGS)
    else if w < 211 then Some(D_DEBUG)
    else if w < 320 then Some(D_CONTROLS)
    else if 352 <= w < 362 then Some(D_KEYS)
    else if w < 364 then Some(D_APPLE_KEYS)
    else if w < 377 then Some(D_GXF)
    else if w < 382 then Some(D_SPRR)
    else if w < 404 then Some(D_JITBOX)
    else Some(D_CONTROLS)
  }

  /** Every register that the context layout, the shadows or the ID registers
      hold is found under its encoding, and a write of it marks its part. */
  lemma {:induction false} WordIsFound(w: nat)
    requires w < 2048 && Owner(Page(w, None)) != 0
    ensures Lookup(Owner(Page(w, None))) == Some(Page(w, PartOf(w)))
  {
    if w < 200 {
      LowIsFound(w);
    } else if w < 364 {
      MiddleIsFound(w);
    } else {
      HighIsFound(w);
    }
  }

  lemma {:induction false} LowIsFound(w: nat)
    requires w < 200 && LowOwner(w) != 0
    ensures Lookup(LowOwner(w)) == Some(Page(w, PartOf(w)))
  {
    if w < 119 {
      SharedRow(w);
    } else {
      BankedRow(w);
    }
    El1Encodings(LowOwner(w));
    OnlyEl1(LowOwner(w));
  }

  lemma {:induction false} SharedRow(w: nat)
    requires w < 119 && LowOwner(w) != 0
    ensures El1(LowOwner(w)) == Some(Page(w, None))
  {
  }

  lemma {:induction false} BankedRow(w: nat)
    requires 119 <= w < 200 && LowOwner(w) != 0
    ensures El1(LowOwner(w)) == Some(Page(w, Some(D_SYSREGS))) && w < 143
  {
  }

  lemma {:induction false} OnlyEl1(enc: nat)
    requires El1Encoding(enc)
    ensures Guarded(enc).None? && Controls(enc).None? && Shadowed(enc).None? && Identity(enc).None? && Keys(enc).None?
  {
  }

  lemma {:induction false} MiddleIsFound(w: nat)
    requires 200 <= w < 364 && MiddleOwner(w) != 0
    ensures Lookup(MiddleOwner(w)) == Some(Page(w, PartOf(w)))
  {
    if 352 <= w < 362 {
      KeyRow(w);
      OnlyKeys(MiddleOwner(w));
    } else {
      OtherRow(w);
    }
  }

  lemma {:induction false} KeyRow(w: nat)
    requires 352 <= w < 362
    ensures Keys(MiddleOwner(w)) == Some(Page(w, PartOf(w))) && 0xc108 <= MiddleOwner(w) < 0xc120
  {
  }

  lemma {:induction false} OnlyKeys(enc: nat)
    requires 0xc108 <= enc < 0xc120
    ensures Guarded(enc).None? && Controls(enc).None? && Shadowed(enc).None? && Identity(enc).None?
  {
  }

  lemma {:induction false} OtherRow(w: nat)
    requires 200 <= w < 364 && !(352 <= w < 362) && MiddleOwner(w) != 0
    ensures Lookup(MiddleOwner(w)) == Some(Page(w, PartOf(w)))
  {
  }

  lemma {:induction false} HighIsFound(w: nat)
    requires 364 <= w < 2048 && HighOwner(w) != 0
    ensures Lookup(HighOwner(w)) == Some(Page(w, PartOf(w)))
  {
  }

  lemma {:induction false} ShadowIsFound(i: nat)
    requires ShadowOwner(i) != 0
    ensures Lookup(ShadowOwner(i)) == Some(ShadowSlot(i))
  {
    ShadowRow(i);
    OnlyShadowed(ShadowOwner(i));
  }

  lemma {:induction false} ShadowRow(i: nat)
    requires ShadowOwner(i) != 0
    ensures Shadowed(ShadowOwner(i)) == Some(ShadowSlot(i))
  {
  }

  lemma {:induction false} OnlyShadowed(enc: nat)
    requires Shadowed(enc).Some?
    ensures Guarded(enc).None? && Controls(enc).None?
  {
  }

  lemma {:induction false} IdIsFound(i: nat)
    requires IdOwner(i) != 0
    ensures Lookup(IdOwner(i)) == Some(IdSlot(i))
  {
    IdRow(i);
    OnlyIdentity(IdOwner(i));
  }

  lemma {:induction false} IdRow(i: nat)
    requires IdOwner(i) != 0
    ensures Identity(IdOwner(i)) == Some(IdSlot(i)) && 0xc000 <= IdOwner(i) < 0xc040
  {
  }

  lemma {:induction false} OnlyIdentity(enc: nat)
    requires 0xc000 <= enc < 0xc040
    ensures Guarded(enc).None? && Controls(enc).None? && Shadowed(enc).None?
  {
  }

  /** The breakpoint and watchpoint registers, sixteen of each kind, are the
      ones accepted and dropped. */
  lemma {:induction false} DroppedExactly(enc: nat)
    ensures Lookup(enc) == Some(Nowhere) <==> 0x8000 <= enc < 0x8080 && enc / 4 % 2 == 1
  {
    EightPlusFour(enc);
    if IsBreakpoint(enc) {
      BreakpointsFree(enc);
    } else {
      NeverNowhere(enc);
    }
  }

  lemma {:induction false} NeverNowhere(enc: nat)
    requires !IsBreakpoint(enc)
    ensures Lookup(enc) != Some(Nowhere)
  {
    GuardedKeeps(enc);
    TablesKeep(enc);
  }

  lemma {:induction false} GuardedKeeps(enc: nat)
    ensures Guarded(enc) != Some(Nowhere) && Controls(enc) != Some(Nowhere) && Shadowed(enc) != Some(Nowhere)
  {
  }

  lemma {:induction false} TablesKeep(enc: nat)
    ensures Identity(enc) != Some(Nowhere) && Keys(enc) != Some(Nowhere) && El1(enc) != Some(Nowhere)
  {
  }

  lemma {:induction false} EightPlusFour(enc: nat)
    ensures enc / 4 % 2 == 1 <==> enc % 8 >= 4
  {
    var q, r := enc / 8, enc % 8;
    Quotient(4, 2 * q + r / 4, r % 4);
    Quotient(2, q, r / 4);
  }

  lemma {:induction false} BreakpointsFree(enc: nat)
    requires IsBreakpoint(enc)
    ensures Lookup(enc) == Some(Nowhere)
  {
  }

  /** A system register access asks for the kernel's copy to be brought up to
      date: always for the extended, debug and banked registers, for a shared
      one only if the banked are not current, for a control only if the
      controls are not; never for what the library holds itself. */
  lemma {:induction false} SyncExactly(enc: nat, k: Kernel)
    requires Lookup(enc).Some?
    ensures match Lookup(enc).value
            case Page(w, _) => AsksSync(Lookup(enc).value, k) <==>
                                 if w < 119 then !Bit(k.valid, 0)
                                 else if 211 <= w < 320 || w >= 512 then !Bit(k.valid, 2)
                                 else true
            case _ => !AsksSync(Lookup(enc).value, k)
  {
    if Lookup(enc).value.Page? {
      MarkIsPart(enc);
      PartAsks(Lookup(enc).value.word, k);
    }
  }

  lemma {:induction false} MarkIsPart(enc: nat)
    requires Lookup(enc).Some? && Lookup(enc).value.Page?
    ensures var l := Lookup(enc).value; l.mark == PartOf(l.word) && (l.word < 404 || l.word >= 512)
  {
    LookupPlaced(enc);
    var w := Lookup(enc).value.word;
    assert Owner(Page(w, None)) == enc;
    WordIsFound(w);
  }

  lemma {:induction false} PartAsks(w: nat, k: Kernel)
    requires w < 404 || w >= 512
    ensures AsksSync(Page(w, PartOf(w)), k) <==>
              if w < 119 then !Bit(k.valid, 0)
              else if 211 <= w < 320 || w >= 512 then !Bit(k.valid, 2)
              else true
  {
  }

  /** A write marks the part its word belongs to, and no other. */
  lemma {:induction false} SetMarks(s: Slot, enc: nat, v: u64, host: Bank20, b: nat)
    ensures Bit(SetSysReg(s, enc, v, host).1.page[DIRTY], b)
            <==> || Bit(s.page[DIRTY], b)
                 || (Lookup(enc).Some? && Lookup(enc).value.Page? && PartOf(Lookup(enc).value.word) == Some(b))
  {
    LookupPlaced(enc);
    if Lookup(enc).Some? {
      if Lookup(enc).value.Page? {
        MarkIsPart(enc);
      }
      WriteMarks(s, Lookup(enc).value, Stored(enc, v), host, b);
    }
  }

  lemma {:induction false} WriteMarks(s: Slot, loc: Loc, v: u64, host: Bank20, b: nat)
    requires InRange(loc)
    ensures Bit(WriteAt(s, loc, v, host).page[DIRTY], b)
            <==> Bit(s.page[DIRTY], b) || (loc.Page? && loc.mark == Some(b))
  {
    if loc.Page? && loc.mark.Some? {
      SetBitAt(s.page[DIRTY], loc.mark.value, b);
    }
  }

  /** The words the rest of the library works on, under the VMM's names. */
  lemma {:induction false} WorkingNames()
    ensures Owner(Page(CNTV_CTL, None)) == 0xdf19 && Owner(Page(CNTV_CVAL, None)) == 0xdf1a
    ensures Owner(Page(CNTP_CVAL, None)) == 0xdf12 && ShadowOwner(SHADOW_CNTP_CTL) == 0xdf11
    ensures Owner(Page(PAR, None)) == 0xc3a0 && Owner(Page(ELR, None)) == 0xc201 && Owner(Page(SPSR, None)) == 0xc200
    ensures Owner(Page(ESR, None)) == 0xc290 && Owner(Page(ELR_GL1, None)) == 0xf7d6
    ensures Owner(Page(SPSR_GL1, None)) == 0xf7d3
  {
  }

  /** The two bits that CPTR_EL2 always has. */
  lemma {:induction false} StoredBits(enc: nat, v: u64, k: nat)
    ensures Bit(Stored(enc, v), k) <==> Bit(v, k) || (enc == 0xe08a && (k == 20 || k == 21))
  {
    SetBitAt(v, 20, k);
    SetBitAt(With(v, 20), 21, k);
  }

  predicate El1Encoding(enc: nat) {
    || (0x8010 <= enc <= 0xdf1a && enc != 0xdf11 && !(0xc000 <= enc <= 0xc03a) && !(0xc108 <= enc <= 0xc119))
    || enc == 0xe208
  }

  lemma {:induction false} El1Encodings(enc: nat)
    ensures El1(enc).Some? ==> El1Encoding(enc)
  {
  }

  lemma {:induction false} OtherEncodings(enc: nat)
    ensures Guarded(enc).Some? ==> !El1Encoding(enc)
    ensures Controls(enc).Some? || Shadowed(enc).Some? ==> !El1Encoding(enc)
    ensures Identity(enc).Some? || Keys(enc).Some? ==> !El1Encoding(enc)
  {
  }

  /** Bringing the host's ID registers in changes no answer and no status. */
  lemma {:induction false} LoadedReads(s: Slot, enc: nat, host: Bank20)
    ensures GetSysReg(LoadIds(s, host), enc, host).1 == GetSysReg(s, enc, host).1
    ensures GetSysReg(LoadIds(s, host), enc, host).2 == LoadIds(s, host)
    ensures GetSysReg(s, enc, host).2 == s || GetSysReg(s, enc, host).2 == LoadIds(s, host)
    ensures GetSysReg(s, enc, host).0 == (if Lookup(enc).Some? then Success else Unsupported)
    ensures GetSysReg(LoadIds(s, host), enc, host).0 == GetSysReg(s, enc, host).0
  {
    LookupPlaced(enc);
  }

  /** No encoding of the generated table is in a hand-kept one. */
  lemma {:induction false} El1First(enc: nat)
    requires El1(enc).Some?
    ensures Lookup(enc) == El1(enc)
  {
    El1Encodings(enc);
    OtherEncodings(enc);
  }

  /** The guest hypervisor's translation and exception registers are the VMM's
      EL1 ones: both names reach one word. */
  lemma {:induction false} El1Names()
    ensures Lookup(0xc200) == Some(Page(SPSR, Some(D_SYSREGS))) && Lookup(0xc201) == Some(Page(ELR, Some(D_SYSREGS)))
    ensures Lookup(0xc100) == Some(Page(TTBR0, Some(D_SYSREGS))) && Lookup(0xc101) == Some(Page(TTBR1, Some(D_SYSREGS)))
    ensures Lookup(0xc102) == Some(Page(TCR, Some(D_SYSREGS))) && Lookup(0xc080) == Some(Page(SCTLR, Some(D_SYSREGS)))
  {
    El1First(0xc200);
    El1First(0xc201);
    El1First(0xc100);
    El1First(0xc101);
    El1First(0xc102);
    El1First(0xc080);
  }

  // ------------------------------------------------------ general registers

  const R_PC: nat := 31
  const R_FPCR: nat := 32
  const R_FPSR: nat := 33
  const R_CPSR: nat := 34

  /** EL2t and EL2h become EL1t and EL1h; the rest of PSTATE stays. */
  function Demote(pstate: u32): (r: u32)
    ensures !NamesEl2(r)
    ensures r - Mode(r) == pstate - Mode(pstate)
    ensures !NamesEl2(pstate) ==> r == pstate
  {
    if NamesEl2(pstate) then pstate - Mode(pstate) + (Mode(pstate) - 4) else pstate
  }

  function GetReg(s: Slot, n: nat): (Status, u64) {
    if n == R_CPSR then (Success, s.cpsr)
    else if n == R_FPCR then (Success, s.fpcr)
    else if n == R_FPSR then (Success, s.fpsr)
    else if n == R_PC then (Success, s.page[PC])
    else if n > R_PC then (BadArgument, 0)
    else (Success, s.page[X(n)])
  }

  /** `nested` is whether the VM has EL2. */
  function SetReg(s: Slot, n: nat, v: u64, nested: bool): (Status, Slot) {
    var low: u32 := v % 0x1_0000_0000;
    if n == R_CPSR then (Success, s.(cpsr := if nested then Demote(low) else low))
    else if n == R_FPCR then (Success, s.(fpcr := low))
    else if n == R_FPSR then (Success, s.(fpsr := low))
    else if n == R_PC then (Success, Put(s, PC, v))
    else if n > R_PC then (BadArgument, s)
    else (Success, Put(s, X(n), v))
  }

  /** The value a set leaves, as a get reads it back. */
  function Kept(n: nat, v: u64, nested: bool): u64 {
    if n <= R_PC then v
    else if n == R_CPSR && nested then Demote(v % 0x1_0000_0000)
    else v % 0x1_0000_0000
  }

  /** X0 to X30 lie from offset 8 up, then, past the stack pointer, the PC; and
      no number past PSTATE's is a register. */
  lemma {:induction false} RegistersPlaced(s: Slot, n: nat, v: u64, nested: bool)
    ensures n <= 30 ==> GetReg(s, n) == (Success, s.page[(0x008 + 8 * n) / 8])
    ensures n == 31 ==> GetReg(s, n) == (Success, s.page[0x108 / 8])
    ensures n > 34 ==> GetReg(s, n).0 == BadArgument && SetReg(s, n, v, nested) == (BadArgument, s)
  {
  }

  lemma {:induction false} GetRegAfterSet(s: Slot, n: nat, v: u64, nested: bool, m: nat)
    requires n <= R_CPSR
    ensures SetReg(s, n, v, nested).0 == Success
    ensures GetReg(SetReg(s, n, v, nested).1, m).1 == if m == n then Kept(n, v, nested) else GetReg(s, m).1
  {
  }

  lemma {:induction false} GeneralsApart(s: Slot, n: nat, v: u64, nested: bool, enc: nat, host: Bank20)
    ensures GetSysReg(SetReg(s, n, v, nested).1, enc, host).1 == GetSysReg(s, enc, host).1
  {
    LookupPlaced(enc);
  }

  lemma {:induction false} SystemApart(s: Slot, enc: nat, w: u64, host: Bank20, n: nat)
    ensures GetReg(SetSysReg(s, enc, w, host).1, n).1 == GetReg(s, n).1
  {
    LookupPlaced(enc);
  }

  /** The two files are apart: no general register is a system register. */
  lemma {:induction false} FilesApart(s: Slot, n: nat, v: u64, nested: bool, enc: nat, w: u64, host: Bank20)
    ensures GetSysReg(SetReg(s, n, v, nested).1, enc, host).1 == GetSysReg(s, enc, host).1
    ensures GetReg(SetSysReg(s, enc, w, host).1, n).1 == GetReg(s, n).1
  {
    GeneralsApart(s, n, v, nested, enc, host);
    SystemApart(s, enc, w, host, n);
  }

  // ---------------------------------------------------------------- snapshot

  datatype Snapshot = Snapshot(gpr: seq<u64>, sysregs: seq<(nat, u64)>, cpsr: u64, fpcr: u64, fpsr: u64)

  /** Every encoding of the list is backed. */
  predicate AllBacked(list: seq<nat>) {
    list == [] || (AllBacked(list[..|list| - 1]) && Backed(list[|list| - 1]))
  }

  function Values(s: Slot, list: seq<nat>, host: Bank20): (vs: seq<(nat, u64)>)
    ensures |vs| == |list|
  {
    if list == [] then []
    else Values(s, list[..|list| - 1], host) + [(list[|list| - 1], GetSysReg(s, list[|list| - 1], host).1)]
  }

  lemma {:induction false} OneMore(s: Slot, list: seq<nat>, i: nat, host: Bank20)
    requires i < |list|
    ensures Values(s, list[..i + 1], host) == Values(s, list[..i], host) + [(list[i], GetSysReg(s, list[i], host).1)]
  {
    assert list[..i + 1][..i] == list[..i];
  }

  /** X0 up to, but not including, register `n`. */
  function Generals(s: Slot, n: nat): (vs: seq<u64>)
    ensures |vs| == n
  {
    if n == 0 then [] else Generals(s, n - 1) + [GetReg(s, n - 1).1]
  }

  function Take(s: Slot, list: seq<nat>, host: Bank20): Snapshot {
    Snapshot(Generals(s, 32), Values(s, list, host), GetReg(s, R_CPSR).1, GetReg(s, R_FPCR).1, GetReg(s, R_FPSR).1)
  }

  function SetGenerals(s: Slot, vs: seq<u64>, n: nat, nested: bool): Slot
    requires n <= |vs|
  {
    if n == 0 then s else SetReg(SetGenerals(s, vs, n - 1, nested), n - 1, vs[n - 1], nested).1
  }

  function SetSysRegs(s: Slot, vs: seq<(nat, u64)>, host: Bank20): Slot {
    if vs == [] then s
    else SetSysReg(SetSysRegs(s, vs[..|vs| - 1], host), vs[|vs| - 1].0, vs[|vs| - 1].1, host).1
  }

  function Restore(s: Slot, snap: Snapshot, nested: bool, host: Bank20): Slot {
    var s1 := SetGenerals(s, snap.gpr, if |snap.gpr| < 32 then |snap.gpr| else 32, nested);
    var s2 := SetReg(s1, R_CPSR, snap.cpsr, nested).1;
    var s3 := SetReg(s2, R_FPCR, snap.fpcr, nested).1;
    SetSysRegs(SetReg(s3, R_FPSR, snap.fpsr, nested).1, snap.sysregs, host)
  }

  lemma {:induction false} GeneralsAt(s: Slot, n: nat, k: nat)
    requires k < n
    ensures Generals(s, n)[k] == GetReg(s, k).1
  {
    if k < n - 1 {
      GeneralsAt(s, n - 1, k);
    }
  }

  lemma {:induction false} SetGeneralsGet(s: Slot, vs: seq<u64>, n: nat, nested: bool, k: nat)
    requires n <= |vs| && n <= 32
    ensures GetReg(SetGenerals(s, vs, n, nested), k).1 == if k < n then vs[k] else GetReg(s, k).1
  {
    if n > 0 {
      SetGeneralsGet(s, vs, n - 1, nested, k);
      GetRegAfterSet(SetGenerals(s, vs, n - 1, nested), n - 1, vs[n - 1], nested, k);
    }
  }

  lemma {:induction false} SetSysRegsKeep(s: Slot, vs: seq<(nat, u64)>, host: Bank20, n: nat)
    ensures GetReg(SetSysRegs(s, vs, host), n).1 == GetReg(s, n).1
  {
    if vs != [] {
      SetSysRegsKeep(s, vs[..|vs| - 1], host, n);
      FilesApart(SetSysRegs(s, vs[..|vs| - 1], host), n, 0, false, vs[|vs| - 1].0, vs[|vs| - 1].1, host);
    }
  }

  predicate Lists(list: seq<nat>, enc: nat) {
    list != [] && (list[|list| - 1] == enc || Lists(list[..|list| - 1], enc))
  }

  /** Writing back the values of a list of backed registers, read off `s`, onto
      any state whatever gives the list the values it had. */
  lemma {:induction false} ValuesComeBack(s: Slot, t: Slot, list: seq<nat>, host: Bank20, enc: nat)
    requires AllBacked(list)
    ensures GetSysReg(SetSysRegs(t, Values(s, list, host), host), enc, host).1
            == if Lists(list, enc) then Stored(enc, GetSysReg(s, enc, host).1) else GetSysReg(t, enc, host).1
  {
    if list != [] {
      var n := |list| - 1;
      var vs := Values(s, list, host);
      assert vs[..n] == Values(s, list[..n], host);
      ValuesComeBack(s, t, list[..n], host, enc);
      var t' := SetSysRegs(t, vs[..n], host);
      var v := vs[n].1;
      assert vs[n] == (list[n], GetSysReg(s, list[n], host).1);
      GetAfterSet(t', list[n], v, host, enc);
      assert SetSysRegs(t, vs, host) == SetSysReg(t', list[n], v, host).1;
    }
  }

  /** A restored snapshot reads back as it was taken, whatever was written in
      between: every general register and the PC, the floating point words,
      and every listed register -- CPTR_EL2 exactly when it already had its two
      bits -- and PSTATE exactly when it did not name EL2. */
  lemma {:induction false} RestoreUndoesWrites(s: Slot, t: Slot, list: seq<nat>, nested: bool, host: Bank20, n: nat, enc: nat)
    requires AllBacked(list) && n <= R_CPSR
    ensures var u := Restore(t, Take(s, list, host), nested, host);
            && (GetReg(u, n).1 == GetReg(s, n).1 <==> !(n == R_CPSR && nested && NamesEl2(s.cpsr)))
            && (Lists(list, enc) ==>
                  (GetSysReg(u, enc, host).1 == GetSysReg(s, enc, host).1
                   <==> (enc == CPTR_EL2 ==> Bit(GetSysReg(s, enc, host).1, 20) && Bit(GetSysReg(s, enc, host).1, 21))))
            && (!Lists(list, enc) ==> GetSysReg(u, enc, host).1 == GetSysReg(t, enc, host).1)
  {
    var snap := Take(s, list, host);
    var s1 := SetGenerals(t, snap.gpr, 32, nested);
    var s2 := SetReg(s1, R_CPSR, snap.cpsr, nested).1;
    var s3 := SetReg(s2, R_FPCR, snap.fpcr, nested).1;
    var s4 := SetReg(s3, R_FPSR, snap.fpsr, nested).1;
    SetSysRegsKeep(s4, snap.sysregs, host, n);
    GeneralsBack(s, t, list, nested, host, n);
    ValuesComeBack(s, s4, list, host, enc);
    CptrBits(GetSysReg(s, enc, host).1);
    GeneralsQuiet(t, snap.gpr, 32, nested, enc, host);
    FilesApart(s1, R_CPSR, snap.cpsr, nested, enc, 0, host);
    FilesApart(s2, R_FPCR, snap.fpcr, nested, enc, 0, host);
    FilesApart(s3, R_FPSR, snap.fpsr, nested, enc, 0, host);
  }

  lemma {:induction false} GeneralsBack(s: Slot, t: Slot, list: seq<nat>, nested: bool, host: Bank20, n: nat)
    requires n <= R_CPSR
    ensures var snap := Take(s, list, host);
            var s1 := SetGenerals(t, snap.gpr, 32, nested);
            var s2 := SetReg(s1, R_CPSR, snap.cpsr, nested).1;
            var s3 := SetReg(s2, R_FPCR, snap.fpcr, nested).1;
            var s4 := SetReg(s3, R_FPSR, snap.fpsr, nested).1;
            GetReg(s4, n).1 == GetReg(s, n).1 <==> !(n == R_CPSR && nested && NamesEl2(s.cpsr))
  {
    var snap := Take(s, list, host);
    if n < 32 {
      GeneralsAt(s, 32, n);
    }
    SetGeneralsGet(t, snap.gpr, 32, nested, n);
    var s1 := SetGenerals(t, snap.gpr, 32, nested);
    GetRegAfterSet(s1, R_CPSR, snap.cpsr, nested, n);
    var s2 := SetReg(s1, R_CPSR, snap.cpsr, nested).1;
    GetRegAfterSet(s2, R_FPCR, snap.fpcr, nested, n);
    var s3 := SetReg(s2, R_FPCR, snap.fpcr, nested).1;
    GetRegAfterSet(s3, R_FPSR, snap.fpsr, nested, n);
  }

  lemma {:induction false} GeneralsQuiet(s: Slot, vs: seq<u64>, n: nat, nested: bool, enc: nat, host: Bank20)
    requires n <= |vs|
    ensures GetSysReg(SetGenerals(s, vs, n, nested), enc, host).1 == GetSysReg(s, enc, host).1
  {
    if n > 0 {
      GeneralsQuiet(s, vs, n - 1, nested, enc, host);
      FilesApart(SetGenerals(s, vs, n - 1, nested), n - 1, vs[n - 1], nested, enc, 0, host);
    }
  }

  lemma {:induction false} CptrBits(v: u64)
    ensures With(With(v, 20), 21) == v <==> Bit(v, 20) && Bit(v, 21)
  {
    WriteSame(v, 20);
    WriteSame(With(v, 20), 21);
    SetBitAt(v, 20, 20);
    SetBitAt(v, 20, 21);
    SetBitAt(With(v, 20), 21, 20);
    SetBitAt(With(v, 20), 21, 21);
  }
}
