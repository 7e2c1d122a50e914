/** What every trapped register access keeps, and what the emulated registers
  are as a whole (src/ohv_vcpu.cpp:530-1202).
*/
module EmulatorLaws {
  import opened Words
  import opened AssocList
  import opened Slot
  import opened Timers
  import opened Emulator
  import Stage1

  // ------------------------------------------------------ what stays as it is

  /** Everything an answer may not touch: the general registers, the stack
      pointer and the PC, PSTATE, the floating point words, the interrupt
      lines, the guarded-return flag, the ID registers, and every control but
      HCR_EL2. */
  ghost predicate Apart(s: Slot, s': Slot) {
    && (forall k :: 0 <= k < 34 ==> s'.page[k] == s.page[k])
    && (forall k :: HCR < k < DIRTY ==> s'.page[k] == s.page[k])
    && s' == s.(page := s'.page, shadow := s'.shadow, stores := s'.stores, atEl2 := s'.atEl2)
  }

  /** The virtual level is where it was: HCR_EL2 with its mark, and the level
      the guest believes in. */
  ghost predicate LevelKept(s: Slot, s': Slot) {
    && s'.page[HCR] == s.page[HCR] && s'.atEl2 == s.atEl2
    && (Bit(s'.page[DIRTY], D_CONTROLS) <==> Bit(s.page[DIRTY], D_CONTROLS))
  }

  lemma {:induction false} MarkKeeps(s: Slot, bit: nat)
    requires bit < 64 && bit != D_CONTROLS
    ensures Apart(s, Mark(s, bit)) && LevelKept(s, Mark(s, bit))
  {
    SetBitAt(s.page[DIRTY], bit, D_CONTROLS);
  }

  lemma {:induction false} PutKeeps(s: Slot, i: nat, v: u64)
    requires 34 <= i < 2048 && !(HCR <= i <= DIRTY)
    ensures Apart(s, Put(s, i, v)) && LevelKept(s, Put(s, i, v))
  {
  }

  lemma {:induction false} KeptTwice(a: Slot, b: Slot, c: Slot)
    requires Apart(a, b) && LevelKept(a, b) && Apart(b, c) && LevelKept(b, c)
    ensures Apart(a, c) && LevelKept(a, c)
  {
    forall k | 0 <= k < 34 ensures c.page[k] == a.page[k] {
      assert c.page[k] == b.page[k];
    }
    forall k | HCR < k < DIRTY ensures c.page[k] == a.page[k] {
      assert c.page[k] == b.page[k];
    }
  }

  lemma {:induction false} CellKeeps(s: Slot, a: Op, p: Place, mark: Option<nat>)
    requires a.Valid() && Sound(Cell(p, mark))
    ensures Apart(s, ServeCell(s, a, p, mark).slot) && LevelKept(s, ServeCell(s, a, p, mark).slot)
  {
    match Use(s, p, if a.read then None else Some(Operand(s, a.rt)))
    case None =>
    case Some(s') =>
      assert Apart(s, s') && LevelKept(s, s');
      if mark.Some? && !a.read {
        MarkKeeps(s', mark.value);
        KeptTwice(s, s', Mark(s', mark.value));
      }
  }

  lemma {:induction false} TimerKeeps(s: Slot, a: Op, r: Reg, now: u64)
    requires a.Valid() && (r.TimerValue? || r.CompareValue? || r.TimerControl? || r.NoTimer?)
    ensures Apart(s, ServeTimer(s, a, r, now).slot) && LevelKept(s, ServeTimer(s, a, r, now).slot)
  {
    var s1 := Disarm(s, r.physical);
    PutKeeps(s, CNTP_CTL, 0);
    assert Apart(s, s1) && LevelKept(s, s1);
    var cval := CvalWord(r.physical);
    var v := Operand(s, a.rt);
    match r
    case TimerValue(_) =>
      PutKeeps(s1, cval, TvalWritten(v, now));
      MarkedPut(s, s1, Put(s1, cval, TvalWritten(v, now)));
    case TimerControl(_) =>
      assert Apart(s1, Store(s1, CtlPlace(r.physical), v)) && LevelKept(s1, Store(s1, CtlPlace(r.physical), v));
      MarkedPut(s, s1, Store(s1, CtlPlace(r.physical), v));
    case CompareValue(_) =>
      PutKeeps(s1, cval, CvalWritten(v, s.page[OFFSET]));
      MarkedPut(s, s1, Put(s1, cval, CvalWritten(v, s.page[OFFSET])));
    case NoTimer(_) =>
  }

  lemma {:induction false} MarkedPut(s: Slot, s1: Slot, s2: Slot)
    requires Apart(s, s1) && LevelKept(s, s1) && Apart(s1, s2) && LevelKept(s1, s2)
    ensures Apart(s, Mark(s2, D_SYSREGS)) && LevelKept(s, Mark(s2, D_SYSREGS))
  {
    KeptTwice(s, s1, s2);
    MarkKeeps(s2, D_SYSREGS);
    KeptTwice(s, s2, Mark(s2, D_SYSREGS));
  }

  /** Whatever the access, the answer leaves everything apart alone; only the
      monitor handoff moves the virtual level, and it arms NV as it does. */
  lemma {:induction false} ServeKeeps(s: Slot, a: Op, e: Env)
    requires a.Valid()
    ensures var s' := Serve(s, a, e).slot;
            && Apart(s, s')
            && if Pick(a).Handoff?
               then s'.atEl2 && s'.page[HCR] == With(s.page[HCR], NV) && Bit(s'.page[DIRTY], D_CONTROLS)
               else LevelKept(s, s')
  {
    PickValid(a);
    match Pick(a)
    case Handoff => SetBitAt(s.page[DIRTY], D_CONTROLS, D_CONTROLS);
    case Cell(p, mark) => CellKeeps(s, a, p, mark);
    case TranslateAddress =>
      Stage1.TranslateFits(RegimeOf(s), e.memory, Operand(s, a.rt));
      var par := Stage1.Translate(RegimeOf(s), e.memory, Operand(s, a.rt));
      PutKeeps(s, PAR, par);
      MarkedPut(s, s, Put(s, PAR, par));
    case TimerValue(_) => TimerKeeps(s, a, Pick(a), e.now);
    case TimerControl(_) => TimerKeeps(s, a, Pick(a), e.now);
    case CompareValue(_) => TimerKeeps(s, a, Pick(a), e.now);
    case NoTimer(_) => TimerKeeps(s, a, Pick(a), e.now);
    case _ =>
  }

  // --------------------------------------------------------- step discipline

  /** Every answered access adds four to the PC and changes no general register
      but X[Rt], on a read, with Rt not 31; every refused one leaves the PC and
      the registers alone.  Neither touches PSTATE, the stack pointer or the
      interrupt lines. */
  lemma {:induction false} StepDiscipline(s: Slot, a: Op, e: Env, n: nat)
    requires a.Valid() && n <= 31
    ensures var (ok, s') := Service(s, a, e);
            && s'.page[PC] == (if ok then Add(s.page[PC], 4) else s.page[PC])
            && (s'.page[X(n)] != s.page[X(n)] ==> ok && a.read && a.rt == n && n != 31)
            && s'.cpsr == s.cpsr && s'.lines == s.lines && s'.nvOff == s.nvOff && s'.id == s.id
  {
    ServeKeeps(s, a, e);
    var r := Serve(s, a, e);
    assert r.slot.page[X(n)] == s.page[X(n)] && r.slot.page[PC] == s.page[PC];
  }

  /** The value an answered read leaves in X[Rt]. */
  lemma {:induction false} ReadAnswers(s: Slot, a: Op, e: Env)
    requires a.Valid() && Answers(a) && a.rt != 31 && Service(s, a, e).0
    ensures Service(s, a, e).1.page[X(a.rt)] == Serve(s, a, e).value
  {
  }

  // ------------------------------------------------------ which register is where

  /** The encoding of the register kept at a place, under its first name. */
  function NameOf(p: Place): nat {
    match p
    case Word(i) => if i < 512 then LowName(i) else VncrName(i)
    case ShadowCtl => 0xdf11
    case Gl2(i) => 0xf7d8 + i
    case TimerEnable => 0xef8b
    case Pstate => 0xda16
    case Trace(i) => if i == 0 then 0xef8c else 0xefd1
    case Ctrr(k) => 0xe790 + k
    case Gic(k) => k
    case Apple(k) => k
  }

  function LowName(i: nat): nat {
    match i
    case 113 => 0xd000 // CSSELR_EL1
    case 119 => 0xe100 // TTBR0_EL2, in TTBR0_EL1
    case 120 => 0xe101 // TTBR1_EL2
    case 121 => 0xe102 // TCR_EL2
    case 122 => 0xe201 // ELR_EL2
    case 123 => 0xe300 // FAR_EL2
    case 124 => 0xe290 // ESR_EL2
    case 125 => 0xe510 // MAIR_EL2
    case 126 => 0xe518 // AMAIR_EL2
    case 131 => 0xe080 // SCTLR_EL2
    case 132 => 0xe08a // CPTR_EL2, in CPACR_EL1
    case 133 => 0xe200 // SPSR_EL2
    case 136 => 0xe681 // CONTEXTIDR_EL2
    case 364 => 0xf78a // GXF_CONFIG_EL1
    case 365 => 0xf7c1 // GXF_ENTRY_EL1
    case 366 => 0xf7c2 // GXF_PABENTRY_EL1
    case _ => 0
  }

  function VncrName(i: nat): nat {
    match i
    case 516 => 0xe108 // VTTBR_EL2, 0x020
    case 520 => 0xe10a // VTCR_EL2, 0x040
    case 522 => 0xe005 // VMPIDR_EL2, 0x050
    case 524 => 0xe703 // CNTVOFF_EL2, 0x060
    case 527 => 0xe088 // HCR_EL2, 0x078
    case 528 => 0xe08b // HSTR_EL2, 0x080
    case 529 => 0xe000 // VPIDR_EL2, 0x088
    case 530 => 0xe682 // TPIDR_EL2, 0x090
    case 540 => 0xe708 // CNTHCTL_EL2, 0x0e0
    case 550 => 0xe089 // MDCR_EL2, 0x130
    case 575 => 0xe304 // HPFAR_EL2, 0x1f8
    case 586 => 0xe600 // VBAR_EL2, 0x250
    case _ => 0
  }

  /** The second name of a CTRR slot. */
  predicate SecondName(p: Place, enc: nat) {
    p.Ctrr? && 3 <= p.key <= 4 && enc == 0xe7b0 + p.key + 1
  }

  lemma {:induction false} El2Named(enc: nat)
    ensures El2Word(enc).Some? ==> NameOf(Word(El2Word(enc).value.0)) == enc
  {
  }

  lemma {:induction false} OtherNamed(a: Op)
    requires a.Valid() && PickOther(a).Cell?
    ensures a.Enc() == NameOf(PickOther(a).place) || SecondName(PickOther(a).place, a.Enc())
  {
    El2Named(a.Enc());
  }

  /** Every access goes to the place of the register it names ... */
  lemma {:induction false} PickNamed(a: Op)
    requires a.Valid() && Pick(a).Cell?
    ensures a.Enc() == NameOf(Pick(a).place) || SecondName(Pick(a).place, a.Enc())
  {
    if Pick(a) == PickOther(a) {
      OtherNamed(a);
    }
  }

  /** ... so two registers share a place only if they are the two views of one
      CTRR slot. */
  lemma {:induction false} PlacesApart(a: Op, b: Op)
    requires a.Valid() && b.Valid() && Pick(a).Cell? && Pick(b).Cell? && Pick(a).place == Pick(b).place
    ensures || a.Enc() == b.Enc()
            || (Pick(a).place.Ctrr? && (SecondName(Pick(a).place, a.Enc()) || SecondName(Pick(a).place, b.Enc())))
  {
    PickNamed(a);
    PickNamed(b);
  }

  // --------------------------------------------------- one file of registers

  /** The three lists are as the library can have left them. */
  ghost predicate ListsOk(s: Slot) {
    var gic := GicReady(s.stores.gicIf, s.stores.gicReady);
    && UniqueKeys(s.stores.apple) && |s.stores.apple| <= APPLE_CAP
    && UniqueKeys(gic) && |gic| <= GIC_CAP
    && UniqueKeys(s.stores.ctrr) && CtrrKeys(s.stores.ctrr)
  }

  /** A place some emulated register is kept at. */
  ghost predicate IsRegister(p: Place) {
    p.Valid() && p != ShadowCtl && (p.Word? ==> RegisterWord(p.i))
  }

  /** Whether a full list refuses the place. */
  predicate Refuses(s: Slot, p: Place) {
    match p
    case Gic(k) =>
      var l := GicReady(s.stores.gicIf, s.stores.gicReady);
      |l| == GIC_CAP && !Has(l, k)
    case Apple(k) => |s.stores.apple| == APPLE_CAP && !Has(s.stores.apple, k)
    case _ => false
  }

  lemma {:induction false} ListAccess(l: List, cap: nat, enc: nat, write: Option<u64>, k: nat)
    requires UniqueKeys(l) && |l| <= cap
    ensures match AssocList.Access(l, cap, enc, write)
            case None => |l| == cap && !Has(l, enc)
            case Some(r) => && UniqueKeys(r.0) && |r.0| <= cap && !(|l| == cap && !Has(l, enc))
                            && ValueOf(r.0, k) == if k == enc && write.Some? then write.value else ValueOf(l, k)
  {
    AccessRefines(l, cap, enc, write);
  }

  lemma {:induction false} UseGic(s: Slot, k: nat, write: Option<u64>, q: Place)
    requires ListsOk(s) && q.Valid()
    ensures Use(s, Gic(k), write).None? <==> Refuses(s, Gic(k))
    ensures match Use(s, Gic(k), write)
            case None => true
            case Some(s') => ListsOk(s') && Get(s', q) == if q == Gic(k) && write.Some? then write.value else Get(s, q)
  {
    ListAccess(GicReady(s.stores.gicIf, s.stores.gicReady), GIC_CAP, k, write, if q.Gic? then q.key else k);
  }

  lemma {:induction false} AppleAccess(s: Slot, k: nat, write: Option<u64>, j: nat)
    requires ListsOk(s)
    ensures Use(s, Apple(k), write).None? <==> Refuses(s, Apple(k))
    ensures match Use(s, Apple(k), write)
            case None => true
            case Some(s') => var l, l' := s.stores.apple, s'.stores.apple;
                             && s' == s.(stores := s.stores.(apple := l')) && UniqueKeys(l') && |l'| <= APPLE_CAP
                             && ValueOf(l', j) == if j == k && write.Some? then write.value else ValueOf(l, j)
  {
    ListAccess(s.stores.apple, APPLE_CAP, k, write, j);
  }

  lemma {:induction false} UseApple(s: Slot, k: nat, write: Option<u64>, q: Place)
    requires ListsOk(s) && q.Valid()
    ensures Use(s, Apple(k), write).None? <==> Refuses(s, Apple(k))
    ensures match Use(s, Apple(k), write)
            case None => true
            case Some(s') => ListsOk(s') && Get(s', q) == if q == Apple(k) && write.Some? then write.value else Get(s, q)
  {
    AppleAccess(s, k, write, if q.Apple? then q.key else k);
  }

  lemma {:induction false} CtrrAccess(s: Slot, k: nat, write: Option<u64>, j: nat)
    requires ListsOk(s) && 2 <= k <= 5
    ensures Use(s, Ctrr(k), write).Some?
    ensures var s' := Use(s, Ctrr(k), write).value;
            var l, l' := s.stores.ctrr, s'.stores.ctrr;
            && s' == s.(stores := s.stores.(ctrr := l')) && UniqueKeys(l') && CtrrKeys(l')
            && ValueOf(l', j) == if j == k && write.Some? then write.value else ValueOf(l, j)
  {
    CtrrNeverFills(s.stores.ctrr, 2, k, write);
    ListAccess(s.stores.ctrr, CTRR_CAP, k, write, j);
  }

  lemma {:induction false} UseCtrr(s: Slot, k: nat, write: Option<u64>, q: Place)
    requires ListsOk(s) && q.Valid() && 2 <= k <= 5
    ensures Use(s, Ctrr(k), write).Some?
    ensures var s' := Use(s, Ctrr(k), write).value;
            ListsOk(s') && Get(s', q) == if q == Ctrr(k) && write.Some? then write.value else Get(s, q)
  {
    CtrrAccess(s, k, write, if q.Ctrr? then q.key else k);
  }

  lemma {:induction false} UseGet(s: Slot, p: Place, write: Option<u64>, q: Place)
    requires ListsOk(s) && p.Valid() && q.Valid()
    ensures Use(s, p, write).None? <==> Refuses(s, p)
    ensures match Use(s, p, write)
            case None => true
            case Some(s') => ListsOk(s') && Get(s', q) == if q == p && write.Some? then write.value else Get(s, q)
  {
    match p
    case Gic(k) => UseGic(s, k, write, q);
    case Apple(k) => UseApple(s, k, write, q);
    case Ctrr(k) => UseCtrr(s, k, write, q);
    case _ =>
  }

  /** A register write changes that register's value and no other's, a read
      changes none and returns it, and only a full list refuses. */
  lemma {:induction false} CellAccess(s: Slot, a: Op, e: Env, q: Place)
    requires a.Valid() && ListsOk(s) && Pick(a).Cell? && q.Valid()
    ensures Sound(Pick(a))
    ensures var p := Pick(a).place;
            var r := Serve(s, a, e);
            && (r.claimed <==> !Refuses(s, p)) && ListsOk(r.slot)
            && Get(r.slot, q) == (if q == p && r.claimed && !a.read then Operand(s, a.rt) else Get(s, q))
            && (r.claimed && a.read ==> r.value == Get(s, p))
  {
    PickValid(a);
    var p := Pick(a).place;
    UseGet(s, p, if a.read then None else Some(Operand(s, a.rt)), q);
  }

  /** The lists stay as the library can leave them. */
  lemma {:induction false} ServiceKeepsLists(s: Slot, a: Op, e: Env)
    requires a.Valid() && ListsOk(s)
    ensures ListsOk(Service(s, a, e).1)
  {
    if Pick(a).Cell? {
      CellAccess(s, a, e, Pstate);
    } else {
      OtherSides(s, a, e);
    }
  }

  /** The words an access that is not to a register may write. */
  predicate SideWord(k: nat) {
    k == HCR || k == DIRTY || k == PAR || k == CNTV_CVAL || k == CNTP_CVAL || k == CNTV_CTL || k == CNTP_CTL
  }

  ghost predicate SidesOnly(s: Slot, s': Slot) {
    s'.stores == s.stores && forall k :: 0 <= k < 2048 && !SideWord(k) ==> s'.page[k] == s.page[k]
  }

  lemma {:induction false} SidePut(s: Slot, s1: Slot, i: nat, v: u64)
    requires SidesOnly(s, s1) && i < 2048 && SideWord(i)
    ensures SidesOnly(s, Put(s1, i, v)) && SidesOnly(s, Mark(Put(s1, i, v), D_SYSREGS))
  {
  }

  lemma {:induction false} TimerSides(s: Slot, a: Op, r: Reg, now: u64)
    requires a.Valid() && (r.TimerValue? || r.CompareValue? || r.TimerControl? || r.NoTimer?)
    ensures var s' := ServeTimer(s, a, r, now).slot;
            SidesOnly(s, s') && s'.page[CNTP_CTL] == if r.physical then 0 else s.page[CNTP_CTL]
  {
    var s1 := Disarm(s, r.physical);
    DisarmSides(s, r.physical);
    var v := Operand(s, a.rt);
    match r
    case TimerValue(_) => SidePut(s, s1, CvalWord(r.physical), TvalWritten(v, now));
    case TimerControl(_) =>
      SidePut(s, s1, CNTV_CTL, v);
      assert r.physical ==> SidesOnly(s, Mark(Store(s1, ShadowCtl, v), D_SYSREGS));
    case CompareValue(_) => SidePut(s, s1, CvalWord(r.physical), CvalWritten(v, s.page[OFFSET]));
    case NoTimer(_) =>
  }

  lemma {:induction false} DisarmSides(s: Slot, physical: bool)
    ensures var s1 := Disarm(s, physical);
            SidesOnly(s, s1) && s1.page[CNTP_CTL] == if physical then 0 else s.page[CNTP_CTL]
  {
  }

  /** No other kind of access touches any of these registers. */
  lemma {:induction false} OtherAccess(s: Slot, a: Op, e: Env, q: Place)
    requires a.Valid() && !Pick(a).Cell? && IsRegister(q)
    ensures SidesOnly(s, Serve(s, a, e).slot) && Get(Serve(s, a, e).slot, q) == Get(s, q)
  {
    OtherSides(s, a, e);
  }

  lemma {:induction false} OtherSides(s: Slot, a: Op, e: Env)
    requires a.Valid() && !Pick(a).Cell?
    ensures SidesOnly(s, Serve(s, a, e).slot)
    ensures var w := Serve(s, a, e).slot.page[CNTP_CTL]; w == s.page[CNTP_CTL] || w == 0
  {
    match Pick(a)
    case TimerValue(_) => TimerSides(s, a, Pick(a), e.now);
    case TimerControl(_) => TimerSides(s, a, Pick(a), e.now);
    case CompareValue(_) => TimerSides(s, a, Pick(a), e.now);
    case NoTimer(_) => TimerSides(s, a, Pick(a), e.now);
    case _ =>
  }

  /** A place outside the page leaves the page alone. */
  lemma {:induction false} UsePage(s: Slot, p: Place, write: Option<u64>)
    requires p.Valid()
    ensures match Use(s, p, write)
            case None => true
            case Some(s') => s'.page == if p.Word? && write.Some? then s.page[p.i := write.value] else s.page
  {
  }

  /** A register access writes its own word, and the mark. */
  lemma {:induction false} CellSides(s: Slot, a: Op, p: Place, mark: Option<nat>, w: nat)
    requires a.Valid() && Sound(Cell(p, mark)) && w < 2048 && w != DIRTY && p != Word(w)
    ensures ServeCell(s, a, p, mark).slot.page[w] == s.page[w]
  {
    UsePage(s, p, if a.read then None else Some(Operand(s, a.rt)));
  }

  /** No access through the library leaves a non-zero word where the hardware
      would load the physical timer from: each one keeps it or zeroes it. */
  lemma {:induction false} PhysicalStaysDisarmed(s: Slot, a: Op, e: Env)
    requires a.Valid()
    ensures var w := Service(s, a, e).1.page[CNTP_CTL]; w == s.page[CNTP_CTL] || w == 0
  {
    PickValid(a);
    if Pick(a).Cell? {
      CellSides(s, a, Pick(a).place, Pick(a).mark, CNTP_CTL);
    } else {
      OtherSides(s, a, e);
    }
  }

  // -------------------------------------------------------------- whole runs

  /** The access writes the register kept at `q`. */
  predicate Writes(a: Op, q: Place) {
    Pick(a).Cell? && Pick(a).place == q && !a.read
  }

  predicate AllValid(run: seq<(Op, Env)>) {
    run == [] || (AllValid(run[..|run| - 1]) && run[|run| - 1].0.Valid())
  }

  /** The last operand a run of accesses left in a place, or its value at
      first: the reference the registers are compared with. */
  function LastWritten(s: Slot, run: seq<(Op, Env)>, q: Place): u64
    requires q.Valid() && AllValid(run)
  {
    if run == [] then Get(s, q)
    else
      var before := After(s, run[..|run| - 1]);
      var a := run[|run| - 1].0;
      if Writes(a, q) && !Refuses(before, q) then Operand(before, a.rt)
      else LastWritten(s, run[..|run| - 1], q)
  }

  function After(s: Slot, run: seq<(Op, Env)>): Slot
    requires AllValid(run)
  {
    if run == [] then s
    else Service(After(s, run[..|run| - 1]), run[|run| - 1].0, run[|run| - 1].1).1
  }

  /** Over any run of trapped accesses -- any registers, any order, refused
      ones included -- each emulated register holds the last value written to
      it, and the next read of it returns that value. */
  lemma {:induction false} RegistersHold(s: Slot, run: seq<(Op, Env)>, q: Place)
    requires AllValid(run) && ListsOk(s) && IsRegister(q)
    ensures ListsOk(After(s, run)) && Get(After(s, run), q) == LastWritten(s, run, q)
  {
    if run != [] {
      var n := |run| - 1;
      RegistersHold(s, run[..n], q);
      var before := After(s, run[..n]);
      var (a, e) := run[n];
      FinishKeeps(Serve(before, a, e).slot, a, Serve(before, a, e).value, q);
      if Pick(a).Cell? {
        CellAccess(before, a, e, q);
      } else {
        OtherAccess(before, a, e, q);
      }
    }
  }

  /** The operand register and the PC are no emulated register's place. */
  lemma {:induction false} FinishKeeps(s: Slot, a: Op, v: u64, q: Place)
    requires a.Valid() && IsRegister(q)
    ensures Get(Finish(s, a, v), q) == Get(s, q) && Finish(s, a, v).stores == s.stores
  {
  }
}
