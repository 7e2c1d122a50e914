/** Which register a trapped access is to, by the encoding of its name: the
  dispatcher's branches against the architecture's and Apple's encodings, in
  both directions (src/ohv_vcpu.cpp:332-427, 530-1202).

  An encoding is the 16 bits op0:op1:CRn:CRm:op2.
*/
module Dispatch {
  import opened Words
  import opened AssocList
  import opened Slot
  import opened Emulator
  import opened EmulatorLaws

  // ------------------------------------------------------------- the names

  const FRQ: nat := 0xdf00   // CNTFRQ_EL0
  const PCT: nat := 0xdf01   // CNTPCT_EL0
  const VCT: nat := 0xdf02   // CNTVCT_EL0
  const CCSIDR: nat := 0xc800
  const CLIDR: nat := 0xc801
  const AMX_VERSION: nat := 0xf797
  const HANDOFF: nat := 0xf7ff

  function TvalName(physical: bool): nat {
    if physical then 0xdf10 else 0xdf18
  }

  function CtlName(physical: bool): nat {
    if physical then 0xdf11 else 0xdf19
  }

  function CvalName(physical: bool): nat {
    if physical then 0xdf12 else 0xdf1a
  }

  /** The interrupt controller's CPU interface: ICC and ICV registers, ICH
      registers, and the priority mask. */
  predicate GicName(enc: nat) {
    0xc640 <= enc < 0xc668 || 0xe640 <= enc < 0xe668 || enc == 0xc230
  }

  /** Apple's counters in CRm 10 of the EL2 space, bar the interface's own. */
  predicate AppleCounter(enc: nat) {
    0xe000 <= enc < 0xe800 && enc / 8 % 16 == 10 && (enc % 8 == 5 || enc % 8 == 6) && !GicName(enc)
  }

  /** Implementation defined registers of EL1, and of EL2 in CRm 10. */
  predicate AppleName(enc: nat) {
    0xc780 <= enc < 0xc800 || (0xe7d0 <= enc < 0xe7d8 && enc != 0xe7d5 && enc != 0xe7d6)
  }

  predicate TranslateName(enc: nat) {
    0x43c0 <= enc < 0x43d0 || 0x63c0 <= enc < 0x63d0
  }

  /** The registers the dispatcher keeps, each at its place. */
  predicate Keeps(q: Place) {
    match q
    case Word(i) => NameOf(q) != 0
    case ShadowCtl => false
    case Gl2(i) => i < 8
    case TimerEnable => true
    case Pstate => true
    case Trace(i) => i < 2
    case Ctrr(k) => 2 <= k <= 5
    case Gic(k) => GicName(k)
    case Apple(k) => AppleName(k)
  }

  /** The encoding is a name of the register kept at `q`. */
  predicate Names(enc: nat, q: Place) {
    Keeps(q) && (enc == NameOf(q) || SecondName(q, enc))
  }

  /** The words the library works on, under the guest's names. */
  lemma {:induction false} WorkingNames()
    ensures NameOf(Word(TTBR0)) == 0xe100 && NameOf(Word(TTBR1)) == 0xe101 && NameOf(Word(TCR)) == 0xe102
    ensures NameOf(Word(SCTLR)) == 0xe080 && NameOf(Word(ELR)) == 0xe201 && NameOf(Word(SPSR)) == 0xe200
    ensures NameOf(Word(ESR)) == 0xe290 && NameOf(Word(VBAR_EL2)) == 0xe600 && NameOf(Word(CSSELR)) == 0xd000
  {
  }

  // ---------------------------------------------------------------- decoding

  /** The five fields are the encoding's. */
  lemma {:induction false} Fields(a: Op)
    requires a.Valid()
    ensures a.Enc() < 0x1_0000 && a.op2 == a.Enc() % 8 && a.crm == a.Enc() / 8 % 16 && a.crn == a.Enc() / 0x80 % 16
    ensures a.op1 == a.Enc() / 0x800 % 8 && a.op0 == a.Enc() / 0x4000
  {
    var x11 := a.op1 + 8 * a.op0;
    var x7 := a.crn + 16 * x11;
    var x3 := a.crm + 16 * x7;
    Quotient(8, x3, a.op2);
    Quotient(16, x7, a.crm);
    Quotient(16, x11, a.crn);
    Quotient(8, a.op0, a.op1);
    assert a.Enc() == 8 * x3 + a.op2;
    Nested(a.Enc(), 8, 16);
    Nested(a.Enc(), 0x80, 16);
    Nested(a.Enc(), 0x800, 8);
  }

  lemma {:induction false} Nested(x: nat, m: nat, n: nat)
    requires (m == 8 && n == 16) || (m == 0x80 && n == 16) || (m == 0x800 && n == 8)
    ensures x / m / n == x / (m * n)
  {
  }

  /** Two accesses with one encoding have the same fields. */
  lemma {:induction false} SameFields(a: Op, b: Op)
    requires a.Valid() && b.Valid() && a.Enc() == b.Enc()
    ensures a.op0 == b.op0 && a.op1 == b.op1 && a.crn == b.crn && a.crm == b.crm && a.op2 == b.op2
  {
    Fields(a);
    Fields(b);
  }

  // ------------------------------------------------------ by encoding, exactly

  /** The timers: each encoding is one view of one timer. */
  lemma {:induction false} TimerExactly(a: Op, physical: bool)
    requires a.Valid()
    ensures Pick(a) == TimerValue(physical) <==> a.Enc() == TvalName(physical)
    ensures Pick(a) == TimerControl(physical) <==> a.Enc() == CtlName(physical)
    ensures Pick(a) == CompareValue(physical) <==> a.Enc() == CvalName(physical)
  {
    Fields(a);
  }

  lemma {:induction false} NoTimerExactly(a: Op, physical: bool)
    requires a.Valid()
    ensures Pick(a) == NoTimer(physical) <==> CvalName(physical) < a.Enc() <= CvalName(physical) + 5
  {
    Fields(a);
  }

  /** The counters and their frequency ... */
  lemma {:induction false} CounterExactly(a: Op)
    requires a.Valid()
    ensures Pick(a) == Counter(false) <==> a.read && (a.Enc() == PCT || a.Enc() == VCT)
    ensures Pick(a) == Frequency <==> a.read && a.Enc() == FRQ
  {
    Fields(a);
  }

  lemma {:induction false} AppleCounterExactly(a: Op)
    requires a.Valid()
    ensures Pick(a) == Counter(true) <==> AppleCounter(a.Enc())
  {
    Fields(a);
  }

  /** ... the caches ... */
  lemma {:induction false} CacheExactly(a: Op)
    requires a.Valid()
    ensures Pick(a) == CacheSize <==> a.Enc() == CCSIDR
    ensures Pick(a) == CacheLevels <==> a.Enc() == CLIDR
  {
    Fields(a);
  }

  /** ... and the two hidden registers. */
  lemma {:induction false} HiddenExactly(a: Op)
    requires a.Valid()
    ensures Pick(a) == AmxVersion <==> a.read && a.Enc() == AMX_VERSION
    ensures Pick(a) == Handoff <==> !a.read && a.Enc() == HANDOFF
  {
    Fields(a);
  }

  /** Address translation, and the rest of the EL2 maintenance space. */
  lemma {:induction false} InstructionExactly(a: Op)
    requires a.Valid()
    ensures Pick(a) == TranslateAddress <==> TranslateName(a.Enc())
    ensures Pick(a) == Maintenance <==> 0x6000 <= a.Enc() < 0x6800 && !TranslateName(a.Enc())
  {
    Fields(a);
  }

  lemma {:induction false} ListExactly(a: Op)
    requires a.Valid()
    ensures Pick(a) == Cell(Gic(a.Enc()), None) <==> GicName(a.Enc())
  {
    Fields(a);
  }

  lemma {:induction false} AppleExactly(a: Op)
    requires a.Valid()
    ensures Pick(a) == Cell(Apple(a.Enc()), None) <==> AppleName(a.Enc())
  {
    Fields(a);
  }

  lemma {:induction false} BankIsPicked(a: Op, i: nat)
    requires a.Valid() && i < 8 && a.Enc() == 0xf7d8 + i
    ensures Pick(a) == Cell(Gl2(i), None)
  {
    Fields(a);
  }

  lemma {:induction false} SingleIsPicked(a: Op)
    requires a.Valid()
    ensures a.Enc() == 0xef8b ==> Pick(a) == Cell(TimerEnable, None)
    ensures a.Enc() == 0xda16 ==> Pick(a) == Cell(Pstate, None)
    ensures a.Enc() == 0xef8c ==> Pick(a) == Cell(Trace(0), None)
    ensures a.Enc() == 0xefd1 ==> Pick(a) == Cell(Trace(1), None)
  {
    Fields(a);
  }

  lemma {:induction false} CtrrIsPicked(a: Op, k: nat)
    requires a.Valid() && 2 <= k <= 5 && (a.Enc() == 0xe790 + k || SecondName(Ctrr(k), a.Enc()))
    ensures Pick(a) == Cell(Ctrr(k), None)
  {
    Fields(a);
  }

  lemma {:induction false} LowIsPicked(a: Op, i: nat)
    requires a.Valid() && i < 512 && LowName(i) != 0 && a.Enc() == LowName(i)
    ensures Pick(a).Cell? && Pick(a).place == Word(i)
  {
    if i == CSSELR || i >= GXF_CONFIG {
      HandNamed(a, i);
    } else {
      assert a.Enc() / 8 % 16 != 10;
      El2Space(a);
    }
  }

  lemma {:induction false} HandNamed(a: Op, i: nat)
    requires a.Valid() && (i == CSSELR || GXF_CONFIG <= i <= GXF_CONFIG + 2) && a.Enc() == LowName(i)
    ensures Pick(a).Cell? && Pick(a).place == Word(i)
  {
    Fields(a);
  }

  lemma {:induction false} VncrIsPicked(a: Op, i: nat)
    requires a.Valid() && i >= 512 && VncrName(i) != 0 && a.Enc() == VncrName(i)
    ensures Pick(a).Cell? && Pick(a).place == Word(i)
  {
    El2Space(a);
  }

  /** What is left of the EL2 space is looked up. */
  lemma {:induction false} El2Space(a: Op)
    requires a.Valid() && 0xe000 <= a.Enc() < 0xe780 && !GicName(a.Enc()) && !AppleCounter(a.Enc())
    requires a.Enc() / 8 % 16 != 10
    ensures Pick(a) == match El2Word(a.Enc())
                       case None => NotOurs
                       case Some(w) => Cell(Word(w.0), if w.1 then Some(D_SYSREGS) else None)
  {
    Fields(a);
    assert a.op0 == 3 && a.op1 == 4 && a.crm != 10;
  }

  lemma {:induction false} NamedIsPicked(a: Op, q: Place)
    requires a.Valid() && Names(a.Enc(), q)
    ensures Pick(a).Cell? && Pick(a).place == q
  {
    match q
    case Word(i) =>
      if i < 512 {
        LowIsPicked(a, i);
      } else {
        VncrIsPicked(a, i);
      }
    case Gl2(i) => BankIsPicked(a, i);
    case Ctrr(k) => CtrrIsPicked(a, k);
    case Gic(k) => ListExactly(a);
    case Apple(k) => AppleExactly(a);
    case _ => SingleIsPicked(a);
  }

  /** A kept register's encoding has a name. */
  lemma {:induction false} PickedIsKept(a: Op)
    requires a.Valid() && Pick(a).Cell?
    ensures Keeps(Pick(a).place)
  {
    PickNamed(a);
    var q := Pick(a).place;
    match q
    case Gic(_) => ListExactly(a);
    case Apple(_) => AppleExactly(a);
    case _ => OtherKept(a);
  }

  lemma {:induction false} OtherKept(a: Op)
    requires a.Valid() && Pick(a).Cell? && !Pick(a).place.Gic? && !Pick(a).place.Apple?
    ensures Keeps(Pick(a).place)
  {
    El2Named(a.Enc());
  }

  /** Every name of a kept register is answered at that register's place, and
      no other access goes there. */
  lemma {:induction false} KeptExactly(a: Op, q: Place)
    requires a.Valid()
    ensures Pick(a).Cell? && Pick(a).place == q <==> Names(a.Enc(), q)
  {
    if Pick(a).Cell? && Pick(a).place == q {
      PickNamed(a);
      PickedIsKept(a);
    } else if Names(a.Enc(), q) {
      NamedIsPicked(a, q);
    }
  }
}
