/** What an answered access returns, which accesses are answered, and that no
  change goes unmarked (src/ohv_vcpu.cpp:530-1202).
*/
module AccessAnswers {
  import opened Words
  import opened Slot
  import opened Timers
  import opened Emulator
  import opened EmulatorLaws
  import opened Dispatch
  import Stage1

  // ------------------------------------------------------------- the values

  /** A counter reads the host's count less the guest's offset, and the
      frequency, the version and the cache descriptions are those given; the
      instruction or data cache described is the one CSSELR selects. */
  lemma {:induction false} ReadsAnswer(s: Slot, a: Op, e: Env)
    requires a.Valid() && a.read && a.rt != 31
    ensures var (ok, s') := Service(s, a, e);
            var v, enc := s'.page[X(a.rt)], a.Enc();
            var level := s.page[CSSELR] / 2 % 8;
            && (enc == PCT || enc == VCT || AppleCounter(enc) ==> ok && v == (e.now - s.page[OFFSET]) % TWO64)
            && (enc == FRQ ==> ok && v == e.freq)
            && (enc == AMX_VERSION ==> ok && v == 1)
            && (enc == CLIDR ==> ok && v == e.clidr)
            && (enc == CCSIDR ==> ok && v == if s.page[CSSELR] % 2 == 1 then e.instr[level] else e.data[level])
  {
    CounterExactly(a);
    AppleCounterExactly(a);
    CacheExactly(a);
    HiddenExactly(a);
    if Pick(a).Counter? || Pick(a).Frequency? || Pick(a).AmxVersion? || Pick(a).CacheLevels? || Pick(a).CacheSize? {
      QuietRead(s, a, e);
      WrapOnce(e.now, s.page[OFFSET]);
    }
  }

  lemma {:induction false} QuietRead(s: Slot, a: Op, e: Env)
    requires a.Valid() && a.read && a.rt != 31
    requires Pick(a).Counter? || Pick(a).Frequency? || Pick(a).AmxVersion? || Pick(a).CacheLevels? || Pick(a).CacheSize?
    ensures Service(s, a, e).0 && Service(s, a, e).1.page[X(a.rt)] == Serve(s, a, e).value
  {
    ReadAnswers(s, a, e);
  }

  lemma {:induction false} OffsetKept(s: Slot, run: seq<(Op, Env)>)
    requires AllValid(run)
    ensures After(s, run).page[OFFSET] == s.page[OFFSET]
  {
    if run != [] {
      var before := After(s, run[..|run| - 1]);
      var (a, e) := run[|run| - 1];
      OffsetKept(s, run[..|run| - 1]);
      ServiceKeepsOffset(before, a, e);
    }
  }

  lemma {:induction false} ServiceKeepsOffset(s: Slot, a: Op, e: Env)
    requires a.Valid()
    ensures Service(s, a, e).1.page[OFFSET] == s.page[OFFSET]
  {
    ServeKeeps(s, a, e);
    var r := Serve(s, a, e).slot;
    assert r.page[OFFSET] == s.page[OFFSET];
  }

  predicate IsCounter(a: Op) {
    a.Valid() && a.read && a.rt != 31 && (a.Enc() == PCT || a.Enc() == VCT || AppleCounter(a.Enc()))
  }

  /** The guest's clock runs as the host's: between any two counter reads,
      whatever accesses lie between, it advances by what the host's did. */
  lemma {:induction false} ClockTicks(s: Slot, a: Op, e: Env, run: seq<(Op, Env)>, b: Op, e': Env)
    requires IsCounter(a) && IsCounter(b) && AllValid(run)
    ensures var s1 := Service(s, a, e).1;
            var s2 := Service(After(s1, run), b, e').1;
            (s2.page[X(b.rt)] - s1.page[X(a.rt)]) % TWO64 == (e'.now - e.now) % TWO64
  {
    var s1 := Service(s, a, e).1;
    CounterReads(s, a, e);
    OffsetKept(s1, run);
    CounterReads(After(s1, run), b, e');
    var s2 := Service(After(s1, run), b, e').1;
    Differences(e.now, e'.now, s.page[OFFSET], s1.page[X(a.rt)], s2.page[X(b.rt)]);
  }

  lemma {:induction false} CounterReads(s: Slot, a: Op, e: Env)
    requires IsCounter(a)
    ensures var s' := Service(s, a, e).1;
            s'.page[X(a.rt)] == (e.now - s.page[OFFSET]) % TWO64 && s'.page[OFFSET] == s.page[OFFSET]
  {
    ReadsAnswer(s, a, e);
    ServiceKeepsOffset(s, a, e);
  }

  lemma {:induction false} Differences(x: u64, y: u64, o: u64, v: u64, w: u64)
    requires v == (x - o) % TWO64 && w == (y - o) % TWO64
    ensures (w - v) % TWO64 == (y - x) % TWO64
  {
  }

  // --------------------------------------------------------- what is answered

  /** The accesses that are not to a kept register, and are answered. */
  predicate Answered(enc: nat, read: bool) {
    || (exists physical: bool :: enc == TvalName(physical) || enc == CtlName(physical) || enc == CvalName(physical))
    || (read && (enc == PCT || enc == VCT || enc == FRQ || enc == CLIDR || enc == CCSIDR || enc == AMX_VERSION))
    || (!read && enc == HANDOFF) || AppleCounter(enc) || 0x6000 <= enc < 0x6800 || TranslateName(enc)
  }

  /** An access is answered exactly if it names a kept register that no full
      list refuses, or is one of those. */
  lemma {:induction false} AnsweredExactly(s: Slot, a: Op, e: Env)
    requires a.Valid() && ListsOk(s)
    ensures Service(s, a, e).0 <==> (exists q: Place :: Names(a.Enc(), q) && !Refuses(s, q)) || Answered(a.Enc(), a.read)
  {
    if Pick(a).Cell? {
      var p := Pick(a).place;
      KeptExactly(a, p);
      CellAccess(s, a, e, Pstate);
      assert Names(a.Enc(), p);
      forall q: Place | Names(a.Enc(), q) ensures q == p {
        KeptExactly(a, q);
      }
      NotBoth(a);
    } else {
      forall q: Place ensures !Names(a.Enc(), q) {
        KeptExactly(a, q);
      }
      OthersAnswered(s, a, e);
    }
  }

  lemma {:induction false} NotBoth(a: Op)
    requires a.Valid() && Pick(a).Cell?
    ensures !Answered(a.Enc(), a.read)
  {
    TimerExactly(a, true);
    TimerExactly(a, false);
    CounterExactly(a);
    AppleCounterExactly(a);
    CacheExactly(a);
    HiddenExactly(a);
    InstructionExactly(a);
  }

  lemma {:induction false} OthersAnswered(s: Slot, a: Op, e: Env)
    requires a.Valid() && !Pick(a).Cell?
    ensures Service(s, a, e).0 <==> Answered(a.Enc(), a.read)
  {
    TimerExactly(a, true);
    TimerExactly(a, false);
    CounterExactly(a);
    AppleCounterExactly(a);
    CacheExactly(a);
    HiddenExactly(a);
    InstructionExactly(a);
    assert Service(s, a, e).0 <==> match Pick(a)
                                   case CacheLevels => a.read
                                   case CacheSize => a.read
                                   case NoTimer(_) => false
                                   case NotOurs => false
                                   case _ => true;
  }

  // ----------------------------------------------------------------- the marks

  /** The part of the state that a word of the page belongs to, of those the
      library itself writes. */
  function Part(k: nat): Option<nat> {
    if 106 <= k < 143 then Some(D_SYSREGS)
    else if HCR <= k < DIRTY then Some(D_CONTROLS)
    else if GXF_CONFIG <= k <= GXF_CONFIG + 2 then Some(D_GXF)
    else None
  }

  /** What changed is marked -- but for the physical timer's hardware word,
      which is only ever zeroed, and the timer mask -- and no mark is lost. */
  ghost predicate AllMarked(s: Slot, s': Slot) {
    && (forall k :: 0 <= k < 2048 && k != CNTP_CTL && k != TIMER && s'.page[k] != s.page[k] && Part(k).Some? ==>
          Bit(s'.page[DIRTY], Part(k).value))
    && (forall b: nat :: Bit(s.page[DIRTY], b) ==> Bit(s'.page[DIRTY], b))
  }

  lemma {:induction false} MarkedTwice(a: Slot, b: Slot, c: Slot)
    requires AllMarked(a, b) && AllMarked(b, c)
    ensures AllMarked(a, c)
  {
    forall k | 0 <= k < 2048 && k != CNTP_CTL && k != TIMER && c.page[k] != a.page[k] && Part(k).Some?
      ensures Bit(c.page[DIRTY], Part(k).value)
    {
      assert c.page[k] != b.page[k] || b.page[k] != a.page[k];
    }
  }

  lemma {:induction false} MarkOnly(s: Slot, b: nat)
    requires b < 64
    ensures AllMarked(s, Mark(s, b))
  {
    forall k: nat | Bit(s.page[DIRTY], k) ensures Bit(Mark(s, b).page[DIRTY], k) {
      SetBitAt(s.page[DIRTY], b, k);
    }
    assert Part(DIRTY) == None;
  }

  /** A word that is in no part, or has its own marks. */
  lemma {:induction false} FreePut(s: Slot, k: nat, v: u64)
    requires k < 2048 && k != DIRTY && (Part(k).None? || k == CNTP_CTL || k == TIMER)
    ensures AllMarked(s, Put(s, k, v))
  {
  }

  /** A word written and its part marked. */
  lemma {:induction false} PutMarked(s: Slot, k: nat, v: u64, b: nat)
    requires k < 2048 && k != DIRTY && b < 64 && (Part(k).None? || Part(k) == Some(b))
    ensures AllMarked(s, Mark(Put(s, k, v), b))
  {
    var s' := Mark(Put(s, k, v), b);
    SetBitAt(s.page[DIRTY], b, b);
    forall j: nat | Bit(s.page[DIRTY], j) ensures Bit(s'.page[DIRTY], j) {
      SetBitAt(s.page[DIRTY], b, j);
    }
  }

  /** The register table's mark is the word's part. */
  lemma {:induction false} PickMarks(a: Op)
    requires a.Valid() && Pick(a).Cell? && Pick(a).place.Word?
    ensures Pick(a).mark == Part(Pick(a).place.i)
  {
    El2Parts(a.Enc());
  }

  lemma {:induction false} El2Parts(enc: nat)
    ensures El2Word(enc).Some? ==>
              Part(El2Word(enc).value.0) == if El2Word(enc).value.1 then Some(D_SYSREGS) else None
  {
  }

  lemma {:induction false} CellMarked(s: Slot, a: Op, p: Place, mark: Option<nat>)
    requires a.Valid() && Sound(Cell(p, mark)) && (p.Word? ==> mark == Part(p.i))
    ensures AllMarked(s, ServeCell(s, a, p, mark).slot)
  {
    var write := if a.read then None else Some(Operand(s, a.rt));
    UsePage(s, p, write);
    match Use(s, p, write)
    case None =>
    case Some(s') =>
      if p.Word? && !a.read {
        if mark.Some? {
          PutMarked(s, p.i, write.value, mark.value);
        } else {
          FreePut(s, p.i, write.value);
        }
      } else if mark.Some? && !a.read {
        MarkOnly(s', mark.value);
        MarkedTwice(s, s', Mark(s', mark.value));
      }
  }

  lemma {:induction false} TimerMarked(s: Slot, a: Op, r: Reg, now: u64)
    requires a.Valid() && (r.TimerValue? || r.CompareValue? || r.TimerControl? || r.NoTimer?)
    ensures AllMarked(s, ServeTimer(s, a, r, now).slot)
  {
    var s1, v := Disarm(s, r.physical), Operand(s, a.rt);
    FreePut(s, CNTP_CTL, 0);
    assert AllMarked(s, s1);
    if !a.read && !r.NoTimer? {
      match r {
        case TimerValue(_) => PutMarked(s1, CvalWord(r.physical), TvalWritten(v, now), D_SYSREGS);
        case CompareValue(_) => PutMarked(s1, CvalWord(r.physical), CvalWritten(v, s.page[OFFSET]), D_SYSREGS);
        case TimerControl(_) => ControlMarked(s1, r.physical, v);
      }
      MarkedTwice(s, s1, ServeTimer(s, a, r, now).slot);
    }
  }

  lemma {:induction false} ControlMarked(s: Slot, physical: bool, v: u64)
    ensures AllMarked(s, Mark(Store(s, CtlPlace(physical), v), D_SYSREGS))
  {
    PutMarked(s, CNTV_CTL, v, D_SYSREGS);
    var s1 := s.(shadow := s.shadow[SHADOW_CNTP_CTL := v]);
    MarkOnly(s1, D_SYSREGS);
    MarkedTwice(s, s1, Mark(s1, D_SYSREGS));
  }

  /** Whatever the access, every word of the page it changes is marked for the
      kernel, in the part of the state it belongs to. */
  lemma {:induction false} WritesAreMarked(s: Slot, a: Op, e: Env)
    requires a.Valid()
    ensures AllMarked(s, Service(s, a, e).1)
  {
    ServeMarked(s, a, e);
    var r := Serve(s, a, e);
    if r.claimed {
      FinishMarked(r.slot, a, r.value);
      MarkedTwice(s, r.slot, Finish(r.slot, a, r.value));
    }
  }

  lemma {:induction false} FinishMarked(s: Slot, a: Op, v: u64)
    requires a.Valid()
    ensures AllMarked(s, Finish(s, a, v))
  {
  }

  lemma {:induction false} ServeMarked(s: Slot, a: Op, e: Env)
    requires a.Valid()
    ensures AllMarked(s, Serve(s, a, e).slot)
  {
    PickValid(a);
    match Pick(a)
    case Handoff => PutMarked(s, HCR, With(s.page[HCR], NV), D_CONTROLS);
    case Cell(p, mark) =>
      if p.Word? {
        PickMarks(a);
      }
      CellMarked(s, a, p, mark);
    case TranslateAddress =>
      Stage1.TranslateFits(RegimeOf(s), e.memory, Operand(s, a.rt));
      PutMarked(s, PAR, Stage1.Translate(RegimeOf(s), e.memory, Operand(s, a.rt)), D_SYSREGS);
    case TimerValue(_) => TimerMarked(s, a, Pick(a), e.now);
    case TimerControl(_) => TimerMarked(s, a, Pick(a), e.now);
    case CompareValue(_) => TimerMarked(s, a, Pick(a), e.now);
    case NoTimer(_) => TimerMarked(s, a, Pick(a), e.now);
    case _ =>
  }
}
