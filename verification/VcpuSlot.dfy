/** The vCPU as the library keeps it: an object whose fields and context page
  the calls change in place (src/ohv_internal.h:33-169, src/ohv_vcpu.cpp).

  Every method is proved to leave exactly the state its function on `Slot`
  gives; what those functions promise is proved in the modules that define
  them.
*/
module VcpuSlot {
  import opened Words
  import opened AssocList
  import opened Slot
  import opened Timers
  import opened Gate
  import opened Emulator
  import opened Exits
  import Band
  import Machine
  import Stage1
  import Sysregs

  /** What the vCPUs of a process share: the lowest monitor band any of them
      has been seen in, and the PSTATE field the host does not have. */
  class Process {
    var monitorBand: u64
    var held: u64

    constructor ()
      ensures monitorBand == 0 && held == 0
    {
      monitorBand, held := 0, 0;
    }

    /** Lower the band to `band`, unless it is already there.  The exchange may
        fail for no reason, here `spurious` times. */
    method Publish(band: u64, spurious: nat)
      modifies this`monitorBand
      ensures monitorBand == Published(old(monitorBand), band)
    {
      var left := spurious;
      while true
        invariant monitorBand == old(monitorBand)
        decreases left
      {
        var seen := monitorBand;
        if seen != 0 && seen <= band {
          break;
        }
        if left == 0 {
          monitorBand := band;
          break;
        }
        left := left - 1;
      }
    }
  }

  class Vcpu {
    const process: Process
    const page: array<u64>
    const el2Shadow: array<u64>
    const apple: ShadowList
    const gicIf: ShadowList
    const ctrr: ShadowList
    const id: nat

    var cpsr: u32
    var fpcr: u32
    var fpsr: u32
    var vmmFiq: bool
    var vmmIrq: bool
    var timerFiq: bool
    var timerFiredV: bool
    var timerFiredP: bool
    var sptmBase: u64
    var inWfx: bool
    var gl2Bank: Bank8
    var ctxTrace: Bank3
    var gicIfReady: bool
    var vmTmrFiqEna: u64
    var idRegs: Bank20
    var idRegsLoaded: bool
    var guestAtEl2: bool
    var nvOffForGeret: bool

    /** A slot as its declaration initialises it, over the page the kernel
        maps. */
    constructor (process: Process, ctx: array<u64>, cpsr: u32, fpcr: u32, fpsr: u32, id: nat)
      requires ctx.Length == 2048
      ensures Valid() && fresh(Repr() - {ctx, process}) && page == ctx && this.process == process
      ensures View() == Slot(ctx[..], cpsr, fpcr, fpsr, seq(32, i => 0), Lines(false, false, false, false, false, 0, false),
                             Stores(seq(8, i => 0), [], [0, 0, 0], [], [], false, process.held, 3),
                             seq(20, i => 0), false, false, false, id)
    {
      this.process, page, this.id := process, ctx, id;
      el2Shadow := new u64[32](i => 0);
      apple := new ShadowList(APPLE_CAP);
      gicIf := new ShadowList(GIC_CAP);
      ctrr := new ShadowList(CTRR_CAP);
      this.cpsr, this.fpcr, this.fpsr := cpsr, fpcr, fpsr;
      vmmFiq, vmmIrq, timerFiq, timerFiredV, timerFiredP := false, false, false, false, false;
      sptmBase, inWfx := 0, false;
      gl2Bank, ctxTrace, gicIfReady, vmTmrFiqEna := seq(8, i => 0), [0, 0, 0], false, 3;
      idRegs, idRegsLoaded, guestAtEl2, nvOffForGeret := seq(20, i => 0), false, false, false;
    }

    ghost function Repr(): set<object> {
      {this, process, page, el2Shadow, apple, apple.entries, gicIf, gicIf.entries, ctrr, ctrr.entries}
    }

    /** The arrays have their sizes and share no storage. */
    ghost predicate Valid()
      reads Repr()
    {
      && page.Length == 2048 && el2Shadow.Length == 32 && page != el2Shadow
      && apple.entries.Length == APPLE_CAP && gicIf.entries.Length == GIC_CAP && ctrr.entries.Length == CTRR_CAP
      && apple.Valid() && gicIf.Valid() && ctrr.Valid()
      && apple != gicIf && apple != ctrr && gicIf != ctrr
      && apple.entries != gicIf.entries && apple.entries != ctrr.entries && gicIf.entries != ctrr.entries
    }

    ghost function View(): Slot
      reads Repr()
      requires Valid()
    {
      Slot(page[..], cpsr, fpcr, fpsr, el2Shadow[..],
           Lines(vmmFiq, vmmIrq, timerFiq, timerFiredV, timerFiredP, sptmBase, inWfx),
           Stores(gl2Bank, ctrr.Contents(), ctxTrace, apple.Contents(), gicIf.Contents(), gicIfReady,
                  process.held, vmTmrFiqEna),
           idRegs, idRegsLoaded, guestAtEl2, nvOffForGeret, id)
    }

    // ------------------------------------------------------------- the page

    method Write(i: nat, v: u64)
      requires Valid() && i < 2048
      modifies page
      ensures Valid() && View() == Put(old(View()), i, v)
    {
      page[i] := v;
      assert page[..] == old(page[..])[i := v];
    }

    /** mark_dirty. */
    method MarkDirty(bit: nat)
      requires Valid() && bit < 64
      modifies page
      ensures Valid() && View() == Mark(old(View()), bit)
    {
      Write(DIRTY, With(page[DIRTY], bit));
    }

    method WriteShadow(v: u64)
      requires Valid()
      modifies el2Shadow
      ensures Valid() && View() == old(View()).(shadow := old(View()).shadow[SHADOW_CNTP_CTL := v])
    {
      el2Shadow[SHADOW_CNTP_CTL] := v;
      assert el2Shadow[..] == old(el2Shadow[..])[SHADOW_CNTP_CTL := v];
    }

    // -------------------------------------------------------- the level gate

    method InMonitorImage() returns (r: bool)
      requires Valid()
      ensures r == InMonitor(sptmBase, page[PC])
    {
      if sptmBase == 0 {
        return false;
      }
      r := page[PC] >= sptmBase && page[PC] < Add(sptmBase, MONITOR_SIZE);
    }

    method FiqCanBeTaken() returns (r: bool)
      requires Valid()
      ensures r == FiqTakeable(View())
    {
      var inside := InMonitorImage();
      r := inWfx || (!inside && !Bit(cpsr, PSTATE_F));
    }

    method IrqCanBeTaken() returns (r: bool)
      requires Valid()
      ensures r == IrqTakeable(View())
    {
      var inside := InMonitorImage();
      r := inWfx || (!inside && !Bit(cpsr, PSTATE_I));
    }

    method TimerFiqWanted() returns (r: bool)
      requires Valid()
      ensures r == TimerWanted(View())
    {
      if !(timerFiredV || timerFiredP) {
        return false;
      }
      if sptmBase == 0 {
        return true;
      }
      r := FiqCanBeTaken();
    }

    /** Write one level, only when it differs. */
    method PutLevel(bit: nat, want: bool)
      requires Valid() && bit < 64
      modifies page
      ensures Valid() && View() == SetLevel(old(View()), bit, want)
    {
      var hcr := page[HCR];
      if Bit(hcr, bit) == want {
        return;
      }
      Write(HCR, WriteBit(hcr, bit, want));
      MarkDirty(D_CONTROLS);
    }

    /** ohv_set_fiq_level. */
    method UpdateFiqLevel(asIrq: u64)
      requires Valid()
      modifies this, page
      ensures Valid() && View() == SetFiqLevel(old(View()), asIrq)
    {
      var wanted := TimerFiqWanted();
      var open := FiqCanBeTaken();
      timerFiq := wanted && !TimerAsIrq(asIrq, id);
      var vmm := vmmFiq && (sptmBase == 0 || open);
      PutLevel(VF, vmm || timerFiq);
    }

    /** ohv_set_irq_level. */
    method UpdateIrqLevel(asIrq: u64)
      requires Valid()
      modifies page
      ensures Valid() && View() == SetIrqLevel(old(View()), asIrq)
    {
      var wanted := TimerFiqWanted();
      var open := IrqCanBeTaken();
      var timerIrq := TimerAsIrq(asIrq, id) && wanted;
      PutLevel(VI, (vmmIrq || timerIrq) && (sptmBase == 0 || open));
    }

    /** What the VMM asks of a line. */
    method Hear(fiq: bool, pending: bool)
      requires Valid()
      modifies this`vmmFiq, this`vmmIrq
      ensures Valid()
      ensures View() == old(View()).(lines := if fiq then old(View()).lines.(vmmFiq := pending)
                                              else old(View()).lines.(vmmIrq := pending))
    {
      if fiq {
        vmmFiq := pending;
      } else {
        vmmIrq := pending;
      }
    }

    method Settle(parked: bool)
      requires Valid()
      modifies this`inWfx
      ensures Valid() && View() == old(View()).(lines := old(View()).lines.(parked := parked))
    {
      inWfx := parked;
    }

    /** hv_vcpu_set_pending_interrupt. */
    method SetPendingInterrupt(fiq: bool, pending: bool, asIrq: u64)
      requires Valid()
      modifies this, page
      ensures Valid() && View() == SetPending(old(View()), fiq, pending, asIrq)
    {
      Hear(fiq, pending);
      if fiq {
        UpdateFiqLevel(asIrq);
      } else {
        UpdateIrqLevel(asIrq);
      }
    }

    /** ohv_vcpu_set_parked. */
    method Park(parked: bool, asIrq: u64)
      requires Valid()
      modifies this, page
      ensures Valid() && View() == SetParked(old(View()), parked, asIrq)
    {
      if inWfx == parked {
        return;
      }
      Settle(parked);
      UpdateFiqLevel(asIrq);
      UpdateIrqLevel(asIrq);
    }

    /** ohv_note_image_band. */
    method NoteImageBand(spurious: nat)
      requires Valid()
      modifies this, process`monitorBand
      ensures Valid() && View() == NoteBand(old(View()), old(process.monitorBand))
      ensures process.monitorBand == SharedAfter(old(sptmBase), old(process.monitorBand), page[PC])
    {
      if sptmBase == 0 {
        sptmBase := process.monitorBand;
      }
      if page[PC] < Band.KERNEL_VA {
        return;
      }
      var band := Band.BandOf(page[PC]);
      if sptmBase == 0 || band < sptmBase {
        sptmBase := band;
        process.Publish(band, spurious);
      }
    }

    /** Keep ISTATUS, writing only a change, and say whether it fired. */
    method SweepControl(which: nat, ctl: u64, cval: u64, now: u64) returns (fired: bool)
      requires Valid() && which < 2
      modifies page, el2Shadow
      ensures Valid() && fired == Fired(ctl, cval, now)
      ensures View() == if Rewritten(ctl, cval, now)
                        then Mark(Store(old(View()), CtlPlace(which == 1), Swept(ctl, cval, now)), D_SYSREGS)
                        else old(View())
    {
      fired := false;
      if Bit(ctl, ENABLE) {
        if Due(cval, now) {
          if !Bit(ctl, ISTATUS) {
            PutControl(which, With(ctl, ISTATUS));
          }
          fired := !Bit(ctl, IMASK);
        } else if Bit(ctl, ISTATUS) {
          PutControl(which, Without(ctl, ISTATUS));
        }
      }
    }

    /** One timer of the sweep: 0 is the virtual one, 1 the physical one. */
    method SweepTimer(which: nat, now: u64)
      requires Valid() && which < 2
      modifies this, page, el2Shadow
      ensures Valid()
      ensures View() == if which == 0 then SweepVirtual(old(View()), now) else SweepPhysical(old(View()), now)
    {
      var ctl := if which == 1 then el2Shadow[SHADOW_CNTP_CTL] else page[CNTV_CTL];
      var cval := if which == 1 then page[CNTP_CVAL] else page[CNTV_CVAL];
      var fired := SweepControl(which, ctl, cval, now);
      if which == 1 {
        timerFiredP := fired;
      } else {
        timerFiredV := fired;
      }
    }

    method PutControl(which: nat, ctl: u64)
      requires Valid() && which < 2
      modifies page, el2Shadow
      ensures Valid()
      ensures View() == Mark(Store(old(View()), CtlPlace(which == 1), ctl), D_SYSREGS)
    {
      if which == 1 {
        WriteShadow(ctl);
      } else {
        Write(CNTV_CTL, ctl);
      }
      MarkDirty(D_SYSREGS);
    }

    /** ohv_expire_timers. */
    method Expire(now: u64, spurious: nat, asIrq: u64)
      requires Valid()
      modifies this, process`monitorBand, page, el2Shadow
      ensures Valid() && View() == ExpireTimers(old(View()), now, old(process.monitorBand), asIrq)
      ensures process.monitorBand == SharedAfter(old(sptmBase), old(process.monitorBand), old(page[PC]))
    {
      NoteImageBand(spurious);
      SweepTimers(now);
      UpdateFiqLevel(asIrq);
      UpdateIrqLevel(asIrq);
    }

    /** The loop over the two timers. */
    method SweepTimers(now: u64)
      requires Valid()
      modifies this, page, el2Shadow
      ensures Valid() && View() == SweepPhysical(SweepVirtual(old(View()), now), now)
    {
      ghost var s := View();
      var which := 0;
      while which < 2
        invariant which <= 2 && Valid()
        invariant View() == if which == 0 then s else if which == 1 then SweepVirtual(s, now)
                            else SweepPhysical(SweepVirtual(s, now), now)
      {
        SweepTimer(which, now);
        which := which + 1;
      }
    }

    // ------------------------------------------------------ trapped accesses

    /** What a list access answers, as the register's value. */
    ghost predicate Answered(s: Slot, p: Place, write: Option<u64>, r: Option<u64>)
      requires p.Valid()
    {
      if Use(s, p, write).None? then r == None
      else r == Some(if write.Some? then write.value else Get(s, p))
    }

    method UseCtrr(k: nat, write: Option<u64>) returns (r: Option<u64>)
      requires Valid() && 2 <= k <= 5
      modifies ctrr, ctrr.entries
      ensures Valid() && Answered(old(View()), Ctrr(k), write, r)
      ensures View() == if r == None then old(View()) else Use(old(View()), Ctrr(k), write).value
    {
      r := ctrr.Use(k, write);
    }

    method UseApple(k: nat, write: Option<u64>) returns (r: Option<u64>)
      requires Valid()
      modifies apple, apple.entries
      ensures Valid() && Answered(old(View()), Apple(k), write, r)
      ensures View() == if r == None then old(View()) else Use(old(View()), Apple(k), write).value
    {
      r := apple.Use(k, write);
    }

    /** gic_if_slot: the list gets its one entry at the first access. */
    method UseGic(k: nat, write: Option<u64>) returns (r: Option<u64>)
      requires Valid()
      modifies this, gicIf, gicIf.entries
      ensures Valid() && Answered(old(View()), Gic(k), write, r)
      ensures View() == if r == None then old(View()) else Use(old(View()), Gic(k), write).value
    {
      if !gicIfReady {
        gicIfReady := true;
        gicIf.Start(ICC_SRE_EL1, 7);
      }
      r := gicIf.Use(k, write);
    }

    /** A place outside the lists, read ... */
    method ReadField(p: Place) returns (v: u64)
      requires Valid() && p.Valid() && !p.Ctrr? && !p.Gic? && !p.Apple?
      ensures v == Get(View(), p)
    {
      v := match p
        case Word(i) => page[i]
        case ShadowCtl => el2Shadow[SHADOW_CNTP_CTL]
        case Gl2(i) => gl2Bank[i]
        case TimerEnable => vmTmrFiqEna
        case Pstate => process.held
        case Trace(i) => ctxTrace[i];
    }

    /** ... and written. */
    method WriteField(p: Place, v: u64)
      requires Valid() && p.Valid() && !p.Ctrr? && !p.Gic? && !p.Apple?
      modifies this, process`held, page, el2Shadow
      ensures Valid() && View() == Store(old(View()), p, v)
    {
      match p
      case Word(i) => Write(i, v);
      case ShadowCtl => WriteShadow(v);
      case Gl2(i) => WriteGl2(i, v);
      case TimerEnable => WriteTimerEnable(v);
      case Pstate => WritePstate(v);
      case Trace(i) => WriteTrace(i, v);
    }

    method WriteGl2(i: nat, v: u64)
      requires Valid() && i < 8
      modifies this
      ensures Valid() && View() == Store(old(View()), Gl2(i), v)
    {
      gl2Bank := gl2Bank[i := v];
    }

    method WriteTimerEnable(v: u64)
      requires Valid()
      modifies this
      ensures Valid() && View() == Store(old(View()), TimerEnable, v)
    {
      vmTmrFiqEna := v;
    }

    method WritePstate(v: u64)
      requires Valid()
      modifies process`held
      ensures Valid() && View() == Store(old(View()), Pstate, v)
    {
      process.held := v;
    }

    method WriteTrace(i: nat, v: u64)
      requires Valid() && i < 3
      modifies this
      ensures Valid() && View() == Store(old(View()), Trace(i), v)
    {
      ctxTrace := ctxTrace[i := v];
    }

    /** Read or write a register's place. */
    method UsePlace(p: Place, write: Option<u64>) returns (r: Option<u64>)
      requires Valid() && p.Valid()
      modifies Repr()
      ensures Valid() && Answered(old(View()), p, write, r)
      ensures View() == if r == None then old(View()) else Use(old(View()), p, write).value
    {
      match p
      case Ctrr(k) => r := UseCtrr(k, write);
      case Gic(k) => r := UseGic(k, write);
      case Apple(k) => r := UseApple(k, write);
      case _ =>
        if write.None? {
          var v := ReadField(p);
          r := Some(v);
        } else {
          WriteField(p, write.value);
          r := write;
        }
    }

    method RegisterOperand(rt: nat) returns (v: u64)
      requires Valid() && rt < 32
      ensures v == Operand(View(), rt)
    {
      v := if rt == 31 then 0 else page[X(rt)];
    }

    method AccessCell(a: Op, p: Place, mark: Option<nat>) returns (ok: bool, v: u64)
      requires Valid() && a.Valid() && p.Valid() && (mark.Some? ==> mark.value < 64)
      modifies Repr()
      ensures Valid() && Served(ok, View(), v) == ServeCell(old(View()), a, p, mark)
    {
      var operand := RegisterOperand(a.rt);
      var r := UsePlace(p, if a.read then None else Some(operand));
      if r.None? {
        return false, 0;
      }
      if a.read {
        return true, r.value;
      }
      if mark.Some? {
        MarkDirty(mark.value);
      }
      return true, 0;
    }

    /** The timers: TVAL, CTL and CVAL of one of the pair. */
    method AccessTimer(a: Op, r: Reg, now: u64) returns (ok: bool, v: u64)
      requires Valid() && a.Valid()
      requires r.TimerValue? || r.CompareValue? || r.TimerControl? || r.NoTimer?
      modifies Repr()
      ensures Valid() && Served(ok, View(), v) == ServeTimer(old(View()), a, r, now)
    {
      var physical := r.physical;
      var cval := page[CvalWord(physical)];
      var ctl := if physical then el2Shadow[SHADOW_CNTP_CTL] else page[CNTV_CTL];
      var offset := page[OFFSET];
      var operand := RegisterOperand(a.rt);
      if physical {
        Write(CNTP_CTL, 0);
      }
      if r.NoTimer? {
        return false, 0;
      }
      if a.read {
        v := if r.TimerValue? then TvalRead(cval, now) else if r.TimerControl? then ctl else CvalRead(cval, offset);
        return true, v;
      }
      if r.TimerControl? {
        PutControl(if physical then 1 else 0, operand);
      } else {
        Write(CvalWord(physical), if r.TimerValue? then TvalWritten(operand, now) else CvalWritten(operand, offset));
        MarkDirty(D_SYSREGS);
      }
      return true, 0;
    }

    /** AT: the walk's answer goes to PAR_EL1. */
    method AccessTranslation(rt: nat, memory: Stage1.Memory)
      requires Valid() && rt < 32
      modifies page
      ensures Valid()
      ensures var s := old(View());
              var par := Stage1.Translate(RegimeOf(s), memory, Operand(s, rt));
              par < TWO64 && View() == Mark(Put(s, PAR, par), D_SYSREGS)
    {
      var va := RegisterOperand(rt);
      var regime := Stage1.Regime(page[TTBR0], page[TTBR1], page[TCR], page[SCTLR]);
      Stage1.TranslateFits(regime, memory, va);
      var par := Stage1.TranslateStage1(regime, memory, va);
      Write(PAR, par);
      MarkDirty(D_SYSREGS);
    }

    /** The accesses that change nothing: the version, the caches and counters,
        maintenance, and those that are not the library's. */
    method Answer(a: Op, e: Env) returns (ok: bool, v: u64)
      requires Valid() && a.Valid()
      requires || Pick(a).AmxVersion? || Pick(a).CacheLevels? || Pick(a).CacheSize? || Pick(a).Counter?
               || Pick(a).Frequency? || Pick(a).Maintenance? || Pick(a).NotOurs?
      ensures Served(ok, View(), v) == Serve(View(), a, e)
    {
      match Pick(a)
      case CacheLevels => ok, v := a.read, e.clidr;
      case CacheSize =>
        var level := page[CSSELR] / 2 % 8;
        ok, v := a.read, if page[CSSELR] % 2 == 1 then e.instr[level] else e.data[level];
      case Counter(_) => ok, v := true, GuestCount(e.now, page[OFFSET]);
      case Frequency => ok, v := true, e.freq;
      case AmxVersion => ok, v := true, 1;
      case Maintenance => ok, v := true, 0;
      case NotOurs => ok, v := false, 0;
    }

    /** The monitor's handoff: the guest is at EL2, with NV armed. */
    method TakeOver()
      requires Valid()
      modifies this, page
      ensures Valid() && View() == ArmNv(old(View())).(atEl2 := true)
    {
      ArmTraps();
      Believe(true);
    }

    /** The access itself, without the operand and the step. */
    method Access(a: Op, e: Env) returns (ok: bool, v: u64)
      requires Valid() && a.Valid()
      modifies Repr()
      ensures Valid() && Served(ok, View(), v) == Serve(old(View()), a, e)
    {
      PickValid(a);
      ok, v := true, 0;
      match Pick(a)
      case Handoff => TakeOver();
      case Cell(p, mark) => ok, v := AccessCell(a, p, mark);
      case TranslateAddress => AccessTranslation(a.rt, e.memory);
      case TimerValue(_) => ok, v := AccessTimer(a, Pick(a), e.now);
      case CompareValue(_) => ok, v := AccessTimer(a, Pick(a), e.now);
      case TimerControl(_) => ok, v := AccessTimer(a, Pick(a), e.now);
      case NoTimer(_) => ok, v := AccessTimer(a, Pick(a), e.now);
      case _ => ok, v := Answer(a, e);
    }

    /** service_nv2_access. */
    method ServiceNv2Access(a: Op, e: Env) returns (ok: bool)
      requires Valid() && a.Valid()
      modifies Repr()
      ensures Valid() && (ok, View()) == Service(old(View()), a, e)
    {
      var v;
      ok, v := Access(a, e);
      if ok {
        if Answers(a) && a.rt != 31 {
          Write(X(a.rt), v);
        }
        Write(PC, Add(page[PC], 4));
      }
    }

    // ------------------------------------------------------ the virtual EL2

    method ArmTraps()
      requires Valid()
      modifies page
      ensures Valid() && View() == ArmNv(old(View()))
    {
      Write(HCR, With(page[HCR], NV));
      MarkDirty(D_CONTROLS);
    }

    method DropTraps()
      requires Valid()
      modifies page
      ensures Valid() && View() == DropNv(old(View()))
    {
      Write(HCR, Without(page[HCR], NV));
      MarkDirty(D_CONTROLS);
    }

    /** enter_guest_el2. */
    method EnterEl2(esr: u64, returnPc: u64)
      requires Valid()
      modifies this, page
      ensures Valid() && View() == EnterGuestEl2(old(View()), esr, returnPc)
    {
      var vbar := page[VBAR_EL2];
      Write(ELR, returnPc);
      Write(ESR, esr);
      Write(SPSR, cpsr);
      MarkDirty(D_SYSREGS);
      Write(PC, Add(vbar, LOWER64_SYNC));
      WriteCpsr(ENTRY_PSTATE);
      TakeOver();
    }

    /** The guarded return: the pair where a hardware ERET looks, and NV off. */
    method LeaveEretToHardware()
      requires Valid()
      modifies this, page
      ensures Valid() && View() == LeaveToHardware(old(View()))
    {
      var elr, spsr := page[ELR_GL1], page[SPSR_GL1];
      Write(ELR, elr);
      Write(SPSR, spsr);
      MarkDirty(D_SYSREGS);
      DropTraps();
      nvOffForGeret := true;
    }

    /** The emulated return. */
    method CompleteEret()
      requires Valid()
      modifies this, page
      ensures Valid() && View() == EmulateEret(old(View()))
    {
      var elr, spsr := page[ELR], page[SPSR];
      var mode := Mode(spsr);
      Write(PC, elr);
      WriteCpsr(spsr % 0x1_0000_0000);
      if mode == 4 || mode == 5 {
        Believe(false);
        DropTraps();
      } else if mode == 8 || mode == 9 {
        WriteCpsr((spsr - mode + (mode - 4)) % 0x1_0000_0000);
      }
    }

    method WriteCpsr(v: u32)
      requires Valid()
      modifies this
      ensures Valid() && View() == old(View()).(cpsr := v)
    {
      cpsr := v;
    }

    /** The level the guest believes in. */
    method Believe(el2: bool)
      requires Valid()
      modifies this
      ensures Valid() && View() == old(View()).(atEl2 := el2)
    {
      guestAtEl2 := el2;
    }

    method RestoreTraps(x: Exit)
      requires Valid()
      modifies this, page
      ensures Valid() && View() == RestoreNv(old(View()), x)
    {
      if nvOffForGeret && Ec(x.esr) == EC_GEXIT {
        ArmTraps();
        nvOffForGeret := false;
      }
      if page[PC] >= Band.KERNEL_VA && !Bit(page[HCR], NV) {
        ArmTraps();
      }
    }

    /** The guest hypervisor's own traps, and what is left for the VMM. */
    method HandleSynchronous(x: Exit) returns (act: Exits.Action)
      requires Valid()
      modifies this, page
      ensures Valid() && (View(), act) == Synchronous(old(View()), x)
    {
      if Ec(x.esr) == EC_HVC && !guestAtEl2 {
        EnterEl2(x.esr, Add(page[PC], 4));
        return KeepRunning;
      }
      if IsEret(x) {
        Write(ELR_GL1, x.elrGl1);
        Write(SPSR_GL1, x.spsrGl1);
        if Guarded(x.spsrGl1) {
          LeaveEretToHardware();
          return KeepRunning;
        }
        if guestAtEl2 {
          CompleteEret();
          return KeepRunning;
        }
      }
      act := Report(x, Exception, Syndrome(x));
    }

    method HandleTrap(x: Exit, e: Env) returns (act: Exits.Action)
      requires Valid()
      modifies Repr()
      ensures Valid() && (View(), act) == Trapped(old(View()), x, e)
    {
      if Ec(x.esr) == EC_SYSREG {
        var ok := ServiceNv2Access(Decode(x.esr), e);
        if ok {
          return KeepRunning;
        }
      }
      act := HandleSynchronous(x);
    }

    method HandleInterrupt(x: Exit) returns (act: Exits.Action)
      requires Valid()
      modifies page
      ensures Valid() && (View(), act) == PhysicalInterrupt(old(View()), x)
    {
      if !Bit(page[TIMER], 0) && page[CNTV_CTL] == 5 {
        Write(TIMER, With(page[TIMER], 0));
        return Report(x, VtimerActivated, x.esr);
      }
      act := Report(x, Unknown, x.esr);
    }

    /** exit_from_ro. */
    method ExitFromRo(x: Exit, e: Env) returns (act: Exits.Action)
      requires Valid()
      modifies Repr()
      ensures Valid() && (View(), act) == Handle(old(View()), x, e)
    {
      RestoreTraps(x);
      if x.reason == 0 {
        act := Report(x, Canceled, x.esr);
      } else if x.reason == 2 || x.reason == 7 || x.reason == 11 || x.reason == 12 {
        act := KeepRunning;
      } else if x.reason == 3 || x.reason == 4 {
        act := HandleInterrupt(x);
      } else if x.reason == MSR_TRAP {
        act := HandleTrap(x, e);
      } else if x.reason == SYNC {
        act := HandleSynchronous(x);
      } else if x.reason == 6 {
        act := Report(x, Exception, Syndrome(x));
      } else {
        act := Report(x, Unknown, x.esr);
      }
    }

    // --------------------------------------------------- the VMM's registers

    /** hv_vcpu_get_reg. */
    method GetRegister(n: nat) returns (status: Sysregs.Status, v: u64)
      requires Valid()
      ensures (status, v) == Sysregs.GetReg(View(), n)
    {
      if n == Sysregs.R_CPSR {
        return Sysregs.Success, cpsr;
      } else if n == Sysregs.R_FPCR {
        return Sysregs.Success, fpcr;
      } else if n == Sysregs.R_FPSR {
        return Sysregs.Success, fpsr;
      } else if n == Sysregs.R_PC {
        return Sysregs.Success, page[PC];
      } else if n > Sysregs.R_PC {
        return Sysregs.BadArgument, 0;
      }
      return Sysregs.Success, page[X(n)];
    }

    /** hv_vcpu_set_reg. */
    method SetRegister(n: nat, v: u64, nested: bool) returns (status: Sysregs.Status)
      requires Valid()
      modifies this, page
      ensures Valid() && (status, View()) == Sysregs.SetReg(old(View()), n, v, nested)
    {
      status := Sysregs.Success;
      if n == Sysregs.R_CPSR {
        cpsr := v % 0x1_0000_0000;
        if nested && NamesEl2(cpsr) {
          cpsr := cpsr - Mode(cpsr) + (Mode(cpsr) - 4);
        }
      } else if n == Sysregs.R_FPCR {
        fpcr := v % 0x1_0000_0000;
      } else if n == Sysregs.R_FPSR {
        fpsr := v % 0x1_0000_0000;
      } else if n == Sysregs.R_PC {
        Write(PC, v);
      } else if n > Sysregs.R_PC {
        status := Sysregs.BadArgument;
      } else {
        Write(X(n), v);
      }
    }

    method LoadHostIds(host: Bank20)
      requires Valid()
      modifies this
      ensures Valid() && View() == Sysregs.LoadIds(old(View()), host)
    {
      if !idRegsLoaded {
        idRegs := host;
        idRegsLoaded := true;
      }
    }

    /** sysreg_access, reading. */
    method GetSystemRegister(enc: nat, host: Bank20, k: Sysregs.Kernel) returns (status: Sysregs.Status, v: u64)
      requires Valid()
      modifies this
      ensures Valid()
      ensures (status, v, View()) == if Sysregs.Refused(enc, k) then (Sysregs.SyncFailed, 0, old(View()))
                                     else Sysregs.GetSysReg(old(View()), enc, host)
    {
      Sysregs.LookupPlaced(enc);
      match Sysregs.Lookup(enc)
      case None => return Sysregs.Unsupported, 0;
      case Some(loc) =>
        if Sysregs.AsksSync(loc, k) && !k.synced {
          return Sysregs.SyncFailed, 0;
        }
        status := Sysregs.Success;
        v := ReadLocation(loc, host);
    }

    method ReadLocation(loc: Sysregs.Loc, host: Bank20) returns (v: u64)
      requires Valid() && Sysregs.InRange(loc)
      modifies this
      ensures Valid() && v == Sysregs.ReadAt(old(View()), loc, host)
      ensures View() == if loc.IdSlot? then Sysregs.LoadIds(old(View()), host) else old(View())
    {
      match loc
      case Page(w, _) => v := page[w];
      case ShadowSlot(i) => v := el2Shadow[i];
      case IdSlot(i) =>
        LoadHostIds(host);
        v := idRegs[i];
      case Nowhere => v := 0;
    }

    method WriteLocation(loc: Sysregs.Loc, v: u64, host: Bank20)
      requires Valid() && Sysregs.InRange(loc)
      modifies this, page, el2Shadow
      ensures Valid() && View() == Sysregs.WriteAt(old(View()), loc, v, host)
    {
      match loc
      case Page(w, mark) =>
        Write(w, v);
        if mark.Some? {
          MarkDirty(mark.value);
        }
      case ShadowSlot(i) =>
        el2Shadow[i] := v;
        assert el2Shadow[..] == old(el2Shadow[..])[i := v];
      case IdSlot(i) =>
        LoadHostIds(host);
        idRegs := idRegs[i := v];
      case Nowhere =>
    }

    /** sysreg_access, writing. */
    method SetSystemRegister(enc: nat, v: u64, host: Bank20, k: Sysregs.Kernel) returns (status: Sysregs.Status)
      requires Valid()
      modifies this, page, el2Shadow
      ensures Valid()
      ensures (status, View()) == if Sysregs.Refused(enc, k) then (Sysregs.SyncFailed, old(View()))
                                  else Sysregs.SetSysReg(old(View()), enc, v, host)
    {
      Sysregs.LookupPlaced(enc);
      var loc := Sysregs.Lookup(enc);
      if loc.None? {
        return Sysregs.Unsupported;
      }
      if Sysregs.AsksSync(loc.value, k) && !k.synced {
        return Sysregs.SyncFailed;
      }
      var stored := if enc == Sysregs.CPTR_EL2 then With(With(v, 20), 21) else v;
      WriteLocation(loc.value, stored, host);
      return Sysregs.Success;
    }

    /** control_field_access, writing. */
    method SetControlField(field: nat, v: u64) returns (status: Sysregs.Status)
      requires Valid()
      modifies page
      ensures Valid() && (status, View()) == Machine.SetControl(old(View()), field, v)
    {
      var w := Machine.ControlWord(field);
      if w.None? {
        return Sysregs.BadArgument;
      }
      if field != Machine.APSTS_FIELD {
        Write(w.value, v);
        MarkDirty(D_CONTROLS);
      }
      return Sysregs.Success;
    }

    // ---------------------------------------------------------- the snapshot

    /** The general registers into a vector, one by one. */
    method CollectGenerals() returns (gpr: seq<u64>)
      requires Valid()
      ensures gpr == Sysregs.Generals(View(), 32)
    {
      gpr := [];
      var i := 0;
      while i < 32
        invariant i <= 32 && gpr == Sysregs.Generals(View(), i)
      {
        var _, v := GetRegister(i);
        gpr := gpr + [v];
        i := i + 1;
      }
    }

    /** The listed registers with their values, up to the first that fails.
        `ks` is the kernel's answer at each access. */
    method CollectSystemRegisters(list: seq<nat>, host: Bank20, ks: seq<Sysregs.Kernel>)
      returns (done: nat, pairs: seq<(nat, u64)>)
      requires Valid() && |ks| == |list|
      modifies this
      ensures Valid() && (View() == old(View()) || View() == Sysregs.LoadIds(old(View()), host))
      ensures done <= |list| && (done < |list| ==> Sysregs.Fails(list[done], ks[done]))
      ensures pairs == Sysregs.Values(old(View()), list[..done], host)
    {
      ghost var s := View();
      done, pairs := 0, [];
      while done < |list|
        invariant done <= |list| && Valid()
        invariant View() == s || View() == Sysregs.LoadIds(s, host)
        invariant pairs == Sysregs.Values(s, list[..done], host)
      {
        Sysregs.LoadedReads(s, list[done], host);
        var status, v := GetSystemRegister(list[done], host, ks[done]);
        if status != Sysregs.Success {
          return;
        }
        Sysregs.OneMore(s, list, done, host);
        pairs := pairs + [(list[done], v)];
        done := done + 1;
      }
    }

    /** Vcpu::snapshot; it fails at the first register that does. */
    method Snapshot(list: seq<nat>, host: Bank20, ks: seq<Sysregs.Kernel>) returns (snap: Option<Sysregs.Snapshot>)
      requires Valid() && |ks| == |list|
      modifies this
      ensures Valid() && (View() == old(View()) || View() == Sysregs.LoadIds(old(View()), host))
      ensures snap.None? ==> exists i :: 0 <= i < |list| && Sysregs.Fails(list[i], ks[i])
      ensures snap.Some? ==> snap == Some(Sysregs.Take(old(View()), list, host))
    {
      var gpr := CollectGenerals();
      var pstate, fpc, fps := cpsr, fpcr, fpsr;
      var done, pairs := CollectSystemRegisters(list, host, ks);
      if done < |list| {
        return None;
      }
      assert list[..done] == list;
      snap := Some(Sysregs.Snapshot.Snapshot(gpr, pairs, pstate, fpc, fps));
    }

    /** Vcpu::restore; it stops at the first register that fails. */
    method RestoreSnapshot(snap: Sysregs.Snapshot, nested: bool, host: Bank20, ks: seq<Sysregs.Kernel>)
      returns (done: nat)
      requires Valid() && |ks| == |snap.sysregs|
      modifies this, page, el2Shadow
      ensures Valid() && done <= |snap.sysregs|
      ensures done < |snap.sysregs| ==> Sysregs.Fails(snap.sysregs[done].0, ks[done])
      ensures View() == Sysregs.Restore(old(View()), snap.(sysregs := snap.sysregs[..done]), nested, host)
    {
      SetGenerals(snap.gpr, nested);
      var _ := SetRegister(Sysregs.R_CPSR, snap.cpsr, nested);
      var _ := SetRegister(Sysregs.R_FPCR, snap.fpcr, nested);
      var _ := SetRegister(Sysregs.R_FPSR, snap.fpsr, nested);
      done := SetSystemRegisters(snap.sysregs, host, ks);
    }

    /** The vector back into the general registers. */
    method SetGenerals(gpr: seq<u64>, nested: bool)
      requires Valid()
      modifies this, page
      ensures Valid() && View() == Sysregs.SetGenerals(old(View()), gpr, if |gpr| < 32 then |gpr| else 32, nested)
    {
      ghost var s := View();
      var i := 0;
      while i <= 31 && i < |gpr|
        invariant i <= 32 && i <= |gpr| && Valid()
        invariant View() == Sysregs.SetGenerals(s, gpr, i, nested)
      {
        var _ := SetRegister(i, gpr[i], nested);
        i := i + 1;
      }
    }

    /** set_sys_regs. */
    method SetSystemRegisters(pairs: seq<(nat, u64)>, host: Bank20, ks: seq<Sysregs.Kernel>) returns (done: nat)
      requires Valid() && |ks| == |pairs|
      modifies this, page, el2Shadow
      ensures Valid() && done <= |pairs| && (done < |pairs| ==> Sysregs.Fails(pairs[done].0, ks[done]))
      ensures View() == Sysregs.SetSysRegs(old(View()), pairs[..done], host)
    {
      ghost var s := View();
      done := 0;
      while done < |pairs|
        invariant done <= |pairs| && Valid()
        invariant View() == Sysregs.SetSysRegs(s, pairs[..done], host)
      {
        var status := SetSystemRegister(pairs[done].0, pairs[done].1, host, ks[done]);
        if status != Sysregs.Success {
          return;
        }
        assert pairs[..done + 1][..done] == pairs[..done];
        done := done + 1;
      }
    }
  }
}
