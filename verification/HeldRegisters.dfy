/** The registers the library keeps for the guest outside the page -- the
  interrupt controller's interface, the Apple, trace and CTRR registers, the
  GL2 bank and the timers' FIQ enable -- over whole runs, with entries, exits
  and calls of the VMM between two accesses (src/ohv_vcpu.cpp:383-427, 530-1202,
  2097-2105).
*/
module HeldRegisters {
  import opened Words
  import opened Slot
  import opened Emulator
  import opened EmulatorLaws
  import opened Exits
  import opened ExitLaws
  import opened Machine

  /** The places kept per vCPU beside the page. */
  predicate IsHeld(q: Place) {
    q.Valid() && (q.Gl2? || q.TimerEnable? || q.Trace? || q.Ctrr? || q.Gic? || q.Apple?)
  }

  /** The turn ends in a trapped register access ... */
  predicate Accesses(e: Event) {
    e.Turn? && e.exit.reason == MSR_TRAP && Ec(e.exit.esr) == EC_SYSREG
  }

  /** ... which writes the register kept at `q`, or reads it. */
  predicate WritesHeld(e: Event, q: Place) {
    Accesses(e) && Writes(Decode(e.exit.esr), q)
  }

  predicate ReadsHeld(e: Event, q: Place) {
    Accesses(e) && Pick(Decode(e.exit.esr)).Cell? && Pick(Decode(e.exit.esr)).place == q && Decode(e.exit.esr).read
  }

  /** X[Rt] as the guest left it. */
  function Given(e: Event): u64
    requires Accesses(e)
  {
    var rt := Decode(e.exit.esr).rt;
    if rt == 31 then 0 else e.guest.page[X(rt)]
  }

  /** The value the guest last wrote to the register, by its own accesses. */
  function LastGiven(m: Machine, es: seq<Event>, asIrq: u64, host: Bank20, q: Place): u64
    requires IsHeld(q)
  {
    if es == [] then Get(m.slot, q)
    else
      var n := |es| - 1;
      if WritesHeld(es[n], q) && !Refuses(Run(m, es[..n], asIrq, host).slot, q) then Given(es[n])
      else LastGiven(m, es[..n], asIrq, host, q)
  }

  lemma {:induction false} SameStores(s: Slot, s': Slot, q: Place)
    requires s'.stores == s.stores && IsHeld(q)
    ensures Get(s', q) == Get(s, q) && (Refuses(s', q) <==> Refuses(s, q)) && (ListsOk(s) ==> ListsOk(s'))
  {
  }

  /** One trapped access, from the state RestoreNv leaves. */
  lemma {:induction false} ServiceHeld(s: Slot, a: Op, e: Env, q: Place)
    requires a.Valid() && ListsOk(s) && IsHeld(q)
    ensures Get(Service(s, a, e).1, q) == if Writes(a, q) && !Refuses(s, q) then Operand(s, a.rt) else Get(s, q)
  {
    var r := Serve(s, a, e);
    FinishKeeps(r.slot, a, r.value, q);
    if Pick(a).Cell? {
      CellAccess(s, a, e, q);
    } else {
      OtherAccess(s, a, e, q);
    }
  }

  lemma {:induction false} TrappedHeld(s: Slot, x: Exit, e: Env, q: Place)
    requires ListsOk(s) && IsHeld(q) && Ec(x.esr) == EC_SYSREG
    ensures var a := Decode(x.esr);
            Get(Trapped(s, x, e).0, q) == if Writes(a, q) && !Refuses(s, q) then Operand(s, a.rt) else Get(s, q)
  {
    var a := Decode(x.esr);
    ServiceHeld(s, a, e, q);
    var s1 := Service(s, a, e).1;
    SynchronousStores(s1, x);
    SameStores(s1, Synchronous(s1, x).0, q);
  }

  lemma {:induction false} HandleHeld(s: Slot, x: Exit, e: Env, q: Place)
    requires ListsOk(s) && IsHeld(q)
    ensures var a := Decode(x.esr);
            Get(Handle(s, x, e).0, q)
            == if x.reason == MSR_TRAP && Ec(x.esr) == EC_SYSREG && Writes(a, q) && !Refuses(s, q)
               then Operand(s, a.rt) else Get(s, q)
  {
    RestoreStores(s, x);
    var s1 := RestoreNv(s, x);
    SameStores(s, s1, q);
    if x.reason == MSR_TRAP && Ec(x.esr) == EC_SYSREG {
      TrappedHeld(s1, x, e, q);
    } else {
      HandleStores(s, x, e);
      SameStores(s, Handle(s, x, e).0, q);
    }
  }

  /** The state an exit finds: the library's registers as before the entry, the
      guest's as it left them. */
  lemma {:induction false} EnteredStores(m: Machine, now: u64, shared: u64, asIrq: u64, g: Guest)
    ensures var s := RunTrap(AtEntry(m, now, shared, asIrq), g).slot;
            s.stores == m.slot.stores && forall n :: 0 <= n < 31 ==> s.page[X(n)] == g.page[X(n)]
  {
    EntryStores(m.slot, now, shared, asIrq);
  }

  lemma {:induction false} StepHeld(m: Machine, e: Event, asIrq: u64, host: Bank20, q: Place)
    requires ListsOk(m.slot) && IsHeld(q)
    ensures Get(Step(m, e, asIrq, host).slot, q)
            == if WritesHeld(e, q) && !Refuses(m.slot, q) then Given(e) else Get(m.slot, q)
  {
    if e.Turn? {
      EnteredStores(m, e.now, e.shared, asIrq, e.guest);
      var s := RunTrap(AtEntry(m, e.now, e.shared, asIrq), e.guest).slot;
      SameStores(m.slot, s, q);
      HandleHeld(s, e.exit, e.env, q);
    } else {
      QuietStores(m, e, asIrq, host);
      SameStores(m.slot, Step(m, e, asIrq, host).slot, q);
    }
  }

  /** Over any run each of these registers holds the value the guest last wrote
      to it, whatever happened in between. */
  lemma {:induction false} HoldsLastGiven(m: Machine, es: seq<Event>, asIrq: u64, host: Bank20, q: Place)
    requires ListsOk(m.slot) && IsHeld(q)
    ensures ListsOk(Run(m, es, asIrq, host).slot)
    ensures Get(Run(m, es, asIrq, host).slot, q) == LastGiven(m, es, asIrq, host, q)
  {
    ListsAlwaysOk(m, es, asIrq, host);
    if es != [] {
      var n := |es| - 1;
      HoldsLastGiven(m, es[..n], asIrq, host, q);
      StepHeld(Run(m, es[..n], asIrq, host), es[n], asIrq, host, q);
    }
  }

  /** And the guest reads it back: a later turn that traps on a read of it, and
      is not refused by a full list, goes on with that value in X[Rt]. */
  lemma {:induction false} GuestReadsBack(m: Machine, es: seq<Event>, t: Event, asIrq: u64, host: Bank20, q: Place)
    requires ListsOk(m.slot) && IsHeld(q) && ReadsHeld(t, q)
    ensures var m1 := Run(m, es, asIrq, host);
            var rt := Decode(t.exit.esr).rt;
            !Refuses(m1.slot, q) && rt != 31 ==>
              Step(m1, t, asIrq, host).slot.page[X(rt)] == LastGiven(m, es, asIrq, host, q)
  {
    HoldsLastGiven(m, es, asIrq, host, q);
    if !Refuses(Run(m, es, asIrq, host).slot, q) && Decode(t.exit.esr).rt != 31 {
      StepReads(Run(m, es, asIrq, host), t, asIrq, host, q);
    }
  }

  lemma {:induction false} StepReads(m: Machine, t: Event, asIrq: u64, host: Bank20, q: Place)
    requires ListsOk(m.slot) && IsHeld(q) && ReadsHeld(t, q)
    requires !Refuses(m.slot, q) && Decode(t.exit.esr).rt != 31
    ensures Step(m, t, asIrq, host).slot.page[X(Decode(t.exit.esr).rt)] == Get(m.slot, q)
  {
    EnteredStores(m, t.now, t.shared, asIrq, t.guest);
    var s := RunTrap(AtEntry(m, t.now, t.shared, asIrq), t.guest).slot;
    SameStores(m.slot, s, q);
    HandleReads(s, t.exit, t.env, q);
  }

  lemma {:induction false} HandleReads(s: Slot, x: Exit, e: Env, q: Place)
    requires ListsOk(s) && IsHeld(q) && x.reason == MSR_TRAP && Ec(x.esr) == EC_SYSREG
    requires var a := Decode(x.esr); Pick(a).Cell? && Pick(a).place == q && a.read && a.rt != 31 && !Refuses(s, q)
    ensures Handle(s, x, e).0.page[X(Decode(x.esr).rt)] == Get(s, q)
  {
    var a := Decode(x.esr);
    var s1 := RestoreNv(s, x);
    RestoreStores(s, x);
    SameStores(s, s1, q);
    CellAccess(s1, a, e, q);
    ReadAnswers(s1, a, e);
  }
}
