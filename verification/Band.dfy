/** Learning where the monitor images are (src/ohv_vcpu.cpp:2952-2986).

  Every vCPU thread runs ohv_note_image_band against one shared word.  Each
  atomic load and each compare-exchange is one step, and compare_exchange_weak
  may fail for no reason.
*/
module Band {
  import opened Words

  /** Addresses from here up belong to the kernel collection. */
  const KERNEL_VA: u64 := 0xffff_fff0_0000_0000

  /** `pc & ~0xfffffff`. */
  function BandOf(pc: u64): u64 {
    pc - pc % 0x1000_0000
  }

  /** The 256 MiB band an address lies in. */
  lemma {:induction false} BandIsFloor(pc: u64, b: nat)
    ensures b == BandOf(pc) <==> b % 0x1000_0000 == 0 && b <= pc < b + 0x1000_0000
  {
    Quotient(0x1000_0000, pc / 0x1000_0000, 0);
    if b % 0x1000_0000 == 0 && b <= pc < b + 0x1000_0000 {
      Quotient(0x1000_0000, b / 0x1000_0000, pc - b);
    }
  }

  datatype Place =
    | Ready
    | Looping(band: u64)              // about to load the shared word
    | Comparing(band: u64, seen: u64) // about to compare and exchange

  /** `base` is VcpuSlot::sptm_base. */
  datatype Thread = Thread(base: u64, place: Place)

  datatype State = State(shared: u64, threads: seq<Thread>)

  datatype Action =
    | Note(pc: u64)   // enter with the guest's pc; loads the shared word if base is 0
    | Load
    | Exchange        // the compare-exchange goes through
    | Fail            // it fails because the word has changed
    | Spurious        // it fails anyway

  datatype Event = Event(thread: nat, action: Action)

  predicate CanDo(shared: u64, t: Thread, a: Action) {
    match a
    case Note(_) => t.place.Ready?
    case Load => t.place.Looping?
    case Exchange => t.place.Comparing? && shared == t.place.seen
    case Fail => t.place.Comparing? && shared != t.place.seen
    case Spurious => t.place.Comparing?
  }

  function Do(shared: u64, t: Thread, a: Action): Thread
    requires CanDo(shared, t, a)
  {
    match a
    case Note(pc) =>
      var base := if t.base == 0 then shared else t.base;
      if pc < KERNEL_VA then Thread(base, Ready)
      else if base == 0 || BandOf(pc) < base then Thread(BandOf(pc), Looping(BandOf(pc)))
      else Thread(base, Ready)
    case Load =>
      var band := t.place.band;
      if shared != 0 && shared <= band then t.(place := Ready) else t.(place := Comparing(band, shared))
    case Exchange => t.(place := Ready)
    case Fail => t.(place := Looping(t.place.band))
    case Spurious => t.(place := Looping(t.place.band))
  }

  ghost predicate Possible(s: State, e: Event) {
    e.thread < |s.threads| && CanDo(s.shared, s.threads[e.thread], e.action)
  }

  function Next(s: State, e: Event): State
    requires Possible(s, e)
  {
    var t := s.threads[e.thread];
    State(if e.action == Exchange then t.place.band else s.shared,
          s.threads[e.thread := Do(s.shared, t, e.action)])
  }

  ghost predicate IsRun(states: seq<State>, events: seq<Event>) {
    && |states| == |events| + 1
    && (forall i :: 0 <= i < |events| ==> Possible(states[i], events[i]) && states[i + 1] == Next(states[i], events[i]))
    && states[0].shared == 0
    && forall t :: 0 <= t < |states[0].threads| ==> states[0].threads[t] == Thread(0, Ready)
  }

  /** The bands of all kernel addresses that any vCPU was seen at. */
  ghost function Observed(events: seq<Event>): set<u64> {
    if events == [] then {}
    else
      var a := events[|events| - 1].action;
      Observed(events[..|events| - 1]) +
      if a.Note? && a.pc >= KERNEL_VA then {BandOf(a.pc)} else {}
  }

  ghost predicate Quiet(s: State) {
    forall t :: 0 <= t < |s.threads| ==> s.threads[t].place.Ready?
  }

  // ------------------------------------------------------------ invariants

  predicate Reaches(shared: u64, band: u64) {
    shared != 0 && shared <= band
  }

  /** What a thread may rely on between its own steps. */
  ghost predicate ThreadInv(shared: u64, t: Thread, observed: set<u64>) {
    && (t.base != 0 ==> t.base in observed)
    && match t.place
       case Ready => t.base != 0 ==> Reaches(shared, t.base)
       case Looping(band) => band == t.base && band != 0
       case Comparing(band, seen) =>
         band == t.base && band != 0 && (seen == 0 || band < seen) &&
         (shared != seen ==> shared != 0 && (seen == 0 || shared < seen))
  }

  /** A band is published, or some thread is on its way to publish it or a
      lower one. */
  ghost predicate Covered(s: State, band: u64) {
    || Reaches(s.shared, band)
    || exists t :: 0 <= t < |s.threads| && !s.threads[t].place.Ready? && s.threads[t].base <= band
  }

  ghost predicate Inv(s: State, observed: set<u64>) {
    && (s.shared != 0 ==> s.shared in observed)
    && (forall b :: b in observed ==> b != 0 && Covered(s, b))
    && forall t :: 0 <= t < |s.threads| ==> ThreadInv(s.shared, s.threads[t], observed)
  }

  lemma {:induction false} StepKeepsInv(s: State, observed: set<u64>, e: Event)
    requires Inv(s, observed) && Possible(s, e)
    ensures var a := e.action;
            var seen := if a.Note? && a.pc >= KERNEL_VA then {BandOf(a.pc)} else {};
            Inv(Next(s, e), observed + seen)
  {
    var a, s' := e.action, Next(s, e);
    var seen := if a.Note? && a.pc >= KERNEL_VA then {BandOf(a.pc)} else {};
    var t, t' := s.threads[e.thread], s'.threads[e.thread];
    assert ThreadInv(s.shared, t, observed);
    assert ThreadInv(s'.shared, t', observed + seen);
    forall b | b in observed + seen
      ensures b != 0 && Covered(s', b)
    {
      if b in observed && !Reaches(s.shared, b) {
        var u :| 0 <= u < |s.threads| && !s.threads[u].place.Ready? && s.threads[u].base <= b;
        if u != e.thread {
          assert s'.threads[u] == s.threads[u];
        } else if !t'.place.Ready? {
          assert s'.threads[u].base <= b;
        }
      } else if b !in observed {
        assert b == BandOf(a.pc);
        if !t'.place.Ready? {
          assert s'.threads[e.thread].base <= b;
        }
      }
    }
    forall u | 0 <= u < |s'.threads|
      ensures ThreadInv(s'.shared, s'.threads[u], observed + seen)
    {
      if u != e.thread {
        assert ThreadInv(s.shared, s.threads[u], observed);
      }
    }
  }

  lemma {:induction false} RunKeepsInv(states: seq<State>, events: seq<Event>)
    requires IsRun(states, events)
    ensures Inv(states[|events|], Observed(events))
    decreases |events|
  {
    if events != [] {
      var n := |events| - 1;
      RunKeepsInv(states[..n + 1], events[..n]);
      assert Possible(states[n], events[n]);
      StepKeepsInv(states[n], Observed(events[..n]), events[n]);
    }
  }

  // -------------------------------------------------------------- results

  /** Once set, the shared band never goes up and never back to zero. */
  lemma {:induction false} OnlyDecreases(states: seq<State>, events: seq<Event>, i: nat)
    requires IsRun(states, events) && i < |events|
    ensures var was, now := states[i].shared, states[i + 1].shared;
            now == was || (now != 0 && (was == 0 || now < was))
  {
    assert Possible(states[i], events[i]);
    assert states[..i + 1][i] == states[i];
    RunKeepsInv(states[..i + 1], events[..i]);
    assert ThreadInv(states[i].shared, states[i].threads[events[i].thread], Observed(events[..i]));
  }

  /** When no thread is inside, the shared band is the least one observed, or
      zero if none was, and no thread's own base is below it. */
  lemma {:induction false} QuietMeansMinimum(states: seq<State>, events: seq<Event>)
    requires IsRun(states, events) && Quiet(states[|events|])
    ensures var s, seen := states[|events|], Observed(events);
            && (seen == {} ==> s.shared == 0)
            && (seen != {} ==> s.shared in seen)
            && (forall b :: b in seen ==> s.shared <= b)
            && (forall t :: 0 <= t < |s.threads| && s.threads[t].base != 0 ==> 0 < s.shared <= s.threads[t].base)
  {
    RunKeepsInv(states, events);
    var s, seen := states[|events|], Observed(events);
    forall b | b in seen ensures Reaches(s.shared, b) {
      assert Covered(s, b);
    }
    forall t | 0 <= t < |s.threads| && s.threads[t].base != 0
      ensures 0 < s.shared <= s.threads[t].base
    {
      assert ThreadInv(s.shared, s.threads[t], seen);
    }
  }

  /** A compare-exchange that fails for a reason fails because another thread
      has, since the load, put a strictly lower band there (or the first). */
  lemma {:induction false} FailureHasACause(states: seq<State>, events: seq<Event>, t: nat, i: nat, j: nat)
    requires IsRun(states, events) && i < j < |events|
    requires events[i] == Event(t, Load) && events[j] == Event(t, Fail)
    requires forall k :: i < k < j ==> events[k].thread != t
    ensures exists k :: i < k < j && events[k].thread != t && events[k].action == Exchange &&
                        (states[k].shared == 0 || states[k + 1].shared < states[k].shared)
  {
    assert Possible(states[i], events[i]) && Possible(states[j], events[j]);
    var k := FirstChange(states, events, t, i, j);
    OnlyDecreases(states, events, k);
  }

  lemma {:induction false} FirstChange(states: seq<State>, events: seq<Event>, t: nat, i: nat, j: nat) returns (k: nat)
    requires IsRun(states, events) && i < j < |events|
    requires events[i] == Event(t, Load)
    requires forall k :: i < k < j ==> events[k].thread != t
    requires t < |states[j].threads| && states[j].threads[t].place.Comparing?
    requires states[j].shared != states[j].threads[t].place.seen
    ensures i < k < j && events[k].action == Exchange && states[k + 1].shared != states[k].shared
    decreases j
  {
    assert Possible(states[i], events[i]);
    assert Possible(states[j - 1], events[j - 1]);
    if states[j].shared != states[j - 1].shared {
      k := j - 1;
    } else {
      k := FirstChange(states, events, t, i, j - 1);
    }
  }
}
