/** The run loop against concurrent cancels (src/ohv_vcpu.cpp:3430-3535).

  Every shared access is one step: a requester's store of the latch, the
  runner's two exchanges and its store.  What the RUN trap and exit_from_ro
  decide is left open, so the claims hold whatever they decide.
*/
module Cancel {
  import opened Words

  const MAX_VCPUS: nat := 64

  /** Where the owner thread is inside hv_vcpu_run. */
  datatype Place =
    | Idle          // in the VMM
    | Top           // about to issue the RUN trap
    | Guest         // inside the trap
    | Trapped       // back from it, latch not looked at yet
    | Exiting       // in exit_from_ro
    | Serving       // the exit goes to the VMM
    | Turning       // about to re-enter without telling the VMM
    | Leaving       // the answer is decided, return next

  datatype Vcpu = Vcpu(latch: bool, place: Place)

  datatype Action =
    | Request                    // hv_vcpus_exit: exit_requested.store(true)
    | Call                       // the VMM calls hv_vcpu_run
    | Start                      // the RUN trap begins
    | Trap(ok: bool)             // ... and ends; a failure is returned as it is
    | LookAfterRun               // exit_requested.exchange(false)
    | Classify(toVmm: bool)      // exit_from_ro
    | Serve                      // exit_requested.store(false)
    | LookAtTurn                 // exit_requested.exchange(false)
    | Return

  datatype Event = Event(vcpu: nat, action: Action)

  predicate CanDo(v: Vcpu, a: Action) {
    match a
    case Request => true
    case Call => v.place == Idle
    case Start => v.place == Top
    case Trap(_) => v.place == Guest
    case LookAfterRun => v.place == Trapped
    case Classify(_) => v.place == Exiting
    case Serve => v.place == Serving
    case LookAtTurn => v.place == Turning
    case Return => v.place == Leaving
  }

  function Do(v: Vcpu, a: Action): Vcpu
    requires CanDo(v, a)
  {
    match a
    case Request => v.(latch := true)
    case Call => v.(place := Top)
    case Start => v.(place := Guest)
    case Trap(ok) => v.(place := if ok then Trapped else Leaving)
    case LookAfterRun => Vcpu(false, if v.latch then Leaving else Exiting)
    case Classify(toVmm) => v.(place := if toVmm then Serving else Turning)
    case Serve => Vcpu(false, Leaving)
    case LookAtTurn => Vcpu(false, if v.latch then Leaving else Top)
    case Return => v.(place := Idle)
  }

  /** A CANCELED answer given because the latch was found set. */
  predicate Cancels(v: Vcpu, a: Action) {
    v.latch && (a == LookAfterRun || a == LookAtTurn)
  }

  type System = seq<Vcpu>

  ghost predicate Possible(s: System, e: Event) {
    e.vcpu < |s| && CanDo(s[e.vcpu], e.action)
  }

  function Next(s: System, e: Event): System
    requires Possible(s, e)
  {
    s[e.vcpu := Do(s[e.vcpu], e.action)]
  }

  /** The states along a run: one more than there are events. */
  ghost predicate IsRun(states: seq<System>, events: seq<Event>) {
    && |states| == |events| + 1
    && forall i :: 0 <= i < |events| ==> Possible(states[i], events[i]) && states[i + 1] == Next(states[i], events[i])
  }

  // --------------------------------------------------- no cancel is lost

  function Count(events: seq<Event>, v: nat, a: Action): nat {
    if events == [] then 0
    else Count(events[..|events| - 1], v, a) + if events[|events| - 1] == Event(v, a) then 1 else 0
  }

  /** While a request stands unanswered, either the latch is up and the runner
      has started at most the one trap it is in, or the answer is decided. */
  ghost predicate Standing(v: Vcpu, starts: nat) {
    || (v.place == Leaving && starts <= 1)
    || (v.latch && (starts == 0 || (starts == 1 && (v.place == Guest || v.place == Trapped))))
  }

  /** In every interleaving, between a request and the next return of
      hv_vcpu_run at most one RUN trap starts on that vCPU. */
  lemma {:induction false} AtMostOneStart(states: seq<System>, events: seq<Event>, v: nat, i: nat, j: nat)
    requires IsRun(states, events) && i < j <= |events|
    requires events[i] == Event(v, Request)
    requires forall k :: i < k < j ==> events[k] != Event(v, Return)
    ensures Count(events[i + 1..j], v, Start) <= 1
    ensures v < |states[j]| && Standing(states[j][v], Count(events[i + 1..j], v, Start))
  {
    assert Possible(states[i], events[i]);
    if j > i + 1 {
      AtMostOneStart(states, events, v, i, j - 1);
      var e := events[j - 1];
      assert Possible(states[j - 1], e);
      assert events[i + 1..j][..j - i - 2] == events[i + 1..j - 1];
      assert events[i + 1..j][j - i - 2] == e;
      if e.vcpu == v {
        StandingStep(states[j - 1][v], e.action, Count(events[i + 1..j - 1], v, Start));
      }
    }
  }

  lemma {:induction false} StandingStep(v: Vcpu, a: Action, starts: nat)
    requires CanDo(v, a) && Standing(v, starts) && a != Return
    ensures Standing(Do(v, a), starts + if a == Start then 1 else 0)
  {
  }

  /** ... and one can start: the bound is reached by a request that lands just
      before the trap. */
  lemma {:induction false} OneStartHappens()
    ensures exists states, events :: IsRun(states, events) && events == [Event(0, Request), Event(0, Start)]
  {
    var events := [Event(0, Request), Event(0, Start)];
    var states := [[Vcpu(false, Top)], [Vcpu(true, Top)], [Vcpu(true, Guest)]];
    assert IsRun(states, events);
  }

  // ------------------------------------------- no cancel out of thin air

  ghost function Cancellations(states: seq<System>, events: seq<Event>, v: nat): nat
    requires IsRun(states, events)
    decreases |events|
  {
    if events == [] then 0
    else
      var n := |events| - 1;
      assert Possible(states[n], events[n]);
      Cancellations(states[..n + 1], events[..n], v) +
      if events[n].vcpu == v && Cancels(states[n][v], events[n].action) then 1 else 0
  }

  /** Answers caused by the latch never outnumber the requests. */
  lemma {:induction false} CancelsAreRequested(states: seq<System>, events: seq<Event>, v: nat)
    requires IsRun(states, events) && v < |states[0]| && !states[0][v].latch
    ensures v < |states[|events|]|
    ensures Cancellations(states, events, v) + (if states[|events|][v].latch then 1 else 0)
            <= Count(events, v, Request)
    decreases |events|
  {
    if events != [] {
      var n := |events| - 1;
      assert Possible(states[n], events[n]);
      CancelsAreRequested(states[..n + 1], events[..n], v);
    }
  }

  // ------------------------------------------- which request is answered

  /** The steps that take the latch down. */
  predicate Clears(a: Action) {
    a == Serve || a == LookAfterRun || a == LookAtTurn
  }

  /** A request of `v` at step `i` that nothing has answered before step `n`. */
  ghost predicate Unanswered(events: seq<Event>, v: nat, i: nat, n: nat) {
    && i < n <= |events| && events[i] == Event(v, Request)
    && forall k :: i < k < n && events[k].vcpu == v ==> !Clears(events[k].action)
  }

  /** The latch is up exactly while some request stands unanswered. */
  lemma {:induction false} LatchIsRequest(states: seq<System>, events: seq<Event>, v: nat, n: nat)
    requires IsRun(states, events) && n <= |events| && v < |states[0]| && !states[0][v].latch
    ensures v < |states[n]|
    ensures states[n][v].latch <==> exists i: nat :: Unanswered(events, v, i, n)
  {
    if n > 0 {
      var m := n - 1;
      LatchIsRequest(states, events, v, m);
      assert Possible(states[m], events[m]);
      if i: nat :| Unanswered(events, v, i, m) && !(events[m].vcpu == v && Clears(events[m].action)) {
        assert Unanswered(events, v, i, n);
      }
      if events[m] == Event(v, Request) {
        assert Unanswered(events, v, m, n);
      }
      if i: nat :| Unanswered(events, v, i, n) && i < m {
        assert Unanswered(events, v, i, m);
      }
    }
  }

  /** A CANCELED caused by the latch answers a request that no exit and no
      other CANCELED has answered before it. */
  lemma {:induction false} CancelAnswersRequest(states: seq<System>, events: seq<Event>, v: nat, j: nat)
    requires IsRun(states, events) && j < |events| && v < |states[0]| && !states[0][v].latch
    requires events[j].vcpu == v
    ensures v < |states[j]|
    ensures Cancels(states[j][v], events[j].action) ==> exists i: nat :: Unanswered(events, v, i, j)
    ensures (events[j].action == LookAfterRun || events[j].action == LookAtTurn) && (exists i: nat :: Unanswered(events, v, i, j))
            ==> Cancels(states[j][v], events[j].action)
  {
    LatchIsRequest(states, events, v, j);
  }

  // -------------------------------------------------- what led to where

  /** The steps that can have brought the owner to a place, from `v`. */
  predicate Leads(v: Vcpu, a: Action, p: Place) {
    match p
    case Idle => a == Return
    case Top => a == Call || (a == LookAtTurn && !v.latch)
    case Guest => a == Start
    case Trapped => a == Trap(true)
    case Exiting => a == LookAfterRun && !v.latch
    case Serving => a == Classify(true)
    case Turning => a == Classify(false)
    case Leaving => a == Trap(false) || a == Serve || Cancels(v, a)
  }

  /** Wherever the owner is, its last own step is the one that leads there: it
      returns only for a failed trap, an exit that is the VMM's, or a request;
      an exit goes to the VMM exactly if it was classified so; and otherwise it
      goes round again unless a request is found. */
  lemma {:induction false} LastStepLeads(states: seq<System>, events: seq<Event>, v: nat, n: nat) returns (i: nat)
    requires IsRun(states, events) && n <= |events| && v < |states[0]| && states[0][v].place == Idle
    requires exists k :: 0 <= k < n && events[k].vcpu == v && events[k].action != Request
    ensures v < |states[n]| && i < n && events[i].vcpu == v && events[i].action != Request
    ensures forall k :: i < k < n && events[k].vcpu == v ==> events[k].action == Request
    ensures v < |states[i]| && Leads(states[i][v], events[i].action, states[n][v].place)
  {
    var m := n - 1;
    assert Possible(states[m], events[m]);
    SameVcpus(states, events, n);
    SameVcpus(states, events, m);
    if events[m].vcpu == v && events[m].action != Request {
      i := m;
    } else {
      i := LastStepLeads(states, events, v, m);
    }
  }

  lemma {:induction false} SameVcpus(states: seq<System>, events: seq<Event>, n: nat)
    requires IsRun(states, events) && n <= |events|
    ensures |states[n]| == |states[0]|
  {
    if n > 0 {
      SameVcpus(states, events, n - 1);
      assert Possible(states[n - 1], events[n - 1]);
    }
  }

  // ------------------------------------------------------- the requester

  /** hv_vcpus_exit: every id is checked before any latch is touched. */
  method VcpusExit(latches: array<bool>, ids: seq<nat>) returns (mask: Option<u64>)
    requires latches.Length == MAX_VCPUS
    modifies latches
    ensures mask.None? <==> exists i :: 0 <= i < |ids| && ids[i] >= MAX_VCPUS
    ensures mask.None? ==> latches[..] == old(latches[..])
    ensures mask.Some? ==> forall k :: 0 <= k < MAX_VCPUS ==> latches[k] == (k in ids || old(latches[k]))
    ensures mask.Some? ==> forall k: nat :: Bit(mask.value, k) <==> k in ids
  {
    var m: u64 := 0;
    forall k: nat ensures !Bit(m, k) {
      NoBits(k);
    }
    for i := 0 to |ids|
      invariant forall j :: 0 <= j < i ==> ids[j] < MAX_VCPUS
      invariant forall k: nat :: Bit(m, k) <==> k in ids[..i]
      invariant latches[..] == old(latches[..])
    {
      if ids[i] >= MAX_VCPUS {
        return None;
      }
      WithBits(m, ids[i]);
      m := With(m, ids[i]);
      assert ids[..i + 1] == ids[..i] + [ids[i]];
    }
    assert ids[..|ids|] == ids && ids[..0] == [];
    assert forall k :: 0 <= k < MAX_VCPUS ==> latches[k] == latches[..][k];
    for i := 0 to |ids|
      invariant forall k :: 0 <= k < MAX_VCPUS ==> latches[k] == (k in ids[..i] || old(latches[k]))
    {
      latches[ids[i]] := true;
      assert ids[..i + 1] == ids[..i] + [ids[i]];
    }
    return Some(m);
  }
}
