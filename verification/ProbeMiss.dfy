/** A program on which the probe's walk misses an address three edges away
  (tools/offset_probe.cpp:108-117, 152-214).

  The walk takes the branch met last first, and marks an address when it pushes
  it.  Here the body at 4 branches to 40 and then to 12; from 12 a chain of
  branches runs up to 32, which it pushes at depth six, where the walk goes no
  further.  By the time 40, one edge away, is popped, 32 has been seen, so 36,
  which 32 branches to, is never scanned.
*/
module ProbeMiss {
  import opened Words
  import opened Probe

  const BACK: u32 := 0x3ff_fffe // a branch eight bytes back

  function Demo(): Code {
    Code(map[4 := Insn(9, Link), 8 := Insn(1, Jump), 12 := Insn(1, Jump), 16 := Insn(1, Jump), 20 := Insn(1, Jump),
             24 := Insn(1, Jump), 28 := Insn(1, Jump), 32 := Insn(1, Jump), 36 := Insn(0, Ret), 40 := Insn(BACK, Jump)],
         4, 44)
  }

  /** Between 8 and 32 each word is a branch to the next. */
  predicate InChain(a: u64) {
    8 <= a <= 32 && a % 4 == 0
  }

  /** The shape of the program, as the walk sees it. */
  ghost predicate Shape(c: Code) {
    && c.lo == 4 && c.hi == 44
    && c.KindAt(4, 0) == Link && c.Target(4, 0) == 40
    && c.KindAt(4, 1) == Jump && c.Target(4, 1) == 12
    && c.KindAt(40, 0) == Jump && c.Target(40, 0) == 32
    && forall a: u64 :: InChain(a) ==> c.KindAt(a, 0) == Jump && c.Target(a, 0) == a + 4
  }

  lemma {:induction false} DemoShape()
    ensures Shape(Demo())
  {
    var c := Demo();
    assert c.Place(4, 1) == Add(c.Place(4, 0), 4) == 8;
  }

  /** A body that is one branch: the turn pushes its target and no more. */
  lemma {:induction false} OneBranch(c: Code, w: Walk, rest: seq<Entry>, e: Entry)
    requires w.stack == rest + [e] && c.KindAt(e.addr, 0) == Jump
    ensures Turn(c, w) == Push(c, w.(stack := rest, scanned := w.scanned + [e]), Entry(c.Target(e.addr, 0), e.depth + 1))
  {
    assert w.stack[..|w.stack| - 1] == rest && w.stack[|w.stack| - 1] == e;
    FromNext(c, w.(stack := rest, scanned := w.scanned + [e]), e, 0, 0, 0, 1);
  }

  /** The walk when the chain has been followed to depth `d`. */
  function Along(d: nat): Walk
    requires 1 <= d <= MAX_DEPTH
  {
    if d == 1 then Walk([Entry(40, 1), Entry(12, 1)], {4, 40, 12}, 3, false, [Entry(4, 0)])
    else
      var w := Along(d - 1);
      Walk([Entry(40, 1), Entry(8 + 4 * d, d)], w.stored + {8 + 4 * d}, w.count + 1, false,
           w.scanned + [Entry(4 + 4 * d, d - 1)])
  }

  lemma {:induction false} AlongBounds(d: nat)
    requires 1 <= d <= MAX_DEPTH
    ensures Along(d).count == d + 2 && !Along(d).dropped
    ensures forall a :: a in Along(d).stored ==> a <= 8 + 4 * d || a == 40
    ensures Along(d).stack == [Entry(40, 1), Entry(8 + 4 * d, d)] && 8 + 4 * d in Along(d).stored
  {
    if d > 1 {
      AlongBounds(d - 1);
    }
  }

  /** Its push: the next word of the chain is new. */
  lemma {:induction false} HopPush(c: Code, d: nat)
    requires Shape(c) && 1 <= d < MAX_DEPTH
    ensures var w := Along(d);
            Push(c, w.(stack := [Entry(40, 1)], scanned := w.scanned + [Entry(8 + 4 * d, d)]), Entry(12 + 4 * d, d + 1))
            == Along(d + 1)
  {
    AlongBounds(d);
    assert [Entry(40, 1)] + [Entry(12 + 4 * d, d + 1)] == [Entry(40, 1), Entry(12 + 4 * d, d + 1)];
  }

  /** One turn along the chain. */
  lemma {:induction false} Hop(c: Code, d: nat)
    requires Shape(c) && 1 <= d < MAX_DEPTH
    ensures Turn(c, Along(d)) == Along(d + 1)
  {
    AlongBounds(d);
    var w, e := Along(d), Entry(8 + 4 * d, d);
    assert InChain(e.addr);
    assert w.stack == [Entry(40, 1)] + [e];
    OneBranch(c, w, [Entry(40, 1)], e);
    HopPush(c, d);
  }

  /** The first turn: the body at 4 pushes 40 and then 12. */
  lemma {:induction false} FirstTurn(c: Code)
    requires Shape(c)
    ensures Begin(c, 4) == Walk([Entry(4, 0)], {4}, 1, false, [])
    ensures Turn(c, Begin(c, 4)) == Along(1)
  {
    var w0 := Begin(c, 4);
    assert w0.stack == [Entry(4, 0)] && w0.stored == {4};
    var e := Entry(4, 0);
    var w1 := Walk([], {4}, 1, false, [e]);
    assert w0.stack[..0] == [] && w0.scanned + [e] == [e];
    var w2 := Push(c, w1, Entry(40, 1));
    assert w2 == Walk([Entry(40, 1)], {4, 40}, 2, false, [e]);
    FromNext(c, w1, e, 0, 0, 0, 1);
    FromNext(c, w2, e, 1, 0, 0, 2);
    assert [Entry(40, 1)] + [Entry(12, 1)] == [Entry(40, 1), Entry(12, 1)];
  }

  lemma {:induction false} NextTurn(c: Code, w: Walk, n: nat, p: Walk, n': nat)
    requires Turns(c, w, n) == p && p.stack != [] && n' == n + 1
    ensures Turns(c, w, n') == Turn(c, p)
  {
  }

  lemma {:induction false} FirstAlong(c: Code)
    requires Shape(c)
    ensures Turns(c, Begin(c, 4), 1) == Along(1)
  {
    FirstTurn(c);
    NextTurn(c, Begin(c, 4), 0, Begin(c, 4), 1);
  }

  lemma {:induction false} NextAlong(c: Code, w: Walk, n: nat, n': nat)
    requires Shape(c) && 1 <= n < MAX_DEPTH && n' == n + 1 && Turns(c, w, n) == Along(n)
    ensures Turns(c, w, n') == Along(n')
  {
    AlongBounds(n);
    Hop(c, n);
    NextTurn(c, w, n, Along(n), n');
  }

  lemma {:induction false} TurnsAlong(c: Code)
    requires Shape(c)
    ensures Turns(c, Begin(c, 4), 6) == Along(6)
  {
    var w := Begin(c, 4);
    FirstAlong(c);
    NextAlong(c, w, 1, 2);
    NextAlong(c, w, 2, 3);
    NextAlong(c, w, 3, 4);
    NextAlong(c, w, 4, 5);
    NextAlong(c, w, 5, 6);
  }

  /** At depth six 32 is scanned, and pushes nothing; then 40 finds it seen. */
  lemma {:induction false} LastTurns(c: Code)
    requires Shape(c)
    ensures Turns(c, Begin(c, 4), 8) == Along(6).(stack := [], scanned := Along(6).scanned + [Entry(32, 6)] + [Entry(40, 1)])
  {
    var w, w0 := Along(6), Begin(c, 4);
    TurnsAlong(c);
    AlongBounds(6);
    assert InChain(32);
    assert w.stack == [Entry(40, 1)] + [Entry(32, 6)];
    OneBranch(c, w, [Entry(40, 1)], Entry(32, 6));
    var w7 := w.(stack := [Entry(40, 1)], scanned := w.scanned + [Entry(32, 6)]);
    NextTurn(c, w0, 6, w, 7);
    assert w7.stack == [] + [Entry(40, 1)];
    OneBranch(c, w7, [], Entry(40, 1));
    NextTurn(c, w0, 7, w7, 8);
  }

  lemma {:induction false} Follows(c: Code, a: u64, b: u64)
    requires c.Branches(a, 0) && c.Target(a, 0) == b
    ensures c.Edge(a, b)
  {
    assert c.Scans(a, 0) && c.BranchAt(a, 0, b);
  }

  lemma {:induction false} ThreeEdges(c: Code)
    requires Shape(c)
    ensures c.ReachedIn(4, 36, 3)
  {
    assert c.ReachedIn(4, 4, 0);
    Follows(c, 4, 40);
    FollowEdge(c, 4, Entry(4, 0), Entry(40, 1));
    Follows(c, 40, 32);
    FollowEdge(c, 4, Entry(40, 1), Entry(32, 2));
    assert InChain(32);
    Follows(c, 32, 36);
    FollowEdge(c, 4, Entry(32, 2), Entry(36, 3));
  }

  /** Nothing overflows, the walk finishes, 36 is three edges from where it
      started, and it was not scanned. */
  lemma {:induction false} MissesThreeEdgesAway()
    ensures var w := Turns(Demo(), Begin(Demo(), 4), 8);
            && w.stack == [] && Complete(w)
            && Demo().ReachedIn(4, 36, 3) && 36 !in Addresses(w.scanned)
            && !FindsAll(Demo(), 4, w.scanned) && !DeepClosed(Demo(), w.scanned)
  {
    DemoShape();
    Misses(Demo());
  }

  lemma {:induction false} Misses(c: Code)
    requires Shape(c)
    ensures var w := Turns(c, Begin(c, 4), 8);
            && w.stack == [] && Complete(w)
            && c.ReachedIn(4, 36, 3) && 36 !in Addresses(w.scanned)
            && !FindsAll(c, 4, w.scanned) && !DeepClosed(c, w.scanned)
  {
    LastTurns(c);
    AlongBounds(6);
    ThreeEdges(c);
    TurnsKeep(c, 4, 8);
    var w := Turns(c, Begin(c, 4), 8);
    NothingLeft(w.scanned, w.stack, w.stored, w.count);
    FindsExactly(c, 4, 8);
  }
}
