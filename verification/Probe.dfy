/** The offset probe's call-graph walk (tools/offset_probe.cpp:93-214): a
  linear-probing table of visited addresses under a depth-bounded, depth-first
  walk over branch edges.
*/
module Probe {
  import opened Words

  // ------------------------------------------------------ the visited table

  const SLOTS: nat := 0x4000
  const CAP: nat := 0x2000

  /** Multiplicative hash of the word address, top 14 bits. */
  function Hash(a: u64): (h: nat)
    ensures h < SLOTS
  {
    a / 4 * 0x9e37_79b9_7f4a_7c15 % 0x1_0000_0000_0000_0000 / 0x4_0000_0000_0000
  }

  /** The k-th slot probed from `h`. */
  function At(h: nat, k: nat): nat
    requires h < SLOTS && k < SLOTS
  {
    if h + k < SLOTS then h + k else h + k - SLOTS
  }

  /** How many probes from `h` it takes to reach slot `p`. */
  function Distance(h: nat, p: nat): (k: nat)
    requires h < SLOTS && p < SLOTS
    ensures k < SLOTS && At(h, k) == p
  {
    if p >= h then p - h else p + SLOTS - h
  }

  /** The first `n` slots probed from `h` are taken. */
  ghost predicate Taken(t: seq<u64>, h: nat, n: nat)
    requires |t| == SLOTS && h < SLOTS && n <= SLOTS
  {
    n == 0 || (Taken(t, h, n - 1) && t[At(h, n - 1)] != 0)
  }

  /** None of the first `n` slots probed from `h` holds `a`. */
  ghost predicate Absent(t: seq<u64>, h: nat, n: nat, a: u64)
    requires |t| == SLOTS && h < SLOTS && n <= SLOTS
  {
    n == 0 || (Absent(t, h, n - 1, a) && t[At(h, n - 1)] != a)
  }

  /** Every stored address can be found: no empty slot lies between its hash
      and its place. */
  ghost predicate Findable(t: seq<u64>) {
    && |t| == SLOTS
    && forall p :: 0 <= p < SLOTS && t[p] != 0 ==> Taken(t, Hash(t[p]), Distance(Hash(t[p]), p))
  }

  ghost function Stored(t: seq<u64>): set<u64> {
    set a | a in t && a != 0
  }

  function Used(t: seq<u64>): (n: nat)
    ensures n <= |t|
  {
    if t == [] then 0 else Used(t[..|t| - 1]) + if t[|t| - 1] != 0 then 1 else 0
  }

  lemma {:induction false} UsedUpdate(t: seq<u64>, p: nat, a: u64)
    requires p < |t| && t[p] == 0
    ensures Used(t[p := a]) == Used(t) + if a != 0 then 1 else 0
  {
    var n := |t| - 1;
    if p < n {
      assert t[p := a][..n] == t[..n][p := a];
      UsedUpdate(t[..n], p, a);
    } else {
      assert t[p := a][..n] == t[..n];
    }
  }

  lemma {:induction false} EmptySlot(t: seq<u64>) returns (p: nat)
    requires Used(t) < |t|
    ensures p < |t| && t[p] == 0
  {
    var n := |t| - 1;
    if t[n] == 0 {
      p := n;
    } else {
      p := EmptySlot(t[..n]);
    }
  }

  lemma {:induction false} TakenAt(t: seq<u64>, h: nat, n: nat, k: nat)
    requires |t| == SLOTS && h < SLOTS && k < n <= SLOTS && Taken(t, h, n)
    ensures t[At(h, k)] != 0
  {
    if k < n - 1 {
      TakenAt(t, h, n - 1, k);
    }
  }

  lemma {:induction false} AbsentAt(t: seq<u64>, h: nat, n: nat, a: u64, k: nat)
    requires |t| == SLOTS && h < SLOTS && k < n <= SLOTS && Absent(t, h, n, a)
    ensures t[At(h, k)] != a
  {
    if k < n - 1 {
      AbsentAt(t, h, n - 1, a, k);
    }
  }

  lemma {:induction false} StillTaken(t: seq<u64>, h: nat, n: nat, p: nat, a: u64)
    requires |t| == SLOTS && h < SLOTS && n <= SLOTS && p < SLOTS && a != 0
    requires Taken(t, h, n)
    ensures Taken(t[p := a], h, n)
  {
    if n > 0 {
      StillTaken(t, h, n - 1, p, a);
    }
  }

  lemma {:induction false} ProbeNext(t: seq<u64>, h: nat, d: nat, a: u64, empty: nat) returns (d': nat)
    requires |t| == SLOTS && h < SLOTS && empty < SLOTS && t[empty] == 0
    requires d <= Distance(h, empty) && Taken(t, h, d) && Absent(t, h, d, a)
    requires t[At(h, d)] != 0 && t[At(h, d)] != a
    ensures d < d' <= Distance(h, empty) && Taken(t, h, d') && Absent(t, h, d', a)
    ensures At(h, d') == (At(h, d) + 1) % SLOTS
  {
    d' := d + 1;
  }

  /** Where a probe for `a` stops at an empty slot, `a` is not stored. */
  lemma {:induction false} NotStored(t: seq<u64>, a: u64, d: nat)
    requires Findable(t) && a != 0 && d < SLOTS
    requires Absent(t, Hash(a), d, a) && t[At(Hash(a), d)] == 0
    ensures a !in Stored(t)
  {
    forall p | 0 <= p < |t|
      ensures t[p] != a
    {
      var k := Distance(Hash(a), p);
      if t[p] == a {
        if k < d {
          AbsentAt(t, Hash(a), d, a, k);
        } else if d < k {
          TakenAt(t, Hash(a), k, d);
        }
      }
    }
  }

  lemma {:induction false} StoreFindable(t: seq<u64>, a: u64, d: nat)
    requires Findable(t) && a !in Stored(t) && a != 0 && d < SLOTS
    requires Taken(t, Hash(a), d) && t[At(Hash(a), d)] == 0
    ensures Findable(t[At(Hash(a), d) := a])
    ensures Stored(t[At(Hash(a), d) := a]) == Stored(t) + {a}
  {
    var p := At(Hash(a), d);
    var t' := t[p := a];
    assert Distance(Hash(a), p) == d;
    forall j | 0 <= j < SLOTS && t'[j] != 0
      ensures Taken(t', Hash(t'[j]), Distance(Hash(t'[j]), j))
    {
      StillTaken(t, Hash(t'[j]), Distance(Hash(t'[j]), j), p, a);
    }
    forall b | b in Stored(t) ensures b in Stored(t') {
      var j :| 0 <= j < |t| && t[j] == b;
      assert t'[j] == b;
    }
    assert t'[p] == a;
  }

  // -------------------------------------------------------------- the code

  /** What the walk needs to know of an instruction word. */
  datatype Kind = Link | Jump | Ret | Junk | Plain

  /** `((int32_t)((w & 0x03ffffff) << 6) >> 6) * 4`. */
  function BranchOff(w: u32): (r: int)
    ensures r % 4 == 0 && -0x800_0000 <= r < 0x800_0000
    ensures (r / 4 - w) % 0x400_0000 == 0
  {
    var imm := w % 0x400_0000;
    assert w == 0x400_0000 * (w / 0x400_0000) + imm;
    4 * if imm >= 0x200_0000 then imm - 0x400_0000 else imm
  }

  const NODE_MAX: nat := 6144
  const JUNK_MAX: nat := 320
  const MAX_DEPTH: nat := 6
  const MAX_NODES: nat := 12000
  const STACK_MAX: nat := 4096

  /** An instruction word and what the decoder makes of it. */
  datatype Insn = Insn(word: u32, kind: Kind)

  /** A program: what is at each address, and the bounds of its text.  The
      decoder takes what is nowhere listed for an unknown instruction. */
  datatype Code = Code(insns: map<u64, Insn>, lo: u64, hi: u64)
  {
    function Fetch(at: u64): Insn {
      if at in insns then insns[at] else Insn(0, Junk)
    }

    /** The address of the word after `k` others in the body at `a`. */
    function Place(a: u64, k: nat): u64 {
      if k == 0 then a else Add(Place(a, k - 1), 4)
    }

    /** Where that word, as a branch, leads. */
    function Target(a: u64, k: nat): u64 {
      Add(Place(a, k), BranchOff(Fetch(Place(a, k)).word))
    }

    function KindAt(a: u64, k: nat): Kind {
      Fetch(Place(a, k)).kind
    }

    /** How many undecodable words in a row end just before the k-th word of
        the body at `a`; None once the scan has stopped. */
    function Scan(a: u64, k: nat): Option<nat> {
      if k == 0 then Some(0)
      else match Scan(a, k - 1)
           case None => None
           case Some(junk) => if junk >= JUNK_MAX then None else After(KindAt(a, k - 1), junk)
    }

    function After(kind: Kind, junk: nat): Option<nat> {
      match kind
      case Ret => None
      case Jump => None
      case Junk => Some(junk + 1)
      case _ => Some(0)
    }

    /** The last `n` of the first `k` words are undecodable. */
    predicate JunkRun(a: u64, k: nat, n: nat) {
      n == 0 || (k > 0 && KindAt(a, k - 1) == Junk && JunkRun(a, k - 1, n - 1))
    }

    /** None of the first `k` words ends the body. */
    predicate Unended(a: u64, k: nat) {
      k == 0 || (Unended(a, k - 1) && KindAt(a, k - 1) != Ret && KindAt(a, k - 1) != Jump)
    }

    /** Nowhere among the first `k` words are there too many undecodable ones in
        a row. */
    ghost predicate Decodable(a: u64, k: nat) {
      forall j: nat :: j <= k ==> !JunkRun(a, j, JUNK_MAX)
    }

    /** The scan of the body at `a` gets to the word after the first `k`. */
    ghost predicate Scans(a: u64, k: nat) {
      4 * k + 4 <= NODE_MAX && Scan(a, k).Some? && Scan(a, k).value < JUNK_MAX
    }

    predicate InText(a: u64) {
      lo <= a < hi
    }

    predicate Branches(a: u64, k: nat) {
      KindAt(a, k) == Link || KindAt(a, k) == Jump
    }

    /** Every branch among the first `k` words that stays inside the text
        leads to an address in `stored`. */
    ghost predicate Followed(a: u64, k: nat, stored: set<u64>) {
      k == 0 || (Followed(a, k - 1, stored) && (Branches(a, k - 1) && InText(Target(a, k - 1)) ==> Target(a, k - 1) in stored))
    }

    ghost predicate Explored(a: u64, stored: set<u64>) {
      forall b: u64 :: Edge(a, b) && InText(b) ==> b in stored
    }

    /** The scan counts the undecodable words it has just passed. */
    lemma {:induction false} ScanCounts(a: u64, k: nat, n: nat)
      ensures Scan(a, k).Some? ==> (JunkRun(a, k, n) <==> n <= Scan(a, k).value)
    {
      if k > 0 && n > 0 && Scan(a, k).Some? {
        ScanCounts(a, k - 1, n - 1);
      }
    }

    /** A body is scanned up to a word exactly if that word is within the first
        6144 bytes, no return or jump came before it, and nowhere before it are
        there 320 undecodable words in a row. */
    lemma {:induction false} ScansExactly(a: u64, k: nat)
      ensures Scans(a, k) <==> 4 * k + 4 <= 6144 && Unended(a, k) && Decodable(a, k)
    {
      ScanGoesOn(a, k);
    }

    lemma {:induction false} ScanGoesOn(a: u64, k: nat)
      ensures Scan(a, k).Some? && Scan(a, k).value < JUNK_MAX <==> Unended(a, k) && Decodable(a, k)
    {
      if k > 0 {
        ScanGoesOn(a, k - 1);
      }
      ScanCounts(a, k, JUNK_MAX);
      DecodableStep(a, k);
    }

    lemma {:induction false} DecodableStep(a: u64, k: nat)
      ensures Decodable(a, k) <==> !JunkRun(a, k, JUNK_MAX) && (k > 0 ==> Decodable(a, k - 1))
    {
    }

    lemma {:induction false} ScanNext(a: u64, k: nat, junk: nat, k': nat, after: Option<nat>)
      requires Scans(a, k) && Scan(a, k) == Some(junk)
      requires k' == k + 1 && after == After(KindAt(a, k), junk)
      ensures Scan(a, k') == after
    {
    }

    lemma {:induction false} FollowedNext(a: u64, k: nat, k': nat, stored: set<u64>)
      requires Followed(a, k, stored) && k' == k + 1
      requires Branches(a, k) && InText(Target(a, k)) ==> Target(a, k) in stored
      ensures Followed(a, k', stored)
    {
    }

    lemma {:induction false} FollowedMore(a: u64, k: nat, stored: set<u64>, stored': set<u64>)
      requires Followed(a, k, stored) && stored <= stored'
      ensures Followed(a, k, stored')
    {
      if k > 0 {
        FollowedMore(a, k - 1, stored, stored');
      }
    }

    lemma {:induction false} FollowedAt(a: u64, k: nat, stored: set<u64>, j: nat)
      requires Followed(a, k, stored) && j < k && Branches(a, j) && InText(Target(a, j))
      ensures Target(a, j) in stored
    {
      if j < k - 1 {
        FollowedAt(a, k - 1, stored, j);
      }
    }

    /** A scan that has stopped does not start again. */
    lemma {:induction false} ScanStops(a: u64, k: nat, j: nat)
      requires k <= j && Scans(a, j)
      ensures Scans(a, k)
    {
      if k < j {
        ScanStops(a, k, j - 1);
      }
    }

    /** Following a whole body explores it. */
    lemma {:induction false} FollowedAll(a: u64, k: nat, stored: set<u64>)
      requires Followed(a, k, stored) && !Scans(a, k)
      ensures Explored(a, stored)
    {
      forall b: u64 | Edge(a, b) && InText(b)
        ensures b in stored
      {
        var j: nat :| Scans(a, j) && BranchAt(a, j, b);
        if k <= j {
          ScanStops(a, k, j);
        }
        FollowedAt(a, k, stored, j);
      }
    }

    /** A branch that the scan of the body at `a` meets leads to `b`. */
    ghost predicate Edge(a: u64, b: u64) {
      exists k: nat :: Scans(a, k) && BranchAt(a, k, b)
    }

    ghost predicate BranchAt(a: u64, k: nat, b: u64) {
      Branches(a, k) && b == Target(a, k)
    }

    /** `b` is reached from `a` over exactly `n` branch edges, inside the text
        all the way. */
    ghost predicate ReachedIn(a: u64, b: u64, n: nat)
      decreases n
    {
      && InText(b)
      && if n == 0 then a == b
         else exists m: u64 :: ReachedIn(a, m, n - 1) && Edge(m, b)
    }
  }

  // ------------------------------------------------------ the stack measure

  datatype Entry = Entry(addr: u64, depth: nat)

  ghost predicate Bounded(q: seq<Entry>) {
    q == [] || (Bounded(q[..|q| - 1]) && q[|q| - 1].depth <= MAX_DEPTH)
  }

  /** How many entries wait at one depth. */
  ghost function Count(q: seq<Entry>, depth: nat): nat {
    if q == [] then 0 else Count(q[..|q| - 1], depth) + if q[|q| - 1].depth == depth then 1 else 0
  }

  /** `now` is `was` with entries of one depth pushed on it. */
  ghost predicate Grown(was: seq<Entry>, now: seq<Entry>, depth: nat) {
    |was| <= |now| && now[..|was|] == was && forall i :: |was| <= i < |now| ==> now[i].depth == depth
  }

  lemma {:induction false} GrownCount(was: seq<Entry>, now: seq<Entry>, depth: nat, d: nat)
    requires Grown(was, now, depth) && d != depth
    ensures Count(now, d) == Count(was, d)
  {
    if |was| < |now| {
      var n := |now| - 1;
      assert now[..n][..|was|] == was;
      GrownCount(was, now[..n], depth, d);
    } else {
      assert now == was;
    }
  }

  /** Depth-weighted descent: at the popped entry's depth one entry fewer
      waits, and at every lesser depth as many as before. */
  ghost predicate Descends(was: seq<Entry>, now: seq<Entry>, depth: nat) {
    && Count(now, depth) < Count(was, depth)
    && forall d :: 0 <= d < depth ==> Count(now, d) == Count(was, d)
  }

  /** The counts of depths 0 to 6, in that order, go down. */
  ghost predicate Lower(was: seq<Entry>, now: seq<Entry>) {
    var tied0 := Count(now, 0) == Count(was, 0);
    var tied1 := tied0 && Count(now, 1) == Count(was, 1);
    var tied2 := tied1 && Count(now, 2) == Count(was, 2);
    var tied3 := tied2 && Count(now, 3) == Count(was, 3);
    var tied4 := tied3 && Count(now, 4) == Count(was, 4);
    var tied5 := tied4 && Count(now, 5) == Count(was, 5);
    && Count(now, 0) <= Count(was, 0)
    && (tied0 ==> Count(now, 1) <= Count(was, 1))
    && (tied1 ==> Count(now, 2) <= Count(was, 2))
    && (tied2 ==> Count(now, 3) <= Count(was, 3))
    && (tied3 ==> Count(now, 4) <= Count(was, 4))
    && (tied4 ==> Count(now, 5) <= Count(was, 5))
    && (tied5 ==> Count(now, 6) < Count(was, 6))
  }

  lemma {:induction false} PopDescends(rest: seq<Entry>, e: Entry, now: seq<Entry>)
    requires Grown(rest, now, e.depth + 1)
    ensures Descends(rest + [e], now, e.depth)
  {
    assert (rest + [e])[..|rest|] == rest;
    forall d | 0 <= d <= e.depth
      ensures Count(now, d) == Count(rest, d)
    {
      GrownCount(rest, now, e.depth + 1, d);
    }
  }

  // ------------------------------------------------------- the walk, as values

  /** The stack, the addresses stored and how many, whether a push was refused
      for want of room, and the bodies scanned so far. */
  datatype Walk = Walk(stack: seq<Entry>, stored: set<u64>, count: nat, dropped: bool, scanned: seq<Entry>)

  /** enqueue: a target inside the text, not too deep and not seen is marked
      and pushed; the table takes no more once it is half full. */
  function Push(c: Code, w: Walk, child: Entry): Walk {
    if child.depth > MAX_DEPTH || !c.InText(child.addr) then w
    else if |w.stack| >= STACK_MAX then w.(dropped := true)
    else if child.addr in w.stored then w
    else
      var w1 := w.(stack := w.stack + [child]);
      if w.count >= CAP then w1
      else w1.(count := w.count + 1, stored := if child.addr == 0 then w.stored else w.stored + {child.addr})
  }

  /** The rest of the scan of the body of `e`, from its k-th word on. */
  function FromWord(c: Code, w: Walk, e: Entry, k: nat, junk: nat): Walk
    decreases NODE_MAX - 4 * k
  {
    if 4 * k + 4 > NODE_MAX || junk >= JUNK_MAX then w
    else
      match c.KindAt(e.addr, k)
      case Ret => w
      case Jump => Push(c, w, Child(c, e, k))
      case Link => FromWord(c, Push(c, w, Child(c, e, k)), e, k + 1, 0)
      case Junk => FromWord(c, w, e, k + 1, junk + 1)
      case Plain => FromWord(c, w, e, k + 1, 0)
  }

  function Child(c: Code, e: Entry, k: nat): Entry {
    Entry(c.Target(e.addr, k), e.depth + 1)
  }

  /** Pop the entry pushed last and scan its body. */
  function Turn(c: Code, w: Walk): Walk
    requires w.stack != []
  {
    var n := |w.stack| - 1;
    FromWord(c, w.(stack := w.stack[..n], scanned := w.scanned + [w.stack[n]]), w.stack[n], 0, 0)
  }

  function Begin(c: Code, start: u64): Walk {
    Push(c, Walk([], {}, 0, false, []), Entry(start, 0))
  }

  /** The walk after `n` turns, or when its stack ran empty. */
  function Turns(c: Code, w: Walk, n: nat): Walk {
    if n == 0 then w
    else
      var p := Turns(c, w, n - 1);
      if p.stack == [] then p else Turn(c, p)
  }

  // ------------------------------------------------------ what the walk keeps

  /** The table still takes addresses and no push was refused for want of
      room. */
  predicate Complete(w: Walk) {
    w.count < CAP && !w.dropped
  }

  ghost predicate Inv(c: Code, start: u64, w: Walk) {
    && Bounded(w.stack) && AllReached(c, start, w.stack)
    && Bounded(w.scanned) && AllReached(c, start, w.scanned)
    && Once(w.scanned, w.stack, w.stored, w.count)
  }

  /** What pushing entries of one depth changes. */
  ghost predicate Pushes(w: Walk, w': Walk, depth: nat) {
    && Grown(w.stack, w'.stack, depth) && w.stored <= w'.stored && w'.scanned == w.scanned
    && (Complete(w') ==> Complete(w))
  }

  lemma {:induction false} PushesTwice(a: Walk, b: Walk, c: Walk, depth: nat)
    requires Pushes(a, b, depth) && Pushes(b, c, depth)
    ensures Pushes(a, c, depth)
  {
    GrownMore(a.stack, b.stack, c.stack, depth);
  }

  lemma {:induction false} PushGrows(c: Code, w: Walk, child: Entry)
    ensures Pushes(w, Push(c, w, child), child.depth)
    ensures Bounded(w.stack) ==> Bounded(Push(c, w, child).stack)
  {
    assert (w.stack + [child])[..|w.stack|] == w.stack;
    assert w.stack[..|w.stack|] == w.stack;
  }

  lemma {:induction false} PushKeeps(c: Code, start: u64, w: Walk, child: Entry)
    requires Inv(c, start, w) && c.lo > 0
    requires c.InText(child.addr) ==> c.ReachedIn(start, child.addr, child.depth)
    ensures var w' := Push(c, w, child);
            && Inv(c, start, w')
            && (Complete(w') && child.depth <= MAX_DEPTH && c.InText(child.addr) ==> child.addr in w'.stored)
  {
    var w' := Push(c, w, child);
    if w'.stack != w.stack {
      Pushed(c, start, w.stack, child);
      OncePushed(w.scanned, w.stack, child, w.stored, w'.stored, w.count, w'.count);
    }
  }

  lemma {:induction false} FromWordGrows(c: Code, w: Walk, e: Entry, k: nat, junk: nat)
    ensures Pushes(w, FromWord(c, w, e, k, junk), e.depth + 1)
    ensures Bounded(w.stack) ==> Bounded(FromWord(c, w, e, k, junk).stack)
    decreases NODE_MAX - 4 * k
  {
    assert w.stack[..|w.stack|] == w.stack;
    if 4 * k + 4 <= NODE_MAX && junk < JUNK_MAX {
      match c.KindAt(e.addr, k)
      case Ret =>
      case Jump => PushGrows(c, w, Child(c, e, k));
      case Link =>
        var w1 := Push(c, w, Child(c, e, k));
        PushGrows(c, w, Child(c, e, k));
        FromWordGrows(c, w1, e, k + 1, 0);
        PushesTwice(w, w1, FromWord(c, w1, e, k + 1, 0), e.depth + 1);
      case Junk => FromWordGrows(c, w, e, k + 1, junk + 1);
      case Plain => FromWordGrows(c, w, e, k + 1, 0);
    }
  }

  /** Scanning on from a word at which the body's branches so far are followed
      keeps the invariant and explores the body. */
  lemma {:induction false} FromWordKeeps(c: Code, start: u64, w: Walk, e: Entry, k: nat, junk: nat)
    requires Inv(c, start, w) && c.lo > 0 && c.ReachedIn(start, e.addr, e.depth)
    requires c.Scan(e.addr, k) == Some(junk)
    requires Complete(w) && e.depth < MAX_DEPTH ==> c.Followed(e.addr, k, w.stored)
    ensures var w' := FromWord(c, w, e, k, junk);
            && Inv(c, start, w')
            && (Complete(w') && e.depth < MAX_DEPTH ==> c.Explored(e.addr, w'.stored))
    decreases NODE_MAX - 4 * k
  {
    if 4 * k + 4 > NODE_MAX || junk >= JUNK_MAX {
      FromEnd(c, w, e, k, junk);
      if Complete(w) && e.depth < MAX_DEPTH {
        c.FollowedAll(e.addr, k, w.stored);
      }
    } else {
      var kind := c.KindAt(e.addr, k);
      var junk' := if kind == Junk then junk + 1 else 0;
      var w1, k' := WordKeeps(c, start, w, e, k, junk);
      FromNext(c, w, e, k, junk, junk', k');
      if kind == Ret || kind == Jump {
        FollowedToEnd(c, w1, e, k');
      } else {
        FromWordKeeps(c, start, w1, e, k', junk');
      }
    }
  }

  lemma {:induction false} FromNext(c: Code, w: Walk, e: Entry, k: nat, junk: nat, junk': nat, k': nat)
    requires 4 * k + 4 <= NODE_MAX && junk < JUNK_MAX && k' == k + 1
    requires junk' == if c.KindAt(e.addr, k) == Junk then junk + 1 else 0
    ensures var w1 := if c.Branches(e.addr, k) then Push(c, w, Child(c, e, k)) else w;
            var kind := c.KindAt(e.addr, k);
            FromWord(c, w, e, k, junk) == if kind == Ret || kind == Jump then w1 else FromWord(c, w1, e, k', junk')
  {
  }

  lemma {:induction false} FromEnd(c: Code, w: Walk, e: Entry, k: nat, junk: nat)
    requires 4 * k + 4 > NODE_MAX || junk >= JUNK_MAX
    ensures FromWord(c, w, e, k, junk) == w
  {
  }

  lemma {:induction false} FollowedToEnd(c: Code, w: Walk, e: Entry, k: nat)
    requires Complete(w) && e.depth < MAX_DEPTH ==> c.Followed(e.addr, k, w.stored)
    requires c.Scan(e.addr, k) == None
    ensures Complete(w) && e.depth < MAX_DEPTH ==> c.Explored(e.addr, w.stored)
  {
    if Complete(w) && e.depth < MAX_DEPTH {
      c.FollowedAll(e.addr, k, w.stored);
    }
  }

  /** The walk after one word, and the word after it. */
  lemma {:induction false} WordKeeps(c: Code, start: u64, w: Walk, e: Entry, k: nat, junk: nat)
    returns (w1: Walk, k': nat)
    requires Inv(c, start, w) && c.lo > 0 && c.ReachedIn(start, e.addr, e.depth)
    requires c.Scans(e.addr, k) && c.Scan(e.addr, k) == Some(junk)
    requires Complete(w) && e.depth < MAX_DEPTH ==> c.Followed(e.addr, k, w.stored)
    ensures k' == k + 1 && c.Scan(e.addr, k') == c.After(c.KindAt(e.addr, k), junk)
    ensures w1 == if c.Branches(e.addr, k) then Push(c, w, Child(c, e, k)) else w
    ensures Inv(c, start, w1)
    ensures Complete(w1) && e.depth < MAX_DEPTH ==> c.Followed(e.addr, k', w1.stored)
  {
    k', w1 := k + 1, w;
    var after := c.After(c.KindAt(e.addr, k), junk);
    c.ScanNext(e.addr, k, junk, k', after);
    if c.Branches(e.addr, k) {
      var child := Child(c, e, k);
      w1 := Push(c, w, child);
      if c.InText(child.addr) {
        assert c.BranchAt(e.addr, k, child.addr);
        FollowEdge(c, start, e, child);
      }
      PushKeeps(c, start, w, child);
      PushGrows(c, w, child);
    }
    if Complete(w1) && e.depth < MAX_DEPTH {
      c.FollowedMore(e.addr, k, w.stored, w1.stored);
      c.FollowedNext(e.addr, k, k', w1.stored);
    }
  }

  lemma {:induction false} TurnDescends(c: Code, w: Walk)
    requires w.stack != [] && Bounded(w.stack)
    ensures var n := |w.stack| - 1;
            && Bounded(Turn(c, w).stack) && w.stack[n].depth <= MAX_DEPTH
            && Descends(w.stack, Turn(c, w).stack, w.stack[n].depth)
            && Turn(c, w).scanned == w.scanned + [w.stack[n]]
  {
    var n := |w.stack| - 1;
    var e := w.stack[n];
    FromWordGrows(c, w.(stack := w.stack[..n], scanned := w.scanned + [e]), e, 0, 0);
    PopDescends(w.stack[..n], e, Turn(c, w).stack);
    assert w.stack[..n] + [e] == w.stack;
  }

  lemma {:induction false} TurnKeeps(c: Code, start: u64, w: Walk)
    requires w.stack != [] && Inv(c, start, w) && c.lo > 0
    requires Complete(w) ==> AllExplored(c, w.scanned, w.stored)
    ensures var w' := Turn(c, w);
            Inv(c, start, w') && (Complete(w') ==> AllExplored(c, w'.scanned, w'.stored))
  {
    var n := |w.stack| - 1;
    var e := w.stack[n];
    var w1 := w.(stack := w.stack[..n], scanned := w.scanned + [e]);
    assert w.stack[..n] + [e] == w.stack && w1.scanned[..|w.scanned|] == w.scanned;
    Popped(c, start, w.stack, w1.stack, e);
    OnceMoved(w.scanned, w1.stack, e, w.stored, w.count);
    FromWordKeeps(c, start, w1, e, 0, 0);
    FromWordGrows(c, w1, e, 0, 0);
    if Complete(Turn(c, w)) {
      AllExploredMore(c, w.scanned, w.stored, Turn(c, w).stored);
    }
  }

  lemma {:induction false} BeginKeeps(c: Code, start: u64)
    requires c.lo > 0
    ensures var w := Begin(c, start);
            && Inv(c, start, w) && w.scanned == [] && !w.dropped && w.count <= 1
            && w.stack == (if c.InText(start) then [Entry(start, 0)] else [])
  {
    var none := Walk([], {}, 0, false, []);
    assert Inv(c, start, none);
    PushKeeps(c, start, none, Entry(start, 0));
  }

  lemma {:induction false} TurnsKeep(c: Code, start: u64, n: nat)
    requires c.lo > 0
    ensures var w := Turns(c, Begin(c, start), n);
            && Inv(c, start, w) && (Complete(w) ==> AllExplored(c, w.scanned, w.stored))
            && (if w.scanned == [] then w.stack == Begin(c, start).stack
                else c.InText(start) && w.scanned[0] == Entry(start, 0))
  {
    BeginKeeps(c, start);
    if n > 0 {
      var p := Turns(c, Begin(c, start), n - 1);
      TurnsKeep(c, start, n - 1);
      if p.stack != [] {
        TurnKeeps(c, start, p);
        TurnDescends(c, p);
      }
    }
  }

  // ------------------------------------------------------------- what it finds

  /** Every address that branches inside the text lead to from `start` was
      scanned. */
  ghost predicate FindsAll(c: Code, start: u64, scanned: seq<Entry>) {
    forall b: u64, n: nat :: c.ReachedIn(start, b, n) ==> b in Addresses(scanned)
  }

  /** No body scanned at the greatest depth branches, inside the text, to an
      address that was not. */
  ghost predicate DeepClosed(c: Code, scanned: seq<Entry>) {
    forall i :: 0 <= i < |scanned| && scanned[i].depth == MAX_DEPTH ==> c.Explored(scanned[i].addr, Addresses(scanned))
  }

  lemma {:induction false} AddressAt(s: seq<Entry>, i: nat)
    requires i < |s|
    ensures s[i].addr in Addresses(s)
  {
    if i < |s| - 1 {
      AddressAt(s[..|s| - 1], i);
    }
  }

  lemma {:induction false} AddressOf(s: seq<Entry>, a: u64) returns (i: nat)
    requires a in Addresses(s)
    ensures i < |s| && s[i].addr == a
  {
    if s[|s| - 1].addr == a {
      i := |s| - 1;
    } else {
      i := AddressOf(s[..|s| - 1], a);
    }
  }

  lemma {:induction false} EntryAt(c: Code, start: u64, s: seq<Entry>, stored: set<u64>, i: nat)
    requires i < |s| && AllReached(c, start, s) && Bounded(s) && AllExplored(c, s, stored)
    ensures c.ReachedIn(start, s[i].addr, s[i].depth) && s[i].depth <= MAX_DEPTH
    ensures s[i].depth < MAX_DEPTH ==> c.Explored(s[i].addr, stored)
  {
    if i < |s| - 1 {
      EntryAt(c, start, s[..|s| - 1], stored, i);
    }
  }

  /** The last edge of a path. */
  lemma {:induction false} StepBack(c: Code, start: u64, b: u64, n: nat) returns (m: u64, k: nat)
    requires n > 0 && c.ReachedIn(start, b, n)
    ensures k == n - 1 && c.ReachedIn(start, m, k) && c.Edge(m, b) && c.InText(b)
  {
    k := n - 1;
    m :| c.ReachedIn(start, m, k) && c.Edge(m, b);
  }

  lemma {:induction false} ClosedFinds(c: Code, start: u64, s: seq<Entry>, b: u64, n: nat)
    requires AllReached(c, start, s) && Bounded(s) && AllExplored(c, s, Addresses(s)) && DeepClosed(c, s)
    requires start in Addresses(s) && c.ReachedIn(start, b, n)
    ensures b in Addresses(s)
    decreases n
  {
    if n > 0 {
      var m, k := StepBack(c, start, b, n);
      ClosedFinds(c, start, s, m, k);
      ClosedStep(c, start, s, m, b);
    }
  }

  lemma {:induction false} ClosedStep(c: Code, start: u64, s: seq<Entry>, m: u64, b: u64)
    requires AllReached(c, start, s) && Bounded(s) && AllExplored(c, s, Addresses(s)) && DeepClosed(c, s)
    requires m in Addresses(s) && c.Edge(m, b) && c.InText(b)
    ensures b in Addresses(s)
  {
    var i := AddressOf(s, m);
    EntryAt(c, start, s, Addresses(s), i);
    assert c.Explored(m, Addresses(s));
  }

  /** A finished walk in which nothing overflowed found everything exactly if
      the bodies at its greatest depth lead nowhere new: what an address was
      first seen at decides how far the walk goes on from it. */
  lemma {:induction false} FindsExactly(c: Code, start: u64, n: nat)
    requires c.lo > 0
    requires var w := Turns(c, Begin(c, start), n); w.stack == [] && Complete(w)
    ensures var s := Turns(c, Begin(c, start), n).scanned;
            FindsAll(c, start, s) <==> DeepClosed(c, s)
  {
    TurnsKeep(c, start, n);
    BeginKeeps(c, start);
    var w := Turns(c, Begin(c, start), n);
    var s := w.scanned;
    NothingLeft(s, w.stack, w.stored, w.count);
    if DeepClosed(c, s) {
      forall b: u64, n: nat | c.ReachedIn(start, b, n)
        ensures b in Addresses(s)
      {
        if s != [] {
          AddressAt(s, 0);
          ClosedFinds(c, start, s, b, n);
        } else {
          StartsInText(c, start, b, n);
        }
      }
    }
    if FindsAll(c, start, s) {
      forall i | 0 <= i < |s| && s[i].depth == MAX_DEPTH
        ensures c.Explored(s[i].addr, Addresses(s))
      {
        EntryAt(c, start, s, w.stored, i);
        DeepStep(c, start, s, s[i]);
      }
    }
  }

  /** So a program in which no path inside the text is six edges long from
      `start` is covered, whatever the order the branches come in. */
  lemma {:induction false} FindsShallow(c: Code, start: u64, n: nat)
    requires c.lo > 0 && forall b: u64 :: !c.ReachedIn(start, b, MAX_DEPTH)
    requires var w := Turns(c, Begin(c, start), n); w.stack == [] && Complete(w)
    ensures FindsAll(c, start, Turns(c, Begin(c, start), n).scanned)
  {
    TurnsKeep(c, start, n);
    var w := Turns(c, Begin(c, start), n);
    forall i | 0 <= i < |w.scanned| ensures w.scanned[i].depth != MAX_DEPTH {
      EntryAt(c, start, w.scanned, w.stored, i);
    }
    FindsExactly(c, start, n);
  }

  lemma {:induction false} DeepStep(c: Code, start: u64, s: seq<Entry>, e: Entry)
    requires FindsAll(c, start, s) && c.ReachedIn(start, e.addr, e.depth)
    ensures c.Explored(e.addr, Addresses(s))
  {
    forall b: u64 | c.Edge(e.addr, b) && c.InText(b)
      ensures b in Addresses(s)
    {
      var child := Entry(b, e.depth + 1);
      FollowEdge(c, start, e, child);
      assert c.ReachedIn(start, b, child.depth);
    }
  }

  lemma {:induction false} StartsInText(c: Code, start: u64, b: u64, n: nat)
    requires c.ReachedIn(start, b, n)
    ensures c.InText(start)
    decreases n
  {
    if n > 0 {
      var m, k := StepBack(c, start, b, n);
      StartsInText(c, start, m, k);
    }
  }

  // ------------------------------------------------------ the code, in place

  class Walker {
    const tab: array<u64>
    var visited: nat
    const q: array<Entry>
    var qn: nat
    ghost var dropped: bool
    ghost var scanned: seq<Entry>

    ghost predicate Valid()
      reads this, tab, q
    {
      && tab.Length == SLOTS && q.Length == STACK_MAX && qn <= STACK_MAX
      && Findable(tab[..]) && Used(tab[..]) <= visited <= CAP
    }

    ghost function View(): Walk
      reads this, tab, q
      requires Valid()
    {
      Walk(Stack(), Stored(tab[..]), visited, dropped, scanned)
    }

    ghost function Stack(): seq<Entry>
      reads this, q
      requires qn <= q.Length
    {
      q[..qn]
    }

    /** Probe for `a`: to where it is, or to the empty slot that ends the run. */
    method Lookup(a: u64) returns (seen: bool, i: nat, ghost d: nat)
      requires tab.Length == SLOTS && Findable(tab[..]) && Used(tab[..]) < SLOTS
      ensures seen <==> a in Stored(tab[..])
      ensures !seen ==> d < SLOTS && i == At(Hash(a), d) && tab[i] == 0
      ensures !seen ==> Taken(tab[..], Hash(a), d)
    {
      ghost var t := tab[..];
      ghost var empty := EmptySlot(t);
      var h := Hash(a);
      ghost var last := Distance(h, empty);
      d, i := 0, h;
      while tab[i] != 0
        invariant d <= last && i == At(h, d)
        invariant Taken(t, h, d) && Absent(t, h, d, a)
        decreases last - d
      {
        if tab[i] == a {
          assert t[i] == a;
          return true, i, d;
        }
        d := ProbeNext(t, h, d, a, empty);
        i := (i + 1) % SLOTS;
      }
      if a != 0 {
        NotStored(t, a, d);
      }
      seen := false;
    }

    /** vis_seen: true exactly for an address already stored; otherwise it is
        stored, until the table is half full. */
    method VisSeen(a: u64) returns (seen: bool)
      requires Valid()
      modifies this`visited, tab
      ensures Valid()
      ensures seen <==> a in old(Stored(tab[..]))
      ensures Stored(tab[..]) == if !seen && a != 0 && old(visited) < CAP
                                 then old(Stored(tab[..])) + {a} else old(Stored(tab[..]))
      ensures visited == if !seen && old(visited) < CAP then old(visited) + 1 else old(visited)
    {
      ghost var t := tab[..];
      var i;
      ghost var d;
      seen, i, d := Lookup(a);
      if !seen && visited < CAP {
        UsedUpdate(t, i, a);
        if a != 0 {
          StoreFindable(t, a, d);
        }
        tab[i] := a;
        visited := visited + 1;
        assert tab[..] == t[i := a];
        assert a == 0 ==> tab[..] == t;
      }
    }

    /** enqueue. */
    method Enqueue(c: Code, target: u64, depth: nat)
      requires Valid()
      modifies this, tab, q
      ensures Valid() && View() == Push(c, old(View()), Entry(target, depth))
    {
      if depth > MAX_DEPTH || target < c.lo || target >= c.hi {
        return;
      }
      if qn >= STACK_MAX {
        dropped := true;
        return;
      }
      var seen := VisSeen(target);
      if seen {
        return;
      }
      ghost var was := Stack();
      q[qn] := Entry(target, depth);
      qn := qn + 1;
      assert Stack() == was + [Entry(target, depth)];
    }

    /** One word of a body: whether the body ends with it, and how many
        undecodable words in a row there are now. */
    method ScanWord(c: Code, e: Entry, k: nat, junk: nat, ghost goal: Walk)
      returns (ends: bool, junk': nat, k': nat)
      requires Valid() && 4 * k + 4 <= NODE_MAX && junk < JUNK_MAX
      requires goal == FromWord(c, View(), e, k, junk)
      modifies this, tab, q
      ensures Valid() && k' == k + 1
      ensures goal == if ends then View() else FromWord(c, View(), e, k', junk')
    {
      var kind := c.KindAt(e.addr, k);
      ends, junk', k' := kind == Ret || kind == Jump, if kind == Junk then junk + 1 else 0, k + 1;
      FromNext(c, View(), e, k, junk, junk', k');
      if kind == Link || kind == Jump {
        Enqueue(c, c.Target(e.addr, k), e.depth + 1);
      }
    }

    /** One body, word by word. */
    method ScanBody(c: Code, e: Entry)
      requires Valid()
      modifies this, tab, q
      ensures Valid() && View() == FromWord(c, old(View()), e, 0, 0)
    {
      var junk: nat, k: nat, ends := 0, 0, false;
      ghost var goal := FromWord(c, View(), e, 0, 0);
      while !ends && 4 * k + 4 <= NODE_MAX && junk < JUNK_MAX
        invariant Valid() && 4 * k <= NODE_MAX
        invariant goal == if ends then View() else FromWord(c, View(), e, k, junk)
        decreases NODE_MAX - 4 * k
      {
        ends, junk, k := ScanWord(c, e, k, junk, goal);
      }
      if !ends {
        FromEnd(c, View(), e, k, junk);
      }
    }

    /** Pop the entry pushed last and scan its body: one turn, which takes the
        stack down. */
    method WalkNext(c: Code)
      requires Valid() && qn > 0 && Bounded(Stack())
      modifies this, tab, q
      ensures Valid() && View() == Turn(c, old(View()))
      ensures Bounded(Stack()) && Lower(old(Stack()), Stack()) && |scanned| == |old(scanned)| + 1
    {
      TurnDescends(c, View());
      ghost var was := Stack();
      qn := qn - 1;
      var e := q[qn];
      scanned := scanned + [e];
      assert Stack() == was[..|was| - 1] && e == was[|was| - 1];
      ScanBody(c, e);
    }

    /** walk_from: it ends, even when the visited table no longer stops
        anything, in the state the turns of the walk lead to.  It only ever
        scans what is at most six edges away; unless the table filled up it
        scans no address twice; and unless the stack overflowed too, every
        branch out of a body scanned less than six deep leads to a scanned body
        or out of the text. */
    method WalkFrom(c: Code, start: u64)
      requires Valid()
      modifies this, tab, q
      ensures Valid() && Stack() == [] && View() == Turns(c, Begin(c, start), |scanned|)
      ensures c.lo > 0 ==> Sound(c, start, View())
    {
      Reset();
      Enqueue(c, start, 0);
      ghost var first := Begin(c, start);
      assert View() == first;
      PushGrows(c, Walk([], {}, 0, false, []), Entry(start, 0));
      while qn > 0 && visited <= MAX_NODES
        invariant Valid() && Bounded(Stack()) && View() == Turns(c, first, |scanned|)
        decreases Count(Stack(), 0), Count(Stack(), 1), Count(Stack(), 2), Count(Stack(), 3),
                  Count(Stack(), 4), Count(Stack(), 5), Count(Stack(), 6)
      {
        WalkNext(c);
      }
      if c.lo > 0 {
        Finished(c, start, |scanned|);
      }
    }

    /** vis_reset, and an empty stack. */
    method Reset()
      requires Valid()
      modifies this, tab
      ensures Valid() && View() == Walk([], {}, 0, false, [])
    {
      var i := 0;
      while i < SLOTS
        invariant i <= SLOTS
        invariant forall j :: 0 <= j < i ==> tab[j] == 0
        modifies tab
      {
        tab[i] := 0;
        i := i + 1;
      }
      UsedNone(tab[..]);
      visited := 0;
      qn := 0;
      dropped := false;
      scanned := [];
    }
  }

  lemma {:induction false} UsedNone(t: seq<u64>)
    requires forall i :: 0 <= i < |t| ==> t[i] == 0
    ensures Used(t) == 0
  {
    if t != [] {
      UsedNone(t[..|t| - 1]);
    }
  }

  /** Every entry is that many edges away from `start`. */
  ghost predicate AllReached(c: Code, start: u64, s: seq<Entry>) {
    s == [] || (AllReached(c, start, s[..|s| - 1]) && c.ReachedIn(start, s[|s| - 1].addr, s[|s| - 1].depth))
  }

  ghost function Addresses(s: seq<Entry>): set<u64> {
    if s == [] then {} else Addresses(s[..|s| - 1]) + {s[|s| - 1].addr}
  }

  ghost predicate NoneTwice(s: seq<Entry>) {
    s == [] || (NoneTwice(s[..|s| - 1]) && s[|s| - 1].addr !in Addresses(s[..|s| - 1]))
  }

  lemma {:induction false} AddressesCount(s: seq<Entry>)
    requires NoneTwice(s)
    ensures |Addresses(s)| == |s|
  {
    if s != [] {
      AddressesCount(s[..|s| - 1]);
    }
  }

  /** What one pop keeps. */
  lemma {:induction false} Popped(c: Code, start: u64, was: seq<Entry>, now: seq<Entry>, e: Entry)
    requires was == now + [e] && Bounded(was) && AllReached(c, start, was)
    ensures Bounded(now) && AllReached(c, start, now)
    ensures e.depth <= MAX_DEPTH && c.ReachedIn(start, e.addr, e.depth)
  {
    assert was[..|was| - 1] == now && was[|was| - 1] == e;
  }

  /** As long as the table still takes addresses, it holds what was scanned
      or is on the stack, and nothing is there twice. */
  ghost predicate Once(scanned: seq<Entry>, stack: seq<Entry>, stored: set<u64>, visited: nat) {
    visited < CAP ==>
      && stored == Addresses(scanned) + Addresses(stack) && Addresses(scanned) !! Addresses(stack)
      && NoneTwice(scanned) && NoneTwice(stack)
  }

  lemma {:induction false} OncePushed(scanned: seq<Entry>, was: seq<Entry>, e: Entry,
                   stored: set<u64>, stored': set<u64>, visited: nat, visited': nat)
    requires Once(scanned, was, stored, visited) && visited <= visited' && e.addr !in stored
    requires visited < CAP ==> stored' == stored + {e.addr}
    ensures Once(scanned, was + [e], stored', visited')
  {
    assert (was + [e])[..|was|] == was;
  }

  lemma {:induction false} OnceMoved(scanned: seq<Entry>, rest: seq<Entry>, e: Entry, stored: set<u64>, visited: nat)
    requires Once(scanned, rest + [e], stored, visited)
    ensures Once(scanned + [e], rest, stored, visited)
  {
    assert (rest + [e])[..|rest|] == rest && (scanned + [e])[..|scanned|] == scanned;
    assert Addresses(scanned + [e]) + Addresses(rest) == Addresses(scanned) + Addresses(rest + [e]);
  }

  ghost predicate AllExplored(c: Code, scanned: seq<Entry>, stored: set<u64>) {
    scanned == []
    || (&& AllExplored(c, scanned[..|scanned| - 1], stored)
        && (scanned[|scanned| - 1].depth < MAX_DEPTH ==> c.Explored(scanned[|scanned| - 1].addr, stored)))
  }

  lemma {:induction false} AllExploredMore(c: Code, scanned: seq<Entry>, stored: set<u64>, stored': set<u64>)
    requires AllExplored(c, scanned, stored) && stored <= stored'
    ensures AllExplored(c, scanned, stored')
  {
    if scanned != [] {
      AllExploredMore(c, scanned[..|scanned| - 1], stored, stored');
    }
  }

  /** What is known of a walk that has ended: what it scanned it reached, within
      six edges and from `start` on; nothing twice unless the table filled up;
      and every branch of a body scanned less than six deep was followed unless
      something overflowed. */
  ghost predicate Sound(c: Code, start: u64, w: Walk) {
    && AllReached(c, start, w.scanned) && Bounded(w.scanned)
    && (if c.InText(start) then w.scanned != [] && w.scanned[0] == Entry(start, 0) else w.scanned == [])
    && (w.count < CAP ==> |Addresses(w.scanned)| == |w.scanned|)
    && (Complete(w) ==> AllExplored(c, w.scanned, Addresses(w.scanned)))
  }

  lemma {:induction false} Finished(c: Code, start: u64, n: nat)
    requires c.lo > 0 && Turns(c, Begin(c, start), n).stack == []
    ensures Sound(c, start, Turns(c, Begin(c, start), n))
  {
    TurnsKeep(c, start, n);
    BeginKeeps(c, start);
    var w := Turns(c, Begin(c, start), n);
    NothingLeft(w.scanned, w.stack, w.stored, w.count);
  }

  lemma {:induction false} NothingLeft(scanned: seq<Entry>, stack: seq<Entry>, stored: set<u64>, visited: nat)
    requires Once(scanned, stack, stored, visited) && stack == []
    ensures visited < CAP ==> stored == Addresses(scanned) && |stored| == |scanned|
  {
    if visited < CAP {
      AddressesCount(scanned);
    }
    assert Addresses(scanned) + Addresses(stack) == Addresses(scanned);
  }

  lemma {:induction false} GrownMore(a: seq<Entry>, b: seq<Entry>, c: seq<Entry>, depth: nat)
    requires Grown(a, b, depth) && Grown(b, c, depth)
    ensures Grown(a, c, depth)
  {
    assert c[..|a|] == b[..|a|];
    assert forall i :: |a| <= i < |b| ==> c[i] == b[i];
  }

  lemma {:induction false} FollowEdge(c: Code, start: u64, e: Entry, child: Entry)
    requires c.ReachedIn(start, e.addr, e.depth) && c.Edge(e.addr, child.addr) && child.depth == e.depth + 1
    requires c.InText(child.addr)
    ensures c.ReachedIn(start, child.addr, child.depth)
  {
  }

  /** What one push keeps. */
  lemma {:induction false} Pushed(c: Code, start: u64, was: seq<Entry>, e: Entry)
    requires Bounded(was) && e.depth <= MAX_DEPTH
    requires AllReached(c, start, was) && c.ReachedIn(start, e.addr, e.depth)
    ensures Bounded(was + [e]) && AllReached(c, start, was + [e])
  {
    assert (was + [e])[..|was|] == was;
  }
}
