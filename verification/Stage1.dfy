/** The stage-1 walk that answers AT (src/ohv_vcpu.cpp:441-528).

  A memory gives the 8-byte word at each guest physical address at which eight
  bytes are mapped.
*/
module Stage1 {
  import opened Words

  type Memory = map<int, u64>

  const PAR_FAULT: u64 := 1

  /** The four registers the walk reads, out of the banked block. */
  datatype Regime = Regime(ttbr0: u64, ttbr1: u64, tcr: u64, sctlr: u64)

  /** Granule, input size and root of one half of the address space. */
  datatype Geometry = Geometry(page: nat, va: nat, root: u64)

  ghost predicate Supported(g: Geometry) {
    (g.page == 12 || g.page == 14 || g.page == 16) && g.page <= g.va <= 52
  }

  /** A level whose shift lies inside the input address, so that
      `va_bits - shift` does not underflow. */
  ghost predicate Walkable(g: Geometry, level: nat) {
    Supported(g) && level <= 3 && Shift(g.page, level) <= g.va
  }

  // ------------------------------------------------------------- geometry

  /** TG0 and TG1 spell the three granules in different orders. */
  function PageBits(upper: bool, tg: nat): Option<nat> {
    if upper then
      if tg == 1 then Some(14) else if tg == 2 then Some(12) else if tg == 3 then Some(16) else None
    else
      if tg == 0 then Some(12) else if tg == 1 then Some(16) else if tg == 2 then Some(14) else None
  }

  function Select(r: Regime, va: u64): (g: Option<Geometry>)
    ensures g.Some? ==> Supported(g.value)
  {
    var upper := va >= TWO63;
    var tsz := if upper then r.tcr / 0x1_0000 % 64 else r.tcr % 64;
    var tg := if upper then r.tcr / 0x4000_0000 % 4 else r.tcr / 0x4000 % 4;
    match PageBits(upper, tg)
    case None => None
    case Some(page) =>
      var bits := 64 - tsz;
      if bits < page || bits > 52 then None
      else Some(Geometry(page, bits, if upper then r.ttbr1 else r.ttbr0))
  }

  function LevelBits(page: nat): nat
    requires page >= 3
  {
    page - 3
  }

  /** The lowest address bit that level `level` resolves. */
  function Shift(page: nat, level: nat): (s: nat)
    requires page >= 3 && level <= 3
    ensures s >= page
    decreases 3 - level
  {
    if level == 3 then page else Shift(page, level + 1) + LevelBits(page)
  }

  /** The closed form the code uses inside the walk. */
  method WalkShift(page: nat, level: nat) returns (s: nat)
    requires page >= 3 && level <= 3
    ensures s == Shift(page, level)
  {
    Shifts(page);
    s := page + (3 - level) * LevelBits(page);
  }

  lemma {:induction false} Shifts(page: nat)
    requires page >= 3
    ensures Shift(page, 3) == page && Shift(page, 2) == page + LevelBits(page)
    ensures Shift(page, 1) == page + 2 * LevelBits(page) && Shift(page, 0) == page + 3 * LevelBits(page)
  {
  }

  /** The level the walk starts at: the deepest one whose index still reaches
      the top of the input address, or level 0. */
  ghost predicate IsStart(g: Geometry, level: nat)
    requires g.page >= 3
  {
    && level <= 3
    && (level > 0 ==> Shift(g.page, level) + LevelBits(g.page) >= g.va)
    && (level < 3 ==> Shift(g.page, level + 1) + LevelBits(g.page) < g.va)
  }

  function StartFrom(g: Geometry, level: nat): nat
    requires g.page >= 3 && level <= 3
  {
    if level > 0 && Shift(g.page, level) + LevelBits(g.page) < g.va
    then StartFrom(g, level - 1) else level
  }

  function Start(g: Geometry): nat
    requires g.page >= 3
  {
    StartFrom(g, 3)
  }

  /** The start level is the one the definition asks for, it is the only one,
      and every level from there down is walkable. */
  lemma {:induction false} StartIsStart(g: Geometry, level: nat)
    requires Supported(g)
    ensures IsStart(g, level) <==> level == Start(g)
    ensures Start(g) <= level <= 3 ==> Walkable(g, level)
  {
    Shifts(g.page);
    assert StartFrom(g, 0) == 0;
    assert StartFrom(g, 1) == if Shift(g.page, 1) + LevelBits(g.page) < g.va then 0 else 1;
    assert StartFrom(g, 2) == if Shift(g.page, 2) + LevelBits(g.page) < g.va then StartFrom(g, 1) else 2;
    assert StartFrom(g, 3) == if Shift(g.page, 3) + LevelBits(g.page) < g.va then StartFrom(g, 2) else 3;
  }

  function IndexBits(g: Geometry, level: nat): (b: nat)
    requires Walkable(g, level)
    ensures b <= LevelBits(g.page)
  {
    var shift := Shift(g.page, level);
    if shift + LevelBits(g.page) > g.va then g.va - shift else LevelBits(g.page)
  }

  function Index(g: Geometry, level: nat, va: u64): nat
    requires Walkable(g, level)
  {
    Low(Shr(va, Shift(g.page, level)), IndexBits(g, level))
  }

  // ----------------------------------------------------------- descriptors

  datatype Descriptor = Invalid | Leaf(base: nat) | Table(base: nat)

  /** `desc & 0x0000fffffffff000`. */
  function AddressField(desc: u64): nat {
    AlignDown(Low(desc, 48), 12)
  }

  function Classify(desc: u64, level: nat): Descriptor {
    if desc % 2 == 0 then Invalid
    else if desc % 4 == 1 || level == 3 then Leaf(AddressField(desc))
    else Table(AddressField(desc))
  }

  /** The address of the descriptor that `level` reads in `table`. */
  function Entry(g: Geometry, level: nat, table: nat, va: u64): nat
    requires Walkable(g, level)
  {
    table + 8 * Index(g, level, va)
  }

  // ------------------------------------------- the reference: a recursion

  datatype Found = Fault | Hit(level: nat, base: nat)

  datatype Next = Stop(found: Found) | Descend(table: nat)

  /** Descend on a table, stop on a leaf, fault on anything else. */
  function Visit(m: Memory, g: Geometry, level: nat, table: nat, va: u64): (n: Next)
    requires Walkable(g, level)
    ensures n.Descend? ==> Walkable(g, level + 1)
    ensures n.Stop? && n.found.Hit? ==> n.found.level == level
  {
    var a := Entry(g, level, table, va);
    if a !in m then Stop(Fault)
    else
      match Classify(m[a], level)
      case Invalid => Stop(Fault)
      case Leaf(base) => Stop(Hit(level, base))
      case Table(base) => Descend(AlignDown(base, g.page))
  }

  function Resolve(m: Memory, g: Geometry, level: nat, table: nat, va: u64): (f: Found)
    requires Walkable(g, level)
    ensures f.Hit? ==> level <= f.level && Walkable(g, f.level)
    decreases 3 - level
  {
    var n := Visit(m, g, level, table, va);
    if n.Stop? then n.found else Resolve(m, g, level + 1, n.table, va)
  }

  function Root(g: Geometry): nat {
    AlignDown(Low(g.root, 48), g.page)
  }

  function Walk(m: Memory, g: Geometry, va: u64): (f: Found)
    requires Supported(g)
    ensures f.Hit? ==> Walkable(g, f.level)
  {
    StartIsStart(g, Start(g));
    Resolve(m, g, Start(g), Root(g), va)
  }

  /** The physical page a leaf names, and the part of the address under it
      that PAR_EL1 carries (bits 47:12). */
  function PhysicalBase(g: Geometry, level: nat, base: nat): nat
    requires g.page >= 3 && level <= 3
  {
    AlignDown(base, Shift(g.page, level))
  }

  function OffsetField(g: Geometry, level: nat, va: u64): nat
    requires g.page >= 3 && level <= 3
  {
    AlignDown(Low(Low(va, Shift(g.page, level)), 48), 12)
  }

  function Output(g: Geometry, f: Found, va: u64): nat
    requires g.page >= 3
    requires f.Hit? ==> f.level <= 3
  {
    match f
    case Fault => PAR_FAULT
    case Hit(level, base) => PhysicalBase(g, level, base) + OffsetField(g, level, va)
  }

  /** What AT leaves in PAR_EL1. */
  function Translate(r: Regime, m: Memory, va: u64): nat {
    if r.sctlr % 2 == 0 then AlignDown(Low(va, 48), 12)
    else
      match Select(r, va)
      case None => PAR_FAULT
      case Some(g) => Output(g, Walk(m, g, va), va)
  }

  ghost predicate Faults(r: Regime, m: Memory, va: u64) {
    r.sctlr % 2 == 1 &&
    (Select(r, va).None? || Walk(m, Select(r, va).value, va).Fault?)
  }

  // ------------------------------------------------------- the code's loop

  /** The level the walk starts at, given how many bits are left to resolve. */
  method StartLevel(g: Geometry) returns (level: nat)
    requires Supported(g)
    ensures level == Start(g)
  {
    level := 3;
    var resolved := g.page;
    while level > 0 && resolved + LevelBits(g.page) < g.va
      invariant level <= 3 && resolved == Shift(g.page, level)
      invariant Start(g) == StartFrom(g, level)
    {
      resolved := resolved + LevelBits(g.page);
      level := level - 1;
    }
  }

  /** One turn of the walk: read the descriptor and act on it. */
  method ReadLevel(m: Memory, g: Geometry, level: nat, table: nat, va: u64) returns (n: Next)
    requires Walkable(g, level)
    ensures n == Visit(m, g, level, table, va)
  {
    var shift := WalkShift(g.page, level);
    var bits := if shift + LevelBits(g.page) > g.va then g.va - shift else LevelBits(g.page);
    var index := Low(Shr(va, shift), bits);
    if table + 8 * index !in m {
      return Stop(Fault);
    }
    var desc := m[table + 8 * index];
    if desc % 2 == 0 {
      return Stop(Fault);
    }
    var next := AddressField(desc);
    if desc % 4 == 1 || level == 3 {
      return Stop(Hit(level, next));
    }
    n := Descend(AlignDown(next, g.page));
  }

  /** The walk, level by level from the root. */
  method WalkTables(m: Memory, g: Geometry, va: u64) returns (par: nat)
    requires Supported(g)
    ensures par == Output(g, Walk(m, g, va), va)
  {
    var level := StartLevel(g);
    StartIsStart(g, level);
    var table := Root(g);
    ghost var found := Walk(m, g, va);
    while true
      invariant Walkable(g, level)
      invariant found == Resolve(m, g, level, table, va)
      decreases 3 - level
    {
      var n := ReadLevel(m, g, level, table, va);
      match n {
        case Stop(f) =>
          return Output(g, f, va);
        case Descend(next) =>
          table := next;
          level := level + 1;
          if level > 3 {
            assert false;  // the leaf rule already stopped the walk at level 3
          }
      }
    }
  }

  /** ohv_translate_stage1. */
  method TranslateStage1(r: Regime, m: Memory, va: u64) returns (par: u64)
    ensures par == Translate(r, m, va)
  {
    TranslateFits(r, m, va);
    if r.sctlr % 2 == 0 {
      return AlignDown(Low(va, 48), 12);
    }
    var g := Select(r, va);
    if g.None? {
      return PAR_FAULT;
    }
    par := WalkTables(m, g.value, va);
  }

  /** PAR_EL1 is a 64-bit word, and bit 0 is set exactly on a fault. */
  lemma {:induction false} TranslateFits(r: Regime, m: Memory, va: u64)
    ensures Translate(r, m, va) < TWO64
    ensures Translate(r, m, va) % 2 == 1 <==> Faults(r, m, va)
    ensures Faults(r, m, va) <==> Translate(r, m, va) == PAR_FAULT
  {
    if r.sctlr % 2 == 0 {
      OffFits(va);
    } else if Select(r, va).Some? {
      WalkFits(m, Select(r, va).value, va);
    }
  }

  lemma {:induction false} OffFits(va: u64)
    ensures AlignDown(Low(va, 48), 12) < TWO64 && AlignDown(Low(va, 48), 12) % 2 == 0
  {
    Low48(va);
    AlignDownEven(Low(va, 48), 12);
  }

  lemma {:induction false} WalkFits(m: Memory, g: Geometry, va: u64)
    requires Supported(g)
    ensures var par := Output(g, Walk(m, g, va), va);
            par < TWO64 && par % 2 == if Walk(m, g, va).Fault? then 1 else 0
    ensures Walk(m, g, va).Fault? ==> Output(g, Walk(m, g, va), va) == PAR_FAULT
  {
    if Walk(m, g, va).Hit? {
      OutputFits(m, g, va);
    }
  }

  lemma {:induction false} OutputFits(m: Memory, g: Geometry, va: u64)
    requires Supported(g) && Walk(m, g, va).Hit?
    ensures Output(g, Walk(m, g, va), va) < TWO64
    ensures Output(g, Walk(m, g, va), va) % 2 == 0
  {
    StartIsStart(g, Start(g));
    HitBase(m, g, Start(g), Root(g), va);
    PartsFit(Walk(m, g, va).base, Shift(g.page, Walk(m, g, va).level), va);
  }

  lemma {:induction false} PartsFit(base: nat, s: nat, va: u64)
    requires s > 0 && base < 0x1_0000_0000_0000
    ensures AlignDown(base, s) + AlignDown(Low(Low(va, s), 48), 12) < TWO64
    ensures (AlignDown(base, s) + AlignDown(Low(Low(va, s), 48), 12)) % 2 == 0
  {
    var offset := Low(Low(va, s), 48);
    Low48(Low(va, s));
    AlignDownEven(base, s);
    AlignDownEven(offset, 12);
    EvenPlus(AlignDown(base, s), AlignDown(offset, 12));
  }

  lemma {:induction false} EvenPlus(a: nat, b: nat)
    requires a % 2 == 0 && b % 2 == 0
    ensures (a + b) % 2 == 0
  {
  }

  lemma {:induction false} HitBase(m: Memory, g: Geometry, level: nat, table: nat, va: u64)
    requires Walkable(g, level)
    ensures var f := Resolve(m, g, level, table, va); f.Hit? ==> f.base < 0x1_0000_0000_0000
    decreases 3 - level
  {
    var a := Entry(g, level, table, va);
    if a in m {
      Low48(m[a]);
      if Classify(m[a], level).Table? {
        HitBase(m, g, level + 1, AlignDown(Classify(m[a], level).base, g.page), va);
      }
    }
  }

  lemma {:induction false} AlignDownEven(x: nat, n: nat)
    requires n > 0
    ensures AlignDown(x, n) % 2 == 0
  {
    var k := x / 2 - Low(x / 2, n - 1);
    assert Low(x, n) == x % 2 + 2 * Low(x / 2, n - 1);
    assert AlignDown(x, n) == 2 * k;
  }

  // ------------------------------------------------------------ radix laws

  /** The indices from `level` down, at their shifts, over the page offset. */
  function Rebuild(g: Geometry, level: nat, va: u64): nat
    requires level == 4 || Walkable(g, level)
    requires Supported(g)
    decreases 4 - level
  {
    if level == 4 then Low(va, g.page)
    else Shl(Index(g, level, va), Shift(g.page, level)) + Rebuild(g, level + 1, va)
  }

  /** How many address bits the levels from `level` down resolve. */
  function Covered(g: Geometry, level: nat): nat
    requires level == 4 || Walkable(g, level)
    requires Supported(g)
  {
    if level == 4 then g.page else Shift(g.page, level) + IndexBits(g, level)
  }

  lemma {:induction false} RebuildLevel(g: Geometry, level: nat, va: u64)
    requires level == 4 || Walkable(g, level)
    requires Supported(g)
    ensures Rebuild(g, level, va) == Low(va, Covered(g, level))
    decreases 4 - level
  {
    if level < 4 {
      RebuildLevel(g, level + 1, va);
      assert Covered(g, level + 1) == Shift(g.page, level);
      ShiftShift(va, Shift(g.page, level), IndexBits(g, level));
    }
  }

  /** The indices and the page offset rebuild the input address ... */
  lemma {:induction false} Radix(g: Geometry, va: u64)
    requires Supported(g)
    requires g.page != 12 || g.va <= 48
    ensures Walkable(g, Start(g))
    ensures Rebuild(g, Start(g), va) == Low(va, g.va)
  {
    StartIsStart(g, Start(g));
    Shifts(g.page);
    assert Covered(g, Start(g)) == g.va;
    RebuildLevel(g, Start(g), va);
  }

  /** ... for exactly the geometries other than 4 KiB with more than 48 bits,
      where level 0 resolves nine bits and the rest of the address is lost. */
  lemma {:induction false} RadixExactly(g: Geometry)
    requires Supported(g)
    ensures Walkable(g, Start(g))
    ensures (forall va: u64 :: Rebuild(g, Start(g), va) == Low(va, g.va)) <==> (g.page != 12 || g.va <= 48)
  {
    StartIsStart(g, Start(g));
    if g.page != 12 || g.va <= 48 {
      forall va: u64 ensures Rebuild(g, Start(g), va) == Low(va, g.va) {
        Radix(g, va);
      }
    } else {
      Powers();
      var va: u64 := 0x1_0000_0000_0000;
      Shifts(g.page);
      StartIsStart(g, 0);
      RebuildLevel(g, 0, va);
      LowOfPow2(48);
      Pow2Monotonic(48, g.va);
      LowSmall(va, g.va);
    }
  }

  // ------------------------------------------------------------- leaf laws

  /** Addresses that agree above a level's shift have the same indices at that
      level and above it. */
  lemma {:induction false} SameIndex(g: Geometry, level: nat, low: nat, va: u64, va': u64)
    requires Walkable(g, level) && level <= low <= 3
    requires Shr(va, Shift(g.page, low)) == Shr(va', Shift(g.page, low))
    ensures Index(g, level, va) == Index(g, level, va')
  {
    var a := Shift(g.page, low);
    Shifts(g.page);
    var b := Shift(g.page, level) - a;
    ShiftShift(va, a, b);
    ShiftShift(va', a, b);
  }

  lemma {:induction false} SameEntry(g: Geometry, level: nat, low: nat, table: nat, va: u64, va': u64)
    requires Walkable(g, level) && level <= low <= 3
    requires Shr(va, Shift(g.page, low)) == Shr(va', Shift(g.page, low))
    ensures Entry(g, level, table, va') == Entry(g, level, table, va)
  {
    SameIndex(g, level, low, va, va');
  }

  /** A table is visited at its entry. */
  lemma {:induction false} SameVisit(m: Memory, g: Geometry, level: nat, table: nat, va: u64, va': u64)
    requires Walkable(g, level) && Entry(g, level, table, va') == Entry(g, level, table, va)
    ensures Visit(m, g, level, table, va') == Visit(m, g, level, table, va)
  {
  }

  lemma {:induction false} SameLeaf(m: Memory, g: Geometry, level: nat, table: nat, va: u64, va': u64)
    requires Walkable(g, level)
    requires Resolve(m, g, level, table, va).Hit?
    requires var s := Shift(g.page, Resolve(m, g, level, table, va).level);
             Shr(va, s) == Shr(va', s)
    ensures Resolve(m, g, level, table, va') == Resolve(m, g, level, table, va)
    decreases 3 - level
  {
    SameEntry(g, level, Resolve(m, g, level, table, va).level, table, va, va');
    SameVisit(m, g, level, table, va, va');
    var n := Visit(m, g, level, table, va);
    if n.Descend? {
      SameLeaf(m, g, level + 1, n.table, va, va');
    }
  }

  /** Every address under one leaf translates, to that leaf, with the offset
      it has under the leaf (bits 47:12 of it) unchanged. */
  lemma {:induction false} LeafTranslates(m: Memory, g: Geometry, va: u64, va': u64)
    requires Supported(g) && Walk(m, g, va).Hit?
    requires var s := Shift(g.page, Walk(m, g, va).level);
             Shr(va, s) == Shr(va', s)
    ensures var f := Walk(m, g, va);
            var s := Shift(g.page, f.level);
            && Walk(m, g, va') == f
            && Low(Output(g, f, va'), s) == AlignDown(Low(va', s), 12)
            && AlignDown(Output(g, f, va'), s) == PhysicalBase(g, f.level, f.base)
  {
    StartIsStart(g, Start(g));
    SameLeaf(m, g, Start(g), Root(g), va, va');
    assert Shift(g.page, Walk(m, g, va).level) <= 48 by {
      Shifts(g.page);
    }
    LeafOutput(g, Walk(m, g, va), va');
  }

  lemma {:induction false} LeafOutput(g: Geometry, f: Found, va: u64)
    requires Supported(g) && f.Hit? && f.level <= 3 && Shift(g.page, f.level) <= 48
    ensures var s := Shift(g.page, f.level);
            && Low(Output(g, f, va), s) == AlignDown(Low(va, s), 12)
            && AlignDown(Output(g, f, va), s) == PhysicalBase(g, f.level, f.base)
  {
    var s := Shift(g.page, f.level);
    OffsetBelow(va, s);
    AlignedPlus(f.base, s, AlignDown(Low(va, s), 12));
  }

  lemma {:induction false} OffsetBelow(va: nat, s: nat)
    requires s <= 48
    ensures Low(Low(va, s), 48) == Low(va, s)
    ensures AlignDown(Low(va, s), 12) < Pow2(s)
  {
    LowLow(va, s, 48);
    LowBelow(va, s);
  }

  // ------------------------------------------------------- what it depends on

  /** The descriptor addresses the walk reads, in order. */
  function Visited(m: Memory, g: Geometry, level: nat, table: nat, va: u64): (v: seq<nat>)
    requires Walkable(g, level)
    ensures 1 <= |v| <= 4 - level
    decreases 3 - level
  {
    var a := Entry(g, level, table, va);
    match Visit(m, g, level, table, va)
    case Stop(_) => [a]
    case Descend(next) => [a] + Visited(m, g, level + 1, next, va)
  }

  /** The reads after the first are those of the table it names. */
  lemma {:induction false} VisitedRest(m: Memory, g: Geometry, level: nat, table: nat, va: u64)
    requires Walkable(g, level)
    ensures var v := Visited(m, g, level, table, va);
            var a := Entry(g, level, table, va);
            && v[0] == a
            && match Visit(m, g, level, table, va)
               case Stop(_) => v == [a]
               case Descend(next) => && a in m && next == AlignDown(AddressField(m[a]), g.page)
                                     && v[1..] == Visited(m, g, level + 1, next, va)
  {
  }

  /** Every read is one aligned word inside the granule of the table in hand:
      the first table is the one given, each later one is the one the word
      read just before names. */
  lemma {:induction false} ReadsStayInTables(m: Memory, g: Geometry, level: nat, table: nat, va: u64, i: nat)
    requires Walkable(g, level)
    requires i < |Visited(m, g, level, table, va)|
    ensures var v := Visited(m, g, level, table, va);
            && (i > 0 ==> v[i - 1] in m)
            && InTable(g, if i == 0 then table else AlignDown(AddressField(m[v[i - 1]]), g.page), v[i])
    decreases 3 - level
  {
    VisitedRest(m, g, level, table, va);
    if i == 0 {
      IndexBelow(g, level, va);
    } else {
      ReadsStayInTables(m, g, level + 1, Visit(m, g, level, table, va).table, va, i - 1);
    }
  }

  /** One aligned word of the table at `table`. */
  ghost predicate InTable(g: Geometry, table: nat, a: nat) {
    table <= a && a + 8 <= table + Pow2(g.page) && (a - table) % 8 == 0
  }

  lemma {:induction false} IndexBelow(g: Geometry, level: nat, va: u64)
    requires Walkable(g, level)
    ensures 8 * Index(g, level, va) + 8 <= Pow2(g.page)
  {
    LowBelow(Shr(va, Shift(g.page, level)), IndexBits(g, level));
    Pow2Monotonic(IndexBits(g, level), LevelBits(g.page));
    Pow2Add(LevelBits(g.page), 3);
    assert Pow2(3) == 8;
  }

  /** The answer depends on nothing but the words visited. */
  lemma {:induction false} OnlyVisitedMatters(m: Memory, m': Memory, g: Geometry, level: nat, table: nat, va: u64)
    requires Walkable(g, level)
    requires forall a :: a in Visited(m, g, level, table, va) ==>
               (a in m <==> a in m') && (a in m ==> m[a] == m'[a])
    ensures Resolve(m', g, level, table, va) == Resolve(m, g, level, table, va)
    ensures Visited(m', g, level, table, va) == Visited(m, g, level, table, va)
    decreases 3 - level
  {
    var a := Entry(g, level, table, va);
    var v := Visited(m, g, level, table, va);
    assert v[0] == a;
    if a in m && Classify(m[a], level).Table? {
      var next := AlignDown(Classify(m[a], level).base, g.page);
      assert v[1..] == Visited(m, g, level + 1, next, va);
      forall b | b in Visited(m, g, level + 1, next, va)
        ensures (b in m <==> b in m') && (b in m ==> m[b] == m'[b])
      {
        assert b in v[1..];
      }
      OnlyVisitedMatters(m, m', g, level + 1, next, va);
    }
  }
}
