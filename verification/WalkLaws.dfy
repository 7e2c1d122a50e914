/** The stage-1 walk against the translation tables as the architecture draws
  them: which half an address belongs to, which bits of a descriptor and of a
  base register are used, and, for the four-level 4 KiB regime, what is mapped
  (src/ohv_vcpu.cpp:441-528).
*/
module WalkLaws {
  import opened Words
  import opened Stage1

  // ------------------------------------------------------- halves and fields

  /** `n` bits of a register, from bit `low` up. */
  function Field(w: u64, low: nat, n: nat): nat {
    Low(Shr(w, low), n)
  }

  /** The size of the input address is 64 - TnSZ of the half the address is in,
      the granule is that half's TGn -- in which TG0 and TG1 differ -- and the
      table is that half's own TTBR; a reserved granule, or a size that the
      walk cannot take, is refused. */
  lemma {:induction false} HalfExactly(r: Regime, va: u64)
    ensures var upper := va >= 0x8000_0000_0000_0000;
            var size := 64 - if upper then Field(r.tcr, 16, 6) else Field(r.tcr, 0, 6);
            var tg := if upper then Field(r.tcr, 30, 2) else Field(r.tcr, 14, 2);
            var page := if tg == (if upper then 2 else 0) then 12
                        else if tg == (if upper then 1 else 2) then 14
                        else if tg == (if upper then 3 else 1) then 16 else 0;
            Select(r, va) == if page == 0 || size < page || size > 52 then None
                             else Some(Geometry(page, size, if upper then r.ttbr1 else r.ttbr0))
  {
    TcrFields(r.tcr);
  }

  lemma {:induction false} TcrFields(tcr: u64)
    ensures Field(tcr, 0, 6) == tcr % 64 && Field(tcr, 16, 6) == tcr / 0x1_0000 % 64
    ensures Field(tcr, 14, 2) == tcr / 0x4000 % 4 && Field(tcr, 30, 2) == tcr / 0x4000_0000 % 4
  {
    SmallPowers();
    ShiftIsDivision(tcr, 16);
    ShiftIsDivision(tcr, 14);
    ShiftIsDivision(tcr, 30);
    ShiftIsDivision(tcr, 6);
    ShiftIsDivision(tcr / 0x1_0000, 6);
    ShiftIsDivision(tcr / 0x4000, 2);
    ShiftIsDivision(tcr / 0x4000_0000, 2);
  }

  lemma {:induction false} SmallPowers()
    ensures Pow2(2) == 4 && Pow2(6) == 64 && Pow2(9) == 512 && Pow2(14) == 0x4000 && Pow2(16) == 0x1_0000
    ensures Pow2(21) == 0x20_0000 && Pow2(30) == 0x4000_0000 && Pow2(39) == 0x80_0000_0000
  {
    Powers();
    assert Pow2(2) == 4 && Pow2(4) == 16 && Pow2(6) == 64;
    assert Pow2(8) == 256 && Pow2(9) == 512;
    assert Pow2(14) == 4 * Pow2(12);
    assert Pow2(16) == 4 * Pow2(14);
    assert Pow2(18) == 4 * Pow2(16);
    assert Pow2(20) == 4 * Pow2(18);
    assert Pow2(21) == 2 * Pow2(20);
    Pow2Add(21, 9);
    Pow2Add(30, 9);
  }

  /** Addresses of one half are translated from that half's base register
      alone. */
  lemma {:induction false} OwnHalf(r: Regime, m: Memory, va: u64, other: u64)
    ensures va >= 0x8000_0000_0000_0000 ==> Translate(r.(ttbr0 := other), m, va) == Translate(r, m, va)
    ensures va < 0x8000_0000_0000_0000 ==> Translate(r.(ttbr1 := other), m, va) == Translate(r, m, va)
  {
    var r' := if va >= 0x8000_0000_0000_0000 then r.(ttbr0 := other) else r.(ttbr1 := other);
    SameGeometry(r, r', m, va);
  }

  lemma {:induction false} SameGeometry(r: Regime, r': Regime, m: Memory, va: u64)
    requires Select(r', va) == Select(r, va) && r'.sctlr == r.sctlr
    ensures Translate(r', m, va) == Translate(r, m, va)
  {
  }

  // ------------------------------------------------------------ bits of words

  lemma {:induction false} LowBits(x: nat, n: nat, k: nat)
    ensures Bit(Low(x, n), k) <==> k < n && Bit(x, k)
  {
    if n == 0 {
      NoBits(k);
    } else if k > 0 {
      LowBits(x / 2, n - 1, k - 1);
      assert Low(x, n) / 2 == Low(x / 2, n - 1);
    }
  }

  lemma {:induction false} AlignBits(x: nat, n: nat, k: nat)
    ensures Bit(AlignDown(x, n), k) <==> n <= k && Bit(x, k)
  {
    if n > 0 {
      assert AlignDown(x, n) == 2 * AlignDown(x / 2, n - 1);
      if k > 0 {
        AlignBits(x / 2, n - 1, k - 1);
      }
    }
  }

  /** The address in a descriptor is its bits 47 to 12 ... */
  lemma {:induction false} AddressBits(desc: u64, k: nat)
    ensures Bit(AddressField(desc), k) <==> 12 <= k < 48 && Bit(desc, k)
  {
    AlignBits(Low(desc, 48), 12, k);
    LowBits(desc, 48, k);
  }

  /** ... the table a base register names is at its bits 47 and down, to the
      granule ... */
  lemma {:induction false} RootBits(g: Geometry, k: nat)
    ensures Bit(Root(g), k) <==> g.page <= k < 48 && Bit(g.root, k)
  {
    AlignBits(Low(g.root, 48), g.page, k);
    LowBits(g.root, 48, k);
  }

  /** ... and bits 1 and 0 say what a descriptor is: nothing, a table above the
      last level, or a leaf. */
  lemma {:induction false} DescriptorExactly(desc: u64, level: nat)
    ensures Classify(desc, level).Invalid? <==> !Bit(desc, 0)
    ensures Classify(desc, level).Table? <==> Bit(desc, 0) && Bit(desc, 1) && level != 3
    ensures Classify(desc, level) == Table(AddressField(desc)) || Classify(desc, level) == Leaf(AddressField(desc))
            || !Bit(desc, 0)
  {
    Parity(desc);
    assert Bit(desc, 1) == Bit(desc / 2, 0);
  }

  lemma {:induction false} Parity(d: nat)
    ensures d % 2 == d % 4 % 2 && (d / 2 % 2 == 1 <==> d % 4 >= 2)
  {
    var q, r := d / 4, d % 4;
    Quotient(2, 2 * q + r / 2, r % 2);
    Quotient(2, q, r / 2);
  }

  /** The first word read lies in the granule at the half's own base. */
  lemma {:induction false} FirstRead(r: Regime, m: Memory, va: u64)
    requires Select(r, va).Some?
    ensures var g := Select(r, va).value;
            && g.root == (if va >= 0x8000_0000_0000_0000 then r.ttbr1 else r.ttbr0)
            && Walkable(g, Start(g))
            && InTable(g, Root(g), Visited(m, g, Start(g), Root(g), va)[0])
  {
    var g := Select(r, va).value;
    StartIsStart(g, Start(g));
    ReadsStayInTables(m, g, Start(g), Root(g), va, 0);
  }

  /** With translation off the address is the answer, bits 47 to 12 of it. */
  lemma {:induction false} Untranslated(r: Regime, m: Memory, va: u64)
    requires r.sctlr % 2 == 0
    ensures Translate(r, m, va) == va / 0x1000 % 0x10_0000_0000 * 0x1000
  {
    BasePlain(va);
  }

  // ------------------------------------- the four-level regime, in plain numbers

  /** What one entry of a table at a level covers. */
  function Size(level: nat): nat
    requires level <= 3
  {
    if level == 0 then 0x80_0000_0000 else if level == 1 then 0x4000_0000 else if level == 2 then 0x20_0000 else 0x1000
  }

  /** The address a descriptor holds. */
  function BaseOf(desc: u64): nat {
    desc / 0x1000 % 0x10_0000_0000 * 0x1000
  }

  predicate Holds(m: Memory, a: int, desc: u64) {
    a in m && m[a] == desc
  }

  /** The descriptors of `path`, each in the table the one before it names,
      from a table of the given level down to a leaf, are the ones `va` goes
      through. */
  ghost predicate Maps(m: Memory, level: nat, table: nat, va: u64, path: seq<u64>)
    decreases |path|
  {
    && level <= 3 && path != []
    && Holds(m, table + 8 * (va / Size(level) % 512), path[0])
    && if |path| == 1 then path[0] % 4 == 1 || (level == 3 && path[0] % 4 == 3)
       else path[0] % 4 == 3 && level < 3 && Maps(m, level + 1, BaseOf(path[0]), va, path[1..])
  }

  /** Where a path leads: the leaf's address to its size, the address's own bits
      under that, to the page. */
  function Target(level: nat, va: u64, path: seq<u64>): nat
    requires path != [] && level + |path| <= 4
  {
    var size := Size(level + |path| - 1);
    BaseOf(path[|path| - 1]) / size * size + va % size / 0x1000 * 0x1000
  }

  /** 48-bit addresses and 4 KiB granules in both halves. */
  predicate FourLevels(r: Regime) {
    && r.sctlr % 2 == 1 && r.tcr % 64 == 16 && r.tcr / 0x1_0000 % 64 == 16
    && r.tcr / 0x4000 % 4 == 0 && r.tcr / 0x4000_0000 % 4 == 2
  }

  /** The table an address starts from. */
  function TableOf(r: Regime, va: u64): nat {
    BaseOf(if va >= 0x8000_0000_0000_0000 then r.ttbr1 else r.ttbr0)
  }

  lemma {:induction false} Plain(root: u64, level: nat)
    requires level <= 3
    ensures var g := Geometry(12, 48, root);
            && Start(g) == 0 && Walkable(g, level) && Pow2(Shift(12, level)) == Size(level)
            && IndexBits(g, level) == 9 && Root(g) == BaseOf(root)
  {
    var g := Geometry(12, 48, root);
    Shifts(12);
    SmallPowers();
    Powers();
    StartIsStart(g, 0);
    StartIsStart(g, level);
    BasePlain(root);
  }

  lemma {:induction false} BasePlain(desc: u64)
    ensures AddressField(desc) == BaseOf(desc) && AlignDown(BaseOf(desc), 12) == BaseOf(desc)
    ensures AlignDown(Low(desc, 48), 12) == BaseOf(desc)
  {
    Powers();
    ShiftIsDivision(desc, 48);
    ShiftIsDivision(desc % 0x1_0000_0000_0000, 12);
    PageNumber(desc);
    BaseAligned(desc);
  }

  lemma {:induction false} BaseAligned(desc: u64)
    ensures AlignDown(BaseOf(desc), 12) == BaseOf(desc)
  {
    Powers();
    ShiftIsDivision(BaseOf(desc), 12);
    Quotient(0x1000, desc / 0x1000 % 0x10_0000_0000, 0);
  }

  lemma {:induction false} PageNumber(desc: nat)
    ensures desc % 0x1_0000_0000_0000 - desc % 0x1_0000_0000_0000 % 0x1000 == desc / 0x1000 % 0x10_0000_0000 * 0x1000
  {
    var q, r := desc / 0x1000, desc % 0x1000;
    var t, u := q / 0x10_0000_0000, q % 0x10_0000_0000;
    Quotient(0x1_0000_0000_0000, t, 0x1000 * u + r);
    Quotient(0x1000, u, r);
  }

  lemma {:induction false} IndexPlain(root: u64, level: nat, table: nat, va: u64)
    requires level <= 3
    ensures Walkable(Geometry(12, 48, root), level)
    ensures Entry(Geometry(12, 48, root), level, table, va) == table + 8 * (va / Size(level) % 512)
  {
    Plain(root, level);
    SmallPowers();
    ShiftIsDivision(va, Shift(12, level));
    ShiftIsDivision(va / Size(level), 9);
  }

  lemma {:induction false} KindPlain(desc: u64, level: nat)
    requires level <= 3
    ensures Classify(desc, level) ==
            if desc % 2 == 0 then Invalid
            else if desc % 4 == 1 || level == 3 then Leaf(BaseOf(desc)) else Table(BaseOf(desc))
  {
    BasePlain(desc);
  }

  /** One table's turn in plain numbers. */
  function Turn(m: Memory, level: nat, table: nat, va: u64): Next
    requires level <= 3
  {
    var a := table + 8 * (va / Size(level) % 512);
    if a !in m || m[a] % 2 == 0 then Stop(Fault)
    else if m[a] % 4 == 1 || level == 3 then Stop(Hit(level, BaseOf(m[a])))
    else Descend(BaseOf(m[a]))
  }

  lemma {:induction false} VisitPlain(m: Memory, root: u64, level: nat, table: nat, va: u64)
    requires level <= 3
    ensures Walkable(Geometry(12, 48, root), level)
    ensures Visit(m, Geometry(12, 48, root), level, table, va) == Turn(m, level, table, va)
  {
    IndexPlain(root, level, table, va);
    var a := table + 8 * (va / Size(level) % 512);
    if a in m {
      KindPlain(m[a], level);
      BasePlain(m[a]);
    }
  }

  /** A path is what the walk finds ... */
  lemma {:induction false} PathIsHit(m: Memory, root: u64, level: nat, table: nat, va: u64, path: seq<u64>)
    requires Maps(m, level, table, va, path)
    ensures Walkable(Geometry(12, 48, root), level) && level + |path| <= 4
    ensures Resolve(m, Geometry(12, 48, root), level, table, va)
            == Hit(level + |path| - 1, BaseOf(path[|path| - 1]))
    decreases |path|
  {
    VisitPlain(m, root, level, table, va);
    Parity(path[0]);
    if |path| > 1 {
      PathIsHit(m, root, level + 1, BaseOf(path[0]), va, path[1..]);
    }
  }

  /** ... and what the walk finds is a path. */
  lemma {:induction false} HitHasPath(m: Memory, root: u64, level: nat, table: nat, va: u64) returns (path: seq<u64>)
    requires level <= 3 && Walkable(Geometry(12, 48, root), level)
    requires Resolve(m, Geometry(12, 48, root), level, table, va).Hit?
    ensures Maps(m, level, table, va, path)
    decreases 3 - level
  {
    var n := Visit(m, Geometry(12, 48, root), level, table, va);
    GoesOn(m, Geometry(12, 48, root), level, table, va);
    VisitPlain(m, root, level, table, va);
    TurnReads(m, level, table, va);
    var desc := m[table + 8 * (va / Size(level) % 512)];
    if n.Stop? {
      path := [desc];
    } else {
      var rest := HitHasPath(m, root, level + 1, n.table, va);
      path := [desc] + rest;
      LongerPath(m, level, table, va, desc, rest);
    }
  }

  /** A walk that ends in a leaf stops at one, or goes on to one. */
  lemma {:induction false} GoesOn(m: Memory, g: Geometry, level: nat, table: nat, va: u64)
    requires Walkable(g, level) && Resolve(m, g, level, table, va).Hit?
    ensures match Visit(m, g, level, table, va)
            case Stop(f) => f.Hit?
            case Descend(next) => level < 3 && Walkable(g, level + 1) && Resolve(m, g, level + 1, next, va).Hit?
  {
  }

  lemma {:induction false} TurnReads(m: Memory, level: nat, table: nat, va: u64)
    requires level <= 3
    ensures var n := Turn(m, level, table, va);
            var a := table + 8 * (va / Size(level) % 512);
            && (n.Descend? ==> a in m && m[a] % 4 == 3 && level < 3 && n.table == BaseOf(m[a]))
            && (n.Stop? && n.found.Hit? ==> a in m && (m[a] % 4 == 1 || (level == 3 && m[a] % 4 == 3)))
  {
    var a := table + 8 * (va / Size(level) % 512);
    if a in m {
      Parity(m[a]);
    }
  }

  lemma {:induction false} LongerPath(m: Memory, level: nat, table: nat, va: u64, desc: u64, rest: seq<u64>)
    requires level < 3 && desc % 4 == 3 && Maps(m, level + 1, BaseOf(desc), va, rest)
    requires var a := table + 8 * (va / Size(level) % 512); a in m && m[a] == desc
    ensures Maps(m, level, table, va, [desc] + rest)
  {
    assert ([desc] + rest)[1..] == rest;
  }

  lemma {:induction false} OutputPlain(root: u64, level: nat, va: u64, leaf: u64)
    requires level <= 3
    ensures Output(Geometry(12, 48, root), Hit(level, BaseOf(leaf)), va)
            == BaseOf(leaf) / Size(level) * Size(level) + va % Size(level) / 0x1000 * 0x1000
  {
    Plain(root, level);
    Powers();
    ShiftIsDivision(BaseOf(leaf), Shift(12, level));
    ShiftIsDivision(va, Shift(12, level));
    WholeUnits(BaseOf(leaf), Size(level));
    WholeUnits(va % Size(level), 0x1000);
    LowSmall48(va % Size(level));
    ShiftIsDivision(va % Size(level), 12);
  }

  lemma {:induction false} WholeUnits(x: nat, n: nat)
    requires n > 0
    ensures x - x % n == x / n * n
  {
  }

  lemma {:induction false} LowSmall48(x: nat)
    requires x < 0x80_0000_0000
    ensures Low(x, 48) == x
  {
    Powers();
    LowSmall(x, 48);
  }

  /** The half of an address in the four-level regime. */
  lemma {:induction false} HalfPlain(r: Regime, va: u64)
    requires FourLevels(r)
    ensures var root := if va >= 0x8000_0000_0000_0000 then r.ttbr1 else r.ttbr0;
            Select(r, va) == Some(Geometry(12, 48, root)) && TableOf(r, va) == BaseOf(root)
  {
  }

  /** AT in the four-level regime, without the walk's own words: it answers
      with where a path of descriptors from the half's base register leads ... */
  lemma {:induction false} PathLeads(r: Regime, m: Memory, va: u64, path: seq<u64>)
    requires FourLevels(r) && Maps(m, 0, TableOf(r, va), va, path)
    ensures |path| <= 4 && Translate(r, m, va) == Target(0, va, path) && !Faults(r, m, va)
  {
    HalfPlain(r, va);
    var root := if va >= 0x8000_0000_0000_0000 then r.ttbr1 else r.ttbr0;
    Plain(root, 0);
    PathIsHit(m, root, 0, TableOf(r, va), va, path);
    OutputPlain(root, |path| - 1, va, path[|path| - 1]);
  }

  lemma {:induction false} PathOf(r: Regime, m: Memory, va: u64) returns (path: seq<u64>)
    requires FourLevels(r) && !Faults(r, m, va)
    ensures Maps(m, 0, TableOf(r, va), va, path)
  {
    HalfPlain(r, va);
    var root := if va >= 0x8000_0000_0000_0000 then r.ttbr1 else r.ttbr0;
    Plain(root, 0);
    path := HitHasPath(m, root, 0, TableOf(r, va), va);
  }

  ghost predicate Mapped(r: Regime, m: Memory, va: u64) {
    exists path :: Maps(m, 0, TableOf(r, va), va, path)
  }

  /** ... and with a fault exactly if there is no such path. */
  lemma {:induction false} MappedExactly(r: Regime, m: Memory, va: u64)
    requires FourLevels(r)
    ensures Translate(r, m, va) == PAR_FAULT <==> !Mapped(r, m, va)
  {
    TranslateFits(r, m, va);
    FaultsExactly(r, m, va);
  }

  lemma {:induction false} FaultsExactly(r: Regime, m: Memory, va: u64)
    requires FourLevels(r)
    ensures Faults(r, m, va) <==> !Mapped(r, m, va)
  {
    if Mapped(r, m, va) {
      var path :| Maps(m, 0, TableOf(r, va), va, path);
      PathLeads(r, m, va, path);
    } else if !Faults(r, m, va) {
      var path := PathOf(r, m, va);
    }
  }
}
