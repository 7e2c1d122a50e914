/** What is mapped where (src/ohv_vm.cpp:326-353): a bounded array of records,
  kept without holes by moving the last one into the place of the one removed,
  and the scan that turns a guest physical address into a host one.
*/
module Mapping {
  import opened Words

  datatype MapRecord = MapRecord(uva: u64, ipa: u64, size: u64)

  /** The same index seen as a finite map from guest address to the rest. */
  datatype Range = Range(uva: u64, size: u64)

  const CAPACITY: nat := 64

  // -------------------------------------------------- the array as a sequence

  /** The first record for `ipa`, or the length. */
  function Find(s: seq<MapRecord>, ipa: u64): (i: nat)
    ensures i <= |s|
    ensures i < |s| ==> s[i].ipa == ipa
    ensures forall j :: 0 <= j < i ==> s[j].ipa != ipa
  {
    if s == [] || s[0].ipa == ipa then 0
    else
      var i := Find(s[1..], ipa);
      assert forall j :: 0 < j < i + 1 ==> s[j] == s[1..][j - 1];
      i + 1
  }

  function Remember(s: seq<MapRecord>, r: MapRecord): seq<MapRecord> {
    var i := Find(s, r.ipa);
    if i < |s| then s[i := r]
    else if |s| < CAPACITY then s + [r]
    else s
  }

  function Forget(s: seq<MapRecord>, ipa: u64): seq<MapRecord> {
    var i := Find(s, ipa);
    if i < |s| then s[i := s[|s| - 1]][..|s| - 1] else s
  }

  ghost predicate UniqueKeys(s: seq<MapRecord>) {
    forall i, j :: 0 <= i < j < |s| ==> s[i].ipa != s[j].ipa
  }

  function Item(m: map<u64, Range>, k: u64): MapRecord
    requires k in m
  {
    MapRecord(m[k].uva, k, m[k].size)
  }

  /** The array holds exactly the entries of the map, each once. */
  ghost predicate Represents(s: seq<MapRecord>, m: map<u64, Range>) {
    && UniqueKeys(s)
    && (forall i :: 0 <= i < |s| ==> s[i].ipa in m && Item(m, s[i].ipa) == s[i])
    && (forall k :: k in m ==> Item(m, k) in s)
  }

  /** All but the last record represent the map without its key. */
  lemma {:induction false} AllButLast(s: seq<MapRecord>, m: map<u64, Range>)
    requires Represents(s, m) && s != []
    ensures Represents(s[..|s| - 1], m - {s[|s| - 1].ipa})
  {
    var n := |s| - 1;
    var t, m' := s[..n], m - {s[n].ipa};
    forall k | k in m' ensures Item(m', k) in t {
      var j :| 0 <= j < |s| && s[j] == Item(m, k);
      assert t[j] == Item(m, k);
    }
  }

  lemma {:induction false} OneFewer(m: map<u64, Range>, k: u64)
    requires k in m
    ensures |m - {k}| == |m| - 1
  {
    assert m.Keys == (m - {k}).Keys + {k};
  }

  lemma {:induction false} SameSize(s: seq<MapRecord>, m: map<u64, Range>)
    requires Represents(s, m)
    ensures |s| == |m|
  {
    if s == [] {
      assert m.Keys == {};
    } else {
      var n := |s| - 1;
      AllButLast(s, m);
      OneFewer(m, s[n].ipa);
      SameSize(s[..n], m - {s[n].ipa});
    }
  }

  /** Remembering is map update, unless the index is full of other keys, in
      which case the mapping is silently dropped. */
  lemma {:induction false} RememberRefines(s: seq<MapRecord>, m: map<u64, Range>, r: MapRecord)
    requires Represents(s, m) && |s| <= CAPACITY
    ensures |Remember(s, r)| <= CAPACITY
    ensures Represents(Remember(s, r),
                       if r.ipa in m || |m| < CAPACITY then m[r.ipa := Range(r.uva, r.size)] else m)
  {
    SameSize(s, m);
    var s', m' := Remember(s, r), m[r.ipa := Range(r.uva, r.size)];
    var i := Find(s, r.ipa);
    if r.ipa in m {
      assert Item(m, r.ipa) in s;
    }
    if i < |s| || |s| < CAPACITY {
      forall k | k in m' ensures Item(m', k) in s' {
        if k == r.ipa {
          assert s'[if i < |s| then i else |s|] == Item(m', k);
        } else {
          var j :| 0 <= j < |s| && s[j] == Item(m, k);
          assert s'[j] == s[j];
        }
      }
    }
  }

  /** Forgetting, which moves the last record down, is map removal. */
  lemma {:induction false} ForgetRefines(s: seq<MapRecord>, m: map<u64, Range>, ipa: u64)
    requires Represents(s, m) && |s| <= CAPACITY
    ensures |Forget(s, ipa)| <= CAPACITY
    ensures Represents(Forget(s, ipa), m - {ipa})
  {
    var s', m' := Forget(s, ipa), m - {ipa};
    var i := Find(s, ipa);
    if i < |s| {
      forall k | k in m' ensures Item(m', k) in s' {
        var j :| 0 <= j < |s| && s[j] == Item(m, k);
        assert s'[if j == |s| - 1 then i else j] == s[j];
      }
    } else {
      assert ipa in m ==> Item(m, ipa) in s;
    }
  }

  // ------------------------------------------------------------- whole runs

  datatype Op = Map(r: MapRecord) | Unmap(ipa: u64)

  function Run(s: seq<MapRecord>, ops: seq<Op>): seq<MapRecord>
    decreases |ops|
  {
    if ops == [] then s
    else
      var s' := Run(s, ops[..|ops| - 1]);
      match ops[|ops| - 1]
      case Map(r) => Remember(s', r)
      case Unmap(ipa) => Forget(s', ipa)
  }

  ghost function RunMap(ops: seq<Op>): map<u64, Range> {
    if ops == [] then map[]
    else
      var m := RunMap(ops[..|ops| - 1]);
      match ops[|ops| - 1]
      case Map(r) => m[r.ipa := Range(r.uva, r.size)]
      case Unmap(ipa) => m - {ipa}
  }

  /** No more than CAPACITY ranges are ever mapped at once. */
  ghost predicate WithinCapacity(ops: seq<Op>) {
    forall n :: 0 <= n <= |ops| ==> |RunMap(ops[..n])| <= CAPACITY
  }

  /** Over any run within capacity the array is the map. */
  lemma {:induction false} RunRefines(ops: seq<Op>)
    requires WithinCapacity(ops)
    ensures |Run([], ops)| <= CAPACITY && Represents(Run([], ops), RunMap(ops))
  {
    if ops != [] {
      var before := ops[..|ops| - 1];
      forall n | 0 <= n <= |before| ensures |RunMap(before[..n])| <= CAPACITY {
        assert before[..n] == ops[..n];
      }
      RunRefines(before);
      var s, m := Run([], before), RunMap(before);
      match ops[|ops| - 1] {
        case Map(r) =>
          RememberRefines(s, m, r);
          assert ops[..|ops|] == ops;
          assert RunMap(ops).Keys == m.Keys + {r.ipa};
        case Unmap(ipa) =>
          ForgetRefines(s, m, ipa);
      }
    }
  }

  // ------------------------------------------------------------ the lookup

  predicate Holds(r: MapRecord, ipa: u64, len: u64) {
    ipa >= r.ipa && Add(ipa, len) <= Add(r.ipa, r.size)
  }

  /** ohv_guest_ptr over the live part of the array; the addition wraps. */
  function GuestPtr(s: seq<MapRecord>, ipa: u64, len: u64): Option<u64> {
    if s == [] then None
    else if Holds(s[0], ipa, len) then Some(Add(s[0].uva, ipa - s[0].ipa))
    else GuestPtr(s[1..], ipa, len)
  }

  lemma {:induction false} HoldsExactly(r: MapRecord, ipa: u64, len: u64)
    requires r.ipa + r.size < TWO64 && ipa + len < TWO64
    ensures Holds(r, ipa, len) <==> r.ipa <= ipa && ipa + len <= r.ipa + r.size
  {
  }

  ghost predicate WellPlaced(m: map<u64, Range>) {
    && (forall k :: k in m ==> k + m[k].size < TWO64)
    && (forall k, l :: k in m && l in m && k != l ==> k + m[k].size <= l || l + m[l].size <= k)
  }

  /** The range [ipa, ipa + len) lies in the mapping at `k`. */
  ghost predicate Covers(m: map<u64, Range>, k: u64, ipa: u64, len: u64) {
    k in m && k <= ipa && ipa + len <= k + m[k].size
  }

  lemma {:induction false} ScanFinds(s: seq<MapRecord>, ipa: u64, len: u64) returns (i: nat)
    ensures i <= |s|
    ensures forall j :: 0 <= j < i ==> !Holds(s[j], ipa, len)
    ensures i < |s| ==> Holds(s[i], ipa, len) && GuestPtr(s, ipa, len) == Some(Add(s[i].uva, ipa - s[i].ipa))
    ensures i == |s| ==> GuestPtr(s, ipa, len) == None
  {
    if s == [] || Holds(s[0], ipa, len) {
      i := 0;
    } else {
      var k := ScanFinds(s[1..], ipa, len);
      i := k + 1;
      assert forall j :: 0 < j < |s| ==> s[j] == s[1..][j - 1];
    }
  }

  /** For disjoint ranges that do not wrap, and a request that does not, the
      scan is the lookup in the map: it answers exactly when a mapping covers
      the whole request, and with that mapping's address. */
  lemma {:induction false} GuestPtrIsLookup(s: seq<MapRecord>, m: map<u64, Range>, ipa: u64, len: u64)
    requires Represents(s, m) && WellPlaced(m) && ipa + len < TWO64 && len > 0
    ensures GuestPtr(s, ipa, len).Some? <==> exists k :: Covers(m, k, ipa, len)
    ensures forall k :: Covers(m, k, ipa, len) ==>
              GuestPtr(s, ipa, len) == Some(Add(m[k].uva, ipa - k))
  {
    var i := ScanFinds(s, ipa, len);
    if i < |s| {
      assert Item(m, s[i].ipa) == s[i];
      HoldsExactly(s[i], ipa, len);
      assert Covers(m, s[i].ipa, ipa, len);
    }
    forall k | Covers(m, k, ipa, len)
      ensures GuestPtr(s, ipa, len) == Some(Add(m[k].uva, ipa - k))
    {
      CoverIsHit(s, m, i, k, ipa, len);
    }
  }

  lemma {:induction false} CoverIsHit(s: seq<MapRecord>, m: map<u64, Range>, i: nat, k: u64, ipa: u64, len: u64)
    requires Represents(s, m) && WellPlaced(m) && ipa + len < TWO64 && len > 0
    requires Covers(m, k, ipa, len)
    requires i <= |s| && forall j :: 0 <= j < i ==> !Holds(s[j], ipa, len)
    requires i < |s| ==> Holds(s[i], ipa, len)
    ensures i < |s| && s[i] == Item(m, k)
  {
    var j :| 0 <= j < |s| && s[j] == Item(m, k);
    HoldsExactly(s[j], ipa, len);
    assert i <= j;
    var l := s[i].ipa;
    assert Item(m, l) == s[i];
    HoldsExactly(s[i], ipa, len);
  }

  /** There is only one such mapping, so the order of the array, which removal
      disturbs, does not matter. */
  lemma {:induction false} GuestPtrIgnoresOrder(s: seq<MapRecord>, s': seq<MapRecord>, m: map<u64, Range>, ipa: u64, len: u64)
    requires Represents(s, m) && Represents(s', m) && WellPlaced(m)
    requires ipa + len < TWO64 && len > 0
    ensures GuestPtr(s, ipa, len) == GuestPtr(s', ipa, len)
  {
    GuestPtrIsLookup(s, m, ipa, len);
    GuestPtrIsLookup(s', m, ipa, len);
    if k :| Covers(m, k, ipa, len) {
    }
  }

  /** A pointer is handed out for a range inside a live mapping exactly when
      the end of the request does not wrap; a request that wraps past 2^64 can
      be answered, and then no mapping holds it. */
  lemma {:induction false} HandedOutRange(s: seq<MapRecord>, m: map<u64, Range>, ipa: u64, len: u64)
    requires Represents(s, m) && WellPlaced(m) && GuestPtr(s, ipa, len).Some?
    ensures (exists k :: Covers(m, k, ipa, len)) <==> ipa + len < TWO64
  {
    var i := ScanFinds(s, ipa, len);
    assert Item(m, s[i].ipa) == s[i];
    if ipa + len < TWO64 {
      HoldsExactly(s[i], ipa, len);
      assert Covers(m, s[i].ipa, ipa, len);
    }
  }

  lemma {:induction false} WrappedRequestAnswered()
    ensures GuestPtr([MapRecord(0x10_0000, 0, 0x4000)], 0xffff_ffff_ffff_fffc, 4).Some?
  {
    assert Add(0xffff_ffff_ffff_fffc, 4) == 0;
  }

  // ------------------------------------------------------ the code, in place

  class MapIndex {
    const maps: array<MapRecord>
    var count: nat

    ghost predicate Valid()
      reads this
    {
      maps.Length == CAPACITY && count <= CAPACITY
    }

    ghost function Records(): seq<MapRecord>
      reads this, maps
      requires Valid()
    {
      maps[..count]
    }

    constructor ()
      ensures Valid() && fresh(maps) && Records() == []
    {
      maps := new MapRecord[CAPACITY](_ => MapRecord(0, 0, 0));
      count := 0;
    }

    /** The index of the first record for `ipa`. */
    method Scan(ipa: u64) returns (i: nat)
      requires Valid()
      ensures i == Find(Records(), ipa)
    {
      i := 0;
      while i < count && maps[i].ipa != ipa
        invariant i <= count
        invariant forall j :: 0 <= j < i ==> maps[j].ipa != ipa
      {
        i := i + 1;
      }
      assert forall j :: 0 <= j < count ==> Records()[j] == maps[j];
    }

    method MapRemember(uva: u64, ipa: u64, size: u64)
      requires Valid()
      modifies this`count, maps
      ensures Valid()
      ensures Records() == Remember(old(Records()), MapRecord(uva, ipa, size))
    {
      var i := Scan(ipa);
      if i < count {
        maps[i] := MapRecord(uva, ipa, size);
      } else if count < CAPACITY {
        maps[count] := MapRecord(uva, ipa, size);
        count := count + 1;
      }
    }

    method MapForget(ipa: u64)
      requires Valid()
      modifies this`count, maps
      ensures Valid()
      ensures Records() == Forget(old(Records()), ipa)
    {
      var i := Scan(ipa);
      if i < count {
        count := count - 1;
        maps[i] := maps[count];
      }
    }

    method OhvGuestPtr(ipa: u64, len: u64) returns (p: Option<u64>)
      requires Valid()
      ensures p == GuestPtr(Records(), ipa, len)
    {
      var i := 0;
      while i < count
        invariant i <= count
        invariant GuestPtr(Records(), ipa, len) == GuestPtr(Records()[i..], ipa, len)
      {
        assert Records()[i..][0] == maps[i] && Records()[i..][1..] == Records()[i + 1..];
        if Holds(maps[i], ipa, len) {
          return Some(Add(maps[i].uva, ipa - maps[i].ipa));
        }
        i := i + 1;
      }
      return None;
    }
  }
}
