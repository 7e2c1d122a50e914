/** The bounded shadow lists of a vCPU: `apple_shadow[96]`, `gic_if[48]` and
  `ctrr[6]` (src/ohv_vcpu.cpp:389-411, 1017-1048, 1092-1142).

  Each is an array of (encoding, value) pairs with a count, searched from the
  front; a miss appends an entry holding zero, and a full array refuses.
*/
module AssocList {
  import opened Words

  datatype Pair = Pair(enc: nat, value: u64)

  type List = seq<Pair>

  /** Where `enc` is, or the length. */
  function IndexOf(l: List, enc: nat): (i: nat)
    ensures i <= |l|
    ensures i < |l| ==> l[i].enc == enc
  {
    if l == [] then 0
    else
      var i := IndexOf(l[..|l| - 1], enc);
      if i < |l| - 1 || l[|l| - 1].enc == enc then i else |l|
  }

  predicate Has(l: List, enc: nat) {
    IndexOf(l, enc) < |l|
  }

  /** The total map a list stands for: zero where nothing is listed. */
  function ValueOf(l: List, enc: nat): u64 {
    if Has(l, enc) then l[IndexOf(l, enc)].value else 0
  }

  ghost predicate UniqueKeys(l: List) {
    forall i, j :: 0 <= i < j < |l| ==> l[i].enc != l[j].enc
  }

  /** One access: the list after it and the slot's value, or a refusal.
      `write` is the value stored, if the access is a write. */
  function Access(l: List, cap: nat, enc: nat, write: Option<u64>): Option<(List, u64)> {
    var i := IndexOf(l, enc);
    if i == |l| && |l| >= cap then None
    else
      var l1 := if i == |l| then l + [Pair(enc, 0)] else l;
      match write
      case None => Some((l1, l1[i].value))
      case Some(v) => Some((l1[i := Pair(enc, v)], v))
  }

  // ---------------------------------------------------------- one access

  lemma {:induction false} IndexIsFirst(l: List, enc: nat, j: nat)
    requires j < |l| && l[j].enc == enc
    ensures IndexOf(l, enc) <= j
  {
    if j < |l| - 1 {
      IndexIsFirst(l[..|l| - 1], enc, j);
    }
  }

  lemma {:induction false} IndexUnique(l: List, enc: nat, j: nat)
    requires UniqueKeys(l) && j < |l| && l[j].enc == enc
    ensures IndexOf(l, enc) == j
  {
    IndexIsFirst(l, enc, j);
  }

  lemma {:induction false} Unlisted(l: List, enc: nat)
    ensures Has(l, enc) <==> exists j :: 0 <= j < |l| && l[j].enc == enc
  {
    if j :| 0 <= j < |l| && l[j].enc == enc {
      IndexIsFirst(l, enc, j);
    }
  }

  /** An answered access reads the map and updates it at that encoding alone;
      the only access refused is to an unlisted encoding of a full list. */
  lemma {:induction false} AccessRefines(l: List, cap: nat, enc: nat, write: Option<u64>)
    requires UniqueKeys(l) && |l| <= cap
    ensures Access(l, cap, enc, write).None? <==> |l| == cap && !Has(l, enc)
    ensures Access(l, cap, enc, write).Some? ==>
              var (l', v) := Access(l, cap, enc, write).value;
              && UniqueKeys(l') && |l'| <= cap
              && v == (if write.Some? then write.value else ValueOf(l, enc))
              && (forall k: nat :: ValueOf(l', k) == if k == enc then v else ValueOf(l, k))
              && (forall k: nat :: Has(l', k) <==> k == enc || Has(l, k))
  {
    if Access(l, cap, enc, write).Some? {
      var (l', v) := Access(l, cap, enc, write).value;
      var i := IndexOf(l, enc);
      AccessUnique(l, cap, enc, write);
      forall k: nat
        ensures ValueOf(l', k) == if k == enc then v else ValueOf(l, k)
        ensures Has(l', k) <==> k == enc || Has(l, k)
      {
        AccessAt(l, cap, enc, write, k);
      }
    }
  }

  lemma {:induction false} AccessUnique(l: List, cap: nat, enc: nat, write: Option<u64>)
    requires UniqueKeys(l) && |l| <= cap && Access(l, cap, enc, write).Some?
    ensures UniqueKeys(Access(l, cap, enc, write).value.0) && |Access(l, cap, enc, write).value.0| <= cap
  {
    Unlisted(l, enc);
    var l' := Access(l, cap, enc, write).value.0;
    assert forall j :: 0 <= j < |l| ==> l'[j].enc == l[j].enc;
  }

  lemma {:induction false} AccessAt(l: List, cap: nat, enc: nat, write: Option<u64>, k: nat)
    requires UniqueKeys(l) && |l| <= cap && Access(l, cap, enc, write).Some?
    ensures var (l', v) := Access(l, cap, enc, write).value;
            && ValueOf(l', k) == (if k == enc then v else ValueOf(l, k))
            && (Has(l', k) <==> k == enc || Has(l, k))
  {
    var (l', v) := Access(l, cap, enc, write).value;
    AccessUnique(l, cap, enc, write);
    var i := IndexOf(l, enc);
    assert l'[i] == Pair(enc, v);
    if k == enc {
      IndexUnique(l', enc, i);
    } else {
      Unlisted(l, k);
      Unlisted(l', k);
      if Has(l, k) {
        var j := IndexOf(l, k);
        assert l'[j] == l[j];
        IndexUnique(l', k, j);
      }
    }
  }

  // ------------------------------------------------------------- whole runs

  datatype Request = Request(enc: nat, write: Option<u64>)

  /** The list after a run of accesses, refused ones leaving it alone. */
  function Run(l: List, cap: nat, reqs: seq<Request>): List {
    if reqs == [] then l
    else
      var l1 := Run(l, cap, reqs[..|reqs| - 1]);
      match Access(l1, cap, reqs[|reqs| - 1].enc, reqs[|reqs| - 1].write)
      case None => l1
      case Some(r) => r.0
  }

  /** The last value written to `enc`, if there is one. */
  function LastWrite(reqs: seq<Request>, enc: nat): Option<u64> {
    if reqs == [] then None
    else if reqs[|reqs| - 1].enc == enc && reqs[|reqs| - 1].write.Some? then reqs[|reqs| - 1].write
    else LastWrite(reqs[..|reqs| - 1], enc)
  }

  lemma {:induction false} RunStays(l: List, cap: nat, reqs: seq<Request>)
    requires UniqueKeys(l) && |l| <= cap
    ensures UniqueKeys(Run(l, cap, reqs)) && |l| <= |Run(l, cap, reqs)| <= cap
    ensures forall k: nat :: Has(l, k) ==> Has(Run(l, cap, reqs), k)
  {
    if reqs != [] {
      var before := Run(l, cap, reqs[..|reqs| - 1]);
      RunStays(l, cap, reqs[..|reqs| - 1]);
      AccessRefines(before, cap, reqs[|reqs| - 1].enc, reqs[|reqs| - 1].write);
    }
  }

  /** What one access does to the one encoding of interest. */
  lemma {:induction false} RunStep(l: List, cap: nat, reqs: seq<Request>, enc: nat)
    requires UniqueKeys(l) && |l| <= cap && reqs != []
    ensures var r := reqs[|reqs| - 1];
            var before, after := Run(l, cap, reqs[..|reqs| - 1]), Run(l, cap, reqs);
            && |before| <= |after| <= cap
            && (Has(after, enc) <==> Has(before, enc) || (r.enc == enc && |before| < cap))
            && (Has(after, enc) ==>
                  ValueOf(after, enc) == if r.enc == enc && r.write.Some? then r.write.value else ValueOf(before, enc))
  {
    var r := reqs[|reqs| - 1];
    RunStays(l, cap, reqs[..|reqs| - 1]);
    RunGrows(l, cap, reqs);
    AccessRefines(Run(l, cap, reqs[..|reqs| - 1]), cap, r.enc, r.write);
  }

  lemma {:induction false} ListedHolds(l: List, cap: nat, reqs: seq<Request>, enc: nat)
    requires UniqueKeys(l) && |l| <= cap && Has(Run(l, cap, reqs), enc)
    ensures ValueOf(Run(l, cap, reqs), enc) == match LastWrite(reqs, enc)
                                               case Some(v) => v
                                               case None => ValueOf(l, enc)
  {
    if reqs != [] {
      var n := |reqs| - 1;
      RunStep(l, cap, reqs, enc);
      if Has(Run(l, cap, reqs[..n]), enc) {
        ListedHolds(l, cap, reqs[..n], enc);
      } else {
        NeverListedBefore(l, cap, reqs[..n], enc);
      }
    }
  }

  lemma {:induction false} UnlistedIsFull(l: List, cap: nat, reqs: seq<Request>, enc: nat, i: nat)
    requires UniqueKeys(l) && |l| <= cap && !Has(Run(l, cap, reqs), enc)
    requires i < |reqs| && reqs[i].enc == enc
    ensures |Run(l, cap, reqs)| == cap
  {
    RunStep(l, cap, reqs, enc);
    if i < |reqs| - 1 {
      UnlistedIsFull(l, cap, reqs[..|reqs| - 1], enc, i);
    }
  }

  /** After any run, an encoding that is listed holds the last value written
      to it, or what it held at first; one that is not holds the default, and
      if it was ever asked for, the list is full and it stays refused. */
  lemma {:induction false} RunIsMap(l: List, cap: nat, reqs: seq<Request>, enc: nat)
    requires UniqueKeys(l) && |l| <= cap
    ensures var l' := Run(l, cap, reqs);
            if Has(l', enc)
            then ValueOf(l', enc) == match LastWrite(reqs, enc)
                                     case Some(v) => v
                                     case None => ValueOf(l, enc)
            else (exists i :: 0 <= i < |reqs| && reqs[i].enc == enc) ==> |l'| == cap
  {
    if Has(Run(l, cap, reqs), enc) {
      ListedHolds(l, cap, reqs, enc);
    } else if i :| 0 <= i < |reqs| && reqs[i].enc == enc {
      UnlistedIsFull(l, cap, reqs, enc, i);
    }
  }

  lemma {:induction false} RunGrows(l: List, cap: nat, reqs: seq<Request>)
    requires UniqueKeys(l) && |l| <= cap && reqs != []
    ensures |Run(l, cap, reqs[..|reqs| - 1])| <= |Run(l, cap, reqs)|
  {
  }

  /** While there is room every access is answered, so an encoding not listed
      was never asked for -- or the list is full. */
  lemma {:induction false} NeverListedBefore(l: List, cap: nat, reqs: seq<Request>, enc: nat)
    requires UniqueKeys(l) && |l| <= cap
    requires !Has(Run(l, cap, reqs), enc) && |Run(l, cap, reqs)| < cap
    ensures LastWrite(reqs, enc) == None && !Has(l, enc)
  {
    RunStays(l, cap, reqs);
    if reqs != [] {
      var n := |reqs| - 1;
      RunStays(l, cap, reqs[..n]);
      AccessRefines(Run(l, cap, reqs[..n]), cap, reqs[n].enc, reqs[n].write);
      RunGrows(l, cap, reqs);
      NeverListedBefore(l, cap, reqs[..n], enc);
    }
  }

  // --------------------------------------------- the three lists of a vCPU

  const APPLE_CAP: nat := 96
  const GIC_CAP: nat := 48
  const CTRR_CAP: nat := 6
  const ICC_SRE_EL1: nat := 0xc665

  /** `gic_if` gets its one initial entry at the first access: ICC_SRE_EL1
      says that the interface is there. */
  function GicReady(l: List, ready: bool): List {
    if ready then l else [Pair(ICC_SRE_EL1, 7)]
  }

  lemma {:induction false} GicDefaults(l: List, enc: nat)
    ensures UniqueKeys(GicReady(l, false))
    ensures ValueOf(GicReady(l, false), enc) == if enc == ICC_SRE_EL1 then 7 else 0
  {
    var g := GicReady(l, false);
    assert g[..0] == [];
    assert IndexOf(g[..0], enc) == 0;
  }

  /** CTRR_EL1 is CRm 2 with Op2 2..5, CTRR_EL2 is CRm 6 with Op2 4 and 5. */
  predicate IsCtrr(crm: nat, op2: nat) {
    (crm == 2 && 2 <= op2 <= 5) || (crm == 6 && (op2 == 4 || op2 == 5))
  }

  function CtrrSlot(crm: nat, op2: nat): (slot: nat)
    requires IsCtrr(crm, op2)
    ensures 2 <= slot <= 5
  {
    if crm == 6 then op2 - 1 else op2
  }

  /** The keys a CTRR list can have. */
  ghost predicate CtrrKeys(l: List) {
    forall i :: 0 <= i < |l| ==> 2 <= l[i].enc <= 5
  }

  lemma {:induction false} FiveInFour(a: nat, b: nat, c: nat, d: nat, e: nat)
    requires 2 <= a <= 5 && 2 <= b <= 5 && 2 <= c <= 5 && 2 <= d <= 5 && 2 <= e <= 5
    ensures a == b || a == c || a == d || a == e || b == c || b == d || b == e || c == d || c == e || d == e
  {
  }

  /** Two encodings share a slot just when they are the two views of it. */
  lemma {:induction false} CtrrSlots(crm: nat, op2: nat, crm': nat, op2': nat)
    requires IsCtrr(crm, op2) && IsCtrr(crm', op2')
    ensures CtrrSlot(crm', op2') == CtrrSlot(crm, op2)
            <==> || (crm' == crm && op2' == op2)
                 || (crm == 2 && crm' == 6 && op2' == op2 + 1)
                 || (crm == 6 && crm' == 2 && op2' == op2 - 1)
  {
  }

  /** Four slots, six entries: an access to the CTRR bank is never refused,
      whatever came before it. */
  lemma {:induction false} CtrrNeverFills(l: List, crm: nat, op2: nat, write: Option<u64>)
    requires UniqueKeys(l) && CtrrKeys(l) && IsCtrr(crm, op2)
    ensures |l| <= 4
    ensures Access(l, CTRR_CAP, CtrrSlot(crm, op2), write).Some?
    ensures CtrrKeys(Access(l, CTRR_CAP, CtrrSlot(crm, op2), write).value.0)
  {
    if |l| >= 5 {
      FiveInFour(l[0].enc, l[1].enc, l[2].enc, l[3].enc, l[4].enc);
    }
  }

  /** What SPTM writes through the EL1 view, XNU reads through the EL2 view:
      one slot has both names. */
  lemma {:induction false} CtrrViewsAgree(l: List, op2: nat, v: u64)
    requires UniqueKeys(l) && CtrrKeys(l) && 3 <= op2 <= 4
    ensures var a := Access(l, CTRR_CAP, CtrrSlot(2, op2), Some(v));
            a.Some? && Access(a.value.0, CTRR_CAP, CtrrSlot(6, op2 + 1), None) == Some((a.value.0, v))
  {
    CtrrNeverFills(l, 2, op2, Some(v));
    AccessRefines(l, CTRR_CAP, CtrrSlot(2, op2), Some(v));
    var (l', _) := Access(l, CTRR_CAP, CtrrSlot(2, op2), Some(v)).value;
    AccessUnique(l, CTRR_CAP, CtrrSlot(2, op2), Some(v));
    IndexUnique(l', CtrrSlot(2, op2), IndexOf(l, CtrrSlot(2, op2)));
  }

  // ---------------------------------------------------- the array, in place

  class ShadowList {
    const entries: array<Pair>
    var used: nat

    constructor (cap: nat)
      ensures Valid() && fresh(this) && fresh(entries) && entries.Length == cap && Contents() == []
    {
      entries := new Pair[cap](_ => Pair(0, 0));
      used := 0;
    }

    ghost predicate Valid()
      reads this
    {
      used <= entries.Length
    }

    ghost function Contents(): List
      reads this, entries
      requires Valid()
    {
      entries[..used]
    }

    /** Start over with one entry. */
    method Start(enc: nat, v: u64)
      requires entries.Length > 0
      modifies this, entries
      ensures Valid() && Contents() == [Pair(enc, v)]
    {
      entries[0] := Pair(enc, v);
      used := 1;
    }

    /** Search from the front. */
    method Search(enc: nat) returns (i: nat)
      requires Valid()
      ensures i == IndexOf(Contents(), enc)
    {
      i := 0;
      while i < used
        invariant i <= used
        invariant forall j :: 0 <= j < i ==> entries[j].enc != enc
      {
        if entries[i].enc == enc {
          IndexIsFirst(Contents(), enc, i);
          return;
        }
        i := i + 1;
      }
    }

    /** Find the slot or append it, then read or write its value. */
    method Use(enc: nat, write: Option<u64>) returns (r: Option<u64>)
      requires Valid()
      modifies this, entries
      ensures Valid()
      ensures match Access(old(Contents()), entries.Length, enc, write)
              case None => r == None && Contents() == old(Contents())
              case Some(a) => r == Some(a.1) && Contents() == a.0
    {
      var i := Search(enc);
      if i == used {
        if used >= entries.Length {
          return None;
        }
        entries[used] := Pair(enc, 0);
        used := used + 1;
        assert Contents() == old(Contents()) + [Pair(enc, 0)];
      }
      if write.Some? {
        ghost var was := Contents();
        entries[i] := Pair(enc, write.value);
        assert Contents() == was[i := Pair(enc, write.value)];
      }
      r := Some(entries[i].value);
    }
  }
}
