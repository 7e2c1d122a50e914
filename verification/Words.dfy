/** Machine words.

  A 64-bit word is an integer in [0, 2^64); the C++ operators that wrap are
  written out here.  Single bits are read, set and cleared by three recursive
  functions, and the laws below say that they touch one position and no other,
  for every word and every pair of positions.
*/
module Words {

  type u64 = x: int | 0 <= x < 0x1_0000_0000_0000_0000
  type u32 = x: int | 0 <= x < 0x1_0000_0000

  const TWO63 := 0x8000_0000_0000_0000
  const TWO64 := 0x1_0000_0000_0000_0000

  datatype Option<+T> = None | Some(value: T)

  // ------------------------------------------------------------ arithmetic

  function Add(a: int, b: int): u64 {
    (a + b) % 0x1_0000_0000_0000_0000
  }

  function Sub(a: int, b: int): u64 {
    (a - b) % 0x1_0000_0000_0000_0000
  }

  /** Sums and differences of two words wrap at most once. */
  lemma {:induction false} WrapOnce(a: u64, b: u64)
    ensures Add(a, b) == if a + b < TWO64 then a + b else a + b - TWO64
    ensures Sub(a, b) == if a >= b then a - b else a - b + TWO64
  {
  }

  lemma {:induction false} AtLeast(m: nat, d: nat)
    requires d >= 1
    ensures m * d >= m
  {
    assert m * (d - 1) >= 0;
  }

  /** Quotient and remainder are the only such pair. */
  lemma {:induction false} Quotient(m: nat, q: nat, r: nat)
    requires r < m
    ensures (m * q + r) / m == q && (m * q + r) % m == r
  {
    var x := m * q + r;
    var p := x / m;
    assert m * p - m * q == r - x % m;
    if p > q {
      AtLeast(m, p - q);
    } else if p < q {
      AtLeast(m, q - p);
    }
  }

  /** `(int64_t)a >= 0`. */
  predicate NonNegative(a: u64) {
    a < 0x8000_0000_0000_0000
  }

  /** `(uint64_t)(int32_t)(uint32_t)v`. */
  function SignExtend32(v: u64): u64 {
    var low := v % 0x1_0000_0000;
    if low >= 0x8000_0000 then low + 0xffff_ffff_0000_0000 else low
  }

  // ------------------------------------------------------------------ bits

  function Pow2(n: nat): (r: nat)
    ensures r >= 1
  {
    if n == 0 then 1 else 2 * Pow2(n - 1)
  }

  lemma {:induction false} Pow2Monotonic(m: nat, n: nat)
    requires m <= n
    ensures Pow2(m) <= Pow2(n)
    ensures m < n ==> 2 * Pow2(m) <= Pow2(n)
  {
    if m < n {
      Pow2Monotonic(m, n - 1);
    }
  }

  // ---------------------------------------------------------------- shifts

  /** `x >> n`. */
  function Shr(x: nat, n: nat): nat {
    if n == 0 then x else Shr(x / 2, n - 1)
  }

  /** `x << n`, unbounded. */
  function Shl(x: nat, n: nat): nat {
    if n == 0 then x else 2 * Shl(x, n - 1)
  }

  /** `x & ((1 << n) - 1)`. */
  function Low(x: nat, n: nat): (r: nat)
    ensures r <= x
  {
    if n == 0 then 0 else x % 2 + 2 * Low(x / 2, n - 1)
  }

  /** `x & ~((1 << n) - 1)`. */
  function AlignDown(x: nat, n: nat): nat {
    x - Low(x, n)
  }

  lemma {:induction false} LowBelow(x: nat, n: nat)
    ensures Low(x, n) < Pow2(n)
  {
    if n > 0 {
      LowBelow(x / 2, n - 1);
    }
  }

  /** A word is its upper part, shifted back up, over its low part. */
  lemma {:induction false} SplitAt(x: nat, n: nat)
    ensures x == Shl(Shr(x, n), n) + Low(x, n)
  {
    if n > 0 {
      SplitAt(x / 2, n - 1);
    }
  }

  lemma {:induction false} ShiftShift(x: nat, a: nat, b: nat)
    ensures Shr(x, a + b) == Shr(Shr(x, a), b)
    ensures Low(x, a + b) == Shl(Low(Shr(x, a), b), a) + Low(x, a)
  {
    if a > 0 {
      ShiftShift(x / 2, a - 1, b);
    }
  }

  /** Masking twice keeps the narrower mask. */
  lemma {:induction false} LowLow(x: nat, a: nat, b: nat)
    requires a <= b
    ensures Low(Low(x, a), b) == Low(x, a)
    ensures Low(Low(x, b), a) == Low(x, a)
    decreases a + b
  {
    if a > 0 {
      LowLow(x / 2, a - 1, b - 1);
      assert Low(x, a) % 2 == x % 2 && Low(x, a) / 2 == Low(x / 2, a - 1);
      assert Low(x, b) % 2 == x % 2 && Low(x, b) / 2 == Low(x / 2, b - 1);
    } else if b > 0 {
      LowLow(x / 2, 0, b - 1);
    }
  }

  /** Shifting is dividing, and masking is taking the remainder. */
  lemma {:induction false} ShiftIsDivision(x: nat, n: nat)
    ensures Shr(x, n) == x / Pow2(n) && Low(x, n) == x % Pow2(n)
  {
    LowBelow(x, n);
    SplitAt(x, n);
    ShiftIsProduct(Shr(x, n), n);
    Quotient(Pow2(n), Shr(x, n), Low(x, n));
  }

  lemma {:induction false} ShiftIsProduct(x: nat, n: nat)
    ensures Shl(x, n) == Pow2(n) * x
  {
    if n > 0 {
      ShiftIsProduct(x, n - 1);
    }
  }

  lemma {:induction false} LowSmall(x: nat, n: nat)
    requires x < Pow2(n)
    ensures Low(x, n) == x
  {
    if n > 0 {
      LowSmall(x / 2, n - 1);
    }
  }

  lemma {:induction false} LowOfPow2(n: nat)
    ensures Low(Pow2(n), n) == 0
  {
    if n > 0 {
      LowOfPow2(n - 1);
    }
  }

  /** An aligned address plus an offset below the alignment. */
  lemma {:induction false} AlignedPlus(x: nat, n: nat, r: nat)
    requires r < Pow2(n)
    ensures Low(AlignDown(x, n) + r, n) == r
    ensures AlignDown(AlignDown(x, n) + r, n) == AlignDown(x, n)
  {
    if n > 0 {
      AlignedPlus(x / 2, n - 1, r / 2);
      assert AlignDown(x, n) == 2 * AlignDown(x / 2, n - 1);
      assert (AlignDown(x, n) + r) / 2 == AlignDown(x / 2, n - 1) + r / 2;
    }
  }

  /** `(w >> k) & 1`. */
  predicate Bit(w: nat, k: nat) {
    if k == 0 then w % 2 == 1 else Bit(w / 2, k - 1)
  }

  /** `w | (1 << k)`. */
  function SetBit(w: nat, k: nat): nat {
    if k == 0 then w - w % 2 + 1 else w % 2 + 2 * SetBit(w / 2, k - 1)
  }

  /** `w & ~(1 << k)`. */
  function ClearBit(w: nat, k: nat): nat {
    if k == 0 then w - w % 2 else w % 2 + 2 * ClearBit(w / 2, k - 1)
  }

  lemma {:induction false} SetBitAt(w: nat, k: nat, j: nat)
    ensures Bit(SetBit(w, k), j) == (j == k || Bit(w, j))
    decreases k
  {
    if k > 0 && j > 0 {
      SetBitAt(w / 2, k - 1, j - 1);
    }
  }

  lemma {:induction false} ClearBitAt(w: nat, k: nat, j: nat)
    ensures Bit(ClearBit(w, k), j) == (j != k && Bit(w, j))
    decreases k
  {
    if k > 0 && j > 0 {
      ClearBitAt(w / 2, k - 1, j - 1);
    }
  }

  lemma {:induction false} NoBits(k: nat)
    ensures !Bit(0, k)
  {
    if k > 0 {
      NoBits(k - 1);
    }
  }

  lemma {:induction false} BitOpsFit(w: nat, k: nat, n: nat)
    requires w < Pow2(n) && k < n
    ensures SetBit(w, k) < Pow2(n) && ClearBit(w, k) < Pow2(n)
    decreases k
  {
    if k > 0 {
      BitOpsFit(w / 2, k - 1, n - 1);
    }
  }

  /** A word is determined by its bits. */
  lemma {:induction false} SameBits(a: nat, b: nat, n: nat)
    requires a < Pow2(n) && b < Pow2(n)
    requires forall k :: 0 <= k < n ==> Bit(a, k) == Bit(b, k)
    ensures a == b
  {
    if n > 0 {
      assert Bit(a, 0) == Bit(b, 0);
      forall k | 0 <= k < n - 1
        ensures Bit(a / 2, k) == Bit(b / 2, k)
      {
        assert Bit(a, k + 1) == Bit(b, k + 1);
      }
      SameBits(a / 2, b / 2, n - 1);
    }
  }

  lemma {:induction false} Pow2Add(m: nat, n: nat)
    ensures Pow2(m + n) == Pow2(m) * Pow2(n)
  {
    if m > 0 {
      Pow2Add(m - 1, n);
      assert 2 * Pow2(m - 1) * Pow2(n) == 2 * (Pow2(m - 1) * Pow2(n));
    }
  }

  lemma {:induction false} Powers()
    ensures Pow2(12) == 0x1000 && Pow2(48) == 0x1_0000_0000_0000
    ensures Pow2(64) == 0x1_0000_0000_0000_0000
  {
    assert Pow2(4) == 16;
    Pow2Add(4, 4);
    assert Pow2(8) == 0x100;
    Pow2Add(4, 8);
    Pow2Add(8, 8);
    assert Pow2(16) == 0x1_0000;
    Pow2Add(16, 16);
    assert Pow2(32) == 0x1_0000_0000;
    Pow2Add(32, 16);
    Pow2Add(32, 32);
  }

  lemma {:induction false} Low48(x: nat)
    ensures Low(x, 48) < 0x1_0000_0000_0000
  {
    Powers();
    LowBelow(x, 48);
  }

  /** `|=` and `&= ~` of one bit in a 64-bit word. */
  function With(w: u64, k: nat): u64
    requires k < 64
  {
    Powers();
    BitOpsFit(w, k, 64);
    SetBit(w, k)
  }

  function Without(w: u64, k: nat): u64
    requires k < 64
  {
    Powers();
    BitOpsFit(w, k, 64);
    ClearBit(w, k)
  }

  /** Setting a bit sets that bit and no other; so does clearing. */
  lemma {:induction false} WithBits(w: u64, k: nat)
    requires k < 64
    ensures forall j: nat {:trigger Bit(With(w, k), j)} {:trigger Bit(w, j)} ::
              Bit(With(w, k), j) == (j == k || Bit(w, j))
  {
    forall j: nat ensures Bit(With(w, k), j) == (j == k || Bit(w, j)) {
      SetBitAt(w, k, j);
    }
  }

  lemma {:induction false} WithoutBits(w: u64, k: nat)
    requires k < 64
    ensures forall j: nat {:trigger Bit(Without(w, k), j)} {:trigger Bit(w, j)} ::
              Bit(Without(w, k), j) == (j != k && Bit(w, j))
  {
    forall j: nat ensures Bit(Without(w, k), j) == (j != k && Bit(w, j)) {
      ClearBitAt(w, k, j);
    }
  }

  /** Writing a bit that already has the value changes nothing. */
  lemma {:induction false} WriteSame(w: nat, k: nat)
    ensures Bit(w, k) ==> SetBit(w, k) == w
    ensures !Bit(w, k) ==> ClearBit(w, k) == w
  {
    if k > 0 {
      WriteSame(w / 2, k - 1);
    }
  }

  /** Writing a bit overrides whatever was last written there. */
  lemma {:induction false} WriteTwice(w: nat, k: nat)
    ensures SetBit(ClearBit(w, k), k) == SetBit(w, k)
    ensures ClearBit(SetBit(w, k), k) == ClearBit(w, k)
  {
    if k > 0 {
      WriteTwice(w / 2, k - 1);
      assert SetBit(w, k) / 2 == SetBit(w / 2, k - 1) && SetBit(w, k) % 2 == w % 2;
      assert ClearBit(w, k) / 2 == ClearBit(w / 2, k - 1) && ClearBit(w, k) % 2 == w % 2;
    }
  }
}
