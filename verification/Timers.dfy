/** The guest's two timers: their register views, the offset between the
  guest's counter and the host's, and the expiry sweep
  (src/ohv_vcpu.cpp:688-797, 3295-3343).

  Everything is modulo 2^64.  The compare value is kept in the host's counter;
  the guest's counter is the host's less the offset.
*/
module Timers {
  import opened Words

  const ENABLE: nat := 0
  const IMASK: nat := 1
  const ISTATUS: nat := 2

  // ----------------------------------------------------- the register views

  function GuestCount(host: u64, offset: u64): u64 {
    Sub(host, offset)
  }

  /** CVAL: translated on the way in and on the way out. */
  function CvalWritten(v: u64, offset: u64): u64 {
    Add(v, offset)
  }

  function CvalRead(cval: u64, offset: u64): u64 {
    Sub(cval, offset)
  }

  /** TVAL: a signed 32-bit distance on the way in, 64 bits on the way out. */
  function TvalWritten(v: u64, host: u64): u64 {
    Add(host, SignExtend32(v))
  }

  function TvalRead(cval: u64, host: u64): u64 {
    Sub(cval, host)
  }

  // -------------------------------------------------------------- the sweep

  /** `(int64_t)(now - cval) >= 0`. */
  predicate Due(cval: u64, now: u64) {
    NonNegative(Sub(now, cval))
  }

  /** One timer's control word after the sweep, written only when ISTATUS is
      wrong. */
  function Swept(ctl: u64, cval: u64, now: u64): u64 {
    if !Bit(ctl, ENABLE) then ctl
    else if Due(cval, now) then
      if Bit(ctl, ISTATUS) then ctl else With(ctl, ISTATUS)
    else if Bit(ctl, ISTATUS) then Without(ctl, ISTATUS) else ctl
  }

  /** The sweep wrote the control word, and so marks it. */
  predicate Rewritten(ctl: u64, cval: u64, now: u64) {
    Bit(ctl, ENABLE) && Bit(ctl, ISTATUS) != Due(cval, now)
  }

  predicate Fired(ctl: u64, cval: u64, now: u64) {
    Bit(ctl, ENABLE) && Due(cval, now) && !Bit(ctl, IMASK)
  }

  // --------------------------------------------------------------- the laws

  /** CVAL reads back what was written, whatever the offset. */
  lemma {:induction false} CvalRoundTrip(v: u64, offset: u64)
    ensures CvalRead(CvalWritten(v, offset), offset) == v
  {
  }

  /** A timer is due when the guest's count has passed the guest's compare
      value: the same comparison the guest would make, in the guest's clock. */
  lemma {:induction false} DueInGuestTime(cval: u64, now: u64, offset: u64)
    ensures Due(cval, now) <==> Due(CvalRead(cval, offset), GuestCount(now, offset))
  {
    WrapOnce(cval, offset);
    WrapOnce(now, offset);
    WrapOnce(now, cval);
    WrapOnce(GuestCount(now, offset), CvalRead(cval, offset));
  }

  /** TVAL counts down from what was written, sign-extended, one per tick. */
  lemma {:induction false} TvalCountsDown(v: u64, host: u64, elapsed: u64)
    ensures TvalRead(TvalWritten(v, host), Add(host, elapsed)) == Sub(SignExtend32(v), elapsed)
  {
    WrapOnce(host, SignExtend32(v));
    WrapOnce(host, elapsed);
    WrapOnce(TvalWritten(v, host), Add(host, elapsed));
    WrapOnce(SignExtend32(v), elapsed);
  }

  /** The signed value of the low 32 bits. */
  function Signed32(v: u64): (d: int)
    ensures -0x8000_0000 <= d < 0x8000_0000 && (d - v) % 0x1_0000_0000 == 0
  {
    var low := v % 0x1_0000_0000;
    assert v == 0x1_0000_0000 * (v / 0x1_0000_0000) + low;
    if low >= 0x8000_0000 then low - 0x1_0000_0000 else low
  }

  /** After TVAL is written with distance d, the timer comes due exactly when
      d ticks have gone by -- at once for d <= 0 -- and stays due until the
      signed comparison wraps, 2^63 ticks later. */
  lemma {:induction false} TvalDue(v: u64, host: u64, elapsed: u64)
    ensures Due(TvalWritten(v, host), Add(host, elapsed))
            <==> Signed32(v) <= elapsed < Signed32(v) + TWO63
                 || elapsed >= Signed32(v) + TWO64
  {
    TvalGap(v, host, elapsed);
  }

  lemma {:induction false} TvalGap(v: u64, host: u64, elapsed: u64)
    ensures var gap := elapsed - Signed32(v);
            Sub(Add(host, elapsed), TvalWritten(v, host))
            == if gap < 0 then gap + TWO64 else if gap < TWO64 then gap else gap - TWO64
  {
    WrapOnce(host, SignExtend32(v));
    WrapOnce(host, elapsed);
    WrapOnce(Add(host, elapsed), TvalWritten(v, host));
  }

  /** ISTATUS is the comparison, for an enabled timer; a disabled one keeps its
      word, and nothing else in the word moves. */
  lemma {:induction false} SweptBits(ctl: u64, cval: u64, now: u64, k: nat)
    ensures Bit(Swept(ctl, cval, now), k)
            == if k == ISTATUS && Bit(ctl, ENABLE) then Due(cval, now) else Bit(ctl, k)
    ensures Swept(ctl, cval, now) != ctl <==> Rewritten(ctl, cval, now)
  {
    SetBitAt(ctl, ISTATUS, k);
    ClearBitAt(ctl, ISTATUS, k);
    SetBitAt(ctl, ISTATUS, ISTATUS);
    ClearBitAt(ctl, ISTATUS, ISTATUS);
  }

  /** Sweeping twice at one time is sweeping once. */
  lemma {:induction false} SweepSettles(ctl: u64, cval: u64, now: u64)
    ensures Swept(Swept(ctl, cval, now), cval, now) == Swept(ctl, cval, now)
    ensures Fired(Swept(ctl, cval, now), cval, now) <==> Fired(ctl, cval, now)
  {
    var c := Swept(ctl, cval, now);
    SweptBits(ctl, cval, now, ENABLE);
    SweptBits(ctl, cval, now, IMASK);
    SweptBits(ctl, cval, now, ISTATUS);
    SweptBits(c, cval, now, ISTATUS);
  }
}
