/**
 Block-duration escalation (`escalated` and the duration part of `Normalize` in
 internal/autoblock). Durations are int64 nanoseconds; the loop multiplies as
 uint64, which wraps.
 */
module Escalation {
  import opened Durations

  const TWO62: int := 0x4000_0000_0000_0000
  const TWO63: int := 0x8000_0000_0000_0000
  const TWO64: int := 0x1_0000_0000_0000_0000

  /** Normalize, for the two durations. */
  function Normalize(base: int, max: int): (r: (int, int))
    ensures 0 < r.0 <= r.1
    ensures 0 < base <= max ==> r == (base, max)
    ensures r.0 == if base > 0 then base else 900_000_000_000
    ensures max > 0 && max >= r.0 ==> r.1 == max
    ensures max <= 0 && r.0 <= 86_400_000_000_000 ==> r.1 == 86_400_000_000_000
    ensures r.0 > (if max > 0 then max else 86_400_000_000_000) ==> r.1 == r.0
    ensures base < TWO63 && max < TWO63 ==> r.1 < TWO63
  {
    var b := if base <= 0 then 15 * MINUTE else base;
    var m := if max <= 0 then 24 * 60 * MINUTE else max;
    (b, if m < b then b else m)
  }

  /** `d` quadrupled `n` times. */
  function Grow(d: int, n: nat): int
    decreases n
  {
    if n == 0 then d else Grow(4 * d, n - 1)
  }

  function Pow4(n: nat): nat {
    if n == 0 then 1 else 4 * Pow4(n - 1)
  }

  lemma {:induction false} GrowIsPower(d: int, n: nat)
    ensures Grow(d, n) == d * Pow4(n)
    decreases n
  {
    if n > 0 {
      GrowIsPower(4 * d, n - 1);
    }
  }

  lemma {:induction false} GrowOrder(c: int, d: int, n: nat)
    requires 0 <= c <= d
    ensures c <= Grow(c, n) <= Grow(d, n)
    decreases n
  {
    if n > 0 {
      GrowOrder(4 * c, 4 * d, n - 1);
    }
  }

  /** The documented duration: the base quadrupled per repeat offence, capped. */
  function Capped(base: int, max: int, n: nat): int {
    if Grow(base, n) >= max then max else Grow(base, n)
  }

  /** What the loop does in `n` rounds from `d`, wrap-around included. */
  function Loop(d: int, max: int, n: nat): int
    decreases n
  {
    if n == 0 then (if d >= max then max else d)
    else
      var ns := (d * 4) % TWO64;
      if ns >= max then max else Loop(ns, max, n - 1)
  }

  method Escalated(escalate: bool, base: int, max: int, level: int) returns (d: int)
    requires 0 < base <= max < TWO63
    ensures d == if !escalate || level <= 1 then base else Loop(base, max, level - 1)
  {
    if !escalate || level <= 1 {
      return base;
    }
    d := base;
    var i := 1;
    while i < level
      invariant 1 <= i <= level && 0 <= d < TWO63
      invariant Loop(base, max, level - 1) == Loop(d, max, level - i)
    {
      var ns := (d * 4) % TWO64;
      if ns >= max { return max; }
      d := ns;
      i := i + 1;
    }
    if d >= max { return max; }
  }

  /** The loop holds `base` quadrupled `i` times, and the next quadrupling
      wraps to less than the cap. A first duration equal to the cap is
      quadrupled too; a later one has ended the loop. */
  predicate Wraps(base: int, max: int, i: nat) {
    var d := Grow(base, i);
    TWO62 <= d <= max && (i > 0 ==> d < max) && 4 * d - TWO64 < max
  }

  lemma {:induction false} LoopIsCapped(d: int, max: int, n: nat)
    requires 0 < d <= max < TWO63
    requires forall i: nat :: i < n ==> !Wraps(d, max, i)
    ensures Loop(d, max, n) == Capped(d, max, n)
    decreases n
  {
    if n > 0 {
      assert !Wraps(d, max, 0);
      GrowOrder(4 * d, 4 * d, n - 1);
      if 4 * d < max {
        forall i: nat | i < n - 1
          ensures !Wraps(4 * d, max, i)
        {
          assert !Wraps(d, max, i + 1);
        }
        LoopIsCapped(4 * d, max, n - 1);
      }
    }
  }

  /** Durations below the cap are reached one by one until one wraps. */
  lemma {:induction false} LoopWraps(d: int, max: int, n: nat)
    requires 0 < d <= max < TWO63 && Wraps(d, max, n)
    ensures Loop(d, max, n + 1) < max
    decreases n
  {
    if n > 0 {
      GrowOrder(4 * d, 4 * d, n - 1);
      LoopWraps(4 * d, max, n - 1);
    } else {
      assert (d * 4) % TWO64 == 4 * d - TWO64;
    }
  }

  lemma GrowsFast(d: int, n: nat)
    requires d > 0
    ensures Grow(d, n) >= Pow4(n)
  {
    GrowIsPower(1, n);
    GrowOrder(1, d, n);
  }

  lemma {:induction false} Pow4Grows(n: nat)
    requires n >= 32
    ensures Pow4(n) >= TWO64
  {
    if n == 32 {
      assert Pow4(4) == 256;
      assert Pow4(8) == 65536;
      assert Pow4(16) == 0x1_0000_0000;
      assert Pow4(24) == 0x1_0000_0000_0000;
    } else {
      Pow4Grows(n - 1);
    }
  }

  /** Exactly when every level gets min(base * 4^(level-1), cap), for every pair
      Normalize yields: when none of the first 32 durations wraps below the cap. */
  lemma EscalationIsCappedIffNoWrap(base: int, max: int)
    requires 0 < base <= max < TWO63
    ensures (forall n: nat :: Loop(base, max, n) == Capped(base, max, n)) <==>
            (forall i: nat :: i < 32 ==> !Wraps(base, max, i))
  {
    if i: nat :| i < 32 && Wraps(base, max, i) {
      LoopWraps(base, max, i);
      GrowLast(base, i);
      assert Loop(base, max, i + 1) != Capped(base, max, i + 1);
    } else {
      forall n: nat ensures Loop(base, max, n) == Capped(base, max, n) {
        forall i: nat | 32 <= i < n ensures !Wraps(base, max, i) {
          GrowsFast(base, i);
          Pow4Grows(i);
        }
        LoopIsCapped(base, max, n);
      }
    }
  }

  lemma {:induction false} GrowLast(d: int, n: nat)
    ensures Grow(d, n + 1) == 4 * Grow(d, n)
    decreases n
  {
    if n > 0 { GrowLast(4 * d, n - 1); }
  }

  /** In particular for every cap below 2^62 ns: no product wraps, and a higher
      level never gets a shorter block. */
  lemma EscalationIsCapped(base: int, max: int, level: int)
    requires 0 < base <= max < TWO62 && level >= 1
    ensures (if level <= 1 then base else Loop(base, max, level - 1)) == Capped(base, max, level - 1)
    ensures Capped(base, max, level - 1) <= Capped(base, max, level)
    ensures Grow(base, level - 1) == base * Pow4(level - 1)
  {
    GrowIsPower(base, level - 1);
    GrowOrder(base, base, level - 1);
    GrowLast(base, level - 1);
    if level > 1 {
      LoopIsCapped(base, max, level - 1);
    }
  }

  /** Past 2^62 ns durations do wrap: the second offence gets no block. The
      second pair is one Normalize makes itself, raising the maximum. */
  lemma LongBaseWrapsToZero()
    ensures Loop(TWO62, TWO63 - 1, 1) == 0 && Capped(TWO62, TWO63 - 1, 1) == TWO63 - 1
    ensures Normalize(TWO62, 1) == (TWO62, TWO62) && Loop(TWO62, TWO62, 1) == 0 && Capped(TWO62, TWO62, 1) == TWO62
  {
    assert Grow(4 * TWO62, 0) == TWO64;
    assert Loop(0, TWO63 - 1, 0) == 0 && Loop(0, TWO62, 0) == 0;
  }
}
