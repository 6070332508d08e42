/** How long a failed instance waits before it is tried again: the backoff doubled once for every attempt
    after the first, while below the ceiling, in 64-bit arithmetic that wraps around. When that is the
    smaller of the ceiling and the backoff times a power of two, and when it never decreases. */
module Backoff {
  import opened Prelude

  const TWO_62 := 0x4000_0000_0000_0000

  /** A signed 64-bit duration. */
  predicate IsDuration(d: int) { -TWO_63 <= d < TWO_63 }

  function Wrapped(d: int): (r: int)
    ensures IsDuration(r)
    ensures IsDuration(d) ==> r == d
  {
    (d + TWO_63) % TWO_64 - TWO_63
  }

  /** The backoff after `doublings` turns of the loop that doubles it. */
  ghost function Grown(backoff: int, ceiling: int, doublings: nat): int {
    if doublings == 0 then backoff
    else
      var before := Grown(backoff, ceiling, doublings - 1);
      if before < ceiling then Wrapped(2 * before) else before
  }

  ghost function WaitFor(backoff: int, ceiling: int, attempt: nat): int
    requires attempt >= 1
  {
    var grown := Grown(backoff, ceiling, attempt - 1);
    if grown < ceiling then grown else ceiling
  }

  method Wait(backoff: int, ceiling: int, attempt: nat) returns (wait: int)
    requires attempt >= 1
    ensures wait == WaitFor(backoff, ceiling, attempt)
  {
    wait := backoff;
    var i := 1;
    while i < attempt && wait < ceiling
      invariant 1 <= i <= attempt && wait == Grown(backoff, ceiling, i - 1)
    {
      wait := Wrapped(2 * wait);
      i := i + 1;
    }
    GrownStays(backoff, ceiling, i - 1, attempt - 1);
    if wait >= ceiling {
      wait := ceiling;
    }
  }

  lemma {:induction false} GrownStays(backoff: int, ceiling: int, i: nat, n: nat)
    requires i <= n && (i == n || Grown(backoff, ceiling, i) >= ceiling)
    ensures Grown(backoff, ceiling, n) == Grown(backoff, ceiling, i)
    decreases n - i
  {
    if i < n { GrownStays(backoff, ceiling, i + 1, n); }
  }

  ghost function Doubled(d: int, times: nat): int {
    if times == 0 then d else 2 * Doubled(d, times - 1)
  }

  /** What the wait should be: the backoff doubled with every attempt, up to the ceiling. */
  ghost function Ideal(backoff: int, ceiling: int, attempt: nat): int
    requires attempt >= 1
  {
    var d := Doubled(backoff, attempt - 1);
    if d < ceiling then d else ceiling
  }

  /** The first doubling of `d` from which one more would overflow. */
  function Peak(d: int): (p: int)
    requires 0 < d < TWO_63
    ensures TWO_62 <= p < TWO_63
    decreases TWO_63 - d
  {
    if d >= TWO_62 then d else Peak(2 * d)
  }

  /** No doubling of the backoff that is still below the ceiling overflows. */
  predicate Fits(backoff: int, ceiling: int)
    requires 0 <= backoff < TWO_63
  {
    backoff == 0 || ceiling <= TWO_62 || ceiling <= Peak(backoff)
  }

  lemma {:induction false} DoubledIsMonotone(d: int, m: nat, n: nat)
    requires d >= 0 && m <= n
    ensures 0 <= Doubled(d, m) <= Doubled(d, n)
    decreases n
  {
    if m < n { DoubledIsMonotone(d, m, n - 1); }
    else if n > 0 { DoubledIsMonotone(d, m - 1, n - 1); }
  }

  /** Below the peak there is no doubling from 2^62 on. */
  lemma {:induction false} PeakIsADoubling(d: int) returns (k: nat)
    requires 0 < d < TWO_63
    ensures Doubled(d, k) == Peak(d)
    ensures forall n: nat :: n < k ==> Doubled(d, n) < TWO_62
    decreases TWO_63 - d
  {
    if d >= TWO_62 {
      k := 0;
    } else {
      var j := PeakIsADoubling(2 * d);
      k := j + 1;
      forall n: nat | n <= k
        ensures n > 0 ==> Doubled(d, n) == Doubled(2 * d, n - 1)
      {
        if n > 0 { DoubledShift(d, n - 1); }
      }
    }
  }

  lemma {:induction false} DoubledShift(d: int, n: nat)
    ensures Doubled(d, n + 1) == Doubled(2 * d, n)
  {
    if n > 0 { DoubledShift(d, n - 1); }
  }

  /** While it has not reached the ceiling, the loop's value is the exact doubling. */
  lemma {:induction false} GrownIsDoubled(backoff: int, ceiling: int, n: nat)
    requires 0 <= backoff < TWO_63 && Fits(backoff, ceiling)
    ensures if Doubled(backoff, n) < ceiling then Grown(backoff, ceiling, n) == Doubled(backoff, n)
            else Grown(backoff, ceiling, n) >= ceiling
  {
    if n > 0 {
      GrownIsDoubled(backoff, ceiling, n - 1);
      DoubledIsMonotone(backoff, n - 1, n);
      var before := Doubled(backoff, n - 1);
      if before < ceiling {
        assert before < TWO_62 by {
          if backoff == 0 {
            ZeroStays(n - 1);
          } else if ceiling > TWO_62 {
            var k := PeakIsADoubling(backoff);
            if n - 1 >= k { DoubledIsMonotone(backoff, k, n - 1); }
          }
        }
      }
    }
  }

  lemma {:induction false} ZeroStays(n: nat)
    ensures Doubled(0, n) == 0
  {
    if n > 0 { ZeroStays(n - 1); }
  }

  /** The wait is exactly the backoff doubled with every attempt up to the ceiling, at every attempt, if
      and only if the backoff is not negative and no doubling still below the ceiling overflows: so always
      where the backoff is not negative and the ceiling is at most 2^62 nanoseconds. */
  lemma WaitIsExact(backoff: int, ceiling: int)
    requires IsDuration(backoff) && IsDuration(ceiling)
    ensures (forall n: nat :: n >= 1 ==> WaitFor(backoff, ceiling, n) == Ideal(backoff, ceiling, n))
            <==> 0 <= backoff && Fits(backoff, ceiling)
  {
    if backoff < 0 {
      NegativeDiffers(backoff, ceiling);
    } else if Fits(backoff, ceiling) {
      forall n: nat | n >= 1
        ensures WaitFor(backoff, ceiling, n) == Ideal(backoff, ceiling, n)
      {
        GrownIsDoubled(backoff, ceiling, n - 1);
      }
    } else {
      var k := PeakIsADoubling(backoff);
      Overflows(backoff, ceiling, k);
    }
  }

  lemma {:induction false} GrownIsDuration(backoff: int, ceiling: int, n: nat)
    requires IsDuration(backoff)
    ensures IsDuration(Grown(backoff, ceiling, n))
  {
    if n > 0 { GrownIsDuration(backoff, ceiling, n - 1); }
  }

  lemma DoubledEight(d: int, n: nat)
    ensures Doubled(d, n + 8) == 256 * Doubled(d, n)
  {
    assert Doubled(d, n + 4) == 2 * Doubled(d, n + 3) == 4 * Doubled(d, n + 2) == 8 * Doubled(d, n + 1)
           == 16 * Doubled(d, n);
    assert Doubled(d, n + 8) == 2 * Doubled(d, n + 7) == 4 * Doubled(d, n + 6) == 8 * Doubled(d, n + 5)
           == 16 * Doubled(d, n + 4);
  }

  lemma {:induction false} DoubledFalls(d: int, n: nat)
    requires d < 0
    ensures Doubled(d, n) <= Doubled(-1, n)
  {
    if n > 0 { DoubledFalls(d, n - 1); }
  }

  /** A negative backoff, doubled 64 times, is less than any duration that could be waited. */
  lemma NegativeDiffers(backoff: int, ceiling: int)
    requires IsDuration(backoff) && IsDuration(ceiling) && backoff < 0
    ensures Ideal(backoff, ceiling, 65) < -TWO_63 <= WaitFor(backoff, ceiling, 65)
  {
    DoubledFalls(backoff, 64);
    DoubledEight(-1, 0);
    DoubledEight(-1, 8);
    DoubledEight(-1, 16);
    DoubledEight(-1, 24);
    DoubledEight(-1, 32);
    DoubledEight(-1, 40);
    DoubledEight(-1, 48);
    DoubledEight(-1, 56);
    GrownIsDuration(backoff, ceiling, 64);
  }

  lemma {:induction false} GrownBelow(backoff: int, ceiling: int, n: nat)
    requires 0 <= backoff < TWO_63
    requires forall m: nat :: m <= n ==> Doubled(backoff, m) < ceiling
    requires forall m: nat :: m < n ==> Doubled(backoff, m) < TWO_62
    ensures Grown(backoff, ceiling, n) == Doubled(backoff, n)
  {
    if n > 0 {
      GrownBelow(backoff, ceiling, n - 1);
      DoubledIsMonotone(backoff, 0, n - 1);
    }
  }

  /** One doubling past the peak the loop's value is negative, where the ceiling should have been waited. */
  lemma Overflows(backoff: int, ceiling: int, k: nat)
    requires 0 < backoff < TWO_63 && ceiling < TWO_63
    requires TWO_62 <= Doubled(backoff, k) < ceiling
    requires forall m: nat :: m < k ==> Doubled(backoff, m) < TWO_62
    ensures WaitFor(backoff, ceiling, k + 2) < 0 < ceiling == Ideal(backoff, ceiling, k + 2)
  {
    forall m: nat | m <= k
      ensures Doubled(backoff, m) < ceiling
    {
      DoubledIsMonotone(backoff, m, k);
    }
    GrownBelow(backoff, ceiling, k);
    assert Grown(backoff, ceiling, k + 1) == Wrapped(2 * Doubled(backoff, k));
  }

  /** The wait of no attempt is shorter than that of an earlier one. */
  ghost predicate NeverDecreases(backoff: int, ceiling: int) {
    forall m: nat, n: nat :: 1 <= m <= n ==> WaitFor(backoff, ceiling, m) <= WaitFor(backoff, ceiling, n)
  }

  /** What keeps waits from decreasing, of the first one and of those after it. */
  predicate Steady(backoff: int, ceiling: int)
    requires IsDuration(backoff)
    decreases backoff < 0
  {
    || backoff >= ceiling
    || (backoff >= 0 && Fits(backoff, ceiling))
    || (backoff < -TWO_62 && Steady(Wrapped(2 * backoff), ceiling))
  }

  lemma {:induction false} GrownShift(backoff: int, ceiling: int, n: nat)
    requires backoff < ceiling
    ensures Grown(backoff, ceiling, n + 1) == Grown(Wrapped(2 * backoff), ceiling, n)
  {
    if n > 0 { GrownShift(backoff, ceiling, n - 1); }
  }

  /** From the second attempt on, the waits are those of the backoff doubled once. */
  lemma LaterWaits(backoff: int, ceiling: int)
    requires IsDuration(backoff) && backoff < ceiling
    ensures forall n: nat :: n >= 1 ==> WaitFor(backoff, ceiling, n + 1) == WaitFor(Wrapped(2 * backoff), ceiling, n)
  {
    forall n: nat | n >= 1
      ensures WaitFor(backoff, ceiling, n + 1) == WaitFor(Wrapped(2 * backoff), ceiling, n)
    {
      GrownShift(backoff, ceiling, n - 1);
    }
  }

  lemma FittingNeverDecreases(backoff: int, ceiling: int)
    requires 0 <= backoff < TWO_63 && IsDuration(ceiling) && Fits(backoff, ceiling)
    ensures NeverDecreases(backoff, ceiling)
  {
    WaitIsExact(backoff, ceiling);
    forall m: nat, n: nat | 1 <= m <= n
      ensures WaitFor(backoff, ceiling, m) <= WaitFor(backoff, ceiling, n)
    {
      DoubledIsMonotone(backoff, m - 1, n - 1);
      assert WaitFor(backoff, ceiling, m) == Ideal(backoff, ceiling, m);
      assert WaitFor(backoff, ceiling, n) == Ideal(backoff, ceiling, n);
    }
  }

  /** The first wait, of a backoff that wraps to no less than zero, is no longer than any other. */
  lemma WrappedNeverDecreasesWhen(backoff: int, ceiling: int)
    requires IsDuration(backoff) && IsDuration(ceiling) && backoff < ceiling && backoff < -TWO_62
    ensures NeverDecreases(backoff, ceiling) <==> NeverDecreases(Wrapped(2 * backoff), ceiling)
  {
    var next := Wrapped(2 * backoff);
    LaterWaits(backoff, ceiling);
    if NeverDecreases(next, ceiling) {
      forall m: nat, n: nat | 1 <= m <= n
        ensures WaitFor(backoff, ceiling, m) <= WaitFor(backoff, ceiling, n)
      {
        if m > 1 {
          assert WaitFor(next, ceiling, m - 1) <= WaitFor(next, ceiling, n - 1);
        } else if n > 1 {
          assert WaitFor(next, ceiling, 1) <= WaitFor(next, ceiling, n - 1);
        }
      }
    }
    if NeverDecreases(backoff, ceiling) {
      forall m: nat, n: nat | 1 <= m <= n
        ensures WaitFor(next, ceiling, m) <= WaitFor(next, ceiling, n)
      {
        assert WaitFor(backoff, ceiling, m + 1) <= WaitFor(backoff, ceiling, n + 1);
      }
    }
  }

  /** The wait never decreases with the attempt exactly where the backoff is at the ceiling or past it from
      the start, or fits, or wraps at once to a duration of which one of these holds. */
  lemma {:induction false} WaitNeverDecreasesExactlyWhen(backoff: int, ceiling: int)
    requires IsDuration(backoff) && IsDuration(ceiling)
    ensures NeverDecreases(backoff, ceiling) <==> Steady(backoff, ceiling)
    decreases backoff < 0
  {
    if backoff >= ceiling {
      forall n: nat | n >= 1
        ensures WaitFor(backoff, ceiling, n) == ceiling
      {
        GrownStays(backoff, ceiling, 0, n - 1);
      }
    } else if backoff < -TWO_62 {
      WrappedNeverDecreasesWhen(backoff, ceiling);
      WaitNeverDecreasesExactlyWhen(Wrapped(2 * backoff), ceiling);
    } else if backoff < 0 {
      assert Grown(backoff, ceiling, 1) == 2 * backoff;
      assert WaitFor(backoff, ceiling, 1) > WaitFor(backoff, ceiling, 2);
    } else if Fits(backoff, ceiling) {
      FittingNeverDecreases(backoff, ceiling);
    } else {
      var k := PeakIsADoubling(backoff);
      Overflows(backoff, ceiling, k);
      assert WaitFor(backoff, ceiling, 1) > WaitFor(backoff, ceiling, k + 2);
    }
  }

  lemma FiveSecondsDoubled()
    ensures Doubled(5_000_000_000, 29) == 2_684_354_560_000_000_000
    ensures Doubled(5_000_000_000, 30) == 5_368_709_120_000_000_000
  {
    var five := 5_000_000_000;
    DoubledEight(five, 0);
    DoubledEight(five, 8);
    DoubledEight(five, 16);
    assert Doubled(five, 26) == 4 * Doubled(five, 24);
    assert Doubled(five, 28) == 4 * Doubled(five, 26);
  }

  /** A backoff of five seconds and a ceiling of a hundred thousand days: at the 32nd attempt the wait is
      negative. */
  lemma LongCeilingOverflows()
    ensures WaitFor(5_000_000_000, 8_640_000_000_000_000_000, 32) < 0
    ensures Ideal(5_000_000_000, 8_640_000_000_000_000_000, 32) == 8_640_000_000_000_000_000
  {
    hide Doubled, WaitFor, Ideal;
    FiveSecondsDoubled();
    forall m: nat | m < 30
      ensures Doubled(5_000_000_000, m) < TWO_62
    {
      DoubledIsMonotone(5_000_000_000, m, 29);
    }
    Overflows(5_000_000_000, 8_640_000_000_000_000_000, 30);
  }

  /** A backoff of 106752 days wraps and is negative from the start; and one that is negative and as long as
      the ceiling is not doubled at all. */
  lemma LongBackoffIsNegative()
    ensures Wrapped(106_752 * 86_400_000_000_000) == -9_223_371_273_709_551_616
    ensures WaitFor(-1_000_000_000_000_000_000, -1_000_000_000_000_000_000, 2) == -1_000_000_000_000_000_000
    ensures Ideal(-1_000_000_000_000_000_000, -1_000_000_000_000_000_000, 2) == -2_000_000_000_000_000_000
  {
    assert Grown(-1_000_000_000_000_000_000, -1_000_000_000_000_000_000, 1) == -1_000_000_000_000_000_000;
    assert Doubled(-1_000_000_000_000_000_000, 1) == 2 * Doubled(-1_000_000_000_000_000_000, 0);
  }
}
