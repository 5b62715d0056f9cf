/** Retry delays of the delivery worker. */
module Backoff {
  import opened Common

  const U64_MAX: nat := 0xFFFF_FFFF_FFFF_FFFF

  function Pow2(k: nat): (p: nat)
    ensures p >= 1
  {
    if k == 0 then 1 else 2 * Pow2(k - 1)
  }

  function SatMul(a: nat, b: nat): nat { Min(a * b, U64_MAX) }

  /** The delay before the next attempt; `attempts` is a signed column. */
  function RetryDelay(base: nat, cap: nat, attempts: int): nat {
    var k := Min(Max(attempts, 0), U32_MAX);
    var multiplier := if k >= 63 then U64_MAX else Pow2(k);
    Min(SatMul(base, multiplier), cap)
  }

  /** Doubling without any limit of the machine. */
  function Doubled(base: nat, cap: nat, k: nat): nat {
    Min(base * Pow2(k), cap)
  }

  lemma {:induction false} Pow2Monotone(j: nat, k: nat)
    requires j <= k
    ensures Pow2(j) <= Pow2(k)
  {
    if j < k { Pow2Monotone(j, k - 1); }
  }

  lemma Pow2Byte(k: nat)
    ensures Pow2(k + 8) == 0x100 * Pow2(k)
  {
    assert Pow2(k + 3) == 8 * Pow2(k) by { assert Pow2(k + 2) == 4 * Pow2(k); }
    assert Pow2(k + 6) == 8 * Pow2(k + 3) by { assert Pow2(k + 5) == 4 * Pow2(k + 3); }
  }

  lemma Pow2At63()
    ensures Pow2(63) == 0x8000_0000_0000_0000
  {
    assert Pow2(7) == 0x80 by { assert Pow2(3) == 8; }
    Pow2Byte(7);
    Pow2Byte(15);
    Pow2Byte(23);
    Pow2Byte(31);
    Pow2Byte(39);
    Pow2Byte(47);
    Pow2Byte(55);
  }

  lemma Times(a: nat, b: nat, c: nat)
    requires b <= c
    ensures a * b <= a * c
  {
  }

  /** Exactly when one delay is the doubled base up to the cap. */
  lemma DelayAt(base: nat, cap: nat, k: nat)
    requires base <= U64_MAX && cap <= U64_MAX
    ensures RetryDelay(base, cap, k) == Doubled(base, cap, k) <==> k < 63 || base == 0 || cap <= base * Pow2(k)
  {
    if k < 63 {
      Capped(base * Pow2(k), cap);
    } else {
      var huge := base * U64_MAX;
      if base > 0 { Times(U64_MAX, 1, base); }
      Capped(huge, cap);
    }
  }

  lemma Capped(x: nat, cap: nat)
    requires cap <= U64_MAX
    ensures Min(Min(x, U64_MAX), cap) == Min(x, cap)
  {
  }

  /**
   * The delay is the doubled base up to the cap for every number of attempts exactly when the base
   * is zero or the cap at most 2^63 times the base; in particular for every cap up to 2^63.
   */
  lemma DelayDoubles(base: nat, cap: nat)
    requires base <= U64_MAX && cap <= U64_MAX
    ensures (forall k: nat :: RetryDelay(base, cap, k) == Doubled(base, cap, k)) <==> base == 0 || cap <= base * Pow2(63)
    ensures base >= 1 && cap <= 0x8000_0000_0000_0000 ==> cap <= base * Pow2(63)
  {
    Pow2At63();
    if base >= 1 { Times(Pow2(63), 1, base); }
    DelayAt(base, cap, 63);
    if base == 0 || cap <= base * Pow2(63) {
      forall k: nat ensures RetryDelay(base, cap, k) == Doubled(base, cap, k) {
        DelayAt(base, cap, k);
        if k >= 63 {
          Pow2Monotone(63, k);
          Times(base, Pow2(63), Pow2(k));
        }
      }
    }
  }

  /** For every base and cap the delay never shrinks from attempt to attempt and never exceeds the cap. */
  lemma DelayGrows(base: nat, cap: nat, i: int, j: int)
    requires i <= j
    ensures RetryDelay(base, cap, i) <= RetryDelay(base, cap, j) <= cap
  {
    var a, b := Min(Max(i, 0), U32_MAX), Min(Max(j, 0), U32_MAX);
    if b < 63 {
      Pow2Monotone(a, b);
      Times(base, Pow2(a), Pow2(b));
    } else if a < 63 {
      Pow2Monotone(a, 63);
      Pow2At63();
      Times(base, Pow2(a), U64_MAX);
    }
  }

  /** A cap just above 2^63 is reached one attempt too early from a base of one second. */
  lemma DelayJumps()
    ensures RetryDelay(1, U64_MAX, 63) == U64_MAX && Doubled(1, U64_MAX, 63) == 0x8000_0000_0000_0000
  {
    Pow2At63();
  }

  const OPEN_RETRY_INITIAL_DELAY: nat := 250
  const OPEN_RETRY_MAX_DELAY: nat := 30_000

  /** Opens the database, sleeping between failed attempts; `failures` of them happen first. */
  method RetryOpen(failures: nat) returns (sleeps: seq<nat>)
    ensures |sleeps| == failures
    ensures forall n :: 0 <= n < failures ==> sleeps[n] == Doubled(250, 30_000, n)
  {
    sleeps := [];
    var delay := OPEN_RETRY_INITIAL_DELAY;
    while |sleeps| < failures
      invariant |sleeps| <= failures
      invariant delay == Doubled(OPEN_RETRY_INITIAL_DELAY, OPEN_RETRY_MAX_DELAY, |sleeps|)
      invariant forall n :: 0 <= n < |sleeps| ==>
        sleeps[n] == Doubled(OPEN_RETRY_INITIAL_DELAY, OPEN_RETRY_MAX_DELAY, n)
      decreases failures - |sleeps|
    {
      sleeps := sleeps + [delay];
      delay := Min(delay * 2, OPEN_RETRY_MAX_DELAY);
    }
  }
}
