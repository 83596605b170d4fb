/** The sampling log handler: forwards a record when a counter modulo 100 is below the rate. */
module Sampling {

  const WRAP := 0x1_0000_0000_0000_0000

  type Counter = n: nat | n < WRAP

  /** A 64-bit atomic increment. */
  function Next(counter: Counter): Counter {
    if counter == WRAP - 1 then 0 else counter + 1
  }

  predicate Forwards(rate: real, count: nat) {
    (count % 100) as real < rate * 100.0
  }

  class SamplingHandler {
    const rate: real
    var counter: Counter

    constructor (rate: real)
      ensures this.rate == rate && counter == 0
    {
      this.rate := rate;
      counter := 0;
    }

    /** Whether the record is passed on to the wrapped handler. */
    method Handle() returns (forwarded: bool)
      modifies this
      ensures counter == Next(old(counter))
      ensures forwarded <==> Forwards(rate, counter)
    {
      counter := Next(counter);
      return (counter % 100) as real < rate * 100.0;
    }
  }

  /** How many of the next n records are forwarded. */
  function Forwarded(rate: real, counter: Counter, n: nat): nat
    decreases n
  {
    if n == 0 then 0 else
    (if Forwards(rate, Next(counter)) then 1 else 0) + Forwarded(rate, Next(counter), n - 1)
  }

  /** The same without wrap-around: the values first, first + 1, ..., n of them. */
  function Window(rate: real, first: nat, n: nat): nat {
    if n == 0 then 0 else Window(rate, first, n - 1) + if Forwards(rate, first + n - 1) then 1 else 0
  }

  function Ceiling(x: real): int { -(-x).Floor }

  /** Out of every hundred records, ceiling(100 * rate), within 0 and 100. */
  function Quota(rate: real): nat {
    var c := Ceiling(rate * 100.0);
    if c < 0 then 0 else if c > 100 then 100 else c
  }

  lemma {:induction false} FirstHundred(rate: real, n: nat)
    requires n <= 100
    ensures Window(rate, 0, n) == if n <= Quota(rate) then n else Quota(rate)
  {
    if n > 0 {
      FirstHundred(rate, n - 1);
      assert (n - 1) % 100 == n - 1;
      var x := rate * 100.0;
      assert (n - 1) as real < x <==> n - 1 < Ceiling(x);
    }
  }

  lemma {:induction false} WindowFromFront(rate: real, first: nat, n: nat)
    ensures Window(rate, first, n + 1) == (if Forwards(rate, first) then 1 else 0) + Window(rate, first + 1, n)
  {
    if n > 0 {
      WindowFromFront(rate, first, n - 1);
    }
  }

  /** Any hundred consecutive values cover each residue once. */
  lemma {:induction false} AnyHundred(rate: real, first: nat)
    ensures Window(rate, first, 100) == Quota(rate)
  {
    if first == 0 {
      FirstHundred(rate, 100);
    } else {
      AnyHundred(rate, first - 1);
      WindowFromFront(rate, first - 1, 100);
      assert (first - 1 + 100) % 100 == (first - 1) % 100;
      assert Window(rate, first - 1, 101) == Window(rate, first - 1, 100) + if Forwards(rate, first + 99) then 1 else 0;
    }
  }

  lemma {:induction false} ForwardedIsWindow(rate: real, counter: Counter, n: nat)
    requires counter + n < WRAP
    ensures Forwarded(rate, counter, n) == Window(rate, counter + 1, n)
    decreases n
  {
    if n > 0 {
      ForwardedIsWindow(rate, counter + 1, n - 1);
      WindowFromFront(rate, counter + 1, n - 1);
    }
  }

  lemma {:induction false} WindowSplits(rate: real, first: nat, m: nat, n: nat)
    ensures Window(rate, first, m + n) == Window(rate, first, m) + Window(rate, first + m, n)
  {
    if n > 0 {
      WindowSplits(rate, first, m, n - 1);
    }
  }

  lemma {:induction false} EveryHundred(rate: real, first: nat, k: nat)
    ensures Window(rate, first, 100 * k) == k * Quota(rate)
  {
    if k > 0 {
      EveryHundred(rate, first, k - 1);
      WindowSplits(rate, first, 100 * (k - 1), 100);
      AnyHundred(rate, first + 100 * (k - 1));
      assert k * Quota(rate) == (k - 1) * Quota(rate) + Quota(rate);
    }
  }

  /** From any counter value, as long as it does not wrap, every run of 100 * k records forwards
      exactly k times the quota. */
  lemma SamplingIsExact(rate: real, counter: Counter, k: nat)
    requires counter + 100 * k < WRAP
    ensures Forwarded(rate, counter, 100 * k) == k * Quota(rate)
  {
    ForwardedIsWindow(rate, counter, 100 * k);
    EveryHundred(rate, counter + 1, k);
  }

  /** At wrap-around the residues start again early: 2^64 is not a multiple of 100. */
  lemma {:induction false} ZeroIsForwarded(rate: real, before: nat, after: nat)
    requires rate > 0.0 && before < WRAP
    ensures Forwarded(rate, WRAP - 1 - before, before + 1 + after) >= 1
    decreases before
  {
    if before > 0 {
      ZeroIsForwarded(rate, before - 1, after);
    }
  }

  /** So a hundred records that cross it can forward twice their quota. */
  lemma WrapBreaksTheQuota(rate: real, counter: Counter)
    requires rate == 0.01 && counter == WRAP - 17
    ensures Quota(rate) == 1 && Forwarded(rate, counter, 100) >= 2
  {
    var n: nat := 99;
    assert Forwards(rate, Next(counter)) by {
      assert Next(counter) % 100 == 0;
    }
    ZeroIsForwarded(rate, 15, n - 16);
    assert Forwarded(rate, counter, n + 1) == 1 + Forwarded(rate, Next(counter), n);
  }

  // ---------------------------------------------------------------------------------------
  // Exactly which hundreds meet the quota
  // ---------------------------------------------------------------------------------------

  /** The k counts before the wrap, then what follows it. */
  lemma {:induction false} AcrossTheWrap(rate: real, k: nat, n: nat)
    requires k < WRAP
    ensures Forwarded(rate, WRAP - 1 - k, k + n) == Window(rate, WRAP - k, k) + Forwarded(rate, WRAP - 1, n)
    decreases k
  {
    if k > 0 {
      AcrossTheWrap(rate, k - 1, n);
      WindowFromFront(rate, WRAP - k, k - 1);
    }
  }

  lemma AfterTheWrap(rate: real, n: nat)
    requires 0 < n < WRAP
    ensures Forwarded(rate, WRAP - 1, n) == Window(rate, 0, n)
  {
    ForwardedIsWindow(rate, 0, n - 1);
    WindowFromFront(rate, 0, n - 1);
  }

  function Min(a: nat, b: nat): nat { if a < b then a else b }

  /** The last sixteen counts before the wrap have the residues 0 to 15. */
  lemma {:induction false} BeforeTheWrap(rate: real, k: nat)
    requires rate * 100.0 == 16.0 && k < 100
    ensures Window(rate, WRAP - k, k) >= Min(k, 16)
  {
    if k > 0 {
      BeforeTheWrap(rate, k - 1);
      WindowFromFront(rate, WRAP - k, k - 1);
      if k <= 16 {
        assert (WRAP - k) % 100 == 16 - k;
      }
    }
  }

  /** At rate 0.16 every hundred with 1 to 99 counts before the wrap forwards more than its 16. */
  lemma SixteenPercentOverruns(rate: real, k: nat)
    requires rate == 0.16 && 0 < k < 100
    ensures Forwarded(rate, WRAP - 1 - k, 100) > Quota(rate)
  {
    assert rate * 100.0 == 16.0;
    AcrossTheWrap(rate, k, 100 - k);
    AfterTheWrap(rate, 100 - k);
    BeforeTheWrap(rate, k);
    FirstHundred(rate, 100 - k);
  }

  /** The next hundred records meet the quota at every rate if and only if they do not cross the
      wrap, or start right at it. */
  lemma HundredIsExactIff(counter: Counter)
    ensures (forall rate :: Forwarded(rate, counter, 100) == Quota(rate))
            <==> counter + 100 < WRAP || counter == WRAP - 1
  {
    if counter + 100 < WRAP {
      forall rate ensures Forwarded(rate, counter, 100) == Quota(rate) {
        SamplingIsExact(rate, counter, 1);
      }
    } else if counter == WRAP - 1 {
      forall rate ensures Forwarded(rate, counter, 100) == Quota(rate) {
        AfterTheWrap(rate, 100);
        FirstHundred(rate, 100);
      }
    } else {
      SixteenPercentOverruns(0.16, WRAP - 1 - counter);
    }
  }
}
