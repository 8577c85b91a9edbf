/** Polling for funds with a delay that grows by a twentieth each time. Durations are real numbers of seconds. */
module WaitForFunds {
  import opened HoprTypes

  const MULTIPLIER: real := 1.05

  // Two seconds, unless the maximum is shorter.
  function InitialDelay(maxDelay: real): (r: real)
    ensures r <= 2.0 && r <= maxDelay && (r == 2.0 || r == maxDelay)
  {
    if 2.0 < maxDelay then 2.0 else maxDelay
  }

  /** The delay before the poll number k. */
  function DelayAt(maxDelay: real, k: nat): real {
    if k == 0 then InitialDelay(maxDelay) else DelayAt(maxDelay, k - 1) * MULTIPLIER
  }

  predicate Funded(balance: Option<nat>, minBalance: nat) {
    balance.Some? && balance.value >= minBalance
  }

  // Whether there is a poll number k, that is whether all delays up to it were within the maximum.
  predicate Polls(maxDelay: real, k: nat) {
    forall i :: 0 <= i <= k ==> DelayAt(maxDelay, i) <= maxDelay
  }

  /**
   `balances(k)` is what poll k reports, None standing for an error. Giving up means that every poll fell
   short; the time slept is then twenty times what the delay grew by, at most 21 times the maximum.
   */
  method Wait(minBalance: nat, maxDelay: real, balances: nat -> Option<nat>)
    returns (funded: bool, polls: nat, slept: real, finalDelay: real)
    requires maxDelay > 0.0
    ensures polls >= 1 && Polls(maxDelay, polls - 1)
    ensures finalDelay == DelayAt(maxDelay, if funded then polls - 1 else polls)
    ensures slept == 20.0 * (finalDelay - InitialDelay(maxDelay))
    ensures funded <==> Funded(balances(polls - 1), minBalance)
    ensures forall i :: 0 <= i < polls - 1 ==> !Funded(balances(i), minBalance)
    ensures !funded ==> maxDelay < finalDelay <= MULTIPLIER * maxDelay
    ensures slept <= 21.0 * maxDelay
  {
    var currentDelay := InitialDelay(maxDelay);
    polls, slept := 0, 0.0;
    while currentDelay <= maxDelay
      invariant currentDelay == DelayAt(maxDelay, polls)
      invariant InitialDelay(maxDelay) <= currentDelay <= MULTIPLIER * maxDelay
      invariant slept == 20.0 * (currentDelay - InitialDelay(maxDelay))
      invariant polls > 0 ==> Polls(maxDelay, polls - 1)
      invariant forall i :: 0 <= i < polls ==> !Funded(balances(i), minBalance)
      decreases if maxDelay > 2.0 then 10.0 * (MULTIPLIER * maxDelay - currentDelay)
                else if currentDelay <= maxDelay then 1.0 else 0.0
    {
      var balance := balances(polls);
      polls := polls + 1;
      if Funded(balance, minBalance) {
        return true, polls, slept, currentDelay;
      }
      slept := slept + currentDelay;
      currentDelay := currentDelay * MULTIPLIER;
    }
    return false, polls, slept, currentDelay;
  }

  // ---------- whole nanoseconds ----------

  const TWO_SECONDS: nat := 2_000_000_000

  // Up to some hours, floating point is exact enough for the product to be rounded to a nearest whole number.
  const PRECISE: nat := 10_000_000_000_000

  /**
   What multiplying a delay of n nanoseconds can give: up to `PRECISE` a nearest whole number, either one of two
   equally near ones, and beyond something between 4 and 6.25 per cent more.
   */
  predicate Rounds(n: nat, product: nat) {
    if n <= PRECISE then -10 <= 20 * product - 21 * n <= 10
    else n + n / 25 <= product <= n + n / 16
  }

  function InitialNanos(maxDelay: nat): (r: nat)
    ensures r <= 2_000_000_000 && r <= maxDelay && (r == 2_000_000_000 || r == maxDelay)
  {
    if TWO_SECONDS < maxDelay then TWO_SECONDS else maxDelay
  }

  function NanosAt(maxDelay: nat, product: nat -> nat, k: nat): nat {
    if k == 0 then InitialNanos(maxDelay) else product(NanosAt(maxDelay, product, k - 1))
  }

  lemma LongDelaysGrow(n: nat, product: nat)
    requires Rounds(n, product) && n >= TWO_SECONDS
    ensures product >= n + 50_000_000
  {
  }

  lemma {:induction false} NanosGrow(maxDelay: nat, product: nat -> nat, k: nat)
    requires maxDelay > TWO_SECONDS && forall n :: Rounds(n, product(n))
    ensures NanosAt(maxDelay, product, k) >= TWO_SECONDS + k
    decreases k
  {
    if k > 0 {
      NanosGrow(maxDelay, product, k - 1);
      LongDelaysGrow(NanosAt(maxDelay, product, k - 1), product(NanosAt(maxDelay, product, k - 1)));
    }
  }

  lemma {:induction false} ShortDelayStays(maxDelay: nat, product: nat -> nat, k: nat)
    requires maxDelay <= TWO_SECONDS && product(maxDelay) == maxDelay
    ensures NanosAt(maxDelay, product, k) == maxDelay
    decreases k
  {
    if k > 0 {
      ShortDelayStays(maxDelay, product, k - 1);
    }
  }

  /**
   Unfunded polling ever ends exactly from a maximum of eleven nanoseconds on, and for ten if ten and a half is
   rounded up. Below, every product is rounded back to the delay itself.
   */
  lemma GivesUpExactly(maxDelay: nat, product: nat -> nat)
    requires forall n :: Rounds(n, product(n))
    ensures (exists k :: NanosAt(maxDelay, product, k) > maxDelay) <==> maxDelay >= 11 || (maxDelay == 10 && product(10) == 11)
  {
    assert Rounds(maxDelay, product(maxDelay));
    if maxDelay > TWO_SECONDS {
      NanosGrow(maxDelay, product, maxDelay);
      assert NanosAt(maxDelay, product, maxDelay) > maxDelay;
    } else if maxDelay >= 11 || (maxDelay == 10 && product(10) == 11) {
      assert NanosAt(maxDelay, product, 0) == maxDelay;
      assert NanosAt(maxDelay, product, 1) > maxDelay;
    } else {
      forall k ensures NanosAt(maxDelay, product, k) <= maxDelay {
        ShortDelayStays(maxDelay, product, k);
      }
    }
  }
}
