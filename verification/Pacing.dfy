/** How the late pass spreads its daily budget over the timer firings left before the
    open, and in what order it spends a firing's share. */
module Pacing {
  import opened Numbers

  const MICROS_PER_DAY := 86_400_000_000

  /** The timer's step: ten minutes in microseconds. */
  const CADENCE := 600_000_000

  function SessionDay(ts: int): int { ts / MICROS_PER_DAY }

  predicate ShouldRun(now: int, sheetDone: bool, open: int) {
    sheetDone && SessionDay(open) == SessionDay(now) && now < open
  }

  function PassesRemaining(now: int, open: int): (n: nat)
    ensures n >= 1
  {
    if now >= open then 1 else (open - now) / CADENCE + 1
  }

  /** One more than the ten-minute steps left before the open; one at or after it. */
  lemma {:induction false} PassesAreSteps(now: int, open: int)
    ensures now < open ==> (PassesRemaining(now, open) - 1) * 600_000_000 <= open - now < PassesRemaining(now, open) * 600_000_000
    ensures now >= open ==> PassesRemaining(now, open) == 1
  {
  }

  /** The deadline's firing is counted although it never runs, so the count is one too
      high exactly when the firings line up with the open. */
  lemma {:induction false} OneStepOnePass(now: int, open: int)
    requires now < open
    ensures PassesRemaining(now, open) >= 1
    ensures PassesRemaining(now + CADENCE, open) == PassesRemaining(now, open) - 1 <==> now + CADENCE <= open
  {
    StepDiv(open - now);
  }

  lemma {:induction false} StepDiv(gap: int)
    requires gap >= 0
    ensures gap < CADENCE ==> gap / CADENCE == 0
    ensures gap >= CADENCE ==> (gap - CADENCE) / CADENCE == gap / CADENCE - 1
  {
  }

  /** Firings at now, now + CADENCE, ... that come before the open. */
  function RealPasses(now: int, open: int): nat
    decreases if now >= open then 0 else open - now
  {
    if now >= open then 0 else 1 + RealPasses(now + CADENCE, open)
  }

  lemma {:induction false} PhantomPass(now: int, open: int)
    requires now < open
    ensures PassesRemaining(now, open) == RealPasses(now, open) + if (open - now) % CADENCE == 0 then 1 else 0
    decreases open - now
  {
    if now + CADENCE < open {
      PhantomPass(now + CADENCE, open);
      assert (open - now - CADENCE) % CADENCE == (open - now) % CADENCE;
      StepDiv(open - now);
    } else {
      assert RealPasses(now + CADENCE, open) == 0;
      StepDiv(open - now);
    }
  }

  // ----------------------------------------------------------------- budget

  function CeilDiv(a: nat, b: nat): nat
    requires b >= 1
  {
    (a + b - 1) / b
  }

  function Budget(dailyMax: int, already: nat): nat {
    if dailyMax > already then dailyMax - already else 0
  }

  function Allowance(budget: nat, passMax: nat, passes: int): nat {
    if budget == 0 then 0
    else Least(Least(passMax, budget), CeilDiv(budget, if passes > 1 then passes else 1))
  }

  lemma {:induction false} Product(q: int, p: int)
    requires q >= 0 && p >= 1
    ensures q * p >= q
    ensures q >= 1 ==> q * p >= q + p - 1
  {
    assert q * p == q * (p - 1) + q;
    if q >= 1 {
      assert (q - 1) * (p - 1) >= 0;
      assert q * p == (q - 1) * (p - 1) + q + p - 1;
    }
  }

  lemma {:induction false} ShareShape(b: nat, p: nat)
    requires p >= 1
    ensures b == b / p * p + b % p && b % p < p
    ensures CeilDiv(b, p) == b / p + if b % p > 0 then 1 else 0
    ensures b / p >= 1 <==> b >= p
    ensures b / p >= 1 ==> b >= b / p + p - 1 + b % p
    ensures CeilDiv(b, p) <= b
  {
    var q, r := b / p, b % p;
    assert b == q * p + r && 0 <= r < p;
    Quotient0(b, p);
    Product(q, p);
    if r > 0 {
      QuotientIs(b + p - 1, p, q + 1, r - 1);
    } else {
      QuotientIs(b + p - 1, p, q, p - 1);
    }
  }

  lemma {:induction false} AllowanceBounds(budget: nat, passMax: nat, passes: int)
    ensures Allowance(budget, passMax, passes) <= passMax
    ensures Allowance(budget, passMax, passes) <= budget
    ensures Allowance(budget, passMax, passes) > 0 <==> budget > 0 && passMax > 0
  {
    if budget > 0 {
      var p: nat := if passes > 1 then passes else 1;
      hide CeilDiv;
      ShareShape(budget, p);
    }
  }

  lemma {:induction false} Quotient0(b: nat, p: nat)
    requires p >= 1
    ensures b / p >= 0
    ensures b < p ==> b / p == 0
  {
  }

  lemma {:induction false} QuotientIs(a: int, p: int, q: int, r: int)
    requires p >= 1 && 0 <= r < p && a == q * p + r
    ensures a / p == q && a % p == r
  {
    SmallMultiple(a / p - q, p, r - a % p);
  }

  lemma {:induction false} SmallMultiple(d: int, p: int, m: int)
    requires p >= 1 && d * p == m && -p < m < p
    ensures d == 0
  {
    if d >= 1 {
      Product(d, p);
    } else if d < 0 {
      assert (-d) * p == -m;
      Product(-d, p);
    }
  }

  /** Spending the allowance leaves a slot for every pass still counted. */
  lemma {:induction false} AllowanceKeepsASlotPerPass(budget: nat, passMax: nat, passes: nat)
    requires budget >= passes >= 1
    ensures Allowance(budget, passMax, passes) <= passMax
    ensures budget - Allowance(budget, passMax, passes) >= passes - 1
  {
    hide CeilDiv;
    ShareShape(budget, passes);
  }

  /** What is left after k passes that each had enough candidates to spend their share,
      when `passes` were counted at the first. */
  function LeftAfter(budget: nat, passMax: nat, passes: nat, k: nat): nat
    requires k <= passes
    decreases k
  {
    if k == 0 then budget
    else
      var a := Allowance(budget, passMax, passes);
      LeftAfter(if a <= budget then budget - a else 0, passMax, passes - 1, k - 1)
  }

  /** Shares differ by at most one and the larger ones come first. */
  lemma {:induction false} SharesAreEven(budget: nat, passMax: nat, passes: nat, k: nat)
    requires k <= passes && passes >= 1
    requires CeilDiv(budget, passes) <= passMax
    ensures LeftAfter(budget, passMax, passes, k)
         == budget / passes * (passes - k) + if budget % passes > k then budget % passes - k else 0
    decreases k
  {
    hide CeilDiv, Allowance;
    ShareShape(budget, passes);
    if k > 0 {
      FirstShare(budget, passMax, passes);
      var rest := budget - CeilDiv(budget, passes);
      if passes == 1 {
        assert LeftAfter(rest, passMax, 0, 0) == rest;
      } else {
        RestShape(budget, passes);
        ShareShape(rest, passes - 1);
        SharesAreEven(rest, passMax, passes - 1, k - 1);
      }
    }
  }

  lemma {:induction false} FirstShare(budget: nat, passMax: nat, passes: nat)
    requires passes >= 1 && CeilDiv(budget, passes) <= passMax
    ensures Allowance(budget, passMax, passes) == CeilDiv(budget, passes) <= budget
  {
    hide CeilDiv;
    ShareShape(budget, passes);
  }

  lemma {:induction false} RestShape(budget: nat, passes: nat)
    requires passes >= 2
    ensures var rest := budget - CeilDiv(budget, passes);
      && rest >= 0
      && rest / (passes - 1) == budget / passes
      && rest % (passes - 1) == if budget % passes > 0 then budget % passes - 1 else 0
  {
    hide CeilDiv;
    ShareShape(budget, passes);
    TakeShare(budget, passes, budget / passes, budget % passes);
  }

  lemma {:induction false} TakeShare(b: nat, p: nat, q: nat, r: nat)
    requires p >= 2 && r < p && b == q * p + r
    ensures var rest := b - q - (if r > 0 then 1 else 0);
      rest >= 0 && rest / (p - 1) == q && rest % (p - 1) == if r > 0 then r - 1 else 0
  {
    assert q * p == q * (p - 1) + q;
    Product(q, p - 1);
    QuotientIs(b - q - (if r > 0 then 1 else 0), p - 1, q, if r > 0 then r - 1 else 0);
  }

  /** A day on which every firing before the open had enough candidates: the whole budget
      is spent unless a firing falls on the open itself, which strands one share of
      floor(budget / passes). */
  lemma {:induction false} SaturatedDay(now: int, open: int, budget: nat, passMax: nat)
    requires now < open
    requires CeilDiv(budget, PassesRemaining(now, open)) <= passMax
    ensures var passes := PassesRemaining(now, open);
      RealPasses(now, open) <= passes
      && LeftAfter(budget, passMax, passes, RealPasses(now, open))
         == if (open - now) % CADENCE == 0 then budget / passes else 0
    ensures LeftAfter(budget, passMax, PassesRemaining(now, open), RealPasses(now, open)) == 0
        <==> (open - now) % CADENCE != 0 || budget < PassesRemaining(now, open)
  {
    hide CeilDiv, PassesRemaining, RealPasses, LeftAfter;
    var passes := PassesRemaining(now, open);
    var n := RealPasses(now, open);
    OneStepOnePass(now, open);
    PhantomPass(now, open);
    SharesAreEven(budget, passMax, passes, n);
    ShareShape(budget, passes);
    assert budget / passes * (passes - n) == if n == passes then 0 else budget / passes;
  }
}
