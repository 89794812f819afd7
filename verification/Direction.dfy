/** Long and short arithmetic, as in src/common/direction.py. */
module Direction {
  import opened Rounding

  datatype Side = Long | Short

  /** Stop price `distance` on the losing side of an entry limit, to the cent. */
  function EntryStop(side: Side, limit: real, distance: real): real {
    Round2(if side.Long? then limit - distance else limit + distance)
  }

  /** n shares at x each. */
  function Scale(n: nat, x: real): real { n as real * x }

  function RiskPerShare(side: Side, entry: real, stop: real): real {
    var d := if side.Long? then entry - stop else stop - entry;
    if d > 0.0 then d else 0.0
  }

  /** Dollars at risk to the stop; a stop at or through entry risks nothing. */
  function OpenRisk(side: Side, entry: real, stop: real, qty: nat): real {
    Scale(qty, RiskPerShare(side, entry, stop))
  }

  /** The rounded entry stop is within half a cent of the intended distance, and
      exact when limit and distance are whole cents. */
  lemma {:induction false} EntryStopRisk(side: Side, limit: real, distance: real)
    requires distance >= 0.0
    ensures RiskPerShare(side, limit, EntryStop(side, limit, distance)) <= distance + HALF_CENT
    ensures OnCentGrid(if side.Long? then limit - distance else limit + distance) ==>
              RiskPerShare(side, limit, EntryStop(side, limit, distance)) == distance
  {
    hide Round2;
    Round2Near(if side.Long? then limit - distance else limit + distance);
  }

  /** A stop moved toward the winning side, or a smaller position, risks no more. */
  lemma {:induction false} OpenRiskShrinks(side: Side, entry: real, stop: real, tighter: real, qty: nat, less: nat)
    requires if side.Long? then tighter >= stop else tighter <= stop
    requires less <= qty
    ensures 0.0 <= OpenRisk(side, entry, tighter, less) <= OpenRisk(side, entry, stop, qty)
  {
    ScaleShrinks(less, qty, RiskPerShare(side, entry, tighter), RiskPerShare(side, entry, stop));
  }

  lemma {:induction false} ScaleShrinks(n: nat, m: nat, x: real, y: real)
    requires n <= m && 0.0 <= x <= y
    ensures 0.0 <= Scale(n, x) <= Scale(m, y)
  {
    ScalePrice(n, x, y);
    ScaleCount(n, m, y);
    ScalePrice(n, 0.0, x);
    ScaleAdds(n, 0.0, 0.0);
    hide Scale;
  }

  lemma {:induction false} ScalePrice(n: nat, x: real, y: real)
    requires x <= y
    ensures Scale(n, x) <= Scale(n, y)
  {
    TimesRight(x, y, n as real);
  }

  lemma {:induction false} ScaleCount(n: nat, m: nat, y: real)
    requires n <= m && y >= 0.0
    ensures Scale(n, y) <= Scale(m, y)
  {
    Times(n as real, m as real, y);
  }

  lemma {:induction false} TimesRight(a: real, b: real, c: real)
    requires a <= b && c >= 0.0
    ensures c * a <= c * b
  {
  }

  lemma {:induction false} ScaleAdds(n: nat, x: real, y: real)
    ensures Scale(n, x + y) == Scale(n, x) + Scale(n, y)
    ensures Scale(n + 1, x) == Scale(n, x) + x && Scale(0, x) == 0.0 && Scale(n, 0.0) == 0.0
  {
  }

  lemma {:induction false} ScalePositive(n: nat, x: real)
    requires n >= 1 && x > 0.0
    ensures Scale(n, x) >= x
  {
    Times(1.0, n as real, x);
  }

  lemma {:induction false} Times(a: real, b: real, c: real)
    requires a <= b && c >= 0.0
    ensures a * c <= b * c && (a >= 0.0 ==> a * c >= 0.0)
  {
  }
}
