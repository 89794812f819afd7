/** Whole-run results about one ladder. */
module LadderRuns {
  import opened Options
  import opened Rounding
  import opened Ladder
  import opened LadderFacts

  lemma {:induction false} LastStep(t: Terms, bars: seq<Bar>)
    requires t.rUnit != 0.0 && bars != []
    ensures After(t, bars) == Step(t, After(t, bars[..|bars| - 1]), bars[|bars| - 1])
  {
  }

  // --------------------------------------------------------- price bounds

  /** A bar that did not close the run stayed on the winning side of the stop. */
  lemma {:induction false} OpenAbove(t: Terms, s: Run, b: Bar)
    requires t.rUnit != 0.0 && BarOk(b) && !Skips(t, s, b) && !Step(t, s, b).closed
    ensures Gain(t.side, t.entry, b.close) >= Gain(t.side, t.entry, s.stop)
  {
    hide Round2, Progress;
  }

  lemma {:induction false} OpenMeansQty(t: Terms, bars: seq<Bar>)
    requires t.rUnit != 0.0
    requires After(t, bars).qtyOpen > 0
    ensures !After(t, bars).closed
  {
    AfterBalanced(t, bars);
  }

  /** Every exit means what its layer says, and every exit price lies between the
      initial stop and the best price seen, provided some bar is at or after the
      entry minute. (`MfeIsBestMove`: the reported mfe is that best move in R.) */
  lemma {:induction false} ExitsBounded(t: Terms, bars: seq<Bar>)
    requires TermsOk(t) && BarsOk(bars)
    requires bars != [] && bars[|bars| - 1].ts >= First(t)
    ensures ExitsOk(t, BestMove(t, bars), Final(t, bars).exits)
  {
    hide Round2, Step, Progress, ExitOk, StopOk, ScaledOk, BarOk;
    assert t.rUnit > 0.0;
    var s := After(t, bars);
    AfterSound(t, bars);
    if s.qtyOpen > 0 {
      OpenMeansQty(t, bars);
      var prefix, b := bars[..|bars| - 1], bars[|bars| - 1];
      LastStep(t, bars);
      if After(t, prefix).closed { ClosedStays(t, bars, |bars| - 1); }
      AfterSound(t, prefix);
      OpenAbove(t, After(t, prefix), b);
      MarkOk(t, BestMove(t, prefix), After(t, prefix), b, s.qtyOpen);
    }
  }

  lemma {:induction false} MarkOk(t: Terms, best: real, s: Run, b: Bar, q: nat)
    requires TermsOk(t) && BarOk(b) && Sound(t, best, s) && !Skips(t, s, b)
    requires Gain(t.side, t.entry, b.close) >= Gain(t.side, t.entry, s.stop)
    ensures ExitOk(t, NextBest(t, best, s, b), Exit(Minute(b.ts), EodMark, q, b.close))
  {
    hide Round2, Progress;
  }

  lemma {:induction false} Distribute(k: real, a: int, b: int)
    ensures k * (a + b) as real == k * a as real + k * b as real
  {
  }

  lemma {:induction false} AddWithin(lo: real, hi: real, n: int, s: real, q: nat, g: real)
    requires lo * n as real <= s <= hi * n as real && lo <= g <= hi
    ensures lo * (n + q) as real <= s + g * q as real <= hi * (n + q) as real
  {
    Distribute(lo, n, q);
    Distribute(hi, n, q);
    MulMono(lo, g, q as real);
    MulMono(g, hi, q as real);
  }

  lemma {:induction false} SumBetween(t: Terms, xs: seq<Exit>, lo: real, hi: real)
    requires forall e <- xs :: lo <= Gain(t.side, t.entry, e.px) <= hi
    ensures lo * SumQty(xs) as real <= SumGain(t, xs) <= hi * SumQty(xs) as real
  {
    hide Gain;
    if xs != [] {
      var e, rest := xs[|xs| - 1], xs[..|xs| - 1];
      SumBetween(t, rest, lo, hi);
      AddWithin(lo, hi, SumQty(rest), SumGain(t, rest), e.qty, Gain(t.side, t.entry, e.px));
    }
  }

  /** P&L lies between losing the initial stop distance on every share and taking
      the best price seen on every share: exactly when prices are wider than a
      cent apart, otherwise within about half a cent per share. */
  lemma {:induction false} PnlBounded(t: Terms, bars: seq<Bar>)
    requires TermsOk(t) && BarsOk(bars)
    requires bars != [] && bars[|bars| - 1].ts >= First(t)
    ensures Lowest(t) * t.qty as real <= Final(t, bars).pnl <= Highest(t, BestMove(t, bars)) * t.qty as real
  {
    hide Round2, Step, Progress, After, ExitOk, Lowest, Highest;
    ExitsBounded(t, bars);
    Accounting(t, bars);
    ExitsBetween(t, BestMove(t, bars), Final(t, bars).exits);
  }

  lemma {:induction false} ExitsBetween(t: Terms, best: real, xs: seq<Exit>)
    requires ExitsOk(t, best, xs)
    ensures Lowest(t) * SumQty(xs) as real <= SumGain(t, xs) <= Highest(t, best) * SumQty(xs) as real
  {
    hide Round2, Lowest, Highest, LayerMeans, Gain;
    SumBetween(t, xs, Lowest(t), Highest(t, best));
  }

  // ------------------------------------------------------- stop movement

  lemma {:induction false} StepTightens(t: Terms, s: Run, b: Bar)
    requires t.rUnit != 0.0
    ensures AtLeastAsTight(t.side, Step(t, s, b).stop, s.stop)
  {
    hide Round2, Progress;
  }

  /** The stop never loosens, from any bar to any later bar. */
  lemma {:induction false} StopOnlyTightens(t: Terms, bars: seq<Bar>, n: nat)
    requires t.rUnit != 0.0 && n <= |bars|
    ensures AtLeastAsTight(t.side, After(t, bars).stop, After(t, bars[..n]).stop)
  {
    hide Round2, Progress, Step;
    if n < |bars| {
      var prefix := bars[..|bars| - 1];
      assert prefix[..n] == bars[..n];
      StopOnlyTightens(t, prefix, n);
      StepTightens(t, After(t, prefix), bars[|bars| - 1]);
    } else {
      assert bars[..n] == bars;
    }
  }

  /** A runner past its scale-out has nowhere left to move its stop. */
  predicate Frozen(t: Terms, s: Run) {
    t.runnerHold && s.scaled && !s.closed ==>
      !s.basis.Initial? || !Tighter(t.side, Round2(t.entry), s.stop)
  }

  lemma {:induction false} StepFrozen(t: Terms, s: Run, b: Bar)
    requires t.rUnit != 0.0 && Frozen(t, s)
    ensures Frozen(t, Step(t, s, b))
    ensures t.runnerHold && s.scaled ==> Step(t, s, b).stop == s.stop && Step(t, s, b).scaled
  {
    hide Round2, Progress;
  }

  lemma {:induction false} AfterFrozen(t: Terms, bars: seq<Bar>)
    requires t.rUnit != 0.0
    ensures Frozen(t, After(t, bars))
  {
    hide Round2, Progress, Step;
    if bars != [] {
      AfterFrozen(t, bars[..|bars| - 1]);
      StepFrozen(t, After(t, bars[..|bars| - 1]), bars[|bars| - 1]);
    }
  }

  /** With runner_hold, the bar that scales out is the last to move the stop. */
  lemma {:induction false} RunnerHoldFreezes(t: Terms, bars: seq<Bar>, n: nat)
    requires t.rUnit != 0.0 && n <= |bars|
    requires t.runnerHold && After(t, bars[..n]).scaled
    ensures After(t, bars).stop == After(t, bars[..n]).stop && After(t, bars).scaled
  {
    hide Round2, Progress, Step;
    if n < |bars| {
      var prefix := bars[..|bars| - 1];
      assert prefix[..n] == bars[..n];
      RunnerHoldFreezes(t, prefix, n);
      AfterFrozen(t, prefix);
      StepFrozen(t, After(t, prefix), bars[|bars| - 1]);
    } else {
      assert bars[..n] == bars;
    }
  }

  // ------------------------------------------------------ shape of a run

  predicate LayersOk(s: Run) {
    && |s.exits| <= (if s.closed then 2 else 1)
    && (|s.exits| == 2 ==> s.exits[0].layer.TargetHit?)
    && (!s.closed && |s.exits| == 1 ==> s.scaled && s.exits[0].layer.TargetHit?)
    && (s.closed ==> |s.exits| > 0 && !s.exits[|s.exits| - 1].layer.TargetHit?)
  }

  lemma {:induction false} StepLayers(t: Terms, s: Run, b: Bar)
    requires t.rUnit != 0.0 && LayersOk(s)
    ensures LayersOk(Step(t, s, b))
  {
    hide Round2, Progress;
  }

  lemma {:induction false} AfterLayers(t: Terms, bars: seq<Bar>)
    requires t.rUnit != 0.0
    ensures LayersOk(After(t, bars))
  {
    hide Round2, Progress, Step;
    if bars != [] {
      AfterLayers(t, bars[..|bars| - 1]);
      StepLayers(t, After(t, bars[..|bars| - 1]), bars[|bars| - 1]);
    }
  }

  /** A position leaves in at most two pieces: perhaps a scale-out, then exactly
      one final exit. */
  lemma {:induction false} OneFinalExit(t: Terms, bars: seq<Bar>)
    requires t.rUnit != 0.0 && bars != [] && t.qty > 0
    ensures var xs := Final(t, bars).exits;
      && 1 <= |xs| <= 2
      && !xs[|xs| - 1].layer.TargetHit?
      && (|xs| == 2 ==> xs[0].layer.TargetHit?)
  {
    hide Round2, Progress, Step;
    AfterLayers(t, bars);
    AfterBalanced(t, bars);
    var s := After(t, bars);
    if s.qtyOpen == 0 && !s.closed {
      HalfLeaves(t, bars);
    }
  }

  predicate SomeLeft(s: Run) { !s.closed ==> s.qtyOpen > 0 }

  lemma {:induction false} StepSomeLeft(t: Terms, s: Run, b: Bar)
    requires t.rUnit != 0.0 && SomeLeft(s)
    ensures SomeLeft(Step(t, s, b))
  {
    hide Round2, Progress;
  }

  lemma {:induction false} HalfLeaves(t: Terms, bars: seq<Bar>)
    requires t.rUnit != 0.0 && t.qty > 0
    ensures SomeLeft(After(t, bars))
  {
    hide Round2, Progress, Step;
    if bars != [] {
      HalfLeaves(t, bars[..|bars| - 1]);
      StepSomeLeft(t, After(t, bars[..|bars| - 1]), bars[|bars| - 1]);
    }
  }

  // ------------------------------------------------------------ force-flat

  lemma {:induction false} FlatCloseSnoc(first: int, bars: seq<Bar>, b: Bar)
    ensures FlatClose(first, bars + [b])
         == if FlatClose(first, bars).Some? then FlatClose(first, bars)
            else if IsFlatBar(first, b) then Some(b.close)
            else None
  {
    if bars != [] {
      assert (bars + [b])[1..] == bars[1..] + [b];
      FlatCloseSnoc(first, bars[1..], b);
    } else {
      assert (bars + [b])[1..] == [];
    }
  }

  predicate FlatOk(s: Run, flat: Option<real>) {
    && (flat.Some? ==> s.closed)
    && forall e <- s.exits :: e.layer != EodMark && (e.layer.ForceFlat? ==> flat == Some(e.px))
  }

  lemma {:induction false} AfterFlat(t: Terms, bars: seq<Bar>)
    requires t.rUnit != 0.0
    ensures FlatOk(After(t, bars), FlatClose(First(t), bars))
  {
    hide Round2, Progress, Step;
    if bars != [] {
      var prefix, b := bars[..|bars| - 1], bars[|bars| - 1];
      AfterFlat(t, prefix);
      assert bars == prefix + [b];
      FlatCloseSnoc(First(t), prefix, b);
      StepFlatClose(t, After(t, prefix), b, FlatClose(First(t), prefix));
    }
  }

  lemma {:induction false} StepFlatClose(t: Terms, s: Run, b: Bar, flat: Option<real>)
    requires t.rUnit != 0.0 && FlatOk(s, flat)
    ensures FlatOk(Step(t, s, b), if flat.Some? then flat else if IsFlatBar(First(t), b) then Some(b.close) else None)
  {
    hide Round2, Progress;
  }

  /** No position outlives the force-flat bar, a FORCE_FLAT exit is priced at the
      benchmark close, and an end-of-day mark means there was no such bar. */
  lemma {:induction false} FlatExits(t: Terms, bars: seq<Bar>)
    requires t.rUnit != 0.0
    ensures FlatClose(First(t), bars).Some? ==> After(t, bars).closed && Final(t, bars) == After(t, bars)
    ensures forall e <- Final(t, bars).exits ::
      && (e.layer.ForceFlat? ==> FlatClose(First(t), bars) == Some(e.px))
      && (e.layer.EodMark? ==> FlatClose(First(t), bars) == None)
  {
    hide Round2, Progress, Step, After;
    AfterFlat(t, bars);
    AfterBalanced(t, bars);
  }

  // -------------------------------------------------- reaching breakeven

  /** Off the initial stop means at or beyond breakeven, when the trail arms at
      least one trail width above the entry. */
  predicate OffInitialIsSafe(t: Terms, s: Run) {
    !s.basis.Initial? ==> AtLeastAsTight(t.side, s.stop, Round2(t.entry))
  }

  lemma {:induction false} StepSafe(t: Terms, s: Run, b: Bar)
    requires t.rUnit > 0.0 && t.trailDist <= t.trailAt * t.rUnit && BarOk(b)
    requires OffInitialIsSafe(t, s)
    ensures OffInitialIsSafe(t, Step(t, s, b))
    ensures !t.runnerHold && !Skips(t, s, b) && !Step(t, s, b).closed && Progress(t, b.close) >= t.beR ==>
              AtLeastAsTight(t.side, Step(t, s, b).stop, Round2(t.entry))
  {
    hide Round2, Progress;
    var hwm := Best(t.side, s.hwm, WinEdge(t.side, b));
    if Progress(t, b.close) >= t.trailAt {
      TrailBeyondEntry(t, hwm, b.close);
    }
  }

  lemma {:induction false} AfterSafe(t: Terms, bars: seq<Bar>)
    requires t.rUnit > 0.0 && t.trailDist <= t.trailAt * t.rUnit && BarsOk(bars)
    ensures OffInitialIsSafe(t, After(t, bars))
  {
    hide Round2, Progress, Step;
    if bars != [] {
      AfterSafe(t, bars[..|bars| - 1]);
      StepSafe(t, After(t, bars[..|bars| - 1]), bars[|bars| - 1]);
    }
  }

  /** Once a bar the position survives closes at the breakeven threshold, the stop
      is at the entry price or better on every later bar. */
  lemma {:induction false} BreakevenReached(t: Terms, bars: seq<Bar>, k: nat)
    requires t.rUnit > 0.0 && t.trailDist <= t.trailAt * t.rUnit && BarsOk(bars)
    requires k < |bars| && !t.runnerHold
    requires bars[k].ts >= First(t) && !After(t, bars[..k + 1]).closed
    requires Progress(t, bars[k].close) >= t.beR
    ensures AtLeastAsTight(t.side, After(t, bars).stop, Round2(t.entry))
  {
    hide Round2, Progress, Step;
    var upto := bars[..k + 1];
    assert upto[..k] == bars[..k] && upto[k] == bars[k];
    LastStep(t, upto);
    if After(t, bars[..k]).closed { ClosedStays(t, upto, k); }
    AfterSafe(t, bars[..k]);
    StepSafe(t, After(t, bars[..k]), bars[k]);
    StopOnlyTightens(t, bars, k + 1);
  }
}
