/** Two ladders on the same bars: with and without the scale-out, and the time stop. */
module LadderPairs {
  import opened Rounding
  import opened Ladder
  import opened LadderFacts

  // ---------------------------------------------------------- scale-out

  /** The same position held whole (n) and with half sold at the target (s). */
  predicate Split(t: Terms, s: Run, n: Run) {
    var h := if s.scaled then t.qty / 2 else 0;
    && n == s.(qtyOpen := n.qtyOpen, pnl := n.pnl, exits := n.exits)
    && (if s.closed then s.qtyOpen == n.qtyOpen == 0 else n.qtyOpen == t.qty && s.qtyOpen == t.qty - h)
    && |n.exits| == (if s.closed then 1 else 0)
    && |s.exits| == |n.exits| + (if h > 0 then 1 else 0)
    && (h > 0 ==> t.target.Some? && s.exits[0].layer.TargetHit?
                  && s.exits[0].qty == h && s.exits[0].px == t.target.value)
    && (s.closed ==> n.exits[0].qty == t.qty && s.exits[|s.exits| - 1] == n.exits[0].(qty := t.qty - h))
  }

  lemma {:induction false} CloseOutSplit(t: Terms, tn: Terms, s: Run, n: Run, b: Bar, layer: Layer, px: real)
    requires tn == t.(scaleOut := false)
    requires Split(t, s, n) && !s.closed
    ensures Split(t, CloseOut(t, s, b, layer, px), CloseOut(tn, n, b, layer, px))
  {
    hide Gain;
  }

  lemma {:induction false} ScaleOutSplit(t: Terms, tn: Terms, s: Run, n: Run, b: Bar)
    requires t.scaleOut && tn == t.(scaleOut := false)
    requires Split(t, s, n) && !s.closed
    ensures Split(t, ScaleOut(t, s, b), ScaleOut(tn, n, b))
  {
    hide Gain;
  }

  lemma {:induction false} RatchetSplit(t: Terms, tn: Terms, s: Run, n: Run, b: Bar, prog: real)
    requires tn == t.(scaleOut := false)
    requires Split(t, s, n) && !s.closed
    ensures Split(t, Ratchet(t, s, b, prog), Ratchet(tn, n, b, prog))
  {
    hide Round2;
  }

  lemma {:induction false} StepSplit(t: Terms, tn: Terms, s: Run, n: Run, b: Bar)
    requires t.rUnit != 0.0 && t.scaleOut && tn == t.(scaleOut := false)
    requires Split(t, s, n)
    ensures Split(t, Step(t, s, b), Step(tn, n, b))
  {
    hide Round2, Ratchet, ScaleOut, CloseOut, Gain;
    if !Skips(t, s, b) {
      var s1, n1 := Entered(t, s, b), Entered(tn, n, b);
      assert Progress(tn, b.close) == Progress(t, b.close);
      assert Split(t, s1, n1);
      CloseOutSplit(t, tn, s1, n1, b, StopLayer(s1.basis), s1.stop);
      CloseOutSplit(t, tn, s1, n1, b, ForceFlat, b.close);
      CloseOutSplit(t, tn, s1, n1, b, TimeStop, b.close);
      ScaleOutSplit(t, tn, s1, n1, b);
      ScaleOutOpen(t, s1, b);
      RatchetSplit(t, tn, ScaleOut(t, s1, b), ScaleOut(tn, n1, b), b, Progress(t, b.close));
    }
  }

  lemma {:induction false} ScaleOutOpen(t: Terms, s: Run, b: Bar)
    ensures ScaleOut(t, s, b).closed == s.closed
  {
  }

  lemma {:induction false} AfterSplit(t: Terms, tn: Terms, bars: seq<Bar>)
    requires t.rUnit != 0.0 && t.scaleOut && tn == t.(scaleOut := false)
    ensures Split(t, After(t, bars), After(tn, bars))
  {
    hide Round2, Step;
    if bars != [] {
      var prefix := bars[..|bars| - 1];
      AfterSplit(t, tn, prefix);
      StepSplit(t, tn, After(t, prefix), After(tn, prefix), bars[|bars| - 1]);
    }
  }

  lemma {:induction false} SumGainShort(t: Terms, xs: seq<Exit>)
    requires |xs| <= 2
    ensures SumGain(t, xs) == (if |xs| > 0 then Gain(t.side, t.entry, xs[0].px) * xs[0].qty as real else 0.0)
                            + (if |xs| > 1 then Gain(t.side, t.entry, xs[1].px) * xs[1].qty as real else 0.0)
  {
    hide Gain;
    if |xs| == 2 {
      assert |xs[..1]| == 1 && xs[..1][0] == xs[0];
      SumGainShort(t, xs[..1]);
    } else if |xs| == 1 {
      assert xs[..0] == [];
    }
  }

  /** Scaling out changes nothing but the size of the last exit: same stops, same
      final bar, layer and price; and holding everything earns exactly
      half * (final gain - target gain) more once the target was reached. */
  lemma {:induction false} ScaleOutSeparable(t: Terms, tn: Terms, bars: seq<Bar>)
    requires t.rUnit != 0.0 && t.scaleOut && tn == t.(scaleOut := false)
    requires t.qty > 0 && bars != []
    ensures var s, n := Final(t, bars), Final(tn, bars);
      var h := if s.scaled then t.qty / 2 else 0;
      && s.stop == n.stop && s.scaled == n.scaled
      && |n.exits| == 1 && |s.exits| == (if h > 0 then 2 else 1)
      && n.exits[0] == s.exits[|s.exits| - 1].(qty := t.qty)
      && (h > 0 ==> t.target.Some? && s.exits[0].qty == h && s.exits[0].px == t.target.value)
      && n.pnl - s.pnl == (if h == 0 then 0.0 else
           h as real * (Gain(t.side, t.entry, n.exits[0].px) - Gain(t.side, t.entry, t.target.value)))
  {
    hide Round2, After, Gain;
    AfterSplit(t, tn, bars);
    Accounting(t, bars);
    Accounting(tn, bars);
    SumGainShort(t, Final(t, bars).exits);
    SumGainShort(tn, Final(tn, bars).exits);
  }

  // ---------------------------------------------------------- time stop

  predicate NoTimeExit(s: Run) { forall e <- s.exits :: e.layer != TimeStop }

  lemma {:induction false} StepNoTime(t: Terms, tn: Terms, s: Run, b: Bar)
    requires t.rUnit != 0.0 && t.timeStop && tn == t.(timeStop := false)
    ensures NoTimeExit(Step(t, s, b)) ==> NoTimeExit(s) && Step(tn, s, b) == Step(t, s, b)
  {
    hide Round2, Gain, Ratchet, ScaleOut;
    assert forall px :: Progress(tn, px) == Progress(t, px);
    var s1 := Entered(t, s, b);
    var prog := Progress(t, b.close);
    RatchetNoTime(t, tn, s1, b, prog);
    if !Skips(t, s, b) {
      assert NoTimeExit(Step(t, s, b)) ==> NoTimeExit(s) by {
        assert s.exits <= Step(t, s, b).exits;
      }
    }
  }

  lemma {:induction false} RatchetNoTime(t: Terms, tn: Terms, s: Run, b: Bar, prog: real)
    requires tn == t.(timeStop := false)
    ensures Ratchet(t, ScaleOut(t, s, b), b, prog) == Ratchet(tn, ScaleOut(tn, s, b), b, prog)
    ensures s.exits <= Ratchet(t, ScaleOut(t, s, b), b, prog).exits
  {
    hide Round2, Gain;
  }

  /** Without a TIME exit the time stop made no difference. */
  lemma {:induction false} NoTimeAgrees(t: Terms, tn: Terms, bars: seq<Bar>)
    requires t.rUnit != 0.0 && t.timeStop && tn == t.(timeStop := false)
    requires NoTimeExit(After(t, bars))
    ensures After(tn, bars) == After(t, bars)
  {
    hide Round2, Step;
    if bars != [] {
      var prefix := bars[..|bars| - 1];
      StepNoTime(t, tn, After(t, prefix), bars[|bars| - 1]);
      NoTimeAgrees(t, tn, prefix);
    }
  }

  // -------------------------------------------------------- runner_hold

  /** Where a runner_hold ladder r stands beside the base ladder b. */
  predicate HoldsBeside(t: Terms, b: Run, r: Run) {
    && (!b.scaled ==> r == b)
    && (!b.closed && !r.closed ==>
          && r == b.(stop := r.stop, basis := r.basis)
          && (b.basis.Initial? ==> b.stop == Stop0(t) && (r == b || (r.basis.Breakeven? && r.stop == Round2(t.entry))))
          && (!b.basis.Initial? ==>
                AtLeastAsTight(t.side, b.stop, r.stop) && AtLeastAsTight(t.side, b.stop, Round2(t.entry))))
    && (r.closed && !b.closed ==>
          && b.scaled && r.exits != []
          && r.exits[|r.exits| - 1].layer.BreakevenHit? && r.exits[|r.exits| - 1].px == Round2(t.entry))
  }

  lemma {:induction false} RatchetBeside(t: Terms, tr: Terms, b: Run, r: Run, bar: Bar)
    requires t.rUnit > 0.0 && t.trailDist <= t.trailAt * t.rUnit && !t.runnerHold && tr == t.(runnerHold := true)
    requires BarOk(bar) && !b.closed && !r.closed && r == b.(stop := r.stop, basis := r.basis)
    requires b.basis.Initial? ==> b.stop == Stop0(t) && (r == b || (r.basis.Breakeven? && r.stop == Round2(t.entry)))
    requires !b.basis.Initial? ==>
      AtLeastAsTight(t.side, b.stop, r.stop) && AtLeastAsTight(t.side, b.stop, Round2(t.entry))
    requires !b.scaled ==> r == b
    ensures var prog := Progress(t, bar.close);
      HoldsBeside(t, Ratchet(t, b, bar, prog), Ratchet(tr, r, bar, prog))
  {
    hide Round2, Progress;
    if Progress(t, bar.close) >= t.trailAt {
      TrailBeyondEntry(t, Best(t.side, b.hwm, WinEdge(t.side, bar)), bar.close);
    }
  }

  lemma {:induction false} StepBeside(t: Terms, tr: Terms, b: Run, r: Run, bar: Bar)
    requires t.rUnit > 0.0 && t.trailDist <= t.trailAt * t.rUnit && !t.runnerHold && tr == t.(runnerHold := true)
    requires BarOk(bar) && HoldsBeside(t, b, r)
    ensures HoldsBeside(t, Step(t, b, bar), Step(tr, r, bar))
  {
    hide Round2, Ratchet, Stop0, Gain;
    assert forall px :: Progress(t, px) == Progress(tr, px);
    if !Skips(t, b, bar) && !b.closed && !r.closed {
      var b1, r1 := ScaleOut(t, Entered(t, b, bar), bar), ScaleOut(tr, Entered(tr, r, bar), bar);
      assert r1 == b1.(stop := r1.stop, basis := r1.basis);
      RatchetBeside(t, tr, b1, r1, bar);
      RatchetKeepsScaled(t, b1, bar, Progress(t, bar.close));
    } else if !Skips(t, b, bar) && !b.closed {
      RatchetKeepsScaled(t, ScaleOut(t, Entered(t, b, bar), bar), bar, Progress(t, bar.close));
    }
  }

  lemma {:induction false} RatchetKeepsScaled(t: Terms, s: Run, b: Bar, prog: real)
    ensures var r := Ratchet(t, s, b, prog); r.scaled == s.scaled && r.closed == s.closed
  {
    hide Round2;
  }

  /** When the trail starts at or beyond breakeven, runner_hold and base are one ladder until
      the scale-out, and the runner closes first only on a BREAKEVEN exit at the entry price. */
  lemma {:induction false} RunnerClosesFirstAtBreakeven(t: Terms, tr: Terms, bars: seq<Bar>)
    requires t.rUnit > 0.0 && t.trailDist <= t.trailAt * t.rUnit && !t.runnerHold && tr == t.(runnerHold := true)
    requires BarsOk(bars)
    ensures HoldsBeside(t, After(t, bars), After(tr, bars))
  {
    hide Round2, Step;
    if bars != [] {
      hide HoldsBeside;
      RunnerClosesFirstAtBreakeven(t, tr, bars[..|bars| - 1]);
      StepBeside(t, tr, After(t, bars[..|bars| - 1]), After(tr, bars[..|bars| - 1]), bars[|bars| - 1]);
    }
  }
}
