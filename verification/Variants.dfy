/** What the ladder theorems say about the seven variants and both sides of a
    trade, in the parameters the callers pass. */
module Variants {
  import opened Direction
  import opened Rounding
  import opened Ladder
  import opened LadderFacts
  import opened LadderPairs
  import opened LadderTrails
  import opened LadderMirror
  import opened Replay

  predicate TradeOk(d: Trade) { d.atr > 0.0 && d.entryPx * d.mag >= 0.0 }

  lemma {:induction false} ScalpTarget(side: Side, entryPx: real, mag: real)
    requires entryPx * mag >= 0.0
    ensures Gain(side, entryPx, TargetPrice(side, entryPx, mag)) >= -0.00005
  {
    hide Round4;
    var x := UnroundedTarget(side, entryPx, mag);
    assert x == entryPx + M(side, TF * (entryPx * mag));
    Round4Near(x);
  }

  lemma {:induction false} VariantTermsOk(v: Variant, d: Trade)
    requires TradeOk(d)
    ensures TermsOk(VariantTerms(v, d))
  {
    hide TargetPrice;
    ScalpTarget(d.side, d.entryPx, d.mag);
  }

  lemma {:induction false} UnroundedIs(side: Side, px: real, mag: real)
    ensures UnroundedTarget(side, px, mag) == if side.Long? then px + 0.6 * (px * mag) else px - 0.6 * (px * mag)
  {
    assert px * (TF * mag) == TF * (px * mag);
    assert px * (1.0 + TF * mag) == px + px * (TF * mag);
    assert px * (1.0 - TF * mag) == px - px * (TF * mag);
  }

  lemma {:induction false} TargetNear(side: Side, px: real, mag: real, move: real)
    requires move == 0.6 * (px * mag)
    ensures -0.00005 <= TargetPrice(side, px, mag) - (if side.Long? then px + move else px - move) <= 0.00005
  {
    UnroundedIs(side, px, mag);
    Round4Near(UnroundedTarget(side, px, mag));
    hide Round4, UnroundedTarget;
  }

  /** The terms of a variant in the trade's own numbers: the stop two ATR away, three for
      stop3.0; the target six tenths of the predicted move, to a hundredth of a cent; the trail
      1.5 ATR wide, or 2.5 or 3.0. */
  lemma {:induction false} VariantTermsAre(v: Variant, d: Trade)
    ensures var t := VariantTerms(v, d);
      && t.side == d.side && t.entryTs == d.entryTs && t.entry == d.entryPx && t.qty == d.qty && t.trails
      && t.rUnit == (if v == Stop3 then 3.0 * d.atr else 2.0 * d.atr)
      && t.trailDist == (if v == Trail25 then 2.5 * d.atr else if v == Trail3 then 3.0 * d.atr else 1.5 * d.atr)
      && t.trailAt == 1.0 && t.beR == 0.75
      && (t.timeStop <==> v != NoTime) && (t.scaleOut <==> v != NoScale) && (t.runnerHold <==> v == RunnerHold)
    ensures var t, move := VariantTerms(v, d), 0.6 * (d.entryPx * d.mag);
      t.target.Some? && -0.00005 <= t.target.value - (if d.side.Long? then d.entryPx + move else d.entryPx - move) <= 0.00005
  {
    hide TargetPrice;
    TargetNear(d.side, d.entryPx, d.mag, 0.6 * (d.entryPx * d.mag));
  }

  /** The catalyst ladder's: the stop a share of the entry price away, no target, no time stop;
      without an ATR it never trails. */
  lemma {:induction false} HoldTermsAre(side: Side, entryTs: int, entryPx: real, qty: nat, stopPct: real, atr: real,
                                        trailK: real, trailAtR: real, beR: real)
    ensures var t := HoldTerms(side, entryTs, entryPx, qty, stopPct, atr, trailK, trailAtR, beR);
      && t.side == side && t.entryTs == entryTs && t.entry == entryPx && t.qty == qty && t.target.None?
      && t.rUnit == entryPx * stopPct && t.trailDist == atr * trailK && (t.trails <==> atr != 0.0)
      && t.trailAt == trailAtR && t.beR == beR && !t.timeStop && !t.runnerHold
  {
  }

  lemma {:induction false} SameSummary(t: Terms, tn: Terms, bars: seq<Bar>)
    requires t.rUnit != 0.0 && tn == t.(timeStop := false) && After(tn, bars) == After(t, bars)
    ensures Summary(tn, bars, true) == Summary(t, bars, true)
  {
    hide Round2, Round3, Round4, After, RMultiple, Gain;
    assert First(tn) == First(t);
    assert Final(tn, bars) == Final(t, bars);
    assert forall px :: Progress(tn, px) == Progress(t, px);
  }

  /** Both wide-trail variants outlast the base ladder. Removing the time stop only matters
      when the base ladder timed out, and holding the runner is the same ladder until the
      scale-out. */
  lemma {:induction false} VariantsCompared(d: Trade, bars: seq<Bar>)
    requires d.atr > 0.0 && BarsOk(bars)
    ensures Outlasts(VariantTerms(Base, d), After(VariantTerms(Base, d), bars), After(VariantTerms(Trail25, d), bars))
    ensures Outlasts(VariantTerms(Base, d), After(VariantTerms(Base, d), bars), After(VariantTerms(Trail3, d), bars))
    ensures NoTimeExit(After(VariantTerms(Base, d), bars)) ==>
              Summary(VariantTerms(NoTime, d), bars, true) == Summary(VariantTerms(Base, d), bars, true)
    ensures HoldsBeside(VariantTerms(Base, d), After(VariantTerms(Base, d), bars), After(VariantTerms(RunnerHold, d), bars))
  {
    hide Round2, TargetPrice, After, Outlasts, NoTimeExit, Blocks, HoldsBeside;
    var base, trail25, trail3 := VariantTerms(Base, d), VariantTerms(Trail25, d), VariantTerms(Trail3, d);
    assert base.rUnit == 2.0 * d.atr && base.trailDist == 1.5 * d.atr;
    assert trail25.trailDist == 2.5 * d.atr && trail3.trailDist == 3.0 * d.atr;
    TrailFits(base, trail25);
    WiderTrailOutlasts(base, trail25, bars);
    TrailFits(base, trail3);
    WiderTrailOutlasts(base, trail3, bars);
    if NoTimeExit(After(base, bars)) {
      NoTimeAgrees(base, VariantTerms(NoTime, d), bars);
      SameSummary(base, VariantTerms(NoTime, d), bars);
    }
    RunnerClosesFirstAtBreakeven(base, VariantTerms(RunnerHold, d), bars);
  }

  // ------------------------------------------------- trail3.0 and trail2.5

  /** The entry lies on a half cent that rounds to the winning side. */
  predicate RoundsInFavour(d: Trade) { Gain(d.side, d.entryPx, Round2(d.entryPx)) == HALF_CENT }

  lemma {:induction false} TwoCents(x: real, y: real)
    requires Round2(y) > Round2(x) + CENT
    ensures Round2(y) >= Round2(x) + 2.0 * CENT
  {
    var k, l := RoundEven(x * 100.0), RoundEven(y * 100.0);
    hide RoundEven;
    assert l as real > k as real + 1.0;
    assert l >= k + 2;
    assert l as real >= (k + 2) as real;
  }

  /** The cents around a tie that rounds up, and around one that rounds down. */
  lemma {:induction false} AboutTie(y: real)
    ensures RoundEven(y) as real == y + 0.5 ==>
      RoundEven(y - 0.5) == RoundEven(y) - 1 && RoundEven(y - 1.0) == RoundEven(y - 2.0) == RoundEven(y) - 2
    ensures RoundEven(y) as real == y - 0.5 ==>
      RoundEven(y + 0.5) == RoundEven(y) + 1 && RoundEven(y + 1.0) == RoundEven(y + 2.0) == RoundEven(y) + 2
  {
    var f := y.Floor;
    assert (y - 1.0).Floor == f - 1 && (y - 2.0).Floor == f - 2;
    assert (y + 1.0).Floor == f + 1 && (y + 2.0).Floor == f + 2;
    if RoundEven(y) as real == y + 0.5 {
      assert y - 0.5 == f as real;
    }
    if RoundEven(y) as real == y - 0.5 {
      assert y + 0.5 == (f + 1) as real;
    }
  }

  /** Breakeven, the two trails where they arm, and the initial stop. */
  predicate StopsCross(side: Side, e: real, a: real) {
    var narrow, wide := Round2(Away(side, e, 0.5 * a)), Round2(Away(side, e, a));
    var stop := Round2(Away(side, e, 2.0 * a));
    if Tighter(side, narrow, stop) then Tighter(side, Round2(e), narrow) && !Tighter(side, wide, stop)
    else Tighter(side, Round2(e), Away(side, stop, -CENT))
  }

  lemma {:induction false} CrossingIsTie(side: Side, e: real, a: real)
    requires a > 0.0 && StopsCross(side, e, a)
    ensures a == CENT && Gain(side, e, Round2(e)) == HALF_CENT
  {
    var n, w, s := Away(side, e, 0.5 * a), Away(side, e, a), Away(side, e, 2.0 * a);
    hide RoundEven;
    Round2Near(e);
    Round2Near(n);
    Round2Near(w);
    Round2Near(s);
    if side.Long? {
      Round2Monotone(s, w);
      Round2Monotone(s, n);
      if Tighter(side, Round2(n), Round2(s)) {
        CentApart(s, n);
        CentApart(n, e);
      } else {
        TwoCents(s, e);
      }
    } else {
      Round2Monotone(w, s);
      Round2Monotone(n, s);
      if Tighter(side, Round2(n), Round2(s)) {
        CentApart(n, s);
        CentApart(e, n);
      } else {
        TwoCents(e, s);
      }
    }
  }

  lemma {:induction false} TieCrosses(side: Side, e: real)
    requires Gain(side, e, Round2(e)) == HALF_CENT
    ensures StopsCross(side, e, CENT)
  {
    AboutTie(e * 100.0);
    var n, w, s := Away(side, e, 0.5 * CENT), Away(side, e, CENT), Away(side, e, 2.0 * CENT);
    if side.Long? {
      assert n * 100.0 == e * 100.0 - 0.5 && w * 100.0 == e * 100.0 - 1.0 && s * 100.0 == e * 100.0 - 2.0;
    } else {
      assert n * 100.0 == e * 100.0 + 0.5 && w * 100.0 == e * 100.0 + 1.0 && s * 100.0 == e * 100.0 + 2.0;
    }
    hide RoundEven;
  }

  lemma {:induction false} BlockIsCrossing(d: Trade)
    requires d.atr > 0.0
    ensures Blocks(VariantTerms(Trail25, d), VariantTerms(Trail3, d)) <==> StopsCross(d.side, d.entryPx, d.atr)
  {
    hide Round2, TargetPrice;
    var ta, tb := VariantTerms(Trail25, d), VariantTerms(Trail3, d);
    var arm := ArmPrice(ta);
    assert Away(d.side, arm, ta.trailDist) == Away(d.side, d.entryPx, 0.5 * d.atr);
    assert Away(d.side, arm, tb.trailDist) == Away(d.side, d.entryPx, d.atr);
    assert Away(d.side, ta.entry, ta.rUnit) == Away(d.side, d.entryPx, 2.0 * d.atr);
    assert Gain(d.side, d.entryPx, arm) == ta.trailAt * ta.rUnit;
  }

  /** Exactly when trail3.0 outlasts trail2.5 on all bars, and when it never closes first:
      unless the ATR is just one cent and the entry a half cent that rounds to the winning
      side. */
  lemma {:induction false} Trail3OutlastsIff(d: Trade)
    requires d.atr > 0.0
    ensures var ta, tb := VariantTerms(Trail25, d), VariantTerms(Trail3, d);
      var ties := d.atr == CENT && RoundsInFavour(d);
      && (!ties <==> forall bars :: BarsOk(bars) ==> Outlasts(ta, After(ta, bars), After(tb, bars)))
      && (!ties <==> forall bars :: BarsOk(bars) ==> (After(tb, bars).closed ==> After(ta, bars).closed))
  {
    var ta, tb := VariantTerms(Trail25, d), VariantTerms(Trail3, d);
    BlockIsCrossing(d);
    if StopsCross(d.side, d.entryPx, d.atr) {
      CrossingIsTie(d.side, d.entryPx, d.atr);
    } else if d.atr == CENT && RoundsInFavour(d) {
      TieCrosses(d.side, d.entryPx);
    }
    hide Round2, TargetPrice, After, Blocks, StopsCross, Outlasts;
    SameTermsOutlastIff(ta, tb);
  }

  /** Such an entry: bought at 100.015, which rounds to 100.02, on an ATR of one cent. */
  lemma {:induction false} HalfCentEntry(entryTs: int, qty: nat, mag: real)
    ensures var d := Trade(Long, entryTs, 100.015, qty, CENT, mag);
      RoundsInFavour(d) && !forall bars :: BarsOk(bars) ==>
        (After(VariantTerms(Trail3, d), bars).closed ==> After(VariantTerms(Trail25, d), bars).closed)
  {
    var d := Trade(Long, entryTs, 100.015, qty, CENT, mag);
    assert d.entryPx * 100.0 == 10001.5;
    assert RoundsInFavour(d);
    hide VariantTerms, After, RoundsInFavour, BarsOk;
    Trail3OutlastsIff(d);
  }

  /** base and noscale: one final exit each, on the same bar, layer and price, and P&L that
      differs by half the shares times the final gain less the target's, once the target
      was reached. */
  lemma {:induction false} NoScaleCompared(d: Trade, bars: seq<Bar>)
    requires d.atr != 0.0 && d.qty > 0 && bars != []
    ensures var t := VariantTerms(Base, d);
      var s, n := Final(t, bars), Final(VariantTerms(NoScale, d), bars);
      var h := if s.scaled then d.qty / 2 else 0;
      && s.stop == n.stop && |n.exits| == 1 && |s.exits| == (if h > 0 then 2 else 1)
      && n.exits[0] == s.exits[|s.exits| - 1].(qty := d.qty)
      && n.pnl - s.pnl == if h == 0 then 0.0 else
           h as real * (Gain(d.side, d.entryPx, n.exits[0].px)
                        - Gain(d.side, d.entryPx, TargetPrice(d.side, d.entryPx, d.mag)))
  {
    hide Round2, TargetPrice, Final, Gain;
    ScaleOutSeparable(VariantTerms(Base, d), VariantTerms(NoScale, d), bars);
  }

  /** A trailing exit of any scalp variant realises at least (stop_k - trail_k)
      ATR per share, to half a cent; on the base ladder that is half an ATR. */
  lemma {:induction false} TrailLocksIn(v: Variant, d: Trade, bars: seq<Bar>)
    requires TradeOk(d) && BarsOk(bars)
    ensures forall e <- Final(VariantTerms(v, d), bars).exits :: e.layer.TrailHit? ==>
              Gain(d.side, d.entryPx, e.px) >= VariantTerms(v, d).rUnit - VariantTerms(v, d).trailDist - HALF_CENT
    ensures v.Base? ==> VariantTerms(v, d).rUnit - VariantTerms(v, d).trailDist == 0.5 * d.atr
  {
    hide Round2, TargetPrice, After;
    var t := VariantTerms(v, d);
    VariantTermsOk(v, d);
    AfterSound(t, bars);
    assert t.trailAt * t.rUnit == t.rUnit;
    forall e | e in After(t, bars).exits ensures LayerMeans(t, e) {
      assert ExitOk(t, BestMove(t, bars), e);
    }
  }

  // ------------------------------------------------------ short is mirrored

  lemma {:induction false} MirroredTarget(entryPx: real, mag: real)
    requires OnCentGrid(entryPx)
    ensures TargetPrice(Short, entryPx, mag) == Reflect(entryPx, TargetPrice(Long, entryPx, mag))
  {
    hide Round2, Round4, UnroundedTarget;
    RoundReflect(entryPx, UnroundedTarget(Long, entryPx, mag));
    MirroredMove(entryPx, mag);
  }

  lemma {:induction false} MirroredMove(entryPx: real, mag: real)
    ensures UnroundedTarget(Short, entryPx, mag) == 2.0 * entryPx - UnroundedTarget(Long, entryPx, mag)
  {
  }

  lemma {:induction false} ScalpMirror(v: Variant, d: Trade)
    requires OnCentGrid(d.entryPx) && d.side.Long?
    ensures VariantTerms(v, d.(side := Short)) == MirrorTerms(VariantTerms(v, d))
  {
    hide TargetPrice;
    MirroredTarget(d.entryPx, d.mag);
  }

  /** Entered at a whole-cent price, shorting reflected bars reports what the long
      reports on the original bars: every figure, time, layer and quantity. */
  lemma {:induction false} ShortReplaysAsLong(v: Variant, d: Trade, bars: seq<Bar>)
    requires OnCentGrid(d.entryPx) && d.side.Long? && d.atr != 0.0
    ensures var long := Summary(VariantTerms(v, d), bars, true);
      var short := Summary(VariantTerms(v, d.(side := Short)), MirrorBars(d.entryPx, bars), true);
      && short.pnl == long.pnl && short.r == long.r && short.mfeR == long.mfeR && short.closeR == long.closeR
      && short.exits == MirrorExits(d.entryPx, long.exits)
  {
    hide Summary, VariantTerms, MirrorBars;
    ScalpMirror(v, d);
    VariantEntry(v, d);
    MirrorReport(VariantTerms(v, d), bars, true);
  }

  lemma {:induction false} VariantEntry(v: Variant, d: Trade)
    requires d.atr != 0.0
    ensures VariantTerms(v, d).rUnit != 0.0 && VariantTerms(v, d).entry == d.entryPx
    ensures VariantTerms(v, d.(side := Short)).rUnit != 0.0
  {
  }

  lemma {:induction false} ShortHoldsAsLong(entryTs: int, entryPx: real, qty: nat, stopPct: real, atr: real,
                                            trailK: real, trailAtR: real, beR: real, bars: seq<Bar>)
    requires OnCentGrid(entryPx) && stopPct * entryPx != 0.0
    ensures var long := Summary(HoldTerms(Long, entryTs, entryPx, qty, stopPct, atr, trailK, trailAtR, beR), bars, false);
      var short := Summary(HoldTerms(Short, entryTs, entryPx, qty, stopPct, atr, trailK, trailAtR, beR),
                           MirrorBars(entryPx, bars), false);
      && short.pnl == long.pnl && short.r == long.r && short.mfeR == long.mfeR && short.closeR == long.closeR
      && short.exits == MirrorExits(entryPx, long.exits)
  {
    hide Summary, MirrorBars, Round2;
    var t := HoldTerms(Long, entryTs, entryPx, qty, stopPct, atr, trailK, trailAtR, beR);
    assert HoldTerms(Short, entryTs, entryPx, qty, stopPct, atr, trailK, trailAtR, beR) == MirrorTerms(t);
    MirrorReport(t, bars, false);
  }
}
