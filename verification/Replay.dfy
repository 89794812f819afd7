/** The two replay loops of ops/tools/scalp_replay.py, bar by bar, and the seven
    variants run on one trade. Both loops compute the ladder of module Ladder. */
module Replay {
  import opened Direction
  import opened Options
  import opened Rounding
  import opened Ladder
  import opened LadderFacts
  import opened Numbers

  const TF := 0.6
  const BE_R := 0.75
  const TRAIL_K := 1.5
  const TRAIL_AT := 1.0

  /** `m * x` with m = +1 for LONG and -1 for SHORT. */
  function M(side: Side, x: real): real { if side.Long? then x else -x }

  /** The scale-out price: a fraction of the predicted move. */
  function TargetPrice(side: Side, entryPx: real, mag: real): real {
    Round4(UnroundedTarget(side, entryPx, mag))
  }

  function UnroundedTarget(side: Side, entryPx: real, mag: real): real {
    entryPx * (1.0 + M(side, TF * mag))
  }

  function ScalpTerms(side: Side, entryTs: int, entryPx: real, qty: nat, atr: real, mag: real, stopK: real,
                      trailK: real, timeStop: bool, scaleOut: bool, runnerHold: bool): Terms {
    Terms(side, entryTs, entryPx, qty, stopK * atr,
          Some(TargetPrice(side, entryPx, mag)),
          trailK * atr, true, TRAIL_AT, BE_R, timeStop, scaleOut, runnerHold)
  }

  function HoldTerms(side: Side, entryTs: int, entryPx: real, qty: nat, stopPct: real, atr: real,
                     trailK: real, trailAtR: real, beR: real): Terms {
    Terms(side, entryTs, entryPx, qty, stopPct * entryPx, None,
          trailK * atr, atr != 0.0, trailAtR, beR, false, true, false)
  }

  lemma {:induction false} NoBars(t: Terms, bars: seq<Bar>)
    requires t.rUnit != 0.0
    ensures After(t, bars[..0]) == Start(t)
  {
  }

  lemma {:induction false} NextBar(t: Terms, bars: seq<Bar>, i: nat)
    requires t.rUnit != 0.0 && i < |bars|
    ensures After(t, bars[..i + 1]) == Step(t, After(t, bars[..i]), bars[i])
  {
    hide Step;
    assert bars[..i + 1][..i] == bars[..i];
  }

  lemma {:induction false} SignedMove(t: Terms, px: real)
    requires t.rUnit != 0.0
    ensures M(t.side, px - t.entry) == Gain(t.side, t.entry, px)
    ensures M(t.side, px - t.entry) / t.rUnit == Progress(t, px)
  {
  }

  /** The five ways through one bar. */
  lemma {:induction false} StepCases(t: Terms, s: Run, b: Bar)
    requires t.rUnit != 0.0
    ensures Skips(t, s, b) ==> Step(t, s, b) == s
    ensures !Skips(t, s, b) ==>
      var e := Entered(t, s, b);
      var prog := Progress(t, b.close);
      if Through(t.side, LoseEdge(t.side, b), s.stop) then
        Step(t, s, b) == CloseOut(t, e, b, StopLayer(s.basis), s.stop)
      else if Minute(b.ts) >= FORCE_FLAT then
        Step(t, s, b) == CloseOut(t, e, b, ForceFlat, b.close)
      else if t.timeStop && b.ts - t.entryTs >= TIME_WIN * MINUTE && prog < TIME_MIN_R then
        Step(t, s, b) == CloseOut(t, e, b, TimeStop, b.close)
      else
        Step(t, s, b) == Ratchet(t, ScaleOut(t, e, b), b, prog)
  {
    hide Round2, Ratchet, ScaleOut, CloseOut, Gain;
  }

  /** The end of a scalp bar: the high-water mark, then the tighten-only stop. */
  method RaiseStop(ghost t: Terms, ghost s: Run, ghost b: Bar, side: Side, entryPx: real, prog: real, win: real,
                   trailDist: real, runnerHold: bool, scaled: bool, hwm0: real, stop0: real, basis0: Basis)
    returns (hwm: real, stop: real, basis: Basis)
    requires t.side == side && t.entry == entryPx && t.trailDist == trailDist && t.runnerHold == runnerHold
    requires t.trails && t.trailAt == TRAIL_AT && t.beR == BE_R && win == WinEdge(side, b)
    requires s.hwm == hwm0 && s.stop == stop0 && s.basis == basis0 && s.scaled == scaled
    ensures Ratchet(t, s, b, prog) == s.(hwm := hwm, stop := stop, basis := basis)
  {
    hide Round2;
    hwm, stop, basis := Best(side, hwm0, win), stop0, basis0;
    var proposed: Option<(real, Basis)> := None;
    if runnerHold && scaled {
      if basis == Initial {
        proposed := Some((Round2(entryPx), Breakeven));
      }
    } else if prog >= TRAIL_AT {
      proposed := Some((Round2(hwm - M(side, trailDist)), Trail));
    } else if prog >= BE_R && basis == Initial {
      proposed := Some((Round2(entryPx), Breakeven));
    }
    if proposed.Some? && Tighter(side, proposed.value.0, stop) {
      stop, basis := proposed.value.0, proposed.value.1;
    }
  }

  /** A zero risk unit: the first bar at or after the entry minute divides by it. */
  method ReplayWithoutRisk(t: Terms, bars: seq<Bar>, showStop: bool) returns (rep: Option<Report>)
    requires t.rUnit == 0.0
    ensures rep == Result(t, bars, showStop)
  {
    hide Round2, Round3, Round4, Idle;
    for i := 0 to |bars|
      invariant forall k :: 0 <= k < i ==> bars[k].ts < First(t)
    {
      if bars[i].ts >= First(t) {
        return None;
      }
    }
    return Some(Idle(t, bars, showStop));
  }

  /** The scalp ladder. */
  method Replay(bars: seq<Bar>, side: Side, entryTs: int, entryPx: real, qty: nat, atr: real, mag: real,
                stopK: real, trailK: real := TRAIL_K, timeStop: bool := true, scaleOut: bool := true,
                runnerHold: bool := false)
    returns (rep: Option<Report>)
    ensures rep == Result(ScalpTerms(side, entryTs, entryPx, qty, atr, mag, stopK,
                                     trailK, timeStop, scaleOut, runnerHold), bars, true)
  {
    hide Round2, Round3, Round4, Summary, Idle, TargetPrice;
    var rUnit := stopK * atr;
    if rUnit == 0.0 {
      rep := ReplayWithoutRisk(ScalpTerms(side, entryTs, entryPx, qty, atr, mag, stopK, trailK, timeStop, scaleOut,
                                          runnerHold), bars, true);
      return;
    }
    var report := ReplayBars(bars, side, entryTs, entryPx, qty, rUnit,
                      Round2(entryPx - M(side, rUnit)),
                      TargetPrice(side, entryPx, mag),
                      trailK * atr, timeStop, scaleOut, runnerHold,
                      ScalpTerms(side, entryTs, entryPx, qty, atr, mag, stopK, trailK, timeStop, scaleOut, runnerHold));
    rep := Some(report);
  }

  method ReplayBars(bars: seq<Bar>, side: Side, entryTs: int, entryPx: real, qty: nat, rUnit: real, stop0: real,
                    target: real, trailDist: real, timeStop: bool, scaleOut: bool, runnerHold: bool,
                    ghost t: Terms)
    returns (rep: Report)
    requires t == Terms(side, entryTs, entryPx, qty, rUnit, Some(target), trailDist, true, TRAIL_AT, BE_R,
                        timeStop, scaleOut, runnerHold)
    requires rUnit != 0.0 && stop0 == Stop0(t)
    ensures rep == Summary(t, bars, true)
  {
    hide Round2, Round3, Round4, After, Step, Ratchet, Summary, Idle, Result, Reached, Through, LoseEdge, WinEdge, Gain, Progress, Max, M, Minute, StopLayer;
    var stop := stop0;
    var hwm, basis, qtyOpen, scaled, pnl, exits := entryPx, Initial, qty, false, 0.0, [];
    var mfe := 0.0;
    var first := entryTs - entryTs % MINUTE;
    ghost var closed := false;
    NoBars(t, bars);
    var i := 0;
    while i < |bars|
      invariant 0 <= i <= |bars| && !closed
      invariant Run(stop, basis, hwm, mfe, qtyOpen, scaled, closed, pnl, exits) == After(t, bars[..i])
    {
      var b := bars[i];
      NextBar(t, bars, i);
      StepCases(t, After(t, bars[..i]), b);
      SignedMove(t, stop);
      SignedMove(t, b.close);
      SignedMove(t, target);
      SignedMove(t, WinEdge(side, b));
      i := i + 1;
      if b.ts < first { continue; }
      var minute := Minute(b.ts);
      var lose, win := LoseEdge(side, b), WinEdge(side, b);
      mfe := Max(mfe, M(side, win - entryPx) / rUnit);
      ghost var entered := Entered(t, After(t, bars[..i - 1]), b);
      assert Run(stop, basis, hwm, mfe, qtyOpen, scaled, closed, pnl, exits) == entered;
      if Through(side, lose, stop) {
        var layer := StopLayer(basis);
        pnl := pnl + M(side, stop - entryPx) * qtyOpen as real;
        exits := exits + [Exit(minute, layer, qtyOpen, stop)];
        qtyOpen, closed := 0, true;
        break;
      }
      var prog := M(side, b.close - entryPx) / rUnit;
      if minute >= FORCE_FLAT {
        pnl := pnl + M(side, b.close - entryPx) * qtyOpen as real;
        exits := exits + [Exit(minute, ForceFlat, qtyOpen, b.close)];
        qtyOpen, closed := 0, true;
        break;
      }
      if timeStop && b.ts - entryTs >= TIME_WIN * MINUTE && prog < TIME_MIN_R {
        pnl := pnl + M(side, b.close - entryPx) * qtyOpen as real;
        exits := exits + [Exit(minute, TimeStop, qtyOpen, b.close)];
        qtyOpen, closed := 0, true;
        break;
      }
      if !scaled && Through(side, target, win) {
        var half := if scaleOut then qtyOpen / 2 else 0;
        if half > 0 {
          pnl := pnl + M(side, target - entryPx) * half as real;
          qtyOpen := qtyOpen - half;
          exits := exits + [Exit(minute, TargetHit, half, target)];
        }
        scaled := true;
      }
      ghost var scaledOut := ScaleOut(t, entered, b);
      assert Run(stop, basis, hwm, mfe, qtyOpen, scaled, closed, pnl, exits) == scaledOut;
      hwm, stop, basis := RaiseStop(t, scaledOut, b, side, entryPx, prog, win, trailDist,
                                    runnerHold, scaled, hwm, stop, basis);
    }
    ghost var ended := Run(stop, basis, hwm, mfe, qtyOpen, scaled, closed, pnl, exits);
    assert ended == After(t, bars[..i]) && (closed || i == |bars|);
    if closed { ClosedStays(t, bars, i); } else { assert bars[..i] == bars; }
    rep := MarkAndReport(t, bars, true, first, entryPx, qty, side, rUnit,
                         ended, stop, mfe, qtyOpen, pnl, exits);
  }

  /** The tail both replays share: value what is still open at the last close, then
      build the report. */
  method MarkAndReport(ghost t: Terms, bars: seq<Bar>, showStop: bool, first: int, entryPx: real, qty: nat,
                       side: Side, rUnit: real, ghost s: Run,
                       stop: real, mfe: real, qtyOpen: nat, pnl: real, exits: seq<Exit>)
    returns (rep: Report)
    requires t.rUnit != 0.0
    requires rUnit == t.rUnit && side == t.side && first == First(t) && entryPx == t.entry && qty == t.qty
    requires s == After(t, bars)
    requires s.stop == stop && s.mfe == mfe && s.qtyOpen == qtyOpen && s.pnl == pnl && s.exits == exits
    ensures rep == Summary(t, bars, showStop)
  {
    hide Round2, Round3, Round4, After, RMultiple;
    var total, all := pnl, exits;
    if qtyOpen > 0 && |bars| > 0 {
      var last := bars[|bars| - 1];
      total := total + M(side, last.close - entryPx) * qtyOpen as real;
      all := all + [Exit(Minute(last.ts), EodMark, qtyOpen, last.close)];
    }
    assert Final(t, bars).pnl == total && Final(t, bars).exits == all;
    var flat := FlatClose(first, bars);
    var closeR := if flat.Some? then Some(Round3(M(side, flat.value - entryPx) / rUnit)) else None;
    rep := Report(Round2(total), RMultiple(total, qty, rUnit), Round4(rUnit),
                  if showStop && all == [] then Some(stop) else None, all, Round3(mfe), closeR);
  }

  /** The catalyst-lane ladder: fixed percent stop, no time stop, no scale-out. */
  method ReplayHold(bars: seq<Bar>, side: Side, entryTs: int, entryPx: real, qty: nat, stopPct: real, atr: real,
                    trailK: real := 3.0, trailAtR: real := 2.0, beR: real := 1.0)
    returns (rep: Option<Report>)
    ensures rep == Result(HoldTerms(side, entryTs, entryPx, qty, stopPct, atr, trailK, trailAtR, beR), bars, false)
  {
    hide Round2, Round3, Round4, Summary, Idle;
    var rUnit := stopPct * entryPx;
    if rUnit == 0.0 {
      rep := ReplayWithoutRisk(HoldTerms(side, entryTs, entryPx, qty, stopPct, atr, trailK, trailAtR, beR), bars, false);
      return;
    }
    var report := HoldBars(bars, side, entryTs, entryPx, qty, rUnit, Round2(entryPx - M(side, rUnit)),
                    trailK * atr, atr != 0.0, trailAtR, beR,
                    HoldTerms(side, entryTs, entryPx, qty, stopPct, atr, trailK, trailAtR, beR));
    rep := Some(report);
  }

  method HoldBars(bars: seq<Bar>, side: Side, entryTs: int, entryPx: real, qty: nat, rUnit: real, stop0: real,
                  trailDist: real, trails: bool, trailAtR: real, beR: real, ghost t: Terms)
    returns (rep: Report)
    requires t == Terms(side, entryTs, entryPx, qty, rUnit, None, trailDist, trails, trailAtR, beR,
                        false, true, false)
    requires rUnit != 0.0 && stop0 == Stop0(t)
    ensures rep == Summary(t, bars, false)
  {
    hide Round2, Round3, Round4, After, Step, Summary, Idle, Result, Reached, Through, LoseEdge, WinEdge, Gain, Progress, Max, M, Minute,
         StopLayer, Best, Tighter, Away;
    var stop := stop0;
    var hwm, basis, qtyOpen, pnl, exits := entryPx, Initial, qty, 0.0, [];
    var mfe := 0.0;
    var first := entryTs - entryTs % MINUTE;
    ghost var closed := false;
    NoBars(t, bars);
    var i := 0;
    while i < |bars|
      invariant 0 <= i <= |bars| && !closed
      invariant Run(stop, basis, hwm, mfe, qtyOpen, false, closed, pnl, exits) == After(t, bars[..i])
    {
      var b := bars[i];
      NextBar(t, bars, i);
      StepCases(t, After(t, bars[..i]), b);
      SignedMove(t, stop);
      SignedMove(t, b.close);
      SignedMove(t, WinEdge(side, b));
      TrailingPrice(side, hwm, WinEdge(side, b), trailDist);
      i := i + 1;
      if b.ts < first { continue; }
      var minute := Minute(b.ts);
      var lose, win := LoseEdge(side, b), WinEdge(side, b);
      mfe := Max(mfe, M(side, win - entryPx) / rUnit);
      if Through(side, lose, stop) {
        pnl := pnl + M(side, stop - entryPx) * qtyOpen as real;
        exits := exits + [Exit(minute, StopLayer(basis), qtyOpen, stop)];
        qtyOpen, closed := 0, true;
        break;
      }
      if minute >= FORCE_FLAT {
        pnl := pnl + M(side, b.close - entryPx) * qtyOpen as real;
        exits := exits + [Exit(minute, ForceFlat, qtyOpen, b.close)];
        qtyOpen, closed := 0, true;
        break;
      }
      var prog := M(side, b.close - entryPx) / rUnit;
      hwm := Best(side, hwm, win);
      var proposed: Option<(real, Basis)> := None;
      if prog >= trailAtR && trails {
        proposed := Some((Round2(hwm - M(side, trailDist)), Trail));
      } else if prog >= beR && basis == Initial {
        proposed := Some((Round2(entryPx), Breakeven));
      }
      if proposed.Some? && Tighter(side, proposed.value.0, stop) {
        stop, basis := proposed.value.0, proposed.value.1;
      }
    }
    ghost var ended := Run(stop, basis, hwm, mfe, qtyOpen, false, closed, pnl, exits);
    assert ended == After(t, bars[..i]) && (closed || i == |bars|);
    if closed { ClosedStays(t, bars, i); } else { assert bars[..i] == bars; }
    rep := MarkAndReport(t, bars, false, first, entryPx, qty, side, rUnit,
                         ended, stop, mfe, qtyOpen, pnl, exits);
  }

  lemma {:induction false} TrailingPrice(side: Side, hwm: real, win: real, dist: real)
    ensures Best(side, hwm, win) - M(side, dist) == Away(side, Best(side, hwm, win), dist)
  {
  }

  // ------------------------------------------------------- the variants

  datatype Variant = Base | NoScale | RunnerHold | NoTime | Stop3 | Trail25 | Trail3

  const VARIANTS: seq<Variant> := [Base, NoScale, RunnerHold, NoTime, Stop3, Trail25, Trail3]

  datatype Trade = Trade(side: Side, entryTs: int, entryPx: real, qty: nat, atr: real, mag: real)

  /** The overrides each variant applies to the defaults of `replay`. */
  function VariantTerms(v: Variant, d: Trade): Terms {
    ScalpTerms(d.side, d.entryTs, d.entryPx, d.qty, d.atr, d.mag,
               if v.Stop3? then 3.0 else 2.0,
               if v.Trail25? then 2.5 else if v.Trail3? then 3.0 else TRAIL_K,
               !v.NoTime?, !v.NoScale?, v.RunnerHold?)
  }

  /** A zero ATR makes every risk unit zero, so either all variants report or none does. */
  method ReplayVariants(bars: seq<Bar>, d: Trade) returns (out: Option<map<Variant, Report>>)
    ensures out.None? <==> d.atr == 0.0 && Reached(First(VariantTerms(Base, d)), bars)
    ensures out.Some? ==> forall v: Variant :: v in out.value && Some(out.value[v]) == Result(VariantTerms(v, d), bars, true)
  {
    hide Summary, Idle, TargetPrice;
    var reports: map<Variant, Report> := map[];
    for i := 0 to |VARIANTS|
      invariant forall j :: 0 <= j < i ==>
        VARIANTS[j] in reports
        && Some(reports[VARIANTS[j]]) == Result(VariantTerms(VARIANTS[j], d), bars, true)
    {
      var v := VARIANTS[i];
      var k := if v.Stop3? then 3.0 else 2.0;
      var rep := Replay(bars, d.side, d.entryTs, d.entryPx, d.qty, d.atr, d.mag, k,
                        if v.Trail25? then 2.5 else if v.Trail3? then 3.0 else TRAIL_K,
                        !v.NoTime?, !v.NoScale?, v.RunnerHold?);
      if rep.None? {
        return None;
      }
      reports := reports[v := rep.value];
    }
    assert VARIANTS[0] == Base;
    forall v: Variant ensures v in reports && Some(reports[v]) == Result(VariantTerms(v, d), bars, true) {
      match v
      case Base => assert VARIANTS[0] == v;
      case NoScale => assert VARIANTS[1] == v;
      case RunnerHold => assert VARIANTS[2] == v;
      case NoTime => assert VARIANTS[3] == v;
      case Stop3 => assert VARIANTS[4] == v;
      case Trail25 => assert VARIANTS[5] == v;
      case Trail3 => assert VARIANTS[6] == v;
    }
    return Some(reports);
  }
}
