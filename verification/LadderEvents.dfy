/** Which bar does what to a ladder, said of the bars themselves. */
module LadderEvents {
  import opened Direction
  import opened Ladder
  import opened LadderFacts
  import opened LadderRuns
  import opened Numbers
  import opened Options
  import opened Rounding

  /** The bar trades at the target or beyond. */
  predicate Touches(t: Terms, b: Bar) {
    t.target.Some? && if t.side.Long? then b.high >= t.target.value else b.low <= t.target.value
  }

  /** Bar k falls in the entry minute or later and finds the position open. */
  ghost predicate Meets(t: Terms, bars: seq<Bar>, k: int)
    requires t.rUnit != 0.0
  {
    0 <= k < |bars| && bars[k].ts >= First(t) && !After(t, bars[..k]).closed
  }

  /** Bar k meets the position, touches its target and leaves it open. */
  ghost predicate Scales(t: Terms, bars: seq<Bar>, k: int)
    requires t.rUnit != 0.0
  {
    Meets(t, bars, k) && !After(t, bars[..k + 1]).closed && Touches(t, bars[k])
  }

  lemma {:induction false} FirstIsEntryMinute(t: Terms)
    ensures First(t) <= t.entryTs < First(t) + MINUTE && First(t) % MINUTE == 0
  {
  }

  lemma {:induction false} PrefixStep(t: Terms, bars: seq<Bar>, k: nat)
    requires t.rUnit != 0.0 && k < |bars|
    ensures After(t, bars[..k + 1]) == Step(t, After(t, bars[..k]), bars[k])
  {
    assert bars[..k + 1][..k] == bars[..k];
  }

  lemma {:induction false} MeetsFront(t: Terms, bars: seq<Bar>, k: nat)
    requires t.rUnit != 0.0 && k < |bars| - 1
    ensures Meets(t, bars, k) <==> Meets(t, bars[..|bars| - 1], k)
    ensures Scales(t, bars, k) <==> Scales(t, bars[..|bars| - 1], k)
  {
    var front := bars[..|bars| - 1];
    assert front[..k] == bars[..k] && front[..k + 1] == bars[..k + 1];
    hide After;
  }

  // ------------------------------------------------------------ scaling out

  lemma {:induction false} StepScales(t: Terms, s: Run, b: Bar)
    requires t.rUnit != 0.0
    ensures Step(t, s, b).scaled <==>
      s.scaled || (!s.closed && b.ts >= First(t) && !Step(t, s, b).closed && Touches(t, b))
  {
    hide Round2, Progress, Minute, Propose;
  }

  /** Exactly when a ladder has scaled out: some bar met it, touched its target and left it
      open. */
  lemma {:induction false} ScaledIff(t: Terms, bars: seq<Bar>)
    requires t.rUnit != 0.0
    ensures After(t, bars).scaled <==> exists k :: Scales(t, bars, k)
    decreases |bars|
  {
    hide Step, Touches, Round2;
    if bars != [] {
      var n := |bars| - 1;
      var front := bars[..n];
      ScaledIff(t, front);
      StepScales(t, After(t, front), bars[n]);
      assert bars[..n + 1] == bars;
      hide After;
      if k :| Scales(t, front, k) {
        MeetsFront(t, bars, k);
      }
      if k :| Scales(t, bars, k) && k < n {
        MeetsFront(t, bars, k);
      }
      assert Scales(t, bars, n) <==> !After(t, front).closed && bars[n].ts >= First(t)
                                     && !After(t, bars).closed && Touches(t, bars[n]);
    }
  }

  /** The first exit of a run is what the step of the bar wrote. */
  lemma {:induction false} FirstExitStays(t: Terms, s: Run, b: Bar)
    requires t.rUnit != 0.0 && s.exits != []
    ensures var u := Step(t, s, b); u.exits != [] && u.exits[0] == s.exits[0]
  {
    hide Round2, Progress, Minute, Propose;
  }

  predicate Unscaled(t: Terms, s: Run) { !s.closed && !s.scaled ==> s.exits == [] && s.qtyOpen == t.qty }

  lemma {:induction false} StepUnscaled(t: Terms, s: Run, b: Bar)
    requires t.rUnit != 0.0 && Unscaled(t, s)
    ensures Unscaled(t, Step(t, s, b))
  {
    hide Round2, Progress, Minute, Propose;
  }

  lemma {:induction false} AfterUnscaled(t: Terms, bars: seq<Bar>)
    requires t.rUnit != 0.0
    ensures Unscaled(t, After(t, bars))
    decreases |bars|
  {
    hide Step, Unscaled, Round2;
    if bars == [] {
      StartUnscaled(t);
    } else {
      AfterUnscaled(t, bars[..|bars| - 1]);
      StepUnscaled(t, After(t, bars[..|bars| - 1]), bars[|bars| - 1]);
    }
  }

  lemma {:induction false} StartUnscaled(t: Terms)
    ensures Unscaled(t, Start(t))
  {
  }

  lemma {:induction false} StepSells(t: Terms, s: Run, b: Bar)
    requires t.rUnit != 0.0 && Unscaled(t, s) && t.scaleOut && t.qty >= 2
    requires !s.closed && !s.scaled && b.ts >= First(t) && !Step(t, s, b).closed && Touches(t, b)
    ensures Step(t, s, b).exits == [Exit(Minute(b.ts), TargetHit, t.qty / 2, t.target.value)]
  {
    hide Round2, Progress, Minute, Propose;
  }

  /** With scale-out on and two shares or more, the first such bar sells half of them at the
      target, before every other exit. */
  lemma {:induction false} FirstTouchSells(t: Terms, bars: seq<Bar>, k: nat)
    requires t.rUnit != 0.0 && t.scaleOut && t.qty >= 2
    requires Scales(t, bars, k) && forall j :: 0 <= j < k ==> !Scales(t, bars, j)
    ensures var xs := After(t, bars).exits;
      xs != [] && xs[0] == Exit(Minute(bars[k].ts), TargetHit, t.qty / 2, t.target.value)
    ensures After(t, bars[..k + 1]).qtyOpen == t.qty - t.qty / 2
    decreases |bars|
  {
    hide Step, Round2, Minute, Touches;
    var n := |bars| - 1;
    if k < n {
      var front := bars[..n];
      forall j | 0 <= j < k ensures !Scales(t, front, j) {
        MeetsFront(t, bars, j);
      }
      MeetsFront(t, bars, k);
      assert front[..k + 1] == bars[..k + 1];
      FirstTouchSells(t, front, k);
      FirstExitStays(t, After(t, front), bars[n]);
    } else {
      assert bars[..n + 1] == bars;
      NotYetScaled(t, bars);
      AfterUnscaled(t, bars[..n]);
      StepSells(t, After(t, bars[..n]), bars[n]);
      AfterBalanced(t, bars);
      OneSale(After(t, bars).exits);
    }
  }

  lemma {:induction false} OneSale(xs: seq<Exit>)
    requires |xs| == 1
    ensures SumQty(xs) == xs[0].qty
  {
    assert xs[..0] == [];
  }

  lemma {:induction false} NotYetScaled(t: Terms, bars: seq<Bar>)
    requires t.rUnit != 0.0 && bars != [] && forall j :: 0 <= j < |bars| - 1 ==> !Scales(t, bars, j)
    ensures !After(t, bars[..|bars| - 1]).scaled
  {
    hide After, Touches;
    var front := bars[..|bars| - 1];
    ScaledIff(t, front);
    forall j ensures !Scales(t, front, j) {
      if 0 <= j < |front| {
        MeetsFront(t, bars, j);
      }
    }
  }

  // ----------------------------------------------------------------- closing

  /** The bar trades at the stop or beyond. */
  predicate Stopped(t: Terms, stop: real, b: Bar) { if t.side.Long? then b.low <= stop else b.high >= stop }

  /** 14:50 or later on the bar's own clock. */
  predicate FlatTime(b: Bar) { (b.ts / 60_000_000) % 1440 >= 890 }

  function CloseGain(t: Terms, b: Bar): real { if t.side.Long? then b.close - t.entry else t.entry - b.close }

  /** An hour or more after entry and less than half the initial risk ahead. */
  predicate TimedOut(t: Terms, b: Bar) {
    t.timeStop && b.ts - t.entryTs >= 3_600_000_000 && CloseGain(t, b) < 0.5 * t.rUnit
  }

  predicate Ends(t: Terms, stop: real, b: Bar) { Stopped(t, stop, b) || FlatTime(b) || TimedOut(t, b) }

  /** The layer and price at which a bar ends a position with this stop. */
  function Ending(t: Terms, stop: real, basis: Basis, b: Bar): (Layer, real) {
    if Stopped(t, stop, b) then
      (match basis case Initial => StopHit case Breakeven => BreakevenHit case Trail => TrailHit, stop)
    else (if FlatTime(b) then ForceFlat else TimeStop, b.close)
  }

  lemma {:induction false} ProgressIs(t: Terms, b: Bar)
    requires t.rUnit > 0.0
    ensures Progress(t, b.close) < TIME_MIN_R <==> CloseGain(t, b) < 0.5 * t.rUnit
  {
    ProgressOrder(t, b.close, TIME_MIN_R);
  }

  lemma {:induction false} StepEnds(t: Terms, s: Run, b: Bar)
    requires t.rUnit > 0.0 && !s.closed && b.ts >= First(t)
    ensures Step(t, s, b).closed <==> Ends(t, s.stop, b)
    ensures Ends(t, s.stop, b) ==>
      var (layer, px) := Ending(t, s.stop, s.basis, b);
      Step(t, s, b).exits == s.exits + [Exit(Minute(b.ts), layer, s.qtyOpen, px)]
  {
    hide Round2, Progress, Propose;
    ProgressIs(t, b);
  }

  /** Exactly when a ladder is closed, and how: by the first bar that meets it and trades
      through its stop, reaches 14:50 or times out, in this order of precedence. */
  lemma {:induction false} ClosedIff(t: Terms, bars: seq<Bar>)
    requires t.rUnit > 0.0
    ensures After(t, bars).closed <==> exists k :: Meets(t, bars, k) && Ends(t, After(t, bars[..k]).stop, bars[k])
    decreases |bars|
  {
    hide Step, Ends, Round2;
    if bars != [] {
      var n := |bars| - 1;
      var front := bars[..n];
      ClosedIff(t, front);
      assert bars[..n + 1] == bars;
      if !After(t, front).closed && bars[n].ts >= First(t) {
        StepEnds(t, After(t, front), bars[n]);
        assert Meets(t, bars, n);
      } else {
        SkipKeeps(t, After(t, front), bars[n]);
      }
      hide After;
      if k :| Meets(t, front, k) && Ends(t, After(t, front[..k]).stop, front[k]) {
        MeetsFront(t, bars, k);
        assert front[..k] == bars[..k];
      }
      if k :| Meets(t, bars, k) && Ends(t, After(t, bars[..k]).stop, bars[k]) && k < n {
        MeetsFront(t, bars, k);
        assert front[..k] == bars[..k];
      }
    }
  }

  lemma {:induction false} SkipKeeps(t: Terms, s: Run, b: Bar)
    requires t.rUnit != 0.0 && (s.closed || b.ts < First(t))
    ensures Step(t, s, b) == s
  {
  }

  lemma {:induction false} ClosingExit(t: Terms, bars: seq<Bar>, k: nat)
    requires t.rUnit > 0.0 && Meets(t, bars, k) && Ends(t, After(t, bars[..k]).stop, bars[k])
    ensures var s := After(t, bars[..k]);
      var (layer, px) := Ending(t, s.stop, s.basis, bars[k]);
      After(t, bars).exits == s.exits + [Exit(Minute(bars[k].ts), layer, s.qtyOpen, px)]
  {
    hide Step, Ends, Ending, Round2, Minute;
    PrefixStep(t, bars, k);
    StepEnds(t, After(t, bars[..k]), bars[k]);
    ClosedStays(t, bars, k + 1);
  }

  // ------------------------------------------------------- where the stop is

  /** The best price from the entry minute on. */
  function Peak(t: Terms, bars: seq<Bar>): real {
    if bars == [] then t.entry
    else
      var p, b := Peak(t, bars[..|bars| - 1]), bars[|bars| - 1];
      if b.ts < First(t) then p
      else if t.side.Long? then (if b.high > p then b.high else p)
      else if b.low < p then b.low else p
  }

  lemma {:induction false} StepPeaks(t: Terms, s: Run, b: Bar)
    requires t.rUnit != 0.0 && !Step(t, s, b).closed
    ensures !s.closed
    ensures Step(t, s, b).hwm == if b.ts < First(t) then s.hwm
                                 else if t.side.Long? then (if b.high > s.hwm then b.high else s.hwm)
                                 else if b.low < s.hwm then b.low else s.hwm
  {
    hide Round2, Progress, Minute, Propose;
  }

  lemma {:induction false} HwmIsPeak(t: Terms, bars: seq<Bar>)
    requires t.rUnit != 0.0 && !After(t, bars).closed
    ensures After(t, bars).hwm == Peak(t, bars)
    decreases |bars|
  {
    hide Step, Round2;
    if bars != [] {
      var front := bars[..|bars| - 1];
      StepPeaks(t, After(t, front), bars[|bars| - 1]);
      HwmIsPeak(t, front);
    }
  }

  /** The stop a trail of this width gives at a peak. */
  function TrailAt(t: Terms, peak: real): real {
    Round2(if t.side.Long? then peak - t.trailDist else peak + t.trailDist)
  }

  /** Bar k meets the position, leaves it open and closes where the trail arms. */
  ghost predicate Arms(t: Terms, bars: seq<Bar>, k: int)
    requires t.rUnit != 0.0
  {
    && Meets(t, bars, k) && !After(t, bars[..k + 1]).closed
    && t.trails && CloseGain(t, bars[k]) >= t.trailAt * t.rUnit
    && !(t.runnerHold && After(t, bars[..k + 1]).scaled)
  }

  /** Bar k meets the position, leaves it open and makes the breakeven stop due. */
  ghost predicate BreaksEven(t: Terms, bars: seq<Bar>, k: int)
    requires t.rUnit != 0.0
  {
    && Meets(t, bars, k) && !After(t, bars[..k + 1]).closed
    && (CloseGain(t, bars[k]) >= t.beR * t.rUnit || (t.runnerHold && After(t, bars[..k + 1]).scaled))
  }

  lemma {:induction false} StepStop(t: Terms, s: Run, b: Bar)
    requires t.rUnit > 0.0 && !s.closed && b.ts >= First(t) && !Step(t, s, b).closed
    ensures var u, gain := Step(t, s, b), CloseGain(t, b);
      var held := t.runnerHold && u.scaled;
      && (!held && t.trails && gain >= t.trailAt * t.rUnit ==> AtLeastAsTight(t.side, u.stop, TrailAt(t, u.hwm)))
      && (u.stop == s.stop
          || (Tighter(t.side, u.stop, s.stop) && u.stop == TrailAt(t, u.hwm)
              && !held && t.trails && gain >= t.trailAt * t.rUnit)
          || (Tighter(t.side, u.stop, s.stop) && u.stop == Round2(t.entry)
              && (gain >= t.beR * t.rUnit || held)))
  {
    hide Round2, Progress, Minute;
    ProgressOrder(t, b.close, t.trailAt);
    ProgressOrder(t, b.close, t.beR);
  }

  /** Once a bar arms the trail, the stop is never again looser than the trail from the peak
      of that bar. */
  lemma {:induction false} TrailFollows(t: Terms, bars: seq<Bar>, k: nat)
    requires t.rUnit > 0.0 && Arms(t, bars, k)
    ensures AtLeastAsTight(t.side, After(t, bars).stop, TrailAt(t, Peak(t, bars[..k + 1])))
  {
    hide Step, Round2, Peak, TrailAt;
    PrefixStep(t, bars, k);
    HwmIsPeak(t, bars[..k + 1]);
    StepStop(t, After(t, bars[..k]), bars[k]);
    StopOnlyTightens(t, bars, k + 1);
  }

  /** And every stop comes from somewhere: it is the initial one, the entry price once
      breakeven was due, or the trail from the peak of a bar that armed it. */
  ghost predicate StopSource(t: Terms, bars: seq<Bar>, stop: real)
    requires t.rUnit != 0.0
  {
    || stop == Round2(if t.side.Long? then t.entry - t.rUnit else t.entry + t.rUnit)
    || (stop == Round2(t.entry) && exists k :: BreaksEven(t, bars, k))
    || exists k :: Arms(t, bars, k) && stop == TrailAt(t, Peak(t, bars[..k + 1]))
  }

  lemma {:induction false} SourceExtends(t: Terms, bars: seq<Bar>, stop: real)
    requires t.rUnit != 0.0 && bars != [] && StopSource(t, bars[..|bars| - 1], stop)
    ensures StopSource(t, bars, stop)
  {
    hide After, Round2, TrailAt;
    var front := bars[..|bars| - 1];
    if k :| BreaksEven(t, front, k) {
      MeetsFront(t, bars, k);
      assert front[..k + 1] == bars[..k + 1];
      assert BreaksEven(t, bars, k);
    }
    if k :| Arms(t, front, k) && stop == TrailAt(t, Peak(t, front[..k + 1])) {
      MeetsFront(t, bars, k);
      assert front[..k + 1] == bars[..k + 1];
      assert Arms(t, bars, k);
    }
  }

  lemma {:induction false} StopHasSource(t: Terms, bars: seq<Bar>)
    requires t.rUnit > 0.0
    ensures StopSource(t, bars, After(t, bars).stop)
    decreases |bars|
  {
    hide Step, Round2, Peak, TrailAt;
    if bars != [] {
      var n := |bars| - 1;
      var front, b := bars[..n], bars[n];
      StopHasSource(t, front);
      SourceExtends(t, bars, After(t, front).stop);
      assert bars[..n + 1] == bars;
      var s, u := After(t, front), After(t, bars);
      assert u == Step(t, s, b);
      if s.closed || b.ts < First(t) {
        SkipKeeps(t, s, b);
      } else if u.closed {
        CloseKeepsStop(t, s, b);
      } else {
        HwmIsPeak(t, bars);
        StepStop(t, s, b);
        hide After;
        assert Meets(t, bars, n);
        if u.stop == TrailAt(t, Peak(t, bars[..n + 1])) && Arms(t, bars, n) {
        } else if u.stop == Round2(t.entry) && BreaksEven(t, bars, n) {
        }
      }
    }
  }

  lemma {:induction false} CloseKeepsStop(t: Terms, s: Run, b: Bar)
    requires t.rUnit != 0.0 && Step(t, s, b).closed
    ensures Step(t, s, b).stop == s.stop
  {
    hide Round2, Progress, Minute, Propose;
  }
}
