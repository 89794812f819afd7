/** What the figures of a replay report say of the bars and the exits. */
module LadderReport {
  import opened Direction
  import opened Ladder
  import opened LadderEvents
  import opened LadderFacts
  import opened Numbers
  import opened Options
  import opened Rounding

  /** An R figure in dollars per share, or per position. */
  function Worth(r: real, unit: real): real { r * unit }

  /** Dollars the exits make on the entry price. */
  function Earned(t: Terms, xs: seq<Exit>): real {
    if xs == [] then 0.0
    else
      var e := xs[|xs| - 1];
      Earned(t, xs[..|xs| - 1]) + (if t.side.Long? then e.px - t.entry else t.entry - e.px) * e.qty as real
  }

  lemma {:induction false} EarnedIsGain(t: Terms, xs: seq<Exit>)
    ensures Earned(t, xs) == SumGain(t, xs)
    decreases |xs|
  {
    if xs != [] {
      EarnedIsGain(t, xs[..|xs| - 1]);
    }
  }

  /** How far the bar goes in favour of the position. */
  function EdgeGain(t: Terms, b: Bar): real { if t.side.Long? then b.high - t.entry else t.entry - b.low }

  /** x is the most any bar that met the position went in its favour, never below zero. */
  ghost predicate IsBestMove(t: Terms, bars: seq<Bar>, x: real)
    requires t.rUnit != 0.0
  {
    && x >= 0.0 && (forall k :: Meets(t, bars, k) ==> EdgeGain(t, bars[k]) <= x)
    && (x == 0.0 || exists k :: Meets(t, bars, k) && EdgeGain(t, bars[k]) == x)
  }

  lemma {:induction false} BestMoveSnoc(t: Terms, bars: seq<Bar>, x: real)
    requires t.rUnit != 0.0 && bars != [] && IsBestMove(t, bars[..|bars| - 1], x)
    ensures var n := |bars| - 1;
      IsBestMove(t, bars, if Meets(t, bars, n) && EdgeGain(t, bars[n]) > x then EdgeGain(t, bars[n]) else x)
  {
    hide After, EdgeGain;
    var n := |bars| - 1;
    var front := bars[..n];
    forall k | 0 <= k < n ensures Meets(t, bars, k) <==> Meets(t, front, k) {
      MeetsFront(t, bars, k);
    }
    if k :| Meets(t, front, k) && EdgeGain(t, front[k]) == x {
      assert Meets(t, bars, k) && bars[k] == front[k];
    }
  }

  lemma {:induction false} MfeIs(t: Terms, bars: seq<Bar>)
    requires t.rUnit > 0.0
    ensures IsBestMove(t, bars, Worth(After(t, bars).mfe, t.rUnit))
    decreases |bars|
  {
    if bars == [] {
      StartMfe(t);
    } else {
      var front, b := bars[..|bars| - 1], bars[|bars| - 1];
      MfeIs(t, front);
      var s, g := After(t, front), EdgeGain(t, b);
      var x := Worth(s.mfe, t.rUnit);
      MfeStep(t, s, b);
      assert After(t, bars) == Step(t, s, b);
      assert Meets(t, bars, |bars| - 1) <==> !s.closed && b.ts >= First(t);
      hide *;
      BestMoveSnoc(t, bars, x);
    }
  }

  lemma {:induction false} MfeStep(t: Terms, s: Run, b: Bar)
    requires t.rUnit > 0.0
    ensures Worth(Step(t, s, b).mfe, t.rUnit)
         == if !s.closed && b.ts >= First(t) && EdgeGain(t, b) > Worth(s.mfe, t.rUnit) then EdgeGain(t, b)
            else Worth(s.mfe, t.rUnit)
  {
    StepMfe(t, s, b);
    ProgressMax(t, s.mfe, WinEdge(t.side, b));
    hide Step, Round2, Progress;
  }

  lemma {:induction false} StartMfe(t: Terms)
    requires t.rUnit > 0.0
    ensures IsBestMove(t, [], Worth(After(t, []).mfe, t.rUnit))
  {
    hide Round2;
    assert After(t, []).mfe == 0.0;
    assert 0.0 * t.rUnit == 0.0;
  }

  lemma {:induction false} FinalMfe(t: Terms, bars: seq<Bar>)
    requires t.rUnit != 0.0
    ensures Final(t, bars).mfe == After(t, bars).mfe
  {
    hide After, Round2;
  }

  /** Bar k is the first at or after the entry minute to reach 14:50. */
  predicate FirstFlat(first: int, bars: seq<Bar>, k: int) {
    && 0 <= k < |bars| && bars[k].ts >= first && FlatTime(bars[k])
    && forall j :: 0 <= j < k ==> !(bars[j].ts >= first && FlatTime(bars[j]))
  }

  lemma {:induction false} FlatCloseIs(first: int, bars: seq<Bar>)
    ensures FlatClose(first, bars).Some? ==> exists k :: FirstFlat(first, bars, k) && FlatClose(first, bars).value == bars[k].close
    ensures FlatClose(first, bars).None? ==> forall k :: 0 <= k < |bars| ==> !(bars[k].ts >= first && FlatTime(bars[k]))
    decreases |bars|
  {
    if bars != [] {
      var rest := bars[1..];
      FlatCloseIs(first, rest);
      assert IsFlatBar(first, bars[0]) <==> bars[0].ts >= first && FlatTime(bars[0]);
      hide FlatTime, IsFlatBar;
      if IsFlatBar(first, bars[0]) {
        assert FirstFlat(first, bars, 0);
      } else {
        assert forall j :: 0 < j < |bars| ==> bars[j] == rest[j - 1];
        if k :| FirstFlat(first, rest, k) && FlatClose(first, rest).value == rest[k].close {
          FirstFlatLater(first, bars, k);
        }
      }
    }
  }

  lemma {:induction false} FirstFlatLater(first: int, bars: seq<Bar>, k: nat)
    requires bars != [] && !(bars[0].ts >= first && FlatTime(bars[0])) && FirstFlat(first, bars[1..], k)
    ensures FirstFlat(first, bars, k + 1) && bars[k + 1] == bars[1..][k]
  {
    hide FlatTime;
    assert forall j :: 0 < j < |bars| ==> bars[j] == bars[1..][j - 1];
  }

  /** x lies within tol of y. */
  predicate Near(x: real, y: real, tol: real) { -tol <= x - y <= tol }

  lemma {:induction false} Round3Near(x: real)
    ensures Near(Round3(x), x, 0.0005)
  {
    RoundEvenNear(x * 1000.0);
  }

  lemma {:induction false} ScaleNear(x: real, y: real, tol: real, unit: real)
    requires Near(x, y, tol) && unit > 0.0
    ensures Near(Worth(x, unit), Worth(y, unit), Worth(tol, unit))
  {
    MulMono(-tol, x - y, unit);
    MulMono(x - y, tol, unit);
    assert (x - y) * unit == x * unit - y * unit && -tol * unit == -(tol * unit);
  }

  lemma {:induction false} RatioBack(pnl: real, unit: real)
    requires unit != 0.0
    ensures Worth(pnl / unit, unit) == pnl
  {
  }

  /** The report: P&L is what its exits earn, to half a cent, and r is that per initial risk;
      the two R figures are the best move while open and the close of the first 14:50 bar. */
  lemma {:induction false} ReportMeans(t: Terms, bars: seq<Bar>, showStop: bool)
    requires t.rUnit > 0.0
    ensures var p, risk := Summary(t, bars, showStop), t.qty as real * t.rUnit;
      && p.exits == Final(t, bars).exits && Near(p.pnl, Earned(t, p.exits), 0.005)
      && (if t.qty == 0 then p.r == 0.0 else Near(Worth(p.r, risk), Earned(t, p.exits), Worth(0.005, risk)))
    ensures var p := Summary(t, bars, showStop);
      exists x :: IsBestMove(t, bars, x) && Near(Worth(p.mfeR, t.rUnit), x, Worth(0.0005, t.rUnit))
    ensures match Summary(t, bars, showStop).closeR
      case Some(c) => exists k :: FirstFlat(First(t), bars, k) && Near(Worth(c, t.rUnit), CloseGain(t, bars[k]), Worth(0.0005, t.rUnit))
      case None => forall k :: 0 <= k < |bars| ==> !(bars[k].ts >= First(t) && FlatTime(bars[k]))
  {
    PnlMeans(t, bars, showStop);
    BestMoveMeans(t, bars, showStop);
    CloseMeans(t, bars, showStop);
    hide *;
  }

  lemma {:induction false} PnlMeans(t: Terms, bars: seq<Bar>, showStop: bool)
    requires t.rUnit > 0.0
    ensures var p, risk := Summary(t, bars, showStop), t.qty as real * t.rUnit;
      && p.exits == Final(t, bars).exits && Near(p.pnl, Earned(t, p.exits), 0.005)
      && (if t.qty == 0 then p.r == 0.0 else Near(Worth(p.r, risk), Earned(t, p.exits), Worth(0.005, risk)))
  {
    var s := Final(t, bars);
    Accounting(t, bars);
    EarnedIsGain(t, s.exits);
    Round2Near(s.pnl);
    if t.qty > 0 {
      RNear(t, s.pnl);
    }
    hide Final, Round2, Round3, Round4, Earned, Progress, FlatClose, Worth;
  }

  lemma {:induction false} BestMoveMeans(t: Terms, bars: seq<Bar>, showStop: bool)
    requires t.rUnit > 0.0
    ensures exists x :: IsBestMove(t, bars, x) && Near(Worth(Summary(t, bars, showStop).mfeR, t.rUnit), x, Worth(0.0005, t.rUnit))
  {
    var m := After(t, bars).mfe;
    MfeIs(t, bars);
    FinalMfe(t, bars);
    Round3Near(m);
    assert Summary(t, bars, showStop).mfeR == Round3(m);
    hide *;
    ScaleNear(Round3(m), m, 0.0005, t.rUnit);
    assert IsBestMove(t, bars, Worth(m, t.rUnit));
  }

  lemma {:induction false} CloseMeans(t: Terms, bars: seq<Bar>, showStop: bool)
    requires t.rUnit > 0.0
    ensures match Summary(t, bars, showStop).closeR
      case Some(c) => exists k :: FirstFlat(First(t), bars, k) && Near(Worth(c, t.rUnit), CloseGain(t, bars[k]), Worth(0.0005, t.rUnit))
      case None => forall k :: 0 <= k < |bars| ==> !(bars[k].ts >= First(t) && FlatTime(bars[k]))
  {
    FlatCloseIs(First(t), bars);
    var flat, r := FlatClose(First(t), bars), Summary(t, bars, showStop).closeR;
    assert r == if flat.Some? then Some(Round3(Progress(t, flat.value))) else None;
    if flat.Some? {
      var k :| FirstFlat(First(t), bars, k) && flat.value == bars[k].close;
      FirstFlatAt(First(t), bars, k);
      CloseNear(t, bars[k]);
      hide *;
    }
  }

  lemma {:induction false} FirstFlatAt(first: int, bars: seq<Bar>, k: int)
    requires FirstFlat(first, bars, k)
    ensures 0 <= k < |bars|
  {
  }

  lemma {:induction false} CloseNear(t: Terms, b: Bar)
    requires t.rUnit > 0.0
    ensures Near(Worth(Round3(Progress(t, b.close)), t.rUnit), CloseGain(t, b), Worth(0.0005, t.rUnit))
  {
    var g := Progress(t, b.close);
    RatioBack(Gain(t.side, t.entry, b.close), t.rUnit);
    assert Worth(g, t.rUnit) == CloseGain(t, b);
    Round3Near(g);
    hide *;
    ScaleNear(Round3(g), g, 0.0005, t.rUnit);
  }

  lemma {:induction false} RNear(t: Terms, pnl: real)
    requires t.rUnit > 0.0 && t.qty > 0
    ensures var risk := t.qty as real * t.rUnit;
      Near(Worth(RMultiple(pnl, t.qty, t.rUnit), risk), pnl, Worth(0.005, risk))
  {
    hide Round2, Near, Worth;
    var risk := t.qty as real * t.rUnit;
    MulMono(1.0, t.qty as real, t.rUnit);
    var q := pnl / risk;
    Round2Within(q);
    RatioBack(pnl, risk);
    ScaleNear(Round2(q), q, 0.005, risk);
    RPerRisk(pnl, t.qty, t.rUnit, risk, q);
  }

  lemma {:induction false} RPerRisk(pnl: real, qty: nat, rUnit: real, risk: real, q: real)
    requires rUnit > 0.0 && qty > 0 && risk == qty as real * rUnit && risk != 0.0 && q == pnl / risk
    ensures RMultiple(pnl, qty, rUnit) == Round2(q)
  {
    hide Round2;
  }

  lemma {:induction false} Round2Within(x: real)
    ensures Near(Round2(x), x, 0.005)
  {
    Round2Near(x);
  }
}
