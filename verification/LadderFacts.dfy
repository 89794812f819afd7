/** What one ladder run guarantees, over every bar sequence. */
module LadderFacts {
  import opened Direction
  import opened Options
  import opened Rounding
  import opened Ladder
  import opened Numbers

  // ---------------------------------------------------------- accounting

  function SumQty(xs: seq<Exit>): int {
    if xs == [] then 0 else SumQty(xs[..|xs| - 1]) + xs[|xs| - 1].qty
  }

  function SumGain(t: Terms, xs: seq<Exit>): real {
    if xs == [] then 0.0
    else
      var e := xs[|xs| - 1];
      SumGain(t, xs[..|xs| - 1]) + Gain(t.side, t.entry, e.px) * e.qty as real
  }

  predicate Balanced(t: Terms, s: Run) {
    && s.pnl == SumGain(t, s.exits)
    && SumQty(s.exits) + s.qtyOpen == t.qty
    && (s.closed ==> s.qtyOpen == 0)
  }

  lemma {:induction false} SellBalanced(t: Terms, s: Run, minute: int, layer: Layer, qty: nat, px: real)
    requires qty <= s.qtyOpen && !s.closed && Balanced(t, s)
    ensures Balanced(t, Sell(t, s, minute, layer, qty, px))
  {
    var xs := Sell(t, s, minute, layer, qty, px).exits;
    assert xs[..|xs| - 1] == s.exits;
  }

  lemma {:induction false} CloseOutBalanced(t: Terms, s: Run, b: Bar, layer: Layer, px: real)
    requires !s.closed && Balanced(t, s)
    ensures Balanced(t, CloseOut(t, s, b, layer, px))
  {
    SellBalanced(t, s, Minute(b.ts), layer, s.qtyOpen, px);
  }

  lemma {:induction false} ScaleOutBalanced(t: Terms, s: Run, b: Bar)
    requires !s.closed && Balanced(t, s)
    ensures Balanced(t, ScaleOut(t, s, b))
  {
    if t.target.Some? {
      SellBalanced(t, s, Minute(b.ts), TargetHit, s.qtyOpen / 2, t.target.value);
    }
  }

  /** The ways a step can go, with the state it starts from named once. */
  predicate Skips(t: Terms, s: Run, b: Bar) { s.closed || b.ts < First(t) }

  function Entered(t: Terms, s: Run, b: Bar): Run
    requires t.rUnit != 0.0
  {
    s.(mfe := Max(s.mfe, Progress(t, WinEdge(t.side, b))))
  }

  lemma {:induction false} StepBalanced(t: Terms, s: Run, b: Bar)
    requires t.rUnit != 0.0 && Balanced(t, s)
    ensures Balanced(t, Step(t, s, b))
  {
    hide Round2;
    if !Skips(t, s, b) {
      var s1 := Entered(t, s, b);
      assert Balanced(t, s1);
      CloseOutBalanced(t, s1, b, StopLayer(s1.basis), s1.stop);
      CloseOutBalanced(t, s1, b, ForceFlat, b.close);
      CloseOutBalanced(t, s1, b, TimeStop, b.close);
      ScaleOutBalanced(t, s1, b);
    }
  }

  lemma {:induction false} AfterBalanced(t: Terms, bars: seq<Bar>)
    requires t.rUnit != 0.0
    ensures Balanced(t, After(t, bars))
  {
    if bars != [] {
      AfterBalanced(t, bars[..|bars| - 1]);
      StepBalanced(t, After(t, bars[..|bars| - 1]), bars[|bars| - 1]);
    }
  }

  /** Every share is sold exactly once and the P&L is the sum over exits. */
  lemma {:induction false} Accounting(t: Terms, bars: seq<Bar>)
    requires t.rUnit != 0.0
    ensures var s := Final(t, bars);
      && s.pnl == SumGain(t, s.exits)
      && (bars != [] ==> SumQty(s.exits) == t.qty && s.qtyOpen == 0)
      && (bars == [] ==> s.exits == [] && s.pnl == 0.0)
  {
    AfterBalanced(t, bars);
    var s := After(t, bars);
    if s.qtyOpen > 0 && bars != [] {
      var last := bars[|bars| - 1];
      SellBalanced(t, s, Minute(last.ts), EodMark, s.qtyOpen, last.close);
    }
  }

  // ------------------------------------------------------ stops and exits

  /** Wide enough that rounding to cents cannot reverse an order of prices. */
  predicate CentWide(t: Terms) {
    && t.rUnit >= 0.0101
    && t.trailDist >= HALF_CENT
    && t.beR * t.rUnit >= HALF_CENT
    && (t.runnerHold && t.target.Some? ==> Gain(t.side, t.entry, t.target.value) >= HALF_CENT)
  }

  function Lowest(t: Terms): real {
    Gain(t.side, t.entry, Stop0(t)) - (if CentWide(t) then 0.0 else 0.0051)
  }

  function Highest(t: Terms, best: real): real {
    best + (if CentWide(t) then 0.0 else HALF_CENT)
  }

  /** The least a trailing stop locks in per share. */
  function TrailLock(t: Terms): real { t.trailAt * t.rUnit - t.trailDist - HALF_CENT }

  predicate LayerMeans(t: Terms, e: Exit) {
    match e.layer
    case StopHit => e.px == Stop0(t)
    case BreakevenHit => e.px == Round2(t.entry)
    case TrailHit => t.trails && Gain(t.side, t.entry, e.px) >= TrailLock(t)
    case TimeStop => t.timeStop && Gain(t.side, t.entry, e.px) < TIME_MIN_R * t.rUnit
    case TargetHit => t.scaleOut && t.target == Some(e.px) && e.qty == t.qty / 2
    case ForceFlat => e.minute >= FORCE_FLAT
    case EodMark => true
  }

  predicate ExitOk(t: Terms, best: real, e: Exit) {
    LayerMeans(t, e) && Lowest(t) <= Gain(t.side, t.entry, e.px) <= Highest(t, best)
  }

  predicate ExitsOk(t: Terms, best: real, xs: seq<Exit>) {
    forall e <- xs :: ExitOk(t, best, e)
  }

  predicate StopOk(t: Terms, best: real, s: Run) {
    && AtLeastAsTight(t.side, s.stop, Stop0(t))
    && Gain(t.side, t.entry, s.stop) <= Highest(t, best)
    && match s.basis
       case Initial => s.stop == Stop0(t)
       case Breakeven => s.stop == Round2(t.entry)
       case Trail => t.trails && Gain(t.side, t.entry, s.stop) >= TrailLock(t)
  }

  predicate ScaledOk(t: Terms, best: real, s: Run) {
    && s.qtyOpen == (if s.scaled && t.scaleOut then t.qty - t.qty / 2 else t.qty)
    && (|s.exits| > 0 ==> s.scaled)
    && (s.scaled ==> t.target.Some? && Gain(t.side, t.entry, t.target.value) <= best)
  }

  /** `best` is the best favourable move per share seen while open. */
  predicate Sound(t: Terms, best: real, s: Run) {
    && best >= 0.0
    && ExitsOk(t, best, s.exits)
    && StopOk(t, best, s)
    && (!s.closed ==> ScaledOk(t, best, s) && Gain(t.side, t.entry, s.hwm) == best)
  }

  function NextBest(t: Terms, best: real, s: Run, b: Bar): real {
    if Skips(t, s, b) then best else Max(best, Gain(t.side, t.entry, WinEdge(t.side, b)))
  }

  lemma {:induction false} MulMono(a: real, b: real, c: real)
    requires a <= b && c >= 0.0
    ensures a * c <= b * c
  {
  }

  /** Comparing progress in R is comparing dollars per share. */
  lemma {:induction false} ProgressOrder(t: Terms, px: real, k: real)
    requires t.rUnit > 0.0
    ensures Progress(t, px) >= k <==> Gain(t.side, t.entry, px) >= k * t.rUnit
  {
    var p := Progress(t, px);
    assert p * t.rUnit == Gain(t.side, t.entry, px);
    if p >= k {
      MulMono(k, p, t.rUnit);
    } else {
      assert (k - p) * t.rUnit > 0.0;
    }
  }

  lemma {:induction false} TrailBeyondEntry(t: Terms, hwm: real, close: real)
    requires t.rUnit > 0.0 && t.trailDist <= t.trailAt * t.rUnit
    requires Gain(t.side, t.entry, close) <= Gain(t.side, t.entry, hwm)
    requires Progress(t, close) >= t.trailAt
    ensures AtLeastAsTight(t.side, Round2(Away(t.side, hwm, t.trailDist)), Round2(t.entry))
  {
    hide Round2, Progress;
    ProgressOrder(t, close, t.trailAt);
    if t.side.Long? {
      Round2Monotone(t.entry, Away(t.side, hwm, t.trailDist));
    } else {
      Round2Monotone(Away(t.side, hwm, t.trailDist), t.entry);
    }
  }

  lemma {:induction false} Stop0Below(t: Terms)
    requires TermsOk(t)
    ensures Gain(t.side, t.entry, Stop0(t)) <= HALF_CENT - t.rUnit
    ensures Lowest(t) <= -0.00005
  {
    Round2Near(Away(t.side, t.entry, t.rUnit));
  }

  lemma {:induction false} ScaleOutSound(t: Terms, best: real, s: Run, b: Bar)
    requires TermsOk(t) && Sound(t, best, s) && !s.closed
    requires Gain(t.side, t.entry, WinEdge(t.side, b)) <= best
    ensures Sound(t, best, ScaleOut(t, s, b))
  {
    Stop0Below(t);
    if !s.scaled && TargetReached(t, b) {
      var half := if t.scaleOut then s.qtyOpen / 2 else 0;
      if half > 0 {
        assert ExitOk(t, best, Exit(Minute(b.ts), TargetHit, half, t.target.value));
      }
    }
  }

  lemma {:induction false} TrailPrice(side: Side, entry: real, hwm: real, dist: real, arm: real)
    requires arm <= Gain(side, entry, hwm)
    ensures arm - dist - HALF_CENT
         <= Gain(side, entry, Round2(Away(side, hwm, dist)))
         <= Gain(side, entry, hwm) - dist + HALF_CENT
  {
    Round2Near(Away(side, hwm, dist));
  }

  lemma {:induction false} WideArm(t: Terms, gain: real)
    requires CentWide(t) ==> gain >= t.beR * t.rUnit
    ensures CentWide(t) ==> gain >= HALF_CENT
  {
  }

  lemma {:induction false} EntryPrice(t: Terms, best: real)
    requires best >= 0.0 && (CentWide(t) ==> best >= HALF_CENT)
    ensures Gain(t.side, t.entry, Round2(t.entry)) <= Highest(t, best)
  {
    hide CentWide;
    Round2Near(t.entry);
  }

  predicate ProposalOk(t: Terms, best: real, p: (real, Basis)) {
    && Gain(t.side, t.entry, p.0) <= Highest(t, best)
    && match p.1
       case Initial => false
       case Breakeven => p.0 == Round2(t.entry)
       case Trail => t.trails && Gain(t.side, t.entry, p.0) >= TrailLock(t)
  }

  /** A proposal never lies above the best price seen, and a trailing one locks
      in the distance between where it arms and where it trails. */
  lemma {:induction false} ProposeBounds(t: Terms, best: real, s: Run, b: Bar)
    requires TermsOk(t) && BarOk(b) && ScaledOk(t, best, s)
    requires Gain(t.side, t.entry, s.hwm) == best
    requires Gain(t.side, t.entry, WinEdge(t.side, b)) <= best && best >= 0.0
    requires Propose(t, s, Progress(t, b.close)).Some?
    ensures ProposalOk(t, best, Propose(t, s, Progress(t, b.close)).value)
  {
    hide Round2, Progress;
    var prog := Progress(t, b.close);
    var basis := Propose(t, s, prog).value.1;
    assert Gain(t.side, t.entry, b.close) <= best;
    if basis.Trail? {
      ProgressOrder(t, b.close, t.trailAt);
      TrailPrice(t.side, t.entry, s.hwm, t.trailDist, t.trailAt * t.rUnit);
    } else {
      if t.runnerHold && s.scaled {
        assert CentWide(t) ==> HALF_CENT <= Gain(t.side, t.entry, t.target.value);
      } else {
        ProgressOrder(t, b.close, t.beR);
        WideArm(t, Gain(t.side, t.entry, b.close));
      }
      EntryPrice(t, best);
    }
  }

  lemma {:induction false} StepSound(t: Terms, best: real, s: Run, b: Bar)
    requires TermsOk(t) && BarOk(b) && Sound(t, best, s)
    ensures Sound(t, NextBest(t, best, s, b), Step(t, s, b))
  {
    hide Round2;
    if Skips(t, s, b) { return; }
    var next := NextBest(t, best, s, b);
    var s1 := Entered(t, s, b);
    Stop0Below(t);
    ProgressOrder(t, b.close, TIME_MIN_R);
    assert ExitsOk(t, next, s1.exits);
    if Through(t.side, LoseEdge(t.side, b), s1.stop) {
      LiftedCloseOut(t, best, next, s1, b, StopLayer(s1.basis), s1.stop);
    } else if Minute(b.ts) >= FORCE_FLAT {
      LiftedCloseOut(t, best, next, s1, b, ForceFlat, b.close);
    } else if t.timeStop && b.ts - t.entryTs >= TIME_WIN * MINUTE && Progress(t, b.close) < TIME_MIN_R {
      LiftedCloseOut(t, best, next, s1, b, TimeStop, b.close);
    } else {
      StaySound(t, best, next, s1, b);
    }
  }

  lemma {:induction false} LiftedCloseOut(t: Terms, best: real, next: real, s: Run, b: Bar, layer: Layer, px: real)
    requires Sound(t, best, s) && !s.closed && best <= next
    requires forall q: nat :: ExitOk(t, next, Exit(Minute(b.ts), layer, q, px))
    ensures Sound(t, next, CloseOut(t, s, b, layer, px))
  {
    assert ExitOk(t, next, Exit(Minute(b.ts), layer, s.qtyOpen, px));
  }

  lemma {:induction false} StaySound(t: Terms, best: real, next: real, s: Run, b: Bar)
    requires TermsOk(t) && BarOk(b) && Sound(t, best, s) && !s.closed
    requires next == Max(best, Gain(t.side, t.entry, WinEdge(t.side, b)))
    ensures Sound(t, next, Ratchet(t, ScaleOut(t, s, b), b, Progress(t, b.close)))
  {
    hide Round2, Progress;
    var h := s.(hwm := Best(t.side, s.hwm, WinEdge(t.side, b)));
    assert Sound(t, next, h);
    ScaleOutSound(t, next, h, b);
    var s1 := ScaleOut(t, h, b);
    if Propose(t, s1, Progress(t, b.close)).Some? {
      ProposeBounds(t, next, s1, b);
    }
  }

  /** The best favourable move per share over the bars a run was open for. */
  function BestMove(t: Terms, bars: seq<Bar>): real
    requires t.rUnit != 0.0
  {
    if bars == [] then 0.0
    else
      var prefix := bars[..|bars| - 1];
      NextBest(t, BestMove(t, prefix), After(t, prefix), bars[|bars| - 1])
  }

  lemma {:induction false} AfterSound(t: Terms, bars: seq<Bar>)
    requires TermsOk(t) && BarsOk(bars)
    ensures Sound(t, BestMove(t, bars), After(t, bars))
  {
    if bars == [] {
      Stop0Below(t);
    } else {
      var prefix := bars[..|bars| - 1];
      AfterSound(t, prefix);
      StepSound(t, BestMove(t, prefix), After(t, prefix), bars[|bars| - 1]);
    }
  }

  lemma {:induction false} StepMfe(t: Terms, s: Run, b: Bar)
    requires t.rUnit != 0.0
    ensures Step(t, s, b).mfe
         == if Skips(t, s, b) then s.mfe else Max(s.mfe, Progress(t, WinEdge(t.side, b)))
  {
    hide Round2, Progress;
  }

  lemma {:induction false} ProgressMax(t: Terms, mfe: real, px: real)
    requires t.rUnit > 0.0
    ensures Max(mfe, Progress(t, px)) * t.rUnit == Max(mfe * t.rUnit, Gain(t.side, t.entry, px))
  {
    ProgressOrder(t, px, mfe);
    assert Progress(t, px) * t.rUnit == Gain(t.side, t.entry, px);
  }

  lemma {:induction false} MfeIsBestMove(t: Terms, bars: seq<Bar>)
    requires t.rUnit > 0.0
    ensures After(t, bars).mfe * t.rUnit == BestMove(t, bars)
  {
    hide Round2, Step, Progress;
    if bars != [] {
      var prefix, b := bars[..|bars| - 1], bars[|bars| - 1];
      MfeIsBestMove(t, prefix);
      StepMfe(t, After(t, prefix), b);
      ProgressMax(t, After(t, prefix).mfe, WinEdge(t.side, b));
    }
  }
}
