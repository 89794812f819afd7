/** The exit ladder as a function of the bars seen so far.
    One step consumes one bar; `After` folds the step over a bar sequence and
    `Final` adds the mark that values whatever is still open after the last bar.
    `replay` and `replay_hold` are two instances of `Terms`. */
module Ladder {
  import opened Direction
  import opened Numbers
  import opened Options
  import opened Rounding

  /** Timestamps are microseconds on a clock whose zero is a local midnight. */
  datatype Bar = Bar(ts: int, open: real, high: real, low: real, close: real)

  const MINUTE := 60_000_000
  const FORCE_FLAT := 14 * 60 + 50
  const TIME_WIN := 60
  const TIME_MIN_R := 0.5

  datatype Basis = Initial | Breakeven | Trail

  datatype Layer = StopHit | BreakevenHit | TrailHit | ForceFlat | TimeStop | TargetHit | EodMark

  datatype Exit = Exit(minute: int, layer: Layer, qty: nat, px: real)

  /** What a caller fixes before the first bar. `target` is absent on the ladder
      without a scale-out price; `trails` is false when no ATR is known. */
  datatype Terms = Terms(side: Side, entryTs: int, entry: real, qty: nat, rUnit: real,
                         target: Option<real>, trailDist: real, trails: bool,
                         trailAt: real, beR: real,
                         timeStop: bool, scaleOut: bool, runnerHold: bool)

  datatype Run = Run(stop: real, basis: Basis, hwm: real, mfe: real, qtyOpen: nat,
                     scaled: bool, closed: bool, pnl: real, exits: seq<Exit>)

  function Minute(ts: int): int { (ts / MINUTE) % 1440 }

  function First(t: Terms): int { t.entryTs - t.entryTs % MINUTE }

  /** Favourable distance from entry to px, per share. */
  function Gain(side: Side, entry: real, px: real): real {
    if side.Long? then px - entry else entry - px
  }

  /** The price `d` on the losing side of `from`. */
  function Away(side: Side, from: real, d: real): real {
    if side.Long? then from - d else from + d
  }

  function LoseEdge(side: Side, b: Bar): real { if side.Long? then b.low else b.high }

  function WinEdge(side: Side, b: Bar): real { if side.Long? then b.high else b.low }

  function Best(side: Side, a: real, b: real): real { if side.Long? then Max(a, b) else Min(a, b) }

  /** edge has reached level from the winning side of it. */
  predicate Through(side: Side, edge: real, level: real) {
    if side.Long? then edge <= level else edge >= level
  }

  predicate Tighter(side: Side, a: real, b: real) { if side.Long? then a > b else a < b }

  predicate AtLeastAsTight(side: Side, a: real, b: real) { if side.Long? then a >= b else a <= b }

  function Stop0(t: Terms): real { Round2(Away(t.side, t.entry, t.rUnit)) }

  function Start(t: Terms): Run {
    Run(Stop0(t), Initial, t.entry, 0.0, t.qty, false, false, 0.0, [])
  }

  function StopLayer(b: Basis): Layer {
    match b case Initial => StopHit case Breakeven => BreakevenHit case Trail => TrailHit
  }

  function Sell(t: Terms, s: Run, minute: int, layer: Layer, qty: nat, px: real): Run
    requires qty <= s.qtyOpen
  {
    s.(pnl := s.pnl + Gain(t.side, t.entry, px) * qty as real,
       exits := s.exits + [Exit(minute, layer, qty, px)],
       qtyOpen := s.qtyOpen - qty)
  }

  function CloseOut(t: Terms, s: Run, b: Bar, layer: Layer, px: real): Run {
    Sell(t, s, Minute(b.ts), layer, s.qtyOpen, px).(closed := true)
  }

  predicate TargetReached(t: Terms, b: Bar) {
    t.target.Some? && Through(t.side, t.target.value, WinEdge(t.side, b))
  }

  function ScaleOut(t: Terms, s: Run, b: Bar): Run {
    if s.scaled || !TargetReached(t, b) then s
    else
      var half := if t.scaleOut then s.qtyOpen / 2 else 0;
      (if half > 0 then Sell(t, s, Minute(b.ts), TargetHit, half, t.target.value) else s).(scaled := true)
  }

  function Propose(t: Terms, s: Run, prog: real): Option<(real, Basis)> {
    if t.runnerHold && s.scaled then
      if s.basis.Initial? then Some((Round2(t.entry), Breakeven)) else None
    else if prog >= t.trailAt && t.trails then
      Some((Round2(Away(t.side, s.hwm, t.trailDist)), Trail))
    else if prog >= t.beR && s.basis.Initial? then
      Some((Round2(t.entry), Breakeven))
    else None
  }

  /** Lift the high-water mark, then accept the proposed stop only if tighter. */
  function Ratchet(t: Terms, s: Run, b: Bar, prog: real): Run {
    var s1 := s.(hwm := Best(t.side, s.hwm, WinEdge(t.side, b)));
    match Propose(t, s1, prog)
    case Some((px, basis)) => if Tighter(t.side, px, s1.stop) then s1.(stop := px, basis := basis) else s1
    case None => s1
  }

  /** Favourable distance in units of initial risk. */
  function Progress(t: Terms, px: real): real
    requires t.rUnit != 0.0
  {
    Gain(t.side, t.entry, px) / t.rUnit
  }

  function Step(t: Terms, s: Run, b: Bar): Run
    requires t.rUnit != 0.0
  {
    if s.closed || b.ts < First(t) then s
    else
      var s1 := s.(mfe := Max(s.mfe, Progress(t, WinEdge(t.side, b))));
      var prog := Progress(t, b.close);
      if Through(t.side, LoseEdge(t.side, b), s1.stop) then CloseOut(t, s1, b, StopLayer(s1.basis), s1.stop)
      else if Minute(b.ts) >= FORCE_FLAT then CloseOut(t, s1, b, ForceFlat, b.close)
      else if t.timeStop && b.ts - t.entryTs >= TIME_WIN * MINUTE && prog < TIME_MIN_R then
        CloseOut(t, s1, b, TimeStop, b.close)
      else Ratchet(t, ScaleOut(t, s1, b), b, prog)
  }

  /** State after the bars seen so far. */
  function After(t: Terms, bars: seq<Bar>): Run
    requires t.rUnit != 0.0
  {
    if bars == [] then Start(t)
    else Step(t, After(t, bars[..|bars| - 1]), bars[|bars| - 1])
  }

  /** State after all bars, with any open quantity marked at the last close. */
  function Final(t: Terms, bars: seq<Bar>): Run
    requires t.rUnit != 0.0
  {
    var s := After(t, bars);
    if s.qtyOpen > 0 && bars != [] then
      var last := bars[|bars| - 1];
      Sell(t, s, Minute(last.ts), EodMark, s.qtyOpen, last.close)
    else s
  }

  /** The bar whose close is the "simply hold to force-flat" benchmark. */
  predicate IsFlatBar(first: int, b: Bar) { Minute(b.ts) >= FORCE_FLAT && b.ts >= first }

  function FlatClose(first: int, bars: seq<Bar>): Option<real> {
    if bars == [] then None
    else if IsFlatBar(first, bars[0]) then Some(bars[0].close)
    else FlatClose(first, bars[1..])
  }

  datatype Report = Report(pnl: real, r: real, rUnit: real, stop0: Option<real>,
                           exits: seq<Exit>, mfeR: real, closeR: Option<real>)

  /** P&L in units of initial risk. */
  function RMultiple(pnl: real, qty: nat, rUnit: real): real
    requires rUnit != 0.0
  {
    if qty == 0 then 0.0 else Round2(pnl / (qty as real * rUnit))
  }

  /** The dictionary both replays return; only `replay` fills stop0. */
  function Summary(t: Terms, bars: seq<Bar>, showStop: bool): Report
    requires t.rUnit != 0.0
  {
    var s := Final(t, bars);
    Report(Round2(s.pnl),
           RMultiple(s.pnl, t.qty, t.rUnit),
           Round4(t.rUnit),
           if showStop && s.exits == [] then Some(s.stop) else None,
           s.exits,
           Round3(s.mfe),
           match FlatClose(First(t), bars)
           case Some(c) => Some(Round3(Progress(t, c)))
           case None => None)
  }

  /** Some bar is at or after the entry minute. */
  predicate Reached(first: int, bars: seq<Bar>) { exists i :: 0 <= i < |bars| && bars[i].ts >= first }

  /** The report when no bar reaches the entry minute: only the mark at the last close. */
  function Idle(t: Terms, bars: seq<Bar>, showStop: bool): Report {
    if bars == [] || t.qty == 0 then
      Report(Round2(0.0), if t.qty == 0 || t.rUnit == 0.0 then 0.0 else RMultiple(0.0, t.qty, t.rUnit), Round4(t.rUnit),
             if showStop then Some(Stop0(t)) else None, [], Round3(0.0), None)
    else
      var last := bars[|bars| - 1];
      var pnl := Gain(t.side, t.entry, last.close) * t.qty as real;
      Report(Round2(pnl), if t.rUnit == 0.0 then 0.0 else RMultiple(pnl, t.qty, t.rUnit), Round4(t.rUnit), None,
             [Exit(Minute(last.ts), EodMark, t.qty, last.close)], Round3(0.0), None)
  }

  /** What a replay returns; None is the division by a zero risk unit, which the first bar
      at or after the entry minute makes. */
  function Result(t: Terms, bars: seq<Bar>, showStop: bool): Option<Report> {
    if t.rUnit != 0.0 then Some(Summary(t, bars, showStop))
    else if Reached(First(t), bars) then None
    else Some(Idle(t, bars, showStop))
  }

  lemma {:induction false} UntouchedBefore(t: Terms, bars: seq<Bar>)
    requires t.rUnit != 0.0 && !Reached(First(t), bars)
    ensures After(t, bars) == Start(t) && FlatClose(First(t), bars) == None
    decreases |bars|
  {
    hide Round2;
    if bars != [] {
      var front := bars[..|bars| - 1];
      forall i | 0 <= i < |front| ensures front[i].ts < First(t) {
        assert front[i] == bars[i];
      }
      UntouchedBefore(t, front);
      assert bars[|bars| - 1].ts < First(t);
    }
    NoFlatBefore(t, bars);
  }

  lemma {:induction false} NoFlatBefore(t: Terms, bars: seq<Bar>)
    requires !Reached(First(t), bars)
    ensures FlatClose(First(t), bars) == None
    decreases |bars|
  {
    if bars != [] {
      assert bars[0].ts < First(t);
      forall i | 0 <= i < |bars[1..]| ensures bars[1..][i].ts < First(t) {
        assert bars[1..][i] == bars[i + 1];
      }
      NoFlatBefore(t, bars[1..]);
    }
  }

  /** With a risk unit too, bars that stop short of the entry minute only mark. */
  lemma {:induction false} IdleIsSummary(t: Terms, bars: seq<Bar>, showStop: bool)
    requires t.rUnit != 0.0 && !Reached(First(t), bars)
    ensures Summary(t, bars, showStop) == Idle(t, bars, showStop)
  {
    hide Round2, Round3, Round4, After, Minute;
    UntouchedBefore(t, bars);
    if bars != [] && t.qty > 0 {
      var last := bars[|bars| - 1];
      var gain := Gain(t.side, t.entry, last.close) * t.qty as real;
      var s := Final(t, bars);
      assert s.exits == [Exit(Minute(last.ts), EodMark, t.qty, last.close)];
      assert s.pnl == gain;
    }
  }

  // ------------------------------------------------------------ assumptions

  predicate BarOk(b: Bar) {
    b.low <= b.open <= b.high && b.low <= b.close <= b.high
  }

  predicate BarsOk(bars: seq<Bar>) { forall b <- bars :: BarOk(b) }

  /** A real position: something at risk, targets on the winning side, thresholds
      and trail distance not negative. */
  predicate TermsOk(t: Terms) {
    && t.rUnit > 0.0
    && t.trailDist >= 0.0
    && t.trailAt >= 0.0
    && t.beR >= 0.0
    && (t.target.Some? ==> Gain(t.side, t.entry, t.target.value) >= -0.00005)
  }

  lemma {:induction false} ClosedStays(t: Terms, bars: seq<Bar>, n: nat)
    requires t.rUnit != 0.0 && n <= |bars|
    requires After(t, bars[..n]).closed
    ensures After(t, bars) == After(t, bars[..n])
  {
    if n < |bars| {
      assert bars[..|bars| - 1][..n] == bars[..n];
      ClosedStays(t, bars[..|bars| - 1], n);
    } else {
      assert bars[..n] == bars;
    }
  }
}
