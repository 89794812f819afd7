/** Two ladders on the same bars that differ in the width of their trail, and exactly when
    the wider one never closes first. */
module LadderTrails {
  import opened Direction
  import opened Numbers
  import opened Options
  import opened Rounding
  import opened Ladder
  import opened LadderFacts

  const CENT := 0.01

  /** tb is ta with a trail at least as wide. */
  predicate Widens(ta: Terms, tb: Terms) {
    tb == ta.(trailDist := tb.trailDist) && 0.0 <= ta.trailDist <= tb.trailDist
  }

  function TrailStop(t: Terms, hwm: real): real { Round2(Away(t.side, hwm, t.trailDist)) }

  /** Armed with this high-water mark, the narrow trail moves the stop but not to breakeven
      and the wide trail does not move it: from here on only the wide ladder can still take
      the breakeven stop. */
  predicate BlocksAt(ta: Terms, tb: Terms, hwm: real) {
    && ta.trails && Gain(ta.side, ta.entry, hwm) >= ta.trailAt * ta.rUnit
    && Tighter(ta.side, TrailStop(ta, hwm), Stop0(ta))
    && Tighter(ta.side, Round2(ta.entry), TrailStop(ta, hwm))
    && !Tighter(ta.side, TrailStop(tb, hwm), Stop0(ta))
  }

  /** The price at which the trail arms. */
  function ArmPrice(t: Terms): real { Away(t.side, t.entry, -(t.trailAt * t.rUnit)) }

  /** BlocksAt for some high-water mark, read off the terms: at the arming price if the
      narrow trail moves the stop there, else one cent above the initial stop. */
  predicate Blocks(ta: Terms, tb: Terms) {
    ta.trails &&
    if Tighter(ta.side, TrailStop(ta, ArmPrice(ta)), Stop0(ta)) then BlocksAt(ta, tb, ArmPrice(ta))
    else ta.trailDist < tb.trailDist && Tighter(ta.side, Round2(ta.entry), Away(ta.side, Stop0(ta), -CENT))
  }

  // -------------------------------------------------- the two forms agree

  /** Whole-cent prices that differ do so by a cent. */
  lemma {:induction false} CentApart(x: real, y: real)
    requires Round2(x) < Round2(y)
    ensures Round2(x) + CENT <= Round2(y)
  {
    hide RoundEven;
    Hundredths(RoundEven(x * 100.0), RoundEven(y * 100.0));
  }

  lemma {:induction false} Hundredths(k: int, l: int)
    requires k as real / 100.0 < l as real / 100.0
    ensures k as real / 100.0 + CENT <= l as real / 100.0
  {
    assert k as real < l as real;
    assert k + 1 <= l;
    assert (k + 1) as real <= l as real;
  }

  /** Just past the half cent above (below) a whole-cent price rounds to the next cent;
      anything short of it does not. */
  lemma {:induction false} PastHalfCent(z: real, d: real)
    requires 0.0 < d < HALF_CENT
    ensures Round2(Round2(z) + HALF_CENT + d) == Round2(z) + CENT
    ensures Round2(Round2(z) - HALF_CENT - d) == Round2(z) - CENT
  {
    var k := RoundEven(z * 100.0);
    assert Round2(z) * 100.0 == k as real;
    assert (Round2(z) + HALF_CENT + d) * 100.0 == k as real + 0.5 + d * 100.0;
    assert (Round2(z) - HALF_CENT - d) * 100.0 == (k - 1) as real + 0.5 - d * 100.0;
    assert (k as real + 0.5 + d * 100.0).Floor == k;
    assert ((k - 1) as real + 0.5 - d * 100.0).Floor == k - 1;
  }

  lemma {:induction false} ShortOfHalfCent(z: real, x: real)
    ensures x < Round2(z) + HALF_CENT ==> Round2(x) <= Round2(z)
    ensures x > Round2(z) - HALF_CENT ==> Round2(x) >= Round2(z)
  {
    hide Round2;
    Round2Near(x);
    if Round2(x) > Round2(z) {
      CentApart(z, x);
    } else if Round2(x) < Round2(z) {
      CentApart(x, z);
    }
  }

  lemma {:induction false} TrailMonotone(t: Terms, h: real, hwm: real)
    requires Gain(t.side, t.entry, h) <= Gain(t.side, t.entry, hwm)
    ensures AtLeastAsTight(t.side, TrailStop(t, hwm), TrailStop(t, h))
  {
    hide Round2;
    if t.side.Long? {
      Round2Monotone(Away(t.side, h, t.trailDist), Away(t.side, hwm, t.trailDist));
    } else {
      Round2Monotone(Away(t.side, hwm, t.trailDist), Away(t.side, h, t.trailDist));
    }
  }

  lemma {:induction false} SomewhereBlocks(ta: Terms, tb: Terms, hwm: real)
    requires Widens(ta, tb) && BlocksAt(ta, tb, hwm)
    ensures Blocks(ta, tb)
  {
    hide Round2;
    var arm := ArmPrice(ta);
    TrailMonotone(ta, arm, hwm);
    TrailMonotone(tb, arm, hwm);
    if !Tighter(ta.side, TrailStop(ta, arm), Stop0(ta)) {
      if ta.side.Long? {
        CentApart(Away(ta.side, ta.entry, ta.rUnit), Away(ta.side, hwm, ta.trailDist));
      } else {
        CentApart(Away(ta.side, hwm, ta.trailDist), Away(ta.side, ta.entry, ta.rUnit));
      }
    }
  }

  /** A high-water mark that blocks, when there is one. */
  function Blocker(ta: Terms, tb: Terms): real {
    if Tighter(ta.side, TrailStop(ta, ArmPrice(ta)), Stop0(ta)) then ArmPrice(ta)
    else
      var gap := tb.trailDist - ta.trailDist;
      var d := if gap < HALF_CENT then gap / 2.0 else HALF_CENT / 2.0;
      Away(ta.side, Stop0(ta), -(HALF_CENT + d + ta.trailDist))
  }

  lemma {:induction false} BlockerBlocks(ta: Terms, tb: Terms)
    requires Widens(ta, tb) && Blocks(ta, tb)
    ensures BlocksAt(ta, tb, Blocker(ta, tb))
  {
    hide Round2;
    var arm, hwm := ArmPrice(ta), Blocker(ta, tb);
    if !Tighter(ta.side, TrailStop(ta, arm), Stop0(ta)) {
      var gap := tb.trailDist - ta.trailDist;
      var d := if gap < HALF_CENT then gap / 2.0 else HALF_CENT / 2.0;
      var z := Away(ta.side, ta.entry, ta.rUnit);
      PastHalfCent(z, d);
      ShortOfHalfCent(z, Away(ta.side, hwm, tb.trailDist));
      if Gain(ta.side, ta.entry, hwm) < ta.trailAt * ta.rUnit {
        TrailMonotone(ta, hwm, arm);
      }
    }
  }

  // ------------------------------------------------------------ sufficient

  /** Same position except for where the stop is. */
  predicate SameButStop(sa: Run, sb: Run) {
    sb == sa.(stop := sb.stop, basis := sb.basis)
  }

  predicate Ahead(t: Terms, sa: Run, sb: Run) {
    && AtLeastAsTight(t.side, sa.stop, sb.stop)
    && (sa.basis.Initial? ==> sb.basis.Initial? && sa.stop == Stop0(t))
    && (sb.basis.Initial? ==> sb.stop == Stop0(t))
    && (!sa.basis.Initial? && sb.basis.Initial? ==> AtLeastAsTight(t.side, sa.stop, Round2(t.entry)))
  }

  /** The narrow ladder is closed, or both are open and its stop is at least as tight. */
  predicate Outlasts(t: Terms, sa: Run, sb: Run) {
    && (sb.closed ==> sa.closed)
    && (!sa.closed ==> SameButStop(sa, sb) && Ahead(t, sa, sb))
  }

  /** The proposals at an armed bar. */
  lemma {:induction false} ArmedTrails(ta: Terms, tb: Terms, hwm: real, close: real)
    requires Widens(ta, tb) && !Blocks(ta, tb) && ta.rUnit > 0.0 && ta.trails
    requires Gain(ta.side, ta.entry, close) <= Gain(ta.side, ta.entry, hwm)
    requires Progress(ta, close) >= ta.trailAt
    ensures AtLeastAsTight(ta.side, TrailStop(ta, hwm), TrailStop(tb, hwm))
    ensures !BlocksAt(ta, tb, hwm) && Gain(ta.side, ta.entry, hwm) >= ta.trailAt * ta.rUnit
  {
    hide Round2, Progress, Blocks, BlocksAt;
    ProgressOrder(ta, close, ta.trailAt);
    if ta.side.Long? {
      Round2Monotone(Away(ta.side, hwm, tb.trailDist), Away(ta.side, hwm, ta.trailDist));
    } else {
      Round2Monotone(Away(ta.side, hwm, ta.trailDist), Away(ta.side, hwm, tb.trailDist));
    }
    if BlocksAt(ta, tb, hwm) {
      SomewhereBlocks(ta, tb, hwm);
    }
  }

  lemma {:induction false} RatchetAhead(ta: Terms, tb: Terms, sa: Run, sb: Run, b: Bar)
    requires Widens(ta, tb) && !Blocks(ta, tb) && ta.rUnit > 0.0 && BarOk(b)
    requires SameButStop(sa, sb) && Ahead(ta, sa, sb)
    ensures var prog := Progress(ta, b.close);
      && SameButStop(Ratchet(ta, sa, b, prog), Ratchet(tb, sb, b, prog))
      && Ahead(ta, Ratchet(ta, sa, b, prog), Ratchet(tb, sb, b, prog))
  {
    hide Round2, Progress, Blocks;
    var hwm := Best(ta.side, sa.hwm, WinEdge(ta.side, b));
    if Progress(ta, b.close) >= ta.trailAt && ta.trails {
      ArmedTrails(ta, tb, hwm, b.close);
    }
  }

  lemma {:induction false} StepOutlasts(ta: Terms, tb: Terms, sa: Run, sb: Run, b: Bar)
    requires Widens(ta, tb) && !Blocks(ta, tb) && ta.rUnit > 0.0 && BarOk(b)
    requires Outlasts(ta, sa, sb)
    ensures Outlasts(ta, Step(ta, sa, b), Step(tb, sb, b))
  {
    hide Round2, Ratchet, Stop0, Gain, Blocks;
    assert forall px :: Progress(ta, px) == Progress(tb, px);
    if !Skips(ta, sa, b) {
      var sa1, sb1 := Entered(ta, sa, b), Entered(tb, sb, b);
      assert SameButStop(sa1, sb1);
      assert SameButStop(ScaleOut(ta, sa1, b), ScaleOut(tb, sb1, b));
      RatchetAhead(ta, tb, ScaleOut(ta, sa1, b), ScaleOut(tb, sb1, b), b);
      RatchetOpen(ta, ScaleOut(ta, sa1, b), b, Progress(ta, b.close));
      RatchetOpen(tb, ScaleOut(tb, sb1, b), b, Progress(ta, b.close));
    }
  }

  lemma {:induction false} RatchetOpen(t: Terms, s: Run, b: Bar, prog: real)
    ensures Ratchet(t, s, b, prog).closed == s.closed
  {
    hide Round2;
  }

  /** The wider trail is never tighter while both are open, so it never closes on an
      earlier bar: whenever it has closed, the narrower one has too. */
  lemma {:induction false} WiderTrailOutlasts(ta: Terms, tb: Terms, bars: seq<Bar>)
    requires Widens(ta, tb) && !Blocks(ta, tb) && ta.rUnit > 0.0 && BarsOk(bars)
    ensures Outlasts(ta, After(ta, bars), After(tb, bars))
  {
    hide Round2, Step, Blocks;
    if bars != [] {
      var prefix := bars[..|bars| - 1];
      WiderTrailOutlasts(ta, tb, prefix);
      StepOutlasts(ta, tb, After(ta, prefix), After(tb, prefix), bars[|bars| - 1]);
    }
  }

  // ------------------------------------------------------------- necessary

  /** u shares with t what the trails depend on: side, entry, risk unit and the trail. */
  predicate Kin(t: Terms, u: Terms) {
    u == t.(entryTs := u.entryTs, qty := u.qty, target := u.target, beR := u.beR, timeStop := u.timeStop,
            scaleOut := u.scaleOut, runnerHold := u.runnerHold)
  }

  function FlatBar(ts: int, px: real): Bar { Bar(ts, px, px, px, px) }

  /** Terms that let a blocked ladder take the breakeven stop: a runner_hold whose target
      lies just past the high-water mark. */
  function FlipTerms(t: Terms, hwm: real): Terms {
    t.(entryTs := 0, target := Some(Away(t.side, hwm, -1.0)), timeStop := false, scaleOut := false, runnerHold := true)
  }

  /** Arm, reach the target, then fall back to the entry price. */
  function FlipBars(t: Terms, hwm: real): seq<Bar> {
    [FlatBar(0, hwm), FlatBar(MINUTE, Away(t.side, hwm, -1.0)), FlatBar(2 * MINUTE, Round2(t.entry))]
  }

  lemma {:induction false} ThreeSteps(t: Terms, bars: seq<Bar>)
    requires t.rUnit != 0.0 && |bars| == 3
    ensures After(t, bars) == Step(t, Step(t, Step(t, Start(t), bars[0]), bars[1]), bars[2])
  {
    hide Step, Round2;
    assert bars[..2][..1] == [bars[0]] && bars[..2][1] == bars[1] && [bars[0]][..0] == [];
    assert After(t, [bars[0]]) == Step(t, Start(t), bars[0]);
  }

  /** What BlocksAt says of the five prices, as gains over the entry. */
  lemma {:induction false} PricesInOrder(ta: Terms, tb: Terms, hwm: real)
    requires Widens(ta, tb) && ta.rUnit > 0.0 && ta.trailAt >= 0.0 && BlocksAt(ta, tb, hwm)
    ensures Gain(ta.side, ta.entry, hwm) >= 0.0
    ensures !Through(ta.side, hwm, Stop0(ta)) && !Through(ta.side, hwm, TrailStop(ta, hwm))
    ensures Tighter(ta.side, Round2(ta.entry), Stop0(ta))
    ensures Progress(ta, hwm) >= ta.trailAt
  {
    hide Round2, Progress;
    ProgressOrder(ta, hwm, ta.trailAt);
    assert ta.trailAt * ta.rUnit >= 0.0;
    Round2Near(ta.entry);
    if ta.side.Long? {
      CentApart(Away(ta.side, hwm, ta.trailDist), ta.entry);
    } else {
      CentApart(ta.entry, Away(ta.side, hwm, ta.trailDist));
    }
  }

  /** The first two bars: the trail's verdict at the mark, then what the target allows. */
  lemma {:induction false} FirstBar(t: Terms, u: Terms, hwm: real)
    requires u == FlipTerms(t, hwm) && u.rUnit > 0.0 && u.trails
    requires Gain(u.side, u.entry, hwm) >= 0.0 && Progress(u, hwm) >= u.trailAt && !Through(u.side, hwm, Stop0(u))
    ensures var s := Step(u, Start(u), FlatBar(0, hwm));
      var moves := Tighter(u.side, TrailStop(u, hwm), Stop0(u));
      && !s.closed && !s.scaled && s.hwm == hwm && s.qtyOpen == u.qty
      && s.stop == (if moves then TrailStop(u, hwm) else Stop0(u))
      && s.basis == (if moves then Trail else Initial)
  {
    hide Round2, Progress;
  }

  lemma {:induction false} SecondBar(t: Terms, u: Terms, hwm: real, s: Run)
    requires u == FlipTerms(t, hwm) && u.rUnit != 0.0 && !s.closed && !s.scaled
    requires !Through(u.side, hwm, s.stop)
    ensures var r := Step(u, s, FlatBar(MINUTE, Away(u.side, hwm, -1.0)));
      var moves := s.basis.Initial? && Tighter(u.side, Round2(u.entry), s.stop);
      !r.closed && r.stop == if moves then Round2(u.entry) else s.stop
  {
    hide Round2, Progress;
  }

  lemma {:induction false} ThirdBar(t: Terms, u: Terms, hwm: real, s: Run)
    requires u == FlipTerms(t, hwm) && u.rUnit != 0.0 && !s.closed
    ensures Step(u, s, FlatBar(2 * MINUTE, Round2(u.entry))).closed == Through(u.side, Round2(u.entry), s.stop)
  {
    hide Round2, Progress, Ratchet;
    var b := FlatBar(2 * MINUTE, Round2(u.entry));
    assert Minute(b.ts) == 2;
    RatchetOpen(u, ScaleOut(u, Entered(u, s, b), b), b, Progress(u, b.close));
  }

  /** Wherever the narrow trail blocks, these bars close the wide ladder first. */
  lemma {:induction false} BlockedClosesLater(ta: Terms, tb: Terms, hwm: real)
    requires Widens(ta, tb) && TermsOk(ta) && BlocksAt(ta, tb, hwm)
    ensures var ua, ub := FlipTerms(ta, hwm), FlipTerms(tb, hwm);
      && Kin(ta, ua) && TermsOk(ua) && ub == ua.(trailDist := tb.trailDist) && BarsOk(FlipBars(ta, hwm))
      && After(ub, FlipBars(ta, hwm)).closed && !After(ua, FlipBars(ta, hwm)).closed
  {
    var ua, ub, bars := FlipTerms(ta, hwm), FlipTerms(tb, hwm), FlipBars(ta, hwm);
    PricesInOrder(ta, tb, hwm);
    assert Progress(ua, hwm) == Progress(ta, hwm) == Progress(ub, hwm);
    hide Round2, Step, After, Progress;
    ThreeSteps(ua, bars);
    ThreeSteps(ub, bars);
    FirstBar(ta, ua, hwm);
    FirstBar(tb, ub, hwm);
    var sa, sb := Step(ua, Start(ua), bars[0]), Step(ub, Start(ub), bars[0]);
    SecondBar(ta, ua, hwm, sa);
    SecondBar(tb, ub, hwm, sb);
    ThirdBar(ta, ua, hwm, Step(ua, sa, bars[1]));
    ThirdBar(tb, ub, hwm, Step(ub, sb, bars[1]));
  }

  /** Exactly when: the wider trail outlasts the narrower one on all bars and for every way
      of taking the rest of the position off if and only if the narrow trail does not block,
      which the terms alone decide. The same holds for the mere order of closing. */
  lemma {:induction false} WiderTrailOutlastsIff(ta: Terms, tb: Terms)
    requires Widens(ta, tb) && TermsOk(ta)
    ensures !Blocks(ta, tb) <==> forall u: Terms, bars: seq<Bar> :: Kin(ta, u) && TermsOk(u) && BarsOk(bars) ==>
      Outlasts(u, After(u, bars), After(u.(trailDist := tb.trailDist), bars))
    ensures !Blocks(ta, tb) <==> forall u: Terms, bars: seq<Bar> :: Kin(ta, u) && TermsOk(u) && BarsOk(bars) ==>
      (After(u.(trailDist := tb.trailDist), bars).closed ==> After(u, bars).closed)
  {
    hide After, Blocks;
    if Blocks(ta, tb) {
      BlockerBlocks(ta, tb);
      var hwm := Blocker(ta, tb);
      BlockedClosesLater(ta, tb, hwm);
      var ua := FlipTerms(ta, hwm);
      hide FlipTerms, Kin, TermsOk;
      assert !Outlasts(ua, After(ua, FlipBars(ta, hwm)), After(ua.(trailDist := tb.trailDist), FlipBars(ta, hwm)));
    } else {
      forall u: Terms, bars: seq<Bar> | Kin(ta, u) && TermsOk(u) && BarsOk(bars)
        ensures Outlasts(u, After(u, bars), After(u.(trailDist := tb.trailDist), bars))
      {
        KinBlock(ta, tb, u);
        WiderTrailOutlasts(u, u.(trailDist := tb.trailDist), bars);
      }
    }
  }

  lemma {:induction false} KinBlock(ta: Terms, tb: Terms, u: Terms)
    requires Kin(ta, u)
    ensures Blocks(u, u.(trailDist := tb.trailDist)) == Blocks(ta, ta.(trailDist := tb.trailDist))
  {
    hide Round2, BlocksAt;
    var v, w := u.(trailDist := tb.trailDist), ta.(trailDist := tb.trailDist);
    assert ArmPrice(u) == ArmPrice(ta) && Stop0(u) == Stop0(ta);
    assert TrailStop(u, ArmPrice(u)) == TrailStop(ta, ArmPrice(ta));
    BlocksSame(ta, w, u, v, ArmPrice(u));
  }

  lemma {:induction false} BlocksSame(ta: Terms, tb: Terms, ua: Terms, ub: Terms, hwm: real)
    requires Kin(ta, ua) && Kin(tb, ub)
    ensures BlocksAt(ta, tb, hwm) == BlocksAt(ua, ub, hwm)
  {
    hide Round2;
    assert Stop0(ua) == Stop0(ta);
    assert TrailStop(ua, hwm) == TrailStop(ta, hwm) && TrailStop(ub, hwm) == TrailStop(tb, hwm);
  }

  // ------------------------------------------------- on the very same terms

  const DAY := 1440 * MINUTE

  /** The first midnight after the entry. */
  function Midnight(t: Terms): int { (t.entryTs / DAY + 1) * DAY }

  lemma {:induction false} AfterMidnight(t: Terms, k: nat)
    requires k < 1440
    ensures Minute(Midnight(t) + k * MINUTE) == k && Midnight(t) + k * MINUTE >= First(t)
  {
    var n := t.entryTs / DAY + 1;
    assert Midnight(t) + k * MINUTE == (n * 1440 + k) * MINUTE;
    assert (n * 1440 + k) * MINUTE / MINUTE == n * 1440 + k;
    assert (n * 1440 + k) % 1440 == k;
  }

  /** The close at which the breakeven stop falls due. */
  function BreakevenPrice(t: Terms): real { Away(t.side, t.entry, -(t.beR * t.rUnit)) }

  /** How far the last of the crossing bars reaches back. */
  function Touch(t: Terms): real {
    var px, e := BreakevenPrice(t), Round2(t.entry);
    if t.side.Long? then Min(px, e) else Max(px, e)
  }

  /** Arm, fall back to the breakeven threshold, then touch the entry price. */
  function CrossBars(t: Terms, hwm: real): seq<Bar> {
    var px, e := BreakevenPrice(t), Round2(t.entry);
    [FlatBar(Midnight(t), hwm), FlatBar(Midnight(t) + MINUTE, px),
     Bar(Midnight(t) + 2 * MINUTE, px, Max(px, e), Min(px, e), px)]
  }

  predicate Quiet(t: Terms, s: Run, b: Bar)
    requires t.rUnit != 0.0
  {
    && !s.closed && b.ts >= First(t) && Minute(b.ts) < FORCE_FLAT && Progress(t, b.close) >= TIME_MIN_R
    && !Through(t.side, LoseEdge(t.side, b), s.stop)
  }

  lemma {:induction false} QuietStep(t: Terms, s: Run, b: Bar)
    requires t.rUnit != 0.0 && !t.runnerHold && Quiet(t, s, b)
    ensures var r, u := Step(t, s, b), Ratchet(t, s, b, Progress(t, b.close));
      !r.closed && r.stop == u.stop && r.basis == u.basis && r.hwm == u.hwm
  {
    hide Round2, Progress, Minute;
  }

  lemma {:induction false} StopStep(t: Terms, s: Run, b: Bar)
    requires t.rUnit != 0.0 && !s.closed && b.ts >= First(t) && Through(t.side, LoseEdge(t.side, b), s.stop)
    ensures Step(t, s, b).closed
  {
    hide Round2, Progress, Minute;
  }

  /** Breakeven falls due before the trail arms and above the time stop's floor, and the
      runner is not held. */
  predicate BreakevenFirst(t: Terms) { TIME_MIN_R <= t.beR < t.trailAt && !t.runnerHold }

  lemma {:induction false} AtBreakeven(t: Terms)
    requires t.rUnit > 0.0 && BreakevenFirst(t)
    ensures Progress(t, BreakevenPrice(t)) == t.beR
    ensures 0.0 < Gain(t.side, t.entry, BreakevenPrice(t)) <= t.trailAt * t.rUnit
  {
    var r := t.rUnit;
    assert Gain(t.side, t.entry, BreakevenPrice(t)) == t.beR * r;
    assert t.beR * r / r == t.beR;
    MulMono(t.beR, t.trailAt, r);
    MulMono(TIME_MIN_R, t.beR, r);
  }

  /** Where the crossing bars lie against the stops. */
  lemma {:induction false} CrossLevels(ta: Terms, tb: Terms, hwm: real)
    requires Widens(ta, tb) && ta.rUnit > 0.0 && BlocksAt(ta, tb, hwm) && BreakevenFirst(ta)
    ensures !Through(ta.side, BreakevenPrice(ta), Stop0(ta))
    ensures !Through(ta.side, BreakevenPrice(ta), TrailStop(ta, hwm))
    ensures !Through(ta.side, Touch(ta), TrailStop(ta, hwm)) && Through(ta.side, Touch(ta), Round2(ta.entry))
  {
    Round2Near(ta.entry);
    AtBreakeven(ta);
    var px, e, s, w := BreakevenPrice(ta), Round2(ta.entry), TrailStop(ta, hwm), Stop0(ta);
    if ta.side.Long? {
      CentApart(Away(ta.side, hwm, ta.trailDist), ta.entry);
    } else {
      CentApart(ta.entry, Away(ta.side, hwm, ta.trailDist));
    }
    assert Touch(ta) == if ta.side.Long? then Min(px, e) else Max(px, e);
    hide *;
  }

  lemma {:induction false} CrossBarsOk(t: Terms, hwm: real)
    ensures BarsOk(CrossBars(t, hwm))
  {
    hide Round2, BreakevenPrice, Midnight;
  }

  lemma {:induction false} CrossFirst(t: Terms, hwm: real)
    requires t.rUnit > 0.0 && t.trails && BreakevenFirst(t)
    requires Gain(t.side, t.entry, hwm) >= 0.0 && Progress(t, hwm) >= t.trailAt && !Through(t.side, hwm, Stop0(t))
    ensures var s := Step(t, Start(t), FlatBar(Midnight(t), hwm));
      var moves := Tighter(t.side, TrailStop(t, hwm), Stop0(t));
      && !s.closed && s.hwm == hwm
      && s.stop == (if moves then TrailStop(t, hwm) else Stop0(t)) && s.basis == (if moves then Trail else Initial)
  {
    AfterMidnight(t, 0);
    hide Round2, Progress, Minute, Midnight, Step;
    QuietStep(t, Start(t), FlatBar(Midnight(t), hwm));
  }

  lemma {:induction false} CrossSecond(t: Terms, hwm: real, s: Run)
    requires t.rUnit > 0.0 && BreakevenFirst(t) && !s.closed && s.hwm == hwm
    requires Progress(t, BreakevenPrice(t)) == t.beR && !Through(t.side, BreakevenPrice(t), s.stop)
    ensures var r := Step(t, s, FlatBar(Midnight(t) + MINUTE, BreakevenPrice(t)));
      var moves := s.basis.Initial? && Tighter(t.side, Round2(t.entry), s.stop);
      !r.closed && r.stop == if moves then Round2(t.entry) else s.stop
  {
    AfterMidnight(t, 1);
    hide Round2, Progress, Minute, Midnight, Step;
    QuietStep(t, s, FlatBar(Midnight(t) + MINUTE, BreakevenPrice(t)));
  }

  lemma {:induction false} CrossThird(t: Terms, hwm: real, s: Run)
    requires t.rUnit > 0.0 && BreakevenFirst(t) && !s.closed && Progress(t, BreakevenPrice(t)) == t.beR
    ensures Step(t, s, CrossBars(t, hwm)[2]).closed == Through(t.side, Touch(t), s.stop)
  {
    AfterMidnight(t, 2);
    hide Round2, Progress, Minute, Midnight, Step;
    var b := CrossBars(t, hwm)[2];
    if Through(t.side, LoseEdge(t.side, b), s.stop) {
      StopStep(t, s, b);
    } else {
      QuietStep(t, s, b);
    }
  }

  /** What the crossing bars do to one ladder. */
  lemma {:induction false} CrossOne(t: Terms, hwm: real)
    requires t.rUnit > 0.0 && t.trails && BreakevenFirst(t) && Gain(t.side, t.entry, hwm) >= 0.0
    requires Progress(t, hwm) >= t.trailAt && !Through(t.side, hwm, Stop0(t))
    requires var px := BreakevenPrice(t);
      && !Through(t.side, px, Stop0(t))
      && (Tighter(t.side, TrailStop(t, hwm), Stop0(t)) ==> !Through(t.side, px, TrailStop(t, hwm)))
    ensures var stop := if Tighter(t.side, TrailStop(t, hwm), Stop0(t)) then TrailStop(t, hwm)
                  else if Tighter(t.side, Round2(t.entry), Stop0(t)) then Round2(t.entry) else Stop0(t);
      After(t, CrossBars(t, hwm)).closed == Through(t.side, Touch(t), stop)
  {
    var bars := CrossBars(t, hwm);
    AtBreakeven(t);
    ThreeSteps(t, bars);
    hide Round2, Step, After, Progress, Midnight, BreakevenPrice;
    CrossFirst(t, hwm);
    var s := Step(t, Start(t), bars[0]);
    CrossSecond(t, hwm, s);
    CrossThird(t, hwm, Step(t, s, bars[1]));
  }

  /** Wherever the narrow trail blocks, these bars close the wide ladder first on the terms as
      they are. */
  lemma {:induction false} CrossClosesLater(ta: Terms, tb: Terms, hwm: real)
    requires Widens(ta, tb) && ta.rUnit > 0.0 && BlocksAt(ta, tb, hwm) && BreakevenFirst(ta)
    ensures BarsOk(CrossBars(ta, hwm)) && After(tb, CrossBars(ta, hwm)).closed && !After(ta, CrossBars(ta, hwm)).closed
  {
    PricesInOrder(ta, tb, hwm);
    CrossLevels(ta, tb, hwm);
    CrossBarsOk(ta, hwm);
    WidthAside(ta, tb, hwm);
    BlockedStops(ta, tb, hwm);
    hide *;
    CrossOne(ta, hwm);
    CrossOne(tb, hwm);
  }

  /** What does not depend on the width of the trail. */
  lemma {:induction false} WidthAside(ta: Terms, tb: Terms, hwm: real)
    requires tb == ta.(trailDist := tb.trailDist)
    ensures CrossBars(tb, hwm) == CrossBars(ta, hwm) && Touch(tb) == Touch(ta)
    ensures Stop0(tb) == Stop0(ta) && BreakevenPrice(tb) == BreakevenPrice(ta)
    ensures ta.rUnit != 0.0 ==> Progress(tb, hwm) == Progress(ta, hwm)
    ensures BreakevenFirst(tb) == BreakevenFirst(ta)
  {
    hide Round2, Min, Max;
    assert Midnight(tb) == Midnight(ta);
    assert BreakevenPrice(tb) == BreakevenPrice(ta);
    assert Gain(tb.side, tb.entry, hwm) == Gain(ta.side, ta.entry, hwm);
    hide BreakevenPrice, Midnight, Gain;
  }

  lemma {:induction false} BlockedStops(ta: Terms, tb: Terms, hwm: real)
    requires Widens(ta, tb) && ta.rUnit > 0.0 && BlocksAt(ta, tb, hwm)
    ensures ta.trails && tb.trails && ta.rUnit > 0.0 && tb.rUnit == ta.rUnit && tb.trailAt == ta.trailAt
    ensures tb.side == ta.side && tb.entry == ta.entry
    ensures Tighter(ta.side, TrailStop(ta, hwm), Stop0(ta)) && !Tighter(ta.side, TrailStop(tb, hwm), Stop0(ta))
  {
    hide Round2;
  }

  /** Exactly when, on terms taken as they are: with breakeven due before the trail arms, the
      wider trail outlasts the narrower one on all bars if and only if the narrow one does
      not block. The same holds for the mere order of closing. */
  lemma {:induction false} SameTermsOutlastIff(ta: Terms, tb: Terms)
    requires Widens(ta, tb) && ta.rUnit > 0.0 && BreakevenFirst(ta)
    ensures !Blocks(ta, tb) <==> forall bars :: BarsOk(bars) ==> Outlasts(ta, After(ta, bars), After(tb, bars))
    ensures !Blocks(ta, tb) <==> forall bars :: BarsOk(bars) ==> (After(tb, bars).closed ==> After(ta, bars).closed)
  {
    hide After, Blocks;
    if Blocks(ta, tb) {
      BlockerBlocks(ta, tb);
      var bars := CrossBars(ta, Blocker(ta, tb));
      CrossClosesLater(ta, tb, Blocker(ta, tb));
      hide CrossBars;
      assert !Outlasts(ta, After(ta, bars), After(tb, bars));
    } else {
      forall bars | BarsOk(bars) ensures Outlasts(ta, After(ta, bars), After(tb, bars)) {
        WiderTrailOutlasts(ta, tb, bars);
      }
    }
  }

  /** Two simple ways not to block: the narrow trail starts at or beyond breakeven, or the
      wide one improves on the initial stop by more than a cent where it arms. */
  lemma {:induction false} TrailFits(ta: Terms, tb: Terms)
    requires Widens(ta, tb)
    requires ta.trailDist <= ta.trailAt * ta.rUnit || tb.trailDist + CENT < ta.trailAt * ta.rUnit + ta.rUnit
    ensures !Blocks(ta, tb)
  {
    hide Round2;
    var arm, z := ArmPrice(ta), Away(ta.side, ta.entry, ta.rUnit);
    var wa, wb := Away(ta.side, arm, ta.trailDist), Away(ta.side, arm, tb.trailDist);
    if ta.trailDist <= ta.trailAt * ta.rUnit {
      if ta.side.Long? { Round2Monotone(ta.entry, wa); } else { Round2Monotone(wa, ta.entry); }
    } else {
      if ta.side.Long? {
        Round2Strict(z, wb);
        Round2Monotone(wb, wa);
      } else {
        Round2Strict(wb, z);
        Round2Monotone(wa, wb);
      }
    }
  }

  const NARROW := Terms(Long, 0, 100.0, 1, 2.0, None, 2.5, true, 1.0, 0.75, false, false, false)
  const WIDE := NARROW.(trailDist := 5.0)

  lemma {:induction false} Round2Cents(x: real, cents: int)
    requires x * 100.0 == cents as real
    ensures Round2(x) == x
  {
  }

  /** A 2.5 and a 5 ATR trail on a 2 ATR stop: armed at 102, the narrow one moves the stop to
      99.5, short of breakeven, and the wide one stays at the initial 98. */
  lemma {:induction false} SomeTermsBlock()
    ensures Widens(NARROW, WIDE) && TermsOk(NARROW) && Blocks(NARROW, WIDE)
  {
    hide Round2;
    Round2Cents(98.0, 9800);
    Round2Cents(97.0, 9700);
    Round2Cents(99.5, 9950);
    Round2Cents(100.0, 10000);
    assert ArmPrice(NARROW) == 102.0;
  }
}
