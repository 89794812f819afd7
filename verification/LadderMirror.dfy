/** SHORT is LONG reflected about the entry price. */
module LadderMirror {
  import opened Direction
  import opened Options
  import opened Rounding
  import opened Ladder
  import opened LadderFacts

  function Reflect(e: real, px: real): real { 2.0 * e - px }

  function MirrorBar(e: real, b: Bar): Bar {
    Bar(b.ts, Reflect(e, b.open), Reflect(e, b.low), Reflect(e, b.high), Reflect(e, b.close))
  }

  function MirrorBars(e: real, bars: seq<Bar>): seq<Bar> {
    seq(|bars|, i requires 0 <= i < |bars| => MirrorBar(e, bars[i]))
  }

  function Opposite(side: Side): Side { if side.Long? then Short else Long }

  function MirrorTerms(t: Terms): Terms {
    t.(side := Opposite(t.side),
       target := if t.target.Some? then Some(Reflect(t.entry, t.target.value)) else None)
  }

  function MirrorExit(e: real, x: Exit): Exit { x.(px := Reflect(e, x.px)) }

  function MirrorExits(e: real, xs: seq<Exit>): seq<Exit> {
    seq(|xs|, i requires 0 <= i < |xs| => MirrorExit(e, xs[i]))
  }

  /** Same P&L, excursion, quantities, layers and times; reflected prices. */
  function MirrorRun(e: real, s: Run): Run {
    s.(stop := Reflect(e, s.stop), hwm := Reflect(e, s.hwm), exits := MirrorExits(e, s.exits))
  }

  lemma {:induction false} MirrorSell(t: Terms, s: Run, minute: int, layer: Layer, qty: nat, px: real)
    requires qty <= s.qtyOpen
    ensures Sell(MirrorTerms(t), MirrorRun(t.entry, s), minute, layer, qty, Reflect(t.entry, px))
         == MirrorRun(t.entry, Sell(t, s, minute, layer, qty, px))
  {
    var x := Exit(minute, layer, qty, px);
    assert MirrorExits(t.entry, s.exits + [x]) == MirrorExits(t.entry, s.exits) + [MirrorExit(t.entry, x)];
    assert Gain(Opposite(t.side), t.entry, Reflect(t.entry, px)) == Gain(t.side, t.entry, px);
  }

  lemma {:induction false} MirrorCloseOut(t: Terms, s: Run, b: Bar, layer: Layer, px: real)
    ensures CloseOut(MirrorTerms(t), MirrorRun(t.entry, s), MirrorBar(t.entry, b), layer, Reflect(t.entry, px))
         == MirrorRun(t.entry, CloseOut(t, s, b, layer, px))
  {
    MirrorSell(t, s, Minute(b.ts), layer, s.qtyOpen, px);
  }

  lemma {:induction false} MirrorScaleOut(t: Terms, s: Run, b: Bar)
    ensures ScaleOut(MirrorTerms(t), MirrorRun(t.entry, s), MirrorBar(t.entry, b))
         == MirrorRun(t.entry, ScaleOut(t, s, b))
  {
    if t.target.Some? {
      MirrorSell(t, s, Minute(b.ts), TargetHit, s.qtyOpen / 2, t.target.value);
    }
  }

  lemma {:induction false} MirrorRatchet(t: Terms, s: Run, b: Bar, prog: real)
    requires OnCentGrid(t.entry)
    ensures Ratchet(MirrorTerms(t), MirrorRun(t.entry, s), MirrorBar(t.entry, b), prog)
         == MirrorRun(t.entry, Ratchet(t, s, b, prog))
  {
    hide Round2;
    var hwm := Best(t.side, s.hwm, WinEdge(t.side, b));
    RoundReflect(t.entry, Away(t.side, hwm, t.trailDist));
    assert Away(Opposite(t.side), Reflect(t.entry, hwm), t.trailDist)
        == Reflect(t.entry, Away(t.side, hwm, t.trailDist));
    assert Round2(t.entry) == Reflect(t.entry, Round2(t.entry)) by {
      OnGridFixed(t.entry);
    }
  }

  lemma {:induction false} OnGridFixed(e: real)
    requires OnCentGrid(e)
    ensures Round2(e) == e
  {
  }

  lemma {:induction false} MirrorStep(t: Terms, s: Run, b: Bar)
    requires OnCentGrid(t.entry) && t.rUnit != 0.0
    ensures Step(MirrorTerms(t), MirrorRun(t.entry, s), MirrorBar(t.entry, b))
         == MirrorRun(t.entry, Step(t, s, b))
  {
    hide Round2, Ratchet, ScaleOut, CloseOut;
    var tm, sm, bm := MirrorTerms(t), MirrorRun(t.entry, s), MirrorBar(t.entry, b);
    if !Skips(t, s, b) {
      assert Gain(tm.side, tm.entry, bm.close) == Gain(t.side, t.entry, b.close);
      assert Gain(tm.side, tm.entry, WinEdge(tm.side, bm)) == Gain(t.side, t.entry, WinEdge(t.side, b));
      var s1, sm1 := Entered(t, s, b), Entered(tm, sm, bm);
      assert sm1 == MirrorRun(t.entry, s1);
      MirrorCloseOut(t, s1, b, StopLayer(s1.basis), s1.stop);
      MirrorCloseOut(t, s1, b, ForceFlat, b.close);
      MirrorCloseOut(t, s1, b, TimeStop, b.close);
      MirrorScaleOut(t, s1, b);
      MirrorRatchet(t, ScaleOut(t, s1, b), b, Progress(t, b.close));
    }
  }

  lemma {:induction false} MirrorAfter(t: Terms, bars: seq<Bar>)
    requires OnCentGrid(t.entry) && t.rUnit != 0.0
    ensures After(MirrorTerms(t), MirrorBars(t.entry, bars)) == MirrorRun(t.entry, After(t, bars))
  {
    hide Round2, Step;
    var ms := MirrorBars(t.entry, bars);
    if bars == [] {
      assert ms == [];
      RoundReflect(t.entry, Away(t.side, t.entry, t.rUnit));
    } else {
      var prefix := bars[..|bars| - 1];
      MirrorAfter(t, prefix);
      assert ms[..|ms| - 1] == MirrorBars(t.entry, prefix);
      MirrorStep(t, After(t, prefix), bars[|bars| - 1]);
    }
  }

  predicate MirrorsOn(t: Terms, bars: seq<Bar>)
    requires t.rUnit != 0.0
  {
    Final(MirrorTerms(t), MirrorBars(t.entry, bars)) == MirrorRun(t.entry, Final(t, bars))
  }

  /** On a whole-cent entry price the two sides behave identically, rounding
      included. */
  lemma {:induction false} MirrorOnGrid(t: Terms, bars: seq<Bar>)
    requires OnCentGrid(t.entry) && t.rUnit != 0.0
    ensures MirrorsOn(t, bars)
  {
    hide Round2, After;
    MirrorAfter(t, bars);
    var s := After(t, bars);
    if s.qtyOpen > 0 && bars != [] {
      var last := bars[|bars| - 1];
      MirrorSell(t, s, Minute(last.ts), EodMark, s.qtyOpen, last.close);
    }
  }

  lemma {:induction false} MirrorFlat(t: Terms, bars: seq<Bar>)
    ensures FlatClose(First(t), MirrorBars(t.entry, bars))
         == match FlatClose(First(t), bars) case Some(c) => Some(Reflect(t.entry, c)) case None => None
  {
    if bars != [] {
      assert MirrorBars(t.entry, bars)[1..] == MirrorBars(t.entry, bars[1..]);
      MirrorFlat(t, bars[1..]);
    }
  }

  /** The reports agree in every figure; only prices are reflected. */
  lemma {:induction false} MirrorReport(t: Terms, bars: seq<Bar>, showStop: bool)
    requires OnCentGrid(t.entry) && t.rUnit != 0.0
    ensures var a, m := Summary(t, bars, showStop), Summary(MirrorTerms(t), MirrorBars(t.entry, bars), showStop);
      && m.pnl == a.pnl && m.r == a.r && m.mfeR == a.mfeR && m.closeR == a.closeR && m.rUnit == a.rUnit
      && m.exits == MirrorExits(t.entry, a.exits)
      && (a.stop0.Some? <==> m.stop0.Some?)
      && (a.stop0.Some? ==> m.stop0.value == Reflect(t.entry, a.stop0.value))
  {
    hide Round2, Round3, Round4, Final, RMultiple;
    MirrorOnGrid(t, bars);
    MirrorFlat(t, bars);
    var tm, ms := MirrorTerms(t), MirrorBars(t.entry, bars);
    assert Final(tm, ms).pnl == Final(t, bars).pnl;
    if FlatClose(First(t), bars).Some? {
      var c := FlatClose(First(t), bars).value;
      assert Gain(tm.side, tm.entry, Reflect(t.entry, c)) == Gain(t.side, t.entry, c);
    }
  }

  // ----------------------------------------------- entries off the grid

  const WITNESS := Terms(Long, 0, 0.0, 1, 1.0, None, 1.5, true, 1.0, 0.75, false, false, false)

  /** One bar past 0.75R, then one that comes back through the entry price. */
  function WitnessBars(e: real): seq<Bar> {
    [Bar(0, e, e + 0.8, e, e + 0.8), Bar(MINUTE, e, e + 0.5, e - 0.5, e)]
  }

  lemma {:induction false} WitnessFirst(t: Terms)
    requires t == WITNESS.(entry := t.entry, side := t.side)
    ensures var b := if t.side.Long? then WitnessBars(t.entry)[0] else MirrorBar(t.entry, WitnessBars(t.entry)[0]);
      var s := Step(t, Start(t), b);
      !s.closed && s.stop == Round2(t.entry) && s.basis.Breakeven? && s.qtyOpen == 1 && s.exits == []
  {
    hide Round2;
    Round2Near(t.entry);
    Round2Near(Away(t.side, t.entry, t.rUnit));
  }

  lemma {:induction false} WitnessSecond(t: Terms, s: Run)
    requires t == WITNESS.(entry := t.entry, side := t.side)
    requires !s.closed && s.stop == Round2(t.entry) && s.basis.Breakeven? && s.qtyOpen == 1 && s.exits == []
    ensures var b := if t.side.Long? then WitnessBars(t.entry)[1] else MirrorBar(t.entry, WitnessBars(t.entry)[1]);
      Step(t, s, b).exits == [Exit(1, BreakevenHit, 1, Round2(t.entry))] && Step(t, s, b).qtyOpen == 0
  {
    hide Round2;
    Round2Near(t.entry);
  }

  lemma {:induction false} WitnessRun(t: Terms)
    requires t == WITNESS.(entry := t.entry, side := t.side)
    ensures var bars := if t.side.Long? then WitnessBars(t.entry) else MirrorBars(t.entry, WitnessBars(t.entry));
      Final(t, bars).exits == [Exit(1, BreakevenHit, 1, Round2(t.entry))]
  {
    hide Round2, Step;
    var bars := if t.side.Long? then WitnessBars(t.entry) else MirrorBars(t.entry, WitnessBars(t.entry));
    assert bars[..1][..0] == [] && bars[..1][0] == bars[0];
    assert After(t, bars[..1]) == Step(t, Start(t), bars[0]);
    WitnessFirst(t);
    WitnessSecond(t, After(t, bars[..1]));
  }

  /** Exactly when: the two sides mirror on all bars and terms if and only if the
      entry price is a whole number of cents. */
  lemma {:induction false} MirrorIffOnGrid(e: real)
    ensures OnCentGrid(e) <==> forall t: Terms, bars: seq<Bar> :: t.entry == e && TermsOk(t) ==> MirrorsOn(t, bars)
  {
    hide Round2, Final, MirrorBars;
    if OnCentGrid(e) {
      forall t: Terms, bars: seq<Bar> | t.entry == e && TermsOk(t) ensures MirrorsOn(t, bars) { MirrorOnGrid(t, bars); }
    } else {
      var t := WITNESS.(entry := e);
      WitnessRun(t);
      WitnessRun(t.(side := Short));
      assert MirrorTerms(t) == t.(side := Short);
      assert !MirrorsOn(t, WitnessBars(e)) by {
        assert MirrorExits(e, Final(t, WitnessBars(e)).exits)[0].px == Reflect(e, Round2(e));
      }
    }
  }
}
