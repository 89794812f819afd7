/** The numbers of a sizing in the quotes, caps and balances that the call is given. */
module SizedNumbers {
  import opened Direction
  import opened Numbers
  import opened Options
  import opened Rounding
  import opened Sizing

  /** x lies within tol of y. */
  predicate Near(x: real, y: real, tol: real) { -tol <= x - y <= tol }

  // ---------------------------------------------------------------- the limit

  /** A share of a price, in basis points. */
  function Bps(price: real, bps: real): real { price * (bps / 10000.0) }

  lemma {:induction false} ShareOrder(price: real, a: real, b: real)
    requires price >= 0.0 && a <= b
    ensures Bps(price, a) <= Bps(price, b)
  {
    Times(a / 10000.0, b / 10000.0, price);
    assert Bps(price, a) == a / 10000.0 * price && Bps(price, b) == b / 10000.0 * price;
  }

  lemma {:induction false} LimitWith(ask: real, spreadBps: real, side: Side, bid: real, quote: real, give: real)
    requires quote == if side.Short? && bid != 0.0 then bid else ask
    requires give == Min(spreadBps / 2.0 / 10000.0, 0.0010) * quote
    ensures LimitPrice(ask, spreadBps, side, bid) == Round2(if side.Long? then quote + give else quote - give)
  {
    hide Round2;
  }

  /** Half the spread, but no more than ten basis points, above or below the quote. */
  lemma {:induction false} LimitIsConcession(ask: real, spreadBps: real, side: Side, bid: real)
    ensures var quote := if side.Long? || bid == 0.0 then ask else bid;
      var give := Bps(quote, if spreadBps <= 20.0 then spreadBps / 2.0 else 10.0);
      LimitPrice(ask, spreadBps, side, bid) == Round2(if side.Long? then quote + give else quote - give)
  {
    hide Round2, LimitPrice;
    var quote := if side.Long? || bid == 0.0 then ask else bid;
    var c := if spreadBps <= 20.0 then spreadBps / 2.0 else 10.0;
    assert Min(spreadBps / 2.0 / 10000.0, 0.0010) == c / 10000.0;
    assert c / 10000.0 * quote == Bps(quote, c);
    LimitWith(ask, spreadBps, side, bid, quote, Bps(quote, c));
  }

  /** A buyer bids at the ask or above it, by ten basis points at most. */
  lemma {:induction false} LongLimit(ask: real, spreadBps: real, bid: real)
    requires ask > 0.0 && spreadBps >= 0.0
    ensures var limit := LimitPrice(ask, spreadBps, Long, bid);
      && Round2(ask) <= limit <= ask + Bps(ask, 10.0) + HALF_CENT
      && (spreadBps <= 20.0 ==> Near(limit, ask + Bps(ask, spreadBps / 2.0), HALF_CENT))
  {
    LimitIsConcession(ask, spreadBps, Long, bid);
    var c := if spreadBps <= 20.0 then spreadBps / 2.0 else 10.0;
    ShareOrder(ask, 0.0, c);
    ShareOrder(ask, c, 10.0);
    assert Bps(ask, 0.0) == 0.0;
    Round2Near(ask + Bps(ask, c));
    Round2Monotone(ask, ask + Bps(ask, c));
    hide Round2, LimitPrice, Bps;
  }

  /** A short seller offers at the bid or below it, the ask standing in for a missing bid. */
  lemma {:induction false} ShortLimit(ask: real, spreadBps: real, bid: real)
    requires (if bid == 0.0 then ask else bid) > 0.0 && spreadBps >= 0.0
    ensures var limit, quote := LimitPrice(ask, spreadBps, Short, bid), if bid == 0.0 then ask else bid;
      && quote - Bps(quote, 10.0) - HALF_CENT <= limit <= Round2(quote)
      && (spreadBps <= 20.0 ==> Near(limit, quote - Bps(quote, spreadBps / 2.0), HALF_CENT))
  {
    LimitIsConcession(ask, spreadBps, Short, bid);
    var quote := if bid == 0.0 then ask else bid;
    var c := if spreadBps <= 20.0 then spreadBps / 2.0 else 10.0;
    ShareOrder(quote, 0.0, c);
    ShareOrder(quote, c, 10.0);
    assert Bps(quote, 0.0) == 0.0;
    Round2Near(quote - Bps(quote, c));
    Round2Monotone(quote - Bps(quote, c), quote);
    hide Round2, LimitPrice, Bps;
  }

  // ----------------------------------------------------------------- the caps

  /** Dollars that n shares lose from the limit to the stop. */
  function RiskOf(o: Order, n: nat): real
    requires o.inp.atr.Some?
  {
    n as real * (o.k * o.inp.atr.value)
  }

  /** n more shares at this limit and stop distance, against one cap. */
  predicate KeepsCap(o: Order, c: Clip, n: nat)
    requires o.inp.atr.Some?
  {
    var i := o.inp;
    var capital, cost, risk := i.effectiveCapital, n as real * Limit(o), RiskOf(o, n);
    match c
    case Notional => cost <= o.cap.maxNotionalPct * capital
    case Adv => i.adv20.Some? && i.adv20.value != 0.0 ==> n as real <= o.lim.advMax * i.adv20.value
    case SettledCash => i.side.Long? ==> cost <= i.settledCash
    case BuyingPower => i.side.Short? ==> cost <= i.buyingPower
    case ShortHeat => i.side.Short? ==> i.openShortHeat + risk <= o.short.maxShortHeatPct * capital
    case GrossShort => i.side.Short? ==> i.grossShort + cost <= o.short.maxGrossPct * capital
    case CapitalHeadroom => i.deployed + cost <= capital
    case LaneHeat =>
      if o.horizon.ShortTerm? then i.heatShortTerm + risk <= o.cap.splitShortTerm * capital
      else i.heatLongTerm + risk <= o.cap.splitLongTerm * capital
    case TotalHeat => i.heatShortTerm + i.heatLongTerm + risk <= o.cap.maxHeatPct * capital
    case SectorHeat =>
      i.sector.Some? && i.sectorHeat.Some? && o.cap.maxSectorPct.Some? ==>
        i.sectorHeat.value + risk <= o.cap.maxSectorPct.value * capital
  }

  predicate KeepsBudget(o: Order, n: nat)
    requires o.inp.atr.Some?
  {
    RiskOf(o, n) <= o.cap.riskPct * o.inp.effectiveCapital
  }

  predicate KeepsAll(o: Order, n: nat)
    requires o.inp.atr.Some?
  {
    KeepsBudget(o, n) && forall c: Clip :: KeepsCap(o, c, n)
  }

  /** The shares risk enough of the budget to be worth it. */
  predicate WorthIt(o: Order, n: nat)
    requires o.inp.atr.Some?
  {
    RiskOf(o, n) >= o.cap.minViable * (o.cap.riskPct * o.inp.effectiveCapital)
  }

  lemma {:induction false} CapMeans(o: Order, c: Clip, n: nat)
    requires o.inp.atr.Some?
    ensures KeepsCap(o, c, n) <==> (Applies(o, c) ==> Within(o, c, n))
  {
    hide Limit;
    match c
    case Notional => case Adv => case SettledCash => case BuyingPower => case ShortHeat =>
    case GrossShort => case CapitalHeadroom => case LaneHeat => case TotalHeat => case SectorHeat =>
  }

  lemma {:induction false} FitsMeans(o: Order, n: nat)
    requires o.inp.atr.Some?
    ensures KeepsAll(o, n) <==> Fits(o, n)
    ensures WorthIt(o, n) <==> Viable(o, n)
  {
    hide Limit, KeepsCap, Within, Applies;
    forall c: Clip ensures KeepsCap(o, c, n) <==> (Applies(o, c) ==> Within(o, c, n)) {
      CapMeans(o, c, n);
    }
  }

  // -------------------------------------------------------------- the verdict

  /** Exactly when an order is sized, and at how many shares: no gate is raised and some count
      keeps the budget and every cap and is worth it; the count is the largest that keeps
      them. */
  lemma {:induction false} SizedExactly(o: Order)
    requires Gated(o) || Priced(o)
    ensures SizeOrder(o).Size? <==>
      (forall r :: !Raised(o, r)) && o.inp.atr.Some? && exists n: nat :: n >= 1 && KeepsAll(o, n) && WorthIt(o, n)
    ensures SizeOrder(o).Size? ==>
      var q := SizeOrder(o).qty;
      o.inp.atr.Some? && q >= 1 && WorthIt(o, q) && KeepsAll(o, q) && forall n: nat :: KeepsAll(o, n) ==> n <= q
  {
    VerdictExactly(o);
    GateIsNoSize(o);
    hide HardGates, SizeOrder, Raised, Fits, Viable, KeepsAll, WorthIt, Limit;
    if o.inp.atr.Some? {
      forall n: nat ensures (KeepsAll(o, n) <==> Fits(o, n)) && (WorthIt(o, n) <==> Viable(o, n)) {
        FitsMeans(o, n);
      }
    }
    if SizeOrder(o).Size? {
      SizeIsSoundAndTight(o);
      forall n: nat | KeepsAll(o, n) ensures n <= SizeOrder(o).qty {
        NoMoreFits(o, n);
      }
    }
  }

  lemma {:induction false} GateIsNoSize(o: Order)
    requires Gated(o) || Priced(o)
    ensures SizeOrder(o).Size? ==> Priced(o) && !Gated(o)
  {
    hide HardGates, Limit, Qty, BindingClip, Viable, Round2, Round4;
  }

  lemma {:induction false} NoMoreFits(o: Order, n: nat)
    requires Priced(o) && !Gated(o) && SizeOrder(o).Size? && o.inp.atr.Some? && Fits(o, n)
    ensures n <= SizeOrder(o).qty
  {
    hide HardGates, Limit, BindingClip, Viable, Round2, Round4, Fits, Priced;
    if n >= 1 {
      QtyIsLargestFit(o, n);
    }
  }

  /** What a SIZE says: the limit, both stops at their distances on the losing side of it,
      and the dollars at risk. */
  lemma {:induction false} SizeSays(o: Order)
    requires Priced(o) && !Gated(o) && SizeOrder(o).Size?
    ensures var r, atr := SizeOrder(o), o.inp.atr;
      && atr.Some? && r.limit == LimitPrice(o.inp.ask, o.inp.spreadBps, o.inp.side, o.inp.bid)
      && Near(r.initialStop, Losing(o.inp.side, r.limit, o.k * atr.value), HALF_CENT)
      && Near(r.catastropheStop, Losing(o.inp.side, r.limit, o.prof.catastropheK * atr.value), HALF_CENT)
      && Near(r.stopDistance, o.k * atr.value, 0.00005)
      && Near(r.riskBudget, o.cap.riskPct * o.inp.effectiveCapital, HALF_CENT)
      && Near(r.actualRisk, RiskOf(o, r.qty), HALF_CENT)
  {
    hide *;
    PositiveStop(o);
    SizeFields(o);
    StopsNear(o, SizeOrder(o).limit);
    DollarsNear(o, SizeOrder(o).qty);
  }

  lemma {:induction false} StopsNear(o: Order, limit: real)
    requires o.inp.atr.Some?
    ensures var atr := o.inp.atr.value;
      && Near(EntryStop(o.inp.side, limit, StopDistance(o)), Losing(o.inp.side, limit, o.k * atr), HALF_CENT)
      && Near(EntryStop(o.inp.side, limit, CatastropheDistance(o)), Losing(o.inp.side, limit, o.prof.catastropheK * atr),
              HALF_CENT)
  {
    StopNear(o.inp.side, limit, StopDistance(o));
    StopNear(o.inp.side, limit, CatastropheDistance(o));
    hide EntryStop;
  }

  lemma {:induction false} DollarsNear(o: Order, q: nat)
    requires o.inp.atr.Some?
    ensures var atr := o.inp.atr.value;
      && Near(Round4(StopDistance(o)), o.k * atr, 0.00005)
      && Near(Round2(RiskBudget(o)), o.cap.riskPct * o.inp.effectiveCapital, HALF_CENT)
      && Near(Round2(Scale(q, StopDistance(o))), RiskOf(o, q), HALF_CENT)
  {
    Round4Near(StopDistance(o));
    Round2Near(RiskBudget(o));
    Round2Near(Scale(q, StopDistance(o)));
    assert StopDistance(o) == o.k * o.inp.atr.value && RiskBudget(o) == o.cap.riskPct * o.inp.effectiveCapital;
    assert Scale(q, StopDistance(o)) == RiskOf(o, q);
    hide *;
  }

  lemma {:induction false} SizeFields(o: Order)
    requires Priced(o) && !Gated(o) && SizeOrder(o).Size? && o.inp.atr.Some?
    ensures var r := SizeOrder(o);
      && r.limit == LimitPrice(o.inp.ask, o.inp.spreadBps, o.inp.side, o.inp.bid)
      && r.initialStop == EntryStop(o.inp.side, r.limit, StopDistance(o))
      && r.catastropheStop == EntryStop(o.inp.side, r.limit, CatastropheDistance(o))
      && r.stopDistance == Round4(StopDistance(o)) && r.riskBudget == Round2(RiskBudget(o))
      && r.actualRisk == Round2(Scale(r.qty, StopDistance(o)))
  {
    hide HardGates, LimitPrice, Qty, BindingClip, Viable, RawQty, Round2, Round4, EntryStop, StopDistance,
         CatastropheDistance, RiskBudget, Scale;
    PositiveStop(o);
  }

  lemma {:induction false} StopNear(side: Side, limit: real, distance: real)
    ensures Near(EntryStop(side, limit, distance), Losing(side, limit, distance), HALF_CENT)
  {
    Round2Near(Losing(side, limit, distance));
    hide Round2;
  }

  /** The price this far on the losing side. */
  function Losing(side: Side, price: real, distance: real): real {
    if side.Long? then price - distance else price + distance
  }

  /** The clip a SIZE names keeps every share count that it admits within the budget and all
      other caps; it names none exactly when the budget does that by itself. */
  lemma {:induction false} BindingSays(o: Order, n: nat)
    requires Priced(o) && !Gated(o) && SizeOrder(o).Size? && n >= 1 && o.inp.atr.Some?
    ensures match SizeOrder(o).binding
      case Some(c) => Applies(o, c) && (KeepsCap(o, c, n) ==> KeepsAll(o, n))
      case None => KeepsBudget(o, n) ==> KeepsAll(o, n)
  {
    PositiveStop(o);
    BindingOf(o);
    FitsMeans(o, n);
    UnderEveryClip(o, n);
    BindingAdmits(o, n);
    hide *;
  }

  /** How the tightest clip and the raw count compare with n shares. */
  lemma {:induction false} BindingAdmits(o: Order, n: nat)
    requires Priced(o) && !Gated(o) && n >= 1 && o.inp.atr.Some?
    ensures var b := BindingClip(o);
      && Applies(o, b.0) && (n as real <= b.1 <==> KeepsCap(o, b.0, n))
      && (n as real <= RawQty(o) <==> KeepsBudget(o, n))
      && (n as real <= b.1 && KeepsBudget(o, n) ==> KeepsAll(o, n))
  {
    PositiveStop(o);
    TightestAdmits(o, n);
    RawAdmits(o, n);
    FitsMeans(o, n);
    UnderEveryClip(o, n);
    hide *;
  }

  lemma {:induction false} TightestAdmits(o: Order, n: nat)
    requires Priced(o) && !Gated(o) && n >= 1 && o.inp.atr.Some?
    ensures var b := BindingClip(o); Applies(o, b.0) && (n as real <= b.1 <==> KeepsCap(o, b.0, n))
  {
    PositiveStop(o);
    var b := BindingClip(o);
    ListedElements(o, CLIP_ORDER);
    hide Limit, HardGates, ClipShares, Within, Applies, KeepsCap, Listed, StopDistance;
    ClipIsCap(o, b.0, n);
    CapMeans(o, b.0, n);
  }

  lemma {:induction false} RawAdmits(o: Order, n: nat)
    requires Priced(o) && !Gated(o) && o.inp.atr.Some?
    ensures n as real <= RawQty(o) <==> KeepsBudget(o, n)
  {
    PositiveStop(o);
    DivideCompare(n, RiskBudget(o), StopDistance(o));
    hide Limit, HardGates;
  }

  lemma {:induction false} BindingOf(o: Order)
    requires Priced(o) && !Gated(o) && SizeOrder(o).Size?
    ensures SizeOrder(o).binding == if BindingClip(o).1 < RawQty(o) then Some(BindingClip(o).0) else None
  {
    hide HardGates, Limit, Qty, BindingClip, Viable, Round2, Round4, RawQty, StopDistance, EntryStop;
    PositiveStop(o);
  }

  /** The flags a SIZE carries: exactly what was not known. */
  lemma {:induction false} FlagsSay(o: Order)
    requires Priced(o) && !Gated(o) && SizeOrder(o).Size?
    ensures var flags := SizeOrder(o).flags;
      && (EarningsUnknown in flags <==> o.inp.earningsNext.None?)
      && (DividendUnknown in flags <==> o.inp.side.Short? && o.inp.exDividendNext.None?)
      && (SectorUnknown in flags <==> o.inp.sector.None?)
  {
    hide Limit, Qty, BindingClip, Viable, Round2, Round4, RawQty, StopDistance, EntryStop, CatastropheDistance;
    PositiveStop(o);
  }
}
