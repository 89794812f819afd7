/** A3's sizing chain: hard gates, the risk budget, the clips, the viability rule. */
module Sizing {
  import opened Direction
  import opened Numbers
  import opened Options
  import opened Rounding

  datatype Horizon = ShortTerm | LongTerm

  datatype Inputs = Inputs(
    effectiveCapital: real, settledCash: real, bid: real, ask: real, spreadBps: real,
    atr: Option<real>, adv20: Option<real>,
    heatShortTerm: real, heatLongTerm: real, deployed: real,
    tradesToday: int, tickerHalted: bool, killSwitch: bool, breaker: bool, blockEntries: bool,
    maxTradesPerDay: int, minutesToClose: Option<int>, earningsNext: Option<int>,
    sector: Option<string>, sectorHeat: Option<real>,
    side: Side, buyingPower: real, openShortHeat: real, grossShort: real, exDividendNext: Option<int>)

  datatype Capital = Capital(riskPct: real, maxNotionalPct: real, maxHeatPct: real,
                             splitShortTerm: real, splitLongTerm: real,
                             maxSectorPct: Option<real>, minViable: real)

  datatype Limits = Limits(advMax: real, spreadMaxBps: real, blackoutFinalMin: int)

  datatype Shorting = Shorting(dividendBlackout: int, maxShortHeatPct: real, maxGrossPct: real)

  datatype Profile = Profile(earningsBlackoutExit: bool, catastropheK: real)

  /** Everything a sizing call is given. */
  datatype Order = Order(inp: Inputs, cap: Capital, lim: Limits, prof: Profile, horizon: Horizon,
                         k: real, earningsBlackout: int, short: Shorting)

  datatype Reason = KillSwitch | Breaker | BlockEntries | Halted | MaxTrades | EntryBlackout
                  | WideSpread | EarningsBlackout | ExDividend | NoAtr | SizeClipped

  datatype Flag = EarningsUnknown | DividendUnknown | SectorUnknown

  datatype Clip = Notional | Adv | SettledCash | BuyingPower | ShortHeat | GrossShort
                | CapitalHeadroom | LaneHeat | TotalHeat | SectorHeat

  datatype Result =
    | Veto(reason: Reason, vetoFlags: seq<Flag>)
    | Size(qty: nat, limit: real, stopDistance: real, initialStop: real, catastropheStop: real,
           riskBudget: real, actualRisk: real, binding: Option<Clip>, flags: seq<Flag>)

  function NotBelowZero(a: real): real { if a >= 0.0 then a else 0.0 }

  /** Marketable entry limit: the ask plus a buffer, or the bid minus one. */
  function LimitPrice(ask: real, spreadBps: real, side: Side, bid: real): real {
    var ref := if side.Short? && bid != 0.0 then bid else ask;
    var buffer := Min(spreadBps / 2.0 / 10000.0, 0.0010) * ref;
    if side.Short? then Round2(ref - buffer) else Round2(ref + buffer)
  }

  /** The absolute vetoes, in the order they are checked, with the flags so far. */
  function HardGates(o: Order): (g: (Option<Reason>, seq<Flag>))
    ensures g.0 != Some(SizeClipped)
  {
    var i := o.inp;
    if i.killSwitch then (Some(KillSwitch), [])
    else if i.breaker then (Some(Breaker), [])
    else if i.blockEntries then (Some(BlockEntries), [])
    else if i.tickerHalted then (Some(Halted), [])
    else if i.tradesToday >= i.maxTradesPerDay then (Some(MaxTrades), [])
    else if i.minutesToClose.Some? && i.minutesToClose.value <= o.lim.blackoutFinalMin then (Some(EntryBlackout), [])
    else if i.spreadBps > o.lim.spreadMaxBps then (Some(WideSpread), [])
    else
      var flags := if i.earningsNext.None? then [EarningsUnknown] else [];
      if i.earningsNext.Some? && o.prof.earningsBlackoutExit && i.earningsNext.value <= o.earningsBlackout then
        (Some(EarningsBlackout), flags)
      else if i.side.Short? && i.exDividendNext.Some? && i.exDividendNext.value <= o.short.dividendBlackout then
        (Some(ExDividend), flags)
      else
        var flags' := if i.side.Short? && i.exDividendNext.None? then flags + [DividendUnknown] else flags;
        if i.atr.None? || i.atr.value <= 0.0 then (Some(NoAtr), flags') else (None, flags')
  }

  function RiskBudget(o: Order): real { o.cap.riskPct * o.inp.effectiveCapital }

  function StopDistance(o: Order): real
    requires o.inp.atr.Some?
  {
    o.k * o.inp.atr.value
  }

  function CatastropheDistance(o: Order): real
    requires o.inp.atr.Some?
  {
    o.prof.catastropheK * o.inp.atr.value
  }

  /** The least risk worth taking. */
  function ViableRisk(o: Order): real { o.cap.minViable * RiskBudget(o) }

  function Limit(o: Order): real { LimitPrice(o.inp.ask, o.inp.spreadBps, o.inp.side, o.inp.bid) }

  /** The call divides by both, so a caller must supply a real quote and band. */
  predicate Priced(o: Order) {
    o.k > 0.0 && Limit(o) > 0.0
  }

  predicate Gated(o: Order) { HardGates(o).0.Some? }

  predicate Applies(o: Order, c: Clip) {
    match c
    case Adv => o.inp.adv20.Some? && o.inp.adv20.value != 0.0
    case SettledCash => o.inp.side.Long?
    case BuyingPower => o.inp.side.Short?
    case ShortHeat => o.inp.side.Short?
    case GrossShort => o.inp.side.Short?
    case SectorHeat => o.inp.sector.Some? && o.inp.sectorHeat.Some? && o.cap.maxSectorPct.Some?
    case _ => true
  }

  /** The cap behind a clip, in dollars (in shares for the liquidity cap). */
  function CapOf(o: Order, c: Clip): real
    requires Applies(o, c)
  {
    var capital := o.inp.effectiveCapital;
    match c
    case Notional => o.cap.maxNotionalPct * capital
    case Adv => o.lim.advMax * o.inp.adv20.value
    case SettledCash => o.inp.settledCash
    case BuyingPower => o.inp.buyingPower
    case ShortHeat => o.short.maxShortHeatPct * capital
    case GrossShort => o.short.maxGrossPct * capital
    case CapitalHeadroom => capital
    case LaneHeat => (if o.horizon.ShortTerm? then o.cap.splitShortTerm else o.cap.splitLongTerm) * capital
    case TotalHeat => o.cap.maxHeatPct * capital
    case SectorHeat => o.cap.maxSectorPct.value * capital
  }

  /** How much of the cap is taken before this order. */
  function UsedOf(o: Order, c: Clip): real
    requires Applies(o, c)
  {
    match c
    case Notional => 0.0
    case Adv => 0.0
    case SettledCash => 0.0
    case BuyingPower => 0.0
    case ShortHeat => o.inp.openShortHeat
    case GrossShort => o.inp.grossShort
    case CapitalHeadroom => o.inp.deployed
    case LaneHeat => if o.horizon.ShortTerm? then o.inp.heatShortTerm else o.inp.heatLongTerm
    case TotalHeat => o.inp.heatShortTerm + o.inp.heatLongTerm
    case SectorHeat => o.inp.sectorHeat.value
  }

  /** What one share takes of the cap: its price, or its risk to the stop. */
  function PerShare(o: Order, c: Clip): real
    requires o.inp.atr.Some?
  {
    match c
    case Adv => 1.0
    case ShortHeat => StopDistance(o)
    case LaneHeat => StopDistance(o)
    case TotalHeat => StopDistance(o)
    case SectorHeat => StopDistance(o)
    case _ => Limit(o)
  }

  /** Shares a clip admits; all but the notional and liquidity clips stop at zero. */
  function ClipShares(o: Order, c: Clip): real
    requires Priced(o) && !Gated(o) && Applies(o, c)
  {
    PositivePerShare(o, c);
    Shares(CapOf(o, c) - UsedOf(o, c), PerShare(o, c), !c.Notional? && !c.Adv?)
  }

  function Shares(room: real, per: real, clamp: bool): real
    requires per > 0.0
  {
    (if clamp then NotBelowZero(room) else room) / per
  }

  const CLIP_ORDER: seq<Clip> := [Notional, Adv, SettledCash, BuyingPower, ShortHeat, GrossShort,
                                  CapitalHeadroom, LaneHeat, TotalHeat, SectorHeat]

  /** n more shares keep the cap behind clip c. */
  predicate Within(o: Order, c: Clip, n: nat)
    requires o.inp.atr.Some? && Applies(o, c)
  {
    UsedOf(o, c) + Scale(n, PerShare(o, c)) <= CapOf(o, c)
  }

  /** n shares fit the risk budget and every applicable cap. */
  predicate Fits(o: Order, n: nat)
    requires o.inp.atr.Some?
  {
    Scale(n, StopDistance(o)) <= RiskBudget(o) && forall c: Clip :: Applies(o, c) ==> Within(o, c, n)
  }

  predicate Viable(o: Order, n: nat)
    requires o.inp.atr.Some?
  {
    Scale(n, StopDistance(o)) >= ViableRisk(o)
  }

  lemma {:induction false} DivideCompare(n: nat, x: real, d: real)
    requires d > 0.0
    ensures n as real <= x / d <==> Scale(n, d) <= x
  {
    var q := x / d;
    assert q * d == x;
    if n as real <= q { Times(n as real, q, d); } else { Times(q, n as real, d); assert (n as real - q) * d > 0.0; }
  }

  lemma {:induction false} SharesCompare(n: nat, room: real, per: real, clamp: bool)
    requires per > 0.0 && n >= 1
    ensures n as real <= Shares(room, per, clamp) <==> Scale(n, per) <= room
  {
    DivideCompare(n, if clamp then NotBelowZero(room) else room, per);
    ScalePositive(n, per);
  }

  /** A share count of one or more passes a clip exactly when it keeps the cap. */
  lemma {:induction false} ClipIsCap(o: Order, c: Clip, n: nat)
    requires Priced(o) && !Gated(o) && Applies(o, c) && n >= 1
    ensures n as real <= ClipShares(o, c) <==> Within(o, c, n)
  {
    PositivePerShare(o, c);
    hide HardGates, StopDistance, Limit, CapOf, UsedOf, PerShare, Shares, Scale;
    SharesCompare(n, CapOf(o, c) - UsedOf(o, c), PerShare(o, c), !c.Notional? && !c.Adv?);
  }

  lemma {:induction false} PositivePerShare(o: Order, c: Clip)
    requires Priced(o) && !Gated(o)
    ensures o.inp.atr.Some? && PerShare(o, c) > 0.0
  {
    PositiveStop(o);
    hide Limit, StopDistance, HardGates;
  }

  lemma {:induction false} PositiveStop(o: Order)
    requires Priced(o) && !Gated(o)
    ensures o.inp.atr.Some? && o.inp.atr.value > 0.0 && StopDistance(o) > 0.0
  {
    hide LimitPrice;
  }

  // ------------------------------------------------------------ the chain

  /** The clips that apply, in the order the chain lists them. */
  function Listed(o: Order, cs: seq<Clip>): seq<(Clip, real)>
    requires Priced(o) && !Gated(o)
  {
    if cs == [] then []
    else
      var rest, c := Listed(o, cs[..|cs| - 1]), cs[|cs| - 1];
      if Applies(o, c) then rest + [(c, ClipShares(o, c))] else rest
  }

  /** The first of the smallest entries. */
  function Tightest(xs: seq<(Clip, real)>): (r: (Clip, real))
    requires xs != []
    ensures r in xs && forall x <- xs :: r.1 <= x.1
  {
    var x := xs[|xs| - 1];
    if |xs| == 1 then x
    else
      var t := Tightest(xs[..|xs| - 1]);
      assert xs == xs[..|xs| - 1] + [x];
      if x.1 < t.1 then x else t
  }

  /** Of equals the first listed. */
  lemma {:induction false} TightestFirst(xs: seq<(Clip, real)>)
    requires xs != []
    ensures exists i :: 0 <= i < |xs| && xs[i] == Tightest(xs) && forall j :: 0 <= j < i ==> xs[j].1 > Tightest(xs).1
    decreases |xs|
  {
    var x, front := xs[|xs| - 1], xs[..|xs| - 1];
    if |xs| > 1 {
      TightestFirst(front);
      var i :| 0 <= i < |front| && front[i] == Tightest(front) && forall j :: 0 <= j < i ==> front[j].1 > Tightest(front).1;
      assert forall j :: 0 <= j < |front| ==> xs[j] == front[j] && front[j] in front;
      if x.1 < Tightest(front).1 {
        assert xs[|xs| - 1] == Tightest(xs);
      } else {
        assert xs[i] == Tightest(xs);
      }
    } else {
      assert xs[0] == Tightest(xs);
    }
  }

  lemma {:induction false} ListedElements(o: Order, cs: seq<Clip>)
    requires Priced(o) && !Gated(o)
    ensures forall x <- Listed(o, cs) :: Applies(o, x.0) && x.1 == ClipShares(o, x.0)
    ensures forall c <- cs :: Applies(o, c) ==> (c, ClipShares(o, c)) in Listed(o, cs)
  {
    hide ClipShares, Priced, Gated, Applies;
    if cs != [] {
      ListedElements(o, cs[..|cs| - 1]);
      assert cs == cs[..|cs| - 1] + [cs[|cs| - 1]];
    }
  }

  lemma {:induction false} EveryClipListed(c: Clip)
    ensures c in CLIP_ORDER
  {
    match c
    case Notional => assert CLIP_ORDER[0] == c;
    case Adv => assert CLIP_ORDER[1] == c;
    case SettledCash => assert CLIP_ORDER[2] == c;
    case BuyingPower => assert CLIP_ORDER[3] == c;
    case ShortHeat => assert CLIP_ORDER[4] == c;
    case GrossShort => assert CLIP_ORDER[5] == c;
    case CapitalHeadroom => assert CLIP_ORDER[6] == c;
    case LaneHeat => assert CLIP_ORDER[7] == c;
    case TotalHeat => assert CLIP_ORDER[8] == c;
    case SectorHeat => assert CLIP_ORDER[9] == c;
  }

  lemma {:induction false} SomeClip(o: Order)
    requires Priced(o) && !Gated(o)
    ensures Listed(o, CLIP_ORDER) != []
  {
    hide ClipShares, Listed;
    EveryClipListed(Notional);
    ListedElements(o, CLIP_ORDER);
  }

  function RawQty(o: Order): real
    requires Priced(o) && !Gated(o)
  {
    PositiveStop(o);
    RiskBudget(o) / StopDistance(o)
  }

  function BindingClip(o: Order): (Clip, real)
    requires Priced(o) && !Gated(o)
  {
    SomeClip(o);
    Tightest(Listed(o, CLIP_ORDER))
  }

  function Qty(o: Order): int
    requires Priced(o) && !Gated(o)
  {
    Min(RawQty(o), BindingClip(o).1).Floor
  }

  /** A sizing call; the verdict is SIZE with its numbers or VETO with a reason. */
  function SizeOrder(o: Order): Result
    requires Gated(o) || Priced(o)
  {
    var (veto, flags) := HardGates(o);
    if veto.Some? then Veto(veto.value, flags)
    else
      PositiveStop(o);
      var allFlags := if o.inp.sector.None? then flags + [SectorUnknown] else flags;
      var qty, stop, limit, binding := Qty(o), StopDistance(o), Limit(o), BindingClip(o);
      if qty <= 0 || !Viable(o, qty) then Veto(SizeClipped, allFlags)
      else Size(qty, limit, Round4(stop), EntryStop(o.inp.side, limit, stop),
                EntryStop(o.inp.side, limit, CatastropheDistance(o)),
                Round2(RiskBudget(o)), Round2(Scale(qty, stop)),
                if binding.1 < RawQty(o) then Some(binding.0) else None, allFlags)
  }

  // ---------------------------------------------------- sound and tight

  lemma {:induction false} BelowFloor(n: int, x: real)
    ensures n <= x.Floor <==> n as real <= x
  {
  }

  lemma {:induction false} UnderEveryClip(o: Order, n: nat)
    requires Priced(o) && !Gated(o) && n >= 1
    ensures o.inp.atr.Some?
    ensures n as real <= BindingClip(o).1 <==> forall c: Clip :: Applies(o, c) ==> Within(o, c, n)
  {
    PositiveStop(o);
    hide ClipShares, Within, Listed, HardGates, Priced, Gated, Applies, StopDistance;
    ListedElements(o, CLIP_ORDER);
    SomeClip(o);
    var b := BindingClip(o);
    assert Applies(o, b.0) && b.1 == ClipShares(o, b.0);
    ClipIsCap(o, b.0, n);
    forall c: Clip | Applies(o, c) && n as real <= b.1 ensures Within(o, c, n) {
      EveryClipListed(c);
      assert (c, ClipShares(o, c)) in Listed(o, CLIP_ORDER);
      ClipIsCap(o, c, n);
    }
  }

  /** The computed quantity is exactly the largest count that fits. */
  lemma {:induction false} QtyIsLargestFit(o: Order, n: nat)
    requires Priced(o) && !Gated(o) && n >= 1
    ensures o.inp.atr.Some?
    ensures n <= Qty(o) <==> Fits(o, n)
  {
    PositiveStop(o);
    hide Within, BindingClip, HardGates, Priced, Gated, Applies, RiskBudget, StopDistance, Scale;
    BelowFloor(n, Min(RawQty(o), BindingClip(o).1));
    DivideCompare(n, RiskBudget(o), StopDistance(o));
    UnderEveryClip(o, n);
  }

  lemma {:induction false} MoreSharesMoreRisk(o: Order, n: nat, m: nat)
    requires Priced(o) && !Gated(o) && n <= m
    ensures o.inp.atr.Some?
    ensures Viable(o, n) ==> Viable(o, m)
  {
    PositiveStop(o);
    hide StopDistance, HardGates, Limit, RiskBudget, Scale;
    ScaleShrinks(n, m, StopDistance(o), StopDistance(o));
  }

  /** SIZE means at least one share, every cap and the budget kept, the viability
      floor met, and one more share breaking the budget or a cap. */
  lemma {:induction false} SizeIsSoundAndTight(o: Order)
    requires Priced(o) && !Gated(o) && SizeOrder(o).Size?
    ensures o.inp.atr.Some?
    ensures var q := SizeOrder(o).qty;
      q >= 1 && Fits(o, q) && Viable(o, q) && !Fits(o, q + 1)
  {
    hide Fits, Viable, HardGates, Priced, Limit, StopDistance, Qty, BindingClip, RawQty;
    PositiveStop(o);
    QtyIsLargestFit(o, Qty(o));
    QtyIsLargestFit(o, Qty(o) + 1);
  }

  /** Past the hard gates the verdict is SIZE exactly when some viable share count
      fits; otherwise it is SIZE_CLIPPED. */
  lemma {:induction false} SizeIffSomeViableFit(o: Order)
    requires Priced(o) && !Gated(o)
    ensures o.inp.atr.Some?
    ensures SizeOrder(o).Size? <==> exists n: nat :: n >= 1 && Fits(o, n) && Viable(o, n)
    ensures !SizeOrder(o).Size? ==> SizeOrder(o).reason == SizeClipped
  {
    hide Fits, Viable, HardGates, Priced, Limit, StopDistance, Qty, BindingClip, RawQty;
    PositiveStop(o);
    if SizeOrder(o).Size? {
      SizeIsSoundAndTight(o);
    }
    forall n: nat | n >= 1 && Fits(o, n) && Viable(o, n) ensures SizeOrder(o).Size? {
      QtyIsLargestFit(o, n);
      MoreSharesMoreRisk(o, n, Qty(o));
    }
  }

  /** A cap already used up vetoes the order. */
  lemma {:induction false} NoRoomVetoes(o: Order, c: Clip)
    requires Priced(o) && !Gated(o) && Applies(o, c) && CapOf(o, c) <= UsedOf(o, c)
    ensures SizeOrder(o).Veto? && SizeOrder(o).reason == SizeClipped
  {
    hide HardGates, Priced, Limit, StopDistance, CapOf, UsedOf, SizeOrder, PerShare, Scale;
    SizeIffSomeViableFit(o);
    if SizeOrder(o).Size? {
      SizeIsSoundAndTight(o);
      PositivePerShare(o, c);
      var q := SizeOrder(o).qty;
      assert Within(o, c, q);
      ScalePositive(q, PerShare(o, c));
      assert false;
    }
  }

  /** A sized order never goes out under an operational gate, whatever its numbers. */
  lemma {:induction false} GatesDominate(o: Order)
    requires Gated(o)
    ensures SizeOrder(o).Veto? && !SizeOrder(o).reason.SizeClipped?
  {
    hide Limit, StopDistance, Round2, Round4, BindingClip, RawQty, Viable, Qty;
    hide HardGates;
    assert SizeOrder(o) == Veto(HardGates(o).0.value, HardGates(o).1);
  }

  // ------------------------------------------------------- the whole verdict

  /** The condition of one gate, whatever the others say. */
  predicate Raised(o: Order, r: Reason) {
    match r
    case KillSwitch => o.inp.killSwitch
    case Breaker => o.inp.breaker
    case BlockEntries => o.inp.blockEntries
    case Halted => o.inp.tickerHalted
    case MaxTrades => o.inp.tradesToday >= o.inp.maxTradesPerDay
    case EntryBlackout => o.inp.minutesToClose.Some? && o.inp.minutesToClose.value <= o.lim.blackoutFinalMin
    case WideSpread => o.inp.spreadBps > o.lim.spreadMaxBps
    case EarningsBlackout =>
      o.inp.earningsNext.Some? && o.prof.earningsBlackoutExit && o.inp.earningsNext.value <= o.earningsBlackout
    case ExDividend =>
      o.inp.side.Short? && o.inp.exDividendNext.Some? && o.inp.exDividendNext.value <= o.short.dividendBlackout
    case NoAtr => o.inp.atr.None? || o.inp.atr.value <= 0.0
    case SizeClipped => false
  }

  const GATES: seq<Reason> := [KillSwitch, Breaker, BlockEntries, Halted, MaxTrades, EntryBlackout, WideSpread,
                               EarningsBlackout, ExDividend, NoAtr]

  /** Gate k is the first that is raised. */
  predicate FirstRaised(o: Order, k: int) {
    0 <= k < |GATES| && Raised(o, GATES[k]) && forall i :: 0 <= i < k ==> !Raised(o, GATES[i])
  }

  function GateIndex(r: Reason): (k: nat)
    requires r != SizeClipped
    ensures k < |GATES| && GATES[k] == r
  {
    match r
    case KillSwitch => 0 case Breaker => 1 case BlockEntries => 2 case Halted => 3 case MaxTrades => 4
    case EntryBlackout => 5 case WideSpread => 6 case EarningsBlackout => 7 case ExDividend => 8 case NoAtr => 9
  }

  lemma {:induction false} GatedByFirst(o: Order)
    ensures HardGates(o).0.Some? <==> exists r :: Raised(o, r)
    ensures HardGates(o).0.Some? ==> exists k :: FirstRaised(o, k) && HardGates(o).0.value == GATES[k]
  {
    if g :| Raised(o, g) {
      RaisedGates(o, GateIndex(g));
    }
    if HardGates(o).0.Some? {
      assert FirstRaised(o, GateIndex(HardGates(o).0.value));
    }
  }

  lemma {:induction false} RaisedGates(o: Order, k: nat)
    requires k < |GATES| && Raised(o, GATES[k])
    ensures HardGates(o).0.Some?
  {
  }

  /** Exactly when: an order is sized if and only if no gate is raised and some viable share
      count fits; otherwise the verdict names the first gate raised, or SIZE_CLIPPED when no
      gate is. */
  lemma {:induction false} VerdictExactly(o: Order)
    requires Gated(o) || Priced(o)
    ensures SizeOrder(o).Size? <==>
      (forall r :: !Raised(o, r)) && o.inp.atr.Some? && exists n: nat :: n >= 1 && Fits(o, n) && Viable(o, n)
    ensures SizeOrder(o).Veto? ==>
      if SizeOrder(o).reason == SizeClipped then forall r :: !Raised(o, r)
      else exists k :: FirstRaised(o, k) && SizeOrder(o).reason == GATES[k]
  {
    GatedByFirst(o);
    hide Raised, FirstRaised, HardGates, SizeOrder, Fits, Viable;
    if Gated(o) {
      GatesDominate(o);
      GateIsReason(o);
    } else {
      SizeIffSomeViableFit(o);
    }
  }

  lemma {:induction false} GateIsReason(o: Order)
    requires Gated(o)
    ensures SizeOrder(o).Veto? && SizeOrder(o).reason == HardGates(o).0.value
  {
    hide HardGates, Qty, BindingClip, Viable;
  }

  /** Fill the clip table in order, then take its first smallest entry. */
  method TightestClip(o: Order) returns (binding: (Clip, real))
    requires Priced(o) && !Gated(o)
    ensures binding == BindingClip(o)
  {
    hide ClipShares, Applies, Priced, Gated;
    var clips: seq<(Clip, real)> := [];
    for i := 0 to |CLIP_ORDER|
      invariant clips == Listed(o, CLIP_ORDER[..i])
    {
      var c := CLIP_ORDER[i];
      assert CLIP_ORDER[..i + 1][..i] == CLIP_ORDER[..i];
      if Applies(o, c) {
        clips := clips + [(c, ClipShares(o, c))];
      }
    }
    assert CLIP_ORDER[..|CLIP_ORDER|] == CLIP_ORDER;
    SomeClip(o);
    binding := clips[0];
    for i := 1 to |clips|
      invariant binding == Tightest(clips[..i])
    {
      assert clips[..i + 1][..i] == clips[..i];
      if clips[i].1 < binding.1 { binding := clips[i]; }
    }
    assert clips[..|clips|] == clips;
  }

  method SizeEntry(o: Order) returns (r: Result)
    requires Gated(o) || Priced(o)
    ensures r == SizeOrder(o)
  {
    hide HardGates, Limit, StopDistance, Round2, Round4, RiskBudget, Priced, EntryStop, BindingClip, Scale,
         CatastropheDistance, ViableRisk;
    var (veto, flags) := HardGates(o);
    if veto.Some? { return Veto(veto.value, flags); }
    PositiveStop(o);
    var budget, stop, limit := RiskBudget(o), StopDistance(o), Limit(o);
    var raw := budget / stop;
    assert raw == RawQty(o);
    var binding := TightestClip(o);
    var qty := Min(raw, binding.1).Floor;
    assert qty == Qty(o);
    if o.inp.sector.None? { flags := flags + [SectorUnknown]; }
    var actualRisk := Scale(if qty > 0 then qty else 0, stop);
    assert qty > 0 ==> (Viable(o, qty) <==> actualRisk >= ViableRisk(o));
    hide RawQty, Qty, Viable;
    if qty <= 0 || actualRisk < ViableRisk(o) { return Veto(SizeClipped, flags); }
    r := Size(qty, limit, Round4(stop), EntryStop(o.inp.side, limit, stop),
              EntryStop(o.inp.side, limit, CatastropheDistance(o)),
              Round2(budget), Round2(actualRisk),
              if binding.1 < raw then Some(binding.0) else None, flags);
  }
}
