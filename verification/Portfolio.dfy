/** The portfolio A3 builds: what is open, what is still in flight, and how much of
    every cap both take, over any run of sizing, fills, tightenings and exits. */
module Portfolio {
  import opened Direction
  import opened Options
  import opened Rounding
  import opened Sizing

  datatype Position = Position(horizon: Horizon, side: Side, qty: nat, entry: real, stop: real)

  /** Lanes bring their own risk, notional and sector policy but share the heat caps. */
  predicate SameHeatCaps(c: Capital, base: Capital) {
    && c.maxHeatPct == base.maxHeatPct
    && c.splitShortTerm == base.splitShortTerm && c.splitLongTerm == base.splitLongTerm
  }

  // -------------------------------------------------------------- meters

  /** The quantities that have a cap. */
  datatype Meter = Lane(h: Horizon) | AllHeat | ShortBookHeat | GrossShortNotional | Deployed

  function Load(m: Meter, p: Position): real {
    match m
    case Lane(h) => if p.horizon == h then OpenRisk(p.side, p.entry, p.stop, p.qty) else 0.0
    case AllHeat => OpenRisk(p.side, p.entry, p.stop, p.qty)
    case ShortBookHeat => if p.side.Short? then OpenRisk(p.side, p.entry, p.stop, p.qty) else 0.0
    case GrossShortNotional => if p.side.Short? then Scale(p.qty, p.entry) else 0.0
    case Deployed => Scale(p.qty, p.entry)
  }

  function Sum(m: Meter, ps: seq<Position>): real {
    if ps == [] then 0.0 else Sum(m, ps[..|ps| - 1]) + Load(m, ps[|ps| - 1])
  }

  /** A journal row: a missing stop reads as 0 and a missing side as LONG. */
  datatype Row = Row(horizon: Horizon, qtyOpen: nat, avgEntry: real, stop: Option<real>, side: Option<Side>)

  function FromRow(r: Row): Position {
    Position(r.horizon, if r.side.Some? then r.side.value else Long, r.qtyOpen, r.avgEntry,
             if r.stop.Some? then r.stop.value else 0.0)
  }

  function FromRows(rows: seq<Row>): seq<Position> {
    seq(|rows|, i requires 0 <= i < |rows| => FromRow(rows[i]))
  }

  /** The four figures A3 reads back before sizing. */
  method PortfolioState(rows: seq<Row>)
    returns (heatShortTerm: real, heatLongTerm: real, notional: real, shortHeat: real, shortNotional: real)
    ensures var ps := FromRows(rows);
      && heatShortTerm == Sum(Lane(ShortTerm), ps) && heatLongTerm == Sum(Lane(LongTerm), ps)
      && heatShortTerm + heatLongTerm == Sum(AllHeat, ps)
      && notional == Sum(Deployed, ps)
      && shortHeat == Sum(ShortBookHeat, ps) && shortNotional == Sum(GrossShortNotional, ps)
  {
    hide OpenRisk;
    heatShortTerm, heatLongTerm, notional, shortHeat, shortNotional := 0.0, 0.0, 0.0, 0.0, 0.0;
    assert FromRows(rows)[..0] == [];
    for i := 0 to |rows|
      invariant var ps := FromRows(rows)[..i];
        && heatShortTerm == Sum(Lane(ShortTerm), ps) && heatLongTerm == Sum(Lane(LongTerm), ps)
        && heatShortTerm + heatLongTerm == Sum(AllHeat, ps)
        && notional == Sum(Deployed, ps)
        && shortHeat == Sum(ShortBookHeat, ps) && shortNotional == Sum(GrossShortNotional, ps)
    {
      var r := rows[i];
      var stop := if r.stop.Some? then r.stop.value else 0.0;
      var side := if r.side.Some? then r.side.value else Long;
      var risk := OpenRisk(side, r.avgEntry, stop, r.qtyOpen);
      if r.horizon.ShortTerm? { heatShortTerm := heatShortTerm + risk; } else { heatLongTerm := heatLongTerm + risk; }
      notional := notional + Scale(r.qtyOpen, r.avgEntry);
      if side.Short? {
        shortHeat := shortHeat + risk;
        shortNotional := shortNotional + Scale(r.qtyOpen, r.avgEntry);
      }
      ghost var ps := FromRows(rows)[..i + 1];
      assert ps[..i] == FromRows(rows)[..i] && ps[i] == FromRow(r);
    }
    assert FromRows(rows)[..|rows|] == FromRows(rows);
  }

  /** What one row weighs: its risk from average entry to stop on its side, or its cost. */
  function RowLoad(m: Meter, r: Row): real {
    var short, stop := r.side == Some(Short), if r.stop.Some? then r.stop.value else 0.0;
    var away := if short then stop - r.avgEntry else r.avgEntry - stop;
    var risk := if away > 0.0 then r.qtyOpen as real * away else 0.0;
    var cost := r.qtyOpen as real * r.avgEntry;
    match m
    case Lane(h) => if r.horizon == h then risk else 0.0
    case AllHeat => risk
    case ShortBookHeat => if short then risk else 0.0
    case GrossShortNotional => if short then cost else 0.0
    case Deployed => cost
  }

  function RowSum(m: Meter, rows: seq<Row>): real {
    if rows == [] then 0.0 else RowSum(m, rows[..|rows| - 1]) + RowLoad(m, rows[|rows| - 1])
  }

  lemma {:induction false} LoadOfRow(m: Meter, r: Row)
    ensures Load(m, FromRow(r)) == RowLoad(m, r)
  {
    ScaleAdds(r.qtyOpen, 0.0, 0.0);
  }

  /** The figures A3 reads back, from the rows as they are journaled. */
  lemma {:induction false} SumOfRows(m: Meter, rows: seq<Row>)
    ensures Sum(m, FromRows(rows)) == RowSum(m, rows)
    decreases |rows|
  {
    hide Load, RowLoad;
    if rows != [] {
      var ps := FromRows(rows);
      assert ps[..|rows| - 1] == FromRows(rows[..|rows| - 1]);
      SumOfRows(m, rows[..|rows| - 1]);
      LoadOfRow(m, rows[|rows| - 1]);
    }
  }

  // ----------------------------------------------------------------- runs

  /** Open positions, and sized intents as the positions they would become. */
  datatype Account = Account(open: seq<Position>, inflight: seq<Position>)

  datatype Event =
    | Enter(o: Order)                 // size against the open book and send
    | Fill(i: nat, filled: nat)       // intent i fills at its limit, perhaps in part
    | Drop(i: nat)                    // intent i is rejected, cancelled or expires
    | Tighten(j: nat, stop: real)     // the stop of position j moves
    | Reduce(j: nat, left: nat)       // position j sells down, to zero when closed

  /** What stays fixed over a run. */
  datatype Policy = Policy(base: Capital, short: Shorting, capital: real)

  /** How large single intents get: `others` is how many may already be in flight
      when one is sized, `tick` how much rounding may add to a stop distance. */
  datatype Bounds = Bounds(others: nat, budget: real, notional: real, maxQty: nat, tick: real)

  function Entered(o: Order): Position
    requires (Gated(o) || Priced(o)) && SizeOrder(o).Size?
  {
    var r := SizeOrder(o);
    Position(o.horizon, o.inp.side, r.qty, r.limit, r.initialStop)
  }

  /** The sizing inputs come from the open book alone: intents are invisible. */
  predicate SeesOpen(a: Account, pol: Policy, o: Order) {
    && o.inp.effectiveCapital == pol.capital && SameHeatCaps(o.cap, pol.base)
    && o.short.maxShortHeatPct == pol.short.maxShortHeatPct && o.short.maxGrossPct == pol.short.maxGrossPct
    && o.inp.heatShortTerm == Sum(Lane(ShortTerm), a.open) && o.inp.heatLongTerm == Sum(Lane(LongTerm), a.open)
    && o.inp.openShortHeat == Sum(ShortBookHeat, a.open)
    && o.inp.grossShort == Sum(GrossShortNotional, a.open) && o.inp.deployed == Sum(Deployed, a.open)
  }

  predicate Sized(bd: Bounds, o: Order) {
    && Priced(o) && !Gated(o) && SizeOrder(o).Size?
    && RiskBudget(o) <= bd.budget && o.cap.maxNotionalPct * o.inp.effectiveCapital <= bd.notional
    && Entered(o).qty <= bd.maxQty
    && RiskPerShare(o.inp.side, Entered(o).entry, Entered(o).stop) <= StopDistanceOf(o) + bd.tick
  }

  function StopDistanceOf(o: Order): real
    requires Priced(o) && !Gated(o)
  {
    PositiveStop(o);
    StopDistance(o)
  }

  predicate Enabled(a: Account, pol: Policy, bd: Bounds, e: Event) {
    match e
    case Enter(o) => SeesOpen(a, pol, o) && Sized(bd, o) && |a.inflight| <= bd.others
    case Fill(i, filled) => i < |a.inflight| && filled <= a.inflight[i].qty
    case Drop(i) => i < |a.inflight|
    case Tighten(j, stop) =>
      j < |a.open| && if a.open[j].side.Long? then stop >= a.open[j].stop else stop <= a.open[j].stop
    case Reduce(j, left) => j < |a.open| && left <= a.open[j].qty
  }

  function Without(ps: seq<Position>, i: nat): seq<Position>
    requires i < |ps|
  {
    ps[..i] + ps[i + 1..]
  }

  function Apply(a: Account, pol: Policy, bd: Bounds, e: Event): Account
    requires Enabled(a, pol, bd, e)
  {
    match e
    case Enter(o) => a.(inflight := a.inflight + [Entered(o)])
    case Fill(i, filled) =>
      Account(a.open + [a.inflight[i].(qty := filled)], Without(a.inflight, i))
    case Drop(i) => a.(inflight := Without(a.inflight, i))
    case Tighten(j, stop) => a.(open := a.open[j := a.open[j].(stop := stop)])
    case Reduce(j, left) => a.(open := a.open[j := a.open[j].(qty := left)])
  }

  function MeterCap(m: Meter, pol: Policy): real {
    match m
    case Lane(h) => (if h.ShortTerm? then pol.base.splitShortTerm else pol.base.splitLongTerm) * pol.capital
    case AllHeat => pol.base.maxHeatPct * pol.capital
    case ShortBookHeat => pol.short.maxShortHeatPct * pol.capital
    case GrossShortNotional => pol.short.maxGrossPct * pol.capital
    case Deployed => pol.capital
  }

  predicate IsHeat(m: Meter) { m.Lane? || m.AllHeat? || m.ShortBookHeat? }

  /** What rounding the stop to cents can add to one intent. */
  function Slack(m: Meter, bd: Bounds): real { if IsHeat(m) then Scale(bd.maxQty, bd.tick) else 0.0 }

  function PerIntent(m: Meter, bd: Bounds): real {
    if IsHeat(m) then bd.budget + Slack(m, bd) else bd.notional
  }

  function Ceiling(m: Meter, pol: Policy, bd: Bounds): real {
    MeterCap(m, pol) + Slack(m, bd) + Scale(bd.others, PerIntent(m, bd))
  }

  predicate Loads(m: Meter, ps: seq<Position>, most: real) { forall p <- ps :: 0.0 <= Load(m, p) <= most }

  predicate NonNegative(ps: seq<Position>) { forall p <- ps :: p.entry >= 0.0 }

  predicate Safe(m: Meter, pol: Policy, bd: Bounds, a: Account) {
    && NonNegative(a.open) && NonNegative(a.inflight)
    && Loads(m, a.inflight, PerIntent(m, bd))
    && Sum(m, a.open) + Sum(m, a.inflight) <= Ceiling(m, pol, bd)
  }

  // ------------------------------------------------------- sums and loads

  lemma {:induction false} SumSnoc(m: Meter, ps: seq<Position>, p: Position)
    ensures Sum(m, ps + [p]) == Sum(m, ps) + Load(m, p)
  {
    hide Load;
    assert (ps + [p])[..|ps|] == ps;
  }

  lemma {:induction false} SumConcat(m: Meter, ps: seq<Position>, qs: seq<Position>)
    ensures Sum(m, ps + qs) == Sum(m, ps) + Sum(m, qs)
  {
    hide Load;
    if qs == [] {
      assert ps + qs == ps;
    } else {
      var init, q := qs[..|qs| - 1], qs[|qs| - 1];
      SumConcat(m, ps, init);
      assert ps + qs == (ps + init) + [q];
      SumSnoc(m, ps + init, q);
    }
  }

  lemma {:induction false} SumSplit(m: Meter, ps: seq<Position>, i: nat)
    requires i < |ps|
    ensures Sum(m, ps) == Sum(m, ps[..i]) + Load(m, ps[i]) + Sum(m, ps[i + 1..])
  {
    hide Load;
    assert ps == (ps[..i] + [ps[i]]) + ps[i + 1..];
    SumConcat(m, ps[..i] + [ps[i]], ps[i + 1..]);
    SumSnoc(m, ps[..i], ps[i]);
  }

  lemma {:induction false} SumWithout(m: Meter, ps: seq<Position>, i: nat)
    requires i < |ps|
    ensures Sum(m, Without(ps, i)) == Sum(m, ps) - Load(m, ps[i])
  {
    hide Load;
    SumSplit(m, ps, i);
    SumConcat(m, ps[..i], ps[i + 1..]);
  }

  lemma {:induction false} SumReplace(m: Meter, ps: seq<Position>, i: nat, p: Position)
    requires i < |ps|
    ensures Sum(m, ps[i := p]) == Sum(m, ps) - Load(m, ps[i]) + Load(m, p)
  {
    hide Load;
    SumSplit(m, ps, i);
    var qs := ps[i := p];
    SumSplit(m, qs, i);
    assert qs[..i] == ps[..i] && qs[i + 1..] == ps[i + 1..];
  }

  lemma {:induction false} SumAtMost(m: Meter, ps: seq<Position>, most: real)
    requires Loads(m, ps, most)
    ensures 0.0 <= Sum(m, ps) <= Scale(|ps|, most)
  {
    hide Load, Scale;
    ScaleAdds(0, most, most);
    if ps != [] {
      SumAtMost(m, ps[..|ps| - 1], most);
      assert ps[|ps| - 1] in ps;
      ScaleAdds(|ps| - 1, most, most);
    }
  }

  /** Fewer shares or a tighter stop never weigh more on any meter. */
  lemma {:induction false} LoadShrinks(m: Meter, p: Position, q: Position)
    requires p.entry >= 0.0 && q == p.(qty := q.qty, stop := q.stop) && q.qty <= p.qty
    requires if p.side.Long? then q.stop >= p.stop else q.stop <= p.stop
    ensures 0.0 <= Load(m, q) <= Load(m, p)
  {
    hide OpenRisk, Scale;
    OpenRiskShrinks(p.side, p.entry, p.stop, q.stop, p.qty, q.qty);
    ScaleShrinks(q.qty, p.qty, p.entry, p.entry);
  }

  // --------------------------------------------------------- one sizing

  /** The clip that guards a meter. */
  function GuardOf(m: Meter): Clip {
    match m
    case Lane(h) => LaneHeat
    case AllHeat => TotalHeat
    case ShortBookHeat => ShortHeat
    case GrossShortNotional => GrossShort
    case Deployed => CapitalHeadroom
  }

  predicate Weighs(m: Meter, o: Order) {
    match m
    case Lane(h) => o.horizon == h
    case AllHeat => true
    case ShortBookHeat => o.inp.side.Short?
    case GrossShortNotional => o.inp.side.Short?
    case Deployed => true
  }

  lemma {:induction false} HeatOfRows(ps: seq<Position>)
    ensures Sum(Lane(ShortTerm), ps) + Sum(Lane(LongTerm), ps) == Sum(AllHeat, ps)
  {
    hide OpenRisk;
    if ps != [] { HeatOfRows(ps[..|ps| - 1]); }
  }

  lemma {:induction false} GuardReadsMeter(m: Meter, a: Account, pol: Policy, o: Order)
    requires SeesOpen(a, pol, o) && Weighs(m, o)
    ensures Applies(o, GuardOf(m))
    ensures CapOf(o, GuardOf(m)) == MeterCap(m, pol) && UsedOf(o, GuardOf(m)) == Sum(m, a.open)
  {
    hide Sum;
    HeatOfRows(a.open);
  }

  lemma {:induction false} HeatLoad(risk: real, dist: real, tick: real, qty: nat, maxQty: nat)
    requires 0.0 <= risk <= dist + tick && qty <= maxQty && tick >= 0.0
    ensures 0.0 <= Scale(qty, risk) <= Scale(qty, dist) + Scale(maxQty, tick)
  {
    hide Scale;
    ScaleShrinks(qty, qty, risk, dist + tick);
    ScaleAdds(qty, dist, tick);
    ScaleShrinks(qty, maxQty, tick, tick);
  }

  /** What the sizing theorem says about the intent it sends. */
  lemma {:induction false} SizedFacts(bd: Bounds, o: Order)
    requires Sized(bd, o)
    ensures o.inp.atr.Some? && Fits(o, Entered(o).qty)
    ensures var p := Entered(o);
      && p.horizon == o.horizon && p.side == o.inp.side && p.entry == Limit(o) > 0.0
      && Scale(p.qty, StopDistanceOf(o)) <= bd.budget
      && Scale(p.qty, p.entry) <= bd.notional
  {
    hide HardGates, LimitPrice, RiskBudget, Qty, BindingClip, RawQty, StopDistance, Viable, EntryStop, Fits;
    SizeIsSoundAndTight(o);
    FitsNotional(o, Entered(o).qty);
  }

  lemma {:induction false} FitsNotional(o: Order, n: nat)
    requires o.inp.atr.Some? && Fits(o, n)
    ensures Scale(n, Limit(o)) <= o.cap.maxNotionalPct * o.inp.effectiveCapital
    ensures Scale(n, StopDistance(o)) <= RiskBudget(o)
  {
    hide Limit, StopDistance, RiskBudget, Scale;
    assert Within(o, Notional, n);
  }

  lemma {:induction false} HeatEnter(m: Meter, a: Account, pol: Policy, bd: Bounds, o: Order)
    requires SeesOpen(a, pol, o) && Sized(bd, o) && bd.tick >= 0.0 && IsHeat(m) && Weighs(m, o)
    ensures 0.0 <= Load(m, Entered(o)) <= PerIntent(m, bd)
    ensures Sum(m, a.open) + Load(m, Entered(o)) <= MeterCap(m, pol) + Slack(m, bd)
  {
    hide Sum, SizeOrder, Limit, StopDistance, HardGates, CapOf, UsedOf, MeterCap, RiskBudget, Fits, Scale;
    SizedFacts(bd, o);
    var p := Entered(o);
    GuardReadsMeter(m, a, pol, o);
    FitsWithin(o, GuardOf(m), p.qty);
    hide SeesOpen, Sized;
    HeatLoad(RiskPerShare(p.side, p.entry, p.stop), StopDistanceOf(o), bd.tick, p.qty, bd.maxQty);
  }

  lemma {:induction false} FitsWithin(o: Order, c: Clip, n: nat)
    requires o.inp.atr.Some? && Applies(o, c) && Fits(o, n)
    ensures UsedOf(o, c) + Scale(n, PerShare(o, c)) <= CapOf(o, c)
  {
    assert Within(o, c, n);
  }

  lemma {:induction false} NotionalEnter(m: Meter, a: Account, pol: Policy, bd: Bounds, o: Order)
    requires SeesOpen(a, pol, o) && Sized(bd, o) && !IsHeat(m) && Weighs(m, o)
    ensures 0.0 <= Load(m, Entered(o)) <= PerIntent(m, bd)
    ensures Sum(m, a.open) + Load(m, Entered(o)) <= MeterCap(m, pol) + Slack(m, bd)
  {
    hide Sum, SizeOrder, Limit, StopDistance, HardGates, CapOf, UsedOf, MeterCap, RiskBudget, Fits, Scale;
    SizedFacts(bd, o);
    var p := Entered(o);
    GuardReadsMeter(m, a, pol, o);
    FitsWithin(o, GuardOf(m), p.qty);
    hide SeesOpen, Sized;
    ScaleShrinks(p.qty, p.qty, 0.0, p.entry);
    ScaleAdds(p.qty, 0.0, 0.0);
  }

  // ------------------------------------------------------------- the run

  lemma {:induction false} EnterSafe(m: Meter, pol: Policy, bd: Bounds, a: Account, o: Order)
    requires Safe(m, pol, bd, a) && Enabled(a, pol, bd, Enter(o))
    requires bd.tick >= 0.0 && PerIntent(m, bd) >= 0.0
    ensures Safe(m, pol, bd, Apply(a, pol, bd, Enter(o)))
  {
    hide Sum, Load, SizeOrder, MeterCap, Slack, PerIntent, SeesOpen, Scale;
    EnterOne(m, a, pol, bd, o);
    var p := Entered(o);
    hide Sized, Priced, HardGates, Loads, Weighs;
    SumSnoc(m, a.inflight, p);
    SumAtMost(m, a.inflight, PerIntent(m, bd));
    ScaleShrinks(|a.inflight|, bd.others, PerIntent(m, bd), PerIntent(m, bd));
    LoadsSnoc(m, a.inflight, p, PerIntent(m, bd));
    assert forall x <- a.inflight + [p] :: x.entry >= 0.0;
    Room(Sum(m, a.open), Sum(m, a.inflight), Load(m, p), MeterCap(m, pol) + Slack(m, bd),
         Scale(bd.others, PerIntent(m, bd)));
  }

  lemma {:induction false} Room(open: real, fly: real, load: real, cap: real, extra: real)
    requires open + fly <= cap + extra && fly <= extra
    requires load == 0.0 || open + load <= cap
    ensures open + (fly + load) <= cap + extra
  {
  }

  lemma {:induction false} LoadsSnoc(m: Meter, ps: seq<Position>, p: Position, most: real)
    requires Loads(m, ps, most) && 0.0 <= Load(m, p) <= most
    ensures Loads(m, ps + [p], most)
  {
    hide Load;
  }

  lemma {:induction false} EnterOne(m: Meter, a: Account, pol: Policy, bd: Bounds, o: Order)
    requires SeesOpen(a, pol, o) && Sized(bd, o) && bd.tick >= 0.0 && PerIntent(m, bd) >= 0.0
    ensures Entered(o).entry >= 0.0 && 0.0 <= Load(m, Entered(o)) <= PerIntent(m, bd)
    ensures Load(m, Entered(o)) == 0.0 || Sum(m, a.open) + Load(m, Entered(o)) <= MeterCap(m, pol) + Slack(m, bd)
  {
    hide Sum, Load, SizeOrder, MeterCap, Slack, PerIntent, SeesOpen;
    SizedFacts(bd, o);
    if !Weighs(m, o) {
      NoWeightNoLoad(m, o);
    } else if IsHeat(m) {
      HeatEnter(m, a, pol, bd, o);
    } else {
      NotionalEnter(m, a, pol, bd, o);
    }
  }

  lemma {:induction false} NoWeightNoLoad(m: Meter, o: Order)
    requires Priced(o) && !Gated(o) && SizeOrder(o).Size? && !Weighs(m, o)
    ensures Load(m, Entered(o)) == 0.0
  {
    hide SizeOrder, HardGates, Limit;
  }

  lemma {:induction false} FillSafe(m: Meter, pol: Policy, bd: Bounds, a: Account, i: nat, filled: nat)
    requires Safe(m, pol, bd, a) && Enabled(a, pol, bd, Fill(i, filled))
    ensures Safe(m, pol, bd, Apply(a, pol, bd, Fill(i, filled)))
  {
    hide Sum, Load, MeterCap, Slack, PerIntent, Ceiling;
    var p := a.inflight[i];
    var q := p.(qty := filled);
    assert p in a.inflight;
    SumSnoc(m, a.open, q);
    SumWithout(m, a.inflight, i);
    LoadShrinks(m, p, q);
    forall x | x in Without(a.inflight, i) ensures x in a.inflight {
    }
    assert forall x <- a.open + [q] :: x.entry >= 0.0;
  }

  lemma {:induction false} DropSafe(m: Meter, pol: Policy, bd: Bounds, a: Account, i: nat)
    requires Safe(m, pol, bd, a) && Enabled(a, pol, bd, Drop(i))
    ensures Safe(m, pol, bd, Apply(a, pol, bd, Drop(i)))
  {
    hide Sum, Load, MeterCap, Slack, PerIntent, Ceiling;
    assert a.inflight[i] in a.inflight;
    SumWithout(m, a.inflight, i);
    forall x | x in Without(a.inflight, i) ensures x in a.inflight {
    }
  }

  lemma {:induction false} ShrinkSafe(m: Meter, pol: Policy, bd: Bounds, a: Account, j: nat, q: Position)
    requires Safe(m, pol, bd, a) && j < |a.open|
    requires var p := a.open[j];
      q == p.(qty := q.qty, stop := q.stop) && q.qty <= p.qty
      && if p.side.Long? then q.stop >= p.stop else q.stop <= p.stop
    ensures Safe(m, pol, bd, a.(open := a.open[j := q]))
  {
    hide Sum, Load, MeterCap, Slack, PerIntent, Ceiling;
    assert a.open[j] in a.open;
    SumReplace(m, a.open, j, q);
    LoadShrinks(m, a.open[j], q);
    forall x | x in a.open[j := q] ensures x.entry >= 0.0 {
      var i :| 0 <= i < |a.open| && a.open[j := q][i] == x;
      assert a.open[i] in a.open;
    }
  }

  lemma {:induction false} StepSafe(m: Meter, pol: Policy, bd: Bounds, a: Account, e: Event)
    requires Safe(m, pol, bd, a) && Enabled(a, pol, bd, e)
    requires bd.tick >= 0.0 && PerIntent(m, bd) >= 0.0
    ensures Safe(m, pol, bd, Apply(a, pol, bd, e))
  {
    hide Safe, SizeOrder, PerIntent;
    match e
    case Enter(o) => EnterSafe(m, pol, bd, a, o);
    case Fill(i, filled) => FillSafe(m, pol, bd, a, i, filled);
    case Drop(i) => DropSafe(m, pol, bd, a, i);
    case Tighten(j, stop) => ShrinkSafe(m, pol, bd, a, j, a.open[j].(stop := stop));
    case Reduce(j, left) => ShrinkSafe(m, pol, bd, a, j, a.open[j].(qty := left));
  }

  /** Every event was possible when it happened. */
  predicate Possible(a: Account, pol: Policy, bd: Bounds, es: seq<Event>)
    decreases |es|
  {
    es == [] || (Enabled(a, pol, bd, es[0]) && Possible(Apply(a, pol, bd, es[0]), pol, bd, es[1..]))
  }

  function RunAll(a: Account, pol: Policy, bd: Bounds, es: seq<Event>): Account
    requires Possible(a, pol, bd, es)
    decreases |es|
  {
    if es == [] then a else RunAll(Apply(a, pol, bd, es[0]), pol, bd, es[1..])
  }

  lemma {:induction false} RunSafe(m: Meter, pol: Policy, bd: Bounds, a: Account, es: seq<Event>)
    requires Possible(a, pol, bd, es) && Safe(m, pol, bd, a)
    requires bd.tick >= 0.0 && PerIntent(m, bd) >= 0.0
    ensures Safe(m, pol, bd, RunAll(a, pol, bd, es))
    decreases |es|
  {
    hide Safe, Enabled, Apply, PerIntent;
    if es != [] {
      StepSafe(m, pol, bd, a, es[0]);
      RunSafe(m, pol, bd, Apply(a, pol, bd, es[0]), es[1..]);
    }
  }

  const FLAT := Account([], [])

  /** From a flat book, with at most `others` intents unresolved whenever one is
      sized: what is open (indeed open plus in flight) exceeds a cap by at most that
      many intents' worth, plus stop rounding on heat. */
  lemma {:induction false} CapsHoldOverRuns(m: Meter, pol: Policy, bd: Bounds, es: seq<Event>)
    requires Possible(FLAT, pol, bd, es)
    requires bd.tick >= 0.0 && bd.budget >= 0.0 && bd.notional >= 0.0 && MeterCap(m, pol) >= 0.0
    ensures var a := RunAll(FLAT, pol, bd, es);
      && Sum(m, a.open) <= MeterCap(m, pol) + Slack(m, bd) + Scale(bd.others, PerIntent(m, bd))
      && Sum(m, a.open) + Sum(m, a.inflight) <= MeterCap(m, pol) + Slack(m, bd) + Scale(bd.others, PerIntent(m, bd))
  {
    hide MeterCap, RunAll, Possible, Load, Sum;
    NonNegativeBounds(m, bd);
    FlatSafe(m, pol, bd);
    RunSafe(m, pol, bd, FLAT, es);
    hide PerIntent, Slack;
    var a := RunAll(FLAT, pol, bd, es);
    SumAtMost(m, a.inflight, PerIntent(m, bd));
  }

  lemma {:induction false} NonNegativeBounds(m: Meter, bd: Bounds)
    requires bd.tick >= 0.0 && bd.budget >= 0.0 && bd.notional >= 0.0
    ensures Slack(m, bd) >= 0.0 && PerIntent(m, bd) >= 0.0 && Scale(bd.others, PerIntent(m, bd)) >= 0.0
  {
    hide Scale;
    ScaleShrinks(0, bd.maxQty, bd.tick, bd.tick);
    ScaleShrinks(0, bd.others, PerIntent(m, bd), PerIntent(m, bd));
  }

  lemma {:induction false} FlatSafe(m: Meter, pol: Policy, bd: Bounds)
    requires MeterCap(m, pol) >= 0.0 && Slack(m, bd) >= 0.0 && Scale(bd.others, PerIntent(m, bd)) >= 0.0
    ensures Safe(m, pol, bd, FLAT)
  {
    hide MeterCap, Slack, PerIntent;
  }

  /** Each intent resolved before the next is sized, stops on whole cents: no cap is
      ever exceeded. */
  lemma {:induction false} CapsExactWhenResolved(m: Meter, pol: Policy, bd: Bounds, es: seq<Event>)
    requires Possible(FLAT, pol, bd, es) && bd.others == 0 && (IsHeat(m) ==> bd.tick == 0.0)
    requires bd.tick >= 0.0 && bd.budget >= 0.0 && bd.notional >= 0.0 && MeterCap(m, pol) >= 0.0
    ensures Sum(m, RunAll(FLAT, pol, bd, es).open) <= MeterCap(m, pol)
  {
    hide MeterCap, RunAll, Possible, Load, Sum;
    CapsHoldOverRuns(m, pol, bd, es);
    ScaleAdds(0, PerIntent(m, bd), 0.0);
    ScaleAdds(bd.maxQty, 0.0, 0.0);
    hide Scale;
  }

  /** Half a cent always covers the stop rounding; nothing is needed when the stop
      lands on a cent. */
  lemma {:induction false} TickCovers(o: Order)
    requires Priced(o) && !Gated(o) && SizeOrder(o).Size?
    ensures RiskPerShare(o.inp.side, Entered(o).entry, Entered(o).stop) <= StopDistanceOf(o) + HALF_CENT
    ensures OnCentGrid(if o.inp.side.Long? then Limit(o) - StopDistanceOf(o) else Limit(o) + StopDistanceOf(o)) ==>
              RiskPerShare(o.inp.side, Entered(o).entry, Entered(o).stop) == StopDistanceOf(o)
  {
    hide HardGates, LimitPrice, Qty, BindingClip, RawQty, Viable, Round2, Round4, RiskPerShare, EntryStop;
    PositiveStop(o);
    EntryStopRisk(o.inp.side, Limit(o), StopDistance(o));
    hide StopDistance;
  }

  // -------------------------------------------------- where rounding shows

  /** The stop on cents lies further from the limit than the distance sized on. */
  predicate RoundsAway(o: Order)
    requires Priced(o) && !Gated(o)
  {
    var d := StopDistanceOf(o);
    if o.inp.side.Long? then Round2(Limit(o) - d) < Limit(o) - d else Round2(Limit(o) + d) > Limit(o) + d
  }

  /** The shares fit the room by the distance, but not by the stop that is set. */
  predicate Overshoots(o: Order, room: real)
    requires Priced(o) && !Gated(o) && SizeOrder(o).Size?
  {
    var p := Entered(o);
    Scale(p.qty, StopDistanceOf(o)) <= room < OpenRisk(p.side, p.entry, p.stop, p.qty)
  }

  /** Exactly when an intent can take more heat than the room its shares were clipped to: its
      stop rounds away from the limit. */
  lemma {:induction false} OvershootsIff(o: Order)
    requires Priced(o) && !Gated(o) && SizeOrder(o).Size?
    ensures RoundsAway(o) <==> exists room: real :: Overshoots(o, room)
  {
    hide HardGates, Limit, Qty, BindingClip, Viable, Round2, Round4, StopDistance, Scale;
    PositiveStop(o);
    var p, d := Entered(o), StopDistanceOf(o);
    var risk := RiskPerShare(p.side, p.entry, p.stop);
    assert RoundsAway(o) <==> risk > d;
    if risk > d {
      ScaleAdds(p.qty, d, risk - d);
      ScalePositive(p.qty, risk - d);
      assert Overshoots(o, Scale(p.qty, d));
    } else {
      ScalePrice(p.qty, risk, d);
    }
  }

  const TIGHT := Order(
    Inputs(1000.0, 1000.0, 10.0, 10.0, 0.0, Some(0.106), None, 0.0, 0.0, 0.0, 0, false, false, false, false, 1,
           None, None, None, None, Long, 0.0, 0.0, 0.0, None),
    Capital(0.0106, 1.0, 0.0106, 1.0, 1.0, None, 0.0), Limits(0.0, 0.0, 0), Profile(false, 0.0), ShortTerm, 1.0, 0,
    Shorting(0, 0.0, 0.0))

  const TIGHT_POLICY := Policy(TIGHT.cap, TIGHT.short, 1000.0)

  const TIGHT_BOUNDS := Bounds(0, 10.6, 1000.0, 100, HALF_CENT)

  lemma {:induction false} TightLimit()
    ensures Limit(TIGHT) == 10.0 && Priced(TIGHT) && !Gated(TIGHT)
  {
    assert Round2(10.0) == 10.0;
  }

  lemma {:induction false} TightFits(n: nat)
    ensures Fits(TIGHT, n) <==> n <= 100
  {
    TightLimit();
    hide Limit;
    if n <= 100 {
      forall c: Clip | Applies(TIGHT, c) ensures Within(TIGHT, c, n) {
      }
    }
  }

  lemma {:induction false} TightSize()
    ensures Sized(TIGHT_BOUNDS, TIGHT) && Entered(TIGHT) == Position(ShortTerm, Long, 100, 10.0, 9.89)
  {
    TightLimit();
    TightFits(100);
    hide HardGates, Priced, Limit, Qty, BindingClip, Fits;
    assert StopDistance(TIGHT) == 0.106 && Viable(TIGHT, 100);
    SizeIffSomeViableFit(TIGHT);
    SizeIsSoundAndTight(TIGHT);
    var q := SizeOrder(TIGHT).qty;
    TightFits(q);
    TightFits(q + 1);
    assert Round2(9.894) == 9.89;
  }

  /** A cap of 10.60 on total heat, 100 shares at 10.00 sized on a distance of 10.6 cents: the
      stop rounds to 9.89 and the position puts 11.00 at risk. */
  lemma {:induction false} HeatCapOvershot()
    ensures var es := [Enter(TIGHT), Fill(0, 100)];
      && Possible(FLAT, TIGHT_POLICY, TIGHT_BOUNDS, es)
      && Sum(AllHeat, RunAll(FLAT, TIGHT_POLICY, TIGHT_BOUNDS, es).open) == 11.0
      && MeterCap(AllHeat, TIGHT_POLICY) == 10.6
  {
    TightRun();
    TightLoad();
    hide RunAll, Possible, OpenRisk;
    assert [TIGHT_POSITION][..0] == [];
  }

  const TIGHT_POSITION := Position(ShortTerm, Long, 100, 10.0, 9.89)

  lemma {:induction false} TightLoad()
    ensures Load(AllHeat, TIGHT_POSITION) == 11.0
  {
  }

  lemma {:induction false} TightRun()
    ensures var es := [Enter(TIGHT), Fill(0, 100)];
      && Possible(FLAT, TIGHT_POLICY, TIGHT_BOUNDS, es)
      && RunAll(FLAT, TIGHT_POLICY, TIGHT_BOUNDS, es).open == [TIGHT_POSITION]
  {
    TightSize();
    TightSees();
    hide Sized, Entered, SeesOpen;
    var es := [Enter(TIGHT), Fill(0, 100)];
    var a := Account([], [TIGHT_POSITION]);
    assert Apply(FLAT, TIGHT_POLICY, TIGHT_BOUNDS, es[0]) == a;
    assert es[1..] == [Fill(0, 100)] && es[1..][1..] == [];
    assert [] + [TIGHT_POSITION.(qty := 100)] == [TIGHT_POSITION];
    assert Enabled(a, TIGHT_POLICY, TIGHT_BOUNDS, es[1]);
    var b := Apply(a, TIGHT_POLICY, TIGHT_BOUNDS, es[1]);
    assert Possible(b, TIGHT_POLICY, TIGHT_BOUNDS, []);
    assert Possible(a, TIGHT_POLICY, TIGHT_BOUNDS, es[1..]);
    assert RunAll(a, TIGHT_POLICY, TIGHT_BOUNDS, es[1..]) == b;
  }

  lemma {:induction false} TightSees()
    ensures SeesOpen(FLAT, TIGHT_POLICY, TIGHT)
  {
  }
}
