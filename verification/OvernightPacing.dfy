/** The pacing of the late budget over the passes of a day, as the journal shows it. */
module OvernightPacing {
  import opened Forwarding
  import opened Overnight
  import opened OvernightRuns
  import opened OvernightSlots
  import opened Pacing

  /** What the journal leaves of the day's budget. */
  function BudgetOf(s: State, l: Limits, day: int): nat {
    Budget(l.dailyMax, Count(s.rows, day, LateCandidate))
  }

  /** Late passes at now, now + CADENCE, ... before today's open, with any claims. */
  ghost predicate Passes(es: seq<Event>, now: int, open: int) {
    && SessionDay(now) == SessionDay(open)
    && forall i :: 0 <= i < |es| ==>
         es[i].LateFiring? && es[i].now == now + i * CADENCE < open && es[i].open == open
  }

  lemma {:induction false} SameDay(now: int, t: int, open: int)
    requires now <= t <= open && SessionDay(now) == SessionDay(open)
    ensures SessionDay(t) == SessionDay(now)
  {
  }

  /** k steps of the timer take k off the count while they stay before the open. */
  lemma {:induction false} StepsTakePasses(now: int, open: int, k: nat)
    requires now < open && now + k * CADENCE <= open
    ensures PassesRemaining(now + k * CADENCE, open) == PassesRemaining(now, open) - k
    decreases k
  {
    hide PassesRemaining;
    if k > 0 {
      StepsTakePasses(now, open, k - 1);
      OneStepOnePass(now + (k - 1) * CADENCE, open);
    }
  }

  /** A pass takes no more than its allowance off the budget, and exactly its allowance when
      it is not cut and has candidates enough. */
  lemma {:induction false} PassTakesAllowance(s: State, l: Limits, e: Event)
    requires e.LateFiring?
    ensures var a := Allowance(BudgetOf(s, l, DayOf(e)), l.passMax, PassesRemaining(e.now, e.open));
      var b := BudgetOf(s, l, DayOf(e));
      && BudgetOf(Fire(s, l, e), l, DayOf(e)) >= b - a
      && (Saturated(s, l, e) ==> BudgetOf(Fire(s, l, e), l, DayOf(e)) == b - a)
  {
    hide Fire, RouteAll, Allowance, PassesRemaining, PlanForwarding, ShouldRun, Count;
    var day := DayOf(e);
    var already := Count(s.rows, day, LateCandidate);
    var pool := RouteAll(e.claimed, e.held, day).pool;
    CutPassCounts(s, l, e);
    PlanSplitsAtAllowance(pool, already, l.dailyMax, l.passMax, PassesRemaining(e.now, e.open));
    AllowanceBounds(Budget(l.dailyMax, already), l.passMax, PassesRemaining(e.now, e.open));
    PlanAllowance(pool, already, l.dailyMax, l.passMax, PassesRemaining(e.now, e.open));
  }

  lemma {:induction false} PlanAllowance(cs: seq<Candidate>, already: nat, dailyMax: nat, passMax: nat, passes: int)
    ensures PlanForwarding(cs, already, dailyMax, passMax, passes).allowance
         == Allowance(Budget(dailyMax, already), passMax, passes)
  {
  }

  /** The pass runs, is not cut, and its candidates cover its allowance. */
  predicate Saturated(s: State, l: Limits, e: Event)
    requires e.LateFiring?
  {
    && ShouldRun(e.now, SheetDone(s, DayOf(e)), e.open)
    && e.commits >= |Transactions(s, l, e)|
    && |RouteAll(e.claimed, e.held, DayOf(e)).pool|
       >= Allowance(BudgetOf(s, l, DayOf(e)), l.passMax, PassesRemaining(e.now, e.open))
  }

  lemma {:induction false} RunSnoc(s: State, l: Limits, es: seq<Event>)
    requires es != []
    ensures Run(s, l, es) == Fire(Run(s, l, es[..|es| - 1]), l, es[|es| - 1])
  {
  }

  /** Over any sequence of passes, cut or not and whatever they claim: a budget that covers
      the passes left keeps covering them, down to the last one before the open. */
  lemma {:induction false} BudgetLastsToTheOpen(s: State, l: Limits, es: seq<Event>, now: int, open: int)
    requires Passes(es, now, open) && now < open
    requires BudgetOf(s, l, SessionDay(now)) >= PassesRemaining(now, open)
    ensures BudgetOf(Run(s, l, es), l, SessionDay(now)) >= PassesRemaining(now, open) - |es|
    decreases |es|
  {
    hide BudgetOf, Fire, PassesRemaining, Allowance;
    if es != [] {
      var k := |es| - 1;
      var front, e := es[..k], es[k];
      assert Passes(front, now, open);
      BudgetLastsToTheOpen(s, l, front, now, open);
      var u := Run(s, l, front);
      RunSnoc(s, l, es);
      SameDay(now, e.now, open);
      StepsTakePasses(now, open, k);
      OneStepOnePass(e.now, open);
      PassTakesAllowance(u, l, e);
      AllowanceKeepsASlotPerPass(BudgetOf(u, l, SessionDay(now)), l.passMax, PassesRemaining(e.now, open));
    }
  }

  lemma {:induction false} LeftSnoc(budget: nat, passMax: nat, passes: nat, k: nat)
    requires k < passes
    ensures var b := LeftAfter(budget, passMax, passes, k);
      LeftAfter(budget, passMax, passes, k + 1) == b - Allowance(b, passMax, passes - k)
    decreases k
  {
    AllowanceBounds(budget, passMax, passes);
    hide Allowance;
    var a := Allowance(budget, passMax, passes);
    if k == 0 {
      assert LeftAfter(budget - a, passMax, passes - 1, 0) == budget - a;
    } else {
      LeftSnoc(budget - a, passMax, passes - 1, k - 1);
    }
  }

  /** Passes that all run to their end with candidates enough. */
  ghost predicate AllSaturated(s: State, l: Limits, es: seq<Event>) {
    forall i :: 0 <= i < |es| ==> es[i].LateFiring? && Saturated(Run(s, l, es[..i]), l, es[i])
  }

  lemma {:induction false} FrontSaturated(s: State, l: Limits, es: seq<Event>)
    requires AllSaturated(s, l, es) && es != []
    ensures AllSaturated(s, l, es[..|es| - 1])
    ensures var k := |es| - 1; es[k].LateFiring? && Saturated(Run(s, l, es[..k]), l, es[k])
  {
    hide Saturated, Run;
    var front := es[..|es| - 1];
    forall i | 0 <= i < |front| ensures front[i].LateFiring? && Saturated(Run(s, l, front[..i]), l, front[i]) {
      assert front[..i] == es[..i] && front[i] == es[i];
    }
  }

  /** The closed form of what saturated shares leave is what the journal shows. */
  lemma {:induction false} SaturatedPassesLeave(s: State, l: Limits, es: seq<Event>, now: int, open: int)
    requires Passes(es, now, open) && now < open && AllSaturated(s, l, es)
    ensures |es| <= PassesRemaining(now, open)
    ensures BudgetOf(Run(s, l, es), l, SessionDay(now))
         == LeftAfter(BudgetOf(s, l, SessionDay(now)), l.passMax, PassesRemaining(now, open), |es|)
    decreases |es|
  {
    hide BudgetOf, Fire, PassesRemaining, Allowance, Saturated;
    OneStepOnePass(now, open);
    if es != [] {
      hide LeftAfter;
      var k := |es| - 1;
      var front, e := es[..k], es[k];
      assert Passes(front, now, open);
      FrontSaturated(s, l, es);
      SaturatedPassesLeave(s, l, front, now, open);
      var u := Run(s, l, front);
      RunSnoc(s, l, es);
      SameDay(now, e.now, open);
      StepsTakePasses(now, open, k);
      OneStepOnePass(e.now, open);
      PassTakesAllowance(u, l, e);
      LeftSnoc(BudgetOf(s, l, SessionDay(now)), l.passMax, PassesRemaining(now, open), k);
    }
  }

  /** A saturated day, whose passes are all the firings before the open and whose first share
      the pass cap covers: the journal shows the whole budget spent exactly when no firing
      falls on the open or the budget is below the passes first counted; else one share of
      floor(budget / passes) is stranded. */
  lemma {:induction false} SaturatedDayOfPasses(s: State, l: Limits, es: seq<Event>, now: int, open: int)
    requires Passes(es, now, open) && now < open && AllSaturated(s, l, es) && |es| == RealPasses(now, open)
    requires CeilDiv(BudgetOf(s, l, SessionDay(now)), PassesRemaining(now, open)) <= l.passMax
    ensures var b := BudgetOf(s, l, SessionDay(now));
      var left := BudgetOf(Run(s, l, es), l, SessionDay(now));
      && left == (if (open - now) % CADENCE == 0 then b / PassesRemaining(now, open) else 0)
      && (left == 0 <==> (open - now) % CADENCE != 0 || b < PassesRemaining(now, open))
  {
    hide BudgetOf, Run, PassesRemaining, RealPasses, LeftAfter, CeilDiv, AllSaturated, Passes;
    SaturatedPassesLeave(s, l, es, now, open);
    SaturatedDay(now, open, BudgetOf(s, l, SessionDay(now)), l.passMax);
  }
}
