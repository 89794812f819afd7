/** Story-level repeat suppression: the triage journal of one story cluster, and how
    often it can cost a fresh verdict. Times are microseconds. */
module Suppression {
  import opened Options

  datatype Action = Escalate | Discard | Suppress | Reject

  datatype Row = Row(ts: int, action: Action, outlets: int)

  datatype Config = Config(enabled: bool, window: int, discardWindow: int, threshold: int)

  /** What the model would say, were it asked. */
  datatype Reply = ToEscalate | ToDiscard | Unusable

  /** An item of the cluster. `newStory` covers a new story and an item without a cluster;
      `held` says that it touches a held name. */
  datatype Arrival = Arrival(ts: int, outlets: int, newStory: bool, correction: bool, held: bool, reply: Reply)

  predicate IsVerdict(r: Row) { r.action == Escalate || r.action == Discard }

  predicate DiscardCooldownExpired(prior: Row, now: int, discardWindow: int) {
    prior.action == Discard && now - prior.ts > discardWindow
  }

  predicate CorroborationBypass(now: int, prior: int, threshold: int) { now >= threshold > prior }

  /** The most recent verdict inside the window; rows are in time order. */
  function FindPrior(rows: seq<Row>, now: int, window: int): Option<Row> {
    if rows == [] then None
    else
      var last := rows[|rows| - 1];
      if IsVerdict(last) && last.ts > now - window then Some(last)
      else FindPrior(rows[..|rows| - 1], now, window)
  }

  predicate Suppressed(g: Config, rows: seq<Row>, a: Arrival) {
    g.enabled && !a.newStory && !a.correction &&
    match FindPrior(rows, a.ts, g.window)
    case None => false
    case Some(prior) =>
      && !DiscardCooldownExpired(prior, a.ts, g.discardWindow)
      && !CorroborationBypass(a.outlets, prior.outlets, g.threshold)
      && !a.held
  }

  function RowFor(g: Config, rows: seq<Row>, a: Arrival): Row {
    Row(a.ts,
        if Suppressed(g, rows, a) then Suppress
        else match a.reply case ToEscalate => Escalate case ToDiscard => Discard case Unusable => Reject,
        a.outlets)
  }

  function Journal(g: Config, arrivals: seq<Arrival>): (rows: seq<Row>)
    ensures |rows| == |arrivals|
  {
    if arrivals == [] then []
    else
      var rows := Journal(g, arrivals[..|arrivals| - 1]);
      rows + [RowFor(g, rows, arrivals[|arrivals| - 1])]
  }

  /** Items reach triage in time order and a cluster's outlet count never falls. */
  ghost predicate InOrder(arrivals: seq<Arrival>) {
    forall i, j :: 0 <= i < j < |arrivals| ==>
      arrivals[i].ts <= arrivals[j].ts && arrivals[i].outlets <= arrivals[j].outlets
  }

  predicate Plain(a: Arrival) { !a.newStory && !a.correction && !a.held }

  // ------------------------------------------------------------ one lookup

  lemma {:induction false} PriorIsLatest(rows: seq<Row>, now: int, window: int)
    ensures FindPrior(rows, now, window).None? <==>
      forall i :: 0 <= i < |rows| && IsVerdict(rows[i]) ==> rows[i].ts <= now - window
    ensures FindPrior(rows, now, window).Some? <==>
      exists i :: 0 <= i < |rows| && PriorAt(rows, now, window, i)
    ensures forall i :: 0 <= i < |rows| && PriorAt(rows, now, window, i) ==> FindPrior(rows, now, window) == Some(rows[i])
    decreases |rows|
  {
    if rows != [] {
      var front, last := rows[..|rows| - 1], rows[|rows| - 1];
      PriorIsLatest(front, now, window);
      assert forall i :: 0 <= i < |front| ==> front[i] == rows[i];
      if IsVerdict(last) && last.ts > now - window {
        assert PriorAt(rows, now, window, |rows| - 1);
      } else {
        forall i | 0 <= i < |front| ensures PriorAt(rows, now, window, i) <==> PriorAt(front, now, window, i) {
        }
      }
    }
  }

  /** Row i is a verdict inside the window and no later row is. */
  ghost predicate PriorAt(rows: seq<Row>, now: int, window: int, i: nat)
    requires i < |rows|
  {
    && IsVerdict(rows[i]) && rows[i].ts > now - window
    && forall k :: i < k < |rows| && IsVerdict(rows[k]) ==> rows[k].ts <= now - window
  }

  // ---------------------------------------------------------------- spacing

  lemma {:induction false} JournalPrefix(g: Config, arrivals: seq<Arrival>, n: nat)
    requires n <= |arrivals|
    ensures Journal(g, arrivals[..n]) == Journal(g, arrivals)[..n]
    decreases |arrivals|
  {
    hide RowFor;
    if n < |arrivals| {
      var front := arrivals[..|arrivals| - 1];
      JournalPrefix(g, front, n);
      assert front[..n] == arrivals[..n];
    } else {
      assert arrivals[..n] == arrivals;
    }
  }

  lemma {:induction false} RowAt(g: Config, arrivals: seq<Arrival>, k: nat)
    requires k < |arrivals|
    ensures Journal(g, arrivals)[k] == RowFor(g, Journal(g, arrivals[..k]), arrivals[k])
    ensures Journal(g, arrivals[..k]) == Journal(g, arrivals)[..k]
  {
    hide RowFor;
    JournalPrefix(g, arrivals, k);
    JournalPrefix(g, arrivals, k + 1);
    assert arrivals[..k + 1][..k] == arrivals[..k];
    assert Journal(g, arrivals)[k] == Journal(g, arrivals)[..k + 1][k];
  }

  /** The corroboration exception: the count crosses the threshold since that verdict. */
  predicate Crosses(g: Config, rows: seq<Row>, a: Arrival) {
    var prior := FindPrior(rows, a.ts, g.window);
    prior.Some? && CorroborationBypass(a.outlets, prior.value.outlets, g.threshold)
  }

  /** Least time between a verdict and the next plain repeat that is let through. */
  function CoolOff(g: Config, prior: Row): int {
    if prior.action == Discard && g.discardWindow < g.window then g.discardWindow else g.window
  }

  /** Row i is the last verdict before row k. */
  ghost predicate LastVerdict(rows: seq<Row>, i: nat, k: nat)
    requires i < k <= |rows|
  {
    IsVerdict(rows[i]) && forall m :: i < m < k ==> !IsVerdict(rows[m])
  }

  /** The verdict at place i, the last before row k, still shields the story from row k. */
  predicate Shields(g: Config, rows: seq<Row>, arrivals: seq<Arrival>, i: nat, k: nat)
    requires i < k < |arrivals| && |rows| == |arrivals|
  {
    var gap := arrivals[k].ts - arrivals[i].ts;
    && gap < g.window
    && !(rows[i].action == Discard && gap > g.discardWindow)
    && !(arrivals[k].outlets >= g.threshold > arrivals[i].outlets)
  }

  /** Each item earns one row at its own time and outlet count: SUPPRESS, or what the model
      said of it, REJECT when nothing usable. */
  lemma {:induction false} RowSays(g: Config, arrivals: seq<Arrival>, k: nat)
    requires k < |arrivals|
    ensures |Journal(g, arrivals)| == |arrivals|
    ensures var row, a := Journal(g, arrivals)[k], arrivals[k];
      && row.ts == a.ts && row.outlets == a.outlets
      && (IsVerdict(row) <==> row.action != Suppress && a.reply != Unusable)
      && (row.action != Suppress ==>
            && (row.action == Escalate <==> a.reply == ToEscalate)
            && (row.action == Discard <==> a.reply == ToDiscard)
            && (row.action == Reject <==> a.reply == Unusable))
  {
    RowAt(g, arrivals, k);
    hide Suppressed;
  }

  /** Exactly when: an item is suppressed if and only if suppression is on, the item is a
      plain repeat and the last verdict of the story shields it from triage. */
  lemma {:induction false} SuppressedIff(g: Config, arrivals: seq<Arrival>, k: nat)
    requires InOrder(arrivals) && k < |arrivals|
    ensures var rows := Journal(g, arrivals);
      rows[k].action == Suppress <==>
        g.enabled && Plain(arrivals[k])
        && exists i :: 0 <= i < k && LastVerdict(rows, i, k) && Shields(g, rows, arrivals, i, k)
  {
    var rows, before, a := Journal(g, arrivals), Journal(g, arrivals[..k]), arrivals[k];
    RowAt(g, arrivals, k);
    if AnyVerdict(before) {
      var i := Last(before);
      assert before == rows[..k];
      LastOfPrefix(rows, i, k);
      PriorOfLast(g, arrivals, i, k);
      RowAt(g, arrivals, i);
      forall j | 0 <= j < k && LastVerdict(rows, j, k) ensures j == i {
        OneLast(rows, i, j, k);
      }
    } else {
      PriorIsLatest(before, a.ts, g.window);
      forall j | 0 <= j < k ensures !IsVerdict(rows[j]) {
        assert before[j] == rows[j];
      }
    }
  }

  lemma {:induction false} OneLast(rows: seq<Row>, i: nat, j: nat, k: nat)
    requires i < k <= |rows| && j < k && LastVerdict(rows, i, k) && LastVerdict(rows, j, k)
    ensures i == j
  {
  }

  lemma {:induction false} LastOfPrefix(rows: seq<Row>, i: nat, k: nat)
    requires i < k <= |rows| && LastVerdict(rows[..k], i, k)
    ensures LastVerdict(rows, i, k)
  {
    assert rows[..k][i] == rows[i];
    forall m | i < m < k ensures !IsVerdict(rows[m]) {
      assert rows[..k][m] == rows[m];
    }
  }

  /** The last verdict is the prior while it is inside the window; outside it no verdict is. */
  lemma {:induction false} PriorOfLast(g: Config, arrivals: seq<Arrival>, i: nat, k: nat)
    requires InOrder(arrivals) && i < k < |arrivals| && LastVerdict(Journal(g, arrivals), i, k)
    ensures var rows := Journal(g, arrivals);
      FindPrior(Journal(g, arrivals[..k]), arrivals[k].ts, g.window)
      == if arrivals[k].ts - rows[i].ts < g.window then Some(rows[i]) else None
  {
    var rows, before, now := Journal(g, arrivals), Journal(g, arrivals[..k]), arrivals[k].ts;
    RowAt(g, arrivals, k);
    LastVerdictIsPrior(rows, i, k, now, g.window);
    if rows[i].ts <= now - g.window {
      PriorIsLatest(before, now, g.window);
      RowAt(g, arrivals, i);
      forall m | 0 <= m < |before| && IsVerdict(before[m]) ensures before[m].ts <= now - g.window {
        RowAt(g, arrivals, m);
        assert before[m] == rows[m];
      }
    }
  }

  /** A plain repeat that does not cross is triaged again if and only if the full window has
      passed since the last verdict, or that verdict is a DISCARD and the discard window has. */
  lemma {:induction false} PlainRepeatIff(g: Config, arrivals: seq<Arrival>, i: nat, k: nat)
    requires g.enabled && InOrder(arrivals) && i < k < |arrivals|
    requires LastVerdict(Journal(g, arrivals), i, k)
    requires Plain(arrivals[k]) && !Crosses(g, Journal(g, arrivals[..k]), arrivals[k])
    ensures var rows := Journal(g, arrivals);
      var gap := arrivals[k].ts - rows[i].ts;
      rows[k].action != Suppress <==> gap >= g.window || (rows[i].action == Discard && gap > g.discardWindow)
  {
    RowAt(g, arrivals, k);
    PriorOfLast(g, arrivals, i, k);
  }

  /** So inside the window of an ESCALATE a plain repeat is triaged if and only if the last
      verdict is a DISCARD older than the discard window: the ESCALATE itself decides only
      while it is the last verdict. */
  lemma {:induction false} InsideEscalateWindowIff(g: Config, arrivals: seq<Arrival>, e: nat, i: nat, k: nat)
    requires g.enabled && InOrder(arrivals) && e <= i < k < |arrivals|
    requires Journal(g, arrivals)[e].action == Escalate && arrivals[k].ts - Journal(g, arrivals)[e].ts < g.window
    requires LastVerdict(Journal(g, arrivals), i, k)
    requires Plain(arrivals[k]) && !Crosses(g, Journal(g, arrivals[..k]), arrivals[k])
    ensures var rows := Journal(g, arrivals);
      rows[k].action != Suppress <==> rows[i].action == Discard && arrivals[k].ts - rows[i].ts > g.discardWindow
  {
    PlainRepeatIff(g, arrivals, i, k);
    RowAt(g, arrivals, e);
    RowAt(g, arrivals, i);
  }

  /** An item goes through for lack of a prior if and only if no verdict of the story lies
      in its window; rows that are not verdicts never count. */
  lemma {:induction false} NoPriorIff(g: Config, arrivals: seq<Arrival>, k: nat)
    requires k < |arrivals|
    ensures var rows := Journal(g, arrivals);
      FindPrior(Journal(g, arrivals[..k]), arrivals[k].ts, g.window) == None
      <==> forall i :: 0 <= i < k && IsVerdict(rows[i]) ==> arrivals[k].ts - arrivals[i].ts >= g.window
    ensures FindPrior(Journal(g, arrivals[..k]), arrivals[k].ts, g.window) == None ==>
      Journal(g, arrivals)[k].action != Suppress
  {
    var rows, before := Journal(g, arrivals), Journal(g, arrivals[..k]);
    RowAt(g, arrivals, k);
    PriorIsLatest(before, arrivals[k].ts, g.window);
    forall i | 0 <= i < k ensures before[i] == rows[i] && rows[i].ts == arrivals[i].ts {
      RowAt(g, arrivals, i);
    }
  }

  lemma {:induction false} PlainRepeatWaits(g: Config, arrivals: seq<Arrival>, i: nat, k: nat)
    requires g.enabled && InOrder(arrivals) && i < k < |arrivals|
    requires LastVerdict(Journal(g, arrivals), i, k)
    requires Plain(arrivals[k]) && !Crosses(g, Journal(g, arrivals[..k]), arrivals[k])
    requires Journal(g, arrivals)[k].action != Suppress
    ensures arrivals[k].ts - arrivals[i].ts >= CoolOff(g, Journal(g, arrivals)[i])
  {
    RowAt(g, arrivals, i);
    PlainRepeatIff(g, arrivals, i, k);
  }

  lemma {:induction false} LastVerdictIsPrior(rows: seq<Row>, i: nat, k: nat, now: int, window: int)
    requires i < k <= |rows| && LastVerdict(rows, i, k)
    ensures rows[i].ts > now - window ==> FindPrior(rows[..k], now, window) == Some(rows[i])
  {
    var before := rows[..k];
    PriorIsLatest(before, now, window);
    if rows[i].ts > now - window {
      assert PriorAt(before, now, window, i);
    }
  }

  /** Only the last verdict counts: a DISCARD that a held name or a correction forced ends
      the long window of an earlier ESCALATE. */
  lemma {:induction false} DiscardEndsEscalateWindow(g: Config, e: Arrival, d: Arrival, a: Arrival)
    requires g.enabled && Plain(a) && a.reply.ToEscalate? && e.reply.ToEscalate? && d.reply.ToDiscard?
    requires e.newStory && d.correction
    requires e.ts <= d.ts && d.ts + g.discardWindow < a.ts < e.ts + g.window
    ensures Journal(g, [e, d, a]) == [Row(e.ts, Escalate, e.outlets), Row(d.ts, Discard, d.outlets),
                                      Row(a.ts, Escalate, a.outlets)]
  {
    assert [e, d, a][..2] == [e, d] && [e, d][..1] == [e] && [e][..0] == [];
    var r1 := Row(e.ts, Escalate, e.outlets);
    var r2 := Row(d.ts, Discard, d.outlets);
    assert Journal(g, [e]) == [] + [r1];
    assert Journal(g, [e, d]) == [r1, r2];
    assert FindPrior([r1, r2], a.ts, g.window) == Some(r2);
  }

  // --------------------------------------------------------------- crossing

  /** A verdict that the corroboration exception let through. */
  ghost predicate CrossingVerdict(g: Config, arrivals: seq<Arrival>, k: nat)
    requires k < |arrivals|
  {
    IsVerdict(Journal(g, arrivals)[k]) && Crosses(g, Journal(g, arrivals[..k]), arrivals[k])
  }

  /** Over a whole run the exception yields at most one verdict. */
  lemma {:induction false} OneCrossingVerdict(g: Config, arrivals: seq<Arrival>, i: nat, k: nat)
    requires InOrder(arrivals) && i < k < |arrivals|
    requires CrossingVerdict(g, arrivals, i)
    ensures !CrossingVerdict(g, arrivals, k)
  {
    RowAt(g, arrivals, i);
    CorroboratedStays(g, arrivals, i, k);
  }

  /** Once a verdict counted enough outlets, so does every later prior. */
  lemma {:induction false} CorroboratedStays(g: Config, arrivals: seq<Arrival>, i: nat, k: nat)
    requires InOrder(arrivals) && i < k < |arrivals|
    requires IsVerdict(Journal(g, arrivals)[i]) && Journal(g, arrivals)[i].outlets >= g.threshold
    ensures var prior := FindPrior(Journal(g, arrivals[..k]), arrivals[k].ts, g.window);
      prior.Some? ==> prior.value.outlets >= g.threshold
  {
    var before, now := Journal(g, arrivals[..k]), arrivals[k].ts;
    RowAt(g, arrivals, i);
    RowAt(g, arrivals, k);
    PriorIsLatest(before, now, g.window);
    if FindPrior(before, now, g.window).Some? {
      var p :| 0 <= p < |before| && PriorAt(before, now, g.window, p);
      RowAt(g, arrivals, p);
      assert before[i] == Journal(g, arrivals)[i] && before[p] == Journal(g, arrivals)[p];
    }
  }

  // -------------------------------------------------------------- counting

  /** Verdicts given to plain repeats outside the exception: what suppression bounds. */
  ghost function PlainVerdicts(g: Config, arrivals: seq<Arrival>): nat {
    if arrivals == [] then 0
    else
      var front, a := arrivals[..|arrivals| - 1], arrivals[|arrivals| - 1];
      var rows := Journal(g, front);
      PlainVerdicts(g, front)
      + if IsVerdict(RowFor(g, rows, a)) && Plain(a) && !Crosses(g, rows, a) then 1 else 0
  }

  predicate AnyVerdict(rows: seq<Row>) { exists i :: 0 <= i < |rows| && IsVerdict(rows[i]) }

  /** Place of the last verdict. */
  function Last(rows: seq<Row>): nat
    requires AnyVerdict(rows)
    ensures Last(rows) < |rows| && LastVerdict(rows, Last(rows), |rows|)
  {
    if IsVerdict(rows[|rows| - 1]) then |rows| - 1
    else
      var front := rows[..|rows| - 1];
      assert AnyVerdict(front) by {
        var i :| 0 <= i < |rows| && IsVerdict(rows[i]);
        assert front[i] == rows[i];
      }
      assert forall m :: 0 <= m < |front| ==> front[m] == rows[m];
      Last(front)
  }

  function Shorter(g: Config): int { if g.discardWindow < g.window then g.discardWindow else g.window }

  /** n plain verdicts need n - 1 times the shorter window, from the first arrival to the
      last verdict. */
  lemma {:induction false} PlainVerdictsAreSparse(g: Config, arrivals: seq<Arrival>)
    requires g.enabled && InOrder(arrivals) && Shorter(g) >= 0
    ensures var n := PlainVerdicts(g, arrivals);
      var rows := Journal(g, arrivals);
      n > 0 ==> AnyVerdict(rows) && (n - 1) * Shorter(g) <= arrivals[Last(rows)].ts - arrivals[0].ts
    decreases |arrivals|
  {
    hide Crosses, RowFor, Plain, InOrder;
    if arrivals != [] {
      var front, k := arrivals[..|arrivals| - 1], |arrivals| - 1;
      var rows, before := Journal(g, arrivals), Journal(g, front);
      FrontInOrder(arrivals);
      PlainVerdictsAreSparse(g, front);
      RowAt(g, arrivals, k);
      LastExtends(before, rows[k]);
      assert rows == before + [rows[k]];
      LaterOrSame(arrivals, 0, k);
      if AnyVerdict(before) {
        LaterOrSame(arrivals, Last(before), k);
      }
      if PlainVerdicts(g, arrivals) > PlainVerdicts(g, front) && AnyVerdict(before) {
        PlainRepeatWaits(g, arrivals, Last(before), k);
        LaterOrSame(arrivals, 0, Last(before));
        Multiply(PlainVerdicts(g, front), Shorter(g));
      }
    }
  }

  lemma {:induction false} FrontInOrder(arrivals: seq<Arrival>)
    requires InOrder(arrivals) && arrivals != []
    ensures InOrder(arrivals[..|arrivals| - 1])
  {
  }

  lemma {:induction false} LaterOrSame(arrivals: seq<Arrival>, i: nat, k: nat)
    requires InOrder(arrivals) && i <= k < |arrivals|
    ensures arrivals[i].ts <= arrivals[k].ts
  {
  }

  lemma {:induction false} LastExtends(before: seq<Row>, row: Row)
    ensures var rows := before + [row];
      && (IsVerdict(row) ==> AnyVerdict(rows) && Last(rows) == |before|)
      && (AnyVerdict(before) && !IsVerdict(row) ==> AnyVerdict(rows) && Last(rows) == Last(before))
      && (AnyVerdict(before) ==> LastVerdict(rows, Last(before), |before|))
  {
    var rows := before + [row];
    assert rows[..|rows| - 1] == before;
    assert rows[|before|] == row;
    if AnyVerdict(before) {
      var i := Last(before);
      assert forall m :: 0 <= m < |before| ==> rows[m] == before[m];
      assert IsVerdict(rows[i]);
    }
  }

  lemma {:induction false} Multiply(n: nat, w: int)
    ensures n * w == (n - 1) * w + w
  {
  }

  /** Unusable replies leave no verdict, so suppression never starts: every item of the
      story is sent to the model. */
  lemma {:induction false} RejectsNeverSuppress(g: Config, arrivals: seq<Arrival>)
    requires forall i :: 0 <= i < |arrivals| ==> arrivals[i].reply.Unusable?
    ensures |Journal(g, arrivals)| == |arrivals|
    ensures forall i :: 0 <= i < |arrivals| ==> Journal(g, arrivals)[i].action == Reject
    decreases |arrivals|
  {
    if arrivals != [] {
      var front := arrivals[..|arrivals| - 1];
      RejectsNeverSuppress(g, front);
      PriorIsLatest(Journal(g, front), arrivals[|arrivals| - 1].ts, g.window);
    }
  }

  // ------------------------------------------------------------ the service

  class Triage {
    const g: Config
    var rows: seq<Row>

    constructor (config: Config)
      ensures g == config && rows == []
    {
      g, rows := config, [];
    }

    method FindPriorVerdict(now: int) returns (prior: Option<Row>)
      ensures prior == FindPrior(rows, now, g.window)
    {
      var i := |rows|;
      assert rows[..i] == rows;
      while i > 0
        invariant 0 <= i <= |rows|
        invariant FindPrior(rows, now, g.window) == FindPrior(rows[..i], now, g.window)
      {
        i := i - 1;
        assert rows[..i + 1][..i] == rows[..i];
        if IsVerdict(rows[i]) && rows[i].ts > now - g.window {
          return Some(rows[i]);
        }
      }
      return None;
    }

    method SuppressRepeat(a: Arrival) returns (stop: bool)
      modifies this`rows
      ensures stop == Suppressed(g, old(rows), a)
      ensures rows == if stop then old(rows) + [Row(a.ts, Suppress, a.outlets)] else old(rows)
    {
      if !g.enabled || a.newStory || a.correction {
        return false;
      }
      var prior := FindPriorVerdict(a.ts);
      if prior.None? || DiscardCooldownExpired(prior.value, a.ts, g.discardWindow)
         || CorroborationBypass(a.outlets, prior.value.outlets, g.threshold) || a.held
      {
        return false;
      }
      rows := rows + [Row(a.ts, Suppress, a.outlets)];
      return true;
    }

    /** One item: suppressed, or triaged and journaled with the cluster's state. */
    method Handle(a: Arrival)
      modifies this`rows
      ensures rows == old(rows) + [RowFor(g, old(rows), a)]
    {
      var stop := SuppressRepeat(a);
      if !stop {
        rows := rows + [Row(a.ts, match a.reply
                                  case ToEscalate => Escalate
                                  case ToDiscard => Discard
                                  case Unusable => Reject, a.outlets)];
      }
    }
  }
}
