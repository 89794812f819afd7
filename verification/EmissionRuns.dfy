/** Any run of scans by one process, some of whose emissions may roll back, and the caps on
    its EMITTED rows although the hour is counted once per scan. */
module EmissionRuns {
  import opened Emission
  import opened Options

  const MICROS_PER_DAY := 86_400_000_000

  const HOUR := 3_600_000_000

  function DayOf(ts: int): int { ts / MICROS_PER_DAY }

  datatype Span = OnDay(day: int) | After(lo: int) | Between(lo: int, hi: int)

  predicate Within(w: Span, row: Row) {
    match w
    case OnDay(day) => row.day == day
    case After(lo) => row.ts > lo
    case Between(lo, hi) => lo < row.ts <= hi
  }

  /** EMITTED rows in the span. */
  function Count(rows: seq<Row>, w: Span): nat {
    if rows == [] then 0
    else
      var last := rows[|rows| - 1];
      Count(rows[..|rows| - 1], w) + if last.verdict.status == Emitted && Within(w, last) then 1 else 0
  }

  predicate EmittedOn(rows: seq<Row>, ticker: nat, day: int) {
    exists i :: 0 <= i < |rows| && rows[i].ticker == ticker && rows[i].day == day && rows[i].verdict == EMIT
  }

  /** One cycle. `universe` holds what passed the measured filters, `clock` when each
      survivor's turn comes, `countedAt` when the trailing hour is read; `ready` says that
      the window, the operator's switches and the loss breaker let the scan go on, and
      `rollsAt` at which turn an emission's transaction would roll back. */
  datatype Cycle = Cycle(now: int, countedAt: int, ready: bool, open: nat, early: bool,
                         universe: seq<Candidate>, clock: seq<int>, rollsAt: Option<nat>)

  predicate WellTimed(e: Cycle) {
    && |e.clock| == |e.universe|
    && (forall i :: 0 <= i < |e.clock| ==> e.countedAt <= e.clock[i] && DayOf(e.clock[i]) == DayOf(e.now))
  }

  /** Names already emitted today are not measured again. */
  function Survivors(rows: seq<Row>, day: int, universe: seq<Candidate>): seq<Candidate> {
    if universe == [] then []
    else
      var front := Survivors(rows, day, universe[..|universe| - 1]);
      var c := universe[|universe| - 1];
      if EmittedOn(rows, c.ticker, day) then front else front + [c]
  }

  lemma {:induction false} SurvivorsFresh(rows: seq<Row>, day: int, universe: seq<Candidate>)
    ensures |Survivors(rows, day, universe)| <= |universe|
    ensures forall c :: c in Survivors(rows, day, universe) ==> c in universe && !EmittedOn(rows, c.ticker, day)
    decreases |universe|
  {
    if universe != [] {
      SurvivorsFresh(rows, day, universe[..|universe| - 1]);
    }
  }

  lemma {:induction false} SurvivorsRanked(rows: seq<Row>, day: int, universe: seq<Candidate>)
    ensures var cs := ByScore(Survivors(rows, day, universe));
      |cs| <= |universe| && Ranked(cs) && forall c :: c in cs ==> !EmittedOn(rows, c.ticker, day)
  {
    var raw := Survivors(rows, day, universe);
    SurvivorsFresh(rows, day, universe);
    ByScoreRanks(raw);
    assert |multiset(ByScore(raw))| == |multiset(raw)|;
    forall c | c in ByScore(raw) ensures c in raw {
      assert c in multiset(ByScore(raw));
    }
  }

  function Turns(cs: seq<Candidate>, clock: seq<int>, rollsAt: Option<nat>): seq<Turn>
    requires |cs| <= |clock|
  {
    seq(|cs|, i requires 0 <= i < |cs| => Turn(cs[i], clock[i], rollsAt == Some(i)))
  }

  function ReadingOf(j: Journal, e: Cycle): Reading {
    Reading(Count(j.rows, OnDay(DayOf(e.now))), Count(j.rows, After(e.countedAt - HOUR)), e.open, e.early)
  }

  /** Once the daily cap is spent the scan goes on only to observe. */
  predicate Proceeds(g: Config, j: Journal, e: Cycle) {
    e.ready && (ReadingOf(j, e).today >= g.maxPerDay ==> g.observeAfterCap)
  }

  function TurnsOf(j: Journal, e: Cycle): (ts: seq<Turn>)
    requires WellTimed(e)
    ensures forall k :: 0 <= k < |ts| ==> e.countedAt <= ts[k].at && DayOf(ts[k].at) == DayOf(e.now)
  {
    SurvivorsRanked(j.rows, DayOf(e.now), e.universe);
    Turns(ByScore(Survivors(j.rows, DayOf(e.now), e.universe)), e.clock, e.rollsAt)
  }

  function ScanOnce(g: Config, j: Journal, e: Cycle): Sweep
    requires WellTimed(e)
  {
    if Proceeds(g, j, e) then Scan(g, ReadingOf(j, e), DayOf(e.now), j, TurnsOf(j, e)) else Sweep(j, [], None)
  }

  function Run(g: Config, es: seq<Cycle>): Journal
    requires forall i :: 0 <= i < |es| ==> WellTimed(es[i])
    decreases |es|
  {
    if es == [] then Journal([], {}, {})
    else ScanOnce(g, Run(g, es[..|es| - 1]), es[|es| - 1]).journal
  }

  // --------------------------------------------------------------- counting

  lemma {:induction false} CountAppend(a: seq<Row>, b: seq<Row>, w: Span)
    ensures Count(a + b, w) == Count(a, w) + Count(b, w)
    decreases |b|
  {
    if b == [] {
      assert a + b == a;
    } else {
      assert (a + b)[..|a + b| - 1] == a + b[..|b| - 1];
      CountAppend(a, b[..|b| - 1], w);
    }
  }

  lemma {:induction false} CountWider(rows: seq<Row>, v: Span, w: Span)
    requires forall i :: 0 <= i < |rows| && Within(v, rows[i]) ==> Within(w, rows[i])
    ensures Count(rows, v) <= Count(rows, w)
    decreases |rows|
  {
    if rows != [] {
      CountWider(rows[..|rows| - 1], v, w);
    }
  }

  predicate AtATurn(ts: seq<Turn>, at: int) { exists k :: 0 <= k < |ts| && ts[k].at == at }

  /** The rows a scan adds carry its day and its turns' times, and no more of them are
      EMITTED than the scan emitted. */
  ghost predicate AddedBy(rows: seq<Row>, day: int, ts: seq<Turn>, emitted: nat) {
    && (forall i :: 0 <= i < |rows| ==> rows[i].day == day && AtATurn(ts, rows[i].ts))
    && (forall w: Span :: Count(rows, w) <= emitted)
  }

  function Added(g: Config, r: Reading, day: int, j: Journal, ts: seq<Turn>): seq<Row> {
    if ts == [] then []
    else
      var s := Scan(g, r, day, j, ts[..|ts| - 1]);
      var t := ts[|ts| - 1];
      var v := Decide(g, r, t.c, |s.emitted|);
      var before := Added(g, r, day, j, ts[..|ts| - 1]);
      if s.rolled.Some? || (v == EMIT && t.rolls) || Seen(day, t.c.ticker, v) in s.journal.seen then before
      else before + [Row(day, t.c.ticker, v, t.at)]
  }

  lemma {:induction false} ScanAdds(g: Config, r: Reading, day: int, j: Journal, ts: seq<Turn>)
    ensures Scan(g, r, day, j, ts).journal.rows == j.rows + Added(g, r, day, j, ts)
    ensures AddedBy(Added(g, r, day, j, ts), day, ts, |Scan(g, r, day, j, ts).emitted|)
    decreases |ts|
  {
    hide Decide;
    RowsAdded(g, r, day, j, ts);
    if ts != [] {
      var front, t := ts[..|ts| - 1], ts[|ts| - 1];
      ScanAdds(g, r, day, j, front);
      var before, rows := Added(g, r, day, j, front), Added(g, r, day, j, ts);
      var row := Row(day, t.c.ticker, Decide(g, r, t.c, |Scan(g, r, day, j, front).emitted|), t.at);
      DecideEmitted(g, r, t.c, |Scan(g, r, day, j, front).emitted|);
      assert rows == before || (rows == before + [row] && rows[..|rows| - 1] == before);
      forall i | 0 <= i < |rows| ensures rows[i].day == day && AtATurn(ts, rows[i].ts) {
        if i < |before| {
          assert rows[i] == before[i] && AtATurn(front, before[i].ts);
          var k :| 0 <= k < |front| && front[k].at == before[i].ts;
          assert ts[k].at == rows[i].ts;
        } else {
          assert ts[|ts| - 1].at == rows[i].ts;
        }
      }
      forall w: Span ensures Count(rows, w) <= |Scan(g, r, day, j, ts).emitted| {
        assert Count(before, w) <= |Scan(g, r, day, j, front).emitted|;
      }
    }
  }

  lemma {:induction false} RowsAdded(g: Config, r: Reading, day: int, j: Journal, ts: seq<Turn>)
    ensures Scan(g, r, day, j, ts).journal.rows == j.rows + Added(g, r, day, j, ts)
    decreases |ts|
  {
    hide Decide;
    if ts == [] {
      assert j.rows + [] == j.rows;
    } else {
      var front, t := ts[..|ts| - 1], ts[|ts| - 1];
      RowsAdded(g, r, day, j, front);
      var s := Scan(g, r, day, j, front);
      var row := Row(day, t.c.ticker, Decide(g, r, t.c, |s.emitted|), t.at);
      assert s.rolled.None? && !(row.verdict == EMIT && t.rolls) ==>
        Scan(g, r, day, j, ts).journal.rows == Note(s.journal, row).rows;
      assert j.rows + (Added(g, r, day, j, front) + [row]) == s.journal.rows + [row];
    }
  }

  lemma {:induction false} DecideEmitted(g: Config, r: Reading, c: Candidate, n: nat)
    ensures Decide(g, r, c, n).status == Emitted <==> Decide(g, r, c, n) == EMIT
  {
  }

  // ------------------------------------------------------------------- caps

  function AtLeast0(n: int): nat { if n > 0 then n else 0 }

  ghost predicate DailyCapped(g: Config, rows: seq<Row>) {
    forall day: int :: Count(rows, OnDay(day)) <= AtLeast0(g.maxPerDay)
  }

  function HourTo(t: int): Span { Between(t - 3_600_000_000, t) }

  ghost predicate HourlyCapped(g: Config, rows: seq<Row>) {
    g.maxPerHour != 0 ==> forall t: int :: Count(rows, HourTo(t)) <= AtLeast0(g.maxPerHour)
  }

  /** What a scan may add to a day and to a trailing hour, from what it read. */
  lemma {:induction false} ScanFitsItsReading(g: Config, j: Journal, e: Cycle)
    requires WellTimed(e) && Proceeds(g, j, e)
    ensures var r := ReadingOf(j, e);
      var n := |ScanOnce(g, j, e).emitted|;
      && n <= AtLeast0(g.maxPerScan)
      && (n > 0 ==> r.today + n <= g.maxPerDay && (g.maxPerHour != 0 ==> r.hour + n <= g.maxPerHour))
  {
    ScanIsGreedy(g, ReadingOf(j, e), DayOf(e.now), j, TurnsOf(j, e));
  }

  lemma {:induction false} ScanKeepsDailyCap(g: Config, j: Journal, e: Cycle)
    requires WellTimed(e) && DailyCapped(g, j.rows)
    ensures DailyCapped(g, ScanOnce(g, j, e).journal.rows)
  {
    if Proceeds(g, j, e) {
      hide Scan, Added, TurnsOf;
      var r, ts, today := ReadingOf(j, e), TurnsOf(j, e), DayOf(e.now);
      ScanAdds(g, r, today, j, ts);
      ScanFitsItsReading(g, j, e);
      var rows := Added(g, r, today, j, ts);
      forall day: int ensures Count(j.rows + rows, OnDay(day)) <= AtLeast0(g.maxPerDay) {
        CountAppend(j.rows, rows, OnDay(day));
        if day != today {
          CountNone(rows, OnDay(day));
        }
      }
    }
  }

  lemma {:induction false} CountNone(rows: seq<Row>, w: Span)
    requires forall i :: 0 <= i < |rows| ==> !Within(w, rows[i])
    ensures Count(rows, w) == 0
    decreases |rows|
  {
    if rows != [] {
      CountNone(rows[..|rows| - 1], w);
    }
  }

  lemma {:induction false} RowsAreLater(j: Journal, e: Cycle, rows: seq<Row>, n: nat)
    requires WellTimed(e) && AddedBy(rows, DayOf(e.now), TurnsOf(j, e), n)
    ensures forall i :: 0 <= i < |rows| ==> rows[i].ts >= e.countedAt
  {
    var ts := TurnsOf(j, e);
    forall i | 0 <= i < |rows| ensures rows[i].ts >= e.countedAt {
      assert AtATurn(ts, rows[i].ts);
      var k :| 0 <= k < |ts| && ts[k].at == rows[i].ts;
    }
  }

  /** Any window that reaches a row of this scan lies inside the hour the scan counted,
      as far as earlier rows go. */
  lemma {:induction false} ScanKeepsHourlyCap(g: Config, j: Journal, e: Cycle)
    requires WellTimed(e) && HourlyCapped(g, j.rows)
    ensures HourlyCapped(g, ScanOnce(g, j, e).journal.rows)
  {
    if Proceeds(g, j, e) && g.maxPerHour != 0 {
      var rows := RowsOfScan(g, j, e);
      HourlyAfter(g, j.rows, rows, e.countedAt, |ScanOnce(g, j, e).emitted|);
    }
  }

  /** The rows a scan adds: no more EMITTED ones in any span than it emitted, none before the
      hour was read, and fitting beside that hour. */
  lemma {:induction false} RowsOfScan(g: Config, j: Journal, e: Cycle) returns (rows: seq<Row>)
    requires WellTimed(e) && Proceeds(g, j, e)
    ensures ScanOnce(g, j, e).journal.rows == j.rows + rows
    ensures forall w: Span :: Count(rows, w) <= |ScanOnce(g, j, e).emitted|
    ensures forall i :: 0 <= i < |rows| ==> rows[i].ts >= e.countedAt
    ensures |ScanOnce(g, j, e).emitted| > 0 && g.maxPerHour != 0 ==>
      Count(j.rows, After(e.countedAt - HOUR)) + |ScanOnce(g, j, e).emitted| <= g.maxPerHour
  {
    var r, ts := ReadingOf(j, e), TurnsOf(j, e);
    ScanAdds(g, r, DayOf(e.now), j, ts);
    ScanFitsItsReading(g, j, e);
    rows := Added(g, r, DayOf(e.now), j, ts);
    hide Scan, Added, TurnsOf, Count, Room, EligibleOf;
    RowsAreLater(j, e, rows, |ScanOnce(g, j, e).emitted|);
  }

  lemma {:induction false} HourlyAfter(g: Config, before: seq<Row>, rows: seq<Row>, countedAt: int, n: nat)
    requires HourlyCapped(g, before) && g.maxPerHour != 0
    requires n > 0 ==> Count(before, After(countedAt - HOUR)) + n <= g.maxPerHour
    requires forall w: Span :: Count(rows, w) <= n
    requires forall i :: 0 <= i < |rows| ==> rows[i].ts >= countedAt
    ensures HourlyCapped(g, before + rows)
  {
    hide Count;
    forall t: int ensures Count(before + rows, HourTo(t)) <= AtLeast0(g.maxPerHour) {
      assert Count(rows, HourTo(t)) <= n;
      HourAfterScan(g, before, rows, countedAt, n, t);
    }
  }

  lemma {:induction false} HourAfterScan(g: Config, before: seq<Row>, rows: seq<Row>, countedAt: int, n: nat, t: int)
    requires Count(before, HourTo(t)) <= AtLeast0(g.maxPerHour)
    requires n > 0 ==> Count(before, After(countedAt - HOUR)) + n <= g.maxPerHour
    requires Count(rows, HourTo(t)) <= n
    requires forall i :: 0 <= i < |rows| ==> rows[i].ts >= countedAt
    ensures Count(before + rows, HourTo(t)) <= AtLeast0(g.maxPerHour)
  {
    hide Count;
    CountAppend(before, rows, HourTo(t));
    if t >= countedAt {
      CountWider(before, HourTo(t), After(countedAt - HOUR));
    } else {
      CountNone(rows, HourTo(t));
    }
  }

  /** From an empty journal: every sliding hour, every day and every scan stay within
      their caps. */
  lemma {:induction false} CapsHoldOverRuns(g: Config, es: seq<Cycle>)
    requires forall i :: 0 <= i < |es| ==> WellTimed(es[i])
    ensures DailyCapped(g, Run(g, es).rows) && HourlyCapped(g, Run(g, es).rows)
    ensures forall e: Cycle :: WellTimed(e) ==> |ScanOnce(g, Run(g, es), e).emitted| <= AtLeast0(g.maxPerScan)
    decreases |es|
  {
    hide ScanOnce;
    if es != [] {
      var j := Run(g, es[..|es| - 1]);
      CapsHoldOverRuns(g, es[..|es| - 1]);
      ScanKeepsDailyCap(g, j, es[|es| - 1]);
      ScanKeepsHourlyCap(g, j, es[|es| - 1]);
    }
    forall e: Cycle | WellTimed(e) ensures |ScanOnce(g, Run(g, es), e).emitted| <= AtLeast0(g.maxPerScan) {
      PerScanCap(g, Run(g, es), e);
    }
  }

  /** EMITTED rows of a day, and those later than an instant. */
  function EmittedRows(rows: seq<Row>, day: int): nat {
    if rows == [] then 0
    else
      var last := rows[|rows| - 1];
      EmittedRows(rows[..|rows| - 1], day) + if last.verdict.status == Emitted && last.day == day then 1 else 0
  }

  function EmittedSince(rows: seq<Row>, ts: int): nat {
    if rows == [] then 0
    else
      var last := rows[|rows| - 1];
      EmittedSince(rows[..|rows| - 1], ts) + if last.verdict.status == Emitted && last.ts > ts then 1 else 0
  }

  lemma {:induction false} CountsAre(rows: seq<Row>, day: int, ts: int)
    ensures Count(rows, OnDay(day)) == EmittedRows(rows, day) && Count(rows, After(ts)) == EmittedSince(rows, ts)
    decreases |rows|
  {
    if rows != [] {
      CountsAre(rows[..|rows| - 1], day, ts);
    }
  }

  /** A scan reads its day's EMITTED rows and those of the hour before it counts them. */
  lemma {:induction false} ReadingSays(j: Journal, e: Cycle)
    ensures var r := ReadingOf(j, e);
      && r.today == EmittedRows(j.rows, e.now / 86_400_000_000)
      && r.hour == EmittedSince(j.rows, e.countedAt - 3_600_000_000)
      && r.open == e.open && r.early == e.early
  {
    CountsAre(j.rows, DayOf(e.now), e.countedAt - HOUR);
  }

  /** A cycle measures and journals exactly when it may run and the day has room left or is
      still observed. */
  lemma {:induction false} ProceedsIff(g: Config, j: Journal, e: Cycle)
    requires WellTimed(e)
    ensures Proceeds(g, j, e) <==>
      e.ready && (Count(j.rows, OnDay(e.now / 86_400_000_000)) < g.maxPerDay || g.observeAfterCap)
    ensures !Proceeds(g, j, e) ==> ScanOnce(g, j, e).journal == j
  {
    hide Count;
  }

  lemma {:induction false} PerScanCap(g: Config, j: Journal, e: Cycle)
    requires WellTimed(e)
    ensures |ScanOnce(g, j, e).emitted| <= AtLeast0(g.maxPerScan)
  {
    if Proceeds(g, j, e) {
      ScanFitsItsReading(g, j, e);
    }
  }
}
