/** What the journal, the queue and the process's memory say of one another when emissions
    may roll back. */
module EmissionJournal {
  import opened Emission
  import opened EmissionRuns
  import opened Options

  ghost predicate AllTimed(es: seq<Cycle>) { forall i :: 0 <= i < |es| ==> WellTimed(es[i]) }

  function ItemOf(e: Cycle, c: Candidate): Item { Item(c.ticker, DayOf(e.now)) }

  /** Names whose emission rolled back, by day. */
  function Rolled(g: Config, es: seq<Cycle>): set<Item>
    requires AllTimed(es)
    decreases |es|
  {
    if es == [] then {}
    else
      var front, e := es[..|es| - 1], es[|es| - 1];
      var s := ScanOnce(g, Run(g, front), e);
      Rolled(g, front) + if s.rolled.Some? then {ItemOf(e, s.rolled.value)} else {}
  }

  /** Names emitted again after their emission of that day had rolled back. */
  function ReEmitted(g: Config, es: seq<Cycle>): set<Item>
    requires AllTimed(es)
    decreases |es|
  {
    if es == [] then {}
    else
      var front, e := es[..|es| - 1], es[|es| - 1];
      ReEmitted(g, front) + Again(ScanOnce(g, Run(g, front), e).emitted, DayOf(e.now), Rolled(g, front))
  }

  function Again(emitted: seq<Candidate>, day: int, rolled: set<Item>): set<Item> {
    set i | 0 <= i < |emitted| && Item(emitted[i].ticker, day) in rolled :: Item(emitted[i].ticker, day)
  }

  predicate HasRow(j: Journal, i: Item) { EmittedOn(j.rows, i.ticker, i.day) }

  function Key(i: Item): Seen { Seen(i.day, i.ticker, EMIT) }

  /** rolled holds the rolled-back names so far, again those emitted after that. */
  ghost predicate Kept(j: Journal, rolled: set<Item>, again: set<Item>) {
    && (forall i: Item :: Key(i) in j.seen <==> HasRow(j, i) || i in rolled)
    && (forall i: Item :: i in j.queued <==> HasRow(j, i) || i in again)
    && (forall i: Item :: i in again ==> i in rolled && !HasRow(j, i))
    && OneRowEach(j.rows)
  }

  ghost predicate OneRowEach(rows: seq<Row>) {
    forall a, b :: 0 <= a < b < |rows| && rows[a].verdict == EMIT && rows[b].verdict == EMIT ==>
      rows[a].ticker != rows[b].ticker || rows[a].day != rows[b].day
  }

  /** In a scan: names with a row were not rolled back before it, and the survivors' rows of
      the day are the scan's own. */
  ghost predicate Apart(j: Journal, day: int, ts: seq<Turn>, rolled: set<Item>) {
    forall k :: 0 <= k < |ts| && HasRow(j, Item(ts[k].c.ticker, day)) ==> Item(ts[k].c.ticker, day) !in rolled
  }

  lemma {:induction false} EmittedOnAppend(rows: seq<Row>, row: Row, ticker: nat, day: int)
    ensures EmittedOn(rows + [row], ticker, day)
        <==> EmittedOn(rows, ticker, day) || (row.ticker == ticker && row.day == day && row.verdict == EMIT)
  {
    var all := rows + [row];
    assert all[|rows|] == row;
    if EmittedOn(rows, ticker, day) {
      var i :| 0 <= i < |rows| && rows[i].ticker == ticker && rows[i].day == day && rows[i].verdict == EMIT;
      assert all[i] == rows[i];
    }
  }

  lemma {:induction false} RowIsEmitted(rows: seq<Row>, a: nat)
    requires a < |rows| && rows[a].verdict == EMIT
    ensures EmittedOn(rows, rows[a].ticker, rows[a].day)
  {
  }

  /** A reject journaled or not changes neither side. */
  lemma {:induction false} RejectKeeps(j: Journal, row: Row, rolled: set<Item>, again: set<Item>)
    requires Kept(j, rolled, again) && row.verdict != EMIT
    ensures var u := Note(j, row); Kept(u, rolled, again) && forall i: Item :: HasRow(u, i) <==> HasRow(j, i)
  {
    hide EmittedOn;
    forall i: Item ensures EmittedOn(j.rows + [row], i.ticker, i.day) <==> EmittedOn(j.rows, i.ticker, i.day) {
      EmittedOnAppend(j.rows, row, i.ticker, i.day);
    }
  }

  /** An emission writes its row unless the name is remembered; remembered without a row, it
      is queued all the same. */
  lemma {:induction false} EmitKeeps(j: Journal, item: Item, at: int, rolled: set<Item>, again: set<Item>)
    requires Kept(j, rolled, again) && (HasRow(j, item) ==> item !in rolled)
    ensures var noted := Note(j, Row(item.day, item.ticker, EMIT, at));
      var u := noted.(queued := noted.queued + {item});
      && Kept(u, rolled, if item in rolled then again + {item} else again)
      && forall i: Item :: HasRow(u, i) <==> HasRow(j, i) || (i == item && item !in rolled)
  {
    hide EmittedOn;
    var row := Row(item.day, item.ticker, EMIT, at);
    assert Key(item) == Seen(row.day, row.ticker, row.verdict);
    forall i: Item ensures EmittedOn(j.rows + [row], i.ticker, i.day) <==> EmittedOn(j.rows, i.ticker, i.day) || i == item {
      EmittedOnAppend(j.rows, row, i.ticker, i.day);
    }
    if Key(item) !in j.seen {
      forall a | 0 <= a < |j.rows| && j.rows[a].verdict == EMIT
        ensures j.rows[a].ticker != item.ticker || j.rows[a].day != item.day
      {
        RowIsEmitted(j.rows, a);
      }
    }
  }

  lemma {:induction false} RollKeeps(j: Journal, item: Item, rolled: set<Item>, again: set<Item>)
    requires Kept(j, rolled, again)
    ensures Kept(Remember(j, item.day, item.ticker), rolled + {item}, again)
  {
    hide EmittedOn;
    var u := Remember(j, item.day, item.ticker);
    assert forall i: Item :: Key(i) == Key(item) ==> i == item;
    assert forall i: Item :: HasRow(u, i) == HasRow(j, i);
  }

  lemma {:induction false} AgainSnoc(emitted: seq<Candidate>, c: Candidate, day: int, rolled: set<Item>)
    ensures Again(emitted + [c], day, rolled)
         == Again(emitted, day, rolled) + if Item(c.ticker, day) in rolled then {Item(c.ticker, day)} else {}
  {
    var all := emitted + [c];
    assert all[|emitted|] == c;
    assert forall i :: 0 <= i < |emitted| ==> all[i] == emitted[i];
  }

  function RolledNow(s: Sweep, day: int, rolled: set<Item>): set<Item> {
    rolled + if s.rolled.Some? then {Item(s.rolled.value.ticker, day)} else {}
  }

  lemma {:induction false} TakeKeeps(g: Config, r: Reading, day: int, s: Sweep, t: Turn, ts: seq<Turn>,
                                     rolled: set<Item>, before: set<Item>)
    requires t in ts && Apart(s.journal, day, ts, rolled)
    requires Kept(s.journal, RolledNow(s, day, rolled), before + Again(s.emitted, day, rolled))
    ensures var u := Take(g, r, day, s, t);
      && Kept(u.journal, RolledNow(u, day, rolled), before + Again(u.emitted, day, rolled))
      && Apart(u.journal, day, ts, rolled)
  {
    hide Decide, Note, Kept, HasRow, Again;
    if s.rolled.None? {
      var item := Item(t.c.ticker, day);
      var v := Decide(g, r, t.c, |s.emitted|);
      assert RolledNow(s, day, rolled) == rolled;
      if v != EMIT {
        RejectKeeps(s.journal, Row(day, t.c.ticker, v, t.at), rolled, before + Again(s.emitted, day, rolled));
      } else if t.rolls {
        RollKeeps(s.journal, item, rolled, before + Again(s.emitted, day, rolled));
        SameRows(s.journal, item);
      } else {
        EmitKeeps(s.journal, item, t.at, rolled, before + Again(s.emitted, day, rolled));
        AgainSnoc(s.emitted, t.c, day, rolled);
        var was := before + Again(s.emitted, day, rolled);
        assert before + Again(s.emitted + [t.c], day, rolled) == if item in rolled then was + {item} else was;
      }
    }
  }

  lemma {:induction false} SameRows(j: Journal, item: Item)
    ensures forall i: Item :: HasRow(Remember(j, item.day, item.ticker), i) <==> HasRow(j, i)
  {
  }

  lemma {:induction false} ScanKeeps(g: Config, r: Reading, day: int, j: Journal, done: seq<Turn>, ts: seq<Turn>,
                                     rolled: set<Item>, before: set<Item>)
    requires done <= ts && Apart(j, day, ts, rolled) && Kept(j, rolled, before)
    ensures var u := Scan(g, r, day, j, done);
      && Kept(u.journal, RolledNow(u, day, rolled), before + Again(u.emitted, day, rolled))
      && Apart(u.journal, day, ts, rolled)
    decreases |done|
  {
    hide Kept, Take, Apart;
    if done == [] {
      assert before + Again([], day, rolled) == before && RolledNow(Sweep(j, [], None), day, rolled) == rolled;
    } else {
      hide Again, RolledNow;
      ScanKeeps(g, r, day, j, done[..|done| - 1], ts, rolled, before);
      TakeKeeps(g, r, day, Scan(g, r, day, j, done[..|done| - 1]), done[|done| - 1], ts, rolled, before);
    }
  }

  lemma {:induction false} StartsApart(j: Journal, e: Cycle, rolled: set<Item>)
    requires WellTimed(e)
    ensures Apart(j, DayOf(e.now), TurnsOf(j, e), rolled)
  {
    SurvivorsRanked(j.rows, DayOf(e.now), e.universe);
  }

  lemma {:induction false} RunKeeps(g: Config, es: seq<Cycle>)
    requires AllTimed(es)
    ensures Kept(Run(g, es), Rolled(g, es), ReEmitted(g, es))
    decreases |es|
  {
    if es != [] {
      hide Kept;
      var front, e := es[..|es| - 1], es[|es| - 1];
      var j, rolled, before := Run(g, front), Rolled(g, front), ReEmitted(g, front);
      RunKeeps(g, front);
      if Proceeds(g, j, e) {
        StartsApart(j, e, rolled);
        ScanKeeps(g, ReadingOf(j, e), DayOf(e.now), j, TurnsOf(j, e), TurnsOf(j, e), rolled, before);
      } else {
        assert Again([], DayOf(e.now), rolled) == {};
      }
    }
  }

  /** An item is on the queue exactly when its EMITTED row is journaled. */
  ghost predicate Matched(j: Journal) { forall i: Item :: i in j.queued <==> HasRow(j, i) }

  /** Exactly when: over any run of one process the queue and the EMITTED rows name the same
      items, one row each, if and only if no name whose emission rolled back that day was
      emitted again. */
  lemma {:induction false} QueueMatchesRowsIff(g: Config, es: seq<Cycle>)
    requires AllTimed(es)
    ensures Matched(Run(g, es)) <==> ReEmitted(g, es) == {}
    ensures OneRowEach(Run(g, es).rows)
  {
    hide HasRow, Run, ReEmitted, Rolled;
    RunKeeps(g, es);
    var again := ReEmitted(g, es);
    if again != {} {
      var i :| i in again;
      assert i in Run(g, es).queued && !HasRow(Run(g, es), i);
    }
  }

  // --------------------------------------------------- caps on the queue

  function QueuedOn(queued: set<Item>, day: int): set<Item> { set i | i in queued && i.day == day }

  /** EMITTED is the verdict EMIT and no other. */
  ghost predicate PlainRows(rows: seq<Row>) {
    forall i :: 0 <= i < |rows| ==> (rows[i].verdict.status == Emitted <==> rows[i].verdict == EMIT)
  }

  lemma {:induction false} NewRowNewItem(front: seq<Row>, last: Row)
    requires OneRowEach(front + [last]) && last.verdict == EMIT
    ensures !EmittedOn(front, last.ticker, last.day)
  {
    var rows := front + [last];
    assert rows[|front|] == last;
    assert forall k :: 0 <= k < |front| ==> rows[k] == front[k];
  }

  lemma {:induction false} RowsAreItems(rows: seq<Row>, day: int) returns (items: set<Item>)
    requires OneRowEach(rows) && PlainRows(rows)
    ensures forall i: Item :: i in items <==> i.day == day && EmittedOn(rows, i.ticker, i.day)
    ensures |items| == Count(rows, OnDay(day))
    decreases |rows|
  {
    items := {};
    if rows != [] {
      var front, last := rows[..|rows| - 1], rows[|rows| - 1];
      assert rows == front + [last];
      FrontIsPlain(rows);
      items := RowsAreItems(front, day);
      forall i: Item
        ensures EmittedOn(rows, i.ticker, i.day)
            <==> EmittedOn(front, i.ticker, i.day) || (last.ticker == i.ticker && last.day == i.day && last.verdict == EMIT)
      {
        EmittedOnAppend(front, last, i.ticker, i.day);
      }
      hide EmittedOn, OneRowEach;
      if last.verdict == EMIT && last.day == day {
        NewRowNewItem(front, last);
        assert Item(last.ticker, day) !in items;
        items := items + {Item(last.ticker, day)};
      }
    }
  }

  lemma {:induction false} FrontIsPlain(rows: seq<Row>)
    requires OneRowEach(rows) && PlainRows(rows) && rows != []
    ensures OneRowEach(rows[..|rows| - 1]) && PlainRows(rows[..|rows| - 1])
    ensures rows[|rows| - 1].verdict.status == Emitted <==> rows[|rows| - 1].verdict == EMIT
  {
  }

  lemma {:induction false} ScanKeepsPlain(g: Config, r: Reading, day: int, j: Journal, ts: seq<Turn>)
    requires PlainRows(j.rows)
    ensures PlainRows(Scan(g, r, day, j, ts).journal.rows)
    decreases |ts|
  {
    hide Decide;
    if ts != [] {
      var s := Scan(g, r, day, j, ts[..|ts| - 1]);
      ScanKeepsPlain(g, r, day, j, ts[..|ts| - 1]);
      DecideEmitted(g, r, ts[|ts| - 1].c, |s.emitted|);
    }
  }

  lemma {:induction false} RunIsPlain(g: Config, es: seq<Cycle>)
    requires AllTimed(es)
    ensures PlainRows(Run(g, es).rows)
    decreases |es|
  {
    if es != [] {
      hide PlainRows;
      var j, e := Run(g, es[..|es| - 1]), es[|es| - 1];
      RunIsPlain(g, es[..|es| - 1]);
      if Proceeds(g, j, e) {
        ScanKeepsPlain(g, ReadingOf(j, e), DayOf(e.now), j, TurnsOf(j, e));
      }
    }
  }

  /** The queue of a day is its EMITTED rows and the names emitted again after a rollback, so
      those are exactly what the caps on rows do not see. */
  lemma {:induction false} QueueOutgrowsRows(g: Config, es: seq<Cycle>, day: int)
    requires AllTimed(es)
    ensures |QueuedOn(Run(g, es).queued, day)| == Count(Run(g, es).rows, OnDay(day)) + |QueuedOn(ReEmitted(g, es), day)|
  {
    hide Run, ReEmitted, Rolled, Count;
    var j, again := Run(g, es), ReEmitted(g, es);
    RunKeeps(g, es);
    RunIsPlain(g, es);
    var items := RowsAreItems(j.rows, day);
    assert QueuedOn(j.queued, day) == items + QueuedOn(again, day);
    assert items !! QueuedOn(again, day);
  }

  /** The daily cap holds for the queue too when nothing rolled back is emitted again, and in
      general it holds exactly when those names fit beside the rows. */
  lemma {:induction false} QueueCapIff(g: Config, es: seq<Cycle>, day: int)
    requires AllTimed(es)
    ensures |QueuedOn(Run(g, es).queued, day)| <= AtLeast0(g.maxPerDay)
       <==> Count(Run(g, es).rows, OnDay(day)) + |QueuedOn(ReEmitted(g, es), day)| <= AtLeast0(g.maxPerDay)
    ensures ReEmitted(g, es) == {} ==> |QueuedOn(Run(g, es).queued, day)| <= AtLeast0(g.maxPerDay)
  {
    hide Run, ReEmitted;
    QueueOutgrowsRows(g, es, day);
    CapsHoldOverRuns(g, es);
    if ReEmitted(g, es) == {} {
      assert QueuedOn(ReEmitted(g, es), day) == {};
    }
  }

  // ------------------------------------------------------ the queue's hour

  /** A new item on the queue: when, and whether its name was remembered without a row. */
  datatype Send = Send(at: int, rowless: bool)

  /** The turn puts a new item on the queue. */
  predicate Queues(g: Config, r: Reading, day: int, s: Sweep, t: Turn) {
    && s.rolled.None? && Decide(g, r, t.c, |s.emitted|) == EMIT && !t.rolls
    && Item(t.c.ticker, day) !in s.journal.queued
  }

  function Sends(g: Config, r: Reading, day: int, j: Journal, ts: seq<Turn>): seq<Send> {
    if ts == [] then []
    else
      var s, t := Scan(g, r, day, j, ts[..|ts| - 1]), ts[|ts| - 1];
      var before := Sends(g, r, day, j, ts[..|ts| - 1]);
      if Queues(g, r, day, s, t) then before + [Send(t.at, Key(Item(t.c.ticker, day)) in s.journal.seen)]
      else before
  }

  function AllSends(g: Config, es: seq<Cycle>): seq<Send>
    requires AllTimed(es)
    decreases |es|
  {
    if es == [] then []
    else
      var j, e := Run(g, es[..|es| - 1]), es[|es| - 1];
      AllSends(g, es[..|es| - 1])
      + if Proceeds(g, j, e) then Sends(g, ReadingOf(j, e), DayOf(e.now), j, TurnsOf(j, e)) else []
  }

  /** Items queued in the hour to t; the rowless ones alone if so asked. */
  function SentIn(sends: seq<Send>, t: int, rowless: bool): nat {
    if sends == [] then 0
    else
      var last := sends[|sends| - 1];
      SentIn(sends[..|sends| - 1], t, rowless)
      + if t - HOUR < last.at <= t && (rowless ==> last.rowless) then 1 else 0
  }

  /** What is on the queue is remembered. */
  ghost predicate Recalled(j: Journal) { forall i: Item :: i in j.queued ==> Key(i) in j.seen }

  lemma {:induction false} TakeQueues(g: Config, r: Reading, day: int, s: Sweep, t: Turn)
    requires Recalled(s.journal)
    ensures var u, item := Take(g, r, day, s, t).journal, Item(t.c.ticker, day);
      && Recalled(u)
      && u.queued == if Queues(g, r, day, s, t) then s.journal.queued + {item} else s.journal.queued
  {
    var item, j := Item(t.c.ticker, day), s.journal;
    var row := Row(day, t.c.ticker, Decide(g, r, t.c, |s.emitted|), t.at);
    NoteRecalls(j, row);
    hide Decide, Note, Recalled;
    if item in j.queued {
      assert j.queued + {item} == j.queued;
    }
    QueueRecalls(Note(j, row), item);
    RememberRecalls(j, item);
  }

  lemma {:induction false} QueuesNew(g: Config, r: Reading, day: int, s: Sweep, t: Turn)
    requires Queues(g, r, day, s, t)
    ensures Item(t.c.ticker, day) !in s.journal.queued
  {
    hide Decide;
  }

  lemma {:induction false} NoteRecalls(j: Journal, row: Row)
    requires Recalled(j)
    ensures var u := Note(j, row);
      Recalled(u) && u.queued == j.queued && (row.verdict == EMIT ==> Key(Item(row.ticker, row.day)) in u.seen)
  {
  }

  lemma {:induction false} QueueRecalls(j: Journal, item: Item)
    requires Recalled(j)
    ensures Key(item) in j.seen ==> Recalled(j.(queued := j.queued + {item}))
  {
  }

  lemma {:induction false} RememberRecalls(j: Journal, item: Item)
    requires Recalled(j)
    ensures Recalled(Remember(j, item.day, item.ticker))
  {
  }

  lemma {:induction false} OneRow(rows: seq<Row>, row: Row, w: Span)
    ensures Count(rows + [row], w) == Count(rows, w) + if row.verdict.status == Emitted && Within(w, row) then 1 else 0
  {
    assert (rows + [row])[..|rows|] == rows;
  }

  lemma {:induction false} OneSend(sends: seq<Send>, send: Send, t: int, rowless: bool)
    ensures SentIn(sends + [send], t, rowless)
         == SentIn(sends, t, rowless) + if t - HOUR < send.at <= t && (rowless ==> send.rowless) then 1 else 0
  {
    assert (sends + [send])[..|sends|] == sends;
  }

  lemma {:induction false} SentAppend(a: seq<Send>, b: seq<Send>, t: int, rowless: bool)
    ensures SentIn(a + b, t, rowless) == SentIn(a, t, rowless) + SentIn(b, t, rowless)
    decreases |b|
  {
    if b == [] {
      assert a + b == a;
    } else {
      assert (a + b)[..|a + b| - 1] == a + b[..|b| - 1];
      SentAppend(a, b[..|b| - 1], t, rowless);
    }
  }

  /** Every send is a new item. */
  lemma {:induction false} SendsAreItems(g: Config, r: Reading, day: int, j: Journal, ts: seq<Turn>)
    requires Recalled(j)
    ensures var u := Scan(g, r, day, j, ts).journal;
      Recalled(u) && |u.queued| == |j.queued| + |Sends(g, r, day, j, ts)|
    decreases |ts|
  {
    hide Take, Queues, Recalled;
    if ts != [] {
      var s, t := Scan(g, r, day, j, ts[..|ts| - 1]), ts[|ts| - 1];
      SendsAreItems(g, r, day, j, ts[..|ts| - 1]);
      TakeQueues(g, r, day, s, t);
      if Queues(g, r, day, s, t) {
        QueuesNew(g, r, day, s, t);
      }
    }
  }

  /** A send is a row of its hour unless it has none. */
  lemma {:induction false} SendsAreRows(g: Config, r: Reading, day: int, j: Journal, ts: seq<Turn>, t: int)
    requires Recalled(j)
    ensures var sends := Sends(g, r, day, j, ts);
      SentIn(sends, t, false) == Count(Added(g, r, day, j, ts), HourTo(t)) + SentIn(sends, t, true)
    decreases |ts|
  {
    if ts != [] {
      var front, turn := ts[..|ts| - 1], ts[|ts| - 1];
      SendsAreItems(g, r, day, j, front);
      var s := Scan(g, r, day, j, front);
      var v := Decide(g, r, turn.c, |s.emitted|);
      var row, send := Row(day, turn.c.ticker, v, turn.at), Send(turn.at, Key(Item(turn.c.ticker, day)) in s.journal.seen);
      var rows, sends := Added(g, r, day, j, front), Sends(g, r, day, j, front);
      SendsAreRows(g, r, day, j, front, t);
      TurnIsRow(g, r, day, s, turn);
      assert Added(g, r, day, j, ts) == if Journals(g, r, day, s, turn) then rows + [row] else rows;
      assert Sends(g, r, day, j, ts) == if Queues(g, r, day, s, turn) then sends + [send] else sends;
      hide *;
      OneRow(rows, row, HourTo(t));
      OneSend(sends, send, t, false);
      OneSend(sends, send, t, true);
      InHour(row, t);
    }
  }

  lemma {:induction false} InHour(row: Row, t: int)
    ensures Within(HourTo(t), row) <==> t - HOUR < row.ts <= t
  {
  }

  /** The turn writes a row. */
  predicate Journals(g: Config, r: Reading, day: int, s: Sweep, t: Turn) {
    var v := Decide(g, r, t.c, |s.emitted|);
    s.rolled.None? && !(v == EMIT && t.rolls) && Seen(day, t.c.ticker, v) !in s.journal.seen
  }

  /** A turn writes an EMITTED row exactly when it queues an item not remembered. */
  lemma {:induction false} TurnIsRow(g: Config, r: Reading, day: int, s: Sweep, t: Turn)
    requires Recalled(s.journal)
    ensures Journals(g, r, day, s, t) && Decide(g, r, t.c, |s.emitted|).status == Emitted
       <==> Queues(g, r, day, s, t) && Key(Item(t.c.ticker, day)) !in s.journal.seen
  {
    DecideEmitted(g, r, t.c, |s.emitted|);
    hide Decide;
    assert Key(Item(t.c.ticker, day)) == Seen(day, t.c.ticker, EMIT);
  }

  /** A send without a row is a name that had rolled back. */
  lemma {:induction false} RowlessIsAgain(g: Config, r: Reading, day: int, j: Journal, done: seq<Turn>, ts: seq<Turn>,
                                          rolled: set<Item>, before: set<Item>, t: int)
    requires done <= ts && Apart(j, day, ts, rolled) && Kept(j, rolled, before)
    requires Again(Scan(g, r, day, j, done).emitted, day, rolled) == {}
    ensures SentIn(Sends(g, r, day, j, done), t, true) == 0
    decreases |done|
  {
    if done != [] {
      var front, turn := done[..|done| - 1], done[|done| - 1];
      var s := Scan(g, r, day, j, front);
      var item := Item(turn.c.ticker, day);
      AgainSnoc(s.emitted, turn.c, day, rolled);
      ScanKeeps(g, r, day, j, front, ts, rolled, before);
      hide Decide, Note, Again, HasRow, Apart;
      assert Again(s.emitted, day, rolled) == {};
      RowlessIsAgain(g, r, day, j, front, ts, rolled, before, t);
      OneSend(Sends(g, r, day, j, front), Send(turn.at, Key(item) in s.journal.seen), t, true);
    }
  }

  lemma {:induction false} RunSends(g: Config, es: seq<Cycle>, t: int)
    requires AllTimed(es)
    ensures var j, sends := Run(g, es), AllSends(g, es);
      && Recalled(j) && |j.queued| == |sends|
      && SentIn(sends, t, false) == Count(j.rows, HourTo(t)) + SentIn(sends, t, true)
      && (ReEmitted(g, es) == {} ==> SentIn(sends, t, true) == 0)
    decreases |es|
  {
    if es != [] {
      var front, e := es[..|es| - 1], es[|es| - 1];
      var j := Run(g, front);
      RunSends(g, front, t);
      RunKeeps(g, front);
      if Proceeds(g, j, e) {
        var r, day, ts := ReadingOf(j, e), DayOf(e.now), TurnsOf(j, e);
        hide Sends, Added, TurnsOf, Kept, Recalled, Again, Rolled, SentIn, Count;
        SendsAreItems(g, r, day, j, ts);
        SendsAreRows(g, r, day, j, ts, t);
        ScanAdds(g, r, day, j, ts);
        CountAppend(j.rows, Added(g, r, day, j, ts), HourTo(t));
        SentAppend(AllSends(g, front), Sends(g, r, day, j, ts), t, false);
        SentAppend(AllSends(g, front), Sends(g, r, day, j, ts), t, true);
        if ReEmitted(g, es) == {} {
          StartsApart(j, e, Rolled(g, front));
          RowlessIsAgain(g, r, day, j, ts, ts, Rolled(g, front), ReEmitted(g, front), t);
        }
      } else {
        assert AllSends(g, es) == AllSends(g, front);
      }
    }
  }

  /** Exactly when any sliding hour of the queue keeps the hourly cap: the names emitted again
      without a row must fit beside the rows. */
  lemma {:induction false} QueueHourIff(g: Config, es: seq<Cycle>, t: int)
    requires AllTimed(es) && g.maxPerHour != 0
    ensures |AllSends(g, es)| == |Run(g, es).queued|
    ensures SentIn(AllSends(g, es), t, false) <= AtLeast0(g.maxPerHour)
       <==> Count(Run(g, es).rows, HourTo(t)) + SentIn(AllSends(g, es), t, true) <= AtLeast0(g.maxPerHour)
    ensures ReEmitted(g, es) == {} ==> SentIn(AllSends(g, es), t, false) <= AtLeast0(g.maxPerHour)
  {
    hide Run, ReEmitted, AllSends;
    RunSends(g, es, t);
    CapsHoldOverRuns(g, es);
  }

  // ------------------------------------------------------ a run that does

  const ONE_A_DAY := Config(0.0, false, 0.0, 1, 1, 0, 1, true)

  function Solo(ticker: nat, rollsAt: Option<nat>): Cycle {
    Cycle(0, 0, true, 0, false, [Candidate(ticker, 1.0, None, None)], [0], rollsAt)
  }

  lemma {:induction false} SoloScan(j: Journal, ticker: nat, rollsAt: Option<nat>)
    requires !EmittedOn(j.rows, ticker, 0) && Count(j.rows, OnDay(0)) == 0
    ensures var s := ScanOnce(ONE_A_DAY, j, Solo(ticker, rollsAt));
      && WellTimed(Solo(ticker, rollsAt))
      && (rollsAt == Some(0) ==>
            && s.journal == Remember(j, 0, ticker)
            && s.rolled == Some(Candidate(ticker, 1.0, None, None)) && s.emitted == [])
      && (rollsAt == None ==>
            && s.journal == (var n := Note(j, Row(0, ticker, EMIT, 0)); n.(queued := n.queued + {Item(ticker, 0)}))
            && s.rolled == None && s.emitted == [Candidate(ticker, 1.0, None, None)])
  {
    var e := Solo(ticker, rollsAt);
    var c := e.universe[0];
    assert e.universe[..0] == [];
    assert Survivors(j.rows, 0, e.universe) == [] + [c] == [c];
    assert ByScore([c]) == [c] by {
      assert [c][..0] == [];
    }
    var ts := TurnsOf(j, e);
    assert ts == [Turn(c, 0, rollsAt == Some(0))];
    assert ts[..0] == [];
    var r := ReadingOf(j, e);
    assert Decide(ONE_A_DAY, r, c, 0) == EMIT;
    assert Scan(ONE_A_DAY, r, 0, j, ts) == Take(ONE_A_DAY, r, 0, Scan(ONE_A_DAY, r, 0, j, ts[..0]), ts[0]);
    assert [] + [c] == [c];
  }

  lemma {:induction false} NextCycle(g: Config, es: seq<Cycle>, e: Cycle)
    requires AllTimed(es) && WellTimed(e)
    ensures AllTimed(es + [e])
    ensures var s := ScanOnce(g, Run(g, es), e);
      && Run(g, es + [e]) == s.journal
      && Rolled(g, es + [e]) == Rolled(g, es) + (if s.rolled.Some? then {ItemOf(e, s.rolled.value)} else {})
      && ReEmitted(g, es + [e]) == ReEmitted(g, es) + Again(s.emitted, DayOf(e.now), Rolled(g, es))
  {
    hide ScanOnce;
    assert (es + [e])[..|es|] == es;
  }

  /** A process that remembers name 1 and has nothing else. */
  const HAUNTED := Remember(Journal([], {}, {}), 0, 1)

  function TwoScans(): seq<Cycle> { [] + [Solo(1, Some(0))] + [Solo(1, None)] }

  lemma {:induction false} NoCycles(g: Config)
    ensures AllTimed([]) && Run(g, []) == Journal([], {}, {}) && Rolled(g, []) == {} && ReEmitted(g, []) == {}
  {
  }

  lemma {:induction false} FirstScan()
    ensures var es := [] + [Solo(1, Some(0))];
      AllTimed(es) && Run(ONE_A_DAY, es) == HAUNTED && Rolled(ONE_A_DAY, es) == {Item(1, 0)} && ReEmitted(ONE_A_DAY, es) == {}
  {
    SoloScan(Journal([], {}, {}), 1, Some(0));
    NoCycles(ONE_A_DAY);
    hide ScanOnce, Run, Rolled, ReEmitted, AllTimed, Remember;
    NextCycle(ONE_A_DAY, [], Solo(1, Some(0)));
    hide Solo;
    assert Again([], 0, {}) == {};
  }

  lemma {:induction false} SecondScan()
    ensures var es := TwoScans();
      && AllTimed(es) && Run(ONE_A_DAY, es) == HAUNTED.(queued := {Item(1, 0)})
      && Rolled(ONE_A_DAY, es) == {Item(1, 0)} && ReEmitted(ONE_A_DAY, es) == {Item(1, 0)}
  {
    FirstScan();
    SoloScan(HAUNTED, 1, None);
    hide ScanOnce, Run, Rolled, ReEmitted, AllTimed;
    NextCycle(ONE_A_DAY, [] + [Solo(1, Some(0))], Solo(1, None));
    OneAgain(1, {Item(1, 0)});
  }

  lemma {:induction false} ThirdScan()
    ensures var es := TwoScans() + [Solo(2, None)];
      && AllTimed(es) && ReEmitted(ONE_A_DAY, es) == {Item(1, 0)}
      && Run(ONE_A_DAY, es).queued == {Item(1, 0)} + {Item(2, 0)}
  {
    var j := HAUNTED.(queued := {Item(1, 0)});
    SecondScan();
    SoloScan(j, 2, None);
    hide ScanOnce, Run, Rolled, ReEmitted, AllTimed, TwoScans;
    NextCycle(ONE_A_DAY, TwoScans(), Solo(2, None));
    hide Solo, Again, Remember;
    OneAgain(2, {Item(1, 0)});
    NoteQueues(j, Row(0, 2, EMIT, 0));
    hide Note;
    assert {Item(1, 0)} + {} == {Item(1, 0)};
  }

  /** One a day: the first name rolls back and is emitted again without a row, then a second
      name is emitted, and two items are on the day's queue. */
  lemma {:induction false} RolledBackEmitBreaksCap()
    ensures var es := TwoScans() + [Solo(2, None)];
      && AllTimed(es) && ReEmitted(ONE_A_DAY, es) == {Item(1, 0)}
      && |QueuedOn(Run(ONE_A_DAY, es).queued, 0)| == 2 > ONE_A_DAY.maxPerDay
  {
    ThirdScan();
    hide Run, ReEmitted, AllTimed, TwoScans, Solo;
    assert QueuedOn({Item(1, 0)} + {Item(2, 0)}, 0) == {Item(1, 0), Item(2, 0)};
  }

  lemma {:induction false} NoteQueues(j: Journal, row: Row)
    ensures Note(j, row).queued == j.queued
  {
  }

  lemma {:induction false} OneAgain(ticker: nat, rolled: set<Item>)
    ensures Again([Candidate(ticker, 1.0, None, None)], 0, rolled)
         == if Item(ticker, 0) in rolled then {Item(ticker, 0)} else {}
  {
    var emitted := [Candidate(ticker, 1.0, None, None)];
    assert emitted[0].ticker == ticker;
  }

  // ------------------------------------------------- everything is journaled

  predicate KeyRow(rows: seq<Row>, k: Seen) {
    exists i :: 0 <= i < |rows| && Seen(rows[i].day, rows[i].ticker, rows[i].verdict) == k
  }

  /** What the process remembers journaling is in the journal, or was rolled back. */
  ghost predicate Backed(j: Journal, rolled: set<Item>) {
    forall k :: k in j.seen ==> KeyRow(j.rows, k) || (k.verdict == EMIT && Item(k.ticker, k.day) in rolled)
  }

  /** The name has a row of that day, whatever it says. */
  predicate OnTape(rows: seq<Row>, day: int, ticker: nat) {
    exists i :: 0 <= i < |rows| && rows[i].day == day && rows[i].ticker == ticker
  }

  lemma {:induction false} NoteIsBacked(j: Journal, row: Row, rolled: set<Item>)
    requires Backed(j, rolled)
    ensures var u := Note(j, row);
      && Backed(u, rolled) && j.rows <= u.rows
      && (OnTape(u.rows, row.day, row.ticker) || Item(row.ticker, row.day) in rolled)
  {
    var u := Note(j, row);
    var key := Seen(row.day, row.ticker, row.verdict);
    if key in j.seen {
      if KeyRow(j.rows, key) {
        var i :| 0 <= i < |j.rows| && Seen(j.rows[i].day, j.rows[i].ticker, j.rows[i].verdict) == key;
        assert u.rows[i].day == row.day && u.rows[i].ticker == row.ticker;
      }
    } else {
      assert u.rows[|j.rows|] == row;
      forall k | k in j.seen && KeyRow(j.rows, k) ensures KeyRow(u.rows, k) {
        var i :| 0 <= i < |j.rows| && Seen(j.rows[i].day, j.rows[i].ticker, j.rows[i].verdict) == k;
        assert u.rows[i] == j.rows[i];
      }
    }
  }

  lemma {:induction false} QueueIsBacked(j: Journal, item: Item, rolled: set<Item>)
    requires Backed(j, rolled)
    ensures Backed(j.(queued := j.queued + {item}), rolled)
    ensures Backed(Remember(j, item.day, item.ticker), rolled + {item})
  {
    hide KeyRow;
  }

  lemma {:induction false} ScanJournalsAll(g: Config, r: Reading, day: int, j: Journal, ts: seq<Turn>, rolled: set<Item>)
    requires Backed(j, rolled)
    ensures var u := Scan(g, r, day, j, ts);
      && Backed(u.journal, RolledNow(u, day, rolled))
      && (u.rolled.None? ==> forall k :: 0 <= k < |ts| ==>
            OnTape(u.journal.rows, day, ts[k].c.ticker) || Item(ts[k].c.ticker, day) in rolled)
    decreases |ts|
  {
    hide Decide, Note, Backed;
    if ts == [] {
      assert RolledNow(Sweep(j, [], None), day, rolled) == rolled;
    } else {
      var front, t := ts[..|ts| - 1], ts[|ts| - 1];
      ScanJournalsAll(g, r, day, j, front, rolled);
      var s, u := Scan(g, r, day, j, front), Scan(g, r, day, j, ts);
      if s.rolled.None? {
        assert RolledNow(s, day, rolled) == rolled;
        var row := Row(day, t.c.ticker, Decide(g, r, t.c, |s.emitted|), t.at);
        NoteIsBacked(s.journal, row, rolled);
        QueueIsBacked(s.journal, Item(t.c.ticker, day), rolled);
        QueueIsBacked(Note(s.journal, row), Item(t.c.ticker, day), rolled);
        if u.rolled.None? {
          assert RolledNow(u, day, rolled) == rolled;
          StaysOnTape(s.journal.rows, u.journal.rows, day);
        }
      }
    }
  }

  lemma {:induction false} StaysOnTape(rows: seq<Row>, more: seq<Row>, day: int)
    requires rows <= more
    ensures forall ticker: nat :: OnTape(rows, day, ticker) ==> OnTape(more, day, ticker)
  {
    forall ticker: nat | OnTape(rows, day, ticker) ensures OnTape(more, day, ticker) {
      var i :| 0 <= i < |rows| && rows[i].day == day && rows[i].ticker == ticker;
      assert more[i] == rows[i];
    }
  }

  lemma {:induction false} RunIsBacked(g: Config, es: seq<Cycle>)
    requires AllTimed(es)
    ensures Backed(Run(g, es), Rolled(g, es))
    decreases |es|
  {
    if es != [] {
      hide Backed;
      var front, e := es[..|es| - 1], es[|es| - 1];
      var j := Run(g, front);
      RunIsBacked(g, front);
      if Proceeds(g, j, e) {
        ScanJournalsAll(g, ReadingOf(j, e), DayOf(e.now), j, TurnsOf(j, e), Rolled(g, front));
      } else {
        assert Rolled(g, es) == Rolled(g, front);
      }
    }
  }

  /** Everything a scan measures to its end is journaled, emitted or not, even after the day's
      cap is spent, save names whose emission of that day rolled back before. */
  lemma {:induction false} EverySurvivorJournaled(g: Config, es: seq<Cycle>, e: Cycle, c: Candidate)
    requires WellTimed(e) && AllTimed(es)
    requires Proceeds(g, Run(g, es), e) && c in e.universe && ScanOnce(g, Run(g, es), e).rolled.None?
    ensures OnTape(ScanOnce(g, Run(g, es), e).journal.rows, DayOf(e.now), c.ticker) || ItemOf(e, c) in Rolled(g, es)
  {
    var j, day := Run(g, es), DayOf(e.now);
    var ts := TurnsOf(j, e);
    RunIsBacked(g, es);
    hide Rolled, Run, Backed;
    ScanJournalsAll(g, ReadingOf(j, e), day, j, ts, Rolled(g, es));
    var u := ScanOnce(g, j, e).journal;
    if EmittedOn(j.rows, c.ticker, day) {
      ScanAdds(g, ReadingOf(j, e), day, j, ts);
      StaysOnTape(j.rows, u.rows, day);
    } else {
      var raw := Survivors(j.rows, day, e.universe);
      SurvivorsKeep(j.rows, day, e.universe, c);
      ByScoreRanks(raw);
      assert c in multiset(ByScore(raw));
      var k :| 0 <= k < |ByScore(raw)| && ByScore(raw)[k] == c;
      assert ts[k].c == c;
    }
  }

  lemma {:induction false} SurvivorsKeep(rows: seq<Row>, day: int, universe: seq<Candidate>, c: Candidate)
    requires c in universe && !EmittedOn(rows, c.ticker, day)
    ensures c in Survivors(rows, day, universe)
    decreases |universe|
  {
    if c in universe[..|universe| - 1] {
      SurvivorsKeep(rows, day, universe[..|universe| - 1], c);
    } else {
      assert universe[|universe| - 1] == c;
    }
  }
}
