/** What every run of sheets and late passes keeps, however the runs are cut and
    whatever is redelivered. */
module OvernightRuns {
  import opened Forwarding
  import opened Numbers
  import opened Options
  import opened Overnight
  import opened Pacing

  /** The message a row's transaction asks for. */
  function Wants(r: Row): Option<Dedup> {
    if r.key.None? then None
    else match r.action
      case Guard => Some(GuardItem(r.key.value))
      case Thesis => Some(ThesisItem(r.key.value))
      case OpenCandidate => Some(Handoff(r.key.value))
      case LateCandidate => Some(Handoff(r.key.value))
      case Ignore => None
      case Sheet => None
  }

  /** No two messages share a dedup key. */
  ghost predicate AtMostOnce(sent: seq<Mail>) {
    forall i, j :: 0 <= i < j < |sent| ==> sent[i].dedup != sent[j].dedup
  }

  predicate Asked(rows: seq<Row>, dedup: Dedup) {
    exists i :: 0 <= i < |rows| && Wants(rows[i]) == Some(dedup)
  }

  /** A message exists exactly for the rows that asked for one. */
  ghost predicate Atomic(s: State) {
    forall d: Dedup :: Taken(s.sent, d) <==> Asked(s.rows, d)
  }

  predicate SheetBefore(rows: seq<Row>, i: int, date: int) {
    exists j :: 0 <= j < i && j < |rows| && rows[j].action == Sheet && rows[j].date == date
  }

  ghost predicate LateFollowsSheet(rows: seq<Row>) {
    forall i :: 0 <= i < |rows| && rows[i].action == LateCandidate ==> SheetBefore(rows, i, rows[i].date)
  }

  ghost predicate OneSheetADay(rows: seq<Row>) {
    forall date :: Count(rows, date, Sheet) <= 1
  }

  ghost predicate WithinDaily(rows: seq<Row>, l: Limits) {
    forall date :: Count(rows, date, LateCandidate) <= l.dailyMax
  }

  ghost predicate Sound(s: State, l: Limits) {
    && AtMostOnce(s.sent) && Atomic(s)
    && LateFollowsSheet(s.rows) && OneSheetADay(s.rows) && WithinDaily(s.rows, l)
  }

  /** A transaction writes the message its row asks for, or none when it asks for none. */
  predicate Paired(tx: Tx) {
    Wants(tx.row) == if tx.mail.Some? then Some(tx.mail.value.dedup) else None
  }

  lemma {:induction false} CommitKeepsMail(s: State, tx: Tx)
    requires Paired(tx) && AtMostOnce(s.sent) && Atomic(s)
    ensures var t := Commit(s, tx); AtMostOnce(t.sent) && Atomic(t) && s.sent <= t.sent && s.rows <= t.rows
  {
    var t := Commit(s, tx);
    forall d: Dedup ensures Taken(t.sent, d) <==> Asked(t.rows, d) {
      assert Taken(t.sent, d) <==> Taken(s.sent, d) || (tx.mail.Some? && tx.mail.value.dedup == d) by {
        if Taken(s.sent, d) {
          var i :| 0 <= i < |s.sent| && s.sent[i].dedup == d;
          assert t.sent[i].dedup == d;
        }
        if tx.mail.Some? && !Taken(s.sent, tx.mail.value.dedup) {
          assert t.sent[|s.sent|].dedup == tx.mail.value.dedup;
        }
      }
      assert Asked(t.rows, d) <==> Asked(s.rows, d) || Wants(tx.row) == Some(d) by {
        assert t.rows[|s.rows|] == tx.row;
        if Asked(s.rows, d) {
          var i :| 0 <= i < |s.rows| && Wants(s.rows[i]) == Some(d);
          assert t.rows[i] == s.rows[i];
        }
      }
    }
  }

  lemma {:induction false} CommitsKeepMail(s: State, txs: seq<Tx>)
    requires forall i :: 0 <= i < |txs| ==> Paired(txs[i])
    requires AtMostOnce(s.sent) && Atomic(s)
    ensures var t := CommitAll(s, txs); AtMostOnce(t.sent) && Atomic(t) && s.sent <= t.sent && s.rows <= t.rows
    decreases |txs|
  {
    hide Paired, AtMostOnce, Atomic, Commit;
    if txs != [] {
      CommitsKeepMail(s, txs[..|txs| - 1]);
      CommitKeepsMail(CommitAll(s, txs[..|txs| - 1]), txs[|txs| - 1]);
    }
  }

  // ------------------------------------------------------------- counting

  function RowsOf(txs: seq<Tx>): seq<Row> {
    seq(|txs|, i requires 0 <= i < |txs| => txs[i].row)
  }

  lemma {:induction false} CommitAllRows(s: State, txs: seq<Tx>)
    ensures CommitAll(s, txs).rows == s.rows + RowsOf(txs)
    decreases |txs|
  {
    if txs != [] {
      CommitAllRows(s, txs[..|txs| - 1]);
      assert RowsOf(txs) == RowsOf(txs[..|txs| - 1]) + [txs[|txs| - 1].row];
    }
  }

  lemma {:induction false} CountAppend(a: seq<Row>, b: seq<Row>, date: int, action: Action)
    ensures Count(a + b, date, action) == Count(a, date, action) + Count(b, date, action)
    decreases |b|
  {
    if b == [] {
      assert a + b == a;
    } else {
      assert (a + b)[..|a + b| - 1] == a + b[..|b| - 1];
      CountAppend(a, b[..|b| - 1], date, action);
    }
  }

  lemma {:induction false} CountBounds(rows: seq<Row>, date: int, action: Action)
    ensures Count(rows, date, action) <= |rows|
    ensures Count(rows, date, action) > 0
        <==> exists i :: 0 <= i < |rows| && rows[i].date == date && rows[i].action == action
    decreases |rows|
  {
    if rows != [] {
      var front := rows[..|rows| - 1];
      CountBounds(front, date, action);
      if Count(front, date, action) > 0 {
        var i :| 0 <= i < |front| && front[i].date == date && front[i].action == action;
        assert rows[i].date == date && rows[i].action == action;
      }
    }
  }

  // --------------------------------------------- what each run may journal

  ghost predicate RoutesOnly(txs: seq<Tx>) {
    forall i :: 0 <= i < |txs| ==> Paired(txs[i]) && (txs[i].row.action == Guard || txs[i].row.action == Thesis)
  }

  lemma {:induction false} RoutingRows(claimed: seq<Msg>, held: set<nat>, date: int)
    ensures RoutesOnly(RouteAll(claimed, held, date).txs)
    decreases |claimed|
  {
    if claimed != [] {
      RoutingRows(claimed[..|claimed| - 1], held, date);
    }
  }

  /** Rows a late pass may add: none unless the sheet exists, never a SHEET row, and
      LATE_CANDIDATE rows of today only, as many as the plan allows. */
  ghost predicate LateShape(s: State, l: Limits, date: int, rows: seq<Row>) {
    && (forall i :: 0 <= i < |rows| ==> rows[i].action != Sheet)
    && (forall i :: 0 <= i < |rows| && rows[i].action == LateCandidate ==> rows[i].date == date)
    && (rows != [] ==> SheetDone(s, date))
    && Count(rows, date, LateCandidate) <= l.passMax
    && (Count(rows, date, LateCandidate) > 0 ==>
        Count(s.rows, date, LateCandidate) + Count(rows, date, LateCandidate) <= l.dailyMax)
  }

  lemma {:induction false} LatePassRows(s: State, l: Limits, now: int, open: int, claimed: seq<Msg>, held: set<nat>,
                                        n: nat)
    requires n <= |LatePass(s, l, now, open, claimed, held)|
    ensures var txs := LatePass(s, l, now, open, claimed, held)[..n];
      && (forall i :: 0 <= i < |txs| ==> Paired(txs[i]))
      && LateShape(s, l, SessionDay(now), RowsOf(txs))
  {
    hide PlanForwarding, PassesRemaining, RouteAll;
    var date := SessionDay(now);
    var all := LatePass(s, l, now, open, claimed, held);
    if all != [] {
      hide LateShape;
      var routed := RouteAll(claimed, held, date);
      RoutingRows(claimed, held, date);
      var plan := LatePlan(s, l, now, open, routed.pool);
      PlanSplitsAtAllowance(routed.pool, Count(s.rows, date, LateCandidate), l.dailyMax, l.passMax,
                            PassesRemaining(now, open));
      var m := Least(n, |routed.txs|);
      var taken := plan.forward[..n - m];
      assert all[..n] == routed.txs[..m] + LateTxs(taken, date);
      JoinShape(s, l, date, routed.txs[..m], taken);
    }
  }

  lemma {:induction false} JoinShape(s: State, l: Limits, date: int, routed: seq<Tx>, taken: seq<Candidate>)
    requires RoutesOnly(routed) && SheetDone(s, date)
    requires |taken| <= l.passMax
    requires |taken| > 0 ==> Count(s.rows, date, LateCandidate) + |taken| <= l.dailyMax
    ensures var txs := routed + LateTxs(taken, date);
      (forall i :: 0 <= i < |txs| ==> Paired(txs[i])) && LateShape(s, l, date, RowsOf(txs))
  {
    var late := LateTxs(taken, date);
    var a, b := RowsOf(routed), RowsOf(late);
    assert RowsOf(routed + late) == a + b;
    assert forall i :: 0 <= i < |late| ==> late[i] == LateTx(date, taken[i]);
    CountAppend(a, b, date, LateCandidate);
    CountBounds(a, date, LateCandidate);
    CountBounds(b, date, LateCandidate);
  }

  ghost predicate SheetShape(s: State, date: int, rows: seq<Row>) {
    && (forall i :: 0 <= i < |rows| ==> rows[i].action != LateCandidate)
    && (rows != [] ==> !SheetDone(s, date))
    && (forall i :: 0 <= i < |rows| - 1 ==> rows[i].action != Sheet)
    && (rows != [] && rows[|rows| - 1].action == Sheet ==> rows[|rows| - 1].date == date)
  }

  lemma {:induction false} SheetRunRows(s: State, now: int, claimed: seq<Msg>, held: set<nat>, order: seq<Candidate>,
                                        lanes: map<nat, Verdict>, n: nat)
    requires n <= |SheetRun(s, now, claimed, held, order, lanes)|
    ensures var txs := SheetRun(s, now, claimed, held, order, lanes)[..n];
      && (forall i :: 0 <= i < |txs| ==> Paired(txs[i]))
      && SheetShape(s, SessionDay(now), RowsOf(txs))
  {
    var date := SessionDay(now);
    if !SheetDone(s, date) {
      var all := SheetRun(s, now, claimed, held, order, lanes);
      forall i | 0 <= i < |all|
        ensures Paired(all[i]) && all[i].row.action != LateCandidate
        ensures i < |all| - 1 ==> all[i].row.action != Sheet
        ensures i == |all| - 1 ==> all[i].row.date == date
      {
        SheetTx(s, now, claimed, held, order, lanes, i);
      }
      hide SheetRun, Paired;
    }
  }

  lemma {:induction false} SheetTx(s: State, now: int, claimed: seq<Msg>, held: set<nat>, order: seq<Candidate>,
                                   lanes: map<nat, Verdict>, i: nat)
    requires i < |SheetRun(s, now, claimed, held, order, lanes)|
    ensures var all := SheetRun(s, now, claimed, held, order, lanes);
      && Paired(all[i]) && all[i].row.action != LateCandidate
      && (if i == |all| - 1 then all[i].row.date == SessionDay(now) else all[i].row.action != Sheet)
  {
    var date := SessionDay(now);
    var routed := RouteAll(claimed, held, date).txs;
    RoutingRows(claimed, held, date);
    hide RouteAll;
    var all := SheetRun(s, now, claimed, held, order, lanes);
    if i < |routed| {
      assert all[i] == routed[i];
    } else if i < |all| - 1 {
      assert all[i] == DispositionTx(date, order[i - |routed|], lanes);
    }
  }

  // ----------------------------------------------------------------- steps

  lemma {:induction false} LateRowsKeep(s: State, l: Limits, date: int, rows: seq<Row>)
    requires LateFollowsSheet(s.rows) && OneSheetADay(s.rows) && WithinDaily(s.rows, l)
    requires LateShape(s, l, date, rows)
    ensures LateFollowsSheet(s.rows + rows) && OneSheetADay(s.rows + rows) && WithinDaily(s.rows + rows, l)
  {
    var all := s.rows + rows;
    forall d: int
      ensures Count(all, d, Sheet) <= 1
      ensures Count(all, d, LateCandidate) <= l.dailyMax
    {
      CountAppend(s.rows, rows, d, Sheet);
      CountBounds(rows, d, Sheet);
      CountAppend(s.rows, rows, d, LateCandidate);
      CountBounds(rows, d, LateCandidate);
    }
    forall i | 0 <= i < |all| && all[i].action == LateCandidate ensures SheetBefore(all, i, all[i].date) {
      if i < |s.rows| {
        assert SheetBefore(s.rows, i, s.rows[i].date);
        var j :| 0 <= j < i && s.rows[j].action == Sheet && s.rows[j].date == s.rows[i].date;
        assert all[j] == s.rows[j];
      } else {
        assert all[i] == rows[i - |s.rows|];
        CountBounds(s.rows, date, Sheet);
        var j :| 0 <= j < |s.rows| && s.rows[j].date == date && s.rows[j].action == Sheet;
        assert all[j] == s.rows[j];
      }
    }
  }

  lemma {:induction false} SheetRowsKeep(s: State, l: Limits, date: int, rows: seq<Row>)
    requires LateFollowsSheet(s.rows) && OneSheetADay(s.rows) && WithinDaily(s.rows, l)
    requires SheetShape(s, date, rows)
    ensures LateFollowsSheet(s.rows + rows) && OneSheetADay(s.rows + rows) && WithinDaily(s.rows + rows, l)
  {
    var all := s.rows + rows;
    forall d: int
      ensures Count(all, d, Sheet) <= 1
      ensures Count(all, d, LateCandidate) <= l.dailyMax
    {
      CountAppend(s.rows, rows, d, Sheet);
      CountAppend(s.rows, rows, d, LateCandidate);
      CountBounds(rows, d, LateCandidate);
      if rows != [] {
        CountBounds(rows[..|rows| - 1], d, Sheet);
      }
    }
    forall i | 0 <= i < |all| && all[i].action == LateCandidate ensures SheetBefore(all, i, all[i].date) {
      assert SheetBefore(s.rows, i, s.rows[i].date);
      var j :| 0 <= j < i && s.rows[j].action == Sheet && s.rows[j].date == s.rows[i].date;
      assert all[j] == s.rows[j];
    }
  }

  /** The day a run works on. */
  function DayOf(e: Event): int { SessionDay(e.now) }

  /** One run, cut anywhere, keeps every invariant, never withdraws or rewrites what was
      journaled or sent, and adds at most the pass cap of late candidates. */
  lemma {:induction false} FiringKeepsSound(s: State, l: Limits, e: Event)
    requires Sound(s, l)
    ensures var t := Fire(s, l, e);
      && Sound(t, l) && s.rows <= t.rows && s.sent <= t.sent
      && (forall date :: Count(s.rows, date, LateCandidate) <= Count(t.rows, date, LateCandidate)
                         <= Count(s.rows, date, LateCandidate) + l.passMax)
  {
    hide Transactions, CommitAll;
    var txs := Transactions(s, l, e)[..Least(e.commits, |Transactions(s, l, e)|)];
    var rows := RowsOf(txs);
    FiringShape(s, l, e, txs);
    CommitsKeepMail(s, txs);
    CommitAllRows(s, txs);
    if e.LateFiring? {
      LateRowsKeep(s, l, DayOf(e), rows);
    } else {
      SheetRowsKeep(s, l, DayOf(e), rows);
    }
    forall date: int
      ensures Count(s.rows, date, LateCandidate) <= Count(s.rows + rows, date, LateCandidate)
              <= Count(s.rows, date, LateCandidate) + l.passMax
    {
      CountAppend(s.rows, rows, date, LateCandidate);
      CountBounds(rows, date, LateCandidate);
    }
  }

  lemma {:induction false} FiringShape(s: State, l: Limits, e: Event, txs: seq<Tx>)
    requires txs == Transactions(s, l, e)[..Least(e.commits, |Transactions(s, l, e)|)]
    ensures forall i :: 0 <= i < |txs| ==> Paired(txs[i])
    ensures if e.LateFiring? then LateShape(s, l, DayOf(e), RowsOf(txs)) else SheetShape(s, DayOf(e), RowsOf(txs))
  {
    match e
    case LateFiring(now, open, claimed, held, commits) =>
      LatePassRows(s, l, now, open, claimed, held, |txs|);
    case SheetFiring(now, claimed, held, order, lanes, commits) =>
      SheetRunRows(s, now, claimed, held, order, lanes, |txs|);
  }

  /** Over any sequence of sheets and late passes, from an empty desk. */
  lemma {:induction false} RunStaysSound(l: Limits, es: seq<Event>)
    ensures Sound(Run(State([], []), l, es), l)
    decreases |es|
  {
    if es == [] {
      var s := State([], []);
      assert forall d: Dedup :: !Taken(s.sent, d) && !Asked(s.rows, d);
    } else {
      RunStaysSound(l, es[..|es| - 1]);
      FiringKeepsSound(Run(State([], []), l, es[..|es| - 1]), l, es[|es| - 1]);
    }
  }

  function Handoffs(sent: seq<Mail>, key: Key): nat {
    if sent == [] then 0
    else Handoffs(sent[..|sent| - 1], key) + if sent[|sent| - 1].dedup == Handoff(key) then 1 else 0
  }

  predicate PutForward(rows: seq<Row>, key: Key) {
    exists i :: 0 <= i < |rows| && rows[i].key == Some(key)
                && (rows[i].action == OpenCandidate || rows[i].action == LateCandidate)
  }

  /** Across the sheet and all late passes the analyst gets exactly one hand-off for an
      item revision that was ever put forward, and none for any other. */
  lemma {:induction false} OneHandoffPerItem(l: Limits, es: seq<Event>, key: Key)
    ensures var s := Run(State([], []), l, es);
      Handoffs(s.sent, key) == if PutForward(s.rows, key) then 1 else 0
  {
    var s := Run(State([], []), l, es);
    RunStaysSound(l, es);
    HandoffsCounts(s.sent, key);
    assert Taken(s.sent, Handoff(key)) <==> Asked(s.rows, Handoff(key));
    if PutForward(s.rows, key) {
      var i :| 0 <= i < |s.rows| && s.rows[i].key == Some(key)
               && (s.rows[i].action == OpenCandidate || s.rows[i].action == LateCandidate);
      assert Wants(s.rows[i]) == Some(Handoff(key));
    }
    if Asked(s.rows, Handoff(key)) {
      var i :| 0 <= i < |s.rows| && Wants(s.rows[i]) == Some(Handoff(key));
      assert PutForward(s.rows, key);
    }
  }

  lemma {:induction false} HandoffsCounts(sent: seq<Mail>, key: Key)
    requires AtMostOnce(sent)
    ensures Handoffs(sent, key) == if Taken(sent, Handoff(key)) then 1 else 0
    decreases |sent|
  {
    if sent != [] {
      var front := sent[..|sent| - 1];
      HandoffsCounts(front, key);
      if Taken(front, Handoff(key)) {
        var i :| 0 <= i < |front| && front[i].dedup == Handoff(key);
        assert sent[i].dedup == Handoff(key);
      }
    }
  }

  /** The budget counts journal rows, so a pass cut between its commit and its ack pays
      twice for the same item when the message comes back, although one message is sent. */
  lemma {:induction false} RedeliverySpendsTwice(s: State, l: Limits, now: int, open: int, m: Msg)
    requires ShouldRun(now, SheetDone(s, SessionDay(now)), open) && Classify(m, {}).Rankable?
    requires l.passMax >= 1 && Count(s.rows, SessionDay(now), LateCandidate) + 2 <= l.dailyMax
    ensures var e := LateFiring(now, open, [m], {}, 1);
      var t := Fire(Fire(s, l, e), l, e);
      && Count(t.rows, SessionDay(now), LateCandidate) == Count(s.rows, SessionDay(now), LateCandidate) + 2
      && |t.sent| <= |s.sent| + 1
  {
    var e := LateFiring(now, open, [m], {}, 1);
    var c := Classify(m, {}).c;
    var date := SessionDay(now);
    OneForward(s, l, now, open, m);
    var s1 := Commit(s, LateTx(date, c));
    assert Count(s1.rows, date, Sheet) == Count(s.rows, date, Sheet);
    assert Taken(s1.sent, Handoff(c.key)) by {
      if !Taken(s.sent, Handoff(c.key)) {
        assert s1.sent[|s.sent|].dedup == Handoff(c.key);
      }
    }
    OneForward(s1, l, now, open, m);
  }

  lemma {:induction false} OneForward(s: State, l: Limits, now: int, open: int, m: Msg)
    requires ShouldRun(now, SheetDone(s, SessionDay(now)), open) && Classify(m, {}).Rankable?
    requires l.passMax >= 1 && Count(s.rows, SessionDay(now), LateCandidate) + 1 <= l.dailyMax
    ensures Fire(s, l, LateFiring(now, open, [m], {}, 1)) == Commit(s, LateTx(SessionDay(now), Classify(m, {}).c))
  {
    var date := SessionDay(now);
    var c := Classify(m, {}).c;
    var routed := RouteAll([m], {}, date);
    assert [m][..0] == [];
    assert RouteAll([m][..0], {}, date) == Routed([], [], [], []);
    assert routed.pool == [] + [c] == [c] && routed.txs == [];
    var plan := LatePlan(s, l, now, open, [c]);
    var already := Count(s.rows, date, LateCandidate);
    PlanSplitsAtAllowance([c], already, l.dailyMax, l.passMax, PassesRemaining(now, open));
    AllowanceBounds(Budget(l.dailyMax, already), l.passMax, PassesRemaining(now, open));
    assert Sorted([c]) == [c] by {
      assert [c][..0] == [];
    }
    hide Commit;
    assert plan.forward == [c];
    var txs := LatePass(s, l, now, open, [m], {});
    assert txs == [LateTx(date, c)];
    assert txs[..1] == txs && txs[..0] == [];
    assert CommitAll(s, txs) == Commit(CommitAll(s, txs[..0]), LateTx(date, c));
  }

  // -------------------------------------------------------- first writer

  /** The priority a row gives to the message it asks for. */
  function PriorityOf(r: Row): int {
    match r.action
    case Guard => 0
    case Thesis => 100
    case LateCandidate => 45
    case OpenCandidate => if r.rank.None? || r.rank.value >= 50 then 90 else 40 + r.rank.value
    case Ignore => 0
    case Sheet => 0
  }

  /** The first row that asked for the message, or the length. */
  function FirstAsk(rows: seq<Row>, dedup: Dedup): (i: nat)
    ensures i <= |rows|
    ensures i < |rows| ==> Wants(rows[i]) == Some(dedup)
    ensures forall k :: 0 <= k < i ==> Wants(rows[k]) != Some(dedup)
  {
    if rows == [] then 0
    else
      var i := FirstAsk(rows[..|rows| - 1], dedup);
      if i < |rows| - 1 then i
      else if Wants(rows[|rows| - 1]) == Some(dedup) then |rows| - 1
      else |rows|
  }

  /** Every message has the priority that the first row asking for it gave. */
  ghost predicate FirstWriterWins(s: State) {
    forall i :: 0 <= i < |s.sent| ==>
      var r := FirstAsk(s.rows, s.sent[i].dedup);
      r < |s.rows| && s.sent[i].priority == PriorityOf(s.rows[r])
  }

  predicate TxPriced(tx: Tx) { tx.mail.Some? ==> tx.mail.value.priority == PriorityOf(tx.row) }

  lemma {:induction false} FirstAskExtends(rows: seq<Row>, row: Row, d: Dedup)
    ensures FirstAsk(rows, d) < |rows| ==> FirstAsk(rows + [row], d) == FirstAsk(rows, d)
    ensures FirstAsk(rows, d) == |rows| && Wants(row) == Some(d) ==> FirstAsk(rows + [row], d) == |rows|
  {
    assert (rows + [row])[..|rows|] == rows;
  }

  lemma {:induction false} CommitKeepsFirst(s: State, tx: Tx)
    requires Paired(tx) && TxPriced(tx) && Atomic(s) && FirstWriterWins(s)
    ensures FirstWriterWins(Commit(s, tx))
  {
    hide FirstAsk, PriorityOf, Wants;
    var t := Commit(s, tx);
    forall i | 0 <= i < |t.sent|
      ensures var r := FirstAsk(t.rows, t.sent[i].dedup); r < |t.rows| && t.sent[i].priority == PriorityOf(t.rows[r])
    {
      var d := t.sent[i].dedup;
      FirstAskExtends(s.rows, tx.row, d);
      if i < |s.sent| {
        assert t.sent[i] == s.sent[i];
        var r := FirstAsk(s.rows, d);
        assert t.rows[r] == s.rows[r];
      } else {
        assert !Asked(s.rows, d);
        assert FirstAsk(s.rows, d) == |s.rows|;
        assert t.rows[|s.rows|] == tx.row;
      }
    }
  }

  lemma {:induction false} CommitsKeepFirst(s: State, txs: seq<Tx>)
    requires forall i :: 0 <= i < |txs| ==> Paired(txs[i]) && TxPriced(txs[i])
    requires AtMostOnce(s.sent) && Atomic(s) && FirstWriterWins(s)
    ensures FirstWriterWins(CommitAll(s, txs))
    decreases |txs|
  {
    hide Paired, TxPriced, AtMostOnce, Atomic, FirstWriterWins, Commit;
    if txs != [] {
      var front := txs[..|txs| - 1];
      CommitsKeepFirst(s, front);
      CommitsKeepMail(s, front);
      CommitKeepsFirst(CommitAll(s, front), txs[|txs| - 1]);
    }
  }

  lemma {:induction false} RoutingPriced(claimed: seq<Msg>, held: set<nat>, date: int)
    ensures forall i :: 0 <= i < |RouteAll(claimed, held, date).txs| ==> TxPriced(RouteAll(claimed, held, date).txs[i])
    decreases |claimed|
  {
    if claimed != [] {
      RoutingPriced(claimed[..|claimed| - 1], held, date);
    }
  }

  lemma {:induction false} FiringPriced(s: State, l: Limits, e: Event)
    ensures forall i :: 0 <= i < |Transactions(s, l, e)| ==> TxPriced(Transactions(s, l, e)[i])
  {
    hide PlanForwarding, PassesRemaining, Count;
    RoutingPriced(e.claimed, e.held, DayOf(e));
  }

  /** Whoever hands an item to the analyst first sets its place in the queue; a later
      sheet or pass can neither add a second message nor move the first. */
  lemma {:induction false} RunKeepsFirstWriter(l: Limits, es: seq<Event>)
    ensures FirstWriterWins(Run(State([], []), l, es))
    decreases |es|
  {
    hide FirstAsk;
    if es != [] {
      var s, e := Run(State([], []), l, es[..|es| - 1]), es[|es| - 1];
      hide FirstWriterWins, Sound, Transactions, TxPriced, Paired, CommitAll, LateShape, SheetShape;
      RunKeepsFirstWriter(l, es[..|es| - 1]);
      RunStaysSound(l, es[..|es| - 1]);
      SoundMail(s, l);
      FiringPriced(s, l, e);
      var txs := Transactions(s, l, e)[..Least(e.commits, |Transactions(s, l, e)|)];
      FiringShape(s, l, e, txs);
      CommitsKeepFirst(s, txs);
    }
  }

  lemma {:induction false} SoundMail(s: State, l: Limits)
    requires Sound(s, l)
    ensures AtMostOnce(s.sent) && Atomic(s)
  {
  }

  // -------------------------------------------------------- completeness

  lemma {:induction false} CommittedIsTaken(s: State, txs: seq<Tx>, k: nat)
    requires k < |txs| && txs[k].mail.Some?
    ensures Taken(CommitAll(s, txs).sent, txs[k].mail.value.dedup)
    decreases |txs|
  {
    hide Wants;
    var front, d := txs[..|txs| - 1], txs[k].mail.value.dedup;
    var u := CommitAll(s, front);
    if k < |front| {
      CommittedIsTaken(s, front, k);
    } else if !Taken(u.sent, d) {
      assert (u.sent + [txs[k].mail.value])[|u.sent|].dedup == d;
    }
    if Taken(u.sent, d) {
      var i :| 0 <= i < |u.sent| && u.sent[i].dedup == d;
      assert CommitAll(s, txs).sent[i] == u.sent[i];
    }
  }

  /** The message that routing owes a claimed item; candidates are owed none yet. */
  function Owed(m: Msg, held: set<nat>): Option<Dedup> {
    match Classify(m, held)
    case Malformed => None
    case Held => Some(GuardItem(KeyOf(m.item.value, m.revision)))
    case NoTicker => Some(ThesisItem(KeyOf(m.item.value, m.revision)))
    case Rankable(_) => None
  }

  lemma {:induction false} RoutedTx(claimed: seq<Msg>, held: set<nat>, date: int, i: nat) returns (k: nat)
    requires i < |claimed| && Owed(claimed[i], held).Some?
    ensures var txs := RouteAll(claimed, held, date).txs;
      k < |txs| && txs[k].mail.Some? && txs[k].mail.value.dedup == Owed(claimed[i], held).value
    decreases |claimed|
  {
    hide KeyOf;
    var front := claimed[..|claimed| - 1];
    if i < |front| {
      k := RoutedTx(front, held, date, i);
      assert RouteAll(front, held, date).txs <= RouteAll(claimed, held, date).txs;
    } else {
      k := |RouteAll(front, held, date).txs|;
    }
  }

  /** A late pass that is not cut delivers everything: guard and thesis items reach their
      queues, each planned candidate its hand-off, and the day's late rows grow by exactly
      the plan. */
  lemma {:induction false} FinishedPassDelivers(s: State, l: Limits, now: int, open: int, claimed: seq<Msg>,
                                                held: set<nat>, i: nat, k: nat)
    requires ShouldRun(now, SheetDone(s, SessionDay(now)), open)
    ensures var pool := RouteAll(claimed, held, SessionDay(now)).pool;
      var forward := LatePlan(s, l, now, open, pool).forward;
      var t := CommitAll(s, LatePass(s, l, now, open, claimed, held));
      && (i < |claimed| && Owed(claimed[i], held).Some? ==> Taken(t.sent, Owed(claimed[i], held).value))
      && (k < |forward| ==> Taken(t.sent, Handoff(forward[k].key)))
      && Count(t.rows, SessionDay(now), LateCandidate) == Count(s.rows, SessionDay(now), LateCandidate) + |forward|
  {
    hide LatePlan, RouteAll, Taken, Owed, ShouldRun, SheetDone;
    var date := SessionDay(now);
    var routed := RouteAll(claimed, held, date);
    var forward := LatePlan(s, l, now, open, routed.pool).forward;
    var late := LateTxs(forward, date);
    var txs := LatePass(s, l, now, open, claimed, held);
    assert txs == routed.txs + late;
    if i < |claimed| && Owed(claimed[i], held).Some? {
      var n := RoutedTx(claimed, held, date, i);
      CommittedIsTaken(s, txs, n);
    }
    if k < |forward| {
      assert txs[|routed.txs| + k] == LateTx(date, forward[k]);
      CommittedIsTaken(s, txs, |routed.txs| + k);
    }
    CommitAllRows(s, txs);
    CountAppend(s.rows, RowsOf(txs), date, LateCandidate);
    RoutingRows(claimed, held, date);
    AllLate(routed.txs, forward, date);
  }

  lemma {:induction false} AllLate(routed: seq<Tx>, cs: seq<Candidate>, date: int)
    requires RoutesOnly(routed)
    ensures Count(RowsOf(routed + LateTxs(cs, date)), date, LateCandidate) == |cs|
    decreases |cs|
  {
    var txs := routed + LateTxs(cs, date);
    if cs == [] {
      assert txs == routed;
      CountBounds(RowsOf(txs), date, LateCandidate);
    } else {
      AllLate(routed, cs[..|cs| - 1], date);
      var rows := RowsOf(txs);
      assert rows[..|rows| - 1] == RowsOf(routed + LateTxs(cs[..|cs| - 1], date));
      assert rows[|rows| - 1] == LateTx(date, cs[|cs| - 1]).row;
    }
  }

  /** A sheet that is not cut delivers what the reply says, one row per candidate, and is
      done for the day. */
  lemma {:induction false} FinishedSheetDelivers(s: State, now: int, claimed: seq<Msg>, held: set<nat>,
                                                 order: seq<Candidate>, lanes: map<nat, Verdict>, i: nat, k: nat)
    requires !SheetDone(s, SessionDay(now)) && k < |order|
    ensures var t := CommitAll(s, SheetRun(s, now, claimed, held, order, lanes));
      && SheetDone(t, SessionDay(now))
      && |t.rows| == |s.rows| + |RouteAll(claimed, held, SessionDay(now)).txs| + |order| + 1
      && (i < |claimed| && Owed(claimed[i], held).Some? ==> Taken(t.sent, Owed(claimed[i], held).value))
      && (VerdictOf(order[k], lanes).lane == ToOpen ==> Taken(t.sent, Handoff(order[k].key)))
      && (VerdictOf(order[k], lanes).lane == ToThesis ==> Taken(t.sent, ThesisItem(order[k].key)))
      && exists n :: |s.rows| <= n < |t.rows|
           && t.rows[n] == Row(SessionDay(now), match VerdictOf(order[k], lanes).lane
                                                case ToOpen => OpenCandidate
                                                case ToThesis => Thesis
                                                case ToIgnore => Ignore,
                               Some(order[k].key), Some(VerdictOf(order[k], lanes).rank))
  {
    hide RouteAll, Taken, Owed, CommitAll;
    var date := SessionDay(now);
    var routed := RouteAll(claimed, held, date).txs;
    var txs := SheetRun(s, now, claimed, held, order, lanes);
    if i < |claimed| && Owed(claimed[i], held).Some? {
      var n := RoutedTx(claimed, held, date, i);
      CommittedIsTaken(s, txs, n);
    }
    var at := |routed| + k;
    assert txs[at] == DispositionTx(date, order[k], lanes);
    if txs[at].mail.Some? {
      CommittedIsTaken(s, txs, at);
    }
    CommitAllRows(s, txs);
    var rows := CommitAll(s, txs).rows;
    assert rows[|s.rows| + at] == txs[at].row;
    CountBounds(rows, date, Sheet);
    assert rows[|rows| - 1] == Row(date, Sheet, None, None);
  }
}
