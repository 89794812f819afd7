/** What a finished sheet or late pass puts on the queues, said of the claimed messages and
    of the reply. */
module OvernightMail {
  import opened Forwarding
  import opened Numbers
  import opened Options
  import opened Overnight
  import opened OvernightRuns
  import opened Pacing

  // ------------------------------------------------------ committed mail

  predicate Mails(txs: seq<Tx>, d: Dedup) {
    exists i :: 0 <= i < |txs| && txs[i].mail.Some? && txs[i].mail.value.dedup == d
  }

  lemma {:induction false} MailsAppend(a: seq<Tx>, b: seq<Tx>, d: Dedup)
    ensures Mails(a + b, d) <==> Mails(a, d) || Mails(b, d)
  {
    var c := a + b;
    if i :| 0 <= i < |a| && a[i].mail.Some? && a[i].mail.value.dedup == d {
      assert c[i] == a[i];
    }
    if i :| 0 <= i < |b| && b[i].mail.Some? && b[i].mail.value.dedup == d {
      assert c[|a| + i] == b[i];
    }
    if i :| 0 <= i < |c| && c[i].mail.Some? && c[i].mail.value.dedup == d {
      assert if i < |a| then c[i] == a[i] else c[i] == b[i - |a|];
    }
  }

  lemma {:induction false} CommitTakes(s: State, tx: Tx, d: Dedup)
    ensures Taken(Commit(s, tx).sent, d) <==> Taken(s.sent, d) || (tx.mail.Some? && tx.mail.value.dedup == d)
  {
    var t := Commit(s, tx);
    if Taken(s.sent, d) {
      var i :| 0 <= i < |s.sent| && s.sent[i].dedup == d;
      assert t.sent[i].dedup == d;
    }
    if tx.mail.Some? && !Taken(s.sent, tx.mail.value.dedup) {
      assert t.sent[|s.sent|] == tx.mail.value;
    }
  }

  lemma {:induction false} CommitAllTakes(s: State, txs: seq<Tx>, d: Dedup)
    ensures Taken(CommitAll(s, txs).sent, d) <==> Taken(s.sent, d) || Mails(txs, d)
    decreases |txs|
  {
    hide Commit, Taken;
    if txs != [] {
      var front, last := txs[..|txs| - 1], txs[|txs| - 1];
      CommitAllTakes(s, front, d);
      CommitTakes(CommitAll(s, front), last, d);
      MailsAppend(front, [last], d);
      assert txs == front + [last];
      assert Mails([last], d) <==> last.mail.Some? && last.mail.value.dedup == d by {
        assert [last][0] == last;
      }
    }
  }

  // -------------------------------------------------------------- routing

  /** The message is about this item at this revision, a missing revision being the first. */
  predicate Names(m: Msg, key: Key) {
    m.item == Some(key.item) && key.revision == if m.revision == 0 then 1 else m.revision
  }

  /** Some claimed message about the item touches a held name. */
  predicate Guarded(claimed: seq<Msg>, held: set<nat>, key: Key) {
    exists i :: 0 <= i < |claimed| && Names(claimed[i], key) && claimed[i].id in held
  }

  /** Some claimed message about the item touches none and names no ticker. */
  predicate Tickerless(claimed: seq<Msg>, held: set<nat>, key: Key) {
    exists i :: 0 <= i < |claimed| && Names(claimed[i], key) && claimed[i].id !in held && !claimed[i].mapped
  }

  predicate Routes(claimed: seq<Msg>, held: set<nat>, d: Dedup) {
    match d
    case GuardItem(key) => Guarded(claimed, held, key)
    case ThesisItem(key) => Tickerless(claimed, held, key)
    case Handoff(_) => false
  }

  predicate RoutesOne(m: Msg, held: set<nat>, d: Dedup) {
    match d
    case GuardItem(key) => Names(m, key) && m.id in held
    case ThesisItem(key) => Names(m, key) && m.id !in held && !m.mapped
    case Handoff(_) => false
  }

  lemma {:induction false} RoutesSnoc(claimed: seq<Msg>, m: Msg, held: set<nat>, d: Dedup)
    ensures Routes(claimed + [m], held, d) <==> Routes(claimed, held, d) || RoutesOne(m, held, d)
  {
    hide Names;
    var all := claimed + [m];
    assert all[|claimed|] == m;
    assert forall i :: 0 <= i < |claimed| ==> all[i] == claimed[i];
  }

  lemma {:induction false} RoutingMails(claimed: seq<Msg>, held: set<nat>, date: int, d: Dedup)
    ensures Mails(RouteAll(claimed, held, date).txs, d) <==> Routes(claimed, held, d)
    decreases |claimed|
  {
    if claimed != [] {
      var front, m := claimed[..|claimed| - 1], claimed[|claimed| - 1];
      RoutingMails(front, held, date, d);
      assert claimed == front + [m];
      RoutesSnoc(front, m, held, d);
      hide Routes, Mails, RouteAll;
      RouteMails(RouteAll(front, held, date), m, held, date, d);
      assert RouteAll(claimed, held, date) == Route(RouteAll(front, held, date), m, held, date) by {
        RouteLast(claimed, held, date);
      }
    }
  }

  lemma {:induction false} RouteLast(claimed: seq<Msg>, held: set<nat>, date: int)
    requires claimed != []
    ensures RouteAll(claimed, held, date)
         == Route(RouteAll(claimed[..|claimed| - 1], held, date), claimed[|claimed| - 1], held, date)
  {
  }

  lemma {:induction false} RouteMails(r: Routed, m: Msg, held: set<nat>, date: int, d: Dedup)
    ensures Mails(Route(r, m, held, date).txs, d) <==> Mails(r.txs, d) || RoutesOne(m, held, d)
  {
    var u := Route(r, m, held, date);
    if |u.txs| > |r.txs| {
      var tx := u.txs[|r.txs|];
      assert u.txs == r.txs + [tx];
      MailsAppend(r.txs, [tx], d);
      hide Mails;
      assert Mails([tx], d) <==> tx.mail.Some? && tx.mail.value.dedup == d by {
        OneMail(tx, d);
      }
    }
  }

  lemma {:induction false} OneMail(tx: Tx, d: Dedup)
    ensures Mails([tx], d) <==> tx.mail.Some? && tx.mail.value.dedup == d
  {
    assert [tx][0] == tx;
  }

  /** Candidates are the claimed messages that name an item and a ticker and touch nothing
      held, each with its own id and priority. */
  predicate IsCandidate(m: Msg, held: set<nat>, c: Candidate) {
    m.id !in held && m.mapped && Names(m, c.key) && c.id == m.id && c.priority == m.priority
  }

  lemma {:induction false} PoolIsClaimed(claimed: seq<Msg>, held: set<nat>, date: int)
    ensures forall c :: c in RouteAll(claimed, held, date).pool <==>
      exists i :: 0 <= i < |claimed| && IsCandidate(claimed[i], held, c)
    decreases |claimed|
  {
    if claimed != [] {
      var front, m := claimed[..|claimed| - 1], claimed[|claimed| - 1];
      PoolIsClaimed(front, held, date);
      RouteLast(claimed, held, date);
      hide RouteAll;
      RoutePool(RouteAll(front, held, date), m, held, date);
      hide IsCandidate, Route;
      assert forall i :: 0 <= i < |front| ==> claimed[i] == front[i];
      assert claimed[|claimed| - 1] == m;
    }
  }

  lemma {:induction false} RoutePool(r: Routed, m: Msg, held: set<nat>, date: int)
    ensures forall c :: c in Route(r, m, held, date).pool <==> c in r.pool || IsCandidate(m, held, c)
  {
  }

  // ---------------------------------------------------------------- sheets

  /** The reply names the candidate's item for this lane. */
  predicate NamedFor(c: Candidate, lanes: map<nat, Verdict>, lane: SheetLane) {
    c.key.item in lanes && lanes[c.key.item].lane == lane
  }

  predicate AnyNamedFor(order: seq<Candidate>, lanes: map<nat, Verdict>, key: Key, lane: SheetLane) {
    exists j :: 0 <= j < |order| && order[j].key == key && NamedFor(order[j], lanes, lane)
  }

  predicate Disposes(order: seq<Candidate>, lanes: map<nat, Verdict>, d: Dedup) {
    match d
    case GuardItem(_) => false
    case ThesisItem(key) => AnyNamedFor(order, lanes, key, ToThesis)
    case Handoff(key) => AnyNamedFor(order, lanes, key, ToOpen)
  }

  lemma {:induction false} DispositionMails(order: seq<Candidate>, date: int, lanes: map<nat, Verdict>, d: Dedup)
    ensures Mails(DispositionTxs(order, date, lanes), d) <==> Disposes(order, lanes, d)
  {
    var txs := DispositionTxs(order, date, lanes);
    forall j | 0 <= j < |order|
      ensures txs[j].mail.Some? && txs[j].mail.value.dedup == d <==>
        match d
        case GuardItem(_) => false
        case ThesisItem(key) => order[j].key == key && NamedFor(order[j], lanes, ToThesis)
        case Handoff(key) => order[j].key == key && NamedFor(order[j], lanes, ToOpen)
    {
      assert txs[j] == DispositionTx(date, order[j], lanes);
    }
    hide DispositionTxs, NamedFor;
  }

  /** A finished sheet sends, beyond what was sent before, exactly: to the guard what touches
      a held name, to the thesis lane what names no ticker or the reply gave to it, and to the
      analyst what the reply named to open. A candidate the reply does not name goes nowhere. */
  lemma {:induction false} SheetSendsIff(s: State, now: int, claimed: seq<Msg>, held: set<nat>, order: seq<Candidate>,
                                         lanes: map<nat, Verdict>, d: Dedup)
    requires !SheetDone(s, SessionDay(now))
    ensures Taken(CommitAll(s, SheetRun(s, now, claimed, held, order, lanes)).sent, d) <==>
      Taken(s.sent, d) || Routes(claimed, held, d) || Disposes(order, lanes, d)
  {
    var date := SessionDay(now);
    var routed, disposed := RouteAll(claimed, held, date).txs, DispositionTxs(order, date, lanes);
    var last := Tx(Row(date, Sheet, None, None), None);
    assert SheetRun(s, now, claimed, held, order, lanes) == (routed + disposed) + [last];
    hide *;
    CommitAllTakes(s, (routed + disposed) + [last], d);
    MailsAppend(routed + disposed, [last], d);
    MailsAppend(routed, disposed, d);
    RoutingMails(claimed, held, date, d);
    DispositionMails(order, date, lanes, d);
    OneMail(last, d);
  }

  /** The row of a candidate: what the reply says of its item, at the reply's rank; IGNORE at
      rank 50 when the reply does not name it. */
  function SheetRow(date: int, c: Candidate, lanes: map<nat, Verdict>): Row {
    if c.key.item !in lanes then Row(date, Ignore, Some(c.key), Some(50))
    else
      Row(date,
          match lanes[c.key.item].lane case ToOpen => OpenCandidate case ToThesis => Thesis case ToIgnore => Ignore,
          Some(c.key), Some(lanes[c.key.item].rank))
  }

  lemma {:induction false} SheetWritesRow(s: State, now: int, claimed: seq<Msg>, held: set<nat>, order: seq<Candidate>,
                                          lanes: map<nat, Verdict>, k: nat)
    requires !SheetDone(s, SessionDay(now)) && k < |order|
    ensures var rows := CommitAll(s, SheetRun(s, now, claimed, held, order, lanes)).rows;
      |rows| > |order| + |s.rows|
      && rows[|rows| - 1 - |order| + k] == SheetRow(SessionDay(now), order[k], lanes)
  {
    var date := SessionDay(now);
    var routed := RouteAll(claimed, held, date).txs;
    var txs := SheetRun(s, now, claimed, held, order, lanes);
    assert |txs| == |routed| + |order| + 1;
    assert txs[|routed| + k] == DispositionTx(date, order[k], lanes);
    assert DispositionTx(date, order[k], lanes).row == SheetRow(date, order[k], lanes);
    hide SheetRun, RouteAll, CommitAll, DispositionTx, SheetRow;
    CommitAllRows(s, txs);
    assert RowsOf(txs)[|routed| + k] == txs[|routed| + k].row;
  }

  // ------------------------------------------------------------- late passes

  /** A late pass runs exactly between today's SHEET row and today's open. */
  lemma {:induction false} PassRunsIff(s: State, now: int, open: int)
    ensures ShouldRun(now, SheetDone(s, SessionDay(now)), open) <==>
      && (exists i :: 0 <= i < |s.rows| && s.rows[i].date == now / 86_400_000_000 && s.rows[i].action == Sheet)
      && open / 86_400_000_000 == now / 86_400_000_000 && now < open
  {
    CountBounds(s.rows, SessionDay(now), Sheet);
  }

  predicate Forwards(forward: seq<Candidate>, d: Dedup) {
    d.Handoff? && exists j :: 0 <= j < |forward| && forward[j].key == d.key
  }

  /** A finished late pass sends, beyond what was sent before, exactly what routing sends and
      the hand-offs of the candidates it forwards. */
  lemma {:induction false} PassSendsIff(s: State, l: Limits, now: int, open: int, claimed: seq<Msg>, held: set<nat>,
                                        d: Dedup)
    requires ShouldRun(now, SheetDone(s, SessionDay(now)), open)
    ensures var forward := LatePlan(s, l, now, open, RouteAll(claimed, held, SessionDay(now)).pool).forward;
      Taken(CommitAll(s, LatePass(s, l, now, open, claimed, held)).sent, d) <==>
        Taken(s.sent, d) || Routes(claimed, held, d) || Forwards(forward, d)
  {
    var date := SessionDay(now);
    var routed := RouteAll(claimed, held, date);
    var forward := LatePlan(s, l, now, open, routed.pool).forward;
    assert LatePass(s, l, now, open, claimed, held) == routed.txs + LateTxs(forward, date);
    hide *;
    CommitAllTakes(s, routed.txs + LateTxs(forward, date), d);
    MailsAppend(routed.txs, LateTxs(forward, date), d);
    RoutingMails(claimed, held, date, d);
    LateMails(forward, date, d);
  }

  lemma {:induction false} LateMails(forward: seq<Candidate>, date: int, d: Dedup)
    ensures Mails(LateTxs(forward, date), d) <==> Forwards(forward, d)
  {
    assert forall j :: 0 <= j < |forward| ==> LateTxs(forward, date)[j] == LateTx(date, forward[j]);
  }

  ghost predicate DistinctMsgs(claimed: seq<Msg>) {
    forall i, j :: 0 <= i < j < |claimed| ==> claimed[i].id != claimed[j].id
  }

  /** The message ranks before the other: a lower priority number, or the same and the lower
      id. */
  predicate Outranks(m: Msg, n: Msg) { m.priority < n.priority || (m.priority == n.priority && m.id < n.id) }

  lemma {:induction false} CandidateOf(claimed: seq<Msg>, held: set<nat>, date: int, c: Candidate, i: nat)
    requires DistinctMsgs(claimed) && c in RouteAll(claimed, held, date).pool && i < |claimed| && claimed[i].id == c.id
    ensures c.priority == claimed[i].priority
  {
    PoolIsClaimed(claimed, held, date);
    hide RouteAll;
    var k :| 0 <= k < |claimed| && IsCandidate(claimed[k], held, c);
    assert k == i;
  }

  /** Candidates in the order of the plan stand in the order of their messages. */
  lemma {:induction false} OrderedMsgs(claimed: seq<Msg>, held: set<nat>, date: int, cs: seq<Candidate>, a: nat, b: nat,
                                       i: nat, j: nat)
    requires DistinctMsgs(claimed) && Ordered(cs) && forall c :: c in cs ==> c in RouteAll(claimed, held, date).pool
    requires a < b < |cs| && i < |claimed| && j < |claimed| && cs[a].id == claimed[i].id && cs[b].id == claimed[j].id
    ensures claimed[i] == claimed[j] || Outranks(claimed[i], claimed[j])
  {
    hide RouteAll;
    CandidateOf(claimed, held, date, cs[a], i);
    CandidateOf(claimed, held, date, cs[b], j);
    assert AtOrBefore(cs[a], cs[b]);
  }

  lemma {:induction false} PlanFromPool(s: State, l: Limits, now: int, open: int, pool: seq<Candidate>)
    ensures var plan := LatePlan(s, l, now, open, pool);
      Ordered(plan.forward + plan.rest) && forall c :: c in plan.forward + plan.rest ==> c in pool
  {
    var plan := LatePlan(s, l, now, open, pool);
    var already := Count(s.rows, SessionDay(now), LateCandidate);
    assert plan == PlanForwarding(pool, already, l.dailyMax, l.passMax, PassesRemaining(now, open));
    hide *;
    PlanSplitsAtAllowance(pool, already, l.dailyMax, l.passMax, PassesRemaining(now, open));
    forall c | c in plan.forward + plan.rest ensures c in pool {
      assert c in multiset(plan.forward + plan.rest);
    }
  }

  /** Whatever is forwarded outranks, by the priorities of the claimed messages themselves,
      whatever is left behind; and it is forwarded in that order. */
  lemma {:induction false} ForwardsMostUrgent(s: State, l: Limits, now: int, open: int, claimed: seq<Msg>,
                                              held: set<nat>, i: nat, j: nat)
    requires DistinctMsgs(claimed) && i < |claimed| && j < |claimed|
    ensures var plan := LatePlan(s, l, now, open, RouteAll(claimed, held, SessionDay(now)).pool);
      && (claimed[i].id in Ids(plan.forward) && claimed[j].id in Ids(plan.rest) ==>
            claimed[i] == claimed[j] || Outranks(claimed[i], claimed[j]))
      && (forall a, b :: 0 <= a < b < |plan.forward| && plan.forward[a].id == claimed[i].id
                         && plan.forward[b].id == claimed[j].id ==>
            claimed[i] == claimed[j] || Outranks(claimed[i], claimed[j]))
  {
    var date := SessionDay(now);
    var pool := RouteAll(claimed, held, date).pool;
    var plan := LatePlan(s, l, now, open, pool);
    PlanFromPool(s, l, now, open, pool);
    var all := plan.forward + plan.rest;
    hide RouteAll, LatePlan, Ordered, DistinctMsgs;
    forall a, b | 0 <= a < b < |plan.forward| && plan.forward[a].id == claimed[i].id
                  && plan.forward[b].id == claimed[j].id
      ensures claimed[i] == claimed[j] || Outranks(claimed[i], claimed[j])
    {
      assert all[a] == plan.forward[a] && all[b] == plan.forward[b];
      OrderedMsgs(claimed, held, date, all, a, b, i, j);
    }
    if claimed[i].id in Ids(plan.forward) && claimed[j].id in Ids(plan.rest) {
      var a :| 0 <= a < |plan.forward| && Ids(plan.forward)[a] == claimed[i].id;
      var b :| 0 <= b < |plan.rest| && Ids(plan.rest)[b] == claimed[j].id;
      assert all[a] == plan.forward[a] && all[|plan.forward| + b] == plan.rest[b];
      OrderedMsgs(claimed, held, date, all, a, |plan.forward| + b, i, j);
    }
  }

  // ---------------------------------------------------- payloads and dates

  /** Transaction i asks for this very message and no transaction before it for its key. */
  predicate FirstToMail(txs: seq<Tx>, m: Mail, i: int) {
    && 0 <= i < |txs| && txs[i].mail == Some(m)
    && forall j :: 0 <= j < i && txs[j].mail.Some? ==> txs[j].mail.value.dedup != m.dedup
  }

  /** A message sent by a run is the one its first asker wrote. */
  lemma {:induction false} SentByFirst(s: State, txs: seq<Tx>, k: nat)
    requires |s.sent| <= k < |CommitAll(s, txs).sent|
    ensures s.sent <= CommitAll(s, txs).sent && exists i :: FirstToMail(txs, CommitAll(s, txs).sent[k], i)
    decreases |txs|
  {
    var n := |txs| - 1;
    var front, u, v := txs[..n], CommitAll(s, txs[..n]), CommitAll(s, txs);
    SentGrows(s, front);
    SentGrows(s, txs);
    if k < |u.sent| {
      SentByFirst(s, front, k);
      var i :| FirstToMail(front, u.sent[k], i);
      assert FirstToMail(txs, v.sent[k], i);
    } else {
      var m := txs[n].mail.value;
      assert v == Commit(u, txs[n]) && v.sent == u.sent + [m] && k == |u.sent|;
      CommitAllTakes(s, front, m.dedup);
      assert !Mails(front, m.dedup);
      assert forall j :: 0 <= j < n ==> front[j] == txs[j];
      assert v.sent[k] == m;
      assert FirstToMail(txs, v.sent[k], n);
    }
  }

  lemma {:induction false} SentGrows(s: State, txs: seq<Tx>)
    ensures s.sent <= CommitAll(s, txs).sent
    decreases |txs|
  {
    if txs != [] {
      SentGrows(s, txs[..|txs| - 1]);
    }
  }

  /** A message carries the payload of a claimed message that routing sends there, or of a
      candidate with its key. */
  predicate CarriesClaim(claimed: seq<Msg>, held: set<nat>, cs: seq<Candidate>, m: Mail) {
    || (exists i :: 0 <= i < |claimed| && claimed[i].id == m.source && RoutesOne(claimed[i], held, m.dedup))
    || (!m.dedup.GuardItem? && exists j :: 0 <= j < |cs| && cs[j].id == m.source && cs[j].key == m.dedup.key)
  }

  lemma {:induction false} RoutingCarries(claimed: seq<Msg>, held: set<nat>, date: int, n: nat)
    requires n < |RouteAll(claimed, held, date).txs|
    ensures var tx := RouteAll(claimed, held, date).txs[n];
      && tx.row.date == date && tx.mail.Some?
      && exists i :: 0 <= i < |claimed| && claimed[i].id == tx.mail.value.source
                     && RoutesOne(claimed[i], held, tx.mail.value.dedup)
    decreases |claimed|
  {
    var front, m := claimed[..|claimed| - 1], claimed[|claimed| - 1];
    RouteLast(claimed, held, date);
    var r := RouteAll(front, held, date);
    if n < |r.txs| {
      RoutingCarries(front, held, date, n);
      var tx := r.txs[n];
      var i :| 0 <= i < |front| && front[i].id == tx.mail.value.source && RoutesOne(front[i], held, tx.mail.value.dedup);
      assert claimed[i] == front[i];
    } else {
      RouteCarries(r, m, held, date);
      var tx := RouteAll(claimed, held, date).txs[n];
      var last := |claimed| - 1;
      assert claimed[last].id == tx.mail.value.source && RoutesOne(claimed[last], held, tx.mail.value.dedup);
    }
  }

  lemma {:induction false} RouteCarries(r: Routed, m: Msg, held: set<nat>, date: int)
    ensures var txs := Route(r, m, held, date).txs;
      && r.txs <= txs && |txs| <= |r.txs| + 1
      && (|txs| > |r.txs| ==>
            var tx := txs[|r.txs|];
            && tx.row.date == date && tx.mail.Some? && tx.mail.value.source == m.id
            && RoutesOne(m, held, tx.mail.value.dedup))
  {
  }

  /** Every row of a run is dated its day, and every message it sends carries what was
      claimed. */
  lemma {:induction false} SheetCarries(s: State, now: int, claimed: seq<Msg>, held: set<nat>, order: seq<Candidate>,
                                        lanes: map<nat, Verdict>, n: nat)
    requires n < |SheetRun(s, now, claimed, held, order, lanes)|
    ensures var tx := SheetRun(s, now, claimed, held, order, lanes)[n];
      && tx.row.date == SessionDay(now)
      && (tx.mail.Some? ==> CarriesClaim(claimed, held, order, tx.mail.value))
  {
    var date := SessionDay(now);
    var routed, disposed := RouteAll(claimed, held, date).txs, DispositionTxs(order, date, lanes);
    var tx := SheetRun(s, now, claimed, held, order, lanes)[n];
    hide RouteAll;
    if n < |routed| {
      RoutingCarries(claimed, held, date, n);
      assert tx == routed[n];
    } else if n < |routed| + |disposed| {
      assert tx == DispositionTx(date, order[n - |routed|], lanes);
    }
  }

  lemma {:induction false} PassCarries(s: State, l: Limits, now: int, open: int, claimed: seq<Msg>, held: set<nat>, n: nat)
    requires n < |LatePass(s, l, now, open, claimed, held)|
    ensures var tx := LatePass(s, l, now, open, claimed, held)[n];
      var pool := RouteAll(claimed, held, SessionDay(now)).pool;
      && tx.row.date == SessionDay(now)
      && (tx.mail.Some? ==> CarriesClaim(claimed, held, LatePlan(s, l, now, open, pool).forward, tx.mail.value))
  {
    var date := SessionDay(now);
    var routed := RouteAll(claimed, held, date);
    var forward := LatePlan(s, l, now, open, routed.pool).forward;
    var tx := LatePass(s, l, now, open, claimed, held)[n];
    hide RouteAll, LatePlan, ShouldRun;
    if n < |routed.txs| {
      RoutingCarries(claimed, held, date, n);
      assert tx == routed.txs[n];
    } else {
      assert tx == LateTx(date, forward[n - |routed.txs|]);
    }
  }

  /** Over a run cut anywhere: new rows are dated its day, new messages carry what it
      claimed. */
  lemma {:induction false} RunCarriesClaims(s: State, l: Limits, e: Event, r: nat, k: nat)
    ensures var t := Fire(s, l, e);
      && (|s.rows| <= r < |t.rows| ==> t.rows[r].date == SessionDay(e.now))
      && (|s.sent| <= k < |t.sent| ==> CarriesClaim(e.claimed, e.held, Candidates(s, l, e), t.sent[k]))
  {
    var all := Transactions(s, l, e);
    var txs := all[..Least(e.commits, |all|)];
    CommitAllRows(s, txs);
    forall n | 0 <= n < |all|
      ensures all[n].row.date == SessionDay(e.now)
      ensures all[n].mail.Some? ==> CarriesClaim(e.claimed, e.held, Candidates(s, l, e), all[n].mail.value)
    {
      match e
      case LateFiring(now, open, claimed, held, _) => PassCarries(s, l, now, open, claimed, held, n);
      case SheetFiring(now, claimed, held, order, lanes, _) => SheetCarries(s, now, claimed, held, order, lanes, n);
    }
    hide Transactions, CarriesClaim, CommitAll, Candidates, SessionDay;
    if |s.sent| <= k < |CommitAll(s, txs).sent| {
      SentByFirst(s, txs, k);
      var i :| FirstToMail(txs, CommitAll(s, txs).sent[k], i);
      assert txs[i] == all[i];
    }
  }

  /** What the run disposes of or forwards. */
  function Candidates(s: State, l: Limits, e: Event): seq<Candidate> {
    match e
    case LateFiring(now, open, claimed, held, _) =>
      LatePlan(s, l, now, open, RouteAll(claimed, held, SessionDay(now)).pool).forward
    case SheetFiring(_, _, _, order, _, _) => order
  }
}
