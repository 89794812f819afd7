/** The overnight desk: the morning sheet and the late passes that follow it, as
    transactions that each write one decision row and at most one queue message.
    A run may be cut after any transaction, and a message that was not acked may be
    claimed again by any later run. */
module Overnight {
  import opened Forwarding
  import opened Numbers
  import opened Options
  import opened Pacing

  /** A claimed overnight message. `item` is absent when the signal is malformed;
      `mapped` says that triage named at least one ticker. */
  datatype Msg = Msg(id: nat, priority: int, item: Option<nat>, revision: nat, mapped: bool)

  /** The dedup keys, each on a queue of its own. */
  datatype Dedup = Handoff(key: Key) | GuardItem(key: Key) | ThesisItem(key: Key)

  datatype Mail = Mail(dedup: Dedup, priority: int, source: nat)

  datatype Action = Guard | Thesis | OpenCandidate | LateCandidate | Ignore | Sheet

  /** `rank` is the sheet's, in the payload of its dispositions. */
  datatype Row = Row(date: int, action: Action, key: Option<Key>, rank: Option<int>)

  datatype Tx = Tx(row: Row, mail: Option<Mail>)

  datatype State = State(rows: seq<Row>, sent: seq<Mail>)

  const LATE_PRIORITY := 45

  function OpenPriority(rank: int): int { 40 + (if rank < 50 then rank else 50) }

  // -------------------------------------------------------- transactions

  predicate Taken(sent: seq<Mail>, dedup: Dedup) { exists i :: 0 <= i < |sent| && sent[i].dedup == dedup }

  /** ON CONFLICT (queue_name, dedup_key) DO NOTHING. */
  function Enqueue(sent: seq<Mail>, m: Mail): seq<Mail> {
    if Taken(sent, m.dedup) then sent else sent + [m]
  }

  function Commit(s: State, tx: Tx): State {
    State(s.rows + [tx.row], if tx.mail.Some? then Enqueue(s.sent, tx.mail.value) else s.sent)
  }

  function CommitAll(s: State, txs: seq<Tx>): State {
    if txs == [] then s else Commit(CommitAll(s, txs[..|txs| - 1]), txs[|txs| - 1])
  }

  // ------------------------------------------------------------- routing

  datatype Lane = Malformed | Held | NoTicker | Rankable(c: Candidate)

  function Classify(m: Msg, held: set<nat>): Lane {
    if m.item.None? then Malformed
    else if m.id in held then Held
    else if !m.mapped then NoTicker
    else Rankable(Candidate(m.id, m.priority, KeyOf(m.item.value, m.revision)))
  }

  /** A missing revision reads as 1. */
  function KeyOf(item: nat, revision: nat): Key { Key(item, if revision == 0 then 1 else revision) }

  function GuardTx(date: int, key: Key, id: nat): Tx {
    Tx(Row(date, Guard, Some(key), None), Some(Mail(GuardItem(key), 0, id)))
  }

  function ThesisTx(date: int, key: Key, id: nat, rank: Option<int>): Tx {
    Tx(Row(date, Thesis, Some(key), rank), Some(Mail(ThesisItem(key), 100, id)))
  }

  function LateTx(date: int, c: Candidate): Tx {
    Tx(Row(date, LateCandidate, Some(c.key), None), Some(Mail(Handoff(c.key), LATE_PRIORITY, c.id)))
  }

  /** What routing makes of the claimed messages. */
  datatype Routed = Routed(txs: seq<Tx>, acked: seq<nat>, failed: seq<nat>, pool: seq<Candidate>)

  function Route(r: Routed, m: Msg, held: set<nat>, date: int): Routed {
    match Classify(m, held)
    case Malformed => r.(failed := r.failed + [m.id])
    case Held => r.(txs := r.txs + [GuardTx(date, KeyOf(m.item.value, m.revision), m.id)], acked := r.acked + [m.id])
    case NoTicker => r.(txs := r.txs + [ThesisTx(date, KeyOf(m.item.value, m.revision), m.id, None)], acked := r.acked + [m.id])
    case Rankable(c) => r.(pool := r.pool + [c])
  }

  function RouteAll(claimed: seq<Msg>, held: set<nat>, date: int): Routed {
    if claimed == [] then Routed([], [], [], [])
    else Route(RouteAll(claimed[..|claimed| - 1], held, date), claimed[|claimed| - 1], held, date)
  }

  function LateTxs(cs: seq<Candidate>, date: int): seq<Tx> {
    seq(|cs|, i requires 0 <= i < |cs| => LateTx(date, cs[i]))
  }

  function Ids(cs: seq<Candidate>): seq<nat> {
    seq(|cs|, i requires 0 <= i < |cs| => cs[i].id)
  }

  function MsgIds(ms: seq<Msg>): seq<nat> {
    seq(|ms|, i requires 0 <= i < |ms| => ms[i].id)
  }

  function Count(rows: seq<Row>, date: int, action: Action): nat {
    if rows == [] then 0
    else Count(rows[..|rows| - 1], date, action)
         + (if rows[|rows| - 1].date == date && rows[|rows| - 1].action == action then 1 else 0)
  }

  // ---------------------------------------------------------------- runs

  datatype Limits = Limits(dailyMax: nat, passMax: nat)

  datatype Verdict = Verdict(lane: SheetLane, rank: int)

  datatype SheetLane = ToOpen | ToThesis | ToIgnore

  predicate SheetDone(s: State, date: int) { Count(s.rows, date, Sheet) > 0 }

  function LatePlan(s: State, l: Limits, now: int, open: int, pool: seq<Candidate>): Plan {
    PlanForwarding(pool, Count(s.rows, SessionDay(now), LateCandidate), l.dailyMax, l.passMax,
                   PassesRemaining(now, open))
  }

  /** Every transaction of a late pass that runs to its end. */
  function LatePass(s: State, l: Limits, now: int, open: int, claimed: seq<Msg>, held: set<nat>): seq<Tx> {
    var date := SessionDay(now);
    var r := RouteAll(claimed, held, date);
    if ShouldRun(now, SheetDone(s, date), open) then r.txs + LateTxs(LatePlan(s, l, now, open, r.pool).forward, date)
    else []
  }

  /** What the reply says of a candidate; one it does not name is ignored. */
  function VerdictOf(c: Candidate, lanes: map<nat, Verdict>): Verdict {
    if c.key.item in lanes then lanes[c.key.item] else Verdict(ToIgnore, 50)
  }

  function DispositionTx(date: int, c: Candidate, lanes: map<nat, Verdict>): Tx {
    var v := VerdictOf(c, lanes);
    match v.lane
    case ToOpen =>
      Tx(Row(date, OpenCandidate, Some(c.key), Some(v.rank)),
         Some(Mail(Handoff(c.key), OpenPriority(v.rank), c.id)))
    case ToThesis => ThesisTx(date, c.key, c.id, Some(v.rank))
    case ToIgnore => Tx(Row(date, Ignore, Some(c.key), Some(v.rank)), None)
  }

  function DispositionTxs(cs: seq<Candidate>, date: int, lanes: map<nat, Verdict>): seq<Tx> {
    seq(|cs|, i requires 0 <= i < |cs| => DispositionTx(date, cs[i], lanes))
  }

  /** Every transaction of a sheet run: routing, one disposition per candidate in the
      order given, and the SHEET row last. `lanes` is any reply a model may give. */
  function SheetRun(s: State, now: int, claimed: seq<Msg>, held: set<nat>, order: seq<Candidate>,
                    lanes: map<nat, Verdict>): seq<Tx> {
    var date := SessionDay(now);
    if SheetDone(s, date) then []
    else RouteAll(claimed, held, date).txs + DispositionTxs(order, date, lanes) + [Tx(Row(date, Sheet, None, None), None)]
  }

  /** `commits` is how many transactions the process lives to commit. */
  datatype Event =
    | LateFiring(now: int, open: int, claimed: seq<Msg>, held: set<nat>, commits: nat)
    | SheetFiring(now: int, claimed: seq<Msg>, held: set<nat>, order: seq<Candidate>, lanes: map<nat, Verdict>,
                  commits: nat)

  function Transactions(s: State, l: Limits, e: Event): seq<Tx> {
    match e
    case LateFiring(now, open, claimed, held, _) => LatePass(s, l, now, open, claimed, held)
    case SheetFiring(now, claimed, held, order, lanes, _) => SheetRun(s, now, claimed, held, order, lanes)
  }

  function Fire(s: State, l: Limits, e: Event): State {
    var txs := Transactions(s, l, e);
    CommitAll(s, txs[..Least(e.commits, |txs|)])
  }

  function Run(s: State, l: Limits, es: seq<Event>): State
    decreases |es|
  {
    if es == [] then s else Fire(Run(s, l, es[..|es| - 1]), l, es[|es| - 1])
  }
}
