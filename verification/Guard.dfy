/** The position guard under redelivery. A delivery may be cut after any transaction and
    the same message may be delivered again any number of times. */
module Guard {
  import opened Options

  datatype Recommendation = Hold | TightenStop | ExitNow

  datatype Action = Expired | NoPosition | AlertOnly | Reject | Judged(rec: Recommendation, intact: bool)

  /** A row's id is its place in the table; `position` is the payload's position_id. */
  datatype Decision = Decision(signal: nat, revision: nat, position: Option<nat>, action: Action)

  datatype Ledger = Ledger(decision: nat, position: nat, autoExecuted: bool)

  datatype Armed = Armed(position: nat, decision: nat)

  /** `marks` is the guard_exit block of each position's exit policy, by decision. */
  datatype World = World(decisions: seq<Decision>, ledger: seq<Ledger>, events: seq<Armed>,
                         marks: map<nat, nat>, open: set<nat>)

  // ------------------------------------------------------------ the model

  datatype Reply = Down | Unparsable | Parsed(rec: Recommendation, intact: bool)

  datatype Talk = Unreachable | Invalid | Verdict(rec: Recommendation, intact: bool)

  /** A broken thesis cannot be held. */
  predicate Acceptable(r: Reply) { r.Parsed? && (r.intact || r.rec != Hold) }

  /** Ask until a reply is acceptable, the server dies, or the tries run out. */
  function Converse(replies: seq<Reply>): Talk {
    if replies == [] then Invalid
    else if replies[0].Down? then Unreachable
    else if Acceptable(replies[0]) then Verdict(replies[0].rec, replies[0].intact)
    else Converse(replies[1..])
  }

  /** A verdict is the first acceptable reply, reached before the server died. */
  lemma {:induction false} VerdictIsFirstAcceptable(replies: seq<Reply>)
    ensures Converse(replies).Verdict? <==>
      exists k :: 0 <= k < |replies| && Acceptable(replies[k]) && forall i :: 0 <= i < k ==> !replies[i].Down?
    ensures Converse(replies).Invalid? <==>
      forall k :: 0 <= k < |replies| ==> !replies[k].Down? && !Acceptable(replies[k])
    ensures Converse(replies).Verdict? ==> Converse(replies).intact || Converse(replies).rec != Hold
    decreases |replies|
  {
    if replies != [] && !replies[0].Down? && !Acceptable(replies[0]) {
      var rest := replies[1..];
      VerdictIsFirstAcceptable(rest);
      if Converse(rest).Verdict? {
        var k :| 0 <= k < |rest| && Acceptable(rest[k]) && forall i :: 0 <= i < k ==> !rest[i].Down?;
        assert forall i :: 0 < i <= k ==> replies[i] == rest[i - 1];
        assert Acceptable(replies[k + 1]) && forall i :: 0 <= i < k + 1 ==> !replies[i].Down?;
      }
      if k :| 0 <= k < |replies| && Acceptable(replies[k]) && forall i :: 0 <= i < k ==> !replies[i].Down? {
        assert rest[k - 1] == replies[k] && forall i :: 0 <= i < k - 1 ==> rest[i] == replies[i + 1];
      }
      if Converse(rest).Invalid? {
        assert forall k :: 0 < k < |replies| ==> replies[k] == rest[k - 1];
      }
      if forall k :: 0 <= k < |replies| ==> !replies[k].Down? && !Acceptable(replies[k]) {
        assert forall k :: 0 <= k < |rest| ==> rest[k] == replies[k + 1];
      }
    }
  }

  // -------------------------------------------------------------- handling

  /** What one routed position meets: the model's replies, one per try, what the
      auto-execute gate says of the verdict, and which positions close meanwhile. */
  datatype Turn = Turn(position: nat, replies: seq<Reply>, execute: bool, closes: set<nat>)

  /** `done` is how many positions the process lives to finish. */
  datatype Delivery = Delivery(signal: nat, revision: nat, stale: bool, ready: bool, turns: seq<Turn>, done: nat)

  predicate Decided(ds: seq<Decision>, signal: nat, revision: nat, position: Option<nat>) {
    exists i :: 0 <= i < |ds| && ds[i].signal == signal && ds[i].revision == revision && ds[i].position == position
  }

  function Journal(w: World, d: Decision): World { w.(decisions := w.decisions + [d]) }

  /** Decision, ledger row and, when gated in and still open, the armed exit: one
      transaction. */
  function Judge(w: World, signal: nat, revision: nat, position: nat, v: Talk, execute: bool): World
    requires v.Verdict?
  {
    var id := |w.decisions|;
    var armed := execute && position in w.open;
    var w1 := Journal(w, Decision(signal, revision, Some(position), Judged(v.rec, v.intact)));
    var w2 := w1.(ledger := w1.ledger + [Ledger(id, position, armed)]);
    if armed then w2.(events := w2.events + [Armed(position, id)], marks := w2.marks[position := id]) else w2
  }

  function TakeTurn(w: World, signal: nat, revision: nat, t: Turn): World {
    var w1 := w.(open := w.open - t.closes);
    if Decided(w.decisions, signal, revision, Some(t.position)) then w1
    else match Converse(t.replies)
      case Unreachable => Journal(w1, Decision(signal, revision, None, AlertOnly))
      case Invalid => Journal(w1, Decision(signal, revision, Some(t.position), Reject))
      case Verdict(rec, intact) => Judge(w1, signal, revision, t.position, Verdict(rec, intact), t.execute)
  }

  function TakeTurns(w: World, signal: nat, revision: nat, ts: seq<Turn>): World {
    if ts == [] then w
    else TakeTurn(TakeTurns(w, signal, revision, ts[..|ts| - 1]), signal, revision, ts[|ts| - 1])
  }

  /** Routed positions that are still open when the message is handled. */
  function Live(open: set<nat>, ts: seq<Turn>): seq<Turn> {
    if ts == [] then []
    else
      var front := Live(open, ts[..|ts| - 1]);
      if ts[|ts| - 1].position in open then front + [ts[|ts| - 1]] else front
  }

  /** A message-level row, unless the message already has one. */
  function NoteMessage(w: World, d: Delivery, a: Action): World {
    if Decided(w.decisions, d.signal, d.revision, None) then w
    else Journal(w, Decision(d.signal, d.revision, None, a))
  }

  function Handle(w: World, d: Delivery): World {
    var live := Live(w.open, d.turns);
    if d.stale then NoteMessage(w, d, Expired)
    else if live == [] then NoteMessage(w, d, NoPosition)
    else if !d.ready then NoteMessage(w, d, AlertOnly)
    else TakeTurns(w, d.signal, d.revision, if d.done < |live| then live[..d.done] else live)
  }

  /** Besides deliveries, positions open and close. */
  datatype Event = Deliver(d: Delivery) | Opens(p: nat) | Closes(p: nat)

  function Apply(w: World, e: Event): World {
    match e
    case Deliver(d) => Handle(w, d)
    case Opens(p) => w.(open := w.open + {p})
    case Closes(p) => w.(open := w.open - {p})
  }

  function Run(es: seq<Event>): World
    decreases |es|
  {
    if es == [] then World([], [], [], map[], {}) else Apply(Run(es[..|es| - 1]), es[|es| - 1])
  }

  // ------------------------------------------------------------- invariant

  /** No two position-level rows for one signal, revision and position. */
  ghost predicate AtMostOnce(ds: seq<Decision>) {
    forall i, j :: 0 <= i < j < |ds| && ds[i].position.Some? ==>
      ds[i].signal != ds[j].signal || ds[i].revision != ds[j].revision || ds[i].position != ds[j].position
  }

  /** The ids of the verdict rows, in order. */
  function Verdicts(ds: seq<Decision>): seq<nat> {
    if ds == [] then []
    else
      var front := Verdicts(ds[..|ds| - 1]);
      if ds[|ds| - 1].action.Judged? then front + [|ds| - 1] else front
  }

  /** The ledger lines that armed an exit, in order. */
  function Exits(ledger: seq<Ledger>): seq<Armed> {
    if ledger == [] then []
    else
      var front := Exits(ledger[..|ledger| - 1]);
      var last := ledger[|ledger| - 1];
      if last.autoExecuted then front + [Armed(last.position, last.decision)] else front
  }

  function LastMarks(events: seq<Armed>): map<nat, nat> {
    if events == [] then map[]
    else LastMarks(events[..|events| - 1])[events[|events| - 1].position := events[|events| - 1].decision]
  }

  /** One ledger line per verdict row, and exits armed exactly by the ledger lines that
      say so. */
  ghost predicate Booked(w: World) {
    && |w.ledger| == |Verdicts(w.decisions)|
    && (forall k :: 0 <= k < |w.ledger| ==>
          && w.ledger[k].decision == Verdicts(w.decisions)[k] < |w.decisions|
          && w.decisions[w.ledger[k].decision].position == Some(w.ledger[k].position))
    && w.events == Exits(w.ledger)
    && w.marks == LastMarks(w.events)
  }

  /** No verdict recommends holding a position whose thesis is broken. */
  ghost predicate Coherent(ds: seq<Decision>) {
    forall i :: 0 <= i < |ds| && ds[i].action.Judged? ==> ds[i].action.intact || ds[i].action.rec != Hold
  }

  predicate MessageRow(d: Decision, signal: nat, revision: nat) {
    d.signal == signal && d.revision == revision && (d.action == Expired || d.action == NoPosition)
  }

  /** A message is written off at most once. */
  ghost predicate WrittenOffOnce(ds: seq<Decision>) {
    forall i, j :: 0 <= i < j < |ds| && MessageRow(ds[j], ds[j].signal, ds[j].revision) && ds[i].position == None ==>
      ds[i].signal != ds[j].signal || ds[i].revision != ds[j].revision
  }

  ghost predicate Sound(w: World) {
    AtMostOnce(w.decisions) && Booked(w) && Coherent(w.decisions) && WrittenOffOnce(w.decisions)
  }

  lemma {:induction false} JournalKeepsSound(w: World, d: Decision)
    requires Sound(w) && !d.action.Judged?
    requires d.position.Some? ==> !Decided(w.decisions, d.signal, d.revision, d.position)
    requires MessageRow(d, d.signal, d.revision) ==> !Decided(w.decisions, d.signal, d.revision, None)
    ensures Sound(Journal(w, d))
  {
    var ds := w.decisions + [d];
    assert ds[..|ds| - 1] == w.decisions;
  }

  lemma {:induction false} JudgeKeepsSound(w: World, signal: nat, revision: nat, position: nat, v: Talk, execute: bool)
    requires Sound(w) && v.Verdict? && (v.intact || v.rec != Hold)
    requires !Decided(w.decisions, signal, revision, Some(position))
    ensures Sound(Judge(w, signal, revision, position, v, execute))
  {
    hide Booked, LastMarks, Exits, Verdicts;
    JudgeKeepsBooks(w, signal, revision, position, v, execute);
  }

  lemma {:induction false} JudgeKeepsBooks(w: World, signal: nat, revision: nat, position: nat, v: Talk, execute: bool)
    requires Booked(w) && v.Verdict?
    ensures Booked(Judge(w, signal, revision, position, v, execute))
  {
    var u := Judge(w, signal, revision, position, v, execute);
    assert u.decisions[..|u.decisions| - 1] == w.decisions;
    assert u.ledger[..|u.ledger| - 1] == w.ledger;
    if u.events != w.events {
      assert u.events[..|u.events| - 1] == w.events;
    }
  }

  lemma {:induction false} TurnKeepsSound(w: World, signal: nat, revision: nat, t: Turn)
    requires Sound(w)
    ensures Sound(TakeTurn(w, signal, revision, t))
  {
    hide Converse;
    var w1 := w.(open := w.open - t.closes);
    assert Sound(w1);
    VerdictIsFirstAcceptable(t.replies);
    hide Sound, Decided, Judge, Journal;
    if !Decided(w.decisions, signal, revision, Some(t.position)) {
      match Converse(t.replies)
      case Unreachable => JournalKeepsSound(w1, Decision(signal, revision, None, AlertOnly));
      case Invalid => JournalKeepsSound(w1, Decision(signal, revision, Some(t.position), Reject));
      case Verdict(rec, intact) => JudgeKeepsSound(w1, signal, revision, t.position, Verdict(rec, intact), t.execute);
    }
  }

  lemma {:induction false} TurnsKeepSound(w: World, signal: nat, revision: nat, ts: seq<Turn>)
    requires Sound(w)
    ensures Sound(TakeTurns(w, signal, revision, ts))
    decreases |ts|
  {
    hide Sound, TakeTurn;
    if ts != [] {
      TurnsKeepSound(w, signal, revision, ts[..|ts| - 1]);
      TurnKeepsSound(TakeTurns(w, signal, revision, ts[..|ts| - 1]), signal, revision, ts[|ts| - 1]);
    }
  }

  lemma {:induction false} NoteKeepsSound(w: World, d: Delivery, a: Action)
    requires Sound(w) && !a.Judged?
    ensures Sound(NoteMessage(w, d, a))
  {
    if !Decided(w.decisions, d.signal, d.revision, None) {
      JournalKeepsSound(w, Decision(d.signal, d.revision, None, a));
    }
  }

  /** Whatever is delivered, cut and redelivered: one position-level row per signal,
      revision and position, one ledger line per verdict, and no armed exit without its
      ledger line. */
  lemma {:induction false} RunStaysSound(es: seq<Event>)
    ensures Sound(Run(es))
    decreases |es|
  {
    if es != [] {
      var w, e := Run(es[..|es| - 1]), es[|es| - 1];
      RunStaysSound(es[..|es| - 1]);
      if e.Deliver? {
        var live := Live(w.open, e.d.turns);
        NoteKeepsSound(w, e.d, Expired);
        NoteKeepsSound(w, e.d, NoPosition);
        NoteKeepsSound(w, e.d, AlertOnly);
        TurnsKeepSound(w, e.d.signal, e.d.revision, if e.d.done < |live| then live[..e.d.done] else live);
      }
    }
  }

  // --------------------------------------------------------- consequences

  function Rows(ds: seq<Decision>, signal: nat, revision: nat, position: Option<nat>): nat {
    if ds == [] then 0
    else
      var last := ds[|ds| - 1];
      Rows(ds[..|ds| - 1], signal, revision, position)
      + if last.signal == signal && last.revision == revision && last.position == position then 1 else 0
  }

  lemma {:induction false} RowsWhenOnce(ds: seq<Decision>, signal: nat, revision: nat, position: nat)
    requires AtMostOnce(ds)
    ensures Rows(ds, signal, revision, Some(position)) == if Decided(ds, signal, revision, Some(position)) then 1 else 0
    decreases |ds|
  {
    if ds != [] {
      var front := ds[..|ds| - 1];
      RowsWhenOnce(front, signal, revision, position);
      if Decided(front, signal, revision, Some(position)) {
        var i :| 0 <= i < |front| && front[i].signal == signal && front[i].revision == revision
                 && front[i].position == Some(position);
        assert ds[i] == front[i];
      }
    }
  }

  lemma {:induction false} TurnsDecide(w: World, signal: nat, revision: nat, ts: seq<Turn>, i: nat)
    requires i < |ts| && !Converse(ts[i].replies).Unreachable?
    ensures Decided(TakeTurns(w, signal, revision, ts).decisions, signal, revision, Some(ts[i].position))
    decreases |ts|
  {
    hide Converse, Decided;
    var front, t := ts[..|ts| - 1], ts[|ts| - 1];
    var u := TakeTurns(w, signal, revision, front);
    if i < |front| {
      TurnsDecide(w, signal, revision, front, i);
      TurnKeepsRows(u, signal, revision, t, ts[i].position);
    } else {
      TurnDecides(u, signal, revision, t);
    }
  }

  lemma {:induction false} TurnDecides(w: World, signal: nat, revision: nat, t: Turn)
    requires !Converse(t.replies).Unreachable?
    ensures Decided(TakeTurn(w, signal, revision, t).decisions, signal, revision, Some(t.position))
  {
    hide Converse;
    var ds := TakeTurn(w, signal, revision, t).decisions;
    if !Decided(w.decisions, signal, revision, Some(t.position)) {
      assert ds[|w.decisions|].position == Some(t.position);
    }
  }

  lemma {:induction false} TurnKeepsRows(w: World, signal: nat, revision: nat, t: Turn, p: nat)
    requires Decided(w.decisions, signal, revision, Some(p))
    ensures Decided(TakeTurn(w, signal, revision, t).decisions, signal, revision, Some(p))
  {
    hide Converse;
    var ds := TakeTurn(w, signal, revision, t).decisions;
    var i :| 0 <= i < |w.decisions| && w.decisions[i].signal == signal && w.decisions[i].revision == revision
             && w.decisions[i].position == Some(p);
    assert ds[i] == w.decisions[i];
  }

  /** After any history, a delivery that runs to its end with the model reachable leaves
      exactly one row for each position still open, however often it came before. */
  lemma {:induction false} FinishedDeliveryDecidesOnce(es: seq<Event>, d: Delivery, i: nat)
    requires var live := Live(Run(es).open, d.turns);
      !d.stale && d.ready && |live| <= d.done && i < |live| && !Converse(live[i].replies).Unreachable?
    ensures var p := Live(Run(es).open, d.turns)[i].position;
      Rows(Handle(Run(es), d).decisions, d.signal, d.revision, Some(p)) == 1
  {
    var w := Run(es);
    var live := Live(w.open, d.turns);
    assert Run(es + [Deliver(d)]) == Handle(w, d) by {
      assert (es + [Deliver(d)])[..|es|] == es;
    }
    RunStaysSound(es + [Deliver(d)]);
    TurnsDecide(w, d.signal, d.revision, live, i);
    RowsWhenOnce(Handle(w, d).decisions, d.signal, d.revision, live[i].position);
  }

  // ------------------------------------------------- message-level rows

  /** The turn that journals an alert: the server dies on a position not yet decided. */
  predicate Alerting(ds: seq<Decision>, signal: nat, revision: nat, t: Turn) {
    Converse(t.replies).Unreachable? && !Decided(ds, signal, revision, Some(t.position))
  }

  /** Exactly when: a turn adds a message-level row if and only if it is an alerting one, and
      then the position stays undecided, so a later delivery can still judge it. */
  lemma {:induction false} TurnAlertsIff(w: World, signal: nat, revision: nat, t: Turn)
    ensures var u := TakeTurn(w, signal, revision, t);
      && Rows(u.decisions, signal, revision, None)
         == Rows(w.decisions, signal, revision, None) + (if Alerting(w.decisions, signal, revision, t) then 1 else 0)
      && (Alerting(w.decisions, signal, revision, t) ==> !Decided(u.decisions, signal, revision, Some(t.position)))
  {
    hide Converse;
    var ds := TakeTurn(w, signal, revision, t).decisions;
    if ds != w.decisions {
      assert ds[..|ds| - 1] == w.decisions;
    }
  }

  /** A turn adds at most one row, of its own message and about its own position or none. */
  lemma {:induction false} TurnRow(w: World, signal: nat, revision: nat, t: Turn)
    ensures var ds := TakeTurn(w, signal, revision, t).decisions;
      ds == w.decisions
      || (ds != [] && ds == w.decisions + [ds[|ds| - 1]]
          && ds[|ds| - 1].signal == signal && ds[|ds| - 1].revision == revision
          && (ds[|ds| - 1].position == None || ds[|ds| - 1].position == Some(t.position)))
  {
    hide Converse;
  }

  lemma {:induction false} OtherRow(ds: seq<Decision>, row: Decision, s: nat, r: nat, p: Option<nat>)
    requires row.signal != s || row.revision != r || row.position != p
    ensures Rows(ds + [row], s, r, p) == Rows(ds, s, r, p)
    ensures Decided(ds + [row], s, r, p) <==> Decided(ds, s, r, p)
  {
    assert (ds + [row])[..|ds|] == ds;
    if Decided(ds, s, r, p) {
      var i :| 0 <= i < |ds| && ds[i].signal == s && ds[i].revision == r && ds[i].position == p;
      assert (ds + [row])[i] == ds[i];
    }
  }

  lemma {:induction false} TurnElsewhere(w: World, signal: nat, revision: nat, t: Turn, s: nat, r: nat, p: Option<nat>)
    requires s != signal || r != revision || (p.Some? && p != Some(t.position))
    ensures var ds := TakeTurn(w, signal, revision, t).decisions;
      && Rows(ds, s, r, p) == Rows(w.decisions, s, r, p)
      && (Decided(ds, s, r, p) <==> Decided(w.decisions, s, r, p))
  {
    hide TakeTurn, Rows, Decided;
    var ds := TakeTurn(w, signal, revision, t).decisions;
    TurnRow(w, signal, revision, t);
    if ds != w.decisions {
      OtherRow(w.decisions, ds[|ds| - 1], s, r, p);
    }
  }

  /** open_positions returns each position once. */
  ghost predicate DistinctPositions(ts: seq<Turn>) {
    forall i, j :: 0 <= i < j < |ts| ==> ts[i].position != ts[j].position
  }

  /** How many of the turns alert, judged by the table before the first of them. */
  function AlertingTurns(ds: seq<Decision>, signal: nat, revision: nat, ts: seq<Turn>): nat {
    if ts == [] then 0
    else AlertingTurns(ds, signal, revision, ts[..|ts| - 1]) + if Alerting(ds, signal, revision, ts[|ts| - 1]) then 1 else 0
  }

  lemma {:induction false} TurnsElsewhere(w: World, signal: nat, revision: nat, ts: seq<Turn>, s: nat, r: nat, p: Option<nat>)
    requires s != signal || r != revision || (p.Some? && forall i :: 0 <= i < |ts| ==> p != Some(ts[i].position))
    ensures var ds := TakeTurns(w, signal, revision, ts).decisions;
      && Rows(ds, s, r, p) == Rows(w.decisions, s, r, p)
      && (Decided(ds, s, r, p) <==> Decided(w.decisions, s, r, p))
    decreases |ts|
  {
    hide TakeTurn, Rows, Decided;
    if ts != [] {
      var front := ts[..|ts| - 1];
      TurnsElsewhere(w, signal, revision, front, s, r, p);
      TurnElsewhere(TakeTurns(w, signal, revision, front), signal, revision, ts[|ts| - 1], s, r, p);
    }
  }

  lemma {:induction false} TurnsAlert(w: World, signal: nat, revision: nat, ts: seq<Turn>)
    requires DistinctPositions(ts)
    ensures Rows(TakeTurns(w, signal, revision, ts).decisions, signal, revision, None)
         == Rows(w.decisions, signal, revision, None) + AlertingTurns(w.decisions, signal, revision, ts)
    decreases |ts|
  {
    hide TakeTurn, Rows, Decided, Converse;
    if ts != [] {
      var front, t := ts[..|ts| - 1], ts[|ts| - 1];
      TurnsAlert(w, signal, revision, front);
      TurnsElsewhere(w, signal, revision, front, signal, revision, Some(t.position));
      TurnAlertsIff(TakeTurns(w, signal, revision, front), signal, revision, t);
    }
  }

  lemma {:induction false} LiveIsDistinct(open: set<nat>, ts: seq<Turn>)
    requires DistinctPositions(ts)
    ensures DistinctPositions(Live(open, ts))
    ensures forall i :: 0 <= i < |Live(open, ts)| ==> exists k :: 0 <= k < |ts| && ts[k] == Live(open, ts)[i]
    decreases |ts|
  {
    if ts != [] {
      var front, last := ts[..|ts| - 1], ts[|ts| - 1];
      LiveIsDistinct(open, front);
      var live := Live(open, front);
      forall i | 0 <= i < |live|
        ensures live[i].position != last.position && exists k :: 0 <= k < |ts| && ts[k] == live[i]
      {
        var k :| 0 <= k < |front| && front[k] == live[i];
        assert ts[k] == live[i];
      }
      assert ts[|ts| - 1] == last;
    }
  }

  /** The positions a delivery gets to. */
  function Reached(w: World, d: Delivery): seq<Turn> {
    var live := Live(w.open, d.turns);
    if d.done < |live| then live[..d.done] else live
  }

  /** Message-level rows a delivery adds: one for a message written off for the first time,
      else one for each alerting turn. */
  function RowsAdded(w: World, d: Delivery): nat {
    if d.stale || !d.ready || Live(w.open, d.turns) == [] then
      if Decided(w.decisions, d.signal, d.revision, None) then 0 else 1
    else AlertingTurns(w.decisions, d.signal, d.revision, Reached(w, d))
  }

  lemma {:induction false} DeliveryAddsRows(w: World, d: Delivery, s: nat, r: nat)
    requires DistinctPositions(d.turns)
    ensures Rows(Handle(w, d).decisions, s, r, None)
         == Rows(w.decisions, s, r, None) + if d.signal == s && d.revision == r then RowsAdded(w, d) else 0
  {
    var ts := Reached(w, d);
    LiveIsDistinct(w.open, d.turns);
    if d.signal == s && d.revision == r {
      TurnsAlert(w, s, r, ts);
    } else {
      TurnsElsewhere(w, d.signal, d.revision, ts, s, r, None);
    }
    hide TakeTurns, AlertingTurns, Live;
    var u := Handle(w, d);
    if |u.decisions| == |w.decisions| + 1 && u.decisions[..|w.decisions|] == w.decisions {
      assert u.decisions[..|u.decisions| - 1] == w.decisions;
    }
  }

  function RunRows(es: seq<Event>, s: nat, r: nat): nat {
    if es == [] then 0
    else
      var front, e := es[..|es| - 1], es[|es| - 1];
      RunRows(front, s, r)
      + if e.Deliver? && e.d.signal == s && e.d.revision == r then RowsAdded(Run(front), e.d) else 0
  }

  ghost predicate AllDistinct(es: seq<Event>) {
    forall i :: 0 <= i < |es| && es[i].Deliver? ==> DistinctPositions(es[i].d.turns)
  }

  /** Over any run the message-level rows of a message are exactly its alerting turns, over
      all its deliveries, and its one writing off if it was written off first. */
  lemma {:induction false} RunCountsAlerts(es: seq<Event>, s: nat, r: nat)
    requires AllDistinct(es)
    ensures Rows(Run(es).decisions, s, r, None) == RunRows(es, s, r)
    decreases |es|
  {
    hide Handle, RowsAdded;
    if es != [] {
      var front, e := es[..|es| - 1], es[|es| - 1];
      RunCountsAlerts(front, s, r);
      if e.Deliver? {
        DeliveryAddsRows(Run(front), e.d, s, r);
      }
    }
  }

  /** The server answered in every conversation about the message. */
  ghost predicate AlwaysReached(es: seq<Event>, s: nat, r: nat) {
    forall i :: 0 <= i < |es| && es[i].Deliver? && es[i].d.signal == s && es[i].d.revision == r ==>
      forall k :: 0 <= k < |es[i].d.turns| ==> !Converse(es[i].d.turns[k].replies).Unreachable?
  }

  lemma {:induction false} NoneAlerting(ds: seq<Decision>, s: nat, r: nat, ts: seq<Turn>)
    requires forall k :: 0 <= k < |ts| ==> !Converse(ts[k].replies).Unreachable?
    ensures AlertingTurns(ds, s, r, ts) == 0
    decreases |ts|
  {
    hide Converse;
    if ts != [] {
      NoneAlerting(ds, s, r, ts[..|ts| - 1]);
    }
  }

  /** Without a dead server a message gets at most one message-level row, however often it is
      delivered. */
  lemma {:induction false} ReachedMeansOneRow(es: seq<Event>, s: nat, r: nat)
    requires AllDistinct(es) && AlwaysReached(es, s, r)
    ensures Rows(Run(es).decisions, s, r, None) <= 1
    decreases |es|
  {
    hide Handle, Converse;
    if es != [] {
      hide Rows;
      var front, e := es[..|es| - 1], es[|es| - 1];
      ReachedMeansOneRow(front, s, r);
      if e.Deliver? {
        var w := Run(front);
        DeliveryAddsRows(w, e.d, s, r);
        NoneCounts(w.decisions, s, r);
        if e.d.signal == s && e.d.revision == r {
          LiveIsDistinct(w.open, e.d.turns);
          NoneAlerting(w.decisions, s, r, Reached(w, e.d));
        }
      }
    }
  }

  /** Every guard_exit mark is the decision of an auto-executed ledger line for that very
      position, and every such line left its position marked. */
  lemma {:induction false} MarksAreBooked(es: seq<Event>, p: nat)
    ensures var w := Run(es);
      p in w.marks <==> exists k :: 0 <= k < |w.ledger| && w.ledger[k].position == p && w.ledger[k].autoExecuted
    ensures var w := Run(es);
      p in w.marks ==> exists k :: 0 <= k < |w.ledger| && w.ledger[k] == Ledger(w.marks[p], p, true)
  {
    RunStaysSound(es);
    LastMarkOf(Run(es).ledger, p);
  }

  lemma {:induction false} LastMarkOf(ledger: seq<Ledger>, p: nat)
    ensures var marks := LastMarks(Exits(ledger));
      && (p in marks <==> exists k :: 0 <= k < |ledger| && ledger[k].position == p && ledger[k].autoExecuted)
      && (p in marks ==> exists k :: 0 <= k < |ledger| && ledger[k] == Ledger(marks[p], p, true))
    decreases |ledger|
  {
    if ledger != [] {
      var front, last := ledger[..|ledger| - 1], ledger[|ledger| - 1];
      LastMarkOf(front, p);
      var events := Exits(ledger);
      if last.autoExecuted {
        assert events[..|events| - 1] == Exits(front);
      }
      var marks := LastMarks(Exits(front));
      if p in marks {
        var k :| 0 <= k < |front| && front[k] == Ledger(marks[p], p, true);
        assert ledger[k] == front[k];
      }
      assert ledger[|ledger| - 1] == last;
      assert forall k :: 0 <= k < |front| ==> ledger[k] == front[k];
    }
  }

  /** Old news, closed positions and a sleeping server judge nothing: the message gets its
      one message-level row and every other table stays as it was. */
  lemma {:induction false} WrittenOffUnjudged(w: World, d: Delivery)
    requires d.stale || !d.ready || Live(w.open, d.turns) == []
    ensures var u := Handle(w, d);
      && u == w.(decisions := u.decisions)
      && w.decisions <= u.decisions && |u.decisions| <= |w.decisions| + 1
      && Rows(u.decisions, d.signal, d.revision, None) >= 1
      && (Rows(w.decisions, d.signal, d.revision, None) >= 1 ==> u == w)
  {
    NoneCounts(w.decisions, d.signal, d.revision);
    var u := Handle(w, d);
    if u != w {
      assert u.decisions[..|u.decisions| - 1] == w.decisions;
    }
  }

  lemma {:induction false} NoneCounts(ds: seq<Decision>, signal: nat, revision: nat)
    ensures Rows(ds, signal, revision, None) >= 1 <==> Decided(ds, signal, revision, None)
    decreases |ds|
  {
    if ds != [] {
      var front := ds[..|ds| - 1];
      NoneCounts(front, signal, revision);
      if Decided(front, signal, revision, None) {
        var i :| 0 <= i < |front| && front[i].signal == signal && front[i].revision == revision
                 && front[i].position == None;
        assert ds[i] == front[i];
      }
    }
  }
}
