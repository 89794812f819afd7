/** When the guard arms an exit, and what each of its rows records, said of the replies, the
    gate and the open positions. */
module GuardExits {
  import opened Guard
  import opened Options

  /** Reply k is acceptable: it parses, and does not hold a position on a broken thesis. */
  predicate Usable(r: Reply) { r.Parsed? && !(r.rec == Hold && !r.intact) }

  /** Reply k is usable and comes before the server died and before any other usable one. */
  predicate FirstUsable(replies: seq<Reply>, k: int) {
    && 0 <= k < |replies| && Usable(replies[k])
    && forall i :: 0 <= i < k ==> !replies[i].Down? && !Usable(replies[i])
  }

  /** A conversation ends with that very reply. */
  lemma {:induction false} VerdictIsReply(replies: seq<Reply>)
    ensures Converse(replies).Verdict? <==> exists k :: FirstUsable(replies, k)
    ensures forall k :: FirstUsable(replies, k) ==>
      Converse(replies) == Verdict(replies[k].rec, replies[k].intact)
    decreases |replies|
  {
    if replies != [] && !replies[0].Down? && !Usable(replies[0]) {
      var rest := replies[1..];
      VerdictIsReply(rest);
      forall k | 0 < k < |replies| ensures FirstUsable(replies, k) <==> FirstUsable(rest, k - 1) {
        assert forall i :: 0 < i < |replies| ==> replies[i] == rest[i - 1];
      }
      if k :| FirstUsable(rest, k) {
        assert FirstUsable(replies, k + 1);
      }
    } else if replies != [] && Usable(replies[0]) {
      assert FirstUsable(replies, 0);
    }
  }

  /** The turn arms an exit: the position is undecided, a usable reply came, the gate says
      execute and the position is still open after the conversation. */
  ghost predicate Fires(w: World, signal: nat, revision: nat, t: Turn) {
    && !Decided(w.decisions, signal, revision, Some(t.position)) && (exists k :: FirstUsable(t.replies, k))
    && t.execute && t.position in w.open && t.position !in t.closes
  }

  /** Exactly when a turn arms an exit, and what else it writes: a verdict row with its ledger
      line, a REJECT, or an alert. */
  lemma {:induction false} TurnArmsIff(w: World, signal: nat, revision: nat, t: Turn)
    ensures var u, id := TakeTurn(w, signal, revision, t), |w.decisions|;
      && u.open == w.open - t.closes
      && u.events == (if Fires(w, signal, revision, t) then w.events + [Armed(t.position, id)] else w.events)
      && u.marks == if Fires(w, signal, revision, t) then w.marks[t.position := id] else w.marks
    ensures var u, id := TakeTurn(w, signal, revision, t), |w.decisions|;
      var decided := Decided(w.decisions, signal, revision, Some(t.position));
      && (decided ==> u.decisions == w.decisions && u.ledger == w.ledger)
      && (forall k :: !decided && FirstUsable(t.replies, k) ==>
            && u.decisions == w.decisions + [Decision(signal, revision, Some(t.position),
                                                      Judged(t.replies[k].rec, t.replies[k].intact))]
            && u.ledger == w.ledger + [Ledger(id, t.position, Fires(w, signal, revision, t))])
      && (!decided && !(exists k :: FirstUsable(t.replies, k)) ==>
            && u.ledger == w.ledger
            && u.decisions == w.decisions + [if AnyDown(t.replies) then Decision(signal, revision, None, AlertOnly)
                                             else Decision(signal, revision, Some(t.position), Reject)])
  {
    VerdictIsReply(t.replies);
    DownIsUnreachable(t.replies);
    hide Converse, Decided, FirstUsable;
  }

  predicate AnyDown(replies: seq<Reply>) { exists k :: 0 <= k < |replies| && replies[k].Down? }

  lemma {:induction false} DownIsUnreachable(replies: seq<Reply>)
    ensures !(exists k :: FirstUsable(replies, k)) ==>
      Converse(replies) == if AnyDown(replies) then Unreachable else Invalid
  {
    VerdictIsReply(replies);
    VerdictIsFirstAcceptable(replies);
    if Converse(replies).Unreachable? {
      UnreachableHasDown(replies);
    }
    hide Converse, FirstUsable;
  }

  lemma {:induction false} UnreachableHasDown(replies: seq<Reply>)
    requires Converse(replies).Unreachable?
    ensures AnyDown(replies)
    decreases |replies|
  {
    if !replies[0].Down? {
      UnreachableHasDown(replies[1..]);
      var k :| 0 <= k < |replies[1..]| && replies[1..][k].Down?;
      assert replies[k + 1].Down?;
    }
  }

  // ----------------------------------------------------------- deliveries

  /** The exits a row of turns arms, each with the id of its verdict row. */
  ghost function Armings(w: World, signal: nat, revision: nat, ts: seq<Turn>): seq<Armed> {
    if ts == [] then []
    else
      var front, t := ts[..|ts| - 1], ts[|ts| - 1];
      var v := TakeTurns(w, signal, revision, front);
      Armings(w, signal, revision, front)
      + if Fires(v, signal, revision, t) then [Armed(t.position, |v.decisions|)] else []
  }

  lemma {:induction false} TurnsArm(w: World, signal: nat, revision: nat, ts: seq<Turn>)
    ensures TakeTurns(w, signal, revision, ts).events == w.events + Armings(w, signal, revision, ts)
    decreases |ts|
  {
    hide TakeTurn, Fires;
    if ts == [] {
      assert w.events + [] == w.events;
    } else {
      var front := ts[..|ts| - 1];
      TurnsArm(w, signal, revision, front);
      TurnArmsIff(TakeTurns(w, signal, revision, front), signal, revision, ts[|ts| - 1]);
    }
  }

  /** The open ones of the routed positions, in order. */
  lemma {:induction false} LiveIs(open: set<nat>, ts: seq<Turn>)
    ensures forall t :: t in Live(open, ts) <==> t in ts && t.position in open
    decreases |ts|
  {
    if ts != [] {
      LiveIs(open, ts[..|ts| - 1]);
      assert ts == ts[..|ts| - 1] + [ts[|ts| - 1]];
    }
  }

  /** What a delivery gets to judge: nothing when it is old, the server sleeps or no routed
      position is open; else its first open positions, as many as it lives for. */
  function Faced(w: World, d: Delivery): seq<Turn> { if d.stale || !d.ready then [] else Reached(w, d) }

  /** Over any run the armed exits are exactly those of the turns that fire, in turn. */
  ghost function RunArmings(es: seq<Event>): seq<Armed>
    decreases |es|
  {
    if es == [] then []
    else
      var front, e := es[..|es| - 1], es[|es| - 1];
      RunArmings(front)
      + if e.Deliver? then Armings(Run(front), e.d.signal, e.d.revision, Faced(Run(front), e.d)) else []
  }

  lemma {:induction false} HandleArms(w: World, d: Delivery)
    ensures Handle(w, d).events == w.events + Armings(w, d.signal, d.revision, Faced(w, d))
  {
    TurnsArm(w, d.signal, d.revision, Reached(w, d));
    hide TakeTurns, Fires;
    assert w.events + [] == w.events;
  }

  lemma {:induction false} RunArmsExactly(es: seq<Event>)
    ensures Run(es).events == RunArmings(es)
    decreases |es|
  {
    hide Handle, Armings, Faced;
    if es != [] {
      var front, e := es[..|es| - 1], es[|es| - 1];
      RunArmsExactly(front);
      if e.Deliver? {
        HandleArms(Run(front), e.d);
      } else {
        assert RunArmings(front) + [] == RunArmings(front);
      }
    }
  }

  /** A gate that never says execute arms nothing, whatever the replies recommend. */
  lemma {:induction false} ClosedGateArmsNothing(w: World, d: Delivery)
    requires forall i :: 0 <= i < |d.turns| ==> !d.turns[i].execute
    ensures Handle(w, d).events == w.events && Handle(w, d).marks == w.marks
    ensures forall k :: |w.ledger| <= k < |Handle(w, d).ledger| ==> !Handle(w, d).ledger[k].autoExecuted
  {
    var ts := Reached(w, d);
    LiveIs(w.open, d.turns);
    forall i | 0 <= i < |ts| ensures !ts[i].execute {
      assert ts[i] in Live(w.open, d.turns);
      var k :| 0 <= k < |d.turns| && d.turns[k] == ts[i];
    }
    ClosedTurns(w, d.signal, d.revision, ts);
    hide TakeTurns, Live;
  }

  lemma {:induction false} ClosedTurns(w: World, signal: nat, revision: nat, ts: seq<Turn>)
    requires forall i :: 0 <= i < |ts| ==> !ts[i].execute
    ensures var u := TakeTurns(w, signal, revision, ts);
      && u.events == w.events && u.marks == w.marks && w.ledger <= u.ledger
      && forall k :: |w.ledger| <= k < |u.ledger| ==> !u.ledger[k].autoExecuted
    decreases |ts|
  {
    if ts != [] {
      var front, t := ts[..|ts| - 1], ts[|ts| - 1];
      ClosedTurns(w, signal, revision, front);
      var v := TakeTurns(w, signal, revision, front);
      TurnArmsIff(v, signal, revision, t);
      ClosedTurn(v, signal, revision, t);
      hide TakeTurn, Fires, Decided, FirstUsable;
    }
  }

  lemma {:induction false} ClosedTurn(w: World, signal: nat, revision: nat, t: Turn)
    requires !t.execute
    ensures var u := TakeTurn(w, signal, revision, t);
      u.ledger == w.ledger || (|u.ledger| == |w.ledger| + 1 && w.ledger <= u.ledger && !u.ledger[|w.ledger|].autoExecuted)
  {
    hide Converse, Decided;
  }

  /** Which message-level row a delivery leaves: EXPIRED when it is old, else NO_POSITION when
      no routed position is open, else ALERT_ONLY when the server sleeps; none of them when the
      message has one already. */
  lemma {:induction false} MessageRowSays(w: World, d: Delivery)
    ensures var open := exists t :: t in d.turns && t.position in w.open;
      var has := exists i :: 0 <= i < |w.decisions| && w.decisions[i].signal == d.signal
                             && w.decisions[i].revision == d.revision && w.decisions[i].position == None;
      d.stale || !open || !d.ready ==>
        Handle(w, d).decisions == w.decisions +
          if has then []
          else [Decision(d.signal, d.revision, None, if d.stale then Expired else if !open then NoPosition else AlertOnly)]
  {
    LiveIs(w.open, d.turns);
    var live := Live(w.open, d.turns);
    assert live != [] ==> live[0] in live;
    hide Live, TakeTurns;
    assert w.decisions + [] == w.decisions;
  }
}
