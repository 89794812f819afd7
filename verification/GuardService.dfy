/** The guard's message handler over the tables it writes. */
module GuardService {
  import opened Guard
  import opened Options

  class Service {
    var decisions: seq<Decision>
    var ledger: seq<Ledger>
    var events: seq<Armed>
    var marks: map<nat, nat>
    var open: set<nat>

    constructor (positions: set<nat>)
      ensures Tables() == World([], [], [], map[], positions)
    {
      decisions, ledger, events, marks, open := [], [], [], map[], positions;
    }

    function Tables(): World
      reads this
    {
      World(decisions, ledger, events, marks, open)
    }

    method ExistingDecision(signal: nat, revision: nat, position: Option<nat>) returns (found: bool)
      ensures found == Decided(decisions, signal, revision, position)
    {
      for i := 0 to |decisions|
        invariant !Decided(decisions[..i], signal, revision, position)
      {
        var d := decisions[i];
        if d.signal == signal && d.revision == revision && d.position == position {
          return true;
        }
      }
      assert decisions[..|decisions|] == decisions;
      return false;
    }

    /** Mark the position for the exit engine; false when it has closed meanwhile. */
    method ArmGuardExit(position: nat, decision: nat) returns (armed: bool)
      modifies this`marks, this`events
      ensures armed == (position in open)
      ensures marks == if armed then old(marks)[position := decision] else old(marks)
      ensures events == if armed then old(events) + [Armed(position, decision)] else old(events)
    {
      armed := position in open;
      if armed {
        marks := marks[position := decision];
        events := events + [Armed(position, decision)];
      }
    }

    /** Ask up to |replies| times. */
    method Ask(replies: seq<Reply>) returns (talk: Talk)
      ensures talk == Converse(replies)
    {
      var k := 0;
      while k < |replies|
        invariant 0 <= k <= |replies|
        invariant Converse(replies) == Converse(replies[k..])
      {
        var r := replies[k];
        if r.Down? {
          return Unreachable;
        }
        if Acceptable(r) {
          return Verdict(r.rec, r.intact);
        }
        k := k + 1;
      }
      return Invalid;
    }

    method JudgePosition(signal: nat, revision: nat, t: Turn)
      modifies this
      ensures Tables() == TakeTurn(old(Tables()), signal, revision, t)
    {
      var decided := ExistingDecision(signal, revision, Some(t.position));
      open := open - t.closes;
      if decided {
        return;
      }
      var talk := Ask(t.replies);
      match talk {
        case Unreachable =>
          decisions := decisions + [Decision(signal, revision, None, AlertOnly)];
        case Invalid =>
          decisions := decisions + [Decision(signal, revision, Some(t.position), Reject)];
        case Verdict(rec, intact) =>
          var id := |decisions|;
          decisions := decisions + [Decision(signal, revision, Some(t.position), Judged(rec, intact))];
          var armed := false;
          if t.execute {
            armed := ArmGuardExit(t.position, id);
          }
          ledger := ledger + [Ledger(id, t.position, armed)];
      }
    }

    method WriteOff(d: Delivery, a: Action)
      modifies this`decisions
      ensures Tables() == NoteMessage(old(Tables()), d, a)
    {
      var found := ExistingDecision(d.signal, d.revision, None);
      if !found {
        decisions := decisions + [Decision(d.signal, d.revision, None, a)];
      }
    }

    /** The whole handler, up to the position at which the process dies. */
    method HandleMessage(d: Delivery)
      modifies this
      ensures Tables() == Handle(old(Tables()), d)
    {
      if d.stale {
        WriteOff(d, Expired);
        return;
      }
      var live: seq<Turn> := [];
      for i := 0 to |d.turns|
        invariant live == Live(open, d.turns[..i])
      {
        assert d.turns[..i + 1][..i] == d.turns[..i];
        if d.turns[i].position in open {
          live := live + [d.turns[i]];
        }
      }
      assert d.turns[..|d.turns|] == d.turns;
      if live == [] {
        WriteOff(d, NoPosition);
        return;
      }
      if !d.ready {
        WriteOff(d, AlertOnly);
        return;
      }
      ghost var start := Tables();
      var i := 0;
      while i < |live| && i < d.done
        invariant 0 <= i <= |live| && i <= d.done
        invariant Tables() == TakeTurns(start, d.signal, d.revision, live[..i])
      {
        assert live[..i + 1][..i] == live[..i];
        JudgePosition(d.signal, d.revision, live[i]);
        i := i + 1;
      }
      assert live[..|live|] == live;
    }
  }
}
