/** The thesis table and its evidence log. */
module ThesisStore {
  import opened Options

  datatype Status = Active | Expired | Invalidated | Realized

  datatype Thesis = Thesis(status: Status, confidence: real, evidenceCount: nat, lastEvidence: Option<int>)

  datatype Evidence = Evidence(thesis: nat, item: nat, revision: nat)

  /** `next` is the id sequence: code mints ids, never the model. */
  datatype Tables = Tables(theses: map<nat, Thesis>, log: seq<Evidence>, next: nat)

  datatype Op =
    | Create(confidence: real)
    | AddEvidence(e: Evidence, ts: int)
    | SetStatus(thesis: nat, status: Status)
    | SetConfidence(thesis: nat, confidence: real)

  predicate Logged(log: seq<Evidence>, e: Evidence) { exists i :: 0 <= i < |log| && log[i] == e }

  /** Evidence needs its thesis (foreign key) and is logged once per item revision; status
      and confidence move only while the thesis is ACTIVE. */
  function Apply(t: Tables, op: Op): Tables {
    match op
    case Create(confidence) =>
      Tables(t.theses[t.next := Thesis(Active, confidence, 0, None)], t.log, t.next + 1)
    case AddEvidence(e, ts) =>
      if e.thesis !in t.theses || Logged(t.log, e) then t
      else
        var th := t.theses[e.thesis];
        t.(theses := t.theses[e.thesis := th.(evidenceCount := th.evidenceCount + 1, lastEvidence := Some(ts))],
           log := t.log + [e])
    case SetStatus(id, status) =>
      if id in t.theses && t.theses[id].status == Active then t.(theses := t.theses[id := t.theses[id].(status := status)])
      else t
    case SetConfidence(id, confidence) =>
      if id in t.theses && t.theses[id].status == Active then
        t.(theses := t.theses[id := t.theses[id].(confidence := confidence)])
      else t
  }

  function ApplyAll(t: Tables, ops: seq<Op>): Tables {
    if ops == [] then t else Apply(ApplyAll(t, ops[..|ops| - 1]), ops[|ops| - 1])
  }

  lemma {:induction false} TwoOps(t: Tables, ops: seq<Op>, a: Op, b: Op)
    ensures ApplyAll(t, ops + [a, b]) == Apply(Apply(ApplyAll(t, ops), a), b)
  {
    assert (ops + [a, b])[..|ops| + 1] == ops + [a];
    assert (ops + [a])[..|ops|] == ops;
  }

  lemma {:induction false} InTurn(t: Tables, a: seq<Op>, b: seq<Op>)
    ensures ApplyAll(t, a + b) == ApplyAll(ApplyAll(t, a), b)
    decreases |b|
  {
    hide Apply;
    if b == [] {
      assert a + b == a;
    } else {
      assert (a + b)[..|a + b| - 1] == a + b[..|b| - 1];
      InTurn(t, a, b[..|b| - 1]);
    }
  }

  function RowsFor(log: seq<Evidence>, thesis: nat): nat {
    if log == [] then 0 else RowsFor(log[..|log| - 1], thesis) + if log[|log| - 1].thesis == thesis then 1 else 0
  }

  /** The count is the number of log rows, each of them a different item revision. */
  ghost predicate Counted(t: Tables) {
    && (forall id :: id in t.theses ==> id < t.next && t.theses[id].evidenceCount == RowsFor(t.log, id))
    && (forall i, j :: 0 <= i < j < |t.log| ==> t.log[i] != t.log[j])
    && (forall i :: 0 <= i < |t.log| ==> t.log[i].thesis in t.theses)
    && (forall id :: id in t.theses ==> (t.theses[id].lastEvidence.Some? <==> t.theses[id].evidenceCount > 0))
  }

  lemma {:induction false} NoRows(log: seq<Evidence>, thesis: nat)
    requires forall i :: 0 <= i < |log| ==> log[i].thesis != thesis
    ensures RowsFor(log, thesis) == 0
    decreases |log|
  {
    if log != [] {
      NoRows(log[..|log| - 1], thesis);
    }
  }

  lemma {:induction false} ApplyKeepsCounted(t: Tables, op: Op)
    requires Counted(t)
    ensures Counted(Apply(t, op))
  {
    match op
    case Create(_) =>
      assert t.next !in t.theses;
      NoRows(t.log, t.next);
    case AddEvidence(e, ts) =>
      EvidenceKeepsCounted(t, e, ts);
    case SetStatus(_, _) =>
    case SetConfidence(_, _) =>
  }

  lemma {:induction false} EvidenceKeepsCounted(t: Tables, e: Evidence, ts: int)
    requires Counted(t)
    ensures Counted(Apply(t, AddEvidence(e, ts)))
  {
    var u := Apply(t, AddEvidence(e, ts));
    if u != t {
      assert u.log[..|t.log|] == t.log;
      forall id | id in u.theses ensures RowsFor(u.log, id) == RowsFor(t.log, id) + if id == e.thesis then 1 else 0 {
      }
    }
  }

  lemma {:induction false} RunKeepsCounted(t: Tables, ops: seq<Op>)
    requires Counted(t)
    ensures Counted(ApplyAll(t, ops))
    decreases |ops|
  {
    hide Counted, Apply;
    if ops != [] {
      RunKeepsCounted(t, ops[..|ops| - 1]);
      ApplyKeepsCounted(ApplyAll(t, ops[..|ops| - 1]), ops[|ops| - 1]);
    }
  }

  /** A thesis that left ACTIVE never changes status or confidence again, whatever follows;
      only its evidence may still grow. */
  lemma {:induction false} ClosedIsFrozen(t: Tables, ops: seq<Op>, id: nat)
    requires Counted(t) && id in t.theses && t.theses[id].status != Active
    ensures var u := ApplyAll(t, ops);
      && id in u.theses && u.theses[id].status == t.theses[id].status
      && u.theses[id].confidence == t.theses[id].confidence
      && u.theses[id].evidenceCount >= t.theses[id].evidenceCount
    decreases |ops|
  {
    hide Apply;
    if ops != [] {
      hide Counted;
      var u := ApplyAll(t, ops[..|ops| - 1]);
      ClosedIsFrozen(t, ops[..|ops| - 1], id);
      RunKeepsCounted(t, ops[..|ops| - 1]);
      StaysFrozen(u, ops[|ops| - 1], id);
    }
  }

  lemma {:induction false} StaysFrozen(t: Tables, op: Op, id: nat)
    requires Counted(t) && id in t.theses && t.theses[id].status != Active
    ensures var u := Apply(t, op);
      && id in u.theses && u.theses[id].status == t.theses[id].status
      && u.theses[id].confidence == t.theses[id].confidence
      && u.theses[id].evidenceCount >= t.theses[id].evidenceCount
  {
  }

  // ------------------------------------------------------ what is counted

  /** The evidence offered to a thesis, each item revision once. */
  function Offered(ops: seq<Op>, id: nat): set<Evidence> {
    set i | 0 <= i < |ops| && ops[i].AddEvidence? && ops[i].e.thesis == id :: ops[i].e
  }

  function RowSet(log: seq<Evidence>, id: nat): set<Evidence> {
    set i | 0 <= i < |log| && log[i].thesis == id :: log[i]
  }

  lemma {:induction false} RowSetSnoc(log: seq<Evidence>, e: Evidence, id: nat)
    ensures RowSet(log + [e], id) == RowSet(log, id) + if e.thesis == id then {e} else {}
  {
    assert (log + [e])[|log|] == e;
    assert forall i :: 0 <= i < |log| ==> (log + [e])[i] == log[i];
  }

  lemma {:induction false} OfferedSnoc(ops: seq<Op>, op: Op, id: nat)
    ensures Offered(ops + [op], id) == Offered(ops, id) + if op.AddEvidence? && op.e.thesis == id then {op.e} else {}
  {
    assert (ops + [op])[|ops|] == op;
    assert forall i :: 0 <= i < |ops| ==> (ops + [op])[i] == ops[i];
  }

  lemma {:induction false} DistinctRows(log: seq<Evidence>, id: nat)
    requires forall i, j :: 0 <= i < j < |log| ==> log[i] != log[j]
    ensures |RowSet(log, id)| == RowsFor(log, id)
    decreases |log|
  {
    if log == [] {
      assert RowSet(log, id) == {};
    } else {
      var front, last := log[..|log| - 1], log[|log| - 1];
      assert log == front + [last];
      DistinctRows(front, id);
      RowSetSnoc(front, last, id);
      assert last !in RowSet(front, id);
    }
  }

  lemma {:induction false} OneOpRows(t: Tables, op: Op, id: nat)
    requires Counted(t) && id in t.theses
    ensures var u := Apply(t, op);
      id in u.theses && RowSet(u.log, id) == RowSet(t.log, id) + if op.AddEvidence? && op.e.thesis == id then {op.e} else {}
  {
    var u := Apply(t, op);
    if op.AddEvidence? {
      RowSetSnoc(t.log, op.e, id);
      if Logged(t.log, op.e) {
        var i :| 0 <= i < |t.log| && t.log[i] == op.e;
      }
    }
  }

  lemma {:induction false} RowsAreOffers(t: Tables, ops: seq<Op>, id: nat)
    requires Counted(t) && id in t.theses
    ensures var u := ApplyAll(t, ops);
      id in u.theses && RowSet(u.log, id) == RowSet(t.log, id) + Offered(ops, id)
    decreases |ops|
  {
    hide Apply, RowSet, Offered, Counted;
    if ops == [] {
      NoOffers(id);
      assert RowSet(t.log, id) + Offered([], id) == RowSet(t.log, id);
    } else {
      var front, op := ops[..|ops| - 1], ops[|ops| - 1];
      RowsAreOffers(t, front, id);
      RunKeepsCounted(t, front);
      OneOpRows(ApplyAll(t, front), op, id);
      OfferedSnoc(front, op, id);
      assert ops == front + [op];
    }
  }

  /** Over any writes a thesis ends with exactly the item revisions it had and those offered
      to it, each counted once, whether it was ACTIVE or closed when they came. */
  lemma {:induction false} EveryOfferCountsOnce(t: Tables, ops: seq<Op>, id: nat)
    requires Counted(t) && id in t.theses
    ensures var u := ApplyAll(t, ops);
      && id in u.theses && RowSet(u.log, id) == RowSet(t.log, id) + Offered(ops, id)
      && u.theses[id].evidenceCount == |RowSet(t.log, id) + Offered(ops, id)|
  {
    RowsAreOffers(t, ops, id);
    RunKeepsCounted(t, ops);
    hide ApplyAll, RowSet, Offered;
    DistinctRows(ApplyAll(t, ops).log, id);
  }

  lemma {:induction false} NoOffers(id: nat)
    ensures Offered([], id) == {}
  {
  }

  class Store {
    var theses: map<nat, Thesis>
    var log: seq<Evidence>
    var next: nat

    constructor ()
      ensures Contents() == Tables(map[], [], 1)
    {
      theses, log, next := map[], [], 1;
    }

    function Contents(): Tables
      reads this
    {
      Tables(theses, log, next)
    }

    method CreateThesis(confidence: real) returns (id: nat)
      modifies this
      ensures id == old(next) && Contents() == Apply(old(Contents()), Create(confidence))
    {
      id := next;
      theses := theses[next := Thesis(Active, confidence, 0, None)];
      next := next + 1;
    }

    /** False when this item revision was already logged against the thesis. */
    method AddEvidenceRow(e: Evidence, ts: int) returns (added: bool)
      requires e.thesis in theses
      modifies this
      ensures Contents() == Apply(old(Contents()), AddEvidence(e, ts))
      ensures added == !Logged(old(log), e)
    {
      for i := 0 to |log|
        invariant !Logged(log[..i], e)
      {
        if log[i] == e {
          return false;
        }
      }
      assert log[..|log|] == log;
      log := log + [e];
      var th := theses[e.thesis];
      theses := theses[e.thesis := th.(evidenceCount := th.evidenceCount + 1, lastEvidence := Some(ts))];
      return true;
    }

    method SetStatusOf(thesis: nat, status: Status)
      modifies this
      ensures Contents() == Apply(old(Contents()), SetStatus(thesis, status))
    {
      if thesis in theses && theses[thesis].status == Active {
        theses := theses[thesis := theses[thesis].(status := status)];
      }
    }

    method SetConfidenceOf(thesis: nat, confidence: real)
      modifies this
      ensures Contents() == Apply(old(Contents()), SetConfidence(thesis, confidence))
    {
      if thesis in theses && theses[thesis].status == Active {
        theses := theses[thesis := theses[thesis].(confidence := confidence)];
      }
    }
  }
}
