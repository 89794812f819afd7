/** What the slots of the late budget buy: the rows and the hand-offs of passes that may be
    cut anywhere. */
module OvernightSlots {
  import opened Forwarding
  import opened Numbers
  import opened Options
  import opened Overnight
  import opened OvernightRuns
  import opened Pacing

  // ------------------------------------------------------------- cut passes

  /** The candidates a pass gets to before it is cut. */
  function Forwarded(s: State, l: Limits, e: Event): seq<Candidate>
    requires e.LateFiring?
  {
    var routed := RouteAll(e.claimed, e.held, DayOf(e));
    var forward := LatePlan(s, l, e.now, e.open, routed.pool).forward;
    if !ShouldRun(e.now, SheetDone(s, DayOf(e)), e.open) || e.commits <= |routed.txs| then []
    else forward[..Least(e.commits - |routed.txs|, |forward|)]
  }

  /** What it commits: some of its routing, then those candidates. */
  lemma {:induction false} CutPass(s: State, l: Limits, e: Event) returns (routed: seq<Tx>)
    requires e.LateFiring?
    ensures RoutesOnly(routed)
    ensures Fire(s, l, e) == CommitAll(s, routed + LateTxs(Forwarded(s, l, e), DayOf(e)))
  {
    hide PlanForwarding, PassesRemaining, RouteAll, CommitAll, ShouldRun, SheetDone;
    var all := RouteAll(e.claimed, e.held, DayOf(e)).txs;
    RoutingRows(e.claimed, e.held, DayOf(e));
    var txs := Transactions(s, l, e);
    var n := Least(e.commits, |txs|);
    if !ShouldRun(e.now, SheetDone(s, DayOf(e)), e.open) {
      routed := [];
      assert txs[..n] == [] + LateTxs([], DayOf(e));
    } else {
      routed := all[..Least(n, |all|)];
      assert txs[..n] == routed + LateTxs(Forwarded(s, l, e), DayOf(e));
    }
  }

  /** A pass cut anywhere adds exactly one LATE_CANDIDATE row per candidate it got to. */
  lemma {:induction false} CutPassCounts(s: State, l: Limits, e: Event)
    requires e.LateFiring?
    ensures Count(Fire(s, l, e).rows, DayOf(e), LateCandidate)
         == Count(s.rows, DayOf(e), LateCandidate) + |Forwarded(s, l, e)|
    ensures Count(Fire(s, l, e).rows, DayOf(e), Sheet) == Count(s.rows, DayOf(e), Sheet)
  {
    hide Forwarded, Fire, CommitAll;
    var routed := CutPass(s, l, e);
    var cs, date := Forwarded(s, l, e), DayOf(e);
    var txs := routed + LateTxs(cs, date);
    CommitAllRows(s, txs);
    CountAppend(s.rows, RowsOf(txs), date, LateCandidate);
    AllLate(routed, cs, date);
    CountAppend(s.rows, RowsOf(txs), date, Sheet);
    CountBounds(RowsOf(txs), date, Sheet);
    assert forall i :: 0 <= i < |cs| ==> LateTxs(cs, date)[i] == LateTx(date, cs[i]);
  }

  // ---------------------------------------------------- keys put forward

  function HandedKeys(sent: seq<Mail>): seq<Key> {
    if sent == [] then []
    else
      var front := HandedKeys(sent[..|sent| - 1]);
      if sent[|sent| - 1].dedup.Handoff? then front + [sent[|sent| - 1].dedup.key] else front
  }

  predicate PutsForward(r: Row) { r.key.Some? && (r.action == OpenCandidate || r.action == LateCandidate) }

  function ForwardKeys(rows: seq<Row>): seq<Key> {
    if rows == [] then []
    else
      var front := ForwardKeys(rows[..|rows| - 1]);
      if PutsForward(rows[|rows| - 1]) then front + [rows[|rows| - 1].key.value] else front
  }

  function KeysOf(cs: seq<Candidate>): seq<Key> { seq(|cs|, i requires 0 <= i < |cs| => cs[i].key) }

  function Elems(ks: seq<Key>): set<Key> { set i | 0 <= i < |ks| :: ks[i] }

  ghost predicate NoRepeat(ks: seq<Key>) { forall i, j :: 0 <= i < j < |ks| ==> ks[i] != ks[j] }

  lemma {:induction false} ElemsSnoc(ks: seq<Key>, k: Key)
    ensures Elems(ks + [k]) == Elems(ks) + {k}
  {
    assert (ks + [k])[|ks|] == k;
    assert forall i :: 0 <= i < |ks| ==> (ks + [k])[i] == ks[i];
  }

  /** A sequence has as many elements as places exactly when none repeats. */
  lemma {:induction false} SizeIff(ks: seq<Key>)
    ensures |Elems(ks)| <= |ks|
    ensures |Elems(ks)| == |ks| <==> NoRepeat(ks)
    decreases |ks|
  {
    if ks == [] {
      assert Elems(ks) == {};
    } else {
      var front, last := ks[..|ks| - 1], ks[|ks| - 1];
      SizeIff(front);
      assert Elems(ks) == Elems(front) + {last};
      if last in Elems(front) {
        var i :| 0 <= i < |front| && front[i] == last;
        assert ks[i] == ks[|ks| - 1];
        assert Elems(ks) == Elems(front);
      } else {
        assert NoRepeat(ks) <==> NoRepeat(front) by {
          assert forall i :: 0 <= i < |front| ==> ks[i] == front[i] && front[i] in Elems(front);
        }
      }
    }
  }

  lemma {:induction false} HandedElems(sent: seq<Mail>, key: Key)
    ensures key in Elems(HandedKeys(sent)) <==> Taken(sent, Handoff(key))
    decreases |sent|
  {
    if sent != [] {
      var front, last := sent[..|sent| - 1], sent[|sent| - 1];
      HandedElems(front, key);
      if last.dedup.Handoff? {
        ElemsSnoc(HandedKeys(front), last.dedup.key);
      }
      TakenSnoc(front, last, Handoff(key));
      assert sent == front + [last];
    }
  }

  lemma {:induction false} TakenSnoc(front: seq<Mail>, last: Mail, d: Dedup)
    ensures Taken(front + [last], d) <==> Taken(front, d) || last.dedup == d
  {
    assert (front + [last])[|front|] == last;
    if Taken(front, d) {
      var i :| 0 <= i < |front| && front[i].dedup == d;
      assert (front + [last])[i] == front[i];
    }
  }

  lemma {:induction false} LastIsNew(sent: seq<Mail>)
    requires AtMostOnce(sent) && sent != []
    ensures !Taken(sent[..|sent| - 1], sent[|sent| - 1].dedup)
  {
  }

  lemma {:induction false} HandedOnce(sent: seq<Mail>)
    requires AtMostOnce(sent)
    ensures NoRepeat(HandedKeys(sent))
    decreases |sent|
  {
    if sent != [] {
      var front, last := sent[..|sent| - 1], sent[|sent| - 1];
      HandedOnce(front);
      if last.dedup.Handoff? {
        var ks := HandedKeys(front);
        HandedElems(front, last.dedup.key);
        LastIsNew(sent);
        assert forall i :: 0 <= i < |ks| ==> ks[i] in Elems(ks);
      }
    }
  }

  lemma {:induction false} ForwardElems(rows: seq<Row>, key: Key)
    ensures key in Elems(ForwardKeys(rows)) <==> Asked(rows, Handoff(key))
    decreases |rows|
  {
    if rows != [] {
      var front, last := rows[..|rows| - 1], rows[|rows| - 1];
      ForwardElems(front, key);
      if PutsForward(last) {
        ElemsSnoc(ForwardKeys(front), last.key.value);
      }
      assert Wants(last) == Some(Handoff(key)) <==> PutsForward(last) && last.key.value == key;
      AskedSnoc(front, last, Handoff(key));
      assert rows == front + [last];
    }
  }

  lemma {:induction false} AskedSnoc(front: seq<Row>, last: Row, d: Dedup)
    ensures Asked(front + [last], d) <==> Asked(front, d) || Wants(last) == Some(d)
  {
    hide Wants;
    assert (front + [last])[|front|] == last;
    if Asked(front, d) {
      var i :| 0 <= i < |front| && Wants(front[i]) == Some(d);
      assert (front + [last])[i] == front[i];
    }
  }

  // -------------------------------------------------- a slot per hand-off

  /** Over any runs, cut anywhere, the hand-offs are as many as the rows that put an item
      forward if and only if no item revision was put forward twice, by sheet or pass. */
  lemma {:induction false} SlotPerHandoffIff(l: Limits, es: seq<Event>)
    ensures var s := Run(State([], []), l, es);
      && |HandedKeys(s.sent)| <= |ForwardKeys(s.rows)|
      && (|HandedKeys(s.sent)| == |ForwardKeys(s.rows)| <==> NoRepeat(ForwardKeys(s.rows)))
  {
    var s := Run(State([], []), l, es);
    hide Run;
    RunStaysSound(l, es);
    HandedOnce(s.sent);
    SizeIff(HandedKeys(s.sent));
    SizeIff(ForwardKeys(s.rows));
    SameKeys(s);
  }

  lemma {:induction false} SameKeys(s: State)
    requires Atomic(s)
    ensures Elems(HandedKeys(s.sent)) == Elems(ForwardKeys(s.rows))
  {
    forall key: Key ensures key in Elems(HandedKeys(s.sent)) <==> key in Elems(ForwardKeys(s.rows)) {
      HandedElems(s.sent, key);
      ForwardElems(s.rows, key);
    }
  }

  /** No candidate has a hand-off yet and no two are the same item revision. */
  ghost predicate Fresh(sent: seq<Mail>, cs: seq<Candidate>) {
    && NoRepeat(KeysOf(cs))
    && forall i :: 0 <= i < |cs| ==> !Taken(sent, Handoff(cs[i].key))
  }

  /** Exactly when: the slots a pass spends buy a hand-off each if and only if none of the
      candidates it gets to has one already, from the sheet or an earlier pass, and none
      comes twice. */
  lemma {:induction false} PassBuysIff(s: State, l: Limits, e: Event)
    requires Sound(s, l) && e.LateFiring?
    ensures var t := Fire(s, l, e);
      var cs := Forwarded(s, l, e);
      && |HandedKeys(t.sent)| <= |HandedKeys(s.sent)| + |cs|
      && (|HandedKeys(t.sent)| == |HandedKeys(s.sent)| + |cs| <==> Fresh(s.sent, cs))
  {
    var cs := Forwarded(s, l, e);
    FiringKeepsSound(s, l, e);
    ForwardGrows(s, l, e);
    hide Forwarded, Fire, Elems, NoRepeat, HandedKeys, ForwardKeys;
    var t := Fire(s, l, e);
    SameKeys(s);
    SameKeys(t);
    HandedOnce(s.sent);
    HandedOnce(t.sent);
    SizeIff(HandedKeys(s.sent));
    SizeIff(HandedKeys(t.sent));
    Union(ForwardKeys(s.rows), KeysOf(cs));
    forall i | 0 <= i < |cs| ensures cs[i].key in Elems(HandedKeys(s.sent)) <==> Taken(s.sent, Handoff(cs[i].key)) {
      HandedElems(s.sent, cs[i].key);
    }
    FreshIff(s.sent, cs);
  }

  lemma {:induction false} ForwardGrows(s: State, l: Limits, e: Event)
    requires e.LateFiring?
    ensures ForwardKeys(Fire(s, l, e).rows) == ForwardKeys(s.rows) + KeysOf(Forwarded(s, l, e))
  {
    hide Forwarded, Fire, ForwardKeys, CommitAll;
    var cs, date := Forwarded(s, l, e), DayOf(e);
    var routed := CutPass(s, l, e);
    CommitAllRows(s, routed + LateTxs(cs, date));
    assert RowsOf(routed + LateTxs(cs, date)) == RowsOf(routed) + RowsOf(LateTxs(cs, date));
    ForwardAppend(s.rows, RowsOf(routed) + RowsOf(LateTxs(cs, date)));
    ForwardAppend(RowsOf(routed), RowsOf(LateTxs(cs, date)));
    RoutesForwardNothing(routed);
    LateForwards(cs, date);
    assert [] + KeysOf(cs) == KeysOf(cs);
  }

  lemma {:induction false} FreshIff(sent: seq<Mail>, cs: seq<Candidate>)
    requires forall i :: 0 <= i < |cs| ==> (cs[i].key in Elems(HandedKeys(sent)) <==> Taken(sent, Handoff(cs[i].key)))
    ensures Fresh(sent, cs) <==> NoRepeat(KeysOf(cs)) && Elems(KeysOf(cs)) !! Elems(HandedKeys(sent))
  {
    hide HandedKeys, NoRepeat, Taken;
    assert forall i :: 0 <= i < |cs| ==> KeysOf(cs)[i] == cs[i].key && cs[i].key in Elems(KeysOf(cs));
  }

  lemma {:induction false} Union(a: seq<Key>, b: seq<Key>)
    ensures Elems(a + b) == Elems(a) + Elems(b)
    ensures |Elems(a + b)| <= |Elems(a)| + |b|
    ensures |Elems(a + b)| == |Elems(a)| + |b| <==> NoRepeat(b) && Elems(b) !! Elems(a)
  {
    SizeIff(b);
    ElemsAppend(a, b);
    hide Elems, NoRepeat;
    DisjointSize(Elems(a), Elems(b));
  }

  lemma {:induction false} ElemsAppend(a: seq<Key>, b: seq<Key>)
    ensures Elems(a + b) == Elems(a) + Elems(b)
  {
    forall k | k in Elems(a) + Elems(b) ensures k in Elems(a + b) {
      if k in Elems(a) {
        var i :| 0 <= i < |a| && a[i] == k;
        assert (a + b)[i] == k;
      } else {
        var i :| 0 <= i < |b| && b[i] == k;
        assert (a + b)[|a| + i] == k;
      }
    }
  }

  lemma {:induction false} DisjointSize(x: set<Key>, y: set<Key>)
    ensures |x + y| <= |x| + |y|
    ensures |x + y| == |x| + |y| <==> y !! x
  {
    assert x + y == x + (y - x);
    assert |x + y| == |x| + |y - x|;
    assert |y - x| == |y| - |y * x|;
    if |y * x| == 0 {
      assert y * x == {};
    }
  }

  lemma {:induction false} ForwardSnoc(rows: seq<Row>, row: Row)
    ensures ForwardKeys(rows + [row]) == if PutsForward(row) then ForwardKeys(rows) + [row.key.value] else ForwardKeys(rows)
  {
    assert (rows + [row])[..|rows|] == rows;
  }

  lemma {:induction false} ForwardAppend(a: seq<Row>, b: seq<Row>)
    ensures ForwardKeys(a + b) == ForwardKeys(a) + ForwardKeys(b)
    decreases |b|
  {
    if b == [] {
      assert a + b == a;
      assert ForwardKeys(a) + [] == ForwardKeys(a);
    } else {
      var front, last := b[..|b| - 1], b[|b| - 1];
      hide PutsForward;
      ForwardAppend(a, front);
      hide ForwardKeys;
      ForwardSnoc(a + front, last);
      ForwardSnoc(front, last);
      assert b == front + [last] && a + b == (a + front) + [last];
    }
  }

  lemma {:induction false} RoutesForwardNothing(routed: seq<Tx>)
    requires RoutesOnly(routed)
    ensures ForwardKeys(RowsOf(routed)) == []
    decreases |routed|
  {
    if routed != [] {
      var front, last := routed[..|routed| - 1], routed[|routed| - 1];
      RoutesForwardNothing(front);
      ForwardSnoc(RowsOf(front), last.row);
      assert RowsOf(routed) == RowsOf(front) + [last.row];
    }
  }

  lemma {:induction false} LateForwards(cs: seq<Candidate>, date: int)
    ensures ForwardKeys(RowsOf(LateTxs(cs, date))) == KeysOf(cs)
    decreases |cs|
  {
    if cs != [] {
      var front, last := cs[..|cs| - 1], cs[|cs| - 1];
      LateForwards(front, date);
      ForwardSnoc(RowsOf(LateTxs(front, date)), LateTx(date, last).row);
      assert RowsOf(LateTxs(cs, date)) == RowsOf(LateTxs(front, date)) + [LateTx(date, last).row];
      assert KeysOf(cs) == KeysOf(front) + [last.key];
    }
  }
}
