/** The loops of the late pass and of the morning sheet over a journal and a message
    table that they update in place. */
module OvernightDesk {
  import opened Forwarding
  import opened Numbers
  import opened Options
  import opened Overnight
  import opened OvernightRuns
  import opened Pacing

  /** What became of the claimed messages. `whole` is false for a run that died. */
  datatype Outcome = Outcome(whole: bool, acked: seq<nat>, failed: seq<nat>, deferred: seq<nat>)

  class Desk {
    var rows: seq<Row>
    var sent: seq<Mail>

    constructor ()
      ensures Contents() == State([], [])
    {
      rows, sent := [], [];
    }

    function Contents(): State
      reads this
    {
      State(rows, sent)
    }

    /** One transaction: the row and the message go in together or not at all. */
    method Transact(tx: Tx)
      modifies this
      ensures Contents() == Commit(old(Contents()), tx)
    {
      rows := rows + [tx.row];
      if tx.mail.Some? {
        var i := 0;
        while i < |sent| && sent[i].dedup != tx.mail.value.dedup
          invariant 0 <= i <= |sent|
          invariant forall k :: 0 <= k < i ==> sent[k].dedup != tx.mail.value.dedup
        {
          i := i + 1;
        }
        if i == |sent| {
          sent := sent + [tx.mail.value];
        }
      }
    }

    method CountToday(date: int, action: Action) returns (n: nat)
      ensures n == Count(rows, date, action)
    {
      n := 0;
      for i := 0 to |rows|
        invariant n == Count(rows[..i], date, action)
      {
        assert rows[..i + 1][..i] == rows[..i];
        if rows[i].date == date && rows[i].action == action {
          n := n + 1;
        }
      }
      assert rows[..|rows|] == rows;
    }

    /** Fail the malformed, commit and ack what code routes, collect the rest. */
    method RouteClaimed(claimed: seq<Msg>, held: set<nat>, date: int, commits: nat)
      returns (whole: bool, acked: seq<nat>, failed: seq<nat>, pool: seq<Candidate>)
      modifies this
      ensures var r := RouteAll(claimed, held, date);
        && whole == (|r.txs| <= commits)
        && Contents() == CommitAll(old(Contents()), r.txs[..Least(commits, |r.txs|)])
        && (whole ==> acked == r.acked && failed == r.failed && pool == r.pool)
    {
      whole, acked, failed, pool := true, [], [], [];
      ghost var start := Contents();
      ghost var r := Routed([], [], [], []);
      for i := 0 to |claimed|
        invariant r == RouteAll(claimed[..i], held, date)
        invariant Contents() == CommitAll(start, r.txs) && |r.txs| <= commits && |r.txs| == |acked|
        invariant acked == r.acked && failed == r.failed && pool == r.pool
      {
        var m := claimed[i];
        assert claimed[..i + 1][..i] == claimed[..i];
        ghost var before := r;
        r := Route(r, m, held, date);
        match Classify(m, held) {
          case Malformed => failed := failed + [m.id];
          case Rankable(c) => pool := pool + [c];
          case _ =>
            var key := KeyOf(m.item.value, m.revision);
            if |acked| == commits {
              RoutedGrows(claimed, held, date, i + 1);
              assert before.txs == RouteAll(claimed, held, date).txs[..commits];
              whole := false;
              return;
            }
            Transact(if m.id in held then GuardTx(date, key, m.id) else ThesisTx(date, key, m.id, None));
            assert r.txs[..|r.txs| - 1] == before.txs;
            acked := acked + [m.id];
        }
      }
      assert claimed[..|claimed|] == claimed;
      assert r.txs[..|r.txs|] == r.txs;
    }

    /** Commit the planned transactions one by one, until the process dies. */
    method CommitEach(txs: seq<Tx>, commits: nat) returns (whole: bool)
      modifies this
      ensures whole == (|txs| <= commits)
      ensures Contents() == CommitAll(old(Contents()), txs[..Least(commits, |txs|)])
    {
      ghost var start := Contents();
      whole := true;
      for i := 0 to |txs|
        invariant i <= commits && whole
        invariant Contents() == CommitAll(start, txs[..i])
      {
        if i == commits {
          whole := false;
          return;
        }
        Transact(txs[i]);
        assert txs[..i + 1][..i] == txs[..i];
      }
    }

    method RunLatePass(l: Limits, now: int, open: int, claimed: seq<Msg>, held: set<nat>, commits: nat)
      returns (o: Outcome)
      modifies this
      ensures Contents() == Fire(old(Contents()), l, LateFiring(now, open, claimed, held, commits))
      ensures o.whole && ShouldRun(now, SheetDone(old(Contents()), SessionDay(now)), open) ==>
        var r := RouteAll(claimed, held, SessionDay(now));
        var plan := LatePlan(old(Contents()), l, now, open, r.pool);
        && o.failed == r.failed && o.acked == r.acked + Ids(plan.forward) && o.deferred == Ids(plan.rest)
    {
      hide PlanForwarding, PassesRemaining, ShouldRun, RouteAll, CommitAll, Count, LateTxs, Ids;
      var date := SessionDay(now);
      ghost var start := Contents();
      ghost var e := LateFiring(now, open, claimed, held, commits);
      o := Outcome(true, [], [], []);
      var sheets := CountToday(date, Sheet);
      if !ShouldRun(now, sheets > 0, open) {
        assert Transactions(start, l, e) == [];
        NoCommits(start);
        return;
      }
      var whole, acked, failed, pool := RouteClaimed(claimed, held, date, commits);
      ghost var r := RouteAll(claimed, held, date);
      ghost var all := Transactions(start, l, e);
      ghost var late := LateTxs(LatePlan(start, l, now, open, r.pool).forward, date);
      assert all == r.txs + late;
      if !whole {
        assert all[..commits] == r.txs[..commits];
        return Outcome(false, acked, failed, []);
      }
      assert r.txs[..|r.txs|] == r.txs;
      RoutingLeavesCount(start, claimed, held, date);
      var already := CountToday(date, LateCandidate);
      var plan := PlanForwarding(pool, already, l.dailyMax, l.passMax, PassesRemaining(now, open));
      RoutedSizes(claimed, held, date);
      whole := CommitEach(LateTxs(plan.forward, date), commits - |acked|);
      ghost var k := Least(commits - |acked|, |late|);
      assert all[..|r.txs| + k] == r.txs + late[..k];
      CommitsInTurn(start, r.txs, late[..k]);
      o := Outcome(whole, acked + Ids(plan.forward), failed, Ids(plan.rest));
    }

    /** `order` is the pool as the sheet disposes of it: by priority. `lanes` is what the
        model or the fallback answered. */
    method RunSheet(l: Limits, now: int, claimed: seq<Msg>, held: set<nat>, order: seq<Candidate>,
                    lanes: map<nat, Verdict>, commits: nat)
      returns (o: Outcome)
      requires multiset(order) == multiset(RouteAll(claimed, held, SessionDay(now)).pool)
      modifies this
      ensures Contents() == Fire(old(Contents()), l, SheetFiring(now, claimed, held, order, lanes, commits))
      ensures o.whole && !SheetDone(old(Contents()), SessionDay(now)) ==>
        multiset(o.failed) + multiset(o.acked) == multiset(MsgIds(claimed))
    {
      hide RouteAll, CommitAll, Count, DispositionTxs, Ids;
      var date := SessionDay(now);
      ghost var start := Contents();
      ghost var e := SheetFiring(now, claimed, held, order, lanes, commits);
      var sheets := CountToday(date, Sheet);
      if sheets > 0 {
        assert Transactions(start, l, e) == [];
        NoCommits(start);
        return Outcome(true, [], [], []);
      }
      var whole, acked, failed, pool := RouteClaimed(claimed, held, date, commits);
      ghost var routed := RouteAll(claimed, held, date).txs;
      ghost var all := Transactions(start, l, e);
      var rest := DispositionTxs(order, date, lanes) + [Tx(Row(date, Sheet, None, None), None)];
      assert all == routed + rest;
      if !whole {
        assert all[..commits] == routed[..commits];
        return Outcome(false, acked, failed, []);
      }
      assert routed[..|routed|] == routed;
      RoutedSizes(claimed, held, date);
      whole := CommitEach(rest, commits - |acked|);
      ghost var k := Least(commits - |acked|, |rest|);
      assert all[..|routed| + k] == routed + rest[..k];
      CommitsInTurn(start, routed, rest[..k]);
      SheetSettlesEveryClaim(claimed, held, date, order);
      o := Outcome(whole, acked + Ids(order), failed, []);
    }
  }

  lemma {:induction false} RoutedGrows(claimed: seq<Msg>, held: set<nat>, date: int, i: nat)
    requires i <= |claimed|
    ensures RouteAll(claimed[..i], held, date).txs <= RouteAll(claimed, held, date).txs
    decreases |claimed| - i
  {
    if i < |claimed| {
      RoutedGrows(claimed, held, date, i + 1);
      assert claimed[..i + 1][..i] == claimed[..i];
    } else {
      assert claimed[..i] == claimed;
    }
  }

  lemma {:induction false} RoutedSizes(claimed: seq<Msg>, held: set<nat>, date: int)
    ensures var r := RouteAll(claimed, held, date); |r.txs| == |r.acked|
    decreases |claimed|
  {
    if claimed != [] {
      RoutedSizes(claimed[..|claimed| - 1], held, date);
    }
  }

  lemma {:induction false} NoCommits(s: State)
    ensures CommitAll(s, []) == s
  {
  }

  lemma {:induction false} CommitsInTurn(s: State, a: seq<Tx>, b: seq<Tx>)
    ensures CommitAll(s, a + b) == CommitAll(CommitAll(s, a), b)
    decreases |b|
  {
    hide Commit;
    if b == [] {
      assert a + b == a;
    } else {
      assert (a + b)[..|a + b| - 1] == a + b[..|b| - 1];
      CommitsInTurn(s, a, b[..|b| - 1]);
    }
  }

  /** Routing writes no late candidate, so counting before or after it gives the same. */
  lemma {:induction false} RoutingLeavesCount(s: State, claimed: seq<Msg>, held: set<nat>, date: int)
    ensures var txs := RouteAll(claimed, held, date).txs;
      Count(CommitAll(s, txs).rows, date, LateCandidate) == Count(s.rows, date, LateCandidate)
  {
    hide Paired, RouteAll, CommitAll;
    var txs := RouteAll(claimed, held, date).txs;
    RoutingRows(claimed, held, date);
    CommitAllRows(s, txs);
    CountAppend(s.rows, RowsOf(txs), date, LateCandidate);
    CountBounds(RowsOf(txs), date, LateCandidate);
  }

  // -------------------------------------------------------- conservation

  /** Every message a finished late pass claimed ends in exactly one of the three. */
  lemma {:induction false} LatePassSettlesEveryClaim(s: State, l: Limits, now: int, open: int, claimed: seq<Msg>,
                                                     held: set<nat>)
    ensures var r := RouteAll(claimed, held, SessionDay(now));
      var plan := LatePlan(s, l, now, open, r.pool);
      multiset(r.failed) + multiset(r.acked + Ids(plan.forward)) + multiset(Ids(plan.rest)) == multiset(MsgIds(claimed))
  {
    hide RouteAll, PlanForwarding, MsgIds;
    var r := RouteAll(claimed, held, SessionDay(now));
    var plan := LatePlan(s, l, now, open, r.pool);
    RoutingSettles(claimed, held, SessionDay(now));
    PlanSplitsAtAllowance(r.pool, Count(s.rows, SessionDay(now), LateCandidate), l.dailyMax, l.passMax,
                          PassesRemaining(now, open));
    SameIds(r.pool, plan.forward + plan.rest);
    assert Ids(plan.forward + plan.rest) == Ids(plan.forward) + Ids(plan.rest);
  }

  function Settled(r: Routed): multiset<nat> {
    multiset(r.failed) + multiset(r.acked) + multiset(Ids(r.pool))
  }

  lemma {:induction false} RouteSettles(r: Routed, m: Msg, held: set<nat>, date: int)
    ensures Settled(Route(r, m, held, date)) == Settled(r) + multiset{m.id}
  {
    hide KeyOf, GuardTx, ThesisTx;
    if Classify(m, held).Rankable? {
      assert Ids(r.pool + [Classify(m, held).c]) == Ids(r.pool) + [m.id];
    }
  }

  lemma {:induction false} RoutingSettles(claimed: seq<Msg>, held: set<nat>, date: int)
    ensures Settled(RouteAll(claimed, held, date)) == multiset(MsgIds(claimed))
    decreases |claimed|
  {
    if claimed == [] {
      assert Ids([]) == [] && MsgIds([]) == [];
    } else {
      var front, m := claimed[..|claimed| - 1], claimed[|claimed| - 1];
      RoutingSettles(front, held, date);
      assert MsgIds(claimed) == MsgIds(front) + [m.id];
      var r := RouteAll(front, held, date);
      assert RouteAll(claimed, held, date) == Route(r, m, held, date);
      hide *;
      RouteSettles(r, m, held, date);
      assert multiset(MsgIds(front) + [m.id]) == multiset(MsgIds(front)) + multiset{m.id};
    }
  }

  lemma {:induction false} SameIds(a: seq<Candidate>, b: seq<Candidate>)
    requires multiset(a) == multiset(b)
    ensures multiset(Ids(a)) == multiset(Ids(b))
    decreases |a|
  {
    if a == [] {
      SameSize(a, b);
    } else {
      RemoveAt(a, 0);
      assert a[0] in multiset(b);
      var k :| 0 <= k < |b| && b[k] == a[0];
      RemoveAt(b, k);
      var c, d := a[..0] + a[0 + 1..], b[..k] + b[k + 1..];
      assert multiset(c) == multiset(a) - multiset{a[0]};
      assert multiset(d) == multiset(b) - multiset{a[0]};
      SameIds(c, d);
    }
  }

  lemma {:induction false} RemoveAt(b: seq<Candidate>, k: nat)
    requires k < |b|
    ensures var c := b[..k] + b[k + 1..];
      && multiset(b) == multiset(c) + multiset{b[k]}
      && multiset(Ids(b)) == multiset(Ids(c)) + multiset{b[k].id}
  {
    assert b == b[..k] + [b[k]] + b[k + 1..];
    assert Ids(b) == Ids(b[..k]) + [b[k].id] + Ids(b[k + 1..]);
    assert Ids(b[..k] + b[k + 1..]) == Ids(b[..k]) + Ids(b[k + 1..]);
  }

  /** A finished sheet defers nothing: what it claimed is failed or acked. */
  lemma {:induction false} SheetSettlesEveryClaim(claimed: seq<Msg>, held: set<nat>, date: int, order: seq<Candidate>)
    requires multiset(order) == multiset(RouteAll(claimed, held, date).pool)
    ensures var r := RouteAll(claimed, held, date);
      multiset(r.failed) + multiset(r.acked + Ids(order)) == multiset(MsgIds(claimed))
  {
    hide RouteAll, MsgIds, Ids;
    RoutingSettles(claimed, held, date);
    SameIds(RouteAll(claimed, held, date).pool, order);
  }
}
