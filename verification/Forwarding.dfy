/** The order in which the late pass hands candidates to the open. */
module Forwarding {
  import opened Numbers
  import opened Pacing

  /** A news item at one revision. */
  datatype Key = Key(item: nat, revision: nat)

  /** A claimed message that named a ticker nobody holds. */
  datatype Candidate = Candidate(id: nat, priority: int, key: Key)

  /** Ascending priority, then msg id. */
  predicate AtOrBefore(a: Candidate, b: Candidate) {
    a.priority < b.priority || (a.priority == b.priority && a.id <= b.id)
  }

  ghost predicate Ordered(cs: seq<Candidate>) {
    forall i, j :: 0 <= i < j < |cs| ==> AtOrBefore(cs[i], cs[j])
  }

  /** msg_id is the table's primary key. */
  ghost predicate IdsIdentify(cs: seq<Candidate>) {
    forall i, j :: 0 <= i < |cs| && 0 <= j < |cs| && cs[i].id == cs[j].id ==> cs[i] == cs[j]
  }

  function Insert(c: Candidate, cs: seq<Candidate>): (r: seq<Candidate>)
    ensures multiset(r) == multiset(cs) + multiset{c}
    ensures Ordered(cs) ==> Ordered(r)
    decreases |cs|
  {
    if cs == [] then [c]
    else
      var last := cs[|cs| - 1];
      assert cs == cs[..|cs| - 1] + [last];
      if AtOrBefore(last, c) then cs + [c] else
      var r := Insert(c, cs[..|cs| - 1]) + [last];
      InsertKeepsOrder(c, cs[..|cs| - 1], last, Insert(c, cs[..|cs| - 1]));
      r
  }

  lemma {:induction false} InsertKeepsOrder(c: Candidate, front: seq<Candidate>, last: Candidate, r: seq<Candidate>)
    requires multiset(r) == multiset(front) + multiset{c} && !AtOrBefore(last, c)
    requires Ordered(front) ==> Ordered(r)
    ensures Ordered(front + [last]) ==> Ordered(r + [last])
  {
    if Ordered(front + [last]) {
      assert Ordered(front) by {
        assert forall i :: 0 <= i < |front| ==> (front + [last])[i] == front[i];
      }
      forall i | 0 <= i < |r| ensures AtOrBefore(r[i], last) {
        assert r[i] in multiset(r);
        if r[i] != c {
          assert r[i] in multiset(front);
          var k :| 0 <= k < |front| && front[k] == r[i];
          assert AtOrBefore((front + [last])[k], (front + [last])[|front|]);
        }
      }
    }
  }

  function Sorted(cs: seq<Candidate>): (r: seq<Candidate>)
    ensures Ordered(r) && multiset(r) == multiset(cs)
  {
    if cs == [] then []
    else
      assert cs == cs[..|cs| - 1] + [cs[|cs| - 1]];
      Insert(cs[|cs| - 1], Sorted(cs[..|cs| - 1]))
  }

  datatype Plan = Plan(forward: seq<Candidate>, rest: seq<Candidate>, allowance: nat)

  function PlanForwarding(cs: seq<Candidate>, already: nat, dailyMax: nat, passMax: nat, passes: int): Plan {
    var allowance := Allowance(Budget(dailyMax, already), passMax, passes);
    var ordered := Sorted(cs);
    var n := Least(allowance, |ordered|);
    Plan(ordered[..n], ordered[n..], allowance)
  }

  /** Nothing is lost or invented, the most urgent go first, the split is at the
      allowance, and neither the day's budget nor the pass cap is passed. */
  lemma {:induction false} PlanSplitsAtAllowance(cs: seq<Candidate>, already: nat, dailyMax: nat, passMax: nat, passes: int)
    ensures var p := PlanForwarding(cs, already, dailyMax, passMax, passes);
      && multiset(p.forward + p.rest) == multiset(cs)
      && Ordered(p.forward + p.rest)
      && |p.forward| == Least(|cs|, p.allowance)
      && |p.forward| <= passMax
      && (|p.forward| > 0 ==> already + |p.forward| <= dailyMax)
  {
    hide Allowance, Ordered, Sorted;
    var ordered := Sorted(cs);
    var p := PlanForwarding(cs, already, dailyMax, passMax, passes);
    assert p.forward + p.rest == ordered;
    SameSize(ordered, cs);
    AllowanceBounds(Budget(dailyMax, already), passMax, passes);
  }

  lemma {:induction false} SameSize(xs: seq<Candidate>, ys: seq<Candidate>)
    requires multiset(xs) == multiset(ys)
    ensures |xs| == |ys|
  {
    assert |multiset(xs)| == |xs| && |multiset(ys)| == |ys|;
  }

  /** The order in which the messages were claimed does not matter. */
  lemma {:induction false} PlanIgnoresClaimOrder(xs: seq<Candidate>, ys: seq<Candidate>, already: nat, dailyMax: nat,
                                                 passMax: nat, passes: int)
    requires multiset(xs) == multiset(ys) && IdsIdentify(xs)
    ensures PlanForwarding(xs, already, dailyMax, passMax, passes)
         == PlanForwarding(ys, already, dailyMax, passMax, passes)
  {
    var a, b := Sorted(xs), Sorted(ys);
    assert IdsIdentify(a) by {
      forall i, j | 0 <= i < |a| && 0 <= j < |a| && a[i].id == a[j].id ensures a[i] == a[j] {
        assert a[i] in multiset(xs) && a[j] in multiset(xs);
        var k, l :| 0 <= k < |xs| && 0 <= l < |xs| && xs[k] == a[i] && xs[l] == a[j];
      }
    }
    OrderIsUnique(a, b);
  }

  lemma {:induction false} OrderIsUnique(a: seq<Candidate>, b: seq<Candidate>)
    requires Ordered(a) && Ordered(b) && multiset(a) == multiset(b) && IdsIdentify(a)
    ensures a == b
    decreases |a|
  {
    hide Ordered, IdsIdentify;
    SameSize(a, b);
    if a != [] {
      var x := a[|a| - 1];
      LastsAgree(a, b);
      FrontKeeps(a);
      FrontKeeps(b);
      WithoutLast(a);
      WithoutLast(b);
      OrderIsUnique(a[..|a| - 1], b[..|b| - 1]);
      assert a == a[..|a| - 1] + [x] && b == b[..|b| - 1] + [x];
    }
  }

  lemma {:induction false} WithoutLast(a: seq<Candidate>)
    requires |a| > 0
    ensures multiset(a[..|a| - 1]) == multiset(a) - multiset{a[|a| - 1]}
  {
    assert a == a[..|a| - 1] + [a[|a| - 1]];
  }

  lemma {:induction false} FrontKeeps(a: seq<Candidate>)
    requires |a| > 0
    ensures Ordered(a) ==> Ordered(a[..|a| - 1])
    ensures IdsIdentify(a) ==> IdsIdentify(a[..|a| - 1])
  {
  }

  lemma {:induction false} LastsAgree(a: seq<Candidate>, b: seq<Candidate>)
    requires Ordered(a) && Ordered(b) && multiset(a) == multiset(b) && IdsIdentify(a)
    requires |a| > 0 && |b| > 0
    ensures a[|a| - 1] == b[|b| - 1]
  {
    LastIsGreatest(a, b);
    LastIsGreatest(b, a);
    var l :| 0 <= l < |a| && a[l] == b[|b| - 1];
    assert a[|a| - 1].id == a[l].id;
  }

  lemma {:induction false} LastIsGreatest(a: seq<Candidate>, b: seq<Candidate>)
    requires Ordered(a) && multiset(a) == multiset(b) && |b| > 0 && |a| > 0
    ensures b[|b| - 1] in a && AtOrBefore(b[|b| - 1], a[|a| - 1])
  {
    var y := b[|b| - 1];
    assert y in multiset(a);
    var l :| 0 <= l < |a| && a[l] == y;
  }
}
