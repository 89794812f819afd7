/** How many theses an item comes to anchor over thematic nights. */
module ThematicAnchors {
  import opened Options
  import opened Thematic
  import opened ThematicRun
  import opened ThesisStore
  import opened ThematicNights

  function Naming(mints: seq<Mint>, anchor: nat): nat {
    if mints == [] then 0 else Naming(mints[..|mints| - 1], anchor) + if mints[|mints| - 1].anchor == anchor then 1 else 0
  }

  /** How often the nights' committed specs name the anchor. */
  function Named(ps: seq<Pass>, anchor: nat): nat
    decreases |ps|
  {
    if ps == [] then 0 else Named(ps[..|ps| - 1], anchor) + Naming(Mints(ps[|ps| - 1]), anchor)
  }

  /** The theses that came in from t to v with this item as their first evidence. */
  function NewTheses(t: Tables, v: Tables, anchor: nat): set<nat> {
    set id | id in v.theses && id !in t.theses && FirstRow(v.log, id).Some? && FirstRow(v.log, id).value.item == anchor
  }

  lemma {:induction false} NamingAppend(a: seq<Mint>, b: seq<Mint>, anchor: nat)
    ensures Naming(a + b, anchor) == Naming(a, anchor) + Naming(b, anchor)
    decreases |b|
  {
    if b == [] {
      assert a + b == a;
    } else {
      assert (a + b)[..|a + b| - 1] == a + b[..|b| - 1];
      NamingAppend(a, b[..|b| - 1], anchor);
    }
  }

  lemma {:induction false} NamedIsNaming(ps: seq<Pass>, anchor: nat)
    ensures Named(ps, anchor) == Naming(AllMints(ps), anchor)
    decreases |ps|
  {
    hide Mints;
    if ps != [] {
      NamedIsNaming(ps[..|ps| - 1], anchor);
      NamingAppend(AllMints(ps[..|ps| - 1]), Mints(ps[|ps| - 1]), anchor);
    }
  }

  function IdsNaming(from: nat, mints: seq<Mint>, anchor: nat): set<nat> {
    set k: nat | k < |mints| && mints[k].anchor == anchor :: from + k
  }

  lemma {:induction false} IdsAreNaming(from: nat, mints: seq<Mint>, anchor: nat)
    ensures |IdsNaming(from, mints, anchor)| == Naming(mints, anchor)
    decreases |mints|
  {
    if mints == [] {
      assert IdsNaming(from, mints, anchor) == {};
    } else {
      var n := |mints| - 1;
      IdsAreNaming(from, mints[..n], anchor);
      IdsSnoc(from, mints, anchor);
      hide IdsNaming;
    }
  }

  lemma {:induction false} IdsSnoc(from: nat, mints: seq<Mint>, anchor: nat)
    requires mints != []
    ensures var n := |mints| - 1;
      var front := IdsNaming(from, mints[..n], anchor);
      && from + n !in front
      && IdsNaming(from, mints, anchor) == if mints[n].anchor == anchor then front + {from + n} else front
  {
    var n := |mints| - 1;
    assert forall k :: 0 <= k < n ==> mints[..n][k] == mints[k];
  }

  /** As many new theses rest on the anchor as the nights' committed specs name it. */
  lemma {:induction false} ThesesPerAnchor(w: World, ps: seq<Pass>, anchor: nat)
    requires Counted(w.tables)
    ensures |NewTheses(w.tables, Nights(w, ps).tables, anchor)| == Named(ps, anchor)
  {
    MadeTheses(w, ps);
    NamedIsNaming(ps, anchor);
    MintedNaming(w.tables, Nights(w, ps).tables, AllMints(ps), anchor);
    IdsAreNaming(w.tables.next, AllMints(ps), anchor);
  }

  lemma {:induction false} MintedNaming(t: Tables, v: Tables, mints: seq<Mint>, anchor: nat)
    requires Counted(t) && Minted(t, v, mints)
    ensures NewTheses(t, v, anchor) == IdsNaming(t.next, mints, anchor)
  {
    hide FirstRow, RowsFor;
    forall id | id in NewTheses(t, v, anchor) ensures id in IdsNaming(t.next, mints, anchor) {
      var k := id - t.next;
      assert FirstRow(v.log, t.next + k) == Some(Evidence(t.next + k, mints[k].anchor, mints[k].revision));
    }
  }

  // ------------------------------------------------- who may name it again

  /** Distinct items on distinct messages. */
  ghost predicate Listing(items: seq<Item>) {
    && DistinctIds(items)
    && forall i, j :: 0 <= i < j < |items| && items[i].msg.Some? ==> items[i].msg != items[j].msg
  }

  /** The queue hands out no message that was acknowledged. */
  ghost predicate Claims(done: set<nat>, items: seq<Item>) {
    Listing(items) && forall i :: 0 <= i < |items| && items[i].msg.Some? ==> items[i].msg.value !in done
  }

  ghost predicate Follows(w: World, ps: seq<Pass>)
    decreases |ps|
  {
    ps == [] || (Follows(w, ps[..|ps| - 1]) && Claims(Nights(w, ps[..|ps| - 1]).done, ps[|ps| - 1].items))
  }

  predicate Makes(p: Pass, anchor: nat) { Naming(Mints(p), anchor) > 0 }

  /** The night died between creating its first thesis for the anchor and the ack. */
  predicate DiesUnacked(p: Pass, anchor: nat) {
    var made := Made(p);
    && DiesOnCommit(Specs(p), p.items, p.steps)
    && made[|made| - 1].anchor == anchor && Naming(Mints(p), anchor) == 1
  }

  lemma {:induction false} NamingIff(mints: seq<Mint>, anchor: nat)
    ensures Naming(mints, anchor) > 0 <==> exists k :: 0 <= k < |mints| && mints[k].anchor == anchor
    decreases |mints|
  {
    if mints != [] {
      var front := mints[..|mints| - 1];
      NamingIff(front, anchor);
      if k :| 0 <= k < |front| && front[k].anchor == anchor {
        assert mints[k].anchor == anchor;
      }
      if k :| 0 <= k < |mints| && mints[k].anchor == anchor && k < |front| {
        assert front[k].anchor == anchor;
      }
    }
  }

  lemma {:induction false} CommittedIsPrefix(specs: seq<NewThesis>, items: seq<Item>, n: nat)
    ensures Committed(specs, items, n) <= specs
    decreases |specs|
  {
    hide StepCount;
    if specs != [] {
      CommittedIsPrefix(specs[..|specs| - 1], items, n);
    }
  }

  lemma {:induction false} SpecsAreListed(specs: seq<NewThesis>, anchors: set<nat>)
    ensures forall k :: 0 <= k < |ValidSpecs(specs, anchors)| ==> ValidSpecs(specs, anchors)[k].anchor in anchors
    decreases |specs|
  {
    if specs != [] {
      SpecsAreListed(specs[..|specs| - 1], anchors);
    }
  }

  /** Only an item the night lists can anchor its theses. */
  lemma {:induction false} MakesListed(p: Pass, anchor: nat)
    requires Makes(p, anchor)
    ensures Find(p.items, anchor).Some? && anchor in Anchors(p.reply.newTheses, Ids(p.items))
    ensures exists k :: 0 <= k < |Made(p)| && Made(p)[k].anchor == anchor
  {
    hide Committed, ValidSpecs, Naming, RevisionOf;
    NamingIff(Mints(p), anchor);
    var k :| 0 <= k < |Mints(p)| && Mints(p)[k].anchor == anchor;
    assert Made(p)[k].anchor == anchor;
    CommittedIsPrefix(Specs(p), p.items, p.steps);
    SpecsAreListed(p.reply.newTheses, Anchors(p.reply.newTheses, Ids(p.items)));
    FindIsThere(p.items, anchor);
  }

  /** With messages of their own, a message is acked for an anchor only if that is its item. */
  lemma {:induction false} AckNamesAnchor(specs: seq<NewThesis>, items: seq<Item>, anchor: nat, m: nat)
    requires Listing(items) && Find(items, anchor).Some? && Find(items, anchor).value.msg == Some(m)
    ensures m in AnchorAcks(specs, items) <==> exists k :: 0 <= k < |specs| && specs[k].anchor == anchor
    decreases |specs|
  {
    hide Find;
    if specs != [] {
      var front, last := specs[..|specs| - 1], specs[|specs| - 1].anchor;
      AckNamesAnchor(front, items, anchor, m);
      assert forall k :: 0 <= k < |front| ==> front[k] == specs[k];
      assert specs[|specs| - 1].anchor == last;
      FindIsThere(items, anchor);
      FindIsThere(items, last);
      if Find(items, last).Some? && Find(items, last).value.msg == Some(m) {
        var i :| 0 <= i < |items| && items[i] == Find(items, anchor).value;
        var j :| 0 <= j < |items| && items[j] == Find(items, last).value;
        assert i == j;
      }
    }
  }

  lemma {:induction false} DisposalAcks(items: seq<Item>, ops: map<nat, Decision>, anchors: set<nat>, ts: int, m: nat)
    requires m in Acks(DisposeSteps(items, ops, anchors, ts))
    ensures exists i :: 0 <= i < |items| && items[i].id !in anchors && items[i].msg == Some(m)
  {
    DisposeStepsAck(items, ops, anchors, ts, []);
    DisposeAcks(items, ops, anchors, []);
    hide DisposeSteps, DisposeAll, Acks;
    assert [] + Acks(DisposeSteps(items, ops, anchors, ts)) == Acks(DisposeSteps(items, ops, anchors, ts));
  }

  lemma {:induction false} SettlingAcks(t: Tables, p: Pass, tail: seq<Step>, m: nat)
    requires tail <= Settling(t, p) && m in Acks(tail)
    ensures exists i :: 0 <= i < |p.items| && p.items[i].id !in Anchors(p.reply.newTheses, Ids(p.items))
                        && p.items[i].msg == Some(m)
  {
    var anchors := Anchors(p.reply.newTheses, Ids(p.items));
    var ops := ResolveOps(p.reply.items, Known(t), Ids(p.items), anchors).ops;
    var reviews := ReviewOps(ValidReviews(p.reply.reviews, Known(t)));
    assert Settling(t, p) == DisposeSteps(p.items, ops, anchors, p.ts) + ReviewSteps(reviews);
    hide *;
    var rest, disposals := Settling(t, p)[|tail|..], DisposeSteps(p.items, ops, anchors, p.ts);
    assert Settling(t, p) == tail + rest;
    Appended(tail, rest);
    Appended(disposals, ReviewSteps(reviews));
    ReviewStepsDo(reviews);
    assert Acks(tail) + Acks(rest) == Acks(disposals) + [];
    assert m in Acks(tail) + Acks(rest);
    DisposalAcks(p.items, ops, anchors, p.ts, m);
  }

  /** The message of an anchor stays unacked exactly when the night died between the commit of
      its first thesis for that anchor and the ack. */
  lemma {:induction false} UnackedIff(t: Tables, p: Pass, anchor: nat, m: nat)
    requires Listing(p.items) && Makes(p, anchor) && Find(p.items, anchor).Some?
    requires Find(p.items, anchor).value.msg == Some(m)
    ensures m !in AckedBy(t, p) <==> DiesUnacked(p, anchor)
  {
    MakesListed(p, anchor);
    var made := Made(p);
    var tail := MadeFirst(t, p);
    AckNamesAnchor(made, p.items, anchor, m);
    hide AnchorAcks, Settling, Specs, Committed, StepCount, Acks, Lived, Find, Anchors, Ids, RevisionOf;
    if m in Acks(tail) {
      SettlingAcks(t, p, tail, m);
      TwoHolders(p, anchor, m);
    }
    if DiesOnCommit(Specs(p), p.items, p.steps) {
      var front := made[..|made| - 1];
      AckNamesAnchor(front, p.items, anchor, m);
      NamingIff(MintsOf(front, p.items), anchor);
      assert MintsOf(front, p.items) == Mints(p)[..|made| - 1];
      assert forall k :: 0 <= k < |front| ==> MintsOf(front, p.items)[k].anchor == front[k].anchor;
    }
  }

  lemma {:induction false} TwoHolders(p: Pass, anchor: nat, m: nat)
    requires Listing(p.items) && Find(p.items, anchor).Some? && Find(p.items, anchor).value.msg == Some(m)
    requires anchor in Anchors(p.reply.newTheses, Ids(p.items))
    ensures !exists i :: 0 <= i < |p.items| && p.items[i].id !in Anchors(p.reply.newTheses, Ids(p.items))
                         && p.items[i].msg == Some(m)
  {
    hide Anchors, Ids;
    FindIsThere(p.items, anchor);
    var j :| 0 <= j < |p.items| && p.items[j] == Find(p.items, anchor).value;
  }

  lemma {:induction false} PrefixFollows(w: World, ps: seq<Pass>, j: nat)
    requires Follows(w, ps) && j < |ps|
    ensures Claims(Nights(w, ps[..j]).done, ps[j].items)
    decreases |ps|
  {
    hide Claims, Nights;
    if j < |ps| - 1 {
      assert ps[..|ps| - 1][..j] == ps[..j];
      PrefixFollows(w, ps[..|ps| - 1], j);
    }
  }

  lemma {:induction false} DoneStays(w: World, ps: seq<Pass>, i: nat, j: nat)
    requires i < j <= |ps|
    ensures AckedBy(Nights(w, ps[..i]).tables, ps[i]) <= Nights(w, ps[..j]).done
    decreases j
  {
    assert ps[..j][..j - 1] == ps[..j - 1];
    assert Nights(w, ps[..j]) == After(Nights(w, ps[..j - 1]), ps[j - 1]);
    hide ApplyAll, Lived, Nights, AckedBy;
    if i < j - 1 {
      DoneStays(w, ps, i, j - 1);
    }
  }

  /** A later night names the anchor again: as a wide item, which is never claimed or acked, or
      on a message no night before it acked; on the first night's own message only if that
      night died between the commit and the ack. */
  ghost predicate NamesAgain(w: World, ps: seq<Pass>, i: nat, j: nat, anchor: nat) {
    && i < j < |ps| && Makes(ps[i], anchor) && Makes(ps[j], anchor)
    && Find(ps[i].items, anchor).Some? && Find(ps[j].items, anchor).Some?
    && var here, there := Find(ps[i].items, anchor).value.msg, Find(ps[j].items, anchor).value.msg;
      there.Some? ==> there.value !in Nights(w, ps[..j]).done && (here == there ==> DiesUnacked(ps[i], anchor))
  }

  lemma {:induction false} NamesAgainIff(w: World, ps: seq<Pass>, i: nat, j: nat, anchor: nat)
    requires Follows(w, ps) && i < j < |ps|
    ensures NamesAgain(w, ps, i, j, anchor) <==> Makes(ps[i], anchor) && Makes(ps[j], anchor)
  {
    hide Makes, DiesUnacked, Nights, AckedBy;
    if Makes(ps[i], anchor) && Makes(ps[j], anchor) {
      MakesListed(ps[i], anchor);
      MakesListed(ps[j], anchor);
      PrefixFollows(w, ps, i);
      PrefixFollows(w, ps, j);
      FindIsThere(ps[j].items, anchor);
      hide Find, Follows;
      var here, there := Find(ps[i].items, anchor).value.msg, Find(ps[j].items, anchor).value.msg;
      if there.Some? {
        var n :| 0 <= n < |ps[j].items| && ps[j].items[n] == Find(ps[j].items, anchor).value;
        if here == there {
          DoneStays(w, ps, i, j);
          UnackedIff(Nights(w, ps[..i]).tables, ps[i], anchor, there.value);
        }
      }
    }
  }

  ghost predicate NamesTwice(ps: seq<Pass>, anchor: nat) {
    exists i :: 0 <= i < |ps| && Naming(Mints(ps[i]), anchor) > 1
  }

  ghost predicate NamesLater(ps: seq<Pass>, anchor: nat) {
    exists i, j :: 0 <= i < j < |ps| && Makes(ps[i], anchor) && Makes(ps[j], anchor)
  }

  lemma {:induction false} TwiceSnoc(ps: seq<Pass>, anchor: nat)
    requires ps != []
    ensures NamesTwice(ps, anchor) <==>
      NamesTwice(ps[..|ps| - 1], anchor) || Naming(Mints(ps[|ps| - 1]), anchor) > 1
  {
    hide Mints, Naming;
    var front := ps[..|ps| - 1];
    if i :| 0 <= i < |front| && Naming(Mints(front[i]), anchor) > 1 {
      assert ps[i] == front[i];
    }
    if i :| 0 <= i < |ps| - 1 && Naming(Mints(ps[i]), anchor) > 1 {
      assert front[i] == ps[i];
    }
  }

  lemma {:induction false} LaterSnoc(ps: seq<Pass>, anchor: nat)
    requires ps != []
    ensures NamesLater(ps, anchor) <==>
      NamesLater(ps[..|ps| - 1], anchor) || (Makes(ps[|ps| - 1], anchor) && NamesEver(ps[..|ps| - 1], anchor))
  {
    hide Makes;
    var n := |ps| - 1;
    var front := ps[..n];
    assert forall i :: 0 <= i < n ==> front[i] == ps[i];
    if i, j :| 0 <= i < j < n && Makes(front[i], anchor) && Makes(front[j], anchor) {
      assert Makes(ps[i], anchor) && Makes(ps[j], anchor);
    }
    if i :| 0 <= i < n && Makes(front[i], anchor) {
      assert Makes(ps[i], anchor);
    }
    if i, j :| 0 <= i < j < |ps| && Makes(ps[i], anchor) && Makes(ps[j], anchor) {
      assert Makes(front[i], anchor);
      assert j < n ==> Makes(front[j], anchor);
    }
  }

  ghost predicate NamesEver(ps: seq<Pass>, anchor: nat) { exists i :: 0 <= i < |ps| && Makes(ps[i], anchor) }

  lemma {:induction false} EverSnoc(ps: seq<Pass>, anchor: nat)
    requires ps != []
    ensures NamesEver(ps, anchor) <==> NamesEver(ps[..|ps| - 1], anchor) || Makes(ps[|ps| - 1], anchor)
  {
    hide Makes;
    var front := ps[..|ps| - 1];
    if i :| 0 <= i < |front| && Makes(front[i], anchor) {
      assert ps[i] == front[i];
    }
    if i :| 0 <= i < |ps| - 1 && Makes(ps[i], anchor) {
      assert front[i] == ps[i];
    }
  }

  lemma {:induction false} NamedIff(ps: seq<Pass>, anchor: nat)
    ensures Named(ps, anchor) > 0 <==> NamesEver(ps, anchor)
    ensures Named(ps, anchor) > 1 <==> NamesTwice(ps, anchor) || NamesLater(ps, anchor)
    decreases |ps|
  {
    if ps != [] {
      hide Mints, Naming, NamesTwice, NamesLater, NamesEver;
      NamedIff(ps[..|ps| - 1], anchor);
      TwiceSnoc(ps, anchor);
      LaterSnoc(ps, anchor);
      EverSnoc(ps, anchor);
    }
  }

  /** Exactly when one item anchors more than one new thesis: some reply's committed specs name
      it twice, or a later night that lists it names it again. */
  lemma {:induction false} SecondThesisIff(w: World, ps: seq<Pass>, anchor: nat)
    requires Counted(w.tables) && Follows(w, ps)
    ensures |NewTheses(w.tables, Nights(w, ps).tables, anchor)| > 1
       <==> NamesTwice(ps, anchor) || exists i, j :: NamesAgain(w, ps, i, j, anchor)
  {
    hide NewTheses, Named, NamesTwice, Makes, NamesAgain, Nights;
    ThesesPerAnchor(w, ps, anchor);
    NamedIff(ps, anchor);
    if NamesLater(ps, anchor) {
      var i, j :| 0 <= i < j < |ps| && Makes(ps[i], anchor) && Makes(ps[j], anchor);
      NamesAgainIff(w, ps, i, j, anchor);
    }
    if i, j :| NamesAgain(w, ps, i, j, anchor) {
      AgainIsLater(w, ps, i, j, anchor);
    }
  }

  lemma {:induction false} AgainIsLater(w: World, ps: seq<Pass>, i: nat, j: nat, anchor: nat)
    requires NamesAgain(w, ps, i, j, anchor)
    ensures NamesLater(ps, anchor)
  {
    hide Makes;
  }

  // ------------------------------------------------------------- the inputs

  function OneItem(it: Item, specs: seq<NewThesis>, ts: int, steps: nat): Pass {
    Pass([it], Update([], specs, []), ts, steps)
  }

  lemma {:induction false} OneItemSpecs(it: Item, specs: seq<NewThesis>)
    requires forall k :: 0 <= k < |specs| ==> specs[k].anchor == it.id
    ensures ValidSpecs(specs, Anchors(specs, Ids([it]))) == specs
    decreases |specs|
  {
    assert [it][0].id in Ids([it]);
    assert forall k :: 0 <= k < |specs| ==> specs[k].anchor in Anchors(specs, Ids([it]));
    AllValid(specs, Anchors(specs, Ids([it])));
  }

  lemma {:induction false} AllValid(specs: seq<NewThesis>, anchors: set<nat>)
    requires forall k :: 0 <= k < |specs| ==> specs[k].anchor in anchors
    ensures ValidSpecs(specs, anchors) == specs
    decreases |specs|
  {
    if specs != [] {
      AllValid(specs[..|specs| - 1], anchors);
      assert specs == specs[..|specs| - 1] + [specs[|specs| - 1]];
    }
  }

  lemma {:induction false} OneNamed(it: Item, confidence: real, ts: int, steps: nat)
    requires steps > 0
    ensures var p := OneItem(it, [NewThesis(it.id, confidence)], ts, steps);
      && Naming(Mints(p), it.id) == 1 && Made(p) == Specs(p) == [NewThesis(it.id, confidence)]
      && (DiesOnCommit(Specs(p), p.items, p.steps) <==> steps == 1)
  {
    var spec := NewThesis(it.id, confidence);
    var p := OneItem(it, [spec], ts, steps);
    OneItemSpecs(it, [spec]);
    assert [spec][..0] == [];
    assert Mints(p)[..0] == [];
  }

  /** A lane item whose night died between commit and ack, an item back on another message, or
      one read as a wide item: named on two nights it anchors two theses. */
  lemma {:induction false} NamedOnTwoNights(w: World, it: Item, again: Item, confidence: real, ts: int, steps: nat)
    requires Counted(w.tables) && steps > 0 && again.id == it.id
    requires it.msg.Some? ==> it.msg.value !in w.done
    requires again.msg.Some? ==> again.msg.value !in w.done && (again.msg == it.msg ==> steps == 1)
    ensures var specs := [NewThesis(it.id, confidence)];
      var ps := [OneItem(it, specs, ts, steps), OneItem(again, specs, ts, 1)];
      Follows(w, ps) && |NewTheses(w.tables, Nights(w, ps).tables, it.id)| == 2
  {
    var specs := [NewThesis(it.id, confidence)];
    var p, q := OneItem(it, specs, ts, steps), OneItem(again, specs, ts, 1);
    assert p.items == [it] && q.items == [again] && p.steps == steps;
    hide *;
    OneNamed(it, confidence, ts, steps);
    OneNamed(again, confidence, ts, 1);
    NamedPair(p, q, it.id);
    ThesesPerAnchor(w, [p, q], it.id);
    if again.msg.Some? {
      OneItemAcks(w.tables, p, it, again.msg.value);
    }
    OneItemClaims(w.done, it);
    OneItemClaims(w.done + AckedBy(w.tables, p), again);
    PairFollows(w, p, q);
  }

  lemma {:induction false} OneItemClaims(done: set<nat>, it: Item)
    requires it.msg.Some? ==> it.msg.value !in done
    ensures Claims(done, [it])
  {
  }

  lemma {:induction false} PairFollows(w: World, p: Pass, q: Pass)
    requires Claims(w.done, p.items) && Claims(w.done + AckedBy(w.tables, p), q.items)
    ensures Follows(w, [p, q])
  {
    hide Claims, AckedBy, Lived, ApplyAll;
    assert [p, q][..1] == [p] && [p][..0] == [];
    assert Nights(w, [p]) == After(w, p);
    assert Follows(w, [p]);
  }

  lemma {:induction false} NamedPair(p: Pass, q: Pass, anchor: nat)
    ensures Named([p], anchor) == Naming(Mints(p), anchor)
    ensures Named([p, q], anchor) == Naming(Mints(p), anchor) + Naming(Mints(q), anchor)
  {
    hide Mints, Naming;
    assert [p, q][..1] == [p] && [p][..0] == [];
    assert Named([], anchor) == 0;
  }

  lemma {:induction false} OneItemAcks(t: Tables, p: Pass, it: Item, m: nat)
    requires p.items == [it] && Naming(Mints(p), it.id) == 1 && Made(p) != [] && Made(p)[|Made(p)| - 1].anchor == it.id
    requires it.msg == Some(m) ==> DiesOnCommit(Specs(p), p.items, p.steps)
    ensures m !in AckedBy(t, p)
  {
    assert [it][..0] == [];
    assert Find([it], it.id) == Some(it);
    if it.msg == Some(m) {
      UnackedIff(t, p, it.id, m);
    } else {
      AcksAreListed(t, p, m);
    }
  }

  lemma {:induction false} AcksAreListed(t: Tables, p: Pass, m: nat)
    ensures m in AckedBy(t, p) ==> Carried(p.items, m)
  {
    hide Settling, Specs, Committed, Acks, Anchors, Ids, AnchorAcks;
    if m in AckedBy(t, p) {
      var tail := MadeFirst(t, p);
      if m in Acks(tail) {
        SettlingAcks(t, p, tail, m);
      } else if m in AnchorAcks(Made(p), p.items) {
        AnchorAcksAreItems(Made(p), p.items, m);
      } else {
        AnchorAcksAreItems(Made(p)[..|Made(p)| - 1], p.items, m);
      }
    }
  }

  lemma {:induction false} TwoNamed(it: Item, a: real, b: real, ts: int)
    ensures var p := OneItem(it, [NewThesis(it.id, a), NewThesis(it.id, b)], ts, 4);
      Naming(Mints(p), it.id) == 2
  {
    var specs := [NewThesis(it.id, a), NewThesis(it.id, b)];
    var p := OneItem(it, specs, ts, 4);
    OneItemSpecs(it, specs);
    AckOfIsAck(p.items, it.id);
    assert Made(p) == specs by {
      hide ValidSpecs, AckOf;
      assert specs[..1] == [specs[0]] && specs[..1][..0] == [];
      assert StepCount([specs[0]], p.items) == 1 + |AckOf(p.items, it.id)|;
    }
    var m := Mint(it.id, RevisionOf([it], it.id));
    hide Made, RevisionOf;
    assert Mints(p) == [m, m];
    assert [m, m][..1] == [m] && [m][..0] == [];
    assert Naming([m], it.id) == 1;
  }

  /** A reply naming one item twice, in a night that is not cut: two theses. */
  lemma {:induction false} NamedTwiceInOneReply(w: World, it: Item, a: real, b: real, ts: int)
    requires Counted(w.tables) && (it.msg.Some? ==> it.msg.value !in w.done)
    ensures var p := OneItem(it, [NewThesis(it.id, a), NewThesis(it.id, b)], ts, 4);
      Follows(w, [p]) && |NewTheses(w.tables, Nights(w, [p]).tables, it.id)| == 2
  {
    var p := OneItem(it, [NewThesis(it.id, a), NewThesis(it.id, b)], ts, 4);
    TwoNamed(it, a, b, ts);
    NamedPair(p, p, it.id);
    ThesesPerAnchor(w, [p], it.id);
    hide NewTheses, Mints, Naming, Counted;
    assert [p][..0] == [];
  }

  // --------------------------------------------------------- what is listed

  ghost predicate Apart(queue: seq<Msg>) { forall i, j :: 0 <= i < j < |queue| ==> queue[i].id != queue[j].id }

  lemma {:induction false} ClaimedApart(queue: seq<Msg>, topK: nat)
    requires Apart(queue)
    ensures var items := ClaimAll(queue, topK).items;
      && Listing(items)
      && forall i :: 0 <= i < |items| ==> items[i].msg.Some? && items[i].msg.value in MsgIds(queue)
    decreases |queue|
  {
    ClaimSettles(queue, topK);
    if queue != [] {
      var front, m := queue[..|queue| - 1], queue[|queue| - 1];
      ClaimedApart(front, topK);
      hide ClaimAll;
      var before, items := ClaimAll(front, topK).items, ClaimOne(ClaimAll(front, topK), m, topK).items;
      assert MsgIds(queue) == MsgIds(front) + [m.id];
      assert forall i :: 0 <= i < |front| ==> MsgIds(front)[i] == queue[i].id;
      assert m.id == queue[|queue| - 1].id;
      hide MsgIds, HasItem;
    }
  }

  /** What a night lists is what the queue may hand out: the items it claims from unacked
      messages and the wide items beside them. */
  lemma {:induction false} NightClaims(queue: seq<Msg>, wide: seq<Item>, topK: nat, done: set<nat>)
    requires Apart(queue) && ReadOnly(wide) && forall i :: 0 <= i < |queue| ==> queue[i].id !in done
    ensures var lane := ClaimAll(queue, topK).items;
      Claims(done, lane + WideOf(wide, lane))
  {
    var lane := ClaimAll(queue, topK).items;
    ClaimedApart(queue, topK);
    ItemsDistinct(lane, wide);
    hide ClaimAll, WideOf, DistinctIds, HasItem;
    forall i | 0 <= i < |lane| ensures lane[i].msg.value !in done {
      var k :| 0 <= k < |queue| && MsgIds(queue)[k] == lane[i].msg.value;
      assert queue[k].id !in done;
    }
  }
}
