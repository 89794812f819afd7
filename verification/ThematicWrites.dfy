/** What a finished thematic night leaves in the store, said of the reply and the items. */
module ThematicWrites {
  import opened Options
  import opened Thematic
  import opened ThematicRun
  import opened ThesisStore

  // -------------------------------------------------------------- reviews

  /** The first review that closes the thesis, or the length. */
  function FirstClosing(reviews: seq<Review>, id: nat): (k: nat)
    ensures k <= |reviews|
    ensures k < |reviews| ==> reviews[k].thesis == id && reviews[k].op != Keep
    ensures forall i :: 0 <= i < k && reviews[i].thesis == id ==> reviews[i].op == Keep
  {
    if reviews == [] then 0
    else
      var k := FirstClosing(reviews[..|reviews| - 1], id);
      var last := reviews[|reviews| - 1];
      if k < |reviews| - 1 then k
      else if last.thesis == id && last.op != Keep then |reviews| - 1
      else |reviews|
  }

  /** The last of the first n reviews of the thesis, if any. */
  function LastReview(reviews: seq<Review>, id: nat, n: nat): (r: Option<Review>)
    requires n <= |reviews|
    ensures r.None? <==> forall i :: 0 <= i < n ==> reviews[i].thesis != id
    ensures r.Some? ==> exists i :: 0 <= i < n && reviews[i] == r.value && r.value.thesis == id
                                    && forall j :: i < j < n ==> reviews[j].thesis != id
  {
    if n == 0 then None
    else if reviews[n - 1].thesis == id then Some(reviews[n - 1])
    else LastReview(reviews, id, n - 1)
  }

  /** An ACTIVE thesis ends as its first closing review says, with the confidence of the last
      review before that; the count and the evidence stay. */
  lemma {:induction false} ReviewsDecide(t: Tables, reviews: seq<Review>, id: nat)
    requires id in t.theses && t.theses[id].status == Active
    ensures var v, k := ApplyAll(t, ReviewOps(reviews)), FirstClosing(reviews, id);
      && id in v.theses && v.log == t.log && v.next == t.next
      && v.theses[id].status == (if k == |reviews| then Active
                                 else if reviews[k].op == Invalidate then Invalidated else Realized)
      && v.theses[id].confidence == (match LastReview(reviews, id, k)
                                     case None => t.theses[id].confidence
                                     case Some(r) => r.confidence)
      && v.theses[id].evidenceCount == t.theses[id].evidenceCount
      && v.theses[id].lastEvidence == t.theses[id].lastEvidence
    decreases |reviews|
  {
    if reviews != [] {
      var n := |reviews| - 1;
      var front, ops := reviews[..n], ReviewOps(reviews);
      assert ops[..n] == ReviewOps(front) && ops[n] == WriteOf(reviews[n]);
      ReviewsDecide(t, front, id);
      var v, last := ApplyAll(t, ReviewOps(front)), reviews[n];
      assert ApplyAll(t, ops) == Apply(v, WriteOf(last));
      ReviewStep(v, last, id);
      hide Apply, WriteOf;
      ClosingSnoc(reviews, id);
      LastReviewFront(reviews, id, FirstClosing(front, id));
      assert LastReview(reviews, id, n + 1) == if last.thesis == id then Some(last) else LastReview(reviews, id, n);
      hide ApplyAll, ReviewOps, FirstClosing, LastReview;
    }
  }

  /** A review moves its own thesis only, while that is ACTIVE. */
  lemma {:induction false} ReviewStep(v: Tables, r: Review, id: nat)
    requires id in v.theses
    ensures var u, th := Apply(v, WriteOf(r)), v.theses[id];
      && id in u.theses && u.log == v.log && u.next == v.next
      && u.theses[id] == if r.thesis != id || th.status != Active then th
                         else if r.op == Keep then th.(confidence := r.confidence)
                         else th.(status := if r.op == Invalidate then Invalidated else Realized)
  {
  }

  lemma {:induction false} ClosingSnoc(reviews: seq<Review>, id: nat)
    requires reviews != []
    ensures var n := |reviews| - 1;
      var k := FirstClosing(reviews[..n], id);
      FirstClosing(reviews, id) == if k < n then k
                                   else if reviews[n].thesis == id && reviews[n].op != Keep then n else n + 1
  {
  }

  lemma {:induction false} LastReviewFront(reviews: seq<Review>, id: nat, n: nat)
    requires reviews != [] && n <= |reviews| - 1
    ensures LastReview(reviews, id, n) == LastReview(reviews[..|reviews| - 1], id, n)
    decreases n
  {
    if n > 0 {
      LastReviewFront(reviews, id, n - 1);
    }
  }

  /** How the reviews close the thesis, if they do. */
  function ClosedBy(reviews: seq<Review>, id: nat): Option<ReviewOp> {
    var k := FirstClosing(reviews, id);
    if k == |reviews| then None else Some(reviews[k].op)
  }

  /** The confidence that the reviews leave. */
  function ConfidenceBy(reviews: seq<Review>, id: nat, confidence: real): real {
    match LastReview(reviews, id, FirstClosing(reviews, id))
    case None => confidence
    case Some(r) => r.confidence
  }

  lemma {:induction false} BySnoc(reviews: seq<Review>, id: nat, confidence: real)
    requires reviews != []
    ensures var front, last := reviews[..|reviews| - 1], reviews[|reviews| - 1];
      var closed := ClosedBy(front, id);
      && ClosedBy(reviews, id) == (if closed.Some? then closed
                                   else if last.thesis == id && last.op != Keep then Some(last.op) else None)
      && ConfidenceBy(reviews, id, confidence)
         == if closed.None? && last.thesis == id && last.op == Keep then last.confidence
            else ConfidenceBy(front, id, confidence)
  {
    var n := |reviews| - 1;
    ClosingSnoc(reviews, id);
    LastReviewFront(reviews, id, FirstClosing(reviews[..n], id));
    LastReviewFront(reviews, id, n);
    assert LastReview(reviews, id, n + 1)
        == if reviews[n].thesis == id then Some(reviews[n]) else LastReview(reviews, id, n);
    hide FirstClosing, LastReview;
  }

  /** Dropping reviews of unknown theses changes nothing for a known one. */
  lemma {:induction false} KnownReviewsSuffice(reviews: seq<Review>, known: set<nat>, id: nat, confidence: real)
    requires id in known
    ensures var valid := ValidReviews(reviews, known);
      ClosedBy(valid, id) == ClosedBy(reviews, id) && ConfidenceBy(valid, id, confidence) == ConfidenceBy(reviews, id, confidence)
    decreases |reviews|
  {
    if reviews != [] {
      var n := |reviews| - 1;
      KnownReviewsSuffice(reviews[..n], known, id, confidence);
      BySnoc(reviews, id, confidence);
      var valid := ValidReviews(reviews, known);
      if reviews[n].thesis in known {
        BySnoc(valid, id, confidence);
        assert valid[..|valid| - 1] == ValidReviews(reviews[..n], known);
      }
      hide ClosedBy, ConfidenceBy;
    }
  }

  // ------------------------------------------------------------- evidence

  /** The reply attaches this item, at the revision listed, to this known thesis: it is the
      last op named for the item, which anchors nothing. */
  predicate Attaches(items: seq<Item>, u: Update, known: set<nat>, e: Evidence) {
    && (exists i :: 0 <= i < |items| && items[i].id == e.item && items[i].revision == e.revision)
    && !(exists k :: 0 <= k < |u.newTheses| && u.newTheses[k].anchor == e.item)
    && LastOp(u.items, e.item) == Some(Attach(e.item, e.thesis)) && e.thesis in known
  }

  predicate Offers(ops: seq<Op>, e: Evidence) { exists i :: 0 <= i < |ops| && ops[i].AddEvidence? && ops[i].e == e }

  lemma {:induction false} OffersAppend(a: seq<Op>, b: seq<Op>, e: Evidence)
    ensures Offers(a + b, e) <==> Offers(a, e) || Offers(b, e)
  {
    var c := a + b;
    if i :| 0 <= i < |a| && a[i].AddEvidence? && a[i].e == e {
      assert c[i] == a[i];
    }
    if i :| 0 <= i < |b| && b[i].AddEvidence? && b[i].e == e {
      assert c[|a| + i] == b[i];
    }
    if i :| 0 <= i < |c| && c[i].AddEvidence? && c[i].e == e {
      assert if i < |a| then c[i] == a[i] else c[i] == b[i - |a|];
    }
  }

  lemma {:induction false} EvidenceOpsOffer(items: seq<Item>, ops: map<nat, Decision>, anchors: set<nat>, ts: int, e: Evidence)
    ensures Offers(EvidenceOps(items, ops, anchors, ts), e) <==>
      && (exists i :: 0 <= i < |items| && items[i].id == e.item && items[i].revision == e.revision)
      && e.item !in anchors && e.item in ops && ops[e.item] == Record(e.thesis)
    decreases |items|
  {
    if items != [] {
      var front, last := items[..|items| - 1], items[|items| - 1];
      EvidenceOpsOffer(front, ops, anchors, ts, e);
      OffersAppend(EvidenceOps(front, ops, anchors, ts), EvidenceOf(last, ops, anchors, ts), e);
      OneOffer(last, ops, anchors, ts, e);
      hide Offers, EvidenceOf;
      assert forall i :: 0 <= i < |front| ==> items[i] == front[i];
      assert items[|items| - 1] == last;
    }
  }

  lemma {:induction false} OneOffer(it: Item, ops: map<nat, Decision>, anchors: set<nat>, ts: int, e: Evidence)
    ensures Offers(EvidenceOf(it, ops, anchors, ts), e) <==>
      it.id == e.item && it.revision == e.revision && it.id !in anchors && it.id in ops && ops[it.id] == Record(e.thesis)
  {
    var s := EvidenceOf(it, ops, anchors, ts);
    if s != [] {
      assert s[0].AddEvidence?;
    }
  }

  lemma {:induction false} AnchorsAre(items: seq<Item>, specs: seq<NewThesis>, id: nat)
    requires exists i :: 0 <= i < |items| && items[i].id == id
    ensures id in Anchors(specs, Ids(items)) <==> exists k :: 0 <= k < |specs| && specs[k].anchor == id
  {
    assert id in Ids(items);
  }

  /** Of the items a night lists, exactly those attached by the reply are offered as evidence
      to the theses it loaded. */
  lemma {:induction false} DisposalOffersIff(items: seq<Item>, u: Update, known: set<nat>, ts: int, e: Evidence)
    ensures var anchors := Anchors(u.newTheses, Ids(items));
      Offers(EvidenceOps(items, ResolveOps(u.items, known, Ids(items), anchors).ops, anchors, ts), e)
      <==> Attaches(items, u, known, e)
  {
    var anchors := Anchors(u.newTheses, Ids(items));
    var ops := ResolveOps(u.items, known, Ids(items), anchors).ops;
    EvidenceOpsOffer(items, ops, anchors, ts, e);
    ResolveKeepsLastOp(u.items, known, Ids(items), anchors, e.item);
    if i :| 0 <= i < |items| && items[i].id == e.item {
      AnchorsAre(items, u.newTheses, e.item);
      assert e.item in Ids(items);
      LastOpNames(u.items, e.item);
    }
    hide ResolveOps, EvidenceOps, Anchors, Offers, Ids;
  }

  lemma {:induction false} LastOpNames(ops: seq<ItemOp>, id: nat)
    ensures LastOp(ops, id).Some? ==> LastOp(ops, id).value.item == id
    decreases |ops|
  {
    if ops != [] {
      LastOpNames(ops[..|ops| - 1], id);
    }
  }

  // ----------------------------------------------------------- the whole night

  lemma {:induction false} ReviewsOfferNothing(reviews: seq<Review>, e: Evidence)
    ensures !Offers(ReviewOps(reviews), e)
  {
    assert forall i :: 0 <= i < |reviews| ==> ReviewOps(reviews)[i] == WriteOf(reviews[i]);
  }

  lemma {:induction false} CreationsOffer(specs: seq<NewThesis>, items: seq<Item>, next: nat, ts: int, e: Evidence)
    ensures Offers(CreateOps(specs, items, next, ts), e) ==> e.thesis >= next
    decreases |specs|
  {
    if specs != [] {
      var n := |specs| - 1;
      CreationsOffer(specs[..n], items, next, ts, e);
      var last := [Create(specs[n].confidence),
                   AddEvidence(Evidence(next + n, specs[n].anchor, RevisionOf(items, specs[n].anchor)), ts)];
      OffersAppend(CreateOps(specs[..n], items, next, ts), last, e);
      hide CreateOps, RevisionOf;
    }
  }

  lemma {:induction false} OfferedIs(ops: seq<Op>, e: Evidence)
    ensures e in Offered(ops, e.thesis) <==> Offers(ops, e)
  {
  }

  /** The log after a night: a thesis that was there gains exactly the item revisions that the
      reply attaches to it while it is ACTIVE. */
  lemma {:induction false} NightLogsIff(t: Tables, items: seq<Item>, u: Update, ts: int, e: Evidence)
    requires Counted(t) && e.thesis in t.theses
    ensures Logged(ApplyAll(t, NightOps(t, items, u, ts)).log, e) <==>
      Logged(t.log, e) || Attaches(items, u, Known(t), e)
  {
    var known, anchors := Known(t), Anchors(u.newTheses, Ids(items));
    var a := CreateOps(ValidSpecs(u.newTheses, anchors), items, t.next, ts);
    var b := EvidenceOps(items, ResolveOps(u.items, known, Ids(items), anchors).ops, anchors, ts);
    var c := ReviewOps(ValidReviews(u.reviews, known));
    var ops := NightOps(t, items, u, ts);
    assert ops == a + b + c;
    OffersAppend(a + b, c, e);
    OffersAppend(a, b, e);
    CreationsOffer(ValidSpecs(u.newTheses, anchors), items, t.next, ts, e);
    ReviewsOfferNothing(ValidReviews(u.reviews, known), e);
    DisposalOffersIff(items, u, known, ts, e);
    OfferedIs(ops, e);
    RowsAreOffers(t, ops, e.thesis);
    InRowSet(t.log, e);
    InRowSet(ApplyAll(t, ops).log, e);
    assert e.thesis < t.next;
    hide *;
  }

  lemma {:induction false} InRowSet(log: seq<Evidence>, e: Evidence)
    ensures e in RowSet(log, e.thesis) <==> Logged(log, e)
  {
  }

  lemma {:induction false} EvidenceKeepsStanding(t: Tables, ops: seq<Op>, id: nat)
    requires id in t.theses && id < t.next
    requires forall i :: 0 <= i < |ops| ==> ops[i].Create? || ops[i].AddEvidence?
    ensures var v := ApplyAll(t, ops);
      && id in v.theses && t.next <= v.next
      && v.theses[id].status == t.theses[id].status && v.theses[id].confidence == t.theses[id].confidence
    decreases |ops|
  {
    if ops != [] {
      EvidenceKeepsStanding(t, ops[..|ops| - 1], id);
    }
  }

  lemma {:induction false} NoReviewWrites(specs: seq<NewThesis>, items: seq<Item>, ops: map<nat, Decision>,
                                          anchors: set<nat>, next: nat, ts: int)
    ensures forall i :: 0 <= i < |CreateOps(specs, items, next, ts)| ==>
      CreateOps(specs, items, next, ts)[i].Create? || CreateOps(specs, items, next, ts)[i].AddEvidence?
    ensures forall i :: 0 <= i < |EvidenceOps(items, ops, anchors, ts)| ==>
      EvidenceOps(items, ops, anchors, ts)[i].AddEvidence?
    decreases |specs| + |items|
  {
    if specs != [] {
      NoReviewWrites(specs[..|specs| - 1], items, ops, anchors, next, ts);
    }
    if items != [] {
      NoReviewWrites(specs, items[..|items| - 1], ops, anchors, next, ts);
    }
  }

  /** Status and confidence after a night: what the reply's reviews make of an ACTIVE thesis. */
  lemma {:induction false} NightReviews(t: Tables, items: seq<Item>, u: Update, ts: int, id: nat)
    requires Counted(t) && id in Known(t)
    ensures var v := ApplyAll(t, NightOps(t, items, u, ts));
      && id in v.theses
      && v.theses[id].status == (match ClosedBy(u.reviews, id)
                                 case None => Active
                                 case Some(op) => if op == Invalidate then Invalidated else Realized)
      && v.theses[id].confidence == ConfidenceBy(u.reviews, id, t.theses[id].confidence)
  {
    var known, anchors := Known(t), Anchors(u.newTheses, Ids(items));
    var specs := ValidSpecs(u.newTheses, anchors);
    var decisions := ResolveOps(u.items, known, Ids(items), anchors).ops;
    var a, b := CreateOps(specs, items, t.next, ts), EvidenceOps(items, decisions, anchors, ts);
    var reviews := ValidReviews(u.reviews, known);
    assert NightOps(t, items, u, ts) == (a + b) + ReviewOps(reviews);
    NoReviewWrites(specs, items, decisions, anchors, t.next, ts);
    EvidenceKeepsStanding(t, a + b, id);
    InTurn(t, a + b, ReviewOps(reviews));
    hide ApplyAll, CreateOps, EvidenceOps, ReviewOps, ResolveOps, ValidReviews, ValidSpecs, Anchors, Ids, FirstClosing,
         LastReview;
    ReviewsDecide(ApplyAll(t, a + b), reviews, id);
    KnownReviewsSuffice(u.reviews, known, id, t.theses[id].confidence);
  }

  lemma {:induction false} CreatedLast(t: Tables, specs: seq<NewThesis>, items: seq<Item>, ts: int)
    requires Counted(t) && specs != []
    requires ApplyAll(t, CreateOps(specs[..|specs| - 1], items, t.next, ts)).next == t.next + |specs| - 1
    ensures var n := |specs| - 1;
      var v, u := ApplyAll(t, CreateOps(specs[..n], items, t.next, ts)), ApplyAll(t, CreateOps(specs, items, t.next, ts));
      u.next == t.next + n + 1 && u.theses == v.theses[t.next + n := Thesis(Active, specs[n].confidence, 1, Some(ts))]
  {
    hide RevisionOf, Apply, Counted, ApplyAll;
    var n := |specs| - 1;
    var ops := CreateOps(specs[..n], items, t.next, ts);
    var e := Evidence(t.next + n, specs[n].anchor, RevisionOf(items, specs[n].anchor));
    RunKeepsCounted(t, ops);
    TwoOps(t, ops, Create(specs[n].confidence), AddEvidence(e, ts));
    assert CreateOps(specs, items, t.next, ts) == ops + [Create(specs[n].confidence), AddEvidence(e, ts)];
    FreshRow(ApplyAll(t, ops), specs[n].confidence, e, ts);
  }

  /** The thesis is ACTIVE at its spec's confidence with one piece of evidence, of this date. */
  predicate Started(m: map<nat, Thesis>, id: nat, spec: NewThesis, ts: int) {
    id in m && m[id] == Thesis(Active, spec.confidence, 1, Some(ts))
  }

  predicate AllStarted(m: map<nat, Thesis>, base: nat, specs: seq<NewThesis>, ts: int) {
    forall k :: 0 <= k < |specs| ==> Started(m, base + k, specs[k], ts)
  }

  lemma {:induction false} OneMoreStarts(m: map<nat, Thesis>, base: nat, specs: seq<NewThesis>, ts: int)
    requires specs != [] && AllStarted(m, base, specs[..|specs| - 1], ts)
    ensures var n := |specs| - 1; AllStarted(m[base + n := Thesis(Active, specs[n].confidence, 1, Some(ts))], base, specs, ts)
  {
    var n := |specs| - 1;
    var u := m[base + n := Thesis(Active, specs[n].confidence, 1, Some(ts))];
    forall k | 0 <= k < |specs| ensures Started(u, base + k, specs[k], ts) {
      if k < n {
        assert Started(m, base + k, specs[..n][k], ts);
      }
    }
  }

  /** The theses a night creates take the next ids and start like that. */
  lemma {:induction false} CreatedStarts(t: Tables, specs: seq<NewThesis>, items: seq<Item>, ts: int)
    requires Counted(t)
    ensures var v := ApplyAll(t, CreateOps(specs, items, t.next, ts));
      v.next == t.next + |specs| && AllStarted(v.theses, t.next, specs, ts)
    decreases |specs|
  {
    hide Counted, Started;
    if specs == [] {
      assert ApplyAll(t, CreateOps(specs, items, t.next, ts)) == t;
    } else {
      hide *;
      var front := specs[..|specs| - 1];
      CreatedStarts(t, front, items, ts);
      CreatedLast(t, specs, items, ts);
      OneMoreStarts(ApplyAll(t, CreateOps(front, items, t.next, ts)).theses, t.next, specs, ts);
    }
  }

  /** Evidence is dated by the night that adds it: a thesis that gained any has its date, any
      other keeps the one it had. */
  lemma {:induction false} EvidenceDates(t: Tables, ops: seq<Op>, ts: int, id: nat)
    requires id in t.theses && id < t.next
    requires forall i :: 0 <= i < |ops| && ops[i].AddEvidence? ==> ops[i].ts == ts
    ensures var v := ApplyAll(t, ops);
      && id in v.theses && t.next <= v.next && v.theses[id].evidenceCount >= t.theses[id].evidenceCount
      && v.theses[id].lastEvidence == if v.theses[id].evidenceCount > t.theses[id].evidenceCount then Some(ts)
                                      else t.theses[id].lastEvidence
    decreases |ops|
  {
    if ops != [] {
      EvidenceDates(t, ops[..|ops| - 1], ts, id);
    }
  }

  lemma {:induction false} NightDates(t: Tables, items: seq<Item>, u: Update, ts: int, id: nat)
    requires Counted(t) && id in t.theses
    ensures var v := ApplyAll(t, NightOps(t, items, u, ts));
      && id in v.theses
      && v.theses[id].lastEvidence == if v.theses[id].evidenceCount > t.theses[id].evidenceCount then Some(ts)
                                      else t.theses[id].lastEvidence
  {
    var ops := NightOps(t, items, u, ts);
    var anchors := Anchors(u.newTheses, Ids(items));
    OpsDated(ValidSpecs(u.newTheses, anchors), items, ResolveOps(u.items, Known(t), Ids(items), anchors).ops, anchors,
             t.next, ts);
    hide ResolveOps, CreateOps, EvidenceOps, ValidSpecs, ValidReviews, Anchors, Ids;
    EvidenceDates(t, ops, ts, id);
  }

  lemma {:induction false} OpsDated(specs: seq<NewThesis>, items: seq<Item>, ops: map<nat, Decision>, anchors: set<nat>,
                                    next: nat, ts: int)
    ensures forall i :: 0 <= i < |CreateOps(specs, items, next, ts)| && CreateOps(specs, items, next, ts)[i].AddEvidence? ==>
      CreateOps(specs, items, next, ts)[i].ts == ts
    ensures forall i :: 0 <= i < |EvidenceOps(items, ops, anchors, ts)| ==>
      EvidenceOps(items, ops, anchors, ts)[i].AddEvidence? && EvidenceOps(items, ops, anchors, ts)[i].ts == ts
    decreases |specs| + |items|
  {
    if specs != [] {
      OpsDated(specs[..|specs| - 1], items, ops, anchors, next, ts);
    }
    if items != [] {
      OpsDated(specs, items[..|items| - 1], ops, anchors, next, ts);
    }
  }

  lemma {:induction false} FreshRow(v: Tables, confidence: real, e: Evidence, ts: int)
    requires Counted(v) && e.thesis == v.next
    ensures var u := Apply(Apply(v, Create(confidence)), AddEvidence(e, ts));
      && u.next == v.next + 1 && u.theses == v.theses[v.next := Thesis(Active, confidence, 1, Some(ts))]
  {
    var w := Apply(v, Create(confidence));
    assert v.next !in v.theses;
    assert !Logged(w.log, e);
  }

  /** A night is rejected exactly when no usable reply came although the model was asked,
      which is when something is listed or, in a deep run, some thesis is ACTIVE. */
  lemma {:induction false} RejectedIff(t: Tables, queue: seq<Msg>, wide: seq<Item>, topK: nat, deep: bool,
                                       reply: Option<Update>, ts: int)
    ensures var o := Night(t, queue, wide, topK, deep, reply, ts).1;
      o.rejected <==> reply.None? && (o.items != [] || (deep && exists id :: id in t.theses && t.theses[id].status == Active))
    ensures var (u, o) := Night(t, queue, wide, topK, deep, reply, ts);
      reply.None? && !o.rejected ==> u == t && o.items == [] && o.tally.acked == []
  {
    hide ClaimAll, WideOf, LaneIds, ResolveOps, DisposeAll, AnchorAcks, ValidSpecs, ValidReviews, CreateOps, EvidenceOps;
    if id :| id in t.theses && t.theses[id].status == Active {
      assert id in Known(t);
    }
    QuietNight(t, ts);
  }

  lemma {:induction false} QuietNight(t: Tables, ts: int)
    ensures ApplyAll(t, NightOps(t, [], QUIET, ts)) == t
    ensures DisposeAll([], map[], {}, []).acked == [] && AnchorAcks(ValidSpecs([], {}), []) == []
    ensures Anchors([], Ids([])) == {} && ResolveOps([], Known(t), Ids([]), {}).ops == map[]
  {
    assert Anchors([], Ids([])) == {};
    assert NightOps(t, [], QUIET, ts) == [];
  }

  // ------------------------------------------------------------ what is claimed

  /** The item a message stands for; a missing revision is the first. */
  function ItemOf(m: Msg): Item
    requires m.item.Some?
  {
    Item(m.item.value, if m.revision == 0 then 1 else m.revision, Some(m.id))
  }

  predicate NamedBefore(queue: seq<Msg>, i: nat)
    requires i < |queue|
  {
    exists j :: 0 <= j < i && queue[j].item == queue[i].item
  }

  /** Until the batch is full, every item named so far is held. */
  lemma {:induction false} HeldSoFar(queue: seq<Msg>, topK: nat, id: nat)
    requires |ClaimAll(queue, topK).items| < topK
    ensures HasItem(ClaimAll(queue, topK).items, id) <==> exists j :: 0 <= j < |queue| && queue[j].item == Some(id)
    decreases |queue|
  {
    if queue != [] {
      var n := |queue| - 1;
      var c, d := ClaimAll(queue[..n], topK), ClaimAll(queue, topK);
      HeldSoFar(queue[..n], topK, id);
      assert forall j :: 0 <= j < n ==> queue[j] == queue[..n][j];
      if |d.items| > |c.items| {
        HasItemSnoc(c.items, d.items[|d.items| - 1], id);
        assert d.items == c.items + [d.items[|d.items| - 1]];
      }
      hide HasItem;
    }
  }

  lemma {:induction false} HasItemSnoc(items: seq<Item>, it: Item, id: nat)
    ensures HasItem(items + [it], id) <==> HasItem(items, id) || it.id == id
  {
    var all := items + [it];
    assert all[|items|] == it;
    assert forall i :: 0 <= i < |items| ==> all[i] == items[i];
  }

  /** What the claim loop does with message i: it stays queued once the batch is full, fails
      when it is malformed or about an item named before, and is accepted otherwise. */
  lemma {:induction false} ClaimFate(queue: seq<Msg>, topK: nat, i: nat)
    requires i < |queue|
    ensures var before, after, m := ClaimAll(queue[..i], topK), ClaimAll(queue[..i + 1], topK), queue[i];
      if |before.items| >= topK then after == before.(left := before.left + [m.id])
      else if m.item.None? || NamedBefore(queue, i) then after == before.(failed := before.failed + [m.id])
      else after == before.(items := before.items + [ItemOf(m)])
  {
    assert queue[..i + 1][..i] == queue[..i];
    var m := queue[i];
    if |ClaimAll(queue[..i], topK).items| < topK && m.item.Some? {
      HeldSoFar(queue[..i], topK, m.item.value);
      assert forall j :: 0 <= j < i ==> queue[..i][j] == queue[j];
    }
    hide HasItem;
  }
}
