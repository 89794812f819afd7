/** The loops of the thematic run. */
module ThematicService {
  import opened Options
  import opened Thematic
  import opened ThematicRun
  import opened ThesisStore

  method FindItem(items: seq<Item>, id: nat) returns (found: bool)
    ensures found == HasItem(items, id)
  {
    for i := 0 to |items|
      invariant !HasItem(items[..i], id)
    {
      if items[i].id == id {
        return true;
      }
    }
    assert items[..|items|] == items;
    return false;
  }

  method ClaimLane(queue: seq<Msg>, topK: nat) returns (c: Claimed)
    ensures c == ClaimAll(queue, topK)
  {
    var items: seq<Item>, failed: seq<nat>, left: seq<nat> := [], [], [];
    for i := 0 to |queue|
      invariant Claimed(items, failed, left) == ClaimAll(queue[..i], topK)
    {
      assert queue[..i + 1][..i] == queue[..i];
      var m := queue[i];
      if |items| >= topK {
        left := left + [m.id];
        continue;
      }
      var known := false;
      if m.item.Some? {
        known := FindItem(items, m.item.value);
      }
      if m.item.None? || known {
        failed := failed + [m.id];
      } else {
        items := items + [Item(m.item.value, if m.revision == 0 then 1 else m.revision, Some(m.id))];
      }
    }
    assert queue[..|queue|] == queue;
    c := Claimed(items, failed, left);
  }

  method ReadWide(wide: seq<Item>, lane: seq<Item>) returns (items: seq<Item>)
    ensures items == WideOf(wide, lane)
  {
    items := [];
    for i := 0 to |wide|
      invariant items == WideOf(wide[..i], lane)
    {
      assert wide[..i + 1][..i] == wide[..i];
      var held := FindItem(lane, wide[i].id);
      if !held {
        items := items + [wide[i]];
      }
    }
    assert wide[..|wide|] == wide;
  }

  /** Reconcile the model's item ops with what may be addressed. */
  method Resolve(ops: seq<ItemOp>, known: set<nat>, addressable: set<nat>, anchors: set<nat>) returns (r: Resolved)
    ensures r == ResolveOps(ops, known, addressable, anchors)
  {
    var byItem: map<nat, Decision> := map[];
    var downgraded := 0;
    for i := 0 to |ops|
      invariant Resolved(byItem, downgraded) == ResolveOps(ops[..i], known, addressable, anchors)
    {
      assert ops[..i + 1][..i] == ops[..i];
      var op := ops[i];
      if op.item !in addressable || op.item in anchors {
        continue;
      }
      if op.Attach? && op.thesis !in known {
        downgraded := downgraded + 1;
        byItem := byItem[op.item := Skip];
        continue;
      }
      byItem := byItem[op.item := if op.Attach? then Record(op.thesis) else Skip];
    }
    assert ops[..|ops|] == ops;
    r := Resolved(byItem, downgraded);
  }

  /** One transaction: the thesis under a new id, with its anchor as evidence. */
  method CreateWithAnchor(s: Store, spec: NewThesis, items: seq<Item>, ts: int)
    modifies s
    ensures var t := old(s.Contents());
      s.Contents() == Apply(Apply(t, Create(spec.confidence)),
                            AddEvidence(Evidence(t.next, spec.anchor, RevisionOf(items, spec.anchor)), ts))
    ensures s.next == old(s.next) + 1 && forall id :: id in old(s.theses) ==> id in s.theses
  {
    hide RevisionOf;
    var id := s.CreateThesis(spec.confidence);
    var added := s.AddEvidenceRow(Evidence(id, spec.anchor, RevisionOf(items, spec.anchor)), ts);
  }

  /** One transaction per new thesis, then the ack of its anchor's message. */
  method CreateTheses(s: Store, specs: seq<NewThesis>, items: seq<Item>, ts: int) returns (acked: seq<nat>)
    modifies s
    ensures s.Contents() == ApplyAll(old(s.Contents()), CreateOps(specs, items, old(s.next), ts))
    ensures forall id :: id in old(s.theses) ==> id in s.theses
    ensures acked == AnchorAcks(specs, items)
  {
    acked := [];
    ghost var start := s.Contents();
    assert ApplyAll(start, CreateOps(specs[..0], items, start.next, ts)) == start && AnchorAcks(specs[..0], items) == [];
    hide Apply, ApplyAll, RevisionOf, CreateOps, AnchorAcks;
    for i := 0 to |specs|
      invariant s.Contents() == ApplyAll(start, CreateOps(specs[..i], items, start.next, ts))
      invariant s.next == start.next + i
      invariant forall id :: id in start.theses ==> id in s.theses
      invariant acked == AnchorAcks(specs[..i], items)
    {
      var spec := specs[i];
      NextCreation(start, specs, i, items, ts);
      CreateWithAnchor(s, spec, items, ts);
      var it := Find(items, spec.anchor);
      assert acked + [] == acked;
      if it.Some? && it.value.msg.Some? {
        acked := acked + [it.value.msg.value];
      }
    }
    assert specs[..|specs|] == specs;
  }

  lemma {:induction false} NextCreation(t: Tables, specs: seq<NewThesis>, i: nat, items: seq<Item>, ts: int)
    requires i < |specs|
    ensures ApplyAll(t, CreateOps(specs[..i + 1], items, t.next, ts))
         == Apply(Apply(ApplyAll(t, CreateOps(specs[..i], items, t.next, ts)), Create(specs[i].confidence)),
                  AddEvidence(Evidence(t.next + i, specs[i].anchor, RevisionOf(items, specs[i].anchor)), ts))
    ensures AnchorAcks(specs[..i + 1], items) == AnchorAcks(specs[..i], items) + AcksOf(items, specs[i].anchor)
  {
    hide *;
    NextSpec(specs, i, items, t.next, ts);
    TwoOps(t, CreateOps(specs[..i], items, t.next, ts), Create(specs[i].confidence),
           AddEvidence(Evidence(t.next + i, specs[i].anchor, RevisionOf(items, specs[i].anchor)), ts));
  }

  /** The acknowledgement that an anchor's thesis brings. */
  function AcksOf(items: seq<Item>, anchor: nat): seq<nat> {
    match Find(items, anchor)
    case None => []
    case Some(it) => if it.msg.Some? then [it.msg.value] else []
  }

  lemma {:induction false} NextSpec(specs: seq<NewThesis>, i: nat, items: seq<Item>, next: nat, ts: int)
    requires i < |specs|
    ensures CreateOps(specs[..i + 1], items, next, ts)
         == CreateOps(specs[..i], items, next, ts)
            + [Create(specs[i].confidence),
               AddEvidence(Evidence(next + i, specs[i].anchor, RevisionOf(items, specs[i].anchor)), ts)]
    ensures AnchorAcks(specs[..i + 1], items) == AnchorAcks(specs[..i], items) + AcksOf(items, specs[i].anchor)
  {
    hide RevisionOf, Find;
    assert specs[..i + 1][..i] == specs[..i];
    assert AnchorAcks(specs[..i], items) + [] == AnchorAcks(specs[..i], items);
  }

  lemma {:induction false} OneMore(t: Tables, ops: seq<Op>, a: Op)
    ensures ApplyAll(t, ops + [a]) == Apply(ApplyAll(t, ops), a)
  {
    assert (ops + [a])[..|ops|] == ops;
  }

  /** Attach, journal or pass over one item, and ack it if it was claimed. */
  method DisposeItem(s: Store, it: Item, ops: map<nat, Decision>, anchors: set<nat>, before: Tally, ts: int)
    returns (t: Tally)
    requires it.id in ops && ops[it.id].Record? ==> ops[it.id].thesis in s.theses
    modifies s
    ensures s.Contents() == ApplyAll(old(s.Contents()), EvidenceOf(it, ops, anchors, ts))
    ensures forall id :: id in old(s.theses) ==> id in s.theses
    ensures t == DisposeOne(before, it, ops, anchors)
  {
    t := before;
    if it.id in anchors {
      return;
    }
    var addressed := it.id in ops;
    var op := if addressed then ops[it.id] else Skip;
    if it.msg.None? && op.Skip? {
      return t.(wideIgnored := t.wideIgnored + 1);
    }
    if op.Record? {
      var e := Evidence(op.thesis, it.id, it.revision);
      assert [AddEvidence(e, ts)][..0] == [];
      var added := s.AddEvidenceRow(e, ts);
      t := t.(evidence := t.evidence + 1);
      if it.msg.None? {
        t := t.(wideEvidence := t.wideEvidence + 1);
      }
    } else if addressed {
      t := t.(ignoredExplicit := t.ignoredExplicit + 1);
    } else {
      t := t.(ignoredUnaddressed := t.ignoredUnaddressed + 1);
    }
    if it.msg.Some? {
      t := t.(acked := t.acked + [it.msg.value]);
    }
  }

  method Dispose(s: Store, items: seq<Item>, ops: map<nat, Decision>, anchors: set<nat>, acked: seq<nat>, ts: int)
    returns (t: Tally)
    requires forall k :: k in ops && ops[k].Record? ==> ops[k].thesis in s.theses
    modifies s
    ensures s.Contents() == ApplyAll(old(s.Contents()), EvidenceOps(items, ops, anchors, ts))
    ensures t == DisposeAll(items, ops, anchors, acked)
  {
    t := Tally(acked, 0, 0, 0, 0, 0);
    ghost var start := s.Contents();
    assert EvidenceOps(items[..0], ops, anchors, ts) == [];
    assert ApplyAll(start, []) == start;
    hide DisposeOne, ApplyAll, EvidenceOf;
    for i := 0 to |items|
      invariant s.Contents() == ApplyAll(start, EvidenceOps(items[..i], ops, anchors, ts))
      invariant forall id :: id in start.theses ==> id in s.theses
      invariant t == DisposeAll(items[..i], ops, anchors, acked)
    {
      assert items[..i + 1][..i] == items[..i];
      InTurn(start, EvidenceOps(items[..i], ops, anchors, ts), EvidenceOf(items[i], ops, anchors, ts));
      t := DisposeItem(s, items[i], ops, anchors, t, ts);
    }
    assert items[..|items|] == items;
  }

  method ReviewTheses(s: Store, reviews: seq<Review>)
    modifies s
    ensures s.Contents() == ApplyAll(old(s.Contents()), ReviewOps(reviews))
  {
    ghost var start := s.Contents();
    for i := 0 to |reviews|
      invariant s.Contents() == ApplyAll(start, ReviewOps(reviews)[..i])
    {
      ghost var ops := ReviewOps(reviews);
      assert ops[..i + 1] == ops[..i] + [ops[i]];
      OneMore(start, ops[..i], ops[i]);
      var r := reviews[i];
      match r.op {
        case Keep => s.SetConfidenceOf(r.thesis, r.confidence);
        case Invalidate => s.SetStatusOf(r.thesis, Invalidated);
        case Realize => s.SetStatusOf(r.thesis, Realized);
      }
    }
    assert ReviewOps(reviews)[..|reviews|] == ReviewOps(reviews);
  }

  method RunNight(s: Store, queue: seq<Msg>, wide: seq<Item>, topK: nat, deep: bool, reply: Option<Update>, ts: int)
    returns (o: Outcome)
    modifies s
    ensures (s.Contents(), o) == Night(old(s.Contents()), queue, wide, topK, deep, reply, ts)
  {
    hide ClaimAll, WideOf, LaneIds, ResolveOps, DisposeAll, AnchorAcks, ValidSpecs, ValidReviews, ApplyAll, CreateOps,
         EvidenceOps, ReviewOps, Anchors, Ids;
    ClaimSettles(queue, topK);
    ghost var start := s.Contents();
    var c := ClaimLane(queue, topK);
    var known := Known(s.Contents());
    var wideItems := ReadWide(wide, c.items);
    var items := c.items + wideItems;
    var update := QUIET;
    if items != [] || (deep && known != {}) {
      if reply.None? {
        return Outcome(true, items, c.failed + LaneIds(c.items), NOTHING, 0);
      }
      update := reply.value;
    }
    var anchors := Anchors(update.newTheses, Ids(items));
    var res := Resolve(update.items, known, Ids(items), anchors);
    var specs := ValidSpecs(update.newTheses, anchors);
    var acked := CreateTheses(s, specs, items, ts);
    forall k | k in res.ops && res.ops[k].Record? ensures res.ops[k].thesis in s.theses {
      ResolveKeepsLastOp(update.items, known, Ids(items), anchors, k);
    }
    var tally := Dispose(s, items, res.ops, anchors, acked, ts);
    ReviewTheses(s, ValidReviews(update.reviews, known));
    o := Outcome(false, items, c.failed, tally, res.downgraded);
    ghost var a := CreateOps(specs, items, start.next, ts);
    ghost var b := EvidenceOps(items, res.ops, anchors, ts);
    InTurn(start, a, b);
    InTurn(start, a + b, ReviewOps(ValidReviews(update.reviews, known)));
  }
}
