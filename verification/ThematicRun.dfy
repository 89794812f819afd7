/** A whole thematic night over the thesis store. */
module ThematicRun {
  import opened Options
  import opened Thematic
  import opened ThesisStore

  datatype Outcome = Outcome(rejected: bool, items: seq<Item>, failed: seq<nat>, tally: Tally, downgraded: nat)

  const NOTHING := Tally([], 0, 0, 0, 0, 0)

  const QUIET := Update([], [], [])

  function Known(t: Tables): set<nat> { set id | id in t.theses && t.theses[id].status == Active }

  /** Wide items are read beside the lane and skip what the lane already holds. */
  function WideOf(wide: seq<Item>, lane: seq<Item>): seq<Item> {
    if wide == [] then []
    else
      var front := WideOf(wide[..|wide| - 1], lane);
      if HasItem(lane, wide[|wide| - 1].id) then front else front + [wide[|wide| - 1]]
  }

  /** Distinct items, none of them a message. */
  ghost predicate ReadOnly(wide: seq<Item>) {
    DistinctIds(wide) && forall i :: 0 <= i < |wide| ==> wide[i].msg.None?
  }

  function RevisionOf(items: seq<Item>, id: nat): nat {
    if items == [] then 1 else if items[0].id == id then items[0].revision else RevisionOf(items[1..], id)
  }

  /** The k-th new thesis takes the k-th id of the sequence and its anchor as evidence. */
  function CreateOps(specs: seq<NewThesis>, items: seq<Item>, next: nat, ts: int): seq<Op> {
    if specs == [] then []
    else
      var k := |specs| - 1;
      CreateOps(specs[..k], items, next, ts)
      + [Create(specs[k].confidence),
         AddEvidence(Evidence(next + k, specs[k].anchor, RevisionOf(items, specs[k].anchor)), ts)]
  }

  function EvidenceOf(it: Item, ops: map<nat, Decision>, anchors: set<nat>, ts: int): seq<Op> {
    if it.id !in anchors && it.id in ops && ops[it.id].Record? then
      [AddEvidence(Evidence(ops[it.id].thesis, it.id, it.revision), ts)]
    else []
  }

  function EvidenceOps(items: seq<Item>, ops: map<nat, Decision>, anchors: set<nat>, ts: int): seq<Op> {
    if items == [] then []
    else EvidenceOps(items[..|items| - 1], ops, anchors, ts) + EvidenceOf(items[|items| - 1], ops, anchors, ts)
  }

  function WriteOf(r: Review): Op {
    match r.op
    case Keep => SetConfidence(r.thesis, r.confidence)
    case Invalidate => SetStatus(r.thesis, Invalidated)
    case Realize => SetStatus(r.thesis, Realized)
  }

  function ReviewOps(reviews: seq<Review>): seq<Op> {
    seq(|reviews|, i requires 0 <= i < |reviews| => WriteOf(reviews[i]))
  }

  /** Every store write of a night, in order. */
  function NightOps(t: Tables, items: seq<Item>, u: Update, ts: int): seq<Op> {
    var known := Known(t);
    var anchors := Anchors(u.newTheses, Ids(items));
    CreateOps(ValidSpecs(u.newTheses, anchors), items, t.next, ts)
    + EvidenceOps(items, ResolveOps(u.items, known, Ids(items), anchors).ops, anchors, ts)
    + ReviewOps(ValidReviews(u.reviews, known))
  }

  predicate AsksModel(t: Tables, items: seq<Item>, deep: bool) { items != [] || (deep && Known(t) != {}) }

  /** `reply` is None when no model answered or its output stayed invalid. */
  function Night(t: Tables, queue: seq<Msg>, wide: seq<Item>, topK: nat, deep: bool, reply: Option<Update>, ts: int)
    : (r: (Tables, Outcome))
  {
    ClaimSettles(queue, topK);
    var c := ClaimAll(queue, topK);
    var items := c.items + WideOf(wide, c.items);
    if AsksModel(t, items, deep) && reply.None? then
      (t, Outcome(true, items, c.failed + LaneIds(c.items), NOTHING, 0))
    else
      var u := if AsksModel(t, items, deep) then reply.value else QUIET;
      var anchors := Anchors(u.newTheses, Ids(items));
      var res := ResolveOps(u.items, Known(t), Ids(items), anchors);
      var acks := AnchorAcks(ValidSpecs(u.newTheses, anchors), items);
      (ApplyAll(t, NightOps(t, items, u, ts)),
       Outcome(false, items, c.failed, DisposeAll(items, res.ops, anchors, acks), res.downgraded))
  }

  // ------------------------------------------------------------ properties

  lemma {:induction false} ItemsDistinct(lane: seq<Item>, wide: seq<Item>)
    requires DistinctIds(lane) && ReadOnly(wide)
    ensures DistinctIds(lane + WideOf(wide, lane))
    ensures forall i :: 0 <= i < |WideOf(wide, lane)| ==> WideOf(wide, lane)[i].msg.None?
    ensures forall i :: 0 <= i < |WideOf(wide, lane)| ==> HasItem(wide, WideOf(wide, lane)[i].id)
    decreases |wide|
  {
    if wide == [] {
      assert lane + WideOf(wide, lane) == lane;
    } else {
      var front, last := wide[..|wide| - 1], wide[|wide| - 1];
      assert forall i :: 0 <= i < |front| ==> front[i] == wide[i];
      ItemsDistinct(lane, front);
      var w := WideOf(front, lane);
      forall i | 0 <= i < |w| ensures HasItem(wide, w[i].id) && w[i].id != last.id {
        assert HasItem(front, w[i].id);
        var k :| 0 <= k < |front| && front[k].id == w[i].id;
        assert wide[k].id == w[i].id;
      }
      assert wide[|wide| - 1] == last;
      if !HasItem(lane, last.id) {
        assert lane + (w + [last]) == (lane + w) + [last];
      }
    }
  }

  /** A rejected night fails every claimed message, acks none and writes nothing. A night
      that goes through acks exactly the accepted ones and fails only the malformed and
      duplicate ones, and every item is counted once. */
  lemma {:induction false} NightConserves(t: Tables, queue: seq<Msg>, wide: seq<Item>, topK: nat, deep: bool,
                                          reply: Option<Update>, ts: int)
    requires ReadOnly(wide)
    ensures var (u, o) := Night(t, queue, wide, topK, deep, reply, ts);
      var c := ClaimAll(queue, topK);
      && (o.rejected ==>
            && reply.None? && u == t && o.tally.acked == []
            && multiset(o.failed) + multiset(c.left) == multiset(MsgIds(queue)))
      && (!o.rejected ==>
            && o.failed == c.failed
            && (forall m: nat :: m in o.tally.acked <==> Carried(c.items, m))
            && |o.items| == AnchorCount(o.items, reply) + o.tally.evidence + o.tally.ignoredExplicit
                            + o.tally.ignoredUnaddressed + o.tally.wideIgnored)
  {
    hide ClaimAll, LaneIds, ResolveOps, DisposeAll, AnchorAcks, ValidSpecs, ApplyAll, NightOps, WideOf, MsgIds,
         Carried;
    var c := ClaimAll(queue, topK);
    ClaimSettles(queue, topK);
    ItemsDistinct(c.items, wide);
    var more := WideOf(wide, c.items);
    var items := c.items + more;
    var o := Night(t, queue, wide, topK, deep, reply, ts).1;
    if !o.rejected {
      var up := if AsksModel(t, items, deep) then reply.value else QUIET;
      var anchors := Anchors(up.newTheses, Ids(items));
      EveryItemCountedOnce(items, up, Known(t), AnchorAcks(ValidSpecs(up.newTheses, anchors), items));
      EveryClaimAcked(items, up, ResolveOps(up.items, Known(t), Ids(items), anchors).ops);
      LaneHoldsMessages(c.items, more);
      if !AsksModel(t, items, deep) {
        assert items == [];
        assert anchors == {};
        assert AnchorCount(items, reply) == 0;
      }
    }
  }

  /** Distinct items that anchor a new thesis. */
  function AnchorCount(items: seq<Item>, reply: Option<Update>): nat {
    if reply.None? then 0 else |Anchors(reply.value.newTheses, Ids(items))|
  }

  lemma {:induction false} LaneHoldsMessages(lane: seq<Item>, wide: seq<Item>)
    requires forall i :: 0 <= i < |wide| ==> wide[i].msg.None?
    ensures forall m: nat :: Carried(lane + wide, m) <==> Carried(lane, m)
  {
    var all := lane + wide;
    forall m: nat ensures Carried(all, m) <==> Carried(lane, m) {
      if Carried(lane, m) {
        var i :| 0 <= i < |lane| && lane[i].msg == Some(m);
        assert all[i] == lane[i];
      }
      if Carried(all, m) {
        var i :| 0 <= i < |all| && all[i].msg == Some(m);
        assert i < |lane| && lane[i] == all[i];
      }
    }
  }

  predicate Touches(op: Op, id: nat) {
    match op
    case Create(_) => false
    case AddEvidence(e, _) => e.thesis == id
    case SetStatus(thesis, _) => thesis == id
    case SetConfidence(thesis, _) => thesis == id
  }

  lemma {:induction false} UntouchedStays(t: Tables, ops: seq<Op>, id: nat)
    requires id in t.theses && id < t.next
    requires forall i :: 0 <= i < |ops| ==> !Touches(ops[i], id)
    ensures var u := ApplyAll(t, ops);
      id in u.theses && u.theses[id] == t.theses[id] && t.next <= u.next
    decreases |ops|
  {
    if ops != [] {
      UntouchedStays(t, ops[..|ops| - 1], id);
    }
  }

  lemma {:induction false} OpsStayInside(items: seq<Item>, ops: map<nat, Decision>, anchors: set<nat>,
                                         specs: seq<NewThesis>, reviews: seq<Review>, known: set<nat>, next: nat,
                                         ts: int, id: nat)
    requires id < next && id !in known
    requires forall k :: k in ops && ops[k].Record? ==> ops[k].thesis in known
    ensures forall i :: 0 <= i < |CreateOps(specs, items, next, ts)| ==> !Touches(CreateOps(specs, items, next, ts)[i], id)
    ensures forall i :: 0 <= i < |EvidenceOps(items, ops, anchors, ts)| ==> !Touches(EvidenceOps(items, ops, anchors, ts)[i], id)
    ensures forall i :: 0 <= i < |ReviewOps(ValidReviews(reviews, known))| ==>
      !Touches(ReviewOps(ValidReviews(reviews, known))[i], id)
    decreases |items| + |specs|
  {
    if specs != [] {
      OpsStayInside(items, ops, anchors, specs[..|specs| - 1], reviews, known, next, ts, id);
    }
    if items != [] {
      OpsStayInside(items[..|items| - 1], ops, anchors, specs, reviews, known, next, ts, id);
    }
    ReviewsKnown(reviews, known);
  }

  lemma {:induction false} ReviewsKnown(reviews: seq<Review>, known: set<nat>)
    ensures forall i :: 0 <= i < |ValidReviews(reviews, known)| ==> ValidReviews(reviews, known)[i].thesis in known
    decreases |reviews|
  {
    if reviews != [] {
      ReviewsKnown(reviews[..|reviews| - 1], known);
    }
  }

  /** Whatever the model writes, a night changes only theses that were ACTIVE when it
      loaded them, and the counts stay right. */
  lemma {:induction false} NightTouchesOnlyKnown(t: Tables, queue: seq<Msg>, wide: seq<Item>, topK: nat, deep: bool,
                                                 reply: Option<Update>, ts: int, id: nat)
    requires Counted(t)
    ensures var u := Night(t, queue, wide, topK, deep, reply, ts).0;
      Counted(u) && (id in t.theses && id !in Known(t) ==> id in u.theses && u.theses[id] == t.theses[id])
  {
    var o := Night(t, queue, wide, topK, deep, reply, ts).1;
    if !o.rejected {
      var up := if AsksModel(t, o.items, deep) then reply.value else QUIET;
      var known, anchors := Known(t), Anchors(up.newTheses, Ids(o.items));
      var ops := ResolveOps(up.items, known, Ids(o.items), anchors).ops;
      RunKeepsCounted(t, NightOps(t, o.items, up, ts));
      if id in t.theses && id !in known {
        forall k | k in ops && ops[k].Record? ensures ops[k].thesis in known {
          ResolveKeepsLastOp(up.items, known, Ids(o.items), anchors, k);
        }
        OpsStayInside(o.items, ops, anchors, ValidSpecs(up.newTheses, anchors), up.reviews, known, t.next, ts, id);
        UntouchedStays(t, NightOps(t, o.items, up, ts), id);
      }
    }
  }
}
