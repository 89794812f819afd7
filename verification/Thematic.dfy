/** The nightly thematic run: claim the lane, reconcile the model's lists with what is
    really there, apply them to the thesis store and settle every claimed message. */
module Thematic {
  import opened Options

  datatype Msg = Msg(id: nat, item: Option<nat>, revision: nat)

  /** A lane item carries the message it was claimed from; a wide item is read only. */
  datatype Item = Item(id: nat, revision: nat, msg: Option<nat>)

  datatype ItemOp = Attach(item: nat, thesis: nat) | Ignore(item: nat)

  datatype NewThesis = NewThesis(anchor: nat, confidence: real)

  datatype ReviewOp = Keep | Invalidate | Realize

  datatype Review = Review(thesis: nat, op: ReviewOp, confidence: real)

  /** The model's reply: any lists at all. */
  datatype Update = Update(items: seq<ItemOp>, newTheses: seq<NewThesis>, reviews: seq<Review>)

  // ----------------------------------------------------------------- claim

  datatype Claimed = Claimed(items: seq<Item>, failed: seq<nat>, left: seq<nat>)

  predicate HasItem(items: seq<Item>, id: nat) { exists i :: 0 <= i < |items| && items[i].id == id }

  /** Malformed and duplicate messages are failed and do not count towards the batch. */
  function ClaimOne(c: Claimed, m: Msg, topK: nat): Claimed {
    if |c.items| >= topK then c.(left := c.left + [m.id])
    else if m.item.None? || HasItem(c.items, m.item.value) then c.(failed := c.failed + [m.id])
    else c.(items := c.items + [Item(m.item.value, if m.revision == 0 then 1 else m.revision, Some(m.id))])
  }

  function ClaimAll(queue: seq<Msg>, topK: nat): Claimed {
    if queue == [] then Claimed([], [], [])
    else ClaimOne(ClaimAll(queue[..|queue| - 1], topK), queue[|queue| - 1], topK)
  }

  ghost predicate DistinctIds(items: seq<Item>) {
    forall i, j :: 0 <= i < j < |items| ==> items[i].id != items[j].id
  }

  function MsgIds(queue: seq<Msg>): seq<nat> { seq(|queue|, i requires 0 <= i < |queue| => queue[i].id) }

  function LaneIds(items: seq<Item>): seq<nat>
    requires forall i :: 0 <= i < |items| ==> items[i].msg.Some?
  {
    seq(|items|, i requires 0 <= i < |items| => items[i].msg.value)
  }

  lemma {:induction false} ClaimSettles(queue: seq<Msg>, topK: nat)
    ensures var c := ClaimAll(queue, topK);
      && DistinctIds(c.items) && |c.items| <= topK
      && (forall i :: 0 <= i < |c.items| ==> c.items[i].msg.Some?)
      && multiset(LaneIds(c.items)) + multiset(c.failed) + multiset(c.left) == multiset(MsgIds(queue))
    decreases |queue|
  {
    hide ClaimOne;
    if queue != [] {
      var front, m := queue[..|queue| - 1], queue[|queue| - 1];
      ClaimSettles(front, topK);
      assert MsgIds(queue) == MsgIds(front) + [m.id];
      ClaimOneSettles(ClaimAll(front, topK), m, topK);
    }
  }

  lemma {:induction false} ClaimOneSettles(c: Claimed, m: Msg, topK: nat)
    requires DistinctIds(c.items) && |c.items| <= topK && forall i :: 0 <= i < |c.items| ==> c.items[i].msg.Some?
    ensures var d := ClaimOne(c, m, topK);
      && DistinctIds(d.items) && |d.items| <= topK
      && (forall i :: 0 <= i < |d.items| ==> d.items[i].msg.Some?)
      && multiset(LaneIds(d.items)) + multiset(d.failed) + multiset(d.left)
         == multiset(LaneIds(c.items)) + multiset(c.failed) + multiset(c.left) + multiset{m.id}
  {
    var d := ClaimOne(c, m, topK);
    if |d.items| > |c.items| {
      assert LaneIds(d.items) == LaneIds(c.items) + [m.id];
    }
  }

  // --------------------------------------------------------------- resolve

  datatype Decision = Record(thesis: nat) | Skip

  datatype Resolved = Resolved(ops: map<nat, Decision>, downgraded: nat)

  function Ids(items: seq<Item>): set<nat> { set i | 0 <= i < |items| :: items[i].id }

  function Anchors(specs: seq<NewThesis>, addressable: set<nat>): set<nat> {
    set i | 0 <= i < |specs| && specs[i].anchor in addressable :: specs[i].anchor
  }

  function ValidSpecs(specs: seq<NewThesis>, anchors: set<nat>): seq<NewThesis> {
    if specs == [] then []
    else
      var front := ValidSpecs(specs[..|specs| - 1], anchors);
      if specs[|specs| - 1].anchor in anchors then front + [specs[|specs| - 1]] else front
  }

  function ValidReviews(reviews: seq<Review>, known: set<nat>): seq<Review> {
    if reviews == [] then []
    else
      var front := ValidReviews(reviews[..|reviews| - 1], known);
      if reviews[|reviews| - 1].thesis in known then front + [reviews[|reviews| - 1]] else front
  }

  function ResolveOne(r: Resolved, op: ItemOp, known: set<nat>, addressable: set<nat>, anchors: set<nat>): Resolved {
    if op.item !in addressable || op.item in anchors then r
    else if op.Attach? && op.thesis !in known then Resolved(r.ops[op.item := Skip], r.downgraded + 1)
    else r.(ops := r.ops[op.item := if op.Attach? then Record(op.thesis) else Skip])
  }

  function ResolveOps(ops: seq<ItemOp>, known: set<nat>, addressable: set<nat>, anchors: set<nat>): Resolved {
    if ops == [] then Resolved(map[], 0)
    else ResolveOne(ResolveOps(ops[..|ops| - 1], known, addressable, anchors), ops[|ops| - 1], known, addressable, anchors)
  }

  /** The last op the model gave for an item. */
  function LastOp(ops: seq<ItemOp>, id: nat): Option<ItemOp> {
    if ops == [] then None
    else if ops[|ops| - 1].item == id then Some(ops[|ops| - 1])
    else LastOp(ops[..|ops| - 1], id)
  }

  /** An item keeps the last op named for it, if it may be addressed and anchors nothing;
      evidence for a thesis that was not loaded becomes an ignore. */
  lemma {:induction false} ResolveKeepsLastOp(ops: seq<ItemOp>, known: set<nat>, addressable: set<nat>,
                                              anchors: set<nat>, id: nat)
    ensures var r := ResolveOps(ops, known, addressable, anchors).ops;
      var last := LastOp(ops, id);
      && (id in r <==> id in addressable && id !in anchors && last.Some?)
      && (id in r ==> r[id] == if last.value.Attach? && last.value.thesis in known then Record(last.value.thesis)
                               else Skip)
    decreases |ops|
  {
    if ops != [] {
      ResolveKeepsLastOp(ops[..|ops| - 1], known, addressable, anchors, id);
    }
  }

  /** Ops that would attach an item that may be to a thesis that was not loaded. */
  function Misdirected(ops: seq<ItemOp>, known: set<nat>, items: set<nat>, anchors: set<nat>): nat {
    if ops == [] then 0
    else
      var op := ops[|ops| - 1];
      Misdirected(ops[..|ops| - 1], known, items, anchors)
      + if op.Attach? && op.thesis !in known && op.item in items && op.item !in anchors then 1 else 0
  }

  lemma {:induction false} DowngradesMisdirected(ops: seq<ItemOp>, known: set<nat>, addressable: set<nat>, anchors: set<nat>)
    ensures ResolveOps(ops, known, addressable, anchors).downgraded == Misdirected(ops, known, addressable, anchors)
    decreases |ops|
  {
    if ops != [] {
      DowngradesMisdirected(ops[..|ops| - 1], known, addressable, anchors);
    }
  }

  // ----------------------------------------------------------------- apply

  /** What the run counts while it disposes of its items. */
  datatype Tally = Tally(acked: seq<nat>, evidence: nat, ignoredExplicit: nat, ignoredUnaddressed: nat,
                         wideEvidence: nat, wideIgnored: nat)

  function DisposeOne(t: Tally, it: Item, ops: map<nat, Decision>, anchors: set<nat>): Tally {
    if it.id in anchors then t
    else
      var op := if it.id in ops then ops[it.id] else Skip;
      if it.msg.None? && op.Skip? then t.(wideIgnored := t.wideIgnored + 1)
      else
        var t1 :=
          if op.Record? then
            t.(evidence := t.evidence + 1, wideEvidence := t.wideEvidence + if it.msg.None? then 1 else 0)
          else if it.id in ops then t.(ignoredExplicit := t.ignoredExplicit + 1)
          else t.(ignoredUnaddressed := t.ignoredUnaddressed + 1);
        if it.msg.Some? then t1.(acked := t1.acked + [it.msg.value]) else t1
  }

  function DisposeAll(items: seq<Item>, ops: map<nat, Decision>, anchors: set<nat>, acked: seq<nat>): Tally {
    if items == [] then Tally(acked, 0, 0, 0, 0, 0)
    else DisposeOne(DisposeAll(items[..|items| - 1], ops, anchors, acked), items[|items| - 1], ops, anchors)
  }

  function Find(items: seq<Item>, id: nat): Option<Item> {
    if items == [] then None
    else if items[|items| - 1].id == id then Some(items[|items| - 1])
    else Find(items[..|items| - 1], id)
  }

  /** A thesis may share its anchor with another; the message is then acked twice. */
  function AnchorAcks(specs: seq<NewThesis>, items: seq<Item>): seq<nat> {
    if specs == [] then []
    else
      var front := AnchorAcks(specs[..|specs| - 1], items);
      match Find(items, specs[|specs| - 1].anchor)
      case None => front
      case Some(it) => if it.msg.Some? then front + [it.msg.value] else front
  }

  /** Items that anchor a new thesis. */
  function Anchored(items: seq<Item>, anchors: set<nat>): nat {
    if items == [] then 0
    else Anchored(items[..|items| - 1], anchors) + if items[|items| - 1].id in anchors then 1 else 0
  }

  datatype Fate = Anchor | Attached | IgnoredByModel | Unaddressed | WideContext

  function FateOf(it: Item, ops: map<nat, Decision>, anchors: set<nat>): Fate {
    if it.id in anchors then Anchor
    else if it.id in ops && ops[it.id].Record? then Attached
    else if it.msg.None? then WideContext
    else if it.id in ops then IgnoredByModel
    else Unaddressed
  }

  function CountFate(items: seq<Item>, ops: map<nat, Decision>, anchors: set<nat>, f: Fate): nat {
    if items == [] then 0
    else CountFate(items[..|items| - 1], ops, anchors, f) + if FateOf(items[|items| - 1], ops, anchors) == f then 1 else 0
  }

  /** Wide items that the model attached. */
  function WideAttached(items: seq<Item>, ops: map<nat, Decision>, anchors: set<nat>): nat {
    if items == [] then 0
    else
      var it := items[|items| - 1];
      WideAttached(items[..|items| - 1], ops, anchors)
      + if it.msg.None? && FateOf(it, ops, anchors) == Attached then 1 else 0
  }

  /** Each counter counts the items that met its fate. */
  lemma {:induction false} TallyByFate(items: seq<Item>, ops: map<nat, Decision>, anchors: set<nat>, acked: seq<nat>)
    ensures var t := DisposeAll(items, ops, anchors, acked);
      && t.evidence == CountFate(items, ops, anchors, Attached)
      && t.ignoredExplicit == CountFate(items, ops, anchors, IgnoredByModel)
      && t.ignoredUnaddressed == CountFate(items, ops, anchors, Unaddressed)
      && t.wideIgnored == CountFate(items, ops, anchors, WideContext)
      && t.wideEvidence == WideAttached(items, ops, anchors)
    decreases |items|
  {
    if items != [] {
      TallyByFate(items[..|items| - 1], ops, anchors, acked);
    }
  }

  lemma {:induction false} DisposeCounts(items: seq<Item>, ops: map<nat, Decision>, anchors: set<nat>, acked: seq<nat>)
    ensures var t := DisposeAll(items, ops, anchors, acked);
      |items| == Anchored(items, anchors) + t.evidence + t.ignoredExplicit + t.ignoredUnaddressed + t.wideIgnored
    decreases |items|
  {
    if items != [] {
      DisposeCounts(items[..|items| - 1], ops, anchors, acked);
    }
  }

  lemma {:induction false} IdsOfFront(items: seq<Item>)
    requires DistinctIds(items) && items != []
    ensures var front, last := items[..|items| - 1], items[|items| - 1];
      Ids(items) == Ids(front) + {last.id} && last.id !in Ids(front)
  {
    var front, last := items[..|items| - 1], items[|items| - 1];
    assert forall i :: 0 <= i < |front| ==> front[i] == items[i];
    assert items[|items| - 1].id in Ids(items);
  }

  lemma {:induction false} AnchoredIsAnchors(items: seq<Item>, anchors: set<nat>)
    requires DistinctIds(items)
    ensures Anchored(items, anchors) == |anchors * Ids(items)|
    decreases |items|
  {
    if items == [] {
      assert anchors * Ids(items) == {};
    } else {
      var front, last := items[..|items| - 1], items[|items| - 1];
      AnchoredIsAnchors(front, anchors);
      IdsOfFront(items);
      hide Ids, DistinctIds;
      if last.id in anchors {
        assert anchors * Ids(items) == (anchors * Ids(front)) + {last.id};
      } else {
        assert anchors * Ids(items) == anchors * Ids(front);
      }
    }
  }

  /** processed = distinct anchors + evidence + ignored_explicit + ignored_unaddressed +
      wide_ignored. */
  lemma {:induction false} EveryItemCountedOnce(items: seq<Item>, u: Update, known: set<nat>, acked: seq<nat>)
    requires DistinctIds(items)
    ensures var anchors := Anchors(u.newTheses, Ids(items));
      var t := DisposeAll(items, ResolveOps(u.items, known, Ids(items), anchors).ops, anchors, acked);
      |items| == |anchors| + t.evidence + t.ignoredExplicit + t.ignoredUnaddressed + t.wideIgnored
  {
    var anchors := Anchors(u.newTheses, Ids(items));
    DisposeCounts(items, ResolveOps(u.items, known, Ids(items), anchors).ops, anchors, acked);
    AnchoredIsAnchors(items, anchors);
    assert anchors * Ids(items) == anchors;
  }

  lemma {:induction false} DisposeAcks(items: seq<Item>, ops: map<nat, Decision>, anchors: set<nat>, acked: seq<nat>)
    ensures var t := DisposeAll(items, ops, anchors, acked);
      forall m :: m in t.acked <==>
        m in acked || exists i :: 0 <= i < |items| && items[i].id !in anchors && items[i].msg == Some(m)
    decreases |items|
  {
    if items != [] {
      var front, last := items[..|items| - 1], items[|items| - 1];
      DisposeAcks(front, ops, anchors, acked);
      var t, u := DisposeAll(front, ops, anchors, acked), DisposeAll(items, ops, anchors, acked);
      forall m ensures m in u.acked <==>
        m in acked || exists i :: 0 <= i < |items| && items[i].id !in anchors && items[i].msg == Some(m)
      {
        if i :| 0 <= i < |front| && front[i].id !in anchors && front[i].msg == Some(m) {
          assert items[i] == front[i];
        }
        assert items[|items| - 1] == last;
        assert forall i :: 0 <= i < |front| ==> items[i] == front[i];
      }
    }
  }

  lemma {:induction false} FindIsThere(items: seq<Item>, id: nat)
    ensures Find(items, id).Some? <==> HasItem(items, id)
    ensures Find(items, id).Some? ==> Find(items, id).value in items && Find(items, id).value.id == id
    decreases |items|
  {
    if items != [] {
      var front := items[..|items| - 1];
      FindIsThere(front, id);
      if HasItem(front, id) {
        var i :| 0 <= i < |front| && front[i].id == id;
        assert items[i].id == id;
      }
    }
  }

  lemma {:induction false} AnchorsAcked(specs: seq<NewThesis>, items: seq<Item>, i: nat, k: nat)
    requires DistinctIds(items) && i < |items| && items[i].msg.Some?
    requires k < |specs| && specs[k].anchor == items[i].id
    ensures items[i].msg.value in AnchorAcks(specs, items)
    decreases |specs|
  {
    if k < |specs| - 1 {
      AnchorsAcked(specs[..|specs| - 1], items, i, k);
    } else {
      FindIsThere(items, items[i].id);
      var j :| 0 <= j < |items| && items[j] == Find(items, items[i].id).value;
      assert j == i;
    }
  }

  lemma {:induction false} AnchorAcksAreItems(specs: seq<NewThesis>, items: seq<Item>, m: nat)
    requires m in AnchorAcks(specs, items)
    ensures exists i :: 0 <= i < |items| && items[i].msg == Some(m)
    decreases |specs|
  {
    var front := specs[..|specs| - 1];
    if m in AnchorAcks(front, items) {
      AnchorAcksAreItems(front, items, m);
    } else {
      FindIsThere(items, specs[|specs| - 1].anchor);
      var i :| 0 <= i < |items| && items[i] == Find(items, specs[|specs| - 1].anchor).value;
      assert items[i].msg == Some(m);
    }
  }

  lemma {:induction false} SpecsCoverAnchors(specs: seq<NewThesis>, anchors: set<nat>, id: nat)
    requires id in anchors && exists k :: 0 <= k < |specs| && specs[k].anchor == id
    ensures exists k :: 0 <= k < |ValidSpecs(specs, anchors)| && ValidSpecs(specs, anchors)[k].anchor == id
    decreases |specs|
  {
    var front, all := specs[..|specs| - 1], ValidSpecs(specs, anchors);
    if specs[|specs| - 1].anchor == id {
      assert all[|all| - 1].anchor == id;
    } else {
      var k :| 0 <= k < |specs| && specs[k].anchor == id;
      assert front[k].anchor == id;
      SpecsCoverAnchors(front, anchors, id);
      var n :| 0 <= n < |ValidSpecs(front, anchors)| && ValidSpecs(front, anchors)[n].anchor == id;
      assert all[n].anchor == id;
    }
  }

  /** Some item was claimed from message m. */
  predicate Carried(items: seq<Item>, m: nat) { exists i :: 0 <= i < |items| && items[i].msg == Some(m) }

  /** On the success path the acked messages are exactly those of the lane items. */
  lemma {:induction false} EveryClaimAcked(items: seq<Item>, u: Update, ops: map<nat, Decision>)
    requires DistinctIds(items)
    ensures var anchors := Anchors(u.newTheses, Ids(items));
      var t := DisposeAll(items, ops, anchors, AnchorAcks(ValidSpecs(u.newTheses, anchors), items));
      forall m: nat :: m in t.acked <==> Carried(items, m)
  {
    var anchors := Anchors(u.newTheses, Ids(items));
    var specs := ValidSpecs(u.newTheses, anchors);
    var acks := AnchorAcks(specs, items);
    DisposeAcks(items, ops, anchors, acks);
    var t := DisposeAll(items, ops, anchors, acks);
    forall m: nat ensures m in t.acked <==> Carried(items, m) {
      if m in acks {
        AnchorAcksAreItems(specs, items, m);
      }
      if i :| 0 <= i < |items| && items[i].msg == Some(m) && items[i].id in anchors {
        SpecsCoverAnchors(u.newTheses, anchors, items[i].id);
        var k :| 0 <= k < |specs| && specs[k].anchor == items[i].id;
        AnchorsAcked(specs, items, i, k);
      }
    }
  }
}
