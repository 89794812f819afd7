/** Thematic nights that may die after any commit or acknowledgement, and claim again what they
    did not acknowledge. */
module ThematicNights {
  import opened Options
  import opened Thematic
  import opened ThematicRun
  import opened ThesisStore

  /** A transaction with its writes to the store, or the acknowledgement of a message. */
  datatype Step = Commit(writes: seq<Op>) | Ack(msg: nat)

  /** One night past its model call; `steps` is how many of its steps it lives through. */
  datatype Pass = Pass(items: seq<Item>, reply: Update, ts: int, steps: nat)

  /** The store and the messages acknowledged so far. */
  datatype World = World(tables: Tables, done: set<nat>)

  function Specs(p: Pass): seq<NewThesis> {
    ValidSpecs(p.reply.newTheses, Anchors(p.reply.newTheses, Ids(p.items)))
  }

  function Root(spec: NewThesis, items: seq<Item>, id: nat): Evidence {
    Evidence(id, spec.anchor, RevisionOf(items, spec.anchor))
  }

  function AckOf(items: seq<Item>, id: nat): seq<Step> {
    match Find(items, id)
    case None => []
    case Some(it) => if it.msg.Some? then [Ack(it.msg.value)] else []
  }

  /** Each thesis is committed with its anchor, then the anchor's message is acked. */
  function CreateSteps(specs: seq<NewThesis>, items: seq<Item>, next: nat, ts: int): seq<Step> {
    if specs == [] then []
    else
      var n := |specs| - 1;
      CreateSteps(specs[..n], items, next, ts)
      + [Commit([Create(specs[n].confidence), AddEvidence(Root(specs[n], items, next + n), ts)])]
      + AckOf(items, specs[n].anchor)
  }

  /** Anchors have been disposed of, and wide context is neither journaled nor acked. */
  function DisposalOf(it: Item, ops: map<nat, Decision>, anchors: set<nat>, ts: int): seq<Step> {
    if it.id in anchors || (it.msg.None? && !(it.id in ops && ops[it.id].Record?)) then []
    else [Commit(EvidenceOf(it, ops, anchors, ts))] + if it.msg.Some? then [Ack(it.msg.value)] else []
  }

  function DisposeSteps(items: seq<Item>, ops: map<nat, Decision>, anchors: set<nat>, ts: int): seq<Step> {
    if items == [] then []
    else DisposeSteps(items[..|items| - 1], ops, anchors, ts) + DisposalOf(items[|items| - 1], ops, anchors, ts)
  }

  function ReviewSteps(ops: seq<Op>): seq<Step> {
    seq(|ops|, i requires 0 <= i < |ops| => Commit([ops[i]]))
  }

  function Settling(t: Tables, p: Pass): seq<Step> {
    var anchors := Anchors(p.reply.newTheses, Ids(p.items));
    DisposeSteps(p.items, ResolveOps(p.reply.items, Known(t), Ids(p.items), anchors).ops, anchors, p.ts)
    + ReviewSteps(ReviewOps(ValidReviews(p.reply.reviews, Known(t))))
  }

  /** The night's commits and acknowledgements in order. */
  function Steps(t: Tables, p: Pass): seq<Step> { CreateSteps(Specs(p), p.items, t.next, p.ts) + Settling(t, p) }

  function Writes(steps: seq<Step>): seq<Op> {
    if steps == [] then []
    else Writes(steps[..|steps| - 1]) + if steps[|steps| - 1].Commit? then steps[|steps| - 1].writes else []
  }

  function Acks(steps: seq<Step>): seq<nat> {
    if steps == [] then []
    else Acks(steps[..|steps| - 1]) + if steps[|steps| - 1].Ack? then [steps[|steps| - 1].msg] else []
  }

  function Cut(steps: seq<Step>, n: nat): seq<Step> { if n < |steps| then steps[..n] else steps }

  function Lived(t: Tables, p: Pass): seq<Step> { Cut(Steps(t, p), p.steps) }

  function AckedBy(t: Tables, p: Pass): set<nat> { set m | m in Acks(Lived(t, p)) }

  function After(w: World, p: Pass): World {
    World(ApplyAll(w.tables, Writes(Lived(w.tables, p))), w.done + AckedBy(w.tables, p))
  }

  function Nights(w: World, ps: seq<Pass>): World
    decreases |ps|
  {
    if ps == [] then w else After(Nights(w, ps[..|ps| - 1]), ps[|ps| - 1])
  }

  // ------------------------------------------------------- the uncut night

  lemma {:induction false} Appended(a: seq<Step>, b: seq<Step>)
    ensures Writes(a + b) == Writes(a) + Writes(b)
    ensures Acks(a + b) == Acks(a) + Acks(b)
    decreases |b|
  {
    if b == [] {
      assert a + b == a;
      assert Writes(a) + [] == Writes(a);
      assert Acks(a) + [] == Acks(a);
    } else {
      assert (a + b)[..|a + b| - 1] == a + b[..|b| - 1];
      Appended(a, b[..|b| - 1]);
    }
  }

  lemma {:induction false} AckOfIsAck(items: seq<Item>, id: nat)
    ensures |AckOf(items, id)| <= 1 && Writes(AckOf(items, id)) == []
    ensures Acks(AckOf(items, id)) == match Find(items, id)
                                      case None => []
                                      case Some(it) => if it.msg.Some? then [it.msg.value] else []
  {
    hide Find;
    var s := AckOf(items, id);
    if s != [] {
      assert s[..0] == [];
    }
  }

  lemma {:induction false} OneCommit(ops: seq<Op>)
    ensures Writes([Commit(ops)]) == ops && Acks([Commit(ops)]) == []
  {
    assert [Commit(ops)][..0] == [];
    assert [] + ops == ops;
  }

  lemma {:induction false} CreateStepsDo(specs: seq<NewThesis>, items: seq<Item>, next: nat, ts: int)
    ensures Writes(CreateSteps(specs, items, next, ts)) == CreateOps(specs, items, next, ts)
    ensures Acks(CreateSteps(specs, items, next, ts)) == AnchorAcks(specs, items)
    decreases |specs|
  {
    if specs != [] {
      var n := |specs| - 1;
      CreateStepsDo(specs[..n], items, next, ts);
      var front := CreateSteps(specs[..n], items, next, ts);
      var ops := [Create(specs[n].confidence), AddEvidence(Root(specs[n], items, next + n), ts)];
      hide Writes, Acks, AckOf, Find, RevisionOf;
      Appended(front + [Commit(ops)], AckOf(items, specs[n].anchor));
      Appended(front, [Commit(ops)]);
      OneCommit(ops);
      AckOfIsAck(items, specs[n].anchor);
      assert Writes(CreateSteps(specs, items, next, ts)) == Writes(front) + ops;
    }
  }

  lemma {:induction false} DisposalDoes(it: Item, ops: map<nat, Decision>, anchors: set<nat>, ts: int, t: Tally)
    ensures Writes(DisposalOf(it, ops, anchors, ts)) == EvidenceOf(it, ops, anchors, ts)
    ensures DisposeOne(t, it, ops, anchors).acked == t.acked + Acks(DisposalOf(it, ops, anchors, ts))
  {
    var s := DisposalOf(it, ops, anchors, ts);
    if s == [] {
      assert t.acked + [] == t.acked;
    } else {
      var c := [Commit(EvidenceOf(it, ops, anchors, ts))];
      OneCommit(EvidenceOf(it, ops, anchors, ts));
      if it.msg.Some? {
        assert s[..1] == c;
      } else {
        assert s == c;
      }
    }
  }

  lemma {:induction false} DisposeStepsWrite(items: seq<Item>, ops: map<nat, Decision>, anchors: set<nat>, ts: int)
    ensures Writes(DisposeSteps(items, ops, anchors, ts)) == EvidenceOps(items, ops, anchors, ts)
    decreases |items|
  {
    hide DisposalOf, EvidenceOf, Writes;
    if items == [] {
      NoSteps();
    } else {
      var front, last := items[..|items| - 1], items[|items| - 1];
      DisposeStepsWrite(front, ops, anchors, ts);
      Appended(DisposeSteps(front, ops, anchors, ts), DisposalOf(last, ops, anchors, ts));
      DisposalDoes(last, ops, anchors, ts, Tally([], 0, 0, 0, 0, 0));
    }
  }

  lemma {:induction false} NoSteps()
    ensures Writes([]) == [] && Acks([]) == []
  {
  }

  lemma {:induction false} DisposeStepsAck(items: seq<Item>, ops: map<nat, Decision>, anchors: set<nat>, ts: int,
                                           acked: seq<nat>)
    ensures DisposeAll(items, ops, anchors, acked).acked == acked + Acks(DisposeSteps(items, ops, anchors, ts))
    decreases |items|
  {
    hide DisposeOne, DisposalOf, Acks;
    if items == [] {
      NoSteps();
      assert acked + [] == acked;
    } else {
      var front, last := items[..|items| - 1], items[|items| - 1];
      DisposeStepsAck(front, ops, anchors, ts, acked);
      var steps, more := DisposeSteps(front, ops, anchors, ts), DisposalOf(last, ops, anchors, ts);
      Appended(steps, more);
      DisposalDoes(last, ops, anchors, ts, DisposeAll(front, ops, anchors, acked));
      assert (acked + Acks(steps)) + Acks(more) == acked + (Acks(steps) + Acks(more));
    }
  }

  lemma {:induction false} ReviewStepsDo(ops: seq<Op>)
    ensures Writes(ReviewSteps(ops)) == ops && Acks(ReviewSteps(ops)) == []
    decreases |ops|
  {
    if ops != [] {
      var s := ReviewSteps(ops);
      assert s[..|s| - 1] == ReviewSteps(ops[..|ops| - 1]);
      ReviewStepsDo(ops[..|ops| - 1]);
      assert ops == ops[..|ops| - 1] + [ops[|ops| - 1]];
    }
  }

  /** A night that is not cut writes and acks what the whole run does. */
  lemma {:induction false} UncutIsWhole(t: Tables, p: Pass)
    requires |Steps(t, p)| <= p.steps
    ensures var anchors := Anchors(p.reply.newTheses, Ids(p.items));
      var ops := ResolveOps(p.reply.items, Known(t), Ids(p.items), anchors).ops;
      && Writes(Lived(t, p)) == NightOps(t, p.items, p.reply, p.ts)
      && Acks(Lived(t, p)) == DisposeAll(p.items, ops, anchors, AnchorAcks(Specs(p), p.items)).acked
  {
    hide ResolveOps, CreateSteps, DisposeSteps, ReviewSteps, CreateOps, EvidenceOps, ReviewOps, Writes, Acks,
         DisposeAll, AnchorAcks, ValidReviews, ValidSpecs, Anchors, Ids, Known;
    var anchors := Anchors(p.reply.newTheses, Ids(p.items));
    var ops := ResolveOps(p.reply.items, Known(t), Ids(p.items), anchors).ops;
    var reviews := ReviewOps(ValidReviews(p.reply.reviews, Known(t)));
    Appended(CreateSteps(Specs(p), p.items, t.next, p.ts), Settling(t, p));
    Appended(DisposeSteps(p.items, ops, anchors, p.ts), ReviewSteps(reviews));
    CreateStepsDo(Specs(p), p.items, t.next, p.ts);
    DisposeStepsWrite(p.items, ops, anchors, p.ts);
    DisposeStepsAck(p.items, ops, anchors, p.ts, AnchorAcks(Specs(p), p.items));
    ReviewStepsDo(reviews);
    var a, b := CreateOps(Specs(p), p.items, t.next, p.ts), EvidenceOps(p.items, ops, anchors, p.ts);
    assert a + (b + reviews) == (a + b) + reviews;
    var c := Acks(DisposeSteps(p.items, ops, anchors, p.ts));
    assert c + [] == c;
  }

  lemma {:induction false} NightKeepsCounted(w: World, p: Pass)
    requires Counted(w.tables)
    ensures Counted(After(w, p).tables)
  {
    hide Counted, ApplyAll, Lived, AckedBy;
    RunKeepsCounted(w.tables, Writes(Lived(w.tables, p)));
  }

  /** However the nights are cut and whatever comes back: an item revision is evidence for a
      thesis at most once and the counts are right. */
  lemma {:induction false} CutNightsKeepCounted(w: World, ps: seq<Pass>)
    requires Counted(w.tables)
    ensures Counted(Nights(w, ps).tables)
    decreases |ps|
  {
    hide Counted, After;
    if ps != [] {
      CutNightsKeepCounted(w, ps[..|ps| - 1]);
      NightKeepsCounted(Nights(w, ps[..|ps| - 1]), ps[|ps| - 1]);
    }
  }

  // ------------------------------------------------ what a cut night creates

  function StepCount(specs: seq<NewThesis>, items: seq<Item>): nat {
    if specs == [] then 0
    else StepCount(specs[..|specs| - 1], items) + 1 + |AckOf(items, specs[|specs| - 1].anchor)|
  }

  /** The specs whose creation is among the first n steps. */
  function Committed(specs: seq<NewThesis>, items: seq<Item>, n: nat): seq<NewThesis> {
    if specs == [] || StepCount(specs[..|specs| - 1], items) < n then specs
    else Committed(specs[..|specs| - 1], items, n)
  }

  /** The specs whose theses the night commits. */
  function Made(p: Pass): seq<NewThesis> { Committed(Specs(p), p.items, p.steps) }

  /** The last step the night lives through is the commit of its last thesis. */
  predicate DiesOnCommit(specs: seq<NewThesis>, items: seq<Item>, n: nat) {
    var c := Committed(specs, items, n);
    c != [] && n == StepCount(c[..|c| - 1], items) + 1
  }

  lemma {:induction false} CreateStepCount(specs: seq<NewThesis>, items: seq<Item>, next: nat, ts: int)
    ensures |CreateSteps(specs, items, next, ts)| == StepCount(specs, items)
    decreases |specs|
  {
    hide AckOf, Root;
    if specs != [] {
      CreateStepCount(specs[..|specs| - 1], items, next, ts);
    }
  }

  /** What the first n creation steps write and ack. */
  lemma {:induction false} CutCreations(specs: seq<NewThesis>, items: seq<Item>, next: nat, ts: int, n: nat)
    ensures var s := Cut(CreateSteps(specs, items, next, ts), n);
      var c := Committed(specs, items, n);
      && Writes(s) == CreateOps(c, items, next, ts)
      && Acks(s) == if DiesOnCommit(specs, items, n) then AnchorAcks(c[..|c| - 1], items) else AnchorAcks(c, items)
    decreases |specs|
  {
    if specs == [] {
    } else {
      var k := |specs| - 1;
      var front, all := CreateSteps(specs[..k], items, next, ts), CreateSteps(specs, items, next, ts);
      CreateStepCount(specs[..k], items, next, ts);
      if |front| >= n {
        CutCreations(specs[..k], items, next, ts, n);
        assert Cut(all, n) == Cut(front, n);
      } else {
        LastCreation(specs, items, next, ts, n);
      }
    }
  }

  lemma {:induction false} LastCreation(specs: seq<NewThesis>, items: seq<Item>, next: nat, ts: int, n: nat)
    requires specs != [] && StepCount(specs[..|specs| - 1], items) < n
    ensures var s := Cut(CreateSteps(specs, items, next, ts), n);
      && Writes(s) == CreateOps(specs, items, next, ts)
      && Acks(s) == if DiesOnCommit(specs, items, n) then AnchorAcks(specs[..|specs| - 1], items)
                    else AnchorAcks(specs, items)
  {
    var k := |specs| - 1;
    var front, all := CreateSteps(specs[..k], items, next, ts), CreateSteps(specs, items, next, ts);
    var commit := [Commit([Create(specs[k].confidence), AddEvidence(Root(specs[k], items, next + k), ts)])];
    CreateStepCount(specs[..k], items, next, ts);
    CreateStepsDo(specs, items, next, ts);
    CreateStepsDo(specs[..k], items, next, ts);
    AckOfIsAck(items, specs[k].anchor);
    assert all == (front + commit) + AckOf(items, specs[k].anchor);
    hide Writes, Acks, AckOf, AnchorAcks, CreateOps, CreateSteps, StepCount, Find, RevisionOf, Root;
    if n == |front| + 1 {
      assert Cut(all, n) == front + commit;
      Appended(front + commit, AckOf(items, specs[k].anchor));
      Appended(front, commit);
      OneCommit(commit[0].writes);
      assert Writes(front + commit) + [] == Writes(front + commit);
      assert Acks(front) + [] == Acks(front);
    } else {
      assert Cut(all, n) == all;
    }
  }

  lemma {:induction false} CutSum(a: seq<Step>, b: seq<Step>, n: nat) returns (tail: seq<Step>)
    ensures Cut(a + b, n) == Cut(a, n) + tail && tail <= b
  {
    if n <= |a| {
      tail := [];
      assert Cut(a + b, n) == Cut(a, n);
    } else {
      tail := Cut(b, n - |a|);
    }
  }

  /** A cut night first does its committed creations, then some first steps of the rest. */
  lemma {:induction false} MadeFirst(t: Tables, p: Pass) returns (tail: seq<Step>)
    ensures tail <= Settling(t, p)
    ensures Writes(Lived(t, p)) == CreateOps(Made(p), p.items, t.next, p.ts) + Writes(tail)
    ensures Acks(Lived(t, p)) == (if DiesOnCommit(Specs(p), p.items, p.steps)
                                  then AnchorAcks(Made(p)[..|Made(p)| - 1], p.items)
                                  else AnchorAcks(Made(p), p.items)) + Acks(tail)
  {
    hide Settling, Cut, Writes, Acks, CreateOps, AnchorAcks, Specs, CreateSteps, StepCount, Committed;
    var a := CreateSteps(Specs(p), p.items, t.next, p.ts);
    tail := CutSum(a, Settling(t, p), p.steps);
    Appended(Cut(a, p.steps), tail);
    CutCreations(Specs(p), p.items, t.next, p.ts, p.steps);
  }

  // ------------------------------------------------------- minted in order

  /** The first evidence logged for a thesis, which its creation wrote. */
  function FirstRow(log: seq<Evidence>, id: nat): Option<Evidence> {
    if log == [] then None
    else
      var front := FirstRow(log[..|log| - 1], id);
      if front.None? && log[|log| - 1].thesis == id then Some(log[|log| - 1]) else front
  }

  datatype Mint = Mint(anchor: nat, revision: nat)

  function MintsOf(specs: seq<NewThesis>, items: seq<Item>): seq<Mint> {
    seq(|specs|, k requires 0 <= k < |specs| => Mint(specs[k].anchor, RevisionOf(items, specs[k].anchor)))
  }

  function Mints(p: Pass): seq<Mint> { MintsOf(Made(p), p.items) }

  function AllMints(ps: seq<Pass>): seq<Mint>
    decreases |ps|
  {
    if ps == [] then [] else AllMints(ps[..|ps| - 1]) + Mints(ps[|ps| - 1])
  }

  /** From t to v exactly these theses came in, under the next ids in turn, each with its
      anchor as its first evidence. */
  ghost predicate Minted(t: Tables, v: Tables, mints: seq<Mint>) {
    && v.next == t.next + |mints|
    && (forall id :: id in v.theses <==> id in t.theses || t.next <= id < v.next)
    && (forall k :: 0 <= k < |mints| ==>
          FirstRow(v.log, t.next + k) == Some(Evidence(t.next + k, mints[k].anchor, mints[k].revision)))
  }

  lemma {:induction false} FirstRowStays(log: seq<Evidence>, e: Evidence, id: nat)
    ensures FirstRow(log + [e], id) == if FirstRow(log, id).None? && e.thesis == id then Some(e) else FirstRow(log, id)
  {
    assert (log + [e])[..|log|] == log;
  }

  lemma {:induction false} NoFirstRow(log: seq<Evidence>, id: nat)
    requires forall i :: 0 <= i < |log| ==> log[i].thesis != id
    ensures FirstRow(log, id) == None
    decreases |log|
  {
    if log != [] {
      NoFirstRow(log[..|log| - 1], id);
    }
  }

  lemma {:induction false} OpKeepsMinted(t: Tables, v: Tables, mints: seq<Mint>, op: Op)
    requires Minted(t, v, mints) && !op.Create?
    ensures Minted(t, Apply(v, op), mints)
  {
    hide FirstRow;
    if op.AddEvidence? {
      forall id { FirstRowStays(v.log, op.e, id); }
    }
  }

  lemma {:induction false} CreationMints(t: Tables, v: Tables, mints: seq<Mint>, confidence: real, m: Mint, ts: int)
    requires Counted(v) && Minted(t, v, mints)
    ensures var e := Evidence(v.next, m.anchor, m.revision);
      Minted(t, Apply(Apply(v, Create(confidence)), AddEvidence(e, ts)), mints + [m])
  {
    var e := Evidence(v.next, m.anchor, m.revision);
    var w := Apply(v, Create(confidence));
    assert v.next !in v.theses;
    assert !Logged(w.log, e);
    var u := Apply(w, AddEvidence(e, ts));
    assert u.log == v.log + [e] && u.next == v.next + 1;
    NoFirstRow(v.log, v.next);
    hide FirstRow, Apply;
    forall id { FirstRowStays(v.log, e, id); }
  }

  lemma {:induction false} CreationsMint(t: Tables, v: Tables, mints: seq<Mint>, specs: seq<NewThesis>,
                                         items: seq<Item>, ts: int)
    requires Counted(v) && Minted(t, v, mints)
    ensures var u := ApplyAll(v, CreateOps(specs, items, v.next, ts));
      Counted(u) && Minted(t, u, mints + MintsOf(specs, items))
    decreases |specs|
  {
    hide RevisionOf, Apply, Counted, FirstRow;
    RunKeepsCounted(v, CreateOps(specs, items, v.next, ts));
    if specs == [] {
      assert mints + MintsOf(specs, items) == mints;
    } else {
      var n := |specs| - 1;
      var front := CreateOps(specs[..n], items, v.next, ts);
      var m := Mint(specs[n].anchor, RevisionOf(items, specs[n].anchor));
      CreationsMint(t, v, mints, specs[..n], items, ts);
      var u := ApplyAll(v, front);
      assert u.next == v.next + n;
      assert mints + MintsOf(specs, items) == (mints + MintsOf(specs[..n], items)) + [m];
      TwoOps(v, front, Create(specs[n].confidence), AddEvidence(Evidence(v.next + n, m.anchor, m.revision), ts));
      hide Minted, ApplyAll;
      CreationMints(t, u, mints + MintsOf(specs[..n], items), specs[n].confidence, m, ts);
    }
  }

  ghost predicate NoCreation(ops: seq<Op>) { forall i :: 0 <= i < |ops| ==> !ops[i].Create? }

  lemma {:induction false} OthersKeepMinted(t: Tables, v: Tables, mints: seq<Mint>, ops: seq<Op>)
    requires Minted(t, v, mints) && NoCreation(ops)
    ensures Minted(t, ApplyAll(v, ops), mints)
    decreases |ops|
  {
    hide Minted, Apply;
    if ops != [] {
      OthersKeepMinted(t, v, mints, ops[..|ops| - 1]);
      OpKeepsMinted(t, ApplyAll(v, ops[..|ops| - 1]), mints, ops[|ops| - 1]);
    }
  }

  lemma {:induction false} DisposalsCreateNothing(items: seq<Item>, ops: map<nat, Decision>, anchors: set<nat>, ts: int)
    ensures NoCreation(EvidenceOps(items, ops, anchors, ts))
    decreases |items|
  {
    if items != [] {
      DisposalsCreateNothing(items[..|items| - 1], ops, anchors, ts);
    }
  }

  lemma {:induction false} SettlingCreatesNothing(t: Tables, p: Pass)
    ensures NoCreation(Writes(Settling(t, p)))
  {
    var anchors := Anchors(p.reply.newTheses, Ids(p.items));
    var ops := ResolveOps(p.reply.items, Known(t), Ids(p.items), anchors).ops;
    var reviews := ReviewOps(ValidReviews(p.reply.reviews, Known(t)));
    assert NoCreation(reviews);
    hide ResolveOps, DisposeSteps, ReviewSteps, EvidenceOps, Writes, Known, Anchors, ReviewOps;
    Appended(DisposeSteps(p.items, ops, anchors, p.ts), ReviewSteps(reviews));
    DisposeStepsWrite(p.items, ops, anchors, p.ts);
    ReviewStepsDo(reviews);
    DisposalsCreateNothing(p.items, ops, anchors, p.ts);
  }

  lemma {:induction false} NightMints(t: Tables, w: World, mints: seq<Mint>, p: Pass)
    requires Counted(w.tables) && Minted(t, w.tables, mints)
    ensures Minted(t, After(w, p).tables, mints + Mints(p))
  {
    hide Minted, Counted, Made, Lived, Settling, ApplyAll, CreateOps, AckedBy, MintsOf;
    var v := w.tables;
    var tail := MadeFirst(v, p);
    var rest := Settling(v, p)[|tail|..];
    assert Settling(v, p) == tail + rest;
    Appended(tail, rest);
    SettlingCreatesNothing(v, p);
    var creations := CreateOps(Made(p), p.items, v.next, p.ts);
    assert NoCreation(Writes(tail)) by {
      assert forall i :: 0 <= i < |Writes(tail)| ==> Writes(Settling(v, p))[i] == Writes(tail)[i];
    }
    CreationsMint(t, v, mints, Made(p), p.items, p.ts);
    InTurn(v, creations, Writes(tail));
    OthersKeepMinted(t, ApplyAll(v, creations), mints + Mints(p), Writes(tail));
  }

  /** Over any nights, cut anywhere, the new theses are exactly the committed specs: each under
      an id of its own, in order, with its anchor as its first evidence. */
  lemma {:induction false} MadeTheses(w: World, ps: seq<Pass>)
    requires Counted(w.tables)
    ensures Minted(w.tables, Nights(w, ps).tables, AllMints(ps))
    decreases |ps|
  {
    hide Counted, Mints, After;
    if ps != [] {
      hide Minted;
      var front := ps[..|ps| - 1];
      MadeTheses(w, front);
      CutNightsKeepCounted(w, front);
      NightMints(w.tables, Nights(w, front), AllMints(front), ps[|ps| - 1]);
    }
  }
}
