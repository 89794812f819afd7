/** Which ranked survivors of a scan are emitted, and what the scan journals. */
module Emission {
  import opened Numbers
  import opened Options

  /** `etb` is what a borrow lookup would answer; None when it cannot be asked. */
  datatype Candidate = Candidate(ticker: nat, score: real, move: Option<real>, etb: Option<bool>)

  datatype Config = Config(minScore: real, precheck: bool, ssrTrigger: real,
                           maxPerScan: int, maxPerDay: int, maxPerHour: int, maxConcurrent: int,
                           observeAfterCap: bool)

  datatype Status = Emitted | Filtered | Capped

  datatype Reason = NoReason | ScoreFloor | SsrRestricted | ShortUnavailable | EarlyWindow
                  | PerScan | PerDay | PerHour | Concurrent

  datatype Verdict = Verdict(status: Status, reason: Reason)

  const EMIT := Verdict(Emitted, NoReason)

  predicate IsDown(c: Candidate) { c.move.Some? && c.move.value < 0.0 }

  function Disposition(g: Config, c: Candidate, emittedThisScan: int, emittedToday: int, emittedLastHour: int,
                       openScanner: int, etb: Option<bool>, early: bool): Verdict
  {
    if c.score < g.minScore then Verdict(Filtered, ScoreFloor)
    else if IsDown(c) && g.precheck && c.move.value <= g.ssrTrigger then Verdict(Filtered, SsrRestricted)
    else if IsDown(c) && g.precheck && etb == Some(false) then Verdict(Filtered, ShortUnavailable)
    else if early then Verdict(Capped, EarlyWindow)
    else if emittedThisScan >= g.maxPerScan then Verdict(Capped, PerScan)
    else if emittedToday >= g.maxPerDay then Verdict(Capped, PerDay)
    else if g.maxPerHour != 0 && emittedLastHour >= g.maxPerHour then Verdict(Capped, PerHour)
    else if openScanner >= g.maxConcurrent then Verdict(Capped, Concurrent)
    else EMIT
  }

  /** What a scan reads once, before its first candidate. */
  datatype Reading = Reading(today: nat, hour: nat, open: nat, early: bool)

  /** Only a down-mover that would otherwise emit is looked at again, with the borrow
      answer and the early-window flag. */
  function Decide(g: Config, r: Reading, c: Candidate, emitted: nat): Verdict {
    var first := Disposition(g, c, emitted, r.today + emitted, r.hour + emitted, r.open, None, false);
    if first == EMIT && IsDown(c) && g.precheck then
      Disposition(g, c, emitted, r.today + emitted, r.hour + emitted, r.open, c.etb, r.early)
    else first
  }

  /** Worth a slot, whatever slots are left. */
  predicate Eligible(g: Config, r: Reading, c: Candidate) {
    && c.score >= g.minScore
    && (IsDown(c) && g.precheck ==> c.move.value > g.ssrTrigger && c.etb != Some(false) && !r.early)
  }

  /** Slots a scan has. */
  function Room(g: Config, r: Reading): nat {
    var byCaps := Least(g.maxPerScan, g.maxPerDay - r.today);
    var room := if g.maxPerHour != 0 then Least(byCaps, g.maxPerHour - r.hour) else byCaps;
    if r.open >= g.maxConcurrent || room < 0 then 0 else room
  }

  lemma {:induction false} EmitsIffEligibleWithRoom(g: Config, r: Reading, c: Candidate, emitted: nat)
    ensures Decide(g, r, c, emitted) == EMIT <==> Eligible(g, r, c) && emitted < Room(g, r)
  {
  }

  /** The early window is looked at only on the second look, which up-movers never get: it
      holds back down-movers alone. */
  lemma {:induction false} EarlyWindowHoldsOnlyDownMovers(g: Config, r: Reading, c: Candidate, emitted: nat)
    ensures Decide(g, r, c, emitted) != Decide(g, r.(early := false), c, emitted) ==>
      IsDown(c) && g.precheck && r.early
    ensures IsDown(c) && g.precheck && r.early ==> Decide(g, r, c, emitted) != EMIT
  {
  }

  /** FILTERED is a candidate that no slot would have saved. Borrow is asked for only while
      there is room, so without room a name that cannot be borrowed is CAPPED instead. */
  lemma {:induction false} FilteredAndCapped(g: Config, r: Reading, c: Candidate, emitted: nat)
    ensures var v := Decide(g, r, c, emitted);
      var worth := Eligible(g, r.(early := false), c.(etb := None));
      var refused := IsDown(c) && g.precheck && c.etb == Some(false);
      && (v.status == Filtered <==> !worth || (refused && emitted < Room(g, r)))
      && (v.status == Capped <==> worth && (emitted >= Room(g, r) || (!refused && !Eligible(g, r, c))))
  {
  }

  /** Which reason a verdict gives: the first that applies, the quality filters that need no
      lookup before the caps, the caps before the borrow answer and the early window. */
  lemma {:induction false} ReasonSays(g: Config, r: Reading, c: Candidate, emitted: nat)
    ensures var v := Decide(g, r, c, emitted);
      var checked := g.precheck && c.move.Some? && c.move.value < 0.0;
      var ranks := c.score >= g.minScore;
      var passes := ranks && !(checked && c.move.value <= g.ssrTrigger);
      var scan, day := emitted >= g.maxPerScan, r.today + emitted >= g.maxPerDay;
      var hour, full := g.maxPerHour != 0 && r.hour + emitted >= g.maxPerHour, r.open >= g.maxConcurrent;
      var room := passes && !scan && !day && !hour && !full;
      && (v == Verdict(Filtered, ScoreFloor) <==> !ranks)
      && (v == Verdict(Filtered, SsrRestricted) <==> ranks && checked && c.move.value <= g.ssrTrigger)
      && (v == Verdict(Capped, PerScan) <==> passes && scan)
      && (v == Verdict(Capped, PerDay) <==> passes && !scan && day)
      && (v == Verdict(Capped, PerHour) <==> passes && !scan && !day && hour)
      && (v == Verdict(Capped, Concurrent) <==> passes && !scan && !day && !hour && full)
      && (v == Verdict(Filtered, ShortUnavailable) <==> room && checked && c.etb == Some(false))
      && (v == Verdict(Capped, EarlyWindow) <==> room && checked && c.etb != Some(false) && r.early)
      && (v == EMIT <==> room && !(checked && (c.etb == Some(false) || r.early)))
  {
  }

  // ------------------------------------------------------------ journaling

  datatype Row = Row(day: int, ticker: nat, verdict: Verdict, ts: int)

  datatype Seen = Seen(day: int, ticker: nat, verdict: Verdict)

  datatype Item = Item(ticker: nat, day: int)

  /** The candidate rows, this process's memory of what it journaled, and the items on
      the scanner queue by dedup key. */
  datatype Journal = Journal(rows: seq<Row>, seen: set<Seen>, queued: set<Item>)

  /** First occurrence per day, ticker, status and reason only. */
  function Note(j: Journal, row: Row): Journal {
    var key := Seen(row.day, row.ticker, row.verdict);
    if key in j.seen then j else j.(rows := j.rows + [row], seen := j.seen + {key})
  }

  /** A survivor's turn; `rolls` says that its transaction rolls back if it emits. */
  datatype Turn = Turn(c: Candidate, at: int, rolls: bool)

  /** A scan so far. It ends at a rolled-back emission, which leaves only the memory of it. */
  datatype Sweep = Sweep(journal: Journal, emitted: seq<Candidate>, rolled: Option<Candidate>)

  function Remember(j: Journal, day: int, ticker: nat): Journal {
    j.(seen := j.seen + {Seen(day, ticker, EMIT)})
  }

  function Take(g: Config, r: Reading, day: int, s: Sweep, t: Turn): Sweep {
    if s.rolled.Some? then s
    else
      var v := Decide(g, r, t.c, |s.emitted|);
      var noted := Note(s.journal, Row(day, t.c.ticker, v, t.at));
      if v != EMIT then s.(journal := noted)
      else if t.rolls then s.(journal := Remember(s.journal, day, t.c.ticker), rolled := Some(t.c))
      else Sweep(noted.(queued := noted.queued + {Item(t.c.ticker, day)}), s.emitted + [t.c], None)
  }

  function Scan(g: Config, r: Reading, day: int, j: Journal, ts: seq<Turn>): Sweep {
    if ts == [] then Sweep(j, [], None)
    else Take(g, r, day, Scan(g, r, day, j, ts[..|ts| - 1]), ts[|ts| - 1])
  }

  function EligibleOf(g: Config, r: Reading, ts: seq<Turn>): seq<Candidate> {
    if ts == [] then []
    else
      var front := EligibleOf(g, r, ts[..|ts| - 1]);
      var c := ts[|ts| - 1].c;
      if Eligible(g, r, c) then front + [c] else front
  }

  /** The scan emits the first eligible survivors in rank order, as many as there is room
      for: nothing that is filtered or capped uses up a slot. One that is rolled back emits
      a beginning of these. */
  lemma {:induction false} ScanIsGreedy(g: Config, r: Reading, day: int, j: Journal, ts: seq<Turn>)
    ensures var e := EligibleOf(g, r, ts);
      var s := Scan(g, r, day, j, ts);
      && s.emitted <= e[..Least(|e|, Room(g, r))]
      && (s.rolled.None? ==> s.emitted == e[..Least(|e|, Room(g, r))])
    decreases |ts|
  {
    if ts != [] {
      var front, t := ts[..|ts| - 1], ts[|ts| - 1];
      ScanIsGreedy(g, r, day, j, front);
      EmitsIffEligibleWithRoom(g, r, t.c, |Scan(g, r, day, j, front).emitted|);
      hide Decide, Eligible, Room, Note;
      var e := EligibleOf(g, r, front);
      if Eligible(g, r, t.c) {
        assert (e + [t.c])[..Least(|e|, Room(g, r))] == e[..Least(|e|, Room(g, r))];
        assert e[..Least(|e|, Room(g, r))] <= (e + [t.c])[..Least(|e| + 1, Room(g, r))];
      }
    }
  }

  /** A scan starts no emission exactly when it has no room or no survivor is eligible. */
  lemma {:induction false} ScanIdleIff(g: Config, r: Reading, day: int, j: Journal, ts: seq<Turn>)
    ensures var s := Scan(g, r, day, j, ts);
      s.emitted == [] && s.rolled.None? <==>
        Room(g, r) == 0 || forall k :: 0 <= k < |ts| ==> !Eligible(g, r, ts[k].c)
    decreases |ts|
  {
    hide Decide, Eligible, Room, Note;
    if ts != [] {
      var front, t := ts[..|ts| - 1], ts[|ts| - 1];
      ScanIdleIff(g, r, day, j, front);
      EmitsIffEligibleWithRoom(g, r, t.c, |Scan(g, r, day, j, front).emitted|);
      assert forall k :: 0 <= k < |front| ==> front[k] == ts[k];
    }
  }

  /** Exactly when nothing goes out in the early window: the scan has no room, or every
      survivor is below the score floor or a down-mover of which the pre-check asks. */
  lemma {:induction false} EarlyScanIdleIff(g: Config, r: Reading, day: int, j: Journal, ts: seq<Turn>)
    requires r.early
    ensures var s := Scan(g, r, day, j, ts);
      s.emitted == [] && s.rolled.None? <==>
        Room(g, r) == 0 || forall k :: 0 <= k < |ts| ==> ts[k].c.score < g.minScore || (IsDown(ts[k].c) && g.precheck)
  {
    hide Scan, Room;
    ScanIdleIff(g, r, day, j, ts);
    assert forall k :: 0 <= k < |ts| ==>
      (Eligible(g, r, ts[k].c) <==> !(ts[k].c.score < g.minScore || (IsDown(ts[k].c) && g.precheck)));
  }

  /** An up-mover goes out in the early window. */
  lemma {:induction false} UpMoverEmittedEarly(day: int, at: int)
    ensures var g := Config(0.5, true, -0.1, 1, 1, 1, 1, false);
      var c := Candidate(1, 0.9, Some(0.05), None);
      Scan(g, Reading(0, 0, 0, true), day, Journal([], {}, {}), [Turn(c, at, false)]).emitted == [c]
  {
    var g, c := Config(0.5, true, -0.1, 1, 1, 1, 1, false), Candidate(1, 0.9, Some(0.05), None);
    assert [Turn(c, at, false)][..0] == [];
    assert [] + [c] == [c];
  }

  // -------------------------------------------------------------- ranking

  ghost predicate Ranked(cs: seq<Candidate>) {
    forall i, j :: 0 <= i < j < |cs| ==> cs[i].score >= cs[j].score
  }

  /** Equal scores keep their order. */
  function Insert(c: Candidate, cs: seq<Candidate>): seq<Candidate> {
    if cs == [] then [c]
    else if cs[|cs| - 1].score >= c.score then cs + [c]
    else Insert(c, cs[..|cs| - 1]) + [cs[|cs| - 1]]
  }

  function ByScore(cs: seq<Candidate>): seq<Candidate> {
    if cs == [] then [] else Insert(cs[|cs| - 1], ByScore(cs[..|cs| - 1]))
  }

  lemma {:induction false} InsertRanks(c: Candidate, cs: seq<Candidate>)
    requires Ranked(cs)
    ensures Ranked(Insert(c, cs)) && multiset(Insert(c, cs)) == multiset(cs) + multiset{c}
    decreases |cs|
  {
    if cs != [] && cs[|cs| - 1].score < c.score {
      var front, last := cs[..|cs| - 1], cs[|cs| - 1];
      assert cs == front + [last];
      assert Ranked(front);
      InsertRanks(c, front);
      LowestLast(Insert(c, front), front, c, last);
    }
  }

  lemma {:induction false} LowestLast(r: seq<Candidate>, front: seq<Candidate>, c: Candidate, last: Candidate)
    requires Ranked(r) && Ranked(front + [last]) && multiset(r) == multiset(front) + multiset{c}
    requires last.score < c.score
    ensures Ranked(r + [last])
  {
    forall i | 0 <= i < |r| ensures r[i].score >= last.score {
      assert r[i] in multiset(r);
      if r[i] != c {
        assert r[i] in multiset(front);
        var k :| 0 <= k < |front| && front[k] == r[i];
        assert (front + [last])[k].score >= (front + [last])[|front|].score;
      }
    }
  }

  lemma {:induction false} ByScoreRanks(cs: seq<Candidate>)
    ensures Ranked(ByScore(cs)) && multiset(ByScore(cs)) == multiset(cs)
    decreases |cs|
  {
    if cs != [] {
      assert cs == cs[..|cs| - 1] + [cs[|cs| - 1]];
      ByScoreRanks(cs[..|cs| - 1]);
      InsertRanks(cs[|cs| - 1], ByScore(cs[..|cs| - 1]));
    }
  }

  /** A survivor left out although eligible never outscores one that was emitted. */
  lemma {:induction false} EmittedOutrankTheRest(g: Config, r: Reading, day: int, j: Journal, ts: seq<Turn>,
                                                 i: nat, k: nat)
    requires Ranked(seq(|ts|, n requires 0 <= n < |ts| => ts[n].c))
    requires var e := EligibleOf(g, r, ts); i < |Scan(g, r, day, j, ts).emitted| <= k < |e|
    ensures Scan(g, r, day, j, ts).emitted[i].score >= EligibleOf(g, r, ts)[k].score
  {
    ScanIsGreedy(g, r, day, j, ts);
    EligibleStayRanked(g, r, ts);
  }

  lemma {:induction false} EligibleStayRanked(g: Config, r: Reading, ts: seq<Turn>)
    requires Ranked(seq(|ts|, n requires 0 <= n < |ts| => ts[n].c))
    ensures Ranked(EligibleOf(g, r, ts))
    ensures ts != [] ==> forall i :: 0 <= i < |EligibleOf(g, r, ts)| ==> EligibleOf(g, r, ts)[i].score >= ts[|ts| - 1].c.score
    decreases |ts|
  {
    if ts != [] {
      var cs := seq(|ts|, n requires 0 <= n < |ts| => ts[n].c);
      var front := ts[..|ts| - 1];
      assert seq(|front|, n requires 0 <= n < |front| => front[n].c) == cs[..|ts| - 1];
      EligibleStayRanked(g, r, front);
      if front != [] {
        assert cs[|front| - 1].score >= cs[|front|].score;
      }
    }
  }
}
