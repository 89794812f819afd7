/** The bracket score said of prices: of the buckets' highs and lows, and of the trades. */
module Brackets {
  import opened Book
  import opened BookFacts
  import opened Extremes
  import opened FirstHit
  import opened Numbers
  import opened Options

  /** A price at or beyond the target, and one at or beyond the stop. */
  predicate Reaches(price: real, px: real, up: bool, target: real) {
    if up then price >= px * (1.0 + target) else price <= px * (1.0 - target)
  }

  predicate Breaks(price: real, px: real, up: bool, stop: real) {
    if up then price <= px * (1.0 - stop) else price >= px * (1.0 + stop)
  }

  /** The bucket's best price for the direction, and its worst. */
  function BestOf(b: Bucket, up: bool): real { if up then b.high else b.low }

  function WorstOf(b: Bucket, up: bool): real { if up then b.low else b.high }

  lemma {:induction false} RatioIs(a: real, px: real, c: real)
    requires px > 0.0
    ensures a / px >= c <==> a >= px * c
    ensures a / px <= c <==> a <= px * c
  {
    var q := a / px;
    assert q * px == a;
    if q < c {
      assert (c - q) * px > 0.0;
    } else if q > c {
      assert (q - c) * px > 0.0;
    }
  }

  lemma {:induction false} BucketMeans(b: Bucket, px: real, up: bool, target: real, stop: real)
    requires px > 0.0
    ensures Fav(b, px, up) >= target <==> Reaches(BestOf(b, up), px, up, target)
    ensures Adv(b, px, up) >= stop <==> Breaks(WorstOf(b, up), px, up, stop)
  {
    RatioIs(b.high, px, 1.0 + target);
    RatioIs(b.low, px, 1.0 - target);
    RatioIs(b.high, px, 1.0 + stop);
    RatioIs(b.low, px, 1.0 - stop);
  }

  /** Bucket i is the first whose best price reaches the target or worst price the stop. */
  predicate Decisive(w: seq<Bucket>, px: real, up: bool, target: real, stop: real, i: int) {
    && 0 <= i < |w|
    && (Reaches(BestOf(w[i], up), px, up, target) || Breaks(WorstOf(w[i], up), px, up, stop))
    && forall j :: 0 <= j < i ==>
         !Reaches(BestOf(w[j], up), px, up, target) && !Breaks(WorstOf(w[j], up), px, up, stop)
  }

  /** What a score means in prices: for a rise, a target has the high at px * (1 + target) or
      more and the low above px * (1 - stop), a stop the low at px * (1 - stop) or less, and
      no earlier bucket has either; for a fall the other way round. */
  lemma {:induction false} ScoreInPrices(w: seq<Bucket>, px: real, up: bool, target: real, stop: real)
    requires px > 0.0
    ensures var i := FirstDecider(w, px, up, target, stop);
      && (i < |w| ==> Decisive(w, px, up, target, stop, i))
      && (Score(w, px, up, target, stop) == TargetFirst <==> i < |w| && !Breaks(WorstOf(w[i], up), px, up, stop))
      && (Score(w, px, up, target, stop) == StopFirst <==> i < |w| && Breaks(WorstOf(w[i], up), px, up, stop))
    ensures Score(w, px, up, target, stop) == NoHit <==> forall j :: 0 <= j < |w| ==>
      !Reaches(BestOf(w[j], up), px, up, target) && !Breaks(WorstOf(w[j], up), px, up, stop)
  {
    hide Reaches, Breaks, Fav, Adv, BestOf, WorstOf;
    forall j | 0 <= j < |w|
      ensures Decides(w[j], px, up, target, stop) <==>
        Reaches(BestOf(w[j], up), px, up, target) || Breaks(WorstOf(w[j], up), px, up, stop)
      ensures Adv(w[j], px, up) >= stop <==> Breaks(WorstOf(w[j], up), px, up, stop)
    {
      BucketMeans(w[j], px, up, target, stop);
    }
    hide Decides;
  }

  /** The reported excursions: from px to the window's highest high and lowest low, never
      below zero. */
  lemma {:induction false} ExcursionsInPrices(w: seq<Bucket>, px: real, up: bool)
    requires px > 0.0 && w != []
    ensures var rise, fall := MaxHigh(w) / px - 1.0, 1.0 - MinLow(w) / px;
      && MaxFav(w, px, up) == Max(0.0, if up then rise else fall)
      && MaxAdv(w, px, up) == Max(0.0, if up then fall else rise)
    decreases |w|
  {
    var front, b := w[..|w| - 1], w[|w| - 1];
    if |w| > 1 {
      ExcursionsInPrices(front, px, up);
      RatioOrder(MaxHigh(front), b.high, px);
      RatioOrder(MinLow(front), b.low, px);
    } else {
      assert front == [];
    }
  }

  lemma {:induction false} RatioOrder(a: real, b: real, px: real)
    requires px > 0.0
    ensures a <= b <==> a / px <= b / px
  {
    var p, q := a / px, b / px;
    assert p * px == a && q * px == b;
    if p <= q {
      assert (q - p) * px >= 0.0;
    } else {
      assert (p - q) * px > 0.0;
    }
  }

  // --------------------------------------------------------------- the trades

  /** Every trade of the bucket lies between its extremes, and both were traded. */
  lemma {:induction false} BucketTrades(keep: nat, log: seq<Trade>, s: State, lo: int, hi: int, b: Bucket)
    returns (top: Trade, bottom: Trade)
    requires Agrees(keep, log, s) && b in Between(s.buckets, lo, hi)
    ensures Counts(keep, log, lo, hi, top) && KeyOf(top.ts) == b.key && top.price == b.high
    ensures Counts(keep, log, lo, hi, bottom) && KeyOf(bottom.ts) == b.key && bottom.price == b.low
    ensures forall t :: Counts(keep, log, lo, hi, t) && KeyOf(t.ts) == b.key ==> b.low <= t.price <= b.high
  {
    TradesCount(keep, log, s, lo, hi, b);
    TradesOfHolds(log, b.key);
    CandleBounds(TradesOf(log, b.key));
    hide KeyOf, Agrees, Between, TradesOf, Highest, Lowest, LogKeys;
    top :| top in TradesOf(log, b.key) && top.price == b.high;
    bottom :| bottom in TradesOf(log, b.key) && bottom.price == b.low;
  }

  predicate TradeReaches(keep: nat, log: seq<Trade>, lo: int, hi: int, t: Trade, px: real, up: bool, target: real) {
    Counts(keep, log, lo, hi, t) && Reaches(t.price, px, up, target)
  }

  predicate TradeBreaks(keep: nat, log: seq<Trade>, lo: int, hi: int, t: Trade, px: real, up: bool, stop: real) {
    Counts(keep, log, lo, hi, t) && Breaks(t.price, px, up, stop)
  }

  /** Some counted trade of the bucket reaches the target, or breaks the stop. */
  lemma {:induction false} BucketByTrades(keep: nat, log: seq<Trade>, s: State, lo: int, hi: int, b: Bucket, px: real,
                                          up: bool, target: real, stop: real)
    requires Agrees(keep, log, s) && b in Between(s.buckets, lo, hi) && px > 0.0
    ensures Reaches(BestOf(b, up), px, up, target) <==>
      exists t :: TradeReaches(keep, log, lo, hi, t, px, up, target) && KeyOf(t.ts) == b.key
    ensures Breaks(WorstOf(b, up), px, up, stop) <==>
      exists t :: TradeBreaks(keep, log, lo, hi, t, px, up, stop) && KeyOf(t.ts) == b.key
  {
    var top, bottom := BucketTrades(keep, log, s, lo, hi, b);
    hide Agrees, Between, Counts, KeyOf;
    var best, worst := if up then top else bottom, if up then bottom else top;
    assert best.price == BestOf(b, up) && worst.price == WorstOf(b, up);
    if Reaches(BestOf(b, up), px, up, target) {
      assert TradeReaches(keep, log, lo, hi, best, px, up, target);
    }
    if Breaks(WorstOf(b, up), px, up, stop) {
      assert TradeBreaks(keep, log, lo, hi, worst, px, up, stop);
    }
  }

  /** The window of a sorted book is sorted, and holds the bucket of every counted trade. */
  lemma {:induction false} WindowSorted(bs: seq<Bucket>, lo: int, hi: int)
    requires Sorted(bs)
    ensures Sorted(Between(bs, lo, hi))
    decreases |bs|
  {
    if bs != [] {
      var front := bs[..|bs| - 1];
      WindowSorted(front, lo, hi);
      var w := Between(front, lo, hi);
      BetweenHolds(front, lo, hi);
      forall i | 0 <= i < |w| ensures w[i].key < bs[|bs| - 1].key {
        assert w[i] in front;
        var k :| 0 <= k < |front| && front[k] == w[i];
      }
    }
  }

  /** Whose trade it is: on a book that agrees with its log the score is target exactly when
      some trade in the window reaches the target with no trade of its own or an earlier
      bucket at the stop, and stop exactly when some trade is at the stop with no trade of an
      earlier bucket at the target. */
  lemma {:induction false} ScoreInTrades(keep: nat, log: seq<Trade>, s: State, lo: int, hi: int, px: real, up: bool,
                                         target: real, stop: real)
    requires Agrees(keep, log, s) && px > 0.0
    ensures var score := Score(Between(s.buckets, lo, hi), px, up, target, stop);
      && (score == TargetFirst <==> exists t :: FirstToTarget(keep, log, lo, hi, t, px, up, target, stop))
      && (score == StopFirst <==> exists t :: FirstToStop(keep, log, lo, hi, t, px, up, target, stop))
  {
    var w := Between(s.buckets, lo, hi);
    ScoreInPrices(w, px, up, target, stop);
    assert Sorted(s.buckets);
    WindowSorted(s.buckets, lo, hi);
    hide Agrees, Between, Score, FirstDecider, Reaches, Breaks, KeyOf, Counts, BestOf, WorstOf;
    var i := FirstDecider(w, px, up, target, stop);
    if i < |w| {
      if Breaks(WorstOf(w[i], up), px, up, stop) {
        StopTrade(keep, log, s, lo, hi, px, up, target, stop, i);
      } else {
        TargetTrade(keep, log, s, lo, hi, px, up, target, stop, i);
      }
    } else {
      NoTrade(keep, log, s, lo, hi, px, up, target, stop);
    }
  }

  ghost predicate FirstToTarget(keep: nat, log: seq<Trade>, lo: int, hi: int, t: Trade, px: real, up: bool, target: real,
                                stop: real)
  {
    && TradeReaches(keep, log, lo, hi, t, px, up, target)
    && forall u :: TradeBreaks(keep, log, lo, hi, u, px, up, stop) ==> KeyOf(u.ts) > KeyOf(t.ts)
  }

  ghost predicate FirstToStop(keep: nat, log: seq<Trade>, lo: int, hi: int, t: Trade, px: real, up: bool, target: real,
                              stop: real)
  {
    && TradeBreaks(keep, log, lo, hi, t, px, up, stop)
    && forall u :: TradeReaches(keep, log, lo, hi, u, px, up, target) ==> KeyOf(u.ts) >= KeyOf(t.ts)
  }

  /** The bucket a counted trade fell into, by its place in the window. */
  lemma {:induction false} PlaceOf(keep: nat, log: seq<Trade>, s: State, lo: int, hi: int, t: Trade) returns (k: nat)
    requires Agrees(keep, log, s) && Counts(keep, log, lo, hi, t)
    ensures var w := Between(s.buckets, lo, hi); k < |w| && w[k].key == KeyOf(t.ts)
  {
    BucketOf(keep, log, s, lo, hi, t);
    var w := Between(s.buckets, lo, hi);
    var b :| b in w && t in TradesOf(log, b.key) && IsCandle(log, b);
    TradesOfHolds(log, b.key);
    hide Between, KeyOf, IsCandle, TradesOf, Agrees;
    k :| 0 <= k < |w| && w[k] == b;
  }

  /** No counted trade of a bucket before place i does either. */
  lemma {:induction false} NoneBefore(keep: nat, log: seq<Trade>, s: State, lo: int, hi: int, px: real, up: bool,
                                      target: real, stop: real, i: nat, u: Trade)
    requires Agrees(keep, log, s) && px > 0.0 && Counts(keep, log, lo, hi, u)
    requires var w := Between(s.buckets, lo, hi);
      && Sorted(w) && i <= |w| && (i < |w| ==> KeyOf(u.ts) < w[i].key)
      && forall j :: 0 <= j < i ==> !Reaches(BestOf(w[j], up), px, up, target) && !Breaks(WorstOf(w[j], up), px, up, stop)
    ensures !Reaches(u.price, px, up, target) && !Breaks(u.price, px, up, stop)
  {
    var w := Between(s.buckets, lo, hi);
    var k := PlaceOf(keep, log, s, lo, hi, u);
    hide Agrees, Between, Reaches, Breaks, KeyOf, Counts, BestOf, WorstOf;
    assert k < i;
    BucketByTrades(keep, log, s, lo, hi, w[k], px, up, target, stop);
    assert !TradeReaches(keep, log, lo, hi, u, px, up, target);
    assert !TradeBreaks(keep, log, lo, hi, u, px, up, stop);
  }

  lemma {:induction false} StopTrade(keep: nat, log: seq<Trade>, s: State, lo: int, hi: int, px: real, up: bool,
                                     target: real, stop: real, i: nat)
    requires Agrees(keep, log, s) && px > 0.0
    requires var w := Between(s.buckets, lo, hi);
      Sorted(w) && Decisive(w, px, up, target, stop, i) && Breaks(WorstOf(w[i], up), px, up, stop)
    ensures exists t :: FirstToStop(keep, log, lo, hi, t, px, up, target, stop)
    ensures !exists t :: FirstToTarget(keep, log, lo, hi, t, px, up, target, stop)
  {
    var w := Between(s.buckets, lo, hi);
    hide Agrees, Between, Reaches, Breaks, KeyOf, Counts, BestOf, WorstOf;
    BucketByTrades(keep, log, s, lo, hi, w[i], px, up, target, stop);
    var t :| TradeBreaks(keep, log, lo, hi, t, px, up, stop) && KeyOf(t.ts) == w[i].key;
    forall u | TradeReaches(keep, log, lo, hi, u, px, up, target) ensures KeyOf(u.ts) >= KeyOf(t.ts) {
      if KeyOf(u.ts) < w[i].key {
        NoneBefore(keep, log, s, lo, hi, px, up, target, stop, i, u);
      }
    }
    assert FirstToStop(keep, log, lo, hi, t, px, up, target, stop);
  }

  lemma {:induction false} TargetTrade(keep: nat, log: seq<Trade>, s: State, lo: int, hi: int, px: real, up: bool,
                                       target: real, stop: real, i: nat)
    requires Agrees(keep, log, s) && px > 0.0
    requires var w := Between(s.buckets, lo, hi);
      Sorted(w) && Decisive(w, px, up, target, stop, i) && !Breaks(WorstOf(w[i], up), px, up, stop)
    ensures exists t :: FirstToTarget(keep, log, lo, hi, t, px, up, target, stop)
    ensures !exists t :: FirstToStop(keep, log, lo, hi, t, px, up, target, stop)
  {
    var w := Between(s.buckets, lo, hi);
    hide Agrees, Between, Reaches, Breaks, KeyOf, Counts, BestOf, WorstOf;
    BucketByTrades(keep, log, s, lo, hi, w[i], px, up, target, stop);
    var t :| TradeReaches(keep, log, lo, hi, t, px, up, target) && KeyOf(t.ts) == w[i].key;
    forall u | TradeBreaks(keep, log, lo, hi, u, px, up, stop) ensures KeyOf(u.ts) > KeyOf(t.ts) {
      if KeyOf(u.ts) < w[i].key {
        NoneBefore(keep, log, s, lo, hi, px, up, target, stop, i, u);
      }
    }
    assert FirstToTarget(keep, log, lo, hi, t, px, up, target, stop);
  }

  lemma {:induction false} NoTrade(keep: nat, log: seq<Trade>, s: State, lo: int, hi: int, px: real, up: bool,
                                   target: real, stop: real)
    requires Agrees(keep, log, s) && px > 0.0
    requires var w := Between(s.buckets, lo, hi);
      Sorted(w) && forall j :: 0 <= j < |w| ==>
        !Reaches(BestOf(w[j], up), px, up, target) && !Breaks(WorstOf(w[j], up), px, up, stop)
    ensures !exists t :: FirstToTarget(keep, log, lo, hi, t, px, up, target, stop)
    ensures !exists t :: FirstToStop(keep, log, lo, hi, t, px, up, target, stop)
  {
    hide Agrees, Between, Reaches, Breaks, KeyOf, Counts, BestOf, WorstOf;
    forall u | Counts(keep, log, lo, hi, u)
      ensures !Reaches(u.price, px, up, target) && !Breaks(u.price, px, up, stop)
    {
      NoneBefore(keep, log, s, lo, hi, px, up, target, stop, |Between(s.buckets, lo, hi)|, u);
    }
  }

  // ------------------------------------------------------------- extremes

  /** What `extreme` returns in trades: the highest and lowest counted trade price of the
      window, which ends before the current bucket when that is left out; nothing exactly
      when it counts no trade. */
  lemma {:induction false} ExtremeInTrades(keep: nat, log: seq<Trade>, s: State, lo: int, hi: int, excludeLast: bool)
    requires Agrees(keep, log, s)
    ensures var end := if excludeLast then hi - 1 else hi;
      match ExtremeOf(s.buckets, lo, hi, excludeLast)
      case None => forall t :: !Counts(keep, log, lo, end, t)
      case Some(r) =>
        && (forall t :: Counts(keep, log, lo, end, t) ==> r.1 <= t.price <= r.0)
        && (exists t :: Counts(keep, log, lo, end, t) && t.price == r.0)
        && (exists t :: Counts(keep, log, lo, end, t) && t.price == r.1)
  {
    var end := if excludeLast then hi - 1 else hi;
    DropCurrent(s.buckets, lo, hi);
    var w := Between(s.buckets, lo, end);
    if w != [] {
      ExtremesAreTradeExtremes(keep, log, s, lo, end);
    } else {
      forall t ensures !Counts(keep, log, lo, end, t) {
        if Counts(keep, log, lo, end, t) {
          BucketOf(keep, log, s, lo, end, t);
        }
      }
    }
  }

  /** Bucket k holds the seconds from 5k up to 5k + 5. */
  lemma {:induction false} BucketSeconds(ts: real)
    ensures 5.0 * KeyOf(ts) as real <= ts < 5.0 * KeyOf(ts) as real + 5.0
  {
    var q := ts / 5.0;
    assert q.Floor as real <= q < q.Floor as real + 1.0;
  }
}
