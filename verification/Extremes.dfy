/** High and low over a stretch of kept buckets, and what they say of the trades. */
module Extremes {
  import opened Options
  import opened Book
  import opened BookFacts
  import opened Numbers

  /** Buckets with lo < key <= hi, in dictionary order. */
  function Between(bs: seq<Bucket>, lo: int, hi: int): seq<Bucket> {
    if bs == [] then []
    else
      var rest := Between(bs[..|bs| - 1], lo, hi);
      var b := bs[|bs| - 1];
      if lo < b.key <= hi then rest + [b] else rest
  }

  function MaxHigh(w: seq<Bucket>): real
    requires w != []
  {
    if |w| == 1 then w[0].high else Max(MaxHigh(w[..|w| - 1]), w[|w| - 1].high)
  }

  function MinLow(w: seq<Bucket>): real
    requires w != []
  {
    if |w| == 1 then w[0].low else Min(MinLow(w[..|w| - 1]), w[|w| - 1].low)
  }

  method HighLow(w: seq<Bucket>) returns (high: real, low: real)
    requires w != []
    ensures high == MaxHigh(w) && low == MinLow(w)
  {
    high, low := w[0].high, w[0].low;
    assert w[..1] == [w[0]];
    for i := 1 to |w|
      invariant high == MaxHigh(w[..i]) && low == MinLow(w[..i])
    {
      assert w[..i + 1][..i] == w[..i];
      high, low := Max(high, w[i].high), Min(low, w[i].low);
    }
    assert w[..|w|] == w;
  }

  /** (high, low) of the window, without the current bucket when asked. */
  function ExtremeOf(bs: seq<Bucket>, lo: int, hi: int, excludeLast: bool): Option<(real, real)> {
    var all := Between(bs, lo, hi);
    var w := if excludeLast && all != [] && all[|all| - 1].key == hi then all[..|all| - 1] else all;
    if w == [] then None else Some((MaxHigh(w), MinLow(w)))
  }

  lemma {:induction false} BetweenHolds(bs: seq<Bucket>, lo: int, hi: int)
    ensures forall b :: b in Between(bs, lo, hi) <==> b in bs && lo < b.key <= hi
    decreases |bs|
  {
    if bs != [] {
      BetweenHolds(bs[..|bs| - 1], lo, hi);
      assert bs == bs[..|bs| - 1] + [bs[|bs| - 1]];
    }
  }

  /** On an ordered dictionary leaving out the current bucket ends the window before it. */
  lemma {:induction false} DropCurrent(bs: seq<Bucket>, lo: int, hi: int)
    requires Sorted(bs)
    ensures var all := Between(bs, lo, hi);
      Between(bs, lo, hi - 1) == if all != [] && all[|all| - 1].key == hi then all[..|all| - 1] else all
    decreases |bs|
  {
    if bs != [] {
      var front, b := bs[..|bs| - 1], bs[|bs| - 1];
      DropCurrent(front, lo, hi);
      BetweenHolds(front, lo, hi);
      var all := Between(front, lo, hi);
      if all != [] && all[|all| - 1].key == hi {
        assert all[|all| - 1] in front;
      }
    }
  }

  lemma {:induction false} ExtremesBound(w: seq<Bucket>)
    requires w != []
    ensures forall b <- w :: MinLow(w) <= b.low && b.high <= MaxHigh(w)
    ensures exists b <- w :: b.high == MaxHigh(w)
    ensures exists b <- w :: b.low == MinLow(w)
    decreases |w|
  {
    var front, b := w[..|w| - 1], w[|w| - 1];
    if |w| > 1 {
      ExtremesBound(front);
      assert w == front + [b];
    } else {
      assert w == [b];
    }
  }

  lemma {:induction false} TradesOfHolds(log: seq<Trade>, key: int)
    ensures forall t :: t in TradesOf(log, key) <==> t in log && t.price > 0.0 && KeyOf(t.ts) == key
    decreases |log|
  {
    hide KeyOf;
    if log != [] {
      TradesOfHolds(log[..|log| - 1], key);
      assert log == log[..|log| - 1] + [log[|log| - 1]];
    }
  }

  /** t is an accepted trade of a bucket in the window that the book still keeps. */
  predicate Counts(keep: nat, log: seq<Trade>, lo: int, hi: int, t: Trade) {
    t in log && t.price > 0.0 && lo < KeyOf(t.ts) <= hi && KeyOf(t.ts) in LastN(LogKeys(log), keep)
  }

  lemma {:induction false} BucketOf(keep: nat, log: seq<Trade>, s: State, lo: int, hi: int, t: Trade)
    requires Agrees(keep, log, s) && Counts(keep, log, lo, hi, t)
    ensures exists b :: b in Between(s.buckets, lo, hi) && t in TradesOf(log, b.key) && IsCandle(log, b)
  {
    hide KeyOf, LogKeys, Candle;
    var i :| 0 <= i < |s.buckets| && Keys(s.buckets)[i] == KeyOf(t.ts);
    var b := s.buckets[i];
    BetweenHolds(s.buckets, lo, hi);
    TradesOfHolds(log, b.key);
    assert b in s.buckets;
  }

  lemma {:induction false} TradesCount(keep: nat, log: seq<Trade>, s: State, lo: int, hi: int, b: Bucket)
    requires Agrees(keep, log, s) && b in Between(s.buckets, lo, hi)
    ensures IsCandle(log, b) && forall t <- TradesOf(log, b.key) :: Counts(keep, log, lo, hi, t)
  {
    hide KeyOf, LogKeys, Candle;
    BetweenHolds(s.buckets, lo, hi);
    TradesOfHolds(log, b.key);
    var i :| 0 <= i < |s.buckets| && s.buckets[i] == b;
    assert Keys(s.buckets)[i] == b.key;
  }

  /** While the book agrees with its log, the extremes of a window bound every accepted
      trade of its kept buckets and are prices at which such trades were made. */
  lemma {:induction false} ExtremesAreTradeExtremes(keep: nat, log: seq<Trade>, s: State, lo: int, hi: int)
    requires Agrees(keep, log, s) && Between(s.buckets, lo, hi) != []
    ensures var w := Between(s.buckets, lo, hi);
      && (forall t :: Counts(keep, log, lo, hi, t) ==> MinLow(w) <= t.price <= MaxHigh(w))
      && (exists t :: Counts(keep, log, lo, hi, t) && t.price == MaxHigh(w))
      && (exists t :: Counts(keep, log, lo, hi, t) && t.price == MinLow(w))
  {
    hide Agrees, Counts, Between, TradesOf;
    var w := Between(s.buckets, lo, hi);
    ExtremesBound(w);
    forall t | Counts(keep, log, lo, hi, t) ensures MinLow(w) <= t.price <= MaxHigh(w) {
      BucketOf(keep, log, s, lo, hi, t);
      var b :| b in w && t in TradesOf(log, b.key) && IsCandle(log, b);
      CandleBounds(TradesOf(log, b.key));
    }
    var top :| top in w && top.high == MaxHigh(w);
    TradesCount(keep, log, s, lo, hi, top);
    CandleBounds(TradesOf(log, top.key));
    var bottom :| bottom in w && bottom.low == MinLow(w);
    TradesCount(keep, log, s, lo, hi, bottom);
    CandleBounds(TradesOf(log, bottom.key));
  }
}
