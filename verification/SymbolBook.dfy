/** The per-symbol book object: ingestion and reads. */
module SymbolBook {
  import opened Options
  import opened Rounding
  import opened Book
  import opened BookFacts
  import opened Extremes
  import opened FirstHit
  import opened Numbers

  datatype Path = Path(p1m: Option<real>, p5m: Option<real>, p15m: Option<real>, p30m: Option<real>,
                       maxFav: real, maxAdv: real, firstHit: Hit, firstHitMin: Option<real>)

  /** The close of the last bucket before the first key beyond `key`. */
  predicate IsPriceAt(bs: seq<Bucket>, key: int, r: Option<real>) {
    exists n :: 0 <= n <= |bs| && StopsAt(bs, key, n) && r == CloseBefore(bs, n)
  }

  /** The scan for key leaves the dictionary after n entries. */
  predicate StopsAt(bs: seq<Bucket>, key: int, n: nat)
    requires n <= |bs|
  {
    (forall i :: 0 <= i < n ==> bs[i].key <= key) && (n < |bs| ==> bs[n].key > key)
  }

  function CloseBefore(bs: seq<Bucket>, n: nat): Option<real>
    requires n <= |bs|
  {
    if n == 0 then None else Some(bs[n - 1].close)
  }

  /** Entry n is the first of the dictionary with a key from `key` on, or the end. */
  predicate FirstFrom(bs: seq<Bucket>, key: int, n: nat)
    requires n <= |bs|
  {
    (forall i :: 0 <= i < n ==> bs[i].key < key) && (n < |bs| ==> bs[n].key >= key)
  }

  function OpenAt(bs: seq<Bucket>, n: nat): Option<(real, real)>
    requires n <= |bs|
  {
    if n == |bs| then None else Some((bs[n].open, (bs[n].key * BUCKET_SECS) as real))
  }

  /** b has the greatest key not beyond `key`. */
  predicate IsLatest(bs: seq<Bucket>, key: int, b: Bucket) {
    b.key <= key && forall c <- bs :: c.key <= key ==> c.key <= b.key
  }

  class SymbolBook {
    const symbol: string
    const keep: nat
    var buckets: seq<Bucket>
    var lastPrice: Option<real>
    var lastTs: Option<real>
    /** Every trade ever offered, for stating what the book means. */
    ghost var log: seq<Trade>

    ghost predicate Valid()
      reads this
    {
      keep >= 1 && State(buckets, lastTs, lastPrice) == Play(keep, log)
    }

    constructor (symbol: string, keepSecs: int := 45 * 60)
      ensures Valid() && log == [] && this.symbol == symbol
      ensures keep == if keepSecs / BUCKET_SECS > 1 then keepSecs / BUCKET_SECS else 1
    {
      this.symbol := symbol;
      keep := if keepSecs / BUCKET_SECS > 1 then keepSecs / BUCKET_SECS else 1;
      buckets, lastPrice, lastTs, log := [], None, None, [];
    }

    method AddTrade(ts: real, price: real, size: real)
      requires Valid()
      modifies this
      ensures Valid() && log == old(log) + [Trade(ts, price, size)]
    {
      hide KeyOf, Absorb, Resort, Play;
      log := log + [Trade(ts, price, size)];
      PlaySnoc(keep, old(log), Trade(ts, price, size));
      if price <= 0.0 { return; }
      var key := KeyOf(ts);
      var i := IndexOf(buckets, key);
      KeptIndex(buckets, key);
      if i == |buckets| {
        var b := Fresh(key, price);
        buckets := buckets + [b];
        if |buckets| > keep {
          buckets := buckets[1..];
        }
        ResortIdle(buckets, key);
        AppendIs(keep, old(buckets), Trade(ts, price, size));
        buckets := Resort(buckets, key);
        i := |buckets| - 1;
      }
      buckets := buckets[i := Absorb(buckets[i], price, size)];
      if lastTs.None? || ts >= lastTs.value {
        lastTs, lastPrice := Some(ts), Some(price);
      }
    }

    /** Last traded price at or before ts. On an ordered book: the close of the
        greatest kept key not after ts. */
    method PriceAt(ts: real) returns (best: Option<real>)
      ensures IsPriceAt(buckets, KeyOf(ts), best)
      ensures Sorted(buckets) ==> match best
        case None => forall b <- buckets :: b.key > KeyOf(ts)
        case Some(px) => exists b <- buckets :: b.close == px && IsLatest(buckets, KeyOf(ts), b)
    {
      hide KeyOf;
      var key := KeyOf(ts);
      best := None;
      var i := 0;
      while i < |buckets|
        invariant 0 <= i <= |buckets|
        invariant forall j :: 0 <= j < i ==> buckets[j].key <= key
        invariant best == if i == 0 then None else Some(buckets[i - 1].close)
      {
        if buckets[i].key > key { break; }
        best := Some(buckets[i].close);
        i := i + 1;
      }
      assert StopsAt(buckets, key, i) && best == CloseBefore(buckets, i);
      assert i > 0 ==> buckets[i - 1] in buckets;
    }

    /** Price and bucket time of the first bucket, in dictionary order, at or after
        t0 + delay. On an ordered book: of the least such key. */
    method EntryAfter(t0: real, delay: real) returns (r: Option<(real, real)>)
      ensures exists n :: 0 <= n <= |buckets| && FirstFrom(buckets, KeyOf(t0 + delay), n) && r == OpenAt(buckets, n)
      ensures r.None? <==> forall b <- buckets :: b.key < KeyOf(t0 + delay)
      ensures r.Some? && Sorted(buckets) ==> exists b <- buckets ::
        && r.value == (b.open, (b.key * BUCKET_SECS) as real) && b.key >= KeyOf(t0 + delay)
        && forall c <- buckets :: c.key >= KeyOf(t0 + delay) ==> b.key <= c.key
    {
      hide KeyOf;
      var key := KeyOf(t0 + delay);
      var i := 0;
      while i < |buckets|
        invariant 0 <= i <= |buckets|
        invariant forall j :: 0 <= j < i ==> buckets[j].key < key
      {
        var b := buckets[i];
        if b.key >= key {
          assert b in buckets && FirstFrom(buckets, key, i) && OpenAt(buckets, i).Some?;
          return Some((b.open, (b.key * BUCKET_SECS) as real));
        }
        i := i + 1;
      }
      assert FirstFrom(buckets, KeyOf(t0 + delay), |buckets|) && OpenAt(buckets, |buckets|) == None;
      return None;
    }

    /** (high, low) over the last `secs`, without the current bucket when asked. */
    method Extreme(now: real, secs: real, excludeLast: bool := true) returns (r: Option<(real, real)>)
      ensures r == ExtremeOf(buckets, KeyOf(now - secs), KeyOf(now), excludeLast)
      ensures Sorted(buckets) ==>
        r == ExtremeOf(buckets, KeyOf(now - secs), if excludeLast then KeyOf(now) - 1 else KeyOf(now), false)
    {
      hide KeyOf;
      var lo, hi := KeyOf(now - secs), KeyOf(now);
      if Sorted(buckets) {
        DropCurrent(buckets, lo, hi);
      }
      hide Sorted, Between, MaxHigh, MinLow;
      var w := Since(lo, hi);
      if excludeLast && w != [] && w[|w| - 1].key == hi {
        w := w[..|w| - 1];
      }
      if w == [] {
        return None;
      }
      var high, low := HighLow(w);
      return Some((high, low));
    }

    method Since(lo: int, hi: int) returns (w: seq<Bucket>)
      ensures w == Between(buckets, lo, hi)
    {
      w := [];
      for i := 0 to |buckets|
        invariant w == Between(buckets[..i], lo, hi)
      {
        assert buckets[..i + 1][..i] == buckets[..i];
        if lo < buckets[i].key <= hi {
          w := w + [buckets[i]];
        }
      }
      assert buckets[..|buckets|] == buckets;
    }

    /** The forward path from t0 at price px over the window of kept buckets after
        t0's own bucket. None is the division by a zero price, which the first bucket of
        the window makes. */
    method Walk(t0: real, px: real, direction: int, horizonSecs: int := 1800,
                target: real := 0.01, stop: real := 0.007)
      returns (r: Option<Path>)
      ensures var w := Between(buckets, KeyOf(t0), KeyOf(t0 + horizonSecs as real));
        && (r.None? <==> px == 0.0 && w != [])
        && (r.Some? && px == 0.0 ==> r.value.maxFav == 0.0 && r.value.maxAdv == 0.0
                                     && r.value.firstHit == NoHit && r.value.firstHitMin == None)
      ensures r.Some? && px != 0.0 ==>
        var w := Between(buckets, KeyOf(t0), KeyOf(t0 + horizonSecs as real));
        var up, out := direction > 0, r.value;
        var i := FirstDecider(w, px, up, target, stop);
        && out.maxFav == MaxFav(w, px, up) && out.maxAdv == MaxAdv(w, px, up)
        && out.firstHit == Score(w, px, up, target, stop)
        && out.firstHitMin == if i == |w| then None
                              else Some(Round2(((w[i].key * BUCKET_SECS) as real - t0) / 60.0))
      ensures r.Some? ==>
        && IsPriceAt(buckets, KeyOf(t0 + 60.0), r.value.p1m) && IsPriceAt(buckets, KeyOf(t0 + 300.0), r.value.p5m)
        && IsPriceAt(buckets, KeyOf(t0 + 900.0), r.value.p15m) && IsPriceAt(buckets, KeyOf(t0 + 1800.0), r.value.p30m)
    {
      hide KeyOf, Round2, Fav, Adv, Score, FirstDecider, HitSoFar, IsPriceAt, Sorted, IsLatest;
      var p1 := PriceAt(t0 + 60.0);
      var p5 := PriceAt(t0 + 300.0);
      var p15 := PriceAt(t0 + 900.0);
      var p30 := PriceAt(t0 + 1800.0);
      var key0, keyN := KeyOf(t0), KeyOf(t0 + horizonSecs as real);
      if px == 0.0 {
        var w := Since(key0, keyN);
        return if w == [] then Some(Path(p1, p5, p15, p30, 0.0, 0.0, NoHit, None)) else None;
      }
      var up := direction > 0;
      var maxFav, maxAdv := 0.0, 0.0;
      var hit: Option<(Hit, real)> := None;
      HitStart(px, up, target, stop, t0);
      assert buckets[..0] == [];
      var i := 0;
      while i < |buckets|
        invariant 0 <= i <= |buckets|
        invariant var w := Between(buckets[..i], key0, keyN);
          && maxFav == MaxFav(w, px, up) && maxAdv == MaxAdv(w, px, up)
          && HitSoFar(w, px, up, target, stop, t0, hit)
      {
        var b := buckets[i];
        assert buckets[..i + 1][..i] == buckets[..i];
        ghost var w := Between(buckets[..i], key0, keyN);
        i := i + 1;
        if b.key <= key0 || b.key > keyN { continue; }
        var fav, adv := Fav(b, px, up), Adv(b, px, up);
        maxFav := Max(maxFav, fav);
        maxAdv := Max(maxAdv, adv);
        assert (w + [b])[..|w|] == w;
        HitSnoc(w, b, px, up, target, stop, t0, hit);
        if hit.None? {
          if adv >= stop {
            hit := Some((StopFirst, ((b.key * BUCKET_SECS) as real - t0) / 60.0));
          } else if fav >= target {
            hit := Some((TargetFirst, ((b.key * BUCKET_SECS) as real - t0) / 60.0));
          }
        }
      }
      assert buckets[..i] == buckets;
      HitMeans(Between(buckets, key0, keyN), px, up, target, stop, t0, hit);
      r := Some(Path(p1, p5, p15, p30, maxFav, maxAdv,
                     if hit.Some? then hit.value.0 else NoHit,
                     if hit.Some? then Some(Round2(hit.value.1)) else None));
    }
  }

  lemma {:induction false} PlaySnoc(keep: nat, log: seq<Trade>, t: Trade)
    requires keep >= 1
    ensures Play(keep, log + [t]) == Add(keep, Play(keep, log), t)
  {
    hide Add;
    Snoc(log, t);
  }

  predicate HitSoFar(w: seq<Bucket>, px: real, up: bool, target: real, stop: real, t0: real, hit: Option<(Hit, real)>)
    requires px != 0.0
  {
    var i := FirstDecider(w, px, up, target, stop);
    if i == |w| then hit.None?
    else hit == Some((Score(w, px, up, target, stop), ((w[i].key * BUCKET_SECS) as real - t0) / 60.0))
  }

  lemma {:induction false} HitStart(px: real, up: bool, target: real, stop: real, t0: real)
    requires px != 0.0
    ensures HitSoFar([], px, up, target, stop, t0, None)
  {
  }

  lemma {:induction false} HitMeans(w: seq<Bucket>, px: real, up: bool, target: real, stop: real, t0: real,
                                    hit: Option<(Hit, real)>)
    requires px != 0.0 && HitSoFar(w, px, up, target, stop, t0, hit)
    ensures Score(w, px, up, target, stop) == if hit.Some? then hit.value.0 else NoHit
    ensures var i := FirstDecider(w, px, up, target, stop);
      if i == |w| then hit.None?
      else hit.Some? && hit.value.1 == ((w[i].key * BUCKET_SECS) as real - t0) / 60.0
  {
    hide Fav, Adv;
  }

  lemma {:induction false} HitSnoc(w: seq<Bucket>, b: Bucket, px: real, up: bool, target: real, stop: real, t0: real,
                                   hit: Option<(Hit, real)>)
    requires px != 0.0 && HitSoFar(w, px, up, target, stop, t0, hit)
    ensures HitSoFar(w + [b], px, up, target, stop, t0,
      if hit.Some? then hit
      else if Adv(b, px, up) >= stop then Some((StopFirst, ((b.key * BUCKET_SECS) as real - t0) / 60.0))
      else if Fav(b, px, up) >= target then Some((TargetFirst, ((b.key * BUCKET_SECS) as real - t0) / 60.0))
      else None)
  {
    hide Fav, Adv;
    DeciderSnoc(w, b, px, up, target, stop);
    assert (w + [b])[|w|] == b;
  }

  lemma {:induction false} DeciderSnoc(w: seq<Bucket>, b: Bucket, px: real, up: bool, target: real, stop: real)
    requires px != 0.0
    ensures FirstDecider(w + [b], px, up, target, stop)
         == (var i := FirstDecider(w, px, up, target, stop);
             if i < |w| then i else if Decides(b, px, up, target, stop) then |w| else |w| + 1)
  {
    hide Fav, Adv;
    var i := FirstDecider(w, px, up, target, stop);
    forall j | 0 <= j < i ensures !Decides((w + [b])[j], px, up, target, stop) {
      assert (w + [b])[j] == w[j];
    }
    assert (w + [b])[|w|] == b;
    if i < |w| {
      assert (w + [b])[i] == w[i];
      DeciderIs(w + [b], px, up, target, stop, i);
    } else if Decides(b, px, up, target, stop) {
      DeciderIs(w + [b], px, up, target, stop, |w|);
    } else {
      DeciderIs(w + [b], px, up, target, stop, |w| + 1);
    }
  }

  // ------------------------------------------------ a late, older bucket

  /** A print that opens an older bucket is appended behind the newest one, so no
      lookup before the newest bucket can ever return it. */
  lemma {:induction false} LatePrintInvisible(keep: nat, log: seq<Trade>, s: State, t: Trade, q: int, r: Option<real>)
    requires keep >= 2 && Agrees(keep, log, s) && OpensOlder(keep, log, t)
    requires KeyOf(t.ts) <= q < s.buckets[|s.buckets| - 1].key
    ensures var bs := Add(keep, s, t).buckets;
      var others := bs[..|bs| - 1];
      && bs[|bs| - 1].key == KeyOf(t.ts)
      && |others| <= |s.buckets| && others == s.buckets[|s.buckets| - |others|..]
      && (IsPriceAt(bs, q, r) <==> IsPriceAt(others, q, r))
  {
    hide KeyOf, Absorb, LogKeys, TradesOf, Candle, IsPriceAt, Add, AddBuckets, Sorted;
    assert |Keys(s.buckets)| > 0;
    AddIs(keep, log, s, t);
    AppendIs(keep, s.buckets, t);
    BucketKey(t);
    var bs := Add(keep, s, t).buckets;
    var others := bs[..|bs| - 1];
    assert others[|others| - 1] == s.buckets[|s.buckets| - 1];
    BehindNewest(others, bs[|bs| - 1], q, r);
    assert bs == others + [bs[|bs| - 1]];
  }

  lemma {:induction false} BehindNewest(bs: seq<Bucket>, b: Bucket, q: int, r: Option<real>)
    requires bs != [] && bs[|bs| - 1].key > q
    ensures IsPriceAt(bs + [b], q, r) <==> IsPriceAt(bs, q, r)
  {
    forall n | 0 <= n <= |bs| + 1
      ensures StopsAt(bs + [b], q, n) <==> n <= |bs| && StopsAt(bs, q, n)
    {
      StopsSame(bs, b, q, n);
    }
    forall n | 0 <= n <= |bs| ensures CloseBefore(bs + [b], n) == CloseBefore(bs, n) {
    }
    hide StopsAt, CloseBefore;
  }

  lemma {:induction false} StopsSame(bs: seq<Bucket>, b: Bucket, q: int, n: nat)
    requires bs != [] && bs[|bs| - 1].key > q && n <= |bs| + 1
    ensures StopsAt(bs + [b], q, n) <==> n <= |bs| && StopsAt(bs, q, n)
  {
    var all := bs + [b];
    assert forall i :: 0 <= i < |bs| ==> all[i] == bs[i];
    assert all[|bs| - 1].key > q;
  }

  const LATE := [Trade(50.0, 100.0, 1.0), Trade(25.0, 99.0, 1.0)]

  /** Second 25 after second 50 is already enough to break the agreement. */
  lemma {:induction false} LateLogDisagrees()
    ensures OpensOlder(540, LATE[..1], LATE[1]) && !AgreesThroughout(540, LATE)
  {
    hide Play, Agrees;
    assert KeyOf(50.0) == 10 && KeyOf(25.0) == 5;
    assert LATE[..1] == [LATE[0]] && LATE[..1][..0] == [];
    assert LogKeys(LATE[..1]) == InsertKey(LogKeys([]), 10) == [10];
    BookAgreesIffInOrder(540, LATE);
  }
}
