/** When the book agrees with the raw trade log. */
module BookFacts {
  import opened Options
  import opened Book
  import opened Numbers

  predicate Increasing(ks: seq<int>) {
    forall i, j :: 0 <= i < j < |ks| ==> ks[i] < ks[j]
  }

  lemma {:induction false} TailIncreasing(ks: seq<int>)
    requires Increasing(ks) && ks != []
    ensures Increasing(ks[1..])
  {
    forall i, j | 0 <= i < j < |ks[1..]| ensures ks[1..][i] < ks[1..][j] {
      assert ks[i + 1] < ks[j + 1];
    }
  }

  lemma {:induction false} InsertKeyElements(ks: seq<int>, k: int, x: int)
    ensures x in InsertKey(ks, k) <==> x in ks || x == k
  {
    if ks != [] && k > ks[0] {
      assert ks == [ks[0]] + ks[1..];
      InsertKeyElements(ks[1..], k, x);
    }
  }

  lemma {:induction false} InsertKeyIncreasing(ks: seq<int>, k: int)
    requires Increasing(ks)
    ensures Increasing(InsertKey(ks, k))
  {
    if ks != [] && k > ks[0] {
      TailIncreasing(ks);
      InsertKeyIncreasing(ks[1..], k);
      var rest := InsertKey(ks[1..], k);
      forall j | 0 <= j < |rest| ensures ks[0] < rest[j] {
        InsertKeyElements(ks[1..], k, rest[j]);
      }
    }
  }

  lemma {:induction false} InsertKeyPresent(ks: seq<int>, k: int)
    requires Increasing(ks) && k in ks
    ensures InsertKey(ks, k) == ks
  {
    if k > ks[0] {
      assert ks == [ks[0]] + ks[1..];
      TailIncreasing(ks);
      InsertKeyPresent(ks[1..], k);
    }
  }

  /** A key beyond the last is appended; any other leaves the last in place. */
  lemma {:induction false} InsertKeyLast(ks: seq<int>, k: int)
    requires Increasing(ks) && ks != []
    ensures k > ks[|ks| - 1] ==> InsertKey(ks, k) == ks + [k]
    ensures var r := InsertKey(ks, k);
      k <= ks[|ks| - 1] ==> r != [] && r[|r| - 1] == ks[|ks| - 1]
  {
    if k > ks[0] {
      assert ks == [ks[0]] + ks[1..];
      if |ks| > 1 {
        TailIncreasing(ks);
        InsertKeyLast(ks[1..], k);
      } else {
        assert ks[1..] == [];
      }
    }
  }

  lemma {:induction false} LogKeysIncrease(log: seq<Trade>)
    ensures Increasing(LogKeys(log))
  {
    if log != [] {
      LogKeysIncrease(log[..|log| - 1]);
      InsertKeyIncreasing(LogKeys(log[..|log| - 1]), KeyOf(log[|log| - 1].ts));
    }
  }

  /** A key without trades has an empty trade list, and only those. */
  lemma {:induction false} NoTradesNoKey(log: seq<Trade>, key: int)
    ensures key in LogKeys(log) <==> TradesOf(log, key) != []
  {
    if log != [] {
      var prefix := log[..|log| - 1];
      NoTradesNoKey(prefix, key);
      InsertKeyElements(LogKeys(prefix), KeyOf(log[|log| - 1].ts), key);
    }
  }

  lemma {:induction false} FoldsGrow(ts: seq<Trade>, t: Trade)
    requires ts != []
    ensures Highest(ts + [t]) == Max(Highest(ts), t.price)
    ensures Lowest(ts + [t]) == Min(Lowest(ts), t.price)
    ensures Volume(ts + [t]) == Volume(ts) + t.size
  {
    hide Max, Min;
    var all := ts + [t];
    assert all[..|all| - 1] == ts && all[|all| - 1] == t && |all| > 1;
  }

  lemma {:induction false} OneTrade(key: int, t: Trade)
    ensures Candle(key, [t]) == Absorb(Fresh(key, t.price), t.price, t.size)
  {
    assert [t][..0] == [];
    assert Volume([t]) == Volume([]) + t.size;
  }

  lemma {:induction false} CandleGrows(key: int, ts: seq<Trade>, t: Trade)
    requires ts != []
    ensures Candle(key, ts + [t]) == Absorb(Candle(key, ts), t.price, t.size)
  {
    hide Highest, Lowest, Volume, Max, Min;
    FoldsGrow(ts, t);
  }

  lemma {:induction false} Snoc(log: seq<Trade>, t: Trade)
    ensures (log + [t])[..|log + [t]| - 1] == log && (log + [t])[|log + [t]| - 1] == t
  {
  }

  /** The re-sort guard compares the appended key with itself. */
  lemma {:induction false} ResortIdle(bs: seq<Bucket>, key: int)
    requires bs != [] && bs[|bs| - 1].key == key
    ensures Resort(bs, key) == bs
  {
  }

  lemma {:induction false} ResortNeverFires(keep: nat, bs: seq<Bucket>, b: Bucket)
    requires keep >= 1
    ensures Open(keep, bs, b) == (if |bs| + 1 > keep then (bs + [b])[1..] else bs + [b])
    ensures var r := Open(keep, bs, b); r[|r| - 1] == b
  {
  }

  lemma {:induction false} LogSnoc(log: seq<Trade>, t: Trade)
    ensures LogKeys(log + [t]) == if t.price <= 0.0 then LogKeys(log) else InsertKey(LogKeys(log), KeyOf(t.ts))
    ensures forall key :: TradesOf(log + [t], key)
                       == if t.price > 0.0 && KeyOf(t.ts) == key then TradesOf(log, key) + [t] else TradesOf(log, key)
    ensures LastTrade(log + [t])
         == if t.price > 0.0 && (LastTrade(log).None? || t.ts >= LastTrade(log).value.ts) then Some(t)
            else LastTrade(log)
  {
    hide KeyOf, InsertKey;
    Snoc(log, t);
  }

  /** The buckets after one accepted trade. */
  function AddBuckets(keep: nat, bs: seq<Bucket>, t: Trade): seq<Bucket> {
    var key := KeyOf(t.ts);
    var i := IndexOf(bs, key);
    if i < |bs| then bs[i := Absorb(bs[i], t.price, t.size)]
    else Open(keep, bs, Absorb(Fresh(key, t.price), t.price, t.size))
  }

  lemma {:induction false} AddIs(keep: nat, log: seq<Trade>, s: State, t: Trade)
    requires keep >= 1 && LastAgrees(log, s)
    ensures LastAgrees(log + [t], Add(keep, s, t))
    ensures Add(keep, s, t).buckets == if t.price <= 0.0 then s.buckets else AddBuckets(keep, s.buckets, t)
  {
    hide KeyOf, InsertKey, TradesOf, Open, Absorb;
    LogSnoc(log, t);
  }

  lemma {:induction false} KeptIndex(bs: seq<Bucket>, key: int)
    ensures IndexOf(bs, key) < |bs| <==> key in Keys(bs)
  {
    var i := IndexOf(bs, key);
    if i < |bs| { assert Keys(bs)[i] == key; }
    if key in Keys(bs) { var j :| 0 <= j < |bs| && Keys(bs)[j] == key; }
  }

  lemma {:induction false} AbsorbKept(keep: nat, log: seq<Trade>, bs: seq<Bucket>, t: Trade)
    requires CandlesAgree(log, bs) && Sorted(bs) && t.price > 0.0
    requires KeyOf(t.ts) in Keys(bs)
    ensures CandlesAgree(log + [t], AddBuckets(keep, bs, t))
    ensures Keys(AddBuckets(keep, bs, t)) == Keys(bs) && Sorted(AddBuckets(keep, bs, t))
  {
    hide KeyOf, Candle, Open;
    LogSnoc(log, t);
    var key := KeyOf(t.ts);
    KeptIndex(bs, key);
    var i, r := IndexOf(bs, key), AddBuckets(keep, bs, t);
    forall j | 0 <= j < |r| ensures IsCandle(log + [t], r[j]) {
      assert bs[j] in bs;
      assert IsCandle(log, bs[i]) by { assert bs[i] in bs; }
      CandleGrows(key, TradesOf(log, key), t);
    }
  }

  lemma {:induction false} AppendIs(keep: nat, bs: seq<Bucket>, t: Trade)
    requires keep >= 1 && KeyOf(t.ts) !in Keys(bs)
    ensures var b := Absorb(Fresh(KeyOf(t.ts), t.price), t.price, t.size);
      AddBuckets(keep, bs, t) == if |bs| + 1 > keep then (bs + [b])[1..] else bs + [b]
  {
    hide KeyOf, Open;
    KeptIndex(bs, KeyOf(t.ts));
    ResortNeverFires(keep, bs, Absorb(Fresh(KeyOf(t.ts), t.price), t.price, t.size));
  }

  lemma {:induction false} AppendKeys(keep: nat, ks: seq<int>, bs: seq<Bucket>, b: Bucket)
    requires keep >= 1 && Keys(bs) == LastN(ks, keep)
    ensures Keys(if |bs| + 1 > keep then (bs + [b])[1..] else bs + [b]) == LastN(ks + [b.key], keep)
  {
  }

  lemma {:induction false} LateOnlyNewBucket(log: seq<Trade>, bs: seq<Bucket>, t: Trade)
    requires CandlesAgree(log, bs) && KeyOf(t.ts) !in Keys(bs)
    ensures CandlesAgree(log + [t], bs)
  {
    hide KeyOf, Candle, LogKeys, TradesOf, InsertKey;
    LogSnoc(log, t);
    forall b | b in bs ensures IsCandle(log + [t], b) {
      var j :| 0 <= j < |bs| && bs[j] == b;
      assert Keys(bs)[j] == b.key;
    }
  }

  lemma {:induction false} FirstOfBucket(log: seq<Trade>, t: Trade)
    requires t.price > 0.0 && KeyOf(t.ts) !in LogKeys(log)
    ensures IsCandle(log + [t], Absorb(Fresh(KeyOf(t.ts), t.price), t.price, t.size))
  {
    hide KeyOf, Candle, LogKeys, TradesOf, InsertKey;
    LogSnoc(log, t);
    NoTradesNoKey(log, KeyOf(t.ts));
    OneTrade(KeyOf(t.ts), t);
    assert [] + [t] == [t];
  }

  lemma {:induction false} AppendNewest(keep: nat, log: seq<Trade>, bs: seq<Bucket>, t: Trade)
    requires keep >= 1 && KeysAgree(keep, log, bs) && CandlesAgree(log, bs) && t.price > 0.0
    requires var ks := LogKeys(log); ks == [] || KeyOf(t.ts) > ks[|ks| - 1]
    ensures CandlesAgree(log + [t], AddBuckets(keep, bs, t))
    ensures KeysAgree(keep, log + [t], AddBuckets(keep, bs, t))
  {
    hide KeyOf, InsertKey, LogKeys, AddBuckets, IsCandle, Absorb;
    var key, ks := KeyOf(t.ts), LogKeys(log);
    NewestIsLast(keep, log, key);
    LogSnoc(log, t);
    var b := Absorb(Fresh(key, t.price), t.price, t.size);
    AppendIs(keep, bs, t);
    BucketKey(t);
    AppendKeys(keep, ks, bs, b);
    LateOnlyNewBucket(log, bs, t);
    FirstOfBucket(log, t);
    LastNIncreasing(ks + [key], keep);
    SortedFromKeys(AddBuckets(keep, bs, t), LastN(ks + [key], keep));
  }

  lemma {:induction false} BucketKey(t: Trade)
    ensures Absorb(Fresh(KeyOf(t.ts), t.price), t.price, t.size).key == KeyOf(t.ts)
  {
  }

  lemma {:induction false} LastNIncreasing(ks: seq<int>, keep: nat)
    requires Increasing(ks)
    ensures Increasing(LastN(ks, keep))
  {
  }

  lemma {:induction false} NewestIsLast(keep: nat, log: seq<Trade>, key: int)
    requires var ks := LogKeys(log); ks == [] || key > ks[|ks| - 1]
    ensures InsertKey(LogKeys(log), key) == LogKeys(log) + [key]
    ensures key !in LogKeys(log) && Increasing(LogKeys(log) + [key])
  {
    hide LogKeys;
    LogKeysIncrease(log);
    if LogKeys(log) != [] { InsertKeyLast(LogKeys(log), key); }
  }

  lemma {:induction false} SortedFromKeys(bs: seq<Bucket>, ks: seq<int>)
    requires Keys(bs) == ks && Increasing(ks)
    ensures Sorted(bs)
  {
    forall i, j | 0 <= i < j < |bs| ensures bs[i].key < bs[j].key {
      assert ks[i] < ks[j];
    }
  }

  /** A late key ends up last in the dictionary but not last among the log's keys. */
  lemma {:induction false} LateKeyDisagrees(keep: nat, log: seq<Trade>, bs: seq<Bucket>, t: Trade)
    requires keep >= 1 && KeysAgree(keep, log, bs) && OpensOlder(keep, log, t)
    ensures !KeysAgree(keep, log + [t], AddBuckets(keep, bs, t))
  {
    hide KeyOf, Open, InsertKey, LogKeys, TradesOf, Sorted, Keys, LastN;
    LogSnoc(log, t);
    LogKeysIncrease(log);
    var key, ks := KeyOf(t.ts), LogKeys(log);
    KeptIndex(bs, key);
    ResortNeverFires(keep, bs, Absorb(Fresh(key, t.price), t.price, t.size));
    InsertKeyLast(ks, key);
    LastOfLastN(InsertKey(ks, key), keep);
    var r := AddBuckets(keep, bs, t);
    LastKey(r, key);
  }

  lemma {:induction false} LastOfLastN(ks: seq<int>, keep: nat)
    requires keep >= 1 && ks != []
    ensures LastN(ks, keep) != [] && LastN(ks, keep)[|LastN(ks, keep)| - 1] == ks[|ks| - 1]
  {
  }

  lemma {:induction false} LastKey(bs: seq<Bucket>, key: int)
    requires bs != [] && bs[|bs| - 1].key == key
    ensures Keys(bs)[|bs| - 1] == key
  {
  }

  lemma {:induction false} AddToKept(keep: nat, log: seq<Trade>, s: State, t: Trade)
    requires keep >= 1 && Agrees(keep, log, s) && t.price > 0.0
    requires KeyOf(t.ts) in LastN(LogKeys(log), keep)
    ensures Agrees(keep, log + [t], Add(keep, s, t))
  {
    hide KeyOf, Open, InsertKey, LogKeys, TradesOf, Add, Candle, AddBuckets, IsCandle;
    AddIs(keep, log, s, t);
    LogSnoc(log, t);
    LogKeysIncrease(log);
    assert KeyOf(t.ts) in LogKeys(log);
    InsertKeyPresent(LogKeys(log), KeyOf(t.ts));
    AbsorbKept(keep, log, s.buckets, t);
  }

  /** One trade keeps the agreement exactly when it opens no older bucket. */
  lemma {:induction false} AddAgreesIff(keep: nat, log: seq<Trade>, s: State, t: Trade)
    requires keep >= 1 && Agrees(keep, log, s)
    ensures Agrees(keep, log + [t], Add(keep, s, t)) <==> !OpensOlder(keep, log, t)
  {
    hide KeyOf, Open, InsertKey, LogKeys, TradesOf, Add, Candle, AddBuckets, LastAgrees;
    AddIs(keep, log, s, t);
    var key, ks := KeyOf(t.ts), LogKeys(log);
    if t.price <= 0.0 {
      LogSnoc(log, t);
      assert forall b <- s.buckets :: IsCandle(log + [t], b) <==> IsCandle(log, b);
    } else if key in LastN(ks, keep) {
      AddToKept(keep, log, s, t);
    } else if ks == [] || key > ks[|ks| - 1] {
      AppendNewest(keep, log, s.buckets, t);
    } else {
      assert key != ks[|ks| - 1] by { assert ks[|ks| - 1] in LastN(ks, keep); }
      LateKeyDisagrees(keep, log, s.buckets, t);
    }
  }

  predicate AgreesThroughout(keep: nat, log: seq<Trade>)
    requires keep >= 1
  {
    forall n :: 0 <= n <= |log| ==> Agrees(keep, log[..n], Play(keep, log[..n]))
  }

  lemma {:induction false} PlayAgrees(keep: nat, log: seq<Trade>, n: nat)
    requires keep >= 1 && n <= |log|
    requires forall i :: 0 <= i < n ==> !OpensOlder(keep, log[..i], log[i])
    ensures Agrees(keep, log[..n], Play(keep, log[..n]))
  {
    if n == 0 { assert log[..0] == []; return; }
    hide Agrees, OpensOlder, Add;
    if n > 0 {
      PlayAgrees(keep, log, n - 1);
      assert log[..n] == log[..n - 1] + [log[n - 1]];
      Snoc(log[..n - 1], log[n - 1]);
      AddAgreesIff(keep, log[..n - 1], Play(keep, log[..n - 1]), log[n - 1]);
    }
  }

  lemma {:induction false} StepInOrder(keep: nat, log: seq<Trade>, n: nat)
    requires keep >= 1 && n < |log|
    requires Agrees(keep, log[..n], Play(keep, log[..n]))
    requires Agrees(keep, log[..n + 1], Play(keep, log[..n + 1]))
    ensures !OpensOlder(keep, log[..n], log[n])
  {
    hide Agrees, OpensOlder, Add;
    assert log[..n + 1] == log[..n] + [log[n]];
    Snoc(log[..n], log[n]);
    AddAgreesIff(keep, log[..n], Play(keep, log[..n]), log[n]);
  }

  /** Exactly when: the book agrees with the log after every trade if and only if no
      trade ever opens a bucket older than the newest. */
  lemma {:induction false} BookAgreesIffInOrder(keep: nat, log: seq<Trade>)
    requires keep >= 1
    ensures AgreesThroughout(keep, log) <==> InOrder(keep, log)
  {
    hide Agrees, OpensOlder, Play;
    if InOrder(keep, log) {
      forall n | 0 <= n <= |log| ensures Agrees(keep, log[..n], Play(keep, log[..n])) {
        PlayAgrees(keep, log, n);
      }
    }
    if AgreesThroughout(keep, log) {
      forall n | 0 <= n < |log| ensures !OpensOlder(keep, log[..n], log[n]) {
        StepInOrder(keep, log, n);
      }
    }
  }

  // ------------------------------------------------------------ candles

  /** The candle's extremes are attained and bound every trade of the bucket. */
  lemma {:induction false} CandleBounds(ts: seq<Trade>)
    requires ts != []
    ensures forall t <- ts :: Lowest(ts) <= t.price <= Highest(ts)
    ensures exists t <- ts :: t.price == Highest(ts)
    ensures exists t <- ts :: t.price == Lowest(ts)
  {
    var last := ts[|ts| - 1];
    if |ts| > 1 {
      CandleBounds(ts[..|ts| - 1]);
      assert ts == ts[..|ts| - 1] + [last];
    } else {
      assert ts == [last];
    }
  }
}
