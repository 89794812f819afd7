/** The rolling trade book as a function of the trades fed to it. */
module Book {
  import opened Numbers
  import opened Options

  const BUCKET_SECS := 5

  datatype Trade = Trade(ts: real, price: real, size: real)

  datatype Bucket = Bucket(key: int, open: real, high: real, low: real, close: real,
                           volume: real, trades: nat)

  /** `buckets` is the ordered dictionary: insertion order, keys unique. */
  datatype State = State(buckets: seq<Bucket>, lastTs: Option<real>, lastPrice: Option<real>)

  function KeyOf(ts: real): int { (ts / BUCKET_SECS as real).Floor }

  function Keys(bs: seq<Bucket>): (ks: seq<int>)
    ensures |ks| == |bs| && forall i :: 0 <= i < |bs| ==> ks[i] == bs[i].key
  {
    seq(|bs|, i requires 0 <= i < |bs| => bs[i].key)
  }

  /** The position of key in the dictionary, or its length. */
  function IndexOf(bs: seq<Bucket>, key: int): (i: nat)
    ensures i <= |bs|
    ensures i < |bs| ==> bs[i].key == key
    ensures forall j :: 0 <= j < i ==> bs[j].key != key
  {
    if bs == [] then 0
    else if bs[0].key == key then 0
    else 1 + IndexOf(bs[1..], key)
  }

  /** Fold one trade into its bucket. */
  function Absorb(b: Bucket, price: real, size: real): Bucket {
    b.(high := Max(b.high, price), low := Min(b.low, price), close := price,
       volume := b.volume + size, trades := b.trades + 1)
  }

  function Fresh(key: int, price: real): Bucket {
    Bucket(key, price, price, price, price, 0.0, 0)
  }

  function InsertByKey(bs: seq<Bucket>, b: Bucket): seq<Bucket> {
    if bs == [] || b.key <= bs[0].key then [b] + bs else [bs[0]] + InsertByKey(bs[1..], b)
  }

  function SortByKey(bs: seq<Bucket>): seq<Bucket> {
    if bs == [] then [] else InsertByKey(SortByKey(bs[1..]), bs[0])
  }

  /** The guard meant to restore key order after a late trade. */
  function Resort(bs: seq<Bucket>, key: int): seq<Bucket> {
    if |bs| > 1 && bs[|bs| - 1].key != key && key < bs[|bs| - 1].key then SortByKey(bs) else bs
  }

  /** The dictionary after a new bucket is appended, the oldest entry evicted, and
      the re-sort guard evaluated. */
  function Open(keep: nat, bs: seq<Bucket>, b: Bucket): seq<Bucket> {
    var all := bs + [b];
    Resort(if |all| > keep then all[1..] else all, b.key)
  }

  function Add(keep: nat, s: State, t: Trade): State
    requires keep >= 1
  {
    if t.price <= 0.0 then s
    else
      var key := KeyOf(t.ts);
      var i := IndexOf(s.buckets, key);
      var bs := if i < |s.buckets| then s.buckets[i := Absorb(s.buckets[i], t.price, t.size)]
                else Open(keep, s.buckets, Absorb(Fresh(key, t.price), t.price, t.size));
      if s.lastTs.None? || t.ts >= s.lastTs.value then State(bs, Some(t.ts), Some(t.price))
      else s.(buckets := bs)
  }

  /** The book after a trade stream. */
  function Play(keep: nat, log: seq<Trade>): State
    requires keep >= 1
  {
    if log == [] then State([], None, None)
    else Add(keep, Play(keep, log[..|log| - 1]), log[|log| - 1])
  }

  predicate Sorted(bs: seq<Bucket>) {
    forall i, j :: 0 <= i < j < |bs| ==> bs[i].key < bs[j].key
  }

  // ------------------------------------------------- reference: the log

  /** k inserted into a strictly increasing key list. */
  function InsertKey(ks: seq<int>, k: int): seq<int> {
    if ks == [] || k < ks[0] then [k] + ks
    else if k == ks[0] then ks
    else [ks[0]] + InsertKey(ks[1..], k)
  }

  /** Every bucket key any accepted trade ever fell into, increasing. */
  function LogKeys(log: seq<Trade>): seq<int> {
    if log == [] then []
    else
      var t := log[|log| - 1];
      var ks := LogKeys(log[..|log| - 1]);
      if t.price <= 0.0 then ks else InsertKey(ks, KeyOf(t.ts))
  }

  function LastN(ks: seq<int>, n: nat): seq<int> {
    if |ks| <= n then ks else ks[|ks| - n..]
  }

  /** The accepted trades of one bucket, in arrival order. */
  function TradesOf(log: seq<Trade>, key: int): seq<Trade> {
    if log == [] then []
    else
      var t := log[|log| - 1];
      var ts := TradesOf(log[..|log| - 1], key);
      if t.price > 0.0 && KeyOf(t.ts) == key then ts + [t] else ts
  }

  function Highest(ts: seq<Trade>): real
    requires ts != []
  {
    if |ts| == 1 then ts[0].price else Max(Highest(ts[..|ts| - 1]), ts[|ts| - 1].price)
  }

  function Lowest(ts: seq<Trade>): real
    requires ts != []
  {
    if |ts| == 1 then ts[0].price else Min(Lowest(ts[..|ts| - 1]), ts[|ts| - 1].price)
  }

  function Volume(ts: seq<Trade>): real {
    if ts == [] then 0.0 else Volume(ts[..|ts| - 1]) + ts[|ts| - 1].size
  }

  /** The candle of a non-empty trade list. */
  function Candle(key: int, ts: seq<Trade>): Bucket
    requires ts != []
  {
    Bucket(key, ts[0].price, Highest(ts), Lowest(ts), ts[|ts| - 1].price, Volume(ts), |ts|)
  }

  /** The accepted trade with the latest timestamp, later arrivals winning ties. */
  function LastTrade(log: seq<Trade>): Option<Trade> {
    if log == [] then None
    else
      var t := log[|log| - 1];
      var prev := LastTrade(log[..|log| - 1]);
      if t.price > 0.0 && (prev.None? || t.ts >= prev.value.ts) then Some(t) else prev
  }

  predicate KeysAgree(keep: nat, log: seq<Trade>, bs: seq<Bucket>) {
    Sorted(bs) && Keys(bs) == LastN(LogKeys(log), keep)
  }

  /** b is the candle of its own key's trades. */
  predicate IsCandle(log: seq<Trade>, b: Bucket) {
    TradesOf(log, b.key) != [] && b == Candle(b.key, TradesOf(log, b.key))
  }

  predicate CandlesAgree(log: seq<Trade>, bs: seq<Bucket>) {
    forall b <- bs :: IsCandle(log, b)
  }

  predicate LastAgrees(log: seq<Trade>, s: State) {
    match LastTrade(log)
    case None => s.lastTs == None && s.lastPrice == None
    case Some(t) => s.lastTs == Some(t.ts) && s.lastPrice == Some(t.price)
  }

  predicate Agrees(keep: nat, log: seq<Trade>, s: State) {
    KeysAgree(keep, log, s.buckets) && CandlesAgree(log, s.buckets) && LastAgrees(log, s)
  }

  /** t would open a bucket older than the newest one. */
  predicate OpensOlder(keep: nat, log: seq<Trade>, t: Trade) {
    var ks := LogKeys(log);
    && t.price > 0.0
    && KeyOf(t.ts) !in LastN(ks, keep)
    && |ks| > 0 && KeyOf(t.ts) < ks[|ks| - 1]
  }

  predicate InOrder(keep: nat, log: seq<Trade>) {
    forall n :: 0 <= n < |log| ==> !OpensOlder(keep, log[..n], log[n])
  }
}
