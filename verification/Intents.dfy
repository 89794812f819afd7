/** The one transaction that ends a sizing: a SIZE row, an intent and an execution
    message. A message may be sized again after any crash, with other numbers. */
module Intents {

  /** The intent id hashes these three; the hash is taken to tell them apart. */
  datatype Key = Key(signal: nat, revision: nat, config: nat)

  datatype Action = Veto | ShadowShort | Size

  datatype Decision = Decision(key: Key, action: Action)

  /** What is bought or sold and how. */
  datatype Order = Order(ticker: nat, short: bool, qty: nat, limit: real, budget: real)

  /** A row of journal.intents or a message on exec.intent, keyed by intent id. */
  datatype Entry = Entry(key: Key, decision: nat, order: Order)

  datatype Desk = Desk(decisions: seq<Decision>, intents: seq<Entry>, execs: seq<Entry>)

  /** How a delivery ended: in a veto, in a shadow row, with an order, or before the
      transaction committed. */
  datatype Outcome = Vetoed | Shadowed | Sized(order: Order) | Died

  predicate Has(es: seq<Entry>, key: Key) { exists i :: 0 <= i < |es| && es[i].key == key }

  /** ON CONFLICT DO NOTHING on the key. */
  function Insert(es: seq<Entry>, e: Entry): seq<Entry> { if Has(es, e.key) then es else es + [e] }

  function Settle(d: Desk, key: Key, o: Outcome): Desk {
    match o
    case Died => d
    case Vetoed => d.(decisions := d.decisions + [Decision(key, Veto)])
    case Shadowed => d.(decisions := d.decisions + [Decision(key, ShadowShort)])
    case Sized(order) =>
      var e := Entry(key, |d.decisions|, order);
      Desk(d.decisions + [Decision(key, Size)], Insert(d.intents, e), Insert(d.execs, e))
  }

  datatype Delivery = Delivery(key: Key, outcome: Outcome)

  function Run(ds: seq<Delivery>): Desk
    decreases |ds|
  {
    if ds == [] then Desk([], [], [])
    else Settle(Run(ds[..|ds| - 1]), ds[|ds| - 1].key, ds[|ds| - 1].outcome)
  }

  /** The deliveries of one key that ended with an order, in turn. */
  function OrdersOf(ds: seq<Delivery>, key: Key): seq<Order> {
    if ds == [] then []
    else
      var front := OrdersOf(ds[..|ds| - 1], key);
      var last := ds[|ds| - 1];
      if last.key == key && last.outcome.Sized? then front + [last.outcome.order] else front
  }

  function EntriesOf(es: seq<Entry>, key: Key): seq<Entry> {
    if es == [] then []
    else
      var front := EntriesOf(es[..|es| - 1], key);
      if es[|es| - 1].key == key then front + [es[|es| - 1]] else front
  }

  function SizeRows(ds: seq<Decision>, key: Key): nat {
    if ds == [] then 0
    else SizeRows(ds[..|ds| - 1], key) + if ds[|ds| - 1] == Decision(key, Size) then 1 else 0
  }

  lemma {:induction false} EntriesOfHas(es: seq<Entry>, key: Key)
    ensures EntriesOf(es, key) == [] <==> !Has(es, key)
    decreases |es|
  {
    if es != [] {
      var front := es[..|es| - 1];
      EntriesOfHas(front, key);
      if Has(front, key) {
        var i :| 0 <= i < |front| && front[i].key == key;
        assert es[i].key == key;
      }
    }
  }

  lemma {:induction false} InsertEntries(es: seq<Entry>, e: Entry, key: Key)
    ensures EntriesOf(Insert(es, e), key)
         == if key == e.key && EntriesOf(es, key) == [] then [e] else EntriesOf(es, key)
  {
    EntriesOfHas(es, e.key);
    if !Has(es, e.key) {
      assert (es + [e])[..|es|] == es;
    }
  }

  /** An intent and its message are the same single entry, or neither exists: the first
      order that committed under the key. The entry names the SIZE row written with it, and
      each sized delivery wrote a row. */
  ghost predicate Matches(d: Desk, key: Key, orders: seq<Order>) {
    && SizeRows(d.decisions, key) == |orders|
    && EntriesOf(d.intents, key) == EntriesOf(d.execs, key)
    && (orders == [] ==> EntriesOf(d.intents, key) == [])
    && (orders != [] ==>
          var es := EntriesOf(d.intents, key);
          |es| == 1 && es[0].order == orders[0] && FirstSizeRow(d.decisions, key, es[0].decision))
  }

  predicate FirstSizeRow(ds: seq<Decision>, key: Key, id: nat) {
    id < |ds| && ds[id] == Decision(key, Size) && SizeRows(ds[..id], key) == 0
  }

  lemma {:induction false} AddRow(ds: seq<Decision>, row: Decision, key: Key)
    ensures SizeRows(ds + [row], key) == SizeRows(ds, key) + if row == Decision(key, Size) then 1 else 0
    ensures forall id: nat :: FirstSizeRow(ds, key, id) ==> FirstSizeRow(ds + [row], key, id)
    ensures SizeRows(ds, key) == 0 && row == Decision(key, Size) ==> FirstSizeRow(ds + [row], key, |ds|)
  {
    assert (ds + [row])[..|ds|] == ds;
    forall id: nat | FirstSizeRow(ds, key, id) ensures FirstSizeRow(ds + [row], key, id) {
      assert (ds + [row])[..id] == ds[..id];
    }
  }

  lemma {:induction false} SettleMatches(c: Desk, k: Key, o: Outcome, key: Key, orders: seq<Order>)
    requires Matches(c, key, orders)
    ensures Matches(Settle(c, k, o), key, if k == key && o.Sized? then orders + [o.order] else orders)
  {
    hide SizeRows, EntriesOf, Insert, FirstSizeRow;
    AddRow(c.decisions, Decision(k, if o.Vetoed? then Veto else if o.Shadowed? then ShadowShort else Size), key);
    if o.Sized? {
      var e := Entry(k, |c.decisions|, o.order);
      InsertEntries(c.intents, e, key);
      InsertEntries(c.execs, e, key);
    }
  }

  lemma {:induction false} OneIntentPerKey(ds: seq<Delivery>, key: Key)
    ensures Matches(Run(ds), key, OrdersOf(ds, key))
    decreases |ds|
  {
    hide Settle;
    if ds != [] {
      hide Matches;
      OneIntentPerKey(ds[..|ds| - 1], key);
      SettleMatches(Run(ds[..|ds| - 1]), ds[|ds| - 1].key, ds[|ds| - 1].outcome, key, OrdersOf(ds[..|ds| - 1], key));
    }
  }

  /** Deliveries of the key that ended this way, and rows of the key that say so. */
  function Ended(ds: seq<Delivery>, key: Key, a: Action): nat {
    if ds == [] then 0
    else
      var last := ds[|ds| - 1];
      Ended(ds[..|ds| - 1], key, a)
      + if last.key != key then 0
        else match last.outcome
          case Vetoed => if a == Veto then 1 else 0
          case Shadowed => if a == ShadowShort then 1 else 0
          case Sized(_) => if a == Size then 1 else 0
          case Died => 0
  }

  function RowsOf(ds: seq<Decision>, key: Key, a: Action): nat {
    if ds == [] then 0 else RowsOf(ds[..|ds| - 1], key, a) + if ds[|ds| - 1] == Decision(key, a) then 1 else 0
  }

  /** Each delivery that committed left one row that says how it ended, and no other row
      exists. */
  lemma {:induction false} OneRowPerOutcome(ds: seq<Delivery>, key: Key, a: Action)
    ensures RowsOf(Run(ds).decisions, key, a) == Ended(ds, key, a)
    ensures |Run(ds).decisions| <= |ds|
    decreases |ds|
  {
    hide Insert;
    if ds != [] {
      OneRowPerOutcome(ds[..|ds| - 1], key, a);
      var before, rows := Run(ds[..|ds| - 1]).decisions, Run(ds).decisions;
      if rows != before {
        assert rows[..|rows| - 1] == before;
      }
    }
  }

  // ----------------------------------------------- one intent per signal

  /** The configurations under which an item revision was sized. */
  function Configs(ds: seq<Delivery>, signal: nat, revision: nat): set<nat> {
    if ds == [] then {}
    else
      var front, last := Configs(ds[..|ds| - 1], signal, revision), ds[|ds| - 1];
      if last.outcome.Sized? && last.key.signal == signal && last.key.revision == revision then front + {last.key.config}
      else front
  }

  /** Entries of an item revision under any configuration. */
  function EntriesFor(es: seq<Entry>, signal: nat, revision: nat): nat {
    if es == [] then 0
    else
      var last := es[|es| - 1];
      EntriesFor(es[..|es| - 1], signal, revision)
      + if last.key.signal == signal && last.key.revision == revision then 1 else 0
  }

  lemma {:induction false} ConfigSized(ds: seq<Delivery>, key: Key)
    ensures key.config in Configs(ds, key.signal, key.revision) <==> OrdersOf(ds, key) != []
    decreases |ds|
  {
    if ds != [] {
      ConfigSized(ds[..|ds| - 1], key);
    }
  }

  /** The key holds the configuration: there is one intent, and one message, for each
      configuration under which the item revision was sized. */
  lemma {:induction false} OneIntentPerConfig(ds: seq<Delivery>, signal: nat, revision: nat)
    ensures var d := Run(ds);
      && EntriesFor(d.intents, signal, revision) == |Configs(ds, signal, revision)|
      && EntriesFor(d.execs, signal, revision) == |Configs(ds, signal, revision)|
    decreases |ds|
  {
    if ds != [] {
      var front, last := ds[..|ds| - 1], ds[|ds| - 1];
      OneIntentPerConfig(front, signal, revision);
      OneIntentPerKey(front, last.key);
      ConfigSized(front, last.key);
      hide OrdersOf;
      SettleCounts(Run(front), last.key, last.outcome, OrdersOf(front, last.key), signal, revision);
      ConfigsGrow(ds, signal, revision);
      hide Settle, EntriesFor, Matches, Configs;
    }
  }

  lemma {:induction false} ConfigsGrow(ds: seq<Delivery>, signal: nat, revision: nat)
    requires ds != []
    ensures var front, last := Configs(ds[..|ds| - 1], signal, revision), ds[|ds| - 1];
      |Configs(ds, signal, revision)| == |front|
        + if SizedFor(last, signal, revision) && last.key.config !in front then 1 else 0
  {
    var front, last := Configs(ds[..|ds| - 1], signal, revision), ds[|ds| - 1];
    if last.key.config in front {
      assert front + {last.key.config} == front;
    }
  }

  lemma {:induction false} SettleCounts(c: Desk, k: Key, o: Outcome, orders: seq<Order>, signal: nat, revision: nat)
    requires Matches(c, k, orders)
    ensures var d := Settle(c, k, o);
      var more := if o.Sized? && orders == [] && k.signal == signal && k.revision == revision then 1 else 0;
      && EntriesFor(d.intents, signal, revision) == EntriesFor(c.intents, signal, revision) + more
      && EntriesFor(d.execs, signal, revision) == EntriesFor(c.execs, signal, revision) + more
  {
    hide Insert, EntriesFor, EntriesOf, Has;
    if o.Sized? {
      var e := Entry(k, |c.decisions|, o.order);
      EntriesOfHas(c.intents, k);
      EntriesOfHas(c.execs, k);
      InsertCounts(c.intents, e, signal, revision);
      InsertCounts(c.execs, e, signal, revision);
    }
  }

  lemma {:induction false} InsertCounts(es: seq<Entry>, e: Entry, signal: nat, revision: nat)
    ensures EntriesFor(Insert(es, e), signal, revision) == EntriesFor(es, signal, revision)
         + if !Has(es, e.key) && e.key.signal == signal && e.key.revision == revision then 1 else 0
  {
    if !Has(es, e.key) {
      assert (es + [e])[..|es|] == es;
    }
  }

  predicate SizedFor(d: Delivery, signal: nat, revision: nat) {
    d.outcome.Sized? && d.key.signal == signal && d.key.revision == revision
  }

  /** All sized deliveries of an item revision carried the same configuration. */
  ghost predicate OneConfig(ds: seq<Delivery>, signal: nat, revision: nat) {
    forall i, k :: 0 <= i < k < |ds| && SizedFor(ds[i], signal, revision) && SizedFor(ds[k], signal, revision) ==>
      ds[i].key.config == ds[k].key.config
  }

  /** Exactly when: a signal has at most one intent if and only if all its sized deliveries
      carried the same configuration. */
  lemma {:induction false} OneIntentPerSignalIff(ds: seq<Delivery>, signal: nat, revision: nat)
    ensures EntriesFor(Run(ds).intents, signal, revision) <= 1 <==> OneConfig(ds, signal, revision)
  {
    hide Run;
    var cs := Configs(ds, signal, revision);
    OneIntentPerConfig(ds, signal, revision);
    ConfigsAre(ds, signal, revision);
    hide Configs;
    if !OneConfig(ds, signal, revision) {
      var i, k :| 0 <= i < k < |ds| && SizedFor(ds[i], signal, revision) && SizedFor(ds[k], signal, revision)
                  && ds[i].key.config != ds[k].key.config;
      TwoElements(cs, ds[i].key.config, ds[k].key.config);
    } else if |cs| > 1 {
      TwoConfigs(ds, signal, revision);
    }
  }

  lemma {:induction false} TwoConfigs(ds: seq<Delivery>, signal: nat, revision: nat)
    requires |Configs(ds, signal, revision)| > 1
    ensures !OneConfig(ds, signal, revision)
  {
    var cs := Configs(ds, signal, revision);
    ConfigsAre(ds, signal, revision);
    hide Configs;
    var a :| a in cs;
    assert |cs - {a}| == |cs| - 1;
    var b :| b in cs - {a};
    var i :| 0 <= i < |ds| && SizedFor(ds[i], signal, revision) && ds[i].key.config == a;
    var k :| 0 <= k < |ds| && SizedFor(ds[k], signal, revision) && ds[k].key.config == b;
    assert i < k || k < i;
  }

  lemma {:induction false} ConfigsAre(ds: seq<Delivery>, signal: nat, revision: nat)
    ensures forall c :: c in Configs(ds, signal, revision) <==>
      exists i :: 0 <= i < |ds| && SizedFor(ds[i], signal, revision) && ds[i].key.config == c
    decreases |ds|
  {
    if ds != [] {
      var front, last := ds[..|ds| - 1], ds[|ds| - 1];
      ConfigsAre(front, signal, revision);
      assert forall i :: 0 <= i < |front| ==> front[i] == ds[i];
      assert ds[|ds| - 1] == last;
    }
  }

  lemma {:induction false} TwoElements(s: set<nat>, a: nat, b: nat)
    requires a in s && b in s && a != b
    ensures |s| >= 2
  {
    assert |s - {a}| == |s| - 1 && b in s - {a};
  }

  /** So a redelivery under a new configuration is a second intent beside the first. */
  lemma {:induction false} NewConfigSecondIntent(ds: seq<Delivery>, key: Key, config: nat, order: Order)
    requires OrdersOf(ds, key) != [] && OrdersOf(ds, key.(config := config)) == []
    ensures var d := Run(ds + [Delivery(key.(config := config), Sized(order))]);
      |EntriesOf(d.intents, key)| == 1 && |EntriesOf(d.intents, key.(config := config))| == 1
  {
    var more := ds + [Delivery(key.(config := config), Sized(order))];
    assert more[..|more| - 1] == ds;
    OneIntentPerKey(more, key);
    OneIntentPerKey(more, key.(config := config));
  }

  class Service {
    var decisions: seq<Decision>
    var intents: seq<Entry>
    var execs: seq<Entry>

    constructor ()
      ensures Tables() == Desk([], [], [])
    {
      decisions, intents, execs := [], [], [];
    }

    function Tables(): Desk
      reads this
    {
      Desk(decisions, intents, execs)
    }

    method Finish(key: Key, o: Outcome)
      modifies this
      ensures Tables() == Settle(old(Tables()), key, o)
    {
      match o {
        case Died =>
        case Vetoed => decisions := decisions + [Decision(key, Veto)];
        case Shadowed => decisions := decisions + [Decision(key, ShadowShort)];
        case Sized(order) =>
          var id := |decisions|;
          decisions := decisions + [Decision(key, Size)];
          var kept := Taken(intents, key);
          if !kept {
            intents := intents + [Entry(key, id, order)];
          }
          var queued := Taken(execs, key);
          if !queued {
            execs := execs + [Entry(key, id, order)];
          }
      }
    }

    method Taken(es: seq<Entry>, key: Key) returns (found: bool)
      ensures found == Has(es, key)
    {
      for i := 0 to |es|
        invariant !Has(es[..i], key)
      {
        if es[i].key == key {
          return true;
        }
      }
      assert es[..|es|] == es;
      return false;
    }
  }
}
