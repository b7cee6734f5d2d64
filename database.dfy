/** The record store of libraries/database.js: configuration fields, an
    `orders` table and a `pairs` table held in one shared object and updated
    in place. The lowdb file behind it (`db.json`, `write()`, `read()`) is
    not modelled; the clock reading each stamp takes is passed in as `now`,
    and lodash's `where` shorthands are passed in as predicates. */
module Database {
  import opened Common
  import Lists

  /** A scalar field value of a stored record. */
  datatype Value = Num(n: real) | Text(s: string) | Flag(b: bool)

  /** A stored order: its `buy` field, by which `getOrders` sorts, and its
      other fields by name. A JavaScript object has one `buy` property, so
      a well-formed order keeps it out of `fields` (`BuyApart`). */
  datatype Order = Order(buy: real, fields: map<string, Value>)

  /** What `updateOrder` merges into an order: `buy` when the patch has it,
      and other fields by name; `fields` holds no `buy` key either. */
  datatype OrderPatch = OrderPatch(buy: Option<real>, fields: map<string, Value>)

  /** `buy` is held by the field of that name only. */
  predicate BuyApart(o: Order) {
    "buy" !in o.fields
  }

  /** A stored price snapshot: the last price of each pair, in the order its
      fields were set, and the `utc` stamp `savePair` gave it. */
  datatype Snapshot = Snapshot(prices: seq<(string, real)>, utc: int)

  /** One row of `getPairs`' result. */
  datatype PairLast = PairLast(pair: string, last: real, utc: int)

  function BuyOf(o: Order): real {
    o.buy
  }

  function UtcOf(p: Snapshot): real {
    p.utc as real
  }

  /** `order.utc = now` before the order is stored. */
  function Stamped(order: Order, now: int): (o: Order)
    ensures o.buy == order.buy && "utc" in o.fields && o.fields["utc"] == Num(now as real)
    ensures forall f :: f in order.fields && f != "utc" ==> f in o.fields && o.fields[f] == order.fields[f]
    ensures o.fields.Keys == order.fields.Keys + {"utc"}
    ensures BuyApart(o) <==> BuyApart(order)
  {
    order.(fields := order.fields["utc" := Num(now as real)])
  }

  /** `_.assign(order, patch)` after `patch._utc = now`: the patch's fields
      win, the order's other fields stay, and `_utc` records the update. */
  function Merged(order: Order, patch: OrderPatch, now: int): (o: Order)
    ensures o.buy == (if patch.buy.Some? then patch.buy.value else order.buy)
    ensures "_utc" in o.fields && o.fields["_utc"] == Num(now as real)
    ensures forall f :: f in patch.fields && f != "_utc" ==> f in o.fields && o.fields[f] == patch.fields[f]
    ensures forall f :: f in order.fields && f !in patch.fields && f != "_utc" ==> f in o.fields && o.fields[f] == order.fields[f]
    ensures o.fields.Keys == order.fields.Keys + patch.fields.Keys + {"_utc"}
    ensures BuyApart(o) <==> BuyApart(order) && "buy" !in patch.fields
  {
    var stampedPatch := patch.fields["_utc" := Num(now as real)];
    Order(if patch.buy.Some? then patch.buy.value else order.buy, order.fields + stampedPatch)
  }

  /** lodash `find`: the position of the first element satisfying `where`. */
  function FindIndex(s: seq<Order>, where: Order -> bool): (r: Option<nat>)
    ensures r.None? <==> forall i :: 0 <= i < |s| ==> !where(s[i])
    ensures r.Some? ==> r.value < |s| && where(s[r.value]) && forall j :: 0 <= j < r.value ==> !where(s[j])
  {
    if |s| == 0 then None
    else if where(s[0]) then Some(0)
    else
      var r := FindIndex(s[1..], where);
      if r.None? then None else Some(r.value + 1)
  }

  /** The orders `getOrders` considers: those matching `where`, or all. */
  function Matching(orders: seq<Order>, where: Option<Order -> bool>): (r: seq<Order>)
    ensures where.None? ==> r == orders
    ensures where.Some? ==> (forall i :: 0 <= i < |r| ==> r[i] in orders && where.value(r[i]))
                            && (forall i :: 0 <= i < |orders| && where.value(orders[i]) ==> orders[i] in r)
  {
    if where.Some? then Lists.SelectMembers(orders, where.value); Lists.Select(orders, where.value) else orders
  }

  /** The pairs `removePairs` keeps: stamped at or after `cutoff`, in order. */
  function Retained(pairs: seq<Snapshot>, cutoff: int): (r: seq<Snapshot>)
    ensures forall i :: 0 <= i < |r| ==> r[i] in pairs && r[i].utc >= cutoff
    ensures forall i :: 0 <= i < |pairs| && pairs[i].utc >= cutoff ==> pairs[i] in r
  {
    Lists.SelectMembers(pairs, Since(cutoff));
    Lists.Select(pairs, Since(cutoff))
  }

  /** The test `removePairs` keeps a snapshot by: not stamped before `cutoff`. */
  function Since(cutoff: int): Snapshot -> bool {
    (p: Snapshot) => p.utc >= cutoff
  }

  /** Applying the same retention twice removes nothing more. */
  lemma {:induction false} RetainedIdempotent(pairs: seq<Snapshot>, cutoff: int)
    ensures Retained(Retained(pairs, cutoff), cutoff) == Retained(pairs, cutoff)
  {
    if |pairs| > 0 {
      var init, last := pairs[..|pairs| - 1], pairs[|pairs| - 1];
      RetainedIdempotent(init, cutoff);
      Lists.SelectAppend(Retained(init, cutoff), if last.utc >= cutoff then [last] else [], Since(cutoff));
      Lists.SelectOne(last, Since(cutoff));
    }
  }

  /** The rows `getPairs` reports for one snapshot: each pair with its last
      price, all carrying the snapshot's stamp. */
  function Rows(p: Snapshot): (rows: seq<PairLast>)
    ensures |rows| == |p.prices|
    ensures forall k :: 0 <= k < |rows| ==> rows[k] == PairLast(p.prices[k].0, p.prices[k].1, p.utc)
  {
    seq(|p.prices|, k requires 0 <= k < |p.prices| => PairLast(p.prices[k].0, p.prices[k].1, p.utc))
  }

  /** The fields a price object has besides `utc`, which `savePair` sets. */
  function WithoutUtc(prices: seq<(string, real)>): (r: seq<(string, real)>)
    ensures forall k :: 0 <= k < |r| ==> r[k] in prices && r[k].0 != "utc"
    ensures forall k :: 0 <= k < |prices| && prices[k].0 != "utc" ==> prices[k] in r
  {
    var keep := (e: (string, real)) => e.0 != "utc";
    Lists.SelectMembers(prices, keep);
    Lists.Select(prices, keep)
  }

  /** Dropping `utc` keeps the other fields in their order: it can be
      applied part by part, and a single field is kept exactly when it is
      not `utc`. */
  lemma WithoutUtcOrder(a: seq<(string, real)>, b: seq<(string, real)>, e: (string, real))
    ensures WithoutUtc(a + b) == WithoutUtc(a) + WithoutUtc(b)
    ensures WithoutUtc([e]) == if e.0 != "utc" then [e] else []
  {
    Lists.SelectAppend(a, b, (e: (string, real)) => e.0 != "utc");
    Lists.SelectOne(e, (e: (string, real)) => e.0 != "utc");
  }

  /** The names of the configuration fields `saveConfig` writes. */
  const ConfigFields: set<string> := {"key", "secret", "currency", "expression"}

  class Store {
    var config: map<string, string>
    var orders: seq<Order>
    var pairs: seq<Snapshot>
    /** How many times `saveConfig` has run. */
    ghost var configSaves: nat

    /** Every stored order is well formed. */
    ghost predicate Valid()
      reads this
    {
      forall i :: 0 <= i < |orders| ==> BuyApart(orders[i])
    }

    /** The store the other operations work on: `db.defaults({ config: {} })`
        creates the configuration only; the model starts the two tables
        present and empty. */
    constructor ()
      ensures config == map[] && orders == [] && pairs == [] && configSaves == 0
      ensures Valid()
    {
      config := map[];
      orders := [];
      pairs := [];
      configSaves := 0;
    }

    /** `saveConfig`: sets exactly the four fields; other configuration and
        both tables are unchanged. */
    method SaveConfig(key: string, secret: string, currency: string, expression: string)
      modifies this
      ensures config == old(config)["key" := key]["secret" := secret]["currency" := currency]["expression" := expression]
      ensures forall f :: f !in ConfigFields ==> (f in config <==> f in old(config))
      ensures forall f :: f in config && f !in ConfigFields ==> config[f] == old(config)[f]
      ensures orders == old(orders) && pairs == old(pairs)
      ensures configSaves == old(configSaves) + 1
    {
      config := config["key" := key];
      config := config["secret" := secret];
      config := config["currency" := currency];
      config := config["expression" := expression];
      configSaves := configSaves + 1;
    }

    /** `getOrder`: the first order matching `where`, if any. */
    function GetOrder(where: Order -> bool): (r: Option<Order>)
      reads this
      ensures r.None? <==> forall i :: 0 <= i < |orders| ==> !where(orders[i])
      ensures r.Some? ==> exists i :: 0 <= i < |orders| && orders[i] == r.value && where(r.value)
                                      && forall j :: 0 <= j < i ==> !where(orders[j])
    {
      var i := FindIndex(orders, where);
      if i.None? then None else Some(orders[i.value])
    }

    /** `getOrders`: the matching orders (all of them without `where`),
        sorted by `buy` and reversed. They come out by `buy` descending, as
        a permutation of the matches, and since the sort is stable, orders
        with equal `buy` come out in reverse insertion order. */
    function GetOrders(where: Option<Order -> bool>): (r: seq<Order>)
      reads this
      ensures Lists.Descending(r, BuyOf)
      ensures multiset(r) == multiset(Matching(orders, where))
      ensures forall v :: Lists.WithKey(r, BuyOf, v) == Lists.Reverse(Lists.WithKey(Matching(orders, where), BuyOf, v))
    {
      var matches := Matching(orders, where);
      var sorted := Lists.SortBy(matches, BuyOf);
      Lists.ReverseMultiset(sorted);
      TiesReversed(matches, sorted);
      Lists.Reverse(sorted)
    }

    /** `saveOrder`: stamps the order and appends it; earlier orders and
        the rest of the store are unchanged. */
    method SaveOrder(order: Order, now: int)
      requires Valid() && BuyApart(order)
      modifies this
      ensures Valid()
      ensures orders == old(orders) + [Stamped(order, now)]
      ensures config == old(config) && pairs == old(pairs) && configSaves == old(configSaves)
    {
      orders := orders + [Stamped(order, now)];
    }

    /** `updateOrder`: merges the stamped patch into the first order that
        matches `where` and into no other; nothing changes without a match. */
    method UpdateOrder(where: Order -> bool, patch: OrderPatch, now: int)
      requires Valid() && "buy" !in patch.fields
      modifies this
      ensures Valid()
      ensures FindIndex(old(orders), where).None? ==> orders == old(orders)
      ensures FindIndex(old(orders), where).Some? ==>
        var i := FindIndex(old(orders), where).value;
        orders == old(orders)[i := Merged(old(orders)[i], patch, now)]
      ensures config == old(config) && pairs == old(pairs) && configSaves == old(configSaves)
    {
      var i := FindIndex(orders, where);
      if i.Some? {
        orders := orders[i.value := Merged(orders[i.value], patch, now)];
      }
    }

    /** `getPairs`: the snapshot with the greatest stamp (the last stored
        one among equals, since the stable sort is reversed), one row per
        price with the snapshot's stamp; an empty table gives no rows. */
    method GetPairs() returns (result: seq<PairLast>)
      ensures |pairs| == 0 ==> result == []
      ensures |pairs| > 0 ==> exists i :: Lists.IsLastMax(pairs, UtcOf, i) && result == Rows(pairs[i])
    {
      var latest := Lists.Reverse(Lists.SortBy(pairs, UtcOf));
      var named: seq<(string, real)> := [];
      var utc := 0;
      if |latest| > 0 {
        var snapshot := latest[0];
        var k := 0;
        while k < |snapshot.prices|
          invariant 0 <= k <= |snapshot.prices|
          invariant named == snapshot.prices[..k]
        {
          named := named + [snapshot.prices[k]];
          k := k + 1;
        }
        utc := snapshot.utc;
      }
      result := [];
      var k := 0;
      while k < |named|
        invariant 0 <= k <= |named|
        invariant |result| == k
        invariant forall m :: 0 <= m < k ==> result[m] == PairLast(named[m].0, named[m].1, utc)
      {
        result := result + [PairLast(named[k].0, named[k].1, utc)];
        k := k + 1;
      }
      if |pairs| > 0 {
        var i := Lists.SortByLast(pairs, UtcOf);
        assert latest[0] == pairs[i];
        assert named == pairs[i].prices;
      }
    }

    /** `savePair`: stamps the price object and appends it. */
    method SavePair(prices: seq<(string, real)>, now: int)
      modifies this
      ensures pairs == old(pairs) + [Snapshot(WithoutUtc(prices), now)]
      ensures config == old(config) && orders == old(orders) && configSaves == old(configSaves)
    {
      pairs := pairs + [Snapshot(WithoutUtc(prices), now)];
    }

    /** `removePairs(time)`: drops every snapshot older than `now - time`,
        keeping the others in their order. */
    method RemovePairs(time: int, now: int)
      modifies this
      ensures pairs == Retained(old(pairs), now - time)
      ensures config == old(config) && orders == old(orders) && configSaves == old(configSaves)
    {
      pairs := Retained(pairs, now - time);
    }
  }

  /** After sorting `matches` stably and reversing, each `buy` value's
      orders come out in reverse insertion order. */
  lemma TiesReversed(matches: seq<Order>, sorted: seq<Order>)
    requires sorted == Lists.SortBy(matches, BuyOf)
    ensures forall v :: Lists.WithKey(Lists.Reverse(sorted), BuyOf, v) == Lists.Reverse(Lists.WithKey(matches, BuyOf, v))
  {
    forall v ensures Lists.WithKey(Lists.Reverse(sorted), BuyOf, v) == Lists.Reverse(Lists.WithKey(matches, BuyOf, v)) {
      Lists.ReverseWithKey(sorted, BuyOf, v);
      Lists.SortByStable(matches, BuyOf, v);
    }
  }
}
