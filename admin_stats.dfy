/** The dashboard's statistics panel (the `stats` memo of app/admin/page.tsx): orders bucketed
    by the month they were created in, the best-selling product and the number of boxes sold. */
module AdminStats {
  import opened Wrappers
  import opened Text
  import opened OrderRecords

  datatype MonthStat = MonthStat(key: string, count: nat, revenue: real)
  datatype BestSeller = BestSeller(name: string, count: real)
  datatype Stats = Stats(monthly: seq<MonthStat>, bestSeller: Option<BestSeller>, totalBoxes: real)

  /** The best seller before any product is looked at. */
  const NoSales: BestSeller := BestSeller("No sales yet", 0.0)

  /** The "YYYY-MM" bucket of an order: its creation year, a dash and the two-digit month. */
  function MonthKey(o: Order): string {
    Decimal(o.createdYear) + "-" + Pad2(o.createdMonth)
  }

  /** What one order brings to the month buckets: its bucket key and its final total, a
      non-numeric total counting 0. */
  datatype MonthEntry = MonthEntry(key: string, total: real)

  function EntryOf(o: Order): MonthEntry {
    MonthEntry(MonthKey(o), NumOr0(o.finalTotal))
  }

  /** The orders' month entries, in order. */
  function MonthEntries(orders: seq<Order>): (es: seq<MonthEntry>)
    ensures |es| == |orders|
  {
    if orders == [] then [] else MonthEntries(orders[..|orders| - 1]) + [EntryOf(orders[|orders| - 1])]
  }

  // ---------------------------------------------------------------------------------------
  // What the fold computes, stated over the orders' month entries
  // ---------------------------------------------------------------------------------------

  /** The number of orders in bucket `key`. */
  function MonthCount(es: seq<MonthEntry>, key: string): nat {
    if es == [] then 0
    else MonthCount(es[..|es| - 1], key) + (if es[|es| - 1].key == key then 1 else 0)
  }

  /** The revenue of bucket `key`: the totals of its orders. */
  function MonthRevenue(es: seq<MonthEntry>, key: string): real {
    if es == [] then 0.0
    else
      var last := es[|es| - 1];
      MonthRevenue(es[..|es| - 1], key) + (if last.key == key then last.total else 0.0)
  }

  /** The bucket keys in the order the orders first reach them. */
  function MonthKeys(es: seq<MonthEntry>): seq<string> {
    if es == [] then []
    else
      var keys := MonthKeys(es[..|es| - 1]);
      var key := es[|es| - 1].key;
      if key in keys then keys else keys + [key]
  }

  /** An order's items, or none when its `items` column is not an array. */
  function ItemsOf(o: Order): seq<Item> {
    if o.items.Some? then o.items.value else []
  }

  /** Every item of every order, in order. */
  function AllItems(orders: seq<Order>): seq<Item> {
    if orders == [] then [] else AllItems(orders[..|orders| - 1]) + ItemsOf(orders[|orders| - 1])
  }

  function Quantity(it: Item): real {
    NumOr0(it.quantity)
  }

  /** The boxes sold: every item's quantity, a non-numeric quantity counting 0. */
  function TotalQuantity(items: seq<Item>): real {
    if items == [] then 0.0 else TotalQuantity(items[..|items| - 1]) + Quantity(items[|items| - 1])
  }

  /** The boxes of product `name` sold. */
  function NameTotal(items: seq<Item>, name: string): real {
    if items == [] then 0.0
    else
      var last := items[|items| - 1];
      NameTotal(items[..|items| - 1], name) + (if last.name == name then Quantity(last) else 0.0)
  }

  /** The product names in the order they first appear. */
  function Names(items: seq<Item>): seq<string> {
    if items == [] then []
    else
      var names := Names(items[..|items| - 1]);
      var name := items[|items| - 1].name;
      if name in names then names else names + [name]
  }

  /** The best seller after looking at `names` in turn: a product replaces the current one
      only when its total is strictly greater. */
  function BestOf(names: seq<string>, items: seq<Item>): BestSeller {
    if names == [] then NoSales
    else
      var best := BestOf(names[..|names| - 1], items);
      var name := names[|names| - 1];
      if NameTotal(items, name) > best.count then BestSeller(name, NameTotal(items, name)) else best
  }

  // ---------------------------------------------------------------------------------------
  // The fold
  // ---------------------------------------------------------------------------------------

  /** The month buckets as the fold holds them after `orders`: one entry per key reached, in
      the order first reached, each with its count and revenue. */
  ghost predicate BucketsHold(es: seq<MonthEntry>, buckets: map<string, MonthStat>, keys: seq<string>) {
    && keys == MonthKeys(es)
    && (forall key :: key in buckets <==> key in keys)
    && forall key :: key in buckets ==>
         buckets[key] == MonthStat(key, MonthCount(es, key), MonthRevenue(es, key))
  }

  /** The product totals and box count as the fold holds them after `items`. */
  ghost predicate ProductsHold(items: seq<Item>, products: map<string, real>, names: seq<string>, boxes: real) {
    && names == Names(items)
    && (forall name :: name in products <==> name in names)
    && (forall name :: name in products ==> products[name] == NameTotal(items, name))
    && boxes == TotalQuantity(items)
  }

  /** `stats`: one pass over the orders and their items filling the month buckets, the
      per-product totals and the box count, then the buckets in key order and the best seller
      picked over the products in the order they were first seen (the order `Object.entries`
      gives for names that do not look like array indices). No orders at all gives no
      buckets, no best seller and 0 boxes. */
  method ComputeStats(orders: seq<Order>) returns (st: Stats)
    ensures orders == [] ==> st == Stats([], None, 0.0)
    ensures forall i, j :: 0 <= i < j < |st.monthly| ==> StrLess(st.monthly[i].key, st.monthly[j].key)
    ensures forall key :: key in KeysOf(st.monthly) <==> MonthCount(MonthEntries(orders), key) > 0
    ensures forall m :: m in st.monthly ==>
              && m.count == MonthCount(MonthEntries(orders), m.key)
              && m.revenue == MonthRevenue(MonthEntries(orders), m.key)
    ensures st.totalBoxes == TotalQuantity(AllItems(orders))
    ensures orders != [] ==> st.bestSeller == Some(BestOf(Names(AllItems(orders)), AllItems(orders)))
  {
    if orders == [] {
      return Stats([], None, 0.0);
    }
    var buckets, keys, products, names, totalBoxes := FoldOrders(orders);
    var monthly := SortedBuckets(MonthEntries(orders), buckets, keys);
    var best := PickBestSeller(AllItems(orders), products, names);
    return Stats(monthly, Some(best), totalBoxes);
  }

  /** The `forEach` over the orders: afterwards the buckets hold every order's month and the
      product totals and box count every order's items. */
  method FoldOrders(orders: seq<Order>)
    returns (buckets: map<string, MonthStat>, keys: seq<string>,
             products: map<string, real>, names: seq<string>, totalBoxes: real)
    ensures BucketsHold(MonthEntries(orders), buckets, keys)
    ensures ProductsHold(AllItems(orders), products, names, totalBoxes)
  {
    buckets, keys, products, names, totalBoxes := map[], [], map[], [], 0.0;
    var i := 0;
    assert orders[..i] == [];
    while i < |orders|
      invariant 0 <= i <= |orders|
      invariant BucketsHold(MonthEntries(orders[..i]), buckets, keys)
      invariant ProductsHold(AllItems(orders[..i]), products, names, totalBoxes)
    {
      assert orders[..i + 1] == orders[..i] + [orders[i]];
      buckets, keys, products, names, totalBoxes := AddOrder(orders[..i], orders[i], buckets, keys, products, names, totalBoxes);
      i := i + 1;
    }
    assert orders[..i] == orders;
  }

  /** The loop body for one order: its month bucket, then its items when it has an item list. */
  method AddOrder(ghost seen: seq<Order>, o: Order, buckets: map<string, MonthStat>, keys: seq<string>,
                  products: map<string, real>, names: seq<string>, boxes: real)
    returns (buckets': map<string, MonthStat>, keys': seq<string>,
             products': map<string, real>, names': seq<string>, boxes': real)
    requires BucketsHold(MonthEntries(seen), buckets, keys)
    requires ProductsHold(AllItems(seen), products, names, boxes)
    ensures BucketsHold(MonthEntries(seen + [o]), buckets', keys')
    ensures ProductsHold(AllItems(seen + [o]), products', names', boxes')
  {
    EntriesStep(seen, o);
    AllItemsStep(seen, o);
    var key := MonthKey(o);
    var total := NumOr0(o.finalTotal);
    buckets', keys' := AddToBucket(MonthEntries(seen), key, total, buckets, keys);
    if o.items.Some? {
      products', names', boxes' := AddItems(AllItems(seen), o.items.value, products, names, boxes);
    } else {
      products', names', boxes' := products, names, boxes;
      assert AllItems(seen) + [] == AllItems(seen);
    }
  }

  /** One more order: its month's count grows by one and its revenue by its total; its month
      key is appended when new. */
  lemma MonthStep(prefix: seq<MonthEntry>, e: MonthEntry)
    ensures forall key :: MonthCount(prefix + [e], key) == MonthCount(prefix, key) + (if e.key == key then 1 else 0)
    ensures forall key :: MonthRevenue(prefix + [e], key) == MonthRevenue(prefix, key) + (if e.key == key then e.total else 0.0)
    ensures MonthKeys(prefix + [e]) == if e.key in MonthKeys(prefix) then MonthKeys(prefix) else MonthKeys(prefix) + [e.key]
  {
    assert (prefix + [e])[..|prefix|] == prefix;
  }

  /** One more order appends its month entry. */
  lemma EntriesStep(prefix: seq<Order>, o: Order)
    ensures MonthEntries(prefix + [o]) == MonthEntries(prefix) + [EntryOf(o)]
  {
    assert (prefix + [o])[..|prefix|] == prefix;
  }

  /** One more order appends its items. */
  lemma AllItemsStep(prefix: seq<Order>, o: Order)
    ensures AllItems(prefix + [o]) == AllItems(prefix) + ItemsOf(o)
  {
    assert (prefix + [o])[..|prefix|] == prefix;
  }

  /** One order's contribution to the month buckets: its bucket is created when missing, then
      counts it once and adds its total. */
  method AddToBucket(ghost prefix: seq<MonthEntry>, key: string, total: real, buckets: map<string, MonthStat>, keys: seq<string>)
    returns (buckets': map<string, MonthStat>, keys': seq<string>)
    requires BucketsHold(prefix, buckets, keys)
    ensures BucketsHold(prefix + [MonthEntry(key, total)], buckets', keys')
  {
    MonthStep(prefix, MonthEntry(key, total));
    buckets', keys' := buckets, keys;
    if key !in buckets' {
      MonthCountOutside(prefix, key);
      buckets' := buckets'[key := MonthStat(key, 0, 0.0)];
      keys' := keys' + [key];
    }
    buckets' := buckets'[key := MonthStat(key, buckets'[key].count + 1, buckets'[key].revenue + total)];
    ghost var all := prefix + [MonthEntry(key, total)];
    assert keys' == MonthKeys(all);
    forall k
      ensures k in buckets' <==> k in keys'
      ensures k in buckets' ==> buckets'[k] == MonthStat(k, MonthCount(all, k), MonthRevenue(all, k))
    {
      if k != key {
        assert k in buckets' <==> k in buckets;
        assert k in keys' <==> k in keys;
      }
    }
  }

  /** One order's items added to the product totals and the box count. */
  method AddItems(ghost before: seq<Item>, items: seq<Item>, products: map<string, real>, names: seq<string>, boxes: real)
    returns (products': map<string, real>, names': seq<string>, boxes': real)
    requires ProductsHold(before, products, names, boxes)
    ensures ProductsHold(before + items, products', names', boxes')
  {
    products', names', boxes' := products, names, boxes;
    assert before + items[..0] == before;
    var j := 0;
    while j < |items|
      invariant 0 <= j <= |items|
      invariant ProductsHold(before + items[..j], products', names', boxes')
    {
      var it := items[j];
      ghost var flat := before + items[..j];
      assert before + items[..j + 1] == flat + [it];
      assert (flat + [it])[..|flat|] == flat;
      var qty := NumOr0(it.quantity);
      if it.name !in products' {
        NameTotalOutside(flat, it.name);
        names' := names' + [it.name];
      }
      products' := products'[it.name := (if it.name in products' then products'[it.name] else 0.0) + qty];
      boxes' := boxes' + qty;
      j := j + 1;
    }
    assert items[..j] == items;
  }

  /** The buckets listed in ascending key order. */
  method SortedBuckets(ghost es: seq<MonthEntry>, buckets: map<string, MonthStat>, keys: seq<string>)
    returns (monthly: seq<MonthStat>)
    requires BucketsHold(es, buckets, keys)
    ensures forall i, j :: 0 <= i < j < |monthly| ==> StrLess(monthly[i].key, monthly[j].key)
    ensures forall key :: key in KeysOf(monthly) <==> MonthCount(es, key) > 0
    ensures forall m :: m in monthly ==> m.count == MonthCount(es, m.key) && m.revenue == MonthRevenue(es, m.key)
  {
    var sorted := SortKeys(keys);
    MonthKeysDistinct(es);
    SortKeysSorted(keys);
    SortKeysSameKeys(keys);
    monthly := seq(|sorted|, n requires 0 <= n < |sorted| => buckets[sorted[n]]);
    assert KeysOf(monthly) == sorted;
    forall key ensures key in sorted <==> MonthCount(es, key) > 0 {
      MonthCountOutside(es, key);
      MonthCountInside(es, key);
    }
  }

  /** The best-seller loop over the products in first-seen order (see `ComputeStats`). */
  method PickBestSeller(items: seq<Item>, products: map<string, real>, names: seq<string>)
    returns (best: BestSeller)
    requires forall name :: name in names ==> name in products && products[name] == NameTotal(items, name)
    ensures best == BestOf(names, items)
  {
    best := NoSales;
    var j := 0;
    while j < |names|
      invariant 0 <= j <= |names|
      invariant best == BestOf(names[..j], items)
    {
      assert names[..j + 1][..j] == names[..j];
      var count := products[names[j]];
      if count > best.count {
        best := BestSeller(names[j], count);
      }
      j := j + 1;
    }
    assert names[..j] == names;
  }

  function KeysOf(monthly: seq<MonthStat>): (keys: seq<string>)
    ensures |keys| == |monthly| && forall i :: 0 <= i < |monthly| ==> keys[i] == monthly[i].key
  {
    seq(|monthly|, i requires 0 <= i < |monthly| => monthly[i].key)
  }

  // ---------------------------------------------------------------------------------------
  // Sorting the bucket keys (`Object.entries(monthlyMap).sort` by `localeCompare`)
  // ---------------------------------------------------------------------------------------

  predicate Distinct(keys: seq<string>) {
    forall i, j :: 0 <= i < j < |keys| ==> keys[i] != keys[j]
  }

  function InsertKey(key: string, sorted: seq<string>): (r: seq<string>)
    ensures multiset(r) == multiset(sorted) + multiset{key}
  {
    if sorted == [] || StrLess(key, sorted[0]) then [key] + sorted
    else
      assert sorted == [sorted[0]] + sorted[1..];
      [sorted[0]] + InsertKey(key, sorted[1..])
  }

  /** The keys in ascending string order. */
  function SortKeys(keys: seq<string>): (r: seq<string>)
    ensures multiset(r) == multiset(keys)
  {
    if keys == [] then []
    else
      assert keys == [keys[0]] + keys[1..];
      InsertKey(keys[0], SortKeys(keys[1..]))
  }

  lemma SortKeysSameKeys(keys: seq<string>)
    ensures forall k :: k in SortKeys(keys) <==> k in keys
  {
    var r := SortKeys(keys);
    forall k ensures k in r <==> k in keys {
      assert k in r <==> k in multiset(r);
      assert k in keys <==> k in multiset(keys);
    }
  }

  predicate StrictlyAscending(keys: seq<string>) {
    forall i, j :: 0 <= i < j < |keys| ==> StrLess(keys[i], keys[j])
  }

  lemma {:induction false} InsertKeySorted(key: string, sorted: seq<string>)
    requires StrictlyAscending(sorted) && key !in sorted
    ensures StrictlyAscending(InsertKey(key, sorted))
  {
    var r := InsertKey(key, sorted);
    if sorted == [] || StrLess(key, sorted[0]) {
      forall j | 1 < j < |r| ensures StrLess(r[0], r[j]) {
        StrLessTransitive(key, sorted[0], sorted[j - 1]);
      }
    } else {
      StrLessTotal(key, sorted[0]);
      assert key !in sorted[1..];
      InsertKeySorted(key, sorted[1..]);
      var rest := InsertKey(key, sorted[1..]);
      forall j | 0 < j < |r| ensures StrLess(r[0], r[j]) {
        assert r[j] == rest[j - 1];
        assert r[j] in multiset(rest);
        if r[j] != key {
          assert r[j] in multiset(sorted[1..]);
          var k :| 0 <= k < |sorted[1..]| && sorted[1..][k] == r[j];
          assert sorted[k + 1] == r[j];
        }
      }
    }
  }

  lemma {:induction false} SortKeysSorted(keys: seq<string>)
    requires Distinct(keys)
    ensures StrictlyAscending(SortKeys(keys))
  {
    if keys != [] {
      SortKeysSorted(keys[1..]);
      assert keys[0] !in multiset(keys[1..]);
      InsertKeySorted(keys[0], SortKeys(keys[1..]));
    }
  }

  // ---------------------------------------------------------------------------------------
  // Facts about the buckets
  // ---------------------------------------------------------------------------------------

  lemma {:induction false} MonthKeysDistinct(es: seq<MonthEntry>)
    ensures Distinct(MonthKeys(es))
  {
    if es != [] { MonthKeysDistinct(es[..|es| - 1]); }
  }

  /** A key no order reaches has an empty bucket. */
  lemma {:induction false} MonthCountOutside(es: seq<MonthEntry>, key: string)
    ensures key !in MonthKeys(es) ==> MonthCount(es, key) == 0 && MonthRevenue(es, key) == 0.0
  {
    if es != [] { MonthCountOutside(es[..|es| - 1], key); }
  }

  lemma {:induction false} MonthCountInside(es: seq<MonthEntry>, key: string)
    ensures key in MonthKeys(es) ==> MonthCount(es, key) > 0
  {
    if es != [] { MonthCountInside(es[..|es| - 1], key); }
  }

  /** The bucket counts over the keys `keys`. */
  function CountSum(es: seq<MonthEntry>, keys: seq<string>): nat {
    if keys == [] then 0 else CountSum(es, keys[..|keys| - 1]) + MonthCount(es, keys[|keys| - 1])
  }

  lemma {:induction false} CountSumStep(prefix: seq<MonthEntry>, e: MonthEntry, keys: seq<string>)
    requires Distinct(keys)
    ensures CountSum(prefix + [e], keys) == CountSum(prefix, keys) + (if e.key in keys then 1 else 0)
  {
    assert (prefix + [e])[..|prefix|] == prefix;
    if keys != [] {
      CountSumStep(prefix, e, keys[..|keys| - 1]);
      assert keys == keys[..|keys| - 1] + [keys[|keys| - 1]];
    }
  }

  /** Each order lands in exactly one bucket: the bucket counts add up to the number of orders. */
  lemma {:induction false} MonthCountsSum(es: seq<MonthEntry>)
    ensures CountSum(es, MonthKeys(es)) == |es|
  {
    if es != [] {
      var prefix, e := es[..|es| - 1], es[|es| - 1];
      assert es == prefix + [e];
      var keys := MonthKeys(prefix);
      MonthCountsSum(prefix);
      MonthKeysDistinct(prefix);
      MonthKeysDistinct(es);
      CountSumStep(prefix, e, MonthKeys(es));
      if e.key !in keys {
        MonthCountOutside(prefix, e.key);
        assert MonthKeys(es) == keys + [e.key];
        assert (keys + [e.key])[..|keys|] == keys;
        CountSumStep(prefix, e, keys);
      }
    }
  }

  // ---------------------------------------------------------------------------------------
  // Facts about the products
  // ---------------------------------------------------------------------------------------

  /** A name no item carries has sold nothing. */
  lemma {:induction false} NameTotalOutside(items: seq<Item>, name: string)
    ensures name !in Names(items) ==> NameTotal(items, name) == 0.0
  {
    if items != [] { NameTotalOutside(items[..|items| - 1], name); }
  }

  lemma {:induction false} NamesDistinct(items: seq<Item>)
    ensures Distinct(Names(items))
  {
    if items != [] { NamesDistinct(items[..|items| - 1]); }
  }

  /** The per-product totals over the names `names`. */
  function TotalsSum(items: seq<Item>, names: seq<string>): real {
    if names == [] then 0.0 else TotalsSum(items, names[..|names| - 1]) + NameTotal(items, names[|names| - 1])
  }

  lemma {:induction false} TotalsSumStep(prefix: seq<Item>, it: Item, names: seq<string>)
    requires Distinct(names)
    ensures TotalsSum(prefix + [it], names) == TotalsSum(prefix, names) + (if it.name in names then Quantity(it) else 0.0)
  {
    assert (prefix + [it])[..|prefix|] == prefix;
    if names != [] {
      TotalsSumStep(prefix, it, names[..|names| - 1]);
      assert names == names[..|names| - 1] + [names[|names| - 1]];
    }
  }

  /** The box count is the sum of the per-product totals. */
  lemma {:induction false} BoxesArePerProductTotals(items: seq<Item>)
    ensures TotalsSum(items, Names(items)) == TotalQuantity(items)
  {
    if items != [] {
      var prefix, it := items[..|items| - 1], items[|items| - 1];
      assert items == prefix + [it];
      var names := Names(prefix);
      BoxesArePerProductTotals(prefix);
      NamesDistinct(prefix);
      NamesDistinct(items);
      TotalsSumStep(prefix, it, Names(items));
      if it.name !in names {
        NameTotalOutside(prefix, it.name);
        assert Names(items) == names + [it.name];
        assert (names + [it.name])[..|names|] == names;
        TotalsSumStep(prefix, it, names);
      }
    }
  }

  /** The best seller's count is at least every product's total, and never negative. */
  lemma {:induction false} BestOfIsMaximal(names: seq<string>, items: seq<Item>)
    ensures BestOf(names, items).count >= 0.0
    ensures forall i :: 0 <= i < |names| ==> NameTotal(items, names[i]) <= BestOf(names, items).count
  {
    if names != [] {
      BestOfIsMaximal(names[..|names| - 1], items);
    }
  }

  /** A best seller with a positive count is a listed product with exactly that total, and
      every product listed before it sold strictly less: on a tie the first one stays. */
  lemma {:induction false} BestOfIsFirstMaximum(names: seq<string>, items: seq<Item>)
    requires BestOf(names, items).count > 0.0
    ensures exists i :: 0 <= i < |names| && names[i] == BestOf(names, items).name
              && NameTotal(items, names[i]) == BestOf(names, items).count
              && forall j :: 0 <= j < i ==> NameTotal(items, names[j]) < BestOf(names, items).count
  {
    var prefix := names[..|names| - 1];
    var best := BestOf(prefix, items);
    var name := names[|names| - 1];
    if NameTotal(items, name) > best.count {
      BestOfIsMaximal(prefix, items);
      var i := |names| - 1;
      assert forall j :: 0 <= j < i ==> names[j] == prefix[j];
    } else {
      BestOfIsFirstMaximum(prefix, items);
      var i :| 0 <= i < |prefix| && prefix[i] == best.name && NameTotal(items, prefix[i]) == best.count
               && forall j :: 0 <= j < i ==> NameTotal(items, prefix[j]) < best.count;
      assert names[i] == prefix[i];
    }
  }

  /** "No sales yet" stays exactly when no product sold a positive total. */
  lemma {:induction false} NoSalesYet(names: seq<string>, items: seq<Item>)
    ensures BestOf(names, items) == NoSales <==> forall i :: 0 <= i < |names| ==> NameTotal(items, names[i]) <= 0.0
  {
    if names != [] {
      var prefix := names[..|names| - 1];
      NoSalesYet(prefix, items);
      BestOfIsMaximal(prefix, items);
      BestOfIsMaximal(names, items);
      assert forall i :: 0 <= i < |prefix| ==> names[i] == prefix[i];
    }
  }
}
