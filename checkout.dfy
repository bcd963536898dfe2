/** The checkout page (app/order/page.tsx): the cart, its totals, the dates offered for
    delivery or pickup, the "YYYY-MM-DD" date values and the order record handed on to
    payment. */
module Checkout {
  import opened Wrappers
  import opened Text
  import opened Clock
  import opened OrderRecords
  import opened Pricing

  // ---------------------------------------------------------------------------------------
  // The catalogue (`ORDER_ITEMS` of components/Menu.tsx)
  // ---------------------------------------------------------------------------------------

  datatype CatalogItem = CatalogItem(id: int, name: string, price: real)

  const OrderItems: seq<CatalogItem> := [
    CatalogItem(1, "Biscoff® Cookie", 350.0),
    CatalogItem(2, "Matcha Cookie", 350.0),
    CatalogItem(3, "Chocolate Chunk Cookie", 300.0),
    CatalogItem(4, "Double Chocolate Cookie", 320.0),
    CatalogItem(5, "S'mores Cookie", 320.0),
    CatalogItem(6, "Red Velvet Cookie", 380.0),
    CatalogItem(7, "Classic Assorted Bundle", 350.0),
    CatalogItem(8, "Premium Assorted Bundle", 380.0)
  ]

  /** `ORDER_ITEMS.find(i => i.id === id)`: the first item with that id, if any. */
  function FindItem(items: seq<CatalogItem>, id: int): (r: Option<CatalogItem>)
    ensures r.Some? ==> r.value in items && r.value.id == id
    ensures r.None? <==> forall i :: 0 <= i < |items| ==> items[i].id != id
  {
    if items == [] then None
    else if items[0].id == id then Some(items[0])
    else FindItem(items[1..], id)
  }

  /** `item?.price || 4.00`: the listed price, or 4.00 for an id the catalogue lacks (or a
      zero price). The page looks prices up in `OrderItems`. */
  function PriceOf(catalog: seq<CatalogItem>, id: int): (p: real)
    ensures p != 0.0
  {
    var item := FindItem(catalog, id);
    if item.Some? && item.value.price != 0.0 then item.value.price else 4.0
  }

  // ---------------------------------------------------------------------------------------
  // The cart: `{ [id]: quantity }`, whose entries JavaScript lists in ascending id order,
  // held here as that list of entries
  // ---------------------------------------------------------------------------------------

  datatype Line = Line(id: int, qty: int)

  predicate IdsAscending(lines: seq<Line>) {
    forall i, j :: 0 <= i < j < |lines| ==> lines[i].id < lines[j].id
  }

  type Cart = lines: seq<Line> | IdsAscending(lines) witness []

  /** The ids in the cart, in order. */
  function Ids(cart: seq<Line>): (ids: seq<int>)
    ensures |ids| == |cart| && forall i :: 0 <= i < |cart| ==> ids[i] == cart[i].id
  {
    if cart == [] then [] else [cart[0].id] + Ids(cart[1..])
  }

  predicate Has(cart: Cart, id: int) {
    id in Ids(cart)
  }

  /** `cart[id] || 0`. */
  function Qty(cart: Cart, id: int): int {
    if cart == [] then 0
    else if cart[0].id == id then cart[0].qty
    else Qty(cart[1..], id)
  }

  /** Every quantity held is positive. */
  predicate AllPositive(cart: Cart) {
    forall i :: 0 <= i < |cart| ==> cart[i].qty > 0
  }

  /** In a cart the first id is below all the others. */
  lemma FirstIdSmallest(cart: Cart)
    requires cart != []
    ensures forall k :: k in Ids(cart[1..]) ==> cart[0].id < k
  {
    forall k | k in Ids(cart[1..]) ensures cart[0].id < k {
      var i :| 0 <= i < |cart[1..]| && Ids(cart[1..])[i] == k;
      assert cart[i + 1].id == k;
    }
  }

  lemma FirstLineSmallest(cart: Cart)
    requires cart != []
    ensures forall l :: l in cart[1..] ==> cart[0].id < l.id
  {
    forall l | l in cart[1..] ensures cart[0].id < l.id {
      var i :| 0 <= i < |cart[1..]| && cart[1..][i] == l;
      assert cart[i + 1] == l;
    }
  }

  lemma {:induction false} QtyAbsent(cart: Cart, id: int)
    requires !Has(cart, id)
    ensures Qty(cart, id) == 0
  {
    if cart != [] {
      QtyAbsent(cart[1..], id);
    }
  }

  /** An entry below every entry of a cart can go in front of it. */
  lemma ConsAscending(l: Line, rest: Cart)
    requires forall x :: x in rest ==> l.id < x.id
    ensures IdsAscending([l] + rest)
  {
    forall i, j | 0 <= i < j < |[l] + rest|
      ensures ([l] + rest)[i].id < ([l] + rest)[j].id
    {
      if i == 0 {
        assert ([l] + rest)[j] == rest[j - 1];
      }
    }
  }

  /** `{ ...cart, [id]: q }`: the entry for `id` set to `q`, in its place by id. */
  function Put(cart: Cart, id: int, q: int): (r: Cart)
    ensures forall i :: 0 <= i < |r| ==> r[i] == Line(id, q) || r[i] in cart
  {
    if cart == [] then [Line(id, q)]
    else if id <= cart[0].id then
      [Line(id, q)] + (if id == cart[0].id then cart[1..] else cart)
    else
      var rest := Put(cart[1..], id, q);
      FirstLineSmallest(cart);
      ConsAscending(cart[0], rest);
      [cart[0]] + rest
  }

  /** Reading the cart after `Put`: `q` at `id`, as before everywhere else. */
  lemma {:induction false} PutReads(cart: Cart, id: int, q: int, k: int)
    ensures Qty(Put(cart, id, q), k) == if k == id then q else Qty(cart, k)
    ensures Has(Put(cart, id, q), k) <==> k == id || Has(cart, k)
  {
    if cart != [] {
      FirstIdSmallest(cart);
      if id < cart[0].id {
        if k == id { QtyAbsent(cart, id); }
      } else if id == cart[0].id {
        if k == id { QtyAbsent(cart[1..], id); }
      } else {
        PutReads(cart[1..], id, q, k);
      }
    }
  }

  /** `delete cart[id]`. */
  function Remove(cart: Cart, id: int): (r: Cart)
    ensures forall i :: 0 <= i < |r| ==> r[i] in cart && r[i].id != id
  {
    if cart == [] then []
    else if cart[0].id == id then cart[1..]
    else
      var rest := Remove(cart[1..], id);
      FirstLineSmallest(cart);
      ConsAscending(cart[0], rest);
      [cart[0]] + rest
  }

  /** Reading the cart after `Remove`: nothing at `id`, as before everywhere else. */
  lemma {:induction false} RemoveReads(cart: Cart, id: int, k: int)
    ensures Qty(Remove(cart, id), k) == if k == id then 0 else Qty(cart, k)
    ensures Has(Remove(cart, id), k) <==> k != id && Has(cart, k)
  {
    if cart != [] {
      FirstIdSmallest(cart);
      if cart[0].id == id {
        if k == id { QtyAbsent(cart[1..], id); }
      } else {
        RemoveReads(cart[1..], id, k);
      }
    }
  }

  /** `totalItems`: the sum of the quantities. */
  function TotalItems(cart: Cart): int {
    if cart == [] then 0 else cart[0].qty + TotalItems(cart[1..])
  }

  /** What one entry costs: its price times its quantity. */
  function LineTotal(catalog: seq<CatalogItem>, id: int, qty: int): real {
    PriceOf(catalog, id) * (qty as real)
  }

  /** `itemsTotal`: the sum of price times quantity. */
  function ItemsTotal(cart: Cart, catalog: seq<CatalogItem>): real {
    if cart == [] then 0.0 else LineTotal(catalog, cart[0].id, cart[0].qty) + ItemsTotal(cart[1..], catalog)
  }

  /** Setting one entry changes the totals by the difference it makes to that entry. */
  lemma {:induction false} TotalsAfterPut(cart: Cart, id: int, q: int, catalog: seq<CatalogItem>)
    ensures TotalItems(Put(cart, id, q)) == TotalItems(cart) - Qty(cart, id) + q
    ensures ItemsTotal(Put(cart, id, q), catalog)
            == ItemsTotal(cart, catalog) - LineTotal(catalog, id, Qty(cart, id)) + LineTotal(catalog, id, q)
  {
    if cart == [] {
    } else if id < cart[0].id {
      FirstIdSmallest(cart);
      QtyAbsent(cart, id);
    } else if id == cart[0].id {
    } else {
      TotalsAfterPut(cart[1..], id, q, catalog);
    }
  }

  /** Deleting one entry takes what it contributed off the totals. */
  lemma {:induction false} TotalsAfterRemove(cart: Cart, id: int, catalog: seq<CatalogItem>)
    ensures TotalItems(Remove(cart, id)) == TotalItems(cart) - Qty(cart, id)
    ensures ItemsTotal(Remove(cart, id), catalog) == ItemsTotal(cart, catalog) - LineTotal(catalog, id, Qty(cart, id))
  {
    if cart != [] && cart[0].id != id {
      TotalsAfterRemove(cart[1..], id, catalog);
    } else if cart != [] {
      FirstIdSmallest(cart);
      QtyAbsent(cart[1..], id);
    } else {
      assert LineTotal(catalog, id, 0) == 0.0;
    }
  }

  /** `updateQuantity(id, delta)`: the new quantity is the old one plus `delta`, but not below
      0, and an entry that reaches 0 is deleted; every other entry is untouched. The totals
      move by exactly the change in this entry, and a cart of positive quantities stays so. */
  method UpdateQuantity(prev: Cart, id: int, delta: int) returns (newCart: Cart)
    ensures Qty(newCart, id) == if Qty(prev, id) + delta > 0 then Qty(prev, id) + delta else 0
    ensures Has(newCart, id) <==> Qty(prev, id) + delta > 0
    ensures forall k :: k != id ==> Qty(newCart, k) == Qty(prev, k) && (Has(newCart, k) <==> Has(prev, k))
    ensures AllPositive(prev) ==> AllPositive(newCart)
    ensures TotalItems(newCart) == TotalItems(prev) - Qty(prev, id) + Qty(newCart, id)
    ensures forall catalog :: ItemsTotal(newCart, catalog)
              == ItemsTotal(prev, catalog) - LineTotal(catalog, id, Qty(prev, id)) + LineTotal(catalog, id, Qty(newCart, id))
  {
    var currentQty := Qty(prev, id);
    var newQty := if currentQty + delta > 0 then currentQty + delta else 0;
    newCart := Put(prev, id, newQty);
    PutFacts(prev, id, newQty);
    if newQty == 0 {
      var withZero := newCart;
      newCart := Remove(newCart, id);
      RemoveFacts(withZero, id);
    }
  }

  /** `Put` as a whole: every key reads as `PutReads` says, and the totals move as
      `TotalsAfterPut` says, for every catalogue. */
  lemma PutFacts(cart: Cart, id: int, q: int)
    ensures forall k :: Qty(Put(cart, id, q), k) == (if k == id then q else Qty(cart, k))
    ensures forall k :: Has(Put(cart, id, q), k) <==> k == id || Has(cart, k)
    ensures TotalItems(Put(cart, id, q)) == TotalItems(cart) - Qty(cart, id) + q
    ensures forall catalog :: ItemsTotal(Put(cart, id, q), catalog)
              == ItemsTotal(cart, catalog) - LineTotal(catalog, id, Qty(cart, id)) + LineTotal(catalog, id, q)
  {
    TotalsAfterPut(cart, id, q, []);
    forall catalog
      ensures ItemsTotal(Put(cart, id, q), catalog)
              == ItemsTotal(cart, catalog) - LineTotal(catalog, id, Qty(cart, id)) + LineTotal(catalog, id, q)
    {
      TotalsAfterPut(cart, id, q, catalog);
    }
    forall k
      ensures Qty(Put(cart, id, q), k) == (if k == id then q else Qty(cart, k))
      ensures Has(Put(cart, id, q), k) <==> k == id || Has(cart, k)
    {
      PutReads(cart, id, q, k);
    }
  }

  /** `Remove` as a whole: every key reads as `RemoveReads` says, and the totals move as
      `TotalsAfterRemove` says, for every catalogue. */
  lemma RemoveFacts(cart: Cart, id: int)
    ensures forall k :: Qty(Remove(cart, id), k) == (if k == id then 0 else Qty(cart, k))
    ensures forall k :: Has(Remove(cart, id), k) <==> k != id && Has(cart, k)
    ensures TotalItems(Remove(cart, id)) == TotalItems(cart) - Qty(cart, id)
    ensures forall catalog :: ItemsTotal(Remove(cart, id), catalog)
              == ItemsTotal(cart, catalog) - LineTotal(catalog, id, Qty(cart, id))
  {
    TotalsAfterRemove(cart, id, []);
    forall catalog
      ensures ItemsTotal(Remove(cart, id), catalog) == ItemsTotal(cart, catalog) - LineTotal(catalog, id, Qty(cart, id))
    {
      TotalsAfterRemove(cart, id, catalog);
    }
    forall k
      ensures Qty(Remove(cart, id), k) == (if k == id then 0 else Qty(cart, k))
      ensures Has(Remove(cart, id), k) <==> k != id && Has(cart, k)
    {
      RemoveReads(cart, id, k);
    }
  }

  /** "Place Order" is enabled exactly when the item count is not 0; for a cart of positive
      quantities that is exactly when the cart is not empty. */
  predicate CanPlaceOrder(cart: Cart) {
    TotalItems(cart) != 0
  }

  lemma {:induction false} CanPlaceOrderIffNonEmpty(cart: Cart)
    requires AllPositive(cart)
    ensures CanPlaceOrder(cart) <==> cart != []
  {
    if cart != [] {
      PositiveTotal(cart[1..]);
    }
  }

  lemma {:induction false} PositiveTotal(cart: Cart)
    requires AllPositive(cart)
    ensures TotalItems(cart) >= 0
  {
    if cart != [] { PositiveTotal(cart[1..]); }
  }

  /** `totalPrice`: the items plus the delivery fee; a pickup order pays the items only. */
  function TotalPrice(cart: Cart, catalog: seq<CatalogItem>, orderType: OrderType, lat: Option<real>, lng: Option<real>, distanceKm: real): (total: real)
    ensures total == ItemsTotal(cart, catalog) + DeliveryFee(orderType, lat, lng, distanceKm)
    ensures orderType == Pickup ==> total == ItemsTotal(cart, catalog)
    ensures orderType == Delivery && Truthy(lat) && Truthy(lng) ==>
              total == ItemsTotal(cart, catalog) + FeeForDistance(distanceKm)
    ensures total >= ItemsTotal(cart, catalog)
  {
    ItemsTotal(cart, catalog) + DeliveryFee(orderType, lat, lng, distanceKm)
  }

  // ---------------------------------------------------------------------------------------
  // `getAvailableDates`
  // ---------------------------------------------------------------------------------------

  const RobinsonsJaro: string := "Robinsons Place Jaro"
  const SMCityIloilo: string := "SM City Iloilo"

  /** The weekdays a channel serves: delivery on Tuesday, Thursday and Saturday; pickup at
      Robinsons Place Jaro on Tuesday and Thursday, at SM City Iloilo on Saturday, and
      nowhere else. */
  function ServedWeekdays(orderType: OrderType, pickupLocation: string): set<int> {
    if orderType == Delivery then {2, 4, 6}
    else if pickupLocation == RobinsonsJaro then {2, 4}
    else if pickupLocation == SMCityIloilo then {6}
    else {}
  }

  /** Orders for `day` close at 22:00 on the day before. */
  function Cutoff(day: int): int {
    At(day - 1, 22, 0, 0)
  }

  /** `day` can be chosen at instant `now`: the channel serves its weekday and its cutoff
      has not passed. */
  predicate Offered(orderType: OrderType, pickupLocation: string, now: int, day: int) {
    Weekday(day) in ServedWeekdays(orderType, pickupLocation) && now <= Cutoff(day)
  }

  predicate StrictlyIncreasing(days: seq<int>) {
    forall i, j :: 0 <= i < j < |days| ==> days[i] < days[j]
  }

  /** The dates offered at instant `now`: of the 30 days starting today, those the channel
      serves whose cutoff has not passed, in calendar order. A pickup order with no location
      gets none. */
  method AvailableDates(orderType: OrderType, pickupLocation: string, now: int) returns (dates: seq<int>)
    ensures orderType == Pickup && pickupLocation == "" ==> dates == []
    ensures forall d :: d in dates <==> DayOf(now) <= d < DayOf(now) + 30 && Offered(orderType, pickupLocation, now, d)
    ensures StrictlyIncreasing(dates) && |dates| <= 30
  {
    if orderType == Pickup && pickupLocation == "" {
      return [];
    }
    dates := [];
    var today := DayOf(now);
    var i := 0;
    while i < 30
      invariant 0 <= i <= 30
      invariant forall d :: d in dates <==> today <= d < today + i && Offered(orderType, pickupLocation, now, d)
      invariant StrictlyIncreasing(dates) && |dates| <= i
      invariant forall j :: 0 <= j < |dates| ==> dates[j] < today + i
    {
      var d := today + i;
      var day := Weekday(d);
      var isValid := false;
      if orderType == Delivery {
        if day in {2, 4, 6} { isValid := true; }
      } else {
        if pickupLocation == RobinsonsJaro {
          if day in {2, 4} { isValid := true; }
        } else if pickupLocation == SMCityIloilo {
          if day == 6 { isValid := true; }
        }
      }
      if isValid {
        var cutoff := At(d - 1, 22, 0, 0);
        if now > cutoff { isValid := false; }
      }
      if isValid { dates := dates + [d]; }
      i := i + 1;
    }
  }

  /** Today is never offered: its cutoff, 22:00 yesterday, has always passed. */
  lemma TodayNeverOffered(orderType: OrderType, pickupLocation: string, now: int)
    ensures !Offered(orderType, pickupLocation, now, DayOf(now))
  {
    var today := DayOf(now);
    assert today * MsPerDay <= now;
    assert Cutoff(today) == today * MsPerDay - 2 * MsPerHour;
  }

  /** Tomorrow is offered, on a served weekday, until 22:00 today; from the day after
      tomorrow on, only the weekday matters. */
  lemma CutoffOnlyAffectsTomorrow(orderType: OrderType, pickupLocation: string, now: int, day: int)
    requires day >= DayOf(now) + 1
    ensures day == DayOf(now) + 1 ==>
              (Offered(orderType, pickupLocation, now, day)
               <==> Weekday(day) in ServedWeekdays(orderType, pickupLocation) && now <= At(DayOf(now), 22, 0, 0))
    ensures day >= DayOf(now) + 2 ==>
              (Offered(orderType, pickupLocation, now, day) <==> Weekday(day) in ServedWeekdays(orderType, pickupLocation))
  {
    var today := DayOf(now);
    assert now < (today + 1) * MsPerDay;
    if day >= today + 2 {
      assert Cutoff(day) >= (day - 1) * MsPerDay;
      assert (day - 1) * MsPerDay >= (today + 1) * MsPerDay;
    }
  }

  // ---------------------------------------------------------------------------------------
  // The date value `YYYY-MM-DD` of a chosen date
  // ---------------------------------------------------------------------------------------

  /** `getFullYear() + '-' + pad2(getMonth() + 1) + '-' + pad2(getDate())`. */
  function FormatDate(year: nat, month: nat, day: nat): (s: string)
    ensures 1000 <= year <= 9999 && month < 100 && day < 100 ==> |s| == 10 && s[4] == '-' && s[7] == '-'
  {
    DigitCountRanges(year);
    Decimal(year) + "-" + Pad2(month) + "-" + Pad2(day)
  }

  /** The "-MM-DD" tails compare as the (month, day) pairs do. */
  lemma MonthDayOrder(m1: nat, d1: nat, m2: nat, d2: nat)
    requires m1 < 100 && m2 < 100 && d1 < 100 && d2 < 100
    ensures StrLess("-" + Pad2(m1) + "-" + Pad2(d1), "-" + Pad2(m2) + "-" + Pad2(d2))
            <==> m1 < m2 || (m1 == m2 && d1 < d2)
  {
    var b1, b2 := "-" + Pad2(m1), "-" + Pad2(m2);
    var c1, c2 := "-" + Pad2(d1), "-" + Pad2(d2);
    assert "-" + Pad2(m1) + "-" + Pad2(d1) == b1 + c1;
    assert "-" + Pad2(m2) + "-" + Pad2(d2) == b2 + c2;
    StrLessAppend(b1, b2, c1, c2);
    DashThen(Pad2(m1), Pad2(m2));
    DashThen(Pad2(d1), Pad2(d2));
    DigitStringsOrder(Pad2(m1), Pad2(m2));
    DigitStringsOrder(Pad2(d1), Pad2(d2));
  }

  /** For four-digit years, comparing date values as strings compares the dates: the value
      strings sort in calendar order (the order the dashboard's `localeCompare` relies on). */
  lemma FormatDateOrder(y1: nat, m1: nat, d1: nat, y2: nat, m2: nat, d2: nat)
    requires 1000 <= y1 <= 9999 && 1000 <= y2 <= 9999
    requires m1 < 100 && m2 < 100 && d1 < 100 && d2 < 100
    ensures StrLess(FormatDate(y1, m1, d1), FormatDate(y2, m2, d2))
            <==> y1 < y2 || (y1 == y2 && (m1 < m2 || (m1 == m2 && d1 < d2)))
  {
    FormatDateSplit(y1, m1, d1);
    FormatDateSplit(y2, m2, d2);
    var a1, a2 := Decimal(y1), Decimal(y2);
    var t1, t2 := "-" + Pad2(m1) + "-" + Pad2(d1), "-" + Pad2(m2) + "-" + Pad2(d2);
    DigitStringsOrder(a1, a2);
    StrLessAppend(a1, a2, t1, t2);
    MonthDayOrder(m1, d1, m2, d2);
  }

  /** A date value is the four-digit year followed by its "-MM-DD" tail. */
  lemma FormatDateSplit(y: nat, m: nat, d: nat)
    requires 1000 <= y <= 9999
    ensures |Decimal(y)| == 4
    ensures FormatDate(y, m, d) == Decimal(y) + ("-" + Pad2(m) + "-" + Pad2(d))
  {
    DigitCountRanges(y);
    RegroupTail(Decimal(y), Pad2(m), Pad2(d));
  }

  lemma RegroupTail(a: string, b: string, c: string)
    ensures a + "-" + b + "-" + c == a + ("-" + b + "-" + c)
  {
  }

  /** Two dates with four-digit years give the same value only when they are the same date. */
  lemma FormatDateInjective(y1: nat, m1: nat, d1: nat, y2: nat, m2: nat, d2: nat)
    requires 1000 <= y1 <= 9999 && 1000 <= y2 <= 9999
    requires m1 < 100 && m2 < 100 && d1 < 100 && d2 < 100
    ensures FormatDate(y1, m1, d1) == FormatDate(y2, m2, d2) <==> y1 == y2 && m1 == m2 && d1 == d2
  {
    FormatDateOrder(y1, m1, d1, y2, m2, d2);
    FormatDateOrder(y2, m2, d2, y1, m1, d1);
    StrLessIrreflexive(FormatDate(y1, m1, d1));
  }

  /** A shared leading dash leaves the comparison to what follows. */
  lemma DashThen(s: string, t: string)
    ensures StrLess("-" + s, "-" + t) <==> StrLess(s, t)
    ensures "-" + s == "-" + t <==> s == t
  {
    assert ("-" + s)[1..] == s && ("-" + t)[1..] == t;
  }

  // ---------------------------------------------------------------------------------------
  // `handleSubmit`: the record passed on to payment
  // ---------------------------------------------------------------------------------------

  const PinnedLocationLabel: string := "\n\n\U{1F4CD} Pinned Location: "

  /** The customer record as submitted: a delivery keeps its map pin and coordinates, drops
      any pickup location, and appends the pin link to the address; a pickup drops the pin
      and coordinates and keeps its address. Every other field is the form's. */
  function SanitizeCustomer(form: Customer): (c: Customer)
    ensures c == form.(address := c.address, googleMapsLink := c.googleMapsLink,
                       latitude := c.latitude, longitude := c.longitude, pickupLocation := c.pickupLocation)
    ensures form.orderType == Delivery ==>
              && c.pickupLocation == ""
              && c.googleMapsLink == form.googleMapsLink
              && c.latitude == form.latitude && c.longitude == form.longitude
              && c.address == form.address + (if form.googleMapsLink == "" then "" else PinnedLocationLabel + form.googleMapsLink)
    ensures form.orderType == Pickup ==>
              && c.pickupLocation == form.pickupLocation
              && c.googleMapsLink == "" && c.latitude == None && c.longitude == None
              && c.address == form.address
    ensures c.pickupLocation == "" || (c.googleMapsLink == "" && c.latitude == None && c.longitude == None)
  {
    var isDelivery := form.orderType == Delivery;
    var finalAddress :=
      if isDelivery then form.address + (if form.googleMapsLink != "" then PinnedLocationLabel + form.googleMapsLink else "")
      else form.address;
    form.(address := finalAddress,
          googleMapsLink := if isDelivery then form.googleMapsLink else "",
          latitude := if isDelivery then form.latitude else None,
          longitude := if isDelivery then form.longitude else None,
          pickupLocation := if isDelivery then "" else form.pickupLocation)
  }

  /** An order line as submitted: the catalogue name (undefined for an unknown id) and the
      quantity. */
  datatype DraftItem = DraftItem(name: Option<string>, quantity: int)

  datatype DraftOrder = DraftOrder(customer: Customer, items: seq<DraftItem>, total: real, status: string)

  function DraftItems(cart: Cart, catalog: seq<CatalogItem>): (items: seq<DraftItem>)
    ensures |items| == |cart|
    ensures forall i :: 0 <= i < |cart| ==>
              items[i].quantity == cart[i].qty
              && (items[i].name.Some? <==> FindItem(catalog, cart[i].id).Some?)
              && (items[i].name.Some? ==> items[i].name.value == FindItem(catalog, cart[i].id).value.name)
  {
    if cart == [] then []
    else
      var item := FindItem(catalog, cart[0].id);
      [DraftItem(if item.Some? then Some(item.value.name) else None, cart[0].qty)] + DraftItems(cart[1..], catalog)
  }

  /** The order handed to the payment page: the sanitised customer, one line per cart entry
      in cart order, the total price and status "New". */
  function SubmitOrder(form: Customer, cart: Cart, catalog: seq<CatalogItem>, distanceKm: real): (o: DraftOrder)
    ensures o.status == "New"
    ensures o.customer == SanitizeCustomer(form)
    ensures |o.items| == |cart| && forall i :: 0 <= i < |cart| ==> o.items[i].quantity == cart[i].qty
    ensures o.items == DraftItems(cart, catalog)
    ensures o.total == ItemsTotal(cart, catalog) + DeliveryFee(form.orderType, form.latitude, form.longitude, distanceKm)
  {
    DraftOrder(SanitizeCustomer(form), DraftItems(cart, catalog),
               TotalPrice(cart, catalog, form.orderType, form.latitude, form.longitude, distanceKm), "New")
  }
}
