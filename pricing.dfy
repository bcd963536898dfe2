/** The delivery fee tier shared by the checkout page and the dashboard: a flat fee within
    5 km of the store and 6 more for every started kilometre beyond. The great-circle distance
    itself is an input here. */
module Pricing {
  import opened Wrappers
  import opened OrderRecords

  const BaseFee: real := 50.0
  const FlatRadiusKm: real := 5.0
  const FeePerExtraKm: real := 6.0

  /** `Math.ceil`: the least integer not below `x`. */
  function Ceil(x: real): (c: int)
    ensures c as real >= x && (c as real) - 1.0 < x
  {
    -((-x).Floor)
  }

  /** The fee for a delivery `d` km away: never below the base fee, and equal to it exactly
      within the flat radius. */
  function FeeForDistance(d: real): (fee: real)
    ensures fee >= BaseFee
    ensures fee == BaseFee <==> d <= FlatRadiusKm
  {
    if d <= FlatRadiusKm then BaseFee
    else BaseFee + (Ceil(d - FlatRadiusKm) as real) * FeePerExtraKm
  }

  /** Beyond the flat radius, `k` started kilometres cost `k` surcharges. */
  lemma FeeBand(d: real, k: int)
    requires k >= 1 && (k - 1) as real < d - FlatRadiusKm <= k as real
    ensures FeeForDistance(d) == BaseFee + (k as real) * FeePerExtraKm
  {
    var c := Ceil(d - FlatRadiusKm);
    assert c == k;
  }

  /** The fee never decreases as the distance grows. */
  lemma FeeMonotone(d1: real, d2: real)
    requires d1 <= d2
    ensures FeeForDistance(d1) <= FeeForDistance(d2)
  {
    if d1 > FlatRadiusKm {
      var c1, c2 := Ceil(d1 - FlatRadiusKm), Ceil(d2 - FlatRadiusKm);
      assert c1 <= c2;
    }
  }

  /** 5.2 km pays one surcharge, 6 km one, 7 km two. */
  lemma FeeExamples()
    ensures FeeForDistance(5.0) == 50.0
    ensures FeeForDistance(5.2) == 56.0
    ensures FeeForDistance(6.0) == 56.0
    ensures FeeForDistance(7.0) == 62.0
  {
    FeeBand(5.2, 1);
    FeeBand(6.0, 1);
    FeeBand(7.0, 2);
  }

  /** The fee charged for an order: nothing unless it is a delivery with both coordinates set
      (JavaScript truthiness, so a 0 coordinate counts as unset), otherwise the tier for the
      distance computed from those coordinates. */
  function DeliveryFee(orderType: OrderType, lat: Option<real>, lng: Option<real>, distanceKm: real): (fee: real)
    ensures orderType == Pickup || !Truthy(lat) || !Truthy(lng) ==> fee == 0.0
    ensures orderType == Delivery && Truthy(lat) && Truthy(lng) ==> fee >= BaseFee
    ensures orderType == Delivery && Truthy(lat) && Truthy(lng) && distanceKm <= FlatRadiusKm ==> fee == BaseFee
    ensures orderType == Delivery && Truthy(lat) && Truthy(lng) ==> fee == FeeForDistance(distanceKm)
  {
    if orderType != Delivery || !Truthy(lat) || !Truthy(lng) then 0.0
    else FeeForDistance(distanceKm)
  }

  /** A delivery with both coordinates set that lies `k` started kilometres beyond the flat
      radius is charged the base fee plus `k` surcharges. */
  lemma DeliveryFeeBand(lat: Option<real>, lng: Option<real>, distanceKm: real, k: int)
    requires Truthy(lat) && Truthy(lng)
    requires k >= 1 && (k - 1) as real < distanceKm - FlatRadiusKm <= k as real
    ensures DeliveryFee(Delivery, lat, lng, distanceKm) == BaseFee + (k as real) * FeePerExtraKm
  {
    FeeBand(distanceKm, k);
  }
}
