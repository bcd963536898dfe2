/** The order-tracking page (app/track-order/page.tsx): the progress step and the headline an
    order's status shows, which steps of the timeline appear, and the search guard. */
module Tracking {
  import opened Wrappers
  import opened Text

  /** The statuses the page knows; any other stored status is kept verbatim. */
  datatype Status = New | Pending | Processing | Releasing | Completed | Cancelled | Other(name: string)

  function StatusName(s: Status): string {
    match s
    case New => "New"
    case Pending => "Pending"
    case Processing => "Processing"
    case Releasing => "Releasing"
    case Completed => "Completed"
    case Cancelled => "Cancelled"
    case Other(name) => name
  }

  predicate IsKnownName(name: string) {
    name in ["New", "Pending", "Processing", "Releasing", "Completed", "Cancelled"]
  }

  /** Reading a stored status; `Other` holds exactly the names the page does not know, and the
      name is recovered unchanged. */
  function Classify(name: string): (s: Status)
    ensures StatusName(s) == name
    ensures s.Other? <==> !IsKnownName(name)
  {
    if name == "New" then New
    else if name == "Pending" then Pending
    else if name == "Processing" then Processing
    else if name == "Releasing" then Releasing
    else if name == "Completed" then Completed
    else if name == "Cancelled" then Cancelled
    else Other(name)
  }

  /** Classifying the name of a status that `Classify` can produce gives it back. */
  lemma ClassifyName(s: Status)
    requires s.Other? ==> !IsKnownName(s.name)
    ensures Classify(StatusName(s)) == s
  {
  }

  /** The looked-up order: its stored status and the customer's `orderType`, when there is one. */
  datatype TrackedOrder = TrackedOrder(trackingNumber: string, status: string, orderType: Option<string>)

  predicate IsDelivery(o: TrackedOrder) {
    o.orderType == Some("delivery")
  }

  /** `getProgress`: the timeline step reached. */
  function Progress(order: Option<TrackedOrder>): (p: int)
    ensures 0 <= p <= 4
    ensures order.None? ==> p == 0
    ensures order.Some? ==>
              p == match Classify(order.value.status)
                   case New => 1
                   case Pending => 1
                   case Processing => 2
                   case Releasing => 3
                   case Completed => 4
                   case _ => 0
  {
    if order.None? then 0
    else
      var status := order.value.status;
      if status == "New" || status == "Pending" then 1
      else if status == "Processing" then 2
      else if status == "Releasing" then 3
      else if status == "Completed" then 4
      else 0
  }

  /** A cancelled order, and one in a status the page does not know, sits at step 0. */
  lemma NoProgressOffTrack(o: TrackedOrder)
    ensures Classify(o.status) == Cancelled ==> Progress(Some(o)) == 0
    ensures Classify(o.status).Other? ==> Progress(Some(o)) == 0
    ensures Progress(Some(o)) == 0 <==> Classify(o.status) == Cancelled || Classify(o.status).Other?
  {
  }

  /** `getStatusText`: the headline. The last two steps read differently for delivery and for
      pickup; a status the page does not know is shown as stored. */
  function StatusText(order: Option<TrackedOrder>): (t: string)
    ensures order.None? ==> t == ""
    ensures order.Some? ==>
              t == match Classify(order.value.status)
                   case New => "Order Received"
                   case Pending => "Order Received"
                   case Processing => "Baking"
                   case Releasing => if IsDelivery(order.value) then "Out for Delivery" else "Ready for Pickup"
                   case Completed => if IsDelivery(order.value) then "Delivered" else "Picked Up"
                   case Cancelled => "Cancelled"
                   case Other(name) => name
  {
    if order.None? then ""
    else
      var o := order.value;
      if o.status == "New" || o.status == "Pending" then "Order Received"
      else if o.status == "Processing" then "Baking"
      else if o.status == "Releasing" then (if IsDelivery(o) then "Out for Delivery" else "Ready for Pickup")
      else if o.status == "Completed" then (if IsDelivery(o) then "Delivered" else "Picked Up")
      else if o.status == "Cancelled" then "Cancelled"
      else o.status
  }

  /** The headline of an order whose status the page knows is one of its fixed texts, never the
      stored status unless the status is unknown. */
  lemma StatusTextEchoesOnlyUnknown(o: TrackedOrder)
    requires !IsKnownName(o.status)
    ensures StatusText(Some(o)) == o.status
  {
  }

  /** `isCancelled`. */
  predicate IsCancelled(order: Option<TrackedOrder>) {
    order.Some? && order.value.status == "Cancelled"
  }

  /** Timeline step `k` (1..4) is on screen: without an order no result panel is drawn at all;
      the cancellation panel replaces the whole timeline; otherwise step 1 is always drawn and
      steps 2 to 4 only once reached. */
  predicate StepShown(order: Option<TrackedOrder>, k: int) {
    order.Some? && !IsCancelled(order) && 1 <= k <= 4 && (k == 1 || Progress(order) >= k)
  }

  /** Step `k` is drawn in black, as reached. */
  predicate StepReached(order: Option<TrackedOrder>, k: int) {
    StepShown(order, k) && Progress(order) >= k
  }

  /** The steps on screen are a prefix 1..n of the timeline, and the reached ones a prefix of
      those. */
  lemma StepsFormPrefix(order: Option<TrackedOrder>, j: int, k: int)
    requires 1 <= j <= k
    ensures StepShown(order, k) ==> StepShown(order, j)
    ensures StepReached(order, k) ==> StepReached(order, j)
  {
  }

  /** Exactly the steps up to the progress reached are on screen (step 1 at least); no order and
      a cancelled order show none. */
  lemma StepsShownIff(order: Option<TrackedOrder>, k: int)
    ensures order.None? ==> !StepShown(order, k)
    ensures IsCancelled(order) ==> !StepShown(order, k)
    ensures order.Some? && !IsCancelled(order) ==>
              (StepShown(order, k) <==> 1 <= k <= (if Progress(order) >= 1 then Progress(order) else 1))
  {
  }

  /** `handleSearch`: a blank or whitespace-only id starts no lookup; otherwise the lookup uses the
      trimmed id. */
  function SearchKey(searchId: string): (key: Option<string>)
    ensures key.None? <==> forall i :: 0 <= i < |searchId| ==> IsSpace(searchId[i])
    ensures key.Some? ==> key.value != [] && !IsSpace(key.value[0]) && !IsSpace(key.value[|key.value| - 1])
    ensures key.Some? ==> key.value == Trim(searchId)
  {
    var t := Trim(searchId);
    if t == "" then None else Some(t)
  }

  /** Searching again with the key that was looked up looks up the same key. */
  lemma SearchKeyStable(searchId: string)
    ensures SearchKey(searchId).Some? ==> SearchKey(SearchKey(searchId).value) == SearchKey(searchId)
  {
    TrimIdempotent(searchId);
  }
}
