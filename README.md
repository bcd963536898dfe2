# Bakery storefront business rules in Dafny

This project models the business rules of a small cookie bakery's web storefront. The
storefront is a client-rendered site: customers build a cart, choose delivery or pickup and a
date, pay (optionally with a voucher), track their order, rate cookies and send messages; the
owner works through an admin dashboard. The rules live inside the pages' event handlers; here
they are lifted out as functions, methods and classes over records, with the database, the
browser and the e-mail service turned into parameters.

One Dafny module per page or component:

- `AdminStats` (admin_stats.dfy) — the dashboard's statistics fold: orders counted and summed
  per "YYYY-MM" month, boxes sold per product and in total, the best seller. Written as the
  source's loops over maps, proved against recursive specification functions.
- `AdminOrders` (admin_orders.dfy) — the order list's sort (fulfilment date, then the time
  parsed from the time window by `getTimeVal`), the status filter, the manual total override
  bookkeeping and the local removal after a delete.
- `Pricing` (pricing.dfy) — the delivery fee tier, a function of the distance (shared by the
  dashboard and the checkout).
- `Checkout` (checkout.dfy) — the cart quantity update, the totals, the dates offered for
  delivery or pickup with their 22:00 cutoff, the "YYYY-MM-DD" date values and the order
  record assembled on submit.
- `Payment` (payment.dfy) — the hard-coded voucher check of the payment page and the record
  saved on "Confirm".
- `VoucherInput` (voucher_input.dfy) — the database-backed voucher box: lookup, the four
  checks in order and the capped discount.
- `Tracking` (tracking.dfy) — the order-tracking page's progress step, headline, timeline
  visibility and search guard.
- `MenuRatings` (menu_ratings.dfy) — the menu's rating fold (average of four scores per
  feedback entry, averaged per product) and the star fill.
- `Carousel` (carousel.dfy) — cutting the testimonials into slides and the wrap-around arrows.
- `Contact` (contact.dfy) — the e-mail address pattern and the contact form's send guards.
- `FeedbackForm` (feedback_form.dfy) — the two-step feedback form, its ratings map and its
  submit guard.

Shared modules: `Wrappers` (Option and JavaScript truthiness of optional numbers),
`Text` (whitespace, digits, decimal numerals, code-point string order, trimming),
`Seqs` (filtering and subsequences), `Clock` (local time as milliseconds, day indices and
weekdays) and `OrderRecords` (the stored order and customer records).

Modelling conventions:

- Money, scores and distances are `real`. A field the source reads through `Number(x) || 0`
  is an `Option<real>`, None standing for a value that is not a number.
- Time is local milliseconds; day `d` starts at `d * 86400000` and day 0 is Sunday
  1969-12-28, so `Weekday(d) == d % 7` agrees with JavaScript's `getDay()`.
- `localeCompare` on the date and month keys is modelled as code-point order, which agrees
  with it on the fixed-width digit strings the pages compare.
- The cart object `{ [id]: qty }` is a list of entries in ascending id order, the order in
  which JavaScript enumerates integer keys.
- A database read is an input sequence of rows; a write or a call into a library is a field
  of the modelling class that records what was written or sent (`sent`, `applied`,
  `submissions`), with the library's answer a parameter.

## Model

| member | source | states |
|---|---|---|
| AdminStats.ComputeStats | app/admin/page.tsx:42-88 | No orders give no months, no best seller and 0 boxes; the months come out in strictly ascending key order, exactly the months some order falls in, each with its order count and summed final totals (non-numbers as 0); total boxes is the sum of all item quantities; the best seller is the first product, in first-seen order, with the largest total |
| AdminStats.MonthEntries | app/admin/page.tsx:49-56 | One (month key, total) entry per order |
| AdminStats.FoldOrders | app/admin/page.tsx:49-65 | After the pass every month bucket holds the count and revenue of its orders, every product total the quantities of its items, and the box count all quantities |
| AdminStats.AddOrder | app/admin/page.tsx:50-64 | One order's pass keeps the buckets, product totals and box count equal to the sums over the orders seen so far |
| AdminStats.MonthStep | app/admin/page.tsx:54-56 | One more order raises its month's count by one and its revenue by its total, leaves other months alone, and appends its month key when new |
| AdminStats.EntriesStep | app/admin/page.tsx:51-56 | One more order appends its own month entry |
| AdminStats.AllItemsStep | app/admin/page.tsx:59-64 | One more order appends its items |
| AdminStats.AddToBucket | app/admin/page.tsx:51-56 | Adding one order keeps every month bucket equal to the count and revenue of the orders seen so far in that month |
| AdminStats.AddItems | app/admin/page.tsx:59-64 | Adding one order's items keeps every product total and the box total equal to the sums over the items seen so far |
| AdminStats.SortedBuckets | app/admin/page.tsx:68-69 | The buckets listed in ascending key order are exactly the months some order falls in, each with its count and revenue |
| AdminStats.PickBestSeller | app/admin/page.tsx:80-85 | The loop with the strict `>` picks exactly the best seller of the specification |
| AdminStats.KeysOf | app/admin/page.tsx:68-78 | The keys of the monthly list, position by position |
| AdminStats.InsertKey | app/admin/page.tsx:68-69 | Inserting a key into a sorted key list adds exactly that key |
| AdminStats.SortKeys | app/admin/page.tsx:68-69 | Sorting the month keys permutes them |
| AdminStats.SortKeysSameKeys | app/admin/page.tsx:68-69 | Sorting keeps exactly the same set of month keys |
| AdminStats.InsertKeySorted | app/admin/page.tsx:68-69 | Inserting a new key into a strictly ascending list keeps it strictly ascending |
| AdminStats.SortKeysSorted | app/admin/page.tsx:68-69 | Distinct month keys come out strictly ascending |
| AdminStats.MonthKeysDistinct | app/admin/page.tsx:54 | A month gets one bucket however many orders fall in it |
| AdminStats.MonthCountOutside | app/admin/page.tsx:54-56 | A month without a bucket has no orders and no revenue |
| AdminStats.MonthCountInside | app/admin/page.tsx:54-55 | Every bucket counts at least one order |
| AdminStats.CountSumStep | app/admin/page.tsx:55 | One more order raises the summed bucket counts by exactly one when its month is listed |
| AdminStats.MonthCountsSum | app/admin/page.tsx:49-55 | Each order adds 1 to exactly one bucket, so the bucket counts sum to the number of orders |
| AdminStats.NameTotalOutside | app/admin/page.tsx:62 | A product that never appears has total 0 |
| AdminStats.NamesDistinct | app/admin/page.tsx:62 | Each product name has one entry in the product map |
| AdminStats.TotalsSumStep | app/admin/page.tsx:62-63 | One more item raises the summed product totals by its quantity |
| AdminStats.BoxesArePerProductTotals | app/admin/page.tsx:59-64 | The total boxes equal the sum of the per-product totals |
| AdminStats.BestOfIsMaximal | app/admin/page.tsx:80-85 | The best seller's count is non-negative and at least every product's total |
| AdminStats.BestOfIsFirstMaximum | app/admin/page.tsx:80-85 | A best seller with a positive count is one of the products |
| AdminStats.NoSalesYet | app/admin/page.tsx:80-85 | The result is "No sales yet" with count 0 exactly when no product total is positive |
| AdminOrders.FirstDigit | app/admin/page.tsx:128 | The time pattern's match starts at the first digit of the window |
| AdminOrders.HourEnd | app/admin/page.tsx:128 | The hour is one or two digits, two when there are two |
| AdminOrders.Minutes | app/admin/page.tsx:131 | The optional two-digit minutes are below 100 |
| AdminOrders.SkipSpaces | app/admin/page.tsx:128 | `\s*` consumes exactly the white space after the hour or minutes |
| AdminOrders.TimeValue | app/admin/page.tsx:126-136 | `getTimeVal` gives 9999 exactly when the window holds no digit, and otherwise a value in 0..99·60+99 |
| AdminOrders.ClockValue | app/admin/page.tsx:129-135 | From a first digit on, the value is an hour below 100 times 60 plus minutes below 100 |
| AdminOrders.MinutesEnd | app/admin/page.tsx:127 | The optional `:mm` never runs past the end of the window |
| AdminOrders.MinutesValue | app/admin/page.tsx:130 | Minutes that are not written count as 0; written ones are below 100 |
| AdminOrders.FirstDigitAt | app/admin/page.tsx:127 | After text without digits, the match starts at the first hour digit |
| AdminOrders.HourEndAt | app/admin/page.tsx:127 | `\d{1,2}` takes both digits of a two-digit hour, and one digit when no digit follows it |
| AdminOrders.MinutesAt | app/admin/page.tsx:127 | `(?::(\d{2}))?` is taken exactly when a colon and two digits follow the hour, and then reads those two digits |
| AdminOrders.SkipSpacesAt | app/admin/page.tsx:127 | `\s*` consumes exactly a run of spaces that a non-space or the end closes |
| AdminOrders.MeridiemShift | app/admin/page.tsx:127 | The meridiem after the spaces is the one the rest of the window starts with |
| AdminOrders.TimeValueOfParts | app/admin/page.tsx:126-135 | For any window made of text without digits, a one- or two-digit hour, optional `:mm`, spaces and a rest: the value is the hour adjusted by the am/pm/AM/PM that the rest starts with (none otherwise), times 60, plus the minutes (0 when absent) |
| AdminOrders.TimeValueOfLayout | app/admin/page.tsx:128-135 | A window written `h:mm xx` is worth h·60+m, with the hour adjusted by the am/pm suffix |
| AdminOrders.TimeValueOfClockTime | app/admin/page.tsx:133-135 | For a 12-hour clock time `h:mm am/pm` the value is minutes since midnight, 12 am being 0 and pm hours below 12 adding 12 |
| AdminOrders.AdjustHourTwelve | app/admin/page.tsx:133-134 | The am/pm adjustment turns 12-hour clock hours into 24-hour hours |
| AdminOrders.SuffixMeridiem | app/admin/page.tsx:128-132 | The suffixes "am" and "pm" are recognised as such |
| AdminOrders.MorningWindow | app/admin/page.tsx:126-136 | The checkout's "10AM - 12PM" label sorts at 10:00 |
| AdminOrders.AfternoonWindow | app/admin/page.tsx:126-136 | The checkout's "1PM - 4PM" label sorts at 13:00 (the PM shift applies) |
| AdminOrders.CompareSign | app/admin/page.tsx:119-138 | The comparator is negative, zero or positive exactly when the first order sorts before, level with or after the second (date, missing as "9999-12-31", then time) |
| AdminOrders.BeforeTransitive | app/admin/page.tsx:119-138 | The comparator's "not before" is transitive, so it is a consistent order |
| AdminOrders.Insert | app/admin/page.tsx:119 | Inserting an order adds exactly that order |
| AdminOrders.SortOrders | app/admin/page.tsx:119 | Sorting permutes the orders |
| AdminOrders.InsertSorted | app/admin/page.tsx:119-138 | Inserting into a sorted list keeps it sorted |
| AdminOrders.InsertFrontSorted | app/admin/page.tsx:119-138 | An order that does not compare after the head of a sorted list can go in front and the list stays sorted |
| AdminOrders.InsertLaterSorted | app/admin/page.tsx:119-138 | An order that compares after the head goes behind it: the head followed by a sorted insertion into the tail is sorted |
| AdminOrders.SortOrdersSorted | app/admin/page.tsx:119-138 | The sorted list is ordered by date, then time |
| AdminOrders.WithKeyCons | app/admin/page.tsx:119 | The orders with a given sort key of a list with one more order in front |
| AdminOrders.InsertStable | app/admin/page.tsx:119 | Inserting keeps orders with equal keys in their relative order |
| AdminOrders.SortOrdersStable | app/admin/page.tsx:119 | The sort is stable: orders with equal date and time keep their original order |
| AdminOrders.FilterByStatus | app/admin/page.tsx:90 | "All" keeps every order; any other filter keeps exactly the orders with that status, as many times as they occur, in their original order |
| AdminOrders.RemoveOrder | app/admin/page.tsx:269 | Removal drops exactly the orders with that id and keeps every other order, in order |
| AdminOrders.UpdateOrderTotal | app/admin/page.tsx:228-244 | Setting the total back to its baseline clears the manual flag and the original; any other total sets the flag and records the baseline (the current total on the first override); nothing else in the customer changes, and a kept original always differs from the total in force |
| AdminOrders.OverrideThenRevert | app/admin/page.tsx:228-244 | Overriding and then setting the old total back restores the customer record |
| AdminOrders.OriginalSurvivesOverrides | app/admin/page.tsx:229-243 | Successive overrides keep the total from before the first one as the original |
| Pricing.Ceil | app/admin/page.tsx:171 | `Math.ceil`: the least integer not below the argument |
| Pricing.FeeForDistance | app/admin/page.tsx:168-172 | The fee is at least 50, and exactly 50 when the distance is at most 5 km |
| Pricing.FeeBand | app/admin/page.tsx:171 | Beyond 5 km, each started kilometre adds 6 |
| Pricing.FeeMonotone | app/admin/page.tsx:168-172 | The fee never decreases as the distance grows |
| Pricing.FeeExamples | app/order/page.tsx:124-128 | 5 km costs 50, 5.2 and 6 km cost 56, 7 km costs 62 |
| Pricing.DeliveryFee | app/admin/page.tsx:155-172 | The fee is 0 for pickup or missing coordinates; a delivery with coordinates pays exactly the distance tier `FeeForDistance`, so at least 50 and exactly 50 within 5 km |
| Pricing.DeliveryFeeBand | app/order/page.tsx:124-128 | A delivery with coordinates more than k-1 and at most k km beyond the flat radius pays 50 plus k times the per-km fee |
| Checkout.FindItem | app/order/page.tsx:104 | The item found has the id and comes from the catalogue; none is found exactly when no item has the id |
| Checkout.PriceOf | app/order/page.tsx:104-105 | A price is never 0: an unknown id or a zero price falls back to 4.00 |
| Checkout.Ids | app/order/page.tsx:102-103 | The cart's ids, entry by entry |
| Checkout.FirstIdSmallest | app/order/page.tsx:95 | In the cart's key order the first id is below every later one |
| Checkout.FirstLineSmallest | app/order/page.tsx:95 | The first entry's id is below every later entry's |
| Checkout.QtyAbsent | app/order/page.tsx:93 | An id the cart lacks reads as quantity 0 |
| Checkout.Put | app/order/page.tsx:95 | Setting a key yields entries that are the new one or old ones |
| Checkout.PutReads | app/order/page.tsx:95 | After setting a key, that key reads the new quantity and every other key its old one |
| Checkout.Remove | app/order/page.tsx:96 | Deleting a key keeps only old entries, none with that id |
| Checkout.RemoveReads | app/order/page.tsx:96 | After deleting a key, it is absent and every other key is unchanged |
| Checkout.ConsAscending | app/order/page.tsx:95-96 | An entry whose id is below every id of an ascending cart can go in front of it |
| Checkout.PutFacts | app/order/page.tsx:95 | After setting a key: that key reads the new quantity, every other key its old one, and the item count and items total change by that key's difference |
| Checkout.RemoveFacts | app/order/page.tsx:96 | After deleting a key: it reads 0 and is absent, every other key is unchanged, and the item count and items total drop by that key's share |
| Checkout.TotalsAfterPut | app/order/page.tsx:102-107 | Setting a key changes the item count and the items total by exactly that key's difference |
| Checkout.TotalsAfterRemove | app/order/page.tsx:102-107 | Deleting a key lowers the item count and the items total by exactly that key's share |
| Checkout.UpdateQuantity | app/order/page.tsx:91-99 | The quantity becomes max(0, old + delta) and the key is deleted at 0; every other key is unchanged; a cart of positive quantities stays so; the totals change by that key's difference only |
| Checkout.CanPlaceOrderIffNonEmpty | app/order/page.tsx:484 | "Place Order" is enabled (item count not 0) exactly when a cart of positive quantities is not empty |
| Checkout.PositiveTotal | app/order/page.tsx:102 | With positive quantities the item count is never negative |
| Checkout.TotalPrice | app/order/page.tsx:131 | The total is the items total plus the delivery fee: the items total alone for pickup, plus the distance tier for a delivery with coordinates, and never less than the items total |
| Checkout.AvailableDates | app/order/page.tsx:134-167 | Pickup without a location gives no dates; otherwise the dates are exactly the days among today..today+29 whose weekday the channel serves and whose 22:00 cutoff the day before has not passed, strictly increasing and at most 30 |
| Checkout.TodayNeverOffered | app/order/page.tsx:156-162 | Today is never offered, its cutoff having passed |
| Checkout.CutoffOnlyAffectsTomorrow | app/order/page.tsx:146-162 | Tomorrow is offered on a served weekday until 22:00 today; later days only depend on the weekday |
| Checkout.FormatDate | app/order/page.tsx:373 | A four-digit year with month and day gives a ten-character "YYYY-MM-DD" value |
| Checkout.FormatDateSplit | app/order/page.tsx:373 | A date value with a four-digit year is those four digits followed by the "-MM-DD" tail |
| Checkout.MonthDayOrder | app/order/page.tsx:373 | The "-MM-DD" tails compare as strings exactly as (month, day) pairs compare |
| Checkout.FormatDateOrder | app/order/page.tsx:373 | The date values compare as strings exactly as the dates compare |
| Checkout.FormatDateInjective | app/order/page.tsx:373 | Two date values are equal exactly when the dates are |
| Checkout.DashThen | app/order/page.tsx:373 | A common "-" prefix does not change string order or equality |
| Checkout.SanitizeCustomer | app/order/page.tsx:174-188 | A delivery drops the pickup location and appends the pin link to the address; a pickup drops the pin and the coordinates; no field else changes, and never are both a pickup location and delivery details kept |
| Checkout.DraftItems | app/order/page.tsx:192-195 | One line per cart entry, in cart order, with its quantity and its catalogue name when there is one |
| Checkout.SubmitOrder | app/order/page.tsx:190-198 | The record has status "New", the sanitised customer, exactly the `DraftItems` lines (one per cart entry, in order, with the catalogue name and the quantity) and the items total plus the fee |
| Payment.ExpectedSuffix | app/payment/page.tsx:60-61 | The canonical writing of a number: digits that read back as the number, two or three of them for 1..100 |
| Payment.CheckVoucher | app/payment/page.tsx:29-73 | After the expiry every code is expired, before any other check; a code not matching `2025-` and two or three digits is a bad format; a matching code whose number is outside 1..100 is out of range; an in-range number not written canonically is a bad format; a used code is refused as used; an accepted code matches and is not a used one |
| Payment.AcceptedCodeShape | app/payment/page.tsx:50-73 | An accepted code is `2025-` followed by the canonical writing of a number in 1..100 other than 22 and 50 |
| Payment.CanonicalCodeAccepted | app/payment/page.tsx:42-73 | Before the expiry, the canonical code of every number in 1..100 other than 22 and 50 is accepted |
| Payment.VoucherAcceptedIff | app/payment/page.tsx:29-78 | Before the expiry a code is accepted exactly when it is the canonical code of a number in 1..100 other than 22 and 50 |
| Payment.PaddedCodesRefused | app/payment/page.tsx:60-66 | "2025-005" and "2025-010" are refused as badly formatted |
| Payment.CanonicalCodesAccepted | app/payment/page.tsx:60-66 | "2025-05" and "2025-100" are accepted |
| Payment.UsedCodeRefused | app/payment/page.tsx:50-73 | "2025-22" and "2025-50" are both refused as used |
| Payment.UsedVouchersCanonical | app/payment/page.tsx:69 | Both used codes match the pattern, are in range and are written canonically, so only the used list refuses them |
| Payment.ZeroCodeRefused | app/payment/page.tsx:50-73 | "2025-000" is refused as out of range |
| Payment.PaymentPage.constructor | app/payment/page.tsx:29-31 | The page starts with no code, no discount and no message |
| Payment.PaymentPage.ApplyVoucher | app/payment/page.tsx:29-78 | The discount is exactly 50 when the check accepts the code and 0 otherwise, with the check's message; the code is untouched |
| Payment.ConfirmPayment | app/payment/page.tsx:81-115 | GCash or bank without a proof is refused; otherwise the record has final total = total − discount, status "Pending", the proof link only with a proof, and the voucher code exactly when the discount is positive |
| Payment.ConfirmedTotal | app/payment/page.tsx:105-113 | With the discounts the page can hold, the saved total differs from the order total exactly when a voucher code is recorded |
| VoucherInput.FindActive | components/VoucherInput.tsx:24-29 | `.single()`: a voucher is found exactly when one active row has the code, and then it is that row |
| VoucherInput.FindActiveNone | components/VoucherInput.tsx:24-35 | With no active row for the code nothing is found |
| VoucherInput.CappedDiscount | components/VoucherInput.tsx:59-68 | The discount never exceeds the cart total and is the uncapped amount whenever that fits |
| VoucherInput.Validate | components/VoucherInput.tsx:31-72 | Not found is "invalid or inactive"; a voucher is accepted exactly when it is found, not expired, not exhausted and not below the minimum, with the capped discount; each refusal implies every earlier check passed |
| VoucherInput.UnlimitedWithoutMax | components/VoucherInput.tsx:45 | With the usage limit absent or 0 a voucher is never fully redeemed, however often used |
| VoucherInput.PercentageWithinCart | components/VoucherInput.tsx:59-68 | A percentage of at most 100 on a non-negative cart is taken uncapped and stays within the cart |
| VoucherInput.FixedDiscount | components/VoucherInput.tsx:60-68 | A fixed voucher takes off its value, or the whole cart when the value is larger |
| VoucherInput.VoucherBox.constructor | components/VoucherInput.tsx:9-14 | The box starts empty, idle, with no message and no callback made |
| VoucherInput.VoucherBox.Edit | components/VoucherInput.tsx:89 | Typing replaces the code with the typed text upper-cased, and changes nothing else |
| Text.UpperChar | components/VoucherInput.tsx:89 | `toUpperCase()` on one character: a lower-case ASCII letter becomes its capital, anything else is kept; no lower-case ASCII letter comes out |
| Text.ToUpper | components/VoucherInput.tsx:89 | The upper-cased text has the same length, each character upper-cased in place, and no lower-case ASCII letter |
| Text.ToUpperIdempotent | components/VoucherInput.tsx:89 | Upper-casing twice is upper-casing once |
| Text.ToUpperIgnoresCase | components/VoucherInput.tsx:89 | Codes typed with different case but the same letters give the same upper-cased code |
| VoucherInput.CheckVoucher | components/VoucherInput.tsx:31-68 | The if-chain gives exactly the verdict of the ordered checks: missing row, expiry, usage limit, minimum spend, else the capped discount |
| VoucherInput.VoucherBox.HandleApply | components/VoucherInput.tsx:16-81 | An empty code changes nothing; otherwise the message and status follow the validation, loading ends false, and the callback is called once with the capped discount and the code exactly on success |
| Tracking.Classify | app/track-order/page.tsx:51-68 | Reading a status recovers its name; `Other` holds exactly the names the page does not know |
| Tracking.ClassifyName | app/track-order/page.tsx:51-68 | Every status the page distinguishes reads back as itself |
| Tracking.Progress | app/track-order/page.tsx:51-58 | No order is step 0; New and Pending 1, Processing 2, Releasing 3, Completed 4, anything else 0; always within 0..4 |
| Tracking.NoProgressOffTrack | app/track-order/page.tsx:51-58 | An order is at step 0 exactly when it is cancelled or in an unknown status |
| Tracking.StatusText | app/track-order/page.tsx:60-68 | The headline for each status, "Out for Delivery"/"Delivered" for deliveries and "Ready for Pickup"/"Picked Up" otherwise, and an unknown status echoed |
| Tracking.StatusTextEchoesOnlyUnknown | app/track-order/page.tsx:67 | An unknown status is shown verbatim |
| Tracking.StepsFormPrefix | app/track-order/page.tsx:175-226 | The steps on screen, and the ones drawn as reached, form a prefix of the timeline |
| Tracking.StepsShownIff | app/track-order/page.tsx:131-226 | Without an order, and for a cancelled order, no step is on screen; otherwise exactly steps 1..max(1, progress) are |
| Tracking.SearchKey | app/track-order/page.tsx:17-26 | A blank or white-space-only id starts no lookup; otherwise the key is the id without surrounding white space |
| Tracking.SearchKeyStable | app/track-order/page.tsx:26 | Searching again with the key looked up looks up the same key |
| MenuRatings.UnratedTotalZero | components/Menu.tsx:145-153 | A product no entry rates has total 0 |
| MenuRatings.AddEntryHolds | components/Menu.tsx:145-153 | One entry adds its mean to its product's total and 1 to its count, and leaves the other products alone |
| MenuRatings.AddRow | components/Menu.tsx:143-155 | Folding one feedback row keeps every product's total and count equal to the sums over the entries seen so far; a row without ratings adds nothing |
| MenuRatings.Finalize | components/Menu.tsx:158-164 | Every tallied product, and no other, gets its total divided by its count and its count |
| MenuRatings.AggregateRatings | components/Menu.tsx:141-165 | Exactly the products some entry rates appear, each with the number of entries rating it (at least 1) and the mean of their four-score means, non-numbers as 0 |
| MenuRatings.RowWithoutRatingsIgnored | components/Menu.tsx:143 | A row without ratings contributes no entry |
| MenuRatings.TotalBounds | components/Menu.tsx:151-152 | A product's total lies between its count times the smallest and the largest entry mean |
| MenuRatings.AverageBounds | components/Menu.tsx:161 | Every average lies between the smallest and the largest mean it averages |
| MenuRatings.QuotientBetween | components/Menu.tsx:161 | Dividing a total between count × lo and count × hi by a positive count lands between lo and hi |
| MenuRatings.AverageWithinStars | components/Menu.tsx:151-161 | With scores in 0..5 every average lies in 0..5 |
| MenuRatings.FillPercentage | components/Menu.tsx:229 | The fill of star k is within 0..100: 100 when the rating reaches k, 0 at or below k−1, the fraction in between |
| MenuRatings.FillMonotone | components/Menu.tsx:227-229 | A better rating never fills a star less, and a later star is never fuller than an earlier one |
| Carousel.ItemsPerSlide | components/Feedback.tsx:50 | One testimonial per slide exactly below 768 pixels, three otherwise |
| Carousel.MulMonotone | components/Feedback.tsx:63 | Multiplying by a slide size keeps the order of slide counts |
| Carousel.CeilingQuotient | components/Feedback.tsx:63-67 | The number of slices covering the list, the last partly, is the rounded-up quotient |
| Carousel.Chunk | components/Feedback.tsx:60-67 | The slides laid end to end give back the list; each holds 1 to `per` testimonials, all but the last exactly `per`; there are ⌈n/per⌉ of them |
| Carousel.SlideCounts | components/Feedback.tsx:5-67 | The six testimonials make six slides on a narrow screen and two on a wide one |
| Carousel.NextSlide | components/Feedback.tsx:75 | The next index stays in range, moving one on and wrapping from the last to the first |
| Carousel.PrevSlide | components/Feedback.tsx:76 | The previous index stays in range, moving one back and wrapping from the first to the last |
| Carousel.NextPrevInverse | components/Feedback.tsx:75-76 | On an index in range the two arrows undo each other |
| Carousel.ResetIndex | components/Feedback.tsx:69-73 | An index at or past the slide count goes back to 0; an index in range is kept |
| Contact.FirstAt | app/contact/page.tsx:23 | The position of the first '@', or none when there is no '@' |
| Contact.FirstAtIs | app/contact/page.tsx:23 | An '@' with none before it is the first |
| Contact.ValidEmailMatches | app/contact/page.tsx:23-24 | What the check accepts matches `^[^\s@]+@[^\s@]+\.[^\s@]+$` |
| Contact.PatternMatchesValid | app/contact/page.tsx:23-24 | Every split matching the pattern is accepted by the check |
| Contact.ValidEmailIff | app/contact/page.tsx:23-24 | The check accepts exactly the addresses the pattern matches |
| Contact.ValidEmailShape | app/contact/page.tsx:23 | An accepted address has exactly one '@', something before it, and no white space |
| Contact.OrdinaryEmailAccepted | app/contact/page.tsx:23 | "jane@example.com" is accepted |
| Contact.DotlessEmailsRefused | app/contact/page.tsx:23 | Any address without a '.' is refused |
| Contact.EmptyDomainLabelRefused | app/contact/page.tsx:23 | An address with nothing between the '@' and the dot ("jane@.com") is refused |
| Contact.PlainSlice | app/contact/page.tsx:23 | A piece of a run of `[^\s@]` characters is again such a run |
| Contact.NamelessEmailRefused | app/contact/page.tsx:23 | An address with nothing before the '@' is refused |
| Contact.DoubleAtEmailRefused | app/contact/page.tsx:23 | A second '@' is refused |
| Contact.SpacedEmailRefused | app/contact/page.tsx:23 | An address with a space is refused |
| Contact.ContactForm.constructor | app/contact/page.tsx:9-18 | The form starts empty, without error, success panel or sending |
| Contact.ContactForm.EditEmail | app/contact/page.tsx:152-155 | Typing replaces the address and clears the error; nothing else changes |
| Contact.ContactForm.Submit | app/contact/page.tsx:20-61 | An invalid address only sets the error, before any loading or send; a missing setting aborts with loading cleared and nothing sent; otherwise the form is sent once, loading ends, and only a delivery shows the success panel and empties the four fields |
| FeedbackForm.SetScore | app/feedback/page.tsx:353-356 | One criterion takes the new score and the other three keep theirs |
| FeedbackForm.WithRating | app/feedback/page.tsx:64-67 | The entry for the cookie is set, every other entry is kept, none is added, and the map is not empty |
| FeedbackForm.SaveOverwrites | app/feedback/page.tsx:64-67 | Saving twice for a cookie keeps only the later scores |
| FeedbackForm.FilledStarsFormPrefix | app/feedback/page.tsx:386 | The filled stars are the first ones, up to the hovered star when there is one and up to the value otherwise |
| FeedbackForm.FeedbackPage.constructor | app/feedback/page.tsx:14-34 | The page starts on step 1 with no ratings, no selection, all-zero scores and nothing submitted |
| FeedbackForm.FeedbackPage.InfoSubmit | app/feedback/page.tsx:46-50 | The details step moves on to step 2, keeping everything else |
| FeedbackForm.FeedbackPage.Back | app/feedback/page.tsx:161-163 | The back arrow returns to step 1, keeping every rating |
| FeedbackForm.FeedbackPage.OpenRatingModal | app/feedback/page.tsx:52-60 | The cookie is selected and its saved scores loaded, or all zeros when it has none |
| FeedbackForm.FeedbackPage.RateCriterion | app/feedback/page.tsx:353-382 | Clicking star s (1..5) sets that criterion to s and leaves the other three |
| FeedbackForm.FeedbackPage.CloseModal | app/feedback/page.tsx:337 | Closing the dialog clears the selection and keeps the saved ratings |
| FeedbackForm.FeedbackPage.SaveRating | app/feedback/page.tsx:62-70 | Without a selection nothing changes; otherwise the scores are stored under the cookie's name, every other entry kept, and the selection cleared |
| FeedbackForm.FeedbackPage.FinalSubmit | app/feedback/page.tsx:72-98 | With no cookie rated nothing is inserted and nothing changes; otherwise one row with the details, general feedback and ratings is inserted, submitting ends, and the thank-you screen shows only when the insert succeeded |
| Clock.Weekday | app/order/page.tsx:143 | `getDay()`: a weekday in 0..6 |
| Seqs.Filter | app/admin/page.tsx:90 | `Array.prototype.filter`: keeps exactly the elements satisfying the predicate, as often as they occur, in order |
| Seqs.FilterKeepsAll | app/admin/page.tsx:90 | A filter every element passes keeps the whole list |
| Seqs.FilterIdempotent | app/admin/page.tsx:90 | Filtering twice is filtering once |
| Text.DigitValue | app/admin/page.tsx:130 | A digit's value is below 10 |
| Text.DigitChar | app/order/page.tsx:373 | The digit written for a value below 10 reads back as that value |
| Text.ParseDigitsShort | app/admin/page.tsx:130-131 | One or two digits read as a number below 100 |
| Text.Decimal | app/payment/page.tsx:60 | `toString()` of a natural number: digits without a leading zero that read back as the number |
| Text.DigitCountRanges | app/payment/page.tsx:59-61 | Numbers below 10, 100, 1000 and 10000 take one to four digits |
| Text.Pad2 | app/order/page.tsx:373 | `padStart(2, '0')`: digits that read back as the number, exactly two below 100 |
| Text.ZeroPrefix | app/payment/page.tsx:61 | A leading "0" does not change the value read |
| Text.StrLessIrreflexive | app/admin/page.tsx:123 | No key sorts before itself |
| Text.StrLessAsymmetric | app/admin/page.tsx:123 | Two keys never sort before each other |
| Text.StrLessTransitive | app/admin/page.tsx:123 | The key order is transitive |
| Text.StrLessTotal | app/admin/page.tsx:69 | Any two different keys are ordered one way or the other |
| Text.StrLessAppend | app/order/page.tsx:373 | Strings starting with pieces of equal length compare by those pieces first, and by the rests only when the pieces are equal |
| Text.DigitStringsOrder | app/admin/page.tsx:52-69 | Digit strings of equal length compare as strings exactly as their numbers compare |
| Text.TrimStart | app/track-order/page.tsx:17 | Leading white space removed, and only that |
| Text.TrimEnd | app/track-order/page.tsx:17 | Trailing white space removed, and only that |
| Text.Trim | app/track-order/page.tsx:17-26 | `trim()`: empty exactly for white-space-only strings, otherwise starting and ending with a non-space; never longer |
| Text.TrimCutsOnlySpace | app/track-order/page.tsx:17-26 | The trimmed string is a slice of the original with only white space cut at either end |
| Text.TrimIdempotent | app/track-order/page.tsx:26 | Trimming twice is trimming once |

## Left out

- Haversine distance (app/admin/page.tsx:158-166, app/order/page.tsx:114-122): floating-point trigonometry. The fee is a function of a given distance in kilometres.
- Floating point in general: money, scores and distances are exact `real`s, so rounding of the sums, averages and percentages is not modelled.
- Database access (select, insert, update, delete, storage upload, public URL, realtime channel): fetched rows are inputs, and writes are recorded in fields (`sent`, `applied`, `submissions`) or returned as records. The database-only handlers `updateStatus`, `updateOrderDate` and `updatePaymentMethod` of the dashboard are therefore not modelled.
- The non-atomic voucher usage increment of app/test/page.tsx: only a race between two network calls, and concurrency is out of scope.
- Asynchronous interleaving: each handler runs to completion, so edits made while a send or an insert is pending are not modelled.
- Browser state: localStorage persistence of the cart and the latest order, the admin password login and its flag, `window.confirm`, `alert`, the clipboard, scrolling and the timers.
- Printing (the ticket HTML and `window.print`) and locale formatting: the month label from `toLocaleString`, the "Expired on …" date text, the long date labels and `toFixed(2)` amounts. Verdicts carry the values those texts show.
- The e-mail service (EmailJS) and the map widget (Leaflet and its geosearch): the service's answer is the `delivered` parameter of `Contact.ContactForm.Submit`, and the coordinates are inputs.
- components/supabase.ts and the presentational components and pages (hero, navbar, footer, highlights, order modal, creators and success pages): configuration and markup only.
- Daylight-saving time and the calendar: time is local milliseconds with 86400000 ms per day, and the caller supplies the year, month and day a day index falls on; the voucher expiry 2026-01-31T23:59:59 is a fixed day index.
- `localeCompare` is modelled as code-point order; it agrees on the digit-and-dash keys compared.
- AdminStats.ComputeStats: the month key of an order is built from its creation year and month, which are inputs (the local `Date` conversion of `createdAt` is not modelled).
- VoucherInput.VoucherBox.HandleApply: the `catch` path ("Error validating voucher") is taken only on an exception thrown by the client library, which is not modelled; a lookup error is the `lookupFailed` parameter.
- VoucherInput.IsExpired: an `expires_at` that does not parse as a date (an invalid `Date` compares false) is not modelled; the expiry is an instant.
- Checkout.PriceOf: states only that the price used is never 0 (the fallback to 4.00); the price itself is `FindItem`'s.
- Carousel.NextSlide: requires at least one slide (and Carousel.PrevSlide likewise), because `% 0` is `NaN` in JavaScript; the list of testimonials is fixed at six, so the page always has slides.
- Names inherited from Object.prototype ("__proto__", "constructor", "toString", "valueOf", "hasOwnProperty" and the rest) read as truthy values in the rating maps and the product map before anything is stored under them; the model treats them as ordinary keys that start absent.
- AdminStats.BestOf / AdminStats.PickBestSeller: products are visited in the order they were first seen; `Object.entries` lists names that look like array indices ("12", "0") first, in ascending numeric order, which is not modelled, since the shop's product names are never such strings.
- Text.ToUpper: only ASCII letters are upper-cased; the wider Unicode mapping of `toUpperCase()` (accented letters, "ß" becoming "SS") is not modelled, since voucher codes are ASCII.
- Product names in the product and rating maps are JavaScript strings, so `item.name` undefined becomes the key "undefined"; the model's item names are strings throughout.
