/** The `orders` rows the storefront writes and the dashboard and tracking pages read back.
    Fields the pages read through `Number(…) || 0` may hold a non-number, modelled as None. */
module OrderRecords {
  import opened Wrappers

  datatype OrderType = Delivery | Pickup

  /** One line of a stored order, `{ name, quantity }`. */
  datatype Item = Item(name: string, quantity: Option<real>)

  /** The `customer` sub-record: the checkout form's fields, plus the two fields the dashboard's
      manual total override adds (`isManualDiscount` absent reads as false, `originalTotal`
      absent is None). */
  datatype Customer = Customer(
    name: string, email: string, phone: string, address: string, notes: string,
    orderType: OrderType, pickupLocation: string, date: string, timeWindow: string,
    preferredTime: string, googleMapsLink: string,
    latitude: Option<real>, longitude: Option<real>,
    isManualDiscount: bool, originalTotal: Option<real>)

  /** A stored order. `createdYear`/`createdMonth` are the local `getFullYear()` and
      `getMonth() + 1` of its `createdAt` timestamp; `items` is None when the column is not an array. */
  datatype Order = Order(
    id: int, trackingNumber: string,
    createdYear: nat, createdMonth: nat,
    customer: Customer, items: Option<seq<Item>>,
    finalTotal: Option<real>, status: string)
}
