/** The Order document (models/order.model.ts). */
module OrderModel {
  import opened Wrappers
  import opened Documents

  /** A calendar month as `Date.getMonth()` numbers it: 0 for January to 11 for December. */
  type Month = m: int | 0 <= m < 12

  /**
    An order of a store. `orderItems` are OrderItem ids. `createdMonth` stands for the
    month of the automatic `createdAt` timestamp, which is all the dashboard reads of it.
  */
  datatype Order = Order(
    storeId: Id,
    orderItems: seq<Id>,
    isPaid: bool,
    phone: string,
    address: string,
    createdMonth: Month)

  /** The fields a caller supplies when an order is created; a missing `storeId` is `None`. */
  datatype OrderDraft = OrderDraft(storeId: Option<Id>, orderItems: seq<Id>, createdMonth: Month)

  /**
    Building and validating a new order document: `storeId` is required, and an order
    starts unpaid with empty phone and address.
  */
  function Create(d: OrderDraft): (r: Result<Order, ValidationError>)
    ensures r.Success? <==> d.storeId.Some?
    ensures r.Failure? ==> r.error.paths == ["storeId"]
    ensures r.Success? ==> r.value.storeId == d.storeId.value && r.value.orderItems == d.orderItems
    ensures r.Success? ==> !r.value.isPaid && r.value.phone == "" && r.value.address == ""
  {
    match d.storeId
    case None => Failure(ValidationError(Missing("storeId", false)))
    case Some(s) => Success(Order(s, d.orderItems, false, "", "", d.createdMonth))
  }
}
