/**
 * The order document (`OrderSchema`): its line items, grand total, owner
 * reference and status enum. It also covers what Mongoose does when it turns a
 * plain object into a document and validates it before `save`.
 */
module OrderModel {
  import opened Wrappers

  /** Users and products are referenced by their identifiers. */
  type UserId = string
  type ProductId = string

  /** The `status` enum. */
  datatype Status = Pending | Completed | Cancelled

  /** The schema default for `status`. */
  const DefaultStatus: Status := Pending

  /** The string under which each status is stored. */
  function StatusName(s: Status): string
  {
    match s
    case Pending => "pending"
    case Completed => "completed"
    case Cancelled => "cancelled"
  }

  /** Mongoose's enum validator: a string is admitted only if it names a status. */
  function ParseStatus(s: string): (r: Option<Status>)
    ensures r.Some? <==> s == "pending" || s == "completed" || s == "cancelled"
    ensures r.Some? ==> StatusName(r.value) == s
  {
    if s == "pending" then Some(Pending)
    else if s == "completed" then Some(Completed)
    else if s == "cancelled" then Some(Cancelled)
    else None
  }

  /** One embedded line item. `price` is kept as an opaque number. */
  datatype OrderItem = OrderItem(name: string, productId: ProductId, price: int, quantity: int)

  /**
   * A saved order. `createdAt` stands for the creation timestamp: the order's
   * position in insertion order, which is what sorting by it observes.
   */
  datatype Order = Order(
    grandTotal: int,
    orderItems: seq<OrderItem>,
    createdBy: UserId,
    status: Status,
    createdAt: nat)

  /**
   * The timestamps of an append-only collection stamped at insertion: each
   * order's timestamp is its position.
   */
  predicate StampedInOrder(orders: seq<Order>)
  {
    forall i :: 0 <= i < |orders| ==> orders[i].createdAt == i
  }

  /** What the schema's `required` flags demand of an item that has all its fields. */
  predicate ValidItem(item: OrderItem)
  {
    item.name != "" && item.productId != ""
  }

  /** What the schema demands of a saved order. */
  predicate ValidOrder(o: Order)
  {
    o.createdBy != "" && forall i :: 0 <= i < |o.orderItems| ==> ValidItem(o.orderItems[i])
  }

  // ---------------------------------------------------------------------------
  // Plain objects, as they arrive in a request body or are passed to the model
  // ---------------------------------------------------------------------------

  /** An item object as given: any field may be missing. */
  datatype ItemFields = ItemFields(
    name: Option<string>,
    productId: Option<string>,
    price: Option<int>,
    quantity: Option<int>)

  /** An order object as given: any field may be missing. */
  datatype OrderFields = OrderFields(
    grandTotal: Option<int>,
    orderItems: Option<seq<ItemFields>>,
    createdBy: Option<string>,
    status: Option<string>)

  /** The `required` flags of an item: strings must be non-empty, numbers present. */
  predicate ItemFieldsPresent(f: ItemFields)
  {
    && f.name.Some? && f.name.value != ""
    && f.productId.Some? && f.productId.value != ""
    && f.price.Some?
    && f.quantity.Some?
  }

  /** The item that a complete item object describes. */
  function ItemOf(f: ItemFields): OrderItem
    requires ItemFieldsPresent(f)
  {
    OrderItem(f.name.value, f.productId.value, f.price.value, f.quantity.value)
  }

  /**
   * Casting the item array into subdocuments: it succeeds exactly when every
   * item has its required fields, and keeps the items in order.
   */
  function CastItems(raw: seq<ItemFields>): (r: Option<seq<OrderItem>>)
    ensures r.Some? <==> forall i :: 0 <= i < |raw| ==> ItemFieldsPresent(raw[i])
    ensures r.Some? ==> |r.value| == |raw|
    ensures r.Some? ==> forall i :: 0 <= i < |raw| ==> r.value[i] == ItemOf(raw[i]) && ValidItem(r.value[i])
  {
    if raw == [] then Some([])
    else if !ItemFieldsPresent(raw[0]) then None
    else
      match CastItems(raw[1..])
      case None => None
      case Some(rest) => Some([ItemOf(raw[0])] + rest)
  }

  /** Why Mongoose refuses to save a document. */
  datatype SaveError = RequiredFieldMissing | StatusNotInEnum

  /**
   * `new OrderModel(fields).save()`: validate the required fields and the
   * status enum, fill in the default status, and stamp the creation time.
   * An absent `orderItems` becomes the empty array.
   */
  function Materialize(f: OrderFields, stamp: nat): (r: Result<Order, SaveError>)
    ensures r.Ok? <==>
      && f.grandTotal.Some?
      && f.createdBy.Some? && f.createdBy.value != ""
      && (f.orderItems.None? || forall i :: 0 <= i < |f.orderItems.value| ==> ItemFieldsPresent(f.orderItems.value[i]))
      && (f.status.None? || ParseStatus(f.status.value).Some?)
    ensures r.Ok? ==> ValidOrder(r.value)
    ensures r.Ok? ==> Some(r.value.grandTotal) == f.grandTotal && Some(r.value.createdBy) == f.createdBy
    ensures r.Ok? ==> r.value.orderItems == if f.orderItems.None? then [] else CastItems(f.orderItems.value).value
    ensures r.Ok? ==> r.value.status == if f.status.None? then DefaultStatus else ParseStatus(f.status.value).value
    ensures r.Ok? ==> r.value.createdAt == stamp
  {
    var items := CastItems(if f.orderItems.None? then [] else f.orderItems.value);
    if f.grandTotal.None? || f.createdBy.None? || f.createdBy.value == "" || items.None? then
      Err(RequiredFieldMissing)
    else if f.status.Some? && ParseStatus(f.status.value).None? then
      Err(StatusNotInEnum)
    else
      var status := if f.status.None? then DefaultStatus else ParseStatus(f.status.value).value;
      Ok(Order(f.grandTotal.value, items.value, f.createdBy.value, status, stamp))
  }

  /** Every status reads back from its stored name. */
  lemma StatusNameRoundTrip(s: Status)
    ensures ParseStatus(StatusName(s)) == Some(s)
  {
  }

  /** An order given without a status is saved as pending. */
  lemma DefaultIsPending(f: OrderFields, stamp: nat)
    requires f.status.None?
    ensures Materialize(f, stamp).Ok? ==> Materialize(f, stamp).value.status == Pending
  {
  }

  /** The schema puts no bound on `quantity`: an item with quantity 0 or 6 saves. */
  lemma SchemaLeavesQuantityUnbounded(q: int)
    ensures var f := OrderFields(Some(0), Some([ItemFields(Some("A"), Some("p"), Some(10), Some(q))]), Some("u"), None);
            Materialize(f, 0).Ok? && Materialize(f, 0).value.orderItems[0].quantity == q
  {
  }
}
