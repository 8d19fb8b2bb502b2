/**
 * Order placement (`create`). Validate the body, precheck every item against
 * the inventory, save one order owned by the caller, take each item's
 * quantity off its product, look up the caller, and send an invoice. Every
 * exit before the save leaves the stores untouched. The save and the stock
 * decrements survive every exit after it.
 */
module OrderController {
  import opened Wrappers
  import opened OrderModel

  // ---------------------------------------------------------------------------
  // createOrderValidationSchema
  // ---------------------------------------------------------------------------

  /** The item rules of the request schema: all fields required, quantity in [1, 5]. */
  predicate ItemPassesSchema(f: ItemFields)
  {
    ItemFieldsPresent(f) && 1 <= f.quantity.value <= 5
  }

  /**
   * The request schema: `grandTotal` and `orderItems` are required, and every
   * item must pass the item rules. On success it yields the typed items.
   */
  function ValidateBody(body: OrderFields): (r: Option<seq<OrderItem>>)
    ensures r.Some? <==>
      && body.grandTotal.Some? && body.orderItems.Some?
      && forall i :: 0 <= i < |body.orderItems.value| ==> ItemPassesSchema(body.orderItems.value[i])
    ensures r.Some? ==> |r.value| == |body.orderItems.value|
    ensures r.Some? ==> forall i :: 0 <= i < |r.value| ==>
      r.value[i] == ItemOf(body.orderItems.value[i]) && 1 <= r.value[i].quantity <= 5
  {
    if body.grandTotal.None? || body.orderItems.None? then None
    else if exists i :: 0 <= i < |body.orderItems.value| && !ItemPassesSchema(body.orderItems.value[i]) then None
    else CastItems(body.orderItems.value)
  }

  // ---------------------------------------------------------------------------
  // Stock precheck
  // ---------------------------------------------------------------------------

  /** Product quantities by product id. A value may go negative (see DuplicateItemsOversell). */
  type Inventory = map<ProductId, int>

  /** The outcome of the precheck loop. */
  datatype Precheck = Pass | NoProduct | ShortStock

  /** An item the precheck lets through: its product exists with enough stock. */
  predicate InStock(item: OrderItem, inventory: Inventory)
  {
    item.productId in inventory && item.quantity <= inventory[item.productId]
  }

  /** The precheck loop: items in order, stopping at the first that fails. */
  function FirstFailure(items: seq<OrderItem>, inventory: Inventory): (r: Precheck)
    ensures r == NoProduct ==> exists i :: 0 <= i < |items| && items[i].productId !in inventory
    ensures r == ShortStock ==>
      exists i :: 0 <= i < |items| && items[i].productId in inventory && items[i].quantity > inventory[items[i].productId]
  {
    if items == [] then Pass
    else if items[0].productId !in inventory then NoProduct
    else if items[0].quantity > inventory[items[0].productId] then ShortStock
    else FirstFailure(items[1..], inventory)
  }

  /** The precheck passes exactly when every item, on its own, is in stock. */
  lemma {:induction false} PrecheckPassesIff(items: seq<OrderItem>, inventory: Inventory)
    ensures FirstFailure(items, inventory) == Pass <==>
            forall i :: 0 <= i < |items| ==> InStock(items[i], inventory)
  {
    if items != [] {
      PrecheckPassesIff(items[1..], inventory);
      assert forall i :: 1 <= i < |items| ==> items[i] == items[1..][i - 1];
    }
  }

  /** A failing precheck reports the reason of the first item that fails. */
  lemma {:induction false} PrecheckReportsFirstFailure(items: seq<OrderItem>, inventory: Inventory, k: nat)
    requires k < |items| && !InStock(items[k], inventory)
    requires forall j :: 0 <= j < k ==> InStock(items[j], inventory)
    ensures FirstFailure(items, inventory) == if items[k].productId !in inventory then NoProduct else ShortStock
  {
    if k > 0 {
      assert InStock(items[0], inventory);
      PrecheckReportsFirstFailure(items[1..], inventory, k - 1);
    }
  }

  // ---------------------------------------------------------------------------
  // Stock decrement
  // ---------------------------------------------------------------------------

  /** The total quantity the items ask of product `p`. */
  function Demand(items: seq<OrderItem>, p: ProductId): int
  {
    if items == [] then 0
    else
      var last := items[|items| - 1];
      Demand(items[..|items| - 1], p) + (if last.productId == p then last.quantity else 0)
  }

  /**
   * The inventory after the decrement loop: every product loses the total
   * quantity the items ask of it, and no product is added or removed.
   */
  function Decremented(inventory: Inventory, items: seq<OrderItem>): (r: Inventory)
    ensures r.Keys == inventory.Keys
  {
    map p | p in inventory :: inventory[p] - Demand(items, p)
  }

  /** Items that do not name a product ask nothing of it. */
  lemma {:induction false} DemandOfUnnamed(items: seq<OrderItem>, p: ProductId)
    requires forall i :: 0 <= i < |items| ==> items[i].productId != p
    ensures Demand(items, p) == 0
  {
    if items != [] {
      DemandOfUnnamed(items[..|items| - 1], p);
    }
  }

  /** No two items name the same product. */
  predicate DistinctProducts(items: seq<OrderItem>)
  {
    forall i, j :: 0 <= i < j < |items| ==> items[i].productId != items[j].productId
  }

  /** When product ids are distinct, the demand on a product is the quantity of its one item. */
  lemma {:induction false} DemandOfDistinct(items: seq<OrderItem>, k: nat)
    requires DistinctProducts(items) && k < |items|
    ensures Demand(items, items[k].productId) == items[k].quantity
  {
    var n := |items| - 1;
    var init := items[..n];
    if k == n {
      DemandOfUnnamed(init, items[k].productId);
    } else {
      DemandOfDistinct(init, k);
    }
  }

  /** A product no item names keeps its quantity. */
  lemma UnnamedProductsUnchanged(inventory: Inventory, items: seq<OrderItem>, p: ProductId)
    requires p in inventory
    requires forall i :: 0 <= i < |items| ==> items[i].productId != p
    ensures Decremented(inventory, items)[p] == inventory[p]
  {
    DemandOfUnnamed(items, p);
  }

  /**
   * With distinct product ids the per-item precheck is enough: quantities
   * that were non-negative stay non-negative.
   */
  lemma DistinctOrderKeepsStockNonNegative(inventory: Inventory, items: seq<OrderItem>)
    requires FirstFailure(items, inventory) == Pass
    requires DistinctProducts(items)
    requires forall p :: p in inventory ==> inventory[p] >= 0
    ensures forall p :: p in Decremented(inventory, items) ==> Decremented(inventory, items)[p] >= 0
  {
    PrecheckPassesIff(items, inventory);
    forall p | p in inventory
      ensures Decremented(inventory, items)[p] >= 0
    {
      if k :| 0 <= k < |items| && items[k].productId == p {
        DemandOfDistinct(items, k);
      } else {
        DemandOfUnnamed(items, p);
      }
    }
  }

  /**
   * The precheck compares each item with the unchanged stock. Two items of
   * the same product are not summed: with 3 in stock, two items of 2 both
   * pass and the quantity ends at -1.
   */
  lemma DuplicateItemsOversell()
    ensures var items := [OrderItem("A", "p", 10, 2), OrderItem("A", "p", 10, 2)];
            var inventory := map["p" := 3];
            FirstFailure(items, inventory) == Pass && Decremented(inventory, items)["p"] == -1
  {
    var items := [OrderItem("A", "p", 10, 2), OrderItem("A", "p", 10, 2)];
    assert items[..1][..0] == [];
    assert Demand(items, "p") == 4;
  }

  // ---------------------------------------------------------------------------
  // The workflow
  // ---------------------------------------------------------------------------

  /** The caller's profile, read to address the invoice. */
  datatype User = User(fullName: string, email: string)

  /** An invoice handed to the mail transport. */
  datatype Invoice = Invoice(to: string, subject: string, order: Order)

  const InvoiceSubject := "Your Order Invoice"

  /** How rendering and sending the invoice turn out; the mail service is external. */
  datatype MailResult = Delivered | RenderFailed | SendFailed

  /** Every exit of `create`. */
  datatype CreateReply =
    | Created(order: Order)
    | ValidationFailed
    | ProductNotFound
    | InsufficientQuantity
    | SaveFailed
    | UserNotFound
    | MailFailed

  /** The HTTP status of each exit. */
  function StatusCode(r: CreateReply): (code: int)
    ensures code == 201 <==> r.Created?
    ensures code == 500 <==> r.SaveFailed? || r.MailFailed?
    ensures code == 201 || code == 400 || code == 500
  {
    match r
    case Created(_) => 201
    case ValidationFailed => 400
    case ProductNotFound => 400
    case InsufficientQuantity => 400
    case UserNotFound => 400
    case SaveFailed => 500
    case MailFailed => 500
  }

  /** The response message of each exit. */
  function Message(r: CreateReply): string
  {
    match r
    case Created(_) => "Order created successfully"
    case ValidationFailed => "Validation failed"
    case ProductNotFound => "Product not found"
    case InsufficientQuantity => "Insufficient product quantity"
    case UserNotFound => "User not found"
    case SaveFailed => "Failed to create order"
    case MailFailed => "Failed to create order"
  }

  /** The exits taken before the order is saved. */
  predicate BeforeSave(r: CreateReply)
  {
    r.ValidationFailed? || r.ProductNotFound? || r.InsufficientQuantity? || r.SaveFailed?
  }

  /** The body with the authenticated id written over any `createdBy` it carries. */
  function WithOwner(body: OrderFields, userId: UserId): (f: OrderFields)
    ensures f.createdBy == Some(userId)
    ensures f.grandTotal == body.grandTotal && f.orderItems == body.orderItems && f.status == body.status
  {
    body.(createdBy := Some(userId))
  }

  /** The stores `create` changes, with its reply. */
  datatype Placement = Placement(reply: CreateReply, inventory: Inventory, orders: seq<Order>, sent: seq<Invoice>)

  /** What one `create` call does to the stores, step by step. */
  function PlaceOrder(
    inventory: Inventory, orders: seq<Order>, sent: seq<Invoice>,
    users: map<UserId, User>, userId: UserId, body: OrderFields, mail: MailResult): (r: Placement)
    ensures r.reply.ValidationFailed? <==> ValidateBody(body).None?
    ensures BeforeSave(r.reply) ==> r.inventory == inventory && r.orders == orders && r.sent == sent
    ensures !BeforeSave(r.reply) ==>
      && |r.orders| == |orders| + 1 && r.orders[..|orders|] == orders
      && r.orders[|orders|].createdBy == userId
      && r.orders[|orders|].createdAt == |orders|
      && r.orders[|orders|].orderItems == ValidateBody(body).value
      && Some(r.orders[|orders|].grandTotal) == body.grandTotal
      && (body.status.None? ==> r.orders[|orders|].status == DefaultStatus)
      && (body.status.Some? ==> Some(r.orders[|orders|].status) == ParseStatus(body.status.value))
      && r.inventory == Decremented(inventory, r.orders[|orders|].orderItems)
    ensures r.reply.Created? ==>
      && userId in users && r.reply.order == r.orders[|orders|]
      && r.sent == sent + [Invoice(users[userId].email, InvoiceSubject, r.reply.order)]
    ensures !r.reply.Created? ==> r.sent == sent
  {
    match ValidateBody(body)
    case None => Placement(ValidationFailed, inventory, orders, sent)
    case Some(items) =>
      match FirstFailure(items, inventory)
      case NoProduct => Placement(ProductNotFound, inventory, orders, sent)
      case ShortStock => Placement(InsufficientQuantity, inventory, orders, sent)
      case Pass =>
        match Materialize(WithOwner(body, userId), |orders|)
        case Err(_) => Placement(SaveFailed, inventory, orders, sent)
        case Ok(order) =>
          var stock := Decremented(inventory, items);
          var saved := orders + [order];
          if userId !in users then Placement(UserNotFound, stock, saved, sent)
          else if mail == Delivered then
            Placement(Created(order), stock, saved, sent + [Invoice(users[userId].email, InvoiceSubject, order)])
          else Placement(MailFailed, stock, saved, sent)
  }

  /**
   * After validation, the precheck decides: the first item whose product is
   * missing gives "Product not found", and the first with too little stock
   * gives "Insufficient product quantity". Neither changes anything.
   */
  lemma FirstFailingItemDecides(
    inventory: Inventory, orders: seq<Order>, sent: seq<Invoice>,
    users: map<UserId, User>, userId: UserId, body: OrderFields, mail: MailResult, k: nat)
    requires ValidateBody(body).Some?
    requires var items := ValidateBody(body).value;
             k < |items| && !InStock(items[k], inventory)
             && forall j :: 0 <= j < k ==> InStock(items[j], inventory)
    ensures var r := PlaceOrder(inventory, orders, sent, users, userId, body, mail);
            var items := ValidateBody(body).value;
            && r.reply == (if items[k].productId !in inventory then ProductNotFound else InsufficientQuantity)
            && r.inventory == inventory && r.orders == orders && r.sent == sent
  {
    PrecheckReportsFirstFailure(ValidateBody(body).value, inventory, k);
  }

  /**
   * A valid order whose items are all in stock is saved and reaches the user
   * lookup. Each product loses exactly what the items ask of it. The reply is
   * 201 when the caller exists and the mail goes out. Otherwise it is 400
   * (user not found) or 500 (mail), and the order and decrements remain.
   */
  lemma InStockOrderIsSaved(
    inventory: Inventory, orders: seq<Order>, sent: seq<Invoice>,
    users: map<UserId, User>, userId: UserId, body: OrderFields, mail: MailResult)
    requires ValidateBody(body).Some?
    requires forall i :: 0 <= i < |ValidateBody(body).value| ==> InStock(ValidateBody(body).value[i], inventory)
    requires userId != ""
    requires body.status.None? || ParseStatus(body.status.value).Some?
    ensures var r := PlaceOrder(inventory, orders, sent, users, userId, body, mail);
            && !BeforeSave(r.reply)
            && r.reply == (if userId !in users then UserNotFound
                           else if mail == Delivered then Created(r.orders[|orders|])
                           else MailFailed)
            && (forall p :: p in inventory ==>
                  r.inventory[p] == inventory[p] - Demand(ValidateBody(body).value, p))
  {
    PrecheckPassesIff(ValidateBody(body).value, inventory);
  }

  /**
   * The owner of the saved order is always the authenticated id, whatever
   * `createdBy` the body carries.
   */
  lemma BodyOwnerIgnored(
    inventory: Inventory, orders: seq<Order>, sent: seq<Invoice>,
    users: map<UserId, User>, userId: UserId, body: OrderFields, mail: MailResult, claimed: Option<string>)
    ensures PlaceOrder(inventory, orders, sent, users, userId, body.(createdBy := claimed), mail)
         == PlaceOrder(inventory, orders, sent, users, userId, body, mail)
  {
    assert WithOwner(body.(createdBy := claimed), userId) == WithOwner(body, userId);
  }

  /**
   * A status in the body is spread into the document. One outside the enum
   * makes the save throw: the reply is 500 and nothing is saved.
   */
  lemma BadStatusFailsSave(
    inventory: Inventory, orders: seq<Order>, sent: seq<Invoice>,
    users: map<UserId, User>, userId: UserId, body: OrderFields, mail: MailResult)
    requires ValidateBody(body).Some? && FirstFailure(ValidateBody(body).value, inventory) == Pass
    requires body.status.Some? && ParseStatus(body.status.value).None?
    ensures PlaceOrder(inventory, orders, sent, users, userId, body, mail)
         == Placement(SaveFailed, inventory, orders, sent)
  {
  }

  /**
   * Product A with 3 in stock; an order of 2 of A for 20 is created as
   * pending, and A is left with 1.
   */
  lemma OrderOfTwoFromThree(orders: seq<Order>, users: map<UserId, User>, userId: UserId)
    requires userId in users && userId != ""
    ensures var body := OrderFields(Some(20), Some([ItemFields(Some("A"), Some("A"), Some(10), Some(2))]), None, None);
            var r := PlaceOrder(map["A" := 3], orders, [], users, userId, body, Delivered);
            && r.reply.Created? && StatusCode(r.reply) == 201
            && r.reply.order.status == Pending
            && r.reply.order.orderItems == [OrderItem("A", "A", 10, 2)]
            && r.inventory == map["A" := 1]
  {
    var items := [OrderItem("A", "A", 10, 2)];
    var body := OrderFields(Some(20), Some([ItemFields(Some("A"), Some("A"), Some(10), Some(2))]), None, None);
    assert ItemPassesSchema(body.orderItems.value[0]);
    var validated := ValidateBody(body);
    assert validated.Some? && |validated.value| == 1;
    assert validated.value[0] == ItemOf(body.orderItems.value[0]) == items[0];
    assert validated.value == items;
    assert FirstFailure(items, map["A" := 3]) == Pass;
    assert items[..0] == [];
    assert Demand(items, "A") == 2;
    assert Decremented(map["A" := 3], items) == map["A" := 1];
  }

  /** The two databases `create` works on, and the invoices sent so far. */
  class Store {
    var inventory: Inventory
    var orders: seq<Order>
    var sent: seq<Invoice>
    /** The user collection, which `create` only reads. */
    const users: map<UserId, User>

    /** Every stored order is valid and carries its insertion position as its timestamp. */
    ghost predicate Valid()
      reads this
    {
      && StampedInOrder(orders)
      && forall i :: 0 <= i < |orders| ==> ValidOrder(orders[i])
    }

    constructor (inventory: Inventory, users: map<UserId, User>)
      ensures Valid()
      ensures this.inventory == inventory && this.users == users && orders == [] && sent == []
    {
      this.inventory := inventory;
      this.users := users;
      orders, sent := [], [];
    }

    /** The precheck loop over the items, against the current inventory. */
    method Precheck(items: seq<OrderItem>) returns (outcome: Precheck)
      ensures outcome == FirstFailure(items, inventory)
    {
      var i := 0;
      while i < |items|
        invariant 0 <= i <= |items|
        invariant FirstFailure(items[i..], inventory) == FirstFailure(items, inventory)
      {
        assert items[i..][1..] == items[i + 1..];
        var item := items[i];
        if item.productId !in inventory {
          return NoProduct;
        }
        if item.quantity > inventory[item.productId] {
          return ShortStock;
        }
        i := i + 1;
      }
      return Pass;
    }

    /** The decrement loop: `$inc` each item's product by minus its quantity; a missing product is skipped. */
    method DecrementStock(items: seq<OrderItem>)
      modifies this`inventory
      ensures inventory == Decremented(old(inventory), items)
    {
      var i := 0;
      while i < |items|
        invariant 0 <= i <= |items|
        invariant inventory == Decremented(old(inventory), items[..i])
      {
        var item := items[i];
        assert items[..i + 1][..i] == items[..i];
        if item.productId in inventory {
          inventory := inventory[item.productId := inventory[item.productId] - item.quantity];
        }
        i := i + 1;
      }
      assert items[..|items|] == items;
    }

    /** `create`: place an order for the authenticated `userId`. */
    method Create(userId: UserId, body: OrderFields, mail: MailResult) returns (reply: CreateReply)
      requires Valid()
      modifies this
      ensures Valid()
      ensures Placement(reply, inventory, orders, sent)
           == PlaceOrder(old(inventory), old(orders), old(sent), users, userId, body, mail)
    {
      var validated := ValidateBody(body);
      if validated.None? {
        return ValidationFailed;
      }
      var items := validated.value;

      var check := Precheck(items);
      if check == NoProduct {
        return ProductNotFound;
      } else if check == ShortStock {
        return InsufficientQuantity;
      }

      var document := Materialize(WithOwner(body, userId), |orders|);
      if document.Err? {
        return SaveFailed;
      }
      var order := document.value;
      orders := orders + [order];

      DecrementStock(items);

      if userId !in users {
        return UserNotFound;
      }
      var user := users[userId];
      if mail != Delivered {
        return MailFailed;
      }
      sent := sent + [Invoice(user.email, InvoiceSubject, order)];
      return Created(order);
    }
  }
}
