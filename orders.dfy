/** Orders: the schema's enums, defaults and required fields, and the
    order routes — placing an order, changing its status, changing its
    delivery time, a customer's cancellation request and deletion — over
    the orders collection. Every status change appends a matching entry to
    the order's status history. */
module Orders {
  import opened Common

  // ---------------------------------------------------------------------
  // Enumerations
  // ---------------------------------------------------------------------

  /** The order lifecycle states the schema admits. */
  datatype OrderStatus = Pending | Processing | Shipped | Delivered | Cancelled | Requested
  {
    function Name(): (s: string)
      ensures s != ""
    {
      match this
      case Pending => "Pending"
      case Processing => "Processing"
      case Shipped => "Shipped"
      case Delivered => "Delivered"
      case Cancelled => "Cancelled"
      case Requested => "Requested"
    }
  }

  const DefaultStatus: OrderStatus := Pending

  /** Membership in the status list, read from its string form: the
      schema's enum check and the status route's list of valid statuses. */
  function ParseStatus(s: string): (r: Option<OrderStatus>)
    ensures r.Some? ==> r.value.Name() == s
    ensures r.None? ==> forall st: OrderStatus :: st.Name() != s
  {
    if s == "Pending" then Some(Pending)
    else if s == "Processing" then Some(Processing)
    else if s == "Shipped" then Some(Shipped)
    else if s == "Delivered" then Some(Delivered)
    else if s == "Cancelled" then Some(Cancelled)
    else if s == "Requested" then Some(Requested)
    else None
  }

  /** The payment methods the schema admits. */
  datatype PaymentMethod = Cod | Card | Bank | Easypaisa
  {
    function Name(): (s: string)
      ensures s != ""
    {
      match this
      case Cod => "cod"
      case Card => "card"
      case Bank => "bank"
      case Easypaisa => "easypaisa"
    }
  }

  const DefaultPaymentMethod: PaymentMethod := Cod

  function ParsePaymentMethod(s: string): (r: Option<PaymentMethod>)
    ensures r.Some? ==> r.value.Name() == s
    ensures r.None? ==> forall m: PaymentMethod :: m.Name() != s
  {
    if s == "cod" then Some(Cod)
    else if s == "card" then Some(Card)
    else if s == "bank" then Some(Bank)
    else if s == "easypaisa" then Some(Easypaisa)
    else None
  }

  // ---------------------------------------------------------------------
  // Documents
  // ---------------------------------------------------------------------

  /** Numbers (amounts, quantities, weeks) are exact reals here. */
  const DefaultDeliveryWeeks: real := 2.0
  const DefaultDiscount: real := 0.0

  const PlacedNote: string := "Order placed successfully."
  const CancellationNote: string := "Customer requested order cancellation."

  datatype Address = Address(streetAddress: string, city: string, province: string, country: string, zipCode: string)

  datatype Item = Item(
    productId: string,
    productName: string,
    variant: Option<string>,
    quantity: real,
    price: real,
    imageUrl: Option<string>)

  /** One entry of an order's status history; its status is a plain string
      in the schema. */
  datatype StatusUpdate = StatusUpdate(status: string, date: int, note: Option<string>)

  /** One document of the orders collection. */
  datatype Order = Order(
    id: string,
    customerName: string,
    customerEmail: string,
    customerPhone: string,
    shippingAddress: Address,
    notes: Option<string>,
    items: seq<Item>,
    subtotalAmount: real,
    shippingFee: real,
    discountCode: Option<string>,
    discountAmount: real,
    totalAmount: real,
    paymentMethod: PaymentMethod,
    status: OrderStatus,
    deliveryWeeks: real,
    statusUpdates: seq<StatusUpdate>,
    createdAt: int,
    updatedAt: int)

  /** The status history ends with an entry for the current status. */
  predicate Tracked(o: Order) {
    o.statusUpdates != [] && o.statusUpdates[|o.statusUpdates| - 1].status == o.status.Name()
  }

  /** What holds of every order in the collection: its id is in the
      driver's spelling and its history is tracked. */
  predicate Stored(o: Order) {
    IsCanonicalObjectId(o.id) && Tracked(o)
  }

  // ---------------------------------------------------------------------
  // Placing an order: the request body, its validation and defaults
  // ---------------------------------------------------------------------

  datatype AddressInput = AddressInput(
    streetAddress: Option<string>,
    city: Option<string>,
    province: Option<string>,
    country: Option<string>,
    zipCode: Option<string>)

  datatype ItemInput = ItemInput(
    productId: Option<string>,
    productName: Option<string>,
    variant: Option<string>,
    quantity: Option<real>,
    price: Option<real>,
    imageUrl: Option<string>)

  /** The body of a request to place an order; `None` is a field the client
      left out. */
  datatype OrderInput = OrderInput(
    customerName: Option<string>,
    customerEmail: Option<string>,
    customerPhone: Option<string>,
    shippingAddress: AddressInput,
    notes: Option<string>,
    items: Option<seq<ItemInput>>,
    subtotalAmount: Option<real>,
    shippingFee: Option<real>,
    discountCode: Option<string>,
    discountAmount: Option<real>,
    totalAmount: Option<real>,
    paymentMethod: Option<string>,
    status: Option<string>,
    deliveryWeeks: Option<real>)

  /** The route's own presence check: a customer name and a non-empty item
      list. */
  predicate HasEssentials(input: OrderInput) {
    Truthy(input.customerName) && input.items.Some? && input.items.value != []
  }

  predicate AddressComplete(a: AddressInput) {
    Truthy(a.streetAddress) && Truthy(a.city) && Truthy(a.province) && Truthy(a.country) && Truthy(a.zipCode)
  }

  predicate ItemComplete(it: ItemInput) {
    Truthy(it.productId) && Truthy(it.productName) && it.quantity.Some? && it.price.Some?
  }

  /** Schema validation: required strings present and non-empty, required
      numbers present, and the enum fields, when sent, among their values. */
  predicate SchemaValid(input: OrderInput) {
    && Truthy(input.customerName) && Truthy(input.customerEmail) && Truthy(input.customerPhone)
    && AddressComplete(input.shippingAddress)
    && (input.items.Some? ==> forall it :: it in input.items.value ==> ItemComplete(it))
    && input.subtotalAmount.Some? && input.shippingFee.Some? && input.totalAmount.Some?
    && (input.paymentMethod.Some? ==> ParsePaymentMethod(input.paymentMethod.value).Some?)
    && (input.status.Some? ==> ParseStatus(input.status.value).Some?)
  }

  function ItemOf(it: ItemInput): Item
    requires ItemComplete(it)
  {
    Item(it.productId.value, it.productName.value, it.variant, it.quantity.value, it.price.value, it.imageUrl)
  }

  function ItemsOf(its: seq<ItemInput>): (r: seq<Item>)
    requires forall it :: it in its ==> ItemComplete(it)
    ensures |r| == |its|
    ensures forall k :: 0 <= k < |its| ==> r[k] == ItemOf(its[k])
  {
    if its == [] then [] else [ItemOf(its[0])] + ItemsOf(its[1..])
  }

  /** `new Order(data).save()` on the body after the route has set its
      status history and delivery time: the stored document with the
      schema's defaults, or `None` on a validation error. */
  function Cast(input: OrderInput, history: seq<StatusUpdate>, weeks: real, id: string, now: int): (r: Option<Order>)
    ensures r.Some? <==> SchemaValid(input) && input.items.Some?
    ensures r.Some? ==>
      && r.value.id == id && r.value.customerName == input.customerName.value
      && r.value.customerEmail == input.customerEmail.value
      && |r.value.items| == |input.items.value|
      && r.value.totalAmount == input.totalAmount.value
      && r.value.statusUpdates == history && r.value.deliveryWeeks == weeks
      && r.value.createdAt == now && r.value.updatedAt == now
    ensures r.Some? ==>
      r.value.status == (if input.status.None? then DefaultStatus else ParseStatus(input.status.value).value)
    ensures r.Some? ==>
      r.value.paymentMethod ==
        (if input.paymentMethod.None? then DefaultPaymentMethod else ParsePaymentMethod(input.paymentMethod.value).value)
    ensures r.Some? ==>
      r.value.discountAmount == (if input.discountAmount.None? then DefaultDiscount else input.discountAmount.value)
  {
    if !(SchemaValid(input) && input.items.Some?) then None
    else
      var a := input.shippingAddress;
      Some(Order(
        id, input.customerName.value, input.customerEmail.value, input.customerPhone.value,
        Address(a.streetAddress.value, a.city.value, a.province.value, a.country.value, a.zipCode.value),
        input.notes, ItemsOf(input.items.value),
        input.subtotalAmount.value, input.shippingFee.value, input.discountCode,
        if input.discountAmount.None? then DefaultDiscount else input.discountAmount.value,
        input.totalAmount.value,
        if input.paymentMethod.None? then DefaultPaymentMethod else ParsePaymentMethod(input.paymentMethod.value).value,
        if input.status.None? then DefaultStatus else ParseStatus(input.status.value).value,
        weeks, history, now, now))
  }

  /** The status-history entry a new order starts with: the requested
      status, or `Pending` when none (or an empty one) was sent. */
  function FirstEntry(input: OrderInput, now: int): (e: StatusUpdate)
    ensures Truthy(input.status) ==> e.status == input.status.value
    ensures !Truthy(input.status) ==> e.status == "Pending"
    ensures e.date == now && e.note == Some(PlacedNote)
  {
    StatusUpdate(OrElse(input.status, DefaultStatus.Name()), now, Some(PlacedNote))
  }

  /** A placed order starts with exactly one history entry, and that entry
      agrees with the order's status: whatever status the body named, or
      `Pending`. */
  lemma PlacedOrderTracked(input: OrderInput, id: string, now: int, weeks: real)
    requires Cast(input, [FirstEntry(input, now)], weeks, id, now).Some?
    ensures var o := Cast(input, [FirstEntry(input, now)], weeks, id, now).value;
      && |o.statusUpdates| == 1 && Tracked(o)
      && o.statusUpdates[0].status == (if input.status.Some? then input.status.value else "Pending")
  {
    var o := Cast(input, [FirstEntry(input, now)], weeks, id, now).value;
    if input.status.Some? {
      assert ParseStatus(input.status.value).value.Name() == input.status.value;
    }
  }

  // ---------------------------------------------------------------------
  // Status changes
  // ---------------------------------------------------------------------

  /** The note a manual status change records: the admin's own note, or a
      generated one naming the new status. */
  function StatusNote(st: OrderStatus, note: Option<string>): (n: string)
    ensures Truthy(note) ==> n == note.value
    ensures !Truthy(note) ==> n == "Status manually changed to " + st.Name() + "."
  {
    OrElse(note, "Status manually changed to " + st.Name() + ".")
  }

  /** An update that sets the status and pushes a history entry for it. */
  function WithStatus(o: Order, st: OrderStatus, note: string, now: int): (r: Order)
    ensures Tracked(r) && r.status == st
    ensures |r.statusUpdates| == |o.statusUpdates| + 1
    ensures r.statusUpdates[..|o.statusUpdates|] == o.statusUpdates
    ensures r.statusUpdates[|o.statusUpdates|] == StatusUpdate(st.Name(), now, Some(note))
    ensures r.(status := o.status, statusUpdates := o.statusUpdates, updatedAt := o.updatedAt) == o
  {
    o.(status := st, updatedAt := now, statusUpdates := o.statusUpdates + [StatusUpdate(st.Name(), now, Some(note))])
  }

  /** A customer may ask to cancel only an order that is neither shipped,
      delivered, cancelled nor already awaiting review. */
  function CancellationAllowed(st: OrderStatus): (b: bool)
    ensures b <==> st == Pending || st == Processing
  {
    !(st == Shipped || st == Delivered || st == Cancelled || st == Requested)
  }

  /** The body of a delivery-time change: the field left out, or sent, with
      what `parseFloat` makes of it (`None` for `NaN`). */
  datatype WeeksInput = Undefined | Sent(parsed: Option<real>)

  // ---------------------------------------------------------------------
  // The collection
  // ---------------------------------------------------------------------

  function OrderId(o: Order): string { o.id }

  /** `findById(id)` on the orders collection. */
  function FindOrder(orders: seq<Order>, id: string): Option<nat> {
    FindById(orders, OrderId, id)
  }

  predicate DistinctOrderIds(orders: seq<Order>) {
    forall i, j :: 0 <= i < j < |orders| ==> orders[i].id != orders[j].id
  }

  /** `deleteMany({customerEmail: email})` on a list of orders. */
  function WithoutCustomer(orders: seq<Order>, email: string): (r: seq<Order>)
    ensures |r| <= |orders|
  {
    if orders == [] then []
    else if orders[0].customerEmail == email then WithoutCustomer(orders[1..], email)
    else [orders[0]] + WithoutCustomer(orders[1..], email)
  }

  /** Deleting a customer's orders keeps exactly the other customers'
      orders. */
  lemma {:induction false} WithoutCustomerMembers(orders: seq<Order>, email: string)
    ensures forall o :: o in WithoutCustomer(orders, email) <==> o in orders && o.customerEmail != email
  {
    if orders != [] {
      WithoutCustomerMembers(orders[1..], email);
      assert orders == [orders[0]] + orders[1..];
    }
  }

  /** Removing orders keeps their ids distinct and their histories
      tracked. */
  lemma WithoutCustomerValid(orders: seq<Order>, email: string)
    requires DistinctOrderIds(orders) && forall i :: 0 <= i < |orders| ==> Stored(orders[i])
    ensures var r := WithoutCustomer(orders, email);
      DistinctOrderIds(r) && forall i :: 0 <= i < |r| ==> Stored(r[i])
  {
    WithoutCustomerDistinct(orders, email);
    var r := WithoutCustomer(orders, email);
    WithoutCustomerMembers(orders, email);
    forall i | 0 <= i < |r| ensures Stored(r[i]) {
      assert r[i] in orders;
    }
  }

  lemma {:induction false} WithoutCustomerDistinct(orders: seq<Order>, email: string)
    requires DistinctOrderIds(orders)
    ensures DistinctOrderIds(WithoutCustomer(orders, email))
  {
    if orders != [] {
      var tail := orders[1..];
      assert DistinctOrderIds(tail);
      WithoutCustomerDistinct(tail, email);
      WithoutCustomerMembers(tail, email);
      var rest := WithoutCustomer(tail, email);
      forall o | o in rest ensures o.id != orders[0].id {
        var k :| 0 <= k < |tail| && tail[k] == o;
        assert orders[k + 1] == o;
      }
    }
  }

  /** Removing the order at `i` keeps the rest valid. */
  lemma RemoveOrderValid(orders: seq<Order>, i: nat)
    requires i < |orders| && DistinctOrderIds(orders) && forall j :: 0 <= j < |orders| ==> Stored(orders[j])
    ensures var rest := orders[..i] + orders[i + 1..];
      DistinctOrderIds(rest) && forall j :: 0 <= j < |rest| ==> Stored(rest[j])
  {
    var rest := orders[..i] + orders[i + 1..];
    assert forall j :: 0 <= j < |rest| ==> rest[j] == orders[if j < i then j else j + 1];
  }

  /** The orders collection. */
  class OrderStore {
    var orders: seq<Order>

    /** Ids are unique and in the driver's spelling, and every order's
        history ends with its status. */
    ghost predicate Valid()
      reads this
    {
      DistinctOrderIds(orders) && forall i :: 0 <= i < |orders| ==> Stored(orders[i])
    }

    constructor ()
      ensures orders == [] && Valid()
    {
      orders := [];
    }

    /** `POST /`: checks the essentials (400), sets the history to its
        first entry and the delivery time to two weeks when left out, then
        saves; a validation error is 400 and nothing is stored. */
    method Place(input: OrderInput, id: string, now: int) returns (r: Response<Order>)
      requires Valid() && IsCanonicalObjectId(id) && FindOrder(orders, id).None?
      modifies this
      ensures Valid()
      ensures r.Success? <==> HasEssentials(input) && SchemaValid(input)
      ensures r.Success? ==>
        var weeks := if input.deliveryWeeks.None? then DefaultDeliveryWeeks else input.deliveryWeeks.value;
        && r.code == CreatedStatus
        && r.value == Cast(input, [FirstEntry(input, now)], weeks, id, now).value
        && orders == old(orders) + [r.value]
      ensures !r.Success? ==> r == Failure(BadRequestStatus) && orders == old(orders)
    {
      if !HasEssentials(input) {
        return Failure(BadRequestStatus);
      }
      var history := [FirstEntry(input, now)];
      var weeks := DefaultDeliveryWeeks;
      if input.deliveryWeeks.Some? {
        weeks := input.deliveryWeeks.value;
      }
      var saved := Cast(input, history, weeks, id, now);
      if saved.None? {
        return Failure(BadRequestStatus);
      }
      PlacedOrderTracked(input, id, now, weeks);
      orders := orders + [saved.value];
      r := Success(CreatedStatus, saved.value);
    }

    /** `GET /:id`: an id that is not an object id fails the cast (500);
        any other is looked up as the object id it spells. */
    function Get(id: string): (r: Response<Order>)
      reads this
      ensures r.Success? <==> IsValidObjectId(id) && exists i :: 0 <= i < |orders| && orders[i].id == CastObjectId(id)
      ensures r.Success? ==> r.code == OkStatus && r.value in orders && r.value.id == CastObjectId(id)
      ensures !r.Success? ==> r == Failure(if IsValidObjectId(id) then NotFoundStatus else ServerErrorStatus)
    {
      if !IsValidObjectId(id) then Failure(ServerErrorStatus)
      else match FindOrder(orders, CastObjectId(id))
        case None => Failure(NotFoundStatus)
        case Some(i) => Success(OkStatus, orders[i])
    }

    /** `PUT /:id/status`: a missing or unknown status is 400 before the
        store is touched; otherwise the status is set and one history entry
        with the same status is pushed. */
    method UpdateStatus(id: string, status: Option<string>, note: Option<string>, now: int)
      returns (r: Response<Order>)
      requires Valid()
      modifies this
      ensures Valid()
      ensures !Truthy(status) || ParseStatus(status.value).None? ==>
        r == Failure(BadRequestStatus) && orders == old(orders)
      ensures Truthy(status) && ParseStatus(status.value).Some? ==>
        var st := ParseStatus(status.value).value;
        if !IsValidObjectId(id) then r == Failure(ServerErrorStatus) && orders == old(orders)
        else match FindOrder(old(orders), CastObjectId(id))
          case None => r == Failure(NotFoundStatus) && orders == old(orders)
          case Some(i) =>
            && orders == old(orders)[i := WithStatus(old(orders)[i], st, StatusNote(st, note), now)]
            && r == Success(OkStatus, orders[i])
    {
      if !Truthy(status) || ParseStatus(status.value).None? {
        return Failure(BadRequestStatus);
      }
      var st := ParseStatus(status.value).value;
      if !IsValidObjectId(id) {
        return Failure(ServerErrorStatus);
      }
      var found := FindOrder(orders, CastObjectId(id));
      if found.None? {
        return Failure(NotFoundStatus);
      }
      var i := found.value;
      orders := orders[i := WithStatus(orders[i], st, StatusNote(st, note), now)];
      r := Success(OkStatus, orders[i]);
    }

    /** `PUT /:id/deliverytime`: a missing or non-numeric value is 400;
        otherwise only the delivery time (and the update stamp) change. */
    method UpdateDeliveryTime(id: string, weeks: WeeksInput, now: int) returns (r: Response<Order>)
      requires Valid()
      modifies this
      ensures Valid()
      ensures weeks.Undefined? || weeks.parsed.None? ==> r == Failure(BadRequestStatus) && orders == old(orders)
      ensures weeks.Sent? && weeks.parsed.Some? ==>
        if !IsValidObjectId(id) then r == Failure(ServerErrorStatus) && orders == old(orders)
        else match FindOrder(old(orders), CastObjectId(id))
          case None => r == Failure(NotFoundStatus) && orders == old(orders)
          case Some(i) =>
            && orders == old(orders)[i := old(orders)[i].(deliveryWeeks := weeks.parsed.value, updatedAt := now)]
            && r == Success(OkStatus, orders[i])
    {
      if weeks.Undefined? || weeks.parsed.None? {
        return Failure(BadRequestStatus);
      }
      if !IsValidObjectId(id) {
        return Failure(ServerErrorStatus);
      }
      var found := FindOrder(orders, CastObjectId(id));
      if found.None? {
        return Failure(NotFoundStatus);
      }
      var i := found.value;
      orders := orders[i := orders[i].(deliveryWeeks := weeks.parsed.value, updatedAt := now)];
      r := Success(OkStatus, orders[i]);
    }

    /** `PUT /:id/request-cancellation`: 404 for an unknown order, 400 when
        the order is past the point of cancellation or already awaiting
        review; otherwise the status becomes `Requested` with one history
        entry saying so. */
    method RequestCancellation(id: string, now: int) returns (r: Response<Order>)
      requires Valid()
      modifies this
      ensures Valid()
      ensures !IsValidObjectId(id) ==> r == Failure(ServerErrorStatus) && orders == old(orders)
      ensures IsValidObjectId(id) ==>
        match FindOrder(old(orders), CastObjectId(id))
        case None => r == Failure(NotFoundStatus) && orders == old(orders)
        case Some(i) =>
          if !CancellationAllowed(old(orders)[i].status) then
            r == Failure(BadRequestStatus) && orders == old(orders)
          else
            && orders == old(orders)[i := WithStatus(old(orders)[i], Requested, CancellationNote, now)]
            && r == Success(OkStatus, orders[i])
    {
      if !IsValidObjectId(id) {
        return Failure(ServerErrorStatus);
      }
      var found := FindOrder(orders, CastObjectId(id));
      if found.None? {
        return Failure(NotFoundStatus);
      }
      var i := found.value;
      if !CancellationAllowed(orders[i].status) {
        return Failure(BadRequestStatus);
      }
      orders := orders[i := WithStatus(orders[i], Requested, CancellationNote, now)];
      r := Success(OkStatus, orders[i]);
    }

    /** `DELETE /:id`: 404 for an unknown order; otherwise that order is
        removed and returned. */
    method Delete(id: string) returns (r: Response<Order>)
      requires Valid()
      modifies this
      ensures Valid()
      ensures !IsValidObjectId(id) ==> r == Failure(ServerErrorStatus) && orders == old(orders)
      ensures IsValidObjectId(id) ==>
        match FindOrder(old(orders), CastObjectId(id))
        case None => r == Failure(NotFoundStatus) && orders == old(orders)
        case Some(i) => r == Success(OkStatus, old(orders)[i]) && orders == old(orders)[..i] + old(orders)[i + 1..]
    {
      if !IsValidObjectId(id) {
        return Failure(ServerErrorStatus);
      }
      var found := FindOrder(orders, CastObjectId(id));
      if found.None? {
        return Failure(NotFoundStatus);
      }
      var i := found.value;
      var removed := orders[i];
      var rest := orders[..i] + orders[i + 1..];
      RemoveOrderValid(orders, i);
      orders := rest;
      r := Success(OkStatus, removed);
    }

    /** `deleteMany({customerEmail: email})`, issued when an account is
        deleted: the number of orders removed. */
    method DeleteByCustomer(email: string) returns (deleted: nat)
      requires Valid()
      modifies this
      ensures Valid()
      ensures orders == WithoutCustomer(old(orders), email)
      ensures deleted == |old(orders)| - |orders|
    {
      WithoutCustomerValid(orders, email);
      var rest := WithoutCustomer(orders, email);
      deleted := |orders| - |rest|;
      orders := rest;
    }
  }
}
