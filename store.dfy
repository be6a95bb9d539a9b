/** The backend's write endpoints over the five MongoDB collections, held as
    in-memory sequences in insertion order. `find_one`, `update_one` and
    `delete_one` act on the first document that matches; ids and timestamps
    are parameters. */
module Store {
  import opened Wrappers
  import opened Collections
  import opened Records
  import opened Kodsuz
  import opened CsvImport

  /** The HTTP errors the endpoints raise: 403, 404 and 400, and 500 for an
      exception the endpoint does not catch. */
  datatype ApiError = Forbidden | NotFound | BadRequest | ServerError

  /** The outcome of an endpoint that returns only a message. */
  datatype Outcome = Done | Failed(error: ApiError)

  function OrderWithId(id: string): Order -> bool {
    (o: Order) => o.id == id
  }

  function ItemWithId(id: string): OrderItem -> bool {
    (i: OrderItem) => i.id == id
  }

  function TypeWithId(id: string): OrderTypeRecord -> bool {
    (t: OrderTypeRecord) => t.id == id
  }

  function TypeWithCode(code: string): OrderTypeRecord -> bool {
    (t: OrderTypeRecord) => t.data.code == code
  }

  function UserWithId(id: string): User -> bool {
    (u: User) => u.id == id
  }

  function UserNamed(name: string): User -> bool {
    (u: User) => u.username == name
  }

  /** `get_next_order_number`: one more than the greatest order number, 1 for no orders. */
  function NextOrderNumber(orders: seq<Order>): (n: int)
    ensures orders == [] ==> n == 1
    ensures forall o :: o in orders ==> o.orderNumber < n
    ensures orders != [] ==> exists o :: o in orders && o.orderNumber == n - 1
  {
    if orders == [] then 1
    else
      var rest := NextOrderNumber(orders[1..]);
      if orders[1..] == [] || orders[0].orderNumber >= rest then orders[0].orderNumber + 1
      else
        var w :| w in orders[1..] && w.orderNumber == rest - 1;
        assert w in orders;
        rest
  }

  /** No two orders share an order number. */
  predicate OrderNumbersUnique(orders: seq<Order>) {
    forall i, j :: 0 <= i < j < |orders| ==> orders[i].orderNumber != orders[j].orderNumber
  }

  /** The order type `create_order` stores: orders without a delivery method
      or without a customer name are demoted to "missing information". */
  function EffectiveOrderType(data: OrderFields): (t: string)
    ensures IsBlank(data.deliveryMethod) || IsBlank(data.customerName) ==> t == TYPE_INCOMPLETE
    ensures !IsBlank(data.deliveryMethod) && !IsBlank(data.customerName) ==> t == data.orderType
  {
    if IsBlank(data.deliveryMethod) || IsBlank(data.customerName) then TYPE_INCOMPLETE else data.orderType
  }

  /** The order `create_order` stores: the request with its type settled, the
      given number, the author, "waiting for information" and no attachments.
      The two timestamps are two separate reads of the clock. */
  function NewOrder(data: OrderFields, number: int, author: User, id: string, created: Timestamp, updated: Timestamp): (o: Order)
    ensures o.fields == data.(orderType := EffectiveOrderType(data))
    ensures o.generalStatus == STATUS_WAITING_INFO && o.attachments == []
    ensures o.orderNumber == number && o.id == id
    ensures o.createdBy == author.id && o.createdByName == author.fullName
    ensures o.createdAt == created && o.updatedAt == updated
  {
    Order(id, number, data.(orderType := EffectiveOrderType(data)), author.id, author.fullName,
          STATUS_WAITING_INFO, [], created, updated)
  }

  /** The order after `update_order`: every client field replaced, the
      modification time set, and the number, author, status, attachments and
      creation time kept; the missing-information rule is not applied again. */
  function UpdatedOrder(o: Order, data: OrderFields, now: Timestamp): (u: Order)
    ensures u.fields == data && u.updatedAt == now
    ensures u.id == o.id && u.orderNumber == o.orderNumber && u.createdAt == o.createdAt
    ensures u.createdBy == o.createdBy && u.createdByName == o.createdByName
    ensures u.generalStatus == o.generalStatus && u.attachments == o.attachments
  {
    o.(fields := data, updatedAt := now)
  }

  /** The item after `update_order_item`: every client field replaced and
      the modification time set; id and creation time kept. */
  function UpdatedItem(i: OrderItem, data: ItemFields, now: Timestamp): (u: OrderItem)
    ensures u.data == data && u.updatedAt == now
    ensures u.id == i.id && u.createdAt == i.createdAt
  {
    i.(data := data, updatedAt := now)
  }

  /** The fields of a product created by `create_manual_product`. */
  function ManualProductFields(name: string, code: string): (f: ProductFields)
    ensures f.productName == name && f.webServiceCode == Some(code)
    ensures f.stock == 0 && f.stockUnit == Some("Adet") && f.isActive
    ensures f.productId.None? && f.barcode.None? && f.brand.None? && f.supplier.None? && f.supplierProductCode.None?
  {
    ProductFields(None, Some(code), name, None, None, 0, Some("Adet"), true, None, None)
  }

  /** No two order types share a code. */
  predicate TypeCodesUnique(types: seq<OrderTypeRecord>) {
    forall i, j :: 0 <= i < j < |types| ==> types[i].data.code != types[j].data.code
  }

  /** No two users share a username. */
  predicate UsernamesUnique(users: seq<User>) {
    forall i, j :: 0 <= i < j < |users| ==> users[i].username != users[j].username
  }

  /** The five collections and the endpoints that change them. */
  class OrderStore {
    var orders: seq<Order>
    var items: seq<OrderItem>
    var products: seq<Product>
    var orderTypes: seq<OrderTypeRecord>
    var users: seq<User>

    constructor ()
      ensures orders == [] && items == [] && products == [] && orderTypes == [] && users == []
    {
      orders, items, products, orderTypes, users := [], [], [], [], [];
    }

    /** `create_order`. The new order's number exceeds every stored one, so
        order numbers stay unique. */
    method CreateOrder(data: OrderFields, author: User, id: string, created: Timestamp, updated: Timestamp)
      returns (o: Order)
      modifies this`orders
      ensures o == NewOrder(data, NextOrderNumber(old(orders)), author, id, created, updated)
      ensures orders == old(orders) + [o]
      ensures forall p :: p in old(orders) ==> p.orderNumber < o.orderNumber
      ensures OrderNumbersUnique(old(orders)) ==> OrderNumbersUnique(orders)
    {
      var number := NextOrderNumber(orders);
      o := NewOrder(data, number, author, id, created, updated);
      orders := orders + [o];
      assert forall i :: 0 <= i < |old(orders)| ==> orders[i] in old(orders);
    }

    /** `update_order`: not found for an unknown id; otherwise the first order
        with that id is replaced by its update and returned. */
    method UpdateOrder(orderId: string, data: OrderFields, now: Timestamp) returns (r: Result<Order, ApiError>)
      modifies this`orders
      ensures FirstMatch(old(orders), OrderWithId(orderId)).None? ==> r == Err(NotFound) && orders == old(orders)
      ensures FirstMatch(old(orders), OrderWithId(orderId)).Some? ==>
        var k := FirstMatch(old(orders), OrderWithId(orderId)).value;
        orders == old(orders)[k := UpdatedOrder(old(orders)[k], data, now)] && r == Ok(orders[k])
    {
      match FirstMatch(orders, OrderWithId(orderId)) {
        case None => r := Err(NotFound);
        case Some(k) =>
          orders := orders[k := UpdatedOrder(orders[k], data, now)];
          r := Ok(orders[k]);
      }
    }

    /** `create_order_item`: the item is appended with its two timestamps,
        two separate reads of the clock. */
    method CreateOrderItem(data: ItemFields, id: string, created: Timestamp, updated: Timestamp)
      returns (item: OrderItem)
      modifies this`items
      ensures item == OrderItem(id, data, created, updated)
      ensures items == old(items) + [item]
    {
      item := OrderItem(id, data, created, updated);
      items := items + [item];
    }

    /** `update_order_item`: not found for an unknown id; otherwise the first
        item with that id is replaced by its update and returned. */
    method UpdateOrderItem(itemId: string, data: ItemFields, now: Timestamp) returns (r: Result<OrderItem, ApiError>)
      modifies this`items
      ensures FirstMatch(old(items), ItemWithId(itemId)).None? ==> r == Err(NotFound) && items == old(items)
      ensures FirstMatch(old(items), ItemWithId(itemId)).Some? ==>
        var k := FirstMatch(old(items), ItemWithId(itemId)).value;
        items == old(items)[k := UpdatedItem(old(items)[k], data, now)] && r == Ok(items[k])
    {
      match FirstMatch(items, ItemWithId(itemId)) {
        case None => r := Err(NotFound);
        case Some(k) =>
          items := items[k := UpdatedItem(items[k], data, now)];
          r := Ok(items[k]);
      }
    }

    /** `delete_order_item`: the first item with that id is removed; an unknown id is not found. */
    method DeleteOrderItem(itemId: string) returns (r: Outcome)
      modifies this`items
      ensures FirstMatch(old(items), ItemWithId(itemId)).None? ==> r == Failed(NotFound) && items == old(items)
      ensures FirstMatch(old(items), ItemWithId(itemId)).Some? ==>
        r == Done && items == RemoveAt(old(items), FirstMatch(old(items), ItemWithId(itemId)).value)
    {
      match FirstMatch(items, ItemWithId(itemId)) {
        case None => r := Failed(NotFound);
        case Some(k) =>
          items := RemoveAt(items, k);
          r := Done;
      }
    }

    /** `create_manual_product` as written: the code comes from the generator
        as written; when `int()` rejects the suffix of the code sorted first,
        the exception becomes a 500 and nothing is stored. */
    method CreateManualProduct(name: string, id: string, now: Timestamp) returns (r: Result<Product, ApiError>)
      modifies this`products
      ensures NextKodsuzCodeAsWritten(old(products)).Err? ==> r == Err(ServerError) && products == old(products)
      ensures NextKodsuzCodeAsWritten(old(products)).Ok? ==>
        r == Ok(Product(id, ManualProductFields(name, NextKodsuzCodeAsWritten(old(products)).value), now)) &&
        products == old(products) + [r.value]
    {
      match NextKodsuzCodeAsWritten(products) {
        case Err(_) => r := Err(ServerError);
        case Ok(code) =>
          var p := Product(id, ManualProductFields(name, code), now);
          products := products + [p];
          r := Ok(p);
      }
    }

    /** `create_manual_product` with the corrected code generator: the new
        product's code is held by no stored product. */
    method CreateManualProductCorrected(name: string, id: string, now: Timestamp) returns (p: Product)
      modifies this`products
      ensures p == Product(id, ManualProductFields(name, NextKodsuzCode(old(products))), now)
      ensures products == old(products) + [p]
      ensures forall q :: q in old(products) ==> q.data.webServiceCode != p.data.webServiceCode
    {
      var code := NextKodsuzCode(products);
      p := Product(id, ManualProductFields(name, code), now);
      products := products + [p];
    }

    /** `upload_products_csv`: the rows are taken one by one, each updating or
        inserting a product and counting itself; a row with a non-integer id or
        stock stops the import there, with the earlier rows in effect. */
    method UploadProductsCsv(rows: seq<CsvRow>, ids: seq<string>, now: Timestamp)
      returns (added: nat, updated: nat, failed: Option<CsvError>)
      requires |ids| == |rows|
      modifies this`products
      ensures ImportFrom(old(products), rows, ids, now, 0, 0) == ImportOutcome(products, added, updated, failed)
    {
      added, updated, failed := 0, 0, None;
      var i := 0;
      while i < |rows|
        invariant 0 <= i <= |rows|
        invariant ImportFrom(products, rows[i..], ids[i..], now, added, updated) == ImportFrom(old(products), rows, ids, now, 0, 0)
      {
        assert rows[i..][1..] == rows[i + 1..] && ids[i..][1..] == ids[i + 1..];
        match MapRow(rows[i]) {
          case Err(e) =>
            failed := Some(e);
            return;
          case Ok(fields) =>
            var u := UpsertOne(products, fields, ids[i], now);
            products := u.products;
            if u.updatedAt.Some? {
              updated := updated + 1;
            } else {
              added := added + 1;
            }
        }
        i := i + 1;
      }
    }

    /** `create_order_type`: admins only, and the code must be new; order-type
        codes therefore stay unique under creation. */
    method CreateOrderType(caller: User, data: OrderTypeFields, id: string, now: Timestamp)
      returns (r: Result<OrderTypeRecord, ApiError>)
      modifies this`orderTypes
      ensures caller.role != ROLE_ADMIN ==> r == Err(Forbidden) && orderTypes == old(orderTypes)
      ensures caller.role == ROLE_ADMIN && (exists t :: t in old(orderTypes) && t.data.code == data.code) ==>
        r == Err(BadRequest) && orderTypes == old(orderTypes)
      ensures caller.role == ROLE_ADMIN && (forall t :: t in old(orderTypes) ==> t.data.code != data.code) ==>
        r == Ok(OrderTypeRecord(id, data, now)) && orderTypes == old(orderTypes) + [r.value]
      ensures TypeCodesUnique(old(orderTypes)) ==> TypeCodesUnique(orderTypes)
    {
      if caller.role != ROLE_ADMIN {
        return Err(Forbidden);
      }
      match FirstMatch(orderTypes, TypeWithCode(data.code)) {
        case Some(k) =>
          assert orderTypes[k] in orderTypes;
          r := Err(BadRequest);
        case None =>
          var t := OrderTypeRecord(id, data, now);
          orderTypes := orderTypes + [t];
          r := Ok(t);
      }
    }

    /** `update_order_type`: admins only; the first type with that id gets every
        client field, its code included, without a uniqueness check. */
    method UpdateOrderType(caller: User, typeId: string, data: OrderTypeFields)
      returns (r: Result<OrderTypeRecord, ApiError>)
      modifies this`orderTypes
      ensures caller.role != ROLE_ADMIN ==> r == Err(Forbidden) && orderTypes == old(orderTypes)
      ensures caller.role == ROLE_ADMIN && FirstMatch(old(orderTypes), TypeWithId(typeId)).None? ==>
        r == Err(NotFound) && orderTypes == old(orderTypes)
      ensures caller.role == ROLE_ADMIN && FirstMatch(old(orderTypes), TypeWithId(typeId)).Some? ==>
        var k := FirstMatch(old(orderTypes), TypeWithId(typeId)).value;
        orderTypes == old(orderTypes)[k := old(orderTypes)[k].(data := data)] && r == Ok(orderTypes[k])
    {
      if caller.role != ROLE_ADMIN {
        return Err(Forbidden);
      }
      match FirstMatch(orderTypes, TypeWithId(typeId)) {
        case None => r := Err(NotFound);
        case Some(k) =>
          orderTypes := orderTypes[k := orderTypes[k].(data := data)];
          r := Ok(orderTypes[k]);
      }
    }

    /** `delete_order_type`: admins only; the first type with that id is removed,
        an unknown id is not found. No reference check is made. */
    method DeleteOrderType(caller: User, typeId: string) returns (r: Outcome)
      modifies this`orderTypes
      ensures caller.role != ROLE_ADMIN ==> r == Failed(Forbidden) && orderTypes == old(orderTypes)
      ensures caller.role == ROLE_ADMIN && FirstMatch(old(orderTypes), TypeWithId(typeId)).None? ==>
        r == Failed(NotFound) && orderTypes == old(orderTypes)
      ensures caller.role == ROLE_ADMIN && FirstMatch(old(orderTypes), TypeWithId(typeId)).Some? ==>
        r == Done && orderTypes == RemoveAt(old(orderTypes), FirstMatch(old(orderTypes), TypeWithId(typeId)).value)
    {
      if caller.role != ROLE_ADMIN {
        return Failed(Forbidden);
      }
      match FirstMatch(orderTypes, TypeWithId(typeId)) {
        case None => r := Failed(NotFound);
        case Some(k) =>
          orderTypes := RemoveAt(orderTypes, k);
          r := Done;
      }
    }

    /** `register`: a taken username is refused; a new user starts active.
        Usernames therefore stay unique under registration. */
    method Register(data: UserCreate, id: string, now: Timestamp) returns (r: Result<User, ApiError>)
      modifies this`users
      ensures (exists u :: u in old(users) && u.username == data.username) ==> r == Err(BadRequest) && users == old(users)
      ensures (forall u :: u in old(users) ==> u.username != data.username) ==>
        r == Ok(User(id, data.username, data.email, data.fullName, data.role, Some(true), now))
        && users == old(users) + [r.value]
      ensures UsernamesUnique(old(users)) ==> UsernamesUnique(users)
    {
      match FirstMatch(users, UserNamed(data.username)) {
        case Some(k) =>
          assert users[k] in users;
          r := Err(BadRequest);
        case None =>
          var u := User(id, data.username, data.email, data.fullName, data.role, Some(true), now);
          users := users + [u];
          r := Ok(u);
      }
    }

    /** `update_user`: admins only; the first user with that id gets the new
        username, email, full name and role, and keeps id, activity and
        creation time. */
    method UpdateUser(caller: User, userId: string, data: UserCreate) returns (r: Result<User, ApiError>)
      modifies this`users
      ensures caller.role != ROLE_ADMIN ==> r == Err(Forbidden) && users == old(users)
      ensures caller.role == ROLE_ADMIN && FirstMatch(old(users), UserWithId(userId)).None? ==>
        r == Err(NotFound) && users == old(users)
      ensures caller.role == ROLE_ADMIN && FirstMatch(old(users), UserWithId(userId)).Some? ==>
        var k := FirstMatch(old(users), UserWithId(userId)).value;
        users == old(users)[k := old(users)[k].(username := data.username, email := data.email,
                                                fullName := data.fullName, role := data.role)]
        && r == Ok(users[k])
    {
      if caller.role != ROLE_ADMIN {
        return Err(Forbidden);
      }
      match FirstMatch(users, UserWithId(userId)) {
        case None => r := Err(NotFound);
        case Some(k) =>
          users := users[k := users[k].(username := data.username, email := data.email,
                                        fullName := data.fullName, role := data.role)];
          r := Ok(users[k]);
      }
    }

    /** `toggle_user_active`: admins only; the first user with that id gets
        the negation of its flag, a missing flag counting as active. */
    method ToggleUserActive(caller: User, userId: string) returns (r: Result<bool, ApiError>)
      modifies this`users
      ensures caller.role != ROLE_ADMIN ==> r == Err(Forbidden) && users == old(users)
      ensures caller.role == ROLE_ADMIN && FirstMatch(old(users), UserWithId(userId)).None? ==>
        r == Err(NotFound) && users == old(users)
      ensures caller.role == ROLE_ADMIN && FirstMatch(old(users), UserWithId(userId)).Some? ==>
        var k := FirstMatch(old(users), UserWithId(userId)).value;
        r == Ok(!old(users)[k].isActive.GetOr(true))
        && users == old(users)[k := old(users)[k].(isActive := Some(r.value))]
    {
      if caller.role != ROLE_ADMIN {
        return Err(Forbidden);
      }
      match FirstMatch(users, UserWithId(userId)) {
        case None => r := Err(NotFound);
        case Some(k) =>
          var newStatus := !users[k].isActive.GetOr(true);
          users := users[k := users[k].(isActive := Some(newStatus))];
          r := Ok(newStatus);
      }
    }

    /** `delete_user`: admins only, never the caller's own account; the first
        user with that id is removed, an unknown id is not found. */
    method DeleteUser(caller: User, userId: string) returns (r: Outcome)
      modifies this`users
      ensures caller.role != ROLE_ADMIN ==> r == Failed(Forbidden) && users == old(users)
      ensures caller.role == ROLE_ADMIN && userId == caller.id ==> r == Failed(BadRequest) && users == old(users)
      ensures caller.role == ROLE_ADMIN && userId != caller.id && FirstMatch(old(users), UserWithId(userId)).None? ==>
        r == Failed(NotFound) && users == old(users)
      ensures caller.role == ROLE_ADMIN && userId != caller.id && FirstMatch(old(users), UserWithId(userId)).Some? ==>
        r == Done && users == RemoveAt(old(users), FirstMatch(old(users), UserWithId(userId)).value)
    {
      if caller.role != ROLE_ADMIN {
        return Failed(Forbidden);
      }
      if userId == caller.id {
        return Failed(BadRequest);
      }
      match FirstMatch(users, UserWithId(userId)) {
        case None => r := Failed(NotFound);
        case Some(k) =>
          users := RemoveAt(users, k);
          r := Done;
      }
    }
  }
}
