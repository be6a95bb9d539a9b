/** The backend's records (the Pydantic models of backend/server.py) and the
    fixed vocabularies of roles, order types and statuses. Each stored record
    is split into the fields a client sends (`OrderFields` is `OrderCreate`,
    `ItemFields` is `OrderItemCreate`, ...) and the fields the server adds
    (id, order number, author, timestamps), because the update endpoints
    overwrite exactly the former. */
module Records {
  import opened Wrappers

  /** An ISO-8601 instant as stored; the clock is a parameter of the model. */
  type Timestamp = string

  // User roles.
  const ROLE_SHOWROOM := "showroom"
  const ROLE_CORPORATE_SALES := "corporate_sales"
  const ROLE_WAREHOUSE := "warehouse"
  const ROLE_FINANCE := "finance"
  const ROLE_ACCOUNTING := "accounting"
  const ROLE_ADMIN := "admin"

  // Order types.
  const TYPE_SHOWROOM := "showroom_satis"
  const TYPE_CORPORATE := "cari_kurumsal"
  const TYPE_INCOMPLETE := "eksik_bilgili"

  // General order statuses.
  const STATUS_WAITING_INFO := "bilgi_bekliyor"
  const STATUS_IN_PROGRESS := "islemde"
  const STATUS_READY := "hazir"
  const STATUS_COMPLETED := "tamamlandi"

  // Invoice statuses.
  const INVOICE_NOT_ISSUED := "kesilmedi"
  const INVOICE_ISSUED := "kesildi"

  // Cargo statuses.
  const CARGO_NONE := "yok"
  const CARGO_PREPARING := "hazirlaniyor"
  const CARGO_IN_TRANSIT := "kargoda"
  const CARGO_DELIVERED := "teslim"

  // Delivery methods.
  const DELIVERY_CARGO := "kargo"
  const DELIVERY_HAND := "elden"

  // Order item statuses.
  const ITEM_TO_BE_CONFIRMED := "netlesecek"
  const ITEM_IN_STOCK := "stokta"
  const ITEM_TO_BE_PROCURED := "temin_edilecek"
  const ITEM_IN_PRODUCTION := "uretimde"
  const ITEM_READY := "hazir"
  const ITEM_SENT := "gonderildi"
  const ITEM_CANCELLED := "iptal"

  // Order item kinds.
  const ITEM_CATALOG := "katalog_urunu"
  const ITEM_MANUAL := "manuel"
  const ITEM_SERVICE := "hizmet"

  /** A user account; `isActive` is `None` for a stored document without the
      field. The password hash is not modelled. */
  datatype User = User(
    id: string, username: string, email: Option<string>, fullName: string,
    role: string, isActive: Option<bool>, createdAt: Timestamp)

  /** The body of `register` and `update_user`. */
  datatype UserCreate = UserCreate(
    username: string, password: string, email: Option<string>, fullName: string, role: string)

  /** The client-supplied part of a product (`ProductCreate`). */
  datatype ProductFields = ProductFields(
    productId: Option<int>, webServiceCode: Option<string>, productName: string,
    supplierProductCode: Option<string>, barcode: Option<string>, stock: int,
    stockUnit: Option<string>, isActive: bool, brand: Option<string>, supplier: Option<string>)

  datatype Product = Product(id: string, data: ProductFields, createdAt: Timestamp)

  /** The client-supplied part of an order (`OrderCreate`), after Pydantic has
      filled in the defaults `kesilmedi` and `yok` for absent statuses. */
  datatype OrderFields = OrderFields(
    orderType: string, customerName: Option<string>, customerPhone: Option<string>,
    customerEmail: Option<string>, customerAddress: Option<string>,
    taxNumber: Option<string>, taxOffice: Option<string>, deliveryMethod: Option<string>,
    invoiceStatus: string, cargoStatus: string, cargoCompany: Option<string>,
    cargoTrackingCode: Option<string>, whatsappContent: Option<string>, notes: Option<string>)

  /** A stored order: the client fields plus what the server assigns. */
  datatype Order = Order(
    id: string, orderNumber: int, fields: OrderFields, createdBy: string,
    createdByName: string, generalStatus: string, attachments: seq<string>,
    createdAt: Timestamp, updatedAt: Timestamp)

  /** The client-supplied part of an order item (`OrderItemCreate`). */
  datatype ItemFields = ItemFields(
    orderId: string, productId: Option<string>, productName: string, quantity: int,
    itemType: string, itemStatus: string, notes: Option<string>,
    supplierInfo: Option<string>, estimatedReadyDate: Option<string>)

  datatype OrderItem = OrderItem(id: string, data: ItemFields, createdAt: Timestamp, updatedAt: Timestamp)

  /** The client-supplied part of a configurable order type (`OrderTypeCreate`). */
  datatype OrderTypeFields = OrderTypeFields(
    name: string, code: string, description: Option<string>, isActive: bool, order: int)

  datatype OrderTypeRecord = OrderTypeRecord(id: string, data: OrderTypeFields, createdAt: Timestamp)

  /** Python truthiness of an optional string: `None` and `""` are false. */
  predicate IsBlank(v: Option<string>) {
    v.None? || v.value == ""
  }
}
