/** The new-order page (frontend/src/pages/OrderCreate.js): the form the
    page keeps as a map from field name to text, its edits, and the body the
    server's `OrderCreate` model reads out of it. */
module OrderCreate {
  import opened Wrappers
  import opened Records
  import Store

  // The field names of the form, as sent.
  const F_ORDER_TYPE := "order_type"
  const F_CUSTOMER_NAME := "customer_name"
  const F_CUSTOMER_PHONE := "customer_phone"
  const F_CUSTOMER_EMAIL := "customer_email"
  const F_CUSTOMER_ADDRESS := "customer_address"
  const F_TAX_NUMBER := "tax_number"
  const F_TAX_OFFICE := "tax_office"
  const F_DELIVERY_METHOD := "delivery_method"
  const F_WHATSAPP_CONTENT := "whatsapp_content"
  const F_NOTES := "notes"
  // Fields of `OrderCreate` that the form does not have.
  const F_INVOICE_STATUS := "invoice_status"
  const F_CARGO_STATUS := "cargo_status"
  const F_CARGO_COMPANY := "cargo_company"
  const F_CARGO_TRACKING_CODE := "cargo_tracking_code"

  /** The text fields that start empty. */
  const TEXT_FIELDS := {F_CUSTOMER_NAME, F_CUSTOMER_PHONE, F_CUSTOMER_EMAIL, F_CUSTOMER_ADDRESS,
                        F_TAX_NUMBER, F_TAX_OFFICE, F_DELIVERY_METHOD, F_WHATSAPP_CONTENT, F_NOTES}

  /** The values of the delivery select's options, the first of which is "choose one". */
  const DELIVERY_OPTIONS := ["", DELIVERY_CARGO, DELIVERY_HAND]

  /** A showroom user starts on a showroom sale, anyone else (or nobody) on a corporate order. */
  function DefaultOrderType(user: Option<User>): (t: string)
    ensures t == TYPE_SHOWROOM <==> user.Some? && user.value.role == ROLE_SHOWROOM
    ensures t != TYPE_SHOWROOM ==> t == TYPE_CORPORATE
  {
    if user.Some? && user.value.role == ROLE_SHOWROOM then TYPE_SHOWROOM else TYPE_CORPORATE
  }

  /** The form when the page opens: the default type and every text field empty. */
  function InitialForm(user: Option<User>): (form: map<string, string>)
    ensures form.Keys == TEXT_FIELDS + {F_ORDER_TYPE}
    ensures form[F_ORDER_TYPE] == DefaultOrderType(user)
    ensures forall f :: f in TEXT_FIELDS ==> form[f] == ""
  {
    map f | f in TEXT_FIELDS + {F_ORDER_TYPE} :: if f == F_ORDER_TYPE then DefaultOrderType(user) else ""
  }

  /** Tax number and tax office are shown for a corporate order only. */
  predicate TaxFieldsVisible(form: map<string, string>) {
    F_ORDER_TYPE in form && form[F_ORDER_TYPE] == TYPE_CORPORATE
  }

  function Optional(form: map<string, string>, f: string): (v: Option<string>)
    ensures v.Some? <==> f in form
    ensures v.Some? ==> v.value == form[f]
  {
    if f in form then Some(form[f]) else None
  }

  /** The request body as the server's `OrderCreate` model reads it: a sent
      field is its text, an absent optional field is null, absent statuses
      take their defaults, and without an order type the request is refused.
      Hidden tax fields are sent like the others. */
  function Payload(form: map<string, string>): (r: Option<OrderFields>)
    ensures r.None? <==> F_ORDER_TYPE !in form
    ensures r.Some? ==> r.value.orderType == form[F_ORDER_TYPE]
    ensures r.Some? ==> r.value.customerName == Optional(form, F_CUSTOMER_NAME)
    ensures r.Some? ==> r.value.deliveryMethod == Optional(form, F_DELIVERY_METHOD)
    ensures r.Some? ==> r.value.taxNumber == Optional(form, F_TAX_NUMBER) && r.value.taxOffice == Optional(form, F_TAX_OFFICE)
    ensures r.Some? ==> r.value.customerPhone == Optional(form, F_CUSTOMER_PHONE)
    ensures r.Some? ==> r.value.customerEmail == Optional(form, F_CUSTOMER_EMAIL)
    ensures r.Some? ==> r.value.customerAddress == Optional(form, F_CUSTOMER_ADDRESS)
    ensures r.Some? ==> r.value.cargoCompany == Optional(form, F_CARGO_COMPANY)
    ensures r.Some? ==> r.value.cargoTrackingCode == Optional(form, F_CARGO_TRACKING_CODE)
    ensures r.Some? ==> r.value.whatsappContent == Optional(form, F_WHATSAPP_CONTENT)
    ensures r.Some? ==> r.value.notes == Optional(form, F_NOTES)
    ensures r.Some? && F_INVOICE_STATUS in form ==> r.value.invoiceStatus == form[F_INVOICE_STATUS]
    ensures r.Some? && F_INVOICE_STATUS !in form ==> r.value.invoiceStatus == INVOICE_NOT_ISSUED
    ensures r.Some? && F_CARGO_STATUS in form ==> r.value.cargoStatus == form[F_CARGO_STATUS]
    ensures r.Some? && F_CARGO_STATUS !in form ==> r.value.cargoStatus == CARGO_NONE
  {
    if F_ORDER_TYPE !in form then None
    else Some(OrderFields(
      form[F_ORDER_TYPE],
      Optional(form, F_CUSTOMER_NAME), Optional(form, F_CUSTOMER_PHONE),
      Optional(form, F_CUSTOMER_EMAIL), Optional(form, F_CUSTOMER_ADDRESS),
      Optional(form, F_TAX_NUMBER), Optional(form, F_TAX_OFFICE), Optional(form, F_DELIVERY_METHOD),
      if F_INVOICE_STATUS in form then form[F_INVOICE_STATUS] else INVOICE_NOT_ISSUED,
      if F_CARGO_STATUS in form then form[F_CARGO_STATUS] else CARGO_NONE,
      Optional(form, F_CARGO_COMPANY), Optional(form, F_CARGO_TRACKING_CODE),
      Optional(form, F_WHATSAPP_CONTENT), Optional(form, F_NOTES)))
  }

  /** The page's state: the form. */
  class OrderCreatePage {
    var formData: map<string, string>

    /** Every field the page starts with is still there. */
    predicate Valid()
      reads this
    {
      TEXT_FIELDS + {F_ORDER_TYPE} <= formData.Keys
    }

    constructor (user: Option<User>)
      ensures formData == InitialForm(user) && Valid()
    {
      formData := InitialForm(user);
    }

    /** `handleChange`: one field takes the new text, every other keeps its own. */
    method HandleChange(field: string, value: string)
      requires Valid()
      modifies this
      ensures Valid()
      ensures formData == old(formData)[field := value]
    {
      formData := formData[field := value];
    }

    /** `handleSubmit`: the body sent is the form; a valid form always has an order type. */
    method Submit() returns (body: OrderFields)
      requires Valid()
      ensures Payload(formData) == Some(body)
    {
      body := Payload(formData).value;
    }
  }

  /** The server stores a submitted order as incomplete whenever the delivery
      choice or the customer name was left empty, whatever type was chosen,
      and keeps the chosen type otherwise. */
  lemma EmptyChoiceMeansIncomplete(form: map<string, string>)
    requires F_ORDER_TYPE in form && F_DELIVERY_METHOD in form && F_CUSTOMER_NAME in form
    ensures form[F_DELIVERY_METHOD] == "" || form[F_CUSTOMER_NAME] == "" ==>
      Store.EffectiveOrderType(Payload(form).value) == TYPE_INCOMPLETE
    ensures form[F_DELIVERY_METHOD] != "" && form[F_CUSTOMER_NAME] != "" ==>
      Store.EffectiveOrderType(Payload(form).value) == form[F_ORDER_TYPE]
  {
  }

  /** With a customer name filled in, the delivery select decides the stored
      type: "choose one" makes the order incomplete, an actual delivery method
      keeps the chosen type. */
  lemma DeliveryChoiceSettlesType(form: map<string, string>, choice: nat)
    requires choice < |DELIVERY_OPTIONS|
    requires F_ORDER_TYPE in form && F_CUSTOMER_NAME in form && form[F_CUSTOMER_NAME] != ""
    ensures var sent := form[F_DELIVERY_METHOD := DELIVERY_OPTIONS[choice]];
      Store.EffectiveOrderType(Payload(sent).value) == if choice == 0 then TYPE_INCOMPLETE else form[F_ORDER_TYPE]
  {
    EmptyChoiceMeansIncomplete(form[F_DELIVERY_METHOD := DELIVERY_OPTIONS[choice]]);
  }

  /** A form sent as it opened becomes an incomplete order. */
  lemma UntouchedFormIsIncomplete(user: Option<User>)
    ensures Store.EffectiveOrderType(Payload(InitialForm(user)).value) == TYPE_INCOMPLETE
  {
    EmptyChoiceMeansIncomplete(InitialForm(user));
  }

  /** The tax fields show exactly when the chosen type is corporate, so a
      showroom user opens the page without them and a corporate user with them. */
  lemma TaxFieldsOnOpen(user: Option<User>)
    ensures TaxFieldsVisible(InitialForm(user)) <==> !(user.Some? && user.value.role == ROLE_SHOWROOM)
  {
  }
}
