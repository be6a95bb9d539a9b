/** The order list page (frontend/src/pages/Orders.js): the client-side
    search over the loaded orders and the labels each row shows. */
module OrdersPage {
  import opened Wrappers
  import opened Collections
  import opened Text
  import opened Numerals
  import opened Records

  /** A badge: the text shown and its colour classes. */
  datatype Badge = Badge(caption: string, style: string)

  /** The order-type badge; an unknown type shows itself in grey. */
  function OrderTypeBadge(orderType: string): (b: Badge)
    ensures orderType == TYPE_SHOWROOM ==> b == Badge("Perakende", "emerald")
    ensures orderType == TYPE_CORPORATE ==> b == Badge("Kurumsal", "indigo")
    ensures orderType == TYPE_INCOMPLETE ==> b == Badge("Eksik Bilgi", "amber")
    ensures orderType !in {TYPE_SHOWROOM, TYPE_CORPORATE, TYPE_INCOMPLETE} ==> b == Badge(orderType, "zinc")
  {
    if orderType == TYPE_SHOWROOM then Badge("Perakende", "emerald")
    else if orderType == TYPE_CORPORATE then Badge("Kurumsal", "indigo")
    else if orderType == TYPE_INCOMPLETE then Badge("Eksik Bilgi", "amber")
    else Badge(orderType, "zinc")
  }

  /** The general-status badge, the same on the list and the detail page; an
      unknown status shows itself in grey. */
  function StatusBadge(status: string): (b: Badge)
    ensures status == STATUS_WAITING_INFO ==> b == Badge("Bilgi Bekliyor", "bg-amber-100 text-amber-800")
    ensures status == STATUS_IN_PROGRESS ==> b == Badge("\U{130}\U{15F}lemde", "bg-blue-100 text-blue-800")
    ensures status == STATUS_READY ==> b == Badge("Haz\U{131}r", "bg-emerald-100 text-emerald-800")
    ensures status == STATUS_COMPLETED ==> b == Badge("Tamamland\U{131}", "bg-zinc-100 text-zinc-800")
    ensures status !in {STATUS_WAITING_INFO, STATUS_IN_PROGRESS, STATUS_READY, STATUS_COMPLETED} ==>
      b == Badge(status, "bg-zinc-100 text-zinc-800")
  {
    if status == STATUS_WAITING_INFO then Badge("Bilgi Bekliyor", "bg-amber-100 text-amber-800")
    else if status == STATUS_IN_PROGRESS then Badge("\U{130}\U{15F}lemde", "bg-blue-100 text-blue-800")
    else if status == STATUS_READY then Badge("Haz\U{131}r", "bg-emerald-100 text-emerald-800")
    else if status == STATUS_COMPLETED then Badge("Tamamland\U{131}", "bg-zinc-100 text-zinc-800")
    else Badge(status, "bg-zinc-100 text-zinc-800")
  }

  /** The four known statuses get four different labels, none of them a raw status code. */
  lemma StatusLabelsDistinct(s: string, t: string)
    requires s in {STATUS_WAITING_INFO, STATUS_IN_PROGRESS, STATUS_READY, STATUS_COMPLETED}
    requires t in {STATUS_WAITING_INFO, STATUS_IN_PROGRESS, STATUS_READY, STATUS_COMPLETED}
    ensures s != t ==> StatusBadge(s).caption != StatusBadge(t).caption
    ensures StatusBadge(s).caption !in {STATUS_WAITING_INFO, STATUS_IN_PROGRESS, STATUS_READY, STATUS_COMPLETED}
  {
  }

  /** The invoice line: issued or not issued, nothing else. */
  function InvoiceLabel(invoiceStatus: string): (l: string)
    ensures l == "\U{2713} Kesildi" <==> invoiceStatus == INVOICE_ISSUED
    ensures l == "\U{D7} Kesilmedi" <==> invoiceStatus != INVOICE_ISSUED
  {
    if invoiceStatus == INVOICE_ISSUED then "\U{2713} Kesildi" else "\U{D7} Kesilmedi"
  }

  /** The cargo line: a tick for delivered, the raw status otherwise. */
  function CargoLabel(cargoStatus: string): (l: string)
    ensures cargoStatus == CARGO_DELIVERED ==> l == "\U{2713} Teslim"
    ensures cargoStatus != CARGO_DELIVERED ==> l == cargoStatus
  {
    if cargoStatus == CARGO_DELIVERED then "\U{2713} Teslim" else cargoStatus
  }

  /** The delivery line, shown only for a non-empty method; anything but
      `kargo` reads as hand delivery. */
  function DeliveryLine(deliveryMethod: Option<string>): (l: Option<string>)
    ensures l.None? <==> IsBlank(deliveryMethod)
    ensures l == Some("Kargo") <==> deliveryMethod == Some(DELIVERY_CARGO)
    ensures l.Some? && deliveryMethod != Some(DELIVERY_CARGO) ==> l == Some("Elden")
  {
    if IsBlank(deliveryMethod) then None
    else if deliveryMethod.value == DELIVERY_CARGO then Some("Kargo") else Some("Elden")
  }

  /** An order matches a non-empty search term, lower-cased, when the term
      occurs in its number, in its lower-cased customer name (an absent name
      never matches) or in its lower-cased author name. The empty term matches
      every order. */
  predicate SearchMatch(term: string, o: Order) {
    term == ""
    || (var search := Lower(term);
        Contains(IntToString(o.orderNumber), search)
        || (o.fields.customerName.Some? && Contains(Lower(o.fields.customerName.value), search))
        || Contains(Lower(o.createdByName), search))
  }

  function SearchMatchBy(term: string): Order -> bool {
    o => SearchMatch(term, o)
  }

  /** `filteredOrders`: the loaded orders that match the term, in their loaded order. */
  function FilteredOrders(orders: seq<Order>, term: string): (r: seq<Order>)
    ensures forall o :: o in r <==> o in orders && SearchMatch(term, o)
    ensures IsSubsequence(r, orders)
  {
    var r := Filter(orders, SearchMatchBy(term));
    forall o | o in orders && SearchMatch(term, o) ensures o in r {
      FilterKeeps(orders, SearchMatchBy(term), o);
    }
    FilterIsSubsequence(orders, SearchMatchBy(term));
    r
  }

  /** The empty search term lists every order. */
  lemma EmptySearchKeepsAll(orders: seq<Order>)
    ensures FilteredOrders(orders, "") == orders
  {
    FilterAll(orders, SearchMatchBy(""));
  }

  /** An order without a customer name is found only through its number or its author. */
  lemma AbsentCustomerName(term: string, o: Order)
    requires term != "" && o.fields.customerName.None?
    ensures SearchMatch(term, o) <==>
      Contains(IntToString(o.orderNumber), Lower(term)) || Contains(Lower(o.createdByName), Lower(term))
  {
  }

  /** Every character of a number's decimal rendering is left alone by lower-casing. */
  lemma LowerOfNumber(n: int)
    ensures Lower(IntToString(n)) == IntToString(n)
  {
    var s := IntToString(n);
    var d := NatToDigits(if n < 0 then -n else n);
    forall k | 0 <= k < |s| ensures IsLowerFixed(s[k]) {
      if n < 0 && k > 0 {
        assert s[k] == d[k - 1];
      }
    }
    LowerOfFixed(s);
  }

  /** Searching for an order's number finds it. */
  lemma FoundByNumber(o: Order)
    ensures SearchMatch(IntToString(o.orderNumber), o)
  {
    var s := IntToString(o.orderNumber);
    LowerOfNumber(o.orderNumber);
    assert StartsWith(s, s);
  }

  /** The search ignores case: a term and its lower-cased form find the same orders. */
  lemma SearchIgnoresCase(term: string, o: Order)
    ensures SearchMatch(term, o) <==> SearchMatch(Lower(term), o)
  {
    LowerIdempotent(term);
    if term != [] {
      assert Lower(term) == LowerChar(term[0]) + Lower(term[1..]);
    }
  }
}
