/** The order detail page (frontend/src/pages/OrderDetail.js): the list of
    the order's items as the page holds it, the add-item form, the local
    updates after the server accepted a change, and the cargo tracking link. */
module OrderDetail {
  import opened Wrappers
  import opened Collections
  import opened Text
  import opened Numerals
  import opened Records
  import opened Uri
  import Store

  /** The add-item form. */
  datatype NewItemForm = NewItemForm(productName: string, productId: string, quantity: int, itemType: string, itemStatus: string)

  /** The form when the page opens and after each added item: no name, one
      piece, a catalogue product whose status is still to be settled. */
  const DEFAULT_NEW_ITEM := NewItemForm("", "", 1, ITEM_CATALOG, ITEM_TO_BE_CONFIRMED)

  /** The body of the add-item request: the form plus the order id; the
      fields the form does not have are absent. */
  function ItemRequest(form: NewItemForm, orderId: string): (f: ItemFields)
    ensures f.orderId == orderId && f.productName == form.productName && f.quantity == form.quantity
    ensures f.productId == Some(form.productId) && f.itemType == form.itemType && f.itemStatus == form.itemStatus
    ensures f.notes.None? && f.supplierInfo.None? && f.estimatedReadyDate.None?
  {
    ItemFields(orderId, Some(form.productId), form.productName, form.quantity, form.itemType, form.itemStatus, None, None, None)
  }

  function IdDiffers(id: string): OrderItem -> bool {
    (i: OrderItem) => i.id != id
  }

  function IdIs(id: string): OrderItem -> bool {
    (i: OrderItem) => i.id == id
  }

  function WithStatus(status: string): OrderItem -> OrderItem {
    (i: OrderItem) => i.(data := i.data.(itemStatus := status))
  }

  predicate ItemIdsUnique(items: seq<OrderItem>) {
    forall i, j :: 0 <= i < j < |items| ==> items[i].id != items[j].id
  }

  /** The body of the status-change request: the first item with that id,
      its status replaced; with no such item there is nothing the server accepts. */
  function StatusRequest(items: seq<OrderItem>, itemId: string, status: string): (r: Option<ItemFields>)
    ensures r.None? <==> forall k :: 0 <= k < |items| ==> items[k].id != itemId
    ensures r.Some? ==> exists k :: 0 <= k < |items| && items[k].id == itemId && r.value == items[k].data.(itemStatus := status)
  {
    match FirstMatch(items, IdIs(itemId))
    case None => None
    case Some(k) => Some(items[k].data.(itemStatus := status))
  }

  /** The page's state: the order it shows, its items, and the add-item form. */
  class OrderDetailPage {
    const orderId: string
    var items: seq<OrderItem>
    var newItem: NewItemForm

    /** The page after loading an order and its items. */
    constructor (orderId: string, loaded: seq<OrderItem>)
      ensures this.orderId == orderId && items == loaded && newItem == DEFAULT_NEW_ITEM
    {
      this.orderId := orderId;
      items := loaded;
      newItem := DEFAULT_NEW_ITEM;
    }

    /** `handleAddItem`: an empty product name sends nothing and changes
        nothing; otherwise the form is sent, and only when the server answers
        with the created item is it appended and the form reset. */
    method AddItem(response: Option<OrderItem>) returns (sent: Option<ItemFields>)
      modifies this`items, this`newItem
      ensures sent.None? <==> old(newItem).productName == ""
      ensures sent.Some? ==> sent.value == ItemRequest(old(newItem), orderId)
      ensures sent.Some? && response.Some? ==> items == old(items) + [response.value] && newItem == DEFAULT_NEW_ITEM
      ensures sent.None? || response.None? ==> items == old(items) && newItem == old(newItem)
    {
      if newItem.productName == "" {
        return None;
      }
      sent := Some(ItemRequest(newItem, orderId));
      if response.Some? {
        items := items + [response.value];
        newItem := DEFAULT_NEW_ITEM;
      }
    }

    /** The product-name input. */
    method SetProductName(name: string)
      modifies this`newItem
      ensures newItem == old(newItem).(productName := name)
    {
      newItem := newItem.(productName := name);
    }

    /** The quantity input: `parseInt(text) || 1`. */
    method SetQuantity(text: string)
      modifies this`newItem
      ensures newItem == old(newItem).(quantity := JsParseIntOr(text, 1))
    {
      newItem := newItem.(quantity := JsParseIntOr(text, 1));
    }

    /** The item-status select. */
    method SetItemStatus(status: string)
      modifies this`newItem
      ensures newItem == old(newItem).(itemStatus := status)
    {
      newItem := newItem.(itemStatus := status);
    }

    /** `handleDeleteItem`: once the server confirmed the deletion, every item
        with that id leaves the list; a failed request changes nothing. */
    method DeleteItem(itemId: string, succeeded: bool)
      modifies this`items
      ensures succeeded ==> items == Filter(old(items), IdDiffers(itemId))
      ensures !succeeded ==> items == old(items)
    {
      if succeeded {
        items := Filter(items, IdDiffers(itemId));
      }
    }

    /** `handleUpdateItemStatus`: the request carries the item with its new
        status; once the server accepted it, every item with that id takes the
        new status. */
    method UpdateItemStatus(itemId: string, status: string, succeeded: bool) returns (body: Option<ItemFields>)
      modifies this`items
      ensures body == StatusRequest(old(items), itemId, status)
      ensures succeeded ==> items == MapWhere(old(items), IdIs(itemId), WithStatus(status))
      ensures !succeeded ==> items == old(items)
    {
      body := StatusRequest(items, itemId, status);
      if succeeded {
        items := MapWhere(items, IdIs(itemId), WithStatus(status));
      }
    }
  }

  /** After a delete no item has the id, every other item is still there, in
      its order. */
  lemma DeleteRemovesOnlyThatId(items: seq<OrderItem>, itemId: string)
    ensures forall i :: i in Filter(items, IdDiffers(itemId)) ==> i.id != itemId
    ensures forall i :: i in items && i.id != itemId ==> i in Filter(items, IdDiffers(itemId))
    ensures IsSubsequence(Filter(items, IdDiffers(itemId)), items)
  {
    forall i | i in items && i.id != itemId ensures i in Filter(items, IdDiffers(itemId)) {
      FilterKeeps(items, IdDiffers(itemId), i);
    }
    FilterIsSubsequence(items, IdDiffers(itemId));
  }

  /** Filtering out the one element that fails `p` is removing it by position. */
  lemma FilterDropsOne<T>(s: seq<T>, p: T -> bool, k: nat)
    requires k < |s| && !p(s[k])
    requires forall j :: 0 <= j < |s| && j != k ==> p(s[j])
    ensures Filter(s, p) == RemoveAt(s, k)
  {
    var before, after := s[..k], s[k + 1..];
    assert s == before + ([s[k]] + after);
    forall j | 0 <= j < |before| ensures p(before[j]) {
      assert before[j] == s[j];
    }
    forall j | 0 <= j < |after| ensures p(after[j]) {
      assert after[j] == s[k + 1 + j];
    }
    FilterAll(before, p);
    FilterAll(after, p);
    FilterAppend(before, [s[k]] + after, p);
    FilterAppend([s[k]], after, p);
    assert Filter([s[k]], p) == [];
    assert Filter(s, p) == before + after;
  }

  /** With unique item ids the page's delete agrees with the server's
      `delete_order_item`, which removes the first item with that id. */
  lemma DeleteAgreesWithServer(items: seq<OrderItem>, itemId: string)
    requires ItemIdsUnique(items)
    requires FirstMatch(items, Store.ItemWithId(itemId)).Some?
    ensures Filter(items, IdDiffers(itemId)) == RemoveAt(items, FirstMatch(items, Store.ItemWithId(itemId)).value)
  {
    var k := FirstMatch(items, Store.ItemWithId(itemId)).value;
    assert items[k].id == itemId;
    FilterDropsOne(items, IdDiffers(itemId), k);
  }

  /** With unique item ids the page's status change agrees with the server's
      `update_order_item` applied to the request body: the same item gets the
      same data, and only the server's modification time differs. */
  lemma StatusAgreesWithServer(items: seq<OrderItem>, itemId: string, status: string, now: Timestamp)
    requires ItemIdsUnique(items)
    requires FirstMatch(items, Store.ItemWithId(itemId)).Some?
    ensures StatusRequest(items, itemId, status).Some?
    ensures var k := FirstMatch(items, Store.ItemWithId(itemId)).value;
      var local := MapWhere(items, IdIs(itemId), WithStatus(status));
      var server := items[k := Store.UpdatedItem(items[k], StatusRequest(items, itemId, status).value, now)];
      |local| == |server| && local[k] == server[k].(updatedAt := items[k].updatedAt)
      && forall j :: 0 <= j < |local| && j != k ==> local[j] == server[j]
  {
    var k := FirstMatch(items, Store.ItemWithId(itemId)).value;
    assert items[k].id == itemId;
    assert FirstMatch(items, IdIs(itemId)) == Some(k) by {
      FirstMatchSame(items, itemId);
    }
  }

  lemma {:induction false} FirstMatchSame(items: seq<OrderItem>, itemId: string)
    ensures FirstMatch(items, IdIs(itemId)) == FirstMatch(items, Store.ItemWithId(itemId))
  {
    if items != [] {
      FirstMatchSame(items[1..], itemId);
    }
  }

  /** The quantity input never yields zero: an unreadable or zero entry
      becomes one piece, and any other number typed in is taken as it is,
      negative ones included. */
  lemma QuantityInput(text: string, n: int)
    ensures JsParseIntOr(text, 1) != 0
    ensures JsParseInt(text) == Some(0) || JsParseInt(text).None? ==> JsParseIntOr(text, 1) == 1
    ensures n != 0 ==> JsParseIntOr(IntToString(n), 1) == n
  {
    JsParseIntOfString(n);
  }

  /** `getItemStatusLabel`; an unknown status shows itself. */
  function ItemStatusLabel(status: string): (l: string)
    ensures status == ITEM_TO_BE_CONFIRMED ==> l == "Netle\U{15F}ecek"
    ensures status == ITEM_IN_STOCK ==> l == "Stokta"
    ensures status == ITEM_TO_BE_PROCURED ==> l == "Temin Edilecek"
    ensures status == ITEM_IN_PRODUCTION ==> l == "\U{DC}retimde"
    ensures status == ITEM_READY ==> l == "Haz\U{131}r"
    ensures status == ITEM_SENT ==> l == "G\U{F6}nderildi"
    ensures status == ITEM_CANCELLED ==> l == "\U{130}ptal"
    ensures status !in {ITEM_TO_BE_CONFIRMED, ITEM_IN_STOCK, ITEM_TO_BE_PROCURED, ITEM_IN_PRODUCTION, ITEM_READY, ITEM_SENT, ITEM_CANCELLED} ==> l == status
  {
    if status == ITEM_TO_BE_CONFIRMED then "Netle\U{15F}ecek"
    else if status == ITEM_IN_STOCK then "Stokta"
    else if status == ITEM_TO_BE_PROCURED then "Temin Edilecek"
    else if status == ITEM_IN_PRODUCTION then "\U{DC}retimde"
    else if status == ITEM_READY then "Haz\U{131}r"
    else if status == ITEM_SENT then "G\U{F6}nderildi"
    else if status == ITEM_CANCELLED then "\U{130}ptal"
    else status
  }

  /** The delivery field of the detail card: either known method, or a dash. */
  function DeliveryText(deliveryMethod: Option<string>): (l: string)
    ensures deliveryMethod == Some(DELIVERY_CARGO) <==> l == "Kargo"
    ensures deliveryMethod == Some(DELIVERY_HAND) <==> l == "Elden"
    ensures deliveryMethod !in {Some(DELIVERY_CARGO), Some(DELIVERY_HAND)} <==> l == "-"
  {
    if deliveryMethod == Some(DELIVERY_CARGO) then "Kargo"
    else if deliveryMethod == Some(DELIVERY_HAND) then "Elden"
    else "-"
  }

  /** The invoice field of the detail card. */
  function InvoiceText(invoiceStatus: string): (l: string)
    ensures l == "Kesildi" <==> invoiceStatus == INVOICE_ISSUED
    ensures l == "Kesilmedi" <==> invoiceStatus != INVOICE_ISSUED
  {
    if invoiceStatus == INVOICE_ISSUED then "Kesildi" else "Kesilmedi"
  }

  /** The carrier name as a lookup key: lower-cased, all whitespace removed. */
  function NormalizeCompany(company: string): (k: string)
    ensures forall i :: 0 <= i < |k| ==> !IsJsSpace(k[i])
  {
    RemoveSpacesKeepsOthers(Lower(company));
    var k := ReplaceSpaceRuns(Lower(company), "");
    assert forall i :: 0 <= i < |k| ==> k[i] in k;
    k
  }

  /** Normalising a key again changes nothing. */
  lemma NormalizeIdempotent(company: string)
    ensures NormalizeCompany(NormalizeCompany(company)) == NormalizeCompany(company)
  {
    var k := NormalizeCompany(company);
    RemoveSpacesKeepsOthers(Lower(company));
    LowerYieldsFixed(company);
    forall i | 0 <= i < |k| ensures IsLowerFixed(k[i]) {
      assert k[i] in Lower(company);
    }
    LowerOfFixed(k);
    ReplaceSpaceRunsNoSpace(k, "");
  }

  /** The tracking-page prefix of each known carrier, by key. */
  function CarrierPrefix(key: string): Option<string> {
    if key == "aras" then Some("https://www.araskargo.com.tr/tr/cargo-tracking?code=")
    else if key == "yurtici" then Some("https://www.yurticikargo.com/tr/online-servisler/gonderi-sorgula?code=")
    else if key == "mng" then Some("https://www.mngkargo.com.tr/shipmentquery?q=")
    else if key == "ups" then Some("https://www.ups.com/track?tracknum=")
    else if key == "dhl" then Some("https://www.dhl.com/tr-tr/home/tracking.html?tracking-id=")
    else if key == "fedex" then Some("https://www.fedex.com/fedextrack/?trknbr=")
    else if key == "ptt" then Some("https://gonderitakip.ptt.gov.tr/Track/Verify?barcode=")
    else if key == "s\U{FC}rat" then Some("https://www.suratkargo.com.tr/kargo-takip?code=")
    else if key == "horoz" then Some("https://www.horozlojistik.com/tr/kargo-takip?code=")
    else None
  }

  const SEARCH_PREFIX := "https://www.google.com/search?q="

  /** `getCargoTrackingUrl`: no link (`#`) without both a carrier and a code;
      a known carrier's own tracking page with the code appended as it is;
      otherwise a web search for the carrier, the words "kargo takip" and the
      code, encoded as one query value. */
  function CargoTrackingUrl(company: Option<string>, code: Option<string>): (url: string)
    ensures url == "#" <==> IsBlank(company) || IsBlank(code)
    ensures !IsBlank(company) && !IsBlank(code) && CarrierPrefix(NormalizeCompany(company.value)).Some? ==>
      url == CarrierPrefix(NormalizeCompany(company.value)).value + code.value
    ensures !IsBlank(company) && !IsBlank(code) && CarrierPrefix(NormalizeCompany(company.value)).None? ==>
      url == SEARCH_PREFIX + EncodeURIComponent(company.value + " kargo takip " + code.value)
  {
    if IsBlank(company) || IsBlank(code) then "#"
    else match CarrierPrefix(NormalizeCompany(company.value))
      case Some(prefix) => prefix + code.value
      case None => SEARCH_PREFIX + EncodeURIComponent(company.value + " kargo takip " + code.value)
  }

  /** A whitespace character anywhere in the carrier name does not change its key. */
  lemma SpaceIgnored(a: string, c: char, b: string)
    requires IsJsSpace(c)
    ensures NormalizeCompany(a + [c] + b) == NormalizeCompany(a + b)
  {
    NormalizeIsFilter(a + [c] + b);
    NormalizeIsFilter(a + b);
    LowerKeepsSpace(a, c, b);
    LowerAppend(a, b);
    FilterDropsSpace(Lower(a), c, Lower(b));
  }

  lemma NormalizeIsFilter(company: string)
    ensures NormalizeCompany(company) == Filter(Lower(company), NotSpace)
  {
    RemoveSpacesKeepsOthers(Lower(company));
  }

  lemma LowerKeepsSpace(a: string, c: char, b: string)
    requires IsJsSpace(c)
    ensures Lower(a + [c] + b) == Lower(a) + [c] + Lower(b)
  {
    LowerAppend(a + [c], b);
    LowerAppend(a, [c]);
    LowerOfSpace(c);
  }

  lemma LowerOfSpace(c: char)
    requires IsJsSpace(c)
    ensures Lower([c]) == [c]
  {
    LowerCharSpaces(c);
    assert [c][1..] == [];
  }

  lemma FilterDropsSpace(x: string, c: char, y: string)
    requires IsJsSpace(c)
    ensures Filter(x + [c] + y, NotSpace) == Filter(x + y, NotSpace)
  {
    FilterAppend(x + [c], y, NotSpace);
    FilterAppend(x, [c], NotSpace);
    FilterAppend(x, y, NotSpace);
    assert Filter([c], NotSpace) == [];
  }

  /** The case of the carrier name does not change its key. */
  lemma CaseIgnored(company: string)
    ensures NormalizeCompany(Lower(company)) == NormalizeCompany(company)
  {
    LowerIdempotent(company);
  }
}
