# OrderMate order rules in Dafny

OrderMate is a small order-management system: a FastAPI backend over five
MongoDB collections (orders, order items, products, order types, users) and
a React frontend. This project models the deterministic rules of both sides
and proves properties about them.

- **Backend store.** `Store.OrderStore` keeps the five collections as
  sequences in insertion order. Its methods are the write endpoints:
  - order creation, with sequential numbers and the "missing information"
    demotion;
  - full-replace updates of orders and items;
  - deletion of items;
  - manual products with their `KodsuzA####` codes;
  - the CSV product import, with its added/updated counters;
  - the guarded order-type and user endpoints.
- **Backend queries.** `OrderQueries` models the role-based order query
  shared by the order list and the dashboard counters.
- **Frontend pages.** Each page is a module:
  - `OrdersPage`: search and badges;
  - `OrderDetail`: the item list, item labels and cargo tracking links;
  - `OrderCreate`: the new-order form;
  - `SettingsPage`: order types and the PDF template;
  - `Layout`: navigation and role display;
  - `DashboardPage`: counter cards and the alert box.

  The state a page changes in place is a class with `modifies` clauses.
  Pure lookups are functions.
- **Shared helpers.** `Wrappers`, `Collections`, `Text`, `Numerals`, `Uri` and
  `Records` hold the building blocks the pages and the store share:
  - the JavaScript string and number coercions (`toLowerCase`, `\s`,
    `parseInt`, `encodeURIComponent`);
  - Python's `int()` and `{:04d}`;
  - the record types.

MongoDB's `find_one`, `update_one` and `delete_one` act on the first matching
document (`Collections.FirstMatch`). UUIDs and the clock are parameters.

## Model

| member | source | states |
|---|---|---|
| Store.NextOrderNumber | backend/server.py:680-687 | 1 for an empty store; otherwise greater than every stored order number and exactly one more than the largest |
| Store.EffectiveOrderType | backend/server.py:689-693 | the stored type is `eksik_bilgili` when the delivery method or customer name is absent or empty, and the requested type otherwise |
| Store.NewOrder | backend/server.py:694-699 | the new order carries the request with its settled type, the given number and author, status `bilgi_bekliyor`, no attachments, and the creation and modification times of its two separate clock reads |
| Store.UpdatedOrder | backend/server.py:769-776 | every client field replaced and `updated_at` set; id, number, author, status, attachments and creation time kept; the type rule is not re-applied |
| Store.UpdatedItem | backend/server.py:818-825 | every client field of the item replaced and `updated_at` set; id and creation time kept |
| Store.ManualProductFields | backend/server.py:521-531 | a manual product has the given name and code, stock 0, unit `Adet`, is active, and has no other fields |
| Store.OrderStore.constructor | backend/server.py:28-31 | all five collections start empty |
| Store.OrderStore.CreateOrder | backend/server.py:689-708 | appends the new order, built from two clock reads; its number exceeds every stored one, so unique order numbers stay unique |
| Store.OrderStore.UpdateOrder | backend/server.py:769-787 | not found for an unknown id with the store unchanged; otherwise only the first order with that id changes, to its update, and is returned |
| Store.OrderStore.CreateOrderItem | backend/server.py:789-796 | appends the item with the creation and modification times of its two separate clock reads |
| Store.OrderStore.UpdateOrderItem | backend/server.py:818-834 | not found for an unknown id with items unchanged; otherwise only the first item with that id changes, to its update |
| Store.OrderStore.DeleteOrderItem | backend/server.py:836-843 | not found and unchanged for an unknown id; otherwise exactly the first item with that id is removed |
| Store.OrderStore.CreateManualProduct | backend/server.py:518-540 | as written: when `int()` rejects the suffix of the code sorted first, a server error and nothing stored; otherwise appends a product named as requested, stock 0 `Adet`, active, carrying the code of the generator as written |
| Store.OrderStore.CreateManualProductCorrected | backend/server.py:518-540 | with the corrected generator: appends the manual product, whose code no stored product holds |
| Store.OrderStore.UploadProductsCsv | backend/server.py:624-678 | the row loop ends with the store, counters and error of `CsvImport.ImportFrom` over all rows |
| Store.OrderStore.CreateOrderType | backend/server.py:455-469 | non-admins are forbidden and an existing code is a bad request, both with nothing stored; otherwise the type is appended; unique codes stay unique |
| Store.OrderStore.UpdateOrderType | backend/server.py:471-486 | forbidden for non-admins, not found for an unknown id; otherwise the first type with that id gets every client field, with no code check |
| Store.OrderStore.DeleteOrderType | backend/server.py:488-497 | forbidden for non-admins, not found for an unknown id, otherwise exactly the first type with that id is removed |
| Store.OrderStore.Register | backend/server.py:268-291 | a taken username is a bad request with nothing stored; otherwise an active user is appended; unique usernames stay unique |
| Store.OrderStore.UpdateUser | backend/server.py:328-353 | forbidden for non-admins, not found for an unknown id; otherwise the first user with that id gets the new username, email, full name and role and keeps id, activity and creation time |
| Store.OrderStore.ToggleUserActive | backend/server.py:355-367 | forbidden for non-admins, not found for an unknown id; otherwise the flag becomes the negation of the stored one, an absent flag counting as true, and that new value is returned |
| Store.OrderStore.DeleteUser | backend/server.py:369-383 | forbidden for non-admins, a bad request for the caller's own id, not found for an unknown id; otherwise exactly the first user with that id is removed |
| Kodsuz.KodsuzCodes | backend/server.py:502-505 | lists every stored code that starts with `KodsuzA`, and nothing else |
| Kodsuz.Greatest | backend/server.py:505-506 | the code a descending string sort puts first is listed and is greater than or equal to every listed code |
| Kodsuz.StrLeTotal | backend/server.py:506 | the string order of the sort is total |
| Kodsuz.StrLeTrans | backend/server.py:506 | the string order of the sort is transitive |
| Kodsuz.SuffixRoundTrip | backend/server.py:509-516 | stripping the prefix from a generated code and parsing with `int` gives back its number |
| Kodsuz.FirstCode | backend/server.py:513-516 | with no `KodsuzA` code stored the generator returns `KodsuzA0001` |
| Kodsuz.Successor | backend/server.py:508-516 | when the greatest code was generated for n, the next code is the one for n + 1 |
| Kodsuz.DuplicateAfter9999 | backend/server.py:506-516 | as written, a store holding `KodsuzA9999` and `KodsuzA10000` gets `KodsuzA10000` again |
| Kodsuz.NextKodsuzCodeAsWritten | backend/server.py:500-516 | as written: `KodsuzA0001` with no `KodsuzA` code stored; otherwise an error exactly when `int()` rejects what remains of the code sorted first once every `KodsuzA` is removed, and else the prefix with that number plus one, zero-padded to four digits |
| Kodsuz.FourDigitOrder | backend/server.py:505-506 | between two codes of the prefix and four digits, the string order is the order of their numbers |
| Kodsuz.GreatestCarriesMax | backend/server.py:505-510 | while every stored `KodsuzA` code has four digits, the code sorted first carries the greatest stored number |
| Kodsuz.AsWrittenAgrees | backend/server.py:500-516 | while every stored `KodsuzA` code has four digits, the generator as written gives the corrected generator's code |
| Kodsuz.AsWrittenFresh | backend/server.py:500-516 | while every stored `KodsuzA` code has four digits, the generator as written succeeds with a code no stored product holds |
| Kodsuz.NextKodsuzCode | backend/server.py:500-516 | corrected generator: starts with the prefix, carries the largest stored number plus one, and is held by no stored product |
| Kodsuz.SuffixNumberOfFormat | backend/server.py:516 | the corrected generator reads back the number of every code it writes |
| Kodsuz.CorrectedFirstCode | backend/server.py:513-516 | the corrected generator also starts at `KodsuzA0001` |
| Numerals.FormatZeroPad4Digits | backend/server.py:516 | `{:04d}` of n ≥ 0 is decimal digits worth n, at least 4 long, and exactly 4 long iff n ≤ 9999 |
| Numerals.PyIntOfFormat | backend/server.py:511 | `int` parses back every zero-padded number, negative ones included |
| OrderQueries.RoleQuery | backend/server.py:716-729 | the role query matches exactly the orders the user may see: showroom sees only showroom sales, corporate sales sees corporate orders or its own, other roles see all |
| OrderQueries.OrdersQuery | backend/server.py:723-738 | the full query matches exactly the orders the role and the non-empty filters select; an order-type filter replaces the showroom restriction |
| OrderQueries.SortDesc | backend/server.py:740 | sorting by order number descending yields a sorted permutation |
| OrderQueries.Page | backend/server.py:740 | skip then limit: the page length is the rest after `skip`, capped at `limit`, and each entry is the matching one of the input |
| OrderQueries.ListOrders | backend/server.py:710-746 | at most `limit` orders, each stored and selected, by descending number; the list the built query yields is exactly the window at `skip` of the descending sort of the orders the role and filter rules select |
| OrderQueries.ListOrdersWindow | backend/server.py:740 | the list holds as many orders as the window at `skip` of the selected orders allows, and no order more often than the selection |
| OrderQueries.ListOrdersComplete | backend/server.py:740 | with no skip and a limit covering the store, every selected order is listed |
| OrderQueries.ShowroomSeesOnlyShowroom | backend/server.py:723-724 | without a type filter a showroom user lists only showroom sales |
| OrderQueries.ShowroomTypeOverride | backend/server.py:731-732 | a type filter replaces the showroom restriction |
| OrderQueries.CorporateSeesCorporateOrOwn | backend/server.py:725-729 | corporate sales lists only corporate orders or orders it created |
| OrderQueries.OtherRolesUnrestricted | backend/server.py:720-729 | other roles see every order |
| OrderQueries.Dashboard | backend/server.py:845-880 | the total counts the visible orders; waiting, in-progress and ready count the visible orders with that status; pending invoices ignore the role query and are 0 outside accounting, finance and admin; items to procure are 0 outside warehouse, finance and admin |
| OrderQueries.DashboardStatusBound | backend/server.py:856-866 | waiting + in progress + ready never exceeds the total |
| CsvImport.Cell | backend/server.py:640-648 | the Turkish header's cell if present, else the ASCII header's, else the default |
| CsvImport.ProductIdCell | backend/server.py:640 | an empty or absent id cell (the ASCII header read when the Turkish one is absent) gives no product id; a non-empty cell is accepted iff `int` parses it, and then the id is its value; a rejected cell fails on the id column |
| CsvImport.StockCell | backend/server.py:645 | an empty or absent stock cell is 0; a non-empty cell is accepted iff `int` parses it, and then the stock is its value; a rejected cell fails on the stock column |
| CsvImport.MapRow | backend/server.py:639-648 | a row maps iff its id and stock cells parse, and otherwise fails with the first rejected column; the id and stock are the parsed cells, the active flag is the `Aktif` rule, and each text field is its cell (the ASCII header when the Turkish one is absent, empty text when both are) |
| CsvImport.ActiveWordsAnyCase | backend/server.py:647 | a product is active iff its `Aktif` cell, lower-cased, is `true`, `1`, `yes` or `evet` |
| CsvImport.ActiveSpellings | backend/server.py:647 | `EVET`, `Yes` and `1` mark a product active |
| CsvImport.InactiveSpellings | backend/server.py:647 | `Hayır`, `0` and an absent `Aktif` column mark a product inactive |
| CsvImport.UpsertOne | backend/server.py:651-668 | updates the product found by a non-empty known code, in place, and otherwise appends a new product |
| CsvImport.ImportCounts | backend/server.py:636-675 | each processed row counts once as added or updated, and the store grows by the added rows only |
| CsvImport.ImportTotal | backend/server.py:670-675 | the reported total equals the number of rows of a file that imports completely |
| CsvImport.ImportKeepsProducts | backend/server.py:651-668 | the store never shrinks, and stored products keep their ids |
| OrdersPage.OrderTypeBadge | frontend/src/pages/Orders.js:34-46 | fixed labels and colours for the three order types; an unknown type shows itself in zinc |
| OrdersPage.StatusBadge | frontend/src/pages/Orders.js:48-57 | fixed labels and colours for the four statuses; an unknown status shows itself in zinc |
| OrdersPage.StatusLabelsDistinct | frontend/src/pages/Orders.js:49-54 | the four status labels are distinct and differ from every raw status code |
| OrdersPage.InvoiceLabel | frontend/src/pages/Orders.js:144 | `✓ Kesildi` iff the invoice is issued, `× Kesilmedi` otherwise |
| OrdersPage.CargoLabel | frontend/src/pages/Orders.js:147 | `✓ Teslim` for delivered, otherwise the raw cargo status |
| OrdersPage.DeliveryLine | frontend/src/pages/Orders.js:149-152 | no line for an absent or empty delivery method; `Kargo` iff it is cargo; `Elden` for anything else |
| OrdersPage.FilteredOrders | frontend/src/pages/Orders.js:59-67 | an order is kept iff it matches the search, and the kept orders stay in their order |
| OrdersPage.EmptySearchKeepsAll | frontend/src/pages/Orders.js:60 | an empty search keeps every order |
| OrdersPage.AbsentCustomerName | frontend/src/pages/Orders.js:64 | an order without a customer name matches only by number or author |
| OrdersPage.FoundByNumber | frontend/src/pages/Orders.js:63 | searching an order's number finds it |
| OrdersPage.SearchIgnoresCase | frontend/src/pages/Orders.js:61 | lower-casing the search term changes no match |
| Uri.Utf8 | frontend/src/pages/OrderDetail.js:155 | a character's UTF-8 encoding has the length its code point needs (1 byte iff ASCII, then 2 below U+0800, 3 below U+10000, else 4), a lead byte announcing that length and continuation bytes `10xxxxxx`; an ASCII character is its own byte |
| Uri.Utf8RoundTrip | frontend/src/pages/OrderDetail.js:155 | decoding the bytes of a character gives its code point back |
| Uri.EncodeURIComponent | frontend/src/pages/OrderDetail.js:155 | the encoding is no shorter than its input, and holds only `%` and unreserved characters |
| Uri.UnreservedUnchanged | frontend/src/pages/OrderDetail.js:155 | a string of unreserved characters is its own encoding |
| Uri.DecodeOfEncode | frontend/src/pages/OrderDetail.js:155 | percent-decoding the encoding gives back the UTF-8 bytes of the input |
| Uri.SpaceEncoding | frontend/src/pages/OrderDetail.js:155 | a space is encoded as `%20` |
| OrderDetail.ItemRequest | frontend/src/pages/OrderDetail.js:63-66 | the body sent for a new item is the form with the order's id, the other optional fields null |
| OrderDetail.StatusRequest | frontend/src/pages/OrderDetail.js:93-97 | no body when no item has that id; otherwise the data of an item with that id, with the new status |
| OrderDetail.OrderDetailPage.constructor | frontend/src/pages/OrderDetail.js:19-27 | the page starts with the loaded items and the default new-item form |
| OrderDetail.OrderDetailPage.AddItem | frontend/src/pages/OrderDetail.js:56-79 | nothing is sent for an empty product name; a successful add appends the returned item and resets the form; a failed one changes nothing |
| OrderDetail.OrderDetailPage.SetProductName | frontend/src/pages/OrderDetail.js:305 | only the product name of the form changes |
| OrderDetail.OrderDetailPage.SetQuantity | frontend/src/pages/OrderDetail.js:314 | only the quantity changes, to `parseInt(text) || 1` |
| OrderDetail.OrderDetailPage.SetItemStatus | frontend/src/pages/OrderDetail.js:321 | only the new item's status changes |
| OrderDetail.OrderDetailPage.DeleteItem | frontend/src/pages/OrderDetail.js:81-89 | on success the items with that id are filtered out, otherwise nothing changes |
| OrderDetail.OrderDetailPage.UpdateItemStatus | frontend/src/pages/OrderDetail.js:91-103 | sends the status request; on success only the status of items with that id changes |
| OrderDetail.DeleteRemovesOnlyThatId | frontend/src/pages/OrderDetail.js:84 | after a delete no item has the id, every other item is kept, and the order is preserved |
| OrderDetail.DeleteAgreesWithServer | frontend/src/pages/OrderDetail.js:84 | with unique ids the page's filter removes exactly the item the server's `delete_one` removes |
| OrderDetail.StatusAgreesWithServer | frontend/src/pages/OrderDetail.js:94-98 | with unique ids the page's list equals the server's after the update, except for the server's new `updated_at` |
| OrderDetail.QuantityInput | frontend/src/pages/OrderDetail.js:314 | the quantity is never 0; non-numeric text and 0 become 1; every other integer, negative ones included, is kept |
| OrderDetail.ItemStatusLabel | frontend/src/pages/OrderDetail.js:126-137 | fixed labels for the seven item statuses; any other status shows itself |
| OrderDetail.DeliveryText | frontend/src/pages/OrderDetail.js:214 | `Kargo` iff cargo, `Elden` iff by hand, `-` iff anything else |
| OrderDetail.InvoiceText | frontend/src/pages/OrderDetail.js:218 | `Kesildi` iff issued, `Kesilmedi` otherwise |
| OrderDetail.NormalizeCompany | frontend/src/pages/OrderDetail.js:141 | the carrier key holds no whitespace |
| OrderDetail.NormalizeIdempotent | frontend/src/pages/OrderDetail.js:141 | normalising a key again changes nothing |
| OrderDetail.SpaceIgnored | frontend/src/pages/OrderDetail.js:141 | a whitespace character anywhere in the carrier name does not change the key |
| OrderDetail.CaseIgnored | frontend/src/pages/OrderDetail.js:141 | lower-casing the carrier name first does not change the key |
| OrderDetail.CargoTrackingUrl | frontend/src/pages/OrderDetail.js:139-156 | `#` iff the carrier or code is missing or empty; a known carrier's page followed by the code; otherwise a web search for the encoded carrier, `kargo takip` and code |
| OrderCreate.DefaultOrderType | frontend/src/pages/OrderCreate.js:21 | a showroom sale iff the user is showroom, otherwise a corporate order |
| OrderCreate.InitialForm | frontend/src/pages/OrderCreate.js:20-31 | the form has exactly the ten fields: the default type, and every other field empty |
| OrderCreate.Optional | backend/server.py:158-170 | a field the form does not send reads as null |
| OrderCreate.Payload | backend/server.py:156-170 | the server reads the form as `OrderCreate`: refused iff there is no order type; each of the eleven optional text fields is its text when sent and absent otherwise; each status is its sent text, or its default (`kesilmedi`, `yok`) when absent |
| OrderCreate.OrderCreatePage.constructor | frontend/src/pages/OrderCreate.js:20-31 | the page starts with the initial form |
| OrderCreate.OrderCreatePage.HandleChange | frontend/src/pages/OrderCreate.js:48-50 | only the given field changes |
| OrderCreate.OrderCreatePage.Submit | frontend/src/pages/OrderCreate.js:33-38 | the body sent is the form, which always has an order type |
| OrderCreate.EmptyChoiceMeansIncomplete | backend/server.py:691-693 | an empty delivery choice or customer name is stored as `eksik_bilgili`; otherwise the chosen type is kept |
| OrderCreate.DeliveryChoiceSettlesType | frontend/src/pages/OrderCreate.js:139-141 | with a customer name, the "choose one" option stores the order as `eksik_bilgili` and either delivery method keeps the chosen type |
| OrderCreate.UntouchedFormIsIncomplete | frontend/src/pages/OrderCreate.js:20-31 | a form sent as it opened is stored as incomplete |
| OrderCreate.TaxFieldsOnOpen | frontend/src/pages/OrderCreate.js:159 | the tax fields show on opening iff the user is not showroom |
| SettingsPage.NormalizeCode | frontend/src/pages/Settings.js:357 | a normalised code holds no whitespace |
| SettingsPage.NormalizeCodeIdempotent | frontend/src/pages/Settings.js:357 | normalising a code twice equals normalising it once |
| SettingsPage.OrderInput | frontend/src/pages/Settings.js:384 | non-numeric text gives 0, any other text its parsed integer |
| SettingsPage.FormFor | frontend/src/pages/Settings.js:68-89 | editing copies name, code, activity and order, with a missing description read as empty; a new type starts empty, active and numbered after the listed ones |
| SettingsPage.TypeFields | frontend/src/pages/Settings.js:96-99 | the body sent holds the form's fields |
| SettingsPage.RequestFor | frontend/src/pages/Settings.js:95-101 | an update of the edited type's id iff editing, otherwise a creation |
| SettingsPage.SettingsPageState.constructor | frontend/src/pages/Settings.js:18-29 | the page starts with no types, no edited type, the empty form and no template |
| SettingsPage.SettingsPageState.SetOrderTypes | frontend/src/pages/Settings.js:36-45 | the fetched list replaces the page's list |
| SettingsPage.SettingsPageState.OpenDialog | frontend/src/pages/Settings.js:68-89 | the dialog opens on the given type with its form |
| SettingsPage.SettingsPageState.SetName | frontend/src/pages/Settings.js:345 | only the name changes |
| SettingsPage.SettingsPageState.SetCode | frontend/src/pages/Settings.js:357-360 | the code becomes the normalised text for a new type, and cannot change while a type is edited |
| SettingsPage.SettingsPageState.SetDescription | frontend/src/pages/Settings.js:371 | only the description changes |
| SettingsPage.SettingsPageState.SetOrder | frontend/src/pages/Settings.js:384 | only the order changes, to `parseInt(text) || 0` |
| SettingsPage.SettingsPageState.SetActive | frontend/src/pages/Settings.js:394 | only the active flag changes |
| SettingsPage.SettingsPageState.Submit | frontend/src/pages/Settings.js:91-107 | nothing is sent and nothing changes iff the browser stops the form (an empty name, or an empty code for a new type, as the `required` inputs at lines 347 and 359-360 demand); otherwise the request for the form is sent, a new type has a name and a code, an update carries the edited type's own code; success closes the dialog and refetches, failure changes nothing |
| SettingsPage.SettingsPageState.Delete | frontend/src/pages/Settings.js:109-121 | nothing is sent unless confirmed; a successful delete refetches the list |
| SettingsPage.SettingsPageState.UpdatePdfTemplate | frontend/src/pages/Settings.js:56-66 | only the given field changes, and the whole new template is sent |
| SettingsPage.PageUpdateKeepsCodesUnique | backend/server.py:471-486 | an update sent by the page keeps the type's code, so unique type codes stay unique although the server does not check |
| SettingsPage.SettingsLinkMatchesAccess | frontend/src/pages/Settings.js:131-137 | the sidebar shows the settings entry to exactly the users the page admits |
| Layout.Navigation | frontend/src/components/Layout.js:64-78 | Dashboard, Siparişler and Ürünler first; Kullanıcılar iff admin or accounting, and then right after them; Ayarlar iff admin, and then last; length 3, 4 or 5 |
| Layout.BuildNavigation | frontend/src/components/Layout.js:64-78 | pushing onto the common entries builds exactly that list |
| Layout.ActiveRules | frontend/src/components/Layout.js:94-95 | whatever the mobile menu highlights the sidebar does too; `/` only on an exact match; a page below an entry only in the sidebar |
| Layout.NotBothActive | frontend/src/components/Layout.js:94-95 | two paths that cannot be active on the same page are never highlighted together |
| Layout.AtMostOneActive | frontend/src/components/Layout.js:92-95 | on any page the sidebar highlights at most one entry |
| Layout.HrefIndex | frontend/src/components/Layout.js:64-78 | entries appear in the fixed order of the five paths |
| Layout.RoleLabel | frontend/src/components/Layout.js:52-62 | fixed labels for the six roles; an unknown role shows itself |
| Layout.RoleColor | frontend/src/components/Layout.js:28-38 | each role's colour at shade 600, the administrator in zinc 900; an unknown role in zinc 600 |
| Layout.RoleBadgeColor | frontend/src/components/Layout.js:40-50 | each role's hue as background, text and border; an unknown role gets a zinc badge without border |
| Layout.BadgesDistinct | frontend/src/components/Layout.js:40-50 | two different known roles get different badges, and no known role gets the plain badge of an unknown role |
| DashboardPage.Stat | frontend/src/pages/Dashboard.js:62 | missing statistics show 0 |
| DashboardPage.StatCards | frontend/src/pages/Dashboard.js:59-108 | six cards with their titles, in order: total, waiting for information, in progress, ready, pending invoices, to procure; each shows its counter, or 0 when the statistics did not load; the first four always shown; invoices iff accounting, finance or admin; procurement iff warehouse, finance or admin |
| DashboardPage.VisibleCardsShape | frontend/src/pages/Dashboard.js:130 | the grid shows the four common cards first, then one card per role gate passed, in order |
| DashboardPage.HiddenCardsCountZero | frontend/src/pages/Dashboard.js:92-106 | with the server's counters, a card hidden from a user always counts 0 |
| DashboardPage.Greeting | frontend/src/pages/Dashboard.js:39-49 | each of the six roles gets its own greeting (`Showroom`, `Kurumsal Satış`, `Depo`, `Finans`, `Muhasebe`, `Yönetici` before `Dashboard`); no user or an unknown role gets `Dashboard` |
| DashboardPage.EmptyAlertBoxAsWritten | frontend/src/pages/Dashboard.js:195-209 | as written, a finance user with one pending invoice sees the alert box with no line in it |
| DashboardPage.AlertBoxNeverEmpty | frontend/src/pages/Dashboard.js:195-209 | with the invoice line gated like its card, the box shows iff a line shows; the procurement line shows iff something must be procured |

## Left out

- Password hashing, JWT tokens, login and `get_me` are not modelled. They
  depend on foreign cryptographic libraries. `update_user` re-hashing a
  supplied password is left out for the same reason, and so is email
  validation.
- Read-only listings are not modelled: `get_order`, `get_order_items`,
  `get_order_types`, `get_users` and the product list. The regex product
  search is left out because MongoDB regular expressions are a foreign call.
- PDF generation and the PDF-template endpoints are not modelled. The page's
  template edit is modelled as a map update.
- Each MongoDB call is modelled as one atomic step on in-memory sequences.
  Not modelled:
  - concurrent requests, such as two orders reading the same maximum number;
  - sort order among equal keys;
  - `limit=0`, which MongoDB reads as "no limit";
  - a negative `limit`, which the driver rejects, so the request fails
    (`OrderQueries.ListOrders` takes `limit` as a natural number);
  - a negative `skip`.

  UUIDs and the clock are parameters.
- CSV byte decoding (UTF-8 with BOM) and the CSV reader are not modelled. A
  row is a header-to-cell map, and short rows are not modelled.
- Python `int()` is modelled for an optional sign followed by ASCII digits.
  Surrounding whitespace, underscores and non-ASCII digits are not accepted.
- JavaScript `parseInt` is modelled with unbounded integers. Precision loss
  above 2^53 and `-0` are not modelled.
- Lower-casing covers ASCII, Latin-1 and Latin Extended-A; other characters
  are kept unchanged.
- Whitespace is the ASCII whitespace set plus the Unicode spaces of
  JavaScript's `\s`.
- Objects looked up by a key use only own keys. Inherited property names such
  as `constructor` are not modelled for the lookup tables.
- `Uri.PercentDecode` stops at bytes. Splitting a byte sequence back into
  characters is not modelled; `Uri.Utf8RoundTrip` decodes one character.
- A known carrier's tracking link appends the tracking code unencoded, as the
  page does.
- React rendering, loading flags, toasts, routing and axios are not modelled.
  Server responses and user confirmations are method parameters
  (`succeeded`, `confirmed`, `refetched`, `response`).
- Store.NewOrder: the two timestamps are opaque strings, so that the
  creation time is no later than the modification time is not stated.
- Store.OrderStore.CreateOrderItem: the same holds for the item's two
  timestamps.
- Store.OrderStore.CreateManualProduct: as written it does not promise a
  fresh code. Freshness is proved for the corrected method, and for the
  generator as written while every stored code has four digits.
- OrdersPage.CargoLabel: states the label for a delivered parcel and the raw
  status otherwise, but not the converse. A raw status equal to the
  delivered label would display the same text.

## Findings

| source | as written | input that shows it | evidently intended | confidence | as-written member | corrected member |
|---|---|---|---|---|---|---|
| backend/server.py:500-516 | the next manual code adds one to the code that sorts greatest as a string | a store holding `KodsuzA9999` and `KodsuzA10000`: the string maximum is `KodsuzA9999`, so `KodsuzA10000` is generated again | one more than the numerically greatest code, never an existing code, as `Store.OrderStore.CreateManualProductCorrected` stores it | not executed | Kodsuz.DuplicateAfter9999 | Kodsuz.NextKodsuzCode |
| frontend/src/pages/Dashboard.js:195-209 | the alert box opens on pending invoices for every role that gets the counter, but the invoice line is kept for accounting | a finance user whose only visible order is in progress and not invoiced: the box shows with no line | the invoice line gated like the pending-invoice card (accounting, finance, admin) | not executed | DashboardPage.EmptyAlertBoxAsWritten | DashboardPage.AlertBoxNeverEmpty |
