/** The product CSV import of `upload_products_csv`: each row, a map from
    column header to cell text, becomes product fields; a row whose non-empty
    web-service code is already in the store updates that product, any other
    row inserts a new one, and the endpoint reports how many of each. */
module CsvImport {
  import opened Wrappers
  import opened Collections
  import opened Text
  import opened Numerals
  import opened Records

  /** One parsed CSV row: header to cell. */
  type CsvRow = map<string, string>

  // Column headers; each Turkish header has an ASCII spelling read when the first is absent.
  const COL_PRODUCT_ID := "\U{DC}r\U{FC}n \U{130}d"
  const COL_PRODUCT_ID_ASCII := "Urun Id"
  const COL_WEB_SERVICE_CODE := "Web Servis Kodu"
  const COL_PRODUCT_NAME := "\U{DC}r\U{FC}n Ad\U{131}"
  const COL_PRODUCT_NAME_ASCII := "Urun Adi"
  const COL_SUPPLIER_CODE := "Tedarik\U{E7}i \U{DC}r\U{FC}n Kodu"
  const COL_SUPPLIER_CODE_ASCII := "Tedarikci Urun Kodu"
  const COL_BARCODE := "Barkod"
  const COL_STOCK := "Stok"
  const COL_STOCK_UNIT := "Stok Birimi"
  const COL_ACTIVE := "Aktif"
  const COL_BRAND := "Marka"
  const COL_SUPPLIER := "Tedarik\U{E7}i"
  const COL_SUPPLIER_ASCII := "Tedarikci"

  /** The `Aktif` cells, lower-cased, that mark a product active. */
  const ACTIVE_WORDS := ["true", "1", "yes", "evet"]

  /** `row.get(key, row.get(alt, default))`. */
  function Cell(row: CsvRow, key: string, alt: string, default: string): (r: string)
    ensures key in row ==> r == row[key]
    ensures key !in row && alt in row ==> r == row[alt]
    ensures key !in row && alt !in row ==> r == default
  {
    if key in row then row[key] else if alt in row then row[alt] else default
  }

  /** `row.get(key, default)`. */
  function Get(row: CsvRow, key: string, default: string): string {
    if key in row then row[key] else default
  }

  /** The column whose cell `int()` rejected; the request fails there. */
  datatype CsvError = NotAnInteger(column: string)

  /** The optional integer product id: an absent or empty cell is no id, any
      other cell must be an integer. */
  function ProductIdCell(row: CsvRow): (r: Result<Option<int>, CsvError>)
    ensures r.Ok? && r.value.Some? ==> Cell(row, COL_PRODUCT_ID, COL_PRODUCT_ID_ASCII, "") != ""
    ensures Cell(row, COL_PRODUCT_ID, COL_PRODUCT_ID_ASCII, "") == "" ==> r == Ok(None)
    ensures Cell(row, COL_PRODUCT_ID, COL_PRODUCT_ID_ASCII, "") != "" ==>
      (r.Ok? <==> PyInt(Cell(row, COL_PRODUCT_ID, COL_PRODUCT_ID_ASCII, "")).Some?)
    ensures Cell(row, COL_PRODUCT_ID, COL_PRODUCT_ID_ASCII, "") != "" && r.Ok? ==>
      r.value == Some(PyInt(Cell(row, COL_PRODUCT_ID, COL_PRODUCT_ID_ASCII, "")).value)
    ensures r.Err? ==> r.error == NotAnInteger(COL_PRODUCT_ID)
  {
    var raw := Cell(row, COL_PRODUCT_ID, COL_PRODUCT_ID_ASCII, "");
    if raw == "" then Ok(None)
    else match PyInt(raw)
      case None => Err(NotAnInteger(COL_PRODUCT_ID))
      case Some(n) => Ok(Some(n))
  }

  /** The stock: 0 for an absent or empty cell, otherwise the cell as an integer. */
  function StockCell(row: CsvRow): (r: Result<int, CsvError>)
    ensures Get(row, COL_STOCK, "") == "" ==> r == Ok(0)
    ensures r.Ok? && Get(row, COL_STOCK, "") != "" ==> PyInt(row[COL_STOCK]) == Some(r.value)
    ensures Get(row, COL_STOCK, "") != "" ==> (r.Ok? <==> PyInt(row[COL_STOCK]).Some?)
    ensures r.Err? ==> r.error == NotAnInteger(COL_STOCK)
  {
    var raw := Get(row, COL_STOCK, "");
    if raw == "" then Ok(0)
    else match PyInt(raw)
      case None => Err(NotAnInteger(COL_STOCK))
      case Some(n) => Ok(n)
  }

  /** The activity flag: the `Aktif` cell, lower-cased, is one of the accepted words. */
  predicate ActiveCell(row: CsvRow) {
    Lower(Get(row, COL_ACTIVE, "")) in ACTIVE_WORDS
  }

  /** The column mapping of one row. */
  function MapRow(row: CsvRow): (r: Result<ProductFields, CsvError>)
    ensures r.Ok? <==> ProductIdCell(row).Ok? && StockCell(row).Ok?
    ensures r.Err? ==> (ProductIdCell(row).Err? && r.error == ProductIdCell(row).error) ||
                       (ProductIdCell(row).Ok? && StockCell(row).Err? && r.error == StockCell(row).error)
    ensures r.Ok? ==> r.value.productId == ProductIdCell(row).value
    ensures r.Ok? ==> r.value.stock == StockCell(row).value
    ensures r.Ok? ==> r.value.webServiceCode == Some(Get(row, COL_WEB_SERVICE_CODE, ""))
    ensures r.Ok? ==> r.value.productName == Cell(row, COL_PRODUCT_NAME, COL_PRODUCT_NAME_ASCII, "")
    ensures r.Ok? ==> r.value.supplierProductCode == Some(Cell(row, COL_SUPPLIER_CODE, COL_SUPPLIER_CODE_ASCII, ""))
    ensures r.Ok? ==> r.value.barcode == Some(Get(row, COL_BARCODE, ""))
    ensures r.Ok? ==> r.value.stockUnit == Some(Get(row, COL_STOCK_UNIT, ""))
    ensures r.Ok? ==> (r.value.isActive <==> ActiveCell(row))
    ensures r.Ok? ==> r.value.brand == Some(Get(row, COL_BRAND, ""))
    ensures r.Ok? ==> r.value.supplier == Some(Cell(row, COL_SUPPLIER, COL_SUPPLIER_ASCII, ""))
  {
    match ProductIdCell(row)
    case Err(e) => Err(e)
    case Ok(productId) =>
      match StockCell(row)
      case Err(e) => Err(e)
      case Ok(stock) =>
        Ok(ProductFields(
          productId,
          Some(Get(row, COL_WEB_SERVICE_CODE, "")),
          Cell(row, COL_PRODUCT_NAME, COL_PRODUCT_NAME_ASCII, ""),
          Some(Cell(row, COL_SUPPLIER_CODE, COL_SUPPLIER_CODE_ASCII, "")),
          Some(Get(row, COL_BARCODE, "")),
          stock,
          Some(Get(row, COL_STOCK_UNIT, "")),
          ActiveCell(row),
          Some(Get(row, COL_BRAND, "")),
          Some(Cell(row, COL_SUPPLIER, COL_SUPPLIER_ASCII, ""))))
  }

  /** Every capitalisation of an accepted word that lower-casing maps onto it
      marks the product active, whichever the word. */
  lemma ActiveWordsAnyCase(row: CsvRow, w: string)
    requires COL_ACTIVE in row && Lower(row[COL_ACTIVE]) == w
    ensures ActiveCell(row) <==> w == "true" || w == "1" || w == "yes" || w == "evet"
  {
  }

  /** The spreadsheet spellings `EVET`, `Yes` and `1` mark a product active. */
  lemma ActiveSpellings(row: CsvRow)
    ensures ActiveCell(row[COL_ACTIVE := "EVET"])
    ensures ActiveCell(row[COL_ACTIVE := "Yes"])
    ensures ActiveCell(row[COL_ACTIVE := "1"])
  {
    assert Lower("EVET") == "evet";
    assert Lower("Yes") == "yes";
    assert Lower("1") == "1";
  }

  /** `Hayır`, `0` and an absent `Aktif` column mark a product inactive. */
  lemma InactiveSpellings(row: CsvRow)
    ensures !ActiveCell(row[COL_ACTIVE := "Hay\U{131}r"])
    ensures !ActiveCell(row[COL_ACTIVE := "0"])
    ensures COL_ACTIVE !in row ==> !ActiveCell(row)
  {
    assert Lower("Hay\U{131}r") == "hay\U{131}r";
    assert Lower("0") == "0";
    assert Lower("") == "";
  }

  function HasCode(code: string): Product -> bool {
    (p: Product) => p.data.webServiceCode == Some(code)
  }

  function HasId(id: string): Product -> bool {
    (p: Product) => p.id == id
  }

  /** The store after one row, and the position of the product it updated, if any. */
  datatype Upsert = Upsert(products: seq<Product>, updatedAt: Option<nat>)

  /** One row's effect: a non-empty code held by a stored product selects the
      first such product, and the first product with that product's id gets
      the row's fields; otherwise a new product is appended. */
  function UpsertOne(products: seq<Product>, fields: ProductFields, newId: string, now: Timestamp): (r: Upsert)
    ensures r.updatedAt.Some? <==>
      !IsBlank(fields.webServiceCode) && exists k :: 0 <= k < |products| && products[k].data.webServiceCode == fields.webServiceCode
    ensures r.updatedAt.None? ==> r.products == products + [Product(newId, fields, now)]
    ensures r.updatedAt.Some? ==> var j := r.updatedAt.value;
      j < |products| && r.products == products[j := products[j].(data := fields)]
      && exists k :: 0 <= k < |products| && products[k].data.webServiceCode == fields.webServiceCode && products[k].id == products[j].id
  {
    var existing := if IsBlank(fields.webServiceCode) then None else FirstMatch(products, HasCode(fields.webServiceCode.value));
    match existing
    case None => Upsert(products + [Product(newId, fields, now)], None)
    case Some(k) =>
      match FirstMatch(products, HasId(products[k].id))
      case Some(j) => Upsert(products[j := products[j].(data := fields)], Some(j))
      case None => assert false; Upsert(products, None)
  }

  /** The store and the counters after a run of rows, and the error that
      stopped it, if any. Rows before the failing one have taken effect. */
  datatype ImportOutcome = ImportOutcome(products: seq<Product>, added: nat, updated: nat, failed: Option<CsvError>)

  /** The import of `rows` from the given store and counters; row `k`, when
      it is inserted, gets the id `ids[k]`. */
  function ImportFrom(products: seq<Product>, rows: seq<CsvRow>, ids: seq<string>, now: Timestamp, added: nat, updated: nat): (r: ImportOutcome)
    requires |ids| == |rows|
    decreases |rows|
  {
    if rows == [] then ImportOutcome(products, added, updated, None)
    else
      match MapRow(rows[0])
      case Err(e) => ImportOutcome(products, added, updated, Some(e))
      case Ok(fields) =>
        var u := UpsertOne(products, fields, ids[0], now);
        if u.updatedAt.Some? then ImportFrom(u.products, rows[1..], ids[1..], now, added, updated + 1)
        else ImportFrom(u.products, rows[1..], ids[1..], now, added + 1, updated)
  }

  /** Each row processed counts once, as added or as updated; a complete
      import counts every row, and the store grew by the added ones only. */
  lemma {:induction false} ImportCounts(products: seq<Product>, rows: seq<CsvRow>, ids: seq<string>, now: Timestamp, added: nat, updated: nat)
    requires |ids| == |rows|
    ensures var r := ImportFrom(products, rows, ids, now, added, updated);
      r.added >= added && r.updated >= updated
      && |r.products| == |products| + (r.added - added)
      && (r.failed.None? ==> r.added + r.updated == added + updated + |rows|)
      && (r.failed.Some? ==> r.added + r.updated < added + updated + |rows|)
    decreases |rows|
  {
    if rows != [] && MapRow(rows[0]).Ok? {
      var u := UpsertOne(products, MapRow(rows[0]).value, ids[0], now);
      var a, b := if u.updatedAt.Some? then added else added + 1, if u.updatedAt.Some? then updated + 1 else updated;
      assert ImportFrom(products, rows, ids, now, added, updated) == ImportFrom(u.products, rows[1..], ids[1..], now, a, b);
      assert |u.products| == |products| + (a - added);
      ImportCounts(u.products, rows[1..], ids[1..], now, a, b);
    }
  }

  /** The response's `total`, `products_added + products_updated`, equals the
      number of rows of a file that imported completely. */
  lemma ImportTotal(products: seq<Product>, rows: seq<CsvRow>, ids: seq<string>, now: Timestamp)
    requires |ids| == |rows|
    requires ImportFrom(products, rows, ids, now, 0, 0).failed.None?
    ensures var r := ImportFrom(products, rows, ids, now, 0, 0); r.added + r.updated == |rows|
  {
    ImportCounts(products, rows, ids, now, 0, 0);
  }

  /** Rows are never lost: the store never shrinks, and stored products keep their ids. */
  lemma {:induction false} ImportKeepsProducts(products: seq<Product>, rows: seq<CsvRow>, ids: seq<string>, now: Timestamp, added: nat, updated: nat)
    requires |ids| == |rows|
    ensures var r := ImportFrom(products, rows, ids, now, added, updated);
      |r.products| >= |products| && forall i :: 0 <= i < |products| ==> r.products[i].id == products[i].id
    decreases |rows|
  {
    if rows != [] && MapRow(rows[0]).Ok? {
      var u := UpsertOne(products, MapRow(rows[0]).value, ids[0], now);
      var a, b := if u.updatedAt.Some? then added else added + 1, if u.updatedAt.Some? then updated + 1 else updated;
      assert ImportFrom(products, rows, ids, now, added, updated) == ImportFrom(u.products, rows[1..], ids[1..], now, a, b);
      assert |u.products| >= |products| && forall i :: 0 <= i < |products| ==> u.products[i].id == products[i].id;
      ImportKeepsProducts(u.products, rows[1..], ids[1..], now, a, b);
    }
  }
}
