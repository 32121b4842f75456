/** The catalog service (backend/app/services/product_service.py): point
    lookup, filtered and paged listing, and the upserting CSV import. */
module ProductService {
  import opened Text
  import opened Models
  import opened Errors
  import opened Store

  // ---------------------------------------------------------------- lookup

  /** `get_by_id`: the stored product, active or not, or ProductNotFound. */
  function GetById(products: map<Id, Product>, id: Id): (r: Result<Product>)
    ensures r.Ok? <==> id in products
    ensures r.Ok? ==> r.value == products[id]
    ensures r.Err? ==> r.error == ProductNotFound(IdText(id)) && r.error.StatusCode() == 404
  {
    if id in products then Ok(products[id]) else Err(ProductNotFound(IdText(id)))
  }

  // --------------------------------------------------------------- listing

  /** The catalog table scanned by increasing key below `n`. */
  function CatalogRows(products: map<Id, Product>, n: nat): seq<Product>
  {
    if n == 0 then []
    else CatalogRows(products, n - 1) + (if n - 1 in products then [products[n - 1]] else [])
  }

  lemma {:induction false} CatalogRowsMembers(products: map<Id, Product>, n: nat, p: Product)
    requires ProductsKeyed(products)
    ensures p in CatalogRows(products, n) <==> p.id < n && p.id in products && products[p.id] == p
  {
    if n > 0 {
      CatalogRowsMembers(products, n - 1, p);
    }
  }

  /** The optional query parameters of `list_products`. */
  datatype ProductFilter = ProductFilter(
    kind: Option<ProductType>,
    brand: Option<string>,
    search: Option<string>,
    minPrice: Option<int>,
    maxPrice: Option<int>,
    inStockOnly: bool)

  const NoFilter: ProductFilter := ProductFilter(None, None, None, None, None, false)

  /** A text parameter counts only when it is present and not empty (Python truthiness). */
  predicate Given(s: Option<string>)
  {
    s.Some? && s.value != ""
  }

  /** One WHERE condition. */
  datatype Condition =
    | TypeIs(t: ProductType)
    | BrandLike(b: string)
    | SearchLike(s: string)
    | PriceAtLeast(low: int)
    | PriceAtMost(high: int)
    | InStock

  predicate Holds(c: Condition, p: Product)
  {
    match c
    case TypeIs(t) => p.kind == t
    case BrandLike(b) => ContainsFolded(p.brand, b)
    case SearchLike(s) =>
      ContainsFolded(p.name, s) || ContainsFolded(p.description, s) || ContainsFolded(p.brand, s)
    case PriceAtLeast(low) => p.price >= low
    case PriceAtMost(high) => p.price <= high
    case InStock => p.stockQuantity > 0
  }

  /** The conditions list `list_products` builds, in its order. */
  function Conditions(f: ProductFilter): seq<Condition>
  {
    (if f.kind.Some? then [TypeIs(f.kind.value)] else [])
    + (if Given(f.brand) then [BrandLike(f.brand.value)] else [])
    + (if Given(f.search) then [SearchLike(f.search.value)] else [])
    + (if f.minPrice.Some? then [PriceAtLeast(f.minPrice.value)] else [])
    + (if f.maxPrice.Some? then [PriceAtMost(f.maxPrice.value)] else [])
    + (if f.inStockOnly then [InStock] else [])
  }

  /** The conjunction of the conditions; no conditions means no WHERE clause. */
  predicate Matches(p: Product, f: ProductFilter)
  {
    forall c :: c in Conditions(f) ==> Holds(c, p)
  }

  function Filter(rows: seq<Product>, f: ProductFilter): (r: seq<Product>)
    ensures |r| <= |rows|
    ensures forall p :: p in r <==> p in rows && Matches(p, f)
  {
    if rows == [] then []
    else (if Matches(rows[0], f) then [rows[0]] else []) + Filter(rows[1..], f)
  }

  /** Filtering distributes over concatenation, so the matches keep the scan order. */
  lemma {:induction false} FilterAppend(a: seq<Product>, b: seq<Product>, f: ProductFilter)
    ensures Filter(a + b, f) == Filter(a, f) + Filter(b, f)
  {
    if a == [] {
      assert a + b == b;
    } else {
      var head := if Matches(a[0], f) then [a[0]] else [];
      FilterAppend(a[1..], b, f);
      assert (a + b)[0] == a[0] && (a + b)[1..] == a[1..] + b;
      calc {
        Filter(a + b, f);
        head + Filter(a[1..] + b, f);
        head + (Filter(a[1..], f) + Filter(b, f));
        (head + Filter(a[1..], f)) + Filter(b, f);
      }
    }
  }

  /** Rows listed in strictly increasing key order. */
  predicate KeysIncreasing(rows: seq<Product>)
  {
    forall i, j :: 0 <= i < j < |rows| ==> rows[i].id < rows[j].id
  }

  lemma {:induction false} CatalogRowsIncreasing(products: map<Id, Product>, n: nat)
    requires ProductsKeyed(products)
    ensures KeysIncreasing(CatalogRows(products, n))
    ensures forall p :: p in CatalogRows(products, n) ==> p.id < n
  {
    if n > 0 {
      CatalogRowsIncreasing(products, n - 1);
    }
  }

  lemma {:induction false} FilterKeepsIncreasing(rows: seq<Product>, f: ProductFilter)
    requires KeysIncreasing(rows)
    ensures KeysIncreasing(Filter(rows, f))
  {
    if rows != [] {
      FilterKeepsIncreasing(rows[1..], f);
      var tail := Filter(rows[1..], f);
      forall p | p in tail
        ensures rows[0].id < p.id
      {
        var k :| 0 <= k < |rows[1..]| && rows[1..][k] == p;
        assert rows[k + 1] == p;
      }
    }
  }

  function Min(a: int, b: int): int
  {
    if a <= b then a else b
  }

  /** OFFSET `skip` LIMIT `limit`: the run of at most `limit` rows that starts after the first `skip`. */
  function Window(rows: seq<Product>, skip: nat, limit: nat): (r: seq<Product>)
    ensures |r| == if skip >= |rows| then 0 else Min(limit, |rows| - skip)
    ensures forall i :: 0 <= i < |r| ==> r[i] == rows[skip + i]
  {
    var lo := if skip <= |rows| then skip else |rows|;
    var hi := if lo + limit <= |rows| then lo + limit else |rows|;
    rows[lo..hi]
  }

  /** `list_products` over the catalog table (keys below `n`). */
  function ListProducts(products: map<Id, Product>, n: nat, skip: nat, limit: nat, f: ProductFilter): seq<Product>
  {
    Window(Filter(CatalogRows(products, n), f), skip, limit)
  }

  /** Every listed product is stored and satisfies each filter that was supplied. */
  lemma ListedSatisfiesFilters(products: map<Id, Product>, n: nat, skip: nat, limit: nat,
                               f: ProductFilter, p: Product)
    requires ProductsKeyed(products)
    requires p in ListProducts(products, n, skip, limit, f)
    ensures p.id in products && products[p.id] == p
    ensures f.kind.Some? ==> p.kind == f.kind.value
    ensures Given(f.brand) ==> ContainsFolded(p.brand, f.brand.value)
    ensures Given(f.search) ==>
              ContainsFolded(p.name, f.search.value) || ContainsFolded(p.description, f.search.value)
              || ContainsFolded(p.brand, f.search.value)
    ensures f.minPrice.Some? ==> p.price >= f.minPrice.value
    ensures f.maxPrice.Some? ==> p.price <= f.maxPrice.value
    ensures f.inStockOnly ==> p.stockQuantity > 0
    ensures |ListProducts(products, n, skip, limit, f)| <= limit
  {
    CatalogRowsMembers(products, n, p);
    var cs := Conditions(f);
    if f.kind.Some? { assert TypeIs(f.kind.value) in cs; }
    if Given(f.brand) { assert BrandLike(f.brand.value) in cs; }
    if Given(f.search) { assert SearchLike(f.search.value) in cs; }
    if f.minPrice.Some? { assert PriceAtLeast(f.minPrice.value) in cs; }
    if f.maxPrice.Some? { assert PriceAtMost(f.maxPrice.value) in cs; }
    if f.inStockOnly { assert InStock in cs; }
  }

  /** The listing is the page of matches that starts at `skip`, in increasing key order. */
  lemma ListedIsPage(products: map<Id, Product>, n: nat, skip: nat, limit: nat, f: ProductFilter)
    requires ProductsKeyed(products)
    ensures var matches := Filter(CatalogRows(products, n), f);
            var listed := ListProducts(products, n, skip, limit, f);
            && |listed| == (if skip >= |matches| then 0 else Min(limit, |matches| - skip))
            && (forall i :: 0 <= i < |listed| ==> listed[i] == matches[skip + i])
            && KeysIncreasing(listed)
  {
    CatalogRowsIncreasing(products, n);
    FilterKeepsIncreasing(CatalogRows(products, n), f);
  }

  /** Without filters every product is a candidate: the listing is a window of the table. */
  lemma {:induction false} UnfilteredKeepsAll(rows: seq<Product>)
    ensures Filter(rows, NoFilter) == rows
  {
    assert Conditions(NoFilter) == [];
    if rows != [] {
      UnfilteredKeepsAll(rows[1..]);
      assert rows == [rows[0]] + rows[1..];
    }
  }

  // ---------------------------------------------------------------- import

  /** A CSV row as the dictionary reader yields it: (header, value) pairs in column order. */
  type Row = seq<(string, string)>

  /** The fixed renaming of the spreadsheet's Spanish headers to product fields. */
  const ColumnMapping: map<string, string> := map[
    "Nombre" := "name",
    "Marca" := "brand",
    "Tipo" := "type",
    "ML" := "size_ml",
    "Precio" := "price",
    "Stock" := "stock_quantity",
    "Descripcion" := "description",
    "Familia Olfativa" := "fragrance_family",
    "Notas Salida" := "notes_top",
    "Notas Corazon" := "notes_heart",
    "Notas Fondo" := "notes_base"]

  /** `column_mapping.get(k, k)`. */
  function FieldName(header: string): (f: string)
    ensures header in ColumnMapping ==> f == ColumnMapping[header]
    ensures header !in ColumnMapping ==> f == header
  {
    if header in ColumnMapping then ColumnMapping[header] else header
  }

  /** The dictionary comprehension over a row: each header renamed, a later
      column overwriting an earlier one that maps to the same field. */
  function MapRow(row: Row): map<string, string>
  {
    if row == [] then map[]
    else MapRow(row[..|row| - 1])[FieldName(row[|row| - 1].0) := row[|row| - 1].1]
  }

  /** A column whose field no later column also names keeps its value under the renamed key. */
  lemma {:induction false} MapRowValue(row: Row, i: nat)
    requires i < |row|
    requires forall j :: i < j < |row| ==> FieldName(row[j].0) != FieldName(row[i].0)
    ensures FieldName(row[i].0) in MapRow(row) && MapRow(row)[FieldName(row[i].0)] == row[i].1
  {
    if i < |row| - 1 {
      var front := row[..|row| - 1];
      assert front[i] == row[i];
      MapRowValue(front, i);
    }
  }

  /** Every key of the mapped row is the renamed header of some column. */
  lemma {:induction false} MapRowKeys(row: Row, k: string)
    ensures k in MapRow(row) <==> exists j :: 0 <= j < |row| && FieldName(row[j].0) == k
  {
    if row != [] {
      var front := row[..|row| - 1];
      MapRowKeys(front, k);
      if exists j :: 0 <= j < |front| && FieldName(front[j].0) == k {
        var j :| 0 <= j < |front| && FieldName(front[j].0) == k;
        assert row[j] == front[j];
      }
      if exists j :: 0 <= j < |row| && FieldName(row[j].0) == k {
        var j :| 0 <= j < |row| && FieldName(row[j].0) == k;
        if j < |front| { assert front[j] == row[j]; }
      }
    }
  }

  /** `mapped_row.get(key)` is truthy: present and not empty. */
  predicate Filled(m: map<string, string>, key: string)
  {
    key in m && m[key] != ""
  }

  /** `str(mapped_row.get(key, ""))`. */
  function TextField(m: map<string, string>, key: string): string
  {
    if key in m then m[key] else ""
  }

  /** A notes column: its text when filled, otherwise nothing. */
  function OptionalField(m: map<string, string>, key: string): Option<string>
  {
    if Filled(m, key) then Some(m[key]) else None
  }

  datatype Parse<T> = Parsed(value: T) | Failed(reason: string)

  /** A numeric column: 0 when absent or empty, otherwise the parsed number or
      the message of the conversion's ValueError. Prices are whole currency
      units, so the price column is read like the others. */
  function NumberField(m: map<string, string>, key: string, asFloat: bool): (r: Parse<int>)
    ensures !Filled(m, key) ==> r == Parsed(0)
  {
    if !Filled(m, key) then Parsed(0)
    else match ParseInt(m[key])
      case Some(v) => Parsed(v)
      case None =>
        if asFloat then Failed("could not convert string to float: '" + m[key] + "'")
        else Failed("invalid literal for int() with base 10: '" + m[key] + "'")
  }

  /** The `product_data` dictionary built from one mapped row. */
  datatype ProductData = ProductData(
    name: string,
    brand: string,
    kind: ProductType,
    sizeMl: int,
    price: int,
    stockQuantity: int,
    description: string,
    fragranceFamily: string,
    notesTop: Option<string>,
    notesHeart: Option<string>,
    notesBase: Option<string>)

  /** Builds `product_data`; the numeric conversions run in the source's
      order (size, price, stock) and the first failure is the row's error. */
  function ProductDataOf(m: map<string, string>): (r: Parse<ProductData>)
    ensures r.Parsed? ==> r.value.name == TextField(m, "name") && r.value.brand == TextField(m, "brand")
    ensures r.Parsed? ==> (!Filled(m, "price") ==> r.value.price == 0)
                          && (!Filled(m, "stock_quantity") ==> r.value.stockQuantity == 0)
                          && (!Filled(m, "size_ml") ==> r.value.sizeMl == 0)
    ensures r.Parsed? ==> ("type" !in m ==> r.value.kind == DefaultProductType)
  {
    match NumberField(m, "size_ml", false)
    case Failed(e) => Failed(e)
    case Parsed(size) =>
      match NumberField(m, "price", true)
      case Failed(e) => Failed(e)
      case Parsed(price) =>
        match NumberField(m, "stock_quantity", false)
        case Failed(e) => Failed(e)
        case Parsed(stock) =>
          Parsed(ProductData(
            TextField(m, "name"), TextField(m, "brand"),
            if "type" in m then ParseType(m["type"]) else DefaultProductType,
            size, price, stock,
            TextField(m, "description"), TextField(m, "fragrance_family"),
            OptionalField(m, "notes_top"), OptionalField(m, "notes_heart"), OptionalField(m, "notes_base")))
  }

  /** A product inserted from `product_data`: no image, active. */
  function NewProductFrom(id: Id, d: ProductData): (p: Product)
    ensures p.id == id && p.isActive && p.imageUrl == None
    ensures p.name == d.name && p.brand == d.brand && p.price == d.price && p.stockQuantity == d.stockQuantity
  {
    Product(id, d.name, d.brand, d.kind, d.sizeMl, d.price, d.stockQuantity, d.description,
            d.fragranceFamily, d.notesTop, d.notesHeart, d.notesBase, None, true)
  }

  /** `setattr` of every `product_data` key on an existing product: its key,
      image and active flag are kept, every other field is overwritten. */
  function Overwrite(p: Product, d: ProductData): (q: Product)
    ensures q.id == p.id && q.imageUrl == p.imageUrl && q.isActive == p.isActive
    ensures q == NewProductFrom(p.id, d).(imageUrl := p.imageUrl, isActive := p.isActive)
  {
    p.(name := d.name, brand := d.brand, kind := d.kind, sizeMl := d.sizeMl, price := d.price,
       stockQuantity := d.stockQuantity, description := d.description,
       fragranceFamily := d.fragranceFamily, notesTop := d.notesTop, notesHeart := d.notesHeart,
       notesBase := d.notesBase)
  }

  /** The first stored product (by key below `n`) with this name and brand. */
  function FindByNameBrand(products: map<Id, Product>, name: string, brand: string, n: nat): (r: Option<Id>)
    ensures r.Some? ==> r.value < n && r.value in products
                        && products[r.value].name == name && products[r.value].brand == brand
    ensures r.Some? ==> forall k :: k < r.value && k in products ==>
                          !(products[k].name == name && products[k].brand == brand)
    ensures r.None? ==> forall k :: k < n && k in products ==>
                          !(products[k].name == name && products[k].brand == brand)
  {
    if n == 0 then None
    else match FindByNameBrand(products, name, brand, n - 1)
      case Some(k) => Some(k)
      case None =>
        if n - 1 in products && products[n - 1].name == name && products[n - 1].brand == brand
        then Some(n - 1) else None
  }

  datatype ImportSummary = ImportSummary(added: nat, updated: nat, errors: seq<string>)

  /** The products table and the key counter: what the import changes. */
  datatype Catalog = Catalog(products: map<Id, Product>, nextId: nat)

  /** A row is skipped when its name or its brand is missing or empty. */
  predicate SkipsRow(row: Row)
  {
    var m := MapRow(row);
    !Filled(m, "name") || !Filled(m, "brand")
  }

  /** The message logged for a failing row; rows are numbered from 2 because
      line 1 of the file is the header. */
  function RowError(index: nat, reason: string): string
  {
    "Error en fila " + NatToString(index + 2) + ": " + reason
  }

  /** One iteration of the import loop, for the row at `index`. */
  function ImportRow(c: Catalog, s: ImportSummary, row: Row, index: nat): (r: (Catalog, ImportSummary))
    ensures SkipsRow(row) ==> r == (c, s)
    ensures r.0.products.Keys >= c.products.Keys && r.0.nextId >= c.nextId
    ensures r.1.added + r.1.updated + |r.1.errors| == s.added + s.updated + |s.errors| + (if SkipsRow(row) then 0 else 1)
  {
    var m := MapRow(row);
    if !Filled(m, "name") || !Filled(m, "brand") then (c, s)
    else
      var existing := FindByNameBrand(c.products, m["name"], m["brand"], c.nextId);
      match ProductDataOf(m)
      case Failed(e) => (c, s.(errors := s.errors + [RowError(index, e)]))
      case Parsed(d) =>
        match existing
        case Some(k) =>
          (c.(products := c.products[k := Overwrite(c.products[k], d)]), s.(updated := s.updated + 1))
        case None =>
          (Catalog(c.products[c.nextId := NewProductFrom(c.nextId, d)], c.nextId + 1),
           s.(added := s.added + 1))
  }

  /** The import loop over the first |rows| rows, from an empty summary. */
  function ImportRows(c: Catalog, rows: seq<Row>): (Catalog, ImportSummary)
  {
    if rows == [] then (c, ImportSummary(0, 0, []))
    else
      var prev := ImportRows(c, rows[..|rows| - 1]);
      ImportRow(prev.0, prev.1, rows[|rows| - 1], |rows| - 1)
  }

  /** Importing one more row runs one more iteration on the result so far. */
  lemma ImportStep(c: Catalog, rows: seq<Row>, i: nat)
    requires i < |rows|
    ensures var prev := ImportRows(c, rows[..i]);
      ImportRows(c, rows[..i + 1]) == ImportRow(prev.0, prev.1, rows[i], i)
  {
    assert rows[..i + 1][..i] == rows[..i];
  }

  /** The number of rows without a name or brand. */
  function SkippedCount(rows: seq<Row>): nat
  {
    if rows == [] then 0 else SkippedCount(rows[..|rows| - 1]) + (if SkipsRow(rows[|rows| - 1]) then 1 else 0)
  }

  /** Every row is either skipped or counted exactly once, as added, updated or an error. */
  lemma {:induction false} ImportAccountsForEveryRow(c: Catalog, rows: seq<Row>)
    ensures var s := ImportRows(c, rows).1;
      s.added + s.updated + |s.errors| + SkippedCount(rows) == |rows|
  {
    if rows != [] {
      ImportAccountsForEveryRow(c, rows[..|rows| - 1]);
    }
  }

  /** One row keeps the table keyed below the counter. */
  lemma ImportRowKeeps(c: Catalog, s: ImportSummary, row: Row, index: nat)
    requires KeysBelow(c.products, c.nextId) && ProductsKeyed(c.products)
    ensures var r := ImportRow(c, s, row, index).0;
      KeysBelow(r.products, r.nextId) && ProductsKeyed(r.products)
  {
  }

  /** The import never removes a product and keeps the table keyed below the counter. */
  lemma {:induction false} ImportKeepsProducts(c: Catalog, rows: seq<Row>)
    requires KeysBelow(c.products, c.nextId) && ProductsKeyed(c.products)
    ensures var r := ImportRows(c, rows).0;
      r.products.Keys >= c.products.Keys && r.nextId >= c.nextId
      && KeysBelow(r.products, r.nextId) && ProductsKeyed(r.products)
  {
    if rows != [] {
      var prev := ImportRows(c, rows[..|rows| - 1]);
      ImportKeepsProducts(c, rows[..|rows| - 1]);
      ImportRowKeeps(prev.0, prev.1, rows[|rows| - 1], |rows| - 1);
    }
  }

  /** A filled row whose name and brand are already stored overwrites the
      first such product and adds none; a new pair is inserted under a fresh key. */
  lemma ImportRowUpserts(c: Catalog, s: ImportSummary, row: Row, index: nat)
    requires !SkipsRow(row) && ProductDataOf(MapRow(row)).Parsed?
    ensures var m := MapRow(row);
      var d := ProductDataOf(m).value;
      var r := ImportRow(c, s, row, index);
      match FindByNameBrand(c.products, m["name"], m["brand"], c.nextId)
      case Some(k) =>
        r.0.products == c.products[k := Overwrite(c.products[k], d)] && r.0.nextId == c.nextId
        && r.1 == s.(updated := s.updated + 1)
      case None =>
        r.0.products == c.products[c.nextId := NewProductFrom(c.nextId, d)] && r.0.nextId == c.nextId + 1
        && r.1 == s.(added := s.added + 1)
  {
  }

  /** A row whose conversion fails changes no product and logs one numbered error. */
  lemma ImportRowLogsFailure(c: Catalog, s: ImportSummary, row: Row, index: nat)
    requires !SkipsRow(row) && ProductDataOf(MapRow(row)).Failed?
    ensures ImportRow(c, s, row, index)
         == (c, s.(errors := s.errors + [RowError(index, ProductDataOf(MapRow(row)).reason)]))
  {
  }

  /** One pass of the import loop: the row at `index` upserted into the
      store's products, or logged, or skipped. */
  method ImportOne(db: Database, row: Row, index: nat, summary: ImportSummary) returns (next: ImportSummary)
    requires db.Valid()
    modifies db
    ensures db.users == old(db.users) && db.carts == old(db.carts)
    ensures db.cartOfUser == old(db.cartOfUser) && db.items == old(db.items)
    ensures (Catalog(db.products, db.nextId), next) == ImportRow(Catalog(old(db.products), old(db.nextId)), summary, row, index)
  {
    next := summary;
    var m := MapRow(row);
    if !Filled(m, "name") || !Filled(m, "brand") {
      return;
    }
    var existing := FindByNameBrand(db.products, m["name"], m["brand"], db.nextId);
    var data := ProductDataOf(m);
    if data.Failed? {
      next := summary.(errors := summary.errors + [RowError(index, data.reason)]);
    } else if existing.Some? {
      var k := existing.value;
      db.products := db.products[k := Overwrite(db.products[k], data.value)];
      next := summary.(updated := summary.updated + 1);
    } else {
      var id := db.nextId;
      db.products := db.products[id := NewProductFrom(id, data.value)];
      db.nextId := db.nextId + 1;
      next := summary.(added := summary.added + 1);
    }
  }

  /** `import_from_csv`: runs the rows in order against the store, then commits. */
  method ImportFromCsv(db: Database, rows: seq<Row>) returns (summary: ImportSummary)
    requires db.Valid()
    modifies db
    ensures db.Valid()
    ensures db.users == old(db.users) && db.carts == old(db.carts)
    ensures db.cartOfUser == old(db.cartOfUser) && db.items == old(db.items)
    ensures (Catalog(db.products, db.nextId), summary) == ImportRows(Catalog(old(db.products), old(db.nextId)), rows)
  {
    ghost var start := Catalog(db.products, db.nextId);
    summary := ImportSummary(0, 0, []);
    for i := 0 to |rows|
      invariant (Catalog(db.products, db.nextId), summary) == ImportRows(start, rows[..i])
      invariant db.users == old(db.users) && db.carts == old(db.carts)
      invariant db.cartOfUser == old(db.cartOfUser) && db.items == old(db.items)
      invariant db.Valid()
    {
      ImportStep(start, rows, i);
      summary := ImportOne(db, rows[i], i, summary);
      ImportKeepsProducts(start, rows[..i + 1]);
    }
    assert rows[..|rows|] == rows;
  }
}
