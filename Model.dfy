/** The scraped entities: the (id, category) pair read from a listing page, the Yahoo!
    Auctions product built from a detail page, the seller aggregate, and the CSV
    capability every product offers (its header line and its data line). */
module Model {
  import opened Wrappers
  import opened Text

  /** The key read from a listing anchor; equal exactly when both fields are. */
  datatype IdAndCategory = IdAndCategory(id: string, category: string)

  /** A product read from its detail page. Prices are Java `Long`s; image URLs are kept in
      the order the collecting set yields them. */
  datatype YAProduct = YAProduct(
    idAndCategory: IdAndCategory,
    title: string,
    description: string,
    startingPrice: int,
    buyoutPrice: int,
    imageUrl: seq<string>)

  /** A seller handle with the products collected for it, in iteration order. */
  datatype Seller = Seller(name: string, products: seq<YAProduct>)

  /** What the abstract `Product` class offers the CSV writers: `csvHeader()` and
      `csvData()`, where `None` stands for a `null` return. */
  datatype CsvProduct = CsvProduct(csvHeader: string, csvData: Option<string>)

  const CSV_COLUMNS: seq<string> := [
    "カテゴリ", "タイトル", "説明", "開始価格", "即決価格",
    "画像1", "画像2", "画像3", "画像4", "画像5",
    "画像6", "画像7", "画像8", "画像9", "画像10"]

  /** The fixed header line: the fifteen column names joined by commas. */
  const CSV_HEADER: string := Join(CSV_COLUMNS, ',')

  /** `YAProduct.csvHeader()` returns the header constant, and `csvData()` returns `null`. */
  function AsCsvProduct(p: YAProduct): (c: CsvProduct)
    ensures c.csvData.None?
    ensures Split(c.csvHeader, ',') == CSV_COLUMNS
  {
    HeaderColumns();
    CsvProduct(CSV_HEADER, None)
  }

  /** The header has fifteen columns: category, title, description, start price, buy-now
      price, then images 1 to 10. */
  lemma HeaderColumns()
    ensures |CSV_COLUMNS| == 15
    ensures Split(CSV_HEADER, ',') == CSV_COLUMNS
  {
    var cols := CSV_COLUMNS;
    NoCommaInColumns();
    JoinFields(cols, ',');
    var h := Join(cols[..14], ',');
    assert CSV_HEADER == h + [','] + cols[14];
    assert CSV_HEADER[|h|] == ',';
    KeepsLastNonEmpty(cols);
  }

  lemma NoCommaInColumns()
    ensures forall i :: 0 <= i < |CSV_COLUMNS| ==> ',' !in CSV_COLUMNS[i]
  {
    var cols := CSV_COLUMNS;
    forall i | 0 <= i < |cols| ensures ',' !in cols[i] {
      assert forall k :: 0 <= k < |cols[i]| ==> cols[i][k] != ',';
    }
  }

  /** Declared identity of a product: its auction id only. */
  predicate SameProduct(p: YAProduct, q: YAProduct)
  {
    p.idAndCategory.id == q.idAndCategory.id
  }

  predicate UniqueIds(ps: seq<YAProduct>)
  {
    forall i, j :: 0 <= i < j < |ps| ==> !SameProduct(ps[i], ps[j])
  }

  /** `HashSet.add` under the declared identity: an element equal to one already present
      leaves the set unchanged (the first one stays). */
  function AddProduct(ps: seq<YAProduct>, p: YAProduct): (r: seq<YAProduct>)
    ensures (exists q :: q in ps && SameProduct(q, p)) ==> r == ps
    ensures (forall q :: q in ps ==> !SameProduct(q, p)) ==> r == ps + [p]
    ensures UniqueIds(ps) ==> UniqueIds(r)
  {
    if exists q :: q in ps && SameProduct(q, p) then ps
    else
      assert forall i :: 0 <= i < |ps| ==> ps[i] in ps;
      ps + [p]
  }

  /** After adding, the set holds a product with the id of the one added, and nothing but
      the products it held before and the one added. */
  lemma AddProductMembers(ps: seq<YAProduct>, p: YAProduct)
    ensures exists q :: q in AddProduct(ps, p) && SameProduct(q, p)
    ensures forall q :: q in AddProduct(ps, p) ==> q in ps || q == p
    ensures forall q :: q in ps ==> q in AddProduct(ps, p)
  {
    if !exists q :: q in ps && SameProduct(q, p) {
      assert (ps + [p])[|ps|] == p && SameProduct(p, p);
    }
  }

  /** Product equality as the annotation `@EqualsAndHashCode(of = "id")` generates it: the
      class declares no field `id`, so no field takes part and any two products are equal. */
  predicate SameProductAsWritten(p: YAProduct, q: YAProduct)
  {
    true
  }

  function AddProductAsWritten(ps: seq<YAProduct>, p: YAProduct): (r: seq<YAProduct>)
    ensures |ps| <= 1 ==> |r| <= 1
  {
    assert |ps| >= 1 ==> ps[0] in ps;
    if exists q :: q in ps && SameProductAsWritten(q, p) then ps else ps + [p]
  }

  /** With the equality as written, a set built from two products with different ids keeps
      only the first; with the declared identity it keeps both. */
  lemma AsWrittenEqualityCollapses(p: YAProduct, q: YAProduct)
    requires p.idAndCategory.id != q.idAndCategory.id
    ensures AddProductAsWritten(AddProductAsWritten([], p), q) == [p]
    ensures AddProduct(AddProduct([], p), q) == [p, q]
  {
    assert p in [p] && SameProductAsWritten(p, q);
  }
}
