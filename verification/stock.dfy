/** The stock page (src/pages/Produit.js): which products an account sees,
    the keyword search and the rows the table shows, per-product available
    stock and value, and the per-store stock summary. */
module Stock {
  import opened Seqs
  import opened Text
  import opened Sorting
  import opened Grouping
  import opened Domain

  function ProductIdNum(p: Product): int
  {
    p.idNum
  }

  function ProductStoreId(p: Product): string
  {
    p.magasin.id
  }

  /** `quantiteInitiale - quantiteVendue - quantitePerdue`. */
  function Available(p: Product): real
  {
    p.quantiteInitiale - p.quantiteVendue - p.quantitePerdue
  }

  /** One product's term of the `stockValue` reduce: available stock times
      purchase price. */
  function Value(p: Product): real
  {
    Available(p) * p.prixAchat
  }

  /** The "Valeur" column of the product table: purchase price times
      (initial - sold - lost), shown to two decimals. */
  function ValueCell(p: Product): real
  {
    p.prixAchat * (p.quantiteInitiale - p.quantiteVendue - p.quantitePerdue)
  }

  function InitialQty(p: Product): real
  {
    p.quantiteInitiale
  }

  function SoldQty(p: Product): real
  {
    p.quantiteVendue
  }

  function LostQty(p: Product): real
  {
    p.quantitePerdue
  }

  /** `user.magasinId.includes(el.magasinId)`. */
  function InStores(stores: seq<string>): Product -> bool
  {
    (p: Product) => p.magasin.id in stores
  }

  /** `fetchData`: a "user" account keeps only the products of its stores,
      other accounts keep everything; the result is sorted by numeric id. */
  function VisibleProducts(account: Account, response: seq<Product>): (r: seq<Product>)
    ensures SortedBy(r, ProductIdNum)
    ensures !IsStoreUser(account) ==> multiset(r) == multiset(response)
  {
    var kept := if IsStoreUser(account) then Filter(response, InStores(account.stores)) else response;
    SortBy(kept, ProductIdNum)
  }

  /** A product is listed exactly when it was fetched and, for a "user"
      account, belongs to one of its stores. */
  lemma VisibleMembership(account: Account, response: seq<Product>, p: Product)
    ensures p in VisibleProducts(account, response) <==>
      p in response && (IsStoreUser(account) ==> p.magasin.id in account.stores)
  {
    var kept := if IsStoreUser(account) then Filter(response, InStores(account.stores)) else response;
    var r := VisibleProducts(account, response);
    assert p in r <==> p in multiset(r);
    assert p in kept <==> p in multiset(kept);
    if IsStoreUser(account) {
      if p in kept {
        var i :| 0 <= i < |kept| && kept[i] == p;
      }
      if p in response && p.magasin.id in account.stores {
        var i :| 0 <= i < |response| && response[i] == p;
        assert InStores(account.stores)(response[i]);
      }
    }
  }

  /** The list page's state: the visible products, the search results
      (`filterData`) and the search box. */
  datatype ProductView = ProductView(data: seq<Product>, filterData: seq<Product>, search: string)

  /** `fetchData` on success: search box and results are cleared. */
  function Loaded(account: Account, response: seq<Product>): (v: ProductView)
    ensures v.data == VisibleProducts(account, response)
    ensures SortedBy(v.data, ProductIdNum)
    ensures forall p :: p in v.data <==>
      p in response && (IsStoreUser(account) ==> p.magasin.id in account.stores)
    ensures v.filterData == [] && v.search == ""
    ensures Displayed(v) == v.data
  {
    forall p
      ensures p in VisibleProducts(account, response) <==>
        p in response && (IsStoreUser(account) ==> p.magasin.id in account.stores)
    {
      VisibleMembership(account, response, p);
    }
    ProductView(VisibleProducts(account, response), [], "")
  }

  /** `dataSource={filterData.length > 0 ? filterData : data}`. */
  function Displayed(v: ProductView): (rows: seq<Product>)
    ensures |v.filterData| > 0 ==> rows == v.filterData
    ensures |v.filterData| == 0 ==> rows == v.data
  {
    if |v.filterData| > 0 then v.filterData else v.data
  }

  function MatchesSearch(search: string): Product -> bool
  {
    (p: Product) => ContainsIgnoringCase(p.nom, search) || ContainsIgnoringCase(p.reference, search)
  }

  /** What `handleSearch` does: an empty box refetches, anything else filters. */
  datatype SearchOutcome = Refetch | Show(filtered: seq<Product>)

  function Search(v: ProductView): (r: SearchOutcome)
    ensures r.Refetch? <==> v.search == ""
    ensures r.Show? ==> Subseq(r.filtered, v.data)
  {
    if v.search == "" then Refetch
    else
      FilterIsSubseq(v.data, MatchesSearch(v.search));
      Show(Filter(v.data, MatchesSearch(v.search)))
  }

  /** The search keeps exactly the products whose lower-cased name or
      reference has the lower-cased search text at some position. */
  lemma SearchMembership(v: ProductView, p: Product)
    requires v.search != ""
    ensures p in Search(v).filtered <==>
      p in v.data &&
      ((exists i :: OccursAt(Lower(p.nom), Lower(v.search), i)) ||
       (exists i :: OccursAt(Lower(p.reference), Lower(v.search), i)))
  {
    IncludesIff(Lower(p.nom), Lower(v.search));
    IncludesIff(Lower(p.reference), Lower(v.search));
    var r := Search(v).filtered;
    if p in r {
      var i :| 0 <= i < |r| && r[i] == p;
    }
    if p in v.data && MatchesSearch(v.search)(p) {
      var i :| 0 <= i < |v.data| && v.data[i] == p;
      assert MatchesSearch(v.search)(v.data[i]);
    }
  }

  /** Storing a search result: a search that matches nothing leaves the table
      showing every product, not an empty table. */
  lemma EmptySearchShowsEverything(v: ProductView)
    requires v.search != "" && Search(v).filtered == []
    ensures Displayed(v.(filterData := Search(v).filtered)) == v.data
  {
  }

  // ---------------------------------------------------------------------------
  // Stock by store (`loadStockByMagasin`)

  /** One row of the per-store stock table. */
  datatype StockRow = StockRow(
    magasin: Store,
    count: nat,
    totalInitial: real,
    totalVendu: real,
    totalPerdu: real,
    totalStock: real,
    stockValue: real,
    produits: seq<Product>)

  /** The `.map` body over one group: store info from the first product (or
      the id with name "Unknown" for a group without one), the quantity sums,
      their difference, and the summed stock value. */
  function Summarise(key: string, produits: seq<Product>): (row: StockRow)
    ensures row.count == |produits| && row.produits == produits
    ensures |produits| > 0 ==> row.magasin == produits[0].magasin
    ensures |produits| == 0 ==> row.magasin == Store(key, "Unknown")
    ensures row.totalInitial == Sum(produits, InitialQty)
    ensures row.totalVendu == Sum(produits, SoldQty)
    ensures row.totalPerdu == Sum(produits, LostQty)
    ensures row.totalStock == Sum(produits, Available)
    ensures row.stockValue == Sum(produits, Value)
    ensures row.stockValue == Sum(produits, ValueCell)
  {
    var totalInitial := Sum(produits, InitialQty);
    var totalVendu := Sum(produits, SoldQty);
    var totalPerdu := Sum(produits, LostQty);
    var initialLessSold := (p: Product) => p.quantiteInitiale - p.quantiteVendue;
    SumDifference(produits, InitialQty, SoldQty, initialLessSold);
    SumDifference(produits, initialLessSold, LostQty, Available);
    SumExt(produits, Value, ValueCell);
    StockRow(
      if |produits| > 0 then produits[0].magasin else Store(key, "Unknown"),
      |produits|,
      totalInitial,
      totalVendu,
      totalPerdu,
      totalInitial - totalVendu - totalPerdu,
      Sum(produits, Value),
      produits)
  }

  /** `_.chain(products).groupBy(p => p.magasinId._id).map(...)`, groups in
      the order their store first appears. */
  function StockByStore(products: seq<Product>): (rows: seq<StockRow>)
    ensures |rows| == |Keys(products, ProductStoreId)|
  {
    Map(Keys(products, ProductStoreId), k => Summarise(k, Group(products, ProductStoreId, k)))
  }

  /** Every row holds the products of exactly one store, under that store. */
  lemma RowsHoldTheirStore(products: seq<Product>, i: nat)
    requires i < |StockByStore(products)|
    ensures var row, k := StockByStore(products)[i], Keys(products, ProductStoreId)[i];
      && row.magasin.id == k
      && row.count > 0
      && row.produits == Filter(products, Matches(ProductStoreId, k))
  {
    var k := Keys(products, ProductStoreId)[i];
    GroupNonEmpty(products, ProductStoreId, k);
    var g := Group(products, ProductStoreId, k);
    assert Matches(ProductStoreId, k)(g[0]);
  }

  /** The figures of row `i` are those of the products of its store: the
      available stock and the stock value summed over exactly the products
      whose store is the row's, the value agreeing with the "Valeur" column. */
  lemma RowFigures(products: seq<Product>, i: nat)
    requires i < |StockByStore(products)|
    ensures var row := StockByStore(products)[i];
      var own := Filter(products, Matches(ProductStoreId, row.magasin.id));
      && row.count == |own|
      && row.totalStock == Sum(own, Available)
      && row.stockValue == Sum(own, ValueCell)
  {
    RowsHoldTheirStore(products, i);
  }

  function RowCount(row: StockRow): real
  {
    row.count as real
  }

  function RowStock(row: StockRow): real
  {
    row.totalStock
  }

  function RowValue(row: StockRow): real
  {
    row.stockValue
  }

  /** Summing one row column over the rows gives the same column summed over
      all products. */
  lemma {:induction false} ColumnSum(products: seq<Product>, col: StockRow -> real, f: Product -> real)
    requires forall k :: col(Summarise(k, Group(products, ProductStoreId, k))) == Sum(Group(products, ProductStoreId, k), f)
    ensures Sum(StockByStore(products), col) == Sum(products, f)
  {
    var ks := Keys(products, ProductStoreId);
    var summarise := k => Summarise(k, Group(products, ProductStoreId, k));
    SumMap(ks, summarise, col);
    SumExt(ks, Compose(summarise, col), GroupSum(products, ProductStoreId, f));
    PartitionSum(products, ProductStoreId, f);
  }

  /** The grouping loses and duplicates nothing: the rows' counts add up to
      the number of products, and their stock and value columns add up to the
      per-product available stock and value over all products. */
  lemma StockByStoreTotals(products: seq<Product>)
    ensures Sum(StockByStore(products), RowCount) == |products| as real
    ensures Sum(StockByStore(products), RowStock) == Sum(products, Available)
    ensures Sum(StockByStore(products), RowValue) == Sum(products, Value)
  {
    forall k
      ensures RowCount(Summarise(k, Group(products, ProductStoreId, k))) == Sum(Group(products, ProductStoreId, k), One)
    {
      SumOnes(Group(products, ProductStoreId, k), One);
    }
    ColumnSum(products, RowCount, One);
    SumOnes(products, One);
    ColumnSum(products, RowStock, Available);
    ColumnSum(products, RowValue, Value);
  }
}
