/** The per-store invoice breakdown (src/pages/Modals/MagasinIdInvoicesModal.js):
    a `reduce` that opens one row per store id, the row's status tag, the
    headline figures and the table's summary row. */
module StoreInvoices {
  import opened Wrappers
  import opened Seqs
  import opened Grouping
  import opened Domain

  /** The descriptive fields a store row copies from the first invoice that
      opened it. */
  datatype RowMeta = RowMeta(
    magasin: Store,
    customerId: Option<string>,
    customerName: string,
    customerAddress: string,
    customerPhone: string)

  /** One row of the table: the metadata plus the running counts. */
  datatype StoreRow = StoreRow(
    meta: RowMeta,
    totalInvoices: nat,
    totalAmount: real,
    totalPayed: real,
    totalNotPayed: real,
    invoices: seq<Invoice>)

  function MetaOf(inv: Invoice): RowMeta
  {
    RowMeta(inv.magasin, inv.customerId, inv.customerName, inv.customerAddress, inv.customerPhone)
  }

  /** The row the `reduce` opens for a store id it has not seen: all counts zero. */
  function OpenRow(inv: Invoice): (row: StoreRow)
    ensures row.meta.magasin.id == InvoiceStoreId(inv)
    ensures row.totalInvoices == 0 && row.invoices == []
    ensures row.totalAmount == 0.0 && row.totalPayed == 0.0 && row.totalNotPayed == 0.0
  {
    StoreRow(MetaOf(inv), 0, 0.0, 0.0, 0.0, [])
  }

  /** The four `+=` and the `push` applied to a row for one invoice. */
  function AddInvoice(row: StoreRow, inv: Invoice): (r: StoreRow)
    ensures r.meta == row.meta
    ensures r.totalInvoices == row.totalInvoices + 1
    ensures r.totalAmount - row.totalAmount == inv.total
    ensures r.totalPayed - row.totalPayed == inv.payed
    ensures r.totalNotPayed - row.totalNotPayed == inv.notPayed
    ensures r.invoices == row.invoices + [inv]
  {
    StoreRow(
      row.meta,
      row.totalInvoices + 1,
      row.totalAmount + inv.total,
      row.totalPayed + inv.payed,
      row.totalNotPayed + inv.notPayed,
      row.invoices + [inv])
  }

  function RowStoreId(row: StoreRow): string
  {
    row.meta.magasin.id
  }

  /** `Object.values(invoices.reduce(..., {}))`: the `reduce` keyed by
      `invoice.magasinId._id`, read back in the order the stores first appear. */
  function StoreRows(invs: seq<Invoice>): (rows: seq<StoreRow>)
    ensures rows == GroupRows(invs, InvoiceStoreId, OpenRow, AddInvoice, BlankRow)
  {
    GroupFoldIsGroupRows(invs, InvoiceStoreId, RowStoreId, OpenRow, AddInvoice, BlankRow);
    GroupFold(invs, InvoiceStoreId, RowStoreId, OpenRow, AddInvoice)
  }

  // ---------------------------------------------------------------------------
  // Reference definition: one row per distinct store id, built from its group.

  /** The row a store's group of invoices should produce. */
  function RowOf(invs: seq<Invoice>, id: string): StoreRow
  {
    var g := Group(invs, InvoiceStoreId, id);
    StoreRow(
      if |g| > 0 then MetaOf(g[0]) else BlankMeta(id),
      |g|,
      Sum(g, InvoiceTotal),
      Sum(g, InvoicePayed),
      Sum(g, InvoiceNotPayed),
      g)
  }

  function BlankMeta(id: string): RowMeta
  {
    RowMeta(Store(id, ""), None, "", "", "")
  }

  function BlankRow(id: string): StoreRow
  {
    StoreRow(BlankMeta(id), 0, 0.0, 0.0, 0.0, [])
  }

  function ReferenceRows(invs: seq<Invoice>): (rows: seq<StoreRow>)
    ensures |rows| == |Keys(invs, InvoiceStoreId)|
  {
    Map(Keys(invs, InvoiceStoreId), id => RowOf(invs, id))
  }

  /** Adding a list of invoices to a row adds their count, their sums and the
      invoices themselves, and keeps the row's metadata. */
  lemma {:induction false} AddAllInvoices(row: StoreRow, g: seq<Invoice>)
    ensures var r := AddAll(row, g, AddInvoice);
      && r.meta == row.meta
      && r.totalInvoices == row.totalInvoices + |g|
      && r.totalAmount == row.totalAmount + Sum(g, InvoiceTotal)
      && r.totalPayed == row.totalPayed + Sum(g, InvoicePayed)
      && r.totalNotPayed == row.totalNotPayed + Sum(g, InvoiceNotPayed)
      && r.invoices == row.invoices + g
    decreases |g|
  {
    if |g| > 0 {
      var g' := g[..|g| - 1];
      AddAllInvoices(row, g');
      assert g == g' + [g[|g| - 1]];
    }
  }

  lemma GroupRowIsRowOf(invs: seq<Invoice>, id: string)
    ensures GroupRow(invs, InvoiceStoreId, OpenRow, AddInvoice, BlankRow, id) == RowOf(invs, id)
  {
    var g := Group(invs, InvoiceStoreId, id);
    if |g| > 0 {
      AddAllInvoices(OpenRow(g[0]), g);
    }
  }

  /** The `reduce` builds exactly one row per distinct store id, in order of
      first appearance, each holding its store's invoices and their sums. */
  lemma StoreRowsIsReference(invs: seq<Invoice>)
    ensures StoreRows(invs) == ReferenceRows(invs)
  {
    GroupFoldIsGroupRows(invs, InvoiceStoreId, RowStoreId, OpenRow, AddInvoice, BlankRow);
    var ks := Keys(invs, InvoiceStoreId);
    var rows := GroupRows(invs, InvoiceStoreId, OpenRow, AddInvoice, BlankRow);
    forall i | 0 <= i < |ks|
      ensures rows[i] == ReferenceRows(invs)[i]
    {
      GroupRowIsRowOf(invs, ks[i]);
    }
  }

  lemma ReferenceIds(s: seq<Invoice>)
    ensures forall i :: 0 <= i < |ReferenceRows(s)| ==>
      ReferenceRows(s)[i].meta.magasin.id == Keys(s, InvoiceStoreId)[i]
  {
    var ks := Keys(s, InvoiceStoreId);
    forall i | 0 <= i < |ks|
      ensures ReferenceRows(s)[i].meta.magasin.id == ks[i]
    {
      GroupNonEmpty(s, InvoiceStoreId, ks[i]);
      var g := Group(s, InvoiceStoreId, ks[i]);
      assert Matches(InvoiceStoreId, ks[i])(g[0]);
    }
  }

  // ---------------------------------------------------------------------------
  // What the table shows

  /** Every row lists only invoices of its own store, in input order. */
  lemma RowsHoldTheirStore(invs: seq<Invoice>)
    ensures |StoreRows(invs)| == |Keys(invs, InvoiceStoreId)|
    ensures forall i :: 0 <= i < |StoreRows(invs)| ==>
      var row := StoreRows(invs)[i];
      && row.meta.magasin.id == Keys(invs, InvoiceStoreId)[i]
      && row.invoices == Filter(invs, Matches(InvoiceStoreId, row.meta.magasin.id))
      && row.totalInvoices == |row.invoices| > 0
  {
    StoreRowsIsReference(invs);
    ReferenceIds(invs);
    var ks := Keys(invs, InvoiceStoreId);
    forall i | 0 <= i < |ks|
      ensures |Group(invs, InvoiceStoreId, ks[i])| > 0
    {
      GroupNonEmpty(invs, InvoiceStoreId, ks[i]);
    }
  }

  function RowAmount(row: StoreRow): real
  {
    row.totalAmount
  }

  function RowPayed(row: StoreRow): real
  {
    row.totalPayed
  }

  function RowNotPayed(row: StoreRow): real
  {
    row.totalNotPayed
  }

  function RowCount(row: StoreRow): real
  {
    row.totalInvoices as real
  }

  /** Summing one row column over the rows gives the same column summed over
      all invoices. */
  lemma {:induction false} ColumnSum(invs: seq<Invoice>, col: StoreRow -> real, f: Invoice -> real)
    requires forall id :: col(RowOf(invs, id)) == Sum(Group(invs, InvoiceStoreId, id), f)
    ensures Sum(StoreRows(invs), col) == Sum(invs, f)
  {
    StoreRowsIsReference(invs);
    var ks := Keys(invs, InvoiceStoreId);
    SumMap(ks, id => RowOf(invs, id), col);
    SumExt(ks, Compose(id => RowOf(invs, id), col), GroupSum(invs, InvoiceStoreId, f));
    PartitionSum(invs, InvoiceStoreId, f);
  }

  /** The rows' amounts, payments, balances and invoice counts add up to the
      corresponding totals over all invoices. */
  lemma RowTotalsMatchInvoices(invs: seq<Invoice>)
    ensures Sum(StoreRows(invs), RowAmount) == Sum(invs, InvoiceTotal)
    ensures Sum(StoreRows(invs), RowPayed) == Sum(invs, InvoicePayed)
    ensures Sum(StoreRows(invs), RowNotPayed) == Sum(invs, InvoiceNotPayed)
    ensures Sum(StoreRows(invs), RowCount) == |invs| as real
  {
    ColumnSum(invs, RowAmount, InvoiceTotal);
    ColumnSum(invs, RowPayed, InvoicePayed);
    ColumnSum(invs, RowNotPayed, InvoiceNotPayed);
    forall id
      ensures RowCount(RowOf(invs, id)) == Sum(Group(invs, InvoiceStoreId, id), One)
    {
      SumOnes(Group(invs, InvoiceStoreId, id), One);
    }
    ColumnSum(invs, RowCount, One);
    SumOnes(invs, One);
  }

  /** The row's "Statut" tag. */
  datatype RowTag = AllPaid | Partial | NotPaid

  function RowTagLabel(t: RowTag): string
  {
    match t
    case AllPaid => "Tout payé"
    case Partial => "Partiel"
    case NotPaid => "Non payé"
  }

  function RowTagOf(row: StoreRow): (t: RowTag)
    ensures t == AllPaid <==> row.totalNotPayed == 0.0
    ensures t == Partial <==> row.totalNotPayed != 0.0 && row.totalPayed > 0.0
  {
    if row.totalNotPayed == 0.0 then AllPaid
    else if row.totalPayed > 0.0 then Partial
    else NotPaid
  }

  /** Invoices whose payed and outstanding amounts are never negative. */
  predicate NonNegativeAmounts(invs: seq<Invoice>)
  {
    forall i :: 0 <= i < |invs| ==> invs[i].payed >= 0.0 && invs[i].notPayed >= 0.0
  }

  /** With non-negative amounts a store is tagged "Tout payé" exactly when none
      of its invoices has anything outstanding, and "Non payé" exactly when
      something is outstanding and nothing at all has been paid. */
  lemma RowTagMeaning(invs: seq<Invoice>, i: nat)
    requires NonNegativeAmounts(invs)
    requires i < |StoreRows(invs)|
    ensures var row := StoreRows(invs)[i];
      && (RowTagOf(row) == AllPaid <==> forall inv :: inv in row.invoices ==> inv.notPayed == 0.0)
      && (RowTagOf(row) == NotPaid <==>
           (exists inv :: inv in row.invoices && inv.notPayed > 0.0) &&
           (forall inv :: inv in row.invoices ==> inv.payed == 0.0))
  {
    RowsHoldTheirStore(invs);
    StoreRowsIsReference(invs);
    var row := StoreRows(invs)[i];
    var g := row.invoices;
    assert forall inv :: inv in g ==> inv in invs;
    SumZeroIff(g, InvoiceNotPayed);
    SumZeroIff(g, InvoicePayed);
    SumNonNegative(g, InvoicePayed);
    if row.totalNotPayed != 0.0 {
      var inv :| inv in g && inv.notPayed != 0.0;
    }
  }

  /** The headline: number of stores, number of invoices, sum of totals. */
  datatype Headline = Headline(stores: nat, invoices: nat, amount: real)

  function HeadlineOf(invs: seq<Invoice>): (h: Headline)
    ensures h.stores == |Keys(invs, InvoiceStoreId)| && h.invoices == |invs|
    ensures h.stores <= h.invoices
  {
    RowsHoldTheirStore(invs);
    KeysFewer(invs);
    Headline(|StoreRows(invs)|, |invs|, Sum(invs, InvoiceTotal))
  }

  lemma {:induction false} KeysFewer(invs: seq<Invoice>)
    ensures |Keys(invs, InvoiceStoreId)| <= |invs|
    decreases |invs|
  {
    if |invs| > 0 {
      KeysFewer(invs[..|invs| - 1]);
    }
  }

  /** The summary row under the table. */
  datatype SummaryRow = SummaryRow(amount: real, payed: real, notPayed: real, settled: bool)

  function SummaryTagLabel(settled: bool): string
  {
    if settled then "Tout payé" else "En cours"
  }

  function SummaryOf(rows: seq<StoreRow>): (r: SummaryRow)
    ensures r.settled <==> r.notPayed == 0.0
  {
    var notPayed := Sum(rows, RowNotPayed);
    SummaryRow(Sum(rows, RowAmount), Sum(rows, RowPayed), notPayed, notPayed == 0.0)
  }

  /** The summary row repeats the figures of the invoice list itself: its
      amount equals the headline amount, and with non-negative amounts it says
      "Tout payé" exactly when no invoice has anything outstanding. */
  lemma SummaryMatchesInvoices(invs: seq<Invoice>)
    requires NonNegativeAmounts(invs)
    ensures SummaryOf(StoreRows(invs)).amount == HeadlineOf(invs).amount
    ensures SummaryOf(StoreRows(invs)).payed == Sum(invs, InvoicePayed)
    ensures SummaryOf(StoreRows(invs)).settled <==> forall inv :: inv in invs ==> inv.notPayed == 0.0
  {
    RowTotalsMatchInvoices(invs);
    SumZeroIff(invs, InvoiceNotPayed);
  }
}
