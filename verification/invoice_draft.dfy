/** The invoice editor (src/pages/Modals/InvoiceModalAddEdit.js): a draft of
    line items with derived subtotal, tax and total, the amount paid, the
    amount still owed and a payment status. Every event handler is a pure
    transition from one draft to the next. */
module InvoiceDraft {
  import opened Wrappers
  import opened Seqs
  import opened Domain

  /** The modal's `type` prop: "EDIT", or anything else (creation). */
  datatype Mode = Create | Edit

  datatype Draft = Draft(
    items: seq<Item>,
    subtotal: real,
    tax: real,
    total: real,
    payed: real,
    notPayed: real,
    status: Status)

  /** The derived figures are those of the draft's own line items. */
  predicate TotalsAgree(d: Draft)
  {
    && d.subtotal == Subtotal(d.items)
    && d.tax == d.subtotal * TaxRate
    && d.total == d.subtotal + d.tax
  }

  /** Three-way payment classification of `handlePayedChange`: fully paid at or
      above the total, partially paid strictly between zero and the total,
      unpaid otherwise. */
  function Classify(payed: real, total: real): (st: Status)
    ensures st == Paid <==> payed >= total
    ensures st == PartiallyPaid <==> 0.0 < payed < total
    ensures st == Unpaid <==> payed <= 0.0 && payed < total
  {
    if payed >= total then Paid
    else if payed > 0.0 then PartiallyPaid
    else Unpaid
  }

  /** `calculateTotals`: recompute the figures from `items`. A new invoice
      is then marked fully paid. An edited invoice's balance is measured against
      the amount paid BEFORE the edit, after which the amount paid is still
      overwritten with the new total. The status is never touched. */
  function CalculateTotals(mode: Mode, d: Draft, items: seq<Item>): (r: Draft)
    ensures r.items == items && TotalsAgree(r)
    ensures r.total == Subtotal(items) * (1.0 + TaxRate)
    ensures r.status == d.status
    ensures r.payed == r.total
    ensures mode == Create ==> r.notPayed == 0.0
    ensures mode == Edit ==> r.notPayed == Max0(r.total - d.payed)
  {
    var subtotal := Subtotal(items);
    var tax := subtotal * TaxRate;
    var total := subtotal + tax;
    match mode
    case Edit =>
      d.(items := items, subtotal := subtotal, tax := tax, total := total,
         notPayed := Max0(total - d.payed), payed := total)
    case Create =>
      d.(items := items, subtotal := subtotal, tax := tax, total := total,
         payed := total, notPayed := 0.0)
  }

  /** In creation mode every recompute leaves the draft exactly settled: paid
      plus owed is the total, and the classification of the paid amount is
      `Paid`. */
  lemma CreateRecomputeSettles(d: Draft, items: seq<Item>)
    ensures var r := CalculateTotals(Create, d, items);
      r.payed + r.notPayed == r.total && Classify(r.payed, r.total) == Paid
  {
  }

  /** In edit mode the recompute overstates: paid plus owed exceeds the new
      total by the balance owed against the old paid amount, so by a positive
      amount whenever the old paid amount was below the new total. */
  lemma EditRecomputeOverstates(d: Draft, items: seq<Item>)
    ensures var r := CalculateTotals(Edit, d, items);
      && r.payed + r.notPayed == r.total + Max0(r.total - d.payed)
      && (r.payed + r.notPayed > r.total <==> d.payed < r.total)
  {
  }

  /** A second recompute in edit mode wipes the balance: the first one set the
      paid amount to the total, so the second measures the balance against it. */
  lemma EditRecomputeTwiceClearsBalance(d: Draft, items: seq<Item>, items2: seq<Item>)
    requires Subtotal(items2) == Subtotal(items)
    ensures CalculateTotals(Edit, CalculateTotals(Edit, d, items), items2).notPayed == 0.0
  {
  }

  /** The ADD-mode initial state: no items, all figures zero, status `paid`. */
  function OpenCreate(): (d: Draft)
    ensures d.items == [] && d.subtotal == 0.0 && d.tax == 0.0 && d.total == 0.0
    ensures d.payed == 0.0 && d.notPayed == 0.0
    ensures d.status == Paid && d.status == Classify(d.payed, d.total)
  {
    Draft([], 0.0, 0.0, 0.0, 0.0, 0.0, Paid)
  }

  /** The zero figures of the creation state are those of its (empty) items. */
  lemma OpenCreateAgrees()
    ensures TotalsAgree(OpenCreate())
  {
    var empty: seq<Item> := [];
    assert Subtotal(empty) == 0.0;
  }

  /** `record.status || "unpaid"`. */
  function StatusOrUnpaid(st: Status): Status
  {
    if st == Other("") then Unpaid else st
  }

  /** Opening the editor on a stored invoice. The effect loads the record's
      items, status, paid and owed amounts, then runs `calculateTotals`, which
      still sees the paid amount of the PREVIOUS draft `prev` (a stale closure)
      and overwrites both amounts. */
  function OpenEdit(prev: Draft, rec: Invoice): (d: Draft)
    ensures d.items == rec.items && TotalsAgree(d)
    ensures d.status == StatusOrUnpaid(rec.status)
    ensures d.payed == d.total
    ensures d.notPayed == Max0(d.total - prev.payed)
  {
    CalculateTotals(Edit, prev.(status := StatusOrUnpaid(rec.status)), rec.items)
  }

  /** The amounts recorded on the stored invoice never reach the opened draft. */
  lemma OpenEditIgnoresRecordedPayment(prev: Draft, rec: Invoice, payed: real, notPayed: real)
    ensures OpenEdit(prev, rec.(payed := payed, notPayed := notPayed)) == OpenEdit(prev, rec)
  {
  }

  /** The line `handleAddItem` appends: quantity 1, no product, price 0, in the
      first known store. */
  function DefaultItem(stores: seq<Store>): Item
  {
    Item(None, if |stores| > 0 && stores[0].id != "" then Some(stores[0].id) else None,
         "", "", 0, 1.0, 0.0, 0.0)
  }

  /** `handleAddItem`: one default line appended; nothing is recomputed. */
  function AddItem(d: Draft, stores: seq<Store>): (r: Draft)
    ensures |r.items| == |d.items| + 1 && r.items[..|d.items|] == d.items
    ensures r.items[|d.items|].quantity == 1.0 && r.items[|d.items|].prixVente == 0.0
    ensures r.items[|d.items|].stockId == None
    ensures r.items[|d.items|].reference == "" && r.items[|d.items|].nom == ""
    ensures r.items[|d.items|].magasinId.Some? <==> |stores| > 0 && stores[0].id != ""
    ensures r.items[|d.items|].magasinId.Some? ==> r.items[|d.items|].magasinId.value == stores[0].id
    ensures r.subtotal == d.subtotal && r.tax == d.tax && r.total == d.total
    ensures r.payed == d.payed && r.notPayed == d.notPayed && r.status == d.status
  {
    d.(items := d.items + [DefaultItem(stores)])
  }

  /** The appended line is worth nothing, so figures that agreed with the old
      items agree with the new ones although nothing was recomputed. */
  lemma AddItemKeepsTotals(d: Draft, stores: seq<Store>)
    requires TotalsAgree(d)
    ensures TotalsAgree(AddItem(d, stores))
    ensures Subtotal(AddItem(d, stores).items) == Subtotal(d.items)
  {
    SumAppend(d.items, [DefaultItem(stores)], LineAmount);
    assert Sum([DefaultItem(stores)], LineAmount) == LineAmount(DefaultItem(stores));
  }

  /** `handleRemoveItem`: `splice(index, 1)`, then recompute. */
  function RemoveItem(mode: Mode, d: Draft, index: int): (r: Draft)
    ensures r.items == SpliceOne(d.items, index)
    ensures 0 <= index < |d.items| ==> r.items == d.items[..index] + d.items[index + 1..]
    ensures index >= |d.items| ==> r.items == d.items
    ensures TotalsAgree(r) && r.payed == r.total && r.status == d.status
    ensures mode == Create ==> r.notPayed == 0.0
    ensures mode == Edit ==> r.notPayed == Max0(r.total - d.payed)
  {
    CalculateTotals(mode, d, SpliceOne(d.items, index))
  }

  /** Removing line `index` takes exactly that line's amount out of the subtotal. */
  lemma RemoveItemSubtotal(mode: Mode, d: Draft, index: nat)
    requires index < |d.items|
    requires TotalsAgree(d)
    ensures RemoveItem(mode, d, index).subtotal == d.subtotal - LineAmount(d.items[index])
  {
    var s := d.items;
    assert s == s[..index] + [s[index]] + s[index + 1..];
    SumRemove(s[..index], s[index], s[index + 1..], LineAmount);
  }

  /** The two edits the line table issues through `handleItemChange`. */
  datatype ItemEdit = SetStockId(stockId: Option<string>) | SetQuantity(quantity: real)

  /** `products?.find(p => p._id === id)`: the first product with that id. */
  function FindProduct(products: seq<Product>, id: string): (r: Option<Product>)
    ensures r.Some? ==> r.value in products && r.value.id == id
    ensures r.None? <==> forall p :: p in products ==> p.id != id
    ensures r.Some? ==>
      exists i :: (0 <= i < |products| && products[i] == r.value
                   && forall j :: 0 <= j < i ==> products[j].id != id)
  {
    if |products| == 0 then None
    else if products[0].id == id then Some(products[0])
    else
      var r := FindProduct(products[1..], id);
      if r.Some? then
        assert forall j :: 1 <= j < |products| ==> products[j] == products[1..][j - 1];
        r
      else r
  }

  /** The line after an edit: the field is set; choosing a (non-empty) product
      that exists copies its reference, name, size and both prices. */
  function ApplyEdit(it: Item, edit: ItemEdit, products: seq<Product>): Item
  {
    match edit
    case SetQuantity(q) => it.(quantity := q)
    case SetStockId(v) =>
      var it' := it.(stockId := v);
      if v.Some? && v.value != "" then
        match FindProduct(products, v.value)
        case Some(p) =>
          it'.(reference := p.reference, nom := p.nom, taille := p.taille,
               prixAchat := p.prixAchat, prixVente := p.prixVente)
        case None => it'
      else it'
  }

  /** `handleItemChange(index, field, value)`: edit one line, then recompute. */
  function ChangeItem(mode: Mode, d: Draft, products: seq<Product>, index: nat, edit: ItemEdit): (r: Draft)
    requires index < |d.items|
    ensures |r.items| == |d.items|
    ensures forall j :: 0 <= j < |d.items| && j != index ==> r.items[j] == d.items[j]
    ensures edit.SetQuantity? ==> r.items[index] == d.items[index].(quantity := edit.quantity)
    ensures edit.SetStockId? ==>
      && r.items[index].stockId == edit.stockId
      && r.items[index].magasinId == d.items[index].magasinId
      && r.items[index].quantity == d.items[index].quantity
    ensures edit.SetStockId? && edit.stockId.Some? && edit.stockId.value != ""
            && FindProduct(products, edit.stockId.value).Some? ==>
      var p := FindProduct(products, edit.stockId.value).value;
      && p.id == edit.stockId.value
      && r.items[index].prixVente == p.prixVente && r.items[index].prixAchat == p.prixAchat
      && r.items[index].reference == p.reference && r.items[index].nom == p.nom
      && r.items[index].taille == p.taille
    ensures edit.SetStockId? && (edit.stockId.None? || edit.stockId.value == ""
            || FindProduct(products, edit.stockId.value).None?) ==>
      r.items[index] == d.items[index].(stockId := edit.stockId)
    ensures TotalsAgree(r) && r.payed == r.total && r.status == d.status
    ensures mode == Create ==> r.notPayed == 0.0
    ensures mode == Edit ==> r.notPayed == Max0(r.total - d.payed)
  {
    CalculateTotals(mode, d, d.items[index := ApplyEdit(d.items[index], edit, products)])
  }

  /** Changing one line moves the subtotal by exactly that line's change. */
  lemma ChangeItemSubtotal(mode: Mode, d: Draft, products: seq<Product>, index: nat, edit: ItemEdit)
    requires index < |d.items|
    requires TotalsAgree(d)
    ensures var r := ChangeItem(mode, d, products, index, edit);
      r.subtotal == d.subtotal - LineAmount(d.items[index]) + LineAmount(r.items[index])
  {
    SumUpdate(d.items, index, ApplyEdit(d.items[index], edit, products), LineAmount);
  }

  /** `handleStatusChange`: choosing `paid` or `unpaid` rewrites both amounts
      from the current total; any other choice only changes the status. */
  function ChangeStatus(d: Draft, st: Status): (r: Draft)
    ensures r.status == st
    ensures r.(payed := d.payed, notPayed := d.notPayed, status := d.status) == d
    ensures st == Paid ==> r.payed == d.total && r.notPayed == 0.0
    ensures st == Unpaid ==> r.payed == 0.0 && r.notPayed == d.total
    ensures st != Paid && st != Unpaid ==> r.payed == d.payed && r.notPayed == d.notPayed
  {
    match st
    case Paid => d.(status := st, payed := d.total, notPayed := 0.0)
    case Unpaid => d.(status := st, payed := 0.0, notPayed := d.total)
    case _ => d.(status := st)
  }

  /** After the `paid` shortcut the typed-amount classification agrees with the
      chosen status; after `unpaid` it agrees only for a positive total, since
      a zero total with nothing paid classifies as `Paid`. */
  lemma StatusShortcutAgreesWithClassify(d: Draft, st: Status)
    ensures st == Paid ==> Classify(ChangeStatus(d, st).payed, d.total) == Paid
    ensures st == Unpaid ==>
      (Classify(ChangeStatus(d, st).payed, d.total) == Unpaid <==> d.total > 0.0)
  {
  }

  /** `handlePayedChange`: `Number(value) || 0` becomes the amount paid (input
      that is not a number counts as 0), the balance is what remains of the
      total, never negative, and the status is re-derived. */
  function ChangePayed(d: Draft, value: Option<real>): (r: Draft)
    ensures r.payed == value.GetOr(0.0)
    ensures r.notPayed >= 0.0 && r.notPayed >= d.total - r.payed
    ensures r.payed <= d.total ==> r.payed + r.notPayed == d.total
    ensures r.payed >= d.total ==> r.notPayed == 0.0
    ensures r.status == Classify(r.payed, d.total)
    ensures r.(payed := d.payed, notPayed := d.notPayed, status := d.status) == d
  {
    var newPayed := value.GetOr(0.0);
    d.(payed := newPayed, notPayed := Max0(d.total - newPayed), status := Classify(newPayed, d.total))
  }

  /** Typing exactly the total, or exactly 0 on a positive total, gives the two
      boundary classifications and the matching balance. */
  lemma PayedBoundaries(d: Draft)
    ensures var r := ChangePayed(d, Some(d.total)); r.status == Paid && r.notPayed == 0.0
    ensures d.total > 0.0 ==>
      var r := ChangePayed(d, Some(0.0)); r.status == Unpaid && r.notPayed == d.total
    ensures d.total == 0.0 ==> ChangePayed(d, None).status == Paid
  {
  }

  /** From the creation state, the first line edit is the first recompute,
      and it leaves the invoice settled: paid plus owed is the total and the
      initial "paid" status agrees with the classification of the amount paid. */
  lemma CreateFirstEditSettles(stores: seq<Store>, products: seq<Product>, edit: ItemEdit)
    ensures var d := ChangeItem(Create, AddItem(OpenCreate(), stores), products, 0, edit);
      && d.payed + d.notPayed == d.total
      && d.status == Paid && Classify(d.payed, d.total) == d.status
  {
    var added := AddItem(OpenCreate(), stores);
    var items := added.items[0 := ApplyEdit(added.items[0], edit, products)];
    assert ChangeItem(Create, added, products, 0, edit) == CalculateTotals(Create, added, items);
  }

  /** Adding a line to a new invoice and removing it again gives back the
      empty, zero, "paid" draft. */
  lemma CreateAddThenRemove(stores: seq<Store>)
    ensures var d := RemoveItem(Create, AddItem(OpenCreate(), stores), 0);
      && d.items == [] && d.total == 0.0 && d.payed == 0.0 && d.notPayed == 0.0 && d.status == Paid
  {
    var added := AddItem(OpenCreate(), stores);
    assert SpliceOne(added.items, 0) == [];
    var empty: seq<Item> := [];
    assert Subtotal(empty) == 0.0;
  }

  /** The figures `handleSubmit` sends, and the line projection of its items. */
  datatype Payload = Payload(items: seq<Item>, subtotal: real, tax: real, total: real,
                             notpayed: real, payed: real, status: Status)

  function SubmitPayload(d: Draft): (p: Payload)
    ensures p.items == d.items && p.payed == d.payed && p.notpayed == d.notPayed
    ensures p.subtotal == d.subtotal && p.tax == d.tax && p.total == d.total
    ensures p.status == d.status
  {
    Payload(d.items, d.subtotal, d.tax, d.total, d.notPayed, d.payed, d.status)
  }

  /** Every handler except `handleAddItem` and the status and payment edits
      recomputes, and those leave the figures alone; so the submitted total is
      the submitted lines' subtotal plus 19% tax. */
  lemma PayloadTotalMatchesLines(d: Draft)
    requires TotalsAgree(d)
    ensures var p := SubmitPayload(d); p.total == Subtotal(p.items) * (1.0 + TaxRate)
  {
  }
}
