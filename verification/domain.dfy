/** The records the dashboard exchanges with its backend: invoices and their
    line items, stock products, stores and the logged-in account. JavaScript
    numbers that take part in arithmetic are exact reals; dates are
    millisecond timestamps. */
module Domain {
  import opened Wrappers
  import opened Seqs

  /** Payment status of an invoice. The backend stores a free string: the three
      values the forms offer are named, any other string is kept as `Other`. */
  datatype Status = Unpaid | PartiallyPaid | Paid | Other(raw: string)

  /** The string stored for a status. */
  function StatusName(st: Status): string
  {
    match st
    case Unpaid => "unpaid"
    case PartiallyPaid => "partially_paid"
    case Paid => "paid"
    case Other(raw) => raw
  }

  /** A status read from the backend never keeps one of the three named
      values as an `Other` string. */
  predicate WellFormedStatus(st: Status)
  {
    st.Other? ==> st.raw != "unpaid" && st.raw != "partially_paid" && st.raw != "paid"
  }

  /** Reading a stored status string: the three form values become the named
      statuses, any other string is kept verbatim. Nothing is lost. */
  function ParseStatus(raw: string): (st: Status)
    ensures WellFormedStatus(st)
    ensures StatusName(st) == raw
  {
    if raw == "unpaid" then Unpaid
    else if raw == "partially_paid" then PartiallyPaid
    else if raw == "paid" then Paid
    else Other(raw)
  }

  /** Writing a well-formed status and reading it back gives the same status. */
  lemma ParseStatusName(st: Status)
    requires WellFormedStatus(st)
    ensures ParseStatus(StatusName(st)) == st
  {
  }

  /** On well-formed statuses, comparing statuses is comparing the stored
      strings, as the pages' `status === value` filters do. */
  lemma StatusNameInjective(a: Status, b: Status)
    requires WellFormedStatus(a) && WellFormedStatus(b)
    ensures a == b <==> StatusName(a) == StatusName(b)
  {
    if StatusName(a) == StatusName(b) {
      ParseStatusName(a);
      ParseStatusName(b);
    }
  }

  datatype Store = Store(id: string, nom: string)

  /** One invoice line, with exactly the fields the invoice form submits. */
  datatype Item = Item(
    stockId: Option<string>,
    magasinId: Option<string>,
    reference: string,
    nom: string,
    taille: int,
    quantity: real,
    prixAchat: real,
    prixVente: real)

  /** A stock product (`/stock`). `idNum` is `Number(_id)`. */
  datatype Product = Product(
    id: string,
    idNum: int,
    magasin: Store,
    reference: string,
    nom: string,
    taille: int,
    prixAchat: real,
    prixVente: real,
    quantiteInitiale: real,
    quantiteVendue: real,
    quantitePerdue: real)

  /** A stored invoice (`/invoice`). `idNum` is `Number(_id)`. */
  datatype Invoice = Invoice(
    id: string,
    idNum: int,
    invoiceNumber: string,
    date: int,
    customerId: Option<string>,
    customerName: string,
    customerAddress: string,
    customerPhone: string,
    magasin: Store,
    items: seq<Item>,
    subtotal: real,
    tax: real,
    total: real,
    payed: real,
    notPayed: real,
    status: Status)

  /** The logged-in user as kept in the browser session: its `type` and the
      ids of the stores it is assigned to. */
  datatype Account = Account(kind: string, stores: seq<string>)

  predicate IsStoreUser(a: Account)
  {
    a.kind == "user"
  }

  /** The fixed VAT rate of every invoice. */
  const TaxRate: real := 0.19

  /** Amount printed on one invoice line: quantity times unit sale price. */
  function LineAmount(it: Item): real
  {
    it.quantity * it.prixVente
  }

  /** Sum of the line amounts. */
  function Subtotal(items: seq<Item>): real
  {
    Sum(items, LineAmount)
  }

  function InvoiceTotal(inv: Invoice): real
  {
    inv.total
  }

  function InvoicePayed(inv: Invoice): real
  {
    inv.payed
  }

  function InvoiceNotPayed(inv: Invoice): real
  {
    inv.notPayed
  }

  function InvoiceStoreId(inv: Invoice): string
  {
    inv.magasin.id
  }

  /** `Math.max(0, x)`. */
  function Max0(x: real): (r: real)
    ensures r >= 0.0 && r >= x
    ensures r == x || r == 0.0
  {
    if x < 0.0 then 0.0 else x
  }

  const DayMs: int := 86_400_000

  /** `startOf("day")` in UTC: the last midnight at or before `t`. */
  function StartOfDay(t: int): (r: int)
    ensures r <= t < r + DayMs
    ensures r % DayMs == 0
  {
    t - t % DayMs
  }

  /** `endOf("day")` in UTC: the last millisecond of the day of `t`. */
  function EndOfDay(t: int): (r: int)
    ensures t <= r < t + DayMs
    ensures (r + 1) % DayMs == 0
  {
    StartOfDay(t) + DayMs - 1
  }
}
