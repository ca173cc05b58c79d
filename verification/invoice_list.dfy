/** The invoice list page (src/pages/Invoice.js): the fetched list sorted by
    numeric id, the three-stage filter (keyword, date window, status), the
    reset button, the status colours and the figures printed on an invoice. */
module InvoiceList {
  import opened Wrappers
  import opened Seqs
  import opened Text
  import opened Sorting
  import opened Domain

  function InvoiceIdNum(inv: Invoice): int
  {
    inv.idNum
  }

  /** `_.sortBy(response.data, o => Number(o._id))`. */
  function SortFetched(invs: seq<Invoice>): (r: seq<Invoice>)
    ensures multiset(r) == multiset(invs)
    ensures SortedBy(r, InvoiceIdNum)
  {
    SortBy(invs, InvoiceIdNum)
  }

  /** The filter controls: search box, date range picker (an empty list once
      cleared) and status select (`null` once cleared). */
  datatype Filters = Filters(search: string, dateRange: seq<int>, status: Option<Status>)

  const NoFilters := Filters("", [], None)

  /** Invoice number or customer name contains the search text, ignoring case. */
  predicate MatchesKeyword(search: string, inv: Invoice)
  {
    ContainsIgnoringCase(inv.invoiceNumber, search) || ContainsIgnoringCase(inv.customerName, search)
  }

  /** `isAfter(start.startOf("day")) && isBefore(end.endOf("day"))`: both
      bounds strict. */
  predicate InWindow(start: int, end: int, inv: Invoice)
  {
    StartOfDay(start) < inv.date < EndOfDay(end)
  }

  function KeywordTest(search: string): Invoice -> bool
  {
    inv => MatchesKeyword(search, inv)
  }

  function WindowTest(start: int, end: int): Invoice -> bool
  {
    inv => InWindow(start, end, inv)
  }

  function StatusTest(st: Status): Invoice -> bool
  {
    (inv: Invoice) => inv.status == st
  }

  function KeywordStage(s: seq<Invoice>, search: string): seq<Invoice>
  {
    if search != "" then Filter(s, KeywordTest(search)) else s
  }

  function DateStage(s: seq<Invoice>, range: seq<int>): seq<Invoice>
  {
    if |range| == 2 then Filter(s, WindowTest(range[0], range[1])) else s
  }

  function StatusStage(s: seq<Invoice>, st: Option<Status>): seq<Invoice>
  {
    if st.Some? then Filter(s, StatusTest(st.value)) else s
  }

  /** `applyFilters`: keyword, then date window, then status; a stage whose
      control is empty passes everything through. */
  function ApplyFilters(data: seq<Invoice>, f: Filters): (r: seq<Invoice>)
    ensures Subseq(r, data)
    ensures f.search == "" && |f.dateRange| != 2 && f.status.None? ==> r == data
  {
    var k := KeywordStage(data, f.search);
    var d := DateStage(k, f.dateRange);
    var r := StatusStage(d, f.status);
    assert Subseq(k, data) by {
      if f.search != "" { FilterIsSubseq(data, KeywordTest(f.search)); } else { SubseqRefl(data); }
    }
    assert Subseq(d, k) by {
      if |f.dateRange| == 2 {
        FilterIsSubseq(k, WindowTest(f.dateRange[0], f.dateRange[1]));
      } else {
        SubseqRefl(k);
      }
    }
    assert Subseq(r, d) by {
      if f.status.Some? { FilterIsSubseq(d, StatusTest(f.status.value)); } else { SubseqRefl(d); }
    }
    SubseqTransitive(d, k, data);
    SubseqTransitive(r, d, data);
    r
  }

  /** What one invoice must satisfy to survive all three stages. */
  predicate Keep(f: Filters, inv: Invoice)
  {
    && (f.search != "" ==> MatchesKeyword(f.search, inv))
    && (|f.dateRange| == 2 ==> InWindow(f.dateRange[0], f.dateRange[1], inv))
    && (f.status.Some? ==> inv.status == f.status.value)
  }

  function KeepTest(f: Filters): Invoice -> bool
  {
    inv => Keep(f, inv)
  }

  function KeywordPart(f: Filters): Invoice -> bool
  {
    inv => f.search != "" ==> MatchesKeyword(f.search, inv)
  }

  function WindowPart(f: Filters): Invoice -> bool
  {
    inv => |f.dateRange| == 2 ==> InWindow(f.dateRange[0], f.dateRange[1], inv)
  }

  function StatusPart(f: Filters): Invoice -> bool
  {
    (inv: Invoice) => f.status.Some? ==> inv.status == f.status.value
  }

  lemma KeywordStageIsFilter(s: seq<Invoice>, f: Filters)
    ensures KeywordStage(s, f.search) == Filter(s, KeywordPart(f))
  {
    if f.search != "" {
      FilterExt(s, KeywordTest(f.search), KeywordPart(f));
    } else {
      FilterAll(s, KeywordPart(f));
    }
  }

  lemma DateStageIsFilter(s: seq<Invoice>, f: Filters)
    ensures DateStage(s, f.dateRange) == Filter(s, WindowPart(f))
  {
    if |f.dateRange| == 2 {
      FilterExt(s, WindowTest(f.dateRange[0], f.dateRange[1]), WindowPart(f));
    } else {
      FilterAll(s, WindowPart(f));
    }
  }

  lemma StatusStageIsFilter(s: seq<Invoice>, f: Filters)
    ensures StatusStage(s, f.status) == Filter(s, StatusPart(f))
  {
    if f.status.Some? {
      FilterExt(s, StatusTest(f.status.value), StatusPart(f));
    } else {
      FilterAll(s, StatusPart(f));
    }
  }

  /** The three stages compose into one filter by the conjunction `Keep`:
      same elements, same order, same multiplicities. */
  lemma ApplyFiltersIsOneFilter(data: seq<Invoice>, f: Filters)
    ensures ApplyFilters(data, f) == Filter(data, KeepTest(f))
  {
    var p1, p2, p3 := KeywordPart(f), WindowPart(f), StatusPart(f);
    var k := KeywordStage(data, f.search);
    var d := DateStage(k, f.dateRange);
    KeywordStageIsFilter(data, f);
    DateStageIsFilter(k, f);
    StatusStageIsFilter(d, f);
    FilterFilter(data, p1, p2);
    FilterFilter(data, Both(p1, p2), p3);
    assert forall x :: x in data ==> Both(Both(p1, p2), p3)(x) == KeepTest(f)(x);
    FilterExt(data, Both(Both(p1, p2), p3), KeepTest(f));
  }

  /** An invoice is shown exactly when it is in the data and passes every
      active stage; in particular a dated window keeps only invoices strictly
      inside it. */
  lemma ApplyFiltersMembership(data: seq<Invoice>, f: Filters, inv: Invoice)
    ensures inv in ApplyFilters(data, f) <==> inv in data && Keep(f, inv)
  {
    ApplyFiltersIsOneFilter(data, f);
    var r := Filter(data, KeepTest(f));
    if inv in r {
      var i :| 0 <= i < |r| && r[i] == inv;
    }
    if inv in data && Keep(f, inv) {
      var i :| 0 <= i < |data| && data[i] == inv;
      assert KeepTest(f)(data[i]);
    }
  }

  /** Filtering the filtered list again changes nothing. */
  lemma ApplyFiltersIdempotent(data: seq<Invoice>, f: Filters)
    ensures ApplyFilters(ApplyFilters(data, f), f) == ApplyFilters(data, f)
  {
    ApplyFiltersIsOneFilter(data, f);
    ApplyFiltersIsOneFilter(ApplyFilters(data, f), f);
    FilterIdempotent(data, KeepTest(f));
  }

  /** The keyword stage keeps exactly the invoices whose lower-cased number or
      customer name has the lower-cased search text at some position. */
  lemma KeywordStageExact(s: seq<Invoice>, search: string, inv: Invoice)
    requires search != ""
    ensures inv in KeywordStage(s, search) <==>
      inv in s &&
      ((exists i :: OccursAt(Lower(inv.invoiceNumber), Lower(search), i)) ||
       (exists i :: OccursAt(Lower(inv.customerName), Lower(search), i)))
  {
    IncludesIff(Lower(inv.invoiceNumber), Lower(search));
    IncludesIff(Lower(inv.customerName), Lower(search));
    var r := Filter(s, KeywordTest(search));
    if inv in r {
      var i :| 0 <= i < |r| && r[i] == inv;
    }
    if inv in s && MatchesKeyword(search, inv) {
      var i :| 0 <= i < |s| && s[i] == inv;
      assert KeywordTest(search)(s[i]);
    }
  }

  /** The list page's state: the fetched list, the rows the table shows
      (`filterData`) and the filter controls. */
  datatype ListView = ListView(data: seq<Invoice>, shown: seq<Invoice>, filters: Filters)

  /** `fetchData` on success: clears the search box only, stores the sorted
      list and shows all of it. */
  function Loaded(v: ListView, response: seq<Invoice>): (r: ListView)
    ensures r.shown == r.data && multiset(r.data) == multiset(response)
    ensures SortedBy(r.data, InvoiceIdNum)
    ensures r.filters == v.filters.(search := "")
  {
    var sorted := SortFetched(response);
    ListView(sorted, sorted, v.filters.(search := ""))
  }

  /** The "Appliquer" button and Enter in the search box. */
  function Apply(v: ListView): (r: ListView)
    ensures Subseq(r.shown, v.data)
    ensures r.shown == Filter(v.data, KeepTest(v.filters))
    ensures r.data == v.data && r.filters == v.filters
  {
    ApplyFiltersIsOneFilter(v.data, v.filters);
    v.(shown := ApplyFilters(v.data, v.filters))
  }

  /** `resetFilters`: every control is cleared and the table is emptied; it
      stays empty until the filters are applied again. */
  function Reset(v: ListView): (r: ListView)
    ensures r.filters == NoFilters && r.shown == [] && r.data == v.data
  {
    ListView(v.data, [], NoFilters)
  }

  /** Applying right after a reset shows the whole list again. */
  lemma ResetThenApplyShowsAll(v: ListView)
    ensures Apply(Reset(v)).shown == v.data
  {
  }

  /** `Badge` colour of the status column; statuses outside the three named
      ones get the default colour. */
  function ListStatusColor(st: Status): (c: string)
    ensures c == "default" <==> st.Other?
    ensures st == Paid ==> c == "green"
    ensures st == Unpaid ==> c == "red"
    ensures st == PartiallyPaid ==> c == "orange"
  {
    match st
    case Paid => "green"
    case Unpaid => "red"
    case PartiallyPaid => "orange"
    case Other(_) => "default"
  }

  /** The fixed fiscal stamp added to the printed total. */
  const FiscalStamp: real := 1.0

  /** The "Total" column of the printed line table. */
  function PrintedLineAmounts(inv: Invoice): (amounts: seq<real>)
    ensures |amounts| == |inv.items|
    ensures forall i :: 0 <= i < |inv.items| ==>
      amounts[i] == inv.items[i].quantity * inv.items[i].prixVente
  {
    Map(inv.items, LineAmount)
  }

  /** The "TOTAL" line of the printed invoice: stored total plus the stamp. */
  function PrintedTotal(inv: Invoice): (t: real)
    ensures t - inv.total == FiscalStamp
  {
    inv.total + FiscalStamp
  }

  /** The stored figures are those the editor derives from the stored lines. */
  predicate FiguresAgree(inv: Invoice)
  {
    && inv.subtotal == Subtotal(inv.items)
    && inv.tax == inv.subtotal * TaxRate
    && inv.total == inv.subtotal + inv.tax
  }

  /** `Sum` adds up a projection of each element; a printed amount counts as
      itself. */
  function Amount(x: real): real
  {
    x
  }

  /** For an invoice whose figures agree with its lines, the printed TOTAL is
      the sum of the printed line amounts plus 19% tax plus the stamp. */
  lemma PrintedTotalFromLines(inv: Invoice)
    requires FiguresAgree(inv)
    ensures PrintedTotal(inv) == Sum(PrintedLineAmounts(inv), Amount) * (1.0 + TaxRate) + FiscalStamp
  {
    SumMap(inv.items, LineAmount, Amount);
    SumExt(inv.items, Compose(LineAmount, Amount), LineAmount);
  }
}
