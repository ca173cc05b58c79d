/** The dashboard home page (src/pages/Home.js): per-status counts and
    amounts, revenue, today's invoices, the five most recent invoices, the
    rounded percentages of the progress gauges and the status tag. */
module Home {
  import opened Wrappers
  import opened Seqs
  import opened Sorting
  import opened Grouping
  import opened Domain
  import opened InvoiceList

  function HasStatus(st: Status): Invoice -> bool
  {
    (inv: Invoice) => inv.status == st
  }

  datatype Stats = Stats(count: nat, total: real)

  /** An invoice's contribution to a status card's amount: its total when it
      has the status, nothing otherwise. */
  function StatusAmount(st: Status): Invoice -> real
  {
    (inv: Invoice) => if inv.status == st then inv.total else 0.0
  }

  /** An invoice's contribution to a status card's count. */
  function StatusOne(st: Status): Invoice -> real
  {
    (inv: Invoice) => if inv.status == st then 1.0 else 0.0
  }

  /** `calculateStats(status)`: how many invoices have the status, and the sum
      of their totals. Both are stated over the whole list, one indicator term
      per invoice, independently of the filtered copy the page builds. */
  function CalculateStats(invs: seq<Invoice>, st: Status): (r: Stats)
    ensures r.count as real == Sum(invs, StatusOne(st))
    ensures r.total == Sum(invs, StatusAmount(st))
    ensures r.count <= |invs|
    ensures r.count == 0 <==> forall i :: 0 <= i < |invs| ==> invs[i].status != st
  {
    var filtered := Filter(invs, HasStatus(st));
    assert |filtered| > 0 ==> HasStatus(st)(filtered[0]);
    SumFilterMask(invs, HasStatus(st), InvoiceTotal, StatusAmount(st));
    SumFilterMask(invs, HasStatus(st), One, StatusOne(st));
    SumOnes(filtered, One);
    Stats(|filtered|, Sum(filtered, InvoiceTotal))
  }

  /** The "Chiffre d'Affaires" card: the sum of all invoice totals. */
  function Revenue(invs: seq<Invoice>): (r: real)
    ensures (forall inv :: inv in invs ==> inv.total >= 0.0) ==>
      r >= 0.0 && (r == 0.0 <==> forall inv :: inv in invs ==> inv.total == 0.0)
  {
    var r := Sum(invs, InvoiceTotal);
    if forall inv :: inv in invs ==> inv.total >= 0.0 then
      SumNonNegative(invs, InvoiceTotal);
      SumZeroIff(invs, InvoiceTotal);
      r
    else r
  }

  /** When every invoice carries one of the three named statuses, the three
      status cards split the invoice count and the revenue exactly. */
  lemma StatsPartitionRevenue(invs: seq<Invoice>)
    requires forall i :: 0 <= i < |invs| ==> !invs[i].status.Other?
    ensures var paid, unpaid, partial :=
        CalculateStats(invs, Paid), CalculateStats(invs, Unpaid), CalculateStats(invs, PartiallyPaid);
      && paid.count + unpaid.count + partial.count == |invs|
      && paid.total + unpaid.total + partial.total == Revenue(invs)
  {
    SumFilter3(invs, HasStatus(Paid), HasStatus(Unpaid), HasStatus(PartiallyPaid), InvoiceTotal);
  }

  /** With non-negative totals, no status card shows more than the revenue. */
  lemma StatsTotalAtMostRevenue(invs: seq<Invoice>, st: Status)
    requires forall i :: 0 <= i < |invs| ==> invs[i].total >= 0.0
    ensures 0.0 <= CalculateStats(invs, st).total <= Revenue(invs)
  {
    SumFilterSplit(invs, HasStatus(st), InvoiceTotal);
    var kept := Filter(invs, HasStatus(st));
    var other := Filter(invs, Not(HasStatus(st)));
    assert forall x :: x in kept ==> x in invs;
    assert forall x :: x in other ==> x in invs;
    SumNonNegative(kept, InvoiceTotal);
    SumNonNegative(other, InvoiceTotal);
  }

  /** `moment(inv.date).isSame(moment(), "day")`, with `now` the clock reading. */
  function SameDayAs(now: int): Invoice -> bool
  {
    (inv: Invoice) => StartOfDay(inv.date) == StartOfDay(now)
  }

  function TodayInvoices(invs: seq<Invoice>, now: int): (r: seq<Invoice>)
    ensures Subseq(r, invs)
    ensures forall i :: 0 <= i < |r| ==> StartOfDay(now) <= r[i].date < StartOfDay(now) + DayMs
  {
    FilterIsSubseq(invs, SameDayAs(now));
    Filter(invs, SameDayAs(now))
  }

  /** An invoice counts as today's exactly when its timestamp lies in the day
      that starts at the last midnight before `now`. */
  lemma TodayMembership(invs: seq<Invoice>, now: int, inv: Invoice)
    ensures inv in TodayInvoices(invs, now) <==>
      inv in invs && StartOfDay(now) <= inv.date < StartOfDay(now) + DayMs
  {
    var r := TodayInvoices(invs, now);
    var day := StartOfDay(now);
    if inv in r {
      var i :| 0 <= i < |r| && r[i] == inv;
      assert SameDayAs(now)(r[i]);
    }
    if inv in invs && day <= inv.date < day + DayMs {
      var i :| 0 <= i < |invs| && invs[i] == inv;
      assert StartOfDay(inv.date) == day by {
        DayStartUnique(inv.date, day);
      }
      assert SameDayAs(now)(invs[i]);
    }
  }

  /** The only multiple of a day within the day before `t` is its start. */
  lemma DayStartUnique(t: int, d: int)
    requires d % DayMs == 0 && d <= t < d + DayMs
    ensures StartOfDay(t) == d
  {
    var s := StartOfDay(t);
    assert (s - d) % DayMs == 0;
    assert -DayMs < s - d < DayMs;
  }

  function NegDate(inv: Invoice): int
  {
    -inv.date
  }

  function Min(a: int, b: int): int
  {
    if a < b then a else b
  }

  /** `[...invoices].sort((a, b) => b.date - a.date).slice(0, 5)`: a stable
      sort newest first, then the first five. */
  function RecentInvoices(invs: seq<Invoice>): (r: seq<Invoice>)
    ensures |r| == Min(5, |invs|)
    ensures multiset(r) <= multiset(invs)
    ensures forall i, j :: 0 <= i < j < |r| ==> r[i].date >= r[j].date
    ensures |r| > 0 ==> forall inv :: inv in multiset(invs) - multiset(r) ==> inv.date <= r[|r| - 1].date
  {
    var sorted := SortBy(invs, NegDate);
    var n := Min(5, |invs|);
    NewestFirst(sorted, n);
    sorted[..n]
  }

  /** The sort is stable: among invoices with the same date (the same sort
      key `k`, which is minus the date), the ones shown are the first of them
      in the fetched order. */
  lemma RecentKeepsInputOrder(invs: seq<Invoice>, k: int)
    ensures Filter(RecentInvoices(invs), Matches(NegDate, k)) <= Filter(invs, Matches(NegDate, k))
  {
    var sorted := SortBy(invs, NegDate);
    assert RecentInvoices(invs) == sorted[..Min(5, |invs|)];
    FilterPrefix(sorted, Min(5, |invs|), Matches(NegDate, k));
    SortByStable(invs, NegDate, k);
  }

  /** The first `n` of a list sorted newest first are the newest `n`. */
  lemma NewestFirst(sorted: seq<Invoice>, n: nat)
    requires SortedBy(sorted, NegDate) && n <= |sorted|
    ensures multiset(sorted[..n]) <= multiset(sorted)
    ensures forall i, j :: 0 <= i < j < n ==> sorted[i].date >= sorted[j].date
    ensures n > 0 ==> forall inv :: inv in multiset(sorted) - multiset(sorted[..n]) ==> inv.date <= sorted[n - 1].date
  {
    PrefixSplit(sorted, n);
    assert forall i, j :: 0 <= i < j < n ==> NegDate(sorted[i]) <= NegDate(sorted[j]);
    if n > 0 {
      forall inv | inv in multiset(sorted) - multiset(sorted[..n])
        ensures inv.date <= sorted[n - 1].date
      {
        OmittedIsOlder(sorted, n, inv);
      }
    }
  }

  lemma PrefixSplit(sorted: seq<Invoice>, n: nat)
    requires n <= |sorted|
    ensures multiset(sorted) == multiset(sorted[..n]) + multiset(sorted[n..])
  {
    assert sorted == sorted[..n] + sorted[n..];
  }

  /** An invoice left out of the first `n` sits after position `n - 1`. */
  lemma OmittedIsOlder(sorted: seq<Invoice>, n: nat, inv: Invoice)
    requires SortedBy(sorted, NegDate) && 0 < n <= |sorted|
    requires inv in multiset(sorted) - multiset(sorted[..n])
    ensures inv.date <= sorted[n - 1].date
  {
    PrefixSplit(sorted, n);
    assert inv in multiset(sorted[n..]);
    var k :| 0 <= k < |sorted[n..]| && sorted[n..][k] == inv;
    assert sorted[n + k] == inv;
    assert NegDate(sorted[n - 1]) <= NegDate(sorted[n + k]);
  }

  lemma DivBounds(num: int, d: int)
    requires d > 0
    ensures d * (num / d) <= num < d * (num / d + 1)
  {
    assert num == d * (num / d) + num % d;
    assert d * (num / d + 1) == d * (num / d) + d;
  }

  /** Cancelling a positive factor keeps `<`. */
  lemma CancelLt(d: int, a: int, b: int)
    requires d > 0 && d * a < d * b
    ensures a < b
  {
  }

  /** `Math.round(count / n * 100) || 0`: half-up rounding of the percentage,
      and 0 for an empty list (where the division gives NaN). The ensures
      characterise rounding: `p` is the integer with
      `p - 1/2 <= 100 * count / n < p + 1/2`. */
  function Percent(count: nat, n: nat): (p: int)
    ensures n == 0 ==> p == 0
    ensures n > 0 ==> (2 * n) * p <= 200 * count + n < (2 * n) * (p + 1)
    ensures count <= n ==> 0 <= p <= 100
  {
    if n == 0 then 0
    else
      var p := (200 * count + n) / (2 * n);
      DivBounds(200 * count + n, 2 * n);
      assert 0 <= p by {
        CancelLt(2 * n, -1, p + 1);
      }
      assert count <= n ==> p <= 100 by {
        if count <= n {
          assert (2 * n) * p < (2 * n) * 101;
          CancelLt(2 * n, p, 101);
        }
      }
      p
  }

  /** When the three counts cover the list, the three gauges add up to 100
      give or take one point of rounding. */
  lemma PercentsNearlyAddUp(a: nat, b: nat, c: nat)
    requires a + b + c > 0
    ensures var n := a + b + c;
      99 <= Percent(a, n) + Percent(b, n) + Percent(c, n) <= 101
  {
    var n := a + b + c;
    var m := 2 * n;
    var pa, pb, pc := Percent(a, n), Percent(b, n), Percent(c, n);
    var sum := pa + pb + pc;
    Distribute(m, pa, pb, pc);
    Distribute(m, pa + 1, pb + 1, pc + 1);
    assert m * sum <= 203 * n;
    assert m * 102 == 204 * n;
    CancelLt(m, sum, 102);
    assert 203 * n < m * (sum + 3);
    assert m * 101 == 202 * n;
    CancelLt(m, 101, sum + 3);
  }

  lemma Distribute(m: int, x: int, y: int, z: int)
    ensures m * x + m * y + m * z == m * (x + y + z)
  {
  }

  /** The tag shown next to a recent invoice. An unlisted status has no entry
      in the lookup table, so rendering it fails: no tag. */
  datatype Tag = Tag(color: string, text: string)

  function StatusTag(st: Status): (t: Option<Tag>)
    ensures t.None? <==> st.Other?
    ensures t == Some(Tag("green", "Payée")) <==> st == Paid
    ensures t == Some(Tag("red", "Impayée")) <==> st == Unpaid
    ensures t == Some(Tag("orange", "Partiellement Payée")) <==> st == PartiallyPaid
  {
    match st
    case Paid => Some(Tag("green", "Payée"))
    case Unpaid => Some(Tag("red", "Impayée"))
    case PartiallyPaid => Some(Tag("orange", "Partiellement Payée"))
    case Other(_) => None
  }

  /** The home page's tag and the invoice list's badge give each named status
      the same colour, and both fall back only for an unnamed one. */
  lemma StatusColoursAgree(st: Status)
    ensures StatusTag(st).None? <==> ListStatusColor(st) == "default"
    ensures StatusTag(st).Some? ==> StatusTag(st).value.color == ListStatusColor(st)
  {
  }
}
