/** The recurring-bills page: a fixed list of bills, their total, the
    number still upcoming, the amount paid so far, and each bill's status
    line. */
module RecurringBillsPage {
  import opened Sums

  /** A bill as the page lists it; `amount` is in cents. */
  datatype PageBill = PageBill(name: string, dueDate: string, amount: int, status: string, logo: string)

  const Bills: seq<PageBill> := [
    PageBill("Spark Energy", "24", 15000, "upcoming", "⚡"),
    PageBill("Serenity Spa", "28", 4000, "upcoming", "🧖‍♀️"),
    PageBill("Platinum Gym", "01", 6500, "paid", "💪"),
    PageBill("Housing Rent", "05", 120000, "paid", "🏠"),
    PageBill("Spotify Premium", "15", 1299, "paid", "🎵")
  ]

  function BillAmount(b: PageBill): int { b.amount }
  predicate IsPaid(b: PageBill) { b.status == "paid" }
  predicate IsUpcoming(b: PageBill) { b.status == "upcoming" }

  function TotalBills(bills: seq<PageBill>): int { SumBy(bills, BillAmount) }

  function PendingCount(bills: seq<PageBill>): nat { Count(bills, IsUpcoming) }

  function PaidSoFar(bills: seq<PageBill>): int { SumBy(Filter(bills, IsPaid), BillAmount) }

  function UpcomingSum(bills: seq<PageBill>): int { SumBy(Filter(bills, IsUpcoming), BillAmount) }

  /** At most every bill is pending, and with no upcoming bill none is. */
  lemma PendingAtMostBills(bills: seq<PageBill>)
    ensures PendingCount(bills) <= |bills|
    ensures (forall i :: 0 <= i < |bills| ==> !IsUpcoming(bills[i])) ==> PendingCount(bills) == 0
  {
    if forall i :: 0 <= i < |bills| ==> !IsUpcoming(bills[i]) {
      FilterNone(bills, IsUpcoming);
    }
  }

  /** What is paid and what is upcoming make up the total, when every status
      is one of the two. */
  lemma PaidAndUpcomingMakeTotal(bills: seq<PageBill>)
    requires forall i :: 0 <= i < |bills| ==> bills[i].status == "paid" || bills[i].status == "upcoming"
    ensures PaidSoFar(bills) + UpcomingSum(bills) == TotalBills(bills)
  {
    PartitionSum(bills, IsPaid, IsUpcoming, BillAmount);
  }

  lemma BillsPrefixes()
    ensures Bills[..5] == Bills
    ensures Bills[..5][..4] == Bills[..4] && Bills[..4][..3] == Bills[..3]
    ensures Bills[..3][..2] == Bills[..2] && Bills[..2][..1] == Bills[..1] && Bills[..1][..0] == []
  {
  }

  /** The page's total: €1467.99. */
  lemma PageTotal()
    ensures TotalBills(Bills) == 146799
  {
    BillsPrefixes();
    var b := Bills;
    assert SumBy(b[..1], BillAmount) == 15000;
    assert SumBy(b[..2], BillAmount) == 19000;
    assert SumBy(b[..3], BillAmount) == 25500;
    assert SumBy(b[..4], BillAmount) == 145500;
  }

  /** Two of the page's bills are pending. */
  lemma PagePending()
    ensures PendingCount(Bills) == 2
  {
    BillsPrefixes();
    var b := Bills;
    assert Filter(b[..1], IsUpcoming) == [b[0]];
    assert Filter(b[..2], IsUpcoming) == [b[0], b[1]];
    assert Filter(b[..3], IsUpcoming) == [b[0], b[1]];
    assert Filter(b[..4], IsUpcoming) == [b[0], b[1]];
  }

  /** €1277.99 of the page's bills are paid. */
  lemma PagePaid()
    ensures PaidSoFar(Bills) == 127799
  {
    BillsPrefixes();
    var b := Bills;
    assert !IsPaid(b[0]) && !IsPaid(b[1]) && IsPaid(b[2]) && IsPaid(b[3]) && IsPaid(b[4]);
    assert Filter(b[..1], IsPaid) == [];
    assert Filter(b[..2], IsPaid) == [];
    assert Filter(b[..3], IsPaid) == [b[2]];
    assert Filter(b[..4], IsPaid) == [b[2], b[3]];
    assert Filter(b, IsPaid) == [b[2], b[3], b[4]];
    PaidSum(b[2], b[3], b[4]);
  }

  lemma PaidSum(x: PageBill, y: PageBill, z: PageBill)
    ensures SumBy([x, y, z], BillAmount) == x.amount + y.amount + z.amount
  {
    assert [x, y, z][..2] == [x, y] && [x, y][..1] == [x] && [x][..0] == [];
    assert SumBy([x], BillAmount) == x.amount;
    assert SumBy([x, y], BillAmount) == x.amount + y.amount;
  }

  /** A bill's status line. */
  datatype StatusLine = Paid | Due(text: string)

  function StatusLineOf(b: PageBill): (r: StatusLine)
    ensures r.Paid? <==> IsPaid(b)
    ensures r.Due? ==> r.text == "Due on " + b.dueDate + "th"
  {
    if IsPaid(b) then Paid else Due("Due on " + b.dueDate + "th")
  }

  /** Whether a bill's row is dimmed. */
  predicate Dimmed(b: PageBill) { b.status == "paid" }

  /** A row is dimmed exactly when its status line reads "Paid"; any status
      other than "paid", not only "upcoming", reads as due, always with the
      suffix "th". */
  lemma DimmedIffPaidLine(b: PageBill)
    ensures Dimmed(b) <==> StatusLineOf(b) == Paid
    ensures !IsPaid(b) ==> StatusLineOf(b).text[|StatusLineOf(b).text| - 2..] == "th"
  {
  }
}
