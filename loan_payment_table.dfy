/** The payment table (src/components/LoanPaymentTable.js): progress bars with their
    colour bands, the sortable headers, the phone-number chips and the pager. */
module LoanPaymentTable {
  import opened Wrappers
  import opened Text

  /** `handleSort(key)`: every header but "pay" is passed on to `onSort`. */
  function ForwardSort(key: string): (r: Option<string>)
    ensures r.Some? <==> key != "pay"
    ensures r.Some? ==> r.value == key
  {
    if key != "pay" then Some(key) else None
  }

  /** `getEmiProgress(paidEmiCount, tenure)`, a percentage. */
  function EmiProgress(paidEmiCount: real, tenure: real): (r: real)
    ensures tenure == 0.0 ==> r == 0.0
    ensures tenure != 0.0 ==> r * tenure == paidEmiCount * 100.0
    ensures 0.0 <= paidEmiCount <= tenure ==> 0.0 <= r <= 100.0
  {
    if tenure == 0.0 then 0.0 else paidEmiCount / tenure * 100.0
  }

  /** The number of days at which the pending-days bar is full. */
  const MaxPendingDays: real := 90.0

  /** `getPendingDaysProgress(pendingDays)`: the share of 90 days, capped at 100. */
  function PendingDaysProgress(pendingDays: real): (r: real)
    ensures r <= 100.0
    ensures r == 100.0 <==> pendingDays >= MaxPendingDays
    ensures pendingDays < MaxPendingDays ==> r * MaxPendingDays == pendingDays * 100.0
    ensures pendingDays >= 0.0 ==> r >= 0.0
  {
    var p := pendingDays / MaxPendingDays * 100.0;
    if p < 100.0 then p else 100.0
  }

  /** The three bar colours: '#f44336', '#ff9800' and '#4caf50'. */
  datatype Colour = Red | Orange | Green

  /** `getEmiProgressColor(progress)`. */
  function EmiProgressColour(progress: real): Colour {
    if progress < 30.0 then Red
    else if progress >= 30.0 && progress < 70.0 then Orange
    else Green
  }

  /** `getPendingDaysColor(progress)`. */
  function PendingDaysColour(progress: real): Colour {
    if progress < 30.0 then Green
    else if progress >= 30.0 && progress < 70.0 then Orange
    else Red
  }

  /** Red and green exchanged. */
  function Swap(c: Colour): Colour {
    match c
    case Red => Green
    case Green => Red
    case Orange => Orange
  }

  /** Every progress value falls in exactly one band: below 30, 30 up to 70, 70 and
      above; the pending-days bands are the EMI bands with red and green exchanged. */
  lemma ColourBands(progress: real)
    ensures EmiProgressColour(progress) == Red <==> progress < 30.0
    ensures EmiProgressColour(progress) == Orange <==> 30.0 <= progress < 70.0
    ensures EmiProgressColour(progress) == Green <==> progress >= 70.0
    ensures PendingDaysColour(progress) == Swap(EmiProgressColour(progress))
  {
  }

  /** Multiplying by a positive number keeps the sign. */
  lemma ProductSign(x: real, t: real)
    requires t > 0.0
    ensures x >= 0.0 <==> x * t >= 0.0
  {
  }

  /** A loan's EMI bar is green exactly when at least 70% of its EMIs are paid, and red
      exactly when fewer than 30% are. */
  lemma EmiBarColour(paidEmiCount: real, tenure: real)
    requires tenure > 0.0
    ensures EmiProgressColour(EmiProgress(paidEmiCount, tenure)) == Green <==> paidEmiCount * 10.0 >= tenure * 7.0
    ensures EmiProgressColour(EmiProgress(paidEmiCount, tenure)) == Red <==> paidEmiCount * 10.0 < tenure * 3.0
  {
    var r := EmiProgress(paidEmiCount, tenure);
    assert r * tenure == paidEmiCount * 100.0;
    ProductSign(r - 70.0, tenure);
    assert (r - 70.0) * tenure == r * tenure - 70.0 * tenure;
    ProductSign(r - 30.0, tenure);
    assert (r - 30.0) * tenure == r * tenure - 30.0 * tenure;
  }

  /** A loan's pending-days bar is red from 63 days on, orange from 27 days, and green
      below that. */
  lemma PendingDaysBarColour(pendingDays: real)
    ensures PendingDaysColour(PendingDaysProgress(pendingDays)) == Red <==> pendingDays >= 63.0
    ensures PendingDaysColour(PendingDaysProgress(pendingDays)) == Green <==> pendingDays < 27.0
  {
  }

  /** The "+k more" chip for a row's phone numbers: shown only when there is more than
      one number; its count and tooltip are the numbers after the first. */
  function MoreChip(phoneNumbers: seq<string>): (r: Option<(nat, string)>)
    ensures r.Some? <==> |phoneNumbers| > 1
    ensures r.Some? ==> 1 + r.value.0 == |phoneNumbers|
  {
    if |phoneNumbers| > 1 then Some((|phoneNumbers| - 1, Join(phoneNumbers[1..], ", "))) else None
  }

  /** A call to the page's `onPageChange(page, rowsPerPage)`; `rowsPerPage` is None when
      the table leaves the second argument out. */
  datatype PageChange = PageChange(page: int, rowsPerPage: Option<int>)

  /** The 0-based page the MUI pager is given: `currentPage - 1`. */
  function PagerPage(currentPage: int): int {
    currentPage - 1
  }

  /** The pager's arrows: `onPageChange(newPage + 1)`, with no page size. */
  function PagerPageChange(newPage: int): PageChange {
    PageChange(newPage + 1, None)
  }

  /** The rows-per-page select: `onPageChange(1, e.target.value)`. */
  function RowsPerPageChange(rowsPerPage: int): PageChange {
    PageChange(1, Some(rowsPerPage))
  }

  /** Converting between 1-based pages and the pager's 0-based pages loses nothing. */
  lemma PagerRoundTrip(currentPage: int, newPage: int)
    ensures PagerPageChange(PagerPage(currentPage)).page == currentPage
    ensures PagerPage(PagerPageChange(newPage).page) == newPage
  {
  }
}
