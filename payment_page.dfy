/** The payment overview (src/pages/PaymentPage.js): the search filter over the rows the
    backend returns, and the sort, search and paging state; every change of that state
    fetches the same full list again, as `getLoanPayments` takes no parameters. */
module PaymentPage {
  import opened Wrappers
  import opened Text
  import opened ListView
  import opened LoanPaymentTable

  /** One row of `data.payments.content`. */
  datatype LoanPayment = LoanPayment(
    fileNumber: string,
    customerName: string,
    phoneNumbers: seq<string>,
    vehicleNumber: string,
    pendingDays: real,
    totalPendingEmiAmount: real,
    paidEmiCount: real,
    tenure: real)

  /** The search test: the lower-cased query occurs in the lower-cased customer name,
      vehicle number or file number. */
  predicate PaymentMatches(p: LoanPayment, query: string) {
    || Contains(Lower(p.customerName), Lower(query))
    || Contains(Lower(p.vehicleNumber), Lower(query))
    || Contains(Lower(p.fileNumber), Lower(query))
  }

  /** The search effect: `loanPayments.filter(...)`. */
  function FilterPayments(payments: seq<LoanPayment>, query: string): seq<LoanPayment> {
    Filter(payments, p => PaymentMatches(p, query))
  }

  /** The filtered rows keep their order and are exactly the matching rows, each as
      many times as the input holds it. */
  lemma FilterPaymentsSpec(payments: seq<LoanPayment>, query: string, x: LoanPayment)
    ensures IsSubsequence(FilterPayments(payments, query), payments)
    ensures x in FilterPayments(payments, query) <==> x in payments && PaymentMatches(x, query)
    ensures multiset(FilterPayments(payments, query))[x] ==
      if PaymentMatches(x, query) then multiset(payments)[x] else 0
  {
    FilterIsSubsequence(payments, p => PaymentMatches(p, query));
    FilterMembers(payments, p => PaymentMatches(p, query), x);
    FilterCount(payments, p => PaymentMatches(p, query), x);
  }

  /** An empty search keeps every row. */
  lemma EmptyQueryKeepsAll(payments: seq<LoanPayment>)
    ensures FilterPayments(payments, "") == payments
  {
    forall i | 0 <= i < |payments|
      ensures PaymentMatches(payments[i], "")
    {
      ContainsEmpty(Lower(payments[i].customerName));
    }
    FilterKeepsAll(payments, p => PaymentMatches(p, ""));
  }

  /** The search ignores the case of the query. */
  lemma QueryCaseIgnored(payments: seq<LoanPayment>, query: string)
    ensures FilterPayments(payments, Lower(query)) == FilterPayments(payments, query)
  {
    LowerIdempotent(query);
    FilterCongruent(payments, p => PaymentMatches(p, Lower(query)), p => PaymentMatches(p, query));
  }

  /** The page's state. `pageSize` is None once the pager has set it to `undefined`. */
  class PaymentPageView {
    var loanPayments: seq<LoanPayment>
    var sortConfig: SortConfig<string>
    var searchQuery: string
    var currentPage: int
    var pageSize: Option<int>

    /** Sorted by file number ascending, no search, page 1 of ten rows. */
    constructor ()
      ensures loanPayments == [] && sortConfig == SortConfig("fileNumber", Asc)
      ensures searchQuery == "" && currentPage == 1 && pageSize == Some(10)
    {
      loanPayments := [];
      sortConfig := SortConfig("fileNumber", Asc);
      searchQuery := "";
      currentPage := 1;
      pageSize := Some(10);
    }

    /** `setLoanPayments(data.payments.content)` when the fetched rows arrive. */
    method Load(content: seq<LoanPayment>)
      modifies this
      ensures loanPayments == content
      ensures sortConfig == old(sortConfig) && searchQuery == old(searchQuery)
      ensures currentPage == old(currentPage) && pageSize == old(pageSize)
    {
      loanPayments := content;
    }

    /** `filteredPayments`, as the search effect leaves it. */
    function FilteredPayments(): seq<LoanPayment>
      reads this
    {
      FilterPayments(loanPayments, searchQuery)
    }

    /** `handleFilterChange(value)`: the new query, back to page 1. */
    method HandleFilterChange(value: string)
      modifies this
      ensures searchQuery == value && currentPage == 1
      ensures loanPayments == old(loanPayments) && sortConfig == old(sortConfig)
      ensures pageSize == old(pageSize)
    {
      searchQuery := value;
      currentPage := 1;
    }

    /** `handleSort(key)`, reached through the table's header, which drops "pay". */
    method HandleSort(key: string)
      modifies this
      ensures sortConfig == ToggleSort(old(sortConfig), key)
      ensures loanPayments == old(loanPayments) && searchQuery == old(searchQuery)
      ensures currentPage == old(currentPage) && pageSize == old(pageSize)
    {
      sortConfig := ToggleSort(sortConfig, key);
    }

    /** `handlePageChange(page, rowsPerPage)`: both values are overwritten. */
    method HandlePageChange(change: PageChange)
      modifies this
      ensures currentPage == change.page && pageSize == change.rowsPerPage
      ensures loanPayments == old(loanPayments) && sortConfig == old(sortConfig)
      ensures searchQuery == old(searchQuery)
    {
      currentPage := change.page;
      pageSize := change.rowsPerPage;
    }

    /** A click on the pager's arrows, sending the corrected call
        `PagerPageChangeIntended`: the page moves and the page size stays. */
    method HandlePagerArrow(newPage: int)
      modifies this
      ensures currentPage == newPage + 1 && PagerPage(currentPage) == newPage
      ensures pageSize == old(pageSize)
      ensures loanPayments == old(loanPayments) && sortConfig == old(sortConfig)
      ensures searchQuery == old(searchQuery)
    {
      HandlePageChange(PagerPageChangeIntended(newPage, pageSize));
    }
  }

  /** The paging part of the page's state. */
  datatype Paging = Paging(currentPage: int, pageSize: Option<int>)

  /** The paging state after `handlePageChange`. */
  function AfterPageChange(change: PageChange): Paging {
    Paging(change.page, change.rowsPerPage)
  }

  /** A click on the table's header: "pay" changes nothing, any other key toggles. */
  lemma HeaderClick(config: SortConfig<string>, key: string)
    ensures ForwardSort(key).None? ==> key == "pay"
    ensures ForwardSort(key).Some? ==> ToggleSort(config, ForwardSort(key).value) == ToggleSort(config, key)
  {
  }

  /** As written, a click on the pager's arrows moves to the right page but leaves the
      page size undefined, whatever it was. */
  lemma PagerArrowDropsPageSize(paging: Paging, newPage: int)
    requires newPage == PagerPage(paging.currentPage) + 1
    ensures AfterPageChange(PagerPageChange(newPage)) == Paging(paging.currentPage + 1, None)
  {
  }

  /** The arrows' call as evidently intended: the current page size is passed along. */
  function PagerPageChangeIntended(newPage: int, pageSize: Option<int>): PageChange {
    PageChange(newPage + 1, pageSize)
  }

  /** With the intended call the page size survives paging, and the page is still the
      pager's page plus one. */
  lemma PagerArrowKeepsPageSize(paging: Paging, newPage: int)
    ensures AfterPageChange(PagerPageChangeIntended(newPage, paging.pageSize)).pageSize == paging.pageSize
    ensures PagerPage(AfterPageChange(PagerPageChangeIntended(newPage, paging.pageSize)).currentPage) == newPage
  {
  }

  /** Choosing a page size from the pager goes back to page 1 with that size. */
  lemma RowsPerPageResets(rowsPerPage: int)
    ensures AfterPageChange(RowsPerPageChange(rowsPerPage)) == Paging(1, Some(rowsPerPage))
  {
  }
}
