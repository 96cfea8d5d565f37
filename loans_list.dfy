/** The loan list (src/components/LoansList/index.js): the loans are sorted on a copy,
    filtered by a search text, and shown one page at a time. */
module LoansList {
  import opened Text
  import opened ListView

  /** One loan as the list receives it. String fields that the filter tests for
      truthiness hold "" when the backend sent nothing. */
  datatype Loan = Loan(
    fileNumber: string,
    customerName: string,
    loanAmount: real,
    tenure: int,
    vehicleNumber: string,
    insuranceValidity: string,
    emi: real)

  /** The sortable columns (`headers[].key`). */
  datatype SortKey = FileNumber | CustomerName | LoanAmount | Tenure | VehicleNumber | InsuranceValidity | EmiColumn

  /** A column's value: a string or a number. */
  datatype Value = Text(s: string) | Number(n: real)

  /** `loan[key]`. */
  function KeyValue(loan: Loan, key: SortKey): Value {
    match key
    case FileNumber => Text(loan.fileNumber)
    case CustomerName => Text(loan.customerName)
    case LoanAmount => Number(loan.loanAmount)
    case Tenure => Number(loan.tenure as real)
    case VehicleNumber => Text(loan.vehicleNumber)
    case InsuranceValidity => Text(loan.insuranceValidity)
    case EmiColumn => Number(loan.emi)
  }

  /** JavaScript's `<` on two values of one column. */
  predicate ValueLess(a: Value, b: Value) {
    match (a, b)
    case (Text(x), Text(y)) => StrLess(x, y)
    case (Number(x), Number(y)) => x < y
    case _ => false
  }

  lemma ValueLessAsymmetric(a: Value, b: Value)
    ensures !(ValueLess(a, b) && ValueLess(b, a))
  {
    if a.Text? && b.Text? {
      StrLessAsymmetric(a.s, b.s);
    }
  }

  /** The comparator passed to `sort`. */
  function Compare(a: Loan, b: Loan, config: SortConfig<SortKey>): int {
    var x, y := KeyValue(a, config.key), KeyValue(b, config.key);
    if ValueLess(x, y) then (if config.direction == Asc then -1 else 1)
    else if ValueLess(y, x) then (if config.direction == Asc then 1 else -1)
    else 0
  }

  /** Swapping the two loans negates the comparator, because `<` on a column is
      asymmetric. */
  lemma CompareFlip(a: Loan, b: Loan, config: SortConfig<SortKey>)
    ensures Compare(b, a, config) == -Compare(a, b, config)
  {
    ValueLessAsymmetric(KeyValue(a, config.key), KeyValue(b, config.key));
  }

  /** Every neighbouring pair is in the comparator's order. */
  predicate SortedBy(s: seq<Loan>, config: SortConfig<SortKey>) {
    forall i :: 0 <= i < |s| - 1 ==> Compare(s[i], s[i + 1], config) <= 0
  }

  /** Puts `x` into the list `t` just before the first element it precedes. */
  function Insert(t: seq<Loan>, x: Loan, config: SortConfig<SortKey>): (r: seq<Loan>)
    ensures multiset(r) == multiset(t) + multiset{x}
    ensures |r| == |t| + 1
    ensures r[0] == x || (t != [] && r[0] == t[0])
    decreases |t|
  {
    if t == [] then [x]
    else if Compare(x, t[0], config) < 0 then [x] + t
    else
      assert t == [t[0]] + t[1..];
      [t[0]] + Insert(t[1..], x, config)
  }

  /** Inserting into a sorted list keeps it sorted. */
  lemma {:induction false} InsertSorted(t: seq<Loan>, x: Loan, config: SortConfig<SortKey>)
    requires SortedBy(t, config)
    ensures SortedBy(Insert(t, x, config), config)
    decreases |t|
  {
    if t != [] && Compare(x, t[0], config) >= 0 {
      var rest := Insert(t[1..], x, config);
      InsertSorted(t[1..], x, config);
      CompareFlip(x, t[0], config);
      var r := [t[0]] + rest;
      assert Insert(t, x, config) == r;
      forall i | 0 <= i < |r| - 1
        ensures Compare(r[i], r[i + 1], config) <= 0
      {
        if i > 0 {
          assert r[i] == rest[i - 1] && r[i + 1] == rest[i];
        }
      }
    }
  }

  /** `[...loans].sort(comparator)`: a stable sort (as `Array.prototype.sort` is since
      ES2019), written as an insertion sort that takes the elements in order. The copy
      is sorted; `loans` itself is a value and stays as it was. */
  function SortLoans(loans: seq<Loan>, config: SortConfig<SortKey>): (r: seq<Loan>)
    ensures multiset(r) == multiset(loans)
    ensures |r| == |loans|
    decreases |loans|
  {
    if loans == [] then []
    else
      var init := loans[..|loans| - 1];
      assert loans == init + [loans[|loans| - 1]];
      Insert(SortLoans(init, config), loans[|loans| - 1], config)
  }

  /** The sorted copy is in the comparator's order. */
  lemma {:induction false} SortLoansSorted(loans: seq<Loan>, config: SortConfig<SortKey>)
    ensures SortedBy(SortLoans(loans, config), config)
    decreases |loans|
  {
    if loans != [] {
      var init := loans[..|loans| - 1];
      SortLoansSorted(init, config);
      InsertSorted(SortLoans(init, config), loans[|loans| - 1], config);
    }
  }

  /** In key terms: ascending means no row's key is below its predecessor's, descending
      means none is above it; for a numeric column that is <= and >=. */
  lemma SortedByKey(loans: seq<Loan>, config: SortConfig<SortKey>, i: int)
    requires 0 <= i < |loans| - 1
    ensures |SortLoans(loans, config)| == |loans|
    ensures var s := SortLoans(loans, config);
      var a, b := KeyValue(s[i], config.key), KeyValue(s[i + 1], config.key);
      && (config.direction == Asc ==> !ValueLess(b, a))
      && (config.direction == Desc ==> !ValueLess(a, b))
      && (a.Number? && b.Number? && config.direction == Asc ==> a.n <= b.n)
      && (a.Number? && b.Number? && config.direction == Desc ==> a.n >= b.n)
  {
    var s := SortLoans(loans, config);
    SortLoansSorted(loans, config);
    assert Compare(s[i], s[i + 1], config) <= 0;
    ValueLessAsymmetric(KeyValue(s[i], config.key), KeyValue(s[i + 1], config.key));
  }

  /** The filter's test: the customer name contains the filter ignoring case, or the
      file number or the vehicle number contains it exactly; an empty field never
      matches. */
  predicate LoanMatches(loan: Loan, filter: string) {
    || (loan.customerName != "" && Contains(Lower(loan.customerName), Lower(filter)))
    || (loan.fileNumber != "" && Contains(loan.fileNumber, filter))
    || (loan.vehicleNumber != "" && Contains(loan.vehicleNumber, filter))
  }

  /** `filteredLoans`: the sorted copy, restricted to the matching loans. */
  function FilterLoans(loans: seq<Loan>, config: SortConfig<SortKey>, filter: string): seq<Loan> {
    Filter(SortLoans(loans, config), loan => LoanMatches(loan, filter))
  }

  /** The filtered list keeps the sorted order, and holds exactly the matching loans,
      each as many times as the input does. */
  lemma FilterLoansSpec(loans: seq<Loan>, config: SortConfig<SortKey>, filter: string, x: Loan)
    ensures IsSubsequence(FilterLoans(loans, config, filter), SortLoans(loans, config))
    ensures x in FilterLoans(loans, config, filter) <==> x in loans && LoanMatches(x, filter)
    ensures multiset(FilterLoans(loans, config, filter))[x] ==
      if LoanMatches(x, filter) then multiset(loans)[x] else 0
  {
    var sorted := SortLoans(loans, config);
    FilterIsSubsequence(sorted, loan => LoanMatches(loan, filter));
    FilterMembers(sorted, loan => LoanMatches(loan, filter), x);
    FilterCount(sorted, loan => LoanMatches(loan, filter), x);
    assert x in sorted <==> x in multiset(sorted);
  }

  /** The page sizes the "Items Per Page" select offers. */
  const ItemsPerPageOptions: set<int> := {5, 10, 15, 20, 50, 75, 100}

  /** "Next" as written: disabled only when the current page is the last one. */
  predicate NextDisabledAsWritten(currentPage: int, totalPages: int) {
    currentPage == totalPages
  }

  /** When no loan matches, there are 0 pages, page 1 is shown, and "Next" is enabled;
      from then on every page is past the end and "Next" never disables. */
  lemma NextEnabledPastLastPage(currentPage: int, size: nat)
    requires size > 0 && currentPage >= 1
    ensures TotalPages(0, size) == 0
    ensures !NextDisabledAsWritten(currentPage, TotalPages(0, size))
    ensures PageSlice<Loan>([], currentPage + 1, size) == []
  {
  }

  /** "Next" as evidently intended: disabled on the last page and on any page after it. */
  predicate NextDisabledIntended(currentPage: int, totalPages: int) {
    currentPage >= totalPages
  }

  /** With the intended test, starting from a page within range, "Next" never leads
      past the last page (or past page 1 when there are no pages). */
  lemma NextIntendedStaysInRange(currentPage: int, totalPages: nat)
    requires 1 <= currentPage <= if totalPages == 0 then 1 else totalPages
    ensures !NextDisabledIntended(currentPage, totalPages) ==> currentPage + 1 <= totalPages
    ensures NextDisabledAsWritten(currentPage, totalPages) ==> NextDisabledIntended(currentPage, totalPages)
  {
  }

  /** The loan list's state. */
  class LoanListView {
    var loans: seq<Loan>
    var sortConfig: SortConfig<SortKey>
    var filter: string
    var currentPage: int
    var itemsPerPage: int

    ghost predicate Valid()
      reads this
    {
      currentPage >= 1 && itemsPerPage in ItemsPerPageOptions
    }

    /** Sorted by file number ascending, no filter, page 1, five loans a page. */
    constructor ()
      ensures Valid()
      ensures loans == [] && sortConfig == SortConfig(FileNumber, Asc) && filter == ""
      ensures currentPage == 1 && itemsPerPage == 5
    {
      loans := [];
      sortConfig := SortConfig(FileNumber, Asc);
      filter := "";
      currentPage := 1;
      itemsPerPage := 5;
    }

    /** `setLoans(response.data)` once the loans arrive. */
    method Load(data: seq<Loan>)
      requires Valid()
      modifies this
      ensures Valid() && loans == data
      ensures sortConfig == old(sortConfig) && filter == old(filter)
      ensures currentPage == old(currentPage) && itemsPerPage == old(itemsPerPage)
    {
      loans := data;
    }

    function FilteredLoans(): seq<Loan>
      reads this
    {
      FilterLoans(loans, sortConfig, filter)
    }

    function TotalPages(): nat
      reads this
      requires Valid()
    {
      ListView.TotalPages(|FilteredLoans()|, itemsPerPage)
    }

    /** `currentLoans`: the filtered rows from `startIndex` on, at most one page's
        worth, and none once the page is past the last one. */
    function CurrentLoans(): (r: seq<Loan>)
      reads this
      requires Valid()
      ensures |r| <= itemsPerPage
      ensures |r| == if PageStart(currentPage, itemsPerPage) >= |FilteredLoans()| then 0
                     else if PageStart(currentPage, itemsPerPage) + itemsPerPage <= |FilteredLoans()| then itemsPerPage
                     else |FilteredLoans()| - PageStart(currentPage, itemsPerPage)
      ensures forall k :: 0 <= k < |r| ==>
        PageStart(currentPage, itemsPerPage) + k < |FilteredLoans()| &&
        r[k] == FilteredLoans()[PageStart(currentPage, itemsPerPage) + k]
      ensures r != [] <==> currentPage <= TotalPages()
    {
      PageSliceNonEmpty(FilteredLoans(), currentPage, itemsPerPage);
      PageSlice(FilteredLoans(), currentPage, itemsPerPage)
    }

    predicate PreviousDisabled()
      reads this
    {
      currentPage == 1
    }

    /** "Next" is disabled by the corrected test, so that it never leads past the last
        page; the test as written is `NextDisabledAsWritten`. */
    predicate NextDisabled()
      reads this
      requires Valid()
    {
      NextDisabledIntended(currentPage, TotalPages())
    }

    /** `handleSort(key)`. */
    method HandleSort(key: SortKey)
      requires Valid()
      modifies this
      ensures Valid() && sortConfig == ToggleSort(old(sortConfig), key)
      ensures loans == old(loans) && filter == old(filter)
      ensures currentPage == old(currentPage) && itemsPerPage == old(itemsPerPage)
    {
      sortConfig := ToggleSort(sortConfig, key);
    }

    /** The search box: `setFilter(value)`; the page is left where it was. */
    method SetFilter(value: string)
      requires Valid()
      modifies this
      ensures Valid() && filter == value
      ensures loans == old(loans) && sortConfig == old(sortConfig)
      ensures currentPage == old(currentPage) && itemsPerPage == old(itemsPerPage)
    {
      filter := value;
    }

    /** "Previous": `handlePageChange(currentPage - 1)`, offered unless on page 1. */
    method Previous()
      requires Valid() && !PreviousDisabled()
      modifies this
      ensures Valid() && currentPage == old(currentPage) - 1
      ensures loans == old(loans) && sortConfig == old(sortConfig)
      ensures filter == old(filter) && itemsPerPage == old(itemsPerPage)
    {
      currentPage := currentPage - 1;
    }

    /** "Next": `handlePageChange(currentPage + 1)`, offered unless on the last page;
        the new page always has rows. */
    method Next()
      requires Valid() && !NextDisabled()
      modifies this
      ensures Valid() && currentPage == old(currentPage) + 1
      ensures currentPage <= TotalPages() && CurrentLoans() != []
      ensures loans == old(loans) && sortConfig == old(sortConfig)
      ensures filter == old(filter) && itemsPerPage == old(itemsPerPage)
    {
      currentPage := currentPage + 1;
    }

    /** `handleItemsPerPageChange`: the new size from the select, back to page 1. */
    method HandleItemsPerPageChange(size: int)
      requires Valid() && size in ItemsPerPageOptions
      modifies this
      ensures Valid() && itemsPerPage == size && currentPage == 1
      ensures loans == old(loans) && sortConfig == old(sortConfig) && filter == old(filter)
    {
      itemsPerPage := size;
      currentPage := 1;
    }
  }
}
