# Loan and EMI tracker front end, modelled in Dafny

This project models the client-side logic of a React front end for a vehicle-loan
business. EMI means equated monthly instalment. The model covers:

- the flat-rate EMI shown while a loan is being created;
- the loan list, with its sort, search and pages;
- the payment overview: its search filter, progress bars, colour bands, and the sort,
  search and paging state whose every change fetches the full payment list again;
- the EMI schedule of one loan: how rows are mapped, edited, paid and locked;
- the 30-day payments chart;
- the guarantor's combined address;
- the stand-alone loan-amount form: its input pattern, `parseFloat` and the list of
  amounts;
- the four-step "Add New Loan" wizard;
- the list of vehicle model years;
- the dashboard's summary figures.

There is one module per source file:

| module | file |
|---|---|
| `EmiCalculator` | `emi_calculator.dfy` |
| `LoansList` | `loans_list.dfy` |
| `PaymentPage` | `payment_page.dfy` |
| `PaymentDetails` | `payment_details.dfy` |
| `LoanPaymentTable` | `loan_payment_table.dfy` |
| `PaymentTracking` | `payment_tracking.dfy` |
| `GuarantorDetailsForm` | `guarantor_form.dfy` |
| `LoanManagement` | `loan_management.dfy` |
| `AddLoan` | `add_loan.dfy` |
| `VehicleDetailsForm` | `vehicle_form.dfy` |
| `Dashboard` | `dashboard.dfy` |

Three helper modules are shared:

- `Wrappers`: an `Option` type.
- `Text`: ASCII lower-casing, `includes`, JavaScript's `<` on strings, and `join`.
- `ListView`: the sort toggle, an order-keeping filter, and pagination.

Where a component keeps React state that its handlers overwrite, the model is a
class. Its fields are the state variables and its methods are the handlers. Each
method's `ensures` states the complete new state. Logic that only computes a value is
written as functions, with lemmas about them. `generateDailyPayments` fills an array
in a loop, so it is a method with a loop invariant. That method is proved against the
specification function `Buckets`.

The guarantor form appears twice. `GuarantorDetailsForm.GuarantorForm` is the form on
its own: its address state and `handleAddressChange`. In the wizard, React mounts a
new form each time the last step is entered, so `AddLoanWizard` keeps that form's
address state as its own field `guarantorAddress`. It resets the field on each mount,
and it updates the field with the same functions, `SetField` and `CombineAddress`,
that the form class uses.

Some facts about the code that the model keeps:

- **Invalid EMI inputs.** Only an input that is not a number gives an EMI of 0. A
  tenure of 0 gives "Infinity", "-Infinity" or "NaN". Nothing rejects negative
  numbers: the sign of the EMI is the sign of principal × (1 + rate × tenure / 100) /
  tenure, so a negative principal with a positive tenure and a rate ≥ 0 gives a
  negative EMI, while a negative tenure or a rate below −100 can flip the sign.
- **EMI times tenure.** EMI × tenure ≥ principal holds for the exact, unrounded EMI
  (`ExactEmiRepaysPrincipal`). The EMI rounded to paise can leave the instalments 0.01
  short (`RoundedEmiShortfall`).
- **Penalties and statuses.** The code has no overdue penalty and no reconciliation.
  Statuses and remaining amounts come from the backend.
- **Payment paging.** The payment page passes its page, page size, query and sort to
  `getLoanPayments`, but that function takes no parameters
  (src/services/paymentService.js:6). Every change of that state fetches the same
  full list again.

The rows of the EMI schedule, the "Next" button of the loan list, the pager's arrows
and "Add Loan" follow the corrected behaviour. "## Findings" shows what the code does
as written, and what it evidently means to do.

## Model

| member | source | states |
|---|---|---|
| EmiCalculator.ToFixed2 | src/components/LoanDetailsForm/index.js:24 | `toFixed(2)` gives a whole number of paise with the sign of the input, within half a paisa of it |
| EmiCalculator.CalculateEmi | src/components/LoanDetailsForm/index.js:5-25 | The result is 0 exactly when one of the parsed inputs is NaN. With 0 months it is ±Infinity or NaN, according to the principal's sign. Otherwise it is within half a paisa of (principal + principal·rate/100·months)/months |
| EmiCalculator.ExactEmiClosedForm | src/components/LoanDetailsForm/index.js:13-22 | EMI × months = principal + principal·rate·months/100, and EMI = principal/months + one month's interest |
| EmiCalculator.ExactEmiRepaysPrincipal | src/components/LoanDetailsForm/index.js:13-22 | When principal and rate are ≥ 0, the unrounded instalments repay at least the principal. At rate 0 the EMI is principal/months |
| EmiCalculator.ThousandAtTwoOverTwelve | src/components/LoanDetailsForm/index.js:5-25 | 1000 at 2 per 100 for 12 months: the total repayment is 1240 and the EMI is "103.33" |
| EmiCalculator.RoundedEmiShortfall | src/components/LoanDetailsForm/index.js:22-24 | 100 over 3 months at rate 0 gives "33.33", and 3 × 33.33 < 100 |
| EmiCalculator.EmiFieldFallback | src/components/LoanDetailsForm/index.js:111 | The EMI field shows the fallback "0" exactly when an input is not a number |
| ListView.ToggleSort | src/components/LoansList/index.js:66-72 | The new sort key is the clicked key. The direction is descending exactly when the same key was ascending |
| ListView.ToggleTwiceFlips | src/components/LoansList/index.js:66-72 | Clicking the same header twice flips the direction |
| ListView.TotalPagesIsCeiling | src/components/LoansList/index.js:62 | `Math.ceil(n / size)`: the pages cover n rows, one page fewer would not, and there are 0 pages exactly when there are 0 rows |
| ListView.PageSlice | src/components/LoansList/index.js:63-64 | A page holds `size` rows, or the rest of the list on the last page, or none past it. Row k of the page is row (page−1)·size + k of the list |
| ListView.PageSliceNonEmpty | src/components/LoansList/index.js:62-64 | A page has rows exactly when its number is at most the page count |
| ListView.RowOnPage | src/components/LoansList/index.js:62-64 | Every row j appears on page j/size + 1, at position j mod size |
| LoansList.ValueLessAsymmetric | src/components/LoansList/index.js:44-48 | No two column values are each `<` the other |
| LoansList.CompareFlip | src/components/LoansList/index.js:43-51 | The comparator is antisymmetric |
| LoansList.Insert | src/components/LoansList/index.js:43 | Insertion adds exactly the new loan to the list's multiset |
| LoansList.InsertSorted | src/components/LoansList/index.js:43-51 | Inserting into a sorted list keeps it sorted |
| LoansList.SortLoans | src/components/LoansList/index.js:43 | The sorted copy is a permutation of the loans |
| LoansList.SortLoansSorted | src/components/LoansList/index.js:43-51 | The sorted copy is in the comparator's order |
| LoansList.SortedByKey | src/components/LoansList/index.js:43-51 | Ascending order never has a key below its predecessor's, and descending order never has one above it. For numeric columns that means ≤ and ≥ |
| LoansList.FilterLoansSpec | src/components/LoansList/index.js:53-60 | The filtered list keeps the sorted order and holds exactly the loans that match, each as many times as the input holds it. A match is: the name contains the filter ignoring case, or the file or vehicle number contains it; an empty field never matches |
| LoansList.NextEnabledPastLastPage | src/components/LoansList/index.js:122-126 | As written: with no matching loans there are 0 pages, "Next" is enabled, and every later page is empty |
| LoansList.NextIntendedStaysInRange | src/components/LoansList/index.js:122-126 | With the corrected test, "Next" never leads past the last page, and it is disabled whenever the original test disables it |
| LoansList.LoanListView.constructor | src/components/LoansList/index.js:9-18 | Starts with no loans, sorted by file number ascending, no filter, on page 1 with 5 loans per page |
| LoansList.LoanListView.Load | src/components/LoansList/index.js:20-31 | The fetched loans replace the list; nothing else changes |
| LoansList.LoanListView.CurrentLoans | src/components/LoansList/index.js:62-64 | The current page's rows are the slice of the filtered list at `startIndex`. They number `itemsPerPage`, or what is left of the list on the last page, or none past it; there are some exactly when the page is within the page count |
| LoansList.LoanListView.HandleSort | src/components/LoansList/index.js:66-72 | The sort configuration toggles; nothing else changes |
| LoansList.LoanListView.SetFilter | src/components/LoansList/index.js:87-93 | The filter is replaced; the page stays where it was |
| LoansList.LoanListView.Previous | src/components/LoansList/index.js:115-120 | Offered unless on page 1; moves back one page |
| LoansList.LoanListView.Next | src/components/LoansList/index.js:122-126 | Offered unless on or past the last page (the corrected test); moves on one page, and the new page has rows |
| LoansList.LoanListView.HandleItemsPerPageChange | src/components/LoansList/index.js:78-81 | Takes one of the offered sizes (5, 10, 15, 20, 50, 75 or 100) and goes back to page 1 |
| LoanPaymentTable.ForwardSort | src/components/LoanPaymentTable.js:35-39 | A header click is passed on exactly when its key is not "pay" |
| LoanPaymentTable.EmiProgress | src/components/LoanPaymentTable.js:42-44 | 0 for a tenure of 0. Otherwise progress × tenure = paid × 100, which lies in [0, 100] when 0 ≤ paid ≤ tenure |
| LoanPaymentTable.PendingDaysProgress | src/components/LoanPaymentTable.js:47-50 | Capped at 100, and it reaches 100 exactly at 90 days or more. Below that it is proportional to the days, and it is never negative for non-negative days |
| LoanPaymentTable.ColourBands | src/components/LoanPaymentTable.js:53-64 | Red below 30, orange from 30 up to 70, green from 70 on. The pending-days colour is the EMI colour with red and green swapped |
| LoanPaymentTable.EmiBarColour | src/components/LoanPaymentTable.js:42-57 | The EMI bar is green exactly when 10·paid ≥ 7·tenure, and red exactly when 10·paid < 3·tenure |
| LoanPaymentTable.PendingDaysBarColour | src/components/LoanPaymentTable.js:47-64 | The pending-days bar is red exactly from 63 days on, and green exactly below 27 days |
| LoanPaymentTable.MoreChip | src/components/LoanPaymentTable.js:122-124 | The "+n more" chip appears exactly when there is more than one phone number, and n is the count of the others |
| LoanPaymentTable.PagerRoundTrip | src/components/LoanPaymentTable.js:194-195 | The pager's 0-based page and the page's 1-based number convert into each other |
| PaymentPage.FilterPaymentsSpec | src/pages/PaymentPage.js:41-50 | The filtered rows keep their order and are exactly the rows whose name, vehicle number or file number contains the query, ignoring case, each as many times as the input holds it |
| PaymentPage.EmptyQueryKeepsAll | src/pages/PaymentPage.js:43-48 | An empty query keeps every row |
| PaymentPage.QueryCaseIgnored | src/pages/PaymentPage.js:45-47 | Lower-casing the query changes nothing |
| PaymentPage.PaymentPageView.constructor | src/pages/PaymentPage.js:8-15 | Starts sorted by file number ascending, with no query, on page 1 of 10 rows |
| PaymentPage.PaymentPageView.Load | src/pages/PaymentPage.js:23-27 | The rows the backend returns, the same full list whatever the state, replace the rows; the sort, query and paging state is kept |
| PaymentPage.PaymentPageView.HandleFilterChange | src/pages/PaymentPage.js:63-66 | Sets the query and goes back to page 1 |
| PaymentPage.PaymentPageView.HandleSort | src/pages/PaymentPage.js:68-74 | The sort configuration toggles; nothing else changes |
| PaymentPage.PaymentPageView.HandlePageChange | src/pages/PaymentPage.js:76-79 | Both the page and the page size are overwritten by the call's arguments |
| PaymentPage.PaymentPageView.HandlePagerArrow | src/components/LoanPaymentTable.js:195 | With the corrected call, an arrow moves to the pager's page + 1 and keeps the page size |
| PaymentPage.HeaderClick | src/components/LoanPaymentTable.js:35-39 | A click on "pay" changes nothing; any other key toggles the sort as the page's handler does |
| PaymentPage.PagerArrowDropsPageSize | src/components/LoanPaymentTable.js:195 | As written: an arrow click moves to the right page but leaves the page size undefined |
| PaymentPage.PagerArrowKeepsPageSize | src/components/LoanPaymentTable.js:195 | With the corrected call the page size is kept, and the page is still the pager's page + 1 |
| PaymentPage.RowsPerPageResets | src/components/LoanPaymentTable.js:197 | Choosing rows per page goes to page 1 with that size |
| PaymentDetails.MapRow | src/pages/PaymentDetails.js:33-41 | As written: a missing paid amount becomes 0, and a missing or zero remaining amount becomes the EMI amount |
| PaymentDetails.SettledRowShowsFullRemaining | src/pages/PaymentDetails.js:37 | As written: a fully paid row with 0 remaining is shown with its whole EMI still remaining, so it no longer balances |
| PaymentDetails.MapRowIntendedKeepsBalance | src/pages/PaymentDetails.js:36-37 | With defaults only for missing values, every amount sent is kept and a balanced row stays balanced |
| PaymentDetails.MapRows | src/pages/PaymentDetails.js:33-43 | One row per EMI, each mapped with the corrected defaults, and every balanced EMI arrives balanced |
| PaymentDetails.EditPaid | src/pages/PaymentDetails.js:49-60 | Rows with the EMI number get the new paid amount and the rest of the EMI as the remaining amount, so they balance. Their other fields and all other rows are unchanged |
| PaymentDetails.ApplyPayment | src/pages/PaymentDetails.js:73-84 | Rows with the EMI number take the response's amounts, and their status becomes "Paid" when the response status is truthy, "Pending" otherwise. Their other fields and all other rows are unchanged |
| PaymentDetails.FindRow | src/pages/PaymentDetails.js:64 | `find` returns a row with the EMI number when there is one, and nothing exactly when no row has it |
| PaymentDetails.UnknownEmiNumberChangesNothing | src/pages/PaymentDetails.js:49-84 | An edit or a payment for an EMI number no row has changes no row |
| PaymentDetails.LockedRowBadge | src/pages/PaymentDetails.js:103-116 | A locked row's badge is green or blue; a yellow badge means the row is still editable |
| PaymentDetails.PaymentLocksRow | src/pages/PaymentDetails.js:73-103 | After a payment the row is locked exactly when the response is settled and the amount paid covers the EMI |
| PaymentDetails.EmiTable.Load | src/pages/PaymentDetails.js:33-43 | The rows become the mapped EMI details |
| PaymentDetails.EmiTable.HandlePaidAmountChange | src/pages/PaymentDetails.js:49-60 | The rows become the edited rows; the error is kept |
| PaymentDetails.EmiTable.HandlePay | src/pages/PaymentDetails.js:62-91 | A request is sent exactly when a row has the EMI number. A failure sets the error "Payment failed. Please try again." and keeps the rows. A success applies the response to the rows |
| PaymentTracking.DiffDays | src/pages/PaymentTracking.js:54 | The floor of the elapsed milliseconds divided by one day |
| PaymentTracking.AddTransaction | src/pages/PaymentTracking.js:55-57 | A transaction changes at most the slot of its own day |
| PaymentTracking.GenerateDailyPayments | src/pages/PaymentTracking.js:49-60 | Returns 30 slots, equal to the `Buckets` of the transactions |
| PaymentTracking.BucketIsDayTotal | src/pages/PaymentTracking.js:49-60 | Slot k is the total of the transactions dated k days before today. Future-dated transactions and those older than 30 days land nowhere |
| PaymentTracking.BucketsSum | src/pages/PaymentTracking.js:49-60 | The slots add up to the total of the last 30 days' transactions |
| GuarantorDetailsForm.Parts | src/components/GuarantorDetailsForm/index.js:7-16 | Eight parts, in the order of the address keys |
| GuarantorDetailsForm.CombineAddressLength | src/components/GuarantorDetailsForm/index.js:21-25 | The combined address holds all the text of the parts plus one ", " between each two non-empty parts. It is empty exactly when all parts are |
| GuarantorDetailsForm.CombineSingleField | src/components/GuarantorDetailsForm/index.js:21-25 | When exactly one part is non-empty, the combined address is that part |
| GuarantorDetailsForm.CombineSegments | src/components/GuarantorDetailsForm/index.js:22-23 | A segment of the combined address is exactly a non-empty part |
| GuarantorDetailsForm.SetField | src/components/GuarantorDetailsForm/index.js:37-43 | Only the named field changes |
| GuarantorDetailsForm.SetFieldLastWins | src/components/GuarantorDetailsForm/index.js:37-43 | A second write wins, and writing a field's own value changes nothing |
| GuarantorDetailsForm.GuarantorForm.constructor | src/components/GuarantorDetailsForm/index.js:7-16 | All parts start empty, and so does the pushed address |
| GuarantorDetailsForm.GuarantorForm.HandleAddressChange | src/components/GuarantorDetailsForm/index.js:28-43 | Updates one field, and the pushed `guarantorFullAddress` equals the new combined address |
| Text.JoinLength | src/components/GuarantorDetailsForm/index.js:24 | Joining k ≥ 1 parts adds exactly k − 1 separators |
| LoanManagement.MatchesAmountIff | src/components/LoanManagement.js:28 | The pattern accepts exactly the strings of digits and '.' with at most one '.'. The empty string is accepted |
| LoanManagement.ParseAmountNaN | src/components/LoanManagement.js:11 | `parseFloat` of an accepted string is NaN exactly when the string has no digit |
| LoanManagement.ParseAmountSign | src/components/LoanManagement.js:11 | `parseFloat` of an accepted string with a digit is ≥ 0, and it is 0 exactly when every digit is '0' |
| LoanManagement.EmptyInputAddsNaN | src/components/LoanManagement.js:11-17 | As written: an empty input, or a lone ".", adds the entry "NaN" |
| LoanManagement.AddLoanOutcomeSpec | src/components/LoanManagement.js:14-17 | With the corrected guard, an added entry is a non-negative amount in paise within half a paisa of the input. An input is rejected exactly when it has no digit other than '0'. The two guards differ only on NaN |
| LoanManagement.LoanManager.constructor | src/components/LoanManagement.js:4-6 | Starts with an empty input, no loans and no error |
| LoanManagement.LoanManager.HandleInputChange | src/components/LoanManagement.js:24-34 | The text is taken only when the pattern accepts it; the loans and the error are kept |
| LoanManagement.LoanManager.HandleAddLoan | src/components/LoanManagement.js:8-21 | A rejected input sets "Please enter a valid loan amount" and keeps the loans and the input. An accepted one appends its `toFixed(2)` entry at the end and clears the input and the error |
| AddLoan.StepMoves | src/components/AddLoan/index.js:119-132 | Next and Back keep the step within the four steps and undo each other. Save is offered exactly on the last step |
| AddLoan.StepFields | src/components/AddLoan/index.js:107-110 | No step's inputs write "emi" or "guarantorFullAddress"; the latter is only pushed by the guarantor form's effect |
| AddLoan.StepFieldsDisjoint | src/components/AddLoan/index.js:107-110 | No two steps write the same field |
| AddLoan.SaveAlert | src/components/AddLoan/index.js:57-81 | No alert exactly when both required fields are filled and the status is 201. An empty file number or loan amount gives "Loan details cannot be empty!" |
| AddLoan.AddLoanWizard.constructor | src/components/AddLoan/index.js:26-37 | Empty loan fields, EMI "0", today's date as the creation date, on step 0, with no dialog |
| AddLoan.AddLoanWizard.NextStep | src/components/AddLoan/index.js:46 | Offered below the last step; adds one to the step. Entering the guarantor step mounts a fresh form (src/components/AddLoan/index.js:110): its address parts start empty and the loan's `guarantorFullAddress` becomes ""; otherwise the loan is unchanged |
| AddLoan.AddLoanWizard.PrevStep | src/components/AddLoan/index.js:47 | Offered after the first step; subtracts one from the step. The loan keeps the address pushed last |
| AddLoan.AddLoanWizard.HandleInputChange | src/components/AddLoan/index.js:49-55 | Only the named field changes, and the EMI stays "0" |
| AddLoan.AddLoanWizard.GuarantorAddressChange | src/components/GuarantorDetailsForm/index.js:28-43 | On the guarantor step, the wizard's own copy of the form's address changes in that part only, and the loan's `guarantorFullAddress` becomes the combination of the parts; on that step the two always agree |
| AddLoan.AddLoanWizard.HandleSaveLoan | src/components/AddLoan/index.js:57-81 | A request is sent exactly when the file number and loan amount are non-empty. Loading is over on every path, and the dialog opens only on status 201 |
| AddLoan.AddLoanWizard.HandleCloseDialog | src/components/AddLoan/index.js:39-44 | A backdrop click or the Escape key leaves the dialog open. Any other reason closes it and the wizard |
| VehicleDetailsForm.ModelYears | src/components/VehicleDetailsForm/index.js:33 | 51 years, from the current year down to 50 years before it, each one less than the previous |
| VehicleDetailsForm.CountdownDistinct | src/components/VehicleDetailsForm/index.js:33 | A countdown by one is strictly decreasing, so no year repeats |
| VehicleDetailsForm.ModelYearsSpec | src/components/VehicleDetailsForm/index.js:33 | A year is offered exactly when it is within 50 years before the current year; the years are distinct |
| Dashboard.Average | src/pages/Dashboard.js:63 | None exactly for an empty series. Otherwise average × length = total |
| Dashboard.MaxY | src/pages/Dashboard.js:64 | None exactly for an empty series. Otherwise it is at least every value and equal to one of them |
| Dashboard.FindByLabel | src/pages/Dashboard.js:66-70 | The first slice whose label contains the word, or none when no label does |
| Dashboard.GrowthDiffTelescopes | src/pages/Dashboard.js:74-76 | Last minus first is the sum of the changes from each period to the next |
| Dashboard.SumYFirst | src/pages/Dashboard.js:62 | The left fold from 0 equals the first value plus the total of the rest |
| Dashboard.AverageAtMostMax | src/pages/Dashboard.js:62-64 | The average never exceeds the maximum |
| Dashboard.EmiCollectionFigures | src/pages/Dashboard.js:33-64 | The EMI collection has a total of 350000, an average of 70000 and a maximum of 90000 |
| Dashboard.LoanStatusFigures | src/pages/Dashboard.js:41-70 | The lookups give 400 active, 300 closed and 200 pending loans |
| Dashboard.PredictedGrowthFigures | src/pages/Dashboard.js:47-76 | The prediction has a total of 2300000, an average of 575000 and a growth of 250000 |

## Left out

- HTTP calls (the payment and loan services, axios) are not modelled. Backend
  responses enter as parameters: `PayResponse`, `SaveResponse`, and the data passed to
  the `Load` methods.
- The Electron shell (main.js) is not modelled, and neither are the render-only
  components: tables, cards, buttons, the navigation bar, the customer form, the loan
  details editor and the routing.
- Chart, CountUp and MUI rendering, React effect scheduling, state batching and async
  ordering are not modelled. Each handler is modelled as one atomic step, and each
  effect as running right after the state change that triggers it.
- Overdue penalties and status reconciliation are not in this code, so they are not
  modelled.
- JavaScript numbers are modelled as unbounded `real` and `int`, with no floating-point
  rounding. NaN and ±Infinity appear only where the code shows them.
- `parseFloat` is modelled only on strings that the input pattern accepts. `parseInt`
  and the other `parseFloat` calls enter as `Option` values, where None stands for NaN.
- `toFixed(2)` is modelled as exact decimal rounding of the magnitude, with ties going
  to the larger magnitude. Binary floating-point ties and the exponent form for
  |x| ≥ 10^21 are not modelled.
- `toLowerCase` is modelled on ASCII letters only.
- Dates and the wall clock are parameters. `today` is milliseconds since the epoch, and
  the creation date is a string. Date parsing is not modelled.
- `alert`, `console` output and `onSave` are not modelled. The wizard's `alert` field
  holds the alert the last save attempt ended with, None when it ended without one
  (status 201); a call of `onClose` is recorded in `closeRequested`.
- AddLoan.AddLoanWizard.HandleSaveLoan: the intermediate `isLoading = true` while the
  request is pending cannot be seen in a one-step model. Only its value afterwards
  (false) is stated.
- LoansList.SortLoans: a loan field the backend leaves out is modelled as "", which
  sorts before every other string; in JavaScript `undefined` compares neither `<` nor
  `>` anything, so the comparator would return 0 for it.
- LoansList.SortLoans: the comparator is not checked to be a total order on mixed
  column types. The `Number`/`Text` split per column makes that case impossible.
- LoansList.LoanListView: the loading and error flags of the fetch are not modelled.
- PaymentPage.PaymentPageView: the server-side totals shown in the metric cards are
  not modelled. The page, page size, query and sort that the page passes to
  `getLoanPayments` are dropped by that function, so no server-side paging or sorting
  is modelled either.
- LoanManagement.LoanManager: the browser's own sanitising of `type="number"` inputs is
  not modelled.

## Findings

| source | as written | input that shows it | evidently intended | confidence | as-written member | corrected member |
|---|---|---|---|---|---|---|
| src/components/LoansList/index.js:125 | "Next" is disabled only when `currentPage === totalPages` | No loan matches the filter: 0 pages and page 1, so "Next" stays enabled and leads to empty pages forever | Disabled when `currentPage >= totalPages` | high, not executed | LoansList.NextEnabledPastLastPage | LoansList.NextIntendedStaysInRange |
| src/components/LoanPaymentTable.js:195 | The pager's arrows call `onPageChange(newPage + 1)` without a page size, and the page's handler sets `pageSize` to undefined | Any click on an arrow of the pager | Pass the current page size along | high, not executed | PaymentPage.PagerArrowDropsPageSize | PaymentPage.PagerArrowKeepsPageSize |
| src/components/LoanManagement.js:14 | The only guard is `parsedAmount <= 0`, and `NaN <= 0` is false | Empty input (or "."): the entry "NaN" is appended | Also reject NaN ("a valid number") | high, not executed | LoanManagement.EmptyInputAddsNaN | LoanManagement.AddLoanOutcomeSpec |
| src/pages/PaymentDetails.js:37 | `remainingAmount \|\| emiAmount` also replaces a remaining amount of 0 | A fully paid EMI with remaining amount 0 is shown with its whole EMI remaining | `remainingAmount ?? emiAmount` | medium, not executed | PaymentDetails.SettledRowShowsFullRemaining | PaymentDetails.MapRowIntendedKeepsBalance |
