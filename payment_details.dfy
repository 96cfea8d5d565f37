/** The EMI schedule of one loan (src/pages/PaymentDetails.js): rows mapped from the
    backend with defaults, edited and paid one EMI number at a time, and locked once
    settled. */
module PaymentDetails {
  import opened Wrappers
  import opened Text

  /** One element of `response.emiDetails`; None stands for null or undefined. */
  datatype BackendEmi = BackendEmi(
    emiNumber: int,
    emiAmount: real,
    paidAmount: Option<real>,
    remainingAmount: Option<real>,
    paymentDate: string,
    status: string,
    emiDate: string)

  /** One row of `emiRows`. */
  datatype EmiRow = EmiRow(
    emiNumber: int,
    emiAmount: real,
    paidAmount: real,
    remainingAmount: real,
    paymentDate: string,
    status: string,
    emiDate: string)

  /** JavaScript truthiness of a numeric field: null, undefined and 0 are falsy. */
  predicate IsFalsy(v: Option<real>) {
    v.None? || v.value == 0.0
  }

  /** The row mapping: `paidAmount || 0` and `remainingAmount || emiAmount`. */
  function MapRow(e: BackendEmi): (r: EmiRow)
    ensures r.paidAmount == if e.paidAmount.Some? then e.paidAmount.value else 0.0
    ensures r.remainingAmount == if IsFalsy(e.remainingAmount) then e.emiAmount else e.remainingAmount.value
    ensures r.emiNumber == e.emiNumber && r.emiAmount == e.emiAmount && r.status == e.status
  {
    EmiRow(
      e.emiNumber,
      e.emiAmount,
      if IsFalsy(e.paidAmount) then 0.0 else e.paidAmount.value,
      if IsFalsy(e.remainingAmount) then e.emiAmount else e.remainingAmount.value,
      e.paymentDate,
      e.status,
      e.emiDate)
  }


  /** A row whose paid and remaining amounts add up to its EMI. */
  predicate Balanced(paid: real, remaining: real, emiAmount: real) {
    paid + remaining == emiAmount
  }

  /** As written, a fully paid EMI whose remaining amount is 0 is shown with its whole
      EMI still remaining. */
  lemma SettledRowShowsFullRemaining(e: BackendEmi)
    requires e.paidAmount == Some(e.emiAmount) && e.remainingAmount == Some(0.0) && e.emiAmount != 0.0
    ensures Balanced(e.paidAmount.value, e.remainingAmount.value, e.emiAmount)
    ensures MapRow(e).remainingAmount == e.emiAmount
    ensures !Balanced(MapRow(e).paidAmount, MapRow(e).remainingAmount, MapRow(e).emiAmount)
  {
  }

  /** The mapping as evidently intended: a default only for a missing value
      (`remainingAmount ?? emiAmount`). */
  function MapRowIntended(e: BackendEmi): (r: EmiRow) {
    EmiRow(
      e.emiNumber,
      e.emiAmount,
      e.paidAmount.GetOr(0.0),
      e.remainingAmount.GetOr(e.emiAmount),
      e.paymentDate,
      e.status,
      e.emiDate)
  }

  /** The intended mapping keeps every amount the backend sent, so a balanced backend
      row stays balanced, and a row with neither amount starts balanced at 0 paid. */
  lemma MapRowIntendedKeepsBalance(e: BackendEmi)
    ensures e.paidAmount.Some? && e.remainingAmount.Some? &&
            Balanced(e.paidAmount.value, e.remainingAmount.value, e.emiAmount) ==>
            Balanced(MapRowIntended(e).paidAmount, MapRowIntended(e).remainingAmount, e.emiAmount)
    ensures e.paidAmount.None? && e.remainingAmount.None? ==>
            MapRowIntended(e).paidAmount == 0.0 && Balanced(0.0, MapRowIntended(e).remainingAmount, e.emiAmount)
    ensures e.remainingAmount.Some? ==> MapRowIntended(e).remainingAmount == e.remainingAmount.value
  {
  }

  /** The rows of the table, mapped with the corrected defaults, so that every row the
      backend sent balanced arrives balanced. */
  function MapRows(details: seq<BackendEmi>): (r: seq<EmiRow>)
    ensures |r| == |details|
    ensures forall i :: 0 <= i < |r| ==> r[i] == MapRowIntended(details[i])
    ensures forall i :: 0 <= i < |r| ==>
      (details[i].paidAmount.Some? && details[i].remainingAmount.Some? &&
       Balanced(details[i].paidAmount.value, details[i].remainingAmount.value, details[i].emiAmount) ==>
       Balanced(r[i].paidAmount, r[i].remainingAmount, r[i].emiAmount))
  {
    seq(|details|, i requires 0 <= i < |details| => MapRowIntended(details[i]))
  }

  /** `handlePaidAmountChange(emiNumber, value)`: every row with that EMI number gets the
      new paid amount and the rest of its EMI as remaining amount. */
  function EditPaid(rows: seq<EmiRow>, emiNumber: int, value: real): (r: seq<EmiRow>)
    ensures |r| == |rows|
    ensures forall i :: 0 <= i < |rows| && rows[i].emiNumber != emiNumber ==> r[i] == rows[i]
    ensures forall i :: 0 <= i < |rows| && rows[i].emiNumber == emiNumber ==>
      && r[i].paidAmount == value
      && Balanced(r[i].paidAmount, r[i].remainingAmount, r[i].emiAmount)
      && r[i] == rows[i].(paidAmount := r[i].paidAmount, remainingAmount := r[i].remainingAmount)
  {
    seq(|rows|, i requires 0 <= i < |rows| =>
      if rows[i].emiNumber == emiNumber
      then rows[i].(paidAmount := value, remainingAmount := rows[i].emiAmount - value)
      else rows[i])
  }

  /** The rows after a successful `handlePay`: every row with that EMI number takes the
      response's amounts, and its status is 'Paid' when the response's status is truthy
      and 'Pending' otherwise. */
  function ApplyPayment(rows: seq<EmiRow>, emiNumber: int, paidAmount: real, remainingAmount: real, settled: bool): (r: seq<EmiRow>)
    ensures |r| == |rows|
    ensures forall i :: 0 <= i < |rows| && rows[i].emiNumber != emiNumber ==> r[i] == rows[i]
    ensures forall i :: 0 <= i < |rows| && rows[i].emiNumber == emiNumber ==>
      && r[i].paidAmount == paidAmount && r[i].remainingAmount == remainingAmount
      && r[i].status == (if settled then "Paid" else "Pending")
      && r[i] == rows[i].(paidAmount := paidAmount, remainingAmount := remainingAmount, status := r[i].status)
  {
    seq(|rows|, i requires 0 <= i < |rows| =>
      if rows[i].emiNumber == emiNumber
      then rows[i].(paidAmount := paidAmount, remainingAmount := remainingAmount, status := if settled then "Paid" else "Pending")
      else rows[i])
  }

  /** `emiRows.find(row => row.emiNumber === emiNumber)`. */
  function FindRow(rows: seq<EmiRow>, emiNumber: int): (r: Option<EmiRow>)
    ensures r.Some? ==> r.value in rows && r.value.emiNumber == emiNumber
    ensures r.None? <==> forall i :: 0 <= i < |rows| ==> rows[i].emiNumber != emiNumber
    decreases |rows|
  {
    if rows == [] then None
    else if rows[0].emiNumber == emiNumber then Some(rows[0])
    else
      var r := FindRow(rows[1..], emiNumber);
      assert forall i :: 1 <= i < |rows| ==> rows[i] == rows[1..][i - 1];
      r
  }

  /** An edit or a payment for an EMI number that no row has leaves the rows as they
      were. */
  lemma UnknownEmiNumberChangesNothing(rows: seq<EmiRow>, emiNumber: int, value: real, paid: real, remaining: real, settled: bool)
    requires FindRow(rows, emiNumber).None?
    ensures EditPaid(rows, emiNumber, value) == rows
    ensures ApplyPayment(rows, emiNumber, paid, remaining, settled) == rows
  {
  }

  /** The paid/overpaid test on a status, ignoring case. */
  predicate IsSettledStatus(status: string) {
    Lower(status) == "paid" || Lower(status) == "overpaid"
  }

  /** A row whose input and Pay button are disabled: settled by status and paid in full. */
  predicate Locked(row: EmiRow) {
    IsSettledStatus(row.status) && row.paidAmount >= row.emiAmount
  }

  /** The status badge colours: 'bg-green-500', 'bg-blue-500' and 'bg-yellow-500'. */
  datatype Badge = GreenBadge | BlueBadge | YellowBadge

  function StatusBadge(status: string): Badge {
    if Lower(status) == "paid" then GreenBadge
    else if Lower(status) == "overpaid" then BlueBadge
    else YellowBadge
  }

  /** A locked row always wears a green or blue badge; a yellow badge means the row can
      still be edited and paid. */
  lemma LockedRowBadge(row: EmiRow)
    ensures Locked(row) ==> StatusBadge(row.status) != YellowBadge
    ensures StatusBadge(row.status) == YellowBadge ==> !Locked(row)
  {
  }

  /** After a successful payment the row is locked exactly when the backend reported
      it settled and the amount it reports paid covers the EMI. */
  lemma PaymentLocksRow(rows: seq<EmiRow>, emiNumber: int, paid: real, remaining: real, settled: bool, i: int)
    requires 0 <= i < |rows| && rows[i].emiNumber == emiNumber
    ensures Locked(ApplyPayment(rows, emiNumber, paid, remaining, settled)[i]) <==> settled && paid >= rows[i].emiAmount
  {
    assert Lower("Paid") == "paid";
    assert Lower("Pending") == "pending";
  }

  /** The backend's answer to `payEMI`, or the error it threw. */
  datatype PayResponse =
    | PayOk(paidAmount: real, remainingAmount: real, statusTruthy: bool)
    | PayFailed

  /** The page's EMI table state. */
  class EmiTable {
    var rows: seq<EmiRow>
    var error: Option<string>

    constructor ()
      ensures rows == [] && error == None
    {
      rows := [];
      error := None;
    }

    /** `setEmiRows(rows)` once the loan's details arrive. */
    method Load(details: seq<BackendEmi>)
      modifies this
      ensures rows == MapRows(details) && error == old(error)
    {
      rows := MapRows(details);
    }

    /** `handlePaidAmountChange(emiNumber, value)`. */
    method HandlePaidAmountChange(emiNumber: int, value: real)
      modifies this
      ensures rows == EditPaid(old(rows), emiNumber, value) && error == old(error)
    {
      rows := EditPaid(rows, emiNumber, value);
    }

    /** `handlePay(emiNumber, paymentAmount)`, the backend answering `response`.
        `requested` tells whether a payment request was sent at all. */
    method HandlePay(emiNumber: int, paymentAmount: real, response: PayResponse) returns (requested: bool)
      modifies this
      ensures requested <==> FindRow(old(rows), emiNumber).Some?
      ensures !requested ==> rows == old(rows) && error == old(error)
      ensures requested && response.PayFailed? ==>
        rows == old(rows) && error == Some("Payment failed. Please try again.")
      ensures requested && response.PayOk? ==>
        rows == ApplyPayment(old(rows), emiNumber, response.paidAmount, response.remainingAmount, response.statusTruthy)
        && error == old(error)
    {
      var selected := FindRow(rows, emiNumber);
      if selected.None? {
        return false;
      }
      requested := true;
      match response
      case PayFailed =>
        error := Some("Payment failed. Please try again.");
      case PayOk(paid, remaining, settled) =>
        rows := ApplyPayment(rows, emiNumber, paid, remaining, settled);
    }
  }
}
