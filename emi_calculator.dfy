/** The flat-rate EMI shown by the loan details form (`calculateEMI` and the read-only
    EMI field of src/components/LoanDetailsForm/index.js). */
module EmiCalculator {
  import opened Wrappers

  /** What `calculateEMI` returns: the number 0 from the NaN guard, or the string
      `emi.toFixed(2)`, which for a finite `emi` is a sign and a whole number of paise
      and otherwise is "Infinity", "-Infinity" or "NaN". */
  datatype Emi =
    | Zero
    | Fixed(negative: bool, paise: nat)
    | PosInfinity
    | NegInfinity
    | NotANumber

  /** The value of a `Fixed` result in rupees. */
  function FixedValue(e: Emi): real
    requires e.Fixed?
  {
    if e.negative then -(e.paise as real) / 100.0 else e.paise as real / 100.0
  }

  /** `x.toFixed(2)` for a finite `x`: the magnitude is rounded to the nearest paisa,
      ties going to the larger magnitude, and the sign is that of `x`. */
  function ToFixed2(x: real): (e: Emi)
    ensures e.Fixed? && e.negative == (x < 0.0)
    ensures -1.0 / 200.0 <= FixedValue(e) - x <= 1.0 / 200.0
  {
    if x >= 0.0 then Fixed(false, (x * 100.0 + 0.5).Floor)
    else Fixed(true, (-x * 100.0 + 0.5).Floor)
  }

  /** The exact, unrounded EMI, computed as the source does: interest per month on the
      whole principal, times the months, added to the principal, spread over the months. */
  function ExactEmi(principal: real, ratePer100: real, months: int): real
    requires months != 0
  {
    var interestPerMonth := principal * ratePer100 / 100.0;
    var totalInterest := interestPerMonth * months as real;
    var totalRepayment := principal + totalInterest;
    totalRepayment / months as real
  }

  /** `calculateEMI(loanAmount, interestRate, tenure)`, given what `parseFloat`,
      `parseFloat` and `parseInt` made of the three fields (None for NaN). */
  function CalculateEmi(amount: Option<real>, rate: Option<real>, tenure: Option<int>): (r: Emi)
    ensures r.Zero? <==> amount.None? || rate.None? || tenure.None?
    ensures !r.Zero? && tenure.value == 0 ==>
      r == (if amount.value > 0.0 then PosInfinity else if amount.value < 0.0 then NegInfinity else NotANumber)
    ensures !r.Zero? && tenure.value != 0 ==>
      r.Fixed? && -1.0 / 200.0 <= FixedValue(r) - ExactEmi(amount.value, rate.value, tenure.value) <= 1.0 / 200.0
  {
    if amount.None? || rate.None? || tenure.None? then Zero
    else
      var principal, ratePer100, months := amount.value, rate.value, tenure.value;
      if months == 0 then
        // 0 months: the total repayment is the principal, divided by zero
        if principal > 0.0 then PosInfinity else if principal < 0.0 then NegInfinity else NotANumber
      else ToFixed2(ExactEmi(principal, ratePer100, months))
  }

  /** Before rounding, EMI × months is the principal plus the flat interest for every
      month, and the EMI is the principal's share per month plus one month's interest. */
  lemma ExactEmiClosedForm(principal: real, ratePer100: real, months: int)
    requires months != 0
    ensures ExactEmi(principal, ratePer100, months) * months as real
         == principal + principal * ratePer100 * months as real / 100.0
    ensures ExactEmi(principal, ratePer100, months)
         == principal / months as real + principal * ratePer100 / 100.0
  {
    var m := months as real;
    var total := principal + principal * ratePer100 / 100.0 * m;
    assert ExactEmi(principal, ratePer100, months) == total / m;
    assert total / m * m == total;
    assert total / m == principal / m + principal * ratePer100 / 100.0 * m / m;
  }

  /** With a non-negative principal and rate, the exact instalments repay at least the
      principal; with a zero rate they repay exactly the principal. */
  lemma ExactEmiRepaysPrincipal(principal: real, ratePer100: real, months: int)
    requires principal >= 0.0 && ratePer100 >= 0.0 && months > 0
    ensures ExactEmi(principal, ratePer100, months) * months as real >= principal
    ensures ratePer100 == 0.0 ==> ExactEmi(principal, ratePer100, months) == principal / months as real
  {
    ExactEmiClosedForm(principal, ratePer100, months);
    assert principal * ratePer100 >= 0.0;
    assert principal * ratePer100 * months as real >= 0.0;
  }

  /** A loan of 1000 at 2 per 100 per month over 12 months: 20 interest a month, 240 in
      all, 1240 to repay, and an EMI of "103.33". */
  lemma ThousandAtTwoOverTwelve()
    ensures ExactEmi(1000.0, 2.0, 12) * 12.0 == 1240.0
    ensures CalculateEmi(Some(1000.0), Some(2.0), Some(12)) == Fixed(false, 10333)
  {
    ExactEmiClosedForm(1000.0, 2.0, 12);
    assert ExactEmi(1000.0, 2.0, 12) == 1240.0 / 12.0;
    assert (1240.0 / 12.0 * 100.0 + 0.5).Floor == 10333;
  }

  /** Rounding to paise can leave the instalments short of the principal: 100 over
      3 months at rate 0 gives "33.33", and 3 × 33.33 = 99.99. */
  lemma RoundedEmiShortfall()
    ensures CalculateEmi(Some(100.0), Some(0.0), Some(3)) == Fixed(false, 3333)
    ensures 3.0 * FixedValue(Fixed(false, 3333)) < 100.0
  {
    assert ExactEmi(100.0, 0.0, 3) == 100.0 / 3.0;
    assert (100.0 / 3.0 * 100.0 + 0.5).Floor == 3333;
  }

  /** JavaScript truthiness of the returned value: only the guard's number 0 is falsy;
      every `toFixed` string, "0.00" included, is non-empty and so truthy. */
  predicate IsFalsy(e: Emi) {
    e.Zero?
  }

  /** The decimal digits of `n`. */
  function Digits(n: nat): (s: string)
    ensures |s| >= 1
    decreases n
  {
    if n < 10 then [(48 + n) as char] else Digits(n / 10) + [(48 + n % 10) as char]
  }

  /** The text of a `calculateEMI` result: the string `toFixed` produced. */
  function EmiText(e: Emi): string
    requires !e.Zero?
  {
    match e
    case Fixed(negative, paise) =>
      (if negative then "-" else "") + Digits(paise / 100) + "." + [(48 + paise % 100 / 10) as char, (48 + paise % 10) as char]
    case PosInfinity => "Infinity"
    case NegInfinity => "-Infinity"
    case NotANumber => "NaN"
  }

  /** What the read-only EMI field shows: `emi || "0"`. */
  function EmiFieldValue(e: Emi): string {
    if IsFalsy(e) then "0" else EmiText(e)
  }

  /** The field shows the fallback "0" exactly when one of the three inputs is not a
      number; a computed EMI of zero shows as "0.00". */
  lemma EmiFieldFallback(amount: Option<real>, rate: Option<real>, tenure: Option<int>)
    ensures EmiFieldValue(CalculateEmi(amount, rate, tenure)) == "0"
        <==> amount.None? || rate.None? || tenure.None?
  {
    var e := CalculateEmi(amount, rate, tenure);
    if !e.Zero? {
      assert |EmiText(e)| >= 3;
    }
  }
}
