/** The stand-alone loan entry form (src/components/LoanManagement.js): an input that
    only takes digits with at most one decimal point, and a list of the amounts added,
    each kept as its `toFixed(2)` text. */
module LoanManagement {
  import opened Wrappers
  import opened EmiCalculator

  predicate IsDigit(c: char) {
    '0' <= c <= '9'
  }

  function DigitValue(c: char): nat
    requires IsDigit(c)
  {
    (c as int - '0' as int) as nat
  }

  /** `/^[0-9]*\.?[0-9]*$/.test(s)`, read as the automaton that matches it: digits, then
      at most one '.', then digits only. */
  predicate MatchesAmount(s: string)
    decreases |s|
  {
    if s == [] then true
    else if IsDigit(s[0]) then MatchesAmount(s[1..])
    else if s[0] == '.' then AllDigits(s[1..])
    else false
  }

  predicate AllDigits(s: string) {
    forall i :: 0 <= i < |s| ==> IsDigit(s[i])
  }

  /** The number of '.' in `s`. */
  function DotCount(s: string): nat
    decreases |s|
  {
    if s == [] then 0 else (if s[0] == '.' then 1 else 0) + DotCount(s[1..])
  }

  lemma {:induction false} DotCountOfDigits(s: string)
    requires AllDigits(s)
    ensures DotCount(s) == 0
    decreases |s|
  {
    if s != [] {
      DotCountOfDigits(s[1..]);
    }
  }

  lemma {:induction false} NoDotsAreDigits(s: string)
    requires forall i :: 0 <= i < |s| ==> IsDigit(s[i]) || s[i] == '.'
    requires DotCount(s) == 0
    ensures AllDigits(s)
    decreases |s|
  {
    if s != [] {
      NoDotsAreDigits(s[1..]);
    }
  }

  /** The pattern accepts exactly the strings made of digits and '.' with at most one '.'. */
  lemma {:induction false} MatchesAmountIff(s: string)
    ensures MatchesAmount(s) <==>
      (forall i :: 0 <= i < |s| ==> IsDigit(s[i]) || s[i] == '.') && DotCount(s) <= 1
    decreases |s|
  {
    if s != [] {
      MatchesAmountIff(s[1..]);
      if s[0] == '.' {
        if AllDigits(s[1..]) {
          DotCountOfDigits(s[1..]);
        }
        if (forall i :: 0 <= i < |s| ==> IsDigit(s[i]) || s[i] == '.') && DotCount(s) <= 1 {
          NoDotsAreDigits(s[1..]);
        }
      }
    }
  }

  /** Where the decimal point is, or |s| when there is none. */
  function DotIndex(s: string): (k: nat)
    ensures k <= |s|
    ensures forall i :: 0 <= i < k ==> s[i] != '.'
    ensures k < |s| ==> s[k] == '.'
    decreases |s|
  {
    if s == [] then 0 else if s[0] == '.' then 0 else 1 + DotIndex(s[1..])
  }

  /** The digits before the point and the digits after it. */
  lemma {:induction false} MatchesAmountSplit(s: string)
    requires MatchesAmount(s)
    ensures AllDigits(s[..DotIndex(s)])
    ensures DotIndex(s) < |s| ==> AllDigits(s[DotIndex(s) + 1..])
    decreases |s|
  {
    if s != [] && IsDigit(s[0]) {
      MatchesAmountSplit(s[1..]);
      assert s[..DotIndex(s)] == [s[0]] + s[1..][..DotIndex(s[1..])];
      assert DotIndex(s) < |s| ==> s[DotIndex(s) + 1..] == s[1..][DotIndex(s[1..]) + 1..];
    }
  }

  /** The value of a run of digits, most significant first. */
  function WholeValue(d: string): nat
    requires AllDigits(d)
    decreases |d|
  {
    if d == [] then 0 else WholeValue(d[..|d| - 1]) * 10 + DigitValue(d[|d| - 1])
  }

  /** The value of the digits after a decimal point. */
  function FractionValue(d: string): (v: real)
    requires AllDigits(d)
    ensures 0.0 <= v < 1.0
    decreases |d|
  {
    if d == [] then 0.0 else (DigitValue(d[0]) as real + FractionValue(d[1..])) / 10.0
  }

  /** The digits before the decimal point. */
  function WholePart(s: string): string {
    s[..DotIndex(s)]
  }

  /** The digits after the decimal point, if there is one. */
  function FractionPart(s: string): string {
    if DotIndex(s) < |s| then s[DotIndex(s) + 1..] else ""
  }

  /** An accepted string is its whole part, then possibly a point, then its fraction
      part, both made of digits. */
  lemma SplitParts(s: string)
    requires MatchesAmount(s)
    ensures AllDigits(WholePart(s)) && AllDigits(FractionPart(s))
    ensures forall i :: 0 <= i < |WholePart(s)| ==> s[i] == WholePart(s)[i]
    ensures forall i :: 0 <= i < |FractionPart(s)| ==> s[|WholePart(s)| + 1 + i] == FractionPart(s)[i]
    ensures |s| == |WholePart(s)| || (s[|WholePart(s)|] == '.' && |s| == |WholePart(s)| + 1 + |FractionPart(s)|)
  {
    MatchesAmountSplit(s);
  }

  /** `parseFloat(s)` on a string the pattern accepts: NaN (None) when it has no digit
      at all ("" or "."), and otherwise the decimal number it spells. */
  function ParseAmount(s: string): (r: Option<real>)
    requires MatchesAmount(s)
  {
    SplitParts(s);
    var whole, fraction := WholePart(s), FractionPart(s);
    if whole == [] && fraction == [] then None
    else Some(WholeValue(whole) as real + FractionValue(fraction))
  }

  predicate AllZeros(d: string) {
    forall i :: 0 <= i < |d| ==> d[i] == '0'
  }

  lemma {:induction false} WholeValueZero(d: string)
    requires AllDigits(d)
    ensures WholeValue(d) == 0 <==> AllZeros(d)
    decreases |d|
  {
    if d != [] {
      WholeValueZero(d[..|d| - 1]);
      assert forall i :: 0 <= i < |d| - 1 ==> d[..|d| - 1][i] == d[i];
    }
  }

  lemma {:induction false} FractionValueZero(d: string)
    requires AllDigits(d)
    ensures FractionValue(d) == 0.0 <==> AllZeros(d)
    decreases |d|
  {
    if d != [] {
      FractionValueZero(d[1..]);
      assert forall i :: 1 <= i < |d| ==> d[1..][i - 1] == d[i];
    }
  }

  /** A parsed amount is NaN exactly when the input has no digit. */
  lemma ParseAmountNaN(s: string)
    requires MatchesAmount(s)
    ensures ParseAmount(s).None? <==> forall i :: 0 <= i < |s| ==> s[i] == '.'
  {
    SplitParts(s);
    assert |WholePart(s)| > 0 ==> IsDigit(s[0]);
    assert |FractionPart(s)| > 0 ==> IsDigit(s[|WholePart(s)| + 1]);
  }

  /** A parsed amount is never negative, and it is 0 exactly when every digit of the
      input is '0'. */
  lemma ParseAmountSign(s: string)
    requires MatchesAmount(s)
    ensures ParseAmount(s).Some? ==> ParseAmount(s).value >= 0.0
    ensures ParseAmount(s).Some? ==>
      (ParseAmount(s).value == 0.0 <==> forall i :: 0 <= i < |s| ==> s[i] == '0' || s[i] == '.')
  {
    SplitParts(s);
    var whole, fraction := WholePart(s), FractionPart(s);
    WholeValueZero(whole);
    FractionValueZero(fraction);
    if AllZeros(whole) && AllZeros(fraction) {
      forall i | 0 <= i < |s|
        ensures s[i] == '0' || s[i] == '.'
      {
        if i < |whole| {
          assert s[i] == whole[i];
        } else if i > |whole| {
          assert s[|whole| + 1 + (i - |whole| - 1)] == fraction[i - |whole| - 1];
        }
      }
    }
    if forall i :: 0 <= i < |s| ==> s[i] == '0' || s[i] == '.' {
      assert forall i :: 0 <= i < |whole| ==> whole[i] == s[i];
      assert forall i :: 0 <= i < |fraction| ==> fraction[i] == s[|whole| + 1 + i];
    }
  }

  /** What "Add Loan" does with the current input. */
  datatype AddOutcome =
    | Rejected
    | Added(entry: Emi)

  /** `handleAddLoan` as written: only `parsedAmount <= 0` is rejected, and NaN is not
      `<= 0`, so an empty input adds the entry "NaN". */
  function AddLoanOutcomeAsWritten(input: string): AddOutcome
    requires MatchesAmount(input)
  {
    var parsed := ParseAmount(input);
    if parsed.Some? && parsed.value <= 0.0 then Rejected
    else if parsed.None? then Added(NotANumber)
    else Added(ToFixed2(parsed.value))
  }

  lemma EmptyInputAddsNaN()
    ensures MatchesAmount("") && MatchesAmount(".")
    ensures AddLoanOutcomeAsWritten("") == Added(NotANumber)
    ensures AddLoanOutcomeAsWritten(".") == Added(NotANumber)
  {
    assert DotIndex(".") == 0;
  }

  /** `handleAddLoan` as evidently intended ("a valid number and greater than 0"):
      NaN is rejected as well. */
  function AddLoanOutcome(input: string): AddOutcome
    requires MatchesAmount(input)
  {
    var parsed := ParseAmount(input);
    if parsed.None? || parsed.value <= 0.0 then Rejected
    else Added(ToFixed2(parsed.value))
  }

  /** With the intended test, every entry added is a non-negative amount in paise within
      half a paisa of the input, and an input is rejected exactly when it has no digit
      other than '0'. */
  lemma AddLoanOutcomeSpec(input: string)
    requires MatchesAmount(input)
    ensures AddLoanOutcome(input).Added? ==>
      var e := AddLoanOutcome(input).entry;
      e.Fixed? && !e.negative &&
      -1.0 / 200.0 <= FixedValue(e) - ParseAmount(input).value <= 1.0 / 200.0
    ensures AddLoanOutcome(input).Rejected? <==> forall i :: 0 <= i < |input| ==> input[i] == '0' || input[i] == '.'
    ensures AddLoanOutcome(input) != AddLoanOutcomeAsWritten(input) <==> ParseAmount(input).None?
  {
    ParseAmountSign(input);
    ParseAmountNaN(input);
  }

  /** The form's state. */
  class LoanManager {
    var loanAmount: string
    var loans: seq<Emi>
    var error: string

    /** The input only ever holds text the pattern accepts. */
    predicate Valid()
      reads this
    {
      MatchesAmount(loanAmount)
    }

    constructor ()
      ensures Valid() && loanAmount == "" && loans == [] && error == ""
    {
      loanAmount := "";
      loans := [];
      error := "";
    }

    /** `handleInputChange`: the new text is taken only when the pattern accepts it. */
    method HandleInputChange(value: string)
      requires Valid()
      modifies this
      ensures Valid()
      ensures loanAmount == if MatchesAmount(value) then value else old(loanAmount)
      ensures loans == old(loans) && error == old(error)
    {
      if MatchesAmount(value) {
        loanAmount := value;
      }
    }

    /** `handleAddLoan`, with the corrected test: a rejected input sets the error and
        keeps everything else; an accepted one appends its entry and clears the input
        and the error. The list only ever grows by one entry. */
    method HandleAddLoan()
      requires Valid()
      modifies this
      ensures Valid()
      ensures AddLoanOutcome(old(loanAmount)).Rejected? ==>
        error == "Please enter a valid loan amount" && loans == old(loans) && loanAmount == old(loanAmount)
      ensures AddLoanOutcome(old(loanAmount)).Added? ==>
        loans == old(loans) + [AddLoanOutcome(old(loanAmount)).entry] && loanAmount == "" && error == ""
    {
      var outcome := AddLoanOutcome(loanAmount);
      match outcome
      case Rejected =>
        error := "Please enter a valid loan amount";
      case Added(entry) =>
        loans := loans + [entry];
        loanAmount := "";
        error := "";
    }
  }
}
