/** The daily-payments chart of src/pages/PaymentTracking.js: the amounts of the last
    30 days' transactions, added up per day. */
module PaymentTracking {

  /** A transaction: its date as milliseconds since the epoch, and its amount. */
  datatype Transaction = Transaction(transactionDate: int, amount: real)

  const MsPerDay: int := 1000 * 60 * 60 * 24

  /** The number of slots: one per day, today first. */
  const Days: int := 30

  /** `Math.floor((today - date) / (1000 * 60 * 60 * 24))`, `today` and `date` in
      milliseconds. */
  function DiffDays(today: int, date: int): (d: int)
    ensures d * MsPerDay <= today - date < (d + 1) * MsPerDay
  {
    (today - date) / MsPerDay
  }

  /** `Array(30).fill(0)`. */
  function Zeros(n: nat): (r: seq<real>)
    ensures |r| == n && forall k :: 0 <= k < n ==> r[k] == 0.0
  {
    seq(n, _ => 0.0)
  }

  /** One step of the `forEach`: the transaction's amount is added to slot `diffDays`
      when that is a day of the last 30, and ignored otherwise. */
  function AddTransaction(slots: seq<real>, t: Transaction, today: int): (r: seq<real>)
    requires |slots| == Days
    ensures |r| == Days
    ensures forall k :: 0 <= k < Days && k != DiffDays(today, t.transactionDate) ==> r[k] == slots[k]
  {
    var d := DiffDays(today, t.transactionDate);
    if 0 <= d < Days then slots[d := slots[d] + t.amount] else slots
  }

  /** The slots after the first `|txs|` transactions. */
  function Buckets(txs: seq<Transaction>, today: int): (r: seq<real>)
    ensures |r| == Days
    decreases |txs|
  {
    if txs == [] then Zeros(Days)
    else AddTransaction(Buckets(txs[..|txs| - 1], today), txs[|txs| - 1], today)
  }

  /** `generateDailyPayments()`: a fresh array of 30 slots, filled in one pass. */
  method GenerateDailyPayments(transactions: seq<Transaction>, today: int) returns (payments: array<real>)
    ensures payments.Length == Days
    ensures payments[..] == Buckets(transactions, today)
  {
    payments := new real[Days](_ => 0.0);
    var i := 0;
    while i < |transactions|
      invariant 0 <= i <= |transactions|
      invariant payments.Length == Days
      invariant payments[..] == Buckets(transactions[..i], today)
    {
      var t := transactions[i];
      var diffDays := (today - t.transactionDate) / MsPerDay;
      if diffDays >= 0 && diffDays < Days {
        payments[diffDays] := payments[diffDays] + t.amount;
      }
      assert transactions[..i + 1][..i] == transactions[..i];
      i := i + 1;
    }
    assert transactions[..i] == transactions;
  }

  /** The total of the transactions dated `k` days before today. */
  function DayTotal(txs: seq<Transaction>, today: int, k: int): real
    decreases |txs|
  {
    if txs == [] then 0.0
    else
      var t := txs[|txs| - 1];
      DayTotal(txs[..|txs| - 1], today, k) + (if DiffDays(today, t.transactionDate) == k then t.amount else 0.0)
  }

  /** The total of the transactions of the last 30 days. */
  function InRangeTotal(txs: seq<Transaction>, today: int): real
    decreases |txs|
  {
    if txs == [] then 0.0
    else
      var t := txs[|txs| - 1];
      var d := DiffDays(today, t.transactionDate);
      InRangeTotal(txs[..|txs| - 1], today) + (if 0 <= d < Days then t.amount else 0.0)
  }

  /** Slot k holds exactly the amounts of the transactions dated k days before today:
      future-dated and older transactions land nowhere. */
  lemma {:induction false} BucketIsDayTotal(txs: seq<Transaction>, today: int, k: int)
    requires 0 <= k < Days
    ensures Buckets(txs, today)[k] == DayTotal(txs, today, k)
    decreases |txs|
  {
    if txs != [] {
      BucketIsDayTotal(txs[..|txs| - 1], today, k);
    }
  }

  function Sum(s: seq<real>): real
    decreases |s|
  {
    if s == [] then 0.0 else s[0] + Sum(s[1..])
  }

  /** Adding an amount to one element adds it to the sum. */
  lemma {:induction false} SumAddAt(s: seq<real>, d: int, a: real)
    requires 0 <= d < |s|
    ensures Sum(s[d := s[d] + a]) == Sum(s) + a
    decreases |s|
  {
    if d > 0 {
      SumAddAt(s[1..], d - 1, a);
      assert s[d := s[d] + a][1..] == s[1..][d - 1 := s[1..][d - 1] + a];
    }
  }

  lemma {:induction false} SumZeros(n: nat)
    ensures Sum(Zeros(n)) == 0.0
    decreases n
  {
    if n > 0 {
      assert Zeros(n)[1..] == Zeros(n - 1);
      SumZeros(n - 1);
    }
  }

  /** Nothing is lost or counted twice: the slots add up to the total of the last 30
      days' transactions. */
  lemma {:induction false} BucketsSum(txs: seq<Transaction>, today: int)
    ensures Sum(Buckets(txs, today)) == InRangeTotal(txs, today)
    decreases |txs|
  {
    if txs == [] {
      SumZeros(Days);
    } else {
      var prefix := txs[..|txs| - 1];
      var t := txs[|txs| - 1];
      BucketsSum(prefix, today);
      var d := DiffDays(today, t.transactionDate);
      if 0 <= d < Days {
        SumAddAt(Buckets(prefix, today), d, t.amount);
      }
    }
  }
}
