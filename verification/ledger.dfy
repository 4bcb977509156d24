/** The normalised ledger every dialect parser produces: one `Transaction`
    per statement line and one `BankStatement` per file. Amounts are exact
    reals. */
module Ledger {
  import opened Text
  import opened Wrappers

  datatype Transaction = Transaction(
    date: String,
    description: String,
    counterparty: String,
    reference: String,
    invoiceNumber: Option<String>,
    debit: real,
    credit: real,
    currency: String,
    category: String)

  datatype BankStatement = BankStatement(
    bankName: String,
    accountHolder: String,
    iban: String,
    currency: String,
    openingBalance: real,
    closingBalance: real,
    totalDebit: real,
    totalCredit: real,
    transactions: seq<Transaction>)

  /** Why a file is rejected as a whole; no partial statement goes with it. */
  datatype ParseError =
    | TooFewLines   // 'Invalid OBB file format - too few lines'
    | InvalidXml    // 'Invalid XML format'

  /** Sum of the debits, accumulated from the first transaction on. */
  function SumDebit(ts: seq<Transaction>): real {
    if |ts| == 0 then 0.0 else SumDebit(ts[..|ts| - 1]) + ts[|ts| - 1].debit
  }

  function SumCredit(ts: seq<Transaction>): real {
    if |ts| == 0 then 0.0 else SumCredit(ts[..|ts| - 1]) + ts[|ts| - 1].credit
  }

  /** Appending a transaction adds its amounts to both sums. */
  lemma SumsSnoc(ts: seq<Transaction>, t: Transaction)
    ensures SumDebit(ts + [t]) == SumDebit(ts) + t.debit
    ensures SumCredit(ts + [t]) == SumCredit(ts) + t.credit
  {
    assert (ts + [t])[..|ts|] == ts;
  }

  /** The amount on one side: credit for the credit side, debit otherwise. */
  function SideAmount(t: Transaction, isCredit: bool): real {
    if isCredit then t.credit else t.debit
  }

  function SumSide(ts: seq<Transaction>, isCredit: bool): (r: real)
    ensures r == if isCredit then SumCredit(ts) else SumDebit(ts)
  {
    if |ts| == 0 then 0.0 else SumSide(ts[..|ts| - 1], isCredit) + SideAmount(ts[|ts| - 1], isCredit)
  }

  lemma {:induction false} SumSideAppend(a: seq<Transaction>, b: seq<Transaction>, isCredit: bool)
    ensures SumSide(a + b, isCredit) == SumSide(a, isCredit) + SumSide(b, isCredit)
    decreases |b|
  {
    if |b| > 0 {
      assert (a + b)[..|a + b| - 1] == a + b[..|b| - 1];
      SumSideAppend(a, b[..|b| - 1], isCredit);
    } else {
      assert a + b == a;
    }
  }
}
