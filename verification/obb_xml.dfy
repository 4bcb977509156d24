/** The OBB XML statement (src/parsers/obbXmlParser.ts). The XML document is
    given as the text content of the elements the parser queries, already
    extracted; `None` stands for an element that is absent. Opening and
    closing balances are read as they stand, each `TRANSACTION` becomes one
    transaction, and the currency is "sticky": it starts as `BGN` and is
    replaced whenever a remark starts with a currency code. */
module ObbXml {
  import opened Wrappers
  import opened Text
  import opened Numbers
  import opened Ledger
  import opened Categories
  import opened Dates

  const BankName := "ОББ Банка"
  const AccountHolder := "ALADIN FOODS"
  const DefaultCurrency := "BGN"

  /** One `TRANSACTION` element: the text of its children. */
  datatype Record = Record(
    postDate: Option<String>,
    amountC: Option<String>,
    amountD: Option<String>,
    trName: Option<String>,
    nameR: Option<String>,
    remI: Option<String>,
    remII: Option<String>,
    reference: Option<String>)

  /** What the parser reads from an OBB XML document. `malformed` is set
      when the XML parser reports an error. */
  datatype Document = Document(
    malformed: bool,
    ibanS: Option<String>,
    openBalance: Option<String>,
    closeBalance: Option<String>,
    records: seq<Record>)

  // Amounts, dates and text

  /** `parseAmount`: blank is 0; otherwise every `,` (a thousands
      separator) and every whitespace character is removed from the trimmed
      text, which is read by `parseFloat`, 0 when unreadable. */
  function ParseAmount(s: String): (r: real)
    ensures Trim(s) == "" ==> r == 0.0
  {
    if Trim(s) == "" then 0.0 else NumberOrZero(RemoveWhitespace(RemoveChar(Trim(s), ',')))
  }

  /** A balance read from an element whose missing or empty text counts as
      `0` (`textContent || '0'`). */
  function AmountOf(text: Option<String>): real {
    ParseAmount(OrElse(text.GetOr(""), "0"))
  }

  /** Thousands separated by a comma and a decimal point: `1,236.31` reads
      as 1236.31. */
  lemma ThousandsAmount(a: String, b: String, c: String)
    requires |a| > 0 && AllDigits(a) && AllDigits(b) && AllDigits(c)
    ensures ParseAmount(a + "," + b + "." + c) == NatValue(a + b) as real + NatValue(c) as real / Pow10(|c|) as real
  {
    ThousandsNotBlank(a, b, c);
    ThousandsCommaRemoved(a, b, c);
    assert AllDigits(a + b) by {
      forall i | 0 <= i < |a + b| ensures IsDigit((a + b)[i]) {
        if i >= |a| {
          assert (a + b)[i] == b[i - |a|];
        }
      }
    }
    DecimalValue(a + b, c, "");
    assert a + b + "." + c + "" == a + b + "." + c;
  }

  /** Grouped digits start with a digit and end with a digit or the point:
      nothing to trim. */
  lemma ThousandsNotBlank(a: String, b: String, c: String)
    requires |a| > 0 && AllDigits(a) && AllDigits(c)
    ensures Trim(a + "," + b + "." + c) == a + "," + b + "." + c != ""
  {
    var s := a + "," + b + "." + c;
    assert !IsWhitespace(s[0]) by {
      assert s[0] == a[0];
      assert IsDigit(a[0]);
    }
    assert !IsWhitespace(s[|s| - 1]) by {
      if |c| > 0 {
        assert s[|s| - 1] == c[|c| - 1];
        assert IsDigit(c[|c| - 1]);
      } else {
        assert s[|s| - 1] == '.';
      }
    }
  }

  /** Removing the separator joins the digit groups, and what is left has
      no whitespace to remove. */
  lemma ThousandsCommaRemoved(a: String, b: String, c: String)
    requires AllDigits(a) && AllDigits(b) && AllDigits(c)
    ensures RemoveWhitespace(RemoveChar(a + "," + b + "." + c, ',')) == a + b + "." + c
  {
    DigitsHaveNoComma(a);
    DigitsHaveNoComma(b);
    DigitsHaveNoComma(c);
    ThousandsCommaDropped(a, b, c);
    DecimalKeepsSpacing(a + b, c);
  }

  lemma DigitsHaveNoComma(a: String)
    requires AllDigits(a)
    ensures ',' !in a
  {
    forall i | 0 <= i < |a| ensures a[i] != ',' { assert IsDigit(a[i]); }
  }

  /** Only the separator goes when the groups hold no comma. */
  lemma ThousandsCommaDropped(a: String, b: String, c: String)
    requires ',' !in a && ',' !in b && ',' !in c
    ensures RemoveChar(a + "," + b + "." + c, ',') == a + b + "." + c
  {
    RemoveCharAppend(a + "," + b + ".", c, ',');
    RemoveCharAppend(a + "," + b, ".", ',');
    RemoveCharAppend(a + ",", b, ',');
    RemoveCharAppend(a, ",", ',');
    assert RemoveChar(",", ',') == "" by {
      assert RemoveChar(",", ',') == RemoveChar(","[1..], ',');
    }
    assert a + "" == a;
  }

  /** Digits, a point and digits hold no whitespace to remove. */
  lemma DecimalKeepsSpacing(a: String, c: String)
    requires AllDigits(a) && AllDigits(c)
    ensures RemoveWhitespace(a + "." + c) == a + "." + c
  {
    var t := a + "." + c;
    RemoveWhitespaceShape(t);
    forall i | 0 <= i < |t| ensures !IsWhitespace(t[i]) {
      if i < |a| {
        assert t[i] == a[i] && IsDigit(a[i]);
      } else if i > |a| {
        assert t[i] == c[i - |a| - 1] && IsDigit(c[i - |a| - 1]);
      }
    }
  }

  /** The example amount of an OBB XML statement. */
  lemma ThousandsAmountExample()
    ensures ParseAmount("1,236.31") == 1236.31
  {
    ThousandsAmount("1", "236", "31");
    ThousandsExampleText();
    ThousandsExampleValue();
  }

  /** The example amount, as the pieces `ThousandsAmount` takes. */
  lemma ThousandsExampleText()
    ensures "1" + "," + "236" + "." + "31" == "1,236.31"
  {
    assert "1" + "," == "1,";
    assert "1," + "236" == "1,236";
    assert "1,236" + "." == "1,236.";
    assert "1,236." + "31" == "1,236.31";
  }

  /** The digit strings of the example and their value. */
  lemma ThousandsExampleValue()
    ensures NatValue("1" + "236") as real + NatValue("31") as real / Pow10(|"31"|) as real == 1236.31
  {
    assert "1" + "236" == "1236";
    assert NatValue("1236") == 1236 by {
      assert "1236"[..3] == "123" && "123"[..2] == "12" && "12"[..1] == "1" && "1"[..0] == "";
    }
    assert NatValue("31") == 31 by {
      assert "31"[..1] == "3" && "3"[..0] == "";
    }
    assert Pow10(|"31"|) == 100;
  }

  /** `parseDate`: the trimmed text, with `DD/MM/YYYY` turned into
      `YYYY-MM-DD`. */
  function ParseDate(s: String): String {
    ReorderTrimmed(s, '/')
  }

  /** `cleanText`: a missing or empty text is `''`, anything else trimmed. */
  function CleanText(text: Option<String>): (r: String)
    ensures text.None? ==> r == ""
    ensures text.Some? ==> r == Trim(text.value)
  {
    if text.None? || text.value == "" then "" else Trim(text.value)
  }

  // Categories

  const PosWords: seq<String> := ["картова транзакция", "pos"]
  const DatexWords: seq<String> := ["датекс", "datex"]
  const IncomeWords: seq<String> := ["превод", "бисера", "вноска"]
  const FxWords: seq<String> := ["валутна търговия", "fx"]
  const FeeWords: seq<String> := ["такса", "комисион"]
  const TransferWords: seq<String> := ["превод", "изходящ", "сепа"]

  /** `categorizeOBB`: rules tried in order on the lower-cased transaction
      name and counterparty; each direction has its own rules and a default. */
  function Categorize(trName: String, nameR: String, isCredit: bool): (tag: String)
    ensures isCredit ==> tag in {PosIncome, DatexIncome, OtherIncome, FxIncome}
    ensures !isCredit ==> tag in {Fees, Transfers, FxExpense, OtherExpense}
  {
    var desc := ToLower(trName + " " + nameR);
    if isCredit then
      if HasAny(desc, PosWords) then PosIncome
      else if HasAny(desc, DatexWords) then DatexIncome
      else if HasAny(desc, IncomeWords) then OtherIncome
      else if HasAny(desc, FxWords) then FxIncome
      else OtherIncome
    else
      if HasAny(desc, FeeWords) then Fees
      else if HasAny(desc, TransferWords) then Transfers
      else if HasAny(desc, FxWords) then FxExpense
      else OtherExpense
  }

  /** Which rule decides: a tag is given exactly when its test succeeds
      and no earlier rule of the same direction did; in particular a
      foreign-exchange credit is `fx_income` only when no card, Datex or
      transfer keyword occurs. */
  lemma CategorizeRules(trName: String, nameR: String, isCredit: bool)
    ensures var tag := Categorize(trName, nameR, isCredit);
      var desc := ToLower(trName + " " + nameR);
      (tag == PosIncome <==> isCredit && HasAny(desc, PosWords)) &&
      (tag == DatexIncome <==> isCredit && !HasAny(desc, PosWords) && HasAny(desc, DatexWords)) &&
      (tag == FxIncome <==> isCredit && !HasAny(desc, PosWords) && !HasAny(desc, DatexWords) &&
                            !HasAny(desc, IncomeWords) && HasAny(desc, FxWords)) &&
      (tag == OtherIncome <==> isCredit && !HasAny(desc, PosWords) && !HasAny(desc, DatexWords) &&
                               (HasAny(desc, IncomeWords) || !HasAny(desc, FxWords))) &&
      (tag == Fees <==> !isCredit && HasAny(desc, FeeWords)) &&
      (tag == Transfers <==> !isCredit && !HasAny(desc, FeeWords) && HasAny(desc, TransferWords)) &&
      (tag == FxExpense <==> !isCredit && !HasAny(desc, FeeWords) && !HasAny(desc, TransferWords) &&
                             HasAny(desc, FxWords))
  {
  }

  // The sticky currency

  /** `remII.match(/^(BGN|EUR|USD)/i)`, upper-cased: the currency code a
      remark starts with, in any letter case. */
  function CurrencyPrefix(remark: String): (code: Option<String>)
    ensures code.Some? ==> code.value in {"BGN", "EUR", "USD"} && |remark| >= 3
    ensures |remark| < 3 ==> code.None?
  {
    if |remark| >= 3 && ToUpperAscii(remark[..3]) in {"BGN", "EUR", "USD"} then Some(ToUpperAscii(remark[..3]))
    else None
  }

  /** The currency after one transaction: replaced when its (non-empty)
      remark starts with a code, kept otherwise. */
  function NextCurrency(currency: String, remark: String): (r: String)
    ensures CurrencyPrefix(remark).Some? ==> r == CurrencyPrefix(remark).value
    ensures CurrencyPrefix(remark).None? ==> r == currency
  {
    if remark != "" then
      match CurrencyPrefix(remark)
      case Some(code) => code
      case None => currency
    else currency
  }

  /** The currency after the given remarks, starting from `BGN`. */
  function CurrencyAfter(remarks: seq<String>): (r: String)
    ensures r in {"BGN", "EUR", "USD"}
  {
    if |remarks| == 0 then DefaultCurrency
    else NextCurrency(CurrencyAfter(remarks[..|remarks| - 1]), remarks[|remarks| - 1])
  }

  /** The currency is the code of the last remark that starts with one. */
  lemma {:induction false} CurrencyIsLastCode(remarks: seq<String>, k: nat)
    requires k < |remarks| && CurrencyPrefix(remarks[k]).Some?
    requires forall j :: k < j < |remarks| ==> CurrencyPrefix(remarks[j]).None?
    ensures CurrencyAfter(remarks) == CurrencyPrefix(remarks[k]).value
    decreases |remarks|
  {
    if k < |remarks| - 1 {
      var front := remarks[..|remarks| - 1];
      assert front[k] == remarks[k];
      CurrencyIsLastCode(front, k);
    }
  }

  /** Without any remark starting with a code the currency stays `BGN`. */
  lemma {:induction false} CurrencyDefault(remarks: seq<String>)
    requires forall j :: 0 <= j < |remarks| ==> CurrencyPrefix(remarks[j]).None?
    ensures CurrencyAfter(remarks) == DefaultCurrency
  {
    if |remarks| > 0 {
      var front := remarks[..|remarks| - 1];
      assert forall j :: 0 <= j < |front| ==> front[j] == remarks[j];
      CurrencyDefault(front);
    }
  }

  // Transactions

  /** The transaction of one record, in the given currency. */
  function RecordTx(r: Record, currency: String): Transaction {
    var credit := ParseAmount(CleanText(r.amountC));
    var debit := ParseAmount(CleanText(r.amountD));
    var trName := CleanText(r.trName);
    var nameR := CleanText(r.nameR);
    var remI := CleanText(r.remI);
    var remII := CleanText(r.remII);
    Transaction(
      ParseDate(CleanText(r.postDate)),
      OrElse(trName, "N/A"),
      OrElse(OrElse(nameR, remII), ""),
      OrElse(CleanText(r.reference), ""),
      if remI != "" then Some(remI) else None,
      debit,
      credit,
      currency,
      Categorize(trName, nameR, credit > 0.0))
  }

  /** Both amounts are stored as read; the direction used to categorise is
      "the credit is positive"; the counterparty is `NAME_R`, else `REM_II`;
      the description is `TR_NAME`, else `N/A`; the invoice is `REM_I` when
      present. */
  lemma RecordFields(r: Record, currency: String)
    ensures var t := RecordTx(r, currency);
      t.credit == ParseAmount(CleanText(r.amountC)) && t.debit == ParseAmount(CleanText(r.amountD)) &&
      t.currency == currency &&
      (t.credit > 0.0 ==> t.category in {PosIncome, DatexIncome, OtherIncome, FxIncome}) &&
      (t.credit <= 0.0 ==> t.category in {Fees, Transfers, FxExpense, OtherExpense}) &&
      (CleanText(r.nameR) != "" ==> t.counterparty == CleanText(r.nameR)) &&
      (CleanText(r.nameR) == "" ==> t.counterparty == CleanText(r.remII)) &&
      (CleanText(r.trName) != "" ==> t.description == CleanText(r.trName)) &&
      (CleanText(r.trName) == "" ==> t.description == "N/A") &&
      (t.invoiceNumber.None? <==> CleanText(r.remI) == "")
  {
    var t := RecordTx(r, currency);
    assert t.category == Categorize(CleanText(r.trName), CleanText(r.nameR), t.credit > 0.0);
  }

  /** The transactions of the records, in document order, each read in the
      default currency until its actual one is known. */
  function Converted(records: seq<Record>): (ts: seq<Transaction>)
    ensures |ts| == |records|
  {
    seq(|records|, i requires 0 <= i < |records| => RecordTx(records[i], DefaultCurrency))
  }

  /** The cleaned `REM_II` of every record. */
  function Remarks(records: seq<Record>): (rs: seq<String>)
    ensures |rs| == |records|
  {
    seq(|records|, i requires 0 <= i < |records| => CleanText(records[i].remII))
  }

  /** Each transaction given the currency in force after its own remark. */
  function Stamp(txs: seq<Transaction>, remarks: seq<String>): (r: seq<Transaction>)
    requires |txs| == |remarks|
    ensures |r| == |txs|
  {
    if |txs| == 0 then []
    else
      Stamp(txs[..|txs| - 1], remarks[..|remarks| - 1]) +
      [txs[|txs| - 1].(currency := CurrencyAfter(remarks))]
  }

  /** Stamping changes only the currency of each transaction. */
  lemma {:induction false} StampAt(txs: seq<Transaction>, remarks: seq<String>, i: nat)
    requires |txs| == |remarks| && i < |txs|
    ensures Stamp(txs, remarks)[i] == txs[i].(currency := CurrencyAfter(remarks[..i + 1]))
    decreases |txs|
  {
    if i < |txs| - 1 {
      StampAt(txs[..|txs| - 1], remarks[..|remarks| - 1], i);
      assert remarks[..|remarks| - 1][..i + 1] == remarks[..i + 1];
    } else {
      assert remarks[..i + 1] == remarks;
    }
  }

  /** Giving a transaction its currency changes nothing else. */
  lemma RecordTxCurrency(r: Record, currency: String)
    ensures RecordTx(r, DefaultCurrency).(currency := currency) == RecordTx(r, currency)
  {
  }

  // The statement

  /** The statement of a well-formed document with transactions `txs` and
      final currency `currency`. */
  function StatementOf(doc: Document, txs: seq<Transaction>, currency: String): BankStatement {
    BankStatement(BankName, AccountHolder, CleanText(doc.ibanS), currency,
                  AmountOf(doc.openBalance), AmountOf(doc.closeBalance),
                  SumDebit(txs), SumCredit(txs), txs)
  }

  /** The statement of a document. */
  function Statement(doc: Document): Result<BankStatement, ParseError> {
    if doc.malformed then Err(InvalidXml)
    else
      var remarks := Remarks(doc.records);
      Ok(StatementOf(doc, Stamp(Converted(doc.records), remarks), CurrencyAfter(remarks)))
  }

  /** The loop invariant of the `forEach`: the transactions so far with
      their currencies, the currency in force, and running totals. */
  ghost predicate Tallied(converted: seq<Transaction>, remarks: seq<String>, i: nat,
                          transactions: seq<Transaction>, currency: String, totalDebit: real, totalCredit: real)
    requires |converted| == |remarks| && i <= |converted|
  {
    transactions == Stamp(converted[..i], remarks[..i]) &&
    currency == CurrencyAfter(remarks[..i]) &&
    totalDebit == SumDebit(transactions) && totalCredit == SumCredit(transactions)
  }

  lemma TalliedSnoc(converted: seq<Transaction>, remarks: seq<String>, i: nat,
                    transactions: seq<Transaction>, currency: String, totalDebit: real, totalCredit: real)
    requires |converted| == |remarks| && i < |converted|
    requires Tallied(converted, remarks, i, transactions, currency, totalDebit, totalCredit)
    ensures var c := NextCurrency(currency, remarks[i]);
      var t := converted[i].(currency := c);
      Tallied(converted, remarks, i + 1, transactions + [t], c, totalDebit + t.debit, totalCredit + t.credit)
  {
    var c := NextCurrency(currency, remarks[i]);
    var t := converted[i].(currency := c);
    assert remarks[..i + 1][..i] == remarks[..i];
    assert converted[..i + 1][..i] == converted[..i];
    assert remarks[..i + 1][i] == remarks[i];
    assert converted[..i + 1][i] == converted[i];
    SumsSnoc(transactions, t);
  }

  /** The `forEach` over the transactions: the currency updated from each
      remark, the transaction appended with it, the totals accumulated. */
  method CollectTransactions(converted: seq<Transaction>, remarks: seq<String>)
    returns (transactions: seq<Transaction>, currency: String, totalDebit: real, totalCredit: real)
    requires |converted| == |remarks|
    ensures transactions == Stamp(converted, remarks)
    ensures currency == CurrencyAfter(remarks)
    ensures totalDebit == SumDebit(transactions) && totalCredit == SumCredit(transactions)
  {
    transactions := [];
    currency := DefaultCurrency;
    totalDebit, totalCredit := 0.0, 0.0;
    for i := 0 to |converted|
      invariant Tallied(converted, remarks, i, transactions, currency, totalDebit, totalCredit)
    {
      TalliedSnoc(converted, remarks, i, transactions, currency, totalDebit, totalCredit);
      var remII := remarks[i];
      if remII != "" {
        match CurrencyPrefix(remII) {
          case Some(code) => currency := code;
          case None =>
        }
      }
      var t := converted[i].(currency := currency);
      totalDebit := totalDebit + t.debit;
      totalCredit := totalCredit + t.credit;
      transactions := transactions + [t];
    }
    assert converted[..|converted|] == converted && remarks[..|remarks|] == remarks;
  }

  /** `parseOBBXML`. */
  method ParseObbXml(doc: Document) returns (r: Result<BankStatement, ParseError>)
    ensures r == Statement(doc)
  {
    if doc.malformed {
      return Err(InvalidXml);
    }
    var iban := OrElse(CleanText(doc.ibanS), "");
    var openingBalance := AmountOf(doc.openBalance);
    var closingBalance := AmountOf(doc.closeBalance);
    var transactions, currency, totalDebit, totalCredit :=
      CollectTransactions(Converted(doc.records), Remarks(doc.records));
    r := Ok(BankStatement(BankName, AccountHolder, iban, currency, openingBalance, closingBalance,
                          totalDebit, totalCredit, transactions));
  }

  // Properties of the statement

  /** A malformed document is rejected, and only a malformed one. */
  lemma MalformedRejected(doc: Document)
    ensures Statement(doc).Err? <==> doc.malformed
  {
  }

  /** One transaction per record, in document order, with the currency in
      force after that record's remark; the totals are the sums of the
      debits and credits. */
  lemma TransactionsOfRecords(doc: Document, i: nat)
    requires !doc.malformed && i < |doc.records|
    ensures var s := Statement(doc).value;
      |s.transactions| == |doc.records| &&
      s.transactions[i] == RecordTx(doc.records[i], CurrencyAfter(Remarks(doc.records)[..i + 1])) &&
      s.totalDebit == SumDebit(s.transactions) && s.totalCredit == SumCredit(s.transactions)
  {
    var remarks := Remarks(doc.records);
    var converted := Converted(doc.records);
    StampAt(converted, remarks, i);
    RecordTxCurrency(doc.records[i], CurrencyAfter(remarks[..i + 1]));
  }

  /** The statement currency is the one in force after the last record:
      that of the last transaction, or `BGN` when there is none. */
  lemma StatementCurrency(doc: Document)
    requires !doc.malformed
    ensures var s := Statement(doc).value;
      s.currency == CurrencyAfter(Remarks(doc.records)) &&
      (|s.transactions| == 0 ==> s.currency == DefaultCurrency) &&
      (|s.transactions| > 0 ==> s.currency == s.transactions[|s.transactions| - 1].currency)
  {
    StampLast(Converted(doc.records), Remarks(doc.records));
  }

  /** The last stamped transaction carries the currency in force after all
      the remarks. */
  lemma StampLast(txs: seq<Transaction>, remarks: seq<String>)
    requires |txs| == |remarks|
    ensures |txs| > 0 ==> Stamp(txs, remarks)[|txs| - 1].currency == CurrencyAfter(remarks)
  {
    if |txs| > 0 {
      StampAt(txs, remarks, |txs| - 1);
      assert remarks[..|txs|] == remarks;
    }
  }

  /** Opening and closing balances are read from the document and never
      recomputed: the records do not affect them. */
  lemma BalancesAsRead(doc: Document, records: seq<Record>)
    requires !doc.malformed
    ensures var s := Statement(doc).value; var s' := Statement(doc.(records := records)).value;
      s.openingBalance == AmountOf(doc.openBalance) && s.closingBalance == AmountOf(doc.closeBalance) &&
      s'.openingBalance == s.openingBalance && s'.closingBalance == s.closingBalance
  {
  }
}
