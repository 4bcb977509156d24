/** The OBB pipe-delimited text statement (src/parsers/obbParser.ts): the
    first non-blank line is a header, the last one a possible `Total:`
    footer, and every line in between with at least seven `|`-fields is a
    transaction: date, time, debit, credit, description, counterparty,
    running balance, then optionally reference, additional information and
    reference id. */
module ObbText {
  import opened Wrappers
  import opened Text
  import opened Numbers
  import opened Ledger
  import opened Categories
  import opened Dates

  const BankName := "ОББ Банка"
  const AccountHolder := "ALADIN FOODS"

  const PosWords: seq<String> := ["pos", "карт"]
  const DatexWords: seq<String> := ["датекс", "datex"]
  const FeeWords: seq<String> := ["такса", "комисион"]
  const TransferWords: seq<String> := ["превод", "прехвърляне"]

  /** `categorizeOBBTxt`: the first rule whose keywords occur in the
      lower-cased text decides; each direction has its own rules and a
      default. */
  function Categorize(text: String, isCredit: bool): (tag: String)
    ensures isCredit ==> tag in {PosIncome, DatexIncome, OtherIncome}
    ensures !isCredit ==> tag in {Fees, Transfers, OtherExpense}
  {
    var desc := ToLower(text);
    if isCredit then
      if HasAny(desc, PosWords) then PosIncome
      else if HasAny(desc, DatexWords) then DatexIncome
      else OtherIncome
    else
      if HasAny(desc, FeeWords) then Fees
      else if HasAny(desc, TransferWords) then Transfers
      else OtherExpense
  }

  /** Which rule decides: a tag is given exactly when its keywords occur
      and no earlier rule of the same direction matched. */
  lemma CategorizeRules(text: String, isCredit: bool)
    ensures var tag := Categorize(text, isCredit); var desc := ToLower(text);
      (tag == PosIncome <==> isCredit && HasAny(desc, PosWords)) &&
      (tag == DatexIncome <==> isCredit && !HasAny(desc, PosWords) && HasAny(desc, DatexWords)) &&
      (tag == OtherIncome <==> isCredit && !HasAny(desc, PosWords) && !HasAny(desc, DatexWords)) &&
      (tag == Fees <==> !isCredit && HasAny(desc, FeeWords)) &&
      (tag == Transfers <==> !isCredit && !HasAny(desc, FeeWords) && HasAny(desc, TransferWords)) &&
      (tag == OtherExpense <==> !isCredit && !HasAny(desc, FeeWords) && !HasAny(desc, TransferWords))
  {
  }

  /** `parseAmount`: blank is 0; otherwise the first `,` becomes the decimal
      point and the result is read by `parseFloat`, 0 when unreadable. */
  function ParseAmount(s: String): (r: real)
    ensures Trim(s) == "" ==> r == 0.0
  {
    if Trim(s) == "" then 0.0 else NumberOrZero(ReplaceFirst(s, ',', '.'))
  }

  /** A decimal comma is read as a decimal point: `12,50` is 12.5. */
  lemma CommaDecimal(a: String, b: String)
    requires |a| > 0 && AllDigits(a) && AllDigits(b)
    ensures ParseAmount(a + "," + b) == NatValue(a) as real + NatValue(b) as real / Pow10(|b|) as real
  {
    CommaTextNotBlank(a, b);
    CommaAsPoint(a, b);
  }

  /** `parseDate`: `DD/MM/YYYY` becomes `YYYY-MM-DD`; anything that is not
      three `/`-separated parts is kept as it is, untrimmed. */
  function ParseDate(s: String): (r: String)
    ensures |Split(s, '/')| != 3 ==> r == s
  {
    Reorder(s, '/')
  }

  lemma ReorderDate(day: String, month: String, year: String)
    requires '/' !in day && '/' !in month && '/' !in year
    ensures ParseDate(day + "/" + month + "/" + year) == year + "-" + month + "-" + day
  {
    ReorderParts(day, month, year, '/');
  }

  /** Split on newlines, trim every line, drop the empty ones. */
  function NonBlankLines(pieces: seq<String>): (lines: seq<String>)
    ensures |lines| <= |pieces|
  {
    if |pieces| == 0 then []
    else
      var t := Trim(pieces[0]);
      (if t == "" then [] else [t]) + NonBlankLines(pieces[1..])
  }

  /** Every line kept is non-empty and already trimmed. */
  lemma {:induction false} NonBlankLinesTrimmed(pieces: seq<String>)
    ensures forall line :: line in NonBlankLines(pieces) ==> line != "" && Trim(line) == line
  {
    if |pieces| > 0 {
      NonBlankLinesTrimmed(pieces[1..]);
      var t := Trim(pieces[0]);
      if t != "" {
        assert Trim(t) == t;
        assert NonBlankLines(pieces) == [t] + NonBlankLines(pieces[1..]);
      }
    }
  }

  function Lines(content: String): seq<String> {
    NonBlankLines(Split(content, '\n'))
  }

  /** The parts that are not blank, untrimmed, in order. */
  function NonBlank(parts: seq<String>): (r: seq<String>)
    ensures |r| <= |parts|
  {
    if |parts| == 0 then []
    else Kept(parts[0]) + NonBlank(parts[1..])
  }

  /** The transaction text: the non-blank ones of description, counterparty
      and additional information joined by ` - `, or `N/A` when all three
      are blank. */
  function Describe(description: String, counterparty: String, info: String): String {
    OrElse(Join(NonBlank([description, counterparty, info]), " - "), "N/A")
  }

  /** A part as the filter keeps it: itself when not blank, else nothing. */
  function Kept(part: String): seq<String> {
    if Trim(part) != "" then [part] else []
  }

  /** The kept parts of a three-part list, spelled out. */
  lemma NonBlankOfThree(a: String, b: String, c: String)
    ensures NonBlank([a, b, c]) == Kept(a) + (Kept(b) + Kept(c))
  {
    assert [a, b, c][1..] == [b, c] && [b, c][1..] == [c] && [c][1..] == [];
    assert NonBlank([c]) == Kept(c) + [];
    assert Kept(c) + [] == Kept(c);
  }

  /** The first kept part is never empty, blank text being dropped. */
  lemma KeptHead(a: String, b: String, c: String)
    ensures var kept := Kept(a) + (Kept(b) + Kept(c));
      kept != [] ==> kept[0] != ""
  {
    if Trim(a) != "" {
      assert (Kept(a) + (Kept(b) + Kept(c)))[0] == a;
    } else if Trim(b) != "" {
      assert (Kept(a) + (Kept(b) + Kept(c)))[0] == b;
    } else {
      assert Kept(a) + (Kept(b) + Kept(c)) == Kept(c);
    }
  }

  /** The join of the non-blank parts is never empty when one part is kept,
      so the `N/A` fallback applies exactly when none is. */
  lemma DescribeKept(description: String, counterparty: String, info: String)
    ensures var kept := Kept(description) + (Kept(counterparty) + Kept(info));
      Describe(description, counterparty, info) == if kept == [] then "N/A" else Join(kept, " - ")
  {
    var kept := Kept(description) + (Kept(counterparty) + Kept(info));
    NonBlankOfThree(description, counterparty, info);
    if kept != [] {
      KeptHead(description, counterparty, info);
      assert Join(kept, " - ") != "" by { JoinStartsWith(kept, " - "); }
    }
  }

  /** `N/A` when all three are blank; otherwise the ` - ` join of the
      non-blank parts in their order. */
  lemma DescribeText(description: String, counterparty: String, info: String)
    ensures var r := Describe(description, counterparty, info);
      (Trim(description) == "" && Trim(counterparty) == "" && Trim(info) == "" ==> r == "N/A") &&
      (Trim(description) != "" || Trim(counterparty) != "" || Trim(info) != "" ==>
        r == Join(Kept(description) + (Kept(counterparty) + Kept(info)), " - "))
  {
    DescribeKept(description, counterparty, info);
    if Trim(description) != "" {
      assert Kept(description) == [description];
    } else if Trim(counterparty) != "" {
      assert Kept(counterparty) == [counterparty];
    } else if Trim(info) != "" {
      assert Kept(info) == [info];
    } else {
      assert Kept(description) == [] && Kept(counterparty) == [] && Kept(info) == [];
    }
  }

  /** A description that is not blank opens the text. */
  lemma DescribeStartsWith(description: String, counterparty: String, info: String)
    requires Trim(description) != ""
    ensures StartsWith(Describe(description, counterparty, info), description)
  {
    var kept := Kept(description) + (Kept(counterparty) + Kept(info));
    DescribeKept(description, counterparty, info);
    assert Kept(description) == [description];
    assert kept[0] == description;
    JoinStartsWith(kept, " - ");
  }

  /** With none of the three blank the text is their ` - ` join. */
  lemma DescribeAllThree(description: String, counterparty: String, info: String)
    requires Trim(description) != "" && Trim(counterparty) != "" && Trim(info) != ""
    ensures Describe(description, counterparty, info) == description + " - " + counterparty + " - " + info
  {
    DescribeKept(description, counterparty, info);
    assert Kept(description) == [description];
    assert Kept(counterparty) + Kept(info) == [counterparty, info];
    assert Kept(description) + (Kept(counterparty) + Kept(info)) == [description, counterparty, info];
    JoinOfThree(description, counterparty, info, " - ");
  }

  /** One kept row: the transaction and the running balance it reports. */
  datatype Row = Row(tx: Transaction, balance: real)

  /** A candidate line, or `None` when it has fewer than seven fields. */
  function ParseRow(line: String): (r: Option<Row>)
    ensures r.None? <==> |Split(line, '|')| < 7
    ensures r.Some? ==> r.value.tx.currency == "BGN" && r.value.tx.invoiceNumber.None?
  {
    var parts := Split(line, '|');
    if |parts| < 7 then None
    else
      var description := parts[4];
      var counterparty := parts[5];
      var info := Field(parts, 8);
      var debit := ParseAmount(parts[2]);
      var credit := ParseAmount(parts[3]);
      var category := Categorize(description + " " + counterparty + " " + info, credit > 0.0);
      Some(Row(
        Transaction(ParseDate(parts[0]), Describe(description, counterparty, info), counterparty,
                    OrElse(Field(parts, 7), Field(parts, 9)), None, debit, credit, "BGN", category),
        ParseAmount(parts[6])))
  }

  /** The rows kept from the candidate lines, in source order. */
  function KeptRows(lines: seq<String>): (rows: seq<Row>)
    ensures |rows| <= |lines|
  {
    if |lines| == 0 then []
    else
      KeptRows(lines[..|lines| - 1]) +
      match ParseRow(lines[|lines| - 1])
      case Some(row) => [row]
      case None => []
  }

  /** Every candidate line parsed, in order. */
  function ParseAll(lines: seq<String>): (parsed: seq<Option<Row>>)
    ensures |parsed| == |lines|
  {
    seq(|lines|, i requires 0 <= i < |lines| => ParseRow(lines[i]))
  }

  /** The rows of the lines that parsed, in order. */
  function Present(parsed: seq<Option<Row>>): (rows: seq<Row>)
    ensures |rows| <= |parsed|
  {
    if |parsed| == 0 then []
    else
      Present(parsed[..|parsed| - 1]) +
      match parsed[|parsed| - 1]
      case Some(row) => [row]
      case None => []
  }

  /** The transactions of the rows, in order. */
  function Txs(rows: seq<Row>): (ts: seq<Transaction>)
    ensures |ts| == |rows|
  {
    if |rows| == 0 then [] else Txs(rows[..|rows| - 1]) + [rows[|rows| - 1].tx]
  }

  /** The balance before a row: its balance with the row's own movement
      undone (credit first, then debit). */
  function BalanceBefore(row: Row): real {
    if row.tx.credit > 0.0 then row.balance - row.tx.credit
    else if row.tx.debit > 0.0 then row.balance + row.tx.debit
    else row.balance
  }

  /** The opening balance: taken from the first kept row, 0 when none. */
  function Opening(rows: seq<Row>): real {
    if |rows| == 0 then 0.0 else BalanceBefore(rows[0])
  }

  /** The closing balance: the balance of the last kept row, 0 when none. */
  function Closing(rows: seq<Row>): real {
    if |rows| == 0 then 0.0 else rows[|rows| - 1].balance
  }

  /** The totals a `Total:` footer reports in its fifth and sixth fields, 0
      for each one it does not report. */
  function Footer(last: String): (real, real) {
    if StartsWith(last, "Total:") then
      var parts := Split(last, '|');
      if |parts| >= 5 then (ParseAmount(parts[4]), ParseAmount(Field(parts, 5))) else (0.0, 0.0)
    else (0.0, 0.0)
  }

  /** A reported total wins over the computed sum when it is positive. */
  function Override(computed: real, reported: real): real {
    if reported > 0.0 then reported else computed
  }

  /** The statement for the non-blank lines of a file. */
  function StatementOfLines(lines: seq<String>): Result<BankStatement, ParseError> {
    if |lines| < 2 then Err(TooFewLines)
    else
      var rows := KeptRows(lines[1..|lines| - 1]);
      var txs := Txs(rows);
      var (reportedDebit, reportedCredit) := Footer(lines[|lines| - 1]);
      Ok(BankStatement(BankName, AccountHolder, "N/A", "BGN", Opening(rows), Closing(rows),
                       Override(SumDebit(txs), reportedDebit), Override(SumCredit(txs), reportedCredit), txs))
  }

  function Statement(content: String): Result<BankStatement, ParseError> {
    StatementOfLines(Lines(content))
  }

  /** The loop state after the rows `rows`: their transactions, the sums of
      their amounts and the balances they give. */
  ghost predicate Tallied(rows: seq<Row>, transactions: seq<Transaction>, totalDebit: real, totalCredit: real,
                          openingBalance: real, closingBalance: real)
  {
    transactions == Txs(rows) &&
    totalDebit == SumDebit(transactions) && totalCredit == SumCredit(transactions) &&
    openingBalance == Opening(rows) && closingBalance == Closing(rows)
  }

  lemma TalliedSnoc(rows: seq<Row>, row: Row, transactions: seq<Transaction>, totalDebit: real, totalCredit: real,
                    openingBalance: real, closingBalance: real)
    requires Tallied(rows, transactions, totalDebit, totalCredit, openingBalance, closingBalance)
    ensures Tallied(rows + [row], transactions + [row.tx], totalDebit + row.tx.debit, totalCredit + row.tx.credit,
                    if |transactions| == 0 then BalanceBefore(row) else openingBalance, row.balance)
  {
    var rows' := rows + [row];
    assert rows'[..|rows'| - 1] == rows;
    assert |rows| > 0 ==> rows'[0] == rows[0];
    SumsSnoc(transactions, row.tx);
  }

  /** The body of the `forEach` over the candidate lines of `parseOBBTXT`,
      applied to each line's parse in turn: running totals, the opening
      balance taken at the first kept row and the last balance seen. */
  method CollectRows(parsed: seq<Option<Row>>)
    returns (transactions: seq<Transaction>, totalDebit: real, totalCredit: real,
             openingBalance: real, closingBalance: real)
    ensures transactions == Txs(Present(parsed))
    ensures totalDebit == SumDebit(transactions) && totalCredit == SumCredit(transactions)
    ensures openingBalance == Opening(Present(parsed))
    ensures closingBalance == Closing(Present(parsed))
  {
    transactions := [];
    totalDebit, totalCredit := 0.0, 0.0;
    openingBalance, closingBalance := 0.0, 0.0;
    ghost var rows: seq<Row> := [];
    for i := 0 to |parsed|
      invariant rows == Present(parsed[..i])
      invariant Tallied(rows, transactions, totalDebit, totalCredit, openingBalance, closingBalance)
    {
      assert parsed[..i + 1][..i] == parsed[..i];
      if parsed[i].Some? {
        var t, balance := parsed[i].value.tx, parsed[i].value.balance;
        TalliedSnoc(rows, parsed[i].value, transactions, totalDebit, totalCredit, openingBalance, closingBalance);
        totalDebit := totalDebit + t.debit;
        totalCredit := totalCredit + t.credit;
        if |transactions| == 0 {
          if t.credit > 0.0 {
            openingBalance := balance - t.credit;
          } else if t.debit > 0.0 {
            openingBalance := balance + t.debit;
          } else {
            openingBalance := balance;
          }
        }
        closingBalance := balance;
        rows := rows + [parsed[i].value];
        transactions := transactions + [t];
      }
    }
    assert parsed[..|parsed|] == parsed;
  }

  /** `parseOBBTXT`: the lines, the row loop, then the footer override. */
  method ParseObbTxt(content: String) returns (r: Result<BankStatement, ParseError>)
    ensures r == Statement(content)
  {
    var lines := Lines(content);
    if |lines| < 2 {
      return Err(TooFewLines);
    }
    var transactionLines := lines[1..|lines| - 1];
    var transactions, totalDebit, totalCredit, openingBalance, closingBalance :=
      CollectRows(ParseAll(transactionLines));
    KeptRowsPresent(transactionLines);
    var lastLine := lines[|lines| - 1];
    if StartsWith(lastLine, "Total:") {
      var totalParts := Split(lastLine, '|');
      if |totalParts| >= 5 {
        var reportedDebit := ParseAmount(totalParts[4]);
        var reportedCredit := ParseAmount(Field(totalParts, 5));
        if reportedDebit > 0.0 {
          totalDebit := reportedDebit;
        }
        if reportedCredit > 0.0 {
          totalCredit := reportedCredit;
        }
      }
    }
    r := Ok(BankStatement(BankName, AccountHolder, "N/A", "BGN", openingBalance, closingBalance,
                          totalDebit, totalCredit, transactions));
  }

  // Properties of the statement

  /** A file is rejected exactly when it has fewer than two non-blank lines. */
  lemma TooFewLinesRejected(content: String)
    ensures Statement(content).Err? <==> |Lines(content)| < 2
    ensures Statement(content).Err? ==> Statement(content).error == TooFewLines
  {
  }

  lemma {:induction false} KeptRowsAppend(a: seq<String>, b: seq<String>)
    ensures KeptRows(a + b) == KeptRows(a) + KeptRows(b)
    decreases |b|
  {
    if |b| == 0 {
      assert a + b == a;
    } else {
      var front := b[..|b| - 1];
      var last := b[|b| - 1];
      var tail := match ParseRow(last) case Some(row) => [row] case None => [];
      assert (a + b)[..|a + b| - 1] == a + front && (a + b)[|a + b| - 1] == last;
      assert KeptRows(a + b) == KeptRows(a + front) + tail;
      assert KeptRows(b) == KeptRows(front) + tail;
      KeptRowsAppend(a, front);
      ConcatAssoc(KeptRows(a), KeptRows(front), tail);
    }
  }

  lemma ConcatAssoc<T>(x: seq<T>, y: seq<T>, z: seq<T>)
    ensures x + y + z == x + (y + z)
  {
  }

  /** Keeping the rows of the lines is taking the rows of their parses. */
  lemma {:induction false} KeptRowsPresent(lines: seq<String>)
    ensures KeptRows(lines) == Present(ParseAll(lines))
  {
    if |lines| > 0 {
      var front := lines[..|lines| - 1];
      KeptRowsPresent(front);
      assert ParseAll(lines)[..|lines| - 1] == ParseAll(front);
    }
  }

  lemma KeptRowsSingle(line: String)
    ensures KeptRows([line]) == match ParseRow(line) case Some(row) => [row] case None => []
  {
    assert [line][..0] == [];
  }

  /** A candidate line with fewer than seven fields is skipped and changes
      nothing else. */
  lemma {:induction false} ShortRowSkipped(before: seq<String>, line: String, after: seq<String>)
    requires |Split(line, '|')| < 7
    ensures KeptRows(before + [line] + after) == KeptRows(before + after)
  {
    var withLine := before + [line];
    KeptRowsAppend(withLine, after);
    KeptRowsAppend(before, [line]);
    KeptRowsAppend(before, after);
    KeptRowsSingle(line);
  }

  /** A line with seven or more fields is kept, after the rows before it. */
  lemma {:induction false} LongRowKept(before: seq<String>, line: String, after: seq<String>)
    requires |Split(line, '|')| >= 7
    ensures KeptRows(before + [line] + after) == KeptRows(before) + [ParseRow(line).value] + KeptRows(after)
  {
    var withLine := before + [line];
    KeptRowsAppend(withLine, after);
    KeptRowsAppend(before, [line]);
    KeptRowsSingle(line);
  }

  /** The header and the last line are never parsed as transactions: any
      two statements whose lines differ only there have the same
      transactions and balances (their totals may differ by the footer). */
  lemma EndsNeverRows(lines: seq<String>, header: String, last: String)
    requires |lines| >= 2
    ensures var other := [header] + lines[1..|lines| - 1] + [last];
      StatementOfLines(other).value.transactions == StatementOfLines(lines).value.transactions &&
      StatementOfLines(other).value.openingBalance == StatementOfLines(lines).value.openingBalance &&
      StatementOfLines(other).value.closingBalance == StatementOfLines(lines).value.closingBalance
  {
    var other := [header] + lines[1..|lines| - 1] + [last];
    assert other[1..|other| - 1] == lines[1..|lines| - 1];
  }

  /** Without a `Total:` footer of at least five fields the totals are the
      sums of the kept rows. */
  lemma TotalsAreSums(lines: seq<String>)
    requires |lines| >= 2
    requires !StartsWith(lines[|lines| - 1], "Total:") || |Split(lines[|lines| - 1], '|')| < 5
    ensures var s := StatementOfLines(lines).value;
      s.totalDebit == SumDebit(s.transactions) && s.totalCredit == SumCredit(s.transactions)
  {
  }

  /** A footer with at least five fields replaces each total on its own,
      and only with a positive reported value. */
  lemma FooterPrecedence(lines: seq<String>)
    requires |lines| >= 2
    requires StartsWith(lines[|lines| - 1], "Total:") && |Split(lines[|lines| - 1], '|')| >= 5
    ensures var parts := Split(lines[|lines| - 1], '|');
      var s := StatementOfLines(lines).value;
      var reportedDebit := ParseAmount(parts[4]);
      var reportedCredit := ParseAmount(Field(parts, 5));
      (reportedDebit > 0.0 ==> s.totalDebit == reportedDebit) &&
      (reportedDebit <= 0.0 ==> s.totalDebit == SumDebit(s.transactions)) &&
      (reportedCredit > 0.0 ==> s.totalCredit == reportedCredit) &&
      (reportedCredit <= 0.0 ==> s.totalCredit == SumCredit(s.transactions))
  {
  }

  /** The statement's balances are those its kept rows give. */
  lemma StatementBalances(lines: seq<String>)
    requires |lines| >= 2
    ensures var rows := KeptRows(lines[1..|lines| - 1]);
      var s := StatementOfLines(lines).value;
      s.openingBalance == Opening(rows) && s.closingBalance == Closing(rows)
  {
  }

  /** With no kept row both balances are 0; otherwise the opening balance is
      the first row's balance less its credit when that is positive, else plus
      its debit when that is positive, else the balance itself; so the opening
      balance plus the first row's movement is that row's balance whenever the
      row moves money in one direction only. The closing balance is the last
      row's balance. */
  lemma BalancesFromRows(lines: seq<String>)
    requires |lines| >= 2
    ensures var rows := KeptRows(lines[1..|lines| - 1]);
      var s := StatementOfLines(lines).value;
      (|rows| == 0 ==> s.openingBalance == 0.0 && s.closingBalance == 0.0) &&
      (|rows| > 0 ==>
        s.openingBalance ==
          (if rows[0].tx.credit > 0.0 then rows[0].balance - rows[0].tx.credit
           else if rows[0].tx.debit > 0.0 then rows[0].balance + rows[0].tx.debit
           else rows[0].balance)) &&
      (|rows| > 0 && (rows[0].tx.credit == 0.0 || rows[0].tx.debit == 0.0) &&
        rows[0].tx.credit >= 0.0 && rows[0].tx.debit >= 0.0 ==>
        s.openingBalance + rows[0].tx.credit - rows[0].tx.debit == rows[0].balance) &&
      (|rows| > 0 ==> s.closingBalance == rows[|rows| - 1].balance)
  {
    var rows := KeptRows(lines[1..|lines| - 1]);
    StatementBalances(lines);
    if |rows| > 0 {
      var first := rows[0];
      assert StatementOfLines(lines).value.openingBalance == BalanceBefore(first);
      assert StatementOfLines(lines).value.closingBalance == rows[|rows| - 1].balance;
    }
  }

  /** The reference is field 7, or field 9 when field 7 is empty. */
  lemma ReferenceChoice(line: String)
    requires |Split(line, '|')| >= 7
    ensures var parts := Split(line, '|');
      ParseRow(line).value.tx.reference == if Field(parts, 7) != "" then parts[7] else Field(parts, 9)
  {
  }
}
