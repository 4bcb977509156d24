/** `exportToCSV` (src/export.ts): the CSV text of a statement, a header
    line and one line per transaction joined with newlines. Description
    and counterparty are quoted with inner quotes doubled; the other
    fields are written as they are. How JavaScript renders a number as
    text is passed in as `render`. */
module CsvExport {
  import opened Wrappers
  import opened Text
  import opened Ledger

  const Headers: seq<String> :=
    ["Date", "Description", "Counterparty", "Invoice/Doc", "Reference", "Debit", "Credit", "Currency", "Category"]

  /** `headers.join(',')`. */
  function HeaderLine(): String {
    Join(Headers, ",")
  }

  /** The header line splits back into the header names at the commas. */
  lemma HeaderSplit()
    ensures Split(HeaderLine(), ',') == Headers
  {
    HeaderNamesPlain(',');
    JoinSplit(Headers, ',');
  }

  /** No header name holds a comma or a line break. */
  lemma HeaderNamesPlain(c: char)
    requires c == ',' || c == '\n'
    ensures forall k :: 0 <= k < |Headers| ==> c !in Headers[k]
  {
    forall k | 0 <= k < |Headers|
      ensures c !in Headers[k]
    {
      var name := Headers[k];
      assert forall i :: 0 <= i < |name| ==> 'A' <= name[i] <= 'z' || name[i] == '/';
    }
  }

  /** `s.replace(/"/g, '""')`: every double quote doubled. */
  function Escape(s: String): (r: String)
    ensures |r| >= |s|
  {
    if |s| == 0 then ""
    else (if s[0] == '"' then "\"\"" else [s[0]]) + Escape(s[1..])
  }

  /** A field in double quotes. */
  function Quote(s: String): String {
    "\"" + Escape(s) + "\""
  }

  /** Reading an escaped text back: a doubled quote stands for one quote. */
  function Unescape(s: String): String {
    if |s| == 0 then ""
    else if |s| >= 2 && s[0] == '"' && s[1] == '"' then "\"" + Unescape(s[2..])
    else [s[0]] + Unescape(s[1..])
  }

  /** Reading a quoted field back, or nothing when it is not quoted. */
  function Unquote(s: String): Option<String> {
    if |s| >= 2 && s[0] == '"' && s[|s| - 1] == '"' then Some(Unescape(s[1..|s| - 1])) else None
  }

  /** Escaping loses nothing: un-escaping gives the text back. */
  lemma {:induction false} UnescapeEscape(s: String)
    ensures Unescape(Escape(s)) == s
  {
    if |s| > 0 {
      UnescapeEscape(s[1..]);
      var e := Escape(s);
      if s[0] == '"' {
        assert e == "\"\"" + Escape(s[1..]);
        assert e[2..] == Escape(s[1..]);
      } else {
        assert e == [s[0]] + Escape(s[1..]);
        assert e[1..] == Escape(s[1..]);
      }
      assert [s[0]] + s[1..] == s;
    }
  }

  /** Text without a quote is left as it is. */
  lemma {:induction false} EscapeQuoteFree(s: String)
    requires '"' !in s
    ensures Escape(s) == s
  {
    if |s| > 0 {
      EscapeQuoteFree(s[1..]);
      assert [s[0]] + s[1..] == s;
    }
  }

  /** Quoting loses nothing: the quoted field reads back as the text. */
  lemma UnquoteQuote(s: String)
    ensures Unquote(Quote(s)) == Some(s)
  {
    var q := Quote(s);
    assert q[1..|q| - 1] == Escape(s);
    UnescapeEscape(s);
  }

  /** `x || ''` on an amount: zero is written as an empty field. */
  function AmountField(x: real, render: real -> String): String {
    if x == 0.0 then "" else render(x)
  }

  /** The nine fields of a transaction's row, in header order. */
  function Row(t: Transaction, render: real -> String): (fields: seq<String>)
    ensures |fields| == |Headers|
  {
    [t.date, Quote(t.description), Quote(t.counterparty), OrElse(t.invoiceNumber.GetOr(""), ""), t.reference,
     AmountField(t.debit, render), AmountField(t.credit, render), t.currency, t.category]
  }

  function RowLine(t: Transaction, render: real -> String): String {
    Join(Row(t, render), ",")
  }

  /** One line per transaction, in order. */
  function Lines(ts: seq<Transaction>, render: real -> String): (lines: seq<String>)
    ensures |lines| == |ts|
  {
    if |ts| == 0 then [] else Lines(ts[..|ts| - 1], render) + [RowLine(ts[|ts| - 1], render)]
  }

  /** The CSV content: the header line and the rows, joined with `\n`. */
  function Csv(statement: BankStatement, render: real -> String): String {
    Join([HeaderLine()] + Lines(statement.transactions, render), "\n")
  }

  /** What each field of a row reads back as: description and counterparty
      unquote to the original text, a missing or empty invoice number and a
      zero amount give empty fields, and the remaining fields are the
      transaction's own text. */
  lemma RowFields(t: Transaction, render: real -> String)
    ensures var r := Row(t, render);
      r[0] == t.date && Unquote(r[1]) == Some(t.description) && Unquote(r[2]) == Some(t.counterparty) &&
      (r[3] == "" <==> t.invoiceNumber == None || t.invoiceNumber == Some("")) &&
      (t.invoiceNumber.Some? ==> r[3] == t.invoiceNumber.value) &&
      r[4] == t.reference && r[7] == t.currency && r[8] == t.category &&
      (t.debit == 0.0 ==> r[5] == "") && (t.debit != 0.0 ==> r[5] == render(t.debit)) &&
      (t.credit == 0.0 ==> r[6] == "") && (t.credit != 0.0 ==> r[6] == render(t.credit))
  {
    UnquoteQuote(t.description);
    UnquoteQuote(t.counterparty);
  }

  /** A row whose fields contain no comma splits back into its nine fields
      at the commas. */
  lemma RowSplit(t: Transaction, render: real -> String)
    requires forall k :: 0 <= k < |Headers| ==> ',' !in Row(t, render)[k]
    ensures Split(RowLine(t, render), ',') == Row(t, render)
  {
    JoinSplit(Row(t, render), ',');
  }

  /** A statement without transactions exports the header line alone. */
  lemma CsvEmpty(statement: BankStatement, render: real -> String)
    requires statement.transactions == []
    ensures Csv(statement, render) == HeaderLine()
  {
    assert [HeaderLine()] + Lines(statement.transactions, render) == [HeaderLine()];
  }

  /** One more transaction adds one line at the end: with `CsvEmpty`, the
      export is the header followed by the transactions' rows in order. */
  lemma CsvSnoc(statement: BankStatement, t: Transaction, render: real -> String)
    ensures Csv(statement.(transactions := statement.transactions + [t]), render)
            == Csv(statement, render) + "\n" + RowLine(t, render)
  {
    var ts := statement.transactions;
    var before := [HeaderLine()] + Lines(ts, render);
    LinesSnoc(ts, t, render);
    assert [HeaderLine()] + Lines(ts + [t], render) == before + [RowLine(t, render)];
    JoinSnoc(before, RowLine(t, render), "\n");
  }

  lemma LinesSnoc(ts: seq<Transaction>, t: Transaction, render: real -> String)
    ensures Lines(ts + [t], render) == Lines(ts, render) + [RowLine(t, render)]
  {
    assert (ts + [t])[..|ts|] == ts;
  }

  /** Joining one more part adds the separator and the part at the end. */
  lemma {:induction false} JoinSnoc(parts: seq<String>, p: String, sep: String)
    requires |parts| > 0
    ensures Join(parts + [p], sep) == Join(parts, sep) + sep + p
  {
    if |parts| == 1 {
      assert (parts + [p])[1..] == [p];
    } else {
      assert (parts + [p])[1..] == parts[1..] + [p];
      JoinSnoc(parts[1..], p, sep);
    }
  }

  /** When no field holds a line break, the export splits at the line
      breaks into the header line followed by the rows, in order. */
  lemma CsvLines(statement: BankStatement, render: real -> String)
    requires forall i, k :: 0 <= i < |statement.transactions| && 0 <= k < |Headers| ==>
      '\n' !in Row(statement.transactions[i], render)[k]
    ensures Split(Csv(statement, render), '\n') == [HeaderLine()] + Lines(statement.transactions, render)
  {
    var ts := statement.transactions;
    var lines := Lines(ts, render);
    forall i | 0 <= i < |ts|
      ensures '\n' !in lines[i]
    {
      LinesAt(ts, render, i);
      JoinFree(Row(ts[i], render), ",", '\n');
    }
    HeaderFree();
    LinesSplit(HeaderLine(), lines);
  }

  /** No header name holds a line break. */
  lemma HeaderFree()
    ensures '\n' !in HeaderLine()
  {
    HeaderNamesPlain('\n');
    JoinFree(Headers, ",", '\n');
  }

  lemma LinesSplit(head: String, lines: seq<String>)
    requires '\n' !in head
    requires forall i :: 0 <= i < |lines| ==> '\n' !in lines[i]
    ensures Split(Join([head] + lines, "\n"), '\n') == [head] + lines
  {
    var all := [head] + lines;
    forall k | 0 <= k < |all|
      ensures '\n' !in all[k]
    {
      if k > 0 {
        assert all[k] == lines[k - 1];
      }
    }
    JoinSplit(all, '\n');
  }

  /** The i-th line is the i-th transaction's row. */
  lemma {:induction false} LinesAt(ts: seq<Transaction>, render: real -> String, i: nat)
    requires i < |ts|
    ensures Lines(ts, render)[i] == RowLine(ts[i], render)
  {
    if i < |ts| - 1 {
      LinesAt(ts[..|ts| - 1], render, i);
    }
  }

  /** The export starts with the header line. */
  lemma CsvStartsWithHeader(statement: BankStatement, render: real -> String)
    ensures StartsWith(Csv(statement, render), HeaderLine())
  {
    JoinStartsWith([HeaderLine()] + Lines(statement.transactions, render), "\n");
  }
}
