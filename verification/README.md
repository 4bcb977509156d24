# Bank statement analyzer — a verified model of the parsing core

This project models the parsing and normalisation core of the bank
statement analyzer, plus the logic downstream of it. The parsing core reads
an uploaded bank statement file and turns it into one normalised
`BankStatement`: bank, account holder, IBAN, currency, opening and closing
balances, debit and credit totals, and a list of categorised
`Transaction`s. Three file dialects are handled:

- **OBB text**: pipe-delimited rows with an optional `Total:` footer
  (`ObbText`, src/parsers/obbParser.ts).
- **DSK XML**: `AccountMovement` records in an old and a new layout
  (`DskXml`, src/parsers/dskParser.ts).
- **OBB XML**: `TRANSACTION` records under a `<STATEMENT>` root
  (`ObbXml`, src/parsers/obbXmlParser.ts).

`Intake` (src/parsers/index.ts) chooses the text encoding from the first
bytes and the file name. `Windows1251` decodes windows-1251 bytes with the
reader's byte loop. `Intake` also picks the parser for the decoded
content.

Downstream of the parsers:

- `Grouping`, `CategoryGroups` and `Companies` model the summary card's and
  the transaction table's aggregation (src/components/SummaryCard.tsx,
  src/components/TransactionTable.tsx). Transactions are split into a credit
  side and a debit side, grouped by category with a display title, and
  grouped by counterparty name. Each grouping is summed and sorted by total,
  largest first.
- `CsvExport` models the CSV text built by src/export.ts.

Shared pieces:

- `Text` holds the JavaScript string operations the code relies on (`trim`,
  `split`, `join`, `includes`, `startsWith`, `substring`, `toLowerCase`,
  `replace`).
- `Numbers` models `parseFloat(x) || 0` on reals.
- `Dates` holds the shared `d/m/y` to `y-m-d` reordering.
- `Categories` holds the category tags and the keyword test.
- `Ledger` holds the statement and transaction records and their debit and
  credit sums.

Code that works step by step is modelled as methods with loops. This covers
each parser's `forEach` over its rows or records, the byte loop of the
reader, and the dictionary-filling loops of `groupByCategory` and
`groupByCompany`. Each such method is proved equal to a declarative
function, and the properties are lemmas about those functions. The DOM
parser is not modelled: an XML file reaches the model as the records the
DOM queries would extract. In a record, a missing element is `None`, and a
`malformed` flag stands for a `parsererror` node. A thrown error becomes
`Err(ParseError)`, and the model never returns a partial statement.

Three behaviours of the code that a reader might not expect, all kept by the
model:

- A `Total:` footer overrides a total only when the reported value is
  positive, not whenever it is non-zero (src/parsers/obbParser.ts:117-118).
- A DSK movement with a zero or unreadable amount has both debit and credit
  zero, so "exactly one of debit/credit is non-zero" is not a property of
  the code (src/parsers/dskParser.ts:102-106). Likewise an OBB XML record may
  carry both amounts.
- A DSK description can be 83 characters long: 80 characters plus `...`
  (src/parsers/dskParser.ts:115-117).

## Model

| member | source | states |
|---|---|---|
| Intake.ChooseEncoding | src/parsers/index.ts:37-55 | A UTF-16LE byte-order mark selects UTF-16LE; windows-1251 is chosen only for names not ending in `.xml` |
| Intake.EncodingRules | src/parsers/index.ts:38-50 | Each encoding is chosen exactly in its own case: the mark wins, then a `<` in the first five bytes or an `.xml` name gives UTF-8, and otherwise windows-1251 |
| Intake.LeadingAngleIsUtf8 | src/parsers/index.ts:47-50 | A file starting with `<` and without the mark is read as UTF-8, whatever its name |
| Intake.ReadFileAsText | src/parsers/index.ts:35-98 | The text read is the chosen decoder applied to the whole buffer |
| Intake.SelectDialect | src/parsers/index.ts:8-20 | The text parser is chosen only for names not ending in `.xml` |
| Intake.DispatchRules | src/parsers/index.ts:8-20 | OBB XML exactly for XML holding `<STATEMENT>` or its spaced spelling; DSK XML exactly for other XML; OBB text exactly for non-XML |
| Intake.IndentedXml | src/parsers/index.ts:8 | Leading whitespace before `<` still counts as XML |
| Intake.ParseFile | src/parsers/index.ts:6-21 | The result is the chosen dialect's statement |
| Windows1251.SpecialChar | src/parsers/index.ts:70-87 | Every table entry is a valid code point of at least 0x80 |
| Windows1251.DecodeRanges | src/parsers/index.ts:62-94 | Bytes below 0x80 map to themselves; 0xC0-0xFF map to U+0410-U+044F in order; in 0x80-0xBF only 0x98 lacks a table entry |
| Windows1251.DecodeAll | src/parsers/index.ts:59-96 | One character per byte |
| Windows1251.Decode | src/parsers/index.ts:57-98 | The loop yields, at each position, the decoding of that position's byte |
| Windows1251.EncodeDecodeByte | src/parsers/index.ts:62-94 | Each byte is recovered from its character, the 0x98 fallback included |
| Windows1251.TableRoundTrip | src/parsers/index.ts:70-87 | Each table byte is recovered from its table character |
| Windows1251.EncodeDecode | src/parsers/index.ts:59-96 | Decoding a byte string loses nothing: encoding the text gives the bytes back |
| Windows1251.DecodeInjective | src/parsers/index.ts:62-94 | No two bytes decode to the same character |
| Windows1251.Samples | src/parsers/index.ts:62-94 | 0x41 is `A`, 0xC0 is `А`, 0xFF is `я`, 0xA8 is `Ё`, 0xB8 is `ё`, 0x88 is the euro sign, and 0x98 passes through as U+0098 |
| Numbers.BlankIsZero | src/parsers/obbParser.ts:20 | Whitespace-only text is not a number, so `parseFloat(..) \|\| 0` gives 0 |
| Numbers.DecimalValue | src/parsers/dskParser.ts:6 | `digits.digits` reads as its decimal value, whatever non-numeric text follows |
| Numbers.IntegerValue | src/parsers/dskParser.ts:6 | A run of digits reads as its value |
| Numbers.CommaAsPoint | src/parsers/obbParser.ts:20 | With the first comma made a point, `a,b` reads as the decimal `a.b` |
| Dates.Reorder | src/parsers/obbParser.ts:23-32 | Text without three separator-delimited parts is returned unchanged |
| Dates.ReorderParts | src/parsers/obbParser.ts:25-29 | Day, month and year come back as year-month-day |
| Categories.HasAnyIff | src/parsers/obbParser.ts:7-12 | The keyword test holds exactly when some keyword of the list occurs |
| Categories.DefaultTag | src/components/SummaryCard.tsx:45 | The default tag is `other_income` for credits and `other_expense` for debits |
| Ledger.SumsSnoc | src/parsers/obbParser.ts:72-73 | One more transaction adds its debit and credit to the running sums |
| Ledger.SumSide | src/components/SummaryCard.tsx:72 | The side sum is the credit sum on the credit side and the debit sum otherwise |
| Ledger.SumSideAppend | src/components/SummaryCard.tsx:72 | The side sum of a concatenation is the sum of the side sums |
| ObbText.Categorize | src/parsers/obbParser.ts:3-15 | Credits get an income tag, debits an expense tag |
| ObbText.CategorizeRules | src/parsers/obbParser.ts:3-15 | Each tag is given exactly when its keywords occur in the lower-cased text and no earlier rule of the direction matched |
| ObbText.ParseAmount | src/parsers/obbParser.ts:17-21 | Blank text is 0 |
| ObbText.CommaDecimal | src/parsers/obbParser.ts:17-21 | `12,50` style amounts read with the comma as decimal point |
| ObbText.ParseDate | src/parsers/obbParser.ts:23-32 | Anything but three `/`-parts is kept unchanged |
| ObbText.ReorderDate | src/parsers/obbParser.ts:23-32 | `DD/MM/YYYY` becomes `YYYY-MM-DD` |
| ObbText.NonBlankLinesTrimmed | src/parsers/obbParser.ts:35 | Every kept line is non-empty and trimmed |
| ObbText.DescribeKept | src/parsers/obbParser.ts:90-96 | The description is `N/A` exactly when no part survives the blank filter, and otherwise the ` - ` join of the surviving parts |
| ObbText.DescribeText | src/parsers/obbParser.ts:90-96 | `N/A` when all three parts are blank; otherwise the ` - ` join of the non-blank parts in their order |
| ObbText.DescribeStartsWith | src/parsers/obbParser.ts:90-96 | A description that is not blank opens the transaction text |
| ObbText.DescribeAllThree | src/parsers/obbParser.ts:90-96 | With no part blank the text is description, counterparty and information joined by ` - ` |
| ObbText.ParseRow | src/parsers/obbParser.ts:53-105 | A line yields a row exactly when it has at least seven fields; its currency is `BGN` and it has no invoice number |
| ObbText.ReferenceChoice | src/parsers/obbParser.ts:65-67 | The reference is field 7, or field 9 when field 7 is empty |
| ObbText.TalliedSnoc | src/parsers/obbParser.ts:72-86 | One more row keeps the running sums and balances equal to those of the rows so far |
| ObbText.CollectRows | src/parsers/obbParser.ts:51-106 | The loop yields the kept rows' transactions in order, their sums, the opening balance from the first kept row and the last balance |
| ObbText.ParseObbTxt | src/parsers/obbParser.ts:34-133 | The parse equals the declarative statement of the file |
| ObbText.TooFewLinesRejected | src/parsers/obbParser.ts:35-39 | A file is rejected, with the too-few-lines error, exactly when it has fewer than two non-blank lines |
| ObbText.KeptRowsPresent | src/parsers/obbParser.ts:51-55 | The rows kept are the rows of the lines that parse, in order |
| ObbText.ShortRowSkipped | src/parsers/obbParser.ts:55 | A line with fewer than seven fields is skipped and changes nothing else |
| ObbText.LongRowKept | src/parsers/obbParser.ts:55-105 | A line with seven or more fields is kept, between the rows before and after it |
| ObbText.EndsNeverRows | src/parsers/obbParser.ts:47-49 | The header and last line never become transactions |
| ObbText.TotalsAreSums | src/parsers/obbParser.ts:108-120 | Without a `Total:` footer, or with one of fewer than five fields, the totals are the sums of the transactions |
| ObbText.FooterPrecedence | src/parsers/obbParser.ts:108-120 | A positive reported total replaces the computed one; otherwise the sum stays |
| ObbText.StatementBalances | src/parsers/obbParser.ts:75-86 | The statement's opening and closing balances are those its kept rows give |
| ObbText.BalancesFromRows | src/parsers/obbParser.ts:75-86 | Both balances are 0 without rows; the opening balance is the first row's balance less its credit when that is positive, else plus its debit when that is positive, else the balance itself, so for a row moving money in one direction the opening balance plus its movement is its balance; the closing balance is the last row's balance |
| DskXml.ParseAmount | src/parsers/dskParser.ts:3-7 | Blank text is 0 |
| DskXml.GroupedAmount | src/parsers/dskParser.ts:3-7 | `a b,c` with space thousands and a decimal comma reads as `ab.c` |
| DskXml.GroupedAmountExample | src/parsers/dskParser.ts:3-7 | `1 234,56` reads as 1234.56 |
| Dates.ReorderTrimmed | src/parsers/dskParser.ts:9-18 | Anything but three parts around the separator is returned trimmed; the DSK parser splits on `.`, and src/parsers/obbXmlParser.ts:10-19 is the same rule with `/` |
| Dates.ReorderTrimmedParts | src/parsers/dskParser.ts:9-18 | `DD.MM.YYYY`, or `DD/MM/YYYY` in src/parsers/obbXmlParser.ts:10-19, becomes `YYYY-MM-DD` once trimmed |
| DskXml.BreakTagLength | src/parsers/dskParser.ts:22 | A recognised `<br>` tag is at least four characters and fits the text |
| DskXml.BreakTagAfter | src/parsers/dskParser.ts:22 | `<br`, optional whitespace, then `>` or `/>` is a tag of exactly that length, and nothing else after `<br` is |
| DskXml.BreakExamples | src/parsers/dskParser.ts:22 | `<br>`, `<BR/>` and `<br />` are tags; `<b>` and `<br/ >` are not |
| DskXml.CollapseShape | src/parsers/dskParser.ts:22 | After collapsing, no two whitespace characters are adjacent and all whitespace is plain spaces |
| DskXml.CleanTextShape | src/parsers/dskParser.ts:20-23 | A missing text is empty; a cleaned text has no whitespace at its ends, no whitespace run and only plain spaces |
| DskXml.Categorize | src/parsers/dskParser.ts:25-50 | Credits get an income tag, debits an expense tag |
| DskXml.CategorizeRules | src/parsers/dskParser.ts:25-50 | Each tag is given exactly when its keywords, or the card-number pattern for POS, match and no earlier rule did |
| DskXml.CardNumberIsPos | src/parsers/dskParser.ts:30 | Six digits, x's and a digit at the start of the reason make a credit a POS payment |
| DskXml.FirstIbanAtLeftmost | src/parsers/dskParser.ts:72 | The match found is the leftmost one |
| DskXml.ExtractIbanShape | src/parsers/dskParser.ts:72-73 | The IBAN is the leftmost `[A-Z]{2}\d{2}[A-Z0-9]+` match, taken to its longest; without a match the text is kept |
| DskXml.DescriptionBound | src/parsers/dskParser.ts:113-117 | The description is the trimmed text before `<br`, or its first 80 characters plus `...` when longer, so at most 83 characters |
| DskXml.MovementSplit | src/parsers/dskParser.ts:92-129 | A `credit` movement books its amount as credit and 0 as debit, any other type the reverse; currency `BGN`, no invoice |
| DskXml.CollectMovements | src/parsers/dskParser.ts:92-130 | The loop keeps the transactions in order and sums their debits and credits |
| DskXml.Assemble | src/parsers/dskParser.ts:132-147 | The statement is assembled from the layout, the transactions and their sums |
| DskXml.ParseDskXml | src/parsers/dskParser.ts:52-148 | The parse equals the declarative statement of the document |
| DskXml.MalformedRejected | src/parsers/dskParser.ts:56-59 | A document is rejected exactly when it is malformed |
| DskXml.TotalsAreSums | src/parsers/dskParser.ts:86-109 | The transactions are the converted movements, and the totals are their sums |
| DskXml.BalancesByLayout | src/parsers/dskParser.ts:61-83 | New layout: opening 0, closing = credits - debits, no IBAN, default holder; old layout: balances from the sums element |
| DskXml.DescriptionsBounded | src/parsers/dskParser.ts:113-117 | Every description of a statement is at most 83 characters |
| ObbXml.ParseAmount | src/parsers/obbXmlParser.ts:3-8 | Blank text is 0 |
| ObbXml.ThousandsAmount | src/parsers/obbXmlParser.ts:3-8 | `a,b.c` with comma thousands reads as `ab.c` |
| ObbXml.ThousandsAmountExample | src/parsers/obbXmlParser.ts:5-7 | `1,236.31` reads as 1236.31 |
| ObbXml.CleanText | src/parsers/obbXmlParser.ts:21-24 | A missing text is empty; a present one is trimmed |
| ObbXml.Categorize | src/parsers/obbXmlParser.ts:26-55 | Credits get an income tag, debits an expense tag |
| ObbXml.CategorizeRules | src/parsers/obbXmlParser.ts:26-55 | Each tag is given exactly when its keywords match and no earlier rule did; the transfer words shadow the fx rule for credits |
| ObbXml.CurrencyPrefix | src/parsers/obbXmlParser.ts:100-105 | Only `BGN`, `EUR` or `USD` is found, and only at the start of a remark of three or more characters |
| ObbXml.NextCurrency | src/parsers/obbXmlParser.ts:99-105 | A remark with a code sets the currency to it; otherwise the currency stays |
| ObbXml.CurrencyAfter | src/parsers/obbXmlParser.ts:76 | The currency in force is always one of the three codes |
| ObbXml.CurrencyIsLastCode | src/parsers/obbXmlParser.ts:99-105 | The currency after the records is the last code detected |
| ObbXml.CurrencyDefault | src/parsers/obbXmlParser.ts:57-60 | Without any code the currency is `BGN` |
| ObbXml.RecordFields | src/parsers/obbXmlParser.ts:85-135 | Amounts as read; direction from a positive credit; counterparty `NAME_R` else `REM_II`; description `TR_NAME` else `N/A`; invoice exactly when `REM_I` is present |
| ObbXml.StampAt | src/parsers/obbXmlParser.ts:84-136 | Each transaction carries the currency in force after its own record |
| ObbXml.TalliedSnoc | src/parsers/obbXmlParser.ts:99-108 | One more record keeps the transactions, currency and sums equal to those of the records so far |
| ObbXml.CollectTransactions | src/parsers/obbXmlParser.ts:84-136 | The loop yields the stamped transactions, the last currency and the sums |
| ObbXml.ParseObbXml | src/parsers/obbXmlParser.ts:62-149 | The parse equals the declarative statement of the document |
| ObbXml.MalformedRejected | src/parsers/obbXmlParser.ts:66-69 | A document is rejected exactly when it is malformed |
| ObbXml.TransactionsOfRecords | src/parsers/obbXmlParser.ts:84-136 | One transaction per record, in order, with the currency then in force; the totals are the sums |
| ObbXml.StatementCurrency | src/parsers/obbXmlParser.ts:99-105 | The statement's currency is the last one detected: `BGN` without transactions, else the last transaction's |
| ObbXml.BalancesAsRead | src/parsers/obbXmlParser.ts:72-73 | The balances are the values read and do not depend on the transactions |
| Grouping.Side | src/components/SummaryCard.tsx:37-38 | The side keeps only transactions with a positive amount on that side |
| Grouping.SideMembers | src/components/SummaryCard.tsx:37-38 | A transaction is on a side exactly when it is in the input with a positive amount there |
| Grouping.SideSum | src/components/SummaryCard.tsx:37-38 | With no negative amounts, filtering a side keeps its sum |
| Grouping.Keys | src/components/SummaryCard.tsx:46 | The keys are distinct, in first-occurrence order |
| Grouping.KeysCover | src/components/SummaryCard.tsx:44-48 | Every label is a key, and a key has members exactly when it is a key |
| Grouping.MembersSatisfy | src/components/SummaryCard.tsx:44-48 | Whatever holds of all transactions with a label holds of its members |
| Grouping.KeysPartition | src/components/SummaryCard.tsx:44-48 | The keys' member counts add up to the number of transactions and their side totals to the side sum |
| Grouping.Insert | src/components/SummaryCard.tsx:74 | Inserting keeps the elements as a multiset |
| Grouping.InsertSorted | src/components/SummaryCard.tsx:74 | Insertion into a list sorted by total keeps it sorted |
| Grouping.SortByTotal | src/components/SummaryCard.tsx:74 | The sort is a permutation, ordered by total, largest first |
| Grouping.SortDistinct | src/components/SummaryCard.tsx:74 | Sorting keeps distinct names distinct |
| Grouping.SumOfSort | src/components/SummaryCard.tsx:74 | Sorting does not change a sum over the list |
| CategoryGroups.TitleCoverage | src/components/SummaryCard.tsx:50-65 | The parsers' tags and their aliases have their titles; the two currency-trade tags have none and show as their id |
| CategoryGroups.EffectiveCategory | src/components/SummaryCard.tsx:45 | A non-empty category is kept; an empty one becomes the side's default |
| CategoryGroups.FiledPush | src/components/SummaryCard.tsx:47 | Pushing onto an existing list keeps the dictionary filed |
| CategoryGroups.FiledOpen | src/components/SummaryCard.tsx:46-47 | Opening a new list keeps the dictionary filed, with the key added last |
| CategoryGroups.FileByCategory | src/components/SummaryCard.tsx:42-48 | Each category's list holds its transactions, in order, and the keys are in first-occurrence order |
| CategoryGroups.Entries | src/components/SummaryCard.tsx:67-73 | One titled group per key, in key order, with the side total of its list |
| CategoryGroups.GroupByCategory | src/components/SummaryCard.tsx:41-75 | The result is the declarative grouping, sorted by total |
| CategoryGroups.GroupListShape | src/components/SummaryCard.tsx:67-73 | Each entry is its key's group, and the entries' totals and sizes add up as their keys' members do |
| CategoryGroups.CategoryOrder | src/components/SummaryCard.tsx:67-74 | The groups are sorted by total, largest first, have distinct ids, and are exactly the dictionary entries |
| CategoryGroups.CategoryMembers | src/components/SummaryCard.tsx:44-73 | Each group is non-empty and titled from the table; it holds only transactions of its category, and its total is their side sum |
| CategoryGroups.CategoryCover | src/components/SummaryCard.tsx:44-48 | Every transaction's category has a group |
| CategoryGroups.CategoryTotals | src/components/SummaryCard.tsx:67-73 | Group sizes add up to the number of transactions and group totals to the side sum |
| CategoryGroups.SectionTotals | src/components/TransactionTable.tsx:136-137 | With no negative amounts, the section total equals the sum of the side's group totals |
| Companies.CompanyName | src/components/SummaryCard.tsx:85-88 | A name is never empty and has at most 53 characters |
| Companies.CompanyNameRules | src/components/SummaryCard.tsx:85-88 | The trimmed counterparty, cut to 50 plus `...` or replaced by `Комисионна` when it holds `BGN В ПОЛЗА`; else the first 50 description characters, under the same marker rule; else `Неизвестен` |
| Companies.UnknownUnmarked | src/components/SummaryCard.tsx:85-87 | The unknown name is not turned into the commission name |
| Companies.TallyOfSnoc | src/components/SummaryCard.tsx:90-92 | A transaction adds its amount and one only to its own name's entry |
| Companies.TallyOpen | src/components/SummaryCard.tsx:90 | A new name opens at zero |
| Companies.TallyAdd | src/components/SummaryCard.tsx:91-92 | Adding a transaction keeps every entry equal to its name's total and count |
| Companies.TallyByName | src/components/SummaryCard.tsx:84-93 | The loop fills one entry per name, in first-occurrence order, each holding its name's total and count |
| Companies.CompanyEntries | src/components/SummaryCard.tsx:95-96 | One company per name, in name order |
| Companies.GroupByCompany | src/components/SummaryCard.tsx:81-98 | The result is the declarative company list, sorted by total |
| Companies.CompanyListShape | src/components/SummaryCard.tsx:95-96 | Each entry is its name's tally, and the entries add up as their names' members do |
| Companies.CompanyOrder | src/components/SummaryCard.tsx:95-97 | Companies are sorted by total, largest first, under distinct names |
| Companies.CompanyMembers | src/components/SummaryCard.tsx:84-96 | Each company counts at least one transaction; its count and total are those of the transactions carrying its name |
| Companies.CompanyTotalsAdd | src/components/SummaryCard.tsx:90-93 | Counts add up to the number of transactions and totals to the side sum |
| Companies.CompaniesOfCategory | src/components/SummaryCard.tsx:101-103 | Within a category group, company counts add up to the group's size and totals to its total |
| CsvExport.HeaderSplit | src/export.ts:4-14 | The header line splits at its commas into the nine column names, in order |
| CsvExport.HeaderFree | src/export.ts:4-14 | The header line holds no line break |
| CsvExport.Escape | src/export.ts:18-19 | Escaping never shortens a text |
| CsvExport.UnescapeEscape | src/export.ts:18-19 | Un-doubling the quotes of an escaped text gives it back |
| CsvExport.EscapeQuoteFree | src/export.ts:18-19 | Text without `"` is unchanged by escaping |
| CsvExport.UnquoteQuote | src/export.ts:18-19 | A quoted field reads back as the original text |
| CsvExport.Row | src/export.ts:16-26 | Every row has exactly nine fields |
| CsvExport.RowFields | src/export.ts:16-26 | Description and counterparty unquote to their text; a missing invoice and zero amounts give empty fields; date, reference, currency and category are verbatim |
| CsvExport.RowSplit | src/export.ts:30 | A row without commas in its fields splits back into its fields |
| CsvExport.Lines | src/export.ts:16 | One line per transaction |
| CsvExport.LinesAt | src/export.ts:16 | The i-th line is the i-th transaction's row |
| CsvExport.CsvEmpty | src/export.ts:28-31 | No transactions gives the header line alone |
| CsvExport.CsvSnoc | src/export.ts:28-31 | One more transaction appends a newline and its row |
| CsvExport.CsvLines | src/export.ts:28-31 | Without line breaks in fields, the export splits at newlines into the header and the rows in order |
| CsvExport.CsvStartsWithHeader | src/export.ts:28-29 | The export starts with the header line |

## Left out

- File reading (`FileReader`), `TextDecoder` for UTF-16LE and UTF-8, and the DOM parser are foreign code. The decoders are function parameters, and the DOM is replaced by the records its queries return.
- The `!arrayBuffer` rejection and `reader.onerror` in `readFileAsText` are not modelled; they are I/O failures.
- Numbers are reals. Floating-point rounding, `NaN` beyond "unreadable becomes 0", `Infinity` and negative zero are not modelled.
- `toLowerCase` covers only A-Z, А-Я and Ѐ-Џ. Every keyword the categorisers test uses only these letters' lower-case forms and spaces.
- `String.prototype.length` and `substring` count UTF-16 code units; the model counts characters. The two agree on the Cyrillic and Latin text of these statements.
- `Object.entries` lists integer-like keys first, in numeric order; the model lists all keys in insertion order. Inherited keys such as `constructor` are treated as ordinary names.
- Grouping.SortByTotal: stability and the tie order of JavaScript's `sort` are not stated; only the order by total and the permutation are.
- CategoryGroups.SectionTotals: requires non-negative amounts on the side, because the groups only see transactions with a positive amount.
- Companies.TallyByName: the names are computed for all transactions before the loop, instead of once per iteration; the values are the same.
- CsvExport.HeaderSplit: the header line is stated as the nine names joined by commas, not as one literal string.
- CsvExport.Row: number rendering (`String(number)`) is a parameter.
- Both spellings of `цп d` in the DSK branch rule are the same string and are kept once.
- The DSK per-transaction currency is the constant `BGN`, as in the code.
- The download (`Blob`, `URL.createObjectURL`, the link element), the file name with the current date, and `exportSummaryToText` are not modelled. They are I/O, `toFixed` and locale formatting.
- The React components' rendering and state, the top-ten slicing of the displayed company lists, `App.tsx`, `utils.ts` (currency and date formatting), `Header.tsx` and `FileUpload.tsx` are user interface code and are not part of this model.
