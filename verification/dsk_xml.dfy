/** The DSK XML statement (src/parsers/dskParser.ts). The XML document is
    given as the text content of the elements the parser queries, already
    extracted; `None` stands for an element that is absent. Two layouts
    exist: the old one, recognised by an `<AccountMovementsResult>` tag in
    the raw text, carries the account, the client and the opening and
    closing sums; the new one carries only the movements. */
module DskXml {
  import opened Wrappers
  import opened Text
  import opened Numbers
  import opened Ledger
  import opened Categories
  import opened Dates

  const BankName := "Банка ДСК"
  const DefaultClient := "АЛАДИН ФУУДС ООД"
  const OldFormatMarker := "<AccountMovementsResult>"

  /** One `AccountMovement` element: the text of its children. */
  datatype Movement = Movement(
    accountingDate: Option<String>,
    valueDate: Option<String>,
    reason: Option<String>,
    oppositeSideName: Option<String>,
    oppositeSideAccount: Option<String>,
    movementType: Option<String>,
    amount: Option<String>)

  /** The `Sums` element: the text of `BeginSum` and `EndSum`. */
  datatype Sums = Sums(beginSum: Option<String>, endSum: Option<String>)

  /** What the parser reads from a DSK document. `malformed` is set when the
      XML parser reports an error; `clientName` is the first `n` below
      `Client`, `clientChildName` the first `n` directly under it. */
  datatype Document = Document(
    malformed: bool,
    bankAccountId: Option<String>,
    clientName: Option<String>,
    clientChildName: Option<String>,
    sums: Option<Sums>,
    movements: seq<Movement>)

  // Amounts and dates

  /** `parseAmount`: blank is 0; otherwise the trimmed text loses all its
      whitespace, its first `,` becomes the decimal point, and it is read by
      `parseFloat`, 0 when unreadable. */
  function ParseAmount(s: String): (r: real)
    ensures Trim(s) == "" ==> r == 0.0
  {
    if Trim(s) == "" then 0.0 else NumberOrZero(ReplaceFirst(RemoveWhitespace(Trim(s)), ',', '.'))
  }

  /** An amount read from an element whose missing or empty text counts as
      `0` (`textContent || '0'`). */
  function AmountOf(text: Option<String>): real {
    ParseAmount(OrElse(text.GetOr(""), "0"))
  }

  /** Thousands separated by a space and a decimal comma: `1 234,56` reads
      as 1234.56. */
  lemma GroupedAmount(a: String, b: String, c: String)
    requires |a| > 0 && |b| > 0 && AllDigits(a) && AllDigits(b) && AllDigits(c)
    ensures ParseAmount(a + " " + b + "," + c) == NatValue(a + b) as real + NatValue(c) as real / Pow10(|c|) as real
  {
    var s := a + " " + b + "," + c;
    GroupedNotBlank(a, b, c);
    GroupedSpaceRemoved(a, b, c);
    assert AllDigits(a + b) by {
      forall i | 0 <= i < |a + b| ensures IsDigit((a + b)[i]) {
        if i >= |a| {
          assert (a + b)[i] == b[i - |a|];
        }
      }
    }
    CommaAsPoint(a + b, c);
  }

  /** Grouped digits start and end with a digit: nothing to trim. */
  lemma GroupedNotBlank(a: String, b: String, c: String)
    requires |a| > 0 && AllDigits(a) && AllDigits(c)
    ensures Trim(a + " " + b + "," + c) == a + " " + b + "," + c != ""
  {
    var s := a + " " + b + "," + c;
    assert !IsWhitespace(s[0]) by {
      assert s[0] == a[0];
      assert IsDigit(a[0]);
    }
    assert !IsWhitespace(s[|s| - 1]) by {
      if |c| > 0 {
        assert s[|s| - 1] == c[|c| - 1];
        assert IsDigit(c[|c| - 1]);
      } else {
        assert s[|s| - 1] == ',';
      }
    }
  }

  /** Removing whitespace joins the digit groups. */
  lemma GroupedSpaceRemoved(a: String, b: String, c: String)
    requires AllDigits(a) && AllDigits(b) && AllDigits(c)
    ensures RemoveWhitespace(a + " " + b + "," + c) == a + b + "," + c
  {
    RemoveWhitespaceAppend(a + " " + b + ",", c);
    RemoveWhitespaceAppend(a + " " + b, ",");
    RemoveWhitespaceAppend(a + " ", b);
    RemoveWhitespaceAppend(a, " ");
    assert RemoveWhitespace(" ") == "" by {
      assert RemoveWhitespace(" ") == RemoveWhitespace(" "[1..]);
    }
    assert RemoveWhitespace(",") == "," by {
      assert RemoveWhitespace(",") == [','] + RemoveWhitespace(","[1..]);
    }
    DigitsKeep(a);
    DigitsKeep(b);
    DigitsKeep(c);
    assert a + "" == a;
  }

  /** Digits hold no whitespace to remove. */
  lemma DigitsKeep(a: String)
    requires AllDigits(a)
    ensures RemoveWhitespace(a) == a
  {
    RemoveWhitespaceShape(a);
    forall i | 0 <= i < |a| ensures !IsWhitespace(a[i]) {
      assert IsDigit(a[i]);
    }
  }

  /** The example amount of a DSK statement. */
  lemma GroupedAmountExample()
    ensures ParseAmount("1 234,56") == 1234.56
  {
    GroupedAmount("1", "234", "56");
    GroupedExampleText();
    GroupedExampleValue();
  }

  /** The example amount, as the pieces `GroupedAmount` takes. */
  lemma GroupedExampleText()
    ensures "1" + " " + "234" + "," + "56" == "1 234,56"
  {
    assert "1" + " " == "1 ";
    assert "1 " + "234" == "1 234";
    assert "1 234" + "," == "1 234,";
    assert "1 234," + "56" == "1 234,56";
  }

  /** The digit strings of the example and their value. */
  lemma GroupedExampleValue()
    ensures NatValue("1" + "234") as real + NatValue("56") as real / Pow10(|"56"|) as real == 1234.56
  {
    assert "1" + "234" == "1234";
    assert NatValue("1234") == 1234 by {
      assert "1234"[..3] == "123" && "123"[..2] == "12" && "12"[..1] == "1" && "1"[..0] == "";
    }
    assert NatValue("56") == 56 by {
      assert "56"[..1] == "5" && "5"[..0] == "";
    }
    assert Pow10(|"56"|) == 100;
  }

  /** `parseDate`: the trimmed text, with `DD.MM.YYYY` turned into
      `YYYY-MM-DD`. */
  function ParseDate(s: String): String {
    ReorderTrimmed(s, '.')
  }

  // Text cleaning

  /** The length of a `<br>` tag at the start of `s` as the pattern
      `<br\s*\/?>` (letters in either case) matches it, 0 when there is none. */
  function BreakTagLength(s: String): (n: nat)
    ensures n == 0 || 4 <= n <= |s|
  {
    if |s| >= 3 && s[0] == '<' && (s[1] == 'b' || s[1] == 'B') && (s[2] == 'r' || s[2] == 'R') then
      var k := |s| - |TrimStart(s[3..])|;
      if k < |s| && s[k] == '>' then k + 1
      else if k + 1 < |s| && s[k] == '/' && s[k + 1] == '>' then k + 2
      else 0
    else 0
  }

  /** Every `<br>` tag replaced by a space, scanning left to right. */
  function ReplaceBreaks(s: String): String
    decreases |s|
  {
    if |s| == 0 then ""
    else
      var n := BreakTagLength(s);
      if n > 0 then " " + ReplaceBreaks(s[n..]) else [s[0]] + ReplaceBreaks(s[1..])
  }

  /** Every run of whitespace replaced by a single space (`/\s+/g`). */
  function Collapse(s: String): String
    decreases |s|
  {
    if |s| == 0 then ""
    else if IsWhitespace(s[0]) then " " + Collapse(TrimStart(s[1..]))
    else [s[0]] + Collapse(s[1..])
  }

  /** No two adjacent characters are both whitespace. */
  predicate SingleSpaced(s: String) {
    forall i :: 0 <= i < |s| - 1 ==> !(IsWhitespace(s[i]) && IsWhitespace(s[i + 1]))
  }

  /** The only whitespace is the plain space. */
  predicate PlainSpaces(s: String) {
    forall i :: 0 <= i < |s| ==> IsWhitespace(s[i]) ==> s[i] == ' '
  }

  /** `cleanText`: a missing or empty text is `''`; otherwise `<br>` tags
      become spaces, whitespace runs one space, and the ends are trimmed. */
  function CleanText(text: Option<String>): String {
    if text.None? || text.value == "" then ""
    else Trim(Collapse(ReplaceBreaks(text.value)))
  }

  /** The collapsed text is single-spaced, uses plain spaces only, and
      starts with what the original starts with when that is not blank. */
  lemma {:induction false} CollapseShape(s: String)
    ensures var r := Collapse(s);
      SingleSpaced(r) && PlainSpaces(r) &&
      (|s| > 0 && !IsWhitespace(s[0]) ==> |r| > 0 && r[0] == s[0]) &&
      (|s| > 0 && IsWhitespace(s[0]) ==> |r| > 0 && r[0] == ' ')
    decreases |s|
  {
    if |s| > 0 {
      if IsWhitespace(s[0]) {
        var t := TrimStart(s[1..]);
        CollapseShape(t);
        var rest := Collapse(t);
        assert rest == [] || !IsWhitespace(rest[0]);
        SpacedCons(' ', rest);
      } else {
        CollapseShape(s[1..]);
        SpacedCons(s[0], Collapse(s[1..]));
      }
    }
  }

  /** A character put in front keeps both properties when it is not
      whitespace, or is a plain space before text that does not start
      with whitespace. */
  lemma SpacedCons(c: char, s: String)
    requires SingleSpaced(s) && PlainSpaces(s)
    requires !IsWhitespace(c) || (c == ' ' && (s == [] || !IsWhitespace(s[0])))
    ensures SingleSpaced([c] + s) && PlainSpaces([c] + s)
  {
    var r := [c] + s;
    forall i | 1 <= i < |r| ensures r[i] == s[i - 1] {
    }
  }

  /** Both properties hold of any contiguous part. */
  lemma SpacingOfSlice(s: String, i: nat, j: nat)
    requires i <= j <= |s| && SingleSpaced(s) && PlainSpaces(s)
    ensures SingleSpaced(s[i..j]) && PlainSpaces(s[i..j])
  {
    var t := s[i..j];
    forall k | 0 <= k < |t| - 1 ensures !(IsWhitespace(t[k]) && IsWhitespace(t[k + 1])) {
      assert t[k] == s[i + k] && t[k + 1] == s[i + k + 1];
    }
  }

  /** Trimming keeps both properties. */
  lemma SpacingOfTrim(c: String)
    requires SingleSpaced(c) && PlainSpaces(c)
    ensures SingleSpaced(Trim(c)) && PlainSpaces(Trim(c))
  {
    var t := TrimStart(c);
    SpacingOfSlice(c, |c| - |t|, |c|);
    SpacingOfSlice(t, 0, |TrimEnd(t)|);
  }

  /** Cleaned text has no whitespace at either end, no two whitespace
      characters in a row, and no whitespace but the plain space. */
  lemma CleanTextShape(text: Option<String>)
    ensures var r := CleanText(text);
      (text.None? || text.value == "" ==> r == "") &&
      (r == "" || (!IsWhitespace(r[0]) && !IsWhitespace(r[|r| - 1]))) &&
      SingleSpaced(r) && PlainSpaces(r)
  {
    if text.Some? && text.value != "" {
      var c := Collapse(ReplaceBreaks(text.value));
      CollapseShape(ReplaceBreaks(text.value));
      SpacingOfTrim(c);
      assert CleanText(text) == Trim(c);
    }
  }

  /** `<br>` tags in their several spellings are recognised, and text that
      only resembles one is not. */
  lemma BreakExamples()
    ensures BreakTagLength("<br>") == 4 && BreakTagLength("<BR/>") == 5 && BreakTagLength("<br />") == 6
    ensures BreakTagLength("<b>") == 0 && BreakTagLength("<br/ >") == 0
  {
    PlainBreak();
    ClosedBreak();
    SpacedBreak();
    BrokenBreak();
  }

  lemma PlainBreak()
    ensures BreakTagLength("<br>") == 4
  {
    var s := "<br>";
    assert s[3..3] == "" && s[3] == '>';
    BreakTagAfter(s, "");
  }

  lemma ClosedBreak()
    ensures BreakTagLength("<BR/>") == 5
  {
    var s := "<BR/>";
    assert s[3..3] == "" && s[3] == '/' && s[4] == '>';
    BreakTagAfter(s, "");
  }

  lemma SpacedBreak()
    ensures BreakTagLength("<br />") == 6
  {
    var s := "<br />";
    assert s[3..4] == " " && s[4] == '/' && s[5] == '>';
    BreakTagAfter(s, " ");
  }

  lemma BrokenBreak()
    ensures BreakTagLength("<br/ >") == 0
  {
    var s := "<br/ >";
    assert s[3..3] == "" && s[3] == '/' && s[4] == ' ';
    BreakTagAfter(s, "");
  }

  /** After `<br` and the whitespace `blank`, a `>` or `/>` closes the tag. */
  lemma BreakTagAfter(s: String, blank: String)
    requires |s| >= 3 + |blank| && s[0] == '<' && (s[1] == 'b' || s[1] == 'B') && (s[2] == 'r' || s[2] == 'R')
    requires s[3..3 + |blank|] == blank && (forall i :: 0 <= i < |blank| ==> IsWhitespace(blank[i]))
    requires 3 + |blank| < |s| ==> !IsWhitespace(s[3 + |blank|])
    ensures var k := 3 + |blank|;
      BreakTagLength(s) ==
        if k < |s| && s[k] == '>' then k + 1
        else if k + 1 < |s| && s[k] == '/' && s[k + 1] == '>' then k + 2
        else 0
  {
    TrimStartSkips(s[3..], |blank|);
  }

  // Categories

  const PosWords: seq<String> := ["pos", "карт"]
  const BranchWords: seq<String> := ["поделение", "инкасо", "цп d"]
  const DatexWords: seq<String> := ["датекс", "datex"]
  const FeeWords: seq<String> := ["такса", "комисион", "fee"]
  const TransferWords: seq<String> := ["превод", "прехвърляне", "bisera"]

  /** The length of the run of `x` at the start of `s`. */
  function XRun(s: String): (n: nat)
    ensures n <= |s|
  {
    if |s| > 0 && s[0] == 'x' then 1 + XRun(s[1..]) else 0
  }

  /** `/^\d{6}x+\d+/`: six digits, one or more `x`, then a digit, at the
      start of `s` (the masked card number of a POS settlement). */
  predicate CardPrefix(s: String) {
    |s| >= 6 && AllDigits(s[..6]) &&
    var k := XRun(s[6..]);
    k >= 1 && 6 + k < |s| && IsDigit(s[6 + k])
  }

  /** `categorizeByContent`: rules tried in order on the lower-cased reason
      and counterparty, plus the card-number pattern on the reason itself. */
  function Categorize(reason: String, counterparty: String, isCredit: bool): (tag: String)
    ensures isCredit ==> tag in {PosIncome, BranchIncome, DatexIncome, OtherIncome}
    ensures !isCredit ==> tag in {Fees, Transfers, OtherExpense}
  {
    var desc := ToLower(reason + " " + counterparty);
    if isCredit then
      if HasAny(desc, PosWords) || CardPrefix(reason) then PosIncome
      else if HasAny(desc, BranchWords) then BranchIncome
      else if HasAny(desc, DatexWords) then DatexIncome
      else OtherIncome
    else
      if HasAny(desc, FeeWords) then Fees
      else if HasAny(desc, TransferWords) then Transfers
      else OtherExpense
  }

  /** Which rule decides: a tag is given exactly when its test succeeds
      and no earlier rule of the same direction did. */
  lemma CategorizeRules(reason: String, counterparty: String, isCredit: bool)
    ensures var tag := Categorize(reason, counterparty, isCredit);
      var desc := ToLower(reason + " " + counterparty);
      var pos := HasAny(desc, PosWords) || CardPrefix(reason);
      (tag == PosIncome <==> isCredit && pos) &&
      (tag == BranchIncome <==> isCredit && !pos && HasAny(desc, BranchWords)) &&
      (tag == DatexIncome <==> isCredit && !pos && !HasAny(desc, BranchWords) && HasAny(desc, DatexWords)) &&
      (tag == Fees <==> !isCredit && HasAny(desc, FeeWords)) &&
      (tag == Transfers <==> !isCredit && !HasAny(desc, FeeWords) && HasAny(desc, TransferWords))
  {
  }

  /** A masked card number at the start of the reason makes a credit a POS
      income whatever the words say. */
  lemma CardNumberIsPos(digits: String, xs: nat, tail: String, counterparty: String)
    requires |digits| == 6 && AllDigits(digits) && xs >= 1 && |tail| > 0 && IsDigit(tail[0])
    ensures Categorize(digits + seq(xs, _ => 'x') + tail, counterparty, true) == PosIncome
  {
    var s := digits + seq(xs, _ => 'x') + tail;
    assert s[..6] == digits;
    XRunIs(s[6..], xs);
    assert s[6 + xs] == tail[0];
  }

  lemma {:induction false} XRunIs(s: String, n: nat)
    requires n <= |s| && (forall i :: 0 <= i < n ==> s[i] == 'x') && (n == |s| || s[n] != 'x')
    ensures XRun(s) == n
  {
    if n > 0 {
      XRunIs(s[1..], n - 1);
    }
  }

  // The IBAN of the old layout

  predicate IsIbanChar(c: char) {
    IsUpperLatin(c) || IsDigit(c)
  }

  /** `[A-Z]{2}\d{2}[A-Z0-9]` starts at `i`. */
  predicate IbanAt(s: String, i: nat) {
    i + 5 <= |s| && IsUpperLatin(s[i]) && IsUpperLatin(s[i + 1]) && IsDigit(s[i + 2]) && IsDigit(s[i + 3])
    && IsIbanChar(s[i + 4])
  }

  /** The run of `[A-Z0-9]` at the start of `s`. */
  function IbanCharRun(s: String): (n: nat)
    ensures n <= |s|
  {
    if |s| > 0 && IsIbanChar(s[0]) then 1 + IbanCharRun(s[1..]) else 0
  }

  /** The run holds only IBAN characters and is followed by none. */
  lemma {:induction false} IbanCharRunShape(s: String)
    ensures forall i :: 0 <= i < IbanCharRun(s) ==> IsIbanChar(s[i])
    ensures IbanCharRun(s) == |s| || !IsIbanChar(s[IbanCharRun(s)])
  {
    if |s| > 0 && IsIbanChar(s[0]) {
      IbanCharRunShape(s[1..]);
      forall i | 1 <= i < IbanCharRun(s) ensures IsIbanChar(s[i]) {
        assert s[i] == s[1..][i - 1];
      }
    }
  }

  /** The leftmost position at or after `from` where an IBAN shape starts. */
  function FirstIbanAt(s: String, from: nat): (r: Option<nat>)
    ensures r.Some? ==> from <= r.value && IbanAt(s, r.value)
    decreases |s| - from
  {
    if from + 5 > |s| then None
    else if IbanAt(s, from) then Some(from)
    else FirstIbanAt(s, from + 1)
  }

  /** No IBAN shape starts between `from` and the position found, nor
      anywhere after `from` when none is found. */
  lemma {:induction false} FirstIbanAtLeftmost(s: String, from: nat)
    ensures FirstIbanAt(s, from).Some? ==> forall j :: from <= j < FirstIbanAt(s, from).value ==> !IbanAt(s, j)
    ensures FirstIbanAt(s, from).None? ==> forall j :: from <= j ==> !IbanAt(s, j)
    decreases |s| - from
  {
    if from + 5 <= |s| && !IbanAt(s, from) {
      FirstIbanAtLeftmost(s, from + 1);
    }
  }

  /** `id.match(/([A-Z]{2}\d{2}[A-Z0-9]+)/)`: the leftmost, longest match,
      or the whole text when nothing matches. */
  function ExtractIban(id: String): String {
    match FirstIbanAt(id, 0)
    case Some(i) => id[i..i + 4 + IbanCharRun(id[i + 4..])]
    case None => id
  }

  /** The extracted IBAN is a part of the text with two capital letters,
      two digits and at least one more capital letter or digit, starting at
      the leftmost place such a shape starts and running as far as such
      characters go; without one the text is kept whole. */
  lemma ExtractIbanShape(id: String)
    ensures var r := ExtractIban(id);
      (forall j :: !IbanAt(id, j)) ==> r == id
    ensures FirstIbanAt(id, 0).Some? ==>
      var i := FirstIbanAt(id, 0).value;
      var r := ExtractIban(id);
      (forall j :: 0 <= j < i ==> !IbanAt(id, j)) && IbanMatch(id, i, r)
  {
    if FirstIbanAt(id, 0).Some? {
      var i := FirstIbanAt(id, 0).value;
      assert IbanAt(id, i);
      FirstIbanAtLeftmost(id, 0);
      IbanSpan(id, i);
      assert ExtractIban(id) == id[i..i + 4 + IbanCharRun(id[i + 4..])];
    }
  }

  /** `r` is the part of `id` at `i` that the IBAN pattern matches: two
      capital letters, two digits and at least one more capital letter or
      digit, with no such character right after it. */
  predicate IbanMatch(id: String, i: nat, r: String) {
    5 <= |r| && i + |r| <= |id| && r == id[i..i + |r|] &&
    IsUpperLatin(r[0]) && IsUpperLatin(r[1]) && IsDigit(r[2]) && IsDigit(r[3]) &&
    (forall k :: 4 <= k < |r| ==> IsIbanChar(r[k])) &&
    (i + |r| == |id| || !IsIbanChar(id[i + |r|]))
  }

  /** From a place where the IBAN shape starts, the run of IBAN characters
      after the first four gives a part of the text of at least five
      characters, of that shape throughout, that cannot be extended. */
  lemma IbanSpan(id: String, i: nat)
    requires IbanAt(id, i)
    ensures IbanMatch(id, i, id[i..i + 4 + IbanCharRun(id[i + 4..])])
  {
    var tail := id[i + 4..];
    var n := IbanCharRun(tail);
    IbanCharRunShape(tail);
    assert n >= 1 by {
      assert tail[0] == id[i + 4];
    }
    var r := id[i..i + 4 + n];
    assert r[0] == id[i] && r[1] == id[i + 1] && r[2] == id[i + 2] && r[3] == id[i + 3];
    forall k | 4 <= k < |r| ensures IsIbanChar(r[k]) {
      assert r[k] == tail[k - 4];
    }
    assert i + |r| == |id| || !IsIbanChar(id[i + |r|]) by {
      if i + |r| < |id| {
        assert id[i + |r|] == tail[n];
      }
    }
    assert r == id[i..i + |r|];
  }

  // Movements

  /** The short description: the reason up to the first `<br`, trimmed, and
      cut to 80 characters followed by `...` when longer. */
  function Description(reason: String): String {
    var head := Trim(PrefixBefore(reason, "<br"));
    if |head| > 80 then head[..80] + "..." else head
  }

  /** A description is at most 83 characters long; it is the trimmed text
      before `<br` itself when that has at most 80 characters, and otherwise
      the first 80 of them followed by `...`. */
  lemma DescriptionBound(reason: String)
    ensures var head := Trim(PrefixBefore(reason, "<br")); var r := Description(reason);
      |r| <= 83 &&
      (|head| <= 80 ==> r == head) &&
      (|head| > 80 ==> |r| == 83 && r[..80] == head[..80] && r[80..] == "...")
  {
  }

  /** The movement type, cleaned and lower-cased, is exactly `credit`. */
  predicate IsCreditType(movementType: String) {
    ToLower(movementType) == "credit"
  }

  /** The transaction of one movement. */
  function MovementTx(m: Movement): Transaction {
    var reason := CleanText(m.reason);
    var counterparty := CleanText(m.oppositeSideName);
    var amount := AmountOf(m.amount);
    var isCredit := IsCreditType(CleanText(m.movementType));
    Transaction(
      ParseDate(OrElse(CleanText(m.accountingDate), CleanText(m.valueDate))),
      Description(reason),
      counterparty,
      CleanText(m.oppositeSideAccount),
      None,
      if isCredit then 0.0 else amount,
      if isCredit then amount else 0.0,
      "BGN",
      Categorize(reason, counterparty, isCredit))
  }

  /** A movement is a credit of its amount and a debit of 0 exactly when
      its type reads `credit`; otherwise the reverse. */
  lemma MovementSplit(m: Movement)
    ensures var t := MovementTx(m); var isCredit := IsCreditType(CleanText(m.movementType));
      (isCredit ==> t.credit == AmountOf(m.amount) && t.debit == 0.0) &&
      (!isCredit ==> t.debit == AmountOf(m.amount) && t.credit == 0.0) &&
      t.currency == "BGN" && t.invoiceNumber.None? &&
      (isCredit ==> t.category in {PosIncome, BranchIncome, DatexIncome, OtherIncome}) &&
      (!isCredit ==> t.category in {Fees, Transfers, OtherExpense})
  {
  }

  /** The transactions of the movements, one each, in document order. */
  function Converted(movements: seq<Movement>): (ts: seq<Transaction>)
    ensures |ts| == |movements|
  {
    seq(|movements|, i requires 0 <= i < |movements| => MovementTx(movements[i]))
  }

  // The statement

  /** The client: the first `n` under `Client`, else the first child `n`,
      else the default name. */
  function ClientName(doc: Document): String {
    OrElse(OrElse(CleanText(doc.clientName), CleanText(doc.clientChildName)), DefaultClient)
  }

  function OpeningOf(doc: Document): real {
    match doc.sums
    case Some(sums) => AmountOf(sums.beginSum)
    case None => 0.0
  }

  function ClosingOf(doc: Document): real {
    match doc.sums
    case Some(sums) => AmountOf(sums.endSum)
    case None => 0.0
  }

  /** The statement of a document whose raw text is `content`. */
  function Statement(content: String, doc: Document): Result<BankStatement, ParseError> {
    if doc.malformed then Err(InvalidXml) else Ok(StatementOf(content, doc, Converted(doc.movements)))
  }

  /** The statement of a well-formed document with transactions `txs`. */
  function StatementOf(content: String, doc: Document, txs: seq<Transaction>): BankStatement {
    var isOld := Contains(content, OldFormatMarker);
    var opening := if isOld then OpeningOf(doc) else 0.0;
    var closing := if isOld then ClosingOf(doc) else opening + SumCredit(txs) - SumDebit(txs);
    BankStatement(BankName,
                  if isOld then ClientName(doc) else DefaultClient,
                  if isOld then ExtractIban(CleanText(doc.bankAccountId)) else "",
                  "BGN", opening, closing, SumDebit(txs), SumCredit(txs), txs)
  }

  /** The `forEach` over the movements: each transaction appended in turn
      with its amounts added to the running totals. */
  method CollectMovements(converted: seq<Transaction>)
    returns (transactions: seq<Transaction>, totalDebit: real, totalCredit: real)
    ensures transactions == converted
    ensures totalDebit == SumDebit(converted) && totalCredit == SumCredit(converted)
  {
    transactions := [];
    totalDebit, totalCredit := 0.0, 0.0;
    for i := 0 to |converted|
      invariant transactions == converted[..i]
      invariant totalDebit == SumDebit(transactions) && totalCredit == SumCredit(transactions)
    {
      var t := converted[i];
      SumsSnoc(transactions, t);
      totalDebit := totalDebit + t.debit;
      totalCredit := totalCredit + t.credit;
      transactions := transactions + [t];
    }
    assert converted[..|converted|] == converted;
  }

  /** `parseDSKXML`. */
  method ParseDskXml(content: String, doc: Document) returns (r: Result<BankStatement, ParseError>)
    ensures r == Statement(content, doc)
  {
    if doc.malformed {
      return Err(InvalidXml);
    }
    var transactions, totalDebit, totalCredit := CollectMovements(Converted(doc.movements));
    var statement := Assemble(content, doc, transactions, totalDebit, totalCredit);
    r := Ok(statement);
  }

  /** The header fields and the balances around the collected movements. */
  method Assemble(content: String, doc: Document, transactions: seq<Transaction>, totalDebit: real, totalCredit: real)
    returns (statement: BankStatement)
    requires totalDebit == SumDebit(transactions) && totalCredit == SumCredit(transactions)
    ensures statement == StatementOf(content, doc, transactions)
  {
    var isOldFormat := Contains(content, OldFormatMarker);
    var iban := "";
    var clientName := DefaultClient;
    var openingBalance, closingBalance := 0.0, 0.0;
    if isOldFormat {
      var bankAccountId := CleanText(doc.bankAccountId);
      iban := ExtractIban(bankAccountId);
      clientName := OrElse(OrElse(CleanText(doc.clientName), CleanText(doc.clientChildName)), clientName);
      if doc.sums.Some? {
        openingBalance := AmountOf(doc.sums.value.beginSum);
        closingBalance := AmountOf(doc.sums.value.endSum);
      }
    }
    if !isOldFormat {
      closingBalance := openingBalance + totalCredit - totalDebit;
    }
    statement := BankStatement(BankName, clientName, iban, "BGN", openingBalance, closingBalance,
                               totalDebit, totalCredit, transactions);
  }

  // Properties of the statement

  /** A malformed document is rejected, and only a malformed one. */
  lemma MalformedRejected(content: String, doc: Document)
    ensures Statement(content, doc).Err? <==> doc.malformed
  {
  }

  /** One transaction per movement, in document order, and the totals are
      the sums of their debits and credits. */
  lemma TotalsAreSums(content: String, doc: Document)
    requires !doc.malformed
    ensures var s := Statement(content, doc).value;
      s.transactions == Converted(doc.movements) &&
      s.totalDebit == SumDebit(s.transactions) && s.totalCredit == SumCredit(s.transactions)
  {
    var txs := Converted(doc.movements);
    assert Statement(content, doc).value == StatementOf(content, doc, txs);
  }

  /** Without the old-layout marker the opening balance is 0 and the
      closing balance is derived from the totals; with it both come from
      `Sums` and are not recomputed. */
  lemma BalancesByLayout(content: String, doc: Document)
    requires !doc.malformed
    ensures var s := Statement(content, doc).value;
      (!Contains(content, OldFormatMarker) ==>
        s.openingBalance == 0.0 && s.closingBalance == s.totalCredit - s.totalDebit &&
        s.iban == "" && s.accountHolder == DefaultClient) &&
      (Contains(content, OldFormatMarker) ==>
        s.openingBalance == OpeningOf(doc) && s.closingBalance == ClosingOf(doc))
  {
  }

  /** Every description of a DSK statement is at most 83 characters. */
  lemma DescriptionsBounded(content: String, doc: Document)
    requires !doc.malformed
    ensures forall t :: t in Statement(content, doc).value.transactions ==> |t.description| <= 83
  {
    TotalsAreSums(content, doc);
    ConvertedDescriptions(doc.movements);
  }

  /** The bound holds for every converted movement. */
  lemma ConvertedDescriptions(movements: seq<Movement>)
    ensures forall t :: t in Converted(movements) ==> |t.description| <= 83
  {
    var txs := Converted(movements);
    forall t | t in txs ensures |t.description| <= 83 {
      var i :| 0 <= i < |txs| && txs[i] == t;
      MovementDescription(movements[i]);
    }
  }

  /** The bound for one movement. */
  lemma MovementDescription(m: Movement)
    ensures |MovementTx(m).description| <= 83
  {
    DescriptionBound(CleanText(m.reason));
  }
}
