/** The category vocabulary shared by the three dialect categorisers: the
    tags they emit and the keyword test they all use, a lower-cased
    substring search that succeeds when any keyword of a list occurs. */
module Categories {
  import opened Text

  const PosIncome := "pos_income"
  const BranchIncome := "branch_income"
  const DatexIncome := "datex_income"
  const FxIncome := "fx_income"
  const OtherIncome := "other_income"
  const Fees := "fees"
  const Transfers := "transfers"
  const FxExpense := "fx_expense"
  const OtherExpense := "other_expense"

  /** Some keyword of the list occurs in `text`. */
  predicate HasAny(text: String, keywords: seq<String>) {
    |keywords| > 0 && (Contains(text, keywords[0]) || HasAny(text, keywords[1..]))
  }

  /** `HasAny` is the disjunction over the list. */
  lemma {:induction false} HasAnyIff(text: String, keywords: seq<String>)
    ensures HasAny(text, keywords) <==> exists k :: 0 <= k < |keywords| && Contains(text, keywords[k])
  {
    if |keywords| > 0 {
      HasAnyIff(text, keywords[1..]);
      assert forall k :: 1 <= k < |keywords| ==> keywords[1..][k - 1] == keywords[k];
    }
  }

  /** The default tag of a direction, used when no rule matches and when a
      transaction arrives at the grouping step without a category. */
  function DefaultTag(isCredit: bool): (tag: String)
    ensures tag == OtherIncome || tag == OtherExpense
    ensures (tag == OtherIncome) == isCredit
  {
    if isCredit then OtherIncome else OtherExpense
  }
}
