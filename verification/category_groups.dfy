/** `groupByCategory`, written the same way in
    src/components/SummaryCard.tsx and src/components/TransactionTable.tsx:
    one side's transactions are filed in a dictionary under their category,
    each entry becomes a titled group with its total, and the groups are
    sorted by total, largest first. */
module CategoryGroups {
  import opened Text
  import opened Ledger
  import opened Grouping
  import Categories

  datatype Group = Group(id: String, title: String, transactions: seq<Transaction>, total: real)

  function GroupTotal(g: Group): real {
    g.total
  }

  function GroupSize(g: Group): real {
    |g.transactions| as real
  }

  function GroupId(g: Group): String {
    g.id
  }

  /** The display titles; both the tags the parsers emit and older aliases
      are listed. */
  const Titles: map<String, String> := map[
    "pos_income" := "POS плащания (карти)",
    "card_payment" := "POS плащания (карти)",
    "branch_income" := "Инкасо от поделения",
    "datex_income" := "Датекс",
    "datex" := "Датекс",
    "other_income" := "Други приходи",
    "income" := "Други приходи",
    "fees" := "Такси и комисионни",
    "fee" := "Такси и комисионни",
    "transfers" := "Преводи",
    "other_expense" := "Други разходи",
    "expense" := "Други разходи"]

  /** `categoryTitles[id] || id`: every listed title is non-empty, so the
      id shows only when it is not listed. */
  function Title(id: String): String {
    if id in Titles then Titles[id] else id
  }

  /** The title table against the tags the parsers emit: seven of them have
      a title, aliases share their tag's title, and the two currency-trade
      tags have none and show as their raw id. */
  lemma TitleCoverage()
    ensures Title(Categories.PosIncome) == Title("card_payment") == "POS плащания (карти)"
    ensures Title(Categories.BranchIncome) == "Инкасо от поделения"
    ensures Title(Categories.DatexIncome) == Title("datex") == "Датекс"
    ensures Title(Categories.OtherIncome) == Title("income") == "Други приходи"
    ensures Title(Categories.Fees) == Title("fee") == "Такси и комисионни"
    ensures Title(Categories.Transfers) == "Преводи"
    ensures Title(Categories.OtherExpense) == Title("expense") == "Други разходи"
    ensures Title(Categories.FxIncome) == Categories.FxIncome
    ensures Title(Categories.FxExpense) == Categories.FxExpense
  {
    assert Categories.FxIncome !in Titles;
    assert Categories.FxExpense !in Titles;
  }

  /** `t.category || (isCredit ? 'other_income' : 'other_expense')`. */
  function EffectiveCategory(t: Transaction, isCredit: bool): (c: String)
    ensures c != ""
    ensures t.category != "" ==> c == t.category
    ensures t.category == "" ==> c == Categories.DefaultTag(isCredit)
  {
    OrElse(t.category, Categories.DefaultTag(isCredit))
  }

  /** The category each transaction is filed under. */
  function CategoryLabels(ts: seq<Transaction>, isCredit: bool): (ls: seq<String>)
    ensures |ls| == |ts|
  {
    seq(|ts|, i requires 0 <= i < |ts| => EffectiveCategory(ts[i], isCredit))
  }

  /** The group of category `id`: its members in order and their total on
      the side. */
  function MakeGroup(ts: seq<Transaction>, isCredit: bool, id: String): Group {
    var ms := Members(ts, CategoryLabels(ts, isCredit), id);
    Group(id, Title(id), ms, SumSide(ms, isCredit))
  }

  /** The dictionary's entries for the keys `ks`, in that order. */
  function GroupList(ts: seq<Transaction>, isCredit: bool, ks: seq<String>): (gs: seq<Group>)
    ensures |gs| == |ks|
  {
    if |ks| == 0 then []
    else GroupList(ts, isCredit, ks[..|ks| - 1]) + [MakeGroup(ts, isCredit, ks[|ks| - 1])]
  }

  /** What `groupByCategory(ts, isCredit)` returns. */
  function CategoryGroups(ts: seq<Transaction>, isCredit: bool): seq<Group> {
    SortByTotal(GroupList(ts, isCredit, Keys(CategoryLabels(ts, isCredit))), GroupTotal)
  }

  /** The dictionary after filing `ts`, labelled `ls`: `ids` lists its keys
      in insertion order and each key holds its members. */
  ghost predicate Filed(ts: seq<Transaction>, ls: seq<String>, ids: seq<String>,
                        groups: map<String, seq<Transaction>>)
    requires |ls| == |ts|
  {
    ids == Keys(ls) &&
    (forall k :: k in groups <==> k in ids) &&
    (forall k :: k in groups ==> groups[k] == Members(ts, ls, k))
  }

  /** Pushing one more transaction onto the list of its key, already in
      the dictionary. */
  lemma FiledPush(ts: seq<Transaction>, ls: seq<String>, ids: seq<String>,
                  groups: map<String, seq<Transaction>>, t: Transaction, l: String)
    requires |ls| == |ts| && Filed(ts, ls, ids, groups) && l in groups
    ensures Filed(ts + [t], ls + [l], ids, groups[l := groups[l] + [t]])
  {
    var after := groups[l := groups[l] + [t]];
    assert Keys(ls + [l]) == ids by {
      KeysSnoc(ls, l);
    }
    assert forall k :: k in after <==> k in ids;
    forall k | k in after
      ensures after[k] == Members(ts + [t], ls + [l], k)
    {
      MembersSnoc(ts, ls, t, l, k);
    }
  }

  /** Filing a transaction whose key is new: the key is appended to the
      keys and gets a list holding just that transaction. */
  lemma FiledOpen(ts: seq<Transaction>, ls: seq<String>, ids: seq<String>,
                  groups: map<String, seq<Transaction>>, t: Transaction, l: String)
    requires |ls| == |ts| && Filed(ts, ls, ids, groups) && l !in groups
    ensures Filed(ts + [t], ls + [l], ids + [l], groups[l := []][l := [t]])
  {
    var after := groups[l := []][l := [t]];
    assert after == groups[l := [t]];
    assert l !in ids;
    assert Keys(ls + [l]) == ids + [l] by {
      KeysSnoc(ls, l);
    }
    assert forall k :: k in after <==> k in ids + [l];
    forall k | k in after
      ensures after[k] == Members(ts + [t], ls + [l], k)
    {
      MembersSnoc(ts, ls, t, l, k);
      if k == l {
        assert Members(ts, ls, l) == [] by {
          KeysCover(ts, ls);
        }
      } else {
        assert after[k] == groups[k];
      }
    }
  }

  /** `groupByCategory`: the `forEach` that fills the dictionary, then the
      `map` over its entries and the sort. */
  method GroupByCategory(txns: seq<Transaction>, isCredit: bool) returns (groups: seq<Group>)
    ensures groups == CategoryGroups(txns, isCredit)
  {
    var ids, members := FileByCategory(txns, isCredit);
    var list := Entries(txns, isCredit, ids, members);
    groups := SortByTotal(list, GroupTotal);
  }

  /** The `forEach` of `groupByCategory`: every transaction is pushed onto
      the list of its category, a list being opened the first time its
      category is met. */
  method FileByCategory(txns: seq<Transaction>, isCredit: bool)
    returns (ids: seq<String>, members: map<String, seq<Transaction>>)
    ensures Filed(txns, CategoryLabels(txns, isCredit), ids, members)
  {
    ghost var labels := CategoryLabels(txns, isCredit);
    ids := [];
    members := map[];
    for i := 0 to |txns|
      invariant Filed(txns[..i], labels[..i], ids, members)
    {
      var t := txns[i];
      var cat := EffectiveCategory(t, isCredit);
      assert txns[..i + 1] == txns[..i] + [t];
      assert labels[..i + 1] == labels[..i] + [cat];
      if cat !in members {
        FiledOpen(txns[..i], labels[..i], ids, members, t, cat);
        ids := ids + [cat];
        members := members[cat := []];
        assert members[cat] + [t] == [t];
      } else {
        FiledPush(txns[..i], labels[..i], ids, members, t, cat);
      }
      members := members[cat := members[cat] + [t]];
    }
    assert txns[..|txns|] == txns && labels[..|txns|] == labels;
  }

  /** `Object.entries(groups).map(...)`: one titled group per key, in key
      order, with the side total of its list. */
  method Entries(txns: seq<Transaction>, isCredit: bool, ids: seq<String>, members: map<String, seq<Transaction>>)
    returns (list: seq<Group>)
    requires Filed(txns, CategoryLabels(txns, isCredit), ids, members)
    ensures list == GroupList(txns, isCredit, Keys(CategoryLabels(txns, isCredit)))
  {
    list := [];
    for j := 0 to |ids|
      invariant list == GroupList(txns, isCredit, ids[..j])
    {
      var id := ids[j];
      PrefixSnoc(ids, j);
      GroupListSnoc(txns, isCredit, ids[..j], id);
      EntryOf(txns, isCredit, ids, members, id);
      list := list + [Group(id, Title(id), members[id], SumSide(members[id], isCredit))];
    }
    assert ids[..|ids|] == ids;
  }

  /** One more key adds its group at the end. */
  lemma GroupListSnoc(ts: seq<Transaction>, isCredit: bool, ks: seq<String>, k: String)
    ensures GroupList(ts, isCredit, ks + [k]) == GroupList(ts, isCredit, ks) + [MakeGroup(ts, isCredit, k)]
  {
    assert (ks + [k])[..|ks|] == ks;
  }

  /** A key's dictionary entry makes its group. */
  lemma EntryOf(ts: seq<Transaction>, isCredit: bool, ids: seq<String>, members: map<String, seq<Transaction>>,
                id: String)
    requires Filed(ts, CategoryLabels(ts, isCredit), ids, members) && id in ids
    ensures id in members
    ensures MakeGroup(ts, isCredit, id) == Group(id, Title(id), members[id], SumSide(members[id], isCredit))
  {
  }

  /** The entries of the listed keys are their groups, in key order, and
      their totals and sizes add up as the keys' members do. */
  lemma GroupListShape(ts: seq<Transaction>, isCredit: bool, ks: seq<String>)
    ensures forall i :: 0 <= i < |ks| ==> GroupList(ts, isCredit, ks)[i] == MakeGroup(ts, isCredit, ks[i])
    ensures SumOf(GroupList(ts, isCredit, ks), GroupTotal)
            == TotalOver(ts, CategoryLabels(ts, isCredit), ks, isCredit)
    ensures SumOf(GroupList(ts, isCredit, ks), GroupSize)
            == CountOver(ts, CategoryLabels(ts, isCredit), ks) as real
  {
    GroupListAt(ts, isCredit, ks);
    GroupListTotals(ts, isCredit, ks);
    GroupListSizes(ts, isCredit, ks);
  }

  /** The entry at each place is the group of the key at that place. */
  lemma {:induction false} GroupListAt(ts: seq<Transaction>, isCredit: bool, ks: seq<String>)
    ensures forall i :: 0 <= i < |ks| ==> GroupList(ts, isCredit, ks)[i] == MakeGroup(ts, isCredit, ks[i])
  {
    if |ks| > 0 {
      var init := ks[..|ks| - 1];
      GroupListAt(ts, isCredit, init);
      GroupListSnoc(ts, isCredit, init, ks[|ks| - 1]);
      assert ks == init + [ks[|ks| - 1]];
    }
  }

  /** The group totals add up to the side totals of the keys' members. */
  lemma {:induction false} GroupListTotals(ts: seq<Transaction>, isCredit: bool, ks: seq<String>)
    ensures SumOf(GroupList(ts, isCredit, ks), GroupTotal) == TotalOver(ts, CategoryLabels(ts, isCredit), ks, isCredit)
  {
    if |ks| > 0 {
      var init := ks[..|ks| - 1];
      var g := MakeGroup(ts, isCredit, ks[|ks| - 1]);
      GroupListTotals(ts, isCredit, init);
      SumOfAppend(GroupList(ts, isCredit, init), [g], GroupTotal);
      assert [g][1..] == [];
    }
  }

  /** The group sizes add up to the number of the keys' members. */
  lemma {:induction false} GroupListSizes(ts: seq<Transaction>, isCredit: bool, ks: seq<String>)
    ensures SumOf(GroupList(ts, isCredit, ks), GroupSize) == CountOver(ts, CategoryLabels(ts, isCredit), ks) as real
  {
    if |ks| > 0 {
      var init := ks[..|ks| - 1];
      var g := MakeGroup(ts, isCredit, ks[|ks| - 1]);
      GroupListSizes(ts, isCredit, init);
      SumOfAppend(GroupList(ts, isCredit, init), [g], GroupSize);
      assert [g][1..] == [];
    }
  }

  /** The groups come out sorted by total, largest first, with distinct
      ids, and are exactly the entries of the dictionary. */
  lemma CategoryOrder(ts: seq<Transaction>, isCredit: bool)
    ensures SortedBy(CategoryGroups(ts, isCredit), GroupTotal)
    ensures DistinctBy(CategoryGroups(ts, isCredit), GroupId)
    ensures multiset(CategoryGroups(ts, isCredit))
            == multiset(GroupList(ts, isCredit, Keys(CategoryLabels(ts, isCredit))))
  {
    var list := GroupList(ts, isCredit, Keys(CategoryLabels(ts, isCredit)));
    GroupListShape(ts, isCredit, Keys(CategoryLabels(ts, isCredit)));
    assert DistinctBy(list, GroupId);
    SortDistinct(list, GroupTotal, GroupId);
  }

  /** Each group is titled from the table, is never empty, holds only
      transactions of its category, and its total is the side sum of its
      members. */
  lemma CategoryMembers(ts: seq<Transaction>, isCredit: bool)
    ensures forall g :: g in CategoryGroups(ts, isCredit) ==> GroupOfCategory(g, isCredit)
  {
    var ks := Keys(CategoryLabels(ts, isCredit));
    var list := GroupList(ts, isCredit, ks);
    GroupListShape(ts, isCredit, ks);
    forall g | g in CategoryGroups(ts, isCredit)
      ensures GroupOfCategory(g, isCredit)
    {
      assert g in multiset(list);
      var n :| 0 <= n < |list| && list[n] == g;
      MakeGroupShape(ts, isCredit, ks[n]);
    }
  }

  /** A non-empty group of transactions of category `g.id`, titled from the
      table, whose total is the side sum of its members. */
  predicate GroupOfCategory(g: Group, isCredit: bool) {
    g.transactions != [] && g.title == Title(g.id) &&
    g.total == SumSide(g.transactions, isCredit) &&
    forall i :: 0 <= i < |g.transactions| ==> EffectiveCategory(g.transactions[i], isCredit) == g.id
  }

  lemma MakeGroupShape(ts: seq<Transaction>, isCredit: bool, id: String)
    requires id in Keys(CategoryLabels(ts, isCredit))
    ensures GroupOfCategory(MakeGroup(ts, isCredit, id), isCredit)
  {
    var labels := CategoryLabels(ts, isCredit);
    KeysCover(ts, labels);
    MembersSatisfy(ts, labels, id, t => EffectiveCategory(t, isCredit) == id);
  }

  /** Every transaction's category has a group. */
  lemma CategoryCover(ts: seq<Transaction>, isCredit: bool)
    ensures forall i :: 0 <= i < |ts| ==>
      exists g :: g in CategoryGroups(ts, isCredit) && g.id == EffectiveCategory(ts[i], isCredit)
  {
    var labels := CategoryLabels(ts, isCredit);
    var ks := Keys(labels);
    var list := GroupList(ts, isCredit, ks);
    GroupListShape(ts, isCredit, ks);
    KeysCover(ts, labels);
    forall i | 0 <= i < |ts|
      ensures exists g :: g in CategoryGroups(ts, isCredit) && g.id == EffectiveCategory(ts[i], isCredit)
    {
      assert labels[i] == EffectiveCategory(ts[i], isCredit);
      var n :| 0 <= n < |ks| && ks[n] == labels[i];
      assert list[n] in multiset(CategoryGroups(ts, isCredit));
    }
  }

  /** The group sizes add up to the number of transactions and the group
      totals to the side total of all of them: with `CategoryMembers` and
      the distinct ids of `CategoryOrder`, every transaction is in exactly
      one group. */
  lemma CategoryTotals(ts: seq<Transaction>, isCredit: bool)
    ensures SumOf(CategoryGroups(ts, isCredit), GroupSize) == |ts| as real
    ensures SumOf(CategoryGroups(ts, isCredit), GroupTotal) == SumSide(ts, isCredit)
  {
    var labels := CategoryLabels(ts, isCredit);
    var list := GroupList(ts, isCredit, Keys(labels));
    GroupListShape(ts, isCredit, Keys(labels));
    KeysPartition(ts, labels, isCredit);
    SumOfSort(list, GroupTotal, GroupTotal);
    SumOfSort(list, GroupTotal, GroupSize);
  }

  /** The section totals under the table (`reduce` over all transactions)
      equal the sum of the side's group totals, provided no amount on that
      side is negative: the groups only see transactions with a positive
      amount. */
  lemma SectionTotals(ts: seq<Transaction>, isCredit: bool)
    requires forall i :: 0 <= i < |ts| ==> SideAmount(ts[i], isCredit) >= 0.0
    ensures SumOf(CategoryGroups(Side(ts, isCredit), isCredit), GroupTotal)
            == if isCredit then SumCredit(ts) else SumDebit(ts)
  {
    CategoryTotals(Side(ts, isCredit), isCredit);
    SideSum(ts, isCredit);
  }
}
