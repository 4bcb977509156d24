/** `groupByCompany` (src/components/SummaryCard.tsx): inside one category
    group, the transactions are counted and summed per company name, and
    the companies are sorted by total, largest first. */
module Companies {
  import opened Text
  import opened Ledger
  import opened Grouping
  import CategoryGroups

  const Unknown := "Неизвестен"
  const Commission := "Комисионна"
  const CommissionMarker := "BGN В ПОЛЗА"

  /** The name a transaction is counted under: the trimmed counterparty,
      else the first 50 characters of the description, else `Неизвестен`;
      a name mentioning `BGN В ПОЛЗА` becomes `Комисионна`, and a name
      longer than 50 characters is cut to 50 and marked with `...`. */
  function CompanyName(t: Transaction): (name: String)
    ensures name != "" && |name| <= 53
  {
    var base := OrElse(OrElse(Trim(t.counterparty), Take(t.description, 50)), Unknown);
    var named := if Contains(base, CommissionMarker) then Commission else base;
    if |named| > 50 then named[..50] + "..." else named
  }

  /** The naming rule case by case: a non-blank counterparty is used
      trimmed, cut to 50 characters plus `...` when longer, and replaced
      when it mentions the commission marker; a blank counterparty falls
      back to the description's first 50 characters, under the same marker
      rule, and a blank description to `Неизвестен`. */
  lemma CompanyNameRules(t: Transaction)
    ensures var c := Trim(t.counterparty);
      c != "" && Contains(c, CommissionMarker) ==> CompanyName(t) == Commission
    ensures var c := Trim(t.counterparty);
      c != "" && !Contains(c, CommissionMarker) && |c| <= 50 ==> CompanyName(t) == c
    ensures var c := Trim(t.counterparty);
      c != "" && !Contains(c, CommissionMarker) && |c| > 50 ==> CompanyName(t) == c[..50] + "..."
    ensures var d := Take(t.description, 50);
      Trim(t.counterparty) == "" && d != "" && !Contains(d, CommissionMarker) ==> CompanyName(t) == d
    ensures var d := Take(t.description, 50);
      Trim(t.counterparty) == "" && d != "" && Contains(d, CommissionMarker) ==> CompanyName(t) == Commission
    ensures Trim(t.counterparty) == "" && t.description == "" ==> CompanyName(t) == Unknown
  {
    var c := Trim(t.counterparty);
    var d := Take(t.description, 50);
    var base := OrElse(OrElse(c, d), Unknown);
    if c != "" {
      assert base == c;
    } else if d != "" {
      assert base == d && |d| <= 50;
    } else {
      assert base == Unknown;
      UnknownUnmarked();
      assert |Unknown| <= 50;
    }
  }

  /** `Неизвестен` does not mention the commission marker: no suffix of it
      starts with `B`. */
  lemma UnknownUnmarked()
    ensures !Contains(Unknown, CommissionMarker)
  {
    var s := Unknown;
    forall i | 0 <= i <= |s|
      ensures !StartsWith(s[i..], CommissionMarker)
    {
      if i < |s| {
        assert s[i] != 'B';
        assert s[i..][0] == s[i];
      }
    }
    NoSuffixStarts(s, CommissionMarker);
  }

  /** `Contains` fails when no suffix starts with the pattern. */
  lemma {:induction false} NoSuffixStarts(s: String, p: String)
    requires forall i :: 0 <= i <= |s| ==> !StartsWith(s[i..], p)
    ensures !Contains(s, p)
    decreases |s|
  {
    assert s[0..] == s;
    if |s| > 0 {
      forall i | 0 <= i <= |s[1..]|
        ensures !StartsWith(s[1..][i..], p)
      {
        assert s[1..][i..] == s[i + 1..];
      }
      NoSuffixStarts(s[1..], p);
    }
  }

  datatype Company = Company(name: String, total: real, count: nat)

  /** A dictionary entry: `{ total, count }`. */
  datatype Tally = Tally(total: real, count: nat)

  function CompanyTotal(c: Company): real {
    c.total
  }

  function CompanyCount(c: Company): real {
    c.count as real
  }

  function CompanyKey(c: Company): String {
    c.name
  }

  /** The name each transaction is counted under. */
  function NameLabels(ts: seq<Transaction>): (ls: seq<String>)
    ensures |ls| == |ts|
  {
    seq(|ts|, i requires 0 <= i < |ts| => CompanyName(ts[i]))
  }

  /** The entry of `name`: the side total and number of the transactions
      named `name` by `ls`. */
  function TallyOf(ts: seq<Transaction>, ls: seq<String>, isCredit: bool, name: String): Tally
    requires |ls| == |ts|
  {
    var ms := Members(ts, ls, name);
    Tally(SumSide(ms, isCredit), |ms|)
  }

  /** One more transaction adds its amount and one to its own name's entry
      and leaves the others alone. */
  lemma TallyOfSnoc(ts: seq<Transaction>, ls: seq<String>, isCredit: bool, t: Transaction, l: String, name: String)
    requires |ls| == |ts|
    ensures TallyOf(ts + [t], ls + [l], isCredit, name)
            == if l == name then
                 Tally(TallyOf(ts, ls, isCredit, name).total + SideAmount(t, isCredit),
                       TallyOf(ts, ls, isCredit, name).count + 1)
               else TallyOf(ts, ls, isCredit, name)
  {
    MembersSnoc(ts, ls, t, l, name);
    SumSideAppend(Members(ts, ls, name), if l == name then [t] else [], isCredit);
    assert [t][..0] == [];
  }

  function CompanyList(ts: seq<Transaction>, ls: seq<String>, isCredit: bool, ks: seq<String>): (cs: seq<Company>)
    requires |ls| == |ts|
    ensures |cs| == |ks|
  {
    if |ks| == 0 then []
    else
      var name := ks[|ks| - 1];
      var tally := TallyOf(ts, ls, isCredit, name);
      CompanyList(ts, ls, isCredit, ks[..|ks| - 1]) + [Company(name, tally.total, tally.count)]
  }

  /** What `groupByCompany(ts, isCredit)` returns. */
  function CompanyTotals(ts: seq<Transaction>, isCredit: bool): seq<Company> {
    var ls := NameLabels(ts);
    SortByTotal(CompanyList(ts, ls, isCredit, Keys(ls)), CompanyTotal)
  }

  /** The dictionary after counting `ts`, named `ls`: each entry holds the
      side total and number of that name's transactions. */
  ghost predicate Tallied(ts: seq<Transaction>, ls: seq<String>, isCredit: bool, companies: map<String, Tally>)
    requires |ls| == |ts|
  {
    forall k :: k in companies ==> companies[k] == TallyOf(ts, ls, isCredit, k)
  }

  /** A name not met so far starts at zero, which is what its (absent)
      transactions add up to. */
  lemma TallyOpen(ts: seq<Transaction>, ls: seq<String>, isCredit: bool, companies: map<String, Tally>, l: String)
    requires |ls| == |ts| && Tallied(ts, ls, isCredit, companies) && l !in Keys(ls)
    ensures Tallied(ts, ls, isCredit, companies[l := Tally(0.0, 0)])
  {
    KeysCover(ts, ls);
  }

  /** Counting a transaction under a name in the dictionary. */
  lemma TallyAdd(ts: seq<Transaction>, ls: seq<String>, isCredit: bool, companies: map<String, Tally>,
                 t: Transaction, l: String)
    requires |ls| == |ts| && Tallied(ts, ls, isCredit, companies) && l in companies
    ensures Tallied(ts + [t], ls + [l], isCredit,
                    companies[l := Tally(companies[l].total + SideAmount(t, isCredit), companies[l].count + 1)])
  {
    var updated := companies[l := Tally(companies[l].total + SideAmount(t, isCredit), companies[l].count + 1)];
    forall k | k in updated
      ensures updated[k] == TallyOf(ts + [t], ls + [l], isCredit, k)
    {
      TallyOfSnoc(ts, ls, isCredit, t, l, k);
    }
  }

  /** `groupByCompany`: the `forEach` that fills the dictionary, then the
      entries and the sort. */
  method GroupByCompany(txns: seq<Transaction>, isCredit: bool) returns (companies: seq<Company>)
    ensures companies == CompanyTotals(txns, isCredit)
  {
    var labels := NameLabels(txns);
    var names, tallies := TallyByName(txns, labels, isCredit);
    var list := CompanyEntries(txns, labels, isCredit, names, tallies);
    companies := SortByTotal(list, CompanyTotal);
  }

  /** The `forEach` of `groupByCompany`: each transaction adds its amount
      and one to the entry of its name, opened at zero the first time the
      name is met. `labels` holds the name of each transaction, worked out
      before the loop. */
  method TallyByName(txns: seq<Transaction>, labels: seq<String>, isCredit: bool)
    returns (names: seq<String>, companies: map<String, Tally>)
    requires |labels| == |txns|
    ensures names == Keys(labels)
    ensures forall k :: k in companies <==> k in names
    ensures Tallied(txns, labels, isCredit, companies)
  {
    names := [];
    companies := map[];
    for i := 0 to |txns|
      invariant names == Keys(labels[..i])
      invariant forall k :: k in companies <==> k in names
      invariant Tallied(txns[..i], labels[..i], isCredit, companies)
    {
      var t := txns[i];
      var name := labels[i];
      PrefixSnoc(txns, i);
      PrefixSnoc(labels, i);
      KeysSnoc(labels[..i], name);
      if name !in companies {
        TallyOpen(txns[..i], labels[..i], isCredit, companies, name);
        names := names + [name];
        companies := companies[name := Tally(0.0, 0)];
      }
      TallyAdd(txns[..i], labels[..i], isCredit, companies, t, name);
      companies := companies[name := Tally(companies[name].total + SideAmount(t, isCredit), companies[name].count + 1)];
      assert Tallied(txns[..i] + [t], labels[..i] + [name], isCredit, companies);
    }
    assert txns[..|txns|] == txns && labels[..|txns|] == labels;
  }

  /** `Object.entries(companies).map(...)`: one company per name, in name
      order. */
  method CompanyEntries(txns: seq<Transaction>, ghost labels: seq<String>, isCredit: bool,
                        names: seq<String>, companies: map<String, Tally>)
    returns (list: seq<Company>)
    requires |labels| == |txns| && names == Keys(labels)
    requires forall k :: k in companies <==> k in names
    requires Tallied(txns, labels, isCredit, companies)
    ensures list == CompanyList(txns, labels, isCredit, Keys(labels))
  {
    list := [];
    for j := 0 to |names|
      invariant list == CompanyList(txns, labels, isCredit, names[..j])
    {
      var name := names[j];
      PrefixSnoc(names, j);
      CompanyListSnoc(txns, labels, isCredit, names[..j], name);
      EntryTally(txns, labels, isCredit, names, companies, name);
      list := list + [Company(name, companies[name].total, companies[name].count)];
    }
    assert names[..|names|] == names;
  }

  /** A name's dictionary entry makes its company. */
  lemma EntryTally(ts: seq<Transaction>, ls: seq<String>, isCredit: bool, names: seq<String>,
                  companies: map<String, Tally>, name: String)
    requires |ls| == |ts| && name in names
    requires forall k :: k in companies <==> k in names
    requires Tallied(ts, ls, isCredit, companies)
    ensures name in companies
    ensures companies[name] == TallyOf(ts, ls, isCredit, name)
  {
  }

  /** One more name adds its company at the end. */
  lemma CompanyListSnoc(ts: seq<Transaction>, ls: seq<String>, isCredit: bool, ks: seq<String>, k: String)
    requires |ls| == |ts|
    ensures CompanyList(ts, ls, isCredit, ks + [k])
            == CompanyList(ts, ls, isCredit, ks) + [Company(k, TallyOf(ts, ls, isCredit, k).total, TallyOf(ts, ls, isCredit, k).count)]
  {
    assert (ks + [k])[..|ks|] == ks;
  }

  lemma CompanyListShape(ts: seq<Transaction>, ls: seq<String>, isCredit: bool, ks: seq<String>)
    requires |ls| == |ts|
    ensures forall i :: 0 <= i < |ks| ==>
      CompanyList(ts, ls, isCredit, ks)[i] == Company(ks[i], TallyOf(ts, ls, isCredit, ks[i]).total, TallyOf(ts, ls, isCredit, ks[i]).count)
    ensures SumOf(CompanyList(ts, ls, isCredit, ks), CompanyTotal) == TotalOver(ts, ls, ks, isCredit)
    ensures SumOf(CompanyList(ts, ls, isCredit, ks), CompanyCount) == CountOver(ts, ls, ks) as real
  {
    CompanyListAt(ts, ls, isCredit, ks);
    CompanyListTotals(ts, ls, isCredit, ks);
    CompanyListCounts(ts, ls, isCredit, ks);
  }

  /** The entry at each place is the company of the key at that place. */
  lemma {:induction false} CompanyListAt(ts: seq<Transaction>, ls: seq<String>, isCredit: bool, ks: seq<String>)
    requires |ls| == |ts|
    ensures forall i :: 0 <= i < |ks| ==>
      CompanyList(ts, ls, isCredit, ks)[i] == Company(ks[i], TallyOf(ts, ls, isCredit, ks[i]).total, TallyOf(ts, ls, isCredit, ks[i]).count)
  {
    if |ks| > 0 {
      var init := ks[..|ks| - 1];
      CompanyListAt(ts, ls, isCredit, init);
      CompanyListSnoc(ts, ls, isCredit, init, ks[|ks| - 1]);
      assert ks == init + [ks[|ks| - 1]];
    }
  }

  /** The company totals add up to the side totals of the keys' members. */
  lemma {:induction false} CompanyListTotals(ts: seq<Transaction>, ls: seq<String>, isCredit: bool, ks: seq<String>)
    requires |ls| == |ts|
    ensures SumOf(CompanyList(ts, ls, isCredit, ks), CompanyTotal) == TotalOver(ts, ls, ks, isCredit)
  {
    if |ks| > 0 {
      var init := ks[..|ks| - 1];
      var tally := TallyOf(ts, ls, isCredit, ks[|ks| - 1]);
      var c := Company(ks[|ks| - 1], tally.total, tally.count);
      CompanyListTotals(ts, ls, isCredit, init);
      SumOfAppend(CompanyList(ts, ls, isCredit, init), [c], CompanyTotal);
      assert [c][1..] == [];
    }
  }

  /** The company counts add up to the number of the keys' members. */
  lemma {:induction false} CompanyListCounts(ts: seq<Transaction>, ls: seq<String>, isCredit: bool, ks: seq<String>)
    requires |ls| == |ts|
    ensures SumOf(CompanyList(ts, ls, isCredit, ks), CompanyCount) == CountOver(ts, ls, ks) as real
  {
    if |ks| > 0 {
      var init := ks[..|ks| - 1];
      var tally := TallyOf(ts, ls, isCredit, ks[|ks| - 1]);
      var c := Company(ks[|ks| - 1], tally.total, tally.count);
      CompanyListCounts(ts, ls, isCredit, init);
      SumOfAppend(CompanyList(ts, ls, isCredit, init), [c], CompanyCount);
      assert [c][1..] == [];
    }
  }

  /** The companies come out sorted by total, largest first, under
      distinct names. */
  lemma CompanyOrder(ts: seq<Transaction>, isCredit: bool)
    ensures SortedBy(CompanyTotals(ts, isCredit), CompanyTotal)
    ensures DistinctBy(CompanyTotals(ts, isCredit), CompanyKey)
  {
    var ls := NameLabels(ts);
    var list := CompanyList(ts, ls, isCredit, Keys(ls));
    CompanyListShape(ts, ls, isCredit, Keys(ls));
    assert DistinctBy(list, CompanyKey);
    SortDistinct(list, CompanyTotal, CompanyKey);
  }

  /** Each company counts at least one transaction, and its count and total
      are those of the transactions named after it, each of which does
      carry that name. */
  lemma CompanyMembers(ts: seq<Transaction>, isCredit: bool)
    ensures forall c :: c in CompanyTotals(ts, isCredit) ==> CompanyOf(ts, isCredit, c)
  {
    var ls := NameLabels(ts);
    var ks := Keys(ls);
    var list := CompanyList(ts, ls, isCredit, ks);
    CompanyListShape(ts, ls, isCredit, ks);
    forall c | c in CompanyTotals(ts, isCredit)
      ensures CompanyOf(ts, isCredit, c)
    {
      assert c in multiset(list);
      var n :| 0 <= n < |list| && list[n] == c;
      TallyShape(ts, isCredit, ks[n]);
    }
  }

  /** `c` counts and sums the transactions of `ts` named `c.name`, and
      there is at least one. */
  predicate CompanyOf(ts: seq<Transaction>, isCredit: bool, c: Company) {
    var ms := Members(ts, NameLabels(ts), c.name);
    c.count > 0 && c.count == |ms| && c.total == SumSide(ms, isCredit) &&
    forall i :: 0 <= i < |ms| ==> CompanyName(ms[i]) == c.name
  }

  lemma TallyShape(ts: seq<Transaction>, isCredit: bool, name: String)
    requires name in Keys(NameLabels(ts))
    ensures var tally := TallyOf(ts, NameLabels(ts), isCredit, name);
      CompanyOf(ts, isCredit, Company(name, tally.total, tally.count))
  {
    var ls := NameLabels(ts);
    KeysCover(ts, ls);
    MembersSatisfy(ts, ls, name, t => CompanyName(t) == name);
  }

  /** The counts add up to the number of transactions and the totals to
      their side total. */
  lemma CompanyTotalsAdd(ts: seq<Transaction>, isCredit: bool)
    ensures SumOf(CompanyTotals(ts, isCredit), CompanyCount) == |ts| as real
    ensures SumOf(CompanyTotals(ts, isCredit), CompanyTotal) == SumSide(ts, isCredit)
  {
    var labels := NameLabels(ts);
    var list := CompanyList(ts, labels, isCredit, Keys(labels));
    CompanyListShape(ts, labels, isCredit, Keys(labels));
    KeysPartition(ts, labels, isCredit);
    SumOfSort(list, CompanyTotal, CompanyTotal);
    SumOfSort(list, CompanyTotal, CompanyCount);
  }

  /** As the summary card uses it, on one category group: the company
      counts add up to the group's size and the company totals to the
      group's total. */
  lemma CompaniesOfCategory(ts: seq<Transaction>, isCredit: bool, g: CategoryGroups.Group)
    requires g in CategoryGroups.CategoryGroups(ts, isCredit)
    ensures SumOf(CompanyTotals(g.transactions, isCredit), CompanyCount) == |g.transactions| as real
    ensures SumOf(CompanyTotals(g.transactions, isCredit), CompanyTotal) == g.total
  {
    CategoryGroups.CategoryMembers(ts, isCredit);
    CompanyTotalsAdd(g.transactions, isCredit);
  }
}
