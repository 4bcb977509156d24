/** The data side of the summary and table components
    (src/components/SummaryCard.tsx, src/components/TransactionTable.tsx):
    the credit/debit split, the keys of a dictionary filled one transaction
    at a time (each transaction comes with its key, a category or a company
    name), the members of each key in first-occurrence order, and the
    descending sort by total. */
module Grouping {
  import opened Text
  import opened Ledger

  // ----- the credit / debit split -----

  /** `transactions.filter(t => t.credit > 0)` on the credit side and
      `t.debit > 0` on the debit side. */
  function Side(ts: seq<Transaction>, isCredit: bool): (r: seq<Transaction>)
    ensures |r| <= |ts|
    ensures forall i :: 0 <= i < |r| ==> SideAmount(r[i], isCredit) > 0.0
  {
    if |ts| == 0 then []
    else Side(ts[..|ts| - 1], isCredit)
         + (if SideAmount(ts[|ts| - 1], isCredit) > 0.0 then [ts[|ts| - 1]] else [])
  }

  /** The split distributes over concatenation, so it keeps the order of
      the transactions it keeps. */
  lemma {:induction false} SideAppend(a: seq<Transaction>, b: seq<Transaction>, isCredit: bool)
    ensures Side(a + b, isCredit) == Side(a, isCredit) + Side(b, isCredit)
    decreases |b|
  {
    if |b| == 0 {
      assert a + b == a;
    } else {
      assert (a + b)[..|a + b| - 1] == a + b[..|b| - 1];
      SideAppend(a, b[..|b| - 1], isCredit);
    }
  }

  /** A single transaction is kept exactly when its amount is positive. */
  lemma SideSingle(t: Transaction, isCredit: bool)
    ensures Side([t], isCredit) == if SideAmount(t, isCredit) > 0.0 then [t] else []
  {
    assert [t][..0] == [];
  }

  /** Membership: the split holds exactly the transactions with a positive
      amount on that side. */
  lemma {:induction false} SideMembers(ts: seq<Transaction>, isCredit: bool)
    ensures forall t :: t in Side(ts, isCredit) <==> t in ts && SideAmount(t, isCredit) > 0.0
  {
    if |ts| > 0 {
      var init := ts[..|ts| - 1];
      SideMembers(init, isCredit);
      assert ts == init + [ts[|ts| - 1]];
    }
  }

  /** With no negative amounts on the side, dropping the non-positive ones
      does not change the side's sum. */
  lemma {:induction false} SideSum(ts: seq<Transaction>, isCredit: bool)
    requires forall i :: 0 <= i < |ts| ==> SideAmount(ts[i], isCredit) >= 0.0
    ensures SumSide(Side(ts, isCredit), isCredit) == SumSide(ts, isCredit)
  {
    if |ts| > 0 {
      var init := ts[..|ts| - 1];
      var t := ts[|ts| - 1];
      SideSum(init, isCredit);
      SumSideAppend(Side(init, isCredit), if SideAmount(t, isCredit) > 0.0 then [t] else [], isCredit);
      assert [t][..0] == [];
    }
  }

  // ----- grouping keys -----

  /** The keys in order of first occurrence: the order in which the
      dictionary receives them, which is the order `Object.entries` lists
      them in. */
  function Keys(ls: seq<String>): (ks: seq<String>)
    ensures forall i, j :: 0 <= i < j < |ks| ==> ks[i] != ks[j]
  {
    if |ls| == 0 then []
    else
      var ks := Keys(ls[..|ls| - 1]);
      if ls[|ls| - 1] in ks then ks else ks + [ls[|ls| - 1]]
  }

  /** The transactions labelled `k`, in order; `ls` holds the key of each
      transaction. */
  function Members(ts: seq<Transaction>, ls: seq<String>, k: String): (ms: seq<Transaction>)
    requires |ls| == |ts|
    ensures |ms| <= |ts|
  {
    if |ts| == 0 then []
    else Members(ts[..|ts| - 1], ls[..|ls| - 1], k)
         + (if ls[|ls| - 1] == k then [ts[|ts| - 1]] else [])
  }

  /** Every label is listed, and every listed key has members. */
  lemma {:induction false} KeysCover(ts: seq<Transaction>, ls: seq<String>)
    requires |ls| == |ts|
    ensures forall i :: 0 <= i < |ls| ==> ls[i] in Keys(ls)
    ensures forall k :: k in Keys(ls) <==> Members(ts, ls, k) != []
  {
    if |ts| > 0 {
      var init := ls[..|ls| - 1];
      KeysCover(ts[..|ts| - 1], init);
      assert forall i :: 0 <= i < |init| ==> ls[i] == init[i];
    }
  }

  /** Whatever holds of every transaction labelled `k` holds of each member
      of `k`. */
  lemma {:induction false} MembersSatisfy(ts: seq<Transaction>, ls: seq<String>, k: String, p: Transaction -> bool)
    requires |ls| == |ts|
    requires forall j :: 0 <= j < |ts| && ls[j] == k ==> p(ts[j])
    ensures forall i :: 0 <= i < |Members(ts, ls, k)| ==> p(Members(ts, ls, k)[i])
  {
    if |ts| > 0 {
      var prev := Members(ts[..|ts| - 1], ls[..|ls| - 1], k);
      var tail := if ls[|ls| - 1] == k then [ts[|ts| - 1]] else [];
      MembersSatisfy(ts[..|ts| - 1], ls[..|ls| - 1], k, p);
      assert forall i :: 0 <= i < |prev| ==> p(prev[i]);
      var ms := Members(ts, ls, k);
      assert ms == prev + tail;
      forall i | 0 <= i < |ms|
        ensures p(ms[i])
      {
        if i < |prev| {
          assert ms[i] == prev[i];
          assert p(prev[i]);
        } else {
          assert ls[|ls| - 1] == k;
          assert ms[i] == ts[|ts| - 1];
          assert p(ts[|ts| - 1]);
        }
      }
    }
  }

  /** Filing one more transaction changes only the members of its own key. */
  lemma MembersSnoc(ts: seq<Transaction>, ls: seq<String>, t: Transaction, l: String, k: String)
    requires |ls| == |ts|
    ensures Members(ts + [t], ls + [l], k) == Members(ts, ls, k) + (if l == k then [t] else [])
  {
    assert (ts + [t])[..|ts|] == ts;
    assert (ls + [l])[..|ls|] == ls;
  }

  lemma KeysSnoc(ls: seq<String>, l: String)
    ensures Keys(ls + [l]) == if l in Keys(ls) then Keys(ls) else Keys(ls) + [l]
  {
    assert (ls + [l])[..|ls|] == ls;
  }

  /** Sum of the side totals of the members of the keys `ks`. */
  function TotalOver(ts: seq<Transaction>, ls: seq<String>, ks: seq<String>, isCredit: bool): real
    requires |ls| == |ts|
  {
    if |ks| == 0 then 0.0
    else TotalOver(ts, ls, ks[..|ks| - 1], isCredit) + SumSide(Members(ts, ls, ks[|ks| - 1]), isCredit)
  }

  /** Number of members of the keys `ks`. */
  function CountOver(ts: seq<Transaction>, ls: seq<String>, ks: seq<String>): nat
    requires |ls| == |ts|
  {
    if |ks| == 0 then 0
    else CountOver(ts, ls, ks[..|ks| - 1]) + |Members(ts, ls, ks[|ks| - 1])|
  }

  /** One more transaction adds its amount to the key it is filed under,
      if that key is among distinct keys `ks`. */
  lemma {:induction false} TotalOverSnoc(ts: seq<Transaction>, ls: seq<String>, t: Transaction, l: String,
                                         ks: seq<String>, isCredit: bool)
    requires |ls| == |ts|
    requires forall i, j :: 0 <= i < j < |ks| ==> ks[i] != ks[j]
    ensures TotalOver(ts + [t], ls + [l], ks, isCredit)
            == TotalOver(ts, ls, ks, isCredit) + (if l in ks then SideAmount(t, isCredit) else 0.0)
  {
    if |ks| > 0 {
      var init := ks[..|ks| - 1];
      var k := ks[|ks| - 1];
      TotalOverSnoc(ts, ls, t, l, init, isCredit);
      var before := Members(ts, ls, k);
      var after := Members(ts + [t], ls + [l], k);
      var a := SideAmount(t, isCredit);
      assert TotalOver(ts + [t], ls + [l], ks, isCredit)
             == TotalOver(ts + [t], ls + [l], init, isCredit) + SumSide(after, isCredit);
      assert TotalOver(ts, ls, ks, isCredit) == TotalOver(ts, ls, init, isCredit) + SumSide(before, isCredit);
      assert l in ks <==> l in init || l == k by {
        assert ks == init + [k];
      }
      if l == k {
        assert l !in init;
        assert SumSide(after, isCredit) == SumSide(before, isCredit) + a by {
          MembersSnoc(ts, ls, t, l, k);
          SumSideAppend(before, [t], isCredit);
          assert [t][..0] == [];
        }
      } else {
        assert after == before by {
          MembersSnoc(ts, ls, t, l, k);
        }
      }
    }
  }

  /** One more transaction adds one to the count of the key it is filed
      under, if that key is among distinct keys `ks`. */
  lemma {:induction false} CountOverSnoc(ts: seq<Transaction>, ls: seq<String>, t: Transaction, l: String,
                                         ks: seq<String>)
    requires |ls| == |ts|
    requires forall i, j :: 0 <= i < j < |ks| ==> ks[i] != ks[j]
    ensures CountOver(ts + [t], ls + [l], ks) == CountOver(ts, ls, ks) + (if l in ks then 1 else 0)
  {
    if |ks| > 0 {
      var init := ks[..|ks| - 1];
      var k := ks[|ks| - 1];
      CountOverSnoc(ts, ls, t, l, init);
      assert |Members(ts + [t], ls + [l], k)| == |Members(ts, ls, k)| + (if l == k then 1 else 0) by {
        MembersSnoc(ts, ls, t, l, k);
      }
      assert l in ks <==> l in init || l == k by {
        assert ks == init + [k];
      }
      assert l == k ==> l !in init;
    }
  }

  /** The members of the keys account for every transaction once: their
      side totals add up to the side total of all transactions and their
      numbers to the number of transactions. */
  lemma {:induction false} KeysPartition(ts: seq<Transaction>, ls: seq<String>, isCredit: bool)
    requires |ls| == |ts|
    ensures TotalOver(ts, ls, Keys(ls), isCredit) == SumSide(ts, isCredit)
    ensures CountOver(ts, ls, Keys(ls)) == |ts|
  {
    if |ts| > 0 {
      var init, linit := ts[..|ts| - 1], ls[..|ls| - 1];
      var t, l := ts[|ts| - 1], ls[|ls| - 1];
      assert ts == init + [t];
      assert ls == linit + [l];
      KeysPartition(init, linit, isCredit);
      PartitionStep(init, linit, t, l, isCredit);
    }
  }

  /** The induction step of `KeysPartition`. */
  lemma PartitionStep(ts: seq<Transaction>, ls: seq<String>, t: Transaction, l: String, isCredit: bool)
    requires |ls| == |ts|
    requires TotalOver(ts, ls, Keys(ls), isCredit) == SumSide(ts, isCredit)
    requires CountOver(ts, ls, Keys(ls)) == |ts|
    ensures TotalOver(ts + [t], ls + [l], Keys(ls + [l]), isCredit) == SumSide(ts + [t], isCredit)
    ensures CountOver(ts + [t], ls + [l], Keys(ls + [l])) == |ts| + 1
  {
    TotalStep(ts, ls, t, l, isCredit);
    CountStep(ts, ls, t, l);
    SumSideAppend(ts, [t], isCredit);
    assert [t][..0] == [];
  }

  /** The side total over the keys grows by the new transaction's amount. */
  lemma TotalStep(ts: seq<Transaction>, ls: seq<String>, t: Transaction, l: String, isCredit: bool)
    requires |ls| == |ts|
    ensures TotalOver(ts + [t], ls + [l], Keys(ls + [l]), isCredit)
            == TotalOver(ts, ls, Keys(ls), isCredit) + SideAmount(t, isCredit)
  {
    var ks := Keys(ls);
    TotalOverSnoc(ts, ls, t, l, ks, isCredit);
    if l in ks {
      assert Keys(ls + [l]) == ks by {
        KeysSnoc(ls, l);
      }
    } else {
      assert Keys(ls + [l]) == ks + [l] by {
        KeysSnoc(ls, l);
      }
      var ms := Members(ts + [t], ls + [l], l);
      assert ms == [t] by {
        KeysCover(ts, ls);
        MembersSnoc(ts, ls, t, l, l);
      }
      assert [t][..0] == [];
      assert (ks + [l])[..|ks|] == ks;
      assert TotalOver(ts + [t], ls + [l], ks + [l], isCredit)
             == TotalOver(ts + [t], ls + [l], ks, isCredit) + SumSide(ms, isCredit);
    }
  }

  /** The count over the keys grows by one. */
  lemma CountStep(ts: seq<Transaction>, ls: seq<String>, t: Transaction, l: String)
    requires |ls| == |ts|
    ensures CountOver(ts + [t], ls + [l], Keys(ls + [l])) == CountOver(ts, ls, Keys(ls)) + 1
  {
    var ks := Keys(ls);
    CountOverSnoc(ts, ls, t, l, ks);
    if l in ks {
      assert Keys(ls + [l]) == ks by {
        KeysSnoc(ls, l);
      }
    } else {
      assert Keys(ls + [l]) == ks + [l] by {
        KeysSnoc(ls, l);
      }
      var ms := Members(ts + [t], ls + [l], l);
      assert ms == [t] by {
        KeysCover(ts, ls);
        MembersSnoc(ts, ls, t, l, l);
      }
      assert (ks + [l])[..|ks|] == ks;
      assert CountOver(ts + [t], ls + [l], ks + [l]) == CountOver(ts + [t], ls + [l], ks) + |ms|;
    }
  }

  // ----- the descending sort -----

  /** Non-increasing weight from first to last. */
  predicate SortedBy<T>(s: seq<T>, w: T -> real) {
    forall i, j :: 0 <= i < j < |s| ==> w(s[i]) >= w(s[j])
  }

  /** Places `x` before the first element that does not outweigh it, so
      that among equal weights the earlier input comes first. */
  function Insert<T(==)>(x: T, s: seq<T>, w: T -> real): (r: seq<T>)
    ensures multiset(r) == multiset(s) + multiset{x}
  {
    if |s| == 0 || w(s[0]) <= w(x) then [x] + s
    else
      assert s == [s[0]] + s[1..];
      [s[0]] + Insert(x, s[1..], w)
  }

  /** Inserting into a sorted list keeps it sorted. */
  lemma {:induction false} InsertSorted<T>(x: T, s: seq<T>, w: T -> real)
    requires SortedBy(s, w)
    ensures SortedBy(Insert(x, s, w), w)
  {
    if |s| > 0 && w(s[0]) > w(x) {
      var rest := Insert(x, s[1..], w);
      InsertSorted(x, s[1..], w);
      forall j | 0 <= j < |rest|
        ensures w(s[0]) >= w(rest[j])
      {
        InsertFrom(x, s[1..], w, rest[j]);
      }
    }
  }

  /** What an insertion holds comes from the list or is the inserted element. */
  lemma InsertFrom<T>(x: T, s: seq<T>, w: T -> real, y: T)
    requires y in Insert(x, s, w)
    ensures y == x || y in s
  {
    assert y in multiset(Insert(x, s, w));
  }

  /** `.sort((a, b) => b.total - a.total)`: a stable sort by non-increasing
      weight. */
  function SortByTotal<T(==)>(xs: seq<T>, w: T -> real): (r: seq<T>)
    ensures multiset(r) == multiset(xs)
    ensures SortedBy(r, w)
  {
    if |xs| == 0 then []
    else
      var rest := SortByTotal(xs[1..], w);
      InsertSorted(xs[0], rest, w);
      assert xs == [xs[0]] + xs[1..];
      Insert(xs[0], rest, w)
  }

  /** No two elements share a name. */
  predicate DistinctBy<T>(s: seq<T>, f: T -> String) {
    forall i, j :: 0 <= i < j < |s| ==> f(s[i]) != f(s[j])
  }

  lemma {:induction false} InsertDistinct<T>(x: T, s: seq<T>, w: T -> real, f: T -> String)
    requires DistinctBy(s, f)
    requires forall i :: 0 <= i < |s| ==> f(s[i]) != f(x)
    ensures DistinctBy(Insert(x, s, w), f)
  {
    if |s| > 0 && w(s[0]) > w(x) {
      var rest := Insert(x, s[1..], w);
      InsertDistinct(x, s[1..], w, f);
      forall j | 0 <= j < |rest|
        ensures f(s[0]) != f(rest[j])
      {
        InsertFrom(x, s[1..], w, rest[j]);
      }
    }
  }

  /** Sorting keeps names distinct. */
  lemma {:induction false} SortDistinct<T>(xs: seq<T>, w: T -> real, f: T -> String)
    requires DistinctBy(xs, f)
    ensures DistinctBy(SortByTotal(xs, w), f)
  {
    if |xs| > 0 {
      var rest := SortByTotal(xs[1..], w);
      SortDistinct(xs[1..], w, f);
      forall i | 0 <= i < |rest|
        ensures f(rest[i]) != f(xs[0])
      {
        assert rest[i] in multiset(xs[1..]);
      }
      InsertDistinct(xs[0], rest, w, f);
    }
  }

  /** A prefix one longer is the prefix and the next element. */
  lemma PrefixSnoc<T>(s: seq<T>, i: nat)
    requires i < |s|
    ensures s[..i + 1] == s[..i] + [s[i]]
  {
  }

  /** Sum of `f` over a list. */
  function SumOf<T>(xs: seq<T>, f: T -> real): real {
    if |xs| == 0 then 0.0 else f(xs[0]) + SumOf(xs[1..], f)
  }

  lemma {:induction false} SumOfAppend<T>(a: seq<T>, b: seq<T>, f: T -> real)
    ensures SumOf(a + b, f) == SumOf(a, f) + SumOf(b, f)
  {
    if |a| > 0 {
      assert (a + b)[1..] == a[1..] + b;
      SumOfAppend(a[1..], b, f);
    } else {
      assert a + b == b;
    }
  }

  lemma {:induction false} SumOfInsert<T>(x: T, s: seq<T>, w: T -> real, f: T -> real)
    ensures SumOf(Insert(x, s, w), f) == f(x) + SumOf(s, f)
  {
    if |s| == 0 || w(s[0]) <= w(x) {
      assert ([x] + s)[1..] == s;
    } else {
      SumOfInsert(x, s[1..], w, f);
      assert ([s[0]] + Insert(x, s[1..], w))[1..] == Insert(x, s[1..], w);
    }
  }

  /** Sorting keeps every sum over the list. */
  lemma {:induction false} SumOfSort<T>(xs: seq<T>, w: T -> real, f: T -> real)
    ensures SumOf(SortByTotal(xs, w), f) == SumOf(xs, f)
  {
    if |xs| > 0 {
      SumOfSort(xs[1..], w, f);
      SumOfInsert(xs[0], SortByTotal(xs[1..], w), w, f);
    }
  }
}
