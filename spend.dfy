/** The spending totals of `processTransactions`: four running-sum objects
    keyed by category, vendor, account and month, turned into leader lists
    sorted by amount (largest first) and a trend sorted by month. */
module Spend {
  import opened Wrappers
  import opened Types
  import opened Dict
  import opened Stats
  import Text
  import opened Perm

  /** Which field a total is keyed by. */
  datatype SpendKey = ByCategory | ByVendor | ByAccount | ByMonth

  /** The key a transaction's amount is added under; a month is the first
      seven characters of the date, `YYYY-MM`. */
  function KeyOf(t: Transaction, field: SpendKey): string {
    match field
    case ByCategory => t.category
    case ByVendor => t.vendor
    case ByAccount => t.account
    case ByMonth => Take(t.date, 7)
  }

  function KeysOf(txs: seq<Transaction>, field: SpendKey): (ks: seq<string>)
    ensures |ks| == |txs|
    ensures forall i :: 0 <= i < |txs| ==> ks[i] == KeyOf(txs[i], field)
  {
    seq(|txs|, i requires 0 <= i < |txs| => KeyOf(txs[i], field))
  }

  /** The transactions whose key is `k`, in input order. */
  function WithKey(txs: seq<Transaction>, field: SpendKey, k: string): seq<Transaction> {
    if txs == [] then []
    else WithKey(txs[..|txs| - 1], field, k) + (if KeyOf(txs[|txs| - 1], field) == k then [txs[|txs| - 1]] else [])
  }

  lemma WithKeyStep(txs: seq<Transaction>, field: SpendKey, k: string)
    requires txs != []
    ensures WithKey(txs, field, k)
         == if KeyOf(txs[|txs| - 1], field) == k then WithKey(txs[..|txs| - 1], field, k) + [txs[|txs| - 1]]
            else WithKey(txs[..|txs| - 1], field, k)
  {
    var w := WithKey(txs[..|txs| - 1], field, k);
    assert w + [] == w;
  }

  /** A running-sum object after the loop: `m[k] = (m[k] || 0) + t.amount`
      for each transaction in turn. */
  function SpendTotals(txs: seq<Transaction>, field: SpendKey): (d: Dict<real>)
    ensures Valid(d)
  {
    if txs == [] then Empty()
    else AddTo(SpendTotals(txs[..|txs| - 1], field), KeyOf(txs[|txs| - 1], field), txs[|txs| - 1].amount)
  }

  /** One more transaction adds its amount under its key. */
  lemma SpendTotalsSnoc(txs: seq<Transaction>, i: nat, field: SpendKey)
    requires i < |txs|
    ensures SpendTotals(txs[..i + 1], field) == AddTo(SpendTotals(txs[..i], field), KeyOf(txs[i], field), txs[i].amount)
  {
    assert txs[..i + 1][..i] == txs[..i];
  }

  lemma {:induction false} SpendTotalsKeys(txs: seq<Transaction>, field: SpendKey)
    ensures Valid(SpendTotals(txs, field))
    ensures SpendTotals(txs, field).keys == Uniq(KeysOf(txs, field))
  {
    if txs != [] {
      var p := txs[..|txs| - 1];
      SpendTotalsKeys(p, field);
      assert KeysOf(txs, field)[..|txs| - 1] == KeysOf(p, field);
    }
  }

  lemma {:induction false} SpendTotalsValue(txs: seq<Transaction>, field: SpendKey, k: string)
    ensures Get(SpendTotals(txs, field), k).GetOr(0.0) == SumAmounts(WithKey(txs, field, k))
  {
    if txs != [] {
      var p := txs[..|txs| - 1];
      var t := txs[|txs| - 1];
      SpendTotalsValue(p, field, k);
      var d := SpendTotals(p, field);
      var key := KeyOf(t, field);
      WithKeyStep(txs, field, k);
      if key == k {
        SumAmountsSnoc(WithKey(p, field, k), t);
      }
    }
  }

  lemma {:induction false} SpendTotalsSum(txs: seq<Transaction>, field: SpendKey)
    ensures SumValues(SpendTotals(txs, field)) == SumAmounts(txs)
  {
    if txs != [] {
      var p := txs[..|txs| - 1];
      var t := txs[|txs| - 1];
      SpendTotalsSum(p, field);
      SpendTotalsKeys(p, field);
      var d := SpendTotals(p, field);
      var key := KeyOf(t, field);
      assert SumAmounts(txs) == SumAmounts(p) + t.amount;
      SumValuesAccumulate(d, key, t.amount);
    }
  }

  /** Each key occurs once, in order of first appearance; its total is the
      sum of the amounts of the transactions with that key; and the totals
      add up to the total amount. */
  lemma SpendTotalsMeaning(txs: seq<Transaction>, field: SpendKey)
    ensures Valid(SpendTotals(txs, field))
    ensures SpendTotals(txs, field).keys == Uniq(KeysOf(txs, field))
    ensures forall k :: Get(SpendTotals(txs, field), k).GetOr(0.0) == SumAmounts(WithKey(txs, field, k))
    ensures SumValues(SpendTotals(txs, field)) == SumAmounts(txs)
  {
    SpendTotalsKeys(txs, field);
    forall k ensures Get(SpendTotals(txs, field), k).GetOr(0.0) == SumAmounts(WithKey(txs, field, k)) {
      SpendTotalsValue(txs, field, k);
    }
    SpendTotalsSum(txs, field);
  }

  /** The leaders for the keys `ks` of the totals `m`, in key order. */
  function LeadersOf(ks: seq<string>, m: map<string, real>): (r: seq<SpendingLeader>)
    requires forall k :: k in ks ==> k in m
    ensures |r| == |ks|
    ensures forall i :: 0 <= i < |ks| ==> r[i] == SpendingLeader(ks[i], m[ks[i]])
  {
    seq(|ks|, i requires 0 <= i < |ks| => SpendingLeader(ks[i], m[ks[i]]))
  }

  /** `Object.entries(map).map(([name, amount]) => ({ name, amount }))`. */
  function ToLeaders(d: Dict<real>): seq<SpendingLeader>
    requires Valid(d)
  {
    LeadersOf(d.keys, d.values)
  }

  function SumLeaders(s: seq<SpendingLeader>): real {
    if s == [] then 0.0 else s[0].amount + SumLeaders(s[1..])
  }

  lemma {:induction false} SumLeadersSnoc(s: seq<SpendingLeader>, x: SpendingLeader)
    ensures SumLeaders(s + [x]) == SumLeaders(s) + x.amount
  {
    if s != [] {
      assert (s + [x])[1..] == s[1..] + [x];
      SumLeadersSnoc(s[1..], x);
    }
  }

  lemma {:induction false} SumLeadersOf(ks: seq<string>, m: map<string, real>)
    requires forall k :: k in ks ==> k in m
    ensures SumLeaders(LeadersOf(ks, m)) == SumAt(ks, m)
  {
    if ks != [] {
      var p := ks[..|ks| - 1];
      SumLeadersOf(p, m);
      assert LeadersOf(ks, m) == LeadersOf(p, m) + [SpendingLeader(ks[|ks| - 1], m[ks[|ks| - 1]])];
      SumLeadersSnoc(LeadersOf(p, m), SpendingLeader(ks[|ks| - 1], m[ks[|ks| - 1]]));
    }
  }

  /** Largest amount first. */
  predicate SortedDesc(s: seq<SpendingLeader>) {
    forall i, j :: 0 <= i < j < |s| ==> s[i].amount >= s[j].amount
  }

  /** Insert `x` before the first element it is not smaller than. */
  function InsertDesc(x: SpendingLeader, q: seq<SpendingLeader>): seq<SpendingLeader> {
    if q == [] then [x]
    else if x.amount >= q[0].amount then [x] + q
    else [q[0]] + InsertDesc(x, q[1..])
  }

  /** The stable sort by `b.amount - a.amount`, as an insertion sort. */
  function SortDesc(s: seq<SpendingLeader>): seq<SpendingLeader> {
    if s == [] then [] else InsertDesc(s[0], SortDesc(s[1..]))
  }

  lemma {:induction false} InsertDescMembers(x: SpendingLeader, q: seq<SpendingLeader>)
    ensures multiset(InsertDesc(x, q)) == multiset(q) + multiset{x}
  {
    if q != [] && x.amount < q[0].amount {
      InsertDescMembers(x, q[1..]);
      assert q == [q[0]] + q[1..];
    }
  }

  lemma {:induction false} InsertDescSum(x: SpendingLeader, q: seq<SpendingLeader>)
    ensures SumLeaders(InsertDesc(x, q)) == x.amount + SumLeaders(q)
  {
    if q == [] {
      assert SumLeaders([x]) == x.amount + SumLeaders([]);
    } else if x.amount < q[0].amount {
      var rest := InsertDesc(x, q[1..]);
      InsertDescSum(x, q[1..]);
      assert ([q[0]] + rest)[1..] == rest;
    } else {
      assert ([x] + q)[1..] == q;
    }
  }

  lemma SortedDescCons(a: SpendingLeader, s: seq<SpendingLeader>)
    requires SortedDesc(s)
    requires forall y :: y in s ==> a.amount >= y.amount
    ensures SortedDesc([a] + s)
  {
    var r := [a] + s;
    forall i, j | 0 <= i < j < |r| ensures r[i].amount >= r[j].amount {
      assert r[j] == s[j - 1];
      if i > 0 {
        assert r[i] == s[i - 1];
      }
    }
  }

  lemma {:induction false} InsertDescSorted(x: SpendingLeader, q: seq<SpendingLeader>)
    requires SortedDesc(q)
    ensures SortedDesc(InsertDesc(x, q))
  {
    if q == [] {
    } else if x.amount < q[0].amount {
      var rest := InsertDesc(x, q[1..]);
      InsertDescSorted(x, q[1..]);
      InsertDescMembers(x, q[1..]);
      forall y | y in rest ensures q[0].amount >= y.amount {
        assert y in multiset(rest);
      }
      SortedDescCons(q[0], rest);
    } else {
      SortedDescCons(x, q);
    }
  }

  /** `createSpendingLeaders`' sort: the result is ordered largest first, is
      a permutation of the input, and keeps its total. */
  lemma {:induction false} SortDescFacts(s: seq<SpendingLeader>)
    ensures SortedDesc(SortDesc(s))
    ensures multiset(SortDesc(s)) == multiset(s)
    ensures SumLeaders(SortDesc(s)) == SumLeaders(s)
  {
    if s != [] {
      SortDescFacts(s[1..]);
      InsertDescMembers(s[0], SortDesc(s[1..]));
      InsertDescSum(s[0], SortDesc(s[1..]));
      InsertDescSorted(s[0], SortDesc(s[1..]));
      assert s == [s[0]] + s[1..];
    }
  }

  /** `createSpendingLeaders`. */
  function Leaders(d: Dict<real>): seq<SpendingLeader>
    requires Valid(d)
  {
    SortDesc(ToLeaders(d))
  }

  /** `.slice(0, n)` on a list and `.substring(0, n)` on a string: the first
      `n` elements, or all of them if fewer. */
  function Take<T>(s: seq<T>, n: nat): (r: seq<T>)
    ensures |r| == if |s| < n then |s| else n
    ensures r <= s
  {
    if |s| < n then s else s[..n]
  }

  /** A leader list holds exactly the entries of the spending object, once
      each, ordered largest first, and adds up to the same total. */
  lemma LeadersPermutation(d: Dict<real>)
    requires Valid(d)
    ensures |Leaders(d)| == |d.keys|
    ensures SortedDesc(Leaders(d))
    ensures forall l :: l in Leaders(d) <==> l in ToLeaders(d)
    ensures SumLeaders(Leaders(d)) == SumValues(d)
  {
    SortDescFacts(ToLeaders(d));
    PermutationMembers(ToLeaders(d), Leaders(d));
    SumLeadersOf(d.keys, d.values);
  }

  /** A leader list names every key of the spending object exactly once,
      with its total, ordered largest first, and adds up to the same total. */
  lemma LeadersMeaning(d: Dict<real>)
    requires Valid(d)
    ensures |Leaders(d)| == |d.keys|
    ensures SortedDesc(Leaders(d))
    ensures forall i, j :: 0 <= i < j < |Leaders(d)| ==> Leaders(d)[i].name != Leaders(d)[j].name
    ensures forall l :: l in Leaders(d) ==> Get(d, l.name) == Some(l.amount)
    ensures forall k :: k in d.keys ==> exists l :: l in Leaders(d) && l.name == k
    ensures SumLeaders(Leaders(d)) == SumValues(d)
  {
    LeadersPermutation(d);
    LeadersDistinctNames(d);
    LeadersCoverKeys(d);
  }

  lemma LeadersDistinctNames(d: Dict<real>)
    requires Valid(d)
    ensures forall i, j :: 0 <= i < j < |Leaders(d)| ==> Leaders(d)[i].name != Leaders(d)[j].name
  {
    var r := Leaders(d);
    SortDescFacts(ToLeaders(d));
    forall i, j | 0 <= i < j < |d.keys| ensures ToLeaders(d)[i] != ToLeaders(d)[j] {
      assert d.keys[i] != d.keys[j];
    }
    PermutationNoRepeats(ToLeaders(d), r);
    PermutationMembers(ToLeaders(d), r);
    forall i, j | 0 <= i < j < |r| ensures r[i].name != r[j].name {
      assert r[i] in ToLeaders(d) && r[j] in ToLeaders(d);
    }
  }

  lemma LeadersCoverKeys(d: Dict<real>)
    requires Valid(d)
    ensures forall k :: k in d.keys ==> exists l :: l in Leaders(d) && l.name == k
  {
    var r := Leaders(d);
    LeadersPermutation(d);
    forall k | k in d.keys ensures exists l :: l in r && l.name == k {
      var a :| 0 <= a < |d.keys| && d.keys[a] == k;
      assert ToLeaders(d)[a] in r;
    }
  }

  /** The top five of a leader list: no leader left out of it has a larger
      amount than any leader in it. */
  lemma TopFiveAreHighest(d: Dict<real>)
    requires Valid(d)
    ensures |Take(Leaders(d), 5)| == if |d.keys| < 5 then |d.keys| else 5
    ensures forall a, e :: a in Take(Leaders(d), 5) && e in ToLeaders(d) && e !in Take(Leaders(d), 5) ==> a.amount >= e.amount
  {
    var r := Leaders(d);
    var top := Take(r, 5);
    SortDescFacts(ToLeaders(d));
    assert |r| == |multiset(r)| == |multiset(ToLeaders(d))| == |d.keys|;
    forall a, e | a in top && e in ToLeaders(d) && e !in top ensures a.amount >= e.amount {
      assert e in multiset(r);
      var j :| 0 <= j < |r| && r[j] == e;
      var i :| 0 <= i < |top| && top[i] == a;
      assert j >= |top|;
    }
  }

  /** The points for the keys `ks` of the totals `m`, in key order. */
  function PointsOf(ks: seq<string>, m: map<string, real>): (r: seq<TimeSeriesDataPoint>)
    requires forall k :: k in ks ==> k in m
    ensures |r| == |ks|
    ensures forall i :: 0 <= i < |ks| ==> r[i] == TimeSeriesDataPoint(ks[i], m[ks[i]])
  {
    seq(|ks|, i requires 0 <= i < |ks| => TimeSeriesDataPoint(ks[i], m[ks[i]]))
  }

  /** `Object.entries(spendByMonth).map(([date, amount]) => ({ date, amount }))`. */
  function ToPoints(d: Dict<real>): seq<TimeSeriesDataPoint>
    requires Valid(d)
  {
    PointsOf(d.keys, d.values)
  }

  function SumPoints(s: seq<TimeSeriesDataPoint>): real {
    if s == [] then 0.0 else s[0].amount + SumPoints(s[1..])
  }

  lemma {:induction false} SumPointsSnoc(s: seq<TimeSeriesDataPoint>, x: TimeSeriesDataPoint)
    ensures SumPoints(s + [x]) == SumPoints(s) + x.amount
  {
    if s != [] {
      assert (s + [x])[1..] == s[1..] + [x];
      SumPointsSnoc(s[1..], x);
    }
  }

  lemma {:induction false} SumPointsOf(ks: seq<string>, m: map<string, real>)
    requires forall k :: k in ks ==> k in m
    ensures SumPoints(PointsOf(ks, m)) == SumAt(ks, m)
  {
    if ks != [] {
      var p := ks[..|ks| - 1];
      SumPointsOf(p, m);
      assert PointsOf(ks, m) == PointsOf(p, m) + [TimeSeriesDataPoint(ks[|ks| - 1], m[ks[|ks| - 1]])];
      SumPointsSnoc(PointsOf(p, m), TimeSeriesDataPoint(ks[|ks| - 1], m[ks[|ks| - 1]]));
    }
  }

  /** Earliest month first (no later point precedes an earlier one). */
  predicate SortedByDate(s: seq<TimeSeriesDataPoint>) {
    forall i, j :: 0 <= i < j < |s| ==> !Text.LexLess(s[j].date, s[i].date)
  }

  /** Insert `x` before the first element whose date is not smaller. */
  function InsertByDate(x: TimeSeriesDataPoint, q: seq<TimeSeriesDataPoint>): seq<TimeSeriesDataPoint> {
    if q == [] then [x]
    else if !Text.LexLess(q[0].date, x.date) then [x] + q
    else [q[0]] + InsertByDate(x, q[1..])
  }

  /** The stable sort by `a.date.localeCompare(b.date)`, as an insertion sort. */
  function SortByDate(s: seq<TimeSeriesDataPoint>): seq<TimeSeriesDataPoint> {
    if s == [] then [] else InsertByDate(s[0], SortByDate(s[1..]))
  }

  lemma SortedByDateCons(a: TimeSeriesDataPoint, s: seq<TimeSeriesDataPoint>)
    requires SortedByDate(s)
    requires forall y :: y in s ==> !Text.LexLess(y.date, a.date)
    ensures SortedByDate([a] + s)
  {
    var r := [a] + s;
    forall i, j | 0 <= i < j < |r| ensures !Text.LexLess(r[j].date, r[i].date) {
      assert r[j] == s[j - 1];
      if i > 0 {
        assert r[i] == s[i - 1];
      }
    }
  }

  /** A point not after the first of a sorted list is not after any of it. */
  lemma NotAfterFirst(x: TimeSeriesDataPoint, q: seq<TimeSeriesDataPoint>)
    requires SortedByDate(q) && q != [] && !Text.LexLess(q[0].date, x.date)
    ensures forall y :: y in q ==> !Text.LexLess(y.date, x.date)
  {
    forall j | 0 <= j < |q| ensures !Text.LexLess(q[j].date, x.date) {
      if Text.LexLess(q[j].date, x.date) {
        Text.LexLessTotal(q[0].date, q[j].date);
        if Text.LexLess(q[0].date, q[j].date) {
          Text.LexLessTransitive(q[0].date, q[j].date, x.date);
        }
      }
    }
  }

  lemma {:induction false} InsertByDateMembers(x: TimeSeriesDataPoint, q: seq<TimeSeriesDataPoint>)
    ensures multiset(InsertByDate(x, q)) == multiset(q) + multiset{x}
  {
    if q != [] && Text.LexLess(q[0].date, x.date) {
      InsertByDateMembers(x, q[1..]);
      assert q == [q[0]] + q[1..];
    }
  }

  lemma {:induction false} InsertByDateSum(x: TimeSeriesDataPoint, q: seq<TimeSeriesDataPoint>)
    ensures SumPoints(InsertByDate(x, q)) == x.amount + SumPoints(q)
  {
    if q == [] {
      assert SumPoints([x]) == x.amount + SumPoints([]);
    } else if Text.LexLess(q[0].date, x.date) {
      var rest := InsertByDate(x, q[1..]);
      InsertByDateSum(x, q[1..]);
      assert ([q[0]] + rest)[1..] == rest;
    } else {
      assert ([x] + q)[1..] == q;
    }
  }

  lemma {:induction false} InsertByDateSorted(x: TimeSeriesDataPoint, q: seq<TimeSeriesDataPoint>)
    requires SortedByDate(q)
    ensures SortedByDate(InsertByDate(x, q))
  {
    if q == [] {
    } else if !Text.LexLess(q[0].date, x.date) {
      NotAfterFirst(x, q);
      SortedByDateCons(x, q);
    } else {
      var rest := InsertByDate(x, q[1..]);
      InsertByDateSorted(x, q[1..]);
      InsertByDateMembers(x, q[1..]);
      forall y | y in rest ensures !Text.LexLess(y.date, q[0].date) {
        assert y in multiset(rest);
        if y == x {
          Text.LexLessAsymmetric(q[0].date, x.date);
        } else {
          assert y in q[1..];
          var j :| 0 <= j < |q[1..]| && q[1..][j] == y;
          assert q[j + 1] == y;
        }
      }
      SortedByDateCons(q[0], rest);
    }
  }

  lemma {:induction false} SortByDateFacts(s: seq<TimeSeriesDataPoint>)
    ensures SortedByDate(SortByDate(s))
    ensures multiset(SortByDate(s)) == multiset(s)
    ensures SumPoints(SortByDate(s)) == SumPoints(s)
  {
    if s != [] {
      SortByDateFacts(s[1..]);
      InsertByDateMembers(s[0], SortByDate(s[1..]));
      InsertByDateSum(s[0], SortByDate(s[1..]));
      InsertByDateSorted(s[0], SortByDate(s[1..]));
      assert s == [s[0]] + s[1..];
    }
  }

  /** `spendTrend`. */
  function Trend(d: Dict<real>): seq<TimeSeriesDataPoint>
    requires Valid(d)
  {
    SortByDate(ToPoints(d))
  }

  /** The trend lists every month of the spending object once, with its
      total, in strictly increasing order of the month text. */
  lemma TrendMeaning(d: Dict<real>)
    requires Valid(d)
    ensures |Trend(d)| == |d.keys|
    ensures forall p :: p in Trend(d) <==> p in ToPoints(d)
    ensures forall i, j :: 0 <= i < j < |Trend(d)| ==> Text.LexLess(Trend(d)[i].date, Trend(d)[j].date)
    ensures forall i, j :: 0 <= i < j < |Trend(d)| ==> Trend(d)[i].date != Trend(d)[j].date
  {
    var r := Trend(d);
    SortByDateFacts(ToPoints(d));
    PermutationMembers(ToPoints(d), r);
    forall i, j | 0 <= i < j < |d.keys| ensures ToPoints(d)[i] != ToPoints(d)[j] {
      assert d.keys[i] != d.keys[j];
    }
    PermutationNoRepeats(ToPoints(d), r);
    forall i, j | 0 <= i < j < |r| ensures Text.LexLess(r[i].date, r[j].date) {
      assert r[i] in ToPoints(d) && r[j] in ToPoints(d);
      Text.LexLessTotal(r[i].date, r[j].date);
    }
    forall i, j | 0 <= i < j < |r| ensures r[i].date != r[j].date {
      Text.LexLessIrreflexive(r[i].date);
    }
  }

  /** The trend adds up to the same total as the spending object. */
  lemma TrendSum(d: Dict<real>)
    requires Valid(d)
    ensures SumPoints(Trend(d)) == SumValues(d)
  {
    SortByDateFacts(ToPoints(d));
    SumPointsOf(d.keys, d.values);
  }
}
