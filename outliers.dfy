/** `detectOutliers`: group the batch by category, and within every category
    with enough members and a non-zero standard deviation, give each member
    whose amount exceeds `mean + factor * stdDev` one reason, keyed by its
    transaction identifier. */
module Outliers {
  import opened Wrappers
  import opened Types
  import opened Dict
  import opened Stats

  /** The category of each transaction, in order. */
  function Categories(txs: seq<Transaction>): (cs: seq<string>)
    ensures |cs| == |txs|
    ensures forall i :: 0 <= i < |txs| ==> cs[i] == txs[i].category
  {
    seq(|txs|, i requires 0 <= i < |txs| => txs[i].category)
  }

  /** The members of category `c`, in input order. */
  function InCategory(txs: seq<Transaction>, c: string): seq<Transaction> {
    if txs == [] then []
    else InCategory(txs[..|txs| - 1], c) + (if txs[|txs| - 1].category == c then [txs[|txs| - 1]] else [])
  }

  /** `transactionsByCategory` after the grouping loop. */
  function GroupByCategory(txs: seq<Transaction>): Dict<seq<Transaction>> {
    if txs == [] then Empty()
    else
      var d := GroupByCategory(txs[..|txs| - 1]);
      var t := txs[|txs| - 1];
      Put(d, t.category, Get(d, t.category).GetOr([]) + [t])
  }

  lemma {:induction false} InCategoryMembers(txs: seq<Transaction>, c: string)
    ensures forall t :: t in InCategory(txs, c) ==> t.category == c
    ensures InCategory(txs, c) == [] <==> c !in Categories(txs)
  {
    if txs != [] {
      var p := txs[..|txs| - 1];
      InCategoryMembers(p, c);
      assert Categories(txs) == Categories(p) + [txs[|txs| - 1].category];
    }
  }

  /** The grouping holds the categories in order of first appearance, each
      with exactly its members in input order. */
  lemma {:induction false} GroupByCategoryShape(txs: seq<Transaction>)
    ensures Valid(GroupByCategory(txs))
    ensures GroupByCategory(txs).keys == Uniq(Categories(txs))
    ensures forall c :: Get(GroupByCategory(txs), c).GetOr([]) == InCategory(txs, c)
  {
    if txs != [] {
      var p := txs[..|txs| - 1];
      var t := txs[|txs| - 1];
      GroupByCategoryShape(p);
      assert Categories(txs)[..|txs| - 1] == Categories(p);
    }
  }

  /** The group stored under `c`, or none. */
  function GroupAt(m: map<string, seq<Transaction>>, c: string): seq<Transaction> {
    if c in m then m[c] else []
  }

  /** Every group is its category's members. */
  lemma GroupsAreCategories(txs: seq<Transaction>)
    ensures forall c :: GroupAt(GroupByCategory(txs).values, c) == InCategory(txs, c)
  {
    GroupByCategoryShape(txs);
  }

  /** The reasons `map.get(id)` returns, or none. */
  function Lookup(m: map<string, seq<Reason>>, id: string): seq<Reason> {
    if id in m then m[id] else []
  }

  /** The inner `forEach` over the members `ms` of category `c`. */
  function AddCategoryOutliers(cfg: AuditConfig, c: string, mean: real, variance: real,
                               ms: seq<Transaction>, acc: map<string, seq<Reason>>): map<string, seq<Reason>>
  {
    if ms == [] then acc
    else
      var before := AddCategoryOutliers(cfg, c, mean, variance, ms[..|ms| - 1], acc);
      var t := ms[|ms| - 1];
      if ExceedsBound(t.amount - mean, cfg.outlierFactor, variance) then
        before[t.transactionId := Lookup(before, t.transactionId) + [Outlier(t.amount, c, mean, variance)]]
      else before
  }

  lemma AddCategoryOutliersStep(cfg: AuditConfig, c: string, mean: real, variance: real,
                                ms: seq<Transaction>, k: nat, acc: map<string, seq<Reason>>)
    requires k < |ms|
    ensures var before := AddCategoryOutliers(cfg, c, mean, variance, ms[..k], acc);
            var t := ms[k];
            AddCategoryOutliers(cfg, c, mean, variance, ms[..k + 1], acc)
            == if ExceedsBound(t.amount - mean, cfg.outlierFactor, variance) then
                 before[t.transactionId := Lookup(before, t.transactionId) + [Outlier(t.amount, c, mean, variance)]]
               else before
  {
    assert ms[..k + 1][..k] == ms[..k];
  }

  /** The `for ... in` loop over the categories `cs` of the groups `m`,
      with its two `continue`s. */
  function ScanCategories(cfg: AuditConfig, cs: seq<string>, m: map<string, seq<Transaction>>): map<string, seq<Reason>> {
    if cs == [] then map[]
    else
      var before := ScanCategories(cfg, cs[..|cs| - 1], m);
      var c := cs[|cs| - 1];
      var g := GroupAt(m, c);
      if |g| < cfg.minSamples then before
      else if Variance(g) == 0.0 then before
      else AddCategoryOutliers(cfg, c, Mean(g), Variance(g), g, before)
  }

  lemma ScanCategoriesStep(cfg: AuditConfig, cs: seq<string>, m: map<string, seq<Transaction>>, j: nat)
    requires j < |cs|
    ensures var before := ScanCategories(cfg, cs[..j], m);
            var g := GroupAt(m, cs[j]);
            ScanCategories(cfg, cs[..j + 1], m)
            == if |g| < cfg.minSamples || Variance(g) == 0.0 then before
               else AddCategoryOutliers(cfg, cs[j], Mean(g), Variance(g), g, before)
  {
    assert cs[..j + 1][..j] == cs[..j];
  }

  /** What `detectOutliers` returns. */
  function OutlierReasons(cfg: AuditConfig, txs: seq<Transaction>): map<string, seq<Reason>> {
    var groups := GroupByCategory(txs);
    ScanCategories(cfg, groups.keys, groups.values)
  }

  /** A transaction is a statistical outlier of its batch when its category
      has at least `minSamples` members whose amounts are not all equal, and
      its amount is strictly above the category's population mean plus
      `outlierFactor` population standard deviations. */
  predicate IsOutlier(cfg: AuditConfig, txs: seq<Transaction>, t: Transaction) {
    var g := InCategory(txs, t.category);
    && |g| >= cfg.minSamples
    && Variance(g) != 0.0
    && ExceedsBound(t.amount - Mean(g), cfg.outlierFactor, Variance(g))
  }

  /** How many transactions of `s` carry `id` and are outliers of `txs`. */
  function CountOutliers(cfg: AuditConfig, txs: seq<Transaction>, id: string, s: seq<Transaction>): nat {
    if s == [] then 0
    else
      CountOutliers(cfg, txs, id, s[..|s| - 1])
      + (if s[|s| - 1].transactionId == id && IsOutlier(cfg, txs, s[|s| - 1]) then 1 else 0)
  }

  /** Every stored reason is an outlier reason. */
  predicate OnlyOutlierReasons(m: map<string, seq<Reason>>) {
    forall id :: id in m ==> forall r :: r in m[id] ==> r.Outlier?
  }

  /** The reason `detectOutliers` gives an outlier `t`: its amount, its
      category, and that category's mean and variance. */
  function OutlierReasonFor(txs: seq<Transaction>, t: Transaction): Reason {
    Outlier(t.amount, t.category, Mean(InCategory(txs, t.category)), Variance(InCategory(txs, t.category)))
  }

  /** The reasons that the outliers of `txs` among `s` carrying `id` are
      given, as a bag. */
  function OutlierBag(cfg: AuditConfig, txs: seq<Transaction>, id: string, s: seq<Transaction>): multiset<Reason> {
    if s == [] then multiset{}
    else
      OutlierBag(cfg, txs, id, s[..|s| - 1])
      + (if s[|s| - 1].transactionId == id && IsOutlier(cfg, txs, s[|s| - 1])
         then multiset{OutlierReasonFor(txs, s[|s| - 1])} else multiset{})
  }

  /** The bag holds one reason per counted outlier, and the reason of each
      outlier of `s` carrying `id`. */
  lemma OutlierBagFacts(cfg: AuditConfig, txs: seq<Transaction>, id: string, s: seq<Transaction>)
    ensures |OutlierBag(cfg, txs, id, s)| == CountOutliers(cfg, txs, id, s)
    ensures forall t :: t in s && t.transactionId == id && IsOutlier(cfg, txs, t) ==> OutlierReasonFor(txs, t) in OutlierBag(cfg, txs, id, s)
  {
    OutlierBagSize(cfg, txs, id, s);
    forall t | t in s && t.transactionId == id && IsOutlier(cfg, txs, t)
      ensures OutlierReasonFor(txs, t) in OutlierBag(cfg, txs, id, s)
    {
      var i :| 0 <= i < |s| && s[i] == t;
      OutlierBagHas(cfg, txs, id, s, i);
    }
  }

  lemma {:induction false} OutlierBagSize(cfg: AuditConfig, txs: seq<Transaction>, id: string, s: seq<Transaction>)
    ensures |OutlierBag(cfg, txs, id, s)| == CountOutliers(cfg, txs, id, s)
  {
    if s != [] {
      var p := s[..|s| - 1];
      var last := s[|s| - 1];
      OutlierBagSize(cfg, txs, id, p);
      if last.transactionId == id && IsOutlier(cfg, txs, last) {
        assert OutlierBag(cfg, txs, id, s) == OutlierBag(cfg, txs, id, p) + multiset{OutlierReasonFor(txs, last)};
      } else {
        assert OutlierBag(cfg, txs, id, s) == OutlierBag(cfg, txs, id, p);
      }
    }
  }

  /** The outlier at position `i` of `s` contributes its reason. */
  lemma {:induction false} OutlierBagHas(cfg: AuditConfig, txs: seq<Transaction>, id: string, s: seq<Transaction>, i: nat)
    requires i < |s| && s[i].transactionId == id && IsOutlier(cfg, txs, s[i])
    ensures OutlierReasonFor(txs, s[i]) in OutlierBag(cfg, txs, id, s)
  {
    var p := s[..|s| - 1];
    if i < |s| - 1 {
      assert p[i] == s[i];
      OutlierBagHas(cfg, txs, id, p, i);
    }
  }

  lemma {:induction false} OutlierBagNone(cfg: AuditConfig, txs: seq<Transaction>, id: string, s: seq<Transaction>)
    requires forall t :: t in s ==> !IsOutlier(cfg, txs, t)
    ensures OutlierBag(cfg, txs, id, s) == multiset{}
  {
    if s != [] {
      OutlierBagNone(cfg, txs, id, s[..|s| - 1]);
    }
  }

  /** One category's pass stores outlier reasons only. */
  lemma {:induction false} AddCategoryOutliersOnly(cfg: AuditConfig, c: string, mean: real, variance: real,
                                                   ms: seq<Transaction>, acc: map<string, seq<Reason>>)
    requires OnlyOutlierReasons(acc)
    ensures OnlyOutlierReasons(AddCategoryOutliers(cfg, c, mean, variance, ms, acc))
  {
    if ms != [] {
      AddCategoryOutliersOnly(cfg, c, mean, variance, ms[..|ms| - 1], acc);
    }
  }

  /** The reasons one category's pass adds under `id`, as a bag. */
  function ExceedBag(cfg: AuditConfig, c: string, mean: real, variance: real, id: string, ms: seq<Transaction>): multiset<Reason> {
    if ms == [] then multiset{}
    else
      ExceedBag(cfg, c, mean, variance, id, ms[..|ms| - 1])
      + (if ms[|ms| - 1].transactionId == id && ExceedsBound(ms[|ms| - 1].amount - mean, cfg.outlierFactor, variance)
         then multiset{Outlier(ms[|ms| - 1].amount, c, mean, variance)} else multiset{})
  }

  /** Appending `r` under key `k` adds `r` to the bag under `id` exactly
      when `k` is `id`. */
  lemma LookupAppend(m: map<string, seq<Reason>>, k: string, r: Reason, id: string)
    ensures multiset(Lookup(m[k := Lookup(m, k) + [r]], id))
         == multiset(Lookup(m, id)) + (if k == id then multiset{r} else multiset{})
  {
    if k == id {
      assert multiset(Lookup(m, id) + [r]) == multiset(Lookup(m, id)) + multiset{r};
    } else {
      assert Lookup(m[k := Lookup(m, k) + [r]], id) == Lookup(m, id);
    }
  }

  /** The last member of `ms` adds the same reason to the stored list under
      `id` and to the bag. */
  lemma ExceedStep(cfg: AuditConfig, c: string, mean: real, variance: real,
                   ms: seq<Transaction>, acc: map<string, seq<Reason>>, id: string)
    requires ms != []
    ensures var t := ms[|ms| - 1];
            var added := if t.transactionId == id && ExceedsBound(t.amount - mean, cfg.outlierFactor, variance)
                         then multiset{Outlier(t.amount, c, mean, variance)} else multiset{};
            && multiset(Lookup(AddCategoryOutliers(cfg, c, mean, variance, ms, acc), id))
               == multiset(Lookup(AddCategoryOutliers(cfg, c, mean, variance, ms[..|ms| - 1], acc), id)) + added
            && ExceedBag(cfg, c, mean, variance, id, ms) == ExceedBag(cfg, c, mean, variance, id, ms[..|ms| - 1]) + added
  {
    var t := ms[|ms| - 1];
    var before := AddCategoryOutliers(cfg, c, mean, variance, ms[..|ms| - 1], acc);
    if ExceedsBound(t.amount - mean, cfg.outlierFactor, variance) {
      LookupAppend(before, t.transactionId, Outlier(t.amount, c, mean, variance), id);
    }
  }

  lemma {:induction false} AddCategoryOutliersExceed(cfg: AuditConfig, c: string, mean: real, variance: real,
                                                     ms: seq<Transaction>, acc: map<string, seq<Reason>>, id: string)
    ensures multiset(Lookup(AddCategoryOutliers(cfg, c, mean, variance, ms, acc), id))
         == multiset(Lookup(acc, id)) + ExceedBag(cfg, c, mean, variance, id, ms)
  {
    if ms != [] {
      AddCategoryOutliersExceed(cfg, c, mean, variance, ms[..|ms| - 1], acc, id);
      ExceedStep(cfg, c, mean, variance, ms, acc, id);
    }
  }

  /** Inside a category that passes both gates, the members above the bound
      are its outliers, and their reasons are the outlier reasons. */
  lemma {:induction false} ExceedBagIsOutlierBag(cfg: AuditConfig, txs: seq<Transaction>, c: string, id: string, ms: seq<Transaction>)
    requires forall t :: t in ms ==> t.category == c
    requires forall t :: t in ms ==> (IsOutlier(cfg, txs, t) <==> ExceedsBound(t.amount - Mean(InCategory(txs, c)), cfg.outlierFactor, Variance(InCategory(txs, c))))
    ensures ExceedBag(cfg, c, Mean(InCategory(txs, c)), Variance(InCategory(txs, c)), id, ms) == OutlierBag(cfg, txs, id, ms)
  {
    if ms != [] {
      var p := ms[..|ms| - 1];
      var t := ms[|ms| - 1];
      assert forall u :: u in p ==> u in ms;
      ExceedBagIsOutlierBag(cfg, txs, c, id, p);
      assert t in ms;
    }
  }

  /** The per-group bags summed over the categories `cs`. */
  function SumGroupBags(cfg: AuditConfig, txs: seq<Transaction>, id: string,
                        cs: seq<string>, m: map<string, seq<Transaction>>): multiset<Reason> {
    if cs == [] then multiset{}
    else SumGroupBags(cfg, txs, id, cs[..|cs| - 1], m) + OutlierBag(cfg, txs, id, GroupAt(m, cs[|cs| - 1]))
  }

  /** One category's step of the scan adds, under each identifier, the
      reasons of the outliers in that category. */
  /** In a category that passes both gates, a member is an outlier exactly
      when it exceeds the category's bound. */
  lemma CategoryOutliersExceed(cfg: AuditConfig, txs: seq<Transaction>, c: string)
    requires |InCategory(txs, c)| >= cfg.minSamples && Variance(InCategory(txs, c)) != 0.0
    ensures forall t :: t in InCategory(txs, c) ==>
              (IsOutlier(cfg, txs, t) <==> ExceedsBound(t.amount - Mean(InCategory(txs, c)), cfg.outlierFactor, Variance(InCategory(txs, c))))
  {
    InCategoryMembers(txs, c);
    forall t | t in InCategory(txs, c)
      ensures IsOutlier(cfg, txs, t) <==> ExceedsBound(t.amount - Mean(InCategory(txs, c)), cfg.outlierFactor, Variance(InCategory(txs, c)))
    {
      assert t.category == c;
    }
  }

  lemma ScanCategoryBag(cfg: AuditConfig, txs: seq<Transaction>, c: string, before: map<string, seq<Reason>>, id: string)
    ensures var g := InCategory(txs, c);
            var after := if |g| < cfg.minSamples || Variance(g) == 0.0 then before
                         else AddCategoryOutliers(cfg, c, Mean(g), Variance(g), g, before);
            && multiset(Lookup(after, id)) == multiset(Lookup(before, id)) + OutlierBag(cfg, txs, id, g)
            && (OnlyOutlierReasons(before) ==> OnlyOutlierReasons(after))
  {
    var g := InCategory(txs, c);
    if |g| < cfg.minSamples || Variance(g) == 0.0 {
      SkippedCategoryBag(cfg, txs, c, id);
    } else {
      ScannedCategoryBag(cfg, txs, c, before, id);
    }
  }

  /** A category that fails a gate has no outliers. */
  lemma SkippedCategoryBag(cfg: AuditConfig, txs: seq<Transaction>, c: string, id: string)
    requires |InCategory(txs, c)| < cfg.minSamples || Variance(InCategory(txs, c)) == 0.0
    ensures OutlierBag(cfg, txs, id, InCategory(txs, c)) == multiset{}
  {
    InCategoryMembers(txs, c);
    OutlierBagNone(cfg, txs, id, InCategory(txs, c));
  }

  /** A category that passes both gates adds the reasons of its outliers. */
  lemma ScannedCategoryBag(cfg: AuditConfig, txs: seq<Transaction>, c: string, before: map<string, seq<Reason>>, id: string)
    requires |InCategory(txs, c)| >= cfg.minSamples && Variance(InCategory(txs, c)) != 0.0
    ensures var g := InCategory(txs, c);
            var after := AddCategoryOutliers(cfg, c, Mean(g), Variance(g), g, before);
            && multiset(Lookup(after, id)) == multiset(Lookup(before, id)) + OutlierBag(cfg, txs, id, g)
            && (OnlyOutlierReasons(before) ==> OnlyOutlierReasons(after))
  {
    var g := InCategory(txs, c);
    AddCategoryOutliersExceed(cfg, c, Mean(g), Variance(g), g, before, id);
    InCategoryMembers(txs, c);
    CategoryOutliersExceed(cfg, txs, c);
    ExceedBagIsOutlierBag(cfg, txs, c, id, g);
    if OnlyOutlierReasons(before) {
      AddCategoryOutliersOnly(cfg, c, Mean(g), Variance(g), g, before);
    }
  }

  /** Scanning groups that are categories of `txs` yields, under each
      identifier, the reasons of the outliers of the scanned groups. */
  lemma {:induction false} ScanCategoriesBag(cfg: AuditConfig, txs: seq<Transaction>, cs: seq<string>,
                                             m: map<string, seq<Transaction>>, id: string)
    requires forall c :: GroupAt(m, c) == InCategory(txs, c)
    ensures multiset(Lookup(ScanCategories(cfg, cs, m), id)) == SumGroupBags(cfg, txs, id, cs, m)
    ensures OnlyOutlierReasons(ScanCategories(cfg, cs, m))
  {
    if cs != [] {
      var p := cs[..|cs| - 1];
      var c := cs[|cs| - 1];
      ScanCategoriesBag(cfg, txs, p, m, id);
      ScanCategoryBag(cfg, txs, c, ScanCategories(cfg, p, m), id);
    }
  }

  lemma {:induction false} SumGroupBagsOutside(cfg: AuditConfig, txs: seq<Transaction>, id: string,
                                               cs: seq<string>, m: map<string, seq<Transaction>>, c: string, g: seq<Transaction>)
    requires c !in cs
    ensures SumGroupBags(cfg, txs, id, cs, m[c := g]) == SumGroupBags(cfg, txs, id, cs, m)
  {
    if cs != [] {
      SumGroupBagsOutside(cfg, txs, id, cs[..|cs| - 1], m, c, g);
    }
  }

  lemma OutlierBagSnoc(cfg: AuditConfig, txs: seq<Transaction>, id: string, g: seq<Transaction>, t: Transaction)
    ensures OutlierBag(cfg, txs, id, g + [t]) == OutlierBag(cfg, txs, id, g) + OutlierBag(cfg, txs, id, [t])
  {
    assert (g + [t])[..|g|] == g;
    assert [t][..0] == [];
  }

  lemma {:induction false} SumGroupBagsPush(cfg: AuditConfig, txs: seq<Transaction>, id: string,
                                            cs: seq<string>, m: map<string, seq<Transaction>>, t: Transaction)
    requires Distinct(cs) && t.category in cs
    ensures SumGroupBags(cfg, txs, id, cs, m[t.category := GroupAt(m, t.category) + [t]])
         == SumGroupBags(cfg, txs, id, cs, m) + OutlierBag(cfg, txs, id, [t])
    decreases |cs|, 1
  {
    if cs[|cs| - 1] == t.category {
      SumGroupBagsPushLast(cfg, txs, id, cs, m, t);
    } else {
      SumGroupBagsPushEarlier(cfg, txs, id, cs, m, t);
    }
  }

  /** The case where `t`'s category is the last key. */
  lemma SumGroupBagsPushLast(cfg: AuditConfig, txs: seq<Transaction>, id: string,
                             cs: seq<string>, m: map<string, seq<Transaction>>, t: Transaction)
    requires Distinct(cs) && cs != [] && cs[|cs| - 1] == t.category
    ensures SumGroupBags(cfg, txs, id, cs, m[t.category := GroupAt(m, t.category) + [t]])
         == SumGroupBags(cfg, txs, id, cs, m) + OutlierBag(cfg, txs, id, [t])
  {
    var p := cs[..|cs| - 1];
    var g := GroupAt(m, t.category);
    var m' := m[t.category := g + [t]];
    var a := SumGroupBags(cfg, txs, id, p, m);
    var b := OutlierBag(cfg, txs, id, g);
    var u := OutlierBag(cfg, txs, id, [t]);
    assert SumGroupBags(cfg, txs, id, cs, m) == a + b;
    assert t.category !in p by {
      forall i | 0 <= i < |p| ensures p[i] != t.category {
        assert p[i] == cs[i];
      }
    }
    SumGroupBagsOutside(cfg, txs, id, p, m, t.category, g + [t]);
    OutlierBagSnoc(cfg, txs, id, g, t);
    assert SumGroupBags(cfg, txs, id, cs, m') == a + (b + u);
    assert a + (b + u) == (a + b) + u;
  }

  /** The case where `t`'s category is an earlier key. */
  lemma SumGroupBagsPushEarlier(cfg: AuditConfig, txs: seq<Transaction>, id: string,
                                cs: seq<string>, m: map<string, seq<Transaction>>, t: Transaction)
    requires Distinct(cs) && t.category in cs && cs[|cs| - 1] != t.category
    ensures SumGroupBags(cfg, txs, id, cs, m[t.category := GroupAt(m, t.category) + [t]])
         == SumGroupBags(cfg, txs, id, cs, m) + OutlierBag(cfg, txs, id, [t])
    decreases |cs|, 0
  {
    var p := cs[..|cs| - 1];
    var c := cs[|cs| - 1];
    var m' := m[t.category := GroupAt(m, t.category) + [t]];
    var a := SumGroupBags(cfg, txs, id, p, m);
    var b := OutlierBag(cfg, txs, id, GroupAt(m, c));
    var u := OutlierBag(cfg, txs, id, [t]);
    assert SumGroupBags(cfg, txs, id, cs, m) == a + b;
    assert t.category in p by {
      var k :| 0 <= k < |cs| && cs[k] == t.category;
      assert p[k] == t.category;
    }
    SumGroupBagsPush(cfg, txs, id, p, m, t);
    assert GroupAt(m', c) == GroupAt(m, c);
    assert SumGroupBags(cfg, txs, id, cs, m') == (a + u) + b;
    assert (a + u) + b == (a + b) + u;
  }

  /** Appending a transaction to its group adds its own contribution to
      the summed bag. */
  lemma GroupingStep(cfg: AuditConfig, txs: seq<Transaction>, id: string, d: Dict<seq<Transaction>>, t: Transaction)
    requires Valid(d)
    ensures var r := Put(d, t.category, Get(d, t.category).GetOr([]) + [t]);
            SumGroupBags(cfg, txs, id, r.keys, r.values) == SumGroupBags(cfg, txs, id, d.keys, d.values) + OutlierBag(cfg, txs, id, [t])
  {
    assert Get(d, t.category).GetOr([]) == GroupAt(d.values, t.category);
    if t.category in d.keys {
      SumGroupBagsPush(cfg, txs, id, d.keys, d.values, t);
    } else {
      var ks := d.keys + [t.category];
      assert ks[..|ks| - 1] == d.keys;
      assert [t][..0] == [];
      SumGroupBagsOutside(cfg, txs, id, d.keys, d.values, t.category, [t]);
    }
  }

  /** The groups of any prefix `s` together hold the outlier reasons of `s`. */
  lemma {:induction false} GroupingPartitions(cfg: AuditConfig, txs: seq<Transaction>, id: string, s: seq<Transaction>)
    ensures var d := GroupByCategory(s); SumGroupBags(cfg, txs, id, d.keys, d.values) == OutlierBag(cfg, txs, id, s)
  {
    if s != [] {
      var p := s[..|s| - 1];
      var t := s[|s| - 1];
      GroupingPartitions(cfg, txs, id, p);
      GroupByCategoryShape(p);
      GroupingStep(cfg, txs, id, GroupByCategory(p), t);
      assert [t][..0] == [];
    }
  }

  /** `r` is the reason of some outlier of `txs` that carries `id`. */
  ghost predicate ExplainedBy(cfg: AuditConfig, txs: seq<Transaction>, id: string, r: Reason) {
    exists t :: t in txs && t.transactionId == id && IsOutlier(cfg, txs, t) && r == OutlierReasonFor(txs, t)
  }

  /** Every reason stored under an identifier is the reason of an outlier
      carrying that identifier. */
  ghost predicate Explained(cfg: AuditConfig, txs: seq<Transaction>, m: map<string, seq<Reason>>) {
    forall id :: id in m ==> forall r :: r in m[id] ==> ExplainedBy(cfg, txs, id, r)
  }

  lemma {:induction false} InCategorySubset(txs: seq<Transaction>, c: string)
    ensures forall t :: t in InCategory(txs, c) ==> t in txs
  {
    if txs != [] {
      InCategorySubset(txs[..|txs| - 1], c);
    }
  }

  /** One category's pass only stores reasons of outliers of that category. */
  lemma {:induction false} AddCategoryOutliersExplained(cfg: AuditConfig, txs: seq<Transaction>, c: string,
                                                        ms: seq<Transaction>, acc: map<string, seq<Reason>>)
    requires |InCategory(txs, c)| >= cfg.minSamples && Variance(InCategory(txs, c)) != 0.0
    requires forall t :: t in ms ==> t in txs && t.category == c
    requires Explained(cfg, txs, acc)
    ensures Explained(cfg, txs, AddCategoryOutliers(cfg, c, Mean(InCategory(txs, c)), Variance(InCategory(txs, c)), ms, acc))
  {
    if ms != [] {
      var g := InCategory(txs, c);
      var p := ms[..|ms| - 1];
      var t := ms[|ms| - 1];
      assert forall u :: u in p ==> u in ms;
      AddCategoryOutliersExplained(cfg, txs, c, p, acc);
      var before := AddCategoryOutliers(cfg, c, Mean(g), Variance(g), p, acc);
      if ExceedsBound(t.amount - Mean(g), cfg.outlierFactor, Variance(g)) {
        assert t in ms;
        assert IsOutlier(cfg, txs, t);
        assert ExplainedBy(cfg, txs, t.transactionId, Outlier(t.amount, c, Mean(g), Variance(g)));
      }
    }
  }

  /** Scanning groups that are categories of `txs` only stores reasons of
      outliers. */
  lemma {:induction false} ScanCategoriesExplained(cfg: AuditConfig, txs: seq<Transaction>, cs: seq<string>,
                                                   m: map<string, seq<Transaction>>)
    requires forall c :: GroupAt(m, c) == InCategory(txs, c)
    ensures Explained(cfg, txs, ScanCategories(cfg, cs, m))
  {
    if cs != [] {
      var c := cs[|cs| - 1];
      ScanCategoriesExplained(cfg, txs, cs[..|cs| - 1], m);
      InCategoryMembers(txs, c);
      InCategorySubset(txs, c);
      var g := GroupAt(m, c);
      if |g| >= cfg.minSamples && Variance(g) != 0.0 {
        AddCategoryOutliersExplained(cfg, txs, c, g, ScanCategories(cfg, cs[..|cs| - 1], m));
      }
    }
  }

  /** Every outlier reason stored under `id` is the reason of an outlier of
      the batch that carries `id`: it quotes that transaction's amount and
      category and the category's mean and variance. */
  lemma OutlierReasonsExplained(cfg: AuditConfig, txs: seq<Transaction>, id: string)
    ensures forall r :: r in Lookup(OutlierReasons(cfg, txs), id) ==>
              exists t :: t in txs && t.transactionId == id && IsOutlier(cfg, txs, t) && r == OutlierReasonFor(txs, t)
  {
    var d := GroupByCategory(txs);
    GroupsAreCategories(txs);
    ScanCategoriesExplained(cfg, txs, d.keys, d.values);
    forall r | r in Lookup(OutlierReasons(cfg, txs), id)
      ensures exists t :: t in txs && t.transactionId == id && IsOutlier(cfg, txs, t) && r == OutlierReasonFor(txs, t)
    {
      assert ExplainedBy(cfg, txs, id, r);
    }
  }

  /** The outlier reasons stored under an identifier are exactly the
      reasons of the transactions of the batch that carry that identifier
      and are outliers, one per such transaction; so every transaction
      sharing the identifier receives all of them. An identifier with no
      outlier gets no entry. */
  lemma OutlierReasonsCount(cfg: AuditConfig, txs: seq<Transaction>, id: string)
    ensures multiset(Lookup(OutlierReasons(cfg, txs), id)) == OutlierBag(cfg, txs, id, txs)
    ensures |Lookup(OutlierReasons(cfg, txs), id)| == CountOutliers(cfg, txs, id, txs)
    ensures forall t :: t in txs && t.transactionId == id && IsOutlier(cfg, txs, t) ==>
              OutlierReasonFor(txs, t) in Lookup(OutlierReasons(cfg, txs), id)
    ensures forall r :: r in Lookup(OutlierReasons(cfg, txs), id) ==>
              exists t :: t in txs && t.transactionId == id && IsOutlier(cfg, txs, t) && r == OutlierReasonFor(txs, t)
    ensures id in OutlierReasons(cfg, txs) <==> CountOutliers(cfg, txs, id, txs) > 0
    ensures OnlyOutlierReasons(OutlierReasons(cfg, txs))
  {
    var d := GroupByCategory(txs);
    var rs := Lookup(OutlierReasons(cfg, txs), id);
    OutlierReasonsExplained(cfg, txs, id);
    GroupsAreCategories(txs);
    ScanCategoriesBag(cfg, txs, d.keys, d.values, id);
    GroupingPartitions(cfg, txs, id, txs);
    OutlierBagFacts(cfg, txs, id, txs);
    assert |multiset(rs)| == |rs|;
    KeysHaveReasons(cfg, d.keys, d.values, id);
    forall t | t in txs && t.transactionId == id && IsOutlier(cfg, txs, t) ensures OutlierReasonFor(txs, t) in rs {
      assert OutlierReasonFor(txs, t) in multiset(rs);
    }
  }

  /** No identifier is stored with an empty list of reasons. */
  lemma {:induction false} KeysHaveReasons(cfg: AuditConfig, cs: seq<string>, m: map<string, seq<Transaction>>, id: string)
    ensures id in ScanCategories(cfg, cs, m) ==> ScanCategories(cfg, cs, m)[id] != []
  {
    if cs != [] {
      var p := cs[..|cs| - 1];
      var c := cs[|cs| - 1];
      KeysHaveReasons(cfg, p, m, id);
      var g := GroupAt(m, c);
      if |g| >= cfg.minSamples && Variance(g) != 0.0 {
        AddKeysHaveReasons(cfg, c, Mean(g), Variance(g), g, ScanCategories(cfg, p, m), id);
      }
    }
  }

  lemma {:induction false} AddKeysHaveReasons(cfg: AuditConfig, c: string, mean: real, variance: real,
                                              ms: seq<Transaction>, acc: map<string, seq<Reason>>, id: string)
    requires id in acc ==> acc[id] != []
    ensures var r := AddCategoryOutliers(cfg, c, mean, variance, ms, acc); id in r ==> r[id] != []
  {
    if ms != [] {
      AddKeysHaveReasons(cfg, c, mean, variance, ms[..|ms| - 1], acc, id);
    }
  }

  /** A category with fewer than `minSamples` members never yields an outlier. */
  lemma SmallCategoryHasNoOutlier(cfg: AuditConfig, txs: seq<Transaction>, t: Transaction)
    requires |InCategory(txs, t.category)| < cfg.minSamples
    ensures !IsOutlier(cfg, txs, t)
  {
  }

  /** A category whose amounts are all equal never yields an outlier. */
  lemma UniformCategoryHasNoOutlier(cfg: AuditConfig, txs: seq<Transaction>, t: Transaction, a: real)
    requires forall u :: u in InCategory(txs, t.category) ==> u.amount == a
    ensures !IsOutlier(cfg, txs, t)
  {
    var g := InCategory(txs, t.category);
    assert forall i :: 0 <= i < |g| ==> g[i] in g;
    VarianceZeroIff(g);
  }

  /** The grouping `forEach` of `detectOutliers`: append each transaction
      to its category's list, creating the list on first sight. */
  method GroupTransactionsByCategory(txs: seq<Transaction>) returns (byCategory: Dict<seq<Transaction>>)
    ensures byCategory == GroupByCategory(txs)
    ensures Valid(byCategory)
  {
    byCategory := Empty();
    for i := 0 to |txs|
      invariant byCategory == GroupByCategory(txs[..i])
      invariant Valid(byCategory)
    {
      var t := txs[i];
      assert txs[..i + 1][..i] == txs[..i];
      byCategory := Put(byCategory, t.category, Get(byCategory, t.category).GetOr([]) + [t]);
    }
    assert txs[..|txs|] == txs;
  }

  /** The inner `forEach` of `detectOutliers`: append an outlier reason
      under the identifier of every member of the category above the bound. */
  method AddOutliersOf(cfg: AuditConfig, category: string, mean: real, variance: real,
                       categoryTransactions: seq<Transaction>, acc: map<string, seq<Reason>>)
    returns (outlierReasons: map<string, seq<Reason>>)
    ensures outlierReasons == AddCategoryOutliers(cfg, category, mean, variance, categoryTransactions, acc)
  {
    outlierReasons := acc;
    for k := 0 to |categoryTransactions|
      invariant outlierReasons == AddCategoryOutliers(cfg, category, mean, variance, categoryTransactions[..k], acc)
    {
      var t := categoryTransactions[k];
      AddCategoryOutliersStep(cfg, category, mean, variance, categoryTransactions, k, acc);
      if ExceedsBound(t.amount - mean, cfg.outlierFactor, variance) {
        var reasons := if t.transactionId in outlierReasons then outlierReasons[t.transactionId] else [];
        outlierReasons := outlierReasons[t.transactionId := reasons + [Outlier(t.amount, category, mean, variance)]];
      }
    }
    assert categoryTransactions[..|categoryTransactions|] == categoryTransactions;
  }

  /** `detectOutliers`: the grouping, then the loop over the groups. */
  method DetectOutliers(cfg: AuditConfig, txs: seq<Transaction>) returns (outlierReasons: map<string, seq<Reason>>)
    ensures outlierReasons == OutlierReasons(cfg, txs)
  {
    var byCategory := GroupTransactionsByCategory(txs);
    outlierReasons := map[];
    for j := 0 to |byCategory.keys|
      invariant outlierReasons == ScanCategories(cfg, byCategory.keys[..j], byCategory.values)
    {
      ScanCategoriesStep(cfg, byCategory.keys, byCategory.values, j);
      var category := byCategory.keys[j];
      var categoryTransactions := byCategory.values[category];
      if |categoryTransactions| < cfg.minSamples {
        continue;
      }
      var mean := Mean(categoryTransactions);
      var variance := Variance(categoryTransactions);
      if variance == 0.0 {
        continue;
      }
      outlierReasons := AddOutliersOf(cfg, category, mean, variance, categoryTransactions, outlierReasons);
    }
    assert byCategory.keys[..|byCategory.keys|] == byCategory.keys;
  }
}
