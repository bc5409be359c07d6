/** What `processTransactions` returns, stated field by field in terms of the
    batch: the flags and their reasons, the flagged list, the summary, the
    deduplicated violations, the leader lists, the trend and the compliance
    chart. */
module AuditFacts {
  import opened Wrappers
  import opened Types
  import opened Dict
  import opened Stats
  import Rules
  import Text
  import opened Duplicates
  import opened Outliers
  import opened Violations
  import opened Compliance
  import opened Spend
  import opened Audit

  /** The reasons of a transaction are its amount reason, its policy-code
      reason, one duplicate reason per other transaction with its
      identifier, and one outlier reason per outlier of the batch with its
      identifier; it is flagged exactly when one of these exists. */
  lemma RiskReasonsMeaning(cfg: AuditConfig, txs: seq<Transaction>, t: Transaction)
    ensures RiskReasons(cfg, txs, t)
         == Rules.AmountReasons(cfg, t) + Rules.PolicyReasons(cfg, t)
            + DuplicateReasons(txs, t.transactionId) + Lookup(OutlierReasons(cfg, txs), t.transactionId)
    ensures |DuplicateReasons(txs, t.transactionId)|
         == if CountId(txs, t.transactionId) >= 2 then CountId(txs, t.transactionId) - 1 else 0
    ensures |Lookup(OutlierReasons(cfg, txs), t.transactionId)| == CountOutliers(cfg, txs, t.transactionId, txs)
    ensures RiskReasons(cfg, txs, t) != []
        <==> || Rules.AmountReasons(cfg, t) != []
             || Rules.PolicyReasons(cfg, t) != []
             || CountId(txs, t.transactionId) >= 2
             || CountOutliers(cfg, txs, t.transactionId, txs) > 0
  {
    DuplicateMapLookup(txs, t.transactionId);
    OutlierReasonsCount(cfg, txs, t.transactionId);
  }

  /** One flagged record per transaction, in input order, carrying the
      transaction, its reasons, and a flag set exactly when it has one. */
  lemma ProcessFlags(cfg: AuditConfig, txs: seq<Transaction>)
    ensures |Process(cfg, txs).allTransactionsWithFlags| == |txs|
    ensures forall i :: 0 <= i < |txs| ==>
              && Process(cfg, txs).allTransactionsWithFlags[i].tx == txs[i]
              && Process(cfg, txs).allTransactionsWithFlags[i].riskReasons == RiskReasons(cfg, txs, txs[i])
              && (Process(cfg, txs).allTransactionsWithFlags[i].isFlagged <==> RiskReasons(cfg, txs, txs[i]) != [])
  {
    var fs := FlagAllWith(cfg, DuplicateMap(txs), OutlierReasons(cfg, txs), txs);
    assert Process(cfg, txs).allTransactionsWithFlags == fs;
    FlagAllWithIndex(cfg, DuplicateMap(txs), OutlierReasons(cfg, txs), txs);
    forall i | 0 <= i < |txs|
      ensures fs[i].tx == txs[i] && fs[i].riskReasons == RiskReasons(cfg, txs, txs[i])
           && (fs[i].isFlagged <==> RiskReasons(cfg, txs, txs[i]) != [])
    {
      assert fs[i] == FlagWith(cfg, DuplicateMap(txs), OutlierReasons(cfg, txs), txs[i]);
    }
  }

  /** How many transactions of `txs` get at least one reason in the batch `b`. */
  function FlaggedCount(cfg: AuditConfig, b: seq<Transaction>, txs: seq<Transaction>): nat {
    if txs == [] then 0
    else FlaggedCount(cfg, b, txs[..|txs| - 1]) + (if RiskReasons(cfg, b, txs[|txs| - 1]) != [] then 1 else 0)
  }

  lemma {:induction false} OnlyFlaggedCount(cfg: AuditConfig, b: seq<Transaction>, txs: seq<Transaction>)
    ensures |OnlyFlagged(FlagAllWith(cfg, DuplicateMap(b), OutlierReasons(cfg, b), txs))| == FlaggedCount(cfg, b, txs)
  {
    if txs != [] {
      var s := FlagAllWith(cfg, DuplicateMap(b), OutlierReasons(cfg, b), txs);
      OnlyFlaggedCount(cfg, b, txs[..|txs| - 1]);
      assert s[..|s| - 1] == FlagAllWith(cfg, DuplicateMap(b), OutlierReasons(cfg, b), txs[..|txs| - 1]);
    }
  }

  /** `flaggedTransactions` holds exactly the flagged records, and the
      summary's `flaggedForAuditCount` is the number of transactions with a
      reason. */
  lemma ProcessFlaggedList(cfg: AuditConfig, txs: seq<Transaction>)
    ensures forall f :: f in Process(cfg, txs).flaggedTransactions
                    <==> f in Process(cfg, txs).allTransactionsWithFlags && f.isFlagged
    ensures Process(cfg, txs).auditSummary.flaggedForAuditCount == |Process(cfg, txs).flaggedTransactions|
    ensures Process(cfg, txs).auditSummary.flaggedForAuditCount == FlaggedCount(cfg, txs, txs) <= |txs|
  {
    OnlyFlaggedCount(cfg, txs, txs);
    FlagAllWithIndex(cfg, DuplicateMap(txs), OutlierReasons(cfg, txs), txs);
  }

  /** The summary: the batch size, the sum of the amounts, and a violation
      count equal to the length of the deduplicated list. */
  lemma ProcessSummary(cfg: AuditConfig, txs: seq<Transaction>)
    ensures Process(cfg, txs).auditSummary.totalTransactions == |txs|
    ensures Process(cfg, txs).auditSummary.totalAmount == SumAmounts(txs)
    ensures Process(cfg, txs).auditSummary.policyViolationsCount == |Process(cfg, txs).policyViolations|
  {
    DedupCount(AllViolations(cfg, txs));
  }

  /** Each deduplicated violation is a violation of a transaction of the
      batch; no two share a transaction identifier and reason; every
      violation of every transaction is represented by one with the same
      identifier and reason. */
  lemma BatchViolations(cfg: AuditConfig, txs: seq<Transaction>)
    ensures forall v :: v in Dedup(AllViolations(cfg, txs)) ==> exists t :: t in txs && v in ViolationsOf(cfg, t)
    ensures forall i, j :: 0 <= i < j < |Dedup(AllViolations(cfg, txs))| ==>
              Key(Dedup(AllViolations(cfg, txs))[i]) != Key(Dedup(AllViolations(cfg, txs))[j])
    ensures forall t, v :: t in txs && v in ViolationsOf(cfg, t) ==>
              exists x :: x in Dedup(AllViolations(cfg, txs)) && Key(x) == Key(v)
  {
    var vs := AllViolations(cfg, txs);
    DedupMeaning(vs);
    AllViolationsMembers(cfg, txs);
    forall t, v | t in txs && v in ViolationsOf(cfg, t) ensures exists x :: x in Dedup(vs) && Key(x) == Key(v) {
      assert v in vs;
    }
  }

  /** A leader list of the batch (`spendByCategory`, and before the cut to
      five the vendor and account lists) names each key of the batch once,
      with the sum of the amounts of the transactions with that key, ordered
      largest first; its amounts add up to the batch total. */
  lemma BatchLeaders(txs: seq<Transaction>, field: SpendKey)
    ensures SortedDesc(Leaders(SpendTotals(txs, field)))
    ensures forall i, j :: 0 <= i < j < |Leaders(SpendTotals(txs, field))| ==>
              Leaders(SpendTotals(txs, field))[i].name != Leaders(SpendTotals(txs, field))[j].name
    ensures forall l :: l in Leaders(SpendTotals(txs, field)) ==>
              l.amount == SumAmounts(WithKey(txs, field, l.name)) && l.name in KeysOf(txs, field)
    ensures forall t :: t in txs ==> exists l :: l in Leaders(SpendTotals(txs, field)) && l.name == KeyOf(t, field)
    ensures SumLeaders(Leaders(SpendTotals(txs, field))) == SumAmounts(txs)
  {
    var d := SpendTotals(txs, field);
    var ks := KeysOf(txs, field);
    SpendTotalsMeaning(txs, field);
    LeadersMeaning(d);
    UniqIsDistinctElements(ks);
    forall l | l in Leaders(d) ensures l.amount == SumAmounts(WithKey(txs, field, l.name)) && l.name in ks {
      assert Get(d, l.name) == Some(l.amount);
    }
    forall t | t in txs ensures exists l :: l in Leaders(d) && l.name == KeyOf(t, field) {
      var i :| 0 <= i < |txs| && txs[i] == t;
      assert ks[i] == KeyOf(t, field);
      assert KeyOf(t, field) in d.keys;
    }
  }

  /** A key of a spending object that no leader in the top five names has
      a total no larger than that of any leader in the top five. */
  lemma TopFiveKeys(d: Dict<real>, a: SpendingLeader, k: string)
    requires Valid(d)
    requires a in Take(Leaders(d), 5) && k in d.keys
    requires forall b :: b in Take(Leaders(d), 5) ==> b.name != k
    ensures a.amount >= d.values[k]
  {
    TopFiveAreHighest(d);
    var j :| 0 <= j < |d.keys| && d.keys[j] == k;
    assert ToLeaders(d)[j] == SpendingLeader(k, d.values[k]);
  }

  /** The top five of a leader list are its first five entries, five or
      as many keys as the batch has if fewer. */
  lemma BatchTopFiveShape(txs: seq<Transaction>, field: SpendKey)
    ensures Take(Leaders(SpendTotals(txs, field)), 5) <= Leaders(SpendTotals(txs, field))
    ensures |Take(Leaders(SpendTotals(txs, field)), 5)| == if |Uniq(KeysOf(txs, field))| < 5 then |Uniq(KeysOf(txs, field))| else 5
  {
    SpendTotalsKeys(txs, field);
    LeadersPermutation(SpendTotals(txs, field));
  }

  /** The key of a transaction of the batch is a key of its spending
      object, holding the sum of the amounts under that key. */
  lemma KeyTotal(txs: seq<Transaction>, field: SpendKey, t: Transaction)
    requires t in txs
    ensures KeyOf(t, field) in SpendTotals(txs, field).keys
    ensures SpendTotals(txs, field).values[KeyOf(t, field)] == SumAmounts(WithKey(txs, field, KeyOf(t, field)))
  {
    var d := SpendTotals(txs, field);
    var k := KeyOf(t, field);
    SpendTotalsKeys(txs, field);
    UniqIsDistinctElements(KeysOf(txs, field));
    var i :| 0 <= i < |txs| && txs[i] == t;
    assert KeysOf(txs, field)[i] == k;
    SpendTotalsValue(txs, field, k);
    assert Get(d, k) == Some(d.values[k]);
  }

  /** No key of the batch left out of the top five has a larger total than
      any key in them. */
  lemma BatchTopFiveHighest(txs: seq<Transaction>, field: SpendKey)
    ensures forall a, t :: a in Take(Leaders(SpendTotals(txs, field)), 5) && t in txs
                       && (forall b :: b in Take(Leaders(SpendTotals(txs, field)), 5) ==> b.name != KeyOf(t, field))
                       ==> a.amount >= SumAmounts(WithKey(txs, field, KeyOf(t, field)))
  {
    var d := SpendTotals(txs, field);
    var top := Take(Leaders(d), 5);
    SpendTotalsKeys(txs, field);
    forall a, t | a in top && t in txs && (forall b :: b in top ==> b.name != KeyOf(t, field))
      ensures a.amount >= SumAmounts(WithKey(txs, field, KeyOf(t, field)))
    {
      KeyTotal(txs, field, t);
      TopFiveKeys(d, a, KeyOf(t, field));
    }
  }

  /** Each trend point is an entry of the spending object, and each key of
      the object has a point. */
  lemma TrendEntries(d: Dict<real>)
    requires Valid(d)
    ensures forall p :: p in Trend(d) ==> p.date in d.keys && Get(d, p.date) == Some(p.amount)
    ensures forall k :: k in d.keys ==> exists p :: p in Trend(d) && p.date == k
  {
    TrendMeaning(d);
    forall p | p in Trend(d) ensures p.date in d.keys && Get(d, p.date) == Some(p.amount) {
      var i :| 0 <= i < |d.keys| && ToPoints(d)[i] == p;
    }
    forall k | k in d.keys ensures exists p :: p in Trend(d) && p.date == k {
      var j :| 0 <= j < |d.keys| && d.keys[j] == k;
      assert ToPoints(d)[j] in Trend(d);
    }
  }

  /** `spendTrend` is in strictly increasing month order and its amounts
      add up to the batch total. */
  lemma BatchTrendOrder(txs: seq<Transaction>)
    ensures forall i, j :: 0 <= i < j < |Trend(SpendTotals(txs, ByMonth))| ==>
              Text.LexLess(Trend(SpendTotals(txs, ByMonth))[i].date, Trend(SpendTotals(txs, ByMonth))[j].date)
    ensures SumPoints(Trend(SpendTotals(txs, ByMonth))) == SumAmounts(txs)
  {
    SpendTotalsSum(txs, ByMonth);
    TrendMeaning(SpendTotals(txs, ByMonth));
    TrendSum(SpendTotals(txs, ByMonth));
  }

  /** `spendTrend` has a point for each month of the batch, holding the sum
      of the amounts dated in that month, and no other point. */
  lemma BatchTrendMonths(txs: seq<Transaction>)
    ensures forall p :: p in Trend(SpendTotals(txs, ByMonth)) ==>
              p.amount == SumAmounts(WithKey(txs, ByMonth, p.date)) && p.date in KeysOf(txs, ByMonth)
    ensures forall t :: t in txs ==> exists p :: p in Trend(SpendTotals(txs, ByMonth)) && p.date == KeyOf(t, ByMonth)
  {
    var d := SpendTotals(txs, ByMonth);
    var ks := KeysOf(txs, ByMonth);
    SpendTotalsKeys(txs, ByMonth);
    TrendEntries(d);
    UniqIsDistinctElements(ks);
    forall p | p in Trend(d) ensures p.amount == SumAmounts(WithKey(txs, ByMonth, p.date)) {
      SpendTotalsValue(txs, ByMonth, p.date);
    }
    forall t | t in txs ensures exists p :: p in Trend(d) && p.date == KeyOf(t, ByMonth) {
      var i :| 0 <= i < |txs| && txs[i] == t;
      assert ks[i] == KeyOf(t, ByMonth);
      assert ks[i] in d.keys;
    }
  }

  /** The compliance chart shows a bucket exactly when it counts some
      transaction, with the number of transactions it counts, in the fixed
      bucket order. */
  lemma BatchCompliance(cfg: AuditConfig, txs: seq<Transaction>)
    ensures forall p :: p in Chart(Tally(cfg, txs)) <==> p.value > 0 && p.value == CountIn(cfg, txs, p.name)
    ensures forall i, j :: 0 <= i < j < |Chart(Tally(cfg, txs))| ==>
              Rank(Chart(Tally(cfg, txs))[i].name) < Rank(Chart(Tally(cfg, txs))[j].name)
  {
    var c := Tally(cfg, txs);
    TallyCounts(cfg, txs);
    ChartMeaning(c);
    forall b ensures ValueOf(c, b) == CountIn(cfg, txs, b) {
    }
  }
}
