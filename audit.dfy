/** `processTransactions`: the duplicate pass, the outlier pass, the pass
    that flags each transaction and records its violations, and the pass
    that accumulates the spending objects and the compliance counters; then
    the summary, the deduplicated violations and the chart data. */
module Audit {
  import opened Wrappers
  import opened Types
  import Rules
  import opened Dict
  import opened Stats
  import Text
  import opened Duplicates
  import opened Outliers
  import opened Violations
  import opened Compliance
  import opened Spend

  /** The reasons of one transaction, given the duplicate and outlier maps
      of the first two passes: amount, then policy, then duplicate, then
      outlier reasons. */
  function ReasonsWith(cfg: AuditConfig, dup: map<string, seq<Reason>>, outl: map<string, seq<Reason>>,
                       t: Transaction): seq<Reason>
  {
    Rules.AmountReasons(cfg, t) + Rules.PolicyReasons(cfg, t) + Lookup(dup, t.transactionId) + Lookup(outl, t.transactionId)
  }

  /** `{ ...t, riskReasons, isFlagged }`. */
  function FlagWith(cfg: AuditConfig, dup: map<string, seq<Reason>>, outl: map<string, seq<Reason>>,
                    t: Transaction): FlaggedTransaction
  {
    FlaggedTransaction(t, ReasonsWith(cfg, dup, outl, t), |ReasonsWith(cfg, dup, outl, t)| > 0)
  }

  /** `allTransactionsWithFlags`: one flagged record per input, in order. */
  function FlagAllWith(cfg: AuditConfig, dup: map<string, seq<Reason>>, outl: map<string, seq<Reason>>,
                       txs: seq<Transaction>): seq<FlaggedTransaction>
  {
    if txs == [] then [] else FlagAllWith(cfg, dup, outl, txs[..|txs| - 1]) + [FlagWith(cfg, dup, outl, txs[|txs| - 1])]
  }

  /** The flagged records keep the input's length. */
  lemma {:induction false} FlagAllWithLength(cfg: AuditConfig, dup: map<string, seq<Reason>>, outl: map<string, seq<Reason>>,
                                             txs: seq<Transaction>)
    ensures |FlagAllWith(cfg, dup, outl, txs)| == |txs|
  {
    if txs != [] {
      FlagAllWithLength(cfg, dup, outl, txs[..|txs| - 1]);
    }
  }

  /** Record `i` of the flagged records is built from transaction `i`. */
  lemma {:induction false} FlagAllWithAt(cfg: AuditConfig, dup: map<string, seq<Reason>>, outl: map<string, seq<Reason>>,
                                         txs: seq<Transaction>, i: nat)
    requires i < |txs|
    ensures i < |FlagAllWith(cfg, dup, outl, txs)| && FlagAllWith(cfg, dup, outl, txs)[i] == FlagWith(cfg, dup, outl, txs[i])
  {
    var p := txs[..|txs| - 1];
    var last := FlagWith(cfg, dup, outl, txs[|txs| - 1]);
    FlagAllWithLength(cfg, dup, outl, p);
    assert FlagAllWith(cfg, dup, outl, txs) == FlagAllWith(cfg, dup, outl, p) + [last];
    if i < |p| {
      FlagAllWithAt(cfg, dup, outl, p, i);
      assert txs[i] == p[i];
    } else {
      assert FlagAllWith(cfg, dup, outl, txs)[i] == last;
    }
  }

  /** The flagged records keep the input's length and order. */
  lemma FlagAllWithIndex(cfg: AuditConfig, dup: map<string, seq<Reason>>, outl: map<string, seq<Reason>>,
                         txs: seq<Transaction>)
    ensures |FlagAllWith(cfg, dup, outl, txs)| == |txs|
    ensures forall i :: 0 <= i < |txs| ==> FlagAllWith(cfg, dup, outl, txs)[i] == FlagWith(cfg, dup, outl, txs[i])
  {
    FlagAllWithLength(cfg, dup, outl, txs);
    forall i | 0 <= i < |txs| ensures FlagAllWith(cfg, dup, outl, txs)[i] == FlagWith(cfg, dup, outl, txs[i]) {
      FlagAllWithAt(cfg, dup, outl, txs, i);
    }
  }

  /** Taking back the input records of the flagged records gives the batch. */
  lemma FlagAllTxs(cfg: AuditConfig, dup: map<string, seq<Reason>>, outl: map<string, seq<Reason>>, txs: seq<Transaction>)
    ensures TxsOf(FlagAllWith(cfg, dup, outl, txs)) == txs
  {
    FlagAllWithIndex(cfg, dup, outl, txs);
  }

  /** The identifiers of the batch. */
  function Ids(txs: seq<Transaction>): set<string> {
    set t | t in txs :: t.transactionId
  }

  /** `duplicateIdReasons` after the first pass. */
  function DuplicateMap(txs: seq<Transaction>): map<string, seq<Reason>> {
    map id | id in Ids(txs) && CountId(txs, id) >= 2 :: Repeat(DuplicateId(id), CountId(txs, id) - 1)
  }

  lemma {:induction false} CountIdPositive(txs: seq<Transaction>, id: string)
    requires CountId(txs, id) > 0
    ensures id in Ids(txs)
  {
    var p := txs[..|txs| - 1];
    if txs[|txs| - 1].transactionId != id {
      CountIdPositive(p, id);
      var t :| t in p && t.transactionId == id;
      assert t in txs;
    }
  }

  /** Every occurrence of an identifier seen `k >= 2` times gets `k - 1`
      duplicate reasons; an identifier seen once gets none. */
  lemma DuplicateMapLookup(txs: seq<Transaction>, id: string)
    ensures Lookup(DuplicateMap(txs), id) == DuplicateReasons(txs, id)
    ensures |Lookup(DuplicateMap(txs), id)| == if CountId(txs, id) >= 2 then CountId(txs, id) - 1 else 0
  {
    if CountId(txs, id) >= 2 {
      CountIdPositive(txs, id);
    }
  }

  /** What `FindDuplicateIds` guarantees determines the map. */
  lemma DuplicateMapUnique(txs: seq<Transaction>, dup: map<string, seq<Reason>>)
    requires forall id :: id in dup <==> CountId(txs, id) >= 2
    requires forall id :: id in dup ==> dup[id] == Repeat(DuplicateId(id), CountId(txs, id) - 1)
    ensures dup == DuplicateMap(txs)
  {
    forall id | CountId(txs, id) >= 2 ensures id in DuplicateMap(txs) {
      CountIdPositive(txs, id);
    }
  }

  /** The per-transaction reasons of the batch. */
  function RiskReasons(cfg: AuditConfig, txs: seq<Transaction>, t: Transaction): seq<Reason> {
    ReasonsWith(cfg, DuplicateMap(txs), OutlierReasons(cfg, txs), t)
  }

  /** `allTransactionsWithFlags.filter(t => t.isFlagged)`. */
  function OnlyFlagged(s: seq<FlaggedTransaction>): (r: seq<FlaggedTransaction>)
    ensures forall f :: f in r <==> f in s && f.isFlagged
    ensures |r| <= |s|
  {
    if s == [] then []
    else
      assert s == s[..|s| - 1] + [s[|s| - 1]];
      OnlyFlagged(s[..|s| - 1]) + (if s[|s| - 1].isFlagged then [s[|s| - 1]] else [])
  }

  /** The filter keeps the input order: filtering a concatenation
      concatenates the filtered parts. */
  lemma {:induction false} OnlyFlaggedAppend(a: seq<FlaggedTransaction>, b: seq<FlaggedTransaction>)
    ensures OnlyFlagged(a + b) == OnlyFlagged(a) + OnlyFlagged(b)
  {
    if b == [] {
      assert a + b == a;
    } else {
      var q := b[..|b| - 1];
      var last := b[|b| - 1];
      var tail := if last.isFlagged then [last] else [];
      OnlyFlaggedAppend(a, q);
      assert (a + b)[..|a + b| - 1] == a + q;
      assert (a + b)[|a + b| - 1] == last;
      assert OnlyFlagged(a + b) == OnlyFlagged(a + q) + tail;
      assert OnlyFlagged(b) == OnlyFlagged(q) + tail;
    }
  }

  /** The input records of the flagged records. */
  function TxsOf(s: seq<FlaggedTransaction>): (r: seq<Transaction>)
    ensures |r| == |s|
    ensures forall i :: 0 <= i < |s| ==> r[i] == s[i].tx
  {
    seq(|s|, i requires 0 <= i < |s| => s[i].tx)
  }

  /** The result of `processTransactions`. */
  function Process(cfg: AuditConfig, txs: seq<Transaction>): ProcessedData {
    ProcessedData(
      FlagAllWith(cfg, DuplicateMap(txs), OutlierReasons(cfg, txs), txs),
      OnlyFlagged(FlagAllWith(cfg, DuplicateMap(txs), OutlierReasons(cfg, txs), txs)),
      AuditSummary(
        |txs|,
        SumAmounts(txs),
        |OnlyFlagged(FlagAllWith(cfg, DuplicateMap(txs), OutlierReasons(cfg, txs), txs))|,
        DistinctKeyCount(AllViolations(cfg, txs))),
      Dedup(AllViolations(cfg, txs)),
      Leaders(SpendTotals(txs, ByCategory)),
      Chart(Tally(cfg, txs)),
      Trend(SpendTotals(txs, ByMonth)),
      Take(Leaders(SpendTotals(txs, ByCategory)), 5),
      Take(Leaders(SpendTotals(txs, ByVendor)), 5),
      Take(Leaders(SpendTotals(txs, ByAccount)), 5))
  }

  /** The `riskReasons` list the second pass builds for one transaction. */
  method CollectReasons(cfg: AuditConfig, dup: map<string, seq<Reason>>, outl: map<string, seq<Reason>>, t: Transaction)
    returns (riskReasons: seq<Reason>)
    ensures riskReasons == ReasonsWith(cfg, dup, outl, t)
  {
    riskReasons := [];
    riskReasons := riskReasons + Rules.AmountReasons(cfg, t);
    var policyCodeReasons := Rules.PolicyReasons(cfg, t);
    riskReasons := riskReasons + policyCodeReasons;
    if t.transactionId in dup {
      riskReasons := riskReasons + dup[t.transactionId];
    }
    if t.transactionId in outl {
      riskReasons := riskReasons + outl[t.transactionId];
    }
  }

  /** The two `forEach` loops of the second pass that record a
      transaction's violations: policy reasons first, then amount reasons. */
  method AppendViolations(cfg: AuditConfig, t: Transaction, policyViolations: seq<PolicyViolation>)
    returns (r: seq<PolicyViolation>)
    ensures r == policyViolations + ViolationsOf(cfg, t)
  {
    r := policyViolations;
    var policyCodeReasons := Rules.PolicyReasons(cfg, t);
    for j := 0 to |policyCodeReasons|
      invariant r == policyViolations + PolicyViolationsOf(cfg, t)[..j]
    {
      var reason := policyCodeReasons[j];
      r := r + [ViolationFor(t, PolicyKind(reason), reason)];
      assert PolicyViolationsOf(cfg, t)[..j + 1] == PolicyViolationsOf(cfg, t)[..j] + [ViolationFor(t, PolicyKind(reason), reason)];
    }
    assert PolicyViolationsOf(cfg, t)[..|policyCodeReasons|] == PolicyViolationsOf(cfg, t);
    ghost var middle := r;
    var amountReasons := Rules.AmountReasons(cfg, t);
    for j := 0 to |amountReasons|
      invariant r == middle + AmountViolationsOf(cfg, t)[..j]
    {
      r := r + [ViolationFor(t, AmountViolation, amountReasons[j])];
      assert AmountViolationsOf(cfg, t)[..j + 1] == AmountViolationsOf(cfg, t)[..j] + [ViolationFor(t, AmountViolation, amountReasons[j])];
    }
    assert AmountViolationsOf(cfg, t)[..|amountReasons|] == AmountViolationsOf(cfg, t);
  }

  /** The second pass: the running total, the flagged records and the
      violation records, one transaction at a time. */
  method FlagTransactions(cfg: AuditConfig, txs: seq<Transaction>,
                          dup: map<string, seq<Reason>>, outl: map<string, seq<Reason>>)
    returns (totalAmount: real, allTransactionsWithFlags: seq<FlaggedTransaction>, policyViolations: seq<PolicyViolation>)
    ensures totalAmount == SumAmounts(txs)
    ensures allTransactionsWithFlags == FlagAllWith(cfg, dup, outl, txs)
    ensures policyViolations == AllViolations(cfg, txs)
  {
    totalAmount := 0.0;
    allTransactionsWithFlags := [];
    policyViolations := [];
    for i := 0 to |txs|
      invariant totalAmount == SumAmounts(txs[..i])
      invariant allTransactionsWithFlags == FlagAllWith(cfg, dup, outl, txs[..i])
      invariant policyViolations == AllViolations(cfg, txs[..i])
    {
      var t := txs[i];
      assert txs[..i + 1][..i] == txs[..i] && txs[..i + 1][i] == t;
      totalAmount := totalAmount + t.amount;
      var riskReasons := CollectReasons(cfg, dup, outl, t);
      var isFlagged := |riskReasons| > 0;
      allTransactionsWithFlags := allTransactionsWithFlags + [FlaggedTransaction(t, riskReasons, isFlagged)];
      policyViolations := AppendViolations(cfg, t, policyViolations);
    }
    assert txs[..|txs|] == txs;
  }

  /** `m[key] = (m[key] || 0) + t.amount` on one running-sum object of the
      third pass, with the key `KeyOf` picks (the month is
      `t.date.substring(0, 7)`): the object after `i` transactions becomes
      the object after `i + 1`. */
  method AddSpend(ghost txs: seq<Transaction>, ghost i: nat, field: SpendKey, m: Dict<real>, t: Transaction)
    returns (r: Dict<real>)
    requires i < |txs| && t == txs[i]
    requires m == SpendTotals(txs[..i], field)
    ensures r == SpendTotals(txs[..i + 1], field)
  {
    SpendTotalsSnoc(txs, i, field);
    var key := KeyOf(t, field);
    r := AddTo(m, key, t.amount);
  }

  /** The compliance part of the third pass for one transaction. */
  method CountCompliance(cfg: AuditConfig, t: Transaction,
                         compliantCount: nat, missingPolicyCodeCount: nat, invalidPolicyCodeCount: nat, amountViolationCount: nat)
    returns (compliant: nat, missing: nat, invalid: nat, amountViolation: nat)
    ensures Counts(compliant, missing, invalid, amountViolation)
         == CountOne(cfg, Counts(compliantCount, missingPolicyCodeCount, invalidPolicyCodeCount, amountViolationCount), t)
  {
    compliant, missing, invalid, amountViolation := compliantCount, missingPolicyCodeCount, invalidPolicyCodeCount, amountViolationCount;
    var isCompliant := true;
    var status := Rules.ClassifyCode(cfg, t.policyCode);
    if status == Rules.Missing {
      missing := missing + 1;
      isCompliant := false;
    } else if status == Rules.Invalid {
      invalid := invalid + 1;
      isCompliant := false;
    }
    var amountReasons := Rules.AmountReasons(cfg, t);
    if |amountReasons| > 0 {
      amountViolation := amountViolation + 1;
      isCompliant := false;
    }
    if isCompliant {
      compliant := compliant + 1;
    }
  }

  /** The third pass over `allTransactionsWithFlags`: the four spending
      objects and the four compliance counters. */
  method TallyCharts(cfg: AuditConfig, allTransactionsWithFlags: seq<FlaggedTransaction>)
    returns (spendByCategoryMap: Dict<real>, spendByVendorMap: Dict<real>, spendByAccountMap: Dict<real>,
             spendByMonth: Dict<real>, counts: Counts)
    ensures spendByCategoryMap == SpendTotals(TxsOf(allTransactionsWithFlags), ByCategory)
    ensures spendByVendorMap == SpendTotals(TxsOf(allTransactionsWithFlags), ByVendor)
    ensures spendByAccountMap == SpendTotals(TxsOf(allTransactionsWithFlags), ByAccount)
    ensures spendByMonth == SpendTotals(TxsOf(allTransactionsWithFlags), ByMonth)
    ensures counts == Tally(cfg, TxsOf(allTransactionsWithFlags))
  {
    ghost var txs := TxsOf(allTransactionsWithFlags);
    spendByCategoryMap, spendByVendorMap, spendByAccountMap, spendByMonth := Empty(), Empty(), Empty(), Empty();
    var compliantCount, missingPolicyCodeCount, invalidPolicyCodeCount, amountViolationCount := 0, 0, 0, 0;
    for i := 0 to |allTransactionsWithFlags|
      invariant spendByCategoryMap == SpendTotals(txs[..i], ByCategory)
      invariant spendByVendorMap == SpendTotals(txs[..i], ByVendor)
      invariant spendByAccountMap == SpendTotals(txs[..i], ByAccount)
      invariant spendByMonth == SpendTotals(txs[..i], ByMonth)
      invariant Counts(compliantCount, missingPolicyCodeCount, invalidPolicyCodeCount, amountViolationCount)
                == Tally(cfg, txs[..i])
    {
      var t := allTransactionsWithFlags[i].tx;
      assert txs[i] == t;
      spendByCategoryMap := AddSpend(txs, i, ByCategory, spendByCategoryMap, t);
      spendByVendorMap := AddSpend(txs, i, ByVendor, spendByVendorMap, t);
      spendByAccountMap := AddSpend(txs, i, ByAccount, spendByAccountMap, t);
      spendByMonth := AddSpend(txs, i, ByMonth, spendByMonth, t);
      TallySnoc(cfg, txs, i);

      compliantCount, missingPolicyCodeCount, invalidPolicyCodeCount, amountViolationCount :=
        CountCompliance(cfg, t, compliantCount, missingPolicyCodeCount, invalidPolicyCodeCount, amountViolationCount);
    }
    assert txs[..|txs|] == txs;
    counts := Counts(compliantCount, missingPolicyCodeCount, invalidPolicyCodeCount, amountViolationCount);
  }

  /** `processTransactions`: the three passes, then the summary, the
      leader lists, the chart data and the deduplicated violations. */
  method ProcessTransactions(cfg: AuditConfig, transactions: seq<Transaction>) returns (data: ProcessedData)
    ensures data == Process(cfg, transactions)
  {
    var duplicateIdReasons := FindDuplicateIds(transactions);
    DuplicateMapUnique(transactions, duplicateIdReasons);
    var outlierReasons := DetectOutliers(cfg, transactions);
    var totalAmount, allTransactionsWithFlags, policyViolations :=
      FlagTransactions(cfg, transactions, duplicateIdReasons, outlierReasons);
    var flaggedTransactions := OnlyFlagged(allTransactionsWithFlags);
    var auditSummary := AuditSummary(|transactions|, totalAmount, |flaggedTransactions|, DistinctKeyCount(policyViolations));

    FlagAllTxs(cfg, duplicateIdReasons, outlierReasons, transactions);
    var spendByCategoryMap, spendByVendorMap, spendByAccountMap, spendByMonth, counts :=
      TallyCharts(cfg, allTransactionsWithFlags);

    var spendByCategory := Leaders(spendByCategoryMap);
    var highestSpendingCategories := Take(spendByCategory, 5);
    var highestSpendingVendors := Take(Leaders(spendByVendorMap), 5);
    var highestSpendingAccounts := Take(Leaders(spendByAccountMap), 5);
    var policyCompliance := Chart(counts);
    var spendTrend := Trend(spendByMonth);

    data := ProcessedData(allTransactionsWithFlags, flaggedTransactions, auditSummary, Dedup(policyViolations),
                          spendByCategory, policyCompliance, spendTrend,
                          highestSpendingCategories, highestSpendingVendors, highestSpendingAccounts);
  }
}
