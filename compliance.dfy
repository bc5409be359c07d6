/** The policy-compliance counters of `processTransactions` and the chart
    built from them. A missing or an invalid code puts a transaction in one
    of two exclusive buckets; an amount violation is counted on its own, so a
    transaction can be in a code bucket and in the amount bucket at once. */
module Compliance {
  import opened Types
  import opened Rules

  /** The four counters, in the order the chart lists them. */
  datatype Counts = Counts(compliant: nat, missing: nat, invalid: nat, amountViolation: nat)

  /** Whether one transaction is counted in bucket `b`. */
  predicate InBucket(cfg: AuditConfig, t: Transaction, b: ComplianceBucket) {
    match b
    case Compliant => ClassifyCode(cfg, t.policyCode) == Valid && AmountReasons(cfg, t) == []
    case MissingPolicyCodeBucket => ClassifyCode(cfg, t.policyCode) == Missing
    case InvalidPolicyCodeBucket => ClassifyCode(cfg, t.policyCode) == Invalid
    case AmountViolationBucket => AmountReasons(cfg, t) != []
  }

  /** How many transactions of `txs` bucket `b` counts. */
  function CountIn(cfg: AuditConfig, txs: seq<Transaction>, b: ComplianceBucket): nat {
    if txs == [] then 0
    else CountIn(cfg, txs[..|txs| - 1], b) + (if InBucket(cfg, txs[|txs| - 1], b) then 1 else 0)
  }

  /** The counters after one more transaction: the body of the loop for the
      `isCompliant` flag and its four counters. */
  function CountOne(cfg: AuditConfig, c: Counts, t: Transaction): Counts {
    var status := ClassifyCode(cfg, t.policyCode);
    var c1 := if status == Missing then c.(missing := c.missing + 1)
              else if status == Invalid then c.(invalid := c.invalid + 1)
              else c;
    var amountViolated := AmountReasons(cfg, t) != [];
    var c2 := if amountViolated then c1.(amountViolation := c1.amountViolation + 1) else c1;
    if status == Valid && !amountViolated then c2.(compliant := c2.compliant + 1) else c2
  }

  /** The counters after the loop. */
  function Tally(cfg: AuditConfig, txs: seq<Transaction>): Counts {
    if txs == [] then Counts(0, 0, 0, 0) else CountOne(cfg, Tally(cfg, txs[..|txs| - 1]), txs[|txs| - 1])
  }

  /** One more transaction updates the counters as `CountOne` says. */
  lemma TallySnoc(cfg: AuditConfig, txs: seq<Transaction>, i: nat)
    requires i < |txs|
    ensures Tally(cfg, txs[..i + 1]) == CountOne(cfg, Tally(cfg, txs[..i]), txs[i])
  {
    assert txs[..i + 1][..i] == txs[..i];
  }

  /** Each counter is the number of transactions in its bucket. */
  lemma {:induction false} TallyCounts(cfg: AuditConfig, txs: seq<Transaction>)
    ensures Tally(cfg, txs).compliant == CountIn(cfg, txs, Compliant)
    ensures Tally(cfg, txs).missing == CountIn(cfg, txs, MissingPolicyCodeBucket)
    ensures Tally(cfg, txs).invalid == CountIn(cfg, txs, InvalidPolicyCodeBucket)
    ensures Tally(cfg, txs).amountViolation == CountIn(cfg, txs, AmountViolationBucket)
  {
    if txs != [] {
      TallyCounts(cfg, txs[..|txs| - 1]);
    }
  }

  /** Every transaction is in at least one bucket; `Compliant` excludes the
      other three; the two code buckets exclude each other. */
  lemma BucketsCover(cfg: AuditConfig, t: Transaction)
    ensures InBucket(cfg, t, Compliant) || InBucket(cfg, t, MissingPolicyCodeBucket)
         || InBucket(cfg, t, InvalidPolicyCodeBucket) || InBucket(cfg, t, AmountViolationBucket)
    ensures InBucket(cfg, t, Compliant) ==>
              !InBucket(cfg, t, MissingPolicyCodeBucket) && !InBucket(cfg, t, InvalidPolicyCodeBucket)
              && !InBucket(cfg, t, AmountViolationBucket)
    ensures !(InBucket(cfg, t, MissingPolicyCodeBucket) && InBucket(cfg, t, InvalidPolicyCodeBucket))
  {
  }

  /** Summed over the batch: the counters cover every transaction at least
      once, the compliant and code counters at most once, and the compliant
      and amount counters at most once. */
  lemma {:induction false} TallyBalance(cfg: AuditConfig, txs: seq<Transaction>)
    ensures var c := Tally(cfg, txs);
            && c.compliant + c.missing + c.invalid + c.amountViolation >= |txs|
            && c.compliant + c.missing + c.invalid <= |txs|
            && c.compliant + c.amountViolation <= |txs|
  {
    if txs != [] {
      TallyBalance(cfg, txs[..|txs| - 1]);
      BucketsCover(cfg, txs[|txs| - 1]);
    }
  }

  /** How many transactions have a policy-code or an amount reason. */
  function CountNonCompliant(cfg: AuditConfig, txs: seq<Transaction>): nat {
    if txs == [] then 0
    else
      var t := txs[|txs| - 1];
      CountNonCompliant(cfg, txs[..|txs| - 1]) + (if PolicyReasons(cfg, t) != [] || AmountReasons(cfg, t) != [] then 1 else 0)
  }

  /** `Compliant` counts exactly the transactions for which neither rule
      gives a reason: with the others it makes up the batch. */
  lemma {:induction false} CompliantComplement(cfg: AuditConfig, txs: seq<Transaction>)
    ensures Tally(cfg, txs).compliant + CountNonCompliant(cfg, txs) == |txs|
  {
    if txs != [] {
      CompliantComplement(cfg, txs[..|txs| - 1]);
    }
  }

  /** A transaction without a policy code whose amount is over the general
      threshold is counted twice: once as missing its code and once as an
      amount violation. The chart's values can thus add up to more than the
      number of transactions. */
  lemma CountedTwice(t: Transaction)
    requires t.policyCode.None? && t.category !in Shipped.categoryThresholds && t.amount > 10000.0
    ensures Tally(Shipped, [t]).missing == 1 && Tally(Shipped, [t]).amountViolation == 1
    ensures var c := Tally(Shipped, [t]); c.compliant + c.missing + c.invalid + c.amountViolation == 2
  {
    assert [t][..0] == [];
  }

  /** The four chart points before the filter, in their fixed order. */
  function AllPoints(c: Counts): seq<PolicyComplianceDataPoint> {
    [ PolicyComplianceDataPoint(Compliant, c.compliant),
      PolicyComplianceDataPoint(MissingPolicyCodeBucket, c.missing),
      PolicyComplianceDataPoint(InvalidPolicyCodeBucket, c.invalid),
      PolicyComplianceDataPoint(AmountViolationBucket, c.amountViolation) ]
  }

  /** `.filter(item => item.value > 0)`. */
  function NonZero(s: seq<PolicyComplianceDataPoint>): seq<PolicyComplianceDataPoint> {
    if s == [] then []
    else NonZero(s[..|s| - 1]) + (if s[|s| - 1].value > 0 then [s[|s| - 1]] else [])
  }

  /** Position of a bucket in the chart. */
  function Rank(b: ComplianceBucket): nat {
    match b
    case Compliant => 0
    case MissingPolicyCodeBucket => 1
    case InvalidPolicyCodeBucket => 2
    case AmountViolationBucket => 3
  }

  /** The value the counters hold for bucket `b`. */
  function ValueOf(c: Counts, b: ComplianceBucket): nat {
    match b
    case Compliant => c.compliant
    case MissingPolicyCodeBucket => c.missing
    case InvalidPolicyCodeBucket => c.invalid
    case AmountViolationBucket => c.amountViolation
  }

  /** The `policyCompliance` chart. */
  function Chart(c: Counts): seq<PolicyComplianceDataPoint> {
    NonZero(AllPoints(c))
  }

  lemma {:induction false} NonZeroMembers(s: seq<PolicyComplianceDataPoint>)
    ensures forall p :: p in NonZero(s) <==> p in s && p.value > 0
  {
    if s != [] {
      NonZeroMembers(s[..|s| - 1]);
      assert s == s[..|s| - 1] + [s[|s| - 1]];
    }
  }

  /** Strictly increasing chart positions. */
  predicate InOrder(s: seq<PolicyComplianceDataPoint>) {
    forall i, j :: 0 <= i < j < |s| ==> Rank(s[i].name) < Rank(s[j].name)
  }

  lemma {:induction false} NonZeroInOrder(s: seq<PolicyComplianceDataPoint>)
    requires InOrder(s)
    ensures InOrder(NonZero(s))
  {
    if s != [] {
      var p := s[..|s| - 1];
      var x := s[|s| - 1];
      NonZeroInOrder(p);
      NonZeroMembers(p);
      forall q | q in NonZero(p) ensures Rank(q.name) < Rank(x.name) {
        var i :| 0 <= i < |p| && p[i] == q;
      }
    }
  }

  /** A bucket appears exactly when its count is positive, with that count,
      and the buckets that appear keep the fixed order. */
  lemma ChartMeaning(c: Counts)
    ensures forall p :: p in Chart(c) <==> p.value > 0 && p.value == ValueOf(c, p.name)
    ensures forall i, j :: 0 <= i < j < |Chart(c)| ==> Rank(Chart(c)[i].name) < Rank(Chart(c)[j].name)
  {
    NonZeroMembers(AllPoints(c));
    NonZeroInOrder(AllPoints(c));
  }
}
