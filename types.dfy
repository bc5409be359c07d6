/** The records the audit engine reads and produces, and its configuration. */
module Types {
  import opened Wrappers

  /** One input record. `policyCode` is `None` where the field is undefined. */
  datatype Transaction = Transaction(
    transactionId: string,
    date: string,        // 'YYYY-MM-DD'
    amount: real,
    account: string,
    category: string,
    vendor: string,
    policyCode: Option<string>)

  /** A risk reason, by kind and payload rather than by its formatted text. */
  datatype Reason =
    | CategoryThresholdExceeded(threshold: real, category: string)
    | GeneralThresholdExceeded(threshold: real)
    | MissingPolicyCode
    | InvalidPolicyCode(code: string)
    | DuplicateId(id: string)
      /** The text quotes the threshold `mean + factor * sqrt(variance)`. */
    | Outlier(amount: real, category: string, mean: real, variance: real)

  /** An input record with its reasons and the flag derived from them. */
  datatype FlaggedTransaction = FlaggedTransaction(
    tx: Transaction,
    riskReasons: seq<Reason>,
    isFlagged: bool)

  /** The `reason` tag of a policy violation. */
  datatype ViolationKind = MissingCode | InvalidCode | AmountViolation

  /** The tag text, which is also the suffix of the deduplication key. */
  function TagText(k: ViolationKind): string {
    match k
    case MissingCode => "Missing Policy Code"
    case InvalidCode => "Invalid Policy Code"
    case AmountViolation => "Amount Violation"
  }

  datatype PolicyViolation = PolicyViolation(
    transactionId: string,
    date: string,
    amount: real,
    category: string,
    vendor: string,
    reason: ViolationKind,
    details: Reason)

  datatype AuditSummary = AuditSummary(
    totalTransactions: nat,
    totalAmount: real,
    flaggedForAuditCount: nat,
    policyViolationsCount: nat)

  /** Also the `CategorySpending` record, which has the same shape. */
  datatype SpendingLeader = SpendingLeader(name: string, amount: real)

  datatype TimeSeriesDataPoint = TimeSeriesDataPoint(date: string, amount: real)

  datatype ComplianceBucket = Compliant | MissingPolicyCodeBucket | InvalidPolicyCodeBucket | AmountViolationBucket

  datatype PolicyComplianceDataPoint = PolicyComplianceDataPoint(name: ComplianceBucket, value: nat)

  datatype ProcessedData = ProcessedData(
    allTransactionsWithFlags: seq<FlaggedTransaction>,
    flaggedTransactions: seq<FlaggedTransaction>,
    auditSummary: AuditSummary,
    policyViolations: seq<PolicyViolation>,
    spendByCategory: seq<SpendingLeader>,
    policyCompliance: seq<PolicyComplianceDataPoint>,
    spendTrend: seq<TimeSeriesDataPoint>,
    highestSpendingCategories: seq<SpendingLeader>,
    highestSpendingVendors: seq<SpendingLeader>,
    highestSpendingAccounts: seq<SpendingLeader>)

  /** The audit constants, passed in rather than read from module globals. */
  datatype AuditConfig = AuditConfig(
    validPolicyCodes: seq<string>,
    categoryThresholds: map<string, real>,
    generalThreshold: real,
    outlierFactor: real,
    minSamples: nat)

  /** The constants the application ships with. */
  const Shipped := AuditConfig(
    ["P001", "P002", "P003", "P004", "P005", "P006", "P007", "P008", "P009", "P010"],
    map[
      "Software Licensing" := 2000.0,
      "Consulting Services" := 5000.0,
      "Travel & Expenses" := 1000.0,
      "Hardware Purchases" := 3000.0,
      "Marketing & Advertising" := 2500.0,
      "Office Supplies" := 500.0,
      "Legal Fees" := 7000.0,
      "Training & Development" := 1500.0],
    10000.0,
    2.5,
    10)
}
