# Transaction audit engine: a Dafny model

This project models the rule-evaluation and aggregation engine of a
financial-transaction audit tool. The engine is `processTransactions` in
`services/auditLogic.ts`. For each batch of transactions it does four things:

- **First pass.** It finds repeated transaction identifiers.
- **Outliers.** It groups the batch by category. It skips a category with fewer than ten members, and one whose standard deviation is zero. In every other category it flags the amounts above `mean + 2.5 · stdDev`.
- **Second pass.** It applies the amount-threshold rule and the policy-code rule to every transaction. It builds the flagged records and the policy-violation records.
- **Third pass.** It accumulates spending per category, vendor, account and month, and counts the policy-compliance buckets.

From those it builds:

- the audit summary;
- the leader lists (all categories, then the top five categories, vendors and accounts);
- the monthly spend trend;
- the compliance chart;
- the deduplicated violation list.

The model also covers the post-parse half of `parseCSV` in `services/csvParser.ts`:

- the check for required headers;
- the mapping of a raw row to a partial transaction;
- the dropping of rows that lack an essential field;
- the `isCsvParseError` guard on library errors.

## Layout

The model has two layers.

- **Specification functions** state each stage on values: `Rules.AmountReasons`, `Outliers.OutlierReasons`, `Spend.SpendTotals`, `Compliance.Tally`, `Violations.Dedup`, `Audit.Process`, `Csv.Complete`, and others.
- **Methods** follow the source's loops one by one. Each method is proved equal to its specification function:
  - `FindDuplicateIds`, `GroupTransactionsByCategory` and `DetectOutliers`;
  - `FlagTransactions`, which calls `CollectReasons` and `AppendViolations`;
  - `TallyCharts`, which calls `AddSpend` and `CountCompliance`;
  - `ProcessTransactions`;
  - `MapRow`, `MapRows` and `OnComplete`.

Lemmas then state what the specification functions mean in terms of the batch.

Other modelling choices:

- **Configuration.** The constants of `constants.ts` form an `AuditConfig` value, passed to every rule. `Types.Shipped` holds the shipped values.
- **Amounts.** Amounts are `real`.
- **Reasons.** Reasons are a tagged datatype rather than formatted text.
- **Outlier test.** The test `amount > mean + factor · sqrt(variance)` is decided without a square root. `Stats.ExceedsBoundIff` proves that the squared form agrees with the comparison against any non-negative `s` with `s · s == variance`.
- **Insertion-ordered objects.** Some plain objects and `Map`s are read back in insertion order: the category groups, the four spending objects and the deduplication map. These are insertion-ordered association lists, the `Dict` module.
- **Keyed maps.** Maps that are only queried with `has`/`get` are Dafny `map`s.
- **Sorting.** `Array.prototype.sort` is a stable insertion sort.
- **`localeCompare`.** On the `YYYY-MM` keys, `localeCompare` is lexicographic order on code points.

Two places where the code does something its own wording does not suggest:

- **Compliance buckets.** The compliance counting (`services/auditLogic.ts:171-189`) counts a missing or invalid policy code and an amount violation independently. One transaction can therefore land in two buckets, so the buckets can add up to more than the batch size (`Compliance.CountedTwice`, `Compliance.TallyBalance`).
- **General threshold.** The comment on the general threshold (`constants.ts:17`) calls it the threshold "if not covered by category". The `else if` at `services/auditLogic.ts:8-11` instead applies it whenever the category test fails, including to a category that has its own threshold (`Rules.GeneralReasonReachesConfiguredCategory`). With the shipped constants every category threshold is below the general one, so the two readings agree (`Rules.ShippedConfiguredCategoryNeverGeneral`).

## Model

| member | source | states |
|---|---|---|
| Rules.ClassifyCodeMeaning | services/auditLogic.ts:18-22 | A code is missing exactly when it is undefined or whitespace only. It is invalid exactly when it is non-blank and not on the allow-list. Otherwise it is valid. |
| Rules.PolicyReasons | services/auditLogic.ts:16-24 | The policy rule gives at most one reason. |
| Rules.PolicyReasonsMeaning | services/auditLogic.ts:16-24 | The policy rule gives "missing" exactly for an undefined or blank code. It gives "invalid" (quoting the code) exactly for a non-blank code off the allow-list. Otherwise it gives nothing. |
| Rules.AmountReasons | services/auditLogic.ts:5-14 | The amount rule gives at most one reason. |
| Rules.AmountReasonsMeaning | services/auditLogic.ts:5-14 | The amount rule gives the category reason, quoting the category threshold, exactly when the category has a threshold that the amount exceeds. Otherwise it gives the general reason exactly when the amount exceeds the general threshold. It gives no reason exactly when both tests fail. |
| Rules.GeneralReasonReachesConfiguredCategory | services/auditLogic.ts:8-11 | A category whose threshold is at least the general one still gets the general reason for amounts between the two thresholds. |
| Rules.ShippedConfiguredCategoryNeverGeneral | constants.ts:5-17 | With the shipped thresholds, a configured category never gets the general reason. |
| Duplicates.FindDuplicateIds | services/auditLogic.ts:81-94 | After the first pass, an identifier has an entry exactly when it occurs at least twice. Its entry holds one duplicate reason per occurrence after the first. |
| Duplicates.FirstPassNew | services/auditLogic.ts:91-93 | Reading an identifier not yet seen adds it to the seen set and leaves the duplicate map unchanged. What the first pass knows still holds for the longer prefix. |
| Duplicates.FirstPassRepeat | services/auditLogic.ts:86-90 | Reading an identifier already seen appends one duplicate reason to its entry, creating the entry if needed. What the first pass knows still holds for the longer prefix. |
| Audit.DuplicateMapLookup | services/auditLogic.ts:84-94 | Looking up an identifier that occurs `k ≥ 2` times gives `k - 1` duplicate reasons. An identifier that occurs once gets none. |
| Audit.DuplicateMapUnique | services/auditLogic.ts:84-94 | What the first pass guarantees determines its map completely. |
| Stats.ExceedsBoundIff | services/auditLogic.ts:56-63 | The squared test holds exactly when `d > factor · s`, for the non-negative square root `s` of the variance. This covers both signs of the factor. |
| Stats.VarianceNonNegative | services/auditLogic.ts:56 | The population variance is never negative. |
| Stats.VarianceZeroIff | services/auditLogic.ts:56-58 | The standard deviation is zero exactly when all amounts of the category are equal. |
| Outliers.GroupByCategoryShape | services/auditLogic.ts:41-48 | The grouping holds each category once, in order of first appearance, with exactly its members in input order. |
| Outliers.GroupTransactionsByCategory | services/auditLogic.ts:43-48 | The grouping loop builds that grouping, and the grouping stays well formed. |
| Outliers.AddOutliersOf | services/auditLogic.ts:62-70 | The inner loop appends one outlier reason under the identifier of each member above the bound, creating entries as needed. The result equals the specified step of the scan. |
| Outliers.DetectOutliers | services/auditLogic.ts:39-73 | The loop over the groups, with its two `continue`s, returns the outlier map of the specification. |
| Outliers.OutlierReasonsCount | services/auditLogic.ts:50-70 | Under an identifier, the outlier map holds, as a multiset, exactly the reasons of the transactions of the batch that carry that identifier and are outliers, one per transaction. So every such outlier's reason is stored, every stored reason is the reason of one such outlier, and the list is as long as the number of those outliers. An identifier has an entry only if it has such a transaction. |
| Outliers.OutlierBagFacts | services/auditLogic.ts:62-68 | The bag of outlier reasons for an identifier has one element per outlier carrying it, and contains the reason of each. |
| Outliers.AddCategoryOutliersExceed | services/auditLogic.ts:62-68 | One category's pass adds under an identifier exactly the reasons of its members that carry the identifier and exceed the bound, and keeps what was stored before. |
| Outliers.OutlierReasonsExplained | services/auditLogic.ts:54-68 | Every reason stored under an identifier quotes the amount and category of an outlier of the batch that carries that identifier, with the mean and variance of that outlier's category. |
| Outliers.SmallCategoryHasNoOutlier | services/auditLogic.ts:52 | A category with fewer members than the minimum sample count never yields an outlier. |
| Outliers.UniformCategoryHasNoOutlier | services/auditLogic.ts:56-58 | A category whose amounts are all equal never yields an outlier. |
| Violations.ViolationsOf | services/auditLogic.ts:119-141 | A transaction yields one violation per policy reason and one per amount reason. Each violation copies the transaction's identifier, date, amount, category and vendor. |
| Violations.PolicyViolationsByStatus | services/auditLogic.ts:119-129 | A missing code yields a single "Missing Policy Code" violation and an invalid code a single "Invalid Policy Code" one. A valid code yields none. |
| Violations.ViolationDetails | services/auditLogic.ts:119-141 | Each violation's details field is one of the reasons of the rule that its tag names. |
| Violations.ViolationCodeKinds | services/auditLogic.ts:119-129 | A transaction has a missing-code violation exactly when its code is missing. It has an invalid-code violation exactly when its code is invalid. |
| Violations.ViolationAmountKind | services/auditLogic.ts:131-141 | A transaction has an amount violation exactly when the amount rule gives a reason. |
| Violations.AllViolationsMembers | services/auditLogic.ts:98-142 | The violation list holds exactly the violations of the transactions of the batch. |
| Violations.KeyInjective | services/auditLogic.ts:150 | Two violations with the same key `transaction_id + reason` have the same identifier and the same tag. |
| Violations.DedupMapShape | services/auditLogic.ts:219 | Under each key, the deduplication map holds the last violation with that key. |
| Violations.DedupCount | services/auditLogic.ts:150 | The deduplicated list is exactly as long as the summary's count of distinct keys. |
| Violations.DedupMeaning | services/auditLogic.ts:219 | Every entry of the deduplicated list is an input violation, and no two entries share a key. Every input key has an entry, namely the last violation with that key. |
| Dict.UniqCardinality | services/auditLogic.ts:150 | The size of `new Set(keys)` equals the length of the first-occurrence list of the keys. |
| Dict.SumValuesAccumulate | services/auditLogic.ts:164-169 | `m[k] = (m[k] \|\| 0) + a` increases the sum of the values by `a`. |
| Audit.FlagAllWithIndex | services/auditLogic.ts:98-117 | There is one flagged record per transaction, and record `i` is built from transaction `i`. |
| Audit.OnlyFlagged | services/auditLogic.ts:144 | The flagged list holds exactly the records whose flag is set. |
| Audit.OnlyFlaggedAppend | services/auditLogic.ts:144 | The filter keeps input order: filtering two lists joined together gives the filtered first list followed by the filtered second. |
| Audit.CollectReasons | services/auditLogic.ts:100-114 | The reason list is: amount reasons, then policy reasons, then the duplicate reasons stored for the identifier, then the outlier reasons stored for it. |
| Audit.AppendViolations | services/auditLogic.ts:119-141 | The two `forEach` loops append exactly the transaction's violations, policy violations first. |
| Audit.FlagTransactions | services/auditLogic.ts:98-142 | The second pass computes the running total, the flagged records and the violation list of the specification. |
| Audit.AddSpend | services/auditLogic.ts:164-169 | One spending update turns the totals after `i` transactions into the totals after `i + 1`. |
| Audit.CountCompliance | services/auditLogic.ts:171-189 | The compliance part of the third pass updates the four counters as `Compliance.CountOne` says. |
| Audit.TallyCharts | services/auditLogic.ts:154-190 | The third pass computes the four spending objects and the four counters of the specification. |
| Audit.ProcessTransactions | services/auditLogic.ts:76-227 | The whole function returns `Audit.Process` of the batch. |
| AuditFacts.RiskReasonsMeaning | services/auditLogic.ts:98-116 | A transaction's reasons are its amount reason, then its policy reason, then one duplicate reason per other transaction with its identifier, then one outlier reason per outlier of the batch with its identifier. It is flagged exactly when one of these exists. |
| AuditFacts.ProcessFlags | services/auditLogic.ts:98-117 | `allTransactionsWithFlags` has one record per transaction, in order. Each record carries its transaction and its reasons, and its flag is set exactly when it has a reason. |
| AuditFacts.OnlyFlaggedCount | services/auditLogic.ts:144 | The flagged list is exactly as long as the number of transactions with a reason. |
| AuditFacts.ProcessFlaggedList | services/auditLogic.ts:144-151 | `flaggedTransactions` holds exactly the flagged records. `flaggedForAuditCount` is its length: the number of transactions with a reason, at most the batch size. |
| AuditFacts.ProcessSummary | services/auditLogic.ts:146-151 | The summary holds the batch size and the sum of the amounts. `policyViolationsCount` equals the length of the returned violation list. |
| AuditFacts.BatchViolations | services/auditLogic.ts:98-142 | The returned violations are violations of transactions of the batch, and no two share identifier and tag. Every violation of every transaction has a representative with the same identifier and tag. |
| Spend.SpendTotalsMeaning | services/auditLogic.ts:163-169 | A spending object holds each key once, in order of first appearance. Each total is the sum of the amounts of the transactions with that key. The totals add up to the batch total. |
| Spend.LeadersMeaning | services/auditLogic.ts:192-196 | A leader list names every key once, with its total, largest first, and adds up to the same total. |
| Spend.TopFiveAreHighest | services/auditLogic.ts:199-201 | `slice(0, 5)` keeps five leaders, or all of them if there are fewer. No leader left out has a larger amount than one kept. |
| Spend.Take | services/auditLogic.ts:199-201 | `slice(0, n)` is the prefix of length `min(n, length)`. The month key `substring(0, 7)` at line 168 uses the same function. |
| Spend.TrendMeaning | services/auditLogic.ts:211-213 | The trend lists every month of the spending object once, with its total, in strictly increasing month order, so no two points share a month. |
| Spend.TrendSum | services/auditLogic.ts:211-213 | The trend adds up to the same total as the spending object. |
| AuditFacts.BatchLeaders | services/auditLogic.ts:192-198 | A leader list of the batch names each key of the batch once, with the sum of its transactions' amounts, largest first. Its amounts add up to the batch total. |
| AuditFacts.KeyTotal | services/auditLogic.ts:163-169 | The key of every transaction of the batch is a key of the spending object, holding the sum of the amounts under that key. |
| AuditFacts.TopFiveKeys | services/auditLogic.ts:199-201 | No key left out of the top five has a larger total than a leader in it. |
| AuditFacts.BatchTopFiveShape | services/auditLogic.ts:199-201 | The top five are the first five leaders, or all of them if the batch has fewer keys. |
| AuditFacts.BatchTopFiveHighest | services/auditLogic.ts:199-201 | No key of the batch left out of the top five has a larger summed amount than any leader in them. |
| AuditFacts.TrendEntries | services/auditLogic.ts:211-212 | Each trend point is an entry of the month totals, and each month has a point. |
| AuditFacts.BatchTrendOrder | services/auditLogic.ts:211-213 | `spendTrend` is in strictly increasing month order and adds up to the batch total. |
| AuditFacts.BatchTrendMonths | services/auditLogic.ts:168-169 | `spendTrend` has a point for the month of every transaction. Each point holds the sum of the amounts dated in that month. |
| Text.TrimEmptyIff | services/auditLogic.ts:18 | `s.trim() === ""` holds exactly when `s` is whitespace only. |
| Text.TrimIsTrimmed | services/csvParser.ts:39 | A trimmed string starts and ends with a non-whitespace character, and trimming it again changes nothing. |
| Text.LexLessIrreflexive | services/auditLogic.ts:213 | No month key precedes itself. |
| Text.LexLessTotal | services/auditLogic.ts:213 | Any two distinct month keys are ordered one way or the other. |
| Text.LexLessTransitive | services/auditLogic.ts:213 | The month order is transitive. |
| Compliance.TallyCounts | services/auditLogic.ts:171-189 | Each counter equals the number of transactions in its bucket. |
| Compliance.BucketsCover | services/auditLogic.ts:171-189 | Every transaction is in some bucket. "Compliant" excludes the other three buckets, and the two code buckets exclude each other. |
| Compliance.TallyBalance | services/auditLogic.ts:158-189 | The counters add up to at least the batch size. Compliant plus the two code counters is at most the batch size, and so is compliant plus the amount counter. |
| Compliance.CompliantComplement | services/auditLogic.ts:171-189 | The compliant count plus the number of transactions with a policy or amount reason is the batch size. |
| Compliance.CountedTwice | services/auditLogic.ts:171-185 | A transaction with no code and a general-threshold amount is counted both as missing and as an amount violation. |
| Compliance.ChartMeaning | services/auditLogic.ts:203-208 | A bucket appears in the chart exactly when its count is positive, with that count, and the buckets keep their fixed order. |
| AuditFacts.BatchCompliance | services/auditLogic.ts:203-208 | The chart shows a bucket exactly when the bucket counts some transaction, with that number, in the fixed order. |
| Csv.MissingFromMeaning | services/csvParser.ts:22 | A header is reported missing exactly when it is required and absent. The missing list is empty exactly when all required headers are present. |
| Csv.MissingFromAppend | services/csvParser.ts:22 | The missing headers keep the required order: those missing from two header lists joined together are the missing ones of the first, then of the second. |
| Csv.CompleteRejectsIff | services/csvParser.ts:21-26 | The callback rejects exactly when a required header is absent. An absent header list always rejects. |
| Csv.OnComplete | services/csvParser.ts:19-52 | The callback returns the specified outcome: a rejection with the message listing the missing headers, or the typed rows with the forwarded errors. |
| Csv.MapRow | services/csvParser.ts:28-47 | The header loop builds the normalised row and returns it, or `null` when an essential field is missing. |
| Csv.MapRows | services/csvParser.ts:28-48 | Mapping the rows and dropping the `null`s gives the typed data. |
| Csv.NormaliseMeaning | services/csvParser.ts:30-41 | A header is set exactly when its cell is present and non-blank. Text fields hold the trimmed, non-empty text; the amount holds `parseFloat` of the raw text. |
| Csv.PolicyCodeNeverBlank | services/csvParser.ts:31-37 | The policy code is absent or a non-empty trimmed string, so the blank-code branch is never taken. |
| Csv.KeepRowIff | services/csvParser.ts:43-46 | A row survives exactly when its identifier, date, amount and category cells are present. |
| Csv.NaNAmountKept | services/csvParser.ts:33-46 | A row whose amount `parseFloat` cannot read is kept with a `NaN` amount. |
| Csv.TypedDataAppend | services/csvParser.ts:48 | The typed data of two row batches is the typed data of the first followed by that of the second, so dropping rows never reorders the others. |
| Csv.TypedDataMembers | services/csvParser.ts:28-48 | Every typed row is the mapping of an input row that has its essential fields, and every such row yields one. |
| Csv.ForwardErrorsMeaning | services/csvParser.ts:7-9 | The forwarded errors are exactly the inputs that pass the guard. |
| Csv.ForwardErrorsAppend | services/csvParser.ts:50 | The forwarded errors keep their input order: filtering two error lists joined together gives the filtered first list followed by the filtered second. |

## Left out

- **The UI and other services.** `App.tsx`, the components, the LLM call (`geminiService.ts`) and the CSV export are not part of this model.
- **The CSV library.** `Papa.parse` itself is replaced by its outputs: the header list, the raw rows and the error objects. This also leaves out `transformHeader` (the header names are taken as given), `dynamicTyping` (every cell is text or `null`), `skipEmptyLines`, the Promise wrapper and the `error` callback.
- **`parseFloat`.** It is a function parameter of the CSV model, returning a finite number or `NaN`. It never returns an infinity, although the real `parseFloat` does for inputs such as `"Infinity"` or `"1e999"`.
- **Missing account or vendor.** The CSV step keeps a row whose `account` or `vendor` cell is missing. The caller (`App.tsx:84`) then casts it to a full transaction, so the engine sees `undefined` there and the spending objects use the key `"undefined"`. The engine model types both fields as strings, so it does not capture that case.
- **Dead code.** `checkDuplicates` (`services/auditLogic.ts:26-36`) is never called, so it is not modelled. The first pass replaces it.
- **Floating point.** IEEE-754 rounding, `NaN` amounts inside the engine, and `Math.sqrt` are left out. Amounts are exact reals, and the outlier test squares both sides instead of taking a root.
- **Reason text.** The reasons' text, including `toLocaleString` formatting, is represented by the reason's kind and payload. The one place text matters is the `startsWith('Missing')` test that picks a violation's tag. There the only reason starting with "Missing" is the missing-code reason, which `Violations.PolicyKind` encodes.
- **Object quirks.** Keys that clash with `Object.prototype` names (such as `constructor` or `__proto__`) are left out. So is the rule that `Object.entries` and `for ... in` list integer-like keys first. Every object key is treated as an ordinary string key kept in insertion order.
- **Sort ties.** Only sortedness, permutation and sums are proved about the stable sorts. The order among equal amounts is not stated.
- **`localeCompare`.** It is modelled as code-point order, which agrees with it on `YYYY-MM` keys. General locale collation is left out.
- **UTF-16 strings.** JavaScript strings are sequences of UTF-16 code units; the model's strings are sequences of Unicode scalar values. The two agree on text inside the Basic Multilingual Plane. Outside it they differ: `substring(0, 7)` at `services/auditLogic.ts:168` counts a character such as an emoji as two units, so a date beginning with one gives a six-character month key in the source and a seven-character key in the model. The month comparisons differ the same way.
- **Compliance status.** `Audit.CountCompliance` recomputes the code status with `Rules.ClassifyCode`, the same test the source writes inline at `services/auditLogic.ts:172-178`.
- **Helper methods.** `Audit.AddSpend` and `Audit.CountCompliance` are loop bodies lifted out of the third pass. `Audit.CollectReasons` and `Audit.AppendViolations` are lifted out of the second pass. `Outliers.AddOutliersOf` is the inner `forEach` of `detectOutliers`. Each keeps the source's statements in order; the split only keeps each proof small.
- **Outlier keys.** Outlier and duplicate reasons are keyed by transaction identifier, as in the source. So a transaction receives every reason stored under its identifier, including those earned by another transaction with the same identifier (`AuditFacts.RiskReasonsMeaning` states this).
