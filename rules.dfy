/** The two per-transaction rules, `checkAmountThresholds` and
    `checkPolicyCodes`. Each returns at most one reason. */
module Rules {
  import opened Wrappers
  import opened Types
  import Text

  /** What the policy-code tests of the source conclude about one code. */
  datatype CodeStatus = Missing | Invalid | Valid

  /** The policy-code test: the code is missing when it is undefined or
      blank after trimming, else invalid when it (untrimmed) is not on the
      allow-list. The same test decides the compliance buckets. */
  function ClassifyCode(cfg: AuditConfig, code: Option<string>): CodeStatus {
    if code.None? then Missing
    else if Text.Trim(code.value) == "" then Missing
    else if code.value !in cfg.validPolicyCodes then Invalid
    else Valid
  }

  lemma ClassifyCodeMeaning(cfg: AuditConfig, code: Option<string>)
    ensures ClassifyCode(cfg, code) == Missing <==> code.None? || Text.AllWhitespace(code.value)
    ensures ClassifyCode(cfg, code) == Invalid <==>
              code.Some? && !Text.AllWhitespace(code.value) && code.value !in cfg.validPolicyCodes
    ensures ClassifyCode(cfg, code) == Valid <==>
              code.Some? && code.value in cfg.validPolicyCodes && !Text.AllWhitespace(code.value)
  {
    if code.Some? {
      Text.TrimEmptyIff(code.value);
    }
  }

  /** `checkPolicyCodes`. */
  function PolicyReasons(cfg: AuditConfig, t: Transaction): (r: seq<Reason>)
    ensures |r| <= 1
  {
    match ClassifyCode(cfg, t.policyCode)
    case Missing => [MissingPolicyCode]
    case Invalid => [InvalidPolicyCode(t.policyCode.value)]
    case Valid => []
  }

  /** At most one reason: "missing" exactly when the code is undefined or
      blank, "invalid" (quoting the code) exactly when it is not blank and
      not on the allow-list, and none otherwise. */
  lemma PolicyReasonsMeaning(cfg: AuditConfig, t: Transaction)
    ensures PolicyReasons(cfg, t) == [MissingPolicyCode] <==>
              t.policyCode.None? || Text.AllWhitespace(t.policyCode.value)
    ensures (exists c :: PolicyReasons(cfg, t) == [InvalidPolicyCode(c)]) <==>
              t.policyCode.Some? && !Text.AllWhitespace(t.policyCode.value) && t.policyCode.value !in cfg.validPolicyCodes
    ensures PolicyReasons(cfg, t) != [] && PolicyReasons(cfg, t)[0].InvalidPolicyCode? ==>
              PolicyReasons(cfg, t)[0].code == t.policyCode.value
    ensures PolicyReasons(cfg, t) == [] <==>
              t.policyCode.Some? && t.policyCode.value in cfg.validPolicyCodes && !Text.AllWhitespace(t.policyCode.value)
  {
    ClassifyCodeMeaning(cfg, t.policyCode);
  }

  /** The category test of `checkAmountThresholds`: the category has a
      configured threshold and the amount exceeds it. */
  predicate ExceedsCategoryThreshold(cfg: AuditConfig, t: Transaction) {
    t.category in cfg.categoryThresholds && t.amount > cfg.categoryThresholds[t.category]
  }

  /** `checkAmountThresholds`. The general test is a plain `else if`: it
      applies whenever the category test fails, including to categories that
      have a threshold the amount stays within. */
  function AmountReasons(cfg: AuditConfig, t: Transaction): (r: seq<Reason>)
    ensures |r| <= 1
  {
    if ExceedsCategoryThreshold(cfg, t) then
      [CategoryThresholdExceeded(cfg.categoryThresholds[t.category], t.category)]
    else if t.amount > cfg.generalThreshold then
      [GeneralThresholdExceeded(cfg.generalThreshold)]
    else []
  }

  /** At most one reason: the category reason (quoting that category's
      threshold) exactly when the category test passes, else the general
      reason exactly when the amount is over the general threshold. */
  lemma AmountReasonsMeaning(cfg: AuditConfig, t: Transaction)
    ensures AmountReasons(cfg, t) != [] && AmountReasons(cfg, t)[0].CategoryThresholdExceeded? <==>
              ExceedsCategoryThreshold(cfg, t)
    ensures AmountReasons(cfg, t) != [] && AmountReasons(cfg, t)[0].CategoryThresholdExceeded? ==>
              AmountReasons(cfg, t)[0] == CategoryThresholdExceeded(cfg.categoryThresholds[t.category], t.category)
    ensures AmountReasons(cfg, t) == [GeneralThresholdExceeded(cfg.generalThreshold)] <==>
              !ExceedsCategoryThreshold(cfg, t) && t.amount > cfg.generalThreshold
    ensures AmountReasons(cfg, t) == [] <==>
              t.amount <= cfg.generalThreshold &&
              (t.category in cfg.categoryThresholds ==> t.amount <= cfg.categoryThresholds[t.category])
  {
  }

  /** Because the general test is an `else if`, a category whose threshold is
      at least the general one still receives the general reason for amounts
      between the two thresholds. */
  lemma GeneralReasonReachesConfiguredCategory(cfg: AuditConfig, t: Transaction)
    requires t.category in cfg.categoryThresholds
    requires cfg.generalThreshold < t.amount <= cfg.categoryThresholds[t.category]
    ensures AmountReasons(cfg, t) == [GeneralThresholdExceeded(cfg.generalThreshold)]
  {
  }

  /** With the shipped constants every category threshold (at most 7000) is
      below the general threshold (10000), so a configured category never
      receives the general reason. */
  lemma ShippedConfiguredCategoryNeverGeneral(t: Transaction)
    requires t.category in Shipped.categoryThresholds
    ensures forall r :: r in AmountReasons(Shipped, t) ==> !r.GeneralThresholdExceeded?
  {
    var m := Shipped.categoryThresholds;
    assert forall c :: c in m ==> m[c] <= 7000.0;
    assert m[t.category] < Shipped.generalThreshold;
  }
}
