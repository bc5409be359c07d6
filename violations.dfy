/** The policy-violation records of `processTransactions`: one per policy
    reason and one per amount reason of each transaction, and their
    deduplication by the key `transaction_id + reason`. */
module Violations {
  import opened Wrappers
  import opened Types
  import Rules
  import opened Dict

  /** The tag of a policy reason: the text of the missing-code reason is the
      only one that starts with "Missing". */
  function PolicyKind(r: Reason): ViolationKind {
    if r == MissingPolicyCode then MissingCode else InvalidCode
  }

  function ViolationFor(t: Transaction, kind: ViolationKind, r: Reason): PolicyViolation {
    PolicyViolation(t.transactionId, t.date, t.amount, t.category, t.vendor, kind, r)
  }

  /** `policyCodeReasons.forEach(...)`: one violation per policy reason. */
  function PolicyViolationsOf(cfg: AuditConfig, t: Transaction): (r: seq<PolicyViolation>)
    ensures |r| == |Rules.PolicyReasons(cfg, t)|
    ensures forall i :: 0 <= i < |r| ==>
              r[i] == ViolationFor(t, PolicyKind(Rules.PolicyReasons(cfg, t)[i]), Rules.PolicyReasons(cfg, t)[i])
  {
    var p := Rules.PolicyReasons(cfg, t);
    seq(|p|, i requires 0 <= i < |p| => ViolationFor(t, PolicyKind(p[i]), p[i]))
  }

  /** `checkAmountThresholds(t).forEach(...)`: one violation per amount reason. */
  function AmountViolationsOf(cfg: AuditConfig, t: Transaction): (r: seq<PolicyViolation>)
    ensures |r| == |Rules.AmountReasons(cfg, t)|
    ensures forall i :: 0 <= i < |r| ==> r[i] == ViolationFor(t, AmountViolation, Rules.AmountReasons(cfg, t)[i])
  {
    var a := Rules.AmountReasons(cfg, t);
    seq(|a|, i requires 0 <= i < |a| => ViolationFor(t, AmountViolation, a[i]))
  }

  /** The violations one transaction contributes, policy reasons first. */
  function ViolationsOf(cfg: AuditConfig, t: Transaction): (r: seq<PolicyViolation>)
    ensures |r| == |Rules.PolicyReasons(cfg, t)| + |Rules.AmountReasons(cfg, t)|
    ensures forall v :: v in r ==>
              && v.transactionId == t.transactionId && v.date == t.date && v.amount == t.amount
              && v.category == t.category && v.vendor == t.vendor
  {
    PolicyViolationsOf(cfg, t) + AmountViolationsOf(cfg, t)
  }

  /** The policy violation of a transaction follows the code's status. */
  lemma PolicyViolationsByStatus(cfg: AuditConfig, t: Transaction)
    ensures Rules.ClassifyCode(cfg, t.policyCode) == Rules.Missing ==>
              PolicyViolationsOf(cfg, t) == [ViolationFor(t, MissingCode, MissingPolicyCode)]
    ensures Rules.ClassifyCode(cfg, t.policyCode) == Rules.Invalid ==>
              PolicyViolationsOf(cfg, t) == [ViolationFor(t, InvalidCode, InvalidPolicyCode(t.policyCode.value))]
    ensures Rules.ClassifyCode(cfg, t.policyCode) == Rules.Valid ==> PolicyViolationsOf(cfg, t) == []
  {
  }

  /** Each violation is a policy violation or an amount violation of the
      transaction, carrying the reason it was made from. */
  lemma ViolationDetails(cfg: AuditConfig, t: Transaction)
    ensures forall v :: v in ViolationsOf(cfg, t) && v.reason == AmountViolation ==> v.details in Rules.AmountReasons(cfg, t)
    ensures forall v :: v in ViolationsOf(cfg, t) && v.reason != AmountViolation ==> v.details in Rules.PolicyReasons(cfg, t)
  {
    var ps := PolicyViolationsOf(cfg, t);
    var am := AmountViolationsOf(cfg, t);
    forall v | v in ViolationsOf(cfg, t)
      ensures v.reason == AmountViolation ==> v.details in Rules.AmountReasons(cfg, t)
      ensures v.reason != AmountViolation ==> v.details in Rules.PolicyReasons(cfg, t)
    {
      if v in am {
        var i :| 0 <= i < |am| && am[i] == v;
      } else {
        assert v in ps;
        var i :| 0 <= i < |ps| && ps[i] == v;
      }
    }
  }

  /** A transaction has a missing-code or an invalid-code violation exactly
      when its code is missing or invalid. */
  lemma ViolationCodeKinds(cfg: AuditConfig, t: Transaction)
    ensures (exists v :: v in ViolationsOf(cfg, t) && v.reason == MissingCode) <==> Rules.ClassifyCode(cfg, t.policyCode) == Rules.Missing
    ensures (exists v :: v in ViolationsOf(cfg, t) && v.reason == InvalidCode) <==> Rules.ClassifyCode(cfg, t.policyCode) == Rules.Invalid
  {
    var ps := PolicyViolationsOf(cfg, t);
    var am := AmountViolationsOf(cfg, t);
    var r := ViolationsOf(cfg, t);
    PolicyViolationsByStatus(cfg, t);
    var st := Rules.ClassifyCode(cfg, t.policyCode);
    forall v | v in r ensures v in ps || v.reason == AmountViolation {
      if v !in ps {
        var i :| 0 <= i < |am| && am[i] == v;
      }
    }
    if st == Rules.Missing {
      assert ps[0] in r;
    } else if st == Rules.Invalid {
      assert ps[0] in r;
    } else {
      assert ps == [];
    }
  }

  /** A transaction has an amount violation exactly when the amount rule
      gives a reason. */
  lemma ViolationAmountKind(cfg: AuditConfig, t: Transaction)
    ensures (exists v :: v in ViolationsOf(cfg, t) && v.reason == AmountViolation) <==> Rules.AmountReasons(cfg, t) != []
  {
    var ps := PolicyViolationsOf(cfg, t);
    var am := AmountViolationsOf(cfg, t);
    var r := ViolationsOf(cfg, t);
    forall v | v in ps ensures v.reason != AmountViolation {
      var i :| 0 <= i < |ps| && ps[i] == v;
    }
    if am != [] {
      assert am[0] in r;
    }
  }

  /** All violations of the batch, in input order. */
  function AllViolations(cfg: AuditConfig, txs: seq<Transaction>): seq<PolicyViolation> {
    if txs == [] then [] else AllViolations(cfg, txs[..|txs| - 1]) + ViolationsOf(cfg, txs[|txs| - 1])
  }

  /** Every violation belongs to a transaction of the batch and is one of
      that transaction's violations; every violation of every transaction
      is there. */
  lemma {:induction false} AllViolationsMembers(cfg: AuditConfig, txs: seq<Transaction>)
    ensures forall v :: v in AllViolations(cfg, txs) <==> exists t :: t in txs && v in ViolationsOf(cfg, t)
  {
    if txs != [] {
      var p := txs[..|txs| - 1];
      AllViolationsMembers(cfg, p);
      assert txs == p + [txs[|txs| - 1]];
    }
  }

  /** The deduplication key `transaction_id + reason`. */
  function Key(v: PolicyViolation): string {
    v.transactionId + TagText(v.reason)
  }

  /** Different (identifier, tag) pairs never share a key: the tags end in
      different letters or, for the two code tags of equal length, start
      with different ones. */
  lemma KeyInjective(a: PolicyViolation, b: PolicyViolation)
    requires Key(a) == Key(b)
    ensures a.transactionId == b.transactionId && a.reason == b.reason
  {
    var s := Key(a);
    var ta := TagText(a.reason);
    var tb := TagText(b.reason);
    assert s == a.transactionId + ta && s == b.transactionId + tb;
    assert s[|s| - 1] == ta[|ta| - 1] && s[|s| - 1] == tb[|tb| - 1];
    if a.reason != AmountViolation && b.reason != AmountViolation {
      assert s[|s| - 19] == ta[0] && s[|s| - 19] == tb[0];
    }
    assert ta == tb;
    assert a.transactionId == s[..|s| - |ta|] == b.transactionId;
  }

  /** `policyViolations.map(v => v.transaction_id + v.reason)`. */
  function Keys(vs: seq<PolicyViolation>): (ks: seq<string>)
    ensures |ks| == |vs|
    ensures forall i :: 0 <= i < |vs| ==> ks[i] == Key(vs[i])
  {
    seq(|vs|, i requires 0 <= i < |vs| => Key(vs[i]))
  }

  /** `new Set(keys).size`: the number of distinct keys. */
  function DistinctKeyCount(vs: seq<PolicyViolation>): nat {
    |set k | k in Keys(vs)|
  }

  /** `new Map(policyViolations.map(item => [key, item]))`. */
  function DedupMap(vs: seq<PolicyViolation>): (d: Dict<PolicyViolation>)
    ensures Valid(d)
    ensures d.keys == Uniq(Keys(vs))
  {
    if vs == [] then Empty()
    else
      assert Keys(vs)[..|vs| - 1] == Keys(vs[..|vs| - 1]);
      Put(DedupMap(vs[..|vs| - 1]), Key(vs[|vs| - 1]), vs[|vs| - 1])
  }

  /** `[...map.values()]`. */
  function Dedup(vs: seq<PolicyViolation>): seq<PolicyViolation> {
    Values(DedupMap(vs))
  }

  /** The last violation with key `k`. */
  function LastWithKey(vs: seq<PolicyViolation>, k: string): Option<PolicyViolation> {
    if vs == [] then None
    else if Key(vs[|vs| - 1]) == k then Some(vs[|vs| - 1])
    else LastWithKey(vs[..|vs| - 1], k)
  }

  /** Under each key the map holds the last violation with that key. */
  lemma {:induction false} DedupMapShape(vs: seq<PolicyViolation>)
    ensures forall k :: Get(DedupMap(vs), k) == LastWithKey(vs, k)
  {
    if vs != [] {
      var p := vs[..|vs| - 1];
      DedupMapShape(p);
    }
  }

  /** The deduplicated list has one entry per distinct key, so its length
      is the summary's `policyViolationsCount`. */
  lemma DedupCount(vs: seq<PolicyViolation>)
    ensures |Dedup(vs)| == DistinctKeyCount(vs)
  {
    DedupMapShape(vs);
    UniqCardinality(Keys(vs));
  }

  /** Entry `i` is the last violation with the `i`-th key. */
  lemma DedupEntries(vs: seq<PolicyViolation>)
    ensures |Dedup(vs)| == |DedupMap(vs).keys|
    ensures forall i :: 0 <= i < |Dedup(vs)| ==>
              LastWithKey(vs, DedupMap(vs).keys[i]) == Some(Dedup(vs)[i]) && Key(Dedup(vs)[i]) == DedupMap(vs).keys[i]
  {
    var d := DedupMap(vs);
    var r := Dedup(vs);
    DedupMapShape(vs);
    LastWithKeyFacts(vs);
    forall i | 0 <= i < |r| ensures LastWithKey(vs, d.keys[i]) == Some(r[i]) {
      assert Get(d, d.keys[i]) == Some(r[i]);
    }
  }

  /** Each entry is a violation of the input, no two entries share a key,
      every input key has an entry, and the entry for a key is the last
      violation with that key. */
  lemma DedupMeaning(vs: seq<PolicyViolation>)
    ensures forall x :: x in Dedup(vs) ==> x in vs
    ensures forall i, j :: 0 <= i < j < |Dedup(vs)| ==> Key(Dedup(vs)[i]) != Key(Dedup(vs)[j])
    ensures forall v :: v in vs ==> exists x :: x in Dedup(vs) && Key(x) == Key(v)
    ensures forall x :: x in Dedup(vs) ==> LastWithKey(vs, Key(x)) == Some(x)
  {
    var r := Dedup(vs);
    DedupEntries(vs);
    LastWithKeyFacts(vs);
    forall x | x in r ensures x in vs && LastWithKey(vs, Key(x)) == Some(x) {
      var i :| 0 <= i < |r| && r[i] == x;
    }
    DedupCovers(vs);
  }

  lemma DedupCovers(vs: seq<PolicyViolation>)
    ensures forall v :: v in vs ==> exists x :: x in Dedup(vs) && Key(x) == Key(v)
  {
    var d := DedupMap(vs);
    var r := Dedup(vs);
    DedupEntries(vs);
    DedupMapShape(vs);
    UniqIsDistinctElements(Keys(vs));
    forall v | v in vs ensures exists x :: x in r && Key(x) == Key(v) {
      var i :| 0 <= i < |vs| && vs[i] == v;
      assert Keys(vs)[i] == Key(v);
      assert Key(v) in Keys(vs);
      assert Key(v) in d.keys;
      var j :| 0 <= j < |d.keys| && d.keys[j] == Key(v);
      assert r[j] in r;
    }
  }

  /** The last violation with a key has that key and is in the list. */
  lemma {:induction false} LastWithKeyFacts(vs: seq<PolicyViolation>)
    ensures forall k :: LastWithKey(vs, k).Some? ==> Key(LastWithKey(vs, k).value) == k && LastWithKey(vs, k).value in vs
  {
    if vs != [] {
      LastWithKeyFacts(vs[..|vs| - 1]);
    }
  }
}
