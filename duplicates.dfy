/** The duplicate-ID pass at the start of `processTransactions`. */
module Duplicates {
  import opened Types

  /** How many transactions of `txs` carry the identifier `id`. */
  function CountId(txs: seq<Transaction>, id: string): nat {
    if txs == [] then 0
    else CountId(txs[..|txs| - 1], id) + (if txs[|txs| - 1].transactionId == id then 1 else 0)
  }

  /** `n` copies of `r`. */
  function Repeat(r: Reason, n: nat): (s: seq<Reason>)
    ensures |s| == n
    ensures forall i :: 0 <= i < n ==> s[i] == r
  {
    if n == 0 then [] else Repeat(r, n - 1) + [r]
  }

  /** The duplicate reasons that every transaction carrying `id` receives:
      one per occurrence after the first. */
  function DuplicateReasons(txs: seq<Transaction>, id: string): seq<Reason> {
    if CountId(txs, id) >= 2 then Repeat(DuplicateId(id), CountId(txs, id) - 1) else []
  }

  /** What the first pass knows after reading `p`: `seen` holds the
      identifiers read so far, and `dup` maps each identifier read at least
      twice to one reason per repeat. */
  ghost predicate FirstPassState(p: seq<Transaction>, seen: set<string>, dup: map<string, seq<Reason>>) {
    && (forall id :: id in seen <==> CountId(p, id) >= 1)
    && (forall id :: id in dup <==> CountId(p, id) >= 2)
    && (forall id :: id in dup ==> dup[id] == Repeat(DuplicateId(id), CountId(p, id) - 1))
  }

  lemma FirstPassStart()
    ensures FirstPassState([], {}, map[])
  {
  }

  /** Reading an identifier for the first time adds it to `seen`. */
  lemma FirstPassNew(p: seq<Transaction>, t: Transaction, seen: set<string>, dup: map<string, seq<Reason>>)
    requires FirstPassState(p, seen, dup) && t.transactionId !in seen
    ensures FirstPassState(p + [t], seen + {t.transactionId}, dup)
  {
    assert (p + [t])[..|p|] == p;
  }

  /** Reading an identifier again appends one reason to its entry,
      starting from an empty entry on its first repeat. */
  lemma FirstPassRepeat(p: seq<Transaction>, t: Transaction, seen: set<string>, dup: map<string, seq<Reason>>)
    requires FirstPassState(p, seen, dup) && t.transactionId in seen
    ensures var id := t.transactionId;
            FirstPassState(p + [t], seen, dup[id := (if id in dup then dup[id] else []) + [DuplicateId(id)]])
  {
    var id := t.transactionId;
    var q := p + [t];
    assert q[..|p|] == p;
    var d := dup[id := (if id in dup then dup[id] else []) + [DuplicateId(id)]];
    assert CountId(q, id) == CountId(p, id) + 1;
    forall k | k in d ensures d[k] == Repeat(DuplicateId(k), CountId(q, k) - 1) {
      if k == id {
        assert Repeat(DuplicateId(k), CountId(q, k) - 1) == Repeat(DuplicateId(k), CountId(p, k) - 1) + [DuplicateId(k)];
      }
    }
  }

  /** The first pass: a set of identifiers seen so far, and a map from each
      identifier seen again to one reason per repeat. */
  method FindDuplicateIds(txs: seq<Transaction>) returns (dup: map<string, seq<Reason>>)
    ensures forall id :: id in dup <==> CountId(txs, id) >= 2
    ensures forall id :: id in dup ==> dup[id] == Repeat(DuplicateId(id), CountId(txs, id) - 1)
  {
    var seen: set<string> := {};
    dup := map[];
    FirstPassStart();
    for i := 0 to |txs|
      invariant FirstPassState(txs[..i], seen, dup)
    {
      var t := txs[i];
      var id := t.transactionId;
      assert txs[..i + 1] == txs[..i] + [t];
      if id in seen {
        FirstPassRepeat(txs[..i], t, seen, dup);
        if id !in dup {
          dup := dup[id := []];
        }
        dup := dup[id := dup[id] + [DuplicateId(id)]];
      } else {
        FirstPassNew(txs[..i], t, seen, dup);
        seen := seen + {id};
      }
    }
    assert txs[..|txs|] == txs;
  }
}
