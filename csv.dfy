/** The part of `parseCSV` that runs once the CSV library has parsed the
    file: the check that every required header is present, the mapping of
    each raw row to a partial transaction, the dropping of rows that lack an
    essential field, and the filter that keeps only well-formed parse
    errors. The parsed header list, rows and error objects are inputs, and
    so is `parseFloat`. */
module Csv {
  import opened Wrappers
  import Text

  /** A JavaScript number as `parseFloat` can return it. */
  datatype JsNumber = Finite(value: real) | NaN

  /** A cell of a parsed row: text, or `null`. A header with no cell is a
      key missing from the row (`undefined`). */
  datatype Cell = Str(text: string) | Null

  /** A raw row, keyed by header. */
  type Row = map<string, Cell>

  /** A value stored on a partial transaction: a string field, or the amount. */
  datatype FieldValue = StringField(s: string) | NumberField(n: JsNumber)

  /** `Partial<Transaction>`: a field absent from the map is `undefined`. */
  type PartialTransaction = map<string, FieldValue>

  /** Any JavaScript value, as the error list of the CSV library may hold it. */
  datatype JsValue =
    | Undefined
    | JsNull
    | Bool(b: bool)
    | Number(n: JsNumber)
    | JsString(s: string)
    | Object(props: map<string, JsValue>)

  /** What the `complete` callback settles the promise with. */
  datatype ParseOutcome =
    | Rejected(message: string)
    | Resolved(data: seq<PartialTransaction>, errors: seq<JsValue>)

  /** The headers every file must carry, in their fixed order. */
  const CsvHeaders: seq<string> := ["transaction_id", "date", "amount", "account", "category", "vendor", "policy_code"]

  /** `CSV_HEADERS.filter(h => !presentHeaders.includes(h))`, over any list `hs`. */
  function MissingFrom(hs: seq<string>, present: seq<string>): seq<string> {
    if hs == [] then []
    else MissingFrom(hs[..|hs| - 1], present) + (if hs[|hs| - 1] !in present then [hs[|hs| - 1]] else [])
  }

  /** The required headers absent from the parsed header row. */
  function MissingHeaders(present: seq<string>): seq<string> {
    MissingFrom(CsvHeaders, present)
  }

  /** `xs.join(sep)`. */
  function Join(xs: seq<string>, sep: string): string {
    if xs == [] then ""
    else if |xs| == 1 then xs[0]
    else Join(xs[..|xs| - 1], sep) + sep + xs[|xs| - 1]
  }

  /** The text of the rejection for missing headers. */
  function MissingMessage(missing: seq<string>): string {
    "Missing required CSV headers: " + Join(missing, ", ")
  }

  /** `row[h] !== undefined && row[h] !== null && String(row[h]).trim() !== ""`. */
  predicate Present(row: Row, h: string) {
    h in row && row[h].Str? && Text.Trim(row[h].text) != ""
  }

  /** The value the mapping stores for a present header: `parseFloat` of the
      text for the amount, the trimmed text for every other header. */
  function Stored(row: Row, h: string, parseFloat: string -> JsNumber): FieldValue
    requires h in row && row[h].Str?
  {
    if h == "amount" then NumberField(parseFloat(row[h].text)) else StringField(Text.Trim(row[h].text))
  }

  /** The partial transaction a row maps to: the present headers, each with
      its stored value. */
  function Normalise(row: Row, parseFloat: string -> JsNumber): PartialTransaction {
    map h | h in CsvHeaders && Present(row, h) :: Stored(row, h, parseFloat)
  }

  /** JavaScript truthiness of a stored value. */
  predicate Truthy(v: FieldValue) {
    match v
    case StringField(s) => s != ""
    case NumberField(Finite(x)) => x != 0.0
    case NumberField(NaN) => false
  }

  /** The essential-field test: a truthy identifier, date and category, and
      an amount that is not `undefined` (a `NaN` amount passes). */
  predicate KeepRow(t: PartialTransaction) {
    && "transaction_id" in t && Truthy(t["transaction_id"])
    && "date" in t && Truthy(t["date"])
    && "amount" in t
    && "category" in t && Truthy(t["category"])
  }

  /** The result of the `map` callback: the partial transaction, or `null`
      for a row without its essential fields. */
  function RowResult(row: Row, parseFloat: string -> JsNumber): Option<PartialTransaction> {
    if KeepRow(Normalise(row, parseFloat)) then Some(Normalise(row, parseFloat)) else None
  }

  /** The results of the `map` callback, one per row. */
  function RowResults(rows: seq<Row>, parseFloat: string -> JsNumber): (r: seq<Option<PartialTransaction>>)
    ensures |r| == |rows|
    ensures forall i :: 0 <= i < |rows| ==> r[i] == RowResult(rows[i], parseFloat)
  {
    seq(|rows|, i requires 0 <= i < |rows| => RowResult(rows[i], parseFloat))
  }

  /** `.filter(item => item !== null)`: the present values, in order. */
  function Somes<T>(s: seq<Option<T>>): seq<T> {
    if s == [] then []
    else Somes(s[..|s| - 1]) + (if s[|s| - 1].Some? then [s[|s| - 1].value] else [])
  }

  /** `typedData`: the mapped rows without the `null`s, in input order. */
  function TypedData(rows: seq<Row>, parseFloat: string -> JsNumber): seq<PartialTransaction> {
    Somes(RowResults(rows, parseFloat))
  }

  /** `isCsvParseError`: an object whose `type`, `code` and `message` are
      strings and whose `row` is a number. Every other value, `null`,
      `undefined` and the primitives included, fails the guard. */
  predicate IsCsvParseError(e: JsValue) {
    && e.Object?
    && "type" in e.props && e.props["type"].JsString?
    && "code" in e.props && e.props["code"].JsString?
    && "message" in e.props && e.props["message"].JsString?
    && "row" in e.props && e.props["row"].Number?
  }

  /** `results.errors.filter(isCsvParseError)`. */
  function ForwardErrors(errors: seq<JsValue>): seq<JsValue> {
    if errors == [] then []
    else ForwardErrors(errors[..|errors| - 1]) + (if IsCsvParseError(errors[|errors| - 1]) then [errors[|errors| - 1]] else [])
  }

  /** The `complete` callback: reject when a required header is missing
      (`meta.fields` absent counts as no headers), otherwise resolve with the
      typed rows and the forwarded errors. */
  function Complete(fields: Option<seq<string>>, rows: seq<Row>, errors: seq<JsValue>,
                    parseFloat: string -> JsNumber): ParseOutcome
  {
    if MissingHeaders(fields.GetOr([])) != [] then Rejected(MissingMessage(MissingHeaders(fields.GetOr([]))))
    else Resolved(TypedData(rows, parseFloat), ForwardErrors(errors))
  }

  /** The `map` callback: build the partial transaction one header at a
      time, then return it or `null`. */
  method MapRow(row: Row, parseFloat: string -> JsNumber) returns (r: Option<PartialTransaction>)
    ensures r == RowResult(row, parseFloat)
  {
    var transaction: PartialTransaction := map[];
    for i := 0 to |CsvHeaders|
      invariant forall h :: h in transaction <==> h in CsvHeaders[..i] && Present(row, h)
      invariant forall h :: h in transaction ==> transaction[h] == Stored(row, h, parseFloat)
    {
      var header := CsvHeaders[i];
      if header in row && row[header].Str? && Text.Trim(row[header].text) != "" {
        if header == "amount" {
          transaction := transaction[header := NumberField(parseFloat(row[header].text))];
        } else if header == "policy_code" && Text.Trim(row[header].text) == "" {
          // the source leaves the policy code unset here
        } else {
          transaction := transaction[header := StringField(Text.Trim(row[header].text))];
        }
      }
    }
    assert CsvHeaders[..|CsvHeaders|] == CsvHeaders;
    assert transaction == Normalise(row, parseFloat);
    if !("transaction_id" in transaction && Truthy(transaction["transaction_id"]))
       || !("date" in transaction && Truthy(transaction["date"]))
       || "amount" !in transaction
       || !("category" in transaction && Truthy(transaction["category"]))
    {
      return None;
    }
    return Some(transaction);
  }

  /** `results.data.map(...).filter(item => item !== null)`. */
  method MapRows(rows: seq<Row>, parseFloat: string -> JsNumber) returns (typedData: seq<PartialTransaction>)
    ensures typedData == TypedData(rows, parseFloat)
  {
    ghost var results := RowResults(rows, parseFloat);
    typedData := [];
    for i := 0 to |rows|
      invariant typedData == Somes(results[..i])
    {
      assert results[..i + 1][..i] == results[..i];
      var item := MapRow(rows[i], parseFloat);
      if item.Some? {
        typedData := typedData + [item.value];
      }
    }
    assert results[..|rows|] == results;
  }

  /** The `complete` callback as the program runs it. */
  method OnComplete(fields: Option<seq<string>>, rows: seq<Row>, errors: seq<JsValue>,
                    parseFloat: string -> JsNumber) returns (outcome: ParseOutcome)
    ensures outcome == Complete(fields, rows, errors, parseFloat)
  {
    var presentHeaders := fields.GetOr([]);
    var missingHeaders := MissingHeaders(presentHeaders);
    if |missingHeaders| > 0 {
      return Rejected(MissingMessage(missingHeaders));
    }
    var typedData := MapRows(rows, parseFloat);
    outcome := Resolved(typedData, ForwardErrors(errors));
  }

  // Properties

  /** A header is reported missing exactly when it is required and absent. */
  lemma {:induction false} MissingFromMeaning(hs: seq<string>, present: seq<string>)
    ensures forall h :: h in MissingFrom(hs, present) <==> h in hs && h !in present
    ensures |MissingFrom(hs, present)| <= |hs|
    ensures MissingFrom(hs, present) == [] <==> forall h :: h in hs ==> h in present
  {
    if hs != [] {
      var p := hs[..|hs| - 1];
      MissingFromMeaning(p, present);
      assert hs == p + [hs[|hs| - 1]];
    }
  }

  /** The missing headers keep the required order: the headers missing
      from a concatenation are those missing from each part, in turn. */
  lemma {:induction false} MissingFromAppend(a: seq<string>, b: seq<string>, present: seq<string>)
    ensures MissingFrom(a + b, present) == MissingFrom(a, present) + MissingFrom(b, present)
  {
    if b == [] {
      assert a + b == a;
    } else {
      var q := b[..|b| - 1];
      MissingFromAppend(a, q, present);
      assert (a + b)[..|a + b| - 1] == a + q;
      assert (a + b)[|a + b| - 1] == b[|b| - 1];
    }
  }

  /** The callback rejects exactly when a required header is not among the
      parsed headers; when it resolves, every required header is present. */
  lemma CompleteRejectsIff(fields: Option<seq<string>>, rows: seq<Row>, errors: seq<JsValue>,
                           parseFloat: string -> JsNumber)
    ensures Complete(fields, rows, errors, parseFloat).Rejected?
        <==> exists h :: h in CsvHeaders && h !in fields.GetOr([])
    ensures fields.None? ==> Complete(fields, rows, errors, parseFloat).Rejected?
  {
    MissingFromMeaning(CsvHeaders, fields.GetOr([]));
    if fields.None? {
      assert "amount" in CsvHeaders;
    }
  }

  /** A header is on the partial transaction exactly when its cell is
      present; every field but the amount holds the trimmed text, which is
      non-empty and trimmed; the amount holds `parseFloat` of the raw text. */
  lemma NormaliseMeaning(row: Row, parseFloat: string -> JsNumber)
    ensures forall h :: h in Normalise(row, parseFloat) <==> h in CsvHeaders && Present(row, h)
    ensures forall h :: h in Normalise(row, parseFloat) && h != "amount" ==>
              && Normalise(row, parseFloat)[h] == StringField(Text.Trim(row[h].text))
              && Normalise(row, parseFloat)[h].s != ""
              && Text.Trim(Normalise(row, parseFloat)[h].s) == Normalise(row, parseFloat)[h].s
    ensures "amount" in Normalise(row, parseFloat) ==>
              Normalise(row, parseFloat)["amount"] == NumberField(parseFloat(row["amount"].text))
  {
    forall h | h in Normalise(row, parseFloat) && h != "amount"
      ensures Text.Trim(Normalise(row, parseFloat)[h].s) == Normalise(row, parseFloat)[h].s
    {
      Text.TrimIsTrimmed(row[h].text);
    }
  }

  /** The policy code is either absent or a non-empty trimmed string: a
      blank code is never stored, so the branch that would skip it is never
      taken. */
  lemma PolicyCodeNeverBlank(row: Row, parseFloat: string -> JsNumber)
    ensures "policy_code" !in Normalise(row, parseFloat)
         || (&& Normalise(row, parseFloat)["policy_code"].StringField?
             && Normalise(row, parseFloat)["policy_code"].s != ""
             && Text.Trim(Normalise(row, parseFloat)["policy_code"].s) == Normalise(row, parseFloat)["policy_code"].s)
  {
    NormaliseMeaning(row, parseFloat);
  }

  /** A row survives exactly when its identifier, date, amount and category
      cells are present, whatever `parseFloat` makes of the amount. */
  lemma KeepRowIff(row: Row, parseFloat: string -> JsNumber)
    ensures KeepRow(Normalise(row, parseFloat))
        <==> Present(row, "transaction_id") && Present(row, "date") && Present(row, "amount") && Present(row, "category")
  {
    NormaliseMeaning(row, parseFloat);
  }

  /** An amount that `parseFloat` cannot read does not drop the row: it is
      kept with a `NaN` amount. */
  lemma NaNAmountKept(row: Row, parseFloat: string -> JsNumber)
    requires Present(row, "transaction_id") && Present(row, "date") && Present(row, "amount") && Present(row, "category")
    requires parseFloat(row["amount"].text) == NaN
    ensures RowResult(row, parseFloat).Some?
    ensures RowResult(row, parseFloat).value["amount"] == NumberField(NaN)
  {
    KeepRowIff(row, parseFloat);
  }

  lemma {:induction false} SomesAppend<T>(a: seq<Option<T>>, b: seq<Option<T>>)
    ensures Somes(a + b) == Somes(a) + Somes(b)
  {
    if b != [] {
      var p := b[..|b| - 1];
      SomesAppend(a, p);
      assert (a + b)[..|a + b| - 1] == a + p;
    } else {
      assert a + b == a;
    }
  }

  lemma {:induction false} SomesMembers<T>(s: seq<Option<T>>)
    ensures forall x :: x in Somes(s) <==> Some(x) in s
    ensures |Somes(s)| <= |s|
  {
    if s != [] {
      var p := s[..|s| - 1];
      SomesMembers(p);
      assert s == p + [s[|s| - 1]];
    }
  }

  lemma RowResultsAppend(r1: seq<Row>, r2: seq<Row>, parseFloat: string -> JsNumber)
    ensures RowResults(r1 + r2, parseFloat) == RowResults(r1, parseFloat) + RowResults(r2, parseFloat)
  {
    var a := RowResults(r1 + r2, parseFloat);
    var b := RowResults(r1, parseFloat) + RowResults(r2, parseFloat);
    forall i | 0 <= i < |a| ensures a[i] == b[i] {
      if i < |r1| {
        assert (r1 + r2)[i] == r1[i];
      } else {
        assert (r1 + r2)[i] == r2[i - |r1|];
      }
    }
  }

  /** The typed rows of two batches of rows are those of the first followed
      by those of the second: dropping rows never reorders the others. */
  lemma TypedDataAppend(r1: seq<Row>, r2: seq<Row>, parseFloat: string -> JsNumber)
    ensures TypedData(r1 + r2, parseFloat) == TypedData(r1, parseFloat) + TypedData(r2, parseFloat)
  {
    RowResultsAppend(r1, r2, parseFloat);
    SomesAppend(RowResults(r1, parseFloat), RowResults(r2, parseFloat));
  }

  /** Every typed row is the mapping of an input row that has its essential
      fields, and every such input row yields one. */
  lemma TypedDataMembers(rows: seq<Row>, parseFloat: string -> JsNumber)
    ensures |TypedData(rows, parseFloat)| <= |rows|
    ensures forall t :: t in TypedData(rows, parseFloat) ==> exists r :: r in rows && RowResult(r, parseFloat) == Some(t)
    ensures forall r :: r in rows && KeepRow(Normalise(r, parseFloat)) ==> Normalise(r, parseFloat) in TypedData(rows, parseFloat)
  {
    var results := RowResults(rows, parseFloat);
    SomesMembers(results);
    forall t | t in TypedData(rows, parseFloat) ensures exists r :: r in rows && RowResult(r, parseFloat) == Some(t) {
      var i :| 0 <= i < |results| && results[i] == Some(t);
      assert rows[i] in rows;
    }
    forall r | r in rows && KeepRow(Normalise(r, parseFloat)) ensures Normalise(r, parseFloat) in TypedData(rows, parseFloat) {
      var i :| 0 <= i < |rows| && rows[i] == r;
      assert results[i] == Some(Normalise(r, parseFloat));
    }
  }

  /** The forwarded errors are exactly the inputs that pass the guard. */
  lemma {:induction false} ForwardErrorsMeaning(errors: seq<JsValue>)
    ensures forall e :: e in ForwardErrors(errors) <==> e in errors && IsCsvParseError(e)
    ensures |ForwardErrors(errors)| <= |errors|
  {
    if errors != [] {
      var p := errors[..|errors| - 1];
      ForwardErrorsMeaning(p);
      assert errors == p + [errors[|errors| - 1]];
    }
  }

  /** The guard keeps the input order: the errors forwarded from a
      concatenation are those forwarded from each part, in turn. */
  lemma {:induction false} ForwardErrorsAppend(a: seq<JsValue>, b: seq<JsValue>)
    ensures ForwardErrors(a + b) == ForwardErrors(a) + ForwardErrors(b)
  {
    if b == [] {
      assert a + b == a;
    } else {
      var q := b[..|b| - 1];
      ForwardErrorsAppend(a, q);
      assert (a + b)[..|a + b| - 1] == a + q;
      assert (a + b)[|a + b| - 1] == b[|b| - 1];
    }
  }
}
