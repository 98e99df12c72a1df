/**
 * Summary flattening: one eight-column row per round summary. The same
 * algorithm appears as `convertToCSV` in content-script.js and as
 * `convertSummaryToCSV` in src/utils/csvConverter.js; the two differ only in
 * whether the date stamp and the escape are written inline.
 */
module SummaryCsv {
  import opened JsValue
  import opened DateUtils
  import opened Runtime
  import opened Csv

  const Fields: seq<string> := [
    "courseName", "strokes", "holesCompleted", "startTime", "endTime",
    "handicappedStrokes", "scoreWithHandicap", "scoreWithoutHandicap"]

  predicate IsDateField(f: string) {
    f == "startTime" || f == "endTime"
  }

  /** `summary[field] || ''`, replaced by its date stamp for a truthy start or end time. */
  function FieldValue(env: Env, summary: Value, f: string): Value {
    var value := Or(Get(summary, f), Empty);
    if IsDateField(f) && Truthy(value) then Str(FormatDateOf(env, value)) else value
  }

  /** The values of one summary's row before escaping; reading a field of `undefined` or `null` throws. */
  function RawRow(env: Env, summary: Value): (r: Result<seq<Value>>)
    ensures r.Throw? <==> Nullish(summary)
    ensures r.Ok? ==> |r.value| == |Fields| && forall k :: 0 <= k < |Fields| ==> r.value[k] == FieldValue(env, summary, Fields[k])
  {
    if Nullish(summary) then Throw(TypeError)
    else Ok(seq(|Fields|, k requires 0 <= k < |Fields| => FieldValue(env, summary, Fields[k])))
  }

  /** The summaries the converter visits: `scorecardSummaries` when it is a truthy array, otherwise none. */
  function Summaries(jsonData: Value): (r: Result<seq<Value>>)
    ensures r.Throw? <==> Nullish(jsonData)
  {
    var list :- Prop(jsonData, "scorecardSummaries");
    Ok(if Truthy(list) && list.Arr? then list.items else [])
  }

  /** The raw rows of all summaries in order, or the exception the first `undefined` or `null` summary raises. */
  function RawRows(env: Env, items: seq<Value>): Result<seq<seq<Value>>> {
    if items == [] then Ok([])
    else
      var row :- RawRow(env, items[0]);
      var rest :- RawRows(env, items[1..]);
      Ok([row] + rest)
  }

  /** The CSV text the converter returns. */
  function Output(env: Env, jsonData: Value): Result<string> {
    var items :- Summaries(jsonData);
    var raws :- RawRows(env, items);
    Ok(Document(Fields, raws))
  }

  /**
   * The converter: the header and a line feed, then, for each summary,
   * the escaped row joined by `,` and a line feed.
   */
  method ConvertSummaryToCsv(env: Env, jsonData: Value) returns (r: Result<string>)
    ensures r == Output(env, jsonData)
  {
    var list :- Prop(jsonData, "scorecardSummaries");
    if Truthy(list) && list.Arr? {
      assert Summaries(jsonData) == Ok(list.items);
      r := WriteRows(env, list.items);
    } else {
      assert Summaries(jsonData) == Ok([]);
      assert RawRows(env, []) == Ok([]);
      DocumentEmpty(Fields);
      r := Ok(JoinStrings(Fields, ",") + "\n");
    }
  }

  /** The header, then the loop over the summaries. */
  method WriteRows(env: Env, items: seq<Value>) returns (r: Result<string>)
    ensures RawRows(env, items).Ok? ==> r == Ok(Document(Fields, RawRows(env, items).value))
    ensures RawRows(env, items).Throw? ==> r == Throw(RawRows(env, items).error)
  {
    var csv := JoinStrings(Fields, ",") + "\n";
    DocumentEmpty(Fields);
    ghost var done: seq<seq<Value>> := [];
    var i := 0;
    assert items[0..] == items;
    PrependNothing(RawRows(env, items));
    while i < |items|
      invariant 0 <= i <= |items|
      invariant RawRows(env, items) == Prepend(done, RawRows(env, items[i..]))
      invariant csv == Document(Fields, done)
    {
      var summary := items[i];
      if Nullish(summary) {
        assert items[i..][0] == summary;
        return Throw(TypeError);
      }
      var raw := RawRow(env, summary).value;
      RawRowsStep(env, items, i, done);
      DocumentAppend(Fields, done, raw);
      csv := csv + Line(EscapeAll(raw)) + "\n";
      done := done + [raw];
      i := i + 1;
    }
    assert items[i..] == [];
    assert done + [] == done;
    return Ok(csv);
  }

  lemma RawRowsStep(env: Env, items: seq<Value>, i: nat, done: seq<seq<Value>>)
    requires i < |items| && !Nullish(items[i])
    requires RawRows(env, items) == Prepend(done, RawRows(env, items[i..]))
    ensures RawRows(env, items) == Prepend(done + [RawRow(env, items[i]).value], RawRows(env, items[i + 1..]))
  {
    assert items[i..][1..] == items[i + 1..];
    var rest := RawRows(env, items[i + 1..]);
    if rest.Ok? {
      assert done + ([RawRow(env, items[i]).value] + rest.value) == done + [RawRow(env, items[i]).value] + rest.value;
    }
  }

  // ---- Properties ----

  /** All summaries yield rows exactly when none of them is `undefined` or `null`; then row i is summary i's. */
  lemma {:induction false} RawRowsIff(env: Env, items: seq<Value>)
    ensures RawRows(env, items).Ok? <==> forall i :: 0 <= i < |items| ==> !Nullish(items[i])
    ensures RawRows(env, items).Ok? ==>
      |RawRows(env, items).value| == |items|
      && forall i :: 0 <= i < |items| ==> RawRows(env, items).value[i] == RawRow(env, items[i]).value
  {
    if items != [] {
      RawRowsIff(env, items[1..]);
      assert forall i :: 1 <= i < |items| ==> items[i] == items[1..][i - 1];
    }
  }

  /** A missing, falsy or non-array collection gives the header line alone. */
  lemma NoSummaries(env: Env, jsonData: Value)
    requires !Nullish(jsonData)
    requires var list := Get(jsonData, "scorecardSummaries"); !(Truthy(list) && list.Arr?)
    ensures Output(env, jsonData) == Ok(JoinStrings(Fields, ",") + "\n")
  {
    assert Summaries(jsonData) == Ok([]);
    assert RawRows(env, []) == Ok([]);
    DocumentEmpty(Fields);
  }

  /**
   * The converter throws exactly when the input itself, or one of the
   * summaries it visits, is `undefined` or `null`.
   */
  lemma OutputThrowsIff(env: Env, jsonData: Value)
    ensures Output(env, jsonData).Throw? <==>
      Nullish(jsonData) || exists i :: 0 <= i < |Summaries(jsonData).value| && Nullish(Summaries(jsonData).value[i])
  {
    if !Nullish(jsonData) {
      RawRowsIff(env, Summaries(jsonData).value);
    }
  }

  /**
   * What a cell shows: empty for a falsy field, the field's own text
   * otherwise, except that a truthy start or end time shows its date stamp.
   */
  lemma FieldText(env: Env, summary: Value, f: string)
    ensures !Truthy(Get(summary, f)) ==> ElemText(FieldValue(env, summary, f)) == ""
    ensures Truthy(Get(summary, f)) && !IsDateField(f) ==> ElemText(FieldValue(env, summary, f)) == ToString(Get(summary, f))
    ensures Truthy(Get(summary, f)) && IsDateField(f) ==>
      ElemText(FieldValue(env, summary, f)) == FormatDateOrNaN(env.localDate(Get(summary, f)))
  {
  }

  /** A field whose own value is plain yields a plain cell: a date stamp is plain whatever the date. */
  lemma FieldValuePlain(env: Env, summary: Value, f: string)
    requires Plain(Get(summary, f))
    ensures Plain(FieldValue(env, summary, f))
  {
    var value := Or(Get(summary, f), Empty);
    if IsDateField(f) && Truthy(value) {
      FormatDatePlain(env.localDate(value));
    }
  }

  lemma FieldsPlain()
    ensures |Fields| > 0 && PlainNames(Fields)
  {
    RoundFieldsPlain();
    ScoreFieldsPlain();
    PlainNamesAppend(["courseName", "strokes", "holesCompleted", "startTime"],
      ["endTime", "handicappedStrokes", "scoreWithHandicap", "scoreWithoutHandicap"]);
    assert Fields == ["courseName", "strokes", "holesCompleted", "startTime"]
      + ["endTime", "handicappedStrokes", "scoreWithHandicap", "scoreWithoutHandicap"];
  }

  lemma RoundFieldsPlain() ensures PlainNames(["courseName", "strokes", "holesCompleted", "startTime"]) {
    PlainFour("courseName", "strokes", "holesCompleted", "startTime");
  }

  lemma ScoreFieldsPlain() ensures PlainNames(["endTime", "handicappedStrokes", "scoreWithHandicap", "scoreWithoutHandicap"]) {
    PlainFour("endTime", "handicappedStrokes", "scoreWithHandicap", "scoreWithoutHandicap");
  }

  /** Every field of every summary has a value whose text reads back unchanged. */
  predicate PlainSummaries(items: seq<Value>) {
    forall i, k :: 0 <= i < |items| && 0 <= k < |Fields| ==> Plain(Get(items[i], Fields[k]))
  }

  /**
   * Read back line by line and field by field, the output is the eight
   * header names, then one eight-field record per summary in input order
   * holding the texts of that summary's cells, then the empty line after the
   * final line feed.
   */
  lemma OutputReadsBack(env: Env, jsonData: Value)
    requires Output(env, jsonData).Ok?
    requires PlainSummaries(Summaries(jsonData).value)
    ensures var items := Summaries(jsonData).value;
      var lines := Split(Output(env, jsonData).value, '\n');
      && |lines| == |items| + 2
      && ParseRecord(lines[0]) == Fields
      && (forall i :: 0 <= i < |items| ==> ParseRecord(lines[i + 1]) == CellTexts(env, items[i]))
      && lines[|items| + 1] == ""
  {
    var items := Summaries(jsonData).value;
    RawRowsIff(env, items);
    var raws := RawRows(env, items).value;
    RawRowsPlain(env, items);
    FieldsPlain();
    ReadBackTerminated(Fields, raws);
    forall i | 0 <= i < |items| ensures Texts(raws[i]) == CellTexts(env, items[i]) {
    }
  }

  /** Plain fields give plain cells. */
  lemma RawRowsPlain(env: Env, items: seq<Value>)
    requires RawRows(env, items).Ok? && PlainSummaries(items)
    ensures PlainRows(RawRows(env, items).value)
  {
    RawRowsIff(env, items);
    var raws := RawRows(env, items).value;
    forall i, k | 0 <= i < |raws| && 0 <= k < |raws[i]| ensures Plain(raws[i][k]) {
      FieldValuePlain(env, items[i], Fields[k]);
    }
  }

  /** The texts of a summary's eight cells. */
  function CellTexts(env: Env, summary: Value): (r: seq<string>)
    ensures |r| == |Fields|
    ensures forall k :: 0 <= k < |Fields| ==> r[k] == ElemText(FieldValue(env, summary, Fields[k]))
  {
    seq(|Fields|, k requires 0 <= k < |Fields| => ElemText(FieldValue(env, summary, Fields[k])))
  }
}
