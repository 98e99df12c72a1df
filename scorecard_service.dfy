/**
 * `convertScorecardDataToCSV` and `downloadScorecardData` of
 * src/services/scorecardService.js. This copy resolves a stats value with
 * `!== undefined` rather than truthiness, joins its rows with line feeds, and
 * builds both its hole columns and its hole values with `Array(18).flatMap`,
 * whose callback never runs on the empty slots of `Array(18)`.
 */
module ScorecardService {
  import opened JsValue
  import opened DateUtils
  import opened Runtime
  import opened Csv
  import opened Fill
  import DetailCsv

  const ScorecardFields: seq<string> := [
    "courseName", "date", "holesPlayed", "fairwaysRecorded", "greensInRegulation",
    "putts", "strokes", "strokesRecorded", "totalScore", "totalPar", "totalDistance",
    "fairwaysHitPct", "girPct", "avgPutts", "avgScore", "avgScoreToPar"]

  const HoleFields: seq<string> := [
    "holeNumber", "par", "strokes", "putts", "fairwayShotOutcome",
    "fairwayPosition", "approachShotOutcome", "approachShotLie",
    "chipShotOutcome", "chipShotLie", "sandShotOutcome", "sandShotLie",
    "puttShotOutcome"]

  // ---- Sparse arrays ----

  /** A slot of a JavaScript array: `Empty` is a slot of a sparse array that was never assigned. */
  datatype Slot = EmptySlot | Present(v: Value)

  /** `Array(n)`: n empty slots. */
  function SparseArray(n: nat): (r: seq<Slot>)
    ensures |r| == n && forall i :: 0 <= i < n ==> r[i] == EmptySlot
  {
    seq(n, _ => EmptySlot)
  }

  /** `slots.flatMap(f)`: the callback runs, with the slot's index, on the assigned slots only. */
  function FlatMap<T>(slots: seq<Slot>, f: (Value, nat) -> seq<T>): seq<T>
    decreases |slots|
  {
    if slots == [] then []
    else
      var last := |slots| - 1;
      FlatMap(slots[..last], f) + match slots[last] case EmptySlot => [] case Present(v) => f(v, last)
  }

  /** `flatMap` over `Array(n)` yields nothing, whatever the callback. */
  lemma {:induction false} FlatMapSparse<T>(n: nat, f: (Value, nat) -> seq<T>)
    ensures FlatMap(SparseArray(n), f) == []
  {
    if n > 0 {
      assert SparseArray(n)[..n - 1] == SparseArray(n - 1);
      FlatMapSparse(n - 1, f);
    }
  }

  /** `flatMap` over an array whose every slot is assigned yields the callback's results slot by slot. */
  lemma {:induction false} FlatMapDense<T>(slots: seq<Slot>, f: (Value, nat) -> seq<T>, m: nat)
    requires forall i :: 0 <= i < |slots| ==> slots[i].Present?
    requires forall i :: 0 <= i < |slots| ==> |f(slots[i].v, i)| == m
    ensures |FlatMap(slots, f)| == m * |slots|
    decreases |slots|
  {
    if slots != [] {
      FlatMapDense(slots[..|slots| - 1], f, m);
    }
  }

  // ---- Header ----

  /** The thirteen `hole{i+1}_{field}` names the header callback would give slot i. */
  function HoleHeader(slot: Value, i: nat): seq<string> {
    seq(|HoleFields|, k requires 0 <= k < |HoleFields| => DetailCsv.HoleColumn(i + 1, HoleFields[k]))
  }

  /** `[...scorecardFields, ...Array(18).flatMap(...)]` */
  function Columns(): seq<string> {
    ScorecardFields + FlatMap(SparseArray(18), HoleHeader)
  }

  /** The header has the round fields and no hole column at all. */
  lemma ColumnsNoHoles()
    ensures Columns() == ScorecardFields
  {
    FlatMapSparse(18, HoleHeader);
  }

  // ---- Values ----

  /** `hole.holeNumber`, the value itself being the `Map` key. */
  function HoleNumber(hole: Value): Value {
    Get(hole, "holeNumber")
  }

  /** `sc.holes.forEach(hole => holeMap.set(hole.holeNumber, hole))` */
  function HoleMap(holes: seq<Value>): Result<map<Value, Value>> {
    FillFrom(map[], holes, Always, HoleNumber, DetailCsv.TheHole)
  }

  /** The text before the first `T`: `split('T')[0]`. */
  function BeforeT(s: string): (r: string)
    ensures |r| <= |s| && r == s[..|r|] && 'T' !in r
    ensures |r| < |s| ==> s[|r|] == 'T'
  {
    if s == [] || s[0] == 'T' then "" else [s[0]] + BeforeT(s[1..])
  }

  /** `sc.scoreCardStats.round[field]` when the stats and their `round` are truthy and the value is not `undefined`. */
  function StatsValue(sc: Value, f: string): Option<Value> {
    var stats := Get(sc, "scoreCardStats");
    if Truthy(stats) && Truthy(Get(stats, "round")) && !Get(Get(stats, "round"), f).Undef? then Some(Get(Get(stats, "round"), f))
    else None
  }

  /** A round column other than `date`: the defined stats value, or the scorecard's own field or `''`. */
  function FieldValue(sc: Value, f: string): Value {
    match StatsValue(sc, f)
    case Some(v) => v
    case None => Or(Get(sc, f), Empty)
  }

  /** The value the round-field callback returns: `date` is the `YYYY-MM-DD` part of the start time's ISO text. */
  function ScorecardValue(env: Env, sc: Value, f: string): Result<Value> {
    if f == "date" then
      var iso :- IsoOf(env, Get(sc, "startTime"));
      Ok(Str(BeforeT(iso)))
    else Ok(FieldValue(sc, f))
  }

  /** The round values, in field order. */
  function ScorecardValues(env: Env, sc: Value): (r: Result<seq<Value>>)
    ensures r.Ok? <==> IsoOf(env, Get(sc, "startTime")).Ok?
    ensures r.Ok? ==> |r.value| == |ScorecardFields|
    ensures r.Ok? ==> forall k :: 0 <= k < |ScorecardFields| ==> ScorecardValue(env, sc, ScorecardFields[k]) == Ok(r.value[k])
  {
    var iso :- IsoOf(env, Get(sc, "startTime"));
    Ok(seq(|ScorecardFields|, k requires 0 <= k < |ScorecardFields| =>
      if ScorecardFields[k] == "date" then Str(BeforeT(iso)) else FieldValue(sc, ScorecardFields[k])))
  }

  /**
   * The thirteen values the hole callback would give a slot. Its parameter
   * `i` is the slot's element, not its index, so `i + 1` names a hole only
   * for a numeric element (`undefined + 1` is NaN); a hole it does not find
   * is `{}`, whose fields are all `''`.
   */
  function HoleSlot(holeMap: map<Value, Value>, i: Value): (r: seq<Value>)
    ensures |r| == |HoleFields|
  {
    var hole := if i.Num? then Or(MapGet(holeMap, Num(i.n + 1)), Obj([])) else Obj([]);
    seq(|HoleFields|, k requires 0 <= k < |HoleFields| => Or(Get(hole, HoleFields[k]), Empty))
  }

  function HoleCallback(holeMap: map<Value, Value>): (Value, nat) -> seq<Value> {
    (i: Value, index: nat) => HoleSlot(holeMap, i)
  }

  /** `Array(18).flatMap(...)` over the hole map. */
  function HoleValues(holeMap: map<Value, Value>): seq<Value> {
    FlatMap(SparseArray(18), HoleCallback(holeMap))
  }

  /** Were every slot assigned, each would give thirteen values. */
  lemma HoleCallbackWidth(holeMap: map<Value, Value>, slots: seq<Slot>)
    requires forall i :: 0 <= i < |slots| ==> slots[i].Present?
    ensures |FlatMap(slots, HoleCallback(holeMap))| == |HoleFields| * |slots|
  {
    FlatMapDense(slots, HoleCallback(holeMap), |HoleFields|);
  }

  /** The row has no hole values at all, whatever the holes. */
  lemma HoleValuesEmpty(holeMap: map<Value, Value>)
    ensures HoleValues(holeMap) == []
  {
    FlatMapSparse(18, HoleCallback(holeMap));
  }

  /** One scorecard's values before escaping: `sc.holes` must be an array of holes. */
  function RawRow(env: Env, sc: Value): Result<seq<Value>> {
    var holes :- Prop(sc, "holes");
    var items :- ForEachItems(holes);
    var holeMap :- HoleMap(items);
    var scorecardValues :- ScorecardValues(env, sc);
    Ok(scorecardValues + HoleValues(holeMap))
  }

  function RawRows(env: Env, scs: seq<Value>): Result<seq<seq<Value>>>
    decreases |scs|
  {
    if scs == [] then Ok([])
    else
      var row :- RawRow(env, scs[0]);
      var rest :- RawRows(env, scs[1..]);
      Ok([row] + rest)
  }

  /** The converter: the header line, then the escaped rows joined by line feeds. */
  function ConvertScorecardDataToCsv(env: Env, detailedData: Value): Result<string> {
    var scs :- ForEachItems(detailedData);
    var raws :- RawRows(env, scs);
    Ok(Joined(Columns(), raws))
  }

  /** The row callback, with `holeMap` filled in place. */
  method ScorecardRow(env: Env, sc: Value) returns (r: Result<seq<Value>>)
    ensures r == RawRow(env, sc)
  {
    var holes :- Prop(sc, "holes");
    var items :- ForEachItems(holes);
    var holeMap :- FillMap(items, Always, HoleNumber, DetailCsv.TheHole);
    var scorecardValues :- ScorecardValues(env, sc);
    r := Ok(scorecardValues + HoleValues(holeMap));
  }

  // ---- Download ----

  /** The detail bodies, one per scorecard in order: reading `sc.id` throws on `undefined` and `null`. */
  function Details(fetchDetail: Value -> Response, scorecards: seq<Value>): Result<seq<Value>>
    decreases |scorecards|
  {
    if scorecards == [] then Ok([])
    else
      var id :- Prop(scorecards[0], "id");
      var detail :- BodyOf(fetchDetail(id));
      var rest :- Details(fetchDetail, scorecards[1..]);
      Ok([detail] + rest)
  }

  /** `downloadScorecardData`: the summary's `scorecards`, one detail fetch per scorecard, then the converter; errors are rethrown. */
  function ScorecardDownload(env: Env, summaryResponse: Response, fetchDetail: Value -> Response, now: DateParts): Result<Export> {
    var summaryData :- BodyOf(summaryResponse);
    var list :- Prop(summaryData, "scorecards");
    var scorecards :- ForOfItems(list);
    var detailedData :- Details(fetchDetail, scorecards);
    var csv :- ConvertScorecardDataToCsv(env, Arr(detailedData));
    Ok(Export(csv, DateStampedFilename("garmin_golf_scorecards", now)))
  }

  lemma DetailsStep(fetchDetail: Value -> Response, scorecards: seq<Value>, i: nat, done: seq<Value>)
    requires i < |scorecards| && !Nullish(scorecards[i]) && fetchDetail(Get(scorecards[i], "id")).Reply?
    requires Details(fetchDetail, scorecards) == PrependValues(done, Details(fetchDetail, scorecards[i..]))
    ensures Details(fetchDetail, scorecards)
      == PrependValues(done + [fetchDetail(Get(scorecards[i], "id")).body], Details(fetchDetail, scorecards[i + 1..]))
  {
    assert scorecards[i..][0] == scorecards[i];
    assert scorecards[i..][1..] == scorecards[i + 1..];
    var rest := Details(fetchDetail, scorecards[i + 1..]);
    var detail := fetchDetail(Get(scorecards[i], "id")).body;
    if rest.Ok? {
      assert done + ([detail] + rest.value) == done + [detail] + rest.value;
    }
  }

  /** `done` placed in front of the remaining values, or their exception. */
  function PrependValues(done: seq<Value>, r: Result<seq<Value>>): Result<seq<Value>> {
    if r.Ok? then Ok(done + r.value) else r
  }

  /** The `for (const sc of scorecards)` loop that fetches and pushes each detail. */
  method FetchDetails(fetchDetail: Value -> Response, scorecards: seq<Value>) returns (r: Result<seq<Value>>)
    ensures r == Details(fetchDetail, scorecards)
  {
    var detailedData: seq<Value> := [];
    assert scorecards[0..] == scorecards;
    assert Details(fetchDetail, scorecards).Ok? ==> [] + Details(fetchDetail, scorecards).value == Details(fetchDetail, scorecards).value;
    var i := 0;
    while i < |scorecards|
      invariant 0 <= i <= |scorecards|
      invariant Details(fetchDetail, scorecards) == PrependValues(detailedData, Details(fetchDetail, scorecards[i..]))
    {
      var sc := scorecards[i];
      assert scorecards[i..][0] == sc && scorecards[i..][1..] == scorecards[i + 1..];
      if Nullish(sc) {
        return Throw(TypeError);
      }
      var response := fetchDetail(Get(sc, "id"));
      if response.Rejected? {
        return Throw(TypeError);
      }
      DetailsStep(fetchDetail, scorecards, i, detailedData);
      detailedData := detailedData + [response.body];
      i := i + 1;
    }
    assert scorecards[i..] == [];
    assert detailedData + [] == detailedData;
    return Ok(detailedData);
  }

  method DownloadScorecardData(env: Env, summaryResponse: Response, fetchDetail: Value -> Response, now: DateParts) returns (r: Result<Export>)
    ensures r == ScorecardDownload(env, summaryResponse, fetchDetail, now)
  {
    var summaryData :- BodyOf(summaryResponse);
    var list :- Prop(summaryData, "scorecards");
    var scorecards :- ForOfItems(list);
    var detailedData :- FetchDetails(fetchDetail, scorecards);
    var csv :- ConvertScorecardDataToCsv(env, Arr(detailedData));
    return Ok(Export(csv, DateStampedFilename("garmin_golf_scorecards", now)));
  }

  // ---- Properties ----

  lemma RawRowsStep(env: Env, scs: seq<Value>, i: nat, done: seq<seq<Value>>)
    requires i < |scs| && RawRow(env, scs[i]).Ok?
    requires RawRows(env, scs) == Prepend(done, RawRows(env, scs[i..]))
    ensures RawRows(env, scs) == Prepend(done + [RawRow(env, scs[i]).value], RawRows(env, scs[i + 1..]))
  {
    assert scs[i..][0] == scs[i];
    assert scs[i..][1..] == scs[i + 1..];
    var rest := RawRows(env, scs[i + 1..]);
    if rest.Ok? {
      assert done + ([RawRow(env, scs[i]).value] + rest.value) == done + [RawRow(env, scs[i]).value] + rest.value;
    }
  }

  /**
   * A scorecard yields a row exactly when its `holes` is an array of holes
   * none of which is `undefined` or `null`, and its start time converts;
   * the row then has the sixteen round values and nothing else.
   */
  lemma RawRowIff(env: Env, sc: Value)
    ensures RawRow(env, sc).Ok? <==>
      !Nullish(sc) && Get(sc, "holes").Arr?
      && (forall j :: 0 <= j < |Get(sc, "holes").items| ==> !Nullish(Get(sc, "holes").items[j]))
      && IsoOf(env, Get(sc, "startTime")).Ok?
    ensures RawRow(env, sc).Ok? ==> RawRow(env, sc).value == ScorecardValues(env, sc).value
  {
    if !Nullish(sc) && Get(sc, "holes").Arr? {
      var items := Get(sc, "holes").items;
      FillOkIff(map[], items, Always, HoleNumber, DetailCsv.TheHole);
      if HoleMap(items).Ok? {
        HoleValuesEmpty(HoleMap(items).value);
      }
    }
  }

  /** Every scorecard yields a row exactly when the converter succeeds on them all; row i is scorecard i's. */
  lemma {:induction false} RawRowsIff(env: Env, scs: seq<Value>)
    ensures RawRows(env, scs).Ok? <==> forall i :: 0 <= i < |scs| ==> RawRow(env, scs[i]).Ok?
    ensures RawRows(env, scs).Ok? ==>
      |RawRows(env, scs).value| == |scs|
      && forall i :: 0 <= i < |scs| ==> RawRows(env, scs).value[i] == RawRow(env, scs[i]).value
    decreases |scs|
  {
    if scs != [] {
      RawRowsIff(env, scs[1..]);
      assert forall i :: 1 <= i < |scs| ==> scs[i] == scs[1..][i - 1];
    }
  }

  /** The `date` column is the ISO text up to its first `T`; an `undefined` start time throws a RangeError. */
  lemma DateValue(env: Env, sc: Value)
    ensures Get(sc, "startTime").Undef? ==> ScorecardValue(env, sc, "date") == Throw(RangeError)
    ensures IsoOf(env, Get(sc, "startTime")).Ok? ==>
      var iso := IsoOf(env, Get(sc, "startTime")).value;
      exists rest :: ScorecardValue(env, sc, "date") == Ok(Str(BeforeT(iso))) && iso == BeforeT(iso) + rest
        && (rest == [] || rest[0] == 'T')
  {
    if IsoOf(env, Get(sc, "startTime")).Ok? {
      var iso := IsoOf(env, Get(sc, "startTime")).value;
      var b := BeforeT(iso);
      assert iso == b + iso[|b|..];
    }
  }

  /** An ISO instant `YYYY-MM-DDTHH:...` gives its `YYYY-MM-DD` part. */
  lemma {:induction false} BeforeTOfIso(day: string, time: string)
    requires 'T' !in day
    ensures BeforeT(day + "T" + time) == day
    decreases |day|
  {
    if day != [] {
      assert (day + "T" + time)[1..] == day[1..] + "T" + time;
      BeforeTOfIso(day[1..], time);
    }
  }

  /**
   * A round statistic wins over the scorecard's own field whenever it is
   * defined, even when it is `0`, `false`, `null` or `''`; otherwise the
   * field is used, with `''` for a falsy one.
   */
  lemma StatsPrecedence(sc: Value, f: string)
    requires f != "date"
    ensures var stats := Get(sc, "scoreCardStats"); var round := Get(stats, "round");
      && (Truthy(stats) && Truthy(round) && !Get(round, f).Undef? ==> FieldValue(sc, f) == Get(round, f))
      && (!(Truthy(stats) && Truthy(round)) || Get(round, f).Undef? ==> FieldValue(sc, f) == Or(Get(sc, f), Empty))
  {
  }

  lemma ZeroStatKept(sc: Value, f: string)
    requires Truthy(Get(sc, "scoreCardStats")) && Truthy(Get(Get(sc, "scoreCardStats"), "round"))
    requires Get(Get(Get(sc, "scoreCardStats"), "round"), f) == Num(0)
    requires Truthy(Get(sc, f))
    ensures FieldValue(sc, f) == Num(0) && FieldValue(sc, f) != Get(sc, f)
  {
  }

  /** The header names contain no comma, quote or line feed. */
  lemma ScorecardFieldsPlain()
    ensures |ScorecardFields| > 0 && PlainNames(ScorecardFields)
  {
    FirstFieldsPlain();
    SecondFieldsPlain();
    PlainNamesAppend(["courseName", "date", "holesPlayed", "fairwaysRecorded", "greensInRegulation", "putts", "strokes", "strokesRecorded"],
      ["totalScore", "totalPar", "totalDistance", "fairwaysHitPct", "girPct", "avgPutts", "avgScore", "avgScoreToPar"]);
    assert ScorecardFields == ["courseName", "date", "holesPlayed", "fairwaysRecorded", "greensInRegulation", "putts", "strokes", "strokesRecorded"]
      + ["totalScore", "totalPar", "totalDistance", "fairwaysHitPct", "girPct", "avgPutts", "avgScore", "avgScoreToPar"];
  }

  lemma FirstFieldsPlain()
    ensures PlainNames(["courseName", "date", "holesPlayed", "fairwaysRecorded", "greensInRegulation", "putts", "strokes", "strokesRecorded"])
  {
    PlainFour("courseName", "date", "holesPlayed", "fairwaysRecorded");
    PlainFour("greensInRegulation", "putts", "strokes", "strokesRecorded");
    PlainNamesAppend(["courseName", "date", "holesPlayed", "fairwaysRecorded"], ["greensInRegulation", "putts", "strokes", "strokesRecorded"]);
    assert ["courseName", "date", "holesPlayed", "fairwaysRecorded"] + ["greensInRegulation", "putts", "strokes", "strokesRecorded"]
      == ["courseName", "date", "holesPlayed", "fairwaysRecorded", "greensInRegulation", "putts", "strokes", "strokesRecorded"];
  }

  lemma SecondFieldsPlain()
    ensures PlainNames(["totalScore", "totalPar", "totalDistance", "fairwaysHitPct", "girPct", "avgPutts", "avgScore", "avgScoreToPar"])
  {
    PlainFour("totalScore", "totalPar", "totalDistance", "fairwaysHitPct");
    PlainFour("girPct", "avgPutts", "avgScore", "avgScoreToPar");
    PlainNamesAppend(["totalScore", "totalPar", "totalDistance", "fairwaysHitPct"], ["girPct", "avgPutts", "avgScore", "avgScoreToPar"]);
    assert ["totalScore", "totalPar", "totalDistance", "fairwaysHitPct"] + ["girPct", "avgPutts", "avgScore", "avgScoreToPar"]
      == ["totalScore", "totalPar", "totalDistance", "fairwaysHitPct", "girPct", "avgPutts", "avgScore", "avgScoreToPar"];
  }

  /** An empty list of scorecards gives the header line alone. */
  lemma NoScorecards(env: Env)
    ensures ConvertScorecardDataToCsv(env, Arr([])) == Ok(JoinStrings(ScorecardFields, ",") + "\n")
  {
    ColumnsNoHoles();
    DocumentEmpty(ScorecardFields);
  }

  /** Anything but an array has no `map` method. */
  lemma NotAnArrayThrows(env: Env, detailedData: Value)
    requires !detailedData.Arr?
    ensures ConvertScorecardDataToCsv(env, detailedData) == Throw(TypeError)
  {
  }

  /**
   * Read back line by line and field by field, a non-empty output is the
   * sixteen header names, then one record per scorecard in input order
   * holding the texts of its row, which `RawRowIff` shows to be its sixteen
   * round values; no empty line
   * follows the last record, since rows are joined rather than terminated.
   */
  lemma OutputReadsBack(env: Env, scs: seq<Value>, csv: string)
    requires scs != [] && forall i :: 0 <= i < |scs| ==> Readable(env, scs[i])
    requires ConvertScorecardDataToCsv(env, Arr(scs)) == Ok(csv)
    ensures var lines := Split(csv, '\n');
      && |lines| == |scs| + 1
      && ParseRecord(lines[0]) == ScorecardFields
      && (forall i :: 0 <= i < |scs| ==> ParseRecord(lines[i + 1]) == Texts(RowCells(env, scs[i])))
  {
    RawRowsIff(env, scs);
    var raws := RawRows(env, scs).value;
    OutputJoined(env, scs);
    ScorecardFieldsPlain();
    ReadBackSeparated(ScorecardFields, raws);
  }

  /** A scorecard's row, or no cells when the row throws. */
  function RowCells(env: Env, sc: Value): seq<Value> {
    match RawRow(env, sc)
    case Ok(row) => row
    case Throw(_) => []
  }

  /** A scorecard that yields a row of values whose texts read back unchanged. */
  predicate Readable(env: Env, sc: Value) {
    RawRow(env, sc).Ok? && |RowCells(env, sc)| > 0 && forall k :: 0 <= k < |RowCells(env, sc)| ==> Plain(RowCells(env, sc)[k])
  }

  /** The converter's output on a list of scorecards is the header above their rows joined. */
  lemma OutputJoined(env: Env, scs: seq<Value>)
    ensures RawRows(env, scs).Ok? ==> ConvertScorecardDataToCsv(env, Arr(scs)) == Ok(Joined(ScorecardFields, RawRows(env, scs).value))
    ensures RawRows(env, scs).Throw? ==> ConvertScorecardDataToCsv(env, Arr(scs)).Throw?
  {
    ColumnsNoHoles();
  }

  /** Collecting finishes exactly when every scorecard can be read and its fetch settles; detail i is the body of scorecard i's response. */
  lemma {:induction false} DetailsIff(fetchDetail: Value -> Response, scorecards: seq<Value>)
    ensures Details(fetchDetail, scorecards).Ok? <==>
      forall i :: 0 <= i < |scorecards| ==> !Nullish(scorecards[i]) && fetchDetail(Get(scorecards[i], "id")).Reply?
    ensures Details(fetchDetail, scorecards).Ok? ==>
      |Details(fetchDetail, scorecards).value| == |scorecards|
      && forall i :: 0 <= i < |scorecards| ==> Details(fetchDetail, scorecards).value[i] == fetchDetail(Get(scorecards[i], "id")).body
    decreases |scorecards|
  {
    if scorecards != [] {
      DetailsIff(fetchDetail, scorecards[1..]);
      assert forall i :: 1 <= i < |scorecards| ==> scorecards[i] == scorecards[1..][i - 1];
    }
  }

  /** A summary without a `scorecards` array or string fails the download with a TypeError. */
  lemma NoScorecardListThrows(env: Env, summaryResponse: Response, fetchDetail: Value -> Response, now: DateParts)
    requires summaryResponse.Reply?
    requires var list := Get(summaryResponse.body, "scorecards"); !list.Arr? && !list.Str?
    ensures ScorecardDownload(env, summaryResponse, fetchDetail, now) == Throw(TypeError)
  {
  }
}
