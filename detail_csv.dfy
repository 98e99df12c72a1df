/**
 * Detail flattening: one row per round, 29 round columns followed by six
 * columns for each of the 18 hole slots. The same algorithm appears as
 * `convertDetailedDataToCSV` in content-script.js and in
 * src/utils/csvConverter.js.
 */
module DetailCsv {
  import opened JsValue
  import opened DateUtils
  import opened Runtime
  import opened Csv
  import opened Fill

  const ScorecardFields: seq<string> := [
    "courseName", "date", "strokes", "handicappedStrokes", "holesCompleted",
    "playerHandicap", "teeBox", "teeBoxRating", "teeBoxSlope",
    "holesPlayed", "fairwaysRecorded", "fairwaysHit", "fairwaysLeft", "fairwaysRight",
    "greensInRegulation", "greensRecorded", "putts", "scoreWithHandicap",
    "scoreWithoutHandicap", "meanPuttsPerHole", "holesUnderPar", "holesPar",
    "holesBogey", "holesOverBogey", "holesBirdie", "holesEagle",
    "holesDoubleEagleOrUnder", "upsAndDowns", "chips"]

  const HoleFields: seq<string> := ["number", "par", "strokes", "handicapScore", "putts", "fairwayShotOutcome"]

  const HoleSlots: nat := 18

  // ---- Hole slots ----

  /** The six entries of hole slots 1..m, slot by slot, field by field. */
  function Grid<T>(m: nat, cell: (nat, string) -> T): (r: seq<T>)
    ensures |r| == |HoleFields| * m
  {
    if m == 0 then [] else Grid(m - 1, cell) + seq(|HoleFields|, k requires 0 <= k < |HoleFields| => cell(m, HoleFields[k]))
  }

  /** The first j entries of hole slot n. */
  function Slot<T>(n: nat, cell: (nat, string) -> T, j: nat): (r: seq<T>)
    requires j <= |HoleFields|
    ensures |r| == j
  {
    seq(j, i requires 0 <= i < j => cell(n, HoleFields[i]))
  }

  lemma SlotNext<T>(n: nat, cell: (nat, string) -> T, j: nat)
    requires j < |HoleFields|
    ensures Slot(n, cell, j + 1) == Slot(n, cell, j) + [cell(n, HoleFields[j])]
  {
  }

  /** The grid of m slots is that of m - 1 slots followed by all of slot m. */
  lemma GridNext<T>(m: nat, cell: (nat, string) -> T)
    requires m >= 1
    ensures Grid(m, cell) == Grid(m - 1, cell) + Slot(m, cell, |HoleFields|)
  {
  }

  /** Entry 6(n-1)+k of the grid belongs to hole slot n and hole field k. */
  lemma {:induction false} GridAt<T>(m: nat, cell: (nat, string) -> T, n: nat, k: nat)
    requires 1 <= n <= m && k < |HoleFields|
    ensures Grid(m, cell)[|HoleFields| * (n - 1) + k] == cell(n, HoleFields[k])
  {
    if n < m {
      GridAt(m - 1, cell, n, k);
    }
  }

  /** `hole${holeNum}_${field}` */
  function HoleColumn(n: nat, f: string): string {
    "hole" + NatToString(n) + "_" + f
  }

  /** The header names: the round fields, then `hole{n}_{f}` for every slot and hole field. */
  function Columns(): seq<string> {
    ScorecardFields + Grid(HoleSlots, HoleColumn)
  }

  // ---- The hole map ----

  /** The property key `holeMap[hole.number]` writes. */
  function HoleKey(hole: Value): string {
    ToString(Get(hole, "number"))
  }

  /** The holes `scorecard.holes` contributes: a truthy array's elements, otherwise none. */
  function HolesOf(holes: Value): seq<Value> {
    if Truthy(holes) && holes.Arr? then holes.items else []
  }

  /** `holes.forEach(hole => { holeMap[hole.number] = hole; })` */
  function HoleMap(holes: seq<Value>): Result<map<string, Value>> {
    FillFrom(map[], holes, Always, HoleKey, TheHole)
  }

  /** The value stored for a hole: the hole itself. */
  function TheHole(hole: Value): Result<Value> {
    Ok(hole)
  }

  // ---- Field resolution ----

  /** `sc.scorecardStats.round[field]`, or a falsy value where a link of the chain is missing. */
  function StatsValue(sc: Value, f: string): Value {
    Get(Get(Get(sc, "scorecardStats"), "round"), f)
  }

  /** A round column: the date stamp, the joined course name, a truthy stats value, or the scorecard's own field. */
  function ScorecardValue(env: Env, sc: Value, scorecard: Value, f: string): Value {
    if f == "date" then
      var start := Get(scorecard, "startTime");
      if Truthy(start) then Str(FormatDateOf(env, start)) else Empty
    else if f == "courseName" then Get(sc, "courseName")
    else if Truthy(StatsValue(sc, f)) then StatsValue(sc, f)
    else Or(Get(scorecard, f), Empty)
  }

  /** A hole column: par from a truthy `sc.holePars[n-1]`, otherwise the hole's field or `''`. */
  function HoleValue(sc: Value, holeMap: map<string, Value>, n: nat, f: string): Value {
    var holeData := Or(MapGet(holeMap, NatToString(n)), Obj([]));
    var pars := Get(sc, "holePars");
    if f == "par" && Truthy(pars) && Truthy(At(pars, n - 1)) then At(pars, n - 1)
    else Or(Get(holeData, f), Empty)
  }

  function ScorecardCells(env: Env, sc: Value, scorecard: Value): (r: seq<Value>)
    ensures |r| == |ScorecardFields|
  {
    seq(|ScorecardFields|, k requires 0 <= k < |ScorecardFields| => ScorecardValue(env, sc, scorecard, ScorecardFields[k]))
  }

  function HoleCells(sc: Value, holeMap: map<string, Value>): seq<Value> {
    Grid(HoleSlots, (n, f) => HoleValue(sc, holeMap, n, f))
  }

  /** The values of one round's row before escaping, or the exception reading it raises. */
  function RawRow(env: Env, sc: Value): Result<seq<Value>> {
    var scorecard :- Prop(sc, "scorecard");
    var holes :- Prop(scorecard, "holes");
    var holeMap :- HoleMap(HolesOf(holes));
    Ok(ScorecardCells(env, sc, scorecard) + HoleCells(sc, holeMap))
  }

  function RawRows(env: Env, scs: seq<Value>): Result<seq<seq<Value>>> {
    if scs == [] then Ok([])
    else
      var row :- RawRow(env, scs[0]);
      var rest :- RawRows(env, scs[1..]);
      Ok([row] + rest)
  }

  /** The CSV text the converter returns; `forEach` needs an array. */
  function Output(env: Env, detailedData: Value): Result<string> {
    var scs :- ForEachItems(detailedData);
    var raws :- RawRows(env, scs);
    Ok(Document(Columns(), raws))
  }

  // ---- The converter ----

  /** The header loop: the round fields, then for each hole slot the six hole columns. */
  method BuildHeader() returns (headerRow: seq<string>)
    ensures headerRow == Columns()
  {
    headerRow := ScorecardFields;
    var holeNum := 1;
    while holeNum <= HoleSlots
      invariant 1 <= holeNum <= HoleSlots + 1
      invariant headerRow == ScorecardFields + Grid(holeNum - 1, HoleColumn)
    {
      var k := 0;
      while k < |HoleFields|
        invariant 0 <= k <= |HoleFields|
        invariant headerRow == ScorecardFields + Grid(holeNum - 1, HoleColumn) + Slot(holeNum, HoleColumn, k)
      {
        SlotNext(holeNum, HoleColumn, k);
        headerRow := headerRow + [HoleColumn(holeNum, HoleFields[k])];
        k := k + 1;
      }
      GridNext(holeNum, HoleColumn);
      holeNum := holeNum + 1;
    }
  }

  /** The `row.push` loop over the round fields, each value escaped. */
  method ScorecardRow(env: Env, sc: Value, scorecard: Value) returns (row: seq<Value>)
    ensures row == EscapeAll(ScorecardCells(env, sc, scorecard))
  {
    ghost var cells := ScorecardCells(env, sc, scorecard);
    row := [];
    var k := 0;
    while k < |ScorecardFields|
      invariant 0 <= k <= |ScorecardFields|
      invariant row == EscapeAll(cells[..k])
    {
      row := row + [Escape(ScorecardValue(env, sc, scorecard, ScorecardFields[k]))];
      TakeNext(cells, k);
      EscapeAllAppend(cells[..k], [cells[k]]);
      k := k + 1;
    }
    assert cells[..k] == cells;
  }

  /** The `row.push` loops over the hole slots and, inside, the hole fields, each value escaped. */
  method HoleRow(sc: Value, holeMap: map<string, Value>) returns (row: seq<Value>)
    ensures row == EscapeAll(HoleCells(sc, holeMap))
  {
    ghost var cell := (n: nat, f: string) => HoleValue(sc, holeMap, n, f);
    row := [];
    var holeNum := 1;
    while holeNum <= HoleSlots
      invariant 1 <= holeNum <= HoleSlots + 1
      invariant row == EscapeAll(Grid(holeNum - 1, cell))
    {
      var j := 0;
      while j < |HoleFields|
        invariant 0 <= j <= |HoleFields|
        invariant row == EscapeAll(Grid(holeNum - 1, cell)) + EscapeAll(Slot(holeNum, cell, j))
      {
        SlotNext(holeNum, cell, j);
        EscapeAllAppend(Slot(holeNum, cell, j), [cell(holeNum, HoleFields[j])]);
        row := row + [Escape(HoleValue(sc, holeMap, holeNum, HoleFields[j]))];
        j := j + 1;
      }
      GridNext(holeNum, cell);
      EscapeAllAppend(Grid(holeNum - 1, cell), Slot(holeNum, cell, |HoleFields|));
      holeNum := holeNum + 1;
    }
  }

  /**
   * The converter: the header line, then for each round its escaped row
   * joined by `,` and a line feed.
   */
  method ConvertDetailedDataToCsv(env: Env, detailedData: Value) returns (r: Result<string>)
    ensures r == Output(env, detailedData)
  {
    var headerRow := BuildHeader();
    var csv := JoinStrings(headerRow, ",") + "\n";
    DocumentEmpty(headerRow);
    var scs :- ForEachItems(detailedData);
    ghost var done: seq<seq<Value>> := [];
    var i := 0;
    assert scs[0..] == scs;
    assert RawRows(env, scs).Ok? ==> [] + RawRows(env, scs).value == RawRows(env, scs).value;
    while i < |scs|
      invariant 0 <= i <= |scs|
      invariant RawRows(env, scs) == Prepend(done, RawRows(env, scs[i..]))
      invariant csv == Document(headerRow, done)
    {
      var sc := scs[i];
      assert scs[i..][1..] == scs[i + 1..];
      if Nullish(sc) {
        return Throw(TypeError);
      }
      var scorecard := Get(sc, "scorecard");
      if Nullish(scorecard) {
        return Throw(TypeError);
      }
      var holes := HolesOf(Get(scorecard, "holes"));
      var holeMap :- FillMap(holes, Always, HoleKey, TheHole);
      var row := ScorecardRow(env, sc, scorecard);
      var holeRow := HoleRow(sc, holeMap);
      row := row + holeRow;
      ghost var raw := ScorecardCells(env, sc, scorecard) + HoleCells(sc, holeMap);
      EscapeAllAppend(ScorecardCells(env, sc, scorecard), HoleCells(sc, holeMap));
      assert RawRow(env, sc) == Ok(raw);
      RawRowsStep(env, scs, i, done, raw);
      DocumentAppend(headerRow, done, raw);
      csv := csv + JoinValues(row, ",") + "\n";
      done := done + [raw];
      i := i + 1;
    }
    assert scs[i..] == [];
    assert done + [] == done;
    return Ok(csv);
  }

  lemma RawRowsStep(env: Env, scs: seq<Value>, i: nat, done: seq<seq<Value>>, raw: seq<Value>)
    requires i < |scs| && RawRow(env, scs[i]) == Ok(raw)
    requires RawRows(env, scs) == Prepend(done, RawRows(env, scs[i..]))
    ensures RawRows(env, scs) == Prepend(done + [raw], RawRows(env, scs[i + 1..]))
  {
    assert scs[i..][1..] == scs[i + 1..];
    var rest := RawRows(env, scs[i + 1..]);
    if rest.Ok? {
      assert done + ([raw] + rest.value) == done + [raw] + rest.value;
    }
  }

  // ---- Properties ----

  /**
   * The header has 29 + 18 x 6 = 137 columns: the round fields in order,
   * then slot n's six columns at 29 + 6(n-1), named `hole{n}_{field}`.
   */
  lemma ColumnsShape()
    ensures |Columns()| == 137
    ensures Columns()[..|ScorecardFields|] == ScorecardFields
    ensures forall n: nat, k: nat :: 1 <= n <= HoleSlots && k < |HoleFields| ==>
      Columns()[|ScorecardFields| + |HoleFields| * (n - 1) + k] == HoleColumn(n, HoleFields[k])
  {
    forall n: nat, k: nat | 1 <= n <= HoleSlots && k < |HoleFields|
      ensures Columns()[|ScorecardFields| + |HoleFields| * (n - 1) + k] == HoleColumn(n, HoleFields[k])
    {
      GridAt(HoleSlots, HoleColumn, n, k);
    }
  }

  /**
   * Every row has as many values as the header has columns, whatever holes
   * are present, and the value under `hole{n}_{field}` is hole slot n's
   * field, taken from the hole map built from `scorecard.holes`.
   */
  lemma RawRowShape(env: Env, sc: Value)
    requires RawRow(env, sc).Ok?
    ensures var raw := RawRow(env, sc).value;
      var scorecard := Get(sc, "scorecard");
      var holeMap := HoleMap(HolesOf(Get(scorecard, "holes"))).value;
      && |raw| == |Columns()|
      && (forall k :: 0 <= k < |ScorecardFields| ==> raw[k] == ScorecardValue(env, sc, scorecard, ScorecardFields[k]))
      && (forall n: nat, k: nat :: 1 <= n <= HoleSlots && k < |HoleFields| ==>
            raw[|ScorecardFields| + |HoleFields| * (n - 1) + k] == HoleValue(sc, holeMap, n, HoleFields[k]))
  {
    var scorecard := Get(sc, "scorecard");
    var holeMap := HoleMap(HolesOf(Get(scorecard, "holes"))).value;
    var cell := (n: nat, f: string) => HoleValue(sc, holeMap, n, f);
    ColumnsShape();
    forall n: nat, k: nat | 1 <= n <= HoleSlots && k < |HoleFields|
      ensures HoleCells(sc, holeMap)[|HoleFields| * (n - 1) + k] == HoleValue(sc, holeMap, n, HoleFields[k])
    {
      GridAt(HoleSlots, cell, n, k);
    }
  }

  /**
   * Holes are indexed by the string form of their `number`: the map holds a
   * key exactly when some hole's number renders as it, and with duplicate
   * numbers the last hole wins.
   */
  lemma HoleMapLookup(holes: seq<Value>, key: string)
    ensures HoleMap(holes).Ok? <==> forall j :: 0 <= j < |holes| ==> !Nullish(holes[j])
    ensures HoleMap(holes).Ok? ==> (key in HoleMap(holes).value <==> exists j :: 0 <= j < |holes| && HoleKey(holes[j]) == key)
    ensures forall j :: 0 <= j < |holes| && HoleKey(holes[j]) == key && (forall j' :: j < j' < |holes| ==> HoleKey(holes[j']) != key) ==>
      HoleMap(holes).Ok? ==> MapGet(HoleMap(holes).value, key) == holes[j]
  {
    FillOkIff(map[], holes, Always, HoleKey, TheHole);
    if HoleMap(holes).Ok? {
      FillKeys(map[], holes, Always, HoleKey, TheHole, key);
      forall j | 0 <= j < |holes| && HoleKey(holes[j]) == key && (forall j' :: j < j' < |holes| ==> HoleKey(holes[j']) != key)
        ensures MapGet(HoleMap(holes).value, key) == holes[j]
      {
        FillLast(map[], holes, Always, HoleKey, TheHole, j);
      }
    }
  }

  /**
   * Field resolution for a round column: `date` is the date stamp of a
   * truthy `scorecard.startTime` and empty otherwise, `courseName` is always
   * `sc.courseName`, and any other field takes a truthy stats value in
   * preference to the scorecard's own field, then `''`.
   */
  lemma ScorecardPrecedence(env: Env, sc: Value, scorecard: Value, f: string)
    ensures f == "date" ==> (ElemText(ScorecardValue(env, sc, scorecard, f)) ==
      if Truthy(Get(scorecard, "startTime")) then FormatDateOrNaN(env.localDate(Get(scorecard, "startTime"))) else "")
    ensures f == "courseName" ==> ScorecardValue(env, sc, scorecard, f) == Get(sc, "courseName")
    ensures f != "date" && f != "courseName" && Truthy(StatsValue(sc, f)) ==> ScorecardValue(env, sc, scorecard, f) == StatsValue(sc, f)
    ensures f != "date" && f != "courseName" && !Truthy(StatsValue(sc, f)) ==>
      ElemText(ScorecardValue(env, sc, scorecard, f)) == (if Truthy(Get(scorecard, f)) then ToString(Get(scorecard, f)) else "")
  {
  }

  /**
   * A hole column: par comes from a truthy `holePars[n-1]` in preference to
   * the hole record; any other field, or par without one, is the hole's own
   * field or `''`; and a slot no hole fills shows `''` except for such a par.
   */
  lemma HoleValueCases(sc: Value, holeMap: map<string, Value>, n: nat, f: string)
    ensures var pars := Get(sc, "holePars");
      f == "par" && Truthy(pars) && Truthy(At(pars, n - 1)) ==> HoleValue(sc, holeMap, n, f) == At(pars, n - 1)
    ensures var pars := Get(sc, "holePars");
      !(f == "par" && Truthy(pars) && Truthy(At(pars, n - 1))) && Truthy(MapGet(holeMap, NatToString(n))) ==>
        HoleValue(sc, holeMap, n, f) == Or(Get(holeMap[NatToString(n)], f), Empty)
    ensures var pars := Get(sc, "holePars");
      !(f == "par" && Truthy(pars) && Truthy(At(pars, n - 1))) && NatToString(n) !in holeMap ==>
        HoleValue(sc, holeMap, n, f) == Empty
  {
  }

  /**
   * The converter throws exactly when the input is not an array, or some
   * round is `undefined` or `null`, has no scorecard, or lists an
   * `undefined` or `null` hole.
   */
  lemma {:induction false} RawRowsIff(env: Env, scs: seq<Value>)
    ensures RawRows(env, scs).Ok? <==> forall i :: 0 <= i < |scs| ==> RowReadable(scs[i])
    ensures RawRows(env, scs).Ok? ==>
      |RawRows(env, scs).value| == |scs|
      && forall i :: 0 <= i < |scs| ==> RawRow(env, scs[i]) == Ok(RawRows(env, scs).value[i])
  {
    if scs != [] {
      RowReadableIff(env, scs[0]);
      RawRowsIff(env, scs[1..]);
      assert forall i :: 1 <= i < |scs| ==> scs[i] == scs[1..][i - 1];
      if RawRows(env, scs).Ok? {
        var row, rest := RawRow(env, scs[0]), RawRows(env, scs[1..]);
        assert RawRows(env, scs).value == [row.value] + rest.value;
        forall i | 0 <= i < |scs| ensures RawRow(env, scs[i]) == Ok(RawRows(env, scs).value[i]) {
          if i > 0 {
            assert RawRow(env, scs[i]) == Ok(rest.value[i - 1]);
          }
        }
      }
    }
  }

  /** A round whose row can be read: neither it nor its scorecard nor any listed hole is `undefined` or `null`. */
  predicate RowReadable(sc: Value) {
    && !Nullish(sc)
    && !Nullish(Get(sc, "scorecard"))
    && var holes := HolesOf(Get(Get(sc, "scorecard"), "holes"));
       forall j :: 0 <= j < |holes| ==> !Nullish(holes[j])
  }

  lemma RowReadableIff(env: Env, sc: Value)
    ensures RawRow(env, sc).Ok? <==> RowReadable(sc)
  {
    if !Nullish(sc) && !Nullish(Get(sc, "scorecard")) {
      HoleMapLookup(HolesOf(Get(Get(sc, "scorecard"), "holes")), "");
    }
  }

  lemma OutputThrowsIff(env: Env, detailedData: Value)
    ensures Output(env, detailedData).Throw? <==>
      !detailedData.Arr? || exists i :: 0 <= i < |detailedData.items| && !RowReadable(detailedData.items[i])
  {
    if detailedData.Arr? {
      RawRowsIff(env, detailedData.items);
    }
  }

  /** No column name holds a comma, a quote or a line feed. */
  lemma FieldsPlain()
    ensures PlainNames(ScorecardFields) && PlainNames(HoleFields)
  {
    RoundFieldsPlain();
    TeeFieldsPlain();
    FairwayFieldsPlain();
    GreenFieldsPlain();
    ScoreFieldsPlain();
    ParCountFieldsPlain();
    OtherCountFieldsPlain();
    PlainNamesAppend(["courseName", "date", "strokes", "handicappedStrokes", "holesCompleted"],
      ["playerHandicap", "teeBox", "teeBoxRating", "teeBoxSlope"]);
    PlainNamesAppend(["courseName", "date", "strokes", "handicappedStrokes", "holesCompleted"]
      + ["playerHandicap", "teeBox", "teeBoxRating", "teeBoxSlope"],
      ["holesPlayed", "fairwaysRecorded", "fairwaysHit", "fairwaysLeft", "fairwaysRight"]);
    PlainNamesAppend(["courseName", "date", "strokes", "handicappedStrokes", "holesCompleted"]
      + ["playerHandicap", "teeBox", "teeBoxRating", "teeBoxSlope"]
      + ["holesPlayed", "fairwaysRecorded", "fairwaysHit", "fairwaysLeft", "fairwaysRight"],
      ["greensInRegulation", "greensRecorded", "putts"]);
    PlainNamesAppend(["courseName", "date", "strokes", "handicappedStrokes", "holesCompleted"]
      + ["playerHandicap", "teeBox", "teeBoxRating", "teeBoxSlope"]
      + ["holesPlayed", "fairwaysRecorded", "fairwaysHit", "fairwaysLeft", "fairwaysRight"]
      + ["greensInRegulation", "greensRecorded", "putts"],
      ["scoreWithHandicap", "scoreWithoutHandicap", "meanPuttsPerHole"]);
    PlainNamesAppend(["courseName", "date", "strokes", "handicappedStrokes", "holesCompleted"]
      + ["playerHandicap", "teeBox", "teeBoxRating", "teeBoxSlope"]
      + ["holesPlayed", "fairwaysRecorded", "fairwaysHit", "fairwaysLeft", "fairwaysRight"]
      + ["greensInRegulation", "greensRecorded", "putts"]
      + ["scoreWithHandicap", "scoreWithoutHandicap", "meanPuttsPerHole"],
      ["holesUnderPar", "holesPar", "holesBogey", "holesOverBogey"]);
    PlainNamesAppend(["courseName", "date", "strokes", "handicappedStrokes", "holesCompleted"]
      + ["playerHandicap", "teeBox", "teeBoxRating", "teeBoxSlope"]
      + ["holesPlayed", "fairwaysRecorded", "fairwaysHit", "fairwaysLeft", "fairwaysRight"]
      + ["greensInRegulation", "greensRecorded", "putts"]
      + ["scoreWithHandicap", "scoreWithoutHandicap", "meanPuttsPerHole"]
      + ["holesUnderPar", "holesPar", "holesBogey", "holesOverBogey"],
      ["holesBirdie", "holesEagle", "holesDoubleEagleOrUnder", "upsAndDowns", "chips"]);
    assert ScorecardFields == ["courseName", "date", "strokes", "handicappedStrokes", "holesCompleted"]
      + ["playerHandicap", "teeBox", "teeBoxRating", "teeBoxSlope"]
      + ["holesPlayed", "fairwaysRecorded", "fairwaysHit", "fairwaysLeft", "fairwaysRight"]
      + ["greensInRegulation", "greensRecorded", "putts"]
      + ["scoreWithHandicap", "scoreWithoutHandicap", "meanPuttsPerHole"]
      + ["holesUnderPar", "holesPar", "holesBogey", "holesOverBogey"]
      + ["holesBirdie", "holesEagle", "holesDoubleEagleOrUnder", "upsAndDowns", "chips"];
    HoleFieldsPlain();
  }

  lemma RoundFieldsPlain() ensures PlainNames(["courseName", "date", "strokes", "handicappedStrokes", "holesCompleted"]) {
    PlainFive("courseName", "date", "strokes", "handicappedStrokes", "holesCompleted");
  }

  lemma TeeFieldsPlain() ensures PlainNames(["playerHandicap", "teeBox", "teeBoxRating", "teeBoxSlope"]) {
    PlainFour("playerHandicap", "teeBox", "teeBoxRating", "teeBoxSlope");
  }

  lemma FairwayFieldsPlain() ensures PlainNames(["holesPlayed", "fairwaysRecorded", "fairwaysHit", "fairwaysLeft", "fairwaysRight"]) {
    PlainFive("holesPlayed", "fairwaysRecorded", "fairwaysHit", "fairwaysLeft", "fairwaysRight");
  }

  lemma GreenFieldsPlain() ensures PlainNames(["greensInRegulation", "greensRecorded", "putts"]) {
    PlainThree("greensInRegulation", "greensRecorded", "putts");
  }

  lemma ScoreFieldsPlain() ensures PlainNames(["scoreWithHandicap", "scoreWithoutHandicap", "meanPuttsPerHole"]) {
    PlainThree("scoreWithHandicap", "scoreWithoutHandicap", "meanPuttsPerHole");
  }

  lemma ParCountFieldsPlain() ensures PlainNames(["holesUnderPar", "holesPar", "holesBogey", "holesOverBogey"]) {
    PlainFour("holesUnderPar", "holesPar", "holesBogey", "holesOverBogey");
  }

  lemma OtherCountFieldsPlain() ensures PlainNames(["holesBirdie", "holesEagle", "holesDoubleEagleOrUnder", "upsAndDowns", "chips"]) {
    PlainFive("holesBirdie", "holesEagle", "holesDoubleEagleOrUnder", "upsAndDowns", "chips");
  }

  lemma HoleFieldsPlain()
    ensures PlainNames(HoleFields)
  {
    HolePlayFieldsPlain();
    HoleResultFieldsPlain();
    PlainNamesAppend(["number", "par", "strokes"], ["handicapScore", "putts", "fairwayShotOutcome"]);
    assert HoleFields == ["number", "par", "strokes"] + ["handicapScore", "putts", "fairwayShotOutcome"];
  }

  lemma HolePlayFieldsPlain() ensures PlainNames(["number", "par", "strokes"]) {
    PlainThree("number", "par", "strokes");
  }

  lemma HoleResultFieldsPlain() ensures PlainNames(["handicapScore", "putts", "fairwayShotOutcome"]) {
    PlainThree("handicapScore", "putts", "fairwayShotOutcome");
  }

  lemma HoleColumnPlain(n: nat, f: string)
    requires ',' !in f && '"' !in f && '\n' !in f
    ensures var c := HoleColumn(n, f); ',' !in c && '"' !in c && '\n' !in c
  {
    var d := NatToString(n);
    var c := HoleColumn(n, f);
    forall i | 0 <= i < |c| ensures c[i] != ',' && c[i] != '"' && c[i] != '\n' {
      if 4 <= i < 4 + |d| {
        assert c[i] == d[i - 4];
      } else if i >= 5 + |d| {
        assert c[i] == f[i - 5 - |d|];
      }
    }
  }

  lemma {:induction false} GridPlain(m: nat)
    ensures PlainNames(Grid(m, HoleColumn))
  {
    if m > 0 {
      GridPlain(m - 1);
      HoleFieldsPlain();
      var g, row := Grid(m - 1, HoleColumn), seq(|HoleFields|, k requires 0 <= k < |HoleFields| => HoleColumn(m, HoleFields[k]));
      assert Grid(m, HoleColumn) == g + row;
      forall k | 0 <= k < |row| ensures ',' !in row[k] && '"' !in row[k] && '\n' !in row[k] {
        HoleColumnPlain(m, HoleFields[k]);
      }
      PlainNamesAppend(g, row);
    }
  }

  /** A header name holds no comma, quote or line feed. */
  lemma ColumnsPlain()
    ensures |Columns()| > 0 && PlainNames(Columns())
  {
    FieldsPlain();
    GridPlain(HoleSlots);
    PlainNamesAppend(ScorecardFields, Grid(HoleSlots, HoleColumn));
  }

  /**
   * Read back line by line and field by field, the output is the 137
   * header names, then one record per round in input order holding the texts
   * of that round's values, then the empty line after the final line feed.
   */
  lemma OutputReadsBack(env: Env, detailedData: Value)
    requires Output(env, detailedData).Ok?
    requires PlainRows(RawRows(env, detailedData.items).value)
    ensures var scs := detailedData.items;
      var lines := Split(Output(env, detailedData).value, '\n');
      && |lines| == |scs| + 2
      && ParseRecord(lines[0]) == Columns()
      && (forall i :: 0 <= i < |scs| ==> RawRow(env, scs[i]).Ok? && ParseRecord(lines[i + 1]) == Texts(RawRow(env, scs[i]).value))
      && lines[|scs| + 1] == ""
  {
    var raws := RawRows(env, detailedData.items).value;
    RawRowsIff(env, detailedData.items);
    assert Output(env, detailedData).value == Document(Columns(), raws);
    ColumnsPlain();
    ReadBackTerminated(Columns(), raws);
  }
}
