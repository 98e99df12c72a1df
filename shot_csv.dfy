/**
 * `convertShotDataToCSV` of src/utils/csvConverter.js: one fourteen-column
 * row per shot of one round, with the round's course, club names and hole
 * scores passed in as lookup objects.
 */
module ShotCsv {
  import opened JsValue
  import opened Runtime
  import opened Csv
  import opened ShotWalk

  /** `shot[loc]?.[part] || ''` */
  function Located(shot: Value, loc: string, part: string): Result<Value> {
    var l :- Prop(shot, loc);
    Ok(Or(Get(l, part), Empty))
  }

  /** The value the converter's switch picks for one column. */
  function Pick(env: Env, courseInfoMap: Value, clubIdToNameMap: Value, holeNumber: Value, holeScore: Value, shot: Value, f: string): Result<Value> {
    match LocationOf(f)
    case Some((loc, part)) => Located(shot, loc, part)
    case None =>
      if f == "courseName" then Prop(courseInfoMap, "courseName")
      else if f == "holeNumber" then Ok(holeNumber)
      else if f == "holeScore" then Ok(holeScore)
      else if f == "clubType" then
        var clubId :- Prop(shot, "clubId");
        var name :- Prop(clubIdToNameMap, ToString(clubId));
        Ok(Or(name, Empty))
      else if f == "yards" then
        var meters :- Prop(shot, "meters");
        Ok(if Truthy(meters) then Str(env.yards(meters)) else Empty)
      else
        var value :- Prop(shot, f);
        Ok(Or(value, Empty))
  }

  /** One cell before escaping: the picked value, with the shot time converted. */
  function Cell(env: Env, courseInfoMap: Value, clubIdToNameMap: Value, holeNumber: Value, holeScore: Value, shot: Value, f: string): Result<Value> {
    var value :- Pick(env, courseInfoMap, clubIdToNameMap, holeNumber, holeScore, shot, f);
    ConvertShotTime(env, f, value)
  }

  function CellsOf(env: Env, courseInfoMap: Value, clubIdToNameMap: Value): CellFn {
    (holeNumber: Value, holeScore: Value, shot: Value) =>
      (f: string) => Cell(env, courseInfoMap, clubIdToNameMap, holeNumber, holeScore, shot, f)
  }

  /** `holeScores[holeNumber] || ''`, which throws when the lookup object is `undefined` or `null`. */
  function ScoreOf(holeScores: Value): ScoreFn {
    (holeNumber: Value) => (var score :- Prop(holeScores, ToString(holeNumber)); Ok(Or(score, Empty)))
  }

  /** The holes the converter visits: `shotData.holeShots` when it is a truthy array. */
  function Holes(shotData: Value): (r: Result<seq<Value>>)
    ensures r.Throw? <==> Nullish(shotData)
  {
    var holeShots :- Prop(shotData, "holeShots");
    Ok(ArrayIfTruthy(holeShots))
  }

  function Output(env: Env, shotData: Value, courseInfoMap: Value, clubIdToNameMap: Value, holeScores: Value): Result<string> {
    var holes :- Holes(shotData);
    ShotDocument(ShotFields(), CellsOf(env, courseInfoMap, clubIdToNameMap), ScoreOf(holeScores), holes)
  }

  // ---- The converter ----

  /** The converter: the header line, then for every hole and every shot in it, the shot's escaped row. */
  method ConvertShotDataToCsv(env: Env, shotData: Value, courseInfoMap: Value, clubIdToNameMap: Value, holeScores: Value)
    returns (r: Result<string>)
    ensures r == Output(env, shotData, courseInfoMap, clubIdToNameMap, holeScores)
  {
    if Nullish(shotData) {
      return Throw(TypeError);
    }
    var holeShots := Get(shotData, "holeShots");
    OutputOf(env, shotData, courseInfoMap, clubIdToNameMap, holeScores);
    r := WriteShots(ShotFields(), CellsOf(env, courseInfoMap, clubIdToNameMap), ScoreOf(holeScores), holeShots);
  }

  lemma OutputOf(env: Env, shotData: Value, courseInfoMap: Value, clubIdToNameMap: Value, holeScores: Value)
    requires !Nullish(shotData)
    ensures Output(env, shotData, courseInfoMap, clubIdToNameMap, holeScores)
      == ShotDocument(ShotFields(), CellsOf(env, courseInfoMap, clubIdToNameMap), ScoreOf(holeScores), ArrayIfTruthy(Get(shotData, "holeShots")))
  {
  }

  // ---- Properties ----

  /** The course name is copied as it is, the hole number and score as the walk passes them. */
  lemma CourseAndHoleCells(env: Env, courseInfoMap: Value, clubIdToNameMap: Value, holeNumber: Value, holeScore: Value, shot: Value)
    requires !Nullish(courseInfoMap)
    ensures Cell(env, courseInfoMap, clubIdToNameMap, holeNumber, holeScore, shot, "courseName") == Ok(Get(courseInfoMap, "courseName"))
    ensures Cell(env, courseInfoMap, clubIdToNameMap, holeNumber, holeScore, shot, "holeNumber") == Ok(holeNumber)
    ensures Cell(env, courseInfoMap, clubIdToNameMap, holeNumber, holeScore, shot, "holeScore") == Ok(holeScore)
  {
  }

  /** A club the lookup object does not name gives an empty cell; a named one gives its name. */
  lemma ClubCell(env: Env, courseInfoMap: Value, clubIdToNameMap: Value, holeNumber: Value, holeScore: Value, shot: Value)
    requires !Nullish(shot) && !Nullish(clubIdToNameMap)
    ensures var name := Get(clubIdToNameMap, ToString(Get(shot, "clubId")));
      Cell(env, courseInfoMap, clubIdToNameMap, holeNumber, holeScore, shot, "clubType") == Ok(if Truthy(name) then name else Empty)
  {
  }

  /** A falsy distance gives an empty cell, a truthy one its yard text. */
  lemma YardsCell(env: Env, courseInfoMap: Value, clubIdToNameMap: Value, holeNumber: Value, holeScore: Value, shot: Value)
    requires !Nullish(shot)
    ensures var meters := Get(shot, "meters");
      Cell(env, courseInfoMap, clubIdToNameMap, holeNumber, holeScore, shot, "yards")
      == Ok(if Truthy(meters) then Str(env.yards(meters)) else Empty)
  {
  }

  /** A location column reads its part of the location, and is empty when the location is missing. */
  lemma LocationCell(env: Env, courseInfoMap: Value, clubIdToNameMap: Value, holeNumber: Value, holeScore: Value, shot: Value, f: string)
    requires !Nullish(shot) && LocationOf(f).Some?
    ensures var (loc, part) := LocationOf(f).value;
      && Cell(env, courseInfoMap, clubIdToNameMap, holeNumber, holeScore, shot, f) == Ok(Or(Get(Get(shot, loc), part), Empty))
      && (Nullish(Get(shot, loc)) ==> Cell(env, courseInfoMap, clubIdToNameMap, holeNumber, holeScore, shot, f) == Ok(Empty))
  {
  }

  /** A falsy shot time gives an empty cell; a truthy one its ISO text, or a RangeError for an invalid instant. */
  lemma ShotTimeCell(env: Env, courseInfoMap: Value, clubIdToNameMap: Value, holeNumber: Value, holeScore: Value, shot: Value)
    requires !Nullish(shot)
    ensures var t := Get(shot, "shotTime");
      Cell(env, courseInfoMap, clubIdToNameMap, holeNumber, holeScore, shot, "shotTime")
      == (if !Truthy(t) then Ok(Empty)
          else if env.isoOfParsedInt(t).Some? then Ok(Str(env.isoOfParsedInt(t).value))
          else Throw(RangeError))
  {
  }

  /** A shot that is `undefined` or `null` makes its row throw. */
  lemma NullishShotThrows(env: Env, courseInfoMap: Value, clubIdToNameMap: Value, holeNumber: Value, holeScore: Value, shot: Value)
    requires Nullish(shot) && !Nullish(courseInfoMap)
    ensures RowOf(ShotFields(), CellsOf(env, courseInfoMap, clubIdToNameMap))(holeNumber, holeScore, shot).Throw?
  {
    var cell := CellsOf(env, courseInfoMap, clubIdToNameMap)(holeNumber, holeScore, shot);
    assert ShotFields()[3] == "shotOrder";
    ShotOrderThrows(env, courseInfoMap, clubIdToNameMap, holeNumber, holeScore, shot);
    assert cell("shotOrder").Throw?;
    MapCellsThrows(cell, ShotFields(), 3);
  }

  lemma ShotOrderThrows(env: Env, courseInfoMap: Value, clubIdToNameMap: Value, holeNumber: Value, holeScore: Value, shot: Value)
    requires Nullish(shot)
    ensures Cell(env, courseInfoMap, clubIdToNameMap, holeNumber, holeScore, shot, "shotOrder").Throw?
  {
    assert LocationOf("shotOrder").None?;
  }

  /** Without a `holeShots` array the converter returns the header line alone. */
  lemma NoHoleShots(env: Env, shotData: Value, courseInfoMap: Value, clubIdToNameMap: Value, holeScores: Value)
    requires !Nullish(shotData)
    requires var h := Get(shotData, "holeShots"); !(Truthy(h) && h.Arr?)
    ensures Output(env, shotData, courseInfoMap, clubIdToNameMap, holeScores) == Ok(JoinStrings(ShotFields(), ",") + "\n")
  {
    assert HolesRows(RowOf(ShotFields(), CellsOf(env, courseInfoMap, clubIdToNameMap)), ScoreOf(holeScores), []) == Ok([]);
    DocumentEmpty(ShotFields());
  }
}
