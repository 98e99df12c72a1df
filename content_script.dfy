/**
 * The three downloads of content-script.js with their network calls turned
 * into inputs: `hasToken` says whether an authorization header is at hand
 * once the localStorage attempt is over, and each `fetch` is a settled
 * `Response`, the per-round ones given as functions of the scorecard id.
 * Each download is its `try` block: an exception here is what the `catch`
 * turns into `return false`, a finished `Export` what it hands to the
 * background script before returning `true`.
 */
module ContentScript {
  import opened JsValue
  import opened DateUtils
  import opened Runtime
  import opened Csv
  import opened Fill
  import SummaryCsv
  import DetailCsv
  import opened ShotWalk

  // ---- Responses and file names ----

  /** The body of a response the download goes on with: a rejected fetch throws, and so does `!response.ok`. */
  function Checked(response: Response): (r: Result<Value>)
    ensures r.Ok? <==> response.Reply? && response.ok
    ensures r.Ok? ==> r.value == response.body
  {
    match response
    case Rejected => Throw(TypeError)
    case Reply(ok, body) => if ok then Ok(body) else Throw(Error)
  }

  /** The file name each download writes out inline: the prefix, `_`, the local date as YYYY-MM-DD and `.csv`. */
  function InlineFilename(prefix: string, now: DateParts): (r: string)
    ensures r == DateStampedFilename(prefix, now)
  {
    var year, month, day := IntToString(now.year), PadTwo(IntToString(now.month + 1)), PadTwo(IntToString(now.day));
    var date := year + "-" + month + "-" + day;
    prefix + "_" + date + ".csv"
  }

  // ---- The course table ----

  /** `summaryData.scorecardSummaries` as `forEach` visits it: only an array can be walked. */
  function RoundSummaries(summaryData: Value): (r: Result<seq<Value>>)
    ensures r.Ok? <==> !Nullish(summaryData) && Get(summaryData, "scorecardSummaries").Arr?
  {
    var list :- Prop(summaryData, "scorecardSummaries");
    ForEachItems(list)
  }

  /** `if (summary.id)`: only a summary with a truthy id enters the course table. */
  function HasId(summary: Value): bool {
    Truthy(Get(summary, "id"))
  }

  /** The property key `courseInfoMap[summary.id]` writes. */
  function IdKey(summary: Value): string {
    ToString(Get(summary, "id"))
  }

  /** The details download's entry: the course name or `''`, and the pars split into characters or `[]`. */
  function CourseWithPars(summary: Value): (r: Result<Value>)
    ensures var pars := Get(summary, "holePars");
      && (r.Ok? <==> !Truthy(pars) || pars.Str?)
      && (r.Ok? ==> Get(r.value, "courseName") == Or(Get(summary, "courseName"), Empty))
      && (r.Ok? ==> Get(r.value, "holePars") == if Truthy(pars) then SplitChars(pars).value else Arr([]))
  {
    var pars := Get(summary, "holePars");
    var split :- if Truthy(pars) then SplitChars(pars) else Ok(Arr([]));
    assert Truthy(pars) ==> split == SplitChars(pars).value;
    var entries := [Entry("courseName", Or(Get(summary, "courseName"), Empty)), Entry("holePars", split)];
    assert Lookup(entries, "holePars") == split;
    Ok(Obj(entries))
  }

  /** The shot download's entry: the course name or `''` alone. */
  function CourseOnly(summary: Value): (r: Result<Value>)
    ensures r.Ok? && Get(r.value, "courseName") == Or(Get(summary, "courseName"), Empty)
  {
    Ok(Obj([Entry("courseName", Or(Get(summary, "courseName"), Empty))]))
  }

  /** `scorecardSummaries.map(summary => summary.id)` */
  function ScorecardIds(summaries: seq<Value>): (r: seq<Value>)
    ensures |r| == |summaries|
    ensures forall i :: 0 <= i < |summaries| ==> r[i] == Get(summaries[i], "id")
  {
    seq(|summaries|, i requires 0 <= i < |summaries| => Get(summaries[i], "id"))
  }

  /** The course table and the ids of the rounds, in summary order. */
  datatype Rounds = Rounds(courseInfo: map<string, Value>, ids: seq<Value>)

  /** The summary response read into the course table, whose entries `entry` builds, and the scorecard ids. */
  function RoundsOf(summaryResponse: Response, entry: Value -> Result<Value>): Result<Rounds> {
    var summaryData :- Checked(summaryResponse);
    var summaries :- RoundSummaries(summaryData);
    var courseInfo :- FillFrom(map[], summaries, HasId, IdKey, entry);
    Ok(Rounds(courseInfo, ScorecardIds(summaries)))
  }

  /** The summary fetch's ok check, the `forEach` that fills `courseInfoMap`, and the `map` to the ids. */
  method ReadRounds(summaryResponse: Response, entry: Value -> Result<Value>) returns (r: Result<Rounds>)
    ensures r == RoundsOf(summaryResponse, entry)
  {
    var summaryData :- Checked(summaryResponse);
    var summaries :- RoundSummaries(summaryData);
    var courseInfoMap :- FillMap(summaries, HasId, IdKey, entry);
    return Ok(Rounds(courseInfoMap, ScorecardIds(summaries)));
  }

  // ---- Summary download ----

  /** The summary download: the token, an ok response, then `convertToCSV` of its body. */
  function SummaryDownload(env: Env, hasToken: bool, response: Response, now: DateParts): Result<Export> {
    if !hasToken then Throw(Error)
    else
      var jsonData :- Checked(response);
      var csv :- SummaryCsv.Output(env, jsonData);
      Ok(Export(csv, InlineFilename("garmin_golf_scores_summary", now)))
  }

  method DownloadSummaryData(env: Env, hasToken: bool, response: Response, now: DateParts) returns (r: Result<Export>)
    ensures r == SummaryDownload(env, hasToken, response, now)
  {
    if !hasToken {
      return Throw(Error);
    }
    var jsonData :- Checked(response);
    var csv :- SummaryCsv.ConvertSummaryToCsv(env, jsonData);
    return Ok(Export(csv, InlineFilename("garmin_golf_scores_summary", now)));
  }

  // ---- Details download ----

  /**
   * The record an ok detail response contributes: `scorecardDetails[0]`,
   * given the course name and pars of the course table's entry when the
   * table holds the id. Writing a property of a primitive is ignored.
   */
  function Enriched(courseInfo: map<string, Value>, id: Value, body: Value): Result<Value> {
    var details :- Prop(body, "scorecardDetails");
    var detail :- Index(details, 0);
    var info := MapGet(courseInfo, ToString(id));
    if Truthy(info) then
      var named :- SetProp(detail, "courseName", Get(info, "courseName"), false);
      SetProp(named, "holePars", Get(info, "holePars"), false)
    else Ok(detail)
  }

  /** The records of the rounds in order: a rejected fetch throws, a response that is not ok is passed over. */
  function DetailRecords(fetchDetail: Value -> Response, courseInfo: map<string, Value>, ids: seq<Value>): Result<seq<Value>>
    decreases |ids|
  {
    if ids == [] then Ok([])
    else match fetchDetail(ids[0])
      case Rejected => Throw(TypeError)
      case Reply(ok, body) =>
        if !ok then DetailRecords(fetchDetail, courseInfo, ids[1..])
        else
          var detail :- Enriched(courseInfo, ids[0], body);
          var rest :- DetailRecords(fetchDetail, courseInfo, ids[1..]);
          Ok([detail] + rest)
  }

  lemma DetailRecordsStep(fetchDetail: Value -> Response, courseInfo: map<string, Value>, ids: seq<Value>, i: nat, done: seq<Value>)
    requires i < |ids|
    requires DetailRecords(fetchDetail, courseInfo, ids) == PrependCells(done, DetailRecords(fetchDetail, courseInfo, ids[i..]))
    ensures var response := fetchDetail(ids[i]);
      && (response.Rejected? ==> DetailRecords(fetchDetail, courseInfo, ids) == Throw(TypeError))
      && (response.Reply? && !response.ok ==>
        DetailRecords(fetchDetail, courseInfo, ids) == PrependCells(done, DetailRecords(fetchDetail, courseInfo, ids[i + 1..])))
      && (response.Reply? && response.ok && Enriched(courseInfo, ids[i], response.body).Throw? ==>
        DetailRecords(fetchDetail, courseInfo, ids) == Throw(Enriched(courseInfo, ids[i], response.body).error))
      && (response.Reply? && response.ok && Enriched(courseInfo, ids[i], response.body).Ok? ==>
        DetailRecords(fetchDetail, courseInfo, ids)
        == PrependCells(done + [Enriched(courseInfo, ids[i], response.body).value], DetailRecords(fetchDetail, courseInfo, ids[i + 1..])))
  {
    assert ids[i..][0] == ids[i];
    assert ids[i..][1..] == ids[i + 1..];
    var response := fetchDetail(ids[i]);
    var rest := DetailRecords(fetchDetail, courseInfo, ids[i + 1..]);
    if response.Reply? && response.ok && Enriched(courseInfo, ids[i], response.body).Ok? && rest.Ok? {
      var detail := Enriched(courseInfo, ids[i], response.body).value;
      assert done + ([detail] + rest.value) == done + [detail] + rest.value;
    }
  }

  /** The `for (const id of scorecardIds)` loop: fetch, pass over a failed response, enrich and push. */
  method FetchDetails(fetchDetail: Value -> Response, courseInfo: map<string, Value>, ids: seq<Value>) returns (r: Result<seq<Value>>)
    ensures r == DetailRecords(fetchDetail, courseInfo, ids)
  {
    var detailedData: seq<Value> := [];
    assert ids[0..] == ids;
    assert DetailRecords(fetchDetail, courseInfo, ids).Ok? ==>
      [] + DetailRecords(fetchDetail, courseInfo, ids).value == DetailRecords(fetchDetail, courseInfo, ids).value;
    var i := 0;
    while i < |ids|
      invariant 0 <= i <= |ids|
      invariant DetailRecords(fetchDetail, courseInfo, ids) == PrependCells(detailedData, DetailRecords(fetchDetail, courseInfo, ids[i..]))
    {
      var id := ids[i];
      DetailRecordsStep(fetchDetail, courseInfo, ids, i, detailedData);
      var response := fetchDetail(id);
      if response.Rejected? {
        return Throw(TypeError);
      }
      if !response.ok {
        i := i + 1;
        continue;
      }
      var details :- Prop(response.body, "scorecardDetails");
      var detailData :- Index(details, 0);
      var info := MapGet(courseInfo, ToString(id));
      if Truthy(info) {
        detailData :- SetProp(detailData, "courseName", Get(info, "courseName"), false);
        detailData :- SetProp(detailData, "holePars", Get(info, "holePars"), false);
      }
      detailedData := detailedData + [detailData];
      i := i + 1;
    }
    assert ids[i..] == [];
    assert detailedData + [] == detailedData;
    return Ok(detailedData);
  }

  /** The details download: the course table, the records of the rounds, then `convertDetailedDataToCSV`. */
  function DetailsDownload(env: Env, hasToken: bool, summaryResponse: Response, fetchDetail: Value -> Response, now: DateParts): Result<Export> {
    if !hasToken then Throw(Error)
    else
      var rounds :- RoundsOf(summaryResponse, CourseWithPars);
      var detailedData :- DetailRecords(fetchDetail, rounds.courseInfo, rounds.ids);
      var csv :- DetailCsv.Output(env, Arr(detailedData));
      Ok(Export(csv, InlineFilename("garmin_golf_scores_details", now)))
  }

  method DownloadDetailsData(env: Env, hasToken: bool, summaryResponse: Response, fetchDetail: Value -> Response, now: DateParts)
    returns (r: Result<Export>)
    ensures r == DetailsDownload(env, hasToken, summaryResponse, fetchDetail, now)
  {
    if !hasToken {
      return Throw(Error);
    }
    var rounds :- ReadRounds(summaryResponse, CourseWithPars);
    var detailedData :- FetchDetails(fetchDetail, rounds.courseInfo, rounds.ids);
    var csv :- DetailCsv.ConvertDetailedDataToCsv(env, Arr(detailedData));
    return Ok(Export(csv, InlineFilename("garmin_golf_scores_details", now)));
  }

  // ---- Shot download: the club tables ----

  /**
   * `clubTypeMap`: `clubTypesData.clubTypes || []` is evaluated and
   * discarded, then `forEach` runs on the response body itself, so only a
   * body that is an array fills the table.
   */
  function ClubTypes(clubTypesData: Value): Result<map<string, Value>> {
    var discarded :- Prop(clubTypesData, "clubTypes");
    var types :- ForEachItems(clubTypesData);
    FillFrom(map[], types, Always, TypeValueKey, TypeName)
  }

  /** The property key `clubTypeMap[type.value]` writes. */
  function TypeValueKey(clubType: Value): string {
    ToString(Get(clubType, "value"))
  }

  function TypeName(clubType: Value): Result<Value> {
    Ok(Get(clubType, "name"))
  }

  /** The player's clubs: the body when it is an array, otherwise `body.clubs || []`, which `forEach` needs to be an array. */
  function PlayerClubs(playerClubsData: Value): Result<seq<Value>> {
    if playerClubsData.Arr? then Ok(playerClubsData.items)
    else
      var clubs :- Prop(playerClubsData, "clubs");
      ForEachItems(Or(clubs, Arr([])))
  }

  /** The property key `clubIdToNameMap[club.id]` writes. */
  function ClubKey(club: Value): string {
    ToString(Get(club, "id"))
  }

  /** `clubTypeMap[club.clubTypeId] || 'Unknown'` */
  function ClubTypeNameOf(clubTypeMap: map<string, Value>, club: Value): Result<Value> {
    Ok(Or(MapGet(clubTypeMap, ToString(Get(club, "clubTypeId"))), Str("Unknown")))
  }

  function ClubTypeName(clubTypeMap: map<string, Value>): Value -> Result<Value> {
    club => ClubTypeNameOf(clubTypeMap, club)
  }

  /** `clubIdToNameMap`: each player club's id sent to its type's name. */
  function ClubNames(clubTypeMap: map<string, Value>, clubs: seq<Value>): Result<map<string, Value>> {
    FillFrom(map[], clubs, Always, ClubKey, ClubTypeName(clubTypeMap))
  }

  // ---- Shot download: one round ----

  /** The value a hole's `strokes` gives its entry in `holeScores`. */
  function Strokes(hole: Value): Result<Value> {
    Ok(Or(Get(hole, "strokes"), Empty))
  }

  /** `holeScores`: filled from `scorecard.holes` when the scorecard and its holes are truthy, empty otherwise. */
  function HoleScores(scorecardDetail: Value): Result<map<string, Value>> {
    var scorecard :- Prop(scorecardDetail, "scorecard");
    if Truthy(scorecard) && Truthy(Get(scorecard, "holes")) then
      var holes :- ForEachItems(Get(scorecard, "holes"));
      FillFrom(map[], holes, Always, DetailCsv.HoleKey, Strokes)
    else Ok(map[])
  }

  /** `holeScores[holeNumber] || ''` */
  function HoleScore(holeScores: map<string, Value>, holeNumber: Value): Result<Value> {
    Ok(Or(MapGet(holeScores, ToString(holeNumber)), Empty))
  }

  function HoleScoreOf(holeScores: map<string, Value>): ScoreFn {
    holeNumber => HoleScore(holeScores, holeNumber)
  }

  /**
   * The value the shot-row switch picks for one column. The location columns
   * read the part of a truthy location as it is, with no `|| ''`.
   */
  function Pick(env: Env, course: Value, clubNames: map<string, Value>, holeNumber: Value, holeScore: Value, shot: Value, f: string): Result<Value> {
    match LocationOf(f)
    case Some((loc, part)) =>
      var l :- Prop(shot, loc);
      Ok(if Truthy(l) then Get(l, part) else Empty)
    case None =>
      if f == "courseName" then Prop(course, "courseName")
      else if f == "holeNumber" then Ok(holeNumber)
      else if f == "holeScore" then Ok(holeScore)
      else if f == "clubType" then
        var clubId :- Prop(shot, "clubId");
        Ok(Or(MapGet(clubNames, ToString(clubId)), Empty))
      else if f == "yards" then
        var meters :- Prop(shot, "meters");
        Ok(if Truthy(meters) then Str(env.yards(meters)) else Empty)
      else
        var value :- Prop(shot, f);
        Ok(Or(value, Empty))
  }

  /** One cell before escaping: the picked value, with the shot time converted. */
  function Cell(env: Env, course: Value, clubNames: map<string, Value>, holeNumber: Value, holeScore: Value, shot: Value, f: string): Result<Value> {
    var value :- Pick(env, course, clubNames, holeNumber, holeScore, shot, f);
    ConvertShotTime(env, f, value)
  }

  /** The cell rule of a round: `course` is `courseInfoMap[id]`. */
  function CellsOf(env: Env, course: Value, clubNames: map<string, Value>): CellFn {
    (holeNumber: Value, holeScore: Value, shot: Value) =>
      (f: string) => Cell(env, course, clubNames, holeNumber, holeScore, shot, f)
  }

  /** The hole scores of an ok detail response: those of `scorecardDetails[0]`. */
  function DetailHoleScores(detailData: Value): Result<map<string, Value>> {
    var details :- Prop(detailData, "scorecardDetails");
    var scorecardDetail :- Index(details, 0);
    HoleScores(scorecardDetail)
  }

  /** The walk over a shot response's `holeShots` with the round's course entry, club names and hole scores. */
  function RoundShotRows(env: Env, course: Value, clubNames: map<string, Value>, holeScores: map<string, Value>, shotData: Value)
    : Result<seq<seq<Value>>>
  {
    HolesRows(RowOf(ShotFields(), CellsOf(env, course, clubNames)), HoleScoreOf(holeScores), ArrayIfTruthy(Get(shotData, "holeShots")))
  }

  /** The rows one round contributes: none when its detail or its shot response is not ok. */
  function RoundRows(env: Env, courseInfo: map<string, Value>, clubNames: map<string, Value>,
                     fetchDetail: Value -> Response, fetchShots: Value -> Response, id: Value): Result<seq<seq<Value>>>
  {
    match fetchDetail(id)
    case Rejected => Throw(TypeError)
    case Reply(ok, detailData) =>
      if !ok then Ok([])
      else
        var holeScores :- DetailHoleScores(detailData);
        match fetchShots(id)
        case Rejected => Throw(TypeError)
        case Reply(shotOk, shotData) =>
          if !shotOk then Ok([])
          else RoundShotRows(env, MapGet(courseInfo, ToString(id)), clubNames, holeScores, shotData)
  }

  /** The rows of all rounds, round after round. */
  function AllRoundRows(env: Env, courseInfo: map<string, Value>, clubNames: map<string, Value>,
                        fetchDetail: Value -> Response, fetchShots: Value -> Response, ids: seq<Value>): Result<seq<seq<Value>>>
    decreases |ids|
  {
    if ids == [] then Ok([])
    else
      var rows :- RoundRows(env, courseInfo, clubNames, fetchDetail, fetchShots, ids[0]);
      var rest :- AllRoundRows(env, courseInfo, clubNames, fetchDetail, fetchShots, ids[1..]);
      Ok(rows + rest)
  }

  /** `holeScores` filled in place from `scorecardDetails[0]`, as the loop writes it. */
  method ReadHoleScores(detailData: Value) returns (r: Result<map<string, Value>>)
    ensures r == DetailHoleScores(detailData)
  {
    var details :- Prop(detailData, "scorecardDetails");
    var scorecardDetail :- Index(details, 0);
    var scorecard :- Prop(scorecardDetail, "scorecard");
    if Truthy(scorecard) && Truthy(Get(scorecard, "holes")) {
      var holes :- ForEachItems(Get(scorecard, "holes"));
      r := FillMap(holes, Always, DetailCsv.HoleKey, Strokes);
    } else {
      r := Ok(map[]);
    }
  }

  /** The `shotData.holeShots.forEach` walk of one round. */
  method WalkRound(env: Env, course: Value, clubNames: map<string, Value>, holeScores: map<string, Value>, shotData: Value, csv: string)
    returns (r: Result<string>)
    ensures r == Extend(csv, RoundShotRows(env, course, clubNames, holeScores, shotData))
  {
    r := AppendHoles(ShotFields(), csv, CellsOf(env, course, clubNames), HoleScoreOf(holeScores), ArrayIfTruthy(Get(shotData, "holeShots")));
  }

  /** One pass of the round loop: extend `csv` by the round's rows, or stop with its exception. */
  method AppendRound(env: Env, courseInfo: map<string, Value>, clubNames: map<string, Value>,
                     fetchDetail: Value -> Response, fetchShots: Value -> Response, id: Value, csv: string) returns (r: Result<string>)
    ensures r == Extend(csv, RoundRows(env, courseInfo, clubNames, fetchDetail, fetchShots, id))
  {
    BlockEmpty();
    assert csv + Block([]) == csv;
    var detailResponse := fetchDetail(id);
    if detailResponse.Rejected? {
      return Throw(TypeError);
    }
    if !detailResponse.ok {
      return Ok(csv);
    }
    var holeScores :- ReadHoleScores(detailResponse.body);
    var shotResponse := fetchShots(id);
    if shotResponse.Rejected? {
      return Throw(TypeError);
    }
    if !shotResponse.ok {
      return Ok(csv);
    }
    r := WalkRound(env, MapGet(courseInfo, ToString(id)), clubNames, holeScores, shotResponse.body, csv);
  }

  lemma AllRoundRowsStep(env: Env, courseInfo: map<string, Value>, clubNames: map<string, Value>,
                         fetchDetail: Value -> Response, fetchShots: Value -> Response, ids: seq<Value>, i: nat, done: seq<seq<Value>>)
    requires i < |ids|
    requires AllRoundRows(env, courseInfo, clubNames, fetchDetail, fetchShots, ids)
      == Prepend(done, AllRoundRows(env, courseInfo, clubNames, fetchDetail, fetchShots, ids[i..]))
    ensures var rows := RoundRows(env, courseInfo, clubNames, fetchDetail, fetchShots, ids[i]);
      && (rows.Throw? ==> AllRoundRows(env, courseInfo, clubNames, fetchDetail, fetchShots, ids) == Throw(rows.error))
      && (rows.Ok? ==>
        AllRoundRows(env, courseInfo, clubNames, fetchDetail, fetchShots, ids)
        == Prepend(done + rows.value, AllRoundRows(env, courseInfo, clubNames, fetchDetail, fetchShots, ids[i + 1..])))
  {
    assert ids[i..][0] == ids[i];
    assert ids[i..][1..] == ids[i + 1..];
    var rows := RoundRows(env, courseInfo, clubNames, fetchDetail, fetchShots, ids[i]);
    var rest := AllRoundRows(env, courseInfo, clubNames, fetchDetail, fetchShots, ids[i + 1..]);
    if rows.Ok? && rest.Ok? {
      assert done + (rows.value + rest.value) == done + rows.value + rest.value;
    }
  }

  /** The `for (const id of scorecardIds)` loop of the shot download, after the header line. */
  method WriteRounds(env: Env, courseInfo: map<string, Value>, clubNames: map<string, Value>,
                     fetchDetail: Value -> Response, fetchShots: Value -> Response, ids: seq<Value>, header: string) returns (r: Result<string>)
    ensures r == Extend(header, AllRoundRows(env, courseInfo, clubNames, fetchDetail, fetchShots, ids))
  {
    var csvContent := header;
    ghost var done: seq<seq<Value>> := [];
    BlockEmpty();
    assert ids[0..] == ids;
    PrependNothing(AllRoundRows(env, courseInfo, clubNames, fetchDetail, fetchShots, ids));
    var i := 0;
    while i < |ids|
      invariant 0 <= i <= |ids|
      invariant AllRoundRows(env, courseInfo, clubNames, fetchDetail, fetchShots, ids)
        == Prepend(done, AllRoundRows(env, courseInfo, clubNames, fetchDetail, fetchShots, ids[i..]))
      invariant csvContent == header + Block(done)
    {
      AllRoundRowsStep(env, courseInfo, clubNames, fetchDetail, fetchShots, ids, i, done);
      csvContent :- AppendRound(env, courseInfo, clubNames, fetchDetail, fetchShots, ids[i], csvContent);
      ghost var rows := RoundRows(env, courseInfo, clubNames, fetchDetail, fetchShots, ids[i]).value;
      ExtendStep(header, done, rows);
      done := done + rows;
      i := i + 1;
    }
    assert ids[i..] == [];
    assert done + [] == done;
    return Ok(csvContent);
  }

  // ---- Shot download ----

  /** The two club responses read into `clubIdToNameMap`. */
  function ClubTable(clubTypesResponse: Response, playerClubsResponse: Response): Result<map<string, Value>> {
    var clubTypesData :- Checked(clubTypesResponse);
    var clubTypeMap :- ClubTypes(clubTypesData);
    var playerClubsData :- Checked(playerClubsResponse);
    var clubs :- PlayerClubs(playerClubsData);
    ClubNames(clubTypeMap, clubs)
  }

  /** The club-type and player-club fetches' ok checks and the two `forEach` fills. */
  method ReadClubs(clubTypesResponse: Response, playerClubsResponse: Response) returns (r: Result<map<string, Value>>)
    ensures r == ClubTable(clubTypesResponse, playerClubsResponse)
  {
    var clubTypesData :- Checked(clubTypesResponse);
    var discarded :- Prop(clubTypesData, "clubTypes");
    var types :- ForEachItems(clubTypesData);
    var clubTypeMap :- FillMap(types, Always, TypeValueKey, TypeName);
    var playerClubsData :- Checked(playerClubsResponse);
    var clubs :- PlayerClubs(playerClubsData);
    r := FillMap(clubs, Always, ClubKey, ClubTypeName(clubTypeMap));
  }

  /** The shot download: the club table, the course table, then the header and one run of shot rows per round. */
  function ShotsDownload(env: Env, hasToken: bool, clubTypesResponse: Response, playerClubsResponse: Response, summaryResponse: Response,
                         fetchDetail: Value -> Response, fetchShots: Value -> Response, now: DateParts): Result<Export>
  {
    if !hasToken then Throw(Error)
    else
      var clubNames :- ClubTable(clubTypesResponse, playerClubsResponse);
      var rounds :- RoundsOf(summaryResponse, CourseOnly);
      var rows :- AllRoundRows(env, rounds.courseInfo, clubNames, fetchDetail, fetchShots, rounds.ids);
      Ok(Export(Document(ShotFields(), rows), InlineFilename("garmin_golf_shots", now)))
  }

  method DownloadShotData(env: Env, hasToken: bool, clubTypesResponse: Response, playerClubsResponse: Response, summaryResponse: Response,
                          fetchDetail: Value -> Response, fetchShots: Value -> Response, now: DateParts) returns (r: Result<Export>)
    ensures r == ShotsDownload(env, hasToken, clubTypesResponse, playerClubsResponse, summaryResponse, fetchDetail, fetchShots, now)
  {
    if !hasToken {
      return Throw(Error);
    }
    var clubIdToNameMap :- ReadClubs(clubTypesResponse, playerClubsResponse);
    var rounds :- ReadRounds(summaryResponse, CourseOnly);
    var header := JoinStrings(ShotFields(), ",") + "\n";
    var csvContent :- WriteRounds(env, rounds.courseInfo, clubIdToNameMap, fetchDetail, fetchShots, rounds.ids, header);
    ExtendHeader(ShotFields(), AllRoundRows(env, rounds.courseInfo, clubIdToNameMap, fetchDetail, fetchShots, rounds.ids));
    return Ok(Export(csvContent, InlineFilename("garmin_golf_shots", now)));
  }

  // ---- Properties: the course table ----

  /** The summary response yields the tables exactly when it is ok, lists an array, and every summary can be entered. */
  lemma RoundsOfOkIff(summaryResponse: Response, entry: Value -> Result<Value>)
    ensures RoundsOf(summaryResponse, entry).Ok? <==>
      && summaryResponse.Reply? && summaryResponse.ok
      && RoundSummaries(summaryResponse.body).Ok?
      && forall j :: 0 <= j < |RoundSummaries(summaryResponse.body).value| ==> Fillable(RoundSummaries(summaryResponse.body).value[j], HasId, entry)
  {
    if summaryResponse.Reply? && summaryResponse.ok && RoundSummaries(summaryResponse.body).Ok? {
      FillOkIff(map[], RoundSummaries(summaryResponse.body).value, HasId, IdKey, entry);
    }
  }

  /** There is one id per summary, and the course table has a key exactly when some summary with a truthy id has it. */
  lemma CourseTableKeys(summaryResponse: Response, entry: Value -> Result<Value>, key: string)
    requires RoundsOf(summaryResponse, entry).Ok?
    ensures summaryResponse.Reply? && RoundSummaries(summaryResponse.body).Ok?
    ensures var summaries := RoundSummaries(summaryResponse.body).value;
      && RoundsOf(summaryResponse, entry).value.ids == ScorecardIds(summaries)
      && (key in RoundsOf(summaryResponse, entry).value.courseInfo <==>
          exists j :: 0 <= j < |summaries| && HasId(summaries[j]) && IdKey(summaries[j]) == key)
  {
    FillKeys(map[], RoundSummaries(summaryResponse.body).value, HasId, IdKey, entry, key);
  }

  /** Of several summaries with the same id, the last one gives the entry. */
  lemma CourseTableLast(summaryResponse: Response, entry: Value -> Result<Value>, j: nat)
    requires RoundsOf(summaryResponse, entry).Ok?
    requires var summaries := RoundSummaries(summaryResponse.body).value;
      && j < |summaries| && HasId(summaries[j])
      && forall j' :: j < j' < |summaries| && HasId(summaries[j']) ==> IdKey(summaries[j']) != IdKey(summaries[j])
    ensures var summaries := RoundSummaries(summaryResponse.body).value;
      && entry(summaries[j]).Ok?
      && MapGet(RoundsOf(summaryResponse, entry).value.courseInfo, IdKey(summaries[j])) == entry(summaries[j]).value
  {
    FillLast(map[], RoundSummaries(summaryResponse.body).value, HasId, IdKey, entry, j);
  }

  // ---- Properties: the details download ----

  /** The ids, in order, whose detail response is ok. */
  function OkIds(fetchDetail: Value -> Response, ids: seq<Value>): (r: seq<Value>)
    ensures |r| <= |ids|
    ensures forall k :: 0 <= k < |r| ==> fetchDetail(r[k]).Reply? && fetchDetail(r[k]).ok
    ensures forall i :: 0 <= i < |ids| && fetchDetail(ids[i]).Reply? && fetchDetail(ids[i]).ok ==> ids[i] in r
    decreases |ids|
  {
    if ids == [] then []
    else (if fetchDetail(ids[0]).Reply? && fetchDetail(ids[0]).ok then [ids[0]] else []) + OkIds(fetchDetail, ids[1..])
  }

  /**
   * The ok ids keep the order of the ids: those of a first run of ids come
   * before those of a second (and OkIdsOne says which single id is kept).
   */
  lemma {:induction false} OkIdsInOrder(fetchDetail: Value -> Response, ids: seq<Value>, more: seq<Value>)
    ensures OkIds(fetchDetail, ids + more) == OkIds(fetchDetail, ids) + OkIds(fetchDetail, more)
    decreases |ids|
  {
    if ids == [] {
      assert ids + more == more;
    } else {
      OkIdsInOrder(fetchDetail, ids[1..], more);
      OkIdsStep(fetchDetail, ids, more);
    }
  }

  /** Every kept id is one of the ids. */
  lemma {:induction false} OkIdsSubset(fetchDetail: Value -> Response, ids: seq<Value>)
    ensures forall k :: 0 <= k < |OkIds(fetchDetail, ids)| ==> OkIds(fetchDetail, ids)[k] in ids
    decreases |ids|
  {
    if ids != [] {
      OkIdsSubset(fetchDetail, ids[1..]);
      assert forall x :: x in ids[1..] ==> x in ids;
    }
  }

  /** One unfolding of OkIds over a concatenation. */
  lemma OkIdsStep(fetchDetail: Value -> Response, ids: seq<Value>, more: seq<Value>)
    requires ids != []
    ensures OkIds(fetchDetail, ids + more) == OkIds(fetchDetail, [ids[0]]) + OkIds(fetchDetail, ids[1..] + more)
    ensures OkIds(fetchDetail, ids) == OkIds(fetchDetail, [ids[0]]) + OkIds(fetchDetail, ids[1..])
  {
    assert (ids + more)[1..] == ids[1..] + more;
    assert [ids[0]][1..] == [];
  }

  /** A single id is kept exactly when its detail response is ok. */
  lemma OkIdsOne(fetchDetail: Value -> Response, id: Value)
    ensures OkIds(fetchDetail, [id]) == (if fetchDetail(id).Reply? && fetchDetail(id).ok then [id] else [])
  {
    assert [id][1..] == [];
  }

  /** The loop finishes exactly when no fetch is rejected and every ok response gives a record. */
  lemma {:induction false} DetailRecordsOkIff(fetchDetail: Value -> Response, courseInfo: map<string, Value>, ids: seq<Value>)
    ensures DetailRecords(fetchDetail, courseInfo, ids).Ok? <==>
      forall i :: 0 <= i < |ids| ==> DetailReadable(fetchDetail, courseInfo, ids[i])
    decreases |ids|
  {
    if ids != [] {
      DetailRecordsOkIff(fetchDetail, courseInfo, ids[1..]);
      assert forall i :: 1 <= i < |ids| ==> ids[i] == ids[1..][i - 1];
    }
  }

  /** A round the loop can pass: its fetch is not rejected, and an ok response gives a record. */
  predicate DetailReadable(fetchDetail: Value -> Response, courseInfo: map<string, Value>, id: Value) {
    fetchDetail(id).Reply? && (fetchDetail(id).ok ==> Enriched(courseInfo, id, fetchDetail(id).body).Ok?)
  }

  /**
   * The records are those of the ok ids, one each, in id order: the ids
   * whose response is not ok leave no trace.
   */
  lemma {:induction false} DetailRecordsOfOkIds(fetchDetail: Value -> Response, courseInfo: map<string, Value>, ids: seq<Value>, k: nat)
    requires DetailRecords(fetchDetail, courseInfo, ids).Ok?
    ensures |DetailRecords(fetchDetail, courseInfo, ids).value| == |OkIds(fetchDetail, ids)|
    ensures k < |OkIds(fetchDetail, ids)| ==>
      var id := OkIds(fetchDetail, ids)[k];
      Enriched(courseInfo, id, fetchDetail(id).body) == Ok(DetailRecords(fetchDetail, courseInfo, ids).value[k])
    decreases |ids|
  {
    if ids != [] {
      var response := fetchDetail(ids[0]);
      var okIds := OkIds(fetchDetail, ids[1..]);
      if response.Reply? && response.ok {
        DetailRecordsOfOkIds(fetchDetail, courseInfo, ids[1..], if k > 0 then k - 1 else k);
        assert OkIds(fetchDetail, ids) == [ids[0]] + okIds;
        assert DetailRecords(fetchDetail, courseInfo, ids).value
          == [Enriched(courseInfo, ids[0], response.body).value] + DetailRecords(fetchDetail, courseInfo, ids[1..]).value;
      } else {
        DetailRecordsOfOkIds(fetchDetail, courseInfo, ids[1..], k);
        assert OkIds(fetchDetail, ids) == okIds;
      }
    }
  }

  /**
   * A record that is an object gets the course table's name and pars when the
   * table holds the id, and is `scorecardDetails[0]` unchanged otherwise.
   */
  lemma EnrichedJoin(courseInfo: map<string, Value>, id: Value, body: Value)
    requires !Nullish(body) && !Nullish(Get(body, "scorecardDetails"))
    requires At(Get(body, "scorecardDetails"), 0).Obj?
    ensures var detail, info := At(Get(body, "scorecardDetails"), 0), MapGet(courseInfo, ToString(id));
      && Enriched(courseInfo, id, body).Ok?
      && (Truthy(info) ==>
        && Get(Enriched(courseInfo, id, body).value, "courseName") == Get(info, "courseName")
        && Get(Enriched(courseInfo, id, body).value, "holePars") == Get(info, "holePars"))
      && (!Truthy(info) ==> Enriched(courseInfo, id, body).value == detail)
  {
    var detail := At(Get(body, "scorecardDetails"), 0);
    var info := MapGet(courseInfo, ToString(id));
    if Truthy(info) {
      var named := Obj(SetEntry(detail.entries, "courseName", Get(info, "courseName")));
      assert "holePars" != "courseName" by { assert "holePars"[0] != "courseName"[0]; }
      assert Enriched(courseInfo, id, body) == Ok(Obj(SetEntry(named.entries, "holePars", Get(info, "holePars"))));
    }
  }

  /**
   * When the course table holds the id, a missing `scorecardDetails[0]`
   * makes the enrichment throw at its first property write.
   */
  lemma MissingDetailThrows(courseInfo: map<string, Value>, id: Value, body: Value)
    requires !Nullish(body) && !Nullish(Get(body, "scorecardDetails"))
    requires Nullish(At(Get(body, "scorecardDetails"), 0)) && Truthy(MapGet(courseInfo, ToString(id)))
    ensures Enriched(courseInfo, id, body).Throw?
  {
  }

  /**
   * When the course table lacks the id, the guard skips both writes and
   * `scorecardDetails[0]` is pushed as it is, even `undefined` or `null`;
   * the exception then comes later, when the converter reads its scorecard.
   */
  lemma MissingDetailPassedOn(courseInfo: map<string, Value>, id: Value, body: Value)
    requires !Nullish(body) && !Nullish(Get(body, "scorecardDetails"))
    requires !Truthy(MapGet(courseInfo, ToString(id)))
    ensures Enriched(courseInfo, id, body) == Ok(At(Get(body, "scorecardDetails"), 0))
  {
  }

  // ---- Properties: the club table ----

  /**
   * As written, `forEach` is called on the club-type response body itself:
   * a body that is not an array (for instance an object holding a
   * `clubTypes` array) makes the whole shot download throw.
   */
  lemma ClubTypesNeedArray(clubTypesResponse: Response, playerClubsResponse: Response)
    requires clubTypesResponse.Reply? && clubTypesResponse.ok && !clubTypesResponse.body.Arr?
    ensures ClubTable(clubTypesResponse, playerClubsResponse).Throw?
  {
  }

  /** With several club types of the same `value`, the last one's name is the one kept. */
  lemma ClubTypeLast(types: seq<Value>, j: nat)
    requires FillFrom(map[], types, Always, TypeValueKey, TypeName).Ok?
    requires j < |types| && forall j' :: j < j' < |types| ==> TypeValueKey(types[j']) != TypeValueKey(types[j])
    ensures MapGet(FillFrom(map[], types, Always, TypeValueKey, TypeName).value, TypeValueKey(types[j])) == Get(types[j], "name")
  {
    FillLast(map[], types, Always, TypeValueKey, TypeName, j);
  }

  /**
   * The club table sends a player club's id (the last club with that id) to
   * its type's name, or to `'Unknown'` when no type has its `clubTypeId`.
   */
  lemma ClubNameComposed(clubTypeMap: map<string, Value>, clubs: seq<Value>, j: nat)
    requires ClubNames(clubTypeMap, clubs).Ok?
    requires j < |clubs| && forall j' :: j < j' < |clubs| ==> ClubKey(clubs[j']) != ClubKey(clubs[j])
    ensures var typeKey := ToString(Get(clubs[j], "clubTypeId"));
      && MapGet(ClubNames(clubTypeMap, clubs).value, ClubKey(clubs[j])) == Or(MapGet(clubTypeMap, typeKey), Str("Unknown"))
      && (typeKey !in clubTypeMap ==> MapGet(ClubNames(clubTypeMap, clubs).value, ClubKey(clubs[j])) == Str("Unknown"))
  {
    FillLast(map[], clubs, Always, ClubKey, ClubTypeName(clubTypeMap), j);
  }

  /** An id no player club has is absent from the club table. */
  lemma ClubNameAbsent(clubTypeMap: map<string, Value>, clubs: seq<Value>, key: string)
    requires ClubNames(clubTypeMap, clubs).Ok?
    requires forall j :: 0 <= j < |clubs| ==> ClubKey(clubs[j]) != key
    ensures key !in ClubNames(clubTypeMap, clubs).value
  {
    FillKeys(map[], clubs, Always, ClubKey, ClubTypeName(clubTypeMap), key);
  }

  // ---- Properties: hole scores and cells ----

  /** Without a truthy scorecard with truthy holes the hole scores are empty. */
  lemma NoHoleScores(scorecardDetail: Value)
    requires !Nullish(scorecardDetail)
    requires var scorecard := Get(scorecardDetail, "scorecard"); !(Truthy(scorecard) && Truthy(Get(scorecard, "holes")))
    ensures HoleScores(scorecardDetail) == Ok(map[])
  {
  }

  /** A hole's score is the strokes of the last hole with its number, or `''` when those are falsy. */
  lemma HoleScoreLast(holes: seq<Value>, j: nat)
    requires FillFrom(map[], holes, Always, DetailCsv.HoleKey, Strokes).Ok?
    requires j < |holes| && forall j' :: j < j' < |holes| ==> DetailCsv.HoleKey(holes[j']) != DetailCsv.HoleKey(holes[j])
    ensures HoleScoreOf(FillFrom(map[], holes, Always, DetailCsv.HoleKey, Strokes).value)(Get(holes[j], "number"))
      == Ok(Or(Get(holes[j], "strokes"), Empty))
  {
    FillLast(map[], holes, Always, DetailCsv.HoleKey, Strokes, j);
  }

  /** A hole number no scored hole has gets the score `''`. */
  lemma HoleScoreMissing(holeScores: map<string, Value>, holeNumber: Value)
    requires ToString(holeNumber) !in holeScores
    ensures HoleScoreOf(holeScores)(holeNumber) == Ok(Empty)
  {
  }

  /** The course name comes from the round's table entry; a round the table lacks throws on its first shot. */
  lemma CourseCell(env: Env, course: Value, clubNames: map<string, Value>, holeNumber: Value, holeScore: Value, shot: Value)
    ensures Nullish(course) ==> Cell(env, course, clubNames, holeNumber, holeScore, shot, "courseName").Throw?
    ensures !Nullish(course) ==> Cell(env, course, clubNames, holeNumber, holeScore, shot, "courseName") == Ok(Get(course, "courseName"))
  {
  }

  /** An unmapped club id gives `''`, a mapped one its truthy name. */
  lemma ClubCell(env: Env, course: Value, clubNames: map<string, Value>, holeNumber: Value, holeScore: Value, shot: Value)
    requires !Nullish(shot)
    ensures var key := ToString(Get(shot, "clubId"));
      && Cell(env, course, clubNames, holeNumber, holeScore, shot, "clubType") == Ok(Or(MapGet(clubNames, key), Empty))
      && (key !in clubNames ==> Cell(env, course, clubNames, holeNumber, holeScore, shot, "clubType") == Ok(Empty))
  {
  }

  /** A location column reads the part of a truthy location as it is, falsy or not; a missing location gives `''`. */
  lemma LocationCell(env: Env, course: Value, clubNames: map<string, Value>, holeNumber: Value, holeScore: Value, shot: Value, f: string)
    requires !Nullish(shot) && LocationOf(f).Some?
    ensures var (loc, part) := LocationOf(f).value;
      Cell(env, course, clubNames, holeNumber, holeScore, shot, f)
      == Ok(if Truthy(Get(shot, loc)) then Get(Get(shot, loc), part) else Empty)
  {
  }

  /** A falsy distance gives an empty cell, a truthy one its yard text. */
  lemma YardsCell(env: Env, course: Value, clubNames: map<string, Value>, holeNumber: Value, holeScore: Value, shot: Value)
    requires !Nullish(shot)
    ensures var meters := Get(shot, "meters");
      Cell(env, course, clubNames, holeNumber, holeScore, shot, "yards") == Ok(if Truthy(meters) then Str(env.yards(meters)) else Empty)
  {
  }

  // ---- Properties: the round loop ----

  /** A round whose detail response is not ok, or whose shot response is not ok, contributes no rows. */
  lemma RoundSkipped(env: Env, courseInfo: map<string, Value>, clubNames: map<string, Value>,
                     fetchDetail: Value -> Response, fetchShots: Value -> Response, id: Value)
    requires fetchDetail(id).Reply?
    requires fetchDetail(id).ok ==> DetailHoleScores(fetchDetail(id).body).Ok? && fetchShots(id).Reply? && !fetchShots(id).ok
    ensures RoundRows(env, courseInfo, clubNames, fetchDetail, fetchShots, id) == Ok([])
  {
  }

  /** A rejected fetch of a round stops the download. */
  lemma RoundRejected(env: Env, courseInfo: map<string, Value>, clubNames: map<string, Value>,
                      fetchDetail: Value -> Response, fetchShots: Value -> Response, id: Value)
    requires fetchDetail(id).Rejected? || (fetchDetail(id) == Reply(true, fetchDetail(id).body) && DetailHoleScores(fetchDetail(id).body).Ok? && fetchShots(id).Rejected?)
    ensures RoundRows(env, courseInfo, clubNames, fetchDetail, fetchShots, id) == Throw(TypeError)
  {
  }

  /** The rows are those of the first round, then those of the second, and so on; the loop finishes exactly when each round does. */
  lemma {:induction false} AllRoundRowsInOrder(env: Env, courseInfo: map<string, Value>, clubNames: map<string, Value>,
                                               fetchDetail: Value -> Response, fetchShots: Value -> Response, ids: seq<Value>)
    ensures AllRoundRows(env, courseInfo, clubNames, fetchDetail, fetchShots, ids).Ok? <==>
      forall i :: 0 <= i < |ids| ==> RoundRows(env, courseInfo, clubNames, fetchDetail, fetchShots, ids[i]).Ok?
    ensures AllRoundRows(env, courseInfo, clubNames, fetchDetail, fetchShots, ids).Ok? ==>
      AllRoundRows(env, courseInfo, clubNames, fetchDetail, fetchShots, ids).value
      == Flatten(seq(|ids|, i requires 0 <= i < |ids| && RoundRows(env, courseInfo, clubNames, fetchDetail, fetchShots, ids[i]).Ok? =>
           RoundRows(env, courseInfo, clubNames, fetchDetail, fetchShots, ids[i]).value))
    decreases |ids|
  {
    if ids != [] {
      AllRoundRowsInOrder(env, courseInfo, clubNames, fetchDetail, fetchShots, ids[1..]);
      assert forall i :: 1 <= i < |ids| ==> ids[i] == ids[1..][i - 1];
      if AllRoundRows(env, courseInfo, clubNames, fetchDetail, fetchShots, ids).Ok? {
        var blocks := seq(|ids|, i requires 0 <= i < |ids| && RoundRows(env, courseInfo, clubNames, fetchDetail, fetchShots, ids[i]).Ok? =>
          RoundRows(env, courseInfo, clubNames, fetchDetail, fetchShots, ids[i]).value);
        var rest := seq(|ids| - 1, i requires 0 <= i < |ids| - 1 && RoundRows(env, courseInfo, clubNames, fetchDetail, fetchShots, ids[1..][i]).Ok? =>
          RoundRows(env, courseInfo, clubNames, fetchDetail, fetchShots, ids[1..][i]).value);
        assert blocks[1..] == rest;
      }
    }
  }
}
