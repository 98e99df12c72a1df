/**
 * `getClubMappings`, `convertShotDataToCSV` and `downloadShotData` of
 * src/services/shotDataService.js. This copy keys its club tables by the
 * ids themselves (`Map` keys, not strings), reads every shot column straight
 * from the shot, converts the shot time with `new Date(...)` unguarded, and
 * joins its rows with line feeds.
 */
module ShotDataService {
  import opened JsValue
  import opened DateUtils
  import opened Runtime
  import opened Csv
  import opened Fill
  import ShotWalk

  const Fields: seq<string> := [
    "courseName", "holeNumber", "holeScore", "shotNumber",
    "clubType", "shotTime", "distance", "startLat", "startLon",
    "endLat", "endLon"]

  /** `metersToYards`: a truthy distance as yard text, `''` otherwise. */
  function MetersToYards(env: Env, meters: Value): Value {
    if Truthy(meters) then Str(env.yards(meters)) else Empty
  }

  // ---- Club mappings ----

  /** The club types: the body itself when it is an array, else its `clubTypes`, which must have `forEach`. */
  function ClubTypes(clubTypesData: Value): (r: Result<seq<Value>>)
    ensures r.Ok? <==> clubTypesData.Arr? || (!Nullish(clubTypesData) && Get(clubTypesData, "clubTypes").Arr?)
  {
    if clubTypesData.Arr? then Ok(clubTypesData.items)
    else
      var clubTypes :- Prop(clubTypesData, "clubTypes");
      ForEachItems(clubTypes)
  }

  /** `.id`, the value itself being the `Map` key. */
  function IdOf(v: Value): Value {
    Get(v, "id")
  }

  function TypeName(clubType: Value): Result<Value> {
    Ok(Get(clubType, "name"))
  }

  /** `clubTypeMap.get(club.clubTypeId) || 'Unknown'` */
  function ClubTypeNameOf(clubTypeMap: map<Value, Value>, club: Value): Result<Value> {
    Ok(Or(MapGet(clubTypeMap, Get(club, "clubTypeId")), Str("Unknown")))
  }

  function ClubTypeName(clubTypeMap: map<Value, Value>): Value -> Result<Value> {
    club => ClubTypeNameOf(clubTypeMap, club)
  }

  /** `clubTypeMap`: each club type's id sent to its name. */
  function ClubTypeMap(clubTypes: seq<Value>): Result<map<Value, Value>> {
    FillFrom(map[], clubTypes, Always, IdOf, TypeName)
  }

  /** `clubMap`: each player club's id sent to its type's name. */
  function ClubMap(clubTypeMap: map<Value, Value>, playerClubs: seq<Value>): Result<map<Value, Value>> {
    FillFrom(map[], playerClubs, Always, IdOf, ClubTypeName(clubTypeMap))
  }

  /** The body of `getClubMappings`' `try` block. */
  function Mappings(clubTypesResponse: Response, playerClubsResponse: Response): Result<map<Value, Value>> {
    var clubTypesData :- BodyOf(clubTypesResponse);
    var clubTypes :- ClubTypes(clubTypesData);
    var clubTypeMap :- ClubTypeMap(clubTypes);
    PlayerClubMap(clubTypeMap, playerClubsResponse)
  }

  function PlayerClubMap(clubTypeMap: map<Value, Value>, playerClubsResponse: Response): Result<map<Value, Value>> {
    var playerClubsData :- BodyOf(playerClubsResponse);
    var playerClubs :- ForEachItems(playerClubsData);
    ClubMap(clubTypeMap, playerClubs)
  }

  /** `getClubMappings`: any exception is caught and gives an empty map. */
  function ClubMappings(clubTypesResponse: Response, playerClubsResponse: Response): map<Value, Value> {
    match Mappings(clubTypesResponse, playerClubsResponse)
    case Ok(clubMap) => clubMap
    case Throw(_) => map[]
  }

  method GetClubMappings(clubTypesResponse: Response, playerClubsResponse: Response) returns (clubMap: map<Value, Value>)
    ensures clubMap == ClubMappings(clubTypesResponse, playerClubsResponse)
  {
    var clubTypesData := BodyOf(clubTypesResponse);
    if clubTypesData.Throw? {
      return map[];
    }
    var clubTypes := ClubTypes(clubTypesData.value);
    if clubTypes.Throw? {
      return map[];
    }
    var clubTypeMap := FillMap(clubTypes.value, Always, IdOf, TypeName);
    if clubTypeMap.Throw? {
      return map[];
    }
    var playerClubsData := BodyOf(playerClubsResponse);
    if playerClubsData.Throw? {
      return map[];
    }
    var playerClubs := ForEachItems(playerClubsData.value);
    if playerClubs.Throw? {
      return map[];
    }
    var filled := FillMap(playerClubs.value, Always, IdOf, ClubTypeName(clubTypeMap.value));
    if filled.Throw? {
      return map[];
    }
    return filled.value;
  }

  // ---- The converter ----

  /** The value the switch gives one column: reading a property of an `undefined` or `null` shot throws. */
  function Pick(env: Env, clubMap: map<Value, Value>, shot: Value, f: string): Result<Value> {
    if f == "clubType" then
      var clubId :- Prop(shot, "clubId");
      Ok(Or(MapGet(clubMap, clubId), Str("Unknown")))
    else if f == "shotTime" then
      var shotTime :- Prop(shot, "shotTime");
      var iso :- IsoOf(env, shotTime);
      Ok(Str(iso))
    else if f == "distance" then
      var meters :- Prop(shot, "meters");
      Ok(MetersToYards(env, meters))
    else
      var value :- Prop(shot, f);
      Ok(Or(value, Empty))
  }

  function CellOf(env: Env, clubMap: map<Value, Value>, shot: Value): string -> Result<Value> {
    f => Pick(env, clubMap, shot, f)
  }

  /** `fields.map(...)` for one shot, before escaping. */
  function Row(env: Env, clubMap: map<Value, Value>, shot: Value): Result<seq<Value>> {
    ShotWalk.MapCells(CellOf(env, clubMap, shot), Fields)
  }

  function RowFor(env: Env, clubMap: map<Value, Value>): Value -> Result<seq<Value>> {
    shot => Row(env, clubMap, shot)
  }

  /** Each shot's row, in order; the first shot whose row throws stops the `forEach`. */
  function Rows(row: Value -> Result<seq<Value>>, shots: seq<Value>): Result<seq<seq<Value>>>
    decreases |shots|
  {
    if shots == [] then Ok([])
    else
      var first :- row(shots[0]);
      var rest :- Rows(row, shots[1..]);
      Ok([first] + rest)
  }

  /** The converter: the header line, then the rows' escaped lines joined by line feeds. */
  function Output(env: Env, shotData: Value, clubMap: map<Value, Value>): Result<string> {
    var shots :- ForEachItems(shotData);
    var raws :- Rows(RowFor(env, clubMap), shots);
    Ok(Joined(Fields, raws))
  }

  lemma RowsStep(row: Value -> Result<seq<Value>>, shots: seq<Value>, i: nat, done: seq<seq<Value>>)
    requires i < |shots| && row(shots[i]).Ok?
    requires Rows(row, shots) == Prepend(done, Rows(row, shots[i..]))
    ensures Rows(row, shots) == Prepend(done + [row(shots[i]).value], Rows(row, shots[i + 1..]))
  {
    assert shots[i..][0] == shots[i];
    assert shots[i..][1..] == shots[i + 1..];
    var rest := Rows(row, shots[i + 1..]);
    if rest.Ok? {
      assert done + ([row(shots[i]).value] + rest.value) == done + [row(shots[i]).value] + rest.value;
    }
  }

  lemma LinesSnoc(done: seq<seq<Value>>, raw: seq<Value>)
    ensures Lines(EscapeRows(done + [raw])) == Lines(EscapeRows(done)) + [Line(EscapeAll(raw))]
  {
  }

  /** `shotData.forEach(shot => rows.push(row))`, then the header and the joined rows. */
  method ConvertShotDataToCsv(env: Env, shotData: Value, clubMap: map<Value, Value>) returns (r: Result<string>)
    ensures r == Output(env, shotData, clubMap)
  {
    var header := JoinStrings(Fields, ",") + "\n";
    var shots :- ForEachItems(shotData);
    var rows: seq<string> := [];
    ghost var done: seq<seq<Value>> := [];
    assert shots[0..] == shots;
    PrependNothing(Rows(RowFor(env, clubMap), shots));
    var i := 0;
    while i < |shots|
      invariant 0 <= i <= |shots|
      invariant Rows(RowFor(env, clubMap), shots) == Prepend(done, Rows(RowFor(env, clubMap), shots[i..]))
      invariant rows == Lines(EscapeRows(done))
    {
      var row :- ShotWalk.BuildRow(CellOf(env, clubMap, shots[i]), Fields);
      assert shots[i..][0] == shots[i];
      assert row == RowFor(env, clubMap)(shots[i]).value;
      RowsStep(RowFor(env, clubMap), shots, i, done);
      LinesSnoc(done, row);
      rows := rows + [Line(EscapeAll(row))];
      done := done + [row];
      i := i + 1;
    }
    assert shots[i..] == [];
    assert done + [] == done;
    return Ok(header + JoinStrings(rows, "\n"));
  }

  // ---- Download ----

  /** `shotData.forEach(shot => { shot.courseName = courseName; })` in strict mode code. */
  function Stamped(shots: seq<Value>, courseName: Value): Result<seq<Value>>
    decreases |shots|
  {
    if shots == [] then Ok([])
    else
      var shot :- SetProp(shots[0], "courseName", courseName, true);
      var rest :- Stamped(shots[1..], courseName);
      Ok([shot] + rest)
  }

  /** One scorecard's shots: fetched by `sc.id`, each stamped with `sc.courseName`. */
  function RoundShots(fetchShots: Value -> Response, sc: Value): Result<seq<Value>> {
    var id :- Prop(sc, "id");
    var shotData :- BodyOf(fetchShots(id));
    var shots :- ForEachItems(shotData);
    Stamped(shots, Get(sc, "courseName"))
  }

  /** `allShotData`: every scorecard's stamped shots, in order. */
  function AllShots(fetchShots: Value -> Response, scorecards: seq<Value>): Result<seq<Value>>
    decreases |scorecards|
  {
    if scorecards == [] then Ok([])
    else
      var shots :- RoundShots(fetchShots, scorecards[0]);
      var rest :- AllShots(fetchShots, scorecards[1..]);
      Ok(shots + rest)
  }

  /** The scorecards of the summary: `summaryData.scorecards`, whose `length` is read before `for ... of`. */
  function Scorecards(summaryResponse: Response): Result<seq<Value>> {
    var summaryData :- BodyOf(summaryResponse);
    var scorecards :- Prop(summaryData, "scorecards");
    var _ :- Prop(scorecards, "length");
    ForOfItems(scorecards)
  }

  /** `downloadShotData`: club mappings, every round's shots, then the converter; errors are rethrown. */
  function ShotDownload(env: Env, clubTypesResponse: Response, playerClubsResponse: Response, summaryResponse: Response,
                        fetchShots: Value -> Response, now: DateParts): Result<Export> {
    var clubMap := ClubMappings(clubTypesResponse, playerClubsResponse);
    var scorecards :- Scorecards(summaryResponse);
    var allShotData :- AllShots(fetchShots, scorecards);
    var csv :- Output(env, Arr(allShotData), clubMap);
    Ok(Export(csv, DateStampedFilename("garmin_golf_shots", now)))
  }

  /** `done` placed in front of the remaining values, or their exception. */
  function PrependValues(done: seq<Value>, r: Result<seq<Value>>): Result<seq<Value>> {
    if r.Ok? then Ok(done + r.value) else r
  }

  lemma StampedStep(shots: seq<Value>, courseName: Value, i: nat, done: seq<Value>)
    requires i < |shots| && SetProp(shots[i], "courseName", courseName, true).Ok?
    requires Stamped(shots, courseName) == PrependValues(done, Stamped(shots[i..], courseName))
    ensures Stamped(shots, courseName)
      == PrependValues(done + [SetProp(shots[i], "courseName", courseName, true).value], Stamped(shots[i + 1..], courseName))
  {
    assert shots[i..][0] == shots[i];
    assert shots[i..][1..] == shots[i + 1..];
    var rest := Stamped(shots[i + 1..], courseName);
    var shot := SetProp(shots[i], "courseName", courseName, true).value;
    if rest.Ok? {
      assert done + ([shot] + rest.value) == done + [shot] + rest.value;
    }
  }

  /** The `forEach` that writes the course name into each shot. */
  method StampCourse(shots: seq<Value>, courseName: Value) returns (r: Result<seq<Value>>)
    ensures r == Stamped(shots, courseName)
  {
    var stamped: seq<Value> := [];
    assert shots[0..] == shots;
    assert Stamped(shots, courseName).Ok? ==> [] + Stamped(shots, courseName).value == Stamped(shots, courseName).value;
    var i := 0;
    while i < |shots|
      invariant 0 <= i <= |shots|
      invariant Stamped(shots, courseName) == PrependValues(stamped, Stamped(shots[i..], courseName))
    {
      assert shots[i..][0] == shots[i];
      var shot :- SetProp(shots[i], "courseName", courseName, true);
      StampedStep(shots, courseName, i, stamped);
      stamped := stamped + [shot];
      i := i + 1;
    }
    assert shots[i..] == [];
    assert stamped + [] == stamped;
    return Ok(stamped);
  }

  method FetchRoundShots(fetchShots: Value -> Response, sc: Value) returns (r: Result<seq<Value>>)
    ensures r == RoundShots(fetchShots, sc)
  {
    var id :- Prop(sc, "id");
    var shotData :- BodyOf(fetchShots(id));
    var shots :- ForEachItems(shotData);
    r := StampCourse(shots, Get(sc, "courseName"));
  }

  lemma AllShotsStep(fetchShots: Value -> Response, scorecards: seq<Value>, i: nat, done: seq<Value>)
    requires i < |scorecards| && RoundShots(fetchShots, scorecards[i]).Ok?
    requires AllShots(fetchShots, scorecards) == PrependValues(done, AllShots(fetchShots, scorecards[i..]))
    ensures AllShots(fetchShots, scorecards)
      == PrependValues(done + RoundShots(fetchShots, scorecards[i]).value, AllShots(fetchShots, scorecards[i + 1..]))
  {
    assert scorecards[i..][0] == scorecards[i];
    assert scorecards[i..][1..] == scorecards[i + 1..];
    var rest := AllShots(fetchShots, scorecards[i + 1..]);
    var shots := RoundShots(fetchShots, scorecards[i]).value;
    if rest.Ok? {
      assert done + (shots + rest.value) == done + shots + rest.value;
    }
  }

  /** The `for (const sc of scorecards)` loop: `allShotData.push(...shotData)` per scorecard. */
  method CollectShots(fetchShots: Value -> Response, scorecards: seq<Value>) returns (r: Result<seq<Value>>)
    ensures r == AllShots(fetchShots, scorecards)
  {
    var allShotData: seq<Value> := [];
    assert scorecards[0..] == scorecards;
    assert AllShots(fetchShots, scorecards).Ok? ==> [] + AllShots(fetchShots, scorecards).value == AllShots(fetchShots, scorecards).value;
    var i := 0;
    while i < |scorecards|
      invariant 0 <= i <= |scorecards|
      invariant AllShots(fetchShots, scorecards) == PrependValues(allShotData, AllShots(fetchShots, scorecards[i..]))
    {
      assert scorecards[i..][0] == scorecards[i];
      var shots :- FetchRoundShots(fetchShots, scorecards[i]);
      AllShotsStep(fetchShots, scorecards, i, allShotData);
      allShotData := allShotData + shots;
      i := i + 1;
    }
    assert scorecards[i..] == [];
    assert allShotData + [] == allShotData;
    return Ok(allShotData);
  }

  method DownloadShotData(env: Env, clubTypesResponse: Response, playerClubsResponse: Response, summaryResponse: Response,
                          fetchShots: Value -> Response, now: DateParts) returns (r: Result<Export>)
    ensures r == ShotDownload(env, clubTypesResponse, playerClubsResponse, summaryResponse, fetchShots, now)
  {
    var clubMap := GetClubMappings(clubTypesResponse, playerClubsResponse);
    var scorecards :- Scorecards(summaryResponse);
    var allShotData :- CollectShots(fetchShots, scorecards);
    var csv :- ConvertShotDataToCsv(env, Arr(allShotData), clubMap);
    return Ok(Export(csv, DateStampedFilename("garmin_golf_shots", now)));
  }

  // ---- Properties: club mappings ----

  /** A failed fetch, a club-type body without an array, or a player-club body that is not an array gives the empty map. */
  lemma MappingsFallBack(clubTypesResponse: Response, playerClubsResponse: Response)
    ensures clubTypesResponse.Rejected? ==> ClubMappings(clubTypesResponse, playerClubsResponse) == map[]
    ensures clubTypesResponse.Reply? && ClubTypes(clubTypesResponse.body).Throw? ==> ClubMappings(clubTypesResponse, playerClubsResponse) == map[]
    ensures playerClubsResponse.Rejected? || (playerClubsResponse.Reply? && !playerClubsResponse.body.Arr?) ==>
      ClubMappings(clubTypesResponse, playerClubsResponse) == map[]
  {
  }

  /** Otherwise the mappings are the player clubs' table over the club types' table. */
  lemma MappingsComposed(clubTypesData: Value, playerClubs: seq<Value>)
    requires ClubTypes(clubTypesData).Ok? && ClubTypeMap(ClubTypes(clubTypesData).value).Ok?
    ensures ClubMappings(Reply(true, clubTypesData), Reply(true, Arr(playerClubs)))
      == match ClubMap(ClubTypeMap(ClubTypes(clubTypesData).value).value, playerClubs)
         case Ok(clubMap) => clubMap
         case Throw(_) => map[]
  {
  }

  /** A club type's id is sent to the name of the last type with that id. */
  lemma TypeNameLast(clubTypes: seq<Value>, j: nat)
    requires ClubTypeMap(clubTypes).Ok?
    requires j < |clubTypes| && forall j' :: j < j' < |clubTypes| ==> IdOf(clubTypes[j']) != IdOf(clubTypes[j])
    ensures MapGet(ClubTypeMap(clubTypes).value, IdOf(clubTypes[j])) == Get(clubTypes[j], "name")
  {
    FillLast(map[], clubTypes, Always, IdOf, TypeName, j);
  }

  /** A club's id is sent to its type's name, or `Unknown` when the type has none or no truthy one. */
  lemma ClubNameComposed(clubTypeMap: map<Value, Value>, playerClubs: seq<Value>, j: nat)
    requires ClubMap(clubTypeMap, playerClubs).Ok?
    requires j < |playerClubs| && forall j' :: j < j' < |playerClubs| ==> IdOf(playerClubs[j']) != IdOf(playerClubs[j])
    ensures var typeId := Get(playerClubs[j], "clubTypeId");
      && MapGet(ClubMap(clubTypeMap, playerClubs).value, IdOf(playerClubs[j])) == Or(MapGet(clubTypeMap, typeId), Str("Unknown"))
      && (typeId !in clubTypeMap ==> MapGet(ClubMap(clubTypeMap, playerClubs).value, IdOf(playerClubs[j])) == Str("Unknown"))
  {
    FillLast(map[], playerClubs, Always, IdOf, ClubTypeName(clubTypeMap), j);
  }

  /** An id no player club has is absent from the club map, so a shot with that club shows `Unknown`. */
  lemma UnknownClub(env: Env, clubTypeMap: map<Value, Value>, playerClubs: seq<Value>, shot: Value)
    requires ClubMap(clubTypeMap, playerClubs).Ok? && !Nullish(shot)
    requires forall j :: 0 <= j < |playerClubs| ==> IdOf(playerClubs[j]) != Get(shot, "clubId")
    ensures Get(shot, "clubId") !in ClubMap(clubTypeMap, playerClubs).value
    ensures Pick(env, ClubMap(clubTypeMap, playerClubs).value, shot, "clubType") == Ok(Str("Unknown"))
  {
    FillKeys(map[], playerClubs, Always, IdOf, ClubTypeName(clubTypeMap), Get(shot, "clubId"));
  }

  // ---- Properties: the converter ----

  /** A falsy distance gives `''`, a truthy one its yard text. */
  lemma DistanceCell(env: Env, clubMap: map<Value, Value>, shot: Value)
    requires !Nullish(shot)
    ensures var meters := Get(shot, "meters");
      Pick(env, clubMap, shot, "distance") == Ok(if Truthy(meters) then Str(env.yards(meters)) else Empty)
  {
  }

  /**
   * A shot yields a row exactly when it is neither `undefined` nor `null`
   * and its shot time converts; the row then holds the eleven picked values.
   */
  lemma RowIff(env: Env, clubMap: map<Value, Value>, shot: Value)
    ensures Row(env, clubMap, shot).Ok? <==> !Nullish(shot) && IsoOf(env, Get(shot, "shotTime")).Ok?
    ensures Row(env, clubMap, shot).Ok? ==>
      |Row(env, clubMap, shot).value| == |Fields|
      && forall k :: 0 <= k < |Fields| ==> Pick(env, clubMap, shot, Fields[k]) == Ok(Row(env, clubMap, shot).value[k])
  {
    ShotWalk.MapCellsIff(CellOf(env, clubMap, shot), Fields);
    forall k | 0 <= k < |Fields| ensures CellOf(env, clubMap, shot)(Fields[k]) == Pick(env, clubMap, shot, Fields[k]) {
    }
    PickOk(env, clubMap, shot, Fields[0]);
    PickOk(env, clubMap, shot, Fields[5]);
    forall k | 0 <= k < |Fields| ensures Pick(env, clubMap, shot, Fields[k]).Ok? <==> !Nullish(shot) && (Fields[k] == "shotTime" ==> IsoOf(env, Get(shot, "shotTime")).Ok?) {
      PickOk(env, clubMap, shot, Fields[k]);
    }
  }

  /** A column's value is computed exactly when the shot is neither `undefined` nor `null` and, for the shot time, it converts. */
  lemma PickOk(env: Env, clubMap: map<Value, Value>, shot: Value, f: string)
    ensures Pick(env, clubMap, shot, f).Ok? <==> !Nullish(shot) && (f == "shotTime" ==> IsoOf(env, Get(shot, "shotTime")).Ok?)
  {
  }

  /** An invalid shot time fails the whole conversion with a RangeError. */
  lemma InvalidShotTimeThrows(env: Env, clubMap: map<Value, Value>, shot: Value)
    requires !Nullish(shot) && IsoOf(env, Get(shot, "shotTime")).Throw?
    ensures Row(env, clubMap, shot) == Throw(RangeError)
  {
    var cell := CellOf(env, clubMap, shot);
    assert Fields[..5] == ["courseName", "holeNumber", "holeScore", "shotNumber", "clubType"];
    ShotWalk.MapCellsIff(cell, Fields[..5]);
    FirstThrow(cell, Fields, 5);
  }

  /** When the first k cells compute and cell k throws, the row throws cell k's exception. */
  lemma {:induction false} FirstThrow(cell: string -> Result<Value>, fields: seq<string>, k: nat)
    requires k < |fields| && cell(fields[k]).Throw?
    requires forall j :: 0 <= j < k ==> cell(fields[j]).Ok?
    ensures ShotWalk.MapCells(cell, fields) == Throw(cell(fields[k]).error)
    decreases k
  {
    if k > 0 {
      assert forall j :: 0 <= j < k - 1 ==> fields[1..][j] == fields[j + 1];
      FirstThrow(cell, fields[1..], k - 1);
    }
  }

  /** Every shot yields a row exactly when the rows do; row i is shot i's. */
  lemma {:induction false} RowsIff(row: Value -> Result<seq<Value>>, shots: seq<Value>)
    ensures Rows(row, shots).Ok? <==> forall i :: 0 <= i < |shots| ==> row(shots[i]).Ok?
    ensures Rows(row, shots).Ok? ==>
      |Rows(row, shots).value| == |shots|
      && forall i :: 0 <= i < |shots| ==> Rows(row, shots).value[i] == row(shots[i]).value
    decreases |shots|
  {
    if shots != [] {
      RowsIff(row, shots[1..]);
      assert forall i :: 1 <= i < |shots| ==> shots[i] == shots[1..][i - 1];
    }
  }

  /** No shots give the header line alone. */
  lemma NoShots(env: Env, clubMap: map<Value, Value>)
    ensures Output(env, Arr([]), clubMap) == Ok(JoinStrings(Fields, ",") + "\n")
  {
    DocumentEmpty(Fields);
  }

  lemma FieldsPlain()
    ensures |Fields| > 0 && PlainNames(Fields)
  {
    PlainFour("courseName", "holeNumber", "holeScore", "shotNumber");
    PlainFour("clubType", "shotTime", "distance", "startLat");
    PlainThree("startLon", "endLat", "endLon");
    PlainNamesAppend(["courseName", "holeNumber", "holeScore", "shotNumber"], ["clubType", "shotTime", "distance", "startLat"]);
    PlainNamesAppend(["courseName", "holeNumber", "holeScore", "shotNumber"] + ["clubType", "shotTime", "distance", "startLat"],
      ["startLon", "endLat", "endLon"]);
    assert Fields == ["courseName", "holeNumber", "holeScore", "shotNumber"] + ["clubType", "shotTime", "distance", "startLat"]
      + ["startLon", "endLat", "endLon"];
  }

  /** A shot's row, or no cells when the row throws. */
  function RowCells(env: Env, clubMap: map<Value, Value>, shot: Value): seq<Value> {
    match Row(env, clubMap, shot)
    case Ok(row) => row
    case Throw(_) => []
  }

  /** A shot that yields a row of values whose texts read back unchanged. */
  predicate Readable(env: Env, clubMap: map<Value, Value>, shot: Value) {
    Row(env, clubMap, shot).Ok? && |RowCells(env, clubMap, shot)| > 0
    && forall k :: 0 <= k < |RowCells(env, clubMap, shot)| ==> Plain(RowCells(env, clubMap, shot)[k])
  }

  /**
   * Read back line by line and field by field, a non-empty output is the
   * eleven header names, then one record per shot in order holding the
   * texts of its row, without an empty line after the last record.
   */
  lemma OutputReadsBack(env: Env, clubMap: map<Value, Value>, shots: seq<Value>, csv: string)
    requires shots != [] && forall i :: 0 <= i < |shots| ==> Readable(env, clubMap, shots[i])
    requires Output(env, Arr(shots), clubMap) == Ok(csv)
    ensures var lines := Split(csv, '\n');
      && |lines| == |shots| + 1
      && ParseRecord(lines[0]) == Fields
      && (forall i :: 0 <= i < |shots| ==> ParseRecord(lines[i + 1]) == Texts(RowCells(env, clubMap, shots[i])))
  {
    RowsIff(RowFor(env, clubMap), shots);
    var raws := Rows(RowFor(env, clubMap), shots).value;
    FieldsPlain();
    ReadBackSeparated(Fields, raws);
  }

  // ---- Properties: the download ----

  /**
   * Stamping succeeds exactly when every shot is an object or an array;
   * each stamped object then has the course name and keeps its other
   * properties, and an array is left as it was.
   */
  lemma {:induction false} StampedIff(shots: seq<Value>, courseName: Value)
    ensures Stamped(shots, courseName).Ok? <==> forall i :: 0 <= i < |shots| ==> shots[i].Obj? || shots[i].Arr?
    ensures Stamped(shots, courseName).Throw? ==> Stamped(shots, courseName).error == TypeError
    ensures Stamped(shots, courseName).Ok? ==>
      |Stamped(shots, courseName).value| == |shots|
      && forall i :: 0 <= i < |shots| ==> Stamped(shots, courseName).value[i] == SetProp(shots[i], "courseName", courseName, true).value
    decreases |shots|
  {
    if shots != [] {
      StampedIff(shots[1..], courseName);
      assert forall i :: 1 <= i < |shots| ==> shots[i] == shots[1..][i - 1];
    }
  }

  lemma StampedShot(shot: Value, courseName: Value)
    requires shot.Obj?
    ensures SetProp(shot, "courseName", courseName, true).Ok?
    ensures var stamped := SetProp(shot, "courseName", courseName, true).value;
      && Get(stamped, "courseName") == courseName
      && forall k :: k != "courseName" ==> Get(stamped, k) == Get(shot, k)
  {
  }

  /** A shot that is a number, string or boolean makes the strict-mode assignment throw. */
  lemma PrimitiveShotThrows(shots: seq<Value>, courseName: Value, i: nat)
    requires i < |shots| && (shots[i].Num? || shots[i].Str? || shots[i].Bool?)
    ensures Stamped(shots, courseName) == Throw(TypeError)
  {
    StampedIff(shots, courseName);
  }

  /** Collecting succeeds exactly when every scorecard's shots are fetched and stamped. */
  lemma {:induction false} AllShotsIff(fetchShots: Value -> Response, scorecards: seq<Value>)
    ensures AllShots(fetchShots, scorecards).Ok? <==> forall i :: 0 <= i < |scorecards| ==> RoundShots(fetchShots, scorecards[i]).Ok?
    decreases |scorecards|
  {
    if scorecards != [] {
      AllShotsIff(fetchShots, scorecards[1..]);
      assert forall i :: 1 <= i < |scorecards| ==> scorecards[i] == scorecards[1..][i - 1];
    }
  }

  /** The shots collected for two runs of scorecards are those of the first followed by those of the second. */
  lemma {:induction false} AllShotsAppend(fetchShots: Value -> Response, a: seq<Value>, b: seq<Value>)
    requires AllShots(fetchShots, a).Ok? && AllShots(fetchShots, b).Ok?
    ensures AllShots(fetchShots, a + b) == Ok(AllShots(fetchShots, a).value + AllShots(fetchShots, b).value)
    decreases |a|
  {
    if a != [] {
      assert (a + b)[0] == a[0];
      assert (a + b)[1..] == a[1..] + b;
      AllShotsAppend(fetchShots, a[1..], b);
      var first := RoundShots(fetchShots, a[0]).value;
      assert first + (AllShots(fetchShots, a[1..]).value + AllShots(fetchShots, b).value)
        == (first + AllShots(fetchShots, a[1..]).value) + AllShots(fetchShots, b).value;
    } else {
      assert [] + b == b;
      assert [] + AllShots(fetchShots, b).value == AllShots(fetchShots, b).value;
    }
  }

  /** A round's shots are the fetched array's elements, each stamped with the scorecard's course name. */
  lemma RoundShotsStamped(fetchShots: Value -> Response, sc: Value)
    requires RoundShots(fetchShots, sc).Ok?
    ensures var shots := fetchShots(Get(sc, "id")).body.items;
      && |RoundShots(fetchShots, sc).value| == |shots|
      && forall i :: 0 <= i < |shots| && shots[i].Obj? ==> Get(RoundShots(fetchShots, sc).value[i], "courseName") == Get(sc, "courseName")
  {
    var shots := fetchShots(Get(sc, "id")).body.items;
    StampedIff(shots, Get(sc, "courseName"));
  }

  /** A summary without a `scorecards` array or string fails the download with a TypeError. */
  lemma NoScorecardListThrows(summaryResponse: Response)
    requires summaryResponse.Reply?
    requires var list := Get(summaryResponse.body, "scorecards"); !list.Arr? && !list.Str?
    ensures Scorecards(summaryResponse) == Throw(TypeError)
  {
  }
}
