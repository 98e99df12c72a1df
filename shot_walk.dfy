/**
 * The walk both shot converters make over a round's shot data: for each
 * entry of `holeShots`, read its `holeNumber` and the hole's score, then
 * emit one row per entry of its `shots` array. The copies differ in how a
 * row and a hole's score are computed, so those are parameters here.
 */
module ShotWalk {
  import opened JsValue
  import opened Runtime
  import opened Csv

  /** The fourteen shot columns: which shot it is and how it was played, then its distance and locations. */
  function ShotFields(): seq<string> {
    ["courseName", "holeNumber", "holeScore", "shotOrder", "shotTime", "clubType", "shotType"]
    + ["yards", "startLoc_lie", "endLoc_lie", "startLoc_lat", "startLoc_lon", "endLoc_lat", "endLoc_lon"]
  }

  /** The column names hold no comma, quote or line feed, so the header reads back as the names. */
  lemma ShotFieldsPlain()
    ensures |ShotFields()| == 14 && PlainNames(ShotFields())
  {
    var a, b := ["courseName", "holeNumber", "holeScore", "shotOrder"], ["shotTime", "clubType", "shotType"];
    var c, d := ["yards", "startLoc_lie", "endLoc_lie", "startLoc_lat"], ["startLoc_lon", "endLoc_lat", "endLoc_lon"];
    PlainNamesFirst();
    PlainNamesSecond();
    PlainNamesThird();
    PlainNamesFourth();
    PlainNamesAppend(a, b);
    PlainNamesAppend(c, d);
    PlainNamesAppend(a + b, c + d);
    assert ShotFields() == a + b + (c + d);
  }

  lemma PlainNamesFirst() ensures PlainNames(["courseName", "holeNumber", "holeScore", "shotOrder"]) {
    PlainFour("courseName", "holeNumber", "holeScore", "shotOrder");
  }

  lemma PlainNamesSecond() ensures PlainNames(["shotTime", "clubType", "shotType"]) {
    PlainThree("shotTime", "clubType", "shotType");
  }

  lemma PlainNamesThird() ensures PlainNames(["yards", "startLoc_lie", "endLoc_lie", "startLoc_lat"]) {
    PlainFour("yards", "startLoc_lie", "endLoc_lie", "startLoc_lat");
  }

  lemma PlainNamesFourth() ensures PlainNames(["startLoc_lon", "endLoc_lat", "endLoc_lon"]) {
    PlainThree("startLoc_lon", "endLoc_lat", "endLoc_lon");
  }

  /** The location columns: which location of the shot they read and which part of it. */
  function LocationOf(f: string): Option<(string, string)> {
    if f == "startLoc_lie" then Some(("startLoc", "lie"))
    else if f == "endLoc_lie" then Some(("endLoc", "lie"))
    else if f == "startLoc_lat" then Some(("startLoc", "lat"))
    else if f == "startLoc_lon" then Some(("startLoc", "lon"))
    else if f == "endLoc_lat" then Some(("endLoc", "lat"))
    else if f == "endLoc_lon" then Some(("endLoc", "lon"))
    else None
  }

  /** A row from the hole number, the hole's score and the shot. */
  type RowFn = (Value, Value, Value) -> Result<seq<Value>>

  /** A hole's score from its number. */
  type ScoreFn = Value -> Result<Value>

  /** The cell rule of a copy: from the hole number, the hole's score and the shot, the value of each column. */
  type CellFn = (Value, Value, Value) -> (string -> Result<Value>)

  /** A shot's row: its cells in column order. */
  function RowOf(fields: seq<string>, cells: CellFn): RowFn {
    (holeNumber: Value, holeScore: Value, shot: Value) => MapCells(cells(holeNumber, holeScore, shot), fields)
  }

  /** `v && Array.isArray(v) ? v : []` as a list of elements. */
  function ArrayIfTruthy(v: Value): (r: seq<Value>)
    ensures v.Arr? ==> r == v.items
    ensures !v.Arr? ==> r == []
  {
    if Truthy(v) && v.Arr? then v.items else []
  }

  /** The shots of a hole: `hole.shots` when it is a truthy array. */
  function ShotsOf(hole: Value): seq<Value> {
    ArrayIfTruthy(Get(hole, "shots"))
  }

  /** One row per shot, in order, or the first row's exception. */
  function ShotRows(rowOf: RowFn, holeNumber: Value, holeScore: Value, shots: seq<Value>): Result<seq<seq<Value>>>
    decreases |shots|
  {
    if shots == [] then Ok([])
    else
      var row :- rowOf(holeNumber, holeScore, shots[0]);
      var rest :- ShotRows(rowOf, holeNumber, holeScore, shots[1..]);
      Ok([row] + rest)
  }

  /** The rows of one `holeShots` entry: reading its number throws on `undefined` and `null`. */
  function HoleRows(rowOf: RowFn, scoreOf: ScoreFn, hole: Value): Result<seq<seq<Value>>> {
    var holeNumber :- Prop(hole, "holeNumber");
    var holeScore :- scoreOf(holeNumber);
    ShotRows(rowOf, holeNumber, holeScore, ShotsOf(hole))
  }

  /** The rows of all holes, hole after hole. */
  function HolesRows(rowOf: RowFn, scoreOf: ScoreFn, holes: seq<Value>): Result<seq<seq<Value>>>
    decreases |holes|
  {
    if holes == [] then Ok([])
    else
      var rows :- HoleRows(rowOf, scoreOf, holes[0]);
      var rest :- HolesRows(rowOf, scoreOf, holes[1..]);
      Ok(rows + rest)
  }

  /** How many shots the holes list. */
  function TotalShots(holes: seq<Value>): nat
    decreases |holes|
  {
    if holes == [] then 0 else |ShotsOf(holes[0])| + TotalShots(holes[1..])
  }

  function Flatten(blocks: seq<seq<seq<Value>>>): seq<seq<Value>>
    decreases |blocks|
  {
    if blocks == [] then [] else blocks[0] + Flatten(blocks[1..])
  }

  /** `fields.map(cell)`, stopped by the first cell that throws. */
  function MapCells(cell: string -> Result<Value>, fields: seq<string>): Result<seq<Value>>
    decreases |fields|
  {
    if fields == [] then Ok([])
    else
      var v :- cell(fields[0]);
      var rest :- MapCells(cell, fields[1..]);
      Ok([v] + rest)
  }

  /** A truthy shot time is replaced by the ISO text of the instant its leading integer denotes; that throws for an invalid instant. */
  function ConvertShotTime(env: Env, f: string, value: Value): (r: Result<Value>)
    ensures !(f == "shotTime" && Truthy(value)) ==> r == Ok(value)
    ensures f == "shotTime" && Truthy(value) ==>
      (r.Ok? <==> env.isoOfParsedInt(value).Some?) && (r.Ok? ==> r == Ok(Str(env.isoOfParsedInt(value).value)))
  {
    if f == "shotTime" && Truthy(value) then
      match env.isoOfParsedInt(value)
      case Some(t) => Ok(Str(t))
      case None => Throw(RangeError)
    else Ok(value)
  }

  // ---- Steps of the loops that walk the shots ----

  lemma ShotRowsStep(rowOf: RowFn, holeNumber: Value, holeScore: Value, shots: seq<Value>, i: nat, done: seq<seq<Value>>)
    requires i < |shots|
    requires ShotRows(rowOf, holeNumber, holeScore, shots) == Prepend(done, ShotRows(rowOf, holeNumber, holeScore, shots[i..]))
    ensures rowOf(holeNumber, holeScore, shots[i]).Throw? ==>
      ShotRows(rowOf, holeNumber, holeScore, shots) == Throw(rowOf(holeNumber, holeScore, shots[i]).error)
    ensures rowOf(holeNumber, holeScore, shots[i]).Ok? ==>
      ShotRows(rowOf, holeNumber, holeScore, shots)
      == Prepend(done + [rowOf(holeNumber, holeScore, shots[i]).value], ShotRows(rowOf, holeNumber, holeScore, shots[i + 1..]))
  {
    assert shots[i..][0] == shots[i];
    assert shots[i..][1..] == shots[i + 1..];
    var rest := ShotRows(rowOf, holeNumber, holeScore, shots[i + 1..]);
    var row := rowOf(holeNumber, holeScore, shots[i]);
    if row.Ok? && rest.Ok? {
      assert done + ([row.value] + rest.value) == done + [row.value] + rest.value;
    }
  }

  lemma HolesRowsStep(rowOf: RowFn, scoreOf: ScoreFn, holes: seq<Value>, i: nat, done: seq<seq<Value>>)
    requires i < |holes|
    requires HolesRows(rowOf, scoreOf, holes) == Prepend(done, HolesRows(rowOf, scoreOf, holes[i..]))
    ensures HoleRows(rowOf, scoreOf, holes[i]).Throw? ==>
      HolesRows(rowOf, scoreOf, holes) == Throw(HoleRows(rowOf, scoreOf, holes[i]).error)
    ensures HoleRows(rowOf, scoreOf, holes[i]).Ok? ==>
      HolesRows(rowOf, scoreOf, holes)
      == Prepend(done + HoleRows(rowOf, scoreOf, holes[i]).value, HolesRows(rowOf, scoreOf, holes[i + 1..]))
  {
    var rows := HoleRows(rowOf, scoreOf, holes[i]);
    assert holes[i..] != [] && holes[i..][0] == holes[i] && holes[i..][1..] == holes[i + 1..];
    HolesRowsCons(rowOf, scoreOf, holes[i..], rows);
    if rows.Ok? {
      PrependTwice(done, rows.value, HolesRows(rowOf, scoreOf, holes[i + 1..]));
    }
  }

  lemma PrependTwice(done: seq<seq<Value>>, more: seq<seq<Value>>, r: Result<seq<seq<Value>>>)
    ensures Prepend(done, Prepend(more, r)) == Prepend(done + more, r)
  {
    if r.Ok? {
      assert done + (more + r.value) == done + more + r.value;
    }
  }

  /** The first hole's rows, then the rest's. */
  lemma HolesRowsCons(rowOf: RowFn, scoreOf: ScoreFn, holes: seq<Value>, rows: Result<seq<seq<Value>>>)
    requires holes != [] && rows == HoleRows(rowOf, scoreOf, holes[0])
    ensures HolesRows(rowOf, scoreOf, holes)
      == if rows.Throw? then Throw(rows.error) else Prepend(rows.value, HolesRows(rowOf, scoreOf, holes[1..]))
  {
  }

  /** `csv += row.join(',') + '\n'` adds the row to the rows the text holds. */
  lemma ExtendLine(csv: string, out: string, done: seq<seq<Value>>, row: seq<Value>)
    requires out == csv + Block(done)
    ensures out + Line(EscapeAll(row)) + "\n" == csv + Block(done + [row])
  {
    BlockSnoc(done, row);
    assert out + Line(EscapeAll(row)) + "\n" == csv + (Block(done) + Line(EscapeAll(row)) + "\n");
  }

  /** Extending the text by rows one run after another is extending it by all rows at once. */
  lemma ExtendStep(csv: string, done: seq<seq<Value>>, more: seq<seq<Value>>)
    ensures csv + Block(done) + Block(more) == csv + Block(done + more)
  {
    BlockConcat(done, more);
    assert csv + Block(done) + Block(more) == csv + (Block(done) + Block(more));
  }

  lemma MapCellsStep(cell: string -> Result<Value>, fields: seq<string>, i: nat, done: seq<Value>)
    requires i < |fields|
    requires MapCells(cell, fields) == PrependCells(done, MapCells(cell, fields[i..]))
    ensures cell(fields[i]).Throw? ==> MapCells(cell, fields) == Throw(cell(fields[i]).error)
    ensures cell(fields[i]).Ok? ==>
      MapCells(cell, fields) == PrependCells(done + [cell(fields[i]).value], MapCells(cell, fields[i + 1..]))
  {
    assert fields[i..][0] == fields[i];
    assert fields[i..][1..] == fields[i + 1..];
    var rest := MapCells(cell, fields[i + 1..]);
    if cell(fields[i]).Ok? && rest.Ok? {
      assert done + ([cell(fields[i]).value] + rest.value) == done + [cell(fields[i]).value] + rest.value;
    }
  }

  /** `done` placed in front of the remaining values, or their exception. */
  function PrependCells(done: seq<Value>, r: Result<seq<Value>>): Result<seq<Value>> {
    if r.Ok? then Ok(done + r.value) else r
  }

  // ---- The loops ----

  /** The loop over the columns that pushes one value per column onto the row. */
  method BuildRow(cell: string -> Result<Value>, fields: seq<string>) returns (r: Result<seq<Value>>)
    ensures r == MapCells(cell, fields)
  {
    var row: seq<Value> := [];
    assert fields[0..] == fields;
    assert MapCells(cell, fields).Ok? ==> [] + MapCells(cell, fields).value == MapCells(cell, fields).value;
    var i := 0;
    while i < |fields|
      invariant 0 <= i <= |fields|
      invariant MapCells(cell, fields) == PrependCells(row, MapCells(cell, fields[i..]))
    {
      MapCellsStep(cell, fields, i, row);
      var value :- cell(fields[i]);
      row := row + [value];
      i := i + 1;
    }
    assert fields[i..] == [];
    assert row + [] == row;
    return Ok(row);
  }

  /** The loop over one hole's shots, extending `csv` by the escaped line of each shot's row. */
  method AppendShots(fields: seq<string>, csv: string, cells: CellFn, holeNumber: Value, holeScore: Value, shots: seq<Value>)
    returns (r: Result<string>)
    ensures r == Extend(csv, ShotRows(RowOf(fields, cells), holeNumber, holeScore, shots))
  {
    ghost var rowOf := RowOf(fields, cells);
    var out := csv;
    ghost var done: seq<seq<Value>> := [];
    BlockEmpty();
    assert shots[0..] == shots;
    PrependNothing(ShotRows(rowOf, holeNumber, holeScore, shots));
    var i := 0;
    while i < |shots|
      invariant 0 <= i <= |shots|
      invariant ShotRows(rowOf, holeNumber, holeScore, shots) == Prepend(done, ShotRows(rowOf, holeNumber, holeScore, shots[i..]))
      invariant out == csv + Block(done)
    {
      ShotRowsStep(rowOf, holeNumber, holeScore, shots, i, done);
      var row :- BuildRow(cells(holeNumber, holeScore, shots[i]), fields);
      ExtendLine(csv, out, done, row);
      out := out + Line(EscapeAll(row)) + "\n";
      done := done + [row];
      i := i + 1;
    }
    assert shots[i..] == [];
    assert done + [] == done;
    return Ok(out);
  }

  /** The loop over the holes: read the hole's number and score, then walk its shots if it has a shot array. */
  method AppendHoles(fields: seq<string>, csv: string, cells: CellFn, scoreOf: ScoreFn, holes: seq<Value>) returns (r: Result<string>)
    ensures r == Extend(csv, HolesRows(RowOf(fields, cells), scoreOf, holes))
  {
    ghost var rowOf := RowOf(fields, cells);
    var out := csv;
    ghost var done: seq<seq<Value>> := [];
    BlockEmpty();
    assert holes[0..] == holes;
    PrependNothing(HolesRows(rowOf, scoreOf, holes));
    var i := 0;
    while i < |holes|
      invariant 0 <= i <= |holes|
      invariant HolesRows(rowOf, scoreOf, holes) == Prepend(done, HolesRows(rowOf, scoreOf, holes[i..]))
      invariant out == csv + Block(done)
    {
      var hole := holes[i];
      HolesRowsStep(rowOf, scoreOf, holes, i, done);
      var holeNumber :- Prop(hole, "holeNumber");
      var holeScore :- scoreOf(holeNumber);
      var shots := Get(hole, "shots");
      ghost var rows: seq<seq<Value>> := [];
      if Truthy(shots) && shots.Arr? {
        out :- AppendShots(fields, out, cells, holeNumber, holeScore, shots.items);
        rows := ShotRows(rowOf, holeNumber, holeScore, shots.items).value;
      }
      ExtendStep(csv, done, rows);
      done := done + rows;
      i := i + 1;
    }
    assert holes[i..] == [];
    assert done + [] == done;
    return Ok(out);
  }

  /** A whole shot file: the header line, then the rows of the holes. */
  function ShotDocument(fields: seq<string>, cells: CellFn, scoreOf: ScoreFn, holes: seq<Value>): Result<string> {
    var rows :- HolesRows(RowOf(fields, cells), scoreOf, holes);
    Ok(Document(fields, rows))
  }

  /** The header line, then the loop over the holes when `holeShots` is a truthy array. */
  method WriteShots(fields: seq<string>, cells: CellFn, scoreOf: ScoreFn, holeShots: Value) returns (r: Result<string>)
    ensures r == ShotDocument(fields, cells, scoreOf, ArrayIfTruthy(holeShots))
  {
    var csv := JoinStrings(fields, ",") + "\n";
    if Truthy(holeShots) && holeShots.Arr? {
      ExtendHeader(fields, HolesRows(RowOf(fields, cells), scoreOf, holeShots.items));
      r := AppendHoles(fields, csv, cells, scoreOf, holeShots.items);
    } else {
      assert HolesRows(RowOf(fields, cells), scoreOf, []) == Ok([]);
      DocumentEmpty(fields);
      r := Ok(csv);
    }
  }

  // ---- Properties ----

  /** A row is built exactly when every cell is; then it holds one value per field, in field order. */
  lemma {:induction false} MapCellsIff(cell: string -> Result<Value>, fields: seq<string>)
    ensures MapCells(cell, fields).Ok? <==> forall k :: 0 <= k < |fields| ==> cell(fields[k]).Ok?
    ensures MapCells(cell, fields).Ok? ==>
      |MapCells(cell, fields).value| == |fields|
      && forall k :: 0 <= k < |fields| ==> MapCells(cell, fields).value[k] == cell(fields[k]).value
    decreases |fields|
  {
    if fields != [] {
      MapCellsIff(cell, fields[1..]);
      assert forall k :: 1 <= k < |fields| ==> fields[k] == fields[1..][k - 1];
    }
  }

  /** A cell that throws makes the whole row throw. */
  lemma MapCellsThrows(cell: string -> Result<Value>, fields: seq<string>, k: nat)
    requires k < |fields| && cell(fields[k]).Throw?
    ensures MapCells(cell, fields).Throw?
  {
    MapCellsIff(cell, fields);
  }

  /** A hole yields rows exactly when every shot's row does; then row k belongs to shot k. */
  lemma {:induction false} ShotRowsIff(rowOf: RowFn, holeNumber: Value, holeScore: Value, shots: seq<Value>)
    ensures ShotRows(rowOf, holeNumber, holeScore, shots).Ok? <==>
      forall k :: 0 <= k < |shots| ==> rowOf(holeNumber, holeScore, shots[k]).Ok?
    ensures ShotRows(rowOf, holeNumber, holeScore, shots).Ok? ==>
      |ShotRows(rowOf, holeNumber, holeScore, shots).value| == |shots|
      && forall k :: 0 <= k < |shots| ==>
        ShotRows(rowOf, holeNumber, holeScore, shots).value[k] == rowOf(holeNumber, holeScore, shots[k]).value
    decreases |shots|
  {
    if shots != [] {
      ShotRowsIff(rowOf, holeNumber, holeScore, shots[1..]);
      assert forall k :: 1 <= k < |shots| ==> shots[k] == shots[1..][k - 1];
    }
  }

  /** There is one row per shot over all holes. */
  lemma {:induction false} HolesRowsCount(rowOf: RowFn, scoreOf: ScoreFn, holes: seq<Value>)
    requires HolesRows(rowOf, scoreOf, holes).Ok?
    ensures |HolesRows(rowOf, scoreOf, holes).value| == TotalShots(holes)
    decreases |holes|
  {
    if holes != [] {
      HolesRowsCount(rowOf, scoreOf, holes[1..]);
      var hole := holes[0];
      var holeNumber := Get(hole, "holeNumber");
      ShotRowsIff(rowOf, holeNumber, scoreOf(holeNumber).value, ShotsOf(hole));
    }
  }

  /**
   * The rows are those of the first hole, then those of the second, and so
   * on; all the holes yield rows exactly when each of them does.
   */
  lemma {:induction false} HolesRowsInOrder(rowOf: RowFn, scoreOf: ScoreFn, holes: seq<Value>)
    ensures HolesRows(rowOf, scoreOf, holes).Ok? <==> forall j :: 0 <= j < |holes| ==> HoleRows(rowOf, scoreOf, holes[j]).Ok?
    ensures HolesRows(rowOf, scoreOf, holes).Ok? ==>
      HolesRows(rowOf, scoreOf, holes).value
      == Flatten(seq(|holes|, j requires 0 <= j < |holes| && HoleRows(rowOf, scoreOf, holes[j]).Ok? => HoleRows(rowOf, scoreOf, holes[j]).value))
    decreases |holes|
  {
    if holes != [] {
      HolesRowsInOrder(rowOf, scoreOf, holes[1..]);
      assert forall j :: 1 <= j < |holes| ==> holes[j] == holes[1..][j - 1];
      if HolesRows(rowOf, scoreOf, holes).Ok? {
        var blocks := seq(|holes|, j requires 0 <= j < |holes| && HoleRows(rowOf, scoreOf, holes[j]).Ok? => HoleRows(rowOf, scoreOf, holes[j]).value);
        var rest := seq(|holes| - 1, j requires 0 <= j < |holes| - 1 && HoleRows(rowOf, scoreOf, holes[1..][j]).Ok? => HoleRows(rowOf, scoreOf, holes[1..][j]).value);
        assert blocks[1..] == rest;
      }
    }
  }

  /** A hole without a shot array contributes no row, whatever its score. */
  lemma HoleWithoutShots(rowOf: RowFn, scoreOf: ScoreFn, hole: Value)
    requires !Nullish(hole) && scoreOf(Get(hole, "holeNumber")).Ok?
    requires var s := Get(hole, "shots"); !(Truthy(s) && s.Arr?)
    ensures HoleRows(rowOf, scoreOf, hole) == Ok([])
  {
  }

  /**
   * Read back line by line and field by field, a shot file is the column
   * names, then one record per shot, in hole order and shot order, with one
   * field per column, then the empty line after the last line feed.
   */
  lemma ShotDocumentReadsBack(fields: seq<string>, cells: CellFn, scoreOf: ScoreFn, holes: seq<Value>)
    requires |fields| > 0 && PlainNames(fields)
    requires ShotDocument(fields, cells, scoreOf, holes).Ok?
    requires PlainRows(HolesRows(RowOf(fields, cells), scoreOf, holes).value)
    ensures var lines := Split(ShotDocument(fields, cells, scoreOf, holes).value, '\n');
      && |lines| == TotalShots(holes) + 2
      && ParseRecord(lines[0]) == fields
      && (forall i :: 1 <= i <= TotalShots(holes) ==> |ParseRecord(lines[i])| == |fields|)
      && |HolesRows(RowOf(fields, cells), scoreOf, holes).value| == TotalShots(holes)
      && (forall i :: 1 <= i <= TotalShots(holes) ==>
            ParseRecord(lines[i]) == Texts(HolesRows(RowOf(fields, cells), scoreOf, holes).value[i - 1]))
      && lines[TotalShots(holes) + 1] == ""
  {
    var rows := HolesRows(RowOf(fields, cells), scoreOf, holes).value;
    HolesRowsCount(RowOf(fields, cells), scoreOf, holes);
    forall i | 0 <= i < |rows| ensures |rows[i]| == |fields| {
      RowWidth(fields, cells, scoreOf, holes, i);
    }
    RowsReadBack(fields, rows);
  }

  /** The terminated layout of rows as wide as the header, read back line by line. */
  lemma RowsReadBack(fields: seq<string>, rows: seq<seq<Value>>)
    requires |fields| > 0 && PlainNames(fields) && PlainRows(rows)
    requires forall i :: 0 <= i < |rows| ==> |rows[i]| == |fields|
    ensures var lines := Split(Document(fields, rows), '\n');
      && |lines| == |rows| + 2
      && ParseRecord(lines[0]) == fields
      && (forall i :: 1 <= i <= |rows| ==> ParseRecord(lines[i]) == Texts(rows[i - 1]) && |ParseRecord(lines[i])| == |fields|)
      && lines[|rows| + 1] == ""
  {
    var lines := Split(Document(fields, rows), '\n');
    ReadBackTerminated(fields, rows);
    forall i | 1 <= i <= |rows|
      ensures ParseRecord(lines[i]) == Texts(rows[i - 1])
    {
      assert ParseRecord(lines[(i - 1) + 1]) == Texts(rows[i - 1]);
    }
  }

  /** Every row has one value per column. */
  lemma {:induction false} RowWidth(fields: seq<string>, cells: CellFn, scoreOf: ScoreFn, holes: seq<Value>, i: nat)
    requires HolesRows(RowOf(fields, cells), scoreOf, holes).Ok?
    requires i < |HolesRows(RowOf(fields, cells), scoreOf, holes).value|
    ensures |HolesRows(RowOf(fields, cells), scoreOf, holes).value[i]| == |fields|
    decreases |holes|
  {
    var rowOf := RowOf(fields, cells);
    var first := HoleRows(rowOf, scoreOf, holes[0]).value;
    if i < |first| {
      var holeNumber := Get(holes[0], "holeNumber");
      var holeScore := scoreOf(holeNumber).value;
      var shots := ShotsOf(holes[0]);
      ShotRowsIff(rowOf, holeNumber, holeScore, shots);
      MapCellsIff(cells(holeNumber, holeScore, shots[i]), fields);
    } else {
      RowWidth(fields, cells, scoreOf, holes[1..], i - |first|);
    }
  }
}
