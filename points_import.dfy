/** Spreadsheet import of map points (src/app/api/points/upload/route.ts):
    each row is checked and becomes one point or one error message, and the
    valid points are then posted one by one. Reading the workbook is left to
    the caller, which passes the rows of the first sheet as cell maps. */
module PointsImport {
  import opened Base
  import opened MapPoints
  import PointsPage

  /** One sheet row: column title to cell text. */
  type Row = map<string, string>

  /** `POINT_TYPE_MAP`, keyed by the trimmed, lowercased type cell. */
  function PointTypePreset(typeStr: string): Option<string> {
    if typeStr == "точка продаж" then Some(GrayDot)
    else if typeStr == "официальная точка продаж" then Some(RedDot)
    else if typeStr == "дилер" then Some(BlueDot)
    else None
  }

  /** `POINT_TYPE_MAP[typeStr] || 'islands#grayDotIcon'` for the raw cell. */
  function PresetFor(typeCell: string): (r: string)
    ensures r == GrayDot || r == RedDot || r == BlueDot
    ensures PointTypePreset(Lower(Trim(typeCell))).None? ==> r == GrayDot
  {
    PointTypePreset(Lower(Trim(typeCell))).GetOr(GrayDot)
  }

  /** The type cell is matched after trimming, whatever the case of its
      letters: each key of the table gives its own preset. */
  lemma PresetIgnoresCase(cell: string)
    ensures Lower(Trim(cell)) == "точка продаж" ==> PresetFor(cell) == GrayDot
    ensures Lower(Trim(cell)) == "официальная точка продаж" ==> PresetFor(cell) == RedDot
    ensures Lower(Trim(cell)) == "дилер" ==> PresetFor(cell) == BlueDot
  {
  }

  /** A type cell holding the label the points page shows for a preset
      imports as that preset. */
  lemma PresetOfLabel(preset: string)
    requires PointsPage.KnownPreset(Some(preset))
    ensures PresetFor(PointsPage.PointTypeLabel(Some(preset))) == preset
  {
    if preset == GrayDot {
      GrayLabel();
    } else if preset == RedDot {
      RedLabel();
    } else {
      BlueLabel();
    }
  }

  lemma GrayLabel()
    ensures PointsPage.PointTypeLabel(Some(GrayDot)) == "Точка продаж"
    ensures PresetFor("Точка продаж") == GrayDot
  {
    assert IsLowered("очка продаж");
    assert "Точка продаж" == ['Т'] + "очка продаж";
    assert "точка продаж" == ['т'] + "очка продаж";
    LabelLowersToKey("Точка продаж", "точка продаж", 'Т', "очка продаж");
  }

  lemma RedLabel()
    ensures PointsPage.PointTypeLabel(Some(RedDot)) == "Официальная точка продаж"
    ensures PresetFor("Официальная точка продаж") == RedDot
  {
    assert IsLowered("фициальная точка продаж");
    assert "Официальная точка продаж" == ['О'] + "фициальная точка продаж";
    assert "официальная точка продаж" == ['о'] + "фициальная точка продаж";
    LabelLowersToKey("Официальная точка продаж", "официальная точка продаж", 'О', "фициальная точка продаж");
  }

  lemma BlueLabel()
    ensures PointsPage.PointTypeLabel(Some(BlueDot)) == "Дилер"
    ensures PresetFor("Дилер") == BlueDot
  {
    assert IsLowered("илер");
    assert "Дилер" == ['Д'] + "илер";
    assert "дилер" == ['д'] + "илер";
    LabelLowersToKey("Дилер", "дилер", 'Д', "илер");
  }

  /** A capitalised title lowers to its key. */
  lemma LabelLowersToKey(title: string, key: string, c: char, rest: string)
    requires title == [c] + rest && key == [LowerChar(c)] + rest && IsLowered(rest)
    requires rest != [] && !IsSpace(c) && !IsSpace(rest[|rest| - 1])
    ensures PresetFor(title) == PointTypePreset(key).GetOr(GrayDot)
  {
    TrimKeeps(title);
    LowerInitial(c, rest);
  }

  /** Lowercasing a capitalised word changes its first letter only. */
  lemma LowerInitial(c: char, rest: string)
    requires IsLowered(rest)
    ensures Lower([c] + rest) == [LowerChar(c)] + rest
  {
  }

  lemma TrimKeeps(s: string)
    requires s != [] && !IsSpace(s[0]) && !IsSpace(s[|s| - 1])
    ensures Trim(s) == s
  {
  }

  /** `parseCoordinates` of the import: an empty string is refused first. */
  function ImportCoordinates(coordString: string, parseNumber: string -> Option<real>): Option<Coords> {
    if coordString == "" then None else PointsPage.ParseCoordinates(coordString, parseNumber)
  }

  /** The empty-string test is redundant: `"".split(',')` has one part, which
      the page's parser refuses as well, so both parsers agree everywhere. */
  lemma ImportCoordinatesAgree(coordString: string, parseNumber: string -> Option<real>)
    ensures ImportCoordinates(coordString, parseNumber) == PointsPage.ParseCoordinates(coordString, parseNumber)
  {
    if coordString == "" {
      assert Split(coordString, ',') == [""];
    }
  }

  datatype ImportedPoint = ImportedPoint(
    name: string,
    address: string,
    coords: Coords,
    phone: string,
    email: string,
    website: string,
    preset: string)

  datatype RowOutcome = Accepted(point: ImportedPoint) | Refused(message: string)

  /** The cells of a row, trimmed (`(row[key] || '').toString().trim()`); the
      type cell is kept as read, `PresetFor` trims and lowercases it. */
  datatype RowCells = RowCells(
    name: string,
    address: string,
    coords: string,
    phone: string,
    email: string,
    website: string,
    kind: string)

  function Cells(row: Row): RowCells {
    RowCells(
      Trim(Prop(row, "Название")),
      Trim(Prop(row, "Адрес")),
      Trim(Prop(row, "Координаты")),
      Trim(Prop(row, "Телефон")),
      Trim(Prop(row, "Email")),
      Trim(Prop(row, "Сайт")),
      Prop(row, "Тип"))
  }

  /** The row number shown to the user: the header is row 1. */
  function RowLabel(index: nat): (r: string)
    ensures StartsWith(r, "Строка ")
  {
    "Строка " + NatToString(index + 2) + ": "
  }

  /** The checks of one row, in the order name, address, coordinates. */
  function CheckCells(c: RowCells, index: nat, parseNumber: string -> Option<real>): (r: RowOutcome)
    ensures r.Accepted? <==> c.name != "" && c.address != "" && ImportCoordinates(c.coords, parseNumber).Some?
    ensures c.name == "" ==> r == Refused(RowLabel(index) + "отсутствует название")
    ensures c.name != "" && c.address == "" ==> r == Refused(RowLabel(index) + "отсутствует адрес")
    ensures r.Accepted? ==> r.point.name == c.name && r.point.address == c.address && r.point.preset == PresetFor(c.kind)
    ensures r.Accepted? ==> Some(r.point.coords) == ImportCoordinates(c.coords, parseNumber)
  {
    if c.name == "" then Refused(RowLabel(index) + "отсутствует название")
    else if c.address == "" then Refused(RowLabel(index) + "отсутствует адрес")
    else match ImportCoordinates(c.coords, parseNumber)
      case None => Refused(RowLabel(index) + "неверный формат координат")
      case Some(xy) => Accepted(ImportedPoint(c.name, c.address, xy, c.phone, c.email, c.website, PresetFor(c.kind)))
  }

  function CheckRow(row: Row, index: nat, parseNumber: string -> Option<real>): RowOutcome {
    CheckCells(Cells(row), index, parseNumber)
  }

  /** Distinct rows report distinct row numbers. */
  lemma RowLabelsDistinct(i: nat, j: nat)
    requires RowLabel(i) == RowLabel(j)
    ensures i == j
  {
    var a, b := NatToString(i + 2), NatToString(j + 2);
    var prefix := "Строка ";
    assert RowLabel(i) == prefix + (a + ": ");
    assert RowLabel(j) == prefix + (b + ": ");
    assert a + ": " == b + ": ";
    assert a == (a + ": ")[..|a|];
    assert b == (b + ": ")[..|b|];
    NatToStringInjective(i + 2, j + 2);
  }

  /** The outcome of every row, in row order. */
  function Outcomes(rows: seq<Row>, parseNumber: string -> Option<real>): (r: seq<RowOutcome>)
    ensures |r| == |rows|
  {
    if rows == [] then []
    else Outcomes(rows[..|rows| - 1], parseNumber) + [CheckRow(rows[|rows| - 1], |rows| - 1, parseNumber)]
  }

  /** Row `i` is judged by `CheckRow` with its own index. */
  lemma {:induction false} OutcomeAt(rows: seq<Row>, parseNumber: string -> Option<real>, i: nat)
    requires i < |rows|
    ensures Outcomes(rows, parseNumber)[i] == CheckRow(rows[i], i, parseNumber)
  {
    if i < |rows| - 1 {
      OutcomeAt(rows[..|rows| - 1], parseNumber, i);
    }
  }

  /** The accepted points, in row order. */
  function PointsIn(outcomes: seq<RowOutcome>): seq<ImportedPoint> {
    if outcomes == [] then []
    else
      var last := outcomes[|outcomes| - 1];
      PointsIn(outcomes[..|outcomes| - 1]) + (if last.Accepted? then [last.point] else [])
  }

  /** The error messages, in row order. */
  function ErrorsIn(outcomes: seq<RowOutcome>): seq<string> {
    if outcomes == [] then []
    else
      var last := outcomes[|outcomes| - 1];
      ErrorsIn(outcomes[..|outcomes| - 1]) + (if last.Refused? then [last.message] else [])
  }

  /** Every row yields exactly one point or exactly one error. */
  lemma {:induction false} PointsPlusErrors(outcomes: seq<RowOutcome>)
    ensures |PointsIn(outcomes)| + |ErrorsIn(outcomes)| == |outcomes|
  {
    if outcomes != [] {
      PointsPlusErrors(outcomes[..|outcomes| - 1]);
    }
  }

  /** No accepted point unless some row passes all three checks. */
  lemma {:induction false} NoPointsMeansAllRefused(outcomes: seq<RowOutcome>)
    ensures PointsIn(outcomes) == [] <==> forall i :: 0 <= i < |outcomes| ==> outcomes[i].Refused?
  {
    if outcomes != [] {
      var init := outcomes[..|outcomes| - 1];
      NoPointsMeansAllRefused(init);
      assert forall i :: 0 <= i < |init| ==> init[i] == outcomes[i];
    }
  }

  /** The pushes of the `rows.forEach` loop: one into `points` or `errors` per row outcome. */
  method Partition(outcomes: seq<RowOutcome>) returns (points: seq<ImportedPoint>, errors: seq<string>)
    ensures points == PointsIn(outcomes)
    ensures errors == ErrorsIn(outcomes)
  {
    points, errors := [], [];
    var index := 0;
    while index < |outcomes|
      invariant 0 <= index <= |outcomes|
      invariant points == PointsIn(outcomes[..index])
      invariant errors == ErrorsIn(outcomes[..index])
    {
      assert outcomes[..index + 1][..index] == outcomes[..index];
      var outcome := outcomes[index];
      if outcome.Accepted? {
        points := points + [outcome.point];
      } else {
        errors := errors + [outcome.message];
      }
      index := index + 1;
    }
    assert outcomes[..|outcomes|] == outcomes;
  }

  /** The `rows.forEach` loop: each row is checked, then pushed. */
  method ValidateRows(rows: seq<Row>, parseNumber: string -> Option<real>)
    returns (points: seq<ImportedPoint>, errors: seq<string>)
    ensures points == PointsIn(Outcomes(rows, parseNumber))
    ensures errors == ErrorsIn(Outcomes(rows, parseNumber))
    ensures |points| + |errors| == |rows|
  {
    var outcomes := Outcomes(rows, parseNumber);
    points, errors := Partition(outcomes);
    PointsPlusErrors(outcomes);
  }

  datatype ImportResponse =
    | ImportFailure(status: nat, error: string, details: seq<string>)
    | ImportSuccess(imported: nat, total: nat, errors: Option<seq<string>>, points: seq<MapPoint>)

  const NoFile := "Файл не загружен"
  const EmptySheet := "Файл пустой или неверный формат"
  const NothingImported := "Не удалось импортировать точки"

  /** The accepted points that the points API took, in order. */
  function Added(points: seq<ImportedPoint>, post: ImportedPoint -> Option<MapPoint>): (r: seq<MapPoint>)
    ensures |r| <= |points|
  {
    if points == [] then []
    else
      var init := Added(points[..|points| - 1], post);
      match post(points[|points| - 1])
      case Some(p) => init + [p]
      case None => init
  }

  /** The `for (const point of points)` loop: each point is posted, and the
      ones the points API returns are collected. */
  method PostAll(points: seq<ImportedPoint>, post: ImportedPoint -> Option<MapPoint>) returns (added: seq<MapPoint>)
    ensures added == Added(points, post)
    ensures |added| <= |points|
  {
    added := [];
    var k := 0;
    while k < |points|
      invariant 0 <= k <= |points|
      invariant added == Added(points[..k], post)
    {
      assert points[..k + 1][..k] == points[..k];
      var res := post(points[k]);
      if res.Some? {
        added := added + [res.value];
      }
      k := k + 1;
    }
    assert points[..|points|] == points;
  }

  /** The upload handler. `rows` is `None` when the form carries no file;
      `post(p)` is the point returned by a successful POST to the points API,
      `None` when that request fails. */
  method Import(rows: Option<seq<Row>>, parseNumber: string -> Option<real>, post: ImportedPoint -> Option<MapPoint>)
    returns (resp: ImportResponse)
    ensures rows.None? ==> resp == ImportFailure(400, NoFile, [])
    ensures rows == Some([]) ==> resp == ImportFailure(400, EmptySheet, [])
    ensures rows.Some? && rows.value != [] ==> var outcomes := Outcomes(rows.value, parseNumber);
      && (PointsIn(outcomes) == [] ==> resp == ImportFailure(400, NothingImported, ErrorsIn(outcomes)))
      && (PointsIn(outcomes) != [] ==>
            && resp.ImportSuccess?
            && resp.total == |PointsIn(outcomes)|
            && resp.points == Added(PointsIn(outcomes), post)
            && resp.imported == |resp.points| <= resp.total
            && resp.errors == (if ErrorsIn(outcomes) == [] then None else Some(ErrorsIn(outcomes))))
  {
    if rows.None? {
      return ImportFailure(400, NoFile, []);
    }
    if rows.value == [] {
      return ImportFailure(400, EmptySheet, []);
    }
    var points, errors := ValidateRows(rows.value, parseNumber);
    if |points| == 0 {
      return ImportFailure(400, NothingImported, errors);
    }
    var added := PostAll(points, post);
    resp := ImportSuccess(|added|, |points|, if |errors| > 0 then Some(errors) else None, added);
  }
}
