/** The one on-disk pose schema: columns bound by name, legacy headers converted.
    A table is what the CSV layer hands over, its numbers already parsed. */
module PoseCsv {
  import opened Reals
  import opened Options
  import opened Texts

  /** A cell's text as float() takes it. */
  datatype Cell = Blank | Number(v: real) | Junk

  datatype Table = Table(header: seq<string>, rows: seq<seq<Cell>>)

  type Row = map<string, real>

  /** round(): to the nearest integer, ties to even. */
  function Round(v: real): int {
    var low := v.Floor;
    if v - low as real < 0.5 then low
    else if v - low as real > 0.5 then low + 1
    else if low % 2 == 0 then low else low + 1
  }

  predicate Whole(v: real) {
    v == v.Floor as real
  }

  function Thousandths(v: real): real {
    Round(v * 1000.0) as real / 1000.0
  }

  lemma RoundIsNearest(v: real, n: int)
    requires Abs(v - n as real) < 0.5
    ensures Round(v) == n
  {
    var low := v.Floor;
    assert low as real <= v < low as real + 1.0;
    assert n == low || n == low + 1;
  }

  /** A half goes to the even side. */
  lemma TiesGoToEven(n: int)
    ensures var r := Round(n as real + 0.5); (r == n || r == n + 1) && r % 2 == 0
  {
    assert (n as real + 0.5).Floor == n;
  }

  lemma ThousandthsIsClose(v: real)
    ensures Abs(Thousandths(v) - v) <= 0.0005
  {
    var w := v * 1000.0;
    var low := w.Floor;
    assert low as real <= w < low as real + 1.0;
    assert Abs(Round(w) as real - w) <= 0.5;
  }

  // ---- schemas ------------------------------------------------------------------------

  /** One quantity of a frame: its key, the column it is read from, and the factor
      back into wire units. */
  datatype Binding = Binding(key: string, column: string, factor: real)

  type Plan = seq<Binding>

  /** An optional plan applies when every column it names is there. */
  datatype Schema = Schema(name: string, required: seq<string>, plan: Plan, optional: seq<Plan>)

  const T_HOST := "t_host"

  const WIRE_PLAN: Plan := [
    Binding("t_host", "t_host", 1.0), Binding("now", "t_dev_ms", 1.0),
    Binding("x", "x_mm", 1.0), Binding("y", "y_mm", 1.0), Binding("h", "h_cdeg", 1.0),
    Binding("ox", "ox_mm", 1.0), Binding("oy", "oy_mm", 1.0), Binding("oh", "oh_cdeg", 1.0)]

  const WHEEL_PLAN: Plan := [Binding("vl", "vl_mms", 1.0), Binding("vr", "vr_mms", 1.0)]

  const WHEEL_CM_PLAN: Plan := [Binding("vl", "vl_cms", 10.0), Binding("vr", "vr_cms", 10.0)]

  const WATCH_PLAN: Plan := [
    Binding("t_host", "t", 1.0), Binding("now", "dev_ms", 1.0),
    Binding("x", "enc_x_cm", 10.0), Binding("y", "enc_y_cm", 10.0), Binding("h", "enc_h_deg", 100.0),
    Binding("ox", "otos_x_cm", 10.0), Binding("oy", "otos_y_cm", 10.0), Binding("oh", "otos_h_deg", 100.0)]

  const PRACTICE_PLAN: Plan := [
    Binding("t_host", "t", 1.0), Binding("now", "dev_ms", 1.0),
    Binding("x", "enc_x", 10.0), Binding("y", "enc_y", 10.0), Binding("h", "enc_h", 100.0),
    Binding("ox", "otos_x", 10.0), Binding("oy", "otos_y", 10.0), Binding("oh", "otos_h", 100.0)]

  const CAPTURE_PLAN: Plan := [
    Binding("t_host", "t_host", 1.0), Binding("now", "t_dev_ms", 1.0),
    Binding("x", "x_mm", 1.0), Binding("y", "y_mm", 1.0), Binding("h", "h_cdeg", 1.0),
    Binding("ox", "ox", 1.0), Binding("oy", "oy", 1.0), Binding("oh", "oh", 1.0)]

  function Columns(plan: Plan): (columns: seq<string>)
    ensures |columns| == |plan| && forall i :: 0 <= i < |plan| ==> columns[i] == plan[i].column
  {
    seq(|plan|, i requires 0 <= i < |plan| => plan[i].column)
  }

  /** The surviving schema first, then the legacy ones in the order they are tried.
      Each requires exactly the columns its own plan reads. */
  const SCHEMAS: seq<Schema> := [
    Schema("pose-csv wire units", Columns(WIRE_PLAN), WIRE_PLAN, [WHEEL_PLAN]),
    Schema("tour_watch cm/deg", Columns(WATCH_PLAN), WATCH_PLAN, []),
    Schema("tour_practice cm/deg", Columns(PRACTICE_PLAN), PRACTICE_PLAN, [WHEEL_PLAN, WHEEL_CM_PLAN]),
    Schema("tour_capture wire units", Columns(CAPTURE_PLAN), CAPTURE_PLAN, [])]

  predicate Has(header: seq<string>, columns: seq<string>) {
    forall i :: 0 <= i < |columns| ==> columns[i] in header
  }

  function FirstFit(header: seq<string>, optional: seq<Plan>): Plan {
    if optional == [] then []
    else if Has(header, Columns(optional[0])) then optional[0]
    else FirstFit(header, optional[1..])
  }

  /** The first schema whose columns are all there, and what it reads. */
  function Choose(schemas: seq<Schema>, header: seq<string>): Option<(string, Plan)> {
    if schemas == [] then None
    else if Has(header, schemas[0].required)
    then Some((schemas[0].name, schemas[0].plan + FirstFit(header, schemas[0].optional)))
    else Choose(schemas[1..], header)
  }

  // ---- reading ---------------------------------------------------------------------------

  /** The cell a row holds under a name: at the name's last place in the header, and
      blank where the row is too short. */
  function Lookup(header: seq<string>, cells: seq<Cell>, name: string): Cell {
    if header == [] then Blank
    else
      var last := |header| - 1;
      if header[last] == name then if last < |cells| then cells[last] else Blank
      else Lookup(header[..last], cells, name)
  }

  datatype Failure = EmptyFile | Unrecognised | NoValue(row: nat, column: string) | NotANumber(row: nat, column: string)
                   | NoKey(row: nat, column: string)

  datatype Result<T> = Ok(value: T) | Err(error: Failure)

  function InWireUnits(b: Binding, v: real): real {
    v * b.factor
  }

  function Scaled(b: Binding, v: real): real {
    if b.key == T_HOST then InWireUnits(b, v) else Round(InWireUnits(b, v)) as real
  }

  function Decoded(header: seq<string>, cells: seq<Cell>, plan: Plan, n: nat): Result<Row> {
    if plan == [] then Ok(map[])
    else
      var b := plan[|plan| - 1];
      match Decoded(header, cells, plan[..|plan| - 1], n)
      case Err(e) => Err(e)
      case Ok(row) =>
        match Lookup(header, cells, b.column)
        case Blank => Err(NoValue(n, b.column))
        case Junk => Err(NotANumber(n, b.column))
        case Number(v) => Ok(row[b.key := Scaled(b, v)])
  }

  function DecodedAll(header: seq<string>, rows: seq<seq<Cell>>, plan: Plan): Result<seq<Row>> {
    if rows == [] then Ok([])
    else
      var n := |rows| - 1;
      match DecodedAll(header, rows[..n], plan)
      case Err(e) => Err(e)
      case Ok(done) =>
        match Decoded(header, rows[n], plan, n)
        case Err(e) => Err(e)
        case Ok(row) => Ok(done + [row])
  }

  function Read(table: Table): Result<(seq<Row>, string)> {
    if table.header == [] then Err(EmptyFile)
    else
      match Choose(SCHEMAS, table.header)
      case None => Err(Unrecognised)
      case Some((name, plan)) =>
        match DecodedAll(table.header, table.rows, plan)
        case Err(e) => Err(e)
        case Ok(rows) => Ok((rows, name))
  }

  method PoseRowFromRaw(header: seq<string>, cells: seq<Cell>, plan: Plan, n: nat) returns (r: Result<Row>)
    ensures r == Decoded(header, cells, plan, n)
  {
    var row: Row := map[];
    for i := 0 to |plan|
      invariant Decoded(header, cells, plan[..i], n) == Ok(row)
    {
      assert plan[..i + 1][..i] == plan[..i];
      FailsAtFirst(header, cells, plan, n, i + 1);
      var b := plan[i];
      match Lookup(header, cells, b.column) {
        case Blank => return Err(NoValue(n, b.column));
        case Junk => return Err(NotANumber(n, b.column));
        case Number(v) => row := row[b.key := Scaled(b, v)];
      }
    }
    assert plan[..|plan|] == plan;
    r := Ok(row);
  }

  lemma {:induction false} FailsAtFirst(header: seq<string>, cells: seq<Cell>, plan: Plan, n: nat, i: nat)
    requires i <= |plan|
    ensures Decoded(header, cells, plan[..i], n).Err? ==>
              Decoded(header, cells, plan, n) == Decoded(header, cells, plan[..i], n)
    decreases |plan| - i
  {
    if i < |plan| {
      FailsAtFirst(header, cells, plan, n, i + 1);
      assert plan[..i + 1][..i] == plan[..i];
    } else {
      assert plan[..i] == plan;
    }
  }

  /** read_pose_csv() */
  method ReadPoseCsv(table: Table) returns (r: Result<(seq<Row>, string)>)
    ensures r == Read(table)
  {
    if table.header == [] {
      return Err(EmptyFile);
    }
    var chosen := Choose(SCHEMAS, table.header);
    if chosen == None {
      return Err(Unrecognised);
    }
    var (name, plan) := chosen.value;
    hide Choose, Decoded;
    var rows: seq<Row> := [];
    for n := 0 to |table.rows|
      invariant DecodedAll(table.header, table.rows[..n], plan) == Ok(rows)
    {
      assert table.rows[..n + 1][..n] == table.rows[..n];
      AllFailsAtFirst(table.header, table.rows, plan, n + 1);
      var row := PoseRowFromRaw(table.header, table.rows[n], plan, n);
      if row.Err? {
        return Err(row.error);
      }
      rows := rows + [row.value];
    }
    assert table.rows[..|table.rows|] == table.rows;
    r := Ok((rows, name));
  }

  lemma {:induction false} AllFailsAtFirst(header: seq<string>, rows: seq<seq<Cell>>, plan: Plan, n: nat)
    requires n <= |rows|
    ensures DecodedAll(header, rows[..n], plan).Err? ==>
              DecodedAll(header, rows, plan) == DecodedAll(header, rows[..n], plan)
    decreases |rows| - n
  {
    hide Decoded;
    if n < |rows| {
      AllFailsAtFirst(header, rows, plan, n + 1);
      assert rows[..n + 1][..n] == rows[..n];
    } else {
      assert rows[..n] == rows;
    }
  }

  // ---- writing ----------------------------------------------------------------------------

  function PlanFor(wheels: bool): Plan {
    WIRE_PLAN + if wheels then WHEEL_PLAN else []
  }

  /** What is written of a quantity: host time to the millisecond, the rest as it is. */
  function Kept(key: string, v: real): real {
    if key == T_HOST then Thousandths(v) else v
  }

  function Encoded(row: Row, plan: Plan, n: nat): Result<seq<Cell>> {
    if plan == [] then Ok([])
    else
      var b := plan[|plan| - 1];
      match Encoded(row, plan[..|plan| - 1], n)
      case Err(e) => Err(e)
      case Ok(cells) => if b.key in row then Ok(cells + [Number(Kept(b.key, row[b.key]))]) else Err(NoKey(n, b.column))
  }

  function EncodedAll(rows: seq<Row>, plan: Plan): Result<seq<seq<Cell>>> {
    if rows == [] then Ok([])
    else
      var n := |rows| - 1;
      match EncodedAll(rows[..n], plan)
      case Err(e) => Err(e)
      case Ok(done) =>
        match Encoded(rows[n], plan, n)
        case Err(e) => Err(e)
        case Ok(cells) => Ok(done + [cells])
  }

  function Write(rows: seq<Row>, wheels: bool): Result<Table> {
    match EncodedAll(rows, PlanFor(wheels))
    case Err(e) => Err(e)
    case Ok(cells) => Ok(Table(Columns(PlanFor(wheels)), cells))
  }

  /** write_pose_csv(): the table and the number of rows written. */
  method WritePoseCsv(rows: seq<Row>, wheels: bool) returns (r: Result<Table>, written: nat)
    ensures r == Write(rows, wheels)
    ensures r.Ok? ==> written == |rows| == |r.value.rows|
  {
    var plan := PlanFor(wheels);
    hide Encoded, Kept, PlanFor, Columns;
    var lines: seq<seq<Cell>> := [];
    written := 0;
    for n := 0 to |rows|
      invariant written == n == |lines| && EncodedAll(rows[..n], plan) == Ok(lines)
    {
      assert rows[..n + 1][..n] == rows[..n];
      EncodeFailsAtFirst(rows, plan, n + 1);
      var cells := EncodeRow(rows[n], plan, n);
      if cells.Err? {
        return Err(cells.error), written;
      }
      lines := lines + [cells.value];
      written := written + 1;
    }
    assert rows[..|rows|] == rows;
    r := Ok(Table(Columns(plan), lines));
  }

  method EncodeRow(row: Row, plan: Plan, n: nat) returns (r: Result<seq<Cell>>)
    ensures r == Encoded(row, plan, n)
  {
    var cells: seq<Cell> := [];
    for i := 0 to |plan|
      invariant Encoded(row, plan[..i], n) == Ok(cells)
    {
      assert plan[..i + 1][..i] == plan[..i];
      CellFailsAtFirst(row, plan, n, i + 1);
      var b := plan[i];
      if b.key !in row {
        return Err(NoKey(n, b.column));
      }
      cells := cells + [Number(Kept(b.key, row[b.key]))];
    }
    assert plan[..|plan|] == plan;
    r := Ok(cells);
  }

  lemma {:induction false} CellFailsAtFirst(row: Row, plan: Plan, n: nat, i: nat)
    requires i <= |plan|
    ensures Encoded(row, plan[..i], n).Err? ==> Encoded(row, plan, n) == Encoded(row, plan[..i], n)
    decreases |plan| - i
  {
    if i < |plan| {
      CellFailsAtFirst(row, plan, n, i + 1);
      assert plan[..i + 1][..i] == plan[..i];
    } else {
      assert plan[..i] == plan;
    }
  }

  lemma {:induction false} EncodeFailsAtFirst(rows: seq<Row>, plan: Plan, n: nat)
    requires n <= |rows|
    ensures EncodedAll(rows[..n], plan).Err? ==> EncodedAll(rows, plan) == EncodedAll(rows[..n], plan)
    decreases |rows| - n
  {
    hide Encoded;
    if n < |rows| {
      EncodeFailsAtFirst(rows, plan, n + 1);
      assert rows[..n + 1][..n] == rows[..n];
    } else {
      assert rows[..n] == rows;
    }
  }

  // ---- what a read row holds ----------------------------------------------------------------

  ghost predicate InPlan(plan: Plan, key: string) {
    exists i :: 0 <= i < |plan| && plan[i].key == key
  }

  ghost predicate DistinctKeys(plan: Plan) {
    forall i, j :: 0 <= i < j < |plan| ==> plan[i].key != plan[j].key
  }

  /** A row decodes exactly when every bound column holds a number, and then each key
      holds its own column's number in wire units. */
  lemma {:induction false} RowHolds(header: seq<string>, cells: seq<Cell>, plan: Plan, n: nat, i: nat)
    requires DistinctKeys(plan) && i < |plan| && Decoded(header, cells, plan, n).Ok?
    ensures var row := Decoded(header, cells, plan, n).value;
      var cell := Lookup(header, cells, plan[i].column);
      cell.Number? && plan[i].key in row && row[plan[i].key] == Scaled(plan[i], cell.v)
  {
    hide Scaled, Lookup;
    if i < |plan| - 1 {
      RowHolds(header, cells, plan[..|plan| - 1], n, i);
    }
  }

  lemma {:induction false} RowDecodes(header: seq<string>, cells: seq<Cell>, plan: Plan, n: nat)
    requires forall i :: 0 <= i < |plan| ==> Lookup(header, cells, plan[i].column).Number?
    ensures Decoded(header, cells, plan, n).Ok?
  {
    hide Scaled, Lookup;
    if plan != [] {
      RowDecodes(header, cells, plan[..|plan| - 1], n);
    }
  }

  lemma {:induction false} RowHasPlanKeys(header: seq<string>, cells: seq<Cell>, plan: Plan, n: nat, key: string)
    requires Decoded(header, cells, plan, n).Ok? && key in Decoded(header, cells, plan, n).value
    ensures InPlan(plan, key)
  {
    hide Scaled, Lookup;
    var last := |plan| - 1;
    if key != plan[last].key {
      RowHasPlanKeys(header, cells, plan[..last], n, key);
      var i :| 0 <= i < last && plan[..last][i].key == key;
      assert plan[i].key == key;
    }
  }

  lemma {:induction false} RowsDecode(header: seq<string>, rows: seq<seq<Cell>>, plan: Plan, n: nat)
    requires n < |rows| && DecodedAll(header, rows, plan).Ok?
    ensures var done := DecodedAll(header, rows, plan).value;
      |done| == |rows| && Decoded(header, rows[n], plan, n) == Ok(done[n])
    decreases |rows|
  {
    hide Decoded;
    var last := |rows| - 1;
    if n < last {
      RowsDecode(header, rows[..last], plan, n);
    } else if last > 0 {
      RowsDecode(header, rows[..last], plan, 0);
    } else {
      assert rows[..0] == [];
    }
  }

  lemma {:induction false} AllDecode(header: seq<string>, rows: seq<seq<Cell>>, plan: Plan)
    requires forall n :: 0 <= n < |rows| ==> Decoded(header, rows[n], plan, n).Ok?
    ensures DecodedAll(header, rows, plan).Ok? && |DecodedAll(header, rows, plan).value| == |rows|
  {
    hide Decoded;
    if rows != [] {
      AllDecode(header, rows[..|rows| - 1], plan);
    }
  }

  lemma {:induction false} LookupAt(header: seq<string>, cells: seq<Cell>, i: nat)
    requires i < |header| == |cells| && Distinct(header)
    ensures Lookup(header, cells, header[i]) == cells[i]
  {
    LookupPrefix(header, cells, header, i);
  }

  lemma {:induction false} LookupPrefix(header: seq<string>, cells: seq<Cell>, whole: seq<string>, i: nat)
    requires i < |header| <= |cells| && header <= whole && Distinct(whole)
    ensures Lookup(header, cells, header[i]) == cells[i]
  {
    var last := |header| - 1;
    if i < last {
      LookupPrefix(header[..last], cells, whole, i);
    }
  }

  lemma {:induction false} CellWritten(row: Row, plan: Plan, n: nat, i: nat)
    requires i < |plan| && Encoded(row, plan, n).Ok?
    ensures var cells := Encoded(row, plan, n).value;
      |cells| == |plan| && plan[i].key in row && cells[i] == Number(Kept(plan[i].key, row[plan[i].key]))
  {
    hide Kept;
    var last := |plan| - 1;
    if i < last {
      CellWritten(row, plan[..last], n, i);
    } else if last > 0 {
      CellWritten(row, plan[..last], n, 0);
    } else {
      assert plan[..0] == [];
    }
  }

  lemma {:induction false} RowsWritten(rows: seq<Row>, plan: Plan, n: nat)
    requires n < |rows| && EncodedAll(rows, plan).Ok?
    ensures var lines := EncodedAll(rows, plan).value;
      |lines| == |rows| && Encoded(rows[n], plan, n) == Ok(lines[n])
  {
    hide Encoded;
    var last := |rows| - 1;
    if n < last {
      RowsWritten(rows[..last], plan, n);
    } else if last > 0 {
      RowsWritten(rows[..last], plan, 0);
    } else {
      assert rows[..0] == [];
    }
  }

  const WRITTEN_COLUMNS: seq<string> :=
    ["t_host", "t_dev_ms", "x_mm", "y_mm", "h_cdeg", "ox_mm", "oy_mm", "oh_cdeg", "vl_mms", "vr_mms"]

  // ---- the round trip -----------------------------------------------------------------------

  lemma PlansAreDistinct(wheels: bool)
    ensures Distinct(Columns(PlanFor(wheels))) && DistinctKeys(PlanFor(wheels))
  {
    var plan := PlanFor(wheels);
    PlanIsQuantities(WIRE_PLAN, if wheels then WHEEL_PLAN else []);
    assert Distinct(WRITTEN_COLUMNS);
    forall i, j | 0 <= i < j < |plan|
      ensures plan[i].column != plan[j].column
    {
      assert plan[i].column == WRITTEN_COLUMNS[i] && plan[j].column == WRITTEN_COLUMNS[j];
    }
    hide PlanFor;
  }

  lemma WrittenSchemaIsChosen(wheels: bool)
    ensures Choose(SCHEMAS, Columns(PlanFor(wheels))) == Some((SCHEMAS[0].name, PlanFor(wheels)))
  {
    var header := Columns(PlanFor(wheels));
    WireColumnsAreThere(wheels);
    WheelsAreThereIff(wheels);
    hide Has, PlanFor;
    assert SCHEMAS[0].optional[1..] == [];
    assert FirstFit(header, SCHEMAS[0].optional) == if wheels then WHEEL_PLAN else [];
    assert WIRE_PLAN + [] == WIRE_PLAN;
    PlanForIs(wheels);
  }

  lemma PlanForIs(wheels: bool)
    ensures PlanFor(wheels) == WIRE_PLAN + if wheels then WHEEL_PLAN else []
  {}

  lemma WireColumnsAreThere(wheels: bool)
    ensures Has(Columns(PlanFor(wheels)), Columns(WIRE_PLAN))
  {
    var header := Columns(PlanFor(wheels));
    forall i | 0 <= i < |WIRE_PLAN|
      ensures Columns(WIRE_PLAN)[i] in header
    {
      assert Columns(WIRE_PLAN)[i] == header[i];
    }
  }

  lemma WheelsAreThereIff(wheels: bool)
    ensures Has(Columns(PlanFor(wheels)), Columns(WHEEL_PLAN)) <==> wheels
  {
    var header := Columns(PlanFor(wheels));
    if wheels {
      forall i | 0 <= i < |WHEEL_PLAN|
        ensures Columns(WHEEL_PLAN)[i] in header
      {
        assert Columns(WHEEL_PLAN)[i] == header[|WIRE_PLAN| + i];
      }
    } else {
      assert Columns(WHEEL_PLAN)[0] == "vl_mms";
      forall i | 0 <= i < |header|
        ensures header[i] != "vl_mms"
      {
        PlansAreDistinct(true);
        assert header[i] == Columns(PlanFor(true))[i] && Columns(PlanFor(true))[|WIRE_PLAN|] == "vl_mms";
      }
    }
  }

  /** `back` holds under `key` what `row` did: host time to the millisecond, a whole
      quantity exactly. */
  ghost predicate ReadsAs(row: Row, back: Row, key: string) {
    && key in row && key in back
    && (if key == T_HOST then Abs(back[key] - row[key]) <= 0.0005
        else Whole(row[key]) ==> back[key] == row[key])
  }

  ghost predicate WrittenBy(plan: Plan) {
    Distinct(Columns(plan)) && DistinctKeys(plan) && forall i :: 0 <= i < |plan| ==> plan[i].factor == 1.0
  }

  lemma PlansAreWireUnits(wheels: bool)
    ensures WrittenBy(PlanFor(wheels))
  {
    PlansAreDistinct(wheels);
    hide Distinct, DistinctKeys;
  }

  lemma CellReadsBack(row: Row, plan: Plan, header: seq<string>, cells: seq<Cell>, n: nat, i: nat)
    requires header == Columns(plan) && Distinct(header) && i < |plan| && Encoded(row, plan, n) == Ok(cells)
    ensures plan[i].key in row
    ensures Lookup(header, cells, plan[i].column) == Number(Kept(plan[i].key, row[plan[i].key]))
  {
    CellWritten(row, plan, n, i);
    hide Encoded, Lookup, Kept;
    assert header[i] == plan[i].column;
    LookupAt(header, cells, i);
  }

  lemma WrittenRowDecodes(row: Row, plan: Plan, header: seq<string>, cells: seq<Cell>, n: nat)
    requires header == Columns(plan) && Distinct(header) && Encoded(row, plan, n) == Ok(cells)
    ensures Decoded(header, cells, plan, n).Ok?
  {
    hide Encoded, Lookup, Decoded;
    forall i: nat | i < |plan|
      ensures Lookup(header, cells, plan[i].column).Number?
    {
      CellReadsBack(row, plan, header, cells, n, i);
    }
    RowDecodes(header, cells, plan, n);
  }

  lemma WrittenRowReadsBack(row: Row, plan: Plan, header: seq<string>, cells: seq<Cell>, n: nat, i: nat)
    requires WrittenBy(plan) && header == Columns(plan) && Encoded(row, plan, n) == Ok(cells) && i < |plan|
    requires Decoded(header, cells, plan, n).Ok?
    ensures ReadsAs(row, Decoded(header, cells, plan, n).value, plan[i].key)
  {
    CellReadsBack(row, plan, header, cells, n, i);
    RowHolds(header, cells, plan, n, i);
    var b := plan[i];
    var v := row[b.key];
    hide Encoded, Decoded, Lookup;
    ScaledBack(b, v);
  }

  lemma ScaledBack(b: Binding, v: real)
    requires b.factor == 1.0
    ensures b.key == T_HOST ==> Abs(Scaled(b, Kept(b.key, v)) - v) <= 0.0005
    ensures b.key != T_HOST && Whole(v) ==> Scaled(b, Kept(b.key, v)) == v
  {
    ThousandthsIsClose(v);
    assert Kept(b.key, v) * 1.0 == Kept(b.key, v);
    hide Thousandths;
  }

  lemma WrittenRowsDecode(rows: seq<Row>, plan: Plan, lines: seq<seq<Cell>>)
    requires WrittenBy(plan) && EncodedAll(rows, plan) == Ok(lines)
    ensures |lines| == |rows|
    ensures var read := DecodedAll(Columns(plan), lines, plan); read.Ok? && |read.value| == |rows|
  {
    hide Encoded, Decoded, EncodedAll, DecodedAll;
    SameCount(rows, plan);
    forall n: nat | n < |lines|
      ensures Decoded(Columns(plan), lines[n], plan, n).Ok?
    {
      RowsWritten(rows, plan, n);
      WrittenRowDecodes(rows[n], plan, Columns(plan), lines[n], n);
    }
    AllDecode(Columns(plan), lines, plan);
  }

  lemma {:induction false} SameCount(rows: seq<Row>, plan: Plan)
    requires EncodedAll(rows, plan).Ok?
    ensures |EncodedAll(rows, plan).value| == |rows|
  {
    hide Encoded;
    if rows != [] {
      SameCount(rows[..|rows| - 1], plan);
    }
  }

  lemma ReadUnder(table: Table, name: string, plan: Plan)
    requires table.header != [] && Choose(SCHEMAS, table.header) == Some((name, plan))
    requires DecodedAll(table.header, table.rows, plan).Ok?
    ensures Read(table) == Ok((DecodedAll(table.header, table.rows, plan).value, name))
  {
    hide Choose, DecodedAll;
  }

  /** Whatever was written reads back: as many rows, nothing but the plan's keys, host
      time to the millisecond, and every whole quantity exactly. */
  lemma WrittenReadsBack(rows: seq<Row>, wheels: bool, n: nat, i: nat, key: string)
    requires Write(rows, wheels).Ok? && n < |rows| && i < |PlanFor(wheels)|
    ensures var read := Read(Write(rows, wheels).value);
      && read.Ok? && read.value.1 == SCHEMAS[0].name && |read.value.0| == |rows|
      && ReadsAs(rows[n], read.value.0[n], PlanFor(wheels)[i].key)
      && (key in read.value.0[n] ==> InPlan(PlanFor(wheels), key))
  {
    var plan := PlanFor(wheels);
    var header := Columns(plan);
    var lines := Write(rows, wheels).value.rows;
    WrittenSchemaIsChosen(wheels);
    PlansAreWireUnits(wheels);
    assert |header| > 0;
    hide DecodedAll, Decoded, EncodedAll, Encoded, Choose, PlanFor, WrittenBy, ReadsAs, InPlan, Columns, Read;
    WrittenRowsDecode(rows, plan, lines);
    ReadUnder(Table(header, lines), SCHEMAS[0].name, plan);
    RowsDecode(header, lines, plan, n);
    RowsWritten(rows, plan, n);
    WrittenRowReadsBack(rows[n], plan, header, lines[n], n, i);
    var back := Decoded(header, lines[n], plan, n).value;
    if key in back {
      RowHasPlanKeys(header, lines[n], plan, n, key);
    }
  }

  /** And writing refuses only a row that lacks one of the schema's quantities. */
  lemma {:induction false} EncodesIff(row: Row, plan: Plan, n: nat)
    ensures Encoded(row, plan, n).Ok? <==> forall i :: 0 <= i < |plan| ==> plan[i].key in row
  {
    if plan != [] {
      EncodesIff(row, plan[..|plan| - 1], n);
    }
  }

  // ---- why a table is refused --------------------------------------------------------------------

  /** A row too short for a column is blank there. */
  lemma {:induction false} ShortRowIsBlank(header: seq<string>, cells: seq<Cell>, whole: seq<string>, i: nat)
    requires header <= whole && Distinct(whole) && |cells| <= i < |header|
    ensures Lookup(header, cells, header[i]) == Blank
  {
    var last := |header| - 1;
    if i < last {
      ShortRowIsBlank(header[..last], cells, whole, i);
    }
  }

  /** The row's first cell that holds no number is its i-th by the plan. */
  ghost predicate FirstBadCell(header: seq<string>, cells: seq<Cell>, plan: Plan, i: nat) {
    && i < |plan| && !Lookup(header, cells, plan[i].column).Number?
    && forall j :: 0 <= j < i ==> Lookup(header, cells, plan[j].column).Number?
  }

  lemma {:induction false} RowFailsHow(header: seq<string>, cells: seq<Cell>, plan: Plan, n: nat) returns (i: nat)
    requires Decoded(header, cells, plan, n).Err?
    ensures FirstBadCell(header, cells, plan, i)
    ensures Decoded(header, cells, plan, n).error ==
      if Lookup(header, cells, plan[i].column).Blank? then NoValue(n, plan[i].column)
      else NotANumber(n, plan[i].column)
  {
    hide Lookup, Scaled;
    i := |plan| - 1;
    if Decoded(header, cells, plan[..i], n).Err? {
      i := RowFailsHow(header, cells, plan[..i], n);
    } else {
      forall j | 0 <= j < i
        ensures Lookup(header, cells, plan[j].column).Number?
      {
        RowHasNumbers(header, cells, plan[..i], n, j);
      }
    }
  }

  lemma {:induction false} RowHasNumbers(header: seq<string>, cells: seq<Cell>, plan: Plan, n: nat, j: nat)
    requires Decoded(header, cells, plan, n).Ok? && j < |plan|
    ensures Lookup(header, cells, plan[j].column).Number?
  {
    hide Lookup, Scaled;
    if j < |plan| - 1 {
      RowHasNumbers(header, cells, plan[..|plan| - 1], n, j);
    }
  }

  lemma {:induction false} RowsFailHow(header: seq<string>, rows: seq<seq<Cell>>, plan: Plan) returns (n: nat)
    requires DecodedAll(header, rows, plan).Err?
    ensures n < |rows| && Decoded(header, rows[n], plan, n) == Err(DecodedAll(header, rows, plan).error)
    ensures forall m: nat :: m < n ==> Decoded(header, rows[m], plan, m).Ok?
  {
    hide Decoded;
    n := |rows| - 1;
    if DecodedAll(header, rows[..n], plan).Err? {
      n := RowsFailHow(header, rows[..n], plan);
    } else {
      forall m: nat | m < n
        ensures Decoded(header, rows[m], plan, m).Ok?
      {
        RowsDecode(header, rows[..n], plan, m);
      }
    }
  }

  /** A table is refused for having no header, for one no schema fits, or for its first
      cell in reading order that holds no number, blank or not. */
  lemma WhyUnread(table: Table) returns (n: nat, i: nat)
    requires Read(table).Err?
    ensures var e, chosen := Read(table).error, Choose(SCHEMAS, table.header);
      if table.header == [] then e == EmptyFile
      else if chosen == None then e == Unrecognised
      else
        var plan := chosen.value.1;
        && n < |table.rows| && FirstBadCell(table.header, table.rows[n], plan, i)
        && (forall m: nat :: m < n ==> Decoded(table.header, table.rows[m], plan, m).Ok?)
        && e == if Lookup(table.header, table.rows[n], plan[i].column).Blank? then NoValue(n, plan[i].column)
                else NotANumber(n, plan[i].column)
  {
    hide Choose, Decoded, DecodedAll, Lookup, FirstBadCell;
    n, i := 0, 0;
    if table.header != [] && Choose(SCHEMAS, table.header).Some? {
      var plan := Choose(SCHEMAS, table.header).value.1;
      n := RowsFailHow(table.header, table.rows, plan);
      i := RowFailsHow(table.header, table.rows[n], plan, n);
    }
  }

  lemma {:induction false} EncodeFailsHow(row: Row, plan: Plan, n: nat) returns (i: nat)
    requires Encoded(row, plan, n).Err?
    ensures i < |plan| && Encoded(row, plan, n).error == NoKey(n, plan[i].column)
    ensures plan[i].key !in row && forall j :: 0 <= j < i ==> plan[j].key in row
  {
    hide Kept;
    i := |plan| - 1;
    if Encoded(row, plan[..i], n).Err? {
      i := EncodeFailsHow(row, plan[..i], n);
    } else {
      EncodesIff(row, plan[..i], n);
      assert forall j :: 0 <= j < i ==> plan[..i][j] == plan[j];
    }
  }

  /** Rows are refused for the first quantity missing, by its row and its column. */
  lemma {:induction false} WhyUnwritten(rows: seq<Row>, plan: Plan) returns (n: nat, i: nat)
    requires EncodedAll(rows, plan).Err?
    ensures n < |rows| && i < |plan| && EncodedAll(rows, plan).error == NoKey(n, plan[i].column)
    ensures plan[i].key !in rows[n] && forall j :: 0 <= j < i ==> plan[j].key in rows[n]
    ensures forall m, j :: 0 <= m < n && 0 <= j < |plan| ==> plan[j].key in rows[m]
  {
    hide Encoded;
    n := |rows| - 1;
    if EncodedAll(rows[..n], plan).Err? {
      n, i := WhyUnwritten(rows[..n], plan);
    } else {
      i := EncodeFailsHow(rows[n], plan, n);
      forall m: nat, j: nat | m < n && j < |plan|
        ensures plan[j].key in rows[m]
      {
        EarlierEncoded(rows[..n], plan, m);
        EncodesIff(rows[m], plan, m);
      }
    }
  }

  lemma {:induction false} EarlierEncoded(rows: seq<Row>, plan: Plan, m: nat)
    requires EncodedAll(rows, plan).Ok? && m < |rows|
    ensures Encoded(rows[m], plan, m).Ok?
  {
    hide Encoded;
    if m < |rows| - 1 {
      EarlierEncoded(rows[..|rows| - 1], plan, m);
    }
  }

  // ---- columns are bound by name ---------------------------------------------------------------

  ghost predicate Mentioned(schemas: seq<Schema>, name: string) {
    exists i :: 0 <= i < |schemas| && SchemaMentions(schemas[i], name)
  }

  ghost predicate SchemaMentions(schema: Schema, name: string) {
    || name in schema.required || name in Columns(schema.plan)
    || exists j :: 0 <= j < |schema.optional| && name in Columns(schema.optional[j])
  }

  /** Two tables with the same values under every name any schema mentions, whatever
      else they hold and in whatever order. */
  ghost predicate SameColumns(a: Table, b: Table) {
    && |a.rows| == |b.rows| && (a.header == [] <==> b.header == [])
    && forall name :: Mentioned(SCHEMAS, name) ==> SameColumn(a, b, name)
  }

  ghost predicate SameColumn(a: Table, b: Table, name: string) {
    && (name in a.header <==> name in b.header)
    && forall n :: 0 <= n < |a.rows| && n < |b.rows| ==>
         Lookup(a.header, a.rows[n], name) == Lookup(b.header, b.rows[n], name)
  }

  lemma {:induction false} SameChoice(schemas: seq<Schema>, a: seq<string>, b: seq<string>)
    requires forall name :: Mentioned(schemas, name) ==> (name in a <==> name in b)
    ensures Choose(schemas, a) == Choose(schemas, b)
    ensures Choose(schemas, a).Some? ==> forall i :: 0 <= i < |Choose(schemas, a).value.1| ==>
              Mentioned(schemas, Choose(schemas, a).value.1[i].column)
  {
    hide SchemaMentions;
    if schemas != [] {
      var schema, rest := schemas[0], schemas[1..];
      forall name | SchemaMentions(schema, name)
        ensures Mentioned(schemas, name)
      {
        assert SchemaMentions(schemas[0], name);
      }
      forall name | Mentioned(rest, name)
        ensures Mentioned(schemas, name)
      {
        var i :| 0 <= i < |rest| && SchemaMentions(rest[i], name);
        assert SchemaMentions(schemas[i + 1], name);
      }
      SameFit(schema, a, b);
      SameChoice(rest, a, b);
    }
  }

  lemma SameFit(schema: Schema, a: seq<string>, b: seq<string>)
    requires forall name :: SchemaMentions(schema, name) ==> (name in a <==> name in b)
    ensures Has(a, schema.required) <==> Has(b, schema.required)
    ensures FirstFit(a, schema.optional) == FirstFit(b, schema.optional)
    ensures forall i :: 0 <= i < |schema.plan| ==> SchemaMentions(schema, schema.plan[i].column)
    ensures var fit := FirstFit(a, schema.optional);
      forall i :: 0 <= i < |fit| ==> SchemaMentions(schema, fit[i].column)
  {
    forall i | 0 <= i < |schema.required|
      ensures schema.required[i] in a <==> schema.required[i] in b
    {
      assert SchemaMentions(schema, schema.required[i]);
    }
    forall i | 0 <= i < |schema.plan|
      ensures SchemaMentions(schema, schema.plan[i].column)
    {
      assert Columns(schema.plan)[i] == schema.plan[i].column;
    }
    SameOptional(schema, a, b, 0);
    assert schema.optional[0..] == schema.optional;
  }

  lemma {:induction false} SameOptional(schema: Schema, a: seq<string>, b: seq<string>, j: nat)
    requires forall name :: SchemaMentions(schema, name) ==> (name in a <==> name in b)
    requires j <= |schema.optional|
    ensures FirstFit(a, schema.optional[j..]) == FirstFit(b, schema.optional[j..])
    ensures var fit := FirstFit(a, schema.optional[j..]);
      forall i :: 0 <= i < |fit| ==> SchemaMentions(schema, fit[i].column)
    decreases |schema.optional| - j
  {
    if j < |schema.optional| {
      var plan := schema.optional[j];
      forall i | 0 <= i < |plan|
        ensures SchemaMentions(schema, plan[i].column)
      {
        assert Columns(plan)[i] == plan[i].column;
      }
      assert schema.optional[j..][1..] == schema.optional[j + 1..];
      assert Has(a, Columns(plan)) <==> Has(b, Columns(plan));
      SameOptional(schema, a, b, j + 1);
    }
  }

  lemma {:induction false} SameRow(a: seq<string>, b: seq<string>, ca: seq<Cell>, cb: seq<Cell>, plan: Plan, n: nat)
    requires forall i :: 0 <= i < |plan| ==> Lookup(a, ca, plan[i].column) == Lookup(b, cb, plan[i].column)
    ensures Decoded(a, ca, plan, n) == Decoded(b, cb, plan, n)
  {
    hide Lookup;
    if plan != [] {
      SameRow(a, b, ca, cb, plan[..|plan| - 1], n);
    }
  }

  lemma {:induction false} SameRows(a: seq<string>, b: seq<string>, ra: seq<seq<Cell>>, rb: seq<seq<Cell>>, plan: Plan)
    requires |ra| == |rb|
    requires forall n :: 0 <= n < |ra| ==> Decoded(a, ra[n], plan, n) == Decoded(b, rb[n], plan, n)
    ensures DecodedAll(a, ra, plan) == DecodedAll(b, rb, plan)
  {
    hide Decoded;
    if ra != [] {
      SameRows(a, b, ra[..|ra| - 1], rb[..|rb| - 1], plan);
    }
  }

  /** Reading consults nothing but the named columns: not their order, not their
      count, not any extra column beside them. */
  lemma ReadByName(a: Table, b: Table)
    requires SameColumns(a, b)
    ensures Read(a) == Read(b)
  {
    hide Lookup, Decoded, DecodedAll, Choose, Mentioned;
    SameChoice(SCHEMAS, a.header, b.header);
    var chosen := Choose(SCHEMAS, a.header);
    if chosen.Some? {
      var plan := chosen.value.1;
      forall n | 0 <= n < |a.rows|
        ensures Decoded(a.header, a.rows[n], plan, n) == Decoded(b.header, b.rows[n], plan, n)
      {
        forall i | 0 <= i < |plan|
          ensures Lookup(a.header, a.rows[n], plan[i].column) == Lookup(b.header, b.rows[n], plan[i].column)
        {
          assert SameColumn(a, b, plan[i].column);
        }
        SameRow(a.header, b.header, a.rows[n], b.rows[n], plan, n);
      }
      SameRows(a.header, b.header, a.rows, b.rows, plan);
    }
  }

  /** `b` is `a` with its columns moved to `place`, among columns no schema mentions. */
  ghost predicate Rearranged(a: Table, b: Table, place: seq<nat>) {
    && Distinct(a.header) && Distinct(b.header) && |place| == |a.header| && |a.rows| == |b.rows|
    && (forall i :: 0 <= i < |place| ==> place[i] < |b.header| && b.header[place[i]] == a.header[i])
    && (forall name :: name in b.header && Mentioned(SCHEMAS, name) ==> name in a.header)
    && (forall n :: 0 <= n < |a.rows| ==> SameCells(a, b, place, n))
  }

  ghost predicate SameCells(a: Table, b: Table, place: seq<nat>, n: nat)
    requires n < |a.rows| && n < |b.rows|
  {
    && |a.rows[n]| == |a.header| == |place| && |b.rows[n]| == |b.header|
    && forall i :: 0 <= i < |place| ==> place[i] < |b.rows[n]| && b.rows[n][place[i]] == a.rows[n][i]
  }

  lemma RearrangedReadsTheSame(a: Table, b: Table, place: seq<nat>)
    requires Rearranged(a, b, place) && a.header != []
    ensures Read(a) == Read(b)
  {
    hide Lookup, Mentioned, Read;
    forall name | Mentioned(SCHEMAS, name)
      ensures SameColumn(a, b, name)
    {
      if name in a.header {
        var i :| 0 <= i < |a.header| && a.header[i] == name;
        assert b.header[place[i]] == name;
        forall n | 0 <= n < |a.rows|
          ensures Lookup(a.header, a.rows[n], name) == Lookup(b.header, b.rows[n], name)
        {
          assert SameCells(a, b, place, n);
          LookupAt(a.header, a.rows[n], i);
          LookupAt(b.header, b.rows[n], place[i]);
        }
      } else {
        forall n | 0 <= n < |a.rows|
          ensures Lookup(a.header, a.rows[n], name) == Lookup(b.header, b.rows[n], name)
        {
          AbsentIsBlank(a.header, a.rows[n], name);
          AbsentIsBlank(b.header, b.rows[n], name);
        }
      }
    }
    assert b.header[place[0]] == a.header[0];
    ReadByName(a, b);
  }

  lemma {:induction false} AbsentIsBlank(header: seq<string>, cells: seq<Cell>, name: string)
    requires name !in header
    ensures Lookup(header, cells, name) == Blank
  {
    if header != [] {
      AbsentIsBlank(header[..|header| - 1], cells, name);
    }
  }

  // ---- legacy recordings ------------------------------------------------------------------------

  const QUANTITIES: seq<string> := ["t_host", "now", "x", "y", "h", "ox", "oy", "oh", "vl", "vr"]

  /** The keys of the plan are the frame's quantities, with or without the wheel pair. */
  ghost predicate ReadsQuantities(plan: Plan) {
    (|plan| == 8 || |plan| == 10) && forall i :: 0 <= i < |plan| ==> plan[i].key == QUANTITIES[i]
  }

  lemma {:induction false} FitIsOne(header: seq<string>, optional: seq<Plan>)
    ensures FirstFit(header, optional) == [] || FirstFit(header, optional) in optional
  {
    hide Has;
    if optional != [] {
      FitIsOne(header, optional[1..]);
    }
  }

  lemma {:induction false} ChosenIsOne(schemas: seq<Schema>, header: seq<string>)
    requires Choose(schemas, header).Some?
    ensures exists schema :: schema in schemas
              && Choose(schemas, header).value.1 == schema.plan + FirstFit(header, schema.optional)
  {
    hide Has, FirstFit;
    if !Has(header, schemas[0].required) {
      ChosenIsOne(schemas[1..], header);
    }
  }

  /** Every header that is read at all yields the same quantities under the same keys. */
  lemma ChosenReadsQuantities(header: seq<string>)
    requires Choose(SCHEMAS, header).Some?
    ensures ReadsQuantities(Choose(SCHEMAS, header).value.1) && DistinctKeys(Choose(SCHEMAS, header).value.1)
  {
    ChosenIsOne(SCHEMAS, header);
    hide Choose, FirstFit, Columns;
    var schema :| schema in SCHEMAS
      && Choose(SCHEMAS, header).value.1 == schema.plan + FirstFit(header, schema.optional);
    FitIsOne(header, schema.optional);
    PlanIsQuantities(schema.plan, FirstFit(header, schema.optional));
  }

  lemma PlanIsQuantities(plan: Plan, fit: Plan)
    requires plan == WIRE_PLAN || plan == WATCH_PLAN || plan == PRACTICE_PLAN || plan == CAPTURE_PLAN
    requires fit == [] || fit == WHEEL_PLAN || fit == WHEEL_CM_PLAN
    ensures ReadsQuantities(plan + fit) && DistinctKeys(plan + fit)
  {
    assert Distinct(QUANTITIES);
    assert ReadsQuantities(plan + fit);
    forall i, j | 0 <= i < j < |plan + fit|
      ensures (plan + fit)[i].key != (plan + fit)[j].key
    {
      assert QUANTITIES[i] != QUANTITIES[j];
    }
  }

  /** Which schema reads a header: the first whose columns are all there. */
  lemma ChosenByColumns(header: seq<string>)
    ensures
      var wire := Has(header, ["t_host", "t_dev_ms", "x_mm", "y_mm", "h_cdeg", "ox_mm", "oy_mm", "oh_cdeg"]);
      var watch := Has(header, ["t", "dev_ms", "enc_x_cm", "enc_y_cm", "enc_h_deg",
                                "otos_x_cm", "otos_y_cm", "otos_h_deg"]);
      var practice := Has(header, ["t", "dev_ms", "enc_x", "enc_y", "enc_h", "otos_x", "otos_y", "otos_h"]);
      var capture := Has(header, ["t_host", "t_dev_ms", "x_mm", "y_mm", "h_cdeg", "ox", "oy", "oh"]);
      var mms := Has(header, ["vl_mms", "vr_mms"]);
      var cms := Has(header, ["vl_cms", "vr_cms"]);
      Choose(SCHEMAS, header) ==
        if wire then Some(("pose-csv wire units", WIRE_PLAN + if mms then WHEEL_PLAN else []))
        else if watch then Some(("tour_watch cm/deg", WATCH_PLAN))
        else if practice
        then Some(("tour_practice cm/deg",
                   PRACTICE_PLAN + if mms then WHEEL_PLAN else if cms then WHEEL_CM_PLAN else []))
        else if capture then Some(("tour_capture wire units", CAPTURE_PLAN))
        else None
  {
    ColumnsOfPlans();
    hide Has, Columns;
    FirstFitOfTwo(header);
    ChooseStep(header, 3);
    ChooseStep(header, 2);
    ChooseStep(header, 1);
    ChooseStep(header, 0);
    assert WATCH_PLAN + [] == WATCH_PLAN && CAPTURE_PLAN + [] == CAPTURE_PLAN;
    assert SCHEMAS[0..] == SCHEMAS;
  }

  lemma ChooseStep(header: seq<string>, k: nat)
    requires k < |SCHEMAS|
    ensures Choose(SCHEMAS[k..], header) ==
      if Has(header, SCHEMAS[k].required)
      then Some((SCHEMAS[k].name, SCHEMAS[k].plan + FirstFit(header, SCHEMAS[k].optional)))
      else Choose(SCHEMAS[k + 1..], header)
  {
    hide Has, FirstFit;
    assert SCHEMAS[k..][1..] == SCHEMAS[k + 1..];
  }

  lemma FirstFitOfTwo(header: seq<string>)
    ensures FirstFit(header, []) == []
    ensures FirstFit(header, [WHEEL_PLAN]) == if Has(header, Columns(WHEEL_PLAN)) then WHEEL_PLAN else []
    ensures FirstFit(header, [WHEEL_PLAN, WHEEL_CM_PLAN]) ==
      if Has(header, Columns(WHEEL_PLAN)) then WHEEL_PLAN
      else if Has(header, Columns(WHEEL_CM_PLAN)) then WHEEL_CM_PLAN else []
  {
    hide Has, Columns;
    assert [WHEEL_PLAN][1..] == [];
    assert [WHEEL_PLAN, WHEEL_CM_PLAN][1..] == [WHEEL_CM_PLAN] && [WHEEL_CM_PLAN][1..] == [];
  }

  lemma ColumnsOfPlans()
    ensures Columns(WIRE_PLAN) == ["t_host", "t_dev_ms", "x_mm", "y_mm", "h_cdeg", "ox_mm", "oy_mm", "oh_cdeg"]
    ensures Columns(WATCH_PLAN) == ["t", "dev_ms", "enc_x_cm", "enc_y_cm", "enc_h_deg",
                                    "otos_x_cm", "otos_y_cm", "otos_h_deg"]
    ensures Columns(PRACTICE_PLAN) == ["t", "dev_ms", "enc_x", "enc_y", "enc_h", "otos_x", "otos_y", "otos_h"]
    ensures Columns(CAPTURE_PLAN) == ["t_host", "t_dev_ms", "x_mm", "y_mm", "h_cdeg", "ox", "oy", "oh"]
    ensures Columns(WHEEL_PLAN) == ["vl_mms", "vr_mms"] && Columns(WHEEL_CM_PLAN) == ["vl_cms", "vr_cms"]
  {}

  /** Row `n` was read with this quantity the whole number nearest `factor` times its
      column's, or with host time exactly `factor` times it. */
  ghost predicate ReadsColumn(table: Table, n: nat, key: string, column: string, factor: real)
    requires Read(table).Ok? && n < |table.rows|
  {
    n < |Read(table).value.0| &&
    var row := Read(table).value.0[n];
    var cell := Lookup(table.header, table.rows[n], column);
    && cell.Number? && key in row
    && if key == "t_host" then row[key] == cell.v * factor
       else row[key] == row[key].Floor as real && -0.5 <= cell.v * factor - row[key] <= 0.5
  }

  /** The same of the quantities in their order. */
  ghost predicate ReadsColumns(table: Table, n: nat, columns: seq<string>, factors: seq<real>)
    requires Read(table).Ok? && n < |table.rows| && |columns| == |factors| <= |QUANTITIES|
  {
    forall i :: 0 <= i < |columns| ==> ReadsColumn(table, n, QUANTITIES[i], columns[i], factors[i])
  }

  lemma KeyOfBinding(header: seq<string>, i: nat)
    requires Choose(SCHEMAS, header).Some? && i < |Choose(SCHEMAS, header).value.1|
    ensures i < |QUANTITIES| && Choose(SCHEMAS, header).value.1[i].key == QUANTITIES[i]
    ensures DistinctKeys(Choose(SCHEMAS, header).value.1)
  {
    ChosenReadsQuantities(header);
    hide Choose;
  }

  lemma BindingReads(table: Table, n: nat, i: nat)
    requires Read(table).Ok? && n < |table.rows|
    requires i < |Choose(SCHEMAS, table.header).value.1|
    ensures var b := Choose(SCHEMAS, table.header).value.1[i];
      i < |QUANTITIES| && b.key == QUANTITIES[i] && ReadsColumn(table, n, b.key, b.column, b.factor)
  {
    hide *;
    ReadUnderSchema(table);
    KeyOfBinding(table.header, i);
    RowIsRead(table, n, i);
    ReadsColumnScaled(table, n, Choose(SCHEMAS, table.header).value.1[i]);
  }

  lemma ReadUnderSchema(table: Table)
    requires Read(table).Ok?
    ensures Choose(SCHEMAS, table.header).Some?
  {
    hide Choose;
  }

  lemma RowIsRead(table: Table, n: nat, i: nat)
    requires Read(table).Ok? && n < |table.rows|
    requires i < |Choose(SCHEMAS, table.header).value.1| && DistinctKeys(Choose(SCHEMAS, table.header).value.1)
    ensures n < |Read(table).value.0|
    ensures var b := Choose(SCHEMAS, table.header).value.1[i];
      var cell := Lookup(table.header, table.rows[n], b.column);
      && cell.Number? && b.key in Read(table).value.0[n]
      && Read(table).value.0[n][b.key] == Scaled(b, cell.v)
  {
    var plan := Choose(SCHEMAS, table.header).value.1;
    hide Lookup, Decoded, DecodedAll, Choose, Scaled, DistinctKeys;
    RowsDecode(table.header, table.rows, plan, n);
    RowHolds(table.header, table.rows[n], plan, n, i);
  }

  lemma ReadsColumnScaled(table: Table, n: nat, b: Binding)
    requires Read(table).Ok? && n < |table.rows| && n < |Read(table).value.0|
    requires var cell := Lookup(table.header, table.rows[n], b.column);
      && cell.Number? && b.key in Read(table).value.0[n]
      && Read(table).value.0[n][b.key] == Scaled(b, cell.v)
    ensures ReadsColumn(table, n, b.key, b.column, b.factor)
  {
    hide Read, Lookup, Scaled;
    ScaledIsNear(b, Lookup(table.header, table.rows[n], b.column).v);
  }

  lemma ScaledIsNear(b: Binding, v: real)
    ensures var wire := v * b.factor;
      if b.key == "t_host" then Scaled(b, v) == wire
      else Scaled(b, v) == Scaled(b, v).Floor as real && -0.5 <= wire - Scaled(b, v) <= 0.5
  {
    var wire := v * b.factor;
    assert wire.Floor as real <= wire < wire.Floor as real + 1.0;
  }

  /** The plan begins with these columns by these factors. */
  predicate Spells(plan: Plan, columns: seq<string>, factors: seq<real>) {
    && |columns| == |factors| <= |plan|
    && forall i :: 0 <= i < |columns| ==> columns[i] == plan[i].column && factors[i] == plan[i].factor
  }

  lemma PlanNumbers()
    ensures |QUANTITIES| == 10
    ensures forall fit: Plan ::
      && Spells(WIRE_PLAN + fit, ["t_host", "t_dev_ms", "x_mm", "y_mm", "h_cdeg", "ox_mm", "oy_mm", "oh_cdeg"],
                [1.0, 1.0, 1.0, 1.0, 1.0, 1.0, 1.0, 1.0])
      && Spells(PRACTICE_PLAN + fit, ["t", "dev_ms", "enc_x", "enc_y", "enc_h", "otos_x", "otos_y", "otos_h"],
                [1.0, 1.0, 10.0, 10.0, 100.0, 10.0, 10.0, 100.0])
    ensures Spells(WATCH_PLAN, ["t", "dev_ms", "enc_x_cm", "enc_y_cm", "enc_h_deg",
                                "otos_x_cm", "otos_y_cm", "otos_h_deg"],
                   [1.0, 1.0, 10.0, 10.0, 100.0, 10.0, 10.0, 100.0])
    ensures Spells(CAPTURE_PLAN, ["t_host", "t_dev_ms", "x_mm", "y_mm", "h_cdeg", "ox", "oy", "oh"],
                   [1.0, 1.0, 1.0, 1.0, 1.0, 1.0, 1.0, 1.0])
  {}

  /** The plan a schema's name stands for. */
  lemma NamedPlan(table: Table)
    requires Read(table).Ok?
    ensures Choose(SCHEMAS, table.header).Some?
    ensures var name, plan := Read(table).value.1, Choose(SCHEMAS, table.header).value.1;
      && (name == "pose-csv wire units" ==> exists fit: Plan :: plan == WIRE_PLAN + fit)
      && (name == "tour_watch cm/deg" ==> plan == WATCH_PLAN)
      && (name == "tour_practice cm/deg" ==> exists fit: Plan :: plan == PRACTICE_PLAN + fit)
      && (name == "tour_capture wire units" ==> plan == CAPTURE_PLAN)
  {
    ChosenByColumns(table.header);
    hide Choose, Has, DecodedAll;
  }

  lemma PlanReads(table: Table, n: nat, columns: seq<string>, factors: seq<real>)
    requires Read(table).Ok? && n < |table.rows| && |columns| == |factors| <= |QUANTITIES|
    requires Choose(SCHEMAS, table.header).Some? && Spells(Choose(SCHEMAS, table.header).value.1, columns, factors)
    ensures ReadsColumns(table, n, columns, factors)
  {
    hide Read, Choose, ReadsColumn;
    forall i | 0 <= i < |columns|
      ensures ReadsColumn(table, n, QUANTITIES[i], columns[i], factors[i])
    {
      BindingReads(table, n, i);
    }
  }

  /** Every recording in numbers: what wire units read as they stand, centimetres by
      ten, degrees by a hundred, and either spelling of the wheel speeds. */
  lemma RecordingReadsAs(table: Table, n: nat)
    requires Read(table).Ok? && n < |table.rows|
    ensures var name := Read(table).value.1;
      && (name == "pose-csv wire units" ==>
           ReadsColumns(table, n, ["t_host", "t_dev_ms", "x_mm", "y_mm", "h_cdeg", "ox_mm", "oy_mm", "oh_cdeg"],
                     [1.0, 1.0, 1.0, 1.0, 1.0, 1.0, 1.0, 1.0]))
      && (name == "tour_watch cm/deg" ==>
           ReadsColumns(table, n, ["t", "dev_ms", "enc_x_cm", "enc_y_cm", "enc_h_deg",
                                "otos_x_cm", "otos_y_cm", "otos_h_deg"],
                     [1.0, 1.0, 10.0, 10.0, 100.0, 10.0, 10.0, 100.0]))
      && (name == "tour_practice cm/deg" ==>
           ReadsColumns(table, n, ["t", "dev_ms", "enc_x", "enc_y", "enc_h", "otos_x", "otos_y", "otos_h"],
                     [1.0, 1.0, 10.0, 10.0, 100.0, 10.0, 10.0, 100.0]))
      && (name == "tour_capture wire units" ==>
           ReadsColumns(table, n, ["t_host", "t_dev_ms", "x_mm", "y_mm", "h_cdeg", "ox", "oy", "oh"],
                     [1.0, 1.0, 1.0, 1.0, 1.0, 1.0, 1.0, 1.0]))
  {
    hide *;
    NamedPlan(table);
    PlanNumbers();
    if Read(table).value.1 == "pose-csv wire units" {
      PlanReads(table, n, ["t_host", "t_dev_ms", "x_mm", "y_mm", "h_cdeg", "ox_mm", "oy_mm", "oh_cdeg"],
                [1.0, 1.0, 1.0, 1.0, 1.0, 1.0, 1.0, 1.0]);
    } else if Read(table).value.1 == "tour_watch cm/deg" {
      PlanReads(table, n, ["t", "dev_ms", "enc_x_cm", "enc_y_cm", "enc_h_deg",
                           "otos_x_cm", "otos_y_cm", "otos_h_deg"],
                [1.0, 1.0, 10.0, 10.0, 100.0, 10.0, 10.0, 100.0]);
    } else if Read(table).value.1 == "tour_practice cm/deg" {
      PlanReads(table, n, ["t", "dev_ms", "enc_x", "enc_y", "enc_h", "otos_x", "otos_y", "otos_h"],
                [1.0, 1.0, 10.0, 10.0, 100.0, 10.0, 10.0, 100.0]);
    } else if Read(table).value.1 == "tour_capture wire units" {
      PlanReads(table, n, ["t_host", "t_dev_ms", "x_mm", "y_mm", "h_cdeg", "ox", "oy", "oh"],
                [1.0, 1.0, 1.0, 1.0, 1.0, 1.0, 1.0, 1.0]);
    }
  }

  /** The wheel speeds: in mm/s where both such columns are there, else, of the one
      recorder that spelled them so, ten times the cm/s ones. */
  lemma WheelsReadAs(table: Table, n: nat)
    requires Read(table).Ok? && n < |table.rows|
    requires Read(table).value.1 == "pose-csv wire units" || Read(table).value.1 == "tour_practice cm/deg"
    ensures Has(table.header, ["vl_mms", "vr_mms"]) ==>
      ReadsColumn(table, n, "vl", "vl_mms", 1.0) && ReadsColumn(table, n, "vr", "vr_mms", 1.0)
    ensures (&& Read(table).value.1 == "tour_practice cm/deg"
             && !Has(table.header, ["vl_mms", "vr_mms"]) && Has(table.header, ["vl_cms", "vr_cms"])) ==>
      ReadsColumn(table, n, "vl", "vl_cms", 10.0) && ReadsColumn(table, n, "vr", "vr_cms", 10.0)
  {
    ChosenByColumns(table.header);
    hide Choose, Has, DecodedAll, ReadsColumn;
    if |Choose(SCHEMAS, table.header).value.1| == 10 {
      BindingReads(table, n, 8);
      BindingReads(table, n, 9);
    }
  }

  /** Whichever schema a file is read under, a value within half a wire unit of a wire
      integer converts back to that integer. */
  lemma ConvertsBack(table: Table, n: nat, i: nat, k: int)
    requires Read(table).Ok? && n < |table.rows|
    requires var plan := Choose(SCHEMAS, table.header).value.1; i < |plan|
    requires var b := Choose(SCHEMAS, table.header).value.1[i];
      var cell := Lookup(table.header, table.rows[n], b.column);
      b.key != T_HOST && cell.Number? && Abs(InWireUnits(b, cell.v) - k as real) < 0.5
    ensures var b := Choose(SCHEMAS, table.header).value.1[i];
      n < |Read(table).value.0| && b.key in Read(table).value.0[n] && Read(table).value.0[n][b.key] == k as real
  {
    var plan := Choose(SCHEMAS, table.header).value.1;
    var b := plan[i];
    var cell := Lookup(table.header, table.rows[n], b.column);
    ChosenReadsQuantities(table.header);
    hide Lookup, Decoded, DecodedAll, Choose, InWireUnits, Round;
    RowsDecode(table.header, table.rows, plan, n);
    RowHolds(table.header, table.rows[n], plan, n, i);
    RoundIsNearest(InWireUnits(b, cell.v), k);
  }
}
