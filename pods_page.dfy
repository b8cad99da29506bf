/**
 * `PodsPage`: the readings of a sensor device, one table per sensor. The
 * table rows and columns are built by loops; the page state is the
 * fetched graph, the refresh time and the loading flag.
 */
module PodsPage {
  import opened Wrappers

  /** A grid cell: the numeric `id` and `n`, or a text. */
  datatype Cell = Num(n: int) | Str(s: string)

  type Row = map<string, Cell>

  /** One reading: the text each property contributes to a string concatenation. */
  type Reading = map<string, string>

  /** `el[key]` as text; an absent property reads as "undefined". */
  function Field(el: Reading, key: string): string
  {
    if key in el then el[key] else "undefined"
  }

  /**
   * Row `index` of the table for reading `el`: it has the properties `id`,
   * `n`, `time` and one per key; each key other than "time" holds the
   * reading's value, a space and the unit; `time` holds the formatted
   * reading time; `id` is the index and `n` the index plus one unless a key
   * of that name overwrote them.
   */
  ghost predicate IsRowOf(row: Row, index: int, keys: seq<string>, el: Reading, um: string, formatTime: string -> string)
  {
    && (forall k :: k in row <==> k == "id" || k == "n" || k == "time" || k in keys)
    && (forall k :: k in keys && k != "time" ==> k in row && row[k] == Str(Field(el, k) + " " + um))
    && "time" in row && row["time"] == Str(formatTime(Field(el, "time")))
    && ("id" !in keys ==> "id" in row && row["id"] == Num(index))
    && ("n" !in keys ==> "n" in row && row["n"] == Num(index + 1))
  }

  /**
   * The body of the `forEach` callback: start from `{id, n}`, assign each
   * key in order, then assign `time`, so a key named "time", "id" or "n"
   * is overwritten by the later assignment.
   */
  method BuildRow(index: int, keys: seq<string>, el: Reading, um: string, formatTime: string -> string)
    returns (row: Row)
    ensures IsRowOf(row, index, keys, el, um, formatTime)
  {
    var keyed := AssignKeys(index, keys, el, um);
    row := keyed["time" := Str(formatTime(Field(el, "time")))];
  }

  /** The loop over the keys: `{id, n}` with each key assigned in order. */
  method AssignKeys(index: int, keys: seq<string>, el: Reading, um: string) returns (row: Row)
    ensures forall k :: k in row <==> k == "id" || k == "n" || k in keys
    ensures forall k :: k in keys ==> k in row && row[k] == Str(Field(el, k) + " " + um)
    ensures "id" !in keys ==> "id" in row && row["id"] == Num(index)
    ensures "n" !in keys ==> "n" in row && row["n"] == Num(index + 1)
  {
    row := map["id" := Num(index), "n" := Num(index + 1)];
    for j := 0 to |keys|
      invariant forall k :: k in row <==> k == "id" || k == "n" || k in keys[..j]
      invariant forall k :: k in keys[..j] ==> row[k] == Str(Field(el, k) + " " + um)
      invariant "id" !in keys[..j] ==> row["id"] == Num(index)
      invariant "n" !in keys[..j] ==> row["n"] == Num(index + 1)
    {
      assert keys[..j + 1] == keys[..j] + [keys[j]];
      row := row[keys[j] := Str(Field(el, keys[j]) + " " + um)];
    }
    assert keys[..|keys|] == keys;
  }

  /** `getRows(keys, data, um)`: one row per reading, in reading order. */
  method GetRows(keys: seq<string>, data: seq<Reading>, um: string, formatTime: string -> string)
    returns (rows: seq<Row>)
    ensures |rows| == |data|
    ensures forall i :: 0 <= i < |rows| ==> IsRowOf(rows[i], i, keys, data[i], um, formatTime)
  {
    rows := [];
    var index := 0;
    while index < |data|
      invariant 0 <= index <= |data| && |rows| == index
      invariant forall i :: 0 <= i < |rows| ==> IsRowOf(rows[i], i, keys, data[i], um, formatTime)
    {
      var row := BuildRow(index, keys, data[index], um, formatTime);
      rows := rows + [row];
      index := index + 1;
    }
  }

  /** A data-grid column definition; absent options are `None`. */
  datatype Column = Column(
    field: string,
    headerName: string,
    description: Option<string>,
    width: Option<int>,
    minWidth: Option<int>,
    align: Option<string>,
    headerAlign: Option<string>,
    flex: Option<real>,
    editable: bool)

  /** The running number column. */
  const NumberColumn: Column :=
    Column("n", "n\U{00B0}", None, Some(90), None, Some("center"), Some("center"), None, false)

  /** The reading time column. */
  const TimeColumn: Column :=
    Column("time", "Tempo", Some("Tempo alla rilevazione"), None, Some(150), None, None, Some(0.5), false)

  /**
   * `getColumns(keys)`: the number and time columns, then one column per
   * key in key order, each titled by its key and taking an equal share
   * `1 / keys.length` of the remaining width.
   */
  method GetColumns(keys: seq<string>) returns (columns: seq<Column>)
    ensures |columns| == 2 + |keys|
    ensures columns[0] == NumberColumn && columns[1] == TimeColumn
    ensures forall i :: 0 <= i < |keys| ==> KeyColumnOf(columns[i + 2], keys[i], |keys|)
    ensures forall i :: 0 <= i < |columns| ==> !columns[i].editable
  {
    columns := [NumberColumn, TimeColumn];
    for j := 0 to |keys|
      invariant |columns| == 2 + j
      invariant columns[0] == NumberColumn && columns[1] == TimeColumn
      invariant forall i :: 0 <= i < j ==> KeyColumnOf(columns[i + 2], keys[i], |keys|)
      invariant forall i :: 0 <= i < |columns| ==> !columns[i].editable
    {
      var key := keys[j];
      var column := Column(key, key, None, None, Some(150), Some("center"), Some("center"),
                           Some(1.0 / (|keys| as real)), false);
      assert KeyColumnOf(column, keys[j], |keys|);
      columns := columns + [column];
    }
  }

  /** The column of `key` among `count` keys: titled by the key, with an equal share of the width. */
  predicate KeyColumnOf(column: Column, key: string, count: nat)
  {
    count > 0 && column.field == key && column.headerName == key && column.flex == Some(1.0 / (count as real))
  }

  /** What the device endpoint returns: for each sensor, its keys, unit and readings. */
  datatype SensorInfo = SensorInfo(sensor: string, keys: seq<string>, um: string)
  datatype Sensor = Sensor(info: SensorInfo, readings: seq<Reading>)
  datatype Graph = Graph(sensors: seq<Sensor>)

  /** The page's state. `device` is `None` until a graph has been fetched (the initial `{}`). */
  class PodsPage {
    var loading: bool
    var updatedTime: string
    var device: Option<Graph>
    /** Alerts raised for failed fetches. */
    var alerts: nat

    constructor ()
      ensures loading && updatedTime == "00:00" && device == None && alerts == 0
    {
      loading := true;
      updatedTime := "00:00";
      device := None;
      alerts := 0;
    }

    /** The synchronous part of `handleRefresh`. */
    method BeginRefresh()
      modifies this`loading
      ensures loading
    {
      loading := true;
    }

    /**
     * The fetch's continuation, shared by the first load and by refresh:
     * a graph is stored with the time of its arrival; a failure raises an
     * alert and keeps the previous graph. Loading ends either way.
     */
    method SettleFetch(reply: Option<Graph>, now: string)
      modifies this`loading, this`updatedTime, this`device, this`alerts
      ensures !loading
      ensures reply.Some? ==> device == reply && updatedTime == now && alerts == old(alerts)
      ensures reply.None? ==> device == old(device) && updatedTime == old(updatedTime) && alerts == old(alerts) + 1
    {
      if reply.Some? {
        device := reply;
        updatedTime := now;
      } else {
        alerts := alerts + 1;
      }
      loading := false;
    }

    /** `handleRefresh` run to completion. */
    method HandleRefresh(reply: Option<Graph>, now: string)
      modifies this`loading, this`updatedTime, this`device, this`alerts
      ensures !loading
      ensures reply.Some? ==> device == reply && updatedTime == now && alerts == old(alerts)
      ensures reply.None? ==> device == old(device) && updatedTime == old(updatedTime) && alerts == old(alerts) + 1
    {
      BeginRefresh();
      SettleFetch(reply, now);
    }
  }
}
