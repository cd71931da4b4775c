/**
 * The row extractor (`dump_table_data`): every fetched tuple is zipped with
 * the result's column names into a dict; a truthy value in the column named
 * `json_data` is replaced by what `json.loads` makes of it, unless that fails
 * with a `JSONDecodeError`, in which case the raw value is kept.
 */
module RowExtractor {
  import opened Wrappers
  import opened Dicts
  import opened Values

  const JsonColumn := "json_data"

  /** The exceptions that escape the dump and reach the top-level handler. */
  datatype DumpError =
    | ColumnIndexOutOfRange   // an `IndexError`: a tuple with more values than columns
    | LoadsRaised             // `json.loads` raised something other than `JSONDecodeError`
    | QueryFailed(table: string)

  /** True when storing cell `v` under `column` lets an exception escape. */
  predicate CellRaises(column: string, v: Cell, dec: Decoder)
  {
    column == JsonColumn && Truthy(v) && Loads(dec, v).Raised?
  }

  /** What `row_dict[column]` is assigned for the cell `v`. */
  function ConvertCell(column: string, v: Cell, dec: Decoder): (r: Result<Field, DumpError>)
    ensures r.Err? <==> CellRaises(column, v, dec)
  {
    if column == JsonColumn && Truthy(v) then
      match Loads(dec, v)
      case Parsed(j) => Ok(Decoded(j))
      case DecodeFailed => Ok(Stored(v))
      case Raised => Err(LoadsRaised)
    else Ok(Stored(v))
  }

  /** The dict built from the cells of tuple `t`, position by position. */
  function BuildRow(columns: seq<string>, t: seq<Cell>, dec: Decoder): (row: Result<Row, DumpError>)
    decreases |t|
  {
    if t == [] then Ok([])
    else
      match BuildRow(columns, t[..|t| - 1], dec)
      case Err(e) => Err(e)
      case Ok(row) =>
        var i := |t| - 1;
        if i >= |columns| then Err(ColumnIndexOutOfRange)
        else
          match ConvertCell(columns[i], t[i], dec)
          case Err(e) => Err(e)
          case Ok(f) => Ok(Put(row, columns[i], f))
  }

  /** The rows built from all fetched tuples; the first failing tuple's exception ends the dump. */
  function BuildRows(columns: seq<string>, fetched: seq<seq<Cell>>, dec: Decoder): (rows: Result<seq<Row>, DumpError>)
    decreases |fetched|
  {
    if fetched == [] then Ok([])
    else
      match BuildRows(columns, fetched[..|fetched| - 1], dec)
      case Err(e) => Err(e)
      case Ok(rows) =>
        match BuildRow(columns, fetched[|fetched| - 1], dec)
        case Err(e) => Err(e)
        case Ok(row) => Ok(rows + [row])
  }

  /** An exception raised while building part of a row is the row's exception. */
  lemma {:induction false} RowErrorPropagates(columns: seq<string>, t: seq<Cell>, m: nat, dec: Decoder)
    requires m <= |t| && BuildRow(columns, t[..m], dec).Err?
    ensures BuildRow(columns, t, dec) == BuildRow(columns, t[..m], dec)
    decreases |t| - m
  {
    if m < |t| {
      assert t[..m + 1][..m] == t[..m];
      RowErrorPropagates(columns, t, m + 1, dec);
    } else {
      assert t[..m] == t;
    }
  }

  /** An exception raised while building the first rows is the dump's exception. */
  lemma {:induction false} RowsErrorPropagates(columns: seq<string>, fetched: seq<seq<Cell>>, m: nat, dec: Decoder)
    requires m <= |fetched| && BuildRows(columns, fetched[..m], dec).Err?
    ensures BuildRows(columns, fetched, dec) == BuildRows(columns, fetched[..m], dec)
    decreases |fetched| - m
  {
    if m < |fetched| {
      assert fetched[..m + 1][..m] == fetched[..m];
      RowsErrorPropagates(columns, fetched, m + 1, dec);
    } else {
      assert fetched[..m] == fetched;
    }
  }

  /** `dump_table_data` once the `SELECT *` has run: `columns` and `fetched` are its result. */
  method DumpTableData(columns: seq<string>, fetched: seq<seq<Cell>>, dec: Decoder)
    returns (result: Result<seq<Row>, DumpError>)
    ensures result == BuildRows(columns, fetched, dec)
  {
    var rows: seq<Row> := [];
    var n := 0;
    while n < |fetched|
      invariant 0 <= n <= |fetched|
      invariant BuildRows(columns, fetched[..n], dec) == Ok(rows)
    {
      var tuple := fetched[n];
      assert fetched[..n + 1][..n] == fetched[..n];
      var rowDict: Row := [];
      var i := 0;
      while i < |tuple|
        invariant 0 <= i <= |tuple|
        invariant BuildRow(columns, tuple[..i], dec) == Ok(rowDict)
      {
        assert tuple[..i + 1][..i] == tuple[..i];
        if i >= |columns| {
          RowErrorPropagates(columns, tuple, i + 1, dec);
          RowsErrorPropagates(columns, fetched, n + 1, dec);
          return Err(ColumnIndexOutOfRange);
        }
        var value := tuple[i];
        if columns[i] == JsonColumn && Truthy(value) {
          match Loads(dec, value) {
            case Parsed(j) =>
              rowDict := Put(rowDict, columns[i], Decoded(j));
            case DecodeFailed =>
              rowDict := Put(rowDict, columns[i], Stored(value));
            case Raised =>
              RowErrorPropagates(columns, tuple, i + 1, dec);
              RowsErrorPropagates(columns, fetched, n + 1, dec);
              return Err(LoadsRaised);
          }
        } else {
          rowDict := Put(rowDict, columns[i], Stored(value));
        }
        i := i + 1;
      }
      assert tuple[..i] == tuple;
      rows := rows + [rowDict];
      n := n + 1;
    }
    assert fetched[..n] == fetched;
    return Ok(rows);
  }

  /**
   * The dump succeeds exactly when every tuple converts, and then holds one
   * row per fetched tuple, in fetch order.
   */
  lemma {:induction false} BuildRowsPerTuple(columns: seq<string>, fetched: seq<seq<Cell>>, dec: Decoder)
    ensures BuildRows(columns, fetched, dec).Ok?
        <==> forall n :: 0 <= n < |fetched| ==> BuildRow(columns, fetched[n], dec).Ok?
    ensures BuildRows(columns, fetched, dec).Ok? ==>
              && |BuildRows(columns, fetched, dec).value| == |fetched|
              && forall n :: 0 <= n < |fetched| ==>
                   BuildRows(columns, fetched, dec).value[n] == BuildRow(columns, fetched[n], dec).value
    decreases |fetched|
  {
    if fetched != [] {
      var init := fetched[..|fetched| - 1];
      BuildRowsPerTuple(columns, init, dec);
      assert forall n :: 0 <= n < |init| ==> init[n] == fetched[n];
    }
  }

  /** A row fails exactly when one of its cells raises or it has more cells than columns. */
  lemma {:induction false} BuildRowSucceeds(columns: seq<string>, t: seq<Cell>, dec: Decoder)
    requires |t| <= |columns|
    ensures BuildRow(columns, t, dec).Ok? <==> forall j :: 0 <= j < |t| ==> !CellRaises(columns[j], t[j], dec)
    decreases |t|
  {
    if t != [] {
      var init := t[..|t| - 1];
      BuildRowSucceeds(columns, init, dec);
      assert forall j :: 0 <= j < |init| ==> init[j] == t[j];
    }
  }

  /** A row's keys are the column names it used, in order, when these are distinct. */
  lemma {:induction false} BuildRowKeys(columns: seq<string>, t: seq<Cell>, dec: Decoder)
    requires |t| <= |columns|
    requires forall i, j :: 0 <= i < j < |columns| ==> columns[i] != columns[j]
    requires BuildRow(columns, t, dec).Ok?
    ensures Keys(BuildRow(columns, t, dec).value) == columns[..|t|]
    decreases |t|
  {
    if t != [] {
      var i := |t| - 1;
      BuildRowKeys(columns, t[..i], dec);
      var row := BuildRow(columns, t[..i], dec).value;
      var f := ConvertCell(columns[i], t[i], dec).value;
      assert BuildRow(columns, t, dec) == Ok(Put(row, columns[i], f));
      assert columns[i] !in columns[..i] by {
        forall k | 0 <= k < i ensures columns[..i][k] != columns[i] {
          assert columns[..i][k] == columns[k];
        }
      }
      PutFresh(row, columns[i], f);
      assert columns[..i] + [columns[i]] == columns[..|t|];
    }
  }

  /**
   * With distinct column names (as a table's always are), each column's key
   * holds its own cell's conversion.
   */
  lemma {:induction false} BuildRowEntries(columns: seq<string>, t: seq<Cell>, dec: Decoder)
    requires |t| <= |columns|
    requires forall i, j :: 0 <= i < j < |columns| ==> columns[i] != columns[j]
    requires BuildRow(columns, t, dec).Ok?
    ensures forall j :: 0 <= j < |t| ==>
              && ConvertCell(columns[j], t[j], dec).Ok?
              && Get(BuildRow(columns, t, dec).value, columns[j]) == Some(ConvertCell(columns[j], t[j], dec).value)
    decreases |t|
  {
    if t != [] {
      var i := |t| - 1;
      var init := t[..i];
      BuildRowEntries(columns, init, dec);
      var row := BuildRow(columns, init, dec).value;
      var f := ConvertCell(columns[i], t[i], dec).value;
      assert BuildRow(columns, t, dec) == Ok(Put(row, columns[i], f));
      PutGet(row, columns[i], f, columns[i]);
      forall j | 0 <= j < i
        ensures ConvertCell(columns[j], t[j], dec).Ok?
        ensures Get(Put(row, columns[i], f), columns[j]) == Some(ConvertCell(columns[j], t[j], dec).value)
      {
        assert init[j] == t[j];
        PutGet(row, columns[i], f, columns[j]);
      }
    }
  }

  /**
   * The row built from a full tuple: every column is a key, every column other
   * than `json_data` keeps its cell, and a `json_data` cell is decoded only
   * when it is truthy and parses; otherwise it is kept as it was.
   */
  lemma RowFieldValues(columns: seq<string>, t: seq<Cell>, dec: Decoder, j: nat)
    requires |t| == |columns| && j < |t|
    requires forall i, k :: 0 <= i < k < |columns| ==> columns[i] != columns[k]
    requires BuildRow(columns, t, dec).Ok?
    ensures Keys(BuildRow(columns, t, dec).value) == columns
    ensures columns[j] != JsonColumn ==> Get(BuildRow(columns, t, dec).value, columns[j]) == Some(Stored(t[j]))
    ensures columns[j] == JsonColumn && !Truthy(t[j]) ==>
              Get(BuildRow(columns, t, dec).value, columns[j]) == Some(Stored(t[j]))
    ensures columns[j] == JsonColumn && Truthy(t[j]) && Loads(dec, t[j]).Parsed? ==>
              Get(BuildRow(columns, t, dec).value, columns[j]) == Some(Decoded(Loads(dec, t[j]).value))
    ensures columns[j] == JsonColumn && Truthy(t[j]) && Loads(dec, t[j]).DecodeFailed? ==>
              Get(BuildRow(columns, t, dec).value, columns[j]) == Some(Stored(t[j]))
  {
    BuildRowKeys(columns, t, dec);
    BuildRowEntries(columns, t, dec);
    assert columns[..|t|] == columns;
  }

  /** A tuple with more values than there are columns raises `IndexError`. */
  lemma ExtraValueRaises(columns: seq<string>, t: seq<Cell>, dec: Decoder)
    requires |t| > |columns|
    ensures BuildRow(columns, t, dec).Err?
    ensures BuildRow(columns, t[..|columns|], dec).Ok? ==> BuildRow(columns, t, dec) == Err(ColumnIndexOutOfRange)
  {
    var m := |columns| + 1;
    assert t[..m][..m - 1] == t[..m - 1];
    RowErrorPropagates(columns, t, m, dec);
  }

  /**
   * A non-zero number in the `json_data` column is handed to `json.loads`,
   * which raises `TypeError`; that is not a `JSONDecodeError`, so it escapes.
   */
  lemma NumberInJsonColumnRaises(v: Cell, dec: Decoder)
    requires (v.SqlInteger? && v.i != 0) || (v.SqlReal? && v.r != 0.0)
    ensures ConvertCell(JsonColumn, v, dec) == Err(LoadsRaised)
  {
  }

  /**
   * The parser is consulted only for truthy `json_data` cells: two parsers
   * that agree on those build the same row, whatever they do on the rest.
   */
  lemma {:induction false} DecoderOnlyOnTruthyJson(columns: seq<string>, t: seq<Cell>, dec1: Decoder, dec2: Decoder)
    requires forall j :: 0 <= j < |t| && j < |columns| && columns[j] == JsonColumn && Truthy(t[j]) ==>
               Loads(dec1, t[j]) == Loads(dec2, t[j])
    ensures BuildRow(columns, t, dec1) == BuildRow(columns, t, dec2)
    decreases |t|
  {
    if t != [] {
      var init := t[..|t| - 1];
      assert forall j :: 0 <= j < |init| ==> init[j] == t[j];
      DecoderOnlyOnTruthyJson(columns, init, dec1, dec2);
    }
  }
}
