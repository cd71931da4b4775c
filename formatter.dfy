/**
 * The per-table text formatter (`format_table_output`). The output is a list
 * of lines joined with newlines; the properties are stated on that list,
 * because a rendered value may itself contain newlines.
 */
module Formatter {
  import opened Dicts
  import opened Text
  import opened Values
  import opened RowExtractor

  /** At most this many records of a table are printed. */
  const MaxShown: nat := 5

  datatype ColumnInfo = ColumnInfo(name: string, declType: string)

  /** What `get_table_info` reports: the name, the declared columns and `COUNT(*)`. */
  datatype TableInfo = TableInfo(name: string, columns: seq<ColumnInfo>, rowCount: nat)

  /**
   * Python's `str()` of a field and of a decoded JSON value, and `str.upper()`.
   * They are parameters: only their results' place in the output is modelled.
   */
  datatype Renderer = Renderer(field: Field -> string, json: JsonValue -> string, upper: string -> string)

  const NoData := "No data found."
  const ColumnsPrefix := "Columns: "
  const HeadingPrefix := "--- Record "
  const MorePrefix := "... and "

  /** The sub-fields of a decoded `json_data` object that are shown, in this order. */
  const SubFields: seq<string> := ["name", "id", "location"]

  function Rule(): string
  {
    Repeat('=', 60)
  }

  function HeaderLines(info: TableInfo, r: Renderer): seq<string>
  {
    ["\n" + Rule(), "TABLE: " + r.upper(info.name), Rule(), "Records: " + Decimal(info.rowCount)]
  }

  function ColumnNames(info: TableInfo): seq<string>
  {
    seq(|info.columns|, i requires 0 <= i < |info.columns| => info.columns[i].name)
  }

  function ColumnsLine(info: TableInfo): string
  {
    ColumnsPrefix + Join(", ", ColumnNames(info))
  }

  function RecordHeading(n: nat): string
  {
    HeadingPrefix + Decimal(n) + " ---"
  }

  function MoreLine(n: nat): string
  {
    MorePrefix + Decimal(n) + " more records"
  }

  function SubFieldLine(key: string, v: JsonValue, r: Renderer): string
  {
    "    " + key + ": " + r.json(v)
  }

  function ObjectSummaryLine(key: string, m: map<string, JsonValue>): string
  {
    "  " + key + ": [JSON Object with " + Decimal(|m|) + " keys]"
  }

  predicate IsJsonObjectField(key: string, value: Field)
  {
    key == JsonColumn && value.Decoded? && value.json.JObject?
  }

  /** The lines printed for one key of a record. */
  function FieldLines(key: string, value: Field, r: Renderer): seq<string>
  {
    if IsJsonObjectField(key, value) then
      var m := value.json.members;
      [ObjectSummaryLine(key, m)]
      + (if "name" in m then [SubFieldLine("name", m["name"], r)] else [])
      + (if "id" in m then [SubFieldLine("id", m["id"], r)] else [])
      + (if "location" in m then [SubFieldLine("location", m["location"], r)] else [])
    else
      ["  " + key + ": " + r.field(value)]
  }

  /** The lines printed for a record's keys, in the record's key order. */
  function FieldsLines(row: Row, r: Renderer): seq<string>
    decreases |row|
  {
    if row == [] then []
    else FieldsLines(row[..|row| - 1], r) + FieldLines(row[|row| - 1].0, row[|row| - 1].1, r)
  }

  function RecordBlock(row: Row, n: nat, r: Renderer): seq<string>
  {
    [RecordHeading(n)] + FieldsLines(row, r) + [""]
  }

  /** The blocks of `rows`, numbered from 1. */
  function RecordBlocks(rows: seq<Row>, r: Renderer): seq<string>
    decreases |rows|
  {
    if rows == [] then []
    else RecordBlocks(rows[..|rows| - 1], r) + RecordBlock(rows[|rows| - 1], |rows|, r)
  }

  /** `data[:5]`. */
  function Shown(data: seq<Row>): seq<Row>
  {
    if |data| <= MaxShown then data else data[..MaxShown]
  }

  /** The header, the column list and a blank line: what precedes the records. */
  function PreambleLines(info: TableInfo, r: Renderer): seq<string>
  {
    HeaderLines(info, r) + [ColumnsLine(info), ""]
  }

  /** The "more records" line, when records were left out. */
  function TrailerLines(data: seq<Row>): seq<string>
  {
    if |data| > MaxShown then [MoreLine(|data| - MaxShown)] else []
  }

  /** The list `output` that `format_table_output` joins. */
  function TableLines(info: TableInfo, data: seq<Row>, r: Renderer): (lines: seq<string>)
  {
    if info.rowCount == 0 then HeaderLines(info, r) + [NoData]
    else PreambleLines(info, r) + RecordBlocks(Shown(data), r) + TrailerLines(data)
  }

  lemma Assoc(a: seq<string>, b: seq<string>, c: seq<string>)
    ensures a + b + c == a + (b + c)
  {
  }

  lemma FieldsLinesSnoc(row: Row, j: nat, r: Renderer)
    requires j < |row|
    ensures FieldsLines(row[..j + 1], r) == FieldsLines(row[..j], r) + FieldLines(row[j].0, row[j].1, r)
  {
    assert row[..j + 1][..j] == row[..j];
  }

  lemma RecordBlocksSnoc(rows: seq<Row>, i: nat, r: Renderer)
    requires i < |rows|
    ensures RecordBlocks(rows[..i + 1], r) == RecordBlocks(rows[..i], r) + RecordBlock(rows[i], i + 1, r)
  {
    assert rows[..i + 1][..i] == rows[..i];
  }

  /** Appends the lines for one key of a record to `output`. */
  method AppendField(output: seq<string>, key: string, value: Field, r: Renderer) returns (result: seq<string>)
    ensures result == output + FieldLines(key, value, r)
  {
    result := output;
    ghost var added: seq<string>;
    if key == JsonColumn && value.Decoded? && value.json.JObject? {
      var m := value.json.members;
      result := result + [ObjectSummaryLine(key, m)];
      added := [ObjectSummaryLine(key, m)];
      if "name" in m {
        result := result + [SubFieldLine("name", m["name"], r)];
        added := added + [SubFieldLine("name", m["name"], r)];
      }
      if "id" in m {
        result := result + [SubFieldLine("id", m["id"], r)];
        added := added + [SubFieldLine("id", m["id"], r)];
      }
      if "location" in m {
        result := result + [SubFieldLine("location", m["location"], r)];
        added := added + [SubFieldLine("location", m["location"], r)];
      }
    } else {
      result := result + ["  " + key + ": " + r.field(value)];
      added := ["  " + key + ": " + r.field(value)];
    }
    assert result == output + added;
  }

  /** Appends record number `n`'s block to `output`: heading, one entry per key, blank line. */
  method AppendRecord(output: seq<string>, record: Row, n: nat, r: Renderer) returns (result: seq<string>)
    ensures result == output + RecordBlock(record, n, r)
  {
    result := output + [RecordHeading(n)];
    var j := 0;
    while j < |record|
      invariant 0 <= j <= |record|
      invariant result == output + [RecordHeading(n)] + FieldsLines(record[..j], r)
    {
      var (key, value) := record[j];
      ghost var start := result;
      result := AppendField(result, key, value, r);
      FieldsLinesSnoc(record, j, r);
      Assoc(output + [RecordHeading(n)], FieldsLines(record[..j], r), FieldLines(key, value, r));
      j := j + 1;
    }
    assert record[..j] == record;
    result := result + [""];
    Assoc(output, [RecordHeading(n)], FieldsLines(record, r));
    Assoc(output, [RecordHeading(n)] + FieldsLines(record, r), [""]);
  }

  /** `format_table_output(table_info, data)`. */
  method FormatTableOutput(info: TableInfo, data: seq<Row>, r: Renderer) returns (text: string)
    ensures text == Join("\n", TableLines(info, data, r))
  {
    var output: seq<string> := [];
    output := output + ["\n" + Rule()];
    output := output + ["TABLE: " + r.upper(info.name)];
    output := output + [Rule()];
    output := output + ["Records: " + Decimal(info.rowCount)];
    assert output == HeaderLines(info, r);

    if info.rowCount == 0 {
      output := output + [NoData];
      return Join("\n", output);
    }

    output := output + [ColumnsLine(info)];
    output := output + [""];
    ghost var head := output;
    assert head == PreambleLines(info, r);

    var shown := Shown(data);
    var i := 0;
    while i < |shown|
      invariant 0 <= i <= |shown|
      invariant output == head + RecordBlocks(shown[..i], r)
    {
      output := AppendRecord(output, shown[i], i + 1, r);
      RecordBlocksSnoc(shown, i, r);
      Assoc(head, RecordBlocks(shown[..i], r), RecordBlock(shown[i], i + 1, r));
      i := i + 1;
    }
    assert shown[..i] == shown;

    if |data| > MaxShown {
      output := output + [MoreLine(|data| - MaxShown)];
    }
    assert output == TableLines(info, data, r);
    text := Join("\n", output);
  }

  // Classifying lines

  predicate IsColumnsLine(line: string)
  {
    StartsWith(line, ColumnsPrefix)
  }

  predicate IsRecordHeading(line: string)
  {
    StartsWith(line, HeadingPrefix)
  }

  predicate IsMoreLine(line: string)
  {
    StartsWith(line, MorePrefix)
  }

  /** A line whose first character is none of 'C', '-' and '.' is none of the three marked lines. */
  lemma Unmarked(line: string)
    requires line == "" || (line[0] != 'C' && line[0] != '-' && line[0] != '.')
    ensures !IsColumnsLine(line) && !IsRecordHeading(line) && !IsMoreLine(line)
  {
    StartsWithHead(line, ColumnsPrefix);
    StartsWithHead(line, HeadingPrefix);
    StartsWithHead(line, MorePrefix);
  }

  lemma HeaderUnmarked(info: TableInfo, r: Renderer)
    ensures forall line :: line in HeaderLines(info, r) ==>
              !IsColumnsLine(line) && !IsRecordHeading(line) && !IsMoreLine(line)
  {
    var h := HeaderLines(info, r);
    Unmarked(h[0]);
    Unmarked(h[1]);
    Unmarked(h[2]);
    Unmarked(h[3]);
  }

  /** Every line printed for a record's fields is indented. */
  lemma {:induction false} FieldsLinesIndented(row: Row, r: Renderer)
    ensures forall line :: line in FieldsLines(row, r) ==> |line| > 0 && line[0] == ' '
    decreases |row|
  {
    if row != [] {
      FieldsLinesIndented(row[..|row| - 1], r);
    }
  }

  lemma HeadingMarked(n: nat)
    ensures IsRecordHeading(RecordHeading(n))
    ensures !IsColumnsLine(RecordHeading(n)) && !IsMoreLine(RecordHeading(n))
  {
    assert RecordHeading(n)[..|HeadingPrefix|] == HeadingPrefix;
    StartsWithHead(RecordHeading(n), ColumnsPrefix);
    StartsWithHead(RecordHeading(n), MorePrefix);
  }

  lemma MoreMarked(n: nat)
    ensures IsMoreLine(MoreLine(n))
    ensures !IsColumnsLine(MoreLine(n)) && !IsRecordHeading(MoreLine(n))
  {
    assert MoreLine(n)[..|MorePrefix|] == MorePrefix;
    StartsWithHead(MoreLine(n), ColumnsPrefix);
    StartsWithHead(MoreLine(n), HeadingPrefix);
  }

  lemma ColumnsMarked(info: TableInfo)
    ensures IsColumnsLine(ColumnsLine(info))
    ensures !IsRecordHeading(ColumnsLine(info)) && !IsMoreLine(ColumnsLine(info))
  {
    assert ColumnsLine(info)[..|ColumnsPrefix|] == ColumnsPrefix;
    StartsWithHead(ColumnsLine(info), HeadingPrefix);
    StartsWithHead(ColumnsLine(info), MorePrefix);
  }

  /** No field line is a heading, a column list or a "more" line. */
  lemma FieldsUnmarked(row: Row, r: Renderer)
    ensures Select(IsRecordHeading, FieldsLines(row, r)) == []
    ensures Select(IsMoreLine, FieldsLines(row, r)) == []
    ensures Select(IsColumnsLine, FieldsLines(row, r)) == []
  {
    var fields := FieldsLines(row, r);
    FieldsLinesIndented(row, r);
    forall line | line in fields
      ensures !IsColumnsLine(line) && !IsRecordHeading(line) && !IsMoreLine(line)
    {
      Unmarked(line);
    }
    SelectNone(IsRecordHeading, fields);
    SelectNone(IsMoreLine, fields);
    SelectNone(IsColumnsLine, fields);
  }

  /** A record block holds one heading, its own, and no other marked line. */
  lemma BlockSelect(row: Row, n: nat, r: Renderer)
    ensures Select(IsRecordHeading, RecordBlock(row, n, r)) == [RecordHeading(n)]
    ensures Select(IsMoreLine, RecordBlock(row, n, r)) == []
    ensures Select(IsColumnsLine, RecordBlock(row, n, r)) == []
  {
    var fields := FieldsLines(row, r);
    FieldsUnmarked(row, r);
    HeadingMarked(n);
    Unmarked("");
    assert RecordBlock(row, n, r) == [RecordHeading(n)] + (fields + [""]);
    SelectAppend(IsRecordHeading, fields, [""]);
    SelectAppend(IsMoreLine, fields, [""]);
    SelectAppend(IsColumnsLine, fields, [""]);
    SelectCons(IsRecordHeading, RecordHeading(n), fields + [""]);
    SelectCons(IsMoreLine, RecordHeading(n), fields + [""]);
    SelectCons(IsColumnsLine, RecordHeading(n), fields + [""]);
    SelectCons(IsRecordHeading, "", []);
    SelectCons(IsMoreLine, "", []);
    SelectCons(IsColumnsLine, "", []);
  }

  /** The headings among the record blocks are those numbered 1 to |rows|, in order. */
  lemma {:induction false} RecordBlocksHeadings(rows: seq<Row>, r: Renderer)
    ensures |Select(IsRecordHeading, RecordBlocks(rows, r))| == |rows|
    ensures forall j :: 0 <= j < |rows| ==> Select(IsRecordHeading, RecordBlocks(rows, r))[j] == RecordHeading(j + 1)
    decreases |rows|
  {
    if rows != [] {
      var n := |rows|;
      var init := rows[..n - 1];
      RecordBlocksHeadings(init, r);
      BlockSelect(rows[n - 1], n, r);
      SelectAppend(IsRecordHeading, RecordBlocks(init, r), RecordBlock(rows[n - 1], n, r));
      var before := Select(IsRecordHeading, RecordBlocks(init, r));
      var headings := Select(IsRecordHeading, RecordBlocks(rows, r));
      assert headings == before + [RecordHeading(n)];
      forall j | 0 <= j < n
        ensures headings[j] == RecordHeading(j + 1)
      {
        if j < n - 1 {
          assert headings[j] == before[j];
        }
      }
    }
  }

  /** The record blocks hold no column list and no "more" line. */
  lemma {:induction false} RecordBlocksUnmarked(rows: seq<Row>, r: Renderer)
    ensures Select(IsMoreLine, RecordBlocks(rows, r)) == []
    ensures Select(IsColumnsLine, RecordBlocks(rows, r)) == []
    decreases |rows|
  {
    if rows != [] {
      var n := |rows|;
      var init := rows[..n - 1];
      RecordBlocksUnmarked(init, r);
      BlockSelect(rows[n - 1], n, r);
      SelectAppend(IsMoreLine, RecordBlocks(init, r), RecordBlock(rows[n - 1], n, r));
      SelectAppend(IsColumnsLine, RecordBlocks(init, r), RecordBlock(rows[n - 1], n, r));
    }
  }

  // The properties of the formatter

  /**
   * A table whose count is 0 prints its header and then "No data found." as
   * its last line, with no column list, no record and no "more records" line,
   * whatever rows it is given.
   */
  lemma NoDataOutput(info: TableInfo, data: seq<Row>, r: Renderer)
    requires info.rowCount == 0
    ensures var lines := TableLines(info, data, r);
            && lines[|lines| - 1] == NoData
            && forall line :: line in lines ==>
                 !IsColumnsLine(line) && !IsRecordHeading(line) && !IsMoreLine(line)
  {
    HeaderUnmarked(info, r);
    Unmarked(NoData);
  }

  /** The six lines before the records hold no heading and no "more" line. */
  lemma PreambleMarks(info: TableInfo, r: Renderer)
    ensures |PreambleLines(info, r)| == 6
    ensures Select(IsRecordHeading, PreambleLines(info, r)) == []
    ensures Select(IsMoreLine, PreambleLines(info, r)) == []
  {
    var pre := PreambleLines(info, r);
    HeaderUnmarked(info, r);
    Unmarked("");
    ColumnsMarked(info);
    forall line | line in pre
      ensures !IsRecordHeading(line) && !IsMoreLine(line)
    {
      assert line in HeaderLines(info, r) || line == ColumnsLine(info) || line == "";
    }
    SelectNone(IsRecordHeading, pre);
    SelectNone(IsMoreLine, pre);
  }

  /** The trailer is the "more" line alone, when there is one. */
  lemma TrailerMarks(data: seq<Row>)
    ensures Select(IsRecordHeading, TrailerLines(data)) == []
    ensures Select(IsMoreLine, TrailerLines(data)) == TrailerLines(data)
  {
    if |data| > MaxShown {
      var line := MoreLine(|data| - MaxShown);
      MoreMarked(|data| - MaxShown);
      SelectCons(IsRecordHeading, line, []);
      SelectCons(IsMoreLine, line, []);
    }
  }

  /**
   * Otherwise exactly min(5, |data|) records are printed, headed
   * "--- Record 1 ---" up to "--- Record k ---" in this order.
   */
  lemma RecordHeadingsNumbered(info: TableInfo, data: seq<Row>, r: Renderer)
    requires info.rowCount != 0
    ensures var headings := Select(IsRecordHeading, TableLines(info, data, r));
            && |headings| == (if |data| < MaxShown then |data| else MaxShown)
            && forall j :: 0 <= j < |headings| ==> headings[j] == RecordHeading(j + 1)
  {
    var pre := PreambleLines(info, r);
    var blocks := RecordBlocks(Shown(data), r);
    TableLinesParts(info, data, r);
    PreambleMarks(info, r);
    TrailerMarks(data);
    SelectAppend3(IsRecordHeading, pre, blocks, TrailerLines(data));
    assert Select(IsRecordHeading, TableLines(info, data, r)) == Select(IsRecordHeading, blocks);
    RecordBlocksHeadings(Shown(data), r);
  }

  /**
   * The "... and N more records" line is printed exactly when there are more
   * than 5 records, with N the number left out, and it is the last line.
   */
  lemma MoreRecordsLine(info: TableInfo, data: seq<Row>, r: Renderer)
    requires info.rowCount != 0
    ensures var lines := TableLines(info, data, r);
            && Select(IsMoreLine, lines) == (if |data| > MaxShown then [MoreLine(|data| - MaxShown)] else [])
            && ((exists i :: 0 <= i < |lines| && IsMoreLine(lines[i])) <==> |data| > MaxShown)
            && (|data| > MaxShown ==> lines[|lines| - 1] == MoreLine(|data| - MaxShown))
  {
    var lines := TableLines(info, data, r);
    var pre := PreambleLines(info, r);
    var blocks := RecordBlocks(Shown(data), r);
    TableLinesParts(info, data, r);
    PreambleMarks(info, r);
    TrailerMarks(data);
    RecordBlocksUnmarked(Shown(data), r);
    SelectAppend3(IsMoreLine, pre, blocks, TrailerLines(data));
    SelectNonEmpty(IsMoreLine, lines);
  }

  /** The blocks of a prefix of the records are a prefix of the blocks. */
  lemma {:induction false} RecordBlocksPrefix(rows: seq<Row>, m: nat, r: Renderer)
    requires m <= |rows|
    ensures |RecordBlocks(rows[..m], r)| <= |RecordBlocks(rows, r)|
    ensures RecordBlocks(rows, r)[..|RecordBlocks(rows[..m], r)|] == RecordBlocks(rows[..m], r)
    decreases |rows| - m
  {
    if m < |rows| {
      RecordBlocksPrefix(rows, m + 1, r);
      RecordBlocksSnoc(rows, m, r);
      var all := RecordBlocks(rows, r);
      var longer := RecordBlocks(rows[..m + 1], r);
      var shorter := RecordBlocks(rows[..m], r);
      assert longer == shorter + RecordBlock(rows[m], m + 1, r);
      assert all[..|longer|] == longer;
      assert all[..|shorter|] == longer[..|shorter|];
    } else {
      assert rows[..m] == rows;
    }
  }

  /**
   * Record j + 1 is printed in data order: its block (heading, the lines of
   * `data[j]`'s fields, a blank line) follows the six preamble lines and the
   * blocks of the records before it.
   */
  lemma RecordBlockPlacement(info: TableInfo, data: seq<Row>, r: Renderer, j: nat)
    requires info.rowCount != 0 && j < |data| && j < MaxShown
    ensures var lines := TableLines(info, data, r);
            var at := 6 + |RecordBlocks(data[..j], r)|;
            var block := RecordBlock(data[j], j + 1, r);
            && at + |block| <= |lines|
            && lines[at..at + |block|] == block
  {
    var lo := |RecordBlocks(data[..j], r)|;
    var block := RecordBlock(data[j], j + 1, r);
    TableLinesParts(info, data, r);
    BlockInShown(data, j, r);
    PreambleLength(info, r);
    SliceAt(TableLines(info, data, r), PreambleLines(info, r), RecordBlocks(Shown(data), r), TrailerLines(data), lo, block);
  }

  lemma PreambleLength(info: TableInfo, r: Renderer)
    ensures |PreambleLines(info, r)| == 6
  {
  }

  /** The block of record j + 1 stands among the printed blocks right after those of records 1 to j. */
  lemma BlockInShown(data: seq<Row>, j: nat, r: Renderer)
    requires j < |data| && j < MaxShown
    ensures var at := |RecordBlocks(data[..j], r)|;
            var block := RecordBlock(data[j], j + 1, r);
            && at + |block| <= |RecordBlocks(Shown(data), r)|
            && RecordBlocks(Shown(data), r)[at..at + |block|] == block
  {
    var shown := Shown(data);
    assert shown[..j] == data[..j] && shown[j] == data[j];
    BlockInBlocks(shown, j, r);
  }

  /** Block i + 1 stands in the blocks right after the blocks of the first i rows. */
  lemma BlockInBlocks(rows: seq<Row>, i: nat, r: Renderer)
    requires i < |rows|
    ensures var at := |RecordBlocks(rows[..i], r)|;
            var block := RecordBlock(rows[i], i + 1, r);
            && at + |block| <= |RecordBlocks(rows, r)|
            && RecordBlocks(rows, r)[at..at + |block|] == block
  {
    RecordBlocksPrefix(rows, i + 1, r);
    RecordBlocksSnoc(rows, i, r);
    var before := RecordBlocks(rows[..i], r);
    var block := RecordBlock(rows[i], i + 1, r);
    var blocks := RecordBlocks(rows, r);
    var upto := blocks[..|before| + |block|];
    assert upto == before + block;
    assert blocks[|before|..|before| + |block|] == upto[|before|..];
  }

  lemma TableLinesParts(info: TableInfo, data: seq<Row>, r: Renderer)
    requires info.rowCount != 0
    ensures TableLines(info, data, r) == PreambleLines(info, r) + RecordBlocks(Shown(data), r) + TrailerLines(data)
  {
  }

  /** A slice of the middle part of `a + b + c`, found in the whole. */
  lemma SliceAt(lines: seq<string>, a: seq<string>, b: seq<string>, c: seq<string>, lo: nat, part: seq<string>)
    requires lines == a + b + c
    requires lo + |part| <= |b| && b[lo..lo + |part|] == part
    ensures |a| + lo + |part| <= |lines|
    ensures lines[|a| + lo..|a| + lo + |part|] == part
  {
    assert lines[|a|..|a| + |b|] == b;
  }

  /** The keys among `keys` that `m` has, in the order of `keys`. */
  function PresentAmong(keys: seq<string>, m: map<string, JsonValue>): (present: seq<string>)
    ensures forall k :: k in present <==> k in keys && k in m
  {
    if keys == [] then []
    else (if keys[0] in m then [keys[0]] else []) + PresentAmong(keys[1..], m)
  }

  /** A "    key: value" line for each of `keys` that `m` has. */
  function SubFieldLines(keys: seq<string>, m: map<string, JsonValue>, r: Renderer): seq<string>
  {
    if keys == [] then []
    else (if keys[0] in m then [SubFieldLine(keys[0], m[keys[0]], r)] else []) + SubFieldLines(keys[1..], m, r)
  }

  lemma SubFieldLinesCons(k: string, rest: seq<string>, m: map<string, JsonValue>, r: Renderer)
    ensures SubFieldLines([k] + rest, m, r)
         == (if k in m then [SubFieldLine(k, m[k], r)] else []) + SubFieldLines(rest, m, r)
  {
    assert ([k] + rest)[1..] == rest;
  }

  /** The i-th sub-field line belongs to the i-th key of `keys` that `m` has. */
  lemma {:induction false} SubFieldLinesPresent(keys: seq<string>, m: map<string, JsonValue>, r: Renderer)
    ensures var present := PresentAmong(keys, m);
            var lines := SubFieldLines(keys, m, r);
            && |lines| == |present|
            && forall i :: 0 <= i < |present| ==> present[i] in m && lines[i] == SubFieldLine(present[i], m[present[i]], r)
  {
    if keys != [] {
      SubFieldLinesPresent(keys[1..], m, r);
    }
  }

  /**
   * A `json_data` field holding a decoded object prints the object's key
   * count, followed by one line for each of `name`, `id` and `location` that
   * the object has, in that order, and by nothing else.
   */
  lemma JsonObjectLines(m: map<string, JsonValue>, r: Renderer)
    ensures var lines := FieldLines(JsonColumn, Decoded(JObject(m)), r);
            var present := PresentAmong(SubFields, m);
            && lines[0] == ObjectSummaryLine(JsonColumn, m)
            && |lines| == 1 + |present|
            && forall i :: 0 <= i < |present| ==> present[i] in m && lines[1 + i] == SubFieldLine(present[i], m[present[i]], r)
  {
    SubFieldLinesCons("location", [], m, r);
    SubFieldLinesCons("id", ["location"], m, r);
    SubFieldLinesCons("name", ["id", "location"], m, r);
    assert SubFields == ["name"] + (["id"] + (["location"] + []));
    assert FieldLines(JsonColumn, Decoded(JObject(m)), r) == [ObjectSummaryLine(JsonColumn, m)] + SubFieldLines(SubFields, m, r);
    SubFieldLinesPresent(SubFields, m, r);
  }

  /**
   * A record without a decoded `json_data` object prints exactly one
   * "  key: value" line per key, in the record's key order.
   */
  lemma {:induction false} PlainFieldLines(row: Row, r: Renderer)
    requires forall i :: 0 <= i < |row| ==> !IsJsonObjectField(row[i].0, row[i].1)
    ensures |FieldsLines(row, r)| == |row|
    ensures forall i :: 0 <= i < |row| ==> FieldsLines(row, r)[i] == "  " + row[i].0 + ": " + r.field(row[i].1)
    decreases |row|
  {
    if row != [] {
      var init := row[..|row| - 1];
      assert forall i :: 0 <= i < |init| ==> init[i] == row[i];
      PlainFieldLines(init, r);
    }
  }
}
