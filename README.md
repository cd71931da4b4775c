# Azure objects dumper: a verified model of its core

`Azure_Object_Dump/dump_azure_objects.py` dumps the tables of the CloudGuard
Controller's SQLite database as readable text. This project models in Dafny
the part of it whose behaviour follows from its inputs:

- **Row construction** (`dump_table_data`), in `rows.dfy`. Every fetched tuple
  becomes an insertion-ordered dict from column name to value. A truthy value
  in the column named `json_data` is replaced by what `json.loads` makes of
  it. If the parse fails with `JSONDecodeError`, the raw value is kept.
- **The per-table formatter** (`format_table_output`), in `formatter.dfy`. It
  prints a header and the row count, then either "No data found." or the
  column list, at most five record blocks and a "... and N more records" line.
- **The run** (`dump_all_objects` in table mode), in `driver.dfy`. It chooses
  the tables, collects each table's description and rows into `all_data`,
  renders the dump and computes the summary counts.

Supporting modules:

- `dicts.dfy`: Python's insertion-ordered `dict` as a sequence of entries.
- `text.dfy`: `str(int)`, `str.join`, `str.startswith`, and selecting lines.
- `values.dfy`: SQLite cells, JSON values, Python truthiness, and the three
  outcomes of `json.loads`.
- `wrappers.dfy`: `Option` and `Result`.

The imperative code keeps its form. `DumpTableData`, `FormatTableOutput` and
`DumpAllObjects` are methods whose loops append to and assign into local
lists and dicts, just as the Python does. Each method is proved equal to a
specification function (`BuildRows`, `TableLines` joined, `DumpSpec`). The
lemmas state what those functions guarantee.

The formatter's properties are stated on the list of lines before
`'\n'.join`. A rendered value may itself contain newlines, so the joined text
cannot be split back into the same lines.

The SQLite queries are inputs. A `Database` gives the `sqlite_master` table
list and, per table, the `PRAGMA table_info` columns, `COUNT(*)`, and the
column names and tuples of `SELECT *`, or `None` when those queries fail.
`json.loads` is an input too: a `Decoder` maps text and bytes to
`Parsed(value)`, `DecodeFailed` (a `JSONDecodeError`) or `Raised` (any other
exception). Python's `str()` of a value and `str.upper()` are the parameters
of a `Renderer`.

## Model

| member | source | states |
|---|---|---|
| Dicts.PutGet | Azure_Object_Dump/dump_azure_objects.py:71-75 | after `d[k] = v`, `d.get(k)` is `v` and every other key's value is unchanged |
| Dicts.PutKeys | Azure_Object_Dump/dump_azure_objects.py:71-75 | `d[k] = v` keeps the key order when `k` is present and appends `k` when it is absent; no key comes to occur twice |
| Dicts.PutFresh | Azure_Object_Dump/dump_azure_objects.py:150 | assigning to a key not yet in the dict appends it to the keys |
| Dicts.UniqueGet | Azure_Object_Dump/dump_azure_objects.py:166-167 | in a dict with no repeated key, `d[k]` finds the entry stored under `k` |
| Text.DecimalRoundTrip | Azure_Object_Dump/dump_azure_objects.py:86 | the decimal rendering of a count reads back as that count |
| Values.Truthy | Azure_Object_Dump/dump_azure_objects.py:69 | the `and value` test: a cell is falsy exactly when it is `None`, `0`, `0.0`, `""` or `b""` |
| Values.Loads | Azure_Object_Dump/dump_azure_objects.py:71 | `json.loads` parses only `str` and `bytes`; on `None`, an integer or a real it raises (a `TypeError`), which is not the caught `JSONDecodeError` |
| RowExtractor.NumberInJsonColumnRaises | Azure_Object_Dump/dump_azure_objects.py:69-72 | a non-zero number in `json_data` makes `json.loads` raise an exception the `except` does not catch, so the row, and with it the run, fails |
| RowExtractor.ConvertCell | Azure_Object_Dump/dump_azure_objects.py:69-75 | storing one cell lets an exception escape exactly when the column is `json_data`, the value is truthy, and `json.loads` raises something other than `JSONDecodeError` |
| RowExtractor.DumpTableData | Azure_Object_Dump/dump_azure_objects.py:64-78 | the nested loops return exactly the rows `BuildRows` describes, or its error |
| RowExtractor.BuildRowsPerTuple | Azure_Object_Dump/dump_azure_objects.py:64-78 | rows are returned iff every tuple converts; then there is one row per fetched tuple, in fetch order, each the dict built from its own tuple |
| RowExtractor.BuildRowSucceeds | Azure_Object_Dump/dump_azure_objects.py:67-75 | a tuple no longer than the column list converts iff none of its cells raises |
| RowExtractor.BuildRowKeys | Azure_Object_Dump/dump_azure_objects.py:66-75 | with distinct column names, a row's keys are the column names in column order |
| RowExtractor.BuildRowEntries | Azure_Object_Dump/dump_azure_objects.py:67-75 | with distinct column names, each column's key holds its own cell's conversion |
| RowExtractor.RowFieldValues | Azure_Object_Dump/dump_azure_objects.py:69-75 | for a full tuple, the keys are exactly the columns. A non-`json_data` value is passed through unchanged. A falsy `json_data` value is kept. A truthy one that parses is replaced by the parsed value. A truthy one that fails to parse is kept raw |
| RowExtractor.ExtraValueRaises | Azure_Object_Dump/dump_azure_objects.py:67-75 | a tuple with more values than there are columns always fails; the error is the index error (`columns[i]` out of range) unless an earlier cell raised first |
| RowExtractor.DecoderOnlyOnTruthyJson | Azure_Object_Dump/dump_azure_objects.py:69-71 | the parser is consulted only on truthy `json_data` values: two parsers that agree there build the same row |
| RowExtractor.RowsErrorPropagates | Azure_Object_Dump/dump_azure_objects.py:65-76 | once a tuple fails, the whole table fails with that error |
| Formatter.AppendField | Azure_Object_Dump/dump_azure_objects.py:98-109 | appending one key's output adds exactly that key's lines after what was there |
| Formatter.AppendRecord | Azure_Object_Dump/dump_azure_objects.py:97-110 | appending one record adds its heading, its key lines in key order, and a blank line |
| Formatter.FormatTableOutput | Azure_Object_Dump/dump_azure_objects.py:80-115 | the method returns the newline-join of the lines `TableLines` describes, early return included |
| Formatter.NoDataOutput | Azure_Object_Dump/dump_azure_objects.py:88-90 | with a row count of 0, the last line is "No data found.", and there is no column list, no record heading and no "more records" line, whatever the rows |
| Formatter.RecordHeadingsNumbered | Azure_Object_Dump/dump_azure_objects.py:96-97 | otherwise exactly min(5, number of rows) headings are printed, "--- Record 1 ---" up to "--- Record k ---", in that order |
| Formatter.RecordBlockPlacement | Azure_Object_Dump/dump_azure_objects.py:92-110 | record j+1's block (its heading, the lines of row j's fields, a blank line) follows the six opening lines and the blocks of rows 0 to j-1, in data order |
| Formatter.MoreRecordsLine | Azure_Object_Dump/dump_azure_objects.py:112-113 | the "... and N more records" line appears iff there are more than 5 rows, with N the number left out, and it is then the last line |
| Formatter.JsonObjectLines | Azure_Object_Dump/dump_azure_objects.py:99-107 | a decoded `json_data` object prints its key count, then one line for each of `name`, `id` and `location` it has, in that order, and nothing else |
| Formatter.PlainFieldLines | Azure_Object_Dump/dump_azure_objects.py:98-109 | a record with no decoded `json_data` object prints one "  key: value" line per key, in key order |
| Formatter.FieldsLinesIndented | Azure_Object_Dump/dump_azure_objects.py:100-109 | every line printed for a field is indented, so it is never taken for a heading, column list or "more" line |
| Formatter.BlockSelect | Azure_Object_Dump/dump_azure_objects.py:97-110 | a record block holds exactly one heading, its own, and no "more" line or column list |
| Formatter.RecordBlocksPrefix | Azure_Object_Dump/dump_azure_objects.py:96-110 | the blocks of the first m records are a prefix of the blocks of all records |
| Formatter.SubFieldLinesPresent | Azure_Object_Dump/dump_azure_objects.py:102-107 | the i-th sub-field line belongs to the i-th of the listed keys the object has |
| Driver.SelectTables | Azure_Object_Dump/dump_azure_objects.py:130-141 | an empty table list aborts. A non-empty request that is not listed aborts and reports every listed table. A listed request selects exactly that table. No request, or an empty one, keeps the whole list in its order |
| Driver.CollectAll | Azure_Object_Dump/dump_azure_objects.py:144-153 | the collect loop returns the `all_data` dict `Collect` describes, or the first table's error |
| Driver.RenderContent | Azure_Object_Dump/dump_azure_objects.py:159-170 | the output loop returns the four opening lines and each selected table's formatted text, joined with newlines |
| Driver.ReportCounts | Azure_Object_Dump/dump_azure_objects.py:186-188 | the summary loop lists each selected table once, in order, with its count from `all_data` |
| Driver.DumpAllObjects | Azure_Object_Dump/dump_azure_objects.py:130-188 | the table-mode run ends as `DumpSpec` says: no tables, table not found, failed with an error, or completed with content and summary |
| Driver.CollectKeys | Azure_Object_Dump/dump_azure_objects.py:144-153 | a collected `all_data` has an entry for every selected table and no key twice |
| Driver.CollectEntries | Azure_Object_Dump/dump_azure_objects.py:146-153 | each table's entry holds `get_table_info`'s description and the table's rows, as its queries returned them |
| Driver.CollectOrder | Azure_Object_Dump/dump_azure_objects.py:144-153 | with no name listed twice, `all_data`'s keys are the selected tables in selection order |
| Driver.CollectFails | Azure_Object_Dump/dump_azure_objects.py:146-153 | collection fails iff some selected table fails, and then with the error of the first table that fails |
| Driver.CollectFailurePersists | Azure_Object_Dump/dump_azure_objects.py:146-153 | once a table fails, the collect loop ends with that table's error |
| Driver.TotalRecords | Azure_Object_Dump/dump_azure_objects.py:181 | the sum over `all_data` is 0 for no tables and at least every single table's `row_count` |
| Driver.TotalMatchesListing | Azure_Object_Dump/dump_azure_objects.py:181-188 | the total summed over `all_data` equals the sum of the counts listed per table |
| Driver.PerTableCounts | Azure_Object_Dump/dump_azure_objects.py:186-188 | each selected table's listed count is the `COUNT(*)` its query gave |
| Driver.SummaryCounts | Azure_Object_Dump/dump_azure_objects.py:181-188 | in a completed run the table count is the number selected. Each selected table is listed once, in order, with its `COUNT(*)`. The total is the sum of those counts |
| Driver.PartsPerTable | Azure_Object_Dump/dump_azure_objects.py:159-170 | the dump is the title, date, path and "Tables found: n" lines, then each selected table formatted from its own description and rows, in selection order |
| Driver.TableTextsIndexed | Azure_Object_Dump/dump_azure_objects.py:165-168 | the i-th table text belongs to the i-th selected table |
| Driver.RunFails | Azure_Object_Dump/dump_azure_objects.py:146-153 | a run fails exactly when tables were selected and one of them fails |

## Left out

- The SQLite queries (`get_all_tables`, `get_table_info`'s `PRAGMA` and `COUNT(*)`, `SELECT *`) are foreign calls. Their results are inputs (`Database`, `Snapshot`), and a failing query is `None`, which ends the run with `QueryFailed`.
- `json.loads` is an input (`Decoder`), not a JSON parser. Its three outcomes are kept apart because the source catches only `JSONDecodeError`. A `TypeError` (an integer or real cell) or a `UnicodeDecodeError` (undecodable bytes) escapes to the top-level handler.
- Python's `str()` of a value, `str()` of a decoded JSON value, and `str.upper()` are abstract parameters (`Renderer`). Only where their results go in the output is modelled.
- SQLite REAL values are Dafny `real`s. Floating-point rounding is not modelled.
- JSON objects are Dafny maps, so a decoded object's key order is not kept. Python's `str()` shows a dict's keys in insertion order, so the text printed for a nested object is not captured. Examples are a decoded `json_data` list such as `[{"b": 1, "a": 2}]`, printed whole, and a `name`, `id` or `location` value that is itself an object. Two such values that differ only in key order decode to the same model value. The key count and the choice and order of the `name`, `id` and `location` lines do not depend on it.
- The JSON output mode (`json.dumps`) is not part of this model.
- Printing, the `date` timestamp, the database path lookup, `os.path.exists`, argparse, and writing to a file are left out. The timestamp and the path are parameters of the run. The summary is returned as figures, not printed.
- The top-level `except`/`finally` (printing the error and closing the connection) is left out. The model's `Failed(error)` stands for reaching that handler.
- Driver.SummaryCounts: requires the table list to hold no name twice, as SQLite's `sqlite_master` guarantees. Without that, the total would count a repeated table once while the listing shows it twice.
- RowExtractor.BuildRowKeys, RowExtractor.BuildRowEntries, RowExtractor.RowFieldValues: require distinct column names. With repeated names, a later value overwrites an earlier one in the dict.
- Formatter properties are stated on the list of lines before `'\n'.join`, not on the joined string.
