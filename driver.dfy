/**
 * The table-mode run of `dump_all_objects`: choosing the tables, collecting
 * each table's description and rows, rendering the text dump and computing
 * the summary counts. The database is given as what its queries return.
 */
module Driver {
  import opened Wrappers
  import opened Dicts
  import opened Text
  import opened Values
  import opened RowExtractor
  import opened Formatter

  /**
   * What the queries on one table return: the `PRAGMA table_info` columns,
   * `COUNT(*)`, and the column names and tuples of `SELECT *`.
   */
  datatype Snapshot = Snapshot(
    columns: seq<ColumnInfo>,
    rowCount: nat,
    resultColumns: seq<string>,
    fetched: seq<seq<Cell>>)

  /**
   * The database: the table names listed in `sqlite_master`, in their order,
   * and for each name the results of its queries, or `None` when they fail.
   */
  datatype Database = Database(catalog: seq<string>, query: string -> Option<Snapshot>)

  /** What the table filter decides. */
  datatype Selection =
    | NoTables
    | NotFound(requested: string, available: seq<string>)
    | Selected(tables: seq<string>)

  /** One entry of `all_data`: the table's description and its rows. */
  datatype TableDump = TableDump(info: TableInfo, data: seq<Row>)

  /** The figures printed under "Summary". */
  datatype Summary = Summary(tableCount: nat, totalRecords: nat, perTable: seq<(string, nat)>)

  /** How a run ends. */
  datatype Run =
    | NoTablesFound
    | TableNotFound(requested: string, available: seq<string>)
    | Failed(error: DumpError)
    | Completed(content: string, summary: Summary)

  const Title := "Azure Objects Database Dump"

  /** `--table` counts only when it is given and not empty, as Python's truthiness has it. */
  predicate Requests(requested: Option<string>)
  {
    requested.Some? && requested.value != ""
  }

  /**
   * The table filter. An empty catalog aborts; a requested name that is not
   * listed aborts and reports every listed table; a listed one is selected
   * alone; with no request the whole catalog is selected in its order.
   */
  function SelectTables(catalog: seq<string>, requested: Option<string>): (s: Selection)
    ensures s.NoTables? <==> catalog == []
    ensures s.NotFound? <==> catalog != [] && Requests(requested) && requested.value !in catalog
    ensures s.NotFound? ==> s.requested == requested.value && s.available == catalog
    ensures s.Selected? ==> s.tables != [] && forall t :: t in s.tables ==> t in catalog
    ensures s.Selected? && Requests(requested) ==> s.tables == [requested.value]
    ensures s.Selected? && !Requests(requested) ==> s.tables == catalog
  {
    if catalog == [] then NoTables
    else if Requests(requested) then
      if requested.value in catalog then Selected([requested.value])
      else NotFound(requested.value, catalog)
    else Selected(catalog)
  }

  /** `get_table_info`. */
  function TableInfoOf(name: string, snap: Snapshot): TableInfo
  {
    TableInfo(name, snap.columns, snap.rowCount)
  }

  /** The `all_data` entry of one table, or the error that ends the run. */
  function CollectTable(name: string, db: Database, dec: Decoder): Result<TableDump, DumpError>
  {
    match db.query(name)
    case None => Err(QueryFailed(name))
    case Some(snap) =>
      match BuildRows(snap.resultColumns, snap.fetched, dec)
      case Err(e) => Err(e)
      case Ok(rows) => Ok(TableDump(TableInfoOf(name, snap), rows))
  }

  /** `all_data` after the collect loop over `tables`, or the first error met. */
  function Collect(tables: seq<string>, db: Database, dec: Decoder): (collected: Result<Dict<TableDump>, DumpError>)
    decreases |tables|
  {
    if tables == [] then Ok([])
    else
      var name := tables[|tables| - 1];
      match Collect(tables[..|tables| - 1], db, dec)
      case Err(e) => Err(e)
      case Ok(all) =>
        match CollectTable(name, db, dec)
        case Err(e) => Err(e)
        case Ok(dump) => Ok(Put(all, name, dump))
  }

  /** `all_data[name]`; never `None` for a collected table. */
  function Entry(all: Dict<TableDump>, name: string): Option<TableDump>
  {
    Get(all, name)
  }

  /** The count shown for one table in the summary. */
  function CountOf(all: Dict<TableDump>, name: string): nat
  {
    match Entry(all, name)
    case Some(d) => d.info.rowCount
    case None => 0
  }

  /** `sum(all_data[t]['info']['row_count'] for t in all_data)`. */
  function TotalRecords(all: Dict<TableDump>): (total: nat)
    ensures forall i :: 0 <= i < |all| ==> all[i].1.info.rowCount <= total
    ensures all == [] ==> total == 0
    decreases |all|
  {
    if all == [] then 0 else TotalRecords(all[..|all| - 1]) + all[|all| - 1].1.info.rowCount
  }

  /** The sum of the counts of a summary listing. */
  function SumCounts(counts: seq<(string, nat)>): nat
    decreases |counts|
  {
    if counts == [] then 0 else SumCounts(counts[..|counts| - 1]) + counts[|counts| - 1].1
  }

  /** The "- name: count records" figures, one per selected table, in order. */
  function PerTable(tables: seq<string>, all: Dict<TableDump>): seq<(string, nat)>
  {
    seq(|tables|, i requires 0 <= i < |tables| => (tables[i], CountOf(all, tables[i])))
  }

  /** The four lines that open the text dump. */
  function ContentHeader(generated: string, dbPath: string, tableCount: nat): seq<string>
  {
    [Title, "Generated: " + generated, "Database: " + dbPath, "Tables found: " + Decimal(tableCount)]
  }

  /** The formatted text of one collected table. */
  function TableText(all: Dict<TableDump>, name: string, r: Renderer): string
  {
    match Entry(all, name)
    case Some(d) => Join("\n", TableLines(d.info, d.data, r))
    case None => ""
  }

  /** The formatted texts of the selected tables, in selection order. */
  function TableTexts(tables: seq<string>, all: Dict<TableDump>, r: Renderer): seq<string>
    decreases |tables|
  {
    if tables == [] then []
    else TableTexts(tables[..|tables| - 1], all, r) + [TableText(all, tables[|tables| - 1], r)]
  }

  /** `output_parts`, before they are joined. */
  function ContentParts(tables: seq<string>, all: Dict<TableDump>, r: Renderer, generated: string, dbPath: string): seq<string>
  {
    ContentHeader(generated, dbPath, |tables|) + TableTexts(tables, all, r)
  }

  /**
   * A table-mode run. `generated` stands for the output of `date` and
   * `dbPath` for the database's path.
   */
  function DumpSpec(db: Database, requested: Option<string>, dec: Decoder, r: Renderer,
                    generated: string, dbPath: string): (run: Run)
  {
    match SelectTables(db.catalog, requested)
    case NoTables => NoTablesFound
    case NotFound(q, available) => TableNotFound(q, available)
    case Selected(tables) =>
      match Collect(tables, db, dec)
      case Err(e) => Failed(e)
      case Ok(all) =>
        Completed(Join("\n", ContentParts(tables, all, r, generated, dbPath)),
                  Summary(|tables|, TotalRecords(all), PerTable(tables, all)))
  }

  lemma CollectSnoc(tables: seq<string>, i: nat, db: Database, dec: Decoder)
    requires i < |tables|
    ensures Collect(tables[..i + 1], db, dec) ==
            match Collect(tables[..i], db, dec)
            case Err(e) => Err(e)
            case Ok(all) =>
              match CollectTable(tables[i], db, dec)
              case Err(e) => Err(e)
              case Ok(dump) => Ok(Put(all, tables[i], dump))
  {
    assert tables[..i + 1][..i] == tables[..i];
  }

  /** The collect loop: fills `all_data` table by table; the first failure ends it. */
  method CollectAll(tables: seq<string>, db: Database, dec: Decoder) returns (result: Result<Dict<TableDump>, DumpError>)
    ensures result == Collect(tables, db, dec)
  {
    var allData: Dict<TableDump> := [];
    var i := 0;
    while i < |tables|
      invariant 0 <= i <= |tables|
      invariant Collect(tables[..i], db, dec) == Ok(allData)
    {
      var name := tables[i];
      CollectSnoc(tables, i, db, dec);
      var snap := db.query(name);
      if snap.None? {
        CollectFailurePersists(tables, i + 1, db, dec);
        return Err(QueryFailed(name));
      }
      var info := TableInfoOf(name, snap.value);
      var data := DumpTableData(snap.value.resultColumns, snap.value.fetched, dec);
      if data.Err? {
        CollectFailurePersists(tables, i + 1, db, dec);
        return Err(data.error);
      }
      allData := Put(allData, name, TableDump(info, data.value));
      i := i + 1;
    }
    assert tables[..i] == tables;
    return Ok(allData);
  }

  /** Once a prefix of the tables fails, the whole collect loop fails with that error. */
  lemma {:induction false} CollectFailurePersists(tables: seq<string>, m: nat, db: Database, dec: Decoder)
    requires m <= |tables| && Collect(tables[..m], db, dec).Err?
    ensures Collect(tables, db, dec) == Collect(tables[..m], db, dec)
    decreases |tables| - m
  {
    if m < |tables| {
      CollectSnoc(tables, m, db, dec);
      CollectFailurePersists(tables, m + 1, db, dec);
    } else {
      assert tables[..m] == tables;
    }
  }

  lemma TableTextsSnoc(tables: seq<string>, j: nat, all: Dict<TableDump>, r: Renderer)
    requires j < |tables|
    ensures TableTexts(tables[..j + 1], all, r) == TableTexts(tables[..j], all, r) + [TableText(all, tables[j], r)]
  {
    assert tables[..j + 1][..j] == tables[..j];
  }

  /** The output loop: one formatted text per selected table, after the four opening lines. */
  method RenderContent(tables: seq<string>, all: Dict<TableDump>, r: Renderer, generated: string, dbPath: string)
    returns (content: string)
    requires forall t :: t in tables ==> HasKey(all, t)
    ensures content == Join("\n", ContentParts(tables, all, r, generated, dbPath))
  {
    var parts: seq<string> := [];
    parts := parts + [Title];
    parts := parts + ["Generated: " + generated];
    parts := parts + ["Database: " + dbPath];
    parts := parts + ["Tables found: " + Decimal(|tables|)];
    ghost var head := parts;
    assert head == ContentHeader(generated, dbPath, |tables|);
    var j := 0;
    while j < |tables|
      invariant 0 <= j <= |tables|
      invariant parts == head + TableTexts(tables[..j], all, r)
    {
      var name := tables[j];
      var entry := Entry(all, name);
      match entry {
        case None =>
          assert false;
        case Some(d) =>
          var text := FormatTableOutput(d.info, d.data, r);
          TableTextsSnoc(tables, j, all, r);
          parts := parts + [text];
      }
      j := j + 1;
    }
    assert tables[..j] == tables;
    content := Join("\n", parts);
  }

  /** The summary loop over the selected tables. */
  method ReportCounts(tables: seq<string>, all: Dict<TableDump>) returns (counts: seq<(string, nat)>)
    ensures counts == PerTable(tables, all)
  {
    counts := [];
    var j := 0;
    while j < |tables|
      invariant 0 <= j <= |tables|
      invariant counts == PerTable(tables[..j], all)
    {
      counts := counts + [(tables[j], CountOf(all, tables[j]))];
      j := j + 1;
    }
    assert tables[..j] == tables;
  }

  /** `dump_all_objects` in table mode, from the table list to the summary. */
  method DumpAllObjects(db: Database, requested: Option<string>, dec: Decoder, r: Renderer,
                        generated: string, dbPath: string) returns (run: Run)
    ensures run == DumpSpec(db, requested, dec, r, generated, dbPath)
  {
    var tables := db.catalog;
    if tables == [] {
      return NoTablesFound;
    }
    if requested.Some? && requested.value != "" {
      if requested.value !in tables {
        return TableNotFound(requested.value, tables);
      }
      tables := [requested.value];
    }
    var collected := CollectAll(tables, db, dec);
    if collected.Err? {
      return Failed(collected.error);
    }
    var all := collected.value;
    CollectKeys(tables, db, dec);
    var content := RenderContent(tables, all, r, generated, dbPath);
    var total := TotalRecords(all);
    var counts := ReportCounts(tables, all);
    run := Completed(content, Summary(|tables|, total, counts));
  }

  // Properties of a run

  /** A collected `all_data` has an entry for every selected table and no key twice. */
  lemma {:induction false} CollectKeys(tables: seq<string>, db: Database, dec: Decoder)
    requires Collect(tables, db, dec).Ok?
    ensures UniqueKeys(Collect(tables, db, dec).value)
    ensures forall t :: t in tables ==> HasKey(Collect(tables, db, dec).value, t)
    decreases |tables|
  {
    if tables != [] {
      var init := tables[..|tables| - 1];
      var name := tables[|tables| - 1];
      CollectKeys(init, db, dec);
      var all := Collect(init, db, dec).value;
      var dump := CollectTable(name, db, dec).value;
      PutKeys(all, name, dump);
      forall t | t in tables
        ensures HasKey(Put(all, name, dump), t)
      {
        if t == name {
          PutGet(all, name, dump, t);
        } else {
          assert t in init;
          PutGet(all, name, dump, t);
        }
      }
    }
  }

  /**
   * The collect loop fails exactly when one of the selected tables fails,
   * and then with the error of the first table that fails.
   */
  lemma {:induction false} CollectFails(tables: seq<string>, db: Database, dec: Decoder)
    ensures Collect(tables, db, dec).Err? <==> exists i :: 0 <= i < |tables| && CollectTable(tables[i], db, dec).Err?
    ensures Collect(tables, db, dec).Err? ==>
              exists i :: 0 <= i < |tables| && CollectTable(tables[i], db, dec).Err?
                && CollectTable(tables[i], db, dec).error == Collect(tables, db, dec).error
                && forall k :: 0 <= k < i ==> CollectTable(tables[k], db, dec).Ok?
    decreases |tables|
  {
    if tables != [] {
      var n := |tables|;
      var init := tables[..n - 1];
      CollectFails(init, db, dec);
      assert forall k :: 0 <= k < n - 1 ==> init[k] == tables[k];
    }
  }

  /** Every collected entry holds the table's description and its rows, as the queries gave them. */
  lemma {:induction false} CollectEntries(tables: seq<string>, db: Database, dec: Decoder, t: string)
    requires Collect(tables, db, dec).Ok? && t in tables
    ensures CollectTable(t, db, dec).Ok?
    ensures Entry(Collect(tables, db, dec).value, t) == Some(CollectTable(t, db, dec).value)
    decreases |tables|
  {
    var n := |tables|;
    var init := tables[..n - 1];
    var name := tables[n - 1];
    var all := Collect(init, db, dec).value;
    if t == name {
      PutGet(all, name, CollectTable(name, db, dec).value, t);
    } else {
      assert t in init;
      CollectEntries(init, db, dec, t);
      PutGet(all, name, CollectTable(name, db, dec).value, t);
    }
  }

  /** With no name listed twice, `all_data` holds the selected tables in selection order. */
  lemma {:induction false} CollectOrder(tables: seq<string>, db: Database, dec: Decoder)
    requires Collect(tables, db, dec).Ok?
    requires forall i, j :: 0 <= i < j < |tables| ==> tables[i] != tables[j]
    ensures Keys(Collect(tables, db, dec).value) == tables
    decreases |tables|
  {
    if tables != [] {
      var n := |tables|;
      var init := tables[..n - 1];
      var name := tables[n - 1];
      CollectOrder(init, db, dec);
      var all := Collect(init, db, dec).value;
      forall k | 0 <= k < |all|
        ensures all[k].0 != name
      {
        assert Keys(all)[k] == all[k].0;
      }
      PutKeys(all, name, CollectTable(name, db, dec).value);
    }
  }

  /** The total of a dict whose keys are `tables` is the sum of the counts listed for them. */
  lemma {:induction false} TotalMatchesListing(tables: seq<string>, all: Dict<TableDump>)
    requires Keys(all) == tables && UniqueKeys(all)
    ensures TotalRecords(all) == SumCounts(PerTable(tables, all))
    decreases |all|
  {
    if all != [] {
      var n := |all|;
      var init := all[..n - 1];
      var listing := PerTable(tables, all);
      assert Keys(init) == tables[..n - 1];
      TotalMatchesListing(tables[..n - 1], init);
      forall i | 0 <= i < n - 1
        ensures listing[i] == PerTable(tables[..n - 1], init)[i]
      {
        assert Keys(all)[i] == all[i].0 && init[i] == all[i];
        UniqueGet(all, i);
        UniqueGet(init, i);
      }
      assert listing[..n - 1] == PerTable(tables[..n - 1], init);
      assert Keys(all)[n - 1] == all[n - 1].0;
      UniqueGet(all, n - 1);
    }
  }

  /** Each selected table's summary count is the `COUNT(*)` its query gave. */
  lemma PerTableCounts(tables: seq<string>, db: Database, dec: Decoder)
    requires Collect(tables, db, dec).Ok?
    ensures var listing := PerTable(tables, Collect(tables, db, dec).value);
            forall i :: 0 <= i < |tables| ==>
              && listing[i].0 == tables[i]
              && db.query(tables[i]).Some?
              && listing[i].1 == db.query(tables[i]).value.rowCount
  {
    forall i | 0 <= i < |tables|
      ensures db.query(tables[i]).Some?
      ensures CountOf(Collect(tables, db, dec).value, tables[i]) == db.query(tables[i]).value.rowCount
    {
      CollectEntries(tables, db, dec, tables[i]);
    }
  }

  /**
   * The summary of a completed run: one line per selected table, in selection
   * order, each with the `COUNT(*)` its query gave, and a total that is the sum
   * of those counts; the number of tables is the number selected.
   */
  lemma SummaryCounts(db: Database, requested: Option<string>, dec: Decoder, r: Renderer,
                      generated: string, dbPath: string)
    requires forall i, j :: 0 <= i < j < |db.catalog| ==> db.catalog[i] != db.catalog[j]
    ensures var run := DumpSpec(db, requested, dec, r, generated, dbPath);
            run.Completed? ==>
              var tables := SelectTables(db.catalog, requested).tables;
              && run.summary.tableCount == |tables|
              && |run.summary.perTable| == |tables|
              && (forall i :: 0 <= i < |tables| ==>
                    && run.summary.perTable[i].0 == tables[i]
                    && db.query(tables[i]).Some?
                    && run.summary.perTable[i].1 == db.query(tables[i]).value.rowCount)
              && run.summary.totalRecords == SumCounts(run.summary.perTable)
  {
    var run := DumpSpec(db, requested, dec, r, generated, dbPath);
    if run.Completed? {
      var tables := SelectTables(db.catalog, requested).tables;
      var all := Collect(tables, db, dec).value;
      assert forall i, j :: 0 <= i < j < |tables| ==> tables[i] != tables[j];
      CollectOrder(tables, db, dec);
      CollectKeys(tables, db, dec);
      TotalMatchesListing(tables, all);
      PerTableCounts(tables, db, dec);
    }
  }

  /**
   * The parts of the text dump: the title, the date, the path, the number of
   * selected tables, then each selected table formatted from its own
   * description and rows, in selection order.
   */
  lemma PartsPerTable(tables: seq<string>, db: Database, dec: Decoder, r: Renderer, generated: string, dbPath: string)
    requires Collect(tables, db, dec).Ok?
    ensures var parts := ContentParts(tables, Collect(tables, db, dec).value, r, generated, dbPath);
            && |parts| == 4 + |tables|
            && parts[..4] == ContentHeader(generated, dbPath, |tables|)
            && parts[3] == "Tables found: " + Decimal(|tables|)
            && forall i :: 0 <= i < |tables| ==>
                 && CollectTable(tables[i], db, dec).Ok?
                 && var d := CollectTable(tables[i], db, dec).value;
                 && db.query(tables[i]).Some?
                 && d.info == TableInfoOf(tables[i], db.query(tables[i]).value)
                 && parts[4 + i] == Join("\n", TableLines(d.info, d.data, r))
  {
    var all := Collect(tables, db, dec).value;
    var parts := ContentParts(tables, all, r, generated, dbPath);
    TableTextsIndexed(tables, all, r);
    forall i | 0 <= i < |tables|
      ensures CollectTable(tables[i], db, dec).Ok?
      ensures parts[4 + i] == TableText(all, tables[i], r)
      ensures Entry(all, tables[i]) == Some(CollectTable(tables[i], db, dec).value)
    {
      CollectEntries(tables, db, dec, tables[i]);
    }
  }

  lemma {:induction false} TableTextsIndexed(tables: seq<string>, all: Dict<TableDump>, r: Renderer)
    ensures |TableTexts(tables, all, r)| == |tables|
    ensures forall i :: 0 <= i < |tables| ==> TableTexts(tables, all, r)[i] == TableText(all, tables[i], r)
    decreases |tables|
  {
    if tables != [] {
      var n := |tables|;
      var init := tables[..n - 1];
      TableTextsIndexed(init, all, r);
      var texts := TableTexts(tables, all, r);
      assert texts == TableTexts(init, all, r) + [TableText(all, tables[n - 1], r)];
      forall i | 0 <= i < n
        ensures texts[i] == TableText(all, tables[i], r)
      {
        if i < n - 1 {
          assert texts[i] == TableTexts(init, all, r)[i];
          assert init[i] == tables[i];
        }
      }
    }
  }

  /** A run fails exactly when some selected table's queries or rows fail. */
  lemma RunFails(db: Database, requested: Option<string>, dec: Decoder, r: Renderer,
                 generated: string, dbPath: string)
    ensures var run := DumpSpec(db, requested, dec, r, generated, dbPath);
            var s := SelectTables(db.catalog, requested);
            run.Failed? <==> s.Selected? && exists i :: 0 <= i < |s.tables| && CollectTable(s.tables[i], db, dec).Err?
  {
    var s := SelectTables(db.catalog, requested);
    if s.Selected? {
      CollectFails(s.tables, db, dec);
    }
  }
}
