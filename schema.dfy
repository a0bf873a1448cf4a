/** `get_table_schema` (medical_agent.py, lines 33-53): the text description of one database's
    tables and columns, and a parse that reads such a description back. */
module Schema {
  import opened Wrappers
  import opened Text
  import opened Agent

  const SchemaErrorPrefix := "Error getting schema: "

  function ColumnLine(c: Column): string {
    "  " + c.name + " (" + c.declaredType + ")"
  }

  function ColumnLines(columns: seq<Column>): seq<string> {
    seq(|columns|, i requires 0 <= i < |columns| => ColumnLine(columns[i]))
  }

  function TableLines(t: Table): seq<string> {
    ["Table: " + t.name] + ColumnLines(t.columns)
  }

  function TablesLines(tables: seq<Table>): seq<string> {
    if tables == [] then [] else TablesLines(tables[..|tables| - 1]) + TableLines(tables[|tables| - 1])
  }

  function SchemaLines(dbName: string, tables: seq<Table>): seq<string> {
    ["Database: " + dbName] + TablesLines(tables)
  }

  /** The description: a header line, then for each table in order its `Table:` line followed by
      one indented `name (type)` line per column in order; every line ends with a newline. */
  function SchemaText(dbName: string, tables: seq<Table>): string {
    Unlines(SchemaLines(dbName, tables))
  }

  lemma SchemaTextHeader(dbName: string, tables: seq<Table>)
    ensures StartsWith(SchemaText(dbName, tables), "Database: " + dbName + "\n")
  {
    var header := ["Database: " + dbName];
    UnlinesAppend(header, TablesLines(tables));
    assert header[..0] == [];
    assert Unlines(header) == "Database: " + dbName + "\n";
  }

  /** Describing one more table appends exactly that table's lines. */
  lemma SchemaTextExtend(dbName: string, tables: seq<Table>, t: Table)
    ensures SchemaText(dbName, tables + [t]) == SchemaText(dbName, tables) + Unlines(TableLines(t))
  {
    assert (tables + [t])[..|tables|] == tables;
    assert SchemaLines(dbName, tables + [t]) == SchemaLines(dbName, tables) + TableLines(t);
    UnlinesAppend(SchemaLines(dbName, tables), TableLines(t));
  }

  /** The tables named, each with the columns `PRAGMA table_info` reports for it, read in
      order; the first failing read is the result. */
  function ReadTables(db: Sqlite, path: string, names: seq<string>): (r: Result<seq<Table>, string>)
    ensures r.Success? ==> |r.value| == |names|
    ensures r.Success? ==> forall i :: 0 <= i < |names| ==>
      r.value[i].name == names[i] && db.tableInfo(path, names[i]) == Success(r.value[i].columns)
    ensures r.Failure? ==>
      exists i :: 0 <= i < |names| && db.tableInfo(path, names[i]) == Failure(r.error) &&
                  (forall j :: 0 <= j < i ==> db.tableInfo(path, names[j]).Success?)
  {
    if names == [] then Success([])
    else
      var last := names[|names| - 1];
      match ReadTables(db, path, names[..|names| - 1])
      case Failure(e) => Failure(e)
      case Success(tables) =>
        match db.tableInfo(path, last)
        case Failure(e) => Failure(e)
        case Success(columns) => Success(tables + [Table(last, columns)])
  }

  /** Once reading a prefix of the tables fails, reading them all fails the same way. */
  lemma {:induction false} ReadTablesFailureStays(db: Sqlite, path: string, names: seq<string>, k: nat)
    requires k <= |names| && ReadTables(db, path, names[..k]).Failure?
    ensures ReadTables(db, path, names) == ReadTables(db, path, names[..k])
    decreases |names| - k
  {
    if k == |names| {
      assert names[..k] == names;
    } else {
      var front := names[..|names| - 1];
      assert front[..k] == names[..k];
      ReadTablesFailureStays(db, path, front, k);
    }
  }

  /** Reading one more table extends the tables read so far, or fails with that table's error. */
  lemma ReadTablesStep(db: Sqlite, path: string, names: seq<string>, i: nat, read: seq<Table>)
    requires i < |names| && ReadTables(db, path, names[..i]) == Success(read)
    ensures var columns := db.tableInfo(path, names[i]);
      && (columns.Success? ==> ReadTables(db, path, names[..i + 1]) == Success(read + [Table(names[i], columns.value)]))
      && (columns.Failure? ==> ReadTables(db, path, names[..i + 1]) == Failure(columns.error))
  {
    assert names[..i + 1][..i] == names[..i];
  }

  /** The text read from the database file at `path`: its description, or the first failure. */
  function DescribeFile(db: Sqlite, path: string, dbName: string): (text: string)
    ensures StartsWith(text, SchemaErrorPrefix) || StartsWith(text, "Database: " + dbName + "\n")
    ensures db.tableNames(path).Failure? ==> text == SchemaErrorPrefix + db.tableNames(path).error
    ensures db.tableNames(path).Success? ==>
      var read := ReadTables(db, path, db.tableNames(path).value);
      && (read.Success? ==> text == SchemaText(dbName, read.value))
      && (read.Failure? ==> text == SchemaErrorPrefix + read.error)
  {
    match db.tableNames(path)
    case Failure(e) => SchemaErrorPrefix + e
    case Success(names) =>
      match ReadTables(db, path, names)
      case Failure(e) => SchemaErrorPrefix + e
      case Success(tables) =>
        SchemaTextHeader(dbName, tables);
        SchemaText(dbName, tables)
  }

  /** What `get_table_schema(db_name)` returns, and the database it opens. An unknown key fails
      before anything is opened; otherwise the description or the first failure, with its prefix. */
  function SchemaDescription(agent: MedicalAgent, db: Sqlite, dbName: string): (r: Traced<string>)
    ensures dbName !in agent.dbPaths ==> r == Traced(SchemaErrorPrefix + KeyErrorText(dbName), [])
    ensures dbName in agent.dbPaths ==> r.calls == [InspectSchema(agent.dbPaths[dbName])]
    ensures StartsWith(r.value, SchemaErrorPrefix) || StartsWith(r.value, "Database: " + dbName + "\n")
    ensures dbName in agent.dbPaths ==>
      var path := agent.dbPaths[dbName];
      && (db.tableNames(path).Failure? ==> r.value == SchemaErrorPrefix + db.tableNames(path).error)
      && (db.tableNames(path).Success? ==>
            var read := ReadTables(db, path, db.tableNames(path).value);
            && (read.Success? ==> r.value == SchemaText(dbName, read.value))
            && (read.Failure? ==> r.value == SchemaErrorPrefix + read.error))
  {
    if dbName !in agent.dbPaths then Traced(SchemaErrorPrefix + KeyErrorText(dbName), [])
    else Traced(DescribeFile(db, agent.dbPaths[dbName], dbName), [InspectSchema(agent.dbPaths[dbName])])
  }

  /** `get_table_schema`, growing the description line by line as the source does. */
  method GetTableSchema(agent: MedicalAgent, db: Sqlite, dbName: string) returns (schemaInfo: string, calls: seq<Call>)
    ensures Traced(schemaInfo, calls) == SchemaDescription(agent, db, dbName)
  {
    if dbName !in agent.dbPaths {
      return SchemaErrorPrefix + KeyErrorText(dbName), [];
    }
    var path := agent.dbPaths[dbName];
    calls := [InspectSchema(path)];
    var tables := db.tableNames(path);
    if tables.Failure? {
      return SchemaErrorPrefix + tables.error, calls;
    }
    var names := tables.value;
    schemaInfo := "Database: " + dbName + "\n";
    ghost var read: seq<Table> := [];
    assert names[..0] == [];
    UnlinesSnoc([], "Database: " + dbName);
    var i := 0;
    while i < |names|
      invariant 0 <= i <= |names|
      invariant ReadTables(db, path, names[..i]) == Success(read)
      invariant schemaInfo == SchemaText(dbName, read)
    {
      var tableName := names[i];
      var columns := db.tableInfo(path, tableName);
      ReadTablesStep(db, path, names, i, read);
      if columns.Failure? {
        ReadTablesFailureStays(db, path, names, i + 1);
        assert DescribeFile(db, path, dbName) == SchemaErrorPrefix + columns.error;
        return SchemaErrorPrefix + columns.error, calls;
      }
      SchemaTextExtend(dbName, read, Table(tableName, columns.value));
      schemaInfo := AppendTable(schemaInfo, tableName, columns.value);
      read := read + [Table(tableName, columns.value)];
      i := i + 1;
    }
    assert names[..|names|] == names;
    assert DescribeFile(db, path, dbName) == schemaInfo;
  }

  /** One pass of the outer loop of `get_table_schema`: the `Table:` line, then the inner loop
      over the columns. */
  method AppendTable(schemaInfo: string, tableName: string, columns: seq<Column>) returns (text: string)
    ensures text == schemaInfo + Unlines(TableLines(Table(tableName, columns)))
  {
    ghost var lines := ["Table: " + tableName];
    UnlinesAppendLine(schemaInfo, [], "Table: " + tableName);
    text := schemaInfo + ("Table: " + tableName + "\n");
    var j := 0;
    while j < |columns|
      invariant 0 <= j <= |columns|
      invariant lines == ["Table: " + tableName] + ColumnLines(columns[..j])
      invariant text == schemaInfo + Unlines(lines)
    {
      var line := "  " + columns[j].name + " (" + columns[j].declaredType + ")";
      UnlinesAppendLine(schemaInfo, lines, line);
      assert ColumnLines(columns[..j + 1]) == ColumnLines(columns[..j]) + [line];
      text := text + (line + "\n");
      lines := lines + [line];
      j := j + 1;
    }
    assert columns[..|columns|] == columns;
  }

  /** The lines describing one table with two columns. */
  lemma SchemaLinesOfOneTable(dbName: string, t: string, c1: string, c2: string)
    ensures SchemaLines(dbName, [Table(t, [Column(c1, "int"), Column(c2, "text")])])
      == ["Database: " + dbName, "Table: " + t, "  " + c1 + " (int)", "  " + c2 + " (text)"]
  {
    var table := Table(t, [Column(c1, "int"), Column(c2, "text")]);
    assert [table][..0] == [];
    assert |ColumnLines(table.columns)| == 2;
    assert ColumnLines(table.columns)[0] == "  " + c1 + " (int)";
    assert ColumnLines(table.columns)[1] == "  " + c2 + " (text)";
    assert TablesLines([table]) == TablesLines([]) + TableLines(table);
  }

  /** For a table T with columns c1 of type int and c2 of type text, the description lists
      T and both columns with their types, in order. */
  lemma SchemaOfOneTable(dbName: string, t: string, c1: string, c2: string)
    ensures SchemaText(dbName, [Table(t, [Column(c1, "int"), Column(c2, "text")])])
      == "Database: " + dbName + "\n" + "Table: " + t + "\n" + "  " + c1 + " (int)\n" + "  " + c2 + " (text)\n"
  {
    SchemaLinesOfOneTable(dbName, t, c1, c2);
    UnlinesFour("Database: " + dbName, "Table: " + t, "  " + c1 + " (int)", "  " + c2 + " (text)");
  }

  // ---------------------------------------------------------------------------
  // Reading a description back
  // ---------------------------------------------------------------------------

  /** Reads `  name (type)`: the name ends at the first " (", the type runs to the final ")". */
  function ParseColumn(line: string): Option<Column> {
    if !StartsWith(line, "  ") then None
    else
      var body := line[2..];
      match FindFrom(body, " (", 0)
      case None => None
      case Some(i) =>
        var rest := body[i + 2..];
        if EndsWith(rest, ")") then Some(Column(body[..i], rest[..|rest| - 1])) else None
  }

  function ParseColumns(lines: seq<string>): Option<seq<Column>> {
    if lines == [] then Some([])
    else
      match ParseColumn(lines[0])
      case None => None
      case Some(c) =>
        match ParseColumns(lines[1..])
        case None => None
        case Some(cs) => Some([c] + cs)
  }

  /** The number of leading lines that are column lines. */
  function ColumnRun(lines: seq<string>): (n: nat)
    ensures n <= |lines|
  {
    if lines == [] || !StartsWith(lines[0], "  ") then 0 else 1 + ColumnRun(lines[1..])
  }

  function ParseTables(lines: seq<string>): Option<seq<Table>>
    decreases |lines|
  {
    if lines == [] then Some([])
    else if !StartsWith(lines[0], "Table: ") then None
    else
      var n := ColumnRun(lines[1..]);
      match ParseColumns(lines[1..1 + n])
      case None => None
      case Some(columns) =>
        match ParseTables(lines[1 + n..])
        case None => None
        case Some(tables) => Some([Table(lines[0][7..], columns)] + tables)
  }

  /** Reads a description back into the database name and its tables. */
  function ParseSchema(text: string): Option<(string, seq<Table>)> {
    var lines := Split(text, "\n");
    if lines[|lines| - 1] != "" || !StartsWith(lines[0], "Database: ") then None
    else
      match ParseTables(lines[1..|lines| - 1])
      case None => None
      case Some(tables) => Some((lines[0][10..], tables))
  }

  /** A column the description can be read back from: name and type on one line, and no " ("
      in the name, not even one formed with the " (" that follows it. */
  predicate ColumnDescribable(c: Column) {
    OneLine(c.name) && OneLine(c.declaredType) && Separable(c.name, " (")
  }

  predicate TableDescribable(t: Table) {
    OneLine(t.name) && forall c :: c in t.columns ==> ColumnDescribable(c)
  }

  predicate Describable(dbName: string, tables: seq<Table>) {
    OneLine(dbName) && forall t :: t in tables ==> TableDescribable(t)
  }

  lemma ParseColumnLine(c: Column)
    requires Separable(c.name, " (")
    ensures ParseColumn(ColumnLine(c)) == Some(c)
  {
    var line := ColumnLine(c);
    assert line[..2] == "  ";
    var body := line[2..];
    assert body == c.name + " (" + (c.declaredType + ")");
    FirstOccurrence(c.name, " (", c.declaredType + ")");
    assert body[..|c.name|] == c.name;
    var rest := body[|c.name| + 2..];
    assert rest == c.declaredType + ")";
    assert rest[..|rest| - 1] == c.declaredType;
  }

  lemma {:induction false} ParseColumnLines(columns: seq<Column>)
    requires forall c :: c in columns ==> Separable(c.name, " (")
    ensures ParseColumns(ColumnLines(columns)) == Some(columns)
    decreases |columns|
  {
    if columns != [] {
      var head, tail := columns[0], columns[1..];
      var lines := ColumnLines(columns);
      assert columns == [head] + tail;
      assert forall c :: c in tail ==> c in columns;
      assert lines[0] == ColumnLine(head) && lines[1..] == ColumnLines(tail);
      ParseColumnLine(head);
      ParseColumnLines(tail);
    }
  }

  lemma {:induction false} ColumnRunOfColumnLines(columns: seq<Column>, rest: seq<string>)
    requires rest == [] || !StartsWith(rest[0], "  ")
    ensures ColumnRun(ColumnLines(columns) + rest) == |columns|
    decreases |columns|
  {
    var lines := ColumnLines(columns) + rest;
    if columns == [] {
      assert lines == rest;
    } else {
      assert lines[0] == ColumnLine(columns[0]);
      assert lines[0][..2] == "  ";
      assert lines[1..] == ColumnLines(columns[1..]) + rest;
      ColumnRunOfColumnLines(columns[1..], rest);
    }
  }

  /** The lines of the tables, read from the front: the first table's lines come first. */
  lemma {:induction false} TablesLinesFront(tables: seq<Table>)
    requires tables != []
    ensures TablesLines(tables) == TableLines(tables[0]) + TablesLines(tables[1..])
    decreases |tables|
  {
    var n := |tables|;
    if n == 1 {
      assert tables[..0] == [] && tables[1..] == [];
    } else {
      var front, last := tables[..n - 1], tables[n - 1];
      assert TablesLines(tables) == TablesLines(front) + TableLines(last);
      TablesLinesFront(front);
      assert front[0] == tables[0];
      var tail := tables[1..];
      assert tail[..n - 2] == front[1..] && tail[n - 2] == last;
      assert TablesLines(tail) == TablesLines(front[1..]) + TableLines(last);
    }
  }

  /** A table's lines, followed by lines that are not column lines, read back as that table
      followed by whatever those lines read back as. */
  lemma ParseTablesStep(t: Table, rest: seq<string>)
    requires TableDescribable(t)
    requires rest == [] || !StartsWith(rest[0], "  ")
    ensures ParseTables(TableLines(t) + rest) ==
      match ParseTables(rest)
      case None => None
      case Some(tables) => Some([t] + tables)
  {
    var lines := TableLines(t) + rest;
    var n := |t.columns|;
    assert lines == ["Table: " + t.name] + (ColumnLines(t.columns) + rest);
    assert lines[0][..7] == "Table: " && lines[0][7..] == t.name;
    ColumnRunOfColumnLines(t.columns, rest);
    assert lines[1..] == ColumnLines(t.columns) + rest;
    assert lines[1..1 + n] == ColumnLines(t.columns);
    assert lines[1 + n..] == rest;
    ParseColumnLines(t.columns);
  }

  /** The lines of one or more tables start with the first table's line, not a column line. */
  lemma TablesLinesStart(tables: seq<Table>)
    requires tables != []
    ensures TablesLines(tables) != [] && !StartsWith(TablesLines(tables)[0], "  ")
  {
    TablesLinesFront(tables);
    assert TablesLines(tables)[0][0] == 'T';
  }

  lemma {:induction false} ParseTablesLines(tables: seq<Table>)
    requires forall t :: t in tables ==> TableDescribable(t)
    ensures ParseTables(TablesLines(tables)) == Some(tables)
    decreases |tables|
  {
    if tables != [] {
      var head, tail := tables[0], tables[1..];
      assert tables == [head] + tail;
      assert forall u :: u in tail ==> u in tables;
      TablesLinesFront(tables);
      if tail != [] {
        TablesLinesStart(tail);
      }
      ParseTablesStep(head, TablesLines(tail));
      ParseTablesLines(tail);
    }
  }

  lemma {:induction false} TablesLinesOneLine(tables: seq<Table>)
    requires forall t :: t in tables ==> TableDescribable(t)
    ensures forall k :: 0 <= k < |TablesLines(tables)| ==> OneLine(TablesLines(tables)[k])
    decreases |tables|
  {
    if tables != [] {
      var t := tables[|tables| - 1];
      TablesLinesOneLine(tables[..|tables| - 1]);
      assert t in tables;
      assert OneLine("Table: ");
      assert OneLine("Table: " + t.name);
      forall k | 0 <= k < |t.columns| ensures OneLine(ColumnLine(t.columns[k])) {
        assert t.columns[k] in t.columns;
        assert OneLine("  ") && OneLine(" (") && OneLine(")");
      }
    }
  }

  /** Reading a description back gives the database name and the tables it was made from. */
  lemma {:induction false} SchemaRoundTrip(dbName: string, tables: seq<Table>)
    requires Describable(dbName, tables)
    ensures ParseSchema(SchemaText(dbName, tables)) == Some((dbName, tables))
  {
    var lines := SchemaLines(dbName, tables);
    TablesLinesOneLine(tables);
    assert OneLine("Database: " + dbName);
    forall k | 0 <= k < |lines| ensures !Contains(lines[k], "\n") {
      OneLineHasNoNewline(lines[k]);
    }
    SplitUnlines(lines);
    var split := lines + [""];
    assert split[0][..10] == "Database: ";
    assert split[0][10..] == dbName;
    assert split[1..|split| - 1] == TablesLines(tables);
    ParseTablesLines(tables);
  }

  /** When every read succeeds, what `get_table_schema` returns reads back as the database's
      name and the tables read, with their columns, in order. */
  lemma SchemaDescriptionReadsBack(agent: MedicalAgent, db: Sqlite, dbName: string)
    requires dbName in agent.dbPaths
    requires db.tableNames(agent.dbPaths[dbName]).Success?
    requires ReadTables(db, agent.dbPaths[dbName], db.tableNames(agent.dbPaths[dbName]).value).Success?
    requires Describable(dbName, ReadTables(db, agent.dbPaths[dbName], db.tableNames(agent.dbPaths[dbName]).value).value)
    ensures ParseSchema(SchemaDescription(agent, db, dbName).value)
      == Some((dbName, ReadTables(db, agent.dbPaths[dbName], db.tableNames(agent.dbPaths[dbName]).value).value))
  {
    var path := agent.dbPaths[dbName];
    SchemaRoundTrip(dbName, ReadTables(db, path, db.tableNames(path).value).value);
  }
}
