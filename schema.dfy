/** The database layout of futures.db and its provisioning step
    `futures_database_creation` (setup.py:6-52): nine tables, created with
    CREATE TABLE IF NOT EXISTS, five for the agricultural futures (with a
    market_year column) and four for the macroeconomic ones (without it). */
module Schema {
  import opened Rows

  /** The SQLite column types the tables declare. */
  datatype SqlType = Date | Text | Integer | Real

  datatype Column = Column(name: string, sqlType: SqlType)

  datatype TableSchema = TableSchema(columns: seq<Column>, primaryKey: seq<string>)

  /** A table of the database: its declared layout and its rows. */
  datatype Table = Table(schema: TableSchema, rows: seq<ContractRow>)

  /** The columns of `macro_tables_colnames` (setup.py:23-33). */
  const MACRO_COLUMNS: seq<Column> := [
    Column("time", Date), Column("exp_month", Text), Column("exp_year", Integer),
    Column("open", Real), Column("high", Real), Column("low", Real), Column("close", Real)]

  /** The columns of `ag_tables_colnames` (setup.py:10-21). */
  const AG_COLUMNS: seq<Column> := [
    Column("time", Date), Column("exp_month", Text), Column("exp_year", Integer),
    Column("open", Real), Column("high", Real), Column("low", Real), Column("close", Real),
    Column("market_year", Text)]

  /** PRIMARY KEY (time, exp_month, exp_year), shared by both layouts. */
  const PRIMARY_KEY: seq<string> := ["time", "exp_month", "exp_year"]

  const AG_SCHEMA: TableSchema := TableSchema(AG_COLUMNS, PRIMARY_KEY)
  const MACRO_SCHEMA: TableSchema := TableSchema(MACRO_COLUMNS, PRIMARY_KEY)

  const AG_TABLES: seq<string> := ["CBOT_corn", "B3_corn", "CBOT_soybean", "CBOT_soybean_oil", "CBOT_soybean_meal"]
  const MACRO_TABLES: seq<string> := ["US_SOFR", "US_DXY", "BR_DI1", "BR_DOL"]

  /** A `CREATE TABLE IF NOT EXISTS name(columns)` statement. */
  datatype Statement = CreateTableIfNotExists(name: string, schema: TableSchema)

  /** The effect of one statement on the tables of the database: a table of
      that name that exists already is left as it is; otherwise an empty
      table with the statement's layout is added. */
  function Apply(store: map<string, Table>, stmt: Statement): map<string, Table> {
    if stmt.name in store then store else store[stmt.name := Table(stmt.schema, [])]
  }

  /** The tables after the nine statements of futures_database_creation,
      executed in order (setup.py:37-52) on a database holding `store`. */
  function Provision(store: map<string, Table>): map<string, Table> {
    Apply(Apply(Apply(Apply(Apply(Apply(Apply(Apply(Apply(store,
      CreateTableIfNotExists("CBOT_corn", AG_SCHEMA)),
      CreateTableIfNotExists("B3_corn", AG_SCHEMA)),
      CreateTableIfNotExists("CBOT_soybean", AG_SCHEMA)),
      CreateTableIfNotExists("CBOT_soybean_oil", AG_SCHEMA)),
      CreateTableIfNotExists("CBOT_soybean_meal", AG_SCHEMA)),
      CreateTableIfNotExists("US_SOFR", MACRO_SCHEMA)),
      CreateTableIfNotExists("US_DXY", MACRO_SCHEMA)),
      CreateTableIfNotExists("BR_DI1", MACRO_SCHEMA)),
      CreateTableIfNotExists("BR_DOL", MACRO_SCHEMA))
  }

  /** The nine tables, empty, with their layouts. */
  const CREATED: map<string, Table> := map[
    "CBOT_corn" := Table(AG_SCHEMA, []),
    "B3_corn" := Table(AG_SCHEMA, []),
    "CBOT_soybean" := Table(AG_SCHEMA, []),
    "CBOT_soybean_oil" := Table(AG_SCHEMA, []),
    "CBOT_soybean_meal" := Table(AG_SCHEMA, []),
    "US_SOFR" := Table(MACRO_SCHEMA, []),
    "US_DXY" := Table(MACRO_SCHEMA, []),
    "BR_DI1" := Table(MACRO_SCHEMA, []),
    "BR_DOL" := Table(MACRO_SCHEMA, [])]

  /** The open connection to futures.db: the tables the file holds. */
  class Database {
    var tables: map<string, Table>

    /** sqlite3.connect on a file that holds `existing` (setup.py:7). */
    constructor Connect(existing: map<string, Table>)
      ensures tables == existing
    {
      tables := existing;
    }

    /** cur.execute of one CREATE TABLE IF NOT EXISTS statement. */
    method Execute(stmt: Statement)
      modifies this
      ensures tables == Apply(old(tables), stmt)
    {
      if stmt.name !in tables {
        tables := tables[stmt.name := Table(stmt.schema, [])];
      }
    }
  }

  /** futures_database_creation (setup.py:6-52), on the database `db` that
      sqlite3.connect('futures.db') opens. */
  method FuturesDatabaseCreation(db: Database)
    modifies db
    ensures db.tables == Provision(old(db.tables))
  {
    db.Execute(CreateTableIfNotExists("CBOT_corn", AG_SCHEMA));
    db.Execute(CreateTableIfNotExists("B3_corn", AG_SCHEMA));
    db.Execute(CreateTableIfNotExists("CBOT_soybean", AG_SCHEMA));
    db.Execute(CreateTableIfNotExists("CBOT_soybean_oil", AG_SCHEMA));
    db.Execute(CreateTableIfNotExists("CBOT_soybean_meal", AG_SCHEMA));
    db.Execute(CreateTableIfNotExists("US_SOFR", MACRO_SCHEMA));
    db.Execute(CreateTableIfNotExists("US_DXY", MACRO_SCHEMA));
    db.Execute(CreateTableIfNotExists("BR_DI1", MACRO_SCHEMA));
    db.Execute(CreateTableIfNotExists("BR_DOL", MACRO_SCHEMA));
  }

  /** A statement on `c + m` acts on `c`; the tables of `m` still win. */
  lemma ApplyUnion(c: map<string, Table>, m: map<string, Table>, stmt: Statement)
    ensures Apply(c + m, stmt) == Apply(c, stmt) + m
  {
    if stmt.name in m && stmt.name !in c {
      assert c[stmt.name := Table(stmt.schema, [])] + m == c + m;
    }
  }

  /** On an empty database, provisioning creates exactly the nine tables,
      empty and with their layouts. */
  lemma ProvisionFromEmpty()
    ensures Provision(map[]) == CREATED
  {
    var e0: map<string, Table> := map[];
    var e1 := e0["CBOT_corn" := Table(AG_SCHEMA, [])];
    assert Apply(e0, CreateTableIfNotExists("CBOT_corn", AG_SCHEMA)) == e1;
    var e2 := e1["B3_corn" := Table(AG_SCHEMA, [])];
    assert Apply(e1, CreateTableIfNotExists("B3_corn", AG_SCHEMA)) == e2;
    var e3 := e2["CBOT_soybean" := Table(AG_SCHEMA, [])];
    assert Apply(e2, CreateTableIfNotExists("CBOT_soybean", AG_SCHEMA)) == e3;
    var e4 := e3["CBOT_soybean_oil" := Table(AG_SCHEMA, [])];
    assert Apply(e3, CreateTableIfNotExists("CBOT_soybean_oil", AG_SCHEMA)) == e4;
    var e5 := e4["CBOT_soybean_meal" := Table(AG_SCHEMA, [])];
    assert Apply(e4, CreateTableIfNotExists("CBOT_soybean_meal", AG_SCHEMA)) == e5;
    var e6 := e5["US_SOFR" := Table(MACRO_SCHEMA, [])];
    assert Apply(e5, CreateTableIfNotExists("US_SOFR", MACRO_SCHEMA)) == e6;
    var e7 := e6["US_DXY" := Table(MACRO_SCHEMA, [])];
    assert Apply(e6, CreateTableIfNotExists("US_DXY", MACRO_SCHEMA)) == e7;
    var e8 := e7["BR_DI1" := Table(MACRO_SCHEMA, [])];
    assert Apply(e7, CreateTableIfNotExists("BR_DI1", MACRO_SCHEMA)) == e8;
    var e9 := e8["BR_DOL" := Table(MACRO_SCHEMA, [])];
    assert Apply(e8, CreateTableIfNotExists("BR_DOL", MACRO_SCHEMA)) == e9;
    assert e9 == CREATED;
  }

  /** IF NOT EXISTS: provisioning keeps every table the database holds and
      adds, empty and with its layout, each of the nine it lacks. */
  lemma ProvisionKeepsExisting(m: map<string, Table>)
    ensures Provision(m) == CREATED + m
  {
    var c0: map<string, Table> := map[];
    assert c0 + m == m;
    var c1 := Apply(c0, CreateTableIfNotExists("CBOT_corn", AG_SCHEMA));
    ApplyUnion(c0, m, CreateTableIfNotExists("CBOT_corn", AG_SCHEMA));
    var c2 := Apply(c1, CreateTableIfNotExists("B3_corn", AG_SCHEMA));
    ApplyUnion(c1, m, CreateTableIfNotExists("B3_corn", AG_SCHEMA));
    var c3 := Apply(c2, CreateTableIfNotExists("CBOT_soybean", AG_SCHEMA));
    ApplyUnion(c2, m, CreateTableIfNotExists("CBOT_soybean", AG_SCHEMA));
    var c4 := Apply(c3, CreateTableIfNotExists("CBOT_soybean_oil", AG_SCHEMA));
    ApplyUnion(c3, m, CreateTableIfNotExists("CBOT_soybean_oil", AG_SCHEMA));
    var c5 := Apply(c4, CreateTableIfNotExists("CBOT_soybean_meal", AG_SCHEMA));
    ApplyUnion(c4, m, CreateTableIfNotExists("CBOT_soybean_meal", AG_SCHEMA));
    var c6 := Apply(c5, CreateTableIfNotExists("US_SOFR", MACRO_SCHEMA));
    ApplyUnion(c5, m, CreateTableIfNotExists("US_SOFR", MACRO_SCHEMA));
    var c7 := Apply(c6, CreateTableIfNotExists("US_DXY", MACRO_SCHEMA));
    ApplyUnion(c6, m, CreateTableIfNotExists("US_DXY", MACRO_SCHEMA));
    var c8 := Apply(c7, CreateTableIfNotExists("BR_DI1", MACRO_SCHEMA));
    ApplyUnion(c7, m, CreateTableIfNotExists("BR_DI1", MACRO_SCHEMA));
    var c9 := Apply(c8, CreateTableIfNotExists("BR_DOL", MACRO_SCHEMA));
    ApplyUnion(c8, m, CreateTableIfNotExists("BR_DOL", MACRO_SCHEMA));
    ProvisionFromEmpty();
  }

  /** Running futures_database_creation twice leaves the database as one run does. */
  lemma ProvisionIdempotent(m: map<string, Table>)
    ensures Provision(Provision(m)) == Provision(m)
  {
    var once := Provision(m);
    ProvisionKeepsExisting(m);
    ProvisionKeepsExisting(once);
    UnionAbsorbs(CREATED, m);
  }

  lemma UnionAbsorbs<K, V>(c: map<K, V>, m: map<K, V>)
    ensures c + (c + m) == c + m
  {
  }

  /** Table by table: a table the database holds is untouched, and each of
      the nine it lacks is added empty with its layout; nothing else appears. */
  lemma ProvisionEffect(m: map<string, Table>, n: string)
    ensures n in Provision(m) <==> n in m || n in CREATED
    ensures n in m ==> Provision(m)[n] == m[n]
    ensures n !in m && n in CREATED ==> Provision(m)[n] == CREATED[n]
  {
    ProvisionKeepsExisting(m);
  }

  function ColumnNames(columns: seq<Column>): (names: seq<string>)
    ensures |names| == |columns|
    ensures forall k :: 0 <= k < |columns| ==> names[k] == columns[k].name
  {
    seq(|columns|, k requires 0 <= k < |columns| => columns[k].name)
  }

  /** The agricultural layout is the macroeconomic one plus market_year
      TEXT; both key on (time, exp_month, exp_year), which are columns of both. */
  lemma Layouts()
    ensures AG_COLUMNS == MACRO_COLUMNS + [Column("market_year", Text)]
    ensures "market_year" !in ColumnNames(MACRO_COLUMNS)
    ensures forall key :: key in PRIMARY_KEY ==> key in ColumnNames(MACRO_COLUMNS) && key in ColumnNames(AG_COLUMNS)
  {
    var macro := ColumnNames(MACRO_COLUMNS);
    assert macro == ["time", "exp_month", "exp_year", "open", "high", "low", "close"];
    assert ColumnNames(AG_COLUMNS) == macro + ["market_year"];
  }

  /** The nine tables: the five agricultural ones with the market_year
      layout, the four macroeconomic ones without it, all keyed alike. */
  lemma CreatedTables()
    ensures forall n :: n in CREATED <==> n in AG_TABLES || n in MACRO_TABLES
    ensures forall n :: n in AG_TABLES ==> n !in MACRO_TABLES && CREATED[n] == Table(AG_SCHEMA, [])
    ensures forall n :: n in MACRO_TABLES ==> CREATED[n] == Table(MACRO_SCHEMA, [])
    ensures forall n :: n in CREATED ==> CREATED[n].schema.primaryKey == PRIMARY_KEY && CREATED[n].rows == []
  {
  }

  lemma NineTables()
    ensures |CREATED| == 9
  {
  }
}
