/** services/fastapi/app/ai_sql.py: the demo AI SQL endpoint. A question is
    routed to one fixed query by keyword; the `products` table is created
    from a CSV file on first use; every database failure becomes a 500. */
module AiSql {
  import opened Wrappers
  import Text

  /** The one query the demo answers. */
  const TopRoiSql := "SELECT product_id, roi FROM products ORDER BY roi DESC LIMIT 5"

  /** The module's settings, read from the environment with these defaults. */
  datatype Config = Config(csvPath: string, dbPath: string)

  const DefaultConfig := Config("/app/samples/products_metrics.csv", ":memory:")

  /** A question is answered when its lower-cased form contains "top" and
      "roi", anywhere and in either order. */
  predicate Supported(q: string) {
    var question := Text.Lower(q);
    Text.Contains(question, "top") && Text.Contains(question, "roi")
  }

  /** The statement that loads the CSV into the `products` table. */
  function CreateStatement(csvPath: string): string {
    "CREATE TABLE products AS SELECT * FROM read_csv_auto('" + csvPath + "')"
  }

  /** Operations on the DuckDB connection, and the file check. Both
      `Create` and `Query` are `con.execute` calls: `Create` runs
      `CreateStatement(csvPath)`, `Query` runs `sql`. */
  datatype Op = Connect(path: string) | ShowTables | CsvExists(path: string) | Create(csvPath: string) | Query(sql: string)

  /** The database's answers: whether connecting fails, the table list (or
      the error listing it), whether the CSV file exists, whether creating
      the table fails, and the query's rows (or its error). */
  datatype Db<V> = Db(
    connectError: Option<string>,
    tables: Result<seq<string>, string>,
    csvExists: bool,
    createError: Option<string>,
    query: Result<seq<seq<V>>, string>)

  /** The endpoint's answer: the SQL and rows, an HTTPException with its
      status and detail, or an exception FastAPI reports as a bare 500. */
  datatype Reply<V> = Answer(sql: string, results: seq<seq<V>>) | HttpError(status: int, detail: string) | Uncaught(msg: string)

  const Unsupported := "Unsupported query in demo"

  /** The `except Exception as e` wrapper; `e` is an HTTPException for the
      missing CSV, whose string form is "500: Products metrics CSV missing". */
  function DbError<V>(e: string): Reply<V> {
    HttpError(500, "DuckDB error: " + e)
  }

  const CsvMissing := "500: Products metrics CSV missing"

  /** The `products` table is needed when the listing lacks it. */
  predicate NeedsTable(tables: seq<string>) { "products" !in tables }

  /** ai_sql, statement by statement. The connection is never closed. */
  method HandleAiSql<V>(cfg: Config, q: string, db: Db<V>) returns (reply: Reply<V>, ops: seq<Op>)
    // routing happens before any database work
    ensures !Supported(q) ==> reply == HttpError(400, Unsupported) && ops == []
    ensures Supported(q) ==> |ops| >= 1 && ops[0] == Connect(cfg.dbPath)
    ensures Supported(q) && db.connectError.Some? ==> reply == Uncaught(db.connectError.value) && ops == [Connect(cfg.dbPath)]
    // the table is created only when the listing lacks it and the file exists
    ensures Create(cfg.csvPath) in ops <==>
      Supported(q) && db.connectError.None? && db.tables.Ok? && NeedsTable(db.tables.value) && db.csvExists
    ensures CsvExists(cfg.csvPath) in ops <==>
      Supported(q) && db.connectError.None? && db.tables.Ok? && NeedsTable(db.tables.value)
    // the fixed query runs last, after the table is known to be there
    ensures Query(TopRoiSql) in ops ==> ops[|ops| - 1] == Query(TopRoiSql)
    ensures reply.Answer? <==>
      Supported(q) && db.connectError.None? && db.tables.Ok? &&
      (NeedsTable(db.tables.value) ==> db.csvExists && db.createError.None?) && db.query.Ok?
    ensures reply.Answer? ==> reply == Answer(TopRoiSql, db.query.value) && Query(TopRoiSql) in ops
    // every failure after connecting is a 500 with the "DuckDB error: " prefix
    ensures Supported(q) && db.connectError.None? && !reply.Answer? ==>
      reply.HttpError? && reply.status == 500 && Text.StartsWith(reply.detail, "DuckDB error: ")
    // once connected, the table listing is the second operation
    ensures Supported(q) && db.connectError.None? ==> |ops| >= 2 && ops[1] == ShowTables
    // each failure's own message follows the prefix
    ensures Supported(q) && db.connectError.None? && db.tables.Err? ==>
      reply == DbError(db.tables.error) && ops == [Connect(cfg.dbPath), ShowTables]
    ensures Supported(q) && db.connectError.None? && db.tables.Ok? && NeedsTable(db.tables.value) && !db.csvExists ==>
      reply == DbError(CsvMissing)
    ensures (Supported(q) && db.connectError.None? && db.tables.Ok? && NeedsTable(db.tables.value) &&
             db.csvExists && db.createError.Some?) ==>
      reply == DbError(db.createError.value)
    ensures (Supported(q) && db.connectError.None? && db.tables.Ok? &&
             (NeedsTable(db.tables.value) ==> db.csvExists && db.createError.None?) && db.query.Err?) ==>
      reply == DbError(db.query.error) && ops[|ops| - 1] == Query(TopRoiSql)
  {
    ops := [];
    if !Supported(q) {
      reply := HttpError(400, Unsupported);
      return;
    }
    var sql := TopRoiSql;
    ops := ops + [Connect(cfg.dbPath)];
    if db.connectError.Some? {
      reply := Uncaught(db.connectError.value);
      return;
    }
    ops := ops + [ShowTables];
    if db.tables.Err? {
      reply := DbError(db.tables.error);
      return;
    }
    if NeedsTable(db.tables.value) {
      ops := ops + [CsvExists(cfg.csvPath)];
      if !db.csvExists {
        reply := DbError(CsvMissing);
        return;
      }
      ops := ops + [Create(cfg.csvPath)];
      if db.createError.Some? {
        reply := DbError(db.createError.value);
        return;
      }
    }
    ops := ops + [Query(sql)];
    if db.query.Err? {
      reply := DbError(db.query.error);
      return;
    }
    reply := Answer(sql, db.query.value);
  }

  /** The keywords are found wherever they occur and in either order. */
  lemma SupportedAnywhere(a: string, b: string, c: string)
    ensures Supported(a + "top" + b + "roi" + c)
    ensures Supported(a + "roi" + b + "top" + c)
  {
    Text.LowerOfLower("top");
    Text.LowerOfLower("roi");
    KeywordsFound(a, "top", b, "roi", c);
    KeywordsFound(a, "roi", b, "top", c);
  }

  lemma KeywordsFound(a: string, x: string, b: string, y: string, c: string)
    requires Text.Lower(x) == x && Text.Lower(y) == y
    ensures Text.Contains(Text.Lower(a + x + b + y + c), x)
    ensures Text.Contains(Text.Lower(a + x + b + y + c), y)
  {
    LowerFive(a, x, b, y, c);
    var la, lb, lc := Text.Lower(a), Text.Lower(b), Text.Lower(c);
    Regroup(la, x, lb, y, lc);
    Text.ContainsInfix(la, x, lb + y + lc);
    Text.ContainsInfix(la + x + lb, y, lc);
  }

  lemma LowerFive(a: string, x: string, b: string, y: string, c: string)
    ensures Text.Lower(a + x + b + y + c) == Text.Lower(a) + Text.Lower(x) + Text.Lower(b) + Text.Lower(y) + Text.Lower(c)
  {
    Text.LowerAppend(a + x + b + y, c);
    Text.LowerAppend(a + x + b, y);
    Text.LowerAppend(a + x, b);
    Text.LowerAppend(a, x);
  }

  lemma Regroup(a: string, x: string, b: string, y: string, c: string)
    ensures a + x + b + y + c == a + x + (b + y + c)
    ensures a + x + b + y + c == (a + x + b) + y + c
  {
  }

  /** The question the panel starts with is one the endpoint answers. */
  lemma DemoQuestionSupported()
    ensures Supported("Top 5 products by ROI")
  {
    var mid := " 5 products by ";
    assert "Top 5 products by ROI" == "Top" + mid + "ROI";
    Text.LowerOfLower(mid);
    CapitalisedKeywords(mid);
  }

  lemma CapitalisedKeywords(mid: string)
    requires Text.Lower(mid) == mid
    ensures Supported("Top" + mid + "ROI")
  {
    assert Text.Lower("Top") == "top";
    assert Text.Lower("ROI") == "roi";
    KeywordsAnyCase("Top", mid, "ROI");
  }

  lemma KeywordsAnyCase(x: string, mid: string, y: string)
    requires Text.Lower(x) == "top" && Text.Lower(y) == "roi" && Text.Lower(mid) == mid
    ensures Supported(x + mid + y)
  {
    LowerThree(x, mid, y);
    ContainsBothEnds("top", mid, "roi");
  }

  lemma LowerThree(x: string, mid: string, y: string)
    ensures Text.Lower(x + mid + y) == Text.Lower(x) + Text.Lower(mid) + Text.Lower(y)
  {
    Text.LowerAppend(x + mid, y);
    Text.LowerAppend(x, mid);
  }

  lemma ContainsBothEnds(x: string, mid: string, y: string)
    ensures Text.Contains(x + mid + y, x) && Text.Contains(x + mid + y, y)
  {
    Text.ContainsInfix([], x, mid + y);
    assert [] + x + (mid + y) == x + mid + y;
    Text.ContainsInfix(x + mid, y, []);
    assert x + mid + y + [] == x + mid + y;
  }
}
