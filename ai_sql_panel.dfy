/** The result grid of services/frontend/src/routes/AiSqlPanel.tsx: the rows
    returned by the AI SQL endpoint become column definitions `c1..cN` and
    one object per row, and the generated SQL is kept for display. */
module AiSqlPanel {
  import opened Wrappers
  import Text
  import Web
  import Api

  /** The endpoint's reply: the SQL it ran and the rows, each an array of
      cell values of type `V`. */
  datatype AiSqlReply<V> = AiSqlReply(sql: string, results: Option<seq<seq<V>>>)

  /** `c${i+1}` */
  function ColumnKey(i: nat): (k: string)
    ensures |k| >= 2 && k[0] == 'c' && k[1..] == Text.NatToString(i + 1)
  {
    "c" + Text.NatToString(i + 1)
  }

  /** Different positions get different keys. */
  lemma ColumnKeysDistinct()
    ensures forall i: nat, j: nat :: ColumnKey(i) == ColumnKey(j) ==> i == j
  {
    forall i: nat, j: nat | ColumnKey(i) == ColumnKey(j) ensures i == j {
      assert ColumnKey(i)[1..] == ColumnKey(j)[1..];
      Text.NatToStringInjective(i + 1, j + 1);
    }
  }

  /** `first.map((_, i) => ({ field: `c${i+1}` }))`, each definition given by
      its field name. */
  function ColumnDefs<V>(first: seq<V>): (cols: seq<string>)
    ensures |cols| == |first|
    ensures forall i :: 0 <= i < |cols| ==> cols[i] == ColumnKey(i)
  {
    seq(|first|, i requires 0 <= i < |first| => ColumnKey(i))
  }

  /** `Object.fromEntries(row.map((v, i) => [`c${i+1}`, v]))` */
  function RowObject<V>(row: seq<V>): (obj: map<string, V>)
    ensures forall i :: 0 <= i < |row| ==> ColumnKey(i) in obj && obj[ColumnKey(i)] == row[i]
    ensures forall k :: k in obj ==> exists i :: 0 <= i < |row| && k == ColumnKey(i)
  {
    ColumnKeysDistinct();
    map i | 0 <= i < |row| :: ColumnKey(i) := row[i]
  }

  /** Reading the keys `c1..cN` back out of a row object gives the row. */
  lemma RowObjectRoundTrip<V>(row: seq<V>)
    ensures var obj := RowObject(row);
      seq(|row|, i requires 0 <= i < |row| => obj[ColumnKey(i)]) == row
  {
  }

  /** A row object has exactly one key per cell. */
  lemma RowObjectSize<V>(row: seq<V>)
    ensures |RowObject(row)| == |row|
  {
    var obj := RowObject(row);
    ColumnKeysDistinct();
    var keys := set i | 0 <= i < |row| :: ColumnKey(i);
    assert obj.Keys == keys;
    KeysSize(|row|);
  }

  lemma {:induction false} KeysSize(n: nat)
    ensures |set i | 0 <= i < n :: ColumnKey(i)| == n
    decreases n
  {
    if n > 0 {
      KeysSize(n - 1);
      var smaller := set i | 0 <= i < n - 1 :: ColumnKey(i);
      assert ColumnKey(n - 1) !in smaller by {
        if ColumnKey(n - 1) in smaller {
          var i :| 0 <= i < n - 1 && ColumnKey(i) == ColumnKey(n - 1);
          assert ColumnKey(i)[1..] == ColumnKey(n - 1)[1..];
          Text.NatToStringInjective(i + 1, n);
        }
      }
      assert (set i | 0 <= i < n :: ColumnKey(i)) == smaller + {ColumnKey(n - 1)};
    }
  }

  /** The columns and rows the grid receives; `None` is `null`. */
  datatype Grid<V> = Grid(columns: Option<seq<string>>, rows: Option<seq<map<string, V>>>)

  /** The conversion in `mutationFn`: missing or empty results clear both. */
  function Convert<V>(results: Option<seq<seq<V>>>): (g: Grid<V>)
    ensures results.None? || results.value == [] ==> g == Grid(None, None)
    ensures results.Some? && results.value != [] ==>
      g.columns == Some(ColumnDefs(results.value[0])) &&
      g.rows.Some? && |g.rows.value| == |results.value| &&
      forall r :: 0 <= r < |results.value| ==> g.rows.value[r] == RowObject(results.value[r])
  {
    if results.Some? && results.value != [] then
      Grid(Some(ColumnDefs(results.value[0])),
           Some(seq(|results.value|, r requires 0 <= r < |results.value| => RowObject(results.value[r]))))
    else Grid(None, None)
  }

  /** The grid shows a cell for every column; a row shorter than the first
      lacks the trailing keys, and a cell beyond the first row's length has
      a key no column names, so it is not shown. */
  lemma RaggedRows<V>(results: seq<seq<V>>, r: nat)
    requires results != [] && r < |results|
    ensures var g := Convert(Some(results));
      var cols := g.columns.value;
      var obj := g.rows.value[r];
      (forall i :: |results[r]| <= i < |cols| ==> ColumnKey(i) !in obj) &&
      (forall i :: |cols| <= i < |results[r]| ==> ColumnKey(i) in obj && ColumnKey(i) !in cols)
  {
    ColumnKeysDistinct();
  }

  class Panel<V> {
    /** `question`, initially the demo question. */
    var question: string
    var gridData: Option<seq<map<string, V>>>
    var columns: Option<seq<string>>
    /** `sqlRef.current` */
    var sql: string

    constructor ()
      ensures question == "Top 5 products by ROI"
      ensures gridData == None && columns == None && sql == ""
    {
      question := "Top 5 products by ROI";
      gridData := None;
      columns := None;
      sql := "";
    }

    method SetQuestion(q: string)
      modifies this
      ensures question == q
      ensures gridData == old(gridData) && columns == old(columns) && sql == old(sql)
    {
      question := q;
    }

    /** The Run button: post the question; on success install the converted
        grid and the returned SQL, on failure change nothing and surface the
        error. */
    method Run(client: Api.Client, browser: Web.Browser, response: Web.Response<AiSqlReply<V>>)
      returns (r: Result<AiSqlReply<V>, Api.RequestError>)
      modifies this, browser
      ensures browser.fetches == old(browser.fetches) + [Api.PlanFetch(client.base, client.authToken, Api.AiSqlPath, Api.AiSqlOptions(old(question)))]
      ensures r == Api.Fold(response)
      ensures browser.storedToken == old(browser.storedToken) && browser.query == old(browser.query) && browser.href == old(browser.href)
      ensures question == old(question)
      ensures r.Ok? ==> Grid(columns, gridData) == Convert(r.value.results) && sql == r.value.sql
      ensures r.Err? ==> columns == old(columns) && gridData == old(gridData) && sql == old(sql)
    {
      r := client.Request(browser, Api.AiSqlPath, Api.AiSqlOptions(question), response);
      if r.Ok? {
        var g := Convert(r.value.results);
        columns := g.columns;
        gridData := g.rows;
        sql := r.value.sql;
      }
    }
  }
}
