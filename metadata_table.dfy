/** The paged table list of services/frontend/src/components/MetadataTable.tsx:
    a page counter stepped by the Prev and Next buttons, the request each page
    makes and the rows it shows. */
module MetadataTable {
  import opened Wrappers
  import Text
  import Web
  import Api

  /** Rows are fixed at 25 per page. */
  const PageSize := 25

  /** One catalogue entry, as far as the key and the name column use it. */
  datatype TableEntity = TableEntity(id: string, fullyQualifiedName: string)

  /** The response body of the tables listing. */
  datatype TablesReply = TablesReply(data: Option<seq<TableEntity>>)

  /** `(data?.data) || []`: an absent body or an absent `data` gives no rows. */
  function Tables(data: Option<TablesReply>): (t: seq<TableEntity>)
    ensures data.Some? && data.value.data.Some? ==> t == data.value.data.value
    ensures data.None? || data.value.data.None? ==> t == []
  {
    if data.Some? && data.value.data.Some? then data.value.data.value else []
  }

  /** What the query holds after a request: the body on success, nothing on
      an error. */
  function QueryData(r: Result<TablesReply, Api.RequestError>): Option<TablesReply> {
    if r.Ok? then Some(r.value) else None
  }

  /** The path requested for a page. */
  function RequestPath(page: int): string {
    Api.TablesPath(PageSize, page)
  }

  /** Every reachable page asks for 25 rows from a non-negative offset that
      is 25 times the number of pages before it. */
  lemma RequestPathOffset(page: int)
    requires page >= 1
    ensures RequestPath(page) == "/openmetadata/api/v1/tables?limit=25&offset=" + Text.NatToString((page - 1) * 25)
  {
    assert Text.IntToString(25) == "25" by {
      assert Text.NatToString(2) == "2";
    }
  }

  predicate PrevDisabled(page: int) { page == 1 }

  predicate NextDisabled(tables: seq<TableEntity>) { |tables| < PageSize }

  /** The "No tables" row. */
  predicate ShowNoTables(isLoading: bool, tables: seq<TableEntity>) { !isLoading && |tables| == 0 }

  /** While a page is loading (or after an error) there are no rows, so Next
      is disabled and the "No tables" row waits for the load to end. */
  lemma NoDataDisablesNext(isLoading: bool)
    ensures NextDisabled(Tables(None))
    ensures ShowNoTables(isLoading, Tables(None)) <==> !isLoading
  {
  }

  /** One button press, with the number of rows the current page showed. */
  datatype Click = Prev | Next(shown: nat)

  /** The effect of one press: a disabled button does nothing. */
  function Step(page: int, click: Click): int {
    match click
    case Prev => if page == 1 then page else page - 1
    case Next(shown) => if shown < PageSize then page else page + 1
  }

  /** The page after a sequence of presses. */
  function Replay(page: int, clicks: seq<Click>): int
    decreases |clicks|
  {
    if clicks == [] then page else Replay(Step(page, clicks[0]), clicks[1..])
  }

  /** From page 1, no sequence of presses leaves page >= 1, and each press
      moves at most one page. */
  lemma {:induction false} ReplayStaysPositive(page: int, clicks: seq<Click>)
    requires page >= 1
    ensures Replay(page, clicks) >= 1
    ensures page - |clicks| <= Replay(page, clicks) <= page + |clicks|
    decreases |clicks|
  {
    if clicks != [] {
      ReplayStaysPositive(Step(page, clicks[0]), clicks[1..]);
    }
  }

  /** Next only advances past a full page. */
  lemma {:induction false} ReplayNeedsFullPages(page: int, clicks: seq<Click>)
    requires forall i :: 0 <= i < |clicks| ==> clicks[i].Prev? || clicks[i].shown < PageSize
    ensures Replay(page, clicks) <= page
    decreases |clicks|
  {
    if clicks != [] {
      ReplayNeedsFullPages(Step(page, clicks[0]), clicks[1..]);
    }
  }

  class Pager {
    /** `page`, a React state starting at 1. */
    var page: int

    predicate Valid()
      reads this
    {
      page >= 1
    }

    constructor ()
      ensures Valid() && page == 1
    {
      page := 1;
    }

    /** The Prev button: disabled at page 1, otherwise `setPage(p => p - 1)`. */
    method ClickPrev()
      requires Valid()
      modifies this
      ensures Valid()
      ensures page == Step(old(page), Prev)
      ensures old(page) > 1 ==> page == old(page) - 1
    {
      if !PrevDisabled(page) {
        page := page - 1;
      }
    }

    /** The Next button: disabled when the page showed fewer than 25 rows,
        otherwise `setPage(p => p + 1)`. */
    method ClickNext(tables: seq<TableEntity>)
      requires Valid()
      modifies this
      ensures Valid()
      ensures page == Step(old(page), Next(|tables|))
      ensures |tables| >= PageSize ==> page == old(page) + 1
    {
      if !NextDisabled(tables) {
        page := page + 1;
      }
    }

    /** The query function: `api.metadata.tables(25, page)`, with the rows it
        yields. */
    method Load(client: Api.Client, browser: Web.Browser, response: Web.Response<TablesReply>)
      returns (tables: seq<TableEntity>)
      requires Valid()
      modifies browser
      ensures browser.fetches == old(browser.fetches) + [Api.PlanFetch(client.base, client.authToken, RequestPath(page), Api.NoOptions)]
      ensures tables == Tables(QueryData(Api.Fold(response)))
      ensures browser.storedToken == old(browser.storedToken) && browser.query == old(browser.query) && browser.href == old(browser.href)
    {
      var r := client.Request(browser, RequestPath(page), Api.NoOptions, response);
      tables := Tables(QueryData(r));
    }
  }
}
