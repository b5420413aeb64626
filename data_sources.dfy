/** The list reducers of services/frontend/src/routes/DataSources.tsx: the two
    steps of a sync, the pause/resume toggle, the active count and the status
    badge. Each handler maps the previous list to a new one. */
module DataSources {
  import Seqs

  datatype Status = Active | Inactive | Error | Syncing

  datatype SourceKind = Postgres | Mysql | Mongodb | S3 | Api | Other

  /** A data source record; `size` is a floating-point byte count and is not
      modelled. */
  datatype DataSource = DataSource(
    id: string,
    name: string,
    kind: SourceKind,
    status: Status,
    lastSync: string,
    nextSync: string,
    records: nat,
    schedule: string)

  /** The string value of a status. */
  function StatusName(s: Status): string {
    match s
    case Active => "active"
    case Inactive => "inactive"
    case Error => "error"
    case Syncing => "syncing"
  }

  /** `prev.map(ds => ds.id === id ? update(ds) : ds)`. */
  function UpdateWhere(list: seq<DataSource>, id: string, update: DataSource -> DataSource): (r: seq<DataSource>)
    ensures |r| == |list|
    ensures forall i :: 0 <= i < |list| ==> r[i] == if list[i].id == id then update(list[i]) else list[i]
  {
    if list == [] then []
    else [if list[0].id == id then update(list[0]) else list[0]] + UpdateWhere(list[1..], id, update)
  }

  function StartSync(ds: DataSource): DataSource {
    ds.(status := Syncing, lastSync := "currently syncing")
  }

  function FinishSync(ds: DataSource): DataSource {
    ds.(status := Active, lastSync := "just now")
  }

  function Toggle(ds: DataSource): DataSource {
    if ds.status == Active then ds.(status := Inactive, nextSync := "paused")
    else ds.(status := Active, nextSync := "in 6 hours")
  }

  /** handleSync, first step. */
  function MarkSyncing(list: seq<DataSource>, id: string): seq<DataSource> {
    UpdateWhere(list, id, StartSync)
  }

  /** handleSync, completion step (after the timer). */
  function MarkSynced(list: seq<DataSource>, id: string): seq<DataSource> {
    UpdateWhere(list, id, FinishSync)
  }

  /** handleToggleStatus. */
  function ToggleStatus(list: seq<DataSource>, id: string): seq<DataSource> {
    UpdateWhere(list, id, Toggle)
  }

  /** Starting a sync changes only status and lastSync of the matching
      records; the list keeps its length and order. */
  lemma MarkSyncingEffect(list: seq<DataSource>, id: string)
    ensures var r := MarkSyncing(list, id);
      |r| == |list| &&
      forall i :: 0 <= i < |list| ==>
        r[i].id == list[i].id && r[i].name == list[i].name && r[i].kind == list[i].kind &&
        r[i].nextSync == list[i].nextSync && r[i].records == list[i].records &&
        r[i].schedule == list[i].schedule &&
        (list[i].id == id ==> r[i].status == Syncing && r[i].lastSync == "currently syncing") &&
        (list[i].id != id ==> r[i] == list[i])
  {
  }

  /** Completion marks the matching records active whatever their status is
      by then, for instance after a pause during the sync. */
  lemma MarkSyncedEffect(list: seq<DataSource>, id: string)
    ensures var r := MarkSynced(list, id);
      |r| == |list| &&
      forall i :: 0 <= i < |list| ==>
        (list[i].id == id ==> r[i] == list[i].(status := Active, lastSync := "just now")) &&
        (list[i].id != id ==> r[i] == list[i])
  {
  }

  /** A sync that is paused while it runs still ends active. */
  lemma PauseDuringSyncIsOverridden(list: seq<DataSource>, id: string, i: nat)
    requires i < |list| && list[i].id == id
    ensures MarkSynced(ToggleStatus(MarkSyncing(list, id), id), id)[i].status == Active
  {
  }

  /** An id that no record has leaves every handler's list as it was. */
  lemma UnknownIdUnchanged(list: seq<DataSource>, id: string)
    requires forall i :: 0 <= i < |list| ==> list[i].id != id
    ensures MarkSyncing(list, id) == list && MarkSynced(list, id) == list && ToggleStatus(list, id) == list
  {
  }

  /** The toggle: active becomes inactive and paused; any other status
      becomes active with the next sync in 6 hours. */
  lemma ToggleEffect(list: seq<DataSource>, id: string, i: nat)
    requires i < |list| && list[i].id == id
    ensures var r := ToggleStatus(list, id)[i];
      (list[i].status == Active ==> r.status == Inactive && r.nextSync == "paused") &&
      (list[i].status != Active ==> r.status == Active && r.nextSync == "in 6 hours") &&
      r.lastSync == list[i].lastSync
  {
  }

  /** Toggling twice restores an active or inactive status; an error or
      syncing record ends up inactive instead. */
  lemma ToggleTwice(list: seq<DataSource>, id: string, i: nat)
    requires i < |list|
    ensures var r := ToggleStatus(ToggleStatus(list, id), id)[i];
      (list[i].status in {Active, Inactive} ==> r.status == list[i].status) &&
      (list[i].id == id && list[i].status in {Error, Syncing} ==> r.status == Inactive)
  {
  }

  predicate IsActive(ds: DataSource) { ds.status == Active }

  /** `dataSources.filter(ds => ds.status === 'active').length` */
  function ActiveCount(list: seq<DataSource>): (n: nat)
    ensures n <= |list|
    ensures n == 0 <==> forall i :: 0 <= i < |list| ==> list[i].status != Active
    ensures n == |list| <==> forall i :: 0 <= i < |list| ==> list[i].status == Active
  {
    Seqs.CountIsFilterLength(list, IsActive);
    Seqs.CountAll(list, IsActive);
    |Seqs.Filter(list, IsActive)|
  }

  /** The active count is additive over concatenation. */
  lemma ActiveCountAppend(a: seq<DataSource>, b: seq<DataSource>)
    ensures ActiveCount(a + b) == ActiveCount(a) + ActiveCount(b)
  {
    Seqs.CountIsFilterLength(a + b, IsActive);
    Seqs.CountIsFilterLength(a, IsActive);
    Seqs.CountIsFilterLength(b, IsActive);
    Seqs.CountAppend(a, b, IsActive);
  }

  /** Starting a sync never raises the active count, completing one never
      lowers it. */
  lemma {:induction false} SyncStepsAndActiveCount(list: seq<DataSource>, id: string)
    ensures ActiveCount(MarkSyncing(list, id)) <= ActiveCount(list)
    ensures ActiveCount(MarkSynced(list, id)) >= ActiveCount(list)
    decreases |list|
  {
    if list != [] {
      SyncStepsAndActiveCount(list[1..], id);
      assert MarkSyncing(list, id)[1..] == MarkSyncing(list[1..], id);
      assert MarkSynced(list, id)[1..] == MarkSynced(list[1..], id);
    }
  }

  /** `dataSources.reduce((sum, ds) => sum + ds.records, 0)`, before the
      division into millions. */
  function TotalRecords(list: seq<DataSource>): nat {
    if list == [] then 0 else list[0].records + TotalRecords(list[1..])
  }

  /** The total is additive over concatenation. */
  lemma {:induction false} TotalRecordsAppend(a: seq<DataSource>, b: seq<DataSource>)
    ensures TotalRecords(a + b) == TotalRecords(a) + TotalRecords(b)
    decreases |a|
  {
    if a == [] {
      assert a + b == b;
    } else {
      TotalRecordsAppend(a[1..], b);
      assert (a + b)[1..] == a[1..] + b;
    }
  }

  /** An update that keeps the record count keeps the total. */
  lemma {:induction false} UpdateWhereKeepsTotal(list: seq<DataSource>, id: string, update: DataSource -> DataSource)
    requires forall d: DataSource :: update(d).records == d.records
    ensures TotalRecords(UpdateWhere(list, id, update)) == TotalRecords(list)
    decreases |list|
  {
    if list != [] {
      UpdateWhereKeepsTotal(list[1..], id, update);
    }
  }

  /** None of the handlers touches the record counts. */
  lemma HandlersKeepTotalRecords(list: seq<DataSource>, id: string)
    ensures TotalRecords(MarkSyncing(list, id)) == TotalRecords(list)
    ensures TotalRecords(MarkSynced(list, id)) == TotalRecords(list)
    ensures TotalRecords(ToggleStatus(list, id)) == TotalRecords(list)
  {
    UpdateWhereKeepsTotal(list, id, StartSync);
    UpdateWhereKeepsTotal(list, id, FinishSync);
    UpdateWhereKeepsTotal(list, id, Toggle);
  }

  datatype BadgeVariant = Success | Secondary | ErrorVariant | Warning

  datatype Badge = Badge(variant: BadgeVariant, caption: string)

  /** getStatusBadge: a switch on the status string. */
  function GetStatusBadge(status: string): (b: Badge)
    // each known status has its own badge
    ensures status == "active" ==> b == Badge(Success, "Active")
    ensures status == "inactive" ==> b == Badge(Secondary, "Inactive")
    ensures status == "error" ==> b == Badge(ErrorVariant, "Error")
    ensures status == "syncing" ==> b == Badge(Warning, "Syncing")
    // anything else is "Unknown", shown as a secondary badge
    ensures status !in {"active", "inactive", "error", "syncing"} ==> b == Badge(Secondary, "Unknown")
  {
    match status
    case "active" => Badge(Success, "Active")
    case "inactive" => Badge(Secondary, "Inactive")
    case "error" => Badge(ErrorVariant, "Error")
    case "syncing" => Badge(Warning, "Syncing")
    case _ => Badge(Secondary, "Unknown")
  }

  /** The badge is "Unknown" exactly for the strings that are not the name
      of a status, and every status has a badge captioned with its name
      capitalised. */
  lemma BadgeUnknownIffNoStatus(status: string)
    ensures GetStatusBadge(status).caption == "Unknown" <==> forall s: Status :: StatusName(s) != status
  {
    if status == "active" {
      assert StatusName(Active) == status;
    } else if status == "inactive" {
      assert StatusName(Inactive) == status;
    } else if status == "error" {
      assert StatusName(Error) == status;
    } else if status == "syncing" {
      assert StatusName(Syncing) == status;
    } else {
      forall s: Status ensures StatusName(s) != status {
        match s
        case Active =>
        case Inactive =>
        case Error =>
        case Syncing =>
      }
    }
  }
}
