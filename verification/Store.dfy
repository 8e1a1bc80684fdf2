/** The stored results of one provider, and the transactions that change them. */
module Store {
  import opened Wrappers
  import opened Strings
  import opened Paths
  import opened History
  import opened World
  import opened Versions
  import opened Selection

  /** One document with its check failures, revisions and vulnerabilities attached. */
  datatype Row = Row(report: Report, versionCount: nat)

  type Rows = map<string, Row>

  /** What a sync reports of one failed download: the URL, the error text, and whether the server said it is gone. */
  datatype Failure = Failure(url: string, error: string, missing: bool)

  datatype Results = Results(
    rows: Rows,
    versions: seq<Version>,
    checkpoint: Option<Checkpoint>,
    summary: Option<map<string, Report>>)

  /** A row whose last retrieval failed. */
  predicate Marked(row: Row) {
    row.report.retrievalError.Some?
  }

  /** What a summary can depend on: every result, but no version count. */
  function Aggregate(rows: Rows): map<string, Report> {
    map u | u in rows :: rows[u].report
  }

  function Dirtied(checkpoint: Option<Checkpoint>): Option<Checkpoint> {
    match checkpoint
    case None => None
    case Some(c) => Some(c.(summaryDirty := true))
  }

  function CountOr1(rows: Rows, url: string): nat {
    if url in rows then rows[url].versionCount else 1
  }

  /** Upserts one result, replacing every row with its URL or a colliding tracking id. */
  function SaveRow(w: Environment, rows: Rows, url: string, report: Report): Rows {
    var kept := map u | u in rows && u != url && !Claims(w, report.trackingId, rows[u].report.trackingId) :: rows[u];
    kept[url := Row(report, CountOr1(rows, url))]
  }

  function SaveDocument(w: Environment, s: Results, x: Inputs): Results {
    s.(rows := SaveRow(w, s.rows, PathUrl(x.path), Validate(w, x)), checkpoint := Dirtied(s.checkpoint))
  }

  /** Deletes one page of URLs; only URLs that had a row dirty the summary. */
  function DeleteUrls(s: Results, urls: seq<string>): Results {
    if exists u | u in urls :: u in s.rows
    then s.(rows := s.rows - AsSet(urls), checkpoint := Dirtied(s.checkpoint))
    else s
  }

  function StubReport(w: Environment, f: Failure): Report {
    Report(TrackingIdFromUrl(f.url), None, w.failedChecks(f.error, f.missing), Some(f.error), [], [], [])
  }

  predicate AlreadyFailed(w: Environment, rows: Rows, f: Failure) {
    && f.url in rows
    && rows[f.url].report.retrievalError == Some(f.error)
    && rows[f.url].report.checks == w.failedChecks(f.error, f.missing)
  }

  /** Marks an existing row, or inserts a stub for a document never retrieved. */
  function SaveFailure(w: Environment, rows: Rows, f: Failure): Rows {
    if AlreadyFailed(w, rows, f) then rows
    else if f.url in rows then
      var row := rows[f.url];
      rows[f.url := row.(report := row.report.(checks := w.failedChecks(f.error, f.missing), retrievalError := Some(f.error)))]
    else rows[f.url := Row(StubReport(w, f), 1)]
  }

  function SaveFailures(w: Environment, rows: Rows, failures: seq<Failure>): Rows
    decreases |failures|
  {
    if failures == [] then rows else SaveFailures(w, SaveFailure(w, rows, failures[0]), failures[1..])
  }

  predicate FailuresChange(w: Environment, rows: Rows, failures: seq<Failure>)
    decreases |failures|
  {
    failures != []
    && (!AlreadyFailed(w, rows, failures[0]) || FailuresChange(w, SaveFailure(w, rows, failures[0]), failures[1..]))
  }

  function SaveRetrievalErrors(w: Environment, s: Results, failures: seq<Failure>): Results {
    s.(rows := SaveFailures(w, s.rows, failures),
       checkpoint := if FailuresChange(w, s.rows, failures) then Dirtied(s.checkpoint) else s.checkpoint)
  }

  // The four statements that delete all documents; each commits on its own.

  function DropFailures(s: Results): Results {
    s.(rows := map u | u in s.rows :: s.rows[u].(report := s.rows[u].report.(failures := [])))
  }

  function DropVulnerabilities(s: Results): Results {
    s.(rows := map u | u in s.rows :: s.rows[u].(report := s.rows[u].report.(vulnerabilities := [])))
  }

  function DropRevisions(s: Results): Results {
    s.(rows := map u | u in s.rows :: s.rows[u].(report := s.rows[u].report.(revisions := [])))
  }

  function DropDocuments(s: Results): Results {
    s.(rows := map[])
  }

  // Version recording, one transaction.

  /** First commit a recording pass scans: after `since`, or the whole history. */
  function ScanFrom(chain: Chain, since: Option<string>): (lo: nat)
    ensures lo <= |chain|
  {
    match since
    case None => 0
    case Some(id) => match IndexOf(chain, id) case Some(i) => i + 1 case None => 0
  }

  /** URLs with a version in commits `lo..`. */
  ghost function TouchedUrls(chain: Chain, lo: nat): set<string> {
    set j: nat, p | lo <= j < |chain| && p in StepChanges(chain, j) && Adds(chain, j, p) :: PathUrl(p)
  }

  /** Sets version counts from recorded versions; where none is recorded the count stays. */
  ghost function RefreshCounts(rows: Rows, versions: seq<Version>, urls: Option<set<string>>): Rows {
    map u | u in rows ::
      if (urls.None? || u in urls.value) && Count(versions, u) > 0
      then rows[u].(versionCount := Count(versions, u)) else rows[u]
  }

  function RecordedTable(w: Environment, chain: Chain, versions: seq<Version>, since: Option<string>): seq<Version> {
    InsertCommits(w.order, chain, if since.None? then [] else versions, ScanFrom(chain, since), |chain|)
  }

  ghost function RecordVersions(w: Environment, chain: Chain, s: Results, since: Option<string>): Results {
    var versions := RecordedTable(w, chain, s.versions, since);
    s.(versions := versions,
       rows := RefreshCounts(s.rows, versions, if since.None? then None else Some(TouchedUrls(chain, ScanFrom(chain, since)))))
  }
}
