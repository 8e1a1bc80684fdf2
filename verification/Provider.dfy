/** One provider's database and summary file, changed in place the way the pipeline does. */
module Provider {
  import opened Wrappers
  import opened Strings
  import opened Paths
  import opened PathSets
  import opened History
  import opened World
  import opened Versions
  import opened Selection
  import opened Store
  import opened Tables

  /** Rows per multi-row insert, and URLs per count refresh. */
  const INSERT_CHUNK: nat := 500
  const URL_CHUNK: nat := 500

  // ---------------------------------------------------------------- emptied tables as rows

  lemma EmptiedFailures(s: Results, t: Tables)
    requires s.rows == RowsOf(t)
    ensures DropFailures(s).rows == RowsOf(t.(failures := []))
  {
  }

  lemma EmptiedVulnerabilities(s: Results, t: Tables)
    requires s.rows == RowsOf(t)
    ensures DropVulnerabilities(s).rows == RowsOf(t.(vulnerabilities := []))
  {
  }

  lemma EmptiedRevisions(s: Results, t: Tables)
    requires s.rows == RowsOf(t)
    ensures DropRevisions(s).rows == RowsOf(t.(revisions := []))
  {
  }

  // ---------------------------------------------------------------- count refreshes

  /** The SELECT ... GROUP BY url of a count refresh. */
  function Counts(versions: seq<Version>, urls: Option<seq<string>>): map<string, nat> {
    map v | v in versions && (urls.None? || v.url in urls.value) :: v.url := Count(versions, v.url)
  }

  lemma {:induction false} CountPositive(versions: seq<Version>, url: string)
    ensures Count(versions, url) > 0 <==> exists v | v in versions :: v.url == url
  {
    if versions != [] {
      var n := |versions| - 1;
      CountPositive(versions[..n], url);
      assert versions == versions[..n] + [versions[n]];
    }
  }

  /** One refresh statement on the tables is a refresh of those URLs' rows. */
  lemma RefreshStatement(t: Tables, versions: seq<Version>, urls: Option<seq<string>>)
    requires Integrity(t)
    ensures var p := t.(documents := MapDocs(t.documents, Counting(Counts(versions, urls))));
            && Integrity(p)
            && RowsOf(p) == RefreshCounts(RowsOf(t), versions, if urls.None? then None else Some(AsSet(urls.value)))
  {
    hide Integrity, RowsOf, MapDocs, Count;
    var counted := Counts(versions, urls);
    CountIntoRows(t, counted);
    forall u ensures u in counted <==> (urls.None? || u in urls.value) && Count(versions, u) > 0 {
      CountPositive(versions, u);
    }
  }

  /** Refreshing two groups of URLs one after the other is refreshing them together. */
  lemma RefreshTwice(rows: Rows, versions: seq<Version>, a: set<string>, b: set<string>)
    ensures RefreshCounts(RefreshCounts(rows, versions, Some(a)), versions, Some(b)) == RefreshCounts(rows, versions, Some(a + b))
  {
    hide Count;
  }

  lemma RefreshNothing(rows: Rows, versions: seq<Version>)
    ensures RefreshCounts(rows, versions, Some({})) == rows
  {
  }

  // ---------------------------------------------------------------- recorded commits

  function VersionUrls(versions: seq<Version>): seq<string> {
    seq(|versions|, k requires 0 <= k < |versions| => versions[k].url)
  }

  lemma VersionUrlsMembers(versions: seq<Version>)
    ensures forall u :: u in VersionUrls(versions) <==> exists v | v in versions :: v.url == u
  {
    forall v | v in versions ensures v.url in VersionUrls(versions) {
      var k :| 0 <= k < |versions| && versions[k] == v;
      assert VersionUrls(versions)[k] == v.url;
    }
  }

  lemma {:induction false} InsertVersionsAppend(versions: seq<Version>, a: seq<Version>, b: seq<Version>)
    ensures InsertVersions(versions, a + b) == InsertVersions(InsertVersions(versions, a), b)
    decreases |a|
  {
    if a == [] {
      assert a + b == b;
    } else {
      assert (a + b)[1..] == a[1..] + b;
      InsertVersionsAppend(InsertOrIgnore(versions, a[0]), a[1..], b);
    }
  }

  lemma AddedUrl(chain: Chain, lo: nat, hi: nat, j: nat, p: string)
    requires lo <= j < hi && j < |chain| && Adds(chain, j, p)
    ensures PathUrl(p) in TouchedFrom(chain, lo, hi)
  {
    hide IsAdvisory, StepChanges, PathUrl;
    AddsIsChange(chain, j, p);
  }

  lemma AddsIsChange(chain: Chain, j: nat, p: string)
    requires j < |chain| && Adds(chain, j, p)
    ensures p in StepChanges(chain, j)
  {
  }

  lemma TouchedSplit(chain: Chain, lo: nat, j: nat)
    requires lo <= j < |chain|
    ensures TouchedFrom(chain, lo, j + 1) == TouchedFrom(chain, lo, j) + TouchedFrom(chain, j, j + 1)
  {
    hide IsAdvisory, StepChanges, PathUrl, Adds;
  }

  lemma CommitTouches(order: Order, chain: Chain, j: nat)
    requires Enumerates(order) && j < |chain|
    ensures TouchedFrom(chain, j, j + 1) == AsSet(VersionUrls(CommitVersions(order, chain, j)))
  {
    hide IsAdvisory, StepChanges, PathUrl, VersionUrls, CommitVersions, Adds;
    CommitVersionsSpec(order, chain, j);
    var vs := CommitVersions(order, chain, j);
    VersionUrlsMembers(vs);
    forall u ensures u in TouchedFrom(chain, j, j + 1) <==> u in VersionUrls(vs) {
      if u in VersionUrls(vs) {
        var v :| v in vs && v.url == u;
        var p :| Adds(chain, j, p) && v.url == PathUrl(p);
        AddedUrl(chain, j, j + 1, j, p);
      }
    }
  }

  /** The URLs one scanned commit contributes are those of the advisories it adds or modifies. */
  lemma CommitUrls(order: Order, chain: Chain, lo: nat, j: nat)
    requires Enumerates(order) && lo <= j < |chain|
    ensures TouchedFrom(chain, lo, j + 1) == TouchedFrom(chain, lo, j) + AsSet(VersionUrls(CommitVersions(order, chain, j)))
  {
    hide TouchedFrom, VersionUrls, CommitVersions;
    TouchedSplit(chain, lo, j);
    CommitTouches(order, chain, j);
  }

  /** URLs with a version in commits `lo..hi`. */
  ghost function TouchedFrom(chain: Chain, lo: nat, hi: nat): set<string> {
    set j: nat, p | lo <= j < hi && j < |chain| && p in StepChanges(chain, j) && Adds(chain, j, p) :: PathUrl(p)
  }

  lemma TouchedFromAll(chain: Chain, lo: nat)
    ensures TouchedFrom(chain, lo, |chain|) == TouchedUrls(chain, lo)
  {
  }

  /** Walks from the head back to the checkpoint, or to the root when it is never met. */
  method CommitsSince(chain: Chain, since: Option<string>) returns (commits: seq<nat>)
    ensures |commits| == |chain| - ScanFrom(chain, since)
    ensures forall k :: 0 <= k < |commits| ==> commits[k] == |chain| - 1 - k
  {
    commits := [];
    var current := |chain|;
    assert chain[..current] == chain;
    while current > 0
      invariant 0 <= current <= |chain| && |commits| == |chain| - current
      invariant forall k :: 0 <= k < |commits| ==> commits[k] == |chain| - 1 - k
      invariant since.Some? ==> IndexOf(chain, since.value) == IndexOf(chain[..current], since.value)
    {
      assert chain[..current][..current - 1] == chain[..current - 1];
      if since == Some(chain[current - 1].id) {
        return;
      }
      commits := commits + [current - 1];
      current := current - 1;
    }
  }

  // ---------------------------------------------------------------- the database

  /** One transaction's worth of saved documents. */
  function SaveReports(w: Environment, rows: Rows, saved: seq<(string, Report)>): Rows {
    if saved == [] then rows
    else
      var n := |saved| - 1;
      SaveRow(w, SaveReports(w, rows, saved[..n]), saved[n].0, saved[n].1)
  }

  class ProviderStore {
    var documents: seq<Doc>
    var failures: seq<Child>
    var revisions: seq<Child>
    var vulnerabilities: seq<Child>
    var nextId: nat
    var versions: seq<Version>
    var checkpoint: Option<Checkpoint>
    var summary: Option<map<string, Report>>

    ghost function DocumentTables(): Tables
      reads this
    {
      Tables(documents, failures, revisions, vulnerabilities, nextId)
    }

    ghost predicate Valid()
      reads this
    {
      Integrity(DocumentTables())
    }

    /** The results these tables and the summary file stand for. */
    ghost function Stored(): Results
      reads this
    {
      Results(RowsOf(DocumentTables()), versions, checkpoint, summary)
    }

    constructor ()
      ensures Valid() && Stored() == Results(map[], [], None, None)
    {
      documents, failures, revisions, vulnerabilities, nextId := [], [], [], [], 1;
      versions, checkpoint, summary := [], None, None;
    }

    /** UPDATE processing_checkpoint SET summary_dirty = 1. */
    method MarkDirty()
      modifies this`checkpoint
      ensures checkpoint == Dirtied(old(checkpoint))
    {
      if checkpoint.Some? { checkpoint := Some(checkpoint.value.(summaryDirty := true)); }
    }

    /** Deletes documents and everything attached to them. */
    method DeleteIds(ids: set<nat>)
      modifies this`documents, this`failures, this`revisions, this`vulnerabilities
      ensures DocumentTables() == Purge(old(DocumentTables()), ids)
    {
      failures := DeleteChildren(failures, ids);
      revisions := DeleteChildren(revisions, ids);
      vulnerabilities := DeleteChildren(vulnerabilities, ids);
      documents := DeleteDocs(documents, ids);
    }

    /** Inserts one document and its children. */
    method InsertDocument(url: string, report: Report, versionCount: nat)
      modifies this`documents, this`failures, this`revisions, this`vulnerabilities, this`nextId
      ensures DocumentTables() == InsertDoc(old(DocumentTables()), url, report, versionCount)
    {
      documents := documents
        + [Doc(nextId, url, report.trackingId, report.columns, report.checks, report.retrievalError, versionCount)];
      failures := failures + ChildrenOf(nextId, report.failures);
      revisions := revisions + ChildrenOf(nextId, report.revisions);
      vulnerabilities := vulnerabilities + ChildrenOf(nextId, report.vulnerabilities);
      nextId := nextId + 1;
    }

    /** Upserts validation results in one transaction. */
    method SaveDocuments(w: Environment, saved: seq<(string, Report)>)
      requires Valid()
      modifies this
      ensures Valid()
      ensures Stored() == old(Stored()).(rows := SaveReports(w, old(Stored()).rows, saved),
                                         checkpoint := if saved == [] then old(checkpoint) else Dirtied(old(checkpoint)))
    {
      hide Integrity, RowsOf, Purge, InsertDoc, SaveRow, ReplacedIds;
      for i := 0 to |saved|
        invariant Valid()
        invariant RowsOf(DocumentTables()) == SaveReports(w, old(Stored()).rows, saved[..i])
        invariant versions == old(versions) && checkpoint == old(checkpoint) && summary == old(summary)
      {
        var (url, report) := saved[i];
        ghost var before := DocumentTables();
        SaveIntoRows(w, before, url, report);
        var previous := FindUrl(documents, url);
        var ids := ReplacedIds(w, documents, url, report.trackingId);
        if ids != {} {
          DeleteIds(ids);
        } else {
          PurgeNothing(before);
        }
        InsertDocument(url, report, if previous.Some? then previous.value.versionCount else 1);
        assert saved[..i + 1][..i] == saved[..i];
      }
      assert saved[..|saved|] == saved;
      if saved != [] { MarkDirty(); }
    }

    /** Records retrieval failures in one transaction; reports whether any result changed. */
    method SaveRetrievalErrors(w: Environment, errors: seq<Failure>) returns (changed: bool)
      requires Valid()
      modifies this
      ensures Valid()
      ensures Stored() == Store.SaveRetrievalErrors(w, old(Stored()), errors)
      ensures changed <==> FailuresChange(w, old(Stored()).rows, errors)
    {
      hide Integrity, RowsOf, InsertDoc, MapDocs, SaveFailure, AlreadyFailed, Failing;
      changed := false;
      var i := 0;
      while i < |errors|
        invariant 0 <= i <= |errors|
        invariant Valid()
        invariant versions == old(versions) && checkpoint == old(checkpoint) && summary == old(summary)
        invariant SaveFailures(w, RowsOf(DocumentTables()), errors[i..]) == SaveFailures(w, old(Stored()).rows, errors)
        invariant changed || FailuresChange(w, RowsOf(DocumentTables()), errors[i..]) <==> FailuresChange(w, old(Stored()).rows, errors)
      {
        var f := errors[i];
        ghost var before := DocumentTables();
        FailIntoRows(w, before, f);
        SameFailureIff(w, before, f);
        assert errors[i..][1..] == errors[i + 1..];
        var checks := w.failedChecks(f.error, f.missing);
        i := i + 1;
        match FindUrl(documents, f.url) {
          case Some(d) =>
            if d.retrievalError == Some(f.error) && d.checks == checks {
              SameFailureKeepsRows(w, RowsOf(before), f);
              continue;
            }
            documents := MapDocs(documents, Failing(d.id, checks, f.error));
          case None =>
            InsertDocument(f.url, StubReport(w, f), 1);
        }
        changed := true;
      }
      if changed { MarkDirty(); }
    }

    /** Removes the results of URLs deleted from Git in one transaction. */
    method DeleteDocumentUrls(urls: seq<string>)
      requires Valid()
      modifies this
      ensures Valid()
      ensures Stored() == Store.DeleteUrls(old(Stored()), urls)
    {
      hide Integrity, RowsOf, Purge, UrlIds;
      if urls == [] { return; }
      for i := 0 to |urls|
        invariant Valid()
        invariant RowsOf(DocumentTables()) == old(Stored()).rows - AsSet(urls[..i])
        invariant checkpoint == if exists u | u in urls[..i] :: u in old(Stored()).rows then Dirtied(old(checkpoint)) else old(checkpoint)
        invariant versions == old(versions) && summary == old(summary)
      {
        ghost var before := DocumentTables();
        var ids := UrlIds(documents, urls[i]);
        PurgeUrlRows(before, urls[i]);
        SplitLast(urls, i);
        RemovedSoFar(old(Stored()).rows, urls, i);
        if ids == {} {
          continue;
        }
        DeleteIds(ids);
        MarkDirty();
      }
      assert urls[..|urls|] == urls;
      if !(exists u | u in urls :: u in old(Stored()).rows) { NothingRemoved(old(Stored()).rows, urls); }
    }

    // The statements that delete all documents; each commits on its own.

    method DeleteCheckFailures()
      requires Valid()
      modifies this
      ensures Valid() && Stored() == DropFailures(old(Stored())) && failures == []
      ensures documents == old(documents) && revisions == old(revisions) && vulnerabilities == old(vulnerabilities)
    {
      hide RowsOf;
      EmptiedFailures(Stored(), DocumentTables());
      failures := [];
    }

    method DeleteVulnerabilities()
      requires Valid()
      modifies this
      ensures Valid() && Stored() == DropVulnerabilities(old(Stored())) && vulnerabilities == []
      ensures documents == old(documents) && failures == old(failures) && revisions == old(revisions)
    {
      hide RowsOf;
      EmptiedVulnerabilities(Stored(), DocumentTables());
      vulnerabilities := [];
    }

    method DeleteRevisions()
      requires Valid()
      modifies this
      ensures Valid() && Stored() == DropRevisions(old(Stored())) && revisions == []
      ensures documents == old(documents) && failures == old(failures) && vulnerabilities == old(vulnerabilities)
    {
      hide RowsOf;
      EmptiedRevisions(Stored(), DocumentTables());
      revisions := [];
    }

    method DeleteDocuments()
      requires Valid() && failures == [] && vulnerabilities == [] && revisions == []
      modifies this
      ensures Valid() && Stored() == DropDocuments(old(Stored()))
    {
      documents := [];
      assert UrlsOf(documents) == {};
    }

    /** Sets version counts of one group of URLs, or of all. */
    method RefreshVersionCounts(urls: Option<seq<string>>)
      requires Valid()
      modifies this`documents
      ensures Valid()
      ensures Stored() == old(Stored()).(rows :=
        RefreshCounts(old(Stored()).rows, versions, if urls.None? then None else Some(AsSet(urls.value))))
    {
      hide Integrity, RowsOf, MapDocs, RefreshCounts, Counts;
      RefreshStatement(DocumentTables(), versions, urls);
      documents := MapDocs(documents, Counting(Counts(versions, urls)));
    }

    /** Inserts one scanned commit's versions in bounded chunks and notes their URLs. */
    method InsertCommit(added: seq<Version>, touched: seq<string>) returns (now: seq<string>)
      requires Ascending(touched)
      modifies this`versions
      ensures versions == InsertVersions(old(versions), added)
      ensures Ascending(now) && AsSet(now) == AsSet(touched) + AsSet(VersionUrls(added))
    {
      hide Ascending, Less, InsertAll, InsertVersions;
      now := touched;
      var done := 0;
      InsertNoVersions(versions);
      while done < |added|
        invariant 0 <= done <= |added|
        invariant versions == InsertVersions(old(versions), added[..done])
        invariant Ascending(now) && AsSet(now) == AsSet(touched) + AsSet(VersionUrls(added[..done]))
      {
        var next := if done + INSERT_CHUNK <= |added| then done + INSERT_CHUNK else |added|;
        var chunk := added[done..next];
        assert added[..next] == added[..done] + chunk;
        InsertVersionsAppend(old(versions), added[..done], chunk);
        versions := InsertVersions(versions, chunk);
        InsertAllSpec(now, VersionUrls(chunk));
        assert AsSet(InsertAll(now, VersionUrls(chunk))) == AsSet(now) + AsSet(VersionUrls(chunk));
        now := InsertAll(now, VersionUrls(chunk));
        assert VersionUrls(added[..next]) == VersionUrls(added[..done]) + VersionUrls(chunk);
        assert AsSet(VersionUrls(added[..next])) == AsSet(VersionUrls(added[..done])) + AsSet(VersionUrls(chunk));
        done := next;
      }
      assert added[..done] == added;
    }

    /** Records versions from history and refreshes counts, in one transaction. */
    method RecordVersions(w: Environment, chain: Chain, since: Option<string>)
      requires Valid() && Enumerates(w.order)
      modifies this
      ensures Valid()
      ensures Stored() == Store.RecordVersions(w, chain, old(Stored()), since)
    {
      hide Integrity, RowsOf, RefreshCounts, InsertVersions, Ascending, CommitVersions, TouchedFrom, TouchedUrls, InsertCommits;
      var lo := ScanFrom(chain, since);
      if since.None? { versions := []; }
      ghost var first := versions;
      var touched: seq<string> := [];
      NothingTouched(chain, lo);
      NoCommitsInserted(w.order, chain, first, lo);
      var commits := CommitsSince(chain, since);
      for k := |commits| downto 0
        invariant versions == InsertCommits(w.order, chain, first, lo, |chain| - k)
        invariant Ascending(touched) && AsSet(touched) == TouchedFrom(chain, lo, |chain| - k)
        invariant DocumentTables() == old(DocumentTables()) && checkpoint == old(checkpoint) && summary == old(summary)
      {
        var j := commits[k];
        InsertCommitsLast(w.order, chain, first, lo, j);
        CommitUrls(w.order, chain, lo, j);
        var added := CommitVersions(w.order, chain, j);
        if added != [] {
          touched := InsertCommit(added, touched);
        } else {
          InsertNoVersions(versions);
          assert AsSet(VersionUrls(added)) == {};
        }
      }
      TouchedFromAll(chain, lo);
      if since.None? {
        RefreshVersionCounts(None);
      } else {
        RefreshTouched(touched);
      }
    }

    /** Refreshes the touched URLs in bounded chunks. */
    method RefreshTouched(touched: seq<string>)
      requires Valid()
      modifies this`documents
      ensures Valid()
      ensures Stored() == old(Stored()).(rows := RefreshCounts(old(Stored()).rows, versions, Some(AsSet(touched))))
    {
      hide Integrity, RowsOf, RefreshCounts, MapDocs;
      RefreshNothing(RowsOf(DocumentTables()), versions);
      var done := 0;
      assert AsSet(touched[..0]) == {};
      while done < |touched|
        invariant 0 <= done <= |touched| && Valid()
        invariant Stored() == old(Stored()).(rows := RefreshCounts(old(Stored()).rows, versions, Some(AsSet(touched[..done]))))
      {
        var next := if done + URL_CHUNK <= |touched| then done + URL_CHUNK else |touched|;
        var chunk := touched[done..next];
        assert touched[..next] == touched[..done] + chunk;
        assert AsSet(touched[..next]) == AsSet(touched[..done]) + AsSet(chunk);
        RefreshTwice(old(Stored()).rows, versions, AsSet(touched[..done]), AsSet(chunk));
        RefreshVersionCounts(Some(chunk));
        done := next;
      }
      assert touched[..done] == touched;
    }

    /** Drops the checkpoint, so that no later pass builds on it. */
    method ClearProcessingCheckpoint()
      modifies this`checkpoint
      ensures checkpoint == None
    {
      checkpoint := None;
    }

    /** Publishes a checkpoint, which also clears its dirty flag. */
    method SaveProcessingCheckpoint(published: Checkpoint)
      modifies this`checkpoint
      ensures checkpoint == Some(Checkpoint(published.commit, published.fingerprint, false))
    {
      checkpoint := Some(Checkpoint(published.commit, published.fingerprint, false));
    }

    /** Builds the summary from the stored results and writes its file. */
    method SaveSummary()
      modifies this`summary
      ensures summary == Some(Aggregate(Stored().rows))
    {
      summary := Some(Aggregate(RowsOf(Tables(documents, failures, revisions, vulnerabilities, nextId))));
    }

    /** The table holds documents although no version was ever recorded. */
    method VersionsMissing() returns (missing: bool)
      ensures missing <==> Stored().rows != map[] && Stored().versions == []
    {
      missing := documents != [] && versions == [];
      if documents != [] { assert documents[0].url in RowsOf(DocumentTables()); } else { assert UrlsOf(documents) == {}; }
    }

    /** URLs of failed downloads after a cursor, in order, at most one page. */
    method RetrievalErrorUrls(after: string) returns (page: seq<string>)
      ensures page == Page(FailedUrlRows(documents), after)
    {
      page := Page(FailedUrlRows(documents), after);
    }
  }

  function FailedUrlList(documents: seq<Doc>): seq<string> {
    if documents == [] then []
    else
      var n := |documents| - 1;
      FailedUrlList(documents[..n]) + if documents[n].retrievalError.Some? then [documents[n].url] else []
  }

  /** The url index restricted to failed documents. */
  function FailedUrlRows(documents: seq<Doc>): seq<string> {
    InsertAll([], FailedUrlList(documents))
  }

  lemma {:induction false} FailedUrlListSpec(documents: seq<Doc>, u: string)
    ensures u in FailedUrlList(documents) <==> exists d | d in documents :: d.url == u && d.retrievalError.Some?
  {
    if documents != [] {
      var n := |documents| - 1;
      FailedUrlListSpec(documents[..n], u);
      assert documents == documents[..n] + [documents[n]];
    }
  }

  /** The failed URLs are those of the marked rows, in order. */
  lemma FailedUrlRowsSpec(t: Tables)
    requires Integrity(t)
    ensures Ascending(FailedUrlRows(t.documents))
    ensures AsSet(FailedUrlRows(t.documents)) == set u | u in RowsOf(t) && Marked(RowsOf(t)[u])
  {
    InsertAllSpec([], FailedUrlList(t.documents));
    forall u ensures u in FailedUrlRows(t.documents) <==> u in RowsOf(t) && Marked(RowsOf(t)[u]) {
      FailedUrlListSpec(t.documents, u);
      if u in FailedUrlRows(t.documents) {
        var d :| d in t.documents && d.url == u && d.retrievalError.Some?;
        RowAt(t, d);
      }
    }
  }

  lemma SplitLast(urls: seq<string>, i: nat)
    requires i < |urls|
    ensures urls[..i + 1] == urls[..i] + [urls[i]]
  {
  }

  lemma RemovedSoFar(rows: Rows, urls: seq<string>, i: nat)
    requires i < |urls|
    ensures rows - AsSet(urls[..i + 1]) == rows - AsSet(urls[..i]) - {urls[i]}
    ensures urls[i] !in rows - AsSet(urls[..i]) ==> rows - AsSet(urls[..i + 1]) == rows - AsSet(urls[..i])
    ensures (exists u | u in urls[..i + 1] :: u in rows) <==> (exists u | u in urls[..i] :: u in rows) || urls[i] in rows
  {
    SplitLast(urls, i);
    assert AsSet(urls[..i + 1]) == AsSet(urls[..i]) + {urls[i]};
    forall u | u in urls[..i] && u in rows ensures u in urls[..i + 1] {}
    assert urls[i] in urls[..i + 1];
  }

  lemma NothingRemoved(rows: Rows, urls: seq<string>)
    requires forall u | u in urls :: u !in rows
    ensures rows - AsSet(urls) == rows
  {
  }

  lemma InsertNoVersions(versions: seq<Version>)
    ensures InsertVersions(versions, []) == versions
  {
  }

  lemma NothingTouched(chain: Chain, lo: nat)
    ensures Ascending([]) && AsSet([]) == TouchedFrom(chain, lo, lo)
  {
  }

  lemma NoCommitsInserted(order: Order, chain: Chain, versions: seq<Version>, lo: nat)
    requires lo <= |chain|
    ensures InsertCommits(order, chain, versions, lo, lo) == versions
  {
  }

  lemma PurgeNothing(t: Tables)
    ensures Purge(t, {}) == t
  {
    DeleteNoDocs(t.documents);
    DeleteNoChildren(t.failures);
    DeleteNoChildren(t.revisions);
    DeleteNoChildren(t.vulnerabilities);
  }

  lemma {:induction false} DeleteNoDocs(documents: seq<Doc>)
    ensures DeleteDocs(documents, {}) == documents
  {
    hide DeleteDocs;
    if documents == [] {
      DeleteFromNothing(documents);
    } else {
      var front, last := documents[..|documents| - 1], documents[|documents| - 1];
      DeleteNoDocs(front);
      DeleteLast(front, last, {});
      assert front + [last] == documents;
    }
  }

  lemma DeleteFromNothing(documents: seq<Doc>)
    requires documents == []
    ensures DeleteDocs(documents, {}) == []
  {
  }

  lemma DeleteLast(front: seq<Doc>, last: Doc, ids: set<nat>)
    ensures DeleteDocs(front + [last], ids) == DeleteDocs(front, ids) + if last.id in ids then [] else [last]
  {
    var all := front + [last];
    assert all[..|all| - 1] == front;
  }

  lemma {:induction false} DeleteNoChildren(children: seq<Child>)
    ensures DeleteChildren(children, {}) == children
  {
    if children != [] { DeleteNoChildren(children[..|children| - 1]); }
  }

  lemma SameFailureKeepsRows(w: Environment, rows: Rows, f: Failure)
    requires AlreadyFailed(w, rows, f)
    ensures SaveFailure(w, rows, f) == rows
  {
  }
}
