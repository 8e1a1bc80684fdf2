/** What each phase of a pass does to the stored results, interrupted or not. */
module Phases {
  import opened Wrappers
  import opened Strings
  import opened Paths
  import opened PathSets
  import opened History
  import opened World
  import opened Versions
  import opened Selection
  import opened Store
  import opened Pass
  import opened Invariant

  /** Results changed by transactions that mark the summary dirty whenever a report changes. */
  ghost predicate Writes(s: Results, t: Results) {
    && t.versions == s.versions && t.summary == s.summary
    && (t.checkpoint == Dirtied(s.checkpoint) || (t.checkpoint == s.checkpoint && Aggregate(t.rows) == Aggregate(s.rows)))
  }

  lemma WritesTransitive(s: Results, t: Results, u: Results)
    requires Writes(s, t) && Writes(t, u)
    ensures Writes(s, u)
  {
  }

  lemma WritesKeepSummaryFresh(s: Results, t: Results)
    requires SummaryFresh(s) && Writes(s, t)
    ensures SummaryFresh(t)
  {
  }

  /** A phase that ends either dead part-way or alive and complete. */
  ghost predicate Continues(r: Run, after: Run) {
    (after.alive ==> r.alive) && (!r.alive ==> after == r)
  }

  // ---------------------------------------------------------------- deletion

  /** `after` lacks some of `urls` and is otherwise `before`. */
  ghost predicate Shrunk(before: Rows, after: Rows, urls: set<string>) {
    && after.Keys <= before.Keys
    && (forall u | u in after :: after[u] == before[u])
    && (forall u | u in before && u !in urls :: u in after)
  }

  lemma {:induction false} DeletePagesSpec(r: Run, urls: seq<string>)
    ensures var t := DeletePages(r, urls);
            && Continues(r, t) && Writes(r.results, t.results)
            && Shrunk(r.results.rows, t.results.rows, AsSet(urls))
            && (t.alive ==> t.results.rows == r.results.rows - AsSet(urls))
    decreases |urls|
  {
    if urls != [] {
      var n := if |urls| <= PATH_BATCH then |urls| else PATH_BATCH;
      var page, rest := urls[..n], urls[n..];
      assert urls == page + rest;
      var deleted := DeleteUrls(r.results, page);
      var next := Transact(r, deleted);
      assert deleted.rows == r.results.rows - AsSet(page);
      assert Writes(r.results, next.results);
      DeletePagesSpec(next, rest);
      var t := DeletePages(next, rest);
      WritesTransitive(r.results, next.results, t.results);
      assert AsSet(urls) == AsSet(page) + AsSet(rest);
    }
  }

  /** A URL the selection deletes belongs to an advisory that changed. */
  lemma DeletedChanged(chain: Chain, changes: set<string>, p: string)
    requires |chain| > 0
    ensures PathUrl(p) in SelectedDeleted(chain, changes)
            ==> p in changes && IsAdvisory(p) && GetPath(Head(chain), p) == Missing
  {
    if PathUrl(p) in SelectedDeleted(chain, changes) {
      var q :| q in changes && IsAdvisory(q) && GetPath(Head(chain), q) == Missing && PathUrl(q) == PathUrl(p);
      PathUrlInjective(p, q);
    }
  }

  /** Deleting advisories that changed and are gone keeps what the invariant says about the rest. */
  lemma ShrunkKeepsConsistent(w: Environment, chain: Chain, i: nat, legacy: bool, s: Results, t: Results)
    requires i < |chain| && Consistent(w, chain, i, legacy, s)
    requires t.versions == s.versions && Shrunk(s.rows, t.rows, SelectedDeleted(chain, Changes(chain, i)))
    ensures Consistent(w, chain, i, legacy, t)
  {
    hide IsAdvisory, Changes, SelectedDeleted, VersionsAhead, HasCount, VersionsOf, Count;
    forall p | p in chain[i].tree && IsAdvisory(p) && p !in Changes(chain, i)
      ensures PathUrl(p) in t.rows && t.rows[PathUrl(p)] == s.rows[PathUrl(p)]
    {
      DeletedChanged(chain, Changes(chain, i), p);
      assert PathUrl(p) in s.rows;
    }
    if Covered(w, chain, i, s.rows) { SameRowsKeepCovered(w, chain, i, s.rows, t.rows); }
  }

  lemma SameRowsKeepCovered(w: Environment, chain: Chain, i: nat, before: Rows, after: Rows)
    requires i < |chain| && Covered(w, chain, i, before)
    requires forall p | p in chain[i].tree && IsAdvisory(p) && p !in Changes(chain, i) ::
               PathUrl(p) in before ==> PathUrl(p) in after && after[PathUrl(p)].versionCount == before[PathUrl(p)].versionCount
    ensures Covered(w, chain, i, after)
  {
    hide IsAdvisory, Changes, VersionsOf, Count;
    forall p | p in chain[i].tree && IsAdvisory(p) && p !in Changes(chain, i)
      ensures HasCount(w, chain, i + 1, after, p)
    {
      assert HasCount(w, chain, i + 1, before, p);
    }
  }

  // ---------------------------------------------------------------- validation

  function Urls(paths: set<string>): set<string> {
    set p | p in paths :: PathUrl(p)
  }

  /** `rows` is `base` with exactly the documents `visited` freshly validated against `tree`. */
  ghost predicate Revalidated(w: Environment, tree: Tree, fingerprint: string, visited: set<string>, base: Rows, rows: Rows)
    requires forall p | p in visited :: p in tree
  {
    && rows.Keys == base.Keys + Urls(visited)
    && (forall p | p in visited ::
          PathUrl(p) in rows
          && rows[PathUrl(p)] == Row(Validate(w, InputsAt(tree, p, fingerprint)), CountOr1(base, PathUrl(p))))
    && (forall u | u in base && u !in Urls(visited) :: u in rows && rows[u] == base[u])
  }

  ghost predicate CarriesAll(w: Environment, tree: Tree, fingerprint: string, docs: set<string>)
    requires forall p | p in docs :: p in tree
  {
    forall p | p in docs :: w.carries(PathUrl(p), Validate(w, InputsAt(tree, p, fingerprint)).trackingId)
  }

  /** Saving a document replaces only its own row when no other URL collides with it. */
  lemma SaveRowReplacesOne(w: Environment, rows: Rows, url: string, report: Report)
    requires Separated(w) && Carried(w, rows) && w.carries(url, report.trackingId)
    ensures SaveRow(w, rows, url, report) == rows[url := Row(report, CountOr1(rows, url))]
    ensures Carried(w, SaveRow(w, rows, url, report))
  {
    assert forall u | u in rows && u != url :: !Claims(w, report.trackingId, rows[u].report.trackingId);
  }

  lemma RevalidatedOneMore(w: Environment, tree: Tree, fingerprint: string, visited: set<string>, base: Rows, rows: Rows, p: string)
    requires p in tree && p !in visited && forall q | q in visited :: q in tree
    requires Revalidated(w, tree, fingerprint, visited, base, rows)
    ensures var report := Validate(w, InputsAt(tree, p, fingerprint));
            Revalidated(w, tree, fingerprint, visited + {p}, base, rows[PathUrl(p) := Row(report, CountOr1(rows, PathUrl(p)))])
  {
    assert Urls(visited + {p}) == Urls(visited) + {PathUrl(p)};
    if PathUrl(p) in Urls(visited) {
      var q :| q in visited && PathUrl(q) == PathUrl(p);
      PathUrlInjective(p, q);
    }
    forall q | q in visited ensures PathUrl(q) != PathUrl(p) {
      if PathUrl(q) == PathUrl(p) { PathUrlInjective(p, q); }
    }
  }

  lemma RevalidatedStores(w: Environment, tree: Tree, fingerprint: string, visited: set<string>, base: Rows, rows: Rows)
    requires forall p | p in visited :: p in tree
    requires Revalidated(w, tree, fingerprint, visited, base, rows)
    ensures forall p | p in visited ::
              "https://" + p in rows && StoresValidation(w, tree, fingerprint, p, rows["https://" + p].report)
  {
    hide StoresValidation, Validate, InputsAt;
    forall p | p in visited ensures "https://" + p in rows && StoresValidation(w, tree, fingerprint, p, rows["https://" + p].report) {
      assert PathUrl(p) in rows;
      ValidateStores(w, tree, p, fingerprint);
    }
  }

  lemma {:induction false} ValidateAllSpec(w: Environment, tree: Tree, fingerprint: string, docs: set<string>,
                                           walk: seq<string>, v: Visit, base: Rows)
    requires Separated(w) && forall p | p in docs :: p in tree
    requires CarriesAll(w, tree, fingerprint, docs)
    requires v.visited <= docs && Carried(w, v.run.results.rows)
    requires Revalidated(w, tree, fingerprint, v.visited, base, v.run.results.rows)
    ensures var t := ValidateAll(w, tree, fingerprint, docs, walk, v);
            && Continues(v.run, t.run) && Writes(v.run.results, t.run.results)
            && t.visited <= docs && Carried(w, t.run.results.rows)
            && Revalidated(w, tree, fingerprint, t.visited, base, t.run.results.rows)
            && (forall p | p in t.visited ::
                  "https://" + p in t.run.results.rows
                  && StoresValidation(w, tree, fingerprint, p, t.run.results.rows["https://" + p].report))
    decreases |walk|
  {
    hide StoresValidation;
    RevalidatedStores(w, tree, fingerprint, v.visited, base, v.run.results.rows);
    if walk != [] && v.run.alive {
      var p := walk[0];
      if p in docs && p !in v.visited {
        var rows, report := v.run.results.rows, Validate(w, InputsAt(tree, p, fingerprint));
        SaveRowReplacesOne(w, rows, PathUrl(p), report);
        RevalidatedOneMore(w, tree, fingerprint, v.visited, base, rows, p);
        var saved := SaveDocument(w, v.run.results, InputsAt(tree, p, fingerprint));
        var next := Transact(v.run, saved);
        var v1 := Visit(next, if next.alive then v.visited + {p} else v.visited);
        ValidateAllSpec(w, tree, fingerprint, docs, walk[1..], v1, base);
        WritesTransitive(v.run.results, next.results, ValidateAll(w, tree, fingerprint, docs, walk[1..], v1).run.results);
      } else {
        ValidateAllSpec(w, tree, fingerprint, docs, walk[1..], v, base);
      }
    }
  }

  lemma RevalidatedKeepsTraced(w: Environment, chain: Chain, i: nat, fingerprint: string, visited: set<string>, before: Rows, after: Rows)
    requires i < |chain| && Traced(w, chain, i, before)
    requires forall p | p in visited :: p in Head(chain) && IsAdvisory(p)
    requires Revalidated(w, Head(chain), fingerprint, visited, before, after)
    ensures Traced(w, chain, i, after)
  {
    hide IsAdvisory, AdvisoryPath;
    forall u | u in after && !Marked(after[u]) ensures TracedRow(w, chain, i, u, after[u]) {
      if u in Urls(visited) {
        var p :| p in visited && u == PathUrl(p);
        if p !in Touched(chain, i) { UntouchedKeepsInputs(w, chain, i, |chain| - 1, p, fingerprint); }
      }
    }
  }

  lemma RevalidatedKeepsCounts(w: Environment, tree: Tree, fingerprint: string, visited: set<string>, before: Rows, after: Rows, u: string)
    requires forall p | p in visited :: p in tree
    requires Revalidated(w, tree, fingerprint, visited, before, after) && u in before
    ensures u in after && after[u].versionCount == before[u].versionCount
  {
    hide Validate, InputsAt;
    if u in Urls(visited) {
      var q :| q in visited && u == PathUrl(q);
    }
  }

  lemma RevalidatedKeepsConsistent(w: Environment, chain: Chain, i: nat, legacy: bool, fingerprint: string, visited: set<string>,
                                   s: Results, t: Results)
    requires i < |chain| && Consistent(w, chain, i, legacy, s) && t.versions == s.versions && Carried(w, t.rows)
    requires forall p | p in visited :: p in Head(chain) && IsAdvisory(p)
    requires Revalidated(w, Head(chain), fingerprint, visited, s.rows, t.rows)
    ensures Consistent(w, chain, i, legacy, t)
  {
    hide IsAdvisory, Changes, VersionsAhead, HasCount, VersionsOf, Count, Traced, Validate, InputsAt;
    RevalidatedKeepsTraced(w, chain, i, fingerprint, visited, s.rows, t.rows);
    forall u | u in s.rows ensures u in t.rows && t.rows[u].versionCount == s.rows[u].versionCount {
      RevalidatedKeepsCounts(w, Head(chain), fingerprint, visited, s.rows, t.rows, u);
    }
    if Covered(w, chain, i, s.rows) { SameRowsKeepCovered(w, chain, i, s.rows, t.rows); }
  }

  // ---------------------------------------------------------------- version recording

  ghost predicate SameReports(before: Rows, after: Rows) {
    after.Keys == before.Keys && forall u | u in before :: after[u].report == before[u].report
  }

  lemma SameReportsKeepTraced(w: Environment, chain: Chain, i: nat, before: Rows, after: Rows)
    requires i < |chain| && SameReports(before, after) && Carried(w, before)
    ensures Carried(w, after)
    ensures Traced(w, chain, i, before) ==> Traced(w, chain, i, after)
    ensures Aggregate(after) == Aggregate(before)
  {
    if Traced(w, chain, i, before) {
      forall u | u in after && !Marked(after[u]) ensures TracedRow(w, chain, i, u, after[u]) {
        assert TracedRow(w, chain, i, u, before[u]);
      }
    }
  }

  lemma RecordedFromScratch(w: Environment, chain: Chain, versions: seq<Version>)
    requires Enumerates(w.order) && ValidChain(chain)
    ensures RecordedTable(w, chain, versions, None) == VersionsOf(w.order, chain, |chain|)
  {
    IncrementalIsRebuild(w.order, chain, 0, 0);
  }

  lemma ScanFromKnown(chain: Chain, i: nat)
    requires ValidChain(chain) && i < |chain|
    ensures ScanFrom(chain, Some(chain[i].id)) == i + 1
  {
    IndexOfUnique(chain, i);
  }

  lemma RecordedAfter(w: Environment, chain: Chain, versions: seq<Version>, since: Option<string>, lo: nat, k: nat)
    requires Enumerates(w.order) && ValidChain(chain) && since.Some? && ScanFrom(chain, since) == lo <= k <= |chain|
    requires versions == VersionsOf(w.order, chain, k)
    ensures RecordedTable(w, chain, versions, since) == VersionsOf(w.order, chain, |chain|)
  {
    IncrementalIsRebuild(w.order, chain, lo, k);
  }

  lemma RecordedSince(w: Environment, chain: Chain, i: nat, versions: seq<Version>)
    requires Enumerates(w.order) && ValidChain(chain) && i < |chain| && VersionsAhead(w, chain, i, versions)
    ensures RecordedTable(w, chain, versions, Some(chain[i].id)) == VersionsOf(w.order, chain, |chain|)
  {
    ScanFromKnown(chain, i);
    var k :| i < k <= |chain| && versions == VersionsOf(w.order, chain, k);
    RecordedAfter(w, chain, versions, Some(chain[i].id), i + 1, k);
  }

  /** Version counts of the head's advisories are right. */
  ghost predicate Counted(w: Environment, chain: Chain, rows: Rows)
    requires |chain| > 0
  {
    var k := |chain|;
    forall p {:trigger HasCount(w, chain, k, rows, p)} | p in Head(chain) && IsAdvisory(p) && PathUrl(p) in rows ::
      HasCount(w, chain, k, rows, p)
  }

  /** Head advisories the incremental refresh skips did not change content since the checkpoint. */
  lemma ChangedHeadIsRefreshed(chain: Chain, i: nat, p: string)
    requires i < |chain| && p in Head(chain) && IsAdvisory(p) && p in Changes(chain, i)
    ensures PathUrl(p) in TouchedUrls(chain, i + 1)
  {
    var j := LastWrite(chain, |chain|, p);
    var k: nat :| i < k < |chain| && p in StepChanges(chain, k);
    assert j > i && Adds(chain, j, p);
  }

  lemma UnchangedCount(w: Environment, chain: Chain, i: nat, rows: Rows, p: string)
    requires Enumerates(w.order) && i < |chain|
    requires p !in Changes(chain, i)
    ensures HasCount(w, chain, i + 1, rows, p) <==> HasCount(w, chain, |chain|, rows, p)
  {
    CountSince(w.order, chain, i, |chain|, p);
  }

  lemma RefreshedCount(w: Environment, chain: Chain, rows: Rows, urls: Option<set<string>>, p: string)
    requires Enumerates(w.order) && |chain| > 0 && p in Head(chain) && IsAdvisory(p) && PathUrl(p) in rows
    requires urls.None? || PathUrl(p) in urls.value || HasCount(w, chain, |chain|, rows, p)
    ensures HasCount(w, chain, |chain|, RefreshCounts(rows, VersionsOf(w.order, chain, |chain|), urls), p)
  {
    PresentIsCounted(w.order, chain, |chain|, p);
  }

  /** After recording, the table is the full rebuild. */
  lemma RecordedIsRebuild(w: Environment, chain: Chain, i: nat, s: Results, since: Option<string>)
    requires Enumerates(w.order) && ValidChain(chain) && i < |chain|
    requires since == None || (since == Some(chain[i].id) && VersionsAhead(w, chain, i, s.versions))
    ensures RecordVersions(w, chain, s, since).versions == VersionsOf(w.order, chain, |chain|)
    ensures since.Some? ==> ScanFrom(chain, since) == i + 1
  {
    if since == None { RecordedFromScratch(w, chain, s.versions); } else { ScanFromKnown(chain, i); RecordedSince(w, chain, i, s.versions); }
  }

  /** After recording, every head count is right. */
  lemma RecordedCounts(w: Environment, chain: Chain, i: nat, s: Results, since: Option<string>)
    requires Enumerates(w.order) && ValidChain(chain) && i < |chain|
    requires since == None
             || (since == Some(chain[i].id) && VersionsAhead(w, chain, i, s.versions) && Covered(w, chain, i, s.rows))
    ensures Counted(w, chain, RecordVersions(w, chain, s, since).rows)
  {
    hide VersionsOf, Count, Changes, IsAdvisory;
    RecordedIsRebuild(w, chain, i, s, since);
    var urls := if since.None? then None else Some(TouchedUrls(chain, i + 1));
    forall p | p in Head(chain) && IsAdvisory(p) && PathUrl(p) in s.rows
      ensures HasCount(w, chain, |chain|, RecordVersions(w, chain, s, since).rows, p)
    {
      if since.Some? {
        if p in Changes(chain, i) {
          ChangedHeadIsRefreshed(chain, i, p);
        } else {
          UnchangedOutside(chain, i, p, |chain| - 1);
          assert HasCount(w, chain, i + 1, s.rows, p);
          UnchangedCount(w, chain, i, s.rows, p);
        }
      }
      RefreshedCount(w, chain, s.rows, urls, p);
    }
  }

  lemma SameReportsKeepStocked(chain: Chain, i: nat, before: Rows, after: Rows)
    requires i < |chain| && Stocked(chain, i, before) && SameReports(before, after)
    ensures Stocked(chain, i, after)
  {
    hide Changes, IsAdvisory;
  }

  lemma RecordedKeepsCovered(w: Environment, chain: Chain, i: nat, rows: Rows, recorded: Rows)
    requires Enumerates(w.order) && i < |chain|
    requires Stocked(chain, i, rows) && recorded.Keys == rows.Keys && Counted(w, chain, recorded)
    ensures Covered(w, chain, i, recorded)
  {
    forall p | p in chain[i].tree && IsAdvisory(p) && p !in Changes(chain, i)
      ensures HasCount(w, chain, i + 1, recorded, p)
    {
      UnchangedOutside(chain, i, p, |chain| - 1);
      assert PathUrl(p) in rows;
      assert HasCount(w, chain, |chain|, recorded, p);
      UnchangedCount(w, chain, i, recorded, p);
    }
  }

  // ---------------------------------------------------------------- retrieval failures

  ghost predicate CarriesFailures(w: Environment, failures: seq<Failure>) {
    forall f | f in failures :: w.carries(f.url, TrackingIdFromUrl(f.url))
  }

  function FailedSet(failures: seq<Failure>): set<string> {
    set f | f in failures :: f.url
  }

  /** `after` is `before` with exactly the failed URLs marked; counts and tracking ids are kept. */
  ghost predicate Failed(w: Environment, before: Rows, after: Rows, failures: seq<Failure>) {
    && after.Keys == before.Keys + FailedSet(failures)
    && (forall u | u in before ::
          after[u].versionCount == before[u].versionCount
          && after[u].report.trackingId == before[u].report.trackingId
          && after[u].report.columns == before[u].report.columns
          && (u !in FailedSet(failures) ==> after[u] == before[u]))
    && (forall u | u in FailedSet(failures) ::
          Marked(after[u]) && (u !in before ==> w.carries(u, after[u].report.trackingId)))
  }

  lemma FailedTransitive(w: Environment, a: Rows, b: Rows, c: Rows, f: Failure, rest: seq<Failure>)
    requires Failed(w, a, b, [f]) && Failed(w, b, c, rest)
    ensures Failed(w, a, c, [f] + rest)
  {
    assert f in [f];
    assert forall g :: g in [f] + rest <==> g == f || g in rest;
    assert FailedSet([f] + rest) == {f.url} + FailedSet(rest);
  }

  lemma SaveFailureSpec(w: Environment, rows: Rows, f: Failure)
    requires w.carries(f.url, TrackingIdFromUrl(f.url))
    ensures Failed(w, rows, SaveFailure(w, rows, f), [f])
  {
    assert f in [f];
    assert FailedSet([f]) == {f.url};
  }

  lemma {:induction false} SaveFailuresSpec(w: Environment, rows: Rows, failures: seq<Failure>)
    requires CarriesFailures(w, failures)
    ensures Failed(w, rows, SaveFailures(w, rows, failures), failures)
    ensures !FailuresChange(w, rows, failures) ==> SaveFailures(w, rows, failures) == rows
    decreases |failures|
  {
    if failures != [] {
      var f := failures[0];
      assert f in failures;
      var next := SaveFailure(w, rows, f);
      assert forall g | g in failures[1..] :: g in failures;
      SaveFailureSpec(w, rows, f);
      SaveFailuresSpec(w, next, failures[1..]);
      FailedTransitive(w, rows, next, SaveFailures(w, next, failures[1..]), f, failures[1..]);
      assert failures == [f] + failures[1..];
    }
  }

  lemma SaveFailureKeepsError(w: Environment, rows: Rows, f: Failure, url: string)
    ensures f.url != url && url in rows ==> url in SaveFailure(w, rows, f) && SaveFailure(w, rows, f)[url] == rows[url]
    ensures var row := SaveFailure(w, rows, f);
            f.url in row && row[f.url].report.retrievalError == Some(f.error)
            && row[f.url].report.checks == w.failedChecks(f.error, f.missing)
  {
  }

  lemma {:induction false} OthersKeepError(w: Environment, rows: Rows, failures: seq<Failure>, url: string)
    requires url in rows && forall f | f in failures :: f.url != url
    ensures url in SaveFailures(w, rows, failures) && SaveFailures(w, rows, failures)[url] == rows[url]
    decreases |failures|
  {
    hide SaveFailure;
    if failures != [] {
      assert failures[0] in failures;
      SaveFailureKeepsError(w, rows, failures[0], url);
      OthersKeepError(w, SaveFailure(w, rows, failures[0]), failures[1..], url);
    }
  }

  /** A failed URL ends with the error, and the outcome, of its last failure. */
  lemma {:induction false} LastErrorIsKept(w: Environment, rows: Rows, failures: seq<Failure>, k: nat)
    requires k < |failures| && forall j | k < j < |failures| :: failures[j].url != failures[k].url
    ensures var f, after := failures[k], SaveFailures(w, rows, failures);
            f.url in after && after[f.url].report.retrievalError == Some(f.error)
            && after[f.url].report.checks == w.failedChecks(f.error, f.missing)
    decreases |failures|
  {
    hide SaveFailure;
    var next := SaveFailure(w, rows, failures[0]);
    if k == 0 {
      SaveFailureKeepsError(w, rows, failures[0], failures[0].url);
      OthersKeepError(w, next, failures[1..], failures[0].url);
    } else {
      assert forall j | 0 <= j < |failures| - 1 :: failures[1..][j] == failures[j + 1];
      LastErrorIsKept(w, next, failures[1..], k - 1);
    }
  }

  /** A failed URL without a row gets one that holds nothing but its name and the failure. */
  lemma {:induction false} StubsHoldNothing(w: Environment, rows: Rows, failures: seq<Failure>, url: string)
    requires url in FailedSet(failures) && (url in rows ==> IsStub(rows[url], url))
    ensures url in SaveFailures(w, rows, failures) && IsStub(SaveFailures(w, rows, failures)[url], url)
    decreases |failures|
  {
    hide TrackingIdFromUrl;
    var f := failures[0];
    var next := SaveFailure(w, rows, f);
    assert f.url == url ==> IsStub(next[url], url);
    assert f.url != url ==> (url in next <==> url in rows) && (url in rows ==> next[url] == rows[url]);
    if url in FailedSet(failures[1..]) {
      StubsHoldNothing(w, next, failures[1..], url);
    } else {
      assert forall g | g in failures :: g == f || g in failures[1..];
      forall g | g in failures[1..] ensures g.url != url { assert g.url in FailedSet(failures[1..]); }
      OthersKeepError(w, next, failures[1..], url);
    }
  }

  predicate IsStub(row: Row, url: string) {
    && row.report.trackingId == TrackingIdFromUrl(url) && row.report.columns == None && row.versionCount == 1
    && row.report.failures == [] && row.report.revisions == [] && row.report.vulnerabilities == []
  }

  lemma FailedKeepsTraced(w: Environment, chain: Chain, i: nat, before: Rows, after: Rows, failures: seq<Failure>)
    requires i < |chain| && Traced(w, chain, i, before) && Failed(w, before, after, failures)
    ensures Traced(w, chain, i, after)
  {
    hide TracedRow;
  }

  lemma FailedKeepsConsistent(w: Environment, chain: Chain, i: nat, legacy: bool, s: Results, t: Results, failures: seq<Failure>)
    requires i < |chain| && Consistent(w, chain, i, legacy, s) && t.versions == s.versions && Carried(w, t.rows)
    requires Failed(w, s.rows, t.rows, failures)
    ensures Consistent(w, chain, i, legacy, t)
  {
    hide IsAdvisory, Changes, VersionsAhead, HasCount, VersionsOf, Count, Traced;
    FailedKeepsTraced(w, chain, i, s.rows, t.rows, failures);
    if Covered(w, chain, i, s.rows) { SameRowsKeepCovered(w, chain, i, s.rows, t.rows); }
  }
}
