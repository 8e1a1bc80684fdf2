/** The processing pass as the runner performs it: ordered steps over one provider's store, each
    transaction possibly the last one before the process dies. */
module Runner {
  import opened Wrappers
  import opened Strings
  import opened Paths
  import opened PathSets
  import opened History
  import opened World
  import opened Selection
  import opened Store
  import opened Tables
  import opened Provider
  import opened Pass
  import opened Invariant
  import opened Phases

  /** Redownload paths are never empty: they start with a host. */
  ghost predicate HostsInPaths(w: Environment) {
    forall url :: w.gitPath(url) != Some(Some(""))
  }

  class Worker {
    const db: ProviderStore
    /** Transactions the process still lives to commit. */
    var budget: nat
    var alive: bool

    constructor (db: ProviderStore, budget: nat)
      ensures this.db == db && this.budget == budget && alive
    {
      this.db, this.budget, alive := db, budget, true;
    }

    ghost function Progress(): Run
      reads this, db
    {
      Run(db.Stored(), budget, alive)
    }

    /** Whether the process lives to commit its next transaction. */
    method Lives() returns (lives: bool)
      modifies this
      ensures lives == (old(alive) && old(budget) > 0) == alive
      ensures budget == if lives then old(budget) - 1 else old(budget)
    {
      lives := alive && budget > 0;
      alive := lives;
      if lives { budget := budget - 1; }
    }

    /** Deletes all documents, statement by statement. */
    method DeleteAllDocuments()
      requires db.Valid()
      modifies this, db
      ensures db.Valid() && Progress() == DeleteAll(old(Progress()))
    {
      hide Integrity, RowsOf, DropFailures, DropVulnerabilities, DropRevisions, DropDocuments;
      var lives := Lives();
      if !lives { return; }
      db.DeleteCheckFailures();
      lives := Lives();
      if !lives { return; }
      db.DeleteVulnerabilities();
      lives := Lives();
      if !lives { return; }
      db.DeleteRevisions();
      lives := Lives();
      if !lives { return; }
      db.DeleteDocuments();
    }

    /** Deletes the results of removed advisories page by page. */
    method DeleteRemoved(deleted: PathSet)
      requires db.Valid() && deleted.Valid()
      modifies this, db
      ensures db.Valid() && deleted.rows == old(deleted.rows)
      ensures Progress() == DeletePages(old(Progress()), deleted.rows[Skipped(deleted.rows)..])
    {
      hide Integrity, RowsOf, DeleteUrls, Ascending, ReadTo, Page, Rank, Skipped, Less, Transact;
      var cursor := "";
      ghost var rows := deleted.rows;
      ghost var k: nat := Skipped(rows);
      ScanStart(rows);
      var urls := deleted.Batch(cursor);
      while urls != []
        invariant db.Valid() && deleted.rows == rows
        invariant ReadTo(rows, cursor, k) && Skipped(rows) <= k <= |rows|
        invariant urls == Page(rows, cursor)
        invariant DeletePages(Progress(), rows[k..]) == DeletePages(old(Progress()), rows[Skipped(rows)..])
        decreases |rows| - k
      {
        PageAdvances(rows, cursor, k);
        ghost var before := Progress();
        NextPage(rows, k, |urls|);
        TransactShape(before, DeleteUrls(before.results, urls));
        var lives := Lives();
        if !lives {
          DeadDeletesNothing(Progress(), rows[k + |urls|..]);
          return;
        }
        db.DeleteDocumentUrls(urls);
        cursor := urls[|urls| - 1];
        k := k + |urls|;
        urls := deleted.Batch(cursor);
      }
      PageAdvances(rows, cursor, k);
      assert rows[k..] == [];
    }

    /** Saves every extracted document once, in the order the walk meets it. */
    method ValidateProvider(w: Environment, tree: Tree, fingerprint: string, docs: set<string>, walk: seq<string>)
      returns (visited: set<string>)
      requires db.Valid() && forall p | p in docs :: p in tree
      modifies this, db
      ensures db.Valid()
      ensures Visit(Progress(), visited) == ValidateAll(w, tree, fingerprint, docs, walk, Visit(old(Progress()), {}))
      ensures visited <= docs
      ensures Separated(w) && Carried(w, old(db.Stored()).rows) && CarriesAll(w, tree, fingerprint, docs) ==>
                forall p | p in visited ::
                  "https://" + p in db.Stored().rows && StoresValidation(w, tree, fingerprint, p, db.Stored().rows["https://" + p].report)
    {
      hide Integrity, RowsOf, SaveRow, Validate, StoresValidation, Separated, Carried, CarriesAll;
      visited := {};
      for i := 0 to |walk|
        invariant db.Valid() && visited <= docs
        invariant ValidateAll(w, tree, fingerprint, docs, walk[i..], Visit(Progress(), visited))
               == ValidateAll(w, tree, fingerprint, docs, walk, Visit(old(Progress()), {}))
      {
        if !alive { break; }
        assert walk[i..][1..] == walk[i + 1..];
        if walk[i] in docs && walk[i] !in visited {
          var x := InputsAt(tree, walk[i], fingerprint);
          var lives := Lives();
          if !lives { break; }
          ghost var before := db.Stored();
          var saved := [(PathUrl(x.path), Validate(w, x))];
          SaveOne(w, before.rows, saved[0].0, saved[0].1);
          db.SaveDocuments(w, saved);
          visited := visited + {walk[i]};
        }
      }
      VisitedStore(w, tree, fingerprint, docs, walk, old(Progress()));
    }

    /** Records versions when the baseline, a backfill or changed content calls for it. */
    method RecordVersions(w: Environment, chain: Chain, previous: Option<Checkpoint>, baseline: bool, history: PathSet, ghost c: Choice)
      requires db.Valid() && Enumerates(w.order) && history.Valid()
      requires c.baseline == baseline && c.history == history.Contents()
      modifies this, db
      ensures db.Valid() && Progress() == RecordPhase(w, chain, previous, c, old(Progress()))
    {
      hide Integrity, RowsOf, Store.RecordVersions;
      var missing := db.VersionsMissing();
      var backfill := !baseline && missing;
      var none := history.IsEmpty();
      if baseline || backfill || !none {
        var since := if baseline || backfill then None else PreviousCommit(previous);
        var lives := Lives();
        if !lives { return; }
        db.RecordVersions(w, chain, since);
      }
    }

    /** Adds advisories that were downloaded again after a failure; fails on a malformed stored URL. */
    method IncludeRecovered(w: Environment, advisories: PathSet, downloads: set<string>) returns (ok: bool)
      requires db.Valid() && advisories.Valid()
      modifies advisories
      ensures advisories.Valid()
      ensures ok <==> Recovered(w, db.Stored().rows, downloads).Some?
      ensures ok ==> advisories.Contents() == old(advisories.Contents()) + Recovered(w, db.Stored().rows, downloads).value
    {
      hide Integrity, RowsOf, Ascending, ReadTo, Page, Rank, Skipped, Less, FailedUrlRows, Marked, FailedUrls, Recovered, RecoveredPaths;
      var cursor := "";
      ghost var rows := FailedUrlRows(db.documents);
      ghost var k: nat := Skipped(rows);
      FailedUrlRowsSpec(db.DocumentTables());
      DrainedPaths(rows);
      ScanStart(rows);
      FailedUrlsAreMarked(db.Stored().rows, AsSet(rows));
      NothingRecovered(w, downloads);
      ghost var done: set<string> := {};
      var urls := db.RetrievalErrorUrls(cursor);
      while urls != []
        invariant advisories.Valid()
        invariant ReadTo(rows, cursor, k) && Skipped(rows) <= k <= |rows|
        invariant urls == Page(rows, cursor)
        invariant done == AsSet(rows[Skipped(rows)..k])
        invariant forall u | u in done :: w.gitPath(u).Some?
        invariant advisories.Contents() == old(advisories.Contents()) + RecoveredPaths(w, done, downloads)
        decreases |rows| - k
      {
        PageAdvances(rows, cursor, k);
        MorePages(rows, Skipped(rows), k, |urls|);
        ok := IncludePage(w, advisories, urls, downloads);
        if !ok {
          MalformedUrl(w, db.Stored().rows, urls, downloads);
          return;
        }
        RecoveredUnion(w, done, AsSet(urls), downloads);
        done := done + AsSet(urls);
        cursor := urls[|urls| - 1];
        k := k + |urls|;
        urls := db.RetrievalErrorUrls(cursor);
      }
      PageAdvances(rows, cursor, k);
      assert rows[Skipped(rows)..k] == rows[Skipped(rows)..];
      RecoveredFromUrls(w, db.Stored().rows, done, downloads);
      ok := true;
    }

    /** One page of failed URLs. */
    method IncludePage(w: Environment, advisories: PathSet, urls: seq<string>, downloads: set<string>) returns (ok: bool)
      requires advisories.Valid()
      modifies advisories
      ensures advisories.Valid()
      ensures ok <==> forall u | u in urls :: w.gitPath(u).Some?
      ensures ok ==> advisories.Contents() == old(advisories.Contents()) + RecoveredPaths(w, AsSet(urls), downloads)
    {
      hide Ascending, Less;
      for i := 0 to |urls|
        invariant advisories.Valid()
        invariant forall u | u in urls[..i] :: w.gitPath(u).Some?
        invariant advisories.Contents() == old(advisories.Contents()) + RecoveredPaths(w, AsSet(urls[..i]), downloads)
      {
        SplitLast(urls, i);
        assert AsSet(urls[..i + 1]) == AsSet(urls[..i]) + {urls[i]};
        match w.gitPath(urls[i]) {
          case None => return false;
          case Some(path) =>
            RecoveredUnion(w, AsSet(urls[..i]), {urls[i]}, downloads);
            RecoveredOne(w, urls[i], downloads);
            if path.Some? && path.value in downloads {
              advisories.InsertBatch([path.value]);
            }
        }
      }
      assert urls[..|urls|] == urls;
      ok := true;
    }

    /** Extracts the selected documents from the head; None when a selected input cannot be read. */
    method Materialize(tree: Tree, full: bool, advisories: PathSet) returns (docs: Option<set<string>>)
      requires advisories.Valid() && "" !in advisories.Contents()
      ensures docs == Materialized(tree, full, advisories.Contents())
    {
      hide Ascending, ReadTo, Page, Rank, Skipped, Less, IsAdvisory, Readable;
      if full {
        return Some(set p | p in tree && IsAdvisory(p));
      }
      var found: set<string> := {};
      var cursor := "";
      ghost var rows := advisories.rows;
      ghost var k: nat := Skipped(rows);
      ScanStart(rows);
      DrainedPaths(rows);
      assert AsSet(rows[Skipped(rows)..]) == advisories.Contents();
      var paths := advisories.Batch(cursor);
      while paths != []
        invariant ReadTo(rows, cursor, k) && Skipped(rows) <= k <= |rows|
        invariant paths == Page(rows, cursor)
        invariant forall a | a in rows[Skipped(rows)..k] :: Readable(tree, a)
        invariant found == Extractable(tree, AsSet(rows[Skipped(rows)..k]))
        decreases |rows| - k
      {
        PageAdvances(rows, cursor, k);
        MorePages(rows, Skipped(rows), k, |paths|);
        SliceStep(rows, Skipped(rows), k, k + |paths|);
        var page := MaterializePage(tree, paths);
        if page.None? {
          assert exists a :: a in AsSet(rows[Skipped(rows)..]) && !Readable(tree, a);
          return None;
        }
        found := found + page.value;
        cursor := paths[|paths| - 1];
        k := k + |paths|;
        paths := advisories.Batch(cursor);
      }
      PageAdvances(rows, cursor, k);
      assert rows[Skipped(rows)..k] == rows[Skipped(rows)..];
      docs := Some(found);
    }

    method MaterializePage(tree: Tree, paths: seq<string>) returns (docs: Option<set<string>>)
      ensures docs == Materialized(tree, false, AsSet(paths))
    {
      hide IsAdvisory, Readable;
      var found: set<string> := {};
      for i := 0 to |paths|
        invariant forall a | a in paths[..i] :: Readable(tree, a)
        invariant found == Extractable(tree, AsSet(paths[..i]))
      {
        SplitLast(paths, i);
        assert AsSet(paths[..i + 1]) == AsSet(paths[..i]) + {paths[i]};
        if !Readable(tree, paths[i]) {
          assert paths[i] in AsSet(paths);
          return None;
        }
        if IsAdvisory(paths[i]) { found := found + {paths[i]}; }
      }
      assert paths[..|paths|] == paths;
      docs := Some(found);
    }

    /** Writes the failures the pass was given; reports whether any result changed. */
    method SaveFailures(w: Environment, failures: seq<Failure>) returns (changed: bool)
      requires db.Valid()
      modifies this, db
      ensures db.Valid() && Progress() == FailurePhase(w, old(Progress()), failures)
      ensures alive ==> (changed <==> FailuresChange(w, old(Progress()).results.rows, failures))
    {
      hide Integrity, RowsOf, Store.SaveRetrievalErrors;
      changed := false;
      if failures != [] {
        var lives := Lives();
        if !lives { return; }
        changed := db.SaveRetrievalErrors(w, failures);
      }
    }

    /** Rebuilds the summary when results changed or none is published. */
    method PublishSummary(changed: bool)
      requires db.Valid()
      modifies this, db
      ensures db.Valid() && Progress() == SummaryPhase(old(Progress()), changed)
    {
      hide Integrity, RowsOf, Aggregate;
      if changed || db.summary.None? {
        var lives := Lives();
        if !lives { return; }
        db.SaveSummary();
      }
    }

    /** Publishes the checkpoint, the last transaction of a pass. */
    method PublishCheckpoint(checkpoint: Checkpoint)
      requires db.Valid() && !checkpoint.summaryDirty
      modifies this, db
      ensures db.Valid()
      ensures Progress() == Transact(old(Progress()), old(Progress()).results.(checkpoint := Some(checkpoint)))
    {
      hide Integrity, RowsOf;
      var lives := Lives();
      if !lives { return; }
      db.SaveProcessingCheckpoint(checkpoint);
    }

    /** Validation fails when fewer documents were met than extracted. */
    method ValidateSelected(w: Environment, chain: Chain, fingerprint: string, docs: set<string>, walk: seq<string>, ghost c: Choice)
      requires db.Valid() && |chain| > 0 && forall p | p in docs :: p in Head(chain)
      requires fingerprint == c.checkpoint.fingerprint
      modifies this, db
      ensures db.Valid() && Progress() == Validated(w, chain, c, docs, walk, old(Progress()))
    {
      hide Integrity, RowsOf, ValidateAll;
      var visited := ValidateProvider(w, Head(chain), fingerprint, docs, walk);
      if |visited| != |docs| { alive := false; }
    }

    /** Everything after the inputs are extracted. */
    method Process(w: Environment, chain: Chain, previous: Option<Checkpoint>, input: PassInput,
                   selection: ProcessingSelection, docs: set<string>, ghost c: Choice)
      requires db.Valid() && |chain| > 0 && Enumerates(w.order) && forall p | p in docs :: p in Head(chain)
      requires selection.history.Valid() && selection.deleted.Valid() && !selection.checkpoint.summaryDirty
      requires Matches(selection, c)
      modifies this, db
      ensures db.Valid()
      ensures var t := Pass.Process(w, chain, previous, input, c, docs, old(Progress()));
              alive == t.alive && db.Stored() == t.results
    {
      hide Integrity, RowsOf, DeleteAll, DeletePages, ValidateAll, RecordPhase, FailurePhase, SummaryPhase, Transact,
           FailuresChange, Ascending, Skipped, WasDirty;
      var changed := WasDirty(previous) || selection.full || |docs| > 0;
      var kept := selection.deleted.IsEmpty();
      EmptyContents(selection.deleted.rows);
      changed := changed || !kept;
      if selection.baseline {
        DeleteAllDocuments();
      } else {
        DeleteRemoved(selection.deleted);
      }
      if |docs| > 0 {
        ValidateSelected(w, chain, selection.checkpoint.fingerprint, docs, input.walk, c);
      } else {
        assert docs == {};
        NoDocsNoSaves(w, Head(chain), c.checkpoint.fingerprint, input.walk, Visit(Progress(), {}));
      }
      RecordVersions(w, chain, previous, selection.baseline, selection.history, c);
      ghost var recorded := Progress();
      var marked := SaveFailures(w, input.failures);
      ghost var failed := Progress();
      changed := changed || marked;
      assert selection.deleted.rows[0..] == selection.deleted.rows;
      DeadIsDead(w, recorded, input.failures, changed, FailuresChange(w, recorded.results.rows, input.failures));
      PublishSummary(changed);
      PublishCheckpoint(selection.checkpoint);
    }

    /** One pass over a snapshot. `selectable` is whether selecting inputs meets no I/O failure. */
    method ProcessSnapshot(w: Environment, chain: Chain, input: PassInput, selectable: bool) returns (ghost choice: Option<Choice>)
      requires db.Valid() && alive && budget == input.budget
      requires ValidChain(chain) && |chain| > 0 && Enumerates(w.order) && HostsInPaths(w)
      modifies this, db
      ensures db.Valid()
      ensures choice.Some? <==> selectable && w.fingerprint(input.identity, Head(chain)).Some? && (input.force ==> input.budget > 0)
      ensures choice.Some? ==>
                && w.fingerprint(input.identity, Head(chain)) == Some(choice.value.checkpoint.fingerprint)
                && Chooses(chain, old(db.checkpoint), choice.value.checkpoint.fingerprint, input.force, choice.value)
      ensures var t := Pass.ProcessSnapshot(w, chain, old(db.Stored()), input, choice);
              alive == t.alive && db.Stored() == t.results
    {
      hide Integrity, RowsOf, Pass.Process, Recovered, Materialized, Chooses, Selects, Ascending, Enumerates;
      choice := None;
      var previous := db.checkpoint;
      if input.force {
        var lives := Lives();
        if !lives { return; }
        db.ClearProcessingCheckpoint();
      }
      var fingerprint := w.fingerprint(input.identity, Head(chain));
      if !selectable || fingerprint.None? {
        alive := false;
        return;
      }
      var selection := SelectProcessing(chain, previous, fingerprint.value, input.force, w.order);
      choice := Some(ChoiceOf(selection));
      ghost var recovered: set<string> := {};
      SelectedIsChosen(chain, previous, fingerprint.value, input.force, selection);
      if !selection.full {
        var ok := IncludeRecovered(w, selection.advisories, input.downloads);
        if !ok {
          alive := false;
          return;
        }
        NoEmptyInput(w, chain, CollectedChanges(chain, previous), db.Stored().rows, input.downloads);
        recovered := Recovered(w, db.Stored().rows, input.downloads).value;
      }
      assert selection.advisories.Contents() == choice.value.advisories + recovered;
      var docs: Option<set<string>> := Some({});
      var none := selection.advisories.IsEmpty();
      if selection.full || !none {
        docs := Materialize(Head(chain), selection.full, selection.advisories);
      } else {
        NothingToMaterialize(Head(chain));
      }
      if docs.None? {
        alive := false;
        return;
      }
      Process(w, chain, previous, input, selection, docs.value, choice.value);
    }
  }

  lemma EmptyContents(rows: seq<string>)
    ensures AsSet(rows) == {} <==> rows == []
  {
    if rows != [] { assert rows[0] in AsSet(rows); }
  }

  /** Advisories among readable selected inputs. */
  function Extractable(tree: Tree, advisories: set<string>): set<string> {
    set a | a in advisories && Readable(tree, a) && IsAdvisory(a)
  }

  /** A selection and its value. */
  ghost predicate Matches(s: ProcessingSelection, c: Choice)
    reads s.history, s.deleted
  {
    && c.checkpoint == s.checkpoint && c.full == s.full && c.baseline == s.baseline
    && c.history == s.history.Contents() && c.deleted == s.deleted.rows && Skipped(s.deleted.rows) == 0
  }

  lemma DeadIsDead(w: Environment, recorded: Run, failures: seq<Failure>, a: bool, b: bool)
    ensures var failed := FailurePhase(w, recorded, failures);
            !failed.alive ==> SummaryPhase(failed, a) == SummaryPhase(failed, b) == failed
  {
    hide Store.SaveRetrievalErrors, Aggregate;
  }

  /** The value of a selection. */
  ghost function ChoiceOf(s: ProcessingSelection): Choice
    reads s.advisories, s.history, s.deleted
  {
    Choice(s.checkpoint, s.full, s.baseline, s.advisories.Contents(), s.history.Contents(), s.deleted.rows)
  }

  lemma NoEmptyUrl(chain: Chain, changes: set<string>)
    requires |chain| > 0
    ensures "" !in SelectedDeleted(chain, changes)
  {
  }

  /** What the selection method returns is a choice the pass may make. */
  lemma SelectedIsChosen(chain: Chain, previous: Option<Checkpoint>, fingerprint: string, force: bool, s: ProcessingSelection)
    requires |chain| > 0 && Selects(chain, previous, fingerprint, force, s)
    ensures Chooses(chain, previous, fingerprint, force, ChoiceOf(s)) && Matches(s, ChoiceOf(s))
    ensures s.checkpoint.fingerprint == fingerprint && !s.checkpoint.summaryDirty
    ensures s.advisories.Valid() && s.history.Valid() && s.deleted.Valid()
    ensures s.advisories.Contents() == if s.full then {} else SelectedAdvisories(chain, CollectedChanges(chain, previous))
  {
    hide SelectedAdvisories, SelectedHistory, SelectedDeleted, Changes, Ascending;
    NoEmptyUrl(chain, CollectedChanges(chain, previous));
    if s.deleted.rows != [] { assert s.deleted.rows[0] in s.deleted.Contents(); }
  }

  lemma NoEmptyInput(w: Environment, chain: Chain, changes: set<string>, rows: Rows, downloads: set<string>)
    requires |chain| > 0 && HostsInPaths(w) && Recovered(w, rows, downloads).Some?
    ensures "" !in SelectedAdvisories(chain, changes) + Recovered(w, rows, downloads).value
  {
    if "" in SelectedAdvisories(chain, changes) {
      var p :| p in changes && AdvisoryPath(p) == Some("");
      SelectedIsAdvisory(p, "");
      AdvisoryShape("");
    }
  }

  lemma NothingToMaterialize(tree: Tree)
    ensures Materialized(tree, false, {}) == Some({})
  {
    var none: set<string> := {};
    assert Materialized(tree, false, none).value == none;
  }

  lemma {:induction false} NoDocsNoSaves(w: Environment, tree: Tree, fingerprint: string, walk: seq<string>, v: Visit)
    ensures ValidateAll(w, tree, fingerprint, {}, walk, v) == v
    decreases |walk|
  {
    if walk != [] { NoDocsNoSaves(w, tree, fingerprint, walk[1..], v); }
  }

  /** Downloaded paths of some failed URLs. */
  function RecoveredPaths(w: Environment, urls: set<string>, downloads: set<string>): set<string> {
    set u | u in urls && w.gitPath(u) != None && w.gitPath(u).value.Some? && w.gitPath(u).value.value in downloads
      :: w.gitPath(u).value.value
  }

  lemma RecoveredUnion(w: Environment, a: set<string>, b: set<string>, downloads: set<string>)
    ensures RecoveredPaths(w, a + b, downloads) == RecoveredPaths(w, a, downloads) + RecoveredPaths(w, b, downloads)
  {
  }

  lemma RecoveredOne(w: Environment, url: string, downloads: set<string>)
    requires w.gitPath(url).Some?
    ensures RecoveredPaths(w, {url}, downloads)
            == if w.gitPath(url).value.Some? && w.gitPath(url).value.value in downloads then AsSet([w.gitPath(url).value.value]) else {}
  {
  }

  lemma RecoveredFromUrls(w: Environment, rows: Rows, urls: set<string>, downloads: set<string>)
    requires urls == FailedUrls(rows) && forall u | u in urls :: w.gitPath(u).Some?
    ensures Recovered(w, rows, downloads) == Some(RecoveredPaths(w, urls, downloads))
  {
  }

  lemma FailedUrlsAreMarked(rows: Rows, marked: set<string>)
    requires marked == set u | u in rows && Marked(rows[u])
    ensures marked - {""} == FailedUrls(rows)
  {
  }

  lemma NothingRecovered(w: Environment, downloads: set<string>)
    ensures RecoveredPaths(w, {}, downloads) == {}
  {
  }

  lemma MalformedUrl(w: Environment, rows: Rows, urls: seq<string>, downloads: set<string>)
    requires (forall u | u in urls :: u in FailedUrls(rows)) && exists u | u in urls :: w.gitPath(u).None?
    ensures Recovered(w, rows, downloads).None?
  {
  }

  lemma MorePages(rows: seq<string>, a: nat, k: nat, n: nat)
    requires a <= k && k + n <= |rows|
    ensures forall u | u in rows[k..k + n] :: u in rows[a..]
    ensures AsSet(rows[a..k + n]) == AsSet(rows[a..k]) + AsSet(rows[k..k + n])
  {
    SliceStep(rows, a, k, k + n);
    forall u | u in rows[k..k + n] ensures u in rows[a..] {
      var i :| k <= i < k + n && rows[i] == u;
      assert rows[a..][i - a] == u;
    }
  }

  lemma VisitedStore(w: Environment, tree: Tree, fingerprint: string, docs: set<string>, walk: seq<string>, r: Run)
    requires forall p | p in docs :: p in tree
    ensures var t := ValidateAll(w, tree, fingerprint, docs, walk, Visit(r, {}));
            Separated(w) && Carried(w, r.results.rows) && CarriesAll(w, tree, fingerprint, docs) ==>
              forall p | p in t.visited && p in docs ::
                "https://" + p in t.run.results.rows && StoresValidation(w, tree, fingerprint, p, t.run.results.rows["https://" + p].report)
  {
    hide StoresValidation, Separated, Carried, CarriesAll, ValidateAll;
    if Separated(w) && Carried(w, r.results.rows) && CarriesAll(w, tree, fingerprint, docs) {
      NothingRevalidated(w, tree, fingerprint, r.results.rows);
      ValidateAllSpec(w, tree, fingerprint, docs, walk, Visit(r, {}), r.results.rows);
    }
  }

  lemma NothingRevalidated(w: Environment, tree: Tree, fingerprint: string, rows: Rows)
    ensures Revalidated(w, tree, fingerprint, {}, rows, rows)
  {
  }

  lemma SaveOne(w: Environment, rows: Rows, url: string, report: Report)
    ensures SaveReports(w, rows, [(url, report)]) == SaveRow(w, rows, url, report)
  {
    hide SaveRow;
    assert [(url, report)][..0] == [];
    assert SaveReports(w, rows, []) == rows;
  }

  lemma NextPage(rows: seq<string>, k: nat, n: nat)
    requires k < |rows| && n == if |rows| - k <= PATH_BATCH then |rows| - k else PATH_BATCH
    ensures rows[k..] != [] && n == (if |rows[k..]| <= PATH_BATCH then |rows[k..]| else PATH_BATCH)
    ensures rows[k..][..n] == rows[k..k + n] && rows[k..][n..] == rows[k + n..]
  {
  }

  lemma TransactShape(r: Run, next: Results)
    ensures Transact(r, next) == if r.alive && r.budget > 0 then Run(next, r.budget - 1, true) else r.(alive := false)
  {
  }

  lemma {:induction false} DeadDeletesNothing(r: Run, urls: seq<string>)
    requires !r.alive
    ensures DeletePages(r, urls) == r
    decreases |urls|
  {
    hide DeleteUrls;
    if urls != [] {
      var n := if |urls| <= PATH_BATCH then |urls| else PATH_BATCH;
      DeadDeletesNothing(r, urls[n..]);
    }
  }
}
