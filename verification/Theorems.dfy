/** A completed pass leaves what a computation from scratch would, whatever was interrupted before. */
module Theorems {
  import opened Wrappers
  import opened Strings
  import opened Paths
  import opened History
  import opened World
  import opened Versions
  import opened Selection
  import opened Store
  import opened Pass
  import opened Invariant
  import opened Phases

  /** The advisories of a snapshot. */
  function Advisories(tree: Tree): set<string> {
    set p | p in tree && IsAdvisory(p)
  }

  /** Between two transactions of a pass based on commit `base`, or of a baseline pass. */
  ghost predicate Mid(w: Environment, chain: Chain, base: Option<nat>, legacy: bool, s: Results) {
    && Carried(w, s.rows)
    && SummaryFresh(s)
    && match base
       case None => s.checkpoint.None?
       case Some(i) =>
         && i < |chain| && Consistent(w, chain, i, legacy, s)
         && (s.checkpoint.Some? ==> s.checkpoint.value.commit == chain[i].id)
  }

  lemma MidIsInv(w: Environment, chain: Chain, base: Option<nat>, legacy: bool, s: Results)
    requires ValidChain(chain) && Mid(w, chain, base, legacy, s)
    ensures Inv(w, chain, legacy, s)
  {
    if s.checkpoint.Some? { IndexOfUnique(chain, base.value); }
  }

  // ---------------------------------------------------------------- phases keep Mid

  lemma MidDeletePages(w: Environment, chain: Chain, base: Option<nat>, legacy: bool, r: Run, urls: seq<string>)
    requires base.Some? && Mid(w, chain, base, legacy, r.results)
    requires AsSet(urls) == SelectedDeleted(chain, Changes(chain, base.value))
    ensures Mid(w, chain, base, legacy, DeletePages(r, urls).results)
  {
    DeletePagesSpec(r, urls);
    var t := DeletePages(r, urls);
    WritesKeepSummaryFresh(r.results, t.results);
    ShrunkKeepsConsistent(w, chain, base.value, legacy, r.results, t.results);
  }

  lemma DeleteAllSpec(w: Environment, r: Run)
    requires Carried(w, r.results.rows) && r.results.checkpoint.None?
    ensures var t := DeleteAll(r);
            && Continues(r, t) && Carried(w, t.results.rows) && t.results.checkpoint.None?
            && (t.alive ==> t.results.rows == map[])
  {
    var r1 := Transact(r, DropFailures(r.results));
    assert Carried(w, r1.results.rows);
    var r2 := Transact(r1, DropVulnerabilities(r1.results));
    assert Carried(w, r2.results.rows);
    var r3 := Transact(r2, DropRevisions(r2.results));
    assert Carried(w, r3.results.rows);
  }

  lemma MidValidateAll(w: Environment, chain: Chain, base: Option<nat>, legacy: bool, fingerprint: string, docs: set<string>, walk: seq<string>, r: Run)
    requires Separated(w) && |chain| > 0 && docs <= Advisories(Head(chain)) && CarriesAll(w, Head(chain), fingerprint, docs)
    requires Mid(w, chain, base, legacy, r.results)
    ensures var t := ValidateAll(w, Head(chain), fingerprint, docs, walk, Visit(r, {}));
            && Continues(r, t.run) && t.visited <= docs && Mid(w, chain, base, legacy, t.run.results)
            && Revalidated(w, Head(chain), fingerprint, t.visited, r.results.rows, t.run.results.rows)
            && Writes(r.results, t.run.results)
  {
    ValidateAllSpec(w, Head(chain), fingerprint, docs, walk, Visit(r, {}), r.results.rows);
    var t := ValidateAll(w, Head(chain), fingerprint, docs, walk, Visit(r, {}));
    WritesKeepSummaryFresh(r.results, t.run.results);
    if base.Some? {
      RevalidatedKeepsConsistent(w, chain, base.value, legacy, fingerprint, t.visited, r.results, t.run.results);
    }
  }

  /** What a pass based on `base` passes to version recording. */
  ghost predicate Basis(chain: Chain, previous: Option<Checkpoint>, c: Choice, base: Option<nat>) {
    match base
    case None => c.baseline
    case Some(i) => i < |chain| && !c.baseline && previous.Some? && previous.value.commit == chain[i].id
                    && c.history == SelectedHistory(Changes(chain, i))
  }

  lemma NoHistoryNoVersions(w: Environment, chain: Chain, i: nat, versions: seq<Version>)
    requires Enumerates(w.order) && i < |chain| && SelectedHistory(Changes(chain, i)) == {}
    requires VersionsAhead(w, chain, i, versions)
    ensures versions == VersionsOf(w.order, chain, |chain|)
  {
    forall p | p in Changes(chain, i) ensures !IsAdvisory(p) {
      assert p !in SelectedHistory(Changes(chain, i));
    }
    var k :| i < k <= |chain| && versions == VersionsOf(w.order, chain, k);
    NothingRecordedSince(w.order, chain, i, k);
    NothingRecordedSince(w.order, chain, i, |chain|);
  }

  lemma NoHistoryCounted(w: Environment, chain: Chain, i: nat, rows: Rows)
    requires Enumerates(w.order) && i < |chain| && SelectedHistory(Changes(chain, i)) == {} && Covered(w, chain, i, rows)
    ensures Counted(w, chain, rows)
  {
    hide VersionsOf, Count, IsAdvisory;
    forall p | p in Head(chain) && IsAdvisory(p) && PathUrl(p) in rows
      ensures HasCount(w, chain, |chain|, rows, p)
    {
      assert p !in SelectedHistory(Changes(chain, i));
      UnchangedOutside(chain, i, p, |chain| - 1);
      assert HasCount(w, chain, i + 1, rows, p);
      UnchangedCount(w, chain, i, rows, p);
    }
  }

  lemma RebuiltIsAhead(w: Environment, chain: Chain, i: nat, versions: seq<Version>)
    requires i < |chain| && versions == VersionsOf(w.order, chain, |chain|)
    ensures VersionsAhead(w, chain, i, versions)
  {
  }

  lemma RecordingKeepsReports(w: Environment, chain: Chain, s: Results, since: Option<string>)
    ensures SameReports(s.rows, RecordVersions(w, chain, s, since).rows)
  {
    hide Count, TouchedUrls, RecordedTable;
  }

  /** A legacy database whose versions were never recorded. */
  predicate Unrecorded(legacy: bool, s: Results) {
    legacy && s.versions == []
  }

  lemma RecordedConsistent(w: Environment, chain: Chain, i: nat, legacy: bool, s: Results, since: Option<string>)
    requires Enumerates(w.order) && ValidChain(chain) && i < |chain| && Consistent(w, chain, i, legacy, s)
    requires since == None || (since == Some(chain[i].id) && !Unrecorded(legacy, s))
    ensures Consistent(w, chain, i, legacy, RecordVersions(w, chain, s, since))
  {
    hide RecordVersions, VersionsOf, TracedRow, HasCount, SameReports, Changes, IsAdvisory, Covered, Traced, Counted, Stocked;
    var t := RecordVersions(w, chain, s, since);
    ConsistentParts(w, chain, i, legacy, s);
    RecordingKeepsReports(w, chain, s, since);
    RecordedIsRebuild(w, chain, i, s, since);
    RecordedCounts(w, chain, i, s, since);
    SameReportsKeepTraced(w, chain, i, s.rows, t.rows);
    SameReportsKeepStocked(chain, i, s.rows, t.rows);
    RebuiltIsAhead(w, chain, i, t.versions);
    SameReportsSameKeys(s.rows, t.rows);
    RecordedKeepsCovered(w, chain, i, s.rows, t.rows);
  }

  lemma SameReportsSameKeys(before: Rows, after: Rows)
    requires SameReports(before, after)
    ensures after.Keys == before.Keys
  {
  }

  lemma RecordingKeepsFields(w: Environment, chain: Chain, s: Results, since: Option<string>)
    ensures var t := RecordVersions(w, chain, s, since);
            t.checkpoint == s.checkpoint && t.summary == s.summary
  {
  }

  /** The recording transaction, wherever it starts. */
  lemma RecordedMid(w: Environment, chain: Chain, base: Option<nat>, legacy: bool, s: Results, since: Option<string>)
    requires Enumerates(w.order) && ValidChain(chain) && |chain| > 0 && Mid(w, chain, base, legacy, s)
    requires since == None || (base.Some? && since == Some(chain[base.value].id) && !Unrecorded(legacy, s))
    ensures var t := RecordVersions(w, chain, s, since);
            && Mid(w, chain, base, legacy, t) && SameReports(s.rows, t.rows)
            && t.versions == VersionsOf(w.order, chain, |chain|) && Counted(w, chain, t.rows)
  {
    hide RecordVersions, VersionsOf, Consistent, Counted, Traced, SameReports;
    var t := RecordVersions(w, chain, s, since);
    RecordingKeepsReports(w, chain, s, since);
    RecordingKeepsFields(w, chain, s, since);
    SameReportsKeepTraced(w, chain, 0, s.rows, t.rows);
    if base.Some? {
      ConsistentParts(w, chain, base.value, legacy, s);
      RecordedConsistent(w, chain, base.value, legacy, s, since);
      RecordedIsRebuild(w, chain, base.value, s, since);
      RecordedCounts(w, chain, base.value, s, since);
    } else {
      RecordedIsRebuild(w, chain, 0, s, None);
      RecordedCounts(w, chain, 0, s, None);
    }
  }

  lemma ConsistentParts(w: Environment, chain: Chain, i: nat, legacy: bool, s: Results)
    requires i < |chain| && Consistent(w, chain, i, legacy, s)
    ensures Traced(w, chain, i, s.rows) && Stocked(chain, i, s.rows)
    ensures !Unrecorded(legacy, s) ==> Covered(w, chain, i, s.rows) && VersionsAhead(w, chain, i, s.versions)
  {
  }

  /** Nothing needs recording: the table and the counts are already those of the head. */
  lemma NothingToRecord(w: Environment, chain: Chain, i: nat, legacy: bool, s: Results)
    requires Enumerates(w.order) && i < |chain| && !Unrecorded(legacy, s) && SelectedHistory(Changes(chain, i)) == {} && Consistent(w, chain, i, legacy, s)
    ensures s.versions == VersionsOf(w.order, chain, |chain|) && Counted(w, chain, s.rows)
  {
    hide VersionsOf, Counted, Consistent, SelectedHistory, Changes;
    ConsistentParts(w, chain, i, legacy, s);
    NoHistoryNoVersions(w, chain, i, s.versions);
    NoHistoryCounted(w, chain, i, s.rows);
  }

  /** Results after version recording: same reports, the rebuilt table and right counts. */
  ghost predicate RecordedFrom(w: Environment, chain: Chain, base: Option<nat>, legacy: bool, s: Results, t: Results)
    requires |chain| > 0
  {
    && Mid(w, chain, base, legacy, t) && SameReports(s.rows, t.rows)
    && t.checkpoint == s.checkpoint && t.summary == s.summary
    && t.versions == VersionsOf(w.order, chain, |chain|) && Counted(w, chain, t.rows)
  }

  /** The step of a recording phase that runs to its end. */
  lemma RecordStep(w: Environment, chain: Chain, base: Option<nat>, legacy: bool, previous: Option<Checkpoint>, c: Choice, s: Results, rebuild: bool)
    requires Enumerates(w.order) && ValidChain(chain) && |chain| > 0 && Mid(w, chain, base, legacy, s)
    requires Basis(chain, previous, c, base) && (c.baseline || Unrecorded(legacy, s) ==> rebuild)
    ensures RecordedFrom(w, chain, base, legacy, s, RecordVersions(w, chain, s, if rebuild then None else PreviousCommit(previous)))
    ensures !rebuild && c.history == {} ==> RecordedFrom(w, chain, base, legacy, s, s)
  {
    hide RecordVersions, VersionsOf, Counted, Mid, SelectedHistory, Changes;
    var since := if rebuild then None else PreviousCommit(previous);
    RecordedMid(w, chain, base, legacy, s, since);
    RecordingKeepsFields(w, chain, s, since);
    if !rebuild && c.history == {} {
      MidParts(w, chain, base.value, legacy, s);
      NothingToRecord(w, chain, base.value, legacy, s);
    }
  }

  lemma MidParts(w: Environment, chain: Chain, i: nat, legacy: bool, s: Results)
    requires Mid(w, chain, Some(i), legacy, s)
    ensures i < |chain| && Consistent(w, chain, i, legacy, s)
  {
  }

  /** Recording versions, or skipping it, ends with the rebuilt table and right counts. */
  lemma MidRecord(w: Environment, chain: Chain, base: Option<nat>, legacy: bool, previous: Option<Checkpoint>, c: Choice, r: Run)
    requires Enumerates(w.order) && ValidChain(chain) && |chain| > 0 && Mid(w, chain, base, legacy, r.results)
    requires Basis(chain, previous, c, base)
    requires r.alive && !c.baseline && Unrecorded(legacy, r.results) ==> r.results.rows != map[]
    ensures var t := RecordPhase(w, chain, previous, c, r);
            && Continues(r, t) && Mid(w, chain, base, legacy, t.results)
            && (t.alive ==> RecordedFrom(w, chain, base, legacy, r.results, t.results))
  {
    hide RecordVersions, RecordedFrom, Basis;
    var s := r.results;
    var backfill := !c.baseline && s.rows != map[] && s.versions == [];
    if r.alive {
      RecordStep(w, chain, base, legacy, previous, c, s, c.baseline || backfill);
      RecordedFromIsMid(w, chain, base, legacy, s, RecordVersions(w, chain, s, if c.baseline || backfill then None else PreviousCommit(previous)));
    }
  }

  lemma RecordedFromIsMid(w: Environment, chain: Chain, base: Option<nat>, legacy: bool, s: Results, t: Results)
    requires |chain| > 0 && RecordedFrom(w, chain, base, legacy, s, t)
    ensures Mid(w, chain, base, legacy, t)
  {
  }

  lemma MidFailures(w: Environment, chain: Chain, base: Option<nat>, legacy: bool, r: Run, failures: seq<Failure>)
    requires Mid(w, chain, base, legacy, r.results) && CarriesFailures(w, failures)
    ensures var t := FailurePhase(w, r, failures);
            && Continues(r, t) && Mid(w, chain, base, legacy, t.results) && Writes(r.results, t.results)
            && (t.alive ==> Failed(w, r.results.rows, t.results.rows, failures))
            && (t.alive && !FailuresChange(w, r.results.rows, failures) ==> t.results.rows == r.results.rows)
  {
    SaveFailuresSpec(w, r.results.rows, failures);
    var t := FailurePhase(w, r, failures);
    var rows := SaveFailures(w, r.results.rows, failures);
    WritesKeepSummaryFresh(r.results, t.results);
    if base.Some? {
      FailedKeepsConsistent(w, chain, base.value, legacy, r.results, r.results.(rows := rows), failures);
    }
  }

  // ---------------------------------------------------------------- what a complete pass leaves

  /** Every head advisory that may have changed since the basis is extracted; all of them without a basis. */
  ghost predicate CoversChanges(chain: Chain, base: Option<nat>, docs: set<string>)
    requires |chain| > 0
  {
    && docs <= Advisories(Head(chain))
    && match base
       case None => docs == Advisories(Head(chain))
       case Some(i) => forall p | p in Touched(chain, i) && p in Advisories(Head(chain)) :: p in docs
  }

  lemma DocsCoverChanges(chain: Chain, previous: Option<Checkpoint>, fingerprint: string, force: bool, c: Choice,
                         base: Option<nat>, recovered: set<string>, docs: set<string>)
    requires ValidChain(chain) && |chain| > 0 && Chooses(chain, previous, fingerprint, force, c)
    requires Basis(chain, previous, c, base)
    requires Materialized(Head(chain), c.full, c.advisories + recovered) == Some(docs)
    ensures CoversChanges(chain, base, docs)
  {
    hide IsAdvisory;
    if base.Some? && !c.full {
      var i := base.value;
      IndexOfUnique(chain, i);
      forall p | p in Touched(chain, i) && p in Advisories(Head(chain)) ensures p in docs {
        var q :| q in Changes(chain, i) && AdvisoryPath(q) == Some(p);
        assert p in SelectedAdvisories(chain, Changes(chain, i));
        assert p in c.advisories + recovered;
      }
    }
  }

  /** A row the pass does not validate is already right at the head, if its advisory is still there. */
  lemma KeptRowIsFresh(w: Environment, chain: Chain, i: nat, docs: set<string>, u: string, row: Row)
    requires i < |chain| && CoversChanges(chain, Some(i), docs)
    requires TracedRow(w, chain, i, u, row) && u !in Urls(docs)
    ensures TracedRow(w, chain, |chain| - 1, u, row)
  {
    hide IsAdvisory, AdvisoryPath, Changes;
    var x := row.report.columns.value;
    NothingAfterHead(chain);
    assert x.path !in docs;
    if x.path in Head(chain) { UntouchedKeepsInputs(w, chain, i, |chain| - 1, x.path, x.fingerprint); }
  }

  /** After validation every unmarked row of a head advisory is the validation of the head's inputs. */
  lemma ValidatedIsTraced(w: Environment, chain: Chain, base: Option<nat>, fingerprint: string, docs: set<string>,
                          cleaned: Rows, rows: Rows)
    requires |chain| > 0 && CoversChanges(chain, base, docs)
    requires Revalidated(w, Head(chain), fingerprint, docs, cleaned, rows)
    requires base.None? ==> cleaned == map[]
    requires base.Some? ==> base.value < |chain| && Traced(w, chain, base.value, cleaned)
    ensures Traced(w, chain, |chain| - 1, rows)
  {
    hide IsAdvisory, AdvisoryPath;
    NothingAfterHead(chain);
    forall u | u in rows && !Marked(rows[u]) ensures TracedRow(w, chain, |chain| - 1, u, rows[u]) {
      if u in Urls(docs) {
        var p :| p in docs && u == PathUrl(p);
      } else {
        KeptRowIsFresh(w, chain, base.value, docs, u, rows[u]);
      }
    }
  }

  /** Every head advisory has a row. */
  ghost predicate Present(chain: Chain, rows: Rows)
    requires |chain| > 0
  {
    forall p | p in Advisories(Head(chain)) :: PathUrl(p) in rows
  }

  lemma ValidatedIsPresent(w: Environment, chain: Chain, base: Option<nat>, fingerprint: string, docs: set<string>,
                           cleaned: Rows, rows: Rows)
    requires |chain| > 0 && CoversChanges(chain, base, docs)
    requires Revalidated(w, Head(chain), fingerprint, docs, cleaned, rows)
    requires base.Some? ==> base.value < |chain| && Stocked(chain, base.value, cleaned)
    ensures Present(chain, rows)
  {
    hide IsAdvisory, AdvisoryPath, VersionsOf, Count;
    forall p | p in Advisories(Head(chain)) ensures PathUrl(p) in rows {
      if p !in docs {
        var i := base.value;
        assert p !in Changes(chain, i) by { if p in Changes(chain, i) { ChangedIsTouched(chain, i, p); } }
        UnchangedOutside(chain, i, p, |chain| - 1);
        assert PathUrl(p) in cleaned;
      }
    }
  }

  /** Visiting as many documents as were extracted means visiting all of them. */
  lemma AllVisited(visited: set<string>, docs: set<string>)
    requires visited <= docs && |visited| == |docs|
    ensures visited == docs
  {
    assert docs == visited + (docs - visited);
    assert docs - visited == {};
  }

  /** Results a completed pass has left: nothing remains to be done for this history. */
  ghost predicate Settled(w: Environment, chain: Chain, s: Results)
    requires |chain| > 0
  {
    && Carried(w, s.rows)
    && Traced(w, chain, |chain| - 1, s.rows)
    && Present(chain, s.rows)
    && Counted(w, chain, s.rows)
    && s.versions == VersionsOf(w.order, chain, |chain|)
  }

  lemma SettledIsConsistent(w: Environment, chain: Chain, legacy: bool, s: Results)
    requires |chain| > 0 && Settled(w, chain, s)
    ensures Consistent(w, chain, |chain| - 1, legacy, s)
  {
    hide VersionsOf, Count, IsAdvisory;
    RebuiltIsAhead(w, chain, |chain| - 1, s.versions);
    forall p | p in chain[|chain| - 1].tree && IsAdvisory(p)
      ensures HasCount(w, chain, |chain| - 1 + 1, s.rows, p)
    {
      assert p in Advisories(Head(chain));
      assert HasCount(w, chain, |chain|, s.rows, p);
    }
  }
}
