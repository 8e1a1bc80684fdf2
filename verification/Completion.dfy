/** One whole pass: what every interruption keeps and what completion establishes. */
module Completion {
  import opened Wrappers
  import opened Strings
  import opened Paths
  import opened History
  import opened World
  import opened Versions
  import opened Selection
  import opened Store
  import opened Pass
  import opened Invariant
  import opened Phases
  import opened Theorems

  /** What holds when a pass starts changing results. */
  ghost predicate Ready(w: Environment, chain: Chain, base: Option<nat>, previous: Option<Checkpoint>,
                        input: PassInput, c: Choice, docs: set<string>)
  {
    && Lawful(w) && ValidChain(chain) && |chain| > 0
    && Basis(chain, previous, c, base)
    && (base.Some? ==> AsSet(c.deleted) == SelectedDeleted(chain, Changes(chain, base.value)))
    && CoversChanges(chain, base, docs)
    && CarriesAll(w, Head(chain), c.checkpoint.fingerprint, docs)
    && CarriesFailures(w, input.failures)
    && c.checkpoint.commit == chain[|chain| - 1].id
    && (c.baseline ==> c.full)
  }

  /** The report was computed under `fingerprint` from a file of `tree`. */
  predicate ComputedFrom(tree: Tree, fingerprint: string, report: Report) {
    report.columns.Some? && report.columns.value.fingerprint == fingerprint && report.columns.value.path in tree
  }

  /** Every unmarked row of `after` is an unmarked row of `before`, or was validated under `fingerprint`. */
  ghost predicate Restamped(tree: Tree, fingerprint: string, before: Rows, after: Rows) {
    forall u | u in after && !Marked(after[u]) ::
      ComputedFrom(tree, fingerprint, after[u].report) || (u in before && after[u].report == before[u].report)
  }

  lemma RestampedTransitive(tree: Tree, fingerprint: string, a: Rows, b: Rows, c: Rows)
    requires Restamped(tree, fingerprint, a, b) && Restamped(tree, fingerprint, b, c)
    ensures Restamped(tree, fingerprint, a, c)
  {
    forall u | u in c && !Marked(c[u])
      ensures ComputedFrom(tree, fingerprint, c[u].report) || (u in a && c[u].report == a[u].report)
    {
      if u in b && c[u].report == b[u].report { assert !Marked(b[u]); }
    }
  }

  /** Rows that are kept, or computed from the head, stay anchored. */
  lemma RestampedKeepsAnchored(chain: Chain, i: nat, fingerprint: string, before: Rows, after: Rows)
    requires i < |chain| && Anchored(chain, i, before) && Restamped(Head(chain), fingerprint, before, after)
    ensures Anchored(chain, i, after)
  {
    hide Changes;
    forall u | u in after && !Marked(after[u]) ensures AnchoredRow(chain, i, after[u]) {
      if ComputedFrom(Head(chain), fingerprint, after[u].report) {
        HeadIsAnchored(chain, i, after[u].report.columns.value.path);
      } else {
        assert AnchoredRow(chain, i, before[u]);
      }
    }
  }

  /** A database without recorded versions still has a document when versions are recorded. */
  ghost predicate Backfillable(legacy: bool, c: Choice, docs: set<string>, s: Results) {
    Unrecorded(legacy, s) && !c.baseline ==> s.rows.Keys - AsSet(c.deleted) + Urls(docs) != {}
  }

  // ---------------------------------------------------------------- phase by phase

  /** Removing results keeps the invariant at every interruption and removes exactly what it should. */
  lemma CleanSpec(w: Environment, chain: Chain, base: Option<nat>, legacy: bool, previous: Option<Checkpoint>, c: Choice, r: Run)
    requires |chain| > 0 && Basis(chain, previous, c, base) && Mid(w, chain, base, legacy, r.results)
    requires base.Some? ==> AsSet(c.deleted) == SelectedDeleted(chain, Changes(chain, base.value))
    ensures var t := Clean(c, r);
            && Continues(r, t) && Mid(w, chain, base, legacy, t.results)
            && (base.Some? ==> Writes(r.results, t.results) && Shrunk(r.results.rows, t.results.rows, AsSet(c.deleted)))
            && (t.alive ==> t.results.rows == if base.None? then map[] else r.results.rows - AsSet(c.deleted))
  {
    hide Changes, SelectedDeleted, DeleteAll, DeletePages, Consistent, Carried;
    if base.None? {
      MidCarried(w, chain, base, legacy, r.results);
      DeleteAllSpec(w, r);
    } else {
      DeletePagesSpec(r, c.deleted);
      MidDeletePages(w, chain, base, legacy, r, c.deleted);
    }
  }

  lemma MidCarried(w: Environment, chain: Chain, base: Option<nat>, legacy: bool, s: Results)
    requires Mid(w, chain, base, legacy, s)
    ensures Carried(w, s.rows)
  {
  }

  /** Validation: what the head's inputs give for every document extracted, nothing else touched. */
  ghost predicate ValidatedFrom(w: Environment, chain: Chain, base: Option<nat>, fingerprint: string, docs: set<string>,
                                cleaned: Rows, rows: Rows)
    requires |chain| > 0
  {
    && docs <= Advisories(Head(chain))
    && Revalidated(w, Head(chain), fingerprint, docs, cleaned, rows)
    && Traced(w, chain, |chain| - 1, rows) && Present(chain, rows)
  }

  lemma RevalidatedRestamps(w: Environment, tree: Tree, fingerprint: string, visited: set<string>, base: Rows, rows: Rows)
    requires forall p | p in visited :: p in tree
    requires Revalidated(w, tree, fingerprint, visited, base, rows)
    ensures Restamped(tree, fingerprint, base, rows)
  {
    forall u | u in rows && u in Urls(visited)
      ensures ComputedFrom(tree, fingerprint, rows[u].report)
    {
      var p :| p in visited && u == PathUrl(p);
    }
  }

  lemma ValidatedSpec(w: Environment, chain: Chain, base: Option<nat>, legacy: bool, previous: Option<Checkpoint>,
                      input: PassInput, c: Choice, docs: set<string>, start: Rows, r: Run)
    requires Ready(w, chain, base, previous, input, c, docs) && Mid(w, chain, base, legacy, r.results)
    requires r.alive ==> r.results.rows == if base.None? then map[] else start - AsSet(c.deleted)
    ensures var t := Validated(w, chain, c, docs, input.walk, r);
            && Continues(r, t) && Mid(w, chain, base, legacy, t.results) && Writes(r.results, t.results)
            && Restamped(Head(chain), c.checkpoint.fingerprint, r.results.rows, t.results.rows)
            && (t.alive ==> ValidatedFrom(w, chain, base, c.checkpoint.fingerprint, docs, r.results.rows, t.results.rows))
  {
    hide Changes, SelectedDeleted, Consistent, Traced, Covered, Carried, Advisories, ValidateAll, Revalidated, SummaryFresh,
         IsAdvisory, AdvisoryPath, CarriesAll, Separated, Touched;
    assert docs <= Advisories(Head(chain));
    AdvisoriesInTree(Head(chain));
    var fingerprint := c.checkpoint.fingerprint;
    MidValidateAll(w, chain, base, legacy, fingerprint, docs, input.walk, r);
    var v := ValidateAll(w, Head(chain), fingerprint, docs, input.walk, Visit(r, {}));
    RevalidatedRestamps(w, Head(chain), fingerprint, v.visited, r.results.rows, v.run.results.rows);
    if v.run.alive && |v.visited| == |docs| {
      AllVisited(v.visited, docs);
      if base.Some? {
        MidParts(w, chain, base.value, legacy, r.results);
        ConsistentParts(w, chain, base.value, legacy, r.results);
      }
      ValidatedIsTraced(w, chain, base, fingerprint, docs, r.results.rows, v.run.results.rows);
      ValidatedIsPresent(w, chain, base, fingerprint, docs, r.results.rows, v.run.results.rows);
    }
  }

  lemma AdvisoriesInTree(tree: Tree)
    ensures forall p | p in Advisories(tree) :: p in tree
  {
  }

  /** Recording keeps every report and settles versions and counts. */
  lemma RecordedSettles(w: Environment, chain: Chain, base: Option<nat>, legacy: bool, s: Results, t: Results)
    requires |chain| > 0 && RecordedFrom(w, chain, base, legacy, s, t) && Carried(w, s.rows)
    requires Traced(w, chain, |chain| - 1, s.rows) && Present(chain, s.rows)
    ensures Settled(w, chain, t) && Aggregate(t.rows) == Aggregate(s.rows)
  {
    hide TracedRow, Counted, VersionsOf, Consistent;
    SameReportsKeepTraced(w, chain, |chain| - 1, s.rows, t.rows);
  }

  /** Marking failures keeps results settled. */
  lemma FailedKeepsSettled(w: Environment, chain: Chain, s: Results, t: Results, failures: seq<Failure>)
    requires |chain| > 0 && Settled(w, chain, s) && t.versions == s.versions && Failed(w, s.rows, t.rows, failures)
    ensures Settled(w, chain, t)
  {
    hide TracedRow, VersionsOf, Count, IsAdvisory;
    FailedKeepsTraced(w, chain, |chain| - 1, s.rows, t.rows, failures);
    forall p | p in Head(chain) && IsAdvisory(p) && PathUrl(p) in t.rows
      ensures HasCount(w, chain, |chain|, t.rows, p)
    {
      assert p in Advisories(Head(chain));
      assert HasCount(w, chain, |chain|, s.rows, p);
    }
  }

  lemma FailedRestamps(w: Environment, tree: Tree, fingerprint: string, before: Rows, after: Rows, failures: seq<Failure>)
    requires Failed(w, before, after, failures)
    ensures Restamped(tree, fingerprint, before, after)
  {
  }

  // ---------------------------------------------------------------- the whole pass

  /** Everything a completed pass promises about the stored results. */
  ghost predicate Completed(w: Environment, chain: Chain, checkpoint: Checkpoint, s: Results)
    requires |chain| > 0
  {
    Settled(w, chain, s) && s.checkpoint == Some(checkpoint) && s.summary == Some(Aggregate(s.rows))
  }

  /** Which rows a completed pass has changed, and to what. */
  ghost predicate Updated(w: Environment, tree: Tree, fingerprint: string, docs: set<string>, removed: set<string>,
                          failed: set<string>, before: Rows, after: Rows)
    requires forall p | p in docs :: p in tree
  {
    && after.Keys == before.Keys - removed + Urls(docs) + failed
    && (forall p | p in docs :: PathUrl(p) in after
          && (PathUrl(p) !in failed ==> after[PathUrl(p)].report == Validate(w, InputsAt(tree, p, fingerprint))))
    && (forall u | u in after && u !in Urls(docs) && u !in failed :: u in before && after[u].report == before[u].report)
    && (forall u | u in failed :: u in after && Marked(after[u]))
  }

  /** URLs whose rows a pass removes before it validates. */
  function Removed(c: Choice, rows: Rows): set<string> {
    if c.baseline then rows.Keys else AsSet(c.deleted)
  }

  lemma UpdatedByPhases(w: Environment, tree: Tree, fingerprint: string, docs: set<string>, removed: set<string>,
                        failures: seq<Failure>, start: Rows, cleaned: Rows, validated: Rows, recorded: Rows, marked: Rows)
    requires forall p | p in docs :: p in tree
    requires cleaned == start - removed
    requires Revalidated(w, tree, fingerprint, docs, cleaned, validated)
    requires SameReports(validated, recorded) && Failed(w, recorded, marked, failures)
    ensures Updated(w, tree, fingerprint, docs, removed, FailedSet(failures), start, marked)
  {
    forall p | p in docs ensures PathUrl(p) in recorded {}
  }

  /** Nothing selected and nothing dirty: reports are untouched, so the published summary still stands. */
  lemma NothingChanged(w: Environment, tree: Tree, fingerprint: string, cleaned: Rows, validated: Rows)
    requires Revalidated(w, tree, fingerprint, {}, cleaned, validated)
    ensures validated == cleaned
  {
    assert Urls({}) == {};
  }

  /** The checkpoint still names the same commit and fingerprint; only its dirty flag may have changed. */
  predicate SameCheckpoint(a: Option<Checkpoint>, b: Option<Checkpoint>) {
    match a
    case None => b.None?
    case Some(c) => b.Some? && b.value.commit == c.commit && b.value.fingerprint == c.fingerprint
  }

  /** What a run of phases keeps, finished or interrupted. */
  ghost predicate Kept(w: Environment, chain: Chain, base: Option<nat>, legacy: bool, fingerprint: string, s: Results, t: Results) {
    && |chain| > 0 && Mid(w, chain, base, legacy, t) && SameCheckpoint(s.checkpoint, t.checkpoint)
    && (base.Some? ==> Restamped(Head(chain), fingerprint, s.rows, t.rows))
  }

  lemma KeptTransitive(w: Environment, chain: Chain, base: Option<nat>, legacy: bool, fingerprint: string, s: Results, t: Results, u: Results)
    requires Kept(w, chain, base, legacy, fingerprint, s, t) && Kept(w, chain, base, legacy, fingerprint, t, u)
    ensures Kept(w, chain, base, legacy, fingerprint, s, u)
  {
    hide Mid, Restamped;
    if base.Some? { RestampedTransitive(Head(chain), fingerprint, s.rows, t.rows, u.rows); }
  }

  lemma WritesKeepCheckpoint(s: Results, t: Results)
    requires Writes(s, t)
    ensures SameCheckpoint(s.checkpoint, t.checkpoint)
  {
  }

  lemma ShrunkRestamps(tree: Tree, fingerprint: string, before: Rows, after: Rows, urls: set<string>)
    requires Shrunk(before, after, urls)
    ensures Restamped(tree, fingerprint, before, after)
  {
  }

  /** Deletion and validation. */
  lemma ValidatePart(w: Environment, chain: Chain, base: Option<nat>, legacy: bool, previous: Option<Checkpoint>,
                     input: PassInput, c: Choice, docs: set<string>, r: Run)
    requires Ready(w, chain, base, previous, input, c, docs) && Mid(w, chain, base, legacy, r.results)
    ensures var cleaned := Clean(c, r);
            var t := Validated(w, chain, c, docs, input.walk, cleaned);
            && Continues(r, t) && Kept(w, chain, base, legacy, c.checkpoint.fingerprint, r.results, t.results)
            && (t.alive ==>
                  && cleaned.results.rows == (if base.None? then map[] else r.results.rows - AsSet(c.deleted))
                  && t.results.summary == cleaned.results.summary
                  && (base.Some? ==> t.results.summary == r.results.summary && t.results.versions == r.results.versions)
                  && ValidatedFrom(w, chain, base, c.checkpoint.fingerprint, docs, cleaned.results.rows, t.results.rows))
  {
    hide Clean, Validated, Mid, Restamped, ValidatedFrom, Shrunk, Continues;
    var fingerprint := c.checkpoint.fingerprint;
    CleanSpec(w, chain, base, legacy, previous, c, r);
    var cleaned := Clean(c, r);
    ValidatedSpec(w, chain, base, legacy, previous, input, c, docs, r.results.rows, cleaned);
    var t := Validated(w, chain, c, docs, input.walk, cleaned);
    WritesKeepCheckpoint(cleaned.results, t.results);
    CheckpointAfterClean(w, chain, base, legacy, c, r);
    if base.Some? {
      ShrunkRestamps(Head(chain), fingerprint, r.results.rows, cleaned.results.rows, AsSet(c.deleted));
      WritesKeepCheckpoint(r.results, cleaned.results);
    }
    KeptTransitive(w, chain, base, legacy, fingerprint, r.results, cleaned.results, t.results);
    ContinuesTransitive(r, cleaned, t);
  }

  lemma ContinuesTransitive(r: Run, s: Run, t: Run)
    requires Continues(r, s) && Continues(s, t)
    ensures Continues(r, t)
    ensures t.alive ==> s.alive
  {
  }

  lemma CheckpointAfterClean(w: Environment, chain: Chain, base: Option<nat>, legacy: bool, c: Choice, r: Run)
    requires Mid(w, chain, base, legacy, r.results) && Mid(w, chain, base, legacy, Clean(c, r).results)
    ensures base.None? ==> SameCheckpoint(r.results.checkpoint, Clean(c, r).results.checkpoint)
  {
    hide Clean;
  }

  /** Version recording and failure marks. */
  lemma MarkPart(w: Environment, chain: Chain, base: Option<nat>, legacy: bool, previous: Option<Checkpoint>,
                 input: PassInput, c: Choice, docs: set<string>, r: Run)
    requires Ready(w, chain, base, previous, input, c, docs) && Mid(w, chain, base, legacy, r.results)
    requires r.alive && !c.baseline && Unrecorded(legacy, r.results) ==> r.results.rows != map[]
    requires r.alive ==> Traced(w, chain, |chain| - 1, r.results.rows) && Present(chain, r.results.rows)
    ensures var recorded := RecordPhase(w, chain, previous, c, r);
            var t := FailurePhase(w, recorded, input.failures);
            && Continues(r, t) && Kept(w, chain, base, legacy, c.checkpoint.fingerprint, r.results, t.results)
            && (t.alive ==>
                  && t.results.summary == r.results.summary && Settled(w, chain, t.results)
                  && SameReports(r.results.rows, recorded.results.rows)
                  && Failed(w, recorded.results.rows, t.results.rows, input.failures)
                  && (!FailuresChange(w, recorded.results.rows, input.failures) ==>
                        t.results.rows == recorded.results.rows))
  {
    hide RecordPhase, FailurePhase, Mid, Restamped, Settled, Continues, SameReports, Failed, Traced, Present, Aggregate, FailuresChange;
    var fingerprint := c.checkpoint.fingerprint;
    MidRecord(w, chain, base, legacy, previous, c, r);
    var recorded := RecordPhase(w, chain, previous, c, r);
    RecordPhaseKeeps(w, chain, base, legacy, previous, c, fingerprint, r);
    MidFailures(w, chain, base, legacy, recorded, input.failures);
    var t := FailurePhase(w, recorded, input.failures);
    WritesKeepCheckpoint(recorded.results, t.results);
    FailurePhaseKeeps(w, chain, base, legacy, fingerprint, recorded, input.failures);
    KeptTransitive(w, chain, base, legacy, fingerprint, r.results, recorded.results, t.results);
    ContinuesTransitive(r, recorded, t);
    if t.alive {
      ContinuesAlive(r, recorded);
      MidCarried(w, chain, base, legacy, r.results);
      RecordedSettles(w, chain, base, legacy, r.results, recorded.results);
      FailedKeepsSettled(w, chain, recorded.results, t.results, input.failures);
    }
  }

  lemma ContinuesAlive(r: Run, s: Run)
    requires Continues(r, s)
    ensures s.alive ==> r.alive
  {
  }

  lemma RecordPhaseKeeps(w: Environment, chain: Chain, base: Option<nat>, legacy: bool, previous: Option<Checkpoint>, c: Choice, fingerprint: string, r: Run)
    requires |chain| > 0 && Mid(w, chain, base, legacy, RecordPhase(w, chain, previous, c, r).results)
    ensures Kept(w, chain, base, legacy, fingerprint, r.results, RecordPhase(w, chain, previous, c, r).results)
  {
    hide Mid, RecordVersions;
    RecordingKeepsReports(w, chain, r.results, None);
    RecordingKeepsReports(w, chain, r.results, PreviousCommit(previous));
    RecordingKeepsFields(w, chain, r.results, None);
    RecordingKeepsFields(w, chain, r.results, PreviousCommit(previous));
  }

  lemma FailurePhaseKeeps(w: Environment, chain: Chain, base: Option<nat>, legacy: bool, fingerprint: string, r: Run, failures: seq<Failure>)
    requires |chain| > 0 && CarriesFailures(w, failures) && Mid(w, chain, base, legacy, FailurePhase(w, r, failures).results)
    ensures Kept(w, chain, base, legacy, fingerprint, r.results, FailurePhase(w, r, failures).results)
  {
    hide Mid, Failed;
    SaveFailuresSpec(w, r.results.rows, failures);
    FailedRestamps(w, Head(chain), fingerprint, r.results.rows, SaveFailures(w, r.results.rows, failures), failures);
  }

  /** The pass's own record of whether anything it did can have changed a summary. */
  ghost predicate Changed(w: Environment, chain: Chain, previous: Option<Checkpoint>, input: PassInput, c: Choice, docs: set<string>, r: Run)
    requires |chain| > 0 && forall p | p in docs :: p in Head(chain)
  {
    var recorded := RecordPhase(w, chain, previous, c, Validated(w, chain, c, docs, input.walk, Clean(c, r)));
    || WasDirty(previous) || c.full || docs != {} || c.deleted != []
    || FailuresChange(w, recorded.results.rows, input.failures)
  }

  /** When the rebuild is skipped, the published summary is still the aggregate of the rows. */
  lemma SkippedSummaryIsFresh(w: Environment, chain: Chain, base: Option<nat>, legacy: bool, previous: Option<Checkpoint>,
                              c: Choice, start: Results, cleaned: Results, validated: Results, recorded: Results, marked: Results)
    requires |chain| > 0 && Mid(w, chain, base, legacy, start) && start.checkpoint == previous && base.Some?
    requires previous.Some? && !WasDirty(previous) && c.deleted == [] && start.summary.Some?
    requires cleaned.rows == start.rows - AsSet(c.deleted)
    requires ValidatedFrom(w, chain, base, c.checkpoint.fingerprint, {}, cleaned.rows, validated.rows)
    requires SameReports(validated.rows, recorded.rows) && marked.rows == recorded.rows
    requires marked.summary == start.summary
    ensures marked.summary == Some(Aggregate(marked.rows))
  {
    hide Consistent, Carried, Traced, Present;
    NothingChanged(w, Head(chain), c.checkpoint.fingerprint, cleaned.rows, validated.rows);
    assert cleaned.rows == start.rows;
    assert Aggregate(recorded.rows) == Aggregate(start.rows);
  }

  /** Publishing the summary and then the checkpoint. */
  lemma PublishPart(w: Environment, chain: Chain, base: Option<nat>, legacy: bool, fingerprint: string, checkpoint: Checkpoint, changed: bool, r: Run)
    requires ValidChain(chain) && |chain| > 0 && Mid(w, chain, base, legacy, r.results)
    requires checkpoint.commit == chain[|chain| - 1].id
    requires r.alive ==> Settled(w, chain, r.results)
    requires r.alive && !changed && r.results.summary.Some? ==> r.results.summary.value == Aggregate(r.results.rows)
    ensures var s := SummaryPhase(r, changed);
            var t := Transact(s, s.results.(checkpoint := Some(checkpoint)));
            && Continues(r, t) && t.results.rows == r.results.rows
            && (t.alive ==> Completed(w, chain, checkpoint, t.results))
            && (!t.alive ==> Kept(w, chain, base, legacy, fingerprint, r.results, t.results))
  {
    hide Consistent, Carried, Traced, Present, Counted, VersionsOf;
    var s := SummaryPhase(r, changed);
    SummaryKeepsMid(w, chain, base, legacy, r, changed);
    assert Restamped(Head(chain), fingerprint, r.results.rows, s.results.rows);
  }

  lemma SummaryKeepsMid(w: Environment, chain: Chain, base: Option<nat>, legacy: bool, r: Run, changed: bool)
    requires Mid(w, chain, base, legacy, r.results)
    ensures Mid(w, chain, base, legacy, SummaryPhase(r, changed).results)
  {
    hide Carried, Traced, Covered, VersionsAhead;
  }

  /** A completed pass leaves the invariant for the next one. */
  lemma CompletedIsInv(w: Environment, chain: Chain, legacy: bool, checkpoint: Checkpoint, s: Results)
    requires ValidChain(chain) && |chain| > 0 && checkpoint.commit == chain[|chain| - 1].id
    requires Completed(w, chain, checkpoint, s)
    ensures Inv(w, chain, legacy, s)
  {
    hide Traced, Covered, VersionsAhead, Present, Counted, VersionsOf;
    SettledIsConsistent(w, chain, legacy, s);
    IndexOfUnique(chain, |chain| - 1);
  }

  lemma KeepsADocument(w: Environment, chain: Chain, base: Option<nat>, legacy: bool, c: Choice, docs: set<string>, r: Run, validated: Run)
    requires |chain| > 0 && docs <= Advisories(Head(chain)) && Backfillable(legacy, c, docs, r.results) && (base.None? <==> c.baseline)
    requires validated.alive ==>
               && (base.Some? ==> validated.results.versions == r.results.versions)
               && var cleaned := Clean(c, r);
               && cleaned.results.rows == (if base.None? then map[] else r.results.rows - AsSet(c.deleted))
               && ValidatedFrom(w, chain, base, c.checkpoint.fingerprint, docs, cleaned.results.rows, validated.results.rows)
    ensures validated.alive && !c.baseline && Unrecorded(legacy, validated.results) ==> validated.results.rows != map[]
  {
    hide Clean, Advisories, Traced, Present;
    if validated.alive && !c.baseline && Unrecorded(legacy, validated.results) {
      assert validated.results.rows.Keys == r.results.rows.Keys - AsSet(c.deleted) + Urls(docs);
    }
  }

  /** Everything one pass over extracted documents does, wherever it stops. */
  lemma ProcessSpec(w: Environment, chain: Chain, base: Option<nat>, legacy: bool, previous: Option<Checkpoint>,
                    input: PassInput, c: Choice, docs: set<string>, r: Run)
    requires Ready(w, chain, base, previous, input, c, docs) && Mid(w, chain, base, legacy, r.results)
    requires Backfillable(legacy, c, docs, r.results)
    requires c.full || r.results.checkpoint == previous
    ensures var t := Process(w, chain, previous, input, c, docs, r);
            && (!t.alive ==> Kept(w, chain, base, legacy, c.checkpoint.fingerprint, r.results, t.results))
            && (t.alive ==> r.alive && Completed(w, chain, c.checkpoint, t.results))
            && (base.Some? ==> Restamped(Head(chain), c.checkpoint.fingerprint, r.results.rows, t.results.rows))
            && (t.alive ==> Updated(w, Head(chain), c.checkpoint.fingerprint, docs, Removed(c, r.results.rows), FailedSet(input.failures),
                                      r.results.rows, t.results.rows))
  {
    hide Clean, Validated, RecordPhase, FailurePhase, SummaryPhase, Transact, Mid, Restamped, Settled, Completed, Continues,
         SameReports, Failed, Aggregate, FailuresChange, Advisories, Updated, WasDirty;
    assert docs <= Advisories(Head(chain));
    AdvisoriesInTree(Head(chain));
    var fingerprint := c.checkpoint.fingerprint;
    var cleaned := Clean(c, r);
    var validated := Validated(w, chain, c, docs, input.walk, cleaned);
    var recorded := RecordPhase(w, chain, previous, c, validated);
    var marked := FailurePhase(w, recorded, input.failures);
    var changed := Changed(w, chain, previous, input, c, docs, r);
    ValidatePart(w, chain, base, legacy, previous, input, c, docs, r);
    KeepsADocument(w, chain, base, legacy, c, docs, r, validated);
    MarkPart(w, chain, base, legacy, previous, input, c, docs, validated);
    KeptIsMid(w, chain, base, legacy, fingerprint, r.results, validated.results);
    KeptIsMid(w, chain, base, legacy, fingerprint, validated.results, marked.results);
    KeptTransitive(w, chain, base, legacy, fingerprint, r.results, validated.results, marked.results);
    ContinuesAlive(validated, marked);
    ContinuesAlive(r, validated);
    if marked.alive && !changed && marked.results.summary.Some? {
      SkippedSummaryIsFresh(w, chain, base, legacy, previous, c, r.results, cleaned.results, validated.results, recorded.results, marked.results);
    }
    PublishPart(w, chain, base, legacy, fingerprint, c.checkpoint, changed, marked);
    var t := Process(w, chain, previous, input, c, docs, r);
    ContinuesAlive(marked, t);
    if !t.alive { KeptTransitive(w, chain, base, legacy, fingerprint, r.results, marked.results, t.results); }
    if t.alive {
      UpdatedByPhases(w, Head(chain), fingerprint, docs, Removed(c, r.results.rows), input.failures, r.results.rows, cleaned.results.rows,
                      validated.results.rows, recorded.results.rows, marked.results.rows);
    }
  }

  lemma KeptIsMid(w: Environment, chain: Chain, base: Option<nat>, legacy: bool, fingerprint: string, s: Results, t: Results)
    requires Kept(w, chain, base, legacy, fingerprint, s, t)
    ensures Mid(w, chain, base, legacy, t)
  {
  }
}
