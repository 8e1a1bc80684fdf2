/** Databases that were filled before versions were recorded: a checkpoint and rows, but no versions. */
module Legacy {
  import opened Wrappers
  import opened Strings
  import opened Paths
  import opened History
  import opened World
  import opened Versions
  import opened Selection
  import opened Store
  import opened Pass
  import opened Invariant
  import opened Phases
  import opened Theorems
  import opened Completion
  import opened Runs

  /** A stored legacy database: everything but versions and counts satisfies the invariant. */
  ghost predicate LegacyInv(w: Environment, st: State) {
    && ValidChain(st.chain) && Inv(w, st.chain, true, st.results)
    && st.results.versions == [] && st.results.checkpoint.Some?
  }

  /** A pass over a legacy database that dies leaves one, or has already recorded everything; one that completes
      with a document left settles it, and its counts, like any other. */
  lemma LegacyPass(w: Environment, st: State, input: PassInput, c: Choice, docs: set<string>)
    requires Lawful(w) && LegacyInv(w, st) && Possible(w, st, RunPass(input, Some(c)))
    requires Extracted(w, st.chain, st.results, input, c) == Some(docs) && Backfillable(true, c, docs, st.results)
    ensures var t := ProcessSnapshot(w, st.chain, st.results, input, Some(c));
            && Inv(w, st.chain, true, t.results)
            && (t.alive ==> Completed(w, st.chain, c.checkpoint, t.results) && Inv(w, st.chain, false, t.results))
  {
    hide ProcessSnapshot, Extracted, Updated, Completed, Inv, CarriesAll, Chooses, Backfillable;
    PassSpec(w, true, st, input, Some(c));
    ChosenCommit(st.chain, st.results.checkpoint, c.checkpoint.fingerprint, input.force, c);
    var t := ProcessSnapshot(w, st.chain, st.results, input, Some(c));
    if t.alive { CompletedIsInv(w, st.chain, false, c.checkpoint, t.results); }
  }

  // ---------------------------------------------------------------- nothing left to backfill for

  lemma NothingLeft(rows: Rows, deleted: set<string>, docs: set<string>)
    requires rows.Keys - deleted + Urls(docs) == {}
    ensures rows - deleted == map[] && docs == {}
  {
    forall p | p in docs ensures PathUrl(p) in rows.Keys - deleted + Urls(docs) {}
    assert (rows - deleted).Keys == {};
  }

  /** Without a document left, recording starts at the checkpoint: earlier versions are not rebuilt. */
  lemma EmptiedRecording(w: Environment, chain: Chain, i: nat, previous: Option<Checkpoint>, c: Choice, r: Run)
    requires Enumerates(w.order) && ValidChain(chain) && i < |chain| && Basis(chain, previous, c, Some(i))
    requires r.results.rows == map[] && r.results.versions == []
    requires RecordPhase(w, chain, previous, c, r).alive
    ensures RecordPhase(w, chain, previous, c, r).results.versions == VersionsOf(w.order, chain, |chain|)
            <==> VersionsOf(w.order, chain, i + 1) == []
  {
    hide VersionsOf, InsertCommits, SelectedHistory, RefreshCounts, TouchedUrls;
    if c.history != {} {
      ScanFromKnown(chain, i);
      LaterAloneIsRebuild(w.order, chain, i + 1);
    } else {
      UnchangedHistory(w, chain, i);
    }
  }

  lemma UnchangedHistory(w: Environment, chain: Chain, i: nat)
    requires Enumerates(w.order) && i < |chain| && SelectedHistory(Changes(chain, i)) == {}
    ensures VersionsOf(w.order, chain, |chain|) == VersionsOf(w.order, chain, i + 1)
  {
    forall p | p in Changes(chain, i) ensures !IsAdvisory(p) {
      assert p !in SelectedHistory(Changes(chain, i));
    }
    NothingRecordedSince(w.order, chain, i, |chain|);
  }

  lemma LaterPhasesKeepVersions(w: Environment, recorded: Run, failures: seq<Failure>, changed: bool, checkpoint: Checkpoint)
    ensures var marked := FailurePhase(w, recorded, failures);
            var s := SummaryPhase(marked, changed);
            var t := Transact(s, s.results.(checkpoint := Some(checkpoint)));
            t.results.versions == recorded.results.versions && (t.alive ==> recorded.alive)
  {
    hide SaveFailures, FailuresChange, Aggregate;
  }

  lemma ProcessVersions(w: Environment, chain: Chain, previous: Option<Checkpoint>, input: PassInput, c: Choice, docs: set<string>, r: Run)
    requires |chain| > 0 && forall p | p in docs :: p in Head(chain)
    ensures var t := Process(w, chain, previous, input, c, docs, r);
            var recorded := RecordPhase(w, chain, previous, c, Validated(w, chain, c, docs, input.walk, Clean(c, r)));
            t.results.versions == recorded.results.versions && (t.alive ==> recorded.alive)
  {
    hide Clean, Validated, RecordPhase, FailurePhase, SummaryPhase, FailuresChange, Transact, WasDirty;
    var recorded := RecordPhase(w, chain, previous, c, Validated(w, chain, c, docs, input.walk, Clean(c, r)));
    LaterPhasesKeepVersions(w, recorded, input.failures, true, c.checkpoint);
    LaterPhasesKeepVersions(w, recorded, input.failures, false, c.checkpoint);
  }

  lemma RecordPhaseAlive(w: Environment, chain: Chain, previous: Option<Checkpoint>, c: Choice, r: Run)
    ensures RecordPhase(w, chain, previous, c, r).alive ==> r.alive
  {
    hide RecordVersions;
  }

  /** The last document is gone: the table is then right exactly when nothing had to be recorded before the checkpoint. */
  lemma EmptiedPass(w: Environment, st: State, input: PassInput, c: Choice, docs: set<string>)
    requires Lawful(w) && LegacyInv(w, st) && Possible(w, st, RunPass(input, Some(c)))
    requires Extracted(w, st.chain, st.results, input, c) == Some(docs) && !Backfillable(true, c, docs, st.results)
    requires ProcessSnapshot(w, st.chain, st.results, input, Some(c)).alive
    ensures BaseOf(st.chain, st.results).Some?
    ensures ProcessSnapshot(w, st.chain, st.results, input, Some(c)).results.versions == VersionsOf(w.order, st.chain, |st.chain|)
            <==> VersionsOf(w.order, st.chain, BaseOf(st.chain, st.results).value + 1) == []
  {
    hide Process, Inv, Extracted, CarriesAll, Mid, Ready, Cleared, Clean, Validated, RecordPhase, ProcessSnapshot, ValidatedFrom,
         Kept, Chooses, Removed, VersionsOf;
    var chain, s := st.chain, st.results;
    var base, cleared := BaseOf(chain, s), Cleared(s, input);
    BaseOfSome(w, chain, true, s);
    SnapshotShape(w, chain, s, input, Some(c));
    ClearedMid(w, chain, true, s, input);
    PassIsReady(w, true, st, input, c, docs);
    ReadyBasis(w, chain, base, s.checkpoint, input, c, docs);
    ValidatePart(w, chain, base, true, s.checkpoint, input, c, docs, cleared);
    var validated := Validated(w, chain, c, docs, input.walk, Clean(c, cleared));
    ProcessVersions(w, chain, s.checkpoint, input, c, docs, cleared);
    RecordPhaseAlive(w, chain, s.checkpoint, c, validated);
    NothingLeft(s.rows, AsSet(c.deleted), docs);
    ValidatedNothing(w, chain, base, c.checkpoint.fingerprint, Clean(c, cleared).results.rows, validated.results.rows);
    EmptiedRecording(w, chain, base.value, s.checkpoint, c, validated);
  }

  lemma ReadyBasis(w: Environment, chain: Chain, base: Option<nat>, previous: Option<Checkpoint>, input: PassInput, c: Choice, docs: set<string>)
    requires Ready(w, chain, base, previous, input, c, docs)
    ensures Basis(chain, previous, c, base) && docs <= Advisories(Head(chain))
  {
  }

  lemma ValidatedNothing(w: Environment, chain: Chain, base: Option<nat>, fingerprint: string, cleaned: Rows, rows: Rows)
    requires |chain| > 0 && ValidatedFrom(w, chain, base, fingerprint, {}, cleaned, rows)
    ensures rows == cleaned
  {
    NothingChanged(w, Head(chain), fingerprint, cleaned, rows);
  }

  /** After a completed pass over a legacy database the version table is the rebuilt one if and only if a
      document was left to backfill for, or nothing had to be recorded before its checkpoint. */
  lemma LegacyRebuiltIff(w: Environment, st: State, input: PassInput, c: Choice)
    requires Lawful(w) && LegacyInv(w, st) && Possible(w, st, RunPass(input, Some(c)))
    requires ProcessSnapshot(w, st.chain, st.results, input, Some(c)).alive
    ensures BaseOf(st.chain, st.results).Some? && Extracted(w, st.chain, st.results, input, c).Some?
    ensures ProcessSnapshot(w, st.chain, st.results, input, Some(c)).results.versions == VersionsOf(w.order, st.chain, |st.chain|)
            <==> || Backfillable(true, c, Extracted(w, st.chain, st.results, input, c).value, st.results)
                 || VersionsOf(w.order, st.chain, BaseOf(st.chain, st.results).value + 1) == []
  {
    hide ProcessSnapshot, Extracted, Inv, CarriesAll, Chooses, Backfillable, VersionsOf, Completed;
    SnapshotShape(w, st.chain, st.results, input, Some(c));
    BaseOfSome(w, st.chain, true, st.results);
    var docs := Extracted(w, st.chain, st.results, input, c).value;
    if Backfillable(true, c, docs, st.results) {
      LegacyPass(w, st, input, c, docs);
      CompletedVersions(w, st.chain, c.checkpoint, ProcessSnapshot(w, st.chain, st.results, input, Some(c)).results);
    } else {
      EmptiedPass(w, st, input, c, docs);
    }
  }

  lemma CompletedVersions(w: Environment, chain: Chain, checkpoint: Checkpoint, s: Results)
    requires |chain| > 0 && Completed(w, chain, checkpoint, s)
    ensures s.versions == VersionsOf(w.order, chain, |chain|)
  {
  }
}
