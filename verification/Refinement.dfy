/** The main results: over any run, a completed pass leaves what recomputing everything would. */
module Refinement {
  import opened Wrappers
  import opened Paths
  import opened PathSets
  import opened History
  import opened World
  import opened Versions
  import opened Selection
  import opened Store
  import opened Pass
  import opened Invariant
  import opened Phases
  import opened Theorems
  import opened Completion
  import opened Runs

  /** The row of one head advisory, computed from nothing but the history and the shared inputs. */
  function ScratchRow(w: Environment, chain: Chain, fingerprint: string, p: string): Row
    requires |chain| > 0 && p in Head(chain)
  {
    Row(Validate(w, InputsAt(Head(chain), p, fingerprint)), Count(VersionsOf(w.order, chain, |chain|), PathUrl(p)))
  }

  /** One row per head advisory, marked as not retrieved or else storing exactly what validating the head's
      inputs under `fingerprint` gives; counts right even when marked; every other row marked; versions and
      summary recomputed. */
  ghost predicate Refines(w: Environment, chain: Chain, fingerprint: string, s: Results)
    requires |chain| > 0
  {
    && (forall p | p in Advisories(Head(chain)) :: RefinesRow(w, chain, fingerprint, s.rows, p))
    && (forall u | u in s.rows && u !in Urls(Advisories(Head(chain))) :: Marked(s.rows[u]))
    && s.versions == VersionsOf(w.order, chain, |chain|)
    && s.summary == Some(Aggregate(s.rows))
    && s.checkpoint == Some(Checkpoint(chain[|chain| - 1].id, fingerprint, false))
  }

  ghost predicate RefinesRow(w: Environment, chain: Chain, fingerprint: string, rows: Rows, p: string)
    requires |chain| > 0 && p in Head(chain)
  {
    && PathUrl(p) in rows
    && rows[PathUrl(p)].versionCount == Count(VersionsOf(w.order, chain, |chain|), PathUrl(p))
    && (Marked(rows[PathUrl(p)]) || Bare(rows[PathUrl(p)].report) == Bare(w.validate(InputsAt(Head(chain), p, fingerprint))))
  }

  /** Every unmarked row was validated under `fingerprint`. */
  ghost predicate Stamped(fingerprint: string, rows: Rows) {
    forall u | u in rows && !Marked(rows[u]) ::
      rows[u].report.columns.Some? && rows[u].report.columns.value.fingerprint == fingerprint
  }

  /** Without an interrupted foreign pass, rows carry the checkpoint's fingerprint. */
  ghost predicate StampInv(st: State) {
    st.results.checkpoint.Some? && !st.foreign ==> Stamped(st.results.checkpoint.value.fingerprint, st.results.rows)
  }

  /** No unmarked row belongs to an advisory that was gone already at the checkpoint. */
  ghost predicate AnchoredInv(st: State) {
    match BaseOf(st.chain, st.results)
    case None => true
    case Some(i) => Anchored(st.chain, i, st.results.rows)
  }

  // ---------------------------------------------------------------- settled rows are recomputed rows

  lemma SettledRow(w: Environment, chain: Chain, s: Results, u: string)
    requires |chain| > 0 && Settled(w, chain, s) && u in s.rows && !Marked(s.rows[u])
    ensures s.rows[u].report.columns.Some?
    ensures var x := s.rows[u].report.columns.value;
            && IsAdvisory(x.path) && u == PathUrl(x.path)
            && (x.path in Head(chain) ==> s.rows[u].report == Validate(w, InputsAt(Head(chain), x.path, x.fingerprint)))
  {
    hide Counted, Present, VersionsOf, IsAdvisory;
    NothingAfterHead(chain);
    assert TracedRow(w, chain, |chain| - 1, u, s.rows[u]);
  }

  lemma SettledCount(w: Environment, chain: Chain, s: Results, p: string)
    requires |chain| > 0 && Settled(w, chain, s) && p in Advisories(Head(chain))
    ensures PathUrl(p) in s.rows
    ensures s.rows[PathUrl(p)].versionCount == Count(VersionsOf(w.order, chain, |chain|), PathUrl(p))
  {
    hide Traced, VersionsOf, Count;
    assert HasCount(w, chain, |chain|, s.rows, p);
  }

  /** The row's advisory is in the tree, and validating it there under `fingerprint` stores the same as
      under the fingerprint the row was validated with. */
  ghost predicate RowCurrent(w: Environment, tree: Tree, fingerprint: string, report: Report) {
    report.columns.Some? &&
    var x := report.columns.value;
    && x.path in tree
    && Bare(w.validate(InputsAt(tree, x.path, x.fingerprint))) == Bare(w.validate(InputsAt(tree, x.path, fingerprint)))
  }

  ghost predicate AllCurrent(w: Environment, tree: Tree, fingerprint: string, rows: Rows) {
    forall u | u in rows && !Marked(rows[u]) :: RowCurrent(w, tree, fingerprint, rows[u].report)
  }

  lemma CurrentRefines(w: Environment, chain: Chain, fingerprint: string, s: Results, p: string)
    requires |chain| > 0 && Settled(w, chain, s) && p in Advisories(Head(chain))
    requires AllCurrent(w, Head(chain), fingerprint, s.rows)
    ensures RefinesRow(w, chain, fingerprint, s.rows, p)
  {
    hide Settled, VersionsOf, Count, InputsAt, Bare, Validate;
    SettledCount(w, chain, s, p);
    if !Marked(s.rows[PathUrl(p)]) {
      SettledRow(w, chain, s, PathUrl(p));
      var x := s.rows[PathUrl(p)].report.columns.value;
      PathUrlInjective(p, x.path);
      assert RowCurrent(w, Head(chain), fingerprint, s.rows[PathUrl(p)].report);
      ValidateIsBare(w, InputsAt(Head(chain), p, x.fingerprint));
    }
  }

  lemma RefinesIsCurrent(w: Environment, chain: Chain, fingerprint: string, s: Results, u: string)
    requires |chain| > 0 && Settled(w, chain, s) && Refines(w, chain, fingerprint, s) && u in s.rows && !Marked(s.rows[u])
    ensures RowCurrent(w, Head(chain), fingerprint, s.rows[u].report)
  {
    hide Settled, VersionsOf, Count, InputsAt, Bare, Validate, Aggregate;
    SettledRow(w, chain, s, u);
    var x := s.rows[u].report.columns.value;
    var p := UrlOf(Advisories(Head(chain)), u);
    PathUrlInjective(p, x.path);
    assert RefinesRow(w, chain, fingerprint, s.rows, p);
    ValidateIsBare(w, InputsAt(Head(chain), p, x.fingerprint));
  }

  lemma UrlOf(paths: set<string>, u: string) returns (p: string)
    requires u in Urls(paths)
    ensures p in paths && u == PathUrl(p) && u[8..] == p
  {
    p :| p in paths && u == PathUrl(p);
  }

  /** A completed pass refines the recomputation exactly when all its unmarked rows are current. */
  lemma CompletedRefines(w: Environment, chain: Chain, checkpoint: Checkpoint, s: Results)
    requires |chain| > 0 && Completed(w, chain, checkpoint, s)
    requires checkpoint == Checkpoint(chain[|chain| - 1].id, checkpoint.fingerprint, false)
    ensures Refines(w, chain, checkpoint.fingerprint, s) <==> AllCurrent(w, Head(chain), checkpoint.fingerprint, s.rows)
  {
    hide Settled, VersionsOf, Aggregate, RefinesRow, IsAdvisory, RowCurrent;
    var fingerprint := checkpoint.fingerprint;
    SettledVersions(w, chain, s);
    if AllCurrent(w, Head(chain), fingerprint, s.rows) {
      forall p | p in Advisories(Head(chain)) ensures RefinesRow(w, chain, fingerprint, s.rows, p) {
        CurrentRefines(w, chain, fingerprint, s, p);
      }
      forall u | u in s.rows && u !in Urls(Advisories(Head(chain))) ensures Marked(s.rows[u]) {
        if !Marked(s.rows[u]) { CurrentIsAtHead(w, chain, fingerprint, s, u); }
      }
    }
    if Refines(w, chain, fingerprint, s) {
      forall u | u in s.rows && !Marked(s.rows[u]) ensures RowCurrent(w, Head(chain), fingerprint, s.rows[u].report) {
        RefinesIsCurrent(w, chain, fingerprint, s, u);
      }
    }
  }

  lemma CurrentIsAtHead(w: Environment, chain: Chain, fingerprint: string, s: Results, u: string)
    requires |chain| > 0 && Settled(w, chain, s) && u in s.rows && !Marked(s.rows[u])
    requires AllCurrent(w, Head(chain), fingerprint, s.rows)
    ensures u in Urls(Advisories(Head(chain)))
  {
    hide Settled, IsAdvisory;
    SettledRow(w, chain, s, u);
    assert RowCurrent(w, Head(chain), fingerprint, s.rows[u].report);
    assert s.rows[u].report.columns.value.path in Advisories(Head(chain));
  }

  lemma SettledVersions(w: Environment, chain: Chain, s: Results)
    requires |chain| > 0 && Settled(w, chain, s)
    ensures s.versions == VersionsOf(w.order, chain, |chain|)
  {
  }

  lemma StampedIsCurrent(w: Environment, tree: Tree, fingerprint: string, rows: Rows)
    requires Stamped(fingerprint, rows) && AtHead(tree, rows)
    ensures AllCurrent(w, tree, fingerprint, rows)
  {
  }

  /** Every unmarked row belongs to a file of the tree. */
  ghost predicate AtHead(tree: Tree, rows: Rows) {
    forall u | u in rows && !Marked(rows[u]) && rows[u].report.columns.Some? :: rows[u].report.columns.value.path in tree
  }

  // ---------------------------------------------------------------- one pass

  /** A row the pass will neither remove, validate nor mark. */
  predicate Keeps(c: Choice, docs: set<string>, failures: seq<Failure>, rows: Rows, u: string) {
    u in rows && !Marked(rows[u]) && u !in Removed(c, rows) && u !in Urls(docs) && u !in FailedSet(failures)
  }

  ghost predicate KeptRowsCurrent(w: Environment, tree: Tree, c: Choice, docs: set<string>, failures: seq<Failure>, rows: Rows) {
    forall u | u in rows && Keeps(c, docs, failures, rows, u) :: RowCurrent(w, tree, c.checkpoint.fingerprint, rows[u].report)
  }

  lemma ValidatedIsCurrent(w: Environment, tree: Tree, fingerprint: string, p: string)
    requires p in tree
    ensures RowCurrent(w, tree, fingerprint, Validate(w, InputsAt(tree, p, fingerprint)))
  {
  }

  lemma UpdatedCurrent(w: Environment, tree: Tree, c: Choice, docs: set<string>, failures: seq<Failure>, before: Rows, after: Rows)
    requires forall p | p in docs :: p in tree
    requires Updated(w, tree, c.checkpoint.fingerprint, docs, Removed(c, before), FailedSet(failures), before, after)
    ensures AllCurrent(w, tree, c.checkpoint.fingerprint, after) <==> KeptRowsCurrent(w, tree, c, docs, failures, before)
  {
    hide RowCurrent, Removed, Validate, InputsAt;
    var fingerprint := c.checkpoint.fingerprint;
    if AllCurrent(w, tree, fingerprint, after) {
      forall u | u in before && Keeps(c, docs, failures, before, u) ensures RowCurrent(w, tree, fingerprint, before[u].report) {
        assert u in after && after[u].report == before[u].report;
        assert !Marked(after[u]);
      }
    }
    if KeptRowsCurrent(w, tree, c, docs, failures, before) {
      forall u | u in after && !Marked(after[u]) ensures RowCurrent(w, tree, fingerprint, after[u].report) {
        if u in Urls(docs) {
          var p :| p in docs && u == PathUrl(p);
          ValidatedIsCurrent(w, tree, fingerprint, p);
        } else {
          assert Keeps(c, docs, failures, before, u);
        }
      }
    }
  }

  /** A completed pass stores what recomputation would if and only if, for every row it keeps, the advisory is
      still at the head and validates there the same under the row's fingerprint and under the current one:
      a condition on the state the pass starts from. */
  lemma PassRefinesIff(w: Environment, st: State, input: PassInput, c: Choice)
    requires Lawful(w) && RunInv(w, st) && Possible(w, st, RunPass(input, Some(c)))
    requires ProcessSnapshot(w, st.chain, st.results, input, Some(c)).alive
    ensures var t := ProcessSnapshot(w, st.chain, st.results, input, Some(c)).results;
            var docs := Extracted(w, st.chain, st.results, input, c);
            && docs.Some?
            && (Refines(w, st.chain, c.checkpoint.fingerprint, t)
                <==> KeptRowsCurrent(w, Head(st.chain), c, docs.value, input.failures, st.results.rows))
  {
    hide ProcessSnapshot, Extracted, Updated, Completed, Refines, Inv, CarriesAll, Chooses, AllCurrent, KeptRowsCurrent, Removed;
    PassSpec(w, false, st, input, Some(c));
    ChosenCommit(st.chain, st.results.checkpoint, c.checkpoint.fingerprint, input.force, c);
    var t := ProcessSnapshot(w, st.chain, st.results, input, Some(c)).results;
    var docs := Extracted(w, st.chain, st.results, input, c).value;
    CompletedRefines(w, st.chain, c.checkpoint, t);
    UpdatedCurrent(w, Head(st.chain), c, docs, input.failures, st.results.rows, t.rows);
  }

  // ---------------------------------------------------------------- directories in an advisory's place

  lemma InvRow(w: Environment, st: State, u: string)
    requires RunInv(w, st) && BaseOf(st.chain, st.results).Some? && u in st.results.rows && !Marked(st.results.rows[u])
    ensures st.results.rows[u].report.columns.Some?
    ensures var p := st.results.rows[u].report.columns.value.path; IsAdvisory(p) && u == PathUrl(p)
  {
    hide Numbered, Stocked, IsAdvisory;
    assert TracedRow(w, st.chain, BaseOf(st.chain, st.results).value, u, st.results.rows[u]);
  }

  /** A kept row's advisory is gone from the head exactly when a directory answers for its path. */
  lemma KeptGoneIffDirectory(w: Environment, st: State, input: PassInput, c: Choice, u: string)
    requires RunInv(w, st) && AnchoredInv(st) && Possible(w, st, RunPass(input, Some(c))) && !c.baseline
    requires u in st.results.rows && !Marked(st.results.rows[u]) && u !in Removed(c, st.results.rows)
    ensures st.results.rows[u].report.columns.Some?
    ensures var p := st.results.rows[u].report.columns.value.path;
            p !in Head(st.chain) <==> GetPath(Head(st.chain), p).Directory?
  {
    hide Inv, CarriesAll, Changes, IsAdvisory;
    var chain, s := st.chain, st.results;
    ChosenBasis(w, chain, false, s, c.checkpoint.fingerprint, input.force, c);
    var i := BaseOf(chain, s).value;
    InvRow(w, st, u);
    var p := s.rows[u].report.columns.value.path;
    assert AnchoredRow(chain, i, s.rows[u]);
    if p !in Head(chain) {
      if p !in Changes(chain, i) { UnchangedOutside(chain, i, p, |chain| - 1); }
      assert PathUrl(p) !in SelectedDeleted(chain, Changes(chain, i));
    }
  }

  /** Where no row was gone already at the checkpoint: a completed pass stores what recomputation would if and
      only if no directory stands in the place of a kept row's advisory, and each kept row's inputs validate
      the same under both fingerprints. */
  lemma PassRefinesIffNoDirectory(w: Environment, st: State, input: PassInput, c: Choice)
    requires Lawful(w) && RunInv(w, st) && AnchoredInv(st) && Possible(w, st, RunPass(input, Some(c)))
    requires ProcessSnapshot(w, st.chain, st.results, input, Some(c)).alive
    ensures var t := ProcessSnapshot(w, st.chain, st.results, input, Some(c)).results;
            var docs := Extracted(w, st.chain, st.results, input, c);
            && docs.Some?
            && (Refines(w, st.chain, c.checkpoint.fingerprint, t)
                <==> forall u | u in st.results.rows && Keeps(c, docs.value, input.failures, st.results.rows, u) ::
                       SameUnderBoth(w, Head(st.chain), c.checkpoint.fingerprint, st.results.rows[u].report))
  {
    hide ProcessSnapshot, Extracted, Refines, Inv, CarriesAll, Chooses, RowCurrent, SameUnderBoth, AnchoredInv, Removed;
    PassRefinesIff(w, st, input, c);
    var docs := Extracted(w, st.chain, st.results, input, c).value;
    forall u | u in st.results.rows && Keeps(c, docs, input.failures, st.results.rows, u)
      ensures RowCurrent(w, Head(st.chain), c.checkpoint.fingerprint, st.results.rows[u].report)
              <==> SameUnderBoth(w, Head(st.chain), c.checkpoint.fingerprint, st.results.rows[u].report)
    {
      BaselineKeepsNothing(st, c, u);
      KeptGoneIffDirectory(w, st, input, c, u);
      CurrentIffSame(w, Head(st.chain), c.checkpoint.fingerprint, st.results.rows[u].report);
    }
  }

  /** No directory answers for the row's path, and if the file is there, both fingerprints validate it the same. */
  ghost predicate SameUnderBoth(w: Environment, tree: Tree, fingerprint: string, report: Report) {
    report.columns.Some? &&
    var x := report.columns.value;
    && !GetPath(tree, x.path).Directory?
    && (x.path in tree ==>
          Bare(w.validate(InputsAt(tree, x.path, x.fingerprint))) == Bare(w.validate(InputsAt(tree, x.path, fingerprint))))
  }

  lemma CurrentIffSame(w: Environment, tree: Tree, fingerprint: string, report: Report)
    requires report.columns.Some?
    requires report.columns.value.path !in tree <==> GetPath(tree, report.columns.value.path).Directory?
    ensures RowCurrent(w, tree, fingerprint, report) <==> SameUnderBoth(w, tree, fingerprint, report)
  {
    hide InputsAt, Bare;
  }

  lemma BaselineKeepsNothing(st: State, c: Choice, u: string)
    ensures c.baseline && u in st.results.rows ==> u in Removed(c, st.results.rows)
  {
  }

  lemma UnshadowedRow(st: State, input: PassInput, c: Choice, u: string)
    requires |st.chain| > 0 && !c.baseline && Unshadowed(st, RunPass(input, Some(c)))
    requires u in st.results.rows && !Marked(st.results.rows[u]) && st.results.rows[u].report.columns.Some?
    ensures !GetPath(Head(st.chain), st.results.rows[u].report.columns.value.path).Directory?
  {
  }

  /** When no directory stands in a row's place, every unmarked row of a completed pass is at the head. */
  lemma PassEndsAtHead(w: Environment, st: State, input: PassInput, c: Choice)
    requires Lawful(w) && RunInv(w, st) && AnchoredInv(st)
    requires Possible(w, st, RunPass(input, Some(c))) && Unshadowed(st, RunPass(input, Some(c)))
    requires ProcessSnapshot(w, st.chain, st.results, input, Some(c)).alive
    ensures AtHead(Head(st.chain), ProcessSnapshot(w, st.chain, st.results, input, Some(c)).results.rows)
  {
    hide ProcessSnapshot, Extracted, Inv, CarriesAll, Chooses, Removed, Completed, AnchoredInv, InputsAt;
    PassSpec(w, false, st, input, Some(c));
    var t := ProcessSnapshot(w, st.chain, st.results, input, Some(c)).results;
    var docs := Extracted(w, st.chain, st.results, input, c).value;
    forall u | u in t.rows && !Marked(t.rows[u]) && t.rows[u].report.columns.Some?
      ensures t.rows[u].report.columns.value.path in Head(st.chain)
    {
      if u in Urls(docs) {
        var p :| p in docs && u == PathUrl(p);
        ValidatedIsCurrent(w, Head(st.chain), c.checkpoint.fingerprint, p);
      } else {
        assert u in st.results.rows && t.rows[u].report == st.results.rows[u].report;
        BaselineKeepsNothing(st, c, u);
        KeptGoneIffDirectory(w, st, input, c, u);
        UnshadowedRow(st, input, c, u);
      }
    }
  }

  /** Then rows stay anchored, whatever happens to the pass. */
  lemma PassKeepsAnchored(w: Environment, st: State, input: PassInput, choice: Option<Choice>)
    requires Lawful(w) && RunInv(w, st) && AnchoredInv(st)
    requires Possible(w, st, RunPass(input, choice)) && Unshadowed(st, RunPass(input, choice))
    ensures AnchoredInv(Next(w, st, RunPass(input, choice)))
  {
    hide ProcessSnapshot, Extracted, Inv, CarriesAll, Chooses, Removed, Updated, Anchored, Restamped, Unshadowed;
    PassSpec(w, false, st, input, choice);
    var t := ProcessSnapshot(w, st.chain, st.results, input, choice);
    if t.alive {
      PassEndsAtHead(w, st, input, choice.value);
      ChosenCommit(st.chain, st.results.checkpoint, choice.value.checkpoint.fingerprint, input.force, choice.value);
      CompletedCheckpointIs(w, st.chain, choice.value.checkpoint, t.results);
      IndexOfUnique(st.chain, |st.chain| - 1);
      AtHeadIsAnchored(st.chain, t.results.rows);
    } else if t.results.checkpoint.Some? && BaseOf(st.chain, st.results).Some? && choice.Some? {
      RestampedKeepsAnchored(st.chain, BaseOf(st.chain, st.results).value, choice.value.checkpoint.fingerprint, st.results.rows, t.results.rows);
    }
  }

  lemma CompletedCheckpointIs(w: Environment, chain: Chain, checkpoint: Checkpoint, s: Results)
    requires |chain| > 0 && Completed(w, chain, checkpoint, s)
    ensures s.checkpoint == Some(checkpoint)
  {
  }

  lemma AtHeadIsAnchored(chain: Chain, rows: Rows)
    requires |chain| > 0 && AtHead(Head(chain), rows)
    ensures Anchored(chain, |chain| - 1, rows)
  {
  }

  // ---------------------------------------------------------------- fingerprints

  /** A full pass leaves no row of another fingerprint at the head, whatever it found. */
  lemma FullPassStamps(w: Environment, st: State, input: PassInput, c: Choice)
    requires Lawful(w) && RunInv(w, st) && Possible(w, st, RunPass(input, Some(c)))
    requires ProcessSnapshot(w, st.chain, st.results, input, Some(c)).alive && c.full
    requires AtHead(Head(st.chain), ProcessSnapshot(w, st.chain, st.results, input, Some(c)).results.rows)
    ensures Stamped(c.checkpoint.fingerprint, ProcessSnapshot(w, st.chain, st.results, input, Some(c)).results.rows)
  {
    hide ProcessSnapshot, Inv, CarriesAll, Chooses, Removed, Settled;
    PassSpec(w, false, st, input, Some(c));
    var t := ProcessSnapshot(w, st.chain, st.results, input, Some(c)).results;
    forall u | u in t.rows && !Marked(t.rows[u])
      ensures t.rows[u].report.columns.Some? && t.rows[u].report.columns.value.fingerprint == c.checkpoint.fingerprint
    {
      SettledRow(w, st.chain, t, u);
      assert t.rows[u].report.columns.value.path in Extracted(w, st.chain, st.results, input, c).value;
    }
  }

  lemma StampedRestamped(tree: Tree, fingerprint: string, before: Rows, after: Rows)
    requires Stamped(fingerprint, before) && Restamped(tree, fingerprint, before, after)
    ensures Stamped(fingerprint, after)
  {
    forall u | u in after && !Marked(after[u])
      ensures after[u].report.columns.Some? && after[u].report.columns.value.fingerprint == fingerprint
    {
      if u in before && after[u].report == before[u].report { assert !Marked(before[u]); }
    }
  }

  lemma SameRowsStamped(fingerprint: string, before: Rows, after: Rows)
    requires Stamped(fingerprint, before) && after == before
    ensures Stamped(fingerprint, after)
  {
  }

  /** When the fingerprint does not return too early, a pass keeps the fingerprint discipline,
      and completes only with rows of its own fingerprint. */
  lemma PassStamps(w: Environment, st: State, input: PassInput, choice: Option<Choice>)
    requires Lawful(w) && RunInv(w, st) && StampInv(st) && AnchoredInv(st)
    requires Possible(w, st, RunPass(input, choice)) && NoReturn(st, RunPass(input, choice)) && Unshadowed(st, RunPass(input, choice))
    ensures StampInv(Next(w, st, RunPass(input, choice)))
    ensures var t := ProcessSnapshot(w, st.chain, st.results, input, choice);
            t.alive ==> choice.Some? && Stamped(choice.value.checkpoint.fingerprint, t.results.rows)
                        && AtHead(Head(st.chain), t.results.rows)
  {
    hide ProcessSnapshot, Extracted, Inv, CarriesAll, Stamped, Restamped, Updated, Unshadowed, AnchoredInv;
    PassSpec(w, false, st, input, choice);
    var s, t := st.results, ProcessSnapshot(w, st.chain, st.results, input, choice);
    if t.alive { PassEndsAtHead(w, st, input, choice.value); }
    if choice.None? {
      if s.checkpoint.Some? && !st.foreign { SameRowsStamped(s.checkpoint.value.fingerprint, s.rows, t.results.rows); }
    } else {
      var fingerprint := choice.value.checkpoint.fingerprint;
      if t.alive && choice.value.full {
        FullPassStamps(w, st, input, choice.value);
      } else if s.checkpoint.Some? && !st.foreign && s.checkpoint.value.fingerprint == fingerprint {
        StampedRestamped(Head(st.chain), fingerprint, s.rows, t.results.rows);
      }
    }
  }

  // ---------------------------------------------------------------- whole runs

  ghost predicate ValidRun(w: Environment, st: State, events: seq<Event>)
    decreases |events|
  {
    events != [] ==> Possible(w, st, events[0]) && ValidRun(w, Next(w, st, events[0]), events[1..])
  }

  ghost function Exec(w: Environment, st: State, events: seq<Event>): State
    requires ValidRun(w, st, events)
    decreases |events|
  {
    if events == [] then st else Exec(w, Next(w, st, events[0]), events[1..])
  }

  /** No fingerprint returns early anywhere in the run. */
  ghost predicate NeverReturns(w: Environment, st: State, events: seq<Event>)
    requires ValidRun(w, st, events)
    decreases |events|
  {
    events != [] ==> NoReturn(st, events[0]) && NeverReturns(w, Next(w, st, events[0]), events[1..])
  }

  /** No pass of the run meets a directory in the place of a stored advisory. */
  ghost predicate NeverShadowed(w: Environment, st: State, events: seq<Event>)
    requires ValidRun(w, st, events)
    decreases |events|
  {
    events != [] ==> Unshadowed(st, events[0]) && NeverShadowed(w, Next(w, st, events[0]), events[1..])
  }

  ghost predicate Disciplined(w: Environment, st: State, events: seq<Event>)
    requires ValidRun(w, st, events)
  {
    NeverReturns(w, st, events) && NeverShadowed(w, st, events)
  }

  /** A new provider: no history, no results. */
  const INITIAL := State([], Results(map[], [], None, None), false)

  lemma NextKeepsRunInv(w: Environment, st: State, e: Event)
    requires Lawful(w) && RunInv(w, st) && Possible(w, st, e)
    ensures RunInv(w, Next(w, st, e))
  {
    hide ProcessSnapshot, Chooses, CarriesAll, Inv, Extracted;
    match e
    case Append(commit) => CommitKeepsInv(w, st.chain, false, commit, st.results);
    case RunPass(input, choice) => PassSpec(w, false, st, input, choice);
  }

  /** Every state of every run satisfies the invariant, however often passes die. */
  lemma {:induction false} RunKeepsInv(w: Environment, st: State, events: seq<Event>)
    requires Lawful(w) && RunInv(w, st) && ValidRun(w, st, events)
    ensures RunInv(w, Exec(w, st, events))
    decreases |events|
  {
    hide RunInv, Possible, Next;
    if events != [] {
      NextKeepsRunInv(w, st, events[0]);
      RunKeepsInv(w, Next(w, st, events[0]), events[1..]);
    }
  }

  lemma AppendKeepsDiscipline(w: Environment, st: State, e: Event)
    requires RunInv(w, st) && Possible(w, st, e) && e.Append? && StampInv(st) && AnchoredInv(st)
    ensures StampInv(Next(w, st, e)) && AnchoredInv(Next(w, st, e))
  {
    hide Numbered, Stocked, Traced, Carried, Anchored;
    if st.results.checkpoint.Some? {
      var i := BaseOf(st.chain, st.results).value;
      assert (st.chain + [e.commit])[i] == st.chain[i];
      IndexOfUnique(st.chain + [e.commit], i);
      AnchoredGrows(st.chain, e.commit, i, st.results.rows);
    }
  }

  lemma {:induction false} RunKeepsDiscipline(w: Environment, st: State, events: seq<Event>)
    requires Lawful(w) && RunInv(w, st) && StampInv(st) && AnchoredInv(st) && ValidRun(w, st, events) && Disciplined(w, st, events)
    ensures StampInv(Exec(w, st, events)) && AnchoredInv(Exec(w, st, events))
    decreases |events|
  {
    hide RunInv, Possible, Next, StampInv, AnchoredInv, NoReturn, Unshadowed;
    if events != [] {
      NextKeepsRunInv(w, st, events[0]);
      match events[0] {
        case Append(_) => AppendKeepsDiscipline(w, st, events[0]);
        case RunPass(input, choice) => {
          PassStamps(w, st, input, choice);
          PassKeepsAnchored(w, st, input, choice);
        }
      }
      RunKeepsDiscipline(w, Next(w, st, events[0]), events[1..]);
    }
  }

  lemma InitialInv(w: Environment)
    ensures RunInv(w, INITIAL) && StampInv(INITIAL) && AnchoredInv(INITIAL)
  {
  }

  /** After a disciplined run, a completed pass has only rows of its own fingerprint and of the head. */
  lemma DisciplinedPass(w: Environment, events: seq<Event>, input: PassInput, choice: Option<Choice>)
    requires Lawful(w) && ValidRun(w, INITIAL, events) && Disciplined(w, INITIAL, events)
    requires var st := Exec(w, INITIAL, events);
             && Possible(w, st, RunPass(input, choice)) && NoReturn(st, RunPass(input, choice)) && Unshadowed(st, RunPass(input, choice))
             && ProcessSnapshot(w, st.chain, st.results, input, choice).alive
    ensures var st := Exec(w, INITIAL, events);
            var t := ProcessSnapshot(w, st.chain, st.results, input, choice).results;
            && RunInv(w, st) && choice.Some? && Completed(w, st.chain, choice.value.checkpoint, t)
            && Stamped(choice.value.checkpoint.fingerprint, t.rows) && AtHead(Head(st.chain), t.rows)
  {
    hide RunInv, StampInv, ValidRun, Disciplined, Exec, NoReturn, Unshadowed, ProcessSnapshot, Completed, Stamped, AtHead,
         Chooses, CarriesAll, Extracted, Updated, Inv, AnchoredInv;
    InitialInv(w);
    RunKeepsInv(w, INITIAL, events);
    RunKeepsDiscipline(w, INITIAL, events);
    var st := Exec(w, INITIAL, events);
    RunInvParts(w, st);
    PassSpec(w, false, st, input, choice);
    PassStamps(w, st, input, choice);
  }

  lemma RunInvParts(w: Environment, st: State)
    requires RunInv(w, st)
    ensures ValidChain(st.chain) && Inv(w, st.chain, false, st.results)
  {
  }

  /** Crash-safe refinement: after any run of commits, completed and interrupted passes, a pass that
      completes leaves the recomputed results, and its summary is the aggregate of the rows. */
  lemma CrashSafeRefinement(w: Environment, events: seq<Event>, input: PassInput, choice: Option<Choice>)
    requires Lawful(w) && ValidRun(w, INITIAL, events) && Disciplined(w, INITIAL, events)
    requires var st := Exec(w, INITIAL, events);
             && Possible(w, st, RunPass(input, choice)) && NoReturn(st, RunPass(input, choice)) && Unshadowed(st, RunPass(input, choice))
             && ProcessSnapshot(w, st.chain, st.results, input, choice).alive
    ensures var st := Exec(w, INITIAL, events);
            choice.Some? && Refines(w, st.chain, choice.value.checkpoint.fingerprint,
                                    ProcessSnapshot(w, st.chain, st.results, input, choice).results)
  {
    hide RunInv, ValidRun, Disciplined, Exec, NoReturn, Unshadowed, ProcessSnapshot, Refines, Completed, Stamped, AtHead,
         AllCurrent, Chooses, CarriesAll;
    DisciplinedPass(w, events, input, choice);
    var st := Exec(w, INITIAL, events);
    var c, t := choice.value, ProcessSnapshot(w, st.chain, st.results, input, choice).results;
    ChosenCommit(st.chain, st.results.checkpoint, c.checkpoint.fingerprint, input.force, c);
    StampedIsCurrent(w, Head(st.chain), c.checkpoint.fingerprint, t.rows);
    CompletedRefines(w, st.chain, c.checkpoint, t);
  }

  /** Without the hypotheses on fingerprints and directories, history, counts, presence and summary are still
      right, and every unmarked row of a head advisory is its validation there under some fingerprint. */
  lemma CrashSafeUpToFingerprint(w: Environment, events: seq<Event>, input: PassInput, choice: Option<Choice>)
    requires Lawful(w) && ValidRun(w, INITIAL, events)
    requires Possible(w, Exec(w, INITIAL, events), RunPass(input, choice))
    requires var st := Exec(w, INITIAL, events);
             ProcessSnapshot(w, st.chain, st.results, input, choice).alive
    ensures var st := Exec(w, INITIAL, events);
            choice.Some? && Completed(w, st.chain, choice.value.checkpoint,
                                      ProcessSnapshot(w, st.chain, st.results, input, choice).results)
  {
    hide ProcessSnapshot, Completed, Possible, Exec, Extracted, Updated, RunInv, Inv;
    InitialInv(w);
    RunKeepsInv(w, INITIAL, events);
    RunInvParts(w, Exec(w, INITIAL, events));
    PassSpec(w, false, Exec(w, INITIAL, events), input, choice);
  }

  // ---------------------------------------------------------------- equal to a rebuild

  /** The results of recomputing everything from the head. */
  ghost function Rebuilt(w: Environment, chain: Chain, fingerprint: string): Results
    requires |chain| > 0
  {
    var rows := map u | u in Urls(Advisories(Head(chain))) :: ScratchRow(w, chain, fingerprint, u[8..]);
    Results(rows, VersionsOf(w.order, chain, |chain|), Some(Checkpoint(chain[|chain| - 1].id, fingerprint, false)), Some(Aggregate(rows)))
  }

  lemma ScratchRowsAreRebuilt(w: Environment, chain: Chain, fingerprint: string, rows: Rows)
    requires |chain| > 0 && rows.Keys == Urls(Advisories(Head(chain)))
    requires forall p | p in Advisories(Head(chain)) :: PathUrl(p) in rows && rows[PathUrl(p)] == ScratchRow(w, chain, fingerprint, p)
    ensures rows == Rebuilt(w, chain, fingerprint).rows
  {
    hide ScratchRow, Advisories;
    AdvisoriesInTree(Head(chain));
    forall u | u in rows ensures rows[u] == Rebuilt(w, chain, fingerprint).rows[u] {
      var p := UrlOf(Advisories(Head(chain)), u);
    }
  }

  lemma CurrentRowIsScratch(w: Environment, chain: Chain, fingerprint: string, s: Results, p: string)
    requires |chain| > 0 && Settled(w, chain, s) && p in Advisories(Head(chain))
    requires Stamped(fingerprint, s.rows) && forall u | u in s.rows :: !Marked(s.rows[u])
    ensures PathUrl(p) in s.rows && s.rows[PathUrl(p)] == ScratchRow(w, chain, fingerprint, p)
  {
    hide Settled, VersionsOf, Count, InputsAt, Validate, IsAdvisory;
    SettledCount(w, chain, s, p);
    SettledRow(w, chain, s, PathUrl(p));
    PathUrlInjective(p, s.rows[PathUrl(p)].report.columns.value.path);
  }

  lemma UnmarkedIsAtHead(w: Environment, chain: Chain, s: Results, u: string)
    requires |chain| > 0 && Settled(w, chain, s) && AtHead(Head(chain), s.rows) && u in s.rows && !Marked(s.rows[u])
    ensures u in Urls(Advisories(Head(chain)))
  {
    hide Settled, IsAdvisory;
    SettledRow(w, chain, s, u);
    assert s.rows[u].report.columns.value.path in Advisories(Head(chain));
  }

  /** With nothing left unretrieved, foreign or gone, completed results are the recomputed ones. */
  lemma CompletedIsRebuilt(w: Environment, chain: Chain, checkpoint: Checkpoint, s: Results)
    requires |chain| > 0 && Completed(w, chain, checkpoint, s)
    requires checkpoint == Checkpoint(chain[|chain| - 1].id, checkpoint.fingerprint, false)
    requires Stamped(checkpoint.fingerprint, s.rows) && AtHead(Head(chain), s.rows) && forall u | u in s.rows :: !Marked(s.rows[u])
    ensures s == Rebuilt(w, chain, checkpoint.fingerprint)
  {
    hide Settled, VersionsOf, Count, InputsAt, Validate, Advisories, ScratchRow, AtHead, Stamped, Marked;
    AdvisoriesInTree(Head(chain));
    forall p | p in Advisories(Head(chain))
      ensures PathUrl(p) in s.rows && s.rows[PathUrl(p)] == ScratchRow(w, chain, checkpoint.fingerprint, p)
    {
      CurrentRowIsScratch(w, chain, checkpoint.fingerprint, s, p);
    }
    forall u | u in s.rows ensures u in Urls(Advisories(Head(chain))) { UnmarkedIsAtHead(w, chain, s, u); }
    forall u | u in Urls(Advisories(Head(chain))) ensures u in s.rows {
      var p := UrlOf(Advisories(Head(chain)), u);
    }
    assert s.rows.Keys == Urls(Advisories(Head(chain)));
    ScratchRowsAreRebuilt(w, chain, checkpoint.fingerprint, s.rows);
    SettledVersions(w, chain, s);
  }

  /** A completed pass that removed every old row and marked none holds the recomputed rows. */
  lemma AllValidatedIsRebuilt(w: Environment, chain: Chain, checkpoint: Checkpoint, removed: set<string>, before: Rows, s: Results)
    requires |chain| > 0 && Completed(w, chain, checkpoint, s) && before.Keys <= removed
    requires checkpoint == Checkpoint(chain[|chain| - 1].id, checkpoint.fingerprint, false)
    requires Updated(w, Head(chain), checkpoint.fingerprint, Advisories(Head(chain)), removed, {}, before, s.rows)
    ensures s == Rebuilt(w, chain, checkpoint.fingerprint)
  {
    hide Settled, VersionsOf, Count, InputsAt, Validate, Advisories;
    AdvisoriesInTree(Head(chain));
    forall p | p in Advisories(Head(chain))
      ensures PathUrl(p) in s.rows && s.rows[PathUrl(p)] == ScratchRow(w, chain, checkpoint.fingerprint, p)
    {
      SettledCount(w, chain, s, p);
    }
    assert before.Keys - removed == {};
    ScratchRowsAreRebuilt(w, chain, checkpoint.fingerprint, s.rows);
    SettledVersions(w, chain, s);
  }

  lemma WithoutCheckpointEverything(w: Environment, chain: Chain, s: Results, input: PassInput, c: Choice)
    requires |chain| > 0 && s.checkpoint.None? && Chooses(chain, s.checkpoint, c.checkpoint.fingerprint, input.force, c)
    ensures Extracted(w, chain, s, input, c) == Some(Advisories(Head(chain))) && Removed(c, s.rows) == s.rows.Keys
  {
  }

  /** A pass over a database without a checkpoint recomputes everything, whatever rows it found there. */
  lemma BaselineIsRebuilt(w: Environment, st: State, input: PassInput, c: Choice)
    requires Lawful(w) && RunInv(w, st) && Possible(w, st, RunPass(input, Some(c)))
    requires st.results.checkpoint.None? && input.failures == []
    requires ProcessSnapshot(w, st.chain, st.results, input, Some(c)).alive
    ensures ProcessSnapshot(w, st.chain, st.results, input, Some(c)).results == Rebuilt(w, st.chain, c.checkpoint.fingerprint)
  {
    hide ProcessSnapshot, CarriesAll, Inv, Completed, Updated, Extracted, Removed, Chooses, Rebuilt, Advisories;
    PassSpec(w, false, st, input, Some(c));
    WithoutCheckpointEverything(w, st.chain, st.results, input, c);
    ChosenCommit(st.chain, st.results.checkpoint, c.checkpoint.fingerprint, input.force, c);
    assert FailedSet(input.failures) == {};
    AllValidatedIsRebuilt(w, st.chain, c.checkpoint, st.results.rows.Keys, st.results.rows,
                          ProcessSnapshot(w, st.chain, st.results, input, Some(c)).results);
  }

  /** After any run, once nothing is left unretrieved, a completed pass equals a pass over an empty database. */
  lemma IncrementalEqualsRebuild(w: Environment, events: seq<Event>, input: PassInput, c: Choice, input0: PassInput, c0: Choice)
    requires Lawful(w) && ValidRun(w, INITIAL, events) && Disciplined(w, INITIAL, events)
    requires var st := Exec(w, INITIAL, events);
             && Possible(w, st, RunPass(input, Some(c))) && NoReturn(st, RunPass(input, Some(c))) && Unshadowed(st, RunPass(input, Some(c)))
             && ProcessSnapshot(w, st.chain, st.results, input, Some(c)).alive
             && forall row | row in ProcessSnapshot(w, st.chain, st.results, input, Some(c)).results.rows.Values :: !Marked(row)
    requires var st0 := INITIAL.(chain := Exec(w, INITIAL, events).chain);
             && Possible(w, st0, RunPass(input0, Some(c0))) && input0.failures == [] && input0.identity == input.identity
             && ProcessSnapshot(w, st0.chain, st0.results, input0, Some(c0)).alive
    ensures var st := Exec(w, INITIAL, events);
            ProcessSnapshot(w, st.chain, st.results, input, Some(c)).results
            == ProcessSnapshot(w, st.chain, INITIAL.results, input0, Some(c0)).results
  {
    hide ProcessSnapshot, CarriesAll, Inv, ValidRun, Disciplined, Exec, Extracted, Chooses, NoReturn, Unshadowed, Rebuilt, Completed,
         Stamped, AtHead;
    var st := Exec(w, INITIAL, events);
    DisciplinedPass(w, events, input, Some(c));
    var t := ProcessSnapshot(w, st.chain, st.results, input, Some(c)).results;
    forall u | u in t.rows ensures !Marked(t.rows[u]) { assert t.rows[u] in t.rows.Values; }
    ChosenCommit(st.chain, st.results.checkpoint, c.checkpoint.fingerprint, input.force, c);
    CompletedIsRebuilt(w, st.chain, c.checkpoint, t);
    var st0 := INITIAL.(chain := st.chain);
    EmptyInv(w, st.chain);
    BaselineIsRebuilt(w, st0, input0, c0);
  }

  lemma EmptyInv(w: Environment, chain: Chain)
    ensures Inv(w, chain, false, INITIAL.results)
  {
  }

  // ---------------------------------------------------------------- marks and retries

  /** Exactly which rows are marked after a completed pass: those that failed now, those validated into a
      failure, and those that were marked and that the pass neither removed nor validated. */
  lemma MarkedExactly(w: Environment, st: State, input: PassInput, c: Choice, u: string)
    requires Lawful(w) && RunInv(w, st) && Possible(w, st, RunPass(input, Some(c)))
    requires ProcessSnapshot(w, st.chain, st.results, input, Some(c)).alive
    requires u in ProcessSnapshot(w, st.chain, st.results, input, Some(c)).results.rows
    ensures var before, after := st.results.rows, ProcessSnapshot(w, st.chain, st.results, input, Some(c)).results.rows;
            var docs := Extracted(w, st.chain, st.results, input, c).value;
            Marked(after[u]) <==>
              || u in FailedSet(input.failures)
              || (exists p | p in docs :: u == PathUrl(p)
                    && Validate(w, InputsAt(Head(st.chain), p, c.checkpoint.fingerprint)).retrievalError.Some?)
              || (u !in Urls(docs) && u in before && Marked(before[u]))
  {
    hide ProcessSnapshot, Extracted, Inv, CarriesAll, Chooses, Removed, Completed, Validate, InputsAt;
    PassSpec(w, false, st, input, Some(c));
    var docs := Extracted(w, st.chain, st.results, input, c).value;
    if u in Urls(docs) {
      var p := UrlOf(docs, u);
      forall q | q in docs && u == PathUrl(q) ensures q == p { PathUrlInjective(p, q); }
    }
  }

  /** A failed document that was downloaded again is validated, even when its bytes did not change. */
  lemma RecoveredIsValidated(w: Environment, st: State, input: PassInput, c: Choice, p: string)
    requires Lawful(w) && RunInv(w, st) && Possible(w, st, RunPass(input, Some(c))) && !c.full
    requires ProcessSnapshot(w, st.chain, st.results, input, Some(c)).alive
    requires PathUrl(p) in st.results.rows && Marked(st.results.rows[PathUrl(p)]) && IsAdvisory(p)
    requires w.gitPath(PathUrl(p)) == Some(Some(p)) && p in input.downloads && PathUrl(p) !in FailedSet(input.failures)
    ensures var t := ProcessSnapshot(w, st.chain, st.results, input, Some(c)).results;
            && p in Head(st.chain) && PathUrl(p) in t.rows
            && t.rows[PathUrl(p)].report == Validate(w, InputsAt(Head(st.chain), p, c.checkpoint.fingerprint))
  {
    hide ProcessSnapshot, Extracted, Inv, CarriesAll, Chooses, Removed, Completed, Validate, InputsAt, IsAdvisory;
    PassSpec(w, false, st, input, Some(c));
    DownloadedIsExtracted(w, st.chain, st.results, input, c, p);
  }

  lemma DownloadedIsExtracted(w: Environment, chain: Chain, s: Results, input: PassInput, c: Choice, p: string)
    requires |chain| > 0 && !c.full && Extracted(w, chain, s, input, c).Some?
    requires PathUrl(p) in s.rows && Marked(s.rows[PathUrl(p)]) && IsAdvisory(p)
    requires w.gitPath(PathUrl(p)) == Some(Some(p)) && p in input.downloads
    ensures p in Extracted(w, chain, s, input, c).value
  {
    hide IsAdvisory;
    assert PathUrl(p) in FailedUrls(s.rows);
    var recovered := Recovered(w, s.rows, input.downloads).value;
    assert p in recovered;
    assert p in c.advisories + recovered;
  }

  /** A forced pass that dies after it began leaves no checkpoint, so the next pass recomputes everything. */
  lemma ForcedPassIsRetried(w: Environment, st: State, input: PassInput, choice: Option<Choice>, next: PassInput, c: Choice)
    requires Lawful(w) && RunInv(w, st) && Possible(w, st, RunPass(input, choice))
    requires input.force && input.budget > 0 && !ProcessSnapshot(w, st.chain, st.results, input, choice).alive
    requires Possible(w, Next(w, st, RunPass(input, choice)), RunPass(next, Some(c)))
    ensures c.baseline && c.full
  {
    hide Process, Inv, CarriesAll, Extracted, Ready;
    SnapshotShape(w, st.chain, st.results, input, choice);
    var r := Cleared(st.results, input);
    assert r.alive && r.results.checkpoint.None?;
    if choice.Some? && Extracted(w, st.chain, st.results, input, choice.value).Some? {
      DeadProcessKeepsCheckpoint(w, st, input, choice.value);
    }
  }

  lemma DeadProcessKeepsCheckpoint(w: Environment, st: State, input: PassInput, c: Choice)
    requires Lawful(w) && RunInv(w, st) && Possible(w, st, RunPass(input, Some(c)))
    requires Extracted(w, st.chain, st.results, input, c).Some?
    ensures var r := Cleared(st.results, input);
            var docs := Extracted(w, st.chain, st.results, input, c).value;
            var t := Process(w, st.chain, st.results.checkpoint, input, c, docs, r);
            !t.alive ==> SameCheckpoint(r.results.checkpoint, t.results.checkpoint)
  {
    hide Process, Inv, CarriesAll, Extracted, Ready, Mid, Restamped, Completed, Updated, Chooses, Cleared;
    var docs := Extracted(w, st.chain, st.results, input, c).value;
    PassIsReady(w, false, st, input, c, docs);
    ClearedMid(w, st.chain, false, st.results, input);
    ChosenCommit(st.chain, st.results.checkpoint, c.checkpoint.fingerprint, input.force, c);
    ProcessSpec(w, st.chain, BaseOf(st.chain, st.results), false, st.results.checkpoint, input, c, docs, Cleared(st.results, input));
  }

  // ---------------------------------------------------------------- completion is always possible

  lemma {:induction false} DeletePagesAlive(r: Run, urls: seq<string>)
    requires r.alive && r.budget >= |urls|
    ensures DeletePages(r, urls).alive && DeletePages(r, urls).budget >= r.budget - |urls|
    decreases |urls|
  {
    hide DeleteUrls;
    if urls != [] {
      var n := if |urls| <= PATH_BATCH then |urls| else PATH_BATCH;
      DeletePagesAlive(Transact(r, DeleteUrls(r.results, urls[..n])), urls[n..]);
    }
  }

  lemma {:induction false} ValidateAllAlive(w: Environment, tree: Tree, fingerprint: string, docs: set<string>, walk: seq<string>, v: Visit)
    requires forall p | p in docs :: p in tree
    requires v.run.alive && v.visited <= docs && v.run.budget >= |docs - v.visited|
    requires forall p | p in docs :: p in v.visited || p in walk
    ensures var t := ValidateAll(w, tree, fingerprint, docs, walk, v);
            t.run.alive && t.visited == docs && t.run.budget >= v.run.budget - |docs - v.visited|
    decreases |walk|
  {
    hide SaveDocument;
    if walk == [] {
      assert v.visited == docs;
    } else {
      var p := walk[0];
      if p in docs && p !in v.visited {
        assert p in docs - v.visited;
        assert docs - (v.visited + {p}) == (docs - v.visited) - {p};
        var next := Transact(v.run, SaveDocument(w, v.run.results, InputsAt(tree, p, fingerprint)));
        ValidateAllAlive(w, tree, fingerprint, docs, walk[1..], Visit(next, v.visited + {p}));
      } else {
        ValidateAllAlive(w, tree, fingerprint, docs, walk[1..], v);
      }
    }
  }

  lemma CleanAlive(c: Choice, r: Run)
    requires r.alive && r.budget >= 4 + |c.deleted|
    ensures Clean(c, r).alive && Clean(c, r).budget >= r.budget - 4 - |c.deleted|
  {
    hide DropFailures, DropVulnerabilities, DropRevisions;
    if !c.baseline { DeletePagesAlive(r, c.deleted); }
  }

  /** From any state, a pass whose inputs can be read and that is not killed completes. */
  lemma PassCompletes(w: Environment, st: State, input: PassInput, c: Choice, docs: set<string>)
    requires Possible(w, st, RunPass(input, Some(c)))
    requires Extracted(w, st.chain, st.results, input, c) == Some(docs)
    requires forall p | p in docs :: p in input.walk
    requires input.budget >= 9 + |c.deleted| + |docs|
    ensures ProcessSnapshot(w, st.chain, st.results, input, Some(c)).alive
  {
    hide ProcessSnapshot, Extracted, Clean, ValidateAll, RecordVersions, SaveRetrievalErrors, FailuresChange, WasDirty, Aggregate, Chooses, CarriesAll;
    SnapshotShape(w, st.chain, st.results, input, Some(c));
    var r := Cleared(st.results, input);
    CleanAlive(c, r);
    assert docs - {} == docs;
    ValidateAllAlive(w, Head(st.chain), c.checkpoint.fingerprint, docs, input.walk, Visit(Clean(c, r), {}));
  }
}
