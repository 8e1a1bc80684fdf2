/** Failure marks: what a pass does to them wherever it stops, and what a sync then forgets. */
module Marks {
  import opened Wrappers
  import opened Strings
  import opened Paths
  import opened History
  import opened World
  import opened Selection
  import opened Store
  import opened Pass
  import opened Invariant
  import opened Phases
  import opened Theorems
  import opened Completion
  import opened Runs
  import opened Refinement
  import Sync

  function MarkedUrls(rows: Rows): set<string> {
    set u | u in rows && Marked(rows[u])
  }

  // ---------------------------------------------------------------- phase by phase

  /** Rows may go, but those that stay keep their marks. */
  ghost predicate MarksKept(before: Rows, after: Rows) {
    after.Keys <= before.Keys && forall u | u in after :: Marked(after[u]) <==> Marked(before[u])
  }

  lemma MarksKeptTransitive(a: Rows, b: Rows, c: Rows)
    requires MarksKept(a, b) && MarksKept(b, c)
    ensures MarksKept(a, c)
  {
    forall u | u in c ensures Marked(c[u]) <==> Marked(a[u]) {
      assert u in b;
    }
  }

  lemma DropsKeepMarks(s: Results)
    ensures MarksKept(s.rows, DropFailures(s).rows) && MarksKept(s.rows, DropVulnerabilities(s).rows)
    ensures MarksKept(s.rows, DropRevisions(s).rows) && MarksKept(s.rows, DropDocuments(s).rows)
  {
  }

  lemma TransactKeepsMarks(r: Run, next: Results)
    requires MarksKept(r.results.rows, next.rows)
    ensures MarksKept(r.results.rows, Transact(r, next).results.rows)
  {
  }

  /** Removing results changes no mark of a row that stays. */
  lemma CleanKeepsMarks(c: Choice, r: Run)
    ensures MarksKept(r.results.rows, Clean(c, r).results.rows)
  {
    hide DeletePages, Transact, DropFailures, DropVulnerabilities, DropRevisions, DropDocuments, MarksKept;
    if c.baseline {
      var r1 := Transact(r, DropFailures(r.results));
      var r2 := Transact(r1, DropVulnerabilities(r1.results));
      var r3 := Transact(r2, DropRevisions(r2.results));
      var r4 := Transact(r3, DropDocuments(r3.results));
      DropsKeepMarks(r.results);
      DropsKeepMarks(r1.results);
      DropsKeepMarks(r2.results);
      DropsKeepMarks(r3.results);
      TransactKeepsMarks(r, DropFailures(r.results));
      TransactKeepsMarks(r1, DropVulnerabilities(r1.results));
      TransactKeepsMarks(r2, DropRevisions(r2.results));
      TransactKeepsMarks(r3, DropDocuments(r3.results));
      MarksKeptTransitive(r.results.rows, r1.results.rows, r2.results.rows);
      MarksKeptTransitive(r.results.rows, r2.results.rows, r3.results.rows);
      MarksKeptTransitive(r.results.rows, r3.results.rows, r4.results.rows);
    } else {
      DeletePagesSpec(r, c.deleted);
      ShrunkKeepsMarks(r.results.rows, DeletePages(r, c.deleted).results.rows, AsSet(c.deleted));
    }
  }

  lemma ShrunkKeepsMarks(before: Rows, after: Rows, urls: set<string>)
    requires Shrunk(before, after, urls)
    ensures MarksKept(before, after)
  {
  }

  lemma RecordPhaseKeepsReports(w: Environment, chain: Chain, previous: Option<Checkpoint>, c: Choice, r: Run)
    ensures SameReports(r.results.rows, RecordPhase(w, chain, previous, c, r).results.rows)
  {
    hide RecordVersions;
    RecordingKeepsReports(w, chain, r.results, None);
    RecordingKeepsReports(w, chain, r.results, PreviousCommit(previous));
  }

  /** The failures of the pass are on disk once its failure transaction, if it needs one, has committed. */
  predicate FailuresWritten(recorded: Run, failures: seq<Failure>) {
    failures == [] || (recorded.alive && recorded.budget > 0)
  }

  lemma FailurePhaseMarks(w: Environment, r: Run, failures: seq<Failure>)
    requires CarriesFailures(w, failures)
    ensures var t := FailurePhase(w, r, failures);
            && MarkedUrls(t.results.rows) == MarkedUrls(r.results.rows) + (if FailuresWritten(r, failures) then FailedSet(failures) else {})
            && (t.alive ==> FailuresWritten(r, failures))
  {
    hide SaveFailures, FailuresChange;
    SaveFailuresSpec(w, r.results.rows, failures);
  }

  lemma LastPhasesKeepRows(r: Run, changed: bool, checkpoint: Checkpoint)
    ensures var s := SummaryPhase(r, changed);
            var t := Transact(s, s.results.(checkpoint := Some(checkpoint)));
            t.results.rows == r.results.rows && (t.alive ==> r.alive)
  {
    hide Aggregate;
  }

  lemma SameReportsSameMarks(before: Rows, after: Rows)
    requires SameReports(before, after)
    ensures MarkedUrls(after) == MarkedUrls(before)
  {
  }

  // ---------------------------------------------------------------- one pass

  /** The documents a pass has saved by the time it stops. */
  ghost function Met(w: Environment, chain: Chain, c: Choice, docs: set<string>, walk: seq<string>, cleaned: Run): set<string>
    requires |chain| > 0 && forall p | p in docs :: p in Head(chain)
  {
    ValidateAll(w, Head(chain), c.checkpoint.fingerprint, docs, walk, Visit(cleaned, {})).visited
  }

  predicate ReadableDocument(w: Environment, tree: Tree, fingerprint: string, p: string)
    requires p in tree
  {
    Validate(w, InputsAt(tree, p, fingerprint)).retrievalError.None?
  }

  /** URLs whose marks a pass takes away, URLs it marks while validating, and whether it wrote its failures. */
  datatype Marking = Marking(cleared: set<string>, unreadable: set<string>, written: bool)

  /** What a pass does to marks: it takes them with the rows it removes and from the documents it validates, and
      puts them on those that validate as unreadable. */
  ghost function MarkingOf(w: Environment, chain: Chain, previous: Option<Checkpoint>, input: PassInput, c: Choice, docs: set<string>, r: Run): Marking
    requires |chain| > 0 && docs <= Head(chain).Keys
  {
    var cleaned := Clean(c, r);
    var met := Met(w, chain, c, docs, input.walk, cleaned) * docs;
    var readable := set p | p in met && ReadableDocument(w, Head(chain), c.checkpoint.fingerprint, p);
    Marking(r.results.rows.Keys - cleaned.results.rows.Keys + Urls(readable), Urls(met - readable),
            FailuresWritten(RecordPhase(w, chain, previous, c, Validated(w, chain, c, docs, input.walk, cleaned)), input.failures))
  }

  /** Validation takes marks from what it finds readable and puts them on the rest. */
  lemma RevalidatedMarks(w: Environment, tree: Tree, fingerprint: string, met: set<string>, readable: set<string>, before: Rows, after: Rows)
    requires forall p | p in met :: p in tree
    requires readable == set p | p in met && ReadableDocument(w, tree, fingerprint, p)
    requires Revalidated(w, tree, fingerprint, met, before, after)
    ensures MarkedUrls(after) == MarkedUrls(before) - Urls(readable) + Urls(met - readable)
  {
    hide Validate, InputsAt;
    forall u | u in after ensures Marked(after[u]) <==> u in MarkedUrls(before) - Urls(readable) + Urls(met - readable) {
      if u in Urls(met) {
        var p := UrlOf(met, u);
        forall q | q in met && PathUrl(q) == u ensures q == p { PathUrlInjective(p, q); }
        assert Marked(after[u]) <==> !ReadableDocument(w, tree, fingerprint, p);
        assert p in readable <==> u in Urls(readable);
      } else {
        assert u !in Urls(readable) && u !in Urls(met - readable);
      }
    }
    forall u | u in MarkedUrls(before) - Urls(readable) + Urls(met - readable) ensures u in after {
      if u in Urls(met - readable) { assert u in Urls(met); }
    }
  }

  /** Which rows are marked after processing, wherever it stopped. */
  lemma ProcessMarks(w: Environment, chain: Chain, base: Option<nat>, previous: Option<Checkpoint>, input: PassInput, c: Choice, docs: set<string>, r: Run)
    requires Ready(w, chain, base, previous, input, c, docs) && Mid(w, chain, base, false, r.results) && docs <= Head(chain).Keys
    ensures var t := Process(w, chain, previous, input, c, docs, r);
            var m := MarkingOf(w, chain, previous, input, c, docs, r);
            && MarkedUrls(t.results.rows)
               == MarkedUrls(r.results.rows) - m.cleared + m.unreadable + (if m.written then FailedSet(input.failures) else {})
            && (t.alive ==> m.written)
  {
    hide Clean, Validated, RecordPhase, FailurePhase, SummaryPhase, Transact, Mid, FailuresChange, WasDirty, FailuresWritten,
         Revalidated, CarriesAll, Marked, SameReports, Continues, Aggregate, Lawful, CoversChanges, ReadableDocument, MarkedUrls;
    var fingerprint := c.checkpoint.fingerprint;
    var cleaned := Clean(c, r);
    var validated := Validated(w, chain, c, docs, input.walk, cleaned);
    var recorded := RecordPhase(w, chain, previous, c, validated);
    var marked := FailurePhase(w, recorded, input.failures);
    ValidationMarks(w, chain, base, previous, input, c, docs, r);
    RecordPhaseKeepsReports(w, chain, previous, c, validated);
    SameReportsSameMarks(validated.results.rows, recorded.results.rows);
    FailurePhaseMarks(w, recorded, input.failures);
    LastPhasesKeepRows(marked, true, c.checkpoint);
    LastPhasesKeepRows(marked, false, c.checkpoint);
  }

  /** What cleaning and validation have done to the rows. */
  lemma MetRevalidated(w: Environment, chain: Chain, base: Option<nat>, previous: Option<Checkpoint>, input: PassInput, c: Choice, docs: set<string>, r: Run)
    requires Ready(w, chain, base, previous, input, c, docs) && Mid(w, chain, base, false, r.results) && docs <= Head(chain).Keys
    ensures var cleaned := Clean(c, r);
            var met := Met(w, chain, c, docs, input.walk, cleaned);
            && met <= docs
            && Revalidated(w, Head(chain), c.checkpoint.fingerprint, met, cleaned.results.rows,
                           Validated(w, chain, c, docs, input.walk, cleaned).results.rows)
  {
    hide Clean, ValidateAll, Mid, Revalidated, CarriesAll, Continues, Writes, Changes, Basis, SelectedDeleted, CoversChanges, Advisories;
    CleanSpec(w, chain, base, false, previous, c, r);
    CoveredDocs(chain, base, docs);
    MidValidateAll(w, chain, base, false, c.checkpoint.fingerprint, docs, input.walk, Clean(c, r));
  }

  lemma KeptMarks(before: Rows, after: Rows)
    requires MarksKept(before, after)
    ensures MarkedUrls(after) == MarkedUrls(before) - (before.Keys - after.Keys)
  {
  }

  /** Cleaning and validation. */
  lemma ValidationMarks(w: Environment, chain: Chain, base: Option<nat>, previous: Option<Checkpoint>, input: PassInput, c: Choice, docs: set<string>, r: Run)
    requires Ready(w, chain, base, previous, input, c, docs) && Mid(w, chain, base, false, r.results) && docs <= Head(chain).Keys
    ensures var m := MarkingOf(w, chain, previous, input, c, docs, r);
            MarkedUrls(Validated(w, chain, c, docs, input.walk, Clean(c, r)).results.rows)
            == MarkedUrls(r.results.rows) - m.cleared + m.unreadable
  {
    hide Clean, Validated, RecordPhase, Mid, Revalidated, Met, MarkedUrls, MarksKept, FailuresWritten, ReadableDocument, Urls, Lawful,
         CoversChanges, CarriesAll, CarriesFailures, SelectedDeleted, Changes;
    var cleaned := Clean(c, r);
    CleanKeepsMarks(c, r);
    KeptMarks(r.results.rows, cleaned.results.rows);
    MetRevalidated(w, chain, base, previous, input, c, docs, r);
    var met := Met(w, chain, c, docs, input.walk, cleaned);
    assert met * docs == met;
    assert forall p | p in met :: p in docs && p in Head(chain).Keys;
    var readable := set p | p in met && ReadableDocument(w, Head(chain), c.checkpoint.fingerprint, p);
    RevalidatedMarks(w, Head(chain), c.checkpoint.fingerprint, met, readable, cleaned.results.rows,
                     Validated(w, chain, c, docs, input.walk, cleaned).results.rows);
  }

  // ---------------------------------------------------------------- whole passes

  /** Marks before the pass that are gone, marks validation set, and whether the failures were written. */
  ghost function PassMarking(w: Environment, st: State, input: PassInput, choice: Option<Choice>): Marking
    requires |st.chain| > 0
  {
    var r := Cleared(st.results, input);
    if !r.alive || choice.None? || Extracted(w, st.chain, st.results, input, choice.value).None? then Marking({}, {}, false)
    else MarkingOf(w, st.chain, st.results.checkpoint, input, choice.value, Extracted(w, st.chain, st.results, input, choice.value).value, r)
  }

  /** Exactly which URLs are marked after a pass, wherever it died: those marked before, without the rows it removed and
      the documents it found readable, with those it found unreadable, and with its failures once they are written. */
  lemma MarksAfterPass(w: Environment, st: State, input: PassInput, choice: Option<Choice>)
    requires Lawful(w) && RunInv(w, st) && Possible(w, st, RunPass(input, choice))
    ensures var t := ProcessSnapshot(w, st.chain, st.results, input, choice);
            var m := PassMarking(w, st, input, choice);
            && MarkedUrls(t.results.rows)
               == MarkedUrls(st.results.rows) - m.cleared + m.unreadable + (if m.written then FailedSet(input.failures) else {})
            && (t.alive ==> m.written)
  {
    hide Process, Inv, CarriesAll, Chooses, Extracted, ProcessSnapshot, MarkingOf, MarkedUrls, Ready, Mid, Cleared;
    var chain, s, r := st.chain, st.results, Cleared(st.results, input);
    SnapshotShape(w, chain, s, input, choice);
    ClearedMid(w, chain, false, s, input);
    if r.alive && choice.Some? && Extracted(w, chain, s, input, choice.value).Some? {
      var docs := Extracted(w, chain, s, input, choice.value).value;
      PassIsReady(w, false, st, input, choice.value, docs);
      assert forall p | p in docs :: p in Head(chain);
      ProcessMarks(w, chain, BaseOf(chain, s), s.checkpoint, input, choice.value, docs, r);
    }
  }

  /** Once validation has finished, every extracted document was met. */
  lemma FinishedMeetsAll(w: Environment, st: State, input: PassInput, c: Choice, docs: set<string>)
    requires Lawful(w) && RunInv(w, st) && Possible(w, st, RunPass(input, Some(c)))
    requires Extracted(w, st.chain, st.results, input, c) == Some(docs)
    requires Validated(w, st.chain, c, docs, input.walk, Clean(c, Cleared(st.results, input))).alive
    ensures Met(w, st.chain, c, docs, input.walk, Clean(c, Cleared(st.results, input))) == docs
  {
    hide Process, Inv, CarriesAll, Chooses, Extracted, Clean, Cleared, ValidateAll, Ready, Mid, Revalidated;
    var base, r := BaseOf(st.chain, st.results), Cleared(st.results, input);
    ClearedMid(w, st.chain, false, st.results, input);
    PassIsReady(w, false, st, input, c, docs);
    MetRevalidated(w, st.chain, base, st.results.checkpoint, input, c, docs, r);
    AllVisited(Met(w, st.chain, c, docs, input.walk, Clean(c, r)), docs);
  }

  // ---------------------------------------------------------------- passes as steps of a sync

  /** The advisories Git has, by URL; a blob's identity stands for its content. */
  function GitOf(tree: Tree): map<string, string> {
    map u | u in Urls(Advisories(tree)) :: tree[u[8..]]
  }

  /** The sync's copy is the head of the history, or empty before the first commit. */
  predicate Mirrors(chain: Chain, y: Sync.State) {
    y.git == if chain == [] then map[] else GitOf(Head(chain))
  }

  /** The tree has the advisory with this URL, with this content. */
  predicate HasCopy(tree: Tree, url: string, content: string) {
    exists p | p in tree :: IsAdvisory(p) && PathUrl(p) == url && tree[p] == content
  }

  lemma GitOfAt(tree: Tree, p: string)
    ensures PathUrl(p) in GitOf(tree) <==> p in tree && IsAdvisory(p)
    ensures PathUrl(p) in GitOf(tree) ==> GitOf(tree)[PathUrl(p)] == tree[p]
  {
    hide IsAdvisory;
    if PathUrl(p) in GitOf(tree) {
      var q := UrlOf(Advisories(tree), PathUrl(p));
      PathUrlInjective(p, q);
      assert PathUrl(p)[8..] == p;
    }
    if p in Advisories(tree) { assert PathUrl(p) in Urls(Advisories(tree)); }
  }

  /** What the sync sees as lacking is what the head lacks. */
  lemma DiffersIff(tree: Tree, y: Sync.State, u: string)
    requires y.git == GitOf(tree)
    ensures Sync.Differs(y, u) <==> u in y.remote && !HasCopy(tree, u, y.remote[u].content)
  {
    hide IsAdvisory, GitOf;
    if u in y.remote && HasCopy(tree, u, y.remote[u].content) {
      var p :| p in tree && IsAdvisory(p) && PathUrl(p) == u && tree[p] == y.remote[u].content;
      GitOfAt(tree, p);
    }
    if u in y.remote && !Sync.Differs(y, u) {
      var p := UrlInGit(tree, u);
      GitOfAt(tree, p);
    }
  }

  lemma UrlInGit(tree: Tree, u: string) returns (p: string)
    requires u in GitOf(tree)
    ensures IsAdvisory(p) && u == PathUrl(p)
  {
    p := UrlOf(Advisories(tree), u);
  }

  /** What a pass is to the sync it is part of, or to the one that runs next. */
  function StepsOf(m: Marking, alive: bool, revalidation: bool): seq<Sync.Step> {
    if revalidation then
      if m.written then [Sync.Revalidate(m.cleared, m.unreadable)] else [Sync.DieRevalidating(m.cleared, m.unreadable)]
    else if alive then [Sync.Process(m.cleared, m.unreadable)]
    else if m.written then [Sync.Process(m.cleared, m.unreadable), Sync.Abort]
    else [Sync.DieProcessing(m.cleared, m.unreadable)]
  }

  /** The pass belongs to a committed sync, whose errors it is given, or is a revalidation, given the stored failures. */
  ghost predicate PassOf(y: Sync.State, input: PassInput, revalidation: bool) {
    if revalidation then y.run.None? && FailedSet(input.failures) == y.failed
    else y.run.Some? && y.run.value.stage.Committed? && FailedSet(input.failures) == Sync.Errors(y.run.value)
  }

  /** The marked rows are what a sync knows of failures, and stay so over every pass. */
  lemma PassIsStep(w: Environment, st: State, input: PassInput, choice: Option<Choice>, y: Sync.State, revalidation: bool)
    requires Lawful(w) && RunInv(w, st) && Possible(w, st, RunPass(input, choice))
    requires y.failed == MarkedUrls(st.results.rows) && PassOf(y, input, revalidation)
    ensures var t := ProcessSnapshot(w, st.chain, st.results, input, choice);
            Sync.Perform(y, StepsOf(PassMarking(w, st, input, choice), t.alive, revalidation)).failed == MarkedUrls(t.results.rows)
  {
    hide Inv, RunInv, Possible, ProcessSnapshot, PassMarking, MarkedUrls, FailedSet;
    PassHasHistory(w, st, input, choice);
    MarksAfterPass(w, st, input, choice);
    var m := PassMarking(w, st, input, choice);
    Sync.PerformNothing(y);
    StepAlone(y, StepsOf(m, true, revalidation)[0]);
    StepAlone(y, StepsOf(m, false, revalidation)[0]);
    var process := [Sync.Process(m.cleared, m.unreadable)];
    Sync.PerformMore(y, process, Sync.Abort);
    assert process + [Sync.Abort] == [Sync.Process(m.cleared, m.unreadable), Sync.Abort];
  }

  lemma PassHasHistory(w: Environment, st: State, input: PassInput, choice: Option<Choice>)
    requires Possible(w, st, RunPass(input, choice))
    ensures |st.chain| > 0
  {
  }

  lemma StepAlone(y: Sync.State, step: Sync.Step)
    ensures Sync.Perform(y, [step]) == Sync.Do(y, step)
  {
    assert [step] == [step] + [];
    Sync.PerformFirst(y, step, []);
    Sync.PerformNothing(Sync.Do(y, step));
  }

  /** From a state in which nothing is missed, a pass, dead or complete, forgets exactly the listed documents that the
      head lacks, that are older than the token, and whose row it removed or whose old copy it found readable,
      unless it found them unreadable or wrote their failure. */
  lemma PassForgetsExactly(w: Environment, st: State, input: PassInput, choice: Option<Choice>, y: Sync.State, revalidation: bool, u: string)
    requires Lawful(w) && RunInv(w, st) && Possible(w, st, RunPass(input, choice))
    requires y.failed == MarkedUrls(st.results.rows) && Mirrors(st.chain, y)
    requires PassOf(y, input, revalidation) && Sync.Valid(y) && y.token.Some?
    ensures |st.chain| > 0
    ensures var t := ProcessSnapshot(w, st.chain, st.results, input, choice);
            var m := PassMarking(w, st, input, choice);
            Sync.Forgotten(Sync.Perform(y, StepsOf(m, t.alive, revalidation)), u) <==>
              && u in y.remote && !HasCopy(Head(st.chain), u, y.remote[u].content) && y.remote[u].modified < y.token.value
              && u in m.cleared && u !in m.unreadable && !(m.written && u in FailedSet(input.failures))
  {
    hide Inv, RunInv, Possible, ProcessSnapshot, PassMarking, MarkedUrls, Sync.Forgotten, Sync.Valid, FailedSet, HasCopy, Sync.Differs, GitOf,
         StepsOf, PassOf;
    PassHasHistory(w, st, input, choice);
    DiffersIff(Head(st.chain), y, u);
    PassForgets(w, st, input, choice, y, revalidation, u);
  }

  lemma PassForgets(w: Environment, st: State, input: PassInput, choice: Option<Choice>, y: Sync.State, revalidation: bool, u: string)
    requires Lawful(w) && RunInv(w, st) && Possible(w, st, RunPass(input, choice))
    requires y.failed == MarkedUrls(st.results.rows) && PassOf(y, input, revalidation) && Sync.Valid(y) && y.token.Some?
    ensures var t := ProcessSnapshot(w, st.chain, st.results, input, choice);
            var m := PassMarking(w, st, input, choice);
            Sync.Forgotten(Sync.Perform(y, StepsOf(m, t.alive, revalidation)), u) <==>
              && Sync.Differs(y, u) && y.remote[u].modified < y.token.value
              && u in m.cleared && u !in m.unreadable && !(m.written && u in FailedSet(input.failures))
  {
    hide Inv, RunInv, Possible, ProcessSnapshot, PassMarking, MarkedUrls, Sync.Forgotten, Sync.Valid, FailedSet;
    PassHasHistory(w, st, input, choice);
    MarksAfterPass(w, st, input, choice);
    var t, m := ProcessSnapshot(w, st.chain, st.results, input, choice), PassMarking(w, st, input, choice);
    var step := StepsOf(m, true, revalidation)[0];
    if !revalidation && Sync.Differs(y, u) { Sync.OldIsKnown(y, u); }
    if m.written && revalidation {
      StepAlone(y, step);
      NothingForgotten(y, step, u);
      OldIsMarked(y, u);
    } else if m.written {
      StepAlone(y, step);
      Sync.ForgetsExactly(y, step, u);
      AbortForgetsNothing(y, step, u);
    } else {
      StepAlone(y, StepsOf(m, false, revalidation)[0]);
      Sync.ForgetsExactly(y, StepsOf(m, false, revalidation)[0], u);
    }
  }

  /** A pass of a sync that skipped no index, or a revalidation, forgets nothing once its failures are written: when it
      completes, above all. */
  lemma WrittenForgetsNothing(w: Environment, st: State, input: PassInput, choice: Option<Choice>, y: Sync.State, revalidation: bool)
    requires Lawful(w) && RunInv(w, st) && Possible(w, st, RunPass(input, choice))
    requires PassOf(y, input, revalidation) && Sync.Valid(y) && Sync.AllSeen(y)
    requires |st.chain| > 0
             && (ProcessSnapshot(w, st.chain, st.results, input, choice).alive || PassMarking(w, st, input, choice).written
                 || PassMarking(w, st, input, choice).cleared == {})
    ensures var t := ProcessSnapshot(w, st.chain, st.results, input, choice);
            var after := Sync.Perform(y, StepsOf(PassMarking(w, st, input, choice), t.alive, revalidation));
            Sync.Valid(after) && Sync.AllSeen(after) && forall u :: !Sync.Forgotten(after, u)
  {
    hide Inv, RunInv, Possible, ProcessSnapshot, PassMarking, MarkedUrls, FailedSet, PassOf, Sync.Valid, Sync.Perform, Sync.Forgotten,
         Sync.NothingMissed, Sync.AllSeen;
    MarksAfterPass(w, st, input, choice);
    var steps := StepsOf(PassMarking(w, st, input, choice), ProcessSnapshot(w, st.chain, st.results, input, choice).alive, revalidation);
    Sync.NoMissedUpdate(y, steps);
    forall u ensures !Sync.Forgotten(Sync.Perform(y, steps), u) {
      if Sync.Forgotten(Sync.Perform(y, steps), u) { Sync.ForgottenIsMissed(Sync.Perform(y, steps), u); }
    }
  }

  lemma OldIsMarked(y: Sync.State, u: string)
    requires Sync.Valid(y) && y.token.Some?
    ensures Sync.Differs(y, u) && y.remote[u].modified < y.token.value ==> u in y.failed
  {
  }

  lemma NothingForgotten(y: Sync.State, step: Sync.Step, u: string)
    requires Sync.Valid(y) && y.run.None? && step.Revalidate?
    ensures !Sync.Forgotten(Sync.Do(y, step), u)
  {
    Sync.RevalidateValid(y, step.cleared, step.unreadable);
  }

  /** A sync that stops after its failures are written forgets what it had forgotten by then. */
  lemma AbortForgetsNothing(y: Sync.State, step: Sync.Step, u: string)
    requires Sync.Valid(y) && Sync.Processes(y, step)
    ensures Sync.Forgotten(Sync.Perform(y, [step, Sync.Abort]), u) <==> Sync.Forgotten(Sync.Do(y, step), u)
  {
    hide Sync.Perform;
    assert [step, Sync.Abort] == [step] + [Sync.Abort];
    Sync.PerformMore(y, [step], Sync.Abort);
    StepAlone(y, step);
    Sync.SameDifferences(Sync.Do(y, step), Sync.Do(Sync.Do(y, step), Sync.Abort));
    SameErrors(y, step);
  }

  lemma SameErrors(y: Sync.State, step: Sync.Step)
    requires Sync.Valid(y) && Sync.Processes(y, step)
    ensures var next := Sync.Do(y, step);
            next.run.Some? && Sync.Errors(next.run.value) <= next.failed && next.run.value.stage.Processed?
            && next.run.value.startedAt <= next.now && (next.token.Some? ==> next.token.value <= next.run.value.startedAt)
  {
    Sync.SameDecisions(y.run.value, Sync.Processed);
  }
}
