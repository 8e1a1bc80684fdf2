/** Whole runs: commits and passes in any order, each pass possibly interrupted between any two transactions. */
module Runs {
  import opened Wrappers
  import opened Strings
  import opened History
  import opened World
  import opened Selection
  import opened Store
  import opened Pass
  import opened Invariant
  import opened Phases
  import opened Theorems
  import opened Completion

  /** `foreign` remembers that a pass under another fingerprint than the checkpoint's was interrupted
      and no pass has completed since. It is not stored anywhere; only hypotheses speak of it. */
  datatype State = State(chain: Chain, results: Results, foreign: bool)

  datatype Event =
    | Append(commit: Commit)
    | RunPass(input: PassInput, choice: Option<Choice>)

  /** What may happen next. Selection may fail (`choice` is None), but never selects wrongly. */
  ghost predicate Possible(w: Environment, st: State, e: Event) {
    match e
    case Append(commit) => ValidChain(st.chain + [commit])
    case RunPass(input, choice) =>
      && |st.chain| > 0
      && CarriesFailures(w, input.failures)
      && match choice
         case None => true
         case Some(c) =>
           && w.fingerprint(input.identity, Head(st.chain)) == Some(c.checkpoint.fingerprint)
           && Chooses(st.chain, st.results.checkpoint, c.checkpoint.fingerprint, input.force, c)
           && CarriesAll(w, Head(st.chain), c.checkpoint.fingerprint, Advisories(Head(st.chain)))
  }

  /** The fingerprint does not return to the checkpointed one while a pass under another one is unfinished. */
  predicate NoReturn(st: State, e: Event) {
    match e
    case Append(_) => true
    case RunPass(input, choice) =>
      st.foreign && !input.force && choice.Some? && st.results.checkpoint.Some?
      ==> choice.value.checkpoint.fingerprint != st.results.checkpoint.value.fingerprint
  }

  /** No unmarked row's advisory path is a directory at the head the pass works on. */
  ghost predicate Unshadowed(st: State, e: Event) {
    match e
    case Append(_) => true
    case RunPass(input, choice) =>
      |st.chain| > 0 && choice.Some? && !choice.value.baseline ==>
        forall u | u in st.results.rows && !Marked(st.results.rows[u]) && st.results.rows[u].report.columns.Some? ::
          !GetPath(Head(st.chain), st.results.rows[u].report.columns.value.path).Directory?
  }

  predicate OtherFingerprint(s: Results, choice: Option<Choice>) {
    choice.Some? && s.checkpoint.Some? && choice.value.checkpoint.fingerprint != s.checkpoint.value.fingerprint
  }

  ghost function Next(w: Environment, st: State, e: Event): State
    requires Possible(w, st, e)
  {
    match e
    case Append(commit) => st.(chain := st.chain + [commit])
    case RunPass(input, choice) =>
      var t := ProcessSnapshot(w, st.chain, st.results, input, choice);
      State(st.chain, t.results, !t.alive && (st.foreign || OtherFingerprint(st.results, choice)))
  }

  /** A state any run can reach. */
  ghost predicate RunInv(w: Environment, st: State) {
    ValidChain(st.chain) && Inv(w, st.chain, false, st.results)
  }

  /** The commit changes are collected from, when there is a checkpoint. */
  ghost function BaseOf(chain: Chain, s: Results): Option<nat> {
    match s.checkpoint
    case None => None
    case Some(c) => IndexOf(chain, c.commit)
  }

  lemma InvIsMid(w: Environment, chain: Chain, legacy: bool, s: Results)
    requires Inv(w, chain, legacy, s)
    ensures Mid(w, chain, BaseOf(chain, s), legacy, s)
    ensures Mid(w, chain, BaseOf(chain, s), legacy, s.(checkpoint := None))
  {
  }

  lemma ChosenBasis(w: Environment, chain: Chain, legacy: bool, s: Results, fingerprint: string, force: bool, c: Choice)
    requires ValidChain(chain) && |chain| > 0 && Inv(w, chain, legacy, s) && Chooses(chain, s.checkpoint, fingerprint, force, c)
    ensures var base := BaseOf(chain, s);
            && Basis(chain, s.checkpoint, c, base) && (c.baseline ==> c.full)
            && (base.Some? ==> AsSet(c.deleted) == SelectedDeleted(chain, Changes(chain, base.value)))
  {
    hide Consistent, Carried, SummaryFresh, SelectedDeleted, SelectedHistory, SelectedAdvisories, Changes, Ascending, AsSet;
  }

  lemma FewerDocsCarry(w: Environment, tree: Tree, fingerprint: string, docs: set<string>)
    requires docs <= Advisories(tree) && CarriesAll(w, tree, fingerprint, Advisories(tree))
    ensures CarriesAll(w, tree, fingerprint, docs)
  {
  }

  /** The documents the pass works on, when it gets that far. */
  ghost function Extracted(w: Environment, chain: Chain, s: Results, input: PassInput, c: Choice): (docs: Option<set<string>>)
    requires |chain| > 0
    ensures docs.Some? ==> forall p | p in docs.value :: p in Head(chain)
  {
    match if c.full then Some({}) else Recovered(w, s.rows, input.downloads)
    case None => None
    case Some(recovered) => Materialized(Head(chain), c.full, c.advisories + recovered)
  }

  lemma PassIsReady(w: Environment, legacy: bool, st: State, input: PassInput, c: Choice, docs: set<string>)
    requires Lawful(w) && ValidChain(st.chain) && Inv(w, st.chain, legacy, st.results) && Possible(w, st, RunPass(input, Some(c)))
    requires Extracted(w, st.chain, st.results, input, c) == Some(docs)
    ensures Ready(w, st.chain, BaseOf(st.chain, st.results), st.results.checkpoint, input, c, docs)
  {
    hide Inv, Chooses, Basis, CoversChanges, CarriesAll, CarriesFailures, SelectedDeleted, Changes, Advisories, Materialized;
    var chain, s := st.chain, st.results;
    var fingerprint := c.checkpoint.fingerprint;
    ChosenBasis(w, chain, legacy, s, fingerprint, input.force, c);
    ChosenCommit(chain, s.checkpoint, fingerprint, input.force, c);
    var recovered := if c.full then {} else Recovered(w, s.rows, input.downloads).value;
    DocsCoverChanges(chain, s.checkpoint, fingerprint, input.force, c, BaseOf(chain, s), recovered, docs);
    CoveredDocs(chain, BaseOf(chain, s), docs);
    FewerDocsCarry(w, Head(chain), fingerprint, docs);
  }

  lemma ChosenCommit(chain: Chain, previous: Option<Checkpoint>, fingerprint: string, force: bool, c: Choice)
    requires |chain| > 0 && Chooses(chain, previous, fingerprint, force, c)
    ensures c.checkpoint == Checkpoint(chain[|chain| - 1].id, fingerprint, false)
    ensures force ==> c.full
  {
  }

  lemma CoveredDocs(chain: Chain, base: Option<nat>, docs: set<string>)
    requires |chain| > 0 && CoversChanges(chain, base, docs)
    ensures docs <= Advisories(Head(chain))
  {
  }

  /** The state in which the results of a pass start to change. */
  function Cleared(s: Results, input: PassInput): Run {
    var started := Run(s, input.budget, true);
    if input.force then Transact(started, s.(checkpoint := None)) else started
  }

  lemma SnapshotShape(w: Environment, chain: Chain, s: Results, input: PassInput, choice: Option<Choice>)
    requires |chain| > 0
    ensures var cleared := Cleared(s, input);
            ProcessSnapshot(w, chain, s, input, choice) ==
            if !cleared.alive || choice.None? || Extracted(w, chain, s, input, choice.value).None? then cleared.(alive := false)
            else Process(w, chain, s.checkpoint, input, choice.value, Extracted(w, chain, s, input, choice.value).value, cleared)
  {
    hide Process, Recovered, Materialized;
  }

  lemma ClearedMid(w: Environment, chain: Chain, legacy: bool, s: Results, input: PassInput)
    requires Inv(w, chain, legacy, s)
    ensures var r := Cleared(s, input).results;
            && Mid(w, chain, BaseOf(chain, s), legacy, r) && r.rows == s.rows && r.versions == s.versions
            && (r.checkpoint.None? || r.checkpoint == s.checkpoint)
            && (!input.force ==> r == s)
  {
    hide Inv, Mid;
    InvIsMid(w, chain, legacy, s);
  }

  /** How the stored results of a pass relate to those it found. */
  ghost predicate Progressed(tree: Tree, fingerprint: string, s: Results, t: Results) {
    && (t.checkpoint.Some? ==> SameCheckpoint(s.checkpoint, t.checkpoint))
    && (s.checkpoint.Some? ==> Restamped(tree, fingerprint, s.rows, t.rows))
  }

  /** Every pass, from every reachable state, whatever it is given and wherever it dies. */
  lemma PassSpec(w: Environment, legacy: bool, st: State, input: PassInput, choice: Option<Choice>)
    requires Lawful(w) && ValidChain(st.chain) && Inv(w, st.chain, legacy, st.results) && Possible(w, st, RunPass(input, choice))
    requires choice.Some? && Extracted(w, st.chain, st.results, input, choice.value).Some?
             ==> Backfillable(legacy, choice.value, Extracted(w, st.chain, st.results, input, choice.value).value, st.results)
    ensures var t := ProcessSnapshot(w, st.chain, st.results, input, choice);
            && Inv(w, st.chain, legacy, t.results)
            && (choice.None? ==> !t.alive && Progressed(Head(st.chain), "", st.results, t.results) && t.results.rows == st.results.rows)
            && (choice.Some? && !t.alive ==> Progressed(Head(st.chain), choice.value.checkpoint.fingerprint, st.results, t.results))
            && (t.alive ==>
                  && Completed(w, st.chain, choice.value.checkpoint, t.results)
                  && (st.results.checkpoint.Some? ==> Restamped(Head(st.chain), choice.value.checkpoint.fingerprint, st.results.rows, t.results.rows))
                  && Extracted(w, st.chain, st.results, input, choice.value).Some?
                  && Updated(w, Head(st.chain), choice.value.checkpoint.fingerprint,
                             Extracted(w, st.chain, st.results, input, choice.value).value,
                             Removed(choice.value, st.results.rows), FailedSet(input.failures),
                             st.results.rows, t.results.rows))
  {
    hide Process, Mid, Inv, Completed, Updated, Chooses, Ready, Cleared, ProcessSnapshot, Extracted, CarriesAll;
    var chain, s := st.chain, st.results;
    var cleared := Cleared(s, input);
    var base := BaseOf(chain, s);
    SnapshotShape(w, chain, s, input, choice);
    ClearedMid(w, chain, legacy, s, input);
    MidIsInv(w, chain, base, legacy, cleared.results);
    if cleared.alive && choice.Some? && Extracted(w, chain, s, input, choice.value).Some? {
      var c := choice.value;
      var docs := Extracted(w, chain, s, input, c).value;
      PassIsReady(w, legacy, st, input, c, docs);
      ChosenCommit(chain, s.checkpoint, c.checkpoint.fingerprint, input.force, c);
      ProcessSpec(w, chain, base, legacy, s.checkpoint, input, c, docs, cleared);
      var t := Process(w, chain, s.checkpoint, input, c, docs, cleared);
      if t.alive {
        CompletedIsInv(w, chain, legacy, c.checkpoint, t.results);
      } else {
        KeptIsMid(w, chain, base, legacy, c.checkpoint.fingerprint, cleared.results, t.results);
        MidIsInv(w, chain, base, legacy, t.results);
      }
      BaseOfSome(w, chain, legacy, s);
    }
  }

  lemma BaseOfSome(w: Environment, chain: Chain, legacy: bool, s: Results)
    requires Inv(w, chain, legacy, s)
    ensures s.checkpoint.Some? ==> BaseOf(chain, s).Some?
  {
  }
}
