/** Concrete runs: the main results at work, and runs beyond their hypotheses. */
module Witnesses {
  import opened Wrappers
  import opened Strings
  import opened Paths
  import opened History
  import opened World
  import opened Selection
  import opened Store
  import opened Pass
  import opened Invariant
  import opened Phases
  import opened Theorems
  import opened Completion
  import opened Runs
  import opened Refinement
  import opened Marks
  import Mirror

  // ---------------------------------------------------------------- a small world

  ghost function Enumerate(paths: set<string>): seq<string> {
    if paths == {} then [] else var p :| p in paths; [p] + Enumerate(paths - {p})
  }

  lemma {:induction false} EnumerateSpec(paths: set<string>)
    ensures var s := Enumerate(paths);
            && (forall i, j :: 0 <= i < j < |s| ==> s[i] != s[j])
            && (forall p :: p in s <==> p in paths)
  {
    if paths != {} {
      var s := Enumerate(paths);
      EnumerateSpec(paths - {s[0]});
      assert s[1..] == Enumerate(paths - {s[0]});
      forall i, j | 0 <= i < j < |s| ensures s[i] != s[j] {
        assert s[j] in s[1..];
        if i > 0 { assert s[i] == s[1..][i - 1] && s[j] == s[1..][j - 1]; }
      }
      assert s == [s[0]] + s[1..];
    }
  }

  const ADVISORY := "h/a.json"
  const KEY := "metadata/key"

  /** One advisory; a report's checks name the key it was validated with; the shared inputs are one key file. */
  ghost function SmallWorld(): Environment {
    Environment(
      (x: Inputs) => Report(x.path, None, x.fingerprint, None, [], [], []),
      (error, missing) => "",
      (identity, tree: Tree) => At(tree, KEY),
      url => Some(None),
      (before: Tree, after: Tree) => Enumerate(ChangedPaths(before, after)),
      text => text,
      (url, id) => url == PathUrl(ADVISORY))
  }

  lemma SmallWorldIsLawful()
    ensures Lawful(SmallWorld())
  {
    var w := SmallWorld();
    forall before: Tree, after: Tree ensures EnumeratesChanges(w.order, before, after) {
      EnumerateSpec(ChangedPaths(before, after));
    }
  }

  function TreeWithKey(key: string): Tree {
    map[ADVISORY := "x", KEY := key]
  }

  /** The key changes and changes back. */
  const THERE_AND_BACK := [Commit("c0", TreeWithKey("old")), Commit("c1", TreeWithKey("new")), Commit("c2", TreeWithKey("old"))]

  function FullPass(budget: nat): PassInput {
    PassInput("", false, [], {}, [ADVISORY], budget)
  }

  lemma KeyIsNoAdvisory()
    ensures AdvisoryPath(KEY) == None && IsAdvisory(ADVISORY)
  {
    assert KEY[..9] == "metadata/";
    AdvisoryShape(ADVISORY);
  }

  lemma SmallTree(key: string)
    ensures Advisories(TreeWithKey(key)) == {ADVISORY}
  {
    KeyIsNoAdvisory();
  }

  lemma KeyChanges(chain: Chain)
    requires chain == THERE_AND_BACK[..2] || chain == THERE_AND_BACK
    ensures Changes(chain, 0) == {KEY}
    ensures SelectedAdvisories(chain, {KEY}) == {} && SelectedHistory({KEY}) == {} && SelectedDeleted(chain, {KEY}) == {}
  {
    KeyIsNoAdvisory();
    assert KEY in StepChanges(chain, 1);
    forall j: nat | 0 < j < |chain| ensures StepChanges(chain, j) == {KEY} {}
  }

  lemma RunCons(w: Environment, st: State, e: Event, rest: seq<Event>)
    requires Possible(w, st, e) && ValidRun(w, Next(w, st, e), rest)
    ensures ValidRun(w, st, [e] + rest) && Exec(w, st, [e] + rest) == Exec(w, Next(w, st, e), rest)
    ensures NoReturn(st, e) && NeverReturns(w, Next(w, st, e), rest) ==> NeverReturns(w, st, [e] + rest)
    ensures Unshadowed(st, e) && NeverShadowed(w, Next(w, st, e), rest) ==> NeverShadowed(w, st, [e] + rest)
  {
    assert ([e] + rest)[1..] == rest;
  }

  /** The choice a pass makes for one of the three snapshots. */
  function KeyChoice(commit: string, key: string, full: bool, baseline: bool): Choice {
    Choice(Checkpoint(commit, key, false), full, baseline, {}, {}, [])
  }

  /** With its selection right, a pass of this world is possible. */
  lemma ChosenIsPossible(st: State, input: PassInput, c: Choice)
    requires |st.chain| > 0 && At(Head(st.chain), KEY) == Some(c.checkpoint.fingerprint)
    requires forall f | f in input.failures :: f.url == PathUrl(ADVISORY)
    requires Advisories(Head(st.chain)) <= {ADVISORY}
    requires Chooses(st.chain, st.results.checkpoint, c.checkpoint.fingerprint, input.force, c)
    ensures Possible(SmallWorld(), st, RunPass(input, Some(c)))
  {
    hide Chooses, Advisories;
    AdvisoriesInTree(Head(st.chain));
  }

  lemma NothingChosen(chain: Chain, previous: Option<Checkpoint>, fingerprint: string, force: bool, c: Choice)
    requires |chain| > 0 && c == KeyChoice(chain[|chain| - 1].id, fingerprint, c.full, c.baseline)
    requires var changes := CollectedChanges(chain, previous);
             SelectedAdvisories(chain, changes) == {} && SelectedHistory(changes) == {} && SelectedDeleted(chain, changes) == {}
    requires c.baseline <==> !Known(chain, PreviousCommit(previous))
    requires c.full <==> c.baseline || force || previous.value.fingerprint != fingerprint
    ensures Chooses(chain, previous, fingerprint, force, c)
  {
    hide CollectedChanges, SelectedAdvisories, SelectedHistory, SelectedDeleted, Known;
  }

  lemma EverythingExtracted(w: Environment, chain: Chain, s: Results, input: PassInput, c: Choice)
    requires |chain| > 0 && c.full
    ensures Extracted(w, chain, s, input, c) == Some(Advisories(Head(chain)))
  {
  }

  lemma FirstIsPossible(st: State)
    requires st == State(THERE_AND_BACK[..1], INITIAL.results, false)
    ensures Possible(SmallWorld(), st, RunPass(FullPass(20), Some(KeyChoice("c0", "old", true, true))))
    ensures Extracted(SmallWorld(), st.chain, st.results, FullPass(20), KeyChoice("c0", "old", true, true)) == Some({ADVISORY})
  {
    hide Chooses, Possible, Extracted, SmallWorld, Advisories, IsAdvisory, AdvisoryPath;
    SmallTree("old");
    NothingChosen(st.chain, None, "old", false, KeyChoice("c0", "old", true, true));
    ChosenIsPossible(st, FullPass(20), KeyChoice("c0", "old", true, true));
    EverythingExtracted(SmallWorld(), st.chain, st.results, FullPass(20), KeyChoice("c0", "old", true, true));
  }

  lemma FullPassInput(budget: nat)
    ensures var input := FullPass(budget);
            ADVISORY in input.walk && input.budget == budget && input.failures == [] && !input.force
            && FailedSet(input.failures) == {}
  {
  }

  lemma CompletedCheckpoint(w: Environment, chain: Chain, checkpoint: Checkpoint, s: Results)
    requires |chain| > 0 && Completed(w, chain, checkpoint, s)
    ensures s.checkpoint == Some(checkpoint)
  {
  }

  lemma UpdatedFromNothing(w: Environment, tree: Tree, fingerprint: string, after: Rows)
    requires ADVISORY in tree && Updated(w, tree, fingerprint, {ADVISORY}, {}, {}, map[], after)
    ensures after.Keys == {PathUrl(ADVISORY)} && after[PathUrl(ADVISORY)].report == Validate(w, InputsAt(tree, ADVISORY, fingerprint))
  {
    hide Validate, InputsAt;
    assert Urls({ADVISORY}) == {PathUrl(ADVISORY)};
  }

  lemma SmallWorldValidates(x: Inputs)
    ensures SmallWorld().validate(x).checks == x.fingerprint
    ensures Validate(SmallWorld(), x).checks == x.fingerprint && Validate(SmallWorld(), x).retrievalError.None?
  {
  }

  /** When the only row is a validation, nothing is marked. */
  lemma OneUnmarkedRow(rows: Rows, x: Inputs)
    requires rows.Keys == {PathUrl(ADVISORY)} && rows[PathUrl(ADVISORY)].report == Validate(SmallWorld(), x)
    ensures forall u | u in rows :: !Marked(rows[u])
  {
    hide Validate, SmallWorld;
    SmallWorldValidates(x);
    forall u | u in rows ensures u == PathUrl(ADVISORY) { assert u in rows.Keys; }
  }

  /** First pass: everything is validated under the old key. */
  lemma FirstPass(st: State)
    requires st == State(THERE_AND_BACK[..1], INITIAL.results, false)
    ensures var w, e := SmallWorld(), RunPass(FullPass(20), Some(KeyChoice("c0", "old", true, true)));
            && RunInv(w, st) && Possible(w, st, e) && RunInv(w, Next(w, st, e))
            && Next(w, st, e).results.checkpoint == Some(Checkpoint("c0", "old", false))
            && Next(w, st, e).results.rows.Keys == {PathUrl(ADVISORY)} && !Marked(Next(w, st, e).results.rows[PathUrl(ADVISORY)])
            && Next(w, st, e).chain == st.chain && !Next(w, st, e).foreign
            && ProcessSnapshot(w, st.chain, st.results, e.input, e.choice).alive
  {
    hide ProcessSnapshot, Inv, Possible, Extracted, Completed, Updated, SmallWorld, TreeWithKey, FullPass, Lawful, Validate, InputsAt;
    var w, c := SmallWorld(), KeyChoice("c0", "old", true, true);
    SmallWorldIsLawful();
    SmallTree("old");
    EmptyInv(w, st.chain);
    FirstIsPossible(st);
    FullPassInput(20);
    PassCompletes(w, st, FullPass(20), c, {ADVISORY});
    PassSpec(w, false, st, FullPass(20), Some(c));
    var t := ProcessSnapshot(w, st.chain, st.results, FullPass(20), Some(c)).results;
    CompletedCheckpoint(w, st.chain, c.checkpoint, t);
    assert Removed(c, st.results.rows) == {};
    UpdatedFromNothing(w, Head(st.chain), "old", t.rows);
    SmallWorldValidates(InputsAt(Head(st.chain), ADVISORY, "old"));
  }

  lemma SpentPhases(w: Environment, chain: Chain, previous: Option<Checkpoint>, failures: seq<Failure>, c: Choice, changed: bool, r: Run)
    requires r.budget == 0
    ensures var recorded := RecordPhase(w, chain, previous, c, r);
            var marked := FailurePhase(w, recorded, failures);
            var t := SummaryPhase(marked, changed);
            t.results == r.results && t.budget == 0
  {
    hide RecordVersions, SaveRetrievalErrors;
  }

  /** A pass whose last transaction was a save dies with exactly the results of that save. */
  lemma DiesAfterValidation(w: Environment, chain: Chain, previous: Option<Checkpoint>, input: PassInput, c: Choice,
                            docs: set<string>, r: Run)
    requires |chain| > 0 && forall p | p in docs :: p in Head(chain)
    requires Validated(w, chain, c, docs, input.walk, Clean(c, r)).budget == 0
    ensures var t := Process(w, chain, previous, input, c, docs, r);
            !t.alive && t.results == Validated(w, chain, c, docs, input.walk, Clean(c, r)).results
  {
    hide RecordPhase, FailurePhase, SummaryPhase, Clean, Validated, FailuresChange, WasDirty;
    var validated := Validated(w, chain, c, docs, input.walk, Clean(c, r));
    SpentPhases(w, chain, previous, input.failures, c, true, validated);
    SpentPhases(w, chain, previous, input.failures, c, false, validated);
  }

  lemma ValidateOne(w: Environment, tree: Tree, fingerprint: string, s: Results)
    requires ADVISORY in tree
    ensures ValidateAll(w, tree, fingerprint, {ADVISORY}, [ADVISORY], Visit(Run(s, 1, true), {}))
            == Visit(Run(SaveDocument(w, s, InputsAt(tree, ADVISORY, fingerprint)), 0, true), {ADVISORY})
  {
    hide SaveDocument, InputsAt;
    var r, saved := Run(s, 1, true), SaveDocument(w, s, InputsAt(tree, ADVISORY, fingerprint));
    assert Transact(r, saved) == Run(saved, 0, true);
    assert [ADVISORY][1..] == [];
    assert ValidateAll(w, tree, fingerprint, {ADVISORY}, [ADVISORY], Visit(r, {}))
        == ValidateAll(w, tree, fingerprint, {ADVISORY}, [], Visit(Run(saved, 0, true), {} + {ADVISORY}));
  }

  lemma SecondIsPossible(st: State, budget: nat)
    requires st.chain == THERE_AND_BACK[..2] && st.results.checkpoint.Some?
    requires st.results.checkpoint.value.commit == "c0" && st.results.checkpoint.value.fingerprint == "old"
    ensures Possible(SmallWorld(), st, RunPass(FullPass(budget), Some(KeyChoice("c1", "new", true, false))))
    ensures Extracted(SmallWorld(), st.chain, st.results, FullPass(budget), KeyChoice("c1", "new", true, false)) == Some({ADVISORY})
  {
    hide Chooses, Possible, Extracted, SmallWorld, Advisories, IsAdvisory, AdvisoryPath, Changes, SelectedAdvisories, SelectedHistory, SelectedDeleted;
    SmallTree("new");
    CollectedFromFirst(st);
    NothingChosen(st.chain, st.results.checkpoint, "new", false, KeyChoice("c1", "new", true, false));
    ChosenIsPossible(st, FullPass(budget), KeyChoice("c1", "new", true, false));
    EverythingExtracted(SmallWorld(), st.chain, st.results, FullPass(budget), KeyChoice("c1", "new", true, false));
  }

  /** From the first commit on, only the key changes, and that selects nothing. */
  lemma CollectedFromFirst(st: State)
    requires st.chain == THERE_AND_BACK[..2] || st.chain == THERE_AND_BACK
    requires st.results.checkpoint.Some? && st.results.checkpoint.value.commit == "c0"
    ensures Known(st.chain, PreviousCommit(st.results.checkpoint))
    ensures var changes := CollectedChanges(st.chain, st.results.checkpoint);
            && SelectedAdvisories(st.chain, changes) == {} && SelectedHistory(changes) == {} && SelectedDeleted(st.chain, changes) == {}
  {
    hide Changes, SelectedAdvisories, SelectedHistory, SelectedDeleted;
    IndexOfUnique(st.chain, 0);
    KeyChanges(st.chain);
  }

  /** Second pass: dies right after saving the advisory under the new key. */
  lemma SecondPass(st: State)
    requires st.chain == THERE_AND_BACK[..2]
    requires st.results.checkpoint == Some(Checkpoint("c0", "old", false))
    ensures var w, e := SmallWorld(), RunPass(FullPass(1), Some(KeyChoice("c1", "new", true, false)));
            && Possible(w, st, e)
            && Next(w, st, e).results == SaveDocument(w, st.results, InputsAt(TreeWithKey("new"), ADVISORY, "new"))
            && Next(w, st, e).foreign
  {
    hide Process, ValidateAll, SaveDocument, Extracted, InputsAt, Possible, ProcessSnapshot;
    var w, c, chain, s := SmallWorld(), KeyChoice("c1", "new", true, false), st.chain, st.results;
    SecondIsPossible(st, 1);
    var r := Run(s, 1, true);
    assert Clean(c, r) == r;
    ValidateOne(w, Head(chain), "new", s);
    var saved := SaveDocument(w, s, InputsAt(Head(chain), ADVISORY, "new"));
    assert Validated(w, chain, c, {ADVISORY}, [ADVISORY], r) == Run(saved, 0, true);
    DiesAfterValidation(w, chain, s.checkpoint, FullPass(1), c, {ADVISORY}, r);
    SnapshotShape(w, chain, s, FullPass(1), Some(c));
  }

  lemma ThirdIsChosen(st: State)
    requires st.chain == THERE_AND_BACK
    requires st.results.checkpoint == Some(Checkpoint("c0", "old", true))
    ensures Possible(SmallWorld(), st, RunPass(FullPass(20), Some(KeyChoice("c2", "old", false, false))))
  {
    hide Chooses, Possible, SmallWorld, Advisories, IsAdvisory, AdvisoryPath, Changes, SelectedAdvisories, SelectedHistory, SelectedDeleted;
    SmallTree("old");
    CollectedFromFirst(st);
    NothingChosen(st.chain, st.results.checkpoint, "old", false, KeyChoice("c2", "old", false, false));
    ChosenIsPossible(st, FullPass(20), KeyChoice("c2", "old", false, false));
  }

  lemma ThirdIsPossible(st: State)
    requires st.chain == THERE_AND_BACK
    requires st.results.checkpoint == Some(Checkpoint("c0", "old", true))
    requires forall u | u in st.results.rows :: !Marked(st.results.rows[u])
    ensures Possible(SmallWorld(), st, RunPass(FullPass(20), Some(KeyChoice("c2", "old", false, false))))
    ensures Extracted(SmallWorld(), st.chain, st.results, FullPass(20), KeyChoice("c2", "old", false, false)) == Some({})
  {
    hide IsAdvisory, AdvisoryPath, Changes, TreeWithKey, Possible;
    ThirdIsChosen(st);
    var none: set<string> := {};
    assert FailedUrls(st.results.rows) == none;
    assert Recovered(SmallWorld(), st.results.rows, none).value == none;
    assert none + none == none;
    assert Materialized(Head(st.chain), false, none).value == none;
  }

  /** Third pass: the key is back, nothing is selected, and the pass completes over the foreign row. */
  lemma ThirdPass(st: State)
    requires st.chain == THERE_AND_BACK && RunInv(SmallWorld(), st)
    requires st.results.checkpoint == Some(Checkpoint("c0", "old", true))
    requires forall u | u in st.results.rows :: !Marked(st.results.rows[u])
    requires PathUrl(ADVISORY) in st.results.rows
    requires st.results.rows[PathUrl(ADVISORY)].report == Validate(SmallWorld(), InputsAt(TreeWithKey("new"), ADVISORY, "new"))
    ensures var w, c := SmallWorld(), KeyChoice("c2", "old", false, false);
            && Possible(w, st, RunPass(FullPass(20), Some(c)))
            && var t := ProcessSnapshot(w, st.chain, st.results, FullPass(20), Some(c));
            && t.alive && !Refines(w, st.chain, "old", t.results)
            && PathUrl(ADVISORY) in t.results.rows && t.results.rows[PathUrl(ADVISORY)].report.checks == "new"
  {
    hide Inv, ProcessSnapshot, Refines, Possible, Extracted, RunInv, Completed;
    var w, c := SmallWorld(), KeyChoice("c2", "old", false, false);
    SmallWorldIsLawful();
    ThirdIsPossible(st);
    RunInvParts(w, st);
    PassCompletes(w, st, FullPass(20), c, {});
    PassRefinesIff(w, st, FullPass(20), c);
    PassSpec(w, false, st, FullPass(20), Some(c));
    assert FailedSet([]) == {} && Urls({}) == {} && AsSet([]) == {};
    assert Keeps(c, {}, [], st.results.rows, PathUrl(ADVISORY));
    ForeignIsNotCurrent();
  }

  lemma ForeignIsNotCurrent()
    ensures !RowCurrent(SmallWorld(), TreeWithKey("old"), "old", Validate(SmallWorld(), InputsAt(TreeWithKey("new"), ADVISORY, "new")))
  {
  }

  /** The run: validate, change the key, be interrupted, change the key back. */
  ghost function ThereAndBack(): seq<Event> {
    [Append(THERE_AND_BACK[0]), RunPass(FullPass(20), Some(KeyChoice("c0", "old", true, true))),
     Append(THERE_AND_BACK[1]), RunPass(FullPass(1), Some(KeyChoice("c1", "new", true, false))),
     Append(THERE_AND_BACK[2])]
  }

  /** While the advisory is a file at the head, no directory stands in its place. */
  lemma AdvisoryUnshadowed(st: State, input: PassInput, choice: Option<Choice>)
    requires RunInv(SmallWorld(), st) && BaseOf(st.chain, st.results).Some?
    requires st.results.rows.Keys <= {PathUrl(ADVISORY)} && ADVISORY in Head(st.chain)
    ensures Unshadowed(st, RunPass(input, choice))
  {
    hide RunInv;
    forall u | u in st.results.rows && !Marked(st.results.rows[u]) && st.results.rows[u].report.columns.Some?
      ensures !GetPath(Head(st.chain), st.results.rows[u].report.columns.value.path).Directory?
    {
      InvRow(SmallWorld(), st, u);
      assert u in {PathUrl(ADVISORY)};
      PathUrlInjective(ADVISORY, st.results.rows[u].report.columns.value.path);
    }
  }

  lemma SavedOverOne(w: Environment, s: Results, x: Inputs)
    requires s.rows.Keys == {PathUrl(ADVISORY)} && x.path == ADVISORY
    ensures SaveDocument(w, s, x).checkpoint == Dirtied(s.checkpoint)
    ensures SaveDocument(w, s, x).rows.Keys == {PathUrl(ADVISORY)}
    ensures SaveDocument(w, s, x).rows[PathUrl(ADVISORY)].report == Validate(w, x)
  {
  }

  lemma KnownBase(st: State)
    requires st.chain == THERE_AND_BACK[..2] && st.results.checkpoint.Some? && st.results.checkpoint.value.commit == "c0"
    ensures BaseOf(st.chain, st.results) == Some(0)
  {
    IndexOfUnique(st.chain, 0);
  }

  /** The run up to the interrupted pass. */
  lemma InterruptedRun() returns (st: State)
    ensures var w, events := SmallWorld(), ThereAndBack()[..4];
            && ValidRun(w, INITIAL, events) && NeverReturns(w, INITIAL, events) && NeverShadowed(w, INITIAL, events)
            && Exec(w, INITIAL, events) == st
    ensures RunInv(SmallWorld(), st) && st.chain == THERE_AND_BACK[..2] && st.foreign
    ensures st.results.checkpoint == Some(Checkpoint("c0", "old", true)) && st.results.rows.Keys == {PathUrl(ADVISORY)}
    ensures st.results.rows[PathUrl(ADVISORY)].report == Validate(SmallWorld(), InputsAt(TreeWithKey("new"), ADVISORY, "new"))
    ensures forall u | u in st.results.rows :: !Marked(st.results.rows[u])
  {
    hide ProcessSnapshot, Refines, Inv, RunInv, CarriesAll, Chooses, Extracted, Possible, SaveDocument, SmallWorld, Unshadowed, Validate, Marked;
    var w, events := SmallWorld(), ThereAndBack()[..4];
    SmallWorldIsLawful();
    AppendIsPossible();
    var s1 := State(THERE_AND_BACK[..1], INITIAL.results, false);
    assert [] + [THERE_AND_BACK[0]] == THERE_AND_BACK[..1];
    FirstPass(s1);
    var s2 := Next(w, s1, events[1]);
    var s3 := s2.(chain := THERE_AND_BACK[..2]);
    assert THERE_AND_BACK[..1] + [THERE_AND_BACK[1]] == THERE_AND_BACK[..2];
    NextKeepsRunInv(w, s2, events[2]);
    SecondPass(s3);
    NextKeepsRunInv(w, s3, events[3]);
    st := Next(w, s3, events[3]);
    SavedOverOne(w, s3.results, InputsAt(TreeWithKey("new"), ADVISORY, "new"));
    OneUnmarkedRow(st.results.rows, InputsAt(TreeWithKey("new"), ADVISORY, "new"));
    KnownBase(s3);
    AdvisoryUnshadowed(s3, events[3].input, events[3].choice);
    BaselineUnshadowed(s1, events[1].input, events[1].choice);
    AppendUnshadowed(s2, THERE_AND_BACK[1]);
    AppendUnshadowed(INITIAL, THERE_AND_BACK[0]);
    RunCons(w, s3, events[3], []);
    RunCons(w, s2, events[2], events[3..]);
    RunCons(w, s1, events[1], events[2..]);
    RunCons(w, INITIAL, events[0], events[1..]);
  }

  lemma BaselineUnshadowed(st: State, input: PassInput, choice: Option<Choice>)
    requires choice.Some? && choice.value.baseline
    ensures Unshadowed(st, RunPass(input, choice))
  {
  }

  lemma AppendUnshadowed(st: State, commit: Commit)
    ensures Unshadowed(st, Append(commit))
  {
  }

  lemma {:induction false} RunSnoc(w: Environment, st: State, events: seq<Event>, e: Event)
    requires ValidRun(w, st, events) && Possible(w, Exec(w, st, events), e)
    ensures ValidRun(w, st, events + [e]) && Exec(w, st, events + [e]) == Next(w, Exec(w, st, events), e)
    ensures NeverShadowed(w, st, events) && Unshadowed(Exec(w, st, events), e) ==> NeverShadowed(w, st, events + [e])
    ensures NeverReturns(w, st, events) && NoReturn(Exec(w, st, events), e) ==> NeverReturns(w, st, events + [e])
    decreases |events|
  {
    hide Possible, Next, Unshadowed, NoReturn;
    if events == [] {
      assert [] + [e] == [e];
      assert [e][1..] == [];
    } else {
      assert (events + [e])[1..] == events[1..] + [e];
      RunSnoc(w, Next(w, st, events[0]), events[1..], e);
    }
  }

  /** The hypothesis that no fingerprint returns early is needed: with every other hypothesis met, this run ends
      in a completed pass whose stored checks name the new key where recomputing gives the old one. */
  lemma EarlyReturnBreaksRefinement() returns (st: State)
    ensures var w, events := SmallWorld(), ThereAndBack();
            && Lawful(w) && ValidRun(w, INITIAL, events) && NeverShadowed(w, INITIAL, events) && Exec(w, INITIAL, events) == st
    ensures st.chain == THERE_AND_BACK
    ensures var w, e := SmallWorld(), RunPass(FullPass(20), Some(KeyChoice("c2", "old", false, false)));
            && Possible(w, st, e) && Unshadowed(st, e)
            && var t := ProcessSnapshot(w, st.chain, st.results, e.input, e.choice);
            && t.alive && !Refines(w, st.chain, "old", t.results)
            && PathUrl(ADVISORY) in t.results.rows && t.results.rows[PathUrl(ADVISORY)].report.checks == "new"
    ensures SmallWorld().validate(InputsAt(TreeWithKey("old"), ADVISORY, "old")).checks == "old"
  {
    hide ProcessSnapshot, Refines, Inv, RunInv, Possible, Unshadowed, SmallWorld, Validate, Marked, TreeWithKey, ThereAndBack,
         NeverShadowed, ValidRun, Exec, FullPass;
    SmallWorldIsLawful();
    st := ReturnedRun();
    AdvisoryUnshadowed(st, FullPass(20), Some(KeyChoice("c2", "old", false, false)));
    ThirdPass(st);
    SmallWorldValidates(InputsAt(Head(st.chain), ADVISORY, "old"));
    assert Head(st.chain) == TreeWithKey("old");
  }

  /** The whole run: the key is back. */
  lemma ReturnedRun() returns (st: State)
    ensures var w, events := SmallWorld(), ThereAndBack();
            ValidRun(w, INITIAL, events) && NeverShadowed(w, INITIAL, events) && Exec(w, INITIAL, events) == st
    ensures RunInv(SmallWorld(), st) && st.chain == THERE_AND_BACK && BaseOf(st.chain, st.results).Some? && ADVISORY in Head(st.chain)
    ensures st.results.checkpoint == Some(Checkpoint("c0", "old", true)) && st.results.rows.Keys == {PathUrl(ADVISORY)}
    ensures st.results.rows[PathUrl(ADVISORY)].report == Validate(SmallWorld(), InputsAt(TreeWithKey("new"), ADVISORY, "new"))
    ensures forall u | u in st.results.rows :: !Marked(st.results.rows[u])
  {
    hide ProcessSnapshot, Inv, RunInv, Possible, Unshadowed, SmallWorld, Validate, Marked, TreeWithKey, BaseOf,
         NeverShadowed, ValidRun, Exec, FullPass, NoReturn, NeverReturns;
    var w, events := SmallWorld(), ThereAndBack();
    SmallWorldIsLawful();
    var s4 := InterruptedRun();
    LastAppendIsPossible(s4);
    NextKeepsRunInv(w, s4, events[4]);
    RunSnoc(w, INITIAL, events[..4], events[4]);
    assert events[..4] + [events[4]] == events;
    AppendUnshadowed(s4, THERE_AND_BACK[2]);
    st := Next(w, s4, events[4]);
    assert THERE_AND_BACK[..2] + [THERE_AND_BACK[2]] == THERE_AND_BACK;
    ThirdBase(st);
  }

  lemma LastAppendIsPossible(st: State)
    requires st.chain == THERE_AND_BACK[..2]
    ensures Possible(SmallWorld(), st, Append(THERE_AND_BACK[2]))
  {
  }

  lemma ThirdBase(st: State)
    requires st.chain == THERE_AND_BACK && st.results.checkpoint == Some(Checkpoint("c0", "old", true))
    ensures BaseOf(st.chain, st.results).Some? && ADVISORY in Head(st.chain)
  {
    IndexOfUnique(st.chain, 0);
  }

  /** The main result at work: with every hypothesis met, a pass is interrupted under a new key, the next one
      completes, and its results are the recomputed ones. */
  lemma InterruptedPassIsResumed()
    ensures var w, events := SmallWorld(), ThereAndBack()[..4];
            && Lawful(w) && ValidRun(w, INITIAL, events) && Disciplined(w, INITIAL, events)
            && var st := Exec(w, INITIAL, events);
            && var e := RunPass(FullPass(20), Some(KeyChoice("c1", "new", true, false)));
            && st.foreign && Possible(w, st, e) && NoReturn(st, e) && Unshadowed(st, e)
            && var t := ProcessSnapshot(w, st.chain, st.results, e.input, e.choice);
            && t.alive && Refines(w, st.chain, "new", t.results)
  {
    hide ProcessSnapshot, Refines, Inv, RunInv, CarriesAll, Chooses, Extracted, Possible, Unshadowed;
    var w, events := SmallWorld(), ThereAndBack()[..4];
    SmallWorldIsLawful();
    var s4 := InterruptedRun();
    KnownBase(s4);
    AdvisoryUnshadowed(s4, FullPass(20), Some(KeyChoice("c1", "new", true, false)));
    SecondIsPossible(s4, 20);
    FullPassInput(20);
    PassCompletes(w, s4, FullPass(20), KeyChoice("c1", "new", true, false), {ADVISORY});
    CrashSafeRefinement(w, events, FullPass(20), Some(KeyChoice("c1", "new", true, false)));
  }

  lemma AppendIsPossible()
    ensures Possible(SmallWorld(), INITIAL, Append(THERE_AND_BACK[0]))
    ensures forall st: State :: st.chain == THERE_AND_BACK[..1] ==> Possible(SmallWorld(), st, Append(THERE_AND_BACK[1]))
  {
  }

  // ---------------------------------------------------------------- a directory in an advisory's place

  const INSIDE := "h/a.json/b.txt"

  /** The advisory file becomes a directory of the same name. */
  const FILE_TO_DIRECTORY := [Commit("c0", TreeWithKey("old")), Commit("c1", map[INSIDE := "y", KEY := "old"])]

  function ForcedPass(): PassInput {
    PassInput("", true, [], {}, [], 20)
  }

  lemma InsideIsNoAdvisory()
    ensures AdvisoryPath(INSIDE) == None && IsDirectory(FILE_TO_DIRECTORY[1].tree, ADVISORY)
    ensures GetPath(FILE_TO_DIRECTORY[1].tree, ADVISORY) == Directory
  {
    LastOfSuffix(INSIDE, ASC);
    LastOfSuffix(INSIDE, SHA256);
    LastOfSuffix(INSIDE, SHA512);
    LastOfSuffix(INSIDE, ".json");
    assert INSIDE[..9] == ADVISORY + "/";
    var tree := FILE_TO_DIRECTORY[1].tree;
    assert INSIDE in tree && StartsWith(INSIDE, ADVISORY + "/");
    assert ADVISORY !in tree;
  }

  lemma DirectoryChanges()
    ensures Changes(FILE_TO_DIRECTORY, 0) == {ADVISORY, INSIDE}
    ensures SelectedHistory({ADVISORY, INSIDE}) == {ADVISORY} && SelectedDeleted(FILE_TO_DIRECTORY, {ADVISORY, INSIDE}) == {}
  {
    KeyIsNoAdvisory();
    InsideIsNoAdvisory();
    assert ADVISORY in StepChanges(FILE_TO_DIRECTORY, 1) && INSIDE in StepChanges(FILE_TO_DIRECTORY, 1);
    forall j: nat | 0 < j < |FILE_TO_DIRECTORY| ensures StepChanges(FILE_TO_DIRECTORY, j) == {ADVISORY, INSIDE} {}
  }

  /** The choice of the forced pass over the second snapshot. */
  function DirectoryChoice(): Choice {
    Choice(Checkpoint("c1", "old", false), true, false, {}, {ADVISORY}, [])
  }

  lemma DirectoryPassIsPossible(st: State)
    requires st.chain == FILE_TO_DIRECTORY && st.results.checkpoint == Some(Checkpoint("c0", "old", false))
    ensures Possible(SmallWorld(), st, RunPass(ForcedPass(), Some(DirectoryChoice())))
    ensures Extracted(SmallWorld(), st.chain, st.results, ForcedPass(), DirectoryChoice()) == Some({})
    ensures BaseOf(st.chain, st.results) == Some(0)
  {
    hide Changes;
    DirectoryChanges();
    InsideIsNoAdvisory();
    KeyIsNoAdvisory();
    IndexOfUnique(st.chain, 0);
    assert Advisories(Head(st.chain)) == {};
  }

  /** The hypothesis on directories is needed: with every other hypothesis met, a file becomes a directory, a full
      pass completes, and the row of the vanished advisory is still there. */
  lemma DirectoryBreaksRefinement()
    ensures var w := SmallWorld();
            var events := [Append(FILE_TO_DIRECTORY[0]), RunPass(FullPass(20), Some(KeyChoice("c0", "old", true, true))),
                           Append(FILE_TO_DIRECTORY[1])];
            && Lawful(w) && ValidRun(w, INITIAL, events) && NeverReturns(w, INITIAL, events)
            && var st := Exec(w, INITIAL, events);
            && var e := RunPass(ForcedPass(), Some(DirectoryChoice()));
            && Possible(w, st, e) && NoReturn(st, e)
            && var t := ProcessSnapshot(w, st.chain, st.results, e.input, e.choice);
            && t.alive && !Refines(w, st.chain, "old", t.results)
            && ADVISORY !in Head(st.chain) && PathUrl(ADVISORY) in t.results.rows && !Marked(t.results.rows[PathUrl(ADVISORY)])
  {
    hide ProcessSnapshot, Refines, Inv, RunInv, CarriesAll, Chooses, Extracted, Possible, SmallWorld, Changes, Marked;
    var w := SmallWorld();
    var events := [Append(FILE_TO_DIRECTORY[0]), RunPass(FullPass(20), Some(KeyChoice("c0", "old", true, true))),
                   Append(FILE_TO_DIRECTORY[1])];
    SmallWorldIsLawful();
    AppendIsPossible();
    var s1 := State(THERE_AND_BACK[..1], INITIAL.results, false);
    assert [] + [FILE_TO_DIRECTORY[0]] == THERE_AND_BACK[..1];
    FirstPass(s1);
    var s2 := Next(w, s1, events[1]);
    assert THERE_AND_BACK[..1] + [FILE_TO_DIRECTORY[1]] == FILE_TO_DIRECTORY;
    DirectoryIsPossible(s2);
    NextKeepsRunInv(w, s2, events[2]);
    var s3 := Next(w, s2, events[2]);
    RunCons(w, s2, events[2], []);
    RunCons(w, s1, events[1], events[2..]);
    RunCons(w, INITIAL, events[0], events[1..]);
    DirectoryPass(s3);
  }

  lemma DirectoryIsPossible(st: State)
    requires st.chain == THERE_AND_BACK[..1]
    ensures Possible(SmallWorld(), st, Append(FILE_TO_DIRECTORY[1]))
  {
  }

  /** The full pass over the directory. */
  lemma DirectoryPass(st: State)
    requires RunInv(SmallWorld(), st) && st.chain == FILE_TO_DIRECTORY && !st.foreign
    requires st.results.checkpoint == Some(Checkpoint("c0", "old", false))
    requires st.results.rows.Keys == {PathUrl(ADVISORY)} && !Marked(st.results.rows[PathUrl(ADVISORY)])
    ensures var w, e := SmallWorld(), RunPass(ForcedPass(), Some(DirectoryChoice()));
            && Possible(w, st, e) && NoReturn(st, e)
            && var t := ProcessSnapshot(w, st.chain, st.results, e.input, e.choice);
            && t.alive && !Refines(w, st.chain, "old", t.results)
            && PathUrl(ADVISORY) in t.results.rows && !Marked(t.results.rows[PathUrl(ADVISORY)])
  {
    hide ProcessSnapshot, Refines, Inv, RunInv, CarriesAll, Chooses, Extracted, Possible, SmallWorld, Changes, Completed;
    var w := SmallWorld();
    SmallWorldIsLawful();
    DirectoryPassIsPossible(st);
    RunInvParts(w, st);
    PassCompletes(w, st, ForcedPass(), DirectoryChoice(), {});
    PassRefinesIff(w, st, ForcedPass(), DirectoryChoice());
    PassSpec(w, false, st, ForcedPass(), Some(DirectoryChoice()));
    assert FailedSet([]) == {} && Urls({}) == {} && AsSet([]) == {};
    assert Keeps(DirectoryChoice(), {}, [], st.results.rows, PathUrl(ADVISORY));
    InvRow(w, st, PathUrl(ADVISORY));
    PathUrlInjective(ADVISORY, st.results.rows[PathUrl(ADVISORY)].report.columns.value.path);
  }

  // ---------------------------------------------------------------- a mark that is cleared and lost

  const FAILURE := Failure(PathUrl(ADVISORY), "not found", true)

  /** A pass over the unchanged snapshot that is given one failed retrieval. */
  function FailingPass(force: bool, budget: nat): PassInput {
    PassInput("", force, [FAILURE], {}, [ADVISORY], budget)
  }

  lemma NothingSince(chain: Chain, previous: Option<Checkpoint>)
    requires chain == THERE_AND_BACK[..1] && previous == Some(Checkpoint("c0", "old", false))
    ensures Known(chain, PreviousCommit(previous))
    ensures var changes := CollectedChanges(chain, previous);
            SelectedAdvisories(chain, changes) == {} && SelectedHistory(changes) == {} && SelectedDeleted(chain, changes) == {}
  {
    IndexOfUnique(chain, 0);
    NothingAfterHead(chain);
  }

  /** The stored results before the failing pass: one validated row. */
  ghost predicate OneRow(s: Results) {
    s.checkpoint == Some(Checkpoint("c0", "old", false)) && s.rows.Keys == {PathUrl(ADVISORY)}
  }

  lemma FailingPassIsPossible(st: State)
    requires st.chain == THERE_AND_BACK[..1] && OneRow(st.results) && !Marked(st.results.rows[PathUrl(ADVISORY)])
    ensures Possible(SmallWorld(), st, RunPass(FailingPass(false, 20), Some(KeyChoice("c0", "old", false, false))))
    ensures Extracted(SmallWorld(), st.chain, st.results, FailingPass(false, 20), KeyChoice("c0", "old", false, false)) == Some({})
  {
    hide Chooses, Possible, SmallWorld, Advisories, IsAdvisory, AdvisoryPath, CollectedChanges, SelectedAdvisories, SelectedHistory, SelectedDeleted, Known;
    SmallTree("old");
    NothingSince(st.chain, st.results.checkpoint);
    NothingChosen(st.chain, st.results.checkpoint, "old", false, KeyChoice("c0", "old", false, false));
    ChosenIsPossible(st, FailingPass(false, 20), KeyChoice("c0", "old", false, false));
    NothingExtracted(st, FailingPass(false, 20), KeyChoice("c0", "old", false, false));
  }

  lemma NothingExtracted(st: State, input: PassInput, c: Choice)
    requires |st.chain| > 0 && !c.full && c.advisories == {} && forall u | u in st.results.rows :: !Marked(st.results.rows[u])
    ensures Extracted(SmallWorld(), st.chain, st.results, input, c) == Some({})
  {
    hide SmallWorld, IsAdvisory, Readable;
    var none: set<string> := {};
    assert FailedUrls(st.results.rows) == none;
    assert Recovered(SmallWorld(), st.results.rows, input.downloads).value == none;
    assert c.advisories + none == none;
    assert Materialized(Head(st.chain), false, none).value == none;
  }

  lemma RevalidationIsPossible(st: State)
    requires st.chain == THERE_AND_BACK[..1] && st.results.checkpoint == Some(Checkpoint("c0", "old", false))
    ensures Possible(SmallWorld(), st, RunPass(FailingPass(true, 2), Some(KeyChoice("c0", "old", true, false))))
    ensures Extracted(SmallWorld(), st.chain, st.results, FailingPass(true, 2), KeyChoice("c0", "old", true, false)) == Some({ADVISORY})
  {
    hide Chooses, Possible, Extracted, SmallWorld, Advisories, IsAdvisory, AdvisoryPath, CollectedChanges, SelectedAdvisories,
         SelectedHistory, SelectedDeleted, Known;
    SmallTree("old");
    NothingSince(st.chain, st.results.checkpoint);
    NothingChosen(st.chain, st.results.checkpoint, "old", true, KeyChoice("c0", "old", true, false));
    ChosenIsPossible(st, FailingPass(true, 2), KeyChoice("c0", "old", true, false));
    EverythingExtracted(SmallWorld(), st.chain, st.results, FailingPass(true, 2), KeyChoice("c0", "old", true, false));
  }

  lemma UpdatedWithFailure(w: Environment, tree: Tree, fingerprint: string, before: Rows, after: Rows)
    requires before.Keys == {PathUrl(ADVISORY)} && Updated(w, tree, fingerprint, {}, {}, FailedSet([FAILURE]), before, after)
    ensures after.Keys == {PathUrl(ADVISORY)} && Marked(after[PathUrl(ADVISORY)])
  {
    assert FAILURE in [FAILURE];
    assert FailedSet([FAILURE]) == {PathUrl(ADVISORY)} && Urls({}) == {};
  }

  /** The failure is recorded. */
  lemma FailingPassMarks(st: State)
    requires RunInv(SmallWorld(), st) && st.chain == THERE_AND_BACK[..1]
    requires OneRow(st.results) && !Marked(st.results.rows[PathUrl(ADVISORY)])
    ensures var w, e := SmallWorld(), RunPass(FailingPass(false, 20), Some(KeyChoice("c0", "old", false, false)));
            && Possible(w, st, e) && RunInv(w, Next(w, st, e)) && Next(w, st, e).chain == st.chain
            && OneRow(Next(w, st, e).results) && Marked(Next(w, st, e).results.rows[PathUrl(ADVISORY)])
  {
    hide ProcessSnapshot, Inv, Possible, Extracted, Completed, Updated, SmallWorld, TreeWithKey, Lawful, Marked, RunInv;
    var w, input, c := SmallWorld(), FailingPass(false, 20), KeyChoice("c0", "old", false, false);
    SmallWorldIsLawful();
    RunInvParts(w, st);
    FailingPassIsPossible(st);
    PassCompletes(w, st, input, c, {});
    PassSpec(w, false, st, input, Some(c));
    var t := ProcessSnapshot(w, st.chain, st.results, input, Some(c)).results;
    CompletedCheckpoint(w, st.chain, c.checkpoint, t);
    assert Removed(c, st.results.rows) == {};
    UpdatedWithFailure(w, Head(st.chain), "old", st.results.rows, t.rows);
    NextKeepsRunInv(w, st, RunPass(input, Some(c)));
  }

  /** The revalidation saves the old copy, which can be read, and dies before it writes the failure again. */
  lemma RevalidationClears(st: State)
    requires RunInv(SmallWorld(), st) && st.chain == THERE_AND_BACK[..1] && OneRow(st.results)
    requires Marked(st.results.rows[PathUrl(ADVISORY)])
    ensures var w, e := SmallWorld(), RunPass(FailingPass(true, 2), Some(KeyChoice("c0", "old", true, false)));
            && Possible(w, st, e) && FailedSet(e.input.failures) == MarkedUrls(st.results.rows) == {PathUrl(ADVISORY)}
            && var t := ProcessSnapshot(w, st.chain, st.results, e.input, e.choice);
            && !t.alive && MarkedUrls(t.results.rows) == {}
  {
    hide Process, ValidateAll, SaveDocument, Extracted, Possible, ProcessSnapshot, Inv, RunInv, Validate, Marked, SmallWorld, TreeWithKey;
    var w, chain, s, input, c := SmallWorld(), st.chain, st.results, FailingPass(true, 2), KeyChoice("c0", "old", true, false);
    RevalidationIsPossible(st);
    assert ADVISORY in Head(chain) by { SmallTree("old"); AdvisoriesInTree(Head(chain)); }
    var cleared := s.(checkpoint := None);
    var r := Run(cleared, 1, true);
    assert Cleared(s, input) == r && Clean(c, r) == r;
    ValidateOne(w, Head(chain), "old", cleared);
    var saved := SaveDocument(w, cleared, InputsAt(Head(chain), ADVISORY, "old"));
    assert Validated(w, chain, c, {ADVISORY}, [ADVISORY], r) == Run(saved, 0, true);
    DiesAfterValidation(w, chain, s.checkpoint, input, c, {ADVISORY}, r);
    SnapshotShape(w, chain, s, input, Some(c));
    SavedOverOne(w, cleared, InputsAt(Head(chain), ADVISORY, "old"));
    OneUnmarkedRow(saved.rows, InputsAt(Head(chain), ADVISORY, "old"));
    OneMark(s.rows);
  }

  lemma OneMark(rows: Rows)
    requires rows.Keys == {PathUrl(ADVISORY)} && Marked(rows[PathUrl(ADVISORY)])
    ensures MarkedUrls(rows) == {PathUrl(ADVISORY)} == FailedSet([FAILURE])
  {
    assert FAILURE in [FAILURE];
    forall u | u in rows ensures u == PathUrl(ADVISORY) { assert u in rows.Keys; }
  }

  /** A mark really is lost: in a run from an empty provider a validated document fails to be retrieved and is marked;
      a revalidation that is given this failure dies, and then no row is marked any more. */
  lemma RevalidationLosesMark() returns (st: State)
    ensures var w := SmallWorld();
            var events := [Append(THERE_AND_BACK[0]), RunPass(FullPass(20), Some(KeyChoice("c0", "old", true, true))),
                           RunPass(FailingPass(false, 20), Some(KeyChoice("c0", "old", false, false)))];
            Lawful(w) && ValidRun(w, INITIAL, events) && Exec(w, INITIAL, events) == st
    ensures |st.chain| > 0
    ensures var w, e := SmallWorld(), RunPass(FailingPass(true, 2), Some(KeyChoice("c0", "old", true, false)));
            && Possible(w, st, e) && FailedSet(e.input.failures) == MarkedUrls(st.results.rows) == {PathUrl(ADVISORY)}
            && var t := ProcessSnapshot(w, st.chain, st.results, e.input, e.choice);
            && !t.alive && MarkedUrls(t.results.rows) == {}
  {
    hide ProcessSnapshot, Inv, RunInv, Possible, Extracted, SmallWorld, Marked, MarkedUrls, FailedSet, Lawful, NeverReturns, NeverShadowed;
    var w := SmallWorld();
    var events := [Append(THERE_AND_BACK[0]), RunPass(FullPass(20), Some(KeyChoice("c0", "old", true, true))),
                   RunPass(FailingPass(false, 20), Some(KeyChoice("c0", "old", false, false)))];
    SmallWorldIsLawful();
    AppendIsPossible();
    var s1 := State(THERE_AND_BACK[..1], INITIAL.results, false);
    assert [] + [THERE_AND_BACK[0]] == THERE_AND_BACK[..1];
    FirstPass(s1);
    var s2 := Next(w, s1, events[1]);
    FailingPassMarks(s2);
    st := Next(w, s2, events[2]);
    RevalidationClears(st);
    RunCons(w, s2, events[2], []);
    RunCons(w, s1, events[1], events[2..]);
    RunCons(w, INITIAL, events[0], events[1..]);
  }

  // ---------------------------------------------------------------- the whole mirror

  const LISTED := map[PathUrl(ADVISORY) := Sync.Remote("x", 0)]

  /** A first sync of the whole mirror: the only listed document is fetched, committed and validated. */
  ghost function FirstSync(): seq<Mirror.Move> {
    [Mirror.Quiet(Sync.Start(true)), Mirror.Quiet(Sync.Consider(PathUrl(ADVISORY))), Mirror.Quiet(Sync.Download(PathUrl(ADVISORY), true)),
     Mirror.Publish(Some(THERE_AND_BACK[0])), Mirror.Work(FullPass(20), Some(KeyChoice("c0", "old", true, true)), false),
     Mirror.Quiet(Sync.SaveToken)]
  }

  /** What the sync knows when everything is downloaded. */
  ghost function Downloaded(): Sync.State {
    Sync.State(4, LISTED, map[], {}, None,
               Some(Sync.Run(1, None, {}, {PathUrl(ADVISORY)}, map[PathUrl(ADVISORY) := Sync.Fetched("x")], Sync.Downloading)))
  }

  lemma ListedIsDownloaded()
    ensures var y1 := Sync.Do(Mirror.NewMirror(LISTED).y, Sync.Start(true));
            var y2 := Sync.Do(y1, Sync.Consider(PathUrl(ADVISORY)));
            Sync.Do(y2, Sync.Download(PathUrl(ADVISORY), true)) == Downloaded()
  {
    var u := PathUrl(ADVISORY);
    var none: map<string, Sync.Decision> := map[];
    assert LISTED.Keys == {u};
    assert none[u := Sync.Chosen] == map[u := Sync.Chosen];
    assert map[u := Sync.Chosen][u := Sync.Fetched("x")] == map[u := Sync.Fetched("x")];
  }

  lemma DownloadIsCommitted()
    ensures Sync.AllDecided(Downloaded().run.value) && Sync.FetchedFiles(Downloaded().run.value) == map[PathUrl(ADVISORY) := "x"]
    ensures GitOf(THERE_AND_BACK[0].tree) == map[PathUrl(ADVISORY) := "x"]
    ensures var y := Sync.Do(Downloaded(), Sync.Commit);
            y == Downloaded().(now := 5, git := map[PathUrl(ADVISORY) := "x"], run := Some(Downloaded().run.value.(stage := Sync.Committed)))
            && Sync.Errors(y.run.value) == {}
  {
    var files := Sync.FetchedFiles(Downloaded().run.value);
    assert files == map[PathUrl(ADVISORY) := "x"];
    SmallTree("old");
    assert Urls({ADVISORY}) == {PathUrl(ADVISORY)};
    assert PathUrl(ADVISORY)[8..] == ADVISORY;
    assert map[] + files == files;
  }


  lemma TokenIsSaved(y: Sync.State, m: Marking)
    requires y.run.Some? && y.run.value.stage.Committed?
    ensures var t := Sync.Do(Sync.Perform(y, StepsOf(m, true, false)), Sync.SaveToken);
            t.token == Some(y.run.value.startedAt) && t.remote == y.remote
  {
    hide Sync.Perform;
    StepAlone(y, Sync.Process(m.cleared, m.unreadable));
    ProcessedRun(y, m.cleared, m.unreadable);
  }

  lemma ProcessedRun(y: Sync.State, cleared: set<string>, unreadable: set<string>)
    requires y.run.Some? && y.run.value.stage.Committed?
    ensures var t := Sync.Do(Sync.Do(y, Sync.Process(cleared, unreadable)), Sync.SaveToken);
            t.token == Some(y.run.value.startedAt) && t.remote == y.remote
  {
    hide Sync.Errors;
  }

  /** The pass over the first commit, and the token after it. */
  lemma FirstSyncEnds(j: Mirror.Joint)
    requires j.st == State(THERE_AND_BACK[..1], INITIAL.results, false)
    requires j.y == Sync.Do(Downloaded(), Sync.Commit)
    ensures var w, moves := SmallWorld(), FirstSync()[4..];
            && Mirror.ValidMoves(w, j, moves) && Mirror.UnbrokenMoves(w, j, moves)
            && var after := Mirror.MakeAll(w, j, moves);
            && after.y.token == Some(1) && after.y.remote == LISTED && after.st.chain == THERE_AND_BACK[..1]
            && after.st.results.rows.Keys == {PathUrl(ADVISORY)} && !Marked(after.st.results.rows[PathUrl(ADVISORY)])
  {
    hide SmallWorld, ProcessSnapshot, Possible, RunInv, Marked, PassMarking, StepsOf, GitOf, Sync.Do, Sync.Perform, Sync.AllDecided,
         Sync.FetchedFiles, Sync.Errors, TreeWithKey, FullPass, Lawful;
    var w, moves := SmallWorld(), FirstSync()[4..];
    SmallWorldIsLawful();
    DownloadIsCommitted();
    FirstPass(j.st);
    FullPassInput(20);
    MarksAfterPass(w, j.st, FullPass(20), Some(KeyChoice("c0", "old", true, true)));
    var next := Mirror.Make(w, j, moves[0]);
    TokenIsSaved(j.y, PassMarking(w, j.st, FullPass(20), Some(KeyChoice("c0", "old", true, true))));
    Mirror.MoveFirst(w, next, moves[1], []);
    Mirror.MoveFirst(w, j, moves[0], moves[1..]);
  }

  /** The end-to-end result at work: a first sync that meets its hypotheses advances the token, and the document is
      at the head with an unmarked row. */
  lemma FirstSyncMirrors()
    ensures var w, moves, j0 := SmallWorld(), FirstSync(), Mirror.NewMirror(LISTED);
            && Lawful(w) && Mirror.ValidMoves(w, j0, moves) && Mirror.UnbrokenMoves(w, j0, moves)
            && var j := Mirror.MakeAll(w, j0, moves);
            && j.y.token == Some(1) && j.y.remote == LISTED && j.st.chain == THERE_AND_BACK[..1]
            && j.st.results.rows.Keys == {PathUrl(ADVISORY)} && !Marked(j.st.results.rows[PathUrl(ADVISORY)])
  {
    hide SmallWorld, ProcessSnapshot, Possible, RunInv, Marked, PassMarking, StepsOf, GitOf, Sync.Do, Sync.Perform, Sync.AllDecided,
         Sync.FetchedFiles, Sync.Errors, TreeWithKey, FullPass, Mirror.ValidMoves, Mirror.UnbrokenMoves, Mirror.MakeAll, Lawful;
    var w, moves, j0 := SmallWorld(), FirstSync(), Mirror.NewMirror(LISTED);
    SmallWorldIsLawful();
    ListedIsDownloaded();
    DownloadIsCommitted();
    AppendIsPossible();
    var j1 := Mirror.Make(w, j0, moves[0]);
    var j2 := Mirror.Make(w, j1, moves[1]);
    var j3 := Mirror.Make(w, j2, moves[2]);
    assert map[] + Sync.FetchedFiles(j3.y.run.value) == Sync.FetchedFiles(j3.y.run.value);
    var j4 := Mirror.Make(w, j3, moves[3]);
    assert [] + [THERE_AND_BACK[0]] == THERE_AND_BACK[..1];
    FirstSyncEnds(j4);
    assert [moves[3]] + moves[4..] == moves[3..];
    Mirror.MoveFirst(w, j3, moves[3], moves[4..]);
    assert [moves[2]] + moves[3..] == moves[2..];
    Mirror.MoveFirst(w, j2, moves[2], moves[3..]);
    assert [moves[1]] + moves[2..] == moves[1..];
    Mirror.MoveFirst(w, j1, moves[1], moves[2..]);
    assert [moves[0]] + moves[1..] == moves;
    Mirror.MoveFirst(w, j0, moves[0], moves[1..]);
  }
}
