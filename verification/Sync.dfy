/** Incremental download: which remote changes a sequence of complete and failed syncs can miss. */
module Sync {
  import opened Wrappers

  /** A listed document: its current content and the modification time its index claims. */
  datatype Remote = Remote(content: string, modified: nat)

  /** What a sync has done about one listed document; Unlisted when every index that lists it failed to load and was skipped. */
  datatype Decision =
    | Skipped
    | Unlisted
    | Chosen
    | Fetched(content: string)
    | Errored

  /** Steps of a sync that are already behind it. */
  datatype Stage = Downloading | Committed | Processed

  datatype Run = Run(
    startedAt: nat,
    since: Option<nat>,
    retry: set<string>,
    listed: set<string>,
    decided: map<string, Decision>,
    stage: Stage)

  /** The provider, its Git copy, the URLs marked as not retrieved and the `since` token. */
  datatype State = State(
    now: nat,
    remote: map<string, Remote>,
    git: map<string, string>,
    failed: set<string>,
    token: Option<nat>,
    run: Option<Run>)

  datatype Step =
    | Change(changed: string, doc: Remote)
    | ClearToken
    | Start(emptyDatabase: bool)
    | SkipIndex(unseen: string)
    | Consider(url: string)
    | Download(chosen: string, ok: bool)
    | Commit
    | Process(cleared: set<string>, unreadable: set<string>)
    | DieProcessing(cleared: set<string>, unreadable: set<string>)
    | SaveToken
    | Abort
    | Revalidate(cleared: set<string>, unreadable: set<string>)
    | DieRevalidating(cleared: set<string>, unreadable: set<string>)

  /** The download filter of the wrapped index. */
  predicate Selects(r: Run, url: string, modified: nat) {
    r.since.None? || modified >= r.since.value || url in r.retry
  }

  function FetchedFiles(r: Run): map<string, string> {
    map u | u in r.decided && r.decided[u].Fetched? :: r.decided[u].content
  }

  function Errors(r: Run): set<string> {
    set u | u in r.decided && r.decided[u].Errored?
  }

  function Unseen(r: Run): set<string> {
    set u | u in r.decided && r.decided[u].Unlisted?
  }

  /** Every document listed at the start was met in some index or lost with it, and every chosen one was tried. */
  predicate AllDecided(r: Run) {
    r.listed <= r.decided.Keys && forall u | u in r.decided :: !r.decided[u].Chosen?
  }

  /** One step; a provider stamps a change with a time no earlier than the change, and listed documents stay listed.
      A pass clears the marks of rows it removes or validates, marks what validates as unreadable, and only at
      its end marks the failures it was given: a sync's own errors, or the marks a revalidation started with. */
  function Do(st: State, step: Step): State {
    var later := st.(now := st.now + 1);
    match step
    case Change(u, doc) => if doc.modified >= st.now then later.(remote := st.remote[u := doc]) else later
    case ClearToken => later.(token := None)
    case Start(emptyDatabase) =>
      if st.run.Some? then later
      else
        var since := if emptyDatabase then None else st.token;
        later.(run := Some(Run(st.now, since, if since.Some? then st.failed else {}, st.remote.Keys, map[], Downloading)))
    case SkipIndex(u) =>
      if st.run.None? || u !in st.remote || u in st.run.value.decided || !st.run.value.stage.Downloading? then later
      else later.(run := Some(st.run.value.(decided := st.run.value.decided[u := Unlisted])))
    case Consider(u) =>
      if st.run.None? || u !in st.remote || u in st.run.value.decided || !st.run.value.stage.Downloading? then later
      else
        var r := st.run.value;
        later.(run := Some(r.(decided := r.decided[u := if Selects(r, u, st.remote[u].modified) then Chosen else Skipped])))
    case Download(u, ok) =>
      if st.run.None? || u !in st.remote || u !in st.run.value.decided || st.run.value.decided[u] != Chosen
         || !st.run.value.stage.Downloading? then later
      else
        var r := st.run.value;
        later.(run := Some(r.(decided := r.decided[u := if ok then Fetched(st.remote[u].content) else Errored])))
    case Commit =>
      if st.run.None? || !st.run.value.stage.Downloading? || !AllDecided(st.run.value) then later
      else later.(git := st.git + FetchedFiles(st.run.value), run := Some(st.run.value.(stage := Committed)))
    case Process(cleared, unreadable) =>
      if st.run.None? || !st.run.value.stage.Committed? then later
      else
        later.(failed := st.failed - cleared + unreadable + Errors(st.run.value), run := Some(st.run.value.(stage := Processed)))
    case DieProcessing(cleared, unreadable) =>
      if st.run.None? || !st.run.value.stage.Committed? then later
      else later.(failed := st.failed - cleared + unreadable, run := None)
    case Revalidate(cleared, unreadable) =>
      if st.run.Some? then later else later.(failed := st.failed - cleared + unreadable + st.failed)
    case DieRevalidating(cleared, unreadable) =>
      if st.run.Some? then later else later.(failed := st.failed - cleared + unreadable)
    case SaveToken =>
      if st.run.None? || !st.run.value.stage.Processed? then later
      else later.(token := Some(st.run.value.startedAt), run := None)
    case Abort => later.(run := None)
  }

  function Perform(st: State, steps: seq<Step>): State {
    if steps == [] then st else Do(Perform(st, steps[..|steps| - 1]), steps[|steps| - 1])
  }

  predicate Differs(st: State, u: string) {
    u in st.remote && !(u in st.git && st.git[u] == st.remote[u].content)
  }

  /** Every listed document Git does not have as it is now is modified since `t`, or known to have failed. */
  ghost predicate Covered(st: State, t: nat, known: set<string>) {
    forall u | u in st.remote && Differs(st, u) :: st.remote[u].modified >= t || u in known
  }

  ghost predicate NothingMissed(st: State) {
    st.token.Some? ==> Covered(st, st.token.value, st.failed)
  }

  /** A document can only differ from what the run saw of it by a change after the run started. */
  ghost predicate DecisionSound(st: State, r: Run, u: string)
    requires u in r.decided && u in st.remote
  {
    match r.decided[u]
    case Skipped => Differs(st, u) ==> st.remote[u].modified >= r.startedAt
    case Fetched(content) =>
      && (st.remote[u].content != content ==> st.remote[u].modified >= r.startedAt)
      && (!r.stage.Downloading? ==> u in st.git && st.git[u] == content)
    case _ => true
  }

  ghost predicate RunSound(st: State, r: Run) {
    && r.startedAt < st.now
    && r.listed <= st.remote.Keys && r.decided.Keys <= st.remote.Keys
    && (r.since.Some? ==> r.since.value <= r.startedAt)
    && (r.stage.Downloading? ==> (r.since.Some? ==> r.retry == st.failed && Covered(st, r.since.value, st.failed)))
    && (!r.stage.Downloading? ==> AllDecided(r))
    && (r.stage.Processed? ==> Errors(r) <= st.failed)
    && (forall u | u in st.remote && u !in r.listed :: st.remote[u].modified >= r.startedAt)
    && (forall u | u in r.decided :: DecisionSound(st, r, u))
  }

  ghost predicate Valid(st: State) {
    && (st.token.Some? ==> st.token.value < st.now)
    && NothingMissed(st)
    && (st.run.Some? ==> RunSound(st, st.run.value) && (st.token.Some? ==> st.token.value <= st.run.value.startedAt))
  }

  // ---------------------------------------------------------------- single steps

  /** Once every decision is made and committed, only later changes, recorded errors and skipped indexes remain. */
  lemma CommittedIsCovered(st: State, r: Run)
    requires RunSound(st, r) && !r.stage.Downloading?
    ensures Covered(st, r.startedAt, Errors(r) + Unseen(r))
  {
    forall u | u in st.remote && Differs(st, u) ensures st.remote[u].modified >= r.startedAt || u in Errors(r) + Unseen(r) {
      if u in r.listed { assert DecisionSound(st, r, u); }
    }
  }

  lemma CoveredEarlier(st: State, t: nat, s: nat, known: set<string>, more: set<string>)
    requires Covered(st, t, known) && s <= t && known <= more
    ensures Covered(st, s, more)
  {
  }

  lemma ChangeKeepsCovered(st: State, u: string, doc: Remote, t: nat, known: set<string>)
    requires Covered(st, t, known) && t <= st.now && doc.modified >= st.now
    ensures Covered(Do(st, Change(u, doc)), t, known)
  {
    var after := Do(st, Change(u, doc));
    forall v | v in after.remote && Differs(after, v) ensures after.remote[v].modified >= t || v in known {
      if v != u { assert Differs(st, v); }
    }
  }

  lemma ChangeValid(st: State, u: string, doc: Remote)
    requires Valid(st)
    ensures Valid(Do(st, Change(u, doc)))
  {
    var after := Do(st, Change(u, doc));
    if doc.modified >= st.now {
      if st.token.Some? { ChangeKeepsCovered(st, u, doc, st.token.value, st.failed); }
      if st.run.Some? {
        var r := st.run.value;
        if r.since.Some? && r.stage.Downloading? { ChangeKeepsCovered(st, u, doc, r.since.value, st.failed); }
        forall v | v in r.decided ensures DecisionSound(after, r, v) { assert DecisionSound(st, r, v); }
      }
    } else {
      TickValid(st);
    }
  }

  lemma TickValid(st: State)
    requires Valid(st)
    ensures Valid(st.(now := st.now + 1))
  {
    var after := st.(now := st.now + 1);
    if st.token.Some? { assert Covered(after, st.token.value, st.failed) by { SameCovered(st, after, st.token.value, st.failed); } }
    if st.run.Some? {
      var r := st.run.value;
      if r.since.Some? && r.stage.Downloading? { SameCovered(st, after, r.since.value, st.failed); }
      forall v | v in r.decided ensures DecisionSound(after, r, v) { assert DecisionSound(st, r, v); }
    }
  }

  lemma SameCovered(st: State, after: State, t: nat, known: set<string>)
    requires Covered(st, t, known) && after.remote == st.remote && after.git == st.git
    ensures Covered(after, t, known)
  {
    forall u | u in after.remote && Differs(after, u) ensures after.remote[u].modified >= t || u in known { assert Differs(st, u); }
  }

  lemma StartValid(st: State, emptyDatabase: bool)
    requires Valid(st) && st.run.None?
    ensures Valid(Do(st, Start(emptyDatabase)))
  {
    var after := Do(st, Start(emptyDatabase));
    if st.token.Some? { SameCovered(st, after, st.token.value, st.failed); }
  }

  /** A skipped document is one Git already had, so any difference is a change made meanwhile. */
  lemma DecideValid(st: State, u: string, d: Decision)
    requires Valid(st) && st.run.Some? && st.run.value.stage.Downloading? && u in st.remote
    requires d.Skipped? ==> !Selects(st.run.value, u, st.remote[u].modified)
    requires d.Fetched? ==> d.content == st.remote[u].content
    ensures var r := st.run.value;
            Valid(st.(now := st.now + 1, run := Some(r.(decided := r.decided[u := d]))))
  {
    var r := st.run.value;
    var next := r.(decided := r.decided[u := d]);
    var after := st.(now := st.now + 1, run := Some(next));
    if st.token.Some? { SameCovered(st, after, st.token.value, st.failed); }
    if r.since.Some? { SameCovered(st, after, r.since.value, st.failed); }
    forall v | v in next.decided ensures DecisionSound(after, next, v) {
      if v != u { assert DecisionSound(st, r, v); }
    }
  }

  lemma CommitValid(st: State)
    requires Valid(st) && st.run.Some? && st.run.value.stage.Downloading? && AllDecided(st.run.value)
    ensures Valid(Do(st, Commit))
  {
    var r, after := st.run.value, Do(st, Commit);
    var next := after.run.value;
    forall v | v in next.decided ensures DecisionSound(after, next, v) {
      assert DecisionSound(st, r, v);
    }
    if st.token.Some? {
      forall u | u in after.remote && Differs(after, u) ensures after.remote[u].modified >= st.token.value || u in st.failed {
        if u in FetchedFiles(r) { assert DecisionSound(st, r, u); } else { assert Differs(st, u); }
      }
    }
  }

  lemma SameDecisions(r: Run, stage: Stage)
    ensures Errors(r.(stage := stage)) == Errors(r)
  {
  }

  lemma StoppedValid(st: State, after: State)
    requires Valid(st) && after.run.None? && after.now == st.now + 1 && after.remote == st.remote && after.git == st.git
    requires after.failed == st.failed && after.token == st.token
    ensures Valid(after)
  {
    if st.token.Some? { SameCovered(st, after, st.token.value, st.failed); }
  }

  lemma RevalidateValid(st: State, cleared: set<string>, unreadable: set<string>)
    requires Valid(st) && st.run.None?
    ensures Valid(Do(st, Revalidate(cleared, unreadable)))
  {
    var after := Do(st, Revalidate(cleared, unreadable));
    if st.token.Some? {
      SameCovered(st, after, st.token.value, st.failed);
      CoveredEarlier(after, st.token.value, st.token.value, st.failed, after.failed);
    }
  }

  // ---------------------------------------------------------------- steps that can forget

  /** The step is a pass that dies between its result writes and its failure write, at a time it can happen. */
  predicate Dies(st: State, step: Step) {
    || (step.DieProcessing? && st.run.Some? && st.run.value.stage.Committed?)
    || (step.DieRevalidating? && st.run.None?)
  }

  predicate Processes(st: State, step: Step) {
    step.Process? && st.run.Some? && st.run.value.stage.Committed?
  }

  predicate Advances(st: State, step: Step) {
    step.SaveToken? && st.run.Some? && st.run.value.stage.Processed?
  }

  /** The step clears the mark of a document that Git lacks and no filter selects, and does not set it again. */
  predicate Clears(st: State, step: Step, u: string)
    requires Dies(st, step) || Processes(st, step)
  {
    && Differs(st, u) && st.token.Some? && st.remote[u].modified < st.token.value
    && u in step.cleared && u !in step.unreadable
  }

  /** How a step can lose a document. Advancing the token loses one whose indexes were all skipped, unless it changed
      since the sync began or is marked; writing results loses one whose indexes were skipped by clearing its mark; a
      pass that dies also loses one that this sync failed to get, and a dying revalidation any whose mark it clears. */
  predicate Loses(st: State, step: Step, u: string) {
    if Advances(st, step) then
      u in Unseen(st.run.value) && Differs(st, u) && st.remote[u].modified < st.run.value.startedAt && u !in st.failed
    else if Processes(st, step) then u in Unseen(st.run.value) && Clears(st, step, u)
    else Dies(st, step) && (step.DieProcessing? ==> u in Unseen(st.run.value) + Errors(st.run.value)) && Clears(st, step, u)
  }

  ghost predicate Harmless(st: State, step: Step) {
    forall u :: !Loses(st, step, u)
  }

  lemma SameDifferences(st: State, after: State)
    requires after.remote == st.remote && after.git == st.git
    ensures forall u :: Differs(after, u) <==> Differs(st, u)
  {
  }

  /** While a committed run has not advanced the token, what is old and lacking was skipped or failed. */
  lemma OldIsKnown(st: State, u: string)
    requires Valid(st) && st.run.Some? && !st.run.value.stage.Downloading? && Differs(st, u)
    ensures st.remote[u].modified < st.run.value.startedAt ==> u in Errors(st.run.value) + Unseen(st.run.value)
    ensures st.token.Some? ==> st.token.value <= st.run.value.startedAt
  {
    CommittedIsCovered(st, st.run.value);
  }

  lemma DyingValidIff(st: State, step: Step)
    requires Valid(st) && Dies(st, step)
    ensures Valid(Do(st, step)) <==> Harmless(st, step)
    ensures NothingMissed(Do(st, step)) <==> Harmless(st, step)
  {
    var after := Do(st, step);
    SameDifferences(st, after);
    forall u ensures Loses(st, step, u) <==> Clears(st, step, u) {
      if step.DieProcessing? && Clears(st, step, u) { OldIsKnown(st, u); }
    }
    if st.token.Some? {
      forall u | Differs(st, u) && st.remote[u].modified < st.token.value
        ensures u in st.failed && (Loses(st, step, u) <==> u !in after.failed)
      {
      }
      assert Covered(after, st.token.value, after.failed) <==> Harmless(st, step);
    }
  }

  lemma ProcessValidIff(st: State, step: Step)
    requires Valid(st) && Processes(st, step)
    ensures Valid(Do(st, step)) <==> Harmless(st, step)
    ensures NothingMissed(Do(st, step)) <==> Harmless(st, step)
  {
    var r, after := st.run.value, Do(st, step);
    var next := after.run.value;
    SameDifferences(st, after);
    SameDecisions(r, Processed);
    forall v | v in next.decided ensures DecisionSound(after, next, v) { assert DecisionSound(st, r, v); }
    forall u ensures Loses(st, step, u) <==> Clears(st, step, u) && u !in Errors(r) {
      if Clears(st, step, u) { OldIsKnown(st, u); }
    }
    if st.token.Some? {
      forall u | Differs(st, u) && st.remote[u].modified < st.token.value
        ensures u in st.failed && (Loses(st, step, u) <==> u !in after.failed)
      {
      }
      assert Covered(after, st.token.value, after.failed) <==> Harmless(st, step);
    }
  }

  /** The token may advance exactly when every document whose indexes were all skipped is as Git has it, changed since
      the sync began, or is marked. */
  lemma SaveTokenValidIff(st: State)
    requires Valid(st) && Advances(st, SaveToken)
    ensures var after, r := Do(st, SaveToken), st.run.value;
            && (Valid(after) <==> NothingMissed(after))
            && (Valid(after) <==> forall u | u in Unseen(r) && Differs(st, u) :: u in st.failed || st.remote[u].modified >= r.startedAt)
            && (Valid(after) <==> Harmless(st, SaveToken))
  {
    var r, after := st.run.value, Do(st, SaveToken);
    SameDifferences(st, after);
    CommittedIsCovered(st, r);
    forall u ensures Loses(st, SaveToken, u) <==> Differs(st, u) && u !in st.failed && st.remote[u].modified < r.startedAt {
      if Differs(st, u) { OldIsKnown(st, u); }
    }
    assert Covered(after, r.startedAt, after.failed) <==> Harmless(st, SaveToken);
  }

  /** A step keeps every remote change remembered exactly when it loses no document. */
  lemma StepValidIff(st: State, step: Step)
    requires Valid(st)
    ensures Valid(Do(st, step)) <==> Harmless(st, step)
    ensures NothingMissed(Do(st, step)) <==> Harmless(st, step)
  {
    hide Valid, Do, Harmless, NothingMissed;
    if Dies(st, step) {
      DyingValidIff(st, step);
    } else if Processes(st, step) {
      ProcessValidIff(st, step);
    } else if Advances(st, step) {
      SaveTokenValidIff(st);
    } else {
      OthersLoseNothing(st, step);
      if Do(st, step) == st.(now := st.now + 1) { TickValid(st); } else { EffectiveStepValid(st, step); }
      ValidMissesNothing(Do(st, step));
    }
  }

  lemma OthersLoseNothing(st: State, step: Step)
    requires !Dies(st, step) && !Processes(st, step) && !Advances(st, step)
    ensures Harmless(st, step)
  {
  }

  lemma EffectiveStepValid(st: State, step: Step)
    requires Valid(st) && !Dies(st, step) && !Processes(st, step) && !Advances(st, step) && Do(st, step) != st.(now := st.now + 1)
    ensures Valid(Do(st, step))
  {
    hide Valid;
    match step
    case Change(u, doc) => ChangeValid(st, u, doc);
    case ClearToken => ClearValid(st);
    case Start(emptyDatabase) => StartValid(st, emptyDatabase);
    case SkipIndex(u) => DecideValid(st, u, Unlisted);
    case Consider(u) => DecideValid(st, u, if Selects(st.run.value, u, st.remote[u].modified) then Chosen else Skipped);
    case Download(u, ok) => DecideValid(st, u, if ok then Fetched(st.remote[u].content) else Errored);
    case Commit => CommitValid(st);
    case Abort => StoppedValid(st, Do(st, Abort));
    case Revalidate(cleared, unreadable) => RevalidateValid(st, cleared, unreadable);
  }

  lemma ClearValid(st: State)
    requires Valid(st)
    ensures Valid(Do(st, ClearToken))
  {
    TickValid(st);
  }

  // ---------------------------------------------------------------- runs

  /** No index listing a document of the run in progress was skipped. */
  predicate AllSeen(st: State) {
    st.run.Some? ==> Unseen(st.run.value) == {}
  }

  /** A step of unbroken work: every index loads, and no pass dies between clearing a mark and writing its failures. */
  predicate Unbroken(step: Step) {
    !step.SkipIndex? && (step.DieProcessing? || step.DieRevalidating? ==> step.cleared == {})
  }

  lemma UnbrokenLosesNothing(st: State, step: Step)
    requires AllSeen(st) && Unbroken(step)
    ensures Harmless(st, step) && AllSeen(Do(st, step))
  {
  }

  /** Over any sequence of syncs, complete, failed or aborted, of revalidations and of remote changes, as long as every index
      loads and no pass dies between clearing a mark and writing its failures, no remote change is forgotten:
      what Git lacks is either recent enough for the next sync to select or among the persisted failures it retries. */
  lemma {:induction false} NoMissedUpdate(st: State, steps: seq<Step>)
    requires Valid(st) && AllSeen(st) && forall step | step in steps :: Unbroken(step)
    ensures Valid(Perform(st, steps)) && NothingMissed(Perform(st, steps)) && AllSeen(Perform(st, steps))
  {
    hide Valid, Do, Harmless, NothingMissed, AllSeen, Unbroken;
    if steps != [] {
      var front, last := steps[..|steps| - 1], steps[|steps| - 1];
      assert last in steps && forall step | step in front :: step in steps;
      NoMissedUpdate(st, front);
      UnbrokenLosesNothing(Perform(st, front), last);
      StepValidIff(Perform(st, front), last);
    }
    ValidMissesNothing(Perform(st, steps));
  }

  /** No step of the run loses a document. */
  ghost predicate AlwaysHarmless(st: State, steps: seq<Step>) {
    steps != [] ==>
      var front := steps[..|steps| - 1];
      AlwaysHarmless(st, front) && Harmless(Perform(st, front), steps[|steps| - 1])
  }

  /** At no point of the run is anything missed. */
  ghost predicate NeverMisses(st: State, steps: seq<Step>) {
    NothingMissed(Perform(st, steps)) && (steps != [] ==> NeverMisses(st, steps[..|steps| - 1]))
  }

  lemma {:induction false} HarmlessIsValid(st: State, steps: seq<Step>)
    requires Valid(st) && AlwaysHarmless(st, steps)
    ensures Valid(Perform(st, steps))
  {
    hide Valid, Do, Harmless, NothingMissed;
    if steps != [] {
      HarmlessIsValid(st, steps[..|steps| - 1]);
      StepValidIff(Perform(st, steps[..|steps| - 1]), steps[|steps| - 1]);
    }
  }

  /** With skipped indexes and dying passes allowed: nothing is ever missed exactly when no step loses a document. */
  lemma {:induction false} NeverMissesIff(st: State, steps: seq<Step>)
    requires Valid(st)
    ensures NeverMisses(st, steps) <==> AlwaysHarmless(st, steps)
  {
    hide Valid, Do, Harmless, NothingMissed;
    if steps == [] {
      ValidMissesNothing(st);
    } else {
      var front, last := steps[..|steps| - 1], steps[|steps| - 1];
      NeverMissesIff(st, front);
      if AlwaysHarmless(st, front) {
        HarmlessIsValid(st, front);
        StepValidIff(Perform(st, front), last);
      }
    }
  }

  lemma ValidMissesNothing(st: State)
    requires Valid(st)
    ensures NothingMissed(st)
  {
  }

  lemma InitiallyValid(remote: map<string, Remote>)
    ensures Valid(State(1, remote, map[], {}, None, None))
  {
  }

  /** The next sync that looks at a missing document while its run is fresh selects it. */
  lemma MissingIsSelected(st: State, emptyDatabase: bool, u: string)
    requires Valid(st) && st.run.None? && Differs(st, u)
    ensures var next := Do(st, Start(emptyDatabase)); Selects(next.run.value, u, next.remote[u].modified)
  {
  }

  // ---------------------------------------------------------------- a pass that dies at the wrong moment

  /** A document that Git lacks, that no filter selects, and that no failure mark remembers. */
  ghost predicate Forgotten(st: State, u: string) {
    && Differs(st, u) && u !in st.failed
    && st.token.Some? && st.remote[u].modified < st.token.value <= st.now
    && (st.run.Some? ==> Ignores(st, st.run.value, u))
  }

  /** The run in progress will not bring the document either. */
  ghost predicate Ignores(st: State, r: Run, u: string)
    requires u in st.remote
  {
    && st.remote[u].modified < r.startedAt <= st.now && u !in Errors(r)
    && (r.stage.Downloading? ==>
          && r.since.Some? && st.remote[u].modified < r.since.value && u !in r.retry
          && (u in r.decided ==> r.decided[u].Skipped? || r.decided[u].Unlisted?))
  }

  /** Steps that could still bring the document back: a change, a full sync, or a validation that marks the old copy. */
  predicate Rescues(step: Step, u: string) {
    match step
    case Change(v, _) => v == u
    case ClearToken => true
    case Start(emptyDatabase) => emptyDatabase
    case Process(_, unreadable) => u in unreadable
    case DieProcessing(_, unreadable) => u in unreadable
    case Revalidate(_, unreadable) => u in unreadable
    case DieRevalidating(_, unreadable) => u in unreadable
    case _ => false
  }

  lemma StaysForgotten(st: State, step: Step, u: string)
    requires Forgotten(st, u) && !Rescues(step, u)
    ensures Forgotten(Do(st, step), u)
  {
    var after := Do(st, step);
    assert Differs(after, u);
  }

  lemma {:induction false} ForgottenForever(st: State, steps: seq<Step>, u: string)
    requires Forgotten(st, u) && forall step | step in steps :: !Rescues(step, u)
    ensures Forgotten(Perform(st, steps), u)
  {
    hide Forgotten, Do, Rescues;
    if steps != [] {
      var front, last := steps[..|steps| - 1], steps[|steps| - 1];
      assert last in steps && forall step | step in front :: step in steps;
      ForgottenForever(st, front, u);
      StaysForgotten(Perform(st, front), last, u);
    }
  }

  /** From a state in which nothing is missed, a step that writes results or the token forgets exactly the documents
      it loses. */
  lemma ForgetsExactly(st: State, step: Step, u: string)
    requires Valid(st) && (Advances(st, step) || ((Dies(st, step) || Processes(st, step)) && st.token.Some?))
    ensures Forgotten(Do(st, step), u) <==> Loses(st, step, u)
  {
    var after := Do(st, step);
    SameDifferences(st, after);
    if Processes(st, step) { SameDecisions(st.run.value, Processed); }
    if st.run.Some? && !st.run.value.stage.Downloading? && Differs(st, u) { OldIsKnown(st, u); }
  }

  /** Only a pass that dies, or a sync that skipped all indexes of the document, can make it forgotten. */
  lemma OnlyUnseenAreLost(st: State, step: Step, u: string)
    requires Valid(st) && Forgotten(Do(st, step), u)
    ensures Dies(st, step) || ((Advances(st, step) || Processes(st, step)) && u in Unseen(st.run.value))
  {
    hide Valid, Do, Loses;
    StepValidIff(st, step);
    if Dies(st, step) || Advances(st, step) || Processes(st, step) {
      if !Advances(st, step) { TokenKept(st, step, u); }
      ForgetsExactly(st, step, u);
      LostWasUnseen(st, step, u);
    } else {
      OthersLoseNothing(st, step);
      ForgottenIsMissed(Do(st, step), u);
    }
  }

  lemma TokenKept(st: State, step: Step, u: string)
    requires Forgotten(Do(st, step), u) && (Dies(st, step) || Processes(st, step))
    ensures st.token.Some?
  {
  }

  lemma LostWasUnseen(st: State, step: Step, u: string)
    requires Loses(st, step, u)
    ensures Dies(st, step) || ((Advances(st, step) || Processes(st, step)) && u in Unseen(st.run.value))
  {
  }

  lemma ForgottenIsMissed(st: State, u: string)
    requires Forgotten(st, u)
    ensures !NothingMissed(st)
  {
  }

  lemma PerformNothing(st: State)
    ensures Perform(st, []) == st
  {
  }

  lemma PerformMore(st: State, steps: seq<Step>, step: Step)
    ensures Perform(st, steps + [step]) == Do(Perform(st, steps), step)
  {
    assert (steps + [step])[..|steps|] == steps;
  }

  lemma {:induction false} PerformInTurn(st: State, first: seq<Step>, second: seq<Step>)
    ensures Perform(st, first + second) == Perform(Perform(st, first), second)
  {
    hide Do;
    if second == [] {
      assert first + second == first;
    } else {
      var front, last := second[..|second| - 1], second[|second| - 1];
      PerformInTurn(st, first, front);
      assert first + second == (first + front) + [last];
      PerformMore(st, first + front, last);
    }
  }

  lemma PerformFirst(st: State, step: Step, rest: seq<Step>)
    ensures Perform(st, [step] + rest) == Perform(Do(st, step), rest)
  {
    hide Do;
    PerformInTurn(st, [step], rest);
    assert [] + [step] == [step];
    PerformMore(st, [], step);
    PerformNothing(st);
  }

  /** One sync of the document `u`, up to its commit. */
  function Attempt(ok: bool): seq<Step> {
    [Start(false), Consider("u"), Download("u", ok), Commit]
  }

  lemma AttemptChooses(st: State)
    requires st.run.None? && st.remote.Keys == {"u"}
    requires st.token.Some? ==> st.remote["u"].modified >= st.token.value || "u" in st.failed
    ensures var r := Run(st.now, st.token, if st.token.Some? then st.failed else {}, {"u"}, map["u" := Chosen], Downloading);
            Do(Do(st, Start(false)), Consider("u")) == st.(now := st.now + 2, run := Some(r))
  {
    var empty: map<string, Decision> := map[];
    assert empty["u" := Chosen] == map["u" := Chosen];
  }

  lemma AttemptCommits(st: State, ok: bool)
    requires st.run.Some? && st.remote.Keys == {"u"}
    requires st.run.value.listed == {"u"} && st.run.value.decided == map["u" := Chosen] && st.run.value.stage.Downloading?
    ensures var doc := st.remote["u"].content;
            var r := st.run.value.(decided := map["u" := if ok then Fetched(doc) else Errored], stage := Committed);
            Do(Do(st, Download("u", ok)), Commit)
            == st.(now := st.now + 2, git := if ok then st.git["u" := doc] else st.git, run := Some(r))
  {
    var doc := st.remote["u"].content;
    var next := Do(st, Download("u", ok));
    var decided := next.run.value.decided;
    assert decided == map["u" := if ok then Fetched(doc) else Errored];
    assert FetchedFiles(next.run.value) == if ok then map["u" := doc] else map[];
    assert st.git + FetchedFiles(next.run.value) == if ok then st.git["u" := doc] else st.git;
  }

  /** What an attempt on the only document does. */
  lemma AttemptDone(st: State, ok: bool)
    requires st.run.None? && st.remote.Keys == {"u"}
    requires st.token.Some? ==> st.remote["u"].modified >= st.token.value || "u" in st.failed
    ensures var doc := st.remote["u"].content;
            var r := Run(st.now, st.token, if st.token.Some? then st.failed else {}, {"u"},
                         map["u" := if ok then Fetched(doc) else Errored], Committed);
            Perform(st, Attempt(ok)) == st.(now := st.now + 4, git := if ok then st.git["u" := doc] else st.git, run := Some(r))
  {
    hide Perform;
    AttemptChooses(st);
    AttemptCommits(Do(Do(st, Start(false)), Consider("u")), ok);
    PerformNothing(st);
    PerformMore(st, [], Start(false));
    PerformMore(st, [Start(false)], Consider("u"));
    PerformMore(st, [Start(false), Consider("u")], Download("u", ok));
    PerformMore(st, [Start(false), Consider("u"), Download("u", ok)], Commit);
    assert [] + [Start(false)] == [Start(false)];
    assert [Start(false)] + [Consider("u")] == [Start(false), Consider("u")];
    assert [Start(false), Consider("u")] + [Download("u", ok)] == [Start(false), Consider("u"), Download("u", ok)];
    assert [Start(false), Consider("u"), Download("u", ok)] + [Commit] == Attempt(ok);
  }

  /** A new mirror of a provider that lists one document. */
  const EMPTY_MIRROR := State(1, map["u" := Remote("old", 1)], map[], {}, None, None)

  /** A first sync gets the document; then it changes, and the next sync cannot get it and says so. */
  const FAILED_RETRIEVAL :=
    Attempt(true) + [Process({"u"}, {}), SaveToken, Change("u", Remote("new", 7))] + Attempt(false) + [Process({}, {}), SaveToken]

  /** Either kind of pass that then dies after validating the old copy. */
  function DyingPass(revalidating: bool): seq<Step> {
    if revalidating then [DieRevalidating({"u"}, {})] else Attempt(false) + [DieProcessing({"u"}, {})]
  }

  lemma FailureIsMarked()
    ensures Perform(EMPTY_MIRROR, FAILED_RETRIEVAL)
            == State(14, map["u" := Remote("new", 7)], map["u" := "old"], {"u"}, Some(8), None)
  {
    hide Do, Perform;
    var first, second := Attempt(true) + [Process({"u"}, {}), SaveToken, Change("u", Remote("new", 7))], Attempt(false) + [Process({}, {}), SaveToken];
    assert FAILED_RETRIEVAL == first + second;
    PerformInTurn(EMPTY_MIRROR, first, second);
    FirstSync();
    SecondSync();
  }

  lemma FirstSync()
    ensures Perform(EMPTY_MIRROR, Attempt(true) + [Process({"u"}, {}), SaveToken, Change("u", Remote("new", 7))])
            == State(8, map["u" := Remote("new", 7)], map["u" := "old"], {}, Some(1), None)
  {
    hide Perform;
    AttemptDone(EMPTY_MIRROR, true);
    PerformMore(EMPTY_MIRROR, Attempt(true), Process({"u"}, {}));
    PerformMore(EMPTY_MIRROR, Attempt(true) + [Process({"u"}, {})], SaveToken);
    PerformMore(EMPTY_MIRROR, Attempt(true) + [Process({"u"}, {})] + [SaveToken], Change("u", Remote("new", 7)));
    assert Attempt(true) + [Process({"u"}, {})] + [SaveToken] + [Change("u", Remote("new", 7))]
        == Attempt(true) + [Process({"u"}, {}), SaveToken, Change("u", Remote("new", 7))];
  }

  lemma SecondSync()
    ensures Perform(State(8, map["u" := Remote("new", 7)], map["u" := "old"], {}, Some(1), None), Attempt(false) + [Process({}, {}), SaveToken])
            == State(14, map["u" := Remote("new", 7)], map["u" := "old"], {"u"}, Some(8), None)
  {
    hide Perform;
    var st := State(8, map["u" := Remote("new", 7)], map["u" := "old"], {}, Some(1), None);
    AttemptDone(st, false);
    PerformMore(st, Attempt(false), Process({}, {}));
    PerformMore(st, Attempt(false) + [Process({}, {})], SaveToken);
    assert Attempt(false) + [Process({}, {})] + [SaveToken] == Attempt(false) + [Process({}, {}), SaveToken];
  }

  /** It does happen, in a run from an empty mirror: a document is fetched, changes, fails to download and is marked;
      then a sync that fails it again, or a revalidation, clears the mark and dies; and every later sync skips it. */
  lemma AMarkCanBeLost(revalidating: bool, steps: seq<Step>)
    requires forall step | step in steps :: !Rescues(step, "u")
    ensures Valid(EMPTY_MIRROR)
    ensures Forgotten(Perform(EMPTY_MIRROR, FAILED_RETRIEVAL + DyingPass(revalidating) + steps), "u")
  {
    hide Perform, Forgotten;
    InitiallyValid(EMPTY_MIRROR.remote);
    FailureIsMarked();
    var st := Perform(EMPTY_MIRROR, FAILED_RETRIEVAL);
    PerformInTurn(EMPTY_MIRROR, FAILED_RETRIEVAL, DyingPass(revalidating));
    PerformInTurn(EMPTY_MIRROR, FAILED_RETRIEVAL + DyingPass(revalidating), steps);
    DyingPassForgets(st, revalidating);
    ForgottenForever(Perform(st, DyingPass(revalidating)), steps, "u");
  }

  lemma DyingPassForgets(st: State, revalidating: bool)
    requires st == State(14, map["u" := Remote("new", 7)], map["u" := "old"], {"u"}, Some(8), None)
    ensures Forgotten(Perform(st, DyingPass(revalidating)), "u")
  {
    hide Perform;
    if revalidating {
      assert [DieRevalidating({"u"}, {})] == [DieRevalidating({"u"}, {})] + [];
      PerformFirst(st, DieRevalidating({"u"}, {}), []);
      PerformNothing(Do(st, DieRevalidating({"u"}, {})));
    } else {
      AttemptDone(st, false);
      PerformMore(st, Attempt(false), DieProcessing({"u"}, {}));
    }
  }

  /** A new mirror of a provider with a public and a restricted feed, one document in each. */
  const TWO_FEEDS := State(1, map["public" := Remote("a", 0), "restricted" := Remote("b", 0)], map[], {}, None, None)

  /** A sync that succeeds although the restricted feed does not load. */
  const FAILED_FEED :=
    [Start(false), Consider("public"), Download("public", true), SkipIndex("restricted"), Commit, Process({"public"}, {}), SaveToken]

  lemma FailedFeedDownloads()
    ensures Perform(TWO_FEEDS, FAILED_FEED[..4])
            == TWO_FEEDS.(now := 5, run := Some(Run(1, None, {}, {"public", "restricted"}, map["public" := Fetched("a"), "restricted" := Unlisted], Downloading)))
  {
    hide Perform;
    var s1 := Do(TWO_FEEDS, FAILED_FEED[0]);
    var s2 := Do(s1, FAILED_FEED[1]);
    var s3 := Do(s2, FAILED_FEED[2]);
    var none: map<string, Decision> := map[];
    assert TWO_FEEDS.remote.Keys == {"public", "restricted"};
    assert s1.run == Some(Run(1, None, {}, {"public", "restricted"}, none, Downloading));
    assert s2.run.value.decided == map["public" := Chosen];
    assert s3.run.value.decided == map["public" := Fetched("a")];
    assert Do(s3, FAILED_FEED[3]).run.value.decided == map["public" := Fetched("a"), "restricted" := Unlisted];
    assert FAILED_FEED[..4] == [FAILED_FEED[0]] + [FAILED_FEED[1], FAILED_FEED[2], FAILED_FEED[3]];
    PerformFirst(TWO_FEEDS, FAILED_FEED[0], [FAILED_FEED[1], FAILED_FEED[2], FAILED_FEED[3]]);
    assert [FAILED_FEED[1], FAILED_FEED[2], FAILED_FEED[3]] == [FAILED_FEED[1]] + [FAILED_FEED[2], FAILED_FEED[3]];
    PerformFirst(s1, FAILED_FEED[1], [FAILED_FEED[2], FAILED_FEED[3]]);
    assert [FAILED_FEED[2], FAILED_FEED[3]] == [FAILED_FEED[2]] + [FAILED_FEED[3]];
    PerformFirst(s2, FAILED_FEED[2], [FAILED_FEED[3]]);
    assert [FAILED_FEED[3]] == [FAILED_FEED[3]] + [];
    PerformFirst(s3, FAILED_FEED[3], []);
    PerformNothing(Do(s3, FAILED_FEED[3]));
  }

  lemma FailedFeedEnds(st: State)
    requires st == TWO_FEEDS.(now := 5, run := Some(Run(1, None, {}, {"public", "restricted"}, map["public" := Fetched("a"), "restricted" := Unlisted], Downloading)))
    ensures Perform(st, FAILED_FEED[4..]) == State(8, TWO_FEEDS.remote, map["public" := "a"], {}, Some(1), None)
  {
    hide Perform, Do;
    FailedFeedCommits(st);
    var s1 := Do(st, Commit);
    var s2 := Do(s1, Process({"public"}, {}));
    assert FAILED_FEED[4..] == [Commit] + [Process({"public"}, {}), SaveToken];
    PerformFirst(st, Commit, [Process({"public"}, {}), SaveToken]);
    assert [Process({"public"}, {}), SaveToken] == [Process({"public"}, {})] + [SaveToken];
    PerformFirst(s1, Process({"public"}, {}), [SaveToken]);
    assert [SaveToken] == [SaveToken] + [];
    PerformFirst(s2, SaveToken, []);
    PerformNothing(Do(s2, SaveToken));
  }

  lemma FailedFeedCommits(st: State)
    requires st == TWO_FEEDS.(now := 5, run := Some(Run(1, None, {}, {"public", "restricted"}, map["public" := Fetched("a"), "restricted" := Unlisted], Downloading)))
    ensures Do(Do(Do(st, Commit), Process({"public"}, {})), SaveToken) == State(8, TWO_FEEDS.remote, map["public" := "a"], {}, Some(1), None)
  {
    var r := st.run.value;
    FailedFeedFiles(r);
    assert st.git + FetchedFiles(r) == map["public" := "a"];
    assert Do(st, Commit) == st.(now := 6, git := map["public" := "a"], run := Some(r.(stage := Committed)));
    SameDecisions(r, Committed);
    hide FetchedFiles, Errors;
    assert {} - {"public"} + {} + Errors(r) == {};
  }

  lemma FailedFeedFiles(r: Run)
    requires r.decided == map["public" := Fetched("a"), "restricted" := Unlisted]
    ensures FetchedFiles(r) == map["public" := "a"] && Errors(r) == {}
  {
  }

  /** A restricted feed that fails to load once: its document is never fetched, by this sync or any later one. */
  lemma AFailedFeedIsForgotten(steps: seq<Step>)
    requires forall step | step in steps :: !Rescues(step, "restricted")
    ensures Valid(TWO_FEEDS)
    ensures Forgotten(Perform(TWO_FEEDS, FAILED_FEED + steps), "restricted")
  {
    hide Perform;
    InitiallyValid(TWO_FEEDS.remote);
    FailedFeedDownloads();
    FailedFeedEnds(Perform(TWO_FEEDS, FAILED_FEED[..4]));
    assert FAILED_FEED == FAILED_FEED[..4] + FAILED_FEED[4..];
    PerformInTurn(TWO_FEEDS, FAILED_FEED[..4], FAILED_FEED[4..]);
    PerformInTurn(TWO_FEEDS, FAILED_FEED, steps);
    assert Differs(Perform(TWO_FEEDS, FAILED_FEED), "restricted");
    ForgottenForever(Perform(TWO_FEEDS, FAILED_FEED), steps, "restricted");
  }

  /** A sync over a mirror whose only feed does not load, with a full pass that completes. */
  const SKIPPED_FULL_SYNC := [Start(false), SkipIndex("u"), Commit, Process({"u"}, {}), SaveToken]

  lemma SkippedIsCommitted(st: State)
    requires st == State(14, map["u" := Remote("new", 7)], map["u" := "old"], {"u"}, Some(8), None)
    ensures Do(Do(Do(st, Start(false)), SkipIndex("u")), Commit)
            == st.(now := 17, run := Some(Run(14, Some(8), {"u"}, {"u"}, map["u" := Unlisted], Committed)))
  {
    var none: map<string, Decision> := map[];
    assert st.remote.Keys == {"u"};
    assert none["u" := Unlisted] == map["u" := Unlisted];
    var r := Do(Do(st, Start(false)), SkipIndex("u")).run.value;
    assert FetchedFiles(r) == map[];
    assert st.git + FetchedFiles(r) == st.git;
  }

  lemma SkippedIsProcessed(st: State)
    requires st == State(17, map["u" := Remote("new", 7)], map["u" := "old"], {"u"}, Some(8),
                         Some(Run(14, Some(8), {"u"}, {"u"}, map["u" := Unlisted], Committed)))
    ensures Do(Do(st, Process({"u"}, {})), SaveToken) == State(19, st.remote, st.git, {}, Some(14), None)
  {
    assert Errors(st.run.value) == {};
    assert Do(st, Process({"u"}, {})).failed == {};
  }

  lemma SkippedSyncDone(st: State)
    requires st == State(14, map["u" := Remote("new", 7)], map["u" := "old"], {"u"}, Some(8), None)
    ensures Perform(st, SKIPPED_FULL_SYNC) == State(19, st.remote, st.git, {}, Some(14), None)
  {
    hide Perform, Do;
    SkippedIsCommitted(st);
    SkippedIsProcessed(Do(Do(Do(st, Start(false)), SkipIndex("u")), Commit));
    var steps := SKIPPED_FULL_SYNC;
    assert steps[..1] == [Start(false)] && steps[..2] == steps[..1] + [SkipIndex("u")] && steps[..3] == steps[..2] + [Commit];
    assert steps[..4] == steps[..3] + [Process({"u"}, {})] && steps == steps[..4] + [SaveToken];
    assert [] + [Start(false)] == [Start(false)];
    PerformNothing(st);
    PerformMore(st, [], Start(false));
    PerformMore(st, steps[..1], SkipIndex("u"));
    PerformMore(st, steps[..2], Commit);
    PerformMore(st, steps[..3], Process({"u"}, {}));
    PerformMore(st, steps[..4], SaveToken);
  }

  /** A skipped feed can cost a mark although no pass dies: from an empty mirror a document is fetched, changes, fails to
      download and is marked; the next sync skips its feed, so does not try it again, and its full pass clears the mark. */
  lemma ASkippedFeedLosesAMark(steps: seq<Step>)
    requires forall step | step in steps :: !Rescues(step, "u")
    ensures Forgotten(Perform(EMPTY_MIRROR, FAILED_RETRIEVAL + SKIPPED_FULL_SYNC + steps), "u")
  {
    hide Perform;
    FailureIsMarked();
    SkippedSyncDone(Perform(EMPTY_MIRROR, FAILED_RETRIEVAL));
    PerformInTurn(EMPTY_MIRROR, FAILED_RETRIEVAL, SKIPPED_FULL_SYNC);
    PerformInTurn(EMPTY_MIRROR, FAILED_RETRIEVAL + SKIPPED_FULL_SYNC, steps);
    assert Differs(Perform(EMPTY_MIRROR, FAILED_RETRIEVAL + SKIPPED_FULL_SYNC), "u");
    ForgottenForever(Perform(EMPTY_MIRROR, FAILED_RETRIEVAL + SKIPPED_FULL_SYNC), steps, "u");
  }

  // ---------------------------------------------------------------- index capture and filtering

  datatype Listed = Listed(url: string, modified: nat)

  function UrlsOf(index: seq<Listed>): set<string> {
    set a | a in index :: a.url
  }

  /** What the filter lets through, in index order. */
  function Retained(since: Option<nat>, retry: set<string>, index: seq<Listed>): (kept: seq<Listed>)
    ensures forall a :: a in kept <==> a in index && (since.None? || a.modified >= since.value || a.url in retry)
  {
    if index == [] then []
    else
      var last := index[|index| - 1];
      Retained(since, retry, index[..|index| - 1])
      + if since.None? || last.modified >= since.value || last.url in retry then [last] else []
  }

  /** Sees each index before it is filtered: membership is taken from all of it, downloads only from what the filter keeps. */
  class MembershipSource {
    const since: Option<nat>
    const retry: set<string>
    var membership: map<string, set<string>>

    /** An empty database forces a full sync; otherwise earlier failures are tried again. */
    constructor (token: Option<nat>, documentCount: nat, failures: seq<string>)
      ensures since == (if documentCount == 0 then None else token)
      ensures retry == (if since.None? then {} else set u | u in failures)
      ensures membership == map[]
    {
      var from := token;
      if from.Some? && documentCount == 0 {
        from := None;
      }
      since := from;
      retry := if from.Some? then set u | u in failures else {};
      membership := map[];
    }

    /** Captures the full index, then keeps what needs downloading; an index that fails to load records nothing. `places`
        tells where in the index each kept advisory stands. */
    method LoadIndex(distribution: string, index: Option<seq<Listed>>) returns (advisories: Option<seq<Listed>>, ghost places: seq<nat>)
      modifies this
      ensures index.None? ==> advisories.None? && membership == old(membership)
      ensures index.Some? ==> advisories == Some(Retained(since, retry, index.value))
      ensures index.Some? ==> membership.Keys == old(membership).Keys + {distribution}
      ensures forall d | d != distribution && d in old(membership) :: d in membership && membership[d] == old(membership)[d]
      ensures index.Some? ==> forall u :: (u in membership[distribution] <==> exists k :: 0 <= k < |index.value| && index.value[k].url == u)
      ensures index.Some? ==> SelectedPlaces(since, retry, index.value, advisories.value, places)
    {
      hide SelectedPlaces, Retained;
      places := [];
      if index.None? {
        return None, [];
      }
      membership := membership[distribution := UrlsOf(index.value)];
      var all := index.value;
      if since.None? {
        RetainedAll(retry, all);
        places := AllPlaces(retry, all);
        return Some(all), places;
      }
      var kept: seq<Listed> := [];
      NoPlaces(since, retry);
      for i := 0 to |all|
        invariant membership == old(membership)[distribution := UrlsOf(all)]
        invariant kept == Retained(since, retry, all[..i])
        invariant SelectedPlaces(since, retry, all[..i], kept, places)
      {
        PlaceNext(since, retry, all, i, kept, places);
        RetainedNext(since, retry, all, i);
        if all[i].modified >= since.value || all[i].url in retry {
          kept := kept + [all[i]];
          places := places + [i];
        }
      }
      assert all[..|all|] == all;
      advisories := Some(kept);
    }
  }

  /** The kept advisories are exactly those changed since the token, or to be tried again, in the order of the index. */
  ghost predicate SelectedPlaces(since: Option<nat>, retry: set<string>, index: seq<Listed>, kept: seq<Listed>, places: seq<nat>) {
    && |places| == |kept|
    && (forall k :: 0 <= k < |kept| ==> places[k] < |index| && kept[k] == index[places[k]])
    && (forall j, k :: 0 <= j < k < |places| ==> places[j] < places[k])
    && (forall i :: 0 <= i < |index| ==> (i in places <==> since.None? || index[i].modified >= since.value || index[i].url in retry))
  }

  lemma NoPlaces(since: Option<nat>, retry: set<string>)
    ensures Retained(since, retry, []) == [] && SelectedPlaces(since, retry, [], [], [])
  {
  }

  lemma AllPlaces(retry: set<string>, index: seq<Listed>) returns (places: seq<nat>)
    ensures SelectedPlaces(None, retry, index, index, places)
  {
    places := seq(|index|, k => k);
    forall i | 0 <= i < |index| ensures i in places { assert places[i] == i; }
  }

  lemma RetainedNext(since: Option<nat>, retry: set<string>, index: seq<Listed>, i: nat)
    requires i < |index|
    ensures Retained(since, retry, index[..i + 1])
            == Retained(since, retry, index[..i])
               + if since.None? || index[i].modified >= since.value || index[i].url in retry then [index[i]] else []
  {
    assert index[..i + 1][..i] == index[..i];
  }

  lemma PlaceNext(since: Option<nat>, retry: set<string>, index: seq<Listed>, i: nat, kept: seq<Listed>, places: seq<nat>)
    requires i < |index| && SelectedPlaces(since, retry, index[..i], kept, places)
    ensures var selected := since.None? || index[i].modified >= since.value || index[i].url in retry;
            && (selected ==> SelectedPlaces(since, retry, index[..i + 1], kept + [index[i]], places + [i]))
            && (!selected ==> SelectedPlaces(since, retry, index[..i + 1], kept, places))
  {
    assert forall k :: 0 <= k < i ==> index[..i + 1][k] == index[..i][k];
    assert forall k :: k in places + [i] <==> k in places || k == i;
    assert i !in places;
  }

  lemma {:induction false} RetainedAll(retry: set<string>, index: seq<Listed>)
    ensures Retained(None, retry, index) == index
  {
    if index != [] { RetainedAll(retry, index[..|index| - 1]); }
  }
}
