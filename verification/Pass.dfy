/** One processing pass as a sequence of separately committed transactions. */
module Pass {
  import opened Wrappers
  import opened Strings
  import opened Paths
  import opened PathSets
  import opened History
  import opened World
  import opened Selection
  import opened Store

  /** A pass in progress: after `budget` more transactions it dies. */
  datatype Run = Run(results: Results, budget: nat, alive: bool)

  /** What a pass is given besides the history and the stored results. */
  datatype PassInput = PassInput(
    identity: string,
    force: bool,
    failures: seq<Failure>,
    /** Paths present in the download directory, plain or compressed. */
    downloads: set<string>,
    /** Order in which the validator meets the extracted files. */
    walk: seq<string>,
    budget: nat)

  /** The value of a processing selection. */
  datatype Choice = Choice(
    checkpoint: Checkpoint,
    full: bool,
    baseline: bool,
    advisories: set<string>,
    history: set<string>,
    deleted: seq<string>)

  function PreviousCommit(previous: Option<Checkpoint>): Option<string> {
    match previous
    case None => None
    case Some(c) => Some(c.commit)
  }

  ghost predicate Chooses(chain: Chain, previous: Option<Checkpoint>, fingerprint: string, force: bool, c: Choice)
    requires |chain| > 0
  {
    var changes := CollectedChanges(chain, previous);
    && c.checkpoint == Checkpoint(chain[|chain| - 1].id, fingerprint, false)
    && (c.baseline <==> !Known(chain, PreviousCommit(previous)))
    && (c.full <==> c.baseline || force || previous.value.fingerprint != fingerprint)
    && c.advisories == (if c.full then {} else SelectedAdvisories(chain, changes))
    && c.history == SelectedHistory(changes)
    && Ascending(c.deleted) && AsSet(c.deleted) == SelectedDeleted(chain, changes)
  }

  /** Commits one transaction, unless the pass dies first. */
  function Transact(r: Run, next: Results): Run {
    if !r.alive then r
    else if r.budget == 0 then r.(alive := false)
    else Run(next, r.budget - 1, true)
  }

  // ---------------------------------------------------------------- selection of inputs

  /** URLs of marked rows the recovery cursor can reach. */
  function FailedUrls(rows: Rows): set<string> {
    set u | u in rows && Marked(rows[u]) && u != ""
  }

  /** Downloaded paths whose previous retrieval failed; None when a stored URL is malformed. */
  function Recovered(w: Environment, rows: Rows, downloads: set<string>): Option<set<string>> {
    if exists u | u in FailedUrls(rows) :: w.gitPath(u).None? then None
    else Some(set u | u in FailedUrls(rows) && w.gitPath(u) != None && w.gitPath(u).value.Some?
                      && w.gitPath(u).value.value in downloads :: w.gitPath(u).value.value)
  }

  /** All four inputs can be read: the advisory as a file, each sidecar as a file or not at all. */
  predicate Readable(tree: Tree, a: string) {
    GetPath(tree, a).File? && forall p | p in InputPaths(a) :: GetPath(tree, p) != Directory
  }

  /** Documents extracted for validation; None when a selected input cannot be read. */
  function Materialized(tree: Tree, full: bool, advisories: set<string>): (docs: Option<set<string>>)
    ensures docs.Some? ==> forall p | p in docs.value :: p in tree && IsAdvisory(p)
  {
    if full then Some(set p | p in tree && IsAdvisory(p))
    else if exists a | a in advisories :: !Readable(tree, a) then None
    else Some(set a | a in advisories && Readable(tree, a) && IsAdvisory(a))
  }

  // ---------------------------------------------------------------- phases

  function DeleteAll(r: Run): Run {
    var r1 := Transact(r, DropFailures(r.results));
    var r2 := Transact(r1, DropVulnerabilities(r1.results));
    var r3 := Transact(r2, DropRevisions(r2.results));
    Transact(r3, DropDocuments(r3.results))
  }

  /** Deletes removed URLs page by page, one transaction each. */
  function DeletePages(r: Run, urls: seq<string>): Run
    decreases |urls|
  {
    if urls == [] then r
    else
      var n := if |urls| <= PATH_BATCH then |urls| else PATH_BATCH;
      DeletePages(Transact(r, DeleteUrls(r.results, urls[..n])), urls[n..])
  }

  /** Validation so far: the run and the documents already saved. */
  datatype Visit = Visit(run: Run, visited: set<string>)

  /** Saves each extracted document once, in the order the walk meets it. */
  function ValidateAll(w: Environment, tree: Tree, fingerprint: string, docs: set<string>, walk: seq<string>, v: Visit): Visit
    requires forall p | p in docs :: p in tree
    decreases |walk|
  {
    if walk == [] || !v.run.alive then v
    else if walk[0] in docs && walk[0] !in v.visited then
      var next := Transact(v.run, SaveDocument(w, v.run.results, InputsAt(tree, walk[0], fingerprint)));
      ValidateAll(w, tree, fingerprint, docs, walk[1..],
                  Visit(next, if next.alive then v.visited + {walk[0]} else v.visited))
    else ValidateAll(w, tree, fingerprint, docs, walk[1..], v)
  }

  /** Removes every result before a baseline, or the results of removed advisories. */
  function Clean(c: Choice, r: Run): Run {
    if c.baseline then DeleteAll(r) else DeletePages(r, c.deleted)
  }

  /** Validation fails when fewer documents were met than extracted. */
  function Validated(w: Environment, chain: Chain, c: Choice, docs: set<string>, walk: seq<string>, r: Run): Run
    requires |chain| > 0 && forall p | p in docs :: p in Head(chain)
  {
    var v := ValidateAll(w, Head(chain), c.checkpoint.fingerprint, docs, walk, Visit(r, {}));
    if |v.visited| == |docs| then v.run else v.run.(alive := false)
  }

  ghost function RecordPhase(w: Environment, chain: Chain, previous: Option<Checkpoint>, c: Choice, r: Run): Run {
    var backfill := !c.baseline && r.results.rows != map[] && r.results.versions == [];
    if c.baseline || backfill || c.history != {} then
      Transact(r, RecordVersions(w, chain, r.results, if c.baseline || backfill then None else PreviousCommit(previous)))
    else r
  }

  function FailurePhase(w: Environment, r: Run, failures: seq<Failure>): Run {
    if failures == [] then r else Transact(r, SaveRetrievalErrors(w, r.results, failures))
  }

  function SummaryPhase(r: Run, changed: bool): Run {
    if changed || r.results.summary.None?
    then Transact(r, r.results.(summary := Some(Aggregate(r.results.rows))))
    else r
  }

  predicate WasDirty(previous: Option<Checkpoint>) {
    previous.Some? && previous.value.summaryDirty
  }

  /** Everything after the inputs are extracted. */
  ghost function Process(w: Environment, chain: Chain, previous: Option<Checkpoint>, input: PassInput, c: Choice, docs: set<string>, r: Run): Run
    requires |chain| > 0 && forall p | p in docs :: p in Head(chain)
  {
    var validated := Validated(w, chain, c, docs, input.walk, Clean(c, r));
    var recorded := RecordPhase(w, chain, previous, c, validated);
    var changed := WasDirty(previous) || c.full || docs != {} || c.deleted != []
                   || FailuresChange(w, recorded.results.rows, input.failures);
    var marked := FailurePhase(w, recorded, input.failures);
    var summarized := SummaryPhase(marked, changed);
    Transact(summarized, summarized.results.(checkpoint := Some(c.checkpoint)))
  }

  /** A whole pass; `choice` is None when selection itself fails. */
  ghost function ProcessSnapshot(w: Environment, chain: Chain, s: Results, input: PassInput, choice: Option<Choice>): Run
    requires |chain| > 0
  {
    var started := Run(s, input.budget, true);
    var cleared := if input.force then Transact(started, s.(checkpoint := None)) else started;
    var stopped := cleared.(alive := false);
    if !cleared.alive then cleared
    else match choice
      case None => stopped
      case Some(c) =>
        match if c.full then Some({}) else Recovered(w, s.rows, input.downloads)
        case None => stopped
        case Some(recovered) =>
          match Materialized(Head(chain), c.full, c.advisories + recovered)
          case None => stopped
          case Some(docs) => Process(w, chain, s.checkpoint, input, c, docs, cleared)
  }
}
