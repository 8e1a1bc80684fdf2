/** What a completed pass leaves, said in terms of paths, blobs and stored columns alone. */
module Outcome {
  import opened Wrappers
  import opened Strings
  import opened Paths
  import opened History
  import opened World
  import opened Versions
  import opened Selection
  import opened Store
  import opened Pass
  import opened Invariant
  import opened Phases
  import opened Theorems
  import opened Runs
  import opened Refinement

  /** An advisory: a JSON file outside the metadata directory. */
  predicate AdvisoryFile(p: string) {
    |p| >= 5 && p[|p| - 5..] == ".json" && !(|p| >= 9 && p[..9] == "metadata/")
  }

  lemma AdvisoryFileIs(p: string)
    ensures AdvisoryFile(p) <==> IsAdvisory(p)
  {
    AdvisoryShape(p);
  }

  // ---------------------------------------------------------------- rows

  /** After any run without early returns and shadowed rows, a completed pass has a row for every advisory of the head. An
      unmarked one stores what the validator says of the advisory's own bytes, its signature and its two digests,
      each found under its own name, under the current fingerprint. */
  lemma RowsShowFiles(w: Environment, events: seq<Event>, input: PassInput, choice: Option<Choice>, p: string)
    requires Lawful(w) && ValidRun(w, INITIAL, events) && Disciplined(w, INITIAL, events)
    requires var st := Exec(w, INITIAL, events);
             && Possible(w, st, RunPass(input, choice)) && NoReturn(st, RunPass(input, choice)) && Unshadowed(st, RunPass(input, choice))
             && ProcessSnapshot(w, st.chain, st.results, input, choice).alive
    requires |Exec(w, INITIAL, events).chain| > 0 && p in Head(Exec(w, INITIAL, events).chain) && AdvisoryFile(p)
    ensures choice.Some?
    ensures var st := Exec(w, INITIAL, events);
            var rows := ProcessSnapshot(w, st.chain, st.results, input, choice).results.rows;
            var head := st.chain[|st.chain| - 1].tree;
            && "https://" + p in rows && rows["https://" + p].versionCount == |Writes(st.chain, |st.chain|, p)|
            && (rows["https://" + p].report.retrievalError.None?
                ==> StoresValidation(w, head, choice.value.checkpoint.fingerprint, p, rows["https://" + p].report))
  {
    hide Exec, ValidRun, Disciplined, Possible, NoReturn, Unshadowed, ProcessSnapshot, IsAdvisory, VersionsOf, Count, StoresValidation,
         InputsAt, Bare, Lawful, Writes, Enumerates;
    LawfulOrder(w);
    CrashSafeRefinement(w, events, input, choice);
    AdvisoryFileIs(p);
    var st := Exec(w, INITIAL, events);
    var rows := ProcessSnapshot(w, st.chain, st.results, input, choice).results.rows;
    assert p in Advisories(Head(st.chain));
    assert RefinesRow(w, st.chain, choice.value.checkpoint.fingerprint, rows, p);
    CountIsWrites(w.order, st.chain, |st.chain|, p);
    BareStores(w, Head(st.chain), choice.value.checkpoint.fingerprint, p, rows["https://" + p].report);
  }

  /** Every row of such a pass that is not a failure is one of those. */
  lemma NoOtherRows(w: Environment, events: seq<Event>, input: PassInput, choice: Option<Choice>, u: string)
    requires Lawful(w) && ValidRun(w, INITIAL, events) && Disciplined(w, INITIAL, events)
    requires var st := Exec(w, INITIAL, events);
             && Possible(w, st, RunPass(input, choice)) && NoReturn(st, RunPass(input, choice)) && Unshadowed(st, RunPass(input, choice))
             && ProcessSnapshot(w, st.chain, st.results, input, choice).alive
    ensures var st := Exec(w, INITIAL, events);
            var rows := ProcessSnapshot(w, st.chain, st.results, input, choice).results.rows;
            && |st.chain| > 0
            && (u in rows && rows[u].report.retrievalError.None?
                ==> |u| >= 8 && u[..8] == "https://" && u[8..] in st.chain[|st.chain| - 1].tree && AdvisoryFile(u[8..]))
  {
    hide Exec, ValidRun, Disciplined, Possible, NoReturn, Unshadowed, ProcessSnapshot, IsAdvisory, VersionsOf, Lawful, RefinesRow, AdvisoryFile;
    PossibleHasHistory(w, events, input, choice);
    CrashSafeRefinement(w, events, input, choice);
    var st := Exec(w, INITIAL, events);
    var rows := ProcessSnapshot(w, st.chain, st.results, input, choice).results.rows;
    if u in rows && rows[u].report.retrievalError.None? {
      assert !Marked(rows[u]) && u in Urls(Advisories(Head(st.chain)));
      UrlOfFile(Head(st.chain), u);
    }
  }

  lemma UrlOfFile(tree: Tree, u: string)
    requires u in Urls(Advisories(tree))
    ensures |u| >= 8 && u[..8] == "https://" && u[8..] in tree && AdvisoryFile(u[8..])
  {
    var p :| p in Advisories(tree) && u == PathUrl(p);
    assert u[8..] == p;
    AdvisoryFileIs(p);
  }

  lemma BareStores(w: Environment, tree: Tree, fingerprint: string, p: string, report: Report)
    requires p in tree
    ensures Bare(report) == Bare(w.validate(InputsAt(tree, p, fingerprint))) ==> StoresValidation(w, tree, fingerprint, p, report)
  {
  }

  // ---------------------------------------------------------------- versions

  /** Commit `j` gave the path a content: it is there, and the parent had other content or none. */
  predicate Wrote(chain: Chain, j: nat, p: string)
    requires j < |chain|
  {
    p in chain[j].tree && (j == 0 || p !in chain[j - 1].tree || chain[j - 1].tree[p] != chain[j].tree[p])
  }

  /** The commits among the first `k` that gave the path a content. */
  function Writes(chain: Chain, k: nat, p: string): set<nat>
    requires k <= |chain|
  {
    set j: nat | j < k && Wrote(chain, j, p)
  }

  lemma WroteIsAdds(chain: Chain, j: nat, p: string)
    requires j < |chain| && AdvisoryFile(p)
    ensures Wrote(chain, j, p) <==> Adds(chain, j, p)
  {
    AdvisoryFileIs(p);
  }

  /** A document's version count is the number of commits that gave it a content. */
  lemma {:induction false} CountIsWrites(order: Versions.Order, chain: Chain, k: nat, p: string)
    requires Enumerates(order) && k <= |chain| && AdvisoryFile(p)
    ensures Count(VersionsOf(order, chain, k), PathUrl(p)) == |Writes(chain, k, p)|
  {
    hide Wrote, Adds, AdvisoryFile, CommitVersions, VersionsOf, Count, Enumerates;
    if k == 0 {
      NothingCounted(order, chain, p);
    } else {
      CountIsWrites(order, chain, k - 1, p);
      CountStep(order, chain, k - 1, p);
      WroteIsAdds(chain, k - 1, p);
      assert Writes(chain, k, p) == Writes(chain, k - 1, p) + if Wrote(chain, k - 1, p) then {k - 1} else {};
    }
  }

  lemma NothingCounted(order: Versions.Order, chain: Chain, p: string)
    ensures Count(VersionsOf(order, chain, 0), PathUrl(p)) == 0
  {
  }

  /** The version of an advisory that commit `j` made. */
  ghost predicate VersionAt(chain: Chain, j: nat, p: string, v: Version)
    requires j < |chain|
  {
    AdvisoryFile(p) && Wrote(chain, j, p) && v.url == "https://" + p && v.commit == chain[j].id && v.blob == chain[j].tree[p]
  }

  lemma VersionAtIs(chain: Chain, j: nat, p: string, v: Version)
    requires j < |chain|
    ensures VersionAt(chain, j, p, v) <==> Records(chain, j, p, v)
  {
    AdvisoryFileIs(p);
    if AdvisoryFile(p) { WroteIsAdds(chain, j, p); }
  }

  /** After any run, a completed pass has recorded exactly one version for every commit that gave an advisory a content, with that
      content, and the row of every advisory of the head counts its own. */
  lemma VersionsShowHistory(w: Environment, events: seq<Event>, input: PassInput, choice: Option<Choice>)
    requires Lawful(w) && ValidRun(w, INITIAL, events)
    requires Possible(w, Exec(w, INITIAL, events), RunPass(input, choice))
    requires var st := Exec(w, INITIAL, events);
             ProcessSnapshot(w, st.chain, st.results, input, choice).alive
    ensures var st := Exec(w, INITIAL, events);
            var t := ProcessSnapshot(w, st.chain, st.results, input, choice).results;
            && (forall v :: v in t.versions <==> exists j: nat, p :: j < |st.chain| && VersionAt(st.chain, j, p, v))
            && (forall a, b :: 0 <= a < b < |t.versions| ==> t.versions[a] != t.versions[b])
            && (forall p | p in st.chain[|st.chain| - 1].tree && AdvisoryFile(p) ::
                  "https://" + p in t.rows && t.rows["https://" + p].versionCount == |Writes(st.chain, |st.chain|, p)|)
  {
    hide Exec, ValidRun, Possible, ProcessSnapshot, IsAdvisory, VersionsOf, Count, Lawful, VersionAt, Records, Writes, AdvisoryFile, Settled,
         OncePerCommit;
    PossibleHasHistory(w, events, input, choice);
    CrashSafeUpToFingerprint(w, events, input, choice);
    var st := Exec(w, INITIAL, events);
    var t := ProcessSnapshot(w, st.chain, st.results, input, choice).results;
    SettledVersions(w, st.chain, t);
    forall v ensures v in t.versions <==> exists j: nat, p :: j < |st.chain| && VersionAt(st.chain, j, p, v) {
      VersionsAre(w, st.chain, v);
    }
    VersionsDiffer(w, st.chain);
    forall p | p in Head(st.chain) && AdvisoryFile(p)
      ensures "https://" + p in t.rows && t.rows["https://" + p].versionCount == |Writes(st.chain, |st.chain|, p)|
    {
      AdvisoryFileIs(p);
      assert p in Advisories(Head(st.chain));
      SettledCount(w, st.chain, t, p);
      LawfulOrder(w);
      CountIsWrites(w.order, st.chain, |st.chain|, p);
    }
  }

  lemma LawfulOrder(w: Environment)
    requires Lawful(w)
    ensures Enumerates(w.order)
  {
  }

  lemma PossibleHasHistory(w: Environment, events: seq<Event>, input: PassInput, choice: Option<Choice>)
    requires Lawful(w) && ValidRun(w, INITIAL, events)
    requires Possible(w, Exec(w, INITIAL, events), RunPass(input, choice))
    ensures |Exec(w, INITIAL, events).chain| > 0 && ValidChain(Exec(w, INITIAL, events).chain)
  {
    hide Exec, ValidRun, Inv;
    InitialInv(w);
    RunKeepsInv(w, INITIAL, events);
  }

  lemma VersionsAre(w: Environment, chain: Chain, v: Version)
    requires Lawful(w)
    ensures v in VersionsOf(w.order, chain, |chain|) <==> exists j: nat, p :: j < |chain| && VersionAt(chain, j, p, v)
  {
    hide VersionsOf, VersionAt, Records;
    LawfulOrder(w);
    VersionsExact(w.order, chain, |chain|, v);
    forall j: nat, p | j < |chain| ensures VersionAt(chain, j, p, v) <==> Records(chain, j, p, v) {
      VersionAtIs(chain, j, p, v);
    }
  }

  lemma VersionsDiffer(w: Environment, chain: Chain)
    requires Lawful(w) && ValidChain(chain)
    ensures var vs := VersionsOf(w.order, chain, |chain|); forall a, b :: 0 <= a < b < |vs| ==> vs[a] != vs[b]
  {
    hide VersionsOf;
    LawfulOrder(w);
    VersionsOnce(w.order, chain, |chain|);
  }

  // ---------------------------------------------------------------- the summary

  /** The rows of a table, or entries of a summary, whose last retrieval failed. */
  function FailedIn(reports: map<string, Report>): set<string> {
    set u | u in reports && reports[u].retrievalError.Some?
  }

  function FailedRows(rows: Rows): set<string> {
    set u | u in rows && rows[u].report.retrievalError.Some?
  }

  /** After any run, the published summary of a completed pass covers every stored document, failed ones included, with
      its own report, and nothing else. */
  lemma SummaryShowsRows(w: Environment, events: seq<Event>, input: PassInput, choice: Option<Choice>)
    requires Lawful(w) && ValidRun(w, INITIAL, events)
    requires Possible(w, Exec(w, INITIAL, events), RunPass(input, choice))
    requires var st := Exec(w, INITIAL, events);
             ProcessSnapshot(w, st.chain, st.results, input, choice).alive
    ensures var st := Exec(w, INITIAL, events);
            var t := ProcessSnapshot(w, st.chain, st.results, input, choice).results;
            && t.summary.Some?
            && (forall u :: u in t.summary.value <==> u in t.rows)
            && (forall u | u in t.rows :: t.summary.value[u] == t.rows[u].report)
            && |t.summary.value| == |t.rows| && FailedIn(t.summary.value) == FailedRows(t.rows)
  {
    hide Exec, ValidRun, Possible, ProcessSnapshot, Lawful, Settled;
    PossibleHasHistory(w, events, input, choice);
    CrashSafeUpToFingerprint(w, events, input, choice);
    var st := Exec(w, INITIAL, events);
    var t := ProcessSnapshot(w, st.chain, st.results, input, choice).results;
    SummaryOf(t);
  }

  lemma SummaryOf(t: Results)
    requires t.summary == Some(Aggregate(t.rows))
    ensures (forall u :: u in t.summary.value <==> u in t.rows) && (forall u | u in t.rows :: t.summary.value[u] == t.rows[u].report)
    ensures |t.summary.value| == |t.rows| && FailedIn(t.summary.value) == FailedRows(t.rows)
  {
    assert t.summary.value.Keys == t.rows.Keys;
    assert |t.summary.value| == |t.summary.value.Keys| && |t.rows| == |t.rows.Keys|;
  }

  /** Two completed passes publish the same summary exactly when they stored the same report for the same documents. */
  lemma SummariesTellReports(w: Environment, events1: seq<Event>, input1: PassInput, choice1: Option<Choice>,
                             events2: seq<Event>, input2: PassInput, choice2: Option<Choice>)
    requires Lawful(w) && ValidRun(w, INITIAL, events1) && ValidRun(w, INITIAL, events2)
    requires Possible(w, Exec(w, INITIAL, events1), RunPass(input1, choice1))
    requires Possible(w, Exec(w, INITIAL, events2), RunPass(input2, choice2))
    requires var st := Exec(w, INITIAL, events1); ProcessSnapshot(w, st.chain, st.results, input1, choice1).alive
    requires var st := Exec(w, INITIAL, events2); ProcessSnapshot(w, st.chain, st.results, input2, choice2).alive
    ensures var st1, st2 := Exec(w, INITIAL, events1), Exec(w, INITIAL, events2);
            var t1 := ProcessSnapshot(w, st1.chain, st1.results, input1, choice1).results;
            var t2 := ProcessSnapshot(w, st2.chain, st2.results, input2, choice2).results;
            t1.summary == t2.summary
            <==> t1.rows.Keys == t2.rows.Keys && forall u | u in t1.rows && u in t2.rows :: t1.rows[u].report == t2.rows[u].report
  {
    hide Exec, ValidRun, Possible, ProcessSnapshot, Lawful, FailedIn, FailedRows;
    PossibleHasHistory(w, events1, input1, choice1);
    PossibleHasHistory(w, events2, input2, choice2);
    SummaryShowsRows(w, events1, input1, choice1);
    SummaryShowsRows(w, events2, input2, choice2);
    var st1, st2 := Exec(w, INITIAL, events1), Exec(w, INITIAL, events2);
    var t1 := ProcessSnapshot(w, st1.chain, st1.results, input1, choice1).results;
    var t2 := ProcessSnapshot(w, st2.chain, st2.results, input2, choice2).results;
    if t1.summary == t2.summary {
      assert t1.rows.Keys == t1.summary.value.Keys && t2.rows.Keys == t2.summary.value.Keys;
    }
    if t1.rows.Keys == t2.rows.Keys && forall u | u in t1.rows && u in t2.rows :: t1.rows[u].report == t2.rows[u].report {
      SameSummary(t1.summary.value, t2.summary.value);
    }
  }

  lemma SameSummary(a: map<string, Report>, b: map<string, Report>)
    requires a.Keys == b.Keys && forall u | u in a :: a[u] == b[u]
    ensures a == b
  {
  }

  // ---------------------------------------------------------------- selection

  /** The path was added, removed, or given another content. */
  predicate Altered(before: Tree, after: Tree, p: string) {
    if p in before && p in after then before[p] != after[p] else p in before || p in after
  }

  /** Some commit after `i` altered the path. */
  predicate AlteredSince(chain: Chain, i: nat, p: string) {
    exists j | i < j < |chain| :: Altered(chain[j - 1].tree, chain[j].tree, p)
  }

  /** The path is a file of the tree, or a directory of it. */
  predicate Resolves(tree: Tree, p: string) {
    p in tree || exists q | q in tree :: |q| > |p| && q[..|p| + 1] == p + "/"
  }

  lemma AlteredIs(chain: Chain, i: nat, p: string)
    ensures AlteredSince(chain, i, p) <==> p in Changes(chain, i)
  {
    if p in Changes(chain, i) {
      var j: nat :| i < j < |chain| && p in StepChanges(chain, j);
      assert Altered(chain[j - 1].tree, chain[j].tree, p);
    }
    if j :| i < j < |chain| && Altered(chain[j - 1].tree, chain[j].tree, p) {
      assert p in StepChanges(chain, j);
    }
  }

  lemma ResolvesIs(tree: Tree, p: string)
    ensures Resolves(tree, p) <==> GetPath(tree, p) != Missing
  {
  }

  /** From a known checkpoint, a pass selects exactly the advisories that can be looked up at the head and of which some commit
      since changed the file, the signature or a digest; it removes exactly the changed ones that cannot be looked up; it
      records versions for exactly the changed ones; and it is full exactly when forced or when the fingerprint changed. */
  lemma SelectionShowsChanges(chain: Chain, previous: Checkpoint, i: nat, fingerprint: string, force: bool, c: Choice, a: string)
    requires ValidChain(chain) && i < |chain| && previous.commit == chain[i].id
    requires Chooses(chain, Some(previous), fingerprint, force, c)
    ensures !c.baseline && (c.full <==> force || previous.fingerprint != fingerprint)
    ensures c.checkpoint == Checkpoint(chain[|chain| - 1].id, fingerprint, false)
    ensures var head := chain[|chain| - 1].tree;
            && (a in c.history <==> AdvisoryFile(a) && AlteredSince(chain, i, a))
            && ("https://" + a in c.deleted <==> AdvisoryFile(a) && AlteredSince(chain, i, a) && !Resolves(head, a))
            && var anyInput := AlteredSince(chain, i, a) || AlteredSince(chain, i, a + ".asc")
                               || AlteredSince(chain, i, a + ".sha256") || AlteredSince(chain, i, a + ".sha512");
               (a in c.advisories <==> !c.full && AdvisoryFile(a) && Resolves(head, a) && anyInput)
  {
    hide AlteredSince, Resolves, IsAdvisory, AdvisoryPath, GetPath, Changes, Ascending, AdvisoryFile;
    IndexOfUnique(chain, i);
    AdvisoryFileIs(a);
    ResolvesIs(Head(chain), a);
    AlteredIs(chain, i, a);
    AlteredIs(chain, i, a + ".asc");
    AlteredIs(chain, i, a + ".sha256");
    AlteredIs(chain, i, a + ".sha512");
    DeletedIs(chain, Changes(chain, i), c.deleted, a);
    SelectedIs(chain, Changes(chain, i), a);
  }

  lemma DeletedIs(chain: Chain, changes: set<string>, deleted: seq<string>, a: string)
    requires |chain| > 0 && AsSet(deleted) == SelectedDeleted(chain, changes)
    ensures "https://" + a in deleted <==> a in changes && IsAdvisory(a) && GetPath(Head(chain), a) == Missing
  {
    hide IsAdvisory, GetPath;
    DeletedChanged(chain, changes, a);
    assert PathUrl(a) in deleted <==> PathUrl(a) in AsSet(deleted);
  }

  lemma SelectedIs(chain: Chain, changes: set<string>, a: string)
    requires |chain| > 0
    ensures var touched := a in changes || a + ".asc" in changes || a + ".sha256" in changes || a + ".sha512" in changes;
            a in SelectedAdvisories(chain, changes) <==> IsAdvisory(a) && GetPath(Head(chain), a) != Missing && touched
  {
    hide IsAdvisory, GetPath, AdvisoryPath;
    forall p ensures AdvisoryPath(p) == Some(a) <==> IsAdvisory(a) && (p == a || p == a + ".asc" || p == a + ".sha256" || p == a + ".sha512") {
      AdvisoryPathExact(p, a);
      AdvisoryFileIs(a);
    }
    if a in SelectedAdvisories(chain, changes) {
      var p :| p in changes && AdvisoryPath(p) == Some(a) && GetPath(Head(chain), a) != Missing;
    }
  }

  /** What is extracted: everything when the pass is full; otherwise the selected files, unless one of them is no file or one
      of their sidecars is a directory, which fails the pass. */
  lemma ExtractionShowsFiles(tree: Tree, advisories: set<string>)
    ensures Materialized(tree, true, advisories).Some?
    ensures Materialized(tree, true, advisories).value == set p | p in tree && AdvisoryFile(p)
    ensures Materialized(tree, false, advisories).None? <==> exists a | a in advisories :: Unreadable(tree, a)
    ensures Materialized(tree, false, advisories).Some? ==>
              Materialized(tree, false, advisories).value == set a | a in advisories && AdvisoryFile(a)
  {
    forall p ensures AdvisoryFile(p) <==> IsAdvisory(p) { AdvisoryFileIs(p); }
    forall a ensures Unreadable(tree, a) <==> !Readable(tree, a) { UnreadableIs(tree, a); }
  }

  predicate OnlyDirectory(tree: Tree, p: string) {
    p !in tree && exists q | q in tree :: |q| > |p| && q[..|p| + 1] == p + "/"
  }

  predicate Unreadable(tree: Tree, a: string) {
    a !in tree || OnlyDirectory(tree, a + ".asc") || OnlyDirectory(tree, a + ".sha256") || OnlyDirectory(tree, a + ".sha512")
  }

  lemma UnreadableIs(tree: Tree, a: string)
    ensures Unreadable(tree, a) <==> !Readable(tree, a)
  {
    forall p ensures OnlyDirectory(tree, p) <==> GetPath(tree, p) == Directory {}
    assert InputPaths(a) == {a, a + ".asc", a + ".sha256", a + ".sha512"};
  }
}
