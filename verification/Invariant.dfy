/** What the stored results satisfy between any two transactions of any pass. */
module Invariant {
  import opened Paths
  import opened History
  import opened World
  import opened Versions
  import opened Store

  ghost predicate Carried(w: Environment, rows: Rows) {
    forall u | u in rows :: w.carries(u, rows[u].report.trackingId)
  }

  /** An unmarked row names the advisory it was computed from. As long as none of that advisory's inputs has
      changed since commit `i`, and the commit has it, the row is the validation of its inputs there. */
  ghost predicate TracedRow(w: Environment, chain: Chain, i: nat, url: string, row: Row)
    requires i < |chain|
  {
    row.report.columns.Some? &&
    var x := row.report.columns.value;
    && url == PathUrl(x.path) && IsAdvisory(x.path)
    && (x.path !in Touched(chain, i) && x.path in chain[i].tree
        ==> row.report == Validate(w, InputsAt(chain[i].tree, x.path, x.fingerprint)))
  }

  ghost predicate Traced(w: Environment, chain: Chain, i: nat, rows: Rows)
    requires i < |chain|
  {
    forall u | u in rows && !Marked(rows[u]) :: TracedRow(w, chain, i, u, rows[u])
  }

  /** The row of `p` exists and counts the versions recorded for the first `k` commits. */
  ghost predicate HasCount(w: Environment, chain: Chain, k: nat, rows: Rows, p: string)
    requires k <= |chain|
  {
    PathUrl(p) in rows && rows[PathUrl(p)].versionCount == Count(VersionsOf(w.order, chain, k), PathUrl(p))
  }

  /** Advisories whose content has not changed since commit `i` keep their row and its count. */
  ghost predicate Covered(w: Environment, chain: Chain, i: nat, rows: Rows)
    requires i < |chain|
  {
    var k := i + 1;
    forall p {:trigger HasCount(w, chain, k, rows, p)} | p in chain[i].tree && IsAdvisory(p) && p !in Changes(chain, i) ::
      HasCount(w, chain, k, rows, p)
  }

  /** Advisories whose content has not changed since commit `i` have a row. */
  ghost predicate Stocked(chain: Chain, i: nat, rows: Rows)
    requires i < |chain|
  {
    forall p | p in chain[i].tree && IsAdvisory(p) && p !in Changes(chain, i) :: PathUrl(p) in rows
  }

  /** The versions table is a rebuild of some prefix that includes commit `i`. */
  ghost predicate VersionsAhead(w: Environment, chain: Chain, i: nat, versions: seq<Version>) {
    exists k :: i < k <= |chain| && versions == VersionsOf(w.order, chain, k)
  }

  /** Versions and counts agree with history, unless the database is older than version recording. */
  ghost predicate Numbered(w: Environment, chain: Chain, i: nat, legacy: bool, s: Results)
    requires i < |chain|
  {
    (legacy && s.versions == []) || (Covered(w, chain, i, s.rows) && VersionsAhead(w, chain, i, s.versions))
  }

  ghost predicate Consistent(w: Environment, chain: Chain, i: nat, legacy: bool, s: Results)
    requires i < |chain|
  {
    && Carried(w, s.rows) && Traced(w, chain, i, s.rows) && Stocked(chain, i, s.rows)
    && Numbered(w, chain, i, legacy, s)
  }

  /** A published summary is stale only while the checkpoint is marked dirty. */
  predicate SummaryFresh(s: Results) {
    s.checkpoint.Some? && !s.checkpoint.value.summaryDirty && s.summary.Some? ==> s.summary.value == Aggregate(s.rows)
  }

  /** Holds before, after and between all transactions of all passes. A legacy database may have been filled
      before versions were recorded at all. */
  ghost predicate Inv(w: Environment, chain: Chain, legacy: bool, s: Results) {
    && Carried(w, s.rows)
    && SummaryFresh(s)
    && (s.checkpoint.Some? ==>
          && IndexOf(chain, s.checkpoint.value.commit).Some?
          && Consistent(w, chain, IndexOf(chain, s.checkpoint.value.commit).value, legacy, s))
  }

  /** The collision and diff hypotheses about the environment. */
  ghost predicate Lawful(w: Environment) {
    Separated(w) && Enumerates(w.order)
  }

  // ---------------------------------------------------------------- chain facts

  lemma UntouchedKeepsInputs(w: Environment, chain: Chain, i: nat, j: nat, p: string, fingerprint: string)
    requires i <= j < |chain| && IsAdvisory(p) && p !in Touched(chain, i)
    ensures p in chain[i].tree <==> p in chain[j].tree
    ensures p in chain[i].tree ==> InputsAt(chain[i].tree, p, fingerprint) == InputsAt(chain[j].tree, p, fingerprint)
  {
    forall q | q in InputPaths(p) ensures At(chain[i].tree, q) == At(chain[j].tree, q) {
      UntouchedInputs(chain, i, p, q);
      UnchangedOutside(chain, i, q, j);
    }
    assert p in InputPaths(p);
    if p in chain[i].tree { SameInputs(chain[i].tree, chain[j].tree, p, fingerprint); }
  }

  lemma ChangedIsTouched(chain: Chain, i: nat, p: string)
    requires IsAdvisory(p) && p in Changes(chain, i)
    ensures p in Touched(chain, i)
  {
  }

  lemma NothingAfterHead(chain: Chain)
    requires |chain| > 0
    ensures Changes(chain, |chain| - 1) == {} && Touched(chain, |chain| - 1) == {}
  {
  }

  lemma TouchedGrows(chain: Chain, i: nat, next: Commit)
    requires i < |chain|
    ensures Changes(chain, i) <= Changes(chain + [next], i)
    ensures Touched(chain, i) <= Touched(chain + [next], i)
  {
    ChangesGrow(chain, i, next);
  }

  /** A new commit only adds to what is pending, so a row stays traced. */
  lemma TracedRowGrows(w: Environment, chain: Chain, next: Commit, i: nat, u: string, row: Row)
    requires i < |chain| && TracedRow(w, chain, i, u, row)
    ensures TracedRow(w, chain + [next], i, u, row)
  {
    hide IsAdvisory, Touched, Changes, Validate, InputsAt;
    TouchedGrows(chain, i, next);
    assert (chain + [next])[i] == chain[i];
  }

  lemma StockedGrows(chain: Chain, next: Commit, i: nat, rows: Rows)
    requires i < |chain| && Stocked(chain, i, rows)
    ensures Stocked(chain + [next], i, rows)
  {
    hide IsAdvisory, Changes, Touched;
    TouchedGrows(chain, i, next);
    assert (chain + [next])[i] == chain[i];
  }

  lemma NumberedGrows(w: Environment, chain: Chain, next: Commit, i: nat, legacy: bool, s: Results)
    requires i < |chain| && Numbered(w, chain, i, legacy, s)
    ensures Numbered(w, chain + [next], i, legacy, s)
  {
    hide IsAdvisory, Changes, Touched, VersionsOf, Count;
    var longer := chain + [next];
    if !(legacy && s.versions == []) {
      assert longer[i] == chain[i];
      TouchedGrows(chain, i, next);
      VersionsOfPrefix(w.order, chain, next, i + 1);
      var k :| i < k <= |chain| && s.versions == VersionsOf(w.order, chain, k);
      VersionsOfPrefix(w.order, chain, next, k);
      forall p | p in longer[i].tree && IsAdvisory(p) && p !in Changes(longer, i)
        ensures HasCount(w, longer, i + 1, s.rows, p)
      {
        assert HasCount(w, chain, i + 1, s.rows, p);
      }
    }
  }

  /** A new commit keeps the invariant: nothing is forgotten, only more is pending. */
  lemma CommitKeepsInv(w: Environment, chain: Chain, legacy: bool, next: Commit, s: Results)
    requires ValidChain(chain + [next]) && Inv(w, chain, legacy, s)
    ensures Inv(w, chain + [next], legacy, s)
  {
    hide TracedRow, Numbered, Stocked, Carried;
    var longer := chain + [next];
    if s.checkpoint.Some? {
      var i := IndexOf(chain, s.checkpoint.value.commit).value;
      assert longer[i] == chain[i];
      IndexOfUnique(longer, i);
      forall u | u in s.rows && !Marked(s.rows[u]) ensures TracedRow(w, longer, i, u, s.rows[u]) {
        TracedRowGrows(w, chain, next, i, u, s.rows[u]);
      }
      StockedGrows(chain, next, i, s.rows);
      NumberedGrows(w, chain, next, i, legacy, s);
    }
  }

  // ---------------------------------------------------------------- rows of advisories that are gone

  /** The row's advisory is in commit `i` or has changed since, so the next pass decides about it. */
  ghost predicate AnchoredRow(chain: Chain, i: nat, row: Row)
    requires i < |chain|
  {
    row.report.columns.Some? ==> row.report.columns.value.path in chain[i].tree || row.report.columns.value.path in Changes(chain, i)
  }

  /** No unmarked row belongs to an advisory that was already gone at commit `i`. */
  ghost predicate Anchored(chain: Chain, i: nat, rows: Rows)
    requires i < |chain|
  {
    forall u | u in rows && !Marked(rows[u]) :: AnchoredRow(chain, i, rows[u])
  }

  lemma AnchoredGrows(chain: Chain, next: Commit, i: nat, rows: Rows)
    requires i < |chain| && Anchored(chain, i, rows)
    ensures Anchored(chain + [next], i, rows)
  {
    hide Changes, Touched;
    TouchedGrows(chain, i, next);
    assert (chain + [next])[i] == chain[i];
    forall u | u in rows && !Marked(rows[u]) ensures AnchoredRow(chain + [next], i, rows[u]) {
      assert AnchoredRow(chain, i, rows[u]);
    }
  }

  /** A head advisory's row is anchored wherever the basis is. */
  lemma HeadIsAnchored(chain: Chain, i: nat, p: string)
    requires i < |chain| && p in Head(chain)
    ensures p in chain[i].tree || p in Changes(chain, i)
  {
    if p !in Changes(chain, i) { UnchangedOutside(chain, i, p, |chain| - 1); }
  }
}
