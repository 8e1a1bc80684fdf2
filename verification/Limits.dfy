/** Where the main results stop: exact conditions, and inputs beyond them. */
module Limits {
  import opened Wrappers
  import opened Paths
  import opened History
  import opened World
  import opened Selection
  import opened Store
  import opened Pass
  import opened Invariant
  import opened Phases
  import opened Completion
  import opened Runs
  import opened Refinement

  // ---------------------------------------------------------------- colliding tracking ids

  function SaveAll(w: Environment, rows: Rows, saved: seq<Inputs>): Rows {
    if saved == [] then rows
    else
      var x := saved[|saved| - 1];
      SaveRow(w, SaveAll(w, rows, saved[..|saved| - 1]), PathUrl(x.path), Validate(w, x))
  }

  predicate Collides(w: Environment, later: Inputs, earlier: Inputs) {
    Claims(w, Validate(w, later).trackingId, Validate(w, earlier).trackingId)
  }

  /** No document saved after the `k`-th one carries a tracking id that claims its row. */
  predicate Unclaimed(w: Environment, saved: seq<Inputs>, k: nat)
    requires k < |saved|
  {
    forall j | k < j < |saved| :: !Collides(w, saved[j], saved[k])
  }

  ghost predicate DistinctPaths(saved: seq<Inputs>) {
    forall i, j :: 0 <= i < j < |saved| ==> saved[i].path != saved[j].path
  }

  lemma SaveKeepsUnclaimed(w: Environment, rows: Rows, x: Inputs, y: Inputs)
    requires x.path != y.path
    requires PathUrl(y.path) in rows ==> rows[PathUrl(y.path)].report == Validate(w, y)
    ensures var after := SaveRow(w, rows, PathUrl(x.path), Validate(w, x));
            && (PathUrl(y.path) in after <==> PathUrl(y.path) in rows && !Collides(w, x, y))
            && (PathUrl(y.path) in after ==> after[PathUrl(y.path)].report == Validate(w, y))
  {
    hide Validate, Claims;
    if PathUrl(x.path) == PathUrl(y.path) { PathUrlInjective(x.path, y.path); }
  }

  lemma UnclaimedStep(w: Environment, saved: seq<Inputs>, k: nat)
    requires k < |saved| - 1
    ensures Unclaimed(w, saved, k) <==> Unclaimed(w, saved[..|saved| - 1], k) && !Collides(w, saved[|saved| - 1], saved[k])
  {
    hide Collides;
    var n := |saved| - 1;
    assert forall j | k < j < n :: saved[..n][j] == saved[j];
  }

  /** A saved document still has its row, and its own report, exactly when no later save claims it. */
  lemma {:induction false} SurvivesIff(w: Environment, rows: Rows, saved: seq<Inputs>, k: nat)
    requires DistinctPaths(saved) && k < |saved|
    ensures var after := SaveAll(w, rows, saved);
            && (PathUrl(saved[k].path) in after <==> Unclaimed(w, saved, k))
            && (PathUrl(saved[k].path) in after ==> after[PathUrl(saved[k].path)].report == Validate(w, saved[k]))
  {
    hide SaveRow, Validate, Collides;
    var n := |saved| - 1;
    if k < n {
      SurvivesIff(w, rows, saved[..n], k);
      UnclaimedStep(w, saved, k);
      SaveKeepsUnclaimed(w, SaveAll(w, rows, saved[..n]), saved[n], saved[k]);
    } else {
      SavedIsPresent(w, SaveAll(w, rows, saved[..n]), saved[n]);
    }
  }

  lemma SavedIsPresent(w: Environment, rows: Rows, x: Inputs)
    ensures var after := SaveRow(w, rows, PathUrl(x.path), Validate(w, x));
            PathUrl(x.path) in after && after[PathUrl(x.path)].report == Validate(w, x)
  {
  }

  /** The documents a validation run saves, in order. */
  function SaveOrder(tree: Tree, fingerprint: string, docs: set<string>, walk: seq<string>, visited: set<string>): seq<Inputs>
    requires forall p | p in docs :: p in tree
  {
    if walk == [] then []
    else if walk[0] in docs && walk[0] !in visited
    then [InputsAt(tree, walk[0], fingerprint)] + SaveOrder(tree, fingerprint, docs, walk[1..], visited + {walk[0]})
    else SaveOrder(tree, fingerprint, docs, walk[1..], visited)
  }

  lemma {:induction false} SaveOrderSpec(tree: Tree, fingerprint: string, docs: set<string>, walk: seq<string>, visited: set<string>)
    requires forall p | p in docs :: p in tree
    ensures var saved := SaveOrder(tree, fingerprint, docs, walk, visited);
            && DistinctPaths(saved)
            && (forall x | x in saved :: x.path in docs && x.path !in visited && x == InputsAt(tree, x.path, fingerprint))
            && (forall p | p in docs && p !in visited && p in walk :: InputsAt(tree, p, fingerprint) in saved)
  {
    if walk != [] {
      var more := if walk[0] in docs && walk[0] !in visited then visited + {walk[0]} else visited;
      SaveOrderSpec(tree, fingerprint, docs, walk[1..], more);
    }
  }

  lemma {:induction false} SaveAllFront(w: Environment, rows: Rows, x: Inputs, rest: seq<Inputs>)
    ensures SaveAll(w, rows, [x] + rest) == SaveAll(w, SaveRow(w, rows, PathUrl(x.path), Validate(w, x)), rest)
  {
    var saved := [x] + rest;
    if rest == [] {
      assert saved[..0] == [];
      assert SaveAll(w, rows, saved[..0]) == rows;
    } else {
      assert saved[..|saved| - 1] == [x] + rest[..|rest| - 1];
      SaveAllFront(w, rows, x, rest[..|rest| - 1]);
    }
  }

  /** An uninterrupted validation run is the fold of its saves. */
  lemma {:induction false} ValidateAllIsSaveAll(w: Environment, tree: Tree, fingerprint: string, docs: set<string>,
                                                walk: seq<string>, v: Visit)
    requires forall p | p in docs :: p in tree
    requires ValidateAll(w, tree, fingerprint, docs, walk, v).run.alive
    ensures ValidateAll(w, tree, fingerprint, docs, walk, v).run.results.rows
            == SaveAll(w, v.run.results.rows, SaveOrder(tree, fingerprint, docs, walk, v.visited))
    decreases |walk|
  {
    hide SaveRow, SaveAll;
    if walk == [] {
      SaveNothing(w, v.run.results.rows);
    } else {
      ValidateAllAliveFrom(w, tree, fingerprint, docs, walk, v);
      var p := walk[0];
      if p in docs && p !in v.visited {
        var x := InputsAt(tree, p, fingerprint);
        var next := Transact(v.run, SaveDocument(w, v.run.results, x));
        ValidateAllAliveFrom(w, tree, fingerprint, docs, walk[1..], Visit(next, if next.alive then v.visited + {p} else v.visited));
        ValidateAllIsSaveAll(w, tree, fingerprint, docs, walk[1..], Visit(next, v.visited + {p}));
        SaveAllFront(w, v.run.results.rows, x, SaveOrder(tree, fingerprint, docs, walk[1..], v.visited + {p}));
      } else {
        ValidateAllIsSaveAll(w, tree, fingerprint, docs, walk[1..], v);
      }
    }
  }

  lemma SaveNothing(w: Environment, rows: Rows)
    ensures SaveAll(w, rows, []) == rows
  {
  }

  lemma {:induction false} ValidateAllAliveFrom(w: Environment, tree: Tree, fingerprint: string, docs: set<string>,
                                                walk: seq<string>, v: Visit)
    requires forall p | p in docs :: p in tree
    requires ValidateAll(w, tree, fingerprint, docs, walk, v).run.alive
    ensures v.run.alive
    decreases |walk|
  {
    hide SaveDocument;
    if walk != [] && v.run.alive && walk[0] in docs && walk[0] !in v.visited {
      var next := Transact(v.run, SaveDocument(w, v.run.results, InputsAt(tree, walk[0], fingerprint)));
    }
  }

  /** Validating a whole snapshot leaves one row per document exactly when no saved document claims an earlier one:
      the collision hypothesis is not only sufficient but, for this order of saves, necessary. */
  lemma OneRowEachIff(w: Environment, tree: Tree, fingerprint: string, docs: set<string>, walk: seq<string>, r: Run)
    requires (forall p | p in docs :: p in tree) && (forall p | p in docs :: p in walk)
    requires ValidateAll(w, tree, fingerprint, docs, walk, Visit(r, {})).run.alive
    ensures var rows := ValidateAll(w, tree, fingerprint, docs, walk, Visit(r, {})).run.results.rows;
            var saved := SaveOrder(tree, fingerprint, docs, walk, {});
            (forall p | p in docs :: PathUrl(p) in rows) <==> (forall k: nat | k < |saved| :: Unclaimed(w, saved, k))
  {
    hide SaveAll, SaveOrder, ValidateAll, Unclaimed;
    ValidateAllIsSaveAll(w, tree, fingerprint, docs, walk, Visit(r, {}));
    SaveOrderSpec(tree, fingerprint, docs, walk, {});
    var rows := ValidateAll(w, tree, fingerprint, docs, walk, Visit(r, {})).run.results.rows;
    var saved := SaveOrder(tree, fingerprint, docs, walk, {});
    forall k: nat | k < |saved| ensures Unclaimed(w, saved, k) <==> PathUrl(saved[k].path) in rows {
      SurvivesIff(w, r.results.rows, saved, k);
    }
    forall p | p in docs && (forall k: nat | k < |saved| :: Unclaimed(w, saved, k)) ensures PathUrl(p) in rows {
      var k :| 0 <= k < |saved| && saved[k] == InputsAt(tree, p, fingerprint);
      assert Unclaimed(w, saved, k);
    }
    forall k: nat | k < |saved| && (forall p | p in docs :: PathUrl(p) in rows) ensures Unclaimed(w, saved, k) {
      assert saved[k] in saved;
    }
  }

  // ---------------------------------------------------------------- a directory in an advisory's place

  /** While an advisory path is a directory at the head, no incremental pass that selects it can complete. */
  lemma DirectoryBlocksPass(w: Environment, st: State, input: PassInput, c: Choice, p: string)
    requires Possible(w, st, RunPass(input, Some(c)))
    requires !c.full && p in c.advisories && GetPath(Head(st.chain), p).Directory?
    ensures !ProcessSnapshot(w, st.chain, st.results, input, Some(c)).alive
  {
    hide Process, CarriesAll;
  }

  /** The advisory is selected by every incremental pass as long as the checkpoint stays. */
  lemma TouchedIsSelected(chain: Chain, s: Results, i: nat, fingerprint: string, c: Choice, p: string)
    requires |chain| > 0 && BaseOf(chain, s) == Some(i) && i < |chain| && Chooses(chain, s.checkpoint, fingerprint, false, c) && !c.full
    requires p in Touched(chain, i) && GetPath(Head(chain), p).Directory?
    ensures p in c.advisories
  {
    hide AdvisoryPath, Changes;
    var q :| q in Changes(chain, i) && AdvisoryPath(q) == Some(p);
    assert c.advisories == SelectedAdvisories(chain, Changes(chain, i));
  }

  /** A pass that may not start over leaves everything stored as it was, while the path is a directory. */
  lemma BlockedPass(w: Environment, st: State, input: PassInput, choice: Option<Choice>, i: nat, p: string)
    requires Possible(w, st, RunPass(input, choice)) && !input.force && (choice.Some? ==> !choice.value.full)
    requires BaseOf(st.chain, st.results) == Some(i) && i < |st.chain| && p in Touched(st.chain, i)
    requires GetPath(Head(st.chain), p).Directory?
    ensures !ProcessSnapshot(w, st.chain, st.results, input, choice).alive
    ensures ProcessSnapshot(w, st.chain, st.results, input, choice).results == st.results
  {
    hide Process, CarriesAll, Touched, Chooses, Recovered;
    if choice.Some? {
      TouchedIsSelected(st.chain, st.results, i, choice.value.checkpoint.fingerprint, choice.value, p);
      DirectoryBlocksPass(w, st, input, choice.value, p);
    }
  }

  /** Every pass of the run is incremental and meets a directory at the path. */
  ghost predicate Blocked(w: Environment, st: State, events: seq<Event>, p: string)
    requires ValidRun(w, st, events)
    decreases |events|
  {
    events != [] ==>
      && (events[0].RunPass? ==>
            && !events[0].input.force && (events[0].choice.Some? ==> !events[0].choice.value.full)
            && GetPath(Head(st.chain), p).Directory?)
      && Blocked(w, Next(w, st, events[0]), events[1..], p)
  }

  /** Once an advisory changed since the checkpoint has become a directory, nothing that is stored moves any more, neither rows
      nor versions nor summary nor checkpoint, whatever else is committed, until a full pass or until the directory goes. */
  lemma {:induction false} DirectoryBlocksRun(w: Environment, st: State, events: seq<Event>, i: nat, p: string)
    requires ValidChain(st.chain) && BaseOf(st.chain, st.results) == Some(i) && i < |st.chain| && p in Touched(st.chain, i)
    requires ValidRun(w, st, events) && Blocked(w, st, events, p)
    ensures Exec(w, st, events).results == st.results
    ensures BaseOf(Exec(w, st, events).chain, st.results) == Some(i)
    decreases |events|
  {
    hide ProcessSnapshot, Touched, CarriesAll, Chooses;
    if events != [] {
      var next := Next(w, st, events[0]);
      match events[0] {
        case Append(commit) => {
          TouchedGrows(st.chain, i, commit);
          assert (st.chain + [commit])[i] == st.chain[i];
          IndexOfUnique(st.chain + [commit], i);
        }
        case RunPass(input, choice) => BlockedPass(w, st, input, choice, i, p);
      }
      DirectoryBlocksRun(w, next, events[1..], i, p);
    }
  }

  /** A completed pass that keeps its basis leaves the row of an advisory that changed and is gone exactly when
      a directory answers for its path; then the row is untouched. */
  lemma GoneRowSurvivesIff(w: Environment, st: State, input: PassInput, c: Choice, p: string)
    requires Lawful(w) && RunInv(w, st) && Possible(w, st, RunPass(input, Some(c))) && !c.baseline
    requires ProcessSnapshot(w, st.chain, st.results, input, Some(c)).alive
    requires BaseOf(st.chain, st.results).Some? && IsAdvisory(p) && p in Changes(st.chain, BaseOf(st.chain, st.results).value)
    requires p !in Head(st.chain) && PathUrl(p) in st.results.rows && PathUrl(p) !in FailedSet(input.failures)
    ensures var rows := ProcessSnapshot(w, st.chain, st.results, input, Some(c)).results.rows;
            && (PathUrl(p) in rows <==> IsDirectory(Head(st.chain), p))
            && (PathUrl(p) in rows ==> rows[PathUrl(p)].report == st.results.rows[PathUrl(p)].report)
  {
    hide ProcessSnapshot, Extracted, CarriesAll, Inv, Changes, Completed, IsAdvisory, Chooses;
    var chain, s := st.chain, st.results;
    ChosenBasis(w, chain, false, s, c.checkpoint.fingerprint, input.force, c);
    PassSpec(w, false, st, input, Some(c));
    var docs := Extracted(w, chain, s, input, c).value;
    DeletedChanged(chain, Changes(chain, BaseOf(chain, s).value), p);
    forall q | q in docs ensures PathUrl(q) != PathUrl(p) {
      if PathUrl(q) == PathUrl(p) { PathUrlInjective(p, q); }
    }
  }
}
