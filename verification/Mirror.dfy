/** The whole mirror: remote changes, syncs, commits, passes and revalidations of one provider in one run. */
module Mirror {
  import opened Wrappers
  import opened Strings
  import opened Paths
  import opened History
  import opened World
  import opened Store
  import opened Pass
  import opened Invariant
  import opened Runs
  import opened Refinement
  import opened Marks
  import Staging

  /** The history with the stored results, and what the syncs know. */
  datatype Joint = Joint(st: State, y: Sync.State)

  datatype Move =
    | Quiet(step: Sync.Step)
    | Publish(commit: Option<Commit>)
    | Work(input: PassInput, choice: Option<Choice>, revalidation: bool)

  /** A step that touches neither Git nor the stored results; a sync is told whether the database is empty. */
  predicate IsQuiet(j: Joint, step: Sync.Step) {
    && !step.Commit? && !step.Process? && !step.DieProcessing? && !step.Revalidate? && !step.DieRevalidating?
    && (step.Start? ==> (step.emptyDatabase <==> j.st.results.rows == map[]))
  }

  /** What may happen. A sync commits the head with its downloads laid over it, or nothing when that changes nothing. */
  ghost predicate Allowed(w: Environment, j: Joint, move: Move) {
    match move
    case Quiet(step) => IsQuiet(j, step)
    case Publish(commit) =>
      && j.y.run.Some? && j.y.run.value.stage.Downloading? && Sync.AllDecided(j.y.run.value)
      && var files := j.y.git + Sync.FetchedFiles(j.y.run.value);
         (match commit
          case None => files == j.y.git
          case Some(c) => Possible(w, j.st, Append(c)) && GitOf(c.tree) == files)
    case Work(input, choice, revalidation) => Possible(w, j.st, RunPass(input, choice)) && PassOf(j.y, input, revalidation)
  }

  ghost function Make(w: Environment, j: Joint, move: Move): Joint
    requires Allowed(w, j, move)
  {
    match move
    case Quiet(step) => Joint(j.st, Sync.Do(j.y, step))
    case Publish(commit) => Joint(if commit.Some? then Next(w, j.st, Append(commit.value)) else j.st, Sync.Do(j.y, Sync.Commit))
    case Work(input, choice, revalidation) =>
      PassHasHistory(w, j.st, input, choice);
      var t := ProcessSnapshot(w, j.st.chain, j.st.results, input, choice);
      Joint(Next(w, j.st, RunPass(input, choice)),
            Sync.Perform(j.y, StepsOf(PassMarking(w, j.st, input, choice), t.alive, revalidation)))
  }

  /** Every index loads, and a pass that stops early has written its failures, or cleared no mark. */
  ghost predicate Unbroken(w: Environment, j: Joint, move: Move)
    requires Allowed(w, j, move)
  {
    match move
    case Quiet(step) => !step.SkipIndex?
    case Publish(_) => true
    case Work(input, choice, _) =>
      PassHasHistory(w, j.st, input, choice);
      PassMarking(w, j.st, input, choice).written || PassMarking(w, j.st, input, choice).cleared == {}
  }

  /** What the syncs know is what history and rows hold, and nothing is missed. */
  ghost predicate JointInv(w: Environment, j: Joint) {
    && RunInv(w, j.st) && j.y.failed == MarkedUrls(j.st.results.rows) && Mirrors(j.st.chain, j.y)
    && Sync.Valid(j.y) && Sync.AllSeen(j.y)
  }

  lemma QuietKeepsJoint(w: Environment, j: Joint, step: Sync.Step)
    requires JointInv(w, j) && IsQuiet(j, step) && !step.SkipIndex?
    ensures JointInv(w, Joint(j.st, Sync.Do(j.y, step)))
  {
    hide RunInv, Sync.Valid, Sync.Harmless, GitOf;
    Sync.UnbrokenLosesNothing(j.y, step);
    Sync.StepValidIff(j.y, step);
  }

  lemma PublishKeepsJoint(w: Environment, j: Joint, commit: Option<Commit>)
    requires Lawful(w) && JointInv(w, j) && Allowed(w, j, Publish(commit))
    ensures JointInv(w, Make(w, j, Publish(commit)))
  {
    hide RunInv, Sync.Valid, Sync.Harmless, GitOf, Lawful;
    Sync.UnbrokenLosesNothing(j.y, Sync.Commit);
    Sync.StepValidIff(j.y, Sync.Commit);
    if commit.Some? { NextKeepsRunInv(w, j.st, Append(commit.value)); }
  }

  lemma {:induction false} PassesKeepGit(y: Sync.State, steps: seq<Sync.Step>)
    requires forall step | step in steps :: !step.Commit?
    ensures Sync.Perform(y, steps).git == y.git
  {
    if steps != [] {
      var front, last := steps[..|steps| - 1], steps[|steps| - 1];
      assert last in steps && forall step | step in front :: step in steps;
      PassesKeepGit(y, front);
    }
  }

  lemma WorkKeepsJoint(w: Environment, j: Joint, move: Move)
    requires Lawful(w) && JointInv(w, j) && move.Work? && Allowed(w, j, move) && Unbroken(w, j, move)
    ensures JointInv(w, Make(w, j, move))
  {
    hide RunInv, Sync.Valid, GitOf, Lawful, MarkedUrls, ProcessSnapshot, PassMarking, Possible, PassOf, Sync.AllSeen, Sync.Perform;
    var input, choice, revalidation := move.input, move.choice, move.revalidation;
    PassHasHistory(w, j.st, input, choice);
    NextKeepsRunInv(w, j.st, RunPass(input, choice));
    PassIsStep(w, j.st, input, choice, j.y, revalidation);
    WrittenForgetsNothing(w, j.st, input, choice, j.y, revalidation);
    PassesKeepGit(j.y, StepsOf(PassMarking(w, j.st, input, choice),
                               ProcessSnapshot(w, j.st.chain, j.st.results, input, choice).alive, revalidation));
  }

  // ---------------------------------------------------------------- runs

  ghost predicate ValidMoves(w: Environment, j: Joint, moves: seq<Move>)
    decreases |moves|
  {
    moves != [] ==> Allowed(w, j, moves[0]) && ValidMoves(w, Make(w, j, moves[0]), moves[1..])
  }

  ghost predicate UnbrokenMoves(w: Environment, j: Joint, moves: seq<Move>)
    requires ValidMoves(w, j, moves)
    decreases |moves|
  {
    moves != [] ==> Unbroken(w, j, moves[0]) && UnbrokenMoves(w, Make(w, j, moves[0]), moves[1..])
  }

  ghost function MakeAll(w: Environment, j: Joint, moves: seq<Move>): Joint
    requires ValidMoves(w, j, moves)
    decreases |moves|
  {
    if moves == [] then j else MakeAll(w, Make(w, j, moves[0]), moves[1..])
  }

  lemma MoveFirst(w: Environment, j: Joint, move: Move, rest: seq<Move>)
    requires Allowed(w, j, move) && ValidMoves(w, Make(w, j, move), rest)
    ensures ValidMoves(w, j, [move] + rest) && MakeAll(w, j, [move] + rest) == MakeAll(w, Make(w, j, move), rest)
    ensures Unbroken(w, j, move) && UnbrokenMoves(w, Make(w, j, move), rest) ==> UnbrokenMoves(w, j, [move] + rest)
  {
    assert ([move] + rest)[1..] == rest;
  }

  lemma MoveKeepsJoint(w: Environment, j: Joint, move: Move)
    requires Lawful(w) && JointInv(w, j) && Allowed(w, j, move) && Unbroken(w, j, move)
    ensures JointInv(w, Make(w, j, move))
  {
    hide JointInv;
    match move
    case Quiet(step) => QuietKeepsJoint(w, j, step);
    case Publish(commit) => PublishKeepsJoint(w, j, commit);
    case Work(_, _, _) => WorkKeepsJoint(w, j, move);
  }

  lemma {:induction false} MovesKeepJoint(w: Environment, j: Joint, moves: seq<Move>)
    requires Lawful(w) && JointInv(w, j) && ValidMoves(w, j, moves) && UnbrokenMoves(w, j, moves)
    ensures JointInv(w, MakeAll(w, j, moves))
    decreases |moves|
  {
    hide JointInv, Make, Allowed, Unbroken;
    if moves != [] {
      MoveKeepsJoint(w, j, moves[0]);
      MovesKeepJoint(w, Make(w, j, moves[0]), moves[1..]);
    }
  }

  /** A new mirror of a provider that lists these documents. */
  function NewMirror(remote: map<string, Sync.Remote>): Joint {
    Joint(INITIAL, Sync.State(1, remote, map[], {}, None, None))
  }

  lemma NewMirrorInv(w: Environment, remote: map<string, Sync.Remote>)
    ensures JointInv(w, NewMirror(remote))
  {
    Sync.InitiallyValid(remote);
    InitialInv(w);
  }

  /** Over any run of a new mirror, with commits, complete and interrupted passes, revalidations and remote changes in any
      order, as long as every index loads and no pass stops between clearing a mark and writing its failures: once a
      sync has succeeded, every listed document is at the head as the provider has it, or recent enough for the next
      sync to fetch, or its row is marked, so that the next sync tries it again. */
  lemma NothingIsMissed(w: Environment, remote: map<string, Sync.Remote>, moves: seq<Move>, u: string)
    requires Lawful(w) && ValidMoves(w, NewMirror(remote), moves) && UnbrokenMoves(w, NewMirror(remote), moves)
    ensures var j := MakeAll(w, NewMirror(remote), moves);
            && RunInv(w, j.st)
            && (u in j.y.remote && j.y.token.Some? ==>
                  || (j.st.chain != [] && HasCopy(Head(j.st.chain), u, j.y.remote[u].content))
                  || j.y.remote[u].modified >= j.y.token.value
                  || (u in j.st.results.rows && Marked(j.st.results.rows[u])))
  {
    hide ValidMoves, UnbrokenMoves, MakeAll, Lawful, RunInv, HasCopy, GitOf, Sync.Valid;
    NewMirrorInv(w, remote);
    MovesKeepJoint(w, NewMirror(remote), moves);
    var j := MakeAll(w, NewMirror(remote), moves);
    Sync.ValidMissesNothing(j.y);
    if u in j.y.remote && j.st.chain != [] { DiffersIff(Head(j.st.chain), j.y, u); }
  }

  // ---------------------------------------------------------------- commits are downloads laid over the head

  /** The scratch directory holds exactly the downloaded advisories, besides sidecars, keys and metadata. */
  ghost predicate Holds(c: Staging.Codec, s: Staging.Scratch, files: map<string, string>)
    requires Staging.Stageable(c, s)
  {
    && (forall u | u in files :: exists f | f in s.files :: IsAdvisory(Staging.LogicalPath(f)) && u == PathUrl(Staging.LogicalPath(f)))
    && (forall f | f in s.files && IsAdvisory(Staging.LogicalPath(f)) ::
          PathUrl(Staging.LogicalPath(f)) in files && Staging.Accepted(c, s, f)
          && files[PathUrl(Staging.LogicalPath(f))] == Staging.StagedId(c, s, f))
  }

  /** An advisory is neither a key nor a sidecar, so only a file in its way can remove it from the index. */
  lemma AdvisoryIsKept(s: Staging.Scratch, p: string)
    requires IsAdvisory(p)
    ensures !Staging.OldKey(s, p) && !Staging.AbsentSidecar(s, p)
  {
    AdvisoryShape(p);
    if StartsWith(p, Staging.KEYS) { Staging.PrefixOfPrefix(p, Staging.KEYS, "metadata/"); }
    LastOfSuffix(p, ".json");
    forall f, suffix | suffix in Staging.SUFFIXES ensures p != Staging.LogicalPath(f) + suffix {}
  }

  /** One path of the staged index, as the sync sees it. */
  lemma StagedAt(c: Staging.Codec, base: Tree, s: Staging.Scratch, index: Tree, files: map<string, string>, p: string)
    requires Staging.Stageable(c, s) && Staging.Overlays(c, base, s, index) && Holds(c, s, files) && IsAdvisory(p)
    ensures PathUrl(p) in files ==> At(index, p) == Some(files[PathUrl(p)])
    ensures PathUrl(p) !in files ==> At(index, p) == if Staging.Displaced(s, p) then None else At(base, p)
  {
    hide Staging.Displaced, Staging.LogicalPath, Staging.Stageable, Staging.Accepted, Staging.StagedId, IsAdvisory, Staging.OldKey,
         Staging.AbsentSidecar;
    if PathUrl(p) in files {
      var f :| f in s.files && IsAdvisory(Staging.LogicalPath(f)) && PathUrl(p) == PathUrl(Staging.LogicalPath(f));
      PathUrlInjective(p, Staging.LogicalPath(f));
    } else {
      AdvisoryIsKept(s, p);
    }
  }

  lemma OnlyAdvisories(c: Staging.Codec, s: Staging.Scratch, files: map<string, string>, u: string) returns (p: string)
    requires Staging.Stageable(c, s) && Holds(c, s, files) && u in files
    ensures IsAdvisory(p) && u == PathUrl(p)
  {
    hide IsAdvisory, Staging.LogicalPath, Staging.Accepted, Staging.StagedId;
    var f :| f in s.files && IsAdvisory(Staging.LogicalPath(f)) && u == PathUrl(Staging.LogicalPath(f));
    p := Staging.LogicalPath(f);
  }

  /** A staged commit is what a sync takes it for, the head with the downloads laid over it, exactly when no download needs the
      path of another committed advisory as a directory, or the other way round. */
  lemma StagedMirrorsIff(c: Staging.Codec, base: Tree, s: Staging.Scratch, index: Tree, files: map<string, string>)
    requires Staging.Stageable(c, s) && Staging.Overlays(c, base, s, index) && Holds(c, s, files)
    ensures GitOf(index) == GitOf(base) + files
            <==> forall p | p in base && IsAdvisory(p) && PathUrl(p) !in files :: !Staging.Displaced(s, p)
  {
    hide Staging.Overlays, Staging.Stageable, Holds, IsAdvisory, GitOf, Staging.Displaced;
    forall p | IsAdvisory(p)
      ensures At(index, p) == if PathUrl(p) in files then Some(files[PathUrl(p)]) else if Staging.Displaced(s, p) then None else At(base, p)
      ensures Same(GitOf(index), GitOf(base) + files, PathUrl(p)) <==> !(p in base && PathUrl(p) !in files && Staging.Displaced(s, p))
    {
      StagedAt(c, base, s, index, files, p);
      GitOfAt(index, p);
      GitOfAt(base, p);
    }
    if forall p | p in base && IsAdvisory(p) && PathUrl(p) !in files :: !Staging.Displaced(s, p) {
      forall u ensures Same(GitOf(index), GitOf(base) + files, u) {
        if u in GitOf(index) {
          var p := UrlInGit(index, u);
        } else if u in GitOf(base) {
          var p := UrlInGit(base, u);
        } else if u in files {
          var p := OnlyAdvisories(c, s, files, u);
        }
      }
      SameEverywhere(GitOf(index), GitOf(base) + files);
    }
    if GitOf(index) == GitOf(base) + files {
      forall p | p in base && IsAdvisory(p) && PathUrl(p) !in files ensures !Staging.Displaced(s, p) {
        assert Same(GitOf(index), GitOf(base) + files, PathUrl(p));
      }
    }
  }

  predicate Same(a: map<string, string>, b: map<string, string>, u: string) {
    (u in a <==> u in b) && (u in a && u in b ==> a[u] == b[u])
  }

  lemma SameEverywhere(a: map<string, string>, b: map<string, string>)
    requires forall u :: Same(a, b, u)
    ensures a == b
  {
    forall u | u in a || u in b ensures u in a && u in b && a[u] == b[u] { assert Same(a, b, u); }
  }
}
