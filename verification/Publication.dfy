/** Concurrent syncs of one provider: each prepares a worktree from the branch tip and later publishes
    its commit with a compare-and-swap of the branch. */
module Publication {
  import opened Wrappers
  import opened History
  import opened Staging

  /** A worktree: the branch tip it was prepared from, and that tip's tree. */
  datatype Prepared = Prepared(base: Option<string>, tree: Tree)

  /** The branch, the worktrees being filled, and what each commit was staged from. */
  datatype Repo = Repo(chain: Chain, prepared: map<nat, Prepared>, scratches: seq<Scratch>)

  datatype Step =
    | Prepare(writer: nat)
    | Publish(writer: nat, scratch: Scratch, index: Tree, id: string)
    | Abandon(writer: nat)

  function Tip(chain: Chain): Option<string> {
    if chain == [] then None else Some(chain[|chain| - 1].id)
  }

  function TipTree(chain: Chain): Tree {
    if chain == [] then map[] else chain[|chain| - 1].tree
  }

  /** Staging gives the overlay over the tree that was prepared; a new commit has a new identity. */
  ghost predicate Allowed(c: Codec, r: Repo, step: Step) {
    match step
    case Prepare(_) => true
    case Abandon(_) => true
    case Publish(writer, scratch, index, id) =>
      && writer in r.prepared
      && ValidScratch(scratch) && Stageable(c, scratch) && Overlays(c, r.prepared[writer].tree, scratch, index)
      && forall k | 0 <= k < |r.chain| :: r.chain[k].id != id
  }

  function Do(r: Repo, step: Step): Repo {
    match step
    case Prepare(writer) => r.(prepared := r.prepared[writer := Prepared(Tip(r.chain), TipTree(r.chain))])
    case Abandon(writer) => r.(prepared := r.prepared - {writer})
    case Publish(writer, scratch, index, id) =>
      if writer !in r.prepared then r
      else
        var p := r.prepared[writer];
        var rest := r.(prepared := r.prepared - {writer});
        if p.base.Some? && p.tree == index then rest
        else if Tip(r.chain) != p.base then rest
        else rest.(chain := r.chain + [Commit(id, index)], scratches := r.scratches + [scratch])
  }

  function Perform(r: Repo, steps: seq<Step>): Repo {
    if steps == [] then r else Do(Perform(r, steps[..|steps| - 1]), steps[|steps| - 1])
  }

  ghost predicate AllAllowed(c: Codec, r: Repo, steps: seq<Step>) {
    steps != [] ==>
      && AllAllowed(c, r, steps[..|steps| - 1])
      && Allowed(c, Perform(r, steps[..|steps| - 1]), steps[|steps| - 1])
  }

  /** A worktree's base tree is the tree of the commit it names. */
  ghost predicate BaseKnown(chain: Chain, p: Prepared) {
    match p.base
    case None => p.tree == map[]
    case Some(id) => exists k :: 0 <= k < |chain| && chain[k].id == id && chain[k].tree == p.tree
  }

  /** Commit `k` is the overlay of one sync's downloads over its immediate parent, and can be stored as a tree. */
  ghost predicate CommitSound(c: Codec, chain: Chain, scratches: seq<Scratch>, k: nat)
    requires k < |chain| && k < |scratches|
  {
    Stageable(c, scratches[k]) && Overlays(c, ParentTree(chain, k), scratches[k], chain[k].tree) && SideBySide(chain[k].tree)
  }

  ghost predicate CommitsSound(c: Codec, chain: Chain, scratches: seq<Scratch>) {
    |scratches| == |chain| && forall k: nat {:trigger CommitSound(c, chain, scratches, k)} | k < |chain| :: CommitSound(c, chain, scratches, k)
  }

  ghost predicate BasesKnown(r: Repo) {
    forall writer | writer in r.prepared :: BaseKnown(r.chain, r.prepared[writer])
  }

  /** Commit identities are unique, every commit is an overlay over its parent, and no worktree is made up. */
  ghost predicate Sound(c: Codec, r: Repo) {
    ValidChain(r.chain) && CommitsSound(c, r.chain, r.scratches) && BasesKnown(r)
  }

  lemma BaseStaysKnown(chain: Chain, next: Commit, p: Prepared)
    requires BaseKnown(chain, p)
    ensures BaseKnown(chain + [next], p)
  {
    if p.base.Some? {
      var k :| 0 <= k < |chain| && chain[k].id == p.base.value && chain[k].tree == p.tree;
      assert (chain + [next])[k] == chain[k];
    }
  }

  /** When the compare-and-swap succeeds, the commit was staged over the very tree it replaces. */
  lemma SwapMeansParent(chain: Chain, p: Prepared)
    requires ValidChain(chain) && BaseKnown(chain, p) && Tip(chain) == p.base
    ensures p.tree == TipTree(chain)
  {
    if p.base.Some? {
      var k :| 0 <= k < |chain| && chain[k].id == p.base.value && chain[k].tree == p.tree;
      assert k == |chain| - 1;
    }
  }

  lemma PreparedIsKnown(chain: Chain)
    ensures BaseKnown(chain, Prepared(Tip(chain), TipTree(chain)))
  {
    if chain != [] { assert chain[|chain| - 1].id == Tip(chain).value; }
  }

  lemma TipIsTree(c: Codec, chain: Chain, scratches: seq<Scratch>)
    requires CommitsSound(c, chain, scratches)
    ensures SideBySide(TipTree(chain))
  {
    hide Overlays, Stageable;
    if chain != [] { assert CommitSound(c, chain, scratches, |chain| - 1); }
  }

  lemma CommitAppended(c: Codec, chain: Chain, scratches: seq<Scratch>, next: Commit, scratch: Scratch)
    requires CommitsSound(c, chain, scratches)
    requires ValidScratch(scratch) && Stageable(c, scratch) && Overlays(c, TipTree(chain), scratch, next.tree)
    ensures CommitsSound(c, chain + [next], scratches + [scratch])
  {
    hide Overlays, Stageable, SideBySide, ValidScratch;
    TipIsTree(c, chain, scratches);
    OverlayIsTree(c, TipTree(chain), scratch, next.tree);
    var longer, more := chain + [next], scratches + [scratch];
    forall k: nat | k < |longer| ensures CommitSound(c, longer, more, k) {
      if k < |chain| {
        assert CommitSound(c, chain, scratches, k);
        assert ParentTree(longer, k) == ParentTree(chain, k);
      } else {
        assert ParentTree(longer, k) == TipTree(chain);
      }
    }
  }

  lemma ChainAppended(chain: Chain, next: Commit)
    requires ValidChain(chain) && forall k | 0 <= k < |chain| :: chain[k].id != next.id
    ensures ValidChain(chain + [next])
  {
  }

  lemma StepIsSound(c: Codec, r: Repo, step: Step)
    requires Sound(c, r) && Allowed(c, r, step)
    ensures Sound(c, Do(r, step)) && r.chain <= Do(r, step).chain
  {
    hide Overlays, Stageable, CommitsSound, ValidChain, BaseKnown, ValidScratch;
    var t := Do(r, step);
    PreparedIsKnown(r.chain);
    if step.Publish? && t.chain != r.chain {
      var next := Commit(step.id, step.index);
      SwapMeansParent(r.chain, r.prepared[step.writer]);
      CommitAppended(c, r.chain, r.scratches, next, step.scratch);
      ChainAppended(r.chain, next);
      forall other | other in t.prepared ensures BaseKnown(t.chain, t.prepared[other]) {
        BaseStaysKnown(r.chain, next, r.prepared[other]);
      }
    }
  }

  /** However syncs interleave, history only grows, and no published commit loses another one's files:
      each was staged over exactly the snapshot that precedes it. */
  lemma {:induction false} HistoryOnlyGrows(c: Codec, r: Repo, steps: seq<Step>)
    requires Sound(c, r) && AllAllowed(c, r, steps)
    ensures Sound(c, Perform(r, steps)) && r.chain <= Perform(r, steps).chain
  {
    hide Sound, Allowed, Do;
    if steps != [] {
      HistoryOnlyGrows(c, r, steps[..|steps| - 1]);
      StepIsSound(c, Perform(r, steps[..|steps| - 1]), steps[|steps| - 1]);
    }
  }

  /** In a repository that starts empty, every commit holds the decompressed downloads of one sync and what they leave of its
      immediate parent, and could be written as a tree. */
  lemma CommitsAreLaid(c: Codec, steps: seq<Step>, k: nat)
    requires AllAllowed(c, Repo([], map[], []), steps) && k < |Perform(Repo([], map[], []), steps).chain|
    ensures var r := Perform(Repo([], map[], []), steps);
            && |r.scratches| == |r.chain| && CanStage(c, r.scratches[k])
            && Laid(c, if k == 0 then map[] else r.chain[k - 1].tree, r.scratches[k], r.chain[k].tree)
            && (forall p, q | p in r.chain[k].tree && q in r.chain[k].tree :: !(|q| > |p| && q[..|p| + 1] == p + "/"))
            && (forall j | 0 <= j < |r.chain| && j != k :: r.chain[j].id != r.chain[k].id)
  {
    hide AllAllowed, Perform, Overlays, Stageable, Laid, CanStage;
    HistoryOnlyGrows(c, Repo([], map[], []), steps);
    var r := Perform(Repo([], map[], []), steps);
    assert CommitSound(c, r.chain, r.scratches, k);
    StageableIs(c, r.scratches[k]);
    OverlayIsLaid(c, ParentTree(r.chain, k), r.scratches[k], r.chain[k].tree);
  }

  /** Of two syncs that started from the same commit only the first to publish succeeds: its index becomes the new tip,
      and the other is refused. A sync that changed nothing publishes nothing. */
  lemma FirstPublishWins(r: Repo, first: nat, second: nat, s1: Scratch, s2: Scratch, i1: Tree, i2: Tree, id1: string, id2: string)
    requires first != second && forall k | 0 <= k < |r.chain| :: r.chain[k].id != id1
    ensures var prepared := Do(Do(r, Prepare(first)), Prepare(second));
            var published := Do(prepared, Publish(first, s1, i1, id1));
            && (r.chain == [] || i1 != r.chain[|r.chain| - 1].tree ==>
                  && published.chain == r.chain + [Commit(id1, i1)]
                  && Do(published, Publish(second, s2, i2, id2)).chain == published.chain)
            && (r.chain != [] && i1 == r.chain[|r.chain| - 1].tree ==> published.chain == r.chain)
            && first !in published.prepared && second in published.prepared
  {
  }
}
