/** Provider history: an append-only chain of snapshots, each a map from Git path to blob identity. */
module History {
  import opened Wrappers
  import opened Strings
  import opened Paths

  /** Object identities; equal identities mean equal content. */
  type Oid = string
  type Tree = map<string, Oid>

  datatype Commit = Commit(id: string, tree: Tree)

  type Chain = seq<Commit>

  /** What a path lookup in a tree finds. A directory answers for its own path too. */
  datatype Entry = File(oid: Oid) | Directory | Missing

  function At(tree: Tree, path: string): Option<Oid> {
    if path in tree then Some(tree[path]) else None
  }

  predicate IsDirectory(tree: Tree, path: string) {
    exists q | q in tree :: StartsWith(q, path + "/")
  }

  function GetPath(tree: Tree, path: string): Entry {
    if path in tree then File(tree[path])
    else if IsDirectory(tree, path) then Directory
    else Missing
  }

  function ChangedPaths(before: Tree, after: Tree): set<string> {
    set p | p in before.Keys + after.Keys && At(before, p) != At(after, p)
  }

  ghost predicate ValidChain(chain: Chain) {
    forall i, j :: 0 <= i < j < |chain| ==> chain[i].id != chain[j].id
  }

  function ParentTree(chain: Chain, j: nat): Tree
    requires j < |chain|
  {
    if j == 0 then map[] else chain[j - 1].tree
  }

  /** Paths one commit changed relative to its parent. */
  function StepChanges(chain: Chain, j: nat): set<string>
    requires j < |chain|
  {
    ChangedPaths(ParentTree(chain, j), chain[j].tree)
  }

  /** Paths changed by any commit after `base`, whether or not a later commit reverted them. */
  function Changes(chain: Chain, base: nat): set<string> {
    set j: nat, p | base < j < |chain| && p in StepChanges(chain, j) :: p
  }

  /** Advisories one of whose four inputs was changed by any commit after `base`. */
  function Touched(chain: Chain, base: nat): set<string> {
    set p | p in Changes(chain, base) && AdvisoryPath(p).Some? :: AdvisoryPath(p).value
  }

  function Head(chain: Chain): Tree
    requires |chain| > 0
  {
    chain[|chain| - 1].tree
  }

  function IndexOf(chain: Chain, id: string): (i: Option<nat>)
    ensures i.Some? ==> i.value < |chain| && chain[i.value].id == id
    ensures i.None? ==> forall k :: 0 <= k < |chain| ==> chain[k].id != id
  {
    if chain == [] then None
    else if chain[|chain| - 1].id == id then Some(|chain| - 1)
    else IndexOf(chain[..|chain| - 1], id)
  }

  lemma IndexOfUnique(chain: Chain, i: nat)
    requires ValidChain(chain) && i < |chain|
    ensures IndexOf(chain, chain[i].id) == Some(i)
  {
    var found := IndexOf(chain, chain[i].id);
    assert found.Some?;
    assert !(found.value < i) && !(i < found.value);
  }

  /** A path no commit after `base` touched keeps its blob in every snapshot from there on. */
  lemma {:induction false} UnchangedOutside(chain: Chain, base: nat, path: string, j: nat)
    requires base <= j < |chain| && path !in Changes(chain, base)
    ensures At(chain[j].tree, path) == At(chain[base].tree, path)
  {
    if base < j {
      assert path !in StepChanges(chain, j);
      UnchangedOutside(chain, base, path, j - 1);
    }
  }

  /** A path whose blob differs between `base` and the head was changed by some commit between. */
  lemma DifferenceIsSelected(chain: Chain, base: nat, path: string)
    requires base < |chain| && At(chain[base].tree, path) != At(Head(chain), path)
    ensures path in Changes(chain, base)
  {
    if path !in Changes(chain, base) { UnchangedOutside(chain, base, path, |chain| - 1); }
  }

  /** Appending a commit only adds that commit's own changes. */
  lemma ChangesGrow(chain: Chain, base: nat, next: Commit)
    requires base < |chain|
    ensures Changes(chain + [next], base) == Changes(chain, base) + ChangedPaths(Head(chain), next.tree)
  {
    var longer := chain + [next];
    assert forall j: nat :: base < j < |chain| ==> StepChanges(longer, j) == StepChanges(chain, j);
    assert StepChanges(longer, |chain|) == ChangedPaths(Head(chain), next.tree);
    forall p ensures p in Changes(longer, base)
                     <==> p in Changes(chain, base) + ChangedPaths(Head(chain), next.tree)
    {
      if p in Changes(chain, base) {
        var j: nat :| base < j < |chain| && p in StepChanges(chain, j);
        assert p in StepChanges(longer, j);
      }
      if p in ChangedPaths(Head(chain), next.tree) { assert p in StepChanges(longer, |chain|); }
    }
  }

  lemma UntouchedInputs(chain: Chain, base: nat, a: string, p: string)
    requires IsAdvisory(a) && a !in Touched(chain, base) && p in InputPaths(a)
    ensures p !in Changes(chain, base)
  {
    AdvisoryPathExact(p, a);
  }

  // ---------------------------------------------------------------- per-commit deltas

  datatype Status = Added | Modified | Deleted

  /** One changed file; an addition or deletion names its path on both sides. */
  datatype TreeDelta = TreeDelta(status: Status, oldPath: Option<string>, newPath: Option<string>, newId: Option<Oid>)

  function DeltaOf(before: Tree, after: Tree, path: string): TreeDelta {
    var status := if path !in before then Added else if path !in after then Deleted else Modified;
    TreeDelta(status, Some(path), Some(path), At(after, path))
  }

  /** The comparison visits every changed path exactly once, in an order of its own. */
  ghost predicate EnumeratesChanges(order: (Tree, Tree) -> seq<string>, before: Tree, after: Tree) {
    var paths := order(before, after);
    && (forall i, j :: 0 <= i < j < |paths| ==> paths[i] != paths[j])
    && (forall p :: p in paths <==> p in ChangedPaths(before, after))
  }

  ghost predicate Enumerates(order: (Tree, Tree) -> seq<string>) {
    forall before, after {:trigger EnumeratesChanges(order, before, after)} :: EnumeratesChanges(order, before, after)
  }

  function Deltas(order: (Tree, Tree) -> seq<string>, before: Tree, after: Tree): seq<TreeDelta> {
    seq(|order(before, after)|, k requires 0 <= k < |order(before, after)| => DeltaOf(before, after, order(before, after)[k]))
  }
}
