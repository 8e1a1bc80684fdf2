/** Selects the inputs of a processing pass from the commits since its checkpoint. */
module Selection {
  import opened Wrappers
  import opened Strings
  import opened Paths
  import opened PathSets
  import opened History

  /** Inputs of the last completed pass, and whether results changed after its summary. */
  datatype Checkpoint = Checkpoint(commit: string, fingerprint: string, summaryDirty: bool)

  /** What one pass has to do, and the checkpoint it will write. */
  datatype ProcessingSelection = ProcessingSelection(
    checkpoint: Checkpoint,
    full: bool,
    baseline: bool,
    advisories: PathSet,
    history: PathSet,
    deleted: PathSet)

  /** The commit changes are collected from: the checkpoint, or the root when it is unknown. */
  function Base(chain: Chain, previous: Option<string>): nat {
    match previous
    case None => 0
    case Some(id) => match IndexOf(chain, id) case Some(i) => i case None => 0
  }

  predicate Known(chain: Chain, previous: Option<string>) {
    previous.Some? && IndexOf(chain, previous.value).Some?
  }

  /** Selected advisories: some input changed, and the path still resolves at the head. */
  function SelectedAdvisories(chain: Chain, changes: set<string>): set<string>
    requires |chain| > 0
  {
    set p | p in changes && AdvisoryPath(p).Some? && GetPath(Head(chain), AdvisoryPath(p).value) != Missing
      :: AdvisoryPath(p).value
  }

  /** Advisories whose own content changed. */
  function SelectedHistory(changes: set<string>): set<string> {
    set p | p in changes && IsAdvisory(p)
  }

  /** URLs of changed advisories that no longer resolve at the head. */
  function SelectedDeleted(chain: Chain, changes: set<string>): set<string>
    requires |chain| > 0
  {
    set p | p in changes && IsAdvisory(p) && GetPath(Head(chain), p) == Missing :: PathUrl(p)
  }

  /** Both sides of the deltas, as the scan reports them. */
  function DeltaPaths(delta: TreeDelta): seq<string> {
    (if delta.oldPath.Some? then [delta.oldPath.value] else [])
    + (if delta.newPath.Some? then [delta.newPath.value] else [])
  }

  /** Every path some message carries. */
  ghost function Delivered(messages: seq<seq<string>>): set<string> {
    set m, p | m in messages && p in m :: p
  }

  lemma DeliveredAppend(messages: seq<seq<string>>, m: seq<string>)
    ensures Delivered(messages + [m]) == Delivered(messages) + AsSet(m)
  {
    assert forall x :: x in messages + [m] <==> x in messages || x == m;
  }

  /** Every path some delta names. */
  ghost function Named(deltas: seq<TreeDelta>): set<string> {
    set d, p | d in deltas && p in DeltaPaths(d) :: p
  }

  /** Queues one path, sending the message when it is full. */
  method Push(sent: seq<seq<string>>, pending: seq<string>, path: string)
    returns (messages: seq<seq<string>>, paths: seq<string>)
    requires |pending| < PATH_BATCH && forall m | m in sent :: |m| <= PATH_BATCH
    ensures |paths| < PATH_BATCH && forall m | m in messages :: |m| <= PATH_BATCH
    ensures Delivered(messages) + AsSet(paths) == Delivered(sent) + AsSet(pending) + {path}
  {
    messages, paths := sent, pending + [path];
    if |paths| == PATH_BATCH {
      DeliveredAppend(messages, paths);
      messages, paths := messages + [paths], [];
    }
  }

  lemma NamedAppend(deltas: seq<TreeDelta>, d: TreeDelta)
    ensures Named(deltas + [d]) == Named(deltas) + AsSet(DeltaPaths(d))
  {
    assert forall x :: x in deltas + [d] <==> x in deltas || x == d;
  }

  /** Streams one comparison's paths through bounded messages. */
  lemma NothingSent()
    ensures AsSet([]) == {} && Named([]) == {}
  {
  }

  lemma TakeOneMore(paths: seq<string>, k: nat)
    requires k < |paths|
    ensures AsSet(paths[..k + 1]) == AsSet(paths[..k]) + {paths[k]}
  {
    assert paths[..k + 1] == paths[..k] + [paths[k]];
  }

  /** Some delta has the path on its old or on its new side. */
  predicate NamedBySome(deltas: seq<TreeDelta>, p: string) {
    exists d | d in deltas :: d.oldPath == Some(p) || d.newPath == Some(p)
  }

  lemma NamedAre(deltas: seq<TreeDelta>)
    ensures forall p :: p in Named(deltas) <==> NamedBySome(deltas, p)
  {
    forall d: TreeDelta, p ensures p in DeltaPaths(d) <==> d.oldPath == Some(p) || d.newPath == Some(p) {}
  }

  method SendDeltas(deltas: seq<TreeDelta>, sent: seq<seq<string>>) returns (messages: seq<seq<string>>)
    requires forall m | m in sent :: |m| <= PATH_BATCH
    ensures forall m | m in messages :: |m| <= 256
    ensures Delivered(messages) == Delivered(sent) + Named(deltas)
    ensures forall p :: p in Delivered(messages) <==> p in Delivered(sent) || NamedBySome(deltas, p)
  {
    hide AsSet, Delivered, Named, DeltaPaths, NamedBySome;
    NothingSent();
    messages := sent;
    var paths: seq<string> := [];
    for i := 0 to |deltas|
      invariant |paths| < PATH_BATCH
      invariant forall m | m in messages :: |m| <= PATH_BATCH
      invariant Delivered(messages) + AsSet(paths) == Delivered(sent) + Named(deltas[..i])
    {
      var both := DeltaPaths(deltas[i]);
      ghost var base := Delivered(messages) + AsSet(paths);
      for k := 0 to |both|
        invariant |paths| < PATH_BATCH
        invariant forall m | m in messages :: |m| <= PATH_BATCH
        invariant Delivered(messages) + AsSet(paths) == base + AsSet(both[..k])
      {
        TakeOneMore(both, k);
        messages, paths := Push(messages, paths, both[k]);
      }
      assert both[..|both|] == both;
      assert deltas[..i + 1] == deltas[..i] + [deltas[i]];
      NamedAppend(deltas[..i], deltas[i]);
    }
    assert deltas[..|deltas|] == deltas;
    DeliveredAppend(messages, paths);
    messages := messages + [paths];
    NamedAre(deltas);
  }

  lemma DeltasNameChanges(order: (Tree, Tree) -> seq<string>, before: Tree, after: Tree)
    requires Enumerates(order)
    ensures Named(Deltas(order, before, after)) == ChangedPaths(before, after)
  {
    var deltas := Deltas(order, before, after);
    assert EnumeratesChanges(order, before, after);
    forall p ensures p in Named(deltas) <==> p in ChangedPaths(before, after) {
      if p in ChangedPaths(before, after) {
        var k :| 0 <= k < |order(before, after)| && order(before, after)[k] == p;
        assert deltas[k] in deltas && p in DeltaPaths(deltas[k]);
      }
      if p in Named(deltas) {
        var d :| d in deltas && p in DeltaPaths(d);
        var k :| 0 <= k < |deltas| && deltas[k] == d;
        assert p == order(before, after)[k];
      }
    }
  }

  lemma ChangesFromEarlier(chain: Chain, j: nat)
    requires 0 < j < |chain|
    ensures Changes(chain, j - 1) == Changes(chain, j) + StepChanges(chain, j)
  {
    forall p ensures p in Changes(chain, j - 1) <==> p in Changes(chain, j) + StepChanges(chain, j) {
      if p in Changes(chain, j) {
        var k: nat :| j < k < |chain| && p in StepChanges(chain, k);
        assert p in Changes(chain, j - 1);
      }
    }
  }

  /** Walks from the head to the checkpoint; reports whether the history is incompatible with it. */
  method ScanChanges(chain: Chain, previous: string, order: (Tree, Tree) -> seq<string>)
    returns (messages: seq<seq<string>>, incompatible: bool)
    requires ValidChain(chain) && |chain| > 0 && Enumerates(order)
    ensures incompatible <==> IndexOf(chain, previous).None?
    ensures forall m | m in messages :: |m| <= PATH_BATCH
    ensures Delivered(messages) == Changes(chain, Base(chain, Some(previous)))
  {
    messages := [];
    var current := |chain| - 1;
    while chain[current].id != previous
      invariant 0 <= current < |chain|
      invariant forall k :: current < k < |chain| ==> chain[k].id != previous
      invariant forall m | m in messages :: |m| <= PATH_BATCH
      invariant Delivered(messages) == Changes(chain, current)
      decreases current
    {
      if current == 0 {
        return messages, true;
      }
      var deltas := Deltas(order, chain[current - 1].tree, chain[current].tree);
      DeltasNameChanges(order, chain[current - 1].tree, chain[current].tree);
      messages := SendDeltas(deltas, messages);
      ChangesFromEarlier(chain, current);
      current := current - 1;
    }
    IndexOfUnique(chain, current);
    incompatible := false;
  }

  /** The exact selection for a chain, a checkpoint and the current fingerprint. */
  ghost predicate Selects(chain: Chain, previous: Option<Checkpoint>, fingerprint: string, force: bool, s: ProcessingSelection)
    requires |chain| > 0
    reads s.advisories, s.history, s.deleted
  {
    var id := if previous.Some? then Some(previous.value.commit) else None;
    var changes := CollectedChanges(chain, previous);
    && s.checkpoint == Checkpoint(chain[|chain| - 1].id, fingerprint, false)
    && (s.baseline <==> !Known(chain, id))
    && (s.full <==> s.baseline || force || previous.value.fingerprint != fingerprint)
    && s.advisories.Valid() && s.history.Valid() && s.deleted.Valid()
    && s.advisories.Contents() == (if s.full then {} else SelectedAdvisories(chain, changes))
    && s.history.Contents() == SelectedHistory(changes)
    && s.deleted.Contents() == SelectedDeleted(chain, changes)
  }

  function CollectedChanges(chain: Chain, previous: Option<Checkpoint>): set<string> {
    match previous
    case None => {}
    case Some(c) => Changes(chain, Base(chain, Some(c.commit)))
  }

  /** What one page of changed paths contributes to the three sets. */
  ghost predicate Resolved(chain: Chain, full: bool, paths: set<string>, advisories: set<string>, history: set<string>, deleted: set<string>)
    requires |chain| > 0
  {
    && advisories == (if full then {} else SelectedAdvisories(chain, paths))
    && history == SelectedHistory(paths)
    && deleted == SelectedDeleted(chain, paths)
  }

  lemma ResolvedPage(chain: Chain, full: bool, p1: set<string>, a1: set<string>, h1: set<string>, d1: set<string>,
                     p2: set<string>, a2: set<string>, h2: set<string>, d2: set<string>)
    requires |chain| > 0 && Resolved(chain, full, p1, a1, h1, d1) && Resolved(chain, full, p2, a2, h2, d2)
    ensures Resolved(chain, full, p1 + p2, a1 + a2, h1 + h2, d1 + d2)
  {
  }

  lemma ResolvedNothing(chain: Chain, full: bool)
    requires |chain| > 0
    ensures Resolved(chain, full, {}, {}, {}, {})
  {
  }

  /** Where one changed path goes. */
  function ResolvePath(chain: Chain, full: bool, path: string): (r: (seq<string>, seq<string>, seq<string>))
    requires |chain| > 0
    ensures Resolved(chain, full, {path}, AsSet(r.0), AsSet(r.1), AsSet(r.2))
  {
    match AdvisoryPath(path)
    case None => ([], [], [])
    case Some(advisory) =>
      var history := if path == advisory then [advisory] else [];
      match GetPath(Head(chain), advisory)
      case Missing => ([], history, if path == advisory then [PathUrl(advisory)] else [])
      case _ => (if full then [] else [advisory], history, [])
  }

  /** Sorts one page of changed paths into selected advisories, changed content and removed URLs. */
  method ResolvePage(chain: Chain, full: bool, paths: seq<string>)
    returns (advisories: seq<string>, history: seq<string>, deleted: seq<string>)
    requires |chain| > 0
    ensures Resolved(chain, full, AsSet(paths), AsSet(advisories), AsSet(history), AsSet(deleted))
  {
    advisories, history, deleted := [], [], [];
    for i := 0 to |paths|
      invariant Resolved(chain, full, AsSet(paths[..i]), AsSet(advisories), AsSet(history), AsSet(deleted))
    {
      var (a, h, d) := ResolvePath(chain, full, paths[i]);
      ResolvedPage(chain, full, AsSet(paths[..i]), AsSet(advisories), AsSet(history), AsSet(deleted),
                   {paths[i]}, AsSet(a), AsSet(h), AsSet(d));
      assert AsSet(paths[..i + 1]) == AsSet(paths[..i]) + {paths[i]};
      advisories, history, deleted := advisories + a, history + h, deleted + d;
    }
    assert paths[..|paths|] == paths;
  }

  /** Receives the scan into a deduplicated set. */
  method CollectChanges(chain: Chain, previous: Option<Checkpoint>, order: (Tree, Tree) -> seq<string>)
    returns (changes: PathSet, baseline: bool)
    requires ValidChain(chain) && |chain| > 0 && Enumerates(order)
    ensures fresh(changes) && changes.Valid() && changes.Contents() == CollectedChanges(chain, previous)
    ensures baseline <==> previous.None? || IndexOf(chain, previous.value.commit).None?
  {
    changes := new PathSet();
    baseline := previous.None?;
    if previous.Some? {
      var messages;
      messages, baseline := ScanChanges(chain, previous.value.commit, order);
      for i := 0 to |messages|
        invariant changes.Valid() && changes.Contents() == Delivered(messages[..i])
      {
        DeliveredAppend(messages[..i], messages[i]);
        assert messages[..i + 1] == messages[..i] + [messages[i]];
        changes.InsertBatch(messages[i]);
      }
      assert messages[..|messages|] == messages;
    }
  }

  /** Resolves one page of changes into the three sets. */
  method AddPage(chain: Chain, full: bool, paths: seq<string>,
                 advisories: PathSet, history: PathSet, deleted: PathSet, ghost done: set<string>)
    returns (ghost ga: set<string>, ghost gh: set<string>, ghost gd: set<string>)
    requires |chain| > 0
    requires advisories != history && advisories != deleted && history != deleted
    requires advisories.Valid() && history.Valid() && deleted.Valid()
    requires Resolved(chain, full, done, advisories.Contents(), history.Contents(), deleted.Contents())
    modifies advisories, history, deleted
    ensures advisories.Valid() && history.Valid() && deleted.Valid()
    ensures advisories.Contents() == ga && history.Contents() == gh && deleted.Contents() == gd
    ensures Resolved(chain, full, done + AsSet(paths), ga, gh, gd)
  {
    ga, gh, gd := advisories.Contents(), history.Contents(), deleted.Contents();
    var a, h, d := ResolvePage(chain, full, paths);
    ResolvedPage(chain, full, done, ga, gh, gd, AsSet(paths), AsSet(a), AsSet(h), AsSet(d));
    advisories.InsertBatch(a);
    history.InsertBatch(h);
    deleted.InsertBatch(d);
    ga, gh, gd := ga + AsSet(a), gh + AsSet(h), gd + AsSet(d);
  }

  /** Pages through the changes and resolves each page against the head. */
  method ResolveChanges(chain: Chain, full: bool, changes: PathSet)
    returns (advisories: PathSet, history: PathSet, deleted: PathSet)
    requires |chain| > 0 && changes.Valid()
    ensures fresh(advisories) && fresh(history) && fresh(deleted)
    ensures advisories != history && advisories != deleted && history != deleted
    ensures advisories.Valid() && history.Valid() && deleted.Valid()
    ensures Resolved(chain, full, changes.Contents(), advisories.Contents(), history.Contents(), deleted.Contents())
  {
    hide Less, AtMost, Ascending, ReadTo, Rank, Page, Skipped, Resolved;
    advisories := new PathSet();
    history := new PathSet();
    deleted := new PathSet();
    ResolvedNothing(chain, full);
    var cursor := "";
    ghost var rows := changes.rows;
    ghost var k: nat := Skipped(rows);
    ghost var done, ga, gh, gd: set<string> := {}, {}, {}, {};
    ScanStart(rows);
    var paths := changes.Batch(cursor);
    while paths != []
      invariant changes.rows == rows
      invariant advisories.Valid() && history.Valid() && deleted.Valid()
      invariant ReadTo(rows, cursor, k) && Skipped(rows) <= k <= |rows|
      invariant paths == Page(rows, cursor)
      invariant done == AsSet(rows[Skipped(rows)..k])
      invariant advisories.Contents() == ga && history.Contents() == gh && deleted.Contents() == gd
      invariant Resolved(chain, full, done, ga, gh, gd)
      decreases |rows| - k
    {
      PageAdvances(rows, cursor, k);
      ga, gh, gd := AddPage(chain, full, paths, advisories, history, deleted, done);
      SliceStep(rows, Skipped(rows), k, k + |paths|);
      done := done + AsSet(paths);
      cursor := paths[|paths| - 1];
      k := k + |paths|;
      paths := changes.Batch(cursor);
    }
    PageAdvances(rows, cursor, k);
    assert rows[Skipped(rows)..k] == rows[Skipped(rows)..];
    ResolvedWholeTable(chain, full, rows, ga, gh, gd);
  }

  /** Collects the changes since the checkpoint and resolves them against the head. */
  method SelectProcessing(chain: Chain, previous: Option<Checkpoint>, fingerprint: string, force: bool,
                          order: (Tree, Tree) -> seq<string>)
    returns (s: ProcessingSelection)
    requires ValidChain(chain) && |chain| > 0 && Enumerates(order)
    ensures Selects(chain, previous, fingerprint, force, s)
    ensures fresh(s.advisories) && fresh(s.history) && fresh(s.deleted)
    ensures s.advisories != s.history && s.advisories != s.deleted && s.history != s.deleted
  {
    var changes, baseline := CollectChanges(chain, previous, order);
    var full := baseline || force || previous.value.fingerprint != fingerprint;
    var advisories, history, deleted := ResolveChanges(chain, full, changes);
    s := ProcessingSelection(Checkpoint(chain[|chain| - 1].id, fingerprint, false), full, baseline,
                             advisories, history, deleted);
  }

  lemma ResolvedWholeTable(chain: Chain, full: bool, rows: seq<string>, a: set<string>, h: set<string>, d: set<string>)
    requires |chain| > 0 && Ascending(rows) && Resolved(chain, full, AsSet(rows[Skipped(rows)..]), a, h, d)
    ensures Resolved(chain, full, AsSet(rows), a, h, d)
  {
    DrainedPaths(rows);
    EmptyPathIsNoAdvisory(chain, full, AsSet(rows));
  }

  /** The cursor never returns the empty path, and nothing is lost with it. */
  lemma EmptyPathIsNoAdvisory(chain: Chain, full: bool, changes: set<string>)
    requires |chain| > 0
    ensures SelectedAdvisories(chain, changes - {""}) == SelectedAdvisories(chain, changes)
    ensures SelectedHistory(changes - {""}) == SelectedHistory(changes)
    ensures SelectedDeleted(chain, changes - {""}) == SelectedDeleted(chain, changes)
  {
    assert AdvisoryPath("") == None;
  }
}
