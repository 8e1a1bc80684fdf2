/** A small cache of tree comparisons, kept during one scan of history. */
module DiffCache {
  import opened Wrappers
  import opened PathSets
  import opened History
  import opened TreeDiff

  /** Maximum tree pairs retained, and the longest comparison worth retaining. */
  const CACHE_ENTRIES: nat := 32
  const CACHE_MAX_DELTAS: nat := 1024

  datatype CachedTreeDiff = CachedTreeDiff(before: Option<Oid>, after: Oid, deltas: seq<TreeDelta>)

  predicate HasKey(e: CachedTreeDiff, before: Option<Oid>, after: Oid) {
    e.before == before && e.after == after
  }

  function Position(entries: seq<CachedTreeDiff>, before: Option<Oid>, after: Oid): (k: Option<nat>)
    ensures k.Some? ==> k.value < |entries| && HasKey(entries[k.value], before, after)
    ensures k.None? ==> forall e | e in entries :: !HasKey(e, before, after)
  {
    if entries == [] then None
    else if HasKey(entries[0], before, after) then Some(0)
    else match Position(entries[1..], before, after) case None => None case Some(k) => Some(k + 1)
  }

  /** A hit moves its entry to the recently used end. */
  function Refreshed(entries: seq<CachedTreeDiff>, k: nat): seq<CachedTreeDiff>
    requires k < |entries|
  {
    entries[..k] + entries[k + 1..] + [entries[k]]
  }

  /** A new entry evicts the least recently used one when the cache is full. */
  function Remembered(entries: seq<CachedTreeDiff>, e: CachedTreeDiff): seq<CachedTreeDiff> {
    (if |entries| == CACHE_ENTRIES then entries[1..] else entries) + [e]
  }

  /** What a successful request leaves in the cache. */
  function AfterRequest(entries: seq<CachedTreeDiff>, e: CachedTreeDiff): seq<CachedTreeDiff> {
    match Position(entries, e.before, e.after)
    case Some(k) => Refreshed(entries, k)
    case None => if |e.deltas| <= CACHE_MAX_DELTAS then Remembered(entries, e) else entries
  }

  /** The cached deltas are the comparison of the trees the key identifies. */
  ghost predicate Faithful(objects: Objects, e: CachedTreeDiff) {
    forall before, after {:trigger Comparison(objects, before, Some(after), "")} |
      TreeId(objects, before) == e.before && objects.id(after) == e.after ::
      e.deltas == Comparison(objects, before, Some(after), "")
  }

  ghost predicate DistinctKeys(entries: seq<CachedTreeDiff>) {
    forall i, j :: 0 <= i < j < |entries| ==> !HasKey(entries[i], entries[j].before, entries[j].after)
  }

  ghost predicate ValidCache(objects: Objects, entries: seq<CachedTreeDiff>) {
    && |entries| <= CACHE_ENTRIES
    && DistinctKeys(entries)
    && forall e | e in entries :: |e.deltas| <= CACHE_MAX_DELTAS && Faithful(objects, e)
  }

  lemma RefreshedIsValid(objects: Objects, entries: seq<CachedTreeDiff>, k: nat)
    requires ValidCache(objects, entries) && k < |entries|
    ensures ValidCache(objects, Refreshed(entries, k))
  {
    hide Faithful;
    var moved := Refreshed(entries, k);
    forall e | e in moved ensures e in entries {}
    forall i, j | 0 <= i < j < |moved| ensures !HasKey(moved[i], moved[j].before, moved[j].after) {
      var a, b := if i < k then i else i + 1, if j == |entries| - 1 then k else if j < k then j else j + 1;
      assert moved[i] == entries[a] && moved[j] == entries[b];
    }
  }

  lemma RememberedIsValid(objects: Objects, entries: seq<CachedTreeDiff>, e: CachedTreeDiff)
    requires ValidCache(objects, entries) && Position(entries, e.before, e.after).None?
    requires |e.deltas| <= CACHE_MAX_DELTAS && Faithful(objects, e)
    ensures ValidCache(objects, Remembered(entries, e))
  {
    hide Faithful;
    var kept := if |entries| == CACHE_ENTRIES then entries[1..] else entries;
    assert DistinctKeys(kept);
    assert forall x | x in kept :: x in entries;
    var next := Remembered(entries, e);
    forall i, j | 0 <= i < j < |next| ensures !HasKey(next[i], next[j].before, next[j].after) {
      assert next[i] in kept;
    }
  }

  lemma CompleteIsFaithful(objects: Objects, before: Option<Entries>, after: Entries)
    requires ContentAddressed(objects)
    ensures Faithful(objects, CachedTreeDiff(TreeId(objects, before), objects.id(after), Comparison(objects, before, Some(after), "")))
  {
    hide Comparison, Enumerates;
  }

  /** A request for two trees, whose visitor may fail at one of the deltas. */
  datatype Asked = Asked(before: Option<Entries>, after: Entries, failsAt: Option<nat>)

  function Answer(objects: Objects, q: Asked): CachedTreeDiff {
    CachedTreeDiff(TreeId(objects, q.before), objects.id(q.after), Comparison(objects, q.before, Some(q.after), ""))
  }

  /** The visitor sees every delta. */
  predicate Succeeds(q: Asked, deltas: seq<TreeDelta>) {
    q.failsAt.None? || q.failsAt.value >= |deltas|
  }

  /** What a request leaves in the cache. A visitor that fails over kept deltas has still made them the most
      recently used; one that fails over a new comparison leaves no trace. */
  function Request(objects: Objects, entries: seq<CachedTreeDiff>, q: Asked): seq<CachedTreeDiff> {
    var e := Answer(objects, q);
    if Succeeds(q, e.deltas) || Position(entries, e.before, e.after).Some? then AfterRequest(entries, e) else entries
  }

  function Requests(objects: Objects, entries: seq<CachedTreeDiff>, asked: seq<Asked>): seq<CachedTreeDiff> {
    if asked == [] then entries
    else Request(objects, Requests(objects, entries, asked[..|asked| - 1]), asked[|asked| - 1])
  }

  lemma RequestKeepsValid(objects: Objects, entries: seq<CachedTreeDiff>, q: Asked)
    requires ContentAddressed(objects) && ValidCache(objects, entries)
    ensures ValidCache(objects, Request(objects, entries, q))
  {
    hide Comparison, ValidCache, ContentAddressed;
    var e := Answer(objects, q);
    var k := Position(entries, e.before, e.after);
    CompleteIsFaithful(objects, q.before, q.after);
    if k.Some? { RefreshedIsValid(objects, entries, k.value); }
    else if |e.deltas| <= CACHE_MAX_DELTAS { RememberedIsValid(objects, entries, e); }
  }

  /** Over any requests, failing ones included, the cache stays bounded, its keys distinct and its entries exact. */
  lemma {:induction false} RequestsKeepValid(objects: Objects, entries: seq<CachedTreeDiff>, asked: seq<Asked>)
    requires ContentAddressed(objects) && ValidCache(objects, entries)
    ensures ValidCache(objects, Requests(objects, entries, asked))
    ensures |Requests(objects, entries, asked)| <= 32 && forall e | e in Requests(objects, entries, asked) :: |e.deltas| <= 1024
  {
    ValidIsBounded(objects, entries);
    hide Request, ValidCache, ContentAddressed;
    if asked != [] {
      var front, last := asked[..|asked| - 1], asked[|asked| - 1];
      RequestsKeepValid(objects, entries, front);
      RequestKeepsValid(objects, Requests(objects, entries, front), last);
      ValidIsBounded(objects, Requests(objects, entries, asked));
    }
  }

  lemma ValidIsBounded(objects: Objects, entries: seq<CachedTreeDiff>)
    ensures ValidCache(objects, entries) ==> |entries| <= 32 && forall e | e in entries :: |e.deltas| <= 1024
  {
  }

  /** At most `age` requests for other trees have moved past the entry. */
  ghost predicate Aged(entries: seq<CachedTreeDiff>, e: CachedTreeDiff, age: nat) {
    exists k :: 0 <= k < |entries| && entries[k] == e && |entries| - 1 - k <= age
  }

  /** One request moves an entry at most one place towards eviction, and evicts only the last in line. */
  lemma AgesByOne(objects: Objects, entries: seq<CachedTreeDiff>, e: CachedTreeDiff, age: nat, q: Asked)
    requires |entries| <= 32 && Aged(entries, e, age) && age < 31
    ensures Aged(Request(objects, entries, q), e, age + 1)
  {
    hide Comparison, Answer;
    var k :| 0 <= k < |entries| && entries[k] == e && |entries| - 1 - k <= age;
    var a := Answer(objects, q);
    var next := Request(objects, entries, q);
    match Position(entries, a.before, a.after) {
      case Some(m) =>
        var moved := if k < m then k else if k == m then |entries| - 1 else k - 1;
        assert Refreshed(entries, m)[moved] == e;
      case None =>
        if next != entries {
          var moved := if |entries| == CACHE_ENTRIES then k - 1 else k;
          assert next[moved] == e;
        }
    }
  }

  lemma AnswerIsNewest(objects: Objects, entries: seq<CachedTreeDiff>, q: Asked)
    requires ValidCache(objects, entries) && Succeeds(q, Answer(objects, q).deltas) && |Answer(objects, q).deltas| <= 1024
    ensures Aged(Request(objects, entries, q), Answer(objects, q), 0)
  {
    hide Comparison;
    var e := Answer(objects, q);
    var next := Request(objects, entries, q);
    match Position(entries, e.before, e.after) {
      case Some(m) =>
        FaithfulEntry(objects, entries[m], q.before, q.after);
        assert entries[m] == e;
        assert next[|next| - 1] == e;
      case None => assert next[|next| - 1] == e;
    }
  }

  /** The cache forgets the least recently used first: a small comparison is still there after 31 further requests. */
  lemma {:induction false} RecentIsCached(objects: Objects, entries: seq<CachedTreeDiff>, q: Asked, later: seq<Asked>)
    requires ContentAddressed(objects) && ValidCache(objects, entries) && |later| <= 31
    requires Succeeds(q, Answer(objects, q).deltas) && |Answer(objects, q).deltas| <= 1024
    ensures Aged(Requests(objects, Request(objects, entries, q), later), Answer(objects, q), |later|)
    ensures Answer(objects, q) in Requests(objects, Request(objects, entries, q), later)
  {
    hide Request, ValidCache, ContentAddressed, Answer, Succeeds;
    if later == [] {
      AnswerIsNewest(objects, entries, q);
    } else {
      var front, last := later[..|later| - 1], later[|later| - 1];
      RecentIsCached(objects, entries, q, front);
      RequestKeepsValid(objects, entries, q);
      RequestsKeepValid(objects, Request(objects, entries, q), front);
      AgesByOne(objects, Requests(objects, Request(objects, entries, q), front), Answer(objects, q), |front|, last);
    }
  }

  lemma {:induction false} InsertLast(rows: seq<string>, paths: seq<string>, last: string)
    ensures InsertAll(rows, paths + [last]) == Insert(InsertAll(rows, paths), last)
    decreases |paths|
  {
    if paths == [] {
      assert [] + [last] == [last];
      assert InsertAll(rows, [last]) == InsertAll(Insert(rows, last), [last][1..]);
    } else {
      assert (paths + [last])[1..] == paths[1..] + [last];
      InsertLast(Insert(rows, paths[0]), paths[1..], last);
    }
  }

  class TreeDiffCache {
    var entries: seq<CachedTreeDiff>
    var diffsAttempted: nat
    var cacheHits: nat

    constructor ()
      ensures entries == []
    {
      entries, diffsAttempted, cacheHits := [], 0, 0;
    }

    /** Hands out an uncached comparison of a whole level to libgit2. */
    method NativeDiff(objects: Objects, before: Option<Entries>, after: Option<Entries>, prefix: string) returns (deltas: seq<TreeDelta>)
      modifies this`diffsAttempted
      ensures deltas == Native(objects, before, after, prefix)
    {
      diffsAttempted := diffsAttempted + 1;
      deltas := Native(objects, before, after, prefix);
    }

    /** Recurses where only directories differ, and hands a level that holds a file to libgit2 whole. */
    method Compare(objects: Objects, before: Option<Entries>, after: Option<Entries>, prefix: string) returns (deltas: seq<TreeDelta>)
      modifies this`diffsAttempted
      ensures deltas == Comparison(objects, before, after, prefix)
      decreases DepthOpt(before) + DepthOpt(after)
    {
      hide Native, ChangedNames, HasFile, EntriesOf, Sub;
      if TreeId(objects, before) == TreeId(objects, after) {
        return [];
      }
      var directories := ChangedDirectories(objects, before, after);
      if directories.None? {
        deltas := NativeDiff(objects, before, after, prefix);
        return;
      }
      deltas := [];
      for i := 0 to |directories.value|
        invariant deltas == Comparisons(objects, before, after, prefix, directories.value[..i])
      {
        assert directories.value[..i + 1][..i] == directories.value[..i];
        var name := directories.value[i];
        var inner := Compare(objects, Sub(before, name), Sub(after, name), prefix + name + "/");
        deltas := deltas + inner;
      }
      assert directories.value[..|directories.value|] == directories.value;
    }

    /** Reuses a retained comparison. */
    method Cached(before: Option<Oid>, after: Oid) returns (deltas: Option<seq<TreeDelta>>)
      modifies this`entries, this`cacheHits
      ensures var k := Position(old(entries), before, after);
              && (k.None? ==> deltas.None? && entries == old(entries))
              && (k.Some? ==> deltas == Some(old(entries)[k.value].deltas) && entries == Refreshed(old(entries), k.value))
    {
      var k := Position(entries, before, after);
      if k.None? {
        return None;
      }
      var entry := entries[k.value];
      entries := entries[..k.value] + entries[k.value + 1..];
      entries := entries + [entry];
      cacheHits := cacheHits + 1;
      deltas := Some(entry.deltas);
    }

    /** Streams a comparison to a visitor, which may fail on its `failsAt`-th delta. */
    method Visit(objects: Objects, before: Option<Entries>, after: Entries, failsAt: Option<nat>)
      returns (seen: seq<TreeDelta>, ok: bool)
      requires ContentAddressed(objects) && ValidCache(objects, entries)
      modifies this
      ensures ValidCache(objects, entries)
      ensures var all := Comparison(objects, before, Some(after), "");
              && (ok <==> failsAt.None? || failsAt.value >= |all|)
              && seen == (if ok then all else all[..failsAt.value])
      ensures entries == Request(objects, old(entries), Asked(before, after, failsAt))
    {
      hide Comparison, Enumerates, Faithful;
      var oldId, newId := TreeId(objects, before), objects.id(after);
      ghost var k := Position(entries, oldId, newId);
      var cached := Cached(oldId, newId);
      if k.Some? {
        RefreshedIsValid(objects, old(entries), k.value);
        FaithfulEntry(objects, old(entries)[k.value], before, after);
      }
      var all;
      if cached.Some? {
        all := cached.value;
      } else {
        all := Compare(objects, before, Some(after), "");
      }
      seen := [];
      var retained: Option<seq<TreeDelta>> := Some([]);
      for i := 0 to |all|
        invariant seen == all[..i] && (failsAt.Some? ==> i <= failsAt.value)
        invariant retained == if i <= CACHE_MAX_DELTAS then Some(all[..i]) else None
      {
        if failsAt == Some(i) {
          return seen, false;
        }
        seen := seen + [all[i]];
        if retained.Some? {
          retained := if |retained.value| < CACHE_MAX_DELTAS then Some(retained.value + [all[i]]) else None;
        }
      }
      ok := true;
      assert all[..|all|] == all;
      if cached.None? && retained.Some? {
        var entry := CachedTreeDiff(oldId, newId, retained.value);
        CompleteIsFaithful(objects, before, after);
        RememberedIsValid(objects, entries, entry);
        if |entries| == CACHE_ENTRIES {
          entries := entries[1..];
        }
        entries := entries + [entry];
      }
    }

    /** Compares two snapshots. Whatever was requested before, the answer is the uncached comparison. */
    method Diff(objects: Objects, before: Option<Entries>, after: Entries) returns (deltas: seq<TreeDelta>)
      requires ContentAddressed(objects) && ValidCache(objects, entries)
      modifies this
      ensures ValidCache(objects, entries)
      ensures deltas == Comparison(objects, before, Some(after), "")
      ensures entries == Request(objects, old(entries), Asked(before, after, None))
    {
      hide Comparison, Enumerates, Faithful;
      var k := Position(entries, TreeId(objects, before), objects.id(after));
      var cached := Cached(TreeId(objects, before), objects.id(after));
      if cached.Some? {
        RefreshedIsValid(objects, old(entries), k.value);
        FaithfulEntry(objects, old(entries)[k.value], before, after);
        return cached.value;
      }
      var ok;
      deltas, ok := Visit(objects, before, after, None);
    }
  }

  lemma AmongNext(objects: Objects, before: Option<Entries>, after: Option<Entries>, all: Entries, i: nat)
    requires i < |all|
    ensures ChangedAmong(objects, before, after, all[..i + 1])
            == if SameEntry(objects, before, after, all[i].name) then ChangedAmong(objects, before, after, all[..i])
               else ChangedAmong(objects, before, after, all[..i]) + [all[i].name]
  {
    hide SameEntry;
    assert all[..i + 1][..i] == all[..i];
    assert ChangedAmong(objects, before, after, all[..i]) + [] == ChangedAmong(objects, before, after, all[..i]);
  }

  lemma FileNamed(before: Option<Entries>, after: Option<Entries>, name: string)
    ensures (Lookup(EntriesOf(before), name).Some? && Lookup(EntriesOf(before), name).value.Blob?)
            || (Lookup(EntriesOf(after), name).Some? && Lookup(EntriesOf(after), name).value.Blob?)
            ==> HasFile(EntriesOf(before) + EntriesOf(after))
  {
    var all := EntriesOf(before) + EntriesOf(after);
    var was, now := Lookup(EntriesOf(before), name), Lookup(EntriesOf(after), name);
    if was.Some? && was.value.Blob? { assert Entry(name, was.value) in all; }
    if now.Some? && now.value.Blob? { assert Entry(name, now.value) in all; }
  }

  lemma FileAt(all: Entries, i: nat)
    requires i < |all|
    ensures all[i].node.Blob? ==> HasFile(all)
    ensures HasFile(all[..i + 1]) <==> HasFile(all[..i]) || all[i].node.Blob?
  {
    assert all[..i + 1] == all[..i] + [all[i]];
    if all[i].node.Blob? { assert all[i] in all && all[i] in all[..i + 1]; }
    if HasFile(all[..i]) {
      var e :| e in all[..i] && e.node.Blob?;
      assert e in all[..i + 1];
    }
  }

  /** Names of changed directories at one level, sorted; None as soon as a file is met there. */
  method ChangedDirectories(objects: Objects, before: Option<Entries>, after: Option<Entries>) returns (names: Option<seq<string>>)
    ensures names.None? <==> HasFile(EntriesOf(before) + EntriesOf(after))
    ensures names.Some? ==> names.value == ChangedNames(objects, before, after)
  {
    hide SameEntry, Insert, InsertAll, ChangedAmong, HasFile;
    var all := EntriesOf(before) + EntriesOf(after);
    var directories: seq<string> := [];
    ScanNothing(objects, before, after);
    for i := 0 to |all|
      invariant !HasFile(all[..i])
      invariant directories == InsertAll([], ChangedAmong(objects, before, after, all[..i]))
    {
      AmongNext(objects, before, after, all, i);
      FileAt(all, i);
      var name := all[i].name;
      if all[i].node.Blob? {
        return None;
      }
      if SameEntry(objects, before, after, name) {
        continue;
      }
      var was, now := Lookup(EntriesOf(before), name), Lookup(EntriesOf(after), name);
      FileNamed(before, after, name);
      if (was.Some? && was.value.Blob?) || (now.Some? && now.value.Blob?) {
        return None;
      }
      InsertLast([], ChangedAmong(objects, before, after, all[..i]), name);
      directories := Insert(directories, name);
    }
    assert all[..|all|] == all;
    names := Some(directories);
  }

  lemma ScanNothing(objects: Objects, before: Option<Entries>, after: Option<Entries>)
    ensures forall all: Entries :: all == [] ==> !HasFile(all) && InsertAll([], ChangedAmong(objects, before, after, all)) == []
  {
  }

  lemma FaithfulEntry(objects: Objects, e: CachedTreeDiff, before: Option<Entries>, after: Entries)
    requires Faithful(objects, e) && HasKey(e, TreeId(objects, before), objects.id(after))
    ensures e.deltas == Comparison(objects, before, Some(after), "")
  {
  }
}
