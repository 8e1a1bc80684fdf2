/** Which contents each document had over history, as a table that grows commit by commit. */
module Versions {
  import opened Wrappers
  import opened Paths
  import opened History

  /** A recorded version; the sequence order of a table of versions is its id order. */
  datatype Version = Version(url: string, commit: string, blob: Oid)

  type Order = (Tree, Tree) -> seq<string>

  predicate IsVersion(delta: TreeDelta) {
    && delta.status != Deleted && delta.newPath.Some? && delta.newId.Some?
    && IsAdvisory(delta.newPath.value)
  }

  function VersionsIn(deltas: seq<TreeDelta>, commit: string): seq<Version> {
    if deltas == [] then []
    else (if IsVersion(deltas[0]) then [Version(PathUrl(deltas[0].newPath.value), commit, deltas[0].newId.value)] else [])
         + VersionsIn(deltas[1..], commit)
  }

  /** Advisories one commit added or modified, relative to its parent. */
  function CommitVersions(order: Order, chain: Chain, j: nat): seq<Version>
    requires j < |chain|
  {
    VersionsIn(Deltas(order, ParentTree(chain, j), chain[j].tree), chain[j].id)
  }

  /** The versions a full rebuild records for the first `k` commits, oldest first. */
  function VersionsOf(order: Order, chain: Chain, k: nat): seq<Version>
    requires k <= |chain|
  {
    if k == 0 then [] else VersionsOf(order, chain, k - 1) + CommitVersions(order, chain, k - 1)
  }

  predicate Recorded(versions: seq<Version>, v: Version) {
    exists x | x in versions :: x.url == v.url && x.commit == v.commit
  }

  /** INSERT OR IGNORE under the unique (url, commit) index. */
  function InsertOrIgnore(versions: seq<Version>, v: Version): seq<Version> {
    if Recorded(versions, v) then versions else versions + [v]
  }

  function InsertVersions(versions: seq<Version>, added: seq<Version>): seq<Version>
    decreases |added|
  {
    if added == [] then versions else InsertVersions(InsertOrIgnore(versions, added[0]), added[1..])
  }

  /** Inserts the versions of commits `lo..hi` in order. */
  function InsertCommits(order: Order, chain: Chain, versions: seq<Version>, lo: nat, hi: nat): seq<Version>
    requires lo <= hi <= |chain|
    decreases hi - lo
  {
    if lo == hi then versions
    else InsertCommits(order, chain, InsertVersions(versions, CommitVersions(order, chain, lo)), lo + 1, hi)
  }

  function Count(versions: seq<Version>, url: string): nat {
    if versions == [] then 0
    else Count(versions[..|versions| - 1], url) + if versions[|versions| - 1].url == url then 1 else 0
  }

  // ---------------------------------------------------------------- one commit

  ghost predicate Adds(chain: Chain, j: nat, p: string)
    requires j < |chain|
  {
    IsAdvisory(p) && p in StepChanges(chain, j) && p in chain[j].tree
  }

  /** A version comes from a delta of the same comparison. */
  lemma {:induction false} VersionHasDelta(deltas: seq<TreeDelta>, commit: string, v: Version) returns (k: nat)
    requires v in VersionsIn(deltas, commit)
    ensures k < |deltas| && IsVersion(deltas[k]) && v == Version(PathUrl(deltas[k].newPath.value), commit, deltas[k].newId.value)
  {
    hide PathUrl;
    if IsVersion(deltas[0]) && v == Version(PathUrl(deltas[0].newPath.value), commit, deltas[0].newId.value) {
      k := 0;
    } else {
      assert deltas != [] && v in VersionsIn(deltas[1..], commit);
      k := VersionHasDelta(deltas[1..], commit, v);
      assert deltas[1..][k] == deltas[k + 1];
      k := k + 1;
    }
  }

  lemma {:induction false} DeltaHasVersion(deltas: seq<TreeDelta>, commit: string, k: nat)
    requires k < |deltas| && IsVersion(deltas[k])
    ensures Version(PathUrl(deltas[k].newPath.value), commit, deltas[k].newId.value) in VersionsIn(deltas, commit)
  {
    if k > 0 {
      assert deltas[1..][k - 1] == deltas[k];
      DeltaHasVersion(deltas[1..], commit, k - 1);
    }
  }

  lemma {:induction false} VersionsDistinct(deltas: seq<TreeDelta>, commit: string)
    requires forall i, j :: 0 <= i < j < |deltas| ==> deltas[i].newPath != deltas[j].newPath
    ensures var vs := VersionsIn(deltas, commit); forall a, b :: 0 <= a < b < |vs| ==> vs[a].url != vs[b].url
  {
    if deltas != [] {
      VersionsDistinct(deltas[1..], commit);
      var vs, rest := VersionsIn(deltas, commit), VersionsIn(deltas[1..], commit);
      if IsVersion(deltas[0]) {
        forall b | 0 <= b < |rest| ensures vs[0].url != rest[b].url {
          var k := VersionHasDelta(deltas[1..], commit, rest[b]);
          assert deltas[1..][k] == deltas[k + 1];
          if vs[0].url == rest[b].url {
            PathUrlInjective(deltas[0].newPath.value, deltas[k + 1].newPath.value);
          }
        }
        assert vs == [vs[0]] + rest;
      }
    }
  }

  /** The version one commit gives one advisory: its URL, the commit, and the blob it has there. */
  ghost predicate Records(chain: Chain, j: nat, p: string, v: Version)
    requires j < |chain|
  {
    Adds(chain, j, p) && v == Version(PathUrl(p), chain[j].id, chain[j].tree[p])
  }

  /** A version is recorded for a commit exactly when it is an advisory's blob that the commit added or modified. */
  lemma CommitVersionsExact(order: Order, chain: Chain, j: nat, v: Version)
    requires Enumerates(order) && j < |chain|
    ensures v in CommitVersions(order, chain, j) <==> exists p :: Records(chain, j, p, v)
  {
    var before, after := ParentTree(chain, j), chain[j].tree;
    var paths := order(before, after);
    var deltas := Deltas(order, before, after);
    assert EnumeratesChanges(order, before, after);
    forall k | 0 <= k < |deltas|
      ensures deltas[k].newPath == Some(paths[k]) && deltas[k].newId == At(after, paths[k])
      ensures IsVersion(deltas[k]) <==> Adds(chain, j, paths[k])
    {
      assert paths[k] in paths;
    }
    if v in CommitVersions(order, chain, j) {
      var k := VersionHasDelta(deltas, chain[j].id, v);
      assert Records(chain, j, paths[k], v);
    }
    if p :| Records(chain, j, p, v) {
      assert p in paths;
      var k :| 0 <= k < |paths| && paths[k] == p;
      DeltaHasVersion(deltas, chain[j].id, k);
    }
  }

  /** A commit records exactly the advisories it adds or modifies, each once and under its own id. */
  lemma CommitVersionsSpec(order: Order, chain: Chain, j: nat)
    requires Enumerates(order) && j < |chain|
    ensures var vs := CommitVersions(order, chain, j);
            && (forall v | v in vs :: v.commit == chain[j].id && exists p :: Adds(chain, j, p) && v.url == PathUrl(p))
            && (forall p | Adds(chain, j, p) :: exists v | v in vs :: v.url == PathUrl(p))
            && (forall a, b :: 0 <= a < b < |vs| ==> vs[a].url != vs[b].url)
  {
    hide Adds, PathUrl, CommitVersions;
    CommitVersionsDistinct(order, chain, j);
    var vs := CommitVersions(order, chain, j);
    forall v | v in vs ensures v.commit == chain[j].id && exists p :: Adds(chain, j, p) && v.url == PathUrl(p) {
      CommitVersionsExact(order, chain, j, v);
      var p :| Records(chain, j, p, v);
    }
    forall p | Adds(chain, j, p) ensures exists v | v in vs :: v.url == PathUrl(p) {
      AddsIsPresent(chain, j, p);
      var v := Version(PathUrl(p), chain[j].id, chain[j].tree[p]);
      assert Records(chain, j, p, v);
      CommitVersionsExact(order, chain, j, v);
    }
  }

  lemma AddsIsPresent(chain: Chain, j: nat, p: string)
    requires j < |chain| && Adds(chain, j, p)
    ensures p in chain[j].tree
  {
  }

  lemma CommitVersionsDistinct(order: Order, chain: Chain, j: nat)
    requires Enumerates(order) && j < |chain|
    ensures var vs := CommitVersions(order, chain, j); forall a, b :: 0 <= a < b < |vs| ==> vs[a].url != vs[b].url
  {
    var before, after := ParentTree(chain, j), chain[j].tree;
    assert EnumeratesChanges(order, before, after);
    VersionsDistinct(Deltas(order, before, after), chain[j].id);
    assert CommitVersions(order, chain, j) == VersionsIn(Deltas(order, before, after), chain[j].id);
  }

  /** The rebuilt table holds exactly the advisory blobs some commit added or modified. */
  lemma {:induction false} VersionsExact(order: Order, chain: Chain, k: nat, v: Version)
    requires Enumerates(order) && k <= |chain|
    ensures v in VersionsOf(order, chain, k) <==> exists j: nat, p :: j < k && Records(chain, j, p, v)
  {
    hide CommitVersions, Records;
    if k > 0 {
      VersionsExact(order, chain, k - 1, v);
      CommitVersionsExact(order, chain, k - 1, v);
      if j: nat, p :| j < k && Records(chain, j, p, v) && j != k - 1 {
        assert j < k - 1 && Records(chain, j, p, v);
      }
      if v in CommitVersions(order, chain, k - 1) {
        var p :| Records(chain, k - 1, p, v);
        assert k - 1 < k && Records(chain, k - 1, p, v);
      }
    }
  }

  // ---------------------------------------------------------------- counting

  lemma {:induction false} CountAppend(a: seq<Version>, b: seq<Version>, url: string)
    ensures Count(a + b, url) == Count(a, url) + Count(b, url)
  {
    if b == [] {
      assert a + b == a;
    } else {
      assert (a + b)[..|a + b| - 1] == a + b[..|b| - 1];
      CountAppend(a, b[..|b| - 1], url);
    }
  }

  lemma {:induction false} CountDistinct(vs: seq<Version>, url: string)
    requires forall a, b :: 0 <= a < b < |vs| ==> vs[a].url != vs[b].url
    ensures Count(vs, url) == if exists v | v in vs :: v.url == url then 1 else 0
  {
    if vs != [] {
      var n := |vs| - 1;
      CountDistinct(vs[..n], url);
      assert forall v :: v in vs <==> v in vs[..n] || v == vs[n];
      if vs[n].url == url {
        assert forall v | v in vs[..n] :: v.url != url;
      }
    }
  }

  /** One commit raises a document's count by one exactly when it adds or modifies it. */
  lemma CountStep(order: Order, chain: Chain, j: nat, p: string)
    requires Enumerates(order) && j < |chain|
    ensures Count(VersionsOf(order, chain, j + 1), PathUrl(p))
            == Count(VersionsOf(order, chain, j), PathUrl(p)) + if Adds(chain, j, p) then 1 else 0
  {
    var vs := CommitVersions(order, chain, j);
    CommitVersionsSpec(order, chain, j);
    CountAppend(VersionsOf(order, chain, j), vs, PathUrl(p));
    CountDistinct(vs, PathUrl(p));
    if v :| v in vs && v.url == PathUrl(p) {
      var q :| Adds(chain, j, q) && v.url == PathUrl(q);
      PathUrlInjective(p, q);
    }
  }

  lemma {:induction false} CountSince(order: Order, chain: Chain, base: nat, k: nat, p: string)
    requires Enumerates(order) && base < k <= |chain| && p !in Changes(chain, base)
    ensures Count(VersionsOf(order, chain, k), PathUrl(p)) == Count(VersionsOf(order, chain, base + 1), PathUrl(p))
  {
    hide VersionsOf, Count;
    if base + 1 < k {
      assert p !in StepChanges(chain, k - 1);
      CountStep(order, chain, k - 1, p);
      CountSince(order, chain, base, k - 1, p);
    }
  }

  lemma {:induction false} CountMonotone(order: Order, chain: Chain, j: nat, k: nat, p: string)
    requires Enumerates(order) && j <= k <= |chain|
    ensures Count(VersionsOf(order, chain, j), PathUrl(p)) <= Count(VersionsOf(order, chain, k), PathUrl(p))
  {
    hide VersionsOf, Count;
    if j < k {
      CountStep(order, chain, k - 1, p);
      CountMonotone(order, chain, j, k - 1, p);
    }
  }

  /** A path present in snapshot `k - 1` was last written by some commit after which it stayed. */
  lemma {:induction false} LastWrite(chain: Chain, k: nat, p: string) returns (j: nat)
    requires 0 < k <= |chain| && p in chain[k - 1].tree
    ensures j < k && p in StepChanges(chain, j) && p in chain[j].tree
    ensures forall i :: j < i < k ==> p !in StepChanges(chain, i)
  {
    if p in StepChanges(chain, k - 1) {
      j := k - 1;
    } else {
      assert k > 1 && p in chain[k - 2].tree;
      j := LastWrite(chain, k - 1, p);
    }
  }

  /** Every advisory of a snapshot has at least one version. */
  lemma PresentIsCounted(order: Order, chain: Chain, k: nat, p: string)
    requires Enumerates(order) && 0 < k <= |chain| && IsAdvisory(p) && p in chain[k - 1].tree
    ensures Count(VersionsOf(order, chain, k), PathUrl(p)) > 0
  {
    hide VersionsOf, Count;
    var j := LastWrite(chain, k, p);
    CountStep(order, chain, j, p);
    CountMonotone(order, chain, j + 1, k, p);
  }

  // ---------------------------------------------------------------- incremental equals rebuild

  lemma {:induction false} CommitIn(order: Order, chain: Chain, k: nat)
    requires Enumerates(order) && k <= |chain|
    ensures forall v | v in VersionsOf(order, chain, k) :: exists j :: 0 <= j < k && v.commit == chain[j].id
  {
    if k > 0 {
      CommitIn(order, chain, k - 1);
      CommitVersionsSpec(order, chain, k - 1);
      var last := VersionsOf(order, chain, k);
      forall v | v in last ensures exists j :: 0 <= j < k && v.commit == chain[j].id {
        if v in VersionsOf(order, chain, k - 1) {
          var j :| 0 <= j < k - 1 && v.commit == chain[j].id;
        }
      }
    }
  }

  /** No document is recorded twice for one commit. */
  ghost predicate OncePerCommit(vs: seq<Version>) {
    forall a, b :: 0 <= a < b < |vs| ==> vs[a].url != vs[b].url || vs[a].commit != vs[b].commit
  }

  lemma OnceAppend(earlier: seq<Version>, added: seq<Version>, commit: string)
    requires OncePerCommit(earlier) && forall v | v in earlier :: v.commit != commit
    requires (forall v | v in added :: v.commit == commit) && forall a, b :: 0 <= a < b < |added| ==> added[a].url != added[b].url
    ensures OncePerCommit(earlier + added)
  {
    var vs := earlier + added;
    forall a, b | 0 <= a < b < |vs| ensures vs[a].url != vs[b].url || vs[a].commit != vs[b].commit {
      if a < |earlier| <= b { assert vs[a] in earlier && vs[b] in added; }
    }
  }

  lemma {:induction false} VersionsOnce(order: Order, chain: Chain, k: nat)
    requires Enumerates(order) && ValidChain(chain) && k <= |chain|
    ensures OncePerCommit(VersionsOf(order, chain, k))
  {
    hide CommitVersions, OncePerCommit, Adds;
    if k == 0 {
      NothingRecorded();
    } else {
      VersionsOnce(order, chain, k - 1);
      CommitIn(order, chain, k - 1);
      CommitVersionsSpec(order, chain, k - 1);
      OnceAppend(VersionsOf(order, chain, k - 1), CommitVersions(order, chain, k - 1), chain[k - 1].id);
    }
  }

  lemma NothingRecorded()
    ensures OncePerCommit([])
  {
  }

  lemma {:induction false} InsertNothingNew(versions: seq<Version>, added: seq<Version>)
    requires forall v | v in added :: v in versions
    ensures InsertVersions(versions, added) == versions
    decreases |added|
  {
    if added != [] {
      assert added[0] in versions;
      InsertNothingNew(versions, added[1..]);
    }
  }

  lemma {:induction false} InsertAllNew(versions: seq<Version>, added: seq<Version>)
    requires forall v | v in added :: !Recorded(versions, v)
    requires forall a, b :: 0 <= a < b < |added| ==> added[a].url != added[b].url
    ensures InsertVersions(versions, added) == versions + added
    decreases |added|
  {
    if added != [] {
      assert added[0] in added;
      var more := versions + [added[0]];
      forall v | v in added[1..] ensures !Recorded(more, v) {
        var b :| 0 <= b < |added[1..]| && added[1..][b] == v;
        assert v == added[b + 1] && v.url != added[0].url;
        assert v in added;
        assert forall x :: x in more <==> x in versions || x == added[0];
      }
      InsertAllNew(more, added[1..]);
      assert versions + added == more + added[1..];
    }
  }

  lemma {:induction false} PrefixKept(order: Order, chain: Chain, j: nat, k: nat)
    requires j < k <= |chain|
    ensures forall v | v in CommitVersions(order, chain, j) :: v in VersionsOf(order, chain, k)
  {
    if j < k - 1 { PrefixKept(order, chain, j, k - 1); }
  }

  lemma InsertNextCommit(order: Order, chain: Chain, j: nat)
    requires Enumerates(order) && ValidChain(chain) && j < |chain|
    ensures InsertVersions(VersionsOf(order, chain, j), CommitVersions(order, chain, j)) == VersionsOf(order, chain, j + 1)
  {
    var recorded, added := VersionsOf(order, chain, j), CommitVersions(order, chain, j);
    CommitIn(order, chain, j);
    CommitVersionsSpec(order, chain, j);
    InsertAllNew(recorded, added);
  }

  /** Replaying commits that are already recorded and then new ones gives the rebuilt table. */
  lemma {:induction false} IncrementalIsRebuild(order: Order, chain: Chain, lo: nat, recorded: nat)
    requires Enumerates(order) && ValidChain(chain) && lo <= recorded <= |chain|
    ensures InsertCommits(order, chain, VersionsOf(order, chain, recorded), lo, |chain|)
            == VersionsOf(order, chain, |chain|)
    decreases |chain| - lo
  {
    if lo < |chain| {
      if lo < recorded {
        PrefixKept(order, chain, lo, recorded);
        InsertNothingNew(VersionsOf(order, chain, recorded), CommitVersions(order, chain, lo));
        IncrementalIsRebuild(order, chain, lo + 1, recorded);
      } else {
        InsertNextCommit(order, chain, lo);
        IncrementalIsRebuild(order, chain, lo + 1, lo + 1);
      }
    }
  }

  lemma {:induction false} VersionsOfPrefix(order: Order, chain: Chain, next: Commit, k: nat)
    requires k <= |chain|
    ensures VersionsOf(order, chain + [next], k) == VersionsOf(order, chain, k)
  {
    hide CommitVersions;
    if k > 0 {
      VersionsOfPrefix(order, chain, next, k - 1);
      CommitVersionsPrefix(order, chain, next, k - 1);
    }
  }

  lemma CommitVersionsPrefix(order: Order, chain: Chain, next: Commit, j: nat)
    requires j < |chain|
    ensures CommitVersions(order, chain + [next], j) == CommitVersions(order, chain, j)
  {
    hide VersionsIn, Deltas;
    assert ParentTree(chain + [next], j) == ParentTree(chain, j);
    assert (chain + [next])[j] == chain[j];
  }

  lemma EmptyOrHead(vs: seq<Version>)
    ensures vs == [] || vs[0] in vs
  {
  }

  /** Commits that change no advisory record nothing. */
  lemma {:induction false} NothingRecordedSince(order: Order, chain: Chain, base: nat, k: nat)
    requires Enumerates(order) && base < k <= |chain|
    requires forall p | p in Changes(chain, base) :: !IsAdvisory(p)
    ensures VersionsOf(order, chain, k) == VersionsOf(order, chain, base + 1)
  {
    hide CommitVersions, IsAdvisory, StepChanges;
    if base + 1 < k {
      NothingRecordedSince(order, chain, base, k - 1);
      CommitVersionsSpec(order, chain, k - 1);
      var vs := CommitVersions(order, chain, k - 1);
      assert forall p :: Adds(chain, k - 1, p) ==> p in Changes(chain, base);
      EmptyOrHead(vs);
    }
  }

  lemma {:induction false} InsertCommitsLast(order: Order, chain: Chain, versions: seq<Version>, lo: nat, hi: nat)
    requires lo <= hi < |chain|
    ensures InsertCommits(order, chain, versions, lo, hi + 1)
            == InsertVersions(InsertCommits(order, chain, versions, lo, hi), CommitVersions(order, chain, hi))
    decreases hi - lo
  {
    hide InsertVersions, CommitVersions;
    if lo < hi {
      InsertCommitsLast(order, chain, InsertVersions(versions, CommitVersions(order, chain, lo)), lo + 1, hi);
    }
  }

  lemma {:induction false} InsertedIsLater(order: Order, chain: Chain, lo: nat, hi: nat)
    requires Enumerates(order) && ValidChain(chain) && lo <= hi <= |chain|
    ensures VersionsOf(order, chain, hi) == VersionsOf(order, chain, lo) + InsertCommits(order, chain, [], lo, hi)
  {
    hide CommitVersions, InsertVersions;
    if lo < hi {
      InsertedIsLater(order, chain, lo, hi - 1);
      InsertCommitsLast(order, chain, [], lo, hi - 1);
      CommitIn(order, chain, hi - 1);
      CommitVersionsSpec(order, chain, hi - 1);
      var before := InsertCommits(order, chain, [], lo, hi - 1);
      forall v | v in CommitVersions(order, chain, hi - 1) ensures !Recorded(before, v) {
        forall x | x in before ensures x.commit != v.commit { assert x in VersionsOf(order, chain, hi - 1); }
      }
      InsertAllNew(before, CommitVersions(order, chain, hi - 1));
      assert VersionsOf(order, chain, lo) + (before + CommitVersions(order, chain, hi - 1))
          == VersionsOf(order, chain, lo) + before + CommitVersions(order, chain, hi - 1);
    }
  }

  /** Recording only later commits into an empty table gives the rebuilt table exactly when earlier ones had nothing to record. */
  lemma LaterAloneIsRebuild(order: Order, chain: Chain, lo: nat)
    requires Enumerates(order) && ValidChain(chain) && lo <= |chain|
    ensures InsertCommits(order, chain, [], lo, |chain|) == VersionsOf(order, chain, |chain|) <==> VersionsOf(order, chain, lo) == []
  {
    InsertedIsLater(order, chain, lo, |chain|);
  }
}
