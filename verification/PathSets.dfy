/** The disposable, deduplicating path table that large selections spill into. */
module PathSets {
  import opened Strings

  /** Rows returned by one cursor read, and rows written by one insert. */
  const PATH_BATCH: nat := 256

  /** Rows at or before `after` in primary-key order. */
  function Rank(rows: seq<string>, after: string): (k: nat)
    ensures k <= |rows|
  {
    if rows == [] || !AtMost(rows[0], after) then 0 else 1 + Rank(rows[1..], after)
  }

  /** The cursor read: rows after `after`, in order, at most one page. */
  function Page(rows: seq<string>, after: string): seq<string> {
    var k := Rank(rows, after);
    rows[k..if k + PATH_BATCH <= |rows| then k + PATH_BATCH else |rows|]
  }

  /** `k` rows have been read by a cursor that stands at `cursor`. */
  predicate ReadTo(rows: seq<string>, cursor: string, k: nat) {
    && k <= |rows|
    && (forall i :: 0 <= i < k ==> AtMost(rows[i], cursor))
    && (forall i :: k <= i < |rows| ==> Less(cursor, rows[i]))
  }

  lemma {:induction false} RankIsReadTo(rows: seq<string>, cursor: string, k: nat)
    requires ReadTo(rows, cursor, k)
    ensures Rank(rows, cursor) == k
  {
    if k > 0 {
      forall i | 0 <= i < k - 1 ensures AtMost(rows[1..][i], cursor) { assert rows[1..][i] == rows[i + 1]; }
      RankIsReadTo(rows[1..], cursor, k - 1);
    } else if rows != [] {
      LessAsymmetric(cursor, rows[0]);
    }
  }

  /** Rows a scan starting at the empty cursor never returns: only the empty path. */
  function Skipped(rows: seq<string>): (k: nat)
    ensures k <= |rows|
  {
    if |rows| > 0 && rows[0] == "" then 1 else 0
  }

  lemma ScanStart(rows: seq<string>)
    requires Ascending(rows)
    ensures ReadTo(rows, "", Skipped(rows))
  {
    assert forall i :: 0 < i < |rows| ==> Less(rows[0], rows[i]);
  }

  /** One cursor read returns the next rows in order and moves the cursor past exactly them. */
  lemma PageAdvances(rows: seq<string>, cursor: string, k: nat)
    requires Ascending(rows) && ReadTo(rows, cursor, k)
    ensures var page := Page(rows, cursor);
            && |page| <= PATH_BATCH && k + |page| <= |rows|
            && page == rows[k..k + |page|]
            && |page| == (if |rows| - k <= PATH_BATCH then |rows| - k else PATH_BATCH)
            && (page == [] <==> k == |rows|)
            && (page != [] ==> ReadTo(rows, page[|page| - 1], k + |page|))
  {
    RankIsReadTo(rows, cursor, k);
    var page := Page(rows, cursor);
    if page != [] {
      var last := k + |page| - 1;
      assert page[|page| - 1] == rows[last];
    }
  }

  /** Inserting a path keeps primary-key order and ignores a duplicate. */
  function Insert(rows: seq<string>, path: string): seq<string> {
    if rows == [] || Less(path, rows[0]) then [path] + rows
    else if rows[0] == path then rows
    else [rows[0]] + Insert(rows[1..], path)
  }

  lemma {:induction false} InsertSpec(rows: seq<string>, path: string)
    requires Ascending(rows)
    ensures Ascending(Insert(rows, path))
    ensures forall p :: p in Insert(rows, path) <==> p == path || p in rows
    ensures |Insert(rows, path)| == |rows| + if path in rows then 0 else 1
  {
    if rows != [] && Less(path, rows[0]) {
      forall i | 0 <= i < |rows| ensures Less(path, rows[i]) {
        if i > 0 { LessTransitive(path, rows[0], rows[i]); }
      }
      if path in rows { LessIrreflexive(path); }
    } else if rows != [] && rows[0] != path {
      LessTotal(path, rows[0]);
      InsertSpec(rows[1..], path);
      var tail := Insert(rows[1..], path);
      forall i | 0 <= i < |tail| ensures Less(rows[0], tail[i]) {
        assert tail[i] in tail;
        if tail[i] != path {
          var j :| 0 <= j < |rows[1..]| && rows[1..][j] == tail[i];
          assert Less(rows[0], rows[j + 1]);
        }
      }
      assert forall p :: p in rows <==> p == rows[0] || p in rows[1..];
    }
  }

  function InsertAll(rows: seq<string>, paths: seq<string>): seq<string>
    decreases |paths|
  {
    if paths == [] then rows else InsertAll(Insert(rows, paths[0]), paths[1..])
  }

  lemma {:induction false} InsertAllSpec(rows: seq<string>, paths: seq<string>)
    requires Ascending(rows)
    ensures Ascending(InsertAll(rows, paths))
    ensures forall p :: p in InsertAll(rows, paths) <==> p in rows || p in paths
    ensures |InsertAll(rows, paths)| >= |rows|
    decreases |paths|
  {
    if paths != [] {
      InsertSpec(rows, paths[0]);
      InsertAllSpec(Insert(rows, paths[0]), paths[1..]);
      assert forall p :: p in paths <==> p == paths[0] || p in paths[1..];
    }
  }

  lemma SliceStep<T>(s: seq<T>, a: nat, b: nat, c: nat)
    requires a <= b <= c <= |s|
    ensures s[a..b] + s[b..c] == s[a..c]
  {
  }

  /** Distinct paths kept in order; `len` is kept from the affected-row counts. */
  class PathSet {
    var rows: seq<string>
    var len: nat

    ghost predicate Valid()
      reads this
    {
      Ascending(rows) && len == |rows|
    }

    ghost function Contents(): set<string>
      reads this
    {
      AsSet(rows)
    }

    constructor ()
      ensures Valid() && Contents() == {} && rows == []
    {
      rows := [];
      len := 0;
    }

    /** Inserts in bounded chunks, ignoring duplicates and counting only new rows. */
    method InsertBatch(paths: seq<string>)
      requires Valid()
      modifies this
      ensures Valid()
      ensures Contents() == old(Contents()) + AsSet(paths)
    {
      var done := 0;
      while done < |paths|
        invariant 0 <= done <= |paths|
        invariant Valid()
        invariant forall p :: p in rows <==> p in old(rows) || p in paths[..done]
      {
        var next := if done + PATH_BATCH <= |paths| then done + PATH_BATCH else |paths|;
        var chunk := paths[done..next];
        InsertAllSpec(rows, chunk);
        var inserted := InsertAll(rows, chunk);
        assert paths[..next] == paths[..done] + chunk;
        len := len + (|inserted| - |rows|);
        rows := inserted;
        done := next;
      }
      assert paths[..done] == paths;
    }

    method IsEmpty() returns (empty: bool)
      requires Valid()
      ensures empty <==> Contents() == {}
    {
      empty := len == 0;
      if |rows| > 0 { assert rows[0] in Contents(); }
    }

    method Batch(after: string) returns (page: seq<string>)
      ensures page == Page(rows, after)
    {
      page := Page(rows, after);
    }

    /** Reads the whole set page by page, the way every consumer does. */
    method Drain() returns (paths: seq<string>)
      requires Valid()
      ensures paths == rows[Skipped(rows)..]
      ensures AsSet(paths) == Contents() - {""}
    {
      hide Less, AtMost, Ascending, ReadTo, Rank, Page, Skipped;
      paths := [];
      var cursor := "";
      ghost var k: nat := Skipped(rows);
      ScanStart(rows);
      var page := Batch(cursor);
      while page != []
        invariant ReadTo(rows, cursor, k) && Skipped(rows) <= k <= |rows|
        invariant page == Page(rows, cursor)
        invariant paths == rows[Skipped(rows)..k]
        decreases |rows| - k
      {
        PageAdvances(rows, cursor, k);
        SliceStep(rows, Skipped(rows), k, k + |page|);
        paths := paths + page;
        cursor := page[|page| - 1];
        k := k + |page|;
        page := Batch(cursor);
      }
      PageAdvances(rows, cursor, k);
      assert rows[Skipped(rows)..k] == rows[Skipped(rows)..];
      DrainedPaths(rows);
    }
  }

  lemma DrainedPaths(rows: seq<string>)
    requires Ascending(rows)
    ensures AsSet(rows[Skipped(rows)..]) == AsSet(rows) - {""}
  {
    if rows != [] {
      forall i | 0 < i < |rows| ensures rows[i] != "" { assert Less(rows[0], rows[i]); }
      assert rows == [rows[0]] + rows[1..];
      assert "" !in rows[1..];
    }
  }
}
