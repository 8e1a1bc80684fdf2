/** Differential replacement of the documents each distribution lists. */
module Membership {
  import opened Strings

  /** Rows per statement. */
  const CHUNK: nat := 400

  /** The primary key of a membership row. */
  datatype Row = Row(distribution: string, document: string)

  /** One successfully read index. */
  datatype Index = Index(distribution: string, documents: set<string>)

  function DocumentsOf(rows: set<Row>, distribution: string): set<string> {
    set r | r in rows && r.distribution == distribution :: r.document
  }

  function RowsFor(distribution: string, documents: set<string>): set<Row> {
    set u | u in documents :: Row(distribution, u)
  }

  ghost predicate Distinct(documents: seq<string>) {
    forall i, j :: 0 <= i < j < |documents| ==> documents[i] != documents[j]
  }

  /** Each distribution is listed once, as in a map. */
  ghost predicate ValidMembership(membership: seq<Index>) {
    forall i, j :: 0 <= i < j < |membership| ==> membership[i].distribution != membership[j].distribution
  }

  /** The elements of a set, in some order. */
  method Elements(documents: set<string>) returns (s: seq<string>)
    ensures Distinct(s) && AsSet(s) == documents
  {
    s := [];
    var rest := documents;
    while rest != {}
      invariant Distinct(s) && AsSet(s) + rest == documents && AsSet(s) !! rest
      decreases |rest|
    {
      var u :| u in rest;
      assert u !in AsSet(s);
      rest := rest - {u};
      s := s + [u];
    }
  }

  /** What replacing one distribution's documents must leave. */
  function Replaced(rows: set<Row>, distribution: string, documents: set<string>): set<Row> {
    (set r | r in rows && r.distribution != distribution) + RowsFor(distribution, documents)
  }

  function ReplacedAll(rows: set<Row>, membership: seq<Index>): set<Row> {
    if membership == [] then rows
    else
      var last := membership[|membership| - 1];
      Replaced(ReplacedAll(rows, membership[..|membership| - 1]), last.distribution, last.documents)
  }

  class MembershipTable {
    var rows: set<Row>

    constructor ()
      ensures rows == {}
    {
      rows := {};
    }

    method DeleteRows(distribution: string, documents: seq<string>)
      modifies this
      ensures rows == old(rows) - RowsFor(distribution, AsSet(documents))
    {
      rows := rows - RowsFor(distribution, AsSet(documents));
    }

    /** An INSERT fails on an existing primary key, so it may only be given new ones. */
    method InsertRows(distribution: string, documents: seq<string>)
      requires Distinct(documents) && RowsFor(distribution, AsSet(documents)) !! rows
      modifies this
      ensures rows == old(rows) + RowsFor(distribution, AsSet(documents))
    {
      rows := rows + RowsFor(distribution, AsSet(documents));
    }

    /** Deletes documents no longer listed, in bounded statements. */
    method DeleteRemoved(distribution: string, removed: seq<string>)
      modifies this
      ensures rows == old(rows) - RowsFor(distribution, AsSet(removed))
    {
      hide RowsFor;
      var done := 0;
      NoRows(distribution);
      while done < |removed|
        invariant 0 <= done <= |removed|
        invariant rows == old(rows) - RowsFor(distribution, AsSet(removed[..done]))
      {
        var next := if done + CHUNK <= |removed| then done + CHUNK else |removed|;
        SplitRows(distribution, removed, done, next);
        DeleteRows(distribution, removed[done..next]);
        done := next;
      }
      assert removed[..done] == removed;
    }

    /** Inserts newly listed documents, in bounded statements, never one that is already there. */
    method InsertAdded(distribution: string, added: seq<string>)
      requires Distinct(added) && RowsFor(distribution, AsSet(added)) !! rows
      modifies this
      ensures rows == old(rows) + RowsFor(distribution, AsSet(added))
    {
      hide RowsFor;
      var done := 0;
      NoRows(distribution);
      while done < |added|
        invariant 0 <= done <= |added|
        invariant rows == old(rows) + RowsFor(distribution, AsSet(added[..done]))
      {
        var next := if done + CHUNK <= |added| then done + CHUNK else |added|;
        SplitRows(distribution, added, done, next);
        ChunkIsNew(distribution, added, done, next);
        InsertRows(distribution, added[done..next]);
        done := next;
      }
      assert added[..done] == added;
    }

    /** Replaces every given distribution's documents in one transaction, touching only the differences. */
    method SaveDistributionMembership(membership: seq<Index>)
      modifies this
      ensures rows == ReplacedAll(old(rows), membership)
      ensures ValidMembership(membership) ==> forall d, u ::
                (Row(d, u) in rows <==>
                   || (exists x :: x in membership && x.distribution == d && u in x.documents)
                   || (Row(d, u) in old(rows) && forall x | x in membership :: x.distribution != d))
    {
      hide Replaced;
      for i := 0 to |membership|
        invariant rows == ReplacedAll(old(rows), membership[..i])
      {
        assert membership[..i + 1][..i] == membership[..i];
        SaveOne(membership[i]);
      }
      assert membership[..|membership|] == membership;
      if ValidMembership(membership) { ListedExactly(old(rows), membership); }
    }

    method SaveOne(index: Index)
      modifies this
      ensures rows == Replaced(old(rows), index.distribution, index.documents)
    {
      var previous := DocumentsOf(rows, index.distribution);
      var removed := Elements(previous - index.documents);
      var added := Elements(index.documents - previous);
      DifferenceIsReplacement(rows, index.distribution, index.documents);
      DeleteRemoved(index.distribution, removed);
      InsertAdded(index.distribution, added);
    }
  }

  lemma DocumentsAre(rows: set<Row>, distribution: string, document: string)
    ensures document in DocumentsOf(rows, distribution) <==> Row(distribution, document) in rows
  {
    if document in DocumentsOf(rows, distribution) {
      var r :| r in rows && r.distribution == distribution && r.document == document;
      assert r == Row(distribution, document);
    }
  }

  /** Row by row, what replacing leaves. */
  lemma ListedExactly(rows: set<Row>, membership: seq<Index>)
    requires ValidMembership(membership)
    ensures forall d, u :: (Row(d, u) in ReplacedAll(rows, membership) <==>
              || (exists x :: x in membership && x.distribution == d && u in x.documents)
              || (Row(d, u) in rows && forall x | x in membership :: x.distribution != d))
  {
    hide ReplacedAll, DocumentsOf;
    forall d, u ensures Row(d, u) in ReplacedAll(rows, membership) <==>
              || (exists x :: x in membership && x.distribution == d && u in x.documents)
              || (Row(d, u) in rows && forall x | x in membership :: x.distribution != d)
    {
      ReplacedAllExactly(rows, membership, d);
      DocumentsAre(rows, d, u);
      DocumentsAre(ReplacedAll(rows, membership), d, u);
      if x :| x in membership && x.distribution == d {
        forall y | y in membership && y.distribution == d ensures y == x {
          var i :| 0 <= i < |membership| && membership[i] == x;
          var j :| 0 <= j < |membership| && membership[j] == y;
        }
      }
    }
  }

  /** Deleting the removed and inserting the added documents replaces the listing, and the inserted rows are new. */
  lemma DifferenceIsReplacement(rows: set<Row>, distribution: string, documents: set<string>)
    ensures var previous := DocumentsOf(rows, distribution);
            var removed, added := RowsFor(distribution, previous - documents), RowsFor(distribution, documents - previous);
            added !! rows - removed && rows - removed + added == Replaced(rows, distribution, documents)
  {
    var previous := DocumentsOf(rows, distribution);
    var removed, added := RowsFor(distribution, previous - documents), RowsFor(distribution, documents - previous);
    forall r | r in Replaced(rows, distribution, documents) ensures r in rows - removed + added {
      if r.distribution == distribution && r.document in previous {
        var x :| x in rows && x.distribution == distribution && x.document == r.document;
        assert x == r;
      }
    }
  }

  lemma NoRows(distribution: string)
    ensures RowsFor(distribution, AsSet([])) == {}
  {
  }

  lemma SplitRows(distribution: string, documents: seq<string>, a: nat, b: nat)
    requires a <= b <= |documents|
    ensures RowsFor(distribution, AsSet(documents[..b]))
            == RowsFor(distribution, AsSet(documents[..a])) + RowsFor(distribution, AsSet(documents[a..b]))
  {
    assert documents[..b] == documents[..a] + documents[a..b];
  }

  /** A chunk of distinct new documents meets neither the stored rows nor earlier chunks. */
  lemma ChunkIsNew(distribution: string, documents: seq<string>, a: nat, b: nat)
    requires Distinct(documents) && a <= b <= |documents|
    ensures Distinct(documents[a..b])
    ensures RowsFor(distribution, AsSet(documents[a..b])) !! RowsFor(distribution, AsSet(documents[..a]))
    ensures RowsFor(distribution, AsSet(documents[a..b])) <= RowsFor(distribution, AsSet(documents))
  {
  }

  lemma OthersUntouched(rows: set<Row>, distribution: string, documents: set<string>, other: string)
    requires other != distribution
    ensures DocumentsOf(Replaced(rows, distribution, documents), other) == DocumentsOf(rows, other)
  {
  }

  lemma ReplacedExactly(rows: set<Row>, distribution: string, documents: set<string>)
    ensures DocumentsOf(Replaced(rows, distribution, documents), distribution) == documents
  {
    forall u | u in documents ensures u in DocumentsOf(Replaced(rows, distribution, documents), distribution) {
      assert Row(distribution, u) in Replaced(rows, distribution, documents);
    }
  }

  /** Replacement gives every listed distribution exactly its documents and leaves all others alone. */
  lemma {:induction false} ReplacedAllExactly(rows: set<Row>, membership: seq<Index>, distribution: string)
    requires ValidMembership(membership)
    ensures forall x | x in membership && x.distribution == distribution ::
              DocumentsOf(ReplacedAll(rows, membership), distribution) == x.documents
    ensures (forall x | x in membership :: x.distribution != distribution) ==>
              DocumentsOf(ReplacedAll(rows, membership), distribution) == DocumentsOf(rows, distribution)
  {
    hide Replaced, DocumentsOf, Distinct;
    if membership != [] {
      var n := |membership| - 1;
      var before, last := ReplacedAll(rows, membership[..n]), membership[n];
      ReplacedAllExactly(rows, membership[..n], distribution);
      ReplacedExactly(before, last.distribution, last.documents);
      if last.distribution != distribution { OthersUntouched(before, last.distribution, last.documents, distribution); }
      assert membership == membership[..n] + [last];
    }
  }
}
