/** The document tables of one provider database and the rows they stand for. */
module Tables {
  import opened Wrappers
  import opened World
  import opened Store

  /** A row of the documents table. */
  datatype Doc = Doc(
    id: nat,
    url: string,
    trackingId: string,
    columns: Option<Inputs>,
    checks: string,
    retrievalError: Option<string>,
    versionCount: nat)

  /** A row of a child table: check failures, revisions or vulnerabilities. */
  datatype Child = Child(documentId: nat, text: string)

  /** The four tables and the auto-increment counter of the documents table, which never reuses an id. */
  datatype Tables = Tables(
    documents: seq<Doc>,
    failures: seq<Child>,
    revisions: seq<Child>,
    vulnerabilities: seq<Child>,
    nextId: nat)

  // ---------------------------------------------------------------- SQL statements

  /** DELETE of child rows by document id. */
  function DeleteChildren(children: seq<Child>, ids: set<nat>): seq<Child> {
    if children == [] then []
    else
      var n := |children| - 1;
      DeleteChildren(children[..n], ids) + if children[n].documentId in ids then [] else [children[n]]
  }

  /** DELETE of documents by id. */
  function DeleteDocs(documents: seq<Doc>, ids: set<nat>): (rest: seq<Doc>)
    ensures forall d :: d in rest <==> d in documents && d.id !in ids
  {
    if documents == [] then []
    else
      var n := |documents| - 1;
      DeleteDocs(documents[..n], ids) + if documents[n].id in ids then [] else [documents[n]]
  }

  /** The texts of one document's children, in insertion order. */
  function TextsOf(children: seq<Child>, id: nat): seq<string> {
    if children == [] then []
    else
      var n := |children| - 1;
      TextsOf(children[..n], id) + if children[n].documentId == id then [children[n].text] else []
  }

  function ChildrenOf(id: nat, texts: seq<string>): seq<Child> {
    if texts == [] then [] else ChildrenOf(id, texts[..|texts| - 1]) + [Child(id, texts[|texts| - 1])]
  }

  /** SELECT id of every document a save replaces. */
  function ReplacedIds(w: Environment, documents: seq<Doc>, url: string, trackingId: string): set<nat> {
    set d | d in documents && (d.url == url || Claims(w, trackingId, d.trackingId)) :: d.id
  }

  function UrlIds(documents: seq<Doc>, url: string): set<nat> {
    set d | d in documents && d.url == url :: d.id
  }

  /** The first document with a URL, if any. */
  function FindUrl(documents: seq<Doc>, url: string): (d: Option<Doc>)
    ensures d.Some? ==> d.value in documents && d.value.url == url
    ensures d.None? ==> forall x | x in documents :: x.url != url
  {
    if documents == [] then None
    else if documents[0].url == url then Some(documents[0])
    else FindUrl(documents[1..], url)
  }

  // ---------------------------------------------------------------- integrity

  ghost predicate DistinctDocs(documents: seq<Doc>) {
    forall i, j :: 0 <= i < j < |documents| ==> documents[i].id != documents[j].id && documents[i].url != documents[j].url
  }

  ghost predicate Attached(children: seq<Child>, documents: seq<Doc>) {
    forall c | c in children :: exists d | d in documents :: d.id == c.documentId
  }

  /** Document URLs and ids are unique, ids are below the counter, and no child row is orphaned. */
  ghost predicate Integrity(t: Tables) {
    && DistinctDocs(t.documents)
    && (forall d | d in t.documents :: d.id < t.nextId)
    && Attached(t.failures, t.documents)
    && Attached(t.revisions, t.documents)
    && Attached(t.vulnerabilities, t.documents)
  }

  // ---------------------------------------------------------------- the rows the tables stand for

  function UrlsOf(documents: seq<Doc>): set<string> {
    set d | d in documents :: d.url
  }

  function RowOf(t: Tables, d: Doc): Row {
    Row(Report(d.trackingId, d.columns, d.checks, d.retrievalError,
               TextsOf(t.failures, d.id), TextsOf(t.revisions, d.id), TextsOf(t.vulnerabilities, d.id)), d.versionCount)
  }

  function RowsOf(t: Tables): Rows {
    map u | u in UrlsOf(t.documents) :: RowOf(t, FindUrl(t.documents, u).value)
  }

  lemma SameUrlSameDoc(documents: seq<Doc>, a: Doc, b: Doc)
    requires DistinctDocs(documents) && a in documents && b in documents
    ensures a.url == b.url ==> a == b
    ensures a.id == b.id ==> a == b
  {
  }

  lemma RowAt(t: Tables, d: Doc)
    requires DistinctDocs(t.documents) && d in t.documents
    ensures d.url in RowsOf(t) && RowsOf(t)[d.url] == RowOf(t, d)
  {
    SameUrlSameDoc(t.documents, d, FindUrl(t.documents, d.url).value);
  }

  // ---------------------------------------------------------------- deleting documents with their children

  function Purge(t: Tables, ids: set<nat>): Tables {
    Tables(DeleteDocs(t.documents, ids), DeleteChildren(t.failures, ids), DeleteChildren(t.revisions, ids),
           DeleteChildren(t.vulnerabilities, ids), t.nextId)
  }

  lemma {:induction false} DeleteDocsDistinct(documents: seq<Doc>, ids: set<nat>)
    requires DistinctDocs(documents)
    ensures DistinctDocs(DeleteDocs(documents, ids))
  {
    if documents != [] {
      var n := |documents| - 1;
      DeleteDocsDistinct(documents[..n], ids);
      var rest := DeleteDocs(documents[..n], ids);
      forall i | 0 <= i < |rest| ensures rest[i].id != documents[n].id && rest[i].url != documents[n].url {
        assert rest[i] in documents[..n];
      }
    }
  }

  lemma TextsOfLast(children: seq<Child>, c: Child, id: nat)
    ensures TextsOf(children + [c], id) == TextsOf(children, id) + if c.documentId == id then [c.text] else []
  {
    assert (children + [c])[..|children|] == children;
  }

  lemma {:induction false} DeleteChildrenTexts(children: seq<Child>, ids: set<nat>, id: nat)
    ensures TextsOf(DeleteChildren(children, ids), id) == if id in ids then [] else TextsOf(children, id)
  {
    if children != [] {
      var n := |children| - 1;
      DeleteChildrenTexts(children[..n], ids, id);
      var rest := DeleteChildren(children[..n], ids);
      TextsOfLast(rest, children[n], id);
      assert rest + [] == rest;
    }
  }

  lemma {:induction false} DeletedChildren(children: seq<Child>, ids: set<nat>, c: Child)
    ensures c in DeleteChildren(children, ids) <==> c in children && c.documentId !in ids
  {
    if children != [] {
      var n := |children| - 1;
      DeletedChildren(children[..n], ids, c);
      assert children == children[..n] + [children[n]];
    }
  }

  lemma PurgeAttached(children: seq<Child>, documents: seq<Doc>, ids: set<nat>)
    requires Attached(children, documents)
    ensures Attached(DeleteChildren(children, ids), DeleteDocs(documents, ids))
  {
    forall c | c in DeleteChildren(children, ids) ensures exists d | d in DeleteDocs(documents, ids) :: d.id == c.documentId {
      DeletedChildren(children, ids, c);
      var d :| d in documents && d.id == c.documentId;
      assert d in DeleteDocs(documents, ids);
    }
  }

  lemma PurgeIntegrity(t: Tables, ids: set<nat>)
    requires Integrity(t)
    ensures Integrity(Purge(t, ids))
  {
    DeleteDocsDistinct(t.documents, ids);
    PurgeAttached(t.failures, t.documents, ids);
    PurgeAttached(t.revisions, t.documents, ids);
    PurgeAttached(t.vulnerabilities, t.documents, ids);
  }

  lemma PurgeRow(t: Tables, ids: set<nat>, d: Doc)
    requires d.id !in ids
    ensures RowOf(Purge(t, ids), d) == RowOf(t, d)
  {
    DeleteChildrenTexts(t.failures, ids, d.id);
    DeleteChildrenTexts(t.revisions, ids, d.id);
    DeleteChildrenTexts(t.vulnerabilities, ids, d.id);
  }

  /** Purging documents removes exactly their rows and leaves every other row whole. */
  lemma PurgeRows(t: Tables, ids: set<nat>)
    requires Integrity(t)
    ensures RowsOf(Purge(t, ids)) == map u | u in RowsOf(t) && FindUrl(t.documents, u).value.id !in ids :: RowsOf(t)[u]
  {
    hide RowOf, TextsOf, DeleteChildren;
    var p := Purge(t, ids);
    PurgeIntegrity(t, ids);
    forall u | u in RowsOf(p)
      ensures u in RowsOf(t) && FindUrl(t.documents, u).value.id !in ids && RowsOf(p)[u] == RowsOf(t)[u]
    {
      var d := FindUrl(p.documents, u).value;
      RowAt(t, d);
      RowAt(p, d);
      SameUrlSameDoc(t.documents, d, FindUrl(t.documents, u).value);
      PurgeRow(t, ids, d);
    }
    forall u | u in RowsOf(t) && FindUrl(t.documents, u).value.id !in ids ensures u in RowsOf(p) {
      var d := FindUrl(t.documents, u).value;
      assert d in p.documents;
      RowAt(p, d);
    }
  }

  // ---------------------------------------------------------------- inserting one document

  /** Inserts a document with its children under the next id. */
  function InsertDoc(t: Tables, url: string, report: Report, versionCount: nat): Tables {
    Tables(
      t.documents + [Doc(t.nextId, url, report.trackingId, report.columns, report.checks, report.retrievalError, versionCount)],
      t.failures + ChildrenOf(t.nextId, report.failures),
      t.revisions + ChildrenOf(t.nextId, report.revisions),
      t.vulnerabilities + ChildrenOf(t.nextId, report.vulnerabilities),
      t.nextId + 1)
  }

  lemma AppendAssociative<T>(a: seq<T>, b: seq<T>, c: seq<T>)
    ensures a + (b + c) == (a + b) + c
  {
  }

  lemma {:induction false} OwnedChildren(owner: nat, texts: seq<string>)
    ensures forall c | c in ChildrenOf(owner, texts) :: c.documentId == owner
  {
    if texts != [] { OwnedChildren(owner, texts[..|texts| - 1]); }
  }

  lemma {:induction false} TextsOfAppended(children: seq<Child>, owner: nat, texts: seq<string>, id: nat)
    ensures TextsOf(children + ChildrenOf(owner, texts), id) == TextsOf(children, id) + if id == owner then texts else []
  {
    if texts == [] {
      assert children + ChildrenOf(owner, texts) == children;
    } else {
      var n := |texts| - 1;
      TextsOfAppended(children, owner, texts[..n], id);
      TextsOfLast(children + ChildrenOf(owner, texts[..n]), Child(owner, texts[n]), id);
      AppendAssociative(children, ChildrenOf(owner, texts[..n]), [Child(owner, texts[n])]);
      assert texts == texts[..n] + [texts[n]];
    }
  }

  lemma {:induction false} NoTextsWithoutDocument(children: seq<Child>, id: nat)
    requires forall c | c in children :: c.documentId != id
    ensures TextsOf(children, id) == []
  {
    if children != [] { NoTextsWithoutDocument(children[..|children| - 1], id); }
  }

  lemma AttachedBelow(children: seq<Child>, t: Tables)
    requires Integrity(t) && Attached(children, t.documents)
    ensures TextsOf(children, t.nextId) == []
  {
    NoTextsWithoutDocument(children, t.nextId);
  }

  lemma InsertAttached(children: seq<Child>, documents: seq<Doc>, d: Doc, texts: seq<string>)
    requires Attached(children, documents)
    ensures Attached(children + ChildrenOf(d.id, texts), documents + [d])
  {
    OwnedChildren(d.id, texts);
    forall c | c in children + ChildrenOf(d.id, texts) ensures exists x | x in documents + [d] :: x.id == c.documentId {
      if c in children {
        var x :| x in documents && x.id == c.documentId;
        assert x in documents + [d];
      } else {
        assert d in documents + [d];
      }
    }
  }

  lemma InsertIntegrity(t: Tables, url: string, report: Report, versionCount: nat)
    requires Integrity(t) && url !in UrlsOf(t.documents)
    ensures Integrity(InsertDoc(t, url, report, versionCount))
  {
    var d := Doc(t.nextId, url, report.trackingId, report.columns, report.checks, report.retrievalError, versionCount);
    forall i | 0 <= i < |t.documents| ensures t.documents[i].id != d.id && t.documents[i].url != url {
      assert t.documents[i] in t.documents;
    }
    InsertAttached(t.failures, t.documents, d, report.failures);
    InsertAttached(t.revisions, t.documents, d, report.revisions);
    InsertAttached(t.vulnerabilities, t.documents, d, report.vulnerabilities);
  }

  lemma InsertedRow(t: Tables, url: string, report: Report, versionCount: nat, d: Doc)
    requires Integrity(t) && d in InsertDoc(t, url, report, versionCount).documents
    ensures RowOf(InsertDoc(t, url, report, versionCount), d)
            == if d.id == t.nextId then Row(report, versionCount) else RowOf(t, d)
  {
    TextsOfAppended(t.failures, t.nextId, report.failures, d.id);
    TextsOfAppended(t.revisions, t.nextId, report.revisions, d.id);
    TextsOfAppended(t.vulnerabilities, t.nextId, report.vulnerabilities, d.id);
    AttachedBelow(t.failures, t);
    AttachedBelow(t.revisions, t);
    AttachedBelow(t.vulnerabilities, t);
  }

  lemma InsertedDocs(t: Tables, url: string, report: Report, versionCount: nat)
    ensures var p := InsertDoc(t, url, report, versionCount);
            && UrlsOf(p.documents) == UrlsOf(t.documents) + {url}
            && (forall d | d in p.documents :: d in t.documents || (d.id == t.nextId && d.url == url))
            && (forall d | d in t.documents :: d in p.documents)
            && exists d | d in p.documents :: d.id == t.nextId && d.url == url
  {
    var p := InsertDoc(t, url, report, versionCount);
    assert p.documents[|t.documents|] in p.documents;
  }

  /** Inserting under a new URL adds exactly one row, which is the report with all its children. */
  lemma InsertRows(t: Tables, url: string, report: Report, versionCount: nat)
    requires Integrity(t) && url !in UrlsOf(t.documents)
    ensures RowsOf(InsertDoc(t, url, report, versionCount)) == RowsOf(t)[url := Row(report, versionCount)]
  {
    hide RowOf, InsertDoc, TextsOf;
    var p := InsertDoc(t, url, report, versionCount);
    InsertIntegrity(t, url, report, versionCount);
    InsertedDocs(t, url, report, versionCount);
    forall u | u in UrlsOf(p.documents)
      ensures RowsOf(p)[u] == if u == url then Row(report, versionCount) else RowsOf(t)[u]
    {
      var d := FindUrl(p.documents, u).value;
      InsertedRow(t, url, report, versionCount, d);
      if u == url {
        var x :| x in p.documents && x.id == t.nextId && x.url == url;
        SameUrlSameDoc(p.documents, x, d);
      } else {
        RowAt(t, d);
      }
    }
  }

  // ---------------------------------------------------------------- the transactions

  /** Replaces whatever has the URL or a claimed tracking id, keeping the count of the URL's own row. */
  function SaveInto(w: Environment, t: Tables, url: string, report: Report): Tables {
    var previous := FindUrl(t.documents, url);
    InsertDoc(Purge(t, ReplacedIds(w, t.documents, url, report.trackingId)), url, report,
              if previous.Some? then previous.value.versionCount else 1)
  }

  lemma ReplacedIdsSpec(w: Environment, t: Tables, url: string, trackingId: string, d: Doc)
    requires Integrity(t) && d in t.documents
    ensures d.id in ReplacedIds(w, t.documents, url, trackingId) <==> d.url == url || Claims(w, trackingId, d.trackingId)
  {
    if d.id in ReplacedIds(w, t.documents, url, trackingId) {
      var x :| x in t.documents && (x.url == url || Claims(w, trackingId, x.trackingId)) && x.id == d.id;
      SameUrlSameDoc(t.documents, x, d);
    }
  }

  lemma UnreplacedRows(w: Environment, t: Tables, url: string, trackingId: string)
    requires Integrity(t)
    ensures var p := Purge(t, ReplacedIds(w, t.documents, url, trackingId));
            && Integrity(p) && url !in UrlsOf(p.documents)
            && RowsOf(p) == map u | u in RowsOf(t) && u != url && !Claims(w, trackingId, RowsOf(t)[u].report.trackingId) :: RowsOf(t)[u]
  {
    hide Purge, TextsOf, Claims, ReplacedIds, Integrity, RowsOf, FindUrl;
    var ids := ReplacedIds(w, t.documents, url, trackingId);
    PurgeIntegrity(t, ids);
    PurgeRows(t, ids);
    PurgedUrls(t, ids);
    RowUrls(t);
    RowsAreRowOf(t);
    forall d | d in t.documents ensures d.id in ids <==> d.url == url || Claims(w, trackingId, d.trackingId) {
      ReplacedIdsSpec(w, t, url, trackingId, d);
    }
  }

  /** A save on the tables is a save on the rows. */
  lemma SaveIntoRows(w: Environment, t: Tables, url: string, report: Report)
    requires Integrity(t)
    ensures Integrity(SaveInto(w, t, url, report))
    ensures RowsOf(SaveInto(w, t, url, report)) == SaveRow(w, RowsOf(t), url, report)
  {
    hide Purge, InsertDoc, TextsOf, Claims, ReplacedIds, Integrity;
    UnreplacedRows(w, t, url, report.trackingId);
    var p := Purge(t, ReplacedIds(w, t.documents, url, report.trackingId));
    var count := CountOr1(RowsOf(t), url);
    InsertIntegrity(p, url, report, count);
    InsertRows(p, url, report, count);
  }

  lemma PurgedUrls(t: Tables, ids: set<nat>)
    ensures forall u :: u in UrlsOf(Purge(t, ids).documents) <==> exists d | d in t.documents :: d.id !in ids && d.url == u
  {
  }

  /** Right after a save, the saved document is the only one with its URL or its tracking id,
      and the only one its tracking id could still claim. */
  lemma SavedIsAlone(w: Environment, t: Tables, url: string, report: Report, d: Doc)
    requires Integrity(t) && d in SaveInto(w, t, url, report).documents
    ensures d.id == t.nextId || (d.url != url && !Claims(w, report.trackingId, d.trackingId))
    ensures d.id == t.nextId ==> d.url == url && d.trackingId == report.trackingId
    ensures d.id != t.nextId ==> d.trackingId != report.trackingId && !FileForm(w, report.trackingId, d.trackingId)
  {
    hide Claims, FileForm;
    if d.id != t.nextId {
      ReplacedIdsSpec(w, t, url, report.trackingId, d);
      ClaimsIs(w, report.trackingId, d.trackingId);
    }
  }

  /** A save removes no document but those with the URL, the tracking id or its filename form. */
  lemma SavedReplacesOnly(w: Environment, t: Tables, url: string, report: Report, d: Doc)
    requires Integrity(t) && d in t.documents && d.url != url
    requires d.trackingId != report.trackingId && !FileForm(w, report.trackingId, d.trackingId)
    ensures d in SaveInto(w, t, url, report).documents
  {
    hide Claims, FileForm;
    ReplacedIdsSpec(w, t, url, report.trackingId, d);
    ClaimsIs(w, report.trackingId, d.trackingId);
  }

  /** An UPDATE: the same documents with other columns. */
  function MapDocs(documents: seq<Doc>, change: Doc -> Doc): seq<Doc> {
    seq(|documents|, k requires 0 <= k < |documents| => change(documents[k]))
  }

  ghost predicate KeepsKeys(change: Doc -> Doc) {
    forall d :: change(d).id == d.id && change(d).url == d.url
  }

  lemma MappedDocs(documents: seq<Doc>, change: Doc -> Doc)
    requires KeepsKeys(change)
    ensures UrlsOf(MapDocs(documents, change)) == UrlsOf(documents)
    ensures forall d | d in documents :: change(d) in MapDocs(documents, change)
    ensures forall x | x in MapDocs(documents, change) :: exists d :: d in documents && x == change(d)
  {
    var mapped := MapDocs(documents, change);
    forall d | d in documents ensures change(d) in mapped {
      var k :| 0 <= k < |documents| && documents[k] == d;
      assert mapped[k] == change(d);
    }
    forall u | u in UrlsOf(documents) ensures u in UrlsOf(mapped) {
      var d :| d in documents && d.url == u;
      assert change(d) in mapped;
    }
  }

  lemma MappedAttached(children: seq<Child>, documents: seq<Doc>, change: Doc -> Doc)
    requires KeepsKeys(change) && Attached(children, documents)
    ensures Attached(children, MapDocs(documents, change))
  {
    MappedDocs(documents, change);
    forall c | c in children ensures exists x | x in MapDocs(documents, change) :: x.id == c.documentId {
      var d :| d in documents && d.id == c.documentId;
      assert change(d) in MapDocs(documents, change);
    }
  }

  /** An update that keeps ids and URLs changes only the updated columns of the rows. */
  lemma MappedRows(t: Tables, change: Doc -> Doc)
    requires Integrity(t) && KeepsKeys(change)
    ensures var p := t.(documents := MapDocs(t.documents, change));
            && Integrity(p)
            && RowsOf(p) == map u | u in RowsOf(t) :: RowOf(t, change(FindUrl(t.documents, u).value))
  {
    hide TextsOf;
    var p := t.(documents := MapDocs(t.documents, change));
    MappedDocs(t.documents, change);
    MappedAttached(t.failures, t.documents, change);
    MappedAttached(t.revisions, t.documents, change);
    MappedAttached(t.vulnerabilities, t.documents, change);
    forall u | u in UrlsOf(t.documents) ensures RowsOf(p)[u] == RowOf(t, change(FindUrl(t.documents, u).value)) {
      var d := FindUrl(t.documents, u).value;
      RowAt(p, change(d));
    }
  }

  function Failing(id: nat, checks: string, error: string): Doc -> Doc {
    (d: Doc) => if d.id == id then d.(checks := checks, retrievalError := Some(error)) else d
  }

  /** Marks the URL's document, or inserts a stub for it. */
  function FailInto(w: Environment, t: Tables, f: Failure): Tables {
    var checks := w.failedChecks(f.error, f.missing);
    match FindUrl(t.documents, f.url)
    case Some(d) =>
      if d.retrievalError == Some(f.error) && d.checks == checks then t
      else t.(documents := MapDocs(t.documents, Failing(d.id, checks, f.error)))
    case None => InsertDoc(t, f.url, StubReport(w, f), 1)
  }

  /** The document already records this very failure. */
  predicate SameFailure(w: Environment, t: Tables, f: Failure) {
    var d := FindUrl(t.documents, f.url);
    d.Some? && d.value.retrievalError == Some(f.error) && d.value.checks == w.failedChecks(f.error, f.missing)
  }

  lemma SameFailureIff(w: Environment, t: Tables, f: Failure)
    requires Integrity(t)
    ensures SameFailure(w, t, f) <==> AlreadyFailed(w, RowsOf(t), f)
    ensures f.url in RowsOf(t) <==> FindUrl(t.documents, f.url).Some?
  {
    hide TextsOf;
    if FindUrl(t.documents, f.url).Some? { RowAt(t, FindUrl(t.documents, f.url).value); }
  }

  lemma MarkedDoc(w: Environment, t: Tables, d: Doc, f: Failure)
    requires Integrity(t) && FindUrl(t.documents, f.url) == Some(d)
    ensures var checks := w.failedChecks(f.error, f.missing);
            var p := t.(documents := MapDocs(t.documents, Failing(d.id, checks, f.error)));
            && Integrity(p) && f.url in RowsOf(t)
            && RowsOf(p) == RowsOf(t)[f.url := RowsOf(t)[f.url].(report := RowsOf(t)[f.url].report.(checks := checks, retrievalError := Some(f.error)))]
  {
    hide TextsOf, Integrity, RowsOf, MapDocs, FindUrl;
    var checks := w.failedChecks(f.error, f.missing);
    var change := Failing(d.id, checks, f.error);
    MappedRows(t, change);
    RowUrls(t);
    forall u | u in RowsOf(t)
      ensures change(FindUrl(t.documents, u).value) == if u == f.url then change(d) else FindUrl(t.documents, u).value
    {
      if FindUrl(t.documents, u).value.id == d.id { SameId(t, FindUrl(t.documents, u).value, d); }
    }
    RowsAreRowOf(t);
  }

  lemma RowsAreRowOf(t: Tables)
    ensures forall u | u in RowsOf(t) :: FindUrl(t.documents, u).Some? && RowsOf(t)[u] == RowOf(t, FindUrl(t.documents, u).value)
  {
    hide RowOf;
  }

  /** Recording a failure on the tables is recording it on the rows. */
  lemma FailIntoRows(w: Environment, t: Tables, f: Failure)
    requires Integrity(t)
    ensures Integrity(FailInto(w, t, f)) && RowsOf(FailInto(w, t, f)) == SaveFailure(w, RowsOf(t), f)
  {
    hide TextsOf, InsertDoc, MapDocs, RowsOf, Integrity, AlreadyFailed, Failing;
    SameFailureIff(w, t, f);
    match FindUrl(t.documents, f.url)
    case Some(d) => MarkedDoc(w, t, d, f);
    case None =>
      InsertIntegrity(t, f.url, StubReport(w, f), 1);
      InsertRows(t, f.url, StubReport(w, f), 1);
  }

  lemma UrlIdsSpec(t: Tables, url: string, d: Doc)
    requires Integrity(t) && d in t.documents
    ensures d.id in UrlIds(t.documents, url) <==> d.url == url
  {
    hide Integrity;
    if d.id in UrlIds(t.documents, url) {
      var x :| x in t.documents && x.url == url && x.id == d.id;
      SameId(t, x, d);
    }
  }

  /** Deleting one URL on the tables is removing its row. */
  lemma PurgeUrlRows(t: Tables, url: string)
    requires Integrity(t)
    ensures var p := Purge(t, UrlIds(t.documents, url));
            Integrity(p) && RowsOf(p) == RowsOf(t) - {url}
    ensures UrlIds(t.documents, url) == {} <==> url !in RowsOf(t)
  {
    hide RowsOf, Purge, Integrity, UrlIds, FindUrl;
    var ids := UrlIds(t.documents, url);
    PurgeIntegrity(t, ids);
    PurgeRows(t, ids);
    RowUrls(t);
    forall u | u in RowsOf(t) ensures FindUrl(t.documents, u).value.id in ids <==> u == url {
      UrlIdsSpec(t, url, FindUrl(t.documents, u).value);
    }
    UrlIdsEmpty(t.documents, url);
  }

  lemma RowUrls(t: Tables)
    ensures RowsOf(t).Keys == UrlsOf(t.documents)
    ensures forall u | u in RowsOf(t) :: FindUrl(t.documents, u).Some? && FindUrl(t.documents, u).value in t.documents
                                         && FindUrl(t.documents, u).value.url == u
  {
  }

  lemma UrlIdsEmpty(documents: seq<Doc>, url: string)
    ensures UrlIds(documents, url) == {} <==> url !in UrlsOf(documents)
  {
    if url in UrlsOf(documents) {
      var d :| d in documents && d.url == url;
      assert d.id in UrlIds(documents, url);
    }
  }

  lemma SameId(t: Tables, a: Doc, b: Doc)
    requires Integrity(t) && a in t.documents && b in t.documents && a.id == b.id
    ensures a == b
  {
  }

  function Counting(counted: map<string, nat>): Doc -> Doc {
    (d: Doc) => if d.url in counted then d.(versionCount := counted[d.url]) else d
  }

  /** Setting counts on the tables is setting them on the rows. */
  lemma CountIntoRows(t: Tables, counted: map<string, nat>)
    requires Integrity(t)
    ensures var p := t.(documents := MapDocs(t.documents, Counting(counted)));
            && Integrity(p)
            && RowsOf(p) == map u | u in RowsOf(t) ::
                 if u in counted then RowsOf(t)[u].(versionCount := counted[u]) else RowsOf(t)[u]
  {
    hide TextsOf, Integrity;
    MappedRows(t, Counting(counted));
  }

  /** Emptying the child tables and then the documents, statement by statement. */
  function Emptied(t: Tables, statements: nat): Tables
    requires statements <= 4
  {
    var t1 := if statements >= 1 then t.(failures := []) else t;
    var t2 := if statements >= 2 then t1.(vulnerabilities := []) else t1;
    var t3 := if statements >= 3 then t2.(revisions := []) else t2;
    if statements >= 4 then t3.(documents := []) else t3
  }

  lemma EmptiedKeepsIntegrity(t: Tables, statements: nat)
    requires Integrity(t) && statements <= 4
    ensures Integrity(Emptied(t, statements))
  {
  }

  // ---------------------------------------------------------------- any sequence of transactions

  datatype Change =
    | Save(url: string, report: Report)
    | Fail(failure: Failure)
    | DeleteUrl(deleted: string)
    | Empty(statements: nat)
    | Recount(counts: map<string, nat>)

  function Apply(w: Environment, t: Tables, change: Change): Tables {
    match change
    case Save(url, report) => SaveInto(w, t, url, report)
    case Fail(f) => FailInto(w, t, f)
    case DeleteUrl(url) => Purge(t, UrlIds(t.documents, url))
    case Empty(statements) => Emptied(t, if statements <= 4 then statements else 4)
    case Recount(counts) => t.(documents := MapDocs(t.documents, Counting(counts)))
  }

  function ApplyAll(w: Environment, t: Tables, changes: seq<Change>): Tables
    decreases |changes|
  {
    if changes == [] then t else ApplyAll(w, Apply(w, t, changes[0]), changes[1..])
  }

  lemma ApplyKeepsIntegrity(w: Environment, t: Tables, change: Change)
    requires Integrity(t)
    ensures Integrity(Apply(w, t, change))
  {
    hide Integrity, SaveInto, FailInto, Purge, RowsOf, MapDocs;
    match change
    case Save(url, report) => SaveIntoRows(w, t, url, report);
    case Fail(f) => FailIntoRows(w, t, f);
    case DeleteUrl(url) => PurgeUrlRows(t, url);
    case Empty(statements) => EmptiedKeepsIntegrity(t, if statements <= 4 then statements else 4);
    case Recount(counts) => CountIntoRows(t, counts);
  }

  /** Over any interleaving of saves, failure marks, deletions (interrupted or not) and recounts,
      URLs stay unique and no check failure, revision or vulnerability loses its document. */
  lemma {:induction false} AlwaysIntegrity(w: Environment, t: Tables, changes: seq<Change>)
    requires Integrity(t)
    ensures Integrity(ApplyAll(w, t, changes))
    decreases |changes|
  {
    if changes != [] {
      ApplyKeepsIntegrity(w, t, changes[0]);
      AlwaysIntegrity(w, Apply(w, t, changes[0]), changes[1..]);
    }
  }
}
