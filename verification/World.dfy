/** What the pipeline is given: validation, URL parsing and diff order, all left uninterpreted. */
module World {
  import opened Wrappers
  import opened Strings
  import opened Paths
  import opened History

  /** Everything one validation depends on; the fingerprint stands for all shared inputs. */
  datatype Inputs = Inputs(
    fingerprint: string,
    path: string,
    blob: Oid,
    asc: Option<Oid>,
    sha256: Option<Oid>,
    sha512: Option<Oid>)

  /** A stored result. `columns` stands for every column derived from the inputs, by naming them. */
  datatype Report = Report(
    trackingId: string,
    columns: Option<Inputs>,
    checks: string,
    retrievalError: Option<string>,
    failures: seq<string>,
    revisions: seq<string>,
    vulnerabilities: seq<string>)

  datatype Environment = Environment(
    validate: Inputs -> Report,
    failedChecks: (string, bool) -> string,
    /** Hash of the validator identity and the shared inputs; None when the metadata is malformed. */
    fingerprint: (string, Tree) -> Option<string>,
    /** None for a malformed URL, Some(None) for one without a host or a path. */
    gitPath: string -> Option<Option<string>>,
    order: (Tree, Tree) -> seq<string>,
    lower: string -> string,
    /** Which tracking ids a URL is ever stored with. */
    carries: (string, string) -> bool)

  function Validate(w: Environment, x: Inputs): Report {
    w.validate(x).(columns := Some(x))
  }

  /** What is really stored: a report without the provenance only this model keeps. */
  function Bare(report: Report): Report {
    report.(columns := None)
  }

  lemma ValidateIsBare(w: Environment, x: Inputs)
    ensures Bare(Validate(w, x)) == Bare(w.validate(x)) && Validate(w, x).columns == Some(x)
  {
  }

  function InputsAt(tree: Tree, path: string, fingerprint: string): Inputs
    requires path in tree
  {
    Inputs(fingerprint, path, tree[path], At(tree, path + ASC), At(tree, path + SHA256), At(tree, path + SHA512))
  }

  /** The report stores what the validator says of the file `p`, its signature and its digests, each found under its own name. */
  predicate StoresValidation(w: Environment, tree: Tree, fingerprint: string, p: string, report: Report)
    requires p in tree
  {
    var asc := if p + ".asc" in tree then Some(tree[p + ".asc"]) else None;
    var sha256 := if p + ".sha256" in tree then Some(tree[p + ".sha256"]) else None;
    var sha512 := if p + ".sha512" in tree then Some(tree[p + ".sha512"]) else None;
    report.(columns := None) == w.validate(Inputs(fingerprint, p, tree[p], asc, sha256, sha512)).(columns := None)
  }

  lemma ValidateStores(w: Environment, tree: Tree, p: string, fingerprint: string)
    requires p in tree
    ensures StoresValidation(w, tree, fingerprint, p, Validate(w, InputsAt(tree, p, fingerprint)))
  {
  }

  /** Same content of all four files, so the same inputs under the same fingerprint. */
  lemma SameInputs(a: Tree, b: Tree, path: string, fingerprint: string)
    requires path in a && forall p | p in InputPaths(path) :: At(a, p) == At(b, p)
    ensures path in b && InputsAt(a, path, fingerprint) == InputsAt(b, path, fingerprint)
  {
    assert path in InputPaths(path);
  }

  predicate LossyKeeps(c: char) {
    'a' <= c <= 'z' || '0' <= c <= '9' || c == '+' || c == '-'
  }

  /** The filename form of a tracking id: lower case, every other character replaced by '_'. */
  function Lossy(w: Environment, id: string): string {
    var low := w.lower(id);
    seq(|low|, k requires 0 <= k < |low| => if LossyKeeps(low[k]) then low[k] else '_')
  }

  /** Rows a saved document replaces by tracking id alone. */
  predicate Claims(w: Environment, saved: string, stored: string) {
    stored == saved || stored == Lossy(w, saved)
  }

  /** The stored id is the filename form of the saved one, character by character. */
  predicate FileForm(w: Environment, saved: string, stored: string) {
    var low := w.lower(saved);
    && |stored| == |low|
    && forall k :: 0 <= k < |low| ==>
         stored[k] == if 'a' <= low[k] <= 'z' || '0' <= low[k] <= '9' || low[k] == '+' || low[k] == '-' then low[k] else '_'
  }

  lemma ClaimsIs(w: Environment, saved: string, stored: string)
    ensures Claims(w, saved, stored) <==> stored == saved || FileForm(w, saved, stored)
  {
    if FileForm(w, saved, stored) { assert stored == Lossy(w, saved); }
  }

  /** No two different URLs ever carry colliding tracking ids. */
  ghost predicate Separated(w: Environment) {
    forall u, t, v, s :: w.carries(u, t) && w.carries(v, s) && u != v ==> !Claims(w, t, s)
  }

  function LastSegment(url: string): string {
    if url == "" then ""
    else if url[|url| - 1] == '/' then ""
    else LastSegment(url[..|url| - 1]) + [url[|url| - 1]]
  }

  function TrimJson(name: string): string {
    if EndsWith(name, ".json") then TrimJson(name[..|name| - 5]) else name
  }

  /** The synthetic tracking id of a document that was never retrieved. */
  function TrackingIdFromUrl(url: string): string {
    TrimJson(LastSegment(url))
  }

  lemma {:induction false} LastSegmentOf(front: string, name: string)
    requires '/' !in name
    ensures LastSegment(front + "/" + name) == name
  {
    var url := front + "/" + name;
    if name == "" {
      assert url[|url| - 1] == '/';
    } else {
      var n := |name| - 1;
      assert url[..|url| - 1] == front + "/" + name[..n];
      assert url[|url| - 1] == name[n] && name[n] in name;
      assert forall c | c in name[..n] :: c in name;
      LastSegmentOf(front, name[..n]);
    }
  }

  /** A document that was never retrieved is known by its file name without the extension. */
  lemma NeverRetrievedId(front: string, name: string)
    requires '/' !in name && !EndsWith(name, ".json")
    ensures TrackingIdFromUrl(front + "/" + name + ".json") == name
    ensures TrackingIdFromUrl(front + "/" + name) == name
  {
    var file := name + ".json";
    assert front + "/" + name + ".json" == front + "/" + file;
    assert '/' !in file;
    LastSegmentOf(front, file);
    LastSegmentOf(front, name);
    assert file[..|file| - 5] == name && EndsWith(file, ".json");
    assert TrimJson(file) == TrimJson(name) == name;
    assert (front + "/" + name) + ".json" == front + "/" + file;
  }
}
