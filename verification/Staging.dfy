/** Staging downloaded files over the committed snapshot, packing their blobs, and publishing the result. */
module Staging {
  import opened Wrappers
  import opened Strings
  import opened Paths
  import opened History

  type Content = string

  /** Scratch files by physical path. `keys` is whether a downloaded key directory exists. */
  datatype Scratch = Scratch(files: map<string, Content>, keys: bool)

  /** Content hashing, decompression (None when corrupt) and sizes. */
  datatype Codec = Codec(blob: Content -> Oid, decode: Content -> Option<Content>, size: Content -> nat)

  const COMPRESSED := ".zst"
  const KEYS := "metadata/keys/"
  const SUFFIXES: seq<string> := [ASC, SHA256, SHA512]

  /** Maps a compressed advisory's filename to its Git path. */
  function LogicalPath(path: string): string {
    if EndsWith(path, ".json.zst") then path[..|path| - |COMPRESSED|] else path
  }

  function FileName(path: string): string
    decreases |path|
  {
    if path == "" || path[|path| - 1] == '/' then ""
    else FileName(path[..|path| - 1]) + [path[|path| - 1]]
  }

  /** A file whose name has the extension `json`; a bare `.json` has none. */
  predicate HasJsonExtension(path: string) {
    EndsWith(path, ".json") && |FileName(path)| > 5
  }

  predicate InMetadata(path: string) {
    path == "metadata" || StartsWith(path, "metadata/")
  }

  /** Whether downloading this file decides which of its sidecars exist. */
  predicate OwnsSidecars(path: string) {
    HasJsonExtension(LogicalPath(path)) && !InMetadata(LogicalPath(path))
  }

  predicate Exists(s: Scratch, path: string) {
    path in s.files || exists q | q in s.files :: StartsWith(q, path + "/")
  }

  /** A key directory is seen whenever a key was downloaded, and no file is also a directory. */
  predicate ValidScratch(s: Scratch) {
    && (forall f | f in s.files :: StartsWith(f, KEYS) ==> s.keys)
    && (forall f, g | f in s.files && g in s.files :: !StartsWith(g, f + "/"))
  }

  /** The index cannot hold both paths, because one is a directory of the other: adding `p` removes `q`. */
  predicate Displaces(p: string, q: string) {
    StartsWith(q, p + "/") || StartsWith(p, q + "/")
  }

  /** Old content whose path a downloaded file needs as a directory, or the other way round. */
  predicate Displaced(s: Scratch, path: string) {
    exists f | f in s.files :: Displaces(LogicalPath(f), path)
  }

  /** Old content of a sidecar that was not downloaded with its advisory. */
  predicate AbsentSidecar(s: Scratch, path: string) {
    exists f, suffix | f in s.files && suffix in SUFFIXES :: OwnsSidecars(f) && path == LogicalPath(f) + suffix && !Exists(s, path)
  }

  predicate OldKey(s: Scratch, path: string) {
    s.keys && StartsWith(path, KEYS)
  }

  /** The bytes a scratch file stands for. */
  function Bytes(c: Codec, s: Scratch, file: string): Option<Content>
    requires file in s.files
  {
    if LogicalPath(file) != file then c.decode(s.files[file]) else Some(s.files[file])
  }

  /** Everything can be staged: no advisory twice, nothing corrupt. */
  predicate Stageable(c: Codec, s: Scratch) {
    forall f | f in s.files :: Accepted(c, s, f)
  }

  predicate Accepted(c: Codec, s: Scratch, f: string)
    requires f in s.files
  {
    Bytes(c, s, f).Some? && (LogicalPath(f) != f ==> !Exists(s, LogicalPath(f)))
  }

  function StagedId(c: Codec, s: Scratch, file: string): Oid
    requires file in s.files && Bytes(c, s, file).Some?
  {
    c.blob(Bytes(c, s, file).value)
  }

  /** What the staged index must map each path to, defined without any order. */
  ghost predicate Overlays(c: Codec, base: Tree, s: Scratch, index: Tree)
    requires Stageable(c, s)
  {
    && (forall f | f in s.files :: At(index, LogicalPath(f)) == Some(StagedId(c, s, f)))
    && (forall p | (forall f | f in s.files :: LogicalPath(f) != p) ::
          At(index, p) == if OldKey(s, p) || AbsentSidecar(s, p) || Displaced(s, p) then None else At(base, p))
  }

  // ---------------------------------------------------------------- one file

  function DropKeys(base: Tree, s: Scratch): Tree {
    if s.keys then map p | p in base && !StartsWith(p, KEYS) :: base[p] else base
  }

  /** Removes committed sidecars that were not downloaded. */
  function DropSidecars(index: Tree, s: Scratch, advisory: string, suffixes: seq<string>): Tree {
    if suffixes == [] then index
    else
      var rest := DropSidecars(index, s, advisory, suffixes[..|suffixes| - 1]);
      var sidecar := advisory + suffixes[|suffixes| - 1];
      if !Exists(s, sidecar) && sidecar in rest then rest - {sidecar} else rest
  }

  /** Adds an entry to the index, which makes room for it. */
  function AddEntry(index: Tree, path: string, id: Oid): Tree {
    (map p | p in index && !Displaces(path, p) :: index[p])[path := id]
  }

  function StageFile(c: Codec, index: Tree, s: Scratch, file: string): Tree
    requires file in s.files && Bytes(c, s, file).Some?
  {
    var logical := LogicalPath(file);
    AddEntry(if OwnsSidecars(file) then DropSidecars(index, s, logical, SUFFIXES) else index, logical, StagedId(c, s, file))
  }

  lemma {:induction false} DropSidecarsAt(index: Tree, s: Scratch, advisory: string, suffixes: seq<string>, p: string)
    ensures At(DropSidecars(index, s, advisory, suffixes), p)
            == if exists suffix | suffix in suffixes :: p == advisory + suffix && !Exists(s, p) then None else At(index, p)
  {
    hide Exists;
    if suffixes != [] {
      var n := |suffixes| - 1;
      DropSidecarsAt(index, s, advisory, suffixes[..n], p);
      assert suffixes == suffixes[..n] + [suffixes[n]];
    }
  }

  /** A sidecar's path is never the Git path of a compressed file. */
  lemma LogicalSidecar(f: string, advisory: string, suffix: string)
    requires suffix in SUFFIXES && LogicalPath(f) == advisory + suffix
    ensures f == advisory + suffix
  {
    LastOfCompressed(f);
    var p := advisory + suffix;
    assert p[|p| - 1] == suffix[|suffix| - 1] != 'n';
  }

  lemma LastOfCompressed(f: string)
    ensures LogicalPath(f) != f ==> LogicalPath(f) != "" && LogicalPath(f)[|LogicalPath(f)| - 1] == 'n'
  {
    if LogicalPath(f) != f { assert f[|f| - 5] == f[|f| - 9..][4] == 'n'; }
  }

  lemma {:induction false} SameLogical(c: Codec, s: Scratch, f: string, g: string)
    requires Stageable(c, s) && f in s.files && g in s.files && LogicalPath(f) == LogicalPath(g)
    ensures f == g
  {
    assert Accepted(c, s, f) && Accepted(c, s, g);
    if LogicalPath(f) != f && LogicalPath(g) != g {
      assert f == LogicalPath(f) + f[|f| - 4..] && g == LogicalPath(g) + g[|g| - 4..];
      assert f[|f| - 4..] == f[|f| - 9..][5..] == ".zst" && g[|g| - 4..] == g[|g| - 9..][5..] == ".zst";
    }
  }

  // ---------------------------------------------------------------- any walk order

  /** The index after some files were staged: each of them in place, their absent sidecars gone, the rest as before. */
  ghost predicate StagedSoFar(c: Codec, base: Tree, s: Scratch, done: seq<string>, index: Tree)
    requires Stageable(c, s) && forall f | f in done :: f in s.files
  {
    forall p :: At(index, p) == ExpectedAt(c, base, s, done, p)
  }

  ghost predicate DroppedBy(s: Scratch, f: string, p: string) {
    OwnsSidecars(f) && (exists suffix | suffix in SUFFIXES :: p == LogicalPath(f) + suffix && !Exists(s, p))
  }

  ghost function ExpectedAt(c: Codec, base: Tree, s: Scratch, done: seq<string>, p: string): Option<Oid>
    requires Stageable(c, s) && forall f | f in done :: f in s.files
  {
    if exists f | f in done :: LogicalPath(f) == p
    then var f :| f in done && LogicalPath(f) == p; Some(StagedId(c, s, f))
    else if exists f | f in done :: DroppedBy(s, f, p) || Displaces(LogicalPath(f), p) then None
    else At(DropKeys(base, s), p)
  }

  lemma ExpectedStaged(c: Codec, base: Tree, s: Scratch, done: seq<string>, f: string)
    requires Stageable(c, s) && (forall g | g in done :: g in s.files) && f in done
    ensures ExpectedAt(c, base, s, done, LogicalPath(f)) == Some(StagedId(c, s, f))
  {
    var g :| g in done && LogicalPath(g) == LogicalPath(f);
    forall h | h in done && LogicalPath(h) == LogicalPath(f) ensures h == f { SameLogical(c, s, h, f); }
  }

  /** What staging drops is never a file that is itself staged. */
  lemma DroppedIsNotStaged(s: Scratch, f: string, p: string, g: string)
    requires DroppedBy(s, f, p) && g in s.files
    ensures LogicalPath(g) != p
  {
    var suffix :| suffix in SUFFIXES && p == LogicalPath(f) + suffix && !Exists(s, p);
    if LogicalPath(g) == p { LogicalSidecar(g, LogicalPath(f), suffix); }
  }

  lemma PrefixOfPrefix(s: string, longer: string, p: string)
    requires StartsWith(s, longer) && StartsWith(longer, p)
    ensures StartsWith(s, p)
  {
    assert s[..|p|] == longer[..|p|];
  }

  lemma LogicalIsPrefix(f: string)
    ensures StartsWith(f, LogicalPath(f))
  {
  }

  /** No staged path needs another staged path as a directory. */
  lemma StagedSideBySide(c: Codec, s: Scratch, f: string, g: string)
    requires Stageable(c, s) && ValidScratch(s) && f in s.files && g in s.files
    ensures !StartsWith(LogicalPath(g), LogicalPath(f) + "/")
  {
    assert Accepted(c, s, f);
    LogicalIsPrefix(g);
    if StartsWith(LogicalPath(g), LogicalPath(f) + "/") { PrefixOfPrefix(g, LogicalPath(g), LogicalPath(f) + "/"); }
  }

  lemma StageFileAt(c: Codec, index: Tree, s: Scratch, f: string, p: string)
    requires f in s.files && Bytes(c, s, f).Some?
    ensures At(StageFile(c, index, s, f), p)
            == if p == LogicalPath(f) then Some(StagedId(c, s, f))
               else if DroppedBy(s, f, p) || Displaces(LogicalPath(f), p) then None
               else At(index, p)
  {
    hide Exists, OwnsSidecars, LogicalPath, DropSidecars, Bytes, Displaces;
    DropSidecarsAt(index, s, LogicalPath(f), SUFFIXES, p);
  }

  lemma StageOne(c: Codec, base: Tree, s: Scratch, done: seq<string>, index: Tree, f: string)
    requires Stageable(c, s) && ValidScratch(s) && (forall g | g in done :: g in s.files) && f in s.files
    requires StagedSoFar(c, base, s, done, index)
    ensures Accepted(c, s, f) && StagedSoFar(c, base, s, done + [f], StageFile(c, index, s, f))
  {
    hide Accepted, DroppedBy, StageFile, DropKeys, LogicalPath, Bytes, ValidScratch;
    AcceptedBytes(c, s);
    var more := done + [f];
    assert forall g :: g in more <==> g in done || g == f;
    forall p ensures At(StageFile(c, index, s, f), p) == ExpectedAt(c, base, s, more, p) {
      StageFileAt(c, index, s, f, p);
      assert At(index, p) == ExpectedAt(c, base, s, done, p);
      if p == LogicalPath(f) {
        ExpectedStaged(c, base, s, more, f);
      } else if g :| g in done && LogicalPath(g) == p {
        ExpectedStaged(c, base, s, done, g);
        ExpectedStaged(c, base, s, more, g);
        if DroppedBy(s, f, p) { DroppedIsNotStaged(s, f, p, g); }
        StagedSideBySide(c, s, f, g);
        StagedSideBySide(c, s, g, f);
      }
    }
  }

  lemma AcceptedBytes(c: Codec, s: Scratch)
    requires Stageable(c, s)
    ensures forall f | f in s.files :: Accepted(c, s, f) && Bytes(c, s, f).Some?
  {
  }

  /** After all files, in whatever order, the index is the overlay. */
  lemma AllStaged(c: Codec, base: Tree, s: Scratch, walk: seq<string>, index: Tree)
    requires Stageable(c, s) && ValidScratch(s) && forall f :: f in walk <==> f in s.files
    requires StagedSoFar(c, base, s, walk, index)
    ensures Overlays(c, base, s, index)
  {
    hide LogicalPath, Accepted, OwnsSidecars, Exists, Bytes, Displaces;
    AcceptedBytes(c, s);
    forall f | f in s.files ensures At(index, LogicalPath(f)) == Some(StagedId(c, s, f)) {
      ExpectedStaged(c, base, s, walk, f);
    }
    forall p | (forall f | f in s.files :: LogicalPath(f) != p)
      ensures At(index, p) == if OldKey(s, p) || AbsentSidecar(s, p) || Displaced(s, p) then None else At(base, p)
    {
      assert At(index, p) == ExpectedAt(c, base, s, walk, p);
    }
  }

  /** An overlay is determined by base and scratch: the order of the walk cannot matter. */
  lemma OverlayUnique(c: Codec, base: Tree, s: Scratch, a: Tree, b: Tree)
    requires Stageable(c, s) && Overlays(c, base, s, a) && Overlays(c, base, s, b)
    ensures a == b
  {
    hide LogicalPath, Accepted, OldKey, AbsentSidecar, Displaced, StagedId;
    forall p ensures At(a, p) == At(b, p) {
      if f :| f in s.files && LogicalPath(f) == p {}
    }
    forall p | p in a || p in b ensures p in a && p in b && a[p] == b[p] { assert At(a, p) == At(b, p); }
  }

  /** No path of the tree is also a directory of it. */
  predicate SideBySide(tree: Tree) {
    forall p, q | p in tree && q in tree :: !StartsWith(q, p + "/")
  }

  /** The overlay of a tree can again be written as a tree. */
  lemma OverlayIsTree(c: Codec, base: Tree, s: Scratch, index: Tree)
    requires Stageable(c, s) && ValidScratch(s) && SideBySide(base) && Overlays(c, base, s, index)
    ensures SideBySide(index)
    ensures forall p, q | p in index && q in index :: !(|q| > |p| && q[..|p| + 1] == p + "/")
  {
    hide LogicalPath, Accepted, OldKey, AbsentSidecar, StagedId, ValidScratch;
    forall p, q | p in index && q in index ensures !StartsWith(q, p + "/") {
      assert At(index, p).Some? && At(index, q).Some?;
      if f :| f in s.files && LogicalPath(f) == p {
        if g :| g in s.files && LogicalPath(g) == q {
          StagedSideBySide(c, s, f, g);
        } else {
          assert !Displaces(LogicalPath(f), q);
        }
      } else if g :| g in s.files && LogicalPath(g) == q {
        assert !Displaces(LogicalPath(g), p);
      }
    }
  }

  // ---------------------------------------------------------------- in terms of bytes and names

  /** The name under which an advisory is downloaded: its own, and ".zst". */
  predicate IsCompressed(f: string) {
    |f| >= 9 && f[|f| - 9..] == ".json.zst"
  }

  function GitPath(f: string): string {
    if IsCompressed(f) then f[..|f| - 4] else f
  }

  /** Nothing was downloaded at the path or below it. */
  predicate NotDownloaded(s: Scratch, p: string) {
    p !in s.files && forall q | q in s.files :: !(|q| > |p| && q[..|p| + 1] == p + "/")
  }

  /** Every compressed file can be decompressed and is not there a second time. */
  ghost predicate CanStage(c: Codec, s: Scratch) {
    forall f | f in s.files && IsCompressed(f) :: c.decode(s.files[f]).Some? && NotDownloaded(s, f[..|f| - 4])
  }

  /** A JSON file with a name, outside the metadata directory. */
  predicate BringsSidecars(p: string) {
    && |p| > 5 && p[|p| - 5..] == ".json" && p[|p| - 6] != '/'
    && !(|p| >= 9 && p[..9] == "metadata/")
  }

  /** Old content that a download takes away: a key of a replaced set, a sidecar that did not come with its advisory, or a
      path that is now needed as a directory, or the other way round. */
  ghost predicate TakenAway(s: Scratch, p: string) {
    || (s.keys && |p| >= 14 && p[..14] == "metadata/keys/")
    || (exists f | f in s.files :: BringsSidecars(GitPath(f)) && NotDownloaded(s, p)
          && (p == GitPath(f) + ".asc" || p == GitPath(f) + ".sha256" || p == GitPath(f) + ".sha512"))
    || (exists f | f in s.files ::
          || (|p| > |GitPath(f)| && p[..|GitPath(f)| + 1] == GitPath(f) + "/")
          || (|GitPath(f)| > |p| && GitPath(f)[..|p| + 1] == p + "/"))
  }

  /** The index holds decompressed advisories, every other file as it is, and the rest of the base. */
  ghost predicate Laid(c: Codec, base: Tree, s: Scratch, index: Tree) {
    && (forall f | f in s.files && IsCompressed(f) ::
          && f[..|f| - 4] in index && c.decode(s.files[f]).Some?
          && index[f[..|f| - 4]] == c.blob(c.decode(s.files[f]).value))
    && (forall f | f in s.files && !IsCompressed(f) :: f in index && index[f] == c.blob(s.files[f]))
    && (forall p | forall f | f in s.files :: GitPath(f) != p ::
          && (p in index <==> p in base && !TakenAway(s, p))
          && (p in index ==> index[p] == base[p]))
  }

  lemma GitPathIs(f: string)
    ensures GitPath(f) == LogicalPath(f) && (LogicalPath(f) != f <==> IsCompressed(f))
  {
  }

  lemma NotDownloadedIs(s: Scratch, p: string)
    ensures NotDownloaded(s, p) <==> !Exists(s, p)
  {
  }

  lemma NameOf(p: string)
    ensures p != "" && p[|p| - 1] != '/' ==> |FileName(p)| == |FileName(p[..|p| - 1])| + 1
    ensures p == "" || p[|p| - 1] == '/' ==> FileName(p) == ""
  {
  }

  lemma BringsSidecarsIs(p: string)
    ensures BringsSidecars(p) <==> HasJsonExtension(p) && !InMetadata(p)
  {
    if |p| >= 5 && p[|p| - 5..] == ".json" {
      assert p[|p| - 5..][0] == '.' && p[|p| - 5..][1] == 'j' && p[|p| - 5..][2] == 's' && p[|p| - 5..][3] == 'o' && p[|p| - 5..][4] == 'n';
      var n := |p|;
      NameOf(p);
      NameOf(p[..n - 1]);
      assert p[..n - 1][..n - 2] == p[..n - 2];
      NameOf(p[..n - 2]);
      assert p[..n - 2][..n - 3] == p[..n - 3];
      NameOf(p[..n - 3]);
      assert p[..n - 3][..n - 4] == p[..n - 4];
      NameOf(p[..n - 4]);
      assert p[..n - 4][..n - 5] == p[..n - 5];
      NameOf(p[..n - 5]);
    }
  }

  lemma StageableIs(c: Codec, s: Scratch)
    ensures Stageable(c, s) <==> CanStage(c, s)
  {
    hide Exists, NotDownloaded, LogicalPath;
    forall f | f in s.files
      ensures Accepted(c, s, f) <==> (IsCompressed(f) ==> c.decode(s.files[f]).Some? && NotDownloaded(s, f[..|f| - 4]))
    {
      AcceptedIs(c, s, f);
    }
  }

  lemma AcceptedIs(c: Codec, s: Scratch, f: string)
    requires f in s.files
    ensures IsCompressed(f) ==> |f| >= 4
    ensures Accepted(c, s, f) <==> (IsCompressed(f) ==> c.decode(s.files[f]).Some? && NotDownloaded(s, f[..|f| - 4]))
    ensures Accepted(c, s, f) ==>
              StagedId(c, s, f) == c.blob(if IsCompressed(f) then c.decode(s.files[f]).value else s.files[f])
  {
    hide Exists, NotDownloaded;
    GitPathIs(f);
    NotDownloadedIs(s, LogicalPath(f));
  }

  lemma TakenAwayIs(s: Scratch, p: string)
    ensures TakenAway(s, p) <==> OldKey(s, p) || AbsentSidecar(s, p) || Displaced(s, p)
  {
    hide Exists, NotDownloaded, LogicalPath, GitPath, HasJsonExtension, BringsSidecars, InMetadata;
    NotDownloadedIs(s, p);
    forall f ensures GitPath(f) == LogicalPath(f) && (BringsSidecars(GitPath(f)) <==> OwnsSidecars(f)) {
      GitPathIs(f);
      BringsSidecarsIs(LogicalPath(f));
    }
    assert SUFFIXES == [".asc", ".sha256", ".sha512"];
    forall f, suffix | f in s.files && suffix in SUFFIXES && OwnsSidecars(f) && p == LogicalPath(f) + suffix && !Exists(s, p)
      ensures TakenAway(s, p)
    {
    }
    if f :| f in s.files && BringsSidecars(GitPath(f)) && NotDownloaded(s, p)
            && (p == GitPath(f) + ".asc" || p == GitPath(f) + ".sha256" || p == GitPath(f) + ".sha512") {
      assert SUFFIXES[0] in SUFFIXES && SUFFIXES[1] in SUFFIXES && SUFFIXES[2] in SUFFIXES;
      var suffix := if p == GitPath(f) + ".asc" then ".asc" else if p == GitPath(f) + ".sha256" then ".sha256" else ".sha512";
      assert suffix in SUFFIXES;
    }
    assert Displaced(s, p) <==> exists f | f in s.files ::
      || (|p| > |GitPath(f)| && p[..|GitPath(f)| + 1] == GitPath(f) + "/")
      || (|GitPath(f)| > |p| && GitPath(f)[..|p| + 1] == p + "/");
  }

  /** What an overlay holds, in terms of the downloaded bytes and their names. */
  lemma OverlayIsLaid(c: Codec, base: Tree, s: Scratch, index: Tree)
    requires Stageable(c, s) && Overlays(c, base, s, index)
    ensures Laid(c, base, s, index)
  {
    hide Stageable, Overlays, GitPath, IsCompressed, TakenAway;
    forall f | f in s.files && IsCompressed(f)
      ensures |f| >= 4 && f[..|f| - 4] in index && c.decode(s.files[f]).Some?
      ensures index[f[..|f| - 4]] == c.blob(c.decode(s.files[f]).value)
    {
      OverlayFile(c, base, s, index, f);
    }
    forall f | f in s.files && !IsCompressed(f) ensures f in index && index[f] == c.blob(s.files[f]) {
      OverlayFile(c, base, s, index, f);
    }
    forall p | forall f | f in s.files :: GitPath(f) != p
      ensures (p in index <==> p in base && !TakenAway(s, p)) && (p in index ==> index[p] == base[p])
    {
      OverlayElsewhere(c, base, s, index, p);
    }
  }

  lemma OverlayFile(c: Codec, base: Tree, s: Scratch, index: Tree, f: string)
    requires Stageable(c, s) && Overlays(c, base, s, index) && f in s.files
    ensures IsCompressed(f) ==>
              && |f| >= 4 && f[..|f| - 4] in index && c.decode(s.files[f]).Some?
              && index[f[..|f| - 4]] == c.blob(c.decode(s.files[f]).value)
    ensures !IsCompressed(f) ==> f in index && index[f] == c.blob(s.files[f])
  {
    hide Exists, NotDownloaded, LogicalPath, GitPath, IsCompressed, OldKey, AbsentSidecar, Displaced, Bytes, StagedId;
    CompressedPath(f);
    AcceptedIs(c, s, f);
    assert At(index, LogicalPath(f)) == Some(StagedId(c, s, f));
  }

  lemma OverlayElsewhere(c: Codec, base: Tree, s: Scratch, index: Tree, p: string)
    requires Stageable(c, s) && Overlays(c, base, s, index) && forall f | f in s.files :: GitPath(f) != p
    ensures (p in index <==> p in base && !TakenAway(s, p)) && (p in index ==> index[p] == base[p])
  {
    hide Accepted, LogicalPath, GitPath, TakenAway, OldKey, AbsentSidecar, Displaced, StagedId;
    TakenAwayIs(s, p);
    forall f | f in s.files ensures LogicalPath(f) != p { CompressedPath(f); }
    assert At(index, p) == if OldKey(s, p) || AbsentSidecar(s, p) || Displaced(s, p) then None else At(base, p);
  }

  lemma CompressedPath(f: string)
    ensures GitPath(f) == LogicalPath(f)
    ensures IsCompressed(f) ==> |f| >= 4 && GitPath(f) == f[..|f| - 4]
    ensures !IsCompressed(f) ==> GitPath(f) == f
  {
  }

  // ---------------------------------------------------------------- compression does not show

  /** The same download with one advisory as it is instead of compressed. */
  function Unpacked(s: Scratch, p: string, x: Content): Scratch {
    s.(files := (s.files - {p + ".zst"})[p := x])
  }

  lemma UnpackedFiles(s: Scratch, p: string, x: Content, f: string)
    requires p + ".zst" in s.files && p !in s.files
    ensures f in Unpacked(s, p, x).files <==> f == p || (f in s.files && f != p + ".zst")
    ensures f in s.files && f != p + ".zst" ==> Unpacked(s, p, x).files[f] == s.files[f]
    ensures Unpacked(s, p, x).files[p] == x
  {
  }

  /** Nothing but the advisory itself is there in one form and not in the other. */
  lemma SameDownloads(s: Scratch, p: string, x: Content, q: string)
    requires p + ".zst" in s.files && p !in s.files && q != p && q != p + ".zst"
    ensures NotDownloaded(Unpacked(s, p, x), q) <==> NotDownloaded(s, q)
  {
    var t := Unpacked(s, p, x);
    var z := p + ".zst";
    BelowSame(p, q);
    forall f ensures f in t.files <==> f == p || (f in s.files && f != z) { UnpackedFiles(s, p, x, f); }
    if !NotDownloaded(t, q) && q !in t.files {
      var f :| f in t.files && |f| > |q| && f[..|q| + 1] == q + "/";
      assert f == p ==> z in s.files && |z| > |q| && z[..|q| + 1] == q + "/";
    }
    if !NotDownloaded(s, q) && q !in s.files {
      var f :| f in s.files && |f| > |q| && f[..|q| + 1] == q + "/";
      assert f == z ==> p in t.files && |p| > |q| && p[..|q| + 1] == q + "/";
    }
  }

  lemma BelowSame(p: string, q: string)
    ensures (|p| > |q| && p[..|q| + 1] == q + "/") <==> (|p + ".zst"| > |q| && (p + ".zst")[..|q| + 1] == q + "/")
  {
    var z := p + ".zst";
    if |p| > |q| {
      assert z[..|q| + 1] == p[..|q| + 1];
    } else if |z| > |q| {
      assert z[..|q| + 1][|q|] == z[|q|] == ".zst"[|q| - |p|];
    }
  }

  /** The download that stands for `f` when the advisory is unpacked. */
  function Counterpart(p: string, f: string): string {
    if f == p + ".zst" then p else f
  }

  lemma CounterpartPath(p: string, f: string)
    requires EndsWith(p, ".json")
    ensures GitPath(Counterpart(p, f)) == GitPath(f)
    ensures IsCompressed(p + ".zst") && GitPath(p + ".zst") == p && !IsCompressed(p)
  {
    var z := p + ".zst";
    assert z[|z| - 9..] == p[|p| - 5..] + ".zst";
    LastOfSuffix(p, ".json");
    LastOfSuffix(p, ".json.zst");
    assert z[..|z| - 4] == p;
  }

  function GitPaths(s: Scratch): set<string> {
    set f | f in s.files :: GitPath(f)
  }

  lemma SameGitPaths(s: Scratch, p: string, x: Content)
    requires EndsWith(p, ".json") && p + ".zst" in s.files && p !in s.files
    ensures GitPaths(Unpacked(s, p, x)) == GitPaths(s)
  {
    hide GitPath, IsCompressed, Unpacked;
    var t := Unpacked(s, p, x);
    forall u ensures u in GitPaths(t) <==> u in GitPaths(s) {
      if u in GitPaths(s) {
        var f :| f in s.files && GitPath(f) == u;
        CounterpartPath(p, f);
        UnpackedFiles(s, p, x, Counterpart(p, f));
      }
      if u in GitPaths(t) {
        var f :| f in t.files && GitPath(f) == u;
        UnpackedFiles(s, p, x, f);
        CounterpartPath(p, p + ".zst");
        assert (if f == p then p + ".zst" else f) in s.files;
      }
    }
  }

  lemma SameSidecar(s: Scratch, p: string, x: Content, a: string, suffix: string)
    requires EndsWith(p, ".json") && p + ".zst" in s.files && p !in s.files && suffix in {".asc", ".sha256", ".sha512"}
    ensures NotDownloaded(Unpacked(s, p, x), a + suffix) <==> NotDownloaded(s, a + suffix)
  {
    hide NotDownloaded, Unpacked;
    var u, z := a + suffix, p + ".zst";
    LastOfSuffix(p, ".json");
    assert u[|u| - 1] == suffix[|suffix| - 1] && p[|p| - 1] == 'n' && z[|z| - 1] == 't';
    SameDownloads(s, p, x, u);
  }

  lemma SameTakenAway(s: Scratch, p: string, x: Content, u: string)
    requires EndsWith(p, ".json") && p + ".zst" in s.files && NotDownloaded(s, p)
    ensures TakenAway(Unpacked(s, p, x), u) <==> TakenAway(s, u)
  {
    hide GitPath, IsCompressed, BringsSidecars, NotDownloaded, Unpacked, TakenAway;
    var t := Unpacked(s, p, x);
    NotThere(s, p);
    UnpackedKeys(s, p, x);
    SameGitPaths(s, p, x);
    forall a, suffix | suffix in {".asc", ".sha256", ".sha512"} && u == a + suffix
      ensures NotDownloaded(t, u) <==> NotDownloaded(s, u)
    {
      SameSidecar(s, p, x, a, suffix);
    }
    TakenFrom(s, t, u);
    TakenFrom(t, s, u);
  }

  /** Only the paths that downloads have in Git decide what is taken away. */
  lemma TakenFrom(s: Scratch, t: Scratch, u: string)
    requires s.keys == t.keys && GitPaths(s) <= GitPaths(t)
    requires forall a, suffix | suffix in {".asc", ".sha256", ".sha512"} && u == a + suffix :: NotDownloaded(t, u) <==> NotDownloaded(s, u)
    ensures TakenAway(s, u) ==> TakenAway(t, u)
  {
    hide GitPath, BringsSidecars, NotDownloaded;
    if f :| f in s.files && BringsSidecars(GitPath(f)) && NotDownloaded(s, u)
            && (u == GitPath(f) + ".asc" || u == GitPath(f) + ".sha256" || u == GitPath(f) + ".sha512") {
      assert GitPath(f) in GitPaths(s);
      var g :| g in t.files && GitPath(g) == GitPath(f);
      assert BringsSidecars(GitPath(g)) && NotDownloaded(t, u);
    }
    if f :| f in s.files && ((|u| > |GitPath(f)| && u[..|GitPath(f)| + 1] == GitPath(f) + "/")
                             || (|GitPath(f)| > |u| && GitPath(f)[..|u| + 1] == u + "/")) {
      assert GitPath(f) in GitPaths(s);
      var g :| g in t.files && GitPath(g) == GitPath(f);
    }
  }

  lemma NotThere(s: Scratch, p: string)
    requires NotDownloaded(s, p)
    ensures p !in s.files
  {
  }

  lemma UnpackedKeys(s: Scratch, p: string, x: Content)
    ensures Unpacked(s, p, x).keys == s.keys
  {
  }

  /** An advisory that arrives compressed can be staged as it is, too. */
  lemma UnpackedCanStage(c: Codec, s: Scratch, p: string, x: Content)
    requires EndsWith(p, ".json") && p + ".zst" in s.files && CanStage(c, s)
    ensures NotDownloaded(s, p) && CanStage(c, Unpacked(s, p, x))
  {
    hide NotDownloaded, Unpacked, GitPath;
    var t, z := Unpacked(s, p, x), p + ".zst";
    CounterpartPath(p, p);
    assert z[..|z| - 4] == p;
    NotThere(s, p);
    forall f | f in t.files && IsCompressed(f) ensures c.decode(t.files[f]).Some? && NotDownloaded(t, f[..|f| - 4]) {
      UnpackedFiles(s, p, x, f);
      var q := f[..|f| - 4];
      assert f[|f| - 9..][4] == 'n' && q[|q| - 1] == f[|f| - 5] == 'n';
      assert f == q + f[|f| - 4..] && f[|f| - 4..] == f[|f| - 9..][5..] == ".zst";
      assert z[|z| - 1] == 't';
      SameDownloads(s, p, x, q);
    }
  }

  /** Compression does not show: an advisory staged from its compressed form gives the very index it would give as it is. */
  lemma CompressionDoesNotShow(c: Codec, base: Tree, s: Scratch, p: string, x: Content, compressed: Tree, plain: Tree)
    requires EndsWith(p, ".json") && p + ".zst" in s.files && c.decode(s.files[p + ".zst"]) == Some(x)
    requires Stageable(c, s) && Overlays(c, base, s, compressed)
    ensures Stageable(c, Unpacked(s, p, x))
    ensures Overlays(c, base, Unpacked(s, p, x), plain) ==> plain == compressed
  {
    hide Stageable, Overlays, NotDownloaded, TakenAway, Unpacked, CanStage, Laid;
    var t := Unpacked(s, p, x);
    StageableIs(c, s);
    UnpackedCanStage(c, s, p, x);
    StageableIs(c, t);
    if Overlays(c, base, t, plain) {
      OverlayIsLaid(c, base, s, compressed);
      OverlayIsLaid(c, base, t, plain);
      forall u ensures At(plain, u) == At(compressed, u) { SameLaid(c, base, s, p, x, compressed, plain, u); }
      forall u | u in plain || u in compressed ensures u in plain && u in compressed && plain[u] == compressed[u] {
        assert At(plain, u) == At(compressed, u);
      }
    }
  }

  lemma SameLaid(c: Codec, base: Tree, s: Scratch, p: string, x: Content, compressed: Tree, plain: Tree, u: string)
    requires EndsWith(p, ".json") && p + ".zst" in s.files && c.decode(s.files[p + ".zst"]) == Some(x) && NotDownloaded(s, p)
    requires Laid(c, base, s, compressed) && Laid(c, base, Unpacked(s, p, x), plain)
    ensures At(plain, u) == At(compressed, u)
  {
    hide NotDownloaded, TakenAway, Unpacked;
    var t, z := Unpacked(s, p, x), p + ".zst";
    NotThere(s, p);
    CounterpartPath(p, p);
    assert z[..|z| - 4] == p;
    UnpackedFiles(s, p, x, p);
    if u == p {
      assert compressed[z[..|z| - 4]] == c.blob(x) && plain[p] == c.blob(x);
    } else if f :| f in s.files && GitPath(f) == u {
      UnpackedFiles(s, p, x, f);
      assert f != z && f in t.files && t.files[f] == s.files[f];
    } else {
      forall f | f in t.files ensures GitPath(f) != u {
        UnpackedFiles(s, p, x, f);
      }
      SameTakenAway(s, p, x, u);
    }
  }

  // ---------------------------------------------------------------- packing

  /** One staged file: its blob and the bytes it buffered. */
  datatype Staged = Staged(id: Oid, bytes: nat)

  function Buffered(batch: seq<Staged>): nat {
    if batch == [] then 0 else Buffered(batch[..|batch| - 1]) + batch[|batch| - 1].bytes
  }

  function Flattened(batches: seq<seq<Staged>>): seq<Staged> {
    if batches == [] then [] else Flattened(batches[..|batches| - 1]) + batches[|batches| - 1]
  }

  /** A batch flushed because of the threshold: it reaches it, and only with its last file. */
  ghost predicate FullBatch(batch: seq<Staged>, threshold: nat) {
    batch != [] && Buffered(batch) >= threshold && (Buffered(batch[..|batch| - 1]) < threshold || threshold == 0)
  }

  function Ids(batch: seq<Staged>): set<Oid> {
    set x | x in batch :: x.id
  }

  /** The packs so far and the buffer hold exactly the staged files, in order. */
  ghost predicate Packing(all: seq<Staged>, batches: seq<seq<Staged>>, buffered: seq<Staged>, packed: set<Oid>, threshold: nat) {
    && all == Flattened(batches) + buffered
    && packed == Ids(Flattened(batches))
    && (forall b | b in batches :: FullBatch(b, threshold))
    && (buffered == [] || Buffered(buffered) < threshold)
  }

  lemma IdsUnion(a: seq<Staged>, b: seq<Staged>)
    ensures Ids(a + b) == Ids(a) + Ids(b)
  {
    forall x | x in Ids(a) + Ids(b) ensures x in Ids(a + b) {
      if x in Ids(a) { var e :| e in a && e.id == x; assert e in a + b; }
      else { var e :| e in b && e.id == x; assert e in a + b; }
    }
  }

  lemma BufferOneMore(buffered: seq<Staged>, x: Staged)
    ensures Ids(buffered + [x]) == Ids(buffered) + {x.id}
    ensures Buffered(buffered + [x]) == Buffered(buffered) + x.bytes
  {
    IdsUnion(buffered, [x]);
    assert Ids([x]) == {x.id};
    assert (buffered + [x])[..|buffered|] == buffered;
  }

  /** Removes committed sidecars of an advisory that was downloaded without them. */
  method RemoveAbsentSidecars(index: Tree, s: Scratch, advisory: string) returns (next: Tree)
    ensures next == DropSidecars(index, s, advisory, SUFFIXES)
  {
    hide Exists;
    next := index;
    for k := 0 to |SUFFIXES|
      invariant next == DropSidecars(index, s, advisory, SUFFIXES[..k])
    {
      assert SUFFIXES[..k + 1][..k] == SUFFIXES[..k];
      var sidecar := advisory + SUFFIXES[k];
      if !Exists(s, sidecar) && sidecar in next {
        next := next - {sidecar};
      }
    }
    assert SUFFIXES[..|SUFFIXES|] == SUFFIXES;
  }

  lemma KeepBuffering(all: seq<Staged>, batches: seq<seq<Staged>>, buffered: seq<Staged>, packed: set<Oid>, threshold: nat, x: Staged)
    requires Packing(all, batches, buffered, packed, threshold) && Buffered(buffered + [x]) < threshold
    ensures Packing(all + [x], batches, buffered + [x], packed, threshold)
  {
    assert Flattened(batches) + buffered + [x] == Flattened(batches) + (buffered + [x]);
  }

  lemma FlushBuffer(all: seq<Staged>, batches: seq<seq<Staged>>, buffered: seq<Staged>, packed: set<Oid>, threshold: nat, x: Staged)
    requires Packing(all, batches, buffered, packed, threshold) && Buffered(buffered + [x]) >= threshold
    ensures Packing(all + [x], batches + [buffered + [x]], [], packed + Ids(buffered + [x]), threshold)
  {
    var batch := buffered + [x];
    assert batch[..|batch| - 1] == buffered;
    assert Buffered(buffered) < threshold || threshold == 0;
    assert (batches + [batch])[..|batches|] == batches;
    assert Flattened(batches) + buffered + [x] == Flattened(batches) + batch;
    IdsUnion(Flattened(batches), batch);
    assert Flattened(batches + [batch]) + [] == Flattened(batches + [batch]);
  }

  /** After the last flush: every staged blob is packed, in order, and only the last batch may be short. */
  ghost predicate AllPacked(all: seq<Staged>, batches: seq<seq<Staged>>, packed: set<Oid>, threshold: nat) {
    && Flattened(batches) == all && packed == Ids(all)
    && (forall b | 0 <= b < |batches| - 1 :: FullBatch(batches[b], threshold))
    && (batches != [] ==>
          var last := batches[|batches| - 1];
          last != [] && (FullBatch(last, threshold) || Buffered(last) < threshold))
  }

  lemma LastFlush(all: seq<Staged>, batches: seq<seq<Staged>>, buffered: seq<Staged>, packed: set<Oid>, threshold: nat)
    requires Packing(all, batches, buffered, packed, threshold)
    ensures AllPacked(all, if buffered == [] then batches else batches + [buffered], packed + Ids(buffered), threshold)
  {
    IdsUnion(Flattened(batches), buffered);
    if buffered == [] {
      assert Ids([]) == {};
      assert Flattened(batches) + [] == Flattened(batches);
      if batches != [] { assert batches[|batches| - 1] in batches; }
    } else {
      assert (batches + [buffered])[..|batches|] == batches;
    }
  }

  ghost predicate IsStaged(c: Codec, s: Scratch, file: string, x: Staged) {
    && file in s.files && Bytes(c, s, file).Some?
    && x == Staged(StagedId(c, s, file), c.size(Bytes(c, s, file).value))
  }

  lemma NothingStagedYet(c: Codec, base: Tree, s: Scratch)
    ensures Stageable(c, s) ==> StagedSoFar(c, base, s, [], DropKeys(base, s))
  {
  }

  ghost predicate Covers(s: Scratch, walk: seq<string>) {
    forall f :: f in walk <==> f in s.files
  }

  ghost predicate AcceptedAll(c: Codec, s: Scratch, files: seq<string>) {
    forall f | f in files :: f in s.files && Accepted(c, s, f)
  }

  /** The staged list names the files in order. */
  ghost predicate StagedList(c: Codec, s: Scratch, files: seq<string>, all: seq<Staged>) {
    |all| == |files| && forall i :: 0 <= i < |files| ==> IsStaged(c, s, files[i], all[i])
  }

  lemma StageableWalk(c: Codec, s: Scratch, walk: seq<string>)
    requires Covers(s, walk)
    ensures Stageable(c, s) <==> AcceptedAll(c, s, walk)
    ensures forall i | 0 <= i < |walk| :: walk[i] in s.files
  {
  }

  lemma ListNext(c: Codec, s: Scratch, walk: seq<string>, i: nat, all: seq<Staged>, x: Staged)
    requires i < |walk| && AcceptedAll(c, s, walk[..i]) && StagedList(c, s, walk[..i], all)
    requires walk[i] in s.files
    ensures AcceptedAll(c, s, walk[..i + 1]) <==> Accepted(c, s, walk[i])
    ensures IsStaged(c, s, walk[i], x) ==> StagedList(c, s, walk[..i + 1], all + [x])
    ensures AcceptedAll(c, s, walk) ==> Accepted(c, s, walk[i])
    ensures walk[..i + 1] == walk[..i] + [walk[i]]
    ensures forall g | g in walk[..i] :: g in s.files
  {
    hide Accepted, IsStaged;
    assert walk[..i + 1] == walk[..i] + [walk[i]];
    assert forall f :: f in walk[..i + 1] <==> f in walk[..i] || f == walk[i];
  }

  lemma StageNext(c: Codec, base: Tree, s: Scratch, done: seq<string>, index: Tree, f: string)
    requires ValidScratch(s) && f in s.files && (forall g | g in done :: g in s.files) && Accepted(c, s, f)
    requires Stageable(c, s) ==> StagedSoFar(c, base, s, done, index)
    ensures Stageable(c, s) ==> StagedSoFar(c, base, s, done + [f], StageFile(c, index, s, f))
  {
    hide Accepted, StageFile, StagedSoFar, ValidScratch;
    if Stageable(c, s) { StageOne(c, base, s, done, index, f); }
  }

  /** Blobs are buffered in memory until a pack with exactly the listed objects is written. */
  class Stager {
    var index: Tree
    /** Blobs held in memory, dropped by a reset. */
    var mempack: set<Oid>
    /** Blobs in packs on disk. */
    var packed: set<Oid>
    var buffered: seq<Staged>
    var bufferedBytes: nat
    ghost var batches: seq<seq<Staged>>

    constructor (base: Tree)
      ensures Valid() && index == base && mempack == {} && packed == {} && buffered == [] && batches == []
    {
      index, mempack, packed, buffered, bufferedBytes := base, {}, {}, [], 0;
      batches := [];
    }

    /** Everything held in memory is listed for the next pack. */
    ghost predicate Valid()
      reads this
    {
      mempack <= Ids(buffered) && bufferedBytes == Buffered(buffered)
    }

    /** Writes the listed blobs to a pack, then forgets everything held in memory. */
    method FlushMempack()
      requires Valid()
      modifies this`mempack, this`packed, this`buffered, this`bufferedBytes, this`batches
      ensures Valid() && mempack == {} && buffered == []
      ensures packed == old(packed) + Ids(old(buffered))
      ensures batches == if old(buffered) == [] then old(batches) else old(batches) + [old(buffered)]
    {
      if buffered == [] {
        assert Ids(buffered) == {};
        return;
      }
      packed := packed + Ids(buffered);
      mempack := {};
      batches := batches + [buffered];
      buffered, bufferedBytes := [], 0;
    }

    /** Stages one file; fails when its advisory is there twice or cannot be decompressed. */
    method StageOneFile(c: Codec, s: Scratch, file: string) returns (ok: bool)
      requires file in s.files && Valid()
      modifies this`index, this`mempack, this`buffered, this`bufferedBytes
      ensures Valid() && (ok <==> Accepted(c, s, file))
      ensures ok ==> index == StageFile(c, old(index), s, file)
      ensures ok ==> |buffered| == |old(buffered)| + 1 && IsStaged(c, s, file, buffered[|old(buffered)|])
                     && buffered == old(buffered) + [buffered[|old(buffered)|]]
    {
      hide LogicalPath, Exists, OwnsSidecars, DropSidecars, Ids, Buffered, AddEntry;
      var logical := LogicalPath(file);
      var next := index;
      if OwnsSidecars(file) {
        next := RemoveAbsentSidecars(index, s, logical);
      }
      if logical != file && Exists(s, logical) {
        return false;
      }
      var data := Bytes(c, s, file);
      if data.None? {
        return false;
      }
      var staged := Staged(c.blob(data.value), c.size(data.value));
      index := AddEntry(next, logical, staged.id);
      BufferOneMore(buffered, staged);
      mempack := mempack + {staged.id};
      buffered := buffered + [staged];
      bufferedBytes := bufferedBytes + staged.bytes;
      ok := true;
    }

    /** Stages every scratch file in the order the walk meets it, flushing packs at a threshold.
        Whatever that order, success leaves the overlay, and every staged blob is packed. */
    method StageAll(c: Codec, s: Scratch, walk: seq<string>, threshold: nat) returns (ok: bool, ghost all: seq<Staged>)
      requires Valid() && packed == {} && buffered == [] && batches == []
      requires ValidScratch(s) && Covers(s, walk)
      modifies this
      ensures ok <==> Stageable(c, s)
      ensures ok <==> CanStage(c, s)
      ensures ok ==> Overlays(c, old(index), s, index) && Laid(c, old(index), s, index)
      ensures ok ==> StagedList(c, s, walk, all)
      ensures ok ==> forall f | f in s.files :: GitPath(f) in index && index[GitPath(f)] in packed
      ensures ok ==> mempack == {} && AllPacked(all, batches, packed, threshold)
      ensures ok ==> forall b | 0 <= b < |batches| :: batches[b] != []
                       && (Buffered(batches[b]) >= threshold || b == |batches| - 1)
                       && (Buffered(batches[b][..|batches[b]| - 1]) < threshold || threshold == 0)
    {
      hide Overlays, Stageable, StagedSoFar, StageFile, Accepted, AcceptedAll, IsStaged, StagedList, Packing, AllPacked, Ids, Buffered,
           DropKeys, ValidScratch, Covers, CanStage, Laid, GitPath;
      StageableIs(c, s);
      ghost var base := index;
      index := DropKeys(index, s);
      all := [];
      NothingStagedYet(c, base, s);
      StartPacking(threshold);
      StageableWalk(c, s, walk);
      NothingListed(c, s);
      for i := 0 to |walk|
        invariant Valid() && AcceptedAll(c, s, walk[..i])
        invariant (forall g | g in walk[..i] :: g in s.files) && (Stageable(c, s) ==> StagedSoFar(c, base, s, walk[..i], index))
        invariant Packing(all, batches, buffered, packed, threshold)
        invariant StagedList(c, s, walk[..i], all)
      {
        ghost var was, before, wasPacked, wasBatches := buffered, index, packed, batches;
        ok := StageOneFile(c, s, walk[i]);
        ghost var x := if ok then buffered[|was|] else Staged("", 0);
        ListNext(c, s, walk, i, all, x);
        if !ok {
          return;
        }
        StageNext(c, base, s, walk[..i], before, walk[i]);
        ListedInFiles(c, s, walk[..i + 1]);
        if bufferedBytes >= threshold {
          FlushBuffer(all, wasBatches, was, wasPacked, threshold, x);
          FlushMempack();
        } else {
          KeepBuffering(all, wasBatches, was, wasPacked, threshold, x);
        }
        all := all + [x];
      }
      assert walk[..|walk|] == walk;
      LastFlush(all, batches, buffered, packed, threshold);
      FlushMempack();
      WalkIsStaged(c, base, s, walk, index);
      OverlayIsLaid(c, base, s, index);
      PackedAll(c, base, s, walk, index, all, batches, packed, threshold);
      PacksAreBounded(all, batches, packed, threshold);
      ok := true;
    }
  }

  /** A pack is written once the threshold is reached, and would not have been without its last file. */
  lemma PacksAreBounded(all: seq<Staged>, batches: seq<seq<Staged>>, packed: set<Oid>, threshold: nat)
    requires AllPacked(all, batches, packed, threshold)
    ensures forall b | 0 <= b < |batches| :: batches[b] != []
              && (Buffered(batches[b]) >= threshold || b == |batches| - 1)
              && (Buffered(batches[b][..|batches[b]| - 1]) < threshold || threshold == 0)
  {
  }

  lemma NothingListed(c: Codec, s: Scratch)
    ensures StagedList(c, s, [], []) && AcceptedAll(c, s, [])
  {
  }

  lemma ListedInFiles(c: Codec, s: Scratch, files: seq<string>)
    requires AcceptedAll(c, s, files)
    ensures forall g | g in files :: g in s.files
  {
  }

  lemma WalkIsStaged(c: Codec, base: Tree, s: Scratch, walk: seq<string>, index: Tree)
    requires Stageable(c, s) && ValidScratch(s) && Covers(s, walk) && (forall g | g in walk :: g in s.files)
    requires StagedSoFar(c, base, s, walk, index)
    ensures Overlays(c, base, s, index)
  {
    hide Stageable, Overlays, StagedSoFar, ValidScratch;
    AllStaged(c, base, s, walk, index);
  }

  lemma PackedAll(c: Codec, base: Tree, s: Scratch, walk: seq<string>, index: Tree, all: seq<Staged>, batches: seq<seq<Staged>>,
                  packed: set<Oid>, threshold: nat)
    requires Stageable(c, s) && Covers(s, walk) && Overlays(c, base, s, index) && StagedList(c, s, walk, all)
    requires AllPacked(all, batches, packed, threshold)
    ensures forall f | f in s.files :: GitPath(f) in index && index[GitPath(f)] in packed
  {
    hide Stageable, FullBatch, Flattened, Buffered, GitPath, LogicalPath, Bytes;
    forall f | f in s.files ensures GitPath(f) in index && index[GitPath(f)] in packed {
      CompressedPath(f);
      var i :| 0 <= i < |walk| && walk[i] == f;
      assert IsStaged(c, s, walk[i], all[i]);
      assert all[i].id in Ids(all);
      assert At(index, LogicalPath(f)) == Some(StagedId(c, s, f));
    }
  }

  lemma StartPacking(threshold: nat)
    ensures Packing([], [], [], {}, threshold)
  {
  }
}
