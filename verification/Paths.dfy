/** Git paths of advisories, their integrity sidecars, and their URLs. */
module Paths {
  import opened Wrappers
  import opened Strings

  const ASC := ".asc"
  const SHA256 := ".sha256"
  const SHA512 := ".sha512"

  /** Strips the first integrity suffix that matches, if any. */
  function StripSidecar(path: string): string {
    if EndsWith(path, ASC) then path[..|path| - |ASC|]
    else if EndsWith(path, SHA256) then path[..|path| - |SHA256|]
    else if EndsWith(path, SHA512) then path[..|path| - |SHA512|]
    else path
  }

  /** Maps an advisory or one of its sidecars to the advisory's path. */
  function AdvisoryPath(path: string): Option<string> {
    if StartsWith(path, "metadata/") then None
    else if EndsWith(StripSidecar(path), ".json") then Some(StripSidecar(path))
    else None
  }

  /** A path that is itself an advisory rather than a sidecar or another file. */
  predicate IsAdvisory(path: string) {
    AdvisoryPath(path) == Some(path)
  }

  /** The canonical URL of a stored HTTP path. */
  function PathUrl(path: string): string {
    "https://" + path
  }

  /** The four files whose content decides the validation of one advisory. */
  function InputPaths(advisory: string): set<string> {
    {advisory, advisory + ASC, advisory + SHA256, advisory + SHA512}
  }

  lemma PathUrlInjective(p: string, q: string)
    requires PathUrl(p) == PathUrl(q)
    ensures p == q
  {
    assert PathUrl(p)[8..] == p && PathUrl(q)[8..] == q;
  }

  lemma LastOfSuffix(s: string, suffix: string)
    ensures suffix != "" && EndsWith(s, suffix) ==> s != "" && s[|s| - 1] == suffix[|suffix| - 1]
  {
  }

  lemma ExtensionIsNotSidecar(a: string)
    requires EndsWith(a, ".json")
    ensures StripSidecar(a) == a
  {
    LastOfSuffix(a, ".json");
    LastOfSuffix(a, ASC);
    LastOfSuffix(a, SHA256);
    LastOfSuffix(a, SHA512);
  }

  lemma AdvisoryShape(a: string)
    ensures IsAdvisory(a) <==> EndsWith(a, ".json") && !StartsWith(a, "metadata/")
  {
    if EndsWith(a, ".json") { ExtensionIsNotSidecar(a); }
  }

  lemma PrefixChar(s: string, prefix: string, k: nat)
    ensures k < |prefix| && StartsWith(s, prefix) ==> s[k] == prefix[k]
  {
  }

  lemma MetadataPrefixOfExtension(a: string, suffix: string)
    requires EndsWith(a, ".json")
    ensures StartsWith(a + suffix, "metadata/") <==> StartsWith(a, "metadata/")
  {
    var m := "metadata/";
    assert a[|a| - 5..][0] == '.';
    if |a| >= |m| {
      assert (a + suffix)[..|m|] == a[..|m|];
    } else {
      assert (a + suffix)[|a| - 5] == '.' != m[|a| - 5];
      PrefixChar(a + suffix, m, |a| - 5);
    }
  }

  lemma StripExtension(a: string, suffix: string)
    requires suffix in {ASC, SHA256, SHA512}
    ensures StripSidecar(a + suffix) == a
  {
    assert (a + suffix)[|a|..] == suffix && (a + suffix)[..|a|] == a;
    LastOfSuffix(a + suffix, ASC);
    LastOfSuffix(a + suffix, SHA256);
    LastOfSuffix(a + suffix, suffix);
  }

  lemma StrippedSuffix(path: string)
    ensures path in InputPaths(StripSidecar(path))
  {
    var a := StripSidecar(path);
    assert path == a + path[|a|..];
  }

  lemma InputSelectsAdvisory(path: string, a: string)
    requires IsAdvisory(a) && path in InputPaths(a)
    ensures AdvisoryPath(path) == Some(a)
  {
    AdvisoryShape(a);
    if path != a {
      var suffix :| suffix in {ASC, SHA256, SHA512} && path == a + suffix;
      StripExtension(a, suffix);
      MetadataPrefixOfExtension(a, suffix);
    }
  }

  lemma SelectedIsAdvisory(path: string, a: string)
    requires AdvisoryPath(path) == Some(a)
    ensures IsAdvisory(a) && path in InputPaths(a)
  {
    StrippedSuffix(path);
    var suffix := path[|a|..];
    assert path == a + suffix;
    MetadataPrefixOfExtension(a, suffix);
    AdvisoryShape(a);
  }

  /** A path selects an advisory exactly when it is that advisory or one of its three sidecars. */
  lemma AdvisoryPathExact(path: string, a: string)
    ensures AdvisoryPath(path) == Some(a) <==> IsAdvisory(a) && path in InputPaths(a)
    ensures AdvisoryPath(path) == Some(a) <==>
              && |a| >= 5 && a[|a| - 5..] == ".json" && !(|a| >= 9 && a[..9] == "metadata/")
              && (path == a || path == a + ".asc" || path == a + ".sha256" || path == a + ".sha512")
  {
    AdvisoryShape(a);
    if AdvisoryPath(path) == Some(a) { SelectedIsAdvisory(path, a); }
    if IsAdvisory(a) && path in InputPaths(a) { InputSelectsAdvisory(path, a); }
  }
}
